/** The tag lists of imported items. */
module ImportTags {
  import opened Text

  /** All parts of all texts between vertical bars. */
  function Parts(texts: seq<string>): seq<string> {
    if texts == [] then [] else Parts(texts[..|texts| - 1]) + Split(texts[|texts| - 1], '|')
  }

  /** The first occurrence of each trimmed, non-empty part. */
  function Distinct(parts: seq<string>): seq<string> {
    if parts == [] then []
    else
      var before, tag := Distinct(parts[..|parts| - 1]), Trim(parts[|parts| - 1]);
      if tag == "" || tag in before then before else before + [tag]
  }

  lemma {:induction false} PartsSnoc(texts: seq<string>, i: nat)
    requires i < |texts|
    ensures Parts(texts[..i + 1]) == Parts(texts[..i]) + Split(texts[i], '|')
  {
    assert texts[..i + 1][..i] == texts[..i];
  }

  lemma {:induction false} DistinctStep(earlier: seq<string>, parts: seq<string>, j: nat)
    requires j < |parts|
    ensures var before, tag := Distinct(earlier + parts[..j]), Trim(parts[j]);
            Distinct(earlier + parts[..j + 1]) == if tag == "" || tag in before then before else before + [tag]
  {
    var all := earlier + parts[..j + 1];
    assert all == earlier + parts[..j] + [parts[j]];
    assert all[..|all| - 1] == earlier + parts[..j];
  }

  function Tags(texts: seq<string>): seq<string> {
    Distinct(Parts(texts))
  }

  method CompletionTags(texts: seq<string>) returns (result: seq<string>)
    ensures result == Tags(texts)
  {
    var seen: set<string> := {};
    result := [];
    for i := 0 to |texts|
      invariant result == Distinct(Parts(texts[..i]))
      invariant forall tag :: tag in seen <==> tag in result
    {
      var parts := Split(texts[i], '|');
      ghost var earlier := Parts(texts[..i]);
      assert earlier + parts[..0] == earlier;
      for j := 0 to |parts|
        invariant result == Distinct(earlier + parts[..j])
        invariant forall tag :: tag in seen <==> tag in result
      {
        var value := Trim(parts[j]);
        DistinctStep(earlier, parts, j);
        if value != "" && value !in seen {
          seen := seen + {value};
          result := result + [value];
        }
      }
      assert parts[..|parts|] == parts;
      PartsSnoc(texts, i);
    }
    assert texts[..|texts|] == texts;
  }

  // ----- What tags are -----

  predicate CleanTags(tags: seq<string>) {
    (forall i | 0 <= i < |tags| :: tags[i] != "" && Trimmed(tags[i]) && '|' !in tags[i]) &&
    forall i, j | 0 <= i < j < |tags| :: tags[i] != tags[j]
  }

  lemma {:induction false} TrimKeepsOut(s: string, c: char)
    requires c !in s
    ensures c !in Trim(s)
  {
    TrimLeftSpec(s);
    TrimRightSpec(TrimLeft(s));
  }

  lemma {:induction false} DistinctIsClean(parts: seq<string>)
    requires forall p | p in parts :: '|' !in p
    ensures CleanTags(Distinct(parts))
    ensures forall tag :: tag in Distinct(parts) <==> tag != "" && exists p | p in parts :: Trim(p) == tag
  {
    if parts != [] {
      var front, last := parts[..|parts| - 1], parts[|parts| - 1];
      DistinctIsClean(front);
      TrimTrims(last);
      TrimKeepsOut(last, '|');
      assert parts == front + [last];
    }
  }

  lemma {:induction false} PartsHaveNoBar(texts: seq<string>)
    ensures forall p | p in Parts(texts) :: '|' !in p
  {
    if texts != [] {
      PartsHaveNoBar(texts[..|texts| - 1]);
      SplitParts(texts[|texts| - 1], '|');
    }
  }

  lemma {:induction false} PartsOfClean(tags: seq<string>)
    requires forall i | 0 <= i < |tags| :: '|' !in tags[i]
    ensures Parts(tags) == tags
  {
    if tags != [] {
      PartsOfClean(tags[..|tags| - 1]);
      SplitNone(tags[|tags| - 1], '|');
    }
  }

  lemma {:induction false} PartsOfOne(text: string)
    ensures Parts([text]) == Split(text, '|')
  {
    assert [text][..0] == [];
  }

  lemma {:induction false} CleanIsDistinct(tags: seq<string>)
    requires CleanTags(tags)
    ensures Distinct(tags) == tags
  {
    if tags != [] {
      CleanIsDistinct(tags[..|tags| - 1]);
      TrimmedIsFixed(tags[|tags| - 1]);
    }
  }

  /** Tags are non-empty, trimmed, free of bars and pairwise distinct, and they are exactly the
      trimmed parts that are not blank. */
  lemma {:induction false} TagsSpec(texts: seq<string>)
    ensures CleanTags(Tags(texts))
    ensures forall tag :: tag in Tags(texts) <==> tag != "" && exists p | p in Parts(texts) :: Trim(p) == tag
  {
    PartsHaveNoBar(texts);
    DistinctIsClean(Parts(texts));
  }

  /** CSV rows have their tags cleaned when they are read and again when they are written. */
  lemma {:induction false} TagsAreStable(texts: seq<string>)
    ensures Tags(Tags(texts)) == Tags(texts)
  {
    TagsSpec(texts);
    PartsOfClean(Tags(texts));
    CleanIsDistinct(Tags(texts));
  }
}
