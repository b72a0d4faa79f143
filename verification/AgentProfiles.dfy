/** How many managed profiles a template has: duplicate matches share one, templates of one
    name compete for it, and a rename leaves the old one behind. */
module AgentProfiles {
  import opened Common
  import opened AgentModel
  import opened AgentTheorems

  /** The row at k is a managed profile of the user that names the template. */
  predicate ManagedFor(ps: map<ProfileKey, Profile>, u: int, t: int, k: ProfileKey) {
    k in ps && k.0 == u && ps[k].managed && ps[k].template == Some(t)
  }

  lemma {:induction false} ManagedAfterwards(s: State, u: int, rows: seq<int>, t: int, k: ProfileKey)
    requires RowsOf(s, u, rows) && t in Matched(s, u)
    ensures forall v | v in rows :: v in s.templates
    ensures ManagedFor(Consolidate(s, u, rows).profiles, u, t, k)
            <==> (k.0 == u && LastNamed(s.templates, rows, k.1) == Some(t)) ||
                 (k !in OwnedKeys(s, {u}) && ManagedFor(s.profiles, u, t, k))
  {
    ConsolidatedAt(s, u, rows, k);
    var last := LastNamed(s.templates, rows, k.1);
    if k.0 == u && last.Some? {
      assert Key(s, u, last.value) == k && k in OwnedKeys(s, {u});
    } else {
      assert k !in OwnedKeys(s, {u});
    }
  }

  lemma {:induction false} OwnRowAfterwards(s: State, u: int, rows: seq<int>, t: int)
    requires RowsOf(s, u, rows) && DistinctNames(s, u) && t in Matched(s, u)
    ensures ManagedFor(Consolidate(s, u, rows).profiles, u, t, Key(s, u, t))
  {
    ManagedAfterwards(s, u, rows, t, Key(s, u, t));
    var last := LastNamed(s.templates, rows, s.templates[t].name);
    assert t in rows && last.Some?;
  }

  /** Whatever the names, only the profile that a template is named after is managed and names
      it, exactly when no managed profile that named it stood at a key no matched template is
      named after; and with distinct names that profile is there. */
  lemma {:induction false} OneManagedProfileIff(s: State, u: int, rows: seq<int>, t: int)
    requires RowsOf(s, u, rows) && t in Matched(s, u)
    ensures var done := Consolidate(s, u, rows).profiles;
            (forall k | ManagedFor(done, u, t, k) :: k == Key(s, u, t))
            <==> forall k | ManagedFor(s.profiles, u, t, k) :: k in OwnedKeys(s, {u})
    ensures DistinctNames(s, u) ==> ManagedFor(Consolidate(s, u, rows).profiles, u, t, Key(s, u, t))
  {
    assert forall v | v in rows :: v in s.templates;
    forall k
      ensures ManagedFor(Consolidate(s, u, rows).profiles, u, t, k)
              <==> (k.0 == u && LastNamed(s.templates, rows, k.1) == Some(t)) ||
                   (k !in OwnedKeys(s, {u}) && ManagedFor(s.profiles, u, t, k))
    {
      ManagedAfterwards(s, u, rows, t, k);
    }
    assert Key(s, u, t) in OwnedKeys(s, {u});
    if DistinctNames(s, u) {
      OwnRowAfterwards(s, u, rows, t);
    }
  }

  /** A user with one bound template whose profile still has the template's former name. */
  lemma {:induction false} RenamedTemplateHere(s: State, u: int, p: Profile, former: string, now: string)
    requires s.users == map[u := User(1, None)] && former != now
    requires s.templates == map[5 := Template(now, "", "", 0, "", 2, true)]
    requires s.bindings == [Binding(5, "user", None, None, None, Some(u))]
    requires s.profiles == map[(u, former) := p] && p.managed && p.template == Some(5)
    ensures RowsOf(s, u, [5])
    ensures var done := Consolidate(s, u, [5]).profiles;
            ManagedFor(done, u, 5, (u, former)) && ManagedFor(done, u, 5, (u, now))
  {
    assert s.bindings[0] in s.bindings && Reaches(s, u, s.bindings[0]);
    assert IsMatched(s, u, 5) && Matched(s, u) == {5};
    ManagedAfterwards(s, u, [5], 5, (u, now));
    ManagedAfterwards(s, u, [5], 5, (u, former));
    assert (u, former) !in OwnedKeys(s, {u});
  }

  /** The template gets another name. */
  function Renamed(s: State, t: int, name: string): State {
    if t in s.templates then s.(templates := s.templates[t := s.templates[t].(name := name)]) else s
  }

  predicate FreeName(s: State, u: int, name: string) {
    forall v | v in Matched(s, u) :: s.templates[v].name != name
  }

  lemma {:induction false} RenamingKeepsMatches(s: State, u: int, t: int, name: string)
    ensures Matched(Renamed(s, t, name), u) == Matched(s, u)
  {
    var r := Renamed(s, t, name);
    assert forall b :: Reaches(r, u, b) == Reaches(s, u, b);
    forall v ensures v in Matched(r, u) <==> v in Matched(s, u) {
    }
  }

  predicate ActiveFor(ps: map<ProfileKey, Profile>, u: int, t: int, k: ProfileKey) {
    ManagedFor(ps, u, t, k) && ps[k].status == "active"
  }

  lemma {:induction false} FormerRowStays(s: State, u: int, t: int, name: string, again: seq<int>)
    requires DistinctNames(s, u) && t in Matched(s, u) && FreeName(s, u, name)
    requires ActiveFor(s.profiles, u, t, Key(s, u, t)) && RowsOf(Renamed(s, t, name), u, again)
    ensures var done := Consolidate(Renamed(s, t, name), u, again).profiles;
            ActiveFor(done, u, t, Key(s, u, t)) && ActiveFor(done, u, t, (u, name))
  {
    var r := Renamed(s, t, name);
    RenamingKeepsMatches(s, u, t, name);
    ConsolidatedAt(r, u, again, Key(s, u, t));
    ConsolidatedAt(r, u, again, (u, name));
    assert t in again && r.templates[t].name == name;
    assert forall v | v in again :: v in Matched(s, u);
  }

  lemma {:induction false} ActiveAfterwards(s: State, u: int, rows: seq<int>, t: int)
    requires RowsOf(s, u, rows) && DistinctNames(s, u) && t in Matched(s, u)
    ensures ActiveFor(Consolidate(s, u, rows).profiles, u, t, Key(s, u, t))
  {
    ConsolidatedRow(s, u, rows, Key(s, u, t));
    OwnerIsUnique(s, u, Key(s, u, t), t);
  }

  /** Consolidating, renaming a matched template to a free name and consolidating again leaves
      two active managed profiles for it. */
  lemma {:induction false} RenamingLeavesTwoProfiles(
      s: State, u: int, rows: seq<int>, t: int, name: string, again: seq<int>)
    requires RowsOf(s, u, rows) && DistinctNames(s, u) && t in Matched(s, u) && FreeName(s, u, name)
    requires RowsOf(Renamed(Consolidate(s, u, rows), t, name), u, again)
    ensures var done := Consolidate(Renamed(Consolidate(s, u, rows), t, name), u, again).profiles;
            Key(s, u, t) != (u, name) &&
            ActiveFor(done, u, t, Key(s, u, t)) && ActiveFor(done, u, t, (u, name))
  {
    var once := Consolidate(s, u, rows);
    ActiveAfterwards(s, u, rows, t);
    RowsAfterwards(s, u, rows, rows);
    InputsDecide(s, once, u);
    FormerRowStays(once, u, t, name, again);
  }

  /** Every matched template has the row of its name, in every row order, exactly when no two
      matched templates share a name. */
  lemma {:induction false} EveryTemplateHasItsRowIff(s: State, u: int)
    ensures (forall rows, t | RowsOf(s, u, rows) && t in Matched(s, u) ::
               ManagedFor(Consolidate(s, u, rows).profiles, u, t, Key(s, u, t)))
            <==> DistinctNames(s, u)
  {
    if DistinctNames(s, u) {
      forall rows, t | RowsOf(s, u, rows) && t in Matched(s, u)
        ensures ManagedFor(Consolidate(s, u, rows).profiles, u, t, Key(s, u, t))
      {
        OwnRowAfterwards(s, u, rows, t);
      }
    } else {
      var t, v, a, b := TwoWinners(s, u);
      LastRowWins(s, u, a, t);
      assert !ManagedFor(Consolidate(s, u, a + [t]).profiles, u, v, Key(s, u, v));
    }
  }
}
