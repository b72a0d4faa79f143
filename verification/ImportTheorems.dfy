/** Conservation, distinctness, idempotence and the byte bound of the imports. */
module ImportTheorems {
  import opened Common
  import opened Text
  import opened ImportTags
  import opened ImportModel

  // ----- The write loop in one formula -----

  predicate Stored(skip: set<nat>, writes: seq<Write>, k: nat) {
    k < |writes| && k !in skip && writes[k] != ItemRefused
  }

  lemma {:induction false} StoredIsAt(skip: set<nat>, writes: seq<Write>, n: nat, k: nat) returns (i: nat)
    requires k < n <= |writes| && Stored(skip, writes, k)
    ensures var ks := StoredAt(skip, writes, n); i < |ks| && ks[i] == k
  {
    if k == n - 1 {
      i := |StoredAt(skip, writes, n - 1)|;
    } else {
      i := StoredIsAt(skip, writes, n - 1, k);
    }
  }

  lemma {:induction false} WriteAllStores(
      items: seq<Item>, prospects: seq<Item>, skip: set<nat>, writes: seq<Write>, n: nat)
    requires n <= |prospects| == |writes|
    ensures WriteAll(items, prospects, skip, writes, n).items == items + At(prospects, StoredAt(skip, writes, n))
  {
    if n > 0 {
      WriteAllStores(items, prospects, skip, writes, n - 1);
    }
  }

  function Skipped(skip: set<nat>, n: nat): nat {
    if n == 0 then 0 else Skipped(skip, n - 1) + if n - 1 in skip then 1 else 0
  }

  /** Every position is written, refused or skipped, once. */
  lemma {:induction false} WriteAllConserves(
      items: seq<Item>, prospects: seq<Item>, skip: set<nat>, writes: seq<Write>, n: nat)
    requires n <= |prospects| == |writes|
    ensures var p := WriteAll(items, prospects, skip, writes, n);
            p.success + |p.failed| + Skipped(skip, n) == n
  {
    if n > 0 {
      WriteAllConserves(items, prospects, skip, writes, n - 1);
    }
  }

  /** The failures listed are exactly the writes that were tried and did not succeed. */
  lemma {:induction false} FailuresAreListed(
      items: seq<Item>, prospects: seq<Item>, skip: set<nat>, writes: seq<Write>, n: nat, k: nat)
    requires n <= |prospects| == |writes|
    ensures k + 1 in WriteAll(items, prospects, skip, writes, n).failed
            <==> k < n && k !in skip && writes[k] != Written
  {
    if n > 0 {
      FailuresAreListed(items, prospects, skip, writes, n - 1, k);
    }
  }

  // ----- Q&A -----

  lemma {:induction false} QaDuplicatesCount(items: seq<Item>, kb: int, rows: seq<QaRow>, n: nat)
    requires n <= |rows|
    ensures |QaDuplicates(items, kb, rows, n)| == Skipped(QaSkip(items, kb, rows), n)
  {
    if n > 0 {
      QaDuplicatesCount(items, kb, rows, n - 1);
    }
  }

  /** Under any pattern of write failures every row and every parse error is counted once. */
  lemma {:induction false} QaCountersConserve(items: seq<Item>, kb: int, req: QaRequest, writes: seq<Write>)
    requires |writes| == |ParseQa(req).0|
    ensures var (rows, errors) := ParseQa(req);
            var report := ImportQa(items, kb, req, writes).1;
            report.success + |report.errors| + |report.duplicates| == |rows| + |errors|
  {
    var rows := ParseQa(req).0;
    QaDuplicatesCount(items, kb, rows, |rows|);
    WriteAllConserves(items, QaItems(kb, rows), QaSkip(items, kb, rows), writes, |rows|);
  }

  predicate CompleteRow(r: QaRow) {
    r.question != "" && r.answer != "" && Trimmed(r.question) && Trimmed(r.answer) && CleanTags(r.tags)
  }

  /** Parsed CSV rows are trimmed and complete. One record becomes one row or one error; only
      the record that exceeds the limit becomes both, and ends the reading. */
  lemma {:induction false} ParseConserves(
      rs: seq<Record>, at: nat, rows: seq<QaRow>, errors: seq<ParseError>, q: nat, a: nat, t: nat)
    requires at <= |rs| && |rows| <= MAX_ITEMS && forall r | r in rows :: CompleteRow(r)
    ensures var (rows', errors') := ParseFrom(rs, at, rows, errors, q, a, t);
            (forall r | r in rows' :: CompleteRow(r)) &&
            |rows'| <= MAX_ITEMS + 1 &&
            if |rows'| <= MAX_ITEMS then |rows'| + |errors'| == |rows| + |errors| + |rs| - at
            else |rows'| + |errors'| <= |rows| + |errors| + |rs| - at + 1 &&
                 errors' != [] && errors'[|errors'| - 1].error == "too_many_items"
    decreases |rs| - at
  {
    if at < |rs| {
      match ParseRecord(rs[at], q, a, t)
      case Bad(e) =>
        ParseConserves(rs, at + 1, rows, errors + [ParseError(at + 2, e)], q, a, t);
      case Good(row) =>
        TrimTrims(rs[at].fields[q]);
        TrimTrims(rs[at].fields[a]);
        TagsSpec([rs[at].fields[if t < |rs[at].fields| then t else q]]);
        if |rows| + 1 <= MAX_ITEMS {
          ParseConserves(rs, at + 1, rows + [row], errors, q, a, t);
        }
    }
  }

  // ----- Tags of CSV rows -----

  /** The records that become rows when reading goes on from `at` with n rows read. */
  function RowRecords(rs: seq<Record>, at: nat, n: nat, q: nat, a: nat, t: nat): (ks: seq<nat>)
    requires at <= |rs|
    ensures forall i | 0 <= i < |ks| :: ks[i] < |rs| && ParseRecord(rs[ks[i]], q, a, t).Good?
    decreases |rs| - at
  {
    if at == |rs| then []
    else
      match ParseRecord(rs[at], q, a, t)
      case Bad(_) => RowRecords(rs, at + 1, n, q, a, t)
      case Good(_) => if n + 1 > MAX_ITEMS then [at] else [at] + RowRecords(rs, at + 1, n + 1, q, a, t)
  }

  function RowsAt(rs: seq<Record>, ks: seq<nat>, q: nat, a: nat, t: nat): (rows: seq<QaRow>)
    requires forall i | 0 <= i < |ks| :: ks[i] < |rs| && ParseRecord(rs[ks[i]], q, a, t).Good?
    ensures |rows| == |ks| && forall i | 0 <= i < |ks| :: rows[i] == ParseRecord(rs[ks[i]], q, a, t).row
  {
    if ks == [] then [] else [ParseRecord(rs[ks[0]], q, a, t).row] + RowsAt(rs, ks[1..], q, a, t)
  }

  lemma {:induction false} RowsAtCons(
      rs: seq<Record>, rows: seq<QaRow>, k: nat, ks: seq<nat>, q: nat, a: nat, t: nat)
    requires k < |rs| && ParseRecord(rs[k], q, a, t).Good?
    requires forall i | 0 <= i < |ks| :: ks[i] < |rs| && ParseRecord(rs[ks[i]], q, a, t).Good?
    ensures forall i | 0 <= i < |[k] + ks| ::
              ([k] + ks)[i] < |rs| && ParseRecord(rs[([k] + ks)[i]], q, a, t).Good?
    ensures rows + [ParseRecord(rs[k], q, a, t).row] + RowsAt(rs, ks, q, a, t) == rows + RowsAt(rs, [k] + ks, q, a, t)
  {
    assert ([k] + ks)[1..] == ks;
  }

  lemma {:induction false} RowsComeFromRecords(
      rs: seq<Record>, at: nat, rows: seq<QaRow>, errors: seq<ParseError>, q: nat, a: nat, t: nat)
    requires at <= |rs|
    ensures ParseFrom(rs, at, rows, errors, q, a, t).0
         == rows + RowsAt(rs, RowRecords(rs, at, |rows|, q, a, t), q, a, t)
    decreases |rs| - at
  {
    if at < |rs| {
      var p := ParseRecord(rs[at], q, a, t);
      if p.Bad? {
        RowsComeFromRecords(rs, at + 1, rows, errors + [ParseError(at + 2, p.error)], q, a, t);
      } else if |rows| + 1 <= MAX_ITEMS {
        RowsComeFromRecords(rs, at + 1, rows + [p.row], errors, q, a, t);
        RowsAtCons(rs, rows, at, RowRecords(rs, at + 1, |rows| + 1, q, a, t), q, a, t);
      } else {
        RowsAtCons(rs, rows, at, [], q, a, t);
        assert [at] + [] == [at];
      }
    }
  }

  /** Nothing but white space between the bars of a field. */
  predicate Tagless(field: string) {
    forall p | p in Split(field, '|') :: Trim(p) == ""
  }

  lemma {:induction false} TagsOfField(field: string)
    ensures Tags([field]) == [] <==> Tagless(field)
  {
    TagsSpec([field]);
    PartsOfOne(field);
    if !Tagless(field) {
      var p :| p in Split(field, '|') && Trim(p) != "";
      assert Trim(p) in Tags([field]);
    }
    if Tags([field]) != [] {
      assert Tags([field])[0] in Tags([field]);
    }
  }

  /** A CSV request with its two columns but without a tags column. */
  predicate Untagged(req: QaRequest) {
    req.rows == [] && req.size <= MAX_BYTES && req.headers.Some? &&
    Column(req.headers.value, "question").Some? && Column(req.headers.value, "answer").Some? &&
    Column(req.headers.value, "tags").None?
  }

  /** The records of the request that become rows. */
  function Sources(req: QaRequest): (ks: seq<nat>)
    requires Untagged(req)
    ensures forall i | 0 <= i < |ks| :: ks[i] < |req.records|
  {
    var q, a := Column(req.headers.value, "question").value, Column(req.headers.value, "answer").value;
    RowRecords(req.records, 0, 0, q, a, 0)
  }

  function FirstField(r: Record): string {
    if r.Fields? && r.fields != [] then r.fields[0] else ""
  }

  lemma {:induction false} RowTags(r: Record, q: nat, a: nat)
    requires ParseRecord(r, q, a, 0).Good?
    ensures ParseRecord(r, q, a, 0).row.tags == Tags([FirstField(r)])
  {
  }

  lemma {:induction false} SourceTags(req: QaRequest)
    requires Untagged(req)
    ensures var rows, ks := ParseQa(req).0, Sources(req);
            |rows| == |ks| && forall i | 0 <= i < |rows| :: rows[i].tags == Tags([FirstField(req.records[ks[i]])])
  {
    var q, a := Column(req.headers.value, "question").value, Column(req.headers.value, "answer").value;
    var ks := Sources(req);
    RowsComeFromRecords(req.records, 0, [], [], q, a, 0);
    forall i | 0 <= i < |ks|
      ensures ParseRecord(req.records[ks[i]], q, a, 0).row.tags == Tags([FirstField(req.records[ks[i]])])
    {
      RowTags(req.records[ks[i]], q, a);
    }
  }

  lemma {:induction false} AllTaglessIff(rs: seq<Record>, ks: seq<nat>, rows: seq<QaRow>)
    requires |rows| == |ks| && forall i | 0 <= i < |ks| :: ks[i] < |rs|
    requires forall i | 0 <= i < |rows| :: rows[i].tags == Tags([FirstField(rs[ks[i]])])
    ensures (forall i | 0 <= i < |rows| :: rows[i].tags == [])
            <==> forall i | 0 <= i < |ks| :: Tagless(FirstField(rs[ks[i]]))
  {
    forall i | 0 <= i < |ks| ensures rows[i].tags == [] <==> Tagless(FirstField(rs[ks[i]])) {
      TagsOfField(FirstField(rs[ks[i]]));
    }
  }

  /** A CSV text without a tags column takes the tags of each row from the first field of its
      record, so its rows come without tags exactly when those fields have nothing but white
      space between their bars. */
  lemma {:induction false} UntaggedCsvTagsItsFirstColumn(req: QaRequest)
    requires Untagged(req)
    ensures var rows, rs, ks := ParseQa(req).0, req.records, Sources(req);
            |rows| == |ks| &&
            (forall i | 0 <= i < |rows| :: rows[i].tags == Tags([FirstField(rs[ks[i]])])) &&
            ((forall i | 0 <= i < |rows| :: rows[i].tags == [])
             <==> forall i | 0 <= i < |ks| :: Tagless(FirstField(rs[ks[i]])))
  {
    SourceTags(req);
    AllTaglessIff(req.records, Sources(req), ParseQa(req).0);
  }

  lemma {:induction false} ColumnsHere()
    ensures Column(["question", "answer"], "question") == Some(0)
    ensures Column(["question", "answer"], "answer") == Some(1)
    ensures Column(["question", "answer"], "tags") == None
  {
    TrimmedIsFixed("question");
    TrimmedIsFixed("answer");
    assert Lower("question") == "question" && Lower("answer") == "answer";
    assert ["question", "answer"][..1] == ["question"] && ["question"][..0] == [];
  }

  /** The smallest case: two columns, one record. */
  lemma {:induction false} QuestionBecomesTagHere(req: QaRequest)
    requires req == QaRequest([], 20, Some(["question", "answer"]), [Fields(["q", "a"])])
    ensures ParseQa(req).0 == [QaRow("q", "a", ["q"])]
  {
    ColumnsHere();
    GoodRecord("q", "a");
    OneRecord(req.records, QaRow("q", "a", ["q"]));
  }

  lemma {:induction false} GoodRecord(question: string, answer: string)
    requires question != "" && answer != "" && Trimmed(question) && Trimmed(answer) && '|' !in question
    ensures ParseRecord(Fields([question, answer]), 0, 1, 0) == Good(QaRow(question, answer, [question]))
  {
    TrimmedIsFixed(question);
    TrimmedIsFixed(answer);
    PartsOfClean([question]);
    CleanIsDistinct([question]);
  }

  lemma {:induction false} OneRecord(rs: seq<Record>, row: QaRow)
    requires |rs| == 1 && ParseRecord(rs[0], 0, 1, 0) == Good(row)
    ensures ParseFrom(rs, 0, [], [], 0, 1, 0).0 == [row]
  {
    assert [] + [row] == [row];
  }

  /** The items an import adds, failures or not: pairwise distinct questions up to case and
      outer white space, none of them the title of a live Q&A item. */
  lemma {:induction false} QaCreatesDistinctQuestions(items: seq<Item>, kb: int, req: QaRequest, writes: seq<Write>)
    requires |writes| == |ParseQa(req).0|
    ensures var after := ImportQa(items, kb, req, writes).0;
            items <= after &&
            (forall i, j | |items| <= i < j < |after| :: NameKey(after[i].title) != NameKey(after[j].title)) &&
            (forall i | |items| <= i < |after| ::
               after[i].kb == kb && after[i].kind == Qa && after[i].live && !Listed(items, kb, Qa, after[i].title))
  {
    var rows := ParseQa(req).0;
    var skip, n := QaSkip(items, kb, rows), |rows|;
    WriteAllStores(items, QaItems(kb, rows), skip, writes, n);
    var ks := StoredAt(skip, writes, n);
    var created := At(QaItems(kb, rows), ks);
    forall i | 0 <= i < |ks| ensures !IsQaDuplicate(items, kb, rows, ks[i]) {
      assert Stored(skip, writes, ks[i]);
    }
    forall i, j | 0 <= i < j < |created| ensures NameKey(created[i].title) != NameKey(created[j].title) {
      assert !RepeatsEarlier(rows, ks[j]);
    }
  }

  /** Which titles an import leaves behind. */
  lemma {:induction false} ListedAfter(items: seq<Item>, prospects: seq<Item>, skip: set<nat>, writes: seq<Write>,
                                       kb: int, kind: Kind, title: string)
    requires |prospects| == |writes|
    requires forall k | 0 <= k < |prospects| :: prospects[k].kb == kb && prospects[k].kind == kind && prospects[k].live
    ensures Listed(WriteAll(items, prospects, skip, writes, |prospects|).items, kb, kind, title)
            <==> Listed(items, kb, kind, title)
                 || exists k: nat :: Stored(skip, writes, k) && prospects[k].title == title
  {
    var n := |prospects|;
    var ks := StoredAt(skip, writes, n);
    var created, after := At(prospects, ks), WriteAll(items, prospects, skip, writes, n).items;
    WriteAllStores(items, prospects, skip, writes, n);
    assert forall it :: it in after <==> it in items || it in created;
    if k: nat :| Stored(skip, writes, k) && prospects[k].title == title {
      var i := StoredIsAt(skip, writes, n, k);
      assert created[i] == prospects[k] && created[i] in created;
    }
    if Listed(after, kb, kind, title) && !Listed(items, kb, kind, title) {
      var it :| it in after && it.kb == kb && it.kind == kind && it.title == title && it.live;
      assert it in created;
      var i :| 0 <= i < |created| && created[i] == it;
      assert Stored(skip, writes, ks[i]) && prospects[ks[i]] == it;
    }
  }

  /** Importing the same request again: a row is new the second time exactly when it was new
      the first time and its item row could not be written. */
  lemma {:induction false} QaReimport(items: seq<Item>, kb: int, req: QaRequest, writes: seq<Write>, i: nat)
    requires |writes| == |ParseQa(req).0| && i < |ParseQa(req).0|
    ensures var rows := ParseQa(req).0;
            !IsQaDuplicate(ImportQa(items, kb, req, writes).0, kb, rows, i)
            <==> !IsQaDuplicate(items, kb, rows, i) && writes[i] == ItemRefused
  {
    var rows := ParseQa(req).0;
    var prospects, skip := QaItems(kb, rows), QaSkip(items, kb, rows);
    ListedAfter(items, prospects, skip, writes, kb, Qa, rows[i].question);
    assert Stored(skip, writes, i) <==> !IsQaDuplicate(items, kb, rows, i) && writes[i] != ItemRefused;
    assert prospects[i].title == rows[i].question;
    forall k: nat | Stored(skip, writes, k) && prospects[k].title == rows[i].question
      ensures RepeatsEarlier(rows, i) || k == i
    {
      FirstOfItsName(rows, k, i);
    }
  }

  lemma {:induction false} FirstOfItsName(rows: seq<QaRow>, k: nat, i: nat)
    requires k < |rows| && i < |rows| && !RepeatsEarlier(rows, k)
    requires NameKey(rows[k].question) == NameKey(rows[i].question)
    ensures k == i || RepeatsEarlier(rows, i)
  {
  }

  /** Without write failures, importing the same request a second time creates no item: every
      row is reported as a duplicate. */
  lemma {:induction false} QaReimportAddsNothing(
      items: seq<Item>, kb: int, req: QaRequest, writes: seq<Write>, again: seq<Write>)
    requires |writes| == |again| == |ParseQa(req).0| && forall w | w in writes :: w == Written
    ensures var (after, _) := ImportQa(items, kb, req, writes);
            var (after2, report) := ImportQa(after, kb, req, again);
            after2 == after && report.success == 0 && |report.duplicates| == |ParseQa(req).0|
  {
    var (rows, errors) := ParseQa(req);
    var after := ImportQa(items, kb, req, writes).0;
    forall i: nat | i < |rows| ensures i in QaSkip(after, kb, rows) {
      assert writes[i] in writes;
      QaReimport(items, kb, req, writes, i);
    }
    SkippingEverything(after, QaItems(kb, rows), QaSkip(after, kb, rows), again, |rows|);
    QaDuplicatesCount(after, kb, rows, |rows|);
  }

  lemma {:induction false} SkippingEverything(
      items: seq<Item>, prospects: seq<Item>, skip: set<nat>, writes: seq<Write>, n: nat)
    requires n <= |prospects| == |writes| && forall i: nat | i < n :: i in skip
    ensures WriteAll(items, prospects, skip, writes, n) == Pass(0, [], items) && Skipped(skip, n) == n
  {
    if n > 0 {
      SkippingEverything(items, prospects, skip, writes, n - 1);
    }
  }

  // ----- Markdown -----

  lemma {:induction false} FindingAdded(items: seq<Item>, kb: int, files: seq<MdFile>, n: nat)
    requires 0 < n <= |files| <= MAX_ITEMS
    ensures var v, w := ValidateFiles(items, kb, files, n), ValidateFiles(items, kb, files, n - 1);
            |v.errors| + |v.duplicates|
            == |w.errors| + |w.duplicates| + if n - 1 in MdSkip(items, kb, files) then 1 else 0
  {
    assert n - 1 in MdSkip(items, kb, files)
      <==> Refused(files, n - 1) || IsMdDuplicate(items, kb, files, n - 1);
  }

  lemma {:induction false} FindingsCount(items: seq<Item>, kb: int, files: seq<MdFile>, n: nat)
    requires n <= |files| <= MAX_ITEMS
    ensures var v := ValidateFiles(items, kb, files, n);
            |v.errors| + |v.duplicates| == Skipped(MdSkip(items, kb, files), n)
  {
    if n > 0 {
      FindingsCount(items, kb, files, n - 1);
      FindingAdded(items, kb, files, n);
    }
  }

  lemma {:induction false} FilesAddUp(items: seq<Item>, kb: int, files: seq<MdFile>, n: nat)
    requires n <= |files|
    ensures var v := ValidateFiles(items, kb, files, n);
            v.valid + |v.errors| + |v.duplicates| == n && v.total == TotalBytes(files, n)
  {
    if n > 0 {
      FilesAddUp(items, kb, files, n - 1);
      var v, w := ValidateFiles(items, kb, files, n), ValidateFiles(items, kb, files, n - 1);
      assert v.total == w.total + |Body(files[n - 1])|;
      assert |v.errors| == |w.errors| + 1 || |v.duplicates| == |w.duplicates| + 1 || v.valid == w.valid + 1;
    }
  }

  /** The preview counts every file once and every byte, up to 500 files; beyond, nothing. */
  lemma {:induction false} ValidationAddsUp(items: seq<Item>, kb: int, files: seq<MdFile>)
    ensures var v := ValidateMarkdown(items, kb, files);
            if |files| <= MAX_ITEMS
            then v.valid + |v.errors| + |v.duplicates| == |files| && v.total == TotalBytes(files, |files|)
            else v.valid == v.total == 0 && |v.errors| == 1 && v.duplicates == []
  {
    if |files| <= MAX_ITEMS {
      FilesAddUp(items, kb, files, |files|);
    }
  }

  lemma {:induction false} NothingSkipped(n: nat)
    ensures Skipped({}, n) == 0
  {
    if n > 0 {
      NothingSkipped(n - 1);
    }
  }

  /** The Markdown counters add up to the number of files exactly when at most 500 files were
      sent. A larger upload gets one finding that names no file, and is written all the same. */
  lemma {:induction false} MdCountersConserveIff(items: seq<Item>, kb: int, files: seq<MdFile>, writes: seq<Write>)
    requires |writes| == |files|
    ensures var report := ImportMarkdown(items, kb, files, writes).1;
            report.success + |report.errors| + |report.duplicates| == |files| <==> |files| <= MAX_ITEMS
  {
    var skip := MdSkip(items, kb, files);
    WriteAllConserves(items, MdItems(kb, files), skip, writes, |files|);
    if |files| <= MAX_ITEMS {
      FindingsCount(items, kb, files, |files|);
    } else {
      NothingSkipped(|files|);
    }
  }

  /** The bodies of the stored files together. */
  function StoredBytes(files: seq<MdFile>, ks: seq<nat>): nat
    requires forall i | 0 <= i < |ks| :: ks[i] < |files|
  {
    if ks == [] then 0 else StoredBytes(files, ks[..|ks| - 1]) + |Body(files[ks[|ks| - 1]])|
  }

  lemma {:induction false} StoredWithinTotal(files: seq<MdFile>, ks: seq<nat>, n: nat)
    requires n <= |files| && forall i | 0 <= i < |ks| :: ks[i] < n
    requires forall i, j | 0 <= i < j < |ks| :: ks[i] < ks[j]
    ensures StoredBytes(files, ks) <= TotalBytes(files, n)
    decreases n
  {
    if n > 0 {
      if ks != [] && ks[|ks| - 1] == n - 1 {
        StoredWithinTotal(files, ks[..|ks| - 1], n - 1);
      } else {
        forall i | 0 <= i < |ks| ensures ks[i] < n - 1 {
          assert i < |ks| - 1 ==> ks[i] < ks[|ks| - 1];
        }
        StoredWithinTotal(files, ks, n - 1);
      }
    }
  }

  /** An upload of at most 500 files adds at most MAX_BYTES of content. */
  lemma {:induction false} MdByteBound(items: seq<Item>, kb: int, files: seq<MdFile>, writes: seq<Write>)
    requires |writes| == |files| <= MAX_ITEMS
    ensures var ks := StoredAt(MdSkip(items, kb, files), writes, |files|);
            ImportMarkdown(items, kb, files, writes).0 == items + At(MdItems(kb, files), ks) &&
            StoredBytes(files, ks) <= MAX_BYTES
  {
    WriteAllStores(items, MdItems(kb, files), MdSkip(items, kb, files), writes, |files|);
    StoredBytesBound(items, kb, files, writes);
  }

  lemma {:induction false} StoredIsAccepted(items: seq<Item>, kb: int, files: seq<MdFile>, k: nat)
    requires k < |files| <= MAX_ITEMS && k !in MdSkip(items, kb, files)
    ensures TotalBytes(files, k + 1) <= MAX_BYTES
  {
  }

  lemma {:induction false} AcceptedWithinBound(files: seq<MdFile>, ks: seq<nat>)
    requires forall i | 0 <= i < |ks| :: ks[i] < |files| && TotalBytes(files, ks[i] + 1) <= MAX_BYTES
    requires forall i, j | 0 <= i < j < |ks| :: ks[i] < ks[j]
    ensures StoredBytes(files, ks) <= MAX_BYTES
  {
    if ks != [] {
      StoredWithinTotal(files, ks, ks[|ks| - 1] + 1);
    }
  }

  lemma {:induction false} StoredBytesBound(items: seq<Item>, kb: int, files: seq<MdFile>, writes: seq<Write>)
    requires |writes| == |files| <= MAX_ITEMS
    ensures StoredBytes(files, StoredAt(MdSkip(items, kb, files), writes, |files|)) <= MAX_BYTES
  {
    var ks := StoredAt(MdSkip(items, kb, files), writes, |files|);
    forall i | 0 <= i < |ks| ensures TotalBytes(files, ks[i] + 1) <= MAX_BYTES {
      StoredIsAccepted(items, kb, files, ks[i]);
    }
    AcceptedWithinBound(files, ks);
  }

  /** Beyond 500 files nothing is validated: every file whose item row can be written is
      stored, blank, oversized or duplicate. */
  lemma {:induction false} LargeUploadIsNotValidated(
      items: seq<Item>, kb: int, files: seq<MdFile>, writes: seq<Write>, i: nat)
    requires |writes| == |files| > MAX_ITEMS && i < |files| && writes[i] != ItemRefused
    ensures MdItems(kb, files)[i] in ImportMarkdown(items, kb, files, writes).0
  {
    var ks := StoredAt({}, writes, |files|);
    WriteAllStores(items, MdItems(kb, files), {}, writes, |files|);
    var x := StoredIsAt({}, writes, |files|, i);
    assert At(MdItems(kb, files), ks)[x] == MdItems(kb, files)[i];
  }

  /** Every stored file passed validation exactly when at most 500 files were sent, or all
      files that could be written happen to be acceptable. */
  lemma {:induction false} StoredFilesAreValidIff(
      items: seq<Item>, kb: int, files: seq<MdFile>, writes: seq<Write>)
    requires |writes| == |files|
    ensures (forall k: nat | Stored(MdSkip(items, kb, files), writes, k) :: Acceptable(items, kb, files, k))
            <==> (|files| <= MAX_ITEMS ||
                  forall k: nat | k < |files| && writes[k] != ItemRefused :: Acceptable(items, kb, files, k))
  {
    if |files| > MAX_ITEMS {
      forall k: nat | k < |files| && writes[k] != ItemRefused ensures Stored(MdSkip(items, kb, files), writes, k) {
      }
    }
  }

  predicate Acceptable(items: seq<Item>, kb: int, files: seq<MdFile>, k: nat) {
    k < |files| && !Refused(files, k) && !IsMdDuplicate(items, kb, files, k)
  }

  /** The same upload again, without write failures and with at most 500 files, adds nothing. */
  lemma {:induction false} MdReimportAddsNothing(
      items: seq<Item>, kb: int, files: seq<MdFile>, writes: seq<Write>, again: seq<Write>)
    requires |writes| == |again| == |files| <= MAX_ITEMS && forall w | w in writes :: w == Written
    ensures var (after, _) := ImportMarkdown(items, kb, files, writes);
            ImportMarkdown(after, kb, files, again).0 == after
  {
    var prospects, skip := MdItems(kb, files), MdSkip(items, kb, files);
    var after := ImportMarkdown(items, kb, files, writes).0;
    forall i: nat | i < |files| ensures i in MdSkip(after, kb, files) {
      ListedAfter(items, prospects, skip, writes, kb, Markdown, Trim(files[i].title));
      assert writes[i] in writes && prospects[i].title == Trim(files[i].title);
      assert Stored(skip, writes, i) <==> i !in skip;
    }
    SkippingEverything(after, prospects, MdSkip(after, kb, files), again, |files|);
  }
}
