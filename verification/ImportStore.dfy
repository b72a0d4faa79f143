/** The import handlers as they run: the parse loop, the duplicate scan with its `seen` set,
    the validation loop with its running total, and the write loop. */
module ImportStore {
  import opened Text
  import opened ImportModel

  method ParseCsv(req: QaRequest) returns (rows: seq<QaRow>, errors: seq<ParseError>)
    ensures (rows, errors) == ParseQa(req)
  {
    if |req.rows| > 0 {
      return req.rows, [];
    }
    if req.size > MAX_BYTES {
      return [], [ParseError(0, "file_too_large")];
    }
    if req.headers.None? {
      return [], [ParseError(1, "invalid_csv")];
    }
    var q, a := Column(req.headers.value, "question"), Column(req.headers.value, "answer");
    var t := TagsColumn(req.headers.value);
    if q.None? || a.None? {
      return [], [ParseError(1, "question_and_answer_columns_required")];
    }
    rows, errors := [], [];
    var at := 0;
    while at < |req.records|
      invariant 0 <= at <= |req.records|
      invariant ParseQa(req) == ParseFrom(req.records, at, rows, errors, q.value, a.value, t)
    {
      var line := at + 2;
      match ParseRecord(req.records[at], q.value, a.value, t) {
        case Bad(e) =>
          errors := errors + [ParseError(line, e)];
        case Good(row) =>
          rows := rows + [row];
          if |rows| > MAX_ITEMS {
            errors := errors + [ParseError(line, "too_many_items")];
            return;
          }
      }
      at := at + 1;
    }
  }

  /** The key belongs to a file among the first n that was not refused. */
  predicate Saw(files: seq<MdFile>, n: nat, key: string)
    requires n <= |files|
  {
    exists j | 0 <= j < n :: !Refused(files, j) && NameKey(files[j].title) == key
  }

  lemma {:induction false} SawNext(files: seq<MdFile>, i: nat)
    requires i < |files|
    ensures forall key :: Saw(files, i + 1, key)
              <==> Saw(files, i, key) || (!Refused(files, i) && key == NameKey(files[i].title))
    ensures RepeatsAccepted(files, i) <==> Saw(files, i, NameKey(files[i].title))
  {
  }

  /** The zero-based positions behind one-based row numbers. */
  function Positions(numbers: set<nat>, n: nat): (ks: set<nat>)
    ensures forall k: nat :: k in ks <==> k < n && k + 1 in numbers
  {
    var ks := set m | m in numbers && 0 < m <= n :: m - 1;
    assert forall m | m in numbers && 0 < m <= n :: m - 1 in ks;
    ks
  }

  class Server {
    var items: seq<Item>
    var jobs: seq<Job>

    method QaDuplicatesOf(kb: int, rows: seq<QaRow>) returns (duplicates: seq<Duplicate>)
      ensures duplicates == QaDuplicates(items, kb, rows, |rows|)
    {
      var seen: set<string> := {};
      duplicates := [];
      for i := 0 to |rows|
        invariant seen == set j: nat | j < i :: NameKey(rows[j].question)
        invariant duplicates == QaDuplicates(items, kb, rows, i)
      {
        var key := Lower(Trim(rows[i].question));
        assert key in seen <==> RepeatsEarlier(rows, i);
        if key in seen {
          duplicates := duplicates + [Duplicate(i + 1, "duplicate_in_file")];
          continue;
        }
        seen := seen + {key};
        if Listed(items, kb, Qa, rows[i].question) {
          duplicates := duplicates + [Duplicate(i + 1, "duplicate_existing_question")];
        }
      }
    }

    /** Offer the prospects to the table; `skip` holds one-based positions. */
    method WriteItems(prospects: seq<Item>, skip: set<nat>, writes: seq<Write>) returns (success: nat, failed: seq<nat>)
      requires |prospects| == |writes|
      modifies `items
      ensures var p := WriteAll(old(items), prospects, Positions(skip, |prospects|), writes, |prospects|);
              items == p.items && success == p.success && failed == p.failed
    {
      ghost var marked := Positions(skip, |prospects|);
      success, failed := 0, [];
      for i := 0 to |prospects|
        invariant WriteAll(old(items), prospects, marked, writes, i) == Pass(success, failed, items)
      {
        if i + 1 in skip {
          continue;
        }
        if writes[i] != ItemRefused {
          items := items + [prospects[i]];
        }
        if writes[i] != Written {
          failed := failed + [i + 1];
          continue;
        }
        success := success + 1;
      }
    }

    method ImportQa(kb: int, req: QaRequest, writes: seq<Write>) returns (report: QaReport)
      requires |writes| == |ParseQa(req).0|
      modifies this
      ensures (items, report) == ImportModel.ImportQa(old(items), kb, req, writes)
      ensures jobs == old(jobs) + [QaJob(kb, report)]
    {
      var rows, parsing := ParseCsv(req);
      var duplicates := QaDuplicatesOf(kb, rows);
      var duplicateRows := RowNumbers(duplicates);
      DuplicateRows(items, kb, rows);
      var prospects := QaItems(kb, rows);
      var success, unwritten := WriteItems(prospects, duplicateRows, writes);
      var errors := QaErrors(parsing, unwritten);
      report := Report(success, errors, duplicates, ImportStatus(success, |errors|, |duplicates|));
      jobs := jobs + [QaJob(kb, report)];
    }

    method Validate(kb: int, files: seq<MdFile>)
      returns (valid: nat, errors: seq<Finding>, duplicates: seq<Finding>, total: nat)
      ensures Validation(errors, duplicates, valid, total) == ValidateMarkdown(items, kb, files)
    {
      if |files| > MAX_ITEMS {
        return 0, [OnUpload("too_many_files")], [], 0;
      }
      valid, total := 0, 0;
      var seen: set<string> := {};
      errors, duplicates := [], [];
      for i := 0 to |files|
        invariant total == TotalBytes(files, i)
        invariant forall key :: key in seen <==> Saw(files, i, key)
        invariant Validation(errors, duplicates, valid, total) == ValidateFiles(items, kb, files, i)
      {
        var title, content := Trim(files[i].title), Body(files[i]);
        total := total + |content|;
        if title == "" || Trim(content) == "" {
          errors := errors + [OnFile(i + 1, "title_and_content_required")];
          SawNext(files, i);
          continue;
        }
        if total > MAX_BYTES {
          errors := errors + [OnFile(i + 1, "total_size_exceeded")];
          SawNext(files, i);
          continue;
        }
        var key := Lower(title);
        assert key == NameKey(files[i].title);
        assert key in seen <==> RepeatsAccepted(files, i);
        SawNext(files, i);
        if key in seen {
          duplicates := duplicates + [OnFile(i + 1, "duplicate_in_upload")];
          continue;
        }
        seen := seen + {key};
        if Listed(items, kb, Markdown, title) {
          duplicates := duplicates + [OnFile(i + 1, "duplicate_existing_title")];
          continue;
        }
        valid := valid + 1;
      }
    }

    method ImportMarkdown(kb: int, files: seq<MdFile>, writes: seq<Write>) returns (report: MdReport)
      requires |writes| == |files|
      modifies this
      ensures (items, report) == ImportModel.ImportMarkdown(old(items), kb, files, writes)
      ensures jobs == old(jobs) + [MdJob(kb, report)]
    {
      var valid, findings, duplicates, total := Validate(kb, files);
      var bad := FileNumbers(findings + duplicates);
      BadFiles(items, kb, files);
      var prospects := MdItems(kb, files);
      var success, unwritten := WriteItems(prospects, bad, writes);
      var errors := MdErrors(findings, unwritten);
      report := Report(success, errors, duplicates, ImportStatus(success, |errors|, |duplicates|));
      jobs := jobs + [MdJob(kb, report)];
    }
  }

  function RowNumbers(duplicates: seq<Duplicate>): set<nat> {
    set d: Duplicate | d in duplicates :: d.row
  }

  lemma {:induction false} DuplicateRows(items: seq<Item>, kb: int, rows: seq<QaRow>)
    ensures Positions(RowNumbers(QaDuplicates(items, kb, rows, |rows|)), |rows|) == QaSkip(items, kb, rows)
  {
    var all := QaDuplicates(items, kb, rows, |rows|);
    forall k: nat | k < |rows| ensures k + 1 in RowNumbers(all) <==> k in QaSkip(items, kb, rows) {
      MarkedRow(items, kb, rows, |rows|, k);
    }
  }

  /** The numbers that findings about a single file carry. */
  function FileNumbers(findings: seq<Finding>): set<nat> {
    set f: Finding | f in findings && f.OnFile? :: f.file
  }

  lemma {:induction false} BadFiles(items: seq<Item>, kb: int, files: seq<MdFile>)
    ensures var v := ValidateMarkdown(items, kb, files);
            Positions(FileNumbers(v.errors + v.duplicates), |files|) == MdSkip(items, kb, files)
  {
    var v := ValidateMarkdown(items, kb, files);
    if |files| <= MAX_ITEMS {
      forall k: nat | k < |files|
        ensures k + 1 in FileNumbers(v.errors + v.duplicates) <==> k in MdSkip(items, kb, files)
      {
        MarkedFile(items, kb, files, |files|, k);
      }
    }
  }

  predicate MarksRow(duplicates: seq<Duplicate>, number: nat) {
    exists d | d in duplicates :: d.row == number
  }

  /** The duplicate list names exactly the duplicate rows. */
  lemma {:induction false} MarkedRow(items: seq<Item>, kb: int, rows: seq<QaRow>, n: nat, k: nat)
    requires n <= |rows| && k < |rows|
    ensures MarksRow(QaDuplicates(items, kb, rows, n), k + 1) <==> k < n && IsQaDuplicate(items, kb, rows, k)
  {
    if n > 0 {
      MarkedRow(items, kb, rows, n - 1, k);
      var rest := QaDuplicates(items, kb, rows, n - 1);
      if IsQaDuplicate(items, kb, rows, n - 1) {
        var d := if RepeatsEarlier(rows, n - 1) then Duplicate(n, "duplicate_in_file")
                 else Duplicate(n, "duplicate_existing_question");
        assert QaDuplicates(items, kb, rows, n) == rest + [d];
        assert forall x :: x in rest + [d] <==> x in rest || x == d;
      }
    }
  }

  predicate MarksFile(v: Validation, number: nat) {
    exists f | f in v.errors + v.duplicates :: f.OnFile? && f.file == number
  }

  /** The findings name exactly the refused and the duplicate files. */
  lemma {:induction false} MarkedFile(items: seq<Item>, kb: int, files: seq<MdFile>, n: nat, k: nat)
    requires n <= |files| && k < |files|
    ensures MarksFile(ValidateFiles(items, kb, files, n), k + 1)
            <==> k < n && (Refused(files, k) || IsMdDuplicate(items, kb, files, k))
  {
    if n > 0 {
      MarkedFile(items, kb, files, n - 1, k);
      var v, w := ValidateFiles(items, kb, files, n), ValidateFiles(items, kb, files, n - 1);
      if Refused(files, n - 1) || IsMdDuplicate(items, kb, files, n - 1) {
        var f := if Refused(files, n - 1) then v.errors[|w.errors|] else v.duplicates[|w.duplicates|];
        assert f.OnFile? && f.file == n;
        assert forall g :: g in v.errors + v.duplicates <==> g in w.errors + w.duplicates || g == f;
      }
    }
  }
}
