/** What an import stores and reports, file by file and row by row, in terms of the request and
    the table alone. */
module ImportOutcomes {
  import opened Common
  import opened Text
  import opened ImportTags
  import opened ImportModel
  import opened ImportTheorems

  /** Positions in increasing order, exactly those with the property. */
  predicate Increasing(ks: seq<nat>) {
    forall i, j | 0 <= i < j < |ks| :: ks[i] < ks[j]
  }

  lemma {:induction false} StoredPositions(skip: set<nat>, writes: seq<Write>, n: nat, k: nat)
    requires n <= |writes|
    ensures Increasing(StoredAt(skip, writes, n))
    ensures k in StoredAt(skip, writes, n) <==> k < n && k !in skip && writes[k] != ItemRefused
  {
    if k < n && k !in skip && writes[k] != ItemRefused {
      var i := StoredIsAt(skip, writes, n, k);
    }
  }

  // ----- Questions and answers -----

  /** A live item of this kind and title is in the knowledge base. */
  predicate Present(items: seq<Item>, kb: int, kind: Kind, title: string) {
    exists x | x in items :: x.kb == kb && x.kind == kind && x.title == title && x.live
  }

  /** The question occurs in no earlier row, up to case and outer white space, and is not the
      title of a live question of the knowledge base. */
  predicate NewQuestion(items: seq<Item>, kb: int, rows: seq<QaRow>, k: nat) {
    k < |rows| && !Present(items, kb, Qa, rows[k].question) &&
    forall j | 0 <= j < k :: Lower(Trim(rows[j].question)) != Lower(Trim(rows[k].question))
  }

  lemma {:induction false} NewQuestionIs(items: seq<Item>, kb: int, rows: seq<QaRow>, k: nat)
    requires k < |rows|
    ensures NewQuestion(items, kb, rows, k) <==> !IsQaDuplicate(items, kb, rows, k)
  {
    assert forall j | 0 <= j < |rows| :: NameKey(rows[j].question) == Lower(Trim(rows[j].question));
  }

  /** An import appends one live item for each new question whose item row can be written, in
      order, with the question as title, the answer of its own row and the cleaned tags of its
      own row. */
  lemma {:induction false} QuestionsStored(items: seq<Item>, kb: int, req: QaRequest, writes: seq<Write>)
    returns (ks: seq<nat>)
    requires |writes| == |ParseQa(req).0|
    ensures var rows, after := ParseQa(req).0, ImportQa(items, kb, req, writes).0;
            Increasing(ks) &&
            (forall k: nat :: k in ks <==> k < |rows| && NewQuestion(items, kb, rows, k) && writes[k] != ItemRefused) &&
            |after| == |items| + |ks| && items <= after &&
            forall i | 0 <= i < |ks| ::
              ks[i] < |rows| &&
              after[|items| + i]
              == Item(kb, Qa, rows[ks[i]].question, rows[ks[i]].answer, Tags(rows[ks[i]].tags), true)
  {
    var rows := ParseQa(req).0;
    var skip := QaSkip(items, kb, rows);
    ks := StoredAt(skip, writes, |rows|);
    WriteAllStores(items, QaItems(kb, rows), skip, writes, |rows|);
    StoredPositions(skip, writes, |rows|, 0);
    forall k: nat
      ensures k in ks <==> k < |rows| && NewQuestion(items, kb, rows, k) && writes[k] != ItemRefused
    {
      StoredPositions(skip, writes, |rows|, k);
      if k < |rows| {
        NewQuestionIs(items, kb, rows, k);
      }
    }
  }

  /** The duplicates reported: each row that is not new, with its one-based number, because it
      repeats an earlier row or else because its question is present. */
  lemma {:induction false} DuplicatesExplained(items: seq<Item>, kb: int, rows: seq<QaRow>, n: nat, d: Duplicate)
    requires n <= |rows|
    ensures d in QaDuplicates(items, kb, rows, n) <==>
              1 <= d.row <= n && !NewQuestion(items, kb, rows, d.row - 1) &&
              d.reason == if exists j | 0 <= j < d.row - 1 ::
                               Lower(Trim(rows[j].question)) == Lower(Trim(rows[d.row - 1].question))
                          then "duplicate_in_file" else "duplicate_existing_question"
  {
    if n > 0 {
      DuplicatesExplained(items, kb, rows, n - 1, d);
      NewQuestionIs(items, kb, rows, n - 1);
      assert forall j | 0 <= j < |rows| :: NameKey(rows[j].question) == Lower(Trim(rows[j].question));
      assert RepeatsEarlier(rows, n - 1) <==>
             exists j | 0 <= j < n - 1 :: Lower(Trim(rows[j].question)) == Lower(Trim(rows[n - 1].question));
    }
  }

  // ----- Markdown files -----

  /** The contents without a leading byte-order mark. */
  function Contents(f: MdFile): string {
    if |f.content| >= 3 && f.content[..3] == ['\U{EF}', '\U{BB}', '\U{BF}'] then f.content[3..] else f.content
  }

  function SizeUpTo(files: seq<MdFile>, n: nat): nat
    requires n <= |files|
  {
    if n == 0 then 0 else SizeUpTo(files, n - 1) + |Contents(files[n - 1])|
  }

  /** Title and contents are not blank and the files so far stay within 1048576 bytes. */
  predicate Sound(files: seq<MdFile>, k: nat) {
    k < |files| && Trim(files[k].title) != "" && Trim(Contents(files[k])) != "" && SizeUpTo(files, k + 1) <= 1048576
  }

  /** A sound file whose title is neither that of an earlier sound file, up to case and outer
      white space, nor that of a live Markdown item. */
  predicate NewFile(items: seq<Item>, kb: int, files: seq<MdFile>, k: nat) {
    Sound(files, k) && !Present(items, kb, Markdown, Trim(files[k].title)) &&
    forall j | 0 <= j < k && Sound(files, j) :: Lower(Trim(files[j].title)) != Lower(Trim(files[k].title))
  }

  lemma {:induction false} ContentsAreBody(f: MdFile)
    ensures Contents(f) == Body(f)
  {
    assert BOM == ['\U{EF}', '\U{BB}', '\U{BF}'];
    if |f.content| >= 3 && f.content[..3] == BOM {
      assert BOM <= f.content;
    }
  }

  lemma {:induction false} SizesAgree(files: seq<MdFile>, n: nat)
    requires n <= |files|
    ensures SizeUpTo(files, n) == TotalBytes(files, n)
  {
    if n > 0 {
      SizesAgree(files, n - 1);
      ContentsAreBody(files[n - 1]);
    }
  }

  lemma {:induction false} SoundIs(files: seq<MdFile>, k: nat)
    requires k < |files|
    ensures Sound(files, k) <==> !Refused(files, k)
  {
    ContentsAreBody(files[k]);
    SizesAgree(files, k + 1);
    assert MAX_BYTES == 1048576;
  }

  lemma {:induction false} NewFileIs(items: seq<Item>, kb: int, files: seq<MdFile>, k: nat)
    requires k < |files|
    ensures NewFile(items, kb, files, k) <==> !Refused(files, k) && !IsMdDuplicate(items, kb, files, k)
  {
    forall j | 0 <= j < |files| ensures Sound(files, j) <==> !Refused(files, j) {
      SoundIs(files, j);
    }
    assert forall j | 0 <= j < |files| :: NameKey(files[j].title) == Lower(Trim(files[j].title));
  }

  /** An import appends one live item for each file whose item row can be written and that is
      new, or that was sent along with more than 500: in order, with the trimmed title, the
      contents without a byte-order mark and the cleaned tags of that very file. */
  lemma {:induction false} FilesStored(items: seq<Item>, kb: int, files: seq<MdFile>, writes: seq<Write>)
    returns (ks: seq<nat>)
    requires |writes| == |files|
    ensures var after := ImportMarkdown(items, kb, files, writes).0;
            Increasing(ks) &&
            (forall k: nat :: k in ks <==>
               k < |files| && writes[k] != ItemRefused && (|files| > 500 || NewFile(items, kb, files, k))) &&
            |after| == |items| + |ks| && items <= after &&
            forall i | 0 <= i < |ks| ::
              ks[i] < |files| &&
              after[|items| + i]
              == Item(kb, Markdown, Trim(files[ks[i]].title), Contents(files[ks[i]]), Tags(files[ks[i]].tags), true)
  {
    var skip := MdSkip(items, kb, files);
    ks := StoredAt(skip, writes, |files|);
    WriteAllStores(items, MdItems(kb, files), skip, writes, |files|);
    StoredPositions(skip, writes, |files|, 0);
    forall k: nat
      ensures k in ks <==> k < |files| && writes[k] != ItemRefused && (|files| > 500 || NewFile(items, kb, files, k))
    {
      StoredPositions(skip, writes, |files|, k);
      if k < |files| {
        NewFileIs(items, kb, files, k);
      }
    }
    forall i | 0 <= i < |ks| ensures Contents(files[ks[i]]) == Body(files[ks[i]]) {
      ContentsAreBody(files[ks[i]]);
    }
  }

  /** What the model says of one file, in the terms used here. */
  function ErrorNote(files: seq<MdFile>, k: nat): string
    requires k < |files|
  {
    if Trim(files[k].title) == "" || Trim(Contents(files[k])) == "" then "title_and_content_required"
    else "total_size_exceeded"
  }

  function DuplicateNote(files: seq<MdFile>, k: nat): string
    requires k < |files|
  {
    if exists j | 0 <= j < k :: Sound(files, j) && Lower(Trim(files[j].title)) == Lower(Trim(files[k].title))
    then "duplicate_in_upload" else "duplicate_existing_title"
  }

  lemma {:induction false} Grown<T>(now: seq<T>, before: seq<T>, added: bool, x: T, y: T)
    requires now == if added then before + [x] else before
    ensures y in now <==> y in before || (added && y == x)
  {
    if added {
      assert now[|before|] == x;
    }
  }

  lemma {:induction false} ErrorsOfFile(items: seq<Item>, kb: int, files: seq<MdFile>, n: nat)
    requires 0 < n <= |files|
    ensures var before := ValidateFiles(items, kb, files, n - 1).errors;
            ValidateFiles(items, kb, files, n).errors
            == if !Sound(files, n - 1) then before + [OnFile(n, ErrorNote(files, n - 1))] else before
  {
    SoundIs(files, n - 1);
    ContentsAreBody(files[n - 1]);
  }

  lemma {:induction false} RepeatsGrow(items: seq<Item>, kb: int, files: seq<MdFile>, n: nat)
    requires 0 < n <= |files|
    ensures var before := ValidateFiles(items, kb, files, n - 1).duplicates;
            ValidateFiles(items, kb, files, n).duplicates
            == if Refused(files, n - 1) || !IsMdDuplicate(items, kb, files, n - 1) then before
               else if RepeatsAccepted(files, n - 1) then before + [OnFile(n, "duplicate_in_upload")]
               else before + [OnFile(n, "duplicate_existing_title")]
  {
  }

  lemma {:induction false} DuplicateNoteIs(files: seq<MdFile>, k: nat)
    requires k < |files|
    ensures DuplicateNote(files, k)
         == if RepeatsAccepted(files, k) then "duplicate_in_upload" else "duplicate_existing_title"
  {
    forall j | 0 <= j < |files| ensures Sound(files, j) <==> !Refused(files, j) {
      SoundIs(files, j);
    }
    assert forall j | 0 <= j < |files| :: NameKey(files[j].title) == Lower(Trim(files[j].title));
  }

  lemma {:induction false} RepeatsOfFile(items: seq<Item>, kb: int, files: seq<MdFile>, n: nat)
    requires 0 < n <= |files|
    ensures var before := ValidateFiles(items, kb, files, n - 1).duplicates;
            ValidateFiles(items, kb, files, n).duplicates
            == if Sound(files, n - 1) && !NewFile(items, kb, files, n - 1)
               then before + [OnFile(n, DuplicateNote(files, n - 1))] else before
  {
    RepeatsGrow(items, kb, files, n);
    DuplicateNoteIs(files, n - 1);
    SoundIs(files, n - 1);
    NewFileIs(items, kb, files, n - 1);
  }

  /** The errors of the validation: one for each file that is not sound, with its one-based
      number and the reason. */
  lemma {:induction false} ErrorsExplained(items: seq<Item>, kb: int, files: seq<MdFile>, n: nat, f: Finding)
    requires n <= |files|
    ensures f in ValidateFiles(items, kb, files, n).errors <==>
              f.OnFile? && 1 <= f.file <= n && !Sound(files, f.file - 1) && f.note == ErrorNote(files, f.file - 1)
  {
    if n > 0 {
      ErrorsExplained(items, kb, files, n - 1, f);
      ErrorsOfFile(items, kb, files, n);
      Grown(ValidateFiles(items, kb, files, n).errors, ValidateFiles(items, kb, files, n - 1).errors,
            !Sound(files, n - 1), OnFile(n, ErrorNote(files, n - 1)), f);
    }
  }

  /** The duplicates of the validation: one for each sound file that is not new, with its
      one-based number and the reason. */
  lemma {:induction false} RepeatsExplained(items: seq<Item>, kb: int, files: seq<MdFile>, n: nat, f: Finding)
    requires n <= |files|
    ensures f in ValidateFiles(items, kb, files, n).duplicates <==>
              f.OnFile? && 1 <= f.file <= n && Sound(files, f.file - 1) && !NewFile(items, kb, files, f.file - 1) &&
              f.note == DuplicateNote(files, f.file - 1)
  {
    if n > 0 {
      RepeatsExplained(items, kb, files, n - 1, f);
      RepeatsOfFile(items, kb, files, n);
      Grown(ValidateFiles(items, kb, files, n).duplicates, ValidateFiles(items, kb, files, n - 1).duplicates,
            Sound(files, n - 1) && !NewFile(items, kb, files, n - 1), OnFile(n, DuplicateNote(files, n - 1)), f);
    }
  }

  // ----- Reading CSV texts -----

  /** The last column whose trimmed header has this name, up to case. */
  predicate LastColumn(headers: seq<string>, name: string, c: nat) {
    c < |headers| && Lower(Trim(headers[c])) == name &&
    forall j | c < j < |headers| :: Lower(Trim(headers[j])) != name
  }

  lemma {:induction false} ColumnIs(headers: seq<string>, name: string, c: nat)
    ensures Column(headers, name) == Some(c) <==> LastColumn(headers, name, c)
    ensures Column(headers, name).None? ==> forall j | 0 <= j < |headers| :: Lower(Trim(headers[j])) != name
  {
    if headers != [] {
      var front := headers[..|headers| - 1];
      ColumnIs(front, name, c);
      assert forall j | 0 <= j < |front| :: front[j] == headers[j];
      assert NameKey(headers[|headers| - 1]) == Lower(Trim(headers[|headers| - 1]));
    }
  }

  /** A record becomes a row exactly when it has both columns and neither is blank; the row has
      the two fields trimmed and the tags of its tags column, if the record has one. */
  lemma {:induction false} RecordRead(r: Record, q: nat, a: nat, t: nat)
    ensures var p := ParseRecord(r, q, a, t);
            if r.Fields? && q < |r.fields| && a < |r.fields| && Trim(r.fields[q]) != "" && Trim(r.fields[a]) != "" then
              p == Good(QaRow(Trim(r.fields[q]), Trim(r.fields[a]), if t < |r.fields| then Tags([r.fields[t]]) else []))
            else p.Bad?
    ensures ParseRecord(r, q, a, t).Bad? ==>
              ParseRecord(r, q, a, t).error
              == if r.Unreadable? then "invalid_csv_row"
                 else if q < |r.fields| && a < |r.fields| then "question_and_answer_required"
                 else "missing_required_value"
  {
  }

  /** Rows sent as JSON are taken as they are; otherwise the CSV text is read, unless it is
      longer than 1048576 bytes, has no header, or lacks one of the two columns, each of which
      leaves no row and one error. */
  lemma {:induction false} RequestRead(req: QaRequest, q: nat, a: nat)
    ensures |req.rows| > 0 ==> ParseQa(req) == (req.rows, [])
    ensures req.rows == [] && req.size > 1048576 ==> ParseQa(req) == ([], [ParseError(0, "file_too_large")])
    ensures req.rows == [] && req.size <= 1048576 && req.headers.None? ==>
              ParseQa(req) == ([], [ParseError(1, "invalid_csv")])
    ensures req.rows == [] && req.size <= 1048576 && req.headers.Some? &&
            ((forall c: nat :: !LastColumn(req.headers.value, "question", c)) ||
             forall c: nat :: !LastColumn(req.headers.value, "answer", c)) ==>
              ParseQa(req) == ([], [ParseError(1, "question_and_answer_columns_required")])
    ensures req.rows == [] && req.size <= 1048576 && req.headers.Some? &&
            LastColumn(req.headers.value, "question", q) && LastColumn(req.headers.value, "answer", a) ==>
              ParseQa(req) == ParseFrom(req.records, 0, [], [], q, a, TagsColumn(req.headers.value))
  {
    assert MAX_BYTES == 1048576;
    if req.headers.Some? {
      var h := req.headers.value;
      ColumnIs(h, "question", q);
      ColumnIs(h, "answer", a);
      var x, y := Column(h, "question"), Column(h, "answer");
      if x.Some? {
        ColumnIs(h, "question", x.value);
      }
      if y.Some? {
        ColumnIs(h, "answer", y.value);
      }
    }
  }

  /** The error names the line of a record, from this one on, that could not become a row. */
  predicate NamesBadRecord(rs: seq<Record>, at: nat, e: ParseError, q: nat, a: nat, t: nat) {
    at + 2 <= e.line < |rs| + 2 && ParseRecord(rs[e.line - 2], q, a, t) == Bad(e.error)
  }

  /** Reading a CSV text keeps at most 501 rows; each error names the line of its record, which
      could not become a row, or came after 500 others and is where reading stopped. */
  lemma {:induction false} ReadingStops(
      rs: seq<Record>, at: nat, rows: seq<QaRow>, errors: seq<ParseError>, q: nat, a: nat, t: nat)
    requires at <= |rs| && |rows| <= 500
    ensures var (rows', errors') := ParseFrom(rs, at, rows, errors, q, a, t);
            rows <= rows' && errors <= errors' && |rows'| <= 501 &&
            forall i | |errors| <= i < |errors'| ::
              NamesBadRecord(rs, at, errors'[i], q, a, t) ||
              (at + 2 <= errors'[i].line < |rs| + 2 && errors'[i].error == "too_many_items" &&
               i == |errors'| - 1 && |rows'| == 501)
    decreases |rs| - at
  {
    if at < |rs| {
      match ParseRecord(rs[at], q, a, t)
      case Bad(e) =>
        var more := errors + [ParseError(at + 2, e)];
        ReadingStops(rs, at + 1, rows, more, q, a, t);
        assert ParseFrom(rs, at, rows, errors, q, a, t).1[|errors|] == more[|errors|];
        assert NamesBadRecord(rs, at, more[|errors|], q, a, t);
      case Good(row) =>
        if |rows| < 500 {
          ReadingStops(rs, at + 1, rows + [row], errors, q, a, t);
        }
    }
  }
}
