/** Importing Q&A rows and Markdown files into a knowledge base: parse, find duplicates,
    write what is left, count. */
module ImportModel {
  import opened Common
  import opened Text
  import opened ImportTags

  const MAX_ITEMS: nat := 500
  const MAX_BYTES: nat := 1024 * 1024

  // ----- Tables -----

  datatype Kind = Qa | Markdown

  /** A knowledge item; `live` means that it is not deleted. */
  datatype Item = Item(kb: int, kind: Kind, title: string, content: string, tags: seq<string>, live: bool)

  predicate Listed(items: seq<Item>, kb: int, kind: Kind, title: string) {
    exists it | it in items :: it.kb == kb && it.kind == kind && it.title == title && it.live
  }

  function NameKey(title: string): string {
    Lower(Trim(title))
  }

  /** Writing an item inserts the item and then its first version. When the second insert
      fails the item stays in the transaction although the row counts as failed. */
  datatype Write = Written | ItemRefused | VersionRefused

  /** What an import answers and files with its job: the failures and duplicates one by one. */
  datatype Report<E, D> = Report(success: nat, errors: seq<E>, duplicates: seq<D>, status: string)

  function ImportStatus(success: nat, failed: nat, duplicates: nat): (status: string)
    ensures status == "completed" <==> failed == 0 && duplicates == 0
    ensures status == "partial" <==> success > 0 && failed + duplicates > 0
    ensures status == "failed" <==> success == 0 && failed + duplicates > 0
  {
    if success == 0 && (failed > 0 || duplicates > 0) then "failed"
    else if failed > 0 || duplicates > 0 then "partial"
    else "completed"
  }

  // ----- Parsing Q&A -----

  datatype QaRow = QaRow(question: string, answer: string, tags: seq<string>)

  /** One call of the CSV reader. */
  datatype Record = Unreadable | Fields(fields: seq<string>)

  /** JSON rows win over CSV; `size` is the length of the CSV text. */
  datatype QaRequest = QaRequest(rows: seq<QaRow>, size: nat, headers: Option<seq<string>>, records: seq<Record>)

  datatype ParseError = ParseError(line: nat, error: string)

  /** The column of a header; a later column of the same name wins. */
  function Column(headers: seq<string>, name: string): Option<nat> {
    if headers == [] then None
    else if NameKey(headers[|headers| - 1]) == name then Some(|headers| - 1)
    else Column(headers[..|headers| - 1], name)
  }

  /** What one record contributes. */
  datatype Parsed = Good(row: QaRow) | Bad(error: string)

  function ParseRecord(r: Record, q: nat, a: nat, t: nat): Parsed {
    match r
    case Unreadable => Bad("invalid_csv_row")
    case Fields(fs) =>
      if q >= |fs| || a >= |fs| then Bad("missing_required_value")
      else
        var row := QaRow(Trim(fs[q]), Trim(fs[a]), if t < |fs| then Tags([fs[t]]) else []);
        if row.question == "" || row.answer == "" then Bad("question_and_answer_required") else Good(row)
  }

  /** What reading on from record `at` leaves, given what was read before; reading stops at
      the first row beyond the limit, which is kept. */
  function ParseFrom(rs: seq<Record>, at: nat, rows: seq<QaRow>, errors: seq<ParseError>, q: nat, a: nat, t: nat)
    : (seq<QaRow>, seq<ParseError>)
    requires at <= |rs|
    decreases |rs| - at
  {
    if at == |rs| then (rows, errors)
    else
      match ParseRecord(rs[at], q, a, t)
      case Bad(e) => ParseFrom(rs, at + 1, rows, errors + [ParseError(at + 2, e)], q, a, t)
      case Good(row) =>
        if |rows| + 1 > MAX_ITEMS then (rows + [row], errors + [ParseError(at + 2, "too_many_items")])
        else ParseFrom(rs, at + 1, rows + [row], errors, q, a, t)
  }

  /** The lookup of a missing tags column yields the first column. */
  function TagsColumn(headers: seq<string>): nat {
    var t := Column(headers, "tags");
    if t.Some? then t.value else 0
  }

  function ParseQa(req: QaRequest): (seq<QaRow>, seq<ParseError>) {
    if |req.rows| > 0 then (req.rows, [])
    else if req.size > MAX_BYTES then ([], [ParseError(0, "file_too_large")])
    else if req.headers.None? then ([], [ParseError(1, "invalid_csv")])
    else
      var q, a := Column(req.headers.value, "question"), Column(req.headers.value, "answer");
      if q.None? || a.None? then ([], [ParseError(1, "question_and_answer_columns_required")])
      else ParseFrom(req.records, 0, [], [], q.value, a.value, TagsColumn(req.headers.value))
  }

  // ----- Duplicates among Q&A rows -----

  datatype Duplicate = Duplicate(row: nat, reason: string)

  predicate RepeatsEarlier(rows: seq<QaRow>, i: nat)
    requires i < |rows|
  {
    exists j | 0 <= j < i :: NameKey(rows[j].question) == NameKey(rows[i].question)
  }

  predicate IsQaDuplicate(items: seq<Item>, kb: int, rows: seq<QaRow>, i: nat)
    requires i < |rows|
  {
    RepeatsEarlier(rows, i) || Listed(items, kb, Qa, rows[i].question)
  }

  function QaDuplicates(items: seq<Item>, kb: int, rows: seq<QaRow>, n: nat): seq<Duplicate>
    requires n <= |rows|
  {
    if n == 0 then []
    else
      var rest := QaDuplicates(items, kb, rows, n - 1);
      if RepeatsEarlier(rows, n - 1) then rest + [Duplicate(n, "duplicate_in_file")]
      else if Listed(items, kb, Qa, rows[n - 1].question) then rest + [Duplicate(n, "duplicate_existing_question")]
      else rest
  }

  // ----- The write loop -----

  /** `failed` lists the failing writes by their one-based positions. */
  datatype Pass = Pass(success: nat, failed: seq<nat>, items: seq<Item>)

  /** Offer the first n prospects to the table, skipping the marked positions. */
  function WriteAll(items: seq<Item>, prospects: seq<Item>, skip: set<nat>, writes: seq<Write>, n: nat): Pass
    requires n <= |prospects| == |writes|
  {
    if n == 0 then Pass(0, [], items)
    else
      var p := WriteAll(items, prospects, skip, writes, n - 1);
      if n - 1 in skip then p
      else
        match writes[n - 1]
        case Written => Pass(p.success + 1, p.failed, p.items + [prospects[n - 1]])
        case ItemRefused => Pass(p.success, p.failed + [n], p.items)
        case VersionRefused => Pass(p.success, p.failed + [n], p.items + [prospects[n - 1]])
  }

  /** The positions whose item row ends up in the table. */
  function StoredAt(skip: set<nat>, writes: seq<Write>, n: nat): (ks: seq<nat>)
    requires n <= |writes|
    ensures forall i | 0 <= i < |ks| :: ks[i] < n && ks[i] !in skip && writes[ks[i]] != ItemRefused
    ensures forall i, j | 0 <= i < j < |ks| :: ks[i] < ks[j]
  {
    if n == 0 then []
    else
      var rest := StoredAt(skip, writes, n - 1);
      if n - 1 in skip || writes[n - 1] == ItemRefused then rest else rest + [n - 1]
  }

  function At(prospects: seq<Item>, ks: seq<nat>): seq<Item>
    requires forall i | 0 <= i < |ks| :: ks[i] < |prospects|
  {
    seq(|ks|, i requires 0 <= i < |ks| => prospects[ks[i]])
  }

  // ----- Q&A import -----

  function QaItems(kb: int, rows: seq<QaRow>): (prospects: seq<Item>)
    ensures |prospects| == |rows|
  {
    seq(|rows|, i requires 0 <= i < |rows| => Item(kb, Qa, rows[i].question, rows[i].answer, Tags(rows[i].tags), true))
  }

  function QaSkip(items: seq<Item>, kb: int, rows: seq<QaRow>): (skip: set<nat>)
    ensures forall i: nat :: i in skip <==> i < |rows| && IsQaDuplicate(items, kb, rows, i)
  {
    set i: nat | i < |rows| && IsQaDuplicate(items, kb, rows, i)
  }

  datatype QaError = Unparsed(parsing: ParseError) | Unwritten(row: nat)

  type QaReport = Report<QaError, Duplicate>

  function QaErrors(parsing: seq<ParseError>, unwritten: seq<nat>): (errors: seq<QaError>)
    ensures |errors| == |parsing| + |unwritten|
  {
    seq(|parsing|, i requires 0 <= i < |parsing| => Unparsed(parsing[i])) +
    seq(|unwritten|, i requires 0 <= i < |unwritten| => Unwritten(unwritten[i]))
  }

  function ImportQa(items: seq<Item>, kb: int, req: QaRequest, writes: seq<Write>): (seq<Item>, QaReport)
    requires |writes| == |ParseQa(req).0|
  {
    var (rows, parsing) := ParseQa(req);
    var duplicates := QaDuplicates(items, kb, rows, |rows|);
    var p := WriteAll(items, QaItems(kb, rows), QaSkip(items, kb, rows), writes, |rows|);
    var errors := QaErrors(parsing, p.failed);
    (p.items, Report(p.success, errors, duplicates, ImportStatus(p.success, |errors|, |duplicates|)))
  }

  // ----- Markdown import -----

  datatype MdFile = MdFile(title: string, content: string, tags: seq<string>)

  const BOM: string := ['\U{EF}', '\U{BB}', '\U{BF}']

  function Body(f: MdFile): string {
    if BOM <= f.content then f.content[3..] else f.content
  }

  /** The size of the first n bodies; files that are refused count too. */
  function TotalBytes(files: seq<MdFile>, n: nat): nat
    requires n <= |files|
  {
    if n == 0 then 0 else TotalBytes(files, n - 1) + |Body(files[n - 1])|
  }

  predicate Refused(files: seq<MdFile>, i: nat)
    requires i < |files|
  {
    Trim(files[i].title) == "" || Trim(Body(files[i])) == "" || TotalBytes(files, i + 1) > MAX_BYTES
  }

  predicate RepeatsAccepted(files: seq<MdFile>, i: nat)
    requires i < |files|
  {
    exists j | 0 <= j < i :: !Refused(files, j) && NameKey(files[j].title) == NameKey(files[i].title)
  }

  predicate IsMdDuplicate(items: seq<Item>, kb: int, files: seq<MdFile>, i: nat)
    requires i < |files|
  {
    !Refused(files, i) && (RepeatsAccepted(files, i) || Listed(items, kb, Markdown, Trim(files[i].title)))
  }

  /** A finding about one file, or about the upload as a whole. */
  datatype Finding = OnFile(file: nat, note: string) | OnUpload(note: string)

  datatype Validation = Validation(errors: seq<Finding>, duplicates: seq<Finding>, valid: nat, total: nat)

  function ValidateFiles(items: seq<Item>, kb: int, files: seq<MdFile>, n: nat): Validation
    requires n <= |files|
  {
    if n == 0 then Validation([], [], 0, 0)
    else
      var w, i := ValidateFiles(items, kb, files, n - 1), n - 1;
      var v := w.(total := w.total + |Body(files[i])|);
      if Trim(files[i].title) == "" || Trim(Body(files[i])) == "" then
        v.(errors := v.errors + [OnFile(n, "title_and_content_required")])
      else if TotalBytes(files, n) > MAX_BYTES then
        v.(errors := v.errors + [OnFile(n, "total_size_exceeded")])
      else if RepeatsAccepted(files, i) then
        v.(duplicates := v.duplicates + [OnFile(n, "duplicate_in_upload")])
      else if Listed(items, kb, Markdown, Trim(files[i].title)) then
        v.(duplicates := v.duplicates + [OnFile(n, "duplicate_existing_title")])
      else v.(valid := v.valid + 1)
  }

  function ValidateMarkdown(items: seq<Item>, kb: int, files: seq<MdFile>): Validation {
    if |files| > MAX_ITEMS then Validation([OnUpload("too_many_files")], [], 0, 0)
    else ValidateFiles(items, kb, files, |files|)
  }

  function MdItems(kb: int, files: seq<MdFile>): (prospects: seq<Item>)
    ensures |prospects| == |files|
  {
    seq(|files|, i requires 0 <= i < |files| =>
      Item(kb, Markdown, Trim(files[i].title), Body(files[i]), Tags(files[i].tags), true))
  }

  /** Only findings about a single file keep that file out. */
  function MdSkip(items: seq<Item>, kb: int, files: seq<MdFile>): (skip: set<nat>)
    ensures forall i: nat :: i in skip
              <==> i < |files| <= MAX_ITEMS && (Refused(files, i) || IsMdDuplicate(items, kb, files, i))
  {
    if |files| > MAX_ITEMS then {}
    else set i: nat | i < |files| && (Refused(files, i) || IsMdDuplicate(items, kb, files, i))
  }

  type MdReport = Report<Finding, Finding>

  function MdErrors(findings: seq<Finding>, unwritten: seq<nat>): (errors: seq<Finding>)
    ensures |errors| == |findings| + |unwritten|
  {
    findings + seq(|unwritten|, i requires 0 <= i < |unwritten| => OnFile(unwritten[i], "database_write_failed"))
  }

  function ImportMarkdown(items: seq<Item>, kb: int, files: seq<MdFile>, writes: seq<Write>): (seq<Item>, MdReport)
    requires |writes| == |files|
  {
    var v := ValidateMarkdown(items, kb, files);
    var p := WriteAll(items, MdItems(kb, files), MdSkip(items, kb, files), writes, |files|);
    var errors := MdErrors(v.errors, p.failed);
    (p.items, Report(p.success, errors, v.duplicates, ImportStatus(p.success, |errors|, |v.duplicates|)))
  }

  // ----- Import jobs -----

  /** The job row an import leaves with its report. */
  datatype Job = QaJob(kb: int, qa: QaReport) | MdJob(kb: int, md: MdReport)
}
