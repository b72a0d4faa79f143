/** Knowledge documents: a draft is overwritten in place, a published version is frozen. */
module DocumentModel {
  datatype Status = Draft | Published
  datatype Document = Document(title: string, kind: string, status: Status, index: string)
  datatype Version = Version(doc: int, number: nat, content: string, status: Status)

  /** Version rows in insertion order, over all documents. */
  datatype State = State(docs: map<int, Document>, versions: seq<Version>, nextDoc: int)

  // ----- Queries -----

  /** `COALESCE(MAX(version),0)` */
  function MaxVersion(vs: seq<Version>, id: int): (n: nat)
    ensures forall i | 0 <= i < |vs| && vs[i].doc == id :: vs[i].number <= n
    ensures n > 0 ==> exists i | 0 <= i < |vs| :: vs[i].doc == id && vs[i].number == n
  {
    if vs == [] then 0
    else
      var front := vs[..|vs| - 1];
      var n, v := MaxVersion(front, id), vs[|vs| - 1];
      assert forall i | 0 <= i < |front| :: front[i] == vs[i];
      if v.doc == id && v.number > n then v.number else n
  }

  /** Some version of the document with this number is a draft. */
  predicate DraftAt(vs: seq<Version>, id: int, n: nat) {
    exists i | 0 <= i < |vs| :: vs[i].doc == id && vs[i].number == n && vs[i].status == Draft
  }

  /** The document's own versions, in insertion order. */
  function History(vs: seq<Version>, id: int): (h: seq<Version>)
    ensures forall i | 0 <= i < |h| :: h[i].doc == id
  {
    if vs == [] then []
    else
      var rest, v := History(vs[..|vs| - 1], id), vs[|vs| - 1];
      if v.doc == id then rest + [v] else rest
  }

  // ----- Row updates -----

  function WithContent(vs: seq<Version>, id: int, n: nat, content: string): (t: seq<Version>)
    ensures |t| == |vs|
  {
    seq(|vs|, i requires 0 <= i < |vs| =>
      if vs[i].doc == id && vs[i].number == n then vs[i].(content := content) else vs[i])
  }

  function WithPublished(vs: seq<Version>, id: int, n: nat): (t: seq<Version>)
    ensures |t| == |vs|
  {
    seq(|vs|, i requires 0 <= i < |vs| =>
      if vs[i].doc == id && vs[i].number == n then vs[i].(status := Published) else vs[i])
  }

  /** ON DELETE CASCADE */
  function Without(vs: seq<Version>, id: int): seq<Version> {
    if vs == [] then []
    else
      var rest, v := Without(vs[..|vs| - 1], id), vs[|vs| - 1];
      if v.doc == id then rest else rest + [v]
  }

  // ----- Operations -----

  /** `stored`: the insert of the first version succeeds; the document stays when it does not. */
  function Create(s: State, title: string, kind: string, content: string, stored: bool): State {
    if title == "" || kind !in {"", "markdown", "plain_text"} then s
    else
      s.(docs := s.docs[s.nextDoc := Document(title, if kind == "" then "markdown" else kind, Draft, "not_indexed")],
         versions := if stored then s.versions + [Version(s.nextDoc, 1, content, Draft)] else s.versions,
         nextDoc := s.nextDoc + 1)
  }

  /** Which of the two writes of an edit or a publication the database accepts; the handlers
      ignore a refusal and go on. */
  datatype Writes = Writes(version: bool, document: bool)

  /** A draft is overwritten; otherwise the next version is inserted, which the foreign key
      refuses for a document that does not exist. */
  function Edited(s: State, id: int, content: string): seq<Version> {
    var n := MaxVersion(s.versions, id);
    if n > 0 && DraftAt(s.versions, id, n) then WithContent(s.versions, id, n, content)
    else if id in s.docs then s.versions + [Version(id, n + 1, content, Draft)]
    else s.versions
  }

  function Update(s: State, id: int, title: string, kind: string, content: string, w: Writes): State {
    if title == "" then s
    else
      s.(versions := if w.version then Edited(s, id, content) else s.versions,
         docs := if w.document && id in s.docs
                 then s.docs[id := Document(title, kind, Draft, "not_indexed")] else s.docs)
  }

  /** The status is written together with a pending index, and the index again once it is
      built; `indexed`: that last write is accepted. */
  function Publish(s: State, id: int, w: Writes, indexed: bool): State {
    var n := MaxVersion(s.versions, id);
    if n == 0 then s
    else
      s.(versions := if w.version then WithPublished(s.versions, id, n) else s.versions,
         docs := if id in s.docs then s.docs[id := Indexed(Released(s.docs[id], w), indexed)] else s.docs)
  }

  function Released(d: Document, w: Writes): Document {
    if w.document then d.(status := Published, index := "pending") else d
  }

  function Indexed(d: Document, indexed: bool): Document {
    if indexed then d.(index := "indexed") else d
  }

  function Delete(s: State, id: int): State {
    s.(docs := s.docs - {id}, versions := Without(s.versions, id))
  }

  // ----- Runs -----

  datatype Event =
    | DoCreate(title: string, kind: string, content: string, stored: bool)
    | DoUpdate(id: int, title: string, kind: string, content: string, w: Writes)
    | DoPublish(id: int, w: Writes, indexed: bool)
    | DoDelete(id: int)

  function Next(s: State, e: Event): State {
    match e
    case DoCreate(title, kind, content, stored) => Create(s, title, kind, content, stored)
    case DoUpdate(id, title, kind, content, w) => Update(s, id, title, kind, content, w)
    case DoPublish(id, w, indexed) => Publish(s, id, w, indexed)
    case DoDelete(id) => Delete(s, id)
  }

  function Run(s: State, es: seq<Event>): State {
    if es == [] then s else Next(Run(s, es[..|es| - 1]), es[|es| - 1])
  }
}
