/** Version numbers, statuses and frozen content over every run of the document operations. */
module DocumentTheorems {
  import opened DocumentModel

  // ----- The invariant -----

  /** Versions 1..n in order, all but the last published. */
  predicate Numbered(h: seq<Version>) {
    (forall i | 0 <= i < |h| :: h[i].number == i + 1) &&
    forall i | 0 <= i < |h| - 1 :: h[i].status == Published
  }

  function LatestStatus(h: seq<Version>): Status {
    if h == [] then Draft else h[|h| - 1].status
  }

  predicate DocumentOk(s: State, id: int) {
    var h := History(s.versions, id);
    Numbered(h) && if id in s.docs then id < s.nextDoc else h == []
  }

  ghost predicate Inv(s: State) {
    forall id :: DocumentOk(s, id)
  }

  // ----- Histories under row updates -----

  lemma {:induction false} HistoryAppend(vs: seq<Version>, v: Version, id: int)
    ensures History(vs + [v], id) == if v.doc == id then History(vs, id) + [v] else History(vs, id)
  {
    assert (vs + [v])[..|vs|] == vs;
  }

  lemma {:induction false} HistoryWithContent(vs: seq<Version>, id: int, n: nat, content: string, d: int)
    ensures History(WithContent(vs, id, n, content), d) == WithContent(History(vs, d), id, n, content)
  {
    if vs != [] {
      var front := vs[..|vs| - 1];
      HistoryWithContent(front, id, n, content, d);
      assert WithContent(vs, id, n, content)[..|vs| - 1] == WithContent(front, id, n, content);
    }
  }

  lemma {:induction false} HistoryWithPublished(vs: seq<Version>, id: int, n: nat, d: int)
    ensures History(WithPublished(vs, id, n), d) == WithPublished(History(vs, d), id, n)
  {
    if vs != [] {
      var front := vs[..|vs| - 1];
      HistoryWithPublished(front, id, n, d);
      assert WithPublished(vs, id, n)[..|vs| - 1] == WithPublished(front, id, n);
    }
  }

  lemma {:induction false} HistoryWithout(vs: seq<Version>, id: int, d: int)
    ensures History(Without(vs, id), d) == if d == id then [] else History(vs, d)
  {
    if vs != [] {
      var front, v := vs[..|vs| - 1], vs[|vs| - 1];
      HistoryWithout(front, id, d);
      if v.doc != id {
        HistoryAppend(Without(front, id), v, d);
      }
    }
  }

  /** In a numbered history the greatest version number is the number of versions. */
  lemma {:induction false} MaxIsLength(vs: seq<Version>, id: int)
    requires Numbered(History(vs, id))
    ensures MaxVersion(vs, id) == |History(vs, id)|
    decreases |vs|
  {
    if vs != [] {
      var front, v := vs[..|vs| - 1], vs[|vs| - 1];
      var h, g := History(vs, id), History(front, id);
      if v.doc == id {
        assert h == g + [v] && forall i | 0 <= i < |g| :: g[i] == h[i];
        assert h[|h| - 1].number == |h|;
      }
      MaxIsLength(front, id);
    }
  }

  lemma {:induction false} DraftInHistory(vs: seq<Version>, id: int, n: nat)
    ensures DraftAt(vs, id, n) <==> exists i | 0 <= i < |History(vs, id)| ::
              History(vs, id)[i].number == n && History(vs, id)[i].status == Draft
  {
    if vs != [] {
      var front, v := vs[..|vs| - 1], vs[|vs| - 1];
      DraftInHistory(front, id, n);
      var h, g := History(vs, id), History(front, id);
      assert DraftAt(vs, id, n) <==> DraftAt(front, id, n) || (v.doc == id && v.number == n && v.status == Draft) by {
        assert forall i | 0 <= i < |front| :: front[i] == vs[i];
      }
      assert forall i | 0 <= i < |g| :: h[i] == g[i];
      assert v.doc == id ==> h[|h| - 1] == v;
    }
  }

  /** The latest version of a well-kept document is a draft exactly when the query finds one. */
  lemma {:induction false} LatestIsDraft(s: State, id: int)
    requires DocumentOk(s, id)
    ensures var h, n := History(s.versions, id), MaxVersion(s.versions, id);
            n == |h| && (n > 0 ==> (DraftAt(s.versions, id, n) <==> LatestStatus(h) == Draft))
  {
    MaxIsLength(s.versions, id);
    DraftInHistory(s.versions, id, |History(s.versions, id)|);
  }

  // ----- What each operation does to a history -----

  /** Only the last version of a numbered history carries its length as number. */
  lemma {:induction false} OverwriteHistory(vs: seq<Version>, id: int, content: string, d: int)
    requires Numbered(History(vs, id)) && History(vs, id) != []
    ensures var n, h := |History(vs, id)|, History(vs, d);
            History(WithContent(vs, id, n, content), d) ==
            if d != id then h else h[n - 1 := h[n - 1].(content := content)]
  {
    HistoryWithContent(vs, id, |History(vs, id)|, content, d);
  }

  /** The latest version once an edit is written: a draft is overwritten in place; behind a
      published version a draft is added. */
  function EditedTo(h: seq<Version>, id: int, content: string): seq<Version> {
    if h != [] && LatestStatus(h) == Draft then h[|h| - 1 := h[|h| - 1].(content := content)]
    else h + [Version(id, |h| + 1, content, Draft)]
  }

  function ReleasedTo(h: seq<Version>): seq<Version>
    requires h != []
  {
    h[|h| - 1 := h[|h| - 1].(status := Published)]
  }

  lemma {:induction false} EditedHistory(s: State, id: int, content: string, d: int)
    requires DocumentOk(s, id) && id in s.docs
    ensures var h := History(s.versions, d);
            History(Edited(s, id, content), d) == if d == id then EditedTo(h, id, content) else h
  {
    LatestIsDraft(s, id);
    var n, own := MaxVersion(s.versions, id), History(s.versions, id);
    if n > 0 && DraftAt(s.versions, id, n) {
      OverwriteHistory(s.versions, id, content, d);
      assert EditedTo(own, id, content) == own[n - 1 := own[n - 1].(content := content)];
    } else {
      HistoryAppend(s.versions, Version(id, n + 1, content, Draft), d);
      assert EditedTo(own, id, content) == own + [Version(id, n + 1, content, Draft)];
    }
  }

  /** Under every pattern of refused writes, an edit replaces the content of a latest draft or
      appends a draft if its version write is accepted, and touches no other document. */
  lemma {:induction false} UpdateHistory(
      s: State, id: int, title: string, kind: string, content: string, w: Writes, d: int)
    requires DocumentOk(s, id) && title != "" && id in s.docs
    ensures var h, t := History(s.versions, d), History(Update(s, id, title, kind, content, w).versions, d);
            t == if d == id && w.version then EditedTo(h, id, content) else h
  {
    EditedHistory(s, id, content, d);
  }

  lemma {:induction false} PublishHistory(s: State, id: int, w: Writes, indexed: bool, d: int)
    requires DocumentOk(s, id)
    ensures var h, t := History(s.versions, d), History(Publish(s, id, w, indexed).versions, d);
            t == if d == id && h != [] && w.version then ReleasedTo(h) else h
  {
    LatestIsDraft(s, id);
    HistoryWithPublished(s.versions, id, MaxVersion(s.versions, id), d);
  }

  lemma {:induction false} MissingDocument(
      s: State, id: int, title: string, kind: string, content: string, w: Writes, indexed: bool)
    requires DocumentOk(s, id) && id !in s.docs
    ensures Update(s, id, title, kind, content, w) == s && Publish(s, id, w, indexed) == s
  {
    MaxIsLength(s.versions, id);
  }

  // ----- Numbering over runs -----

  lemma {:induction false} NewDocumentIsOk(s: State, doc: Document, text: string, stored: bool, d: int)
    requires DocumentOk(s, d) && DocumentOk(s, s.nextDoc)
    ensures var first := if stored then [Version(s.nextDoc, 1, text, Draft)] else [];
            DocumentOk(State(s.docs[s.nextDoc := doc], s.versions + first, s.nextDoc + 1), d)
  {
    if stored {
      HistoryAppend(s.versions, Version(s.nextDoc, 1, text, Draft), d);
    } else {
      assert s.versions + [] == s.versions;
    }
  }

  lemma {:induction false} CreateKeepsDocument(s: State, e: Event, d: int)
    requires e.DoCreate? && DocumentOk(s, d) && DocumentOk(s, s.nextDoc)
    ensures DocumentOk(Next(s, e), d)
  {
    var t := Next(s, e);
    if t != s {
      var doc := t.docs[s.nextDoc];
      NewDocumentIsOk(s, doc, e.content, e.stored, d);
      assert s.versions + [] == s.versions;
    }
  }

  lemma {:induction false} EditedIsNumbered(h: seq<Version>, id: int, content: string)
    requires Numbered(h)
    ensures Numbered(EditedTo(h, id, content))
  {
  }

  lemma {:induction false} UpdateKeepsDocument(s: State, e: Event, d: int)
    requires e.DoUpdate? && DocumentOk(s, e.id) && DocumentOk(s, d)
    ensures DocumentOk(Next(s, e), d)
  {
    if e.id !in s.docs {
      MissingDocument(s, e.id, e.title, e.kind, e.content, e.w, true);
    } else if e.title != "" {
      UpdateHistory(s, e.id, e.title, e.kind, e.content, e.w, d);
      EditedIsNumbered(History(s.versions, d), e.id, e.content);
    }
  }

  lemma {:induction false} PublishKeepsDocument(s: State, e: Event, d: int)
    requires e.DoPublish? && DocumentOk(s, e.id) && DocumentOk(s, d)
    ensures DocumentOk(Next(s, e), d)
  {
    LatestIsDraft(s, e.id);
    PublishHistory(s, e.id, e.w, e.indexed, d);
  }

  lemma {:induction false} NextKeepsDocument(s: State, e: Event, d: int)
    requires Inv(s)
    ensures DocumentOk(Next(s, e), d)
  {
    assert DocumentOk(s, d);
    match e
    case DoCreate(_, _, _, _) =>
      assert DocumentOk(s, s.nextDoc);
      CreateKeepsDocument(s, e, d);
    case DoUpdate(id, _, _, _, _) =>
      assert DocumentOk(s, id);
      UpdateKeepsDocument(s, e, d);
    case DoPublish(id, _, _) =>
      assert DocumentOk(s, id);
      PublishKeepsDocument(s, e, d);
    case DoDelete(id) =>
      HistoryWithout(s.versions, id, d);
  }

  /** Every run keeps the versions of each document numbered, whichever writes are refused. */
  lemma {:induction false} RunKeepsInv(s: State, es: seq<Event>)
    requires Inv(s)
    ensures Inv(Run(s, es))
  {
    if es != [] {
      RunKeepsInv(s, es[..|es| - 1]);
      forall d ensures DocumentOk(Run(s, es), d) {
        NextKeepsDocument(Run(s, es[..|es| - 1]), es[|es| - 1], d);
      }
    }
  }

  predicate Empty(s: State) {
    s.docs == map[] && s.versions == []
  }

  /** Starting from an empty store, whatever is created, edited, published and deleted and
      whichever writes are refused: the versions of a document are exactly 1..n, every one but
      the last is published, and only documents have versions. */
  lemma {:induction false} VersionsAreNumbered(s: State, es: seq<Event>, id: int)
    requires Empty(s)
    ensures var t := Run(s, es);
            var h := History(t.versions, id);
            MaxVersion(t.versions, id) == |h| &&
            (forall i | 0 <= i < |h| :: h[i].number == i + 1) &&
            (forall i | 0 <= i < |h| && h[i].status == Draft :: i == |h| - 1) &&
            (h != [] ==> id in t.docs)
  {
    assert Inv(s);
    RunKeepsInv(s, es);
    assert DocumentOk(Run(s, es), id);
    MaxIsLength(Run(s, es).versions, id);
  }

  // ----- Status of a document and of its latest version -----

  /** What was last written to the status of the document and of its latest version. */
  datatype Statuses = Statuses(document: Status, version: Status)

  ghost function LastWritten(s: State, es: seq<Event>, id: int): Statuses {
    if es == [] then Statuses(Draft, Draft)
    else WrittenBy(Run(s, es[..|es| - 1]), es[|es| - 1], id, LastWritten(s, es[..|es| - 1], id))
  }

  /** Only accepted writes of an edit with a title and of a publication that finds a version. */
  function WrittenBy(t: State, e: Event, id: int, before: Statuses): Statuses {
    match e
    case DoUpdate(d, title, _, _, w) => if d == id && title != "" then Overlaid(before, w, Draft) else before
    case DoPublish(d, w, _) =>
      if d == id && History(t.versions, id) != [] then Overlaid(before, w, Published) else before
    case DoCreate(_, _, _, _) => if id == t.nextDoc then Statuses(Draft, Draft) else before
    case DoDelete(_) => before
  }

  function Overlaid(before: Statuses, w: Writes, st: Status): Statuses {
    Statuses(if w.document then st else before.document, if w.version then st else before.version)
  }

  predicate HasStatuses(s: State, id: int, x: Statuses) {
    id in s.docs ==> s.docs[id].status == x.document && LatestStatus(History(s.versions, id)) == x.version
  }

  lemma {:induction false} CreateWrites(s: State, e: Event, id: int, x: Statuses)
    requires e.DoCreate? && Inv(s) && HasStatuses(s, id, x)
    ensures HasStatuses(Next(s, e), id, WrittenBy(s, e, id, x))
  {
    assert DocumentOk(s, id) && DocumentOk(s, s.nextDoc);
    if e.stored {
      HistoryAppend(s.versions, Version(s.nextDoc, 1, e.content, Draft), id);
    }
  }

  lemma {:induction false} UpdateWrites(s: State, e: Event, id: int, x: Statuses)
    requires e.DoUpdate? && Inv(s) && HasStatuses(s, id, x)
    ensures HasStatuses(Next(s, e), id, WrittenBy(s, e, id, x))
  {
    assert DocumentOk(s, e.id);
    if e.id !in s.docs {
      MissingDocument(s, e.id, e.title, e.kind, e.content, e.w, true);
    } else if e.title != "" {
      UpdateHistory(s, e.id, e.title, e.kind, e.content, e.w, id);
    }
  }

  lemma {:induction false} PublishWrites(s: State, e: Event, id: int, x: Statuses)
    requires e.DoPublish? && Inv(s) && HasStatuses(s, id, x)
    ensures HasStatuses(Next(s, e), id, WrittenBy(s, e, id, x))
  {
    assert DocumentOk(s, e.id);
    MaxIsLength(s.versions, e.id);
    PublishHistory(s, e.id, e.w, e.indexed, id);
  }

  lemma {:induction false} NextWrites(s: State, e: Event, id: int, x: Statuses)
    requires Inv(s) && HasStatuses(s, id, x)
    ensures HasStatuses(Next(s, e), id, WrittenBy(s, e, id, x))
  {
    match e
    case DoCreate(_, _, _, _) => CreateWrites(s, e, id, x);
    case DoUpdate(_, _, _, _, _) => UpdateWrites(s, e, id, x);
    case DoPublish(_, _, _) => PublishWrites(s, e, id, x);
    case DoDelete(d) => HistoryWithout(s.versions, d, id);
  }

  lemma {:induction false} RunWrites(s: State, es: seq<Event>, id: int)
    requires Empty(s)
    ensures Inv(Run(s, es)) && HasStatuses(Run(s, es), id, LastWritten(s, es, id))
  {
    assert Inv(s);
    RunKeepsInv(s, es);
    if es != [] {
      RunWrites(s, es[..|es| - 1], id);
      NextWrites(Run(s, es[..|es| - 1]), es[|es| - 1], id, LastWritten(s, es[..|es| - 1], id));
    }
  }

  /** A document and its latest version have the same status exactly when the last accepted
      write to the one and the last accepted write to the other wrote the same. */
  lemma {:induction false} StatusesAgreeIff(s: State, es: seq<Event>, id: int)
    requires Empty(s) && id in Run(s, es).docs
    ensures var t, x := Run(s, es), LastWritten(s, es, id);
            t.docs[id].status == x.document && LatestStatus(History(t.versions, id)) == x.version &&
            (t.docs[id].status == LatestStatus(History(t.versions, id)) <==> x.document == x.version)
  {
    RunWrites(s, es, id);
  }

  /** The event has its two writes to the document accepted or refused together. */
  predicate Together(e: Event, id: int) {
    (e.DoUpdate? || e.DoPublish?) && e.id == id ==> e.w.version == e.w.document
  }

  /** No write refused alone, no disagreement. */
  lemma {:induction false} TogetherMeansAgreement(s: State, es: seq<Event>, id: int)
    requires Empty(s) && id in Run(s, es).docs && forall e | e in es :: Together(e, id)
    ensures Run(s, es).docs[id].status == LatestStatus(History(Run(s, es).versions, id))
  {
    WrittenTogether(s, es, id);
    StatusesAgreeIff(s, es, id);
  }

  lemma {:induction false} WrittenTogether(s: State, es: seq<Event>, id: int)
    requires forall e | e in es :: Together(e, id)
    ensures LastWritten(s, es, id).document == LastWritten(s, es, id).version
  {
    if es != [] {
      assert forall e | e in es[..|es| - 1] :: e in es;
      WrittenTogether(s, es[..|es| - 1], id);
      assert es[|es| - 1] in es;
    }
  }

  /** An edit of a document whose statuses agree keeps them in agreement exactly when its writes
      are accepted or refused together, or the document was a draft all along. */
  lemma {:induction false} EditKeepsAgreementIff(
      s: State, id: int, title: string, kind: string, content: string, w: Writes)
    requires Inv(s) && id in s.docs && title != ""
    requires s.docs[id].status == LatestStatus(History(s.versions, id))
    ensures var t := Update(s, id, title, kind, content, w);
            t.docs[id].status == LatestStatus(History(t.versions, id))
            <==> w.version == w.document || s.docs[id].status == Draft
  {
    assert DocumentOk(s, id);
    UpdateHistory(s, id, title, kind, content, w, id);
  }

  /** The same for a publication and a document that was published all along. */
  lemma {:induction false} PublicationKeepsAgreementIff(s: State, id: int, w: Writes, indexed: bool)
    requires Inv(s) && id in s.docs && History(s.versions, id) != []
    requires s.docs[id].status == LatestStatus(History(s.versions, id))
    ensures var t := Publish(s, id, w, indexed);
            t.docs[id].status == LatestStatus(History(t.versions, id))
            <==> w.version == w.document || s.docs[id].status == Published
  {
    assert DocumentOk(s, id);
    MaxIsLength(s.versions, id);
    PublishHistory(s, id, w, indexed, id);
  }

  /** A title too long for its column: the draft version is inserted, the document is left
      published. */
  lemma {:induction false} RefusedTitleHere(
      s: State, id: int, title: string, long: string, kind: string, first: string, second: string)
    requires Empty(s) && id == s.nextDoc && title != "" && long != "" && kind == "plain_text"
    ensures var all := Writes(true, true);
            var p := Publish(Create(s, title, kind, first, true), id, all, true);
            var t := Update(p, id, long, kind, second, Writes(true, false));
            id in t.docs && t.docs[id].status == Published &&
            LatestStatus(History(t.versions, id)) == Draft && |History(t.versions, id)| == 2
  {
    var c := Create(s, title, kind, first, true);
    HistoryAppend(s.versions, Version(id, 1, first, Draft), id);
    assert History(c.versions, id) == [Version(id, 1, first, Draft)];
    PublishedThenRefused(c, id, long, kind, second);
  }

  lemma {:induction false} PublishedThenRefused(c: State, id: int, long: string, kind: string, second: string)
    requires id in c.docs && id < c.nextDoc && long != ""
    requires |History(c.versions, id)| == 1 && History(c.versions, id)[0].number == 1
    ensures var p := Publish(c, id, Writes(true, true), true);
            var t := Update(p, id, long, kind, second, Writes(true, false));
            id in t.docs && t.docs[id].status == Published &&
            LatestStatus(History(t.versions, id)) == Draft && |History(t.versions, id)| == 2
  {
    var p := Publish(c, id, Writes(true, true), true);
    assert DocumentOk(c, id);
    MaxIsLength(c.versions, id);
    PublishHistory(c, id, Writes(true, true), true, id);
    UpdateHistory(p, id, long, kind, second, Writes(true, false), id);
  }

  // ----- Frozen content -----

  predicate PublishedIn(h: seq<Version>, n: nat, content: string) {
    1 <= n <= |h| && h[n - 1].status == Published && h[n - 1].content == content
  }

  /** Version n of the document exists, is published, and reads `content`. */
  predicate PublishedAs(s: State, id: int, n: nat, content: string) {
    PublishedIn(History(s.versions, id), n, content)
  }

  lemma {:induction false} EditKeepsPublished(h: seq<Version>, id: int, text: string, n: nat, content: string)
    requires PublishedIn(h, n, content)
    ensures PublishedIn(EditedTo(h, id, text), n, content)
    ensures PublishedIn(ReleasedTo(h), n, content)
  {
  }

  lemma {:induction false} UpdateKeepsPublished(s: State, e: Event, id: int, n: nat, content: string)
    requires e.DoUpdate? && DocumentOk(s, e.id) && PublishedAs(s, id, n, content)
    ensures PublishedAs(Next(s, e), id, n, content)
  {
    if e.id !in s.docs {
      MissingDocument(s, e.id, e.title, e.kind, e.content, e.w, true);
    } else if e.title != "" {
      UpdateHistory(s, e.id, e.title, e.kind, e.content, e.w, id);
      EditKeepsPublished(History(s.versions, id), id, e.content, n, content);
    }
  }

  lemma {:induction false} PublishKeepsPublished(s: State, e: Event, id: int, n: nat, content: string)
    requires e.DoPublish? && DocumentOk(s, e.id) && PublishedAs(s, id, n, content)
    ensures PublishedAs(Next(s, e), id, n, content)
  {
    PublishHistory(s, e.id, e.w, e.indexed, id);
    EditKeepsPublished(History(s.versions, id), id, "", n, content);
  }

  lemma {:induction false} NextKeepsPublished(s: State, e: Event, id: int, n: nat, content: string)
    requires Inv(s) && PublishedAs(s, id, n, content) && e != DoDelete(id)
    ensures PublishedAs(Next(s, e), id, n, content)
  {
    match e
    case DoCreate(title, kind, text, stored) =>
      assert DocumentOk(s, s.nextDoc);
      HistoryAppend(s.versions, Version(s.nextDoc, 1, text, Draft), id);
    case DoUpdate(d, _, _, _, _) =>
      assert DocumentOk(s, d);
      UpdateKeepsPublished(s, e, id, n, content);
    case DoPublish(d, _, _) =>
      assert DocumentOk(s, d);
      PublishKeepsPublished(s, e, id, n, content);
    case DoDelete(d) =>
      HistoryWithout(s.versions, d, id);
  }

  /** Once published, a version keeps its content for as long as its document exists,
      whichever writes are refused. */
  lemma {:induction false} PublishedContentIsFrozen(s: State, es: seq<Event>, id: int, n: nat, content: string)
    requires Inv(s) && PublishedAs(s, id, n, content) && DoDelete(id) !in es
    ensures PublishedAs(Run(s, es), id, n, content)
  {
    if es != [] {
      assert forall e | e in es[..|es| - 1] :: e in es;
      PublishedContentIsFrozen(s, es[..|es| - 1], id, n, content);
      RunKeepsInv(s, es[..|es| - 1]);
      assert es[|es| - 1] in es;
      NextKeepsPublished(Run(s, es[..|es| - 1]), es[|es| - 1], id, n, content);
    }
  }

  /** An edit whose version write is accepted adds a version exactly when the latest one is not
      a draft; a draft is replaced. */
  lemma {:induction false} EditAddsVersionIff(
      s: State, id: int, title: string, kind: string, content: string, w: Writes)
    requires Inv(s) && id in s.docs && title != "" && w.version
    ensures var h, t := History(s.versions, id), History(Update(s, id, title, kind, content, w).versions, id);
            (|t| == |h| + 1 <==> h == [] || LatestStatus(h) == Published) &&
            (|t| == |h| <==> h != [] && LatestStatus(h) == Draft) &&
            t[|t| - 1].content == content && t[|t| - 1].status == Draft
  {
    assert DocumentOk(s, id);
    UpdateHistory(s, id, title, kind, content, w, id);
  }

  lemma {:induction false} DraftAloneIsOverwritten(
      s: State, id: int, title: string, kind: string, second: string, w: Writes)
    requires id in s.docs && id < s.nextDoc && title != "" && w.version
    requires |History(s.versions, id)| == 1
    requires History(s.versions, id)[0].number == 1 && History(s.versions, id)[0].status == Draft
    ensures History(Update(s, id, title, kind, second, w).versions, id)
         == [History(s.versions, id)[0].(content := second)]
  {
    UpdateHistory(s, id, title, kind, second, w, id);
  }

  /** The smallest case: a new document that is edited once has one version, with the new
      content. */
  lemma {:induction false} EditedDraftHere(s: State, title: string, kind: string, first: string, second: string)
    requires Empty(s) && title != "" && Create(s, title, kind, first, true) != s
    ensures var t := Update(Create(s, title, kind, first, true), s.nextDoc, title, kind, second, Writes(true, true));
            History(t.versions, s.nextDoc) == [Version(s.nextDoc, 1, second, Draft)]
  {
    HistoryAppend(s.versions, Version(s.nextDoc, 1, first, Draft), s.nextDoc);
    DraftAloneIsOverwritten(Create(s, title, kind, first, true), s.nextDoc, title, kind, second, Writes(true, true));
  }
}
