/** What each document request does to the rows of documents and versions, column by column. */
module DocumentOutcomes {
  import opened DocumentModel
  import opened DocumentTheorems

  /** A document with a title and a known type, or none, is created as an unindexed draft with
      its content as version 1, if that can be written; a missing type is Markdown. */
  lemma {:induction false} DocumentCreated(s: State, title: string, kind: string, content: string, stored: bool)
    ensures var t, id := Create(s, title, kind, content, stored), s.nextDoc;
            if title != "" && (kind == "" || kind == "markdown" || kind == "plain_text") then
              t.docs == s.docs[id := Document(title, if kind == "plain_text" then kind else "markdown", Draft,
                                              "not_indexed")] &&
              t.versions == (if stored then s.versions + [Version(id, 1, content, Draft)] else s.versions) &&
              t.nextDoc == id + 1
            else t == s
  {
  }

  /** An edit with a title writes title and type as sent, makes the document an unindexed draft
      if that write is accepted, and leaves all other documents alone. */
  lemma {:induction false} DocumentEdited(
      s: State, id: int, title: string, kind: string, content: string, w: Writes)
    ensures var t := Update(s, id, title, kind, content, w);
            t.nextDoc == s.nextDoc &&
            t.docs == if title != "" && w.document && id in s.docs
                      then s.docs[id := Document(title, kind, Draft, "not_indexed")] else s.docs
  {
  }

  /** Its version: with a title and an accepted version write, a latest draft has its content
      replaced, and behind a published version, or none, a draft with the next number is added;
      every other version, of this document or another, is untouched. */
  lemma {:induction false} VersionEdited(
      s: State, id: int, title: string, kind: string, content: string, w: Writes, d: int)
    requires Inv(s)
    ensures var h, t := History(s.versions, d), History(Update(s, id, title, kind, content, w).versions, d);
            if d != id || id !in s.docs || title == "" || !w.version then t == h
            else if h != [] && h[|h| - 1].status == Draft then
              |t| == |h| && t[|h| - 1] == Version(id, h[|h| - 1].number, content, Draft) && t[..|h| - 1] == h[..|h| - 1]
            else |t| == |h| + 1 && t[..|h|] == h && t[|h|] == Version(id, |h| + 1, content, Draft)
  {
    assert DocumentOk(s, id);
    if id !in s.docs {
      MissingDocument(s, id, title, kind, content, w, true);
    } else if title != "" {
      UpdateHistory(s, id, title, kind, content, w, d);
    }
  }

  /** A publication of a document with versions: title and type stay, the document is published
      and its index pending if that write is accepted, and the index built if that one is. */
  lemma {:induction false} DocumentPublished(s: State, id: int, w: Writes, indexed: bool)
    requires Inv(s)
    ensures var t := Publish(s, id, w, indexed);
            t.nextDoc == s.nextDoc && t.docs.Keys == s.docs.Keys &&
            forall d | d in s.docs ::
              var x := s.docs[d];
              t.docs[d]
              == if d != id || History(s.versions, id) == [] then x
                 else Document(x.title, x.kind, if w.document then Published else x.status,
                               if indexed then "indexed" else if w.document then "pending" else x.index)
  {
    assert DocumentOk(s, id);
    MaxIsLength(s.versions, id);
  }

  /** Its version: the latest one is published with its number and content, if that write is
      accepted; every other version, of this document or another, is untouched. */
  lemma {:induction false} VersionPublished(s: State, id: int, w: Writes, indexed: bool, d: int)
    requires Inv(s)
    ensures var h, t := History(s.versions, d), History(Publish(s, id, w, indexed).versions, d);
            if d != id || h == [] || !w.version then t == h
            else
              |t| == |h| && t[..|h| - 1] == h[..|h| - 1] &&
              t[|h| - 1] == Version(id, |h|, h[|h| - 1].content, Published)
  {
    assert DocumentOk(s, id);
    PublishHistory(s, id, w, indexed, d);
  }

  /** Deleting a document deletes its versions and nothing else. */
  lemma {:induction false} DocumentDeleted(s: State, id: int, d: int)
    ensures var t := Delete(s, id);
            t.docs == s.docs - {id} && t.nextDoc == s.nextDoc &&
            History(t.versions, d) == if d == id then [] else History(s.versions, d)
  {
    HistoryWithout(s.versions, id, d);
  }
}
