/** The document handlers as they run. */
module DocumentStore {
  import opened DocumentModel

  class Server {
    var docs: map<int, Document>
    var versions: seq<Version>
    var nextDoc: int

    function View(): State
      reads this
    {
      State(docs, versions, nextDoc)
    }

    method Create(title: string, kind: string, content: string, stored: bool)
      modifies this
      ensures View() == old(DocumentModel.Create(View(), title, kind, content, stored))
    {
      if title == "" {
        return;
      }
      var chosen := if kind == "" then "markdown" else kind;
      if chosen != "markdown" && chosen != "plain_text" {
        return;
      }
      var id := nextDoc;
      docs := docs[id := Document(title, chosen, Draft, "not_indexed")];
      nextDoc := id + 1;
      if stored {
        versions := versions + [Version(id, 1, content, Draft)];
      }
    }

    /** The latest version number and whether a draft carries it. */
    method Latest(id: int) returns (current: nat, draft: bool)
      ensures current == MaxVersion(versions, id)
      ensures draft == DraftAt(versions, id, current)
    {
      current := 0;
      for i := 0 to |versions|
        invariant current == MaxVersion(versions[..i], id)
      {
        assert versions[..i + 1][..i] == versions[..i];
        if versions[i].doc == id && versions[i].number > current {
          current := versions[i].number;
        }
      }
      assert versions[..|versions|] == versions;
      draft := false;
      for i := 0 to |versions|
        invariant draft == exists j | 0 <= j < i ::
                    versions[j].doc == id && versions[j].number == current && versions[j].status == Draft
      {
        if versions[i].doc == id && versions[i].number == current && versions[i].status == Draft {
          draft := true;
        }
      }
    }

    method Overwrite(id: int, n: nat, content: string)
      modifies `versions
      ensures versions == WithContent(old(versions), id, n, content)
    {
      ghost var before := versions;
      for i := 0 to |versions|
        invariant |versions| == |before|
        invariant forall j | 0 <= j < i :: versions[j] == WithContent(before, id, n, content)[j]
        invariant forall j | i <= j < |before| :: versions[j] == before[j]
      {
        if versions[i].doc == id && versions[i].number == n {
          versions := versions[i := versions[i].(content := content)];
        }
      }
    }

    method Update(id: int, title: string, kind: string, content: string, w: Writes)
      modifies this
      ensures View() == old(DocumentModel.Update(View(), id, title, kind, content, w))
    {
      if title == "" {
        return;
      }
      var current, draft := Latest(id);
      if draft && current > 0 {
        if w.version {
          Overwrite(id, current, content);
        }
      } else if w.version && id in docs {
        versions := versions + [Version(id, current + 1, content, Draft)];
      }
      if w.document && id in docs {
        docs := docs[id := Document(title, kind, Draft, "not_indexed")];
      }
    }

    /** `UPDATE knowledge_document_versions SET status='published' WHERE document_id=? AND version=?` */
    method Release(id: int, n: nat)
      modifies `versions
      ensures versions == WithPublished(old(versions), id, n)
    {
      ghost var before := versions;
      for i := 0 to |versions|
        invariant |versions| == |before|
        invariant forall j | 0 <= j < i :: versions[j] == WithPublished(before, id, n)[j]
        invariant forall j | i <= j < |before| :: versions[j] == before[j]
      {
        if versions[i].doc == id && versions[i].number == n {
          versions := versions[i := versions[i].(status := Published)];
        }
      }
    }

    method Publish(id: int, w: Writes, indexed: bool)
      modifies this
      ensures View() == old(DocumentModel.Publish(View(), id, w, indexed))
    {
      var current, draft := Latest(id);
      if current == 0 {
        return;
      }
      if w.version {
        Release(id, current);
      }
      if id in docs {
        if w.document {
          docs := docs[id := docs[id].(status := Published, index := "pending")];
        }
        if indexed {
          docs := docs[id := docs[id].(index := "indexed")];
        }
      }
    }
  }
}
