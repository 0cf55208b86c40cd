/** The document table's mutations and query: insert with a given or a
    computed embedding, list, delete one, delete all. */
module Documents {
  import opened Wrappers
  import opened Tables
  import Search

  /** The filter "the document with id `id`". */
  function IdIs(id: Id): Document -> bool {
    (d: Document) => d.id == id
  }

  /** `store`: inserts exactly one document and returns its fresh id. */
  method Store(db: Db, name: string, content: string, embedding: seq<real>) returns (id: Id)
    requires db.Valid()
    modifies db
    ensures db.Valid()
    ensures id == old(db.nextId) && forall d :: d in old(db.documents) ==> d.id != id
    ensures db.documents == old(db.documents) + [Document(id, name, content, embedding)]
    ensures db.messages == old(db.messages) && db.accessRequests == old(db.accessRequests)
    ensures db.sessions == old(db.sessions)
  {
    id := db.nextId;
    db.documents := db.documents + [Document(id, name, content, embedding)];
    db.nextId := db.nextId + 1;
  }

  /** `listDocuments`: every document, in table order; nothing changes. */
  method ListDocuments(db: Db) returns (docs: seq<Document>)
    ensures docs == db.documents
  {
    docs := db.documents;
  }

  /** `deleteDocument`: removes the document with that id and reports
      success; an id that is not in the table is refused by the database
      (`success` false) and nothing changes. */
  method DeleteDocument(db: Db, id: Id) returns (success: bool)
    requires db.Valid()
    modifies db
    ensures db.Valid()
    ensures success <==> exists d :: d in old(db.documents) && d.id == id
    ensures success ==> (forall d :: d in db.documents <==> d in old(db.documents) && d.id != id)
    ensures success ==> db.documents == RemoveAt(old(db.documents), FirstIndex(old(db.documents), IdIs(id)).value)
    ensures !success ==> db.documents == old(db.documents)
    ensures db.messages == old(db.messages) && db.accessRequests == old(db.accessRequests)
    ensures db.sessions == old(db.sessions) && db.nextId == old(db.nextId)
  {
    var found := FirstIndex(db.documents, IdIs(id));
    if found.None? {
      success := false;
      forall d | d in db.documents ensures d.id != id {
        var i :| 0 <= i < |db.documents| && db.documents[i] == d;
        assert !IdIs(id)(db.documents[i]);
      }
      return;
    }
    var k := found.value;
    assert IdIs(id)(db.documents[k]);
    RemoveAtExactly(db.documents, k);
    db.documents := RemoveAt(db.documents, k);
    success := true;
  }

  /** `clearAllDocuments`: deletes the documents one by one and reports how
      many there were. */
  method ClearAllDocuments(db: Db) returns (deleted: nat)
    requires db.Valid()
    modifies db
    ensures db.Valid()
    ensures db.documents == [] && deleted == |old(db.documents)|
    ensures db.messages == old(db.messages) && db.accessRequests == old(db.accessRequests)
    ensures db.sessions == old(db.sessions)
  {
    var documents := db.documents;
    var k := 0;
    while k < |documents|
      invariant db.Valid()
      invariant k <= |documents| && db.documents == documents[k..]
      invariant db.messages == old(db.messages) && db.accessRequests == old(db.accessRequests)
      invariant db.sessions == old(db.sessions)
    {
      assert documents[k] in db.documents;
      assert FirstIndex(documents[k..], IdIs(documents[k].id)) == Some(0);
      var ok := DeleteDocument(db, documents[k].id);
      assert RemoveAt(documents[k..], 0) == documents[k + 1..];
      k := k + 1;
    }
    deleted := |documents|;
  }

  /** `uploadDocument`: the embedding is computed from the content (see
      `Search.QueryEmbedding`); when that throws nothing is inserted. */
  method UploadDocument(db: Db, name: string, content: string, env: Search.SearchEnv) returns (id: Option<Id>)
    requires db.Valid()
    modifies db
    ensures db.Valid()
    ensures Search.QueryEmbedding(env, content).None? ==> id.None? && db.documents == old(db.documents)
    ensures Search.QueryEmbedding(env, content).Some? ==>
      id == Some(old(db.nextId))
      && db.documents == old(db.documents) + [Document(id.value, name, content, Search.QueryEmbedding(env, content).value)]
    ensures db.messages == old(db.messages) && db.accessRequests == old(db.accessRequests)
    ensures db.sessions == old(db.sessions)
  {
    var embedding := Search.QueryEmbedding(env, content);
    if embedding.None? {
      return None;
    }
    var stored := Store(db, name, content, embedding.value);
    id := Some(stored);
  }
}
