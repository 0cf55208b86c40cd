/** The four tables of the hosted database (documents, messages,
    accessRequests, sessions) with the record shapes of the schema.
    Every record carries the system id the database assigns on insert. */
module Tables {
  import opened Wrappers

  type Id = nat

  /** Dimensionality of the `by_embedding` vector index. */
  const EmbeddingDimensions: nat := 1536

  datatype Document = Document(id: Id, name: string, content: string, embedding: seq<real>)

  datatype Message = Message(id: Id, content: string, role: string, timestamp: int, userId: Option<string>)

  datatype AccessStatus = Pending | Verified

  datatype AccessRequest = AccessRequest(
    id: Id, email: string, token: string, status: AccessStatus,
    requestedAt: int, verifiedAt: Option<int>)

  datatype Session = Session(
    id: Id, sessionId: string, userId: string,
    startTime: int, expirationTime: int, active: bool)

  /** No two documents share an id. */
  predicate DistinctIds(docs: seq<Document>) {
    forall i, j :: 0 <= i < j < |docs| ==> docs[i].id != docs[j].id
  }

  /** Position of the first record that satisfies `p`: what a query's
      `.filter(p).first()` returns, or None when no record does. */
  function FirstIndex<T>(s: seq<T>, p: T -> bool): (r: Option<nat>)
    ensures r.Some? ==> r.value < |s| && p(s[r.value])
    ensures r.Some? ==> forall j :: 0 <= j < r.value ==> !p(s[j])
    ensures r.None? ==> forall j :: 0 <= j < |s| ==> !p(s[j])
    decreases |s|
  {
    if |s| == 0 then None
    else if p(s[0]) then Some(0)
    else match FirstIndex(s[1..], p)
      case None => None
      case Some(k) => Some(k + 1)
  }

  /** The first match is decided by the filter's verdicts alone: two tables
      on which two filters agree position by position have the same first
      match. */
  lemma {:induction false} FirstIndexSame<T>(s: seq<T>, t: seq<T>, p: T -> bool, q: T -> bool)
    requires |s| == |t|
    requires forall j :: 0 <= j < |s| ==> p(s[j]) == q(t[j])
    ensures FirstIndex(s, p) == FirstIndex(t, q)
    decreases |s|
  {
    if |s| > 0 && !p(s[0]) {
      FirstIndexSame(s[1..], t[1..], p, q);
    }
  }

  /** The table without its `k`-th record (`ctx.db.delete`). */
  function RemoveAt<T>(s: seq<T>, k: nat): (r: seq<T>)
    requires k < |s|
    ensures |r| == |s| - 1
    ensures forall j :: 0 <= j < k ==> r[j] == s[j]
    ensures forall j :: k <= j < |r| ==> r[j] == s[j + 1]
  {
    s[..k] + s[k + 1..]
  }

  /** Deleting a document by its id removes exactly that document: every
      other one stays, in order, and the ids stay distinct. */
  lemma RemoveAtExactly(docs: seq<Document>, k: nat)
    requires k < |docs| && DistinctIds(docs)
    ensures DistinctIds(RemoveAt(docs, k))
    ensures forall d :: d in RemoveAt(docs, k) <==> d in docs && d.id != docs[k].id
  {
    var r := RemoveAt(docs, k);
    forall d | d in docs && d.id != docs[k].id ensures d in r {
      var i :| 0 <= i < |docs| && docs[i] == d;
      if i < k { assert r[i] == d; } else { assert i > k && r[i - 1] == d; }
    }
    forall d | d in r ensures d in docs && d.id != docs[k].id {
      var i :| 0 <= i < |r| && r[i] == d;
      if i < k { assert d == docs[i]; } else { assert d == docs[i + 1]; }
    }
  }

  /** Contents of the database; tables keep insertion (creation) order. */
  class Db {
    var documents: seq<Document>
    var messages: seq<Message>
    var accessRequests: seq<AccessRequest>
    var sessions: seq<Session>
    /** The id the next insert receives: ids are never reused. */
    var nextId: Id

    ghost predicate Valid()
      reads this
    {
      && DistinctIds(documents)
      && (forall i :: 0 <= i < |documents| ==> documents[i].id < nextId)
      && (forall i, j :: 0 <= i < j < |messages| ==> messages[i].id != messages[j].id)
      && (forall i :: 0 <= i < |messages| ==> messages[i].id < nextId)
      && (forall i, j :: 0 <= i < j < |accessRequests| ==> accessRequests[i].id != accessRequests[j].id)
      && (forall i :: 0 <= i < |accessRequests| ==> accessRequests[i].id < nextId)
      && (forall i, j :: 0 <= i < j < |sessions| ==> sessions[i].id != sessions[j].id)
      && (forall i :: 0 <= i < |sessions| ==> sessions[i].id < nextId)
    }

    constructor ()
      ensures Valid()
      ensures documents == [] && messages == [] && accessRequests == [] && sessions == []
    {
      documents, messages, accessRequests, sessions := [], [], [], [];
      nextId := 0;
    }
  }
}
