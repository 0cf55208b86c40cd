/** Access requests: a request is stored already verified, a token verifies
    the first request that carries it, and the access check lets everyone
    in. The random token and the clock are parameters. */
module Auth {
  import opened Wrappers
  import opened Tables

  const InvalidToken: string := "Invalid access token"

  /** The filter "the request carrying `token`". */
  function TokenIs(token: string): AccessRequest -> bool {
    (r: AccessRequest) => r.token == token
  }

  /** `requestAccess`: stores one request for `email` with the fresh `token`,
      already verified; `requestedAt` and `verifiedAt` are the two clock
      readings. */
  method RequestAccess(db: Db, email: string, token: string, requestedAt: int, verifiedAt: int)
    returns (success: bool)
    requires db.Valid()
    modifies db
    ensures db.Valid() && success
    ensures db.accessRequests == old(db.accessRequests)
      + [AccessRequest(old(db.nextId), email, token, Verified, requestedAt, Some(verifiedAt))]
    ensures db.documents == old(db.documents) && db.messages == old(db.messages)
    ensures db.sessions == old(db.sessions)
  {
    db.accessRequests := db.accessRequests
      + [AccessRequest(db.nextId, email, token, Verified, requestedAt, Some(verifiedAt))];
    db.nextId := db.nextId + 1;
    success := true;
  }

  /** The table after `verifyAccess(token)` at time `now`: the first request
      with that token marked verified at `now`, or None when no request has
      it. */
  function Verify(requests: seq<AccessRequest>, token: string, now: int): (r: Option<seq<AccessRequest>>)
    ensures r.None? <==> forall i :: 0 <= i < |requests| ==> requests[i].token != token
    ensures r.Some? ==> |r.value| == |requests|
  {
    match FirstIndex(requests, TokenIs(token))
    case None => None
    case Some(k) => Some(requests[k := requests[k].(status := Verified, verifiedAt := Some(now))])
  }

  /** `verifyAccess`. */
  method VerifyAccess(db: Db, token: string, now: int) returns (r: Result<(), string>)
    requires db.Valid()
    modifies db
    ensures db.Valid()
    ensures Verify(old(db.accessRequests), token, now).None? ==>
      r == Failure(InvalidToken) && db.accessRequests == old(db.accessRequests)
    ensures Verify(old(db.accessRequests), token, now).Some? ==>
      r == Success(()) && db.accessRequests == Verify(old(db.accessRequests), token, now).value
    ensures db.documents == old(db.documents) && db.messages == old(db.messages)
    ensures db.sessions == old(db.sessions) && db.nextId == old(db.nextId)
  {
    var found := FirstIndex(db.accessRequests, TokenIs(token));
    if found.None? {
      return Failure(InvalidToken);
    }
    var k := found.value;
    var request := db.accessRequests[k];
    db.accessRequests := db.accessRequests[k := request.(status := Verified, verifiedAt := Some(now))];
    r := Success(());
  }

  /** A successful verification marks exactly the first request with the
      token: it is verified at `now` and keeps its id, email, token and
      request time; every other request is unchanged. */
  lemma VerifyMarksFirst(requests: seq<AccessRequest>, token: string, now: int)
    requires Verify(requests, token, now).Some?
    ensures exists k :: (
              && 0 <= k < |requests| && requests[k].token == token
              && (forall j :: 0 <= j < k ==> requests[j].token != token)
              && Verify(requests, token, now).value[k]
                   == requests[k].(status := Verified, verifiedAt := Some(now))
              && (forall j :: 0 <= j < |requests| && j != k ==> Verify(requests, token, now).value[j] == requests[j]))
  {
    var k := FirstIndex(requests, TokenIs(token)).value;
    assert TokenIs(token)(requests[k]);
    assert forall j :: 0 <= j < k ==> !TokenIs(token)(requests[j]);
  }

  /** Verifying again is idempotent: the second call finds the same request,
      which is already verified, and the result is the one a single call at
      the later time gives. */
  lemma VerifyIdempotent(requests: seq<AccessRequest>, token: string, first: int, second: int)
    requires Verify(requests, token, first).Some?
    ensures Verify(Verify(requests, token, first).value, token, second) == Verify(requests, token, second)
  {
    var once := Verify(requests, token, first).value;
    var k := FirstIndex(requests, TokenIs(token)).value;
    assert forall j :: 0 <= j < |requests| ==> TokenIs(token)(requests[j]) == TokenIs(token)(once[j]);
    FirstIndexSame(requests, once, TokenIs(token), TokenIs(token));
    assert once[k := once[k].(status := Verified, verifiedAt := Some(second))]
        == requests[k := requests[k].(status := Verified, verifiedAt := Some(second))];
  }

  /** `checkAccess`: everyone has access; the lookup it makes is not used and
      nothing changes. */
  method CheckAccess(db: Db, email: string) returns (hasAccess: bool)
    ensures hasAccess
  {
    hasAccess := true;
  }
}
