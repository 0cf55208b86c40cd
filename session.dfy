/** Chat sessions: creation with a 24-hour expiry, the active-session lookup
    and ending a session. The random suffix of a session id and the clock are
    parameters. */
module Sessions {
  import opened Wrappers
  import opened Text
  import opened Tables

  const SessionPrefix: string := "session_"
  /** 24 hours in milliseconds. */
  const SessionLifetime: int := 24 * 60 * 60 * 1000

  /** The filter "the session named `sessionId`". */
  function SessionIdIs(sessionId: string): Session -> bool {
    (s: Session) => s.sessionId == sessionId
  }

  /** `createSession`: `suffix` stands for the random base-36 digits, `now`
      for the clock. Stores one active session expiring a day later and
      returns its name. */
  method CreateSession(db: Db, userId: string, suffix: string, now: int) returns (sessionId: string)
    requires db.Valid()
    modifies db
    ensures db.Valid()
    ensures IsPrefix(SessionPrefix, sessionId) && sessionId[|SessionPrefix|..] == suffix
    ensures db.sessions == old(db.sessions)
      + [Session(old(db.nextId), sessionId, userId, now, now + 86400000, true)]
    ensures db.documents == old(db.documents) && db.messages == old(db.messages)
    ensures db.accessRequests == old(db.accessRequests)
  {
    sessionId := SessionPrefix + suffix;
    var timestamp := now;
    db.sessions := db.sessions
      + [Session(db.nextId, sessionId, userId, timestamp, timestamp + SessionLifetime, true)];
    db.nextId := db.nextId + 1;
  }

  // ------------------------------------------------------------ getActiveSession

  /** The session `getActiveSession` is meant to find: the first one of the
      user that is active and has not expired at `now`. */
  predicate LiveSessionOf(userId: string, now: int, s: Session) {
    s.userId == userId && s.active && s.expirationTime > now
  }

  function LiveSessionFilter(userId: string, now: int): Session -> bool {
    (s: Session) => LiveSessionOf(userId, now, s)
  }

  /** The filter as written: `a && b && c` over query expressions, which are
      all truthy, evaluates to `c`, so only the expiry test is applied. */
  function NotExpiredFilter(now: int): Session -> bool {
    (s: Session) => s.expirationTime > now
  }

  /** `getActiveSession` as written: the first session that has not expired,
      whoever it belongs to and whether or not it was ended. */
  function GetActiveSessionAsWritten(sessions: seq<Session>, userId: string, now: int): (r: Option<Session>)
    ensures r.Some? ==> r.value in sessions && r.value.expirationTime > now
    ensures r.None? ==> forall s :: s in sessions ==> s.expirationTime <= now
  {
    match FirstIndex(sessions, NotExpiredFilter(now))
    case None => None
    case Some(k) => Some(sessions[k])
  }

  /** `getActiveSession` as intended: the first live session of the user. */
  function GetActiveSession(sessions: seq<Session>, userId: string, now: int): (r: Option<Session>)
    ensures r.Some? ==> r.value in sessions && LiveSessionOf(userId, now, r.value)
    ensures r.None? ==> forall s :: s in sessions ==> !LiveSessionOf(userId, now, s)
  {
    match FirstIndex(sessions, LiveSessionFilter(userId, now))
    case None => None
    case Some(k) => Some(sessions[k])
  }

  /** The lookup as written hands out another user's ended session. */
  lemma AsWrittenReturnsForeignSession()
    ensures var ended := Session(0, "session_x", "bob", 0, 10, false);
            && GetActiveSessionAsWritten([ended], "alice", 5) == Some(ended)
            && GetActiveSession([ended], "alice", 5) == None
  {
    var ended := Session(0, "session_x", "bob", 0, 10, false);
    assert NotExpiredFilter(5)(ended);
    assert !LiveSessionFilter("alice", 5)(ended);
  }

  /** Whenever the intended lookup finds a session, the lookup as written
      finds one too (possibly an earlier, foreign one); the two agree on
      tables whose unexpired sessions are all live sessions of the user. */
  lemma {:induction false} AsWrittenAgreesOnOwnLiveSessions(sessions: seq<Session>, userId: string, now: int)
    ensures GetActiveSession(sessions, userId, now).Some? ==> GetActiveSessionAsWritten(sessions, userId, now).Some?
    ensures (forall s :: s in sessions && s.expirationTime > now ==> LiveSessionOf(userId, now, s)) ==>
              GetActiveSessionAsWritten(sessions, userId, now) == GetActiveSession(sessions, userId, now)
  {
    if forall s :: s in sessions && s.expirationTime > now ==> LiveSessionOf(userId, now, s) {
      forall j | 0 <= j < |sessions|
        ensures NotExpiredFilter(now)(sessions[j]) == LiveSessionFilter(userId, now)(sessions[j])
      {
        assert sessions[j] in sessions;
      }
      FirstIndexSame(sessions, sessions, NotExpiredFilter(now), LiveSessionFilter(userId, now));
    }
  }

  // ------------------------------------------------------------ endSession

  /** The table after `endSession(sessionId)`: the first session with that
      name ended; unchanged when no session has it. */
  function End(sessions: seq<Session>, sessionId: string): (r: seq<Session>)
    ensures |r| == |sessions|
  {
    match FirstIndex(sessions, SessionIdIs(sessionId))
    case None => sessions
    case Some(k) => sessions[k := sessions[k].(active := false)]
  }

  /** `endSession`. */
  method EndSession(db: Db, sessionId: string)
    requires db.Valid()
    modifies db
    ensures db.Valid()
    ensures db.sessions == End(old(db.sessions), sessionId)
    ensures db.documents == old(db.documents) && db.messages == old(db.messages)
    ensures db.accessRequests == old(db.accessRequests) && db.nextId == old(db.nextId)
  {
    var found := FirstIndex(db.sessions, SessionIdIs(sessionId));
    if found.Some? {
      var k := found.value;
      db.sessions := db.sessions[k := db.sessions[k].(active := false)];
    }
  }

  /** Ending a session changes only the `active` flag of the first session
      with that name; an unknown name changes nothing. */
  lemma EndChangesOnlyFirstMatch(sessions: seq<Session>, sessionId: string)
    ensures (forall i :: 0 <= i < |sessions| ==> sessions[i].sessionId != sessionId) ==>
              End(sessions, sessionId) == sessions
    ensures forall i :: 0 <= i < |sessions| ==>
              End(sessions, sessionId)[i] == sessions[i]
              || (sessions[i].sessionId == sessionId
                  && (forall j :: 0 <= j < i ==> sessions[j].sessionId != sessionId)
                  && End(sessions, sessionId)[i] == sessions[i].(active := false))
  {
    match FirstIndex(sessions, SessionIdIs(sessionId))
    case None =>
    case Some(k) =>
      assert SessionIdIs(sessionId)(sessions[k]);
      assert forall j :: 0 <= j < k ==> !SessionIdIs(sessionId)(sessions[j]);
  }
}
