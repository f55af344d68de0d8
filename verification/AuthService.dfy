/** Refresh as one caller sees it, on the mutable session table and without interference from other calls. */
module AuthService {
  import opened Wrappers
  import opened RefreshRotation

  /** A superseded token resolved at one go: the answer, and the sessions it leaves. */
  ghost function ResolveAlone(sessions: Sessions, users: set<int>, session: Session, now: int): (Sessions, Answer) {
    match Resolve(sessions, users, session.tokenHash, session, now)
    case Done(_, answer) => (sessions, answer)
    case _ => (RevokeFamily(sessions, session.userId, now), TokenReused)
  }

  /** Lookup, close and resolve with nothing in between. */
  ghost function RefreshAlone(sessions: Sessions, users: set<int>, hash: int, newId: int, newHash: int, now: int)
    : (Sessions, Answer)
  {
    match LookUp(sessions, users, hash, now)
    case Closing(_, id) => if Open(sessions[id]) then (Superseded(sessions, id, newId, newHash, now), Rotated(newId))
                           else ResolveAlone(sessions, users, sessions[id], now)
    case Resolving(_, _, session) => ResolveAlone(sessions, users, session, now)
    case Done(_, answer) => (sessions, answer)
    case _ => (sessions, InvalidToken)
  }

  class AuthService {
    var sessions: Sessions
    var users: set<int>

    constructor (users: set<int>)
      ensures sessions == map[] && SessionsOk(sessions) && this.users == users
    {
      sessions, this.users := map[], users;
    }

    method FindSession(hash: int) returns (found: Option<int>)
      requires SessionsOk(sessions)
      ensures found == FindByHash(sessions, hash)
    {
      if exists id :: id in sessions && sessions[id].tokenHash == hash {
        var id :| id in sessions && sessions[id].tokenHash == hash;
        assert HasHash(sessions, id, hash);
        return Some(id);
      }
      assert forall id :: !HasHash(sessions, id, hash);
      return None;
    }

    method CreateSession(userId: int, newId: int, newHash: int, now: int)
      requires SessionsOk(sessions) && Fresh(sessions, newId, newHash)
      modifies this`sessions
      ensures sessions == old(sessions)[newId := NewSession(old(sessions), userId, newHash, now)]
      ensures SessionsOk(sessions)
    {
      CreateKeepsOk(sessions, userId, newId, newHash, now);
      sessions := sessions[newId := Session(userId, newHash, |sessions|, now + REFRESH_TTL_MS, None, None, None)];
    }

    method Refresh(hash: int, newId: int, newHash: int, now: int) returns (answer: Answer)
      requires SessionsOk(sessions) && Fresh(sessions, newId, newHash)
      modifies this`sessions
      ensures (sessions, answer) == RefreshAlone(old(sessions), users, hash, newId, newHash, now)
      ensures SessionsOk(sessions)
    {
      var found := FindSession(hash);
      if found.None? {
        return InvalidToken;
      }
      var id := found.value;
      var session := sessions[id];
      if session.supersededAt.Some? {
        answer := ResolveSuperseded(session, now);
        return;
      }
      if session.revokedAt.Some? {
        return InvalidToken;
      }
      if session.expiresAt < now {
        return TokenExpired;
      }
      if session.userId !in users {
        return InvalidToken;
      }
      SupersedeKeepsOk(sessions, id, newId, newHash, now);
      var newSession := NewSession(sessions, session.userId, newHash, now);
      sessions := sessions[id := session.(supersededAt := Some(now), successorId := Some(newId))];
      sessions := sessions[newId := newSession];
      return Rotated(newId);
    }

    method ResolveSuperseded(session: Session, now: int) returns (answer: Answer)
      requires SessionsOk(sessions)
      modifies this`sessions
      ensures (sessions, answer) == ResolveAlone(old(sessions), users, session, now)
      ensures SessionsOk(sessions)
    {
      var withinGrace := session.supersededAt.Some? && now - session.supersededAt.value <= REFRESH_REUSE_GRACE_MS;
      if withinGrace && session.successorId.Some? && session.successorId.value in sessions {
        var successor := sessions[session.successorId.value];
        if successor.revokedAt.None? && successor.userId in users {
          return Graced(session.successorId.value);
        }
      }
      RevokeWhere(session.userId, now);
      return TokenReused;
    }

    method RevokeWhere(userId: int, now: int)
      requires SessionsOk(sessions)
      modifies this`sessions
      ensures sessions == RevokeFamily(old(sessions), userId, now)
      ensures SessionsOk(sessions) && FamilyRevoked(sessions, userId)
    {
      var later := map id | id in sessions ::
        if sessions[id].userId == userId && sessions[id].revokedAt.None?
        then sessions[id].(revokedAt := Some(now)) else sessions[id];
      ghost var spec := RevokeFamily(sessions, userId, now);
      assert later.Keys == spec.Keys;
      forall id | id in later
        ensures later[id] == spec[id]
      {
      }
      assert later == spec;
      RevocationKeepsOk(sessions, later);
      sessions := later;
    }

    method LogoutAll(userId: int, now: int)
      requires SessionsOk(sessions)
      modifies this`sessions
      ensures sessions == RevokeFamily(old(sessions), userId, now)
      ensures SessionsOk(sessions) && FamilyRevoked(sessions, userId)
    {
      RevokeWhere(userId, now);
    }

    method Logout(sessionId: int, now: int)
      requires SessionsOk(sessions)
      modifies this`sessions
      ensures sessions == if sessionId in old(sessions)
                          then old(sessions)[sessionId := RevokeOne(old(sessions)[sessionId], now)] else old(sessions)
      ensures SessionsOk(sessions)
    {
      if sessionId in sessions && sessions[sessionId].revokedAt.None? {
        var later := sessions[sessionId := sessions[sessionId].(revokedAt := Some(now))];
        RevocationKeepsOk(sessions, later);
        sessions := later;
      }
    }

    /** Only the owner may revoke a session; revoking again moves the date. */
    method RevokeSession(userId: int, sessionId: int, now: int) returns (found: bool)
      requires SessionsOk(sessions)
      modifies this`sessions
      ensures found <==> sessionId in old(sessions) && old(sessions)[sessionId].userId == userId
      ensures sessions == if found then old(sessions)[sessionId := old(sessions)[sessionId].(revokedAt := Some(now))]
                          else old(sessions)
      ensures SessionsOk(sessions)
    {
      found := sessionId in sessions && sessions[sessionId].userId == userId;
      if found {
        var later := sessions[sessionId := sessions[sessionId].(revokedAt := Some(now))];
        RevocationKeepsOk(sessions, later);
        sessions := later;
      }
    }
  }

  // ----- replaying a token -----

  lemma HashNamesSession(sessions: Sessions, id: int, hash: int)
    requires SessionsOk(sessions) && HasHash(sessions, id, hash)
    ensures FindByHash(sessions, hash) == Some(id)
  {
    assert HasHash(sessions, id, hash);
  }

  /** A token that has just been rotated and is presented again: inside the grace window the call gets the new session
      and changes nothing, outside it every session of the user is revoked. */
  lemma ReplayOfRotatedToken(sessions: Sessions, users: set<int>, hash: int, newId: int, newHash: int, rotatedAt: int,
                             laterId: int, laterHash: int, now: int)
    requires SessionsOk(sessions) && Fresh(sessions, newId, newHash)
    requires RefreshAlone(sessions, users, hash, newId, newHash, rotatedAt).1 == Rotated(newId)
    ensures var rotated := RefreshAlone(sessions, users, hash, newId, newHash, rotatedAt).0;
      var userId := rotated[newId].userId;
      RefreshAlone(rotated, users, hash, laterId, laterHash, now)
      == if now - rotatedAt <= REFRESH_REUSE_GRACE_MS then (rotated, Graced(newId))
         else (RevokeFamily(rotated, userId, now), TokenReused)
  {
    var id := FindByHash(sessions, hash).value;
    SupersedeKeepsOk(sessions, id, newId, newHash, rotatedAt);
    var rotated := Superseded(sessions, id, newId, newHash, rotatedAt);
    HashNamesSession(rotated, id, hash);
  }
}
