/**
 Refresh-token rotation. A call looks its token up, closes the session it found and creates the successor in one
 atomic step, and otherwise resolves a superseded token: inside the grace window it answers with the successor,
 outside it revokes every session of the user. Calls interleave in any way.
 */
module RefreshRotation {
  import opened Wrappers

  const REFRESH_REUSE_GRACE_MS := 10_000
  const REFRESH_TTL_MS := 30 * 24 * 60 * 60 * 1000

  /** `createdSeq` is the position in the order of creation; rows are never deleted. */
  datatype Session = Session(
    userId: int, tokenHash: int, createdSeq: nat, expiresAt: int, revokedAt: Option<int>,
    supersededAt: Option<int>, successorId: Option<int>)

  type Sessions = map<int, Session>

  datatype Answer = Rotated(sessionId: int) | Graced(sessionId: int) | InvalidToken | TokenExpired | TokenReused

  /** Where a refresh call stands; `hash` is the hash of the token it presented. */
  datatype Call =
    | Presented(hash: int)
    | Closing(hash: int, id: int)
    | Resolving(hash: int, id: int, session: Session)
    | Revoking(hash: int, userId: int)
    | Done(hash: int, answer: Answer)

  // ----- the atomic steps -----

  ghost predicate HasHash(sessions: Sessions, id: int, hash: int) {
    id in sessions && sessions[id].tokenHash == hash
  }

  ghost function FindByHash(sessions: Sessions, hash: int): (r: Option<int>)
    ensures r.Some? ==> HasHash(sessions, r.value, hash)
    ensures r.None? ==> forall id :: !HasHash(sessions, id, hash)
  {
    if id :| HasHash(sessions, id, hash) then Some(id) else None
  }

  /** What the lookup of a session decides. */
  function Classify(hash: int, id: int, session: Session, users: set<int>, now: int): Call {
    if session.supersededAt.Some? then Resolving(hash, id, session)
    else if session.revokedAt.Some? then Done(hash, InvalidToken)
    else if session.expiresAt < now then Done(hash, TokenExpired)
    else if session.userId !in users then Done(hash, InvalidToken)
    else Closing(hash, id)
  }

  ghost function LookUp(sessions: Sessions, users: set<int>, hash: int, now: int): Call {
    var found := FindByHash(sessions, hash);
    if found.None? then Done(hash, InvalidToken)
    else Classify(hash, found.value, sessions[found.value], users, now)
  }

  predicate Open(session: Session) {
    session.revokedAt.None? && session.supersededAt.None?
  }

  function NewSession(sessions: Sessions, userId: int, hash: int, now: int): Session {
    Session(userId, hash, |sessions|, now + REFRESH_TTL_MS, None, None, None)
  }

  function Superseded(sessions: Sessions, id: int, newId: int, newHash: int, now: int): Sessions
    requires id in sessions
  {
    sessions[id := sessions[id].(supersededAt := Some(now), successorId := Some(newId))]
            [newId := NewSession(sessions, sessions[id].userId, newHash, now)]
  }

  /** Closing the session and creating its successor, if nobody closed or revoked it in the meantime. */
  function CloseAndCreate(sessions: Sessions, hash: int, id: int, newId: int, newHash: int, now: int): (Sessions, Call)
    requires id in sessions
  {
    if Open(sessions[id]) then (Superseded(sessions, id, newId, newHash, now), Done(hash, Rotated(newId)))
    else (sessions, Resolving(hash, id, sessions[id]))
  }

  predicate WithinGrace(session: Session, now: int) {
    session.supersededAt.Some? && now - session.supersededAt.value <= REFRESH_REUSE_GRACE_MS
  }

  predicate HasLiveSuccessor(sessions: Sessions, session: Session, users: set<int>) {
    && session.successorId.Some? && session.successorId.value in sessions
    && sessions[session.successorId.value].revokedAt.None?
    && sessions[session.successorId.value].userId in users
  }

  function Resolve(sessions: Sessions, users: set<int>, hash: int, session: Session, now: int): Call {
    if WithinGrace(session, now) && HasLiveSuccessor(sessions, session, users)
    then Done(hash, Graced(session.successorId.value))
    else Revoking(hash, session.userId)
  }

  function RevokeOne(session: Session, now: int): Session {
    if session.revokedAt.None? then session.(revokedAt := Some(now)) else session
  }

  function RevokeFamily(sessions: Sessions, userId: int, now: int): Sessions {
    map id | id in sessions :: if sessions[id].userId == userId then RevokeOne(sessions[id], now) else sessions[id]
  }

  // ----- the system and its runs -----

  datatype System = System(sessions: Sessions, calls: map<int, Call>, users: set<int>)

  datatype Step =
    | Login(userId: int, newId: int, newHash: int, now: int)
    | Begin(call: int, hash: int)
    | DoLookUp(call: int, now: int)
    | DoClose(call: int, newId: int, newHash: int, now: int)
    | DoResolve(call: int, now: int)
    | DoRevoke(call: int, now: int)
    | Logout(id: int, now: int)
    | LogoutAll(userId: int, now: int)
    | RevokeSession(userId: int, id: int, now: int)

  /** Ids and tokens of new sessions are fresh values. */
  ghost predicate Fresh(sessions: Sessions, newId: int, newHash: int) {
    newId !in sessions && FindByHash(sessions, newHash).None?
  }

  ghost predicate Enabled(sys: System, step: Step) {
    match step
    case Login(_, newId, newHash, _) => Fresh(sys.sessions, newId, newHash)
    case Begin(c, _) => c !in sys.calls
    case DoLookUp(c, _) => c in sys.calls && sys.calls[c].Presented?
    case DoClose(c, newId, newHash, _) =>
      c in sys.calls && sys.calls[c].Closing? && sys.calls[c].id in sys.sessions && Fresh(sys.sessions, newId, newHash)
    case DoResolve(c, _) => c in sys.calls && sys.calls[c].Resolving?
    case DoRevoke(c, _) => c in sys.calls && sys.calls[c].Revoking?
    case _ => true
  }

  ghost function Next(sys: System, step: Step): System
    requires Enabled(sys, step)
  {
    match step
    case Login(userId, newId, newHash, now) =>
      sys.(sessions := sys.sessions[newId := NewSession(sys.sessions, userId, newHash, now)])
    case Begin(c, hash) => sys.(calls := sys.calls[c := Presented(hash)])
    case DoLookUp(c, now) => sys.(calls := sys.calls[c := LookUp(sys.sessions, sys.users, sys.calls[c].hash, now)])
    case DoClose(c, newId, newHash, now) =>
      var (sessions, call) := CloseAndCreate(sys.sessions, sys.calls[c].hash, sys.calls[c].id, newId, newHash, now);
      sys.(sessions := sessions, calls := sys.calls[c := call])
    case DoResolve(c, now) =>
      sys.(calls := sys.calls[c := Resolve(sys.sessions, sys.users, sys.calls[c].hash, sys.calls[c].session, now)])
    case DoRevoke(c, now) =>
      sys.(sessions := RevokeFamily(sys.sessions, sys.calls[c].userId, now),
           calls := sys.calls[c := Done(sys.calls[c].hash, TokenReused)])
    case Logout(id, now) =>
      if id in sys.sessions then sys.(sessions := sys.sessions[id := RevokeOne(sys.sessions[id], now)]) else sys
    case LogoutAll(userId, now) => sys.(sessions := RevokeFamily(sys.sessions, userId, now))
    case RevokeSession(userId, id, now) =>
      if id in sys.sessions && sys.sessions[id].userId == userId
      then sys.(sessions := sys.sessions[id := sys.sessions[id].(revokedAt := Some(now))])
      else sys
  }

  ghost predicate EnabledRun(sys: System, steps: seq<Step>)
    decreases |steps|
  {
    steps == [] || (Enabled(sys, steps[0]) && EnabledRun(Next(sys, steps[0]), steps[1..]))
  }

  ghost function Run(sys: System, steps: seq<Step>): System
    requires EnabledRun(sys, steps)
    decreases |steps|
  {
    if steps == [] then sys else Run(Next(sys, steps[0]), steps[1..])
  }

  // ----- the invariant -----

  ghost predicate LinkOk(sessions: Sessions, s: Session) {
    && s.createdSeq < |sessions|
    && (s.supersededAt.Some? <==> s.successorId.Some?)
    && (s.successorId.Some? ==>
          && s.successorId.value in sessions
          && sessions[s.successorId.value].userId == s.userId
          && sessions[s.successorId.value].createdSeq > s.createdSeq)
  }

  ghost predicate SameSuccessor(s: Session, t: Session) {
    s.successorId.Some? && s.successorId == t.successorId
  }

  ghost predicate SessionsOk(sessions: Sessions) {
    && (forall id :: id in sessions ==> LinkOk(sessions, sessions[id]))
    && (forall a, b :: a in sessions && b in sessions && SameSuccessor(sessions[a], sessions[b]) ==> a == b)
    && (forall a, b :: a in sessions && b in sessions && sessions[a].tokenHash == sessions[b].tokenHash ==> a == b)
  }

  ghost predicate CallOk(sessions: Sessions, call: Call) {
    match call
    case Closing(hash, id) => HasHash(sessions, id, hash)
    case Resolving(hash, id, session) =>
      && HasHash(sessions, id, hash)
      && session.userId == sessions[id].userId
      && (session.supersededAt.Some? ==>
            session.successorId == sessions[id].successorId && session.supersededAt == sessions[id].supersededAt)
    case Done(hash, Rotated(n)) => exists id :: HasHash(sessions, id, hash) && sessions[id].successorId == Some(n)
    case Done(hash, Graced(n)) => exists id :: HasHash(sessions, id, hash) && sessions[id].successorId == Some(n)
    case _ => true
  }

  ghost predicate RotatedTo(call: Call, n: int) {
    call.Done? && call.answer == Rotated(n)
  }

  ghost predicate Inv(sys: System) {
    && SessionsOk(sys.sessions)
    && (forall c :: c in sys.calls ==> CallOk(sys.sessions, sys.calls[c]))
    && (forall c, d, n :: c in sys.calls && d in sys.calls && RotatedTo(sys.calls[c], n) && RotatedTo(sys.calls[d], n) ==> c == d)
  }

  /** From one step to the next a session keeps its identity, its successor once it has one, and its revocation. */
  ghost predicate Evolves(before: Session, after: Session) {
    && after.userId == before.userId && after.tokenHash == before.tokenHash && after.createdSeq == before.createdSeq
    && (before.revokedAt.Some? ==> after.revokedAt.Some?)
    && (before.supersededAt.Some? ==> after.supersededAt == before.supersededAt && after.successorId == before.successorId)
    && (before.revokedAt.Some? && before.supersededAt.None? ==>
          after.supersededAt.None? && after.successorId == before.successorId)
  }

  ghost predicate AllEvolve(sessions: Sessions, later: Sessions) {
    forall id :: id in sessions ==> id in later && Evolves(sessions[id], later[id])
  }

  lemma StepEvolves(sys: System, step: Step)
    requires Inv(sys) && Enabled(sys, step)
    ensures AllEvolve(sys.sessions, Next(sys, step).sessions)
  {
  }

  ghost predicate SameLinks(before: Session, after: Session) {
    after == before.(revokedAt := after.revokedAt)
  }

  lemma RevocationKeepsOk(sessions: Sessions, later: Sessions)
    requires SessionsOk(sessions) && later.Keys == sessions.Keys
    requires forall id :: id in sessions ==> SameLinks(sessions[id], later[id])
    ensures SessionsOk(later)
  {
    assert |later| == |later.Keys| == |sessions.Keys| == |sessions|;
    forall id | id in later
      ensures LinkOk(later, later[id])
    {
      assert LinkOk(sessions, sessions[id]) && SameLinks(sessions[id], later[id]);
      if sessions[id].successorId.Some? {
        var next := sessions[id].successorId.value;
        assert next in sessions;
        assert SameLinks(sessions[next], later[next]);
      }
    }
    assert forall a :: a in sessions ==> SameLinks(sessions[a], later[a]);
  }

  lemma CreateKeepsOk(sessions: Sessions, userId: int, newId: int, newHash: int, now: int)
    requires SessionsOk(sessions) && Fresh(sessions, newId, newHash)
    ensures SessionsOk(sessions[newId := NewSession(sessions, userId, newHash, now)])
  {
    var later := sessions[newId := NewSession(sessions, userId, newHash, now)];
    assert |later| == |sessions| + 1;
    assert forall id :: id in sessions ==> LinkOk(sessions, sessions[id]) && !HasHash(sessions, id, newHash);
  }

  lemma SupersedeKeepsLinks(sessions: Sessions, id: int, newId: int, newHash: int, now: int)
    requires SessionsOk(sessions) && id in sessions && Open(sessions[id]) && newId !in sessions
    ensures var later := Superseded(sessions, id, newId, newHash, now);
      forall x :: x in later ==> LinkOk(later, later[x])
  {
    var later := Superseded(sessions, id, newId, newHash, now);
    assert later.Keys == sessions.Keys + {newId};
    assert |later| == |later.Keys| == |sessions| + 1;
    forall x | x in later
      ensures LinkOk(later, later[x])
    {
      if x in sessions {
        assert LinkOk(sessions, sessions[x]);
      }
    }
  }

  lemma SupersedeKeepsSuccessors(sessions: Sessions, id: int, newId: int, newHash: int, now: int, a: int, b: int)
    requires SessionsOk(sessions) && id in sessions && Open(sessions[id]) && newId !in sessions
    requires var later := Superseded(sessions, id, newId, newHash, now);
      a in later && b in later && SameSuccessor(later[a], later[b])
    ensures a == b
  {
    var later := Superseded(sessions, id, newId, newHash, now);
    if a in sessions && a != id {
      assert later[a] == sessions[a] && LinkOk(sessions, sessions[a]);
    }
    if b in sessions && b != id {
      assert later[b] == sessions[b] && LinkOk(sessions, sessions[b]);
    }
  }

  lemma SupersedeKeepsHashes(sessions: Sessions, id: int, newId: int, newHash: int, now: int, a: int, b: int)
    requires SessionsOk(sessions) && id in sessions && Fresh(sessions, newId, newHash)
    requires var later := Superseded(sessions, id, newId, newHash, now);
      a in later && b in later && later[a].tokenHash == later[b].tokenHash
    ensures a == b
  {
    assert a in sessions ==> !HasHash(sessions, a, newHash);
    assert b in sessions ==> !HasHash(sessions, b, newHash);
  }

  lemma SupersedeKeepsOk(sessions: Sessions, id: int, newId: int, newHash: int, now: int)
    requires SessionsOk(sessions) && id in sessions && Open(sessions[id]) && Fresh(sessions, newId, newHash)
    ensures SessionsOk(Superseded(sessions, id, newId, newHash, now))
  {
    var later := Superseded(sessions, id, newId, newHash, now);
    SupersedeKeepsLinks(sessions, id, newId, newHash, now);
    forall a, b | a in later && b in later && SameSuccessor(later[a], later[b])
      ensures a == b
    {
      SupersedeKeepsSuccessors(sessions, id, newId, newHash, now, a, b);
    }
    forall a, b | a in later && b in later && later[a].tokenHash == later[b].tokenHash
      ensures a == b
    {
      SupersedeKeepsHashes(sessions, id, newId, newHash, now, a, b);
    }
  }

  lemma CallSurvives(sessions: Sessions, later: Sessions, call: Call)
    requires AllEvolve(sessions, later) && CallOk(sessions, call)
    requires SessionsOk(sessions)
    ensures CallOk(later, call)
  {
    if call.Done? && (call.answer.Rotated? || call.answer.Graced?) {
      var id :| HasHash(sessions, id, call.hash) && sessions[id].successorId == Some(call.answer.sessionId);
      assert LinkOk(sessions, sessions[id]);
      assert HasHash(later, id, call.hash) && later[id].successorId == Some(call.answer.sessionId);
    } else if call.Resolving? {
      assert LinkOk(sessions, sessions[call.id]);
    }
  }

  /** The sessions after a step are well linked. */
  lemma SessionsStepOk(sys: System, step: Step)
    requires Inv(sys) && Enabled(sys, step)
    ensures SessionsOk(Next(sys, step).sessions)
  {
    match step
    case Login(userId, newId, newHash, now) => CreateKeepsOk(sys.sessions, userId, newId, newHash, now);
    case DoClose(c, newId, newHash, now) =>
      if Open(sys.sessions[sys.calls[c].id]) {
        SupersedeKeepsOk(sys.sessions, sys.calls[c].id, newId, newHash, now);
      }
    case DoRevoke(c, now) => RevocationKeepsOk(sys.sessions, Next(sys, step).sessions);
    case Logout(id, now) => RevocationKeepsOk(sys.sessions, Next(sys, step).sessions);
    case LogoutAll(userId, now) => RevocationKeepsOk(sys.sessions, Next(sys, step).sessions);
    case RevokeSession(userId, id, now) => RevocationKeepsOk(sys.sessions, Next(sys, step).sessions);
    case _ =>
  }

  /** The call a step moves ends in a state that fits the sessions. */
  lemma MovedCallOk(sys: System, step: Step, c: int)
    requires Inv(sys) && Enabled(sys, step)
    requires c in Next(sys, step).calls && (c !in sys.calls || Next(sys, step).calls[c] != sys.calls[c])
    ensures CallOk(Next(sys, step).sessions, Next(sys, step).calls[c])
  {
    assert c in sys.calls ==> CallOk(sys.sessions, sys.calls[c]);
    match step
    case DoClose(_, newId, newHash, now) =>
      var later := Next(sys, step).sessions;
      var id := sys.calls[c].id;
      assert HasHash(later, id, sys.calls[c].hash);
    case DoResolve(_, now) =>
      var id := sys.calls[c].id;
      assert HasHash(sys.sessions, id, sys.calls[c].hash);
    case _ =>
  }

  lemma StepKeeps(sys: System, step: Step)
    requires Inv(sys) && Enabled(sys, step)
    ensures Inv(Next(sys, step))
  {
    var after := Next(sys, step);
    SessionsStepOk(sys, step);
    StepEvolves(sys, step);
    forall c | c in after.calls
      ensures CallOk(after.sessions, after.calls[c])
    {
      if c in sys.calls && after.calls[c] == sys.calls[c] {
        CallSurvives(sys.sessions, after.sessions, sys.calls[c]);
      } else {
        MovedCallOk(sys, step, c);
      }
    }
    forall c, d, n | c in after.calls && d in after.calls && RotatedTo(after.calls[c], n) && RotatedTo(after.calls[d], n)
      ensures c == d
    {
      RotationsStayDistinct(sys, step, c, d, n);
    }
  }

  lemma RotationsStayDistinct(sys: System, step: Step, c: int, d: int, n: int)
    requires Inv(sys) && Enabled(sys, step)
    requires c in Next(sys, step).calls && d in Next(sys, step).calls
    requires RotatedTo(Next(sys, step).calls[c], n) && RotatedTo(Next(sys, step).calls[d], n)
    ensures c == d
  {
    assert c in sys.calls ==> CallOk(sys.sessions, sys.calls[c]);
    assert d in sys.calls ==> CallOk(sys.sessions, sys.calls[d]);
    assert forall id :: id in sys.sessions ==> LinkOk(sys.sessions, sys.sessions[id]);
  }

  lemma {:induction false} RunKeeps(sys: System, steps: seq<Step>)
    requires Inv(sys) && EnabledRun(sys, steps)
    ensures Inv(Run(sys, steps))
    ensures AllEvolve(sys.sessions, Run(sys, steps).sessions)
    decreases |steps|
  {
    if steps != [] {
      StepKeeps(sys, steps[0]);
      StepEvolves(sys, steps[0]);
      RunKeeps(Next(sys, steps[0]), steps[1..]);
    }
  }

  // ----- main results: chains -----

  ghost function Successor(sessions: Sessions, id: int): Option<int>
    requires id in sessions
  {
    sessions[id].successorId
  }

  /** Following successors from `a` leads to `b`. */
  ghost predicate Reaches(sessions: Sessions, a: int, b: int)
    requires SessionsOk(sessions) && a in sessions
    decreases |sessions| - sessions[a].createdSeq
  {
    a == b || (Successor(sessions, a).Some?
               && (assert LinkOk(sessions, sessions[a]); Reaches(sessions, Successor(sessions, a).value, b)))
  }

  /** The end of the chain of `a`. */
  ghost function Tail(sessions: Sessions, a: int): (t: int)
    requires SessionsOk(sessions) && a in sessions
    ensures t in sessions && sessions[t].supersededAt.None? && Reaches(sessions, a, t)
    ensures sessions[t].userId == sessions[a].userId
    decreases |sessions| - sessions[a].createdSeq
  {
    assert LinkOk(sessions, sessions[a]);
    if Successor(sessions, a).None? then a else Tail(sessions, Successor(sessions, a).value)
  }

  /** Every session leads to exactly one session that is not superseded. */
  lemma {:induction false} OneOpenEnd(sessions: Sessions, a: int, t: int)
    requires SessionsOk(sessions) && a in sessions && t in sessions
    ensures Reaches(sessions, a, t) && sessions[t].supersededAt.None? <==> t == Tail(sessions, a)
    decreases |sessions| - sessions[a].createdSeq
  {
    assert LinkOk(sessions, sessions[a]);
    if Successor(sessions, a).Some? {
      OneOpenEnd(sessions, Successor(sessions, a).value, t);
    }
  }

  /** Whoever reaches `x` without being `x` goes through a session whose successor is `x`. */
  lemma {:induction false} LastStep(sessions: Sessions, b: int, x: int) returns (p: int)
    requires SessionsOk(sessions) && b in sessions && Reaches(sessions, b, x) && b != x
    ensures p in sessions && Reaches(sessions, b, p) && Successor(sessions, p) == Some(x)
    decreases |sessions| - sessions[b].createdSeq
  {
    assert LinkOk(sessions, sessions[b]);
    var next := Successor(sessions, b).value;
    if next == x {
      p := b;
    } else {
      p := LastStep(sessions, next, x);
    }
  }

  /** Two sessions with the same end lie on one chain: chains never merge. */
  lemma {:induction false} ChainsAreDisjoint(sessions: Sessions, a: int, b: int)
    requires SessionsOk(sessions) && a in sessions && b in sessions
    ensures Tail(sessions, a) == Tail(sessions, b) <==> Reaches(sessions, a, b) || Reaches(sessions, b, a)
    decreases |sessions| - sessions[a].createdSeq
  {
    if Reaches(sessions, a, b) {
      SameTail(sessions, a, b);
    }
    if Reaches(sessions, b, a) {
      SameTail(sessions, b, a);
    }
    assert LinkOk(sessions, sessions[a]);
    if Tail(sessions, a) == Tail(sessions, b) && Successor(sessions, a).Some? {
      var next := Successor(sessions, a).value;
      ChainsAreDisjoint(sessions, next, b);
      if Reaches(sessions, b, next) && b != next {
        var p := LastStep(sessions, b, next);
        assert SameSuccessor(sessions[p], sessions[a]);
      }
    }
  }

  lemma {:induction false} SameTail(sessions: Sessions, a: int, b: int)
    requires SessionsOk(sessions) && a in sessions && b in sessions && Reaches(sessions, a, b)
    ensures Tail(sessions, a) == Tail(sessions, b)
    decreases |sessions| - sessions[a].createdSeq
  {
    if a != b {
      assert LinkOk(sessions, sessions[a]);
      SameTail(sessions, Successor(sessions, a).value, b);
    }
  }

  // ----- main results: one successor per token -----

  /** However many calls race on one token, at most one of them creates a session. */
  lemma OneRotationPerToken(sys: System, steps: seq<Step>, c: int, d: int)
    requires Inv(sys) && EnabledRun(sys, steps)
    requires var reached := Run(sys, steps);
      && c in reached.calls && d in reached.calls && reached.calls[c].hash == reached.calls[d].hash
      && reached.calls[c].Done? && reached.calls[c].answer.Rotated?
      && reached.calls[d].Done? && reached.calls[d].answer.Rotated?
    ensures c == d
  {
    RunKeeps(sys, steps);
    var reached := Run(sys, steps);
    assert CallOk(reached.sessions, reached.calls[c]) && CallOk(reached.sessions, reached.calls[d]);
    var hash := reached.calls[c].hash;
    var x :| HasHash(reached.sessions, x, hash) && reached.sessions[x].successorId == Some(reached.calls[c].answer.sessionId);
    var y :| HasHash(reached.sessions, y, hash) && reached.sessions[y].successorId == Some(reached.calls[d].answer.sessionId);
    assert RotatedTo(reached.calls[c], reached.calls[c].answer.sessionId);
    assert RotatedTo(reached.calls[d], reached.calls[c].answer.sessionId);
  }

  /** All successful calls on one token name the same session: the winner's new session. */
  lemma SuccessesAgree(sys: System, steps: seq<Step>, c: int, d: int)
    requires Inv(sys) && EnabledRun(sys, steps)
    requires var reached := Run(sys, steps);
      && c in reached.calls && d in reached.calls && reached.calls[c].hash == reached.calls[d].hash
      && Succeeded(reached.calls[c]) && Succeeded(reached.calls[d])
    ensures Run(sys, steps).calls[c].answer.sessionId == Run(sys, steps).calls[d].answer.sessionId
  {
    RunKeeps(sys, steps);
    var reached := Run(sys, steps);
    assert CallOk(reached.sessions, reached.calls[c]) && CallOk(reached.sessions, reached.calls[d]);
    var hash := reached.calls[c].hash;
    var x :| HasHash(reached.sessions, x, hash) && reached.sessions[x].successorId == Some(reached.calls[c].answer.sessionId);
    var y :| HasHash(reached.sessions, y, hash) && reached.sessions[y].successorId == Some(reached.calls[d].answer.sessionId);
  }

  predicate Succeeded(call: Call) {
    call.Done? && (call.answer.Rotated? || call.answer.Graced?)
  }

  // ----- main results: losers -----

  /** A call that lost the race answers with the winner's session, and nothing is revoked, exactly when it resolves
      within the grace window, the successor is not revoked and its user still exists. Any other loser goes on to
      revoke every session of the user. */
  lemma LoserInsideGrace(sys: System, c: int, now: int)
    requires Inv(sys) && Enabled(sys, DoResolve(c, now))
    ensures var call := sys.calls[c];
      var row := sys.sessions[call.id];
      var after := Next(sys, DoResolve(c, now));
      && after.sessions == sys.sessions
      && (Succeeded(after.calls[c])
          <==> call.session.supersededAt.Some? && WithinGrace(row, now) && HasLiveSuccessor(sys.sessions, row, sys.users))
      && (Succeeded(after.calls[c]) ==> after.calls[c].answer == Graced(row.successorId.value))
      && (!Succeeded(after.calls[c]) ==> after.calls[c] == Revoking(call.hash, row.userId))
  {
    assert CallOk(sys.sessions, sys.calls[c]);
  }

  ghost predicate FamilyRevoked(sessions: Sessions, userId: int) {
    forall id :: id in sessions && sessions[id].userId == userId ==> sessions[id].revokedAt.Some?
  }

  /** A call whose session was revoked rather than superseded between its lookup and its close ends by revoking the
      whole family, whatever the time. */
  lemma LosingToARevocationRevokesAll(sys: System, c: int, newId: int, newHash: int, closedAt: int, resolvedAt: int,
          revokedAt: int)
    requires Inv(sys) && Enabled(sys, DoClose(c, newId, newHash, closedAt))
    requires sys.sessions[sys.calls[c].id].revokedAt.Some? && sys.sessions[sys.calls[c].id].supersededAt.None?
    ensures var userId := sys.sessions[sys.calls[c].id].userId;
      var lost := Next(sys, DoClose(c, newId, newHash, closedAt));
      && Enabled(lost, DoResolve(c, resolvedAt))
      && var resolved := Next(lost, DoResolve(c, resolvedAt));
         Enabled(resolved, DoRevoke(c, revokedAt))
         && FamilyRevoked(Next(resolved, DoRevoke(c, revokedAt)).sessions, userId)
         && Next(resolved, DoRevoke(c, revokedAt)).calls[c].answer == TokenReused
  {
  }

  /** How far a call has come. */
  function Stage(call: Call): nat {
    match call
    case Presented(_) => 0
    case Closing(_, _) => 1
    case Resolving(_, _, _) => 2
    case Revoking(_, _) => 3
    case Done(_, _) => 4
  }

  /** A call only moves on, and keeps what it knows while it stays. */
  predicate MovesOn(before: Call, after: Call) {
    Stage(before) <= Stage(after) && (Stage(before) == Stage(after) ==> before == after)
  }

  lemma CallMovesOn(sys: System, step: Step, c: int)
    requires Enabled(sys, step) && c in sys.calls
    ensures c in Next(sys, step).calls && MovesOn(sys.calls[c], Next(sys, step).calls[c])
  {
  }

  lemma {:induction false} CallMovesOnOverRun(sys: System, steps: seq<Step>, c: int)
    requires EnabledRun(sys, steps) && c in sys.calls
    ensures c in Run(sys, steps).calls && MovesOn(sys.calls[c], Run(sys, steps).calls[c])
    decreases |steps|
  {
    if steps != [] {
      CallMovesOn(sys, steps[0], c);
      CallMovesOnOverRun(Next(sys, steps[0]), steps[1..], c);
    }
  }

  /** From its close on, with any steps of others before it resolves: a call whose session is open at the close has rotated it
      and revokes nothing; any other call goes on to revoke the whole family if and only if it does not resolve inside the
      grace window of that session with a live successor. */
  lemma RevokesFamilyIff(sys: System, c: int, newId: int, newHash: int, closedAt: int, between: seq<Step>,
          resolvedAt: int, revokedAt: int)
    requires Inv(sys) && Enabled(sys, DoClose(c, newId, newHash, closedAt))
    requires EnabledRun(Next(sys, DoClose(c, newId, newHash, closedAt)), between)
    ensures var row := sys.sessions[sys.calls[c].id];
      var reached := Run(Next(sys, DoClose(c, newId, newHash, closedAt)), between);
      && c in reached.calls
      && (Open(row) ==> reached.calls[c] == Done(sys.calls[c].hash, Rotated(newId)))
      && (!Open(row) && Enabled(reached, DoResolve(c, resolvedAt)) ==>
            var resolved := Next(reached, DoResolve(c, resolvedAt));
            && (Enabled(resolved, DoRevoke(c, revokedAt))
                <==> !(WithinGrace(row, resolvedAt) && HasLiveSuccessor(reached.sessions, row, reached.users)))
            && (Enabled(resolved, DoRevoke(c, revokedAt)) ==>
                  FamilyRevoked(Next(resolved, DoRevoke(c, revokedAt)).sessions, row.userId)))
  {
    CallMovesOnOverRun(Next(sys, DoClose(c, newId, newHash, closedAt)), between, c);
  }

  // ----- a logout between lookup and close -----

  lemma RunCons(sys: System, step: Step, rest: seq<Step>)
    requires Enabled(sys, step) && EnabledRun(Next(sys, step), rest)
    ensures EnabledRun(sys, [step] + rest) && Run(sys, [step] + rest) == Run(Next(sys, step), rest)
  {
    assert ([step] + rest)[1..] == rest;
  }

  lemma RunTwo(sys: System, x: Step, y: Step, rest: seq<Step>)
    requires Enabled(sys, x) && Enabled(Next(sys, x), y) && EnabledRun(Next(Next(sys, x), y), rest)
    ensures EnabledRun(sys, [x, y] + rest) && Run(sys, [x, y] + rest) == Run(Next(Next(sys, x), y), rest)
  {
    RunCons(Next(sys, x), y, rest);
    RunCons(sys, x, [y] + rest);
    assert [x] + ([y] + rest) == [x, y] + rest;
  }

  function TwoSessions(user: int, a: int, b: int, hashA: int, hashB: int, now: int, loggedOut: Option<int>): Sessions {
    map[a := Session(user, hashA, 0, now + REFRESH_TTL_MS, loggedOut, None, None),
        b := Session(user, hashB, 1, now + REFRESH_TTL_MS, None, None, None)]
  }

  lemma TwoLogins(user: int, a: int, b: int, hashA: int, hashB: int, now: int)
    requires a != b && hashA != hashB
    ensures var empty := System(map[], map[], {user});
      var login, other := Login(user, a, hashA, now), Login(user, b, hashB, now);
      && Enabled(empty, login) && Enabled(Next(empty, login), other)
      && Next(Next(empty, login), other) == System(TwoSessions(user, a, b, hashA, hashB, now, None), map[], {user})
  {
  }

  lemma LookedUp(user: int, c: int, a: int, b: int, hashA: int, hashB: int, now: int)
    requires a != b && hashA != hashB
    ensures var sessions := TwoSessions(user, a, b, hashA, hashB, now, None);
      var sys := System(sessions, map[], {user});
      && Enabled(sys, Begin(c, hashA)) && Enabled(Next(sys, Begin(c, hashA)), DoLookUp(c, now))
      && Next(Next(sys, Begin(c, hashA)), DoLookUp(c, now)) == System(sessions, map[c := Closing(hashA, a)], {user})
  {
    var sessions := TwoSessions(user, a, b, hashA, hashB, now, None);
    assert HasHash(sessions, a, hashA);
    assert FindByHash(sessions, hashA) == Some(a);
  }

  lemma ClosedTooLate(user: int, c: int, a: int, b: int, hashA: int, hashB: int, newId: int, newHash: int, now: int)
    requires a != b && newId != a && newId != b && newHash != hashA && newHash != hashB
    ensures var sys := System(TwoSessions(user, a, b, hashA, hashB, now, None), map[c := Closing(hashA, a)], {user});
      var out := TwoSessions(user, a, b, hashA, hashB, now, Some(now));
      && Enabled(sys, Logout(a, now)) && Enabled(Next(sys, Logout(a, now)), DoClose(c, newId, newHash, now))
      && Next(Next(sys, Logout(a, now)), DoClose(c, newId, newHash, now))
         == System(out, map[c := Resolving(hashA, a, out[a])], {user})
  {
  }

  /** One user, signed in on two devices. The first device refreshes, and logs out between the lookup and the close of its
      call: the second device, whose token nobody else used, is signed out too. */
  lemma LogoutDuringRefresh(user: int, c: int, a: int, b: int, hashA: int, hashB: int, newId: int, newHash: int,
          now: int)
    requires a != b && hashA != hashB && newId != a && newId != b && newHash != hashA && newHash != hashB
    ensures var empty := System(map[], map[], {user});
      var steps := [Login(user, a, hashA, now), Login(user, b, hashB, now)]
                   + ([Begin(c, hashA), DoLookUp(c, now)]
                      + ([Logout(a, now), DoClose(c, newId, newHash, now)] + ([DoResolve(c, now), DoRevoke(c, now)] + [])));
      && EnabledRun(empty, steps)
      && b in Run(empty, steps).sessions && Run(empty, steps).sessions[b].revokedAt.Some?
      && c in Run(empty, steps).calls && Run(empty, steps).calls[c] == Done(hashA, TokenReused)
  {
    var empty := System(map[], map[], {user});
    var sessions := TwoSessions(user, a, b, hashA, hashB, now, None);
    var out := TwoSessions(user, a, b, hashA, hashB, now, Some(now));
    TwoLogins(user, a, b, hashA, hashB, now);
    LookedUp(user, c, a, b, hashA, hashB, now);
    ClosedTooLate(user, c, a, b, hashA, hashB, newId, newHash, now);
    var late := System(out, map[c := Resolving(hashA, a, out[a])], {user});
    var last := [DoResolve(c, now), DoRevoke(c, now)] + [];
    RunTwo(late, DoResolve(c, now), DoRevoke(c, now), []);
    RunTwo(System(sessions, map[c := Closing(hashA, a)], {user}), Logout(a, now), DoClose(c, newId, newHash, now), last);
    var closing := [Logout(a, now), DoClose(c, newId, newHash, now)] + last;
    RunTwo(System(sessions, map[], {user}), Begin(c, hashA), DoLookUp(c, now), closing);
    RunTwo(empty, Login(user, a, hashA, now), Login(user, b, hashB, now), [Begin(c, hashA), DoLookUp(c, now)] + closing);
  }

  // ----- main results: after a family revocation -----

  /** The sessions `dead` are revoked, and their successors are among them. */
  ghost predicate DeadSet(sessions: Sessions, dead: set<int>) {
    forall id :: id in dead ==>
      && id in sessions && sessions[id].revokedAt.Some?
      && (sessions[id].successorId.Some? ==> sessions[id].successorId.value in dead)
  }

  ghost predicate OnDeadToken(sessions: Sessions, dead: set<int>, call: Call) {
    exists id :: id in dead && HasHash(sessions, id, call.hash)
  }

  /** Call `c`, if it presents a dead token, has not succeeded. */
  ghost predicate NotYetServed(sys: System, dead: set<int>, c: int) {
    c in sys.calls && OnDeadToken(sys.sessions, dead, sys.calls[c]) ==> !Succeeded(sys.calls[c])
  }

  lemma DeadStaysDead(sys: System, step: Step, dead: set<int>)
    requires Inv(sys) && Enabled(sys, step) && DeadSet(sys.sessions, dead)
    ensures DeadSet(Next(sys, step).sessions, dead)
  {
    StepEvolves(sys, step);
    var later := Next(sys, step).sessions;
    forall id | id in dead
      ensures id in later && later[id].revokedAt.Some?
      ensures later[id].successorId.Some? ==> later[id].successorId.value in dead
    {
      assert id in sys.sessions && Evolves(sys.sessions[id], later[id]);
      assert LinkOk(sys.sessions, sys.sessions[id]);
    }
  }

  /** A dead token never succeeds: the close finds it revoked, and its successor is revoked as well. */
  lemma DeadTokenFails(sys: System, step: Step, dead: set<int>, c: int)
    requires Inv(sys) && Enabled(sys, step) && DeadSet(sys.sessions, dead) && NotYetServed(sys, dead, c)
    ensures NotYetServed(Next(sys, step), dead, c)
  {
    var after := Next(sys, step);
    if c in after.calls && OnDeadToken(after.sessions, dead, after.calls[c]) {
      StepEvolves(sys, step);
      var id :| id in dead && HasHash(after.sessions, id, after.calls[c].hash);
      assert id in sys.sessions && Evolves(sys.sessions[id], after.sessions[id]);
      if c in sys.calls {
        assert HasHash(sys.sessions, id, sys.calls[c].hash);
        assert CallOk(sys.sessions, sys.calls[c]);
        match step
        case DoClose(_, newId, newHash, now) =>
          if step.call == c {
            assert sys.calls[c].id == id;
          }
        case DoResolve(_, now) =>
          if step.call == c {
            assert sys.calls[c].id == id;
          }
        case _ =>
      }
    }
  }

  lemma {:induction false} DeadTokenFailsForEver(sys: System, steps: seq<Step>, dead: set<int>, c: int)
    requires Inv(sys) && EnabledRun(sys, steps) && DeadSet(sys.sessions, dead) && NotYetServed(sys, dead, c)
    ensures NotYetServed(Run(sys, steps), dead, c)
    decreases |steps|
  {
    if steps != [] {
      StepKeeps(sys, steps[0]);
      DeadStaysDead(sys, steps[0], dead);
      DeadTokenFails(sys, steps[0], dead, c);
      DeadTokenFailsForEver(Next(sys, steps[0]), steps[1..], dead, c);
    }
  }

  /** Once every session of a user is revoked, no refresh that has not already succeeded ever succeeds with a token
      issued before, in any continuation: neither the calls begun later nor the ones still in flight. */
  lemma NoSuccessAfterFamilyRevocation(sys: System, steps: seq<Step>, userId: int, id: int, c: int)
    requires Inv(sys) && EnabledRun(sys, steps) && FamilyRevoked(sys.sessions, userId)
    requires id in sys.sessions && sys.sessions[id].userId == userId
    requires c in sys.calls ==> !Succeeded(sys.calls[c])
    requires c in Run(sys, steps).calls && Run(sys, steps).calls[c].hash == sys.sessions[id].tokenHash
    ensures !Succeeded(Run(sys, steps).calls[c])
  {
    var dead := set x | x in sys.sessions && sys.sessions[x].userId == userId;
    forall x | x in dead
      ensures sys.sessions[x].successorId.Some? ==> sys.sessions[x].successorId.value in dead
    {
      assert LinkOk(sys.sessions, sys.sessions[x]);
    }
    RunKeeps(sys, steps);
    DeadTokenFailsForEver(sys, steps, dead, c);
    assert Evolves(sys.sessions[id], Run(sys, steps).sessions[id]);
    assert id in dead && HasHash(Run(sys, steps).sessions, id, Run(sys, steps).calls[c].hash);
  }

  // ----- from the start -----

  /** Nobody has signed in yet. */
  function Started(users: set<int>): System {
    System(map[], map[], users)
  }

  lemma StartIsSound(users: set<int>)
    ensures Inv(Started(users))
  {
  }

  /** In every state reached from the start each session leads to exactly one session that is not superseded. */
  lemma EveryRunHasOneOpenEnd(users: set<int>, steps: seq<Step>, a: int, t: int)
    requires EnabledRun(Started(users), steps)
    requires a in Run(Started(users), steps).sessions && t in Run(Started(users), steps).sessions
    ensures var sessions := Run(Started(users), steps).sessions;
      SessionsOk(sessions) && (Reaches(sessions, a, t) && sessions[t].supersededAt.None? <==> t == Tail(sessions, a))
  {
    StartIsSound(users);
    RunKeeps(Started(users), steps);
    OneOpenEnd(Run(Started(users), steps).sessions, a, t);
  }

  /** After a run from the start and a logout everywhere, no call that has not succeeded before ever succeeds with a token
      issued before. */
  lemma LogoutAllIsFinal(users: set<int>, before: seq<Step>, userId: int, now: int, later: seq<Step>, id: int, c: int)
    requires EnabledRun(Started(users), before)
    requires EnabledRun(Next(Run(Started(users), before), LogoutAll(userId, now)), later)
    requires var reached := Run(Started(users), before);
      && id in reached.sessions && reached.sessions[id].userId == userId
      && (c in reached.calls ==> !Succeeded(reached.calls[c]))
      && c in Run(Next(reached, LogoutAll(userId, now)), later).calls
      && Run(Next(reached, LogoutAll(userId, now)), later).calls[c].hash == reached.sessions[id].tokenHash
    ensures !Succeeded(Run(Next(Run(Started(users), before), LogoutAll(userId, now)), later).calls[c])
  {
    var reached := Run(Started(users), before);
    StartIsSound(users);
    RunKeeps(Started(users), before);
    StepKeeps(reached, LogoutAll(userId, now));
    NoSuccessAfterFamilyRevocation(Next(reached, LogoutAll(userId, now)), later, userId, id, c);
  }
}
