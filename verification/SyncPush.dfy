/** Pushing batches of operations, each identified by an idempotency key. */
module SyncPush {
  import opened Wrappers

  datatype Operation = Operation(id: int, op: int, payload: int, baseVersion: int)

  /** How one handler call ends. A handler that does not apply the operation leaves the store alone. */
  datatype Handled<+S, +E> = Applies(store: S, entity: E) | Conflicts(code: int) | Refuses(code: int) | Crashes

  /** A handler sees the user, the operation and the store it finds. */
  type Handler<!S, !E> = (int, Operation, S) -> Handled<S, E>

  datatype Endpoint = PushEndpoint | OtherEndpoint

  datatype KeyRow<+E> = KeyRow(userId: int, endpoint: Endpoint, responseBody: E)

  datatype OpResult<+E> =
    | Applied(id: int, entity: E)
    | Duplicate(id: int, entity: E)
    | Conflict(id: int, code: int)
    | Rejected(id: int, code: int)

  /** The store, the idempotency keys, and the log of the operations that took effect, oldest first. */
  datatype Server<S, E> = Server(store: S, keys: map<int, KeyRow<E>>, effects: seq<int>)

  datatype Outcome = Completed | Stopped | Threw

  datatype Pushed<S, E> = Pushed(server: Server<S, E>, results: seq<OpResult<E>>, outcome: Outcome)

  const CLIENT_TOO_OLD := -1

  ghost predicate OwnKey<S, E>(server: Server<S, E>, userId: int, id: int) {
    id in server.keys && server.keys[id].userId == userId && server.keys[id].endpoint == PushEndpoint
  }

  /** What one operation does: nothing when its key is already there, and otherwise what its handler says. The key
      row is written after the effect, so a key that belongs to somebody else is only found out too late. */
  ghost function PushOne<S, E>(server: Server<S, E>, handler: Handler<S, E>, userId: int, op: Operation): Pushed<S, E> {
    if OwnKey(server, userId, op.id) then
      Pushed(server, [Duplicate(op.id, server.keys[op.id].responseBody)], Completed)
    else
      match handler(userId, op, server.store)
      case Applies(store, entity) =>
        if op.id in server.keys then Pushed(server.(store := store, effects := server.effects + [op.id]), [], Threw)
        else
          Pushed(Server(store, server.keys[op.id := KeyRow(userId, PushEndpoint, entity)], server.effects + [op.id]),
                 [Applied(op.id, entity)], Completed)
      case Conflicts(code) => Pushed(server, [Conflict(op.id, code)], Stopped)
      case Refuses(code) => Pushed(server, [Rejected(op.id, code)], Stopped)
      case Crashes => Pushed(server, [], Threw)
  }

  ghost function PushAll<S, E>(server: Server<S, E>, handler: Handler<S, E>, userId: int,
          ops: seq<Operation>): Pushed<S, E>
    decreases |ops|
  {
    if ops == [] then Pushed(server, [], Completed)
    else
      var first := PushOne(server, handler, userId, ops[0]);
      if first.outcome != Completed then first
      else
        var rest := PushAll(first.server, handler, userId, ops[1..]);
        rest.(results := first.results + rest.results)
  }

  /** `whole` is `rest` with the answers `sent` before it. */
  ghost predicate Resumes<S, E>(whole: Pushed<S, E>, sent: seq<OpResult<E>>, rest: Pushed<S, E>) {
    whole.server == rest.server && whole.outcome == rest.outcome && whole.results == sent + rest.results
  }

  class SyncService<S, E> {
    const handler: Handler<S, E>
    var store: S
    var keys: map<int, KeyRow<E>>
    ghost var effects: seq<int>

    constructor (handler: Handler<S, E>, store: S)
      ensures this.handler == handler && Snapshot() == Server(store, map[], [])
    {
      this.handler, this.store, keys, effects := handler, store, map[], [];
    }

    ghost function Snapshot(): Server<S, E>
      reads this
    {
      Server(store, keys, effects)
    }

    /** A batch from a client that is too old is rejected as a whole; any other batch is applied in order until an
        operation conflicts or is rejected. `threw` tells that a handler crashed and no response was sent. */
    method Push(userId: int, clientSupported: bool, operations: seq<Operation>)
      returns (results: seq<OpResult<E>>, stoppedAt: Option<nat>, threw: bool)
      modifies this`store, this`keys, this`effects
      ensures !clientSupported ==>
        && Snapshot() == old(Snapshot()) && stoppedAt == Some(0) && !threw && |results| == |operations|
        && forall i :: 0 <= i < |operations| ==> results[i] == Rejected(operations[i].id, CLIENT_TOO_OLD)
      ensures clientSupported ==>
        var pushed := PushAll(old(Snapshot()), handler, userId, operations);
        && Snapshot() == pushed.server && results == pushed.results
        && (threw <==> pushed.outcome == Threw)
        && (stoppedAt == if pushed.outcome == Stopped then Some(|results| - 1) else None)
    {
      threw, stoppedAt := false, None;
      if !clientSupported {
        results := seq(|operations|, i requires 0 <= i < |operations| => Rejected(operations[i].id, CLIENT_TOO_OLD));
        stoppedAt := Some(0);
        return;
      }
      results := [];
      ghost var start := Snapshot();
      assert operations[0..] == operations;
      for index := 0 to |operations|
        invariant Resumes(PushAll(start, handler, userId, operations), results,
                          PushAll(Snapshot(), handler, userId, operations[index..]))
        invariant |results| == index
      {
        assert operations[index..][0] == operations[index] && operations[index..][1..] == operations[index + 1..];
        var result, outcome := PushOperation(userId, operations[index]);
        results := results + result;
        if outcome == Stopped {
          stoppedAt := Some(index);
          return;
        } else if outcome == Threw {
          threw := true;
          return;
        }
      }
      assert operations[|operations|..] == [];
    }

    /** One operation of a batch: looked up by its key first, handed to its handler otherwise. */
    method PushOperation(userId: int, operation: Operation) returns (result: seq<OpResult<E>>, outcome: Outcome)
      modifies this`store, this`keys, this`effects
      ensures PushOne(old(Snapshot()), handler, userId, operation) == Pushed(Snapshot(), result, outcome)
      ensures |result| == if outcome == Threw then 0 else 1
    {
      if operation.id in keys {
        var existingKey := keys[operation.id];
        if existingKey.userId == userId && existingKey.endpoint == PushEndpoint {
          return [Duplicate(operation.id, existingKey.responseBody)], Completed;
        }
      }
      match handler(userId, operation, store) {
        case Applies(nextStore, entity) =>
          store := nextStore;
          effects := effects + [operation.id];
          if operation.id in keys {
            return [], Threw;
          }
          keys := keys[operation.id := KeyRow(userId, PushEndpoint, entity)];
          return [Applied(operation.id, entity)], Completed;
        case Conflicts(code) =>
          return [Conflict(operation.id, code)], Stopped;
        case Refuses(code) =>
          return [Rejected(operation.id, code)], Stopped;
        case Crashes =>
          return [], Threw;
      }
    }
  }

  // ----- the shape of a response -----

  predicate IsDone<E>(r: OpResult<E>) {
    r.Applied? || r.Duplicate?
  }

  ghost predicate AllDone<E>(results: seq<OpResult<E>>) {
    forall i :: 0 <= i < |results| ==> IsDone(results[i])
  }

  /** Results are a run of applied or duplicate entries, ended by at most one conflict or rejection. */
  ghost predicate WellShaped<E>(results: seq<OpResult<E>>, outcome: Outcome, asked: nat) {
    match outcome
    case Completed => |results| == asked && AllDone(results)
    case Stopped => 0 < |results| <= asked && AllDone(results[..|results| - 1]) && !IsDone(results[|results| - 1])
    case Threw => |results| < asked && AllDone(results)
  }

  lemma WellShapedMore<E>(first: OpResult<E>, rest: seq<OpResult<E>>, outcome: Outcome, asked: nat)
    requires IsDone(first) && WellShaped(rest, outcome, asked)
    ensures WellShaped([first] + rest, outcome, asked + 1)
  {
    if rest != [] {
      assert ([first] + rest)[..|rest|] == [first] + rest[..|rest| - 1];
    }
  }

  /** Every response answers the operations in order, up to the first one that is not applied. */
  lemma {:induction false} ResponseShape<S, E>(server: Server<S, E>, handler: Handler<S, E>, userId: int,
          ops: seq<Operation>)
    ensures var pushed := PushAll(server, handler, userId, ops);
      && WellShaped(pushed.results, pushed.outcome, |ops|)
      && (forall i :: 0 <= i < |pushed.results| ==> pushed.results[i].id == ops[i].id)
    decreases |ops|
  {
    if ops != [] {
      var first := PushOne(server, handler, userId, ops[0]);
      if first.outcome == Completed {
        ResponseShape(first.server, handler, userId, ops[1..]);
        var rest := PushAll(first.server, handler, userId, ops[1..]);
        assert first.results == [first.results[0]];
        WellShapedMore(first.results[0], rest.results, rest.outcome, |ops| - 1);
      }
    }
  }

  lemma {:induction false} PushConcat<S, E>(server: Server<S, E>, handler: Handler<S, E>, userId: int,
                                            front: seq<Operation>, back: seq<Operation>)
    ensures var pushed := PushAll(server, handler, userId, front);
      PushAll(server, handler, userId, front + back)
      == if pushed.outcome != Completed then pushed
         else
           var rest := PushAll(pushed.server, handler, userId, back);
           rest.(results := pushed.results + rest.results)
    decreases |front|
  {
    if front == [] {
      assert front + back == back;
    } else {
      var first := PushOne(server, handler, userId, front[0]);
      assert (front + back)[1..] == front[1..] + back;
      if first.outcome == Completed {
        PushConcat(first.server, handler, userId, front[1..], back);
      }
    }
  }

  /** Nothing from the stopping operation on takes effect: the server is as if the batch had ended before it. */
  lemma {:induction false} NothingAfterStop<S, E>(server: Server<S, E>, handler: Handler<S, E>, userId: int,
          ops: seq<Operation>)
    requires PushAll(server, handler, userId, ops).outcome == Stopped
    ensures var pushed := PushAll(server, handler, userId, ops);
      && 0 < |pushed.results| <= |ops|
      && var before := PushAll(server, handler, userId, ops[..|pushed.results| - 1]);
         before.outcome == Completed && before.server == pushed.server
    decreases |ops|
  {
    var first := PushOne(server, handler, userId, ops[0]);
    if first.outcome == Completed {
      NothingAfterStop(first.server, handler, userId, ops[1..]);
      var rest := PushAll(first.server, handler, userId, ops[1..]);
      var n := |rest.results|;
      assert ops[..n][0] == ops[0];
      assert ops[..n][1..] == ops[1..][..n - 1];
    }
  }

  // ----- retries -----

  /** A completed batch leaves its keys behind. */
  lemma {:induction false} CompletedLeavesKeys<S, E>(server: Server<S, E>, handler: Handler<S, E>, userId: int,
          ops: seq<Operation>)
    requires PushAll(server, handler, userId, ops).outcome == Completed
    ensures var after := PushAll(server, handler, userId, ops).server;
      && (forall id :: id in server.keys ==> id in after.keys && after.keys[id] == server.keys[id])
      && (forall i :: 0 <= i < |ops| ==> OwnKey(after, userId, ops[i].id))
    decreases |ops|
  {
    if ops != [] {
      var first := PushOne(server, handler, userId, ops[0]);
      CompletedLeavesKeys(first.server, handler, userId, ops[1..]);
      var after := PushAll(first.server, handler, userId, ops[1..]).server;
      assert OwnKey(first.server, userId, ops[0].id);
      forall i | 0 <= i < |ops|
        ensures OwnKey(after, userId, ops[i].id)
      {
        if i > 0 {
          assert ops[i] == ops[1..][i - 1];
        }
      }
    }
  }

  /** The key of the operation holds the response that was given to it. */
  ghost predicate Recorded<S, E>(server: Server<S, E>, op: Operation, result: OpResult<E>) {
    IsDone(result) && op.id in server.keys && server.keys[op.id].responseBody == result.entity
  }

  /** The recorded responses are the original ones. */
  lemma {:induction false} KeysHoldResponses<S, E>(server: Server<S, E>, handler: Handler<S, E>, userId: int,
          ops: seq<Operation>)
    requires PushAll(server, handler, userId, ops).outcome == Completed
    ensures var pushed := PushAll(server, handler, userId, ops);
      && |pushed.results| == |ops| && AllDone(pushed.results)
      && (forall i :: 0 <= i < |ops| ==> Recorded(pushed.server, ops[i], pushed.results[i]))
    decreases |ops|
  {
    ResponseShape(server, handler, userId, ops);
    if ops != [] {
      var first := PushOne(server, handler, userId, ops[0]);
      var rest := PushAll(first.server, handler, userId, ops[1..]);
      KeysHoldResponses(first.server, handler, userId, ops[1..]);
      CompletedLeavesKeys(first.server, handler, userId, ops[1..]);
      var pushed := PushAll(server, handler, userId, ops);
      assert pushed.results == first.results + rest.results;
      forall i | 0 <= i < |ops|
        ensures Recorded(pushed.server, ops[i], pushed.results[i])
      {
        if i > 0 {
          assert ops[i] == ops[1..][i - 1] && pushed.results[i] == rest.results[i - 1];
        } else {
          assert pushed.results[0] == first.results[0];
        }
      }
    }
  }

  /** Operations whose keys are all there answer as duplicates and change nothing. */
  lemma {:induction false} KnownBatchIsReplay<S, E>(server: Server<S, E>, handler: Handler<S, E>, userId: int,
          ops: seq<Operation>)
    requires forall i :: 0 <= i < |ops| ==> OwnKey(server, userId, ops[i].id)
    ensures PushAll(server, handler, userId, ops)
      == Pushed(server, seq(|ops|, i requires 0 <= i < |ops| && OwnKey(server, userId, ops[i].id) =>
                Duplicate(ops[i].id, server.keys[ops[i].id].responseBody)), Completed)
    decreases |ops|
  {
    if ops != [] {
      assert forall i :: 0 <= i < |ops[1..]| ==> ops[1..][i] == ops[i + 1];
      KnownBatchIsReplay(server, handler, userId, ops[1..]);
    }
  }

  /** Pushing a completed batch again changes nothing and answers every operation with its original response. */
  lemma RepushIsHarmless<S, E>(server: Server<S, E>, handler: Handler<S, E>, userId: int, ops: seq<Operation>)
    requires PushAll(server, handler, userId, ops).outcome == Completed
    ensures var pushed := PushAll(server, handler, userId, ops);
      var again := PushAll(pushed.server, handler, userId, ops);
      && again.server == pushed.server && again.outcome == Completed
      && |again.results| == |ops| == |pushed.results|
      && forall i :: 0 <= i < |ops| ==>
           IsDone(pushed.results[i]) && again.results[i] == Duplicate(ops[i].id, pushed.results[i].entity)
  {
    CompletedLeavesKeys(server, handler, userId, ops);
    KeysHoldResponses(server, handler, userId, ops);
    KnownBatchIsReplay(PushAll(server, handler, userId, ops).server, handler, userId, ops);
  }

  /** A push interrupted after any completed prefix and then retried in full ends where the uninterrupted push does,
      with the same outcome and as many answers. */
  lemma RetryResumes<S, E>(server: Server<S, E>, handler: Handler<S, E>, userId: int, done: seq<Operation>,
          rest: seq<Operation>)
    requires PushAll(server, handler, userId, done).outcome == Completed
    ensures var interrupted := PushAll(server, handler, userId, done).server;
      var retried := PushAll(interrupted, handler, userId, done + rest);
      var whole := PushAll(server, handler, userId, done + rest);
      && retried.server == whole.server && retried.outcome == whole.outcome
      && |retried.results| == |whole.results|
      && |done| <= |whole.results|
      && retried.results[|done|..] == whole.results[|done|..]
  {
    var interrupted := PushAll(server, handler, userId, done).server;
    RepushIsHarmless(server, handler, userId, done);
    PushConcat(server, handler, userId, done, rest);
    PushConcat(interrupted, handler, userId, done, rest);
  }

  // ----- at most once, over any sequence of pushes -----

  datatype Batch = Batch(userId: int, ops: seq<Operation>)

  ghost function RunPushes<S, E>(server: Server<S, E>, handler: Handler<S, E>, batches: seq<Batch>): Server<S, E>
    decreases |batches|
  {
    if batches == [] then server
    else RunPushes(PushAll(server, handler, batches[0].userId, batches[0].ops).server, handler, batches[1..])
  }

  /** Operation ids are not shared between users. */
  ghost predicate IdsOwned(owner: int -> int, batches: seq<Batch>) {
    forall b, i :: 0 <= b < |batches| && 0 <= i < |batches[b].ops| ==> owner(batches[b].ops[i].id) == batches[b].userId
  }

  ghost predicate Once(effects: seq<int>) {
    forall i, j :: 0 <= i < j < |effects| ==> effects[i] != effects[j]
  }

  ghost predicate Inv<S, E>(server: Server<S, E>, owner: int -> int) {
    && Once(server.effects)
    && (forall id :: id in server.effects ==> id in server.keys)
    && (forall id :: id in server.keys ==> server.keys[id].userId == owner(id) && server.keys[id].endpoint == PushEndpoint)
  }

  lemma PushOneKeeps<S, E>(server: Server<S, E>, handler: Handler<S, E>, userId: int, op: Operation, owner: int -> int)
    requires Inv(server, owner) && owner(op.id) == userId
    ensures Inv(PushOne(server, handler, userId, op).server, owner)
  {
  }

  lemma {:induction false} PushAllKeeps<S, E>(server: Server<S, E>, handler: Handler<S, E>, userId: int,
          ops: seq<Operation>, owner: int -> int)
    requires Inv(server, owner) && (forall i :: 0 <= i < |ops| ==> owner(ops[i].id) == userId)
    ensures Inv(PushAll(server, handler, userId, ops).server, owner)
    decreases |ops|
  {
    if ops != [] {
      PushOneKeeps(server, handler, userId, ops[0], owner);
      PushAllKeeps(PushOne(server, handler, userId, ops[0]).server, handler, userId, ops[1..], owner);
    }
  }

  /** Over any sequence of batches, retried, overlapping or interrupted by crashes, no operation takes effect twice. */
  lemma {:induction false} AtMostOnce<S, E>(server: Server<S, E>, handler: Handler<S, E>, batches: seq<Batch>,
          owner: int -> int)
    requires Inv(server, owner) && IdsOwned(owner, batches)
    ensures Inv(RunPushes(server, handler, batches), owner) && Once(RunPushes(server, handler, batches).effects)
    decreases |batches|
  {
    if batches != [] {
      PushAllKeeps(server, handler, batches[0].userId, batches[0].ops, owner);
      assert forall b :: 0 <= b < |batches[1..]| ==> batches[1..][b] == batches[b + 1];
      AtMostOnce(PushAll(server, handler, batches[0].userId, batches[0].ops).server, handler, batches[1..], owner);
    }
  }

  /** How often an operation takes effect when it is pushed twice and its handler applies both times: once if the key
      was free, never if the user had already used it, and twice if the key belongs to another user or endpoint. */
  lemma PushedTwice<S(!new), E>(server: Server<S, E>, handler: Handler<S, E>, userId: int, op: Operation)
    requires forall store :: handler(userId, op, store).Applies?
    ensures var once := PushAll(server, handler, userId, [op]).server;
      var twice := PushAll(once, handler, userId, [op]).server;
      |twice.effects| - |server.effects|
      == if op.id !in server.keys then 1 else if OwnKey(server, userId, op.id) then 0 else 2
  {
    SinglePush(server, handler, userId, op);
    var once := PushOne(server, handler, userId, op).server;
    SinglePush(once, handler, userId, op);
    assert handler(userId, op, server.store).Applies? && handler(userId, op, once.store).Applies?;
    assert OwnKey(once, userId, op.id) <==> op.id !in server.keys || OwnKey(server, userId, op.id);
  }

  lemma SinglePush<S, E>(server: Server<S, E>, handler: Handler<S, E>, userId: int, op: Operation)
    ensures PushAll(server, handler, userId, [op]).server == PushOne(server, handler, userId, op).server
  {
    var first := PushOne(server, handler, userId, op);
    assert [op][1..] == [];
    assert PushAll(first.server, handler, userId, []).server == first.server;
  }

  /** A handler that applies everything and counts. */
  function CountUp(userId: int, op: Operation, store: int): Handled<int, int> {
    Applies(store + 1, store)
  }

  lemma {:induction false} RunThree<S, E>(server: Server<S, E>, handler: Handler<S, E>, a: Batch, b: Batch, c: Batch)
    ensures RunPushes(server, handler, [a, b, c])
         == PushAll(PushAll(PushAll(server, handler, a.userId, a.ops).server, handler, b.userId, b.ops).server,
                    handler, c.userId, c.ops).server
  {
    var after := PushAll(server, handler, a.userId, a.ops).server;
    assert [a, b, c][1..] == [b, c] && [b, c][1..] == [c] && [c][1..] == [];
    assert RunPushes(after, handler, [b, c]) == RunPushes(PushAll(after, handler, b.userId, b.ops).server, handler, [c]);
  }

  /** From an empty server: `first` pushes an operation, then `second` pushes one with the same id and retries it. The
      operation of `second` takes effect twice. */
  lemma IdOfTwoUsers(first: int, second: int, op: Operation)
    requires first != second
    ensures var server := RunPushes(Server(0, map[], []), CountUp,
                                    [Batch(first, [op]), Batch(second, [op]), Batch(second, [op])]);
      server.store == 3 && server.effects == [op.id, op.id, op.id]
  {
    var empty := Server(0, map[], []);
    RunThree(empty, CountUp, Batch(first, [op]), Batch(second, [op]), Batch(second, [op]));
    var one := PushOne(empty, CountUp, first, op).server;
    SinglePush(empty, CountUp, first, op);
    assert one == Server(1, map[op.id := KeyRow(first, PushEndpoint, 0)], [op.id]);
    var two := PushOne(one, CountUp, second, op).server;
    SinglePush(one, CountUp, second, op);
    assert two == one.(store := 2, effects := [op.id, op.id]);
    SinglePush(two, CountUp, second, op);
  }
}
