/** Import batches: staged by an upload, committed row by row, reverted as a whole. */
module ImportBatches {
  import opened Wrappers
  import opened ImportDedupe

  datatype Tx = Tx(
    accountId: Id, candidate: Candidate, normalizedLabel: string, fingerprint: Fingerprint, importBatchId: Option<Id>,
    updatedAt: int, deleted: bool)

  datatype BatchStatus = AwaitingReview | Completed | Reverted

  datatype Batch = Batch(
    accountId: Id, fileHash: string, status: BatchStatus, totalRows: nat, importedRows: nat, duplicateRows: nat,
    errorRows: nat, completedAt: int)

  datatype Staged = Staged(accountId: Id, toImport: seq<PreviewRow>, duplicates: seq<DuplicateRow>, errors: seq<ErrorRow>)

  /** `nextId` is above every transaction id handed out so far. */
  datatype State = State(txs: map<Id, Tx>, batches: map<Id, Batch>, staged: map<Id, Staged>, nextId: Id)

  datatype Error =
    | CurrencyNotFound
    | FileAlreadyImported
    | FileEmpty
    | BatchNotFound
    | PreviewExpired
    | InvalidTransaction
    | BatchNotRevertible
    | BatchHasModifiedTransactions

  datatype Outcome = Outcome(state: State, error: Option<Error>)

  predicate IdsOk(s: State) {
    forall id :: id in s.txs ==> id < s.nextId
  }

  // ----- what an upload compares with -----

  function EntryOf(id: Id, tx: Tx): Existing {
    Existing(id, tx.accountId, tx.candidate.amountMinor, tx.candidate.occurredAt, tx.normalizedLabel, tx.fingerprint)
  }

  predicate IsLiveIn(txs: map<Id, Tx>, id: Id, accountId: Id) {
    id in txs && !txs[id].deleted && txs[id].accountId == accountId
  }

  /** The live transactions of an account, in any order. */
  ghost predicate IsListing(existing: seq<Existing>, txs: map<Id, Tx>, accountId: Id) {
    forall e :: e in existing <==> IsLiveIn(txs, e.id, accountId) && e == EntryOf(e.id, txs[e.id])
  }

  // ----- upload -----

  predicate AlreadyImported(s: State, fileHash: string) {
    exists b :: b in s.batches && s.batches[b].fileHash == fileHash && s.batches[b].status == Completed
  }

  /** The batch and its staging: the three lists, and how long they are. */
  function Stage(s: State, lists: Lists, accountId: Id, totalRows: nat, fileHash: string, batchId: Id): State {
    s.(batches := s.batches[batchId := Batch(accountId, fileHash, AwaitingReview, totalRows, 0, |lists.duplicates|,
                                             |lists.errors|, 0)],
       staged := s.staged[batchId := Staged(accountId, lists.toImport, lists.duplicates, lists.errors)])
  }

  function Upload(s: State, reader: Reader, existing: seq<Existing>, accountId: Id, currencyKnown: bool,
          hasHeaders: bool, rows: seq<Row>, header: int, fileHash: string, force: bool, batchId: Id): Outcome
  {
    if !currencyKnown then Outcome(s, Some(CurrencyNotFound))
    else if !force && AlreadyImported(s, fileHash) then Outcome(s, Some(FileAlreadyImported))
    else if !hasHeaders then Outcome(s, Some(FileEmpty))
    else
      Outcome(Stage(s, Classify(reader, existing, accountId, rows, header, |rows|), accountId, |rows|, fileHash, batchId), None)
  }

  // ----- commit -----

  function Accepted(rows: seq<PreviewRow>, excluded: set<int>): seq<PreviewRow> {
    if rows == [] then []
    else
      Accepted(rows[..|rows| - 1], excluded)
      + if rows[|rows| - 1].rowIndex in excluded then [] else [rows[|rows| - 1]]
  }

  /** How many rows are created before the first one the account refuses. */
  function ValidPrefix(rows: seq<PreviewRow>, valid: Candidate -> bool): (n: nat)
    ensures n <= |rows|
    ensures forall k :: 0 <= k < n ==> valid(rows[k].candidate)
    ensures n < |rows| ==> !valid(rows[n].candidate)
  {
    if rows == [] || !valid(rows[0].candidate) then 0 else 1 + ValidPrefix(rows[1..], valid)
  }

  /** Label and fingerprint are computed again when the transaction is created. */
  function Created(reader: Reader, accountId: Id, batchId: Id, candidate: Candidate, now: int): Tx {
    Tx(accountId, candidate, reader.LabelOf(candidate), reader.FingerprintOf(candidate), Some(batchId), now, false)
  }

  function WithRows(s: State, reader: Reader, accountId: Id, batchId: Id, rows: seq<PreviewRow>, now: int): State {
    if rows == [] then s
    else
      var before := WithRows(s, reader, accountId, batchId, rows[..|rows| - 1], now);
      before.(txs := before.txs[before.nextId := Created(reader, accountId, batchId, rows[|rows| - 1].candidate, now)],
              nextId := before.nextId + 1)
  }

  /** A refused row stops the commit: the rows before it stay, and so does the staged batch. */
  function Commit(s: State, reader: Reader, batchId: Id, excluded: set<int>, valid: Candidate -> bool, now: int,
      completedAt: int): Outcome
  {
    if batchId !in s.batches then Outcome(s, Some(BatchNotFound))
    else if batchId !in s.staged then Outcome(s, Some(PreviewExpired))
    else
      var staged := s.staged[batchId];
      var rows := Accepted(staged.toImport, excluded);
      var n := ValidPrefix(rows, valid);
      var written := WithRows(s, reader, staged.accountId, batchId, rows[..n], now);
      if n < |rows| then Outcome(written, Some(InvalidTransaction))
      else
        Outcome(written.(batches := s.batches[batchId := s.batches[batchId].(
                           status := Completed, importedRows := |rows|, duplicateRows := |staged.duplicates|,
                           errorRows := |staged.errors|, completedAt := completedAt)],
                         staged := s.staged - {batchId}), None)
  }

  // ----- revert -----

  predicate OfBatch(txs: map<Id, Tx>, id: Id, batchId: Id) {
    id in txs && !txs[id].deleted && txs[id].importBatchId == Some(batchId)
  }

  function WithoutBatch(txs: map<Id, Tx>, batchId: Id): map<Id, Tx> {
    map id | id in txs :: if OfBatch(txs, id, batchId) then txs[id].(deleted := true) else txs[id]
  }

  function Revert(s: State, batchId: Id): Outcome {
    if batchId !in s.batches then Outcome(s, Some(BatchNotFound))
    else if s.batches[batchId].status != Completed then Outcome(s, Some(BatchNotRevertible))
    else if exists id :: id in s.txs && OfBatch(s.txs, id, batchId) && s.txs[id].updatedAt > s.batches[batchId].completedAt then
      Outcome(s, Some(BatchHasModifiedTransactions))
    else
      Outcome(s.(txs := WithoutBatch(s.txs, batchId),
                 batches := s.batches[batchId := s.batches[batchId].(status := Reverted)]), None)
  }

  // ----- what a commit stores -----

  lemma {:induction false} WithRowsKeeps(s: State, reader: Reader, accountId: Id, batchId: Id, rows: seq<PreviewRow>,
          now: int)
    requires IdsOk(s)
    ensures var after := WithRows(s, reader, accountId, batchId, rows, now);
      && IdsOk(after) && after.nextId == s.nextId + |rows| && after.batches == s.batches && after.staged == s.staged
      && (forall id :: id in s.txs ==> id in after.txs && after.txs[id] == s.txs[id])
      && (forall id :: id in after.txs && id !in s.txs ==> s.nextId <= id)
  {
    if rows != [] {
      WithRowsKeeps(s, reader, accountId, batchId, rows[..|rows| - 1], now);
    }
  }

  lemma {:induction false} RowIsStored(s: State, reader: Reader, accountId: Id, batchId: Id, rows: seq<PreviewRow>,
          now: int, k: nat)
    requires IdsOk(s) && k < |rows|
    ensures var after := WithRows(s, reader, accountId, batchId, rows, now);
      s.nextId + k in after.txs && after.txs[s.nextId + k] == Created(reader, accountId, batchId, rows[k].candidate, now)
    decreases |rows|
  {
    var last := |rows| - 1;
    WithRowsKeeps(s, reader, accountId, batchId, rows[..last], now);
    if k < last {
      RowIsStored(s, reader, accountId, batchId, rows[..last], now, k);
    }
  }

  lemma {:induction false} AcceptedAll(rows: seq<PreviewRow>)
    ensures Accepted(rows, {}) == rows
  {
    if rows != [] {
      AcceptedAll(rows[..|rows| - 1]);
      assert rows == rows[..|rows| - 1] + [rows[|rows| - 1]];
    }
  }

  /** The fingerprint of a staged row is the one its transaction will get. */
  lemma ImportedFingerprints(reader: Reader, existing: seq<Existing>, accountId: Id, rows: seq<Row>, header: int,
          p: PreviewRow)
    requires p in Classify(reader, existing, accountId, rows, header, |rows|).toImport
    ensures p.fingerprint == reader.FingerprintOf(p.candidate)
  {
    ImportedByRule(reader, existing, accountId, rows, header, |rows|, p);
  }

  /** Upload a file, commit all its rows, upload it again with force: there is nothing to import. */
  lemma ForcedReuploadImportsNothing(s: State, reader: Reader, accountId: Id, rows: seq<Row>, header: int,
          fileHash: string,
      batchId: Id, valid: Candidate -> bool, now: int, completedAt: int, before: seq<Existing>, after: seq<Existing>)
    requires IdsOk(s) && IsListing(before, s.txs, accountId)
    requires var uploaded := Upload(s, reader, before, accountId, true, true, rows, header, fileHash, true, batchId).state;
      var committed := Commit(uploaded, reader, batchId, {}, valid, now, completedAt);
      committed.error == None && IsListing(after, committed.state.txs, accountId)
    ensures Classify(reader, after, accountId, rows, header, |rows|).toImport == []
  {
    var uploaded := Upload(s, reader, before, accountId, true, true, rows, header, fileHash, true, batchId).state;
    var committed := Commit(uploaded, reader, batchId, {}, valid, now, completedAt).state;
    var toImport := Classify(reader, before, accountId, rows, header, |rows|).toImport;
    AcceptedAll(toImport);
    assert toImport[..|toImport|] == toImport;
    assert committed.txs == WithRows(uploaded, reader, accountId, batchId, toImport, now).txs;
    forall p | p in toImport ensures p.fingerprint == reader.FingerprintOf(p.candidate) {
      ImportedFingerprints(reader, before, accountId, rows, header, p);
    }
    CommittedIsStored(uploaded, reader, accountId, batchId, toImport, now, before, after);
    ReuploadImportsNothing(reader, before, after, accountId, rows, header);
  }

  lemma CommittedIsStored(s: State, reader: Reader, accountId: Id, batchId: Id, toImport: seq<PreviewRow>, now: int,
      before: seq<Existing>, after: seq<Existing>)
    requires IdsOk(s) && IsListing(before, s.txs, accountId)
    requires IsListing(after, WithRows(s, reader, accountId, batchId, toImport, now).txs, accountId)
    requires forall p :: p in toImport ==> p.fingerprint == reader.FingerprintOf(p.candidate)
    ensures forall e :: e in before ==> e in after
    ensures forall p :: p in toImport ==> Stored(after, p.fingerprint)
  {
    var txs := WithRows(s, reader, accountId, batchId, toImport, now).txs;
    WithRowsKeeps(s, reader, accountId, batchId, toImport, now);
    forall e | e in before ensures e in after {
      assert IsLiveIn(txs, e.id, accountId);
    }
    forall p | p in toImport ensures Stored(after, p.fingerprint) {
      var k: nat :| k < |toImport| && toImport[k] == p;
      var id := s.nextId + k;
      RowIsStored(s, reader, accountId, batchId, toImport, now, k);
      assert EntryOf(id, txs[id]) in after;
    }
  }

  // ----- what a revert undoes -----

  predicate Untouched(txs: map<Id, Tx>, batchId: Id) {
    forall id :: id in txs ==> txs[id].importBatchId != Some(batchId) || txs[id].deleted
  }

  /** A batch committed and reverted leaves the live transactions as they were. */
  lemma RevertUndoesCommit(s: State, reader: Reader, batchId: Id, excluded: set<int>, valid: Candidate -> bool,
          now: int, completedAt: int, id: Id, accountId: Id)
    requires IdsOk(s) && Untouched(s.txs, batchId) && now <= completedAt
    requires Commit(s, reader, batchId, excluded, valid, now, completedAt).error == None
    ensures var committed := Commit(s, reader, batchId, excluded, valid, now, completedAt).state;
      var reverted := Revert(committed, batchId);
      && reverted.error == None && reverted.state.batches[batchId].status == Reverted
      && (IsLiveIn(reverted.state.txs, id, accountId) <==> IsLiveIn(s.txs, id, accountId))
      && (IsLiveIn(s.txs, id, accountId) ==> reverted.state.txs[id] == s.txs[id])
  {
    var staged := s.staged[batchId];
    var rows := Accepted(staged.toImport, excluded);
    assert rows[..|rows|] == rows;
    WithRowsKeeps(s, reader, staged.accountId, batchId, rows, now);
    var committed := Commit(s, reader, batchId, excluded, valid, now, completedAt).state;
    NewRowsOfBatch(s, reader, staged.accountId, batchId, rows, now);
    if id in committed.txs && id !in s.txs {
      assert OfBatch(committed.txs, id, batchId);
    }
  }

  lemma {:induction false} NewRowsOfBatch(s: State, reader: Reader, accountId: Id, batchId: Id, rows: seq<PreviewRow>,
          now: int)
    requires IdsOk(s)
    ensures var after := WithRows(s, reader, accountId, batchId, rows, now);
      forall id :: id in after.txs && id !in s.txs ==> OfBatch(after.txs, id, batchId) && after.txs[id].updatedAt == now
  {
    if rows != [] {
      NewRowsOfBatch(s, reader, accountId, batchId, rows[..|rows| - 1], now);
      WithRowsKeeps(s, reader, accountId, batchId, rows[..|rows| - 1], now);
    }
  }

  // ----- a commit that stops half-way -----

  function Candidates(rows: seq<PreviewRow>): seq<Candidate> {
    seq(|rows|, i requires 0 <= i < |rows| => rows[i].candidate)
  }

  /** The ids from `from` on hold live transactions of the batch with these candidates, in this order. */
  predicate HoldsInOrder(txs: map<Id, Tx>, from: Id, candidates: seq<Candidate>, batchId: Id) {
    forall id :: from <= id < from + |candidates| ==> OfBatch(txs, id, batchId) && txs[id].candidate == candidates[id - from]
  }

  /** What was created between two states, in the order of the ids. */
  function CreatedBetween(before: State, after: State): seq<Candidate>
    requires before.nextId <= after.nextId && forall id :: before.nextId <= id < after.nextId ==> id in after.txs
  {
    seq(after.nextId - before.nextId, k requires 0 <= k < after.nextId - before.nextId =>
      after.txs[before.nextId + k].candidate)
  }

  lemma RowHeld(s: State, reader: Reader, accountId: Id, batchId: Id, rows: seq<PreviewRow>, now: int, id: Id)
    requires IdsOk(s) && s.nextId <= id < s.nextId + |rows|
    ensures var txs := WithRows(s, reader, accountId, batchId, rows, now).txs;
      OfBatch(txs, id, batchId) && txs[id].candidate == Candidates(rows)[id - s.nextId]
  {
    RowIsStored(s, reader, accountId, batchId, rows, now, id - s.nextId);
  }

  lemma RowsHeldInOrder(s: State, reader: Reader, accountId: Id, batchId: Id, rows: seq<PreviewRow>, now: int)
    requires IdsOk(s)
    ensures HoldsInOrder(WithRows(s, reader, accountId, batchId, rows, now).txs, s.nextId, Candidates(rows), batchId)
  {
    forall id | s.nextId <= id < s.nextId + |rows|
      ensures var txs := WithRows(s, reader, accountId, batchId, rows, now).txs;
        OfBatch(txs, id, batchId) && txs[id].candidate == Candidates(rows)[id - s.nextId]
    {
      RowHeld(s, reader, accountId, batchId, rows, now, id);
    }
  }

  /** A commit writes the rows before the first refused one, and nothing of the batch or its staging when there is one. */
  lemma CommitWrites(s: State, reader: Reader, batchId: Id, excluded: set<int>, valid: Candidate -> bool, now: int,
      completedAt: int)
    requires IdsOk(s) && batchId in s.batches && batchId in s.staged
    ensures var rows := Accepted(s.staged[batchId].toImport, excluded);
      var n := ValidPrefix(rows, valid);
      var done := Commit(s, reader, batchId, excluded, valid, now, completedAt);
      && IdsOk(done.state) && done.state.nextId == s.nextId + n
      && HoldsInOrder(done.state.txs, s.nextId, Candidates(rows[..n]), batchId)
      && (forall id :: id in s.txs ==> id in done.state.txs && done.state.txs[id] == s.txs[id])
      && (done.error == None <==> n == |rows|)
      && (done.error != None ==>
            done.error == Some(InvalidTransaction) && done.state == s.(txs := done.state.txs, nextId := s.nextId + n))
  {
    var staged := s.staged[batchId];
    var rows := Accepted(staged.toImport, excluded);
    var n := ValidPrefix(rows, valid);
    WithRowsKeeps(s, reader, staged.accountId, batchId, rows[..n], now);
    RowsHeldInOrder(s, reader, staged.accountId, batchId, rows[..n], now);
  }

  /** A commit that fails is rolled back exactly when its first row is the refused one. */
  lemma FailedCommitRollsBackIff(s: State, reader: Reader, batchId: Id, excluded: set<int>, valid: Candidate -> bool,
          now: int, completedAt: int)
    requires IdsOk(s) && batchId in s.batches && batchId in s.staged
    requires Commit(s, reader, batchId, excluded, valid, now, completedAt).error != None
    ensures Commit(s, reader, batchId, excluded, valid, now, completedAt).state == s
       <==> ValidPrefix(Accepted(s.staged[batchId].toImport, excluded), valid) == 0
  {
    CommitWrites(s, reader, batchId, excluded, valid, now, completedAt);
  }

  /** A commit that fails and a later one that succeeds, with other rows excluded or other rules of the account: together
      they create the rows before the refused one and then every accepted row, so each accepted row is created once if and
      only if the first attempt stopped at its first row. */
  lemma RetriedCommitDuplicates(s: State, reader: Reader, batchId: Id, excluded: set<int>, valid: Candidate -> bool,
          now: int, excludedLater: set<int>, validLater: Candidate -> bool, later: int, completedAt: int)
    requires IdsOk(s) && batchId in s.batches && batchId in s.staged
    requires var failed := Commit(s, reader, batchId, excluded, valid, now, now);
      failed.error != None && Commit(failed.state, reader, batchId, excludedLater, validLater, later, completedAt).error == None
    ensures var rows := Accepted(s.staged[batchId].toImport, excluded);
      var rowsLater := Accepted(s.staged[batchId].toImport, excludedLater);
      var n := ValidPrefix(rows, valid);
      var failed := Commit(s, reader, batchId, excluded, valid, now, now).state;
      var retried := Commit(failed, reader, batchId, excludedLater, validLater, later, completedAt).state;
      && IdsOk(retried) && retried.nextId == s.nextId + n + |rowsLater|
      && HoldsInOrder(retried.txs, s.nextId, Candidates(rows[..n]) + Candidates(rowsLater), batchId)
      && CreatedBetween(s, retried) == Candidates(rows[..n]) + Candidates(rowsLater)
      && (multiset(CreatedBetween(s, retried)) == multiset(Candidates(rowsLater)) <==> n == 0)
  {
    var rows := Accepted(s.staged[batchId].toImport, excluded);
    var rowsLater := Accepted(s.staged[batchId].toImport, excludedLater);
    var n := ValidPrefix(rows, valid);
    var failed := Commit(s, reader, batchId, excluded, valid, now, now).state;
    CommitWrites(s, reader, batchId, excluded, valid, now, now);
    CommitWrites(failed, reader, batchId, excludedLater, validLater, later, completedAt);
    assert rowsLater[..|rowsLater|] == rowsLater;
    var retried := Commit(failed, reader, batchId, excludedLater, validLater, later, completedAt).state;
    HeldTogether(s, failed, retried, Candidates(rows[..n]), Candidates(rowsLater), batchId);
    assert |multiset(CreatedBetween(s, retried))| == n + |rowsLater|;
    assert |multiset(Candidates(rowsLater))| == |rowsLater|;
    if n == 0 {
      assert Candidates(rows[..n]) + Candidates(rowsLater) == Candidates(rowsLater);
    }
  }

  lemma HeldTogether(s: State, failed: State, retried: State, first: seq<Candidate>, second: seq<Candidate>,
          batchId: Id)
    requires failed.nextId == s.nextId + |first| && retried.nextId == failed.nextId + |second|
    requires HoldsInOrder(failed.txs, s.nextId, first, batchId) && HoldsInOrder(retried.txs, failed.nextId, second, batchId)
    requires forall id :: id in failed.txs ==> id in retried.txs && retried.txs[id] == failed.txs[id]
    ensures HoldsInOrder(retried.txs, s.nextId, first + second, batchId)
    ensures forall id :: s.nextId <= id < retried.nextId ==> id in retried.txs
    ensures CreatedBetween(s, retried) == first + second
  {
    forall id | s.nextId <= id < retried.nextId
      ensures id in retried.txs
      ensures OfBatch(retried.txs, id, batchId) && retried.txs[id].candidate == (first + second)[id - s.nextId]
    {
      if id < failed.nextId {
        assert OfBatch(failed.txs, id, batchId);
      } else {
        assert OfBatch(retried.txs, id, batchId);
      }
    }
  }

  // ----- a file that is imported twice -----

  const EMPTY := State(map[], map[], map[], 0)

  /** What an account accepts: a positive amount, not before its opening date and not too far ahead. */
  function Bookable(openingAt: int, latest: int): Candidate -> bool {
    (candidate: Candidate) => candidate.amountMinor > 0 && openingAt <= candidate.occurredAt <= latest
  }

  lemma SecondRefused(first: PreviewRow, second: PreviewRow, valid: Candidate -> bool)
    requires valid(first.candidate) && !valid(second.candidate) && first.rowIndex != second.rowIndex
    ensures var rows := [first, second];
      && Accepted(rows, {}) == rows && ValidPrefix(rows, valid) == 1
      && Accepted(rows, {second.rowIndex}) == [first] && ValidPrefix([first], valid) == 1
  {
    var rows := [first, second];
    AcceptedAll(rows);
    assert rows[1..] == [second] && rows[..1] == [first];
    assert Accepted([first], {second.rowIndex}) == [first] by {
      assert [first][..0] == [];
    }
  }

  lemma SecondAttempt(s: State, reader: Reader, batchId: Id, first: PreviewRow, second: PreviewRow,
          valid: Candidate -> bool, now: int, later: int)
    requires IdsOk(s) && batchId in s.batches && batchId in s.staged && s.staged[batchId].toImport == [first, second]
    requires valid(first.candidate) && !valid(second.candidate) && first.rowIndex != second.rowIndex
    ensures var failed := Commit(s, reader, batchId, {}, valid, now, now);
      && failed.error == Some(InvalidTransaction)
      && Commit(failed.state, reader, batchId, {second.rowIndex}, valid, later, later).error == None
  {
    SecondRefused(first, second, valid);
    CommitWrites(s, reader, batchId, {}, valid, now, now);
    CommitWrites(Commit(s, reader, batchId, {}, valid, now, now).state, reader, batchId, {second.rowIndex}, valid, later, later);
  }

  /** A staged batch of two rows, the second of which the account refuses: committed, and committed again without that row,
      it leaves the first row imported twice. */
  lemma FirstRowTwice(s: State, reader: Reader, batchId: Id, first: PreviewRow, second: PreviewRow,
          valid: Candidate -> bool, now: int, later: int)
    requires IdsOk(s) && batchId in s.batches && batchId in s.staged && s.staged[batchId].toImport == [first, second]
    requires valid(first.candidate) && !valid(second.candidate) && first.rowIndex != second.rowIndex
    ensures var failed := Commit(s, reader, batchId, {}, valid, now, now);
      var retried := Commit(failed.state, reader, batchId, {second.rowIndex}, valid, later, later);
      && failed.error == Some(InvalidTransaction) && retried.error == None
      && HoldsInOrder(retried.state.txs, s.nextId, [first.candidate, first.candidate], batchId)
  {
    SecondRefused(first, second, valid);
    SecondAttempt(s, reader, batchId, first, second, valid, now, later);
    RetriedCommitDuplicates(s, reader, batchId, {}, valid, now, {second.rowIndex}, valid, later, later);
    assert Candidates([first, second][..1]) + Candidates([first]) == [first.candidate, first.candidate];
  }

  /** Two readable rows with different fingerprints, on an account without transactions, are both staged. */
  lemma BothStaged(reader: Reader, accountId: Id, rows: seq<Row>, header: int)
    requires |rows| == 2 && Maps(reader, rows[0]) && Maps(reader, rows[1])
    requires FingerprintOfRow(reader, rows[0]) != FingerprintOfRow(reader, rows[1])
    ensures Classify(reader, [], accountId, rows, header, 2).toImport
         == [PreviewOf(reader, reader.MapRow(rows[0]).value, RowIndex(header, 0)),
             PreviewOf(reader, reader.MapRow(rows[1]).value, RowIndex(header, 1))]
  {
    RowLands(reader, [], accountId, rows, header, 0);
    RowLands(reader, [], accountId, rows, header, 1);
  }

  /** From an empty database: a file of two rows is uploaded, the second row dated before the account was opened. The commit
      is refused, and committing again without that row leaves the first row imported twice. */
  lemma RowImportedTwice(reader: Reader, accountId: Id, rows: seq<Row>, header: int, fileHash: string, batchId: Id,
      openingAt: int, latest: int, now: int, later: int)
    requires |rows| == 2 && Maps(reader, rows[0]) && Maps(reader, rows[1])
    requires FingerprintOfRow(reader, rows[0]) != FingerprintOfRow(reader, rows[1])
    requires openingAt <= reader.MapRow(rows[0]).value.occurredAt <= latest
    requires reader.MapRow(rows[1]).value.occurredAt < openingAt
    ensures var uploaded := Upload(EMPTY, reader, [], accountId, true, true, rows, header, fileHash, false, batchId);
      var failed := Commit(uploaded.state, reader, batchId, {}, Bookable(openingAt, latest), now, now);
      var retried := Commit(failed.state, reader, batchId, {RowIndex(header, 1)}, Bookable(openingAt, latest), later, later);
      && uploaded.error == None && failed.error == Some(InvalidTransaction) && retried.error == None
      && HoldsInOrder(retried.state.txs, 0, [reader.MapRow(rows[0]).value, reader.MapRow(rows[0]).value], batchId)
  {
    var first := PreviewOf(reader, reader.MapRow(rows[0]).value, RowIndex(header, 0));
    var second := PreviewOf(reader, reader.MapRow(rows[1]).value, RowIndex(header, 1));
    BothStaged(reader, accountId, rows, header);
    var s := Upload(EMPTY, reader, [], accountId, true, true, rows, header, fileHash, false, batchId).state;
    FirstRowTwice(s, reader, batchId, first, second, Bookable(openingAt, latest), now, later);
  }
}
