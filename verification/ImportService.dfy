/**
 The import service: rows classified in a loop, transactions created one by one on commit, deleted one by one on revert.
 Every method is proved to do exactly what the operation of the same name does to a `State`.
 */
module ImportService {
  import opened Wrappers
  import opened MapSums
  import opened ImportDedupe
  import opened ImportBatches

  class ImportService {
    var txs: map<Id, Tx>
    var batches: map<Id, Batch>
    var stagedBatches: map<Id, Staged>
    var nextId: Id

    constructor ()
      ensures Snapshot() == State(map[], map[], map[], 0)
    {
      txs, batches, stagedBatches, nextId := map[], map[], map[], 0;
    }

    ghost function Snapshot(): State
      reads this
    {
      State(txs, batches, stagedBatches, nextId)
    }

    /** The live transactions of the account, in the order the database gives them. */
    method ListForDedupe(accountId: Id) returns (existing: seq<Existing>)
      ensures IsListing(existing, txs, accountId)
    {
      existing := [];
      var rest := txs;
      while rest != map[]
        invariant rest.Keys <= txs.Keys && forall id :: id in rest ==> rest[id] == txs[id]
        invariant forall e ::
          (e in existing) == (IsLiveIn(txs, e.id, accountId) && e.id !in rest && e == EntryOf(e.id, txs[e.id]))
        decreases |rest|
      {
        var id := RowIn(rest);
        if IsLiveIn(txs, id, accountId) {
          existing := existing + [EntryOf(id, txs[id])];
        }
        rest := rest - {id};
      }
    }

    method Upload(reader: Reader, accountId: Id, currencyKnown: bool, hasHeaders: bool, rows: seq<Row>, header: int,
        fileHash: string, force: bool, batchId: Id)
      returns (error: Option<Error>, ghost existing: seq<Existing>)
      modifies this`batches, this`stagedBatches
      ensures IsListing(existing, txs, accountId)
      ensures Outcome(Snapshot(), error)
           == ImportBatches.Upload(old(Snapshot()), reader, existing, accountId, currencyKnown, hasHeaders, rows, header, fileHash,
                                   force, batchId)
    {
      var existingForDedupe := ListForDedupe(accountId);
      existing := existingForDedupe;
      if !currencyKnown {
        return Some(CurrencyNotFound), existing;
      }
      if !force {
        if exists b :: b in batches && batches[b].fileHash == fileHash && batches[b].status == Completed {
          return Some(FileAlreadyImported), existing;
        }
      }
      if !hasHeaders {
        return Some(FileEmpty), existing;
      }
      var toImport, duplicates, errors := ClassifyRows(reader, existingForDedupe, accountId, rows, header);
      batches := batches[batchId := Batch(
        accountId, fileHash, AwaitingReview, |rows|, 0, |duplicates|, |errors|, 0)];
      stagedBatches := stagedBatches[batchId := Staged(accountId, toImport, duplicates, errors)];
      return None, existing;
    }

    /** One transaction of the batch, under a fresh id. */
    method CreateFromImport(reader: Reader, accountId: Id, batchId: Id, candidate: Candidate, now: int)
      modifies this`txs, this`nextId
      ensures txs == old(txs)[old(nextId) := Created(reader, accountId, batchId, candidate, now)]
      ensures nextId == old(nextId) + 1
    {
      var normalizedLabel := reader.normalize(candidate.description);
      var fingerprint := reader.fingerprint(candidate, normalizedLabel);
      txs := txs[nextId := Tx(accountId, candidate, normalizedLabel, fingerprint, Some(batchId), now, false)];
      nextId := nextId + 1;
    }

    /** Creates the rows in order, up to the first one the account refuses. */
    method CreateRows(reader: Reader, accountId: Id, batchId: Id, rows: seq<PreviewRow>, valid: Candidate -> bool, now: int)
      returns (importedRows: nat)
      modifies this`txs, this`nextId
      ensures importedRows == ValidPrefix(rows, valid)
      ensures Snapshot() == WithRows(old(Snapshot()), reader, accountId, batchId, rows[..importedRows], now)
    {
      importedRows := 0;
      ghost var s := Snapshot();
      while importedRows < |rows|
        invariant importedRows <= |rows|
        invariant ValidPrefix(rows, valid) == importedRows + ValidPrefix(rows[importedRows..], valid)
        invariant Snapshot() == WithRows(s, reader, accountId, batchId, rows[..importedRows], now)
      {
        assert rows[importedRows..][0] == rows[importedRows] && rows[importedRows..][1..] == rows[importedRows + 1..];
        if !valid(rows[importedRows].candidate) {
          return;
        }
        assert rows[..importedRows + 1][..importedRows] == rows[..importedRows];
        CreateFromImport(reader, accountId, batchId, rows[importedRows].candidate, now);
        importedRows := importedRows + 1;
      }
    }

    method Commit(reader: Reader, batchId: Id, excludeRowIndexes: set<int>, valid: Candidate -> bool, now: int, completedAt: int)
      returns (error: Option<Error>)
      modifies this
      ensures Outcome(Snapshot(), error)
           == ImportBatches.Commit(old(Snapshot()), reader, batchId, excludeRowIndexes, valid, now, completedAt)
    {
      if batchId !in batches {
        return Some(BatchNotFound);
      }
      if batchId !in stagedBatches {
        return Some(PreviewExpired);
      }
      var staged := stagedBatches[batchId];
      var rowsToCommit := Accepted(staged.toImport, excludeRowIndexes);
      ghost var s := Snapshot();
      var importedRows := CreateRows(reader, staged.accountId, batchId, rowsToCommit, valid, now);
      WithRowsTables(s, reader, staged.accountId, batchId, rowsToCommit[..importedRows], now);
      if importedRows < |rowsToCommit| {
        return Some(InvalidTransaction);
      }
      batches := batches[batchId := batches[batchId].(
        status := Completed, importedRows := importedRows, duplicateRows := |staged.duplicates|,
        errorRows := |staged.errors|, completedAt := completedAt)];
      stagedBatches := stagedBatches - {batchId};
      return None;
    }

    lemma {:induction false} WithRowsTables(s: State, reader: Reader, accountId: Id, batchId: Id,
            rows: seq<PreviewRow>, now: int)
      ensures WithRows(s, reader, accountId, batchId, rows, now).batches == s.batches
           && WithRows(s, reader, accountId, batchId, rows, now).staged == s.staged
      decreases |rows|
    {
      if rows != [] {
        WithRowsTables(s, reader, accountId, batchId, rows[..|rows| - 1], now);
      }
    }

    method Revert(batchId: Id) returns (error: Option<Error>)
      modifies this`txs, this`batches
      ensures Outcome(Snapshot(), error) == ImportBatches.Revert(old(Snapshot()), batchId)
    {
      if batchId !in batches {
        return Some(BatchNotFound);
      }
      var batch := batches[batchId];
      if batch.status != Completed {
        return Some(BatchNotRevertible);
      }
      var transactions := map id | id in txs && OfBatch(txs, id, batchId) :: txs[id];
      if exists id :: id in txs && OfBatch(txs, id, batchId) && txs[id].updatedAt > batch.completedAt {
        return Some(BatchHasModifiedTransactions);
      }
      RemoveAll(batchId, transactions);
      batches := batches[batchId := batch.(status := Reverted)];
      return None;
    }

    /** Deletes the transactions of the batch one by one. */
    method RemoveAll(batchId: Id, transactions: map<Id, Tx>)
      requires transactions == map id | id in txs && OfBatch(txs, id, batchId) :: txs[id]
      modifies this`txs
      ensures txs == WithoutBatch(old(txs), batchId)
    {
      ghost var before := txs;
      var rest := transactions;
      while rest != map[]
        invariant txs.Keys == before.Keys && rest.Keys <= transactions.Keys
        invariant forall id :: id in before ==>
          txs[id] == if id in rest || !OfBatch(before, id, batchId) then before[id] else before[id].(deleted := true)
        decreases |rest|
      {
        var id := RowIn(rest);
        txs := txs[id := txs[id].(deleted := true)];
        rest := rest - {id};
      }
      assert txs == WithoutBatch(before, batchId);
    }
  }
}
