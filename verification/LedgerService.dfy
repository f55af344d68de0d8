/**
 The ledger operations as the services perform them: balances adjusted one account at a time, rows written and
 soft-deleted one at a time, and both tables restored when the database transaction fails half-way.
 Every method is proved to do exactly what the operation of the same name does to a `Book`.
 */
module LedgerService {
  import opened Wrappers
  import opened MapSums
  import opened Ledger
  import opened LedgerProofs

  datatype BalanceCheck = BalanceCheck(accountId: Id, storedMinor: int, computedMinor: int, deltaMinor: int, isMatch: bool)

  /** The operation ended like `spec`: same success, same error, and the tables are those of `spec`, or untouched. */
  ghost predicate EndedLike(before: Book, spec: Result<Book, Error>, after: Book, outcome: Option<Error>) {
    match spec
    case Success(book) => outcome == None && after == book
    case Failure(error) => outcome == Some(error) && after == before
  }

  // ----- one adjustment at a time -----

  function Adjusted(accounts: map<Id, Account>, id: Id, deltaMinor: int): map<Id, Account>
    requires id in accounts
  {
    accounts[id := accounts[id].(currentMinor := accounts[id].currentMinor + deltaMinor)]
  }

  function Contribution(row: Tx): int {
    BalanceDelta(row.kind, row.amountMinor)
  }

  lemma PutNewIsAdjust(book: Book, id: Id, row: Tx)
    requires id !in book.txs && !row.deleted && row.accountId in book.accounts
    ensures Put(book, id, row).accounts == Adjusted(book.accounts, row.accountId, Contribution(row))
  {
  }

  /** Reversing the old effect and applying the new one moves every account by the difference, same account or not. */
  lemma PutOldIsAdjustTwice(book: Book, id: Id, row: Tx)
    requires id in book.txs && !book.txs[id].deleted && !row.deleted
    requires row.accountId in book.accounts && book.txs[id].accountId in book.accounts
    ensures Put(book, id, row).accounts
         == Adjusted(Adjusted(book.accounts, book.txs[id].accountId, -Contribution(book.txs[id])),
                     row.accountId, Contribution(row))
  {
  }

  lemma VoidNothing(book: Book)
    ensures Void(book, {}).accounts == book.accounts
  {
    assert Restrict(book.txs, {}) == map[];
  }

  lemma VoidOneMore(book: Book, ids: set<Id>, x: Id)
    requires x in book.txs && x !in ids && !book.txs[x].deleted && book.txs[x].accountId in book.accounts
    ensures Void(book, ids + {x}).accounts
         == Adjusted(Void(book, ids).accounts, book.txs[x].accountId, -Contribution(book.txs[x]))
  {
    forall a | a in book.accounts
      ensures Void(book, ids + {x}).accounts[a]
           == Adjusted(Void(book, ids).accounts, book.txs[x].accountId, -Contribution(book.txs[x]))[a]
    {
      VoidOneMoreAt(book, ids, x, a);
    }
  }

  ghost function VoidedAccount(book: Book, ids: set<Id>, a: Id): Account
    requires a in book.accounts
  {
    book.accounts[a].(currentMinor := book.accounts[a].currentMinor - Sum(Restrict(book.txs, ids), Effect(a)))
  }

  lemma VoidAt(book: Book, ids: set<Id>, a: Id)
    requires a in book.accounts
    ensures a in Void(book, ids).accounts && Void(book, ids).accounts[a] == VoidedAccount(book, ids, a)
  {
  }

  lemma VoidOneMoreAt(book: Book, ids: set<Id>, x: Id, a: Id)
    requires x in book.txs && x !in ids && !book.txs[x].deleted && book.txs[x].accountId in book.accounts
    requires a in book.accounts
    ensures Void(book, ids + {x}).accounts[a]
         == Adjusted(Void(book, ids).accounts, book.txs[x].accountId, -Contribution(book.txs[x]))[a]
  {
    VoidAt(book, ids, a);
    VoidAt(book, ids + {x}, a);
    RestrictOneMore(book.txs, ids, x, a);
    assert Effect(a)(book.txs[x]) == if book.txs[x].accountId == a then Contribution(book.txs[x]) else 0;
  }

  lemma RestrictOneMore(txs: map<Id, Tx>, ids: set<Id>, x: Id, a: Id)
    requires x in txs && x !in ids
    ensures Sum(Restrict(txs, ids + {x}), Effect(a)) == Sum(Restrict(txs, ids), Effect(a)) + Effect(a)(txs[x])
  {
    assert Restrict(txs, ids + {x}) == Restrict(txs, ids)[x := txs[x]];
    SumInsert(Restrict(txs, ids), Effect(a), x, txs[x]);
  }

  /** Rewriting a parent leaves the table of fee lines consistent. */
  lemma FeeTableSurvivesUpdate(book: Book, id: Id, row: Tx)
    requires Inv(book) && id in book.txs && RowOk(book, row)
    requires row.transferGroupId == None == book.txs[id].transferGroupId
    requires row.source == book.txs[id].source && row.feeFor == book.txs[id].feeFor
    requires row.kind == book.txs[id].kind && row.userId == book.txs[id].userId && row.deleted == book.txs[id].deleted
    ensures FeesOk(book.txs[id := row])
    ensures forall t :: t in book.txs ==> book.txs[id := row][t].accountId in book.accounts
  {
    PutRewrittenRow(book, id, row);
    var moved := Put(book, id, row);
    assert forall t :: t in moved.txs ==> RowOk(moved, moved.txs[t]);
  }

  /** Some check recorded from position `start` on is about account `a`. */
  ghost predicate Covers(checks: seq<BalanceCheck>, start: nat, a: Id) {
    exists i :: start <= i < |checks| && checks[i].accountId == a
  }

  lemma CoversMore(checks: seq<BalanceCheck>, start: nat, a: Id, check: BalanceCheck)
    requires Covers(checks, start, a) || (check.accountId == a && start <= |checks|)
    ensures Covers(checks + [check], start, a)
  {
    var more := checks + [check];
    if Covers(checks, start, a) {
      var i :| start <= i < |checks| && checks[i].accountId == a;
      assert more[i].accountId == a;
    } else {
      assert more[|checks|].accountId == a;
    }
  }

  /** Some element of a non-empty collection of ids: the iteration order of a query result is not specified. */
  method NextOf<T>(ids: set<T>) returns (id: T)
    requires ids != {}
    ensures id in ids
  {
    id :| id in ids;
  }

  class LedgerService {
    var accounts: map<Id, Account>
    var txs: map<Id, Tx>
    var checks: seq<BalanceCheck>

    constructor ()
      ensures Snapshot() == EMPTY_BOOK && checks == []
    {
      accounts, txs, checks := map[], map[], [];
    }

    ghost function Snapshot(): Book
      reads this
    {
      Book(accounts, txs)
    }

    method AdjustBalance(id: Id, deltaMinor: int)
      requires id in accounts
      modifies this`accounts
      ensures accounts == Adjusted(old(accounts), id, deltaMinor)
    {
      accounts := accounts[id := accounts[id].(currentMinor := accounts[id].currentMinor + deltaMinor)];
    }

    /** Writes a new row and moves its account. */
    method Post(id: Id, row: Tx)
      requires id !in txs && !row.deleted && row.accountId in accounts
      modifies this`accounts, this`txs
      ensures Snapshot() == Put(old(Snapshot()), id, row)
    {
      PutNewIsAdjust(Snapshot(), id, row);
      txs := txs[id := row];
      AdjustBalance(row.accountId, BalanceDelta(row.kind, row.amountMinor));
    }

    /** Reverses the balance effect of a row, then writes the row anew and applies the new one, same account or not. */
    method Repost(id: Id, row: Tx)
      requires id in txs && !txs[id].deleted && !row.deleted && row.accountId in accounts && txs[id].accountId in accounts
      modifies this`accounts, this`txs
      ensures Snapshot() == Put(old(Snapshot()), id, row)
    {
      PutOldIsAdjustTwice(Snapshot(), id, row);
      AdjustBalance(txs[id].accountId, -BalanceDelta(txs[id].kind, txs[id].amountMinor));
      AdjustBalance(row.accountId, BalanceDelta(row.kind, row.amountMinor));
      txs := txs[id := row];
    }

    method CreateFeeLine(env: Env, userId: Id, parent: Id, accountId: Id, occurredAt: int, feeMinor: int, feeId: Id)
      returns (outcome: Option<Error>)
      requires accountId in accounts
      modifies this`accounts, this`txs
      ensures EndedLike(old(Snapshot()), PostFee(old(Snapshot()), env, userId, parent, accountId, occurredAt, feeMinor, feeId),
                        Snapshot(), outcome)
    {
      if env.feeCategory.None? {
        return Some(SystemCategoryNotFound);
      }
      if feeId in txs || exists f :: f in txs && txs[f].feeFor == Some(parent) {
        return Some(UniqueViolation);
      }
      var row := Tx(userId, accountId, Expense, feeMinor, occurredAt, env.feeCategory, None, FeeLine, Some(parent), false);
      Post(feeId, row);
      return None;
    }

    /** One database transaction: the row, its effect, and its fee line; a failing fee line takes everything back. */
    method PostWithFee(env: Env, userId: Id, id: Id, row: Tx, feeMinor: Option<int>, feeId: Id) returns (outcome: Option<Error>)
      requires id !in txs && !row.deleted && row.accountId in accounts
      modifies this`accounts, this`txs
      ensures EndedLike(old(Snapshot()),
                        PostOptionalFee(Put(old(Snapshot()), id, row), env, userId, id, row.accountId, row.occurredAt, feeMinor, feeId),
                        Snapshot(), outcome)
    {
      var savedAccounts, savedTxs := accounts, txs;
      Post(id, row);
      outcome := None;
      if feeMinor.Some? && feeMinor.value > 0 {
        outcome := CreateFeeLine(env, userId, id, row.accountId, row.occurredAt, feeMinor.value, feeId);
        if outcome.Some? {
          accounts, txs := savedAccounts, savedTxs;
        }
      }
    }

    method Create(env: Env, userId: Id, dto: CreateDto, source: Source, freshId: Id, feeId: Id)
      returns (outcome: Option<Error>)
      modifies this`accounts, this`txs
      ensures EndedLike(old(Snapshot()), Ledger.Create(old(Snapshot()), env, userId, dto, source, freshId, feeId),
                        Snapshot(), outcome)
    {
      if dto.id.Some? {
        if dto.id.value in txs && !txs[dto.id.value].deleted && txs[dto.id.value].userId == userId {
          return None;
        }
      }
      var invalid := Validate(Book(accounts, txs), userId, dto.accountId, dto.amountMinor, dto.occurredAt, env.now);
      if invalid.Some? {
        return invalid;
      }
      if dto.categoryId.Some? && source != Adjustment {
        var mismatch := CategoryError(env, userId, dto.categoryId.value, dto.kind);
        if mismatch.Some? {
          return mismatch;
        }
      }
      var categoryId := dto.categoryId;
      if categoryId.None? {
        categoryId := env.ruleCategory;
      }
      var id := dto.id.GetOr(freshId);
      if id in txs {
        return Some(UniqueViolation);
      }
      var row := Tx(userId, dto.accountId, dto.kind, dto.amountMinor, dto.occurredAt, categoryId, None, source, None, false);
      outcome := PostWithFee(env, userId, id, row, dto.feeMinor, feeId);
    }

    /** The live fee line of `parent`. */
    method FindFeeLine(parent: Id) returns (fee: Option<Id>)
      requires FeesOk(txs)
      ensures fee == LiveFee(txs, parent)
    {
      if exists f :: f in txs && !txs[f].deleted && txs[f].feeFor == Some(parent) {
        var f :| f in txs && !txs[f].deleted && txs[f].feeFor == Some(parent);
        assert IsLiveFeeOf(txs, f, parent);
        return Some(f);
      }
      return None;
    }

    method Update(env: Env, userId: Id, id: Id, dto: UpdateDto, feeId: Id) returns (outcome: Option<Error>)
      requires Inv(Snapshot())
      modifies this`accounts, this`txs
      ensures EndedLike(old(Snapshot()), Ledger.Update(old(Snapshot()), env, userId, id, dto, feeId), Snapshot(), outcome)
    {
      var guard := UpdateGuard(Book(accounts, txs), userId, id);
      if guard.Some? {
        return guard;
      }
      var existing := txs[id];
      var nextAccountId := dto.accountId.GetOr(existing.accountId);
      var nextAmountMinor := dto.amountMinor.GetOr(existing.amountMinor);
      var nextOccurredAt := dto.occurredAt.GetOr(existing.occurredAt);
      var invalid := Validate(Book(accounts, txs), userId, nextAccountId, nextAmountMinor, nextOccurredAt, env.now);
      if invalid.Some? {
        return invalid;
      }
      if dto.categoryId.Set? {
        var mismatch := CategoryError(env, userId, dto.categoryId.value, existing.kind);
        if mismatch.Some? {
          return mismatch;
        }
      }
      var row := UpdatedRow(existing, dto);
      ghost var before := Snapshot();
      assert RowOk(before, existing);
      var savedAccounts, savedTxs := accounts, txs;
      Repost(id, row);
      outcome := None;
      if !dto.feeMinor.Unset? {
        FeeTableSurvivesUpdate(before, id, row);
        outcome := ApplyFeeChange(env, userId, id, row, dto.feeMinor, feeId);
        if outcome.Some? {
          accounts, txs := savedAccounts, savedTxs;
        }
      }
    }

    /** The fee line follows its parent: cleared, rewritten, or created. */
    method ApplyFeeChange(env: Env, userId: Id, id: Id, row: Tx, feeMinor: Patch<int>, feeId: Id)
      returns (outcome: Option<Error>)
      requires FeesOk(txs) && !feeMinor.Unset? && row.accountId in accounts
      requires forall t :: t in txs ==> txs[t].accountId in accounts
      modifies this`accounts, this`txs
      ensures EndedLike(old(Snapshot()), ChangeFee(old(Snapshot()), env, userId, id, row, feeMinor, feeId), Snapshot(), outcome)
    {
      var existingFeeLine := FindFeeLine(id);
      var nextFeeMinor := if feeMinor.Set? then feeMinor.value else 0;
      outcome := None;
      if existingFeeLine.Some? {
        var fee := existingFeeLine.value;
        var feeRow := txs[fee];
        if nextFeeMinor == 0 {
          assert {} + {fee} == {fee};
          RemoveRows({}, {fee});
        } else {
          Repost(fee, feeRow.(accountId := row.accountId, amountMinor := nextFeeMinor, occurredAt := row.occurredAt));
        }
      } else if nextFeeMinor != 0 {
        outcome := CreateFeeLine(env, userId, id, row.accountId, row.occurredAt, nextFeeMinor, feeId);
      }
    }

    method Remove(userId: Id, id: Id, allowDebtPayment: bool, allowDebtCreation: bool) returns (outcome: Option<Error>)
      requires Inv(Snapshot())
      modifies this`accounts, this`txs
      ensures EndedLike(old(Snapshot()), Ledger.Remove(old(Snapshot()), userId, id, allowDebtPayment, allowDebtCreation),
                        Snapshot(), outcome)
    {
      var guard := RemoveGuard(Book(accounts, txs), userId, id, allowDebtPayment, allowDebtCreation);
      if guard.Some? {
        return guard;
      }
      var legs := LegsOf(txs, userId, id);
      var fees := FeesOf(txs, legs);
      assert forall x :: x in txs ==> RowOk(Snapshot(), txs[x]) && FeeOk(txs, txs[x]);
      RemoveRows(legs, fees);
      return None;
    }

    /** Gives back the effects of the legs, then of the fee lines, and soft-deletes them all. */
    method RemoveRows(legs: set<Id>, fees: set<Id>)
      requires legs + fees <= txs.Keys && legs !! fees
      requires forall x :: x in legs + fees ==> !txs[x].deleted && txs[x].accountId in accounts
      modifies this`accounts, this`txs
      ensures Snapshot() == Void(old(Snapshot()), legs + fees)
    {
      ghost var before := Snapshot();
      VoidNothing(before);
      ReverseEffects(legs, before, {});
      ReverseEffects(fees, before, {} + legs);
      assert {} + legs + fees == legs + fees;
      txs := map t | t in txs :: if t in legs + fees then txs[t].(deleted := true) else txs[t];
    }

    /** Gives back the effect of row `x`. */
    method ReverseEffect(x: Id, ghost before: Book, ghost done: set<Id>)
      requires txs == before.txs && accounts == Void(before, done).accounts
      requires x in txs && x !in done && !txs[x].deleted && txs[x].accountId in before.accounts
      modifies this`accounts
      ensures accounts == Void(before, done + {x}).accounts
    {
      VoidOneMore(before, done, x);
      AdjustBalance(txs[x].accountId, -BalanceDelta(txs[x].kind, txs[x].amountMinor));
    }

    /** Gives back the effect of every row in `ids`, one account at a time. */
    method ReverseEffects(ids: set<Id>, ghost before: Book, ghost done: set<Id>)
      requires txs == before.txs && accounts == Void(before, done).accounts
      requires ids <= txs.Keys && ids !! done
      requires forall x :: x in ids ==> !txs[x].deleted && txs[x].accountId in before.accounts
      modifies this`accounts
      ensures accounts == Void(before, done + ids).accounts
    {
      var remaining := ids;
      ghost var reversed := done;
      while remaining != {}
        invariant remaining <= ids && remaining !! reversed
        invariant reversed + remaining == done + ids
        invariant accounts == Void(before, reversed).accounts
        decreases remaining
      {
        var x := NextOf(remaining);
        ReverseEffect(x, before, reversed);
        remaining := remaining - {x};
        reversed := reversed + {x};
      }
      assert reversed == done + ids;
    }

    method Transfer(env: Env, userId: Id, dto: TransferDto, freshOut: Id, inId: Id, feeId: Id, groupId: Id)
      returns (outcome: Option<Error>)
      requires dto.fromAccountId != dto.toAccountId
      modifies this`accounts, this`txs
      ensures EndedLike(old(Snapshot()), TransferBetween(old(Snapshot()), env, userId, dto, freshOut, inId, feeId, groupId),
                        Snapshot(), outcome)
    {
      if dto.id.Some? && dto.id.value in txs && !txs[dto.id.value].deleted && txs[dto.id.value].userId == userId {
        var group := txs[dto.id.value].transferGroupId;
        if exists x :: x in txs && x != dto.id.value && !txs[x].deleted && txs[x].userId == userId
                       && (group.Some? ==> txs[x].transferGroupId == group) {
          return None;
        }
        return Some(TransactionNotFound);
      }
      var badFrom := Validate(Book(accounts, txs), userId, dto.fromAccountId, dto.amountMinor, dto.occurredAt, env.now);
      if badFrom.Some? {
        return badFrom;
      }
      var badTo := Validate(Book(accounts, txs), userId, dto.toAccountId, dto.amountMinor, dto.occurredAt, env.now);
      if badTo.Some? {
        return badTo;
      }
      var outId := dto.id.GetOr(freshOut);
      if outId in txs || inId in txs || inId == outId {
        return Some(UniqueViolation);
      }
      var savedAccounts, savedTxs := accounts, txs;
      var outRow := LegRow(userId, dto.fromAccountId, Expense, dto, groupId);
      var inRow := LegRow(userId, dto.toAccountId, Income, dto, groupId);
      Post(outId, outRow);
      Post(inId, inRow);
      outcome := None;
      if dto.feeMinor.Some? && dto.feeMinor.value > 0 {
        outcome := CreateFeeLine(env, userId, outId, dto.fromAccountId, dto.occurredAt, dto.feeMinor.value, feeId);
        if outcome.Some? {
          accounts, txs := savedAccounts, savedTxs;
        }
      }
    }

    method CreateAccount(userId: Id, id: Option<Id>, freshId: Id, currencyKnown: bool, openingMinor: int, openingAt: int)
      returns (outcome: Option<Error>)
      modifies this`accounts
      ensures EndedLike(old(Snapshot()),
                        OpenAccount(old(Snapshot()), userId, id, freshId, currencyKnown, openingMinor, openingAt),
                        Snapshot(), outcome)
    {
      if id.Some? && id.value in accounts && !accounts[id.value].deleted && accounts[id.value].userId == userId {
        return None;
      }
      if !currencyKnown {
        return Some(CurrencyNotFound);
      }
      if id.GetOr(freshId) in accounts {
        return Some(UniqueViolation);
      }
      accounts := accounts[id.GetOr(freshId) := Account(userId, openingMinor, openingAt, openingMinor, false, false, None)];
      return None;
    }

    method RemoveAccount(userId: Id, id: Id) returns (outcome: Option<Error>)
      modifies this`accounts
      ensures EndedLike(old(Snapshot()), CloseAccount(old(Snapshot()), userId, id), Snapshot(), outcome)
    {
      if id !in accounts || accounts[id].deleted || accounts[id].userId != userId {
        return Some(AccountNotFound);
      }
      if exists t :: t in txs && !txs[t].deleted && txs[t].userId == userId && txs[t].accountId == id {
        return Some(AccountHasTransactions);
      }
      accounts := accounts[id := accounts[id].(deleted := true)];
      return None;
    }

    method Reconcile(env: Env, userId: Id, accountId: Id, actualBalanceMinor: int, asOf: int, freshId: Id)
      returns (outcome: Option<Error>)
      modifies this`accounts, this`txs
      ensures EndedLike(old(Snapshot()),
                        Ledger.Reconcile(old(Snapshot()), env, userId, accountId, actualBalanceMinor, asOf, freshId),
                        Snapshot(), outcome)
    {
      if accountId !in accounts || accounts[accountId].deleted || accounts[accountId].userId != userId {
        return Some(AccountNotFound);
      }
      var deltaMinor := actualBalanceMinor - accounts[accountId].currentMinor;
      if deltaMinor != 0 {
        if env.adjustmentCategory.None? {
          return Some(SystemCategoryNotFound);
        }
        outcome := Create(env, userId, AdjustmentDto(accountId, deltaMinor, asOf, env), Adjustment, freshId, freshId);
        if outcome.Some? {
          return;
        }
      }
      accounts := accounts[accountId := accounts[accountId].(reconciledAt := Some(env.now))];
      return None;
    }

    /** One check per live, unarchived account; it matches exactly when the stored balance is the recomputed one. */
    method RunNightlyDriftChecks()
      modifies this`checks
      ensures old(checks) <= checks
      ensures forall i :: |old(checks)| <= i < |checks| ==>
        && checks[i].accountId in accounts
        && checks[i].storedMinor == accounts[checks[i].accountId].currentMinor
        && checks[i].computedMinor == ComputedBalance(Snapshot(), checks[i].accountId)
        && (checks[i].isMatch <==> checks[i].storedMinor == checks[i].computedMinor)
      ensures forall a :: a in accounts && !accounts[a].archived && !accounts[a].deleted ==>
        Covers(checks, |old(checks)|, a)
      ensures Balanced(Snapshot()) && RowsOk(Snapshot()) ==> forall i :: |old(checks)| <= i < |checks| ==> checks[i].isMatch
    {
      var due := set a | a in accounts && !accounts[a].archived && !accounts[a].deleted;
      ghost var all := due;
      ghost var start := |checks|;
      while due != {}
        invariant due <= all && old(checks) <= checks
        invariant forall i :: start <= i < |checks| ==>
          && checks[i].accountId in accounts
          && checks[i].storedMinor == accounts[checks[i].accountId].currentMinor
          && checks[i].computedMinor == ComputedBalance(Snapshot(), checks[i].accountId)
          && (checks[i].isMatch <==> checks[i].storedMinor == checks[i].computedMinor)
        invariant forall a :: a in all && a !in due ==> Covers(checks, start, a)
        decreases due
      {
        var a := NextOf(due);
        var expense := Aggregate(accounts[a].userId, a, Expense);
        var income := Aggregate(accounts[a].userId, a, Income);
        var computedMinor := accounts[a].openingMinor + income - expense;
        var deltaMinor := accounts[a].currentMinor - computedMinor;
        var check := BalanceCheck(a, accounts[a].currentMinor, computedMinor, deltaMinor, deltaMinor == 0);
        forall b | b in all && b !in due - {a}
          ensures Covers(checks + [check], start, b)
        {
          CoversMore(checks, start, b, check);
        }
        checks := checks + [check];
        due := due - {a};
      }
      if Balanced(Snapshot()) && RowsOk(Snapshot()) {
        forall i | start <= i < |checks|
          ensures checks[i].isMatch
        {
          AggregatesAreEffects(Snapshot(), checks[i].accountId);
        }
      }
    }

    /** The SUM of the live rows of one account and type. */
    method Aggregate(userId: Id, a: Id, kind: TxType) returns (total: int)
      ensures total == Sum(txs, AmountOf(userId, a, kind))
    {
      total := 0;
      var rest := txs;
      while rest != map[]
        invariant total + Sum(rest, AmountOf(userId, a, kind)) == Sum(txs, AmountOf(userId, a, kind))
        decreases |rest|
      {
        ghost var _ := PickKey(rest);
        var t :| t in rest;
        SumSplit(rest, AmountOf(userId, a, kind), t);
        if !rest[t].deleted && rest[t].userId == userId && rest[t].accountId == a && rest[t].kind == kind {
          total := total + rest[t].amountMinor;
        }
        rest := rest - {t};
      }
    }
  }
}
