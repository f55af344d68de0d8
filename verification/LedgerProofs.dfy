/** What every run of the ledger keeps. */
module LedgerProofs {
  import opened Wrappers
  import opened MapSums
  import opened Ledger

  // ----- balances -----

  lemma PutBalanced(book: Book, id: Id, row: Tx)
    requires Balanced(book)
    ensures Balanced(Put(book, id, row))
  {
    forall a | a in book.accounts
      ensures Sum(book.txs[id := row], Effect(a)) == Sum(book.txs, Effect(a)) + Effect(a)(row) - EffectOfRow(book.txs, id, a)
    {
      if id in book.txs {
        SumUpdate(book.txs, Effect(a), id, row);
      } else {
        SumInsert(book.txs, Effect(a), id, row);
      }
    }
  }

  /** Voiding rows takes exactly their contribution out of the definition of the balance. */
  lemma {:induction false} SumVoided(txs: map<Id, Tx>, ids: set<Id>, a: Id)
    ensures Sum(Voided(txs, ids), Effect(a)) == Sum(txs, Effect(a)) - Sum(Restrict(txs, ids), Effect(a))
    decreases |txs|
  {
    if txs == map[] {
      assert Voided(txs, ids) == map[];
      assert Restrict(txs, ids) == map[];
    } else {
      var k := PickKey(txs);
      SumSplit(txs, Effect(a), k);
      SumVoided(txs - {k}, ids, a);
      VoidedSplit(txs, ids, k, a);
      RestrictSplit(txs, ids, k, a);
    }
  }

  lemma VoidedSplit(txs: map<Id, Tx>, ids: set<Id>, k: Id, a: Id)
    requires k in txs
    ensures Sum(Voided(txs, ids), Effect(a))
         == (if k in ids then 0 else Effect(a)(txs[k])) + Sum(Voided(txs - {k}, ids), Effect(a))
  {
    SumSplit(Voided(txs, ids), Effect(a), k);
    assert Voided(txs, ids) - {k} == Voided(txs - {k}, ids);
  }

  lemma RestrictSplit(txs: map<Id, Tx>, ids: set<Id>, k: Id, a: Id)
    requires k in txs
    ensures Sum(Restrict(txs, ids), Effect(a))
         == (if k in ids then Effect(a)(txs[k]) else 0) + Sum(Restrict(txs - {k}, ids), Effect(a))
  {
    if k in ids {
      SumSplit(Restrict(txs, ids), Effect(a), k);
      assert Restrict(txs, ids) - {k} == Restrict(txs - {k}, ids);
    } else {
      assert Restrict(txs, ids) == Restrict(txs - {k}, ids);
    }
  }

  lemma VoidBalanced(book: Book, ids: set<Id>)
    requires Balanced(book)
    ensures Balanced(Void(book, ids))
  {
    forall a | a in book.accounts
      ensures Sum(Voided(book.txs, ids), Effect(a)) == Sum(book.txs, Effect(a)) - Sum(Restrict(book.txs, ids), Effect(a))
    {
      SumVoided(book.txs, ids, a);
    }
  }

  // ----- the shape of the rows -----

  lemma RowsAfterPut(book: Book, id: Id, row: Tx)
    requires RowsOk(book) && RowOk(book, row)
    ensures RowsOk(Put(book, id, row))
  {
    var after := Put(book, id, row);
    forall t | t in after.txs
      ensures RowOk(after, after.txs[t])
    {
      assert t in book.txs ==> RowOk(book, book.txs[t]);
    }
  }

  lemma FeesAfterPlainPut(txs: map<Id, Tx>, id: Id, row: Tx)
    requires FeesOk(txs) && id !in txs && row.source != FeeLine && row.feeFor == None
    ensures FeesOk(txs[id := row])
  {
    forall t | t in txs
      ensures FeeOk(txs[id := row], txs[t])
    {
      assert FeeOk(txs, txs[t]);
    }
  }

  /** Adding a row outside any transfer keeps the transfers of the others. */
  lemma GroupsAfterPlainPut(txs: map<Id, Tx>, id: Id, row: Tx)
    requires GroupsOk(txs) && row.transferGroupId == None
    requires id in txs ==> txs[id].transferGroupId == None
    ensures GroupsOk(txs[id := row])
  {
    var after := txs[id := row];
    forall t | t in after
      ensures HasOtherLeg(after, t)
    {
      if t != id && txs[t].transferGroupId.Some? {
        var g := txs[t].transferGroupId.value;
        assert HasOtherLeg(txs, t);
        var other :| Legs(txs, g, t, other);
        assert Legs(after, g, t, other);
      }
    }
  }

  /** A set of rows that holds both legs of a transfer or neither can be voided. */
  lemma GroupsAfterVoid(txs: map<Id, Tx>, ids: set<Id>)
    requires GroupsOk(txs)
    requires forall x, y, g :: Legs(txs, g, x, y) && x in ids ==> y in ids || txs[y].deleted
    ensures GroupsOk(Voided(txs, ids))
  {
    var after := Voided(txs, ids);
    forall t | t in after
      ensures HasOtherLeg(after, t)
    {
      if txs[t].transferGroupId.Some? {
        var g := txs[t].transferGroupId.value;
        assert HasOtherLeg(txs, t);
        var other :| Legs(txs, g, t, other);
        assert Legs(txs, g, other, t);
        assert Legs(after, g, t, other);
      }
    }
  }

  lemma PutNewPlainRow(book: Book, id: Id, row: Tx)
    requires Inv(book) && id !in book.txs
    requires RowOk(book, row) && row.source != FeeLine && row.feeFor == None && row.transferGroupId == None
    ensures Inv(Put(book, id, row))
  {
    PutBalanced(book, id, row);
    GroupsAfterPlainPut(book.txs, id, row);
  }

  lemma PutNewFeeRow(book: Book, id: Id, row: Tx)
    requires Inv(book) && id !in book.txs
    requires RowOk(book, row) && FeeOk(book.txs, row) && row.feeFor.Some?
    requires !FeeSlotTaken(book.txs, row.feeFor.value)
    ensures Inv(Put(book, id, row))
  {
    PutBalanced(book, id, row);
    GroupsAfterPlainPut(book.txs, id, row);
  }

  lemma PutRewrittenRow(book: Book, id: Id, row: Tx)
    requires Inv(book) && id in book.txs
    requires RowOk(book, row) && row.transferGroupId == None == book.txs[id].transferGroupId
    requires row.source == book.txs[id].source && row.feeFor == book.txs[id].feeFor
    requires row.kind == book.txs[id].kind && row.userId == book.txs[id].userId && row.deleted == book.txs[id].deleted
    ensures Inv(Put(book, id, row))
  {
    PutBalanced(book, id, row);
    GroupsAfterPlainPut(book.txs, id, row);
    var after := book.txs[id := row];
    forall t | t in after
      ensures FeeOk(after, after[t])
    {
      assert FeeOk(book.txs, book.txs[t]);
    }
  }

  lemma VoidRows(book: Book, ids: set<Id>)
    requires Inv(book)
    requires forall x, y, g :: Legs(book.txs, g, x, y) && x in ids ==> y in ids || book.txs[y].deleted
    requires FeesOf(book.txs, ids) <= ids
    ensures Inv(Void(book, ids))
  {
    VoidBalanced(book, ids);
    GroupsAfterVoid(book.txs, ids);
    var after := Void(book, ids);
    forall t | t in after.txs
      ensures RowOk(after, after.txs[t]) && FeeOk(after.txs, after.txs[t])
    {
      assert RowOk(book, book.txs[t]) && FeeOk(book.txs, book.txs[t]);
      assert t in FeesOf(book.txs, ids) ==> t in ids;
    }
  }

  // ----- the operations -----

  lemma PostFeeKeeps(book: Book, env: Env, userId: Id, parent: Id, accountId: Id, occurredAt: int,
                     feeMinor: int, feeId: Id)
    requires Inv(book) && feeMinor > 0
    requires parent in book.txs && !book.txs[parent].deleted && book.txs[parent].source != FeeLine
    requires book.txs[parent].userId == userId && OwnsAccount(book, userId, accountId)
    ensures var r := PostFee(book, env, userId, parent, accountId, occurredAt, feeMinor, feeId);
            r.Success? ==> Inv(r.value)
  {
    if feeId !in book.txs && !FeeSlotTaken(book.txs, parent) {
      PutNewFeeRow(book, feeId, FeeRow(env, userId, parent, accountId, occurredAt, feeMinor));
    }
  }

  lemma CreateKeeps(book: Book, env: Env, userId: Id, dto: CreateDto, source: Source, freshId: Id, feeId: Id)
    requires Inv(book) && dto.kind != Transfer && source != FeeLine && FeeNotNegative(dto.feeMinor)
    ensures var r := Create(book, env, userId, dto, source, freshId, feeId); r.Success? ==> Inv(r.value)
  {
    var id := dto.id.GetOr(freshId);
    if !IsReplay(book.txs, userId, dto.id) && CreateError(book, env, userId, dto, source).None? && id !in book.txs {
      var row := NewRow(env, userId, dto, source);
      PutNewPlainRow(book, id, row);
      if dto.feeMinor.Some? && dto.feeMinor.value > 0 {
        PostFeeKeeps(Put(book, id, row), env, userId, id, dto.accountId, dto.occurredAt, dto.feeMinor.value, feeId);
      }
    }
  }

  lemma VoidFeeKeeps(book: Book, f: Id, parent: Id)
    requires Inv(book) && IsLiveFeeOf(book.txs, f, parent)
    ensures Inv(Void(book, {f}))
  {
    assert FeeOk(book.txs, book.txs[f]);
    forall t | t in book.txs
      ensures t !in FeesOf(book.txs, {f})
    {
      assert FeeOk(book.txs, book.txs[t]);
    }
    VoidRows(book, {f});
  }

  lemma UpdateKeeps(book: Book, env: Env, userId: Id, id: Id, dto: UpdateDto, feeId: Id)
    requires Inv(book) && (dto.feeMinor.Set? ==> dto.feeMinor.value >= 0)
    ensures var r := Update(book, env, userId, id, dto, feeId); r.Success? ==> Inv(r.value)
  {
    if UpdateError(book, env, userId, id, dto).None? {
      var row := UpdatedRow(book.txs[id], dto);
      assert RowOk(book, book.txs[id]);
      PutRewrittenRow(book, id, row);
      var moved := Put(book, id, row);
      var fee := LiveFee(moved.txs, id);
      var next := if dto.feeMinor.Set? then dto.feeMinor.value else 0;
      if dto.feeMinor != Unset {
        if next == 0 {
          if fee.Some? {
            VoidFeeKeeps(moved, fee.value, id);
          }
        } else if fee.Some? {
          var feeRow := moved.txs[fee.value];
          assert FeeOk(moved.txs, feeRow) && RowOk(moved, feeRow);
          PutRewrittenRow(moved, fee.value,
                          feeRow.(accountId := row.accountId, amountMinor := next, occurredAt := row.occurredAt));
        } else {
          PostFeeKeeps(moved, env, userId, id, row.accountId, row.occurredAt, next, feeId);
        }
      }
    }
  }

  lemma RemoveKeeps(book: Book, userId: Id, id: Id, allowPayment: bool, allowCreation: bool)
    requires Inv(book)
    ensures var r := Remove(book, userId, id, allowPayment, allowCreation); r.Success? ==> Inv(r.value)
  {
    if RemoveGuard(book, userId, id, allowPayment, allowCreation).None? {
      var legs := LegsOf(book.txs, userId, id);
      var ids := legs + FeesOf(book.txs, legs);
      forall f | f in FeesOf(book.txs, ids)
        ensures f in ids
      {
        assert FeeOk(book.txs, book.txs[f]);
        assert forall p :: p in FeesOf(book.txs, legs) ==> FeeOk(book.txs, book.txs[p]);
      }
      forall x, y, g | Legs(book.txs, g, x, y) && x in ids
        ensures y in ids || book.txs[y].deleted
      {
        assert FeeOk(book.txs, book.txs[x]);
      }
      VoidRows(book, ids);
    }
  }

  lemma GroupsAfterLegs(txs: map<Id, Tx>, outId: Id, inId: Id, outRow: Tx, inRow: Tx, g: Id)
    requires GroupsOk(txs) && GroupUnused(txs, g) && outId !in txs && inId !in txs
    requires Legs(txs[outId := outRow][inId := inRow], g, outId, inId)
    ensures GroupsOk(txs[outId := outRow][inId := inRow])
  {
    var after := txs[outId := outRow][inId := inRow];
    assert Legs(after, g, inId, outId);
    forall t | t in after
      ensures HasOtherLeg(after, t)
    {
      if t in txs && txs[t].transferGroupId.Some? {
        assert HasOtherLeg(txs, t);
        var other :| Legs(txs, txs[t].transferGroupId.value, t, other);
        assert Legs(after, txs[t].transferGroupId.value, t, other);
      }
    }
  }

  /** Two opposite legs of one new group, added together. */
  lemma PutLegs(book: Book, outId: Id, inId: Id, outRow: Tx, inRow: Tx, g: Id)
    requires Inv(book) && outId !in book.txs && inId !in book.txs
    requires GroupUnused(book.txs, g)
    requires RowOk(book, outRow) && RowOk(book, inRow)
    requires outRow.source == Manual == inRow.source && outRow.feeFor == None == inRow.feeFor
    requires Legs(book.txs[outId := outRow][inId := inRow], g, outId, inId)
    ensures Inv(Put(Put(book, outId, outRow), inId, inRow))
  {
    var out := Put(book, outId, outRow);
    PutBalanced(book, outId, outRow);
    PutBalanced(out, inId, inRow);
    RowsAfterPut(book, outId, outRow);
    RowsAfterPut(out, inId, inRow);
    FeesAfterPlainPut(book.txs, outId, outRow);
    FeesAfterPlainPut(out.txs, inId, inRow);
    GroupsAfterLegs(book.txs, outId, inId, outRow, inRow, g);
  }

  lemma TransferKeeps(book: Book, env: Env, userId: Id, dto: TransferDto, freshOut: Id, inId: Id, feeId: Id, g: Id)
    requires Inv(book) && dto.fromAccountId != dto.toAccountId && FeeNotNegative(dto.feeMinor)
    requires GroupUnused(book.txs, g)
    ensures var r := TransferBetween(book, env, userId, dto, freshOut, inId, feeId, g); r.Success? ==> Inv(r.value)
  {
    var r := TransferBetween(book, env, userId, dto, freshOut, inId, feeId, g);
    if r.Success? && !IsReplay(book.txs, userId, dto.id) {
      var outId := dto.id.GetOr(freshOut);
      var outRow := LegRow(userId, dto.fromAccountId, Expense, dto, g);
      var inRow := LegRow(userId, dto.toAccountId, Income, dto, g);
      PutLegs(book, outId, inId, outRow, inRow, g);
      if dto.feeMinor.Some? && dto.feeMinor.value > 0 {
        PostFeeKeeps(Put(Put(book, outId, outRow), inId, inRow), env, userId, outId,
                     dto.fromAccountId, dto.occurredAt, dto.feeMinor.value, feeId);
      }
    }
  }

  lemma OpenKeeps(book: Book, userId: Id, id: Option<Id>, freshId: Id, currencyKnown: bool, openingMinor: int,
          openingAt: int)
    requires Inv(book)
    ensures var r := OpenAccount(book, userId, id, freshId, currencyKnown, openingMinor, openingAt); r.Success? ==> Inv(r.value)
  {
    var r := OpenAccount(book, userId, id, freshId, currencyKnown, openingMinor, openingAt);
    var a := id.GetOr(freshId);
    if r.Success? && a !in book.accounts {
      forall t | t in book.txs
        ensures RowOk(r.value, book.txs[t]) && Effect(a)(book.txs[t]) == 0
      {
        assert RowOk(book, book.txs[t]);
      }
      SumZero(book.txs, Effect(a));
    }
  }

  /** Changing the flags of an account while keeping its balance and owner. */
  lemma FlagsKeep(book: Book, a: Id, account: Account)
    requires Inv(book) && a in book.accounts
    requires account.userId == book.accounts[a].userId && account.openingMinor == book.accounts[a].openingMinor
    requires account.currentMinor == book.accounts[a].currentMinor
    requires account.deleted && !book.accounts[a].deleted ==> !HasLiveTransactions(book, account.userId, a)
    ensures Inv(book.(accounts := book.accounts[a := account]))
  {
    var after := book.(accounts := book.accounts[a := account]);
    forall t | t in book.txs
      ensures RowOk(after, book.txs[t])
    {
      assert RowOk(book, book.txs[t]);
    }
  }

  lemma ReconcileKeeps(book: Book, env: Env, userId: Id, a: Id, actualMinor: int, asOf: int, freshId: Id)
    requires Inv(book)
    ensures var r := Reconcile(book, env, userId, a, actualMinor, asOf, freshId); r.Success? ==> Inv(r.value)
  {
    var r := Reconcile(book, env, userId, a, actualMinor, asOf, freshId);
    if r.Success? {
      var deltaMinor := actualMinor - book.accounts[a].currentMinor;
      if deltaMinor == 0 {
        FlagsKeep(book, a, r.value.accounts[a]);
      } else {
        var dto := AdjustmentDto(a, deltaMinor, asOf, env);
        CreateKeeps(book, env, userId, dto, Adjustment, freshId, freshId);
        var booked := Create(book, env, userId, dto, Adjustment, freshId, freshId).value;
        FlagsKeep(booked, a, r.value.accounts[a]);
      }
    }
  }

  lemma StepKeeps(book: Book, op: Op)
    requires Inv(book) && Admissible(book, op)
    ensures Inv(Step(book, op))
  {
    match op
    case CreateOp(env, user, dto, source, freshId, feeId) => CreateKeeps(book, env, user, dto, source, freshId, feeId);
    case UpdateOp(env, user, id, dto, feeId) => UpdateKeeps(book, env, user, id, dto, feeId);
    case RemoveOp(user, id, allowPayment, allowCreation) => RemoveKeeps(book, user, id, allowPayment, allowCreation);
    case TransferOp(env, user, dto, freshId, inId, feeId, g) =>
      TransferKeeps(book, env, user, dto, freshId, inId, feeId, g);
    case OpenOp(user, id, freshId, known, opening, at) => OpenKeeps(book, user, id, freshId, known, opening, at);
    case CloseOp(user, id) =>
      if CloseAccount(book, user, id).Success? {
        FlagsKeep(book, id, book.accounts[id].(deleted := true));
      }
    case ArchiveOp(user, id, archived) =>
      if SetArchived(book, user, id, archived).Success? {
        FlagsKeep(book, id, book.accounts[id].(archived := archived));
      }
    case ReconcileOp(env, user, id, actual, asOf, freshId) =>
      ReconcileKeeps(book, env, user, id, actual, asOf, freshId);
  }

  // ----- main results -----

  /** Every book reached by any sequence of operations satisfies the ledger invariant. */
  lemma {:induction false} EveryRunKeepsInv(book: Book, ops: seq<Op>)
    requires Inv(book) && AdmissibleRun(book, ops)
    ensures Inv(Run(book, ops))
    decreases |ops|
  {
    if ops != [] {
      StepKeeps(book, ops[0]);
      EveryRunKeepsInv(Step(book, ops[0]), ops[1..]);
    }
  }

  /** The two aggregates of the drift check add up to the signed sum of the live rows of the account. */
  lemma AggregatesAreEffects(book: Book, a: Id)
    requires RowsOk(book) && a in book.accounts
    ensures ComputedBalance(book, a) == book.accounts[a].openingMinor + Sum(book.txs, Effect(a))
  {
    var user := book.accounts[a].userId;
    assert forall t :: t in book.txs ==> RowOk(book, book.txs[t]);
    SumDifference(book.txs, AmountOf(user, a, Income), AmountOf(user, a, Expense), Effect(a));
  }

  /** The nightly drift check finds every account matching, whatever happened before. */
  lemma DriftCheckAlwaysMatches(ops: seq<Op>, a: Id)
    requires AdmissibleRun(EMPTY_BOOK, ops)
    requires a in Run(EMPTY_BOOK, ops).accounts
    ensures Run(EMPTY_BOOK, ops).accounts[a].currentMinor == ComputedBalance(Run(EMPTY_BOOK, ops), a)
  {
    EveryRunKeepsInv(EMPTY_BOOK, ops);
    AggregatesAreEffects(Run(EMPTY_BOOK, ops), a);
  }

  /** After a reconciliation that is not refused, the stored balance is the declared one, no other account moved,
      and at most one row was added. */
  lemma ReconcileSetsDeclaredBalance(book: Book, env: Env, userId: Id, a: Id, actualMinor: int, asOf: int, freshId: Id)
    requires Inv(book)
    requires Reconcile(book, env, userId, a, actualMinor, asOf, freshId).Success?
    ensures var after := Reconcile(book, env, userId, a, actualMinor, asOf, freshId).value;
      && after.accounts.Keys == book.accounts.Keys
      && after.accounts[a].currentMinor == actualMinor
      && after.accounts[a].reconciledAt == Some(env.now)
      && (forall b :: b in book.accounts && b != a ==> after.accounts[b] == book.accounts[b])
      && after.txs == (if actualMinor == book.accounts[a].currentMinor then book.txs
                       else book.txs[freshId := after.txs[freshId]])
  {
    if actualMinor != book.accounts[a].currentMinor {
      assert freshId !in book.txs;
    }
  }

  /** `after` extends `txs` by nothing but soft-deleted rows. */
  ghost predicate AddsOnlyDeleted(txs: map<Id, Tx>, after: map<Id, Tx>) {
    && txs.Keys <= after.Keys
    && (forall t :: t in after ==> if t in txs then after[t] == txs[t] else after[t].deleted)
  }

  lemma {:induction false} SumIgnoresDeleted(txs: map<Id, Tx>, after: map<Id, Tx>, a: Id)
    requires AddsOnlyDeleted(txs, after)
    ensures Sum(after, Effect(a)) == Sum(txs, Effect(a))
    decreases |after|
  {
    if forall t :: t in after ==> t in txs {
      forall t | t in txs
        ensures after[t] == txs[t]
      {
      }
      assert after == txs;
    } else {
      var t :| t in after && t !in txs;
      SumSplit(after, Effect(a), t);
      SumIgnoresDeleted(txs, after - {t}, a);
    }
  }

  /** `moved` adds to `txs` the two legs of group `g` and at most one fee line of the outgoing leg. */
  ghost predicate AddsTransfer(txs: map<Id, Tx>, moved: map<Id, Tx>, userId: Id, outId: Id, inId: Id, g: Id) {
    && txs.Keys <= moved.Keys
    && outId in moved && inId in moved && outId !in txs && inId !in txs
    && (forall t :: t in moved ==> if t in txs then moved[t] == txs[t] else IsTransferRow(moved[t], t, userId, outId, inId, g))
  }

  ghost predicate IsTransferRow(row: Tx, t: Id, userId: Id, outId: Id, inId: Id, g: Id) {
    && !row.deleted && row.userId == userId
    && if t == outId || t == inId then row.transferGroupId == Some(g) && row.feeFor == None && row.source == Manual
       else row.transferGroupId == None && row.feeFor == Some(outId)
  }

  /** Exactly the rows a transfer added go when either of its legs is removed. */
  lemma CascadeOfTransfer(txs: map<Id, Tx>, moved: map<Id, Tx>, userId: Id, outId: Id, inId: Id, g: Id, leg: Id)
    requires FeesOk(txs) && GroupUnused(txs, g) && AddsTransfer(txs, moved, userId, outId, inId, g)
    requires leg == outId || leg == inId
    ensures var legs := LegsOf(moved, userId, leg); legs + FeesOf(moved, legs) == moved.Keys - txs.Keys
  {
    var legs := LegsOf(moved, userId, leg);
    assert forall x :: x in legs <==> x == outId || x == inId;
    forall x | x in moved
      ensures x in FeesOf(moved, legs) <==> x !in txs && x != outId && x != inId
    {
      assert x in txs ==> FeeOk(txs, txs[x]);
    }
  }

  /** The accounts of `after` are those of `book`, up to their balances. */
  ghost predicate OnlyBalancesMove(book: Book, after: Book) {
    && after.accounts.Keys == book.accounts.Keys
    && (forall a :: a in book.accounts ==>
          after.accounts[a] == book.accounts[a].(currentMinor := after.accounts[a].currentMinor))
  }

  lemma PutMovesBalances(book: Book, id: Id, row: Tx)
    ensures OnlyBalancesMove(book, Put(book, id, row))
  {
  }

  lemma LegsAreAdded(txs: map<Id, Tx>, userId: Id, dto: TransferDto, outId: Id, inId: Id, g: Id)
    requires outId !in txs && inId !in txs
    ensures AddsTransfer(txs, txs[outId := LegRow(userId, dto.fromAccountId, Expense, dto, g)]
                                 [inId := LegRow(userId, dto.toAccountId, Income, dto, g)], userId, outId, inId, g)
  {
  }

  lemma FeeIsAdded(txs: map<Id, Tx>, legs: map<Id, Tx>, userId: Id, outId: Id, inId: Id, g: Id, feeId: Id, fee: Tx)
    requires AddsTransfer(txs, legs, userId, outId, inId, g) && feeId !in legs
    requires IsTransferRow(fee, feeId, userId, outId, inId, g)
    ensures AddsTransfer(txs, legs[feeId := fee], userId, outId, inId, g)
  {
  }

  lemma TransferAddsRows(book: Book, env: Env, userId: Id, dto: TransferDto, freshOut: Id, inId: Id, feeId: Id, g: Id)
    requires !IsReplay(book.txs, userId, dto.id)
    requires TransferBetween(book, env, userId, dto, freshOut, inId, feeId, g).Success?
    ensures var moved := TransferBetween(book, env, userId, dto, freshOut, inId, feeId, g).value;
      OnlyBalancesMove(book, moved) && AddsTransfer(book.txs, moved.txs, userId, dto.id.GetOr(freshOut), inId, g)
  {
    var outId := dto.id.GetOr(freshOut);
    var out := Put(book, outId, LegRow(userId, dto.fromAccountId, Expense, dto, g));
    var both := Put(out, inId, LegRow(userId, dto.toAccountId, Income, dto, g));
    PutMovesBalances(book, outId, LegRow(userId, dto.fromAccountId, Expense, dto, g));
    PutMovesBalances(out, inId, LegRow(userId, dto.toAccountId, Income, dto, g));
    LegsAreAdded(book.txs, userId, dto, outId, inId, g);
    if dto.feeMinor.Some? && dto.feeMinor.value > 0 {
      var fee := FeeRow(env, userId, outId, dto.fromAccountId, dto.occurredAt, dto.feeMinor.value);
      PutMovesBalances(both, feeId, fee);
      FeeIsAdded(book.txs, both.txs, userId, outId, inId, g, feeId, fee);
    }
  }

  lemma RemoveNewTransfer(book: Book, moved: Book, userId: Id, outId: Id, inId: Id, g: Id, leg: Id)
    requires Inv(book) && Balanced(moved) && OnlyBalancesMove(book, moved) && GroupUnused(book.txs, g)
    requires AddsTransfer(book.txs, moved.txs, userId, outId, inId, g)
    requires leg == outId || leg == inId
    ensures var r := Remove(moved, userId, leg, false, false);
      r.Success? && r.value.accounts == book.accounts && AddsOnlyDeleted(book.txs, r.value.txs)
  {
    CascadeOfTransfer(book.txs, moved.txs, userId, outId, inId, g, leg);
    var gone := moved.txs.Keys - book.txs.Keys;
    VoidBalanced(moved, gone);
    VoidAddedRows(book, moved, gone);
    SameRowsSameBalances(book, Void(moved, gone));
  }

  lemma VoidAddedRows(book: Book, moved: Book, gone: set<Id>)
    requires book.txs.Keys <= moved.txs.Keys && (forall t :: t in book.txs ==> moved.txs[t] == book.txs[t])
    requires OnlyBalancesMove(book, moved) && gone == moved.txs.Keys - book.txs.Keys
    ensures AddsOnlyDeleted(book.txs, Void(moved, gone).txs) && OnlyBalancesMove(book, Void(moved, gone))
  {
  }

  lemma SameRowsSameBalances(book: Book, after: Book)
    requires Balanced(book) && Balanced(after) && OnlyBalancesMove(book, after) && AddsOnlyDeleted(book.txs, after.txs)
    ensures after.accounts == book.accounts
  {
    forall a | a in book.accounts
      ensures after.accounts[a] == book.accounts[a]
    {
      SumIgnoresDeleted(book.txs, after.txs, a);
    }
  }

  /** Removing either leg of a transfer removes both legs and the fee line, and every account is back at the
      balance it had before the transfer. */
  lemma RemoveTransferRestores(book: Book, env: Env, userId: Id, dto: TransferDto, freshOut: Id, inId: Id, feeId: Id,
                               g: Id, leg: Id)
    requires Inv(book) && dto.fromAccountId != dto.toAccountId && FeeNotNegative(dto.feeMinor)
    requires GroupUnused(book.txs, g) && !IsReplay(book.txs, userId, dto.id)
    requires TransferBetween(book, env, userId, dto, freshOut, inId, feeId, g).Success?
    requires leg == dto.id.GetOr(freshOut) || leg == inId
    ensures var moved := TransferBetween(book, env, userId, dto, freshOut, inId, feeId, g).value;
      var r := Remove(moved, userId, leg, false, false);
      r.Success? && r.value.accounts == book.accounts && AddsOnlyDeleted(book.txs, r.value.txs)
  {
    var moved := TransferBetween(book, env, userId, dto, freshOut, inId, feeId, g).value;
    assert Balanced(moved) by {
      TransferKeeps(book, env, userId, dto, freshOut, inId, feeId, g);
    }
    TransferAddsRows(book, env, userId, dto, freshOut, inId, feeId, g);
    RemoveNewTransfer(book, moved, userId, dto.id.GetOr(freshOut), inId, g, leg);
  }

  // ----- rows are never taken out of the table -----

  /** A row keeps its owner, type, source, parent and group for ever, and never comes back once deleted. */
  ghost predicate SameIdentity(before: Tx, after: Tx) {
    && after.userId == before.userId && after.kind == before.kind && after.source == before.source
    && after.feeFor == before.feeFor && after.transferGroupId == before.transferGroupId
    && (before.deleted ==> after == before)
  }

  ghost predicate Persist(txs: map<Id, Tx>, later: map<Id, Tx>) {
    forall t :: t in txs ==> t in later && SameIdentity(txs[t], later[t])
  }

  /** Where an operation ends, seen from the rows only: new rows, or old rows with the same identity. */
  lemma PostOptionalFeePersists(book: Book, env: Env, userId: Id, parent: Id, accountId: Id, at: int,
          fee: Option<int>, feeId: Id)
    ensures var r := PostOptionalFee(book, env, userId, parent, accountId, at, fee, feeId);
      r.Success? ==> Persist(book.txs, r.value.txs)
  {
  }

  lemma CreatePersists(book: Book, env: Env, userId: Id, dto: CreateDto, source: Source, freshId: Id, feeId: Id)
    ensures var r := Create(book, env, userId, dto, source, freshId, feeId); r.Success? ==> Persist(book.txs, r.value.txs)
  {
    var id := dto.id.GetOr(freshId);
    PostOptionalFeePersists(Put(book, id, NewRow(env, userId, dto, source)), env, userId, id,
                            dto.accountId, dto.occurredAt, dto.feeMinor, feeId);
  }

  lemma UpdatePersists(book: Book, env: Env, userId: Id, id: Id, dto: UpdateDto, feeId: Id)
    ensures var r := Update(book, env, userId, id, dto, feeId); r.Success? ==> Persist(book.txs, r.value.txs)
  {
    if UpdateError(book, env, userId, id, dto).None? {
      var row := UpdatedRow(book.txs[id], dto);
      var moved := Put(book, id, row);
      assert Persist(book.txs, moved.txs);
      var r := ChangeFee(moved, env, userId, id, row, dto.feeMinor, feeId);
      assert r.Success? ==> Persist(moved.txs, r.value.txs);
    }
  }

  lemma TransferPersists(book: Book, env: Env, userId: Id, dto: TransferDto, freshOut: Id, inId: Id, feeId: Id, g: Id)
    ensures var r := TransferBetween(book, env, userId, dto, freshOut, inId, feeId, g);
      r.Success? ==> Persist(book.txs, r.value.txs)
  {
    var outId := dto.id.GetOr(freshOut);
    var both := Put(Put(book, outId, LegRow(userId, dto.fromAccountId, Expense, dto, g)),
                    inId, LegRow(userId, dto.toAccountId, Income, dto, g));
    PostOptionalFeePersists(both, env, userId, outId, dto.fromAccountId, dto.occurredAt, dto.feeMinor, feeId);
  }

  lemma StepPersists(book: Book, op: Op)
    ensures Persist(book.txs, Step(book, op).txs)
  {
    match op
    case CreateOp(env, user, dto, source, freshId, feeId) => CreatePersists(book, env, user, dto, source, freshId, feeId);
    case UpdateOp(env, user, id, dto, feeId) => UpdatePersists(book, env, user, id, dto, feeId);
    case RemoveOp(user, id, allowPayment, allowCreation) =>
    case TransferOp(env, user, dto, freshId, inId, feeId, g) =>
      TransferPersists(book, env, user, dto, freshId, inId, feeId, g);
    case OpenOp(user, id, freshId, known, opening, at) =>
    case CloseOp(user, id) =>
    case ArchiveOp(user, id, archived) =>
    case ReconcileOp(env, user, a, actual, asOf, freshId) =>
      if OwnsAccount(book, user, a) {
        var dto := AdjustmentDto(a, actual - book.accounts[a].currentMinor, asOf, env);
        CreatePersists(book, env, user, dto, Adjustment, freshId, freshId);
      }
  }

  lemma {:induction false} RunPersists(book: Book, ops: seq<Op>)
    ensures Persist(book.txs, Run(book, ops).txs)
    decreases |ops|
  {
    if ops != [] {
      StepPersists(book, ops[0]);
      RunPersists(Step(book, ops[0]), ops[1..]);
    }
  }

  /** An update that passes its checks and asks for a positive fee is refused exactly when the parent's fee line
      was deleted before: the unique parent reference of the deleted row is still taken. */
  lemma FeeUpdateAccepted(book: Book, env: Env, userId: Id, id: Id, dto: UpdateDto, feeId: Id)
    requires Inv(book) && UpdateError(book, env, userId, id, dto).None?
    requires dto.feeMinor.Set? && dto.feeMinor.value > 0
    requires env.feeCategory.Some? && feeId !in book.txs
    ensures Update(book, env, userId, id, dto, feeId).Success?
       <==> !(exists f :: f in book.txs && book.txs[f].feeFor == Some(id) && book.txs[f].deleted)
  {
    var moved := Put(book, id, UpdatedRow(book.txs[id], dto));
    assert forall f :: f in book.txs ==> FeeOk(book.txs, book.txs[f]);
    assert forall f :: f in book.txs <==> f in moved.txs;
    assert forall f :: f in book.txs ==> moved.txs[f].feeFor == book.txs[f].feeFor && moved.txs[f].deleted == book.txs[f].deleted;
    var fee := LiveFee(moved.txs, id);
    if FeeSlotTaken(moved.txs, id) {
      var f :| f in moved.txs && moved.txs[f].feeFor == Some(id);
      assert fee.Some? <==> !book.txs[f].deleted by {
        assert IsLiveFeeOf(moved.txs, f, id) <==> !book.txs[f].deleted;
      }
    }
  }

  /** The fee slot of `parent` is held by a soft-deleted row. */
  ghost predicate FeeSlotDead(txs: map<Id, Tx>, parent: Id) {
    exists f :: f in txs && txs[f].feeFor == Some(parent) && txs[f].deleted
  }

  /** Null and 0 both delete the fee line. */
  predicate ClearsFee(dto: UpdateDto) {
    dto.feeMinor.Null? || dto.feeMinor == Set(0)
  }

  lemma ClearingKillsSlot(book: Book, env: Env, userId: Id, id: Id, dto: UpdateDto, feeId: Id)
    requires LiveFee(book.txs, id).Some? && id in book.txs && book.txs[id].feeFor == None
    requires ClearsFee(dto) && Update(book, env, userId, id, dto, feeId).Success?
    ensures FeeSlotDead(Update(book, env, userId, id, dto, feeId).value.txs, id)
  {
    var f := LiveFee(book.txs, id).value;
    var moved := Put(book, id, UpdatedRow(book.txs[id], dto));
    assert IsLiveFeeOf(moved.txs, f, id);
    var fee := LiveFee(moved.txs, id).value;
    var cleared := Update(book, env, userId, id, dto, feeId).value;
    assert cleared.txs[fee].feeFor == Some(id) && cleared.txs[fee].deleted;
  }

  lemma DeadSlotHasNoLiveFee(txs: map<Id, Tx>, parent: Id, row: Tx)
    requires FeesOk(txs) && FeeSlotDead(txs, parent)
    requires parent in txs && row.feeFor == None == txs[parent].feeFor
    ensures LiveFee(txs[parent := row], parent).None? && FeeSlotTaken(txs[parent := row], parent)
  {
    var f :| f in txs && txs[f].feeFor == Some(parent) && txs[f].deleted;
    forall t | t in txs
      ensures !IsLiveFeeOf(txs[parent := row], t, parent)
    {
      assert t in txs && txs[t].feeFor == Some(parent) ==> t == f;
    }
    assert txs[parent := row][f].feeFor == Some(parent);
  }

  /** With the fee slot dead, no update gives the transaction a fee. */
  lemma DeadSlotRefusesFee(book: Book, env: Env, userId: Id, id: Id, dto: UpdateDto, feeId: Id)
    requires Inv(book) && FeeSlotDead(book.txs, id)
    requires dto.feeMinor.Set? && dto.feeMinor.value > 0
    ensures Update(book, env, userId, id, dto, feeId).Failure?
  {
    if UpdateError(book, env, userId, id, dto).None? {
      assert FeeOk(book.txs, book.txs[id]);
      DeadSlotHasNoLiveFee(book.txs, id, UpdatedRow(book.txs[id], dto));
    }
  }

  lemma SlotStaysDead(txs: map<Id, Tx>, later: map<Id, Tx>, parent: Id)
    requires Persist(txs, later) && FeeSlotDead(txs, parent)
    ensures FeeSlotDead(later, parent)
  {
    var f :| f in txs && txs[f].feeFor == Some(parent) && txs[f].deleted;
    assert later[f].feeFor == Some(parent) && later[f].deleted;
  }

  /** Once an update has cleared the fee of a transaction, no later update of any run can give it a fee again. */
  lemma ClearedFeeNeverReturns(book: Book, env: Env, userId: Id, id: Id, dto: UpdateDto, feeId: Id,
                               ops: seq<Op>, later: Env, again: UpdateDto, otherFeeId: Id)
    requires Inv(book) && LiveFee(book.txs, id).Some?
    requires ClearsFee(dto) && Update(book, env, userId, id, dto, feeId).Success?
    requires again.feeMinor.Set? && again.feeMinor.value > 0
    requires AdmissibleRun(Update(book, env, userId, id, dto, feeId).value, ops)
    ensures Update(Run(Update(book, env, userId, id, dto, feeId).value, ops), later, userId, id, again, otherFeeId).Failure?
  {
    var cleared := Update(book, env, userId, id, dto, feeId).value;
    assert book.txs[id].feeFor == None by {
      assert FeeOk(book.txs, book.txs[id]);
    }
    UpdateKeeps(book, env, userId, id, dto, feeId);
    ClearingKillsSlot(book, env, userId, id, dto, feeId);
    RunPersists(cleared, ops);
    EveryRunKeepsInv(cleared, ops);
    SlotStaysDead(cleared.txs, Run(cleared, ops).txs, id);
    DeadSlotRefusesFee(Run(cleared, ops), later, userId, id, again, otherFeeId);
  }

  // ----- the fee line of an updated transaction -----

  /** A fee line that stood on the account of its parent, or on its date, is left behind there by an update if and only if
      the update moves the parent and does not name the fee. */
  lemma FeeLineLeftBehind(book: Book, env: Env, userId: Id, id: Id, dto: UpdateDto, feeId: Id, f: Id)
    requires Inv(book) && IsLiveFeeOf(book.txs, f, id)
    requires Update(book, env, userId, id, dto, feeId).Success?
    ensures var txs := Update(book, env, userId, id, dto, feeId).value.txs;
      && id in txs && f in txs
      && (book.txs[f].accountId == book.txs[id].accountId ==>
            (IsLiveFeeOf(txs, f, id) && txs[f].accountId != txs[id].accountId
             <==> dto.feeMinor.Unset? && dto.accountId.Some? && dto.accountId.value != book.txs[id].accountId))
      && (book.txs[f].occurredAt == book.txs[id].occurredAt ==>
            (IsLiveFeeOf(txs, f, id) && txs[f].occurredAt != txs[id].occurredAt
             <==> dto.feeMinor.Unset? && dto.occurredAt.Some? && dto.occurredAt.value != book.txs[id].occurredAt))
  {
    assert FeeOk(book.txs, book.txs[f]);
    var moved := Put(book, id, UpdatedRow(book.txs[id], dto));
    OnlyLiveFee(book.txs, moved.txs, f, id);
  }

  lemma OnlyLiveFee(txs: map<Id, Tx>, moved: map<Id, Tx>, f: Id, parent: Id)
    requires FeesOk(txs) && IsLiveFeeOf(txs, f, parent) && f != parent && parent in txs
    requires moved.Keys == txs.Keys && forall t :: t in txs && t != parent ==> moved[t] == txs[t]
    requires moved[parent].feeFor == txs[parent].feeFor
    ensures LiveFee(moved, parent) == Some(f)
  {
    assert IsLiveFeeOf(moved, f, parent);
    var g := LiveFee(moved, parent).value;
    assert txs[g].feeFor == txs[f].feeFor;
  }

  function ExpenseWithFee(a: Id, amountMinor: int, at: int, feeMinor: int): CreateDto {
    CreateDto(None, a, Expense, amountMinor, at, None, Some(feeMinor))
  }

  function MovedTo(b: Id): UpdateDto {
    UpdateDto(Some(b), None, None, Unset, Unset)
  }

  lemma TwoAccountsOpened(user: Id, a: Id, b: Id, openingMinor: int, at: int)
    requires a != b
    ensures var book := Step(Step(EMPTY_BOOK, OpenOp(user, None, a, true, openingMinor, at)),
                             OpenOp(user, None, b, true, openingMinor, at));
      && book.txs == map[] && OwnsAccount(book, user, a) && OwnsAccount(book, user, b)
      && book.accounts[a].openingAt == at && book.accounts[b].openingAt == at
  {
  }

  lemma CreatedWithFee(book: Book, env: Env, user: Id, a: Id, amountMinor: int, at: int, feeMinor: int, id: Id, f: Id)
    requires book.txs == map[] && OwnsAccount(book, user, a) && book.accounts[a].openingAt <= at <= env.now
    requires amountMinor > 0 && feeMinor > 0 && id != f && env.feeCategory.Some?
    ensures var created := Step(book, CreateOp(env, user, ExpenseWithFee(a, amountMinor, at, feeMinor), Manual, id, f));
      && created.txs == map[id := NewRow(env, user, ExpenseWithFee(a, amountMinor, at, feeMinor), Manual),
                            f := FeeRow(env, user, id, a, at, feeMinor)]
      && (forall c :: OwnsAccount(book, user, c) ==>
            OwnsAccount(created, user, c) && created.accounts[c].openingAt == book.accounts[c].openingAt)
  {
    var dto := ExpenseWithFee(a, amountMinor, at, feeMinor);
    var before := Put(book, id, NewRow(env, user, dto, Manual));
    assert !FeeSlotTaken(before.txs, id);
    assert PostFee(before, env, user, id, a, at, feeMinor, f).Success?;
  }

  /** From the empty book: two accounts, an expense with a fee on the first, and the expense moved to the second. The fee is
      still paid from the first. */
  lemma FeeStaysOnOldAccount(env: Env, user: Id, a: Id, b: Id, openingMinor: int, at: int, amountMinor: int,
          feeMinor: int, id: Id, f: Id)
    requires a != b && id != f && amountMinor > 0 && feeMinor > 0 && at <= env.now && env.feeCategory.Some?
    ensures var txs := Run(EMPTY_BOOK, [
        OpenOp(user, None, a, true, openingMinor, at), OpenOp(user, None, b, true, openingMinor, at),
        CreateOp(env, user, ExpenseWithFee(a, amountMinor, at, feeMinor), Manual, id, f),
        UpdateOp(env, user, id, MovedTo(b), f)]).txs;
      && id in txs && IsLiveFeeOf(txs, f, id) && txs[id].accountId == b && txs[f].accountId == a
  {
    var openA, openB := OpenOp(user, None, a, true, openingMinor, at), OpenOp(user, None, b, true, openingMinor, at);
    var create := CreateOp(env, user, ExpenseWithFee(a, amountMinor, at, feeMinor), Manual, id, f);
    var move := UpdateOp(env, user, id, MovedTo(b), f);
    var funded := Step(Step(EMPTY_BOOK, openA), openB);
    TwoAccountsOpened(user, a, b, openingMinor, at);
    CreatedWithFee(funded, env, user, a, amountMinor, at, feeMinor, id, f);
    MoveLeavesFee(Step(funded, create), env, user, id, b, f);
    RunOfFour(EMPTY_BOOK, openA, openB, create, move);
  }

  lemma MoveLeavesFee(book: Book, env: Env, user: Id, id: Id, b: Id, f: Id)
    requires id in book.txs && IsLiveFeeOf(book.txs, f, id) && f != id && OwnsAccount(book, user, b)
    requires UpdateGuard(book, user, id).None? && book.txs[id].amountMinor > 0
    requires book.accounts[b].openingAt <= book.txs[id].occurredAt <= env.now
    ensures Step(book, UpdateOp(env, user, id, MovedTo(b), f)).txs == book.txs[id := book.txs[id].(accountId := b)]
  {
  }

  lemma RunCons(book: Book, op: Op, rest: seq<Op>)
    ensures Run(book, [op] + rest) == Run(Step(book, op), rest)
  {
    assert ([op] + rest)[1..] == rest;
  }

  lemma RunOfTwo(book: Book, a: Op, b: Op)
    ensures Run(book, [a, b]) == Step(Step(book, a), b)
  {
    RunCons(book, a, [b]);
    RunCons(Step(book, a), b, []);
    assert [a] + [b] == [a, b] && [b] + [] == [b];
  }

  lemma RunOfFour(book: Book, a: Op, b: Op, c: Op, d: Op)
    ensures Run(book, [a, b, c, d]) == Step(Step(Step(Step(book, a), b), c), d)
  {
    RunCons(book, a, [b, c, d]);
    RunCons(Step(book, a), b, [c, d]);
    RunOfTwo(Step(Step(book, a), b), c, d);
    assert [a] + [b, c, d] == [a, b, c, d] && [b] + [c, d] == [b, c, d];
  }
}
