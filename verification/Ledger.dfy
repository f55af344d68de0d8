/**
 The ledger: accounts with a stored balance, transaction rows with a soft-delete flag, and what each
 service operation does to them. The operations are stated as functions on an immutable `Book`;
 `LedgerService` carries them out step by step on mutable tables.
 */
module Ledger {
  import opened Wrappers
  import opened MapSums

  type Id = int

  datatype TxType = Expense | Income | Transfer

  datatype Source = Manual | Import | Recurrence | DebtPayment | DebtCreation | Adjustment | FeeLine

  datatype Account = Account(
    userId: Id, openingMinor: int, openingAt: int, currentMinor: int,
    archived: bool, deleted: bool, reconciledAt: Option<int>)

  datatype Tx = Tx(
    userId: Id, accountId: Id, kind: TxType, amountMinor: int, occurredAt: int, categoryId: Option<Id>,
    transferGroupId: Option<Id>, source: Source, feeFor: Option<Id>, deleted: bool)

  datatype Category = Category(userId: Id, kind: TxType)

  datatype Book = Book(accounts: map<Id, Account>, txs: map<Id, Tx>)

  datatype Error =
    | AmountMustBePositive | AccountNotFound | DateBeforeOpeningBalance | DateTooFarInFuture
    | CategoryNotFound | CategoryKindMismatch | SystemCategoryNotFound | UniqueViolation
    | CurrencyNotFound | TransactionNotFound | IsTransferLeg | LinkedToDebtPayment | IsFeeLine | AccountHasTransactions

  /** What an operation reads besides the two tables: the clock, the categories, the fee and adjustment
      system categories, and the category a matching rule would assign. */
  datatype Env = Env(
    now: int, categories: map<Id, Category>, feeCategory: Option<Id>, adjustmentCategory: Option<Id>,
    ruleCategory: Option<Id>)

  /** An optional field of an update: left out, explicitly null, or given. */
  datatype Patch<+T> = Unset | Null | Set(value: T)

  datatype CreateDto = CreateDto(
    id: Option<Id>, accountId: Id, kind: TxType, amountMinor: int, occurredAt: int, categoryId: Option<Id>,
    feeMinor: Option<int>)

  datatype UpdateDto = UpdateDto(
    accountId: Option<Id>, amountMinor: Option<int>, occurredAt: Option<int>, categoryId: Patch<Id>,
    feeMinor: Patch<int>)

  datatype TransferDto = TransferDto(
    id: Option<Id>, fromAccountId: Id, toAccountId: Id, amountMinor: int, occurredAt: int, feeMinor: Option<int>)

  const ONE_YEAR_MS := 366 * 24 * 60 * 60 * 1000

  // ----- the stored balance and its definition -----

  function BalanceDelta(kind: TxType, amountMinor: int): int {
    if kind == Income then amountMinor else -amountMinor
  }

  /** What one row contributes to the balance of account `a`: nothing once it is soft-deleted. */
  function Effect(a: Id): Tx -> int {
    (t: Tx) => if !t.deleted && t.accountId == a then BalanceDelta(t.kind, t.amountMinor) else 0
  }

  /** The two aggregates of the nightly drift check. */
  function AmountOf(userId: Id, a: Id, kind: TxType): Tx -> int {
    (t: Tx) => if !t.deleted && t.userId == userId && t.accountId == a && t.kind == kind then t.amountMinor else 0
  }

  ghost function ComputedBalance(book: Book, a: Id): int
    requires a in book.accounts
  {
    var account := book.accounts[a];
    account.openingMinor + Sum(book.txs, AmountOf(account.userId, a, Income))
                         - Sum(book.txs, AmountOf(account.userId, a, Expense))
  }

  // ----- the invariant of every reachable book -----

  ghost predicate Balanced(book: Book) {
    forall a :: a in book.accounts ==>
      book.accounts[a].currentMinor == book.accounts[a].openingMinor + Sum(book.txs, Effect(a))
  }

  ghost predicate RowOk(book: Book, t: Tx) {
    && t.accountId in book.accounts
    && t.amountMinor > 0
    && t.kind != Transfer
    && t.userId == book.accounts[t.accountId].userId
    && (!t.deleted ==> !book.accounts[t.accountId].deleted)
  }

  ghost predicate RowsOk(book: Book) {
    forall id :: id in book.txs ==> RowOk(book, book.txs[id])
  }

  ghost predicate FeeOk(txs: map<Id, Tx>, t: Tx) {
    && (t.source == FeeLine <==> t.feeFor.Some?)
    && (t.feeFor.Some? ==>
          && t.kind == Expense && t.transferGroupId == None
          && t.feeFor.value in txs
          && txs[t.feeFor.value].source != FeeLine
          && txs[t.feeFor.value].userId == t.userId
          && (!t.deleted ==> !txs[t.feeFor.value].deleted))
  }

  /** Every live fee line hangs from a live parent, and a parent has at most one fee row, live or deleted. */
  ghost predicate FeesOk(txs: map<Id, Tx>) {
    && (forall id :: id in txs ==> FeeOk(txs, txs[id]))
    && (forall i, j :: i in txs && j in txs && txs[i].feeFor.Some? && txs[i].feeFor == txs[j].feeFor ==> i == j)
  }

  /** Rows `x` and `y` are the two legs of transfer `g`, and nothing else belongs to it. */
  ghost predicate Legs(txs: map<Id, Tx>, g: Id, x: Id, y: Id) {
    && x != y && x in txs && y in txs
    && txs[x].transferGroupId == Some(g) && txs[y].transferGroupId == Some(g)
    && txs[x].amountMinor == txs[y].amountMinor
    && txs[x].kind != txs[y].kind
    && txs[x].accountId != txs[y].accountId
    && txs[x].userId == txs[y].userId
    && txs[x].deleted == txs[y].deleted
    && (forall z :: z in txs && txs[z].transferGroupId == Some(g) ==> z == x || z == y)
  }

  ghost predicate HasOtherLeg(txs: map<Id, Tx>, id: Id)
    requires id in txs
  {
    txs[id].transferGroupId.Some? ==> exists other :: Legs(txs, txs[id].transferGroupId.value, id, other)
  }

  ghost predicate GroupsOk(txs: map<Id, Tx>) {
    forall id :: id in txs ==> HasOtherLeg(txs, id)
  }

  ghost predicate Inv(book: Book) {
    Balanced(book) && RowsOk(book) && FeesOk(book.txs) && GroupsOk(book.txs)
  }

  const EMPTY_BOOK := Book(map[], map[])

  // ----- the two ways a row changes -----

  function EffectOfRow(txs: map<Id, Tx>, id: Id, a: Id): int {
    if id in txs then Effect(a)(txs[id]) else 0
  }

  /** Writes row `id`; every account moves by the new effect of the row minus its old one. */
  function Put(book: Book, id: Id, row: Tx): (r: Book) {
    Book(
      map a | a in book.accounts ::
        book.accounts[a].(currentMinor := book.accounts[a].currentMinor + Effect(a)(row) - EffectOfRow(book.txs, id, a)),
      book.txs[id := row])
  }

  function Restrict(txs: map<Id, Tx>, ids: set<Id>): map<Id, Tx> {
    map id | id in txs && id in ids :: txs[id]
  }

  function Voided(txs: map<Id, Tx>, ids: set<Id>): map<Id, Tx> {
    map id | id in txs :: if id in ids then txs[id].(deleted := true) else txs[id]
  }

  /** Soft-deletes the rows `ids`; every account gives back what they contributed. */
  ghost function Void(book: Book, ids: set<Id>): Book {
    Book(
      map a | a in book.accounts ::
        book.accounts[a].(currentMinor := book.accounts[a].currentMinor - Sum(Restrict(book.txs, ids), Effect(a))),
      Voided(book.txs, ids))
  }

  // ----- the operations -----

  function Validate(book: Book, userId: Id, accountId: Id, amountMinor: int, occurredAt: int, now: int)
    : Option<Error>
  {
    if amountMinor <= 0 then Some(AmountMustBePositive)
    else if accountId !in book.accounts || book.accounts[accountId].deleted || book.accounts[accountId].userId != userId
    then Some(AccountNotFound)
    else if occurredAt < book.accounts[accountId].openingAt then Some(DateBeforeOpeningBalance)
    else if occurredAt > now + ONE_YEAR_MS then Some(DateTooFarInFuture)
    else None
  }

  function CategoryError(env: Env, userId: Id, categoryId: Id, kind: TxType): Option<Error> {
    if categoryId !in env.categories || env.categories[categoryId].userId != userId then Some(CategoryNotFound)
    else if env.categories[categoryId].kind != kind then Some(CategoryKindMismatch)
    else None
  }

  /** Some row, soft-deleted or not, already occupies the unique `feeForTransactionId` of `parent`. */
  ghost predicate FeeSlotTaken(txs: map<Id, Tx>, parent: Id) {
    exists f :: f in txs && txs[f].feeFor == Some(parent)
  }

  ghost predicate IsLiveFeeOf(txs: map<Id, Tx>, f: Id, parent: Id) {
    f in txs && !txs[f].deleted && txs[f].feeFor == Some(parent)
  }

  ghost function LiveFee(txs: map<Id, Tx>, parent: Id): (r: Option<Id>)
    ensures r.Some? ==> IsLiveFeeOf(txs, r.value, parent)
    ensures r.None? ==> forall f :: !IsLiveFeeOf(txs, f, parent)
  {
    if f :| IsLiveFeeOf(txs, f, parent) then Some(f) else None
  }

  function FeeRow(env: Env, userId: Id, parent: Id, accountId: Id, occurredAt: int, feeMinor: int): Tx {
    Tx(userId, accountId, Expense, feeMinor, occurredAt, env.feeCategory, None, FeeLine, Some(parent), false)
  }

  ghost function PostFee(book: Book, env: Env, userId: Id, parent: Id, accountId: Id, occurredAt: int,
                         feeMinor: int, feeId: Id): Result<Book, Error>
  {
    if env.feeCategory.None? then Failure(SystemCategoryNotFound)
    else if feeId in book.txs || FeeSlotTaken(book.txs, parent) then Failure(UniqueViolation)
    else Success(Put(book, feeId, FeeRow(env, userId, parent, accountId, occurredAt, feeMinor)))
  }

  ghost function PostOptionalFee(book: Book, env: Env, userId: Id, parent: Id, accountId: Id, occurredAt: int,
                                 feeMinor: Option<int>, feeId: Id): Result<Book, Error>
  {
    if feeMinor.Some? && feeMinor.value > 0
    then PostFee(book, env, userId, parent, accountId, occurredAt, feeMinor.value, feeId)
    else Success(book)
  }

  predicate IsReplay(txs: map<Id, Tx>, userId: Id, id: Option<Id>) {
    id.Some? && id.value in txs && !txs[id.value].deleted && txs[id.value].userId == userId
  }

  function NewRow(env: Env, userId: Id, dto: CreateDto, source: Source): Tx {
    Tx(userId, dto.accountId, dto.kind, dto.amountMinor, dto.occurredAt,
       if dto.categoryId.Some? then dto.categoryId else env.ruleCategory, None, source, None, false)
  }

  function CreateError(book: Book, env: Env, userId: Id, dto: CreateDto, source: Source): Option<Error> {
    var invalid := Validate(book, userId, dto.accountId, dto.amountMinor, dto.occurredAt, env.now);
    if invalid.Some? then invalid
    else if dto.categoryId.Some? && source != Adjustment
    then CategoryError(env, userId, dto.categoryId.value, dto.kind)
    else None
  }

  ghost function Create(book: Book, env: Env, userId: Id, dto: CreateDto, source: Source, freshId: Id, feeId: Id)
    : Result<Book, Error>
  {
    if IsReplay(book.txs, userId, dto.id) then Success(book)
    else if CreateError(book, env, userId, dto, source).Some?
    then Failure(CreateError(book, env, userId, dto, source).value)
    else
      var id := dto.id.GetOr(freshId);
      if id in book.txs then Failure(UniqueViolation)
      else
        PostOptionalFee(Put(book, id, NewRow(env, userId, dto, source)), env, userId, id,
                        dto.accountId, dto.occurredAt, dto.feeMinor, feeId)
  }

  /** The row a plain update may touch, or why it may not. */
  function UpdateGuard(book: Book, userId: Id, id: Id): Option<Error> {
    if id !in book.txs || book.txs[id].deleted || book.txs[id].userId != userId then Some(TransactionNotFound)
    else if book.txs[id].transferGroupId.Some? then Some(IsTransferLeg)
    else if book.txs[id].source == DebtPayment || book.txs[id].source == DebtCreation then Some(LinkedToDebtPayment)
    else if book.txs[id].source == FeeLine then Some(IsFeeLine)
    else None
  }

  function UpdatedRow(row: Tx, dto: UpdateDto): Tx {
    row.(accountId := dto.accountId.GetOr(row.accountId),
         amountMinor := dto.amountMinor.GetOr(row.amountMinor),
         occurredAt := dto.occurredAt.GetOr(row.occurredAt),
         categoryId := match dto.categoryId case Unset => row.categoryId case Null => None case Set(c) => Some(c))
  }

  function UpdateError(book: Book, env: Env, userId: Id, id: Id, dto: UpdateDto): Option<Error> {
    var guard := UpdateGuard(book, userId, id);
    if guard.Some? then guard
    else
      var row := UpdatedRow(book.txs[id], dto);
      var invalid := Validate(book, userId, row.accountId, row.amountMinor, row.occurredAt, env.now);
      if invalid.Some? then invalid
      else if dto.categoryId.Set? then CategoryError(env, userId, dto.categoryId.value, row.kind)
      else None
  }

  /** The fee line after an update of its parent to `row`. */
  ghost function ChangeFee(book: Book, env: Env, userId: Id, id: Id, row: Tx, feeMinor: Patch<int>, feeId: Id)
    : Result<Book, Error>
  {
    if feeMinor.Unset? then Success(book)
    else
      var fee := LiveFee(book.txs, id);
      var next := if feeMinor.Set? then feeMinor.value else 0;
      if next == 0 then
        if fee.Some? then Success(Void(book, {fee.value})) else Success(book)
      else if fee.Some? then
        Success(Put(book, fee.value,
                    book.txs[fee.value].(accountId := row.accountId, amountMinor := next, occurredAt := row.occurredAt)))
      else PostFee(book, env, userId, id, row.accountId, row.occurredAt, next, feeId)
  }

  ghost function Update(book: Book, env: Env, userId: Id, id: Id, dto: UpdateDto, feeId: Id): Result<Book, Error> {
    if UpdateError(book, env, userId, id, dto).Some? then Failure(UpdateError(book, env, userId, id, dto).value)
    else
      var row := UpdatedRow(book.txs[id], dto);
      ChangeFee(Put(book, id, row), env, userId, id, row, dto.feeMinor, feeId)
  }

  function RemoveGuard(book: Book, userId: Id, id: Id, allowDebtPayment: bool, allowDebtCreation: bool): Option<Error> {
    if id !in book.txs || book.txs[id].deleted || book.txs[id].userId != userId then Some(TransactionNotFound)
    else if book.txs[id].source == DebtPayment && !allowDebtPayment then Some(LinkedToDebtPayment)
    else if book.txs[id].source == DebtCreation && !allowDebtCreation then Some(LinkedToDebtPayment)
    else if book.txs[id].source == FeeLine then Some(IsFeeLine)
    else None
  }

  /** The live rows of the user's transfer, or the row alone when it is not a transfer leg. */
  function LegsOf(txs: map<Id, Tx>, userId: Id, id: Id): set<Id>
    requires id in txs
  {
    if txs[id].transferGroupId.Some?
    then set x | x in txs && !txs[x].deleted && txs[x].userId == userId && txs[x].transferGroupId == txs[id].transferGroupId
    else {id}
  }

  function FeesOf(txs: map<Id, Tx>, legs: set<Id>): set<Id> {
    set f | f in txs && !txs[f].deleted && txs[f].feeFor.Some? && txs[f].feeFor.value in legs
  }

  ghost function Remove(book: Book, userId: Id, id: Id, allowDebtPayment: bool, allowDebtCreation: bool)
    : Result<Book, Error>
  {
    if RemoveGuard(book, userId, id, allowDebtPayment, allowDebtCreation).Some?
    then Failure(RemoveGuard(book, userId, id, allowDebtPayment, allowDebtCreation).value)
    else
      var legs := LegsOf(book.txs, userId, id);
      Success(Void(book, legs + FeesOf(book.txs, legs)))
  }

  function LegRow(userId: Id, accountId: Id, kind: TxType, dto: TransferDto, g: Id): Tx {
    Tx(userId, accountId, kind, dto.amountMinor, dto.occurredAt, None, Some(g), Manual, None, false)
  }

  /** On a replay the other leg is looked up by the row's group; a row without a group matches any other row. */
  ghost predicate ReplayedLegFound(txs: map<Id, Tx>, userId: Id, id: Id)
    requires id in txs
  {
    exists x :: x in txs && x != id && !txs[x].deleted && txs[x].userId == userId
             && (txs[id].transferGroupId.Some? ==> txs[x].transferGroupId == txs[id].transferGroupId)
  }

  ghost function TransferBetween(book: Book, env: Env, userId: Id, dto: TransferDto,
                                 freshOut: Id, inId: Id, feeId: Id, g: Id): Result<Book, Error>
  {
    if IsReplay(book.txs, userId, dto.id) then
      if ReplayedLegFound(book.txs, userId, dto.id.value) then Success(book) else Failure(TransactionNotFound)
    else
      var badFrom := Validate(book, userId, dto.fromAccountId, dto.amountMinor, dto.occurredAt, env.now);
      var badTo := Validate(book, userId, dto.toAccountId, dto.amountMinor, dto.occurredAt, env.now);
      if badFrom.Some? then Failure(badFrom.value)
      else if badTo.Some? then Failure(badTo.value)
      else
        var outId := dto.id.GetOr(freshOut);
        if outId in book.txs || inId in book.txs || inId == outId then Failure(UniqueViolation)
        else
          var out := Put(book, outId, LegRow(userId, dto.fromAccountId, Expense, dto, g));
          var both := Put(out, inId, LegRow(userId, dto.toAccountId, Income, dto, g));
          PostOptionalFee(both, env, userId, outId, dto.fromAccountId, dto.occurredAt, dto.feeMinor, feeId)
  }

  function OpenAccount(book: Book, userId: Id, id: Option<Id>, freshId: Id, currencyKnown: bool, openingMinor: int,
                       openingAt: int): Result<Book, Error>
  {
    if id.Some? && id.value in book.accounts && !book.accounts[id.value].deleted && book.accounts[id.value].userId == userId
    then Success(book)
    else if !currencyKnown then Failure(CurrencyNotFound)
    else if id.GetOr(freshId) in book.accounts then Failure(UniqueViolation)
    else
      var account := Account(userId, openingMinor, openingAt, openingMinor, false, false, None);
      Success(book.(accounts := book.accounts[id.GetOr(freshId) := account]))
  }

  predicate OwnsAccount(book: Book, userId: Id, id: Id) {
    id in book.accounts && !book.accounts[id].deleted && book.accounts[id].userId == userId
  }

  ghost predicate HasLiveTransactions(book: Book, userId: Id, a: Id) {
    exists t :: t in book.txs && !book.txs[t].deleted && book.txs[t].userId == userId && book.txs[t].accountId == a
  }

  ghost function CloseAccount(book: Book, userId: Id, id: Id): Result<Book, Error> {
    if !OwnsAccount(book, userId, id) then Failure(AccountNotFound)
    else if HasLiveTransactions(book, userId, id) then Failure(AccountHasTransactions)
    else Success(book.(accounts := book.accounts[id := book.accounts[id].(deleted := true)]))
  }

  function SetArchived(book: Book, userId: Id, id: Id, archived: bool): Result<Book, Error> {
    if !OwnsAccount(book, userId, id) then Failure(AccountNotFound)
    else Success(book.(accounts := book.accounts[id := book.accounts[id].(archived := archived)]))
  }

  function AdjustmentDto(accountId: Id, deltaMinor: int, asOf: int, env: Env): CreateDto {
    CreateDto(None, accountId, if deltaMinor > 0 then Income else Expense, if deltaMinor > 0 then deltaMinor else -deltaMinor,
              asOf, env.adjustmentCategory, None)
  }

  ghost function Reconcile(book: Book, env: Env, userId: Id, accountId: Id, actualMinor: int, asOf: int, freshId: Id)
    : Result<Book, Error>
  {
    if !OwnsAccount(book, userId, accountId) then Failure(AccountNotFound)
    else
      var deltaMinor := actualMinor - book.accounts[accountId].currentMinor;
      var booked :=
        if deltaMinor == 0 then Success(book)
        else if env.adjustmentCategory.None? then Failure(SystemCategoryNotFound)
        else Create(book, env, userId, AdjustmentDto(accountId, deltaMinor, asOf, env), Adjustment, freshId, freshId);
      if booked.Failure? || accountId !in booked.value.accounts then booked
      else
        var account := booked.value.accounts[accountId].(reconciledAt := Some(env.now));
        Success(booked.value.(accounts := booked.value.accounts[accountId := account]))
  }

  // ----- runs -----

  datatype Op =
    | CreateOp(env: Env, userId: Id, create: CreateDto, source: Source, freshId: Id, feeId: Id)
    | UpdateOp(env: Env, userId: Id, id: Id, update: UpdateDto, feeId: Id)
    | RemoveOp(userId: Id, id: Id, allowDebtPayment: bool, allowDebtCreation: bool)
    | TransferOp(env: Env, userId: Id, transfer: TransferDto, freshId: Id, inId: Id, feeId: Id, groupId: Id)
    | OpenOp(userId: Id, accountId: Option<Id>, freshId: Id, currencyKnown: bool, openingMinor: int, openingAt: int)
    | CloseOp(userId: Id, id: Id)
    | ArchiveOp(userId: Id, id: Id, archived: bool)
    | ReconcileOp(env: Env, userId: Id, id: Id, actualMinor: int, asOf: int, freshId: Id)

  ghost predicate GroupUnused(txs: map<Id, Tx>, g: Id) {
    forall t :: t in txs ==> txs[t].transferGroupId != Some(g)
  }

  /** What the request schemas accept, and that a new transfer group is a fresh value. */
  ghost predicate Admissible(book: Book, op: Op) {
    match op
    case CreateOp(_, _, dto, source, _, _) => dto.kind != Transfer && source != FeeLine && FeeNotNegative(dto.feeMinor)
    case UpdateOp(_, _, _, dto, _) => dto.feeMinor.Set? ==> dto.feeMinor.value >= 0
    case TransferOp(_, _, dto, _, _, _, g) =>
      dto.fromAccountId != dto.toAccountId && FeeNotNegative(dto.feeMinor) && GroupUnused(book.txs, g)
    case _ => true
  }

  predicate FeeNotNegative(feeMinor: Option<int>) {
    feeMinor.Some? ==> feeMinor.value >= 0
  }

  ghost function Attempt(book: Book, op: Op): Result<Book, Error> {
    match op
    case CreateOp(env, user, dto, source, freshId, feeId) => Create(book, env, user, dto, source, freshId, feeId)
    case UpdateOp(env, user, id, dto, feeId) => Update(book, env, user, id, dto, feeId)
    case RemoveOp(user, id, allowPayment, allowCreation) => Remove(book, user, id, allowPayment, allowCreation)
    case TransferOp(env, user, dto, freshId, inId, feeId, g) =>
      TransferBetween(book, env, user, dto, freshId, inId, feeId, g)
    case OpenOp(user, id, freshId, known, opening, at) => OpenAccount(book, user, id, freshId, known, opening, at)
    case CloseOp(user, id) => CloseAccount(book, user, id)
    case ArchiveOp(user, id, archived) => SetArchived(book, user, id, archived)
    case ReconcileOp(env, user, id, actual, asOf, freshId) => Reconcile(book, env, user, id, actual, asOf, freshId)
  }

  /** A refused operation leaves the book alone. */
  ghost function Step(book: Book, op: Op): Book {
    var result := Attempt(book, op);
    if result.Success? then result.value else book
  }

  ghost function Run(book: Book, ops: seq<Op>): Book
    decreases |ops|
  {
    if ops == [] then book else Run(Step(book, ops[0]), ops[1..])
  }

  ghost predicate AdmissibleRun(book: Book, ops: seq<Op>)
    decreases |ops|
  {
    ops == [] || (Admissible(book, ops[0]) && AdmissibleRun(Step(book, ops[0]), ops[1..]))
  }
}
