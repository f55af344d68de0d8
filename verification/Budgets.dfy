/** One budget with its materialized periods, and the transactions and categories they depend on. */
module Budgets {
  import opened Wrappers
  import opened Integers
  import opened MapSums
  import opened Rollover
  import opened PeriodBounds
  import opened Categories

  datatype Tx = Tx(isExpense: bool, categoryId: Option<Id>, amountMinor: int, occurredAt: int, inTransfer: bool, deleted: bool)

  datatype Period = Period(
    start: int, end: int, allocatedMinor: int, rolloverInMinor: int, spentMinor: int, lastAlertPct: Option<int>)

  datatype Budget = Budget(
    categoryId: Option<Id>, amountMinor: int, period: PeriodType, startsOn: int, endsOn: Option<int>,
    rollover: bool, alertThresholds: seq<int>, isActive: bool)

  /** An alert names the start of its period. */
  datatype Alert = Alert(periodStart: int, threshold: int)

  /** Periods are kept in chronological order. */
  datatype State = State(
    budget: Budget, periods: seq<Period>, txs: map<Id, Tx>, categories: map<Id, Category>, alerts: seq<Alert>)

  const GUARD := 60

  // ----- spending -----

  predicate Holds(start: int, end: int, t: int) {
    start <= t < end
  }

  /** A live expense outside transfers, in one of the categories and inside the interval. */
  predicate Spends(tx: Tx, scope: set<Id>, from: int, to: int) {
    !tx.deleted && tx.isExpense && !tx.inTransfer && tx.categoryId.Some? && tx.categoryId.value in scope
    && Holds(from, to, tx.occurredAt)
  }

  function Spending(scope: set<Id>, from: int, to: int): Tx -> int {
    (tx: Tx) => if Spends(tx, scope, from, to) then tx.amountMinor else 0
  }

  function Scope(s: State): set<Id>
    requires s.budget.categoryId.Some?
  {
    DescendantIds(s.categories, s.budget.categoryId.value)
  }

  /** A budget without a category does not compute spending. */
  ghost function SpentIn(s: State, from: int, to: int): int {
    if s.budget.categoryId == None then 0 else Sum(s.txs, Spending(Scope(s), from, to))
  }

  // ----- allocations -----

  function Spent(periods: seq<Period>): seq<int> {
    seq(|periods|, i requires 0 <= i < |periods| => periods[i].spentMinor)
  }

  function AllocationOf(period: Period): Allocation {
    Allocation(period.rolloverInMinor, period.allocatedMinor)
  }

  function Allocations(periods: seq<Period>): seq<Allocation> {
    seq(|periods|, i requires 0 <= i < |periods| => AllocationOf(periods[i]))
  }

  function WithAllocation(period: Period, allocation: Allocation): Period {
    period.(rolloverInMinor := allocation.rolloverInMinor, allocatedMinor := allocation.allocatedMinor)
  }

  function WithAllocations(periods: seq<Period>, allocations: seq<Allocation>): seq<Period>
    requires |periods| == |allocations|
  {
    seq(|periods|, i requires 0 <= i < |periods| => WithAllocation(periods[i], allocations[i]))
  }

  function Recascaded(budget: Budget, periods: seq<Period>): (recascaded: seq<Period>)
    ensures |recascaded| == |periods|
  {
    CascadeLength(budget.amountMinor, budget.rollover, Spent(periods), 0);
    WithAllocations(periods, CascadeRollover(budget.amountMinor, budget.rollover, Spent(periods)))
  }

  // ----- generating periods -----

  predicate Due(budget: Budget, cursor: int, horizon: int) {
    cursor <= horizon && (budget.endsOn == None || cursor <= budget.endsOn.value)
  }

  ghost function SpendingOf(s: State): (int, int) -> int {
    (from, to) => SpentIn(s, from, to)
  }

  /** `spentIn` gives the spending already recorded in an interval. */
  function NewPeriod(budget: Budget, spentIn: (int, int) -> int, next: int -> int, cursor: int, carry: int): Period {
    var carryIn := if budget.rollover then carry else 0;
    Period(cursor, next(cursor), budget.amountMinor + carryIn, carryIn, spentIn(cursor, next(cursor)), None)
  }

  function NewPeriods(budget: Budget, spentIn: (int, int) -> int, next: int -> int, cursor: int, carry: int,
      horizon: int, guard: nat): seq<Period>
    decreases GUARD - guard
  {
    if !Due(budget, cursor, horizon) || guard >= GUARD then []
    else
      var period := NewPeriod(budget, spentIn, next, cursor, carry);
      [period] + NewPeriods(budget, spentIn, next, period.end, period.allocatedMinor - period.spentMinor, horizon, guard + 1)
  }

  function FirstCursor(s: State, next: int -> int, first: int): int {
    if s.periods == [] then first else next(s.periods[|s.periods| - 1].start)
  }

  function LastCarry(periods: seq<Period>): int {
    if periods == [] then 0
    else periods[|periods| - 1].allocatedMinor - periods[|periods| - 1].spentMinor
  }

  /** `next` leads from a period start to the following one, and `first` is where the first period starts. */
  ghost function Generated(s: State, next: int -> int, first: int, horizon: int): State {
    s.(periods := s.periods + NewPeriods(s.budget, SpendingOf(s), next, FirstCursor(s, next, first), LastCarry(s.periods),
                                         horizon, 0))
  }

  // ----- alerts -----

  /** The used share in hundredths of a percent is at least the threshold. */
  predicate Crossed(period: Period, threshold: int)
    requires period.allocatedMinor > 0
  {
    TruncDiv(period.spentMinor * 10000, period.allocatedMinor) >= 100 * threshold
  }

  function CrossedThresholds(period: Period, thresholds: seq<int>): seq<int>
    requires period.allocatedMinor > 0
  {
    if thresholds == [] then []
    else (if Crossed(period, thresholds[0]) then [thresholds[0]] else []) + CrossedThresholds(period, thresholds[1..])
  }

  function MaxOf(values: seq<int>): int
    requires values != []
  {
    if |values| == 1 then values[0]
    else if values[0] >= MaxOf(values[1..]) then values[0] else MaxOf(values[1..])
  }

  /** The threshold to announce, if the highest one crossed is above what was announced before. */
  function AlertFor(period: Period, thresholds: seq<int>): Option<int> {
    if period.allocatedMinor <= 0 then None
    else
      var crossed := CrossedThresholds(period, thresholds);
      if crossed == [] then None
      else if period.lastAlertPct.Some? && period.lastAlertPct.value >= MaxOf(crossed) then None
      else Some(MaxOf(crossed))
  }

  /** `period` is what the spending update returned; the stored row is the one that is updated. */
  function Alerted(s: State, i: nat, period: Period): State
    requires i < |s.periods|
  {
    match AlertFor(period, s.budget.alertThresholds)
    case None => s
    case Some(threshold) =>
      s.(periods := s.periods[i := s.periods[i].(lastAlertPct := Some(threshold))],
         alerts := s.alerts + [Alert(period.start, threshold)])
  }

  // ----- recomputing after a transaction event -----

  /** The first period that holds an instant. */
  function PeriodAt(periods: seq<Period>, t: int): Option<nat> {
    if periods == [] then None
    else if Holds(periods[0].start, periods[0].end, t) then Some(0)
    else
      match PeriodAt(periods[1..], t)
      case None => None
      case Some(i) => Some(i + 1)
  }

  lemma {:induction false} PeriodAtHolds(periods: seq<Period>, t: int)
    ensures PeriodAt(periods, t).Some? ==>
      var i := PeriodAt(periods, t).value; i < |periods| && Holds(periods[i].start, periods[i].end, t)
    ensures PeriodAt(periods, t) == None ==> forall i :: 0 <= i < |periods| ==> !Holds(periods[i].start, periods[i].end, t)
  {
    if periods != [] {
      PeriodAtHolds(periods[1..], t);
      assert forall i :: 0 < i < |periods| ==> periods[i] == periods[1..][i - 1];
    }
  }

  predicate Concerned(s: State, categoryId: Option<Id>) {
    categoryId.Some? && s.budget.isActive && s.budget.categoryId.Some? && categoryId.value in Scope(s)
  }

  ghost function Respent(s: State, i: nat): State
    requires i < |s.periods|
  {
    var spent := SpentIn(s, s.periods[i].start, s.periods[i].end);
    s.(periods := s.periods[i := s.periods[i].(spentMinor := spent)])
  }

  ghost function RecomputePeriodFor(s: State, categoryId: Option<Id>, occurredAt: int): State {
    PeriodAtHolds(s.periods, occurredAt);
    if !Concerned(s, categoryId) || PeriodAt(s.periods, occurredAt) == None then s
    else
      var i := PeriodAt(s.periods, occurredAt).value;
      var respent := Respent(s, i);
      var cascaded := if s.budget.rollover then respent.(periods := Recascaded(s.budget, respent.periods)) else respent;
      Alerted(cascaded, i, respent.periods[i])
  }

  // ----- the operations -----

  datatype Changes = Changes(
    amountMinor: Option<int>, endsOn: Option<int>, rollover: Option<bool>, alertThresholds: Option<seq<int>>,
    isActive: Option<bool>)

  function Updated(budget: Budget, changes: Changes): Budget {
    budget.(amountMinor := changes.amountMinor.GetOr(budget.amountMinor),
            endsOn := if changes.endsOn.Some? then changes.endsOn else budget.endsOn,
            rollover := changes.rollover.GetOr(budget.rollover),
            alertThresholds := changes.alertThresholds.GetOr(budget.alertThresholds),
            isActive := changes.isActive.GetOr(budget.isActive))
  }

  function Update(s: State, changes: Changes): State {
    var updated := Updated(s.budget, changes);
    if updated.amountMinor != s.budget.amountMinor || updated.rollover != s.budget.rollover then
      s.(budget := updated, periods := Recascaded(updated, s.periods))
    else s.(budget := updated)
  }

  /** A transaction is written, then its event is handled: for what it was before, and for what it is now. */
  ghost function OnCreated(s: State, id: Id, tx: Tx): State {
    RecomputePeriodFor(s.(txs := s.txs[id := tx]), tx.categoryId, tx.occurredAt)
  }

  ghost function OnUpdated(s: State, id: Id, tx: Tx): State
    requires id in s.txs
  {
    var before := s.txs[id];
    RecomputePeriodFor(RecomputePeriodFor(s.(txs := s.txs[id := tx]), before.categoryId, before.occurredAt),
      tx.categoryId, tx.occurredAt)
  }

  ghost function OnDeleted(s: State, id: Id): State
    requires id in s.txs
  {
    var before := s.txs[id];
    RecomputePeriodFor(s.(txs := s.txs[id := before.(deleted := true)]), before.categoryId, before.occurredAt)
  }

  /** A live transaction, or none, uses the category. */
  predicate Used(txs: map<Id, Tx>, category: Id) {
    exists id :: id in txs && !txs[id].deleted && txs[id].categoryId == Some(category)
  }

  datatype Op =
    | Generate(horizon: int)
    | UpdateBudget(changes: Changes)
    | CreateTx(id: Id, tx: Tx)
    | UpdateTx(id: Id, tx: Tx)
    | DeleteTx(id: Id)
    | CreateCategory(naming: Naming, id: Id, parentId: Option<Id>, kind: Kind, name: string)
    | RemoveCategory(id: Id)

  /** What the callers ensure: transactions are created under new ids as live rows, only live ones change, and a new
      category is not yet named by a live transaction. */
  predicate Enabled(s: State, op: Op) {
    match op
    case CreateTx(id, tx) => id !in s.txs && !tx.deleted
    case UpdateTx(id, tx) => id in s.txs && !s.txs[id].deleted && !tx.deleted
    case DeleteTx(id) => id in s.txs && !s.txs[id].deleted
    case CreateCategory(_, id, _, _, _) => id !in s.categories ==> !Used(s.txs, id)
    case _ => true
  }

  function CategoriesAfter(s: State, outcome: Result<map<Id, Category>, Error>): State {
    match outcome
    case Success(categories) => s.(categories := categories)
    case Failure(_) => s
  }

  /** Periods are only generated for an active budget, or at its creation. */
  ghost function Step(s: State, op: Op, day: int): State
    requires Enabled(s, op)
  {
    match op
    case Generate(horizon) =>
      if s.budget.isActive then
        Generated(s, Next(s.budget.period, day), PeriodStart(s.budget.period, s.budget.startsOn, day), horizon)
      else s
    case UpdateBudget(changes) => Update(s, changes)
    case CreateTx(id, tx) => OnCreated(s, id, tx)
    case UpdateTx(id, tx) => OnUpdated(s, id, tx)
    case DeleteTx(id) => OnDeleted(s, id)
    case CreateCategory(naming, id, parentId, kind, name) =>
      CategoriesAfter(s, Create(s.categories, naming, id, parentId, kind, name))
    case RemoveCategory(id) => CategoriesAfter(s, Remove(s.categories, id, Used(s.txs, id), None))
  }
}
