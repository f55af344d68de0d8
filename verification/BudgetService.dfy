/**
 The budget service: periods created one by one, spending recomputed after each transaction event, alerts raised.
 Every method is proved to do exactly what the operation of the same name does to a `State`.
 */
module BudgetService {
  import opened Wrappers
  import opened MapSums
  import opened Rollover
  import opened PeriodBounds
  import opened Categories
  import opened Budgets
  import opened BudgetProofs

  /** What the loop has created so far, and what it still will. */
  ghost predicate Progress(s: State, next: int -> int, all: seq<Period>, horizon: int, added: seq<Period>, at: int,
      carry: int, guard: nat)
  {
    all == added + NewPeriods(s.budget, SpendingOf(s), next, at, carry, horizon, guard)
  }

  ghost predicate IsNext(s: State, next: int -> int, at: int, carry: int, period: Period) {
    period == NewPeriod(s.budget, SpendingOf(s), next, at, carry)
  }

  lemma OneMorePeriod(s: State, next: int -> int, all: seq<Period>, horizon: int, added: seq<Period>, at: int,
          carry: int, guard: nat, period: Period)
    requires Progress(s, next, all, horizon, added, at, carry, guard)
    requires Due(s.budget, at, horizon) && guard < GUARD && IsNext(s, next, at, carry, period)
    ensures Progress(s, next, all, horizon, added + [period], period.end, period.allocatedMinor - period.spentMinor, guard + 1)
  {
  }

  lemma NothingMore(s: State, next: int -> int, all: seq<Period>, horizon: int, added: seq<Period>, at: int, carry: int,
      guard: nat)
    requires Progress(s, next, all, horizon, added, at, carry, guard)
    requires !Due(s.budget, at, horizon) || guard >= GUARD
    ensures all == added
  {
  }

  class BudgetService {
    var budget: Budget
    var periods: seq<Period>
    var txs: map<Id, Tx>
    var categories: map<Id, Category>
    var alerts: seq<Alert>
    const monthStartDay: int

    constructor (newBudget: Budget, day: int)
      ensures Snapshot() == State(newBudget, [], map[], map[], []) && monthStartDay == day
    {
      budget, periods, txs, categories, alerts, monthStartDay := newBudget, [], map[], map[], [], day;
    }

    ghost function Snapshot(): State
      reads this
    {
      State(budget, periods, txs, categories, alerts)
    }

    /** The SUM over the expenses of an interval; 0 for a budget without a category. */
    method SpentIn(from: int, to: int) returns (total: int)
      ensures total == Budgets.SpentIn(Snapshot(), from, to)
    {
      if budget.categoryId == None {
        return 0;
      }
      var scopeIds := DescendantIds(categories, budget.categoryId.value);
      total := 0;
      var rest := txs;
      while rest != map[]
        invariant total + Sum(rest, Spending(scopeIds, from, to)) == Sum(txs, Spending(scopeIds, from, to))
        decreases |rest|
      {
        var id := RowIn(rest);
        SumSplit(rest, Spending(scopeIds, from, to), id);
        if Spends(rest[id], scopeIds, from, to) {
          total := total + rest[id].amountMinor;
        }
        rest := rest - {id};
      }
    }

    /** The nightly extension, and the generation when the budget is created. */
    method ExtendPeriods(horizon: int)
      modifies this`periods
      ensures Snapshot() == Generated(old(Snapshot()), Next(budget.period, monthStartDay),
                              PeriodStart(budget.period, budget.startsOn, monthStartDay), horizon)
    {
      GeneratePeriods(Next(budget.period, monthStartDay), PeriodStart(budget.period, budget.startsOn, monthStartDay), horizon);
    }

    /** `next` is the period rule, `first` the start of the period that holds the start of the budget. */
    method GeneratePeriods(next: int -> int, first: int, horizon: int)
      modifies this`periods
      ensures Snapshot() == Generated(old(Snapshot()), next, first, horizon)
    {
      ghost var s := Snapshot();
      var cursorStart := if periods == [] then first else next(periods[|periods| - 1].start);
      var carry := if periods == [] then 0 else periods[|periods| - 1].allocatedMinor - periods[|periods| - 1].spentMinor;
      assert cursorStart == FirstCursor(s, next, first) && carry == LastCarry(s.periods);
      ghost var all := NewPeriods(s.budget, SpendingOf(s), next, cursorStart, carry, horizon, 0);
      assert Progress(s, next, all, horizon, [], cursorStart, carry, 0);
      AddPeriods(s, all, next, cursorStart, carry, horizon);
      assert Snapshot() == s.(periods := periods);
    }

    /** The loop that creates one period after the other, until `all` of them exist. */
    method AddPeriods(ghost s: State, ghost all: seq<Period>, next: int -> int, cursor: int, carryIn: int, horizon: int)
      requires s == Snapshot() && Progress(s, next, all, horizon, [], cursor, carryIn, 0)
      modifies this`periods
      ensures periods == s.periods + all
    {
      var cursorStart, carry := cursor, carryIn;
      var guard: nat := 0;
      ghost var added: seq<Period> := [];
      while cursorStart <= horizon && (budget.endsOn == None || cursorStart <= budget.endsOn.value) && guard < GUARD
        invariant guard <= GUARD && periods == s.periods + added
        invariant Progress(s, next, all, horizon, added, cursorStart, carry, guard)
        decreases GUARD - guard
      {
        var period := CreatePeriod(s, cursorStart, carry, next);
        OneMorePeriod(s, next, all, horizon, added, cursorStart, carry, guard, period);
        guard := guard + 1;
        added := added + [period];
        cursorStart, carry := period.end, period.allocatedMinor - period.spentMinor;
      }
      NothingMore(s, next, all, horizon, added, cursorStart, carry, guard);
    }

    /** One period, with the spending that already exists in it and the carry out of the one before. */
    method CreatePeriod(ghost s: State, cursorStart: int, carry: int, next: int -> int) returns (period: Period)
      requires SameSources(s, Snapshot()) && s.budget == budget
      modifies this`periods
      ensures IsNext(s, next, cursorStart, carry, period) && periods == old(periods) + [period]
    {
      var periodEnd := next(cursorStart);
      var spentMinor := SpentIn(cursorStart, periodEnd);
      SameSpentIn(s, Snapshot(), cursorStart, periodEnd);
      var allocations := CascadeLoop(budget.amountMinor, budget.rollover, [spentMinor], carry);
      OneAllocation(budget.amountMinor, budget.rollover, [spentMinor], carry);
      period := Period(cursorStart, periodEnd, allocations[0].allocatedMinor, allocations[0].rolloverInMinor, spentMinor, None);
      periods := periods + [period];
    }

    /** Rewrites the stored allocation of each period whose figures have become stale. */
    method Recascade()
      modifies this`periods
      ensures periods == Recascaded(budget, old(periods))
    {
      var spent := Spent(periods);
      var allocations := CascadeLoop(budget.amountMinor, budget.rollover, spent);
      CascadeLength(budget.amountMinor, budget.rollover, spent, 0);
      ghost var before := periods;
      for i := 0 to |periods|
        invariant |periods| == |before|
        invariant forall j :: 0 <= j < |periods| ==>
          periods[j] == if j < i then WithAllocation(before[j], allocations[j]) else before[j]
      {
        if !(periods[i].allocatedMinor == allocations[i].allocatedMinor
             && periods[i].rolloverInMinor == allocations[i].rolloverInMinor) {
          periods := periods[i := periods[i].(
            rolloverInMinor := allocations[i].rolloverInMinor, allocatedMinor := allocations[i].allocatedMinor)];
        }
      }
      assert periods == WithAllocations(before, allocations);
    }

    method Update(changes: Changes)
      modifies this`budget, this`periods
      ensures Snapshot() == Budgets.Update(old(Snapshot()), changes)
    {
      var existing := budget;
      budget := Updated(existing, changes);
      if budget.amountMinor != existing.amountMinor || budget.rollover != existing.rollover {
        Recascade();
      }
    }

    method EvaluateAlert(i: nat, period: Period)
      requires i < |periods|
      modifies this`periods, this`alerts
      ensures Snapshot() == Alerted(old(Snapshot()), i, period)
    {
      if period.allocatedMinor <= 0 {
        return;
      }
      var crossed := CrossedThresholds(period, budget.alertThresholds);
      if crossed == [] {
        return;
      }
      var highest := MaxOf(crossed);
      if period.lastAlertPct.Some? && period.lastAlertPct.value >= highest {
        return;
      }
      periods := periods[i := periods[i].(lastAlertPct := Some(highest))];
      alerts := alerts + [Alert(period.start, highest)];
    }

    /** The first stored period that holds the instant. */
    method FindPeriod(occurredAt: int) returns (found: Option<nat>)
      ensures found == PeriodAt(periods, occurredAt)
      ensures found.Some? ==> found.value < |periods|
    {
      PeriodAtHolds(periods, occurredAt);
      found := PeriodAt(periods, occurredAt);
    }

    method RecomputePeriodFor(categoryId: Option<Id>, occurredAt: int)
      modifies this`periods, this`alerts
      ensures Snapshot() == Budgets.RecomputePeriodFor(old(Snapshot()), categoryId, occurredAt)
    {
      if categoryId == None || !budget.isActive || budget.categoryId == None {
        return;
      }
      var scopeIds := DescendantIds(categories, budget.categoryId.value);
      if categoryId.value !in scopeIds {
        return;
      }
      var found := FindPeriod(occurredAt);
      if found == None {
        return;
      }
      var i := found.value;
      var spentMinor := SpentIn(periods[i].start, periods[i].end);
      var updated := periods[i].(spentMinor := spentMinor);
      periods := periods[i := updated];
      if budget.rollover {
        Recascade();
      }
      EvaluateAlert(i, updated);
    }

    method OnTransactionCreated(id: Id, tx: Tx)
      modifies this`txs, this`periods, this`alerts
      ensures Snapshot() == OnCreated(old(Snapshot()), id, tx)
    {
      txs := txs[id := tx];
      RecomputePeriodFor(tx.categoryId, tx.occurredAt);
    }

    method OnTransactionUpdated(id: Id, after: Tx)
      requires id in txs
      modifies this`txs, this`periods, this`alerts
      ensures Snapshot() == OnUpdated(old(Snapshot()), id, after)
    {
      var before := txs[id];
      txs := txs[id := after];
      RecomputePeriodFor(before.categoryId, before.occurredAt);
      RecomputePeriodFor(after.categoryId, after.occurredAt);
    }

    method OnTransactionDeleted(id: Id)
      requires id in txs
      modifies this`txs, this`periods, this`alerts
      ensures Snapshot() == OnDeleted(old(Snapshot()), id)
    {
      var before := txs[id];
      txs := txs[id := before.(deleted := true)];
      RecomputePeriodFor(before.categoryId, before.occurredAt);
    }
  }
}
