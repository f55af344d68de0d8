/** The one-off repair of stored budget periods: plan the corrections, then write them. */
module BudgetRepair {
  import opened Wrappers
  import opened MapSums
  import opened Rollover
  import opened Categories
  import opened Budgets
  import opened BudgetProofs

  /** Positions stand for period ids. */
  datatype Change = Change(index: nat, before: Period, after: Period)

  // ----- what a repaired period looks like -----

  /** A budget without a category keeps its stored spending. */
  ghost function CorrectSpent(s: State, period: Period): int {
    if s.budget.categoryId == None then period.spentMinor else SpentIn(s, period.start, period.end)
  }

  ghost function CorrectSpending(s: State, periods: seq<Period>): seq<int> {
    seq(|periods|, i requires 0 <= i < |periods| => CorrectSpent(s, periods[i]))
  }

  predicate Unchanged(period: Period, allocation: Allocation, spentMinor: int) {
    AllocationOf(period) == allocation && period.spentMinor == spentMinor
  }

  /** What the corrected figures already cross is recorded as announced, without an alert. */
  function Corrected(budget: Budget, period: Period, allocation: Allocation, spentMinor: int): Period {
    var corrected := WithAllocation(period, allocation).(spentMinor := spentMinor);
    match AlertFor(corrected, budget.alertThresholds)
    case None => corrected
    case Some(threshold) => corrected.(lastAlertPct := Some(threshold))
  }

  ghost function TargetAllocations(s: State): (allocations: seq<Allocation>)
    ensures |allocations| == |s.periods|
  {
    CascadeLength(s.budget.amountMinor, s.budget.rollover, CorrectSpending(s, s.periods), 0);
    CascadeRollover(s.budget.amountMinor, s.budget.rollover, CorrectSpending(s, s.periods))
  }

  ghost predicate Stale(s: State, i: nat)
    requires i < |s.periods|
  {
    !Unchanged(s.periods[i], TargetAllocations(s)[i], CorrectSpent(s, s.periods[i]))
  }

  ghost function ChangeAt(s: State, i: nat): Change
    requires i < |s.periods|
  {
    Change(i, s.periods[i], Corrected(s.budget, s.periods[i], TargetAllocations(s)[i], CorrectSpent(s, s.periods[i])))
  }

  /** The changes of the periods from `i` on, in chronological order. */
  ghost function PlanFrom(s: State, i: nat): seq<Change>
    requires i <= |s.periods|
    decreases |s.periods| - i
  {
    if i == |s.periods| then [] else (if Stale(s, i) then [ChangeAt(s, i)] else []) + PlanFrom(s, i + 1)
  }

  ghost function Plan(s: State): seq<Change> {
    PlanFrom(s, 0)
  }

  function Written(periods: seq<Period>, changes: seq<Change>): seq<Period>
    decreases |changes|
  {
    if changes == [] then periods
    else
      Written(if changes[0].index < |periods| then periods[changes[0].index := changes[0].after] else periods, changes[1..])
  }

  ghost function Repaired(s: State): State {
    s.(periods := Written(s.periods, Plan(s)))
  }

  // ----- what writing the plan does -----

  lemma {:induction false} WrittenLength(periods: seq<Period>, changes: seq<Change>)
    ensures |Written(periods, changes)| == |periods|
    decreases |changes|
  {
    if changes != [] {
      WrittenLength(if changes[0].index < |periods| then periods[changes[0].index := changes[0].after] else periods,
        changes[1..]);
    }
  }

  lemma WriteStep(s: State, i: nat, periods: seq<Period>)
    requires i < |s.periods| == |periods|
    ensures Written(periods, PlanFrom(s, i))
         == Written(if Stale(s, i) then periods[i := ChangeAt(s, i).after] else periods, PlanFrom(s, i + 1))
  {
    if Stale(s, i) {
      assert PlanFrom(s, i)[1..] == PlanFrom(s, i + 1);
    } else {
      assert PlanFrom(s, i) == PlanFrom(s, i + 1);
    }
  }

  /** Writing the plan from `i` on leaves the earlier periods and replaces exactly the stale ones. */
  lemma {:induction false} WrittenAt(s: State, i: nat, periods: seq<Period>, k: nat)
    requires i <= |s.periods| == |periods| && k < |periods| && (k >= i ==> periods[k] == s.periods[k])
    ensures |Written(periods, PlanFrom(s, i))| == |periods|
    ensures Written(periods, PlanFrom(s, i))[k] == if k >= i && Stale(s, k) then ChangeAt(s, k).after else periods[k]
    decreases |s.periods| - i
  {
    WrittenLength(periods, PlanFrom(s, i));
    if i < |s.periods| {
      WriteStep(s, i, periods);
      WrittenAt(s, i + 1, if Stale(s, i) then periods[i := ChangeAt(s, i).after] else periods, k);
    }
  }

  lemma RepairedPeriod(s: State, i: nat)
    requires i < |s.periods|
    ensures |Repaired(s).periods| == |s.periods|
    ensures var after := Repaired(s).periods[i];
      after.start == s.periods[i].start && after.end == s.periods[i].end
      && Unchanged(after, TargetAllocations(s)[i], CorrectSpent(s, s.periods[i]))
  {
    WrittenAt(s, 0, s.periods, i);
  }

  lemma RepairedShape(s: State)
    ensures |Repaired(s).periods| == |s.periods| && SameSources(s, Repaired(s)) && Repaired(s).budget == s.budget
  {
    WrittenLength(s.periods, Plan(s));
  }

  lemma RepairedSpending(s: State)
    ensures CorrectSpending(Repaired(s), Repaired(s).periods) == CorrectSpending(s, s.periods)
    ensures Spent(Repaired(s).periods) == CorrectSpending(s, s.periods)
  {
    RepairedShape(s);
    var r := Repaired(s);
    forall i | 0 <= i < |s.periods|
      ensures CorrectSpent(r, r.periods[i]) == CorrectSpent(s, s.periods[i]) == r.periods[i].spentMinor
    {
      RepairedPeriod(s, i);
      SameSpentIn(s, r, s.periods[i].start, s.periods[i].end);
    }
  }

  lemma RepairedAllocations(s: State)
    ensures Allocations(Repaired(s).periods) == TargetAllocations(s)
    ensures TargetAllocations(Repaired(s)) == TargetAllocations(s)
  {
    RepairedShape(s);
    RepairedSpending(s);
    forall i | 0 <= i < |s.periods| ensures AllocationOf(Repaired(s).periods[i]) == TargetAllocations(s)[i] {
      RepairedPeriod(s, i);
    }
  }

  // ----- the guarantees -----

  lemma {:induction false} NothingStale(s: State, i: nat)
    requires i <= |s.periods|
    ensures PlanFrom(s, i) == [] <==> forall j: nat :: i <= j < |s.periods| ==> !Stale(s, j)
    decreases |s.periods| - i
  {
    if i < |s.periods| {
      NothingStale(s, i + 1);
    }
  }

  /** A plan is empty exactly when the stored figures are right. */
  lemma EmptyPlanMeansRight(s: State)
    ensures Plan(s) == [] <==> Spent(s.periods) == CorrectSpending(s, s.periods) && CascadeOk(s.budget, s.periods)
  {
    NothingStale(s, 0);
    if Plan(s) == [] {
      forall i: nat | i < |s.periods|
        ensures s.periods[i].spentMinor == CorrectSpent(s, s.periods[i])
        ensures AllocationOf(s.periods[i]) == TargetAllocations(s)[i]
      {
        assert !Stale(s, i);
      }
      assert Spent(s.periods) == CorrectSpending(s, s.periods);
      assert Allocations(s.periods) == TargetAllocations(s);
    }
    if Spent(s.periods) == CorrectSpending(s, s.periods) && CascadeOk(s.budget, s.periods) {
      forall j: nat | j < |s.periods| ensures !Stale(s, j) {
        assert Spent(s.periods)[j] == CorrectSpending(s, s.periods)[j];
        assert Allocations(s.periods)[j] == TargetAllocations(s)[j];
      }
    }
  }

  /** From any stored periods, right or wrong: after a repair the figures are right, and planning again finds nothing. */
  lemma RepairIsIdempotent(s: State)
    ensures Plan(Repaired(s)) == [] && CascadeOk(s.budget, Repaired(s).periods)
    ensures s.budget.categoryId.Some? ==> SpentOk(Repaired(s))
  {
    RepairedShape(s);
    RepairedSpending(s);
    RepairedAllocations(s);
    EmptyPlanMeansRight(Repaired(s));
    if s.budget.categoryId.Some? {
      var r := Repaired(s);
      forall i | 0 <= i < |r.periods| ensures PeriodSpent(r, r.periods[i]) {
        assert Spent(r.periods)[i] == CorrectSpending(r, r.periods)[i];
      }
    }
  }

  /** A budget kept by the service needs no repair. */
  lemma KeptBudgetNeedsNoRepair(s: State)
    requires CascadeOk(s.budget, s.periods) && SpentOk(s)
    ensures Plan(s) == []
  {
    forall i | 0 <= i < |s.periods| ensures s.periods[i].spentMinor == CorrectSpent(s, s.periods[i]) {
      assert PeriodSpent(s, s.periods[i]);
    }
    assert Spent(s.periods) == CorrectSpending(s, s.periods);
    EmptyPlanMeansRight(s);
  }

  lemma PlanStep(s: State, i: nat, changes: seq<Change>, period: Period, allocation: Allocation, spentMinor: int)
    requires i < |s.periods| && changes + PlanFrom(s, i) == Plan(s)
    requires period == s.periods[i] && allocation == TargetAllocations(s)[i] && spentMinor == CorrectSpent(s, period)
    ensures Unchanged(period, allocation, spentMinor) ==> changes + PlanFrom(s, i + 1) == Plan(s)
    ensures !Unchanged(period, allocation, spentMinor) ==>
      changes + [Change(i, period, Corrected(s.budget, period, allocation, spentMinor))] + PlanFrom(s, i + 1) == Plan(s)
  {
  }

  // ----- the script -----

  class Repair {
    var state: State

    constructor (s: State)
      ensures state == s
    {
      state := s;
    }

    method SumExpenses(scopeIds: set<Id>, from: int, to: int) returns (total: int)
      ensures total == Sum(state.txs, Spending(scopeIds, from, to))
    {
      total := 0;
      var rest := state.txs;
      while rest != map[]
        invariant total + Sum(rest, Spending(scopeIds, from, to)) == Sum(state.txs, Spending(scopeIds, from, to))
        decreases |rest|
      {
        var id := RowIn(rest);
        SumSplit(rest, Spending(scopeIds, from, to), id);
        if Spends(rest[id], scopeIds, from, to) {
          total := total + rest[id].amountMinor;
        }
        rest := rest - {id};
      }
    }

    /** The spending of every period, recomputed unless the budget has no category. */
    method CollectSpent() returns (spent: seq<int>)
      ensures spent == CorrectSpending(state, state.periods)
    {
      spent := [];
      for i := 0 to |state.periods|
        invariant |spent| == i && forall j :: 0 <= j < i ==> spent[j] == CorrectSpent(state, state.periods[j])
      {
        var period, sum := state.periods[i], 0;
        if state.budget.categoryId == None {
          sum := period.spentMinor;
        } else {
          sum := SumExpenses(DescendantIds(state.categories, state.budget.categoryId.value), period.start, period.end);
        }
        spent := spent + [sum];
      }
    }

    method PlanBudget() returns (changes: seq<Change>)
      ensures changes == Plan(state)
    {
      var spent := CollectSpent();
      var allocations := CascadeLoop(state.budget.amountMinor, state.budget.rollover, spent);
      changes := [];
      for i := 0 to |state.periods|
        invariant changes + PlanFrom(state, i) == Plan(state)
      {
        var period := state.periods[i];
        PlanStep(state, i, changes, period, allocations[i], spent[i]);
        if !Unchanged(period, allocations[i], spent[i]) {
          changes := changes + [Change(i, period, Corrected(state.budget, period, allocations[i], spent[i]))];
        }
      }
    }

    method WriteChanges(changes: seq<Change>)
      modifies this
      ensures state == old(state).(periods := Written(old(state).periods, changes))
    {
      ghost var before := state;
      for i := 0 to |changes|
        invariant state.(periods := []) == before.(periods := [])
        invariant Written(state.periods, changes[i..]) == Written(before.periods, changes)
      {
        assert changes[i..][0] == changes[i] && changes[i..][1..] == changes[i + 1..];
        var change := changes[i];
        if change.index < |state.periods| {
          state := state.(periods := state.periods[change.index := change.after]);
        }
      }
    }

    method Apply() returns (changes: seq<Change>)
      modifies this
      ensures changes == Plan(old(state)) && state == Repaired(old(state))
    {
      changes := PlanBudget();
      WriteChanges(changes);
    }
  }
}
