/** What every budget operation keeps: the tiling, the cascade, the materialized spending. */
module BudgetProofs {
  import opened Wrappers
  import opened Integers
  import opened MapSums
  import opened Rollover
  import opened PeriodBounds
  import opened Categories
  import opened Budgets

  // ----- the tiling -----

  /** Every period ends where the rule puts its end, and where the next one starts. */
  ghost predicate Tiled(periods: seq<Period>, next: int -> int) {
    forall i :: 0 <= i < |periods| ==>
      periods[i].start < periods[i].end == next(periods[i].start)
      && (i + 1 < |periods| ==> periods[i + 1].start == periods[i].end)
  }

  predicate SameBounds(p: seq<Period>, q: seq<Period>) {
    |p| == |q| && forall i :: 0 <= i < |p| ==> p[i].start == q[i].start && p[i].end == q[i].end
  }

  lemma SameBoundsTiled(p: seq<Period>, q: seq<Period>, next: int -> int)
    requires SameBounds(p, q) && Tiled(p, next)
    ensures Tiled(q, next)
  {
    forall i | 0 <= i < |q|
      ensures q[i].start < q[i].end == next(q[i].start) && (i + 1 < |q| ==> q[i + 1].start == q[i].end)
    {
      assert p[i].start < p[i].end == next(p[i].start);
      assert i + 1 < |q| ==> p[i + 1].start == q[i + 1].start;
    }
  }

  lemma TiledAppend(p: seq<Period>, q: seq<Period>, next: int -> int)
    requires Tiled(p, next) && Tiled(q, next)
    requires p != [] && q != [] ==> q[0].start == p[|p| - 1].end
    ensures Tiled(p + q, next)
  {
    var r := p + q;
    forall i | 0 <= i < |r|
      ensures r[i].start < r[i].end == next(r[i].start) && (i + 1 < |r| ==> r[i + 1].start == r[i].end)
    {
      assert i < |p| ==> r[i] == p[i];
      assert i >= |p| ==> r[i] == q[i - |p|];
      assert i + 1 < |p| ==> r[i + 1] == p[i + 1];
      assert |p| <= i + 1 < |r| ==> r[i + 1] == q[i + 1 - |p|];
    }
  }

  lemma {:induction false} TiledOrder(periods: seq<Period>, next: int -> int, i: nat, j: nat)
    requires Tiled(periods, next) && i < j < |periods|
    ensures periods[i].end <= periods[j].start
    decreases j
  {
    if i < j - 1 {
      TiledOrder(periods, next, i, j - 1);
    }
    assert periods[j].start == periods[j - 1].end;
  }

  /** Every instant between the first start and the last end lies in exactly one period. */
  lemma CoveredOnce(periods: seq<Period>, next: int -> int, t: int)
    requires Tiled(periods, next) && periods != []
    ensures PeriodAt(periods, t).Some? <==> periods[0].start <= t < periods[|periods| - 1].end
    ensures forall i, j :: 0 <= i < j < |periods| && Holds(periods[i].start, periods[i].end, t) ==>
              !Holds(periods[j].start, periods[j].end, t)
  {
    forall i, j | 0 <= i < j < |periods| && Holds(periods[i].start, periods[i].end, t)
      ensures !Holds(periods[j].start, periods[j].end, t)
    {
      TiledOrder(periods, next, i, j);
    }
    PeriodAtHolds(periods, t);
    if PeriodAt(periods, t).Some? {
      var i := PeriodAt(periods, t).value;
      if i > 0 {
        TiledOrder(periods, next, 0, i);
      }
      if i < |periods| - 1 {
        TiledOrder(periods, next, i, |periods| - 1);
      }
    } else {
      NoGap(periods, next, t, |periods| - 1);
    }
  }

  lemma {:induction false} NoGap(periods: seq<Period>, next: int -> int, t: int, k: nat)
    requires Tiled(periods, next) && k < |periods|
    requires forall i :: 0 <= i < |periods| ==> !Holds(periods[i].start, periods[i].end, t)
    ensures t < periods[0].start || periods[k].end <= t
    decreases k
  {
    assert !Holds(periods[k].start, periods[k].end, t);
    if k > 0 {
      NoGap(periods, next, t, k - 1);
      assert periods[k].start == periods[k - 1].end;
    }
  }

  lemma {:induction false} NewPeriodsTiled(budget: Budget, spentIn: (int, int) -> int, next: int -> int, cursor: int,
          carry: int, horizon: int, guard: nat)
    requires forall t :: t < next(t)
    ensures var periods := NewPeriods(budget, spentIn, next, cursor, carry, horizon, guard);
      Tiled(periods, next) && (periods != [] ==> periods[0].start == cursor)
    decreases GUARD - guard
  {
    if Due(budget, cursor, horizon) && guard < GUARD {
      var period := NewPeriod(budget, spentIn, next, cursor, carry);
      NewPeriodsTiled(budget, spentIn, next, period.end, period.allocatedMinor - period.spentMinor, horizon, guard + 1);
      TiledAppend([period], NewPeriods(budget, spentIn, next, period.end, period.allocatedMinor - period.spentMinor,
                                       horizon, guard + 1), next);
    }
  }

  /** Periods that start where generation goes on tile with the stored ones. */
  lemma TiledFromCursor(s: State, added: seq<Period>, next: int -> int, first: int)
    requires Tiled(s.periods, next) && Tiled(added, next)
    requires added != [] ==> added[0].start == FirstCursor(s, next, first)
    ensures Tiled(s.periods + added, next)
  {
    TiledAppend(s.periods, added, next);
  }

  lemma GeneratedTiled(s: State, next: int -> int, first: int, horizon: int)
    requires Tiled(s.periods, next) && forall t :: t < next(t)
    ensures Tiled(Generated(s, next, first, horizon).periods, next)
  {
    var cursor := FirstCursor(s, next, first);
    var added := NewPeriods(s.budget, SpendingOf(s), next, cursor, LastCarry(s.periods), horizon, 0);
    NewPeriodsTiled(s.budget, SpendingOf(s), next, cursor, LastCarry(s.periods), horizon, 0);
    TiledFromCursor(s, added, next, first);
    assert Generated(s, next, first, horizon).periods == s.periods + added;
  }

  // ----- the cascade -----

  /** The stored allocations are the cascade from scratch over all stored periods. */
  ghost predicate CascadeOk(budget: Budget, periods: seq<Period>) {
    Allocations(periods) == CascadeRollover(budget.amountMinor, budget.rollover, Spent(periods))
  }

  lemma FiguresAppend(p: seq<Period>, q: seq<Period>)
    ensures Spent(p + q) == Spent(p) + Spent(q) && Allocations(p + q) == Allocations(p) + Allocations(q)
  {
  }

  lemma RecascadedOk(budget: Budget, periods: seq<Period>)
    ensures CascadeOk(budget, Recascaded(budget, periods)) && SameBounds(periods, Recascaded(budget, periods))
    ensures Spent(Recascaded(budget, periods)) == Spent(periods)
  {
    CascadeLength(budget.amountMinor, budget.rollover, Spent(periods), 0);
    var allocations := CascadeRollover(budget.amountMinor, budget.rollover, Spent(periods));
    var after := WithAllocations(periods, allocations);
    assert Spent(after) == Spent(periods);
    forall i | 0 <= i < |periods| ensures Allocations(after)[i] == allocations[i] {
      assert after[i] == WithAllocation(periods[i], allocations[i]);
    }
    assert Allocations(after) == allocations;
  }

  lemma OneAllocation(amount: int, rollover: bool, spent: seq<int>, carry: int)
    requires spent != []
    ensures var carryIn := if rollover then carry else 0;
      CascadeRollover(amount, rollover, spent, carry)
      == [Allocation(carryIn, amount + carryIn)]
       + CascadeRollover(amount, rollover, spent[1..], amount + carryIn - spent[0])
  {
  }

  /** New periods carry on from the carry they are given. */
  lemma {:induction false} NewPeriodsCascade(budget: Budget, spentIn: (int, int) -> int, next: int -> int,
          cursor: int, carry: int, horizon: int, guard: nat)
    ensures var periods := NewPeriods(budget, spentIn, next, cursor, carry, horizon, guard);
      Allocations(periods) == CascadeRollover(budget.amountMinor, budget.rollover, Spent(periods), carry)
    decreases GUARD - guard
  {
    if Due(budget, cursor, horizon) && guard < GUARD {
      var period := NewPeriod(budget, spentIn, next, cursor, carry);
      var carryOut := period.allocatedMinor - period.spentMinor;
      var rest := NewPeriods(budget, spentIn, next, period.end, carryOut, horizon, guard + 1);
      NewPeriodsCascade(budget, spentIn, next, period.end, carryOut, horizon, guard + 1);
      FiguresAppend([period], rest);
      assert Spent([period]) == [period.spentMinor];
      assert Spent([period] + rest)[1..] == Spent(rest);
      OneAllocation(budget.amountMinor, budget.rollover, Spent([period] + rest), carry);
    }
  }

  lemma StoredCarry(budget: Budget, periods: seq<Period>)
    requires CascadeOk(budget, periods)
    ensures CarryOut(budget.amountMinor, budget.rollover, Spent(periods), 0)
         == if budget.rollover then LastCarry(periods) else 0
  {
    if periods != [] {
      CarryOutOfLast(budget.amountMinor, budget.rollover, Spent(periods), 0);
      assert Allocations(periods)[|periods| - 1] == AllocationOf(periods[|periods| - 1]);
    }
  }

  /** Extending from the last carry alone gives what a cascade over all periods would. */
  lemma GeneratedCascade(s: State, next: int -> int, first: int, horizon: int)
    requires CascadeOk(s.budget, s.periods)
    ensures CascadeOk(s.budget, Generated(s, next, first, horizon).periods)
  {
    var carry := LastCarry(s.periods);
    var added := NewPeriods(s.budget, SpendingOf(s), next, FirstCursor(s, next, first), carry, horizon, 0);
    NewPeriodsCascade(s.budget, SpendingOf(s), next, FirstCursor(s, next, first), carry, horizon, 0);
    FiguresAppend(s.periods, added);
    StoredCarry(s.budget, s.periods);
    CascadeAppend(s.budget.amountMinor, s.budget.rollover, Spent(s.periods), Spent(added), 0);
  }

  /** Over every stored period: allocations and the spending before them account for one amount per period. */
  lemma StoredAllocationsAddUp(budget: Budget, periods: seq<Period>, n: nat)
    requires CascadeOk(budget, periods) && n < |periods|
    ensures budget.rollover ==> periods[n].allocatedMinor + Total(Spent(periods)[..n]) == (n + 1) * budget.amountMinor
    ensures !budget.rollover ==> periods[n].allocatedMinor == budget.amountMinor && periods[n].rolloverInMinor == 0
  {
    NothingIsLost(budget.amountMinor, budget.rollover, Spent(periods), 0, n);
    assert Allocations(periods)[n] == AllocationOf(periods[n]);
    if n == 0 {
      assert Allocations(periods)[0] == Allocation(0, budget.amountMinor);
    }
  }

  // ----- materialized spending -----

  ghost predicate PeriodSpent(s: State, period: Period) {
    period.spentMinor == SpentIn(s, period.start, period.end)
  }

  ghost predicate AllSpent(s: State, periods: seq<Period>) {
    forall i :: 0 <= i < |periods| ==> PeriodSpent(s, periods[i])
  }

  /** Every stored period has spent what its interval and category scope say. */
  ghost predicate SpentOk(s: State) {
    AllSpent(s, s.periods)
  }

  lemma AllSpentAppend(s: State, p: seq<Period>, q: seq<Period>)
    requires AllSpent(s, p) && AllSpent(s, q)
    ensures AllSpent(s, p + q)
  {
    forall i | 0 <= i < |p + q| ensures PeriodSpent(s, (p + q)[i]) {
      assert (p + q)[i] == if i < |p| then p[i] else q[i - |p|];
    }
  }

  /** What spending is computed from. */
  predicate SameSources(s: State, r: State) {
    r.budget.categoryId == s.budget.categoryId && r.txs == s.txs && r.categories == s.categories
  }

  lemma SameSpentIn(s: State, r: State, from: int, to: int)
    requires SameSources(s, r)
    ensures SpentIn(r, from, to) == SpentIn(s, from, to)
  {
  }

  lemma SameSourcesAllSpent(s: State, r: State, periods: seq<Period>)
    requires SameSources(s, r) && AllSpent(s, periods)
    ensures AllSpent(r, periods)
  {
    forall i | 0 <= i < |periods| ensures PeriodSpent(r, periods[i]) {
      assert PeriodSpent(s, periods[i]);
      SameSpentIn(s, r, periods[i].start, periods[i].end);
    }
  }

  lemma {:induction false} NewPeriodsSpent(s: State, next: int -> int, cursor: int, carry: int, horizon: int,
          guard: nat)
    ensures AllSpent(s, NewPeriods(s.budget, SpendingOf(s), next, cursor, carry, horizon, guard))
    decreases GUARD - guard
  {
    if Due(s.budget, cursor, horizon) && guard < GUARD {
      var period := NewPeriod(s.budget, SpendingOf(s), next, cursor, carry);
      var carryOut := period.allocatedMinor - period.spentMinor;
      NewPeriodsSpent(s, next, period.end, carryOut, horizon, guard + 1);
      AllSpentAppend(s, [period], NewPeriods(s.budget, SpendingOf(s), next, period.end, carryOut, horizon, guard + 1));
    }
  }

  lemma GeneratedSpent(s: State, next: int -> int, first: int, horizon: int)
    requires SpentOk(s)
    ensures SpentOk(Generated(s, next, first, horizon))
  {
    var cursor, carry := FirstCursor(s, next, first), LastCarry(s.periods);
    NewPeriodsSpent(s, next, cursor, carry, horizon, 0);
    AllSpentAppend(s, s.periods, NewPeriods(s.budget, SpendingOf(s), next, cursor, carry, horizon, 0));
    SameSourcesAllSpent(s, Generated(s, next, first, horizon),
                          s.periods + NewPeriods(s.budget, SpendingOf(s), next, cursor, carry, horizon, 0));
  }

  /** One recomputation corrects the period of the event and leaves the spending of the others. */
  lemma RecomputedPeriod(s: State, next: int -> int, categoryId: Option<Id>, t: int, i: nat)
    requires Tiled(s.periods, next) && i < |s.periods|
    ensures var r := RecomputePeriodFor(s, categoryId, t);
      |r.periods| == |s.periods| && r.periods[i].start == s.periods[i].start && r.periods[i].end == s.periods[i].end
      && r.periods[i].spentMinor
         == if Concerned(s, categoryId) && Holds(s.periods[i].start, s.periods[i].end, t)
            then SpentIn(s, s.periods[i].start, s.periods[i].end) else s.periods[i].spentMinor
  {
    PeriodAtHolds(s.periods, t);
    if Concerned(s, categoryId) && PeriodAt(s.periods, t).Some? {
      var k := PeriodAt(s.periods, t).value;
      var respent := Respent(s, k).periods;
      RecascadedOk(s.budget, respent);
      assert Spent(Recascaded(s.budget, respent))[i] == Spent(respent)[i];
      CoveredOnce(s.periods, next, t);
      assert k != i ==> !Holds(s.periods[i].start, s.periods[i].end, t);
    }
  }

  lemma RecomputedSources(s: State, categoryId: Option<Id>, t: int)
    ensures var r := RecomputePeriodFor(s, categoryId, t); SameSources(s, r) && r.budget == s.budget
  {
  }

  /** Rows that spend nothing in an interval do not change its spending. */
  lemma UnchangedByTx(s: State, id: Id, tx: Tx, from: int, to: int)
    requires s.budget.categoryId.Some? ==> !Spends(tx, Scope(s), from, to)
    requires s.budget.categoryId.Some? && id in s.txs ==> !Spends(s.txs[id], Scope(s), from, to)
    ensures SpentIn(s.(txs := s.txs[id := tx]), from, to) == SpentIn(s, from, to)
  {
    if s.budget.categoryId.Some? {
      if id in s.txs {
        SumUpdate(s.txs, Spending(Scope(s), from, to), id, tx);
      } else {
        SumInsert(s.txs, Spending(Scope(s), from, to), id, tx);
      }
    }
  }

  /** A period that was right before a row was written, and has been recomputed if the event concerns it, is right. */
  lemma RightAfterEvent(s: State, written: State, period: Period, spent: int, id: Id, tx: Tx)
    requires written == s.(txs := s.txs[id := tx]) && s.budget.isActive && PeriodSpent(s, period)
    requires spent == SpentIn(written, period.start, period.end)
             || (spent == period.spentMinor
                 && !(Concerned(s, tx.categoryId) && Holds(period.start, period.end, tx.occurredAt))
                 && (id in s.txs ==>
                       !(Concerned(s, s.txs[id].categoryId) && Holds(period.start, period.end, s.txs[id].occurredAt))))
    ensures spent == SpentIn(written, period.start, period.end)
  {
    if spent != SpentIn(written, period.start, period.end) {
      UnchangedByTx(s, id, tx, period.start, period.end);
    }
  }

  lemma CreatedSpent(s: State, next: int -> int, id: Id, tx: Tx)
    requires Tiled(s.periods, next) && SpentOk(s) && s.budget.isActive && id !in s.txs
    ensures SpentOk(OnCreated(s, id, tx))
  {
    var written := s.(txs := s.txs[id := tx]);
    var r := OnCreated(s, id, tx);
    RecomputedSources(written, tx.categoryId, tx.occurredAt);
    RecomputedShape(written, tx.categoryId, tx.occurredAt);
    forall i | 0 <= i < |r.periods| ensures PeriodSpent(written, r.periods[i]) {
      assert PeriodSpent(s, s.periods[i]);
      RecomputedPeriod(written, next, tx.categoryId, tx.occurredAt, i);
      RightAfterEvent(s, written, s.periods[i], r.periods[i].spentMinor, id, tx);
    }
    SameSourcesAllSpent(written, r, r.periods);
  }

  lemma RecomputedShape(s: State, categoryId: Option<Id>, t: int)
    ensures SameBounds(s.periods, RecomputePeriodFor(s, categoryId, t).periods)
  {
    PeriodAtHolds(s.periods, t);
  }

  /** Handling the event for the old row and then for the new one. */
  lemma UpdatedPeriod(s: State, next: int -> int, id: Id, tx: Tx, i: nat)
    requires Tiled(s.periods, next) && SpentOk(s) && s.budget.isActive && id in s.txs && i < |s.periods|
    ensures var written, r := s.(txs := s.txs[id := tx]), OnUpdated(s, id, tx);
      SameSources(written, r) && SameBounds(s.periods, r.periods) && PeriodSpent(written, r.periods[i])
  {
    var written, before := s.(txs := s.txs[id := tx]), s.txs[id];
    var mid := RecomputePeriodFor(written, before.categoryId, before.occurredAt);
    RecomputedSources(written, before.categoryId, before.occurredAt);
    RecomputedShape(written, before.categoryId, before.occurredAt);
    RecomputedPeriod(written, next, before.categoryId, before.occurredAt, i);
    SameBoundsTiled(s.periods, mid.periods, next);
    var r := RecomputePeriodFor(mid, tx.categoryId, tx.occurredAt);
    RecomputedSources(mid, tx.categoryId, tx.occurredAt);
    RecomputedShape(mid, tx.categoryId, tx.occurredAt);
    RecomputedPeriod(mid, next, tx.categoryId, tx.occurredAt, i);
    SameSpentIn(written, mid, s.periods[i].start, s.periods[i].end);
    assert PeriodSpent(s, s.periods[i]);
    RightAfterEvent(s, written, s.periods[i], r.periods[i].spentMinor, id, tx);
  }

  lemma UpdatedSpent(s: State, next: int -> int, id: Id, tx: Tx)
    requires Tiled(s.periods, next) && SpentOk(s) && s.budget.isActive && id in s.txs
    ensures SpentOk(OnUpdated(s, id, tx))
  {
    var written, r := s.(txs := s.txs[id := tx]), OnUpdated(s, id, tx);
    RecomputedSources(written, s.txs[id].categoryId, s.txs[id].occurredAt);
    RecomputedShape(written, s.txs[id].categoryId, s.txs[id].occurredAt);
    var mid := RecomputePeriodFor(written, s.txs[id].categoryId, s.txs[id].occurredAt);
    RecomputedSources(mid, tx.categoryId, tx.occurredAt);
    RecomputedShape(mid, tx.categoryId, tx.occurredAt);
    forall i | 0 <= i < |r.periods| ensures PeriodSpent(written, r.periods[i]) {
      UpdatedPeriod(s, next, id, tx, i);
    }
    SameSourcesAllSpent(written, r, r.periods);
  }

  lemma DeletedSpent(s: State, next: int -> int, id: Id)
    requires Tiled(s.periods, next) && SpentOk(s) && s.budget.isActive && id in s.txs
    ensures SpentOk(OnDeleted(s, id))
  {
    var before := s.txs[id];
    var tx := before.(deleted := true);
    var written, r := s.(txs := s.txs[id := tx]), OnDeleted(s, id);
    RecomputedSources(written, before.categoryId, before.occurredAt);
    RecomputedShape(written, before.categoryId, before.occurredAt);
    forall i | 0 <= i < |r.periods| ensures PeriodSpent(written, r.periods[i]) {
      assert PeriodSpent(s, s.periods[i]);
      RecomputedPeriod(written, next, before.categoryId, before.occurredAt, i);
      RightAfterEvent(s, written, s.periods[i], r.periods[i].spentMinor, id, tx);
    }
    SameSourcesAllSpent(written, r, r.periods);
  }

  /** Categories no live transaction names come and go without touching any spending. */
  lemma ScopeChangeSpent(s: State, categories: map<Id, Category>, from: int, to: int)
    requires s.budget.categoryId.Some? ==>
               forall tx :: tx in s.txs.Values && !tx.deleted && tx.categoryId.Some? ==>
                 (tx.categoryId.value in DescendantIds(categories, s.budget.categoryId.value)
                  <==> tx.categoryId.value in Scope(s))
    ensures SpentIn(s.(categories := categories), from, to) == SpentIn(s, from, to)
  {
    if s.budget.categoryId.Some? {
      var scope := DescendantIds(categories, s.budget.categoryId.value);
      forall id | id in s.txs ensures Spending(scope, from, to)(s.txs[id]) == Spending(Scope(s), from, to)(s.txs[id]) {
        assert s.txs[id] in s.txs.Values;
      }
      SumCongruent(s.txs, Spending(scope, from, to), s.txs, Spending(Scope(s), from, to));
    }
  }

  lemma CategoriesSpent(s: State, k: Id, category: Category)
    requires SpentOk(s) && !Used(s.txs, k)
    ensures SpentOk(s.(categories := s.categories[k := category]))
  {
    var after := s.(categories := s.categories[k := category]);
    forall tx | tx in s.txs.Values && !tx.deleted && tx.categoryId.Some? && s.budget.categoryId.Some?
      ensures tx.categoryId.value in DescendantIds(after.categories, s.budget.categoryId.value)
         <==> tx.categoryId.value in Scope(s)
    {
      assert tx.categoryId.value != k;
    }
    forall i | 0 <= i < |s.periods| ensures PeriodSpent(after, s.periods[i]) {
      assert PeriodSpent(s, s.periods[i]);
      ScopeChangeSpent(s, after.categories, s.periods[i].start, s.periods[i].end);
    }
  }
}
