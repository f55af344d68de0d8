/** Every run of a budget: events, nightly extensions, edits of the budget and of the categories. */
module BudgetRuns {
  import opened Wrappers
  import opened MapSums
  import opened Rollover
  import opened PeriodBounds
  import opened Categories
  import opened Budgets
  import opened BudgetProofs

  // ----- the cascade after a recomputation -----

  lemma SameFigures(p: seq<Period>, q: seq<Period>)
    requires |p| == |q|
    requires forall i :: 0 <= i < |p| ==> p[i].spentMinor == q[i].spentMinor && AllocationOf(p[i]) == AllocationOf(q[i])
    ensures Spent(p) == Spent(q) && Allocations(p) == Allocations(q)
  {
  }

  lemma RespentCascade(budget: Budget, periods: seq<Period>, i: nat, spent: int)
    requires CascadeOk(budget, periods) && !budget.rollover && i < |periods|
    ensures CascadeOk(budget, periods[i := periods[i].(spentMinor := spent)])
  {
    var after := periods[i := periods[i].(spentMinor := spent)];
    assert Allocations(after) == Allocations(periods);
    CascadeWithoutRollover(budget.amountMinor, Spent(periods), Spent(after), 0);
  }

  lemma AlertedFigures(s: State, i: nat, period: Period)
    requires i < |s.periods|
    ensures var r := Alerted(s, i, period);
      Spent(r.periods) == Spent(s.periods) && Allocations(r.periods) == Allocations(s.periods)
      && SameBounds(s.periods, r.periods)
  {
    SameFigures(s.periods, Alerted(s, i, period).periods);
  }

  lemma RecomputedCascade(s: State, categoryId: Option<Id>, t: int)
    requires CascadeOk(s.budget, s.periods)
    ensures CascadeOk(s.budget, RecomputePeriodFor(s, categoryId, t).periods)
  {
    PeriodAtHolds(s.periods, t);
    if Concerned(s, categoryId) && PeriodAt(s.periods, t).Some? {
      var i := PeriodAt(s.periods, t).value;
      var respent := Respent(s, i);
      if s.budget.rollover {
        RecascadedOk(s.budget, respent.periods);
        AlertedFigures(respent.(periods := Recascaded(s.budget, respent.periods)), i, respent.periods[i]);
      } else {
        RespentCascade(s.budget, s.periods, i, SpentIn(s, s.periods[i].start, s.periods[i].end));
        AlertedFigures(respent, i, respent.periods[i]);
      }
    }
  }

  // ----- alerts -----

  predicate Announced(periods: seq<Period>, alert: Alert) {
    exists i :: 0 <= i < |periods| && periods[i].start == alert.periodStart
                && periods[i].lastAlertPct.Some? && alert.threshold <= periods[i].lastAlertPct.value
  }

  /** Every alert is recorded on its period, and the alerts of one period name ever higher thresholds. */
  ghost predicate AlertsOk(periods: seq<Period>, alerts: seq<Alert>) {
    (forall j :: 0 <= j < |alerts| ==> Announced(periods, alerts[j]))
    && forall j, k :: 0 <= j < k < |alerts| && alerts[j].periodStart == alerts[k].periodStart ==>
         alerts[j].threshold < alerts[k].threshold
  }

  /** At most one alert per period and threshold. */
  lemma AlertsAreDistinct(periods: seq<Period>, alerts: seq<Alert>, j: nat, k: nat)
    requires AlertsOk(periods, alerts) && j < k < |alerts|
    ensures alerts[j] != alerts[k]
  {
  }

  lemma {:induction false} CrossedAre(period: Period, thresholds: seq<int>, t: int)
    requires period.allocatedMinor > 0
    ensures t in CrossedThresholds(period, thresholds) <==> t in thresholds && Crossed(period, t)
  {
    if thresholds != [] {
      CrossedAre(period, thresholds[1..], t);
    }
  }

  lemma {:induction false} MaxOfIsLargest(values: seq<int>)
    requires values != []
    ensures MaxOf(values) in values && forall u :: u in values ==> u <= MaxOf(values)
  {
    if |values| > 1 {
      MaxOfIsLargest(values[1..]);
      assert forall u :: u in values <==> u == values[0] || u in values[1..];
    }
  }

  /** A threshold is announced exactly when it is the highest one crossed and none as high was announced before. */
  lemma AlertForExactly(period: Period, thresholds: seq<int>, t: int)
    ensures AlertFor(period, thresholds) == Some(t)
       <==> period.allocatedMinor > 0 && t in thresholds && Crossed(period, t)
            && (forall u :: u in thresholds && Crossed(period, u) ==> u <= t)
            && (period.lastAlertPct.Some? ==> period.lastAlertPct.value < t)
  {
    if period.allocatedMinor > 0 {
      var crossed := CrossedThresholds(period, thresholds);
      forall u ensures u in crossed <==> u in thresholds && Crossed(period, u) {
        CrossedAre(period, thresholds, u);
      }
      if crossed != [] {
        MaxOfIsLargest(crossed);
      }
    }
  }

  lemma QuotientReaches(n: nat, d: nat, k: int)
    requires 0 < d
    ensures n / d >= k <==> n >= k * d
  {
    var q, r := n / d, n % d;
    assert n == q * d + r;
    assert k <= q ==> (q - k) * d >= 0;
    assert k > q ==> (k - q - 1) * d >= 0;
  }

  /** Cutting the percentage to two decimals never hides or invents a crossing. */
  lemma CrossedIsShare(period: Period, threshold: int)
    requires period.allocatedMinor > 0 && threshold >= 1
    ensures Crossed(period, threshold) <==> 100 * period.spentMinor >= threshold * period.allocatedMinor
  {
    if period.spentMinor >= 0 {
      QuotientReaches(period.spentMinor * 10000, period.allocatedMinor, 100 * threshold);
      assert 100 * threshold * period.allocatedMinor == 100 * (threshold * period.allocatedMinor);
    } else {
      QuotientReaches(-(period.spentMinor * 10000), period.allocatedMinor, 0);
      assert threshold * period.allocatedMinor > 0;
    }
  }

  /** `q` has the periods of `p`, each with at least the same alert level, and maybe more. */
  predicate KeepsLevels(p: seq<Period>, q: seq<Period>) {
    |p| <= |q| && forall i :: 0 <= i < |p| ==>
      q[i].start == p[i].start
      && (p[i].lastAlertPct.Some? ==> q[i].lastAlertPct.Some? && p[i].lastAlertPct.value <= q[i].lastAlertPct.value)
  }

  lemma LevelsKeepAlerts(p: seq<Period>, q: seq<Period>, alerts: seq<Alert>)
    requires AlertsOk(p, alerts) && KeepsLevels(p, q)
    ensures AlertsOk(q, alerts)
  {
    forall j | 0 <= j < |alerts| ensures Announced(q, alerts[j]) {
      assert Announced(p, alerts[j]);
      var i :| 0 <= i < |p| && p[i].start == alerts[j].periodStart
               && p[i].lastAlertPct.Some? && alerts[j].threshold <= p[i].lastAlertPct.value;
      assert q[i].start == alerts[j].periodStart;
    }
  }

  lemma AlertsBelowLevel(periods: seq<Period>, next: int -> int, alerts: seq<Alert>, i: nat, j: nat)
    requires Tiled(periods, next) && AlertsOk(periods, alerts) && i < |periods| && j < |alerts|
    requires alerts[j].periodStart == periods[i].start
    ensures periods[i].lastAlertPct.Some? && alerts[j].threshold <= periods[i].lastAlertPct.value
  {
    assert Announced(periods, alerts[j]);
    var k :| 0 <= k < |periods| && periods[k].start == alerts[j].periodStart
             && periods[k].lastAlertPct.Some? && alerts[j].threshold <= periods[k].lastAlertPct.value;
    StartsDiffer(periods, next, i, k);
  }

  lemma StartsDiffer(periods: seq<Period>, next: int -> int, i: nat, k: nat)
    requires Tiled(periods, next) && i < |periods| && k < |periods| && periods[i].start == periods[k].start
    ensures i == k
  {
    if i < k {
      TiledOrder(periods, next, i, k);
    } else if k < i {
      TiledOrder(periods, next, k, i);
    }
  }

  lemma AlertedLevels(s: State, i: nat, period: Period)
    requires i < |s.periods| && period.start == s.periods[i].start && period.lastAlertPct == s.periods[i].lastAlertPct
    ensures KeepsLevels(s.periods, Alerted(s, i, period).periods)
  {
  }

  lemma AlertedAlerts(s: State, next: int -> int, i: nat, period: Period)
    requires Tiled(s.periods, next) && AlertsOk(s.periods, s.alerts) && i < |s.periods|
    requires period.start == s.periods[i].start && period.lastAlertPct == s.periods[i].lastAlertPct
    ensures AlertsOk(Alerted(s, i, period).periods, Alerted(s, i, period).alerts)
  {
    AlertedLevels(s, i, period);
    LevelsKeepAlerts(s.periods, Alerted(s, i, period).periods, s.alerts);
    var found := AlertFor(period, s.budget.alertThresholds);
    if found.Some? {
      var r := Alerted(s, i, period);
      forall j | 0 <= j < |s.alerts| && s.alerts[j].periodStart == period.start
        ensures s.alerts[j].threshold < found.value
      {
        AlertsBelowLevel(s.periods, next, s.alerts, i, j);
      }
      assert Announced(r.periods, Alert(period.start, found.value)) by {
        assert r.periods[i].start == period.start;
      }
    }
  }

  lemma RecomputedAlerts(s: State, next: int -> int, categoryId: Option<Id>, t: int)
    requires Tiled(s.periods, next) && AlertsOk(s.periods, s.alerts)
    ensures var r := RecomputePeriodFor(s, categoryId, t); AlertsOk(r.periods, r.alerts)
  {
    PeriodAtHolds(s.periods, t);
    if Concerned(s, categoryId) && PeriodAt(s.periods, t).Some? {
      var i := PeriodAt(s.periods, t).value;
      var respent := Respent(s, i);
      var cascaded := if s.budget.rollover then respent.(periods := Recascaded(s.budget, respent.periods)) else respent;
      LevelsKeepAlerts(s.periods, cascaded.periods, s.alerts);
      SameBoundsTiled(s.periods, cascaded.periods, next);
      AlertedAlerts(cascaded, next, i, respent.periods[i]);
    }
  }

  // ----- the invariant -----

  ghost predicate Inv(s: State, day: int) {
    Tiled(s.periods, Next(s.budget.period, day)) && CascadeOk(s.budget, s.periods)
    && AlertsOk(s.periods, s.alerts) && DepthOk(s.categories)
  }

  lemma NextAlwaysLater(period: PeriodType, day: int)
    requires 1 <= day
    ensures forall t :: t < Next(period, day)(t)
  {
    forall t ensures t < Next(period, day)(t) {
      NextIsLater(period, t, day);
    }
  }

  lemma GeneratedKeeps(s: State, day: int, first: int, horizon: int)
    requires 1 <= day && Inv(s, day)
    ensures Inv(Generated(s, Next(s.budget.period, day), first, horizon), day)
  {
    var next := Next(s.budget.period, day);
    NextAlwaysLater(s.budget.period, day);
    GeneratedTiled(s, next, first, horizon);
    GeneratedCascade(s, next, first, horizon);
    LevelsKeepAlerts(s.periods, Generated(s, next, first, horizon).periods, s.alerts);
  }

  lemma UpdateKeeps(s: State, day: int, changes: Changes)
    requires Inv(s, day)
    ensures Inv(Update(s, changes), day)
  {
    var updated := Updated(s.budget, changes);
    RecascadedOk(updated, s.periods);
    SameBoundsTiled(s.periods, Recascaded(updated, s.periods), Next(s.budget.period, day));
    LevelsKeepAlerts(s.periods, Recascaded(updated, s.periods), s.alerts);
  }

  lemma UpdateSpent(s: State, changes: Changes)
    requires SpentOk(s)
    ensures SpentOk(Update(s, changes))
  {
    var updated := Updated(s.budget, changes);
    RecascadedOk(updated, s.periods);
    forall i | 0 <= i < |s.periods| ensures PeriodSpent(s, Recascaded(updated, s.periods)[i]) {
      assert PeriodSpent(s, s.periods[i]);
      assert Spent(Recascaded(updated, s.periods))[i] == Spent(s.periods)[i];
    }
    SameSourcesAllSpent(s, Update(s, changes), Update(s, changes).periods);
  }

  lemma RecomputedKeeps(s: State, day: int, categoryId: Option<Id>, t: int)
    requires Inv(s, day)
    ensures Inv(RecomputePeriodFor(s, categoryId, t), day)
  {
    var next := Next(s.budget.period, day);
    RecomputedSources(s, categoryId, t);
    RecomputedShape(s, categoryId, t);
    SameBoundsTiled(s.periods, RecomputePeriodFor(s, categoryId, t).periods, next);
    RecomputedCascade(s, categoryId, t);
    RecomputedAlerts(s, next, categoryId, t);
  }

  lemma EventsKeep(s: State, day: int, op: Op)
    requires Inv(s, day) && Enabled(s, op) && (op.CreateTx? || op.UpdateTx? || op.DeleteTx?)
    ensures Inv(Step(s, op, day), day)
  {
    match op
    case CreateTx(id, tx) =>
      RecomputedKeeps(s.(txs := s.txs[id := tx]), day, tx.categoryId, tx.occurredAt);
    case UpdateTx(id, tx) =>
      var before := s.txs[id];
      RecomputedKeeps(s.(txs := s.txs[id := tx]), day, before.categoryId, before.occurredAt);
      RecomputedKeeps(RecomputePeriodFor(s.(txs := s.txs[id := tx]), before.categoryId, before.occurredAt), day,
        tx.categoryId, tx.occurredAt);
    case DeleteTx(id) =>
      var before := s.txs[id];
      RecomputedKeeps(s.(txs := s.txs[id := before.(deleted := true)]), day, before.categoryId, before.occurredAt);
  }

  /** Every operation keeps the tiling, the cascade, the alert record and the category depth. */
  lemma StepKeeps(s: State, op: Op, day: int)
    requires 1 <= day && Inv(s, day) && Enabled(s, op)
    ensures Inv(Step(s, op, day), day)
  {
    match op
    case Generate(horizon) =>
      GeneratedKeeps(s, day, PeriodStart(s.budget.period, s.budget.startsOn, day), horizon);
    case UpdateBudget(changes) => UpdateKeeps(s, day, changes);
    case CreateCategory(naming, id, parentId, kind, name) => CreateKeepsDepth(s.categories, naming, id, parentId, kind, name);
    case RemoveCategory(id) => RemoveKeepsDepth(s.categories, id, Used(s.txs, id), None);
    case _ => EventsKeep(s, day, op);
  }

  /** While the budget is active, every operation keeps the materialized spending equal to its definition. */
  lemma StepSpent(s: State, op: Op, day: int)
    requires 1 <= day && Inv(s, day) && SpentOk(s) && s.budget.isActive && Enabled(s, op)
    ensures SpentOk(Step(s, op, day))
  {
    var next := Next(s.budget.period, day);
    match op
    case Generate(horizon) => GeneratedSpent(s, next, PeriodStart(s.budget.period, s.budget.startsOn, day), horizon);
    case UpdateBudget(changes) => UpdateSpent(s, changes);
    case CreateTx(id, tx) => CreatedSpent(s, next, id, tx);
    case UpdateTx(id, tx) => UpdatedSpent(s, next, id, tx);
    case DeleteTx(id) => DeletedSpent(s, next, id);
    case CreateCategory(naming, id, parentId, kind, name) =>
      if id !in s.categories {
        CategoriesSpent(s, id, NewCategory(parentId, kind, name));
      }
    case RemoveCategory(id) =>
      if IsLive(s.categories, id) && !Used(s.txs, id) {
        CategoriesSpent(s, id, s.categories[id].(deleted := true));
      }
  }

  // ----- how far generation goes -----

  ghost predicate AllDue(budget: Budget, periods: seq<Period>, horizon: int) {
    forall i :: 0 <= i < |periods| ==> Due(budget, periods[i].start, horizon)
  }

  lemma {:induction false} NewPeriodsReach(budget: Budget, spentIn: (int, int) -> int, next: int -> int, cursor: int,
          carry: int, horizon: int, guard: nat)
    requires guard <= GUARD
    ensures var periods := NewPeriods(budget, spentIn, next, cursor, carry, horizon, guard);
      AllDue(budget, periods, horizon)
      && (|periods| == GUARD - guard
          || !Due(budget, if periods == [] then cursor else periods[|periods| - 1].end, horizon))
    decreases GUARD - guard
  {
    if Due(budget, cursor, horizon) && guard < GUARD {
      var period := NewPeriod(budget, spentIn, next, cursor, carry);
      var carryOut := period.allocatedMinor - period.spentMinor;
      var rest := NewPeriods(budget, spentIn, next, period.end, carryOut, horizon, guard + 1);
      NewPeriodsReach(budget, spentIn, next, period.end, carryOut, horizon, guard + 1);
      assert forall i :: 0 < i < |[period] + rest| ==> ([period] + rest)[i] == rest[i - 1];
    }
  }

  /** Where generation would go on after these periods. */
  lemma CursorAfter(s: State, added: seq<Period>, next: int -> int, first: int)
    requires added != [] ==> added[|added| - 1].end == next(added[|added| - 1].start)
    ensures FirstCursor(s.(periods := s.periods + added), next, first)
         == if added == [] then FirstCursor(s, next, first) else added[|added| - 1].end
  {
    if added == [] {
      assert s.periods + added == s.periods;
    }
  }

  /** What one extension adds. */
  ghost function Extension(s: State, next: int -> int, first: int, horizon: int): seq<Period> {
    NewPeriods(s.budget, SpendingOf(s), next, FirstCursor(s, next, first), LastCarry(s.periods), horizon, 0)
  }

  lemma ExtensionIsGenerated(s: State, next: int -> int, first: int, horizon: int)
    ensures Generated(s, next, first, horizon) == s.(periods := s.periods + Extension(s, next, first, horizon))
  {
  }

  lemma ExtensionReach(s: State, next: int -> int, first: int, horizon: int)
    ensures var added := Extension(s, next, first, horizon);
      && AllDue(s.budget, added, horizon)
      && (|added| == GUARD
          || !Due(s.budget, if added == [] then FirstCursor(s, next, first) else added[|added| - 1].end, horizon))
      && (added != [] ==> added[|added| - 1].end == next(added[|added| - 1].start))
  {
    NewPeriodsReach(s.budget, SpendingOf(s), next, FirstCursor(s, next, first), LastCarry(s.periods), horizon, 0);
    NewPeriodsEnds(s.budget, SpendingOf(s), next, FirstCursor(s, next, first), LastCarry(s.periods), horizon, 0);
  }

  /** One extension adds only periods that start by the horizon and the end of the budget, and goes on until the next
      one would not, or 60 have been added. */
  lemma GenerationReaches(s: State, next: int -> int, first: int, horizon: int)
    ensures var after := Generated(s, next, first, horizon);
      var added := after.periods[|s.periods|..];
      after.periods == s.periods + added && AllDue(s.budget, added, horizon)
      && (|added| == GUARD || !Due(s.budget, FirstCursor(after, next, first), horizon))
  {
    var added := Extension(s, next, first, horizon);
    ExtensionIsGenerated(s, next, first, horizon);
    ExtensionReach(s, next, first, horizon);
    CursorAfter(s, added, next, first);
    assert (s.periods + added)[|s.periods|..] == added;
  }

  lemma {:induction false} NewPeriodsEnds(budget: Budget, spentIn: (int, int) -> int, next: int -> int, cursor: int,
          carry: int, horizon: int, guard: nat)
    ensures var periods := NewPeriods(budget, spentIn, next, cursor, carry, horizon, guard);
      periods != [] ==> periods[|periods| - 1].end == next(periods[|periods| - 1].start)
    decreases GUARD - guard
  {
    if Due(budget, cursor, horizon) && guard < GUARD {
      var period := NewPeriod(budget, spentIn, next, cursor, carry);
      NewPeriodsEnds(budget, spentIn, next, period.end, period.allocatedMinor - period.spentMinor, horizon, guard + 1);
    }
  }

  ghost predicate Possible(s: State, ops: seq<Op>, day: int)
    decreases |ops|
  {
    ops == [] || (Enabled(s, ops[0]) && Possible(Step(s, ops[0], day), ops[1..], day))
  }

  ghost function Run(s: State, ops: seq<Op>, day: int): State
    requires Possible(s, ops, day)
    decreases |ops|
  {
    if ops == [] then s else Run(Step(s, ops[0], day), ops[1..], day)
  }

  /** The budget is active whenever an operation runs. */
  ghost predicate StaysActive(s: State, ops: seq<Op>, day: int)
    requires Possible(s, ops, day)
    decreases |ops|
  {
    ops == [] || (s.budget.isActive && StaysActive(Step(s, ops[0], day), ops[1..], day))
  }

  lemma {:induction false} RunKeeps(s: State, ops: seq<Op>, day: int)
    requires 1 <= day && Inv(s, day) && Possible(s, ops, day)
    ensures Inv(Run(s, ops, day), day)
    decreases |ops|
  {
    if ops != [] {
      StepKeeps(s, ops[0], day);
      RunKeeps(Step(s, ops[0], day), ops[1..], day);
    }
  }

  lemma {:induction false} RunSpent(s: State, ops: seq<Op>, day: int)
    requires 1 <= day && Inv(s, day) && SpentOk(s) && Possible(s, ops, day) && StaysActive(s, ops, day)
    ensures SpentOk(Run(s, ops, day))
    decreases |ops|
  {
    if ops != [] {
      StepKeeps(s, ops[0], day);
      StepSpent(s, ops[0], day);
      RunSpent(Step(s, ops[0], day), ops[1..], day);
    }
  }

  /** A budget without periods yet, and no alert. */
  predicate Fresh(s: State) {
    s.periods == [] && s.alerts == [] && DepthOk(s.categories)
  }

  lemma FreshIsSound(s: State, day: int)
    requires Fresh(s)
    ensures Inv(s, day) && SpentOk(s)
  {
    assert Allocations(s.periods) == [] && Spent(s.periods) == [];
  }

  /** From a budget without periods on, every run keeps the tiling, the cascade, the alert record and the category depth, and
      while the budget is active the stored spending is the sum of its transactions. */
  lemma EveryBudgetIsSound(s: State, ops: seq<Op>, day: int)
    requires 1 <= day && Fresh(s) && Possible(s, ops, day)
    ensures Inv(Run(s, ops, day), day)
    ensures StaysActive(s, ops, day) ==> SpentOk(Run(s, ops, day))
  {
    FreshIsSound(s, day);
    RunKeeps(s, ops, day);
    if StaysActive(s, ops, day) {
      RunSpent(s, ops, day);
    }
  }

  // ----- a budget that is paused -----

  /** The budget is inactive whenever an operation runs; the last one may activate it again. */
  ghost predicate StaysPaused(s: State, ops: seq<Op>, day: int)
    requires Possible(s, ops, day)
    decreases |ops|
  {
    ops == [] || (!s.budget.isActive && StaysPaused(Step(s, ops[0], day), ops[1..], day))
  }

  predicate SameSpending(p: seq<Period>, q: seq<Period>) {
    SameBounds(p, q) && forall i :: 0 <= i < |p| ==> p[i].spentMinor == q[i].spentMinor
  }

  lemma RecascadedSpending(budget: Budget, periods: seq<Period>)
    ensures SameSpending(periods, Recascaded(budget, periods))
  {
    RecascadedOk(budget, periods);
    forall i | 0 <= i < |periods| ensures periods[i].spentMinor == Recascaded(budget, periods)[i].spentMinor {
      assert Spent(Recascaded(budget, periods))[i] == Spent(periods)[i];
    }
  }

  /** Nothing that happens to a paused budget touches its stored spending. */
  lemma PausedStep(s: State, op: Op, day: int)
    requires !s.budget.isActive && Enabled(s, op)
    ensures SameSpending(s.periods, Step(s, op, day).periods)
    ensures Step(s, op, day).budget.categoryId == s.budget.categoryId
  {
    if op.UpdateBudget? {
      RecascadedSpending(Updated(s.budget, op.changes), s.periods);
    }
  }

  lemma {:induction false} PausedRun(s: State, ops: seq<Op>, day: int)
    requires Possible(s, ops, day) && StaysPaused(s, ops, day)
    ensures SameSpending(s.periods, Run(s, ops, day).periods)
    decreases |ops|
  {
    if ops != [] {
      PausedStep(s, ops[0], day);
      PausedRun(Step(s, ops[0], day), ops[1..], day);
    }
  }

  /** A pause leaves the stored spending right if and only if the live expenses in scope add up, in every stored period, to
      what they added up to before it. */
  lemma SpentAfterPause(s: State, ops: seq<Op>, day: int)
    requires SpentOk(s) && Possible(s, ops, day) && StaysPaused(s, ops, day)
    ensures SpentOk(Run(s, ops, day))
       <==> forall i :: 0 <= i < |s.periods| ==>
              SpentIn(Run(s, ops, day), s.periods[i].start, s.periods[i].end)
              == SpentIn(s, s.periods[i].start, s.periods[i].end)
  {
    PausedRun(s, ops, day);
    var after := Run(s, ops, day);
    forall i | 0 <= i < |s.periods|
      ensures PeriodSpent(after, after.periods[i])
         <==> SpentIn(after, s.periods[i].start, s.periods[i].end) == SpentIn(s, s.periods[i].start, s.periods[i].end)
    {
      assert PeriodSpent(s, s.periods[i]);
    }
  }

  function Activation(isActive: bool): Op {
    UpdateBudget(Changes(None, None, None, None, Some(isActive)))
  }

  /** An expense in scope that is recorded during a pause is missing from its period once the budget is active again. */
  lemma PausedExpenseIsLost(s: State, id: Id, tx: Tx, i: nat, day: int)
    requires SpentOk(s) && s.budget.isActive && s.budget.categoryId.Some? && id !in s.txs && i < |s.periods|
    requires Spends(tx, Scope(s), s.periods[i].start, s.periods[i].end) && tx.amountMinor != 0
    ensures var paused := Step(s, Activation(false), day);
      Enabled(paused, CreateTx(id, tx))
      && var resumed := Step(Step(paused, CreateTx(id, tx), day), Activation(true), day);
         resumed.budget == s.budget && resumed.periods == s.periods && !SpentOk(resumed)
  {
    var paused := Step(s, Activation(false), day);
    var resumed := Step(Step(paused, CreateTx(id, tx), day), Activation(true), day);
    var from, to := s.periods[i].start, s.periods[i].end;
    SumInsert(s.txs, Spending(Scope(s), from, to), id, tx);
    assert SpentIn(resumed, from, to) == SpentIn(s, from, to) + tx.amountMinor;
    assert PeriodSpent(s, s.periods[i]) && !PeriodSpent(resumed, resumed.periods[i]);
  }
}
