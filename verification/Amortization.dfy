/** Amortization schedules, with exact rates and banker's rounding of every amount. */
module Amortization {
  import opened Rounding
  import opened ScheduleDates
  import opened Calendar

  datatype Line = Line(
    sequence: int, dueOn: int, total: int, principal: int, interest: int, balanceAfter: int)

  /** What one schedule fixes: the interest charged on a balance, the installment, due dates and numbering. */
  datatype Plan = Plan(charge: int -> int, installment: int, dueOn: nat -> int, startSequence: int)

  /** The due dates of a schedule, counted from 0. */
  function DueDates(startedOn: int, frequency: Frequency): nat -> int {
    (k: nat) => AddPeriodUTC(startedOn, frequency, k + 1)
  }

  const MAX_PERIODS := 1200

  function RoundedProduct(x: real, y: real): int {
    BankersRound(x * y)
  }

  function Interest(balance: int, rate: real): int {
    if rate > 0.0 then RoundedProduct(balance as real, rate) else 0
  }

  lemma MulMonotone(x: real, y: real, z: real)
    requires x <= y && 0.0 <= z
    ensures x * z <= y * z
  {
    assert 0.0 <= (y - x) * z;
  }

  lemma RoundedProductMonotone(x: real, y: real, z: real)
    requires x <= y && 0.0 <= z
    ensures RoundedProduct(x, z) <= RoundedProduct(y, z)
  {
    MulMonotone(x, y, z);
    RoundMonotone(x * z, y * z);
  }

  lemma InterestMonotone(a: int, b: int, rate: real)
    requires a <= b
    ensures Interest(a, rate) <= Interest(b, rate)
  {
    if rate > 0.0 {
      RoundedProductMonotone(a as real, b as real, rate);
    }
  }

  lemma InterestNonNegative(balance: int, rate: real)
    requires 0 <= balance
    ensures 0 <= Interest(balance, rate)
  {
    if rate > 0.0 {
      RoundNonNegative(balance as real * rate);
    }
  }

  function Charge(rate: real): int -> int {
    balance => Interest(balance, rate)
  }

  /** A larger balance is charged no less, and no balance from 0 up is charged less than nothing. */
  ghost predicate Fair(charge: int -> int) {
    (forall a, b :: a <= b ==> charge(a) <= charge(b)) && (forall a :: 0 <= a ==> 0 <= charge(a))
  }

  lemma ChargeIsFair(rate: real)
    ensures Fair(Charge(rate))
  {
    forall a, b | a <= b ensures Charge(rate)(a) <= Charge(rate)(b) {
      InterestMonotone(a, b, rate);
    }
    forall a | 0 <= a ensures 0 <= Charge(rate)(a) {
      InterestNonNegative(a, rate);
    }
  }

  function LineAt(plan: Plan, k: nat, balance: int, principal: int): Line {
    var interest := plan.charge(balance);
    Line(plan.startSequence + k, plan.dueOn(k),
      principal + interest, principal, interest, balance - principal)
  }

  // ----- what every schedule keeps -----

  function SumPrincipal(lines: seq<Line>): int {
    if lines == [] then 0 else lines[0].principal + SumPrincipal(lines[1..])
  }

  function SumInterest(lines: seq<Line>): int {
    if lines == [] then 0 else lines[0].interest + SumInterest(lines[1..])
  }

  function FinalBalance(lines: seq<Line>, balance: int): int {
    if lines == [] then balance else lines[|lines| - 1].balanceAfter
  }

  /** Each line pays its principal part off the balance the line before it left. */
  ghost predicate Runs(lines: seq<Line>, balance: int) {
    lines == [] ||
    (lines[0].total == lines[0].principal + lines[0].interest
     && lines[0].balanceAfter == balance - lines[0].principal
     && Runs(lines[1..], lines[0].balanceAfter))
  }

  /** Along a run, the principal parts add up to what the balance lost. */
  lemma {:induction false} PrincipalPaidOff(lines: seq<Line>, balance: int)
    requires Runs(lines, balance)
    ensures SumPrincipal(lines) == balance - FinalBalance(lines, balance)
  {
    if lines != [] {
      PrincipalPaidOff(lines[1..], lines[0].balanceAfter);
    }
  }

  /** Lines with no negative part, numbered one after the other, whose parts add up to the total. */
  ghost predicate Chargeable(lines: seq<Line>, startSequence: int) {
    forall j: nat :: j < |lines| ==>
      lines[j].sequence == startSequence + j && 0 <= lines[j].principal && 0 <= lines[j].interest
      && lines[j].total == lines[j].principal + lines[j].interest
  }

  ghost predicate NonNegativeParts(lines: seq<Line>) {
    lines == [] || (0 <= lines[0].principal && 0 <= lines[0].interest && NonNegativeParts(lines[1..]))
  }

  lemma {:induction false} PartsOfLine(lines: seq<Line>, balance: int, j: nat)
    requires Runs(lines, balance) && NonNegativeParts(lines) && j < |lines|
    ensures 0 <= lines[j].principal && 0 <= lines[j].interest
    ensures lines[j].total == lines[j].principal + lines[j].interest
    decreases j
  {
    if j > 0 {
      PartsOfLine(lines[1..], lines[0].balanceAfter, j - 1);
    }
  }

  lemma RunIsChargeable(plan: Plan, lines: seq<Line>, balance: int)
    requires Runs(lines, balance) && NonNegativeParts(lines) && Dated(plan, lines, 0)
    ensures Chargeable(lines, plan.startSequence)
  {
    forall j: nat | j < |lines|
      ensures lines[j].sequence == plan.startSequence + j && 0 <= lines[j].principal && 0 <= lines[j].interest
      ensures lines[j].total == lines[j].principal + lines[j].interest
    {
      PartsOfLine(lines, balance, j);
    }
  }

  /** Lines are numbered from the start sequence and fall due one period apart. */
  ghost predicate Dated(plan: Plan, lines: seq<Line>, k: nat) {
    forall j: nat :: j < |lines| ==>
      lines[j].sequence == plan.startSequence + (k + j)
      && lines[j].dueOn == plan.dueOn(k + j)
  }

  lemma DatedCons(plan: Plan, line: Line, rest: seq<Line>, k: nat)
    requires Dated(plan, [line], k) && Dated(plan, rest, k + 1)
    ensures Dated(plan, [line] + rest, k)
  {
    var lines := [line] + rest;
    forall j: nat | j < |lines|
      ensures lines[j].sequence == plan.startSequence + (k + j)
      ensures lines[j].dueOn == plan.dueOn(k + j)
    {
      if j > 0 {
        assert lines[j] == rest[j - 1];
      } else {
        assert lines[j] == [line][0];
      }
    }
  }

  ghost predicate DueInOrder(lines: seq<Line>) {
    forall i, j :: 0 <= i < j < |lines| ==> lines[i].dueOn < lines[j].dueOn
  }

  lemma OrderOfDates(lines: seq<Line>, due: int -> int)
    requires forall i :: 0 <= i < |lines| ==> lines[i].dueOn == due(i + 1)
    ensures DueInOrder(lines) <==> Rises(due, |lines|)
  {
    if DueInOrder(lines) {
      forall i: nat, j: nat | 1 <= i < j <= |lines| ensures due(i) < due(j) {
        assert lines[i - 1].dueOn < lines[j - 1].dueOn;
      }
    }
  }

  lemma DueOnIs(plan: Plan, lines: seq<Line>, startedOn: int, frequency: Frequency, i: nat)
    requires Dated(plan, lines, 0) && plan.dueOn == DueDates(startedOn, frequency) && i < |lines|
    ensures lines[i].dueOn == DueOn(startedOn, frequency)(i + 1)
  {
  }

  /** The lines are due one after the other if and only if their due dates do not cross into the year 100. */
  lemma DatedInOrder(plan: Plan, lines: seq<Line>, startedOn: int, frequency: Frequency)
    requires Dated(plan, lines, 0) && plan.dueOn == DueDates(startedOn, frequency)
    ensures DueInOrder(lines) <==> !CrossesYear100(startedOn, frequency, |lines|)
  {
    forall i | 0 <= i < |lines| ensures lines[i].dueOn == DueOn(startedOn, frequency)(i + 1) {
      DueOnIs(plan, lines, startedOn, frequency, i);
    }
    OrderOfDates(lines, DueOn(startedOn, frequency));
    RisesIff(startedOn, frequency, |lines|);
  }

  // ----- fixed installment -----

  function FixedPrincipal(plan: Plan, balance: int): int {
    var interest := plan.charge(balance);
    var remaining := if plan.installment > interest then plan.installment - interest else 0;
    if remaining >= balance then balance else remaining
  }

  function FixedLines(plan: Plan, balance: int, k: nat, maxPeriods: nat): seq<Line>
    decreases maxPeriods - k
  {
    if balance <= 0 || k >= maxPeriods then []
    else
      var principal := FixedPrincipal(plan, balance);
      [LineAt(plan, k, balance, principal)] + FixedLines(plan, balance - principal, k + 1, maxPeriods)
  }

  /** The whole schedule of a fixed installment. */
  function FixedSchedule(plan: Plan, balance: int, maxPeriods: nat): seq<Line> {
    FixedLines(plan, balance, 0, maxPeriods)
  }

  lemma FixedStep(plan: Plan, principal: int, lines: seq<Line>, balance: int, k: nat, maxPeriods: nat, line: Line)
    requires balance > 0 && k < maxPeriods && line == LineAt(plan, k, balance, FixedPrincipal(plan, balance))
    requires FixedLines(plan, principal, 0, maxPeriods) == lines + FixedLines(plan, balance, k, maxPeriods)
    ensures FixedLines(plan, principal, 0, maxPeriods)
         == lines + [line] + FixedLines(plan, line.balanceAfter, k + 1, maxPeriods)
  {
  }

  method GenerateFixedInstallmentSchedule(principal: int, rate: real, installment: int, dueOn: nat -> int,
      startSequence: int, maxPeriods: nat := MAX_PERIODS)
    returns (lines: seq<Line>)
    ensures lines == FixedLines(Plan(Charge(rate), installment, dueOn, startSequence), principal, 0, maxPeriods)
  {
    lines := [];
    var balance := principal;
    var k := 0;
    ghost var plan := Plan(Charge(rate), installment, dueOn, startSequence);
    while balance > 0 && k < maxPeriods
      invariant 0 <= k && (k <= maxPeriods || balance <= 0)
      invariant FixedLines(plan, principal, 0, maxPeriods) == lines + FixedLines(plan, balance, k, maxPeriods)
      decreases maxPeriods - k
    {
      var interest := Interest(balance, rate);
      var remainingAfterInterest := if installment > interest then installment - interest else 0;
      var principalK := if remainingAfterInterest >= balance then balance else remainingAfterInterest;
      var balanceAfter := balance - principalK;
      var line := Line(startSequence + k, dueOn(k), principalK + interest, principalK, interest, balanceAfter);
      FixedStep(plan, principal, lines, balance, k, maxPeriods, line);
      lines := lines + [line];
      balance := balanceAfter;
      k := k + 1;
    }
  }

  lemma {:induction false} FixedLinesRun(plan: Plan, balance: int, k: nat, maxPeriods: nat)
    ensures Runs(FixedLines(plan, balance, k, maxPeriods), balance)
    decreases maxPeriods - k
  {
    if balance > 0 && k < maxPeriods {
      FixedLinesRun(plan, balance - FixedPrincipal(plan, balance), k + 1, maxPeriods);
    }
  }

  lemma {:induction false} FixedLinesDated(plan: Plan, balance: int, k: nat, maxPeriods: nat)
    ensures Dated(plan, FixedLines(plan, balance, k, maxPeriods), k)
    decreases maxPeriods - k
  {
    if balance > 0 && k < maxPeriods {
      var principal := FixedPrincipal(plan, balance);
      FixedLinesDated(plan, balance - principal, k + 1, maxPeriods);
      DatedCons(plan, LineAt(plan, k, balance, principal), FixedLines(plan, balance - principal, k + 1, maxPeriods), k);
    }
  }

  lemma {:induction false} FixedLinesNonNegative(plan: Plan, balance: int, k: nat, maxPeriods: nat)
    requires Fair(plan.charge)
    ensures NonNegativeParts(FixedLines(plan, balance, k, maxPeriods))
    decreases maxPeriods - k
  {
    if balance > 0 && k < maxPeriods {
      assert 0 <= plan.charge(balance);
      FixedLinesNonNegative(plan, balance - FixedPrincipal(plan, balance), k + 1, maxPeriods);
    }
  }

  lemma FixedLinesChargeable(plan: Plan, balance: int, maxPeriods: nat)
    requires Fair(plan.charge)
    ensures Chargeable(FixedLines(plan, balance, 0, maxPeriods), plan.startSequence)
  {
    FixedLinesRun(plan, balance, 0, maxPeriods);
    FixedLinesDated(plan, balance, 0, maxPeriods);
    FixedLinesNonNegative(plan, balance, 0, maxPeriods);
    RunIsChargeable(plan, FixedLines(plan, balance, 0, maxPeriods), balance);
  }

  /** A run ends at balance 0, or has filled every allowed period. */
  lemma {:induction false} FixedEndsAtZeroOrCap(plan: Plan, balance: int, k: nat, maxPeriods: nat)
    requires 0 <= balance && k <= maxPeriods
    ensures var lines := FixedLines(plan, balance, k, maxPeriods);
      |lines| <= maxPeriods - k && 0 <= FinalBalance(lines, balance)
      && (FinalBalance(lines, balance) == 0 || |lines| == maxPeriods - k)
    decreases maxPeriods - k
  {
    if balance > 0 && k < maxPeriods {
      FixedEndsAtZeroOrCap(plan, balance - FixedPrincipal(plan, balance), k + 1, maxPeriods);
    }
  }

  /** Principal parts add up to what was paid off, which is everything unless the run was cut off. */
  lemma FixedPaysPrincipal(plan: Plan, principal: int, maxPeriods: nat)
    requires 0 <= principal
    ensures var lines := FixedLines(plan, principal, 0, maxPeriods);
      SumPrincipal(lines) == principal - FinalBalance(lines, principal)
      && (SumPrincipal(lines) == principal || |lines| == maxPeriods)
  {
    FixedLinesRun(plan, principal, 0, maxPeriods);
    PrincipalPaidOff(FixedLines(plan, principal, 0, maxPeriods), principal);
    FixedEndsAtZeroOrCap(plan, principal, 0, maxPeriods);
  }

  // ----- dominance -----

  /** Line by line, `a` is due on the same dates, is charged no more interest and leaves no more balance than `b`. */
  ghost predicate Dominated(a: seq<Line>, b: seq<Line>) {
    |a| <= |b|
    && forall k :: 0 <= k < |a| ==>
         a[k].dueOn == b[k].dueOn && a[k].interest <= b[k].interest && a[k].balanceAfter <= b[k].balanceAfter
  }

  /** The same, first line first, with no interest of `b` negative. */
  ghost predicate Below(a: seq<Line>, b: seq<Line>) {
    if b == [] then a == []
    else
      0 <= b[0].interest
      && (a == [] ||
          (a[0].dueOn == b[0].dueOn && a[0].interest <= b[0].interest && a[0].balanceAfter <= b[0].balanceAfter))
      && Below(if a == [] then [] else a[1..], b[1..])
  }

  lemma {:induction false} BelowDominates(a: seq<Line>, b: seq<Line>)
    requires Below(a, b)
    ensures Dominated(a, b) && SumInterest(a) <= SumInterest(b)
    decreases |b|
  {
    if a != [] {
      BelowDominates(a[1..], b[1..]);
      forall k | 0 <= k < |a|
        ensures a[k].dueOn == b[k].dueOn && a[k].interest <= b[k].interest && a[k].balanceAfter <= b[k].balanceAfter
      {
        assert k > 0 ==> a[k] == a[1..][k - 1] && b[k] == b[1..][k - 1];
      }
    } else if b != [] {
      BelowDominates([], b[1..]);
    }
  }

  /** A lower balance stays lower after one period. */
  lemma NextBalanceMonotone(plan: Plan, a: int, b: int)
    requires Fair(plan.charge)
    requires 0 < a <= b
    ensures a - FixedPrincipal(plan, a) <= b - FixedPrincipal(plan, b)
  {
    assert plan.charge(a) <= plan.charge(b);
  }

  lemma {:induction false} NothingBelow(plan: Plan, b: int, k: nat, maxPeriods: nat)
    requires Fair(plan.charge)
    ensures Below([], FixedLines(plan, b, k, maxPeriods))
    decreases maxPeriods - k
  {
    if b > 0 && k < maxPeriods {
      assert 0 <= plan.charge(b);
      NothingBelow(plan, b - FixedPrincipal(plan, b), k + 1, maxPeriods);
    }
  }

  lemma {:induction false} LowerBalanceBelow(plan: Plan, a: int, b: int, k: nat, maxPeriods: nat)
    requires Fair(plan.charge) && a <= b
    ensures Below(FixedLines(plan, a, k, maxPeriods), FixedLines(plan, b, k, maxPeriods))
    decreases maxPeriods - k
  {
    if a <= 0 || k >= maxPeriods {
      NothingBelow(plan, b, k, maxPeriods);
    } else {
      assert 0 <= plan.charge(b) && plan.charge(a) <= plan.charge(b);
      NextBalanceMonotone(plan, a, b);
      LowerBalanceBelow(plan, a - FixedPrincipal(plan, a), b - FixedPrincipal(plan, b), k + 1, maxPeriods);
    }
  }

  /** Starting from a lower balance, with the same rate, installment and dates, the balance is never higher, the run is
      no longer and the total interest no larger. */
  lemma LowerBalanceDominates(plan: Plan, a: int, b: int, maxPeriods: nat)
    requires Fair(plan.charge) && a <= b
    ensures var low, high := FixedLines(plan, a, 0, maxPeriods), FixedLines(plan, b, 0, maxPeriods);
      Dominated(low, high) && SumInterest(low) <= SumInterest(high)
  {
    LowerBalanceBelow(plan, a, b, 0, maxPeriods);
    BelowDominates(FixedLines(plan, a, 0, maxPeriods), FixedLines(plan, b, 0, maxPeriods));
  }

  // ----- how long a run lasts -----

  lemma MulStep(n: nat, d: int)
    ensures (n - 1) * d == n * d - d
  {
  }

  /** With at least `gain` of every installment going to principal, `n` periods are enough for `n * gain`. */
  lemma {:induction false} FixedLengthBound(plan: Plan, balance: int, k: nat, maxPeriods: nat, gain: int, n: nat)
    requires Fair(plan.charge)
    requires 0 < gain <= plan.installment - plan.charge(balance) && balance <= n * gain
    ensures |FixedLines(plan, balance, k, maxPeriods)| <= n
    ensures 0 <= balance && n <= maxPeriods - k ==> FinalBalance(FixedLines(plan, balance, k, maxPeriods), balance) == 0
    decreases n
  {
    if balance > 0 && k < maxPeriods {
      assert n > 0;
      MulStep(n, gain);
      var next := balance - FixedPrincipal(plan, balance);
      assert plan.charge(next) <= plan.charge(balance);
      FixedLengthBound(plan, next, k + 1, maxPeriods, gain, n - 1);
    }
  }

  function CeilDiv(a: int, b: int): int
    requires b > 0
  {
    (a + b - 1) / b
  }

  lemma CeilDivCovers(a: int, b: int)
    requires 0 <= a && 0 < b
    ensures 0 <= CeilDiv(a, b) && a <= CeilDiv(a, b) * b
  {
    var q, r := (a + b - 1) / b, (a + b - 1) % b;
    assert a + b - 1 == q * b + r;
  }

  /** An installment above the first interest pays everything off, within the stated number of lines. */
  lemma InstallmentAboveInterest(plan: Plan, principal: int, maxPeriods: nat)
    requires Fair(plan.charge)
    requires 0 < principal && plan.installment > plan.charge(principal)
    ensures var lines := FixedLines(plan, principal, 0, maxPeriods);
      var bound := CeilDiv(principal, plan.installment - plan.charge(principal));
      |lines| <= bound && (bound <= maxPeriods ==> FinalBalance(lines, principal) == 0)
  {
    var gain := plan.installment - plan.charge(principal);
    CeilDivCovers(principal, gain);
    FixedLengthBound(plan, principal, 0, maxPeriods, gain, CeilDiv(principal, gain));
  }

  /** An installment that does not exceed the first interest pays nothing off: every allowed period is filled and the
      balance never moves. */
  lemma {:induction false} InstallmentWithinInterest(plan: Plan, principal: int, k: nat, maxPeriods: nat)
    requires 0 < principal && plan.installment <= plan.charge(principal) && k <= maxPeriods
    ensures var lines := FixedLines(plan, principal, k, maxPeriods);
      |lines| == maxPeriods - k && SumPrincipal(lines) == 0 && FinalBalance(lines, principal) == principal
    decreases maxPeriods - k
  {
    if k < maxPeriods {
      InstallmentWithinInterest(plan, principal, k + 1, maxPeriods);
    }
  }

  /** A positive balance is paid off under some cap exactly when the installment exceeds the first interest. */
  lemma PaysOffExactlyWhen(plan: Plan, principal: int)
    requires Fair(plan.charge)
    requires 0 < principal
    ensures (exists cap: nat :: FinalBalance(FixedLines(plan, principal, 0, cap), principal) == 0)
       <==> plan.installment > plan.charge(principal)
  {
    if plan.installment > plan.charge(principal) {
      var cap := CeilDiv(principal, plan.installment - plan.charge(principal));
      CeilDivCovers(principal, plan.installment - plan.charge(principal));
      InstallmentAboveInterest(plan, principal, cap);
      assert FinalBalance(FixedLines(plan, principal, 0, cap), principal) == 0;
    } else {
      forall cap: nat ensures FinalBalance(FixedLines(plan, principal, 0, cap), principal) != 0 {
        InstallmentWithinInterest(plan, principal, 0, cap);
      }
    }
  }

  // ----- schedules typed by hand -----

  datatype ManualLine = ManualLine(dueOn: int, total: int)

  function SumTotals(lines: seq<ManualLine>): int {
    if lines == [] then 0 else SumTotals(lines[..|lines| - 1]) + lines[|lines| - 1].total
  }

  /** Every typed total is pure principal, and the balance is what the totals so far leave: it ends at 0 exactly when
      the totals add up to the principal. */
  method BuildManualSchedule(lines: seq<ManualLine>, principal: int, startSequence: int := 1)
    returns (schedule: seq<Line>)
    ensures |schedule| == |lines|
    ensures forall k :: 0 <= k < |lines| ==>
      schedule[k] == Line(startSequence + k, lines[k].dueOn, lines[k].total, lines[k].total, 0,
        principal - SumTotals(lines[..k + 1]))
    ensures FinalBalance(schedule, principal) == 0 <==> SumTotals(lines) == principal
    ensures (forall k :: 0 <= k < |lines| ==> 0 <= lines[k].total) ==> Chargeable(schedule, startSequence)
  {
    schedule := [];
    var balance := principal;
    for k := 0 to |lines|
      invariant balance == principal - SumTotals(lines[..k])
      invariant |schedule| == k
      invariant forall j :: 0 <= j < k ==>
        schedule[j] == Line(startSequence + j, lines[j].dueOn, lines[j].total, lines[j].total, 0,
          principal - SumTotals(lines[..j + 1]))
    {
      balance := balance - lines[k].total;
      assert lines[..k + 1][..k] == lines[..k];
      schedule := schedule + [Line(startSequence + k, lines[k].dueOn, lines[k].total, lines[k].total, 0, balance)];
    }
    assert lines[..|lines|] == lines;
  }
}
