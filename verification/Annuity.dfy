/** Schedules for a fixed number of periods, and the exact annuity they round. */
module Annuity {
  import opened Calendar
  import opened Rounding
  import opened ScheduleDates
  import opened Amortization
  import opened Wrappers

  datatype RateType = FixedRate | VariableRate | ZeroRate

  function Pow(x: real, n: nat): (r: real)
    ensures x >= 1.0 ==> r >= 1.0
    ensures x > 1.0 && n > 0 ==> r > 1.0
  {
    if n == 0 then 1.0 else
      var rest := Pow(x, n - 1);
      assert x >= 1.0 ==> x * rest >= 1.0 * rest;
      x * rest
  }

  lemma InverseBelowOne(x: real)
    requires x > 1.0
    ensures 0.0 < 1.0 / x < 1.0
  {
    assert 1.0 / x * x == 1.0;
  }

  /** `1 - (1 + i) ** -n` */
  function Denominator(i: real, n: nat): (d: real)
    requires 0.0 < i && 0 < n
    ensures 0.0 < d < 1.0
  {
    InverseBelowOne(Pow(1.0 + i, n));
    1.0 - 1.0 / Pow(1.0 + i, n)
  }

  /** The exact payment that pays a principal off in `n` periods. */
  function Payment(principal: int, i: real, n: nat): real
    requires 0 < n
  {
    if i > 0.0 then principal as real * i / Denominator(i, n) else principal as real / n as real
  }

  function CountPrincipal(plan: Plan, balance: int, k: nat, n: nat): int {
    var principal := if k == n - 1 then balance else plan.installment - plan.charge(balance);
    if principal > balance then balance else principal
  }

  function CountLines(plan: Plan, balance: int, k: nat, n: nat): seq<Line>
    decreases n - k
  {
    if k >= n then []
    else
      var principal := CountPrincipal(plan, balance, k, n);
      [LineAt(plan, k, balance, principal)] + CountLines(plan, balance - principal, k + 1, n)
  }

  function AnnuityPlan(principal: int, i: real, n: nat, dueOn: nat -> int, startSequence: int): Plan
    requires 0 < n
  {
    Plan(Charge(i), BankersRound(Payment(principal, i, n)), dueOn, startSequence)
  }

  function CountSchedule(principal: int, i: real, n: int, dueOn: nat -> int, startSequence: int): seq<Line> {
    if n <= 0 || principal <= 0 then []
    else CountLines(AnnuityPlan(principal, i, n, dueOn, startSequence), principal, 0, n)
  }

  lemma CountStep(plan: Plan, principal: int, lines: seq<Line>, balance: int, k: nat, n: nat, line: Line)
    requires k < n && line == LineAt(plan, k, balance, CountPrincipal(plan, balance, k, n))
    requires CountLines(plan, principal, 0, n) == lines + CountLines(plan, balance, k, n)
    ensures CountLines(plan, principal, 0, n) == lines + [line] + CountLines(plan, line.balanceAfter, k + 1, n)
  {
  }

  /** The loop over the periods, once the installment is known. */
  method PayInInstallments(principal: int, i: real, installment: int, n: nat, dueOn: nat -> int, startSequence: int)
    returns (lines: seq<Line>)
    ensures lines == CountLines(Plan(Charge(i), installment, dueOn, startSequence), principal, 0, n)
  {
    ghost var plan := Plan(Charge(i), installment, dueOn, startSequence);
    lines := [];
    var balance := principal;
    for k := 0 to n
      invariant CountLines(plan, principal, 0, n) == lines + CountLines(plan, balance, k, n)
    {
      var isLast := k == n - 1;
      var interest := Interest(balance, i);
      var principalK := if isLast then balance else installment - interest;
      if principalK > balance {
        principalK := balance;
      }
      var balanceAfter := balance - principalK;
      var line := Line(startSequence + k, dueOn(k), principalK + interest, principalK, interest, balanceAfter);
      CountStep(plan, principal, lines, balance, k, n, line);
      lines := lines + [line];
      balance := balanceAfter;
    }
  }

  method GenerateForCount(principal: int, i: real, n: int, dueOn: nat -> int, startSequence: int)
    returns (lines: seq<Line>)
    ensures lines == CountSchedule(principal, i, n, dueOn, startSequence)
  {
    if n <= 0 || principal <= 0 {
      return [];
    }
    lines := PayInInstallments(principal, i, BankersRound(Payment(principal, i, n)), n, dueOn, startSequence);
  }

  // ----- the payment covers the interest -----

  lemma DivideByFraction(x: real, d: real)
    requires 0.0 <= x && 0.0 < d <= 1.0
    ensures x <= x / d
  {
    var q := x / d;
    assert q * d == x;
    assert q < 0.0 ==> q * d < 0.0;
    assert q * (1.0 - d) >= 0.0;
  }

  lemma PaymentCoversInterest(principal: int, i: real, n: nat)
    requires 0 < n && 0 < principal
    ensures 0 <= Interest(principal, i) <= BankersRound(Payment(principal, i, n))
  {
    InterestNonNegative(principal, i);
    if i > 0.0 {
      var first := principal as real * i;
      MulMonotone(0.0, principal as real, i);
      DivideByFraction(first, Denominator(i, n));
      RoundMonotone(first, Payment(principal, i, n));
    } else {
      RoundNonNegative(Payment(principal, i, n));
    }
  }

  // ----- what the schedule guarantees -----

  /** No part is negative, the balance never rises, and every line but the last charges the installment unless it
      already pays everything off. */
  ghost predicate PaysDown(plan: Plan, lines: seq<Line>) {
    lines == [] ||
    (0 <= lines[0].principal && 0 <= lines[0].interest && 0 <= lines[0].balanceAfter
     && (|lines| > 1 ==>
           lines[1].balanceAfter <= lines[0].balanceAfter
           && (lines[0].total == plan.installment || lines[0].balanceAfter == 0))
     && PaysDown(plan, lines[1..]))
  }

  lemma CountPrincipalRange(plan: Plan, principal: int, balance: int, k: nat, n: nat)
    requires Fair(plan.charge)
    requires 0 <= balance <= principal && plan.charge(principal) <= plan.installment && k < n
    ensures 0 <= CountPrincipal(plan, balance, k, n) <= balance
  {
    assert plan.charge(balance) <= plan.charge(principal);
  }

  lemma CountLineCharges(plan: Plan, principal: int, balance: int, k: nat, n: nat)
    requires Fair(plan.charge)
    requires 0 <= balance <= principal && plan.charge(principal) <= plan.installment && k < n
    ensures var line := LineAt(plan, k, balance, CountPrincipal(plan, balance, k, n));
      0 <= line.principal && 0 <= line.interest && 0 <= line.balanceAfter <= balance
      && (k < n - 1 ==> line.total == plan.installment || line.balanceAfter == 0)
      && (k == n - 1 ==> line.balanceAfter == 0)
  {
    CountPrincipalRange(plan, principal, balance, k, n);
    assert 0 <= plan.charge(balance);
  }

  lemma {:induction false} CountLinesRun(plan: Plan, balance: int, k: nat, n: nat)
    requires k < n
    ensures var lines := CountLines(plan, balance, k, n);
      |lines| == n - k && Runs(lines, balance) && lines[0] == LineAt(plan, k, balance, CountPrincipal(plan, balance, k, n))
    decreases n - k
  {
    var next := balance - CountPrincipal(plan, balance, k, n);
    if k < n - 1 {
      CountLinesRun(plan, next, k + 1, n);
    } else {
      assert CountLines(plan, next, n, n) == [];
    }
  }

  lemma {:induction false} CountLinesPayDown(plan: Plan, principal: int, balance: int, k: nat, n: nat)
    requires Fair(plan.charge)
    requires 0 <= balance <= principal && plan.charge(principal) <= plan.installment && k < n
    ensures PaysDown(plan, CountLines(plan, balance, k, n))
    decreases n - k
  {
    CountLineCharges(plan, principal, balance, k, n);
    var next := balance - CountPrincipal(plan, balance, k, n);
    if k < n - 1 {
      CountLinesRun(plan, next, k + 1, n);
      CountLineCharges(plan, principal, next, k + 1, n);
      CountLinesPayDown(plan, principal, next, k + 1, n);
    } else {
      assert CountLines(plan, next, n, n) == [];
    }
  }

  lemma {:induction false} CountLinesEndAtZero(plan: Plan, principal: int, balance: int, k: nat, n: nat)
    requires Fair(plan.charge)
    requires 0 <= balance <= principal && plan.charge(principal) <= plan.installment && k < n
    ensures FinalBalance(CountLines(plan, balance, k, n), balance) == 0
    decreases n - k
  {
    CountLineCharges(plan, principal, balance, k, n);
    var next := balance - CountPrincipal(plan, balance, k, n);
    if k < n - 1 {
      CountLinesRun(plan, next, k + 1, n);
      CountLinesEndAtZero(plan, principal, next, k + 1, n);
    } else {
      assert CountLines(plan, next, n, n) == [];
    }
  }

  lemma {:induction false} CountLinesDated(plan: Plan, balance: int, k: nat, n: nat)
    ensures Dated(plan, CountLines(plan, balance, k, n), k)
    decreases n - k
  {
    if k < n {
      var principal := CountPrincipal(plan, balance, k, n);
      CountLinesDated(plan, balance - principal, k + 1, n);
      DatedCons(plan, LineAt(plan, k, balance, principal), CountLines(plan, balance - principal, k + 1, n), k);
    }
  }

  ghost predicate Sound(plan: Plan, principal: int, n: nat, lines: seq<Line>) {
    |lines| == n && Runs(lines, principal) && PaysDown(plan, lines) && Dated(plan, lines, 0)
    && FinalBalance(lines, principal) == 0 && SumPrincipal(lines) == principal
  }

  lemma CountLinesSound(plan: Plan, principal: int, n: nat)
    requires Fair(plan.charge)
    requires 0 < principal && 0 < n && plan.charge(principal) <= plan.installment
    ensures Sound(plan, principal, n, CountLines(plan, principal, 0, n))
  {
    var lines := CountLines(plan, principal, 0, n);
    CountLinesRun(plan, principal, 0, n);
    CountLinesPayDown(plan, principal, principal, 0, n);
    CountLinesEndAtZero(plan, principal, principal, 0, n);
    CountLinesDated(plan, principal, 0, n);
    PrincipalPaidOff(lines, principal);
  }

  /** The schedule has `n` lines, never a negative part, a balance that only falls and ends at 0, and principal parts
      that add up to the principal; its due dates strictly increase if and only if they do not cross into the year 100. */
  lemma ScheduleIsSound(principal: int, i: real, n: nat, frequency: Frequency, startedOn: int, startSequence: int)
    requires 0 < principal && 0 < n
    ensures var lines := CountSchedule(principal, i, n, DueDates(startedOn, frequency), startSequence);
      Sound(AnnuityPlan(principal, i, n, DueDates(startedOn, frequency), startSequence), principal, n, lines)
      && (DueInOrder(lines) <==> !CrossesYear100(startedOn, frequency, n))
  {
    var plan := AnnuityPlan(principal, i, n, DueDates(startedOn, frequency), startSequence);
    ChargeIsFair(i);
    PaymentCoversInterest(principal, i, n);
    CountLinesSound(plan, principal, n);
    DatedInOrder(plan, CountLines(plan, principal, 0, n), startedOn, frequency);
  }

  lemma {:induction false} PaysDownNonNegative(plan: Plan, lines: seq<Line>)
    requires PaysDown(plan, lines)
    ensures NonNegativeParts(lines)
  {
    if lines != [] {
      PaysDownNonNegative(plan, lines[1..]);
    }
  }

  lemma ScheduleIsChargeable(principal: int, i: real, n: nat, frequency: Frequency, startedOn: int, startSequence: int)
    ensures Chargeable(CountSchedule(principal, i, n, DueDates(startedOn, frequency), startSequence), startSequence)
  {
    if 0 < principal && 0 < n {
      var plan := AnnuityPlan(principal, i, n, DueDates(startedOn, frequency), startSequence);
      ScheduleIsSound(principal, i, n, frequency, startedOn, startSequence);
      var lines := CountSchedule(principal, i, n, DueDates(startedOn, frequency), startSequence);
      PaysDownNonNegative(plan, lines);
      RunIsChargeable(plan, lines, principal);
    }
  }

  function PeriodicRate(annualRatePct: Option<real>, rateType: RateType, frequency: Frequency): real {
    if rateType == ZeroRate then 0.0
    else (if annualRatePct.Some? then annualRatePct.value else 0.0) / 100.0 / PeriodsPerYear(frequency) as real
  }

  predicate HasTerm(termDays: Option<int>) {
    termDays.Some? && termDays.value != 0
  }

  /** Without a term or a principal there is no schedule; otherwise it is a sound one, of at least one line. */
  method GenerateAmortizationSchedule(principal: int, annualRatePct: Option<real>, rateType: RateType,
      termDays: Option<int>, frequency: Frequency, startedOn: int, startSequence: int := 1)
    returns (lines: seq<Line>)
    ensures lines == [] <==> !HasTerm(termDays) || principal <= 0
    ensures HasTerm(termDays) && principal > 0 ==>
      var n, i := InstallmentCount(termDays.value, frequency), PeriodicRate(annualRatePct, rateType, frequency);
      && lines == CountSchedule(principal, i, n, DueDates(startedOn, frequency), startSequence)
      && Sound(AnnuityPlan(principal, i, n, DueDates(startedOn, frequency), startSequence), principal, n, lines)
      && (DueInOrder(lines) <==> !CrossesYear100(startedOn, frequency, n))
  {
    if !HasTerm(termDays) || principal <= 0 {
      return [];
    }
    var n := InstallmentCount(termDays.value, frequency);
    var i := PeriodicRate(annualRatePct, rateType, frequency);
    lines := GenerateForCount(principal, i, n, DueDates(startedOn, frequency), startSequence);
    ScheduleIsSound(principal, i, n, frequency, startedOn, startSequence);
  }
}
