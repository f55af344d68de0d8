/** How far rounding can move an annuity schedule away from the exact one. */
module AnnuityDrift {
  import opened Rounding
  import opened Amortization
  import opened Annuity

  /** The rate interest is charged at: negative rates charge nothing. */
  function Effective(i: real): (r: real)
    ensures 0.0 <= r
  {
    if i > 0.0 then i else 0.0
  }

  function Due(balance: real, r: real): real {
    balance * r
  }

  // ----- the exact annuity -----

  /** The exact balance after `k` of `n` payments. */
  function Exact(principal: int, i: real, n: nat, k: nat): real
    requires 0 < n && k <= n
  {
    if i > 0.0 then principal as real / (Pow(1.0 + i, n) - 1.0) * (Pow(1.0 + i, n) - Pow(1.0 + i, k))
    else principal as real / n as real * (n - k) as real
  }

  lemma Quotient(c: real, d: real, a: real)
    requires d != 0.0 && a * d == c
    ensures c / d == a
  {
    var q := c / d;
    assert q * d == c;
    assert (q - a) * d == 0.0;
  }

  lemma ScaledDiscount(q: real, i: real, x: real)
    requires x > 1.0
    ensures q * i * x * (1.0 - 1.0 / x) == q * (x - 1.0) * i
  {
    assert 1.0 / x * x == 1.0;
  }

  /** The payment in terms of the growth `x` over the whole term. */
  lemma PaymentByGrowth(principal: int, i: real, n: nat)
    requires 0 < n && 0.0 < i
    ensures var x := Pow(1.0 + i, n); Payment(principal, i, n) == principal as real / (x - 1.0) * i * x
  {
    var x := Pow(1.0 + i, n);
    var q := principal as real / (x - 1.0);
    assert q * (x - 1.0) == principal as real;
    ScaledDiscount(q, i, x);
    Quotient(principal as real * i, Denominator(i, n), q * i * x);
  }

  lemma ExpandStep(q: real, i: real, x: real, y: real)
    ensures q * (x - (1.0 + i) * y) == q * (x - y) + q * (x - y) * i - q * i * x
  {
  }

  /** One exact period: interest on the balance is added, the payment taken off. */
  lemma ExactStep(principal: int, i: real, n: nat, k: nat)
    requires 0 < n && k < n
    ensures Exact(principal, i, n, k + 1)
         == Exact(principal, i, n, k) + Due(Exact(principal, i, n, k), Effective(i)) - Payment(principal, i, n)
  {
    if i > 0.0 {
      var x, y := Pow(1.0 + i, n), Pow(1.0 + i, k);
      PaymentByGrowth(principal, i, n);
      ExpandStep(principal as real / (x - 1.0), i, x, y);
    } else {
      var share := principal as real / n as real;
      assert share * (n - k) as real == share * (n - (k + 1)) as real + share;
    }
  }

  /** The exact payment takes the principal to exactly 0 in exactly `n` periods. */
  lemma ExactEnds(principal: int, i: real, n: nat)
    requires 0 < n
    ensures Exact(principal, i, n, 0) == principal as real && Exact(principal, i, n, n) == 0.0
  {
    if i > 0.0 {
      var d := Pow(1.0 + i, n) - 1.0;
      assert principal as real / d * d == principal as real;
    } else {
      assert principal as real / n as real * n as real == principal as real;
    }
  }

  lemma PowStep(x: real, n: nat)
    requires 1.0 <= x
    ensures Pow(x, n) <= Pow(x, n + 1)
  {
    assert 0.0 <= (x - 1.0) * Pow(x, n);
  }

  lemma {:induction false} PowIncreases(x: real, k: nat, n: nat)
    requires 1.0 <= x && k <= n
    ensures Pow(x, k) <= Pow(x, n)
    decreases n
  {
    if k < n {
      PowIncreases(x, k, n - 1);
      PowStep(x, n - 1);
    }
  }

  lemma NonNegativeQuotient(c: real, d: real)
    requires 0.0 <= c && 0.0 < d
    ensures 0.0 <= c / d
  {
    var q := c / d;
    assert q * d == c;
    assert q < 0.0 ==> q * d < 0.0;
  }

  lemma ExactNonNegative(principal: int, i: real, n: nat, k: nat)
    requires 0 <= principal && 0 < n && k <= n
    ensures 0.0 <= Exact(principal, i, n, k)
  {
    if i > 0.0 {
      PowIncreases(1.0 + i, k, n);
      NonNegativeQuotient(principal as real, Pow(1.0 + i, n) - 1.0);
    } else {
      NonNegativeQuotient(principal as real, n as real);
    }
  }

  // ----- the schedule against the exact annuity -----

  /** A gap with its interest, and one unit more. */
  function NextGap(gap: real, r: real): (g: real)
    ensures 0.0 <= gap && 0.0 <= r ==> 1.0 <= g
  {
    assert 0.0 <= gap && 0.0 <= r ==> 0.0 <= gap * r;
    gap + gap * r + 1.0
  }

  /** `1 + (1 + r) + ... + (1 + r)^(k - 1)`: one minor unit lost per period, carried with interest. */
  function Growth(r: real, k: nat): (g: real)
    requires 0.0 <= r
    ensures 0.0 <= g
  {
    if k == 0 then 0.0 else NextGap(Growth(r, k - 1), r)
  }

  predicate Near(x: int, exact: real, gap: real) {
    -gap <= x as real - exact <= gap
  }

  lemma ScaledGap(b: real, exact: real, gap: real, r: real)
    requires 0.0 <= r && -gap <= b - exact <= gap
    ensures -(gap * r) <= Due(b, r) - Due(exact, r) <= gap * r
  {
    MulMonotone(b - exact, gap, r);
    MulMonotone(-gap, b - exact, r);
  }

  /** Two roundings of at most half a unit each, on top of the earlier gap and its interest. */
  lemma GapAfterPeriod(balance: int, interest: int, installment: int, exact: real, payment: real, gap: real, r: real)
    requires 0.0 <= r && Near(balance, exact, gap)
    requires Near(interest, Due(balance as real, r), 0.5) && Near(installment, payment, 0.5)
    ensures Near(balance + interest - installment, exact + Due(exact, r) - payment, NextGap(gap, r))
  {
    ScaledGap(balance as real, exact, gap, r);
  }

  lemma GapOfLastTotal(balance: int, interest: int, exact: real, payment: real, gap: real, r: real)
    requires 0.0 <= r && Near(balance, exact, gap)
    requires Near(interest, Due(balance as real, r), 0.5) && exact + Due(exact, r) - payment == 0.0
    ensures Near(balance + interest, payment, NextGap(gap, r))
  {
    ScaledGap(balance as real, exact, gap, r);
  }

  lemma InterestNear(balance: int, i: real)
    ensures Near(Interest(balance, i), Due(balance as real, Effective(i)), 0.5)
  {
    RoundedWithinHalf(balance as real * i);
  }

  /** Line after line the balance stays near the exact one, and the last total near the exact payment. */
  ghost predicate Tracks(lines: seq<Line>, principal: int, i: real, n: nat, k: nat)
    requires 0 < n
    decreases |lines|
  {
    lines == [] ||
    (k < n
     && Near(lines[0].balanceAfter, Exact(principal, i, n, k + 1), Growth(Effective(i), k + 1))
     && (k == n - 1 ==> Near(lines[0].total, Payment(principal, i, n), Growth(Effective(i), n)))
     && Tracks(lines[1..], principal, i, n, k + 1))
  }

  lemma LineTracks(principal: int, i: real, n: nat, plan: Plan, balance: int, k: nat)
    requires 0 < principal && k < n && 0 <= balance
    requires plan.charge == Charge(i) && plan.installment == BankersRound(Payment(principal, i, n))
    requires Near(balance, Exact(principal, i, n, k), Growth(Effective(i), k))
    ensures var line := LineAt(plan, k, balance, CountPrincipal(plan, balance, k, n));
      Near(line.balanceAfter, Exact(principal, i, n, k + 1), Growth(Effective(i), k + 1))
      && (k == n - 1 ==> Near(line.total, Payment(principal, i, n), Growth(Effective(i), n)))
  {
    var exact, payment, gap, r := Exact(principal, i, n, k), Payment(principal, i, n), Growth(Effective(i), k), Effective(i);
    ExactStep(principal, i, n, k);
    ExactNonNegative(principal, i, n, k + 1);
    InterestNear(balance, i);
    RoundedWithinHalf(payment);
    GapAfterPeriod(balance, Interest(balance, i), plan.installment, exact, payment, gap, r);
    if k == n - 1 {
      ExactEnds(principal, i, n);
      GapOfLastTotal(balance, Interest(balance, i), exact, payment, gap, r);
    }
  }

  lemma {:induction false} LinesTrack(principal: int, i: real, n: nat, plan: Plan, balance: int, k: nat)
    requires 0 < principal && k <= n && 0 < n && 0 <= balance <= principal
    requires plan.charge == Charge(i) && plan.installment == BankersRound(Payment(principal, i, n))
    requires Near(balance, Exact(principal, i, n, k), Growth(Effective(i), k))
    ensures Tracks(CountLines(plan, balance, k, n), principal, i, n, k)
    decreases n - k
  {
    if k < n {
      LineTracks(principal, i, n, plan, balance, k);
      ChargeIsFair(i);
      PaymentCoversInterest(principal, i, n);
      CountPrincipalRange(plan, principal, balance, k, n);
      LinesTrack(principal, i, n, plan, balance - CountPrincipal(plan, balance, k, n), k + 1);
    }
  }

  lemma {:induction false} TracksEverywhere(lines: seq<Line>, principal: int, i: real, n: nat, k: nat, j: nat)
    requires 0 < n && Tracks(lines, principal, i, n, k) && j < |lines|
    ensures k + j < n && Near(lines[j].balanceAfter, Exact(principal, i, n, k + j + 1), Growth(Effective(i), k + j + 1))
    ensures k + j == n - 1 ==> Near(lines[j].total, Payment(principal, i, n), Growth(Effective(i), n))
    decreases j
  {
    if j > 0 {
      TracksEverywhere(lines[1..], principal, i, n, k + 1, j - 1);
    }
  }

  /** After every line the balance is within `Growth` of the exact balance, and the last total, which absorbs all the
      rounding, is within `Growth` of the exact payment. */
  lemma ScheduleStaysNearAnnuity(principal: int, i: real, n: nat, dueOn: nat -> int, startSequence: int, j: nat)
    requires 0 < principal && j < n
    ensures var lines := CountSchedule(principal, i, n, dueOn, startSequence);
      && j < |lines|
      && Near(lines[j].balanceAfter, Exact(principal, i, n, j + 1), Growth(Effective(i), j + 1))
      && (j == n - 1 ==> Near(lines[j].total, Payment(principal, i, n), Growth(Effective(i), n)))
  {
    var plan := AnnuityPlan(principal, i, n, dueOn, startSequence);
    var lines := CountLines(plan, principal, 0, n);
    ExactEnds(principal, i, n);
    LinesTrack(principal, i, n, plan, principal, 0);
    CountLinesRun(plan, principal, 0, n);
    TracksEverywhere(lines, principal, i, n, 0, j);
  }
}
