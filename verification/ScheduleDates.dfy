/** Due dates of debt installments. */
module ScheduleDates {
  import opened Calendar

  datatype Frequency = Daily | FrequencyWeekly | Biweekly | FrequencyMonthly | FrequencyQuarterly | Semiannual | FrequencyYearly

  /** Months per period, or 0 for the frequencies counted in days. */
  function MonthsPerPeriod(frequency: Frequency): nat {
    match frequency
    case FrequencyMonthly => 1
    case FrequencyQuarterly => 3
    case Semiannual => 6
    case FrequencyYearly => 12
    case _ => 0
  }

  function DaysPerPeriod(frequency: Frequency): nat {
    match frequency
    case Daily => 1
    case FrequencyWeekly => 7
    case _ => 14
  }

  function PeriodsPerYear(frequency: Frequency): nat {
    match frequency
    case Daily => 365
    case FrequencyWeekly => 52
    case Biweekly => 26
    case FrequencyMonthly => 12
    case FrequencyQuarterly => 4
    case Semiannual => 2
    case FrequencyYearly => 1
  }

  /** The number of payments in a term: rounded to the nearest, halves up, and at least one. */
  function InstallmentCount(termDays: int, frequency: Frequency): (n: nat)
    ensures n >= 1
  {
    var rounded := (termDays as real / 365.0 * PeriodsPerYear(frequency) as real + 0.5).Floor;
    if rounded < 1 then 1 else rounded
  }

  /** The same day of the month some months later, clamped to the length of that month. */
  function AddMonths(from: int, months: int): int {
    var totalMonths := Month(from) + months;
    var year := FullYear(from) + totalMonths / 12;
    var month := totalMonths % 12;
    var daysInMonth := DaysInMonthUTC(year, month);
    DateUTC(year, month, if DayOfMonth(from) <= daysInMonth then DayOfMonth(from) else daysInMonth)
  }

  function AddPeriodUTC(from: int, frequency: Frequency, count: int): int {
    if MonthsPerPeriod(frequency) > 0 then AddMonths(from, MonthsPerPeriod(frequency) * count)
    else from + DaysPerPeriod(frequency) * count * DAY_MS
  }

  // ----- due dates in order -----

  lemma TotalMonths(m: int, months: int)
    ensures m / 12 + (m % 12 + months) / 12 == (m + months) / 12
    ensures (m % 12 + months) % 12 == (m + months) % 12
    ensures 12 * ((m + months) / 12) + (m + months) % 12 == m + months
  {
  }

  /** Where month `m` lands once its year has been read: in place, or 1900 years on. */
  function LandingMonth(m: int): int {
    if PlainMonth(m) then m else m + 22800
  }

  /** A day of a month, clamped to the length of that month. */
  function ClampedDay(year: int, month: int, day: int): int {
    DateUTC(year, month, if day <= DaysInMonthUTC(year, month) then day else DaysInMonthUTC(year, month))
  }

  lemma AddMonthsByIndex(from: int, months: int)
    ensures var to := MonthIndex(from) + months;
      AddMonths(from, months) == ClampedDay(to / 12, to % 12, DayOfMonth(from))
  {
    TotalMonths(MonthIndex(from), months);
  }

  lemma ReadMonth(to: int)
    ensures 12 * ReadYear(to / 12) + to % 12 == LandingMonth(to)
  {
  }

  lemma ClampedDayInMonth(year: int, month: int, day: int)
    requires 1 <= day
    ensures var m := 12 * ReadYear(year) + month;
      MonthStart(m) * DAY_MS <= ClampedDay(year, month, day) < MonthStart(m + 1) * DAY_MS
  {
    MonthLength(12 * ReadYear(year) + month);
  }

  lemma FirstDayOfMonth(from: int)
    ensures 1 <= DayOfMonth(from)
  {
  }

  /** An instant of the month that month `a` is read as. */
  ghost predicate Lands(t: int, a: int) {
    MonthStart(LandingMonth(a)) * DAY_MS <= t < MonthStart(LandingMonth(a) + 1) * DAY_MS
  }

  lemma AddMonthsLands(from: int, months: int)
    ensures Lands(AddMonths(from, months), MonthIndex(from) + months)
  {
    AddMonthsByIndex(from, months);
    FirstDayOfMonth(from);
    var to := MonthIndex(from) + months;
    ReadMonth(to);
    ClampedDayInMonth(to / 12, to % 12, DayOfMonth(from));
  }

  /** The due date of the next period is later, exactly unless the step leaves the years 0 to 99 for year 100, where
      `Date.UTC` stops reading the year as 19xx. */
  lemma DueDatesAdvance(from: int, frequency: Frequency, count: int)
    ensures AddPeriodUTC(from, frequency, count) < AddPeriodUTC(from, frequency, count + 1)
       <==> !(MonthsPerPeriod(frequency) > 0
              && 0 <= MonthIndex(from) + MonthsPerPeriod(frequency) * count < 1200
                   <= MonthIndex(from) + MonthsPerPeriod(frequency) * (count + 1))
  {
    var step := MonthsPerPeriod(frequency);
    if step > 0 {
      MonthlyDueDatesAdvance(from, step, count);
    }
  }

  lemma MonthlyDueDatesAdvance(from: int, step: int, count: int)
    requires 1 <= step <= 12
    ensures var a := MonthIndex(from) + step * count;
      AddMonths(from, step * count) < AddMonths(from, step * (count + 1)) <==> !(0 <= a < 1200 <= a + step)
  {
    assert step * (count + 1) == step * count + step;
    LaterMonthAdvances(from, MonthIndex(from), step * count, step * (count + 1));
  }

  /** Instants of an earlier month are earlier. */
  lemma EarlierMonth(a: int, s: int, b: int, t: int)
    requires a < b
    requires s < MonthStart(a + 1) * DAY_MS && MonthStart(b) * DAY_MS <= t
    ensures s < t
  {
    MonthsApart(a + 1, b);
  }

  lemma LaterMonthAdvances(from: int, m: int, months: int, later: int)
    requires 1 <= later - months <= 12 && MonthIndex(from) == m
    ensures AddMonths(from, months) < AddMonths(from, later) <==> !(0 <= m + months < 1200 <= m + later)
  {
    AddMonthsLands(from, months);
    AddMonthsLands(from, later);
    InLandingOrder(m + months, m + later, AddMonths(from, months), AddMonths(from, later));
  }

  lemma InLandingOrder(a: int, b: int, s: int, t: int)
    requires 1 <= b - a <= 12
    requires Lands(s, a) && Lands(t, b)
    ensures s < t <==> !(0 <= a < 1200 <= b)
  {
    LandingOrder(a, b - a);
    if LandingMonth(a) < LandingMonth(b) {
      EarlierMonth(LandingMonth(a), s, LandingMonth(b), t);
    } else {
      EarlierMonth(LandingMonth(b), t, LandingMonth(a), s);
    }
  }

  lemma LandingOrder(a: int, step: int)
    requires 1 <= step <= 12
    ensures LandingMonth(a) < LandingMonth(a + step) <==> !(0 <= a < 1200 <= a + step)
    ensures LandingMonth(a) != LandingMonth(a + step)
  {
  }

  lemma YearHundred(m: int)
    ensures m / 12 >= 100 <==> m >= 1200
  {
  }

  lemma FromYearHundred(from: int, frequency: Frequency, count: nat)
    requires FullYear(from) >= 100
    ensures AddPeriodUTC(from, frequency, count) < AddPeriodUTC(from, frequency, count + 1)
  {
    YearHundred(MonthIndex(from));
    assert MonthsPerPeriod(frequency) * count >= 0;
    DueDatesAdvance(from, frequency, count);
  }

  /** From year 100 on, due dates strictly increase. */
  lemma {:induction false} DueDatesIncrease(from: int, frequency: Frequency, i: nat, j: nat)
    requires FullYear(from) >= 100 && i < j
    ensures AddPeriodUTC(from, frequency, i) < AddPeriodUTC(from, frequency, j)
    decreases j
  {
    FromYearHundred(from, frequency, j - 1);
    if i < j - 1 {
      DueDatesIncrease(from, frequency, i, j - 1);
    }
  }

  // ----- a whole schedule of due dates -----

  /** The month a due date is meant to lie in. */
  function DueMonth(from: int, frequency: Frequency, count: int): int {
    MonthIndex(from) + MonthsPerPeriod(frequency) * count
  }

  /** Of the first `n` due dates the first is meant to lie before the year 100 and the last is not. */
  predicate CrossesYear100(from: int, frequency: Frequency, n: nat) {
    n > 0 && MonthsPerPeriod(frequency) > 0 && DueMonth(from, frequency, 1) < 1200 <= DueMonth(from, frequency, n)
  }

  lemma DueMonthsInOrder(from: int, frequency: Frequency, i: int, j: int)
    requires i <= j
    ensures DueMonth(from, frequency, i) <= DueMonth(from, frequency, j)
    ensures DueMonth(from, frequency, i + 1) == DueMonth(from, frequency, i) + MonthsPerPeriod(frequency)
  {
    ProductInOrder(MonthsPerPeriod(frequency), i, j);
  }

  lemma ProductInOrder(step: nat, i: int, j: int)
    requires i <= j
    ensures step * i <= step * j && step * (i + 1) == step * i + step
  {
    assert step * (j - i) >= 0;
  }

  /** One due date and the next, by the months they are meant to lie in. */
  lemma AdvancesUnlessCrossing(from: int, frequency: Frequency, count: int)
    ensures AddPeriodUTC(from, frequency, count) < AddPeriodUTC(from, frequency, count + 1)
       <==> !(MonthsPerPeriod(frequency) > 0
              && DueMonth(from, frequency, count) < 1200 <= DueMonth(from, frequency, count + 1))
  {
    DueDatesAdvance(from, frequency, count);
    DueMonthsInOrder(from, frequency, count, count);
  }

  /** Up to the `n`-th the months never fall, and the dates rise from one to the next unless the month enters the year 100
      there. */
  ghost predicate TurnsInYear100(due: int -> int, month: int -> int, n: nat) {
    n <= 1
    || (TurnsInYear100(due, month, n - 1) && month(n - 1) <= month(n)
        && (due(n - 1) < due(n) <==> !(month(n - 1) < 1200 <= month(n))))
  }

  lemma {:induction false} MonthsRise(due: int -> int, month: int -> int, n: nat, i: nat)
    requires TurnsInYear100(due, month, n) && 1 <= i <= n
    ensures month(i) <= month(n)
    decreases n
  {
    if i < n {
      MonthsRise(due, month, n - 1, i);
    }
  }

  lemma {:induction false} RiseBeforeTurn(due: int -> int, month: int -> int, n: nat, i: nat, j: nat)
    requires TurnsInYear100(due, month, n) && 1 <= i < j <= n && !(month(1) < 1200 <= month(n))
    ensures due(i) < due(j)
    decreases n
  {
    MonthsRise(due, month, n - 1, 1);
    if j < n || i < n - 1 {
      RiseBeforeTurn(due, month, n - 1, i, if j < n then j else n - 1);
    }
  }

  lemma {:induction false} TurnAt(due: int -> int, month: int -> int, n: nat) returns (k: nat)
    requires TurnsInYear100(due, month, n) && 1 <= n && month(1) < 1200 <= month(n)
    ensures 1 <= k < n && due(k + 1) <= due(k)
    decreases n
  {
    k := n - 1;
    if month(k) >= 1200 {
      k := TurnAt(due, month, k);
    }
  }

  function DueOn(from: int, frequency: Frequency): int -> int {
    (k: int) => AddPeriodUTC(from, frequency, k)
  }

  function DueIn(from: int, frequency: Frequency): int -> int {
    (k: int) => DueMonth(from, frequency, k)
  }

  lemma NextTurns(from: int, frequency: Frequency, k: int)
    ensures var due, month := DueOn(from, frequency), DueIn(from, frequency);
      month(k) <= month(k + 1) && (due(k) < due(k + 1) <==> !(month(k) < 1200 <= month(k + 1)))
  {
    DueMonthsInOrder(from, frequency, k, k + 1);
    AdvancesUnlessCrossing(from, frequency, k);
  }

  lemma {:induction false} TurnsByStep(due: int -> int, month: int -> int, n: nat)
    requires forall k: nat :: 1 <= k < n ==>
      month(k) <= month(k + 1) && (due(k) < due(k + 1) <==> !(month(k) < 1200 <= month(k + 1)))
    ensures TurnsInYear100(due, month, n)
  {
    if n > 1 {
      TurnsByStep(due, month, n - 1);
      var k := n - 1;
      assert month(k) <= month(k + 1);
    }
  }

  lemma DueDatesTurn(from: int, frequency: Frequency, n: nat)
    ensures TurnsInYear100(DueOn(from, frequency), DueIn(from, frequency), n)
  {
    forall k: nat | 1 <= k < n
      ensures var due, month := DueOn(from, frequency), DueIn(from, frequency);
        month(k) <= month(k + 1) && (due(k) < due(k + 1) <==> !(month(k) < 1200 <= month(k + 1)))
    {
      NextTurns(from, frequency, k);
    }
    TurnsByStep(DueOn(from, frequency), DueIn(from, frequency), n);
  }

  lemma WhereItCrosses(from: int, frequency: Frequency, n: nat) returns (k: nat)
    requires CrossesYear100(from, frequency, n)
    ensures 1 <= k < n && DueOn(from, frequency)(k + 1) <= DueOn(from, frequency)(k)
  {
    DueDatesTurn(from, frequency, n);
    k := TurnAt(DueOn(from, frequency), DueIn(from, frequency), n);
  }

  ghost predicate Rises(due: int -> int, n: nat) {
    forall i: nat, j: nat :: 1 <= i < j <= n ==> due(i) < due(j)
  }

  lemma RisesUnlessTurn(due: int -> int, month: int -> int, n: nat)
    requires TurnsInYear100(due, month, n) && !(1 <= n && month(1) < 1200 <= month(n))
    ensures Rises(due, n)
  {
    forall i: nat, j: nat | 1 <= i < j <= n
      ensures due(i) < due(j)
    {
      RiseBeforeTurn(due, month, n, i, j);
    }
  }

  lemma CrossingIsTurn(from: int, frequency: Frequency, n: nat)
    requires 1 <= n && DueIn(from, frequency)(1) < 1200 <= DueIn(from, frequency)(n)
    ensures CrossesYear100(from, frequency, n)
  {
  }

  /** The first `n` due dates strictly increase if and only if they do not cross into the year 100. */
  lemma RisesIff(from: int, frequency: Frequency, n: nat)
    ensures Rises(DueOn(from, frequency), n) <==> !CrossesYear100(from, frequency, n)
  {
    if CrossesYear100(from, frequency, n) {
      var k := WhereItCrosses(from, frequency, n);
    } else {
      DueDatesTurn(from, frequency, n);
      if 1 <= n && DueIn(from, frequency)(1) < 1200 <= DueIn(from, frequency)(n) {
        CrossingIsTurn(from, frequency, n);
      }
      RisesUnlessTurn(DueOn(from, frequency), DueIn(from, frequency), n);
    }
  }

  lemma ClampedFirst(year: int, month: int)
    ensures ClampedDay(year, month, 1) == MonthStart(12 * ReadYear(year) + month) * DAY_MS
  {
  }

  /** The first of a month, some months on. */
  lemma FirstSomeMonthsOn(from: int, months: int, to: int)
    requires DayOfMonth(from) == 1 && to == MonthIndex(from) + months
    ensures AddMonths(from, months) == MonthStart(LandingMonth(to)) * DAY_MS
  {
    AddMonthsByIndex(from, months);
    ClampedFirst(to / 12, to % 12);
    ReadMonth(to);
  }

  lemma EarlierInstant(a: int, b: int)
    requires a < b
    ensures a * DAY_MS < b * DAY_MS
  {
  }

  lemma LaterByMonths(a: int, b: int)
    requires a < b
    ensures MonthStart(a) * DAY_MS < MonthStart(b) * DAY_MS
  {
    MonthsApart(a, b);
    EarlierInstant(MonthStart(a), MonthStart(b));
  }

  /** When only the month of the start is read as 1900 years later, its next due date is earlier than its own. */
  lemma FirstDueDatesTurn(from: int, m: int)
    requires MonthIndex(from) == m && DayOfMonth(from) == 1 && !PlainMonth(m) && PlainMonth(m + 1)
    ensures AddMonths(from, 0) == MonthStart(m + 22800) * DAY_MS
    ensures AddMonths(from, 1) == MonthStart(m + 1) * DAY_MS
    ensures AddMonths(from, 1) < AddMonths(from, 0)
  {
    FirstSomeMonthsOn(from, 0, m);
    FirstSomeMonthsOn(from, 1, m + 1);
    LaterByMonths(m + 1, m + 22800);
  }

  lemma InMonths(from: int, count: int)
    ensures AddPeriodUTC(from, FrequencyMonthly, count) == AddMonths(from, count)
  {
  }

  lemma FirstDayTurns(from: int, m: int)
    requires from == MonthStart(m) * DAY_MS && !PlainMonth(m) && PlainMonth(m + 1)
    ensures MonthIndex(from) == m && DayOfMonth(from) == 1
    ensures AddPeriodUTC(from, FrequencyMonthly, 1) < AddPeriodUTC(from, FrequencyMonthly, 0)
  {
    MonthFirst(from, m);
    FirstDueDatesTurn(from, m);
    InMonths(from, 0);
    InMonths(from, 1);
  }

  /** From the first of December of the year 99 the due date of the next month, in January of the year 100, lies before that of
      the current one, said to be in December 1999. */
  lemma DecemberOfYear99(from: int)
    requires from == MonthStart(12 * 99 + 11) * DAY_MS
    ensures MonthIndex(from) == 12 * 99 + 11 && DayOfMonth(from) == 1
    ensures AddPeriodUTC(from, FrequencyMonthly, 1) < AddPeriodUTC(from, FrequencyMonthly, 0)
  {
    FirstDayTurns(from, 12 * 99 + 11);
  }
}
