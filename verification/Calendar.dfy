/**
 The UTC calendar the date code relies on: instants are milliseconds since 1970-01-01, months are counted from year 0
 (`12 * year + month`, month 0 is January), and `DateUTC` reads the years 0 to 99 as 1900 to 1999, as `Date.UTC` does.
 */
module Calendar {
  const DAY_MS := 24 * 60 * 60 * 1000

  predicate IsLeap(year: int) {
    year % 4 == 0 && (year % 100 != 0 || year % 400 == 0)
  }

  function DaysInMonth(m: int): (days: int)
    ensures 28 <= days <= 31
  {
    var month := m % 12;
    if month == 1 then (if IsLeap(m / 12) then 29 else 28)
    else if month == 3 || month == 5 || month == 8 || month == 10 then 30
    else 31
  }

  const EPOCH_MONTH := 12 * 1970

  /** Day number of the first day of a month: every month starts where the one before it ends. */
  function MonthStart(m: int): int
    decreases if m > EPOCH_MONTH then m - EPOCH_MONTH else EPOCH_MONTH - m
  {
    if m == EPOCH_MONTH then 0
    else if m > EPOCH_MONTH then MonthStart(m - 1) + DaysInMonth(m - 1)
    else MonthStart(m + 1) - DaysInMonth(m)
  }

  /** Months follow one another without gap. */
  lemma MonthLength(m: int)
    ensures MonthStart(m + 1) == MonthStart(m) + DaysInMonth(m)
  {
  }

  lemma {:induction false} MonthsApart(m: int, n: int)
    requires m <= n
    ensures MonthStart(m) + 28 * (n - m) <= MonthStart(n) <= MonthStart(m) + 31 * (n - m)
    decreases n - m
  {
    if m < n {
      MonthsApart(m, n - 1);
      MonthLength(n - 1);
    }
  }

  function MonthFrom(m: int, day: int): (r: int)
    requires MonthStart(m) <= day
    ensures MonthStart(r) <= day < MonthStart(r + 1)
    decreases day - MonthStart(m)
  {
    MonthLength(m);
    if day < MonthStart(m + 1) then m else MonthFrom(m + 1, day)
  }

  /** The month a day lies in. */
  function MonthOf(day: int): (m: int)
    ensures MonthStart(m) <= day < MonthStart(m + 1)
  {
    if day >= 0 then MonthFrom(EPOCH_MONTH, day)
    else
      MonthsApart(EPOCH_MONTH + day / 28, EPOCH_MONTH);
      MonthFrom(EPOCH_MONTH + day / 28, day)
  }

  lemma MonthOfUnique(day: int, m: int)
    requires MonthStart(m) <= day < MonthStart(m + 1)
    ensures MonthOf(day) == m
  {
    var n := MonthOf(day);
    if n < m {
      MonthsApart(n + 1, m);
    } else if m < n {
      MonthsApart(m + 1, n);
    }
  }

  // ----- the Date functions -----

  function DayOf(t: int): int {
    t / DAY_MS
  }

  function MonthIndex(t: int): int {
    MonthOf(DayOf(t))
  }

  function FullYear(t: int): int {
    MonthIndex(t) / 12
  }

  function Month(t: int): int {
    MonthIndex(t) % 12
  }

  function DayOfMonth(t: int): int {
    DayOf(t) - MonthStart(MonthIndex(t)) + 1
  }

  /** 0 is Sunday; 1970-01-01 was a Thursday. */
  function Weekday(t: int): int {
    (DayOf(t) + 4) % 7
  }

  /** Years 0 to 99 mean 1900 to 1999. */
  function ReadYear(year: int): int {
    if 0 <= year <= 99 then 1900 + year else year
  }

  function DateUTC(year: int, month: int, date: int): int {
    (MonthStart(12 * ReadYear(year) + month) + date - 1) * DAY_MS
  }

  predicate PlainYear(year: int) {
    !(0 <= year <= 99)
  }

  /** The months of the plain years. */
  predicate PlainMonth(m: int) {
    !(0 <= m < 1200)
  }

  lemma DayOfInstant(day: int)
    ensures DayOf(day * DAY_MS) == day
  {
  }

  lemma InstantOfDay(t: int)
    ensures DayOf(t) * DAY_MS <= t < (DayOf(t) + 1) * DAY_MS
  {
  }

  /** A date built from a plain year, a month and a day of that month has that year, month and day. */
  lemma DateRoundTrip(m: int, date: int)
    requires PlainMonth(m) && 1 <= date <= DaysInMonth(m)
    ensures var t := DateUTC(m / 12, m % 12, date);
      && t == (MonthStart(m) + date - 1) * DAY_MS
      && MonthIndex(t) == m && FullYear(t) == m / 12 && Month(t) == m % 12 && DayOfMonth(t) == date
  {
    assert 12 * (m / 12) + m % 12 == m;
    MonthLength(m);
    DayOfInstant(MonthStart(m) + date - 1);
    MonthOfUnique(MonthStart(m) + date - 1, m);
  }

  /** The length of the month `Date.UTC` reads; `LastDayOfMonthUTC` ties it to the date the code asks for. */
  function DaysInMonthUTC(year: int, month: int): int {
    DaysInMonth(12 * ReadYear(year) + month)
  }

  lemma LastDayOfMonth(m: int)
    ensures MonthOf(MonthStart(m + 1) - 1) == m
  {
    MonthLength(m);
    MonthOfUnique(MonthStart(m + 1) - 1, m);
  }

  lemma DayOfMonthOfDay(day: int)
    ensures DayOfMonth(day * DAY_MS) == day - MonthStart(MonthOf(day)) + 1
  {
    DayOfInstant(day);
  }

  /** `new Date(Date.UTC(year, month + 1, 0)).getUTCDate()` is the length of the month. */
  lemma LastDayOfMonthUTC(year: int, month: int)
    ensures DayOfMonth(DateUTC(year, month + 1, 0)) == DaysInMonthUTC(year, month)
  {
    var m := 12 * ReadYear(year) + month;
    assert DateUTC(year, month + 1, 0) == (MonthStart(m + 1) - 1) * DAY_MS;
    DayOfMonthOfDay(MonthStart(m + 1) - 1);
    LastDayOfMonth(m);
    MonthLength(m);
  }

  lemma MonthFirst(t: int, m: int)
    requires t == MonthStart(m) * DAY_MS
    ensures MonthIndex(t) == m && DayOfMonth(t) == 1
  {
    DayOfInstant(MonthStart(m));
    MonthLength(m);
    MonthOfUnique(MonthStart(m), m);
  }
}
