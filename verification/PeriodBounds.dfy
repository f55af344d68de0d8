/** The bounds of budget periods, and the regular tiling of time they follow. */
module PeriodBounds {
  import opened Integers
  import opened Calendar

  datatype PeriodType = Weekly | Monthly | Quarterly | Yearly | Custom

  // ----- the period functions -----

  /** The start day of a month, clamped to its length. */
  function MonthAnchor(year: int, month: int, monthStartDay: int): int {
    DateUTC(year, month, Min(monthStartDay, DaysInMonthUTC(year, month)))
  }

  function MonthlyPeriodStart(reference: int, monthStartDay: int): int {
    var year, month := FullYear(reference), Month(reference);
    var thisMonthAnchor := MonthAnchor(year, month, monthStartDay);
    if reference >= thisMonthAnchor then thisMonthAnchor
    else MonthAnchor(if month - 1 < 0 then year - 1 else year, (month - 1) % 12, monthStartDay)
  }

  /** The same time of day on the Monday of the week. */
  function BackToMonday(reference: int): int {
    reference - (Weekday(reference) + 6) % 7 * DAY_MS
  }

  function WeeklyPeriodStart(reference: int): int {
    var start := BackToMonday(reference);
    DateUTC(FullYear(start), Month(start), DayOfMonth(start))
  }

  function QuarterlyPeriodStart(reference: int): int {
    DateUTC(FullYear(reference), Month(reference) / 3 * 3, 1)
  }

  function YearlyPeriodStart(reference: int): int {
    DateUTC(FullYear(reference), 0, 1)
  }

  function PeriodStart(periodType: PeriodType, reference: int, monthStartDay: int): int {
    match periodType
    case Weekly => WeeklyPeriodStart(reference)
    case Monthly => MonthlyPeriodStart(reference, monthStartDay)
    case Custom => MonthlyPeriodStart(reference, monthStartDay)
    case Quarterly => QuarterlyPeriodStart(reference)
    case Yearly => YearlyPeriodStart(reference)
  }

  function NextMonthly(start: int, monthStartDay: int): int {
    var nextMonthIndex := Month(start) + 1;
    MonthAnchor(FullYear(start) + nextMonthIndex / 12, nextMonthIndex % 12, monthStartDay)
  }

  function NextPeriodStart(periodType: PeriodType, start: int, monthStartDay: int): int {
    match periodType
    case Weekly => start + 7 * DAY_MS
    case Monthly => NextMonthly(start, monthStartDay)
    case Custom => NextMonthly(start, monthStartDay)
    case Quarterly => NextQuarterly(start)
    case Yearly => NextYearly(start)
  }

  function NextQuarterly(start: int): int {
    var nextMonth := Month(start) + 3;
    DateUTC(FullYear(start) + nextMonth / 12, nextMonth % 12, 1)
  }

  function NextYearly(start: int): int {
    DateUTC(FullYear(start) + 1, 0, 1)
  }

  // ----- the regular tiling: one anchor per whole number -----

  /** The day the `n`-th period starts. */
  function AnchorDay(periodType: PeriodType, n: int, monthStartDay: int): int {
    match periodType
    case Weekly => 7 * n + 4
    case Monthly => MonthStart(n) + Min(monthStartDay, DaysInMonth(n)) - 1
    case Custom => MonthStart(n) + Min(monthStartDay, DaysInMonth(n)) - 1
    case Quarterly => MonthStart(3 * n)
    case Yearly => MonthStart(12 * n)
  }

  function Anchor(periodType: PeriodType, n: int, monthStartDay: int): int {
    AnchorDay(periodType, n, monthStartDay) * DAY_MS
  }

  lemma AnchorsIncrease(periodType: PeriodType, n: int, monthStartDay: int)
    requires 1 <= monthStartDay
    ensures AnchorDay(periodType, n, monthStartDay) < AnchorDay(periodType, n + 1, monthStartDay)
  {
    MonthLength(n);
    MonthsApart(3 * n, 3 * n + 3);
    MonthsApart(12 * n, 12 * n + 12);
  }

  predicate InPeriod(periodType: PeriodType, n: int, day: int, monthStartDay: int) {
    AnchorDay(periodType, n, monthStartDay) <= day < AnchorDay(periodType, n + 1, monthStartDay)
  }

  function Period(periodType: PeriodType, day: int, monthStartDay: int): int {
    match periodType
    case Weekly => (day - 4) / 7
    case Quarterly => MonthOf(day) / 3
    case Yearly => MonthOf(day) / 12
    case _ => if day >= AnchorDay(periodType, MonthOf(day), monthStartDay) then MonthOf(day) else MonthOf(day) - 1
  }

  /** A block of whole months holds the days of its months. */
  lemma BlockOfMonths(day: int, from: int, to: int)
    requires from <= MonthOf(day) < to
    ensures MonthStart(from) <= day < MonthStart(to)
  {
    MonthsApart(from, MonthOf(day));
    MonthsApart(MonthOf(day) + 1, to);
  }

  lemma MonthlyPeriod(periodType: PeriodType, day: int, monthStartDay: int)
    requires 1 <= monthStartDay && (periodType.Monthly? || periodType.Custom?)
    ensures InPeriod(periodType, Period(periodType, day, monthStartDay), day, monthStartDay)
  {
    MonthLength(MonthOf(day) - 1);
  }

  /** The number of the period a day lies in. */
  function PeriodOfDay(periodType: PeriodType, day: int, monthStartDay: int): (n: int)
    requires 1 <= monthStartDay
    ensures InPeriod(periodType, n, day, monthStartDay)
  {
    match periodType
    case Weekly => Period(periodType, day, monthStartDay)
    case Quarterly =>
      BlockOfMonths(day, 3 * (MonthOf(day) / 3), 3 * (MonthOf(day) / 3 + 1));
      Period(periodType, day, monthStartDay)
    case Yearly =>
      BlockOfMonths(day, 12 * (MonthOf(day) / 12), 12 * (MonthOf(day) / 12 + 1));
      Period(periodType, day, monthStartDay)
    case _ =>
      MonthlyPeriod(periodType, day, monthStartDay);
      Period(periodType, day, monthStartDay)
  }

  /** The periods of the tiling cover every day exactly once. */
  lemma PeriodOfDayUnique(periodType: PeriodType, day: int, monthStartDay: int, n: int)
    requires 1 <= monthStartDay
    requires InPeriod(periodType, n, day, monthStartDay)
    ensures n == PeriodOfDay(periodType, day, monthStartDay)
  {
    var k := PeriodOfDay(periodType, day, monthStartDay);
    if k < n {
      AnchorsFarApart(periodType, k + 1, n, monthStartDay);
    } else if n < k {
      AnchorsFarApart(periodType, n + 1, k, monthStartDay);
    }
  }

  lemma {:induction false} AnchorsFarApart(periodType: PeriodType, n: int, k: int, monthStartDay: int)
    requires 1 <= monthStartDay && n <= k
    ensures AnchorDay(periodType, n, monthStartDay) <= AnchorDay(periodType, k, monthStartDay)
    decreases k - n
  {
    if n < k {
      AnchorsFarApart(periodType, n, k - 1, monthStartDay);
      AnchorsIncrease(periodType, k - 1, monthStartDay);
    }
  }

  /** The year of the day a period starts is one `Date.UTC` reads as written. */
  predicate Plain(periodType: PeriodType, n: int, monthStartDay: int) {
    PlainMonth(MonthOf(AnchorDay(periodType, n, monthStartDay)))
  }

  lemma AnchorMonth(periodType: PeriodType, n: int, monthStartDay: int)
    requires 1 <= monthStartDay
    ensures periodType.Monthly? || periodType.Custom? ==> MonthOf(AnchorDay(periodType, n, monthStartDay)) == n
    ensures periodType.Quarterly? ==> MonthOf(AnchorDay(periodType, n, monthStartDay)) == 3 * n
    ensures periodType.Yearly? ==> MonthOf(AnchorDay(periodType, n, monthStartDay)) == 12 * n
  {
    match periodType
    case Weekly =>
    case Quarterly => MonthLength(3 * n); MonthOfUnique(MonthStart(3 * n), 3 * n);
    case Yearly => MonthLength(12 * n); MonthOfUnique(MonthStart(12 * n), 12 * n);
    case _ => MonthLength(n); MonthOfUnique(AnchorDay(periodType, n, monthStartDay), n);
  }

  // ----- the code follows the tiling -----

  /** The anchor of a month as the code computes it. */
  lemma CodeAnchor(periodType: PeriodType, m: int, monthStartDay: int)
    requires periodType.Monthly? || periodType.Custom?
    requires 1 <= monthStartDay && PlainMonth(m)
    ensures MonthAnchor(m / 12, m % 12, monthStartDay) == Anchor(periodType, m, monthStartDay)
  {
    YearAndMonth(m);
  }

  /** Moving `k` months on from year and month. */
  lemma MonthStep(m: int, k: int)
    ensures m / 12 + (m % 12 + k) / 12 == (m + k) / 12 && (m % 12 + k) % 12 == (m + k) % 12
  {
  }

  lemma WholeYear(n: int)
    ensures 12 * n / 12 == n && 12 * n % 12 == 0 && (12 * n + 12) / 12 == n + 1 && (12 * n + 12) % 12 == 0
  {
  }

  lemma QuarterMonth(m: int)
    ensures 12 * (m / 12) + m % 12 / 3 * 3 == 3 * (m / 3)
  {
    var q, r := m / 12, m % 12;
    assert m == 12 * q + r;
    assert m / 3 == 4 * q + r / 3;
  }

  lemma PreviousMonth(m: int)
    ensures (m - 1) / 12 == (if m % 12 - 1 < 0 then m / 12 - 1 else m / 12) && (m - 1) % 12 == (m % 12 - 1) % 12
  {
  }

  lemma YearAndMonth(m: int)
    ensures 12 * (m / 12) + m % 12 == m
  {
  }

  lemma FieldsOfDay(day: int)
    ensures FullYear(day * DAY_MS) == MonthOf(day) / 12 && Month(day * DAY_MS) == MonthOf(day) % 12
  {
    DayOfInstant(day);
  }

  lemma FirstOfMonth(m: int)
    requires PlainMonth(m)
    ensures DateUTC(m / 12, m % 12, 1) == MonthStart(m) * DAY_MS
  {
    YearAndMonth(m);
  }

  lemma NextMonthlyByIndex(start: int, m: int, monthStartDay: int)
    requires MonthIndex(start) == m
    ensures NextMonthly(start, monthStartDay) == MonthAnchor((m + 1) / 12, (m + 1) % 12, monthStartDay)
  {
    MonthStep(m, 1);
  }

  lemma NextMonthlyOfAnchor(periodType: PeriodType, n: int, monthStartDay: int)
    requires periodType.Monthly? || periodType.Custom?
    requires 1 <= monthStartDay && PlainMonth(n + 1)
    ensures NextMonthly(Anchor(periodType, n, monthStartDay), monthStartDay) == Anchor(periodType, n + 1, monthStartDay)
  {
    AnchorMonth(periodType, n, monthStartDay);
    DayOfInstant(AnchorDay(periodType, n, monthStartDay));
    NextMonthlyByIndex(Anchor(periodType, n, monthStartDay), n, monthStartDay);
    CodeAnchor(periodType, n + 1, monthStartDay);
  }

  lemma NextQuarterByIndex(start: int, m: int, monthStartDay: int)
    requires MonthIndex(start) == m && PlainMonth(m + 3)
    ensures NextPeriodStart(Quarterly, start, monthStartDay) == MonthStart(m + 3) * DAY_MS
  {
    MonthStep(m, 3);
    FirstOfMonth(m + 3);
  }

  lemma NextQuarterOfAnchor(n: int, monthStartDay: int)
    requires PlainMonth(3 * n + 3)
    ensures NextPeriodStart(Quarterly, Anchor(Quarterly, n, monthStartDay), monthStartDay) == MonthStart(3 * n + 3) * DAY_MS
  {
    MonthLength(3 * n);
    MonthOfUnique(MonthStart(3 * n), 3 * n);
    DayOfInstant(MonthStart(3 * n));
    NextQuarterByIndex(Anchor(Quarterly, n, monthStartDay), 3 * n, monthStartDay);
  }

  lemma YearOfFirstDay(n: int)
    ensures FullYear(MonthStart(12 * n) * DAY_MS) == n
  {
    MonthLength(12 * n);
    MonthOfUnique(MonthStart(12 * n), 12 * n);
    FieldsOfDay(MonthStart(12 * n));
  }

  lemma NextYearOfAnchor(n: int, monthStartDay: int)
    requires PlainYear(n + 1)
    ensures NextPeriodStart(Yearly, Anchor(Yearly, n, monthStartDay), monthStartDay) == MonthStart(12 * n + 12) * DAY_MS
  {
    YearOfFirstDay(n);
    WholeYear(n);
  }

  /** `nextPeriodStart` leads from each anchor to the next one: a short month never shifts the later anchors. */
  lemma NextOfAnchor(periodType: PeriodType, n: int, monthStartDay: int)
    requires 1 <= monthStartDay && (periodType == Weekly || Plain(periodType, n + 1, monthStartDay))
    ensures NextPeriodStart(periodType, Anchor(periodType, n, monthStartDay), monthStartDay)
         == Anchor(periodType, n + 1, monthStartDay)
  {
    AnchorMonth(periodType, n + 1, monthStartDay);
    match periodType
    case Weekly =>
    case Quarterly => NextQuarterOfAnchor(n, monthStartDay);
    case Yearly => WholeYear(n); NextYearOfAnchor(n, monthStartDay);
    case _ => NextMonthlyOfAnchor(periodType, n, monthStartDay);
  }

  lemma BeforeAnchor(reference: int, day: int)
    ensures reference >= day * DAY_MS <==> DayOf(reference) >= day
  {
    InstantOfDay(reference);
  }

  lemma MonthlyStartByIndex(reference: int, m: int, monthStartDay: int)
    requires MonthIndex(reference) == m
    ensures MonthlyPeriodStart(reference, monthStartDay)
         == if reference >= MonthAnchor(m / 12, m % 12, monthStartDay) then MonthAnchor(m / 12, m % 12, monthStartDay)
            else MonthAnchor((m - 1) / 12, (m - 1) % 12, monthStartDay)
  {
    PreviousMonth(m);
  }

  lemma MonthlyStart(periodType: PeriodType, reference: int, monthStartDay: int)
    requires periodType.Monthly? || periodType.Custom?
    requires 1 <= monthStartDay && PlainMonth(MonthIndex(reference))
    requires PlainMonth(Period(periodType, DayOf(reference), monthStartDay))
    ensures MonthlyPeriodStart(reference, monthStartDay)
         == Anchor(periodType, Period(periodType, DayOf(reference), monthStartDay), monthStartDay)
  {
    var m := MonthIndex(reference);
    MonthlyStartByIndex(reference, m, monthStartDay);
    CodeAnchor(periodType, m, monthStartDay);
    BeforeAnchor(reference, AnchorDay(periodType, m, monthStartDay));
    if DayOf(reference) < AnchorDay(periodType, m, monthStartDay) {
      CodeAnchor(periodType, m - 1, monthStartDay);
    }
  }

  lemma QuarterStart(reference: int, monthStartDay: int)
    requires PlainYear(FullYear(reference))
    ensures QuarterlyPeriodStart(reference) == Anchor(Quarterly, MonthIndex(reference) / 3, monthStartDay)
  {
    QuarterMonth(MonthIndex(reference));
  }

  /** `periodStart` finds the anchor of the period the reference lies in. */
  lemma StartIsAnchor(periodType: PeriodType, reference: int, monthStartDay: int)
    requires 1 <= monthStartDay
    requires PlainYear(FullYear(reference))
    requires Plain(periodType, PeriodOfDay(periodType, DayOf(reference), monthStartDay), monthStartDay)
    ensures PeriodStart(periodType, reference, monthStartDay)
         == Anchor(periodType, PeriodOfDay(periodType, DayOf(reference), monthStartDay), monthStartDay)
  {
    AnchorMonth(periodType, PeriodOfDay(periodType, DayOf(reference), monthStartDay), monthStartDay);
    match periodType
    case Weekly => WeekStart(reference);
    case Quarterly => QuarterStart(reference, monthStartDay);
    case Yearly =>
    case _ => MonthlyStart(periodType, reference, monthStartDay);
  }

  lemma WeekStart(reference: int)
    requires PlainMonth(MonthOf(AnchorDay(Weekly, PeriodOfDay(Weekly, DayOf(reference), 1), 1)))
    ensures WeeklyPeriodStart(reference) == Anchor(Weekly, PeriodOfDay(Weekly, DayOf(reference), 1), 1)
  {
    MondayOfWeek(reference);
    OwnDate(BackToMonday(reference));
  }

  lemma MondayOfWeek(reference: int)
    ensures DayOf(BackToMonday(reference)) == AnchorDay(Weekly, PeriodOfDay(Weekly, DayOf(reference), 1), 1)
  {
    var day := DayOf(reference);
    assert DayOf(BackToMonday(reference)) == day - (Weekday(reference) + 6) % 7;
    assert (day + 4) % 7 + 6 >= 0;
  }

  /** Rebuilding a date from its own fields cuts the time of day. */
  lemma OwnDate(t: int)
    requires PlainYear(FullYear(t))
    ensures DateUTC(FullYear(t), Month(t), DayOfMonth(t)) == DayOf(t) * DAY_MS
  {
    var m := MonthIndex(t);
    YearAndMonth(m);
  }

  // ----- when the bounds hold, exactly -----

  /** A built date never falls before the month it was built for; in the years 0 to 99 it falls 1900 years later. */
  lemma BuiltDate(m: int, date: int)
    requires date >= 1
    ensures DateUTC(m / 12, m % 12, date) >= MonthStart(m) * DAY_MS
    ensures !PlainMonth(m) ==> DateUTC(m / 12, m % 12, date) >= MonthStart(m + 2) * DAY_MS
  {
    YearAndMonth(m);
    MonthsApart(m, m + 22800);
    MonthsApart(m + 2, m + 22800);
  }

  lemma DayBeforeInstant(t: int, day: int)
    ensures DayOf(t) < day ==> t < day * DAY_MS
    ensures DayOf(t) >= day ==> t >= day * DAY_MS
  {
  }

  /** An instant lies inside its month. */
  lemma InstantInMonth(t: int, m: int)
    ensures MonthIndex(t) < m ==> t < MonthStart(m) * DAY_MS
    ensures m <= MonthIndex(t) ==> MonthStart(m) * DAY_MS <= t
  {
    DayBeforeInstant(t, MonthStart(m));
    if MonthIndex(t) < m {
      MonthsApart(MonthIndex(t) + 1, m);
    } else {
      MonthsApart(m, MonthIndex(t));
    }
  }

  lemma MonthAnchorAfter(m: int, monthStartDay: int)
    requires 1 <= monthStartDay
    ensures MonthAnchor(m / 12, m % 12, monthStartDay) >= MonthStart(m) * DAY_MS
    ensures !PlainMonth(m) ==> MonthAnchor(m / 12, m % 12, monthStartDay) >= MonthStart(m + 2) * DAY_MS
  {
    BuiltDate(m, Min(monthStartDay, DaysInMonthUTC(m / 12, m % 12)));
  }

  // Where the next start falls, for each kind of period.

  lemma NextMonthlyAfter(start: int, m: int, monthStartDay: int)
    requires 1 <= monthStartDay && MonthIndex(start) == m
    ensures NextMonthly(start, monthStartDay) >= MonthStart(m + 1) * DAY_MS
  {
    NextMonthlyByIndex(start, m, monthStartDay);
    MonthAnchorAfter(m + 1, monthStartDay);
  }

  lemma NextQuarterByFields(start: int, m: int)
    requires MonthIndex(start) == m
    ensures NextQuarterly(start) == DateUTC((m + 3) / 12, (m + 3) % 12, 1)
  {
    MonthStep(m, 3);
  }

  lemma NextQuarterlyAfter(start: int, m: int)
    requires MonthIndex(start) == m
    ensures NextQuarterly(start) >= MonthStart(m + 3) * DAY_MS
  {
    NextQuarterByFields(start, m);
    BuiltDate(m + 3, 1);
  }

  lemma NextYearlyAfter(start: int, y: int)
    requires FullYear(start) == y
    ensures NextYearly(start) >= MonthStart(12 * y + 12) * DAY_MS
  {
    WholeYear(y);
    BuiltDate(12 * y + 12, 1);
  }

  lemma MonthsOfYear(m: int)
    ensures 12 * (m / 12) <= m < 12 * (m / 12) + 12
  {
  }

  /** The next period always starts later, for every instant and every year. */
  lemma NextIsLater(periodType: PeriodType, start: int, monthStartDay: int)
    requires 1 <= monthStartDay
    ensures start < NextPeriodStart(periodType, start, monthStartDay)
  {
    var m := MonthIndex(start);
    match periodType
    case Weekly =>
    case Quarterly =>
      NextQuarterlyAfter(start, m);
      InstantInMonth(start, m + 3);
    case Yearly =>
      NextYearlyAfter(start, m / 12);
      MonthsOfYear(m);
      InstantInMonth(start, 12 * (m / 12) + 12);
    case _ =>
      NextMonthlyAfter(start, m, monthStartDay);
      InstantInMonth(start, m + 1);
  }

  /** The month `monthlyPeriodStart` settles on: the month of the reference once its start day has come, else the one before. */
  function StartMonth(reference: int, monthStartDay: int): int {
    var m := MonthIndex(reference);
    if PlainMonth(m) && DayOf(reference) >= AnchorDay(Monthly, m, monthStartDay) then m else m - 1
  }

  /** `Date.UTC` reads the year of the period start as written. */
  predicate StartsInPlainYear(periodType: PeriodType, reference: int, monthStartDay: int) {
    match periodType
    case Weekly => PlainYear(FullYear(BackToMonday(reference)))
    case Quarterly => PlainYear(FullYear(reference))
    case Yearly => PlainYear(FullYear(reference))
    case _ => PlainMonth(StartMonth(reference, monthStartDay))
  }

  predicate WithinPeriod(periodType: PeriodType, reference: int, monthStartDay: int) {
    var start := PeriodStart(periodType, reference, monthStartDay);
    start <= reference < NextPeriodStart(periodType, start, monthStartDay)
  }

  // ----- weekly -----

  lemma WithinTheWeek(reference: int)
    ensures DayOf(BackToMonday(reference)) * DAY_MS <= reference < DayOf(BackToMonday(reference)) * DAY_MS + 7 * DAY_MS
  {
    InstantOfDay(BackToMonday(reference));
  }

  lemma AtMostNextMonth(day: int, later: int)
    requires day <= later <= day + 7
    ensures MonthOf(later) <= MonthOf(day) + 1
  {
    var m := MonthOf(day);
    if MonthOf(later) > m + 1 {
      MonthsApart(m + 1, m + 2);
      MonthsApart(m + 2, MonthOf(later));
    }
  }

  lemma DaysOfWeek(reference: int)
    ensures DayOf(BackToMonday(reference)) <= DayOf(reference) <= DayOf(BackToMonday(reference)) + 7
  {
    MondayOfWeek(reference);
  }

  lemma WeeklyWithin(reference: int, monthStartDay: int)
    ensures WithinPeriod(Weekly, reference, monthStartDay) <==> PlainYear(FullYear(BackToMonday(reference)))
  {
    var monday := BackToMonday(reference);
    if PlainYear(FullYear(monday)) {
      OwnDate(monday);
      WithinTheWeek(reference);
    } else {
      var m := MonthIndex(monday);
      DateOfOwnFields(monday);
      BuiltDate(m, DayOfMonth(monday));
      DaysOfWeek(reference);
      AtMostNextMonth(DayOf(monday), DayOf(reference));
      InstantInMonth(reference, m + 2);
    }
  }

  lemma DateOfOwnFields(t: int)
    ensures 1 <= DayOfMonth(t)
  {
  }

  // ----- quarterly -----

  lemma QuarterYear(m: int)
    ensures 3 * (m / 3) / 12 == m / 12 && 3 * (m / 3) % 12 == m % 12 / 3 * 3
    ensures 3 * (m / 3) <= m < 3 * (m / 3) + 3
  {
    QuarterMonth(m);
  }

  lemma EarlyDate(m: int)
    requires !PlainMonth(m)
    ensures DateUTC(m / 12, m % 12, 1) == MonthStart(m + 22800) * DAY_MS
  {
    assert 12 * (1900 + m / 12) + m % 12 == m + 22800;
  }

  lemma InstantBefore(a: int, b: int)
    requires a < b
    ensures a * DAY_MS < b * DAY_MS
  {
  }

  /** A start built in one of the years 0 to 99 lies more than a year ahead. */
  lemma ShiftedStart(q: int)
    requires !PlainMonth(q)
    ensures DateUTC(q / 12, q % 12, 1) >= MonthStart(q + 12) * DAY_MS
  {
    EarlyDate(q);
    MonthsApart(q + 12, q + 22800);
    InstantBefore(MonthStart(q + 12), MonthStart(q + 22800));
  }

  lemma FirstDayIndex(q: int)
    ensures MonthIndex(MonthStart(q) * DAY_MS) == q
  {
    MonthFirst(MonthStart(q) * DAY_MS, q);
  }

  lemma QuarterlyPlain(reference: int)
    requires PlainYear(FullYear(reference))
    ensures QuarterlyPeriodStart(reference) <= reference < NextQuarterly(QuarterlyPeriodStart(reference))
  {
    var m := MonthIndex(reference);
    var q := 3 * (m / 3);
    QuarterStart(reference, 1);
    QuarterYear(m);
    InstantInMonth(reference, q);
    InstantInMonth(reference, q + 3);
    FirstDayIndex(q);
    NextQuarterlyAfter(MonthStart(q) * DAY_MS, q);
  }

  lemma QuarterlyShifted(reference: int)
    requires !PlainYear(FullYear(reference))
    ensures reference < QuarterlyPeriodStart(reference)
  {
    var m := MonthIndex(reference);
    var q := 3 * (m / 3);
    QuarterYear(m);
    ShiftedStart(q);
    InstantInMonth(reference, q + 12);
  }

  lemma QuarterlyWithin(reference: int, monthStartDay: int)
    ensures WithinPeriod(Quarterly, reference, monthStartDay) <==> PlainYear(FullYear(reference))
  {
    if PlainYear(FullYear(reference)) {
      QuarterlyPlain(reference);
    } else {
      QuarterlyShifted(reference);
    }
  }

  // ----- yearly -----

  lemma YearlyWithin(reference: int, monthStartDay: int)
    ensures WithinPeriod(Yearly, reference, monthStartDay) <==> PlainYear(FullYear(reference))
  {
    var y := MonthIndex(reference) / 12;
    MonthsOfYear(MonthIndex(reference));
    WholeYear(y);
    InstantInMonth(reference, 12 * y);
    InstantInMonth(reference, 12 * y + 12);
    if PlainYear(y) {
      FirstDayIndex(12 * y);
      NextYearlyAfter(MonthStart(12 * y) * DAY_MS, y);
    } else {
      ShiftedStart(12 * y);
    }
  }

  // ----- monthly -----

  lemma MonthlyStartMonth(reference: int, monthStartDay: int)
    requires 1 <= monthStartDay
    ensures var k := StartMonth(reference, monthStartDay);
      MonthlyPeriodStart(reference, monthStartDay) == MonthAnchor(k / 12, k % 12, monthStartDay)
  {
    var m := MonthIndex(reference);
    MonthlyStartByIndex(reference, m, monthStartDay);
    if PlainMonth(m) {
      CodeAnchor(Monthly, m, monthStartDay);
      BeforeAnchor(reference, AnchorDay(Monthly, m, monthStartDay));
    } else {
      MonthAnchorAfter(m, monthStartDay);
      InstantInMonth(reference, m + 2);
    }
  }

  /** From the anchor of month `k` the next start is the anchor of the following month, or lies beyond it. */
  lemma NextOfMonth(k: int, monthStartDay: int)
    requires 1 <= monthStartDay && PlainMonth(k)
    ensures MonthIndex(Anchor(Monthly, k, monthStartDay)) == k
    ensures NextMonthly(Anchor(Monthly, k, monthStartDay), monthStartDay)
         == MonthAnchor((k + 1) / 12, (k + 1) % 12, monthStartDay)
  {
    AnchorMonth(Monthly, k, monthStartDay);
    DayOfInstant(AnchorDay(Monthly, k, monthStartDay));
    NextMonthlyByIndex(Anchor(Monthly, k, monthStartDay), k, monthStartDay);
  }

  lemma BeforeNextMonthly(reference: int, monthStartDay: int)
    requires 1 <= monthStartDay && PlainMonth(StartMonth(reference, monthStartDay))
    ensures var k := StartMonth(reference, monthStartDay);
      reference < MonthAnchor((k + 1) / 12, (k + 1) % 12, monthStartDay)
  {
    var m, k := MonthIndex(reference), StartMonth(reference, monthStartDay);
    MonthAnchorAfter(k + 1, monthStartDay);
    if k == m {
      InstantInMonth(reference, m + 1);
    } else if PlainMonth(m) {
      CodeAnchor(Monthly, m, monthStartDay);
      BeforeAnchor(reference, AnchorDay(Monthly, m, monthStartDay));
    } else {
      InstantInMonth(reference, m + 2);
    }
  }

  lemma AfterStartMonthly(reference: int, monthStartDay: int)
    requires 1 <= monthStartDay && PlainMonth(StartMonth(reference, monthStartDay))
    ensures Anchor(Monthly, StartMonth(reference, monthStartDay), monthStartDay) <= reference
  {
    var m, k := MonthIndex(reference), StartMonth(reference, monthStartDay);
    BeforeAnchor(reference, AnchorDay(Monthly, k, monthStartDay));
    MonthLength(k);
  }

  lemma MonthlyStartIsAnchor(reference: int, monthStartDay: int)
    requires 1 <= monthStartDay && PlainMonth(StartMonth(reference, monthStartDay))
    ensures MonthlyPeriodStart(reference, monthStartDay)
         == Anchor(Monthly, StartMonth(reference, monthStartDay), monthStartDay)
  {
    MonthlyStartMonth(reference, monthStartDay);
    CodeAnchor(Monthly, StartMonth(reference, monthStartDay), monthStartDay);
  }

  lemma BeforeNextAnchor(reference: int, monthStartDay: int)
    requires 1 <= monthStartDay && PlainMonth(StartMonth(reference, monthStartDay))
    ensures reference < NextMonthly(Anchor(Monthly, StartMonth(reference, monthStartDay), monthStartDay), monthStartDay)
  {
    NextOfMonth(StartMonth(reference, monthStartDay), monthStartDay);
    BeforeNextMonthly(reference, monthStartDay);
  }

  lemma MonthlyPlain(reference: int, monthStartDay: int)
    requires 1 <= monthStartDay && PlainMonth(StartMonth(reference, monthStartDay))
    ensures var start := MonthlyPeriodStart(reference, monthStartDay);
      start <= reference < NextMonthly(start, monthStartDay)
  {
    MonthlyStartIsAnchor(reference, monthStartDay);
    BeforeNextAnchor(reference, monthStartDay);
    AfterStartMonthly(reference, monthStartDay);
  }

  lemma MonthlyShifted(reference: int, monthStartDay: int)
    requires 1 <= monthStartDay && !PlainMonth(StartMonth(reference, monthStartDay))
    ensures reference < MonthlyPeriodStart(reference, monthStartDay)
  {
    var k := StartMonth(reference, monthStartDay);
    MonthlyStartMonth(reference, monthStartDay);
    MonthAnchorAfter(k, monthStartDay);
    InstantInMonth(reference, k + 2);
  }

  lemma MonthlyWithin(periodType: PeriodType, reference: int, monthStartDay: int)
    requires periodType.Monthly? || periodType.Custom?
    requires 1 <= monthStartDay
    ensures WithinPeriod(periodType, reference, monthStartDay) <==> PlainMonth(StartMonth(reference, monthStartDay))
  {
    if PlainMonth(StartMonth(reference, monthStartDay)) {
      MonthlyPlain(reference, monthStartDay);
    } else {
      MonthlyShifted(reference, monthStartDay);
    }
  }

  /** A reference lies inside the period found for it exactly when `Date.UTC` reads the year of the period start as
      written, that is, unless that year is one of 0 to 99. */
  lemma ReferenceLiesInItsPeriod(periodType: PeriodType, reference: int, monthStartDay: int)
    requires 1 <= monthStartDay
    ensures WithinPeriod(periodType, reference, monthStartDay) <==> StartsInPlainYear(periodType, reference, monthStartDay)
  {
    match periodType
    case Weekly => WeeklyWithin(reference, monthStartDay);
    case Quarterly => QuarterlyWithin(reference, monthStartDay);
    case Yearly => YearlyWithin(reference, monthStartDay);
    case _ => MonthlyWithin(periodType, reference, monthStartDay);
  }

  lemma AnchorInEarlyYear(m: int)
    requires !PlainMonth(m)
    ensures MonthAnchor(m / 12, m % 12, 1) == MonthStart(m + 22800) * DAY_MS
  {
    EarlyDate(m);
  }

  lemma StartBeforeAnchor(reference: int, m: int)
    requires MonthIndex(reference) == m && reference < MonthAnchor(m / 12, m % 12, 1)
    ensures MonthlyPeriodStart(reference, 1) == MonthAnchor((m - 1) / 12, (m - 1) % 12, 1)
  {
    PreviousMonth(m);
  }

  /** The first of a month in the years 0 to 99: the month it lies in is said to begin almost 1900 years later. */
  lemma FirstOfEarlyMonth(reference: int, m: int)
    requires MonthIndex(reference) == m && reference == MonthStart(m) * DAY_MS && 0 < m < 1200
    ensures PeriodStart(Monthly, reference, 1) == MonthStart(m - 1 + 22800) * DAY_MS
    ensures reference < PeriodStart(Monthly, reference, 1)
  {
    MonthsApart(m, m - 1 + 22800);
    MonthsApart(m, m + 22800);
    InstantBefore(MonthStart(m), MonthStart(m + 22800));
    InstantBefore(MonthStart(m), MonthStart(m - 1 + 22800));
    AnchorInEarlyYear(m);
    AnchorInEarlyYear(m - 1);
    StartBeforeAnchor(reference, m);
  }

  /** The first of June of the year 50 lies before the period found for it. */
  lemma JuneOfYearFifty(reference: int)
    requires reference == MonthStart(12 * 50 + 5) * DAY_MS
    ensures MonthIndex(reference) == 12 * 50 + 5 && DayOfMonth(reference) == 1
    ensures PeriodStart(Monthly, reference, 1) == MonthStart(12 * 1950 + 4) * DAY_MS
    ensures !WithinPeriod(Monthly, reference, 1)
  {
    MonthFirst(reference, 12 * 50 + 5);
    FirstOfEarlyMonth(reference, 12 * 50 + 5);
  }

  // ----- where the code leaves the tiling -----

  lemma MonthAnchorBeyond(m: int, monthStartDay: int)
    requires 1 <= monthStartDay && !PlainMonth(m)
    ensures MonthAnchor(m / 12, m % 12, monthStartDay) >= MonthStart(m + 1) * DAY_MS
  {
    MonthAnchorAfter(m, monthStartDay);
    MonthsApart(m + 1, m + 2);
  }

  lemma NextMonthlyBeyond(start: int, m: int, monthStartDay: int)
    requires 1 <= monthStartDay && MonthIndex(start) == m && !PlainMonth(m + 1)
    ensures NextMonthly(start, monthStartDay) >= MonthStart(m + 2) * DAY_MS
  {
    NextMonthlyByIndex(start, m, monthStartDay);
    MonthAnchorBeyond(m + 1, monthStartDay);
  }

  lemma MonthOfAnchor(periodType: PeriodType, n: int, monthStartDay: int)
    requires periodType.Monthly? || periodType.Custom?
    requires 1 <= monthStartDay
    ensures MonthIndex(Anchor(periodType, n, monthStartDay)) == n
  {
    AnchorMonth(periodType, n, monthStartDay);
    DayOfInstant(AnchorDay(periodType, n, monthStartDay));
  }

  lemma AnchorBeforeNextMonth(periodType: PeriodType, n: int, monthStartDay: int)
    requires periodType.Monthly? || periodType.Custom?
    ensures Anchor(periodType, n, monthStartDay) < MonthStart(n + 1) * DAY_MS
  {
    MonthLength(n);
    assert AnchorDay(periodType, n, monthStartDay) < MonthStart(n + 1);
  }

  lemma NextMonthlyMisses(periodType: PeriodType, n: int, monthStartDay: int)
    requires periodType.Monthly? || periodType.Custom?
    requires 1 <= monthStartDay && !PlainMonth(n + 1)
    ensures NextMonthly(Anchor(periodType, n, monthStartDay), monthStartDay) > Anchor(periodType, n + 1, monthStartDay)
  {
    MonthOfAnchor(periodType, n, monthStartDay);
    NextMonthlyBeyond(Anchor(periodType, n, monthStartDay), n, monthStartDay);
    AnchorBeforeNextMonth(periodType, n + 1, monthStartDay);
  }

  lemma MonthStartsIncrease(m: int)
    ensures MonthStart(m) * DAY_MS < MonthStart(m + 2) * DAY_MS
  {
    MonthsApart(m, m + 2);
  }

  lemma FirstDayBeyond(m: int)
    requires !PlainMonth(m)
    ensures DateUTC(m / 12, m % 12, 1) > MonthStart(m) * DAY_MS
  {
    BuiltDate(m, 1);
    MonthStartsIncrease(m);
  }

  lemma NextQuarterlyBeyond(start: int, m: int)
    requires MonthIndex(start) == m && !PlainMonth(m + 3)
    ensures NextQuarterly(start) > MonthStart(m + 3) * DAY_MS
  {
    NextQuarterByFields(start, m);
    FirstDayBeyond(m + 3);
  }

  lemma NextQuarterlyMisses(n: int, monthStartDay: int)
    requires !PlainMonth(3 * n + 3)
    ensures NextQuarterly(Anchor(Quarterly, n, monthStartDay)) > Anchor(Quarterly, n + 1, monthStartDay)
  {
    FirstDayIndex(3 * n);
    NextQuarterlyBeyond(Anchor(Quarterly, n, monthStartDay), 3 * n);
  }

  lemma NextYearlyMisses(n: int, monthStartDay: int)
    requires !PlainMonth(12 * n + 12)
    ensures NextYearly(Anchor(Yearly, n, monthStartDay)) > Anchor(Yearly, n + 1, monthStartDay)
  {
    FirstDayIndex(12 * n);
    WholeYear(n);
    FirstDayBeyond(12 * n + 12);
  }

  /** The next start is the next anchor exactly when that anchor lies in a plain year; weekly starts always meet it. */
  lemma NextMeetsAnchor(periodType: PeriodType, n: int, monthStartDay: int)
    requires 1 <= monthStartDay
    ensures NextPeriodStart(periodType, Anchor(periodType, n, monthStartDay), monthStartDay)
            == Anchor(periodType, n + 1, monthStartDay)
       <==> periodType == Weekly || Plain(periodType, n + 1, monthStartDay)
  {
    if periodType == Weekly || Plain(periodType, n + 1, monthStartDay) {
      NextOfAnchor(periodType, n, monthStartDay);
    } else {
      AnchorMonth(periodType, n + 1, monthStartDay);
      match periodType
      case Quarterly => NextQuarterlyMisses(n, monthStartDay);
      case Yearly => NextYearlyMisses(n, monthStartDay);
      case _ => NextMonthlyMisses(periodType, n, monthStartDay);
    }
  }

  // ----- period after period -----

  function Iterate(f: int -> int, x: int, k: nat): int {
    if k == 0 then x else f(Iterate(f, x, k - 1))
  }

  lemma {:induction false} IterateFollows(f: int -> int, points: int -> int, n: int, k: nat)
    requires forall j :: n <= j < n + k ==> f(points(j)) == points(j + 1)
    ensures Iterate(f, points(n), k) == points(n + k)
  {
    if k > 0 {
      IterateFollows(f, points, n, k - 1);
      assert f(points(n + k - 1)) == points(n + k);
    }
  }

  function Next(periodType: PeriodType, monthStartDay: int): int -> int {
    start => NextPeriodStart(periodType, start, monthStartDay)
  }

  function Anchors(periodType: PeriodType, monthStartDay: int): int -> int {
    n => Anchor(periodType, n, monthStartDay)
  }

  lemma NextFollowsAnchors(periodType: PeriodType, n: int, monthStartDay: int)
    requires 1 <= monthStartDay && Plain(periodType, n + 1, monthStartDay)
    ensures Next(periodType, monthStartDay)(Anchors(periodType, monthStartDay)(n)) == Anchors(periodType, monthStartDay)(n + 1)
  {
    NextOfAnchor(periodType, n, monthStartDay);
  }

  /** However many periods follow one another in plain years, the `k`-th start is the `k`-th anchor: periods that start
      on the 31st come back to the 31st after every short month. */
  lemma NthStartIsAnchor(periodType: PeriodType, n: int, k: nat, monthStartDay: int)
    requires 1 <= monthStartDay
    requires forall j :: n < j <= n + k ==> Plain(periodType, j, monthStartDay)
    ensures Iterate(Next(periodType, monthStartDay), Anchors(periodType, monthStartDay)(n), k)
         == Anchors(periodType, monthStartDay)(n + k)
  {
    var next, anchors := Next(periodType, monthStartDay), Anchors(periodType, monthStartDay);
    forall j | n <= j < n + k ensures next(anchors(j)) == anchors(j + 1) {
      NextFollowsAnchors(periodType, j, monthStartDay);
    }
    IterateFollows(next, anchors, n, k);
  }
}
