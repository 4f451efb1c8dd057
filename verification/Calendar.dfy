/** Civil dates: day numbers and the date groups of the file list. */
module Calendar {

  datatype CivilDate = CivilDate(year: int, month: int, day: int)

  predicate IsLeap(year: int) {
    year % 4 == 0 && (year % 100 != 0 || year % 400 == 0)
  }

  function DaysInMonth(year: int, month: int): int {
    if month == 2 then if IsLeap(year) then 29 else 28
    else if month == 4 || month == 6 || month == 9 || month == 11 then 30
    else 31
  }

  /** A date of the proleptic Gregorian calendar. */
  predicate ValidDate(d: CivilDate) {
    1 <= d.month <= 12 && 1 <= d.day <= DaysInMonth(d.year, d.month)
  }

  /** The calendar day after a date. */
  function NextDay(d: CivilDate): CivilDate {
    if d.day < DaysInMonth(d.year, d.month) then CivilDate(d.year, d.month, d.day + 1)
    else if d.month < 12 then CivilDate(d.year, d.month + 1, 1)
    else CivilDate(d.year + 1, 1, 1)
  }

  /** Earlier in the calendar: by year, then month, then day. */
  predicate Earlier(a: CivilDate, b: CivilDate) {
    a.year < b.year || (a.year == b.year && (a.month < b.month || (a.month == b.month && a.day < b.day)))
  }

  /** Division that drops the fraction, as the machine divides. */
  function TruncDiv(a: int, b: int): int
    requires b > 0
  {
    if a >= 0 then a / b else -((-a) / b)
  }

  /** Days since 1 January 1970. The year is counted from March, so that the leap day comes last. */
  function DaysFromCivil(year: int, month: int, day: int): int {
    var y := if month <= 2 then year - 1 else year;
    var era := TruncDiv(if y >= 0 then y else y - 399, 400);
    var yearOfEra := y - era * 400;
    var monthPrime := month + (if month > 2 then -3 else 9);
    var dayOfYear := TruncDiv(153 * monthPrime + 2, 5) + day - 1;
    var dayOfEra := yearOfEra * 365 + TruncDiv(yearOfEra, 4) - TruncDiv(yearOfEra, 100) + dayOfYear;
    era * 146097 + dayOfEra - 719468
  }

  function DayNumber(d: CivilDate): int {
    DaysFromCivil(d.year, d.month, d.day)
  }

  // ---- Counting days ---------------------------------------------------------------------

  function MarchYear(d: CivilDate): int {
    if d.month <= 2 then d.year - 1 else d.year
  }

  function MarchMonth(d: CivilDate): int {
    d.month + if d.month > 2 then -3 else 9
  }

  /** Days before 1 March of a year, from a fixed origin. */
  function YearStart(y: int): int {
    y / 400 * 146097 + y % 400 * 365 + y % 400 / 4 - y % 400 / 100
  }

  /** Days between 1 March and the start of a month counted from March. */
  function MonthStart(m: int): int {
    (153 * m + 2) / 5
  }

  lemma EraIsFloor(y: int)
    ensures TruncDiv(if y >= 0 then y else y - 399, 400) == y / 400
  {
  }

  lemma DayNumberParts(d: CivilDate)
    requires 1 <= d.month <= 12
    ensures DayNumber(d) == YearStart(MarchYear(d)) + MonthStart(MarchMonth(d)) + d.day - 1 - 719468
    ensures 0 <= MarchMonth(d) <= 11
  {
    EraIsFloor(MarchYear(d));
  }

  lemma LeapInEra(y: int, r: int)
    requires r == y % 400
    ensures IsLeap(y) <==> r % 4 == 0 && (r % 100 != 0 || r == 0)
  {
    var q := y / 400;
    assert y == 400 * q + r;
    assert y % 4 == r % 4 by { assert y == 4 * (100 * q) + r; }
    assert y % 100 == r % 100 by { assert y == 100 * (4 * q) + r; }
  }

  /** A year counted from March has one day more when the February it ends with has a leap day. */
  lemma YearLength(y: int)
    ensures YearStart(y + 1) == YearStart(y) + 365 + if IsLeap(y + 1) then 1 else 0
  {
    var r := y % 400;
    LeapInEra(y + 1, (y + 1) % 400);
    if r == 399 {
      assert (y + 1) % 400 == 0 && (y + 1) / 400 == y / 400 + 1;
    } else {
      assert (y + 1) % 400 == r + 1 && (y + 1) / 400 == y / 400;
    }
  }

  lemma MonthLength(d: CivilDate)
    requires 1 <= d.month <= 12 && d.month != 2
    ensures MonthStart(MarchMonth(d) + 1) == MonthStart(MarchMonth(d)) + DaysInMonth(d.year, d.month)
  {
    assert MarchMonth(d) in {0, 1, 2, 3, 4, 5, 6, 7, 8, 9, 10};
  }

  lemma EndOfFebruary(d: CivilDate)
    requires d.month == 2 && d.day == DaysInMonth(d.year, 2)
    ensures DayNumber(CivilDate(d.year, 3, 1)) == DayNumber(d) + 1
  {
    DayNumberParts(d);
    DayNumberParts(CivilDate(d.year, 3, 1));
    YearLength(d.year - 1);
  }

  lemma EndOfMonth(d: CivilDate)
    requires ValidDate(d) && d.month != 2 && d.day == DaysInMonth(d.year, d.month)
    ensures DayNumber(NextDay(d)) == DayNumber(d) + 1
  {
    DayNumberParts(d);
    DayNumberParts(NextDay(d));
    MonthLength(d);
  }

  /** The day after any valid date has the next day number, negative years and leap days included. */
  lemma NextDayNumber(d: CivilDate)
    requires ValidDate(d)
    ensures ValidDate(NextDay(d)) && DayNumber(NextDay(d)) == DayNumber(d) + 1
  {
    if d.day < DaysInMonth(d.year, d.month) {
      DayNumberParts(d);
      DayNumberParts(NextDay(d));
    } else if d.month == 2 {
      EndOfFebruary(d);
    } else {
      EndOfMonth(d);
    }
  }

  lemma {:induction false} YearsAdvance(y: int, z: int)
    requires y < z
    ensures YearStart(y + 1) <= YearStart(z)
    decreases z - y
  {
    if y + 1 < z {
      YearLength(y + 1);
      YearsAdvance(y + 1, z);
    }
  }

  /** Months counted from March: a valid date lies before the start of the next month, or of the next year. */
  lemma WithinMonth(d: CivilDate)
    requires ValidDate(d)
    ensures MarchMonth(d) < 11 ==> MonthStart(MarchMonth(d)) + d.day <= MonthStart(MarchMonth(d) + 1)
    ensures YearStart(MarchYear(d)) + MonthStart(MarchMonth(d)) + d.day <= YearStart(MarchYear(d) + 1)
  {
    YearLength(MarchYear(d));
    if d.month != 2 {
      MonthLength(d);
      DayNumberParts(d);
    }
  }

  lemma MonthsAdvance(m: int, n: int)
    requires 0 <= m < n <= 11
    ensures MonthStart(m + 1) <= MonthStart(n)
  {
  }

  /** Day numbers order dates as the calendar does. */
  lemma EarlierHasSmallerNumber(a: CivilDate, b: CivilDate)
    requires ValidDate(a) && ValidDate(b)
    ensures Earlier(a, b) <==> DayNumber(a) < DayNumber(b)
  {
    if Earlier(a, b) {
      EarlierCounts(a, b);
    } else if Earlier(b, a) {
      EarlierCounts(b, a);
    } else {
      assert a == b;
    }
  }

  lemma EarlierCounts(a: CivilDate, b: CivilDate)
    requires ValidDate(a) && ValidDate(b) && Earlier(a, b)
    ensures DayNumber(a) < DayNumber(b)
  {
    DayNumberParts(a);
    DayNumberParts(b);
    WithinMonth(a);
    if MarchYear(a) < MarchYear(b) {
      YearsAdvance(MarchYear(a), MarchYear(b));
    } else if MarchMonth(a) < MarchMonth(b) {
      MonthsAdvance(MarchMonth(a), MarchMonth(b));
    }
  }

  // ---- Date groups ------------------------------------------------------------------------------

  datatype DateGroup =
    | LongAgo | EarlierThisYear | LastMonth | EarlierThisMonth | LastWeek | EarlierThisWeek | Yesterday | Today | Unspecified

  /** The order in which the groups are declared. */
  function Rank(g: DateGroup): nat {
    match g
    case LongAgo => 0
    case EarlierThisYear => 1
    case LastMonth => 2
    case EarlierThisMonth => 3
    case LastWeek => 4
    case EarlierThisWeek => 5
    case Yesterday => 6
    case Today => 7
    case Unspecified => 8
  }

  /** Weeks begin on Monday; day 0 is a Thursday. */
  function WeekStart(today: int): int {
    today - (today + 3) % 7
  }

  function ByMonth(item: CivilDate, today: CivilDate): DateGroup {
    if item.year == today.year && item.month == today.month then EarlierThisMonth
    else
      var (previousYear, previousMonth) := if today.month == 1 then (today.year - 1, 12) else (today.year, today.month - 1);
      if item.year == previousYear && item.month == previousMonth then LastMonth
      else if item.year == today.year then EarlierThisYear
      else LongAgo
  }

  /** The group by day numbers alone, and `older` for days before last week. */
  function ByDay(item: int, today: int, older: DateGroup): DateGroup {
    if item == today then Today
    else if item > today then Unspecified
    else if item == today - 1 then Yesterday
    else if item >= WeekStart(today) then EarlierThisWeek
    else if item >= WeekStart(today) - 7 then LastWeek
    else older
  }

  function Classify(item: CivilDate, today: CivilDate): DateGroup {
    ByDay(DayNumber(item), DayNumber(today), ByMonth(item, today))
  }

  lemma ByMonthMonotone(a: CivilDate, b: CivilDate, today: CivilDate)
    requires ValidDate(a) && ValidDate(b) && ValidDate(today)
    requires !Earlier(b, a) && Earlier(b, today)
    ensures Rank(ByMonth(a, today)) <= Rank(ByMonth(b, today))
  {
  }

  lemma ByMonthRank(a: CivilDate, today: CivilDate)
    ensures Rank(ByMonth(a, today)) <= 3
  {
  }

  lemma ByDayMonotone(a: int, b: int, today: int, olderA: DateGroup, olderB: DateGroup)
    requires a <= b && Rank(olderA) <= 3 && Rank(olderB) <= 3 && (b < today ==> Rank(olderA) <= Rank(olderB))
    ensures Rank(ByDay(a, today, olderA)) <= Rank(ByDay(b, today, olderB))
    ensures today < b <==> ByDay(b, today, olderB) == Unspecified
  {
  }

  /** A later date is never in an earlier group; exactly the dates after today are in the last group. */
  lemma ClassifyMonotone(a: CivilDate, b: CivilDate, today: CivilDate)
    requires ValidDate(a) && ValidDate(b) && ValidDate(today) && !Earlier(b, a)
    ensures Rank(Classify(a, today)) <= Rank(Classify(b, today))
    ensures Earlier(today, b) <==> Classify(b, today) == Unspecified
  {
    EarlierHasSmallerNumber(b, a);
    EarlierHasSmallerNumber(today, b);
    EarlierHasSmallerNumber(b, today);
    ByMonthRank(a, today);
    ByMonthRank(b, today);
    if Earlier(b, today) {
      ByMonthMonotone(a, b, today);
    }
    ByDayMonotone(DayNumber(a), DayNumber(b), DayNumber(today), ByMonth(a, today), ByMonth(b, today));
  }

  /** Weeks counted from Monday, as day 0 is a Thursday. */
  function WeekOf(day: int): int {
    (day + 3) / 7
  }

  /** Weeks change exactly on Mondays, such as 1 January 2024. */
  lemma WeeksStartOnMondays(day: int)
    ensures WeekOf(day) == WeekOf(day - 1) + if (day - DayNumber(CivilDate(2024, 1, 1))) % 7 == 0 then 1 else 0
    ensures WeekStart(day) <= day < WeekStart(day) + 7 && WeekOf(WeekStart(day)) == WeekOf(day)
    ensures (WeekStart(day) - DayNumber(CivilDate(2024, 1, 1))) % 7 == 0
  {
    assert DayNumber(CivilDate(2024, 1, 1)) == 19723;
  }

  /** Months counted through the years. */
  function MonthIndex(d: CivilDate): int {
    d.year * 12 + d.month
  }

  lemma ByDayMeans(item: int, today: int, older: DateGroup)
    requires Rank(older) <= 3
    ensures ByDay(item, today, older) == Today <==> item == today
    ensures ByDay(item, today, older) == Yesterday <==> item + 1 == today
    ensures ByDay(item, today, older) == EarlierThisWeek <==> item + 1 < today && WeekOf(item) == WeekOf(today)
    ensures ByDay(item, today, older) == LastWeek <==> item + 1 < today && WeekOf(item) == WeekOf(today) - 1
    ensures item <= today && WeekOf(item) < WeekOf(today) - 1 ==> ByDay(item, today, older) == older
  {
  }

  lemma OlderIsEarlier(item: CivilDate, today: CivilDate)
    requires ValidDate(item) && ValidDate(today) && Earlier(item, today)
    ensures ByMonth(item, today) == EarlierThisMonth <==> MonthIndex(item) == MonthIndex(today)
    ensures ByMonth(item, today) == LastMonth <==> MonthIndex(item) == MonthIndex(today) - 1
    ensures ByMonth(item, today) == EarlierThisYear <==> MonthIndex(item) < MonthIndex(today) - 1 && item.year == today.year
    ensures ByMonth(item, today) == LongAgo <==> MonthIndex(item) < MonthIndex(today) - 1 && item.year < today.year
  {
  }

  lemma YesterdayIsNextDay(item: CivilDate, today: CivilDate)
    requires ValidDate(item) && ValidDate(today)
    ensures DayNumber(item) + 1 == DayNumber(today) <==> NextDay(item) == today
    ensures DayNumber(item) == DayNumber(today) <==> item == today
  {
    NextDayNumber(item);
    EarlierHasSmallerNumber(NextDay(item), today);
    EarlierHasSmallerNumber(today, NextDay(item));
    EarlierHasSmallerNumber(item, today);
    EarlierHasSmallerNumber(today, item);
  }

  /** What each group means, in terms of the calendar. */
  lemma ClassifyMeans(item: CivilDate, today: CivilDate)
    requires ValidDate(item) && ValidDate(today)
    ensures Classify(item, today) == Today <==> item == today
    ensures Classify(item, today) == Yesterday <==> NextDay(item) == today
    ensures Classify(item, today) == EarlierThisWeek <==>
      DayNumber(item) + 1 < DayNumber(today) && WeekOf(DayNumber(item)) == WeekOf(DayNumber(today))
    ensures Classify(item, today) == LastWeek <==>
      DayNumber(item) + 1 < DayNumber(today) && WeekOf(DayNumber(item)) == WeekOf(DayNumber(today)) - 1
    ensures Earlier(item, today) && WeekOf(DayNumber(item)) < WeekOf(DayNumber(today)) - 1 ==>
      && (Classify(item, today) == EarlierThisMonth <==> MonthIndex(item) == MonthIndex(today))
      && (Classify(item, today) == LastMonth <==> MonthIndex(item) == MonthIndex(today) - 1)
      && (Classify(item, today) == EarlierThisYear <==> MonthIndex(item) < MonthIndex(today) - 1 && item.year == today.year)
      && (Classify(item, today) == LongAgo <==> MonthIndex(item) < MonthIndex(today) - 1 && item.year < today.year)
  {
    ByMonthRank(item, today);
    ByDayMeans(DayNumber(item), DayNumber(today), ByMonth(item, today));
    YesterdayIsNextDay(item, today);
    if Earlier(item, today) {
      EarlierHasSmallerNumber(item, today);
      OlderIsEarlier(item, today);
    }
  }

  const EPOCH := CivilDate(1970, 1, 1)

  lemma Epoch()
    ensures DayNumber(EPOCH) == 0
  {
  }

  /** The date `n` days later, day by day. */
  function DaysAfter(d: CivilDate, n: nat): CivilDate {
    if n == 0 then d else NextDay(DaysAfter(d, n - 1))
  }

  lemma {:induction false} DaysAfterCount(d: CivilDate, n: nat)
    requires ValidDate(d)
    ensures ValidDate(DaysAfter(d, n)) && DayNumber(DaysAfter(d, n)) == DayNumber(d) + n
  {
    if n > 0 {
      DaysAfterCount(d, n - 1);
      NextDayNumber(DaysAfter(d, n - 1));
    }
  }

  /** The day number counts the days from 1 January 1970 to a date, or backwards from a date to it. */
  lemma DayNumberCounts(d: CivilDate)
    requires ValidDate(d)
    ensures DayNumber(d) >= 0 ==> d == DaysAfter(EPOCH, DayNumber(d))
    ensures DayNumber(d) <= 0 ==> EPOCH == DaysAfter(d, -DayNumber(d))
  {
    Epoch();
    if DayNumber(d) >= 0 {
      DaysAfterCount(EPOCH, DayNumber(d));
      SameNumberSameDate(d, DaysAfter(EPOCH, DayNumber(d)));
    }
    if DayNumber(d) <= 0 {
      DaysAfterCount(d, -DayNumber(d));
      SameNumberSameDate(EPOCH, DaysAfter(d, -DayNumber(d)));
    }
  }

  lemma SameNumberSameDate(a: CivilDate, b: CivilDate)
    requires ValidDate(a) && ValidDate(b) && DayNumber(a) == DayNumber(b)
    ensures a == b
  {
    EarlierHasSmallerNumber(a, b);
    EarlierHasSmallerNumber(b, a);
  }
}
