/**
  Factory-timezone resolution of reviewed time phrases, and the single redline a proposed range
  must pass. Days are proleptic Gregorian ordinals (the first of January of year 1 is day 1), and a
  zone is a fixed offset from UTC in seconds.
*/
module Calendar {
  import opened Wrappers

  datatype Date = Date(year: int, month: int, day: int)

  predicate Leap(year: int) { year % 4 == 0 && (year % 100 != 0 || year % 400 == 0) }

  function DaysIn(year: int, month: int): int {
    if month == 2 then (if Leap(year) then 29 else 28)
    else if month == 4 || month == 6 || month == 9 || month == 11 then 30
    else 31
  }

  predicate Valid(d: Date) { 1 <= d.year <= 9999 && 1 <= d.month <= 12 && 1 <= d.day <= DaysIn(d.year, d.month) }

  function YearDays(year: int): int { if Leap(year) then 366 else 365 }

  /** Days before the first of January; year 0 only serves to lie before the calendar. */
  function BeforeYear(year: nat): int {
    if year == 0 then -366 else BeforeYear(year - 1) + YearDays(year - 1)
  }

  /** Days of the first `months` months of a year. */
  function Elapsed(year: int, months: nat): int {
    if months == 0 then 0 else Elapsed(year, months - 1) + DaysIn(year, months)
  }

  function Ordinal(d: Date): int
    requires 0 <= d.year && 1 <= d.month
  {
    BeforeYear(d.year) + Elapsed(d.year, d.month - 1) + d.day
  }

  function Weekday(ordinal: int): int { (ordinal + 6) % 7 }

  const FirstDay := 1

  /** The thirty-first of December 9999. */
  const LastDay := 3652059

  /** The first of a month, and the moves between such dates. */
  type First = d: Date | 0 <= d.year && 1 <= d.month <= 12 && d.day == 1 witness Date(1, 1, 1)

  function AddMonth(d: First): First {
    if d.month == 12 then Date(d.year + 1, 1, 1) else Date(d.year, d.month + 1, 1)
  }

  function SubtractMonth(d: First): First
    requires d.year >= 1 || d.month > 1
  {
    if d.month == 1 then Date(d.year - 1, 12, 1) else Date(d.year, d.month - 1, 1)
  }

  // ---------------------------------------------------------------- phrases

  datatype Phrase =
    | Today | Yesterday | DayBeforeYesterday
    | ThisWeek | LastWeek
    | ThisMonth | LastMonth
    | ThisQuarter | LastQuarter
    | ThisYear | LastYear
    | BareMonth(month: int)
    | RecentDays(days: nat)

  datatype Failure = NotAMonth | NotPositive | OutOfCalendar

  /** A half-open range of local days. */
  datatype Days = Days(start: int, end: int)

  predicate Supported(phrase: Phrase) {
    && (phrase.BareMonth? ==> 1 <= phrase.month <= 12)
    && (phrase.RecentDays? ==> 1 <= phrase.days)
  }

  function MonthOf(d: Date): First
    requires Valid(d)
  {
    Date(d.year, d.month, 1)
  }

  function QuarterOf(d: Date): First
    requires Valid(d)
  {
    Date(d.year, (d.month - 1) / 3 * 3 + 1, 1)
  }

  /** The bare month of this year if it has started, otherwise of the year before. */
  function LatestMonth(month: int, today: Date): First
    requires Valid(today) && 1 <= month <= 12
  {
    if Ordinal(Date(today.year, month, 1)) > Ordinal(today) then Date(today.year - 1, month, 1)
    else Date(today.year, month, 1)
  }

  function Between(start: First, end: First): Days { Days(Ordinal(start), Ordinal(end)) }

  function Range(phrase: Phrase, today: Date): Days
    requires Valid(today) && Supported(phrase)
  {
    var t := Ordinal(today);
    match phrase
    case Today => Days(t, t + 1)
    case Yesterday => Days(t - 1, t)
    case DayBeforeYesterday => Days(t - 2, t - 1)
    case ThisWeek => Days(t - Weekday(t), t - Weekday(t) + 7)
    case LastWeek => Days(t - Weekday(t) - 7, t - Weekday(t))
    case ThisMonth => Between(MonthOf(today), AddMonth(MonthOf(today)))
    case LastMonth => Between(SubtractMonth(MonthOf(today)), MonthOf(today))
    case ThisQuarter => var q := QuarterOf(today); Between(q, AddMonth(AddMonth(AddMonth(q))))
    case LastQuarter => var q := QuarterOf(today); Between(SubtractMonth(SubtractMonth(SubtractMonth(q))), q)
    case ThisYear => Between(Date(today.year, 1, 1), Date(today.year + 1, 1, 1))
    case LastYear => Between(Date(today.year - 1, 1, 1), Date(today.year, 1, 1))
    case BareMonth(month) => var m := LatestMonth(month, today); Between(m, AddMonth(m))
    case RecentDays(days) => Days(t + 1 - days, t + 1)
  }

  function ToUtc(day: int, offset: int): int { day * 86400 - offset }

  /** Offsets of zones are less than a day. */
  predicate Zone(offset: int) { -86400 < offset < 86400 }

  /** A date, and the instant in UTC at which it begins in the zone, must lie in the years 1 to 9999. */
  predicate Formable(day: int, offset: int) {
    FirstDay <= day <= LastDay && FirstDay * 86400 <= ToUtc(day, offset) < (LastDay + 1) * 86400
  }

  function Resolve(phrase: Phrase, today: Date, offset: int): Result<Days, Failure>
    requires Valid(today)
  {
    if phrase.BareMonth? && !(1 <= phrase.month <= 12) then Err(NotAMonth)
    else if phrase.RecentDays? && phrase.days < 1 then Err(NotPositive)
    else
      var days := Range(phrase, today);
      if Formable(days.start, offset) && Formable(days.end, offset) then Ok(days) else Err(OutOfCalendar)
  }

  // ---------------------------------------------------------------- the redline

  datatype Violation = Empty | TooLong | Future

  function LocalDay(instant: int, offset: int): int { (instant + offset) / 86400 }

  /** The limit is the day after tomorrow, which must be a date. */
  function RangeViolation(start: int, end: int, maxDays: nat, now: int, offset: int)
    : Result<Option<Violation>, Failure> {
    if start >= end then Ok(Some(Empty))
    else if end - start > maxDays * 86400 then Ok(Some(TooLong))
    else
      var limit := LocalDay(now, offset) + 2;
      if !Formable(limit, offset) then Err(OutOfCalendar)
      else if start >= ToUtc(limit, offset) then Ok(Some(Future))
      else Ok(None)
  }

  // ---------------------------------------------------------------- calendar arithmetic

  lemma YearStep(year: nat)
    ensures BeforeYear(year + 1) == BeforeYear(year) + YearDays(year)
  {
  }

  lemma {:induction false} ElapsedGrows(year: int, a: nat, b: nat)
    requires a <= b
    ensures Elapsed(year, a) + 28 * (b - a) <= Elapsed(year, b) <= Elapsed(year, a) + 31 * (b - a)
  {
    if a < b {
      ElapsedGrows(year, a, b - 1);
    }
  }

  lemma TwelveMonths(year: int)
    ensures Elapsed(year, 12) == YearDays(year)
  {
    assert Elapsed(year, 1) == 31;
    assert Elapsed(year, 3) == 62 + DaysIn(year, 2);
    assert Elapsed(year, 5) == Elapsed(year, 3) + 61;
    assert Elapsed(year, 7) == Elapsed(year, 5) + 61;
    assert Elapsed(year, 9) == Elapsed(year, 7) + 61;
    assert Elapsed(year, 11) == Elapsed(year, 9) + 61;
  }

  /** The next month starts when this one's days are over. */
  lemma MonthStep(d: First)
    ensures Ordinal(AddMonth(d)) == Ordinal(d) + DaysIn(d.year, d.month)
  {
    if d.month == 12 {
      TwelveMonths(d.year);
      YearStep(d.year);
    }
  }

  lemma BackStep(d: First)
    requires d.year >= 1 || d.month > 1
    ensures AddMonth(SubtractMonth(d)) == d
    ensures Ordinal(d) - 31 <= Ordinal(SubtractMonth(d)) <= Ordinal(d) - 28
  {
    MonthStep(SubtractMonth(d));
  }

  lemma TodayInMonth(today: Date)
    requires Valid(today)
    ensures Ordinal(MonthOf(today)) <= Ordinal(today) < Ordinal(AddMonth(MonthOf(today)))
  {
    MonthStep(MonthOf(today));
  }

  lemma MonthsOfYear(year: nat, a: int, b: int)
    requires 1 <= a <= b <= 12
    ensures Ordinal(Date(year, a, 1)) <= Ordinal(Date(year, b, 1)) < Ordinal(Date(year + 1, 1, 1))
  {
    ElapsedGrows(year, a - 1, b - 1);
    ElapsedGrows(year, b - 1, 12);
    TwelveMonths(year);
    YearStep(year);
  }

  /** The quarter is three consecutive months of the year, one of them today's. */
  lemma QuarterShape(today: Date)
    requires Valid(today)
    ensures var q := QuarterOf(today).month;
            1 <= q <= 10 && (today.month == q || today.month == q + 1 || today.month == q + 2)
  {
  }

  // ---------------------------------------------------------------- laws of the phrases

  predicate Contains(days: Days, t: int) { days.start <= t < days.end }

  predicate Inside(inner: Days, outer: Days) { outer.start <= inner.start && inner.end <= outer.end }

  lemma QuarterEnd(q: First)
    requires q.month <= 10
    ensures AddMonth(AddMonth(AddMonth(q))) ==
            (if q.month == 10 then Date(q.year + 1, 1, 1) else Date(q.year, q.month + 3, 1))
  {
  }

  lemma MonthInQuarter(today: Date)
    requires Valid(today)
    ensures Inside(Range(ThisMonth, today), Range(ThisQuarter, today))
  {
    var first := QuarterOf(today);
    var second := AddMonth(first);
    var third := AddMonth(second);
    MonthStep(first);
    MonthStep(second);
    MonthStep(third);
    QuarterShape(today);
    assert MonthOf(today) == first || MonthOf(today) == second || MonthOf(today) == third;
  }

  lemma QuarterInYear(today: Date)
    requires Valid(today)
    ensures Inside(Range(ThisQuarter, today), Range(ThisYear, today))
  {
    var q := QuarterOf(today);
    QuarterShape(today);
    QuarterEnd(q);
    MonthsOfYear(today.year, 1, q.month);
    if q.month < 10 {
      MonthsOfYear(today.year, 1, q.month + 3);
    }
  }

  /** Today lies in its week and its month, its month in its quarter, its quarter in its year. */
  lemma PeriodsNest(today: Date)
    requires Valid(today)
    ensures Contains(Range(Today, today), Ordinal(today))
    ensures Contains(Range(ThisWeek, today), Ordinal(today))
    ensures Contains(Range(ThisMonth, today), Ordinal(today))
    ensures Inside(Range(ThisMonth, today), Range(ThisQuarter, today))
    ensures Inside(Range(ThisQuarter, today), Range(ThisYear, today))
  {
    TodayInMonth(today);
    MonthInQuarter(today);
    QuarterInYear(today);
  }

  /** The phrase naming the period before, for each phrase that names a current period. */
  function Previous(phrase: Phrase): Option<Phrase> {
    match phrase
    case Today => Some(Yesterday)
    case Yesterday => Some(DayBeforeYesterday)
    case ThisWeek => Some(LastWeek)
    case ThisMonth => Some(LastMonth)
    case ThisQuarter => Some(LastQuarter)
    case ThisYear => Some(LastYear)
    case _ => None
  }

  /** A previous period is not empty and ends exactly where the current one starts. */
  lemma PreviousAdjoins(phrase: Phrase, today: Date)
    requires Valid(today) && Previous(phrase).Some?
    ensures var before := Range(Previous(phrase).value, today);
            before.start < before.end == Range(phrase, today).start
  {
    match phrase
    case ThisMonth => BackStep(MonthOf(today));
    case ThisQuarter => ThreeBack(QuarterOf(today));
    case ThisYear => YearStep(today.year - 1);
    case _ =>
  }

  lemma ThreeBack(q: First)
    requires q.year >= 1
    ensures Ordinal(q) - 93 <= Ordinal(SubtractMonth(SubtractMonth(SubtractMonth(q)))) <= Ordinal(q) - 84
  {
    BackStep(q);
    BackStep(SubtractMonth(q));
    BackStep(SubtractMonth(SubtractMonth(q)));
  }

  lemma ThreeOn(q: First)
    ensures Ordinal(q) + 84 <= Ordinal(AddMonth(AddMonth(AddMonth(q)))) <= Ordinal(q) + 93
  {
    MonthStep(q);
    MonthStep(AddMonth(q));
    MonthStep(AddMonth(AddMonth(q)));
  }

  lemma MonthBefore(month: int, today: Date)
    requires Valid(today) && 1 <= month <= 12
    ensures Ordinal(today) < Ordinal(Date(today.year + 1, month, 1))
    ensures Ordinal(Date(today.year - 1, month, 1)) <= Ordinal(today)
  {
    TodayInYear(today);
    MonthsOfYear(today.year + 1, 1, month);
    MonthsOfYear(today.year - 1, month, 12);
  }

  lemma LatestBounds(month: int, today: Date)
    requires Valid(today) && 1 <= month <= 12
    ensures var m := LatestMonth(month, today);
            m.month == month && Ordinal(m) <= Ordinal(today) < Ordinal(Date(m.year + 1, month, 1))
  {
    MonthBefore(month, today);
  }

  /** A bare month is its latest occurrence that starts by today. */
  lemma BareMonthIsLatest(month: int, today: Date)
    requires Valid(today) && 1 <= month <= 12
    ensures var m := LatestMonth(month, today);
            && m.month == month
            && Range(BareMonth(month), today) == Days(Ordinal(m), Ordinal(m) + DaysIn(m.year, month))
            && Ordinal(m) <= Ordinal(today) < Ordinal(Date(m.year + 1, month, 1))
  {
    LatestBounds(month, today);
    MonthStep(LatestMonth(month, today));
  }

  lemma TodayInYear(today: Date)
    requires Valid(today)
    ensures Ordinal(Date(today.year, 1, 1)) <= Ordinal(today) < Ordinal(Date(today.year + 1, 1, 1))
  {
    PeriodsNest(today);
  }

  /** Every phrase but "the last n days" is a range of 1 to 366 days that starts by today and at most 732 days ago. */
  lemma NamedRange(phrase: Phrase, today: Date)
    requires Valid(today) && !phrase.RecentDays? && Supported(phrase)
    ensures var days := Range(phrase, today);
            Ordinal(today) - 732 <= days.start <= Ordinal(today) && 1 <= days.end - days.start <= 366
  {
    match phrase
    case ThisMonth => MonthRanges(today);
    case LastMonth => MonthRanges(today);
    case ThisQuarter => QuarterRanges(today);
    case LastQuarter => QuarterRanges(today);
    case ThisYear => ThisYearRange(today);
    case LastYear => LastYearRange(today);
    case BareMonth(month) => BareMonthSpan(month, today);
    case _ =>
  }

  predicate Named(days: Days, t: int) { t - 732 <= days.start <= t && 1 <= days.end - days.start <= 366 }

  lemma MonthRanges(today: Date)
    requires Valid(today)
    ensures Named(Range(ThisMonth, today), Ordinal(today)) && Named(Range(LastMonth, today), Ordinal(today))
  {
    TodayInMonth(today);
    MonthStep(MonthOf(today));
    BackStep(MonthOf(today));
  }

  lemma QuarterRanges(today: Date)
    requires Valid(today)
    ensures Named(Range(ThisQuarter, today), Ordinal(today)) && Named(Range(LastQuarter, today), Ordinal(today))
  {
    PeriodsNest(today);
    ThreeOn(QuarterOf(today));
    ThreeBack(QuarterOf(today));
  }

  lemma YearLength(year: nat)
    ensures Ordinal(Date(year, 1, 1)) + 365 <= Ordinal(Date(year + 1, 1, 1)) <= Ordinal(Date(year, 1, 1)) + 366
  {
    YearStep(year);
  }

  lemma ThisYearRange(today: Date)
    requires Valid(today)
    ensures Named(Range(ThisYear, today), Ordinal(today))
  {
    TodayInYear(today);
    YearLength(today.year);
  }

  lemma LastYearRange(today: Date)
    requires Valid(today)
    ensures Named(Range(LastYear, today), Ordinal(today))
  {
    ThisYearRange(today);
    TodayInYear(today);
    YearLength(today.year - 1);
  }

  lemma BareMonthSpan(month: int, today: Date)
    requires Valid(today) && 1 <= month <= 12
    ensures Named(Range(BareMonth(month), today), Ordinal(today))
  {
    BareMonthIsLatest(month, today);
    StartsWithinYears(LatestMonth(month, today), today);
  }

  lemma StartsWithinYears(m: First, today: Date)
    requires Valid(today) && (m.year == today.year || m.year == today.year - 1)
    ensures Ordinal(today) - 732 <= Ordinal(m)
  {
    MonthsOfYear(m.year, 1, m.month);
    if m.year < today.year {
      LastYearRange(today);
    } else {
      ThisYearRange(today);
    }
  }

  lemma DivisionStep(n: int)
    ensures n / 4 == (n - 1) / 4 + (if n % 4 == 0 then 1 else 0)
    ensures n / 100 == (n - 1) / 100 + (if n % 100 == 0 then 1 else 0)
    ensures n / 400 == (n - 1) / 400 + (if n % 400 == 0 then 1 else 0)
  {
  }

  lemma CenturyOfFour(n: int)
    requires n % 400 == 0
    ensures n % 100 == 0
  {
    var k := n / 400;
    assert n == 100 * (4 * k);
  }

  lemma FourOfCentury(n: int)
    requires n % 100 == 0
    ensures n % 4 == 0
  {
    var k := n / 100;
    assert n == 4 * (25 * k);
  }

  /** The closed form of the days before a year. */
  lemma {:induction false} BeforeYearFormula(year: nat)
    requires year >= 1
    ensures BeforeYear(year) == 365 * (year - 1) + (year - 1) / 4 - (year - 1) / 100 + (year - 1) / 400
  {
    YearStep(year - 1);
    if year > 1 {
      BeforeYearFormula(year - 1);
      DivisionStep(year - 1);
      if (year - 1) % 400 == 0 {
        CenturyOfFour(year - 1);
      }
      if (year - 1) % 100 == 0 {
        FourOfCentury(year - 1);
      }
    }
  }

  // ---------------------------------------------------------------- the ends of the calendar

  lemma {:induction false} YearsGrow(a: nat, b: nat)
    requires a <= b
    ensures BeforeYear(a) <= BeforeYear(b)
  {
    if a < b {
      YearsGrow(a, b - 1);
      YearStep(b - 1);
    }
  }

  lemma CalendarEnds()
    ensures BeforeYear(1) == 0 && BeforeYear(2) == 365
    ensures BeforeYear(9999) == 3651694 && BeforeYear(10000) == LastDay
  {
    BeforeYearFormula(9999);
    BeforeYearFormula(10000);
  }

  lemma NewYear(year: nat)
    ensures Ordinal(Date(year, 1, 1)) == BeforeYear(year) + 1
  {
  }

  lemma FirstNotBefore(f: First)
    requires 1 <= f.year
    ensures FirstDay <= Ordinal(f)
  {
    CalendarEnds();
    YearsGrow(1, f.year);
    MonthsOfYear(f.year, 1, f.month);
    NewYear(f.year);
  }

  lemma FirstNotAfter(f: First)
    requires f.year <= 9999
    ensures Ordinal(f) <= LastDay
  {
    CalendarEnds();
    YearsGrow(f.year + 1, 10000);
    MonthsOfYear(f.year, 1, f.month);
    NewYear(f.year + 1);
  }

  lemma FirstOutside(f: First)
    ensures f.year == 0 ==> Ordinal(f) < FirstDay
    ensures f.year == 10000 ==> LastDay < Ordinal(f)
  {
    CalendarEnds();
    MonthsOfYear(f.year, 1, f.month);
    NewYear(f.year);
    NewYear(f.year + 1);
  }

  predicate InCalendar(days: Days) { FirstDay <= days.start && days.end <= LastDay }

  /** A range between firsts of months is in the calendar exactly when their years are. */
  lemma MonthsInCalendar(start: First, end: First)
    requires start.year <= 9999 && end.year <= 10000
    ensures InCalendar(Between(start, end)) <==> 1 <= start.year && end.year <= 9999
  {
    FirstOutside(start);
    FirstOutside(end);
    if 1 <= start.year {
      FirstNotBefore(start);
    }
    if end.year <= 9999 {
      FirstNotAfter(end);
    }
  }

  lemma AfterFirstYear(today: Date)
    requires Valid(today) && today.year >= 2
    ensures Ordinal(today) >= 366
  {
    CalendarEnds();
    TodayInYear(today);
    YearsGrow(2, today.year);
    NewYear(today.year);
  }

  lemma InFirstYear(today: Date)
    requires Valid(today) && today.year == 1
    ensures today.month == 1 ==> Ordinal(today) == today.day
    ensures today.month > 1 ==> Ordinal(today) >= 29
  {
    CalendarEnds();
    ElapsedGrows(1, 0, today.month - 1);
  }

  /** The first days of the calendar. */
  lemma EarlyDays(today: Date, k: int)
    requires Valid(today) && 0 <= k <= 28
    ensures FirstDay <= Ordinal(today)
    ensures Ordinal(today) <= k <==> today.year == 1 && today.month == 1 && today.day <= k
  {
    if today.year == 1 {
      InFirstYear(today);
    } else {
      AfterFirstYear(today);
    }
  }

  /** The last days of the calendar. */
  lemma LateDays(today: Date, k: int)
    requires Valid(today) && 0 <= k <= 28
    ensures Ordinal(today) <= LastDay
    ensures Ordinal(today) > LastDay - k <==> today.year == 9999 && today.month == 12 && today.day > 31 - k
  {
    if today.year < 9999 {
      BeforeLastYear(today);
    } else {
      InLastYear(today);
    }
  }

  lemma BeforeLastYear(today: Date)
    requires Valid(today) && today.year < 9999
    ensures Ordinal(today) <= LastDay - 365
  {
    CalendarEnds();
    TodayInYear(today);
    YearsGrow(today.year + 1, 9999);
    NewYear(today.year + 1);
  }

  lemma InLastYear(today: Date)
    requires Valid(today) && today.year == 9999
    ensures today.month < 12 ==> Ordinal(today) <= LastDay - 31
    ensures today.month == 12 ==> Ordinal(today) == LastDay - 31 + today.day
  {
    CalendarEnds();
    TwelveMonths(9999);
    TodayInMonth(today);
    if today.month < 12 {
      ElapsedGrows(9999, today.month, 11);
    }
  }

  /** The bare month of this year has started exactly from the month on. */
  lemma LatestYear(month: int, today: Date)
    requires Valid(today) && 1 <= month <= 12
    ensures LatestMonth(month, today) == Date(if month <= today.month then today.year else today.year - 1, month, 1)
  {
    TodayInMonth(today);
    if month <= today.month {
      MonthsOfYear(today.year, month, today.month);
    } else {
      assert AddMonth(MonthOf(today)) == Date(today.year, today.month + 1, 1);
      MonthsOfYear(today.year, today.month + 1, month);
    }
  }

  /** The days on which the range of a reviewed phrase lies in the calendar: all but a few at either end. */
  predicate Resolvable(phrase: Phrase, today: Date) {
    var firstMonth, lastMonth := today.year == 1 && today.month == 1, today.year == 9999 && today.month == 12;
    match phrase
    case Today => !(lastMonth && today.day == 31)
    case Yesterday => !(firstMonth && today.day == 1)
    case DayBeforeYesterday => !(firstMonth && today.day <= 2)
    case ThisWeek => !(lastMonth && today.day >= 27)
    case LastWeek => !(firstMonth && today.day <= 7)
    case ThisMonth => !lastMonth
    case LastMonth => !firstMonth
    case ThisQuarter => !(today.year == 9999 && today.month >= 10)
    case LastQuarter => !(today.year == 1 && today.month <= 3)
    case ThisYear => today.year != 9999
    case LastYear => today.year != 1
    case BareMonth(month) => !(lastMonth && month == 12) && !(today.year == 1 && month > today.month)
    case RecentDays(_) => true
  }

  lemma DaysResolve(phrase: Phrase, today: Date)
    requires Valid(today) && (phrase.Today? || phrase.Yesterday? || phrase.DayBeforeYesterday?)
    ensures InCalendar(Range(phrase, today)) <==> Resolvable(phrase, today)
  {
    EarlyDays(today, 1);
    EarlyDays(today, 2);
    LateDays(today, 1);
  }

  /** The calendar begins on a Monday and ends on a Friday. */
  lemma WeeksResolve(phrase: Phrase, today: Date)
    requires Valid(today) && (phrase.ThisWeek? || phrase.LastWeek?)
    ensures InCalendar(Range(phrase, today)) <==> Resolvable(phrase, today)
  {
    EarlyDays(today, 7);
    LateDays(today, 5);
    WeekBounds(Ordinal(today));
  }

  lemma WeekBounds(t: int)
    requires FirstDay <= t <= LastDay
    ensures FirstDay <= t - Weekday(t) && (FirstDay <= t - Weekday(t) - 7 <==> t > 7)
    ensures t - Weekday(t) + 7 <= LastDay <==> t <= LastDay - 5
  {
  }

  lemma MonthsResolve(phrase: Phrase, today: Date)
    requires Valid(today) && (phrase.ThisMonth? || phrase.LastMonth? || phrase.ThisYear? || phrase.LastYear?)
    ensures InCalendar(Range(phrase, today)) <==> Resolvable(phrase, today)
  {
    var m := MonthOf(today);
    match phrase
    case ThisMonth => MonthsInCalendar(m, AddMonth(m));
    case LastMonth => MonthsInCalendar(SubtractMonth(m), m);
    case ThisYear => MonthsInCalendar(Date(today.year, 1, 1), Date(today.year + 1, 1, 1));
    case LastYear => MonthsInCalendar(Date(today.year - 1, 1, 1), Date(today.year, 1, 1));
  }

  lemma QuarterMonth(today: Date)
    requires Valid(today)
    ensures QuarterOf(today).year == today.year
    ensures QuarterOf(today).month == if today.month <= 3 then 1 else if today.month <= 6 then 4
            else if today.month <= 9 then 7 else 10
  {
  }

  lemma QuarterStart(q: First)
    requires q.year >= 1
    ensures SubtractMonth(SubtractMonth(SubtractMonth(q))).year == if q.month <= 3 then q.year - 1 else q.year
  {
  }

  lemma ThisQuarterResolves(today: Date)
    requires Valid(today)
    ensures InCalendar(Range(ThisQuarter, today)) <==> Resolvable(ThisQuarter, today)
  {
    var q := QuarterOf(today);
    QuarterMonth(today);
    QuarterEnd(q);
    MonthsInCalendar(q, AddMonth(AddMonth(AddMonth(q))));
  }

  lemma LastQuarterResolves(today: Date)
    requires Valid(today)
    ensures InCalendar(Range(LastQuarter, today)) <==> Resolvable(LastQuarter, today)
  {
    var q := QuarterOf(today);
    QuarterMonth(today);
    QuarterStart(q);
    MonthsInCalendar(SubtractMonth(SubtractMonth(SubtractMonth(q))), q);
  }

  lemma BareMonthResolves(month: int, today: Date)
    requires Valid(today) && 1 <= month <= 12
    ensures InCalendar(Range(BareMonth(month), today)) <==> Resolvable(BareMonth(month), today)
  {
    LatestYear(month, today);
    var m := LatestMonth(month, today);
    MonthsInCalendar(m, AddMonth(m));
  }

  /** A range that starts on the very first day cannot be put into UTC from a zone ahead of it. */
  lemma EndsAreFormable(days: Days, offset: int)
    requires Zone(offset) && days.start < days.end
    ensures Formable(days.start, offset) && Formable(days.end, offset) <==>
            InCalendar(days) && !(days.start == FirstDay && offset > 0)
  {
  }

  /** The days on which the range of a phrase starts on the first day of the calendar. */
  predicate StartsFirst(phrase: Phrase, today: Date) {
    var firstYear, firstMonth := today.year == 1, today.year == 1 && today.month == 1;
    match phrase
    case Today => firstMonth && today.day == 1
    case Yesterday => firstMonth && today.day == 2
    case DayBeforeYesterday => firstMonth && today.day == 3
    case ThisWeek => firstMonth && today.day <= 7
    case LastWeek => firstMonth && 8 <= today.day <= 14
    case ThisMonth => firstMonth
    case LastMonth => firstYear && today.month == 2
    case ThisQuarter => firstYear && today.month <= 3
    case LastQuarter => firstYear && 4 <= today.month <= 6
    case ThisYear => firstYear
    case LastYear => today.year == 2
    case BareMonth(month) => firstYear && month == 1
    case RecentDays(_) => false
  }

  lemma FirstIsFirst(f: First)
    requires f.year >= 1
    ensures Ordinal(f) == FirstDay <==> f == Date(1, 1, 1)
  {
    if f.year == 1 {
      InFirstYear(f);
    } else {
      AfterStart(f);
    }
  }

  lemma AfterStart(f: First)
    requires f.year >= 2
    ensures Ordinal(f) > FirstDay
  {
    CalendarEnds();
    YearsGrow(2, f.year);
    MonthsOfYear(f.year, 1, f.month);
    NewYear(f.year);
  }

  lemma DaysStartFirst(phrase: Phrase, today: Date)
    requires Valid(today) && (phrase.Today? || phrase.Yesterday? || phrase.DayBeforeYesterday?)
    ensures Range(phrase, today).start == FirstDay <==> StartsFirst(phrase, today)
  {
    EarlyDays(today, 1);
    EarlyDays(today, 2);
    EarlyDays(today, 3);
  }

  lemma WeeksStartFirst(phrase: Phrase, today: Date)
    requires Valid(today) && (phrase.ThisWeek? || phrase.LastWeek?)
    ensures Range(phrase, today).start == FirstDay <==> StartsFirst(phrase, today)
  {
    EarlyDays(today, 7);
    EarlyDays(today, 14);
    FirstWeeks(Ordinal(today));
  }

  lemma FirstWeeks(t: int)
    requires FirstDay <= t
    ensures t - Weekday(t) == FirstDay <==> t <= 7
    ensures t - Weekday(t) - 7 == FirstDay <==> 8 <= t <= 14
  {
  }

  lemma ThisMonthStartsFirst(today: Date)
    requires Valid(today)
    ensures Range(ThisMonth, today).start == FirstDay <==> StartsFirst(ThisMonth, today)
  {
    FirstIsFirst(MonthOf(today));
  }

  lemma LastMonthStartsFirst(today: Date)
    requires Valid(today) && Resolvable(LastMonth, today)
    ensures Range(LastMonth, today).start == FirstDay <==> StartsFirst(LastMonth, today)
  {
    FirstIsFirst(SubtractMonth(MonthOf(today)));
  }

  lemma ThisYearStartsFirst(today: Date)
    requires Valid(today)
    ensures Range(ThisYear, today).start == FirstDay <==> StartsFirst(ThisYear, today)
  {
    FirstIsFirst(Date(today.year, 1, 1));
  }

  lemma LastYearStartsFirst(today: Date)
    requires Valid(today) && Resolvable(LastYear, today)
    ensures Range(LastYear, today).start == FirstDay <==> StartsFirst(LastYear, today)
  {
    FirstIsFirst(Date(today.year - 1, 1, 1));
  }

  lemma QuarterBack(q: First)
    requires q.year >= 1
    ensures SubtractMonth(SubtractMonth(SubtractMonth(q))) == Date(1, 1, 1) <==> q == Date(1, 4, 1)
  {
  }

  lemma QuartersStartFirst(phrase: Phrase, today: Date)
    requires Valid(today) && Resolvable(phrase, today) && (phrase.ThisQuarter? || phrase.LastQuarter?)
    ensures Range(phrase, today).start == FirstDay <==> StartsFirst(phrase, today)
  {
    var q := QuarterOf(today);
    QuarterMonth(today);
    if phrase.ThisQuarter? {
      FirstIsFirst(q);
    } else {
      QuarterStart(q);
      QuarterBack(q);
      FirstIsFirst(SubtractMonth(SubtractMonth(SubtractMonth(q))));
    }
  }

  lemma BareMonthStartsFirst(month: int, today: Date)
    requires Valid(today) && 1 <= month <= 12 && Resolvable(BareMonth(month), today)
    ensures Range(BareMonth(month), today).start == FirstDay <==> StartsFirst(BareMonth(month), today)
  {
    LatestYear(month, today);
    FirstIsFirst(LatestMonth(month, today));
  }

  lemma NamedInCalendar(phrase: Phrase, today: Date)
    requires Valid(today) && !phrase.RecentDays? && Supported(phrase)
    ensures InCalendar(Range(phrase, today)) <==> Resolvable(phrase, today)
  {
    match phrase
    case Today | Yesterday | DayBeforeYesterday => DaysResolve(phrase, today);
    case ThisWeek | LastWeek => WeeksResolve(phrase, today);
    case ThisMonth | LastMonth | ThisYear | LastYear => MonthsResolve(phrase, today);
    case ThisQuarter => ThisQuarterResolves(today);
    case LastQuarter => LastQuarterResolves(today);
    case BareMonth(month) => BareMonthResolves(month, today);
  }

  lemma NamedStartsFirst(phrase: Phrase, today: Date)
    requires Valid(today) && !phrase.RecentDays? && Supported(phrase) && Resolvable(phrase, today)
    ensures Range(phrase, today).start == FirstDay <==> StartsFirst(phrase, today)
  {
    match phrase
    case Today | Yesterday | DayBeforeYesterday => DaysStartFirst(phrase, today);
    case ThisWeek | LastWeek => WeeksStartFirst(phrase, today);
    case ThisMonth => ThisMonthStartsFirst(today);
    case LastMonth => LastMonthStartsFirst(today);
    case ThisYear => ThisYearStartsFirst(today);
    case LastYear => LastYearStartsFirst(today);
    case ThisQuarter | LastQuarter => QuartersStartFirst(phrase, today);
    case BareMonth(month) => BareMonthStartsFirst(month, today);
  }

  /** The zone matters only to a range that starts on the very first day. */
  predicate ResolvableIn(phrase: Phrase, today: Date, offset: int) {
    Resolvable(phrase, today) && !(StartsFirst(phrase, today) && offset > 0)
  }

  lemma MiddleYears(phrase: Phrase, today: Date, offset: int)
    ensures 3 <= today.year <= 9998 ==> ResolvableIn(phrase, today, offset)
  {
  }

  /** What is known of the range of a phrase, in one place. */
  ghost predicate Known(days: Days, phrase: Phrase, today: Date) {
    && days.start < days.end && (InCalendar(days) <==> Resolvable(phrase, today))
    && (Resolvable(phrase, today) ==> (days.start == FirstDay <==> StartsFirst(phrase, today)))
  }

  lemma NamedIsKnown(phrase: Phrase, today: Date)
    requires Valid(today) && !phrase.RecentDays? && Supported(phrase)
    ensures Known(Range(phrase, today), phrase, today)
  {
    NamedRange(phrase, today);
    NamedInCalendar(phrase, today);
    if Resolvable(phrase, today) {
      NamedStartsFirst(phrase, today);
    }
  }

  lemma KnownFormable(days: Days, phrase: Phrase, today: Date, offset: int)
    requires Zone(offset) && Known(days, phrase, today)
    ensures Formable(days.start, offset) && Formable(days.end, offset) <==> ResolvableIn(phrase, today, offset)
  {
    EndsAreFormable(days, offset);
  }

  lemma ResolveForms(phrase: Phrase, today: Date, offset: int, days: Days)
    requires Valid(today) && Supported(phrase) && days == Range(phrase, today)
    ensures Resolve(phrase, today, offset) ==
            if Formable(days.start, offset) && Formable(days.end, offset) then Ok(days) else Err(OutOfCalendar)
  {
  }

  /**
    A reviewed phrase resolves to its range on exactly the days whose range is in the calendar,
    unless the range starts on the very first day and the zone is ahead of UTC. In every zone it
    resolves on every day of the years 3 to 9998.
  */
  lemma NamedResolves(phrase: Phrase, today: Date, offset: int)
    requires Valid(today) && Zone(offset) && !phrase.RecentDays? && Supported(phrase)
    ensures Resolve(phrase, today, offset) ==
            if ResolvableIn(phrase, today, offset) then Ok(Range(phrase, today)) else Err(OutOfCalendar)
    ensures 3 <= today.year <= 9998 ==> ResolvableIn(phrase, today, offset)
  {
    NamedIsKnown(phrase, today);
    KnownFormable(Range(phrase, today), phrase, today, offset);
    ResolveForms(phrase, today, offset, Range(phrase, today));
    MiddleYears(phrase, today, offset);
  }

  /** "The last n days" resolves while its first day is in the calendar and tomorrow is. */
  lemma RecentResolves(days: nat, today: Date, offset: int)
    requires Valid(today) && Zone(offset) && days >= 1
    ensures Resolve(RecentDays(days), today, offset).Ok? <==>
            && days <= Ordinal(today) && !(days == Ordinal(today) && offset > 0)
            && !(today.year == 9999 && today.month == 12 && today.day == 31)
  {
    LateDays(today, 1);
    EndsAreFormable(Range(RecentDays(days), today), offset);
  }

  /** The days on which the day after tomorrow is no date. */
  predicate AtTheEnd(today: Date) { today.year == 9999 && today.month == 12 && today.day >= 30 }

  lemma LimitFormable(today: Date, offset: int)
    requires Valid(today) && Zone(offset)
    ensures Formable(Ordinal(today) + 2, offset) <==> !AtTheEnd(today)
  {
    EarlyDays(today, 0);
    LateDays(today, 2);
  }

  /**
    The redline never rejects a reviewed phrase, in any fixed-offset zone. On the last two days of
    the calendar, and on no others, it cannot be judged: the day it is judged by is no date.
  */
  lemma NamedNeverRejected(phrase: Phrase, today: Date, now: int, offset: int)
    requires Valid(today) && Zone(offset) && LocalDay(now, offset) == Ordinal(today)
    requires !phrase.RecentDays? && Resolve(phrase, today, offset).Ok?
    ensures var days := Resolve(phrase, today, offset).value;
            RangeViolation(ToUtc(days.start, offset), ToUtc(days.end, offset), 366, now, offset) ==
            if AtTheEnd(today) then Err(OutOfCalendar) else Ok(None)
  {
    NamedRange(phrase, today);
    LimitFormable(today, offset);
  }

  /** "The last n days" ends with today, spans n days, and passes the redline exactly up to 366. */
  lemma RecentRejectedPastAYear(days: nat, today: Date, now: int, offset: int)
    requires Valid(today) && Zone(offset) && LocalDay(now, offset) == Ordinal(today) && days >= 1
    ensures var range := Range(RecentDays(days), today);
            && Contains(range, Ordinal(today)) && range.end - range.start == days
            && RangeViolation(ToUtc(range.start, offset), ToUtc(range.end, offset), 366, now, offset) ==
               if days > 366 then Ok(Some(TooLong)) else if AtTheEnd(today) then Err(OutOfCalendar) else Ok(None)
  {
    var range := Range(RecentDays(days), today);
    assert ToUtc(range.end, offset) - ToUtc(range.start, offset) == days * 86400;
    LimitFormable(today, offset);
  }
}
