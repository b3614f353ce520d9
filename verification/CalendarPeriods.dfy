/**
  Which days the named periods hold, by the dates they are written with; and what the redline rejects.
*/
module CalendarPeriods {
  import opened Wrappers
  import opened Calendar

  // ---------------------------------------------------------------- months in order

  predicate MonthLe(a: First, b: First) { a.year < b.year || (a.year == b.year && a.month <= b.month) }

  lemma YearStarts(year: nat)
    ensures Ordinal(Date(year, 1, 1)) == BeforeYear(year) + 1
  {
  }

  lemma NotBeforeNewYear(d: First)
    ensures Ordinal(Date(d.year, 1, 1)) <= Ordinal(d)
    ensures Ordinal(AddMonth(d)) <= Ordinal(Date(d.year + 1, 1, 1))
  {
    MonthsOfYear(d.year, 1, d.month);
    if d.month < 12 {
      MonthsOfYear(d.year, d.month + 1, d.month + 1);
    }
  }

  lemma NewYearsInOrder(a: nat, b: nat)
    requires a <= b
    ensures Ordinal(Date(a, 1, 1)) <= Ordinal(Date(b, 1, 1))
  {
    YearStarts(a);
    YearStarts(b);
    YearsGrow(a, b);
  }

  lemma LaterMonth(a: First, b: First)
    requires a.year == b.year && a.month < b.month
    ensures Ordinal(AddMonth(a)) <= Ordinal(b)
  {
    assert AddMonth(a) == Date(a.year, a.month + 1, 1) && b == Date(a.year, b.month, 1);
    MonthsOfYear(a.year, a.month + 1, b.month);
  }

  lemma LaterYear(a: First, b: First)
    requires a.year < b.year
    ensures Ordinal(AddMonth(a)) <= Ordinal(b)
  {
    NotBeforeNewYear(a);
    NotBeforeNewYear(b);
    NewYearsInOrder(a.year + 1, b.year);
  }

  /** A month is over when a later one starts. */
  lemma MonthOver(a: First, b: First)
    requires MonthLe(a, b) && a != b
    ensures Ordinal(AddMonth(a)) <= Ordinal(b)
  {
    if a.year == b.year {
      LaterMonth(a, b);
    } else {
      LaterYear(a, b);
    }
  }

  /** A month has started by a day if and only if it is not later than the day's own month. */
  lemma StartedBy(f: First, d: Date)
    requires Valid(d)
    ensures Ordinal(f) <= Ordinal(d) <==> MonthLe(f, MonthOf(d))
  {
    TodayInMonth(d);
    if MonthLe(f, MonthOf(d)) {
      if f != MonthOf(d) {
        MonthOver(f, MonthOf(d));
        MonthStep(f);
      }
    } else {
      MonthOver(MonthOf(d), f);
    }
  }

  lemma BetweenHolds(start: First, end: First, d: Date)
    requires Valid(d)
    ensures Contains(Between(start, end), Ordinal(d)) <==> MonthLe(start, MonthOf(d)) && !MonthLe(end, MonthOf(d))
  {
    StartedBy(start, d);
    StartedBy(end, d);
  }

  // ---------------------------------------------------------------- what each period holds

  /** January to March, April to June, July to September, October to December. */
  function QuarterNumber(month: int): int {
    if month <= 3 then 1 else if month <= 6 then 2 else if month <= 9 then 3 else 4
  }

  /** Months, and quarters, counted on across the years. */
  function MonthCount(d: Date): int { 12 * d.year + d.month }
  function QuarterCount(d: Date): int { 4 * d.year + QuarterNumber(d.month) }

  lemma MonthHolds(today: Date, d: Date)
    requires Valid(today) && Valid(d)
    ensures Contains(Range(ThisMonth, today), Ordinal(d)) <==> d.year == today.year && d.month == today.month
    ensures Contains(Range(LastMonth, today), Ordinal(d)) <==> MonthCount(d) == MonthCount(today) - 1
  {
    var m := MonthOf(today);
    BetweenHolds(m, AddMonth(m), d);
    BetweenHolds(SubtractMonth(m), m, d);
  }

  lemma QuarterStartsAt(today: Date)
    requires Valid(today)
    ensures var q := QuarterOf(today);
            && q.month == 3 * QuarterNumber(today.month) - 2
            && AddMonth(AddMonth(AddMonth(q))) ==
               (if q.month == 10 then Date(q.year + 1, 1, 1) else Date(q.year, q.month + 3, 1))
            && SubtractMonth(SubtractMonth(SubtractMonth(q))) ==
               if q.month == 1 then Date(q.year - 1, 10, 1) else Date(q.year, q.month - 3, 1)
  {
  }

  lemma QuarterHolds(today: Date, d: Date)
    requires Valid(today) && Valid(d)
    ensures Contains(Range(ThisQuarter, today), Ordinal(d)) <==> QuarterCount(d) == QuarterCount(today)
    ensures Contains(Range(LastQuarter, today), Ordinal(d)) <==> QuarterCount(d) == QuarterCount(today) - 1
  {
    var q := QuarterOf(today);
    QuarterStartsAt(today);
    BetweenHolds(q, AddMonth(AddMonth(AddMonth(q))), d);
    BetweenHolds(SubtractMonth(SubtractMonth(SubtractMonth(q))), q, d);
  }

  lemma YearHolds(today: Date, d: Date)
    requires Valid(today) && Valid(d)
    ensures Contains(Range(ThisYear, today), Ordinal(d)) <==> d.year == today.year
    ensures Contains(Range(LastYear, today), Ordinal(d)) <==> d.year == today.year - 1
  {
    BetweenHolds(Date(today.year, 1, 1), Date(today.year + 1, 1, 1), d);
    BetweenHolds(Date(today.year - 1, 1, 1), Date(today.year, 1, 1), d);
  }

  /** Day one was a Monday. */
  predicate Monday(ordinal: int) { ordinal % 7 == 1 }

  /** Days and weeks: a week is the seven days from the Monday that is not after today. */
  lemma DaysHold(today: Date, t: int)
    requires Valid(today)
    ensures Contains(Range(Today, today), t) <==> t == Ordinal(today)
    ensures Contains(Range(Yesterday, today), t) <==> t == Ordinal(today) - 1
    ensures Contains(Range(DayBeforeYesterday, today), t) <==> t == Ordinal(today) - 2
    ensures exists monday :: Monday(monday) && monday <= Ordinal(today) < monday + 7
                             && (Contains(Range(ThisWeek, today), t) <==> monday <= t < monday + 7)
                             && (Contains(Range(LastWeek, today), t) <==> monday - 7 <= t < monday)
  {
    var monday := Ordinal(today) - Weekday(Ordinal(today));
    assert Monday(monday);
  }

  /** "The last n days" are today and the n - 1 days before it. */
  lemma RecentHolds(days: nat, today: Date, t: int)
    requires Valid(today) && days >= 1
    ensures Contains(Range(RecentDays(days), today), t) <==> Ordinal(today) - days < t <= Ordinal(today)
  {
  }

  lemma BareMonthHolds(month: int, today: Date, d: Date)
    requires Valid(today) && Valid(d) && 1 <= month <= 12
    ensures Contains(Range(BareMonth(month), today), Ordinal(d)) <==>
            d.month == month && d.year == if month <= today.month then today.year else today.year - 1
  {
    var m := LatestMonth(month, today);
    StartedBy(Date(today.year, month, 1), today);
    BetweenHolds(m, AddMonth(m), d);
  }

  // ---------------------------------------------------------------- previous periods

  /** A previous period is the current period of the day before the current one starts. */
  lemma PreviousIsCurrentBefore(phrase: Phrase, today: Date, eve: Date)
    requires Valid(today) && Valid(eve) && phrase in {Today, ThisWeek, ThisMonth, ThisQuarter, ThisYear}
    requires Ordinal(eve) == Range(phrase, today).start - 1
    ensures Range(Previous(phrase).value, today) == Range(phrase, eve)
  {
    PreviousAdjoins(phrase, today);
    match phrase
    case ThisMonth => LastMonthIsMonthOf(today, eve);
    case ThisQuarter => LastQuarterIsQuarterOf(today, eve);
    case ThisYear => YearHolds(today, eve);
    case ThisWeek => LastWeekIsWeekOf(today, eve);
    case Today =>
  }

  lemma LastWeekIsWeekOf(today: Date, eve: Date)
    requires Valid(today) && Valid(eve) && Ordinal(eve) == Range(ThisWeek, today).start - 1
    ensures Range(LastWeek, today) == Range(ThisWeek, eve)
  {
    BeforeMonday(Ordinal(today));
  }

  lemma BeforeMonday(t: int)
    ensures Weekday(t - Weekday(t) - 1) == 6
  {
    var monday := t - Weekday(t);
    assert Monday(monday);
  }

  lemma LastMonthIsMonthOf(today: Date, eve: Date)
    requires Valid(today) && Valid(eve) && Contains(Range(LastMonth, today), Ordinal(eve))
    ensures Range(LastMonth, today) == Range(ThisMonth, eve)
  {
    MonthHolds(today, eve);
    BackStep(MonthOf(today));
    assert MonthOf(eve) == SubtractMonth(MonthOf(today));
  }

  lemma LastQuarterIsQuarterOf(today: Date, eve: Date)
    requires Valid(today) && Valid(eve) && Contains(Range(LastQuarter, today), Ordinal(eve))
    ensures Range(LastQuarter, today) == Range(ThisQuarter, eve)
  {
    QuarterHolds(today, eve);
    QuarterStartsAt(today);
    QuarterStartsAt(eve);
    assert QuarterOf(eve) == SubtractMonth(SubtractMonth(SubtractMonth(QuarterOf(today))));
  }

  // ---------------------------------------------------------------- dates and the redline

  /** Thirty days hath September, April, June and November. */
  lemma MonthLengths(year: int)
    ensures DaysIn(year, 1) == 31 && DaysIn(year, 3) == 31 && DaysIn(year, 4) == 30 && DaysIn(year, 5) == 31
    ensures DaysIn(year, 6) == 30 && DaysIn(year, 7) == 31 && DaysIn(year, 8) == 31 && DaysIn(year, 9) == 30
    ensures DaysIn(year, 10) == 31 && DaysIn(year, 11) == 30 && DaysIn(year, 12) == 31
    ensures DaysIn(year, 2) == 29 <==> year % 4 == 0 && (year % 100 != 0 || year % 400 == 0)
    ensures DaysIn(year, 2) in {28, 29}
  {
  }

  /** A range is rejected if it is empty, longer than allowed, or starts after tomorrow by the factory's calendar. */
  lemma RedlineExactly(start: int, end: int, maxDays: nat, now: int, offset: int)
    requires Formable(LocalDay(now, offset) + 2, offset)
    ensures RangeViolation(start, end, maxDays, now, offset) == Ok(Some(Empty)) <==> end <= start
    ensures RangeViolation(start, end, maxDays, now, offset) == Ok(Some(TooLong)) <==>
            end > start && end > start + maxDays * 86400
    ensures RangeViolation(start, end, maxDays, now, offset) == Ok(Some(Future)) <==>
            start < end <= start + maxDays * 86400 && LocalDay(start, offset) > LocalDay(now, offset) + 1
    ensures RangeViolation(start, end, maxDays, now, offset).Ok?
  {
    var limit := LocalDay(now, offset) + 2;
    assert start >= ToUtc(limit, offset) <==> start + offset >= limit * 86400;
    DayNotBefore(start + offset, limit);
  }

  lemma DayNotBefore(seconds: int, day: int)
    ensures seconds >= day * 86400 <==> seconds / 86400 >= day
  {
    assert seconds == seconds / 86400 * 86400 + seconds % 86400;
  }
}
