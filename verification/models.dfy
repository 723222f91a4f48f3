/**
 * The calendar model: the configuration enums, point details, ranges, the
 * month filter the renderer reads, and the Calendar record with its weekday
 * numbering.
 */
module Models {
  import opened Dates

  datatype Option<T> = None | Some(value: T)

  datatype WeekStart = Monday | Sunday

  datatype WeekendDisplay = Dimmed | NormalWeekend

  datatype ColorMode = NormalColors | Work

  datatype PastDateDisplay = Strikethrough | NormalPast

  /** A note on one date, with an optional colour name. */
  datatype DateDetail = DateDetail(description: string, color: Option<string>)

  /** A multi-day note from `start` to `end` inclusive, with a colour name. */
  datatype DateRange = DateRange(start: Date, end: Date, color: string, description: Option<string>)
  {
    predicate Contains(d: Date) {
      Le(start, d) && Le(d, end)
    }
  }

  /**
   * The month filter after it has been resolved for the displayed year: the
   * inclusive span of months `startMonth..endMonth` that is shown.
   */
  datatype MonthFilter = MonthFilter(startMonth: int, endMonth: int)
  {
    predicate Valid() {
      1 <= startMonth <= endMonth <= 12
    }

    /** Closed-interval membership; the year does not take part. */
    predicate ShouldDisplayMonth(month: int, year: int) {
      startMonth <= month <= endMonth
    }

    /** First day of the first shown month through last day of the last one. */
    function GetDateRange(year: int): (r: (Date, Date))
      requires Valid()
      ensures r.0.Valid() && r.1.Valid() && Le(r.0, r.1)
      ensures r.0.year == year && r.0.month == startMonth && r.0.day == 1
      ensures r.1.year == year && r.1.month == endMonth
      ensures Succ(r.1).day == 1 && Succ(r.1).month != endMonth
    {
      (Date(year, startMonth, 1), Date(year, endMonth, DaysInMonth(year, endMonth)))
    }
  }

  /**
   * One rendering pass's input.  `details` maps a date to its note (one per
   * date); `ranges` keeps insertion order, which breaks ties between
   * overlapping ranges.
   */
  datatype Calendar = Calendar(
    year: int,
    weekStart: WeekStart,
    weekendDisplay: WeekendDisplay,
    colorMode: ColorMode,
    pastDateDisplay: PastDateDisplay,
    monthFilter: MonthFilter,
    details: map<Date, DateDetail>,
    ranges: seq<DateRange>)

  /** Calendar::new: every argument lands in the field of the same name. */
  function NewCalendar(
    year: int,
    weekStart: WeekStart,
    weekendDisplay: WeekendDisplay,
    colorMode: ColorMode,
    pastDateDisplay: PastDateDisplay,
    monthFilter: MonthFilter,
    details: map<Date, DateDetail>,
    ranges: seq<DateRange>): (c: Calendar)
    ensures c.year == year && c.weekStart == weekStart
    ensures c.weekendDisplay == weekendDisplay && c.colorMode == colorMode
    ensures c.pastDateDisplay == pastDateDisplay && c.monthFilter == monthFilter
    ensures c.details == details && c.ranges == ranges
  {
    Calendar(year, weekStart, weekendDisplay, colorMode, pastDateDisplay, monthFilter, details, ranges)
  }

  /** The column of `date` in a week that starts on the configured day. */
  function GetWeekdayNum(cal: Calendar, date: Date): (n: nat)
    requires date.Valid()
    ensures n < 7
    ensures n == 0 <==> DayOfWeek(date) == (if cal.weekStart == Monday then Mon else Sun)
    ensures n == 6 <==> DayOfWeek(date) == (if cal.weekStart == Monday then Sun else Sat)
  {
    match cal.weekStart
    case Monday => NumDaysFromMonday(DayOfWeek(date))
    case Sunday => NumDaysFromSunday(DayOfWeek(date))
  }

  /** For the same date, the Sunday-start column is the Monday-start column plus one, mod 7. */
  lemma SundayColumnFollowsMondayColumn(cal: Calendar, date: Date)
    requires date.Valid()
    ensures GetWeekdayNum(cal.(weekStart := Sunday), date)
         == (GetWeekdayNum(cal.(weekStart := Monday), date) + 1) % 7
  {
  }

  /** The next day sits one column to the right, wrapping after the last column. */
  lemma {:induction false} NextDayNextColumn(cal: Calendar, date: Date)
    requires date.Valid()
    ensures Succ(date).Valid()
    ensures GetWeekdayNum(cal, Succ(date)) == (GetWeekdayNum(cal, date) + 1) % 7
  {
    SuccOrdinal(date);
    SuccWeekday(date);
  }

  /** Going back one day moves one column to the left, wrapping before the first. */
  lemma {:induction false} PrevDayPrevColumn(cal: Calendar, date: Date)
    requires date.Valid()
    ensures Pred(date).Valid()
    ensures GetWeekdayNum(cal, date) == (GetWeekdayNum(cal, Pred(date)) + 1) % 7
  {
    PredOrdinal(date);
    NextDayNextColumn(cal, Pred(date));
    SuccOfPred(date);
  }

  /** Filtered months of the displayed year are exactly the dates of the filter's date range. */
  lemma {:induction false} FilterMonthsMatchDateRange(f: MonthFilter, year: int, d: Date)
    requires f.Valid() && d.Valid()
    ensures (d.year == year && f.ShouldDisplayMonth(d.month, year))
        <==> (Le(f.GetDateRange(year).0, d) && Le(d, f.GetDateRange(year).1))
  {
  }
}
