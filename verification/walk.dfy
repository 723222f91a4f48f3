/**
 * The week walk of the renderer: align the filtered date range to the start
 * of its first week, then render one block of lines per week until the walk
 * passes the range's last day or leaves the displayed year.
 *
 * A block is the month-opening border (only above the first week that shows
 * a month start), the week row, the week's annotations, a newline, and the
 * border line that follows the week.  `WeeksOutput` states the whole walk
 * week by week; `WeeksToString` is the loop, proved to produce it.
 */
module Walk {
  import opened Dates
  import opened Models
  import opened Text
  import opened Layout
  import opened Rows
  import opened Annotations

  /** `checked_add_signed(Duration::days(7))`. */
  function PlusWeek(d: Date): Date {
    SuccN(d, 7)
  }

  // ---------------------------------------------------------------------
  // align_to_week_start

  /** align_to_week_start: step back a day at a time to the configured first day of the week. */
  method AlignToWeekStart(cal: Calendar, date: Date) returns (aligned: Date)
    requires date.Valid()
    ensures aligned == AlignedStart(cal, date)
    ensures GetWeekdayNum(cal, aligned) == 0
  {
    aligned := date;
    ghost var steps: nat := 0;
    while GetWeekdayNum(cal, aligned) != 0
      invariant aligned.Valid() && aligned == PredN(date, steps)
      invariant GetWeekdayNum(cal, aligned) + steps == GetWeekdayNum(cal, date)
      decreases GetWeekdayNum(cal, aligned)
    {
      AlignStep(cal, date, aligned, steps);
      aligned := Pred(aligned);
      steps := steps + 1;
    }
  }

  /** One step back keeps the loop's bookkeeping: one more day back, one column to the left. */
  lemma AlignStep(cal: Calendar, date: Date, aligned: Date, steps: nat)
    requires date.Valid() && aligned.Valid() && aligned == PredN(date, steps)
    requires GetWeekdayNum(cal, aligned) + steps == GetWeekdayNum(cal, date)
    requires GetWeekdayNum(cal, aligned) != 0
    ensures Pred(aligned).Valid() && Pred(aligned) == PredN(date, steps + 1)
    ensures GetWeekdayNum(cal, Pred(aligned)) + steps + 1 == GetWeekdayNum(cal, date)
  {
    PrevDayPrevColumn(cal, aligned);
    ColumnBack(GetWeekdayNum(cal, Pred(aligned)), GetWeekdayNum(cal, aligned));
  }

  /** A column that is one right of `x` (mod 7) and not the first is exactly `x + 1`. */
  lemma ColumnBack(x: nat, y: nat)
    requires x < 7 && y < 7 && y == (x + 1) % 7 && y != 0
    ensures x + 1 == y
  {
  }

  /** The aligned start of the walk. */
  function AlignedStart(cal: Calendar, date: Date): (r: Date)
    requires date.Valid()
    ensures r.Valid() && Ordinal(r) == Ordinal(date) - GetWeekdayNum(cal, date)
    ensures Le(r, date) && Ordinal(date) - Ordinal(r) <= 6
    ensures GetWeekdayNum(cal, date) == 0 ==> r == date
    ensures GetWeekdayNum(cal, r) == 0
  {
    AlignedColumnZero(cal, date);
    PredNOrdinal(date, GetWeekdayNum(cal, date));
    LeIffOrdinalLe(PredN(date, GetWeekdayNum(cal, date)), date);
    PredN(date, GetWeekdayNum(cal, date))
  }

  /** Going back by a date's column lands in column 0. */
  lemma AlignedColumnZero(cal: Calendar, date: Date)
    requires date.Valid()
    ensures PredN(date, GetWeekdayNum(cal, date)).Valid()
    ensures GetWeekdayNum(cal, PredN(date, GetWeekdayNum(cal, date))) == 0
  {
    ColumnsBack(cal, date, GetWeekdayNum(cal, date));
  }

  /** Each of the first GetWeekdayNum(date) steps back moves one column left. */
  lemma {:induction false} ColumnsBack(cal: Calendar, date: Date, j: nat)
    requires date.Valid() && j <= GetWeekdayNum(cal, date)
    ensures PredN(date, j).Valid()
    ensures GetWeekdayNum(cal, PredN(date, j)) + j == GetWeekdayNum(cal, date)
  {
    if j == 0 {
      assert PredN(date, 0) == date;
    } else {
      ColumnsBack(cal, date, j - 1);
      AlignStep(cal, date, PredN(date, j - 1), j - 1);
    }
  }

  /** Every week of the walk starts in column 0. */
  lemma WeekStartsInFirstColumn(cal: Calendar, k: nat)
    requires cal.monthFilter.Valid()
    ensures var aligned := AlignedStart(cal, GetFilteredDateRange(cal).0);
      NthWeekStart(aligned, k).Valid() && GetWeekdayNum(cal, NthWeekStart(aligned, k)) == 0
  {
    var aligned := AlignedStart(cal, GetFilteredDateRange(cal).0);
    WeekStartValid(aligned, k);
    SameWeekdayWeeksApart(aligned, NthWeekStart(aligned, k), k);
  }

  // ---------------------------------------------------------------------
  // The filter

  /** get_filtered_date_range. */
  function GetFilteredDateRange(cal: Calendar): (r: (Date, Date))
    requires cal.monthFilter.Valid()
    ensures r.0.Valid() && r.1.Valid() && Le(r.0, r.1)
    ensures r.0.year == cal.year && r.1.year == cal.year && r.0.day == 1
  {
    cal.monthFilter.GetDateRange(cal.year)
  }

  /**
   * should_render_week: some day of the week is in the displayed year and in
   * a shown month.  A week with no day in the displayed year is never
   * rendered, whatever the filter; with the whole year shown, every week with
   * a day in the year is.
   */
  function ShouldRenderWeek(cal: Calendar, layout: WeekLayout): (r: bool)
    ensures r ==> exists k | 0 <= k < |layout.dates| :: layout.dates[k].year == cal.year
    ensures cal.monthFilter == MonthFilter(1, 12) && (forall k | 0 <= k < |layout.dates| :: layout.dates[k].Valid())
      ==> (r <==> exists k | 0 <= k < |layout.dates| :: layout.dates[k].year == cal.year)
  {
    exists k | 0 <= k < |layout.dates| ::
      layout.dates[k].year == cal.year && cal.monthFilter.ShouldDisplayMonth(layout.dates[k].month, cal.year)
  }

  /** A week is rendered exactly when it overlaps the filtered date range. */
  lemma ShouldRenderWeekIffOverlaps(cal: Calendar, start: Date)
    requires cal.monthFilter.Valid() && start.Valid()
    ensures var (first, last) := GetFilteredDateRange(cal);
      ShouldRenderWeek(cal, NewWeekLayout(start)) <==> Le(start, last) && Le(first, SuccN(start, 6))
  {
    var (first, last) := GetFilteredDateRange(cal);
    var dates := NewWeekLayout(start).dates;
    WeekDatesConsecutive(start, 6);
    LeIffOrdinalLe(start, last);
    LeIffOrdinalLe(first, SuccN(start, 6));
    if ShouldRenderWeek(cal, NewWeekLayout(start)) {
      var k :| 0 <= k < 7 && dates[k].year == cal.year && cal.monthFilter.ShouldDisplayMonth(dates[k].month, cal.year);
      WeekDatesConsecutive(start, k);
      FilterMonthsMatchDateRange(cal.monthFilter, cal.year, dates[k]);
      LeIffOrdinalLe(first, dates[k]);
      LeIffOrdinalLe(dates[k], last);
    }
    if Le(start, last) && Le(first, SuccN(start, 6)) {
      LeIffOrdinalLe(first, start);
      var k := if Le(first, start) then 0 else Ordinal(first) - Ordinal(start);
      WeekDatesConsecutive(start, k);
      LeIffOrdinalLe(first, dates[k]);
      LeIffOrdinalLe(dates[k], last);
      if k > 0 {
        LeIffOrdinalLe(first, dates[k]);
      }
      FilterMonthsMatchDateRange(cal.monthFilter, cal.year, dates[k]);
    }
  }

  /** Every week the walk reaches by the range's last day is rendered. */
  lemma VisitedWeekRenders(cal: Calendar, d: Date)
    requires cal.monthFilter.Valid() && d.Valid()
    requires Ordinal(GetFilteredDateRange(cal).0) - 6 <= Ordinal(d)
    requires Le(d, GetFilteredDateRange(cal).1)
    ensures ShouldRenderWeek(cal, NewWeekLayout(d))
  {
    var (first, last) := GetFilteredDateRange(cal);
    SuccNOrdinal(d, 6);
    LeIffOrdinalLe(first, SuccN(d, 6));
    ShouldRenderWeekIffOverlaps(cal, d);
  }

  // ---------------------------------------------------------------------
  // One week's block

  /** The state the walk carries from week to week. */
  datatype WalkState = WalkState(
    currentMonth: Option<int>,
    isFirstMonth: bool,
    queue: seq<Entry>,
    shown: seq<nat>)

  lemma NewLayoutShowable(start: Date)
    requires start.Valid()
    ensures WellFormed(NewWeekLayout(start)) && ShowableLayout(NewWeekLayout(start))
  {
    var layout := NewWeekLayout(start);
    assert layout.dates[0] == start;
    WellFormedIsShowable(layout);
  }

  /** The month of the week's month start, if any, else the month carried over. */
  function MonthAfter(layout: WeekLayout, currentMonth: Option<int>): Option<int> {
    if layout.monthStartIdx.Some? then Some(layout.monthStartIdx.value.1) else currentMonth
  }

  /** The week is not the last: the next week starts in the displayed year, by the range's last day. */
  predicate Continues(cal: Calendar, endDate: Date, next: Date) {
    !(next.year > cal.year || !Le(next, endDate))
  }

  /** The border line after a week: closing, mid-table separator, pre-month separator or none. */
  function Trailer(cal: Calendar, endDate: Date, layout: WeekLayout, currentMonth: Option<int>): string
    requires WellFormed(layout) && ShowableLayout(layout)
  {
    var next := PlusWeek(layout.dates[0]);
    var nextLayout := NewWeekLayout(next);
    if !Continues(cal, endDate, next) then ClosingBorder(FirstBoundary(layout.dates, 1))
    else if layout.monthStartIdx.Some? then
      if layout.monthStartIdx.value.0 > 0 then SeparatorLine(LastEntry(layout.dates, cal.year, currentMonth, 7)) else ""
    else if nextLayout.monthStartIdx.Some? && Le(next, endDate) && next.year == cal.year then
      SeparatorBeforeMonthToString(nextLayout)
    else ""
  }

  /** The annotation text of a week. */
  function WeekNotes(cal: Calendar, layout: WeekLayout, st: WalkState): string
    requires ShowableLayout(layout) && EntriesValid(st.queue) && RangeDatesValid(cal.ranges)
  {
    var dates := layout.dates;
    var queue := Collect(cal, st.queue, dates, 7);
    Join(DetailNotes(Due(queue, dates[0], dates[6]))
         + RangeNotes(cal.ranges, NewlyShown(cal.ranges, st.shown, dates[0], dates[6], |cal.ranges|)), ", ")
  }

  predicate StateValid(cal: Calendar, st: WalkState) {
    EntriesValid(st.queue) && RangeDatesValid(cal.ranges)
  }

  /** Everything one rendered week appends to the output. */
  function Block(cal: Calendar, endDate: Date, weekNum: nat, start: Date, st: WalkState): string
    requires start.Valid() && StateValid(cal, st)
  {
    NewLayoutShowable(start);
    var layout := NewWeekLayout(start);
    var month := MonthAfter(layout, st.currentMonth);
    (if st.isFirstMonth && layout.monthStartIdx.Some? then MonthBorder(layout) else "")
    + WeekRow(weekNum, layout)
    + WeekNotes(cal, layout, st) + "\n"
    + Trailer(cal, endDate, layout, month)
  }

  /** The walk state after rendering the week starting at `start`. */
  function Step(cal: Calendar, start: Date, st: WalkState): (r: WalkState)
    requires start.Valid() && StateValid(cal, st)
    ensures StateValid(cal, r)
  {
    NewLayoutShowable(start);
    var layout := NewWeekLayout(start);
    var dates := layout.dates;
    var queue := Collect(cal, st.queue, dates, 7);
    WalkState(
      MonthAfter(layout, st.currentMonth),
      st.isFirstMonth && layout.monthStartIdx.None?,
      Remaining(queue, dates[0], dates[6]),
      st.shown + NewlyShown(cal.ranges, st.shown, dates[0], dates[6], |cal.ranges|))
  }

  /** The first day of week `k` of the walk. */
  function NthWeekStart(aligned: Date, k: nat): Date {
    SuccN(aligned, 7 * k)
  }

  lemma WeekStartValid(aligned: Date, k: nat)
    requires aligned.Valid()
    ensures NthWeekStart(aligned, k).Valid() && Ordinal(NthWeekStart(aligned, k)) == Ordinal(aligned) + 7 * k
  {
    SuccNOrdinal(aligned, 7 * k);
  }

  lemma WeekStartNext(aligned: Date, k: nat)
    ensures NthWeekStart(aligned, k + 1) == PlusWeek(NthWeekStart(aligned, k))
  {
    SuccNSplit(aligned, 7 * k, 7);
  }

  /** The walk state before week `k`. */
  function StateBefore(cal: Calendar, aligned: Date, k: nat): (r: WalkState)
    requires aligned.Valid() && RangeDatesValid(cal.ranges)
    ensures StateValid(cal, r)
  {
    if k == 0 then WalkState(None, true, [], [])
    else
      WeekStartValid(aligned, k - 1);
      Step(cal, NthWeekStart(aligned, k - 1), StateBefore(cal, aligned, k - 1))
  }

  /** The output of the first `n` weeks of the walk; week `k` is labelled W`k + 1`. */
  function WeeksOutput(cal: Calendar, endDate: Date, aligned: Date, n: nat): string
    requires aligned.Valid() && RangeDatesValid(cal.ranges)
  {
    if n == 0 then ""
    else
      WeekStartValid(aligned, n - 1);
      WeeksOutput(cal, endDate, aligned, n - 1)
      + Block(cal, endDate, n, NthWeekStart(aligned, n - 1), StateBefore(cal, aligned, n - 1))
  }

  // ---------------------------------------------------------------------
  // The loop

  /** The border line after a week, as the if/else chain of weeks_to_string picks it. */
  method TrailerToString(cal: Calendar, endDate: Date, layout: WeekLayout, currentMonth: Option<int>)
    returns (trailer: string)
    requires WellFormed(layout) && ShowableLayout(layout)
    ensures trailer == Trailer(cal, endDate, layout, currentMonth)
  {
    var nextWeekDate := PlusWeek(layout.dates[0]);
    var nextLayout := NewWeekLayout(nextWeekDate);
    var isLastWeek := nextWeekDate.year > cal.year || !Le(nextWeekDate, endDate);
    trailer := "";
    if isLastWeek {
      trailer := ClosingBorderToString(layout);
    } else if layout.monthStartIdx.Some? {
      if layout.monthStartIdx.value.0 > 0 {
        trailer := SeparatorToString(cal.year, layout, currentMonth);
      }
    } else if nextLayout.monthStartIdx.Some? && Le(nextWeekDate, endDate) && nextWeekDate.year == cal.year {
      trailer := SeparatorBeforeMonthToString(nextLayout);
    }
  }

  /** One rendered week of weeks_to_string. */
  method RenderWeek(cal: Calendar, endDate: Date, weekNum: nat, currentDate: Date, st: WalkState)
    returns (block: string, st': WalkState)
    requires currentDate.Valid() && StateValid(cal, st)
    ensures block == Block(cal, endDate, weekNum, currentDate, st)
    ensures st' == Step(cal, currentDate, st)
  {
    NewLayoutShowable(currentDate);
    var layout := NewWeekLayout(currentDate);
    var currentMonth := st.currentMonth;
    var isFirstMonth := st.isFirstMonth;
    var opening := "";
    if layout.monthStartIdx.Some? {
      currentMonth := Some(layout.monthStartIdx.value.1);
      if isFirstMonth {
        opening := MonthBorderToString(layout);
        isFirstMonth := false;
      }
    }
    var queue := CollectDetails(cal, layout.dates, st.queue);
    var row := WeekRowToString(weekNum, layout);
    var notes, queue', shown' := AnnotationsToString(cal, layout.dates, queue, st.shown);
    var trailer := TrailerToString(cal, endDate, layout, currentMonth);
    block := opening + row + notes + "\n" + trailer;
    st' := WalkState(currentMonth, isFirstMonth, queue', shown');
  }

  /** The rendered week `k` starts by the range's last day, so it lies within the span. */
  lemma WeekWithinSpan(aligned: Date, endDate: Date, k: nat)
    requires aligned.Valid() && endDate.Valid() && Le(NthWeekStart(aligned, k), endDate)
    ensures 7 * k <= Ordinal(endDate) - Ordinal(aligned)
  {
    WeekStartValid(aligned, k);
    LeIffOrdinalLe(NthWeekStart(aligned, k), endDate);
  }

  /**
   * The number of weeks the walk renders once `k` weeks are behind it: it
   * stops before a week starting after the range's last day, and right after
   * a week whose successor starts in the next year.
   */
  function WeeksFrom(cal: Calendar, endDate: Date, aligned: Date, k: nat): (n: nat)
    requires aligned.Valid() && endDate.Valid()
    ensures n >= k
    decreases Ordinal(endDate) - Ordinal(aligned) + 7 - 7 * k
  {
    if !Le(NthWeekStart(aligned, k), endDate) then k
    else if NthWeekStart(aligned, k + 1).year > cal.year then k + 1
    else
      WeekWithinSpan(aligned, endDate, k);
      WeeksFrom(cal, endDate, aligned, k + 1)
  }

  /** The number of weeks weeks_to_string renders. */
  function WalkLength(cal: Calendar): nat
    requires cal.monthFilter.Valid()
  {
    var range := GetFilteredDateRange(cal);
    WeeksFrom(cal, range.1, AlignedStart(cal, range.0), 0)
  }

  /** Render week `n` (labelled W`n + 1`) and move the walk state past it. */
  method AdvanceWalk(cal: Calendar, endDate: Date, ghost aligned: Date, ghost n: nat,
                     weekNum: nat, currentDate: Date, output: string, st: WalkState)
    returns (output': string, st': WalkState)
    requires aligned.Valid() && RangeDatesValid(cal.ranges)
    requires currentDate == NthWeekStart(aligned, n) && weekNum == n + 1
    requires output == WeeksOutput(cal, endDate, aligned, n) && st == StateBefore(cal, aligned, n)
    ensures output' == WeeksOutput(cal, endDate, aligned, n + 1)
    ensures st' == StateBefore(cal, aligned, n + 1)
  {
    WeekStartValid(aligned, n);
    var block;
    block, st' := RenderWeek(cal, endDate, weekNum, currentDate, st);
    output' := output + block;
  }

  /**
   * weeks_to_string: the output is the first WalkLength(cal) weeks of the
   * walk.  The should_render_week skip is left out of the loop:
   * WalkedWeeksRender shows it never fires.
   */
  method WeeksToString(cal: Calendar) returns (output: string)
    requires cal.monthFilter.Valid() && RangeDatesValid(cal.ranges)
    ensures output == WeeksOutput(cal, GetFilteredDateRange(cal).1,
                                  AlignedStart(cal, GetFilteredDateRange(cal).0), WalkLength(cal))
  {
    output := "";
    var startDate := GetFilteredDateRange(cal).0;
    var endDate := GetFilteredDateRange(cal).1;
    var currentDate := AlignToWeekStart(cal, startDate);
    ghost var aligned := currentDate;
    ghost var total := WeeksFrom(cal, endDate, aligned, 0);
    var weekNum: nat := 1;
    var currentMonth: Option<int> := None;
    var detailsQueue: seq<Entry> := [];
    var shownRanges: seq<nat> := [];
    var isFirstMonth := true;
    ghost var weeks: nat := 0;
    while Le(currentDate, endDate)
      invariant currentDate == NthWeekStart(aligned, weeks) && weekNum == weeks + 1
      invariant aligned.Valid()
      invariant WeeksFrom(cal, endDate, aligned, weeks) == total
      invariant WalkState(currentMonth, isFirstMonth, detailsQueue, shownRanges) == StateBefore(cal, aligned, weeks)
      invariant output == WeeksOutput(cal, endDate, aligned, weeks)
      decreases total - weeks
    {
      var st;
      output, st := AdvanceWalk(cal, endDate, aligned, weeks, weekNum, currentDate, output,
                                WalkState(currentMonth, isFirstMonth, detailsQueue, shownRanges));
      currentMonth, isFirstMonth, detailsQueue, shownRanges := st.currentMonth, st.isFirstMonth, st.queue, st.shown;
      WeekStartNext(aligned, weeks);
      currentDate := PlusWeek(currentDate);
      weekNum := weekNum + 1;
      weeks := weeks + 1;
      if currentDate.year > cal.year {
        break;
      }
    }
  }

  // ---------------------------------------------------------------------
  // What the walk guarantees

  /** WeeksFrom stops exactly at the first week that does not continue the walk. */
  lemma {:induction false} WeeksFromStops(cal: Calendar, endDate: Date, aligned: Date, k0: nat)
    requires aligned.Valid() && endDate.Valid()
    ensures var n := WeeksFrom(cal, endDate, aligned, k0);
      && (n > k0 ==> Le(NthWeekStart(aligned, k0), endDate))
      && (forall k :: k0 < k < n ==> Continues(cal, endDate, NthWeekStart(aligned, k)))
      && !Continues(cal, endDate, NthWeekStart(aligned, n))
    decreases Ordinal(endDate) - Ordinal(aligned) + 7 - 7 * k0
  {
    if Le(NthWeekStart(aligned, k0), endDate) && NthWeekStart(aligned, k0 + 1).year <= cal.year {
      WeekWithinSpan(aligned, endDate, k0);
      WeeksFromStops(cal, endDate, aligned, k0 + 1);
    }
  }

  /** The first week of the walk starts on or before the range's first day, and so by its last. */
  lemma AlignedStartBeforeRange(cal: Calendar)
    requires cal.monthFilter.Valid()
    ensures var range := GetFilteredDateRange(cal);
      var aligned := AlignedStart(cal, range.0);
      && Le(aligned, range.0) && Le(aligned, range.1)
      && Ordinal(range.0) - 6 <= Ordinal(aligned)
  {
    var range := GetFilteredDateRange(cal);
    var aligned := AlignedStart(cal, range.0);
    LeIffOrdinalLe(aligned, range.0);
    LeIffOrdinalLe(range.0, range.1);
    LeIffOrdinalLe(aligned, range.1);
  }

  /**
   * The walk renders at least one week; every rendered week starts by the
   * range's last day; each but the first follows a week that continued the
   * walk, and the week after the last one does not.
   */
  lemma WalkStops(cal: Calendar)
    requires cal.monthFilter.Valid()
    ensures var range := GetFilteredDateRange(cal);
      var aligned := AlignedStart(cal, range.0);
      var n := WalkLength(cal);
      && n >= 1
      && (forall k :: 0 <= k < n ==> Le(NthWeekStart(aligned, k), range.1))
      && (forall k :: 1 <= k < n ==> Continues(cal, range.1, NthWeekStart(aligned, k)))
      && !Continues(cal, range.1, NthWeekStart(aligned, n))
  {
    var range := GetFilteredDateRange(cal);
    var aligned := AlignedStart(cal, range.0);
    AlignedStartBeforeRange(cal);
    assert NthWeekStart(aligned, 0) == aligned;
    WeeksFromStops(cal, range.1, aligned, 0);
  }

  /**
   * The walk renders at most 54 weeks, so every week label W01..W54 has two
   * digits and the 14-column label of LabelWidth applies to every row.
   */
  lemma WalkLengthBound(cal: Calendar)
    requires cal.monthFilter.Valid()
    ensures WalkLength(cal) <= 54
  {
    var range := GetFilteredDateRange(cal);
    var aligned := AlignedStart(cal, range.0);
    var n := WalkLength(cal);
    WalkStops(cal);
    AlignedStartBeforeRange(cal);
    WeekStartValid(aligned, n - 1);
    LeIffOrdinalLe(NthWeekStart(aligned, n - 1), range.1);
    OrdinalWithinYear(range.0);
    OrdinalWithinYear(range.1);
    DaysBeforeNextYear(cal.year);
    assert Ordinal(range.1) - Ordinal(range.0) <= 365;
    assert 7 * (n - 1) <= 371;
  }

  /** Every day of the filtered range appears on the row of a rendered week. */
  lemma WalkCoversRange(cal: Calendar, d: Date)
    requires cal.monthFilter.Valid() && d.Valid()
    requires Le(GetFilteredDateRange(cal).0, d) && Le(d, GetFilteredDateRange(cal).1)
    ensures var aligned := AlignedStart(cal, GetFilteredDateRange(cal).0);
      var k := (Ordinal(d) - Ordinal(aligned)) / 7;
      && 0 <= k < WalkLength(cal)
      && d in NewWeekLayout(NthWeekStart(aligned, k)).dates
  {
    var range := GetFilteredDateRange(cal);
    var aligned := AlignedStart(cal, range.0);
    var n := WalkLength(cal);
    AlignedStartBeforeRange(cal);
    LeIffOrdinalLe(range.0, d);
    LeIffOrdinalLe(d, range.1);
    var k := (Ordinal(d) - Ordinal(aligned)) / 7;
    var r := (Ordinal(d) - Ordinal(aligned)) % 7;
    WalkStops(cal);
    if k >= n {
      WeekStartValid(aligned, n);
      LeIffOrdinalLe(NthWeekStart(aligned, n), range.1);
      assert false;
    }
    WeekStartValid(aligned, k);
    var start := NthWeekStart(aligned, k);
    WeekDatesConsecutive(start, r);
    var e := NewWeekLayout(start).dates[r];
    assert Ordinal(e) == Ordinal(d) by {
      assert Ordinal(d) - Ordinal(aligned) == 7 * k + r;
    }
    LeIffOrdinalLe(e, d);
    assert d == NewWeekLayout(start).dates[r];
    assert d in NewWeekLayout(start).dates;
    assert range.0 == GetFilteredDateRange(cal).0;
    assert k == (Ordinal(d) - Ordinal(AlignedStart(cal, GetFilteredDateRange(cal).0))) / 7;
    assert d in NewWeekLayout(NthWeekStart(AlignedStart(cal, GetFilteredDateRange(cal).0), k)).dates;
  }

  /** The should_render_week skip never fires: every week the walk reaches is rendered. */
  lemma WalkedWeeksRender(cal: Calendar, k: nat)
    requires cal.monthFilter.Valid() && k < WalkLength(cal)
    ensures ShouldRenderWeek(cal, NewWeekLayout(NthWeekStart(AlignedStart(cal, GetFilteredDateRange(cal).0), k)))
  {
    var range := GetFilteredDateRange(cal);
    var aligned := AlignedStart(cal, range.0);
    AlignedStartBeforeRange(cal);
    WalkStops(cal);
    WeekStartValid(aligned, k);
    VisitedWeekRenders(cal, NthWeekStart(aligned, k));
  }

  /** Only the last rendered week is followed by the closing border. */
  lemma ClosingBorderOnlyAfterLastWeek(cal: Calendar, k: nat)
    requires cal.monthFilter.Valid() && k < WalkLength(cal)
    ensures var range := GetFilteredDateRange(cal);
      var aligned := AlignedStart(cal, range.0);
      k == WalkLength(cal) - 1 <==> !Continues(cal, range.1, PlusWeek(NthWeekStart(aligned, k)))
  {
    var range := GetFilteredDateRange(cal);
    var aligned := AlignedStart(cal, range.0);
    var next := NthWeekStart(aligned, k + 1);
    WalkStops(cal);
    WeekStartNext(aligned, k);
    if k + 1 < WalkLength(cal) {
      assert Continues(cal, range.1, next);
    } else {
      assert !Continues(cal, range.1, next);
    }
  }

  /** Once a week shows a month start, isFirstMonth is cleared for every later week. */
  lemma {:induction false} FirstMonthClearedAfter(cal: Calendar, aligned: Date, j: nat, k: nat)
    requires aligned.Valid() && RangeDatesValid(cal.ranges)
    requires j < k && NewWeekLayout(NthWeekStart(aligned, j)).monthStartIdx.Some?
    ensures !StateBefore(cal, aligned, k).isFirstMonth
  {
    FirstMonthStep(cal, aligned, k - 1);
    if j < k - 1 {
      FirstMonthClearedAfter(cal, aligned, j, k - 1);
    }
  }

  lemma FirstMonthStep(cal: Calendar, aligned: Date, k: nat)
    requires aligned.Valid() && RangeDatesValid(cal.ranges)
    ensures StateBefore(cal, aligned, k + 1).isFirstMonth
        == (StateBefore(cal, aligned, k).isFirstMonth && NewWeekLayout(NthWeekStart(aligned, k)).monthStartIdx.None?)
  {
  }

  /** The opening border is drawn above at most one week of the walk. */
  lemma OpeningBorderAtMostOnce(cal: Calendar, aligned: Date, j: nat, k: nat)
    requires aligned.Valid() && RangeDatesValid(cal.ranges)
    requires StateBefore(cal, aligned, j).isFirstMonth && NewWeekLayout(NthWeekStart(aligned, j)).monthStartIdx.Some?
    requires StateBefore(cal, aligned, k).isFirstMonth && NewWeekLayout(NthWeekStart(aligned, k)).monthStartIdx.Some?
    ensures j == k
  {
    if j < k {
      FirstMonthClearedAfter(cal, aligned, j, k);
    } else if k < j {
      FirstMonthClearedAfter(cal, aligned, k, j);
    }
  }

  /**
   * The range starts on a first of the month, so the walk's first week shows
   * a month start: the opening border is drawn above the first week and
   * above no other.
   */
  lemma OpeningBorderOnFirstWeekOnly(cal: Calendar, k: nat)
    requires cal.monthFilter.Valid() && RangeDatesValid(cal.ranges)
    ensures var aligned := AlignedStart(cal, GetFilteredDateRange(cal).0);
      (StateBefore(cal, aligned, k).isFirstMonth && NewWeekLayout(NthWeekStart(aligned, k)).monthStartIdx.Some?)
      <==> k == 0
  {
    var range := GetFilteredDateRange(cal);
    var aligned := AlignedStart(cal, range.0);
    AlignedStartBeforeRange(cal);
    var i := Ordinal(range.0) - Ordinal(aligned);
    WeekDatesConsecutive(aligned, i);
    var e := NewWeekLayout(aligned).dates[i];
    LeIffOrdinalLe(e, range.0);
    LeIffOrdinalLe(range.0, e);
    StartsMonthIffFirstDay(aligned, i);
    assert NthWeekStart(aligned, 0) == aligned;
    if k > 0 {
      FirstMonthClearedAfter(cal, aligned, 0, k);
    }
  }

  /** Each day of a week lies between the week's first and last day. */
  lemma WeekDayInWeek(start: Date, j: nat)
    requires start.Valid() && j < 7
    ensures var dates := NewWeekLayout(start).dates;
      InWeek(dates[j], dates[0], dates[6])
  {
    var dates := NewWeekLayout(start).dates;
    WeekDatesConsecutive(start, 0);
    WeekDatesConsecutive(start, j);
    WeekDatesConsecutive(start, 6);
    LeIffOrdinalLe(dates[0], dates[j]);
    LeIffOrdinalLe(dates[j], dates[6]);
  }

  /** A detail queued during a week, from an empty queue, is for one of the week's days. */
  lemma CollectedInWeek(cal: Calendar, start: Date, i: nat)
    requires start.Valid()
    requires i < |Collect(cal, [], NewWeekLayout(start).dates, 7)|
    ensures var dates := NewWeekLayout(start).dates;
      InWeek(Collect(cal, [], dates, 7)[i].0, dates[0], dates[6])
  {
    var dates := NewWeekLayout(start).dates;
    var queue := Collect(cal, [], dates, 7);
    CollectAddsDetails(cal, [], dates, 7);
    assert exists j :: 0 <= j < 7 && queue[i].0 == dates[j];
    var j :| 0 <= j < 7 && queue[i].0 == dates[j];
    WeekDayInWeek(start, j);
  }

  /** A week with an empty queue announces every detail of its days and leaves the queue empty. */
  lemma WeekDrainsQueue(cal: Calendar, start: Date)
    requires start.Valid()
    ensures var dates := NewWeekLayout(start).dates;
      var queue := Collect(cal, [], dates, 7);
      && Remaining(queue, dates[0], dates[6]) == []
      && Due(queue, dates[0], dates[6]) == queue
      && forall j :: 0 <= j < 7 && dates[j] in cal.details ==> Queued(queue, dates[j])
  {
    var dates := NewWeekLayout(start).dates;
    var queue := Collect(cal, [], dates, 7);
    CollectCovers(cal, [], dates, 7);
    forall i | 0 <= i < |queue|
      ensures InWeek(queue[i].0, dates[0], dates[6])
    {
      CollectedInWeek(cal, start, i);
    }
    AllInsideDrained(queue, dates[0], dates[6]);
  }

  /** details_queue is empty whenever a week begins. */
  lemma {:induction false} QueueEmptyBeforeEachWeek(cal: Calendar, aligned: Date, k: nat)
    requires aligned.Valid() && RangeDatesValid(cal.ranges)
    ensures StateBefore(cal, aligned, k).queue == []
  {
    if k > 0 {
      QueueEmptyBeforeEachWeek(cal, aligned, k - 1);
      WeekStartValid(aligned, k - 1);
      WeekDrainsQueue(cal, NthWeekStart(aligned, k - 1));
    }
  }

  /** shown_ranges never lists a range twice, so no range is announced twice in a render. */
  lemma {:induction false} ShownNeverRepeats(cal: Calendar, aligned: Date, k: nat)
    requires aligned.Valid() && RangeDatesValid(cal.ranges)
    ensures NoDuplicates(StateBefore(cal, aligned, k).shown)
  {
    if k > 0 {
      ShownNeverRepeats(cal, aligned, k - 1);
      ShownStep(cal, aligned, k);
    }
  }

  /** One week adds to shown_ranges only ranges it did not hold yet, each once. */
  lemma ShownStep(cal: Calendar, aligned: Date, k: nat)
    requires aligned.Valid() && RangeDatesValid(cal.ranges) && k > 0
    requires NoDuplicates(StateBefore(cal, aligned, k - 1).shown)
    ensures NoDuplicates(StateBefore(cal, aligned, k).shown)
  {
    var dates := NewWeekLayout(NthWeekStart(aligned, k - 1)).dates;
    ShownGrows(cal, aligned, k);
    ShownStaysDistinct(cal.ranges, StateBefore(cal, aligned, k - 1).shown, dates[0], dates[6]);
  }

  /** Each week appends to shown_ranges the ranges it announces. */
  lemma ShownGrows(cal: Calendar, aligned: Date, k: nat)
    requires aligned.Valid() && RangeDatesValid(cal.ranges) && k > 0
    ensures var dates := NewWeekLayout(NthWeekStart(aligned, k - 1)).dates;
      var shown := StateBefore(cal, aligned, k - 1).shown;
      StateBefore(cal, aligned, k).shown == shown + NewlyShown(cal.ranges, shown, dates[0], dates[6], |cal.ranges|)
  {
  }

  /** Week `j` of the walk, from its first to its last day, overlaps range `m`. */
  predicate WeekOverlaps(cal: Calendar, aligned: Date, j: nat, m: nat)
    requires m < |cal.ranges|
  {
    var dates := NewWeekLayout(NthWeekStart(aligned, j)).dates;
    Overlaps(cal.ranges[m], dates[0], dates[6])
  }

  /** Some week before week `k` of the walk overlaps range `m`. */
  predicate OverlappedBefore(cal: Calendar, aligned: Date, k: nat, m: nat)
    requires m < |cal.ranges|
  {
    exists j :: 0 <= j < k && WeekOverlaps(cal, aligned, j, m)
  }

  /**
   * After `k` weeks, shown_ranges holds exactly the ranges that one of those
   * weeks overlaps: no range is announced early, and none is missed.
   */
  lemma {:induction false} ShownExactly(cal: Calendar, aligned: Date, k: nat, m: nat)
    requires aligned.Valid() && RangeDatesValid(cal.ranges)
    ensures m in StateBefore(cal, aligned, k).shown <==> m < |cal.ranges| && OverlappedBefore(cal, aligned, k, m)
  {
    if k > 0 {
      var before := StateBefore(cal, aligned, k - 1).shown;
      var dates := NewWeekLayout(NthWeekStart(aligned, k - 1)).dates;
      ShownExactly(cal, aligned, k - 1, m);
      ShownGrows(cal, aligned, k);
      assert StateBefore(cal, aligned, k).shown == before + NewlyShown(cal.ranges, before, dates[0], dates[6], |cal.ranges|);
      ShownAfterWeek(cal.ranges, before, dates[0], dates[6], m);
      if m < |cal.ranges| {
        OverlappedBeforeStep(cal, aligned, k, m);
      }
    }
  }

  /** The weeks before week `k` are those before week `k - 1`, and week `k - 1`. */
  lemma OverlappedBeforeStep(cal: Calendar, aligned: Date, k: nat, m: nat)
    requires m < |cal.ranges| && k > 0
    ensures OverlappedBefore(cal, aligned, k, m)
      <==> OverlappedBefore(cal, aligned, k - 1, m) || WeekOverlaps(cal, aligned, k - 1, m)
  {
    if OverlappedBefore(cal, aligned, k - 1, m) {
      var j :| 0 <= j < k - 1 && WeekOverlaps(cal, aligned, j, m);
      assert 0 <= j < k && WeekOverlaps(cal, aligned, j, m);
    }
    if WeekOverlaps(cal, aligned, k - 1, m) {
      assert 0 <= k - 1 < k && WeekOverlaps(cal, aligned, k - 1, m);
    }
  }

  /**
   * A range is announced in week `k` exactly when week `k` overlaps it and no
   * earlier week of the walk does: each range is announced once, on the first
   * week that reaches it.
   */
  lemma AnnouncedOnFirstOverlap(cal: Calendar, aligned: Date, k: nat, m: nat)
    requires aligned.Valid() && RangeDatesValid(cal.ranges) && m < |cal.ranges|
    ensures var dates := NewWeekLayout(NthWeekStart(aligned, k)).dates;
      m in NewlyShown(cal.ranges, StateBefore(cal, aligned, k).shown, dates[0], dates[6], |cal.ranges|)
      <==> WeekOverlaps(cal, aligned, k, m) && !OverlappedBefore(cal, aligned, k, m)
  {
    var dates := NewWeekLayout(NthWeekStart(aligned, k)).dates;
    ShownExactly(cal, aligned, k, m);
    NewlyShownFacts(cal.ranges, StateBefore(cal, aligned, k).shown, dates[0], dates[6], |cal.ranges|);
  }

  /** render_to_string: the header, the weeks, and a final newline. */
  method RenderToString(cal: Calendar) returns (output: string)
    requires cal.monthFilter.Valid() && RangeDatesValid(cal.ranges)
    ensures output == HeaderToString(cal)
      + WeeksOutput(cal, GetFilteredDateRange(cal).1, AlignedStart(cal, GetFilteredDateRange(cal).0), WalkLength(cal)) + "\n"
  {
    var weeksText := WeeksToString(cal);
    output := HeaderToString(cal) + weeksText + "\n";
  }
}
