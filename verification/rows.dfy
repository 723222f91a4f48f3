/**
 * The line builders of the renderer: the header, the week row, and the four
 * kinds of border line drawn around month boundaries.
 *
 * Every line is 50 columns wide, plus its newline.  Columns 0..13 are the gutter (the week
 * label), column 14 is its right edge, columns 15..48 are the 34 columns of
 * the seven day cells (5 columns each, less one), and column 49 is the right
 * edge.  A month boundary before day index `i` is drawn at column 14 + 5 * i
 * by every builder.
 */
module Rows {
  import opened Dates
  import opened Models
  import opened Text
  import opened Layout

  const DaysInWeek: int := 7
  const CalendarWidth: int := 34
  const HeaderWidth: int := 48

  /** The date at `i` is in another month or year than the date before it. */
  predicate IsBoundary(dates: seq<Date>, i: int)
    requires 0 <= i < |dates|
  {
    i > 0 && (dates[i].month != dates[i - 1].month || dates[i].year != dates[i - 1].year)
  }

  predicate ShowableDays(dates: seq<Date>) {
    |dates| == 7 && forall k :: 0 <= k < 7 ==> dates[k].Valid()
  }

  /** The layout's own invariants that the builders rely on. */
  predicate ShowableLayout(layout: WeekLayout) {
    && ShowableDays(layout.dates)
    && (layout.monthStartIdx.Some? ==>
          layout.monthStartIdx.value.0 < 7 && 1 <= layout.monthStartIdx.value.1 <= 12)
  }

  lemma WellFormedIsShowable(layout: WeekLayout)
    requires WellFormed(layout)
    ensures ShowableLayout(layout)
  {
    WellFormedDates(layout);
  }

  // ---------------------------------------------------------------------
  // The week row

  /** The week label: `│W` + `{:02}` week number + the month name or blanks. */
  function Label(weekNum: nat, layout: WeekLayout): string
    requires ShowableLayout(layout)
  {
    if layout.monthStartIdx.Some? then
      "│W" + ZeroPad2(weekNum) + " " + PadRight(MonthName(layout.monthStartIdx.value.1), 9)
    else "│W" + ZeroPad2(weekNum) + "          "
  }

  /** Day cell `i`: a bar before a month boundary, the day, then one or two spaces. */
  function Cell(dates: seq<Date>, i: nat): string
    requires ShowableDays(dates) && i < 7
  {
    (if IsBoundary(dates, i) then "│" else "")
    + " " + Pad2(dates[i].day)
    + (if i < 6 && IsBoundary(dates, i + 1) then " " else if i < 6 then "  " else " ")
  }

  /** The first `n` day cells. */
  function Cells(dates: seq<Date>, n: nat): string
    requires ShowableDays(dates) && n <= 7
  {
    if n == 0 then "" else Cells(dates, n - 1) + Cell(dates, n - 1)
  }

  function WeekRow(weekNum: nat, layout: WeekLayout): string
    requires ShowableLayout(layout)
  {
    Label(weekNum, layout) + "│" + Cells(layout.dates, 7) + "│"
  }

  /** week_row_to_string. */
  method WeekRowToString(weekNum: nat, layout: WeekLayout) returns (out: string)
    requires ShowableLayout(layout)
    ensures out == WeekRow(weekNum, layout)
  {
    var monthName := if layout.monthStartIdx.Some? then MonthName(layout.monthStartIdx.value.1) else "";
    if monthName != "" {
      out := "│W" + ZeroPad2(weekNum) + " " + PadRight(monthName, 9);
    } else {
      out := "│W" + ZeroPad2(weekNum) + "          ";
    }
    assert out == Label(weekNum, layout);
    out := out + "│";
    ghost var head := out;
    var idx := 0;
    while idx < 7
      invariant 0 <= idx <= 7
      invariant out == head + Cells(layout.dates, idx)
    {
      var cell := CellToString(layout.dates, idx);
      Assoc3(head, Cells(layout.dates, idx), cell);
      out := out + cell;
      idx := idx + 1;
    }
    out := out + "│";
  }

  /** One day cell of week_row_to_string's loop. */
  method CellToString(dates: seq<Date>, idx: nat) returns (out: string)
    requires ShowableDays(dates) && idx < 7
    ensures out == Cell(dates, idx)
  {
    var date := dates[idx];
    var isMonthBoundary := false;
    if idx > 0 {
      var prevDate := dates[idx - 1];
      isMonthBoundary := date.month != prevDate.month || date.year != prevDate.year;
    }
    out := if isMonthBoundary then "│" else "";
    out := out + " " + Pad2(date.day);
    if idx < 6 {
      var nextDate := dates[idx + 1];
      var nextIsBoundary := date.month != nextDate.month || date.year != nextDate.year;
      if nextIsBoundary {
        out := out + " ";
      } else {
        out := out + "  ";
      }
    } else {
      out := out + " ";
    }
  }

  lemma Assoc3(a: string, b: string, c: string)
    ensures (a + b) + c == a + (b + c)
  {
  }

  /** The first `n` cells are 5 columns each, one less when cell `n` opens a month. */
  lemma {:induction false} CellsWidth(dates: seq<Date>, n: nat)
    requires ShowableDays(dates) && n <= 7
    ensures |Cells(dates, n)| == 5 * n - (if 0 < n < 7 && IsBoundary(dates, n) then 1 else 0)
                                       - (if n == 7 then 1 else 0)
  {
    if n > 0 {
      CellsWidth(dates, n - 1);
    }
  }

  /** A boundary before cell `i` puts a bar 5 * i - 1 columns into the cells. */
  lemma {:induction false} BarAtBoundary(dates: seq<Date>, i: nat, n: nat)
    requires ShowableDays(dates) && 0 < i < n <= 7 && IsBoundary(dates, i)
    ensures 5 * i - 1 < |Cells(dates, n)| && Cells(dates, n)[5 * i - 1] == '│'
  {
    CellsWidth(dates, i);
    if n > i + 1 {
      BarAtBoundary(dates, i, n - 1);
    }
  }

  /** For week numbers below 100 the label fills the 14-column gutter. */
  lemma LabelWidth(weekNum: nat, layout: WeekLayout)
    requires weekNum < 100 && ShowableLayout(layout)
    ensures |Label(weekNum, layout)| == 14 && Label(weekNum, layout)[0] == '│'
  {
    assert |ZeroPad2(weekNum)| == 2;
  }

  /**
   * For week numbers below 100 the row is 50 columns: the label, a bar at
   * column 14, the seven cells filling exactly CalendarWidth columns, and a
   * bar at column 49; each month boundary has its bar at column 14 + 5 * i.
   */
  lemma {:induction false} WeekRowShape(weekNum: nat, layout: WeekLayout)
    requires weekNum < 100 && ShowableLayout(layout)
    ensures |Cells(layout.dates, 7)| == CalendarWidth
    ensures var row := WeekRow(weekNum, layout);
      && |row| == 50 && row[0] == '│' && row[14] == '│' && row[49] == '│'
      && forall i :: 0 < i < 7 && IsBoundary(layout.dates, i) ==> row[14 + 5 * i] == '│'
  {
    LabelWidth(weekNum, layout);
    CellsWidth(layout.dates, 7);
    var gutter := Label(weekNum, layout);
    var cells := Cells(layout.dates, 7);
    RowIndexing(gutter, cells);
    forall i | 0 < i < 7 && IsBoundary(layout.dates, i)
      ensures WeekRow(weekNum, layout)[14 + 5 * i] == '│'
    {
      BarAtBoundary(layout.dates, i, 7);
    }
  }

  /** Indexing into a gutter, a bar, the cells and a closing bar. */
  lemma RowIndexing(gutter: string, cells: string)
    requires |gutter| == 14
    ensures var row := gutter + "│" + cells + "│";
      && |row| == |cells| + 16 && row[0] == gutter[0] && row[14] == '│' && row[|cells| + 15] == '│'
      && forall j :: 0 <= j < |cells| ==> row[15 + j] == cells[j]
  {
  }

  // ---------------------------------------------------------------------
  // Border lines.  The gutter part of each is 15 characters wide.

  /** The month-opening border above the first shown week (month starts at `i`). */
  function OpeningBorder(i: int): string
    requires 1 <= i <= 6
  {
    "│             ┌" + Repeat('─', (i - 1) * 5 + 4) + "┬" + Repeat('─', (DaysInWeek - i) * 5 - 1) + "┤\n"
  }

  /** The opening border when the month starts after the week's first day, else nothing. */
  function MonthBorder(layout: WeekLayout): string
    requires ShowableLayout(layout)
  {
    if layout.monthStartIdx.Some? && layout.monthStartIdx.value.0 > 0 then OpeningBorder(layout.monthStartIdx.value.0)
    else ""
  }

  /** month_border_to_string. */
  method MonthBorderToString(layout: WeekLayout) returns (out: string)
    requires ShowableLayout(layout)
    ensures out == MonthBorder(layout)
  {
    out := "";
    if layout.monthStartIdx.Some? {
      var idx := layout.monthStartIdx.value.0;
      if idx > 0 {
        out := out + "│             ┌";
        var dashesBefore := (idx - 1) * 5 + 4;
        var k := 0;
        while k < dashesBefore
          invariant 0 <= k <= dashesBefore
          invariant out == "│             ┌" + Repeat('─', k)
        {
          out := out + "─";
          k := k + 1;
        }
        out := out + "┬";
        var dashesAfter := (DaysInWeek - idx) * 5 - 1;
        out := out + Repeat('─', dashesAfter) + "┤\n";
      }
    }
  }

  /** The first index at or after `from` that is a month boundary. */
  function FirstBoundary(dates: seq<Date>, from: nat): (r: Option<nat>)
    requires from <= |dates|
    ensures r.Some? ==> from <= r.value < |dates| && IsBoundary(dates, r.value)
    ensures r.Some? ==> forall j :: from <= j < r.value ==> !IsBoundary(dates, j)
    ensures r.None? ==> forall j :: from <= j < |dates| ==> !IsBoundary(dates, j)
    decreases |dates| - from
  {
    if from == |dates| then None
    else if IsBoundary(dates, from) then Some(from)
    else FirstBoundary(dates, from + 1)
  }

  /** The closing border under the last week, with a `┴` under a month boundary. */
  function ClosingBorder(boundary: Option<nat>): string
    requires boundary.Some? ==> 1 <= boundary.value <= 6
  {
    match boundary
    case Some(i) =>
      "└" + Repeat('─', 13) + "┴" + Repeat('─', (i - 1) * 5 + 4) + "┴"
      + Repeat('─', (DaysInWeek - i) * 5 - 1) + "┘\n"
    case None =>
      "└" + Repeat('─', 13) + "┴" + Repeat('─', CalendarWidth) + "┘\n"
  }

  /** The closing border of weeks_to_string, placed at the week's first month boundary. */
  method ClosingBorderToString(layout: WeekLayout) returns (out: string)
    requires ShowableLayout(layout)
    ensures out == ClosingBorder(FirstBoundary(layout.dates, 1))
  {
    var monthBoundaryIdx: Option<nat> := None;
    var idx := 0;
    while idx < 7
      invariant 0 <= idx <= 7
      invariant monthBoundaryIdx.None?
      invariant forall j :: 0 < j < idx ==> !IsBoundary(layout.dates, j)
    {
      if idx > 0 {
        var date := layout.dates[idx];
        var prevDate := layout.dates[idx - 1];
        if date.month != prevDate.month || date.year != prevDate.year {
          assert IsBoundary(layout.dates, idx);
          assert FirstBoundary(layout.dates, 1) == Some(idx);
          monthBoundaryIdx := Some(idx);
          break;
        }
      }
      idx := idx + 1;
    }
    if monthBoundaryIdx.Some? {
      var boundaryIdx := monthBoundaryIdx.value;
      var dashesBefore := (boundaryIdx - 1) * 5 + 4;
      var dashesAfter := (DaysInWeek - boundaryIdx) * 5 - 1;
      out := "└" + Repeat('─', 13) + "┴" + Repeat('─', dashesBefore) + "┴" + Repeat('─', dashesAfter) + "┘\n";
      assert out == ClosingBorder(Some(boundaryIdx));
    } else {
      assert FirstBoundary(layout.dates, 1).None?;
      out := "└" + Repeat('─', 13) + "┴" + Repeat('─', CalendarWidth) + "┘\n";
    }
  }

  /** The date belongs to the month being drawn, in the displayed year. */
  predicate InMonth(year: int, currentMonth: Option<int>, d: Date) {
    d.year == year && currentMonth == Some(d.month)
  }

  /** Index `i` is where the week enters the month being drawn. */
  predicate EntersMonth(dates: seq<Date>, year: int, currentMonth: Option<int>, i: int)
    requires 0 <= i < |dates|
  {
    InMonth(year, currentMonth, dates[i]) && !(i > 0 && InMonth(year, currentMonth, dates[i - 1]))
  }

  /** The last index below `n` where the week enters the month being drawn. */
  function LastEntry(dates: seq<Date>, year: int, currentMonth: Option<int>, n: nat): (r: Option<nat>)
    requires n <= |dates|
    ensures r.Some? ==> r.value < n && EntersMonth(dates, year, currentMonth, r.value)
    ensures r.Some? ==> forall j :: r.value < j < n ==> !EntersMonth(dates, year, currentMonth, j)
    ensures r.None? ==> forall j :: 0 <= j < n ==> !EntersMonth(dates, year, currentMonth, j)
  {
    if n == 0 then None
    else if EntersMonth(dates, year, currentMonth, n - 1) then Some(n - 1)
    else LastEntry(dates, year, currentMonth, n - 1)
  }

  /** The mid-table separator under a week in which a month starts at `bar`. */
  function SeparatorLine(bar: Option<nat>): string
    requires bar.Some? ==> bar.value <= 6
  {
    if bar.Some? && bar.value > 0 then
      var i := bar.value;
      "│             ├" + Repeat('─', (i - 1) * 5 + 4) + "┘" + Repeat(' ', (DaysInWeek - i) * 5 - 1) + "│\n"
    else
      "│             ├" + "───────────────────────────────┤│\n"
  }

  /** separator_to_string. */
  method SeparatorToString(year: int, layout: WeekLayout, currentMonth: Option<int>) returns (out: string)
    requires ShowableLayout(layout)
    ensures out == SeparatorLine(LastEntry(layout.dates, year, currentMonth, 7))
  {
    out := "│             ├";
    var firstBarIdx: Option<nat> := None;
    var idx := 0;
    while idx < 7
      invariant 0 <= idx <= 7
      invariant firstBarIdx == LastEntry(layout.dates, year, currentMonth, idx)
    {
      var date := layout.dates[idx];
      var inMonth := date.year == year && Some(date.month) == currentMonth;
      var prevInMonth := false;
      if idx > 0 {
        var prevDate := layout.dates[idx - 1];
        prevInMonth := prevDate.year == year && Some(prevDate.month) == currentMonth;
      }
      if inMonth && !prevInMonth {
        firstBarIdx := Some(idx);
      }
      idx := idx + 1;
    }
    if firstBarIdx.Some? && firstBarIdx.value > 0 {
      var barIdx := firstBarIdx.value;
      var dashes := (barIdx - 1) * 5 + 4;
      out := out + Repeat('─', dashes) + "┘";
      var spaces := (DaysInWeek - barIdx) * 5 - 1;
      out := out + Repeat(' ', spaces) + "│\n";
    } else {
      out := out + "───────────────────────────────┤│\n";
    }
  }

  /**
   * separator_before_month_to_string: the line announcing a month that starts
   * next week.  When a month starts, it is a full line closed by `┤`; without
   * one, the gutter is followed by blanks and no right edge.
   */
  function SeparatorBeforeMonthToString(nextLayout: WeekLayout): (s: string)
    requires nextLayout.monthStartIdx.Some? ==> nextLayout.monthStartIdx.value.0 <= 6
    ensures |s| == (if nextLayout.monthStartIdx.Some? then 51 else 47) && s[|s| - 1] == '\n'
    ensures nextLayout.monthStartIdx.Some? ==> s[49] == '┤'
    ensures nextLayout.monthStartIdx.None? ==> s[14] == '│' && forall j :: 15 <= j < 46 ==> s[j] == ' '
  {
    match nextLayout.monthStartIdx
    case Some((0, _)) =>
      "│             ├" + Repeat('─', CalendarWidth) + "┤" + "\n"
    case Some((i, _)) =>
      "│             │" + Repeat(' ', (i - 1) * 5 + 4) + "┌"
      + Repeat('─', (DaysInWeek - 1 - i) * 5 + 4) + "┤" + "\n"
    case None =>
      "│             │" + Repeat(' ', DaysInWeek * 4 + 3) + "\n"
  }

  /**
   * The border lines are laid out as: a 15-column gutter ending in a corner,
   * a run up to the boundary glyph, the glyph, a run up to the right edge,
   * the edge and a newline.  `Framed` names that shape.
   */
  predicate Framed(line: string, corner: char, glyph: char, edge: char, i: int) {
    && |line| == 51 && 1 <= i <= 6
    && line[14] == corner && line[14 + 5 * i] == glyph && line[49] == edge && line[50] == '\n'
  }

  lemma {:induction false} FrameParts(gutter: string, run1: string, glyph: string, run2: string, tail: string, i: int)
    requires 1 <= i <= 6 && |gutter| == 15 && |run1| == (i - 1) * 5 + 4 && |glyph| == 1
    requires |run2| == (DaysInWeek - i) * 5 - 1 && |tail| == 2 && tail[1] == '\n'
    ensures Framed(gutter + run1 + glyph + run2 + tail, gutter[14], glyph[0], tail[0], i)
  {
    var line := gutter + run1 + glyph + run2 + tail;
    assert line[14] == gutter[14];
    assert line[14 + 5 * i] == (gutter + run1 + glyph)[14 + 5 * i];
  }

  /** The month-opening border has its `┬` over the boundary. */
  lemma OpeningBorderAligns(i: int)
    requires 1 <= i <= 6
    ensures Framed(OpeningBorder(i), '┌', '┬', '┤', i)
  {
    FrameParts("│             ┌", Repeat('─', (i - 1) * 5 + 4), "┬", Repeat('─', (DaysInWeek - i) * 5 - 1), "┤\n", i);
  }

  /** The closing border has its `┴` under the boundary. */
  lemma ClosingBorderAligns(i: int)
    requires 1 <= i <= 6
    ensures Framed(ClosingBorder(Some(i)), '┴', '┴', '┘', i)
  {
    FrameParts("└" + Repeat('─', 13) + "┴", Repeat('─', (i - 1) * 5 + 4), "┴", Repeat('─', (DaysInWeek - i) * 5 - 1), "┘\n", i);
  }

  /** The separator has its `┘` at the boundary. */
  lemma SeparatorAligns(i: int)
    requires 1 <= i <= 6
    ensures Framed(SeparatorLine(Some(i)), '├', '┘', '│', i)
  {
    FrameParts("│             ├", Repeat('─', (i - 1) * 5 + 4), "┘", Repeat(' ', (DaysInWeek - i) * 5 - 1), "│\n", i);
  }

  /** The pre-month separator has its `┌` at the boundary of the next week. */
  lemma SeparatorBeforeMonthAligns(nextLayout: WeekLayout)
    requires nextLayout.monthStartIdx.Some? && 1 <= nextLayout.monthStartIdx.value.0 <= 6
    ensures Framed(SeparatorBeforeMonthToString(nextLayout), '│', '┌', '┤', nextLayout.monthStartIdx.value.0)
  {
    var i := nextLayout.monthStartIdx.value.0;
    assert SeparatorBeforeMonthToString(nextLayout) ==
      "│             │" + Repeat(' ', (i - 1) * 5 + 4) + "┌" + Repeat('─', (DaysInWeek - 1 - i) * 5 + 4) + "┤\n";
    FrameParts("│             │", Repeat(' ', (i - 1) * 5 + 4), "┌", Repeat('─', (DaysInWeek - 1 - i) * 5 + 4), "┤\n", i);
  }

  /** Without a boundary the closing and pre-month borders are full-width lines too. */
  lemma BoundaryFreeBorders(nextLayout: WeekLayout)
    requires nextLayout.monthStartIdx.Some? && nextLayout.monthStartIdx.value.0 == 0
    ensures |ClosingBorder(None)| == 51 && ClosingBorder(None)[49] == '┘'
    ensures var pre := SeparatorBeforeMonthToString(nextLayout);
      |pre| == 51 && pre[14] == '├' && pre[49] == '┤'
  {
    var pre := SeparatorBeforeMonthToString(nextLayout);
    assert pre == "│             ├" + Repeat('─', CalendarWidth) + "┤" + "\n";
  }

  // ---------------------------------------------------------------------
  // The header

  function DayAbbrev(w: Weekday): string {
    match w
    case Mon => "Mon" case Tue => "Tue" case Wed => "Wed" case Thu => "Thu"
    case Fri => "Fri" case Sat => "Sat" case Sun => "Sun"
  }

  /** The weekdays in column order: the configured first day of the week, then the next six. */
  function ColumnOrder(weekStart: WeekStart): (order: seq<Weekday>)
    ensures |order| == 7
  {
    match weekStart
    case Monday => [Mon, Tue, Wed, Thu, Fri, Sat, Sun]
    case Sunday => [Sun, Mon, Tue, Wed, Thu, Fri, Sat]
  }

  /** The first `n` column headings: each name and two spaces, the last name and one. */
  function Headings(order: seq<Weekday>, n: nat): (h: string)
    requires n <= |order| == 7
    ensures |h| == 5 * n - (if n == 7 then 1 else 0)
  {
    if n == 0 then ""
    else Headings(order, n - 1) + DayAbbrev(order[n - 1]) + (if n < 7 then "  " else " ")
  }

  /**
   * The column-heading line of the header, "│", fourteen spaces, then
   * "Mon  Tue  Wed  Thu  Fri  Sat  Sun │" or the Sunday-first order.
   */
  function DayNamesLine(weekStart: WeekStart): string {
    "│" + Repeat(' ', 14) + Headings(ColumnOrder(weekStart), 7) + "│\n"
  }

  function Title(year: int): string {
    "COMPACT CALENDAR " + IntToString(year)
  }

  /** A horizontal rule of the header between two corner glyphs. */
  function RuleLine(left: char, right: char): string {
    [left] + Repeat('─', HeaderWidth) + [right, '\n']
  }

  /** The title line: the title centred between two vertical bars. */
  function TitleLine(year: int): string {
    "│" + Center(Title(year), HeaderWidth) + "│\n"
  }

  /**
   * header_to_string: a top rule, the title line, a middle rule and the
   * column headings.  Whatever the year, the first line is a full-width top
   * rule and the last one the column headings, each fifty columns and a
   * newline; the title line may only grow, never shrink.
   */
  function HeaderToString(cal: Calendar): (h: string)
    ensures |h| >= 4 * 51
    ensures TextLine(h[..51]) && h[0] == '┌' && h[49] == '┐'
    ensures forall j :: 1 <= j < 49 ==> h[j] == '─'
    ensures TextLine(h[|h| - 102 .. |h| - 51]) && h[|h| - 102] == '├' && h[|h| - 53] == '┤'
    ensures TextLine(h[|h| - 51 ..]) && h[|h| - 51 ..] == DayNamesLine(cal.weekStart)
  {
    var top := RuleLine('┌', '┐');
    var title := TitleLine(cal.year);
    var mid := RuleLine('├', '┤');
    var names := DayNamesLine(cal.weekStart);
    RuleIsLine('┌', '┐');
    RuleIsLine('├', '┤');
    DayNamesIsLine(cal.weekStart);
    CenterIsWide(Title(cal.year), HeaderWidth);
    FramedStack(top, title, mid, names);
    top + title + mid + names
  }

  /** Three full lines around a middle part of at least one line. */
  lemma FramedStack(a: string, b: string, c: string, d: string)
    requires TextLine(a) && |b| >= 51 && TextLine(c) && TextLine(d)
    ensures var s := a + b + c + d;
      && |s| >= 4 * 51 && s[..51] == a && s[|s| - 102 .. |s| - 51] == c && s[|s| - 51 ..] == d
  {
    var s := a + b + c + d;
    assert s == (a + b) + c + d;
    SliceOfMiddle(a + b, c, d, 0, 51);
    assert s[..51] == a;
    assert s[|s| - 51 ..] == d;
  }

  /** Four full lines, one after another. */
  lemma FourLines(a: string, b: string, c: string, d: string)
    requires TextLine(a) && TextLine(b) && TextLine(c) && TextLine(d)
    ensures Lines(a + b + c + d, 4)
  {
    var cd := c + d;
    var bcd := b + cd;
    assert d + [] == d;
    LinesCons(d, [], 0);
    LinesCons(c, d, 1);
    LinesCons(b, cd, 2);
    LinesCons(a, bcd, 3);
    assert a + b + c + d == a + bcd;
  }

  lemma SecondLine(a: string, b: string, c: string, d: string)
    requires |a| == 51 && |b| == 51
    ensures (a + b + c + d)[51..102] == b
  {
    assert a + b + c + d == a + b + (c + d);
    SliceOfMiddle(a, b, c + d, 0, 51);
  }

  /** A line of output: fifty columns, none of them a line break, then the newline. */
  predicate TextLine(l: string) {
    |l| == 51 && l[50] == '\n' && NoNewline(l[..50])
  }

  predicate NoNewline(s: string) {
    forall k :: 0 <= k < |s| ==> s[k] != '\n'
  }

  lemma RuleIsLine(left: char, right: char)
    requires left != '\n' && right != '\n'
    ensures TextLine(RuleLine(left, right))
    ensures RuleLine(left, right)[0] == left && RuleLine(left, right)[49] == right
    ensures forall j :: 1 <= j < 49 ==> RuleLine(left, right)[j] == '─'
  {
  }

  lemma {:induction false} HeadingsNoNewline(order: seq<Weekday>, n: nat)
    requires n <= |order| == 7
    ensures NoNewline(Headings(order, n))
  {
    if n > 0 {
      HeadingsNoNewline(order, n - 1);
      var name := DayAbbrev(order[n - 1]);
      assert NoNewline(name) by {
        match order[n - 1]
        case Mon => case Tue => case Wed => case Thu => case Fri => case Sat => case Sun =>
      }
      ConcatNoNewline(Headings(order, n - 1), name);
      ConcatNoNewline(Headings(order, n - 1) + name, if n < 7 then "  " else " ");
    }
  }

  lemma ConcatNoNewline(a: string, b: string)
    requires NoNewline(a) && NoNewline(b)
    ensures NoNewline(a + b)
  {
  }

  lemma DayNamesIsLine(weekStart: WeekStart)
    ensures TextLine(DayNamesLine(weekStart))
  {
    var lead := "│" + Repeat(' ', 14);
    var heads := Headings(ColumnOrder(weekStart), 7);
    HeadingsNoNewline(ColumnOrder(weekStart), 7);
    ConcatNoNewline(lead, heads);
    ConcatNoNewline(lead + heads, "│");
    assert DayNamesLine(weekStart)[..50] == lead + heads + "│";
  }

  /** The title is letters, a space, digits and perhaps a minus sign. */
  lemma TitleNoNewline(year: int)
    ensures NoNewline(Title(year))
  {
    var s := IntToString(year);
    assert NoNewline(s) by {
      if year < 0 {
        forall k | 1 <= k < |s|
          ensures s[k] != '\n'
        {
          assert s[k] == s[1..][k - 1];
        }
      }
    }
    ConcatNoNewline("COMPACT CALENDAR ", s);
  }

  /** Centring never makes a text narrower than the width asked for. */
  lemma CenterIsWide(t: string, w: nat)
    ensures |Center(t, w)| >= w
  {
  }

  /** Centring a line-free text adds only spaces. */
  lemma CenterNoNewline(t: string, w: nat)
    requires |t| <= w && NoNewline(t)
    ensures NoNewline(Center(t, w))
  {
    var c := Center(t, w);
    var off := (w - |t|) / 2;
    forall k | 0 <= k < |c|
      ensures c[k] != '\n'
    {
      if off <= k < off + |t| {
        assert c[k] == c[off .. off + |t|][k - off];
      }
    }
  }

  /** A line-free text that fits, centred between bars, is a full line. */
  lemma CenteredLine(t: string)
    requires |t| <= HeaderWidth && NoNewline(t)
    ensures TextLine("│" + Center(t, HeaderWidth) + "│\n")
    ensures var at := 1 + (HeaderWidth - |t|) / 2;
      ("│" + Center(t, HeaderWidth) + "│\n")[at .. at + |t|] == t
  {
    var c := Center(t, HeaderWidth);
    var off := (HeaderWidth - |t|) / 2;
    CenterNoNewline(t, HeaderWidth);
    ConcatNoNewline("│", c);
    ConcatNoNewline("│" + c, "│");
    assert "│" + c + "│\n" == "│" + (c + "│\n");
    assert ("│" + c + "│\n")[..50] == "│" + c + "│";
    SliceOfSuffix("│", c + "│\n", off, off + |t|);
    SliceOfPrefix(c, "│\n", off, off + |t|);
  }

  /** A title that fits is a full line with the title centred in it. */
  lemma TitleLineIsLine(year: int)
    requires |Title(year)| <= HeaderWidth
    ensures TextLine(TitleLine(year))
    ensures var t := Title(year); var at := 1 + (HeaderWidth - |t|) / 2;
      TitleLine(year)[at .. at + |t|] == t
  {
    TitleNoNewline(year);
    CenteredLine(Title(year));
  }

  /** Heading `k` occupies columns 5 * k to 5 * k + 2 of the headings. */
  lemma {:induction false} HeadingAt(order: seq<Weekday>, n: nat, k: nat)
    requires k < n <= |order| == 7
    ensures Headings(order, n)[5 * k .. 5 * k + 3] == DayAbbrev(order[k])
  {
    var before := Headings(order, n - 1);
    var after := DayAbbrev(order[n - 1]) + (if n < 7 then "  " else " ");
    if k < n - 1 {
      HeadingAt(order, n - 1, k);
      SliceOfPrefix(before, after, 5 * k, 5 * k + 3);
    } else {
      SliceOfPrefix(after, [], 0, 3);
      SliceOfSuffix(before, after, 0, 3);
    }
  }

  lemma SliceOfPrefix(a: string, b: string, i: nat, j: nat)
    requires i <= j <= |a|
    ensures (a + b)[i..j] == a[i..j]
  {
  }

  lemma SliceOfSuffix(a: string, b: string, i: nat, j: nat)
    requires i <= j <= |b|
    ensures (a + b)[|a| + i .. |a| + j] == b[i..j]
  {
  }

  /** The weekday of column `n` is the weekday of the dates shown in column `n`. */
  lemma ColumnOrderAt(cal: Calendar, d: Date)
    requires d.Valid()
    ensures ColumnOrder(cal.weekStart)[GetWeekdayNum(cal, d)] == DayOfWeek(d)
  {
  }

  /**
   * Each column heading stands over the day cells of its weekday: a date whose
   * weekday number is `n` is shown in cell `n`, whose columns start at
   * 15 + 5 * n, where its weekday's name starts.
   */
  lemma DayNamesMatchColumns(cal: Calendar, d: Date)
    requires d.Valid()
    ensures var n := GetWeekdayNum(cal, d);
      DayNamesLine(cal.weekStart)[15 + 5 * n .. 15 + 5 * n + 3] == DayAbbrev(DayOfWeek(d))
  {
    DayNameAt(cal.weekStart, GetWeekdayNum(cal, d));
    ColumnOrderAt(cal, d);
  }

  /** Heading `n` of the column-heading line starts at column 15 + 5 * n. */
  lemma DayNameAt(weekStart: WeekStart, n: nat)
    requires n < 7
    ensures DayNamesLine(weekStart)[15 + 5 * n .. 15 + 5 * n + 3] == DayAbbrev(ColumnOrder(weekStart)[n])
  {
    var order := ColumnOrder(weekStart);
    var lead := "│" + Repeat(' ', 14);
    var heads := Headings(order, 7);
    HeadingAt(order, 7, n);
    SliceOfMiddle(lead, heads, "│\n", 5 * n, 5 * n + 3);
  }

  lemma SliceOfMiddle(a: string, b: string, c: string, i: nat, j: nat)
    requires i <= j <= |b|
    ensures (a + b + c)[|a| + i .. |a| + j] == b[i..j]
  {
    SliceOfSuffix(a, b + c, i, j);
    SliceOfPrefix(b, c, i, j);
    assert a + b + c == a + (b + c);
  }

  function Pow10(k: nat): nat {
    if k == 0 then 1 else 10 * Pow10(k - 1)
  }

  lemma {:induction false} DecimalLength(n: nat, k: nat)
    requires n < Pow10(k)
    ensures |Decimal(n)| <= k || (n == 0 && k == 0)
    decreases k
  {
    if n >= 10 {
      DecimalLength(n / 10, k - 1);
    }
  }

  /** A 32-bit year has at most ten digits, so its title fits the header. */
  lemma {:induction false} TitleFits(year: int)
    requires -0x8000_0000 <= year < 0x8000_0000
    ensures |Title(year)| <= HeaderWidth
  {
    assert Pow10(10) == 10000000000;
    if year >= 0 {
      DecimalLength(year, 10);
    } else {
      DecimalLength(-year, 10);
    }
  }

  /** `s` is `n` output lines, one after another. */
  predicate Lines(s: string, n: nat) {
    if n == 0 then s == [] else |s| >= 51 && TextLine(s[..51]) && Lines(s[51..], n - 1)
  }

  lemma LinesCons(a: string, b: string, n: nat)
    requires TextLine(a) && Lines(b, n)
    ensures Lines(a + b, n + 1)
  {
    assert (a + b)[..51] == a;
    assert (a + b)[51..] == b;
  }

  /**
   * For any 32-bit year the title fits, so the header is exactly four lines
   * of fifty columns and a newline, the second of them the centred title.
   */
  lemma {:induction false} HeaderShape(cal: Calendar)
    requires -0x8000_0000 <= cal.year < 0x8000_0000
    ensures |Title(cal.year)| <= HeaderWidth
    ensures Lines(HeaderToString(cal), 4)
    ensures HeaderToString(cal)[51..102] == TitleLine(cal.year)
  {
    TitleFits(cal.year);
    TitleLineIsLine(cal.year);
    RuleIsLine('┌', '┐');
    RuleIsLine('├', '┤');
    DayNamesIsLine(cal.weekStart);
    FourLines(RuleLine('┌', '┐'), TitleLine(cal.year), RuleLine('├', '┤'), DayNamesLine(cal.weekStart));
    SecondLine(RuleLine('┌', '┐'), TitleLine(cal.year), RuleLine('├', '┤'), DayNamesLine(cal.weekStart));
  }
}
