# compact-calendar: the text renderer, modelled in Dafny

compact-calendar prints a whole year as one column of weeks. Each week is one row of seven
day cells, with a week label (`│W07 February `) in front and a note after it. The note lists
that week's dated details (`02/14 - Valentine`) and the date ranges first overlapping it
(`03/01 to 03/05 - Trip`). Box-drawing lines open, separate and close the months. The
`Calendar` record (src/models.rs) holds the year, the week start, the display options, a map
of per-day details and a list of coloured date ranges. The renderer (src/rendering.rs) turns
it into text. This project models the path that builds a `String` (`render_to_string` and
everything it calls), the `Calendar` record and its helpers, and the pure colour lookups.

Modules, one file each:

- `Models` (models.dfy): the enums, `DateDetail`, `DateRange`, `Calendar`, the month filter
  as a resolved month span, and `get_weekday_num`.
- `Dates` (dates.dfy): a proleptic Gregorian date with a closed-form day ordinal. It stands in
  for chrono's `NaiveDate`: `succ`, `pred`, adding days, comparison and weekday.
- `Text` (text.dfy): the `format!` pieces the renderer uses. These are `{:02}`, `{}` on
  integers, `{:<w}`, `{:^w}`, fill runs and `join`.
- `Layout` (layout.dfy): `WeekLayout::new`, seven consecutive dates plus the first index in
  the week that starts a month, and the English month names.
- `Palette` (palette.dfy): `get_color_value`, the fifteen named colours with normal and
  dimmed RGB.
- `ColorResolver` (colors.dfy): `get_date_color`, the colour precedence for one day.
- `Rows` (rows.dfy): the header, the week row, and the four border and separator lines. Each
  has a specification function, a method that builds it the way the source does, and lemmas
  saying where the box-drawing characters fall.
- `Annotations` (annotations.dfy): `collect_details` and `annotations_to_string`. These cover
  the details queue, the removal in reverse index order and the "shown once" list of ranges.
- `Walk` (walk.dfy): `align_to_week_start`, `should_render_week`, the week loop of
  `weeks_to_string`, and `render_to_string`.

The week loop is specified week by week. `StateBefore(k)` is the loop state (current month,
first-month flag, details queue, shown ranges) before week `k`. `WeeksOutput(k)` is the text
of the first `k` weeks. `WeeksToString` is proved to produce `WeeksOutput(WalkLength)`. The
lemmas in `Walk` then state what the source's loop promises:

- it stops;
- every day of the filtered range is on a rendered row;
- only the last week is followed by the closing border;
- the opening border appears at most once, on the first week;
- the details queue is empty at the start of every week;
- each range is announced exactly once, on the first rendered week that overlaps it.

The `&mut Vec` arguments of `collect_details` and `annotations_to_string` are in/out values.
The source never aliases them.

## Model

| member | source | states |
|---|---|---|
| Models.NewCalendar | src/models.rs:53-71 | every field of the new calendar is the argument of the same name; nothing is defaulted or changed |
| Models.GetWeekdayNum | src/models.rs:73-78 | the column is in 0..6; it is 0 exactly on the configured first weekday (Monday or Sunday) and 6 exactly on the day before it (Sunday or Saturday) |
| Models.SundayColumnFollowsMondayColumn | src/models.rs:74-77 | for any date, the Sunday-start column is the Monday-start column plus one, modulo 7 |
| Models.NextDayNextColumn | src/models.rs:73-78 | the next day is a valid date one column to the right, wrapping from 6 to 0, under either week start |
| Models.PrevDayPrevColumn | src/models.rs:73-78 | the previous day is a valid date one column to the left, wrapping from 0 to 6 |
| Models.MonthFilter.GetDateRange | src/rendering.rs:229-233 | the range runs from day 1 of the first shown month to the last day of the last shown month, in the given year; both ends are valid and ordered; the day after the end starts another month |
| Models.FilterMonthsMatchDateRange | src/rendering.rs:217-225 | a date is in the calendar year and in a shown month exactly when it lies in the filter's date range |
| Dates.SuccOrdinal | src/rendering.rs:276-278 | the day after a valid date is valid and its ordinal is one more, across month and year ends and 29 February |
| Dates.PredOrdinal | src/rendering.rs:648 | the day before a valid date is valid and its ordinal is one less |
| Dates.SuccOfPred | src/rendering.rs:648 | stepping back a day and then forward returns the same date |
| Dates.PredOfSucc | src/rendering.rs:276-278 | stepping forward a day and then back returns the same date |
| Dates.SuccNOrdinal | src/rendering.rs:276-278 | adding n days gives a valid date whose ordinal is n more |
| Dates.PredNOrdinal | src/rendering.rs:645-651 | going back n days gives a valid date whose ordinal is n less |
| Dates.OrdinalWithinYear | src/rendering.rs:302 | a date's ordinal lies strictly after every earlier year's days and within its own year |
| Dates.LeIffOrdinalLe | src/rendering.rs:265 | date order (year, then month, then day) is the order of ordinals, and two valid dates are equal exactly when their ordinals are |
| Dates.SuccWeekday | src/models.rs:75 | the next day's Monday-based weekday number is one more, modulo 7 |
| Dates.SameWeekdayWeeksApart | src/rendering.rs:276-278 | two dates a whole number of weeks apart fall on the same weekday |
| Dates.FirstOfFebruary2024 | src/models.rs:75 | pins the weekday numbering to the real calendar: 1 February 2024 is a Thursday |
| Text.Pad2 | src/rendering.rs:411 | the result is two digits whose value is n |
| Text.Decimal | src/rendering.rs:240 | the result is decimal digits with no leading zero from 10 up, one digit exactly below 10 |
| Text.DecimalRoundTrip | src/rendering.rs:240 | reading the printed digits back gives n |
| Text.ZeroPad2 | src/rendering.rs:392 | `{:02}` on a week number gives at least two digits, equal to the two-digit form below 100 and the plain decimal from 10 up |
| Text.IntToString | src/rendering.rs:240 | a non-negative year prints as digits whose value is the year; a negative one prints as '-' followed by digits whose value is its magnitude; there is no leading zero from 10 up |
| Text.Repeat | src/rendering.rs:237 | a fill run has length n and holds only the fill character |
| Text.PadRight | src/rendering.rs:392 | `{:<w}` keeps the text as a prefix and pads with spaces to width w; longer text is unchanged |
| Text.Center | src/rendering.rs:241 | `{:^w}` gives width w with the text at offset (w - len) / 2 and spaces in every other column; longer text is unchanged |
| Text.Join | src/rendering.rs:481 | joining no notes gives the empty string, and joining one note gives that note |
| Text.JoinAppend | src/rendering.rs:481 | joining two non-empty runs of notes gives the first run joined, one separator, then the second run joined, so the separator sits between neighbouring notes and nowhere else |
| Layout.NewWeekLayout | src/rendering.rs:266 | the week holds the seven dates start, start+1, …, start+6; the month marker is present exactly when some day of the week starts a month, and then it is the first such index, with that day's month |
| Layout.FirstMonthStart | src/rendering.rs:281 | the search returns the first index at or after `from` that starts a month, with its month, or nothing when none does |
| Layout.WeekDatesConsecutive | src/rendering.rs:399-425 | every day of a week is valid, day k has ordinal start+k, and each day is the successor of the one before |
| Layout.StartsMonthIffFirstDay | src/rendering.rs:400-405 | within a week, a day starts a month exactly when it is the first of its month |
| Layout.AtMostOneMonthStart | src/rendering.rs:281 | no day after the marked index starts a month, so a week shows at most one month start |
| Layout.MonthName | src/rendering.rs:386 | an English month name has 3 to 9 letters, so it fits the 9-column label |
| Layout.MonthNamesDistinct | src/rendering.rs:386 | different months have different names |
| Palette.GetColorValue | src/rendering.rs:53-114 | a name has a colour exactly when it is one of the fifteen palette names; every channel is 0..255 and each dimmed channel is about 70% of the normal one |
| Palette.DimmedNeverBrighter | src/rendering.rs:53-114 | for every palette colour, no dimmed channel exceeds its normal channel |
| ColorResolver.FirstRangeColor | src/rendering.rs:669-673 | there is no range colour exactly when no range contains the date; otherwise it is the colour of the first range that contains it |
| ColorResolver.GetDateColor | src/rendering.rs:653-676 | precedence: a weekend shown as work days has no colour, then the day's detail colour, then the first containing range's colour, then none |
| ColorResolver.ColorComesFromCalendar | src/rendering.rs:653-676 | any colour returned is the day's detail colour, or the colour of a range that contains the day |
| ColorResolver.LaterRangesDoNotOverride | src/rendering.rs:669-672 | appending ranges never changes the range colour of a date that an earlier range already contains |
| Rows.WeekRowToString | src/rendering.rs:378-429 | the built row is the week label, a bar, the seven day cells and a closing bar |
| Rows.CellToString | src/rendering.rs:399-425 | one cell is an optional month bar, " DD", then two spaces, or one space before a month boundary and after the last day |
| Rows.CellsWidth | src/rendering.rs:399-425 | the first n cells take 5 columns each, with one column fewer where the next cell opens a month, so the last cell ends the row |
| Rows.BarAtBoundary | src/rendering.rs:407-409 | a month boundary before day i puts the '│' at column 5i-1 of the cell run |
| Rows.LabelWidth | src/rendering.rs:391-395 | for week numbers below 100 the week label is 14 columns and starts with '│' |
| Rows.WeekRowShape | src/rendering.rs:378-429 | the cells fill the 34-column calendar width; the row has its bars at column 0, 14 and 49, and at 14+5i for every month boundary before day i |
| Rows.MonthBorderToString | src/rendering.rs:361-376 | the built border is the opening border at the month-start index when that index is after the first day, and empty otherwise |
| Rows.OpeningBorderAligns | src/rendering.rs:365-372 | the opening border is 50 columns plus the newline, with '┌' above the label bar, '┬' above the month boundary at 14+5i and '┤' above the right bar |
| Rows.FirstBoundary | src/rendering.rs:305-314 | the search returns the first day index at or after `from` where the month changes, or nothing |
| Rows.ClosingBorderToString | src/rendering.rs:304-334 | the built closing border is the one for the week's first month boundary |
| Rows.ClosingBorderAligns | src/rendering.rs:316-326 | with a boundary at day i, the closing border is 50 columns plus the newline with '┴' under the label bar and under column 14+5i, and '┘' at the right end |
| Rows.LastEntry | src/rendering.rs:490-503 | the scan returns the last day index whose date enters the current month, or nothing when none does |
| Rows.SeparatorToString | src/rendering.rs:486-519 | the built separator is the one for the last index that enters the current month |
| Rows.SeparatorAligns | src/rendering.rs:505-510 | with that index i, the separator is 50 columns plus the newline with '├' at the label bar, '┘' at 14+5i and '│' at the right end |
| Rows.SeparatorBeforeMonthToString | src/rendering.rs:521-546 | when the next week starts a month, the line is 50 columns plus the newline and ends in '┤'; otherwise it is the gutter's '│' and blanks, 46 columns plus the newline, with no right edge |
| Rows.SeparatorBeforeMonthAligns | src/rendering.rs:521-546 | before a week whose month starts at day i > 0, the line is 50 columns plus the newline with '│' at the label bar, '┌' at 14+5i and '┤' at the right end |
| Rows.BoundaryFreeBorders | src/rendering.rs:327-333 | the closing border of a week without a boundary is 50 columns plus the newline ending in '┘'; the pre-month line before a month starting at index 0 is 50 columns plus the newline with '├' at the label bar and '┤' at the right end |
| Rows.Headings | src/rendering.rs:246-247 | n weekday headings take 5n columns, one fewer when all seven are written |
| Rows.HeadingAt | src/rendering.rs:246-247 | heading k occupies columns 5k to 5k+2 of the heading run |
| Rows.DayNamesMatchColumns | src/rendering.rs:244-248 | the heading above every day column names that day's weekday, for either week start |
| Rows.HeaderToString | src/rendering.rs:235-250 | for any year, the header opens with the top rule ('┌', 48 '─', '┐') and ends with the middle rule ('├' … '┤') and the column-heading line, each 50 columns with no line break, then the newline |
| Rows.RuleIsLine | src/rendering.rs:237-243 | a header rule is its left corner, 48 '─' and its right corner, then the newline |
| Rows.TitleFits | src/rendering.rs:240-241 | for any 32-bit year, "COMPACT CALENDAR " and the year fit the 48 header columns |
| Rows.TitleLineIsLine | src/rendering.rs:240-241 | a title that fits makes a title line of 50 columns plus the newline, with the title centred at column 1 + (48 - length) / 2 |
| Rows.DayNamesIsLine | src/rendering.rs:244-248 | the column-heading line is 50 columns with no line break, then the newline |
| Rows.DayNameAt | src/rendering.rs:244-248 | the n-th weekday in column order is written at column 15 + 5n of the heading line |
| Rows.ColumnOrderAt | src/rendering.rs:245-248 | the weekday named over column n is the weekday of the dates shown in column n |
| Rows.HeaderShape | src/rendering.rs:235-250 | for any 32-bit year the title fits, and the header is exactly four lines, each 50 columns with no line break followed by a newline; the second is the centred title line |
| Annotations.CollectDetails | src/rendering.rs:682-694 | the queue after the loop is the queue with the week's new details appended in date order |
| Annotations.Collect | src/rendering.rs:687-693 | queueing keeps every entry's date valid |
| Annotations.CollectKeepsQueue | src/rendering.rs:686-690 | entries already queued stay in place; the queue only grows |
| Annotations.CollectAddsDetails | src/rendering.rs:687-690 | every new entry is a day of the week paired with that day's detail |
| Annotations.CollectKeepsDistinct | src/rendering.rs:689 | a queue without repeated dates stays without repeated dates |
| Annotations.CollectCovers | src/rendering.rs:687-693 | after the loop, every day of the week that has a detail is queued |
| Annotations.DetailNotes | src/rendering.rs:446-450 | one note per entry, in queue order, each "MM/DD - description" |
| Annotations.MmDd | src/rendering.rs:448 | `%m/%d` is five characters: two digits reading as the month, '/', two digits reading as the day |
| Annotations.DueIndicesFacts | src/rendering.rs:444-452 | the recorded indices are ascending, in bounds, and are exactly the entries inside the week |
| Annotations.ScanWeekDetails | src/rendering.rs:443-453 | the scan yields the notes of the due entries and their indices |
| Annotations.RemoveOneMore | src/rendering.rs:455-456 | removing the next lower recorded index from the partly filtered queue drops exactly one more due entry |
| Annotations.RemovalDone | src/rendering.rs:455-457 | after the last removal, the queue is the entries outside the week, in order |
| Annotations.TakeWeekDetails | src/rendering.rs:443-457 | the notes are the due entries' notes, and the queue keeps exactly the entries outside the week |
| Annotations.DueAndRemainingPartition | src/rendering.rs:443-457 | the due entries and the kept entries together are the old queue, as a multiset |
| Annotations.DueInsideWeek | src/rendering.rs:445 | every due entry's date lies in the week |
| Annotations.RemainingOutsideWeek | src/rendering.rs:445 | every kept entry's date lies outside the week |
| Annotations.AllInsideDrained | src/rendering.rs:443-457 | when every entry lies in the week, all are announced and the queue becomes empty |
| Annotations.RemainingKeepsOrder | src/rendering.rs:454-457 | the kept entries appear in their original relative order |
| Annotations.NewlyShown | src/rendering.rs:460-461 | only indices of existing ranges are announced |
| Annotations.ShownAfterWeek | src/rendering.rs:459-478 | after a week, a range has been shown exactly when it had been shown before or the week overlaps it |
| Annotations.NewlyShownFacts | src/rendering.rs:459-478 | the announced ranges are exactly those not shown before that overlap the week, in ascending index order |
| Annotations.ShownStaysDistinct | src/rendering.rs:461-476 | a shown list without repeats stays without repeats |
| Annotations.RangeNotes | src/rendering.rs:462-475 | one note per announced range |
| Annotations.RangeNotesAt | src/rendering.rs:462-475 | note j is "MM/DD to MM/DD", plus " - description" when present, for the j-th announced range |
| Annotations.RangeNoteToString | src/rendering.rs:462-475 | the built note is the range's note |
| Annotations.ShowRange | src/rendering.rs:461-477 | one iteration extends the notes and the shown list exactly as announcing ranges 0..n would |
| Annotations.ShowWeekRanges | src/rendering.rs:459-478 | the shown list gains the newly announced ranges and the notes are their notes, in index order |
| Annotations.AnnotationsToString | src/rendering.rs:431-484 | the note is the detail notes followed by the range notes, joined by ", "; the queue keeps the entries outside the week; the shown list gains the announced ranges |
| Walk.AlignedStart | src/rendering.rs:645-651 | the aligned date is valid, lies in column 0, and lies 0..6 days before the date, the number of days being the date's column; a date already in column 0 is unchanged |
| Walk.ColumnsBack | src/rendering.rs:647-649 | each of the first `column` steps back from a date moves exactly one column left |
| Walk.AlignToWeekStart | src/rendering.rs:645-651 | the loop returns the aligned date, which sits in column 0 |
| Walk.AlignStep | src/rendering.rs:647-648 | one step back keeps the date valid and moves it one column left |
| Walk.WeekStartsInFirstColumn | src/rendering.rs:256-350 | every week the walk visits starts on a valid date in column 0 |
| Walk.GetFilteredDateRange | src/rendering.rs:229-233 | the range has valid, ordered ends in the calendar year, and starts on a first of the month |
| Walk.ShouldRenderWeek | src/rendering.rs:215-226 | a week with no day in the calendar year is never rendered, whatever the filter; with all twelve months shown, a week is rendered exactly when one of its days is in the year |
| Walk.ShouldRenderWeekIffOverlaps | src/rendering.rs:215-226 | a week is rendered exactly when it overlaps the filtered date range |
| Walk.VisitedWeekRenders | src/rendering.rs:268-274 | a week starting at most six days before the range, and no later than its end, is rendered |
| Walk.Step | src/rendering.rs:281-297 | one week keeps the loop state well formed |
| Walk.StateBefore | src/rendering.rs:257-263 | the loop state before every week is well formed |
| Walk.TrailerToString | src/rendering.rs:301-348 | the built line after a week is the closing border, the mid-week separator, the pre-month separator, or nothing |
| Walk.RenderWeek | src/rendering.rs:266-299 | one week's text and new loop state are the specified block and step |
| Walk.WeeksFrom | src/rendering.rs:265-355 | the walk never goes back |
| Walk.AdvanceWalk | src/rendering.rs:276-351 | after one more week, the output and the loop state are those of the first n+1 weeks |
| Walk.WeeksToString | src/rendering.rs:252-359 | the output is the text of exactly WalkLength weeks from the aligned start |
| Walk.WeeksFromStops | src/rendering.rs:265-355 | the walk visits weeks while they continue and stops at the first that does not |
| Walk.AlignedStartBeforeRange | src/rendering.rs:254-256 | the first week starts on or before the range's first day, at most six days earlier |
| Walk.WalkLengthBound | src/rendering.rs:265-355 | the walk renders at most 54 weeks, so every week number printed by `{:02}` has two digits |
| Walk.WalkStops | src/rendering.rs:265-355 | at least one week is rendered; every rendered week starts by the range's end; the walk ends at the first week past the end or the year |
| Walk.WalkCoversRange | src/rendering.rs:265-355 | every day of the filtered range appears in a rendered week |
| Walk.WalkedWeeksRender | src/rendering.rs:268-274 | every week the walk reaches passes should_render_week, so the skip never fires |
| Walk.ClosingBorderOnlyAfterLastWeek | src/rendering.rs:301-304 | the is_last_week test holds for the last rendered week and for no other |
| Walk.FirstMonthClearedAfter | src/rendering.rs:281-287 | once a week shows a month start, is_first_month is false for all later weeks |
| Walk.OpeningBorderAtMostOnce | src/rendering.rs:281-287 | at most one week can emit the opening month border |
| Walk.OpeningBorderOnFirstWeekOnly | src/rendering.rs:281-287 | the opening month border is considered exactly on the first rendered week |
| Walk.WeekDayInWeek | src/rendering.rs:445 | every day of a week lies between its first and last day |
| Walk.CollectedInWeek | src/rendering.rs:289 | a detail queued during a week, from an empty queue, is for one of that week's days |
| Walk.WeekDrainsQueue | src/rendering.rs:289-297 | starting from an empty queue, a week announces every detail of its days and leaves the queue empty |
| Walk.QueueEmptyBeforeEachWeek | src/rendering.rs:260-297 | details_queue is empty at the start of every week |
| Walk.ShownNeverRepeats | src/rendering.rs:261-297 | shown_ranges never lists a range twice, so no range is announced twice in one render |
| Walk.ShownGrows | src/rendering.rs:293-297 | each week appends the ranges it announces to shown_ranges |
| Walk.ShownExactly | src/rendering.rs:261-297 | before week k, shown_ranges holds exactly the ranges that one of the first k weeks overlaps |
| Walk.OverlappedBeforeStep | src/rendering.rs:265-297 | a range overlaps one of the first k weeks exactly when it overlaps one of the first k-1 or week k-1 |
| Walk.AnnouncedOnFirstOverlap | src/rendering.rs:459-478 | a range is announced in week k exactly when week k overlaps it and no earlier week does: each range is announced once, on the first week that reaches it |
| Walk.RenderToString | src/rendering.rs:196-212 | the output is the header, the weeks and a final newline |

## Left out

- The terminal printers (`print_*`, `render`, src/rendering.rs:548-913) are not modelled. They write to standard output with anstyle colours, and they depend on today's date for highlighting and dimming.
- The `NO_COLOR` save-and-restore around `render_to_string` is not modelled, because it is process environment. `ColorPalette`'s style builders and `ColorCodes` are not modelled either.
- Palette.GetColorValue: keeps the RGB triples only. The anstyle `Style` values built from them are not modelled.
- src/main.rs (argument parsing, config loading) is not part of this model.
- src/formatting.rs is not part of this model. `WeekLayout::new` and `MonthInfo::from_month` are modelled from their uses in src/rendering.rs. The month names are the English ones.
- Models.MonthFilter: the month filter is a resolved span `startMonth..endMonth` stored in `Calendar.monthFilter`. How the command-line filter variants resolve to that span is not modelled.
- Dates: years are unbounded. chrono's date limits, and the `unwrap` panics of `checked_add_signed` and `pred_opt` at those limits, are not modelled.
- Rows.LabelWidth: the 14-column label is proved only for week numbers below 100. Walk.WalkLengthBound shows that the walk never numbers a week above 54, so every rendered label is covered. The week number is an `i32` in the source and is unbounded here.
- Rows.HeaderShape: states the four-line shape only for years in the 32-bit range, the range of the source's `i32` year. For wider years the title overflows; HeaderToString still states the first and last two lines.
- Walk.WeeksToString: the loop does not contain the `should_render_week` skip (src/rendering.rs:268-274). Walk.WalkedWeeksRender proves that every week the walk reaches passes that test, so the branch is dead.
- Rows.SeparatorToString: the fallback line for a week with no entry into the current month is modelled as written. No lemma says whether the walk reaches it.
- Rows.SeparatorBeforeMonthToString: the line for a next week without a month start is modelled as written, 46 columns plus the newline with no right edge. Trailer only asks for this line when the next week starts a month, so the walk never prints that branch.
- Walk.Step: the contract states only that the state stays well formed. What a week does to the state is stated by the lemmas about `StateBefore`.
- `details_queue` and `shown_ranges` are values passed in and returned, so aliasing of the vectors is not captured. `details` is a map, so its iteration order does not arise.
- The `_current_month` parameters that the row and border builders ignore are dropped.
