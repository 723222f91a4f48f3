/**
 * CalendarRenderer::get_date_color: the colour name a date is drawn with.
 * First match wins: a weekend in Work mode gets no colour, then the date's
 * own detail colour, then the first range in stored order that contains the
 * date, else none.
 */
module ColorResolver {
  import opened Dates
  import opened Models

  predicate IsWeekend(d: Date)
    requires d.Valid()
  {
    DayOfWeek(d) == Sat || DayOfWeek(d) == Sun
  }

  /** `k` is the first index of `ranges` whose range contains `date`. */
  predicate FirstContaining(ranges: seq<DateRange>, date: Date, k: int) {
    0 <= k < |ranges| && ranges[k].Contains(date)
    && forall j :: 0 <= j < k ==> !ranges[j].Contains(date)
  }

  /** Work mode and a Saturday or Sunday. */
  predicate WorkWeekend(cal: Calendar, date: Date)
    requires date.Valid()
  {
    cal.colorMode == Work && IsWeekend(date)
  }

  predicate HasDetailColor(cal: Calendar, date: Date) {
    date in cal.details && cal.details[date].color.Some?
  }

  /** The colour of the first range in `ranges` that contains `date`. */
  function FirstRangeColor(ranges: seq<DateRange>, date: Date): (r: Option<string>)
    ensures r.None? <==> forall k :: 0 <= k < |ranges| ==> !ranges[k].Contains(date)
    ensures r.Some? ==> exists k :: FirstContaining(ranges, date, k) && r.value == ranges[k].color
    decreases |ranges|
  {
    if |ranges| == 0 then None
    else if ranges[0].Contains(date) then Some(ranges[0].color)
    else
      var r := FirstRangeColor(ranges[1..], date);
      assert r.Some? ==> exists k :: FirstContaining(ranges, date, k) && r.value == ranges[k].color by {
        if r.Some? {
          var k :| FirstContaining(ranges[1..], date, k) && r.value == ranges[1..][k].color;
          assert forall j :: 1 <= j < k + 1 ==> ranges[j] == ranges[1..][j - 1];
          assert FirstContaining(ranges, date, k + 1);
        }
      }
      r
  }

  /** The colour name for `date`, by the precedence above. */
  function GetDateColor(cal: Calendar, date: Date): (r: Option<string>)
    requires date.Valid()
    // 1. Work mode never colours a weekend.
    ensures WorkWeekend(cal, date) ==> r == None
    // 2. Otherwise an explicit detail colour wins.
    ensures !WorkWeekend(cal, date) && HasDetailColor(cal, date) ==> r == cal.details[date].color
    // 3. Otherwise the first containing range in stored order gives the colour, 4. else none.
    ensures !WorkWeekend(cal, date) && !HasDetailColor(cal, date) ==>
      (r.None? <==> forall k :: 0 <= k < |cal.ranges| ==> !cal.ranges[k].Contains(date))
    ensures !WorkWeekend(cal, date) && !HasDetailColor(cal, date) && r.Some? ==>
      exists k :: FirstContaining(cal.ranges, date, k) && r.value == cal.ranges[k].color
  {
    if WorkWeekend(cal, date) then None
    else if HasDetailColor(cal, date) then cal.details[date].color
    else FirstRangeColor(cal.ranges, date)
  }

  /** Any colour given is a colour named by a detail or a range of the calendar. */
  lemma ColorComesFromCalendar(cal: Calendar, date: Date)
    requires date.Valid() && GetDateColor(cal, date).Some?
    ensures (date in cal.details && cal.details[date].color == GetDateColor(cal, date))
         || exists k :: 0 <= k < |cal.ranges| && cal.ranges[k].Contains(date)
                     && cal.ranges[k].color == GetDateColor(cal, date).value
  {
  }

  /** Ranges added after a range that already contains the date do not change its colour. */
  lemma {:induction false} LaterRangesDoNotOverride(ranges: seq<DateRange>, more: seq<DateRange>, date: Date)
    requires FirstRangeColor(ranges, date).Some?
    ensures FirstRangeColor(ranges + more, date) == FirstRangeColor(ranges, date)
    decreases |ranges|
  {
    if !ranges[0].Contains(date) {
      assert (ranges + more)[1..] == ranges[1..] + more;
      LaterRangesDoNotOverride(ranges[1..], more, date);
    }
  }
}
