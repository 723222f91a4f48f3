/**
 * The two collaborators the renderer takes from the formatting module:
 * WeekLayout (the seven days shown on one row, and where a month starts on
 * that row) and MonthInfo (month number to display name).  The formatting
 * module itself is not part of this model; both are stated here the way the
 * renderer uses them.
 */
module Layout {
  import opened Dates
  import opened Models

  /**
   * Seven consecutive dates, and the first index whose date starts a month
   * together with that month's number.
   */
  datatype WeekLayout = WeekLayout(dates: seq<Date>, monthStartIdx: Option<(nat, int)>)

  /**
   * Index `i` starts a month: at index 0 when the date is the first of its
   * month, further on when month or year differs from the previous date's.
   */
  predicate StartsMonth(dates: seq<Date>, i: nat)
    requires i < |dates|
  {
    if i == 0 then dates[0].day == 1
    else dates[i].month != dates[i - 1].month || dates[i].year != dates[i - 1].year
  }

  /** The first index at or after `from` that starts a month, with its month. */
  function FirstMonthStart(dates: seq<Date>, from: nat): (r: Option<(nat, int)>)
    requires from <= |dates|
    ensures r.Some? ==> from <= r.value.0 < |dates| && StartsMonth(dates, r.value.0)
    ensures r.Some? ==> r.value.1 == dates[r.value.0].month
    ensures r.Some? ==> forall j :: from <= j < r.value.0 ==> !StartsMonth(dates, j)
    ensures r.None? ==> forall j :: from <= j < |dates| ==> !StartsMonth(dates, j)
    decreases |dates| - from
  {
    if from == |dates| then None
    else if StartsMonth(dates, from) then Some((from, dates[from].month))
    else FirstMonthStart(dates, from + 1)
  }

  /** WeekLayout::new: `start` and the six days after it. */
  function NewWeekLayout(start: Date): (layout: WeekLayout)
    ensures |layout.dates| == 7
    ensures forall k :: 0 <= k < 7 ==> layout.dates[k] == SuccN(start, k)
    ensures layout.monthStartIdx.Some? <==> exists i :: 0 <= i < 7 && StartsMonth(layout.dates, i)
    ensures layout.monthStartIdx.Some? ==>
      var (i, m) := layout.monthStartIdx.value;
      i < 7 && StartsMonth(layout.dates, i) && m == layout.dates[i].month
      && forall j :: 0 <= j < i ==> !StartsMonth(layout.dates, j)
  {
    var dates := seq(7, k requires 0 <= k => SuccN(start, k));
    WeekLayout(dates, FirstMonthStart(dates, 0))
  }

  /** A layout as WeekLayout::new builds it from a real date. */
  predicate WellFormed(layout: WeekLayout) {
    |layout.dates| == 7 && layout.dates[0].Valid() && layout == NewWeekLayout(layout.dates[0])
  }

  /** The days of a layout built from a real date are real dates, one day apart. */
  lemma {:induction false} WeekDatesConsecutive(start: Date, k: nat)
    requires start.Valid() && k < 7
    ensures NewWeekLayout(start).dates[k].Valid()
    ensures Ordinal(NewWeekLayout(start).dates[k]) == Ordinal(start) + k
    ensures k < 6 ==> NewWeekLayout(start).dates[k + 1] == Succ(NewWeekLayout(start).dates[k])
  {
    SuccNOrdinal(start, k);
  }

  /** Along consecutive days, a new month starts exactly on a first of the month. */
  lemma {:induction false} StartsMonthIffFirstDay(start: Date, i: nat)
    requires start.Valid() && i < 7
    ensures StartsMonth(NewWeekLayout(start).dates, i) <==> NewWeekLayout(start).dates[i].day == 1
  {
    if i > 0 {
      WeekDatesConsecutive(start, i - 1);
    }
  }

  /** Every day of a well-formed layout is a real date, and a marked month is a real month. */
  lemma {:induction false} WellFormedDates(layout: WeekLayout)
    requires WellFormed(layout)
    ensures forall k :: 0 <= k < 7 ==> layout.dates[k].Valid()
    ensures layout.monthStartIdx.Some? ==> 1 <= layout.monthStartIdx.value.1 <= 12
  {
    forall k | 0 <= k < 7
      ensures layout.dates[k].Valid()
    {
      WeekDatesConsecutive(layout.dates[0], k);
    }
  }

  /** From a first of the month, the next `n` < 28 days stay in that month. */
  lemma {:induction false} DaysAfterFirst(d: Date, n: nat)
    requires d.Valid() && d.day == 1 && n < 28
    ensures SuccN(d, n) == Date(d.year, d.month, 1 + n)
    decreases n
  {
    if n > 0 {
      DaysAfterFirst(d, n - 1);
    }
  }

  /** A week shows at most one month start, since no month is shorter than 28 days. */
  lemma {:induction false} AtMostOneMonthStart(start: Date, i: nat, j: nat)
    requires start.Valid() && i < j < 7
    requires StartsMonth(NewWeekLayout(start).dates, i)
    ensures !StartsMonth(NewWeekLayout(start).dates, j)
  {
    var dates := NewWeekLayout(start).dates;
    StartsMonthIffFirstDay(start, i);
    StartsMonthIffFirstDay(start, j);
    WeekDatesConsecutive(start, i);
    SuccNSplit(start, i, j - i);
    DaysAfterFirst(dates[i], j - i);
  }

  lemma {:induction false} SuccNSplit(d: Date, a: nat, b: nat)
    ensures SuccN(d, a + b) == SuccN(SuccN(d, a), b)
    decreases b
  {
    if b > 0 {
      SuccNSplit(d, a, b - 1);
    }
  }

  /** MonthInfo::from_month(month).name. */
  function MonthName(month: int): (name: string)
    requires 1 <= month <= 12
    ensures 3 <= |name| <= 9
  {
    ["January", "February", "March", "April", "May", "June", "July",
     "August", "September", "October", "November", "December"][month - 1]
  }

  /** Different months have different names. */
  lemma MonthNamesDistinct(a: int, b: int)
    requires 1 <= a <= 12 && 1 <= b <= 12 && a != b
    ensures MonthName(a) != MonthName(b)
  {
  }
}
