/**
 * Proleptic Gregorian calendar dates, the way the renderer uses chrono's
 * NaiveDate: a (year, month, day) triple, the day after and the day before,
 * "+ n days", the weekday, and the date ordering.  The day ordinal
 * (0001-01-01 is day 1) connects the triple to a day count, so that the
 * day-stepping functions can be shown to move by exactly one day across
 * month and year boundaries.
 */
module Dates {

  datatype Date = Date(year: int, month: int, day: int)
  {
    /** A real calendar date (chrono never builds any other). */
    predicate Valid() {
      1 <= month <= 12 && 1 <= day <= DaysInMonth(year, month)
    }
  }

  datatype Weekday = Mon | Tue | Wed | Thu | Fri | Sat | Sun

  predicate IsLeap(y: int) {
    y % 4 == 0 && (y % 100 != 0 || y % 400 == 0)
  }

  function DaysInYear(y: int): (n: int)
    ensures n == 365 || n == 366
  {
    if IsLeap(y) then 366 else 365
  }

  function DaysInMonth(y: int, m: int): (n: int)
    ensures 28 <= n <= 31
  {
    if m == 2 then (if IsLeap(y) then 29 else 28)
    else if m == 4 || m == 6 || m == 9 || m == 11 then 30
    else 31
  }

  /** Days in the years before `y`; the divisions are floor divisions. */
  function DaysBeforeYear(y: int): int {
    var p := y - 1;
    365 * p + p / 4 - p / 100 + p / 400
  }

  /** Days of year `y` that come before the first of month `m`. */
  function DaysBeforeMonth(y: int, m: int): int
    requires 1 <= m <= 12
  {
    var common := [0, 31, 59, 90, 120, 151, 181, 212, 243, 273, 304, 334][m - 1];
    if m > 2 && IsLeap(y) then common + 1 else common
  }

  /** The day ordinal: 0001-01-01 is day 1. */
  function Ordinal(d: Date): int
    requires 1 <= d.month <= 12
  {
    DaysBeforeYear(d.year) + DaysBeforeMonth(d.year, d.month) + d.day
  }

  /** The weekday, counted from day 1 (0001-01-01), which is a Monday. */
  function DayOfWeek(d: Date): Weekday
    requires 1 <= d.month <= 12
  {
    WeekdayFromMonday((Ordinal(d) - 1) % 7)
  }

  function WeekdayFromMonday(n: int): Weekday
    requires 0 <= n < 7
  {
    [Mon, Tue, Wed, Thu, Fri, Sat, Sun][n]
  }

  /** chrono's Weekday::num_days_from_monday. */
  function NumDaysFromMonday(w: Weekday): nat {
    match w
    case Mon => 0 case Tue => 1 case Wed => 2 case Thu => 3
    case Fri => 4 case Sat => 5 case Sun => 6
  }

  /** chrono's Weekday::num_days_from_sunday. */
  function NumDaysFromSunday(w: Weekday): nat {
    match w
    case Sun => 0 case Mon => 1 case Tue => 2 case Wed => 3
    case Thu => 4 case Fri => 5 case Sat => 6
  }

  /** The next calendar day (NaiveDate::succ_opt). */
  function Succ(d: Date): Date {
    if d.day < DaysInMonth(d.year, d.month) then Date(d.year, d.month, d.day + 1)
    else if d.month < 12 then Date(d.year, d.month + 1, 1)
    else Date(d.year + 1, 1, 1)
  }

  /** The previous calendar day (NaiveDate::pred_opt). */
  function Pred(d: Date): Date {
    if d.day > 1 then Date(d.year, d.month, d.day - 1)
    else if d.month > 1 then Date(d.year, d.month - 1, DaysInMonth(d.year, d.month - 1))
    else Date(d.year - 1, 12, 31)
  }

  /** `d` plus `n` days. */
  function SuccN(d: Date, n: nat): Date
    decreases n
  {
    if n == 0 then d else Succ(SuccN(d, n - 1))
  }

  /** `d` minus `n` days. */
  function PredN(d: Date, n: nat): Date
    decreases n
  {
    if n == 0 then d else Pred(PredN(d, n - 1))
  }

  /** NaiveDate's ordering: by year, then month, then day. */
  predicate Le(a: Date, b: Date) {
    a.year < b.year
    || (a.year == b.year && (a.month < b.month || (a.month == b.month && a.day <= b.day)))
  }

  // ---------------------------------------------------------------------
  // Day-ordinal lemmas

  lemma DivStep4(p: int)
    ensures (p + 1) / 4 == p / 4 + (if (p + 1) % 4 == 0 then 1 else 0)
  {
  }

  lemma DivStep100(p: int)
    ensures (p + 1) / 100 == p / 100 + (if (p + 1) % 100 == 0 then 1 else 0)
  {
  }

  lemma DivStep400(p: int)
    ensures (p + 1) / 400 == p / 400 + (if (p + 1) % 400 == 0 then 1 else 0)
  {
  }

  lemma MultipleOf100(y: int)
    requires y % 100 == 0
    ensures y % 4 == 0
  {
    assert y == 4 * (25 * (y / 100));
  }

  lemma MultipleOf400(y: int)
    requires y % 400 == 0
    ensures y % 100 == 0
  {
    assert y == 100 * (4 * (y / 400));
  }

  lemma {:induction false} DaysBeforeNextYear(y: int)
    ensures DaysBeforeYear(y + 1) == DaysBeforeYear(y) + DaysInYear(y)
  {
    DivStep4(y - 1);
    DivStep100(y - 1);
    DivStep400(y - 1);
    if y % 100 == 0 {
      MultipleOf100(y);
    }
    if y % 400 == 0 {
      MultipleOf400(y);
    }
  }

  lemma DaysBeforeNextMonth(y: int, m: int)
    requires 1 <= m < 12
    ensures DaysBeforeMonth(y, m + 1) == DaysBeforeMonth(y, m) + DaysInMonth(y, m)
  {
  }

  lemma DaysBeforeDecember(y: int)
    ensures DaysBeforeMonth(y, 12) + DaysInMonth(y, 12) == DaysInYear(y)
  {
  }

  /** The next day is a real date one ordinal later. */
  lemma {:induction false} SuccOrdinal(d: Date)
    requires d.Valid()
    ensures Succ(d).Valid() && Ordinal(Succ(d)) == Ordinal(d) + 1
  {
    if d.day < DaysInMonth(d.year, d.month) {
    } else if d.month < 12 {
      DaysBeforeNextMonth(d.year, d.month);
    } else {
      DaysBeforeNextYear(d.year);
      DaysBeforeDecember(d.year);
    }
  }

  /** The previous day is a real date one ordinal earlier. */
  lemma {:induction false} PredOrdinal(d: Date)
    requires d.Valid()
    ensures Pred(d).Valid() && Ordinal(Pred(d)) == Ordinal(d) - 1
  {
    if d.day > 1 {
    } else if d.month > 1 {
      DaysBeforeNextMonth(d.year, d.month - 1);
    } else {
      DaysBeforeNextYear(d.year - 1);
      DaysBeforeDecember(d.year - 1);
    }
  }

  /** The day after the day before is the day itself. */
  lemma SuccOfPred(d: Date)
    requires d.Valid()
    ensures Succ(Pred(d)) == d
  {
  }

  /** The day before the day after is the day itself. */
  lemma PredOfSucc(d: Date)
    requires d.Valid()
    ensures Pred(Succ(d)) == d
  {
  }

  lemma {:induction false} SuccNOrdinal(d: Date, n: nat)
    requires d.Valid()
    ensures SuccN(d, n).Valid() && Ordinal(SuccN(d, n)) == Ordinal(d) + n
    decreases n
  {
    if n > 0 {
      SuccNOrdinal(d, n - 1);
      SuccOrdinal(SuccN(d, n - 1));
    }
  }

  lemma {:induction false} PredNOrdinal(d: Date, n: nat)
    requires d.Valid()
    ensures PredN(d, n).Valid() && Ordinal(PredN(d, n)) == Ordinal(d) - n
    decreases n
  {
    if n > 0 {
      PredNOrdinal(d, n - 1);
      PredOrdinal(PredN(d, n - 1));
    }
  }

  /** Every day of year `y` has an ordinal inside that year's block of days. */
  lemma {:induction false} OrdinalWithinYear(d: Date)
    requires d.Valid()
    ensures DaysBeforeYear(d.year) < Ordinal(d) <= DaysBeforeYear(d.year + 1)
  {
    DaysBeforeNextYear(d.year);
    DaysBeforeDecember(d.year);
    if d.month < 12 {
      DaysBeforeMonthMonotone(d.year, d.month, 12);
    }
  }

  lemma {:induction false} DaysBeforeYearMonotone(a: int, b: int)
    requires a <= b
    ensures DaysBeforeYear(a) <= DaysBeforeYear(b)
    decreases b - a
  {
    if a < b {
      DaysBeforeNextYear(a);
      DaysBeforeYearMonotone(a + 1, b);
    }
  }

  lemma {:induction false} DaysBeforeMonthMonotone(y: int, a: int, b: int)
    requires 1 <= a < b <= 12
    ensures DaysBeforeMonth(y, a) + DaysInMonth(y, a) <= DaysBeforeMonth(y, b)
    decreases b - a
  {
    DaysBeforeNextMonth(y, a);
    if a + 1 < b {
      DaysBeforeMonthMonotone(y, a + 1, b);
    }
  }

  /** The date ordering is the ordering of day ordinals. */
  lemma {:induction false} LeIffOrdinalLe(a: Date, b: Date)
    requires a.Valid() && b.Valid()
    ensures Le(a, b) <==> Ordinal(a) <= Ordinal(b)
    ensures a == b <==> Ordinal(a) == Ordinal(b)
  {
    OrdinalWithinYear(a);
    OrdinalWithinYear(b);
    if a.year < b.year {
      DaysBeforeYearMonotone(a.year + 1, b.year);
    } else if b.year < a.year {
      DaysBeforeYearMonotone(b.year + 1, a.year);
    } else if a.month < b.month {
      DaysBeforeMonthMonotone(a.year, a.month, b.month);
    } else if b.month < a.month {
      DaysBeforeMonthMonotone(a.year, b.month, a.month);
    }
  }

  lemma WeekdayIndex(n: int)
    requires 0 <= n < 7
    ensures NumDaysFromMonday(WeekdayFromMonday(n)) == n
  {
  }

  lemma Mod7Step(o: int)
    ensures (o + 1) % 7 == (o % 7 + 1) % 7
  {
  }

  /** Consecutive days have consecutive weekdays. */
  lemma {:induction false} SuccWeekday(d: Date)
    requires d.Valid()
    ensures NumDaysFromMonday(DayOfWeek(Succ(d))) == (NumDaysFromMonday(DayOfWeek(d)) + 1) % 7
  {
    SuccOrdinal(d);
    var o := Ordinal(d) - 1;
    WeekdayIndex(o % 7);
    WeekdayIndex((o + 1) % 7);
    Mod7Step(o);
  }

  lemma {:induction false} Mod7Shift(o: int, k: nat)
    ensures (o + 7 * k) % 7 == o % 7
    decreases k
  {
    if k > 0 {
      Mod7Shift(o, k - 1);
      assert o + 7 * k == (o + 7 * (k - 1)) + 7;
    }
  }

  /** Dates a whole number of weeks apart fall on the same weekday. */
  lemma SameWeekdayWeeksApart(d: Date, e: Date, k: nat)
    requires d.Valid() && e.Valid() && Ordinal(e) == Ordinal(d) + 7 * k
    ensures DayOfWeek(e) == DayOfWeek(d)
  {
    Mod7Shift(Ordinal(d) - 1, k);
  }

  /** 2024-02-01 is a Thursday. */
  lemma FirstOfFebruary2024()
    ensures DayOfWeek(Date(2024, 2, 1)) == Thu
  {
  }
}
