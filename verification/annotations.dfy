/**
 * The annotation bookkeeping of the week walk: collect_details queues the
 * point details of a week's dates, and annotations_to_string drains from that
 * queue the entries dated inside the week and announces, once per render,
 * every range that overlaps the week.
 *
 * The two `&mut Vec` arguments of the source are passed in and handed back
 * as values; nothing else holds them while a call runs.
 */
module Annotations {
  import opened Dates
  import opened Models
  import opened Text

  /** A pending point detail: its date and its note. */
  type Entry = (Date, DateDetail)

  predicate Queued(queue: seq<Entry>, d: Date) {
    exists i :: 0 <= i < |queue| && queue[i].0 == d
  }

  /** No date is queued twice. */
  predicate DistinctDates(queue: seq<Entry>) {
    forall i, j :: 0 <= i < j < |queue| ==> queue[i].0 != queue[j].0
  }

  predicate EntriesValid(queue: seq<Entry>) {
    forall i :: 0 <= i < |queue| ==> queue[i].0.Valid()
  }

  // ---------------------------------------------------------------------
  // collect_details

  /** One date of collect_details: queue its detail unless the date is already queued. */
  function CollectOne(cal: Calendar, queue: seq<Entry>, d: Date): seq<Entry> {
    if d in cal.details && !Queued(queue, d) then queue + [(d, cal.details[d])] else queue
  }

  /** collect_details over the first `n` dates, in order. */
  function Collect(cal: Calendar, queue: seq<Entry>, dates: seq<Date>, n: nat): (r: seq<Entry>)
    requires n <= |dates|
    ensures EntriesValid(queue) && (forall k :: 0 <= k < n ==> dates[k].Valid()) ==> EntriesValid(r)
  {
    if n == 0 then queue else CollectOne(cal, Collect(cal, queue, dates, n - 1), dates[n - 1])
  }

  /** collect_details. */
  method CollectDetails(cal: Calendar, dates: seq<Date>, queue: seq<Entry>) returns (queue': seq<Entry>)
    ensures queue' == Collect(cal, queue, dates, |dates|)
  {
    queue' := queue;
    for k := 0 to |dates|
      invariant queue' == Collect(cal, queue, dates, k)
    {
      var date := dates[k];
      if date in cal.details {
        var present := exists i | 0 <= i < |queue'| :: queue'[i].0 == date;
        if !present {
          queue' := queue' + [(date, cal.details[date])];
        }
      }
    }
  }

  /** The queue only grows at its end: what was queued stays, in place. */
  lemma {:induction false} CollectKeepsQueue(cal: Calendar, queue: seq<Entry>, dates: seq<Date>, n: nat)
    requires n <= |dates|
    ensures |queue| <= |Collect(cal, queue, dates, n)|
    ensures Collect(cal, queue, dates, n)[..|queue|] == queue
  {
    if n > 0 {
      CollectKeepsQueue(cal, queue, dates, n - 1);
    }
  }

  /** Every appended entry is one of the dates, with that date's detail from the calendar. */
  lemma {:induction false} CollectAddsDetails(cal: Calendar, queue: seq<Entry>, dates: seq<Date>, n: nat)
    requires n <= |dates|
    ensures var r := Collect(cal, queue, dates, n);
      forall i :: |queue| <= i < |r| ==>
        (exists k :: 0 <= k < n && r[i].0 == dates[k])
        && r[i].0 in cal.details && r[i].1 == cal.details[r[i].0]
  {
    if n > 0 {
      CollectAddsDetails(cal, queue, dates, n - 1);
      CollectKeepsQueue(cal, queue, dates, n - 1);
    }
  }

  /** A date is never queued twice. */
  lemma {:induction false} CollectKeepsDistinct(cal: Calendar, queue: seq<Entry>, dates: seq<Date>, n: nat)
    requires n <= |dates| && DistinctDates(queue)
    ensures DistinctDates(Collect(cal, queue, dates, n))
  {
    if n > 0 {
      CollectKeepsDistinct(cal, queue, dates, n - 1);
    }
  }

  /** Afterwards every one of the dates that has a detail is queued. */
  lemma {:induction false} CollectCovers(cal: Calendar, queue: seq<Entry>, dates: seq<Date>, n: nat)
    requires n <= |dates|
    ensures forall k :: 0 <= k < n && dates[k] in cal.details ==> Queued(Collect(cal, queue, dates, n), dates[k])
  {
    if n > 0 {
      CollectCovers(cal, queue, dates, n - 1);
      var before := Collect(cal, queue, dates, n - 1);
      var after := Collect(cal, queue, dates, n);
      assert after[..|before|] == before;
      forall k | 0 <= k < n && dates[k] in cal.details
        ensures Queued(after, dates[k])
      {
        if k < n - 1 {
          var i :| 0 <= i < |before| && before[i].0 == dates[k];
          assert after[i] == before[i];
        } else if !Queued(before, dates[k]) {
          assert after[|before|].0 == dates[k];
        } else {
          var i :| 0 <= i < |before| && before[i].0 == dates[k];
          assert after[i] == before[i];
        }
      }
    }
  }

  // ---------------------------------------------------------------------
  // The point-detail part of annotations_to_string

  /** The date lies in the week from `first` to `last`, both included. */
  predicate InWeek(d: Date, first: Date, last: Date) {
    Le(first, d) && Le(d, last)
  }

  /** The entries outside the week, in queue order. */
  function Remaining(queue: seq<Entry>, first: Date, last: Date): (r: seq<Entry>)
    ensures EntriesValid(queue) ==> EntriesValid(r)
    decreases |queue|
  {
    if |queue| == 0 then []
    else
      var e := queue[|queue| - 1];
      Remaining(queue[..|queue| - 1], first, last) + (if InWeek(e.0, first, last) then [] else [e])
  }

  /** The entries inside the week, in queue order. */
  function Due(queue: seq<Entry>, first: Date, last: Date): (r: seq<Entry>)
    ensures EntriesValid(queue) ==> EntriesValid(r)
    decreases |queue|
  {
    if |queue| == 0 then []
    else
      var e := queue[|queue| - 1];
      Due(queue[..|queue| - 1], first, last) + (if InWeek(e.0, first, last) then [e] else [])
  }

  /** The queue indices below `n` whose entries are inside the week, ascending. */
  function DueIndices(queue: seq<Entry>, first: Date, last: Date, n: nat): seq<nat>
    requires n <= |queue|
  {
    if n == 0 then []
    else DueIndices(queue, first, last, n - 1) + (if InWeek(queue[n - 1].0, first, last) then [n - 1] else [])
  }

  /** `%m/%d`. */
  function MmDd(d: Date): (s: string)
    requires d.Valid()
    ensures |s| == 5 && s[2] == '/'
    ensures IsDigits(s[..2]) && DecimalValue(s[..2]) == d.month
    ensures IsDigits(s[3..]) && DecimalValue(s[3..]) == d.day
  {
    var s := Pad2(d.month) + "/" + Pad2(d.day);
    assert s[..2] == Pad2(d.month) && s[3..] == Pad2(d.day);
    s
  }

  function DetailNote(e: Entry): string
    requires e.0.Valid()
  {
    MmDd(e.0) + " - " + e.1.description
  }

  function DetailNotes(entries: seq<Entry>): (notes: seq<string>)
    requires EntriesValid(entries)
    ensures |notes| == |entries|
    ensures forall i :: 0 <= i < |entries| ==> notes[i] == DetailNote(entries[i])
  {
    seq(|entries|, i requires 0 <= i < |entries| => DetailNote(entries[i]))
  }

  lemma {:induction false} DueIndicesFacts(queue: seq<Entry>, first: Date, last: Date, n: nat)
    requires n <= |queue|
    ensures var ix := DueIndices(queue, first, last, n);
      && (forall j :: 0 <= j < |ix| ==> ix[j] < n && InWeek(queue[ix[j]].0, first, last))
      && (forall j1, j2 :: 0 <= j1 < j2 < |ix| ==> ix[j1] < ix[j2])
      && (forall m :: 0 <= m < n && InWeek(queue[m].0, first, last) ==> m in ix)
  {
    if n > 0 {
      DueIndicesFacts(queue, first, last, n - 1);
    }
  }

  lemma {:induction false} RemainingConcat(a: seq<Entry>, b: seq<Entry>, first: Date, last: Date)
    ensures Remaining(a + b, first, last) == Remaining(a, first, last) + Remaining(b, first, last)
    decreases |b|
  {
    if |b| == 0 {
      assert a + b == a;
    } else {
      assert (a + b)[..|a + b| - 1] == a + b[..|b| - 1];
      RemainingConcat(a, b[..|b| - 1], first, last);
    }
  }

  lemma {:induction false} RemainingOutside(a: seq<Entry>, first: Date, last: Date)
    requires forall i :: 0 <= i < |a| ==> !InWeek(a[i].0, first, last)
    ensures Remaining(a, first, last) == a
    decreases |a|
  {
    if |a| > 0 {
      var init := a[..|a| - 1];
      assert forall i :: 0 <= i < |init| ==> init[i] == a[i];
      RemainingOutside(init, first, last);
      assert a == init + [a[|a| - 1]];
    }
  }

  /**
   * No entry strictly between two consecutive removal indices (or after the
   * last one, or before the first) is inside the week.
   */
  lemma GapOutside(queue: seq<Entry>, first: Date, last: Date, ix: seq<nat>, k: nat, m: nat)
    requires ix == DueIndices(queue, first, last, |queue|)
    requires k <= |ix|
    requires m < |queue|
    requires (if k == 0 then 0 else ix[k - 1] + 1) <= m < (if k == |ix| then |queue| else ix[k])
    ensures !InWeek(queue[m].0, first, last)
  {
    DueIndicesFacts(queue, first, last, |queue|);
    forall j | 0 <= j < |ix|
      ensures ix[j] != m
    {
      if j < k {
        assert ix[j] <= ix[k - 1];
      } else {
        assert ix[k] <= ix[j];
      }
    }
  }

  /** The queue with only the entries from index `t` on filtered. */
  function Kept(queue: seq<Entry>, first: Date, last: Date, t: nat): seq<Entry>
    requires t <= |queue|
  {
    queue[..t] + Remaining(queue[t..], first, last)
  }

  /** Where the removal loop stands after removing all but the first `k` indices. */
  function Cut(ix: seq<nat>, k: nat, n: nat): nat
    requires k <= |ix|
  {
    if k == |ix| then n else ix[k]
  }

  /** From ix[k - 1] up to the next removal index only ix[k - 1] itself is inside the week. */
  lemma RemovedEntryAndGap(queue: seq<Entry>, first: Date, last: Date, ix: seq<nat>, k: nat)
    requires ix == DueIndices(queue, first, last, |queue|) && 0 < k <= |ix|
    requires ix[k - 1] < Cut(ix, k, |queue|) <= |queue|
    ensures Remaining(queue[ix[k - 1]..], first, last)
      == queue[ix[k - 1] + 1..Cut(ix, k, |queue|)] + Remaining(queue[Cut(ix, k, |queue|)..], first, last)
  {
    var t := Cut(ix, k, |queue|);
    var i := ix[k - 1];
    forall m | i < m < t
      ensures !InWeek(queue[m].0, first, last)
    {
      GapOutside(queue, first, last, ix, k, m);
    }
    assert InWeek(queue[i].0, first, last) by {
      DueIndicesFacts(queue, first, last, |queue|);
    }
    RemainingAround(queue, first, last, i, t);
  }

  /** An entry inside the week followed by a run of entries outside it. */
  lemma RemainingAround(queue: seq<Entry>, first: Date, last: Date, i: nat, t: nat)
    requires i < t <= |queue| && InWeek(queue[i].0, first, last)
    requires forall m :: i < m < t ==> !InWeek(queue[m].0, first, last)
    ensures Remaining(queue[i..], first, last) == queue[i + 1..t] + Remaining(queue[t..], first, last)
  {
    var gap := queue[i + 1..t];
    SliceAround(queue, i, t);
    RemainingOfGap(queue, first, last, i, t);
    RemainingConcat([queue[i]] + gap, queue[t..], first, last);
    RemainingConcat([queue[i]], gap, first, last);
    RemainingOfInside(queue[i], first, last);
    assert [] + gap == gap;
  }

  lemma SliceAround<T>(s: seq<T>, i: nat, t: nat)
    requires i < t <= |s|
    ensures s[i..] == [s[i]] + s[i + 1..t] + s[t..]
  {
  }

  lemma RemainingOfGap(queue: seq<Entry>, first: Date, last: Date, i: nat, t: nat)
    requires i < t <= |queue|
    requires forall m :: i < m < t ==> !InWeek(queue[m].0, first, last)
    ensures Remaining(queue[i + 1..t], first, last) == queue[i + 1..t]
  {
    var gap := queue[i + 1..t];
    assert forall m :: 0 <= m < |gap| ==> gap[m] == queue[i + 1 + m];
    RemainingOutside(gap, first, last);
  }

  lemma RemainingOfInside(e: Entry, first: Date, last: Date)
    requires InWeek(e.0, first, last)
    ensures Remaining([e], first, last) == []
  {
    assert [e][..0] == [];
  }

  /** The loop position is never past the end of the queue. */
  lemma CutInQueue(queue: seq<Entry>, first: Date, last: Date, ix: seq<nat>, k: nat)
    requires ix == DueIndices(queue, first, last, |queue|) && k <= |ix|
    ensures Cut(ix, k, |queue|) <= |queue|
  {
    DueIndicesFacts(queue, first, last, |queue|);
  }

  /** Removing index ix[k - 1] from the partly filtered queue filters one entry more. */
  lemma RemoveOneMore(queue: seq<Entry>, first: Date, last: Date, ix: seq<nat>, k: nat)
    requires ix == DueIndices(queue, first, last, |queue|) && 0 < k <= |ix|
    ensures var t := Cut(ix, k, |queue|);
      ix[k - 1] < t <= |queue|
      && Kept(queue, first, last, t)[..ix[k - 1]] + Kept(queue, first, last, t)[ix[k - 1] + 1..]
         == Kept(queue, first, last, ix[k - 1])
  {
    var t := Cut(ix, k, |queue|);
    var i := ix[k - 1];
    assert i < t <= |queue| by {
      DueIndicesFacts(queue, first, last, |queue|);
    }
    var gap := queue[i + 1..t];
    var tail := Remaining(queue[t..], first, last);
    RemovedEntryAndGap(queue, first, last, ix, k);
    var kept := Kept(queue, first, last, t);
    assert kept == queue[..i] + [queue[i]] + gap + tail;
    assert kept[..i] == queue[..i];
    assert kept[i + 1..] == gap + tail;
  }

  /** Once the smallest index is removed, the queue is fully filtered. */
  lemma RemovalDone(queue: seq<Entry>, first: Date, last: Date, ix: seq<nat>)
    requires ix == DueIndices(queue, first, last, |queue|)
    ensures Cut(ix, 0, |queue|) <= |queue|
    ensures Kept(queue, first, last, Cut(ix, 0, |queue|)) == Remaining(queue, first, last)
  {
    CutInQueue(queue, first, last, ix, 0);
    var t := Cut(ix, 0, |queue|);
    forall m | 0 <= m < t
      ensures !InWeek(queue[m].0, first, last)
    {
      GapOutside(queue, first, last, ix, 0, m);
    }
    RemainingOutsidePrefix(queue, first, last, t);
  }

  /** Filtering a queue whose first `t` entries lie outside the week keeps them all. */
  lemma RemainingOutsidePrefix(queue: seq<Entry>, first: Date, last: Date, t: nat)
    requires t <= |queue|
    requires forall m :: 0 <= m < t ==> !InWeek(queue[m].0, first, last)
    ensures queue[..t] + Remaining(queue[t..], first, last) == Remaining(queue, first, last)
  {
    assert forall m :: 0 <= m < t ==> queue[..t][m] == queue[m];
    RemainingOutside(queue[..t], first, last);
    RemainingConcat(queue[..t], queue[t..], first, last);
    assert queue[..t] + queue[t..] == queue;
  }

  /** The notes and removal indices of the first loop of annotations_to_string. */
  method ScanWeekDetails(queue: seq<Entry>, first: Date, last: Date) returns (notes: seq<string>, toRemove: seq<nat>)
    requires EntriesValid(queue)
    ensures notes == DetailNotes(Due(queue, first, last))
    ensures toRemove == DueIndices(queue, first, last, |queue|)
  {
    notes := [];
    toRemove := [];
    for i := 0 to |queue|
      invariant notes == DetailNotes(Due(queue[..i], first, last))
      invariant toRemove == DueIndices(queue, first, last, i)
    {
      assert queue[..i + 1][..i] == queue[..i];
      var (detailDate, detail) := queue[i];
      if Le(first, detailDate) && Le(detailDate, last) {
        notes := notes + [MmDd(detailDate) + " - " + detail.description];
        toRemove := toRemove + [i];
      }
    }
    assert queue[..|queue|] == queue;
  }

  /**
   * The point-detail half of annotations_to_string: one note per entry dated
   * inside the week, then the reverse-order removal of those entries.
   */
  method TakeWeekDetails(queue: seq<Entry>, first: Date, last: Date) returns (notes: seq<string>, queue': seq<Entry>)
    requires EntriesValid(queue)
    ensures notes == DetailNotes(Due(queue, first, last))
    ensures queue' == Remaining(queue, first, last)
  {
    var toRemove;
    notes, toRemove := ScanWeekDetails(queue, first, last);
    queue' := queue;
    RemainingOutside([], first, last);
    assert queue == queue[..|queue|] + queue[|queue|..];
    var k := |toRemove|;
    while k > 0
      invariant 0 <= k <= |toRemove|
      invariant Cut(toRemove, k, |queue|) <= |queue|
      invariant queue' == Kept(queue, first, last, Cut(toRemove, k, |queue|))
    {
      RemoveOneMore(queue, first, last, toRemove, k);
      k := k - 1;
      var i := toRemove[k];
      queue' := queue'[..i] + queue'[i + 1..];
    }
    RemovalDone(queue, first, last, toRemove);
  }

  /** The drained entries and the kept entries split the queue: nothing is lost or invented. */
  lemma {:induction false} DueAndRemainingPartition(queue: seq<Entry>, first: Date, last: Date)
    ensures multiset(Due(queue, first, last)) + multiset(Remaining(queue, first, last)) == multiset(queue)
    decreases |queue|
  {
    if |queue| > 0 {
      var init := queue[..|queue| - 1];
      var e := queue[|queue| - 1];
      var dueBefore := Due(init, first, last);
      var keptBefore := Remaining(init, first, last);
      DueAndRemainingPartition(init, first, last);
      MultisetOfLast(queue);
      if InWeek(e.0, first, last) {
        assert Due(queue, first, last) == dueBefore + [e];
        assert Remaining(queue, first, last) == keptBefore + [];
        MultisetSnoc(dueBefore, e);
      } else {
        assert Due(queue, first, last) == dueBefore + [];
        assert Remaining(queue, first, last) == keptBefore + [e];
        MultisetSnoc(keptBefore, e);
      }
    }
  }

  lemma MultisetOfLast(queue: seq<Entry>)
    requires |queue| > 0
    ensures multiset(queue) == multiset(queue[..|queue| - 1]) + multiset{queue[|queue| - 1]}
  {
    assert queue == queue[..|queue| - 1] + [queue[|queue| - 1]];
  }

  lemma MultisetSnoc(s: seq<Entry>, e: Entry)
    ensures multiset(s + [e]) == multiset(s) + multiset{e}
    ensures s + [] == s
  {
  }

  /** Every drained entry is dated inside the week. */
  lemma {:induction false} DueInsideWeek(queue: seq<Entry>, first: Date, last: Date)
    ensures forall i :: 0 <= i < |Due(queue, first, last)| ==> InWeek(Due(queue, first, last)[i].0, first, last)
    decreases |queue|
  {
    if |queue| > 0 {
      DueInsideWeek(queue[..|queue| - 1], first, last);
    }
  }

  /** Every kept entry is dated outside the week. */
  lemma {:induction false} RemainingOutsideWeek(queue: seq<Entry>, first: Date, last: Date)
    ensures forall i :: 0 <= i < |Remaining(queue, first, last)| ==>
      !InWeek(Remaining(queue, first, last)[i].0, first, last)
    decreases |queue|
  {
    if |queue| > 0 {
      RemainingOutsideWeek(queue[..|queue| - 1], first, last);
    }
  }

  /** A queue dated entirely inside the week is drained completely. */
  lemma {:induction false} AllInsideDrained(queue: seq<Entry>, first: Date, last: Date)
    requires forall i :: 0 <= i < |queue| ==> InWeek(queue[i].0, first, last)
    ensures Remaining(queue, first, last) == []
    ensures Due(queue, first, last) == queue
    decreases |queue|
  {
    if |queue| > 0 {
      var init := queue[..|queue| - 1];
      assert forall i :: 0 <= i < |init| ==> init[i] == queue[i];
      AllInsideDrained(init, first, last);
      assert queue == init + [queue[|queue| - 1]];
    }
  }

  /** `r` is the entries of `queue` at the ascending indices `ix`. */
  predicate PicksInOrder(r: seq<Entry>, queue: seq<Entry>, ix: seq<nat>) {
    && |ix| == |r|
    && (forall j :: 0 <= j < |ix| ==> ix[j] < |queue| && r[j] == queue[ix[j]])
    && (forall j1, j2 :: 0 <= j1 < j2 < |ix| ==> ix[j1] < ix[j2])
  }

  /** The queue indices below `n` whose entries are outside the week, ascending. */
  function KeptIndices(queue: seq<Entry>, first: Date, last: Date, n: nat): seq<nat>
    requires n <= |queue|
  {
    if n == 0 then []
    else KeptIndices(queue, first, last, n - 1) + (if InWeek(queue[n - 1].0, first, last) then [] else [n - 1])
  }

  /** The entries kept are the queue's entries outside the week, in their original order. */
  lemma {:induction false} RemainingKeepsOrder(queue: seq<Entry>, first: Date, last: Date, n: nat)
    requires n <= |queue|
    ensures PicksInOrder(Remaining(queue[..n], first, last), queue, KeptIndices(queue, first, last, n))
    ensures forall j :: 0 <= j < |KeptIndices(queue, first, last, n)| ==> KeptIndices(queue, first, last, n)[j] < n
  {
    if n > 0 {
      RemainingKeepsOrder(queue, first, last, n - 1);
      assert queue[..n][..n - 1] == queue[..n - 1];
    }
  }

  // ---------------------------------------------------------------------
  // The range part of annotations_to_string

  /** The range overlaps the week: it starts by its last day and ends on or after its first. */
  predicate Overlaps(r: DateRange, first: Date, last: Date) {
    Le(r.start, last) && Le(first, r.end)
  }

  predicate RangeDatesValid(ranges: seq<DateRange>) {
    forall k :: 0 <= k < |ranges| ==> ranges[k].start.Valid() && ranges[k].end.Valid()
  }

  /** The indices below `n`, ascending, of ranges not yet shown that overlap the week. */
  function NewlyShown(ranges: seq<DateRange>, shown: seq<nat>, first: Date, last: Date, n: nat): (r: seq<nat>)
    requires n <= |ranges|
    ensures forall j :: 0 <= j < |r| ==> r[j] < n
  {
    if n == 0 then []
    else
      NewlyShown(ranges, shown, first, last, n - 1)
      + (if n - 1 !in shown && Overlaps(ranges[n - 1], first, last) then [n - 1] else [])
  }

  /** `MM/DD to MM/DD`, followed by ` - description` when the range has one. */
  function RangeNote(r: DateRange): string
    requires r.start.Valid() && r.end.Valid()
  {
    match r.description
    case Some(desc) => MmDd(r.start) + " to " + MmDd(r.end) + " - " + desc
    case None => MmDd(r.start) + " to " + MmDd(r.end)
  }

  function RangeNotes(ranges: seq<DateRange>, ix: seq<nat>): (notes: seq<string>)
    requires RangeDatesValid(ranges)
    requires forall j :: 0 <= j < |ix| ==> ix[j] < |ranges|
    ensures |notes| == |ix|
  {
    if |ix| == 0 then []
    else RangeNotes(ranges, ix[..|ix| - 1]) + [RangeNote(ranges[ix[|ix| - 1]])]
  }

  /**
   * The indices newly shown are exactly the ranges below `n` that are not yet
   * shown and overlap the week, each once and in stored order.
   */
  /**
   * After a week, a range has been shown exactly when it had been shown
   * before or the week overlaps it.
   */
  lemma ShownAfterWeek(ranges: seq<DateRange>, shown: seq<nat>, first: Date, last: Date, m: nat)
    ensures m in shown + NewlyShown(ranges, shown, first, last, |ranges|)
      <==> m in shown || (m < |ranges| && Overlaps(ranges[m], first, last))
  {
    var ix := NewlyShown(ranges, shown, first, last, |ranges|);
    NewlyShownFacts(ranges, shown, first, last, |ranges|);
    if m in ix {
      var i :| 0 <= i < |ix| && ix[i] == m;
    }
  }

  lemma {:induction false} NewlyShownFacts(ranges: seq<DateRange>, shown: seq<nat>, first: Date, last: Date, n: nat)
    requires n <= |ranges|
    ensures var ix := NewlyShown(ranges, shown, first, last, n);
      && (forall j :: 0 <= j < |ix| ==>
            ix[j] < n && ix[j] !in shown && Overlaps(ranges[ix[j]], first, last))
      && (forall j1, j2 :: 0 <= j1 < j2 < |ix| ==> ix[j1] < ix[j2])
      && (forall m :: 0 <= m < n && m !in shown && Overlaps(ranges[m], first, last) ==> m in ix)
  {
    NewlyShownSound(ranges, shown, first, last, n);
    NewlyShownIncreasing(ranges, shown, first, last, n);
    NewlyShownComplete(ranges, shown, first, last, n);
  }

  /** One more range either extends the newly shown indices by it or leaves them alone. */
  lemma NewlyShownNext(ranges: seq<DateRange>, shown: seq<nat>, first: Date, last: Date, n: nat)
    requires 0 < n <= |ranges|
    ensures var prev := NewlyShown(ranges, shown, first, last, n - 1);
      NewlyShown(ranges, shown, first, last, n)
        == if n - 1 !in shown && Overlaps(ranges[n - 1], first, last) then prev + [n - 1] else prev
  {
    assert NewlyShown(ranges, shown, first, last, n - 1) + [] == NewlyShown(ranges, shown, first, last, n - 1);
  }

  lemma {:induction false} NewlyShownSound(ranges: seq<DateRange>, shown: seq<nat>, first: Date, last: Date, n: nat)
    requires n <= |ranges|
    ensures var ix := NewlyShown(ranges, shown, first, last, n);
      forall j :: 0 <= j < |ix| ==> ix[j] !in shown && Overlaps(ranges[ix[j]], first, last)
  {
    if n > 0 {
      NewlyShownSound(ranges, shown, first, last, n - 1);
      NewlyShownNext(ranges, shown, first, last, n);
    }
  }

  lemma {:induction false} NewlyShownIncreasing(ranges: seq<DateRange>, shown: seq<nat>, first: Date, last: Date, n: nat)
    requires n <= |ranges|
    ensures var ix := NewlyShown(ranges, shown, first, last, n);
      forall j1, j2 :: 0 <= j1 < j2 < |ix| ==> ix[j1] < ix[j2]
  {
    if n > 0 {
      NewlyShownIncreasing(ranges, shown, first, last, n - 1);
      NewlyShownNext(ranges, shown, first, last, n);
    }
  }

  lemma {:induction false} NewlyShownComplete(ranges: seq<DateRange>, shown: seq<nat>, first: Date, last: Date, n: nat)
    requires n <= |ranges|
    ensures var ix := NewlyShown(ranges, shown, first, last, n);
      forall m :: 0 <= m < n && m !in shown && Overlaps(ranges[m], first, last) ==> m in ix
  {
    if n > 0 {
      NewlyShownComplete(ranges, shown, first, last, n - 1);
      NewlyShownGrows(ranges, shown, first, last, n);
    }
  }

  /** What was newly shown before range `n - 1` stays so, and range `n - 1` joins if due. */
  lemma NewlyShownGrows(ranges: seq<DateRange>, shown: seq<nat>, first: Date, last: Date, n: nat)
    requires 0 < n <= |ranges|
    ensures forall m :: m in NewlyShown(ranges, shown, first, last, n - 1) ==> m in NewlyShown(ranges, shown, first, last, n)
    ensures n - 1 !in shown && Overlaps(ranges[n - 1], first, last) ==> n - 1 in NewlyShown(ranges, shown, first, last, n)
  {
    NewlyShownNext(ranges, shown, first, last, n);
  }

  predicate NoDuplicates(s: seq<nat>) {
    forall i, j :: 0 <= i < j < |s| ==> s[i] != s[j]
  }

  /** shown_ranges never lists a range twice, so no range is announced twice in one render. */
  lemma ShownStaysDistinct(ranges: seq<DateRange>, shown: seq<nat>, first: Date, last: Date)
    requires NoDuplicates(shown)
    ensures NoDuplicates(shown + NewlyShown(ranges, shown, first, last, |ranges|))
  {
    NewlyShownFacts(ranges, shown, first, last, |ranges|);
  }

  /**
   * The range half of annotations_to_string: announce every range not yet
   * shown that overlaps the week, in stored order, and record it as shown.
   */
  method ShowWeekRanges(ranges: seq<DateRange>, shown: seq<nat>, first: Date, last: Date)
    returns (notes: seq<string>, shown': seq<nat>)
    requires RangeDatesValid(ranges)
    ensures shown' == shown + NewlyShown(ranges, shown, first, last, |ranges|)
    ensures notes == RangeNotes(ranges, NewlyShown(ranges, shown, first, last, |ranges|))
  {
    notes := [];
    shown' := shown;
    var idx := 0;
    while idx < |ranges|
      invariant 0 <= idx <= |ranges|
      invariant shown' == shown + NewlyShown(ranges, shown, first, last, idx)
      invariant notes == RangeNotes(ranges, NewlyShown(ranges, shown, first, last, idx))
    {
      notes, shown' := ShowRange(ranges, shown, first, last, idx, notes, shown');
      idx := idx + 1;
    }
  }

  /** One turn of the range loop: announce range `n` if it is new and overlaps the week. */
  method ShowRange(ranges: seq<DateRange>, shown: seq<nat>, first: Date, last: Date, n: nat,
                   notes: seq<string>, shownNow: seq<nat>)
    returns (notes': seq<string>, shownNext: seq<nat>)
    requires RangeDatesValid(ranges) && n < |ranges|
    requires shownNow == shown + NewlyShown(ranges, shown, first, last, n)
    requires notes == RangeNotes(ranges, NewlyShown(ranges, shown, first, last, n))
    ensures shownNext == shown + NewlyShown(ranges, shown, first, last, n + 1)
    ensures notes' == RangeNotes(ranges, NewlyShown(ranges, shown, first, last, n + 1))
  {
    ShownSoFar(ranges, shown, first, last, n);
    var range := ranges[n];
    if n !in shownNow && Le(range.start, last) && Le(first, range.end) {
      var note := RangeNoteToString(range);
      RangeShown(ranges, shown, first, last, n, notes, shownNow);
      notes' := notes + [note];
      shownNext := shownNow + [n];
    } else {
      RangeNotShown(ranges, shown, first, last, n, notes, shownNow);
      notes', shownNext := notes, shownNow;
    }
  }

  /** No range at or after `n` has been recorded by the loop yet. */
  lemma ShownSoFar(ranges: seq<DateRange>, shown: seq<nat>, first: Date, last: Date, n: nat)
    requires n < |ranges|
    ensures n in shown + NewlyShown(ranges, shown, first, last, n) <==> n in shown
  {
  }

  /** Announcing range `n` extends both the notes and shown_ranges by it. */
  lemma RangeShown(ranges: seq<DateRange>, shown: seq<nat>, first: Date, last: Date, n: nat,
                   notes: seq<string>, shownNow: seq<nat>)
    requires RangeDatesValid(ranges) && n < |ranges|
    requires n !in shown && Overlaps(ranges[n], first, last)
    requires shownNow == shown + NewlyShown(ranges, shown, first, last, n)
    requires notes == RangeNotes(ranges, NewlyShown(ranges, shown, first, last, n))
    ensures shownNow + [n] == shown + NewlyShown(ranges, shown, first, last, n + 1)
    ensures notes + [RangeNote(ranges[n])] == RangeNotes(ranges, NewlyShown(ranges, shown, first, last, n + 1))
  {
    var newly := NewlyShown(ranges, shown, first, last, n);
    assert NewlyShown(ranges, shown, first, last, n + 1) == newly + [n];
    RangeNotesSnoc(ranges, newly, n);
  }

  /** A range already shown or outside the week leaves both as they were. */
  lemma RangeNotShown(ranges: seq<DateRange>, shown: seq<nat>, first: Date, last: Date, n: nat,
                      notes: seq<string>, shownNow: seq<nat>)
    requires RangeDatesValid(ranges) && n < |ranges|
    requires !(n !in shown && Overlaps(ranges[n], first, last))
    requires shownNow == shown + NewlyShown(ranges, shown, first, last, n)
    requires notes == RangeNotes(ranges, NewlyShown(ranges, shown, first, last, n))
    ensures shownNow == shown + NewlyShown(ranges, shown, first, last, n + 1)
    ensures notes == RangeNotes(ranges, NewlyShown(ranges, shown, first, last, n + 1))
  {
    var newly := NewlyShown(ranges, shown, first, last, n);
    assert newly + [] == newly;
    assert NewlyShown(ranges, shown, first, last, n + 1) == newly;
  }

  /** The note of one range, as the range loop of annotations_to_string formats it. */
  method RangeNoteToString(range: DateRange) returns (note: string)
    requires range.start.Valid() && range.end.Valid()
    ensures note == RangeNote(range)
  {
    match range.description {
      case Some(desc) =>
        note := MmDd(range.start) + " to " + MmDd(range.end) + " - " + desc;
      case None =>
        note := MmDd(range.start) + " to " + MmDd(range.end);
    }
  }

  lemma RangeNotesSnoc(ranges: seq<DateRange>, ix: seq<nat>, j: nat)
    requires RangeDatesValid(ranges) && j < |ranges|
    requires forall i :: 0 <= i < |ix| ==> ix[i] < |ranges|
    ensures RangeNotes(ranges, ix + [j]) == RangeNotes(ranges, ix) + [RangeNote(ranges[j])]
  {
    assert (ix + [j])[..|ix|] == ix;
  }

  /** The note at position `j` is the note of the `j`-th range index. */
  lemma {:induction false} RangeNotesAt(ranges: seq<DateRange>, ix: seq<nat>, j: nat)
    requires RangeDatesValid(ranges) && j < |ix|
    requires forall i :: 0 <= i < |ix| ==> ix[i] < |ranges|
    ensures RangeNotes(ranges, ix)[j] == RangeNote(ranges[ix[j]])
    decreases |ix|
  {
    if j < |ix| - 1 {
      var init := ix[..|ix| - 1];
      assert init[j] == ix[j];
      RangeNotesAt(ranges, init, j);
    }
  }

  /** annotations_to_string: the week's detail notes, then its range notes, joined by ", ". */
  method AnnotationsToString(cal: Calendar, dates: seq<Date>, queue: seq<Entry>, shown: seq<nat>)
    returns (out: string, queue': seq<Entry>, shown': seq<nat>)
    requires |dates| == 7
    requires EntriesValid(queue) && RangeDatesValid(cal.ranges)
    ensures queue' == Remaining(queue, dates[0], dates[6])
    ensures shown' == shown + NewlyShown(cal.ranges, shown, dates[0], dates[6], |cal.ranges|)
    ensures out == Join(DetailNotes(Due(queue, dates[0], dates[6]))
                        + RangeNotes(cal.ranges, NewlyShown(cal.ranges, shown, dates[0], dates[6], |cal.ranges|)), ", ")
  {
    var weekStart := dates[0];
    var weekEnd := dates[6];
    var detailNotes, rangeNotes;
    detailNotes, queue' := TakeWeekDetails(queue, weekStart, weekEnd);
    NewlyShownFacts(cal.ranges, shown, weekStart, weekEnd, |cal.ranges|);
    rangeNotes, shown' := ShowWeekRanges(cal.ranges, shown, weekStart, weekEnd);
    out := Join(detailNotes + rangeNotes, ", ");
  }
}
