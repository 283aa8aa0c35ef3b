/**
 * Component status severities, the daily uptime buckets and their weighted
 * average (lib/status.ts).  Instants are integer milliseconds since the epoch;
 * percentages are exact reals.
 */
module Status {
  import opened Wrappers
  import opened Sorting

  datatype ComponentStatus =
    | Operational | DegradedPerformance | PartialOutage | MajorOutage | UnderMaintenance

  /** A status column holds any text; only five texts are component statuses. */
  datatype StatusText = Known(status: ComponentStatus) | Unknown(text: string) {
    function Or(default: ComponentStatus): ComponentStatus {
      match this case Known(s) => s case Unknown(_) => default
    }
  }

  function Rank(s: ComponentStatus): nat {
    match s
    case Operational => 0
    case UnderMaintenance => 1
    case DegradedPerformance => 2
    case PartialOutage => 3
    case MajorOutage => 4
  }

  // ----- worst of many --------------------------------------------------------

  function Worse(worst: ComponentStatus, s: ComponentStatus): ComponentStatus {
    if Rank(s) > Rank(worst) then s else worst
  }

  function WorstStatus(statuses: seq<ComponentStatus>): ComponentStatus {
    if |statuses| == 0 then Operational
    else Worse(WorstStatus(statuses[..|statuses| - 1]), statuses[|statuses| - 1])
  }

  /** The reduction returns `w` exactly when `w` is the severity maximum of the list and Operational. */
  lemma {:induction false} WorstStatusIsMaximum(statuses: seq<ComponentStatus>, w: ComponentStatus)
    ensures WorstStatus(statuses) == w <==>
            (w == Operational || w in statuses) && forall s <- statuses :: Rank(s) <= Rank(w)
  {
    if |statuses| != 0 {
      var front, last := statuses[..|statuses| - 1], statuses[|statuses| - 1];
      assert statuses == front + [last];
      WorstStatusIsMaximum(front, WorstStatus(front));
      var m := WorstStatus(statuses);
      assert m == Operational || m in statuses;
      assert forall s <- statuses :: Rank(s) <= Rank(m);
    }
  }

  lemma WorstStatusOfPermutation(a: seq<ComponentStatus>, b: seq<ComponentStatus>)
    requires forall s :: s in a <==> s in b
    ensures WorstStatus(a) == WorstStatus(b)
  {
    WorstStatusIsMaximum(a, WorstStatus(a));
    WorstStatusIsMaximum(b, WorstStatus(a));
  }

  /** The five severities by name, worst first: each is shown exactly if it occurs and no worse one does. */
  lemma SeverityOrder(statuses: seq<ComponentStatus>)
    ensures var w := WorstStatus(statuses);
            && (w == MajorOutage <==> MajorOutage in statuses)
            && (w == PartialOutage <==> PartialOutage in statuses && MajorOutage !in statuses)
            && (w == DegradedPerformance <==> DegradedPerformance in statuses && PartialOutage !in statuses && MajorOutage !in statuses)
            && (w == Operational <==> forall s <- statuses :: s == Operational)
  {
    var w := WorstStatus(statuses);
    WorstStatusIsMaximum(statuses, w);
    forall s <- statuses ensures Rank(s) <= Rank(w) {}
  }

  // ----- counting milliseconds ------------------------------------------------

  /** How many of the milliseconds lo, lo + 1, ..., hi - 1 satisfy `p`. */
  ghost function CountMs(p: int -> bool, lo: int, hi: int): nat
    decreases hi - lo
  {
    if hi <= lo then 0 else CountMs(p, lo, hi - 1) + if p(hi - 1) then 1 else 0
  }

  ghost function Counted(p: int -> bool, lo: int, hi: int): set<int> {
    set t | lo <= t < hi && p(t)
  }

  /** The recursive count is the cardinality of the set it counts. */
  lemma {:induction false} CountMsIsCardinality(p: int -> bool, lo: int, hi: int)
    ensures CountMs(p, lo, hi) == |Counted(p, lo, hi)|
    decreases hi - lo
  {
    if hi <= lo {
      assert Counted(p, lo, hi) == {};
    } else {
      CountMsIsCardinality(p, lo, hi - 1);
      var front := Counted(p, lo, hi - 1);
      assert hi - 1 !in front;
      if p(hi - 1) {
        assert Counted(p, lo, hi) == front + {hi - 1};
      } else {
        assert Counted(p, lo, hi) == front;
      }
    }
  }

  lemma {:induction false} CountMsSplits(p: int -> bool, lo: int, mid: int, hi: int)
    requires lo <= mid <= hi
    ensures CountMs(p, lo, hi) == CountMs(p, lo, mid) + CountMs(p, mid, hi)
    decreases hi - mid
  {
    if mid < hi { CountMsSplits(p, lo, mid, hi - 1); }
  }

  lemma {:induction false} CountMsAgrees(p: int -> bool, q: int -> bool, lo: int, hi: int)
    requires forall t | lo <= t < hi :: p(t) == q(t)
    ensures CountMs(p, lo, hi) == CountMs(q, lo, hi)
    decreases hi - lo
  {
    if lo < hi { CountMsAgrees(p, q, lo, hi - 1); }
  }

  lemma {:induction false} CountMsOfAllOrNone(p: int -> bool, lo: int, hi: int)
    requires lo <= hi
    ensures (forall t | lo <= t < hi :: p(t)) ==> CountMs(p, lo, hi) == hi - lo
    ensures (forall t | lo <= t < hi :: !p(t)) ==> CountMs(p, lo, hi) == 0
    ensures CountMs(p, lo, hi) <= hi - lo
    decreases hi - lo
  {
    if lo < hi { CountMsOfAllOrNone(p, lo, hi - 1); }
  }

  // ----- interval merging -----------------------------------------------------

  datatype Interval = Interval(start: int, end: int)

  ghost predicate Covered(intervals: seq<Interval>, t: int) {
    exists v <- intervals :: v.start <= t < v.end
  }

  ghost function CoveredBy(intervals: seq<Interval>): int -> bool {
    (t: int) => Covered(intervals, t)
  }

  const ByStartThenEnd: (Interval, Interval) -> bool :=
    (a: Interval, b: Interval) => a.start < b.start || (a.start == b.start && a.end <= b.end)

  ghost predicate SortedByStart(s: seq<Interval>) {
    forall i, j | 0 <= i < j < |s| :: s[i].start <= s[j].start
  }

  /**
   * The sweep's state after the intervals `done`: the open run `merged` is the
   * covered stretch that starts last, and everything before it is counted.
   */
  ghost predicate Swept(done: seq<Interval>, lo: int, downMs: int, merged: Option<Interval>) {
    match merged
    case None => done == [] && downMs == 0
    case Some(m) =>
      && lo <= m.start < m.end
      && downMs == CountMs(CoveredBy(done), lo, m.start)
      && forall t | m.start <= t :: Covered(done, t) <==> t < m.end
  }

  /**
   * Sorts the outages and sweeps them once: the result is the number of
   * milliseconds that at least one of them covers, however they overlap.
   */
  method MergedDowntime(outages: seq<Interval>, ghost lo: int, ghost hi: int) returns (downMs: int)
    requires lo <= hi
    requires forall v <- outages :: lo <= v.start < v.end <= hi
    ensures downMs == CountMs(CoveredBy(outages), lo, hi)
  {
    var sorted := Sort(ByStartThenEnd, outages);
    SortedIsSamePoints(outages);
    CountMsAgrees(CoveredBy(sorted), CoveredBy(outages), lo, hi);
    downMs := SweepSorted(sorted, lo, hi);
  }

  method SweepSorted(sorted: seq<Interval>, ghost lo: int, ghost hi: int) returns (downMs: int)
    requires lo <= hi && SortedByStart(sorted)
    requires forall v <- sorted :: lo <= v.start < v.end <= hi
    ensures downMs == CountMs(CoveredBy(sorted), lo, hi)
  {
    downMs := 0;
    var merged: Option<Interval> := None;
    for k := 0 to |sorted|
      invariant Swept(sorted[..k], lo, downMs, merged)
      invariant merged.Some? <==> k > 0
      invariant merged.Some? ==> merged.value.start <= sorted[k - 1].start && merged.value.end <= hi
    {
      var v := sorted[k];
      assert v in sorted;
      assert sorted[..k + 1] == sorted[..k] + [v];
      if merged.None? {
        assert sorted[..k + 1] == [v];
        SweepFirst(v, lo);
        merged := Some(v);
      } else if v.start <= merged.value.end {
        SweepExtend(sorted[..k], lo, downMs, merged.value, v);
        merged := Some(Interval(merged.value.start, Max(merged.value.end, v.end)));
      } else {
        SweepNext(sorted[..k], lo, downMs, merged.value, v);
        downMs := downMs + (merged.value.end - merged.value.start);
        merged := Some(v);
      }
    }
    assert sorted[..|sorted|] == sorted;
    if merged.Some? {
      SettleMerged(sorted, lo, merged.value, hi);
      downMs := downMs + (merged.value.end - merged.value.start);
    } else {
      CountMsOfAllOrNone(CoveredBy(sorted), lo, hi);
    }
  }

  lemma SortedIsSamePoints(outages: seq<Interval>)
    ensures var sorted := Sort(ByStartThenEnd, outages);
            && SortedByStart(sorted)
            && (forall v :: v in sorted <==> v in outages)
            && (forall t :: Covered(sorted, t) <==> Covered(outages, t))
  {
    SortIsSortedPermutation(ByStartThenEnd, outages);
    SortKeepsElements(ByStartThenEnd, outages);
    var sorted := Sort(ByStartThenEnd, outages);
    forall i, j | 0 <= i < j < |sorted| ensures sorted[i].start <= sorted[j].start {
      assert ByStartThenEnd(sorted[i], sorted[j]);
    }
  }

  lemma SweepFirst(v: Interval, lo: int)
    requires lo <= v.start < v.end
    ensures Swept([v], lo, 0, Some(v))
  {
    CountMsOfAllOrNone(CoveredBy([v]), lo, v.start);
  }

  lemma SweepExtend(done: seq<Interval>, lo: int, downMs: int, m: Interval, v: Interval)
    requires Swept(done, lo, downMs, Some(m))
    requires m.start <= v.start <= m.end && v.start < v.end
    ensures Swept(done + [v], lo, downMs, Some(Interval(m.start, Max(m.end, v.end))))
  {
    SweepStep(done, v);
    CountMsAgrees(CoveredBy(done), CoveredBy(done + [v]), lo, m.start);
  }

  lemma SweepNext(done: seq<Interval>, lo: int, downMs: int, m: Interval, v: Interval)
    requires Swept(done, lo, downMs, Some(m))
    requires m.end < v.start < v.end
    ensures Swept(done + [v], lo, downMs + (m.end - m.start), Some(v))
  {
    SweepStep(done, v);
    CountMsAgrees(CoveredBy(done), CoveredBy(done + [v]), lo, v.start);
    SettleMerged(done, lo, m, v.start);
  }

  lemma SweepStep(done: seq<Interval>, v: Interval)
    ensures forall t :: Covered(done + [v], t) <==> Covered(done, t) || v.start <= t < v.end
  {
    forall t ensures Covered(done + [v], t) <==> Covered(done, t) || v.start <= t < v.end {
      if v.start <= t < v.end { assert v in done + [v]; }
    }
  }

  /** Once no later interval can touch the merged run, its length is final. */
  lemma SettleMerged(done: seq<Interval>, lo: int, m: Interval, hi: int)
    requires lo <= m.start < m.end <= hi
    requires forall t | m.start <= t :: Covered(done, t) <==> t < m.end
    ensures CountMs(CoveredBy(done), lo, hi) == CountMs(CoveredBy(done), lo, m.start) + (m.end - m.start)
  {
    var p := CoveredBy(done);
    CountMsSplits(p, lo, m.start, hi);
    CountMsSplits(p, m.start, m.end, hi);
    CountMsOfAllOrNone(p, m.start, m.end);
    CountMsOfAllOrNone(p, m.end, hi);
  }

  // ----- one day --------------------------------------------------------------

  datatype StatusEvent = StatusEvent(status: StatusText, startedAt: int, endedAt: Option<int>, isMaintenance: bool)

  datatype Bucket = Bucket(dayStart: int, status: ComponentStatus, uptimePct: Option<real>, observedMs: int)

  const DAY_MS: int := 86_400_000

  /** Midnight (UTC) that is `daysAgo` days before the midnight that starts the day of `now`. */
  function DayStart(now: int, daysAgo: int): int {
    now / DAY_MS * DAY_MS - daysAgo * DAY_MS
  }

  function EndOf(e: StatusEvent, now: int): int { e.endedAt.GetOr(now) }

  predicate IsOutage(e: StatusEvent) { !e.isMaintenance && e.status.Or(Operational) != Operational }

  /** What a reader means by "down at t": some recorded, non-maintenance outage is in force. */
  ghost predicate DownAt(events: seq<StatusEvent>, now: int, t: int) {
    exists e <- events :: IsOutage(e) && e.startedAt <= t < EndOf(e, now)
  }

  ghost function Down(events: seq<StatusEvent>, now: int): int -> bool {
    (t: int) => DownAt(events, now, t)
  }

  /** A recorded status other than operational is down time from its start to its end, or till now; a maintenance is not. */
  lemma DownMeans(events: seq<StatusEvent>, now: int, t: int)
    ensures DownAt(events, now, t) <==>
            exists e <- events ::
              && !e.isMaintenance && e.status.Known? && e.status != Known(Operational)
              && e.startedAt <= t && (if e.endedAt.Some? then t < e.endedAt.value else t < now)
  {
  }

  /** Days are the calendar days of UTC, 86,400,000 ms each, the last of them the day of `now`. */
  lemma DaysAreCalendarDays(now: int, daysAgo: int)
    ensures DayStart(now, daysAgo) % 86_400_000 == 0
    ensures DayStart(now, daysAgo) <= now - daysAgo * 86_400_000 < DayStart(now, daysAgo) + 86_400_000
  {
  }

  predicate Overlaps(e: StatusEvent, now: int, lo: int, hi: int) {
    Max(e.startedAt, lo) < Min(EndOf(e, now), hi)
  }

  /** A status shown for a day: that of some event in force during it, maintenance counting as such. */
  function ShownStatus(e: StatusEvent): ComponentStatus {
    if e.isMaintenance then UnderMaintenance else e.status.Or(Operational)
  }

  ghost predicate IsDayStatus(w: ComponentStatus, events: seq<StatusEvent>, now: int, lo: int, hi: int) {
    && (w == Operational || exists e <- events :: Overlaps(e, now, lo, hi) && ShownStatus(e) == w)
    && forall e <- events | Overlaps(e, now, lo, hi) :: Rank(ShownStatus(e)) <= Rank(w)
  }

  predicate InForceAt(e: StatusEvent, now: int, t: int) { e.startedAt <= t && (if e.endedAt.Some? then t < e.endedAt.value else t < now) }

  /** An event counts for a stretch of time exactly if it is in force at some moment of it. */
  lemma OverlapsMeans(e: StatusEvent, now: int, lo: int, hi: int)
    ensures Overlaps(e, now, lo, hi) <==> exists t :: lo <= t < hi && InForceAt(e, now, t)
  {
    if Overlaps(e, now, lo, hi) { assert InForceAt(e, now, Max(e.startedAt, lo)); }
  }

  /** A day is shown as an outage exactly if one was in force, and otherwise as maintenance exactly if there was some. */
  lemma DayStatusMeans(w: ComponentStatus, events: seq<StatusEvent>, now: int, lo: int, hi: int)
    requires IsDayStatus(w, events, now, lo, hi)
    ensures w == Operational <==>
            forall e <- events | Overlaps(e, now, lo, hi) :: !e.isMaintenance && (e.status.Known? ==> e.status == Known(Operational))
    ensures w == MajorOutage <==> exists e <- events :: Overlaps(e, now, lo, hi) && !e.isMaintenance && e.status == Known(MajorOutage)
    ensures w == UnderMaintenance ==>
            forall e <- events | Overlaps(e, now, lo, hi) && !e.isMaintenance && e.status.Known? ::
              e.status == Known(Operational) || e.status == Known(UnderMaintenance)
  {
  }

  function ObservedStart(dayStart: int, observationStart: Option<int>): int {
    Max(dayStart, observationStart.GetOr(dayStart))
  }

  /** What a bucket must say about its day, in terms of the events alone. */
  ghost predicate IsBucket(b: Bucket, events: seq<StatusEvent>, dayStart: int, now: int, observationStart: Option<int>) {
    var lo, hi := ObservedStart(dayStart, observationStart), Min(dayStart + DAY_MS, now);
    && b.dayStart == dayStart
    && b.observedMs == Max(0, hi - lo)
    && if hi <= lo then b.status == Operational && b.uptimePct == None
       else IsDayStatus(b.status, events, now, lo, hi) &&
            b.uptimePct == Some(100.0 - CountMs(Down(events, now), lo, hi) as real / (hi - lo) as real * 100.0)
  }

  ghost predicate IsDailyUptime(bs: seq<Bucket>, events: seq<StatusEvent>, days: int, now: int, observationStart: Option<int>) {
    && |bs| == Max(0, days)
    && forall j | 0 <= j < |bs| :: IsBucket(bs[j], events, DayStart(now, days - 1 - j), now, observationStart)
  }

  method ComputeDailyUptime(events: seq<StatusEvent>, days: int, now: int, observationStart: Option<int>)
    returns (result: seq<Bucket>)
    ensures IsDailyUptime(result, events, days, now, observationStart)
  {
    result := [];
    var i := days - 1;
    while i >= 0
      invariant -1 <= i < days || i == days - 1 < 0
      invariant |result| == Max(0, days) - Max(0, i + 1)
      invariant forall j | 0 <= j < |result| :: IsBucket(result[j], events, DayStart(now, days - 1 - j), now, observationStart)
    {
      var bucket := DayBucket(events, DayStart(now, i), now, observationStart);
      result := result + [bucket];
      i := i - 1;
    }
  }

  method DayBucket(events: seq<StatusEvent>, dayStart: int, now: int, observationStart: Option<int>) returns (b: Bucket)
    ensures IsBucket(b, events, dayStart, now, observationStart)
  {
    var dayEnd := dayStart + DAY_MS;
    var hi := if dayEnd > now then now else dayEnd;
    var lo := if observationStart.Some? && observationStart.value > dayStart then observationStart.value else dayStart;
    var observedMs := Max(0, hi - lo);
    if observedMs == 0 {
      return Bucket(dayStart, Operational, None, 0);
    }
    var outages, worst := OutagesOfDay(events, now, lo, hi);
    var downMs := MergedDowntime(outages, lo, hi);
    CountMsAgrees(CoveredBy(outages), Down(events, now), lo, hi);
    CountMsOfAllOrNone(Down(events, now), lo, hi);
    var pct := UptimePct(downMs, observedMs);
    b := Bucket(dayStart, worst, Some(pct), observedMs);
    ObservedBucket(b, events, dayStart, now, observationStart, lo, hi);
  }

  lemma ObservedBucket(
    b: Bucket, events: seq<StatusEvent>, dayStart: int, now: int, observationStart: Option<int>, lo: int, hi: int)
    requires lo == ObservedStart(dayStart, observationStart) && hi == Min(dayStart + DAY_MS, now) && lo < hi
    requires b.dayStart == dayStart && b.observedMs == hi - lo && IsDayStatus(b.status, events, now, lo, hi)
    requires b.uptimePct == Some(100.0 - CountMs(Down(events, now), lo, hi) as real / b.observedMs as real * 100.0)
    ensures IsBucket(b, events, dayStart, now, observationStart)
  {
  }

  /** The clamp at zero never acts. */
  method UptimePct(downMs: int, observedMs: int) returns (pct: real)
    requires 0 <= downMs <= observedMs && observedMs > 0
    ensures pct == 100.0 - downMs as real / observedMs as real * 100.0
    ensures 0.0 <= pct <= 100.0
  {
    RatioAtMostOne(downMs as real, observedMs as real);
    pct := 100.0 - downMs as real / observedMs as real * 100.0;
    pct := if 0.0 >= pct then 0.0 else pct;
  }

  /** The clipped outages of one day and the worst status in force during it. */
  method OutagesOfDay(events: seq<StatusEvent>, now: int, lo: int, hi: int)
    returns (outages: seq<Interval>, worst: ComponentStatus)
    ensures forall v <- outages :: lo <= v.start < v.end <= hi
    ensures forall t | lo <= t < hi :: Covered(outages, t) <==> DownAt(events, now, t)
    ensures IsDayStatus(worst, events, now, lo, hi)
  {
    outages, worst := [], Operational;
    for k := 0 to |events|
      invariant forall v <- outages :: lo <= v.start < v.end <= hi
      invariant forall t | lo <= t < hi :: Covered(outages, t) <==> DownAt(events[..k], now, t)
      invariant IsDayStatus(worst, events[..k], now, lo, hi)
    {
      var e := events[k];
      assert events[..k + 1] == events[..k] + [e];
      DownAtStep(events[..k], e, now);
      DayStatusStep(worst, events[..k], e, now, lo, hi);
      var evStart := if e.startedAt < lo then lo else e.startedAt;
      var evEnd := if EndOf(e, now) > hi then hi else EndOf(e, now);
      if evEnd <= evStart { continue; }
      var status := e.status.Or(Operational);
      if e.isMaintenance {
        if worst == Operational { worst := UnderMaintenance; }
        continue;
      }
      if status == Operational { continue; }
      SweepStep(outages, Interval(evStart, evEnd));
      outages := outages + [Interval(evStart, evEnd)];
      if Rank(status) > Rank(worst) { worst := status; }
    }
    assert events[..|events|] == events;
  }

  lemma DownAtStep(events: seq<StatusEvent>, e: StatusEvent, now: int)
    ensures forall t :: DownAt(events + [e], now, t) <==>
                        DownAt(events, now, t) || (IsOutage(e) && e.startedAt <= t < EndOf(e, now))
  {
    assert e in events + [e];
  }

  lemma DayStatusStep(w: ComponentStatus, events: seq<StatusEvent>, e: StatusEvent, now: int, lo: int, hi: int)
    requires IsDayStatus(w, events, now, lo, hi)
    ensures IsDayStatus(if Overlaps(e, now, lo, hi) then Worse(w, ShownStatus(e)) else w, events + [e], now, lo, hi)
  {
    assert e in events + [e];
  }

  lemma RatioAtMostOne(down: real, observed: real)
    requires 0.0 <= down <= observed && observed > 0.0
    ensures 0.0 <= down / observed <= 1.0
  {
    var q := down / observed;
    assert q * observed == down;
  }

  // ----- consequences for a bucket --------------------------------------------

  /** Downtime never exceeds the observed time, so the percentage lies in [0, 100] without the clamp acting. */
  lemma BucketInRange(b: Bucket, events: seq<StatusEvent>, dayStart: int, now: int, observationStart: Option<int>)
    requires IsBucket(b, events, dayStart, now, observationStart)
    ensures 0 <= b.observedMs <= DAY_MS
    ensures b.uptimePct.None? <==> b.observedMs == 0
    ensures b.uptimePct.Some? ==> 0.0 <= b.uptimePct.value <= 100.0
  {
    var lo, hi := ObservedStart(dayStart, observationStart), Min(dayStart + DAY_MS, now);
    if lo < hi {
      CountMsOfAllOrNone(Down(events, now), lo, hi);
      RatioAtMostOne(CountMs(Down(events, now), lo, hi) as real, (hi - lo) as real);
    }
  }

  /** The order in which the database returns the events is irrelevant. */
  lemma BucketIgnoresEventOrder(b1: Bucket, b2: Bucket, e1: seq<StatusEvent>, e2: seq<StatusEvent>,
                                dayStart: int, now: int, observationStart: Option<int>)
    requires multiset(e1) == multiset(e2)
    requires IsBucket(b1, e1, dayStart, now, observationStart)
    requires IsBucket(b2, e2, dayStart, now, observationStart)
    ensures b1 == b2
  {
    assert forall e :: e in e1 <==> e in multiset(e1);
    assert forall e :: e in e2 <==> e in multiset(e2);
    var lo, hi := ObservedStart(dayStart, observationStart), Min(dayStart + DAY_MS, now);
    if lo < hi {
      CountMsAgrees(Down(e1, now), Down(e2, now), lo, hi);
      assert Rank(b1.status) <= Rank(b2.status) <= Rank(b1.status);
    }
  }

  // ----- the weighted average -------------------------------------------------

  function SumObserved(bs: seq<Bucket>): int {
    if |bs| == 0 then 0 else SumObserved(bs[..|bs| - 1]) + bs[|bs| - 1].observedMs
  }

  function SumUp(bs: seq<Bucket>): real {
    if |bs| == 0 then 0.0
    else SumUp(bs[..|bs| - 1]) +
         var b := bs[|bs| - 1]; if b.uptimePct.None? then 0.0 else b.uptimePct.value / 100.0 * b.observedMs as real
  }

  function WeightedUptime(bs: seq<Bucket>): Option<real> {
    var observedMs := SumObserved(bs);
    if observedMs == 0 then None
    else
      var ratio := SumUp(bs) / observedMs as real * 100.0;
      var capped := if 100.0 <= ratio then 100.0 else ratio;
      Some(if 0.0 >= capped then 0.0 else capped)
  }

  /** Where the observed part of the window starts. */
  function WindowStart(now: int, days: int, observationStart: Option<int>): int {
    ObservedStart(DayStart(now, days - 1), observationStart)
  }

  /** The midnight `k` days after the start of the window. */
  function Midnight(now: int, days: int, k: int): int {
    DayStart(now, days - 1) + k * DAY_MS
  }

  /** The observed stretch of day `k` continues exactly where that of the days before it stops. */
  lemma DaysAbut(now: int, days: int, k: nat, observationStart: Option<int>)
    requires k < days
    ensures var lo := WindowStart(now, days, observationStart);
            var start := Midnight(now, days, k);
            var from, to := ObservedStart(start, observationStart), Min(start + DAY_MS, now);
            var before, after := Max(lo, Min(start, now)), Max(lo, Min(Midnight(now, days, k + 1), now));
            && DayStart(now, days - 1 - k) == start
            && lo <= before <= after && after - before == Max(0, to - from)
            && (from < to ==> before == from && after == to)
  {
    assert DayStart(now, days - 1 - k) == DayStart(now, days - 1) + k * DAY_MS;
    assert DayStart(now, 0) <= now;
    assert Midnight(now, days, k) <= DayStart(now, 0);
  }

  lemma UpTimeOfPct(pct: real, observed: real, down: real)
    requires observed > 0.0
    requires pct == 100.0 - down / observed * 100.0
    ensures pct / 100.0 * observed + down == observed
  {
    var q := down / observed;
    assert q * observed == down;
    assert pct / 100.0 == 1.0 - q;
  }

  /** What one more day adds to the two sums, given that `down` of its observed milliseconds were down. */
  lemma SumsGrow(bs: seq<Bucket>, k: nat, down: int)
    requires k < |bs|
    requires bs[k].uptimePct.None? ==> bs[k].observedMs == down == 0
    requires bs[k].uptimePct.Some? ==> bs[k].observedMs > 0
    requires bs[k].uptimePct.Some? ==> bs[k].uptimePct.value == 100.0 - down as real / bs[k].observedMs as real * 100.0
    ensures SumObserved(bs[..k + 1]) == SumObserved(bs[..k]) + bs[k].observedMs
    ensures SumUp(bs[..k + 1]) + down as real == SumUp(bs[..k]) + bs[k].observedMs as real
  {
    assert bs[..k + 1][..k] == bs[..k];
    if bs[k].uptimePct.Some? { UpTimeOfPct(bs[k].uptimePct.value, bs[k].observedMs as real, down as real); }
  }

  /** Day `k` accounts for the stretch of the observed window that falls into it. */
  lemma DayShare(b: Bucket, k: nat, events: seq<StatusEvent>, days: int, now: int, observationStart: Option<int>)
    returns (before: int, after: int)
    requires k < days && IsBucket(b, events, DayStart(now, days - 1 - k), now, observationStart)
    ensures WindowStart(now, days, observationStart) <= before <= after
    ensures before == Max(WindowStart(now, days, observationStart), Min(Midnight(now, days, k), now))
    ensures after == Max(WindowStart(now, days, observationStart), Min(Midnight(now, days, k + 1), now))
    ensures b.observedMs == after - before
    ensures b.uptimePct.None? <==> before == after
    ensures before < after ==>
              b.uptimePct.value == 100.0 - CountMs(Down(events, now), before, after) as real / b.observedMs as real * 100.0
  {
    DaysAbut(now, days, k, observationStart);
    var lo := WindowStart(now, days, observationStart);
    before := Max(lo, Min(Midnight(now, days, k), now));
    after := Max(lo, Min(Midnight(now, days, k + 1), now));
  }

  /** The first `k` days, taken together, lose nothing at the midnights between them. */
  lemma {:induction false} PrefixSums(bs: seq<Bucket>, k: nat, events: seq<StatusEvent>, days: int, now: int, observationStart: Option<int>)
    requires IsDailyUptime(bs, events, days, now, observationStart)
    requires k <= |bs|
    ensures var lo := WindowStart(now, days, observationStart);
            var hi := Max(lo, Min(Midnight(now, days, k), now));
            && SumObserved(bs[..k]) == hi - lo
            && SumUp(bs[..k]) + CountMs(Down(events, now), lo, hi) as real == (hi - lo) as real
  {
    if k > 0 {
      PrefixSums(bs, k - 1, events, days, now, observationStart);
      assert IsBucket(bs[k - 1], events, DayStart(now, days - 1 - (k - 1)), now, observationStart);
      var before, after := DayShare(bs[k - 1], k - 1, events, days, now, observationStart);
      CountMsSplits(Down(events, now), WindowStart(now, days, observationStart), before, after);
      SumsGrow(bs, k - 1, CountMs(Down(events, now), before, after));
    }
  }

  lemma DivisionDistributes(a: real, b: real, c: real)
    requires c > 0.0
    ensures (a + b) / c == a / c + b / c
  {
  }

  lemma UpRatio(up: real, down: real, observed: real)
    requires 0.0 <= down <= observed && observed > 0.0
    requires up + down == observed
    ensures up / observed * 100.0 == 100.0 * (1.0 - down / observed)
    ensures 0.0 <= up / observed * 100.0 <= 100.0
  {
    DivisionDistributes(up, down, observed);
    RatioAtMostOne(down, observed);
  }

  lemma CappedRatio(bs: seq<Bucket>, down: int)
    requires SumObserved(bs) > 0 && 0 <= down <= SumObserved(bs)
    requires SumUp(bs) + down as real == SumObserved(bs) as real
    ensures WeightedUptime(bs) == Some(100.0 * (1.0 - down as real / SumObserved(bs) as real))
  {
    UpRatio(SumUp(bs), down as real, SumObserved(bs) as real);
  }

  /**
   * Splitting at midnights loses nothing: the weighted average is 100 times the
   * fraction of the whole observed window [WindowStart, now) that was not down.
   */
  lemma WeightedUptimeIsWindowUptime(bs: seq<Bucket>, events: seq<StatusEvent>, days: int, now: int, observationStart: Option<int>)
    requires days >= 1 && IsDailyUptime(bs, events, days, now, observationStart)
    ensures var lo := WindowStart(now, days, observationStart);
            && SumObserved(bs) == Max(0, now - lo)
            && WeightedUptime(bs) ==
               if now <= lo then None
               else Some(100.0 * (1.0 - CountMs(Down(events, now), lo, now) as real / (now - lo) as real))
  {
    var lo := WindowStart(now, days, observationStart);
    WindowSums(bs, events, days, now, observationStart);
    if lo < now {
      CountMsOfAllOrNone(Down(events, now), lo, now);
      CappedRatio(bs, CountMs(Down(events, now), lo, now));
    }
  }

  /** Over all days the sums are those of the whole window. */
  lemma WindowSums(bs: seq<Bucket>, events: seq<StatusEvent>, days: int, now: int, observationStart: Option<int>)
    requires days >= 1 && IsDailyUptime(bs, events, days, now, observationStart)
    ensures var lo := WindowStart(now, days, observationStart);
            && SumObserved(bs) == Max(0, now - lo)
            && (lo < now ==> SumUp(bs) + CountMs(Down(events, now), lo, now) as real == SumObserved(bs) as real)
  {
    PrefixSums(bs, |bs|, events, days, now, observationStart);
    assert bs[..|bs|] == bs;
    assert Midnight(now, days, days) == DayStart(now, 0) + DAY_MS > now;
  }
}
