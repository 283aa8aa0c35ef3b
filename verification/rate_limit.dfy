/**
 * The fixed-window rate limiter (lib/rate-limit.ts): one counter row per scope
 * and identifier, updated by a single upsert.  Times are milliseconds.
 */
module RateLimit {
  import opened Wrappers

  datatype Row = Row(count: nat, windowStartedAt: int, expiresAt: int)

  datatype Grant = Grant(remaining: nat, resetAt: int)

  function Ceil(x: int, unit: int): int
    requires unit > 0
  {
    -((-x) / unit)
  }

  /** What the upsert leaves in the row. */
  function Upserted(row: Option<Row>, now: int, windowMs: int): Row {
    if row.Some? && row.value.expiresAt > now then row.value.(count := row.value.count + 1)
    else Row(1, now, now + windowMs)
  }

  class Counter {
    var row: Option<Row>

    constructor ()
      ensures row == None
    {
      row := None;
    }

    /** Err carries the Retry-After seconds. */
    method ConsumeRateLimit(limit: int, windowMs: int, now: int) returns (r: Result<Grant, int>)
      modifies this
      ensures row == Some(Upserted(old(row), now, windowMs))
      ensures r.Ok? <==> row.value.count <= limit
      ensures r.Ok? ==> r.value.remaining == limit - row.value.count && r.value.resetAt == row.value.expiresAt
      ensures r.Err? ==> r.error == RetryAfter(row.value, now)
    {
      var expiresAt := now + windowMs;
      if row.None? {
        row := Some(Row(1, now, expiresAt));
      } else {
        var live := row.value.expiresAt > now;
        row := Some(Row(
          if live then row.value.count + 1 else 1,
          if live then row.value.windowStartedAt else now,
          if live then row.value.expiresAt else expiresAt));
      }
      if row.value.count > limit {
        return Err(Max(1, Ceil(row.value.expiresAt - now, 1000)));
      }
      return Ok(Grant(Max(0, limit - row.value.count), row.value.expiresAt));
    }
  }

  function RetryAfter(row: Row, now: int): int { Max(1, Ceil(row.expiresAt - now, 1000)) }

  // ===== every run of calls ===================================================

  /** The row after a series of calls; the database serializes them. */
  function RowAfter(row: Option<Row>, calls: seq<int>, windowMs: int): Option<Row> {
    if |calls| == 0 then row
    else Some(Upserted(RowAfter(row, calls[..|calls| - 1], windowMs), calls[|calls| - 1], windowMs))
  }

  predicate Admitted(calls: seq<int>, limit: int, windowMs: int)
    requires |calls| > 0
  {
    RowAfter(None, calls, windowMs).value.count <= limit
  }

  /** How many calls made in [lo, hi) were admitted. */
  function AdmittedIn(calls: seq<int>, limit: int, windowMs: int, lo: int, hi: int): nat {
    if |calls| == 0 then 0
    else
      AdmittedIn(calls[..|calls| - 1], limit, windowMs, lo, hi) +
      if lo <= calls[|calls| - 1] < hi && Admitted(calls, limit, windowMs) then 1 else 0
  }

  predicate Ordered(calls: seq<int>) {
    |calls| <= 1 || (Ordered(calls[..|calls| - 1]) && calls[|calls| - 2] <= calls[|calls| - 1])
  }

  lemma RunStep(row: Option<Row>, calls: seq<int>, t: int, windowMs: int)
    ensures RowAfter(row, calls + [t], windowMs) == Some(Upserted(RowAfter(row, calls, windowMs), t, windowMs))
  {
    assert (calls + [t])[..|calls|] == calls;
  }

  lemma AdmittedStep(calls: seq<int>, t: int, limit: int, windowMs: int, lo: int, hi: int)
    ensures AdmittedIn(calls + [t], limit, windowMs, lo, hi) ==
            AdmittedIn(calls, limit, windowMs, lo, hi) +
            if lo <= t < hi && Upserted(RowAfter(None, calls, windowMs), t, windowMs).count <= limit then 1 else 0
  {
    assert (calls + [t])[..|calls|] == calls;
    RunStep(None, calls, t, windowMs);
  }

  /** The live window is the last `count` calls, the first of which opened it. */
  ghost predicate WindowIs(calls: seq<int>, row: Row, windowMs: int) {
    && 1 <= row.count <= |calls|
    && row.expiresAt == row.windowStartedAt + windowMs
    && calls[|calls| - row.count] == row.windowStartedAt
    && forall i | |calls| - row.count < i < |calls| :: calls[i] < row.expiresAt
  }

  lemma {:induction false} WindowIsSuffix(calls: seq<int>, windowMs: int)
    requires |calls| > 0
    ensures WindowIs(calls, RowAfter(None, calls, windowMs).value, windowMs)
  {
    if |calls| > 1 { WindowIsSuffix(calls[..|calls| - 1], windowMs); }
  }

  /** A window admits exactly its first `limit` calls: whether a call is admitted depends on its place in the window alone. */
  lemma {:induction false} WindowAdmitsFirstCalls(calls: seq<int>, limit: int, windowMs: int, place: nat)
    requires |calls| > 0 && 1 <= place <= RowAfter(None, calls, windowMs).value.count
    ensures var i := |calls| - RowAfter(None, calls, windowMs).value.count + place;
            1 <= i <= |calls| && (Admitted(calls[..i], limit, windowMs) <==> place <= limit)
  {
    var count, front := RowAfter(None, calls, windowMs).value.count, calls[..|calls| - 1];
    WindowIsSuffix(calls, windowMs);
    if place == count {
      assert calls[..|calls|] == calls;
    } else {
      WindowAdmitsFirstCalls(front, limit, windowMs, place);
      assert front[..|calls| - count + place] == calls[..|calls| - count + place];
    }
  }

  /** What is known of the interval [lo, lo + windowMs) once the row stands at `row`, the last call having come at `last`. */
  ghost predicate Within(admitted: int, row: Row, last: int, limit: int, windowMs: int, lo: int) {
    && (last < lo ==> admitted == 0)
    && admitted <= 2 * limit - 1
    && (row.windowStartedAt < lo ==> admitted <= Min(row.count, limit) - 1)
    && (lo <= row.windowStartedAt < lo + windowMs ==> admitted <= limit - 1 + Min(row.count, limit))
  }

  lemma WithinStep(admitted: int, row: Row, last: int, limit: int, windowMs: int, lo: int, now: int)
    requires Within(admitted, row, last, limit, windowMs, lo) && limit >= 1 && row.count >= 1
    requires row.expiresAt == row.windowStartedAt + windowMs && row.windowStartedAt <= last <= now
    ensures var after := Upserted(Some(row), now, windowMs);
            Within(admitted + (if lo <= now < lo + windowMs && after.count <= limit then 1 else 0), after, now, limit, windowMs, lo)
  {
  }

  lemma {:induction false} OrderedEnds(calls: seq<int>, i: nat)
    requires Ordered(calls) && i < |calls|
    ensures calls[i] <= calls[|calls| - 1]
  {
    if i < |calls| - 1 { OrderedEnds(calls[..|calls| - 1], i); }
  }

  lemma {:induction false} IntervalBound(calls: seq<int>, limit: int, windowMs: int, lo: int)
    requires Ordered(calls) && limit >= 1 && |calls| > 0
    ensures Within(AdmittedIn(calls, limit, windowMs, lo, lo + windowMs), RowAfter(None, calls, windowMs).value, calls[|calls| - 1],
                   limit, windowMs, lo)
  {
    var n := |calls|;
    var front, now := calls[..n - 1], calls[n - 1];
    assert calls == front + [now];
    RunStep(None, front, now, windowMs);
    AdmittedStep(front, now, limit, windowMs, lo, lo + windowMs);
    if n > 1 {
      var row := RowAfter(None, front, windowMs).value;
      IntervalBound(front, limit, windowMs, lo);
      WindowIsSuffix(front, windowMs);
      OrderedEnds(front, n - 1 - row.count);
      WithinStep(AdmittedIn(front, limit, windowMs, lo, lo + windowMs), row, front[n - 2], limit, windowMs, lo, now);
    }
  }

  // ===== main results =========================================================

  /** No half-open interval as long as a window ever sees more than 2 * limit - 1 admissions. */
  lemma AtMostTwiceTheLimit(calls: seq<int>, limit: int, windowMs: int, lo: int)
    requires Ordered(calls) && limit >= 1
    ensures AdmittedIn(calls, limit, windowMs, lo, lo + windowMs) <= 2 * limit - 1
  {
    if |calls| > 0 { IntervalBound(calls, limit, windowMs, lo); }
  }

  /** One more call inside a live window with room left. */
  lemma OneMoreCall(calls: seq<int>, row: Row, limit: int, windowMs: int, at: int, lo: int, hi: int)
    requires |calls| > 0 && Ordered(calls) && calls[|calls| - 1] <= at
    requires RowAfter(None, calls, windowMs) == Some(row) && at < row.expiresAt && row.count < limit && lo <= at < hi
    ensures Ordered(calls + [at]) && RowAfter(None, calls + [at], windowMs) == Some(row.(count := row.count + 1))
    ensures AdmittedIn(calls + [at], limit, windowMs, lo, hi) == AdmittedIn(calls, limit, windowMs, lo, hi) + 1
  {
    RunStep(None, calls, at, windowMs);
    AdmittedStep(calls, at, limit, windowMs, lo, hi);
    OrderedStep(calls, at);
  }

  lemma OrderedStep(calls: seq<int>, t: int)
    requires Ordered(calls) && |calls| > 0 && calls[|calls| - 1] <= t
    ensures Ordered(calls + [t])
  {
    assert (calls + [t])[..|calls|] == calls;
  }

  lemma {:induction false} Burst(before: seq<int>, row: Row, limit: int, windowMs: int, n: nat, at: int, lo: int, hi: int)
    returns (calls: seq<int>)
    requires |before| > 0 && Ordered(before) && before[|before| - 1] <= at
    requires RowAfter(None, before, windowMs) == Some(row) && at < row.expiresAt && row.count + n <= limit && lo <= at < hi
    ensures Ordered(calls) && |calls| > 0 && calls[|calls| - 1] <= at
    ensures RowAfter(None, calls, windowMs) == Some(row.(count := row.count + n))
    ensures AdmittedIn(calls, limit, windowMs, lo, hi) == AdmittedIn(before, limit, windowMs, lo, hi) + n
  {
    calls := before;
    if n > 0 {
      var front := Burst(before, row, limit, windowMs, n - 1, at, lo, hi);
      OneMoreCall(front, row.(count := row.count + n - 1), limit, windowMs, at, lo, hi);
      calls := front + [at];
    }
  }

  lemma FirstCall(limit: int, windowMs: int, lo: int, hi: int)
    requires lo > 0
    ensures RowAfter(None, [0], windowMs) == Some(Row(1, 0, windowMs)) && AdmittedIn([0], limit, windowMs, lo, hi) == 0
  {
    assert [0][..0] == [];
    assert AdmittedIn([], limit, windowMs, lo, hi) == 0;
    assert RowAfter(None, [], windowMs) == None;
  }

  lemma SecondWindow(calls: seq<int>, row: Row, limit: int, windowMs: int, lo: int, hi: int)
    requires Ordered(calls) && |calls| > 0 && calls[|calls| - 1] <= row.expiresAt && lo <= row.expiresAt < hi && limit >= 1
    requires RowAfter(None, calls, windowMs) == Some(row)
    ensures Ordered(calls + [row.expiresAt])
    ensures RowAfter(None, calls + [row.expiresAt], windowMs) == Some(Row(1, row.expiresAt, row.expiresAt + windowMs))
    ensures AdmittedIn(calls + [row.expiresAt], limit, windowMs, lo, hi) == AdmittedIn(calls, limit, windowMs, lo, hi) + 1
  {
    RunStep(None, calls, row.expiresAt, windowMs);
    AdmittedStep(calls, row.expiresAt, limit, windowMs, lo, hi);
    OrderedStep(calls, row.expiresAt);
  }

  /**
   * The bound is reached for every limit and every window of at least two
   * milliseconds: a window opener, limit - 1 calls at that window's very end,
   * then limit calls right after it.
   */
  lemma BoundIsReached(limit: nat, windowMs: int) returns (calls: seq<int>, lo: int)
    requires limit >= 1 && windowMs >= 2
    ensures Ordered(calls) && AdmittedIn(calls, limit, windowMs, lo, lo + windowMs) == 2 * limit - 1
  {
    lo := windowMs - 1;
    FirstCall(limit, windowMs, lo, lo + windowMs);
    var late := Burst([0], Row(1, 0, windowMs), limit, windowMs, limit - 1, lo, lo, lo + windowMs);
    SecondWindow(late, Row(limit, 0, windowMs), limit, windowMs, lo, lo + windowMs);
    calls := Burst(late + [windowMs], Row(1, windowMs, windowMs + windowMs), limit, windowMs, limit - 1, windowMs, lo, lo + windowMs);
  }

  /** A rejected caller is told to wait until the window is over and less than a second longer; the one-second floor never acts. */
  lemma RetryAfterBounds(row: Option<Row>, limit: int, windowMs: int, now: int)
    requires limit >= 1 && Upserted(row, now, windowMs).count > limit
    ensures var after := Upserted(row, now, windowMs);
            && RetryAfter(after, now) == Ceil(after.expiresAt - now, 1000)
            && after.expiresAt <= now + 1000 * RetryAfter(after, now) < after.expiresAt + 1000
  {
  }

  lemma {:induction false} CallsInLiveWindow(row: Row, calls: seq<int>, windowMs: int)
    requires forall t <- calls :: t < row.expiresAt
    ensures RowAfter(Some(row), calls, windowMs) == Some(row.(count := row.count + |calls|))
  {
    if |calls| > 0 {
      var front := calls[..|calls| - 1];
      assert forall t <- front :: t in calls;
      CallsInLiveWindow(row, front, windowMs);
      assert calls[|calls| - 1] in calls;
    }
  }

  lemma {:induction false} RowAfterConcat(row: Option<Row>, a: seq<int>, b: seq<int>, windowMs: int)
    ensures RowAfter(row, a + b, windowMs) == RowAfter(RowAfter(row, a, windowMs), b, windowMs)
  {
    if |b| == 0 {
      assert a + b == a;
    } else {
      RowAfterConcat(row, a, b[..|b| - 1], windowMs);
      assert (a + b)[..|a + b| - 1] == a + b[..|b| - 1];
    }
  }

  /**
   * The first call from the advised moment on, after a rejection at `now` that
   * left `row`.  Others may have called meanwhile: `early` before the window
   * expired, `late` since.  It is admitted exactly when `late` left room or
   * its window, too, is over.  Windows are at least one second long.
   */
  lemma FirstRetryAdmittedIff(row: Row, limit: int, windowMs: int, now: int, early: seq<int>, late: seq<int>, at: int)
    requires limit >= 1 && windowMs >= 1000 && row.count > limit && row.expiresAt > now
    requires forall t <- early :: t < row.expiresAt
    requires forall t <- late :: row.expiresAt <= t < now + 1000 * RetryAfter(row, now)
    requires at >= now + 1000 * RetryAfter(row, now)
    ensures Upserted(RowAfter(Some(row), early + late, windowMs), at, windowMs).count <= limit
            <==> |late| < limit || at >= late[0] + windowMs
  {
    RowAfterConcat(Some(row), early, late, windowMs);
    CallsInLiveWindow(row, early, windowMs);
    if |late| > 0 {
      assert late[0] in late;
      LateCalls(row.(count := row.count + |early|), late, windowMs);
    }
  }

  /** Calls since the expiry share one new window when they lie closer together than it is long. */
  lemma LateCalls(row: Row, late: seq<int>, windowMs: int)
    requires |late| > 0 && row.expiresAt <= late[0] && windowMs > 0
    requires forall t <- late :: t < late[0] + windowMs
    ensures RowAfter(Some(row), late, windowMs) == Some(Row(|late|, late[0], late[0] + windowMs))
  {
    var renewed := Row(1, late[0], late[0] + windowMs);
    assert [] + [late[0]] == [late[0]] && [late[0]] + late[1..] == late;
    assert RowAfter(Some(row), [], windowMs) == Some(row);
    RunStep(Some(row), [], late[0], windowMs);
    RowAfterConcat(Some(row), [late[0]], late[1..], windowMs);
    assert forall t <- late[1..] :: t in late;
    CallsInLiveWindow(renewed, late[1..], windowMs);
  }

  /** In particular a caller who is alone with the counter is admitted, whatever the window. */
  lemma LoneRetryIsAdmitted(row: Row, limit: int, windowMs: int, now: int, early: seq<int>, at: int)
    requires limit >= 1 && row.count > limit
    requires forall t <- early :: t < row.expiresAt
    requires at >= now + 1000 * RetryAfter(row, now)
    ensures Upserted(RowAfter(Some(row), early, windowMs), at, windowMs) == Row(1, at, at + windowMs)
  {
    CallsInLiveWindow(row, early, windowMs);
  }
}
