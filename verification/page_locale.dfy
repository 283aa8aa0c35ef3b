/**
 * Wall-clock times of a page's time zone (lib/page-locale.ts).  A zone is a
 * table of offset changes; instants and wall times are milliseconds, a wall
 * time being read as if it were UTC.
 */
module PageLocale {
  const SECOND := 1_000
  const MINUTE := 60_000

  datatype Transition = Transition(at: int, offset: int)

  datatype Zone = Zone(initial: int, transitions: seq<Transition>)

  /** The offset in force at `instant`: that of the last transition not after it. */
  function OffsetAt(z: Zone, instant: int): int
    decreases |z.transitions|
  {
    if |z.transitions| == 0 then z.initial
    else
      var last := z.transitions[|z.transitions| - 1];
      if last.at <= instant then last.offset else OffsetAt(Earlier(z), instant)
  }

  function Earlier(z: Zone): Zone
    requires |z.transitions| > 0
  {
    z.(transitions := z.transitions[..|z.transitions| - 1])
  }

  function FloorTo(x: int, unit: int): int
    requires unit > 0
  {
    x / unit * unit
  }

  /** Computed from the wall clock, which is printed in whole seconds. */
  function TimeZoneOffset(z: Zone, instant: int): int {
    FloorTo(instant + OffsetAt(z, instant), SECOND) - FloorTo(instant, SECOND)
  }

  function ZonedDateTimeToUtc(z: Zone, wall: int): int {
    var instant := wall - TimeZoneOffset(z, wall);
    wall - TimeZoneOffset(z, instant)
  }

  function Wall(z: Zone, instant: int): int { instant + TimeZoneOffset(z, instant) }

  /** The text of a `datetime-local` value stops at the minute. */
  function UtcToZonedDateTime(z: Zone, instant: int): int { FloorTo(Wall(z, instant), MINUTE) }

  predicate Bounded(offset: int, most: int) { -most <= offset <= most && offset % SECOND == 0 }

  /** Offsets are whole seconds of at most `most`, and changes are at least twice that apart. */
  ghost predicate Spaced(z: Zone, most: int) {
    && Bounded(z.initial, most)
    && (forall i | 0 <= i < |z.transitions| :: Bounded(z.transitions[i].offset, most))
    && (forall i, j | 0 <= i < j < |z.transitions| :: z.transitions[j].at - z.transitions[i].at >= 2 * most)
  }

  /** Around `wall` the zone knows one change: `before` until `at`, `after` from then on. */
  datatype Around = Around(at: int, before: int, after: int)

  ghost predicate Describes(c: Around, z: Zone, wall: int, most: int) {
    && Bounded(c.before, most) && Bounded(c.after, most)
    && forall t | wall - most <= t <= wall + most :: TimeZoneOffset(z, t) == if t < c.at then c.before else c.after
  }

  lemma {:induction false} OffsetIsBounded(z: Zone, most: int, t: int)
    requires Spaced(z, most)
    ensures Bounded(OffsetAt(z, t), most) && TimeZoneOffset(z, t) == OffsetAt(z, t)
    decreases |z.transitions|
  {
    if |z.transitions| > 0 && z.transitions[|z.transitions| - 1].at > t {
      OffsetIsBounded(Earlier(z), most, t);
    }
    WholeSecondsShift(t, OffsetAt(z, t));
  }

  lemma WholeSecondsShift(t: int, offset: int)
    requires offset % SECOND == 0
    ensures FloorTo(t + offset, SECOND) - FloorTo(t, SECOND) == offset
  {
    assert offset == offset / SECOND * SECOND;
    assert (t + offset) / SECOND == t / SECOND + offset / SECOND;
  }

  lemma NoChangeSince(z: Zone, since: int, t: int)
    requires forall i | 0 <= i < |z.transitions| :: z.transitions[i].at <= since
    requires since <= t
    ensures OffsetAt(z, t) == OffsetAt(z, since)
  {
  }

  ghost predicate Follows(c: Around, z: Zone, wall: int, most: int) {
    forall t | wall - most <= t <= wall + most :: OffsetAt(z, t) == if t < c.at then c.before else c.after
  }

  lemma {:induction false} OneChange(z: Zone, most: int, wall: int) returns (c: Around)
    requires Spaced(z, most)
    ensures Bounded(c.before, most) && Bounded(c.after, most) && Follows(c, z, wall, most)
    decreases |z.transitions|
  {
    var n := |z.transitions|;
    if n == 0 {
      c := Around(wall, z.initial, z.initial);
    } else if z.transitions[n - 1].at > wall + most {
      c := OneChange(Earlier(z), most, wall);
      assert forall t | t <= wall + most :: OffsetAt(z, t) == OffsetAt(Earlier(z), t);
    } else {
      var last, lo := z.transitions[n - 1], wall - most;
      c := Around(last.at, OffsetAt(Earlier(z), lo), last.offset);
      OffsetIsBounded(Earlier(z), most, lo);
      forall t | lo <= t <= wall + most && t < last.at ensures OffsetAt(z, t) == c.before {
        NoChangeSince(Earlier(z), lo, t);
      }
    }
  }

  lemma OneChangeAround(z: Zone, most: int, wall: int) returns (c: Around)
    requires Spaced(z, most)
    ensures Describes(c, z, wall, most)
  {
    c := OneChange(z, most, wall);
    forall t | wall - most <= t <= wall + most ensures TimeZoneOffset(z, t) == if t < c.at then c.before else c.after {
      OffsetIsBounded(z, most, t);
    }
  }

  // ===== main results =========================================================

  /** Some instant reads `wall` on this zone's clocks. */
  ghost predicate WallTimeExists(z: Zone, wall: int) { exists t :: Wall(z, t) == wall }

  /** The change around `wall` skips it. */
  predicate Skips(c: Around, wall: int) { c.at + c.before <= wall < c.at + c.after }

  /** The change around `wall` lets it happen twice. */
  predicate Repeats(c: Around, wall: int) { c.at + c.after <= wall < c.at + c.before }

  lemma ExistsIff(z: Zone, most: int, wall: int, c: Around)
    requires Spaced(z, most) && Describes(c, z, wall, most)
    ensures WallTimeExists(z, wall) <==> !Skips(c, wall)
  {
    if WallTimeExists(z, wall) {
      var t :| Wall(z, t) == wall;
      OffsetIsBounded(z, most, t);
    } else {
      assert Wall(z, wall - c.before) != wall && Wall(z, wall - c.after) != wall;
    }
  }

  /** Two passes suffice: the conversion comes back to `wall` exactly when some clock ever shows it, repeated hours included. */
  lemma TwoPassesSuffice(z: Zone, most: int, wall: int)
    requires Spaced(z, most)
    ensures Wall(z, ZonedDateTimeToUtc(z, wall)) == wall <==> WallTimeExists(z, wall)
  {
    var c := OneChangeAround(z, most, wall);
    ExistsIff(z, most, wall, c);
  }

  /** A skipped time moves by the size of the gap: forward when it lies after the change read as UTC, back otherwise. */
  lemma SkippedTimeMovesByTheGap(z: Zone, most: int, wall: int, c: Around)
    requires Spaced(z, most) && Describes(c, z, wall, most) && !WallTimeExists(z, wall)
    ensures c.before < c.after
    ensures Wall(z, ZonedDateTimeToUtc(z, wall)) == if wall >= c.at then wall + (c.after - c.before) else wall - (c.after - c.before)
  {
    ExistsIff(z, most, wall, c);
  }

  /** A repeated time means its first occurrence when it lies before the change read as UTC, the second otherwise. */
  lemma RepeatedTimeChoice(z: Zone, most: int, wall: int, c: Around)
    requires Spaced(z, most) && Describes(c, z, wall, most) && Repeats(c, wall)
    ensures Wall(z, wall - c.before) == wall == Wall(z, wall - c.after) && wall - c.before < c.at <= wall - c.after
    ensures ZonedDateTimeToUtc(z, wall) == if wall < c.at then wall - c.before else wall - c.after
  {
  }

  /** An instant survives the trip through its wall time unless another instant shows the same time and is preferred. */
  lemma InstantComesBackIff(z: Zone, most: int, t: int, c: Around)
    requires Spaced(z, most) && Describes(c, z, Wall(z, t), most)
    ensures ZonedDateTimeToUtc(z, Wall(z, t)) == t <==> (Repeats(c, Wall(z, t)) ==> (t < c.at <==> Wall(z, t) < c.at))
  {
    OffsetIsBounded(z, most, t);
    var wall := Wall(z, t);
    assert WallTimeExists(z, wall);
    ExistsIff(z, most, wall, c);
  }

  /** The printed minute can hide a forward move of less than a minute, and nothing else. */
  lemma PrintedRoundTrip(z: Zone, most: int, wall: int, c: Around)
    requires Spaced(z, most) && Describes(c, z, wall, most) && wall % MINUTE == 0
    ensures UtcToZonedDateTime(z, ZonedDateTimeToUtc(z, wall)) == wall
            <==> WallTimeExists(z, wall) || (wall >= c.at && c.after - c.before < MINUTE)
  {
    TwoPassesSuffice(z, most, wall);
    if !WallTimeExists(z, wall) { SkippedTimeMovesByTheGap(z, most, wall, c); }
    SameMinuteIff(wall, Wall(z, ZonedDateTimeToUtc(z, wall)));
  }

  lemma SameMinuteIff(wall: int, shown: int)
    requires wall % MINUTE == 0
    ensures FloorTo(shown, MINUTE) == wall <==> wall <= shown < wall + MINUTE
  {
  }

  /** With whole-minute offsets, as in every zone today, the printed round trip fails exactly on skipped times. */
  lemma PrintedRoundTripIffExists(z: Zone, most: int, wall: int)
    requires Spaced(z, most) && wall % MINUTE == 0
    requires z.initial % MINUTE == 0 && forall i | 0 <= i < |z.transitions| :: z.transitions[i].offset % MINUTE == 0
    ensures UtcToZonedDateTime(z, ZonedDateTimeToUtc(z, wall)) == wall <==> WallTimeExists(z, wall)
  {
    var c := OneChangeAround(z, most, wall);
    PrintedRoundTrip(z, most, wall, c);
    ExistsIff(z, most, wall, c);
    if Skips(c, wall) && wall >= c.at {
      OffsetIsBounded(z, most, wall);
      OffsetIsBounded(z, most, wall - c.after);
      WholeMinutes(z, wall);
      WholeMinutes(z, wall - c.after);
      WholeMinutesApart(c.before, c.after);
    }
  }

  lemma WholeMinutesApart(a: int, b: int)
    requires a % MINUTE == 0 && b % MINUTE == 0 && a < b
    ensures b - a >= MINUTE
  {
  }

  lemma {:induction false} WholeMinutes(z: Zone, t: int)
    requires z.initial % MINUTE == 0 && forall i | 0 <= i < |z.transitions| :: z.transitions[i].offset % MINUTE == 0
    ensures OffsetAt(z, t) % MINUTE == 0
    decreases |z.transitions|
  {
    if |z.transitions| > 0 { WholeMinutes(Earlier(z), t); }
  }

  /** Changes 9 hours apart with a 10-hour offset: too close, and an existing wall time is lost. */
  const CROWDED: Zone := Zone(5 * 60 * MINUTE, [Transition(-9 * 60 * MINUTE, 3 * 60 * MINUTE), Transition(0, 10 * 60 * MINUTE)])

  lemma SpacingIsNeeded()
    ensures WallTimeExists(CROWDED, 0) && UtcToZonedDateTime(CROWDED, ZonedDateTimeToUtc(CROWDED, 0)) != 0
  {
    var h := 60 * MINUTE;
    assert Earlier(CROWDED).transitions == [Transition(-9 * h, 3 * h)];
    assert Earlier(Earlier(CROWDED)).transitions == [];
    assert OffsetAt(Earlier(CROWDED), -10 * h) == OffsetAt(Earlier(Earlier(CROWDED)), -10 * h) == 5 * h;
    assert OffsetAt(CROWDED, 0) == 10 * h;
    assert OffsetAt(CROWDED, -10 * h) == 5 * h;
    assert OffsetAt(CROWDED, -5 * h) == OffsetAt(CROWDED, -3 * h) == 3 * h;
    assert Wall(CROWDED, -3 * h) == 0;
  }

  /** The printed value is the wall time at its full minute: the instant plus the offset in force, to the minute. */
  lemma PrintsTheMinute(z: Zone, most: int, t: int)
    requires Spaced(z, most)
    ensures UtcToZonedDateTime(z, t) % 60_000 == 0
    ensures UtcToZonedDateTime(z, t) <= t + OffsetAt(z, t) < UtcToZonedDateTime(z, t) + 60_000
  {
    OffsetIsBounded(z, most, t);
  }

  /** The offset in force is that of the latest change not after the instant, or the zone's first one. */
  lemma {:induction false} OffsetInForce(z: Zone, t: int)
    ensures (forall i | 0 <= i < |z.transitions| :: z.transitions[i].at > t) ==> OffsetAt(z, t) == z.initial
    ensures forall k | 0 <= k < |z.transitions| && z.transitions[k].at <= t && (forall i | k < i < |z.transitions| :: z.transitions[i].at > t) ::
              OffsetAt(z, t) == z.transitions[k].offset
    decreases |z.transitions|
  {
    if |z.transitions| > 0 && z.transitions[|z.transitions| - 1].at > t { OffsetInForce(Earlier(z), t); }
  }

  /** The clock is printed in whole seconds, so whatever the zone, the offset read off it is a number of seconds. */
  lemma OffsetIsInSeconds(z: Zone, instant: int)
    ensures TimeZoneOffset(z, instant) % 1000 == 0
    ensures OffsetAt(z, instant) - 1000 < TimeZoneOffset(z, instant) < OffsetAt(z, instant) + 1000
  {
  }
}
