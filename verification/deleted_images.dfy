/**
 * What flushing one key takes out of the image cache, and when a deleted image
 * comes back (lib/asset-storage.ts).
 */
module DeletedImages {
  import opened Wrappers
  import opened AssetStorage

  /** The entries of all other keys, in their order. */
  function Others(entries: seq<Entry>, key: string): seq<Entry> {
    if |entries| == 0 then []
    else Others(entries[..|entries| - 1], key) + if entries[|entries| - 1].key == key then [] else [entries[|entries| - 1]]
  }

  lemma {:induction false} OthersConcat(a: seq<Entry>, b: seq<Entry>, key: string)
    ensures Others(a + b, key) == Others(a, key) + Others(b, key)
  {
    if |b| == 0 {
      assert a + b == a;
    } else {
      OthersConcat(a, b[..|b| - 1], key);
      assert (a + b)[..|a + b| - 1] == a + b[..|b| - 1];
    }
  }

  lemma {:induction false} OthersOfOthers(entries: seq<Entry>, key: string)
    requires forall e <- entries :: e.key != key
    ensures Others(entries, key) == entries
  {
    if |entries| != 0 {
      var front, last := entries[..|entries| - 1], entries[|entries| - 1];
      assert forall e <- front :: e in entries;
      assert last in entries && entries == front + [last];
      OthersOfOthers(front, key);
    }
  }

  lemma OthersAround(a: seq<Entry>, e: Entry, b: seq<Entry>)
    requires (forall x <- a :: x.key != e.key) && forall x <- b :: x.key != e.key
    ensures Others(a + [e] + b, e.key) == a + b
  {
    OthersConcat(a + [e], b, e.key);
    OthersDropLast(a, e);
    OthersOfOthers(a, e.key);
    OthersOfOthers(b, e.key);
  }

  lemma OthersDropLast(a: seq<Entry>, e: Entry)
    ensures Others(a + [e], e.key) == Others(a, e.key)
  {
    assert (a + [e])[..|a|] == a;
  }

  lemma WithoutIsOthers(entries: seq<Entry>, key: string)
    requires DistinctKeys(entries)
    ensures Without(entries, key) == Others(entries, key)
  {
    var i := IndexOf(entries, key);
    if i < 0 {
      OthersOfOthers(entries, key);
    } else {
      assert entries == entries[..i] + [entries[i]] + entries[i + 1..];
      OthersAround(entries[..i], entries[i], entries[i + 1..]);
    }
  }

  /**
   * Flushing one key takes its entry out of the cache and no other, keeps the
   * order of the rest, and lowers the count by exactly the bytes freed.
   */
  lemma FlushForgets(s: State, key: string)
    requires Reachable(s)
    ensures var before, after := s.cache, Apply(s, FlushKey(key)).cache;
            && !Holds(after.entries, key) && after.entries == Others(before.entries, key)
            && before.cachedBytes - after.cachedBytes == Total(before.entries) - Total(after.entries)
            && (forall e <- before.entries | e.key == key :: before.cachedBytes - after.cachedBytes == |e.value|)
            && (!Holds(before.entries, key) ==> after == before)
  {
    CacheIsBounded(s);
    assert Apply(s, FlushKey(key)).cache == Flushed(s.cache, key);
    WithoutIsOthers(s.cache.entries, key);
    NotHeld(s.cache.entries, key);
    FlushCounts(s.cache, key);
  }

  lemma NotHeld(entries: seq<Entry>, key: string)
    requires DistinctKeys(entries)
    ensures !Holds(Without(entries, key), key)
  {
    WithoutLacksKey(entries, key);
  }

  lemma FlushCounts(c: Cache, key: string)
    requires DistinctKeys(c.entries)
    ensures var after := Flushed(c, key);
            && after.entries == Without(c.entries, key) && (!Holds(c.entries, key) ==> after == c)
            && c.cachedBytes - after.cachedBytes == Total(c.entries) - Total(after.entries)
            && forall e <- c.entries | e.key == key :: c.cachedBytes - after.cachedBytes == |e.value|
  {
    var i := IndexOf(c.entries, key);
    if i >= 0 {
      TotalAround(c.entries, i);
      forall e <- c.entries | e.key == key ensures e == c.entries[i] {}
    }
  }

  /** A body of more than eight mebibytes leaves the cache as it was. */
  lemma LargeBodiesAreNotKept(s: State, reader: nat)
    requires reader in s.pending && s.pending[reader].Fetched? && |s.pending[reader].bytes| > 8 * 1024 * 1024
    ensures Apply(s, Resume(reader)).cache == s.cache
  {
  }

  // ----- a deleted image ------------------------------------------------------

  /** Flushed and its row deleted; `stored` still remembers what it was. */
  ghost predicate Gone(s: State, key: string) { key in s.stored && key !in s.rows && !Holds(s.cache.entries, key) }

  /** A read that fetched the bytes before the row was deleted and has not gone on yet. */
  predicate LateReader(s: State, reader: nat, key: string) {
    reader in s.pending && s.pending[reader].Fetched? && s.pending[reader].key == key
  }

  /** Step i is the rest of a read that was late already at the start. */
  ghost predicate LateResume(s: State, steps: seq<Step>, i: nat, key: string) {
    && i < |steps| && steps[i].Resume? && LateReader(s, steps[i].reader, key)
    && LateReader(Run(s, steps[..i]), steps[i].reader, key) && Small(s.pending[steps[i].reader].bytes)
  }

  /** The image is cached after step i and after every later one. */
  ghost predicate SurvivesFrom(s: State, steps: seq<Step>, i: nat, key: string) {
    forall j | i < j <= |steps| :: Holds(Run(s, steps[..j]).cache.entries, key)
  }

  /** The row never returns, and no read can fetch the bytes any more. */
  ghost predicate StaysGone(s: State, t: State, key: string) {
    && key in t.stored && key !in t.rows
    && forall r: nat | LateReader(t, r, key) :: LateReader(s, r, key) && t.pending[r] == s.pending[r]
  }

  lemma StepStaysGone(s: State, t: State, step: Step, key: string)
    requires StaysGone(s, t, key)
    ensures StaysGone(s, Apply(t, step), key)
  {
  }

  lemma {:induction false} RunStaysGone(s: State, steps: seq<Step>, key: string)
    requires key in s.stored && key !in s.rows
    ensures StaysGone(s, Run(s, steps), key)
  {
    if |steps| != 0 {
      RunStaysGone(s, steps[..|steps| - 1], key);
      StepStaysGone(s, Run(s, steps[..|steps| - 1]), steps[|steps| - 1], key);
    }
  }

  /** Entries are moved, dropped, or put in by a read that goes on. */
  lemma OnlyResumesCache(s: State, step: Step, key: string)
    requires Inv(s) && !Holds(s.cache.entries, key) && Holds(Apply(s, step).cache.entries, key)
    ensures step.Resume? && LateReader(s, step.reader, key) && Small(s.pending[step.reader].bytes)
  {
    match step
    case Read(reader, other, _) =>
      if reader !in s.pending && Holds(s.cache.entries, other) { TouchAddsNothing(s.cache, other, key); }
    case FlushKey(other) => WithoutMembers(s.cache.entries, other);
    case Resume(reader) =>
      if reader in s.pending && s.pending[reader].Fetched? && Small(s.pending[reader].bytes) {
        MissAddsOnly(s.cache, s.pending[reader].key, s.pending[reader].bytes, s.stored, key);
      }
    case _ =>
  }

  lemma TouchAddsNothing(c: Cache, other: string, key: string)
    requires Holds(c.entries, other) && Holds(Touched(c, other).entries, key)
    ensures Holds(c.entries, key)
  {
    WithoutMembers(c.entries, other);
    var entries := Touched(c, other).entries;
    var e := entries[IndexOf(entries, key)];
    assert e in entries;
    assert e in c.entries;
  }

  lemma MissAddsOnly(c: Cache, name: string, value: Bytes, stored: map<string, Bytes>, key: string)
    requires Sound(c) && ValuesAreStored(c.entries, stored) && name in stored && stored[name] == value && Small(value)
    requires Holds(Missed(c, name, value).entries, key) && !Holds(c.entries, key)
    ensures name == key
  {
    var grown := Cache(With(c.entries, name, value), c.cachedBytes + |value|);
    WithTotal(c.entries, name, value);
    if Holds(c.entries, name) { CachedFits(c.entries, name, value); }
    DistinctWith(c.entries, name, value);
    GrownEvicts(grown);
    var e := Missed(c, name, value).entries[IndexOf(Missed(c, name, value).entries, key)];
    assert e in grown.entries;
    assert e in c.entries || e == Entry(name, value);
  }

  lemma OneStepLonger(s: State, steps: seq<Step>, i: nat, key: string)
    requires |steps| > 0 && LateResume(s, steps[..|steps| - 1], i, key) && SurvivesFrom(s, steps[..|steps| - 1], i, key)
    requires Holds(Run(s, steps).cache.entries, key)
    ensures LateResume(s, steps, i, key) && SurvivesFrom(s, steps, i, key)
  {
    var front := steps[..|steps| - 1];
    assert front[..i] == steps[..i];
    forall j | i < j <= |steps| ensures Holds(Run(s, steps[..j]).cache.entries, key) {
      if j < |steps| { assert front[..j] == steps[..j]; } else { assert steps[..j] == steps; }
    }
  }

  lemma HeldByLastStep(s: State, steps: seq<Step>, key: string)
    requires Inv(s) && Gone(s, key) && |steps| > 0
    requires !Holds(Run(s, steps[..|steps| - 1]).cache.entries, key) && Holds(Run(s, steps).cache.entries, key)
    ensures LateResume(s, steps, |steps| - 1, key) && SurvivesFrom(s, steps, |steps| - 1, key)
  {
    var front := steps[..|steps| - 1];
    RunKeepsInv(s, front);
    OnlyResumesCache(Run(s, front), steps[|steps| - 1], key);
    RunStaysGone(s, front, key);
    assert steps[..|steps|] == steps;
  }

  lemma {:induction false} HeldAgainByLateReader(s: State, steps: seq<Step>, key: string) returns (i: nat)
    requires Inv(s) && Gone(s, key) && Holds(Run(s, steps).cache.entries, key)
    ensures LateResume(s, steps, i, key) && SurvivesFrom(s, steps, i, key)
  {
    var front := steps[..|steps| - 1];
    if Holds(Run(s, front).cache.entries, key) {
      i := HeldAgainByLateReader(s, front, key);
      OneStepLonger(s, steps, i, key);
    } else {
      i := |front|;
      HeldByLastStep(s, steps, key);
    }
  }

  /**
   * Once an image is flushed and its row deleted, in every run it is served from
   * the cache again exactly if a read that had fetched its bytes before goes on
   * afterwards, and neither eviction nor a flush has removed them since.
   */
  lemma DeletedImageServedIff(s: State, steps: seq<Step>, key: string)
    requires Reachable(s) && Gone(s, key)
    ensures Holds(Run(s, steps).cache.entries, key) <==>
            exists i: nat :: LateResume(s, steps, i, key) && SurvivesFrom(s, steps, i, key)
  {
    var before :| s == Run(NEW, before);
    RunKeepsInv(NEW, before);
    if Holds(Run(s, steps).cache.entries, key) { var i := HeldAgainByLateReader(s, steps, key); }
    assert steps[..|steps|] == steps;
  }

  /** What it takes for the image to come back at all: a late read whose bytes fit under the cap less the drift. */
  lemma DeletedImageCanReturnIff(s: State, key: string)
    requires Reachable(s) && Gone(s, key)
    ensures (exists steps: seq<Step> :: NoFullFlush(steps) && Holds(Run(s, steps).cache.entries, key)) <==>
            exists r: nat :: LateReader(s, r, key) && Small(s.pending[r].bytes) && |s.pending[r].bytes| <= CACHE_MAX_BYTES - Drift(s.cache)
  {
    var before :| s == Run(NEW, before);
    RunKeepsInv(NEW, before);
    forall r: nat | LateReader(s, r, key) && Small(s.pending[r].bytes) && |s.pending[r].bytes| <= CACHE_MAX_BYTES - Drift(s.cache)
      ensures NoFullFlush([Resume(r)]) && Holds(Run(s, [Resume(r)]).cache.entries, key)
    {
      ReturnsAtOnce(s, r, key);
    }
    forall steps: seq<Step> | NoFullFlush(steps) && Holds(Run(s, steps).cache.entries, key)
      ensures exists r: nat :: LateReader(s, r, key) && Small(s.pending[r].bytes) && |s.pending[r].bytes| <= CACHE_MAX_BYTES - Drift(s.cache)
    {
      var i := HeldAgainByLateReader(s, steps, key);
      HeldFits(s, steps, key, s.pending[steps[i].reader].bytes);
    }
  }

  lemma ReturnsAtOnce(s: State, r: nat, key: string)
    requires Inv(s) && Gone(s, key) && LateReader(s, r, key) && Small(s.pending[r].bytes)
    requires |s.pending[r].bytes| <= CACHE_MAX_BYTES - Drift(s.cache)
    ensures NoFullFlush([Resume(r)]) && Holds(Run(s, [Resume(r)]).cache.entries, key)
  {
    var e := Entry(key, s.pending[r].bytes);
    assert [Resume(r)][..0] == [];
    var n := EvictionIsMinimal(s.cache, key, e.value);
    var grown := s.cache.entries + [e];
    assert grown[n..][|grown| - 1 - n] == e;
    assert e in Apply(s, Resume(r)).cache.entries;
  }

  lemma HeldFits(s: State, steps: seq<Step>, key: string, bytes: Bytes)
    requires Reachable(s) && Inv(s) && key in s.stored && s.stored[key] == bytes && NoFullFlush(steps)
    requires Holds(Run(s, steps).cache.entries, key)
    ensures |bytes| <= CACHE_MAX_BYTES - Drift(s.cache)
  {
    DriftIsLostCapacity(s, steps);
    StoredStays(s, steps, key);
    RunKeepsInv(s, steps);
    var entries := Run(s, steps).cache.entries;
    EntryFits(entries, entries[IndexOf(entries, key)]);
  }

  /** With no such read under way the image is never served again. */
  lemma DeletedImageStaysGone(s: State, steps: seq<Step>, key: string)
    requires Reachable(s) && Gone(s, key) && forall r: nat :: !LateReader(s, r, key)
    ensures !Holds(Run(s, steps).cache.entries, key)
  {
    DeletedImageServedIff(s, steps, key);
  }
}
