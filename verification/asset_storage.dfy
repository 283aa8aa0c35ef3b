/**
 * The in-process cache of served images (lib/asset-storage.ts): a Map, which
 * iterates in insertion order, and a running byte count.
 */
module AssetStorage {
  import opened Wrappers

  newtype Byte = b: int | 0 <= b < 256

  type Bytes = seq<Byte>

  const CACHE_MAX_BYTES: int := 32 * 1024 * 1024

  datatype Entry = Entry(key: string, value: Bytes)

  datatype Cache = Cache(entries: seq<Entry>, cachedBytes: int)

  // ===== the Map ==============================================================

  function IndexOf(entries: seq<Entry>, key: string): (i: int)
    ensures -1 <= i < |entries|
    ensures i >= 0 ==> entries[i].key == key
    ensures i < 0 ==> forall e <- entries :: e.key != key
  {
    if |entries| == 0 then -1
    else if entries[|entries| - 1].key == key then |entries| - 1
    else IndexOf(entries[..|entries| - 1], key)
  }

  predicate Holds(entries: seq<Entry>, key: string) { IndexOf(entries, key) >= 0 }

  function Without(entries: seq<Entry>, key: string): seq<Entry> {
    var i := IndexOf(entries, key);
    if i < 0 then entries else entries[..i] + entries[i + 1..]
  }

  /** Setting a key that is present keeps its place. */
  function With(entries: seq<Entry>, key: string, value: Bytes): seq<Entry> {
    var i := IndexOf(entries, key);
    if i < 0 then entries + [Entry(key, value)] else entries[i := Entry(key, value)]
  }

  function Total(entries: seq<Entry>): nat {
    if |entries| == 0 then 0 else |entries[0].value| + Total(entries[1..])
  }

  // ===== the cache operations =================================================

  function Flushed(c: Cache, key: string): Cache {
    var i := IndexOf(c.entries, key);
    if i < 0 then c else Cache(Without(c.entries, key), c.cachedBytes - |c.entries[i].value|)
  }

  /** A hit moves to the end. */
  function Touched(c: Cache, key: string): Cache
    requires Holds(c.entries, key)
  {
    c.(entries := Without(c.entries, key) + [c.entries[IndexOf(c.entries, key)]])
  }

  function Evicted(c: Cache): Cache
    decreases |c.entries|
  {
    if |c.entries| == 0 || c.cachedBytes <= CACHE_MAX_BYTES then c
    else Evicted(Cache(c.entries[1..], c.cachedBytes - |c.entries[0].value|))
  }

  predicate Small(value: Bytes) { |value| <= CACHE_MAX_BYTES / 4 }

  function Missed(c: Cache, key: string, value: Bytes): Cache {
    if Small(value) then Evicted(Cache(With(c.entries, key, value), c.cachedBytes + |value|)) else c
  }

  class ImageCache {
    var imageCache: seq<Entry>
    var cachedBytes: int

    ghost function Now(): Cache
      reads this
    {
      Cache(imageCache, cachedBytes)
    }

    constructor ()
      ensures Now() == Cache([], 0)
    {
      imageCache, cachedBytes := [], 0;
    }

    method FlushAssetCache(key: Option<string>)
      modifies this
      ensures Now() == if key.None? then Cache([], 0) else Flushed(old(Now()), key.value)
    {
      if key.None? {
        imageCache, cachedBytes := [], 0;
        return;
      }
      var i := IndexOf(imageCache, key.value);
      if i < 0 { return; }
      var hit := imageCache[i].value;
      imageCache := imageCache[..i] + imageCache[i + 1..];
      cachedBytes := cachedBytes - |hit|;
    }

    /** Up to the await: a hit is refreshed and returned, a miss leaves the cache alone. */
    method BeforeAwait(key: string) returns (hit: Option<Bytes>)
      modifies this
      ensures hit.Some? <==> Holds(old(imageCache), key)
      ensures hit.Some? ==> Entry(key, hit.value) in old(imageCache) && Now() == Touched(old(Now()), key)
      ensures hit.None? ==> Now() == old(Now())
    {
      var i := IndexOf(imageCache, key);
      if i < 0 { return None; }
      var value := imageCache[i].value;
      imageCache := imageCache[..i] + imageCache[i + 1..];
      imageCache := imageCache + [Entry(key, value)];
      return Some(value);
    }

    /** From the await on: keep the bytes, then evict from the front until the count fits. */
    method AfterAwait(key: string, bytes: Bytes)
      modifies this
      ensures Now() == Missed(old(Now()), key, bytes)
    {
      if |bytes| <= CACHE_MAX_BYTES / 4 {
        imageCache := With(imageCache, key, bytes);
        cachedBytes := cachedBytes + |bytes|;
        while |imageCache| > 0
          invariant Evicted(Now()) == Missed(old(Now()), key, bytes)
          decreases |imageCache|
        {
          if cachedBytes <= CACHE_MAX_BYTES { break; }
          cachedBytes := cachedBytes - |imageCache[0].value|;
          imageCache := imageCache[1..];
        }
      }
    }
  }

  // ===== facts about one operation ============================================

  ghost predicate DistinctKeys(entries: seq<Entry>) {
    forall i, j | 0 <= i < j < |entries| :: entries[i].key != entries[j].key
  }

  /** The bytes the count claims beyond what is cached. */
  function Drift(c: Cache): int { c.cachedBytes - Total(c.entries) }

  ghost predicate Sound(c: Cache) { DistinctKeys(c.entries) && Total(c.entries) <= c.cachedBytes <= CACHE_MAX_BYTES }

  lemma {:induction false} TotalConcat(a: seq<Entry>, b: seq<Entry>)
    ensures Total(a + b) == Total(a) + Total(b)
  {
    if |a| == 0 {
      assert a + b == b;
    } else {
      TotalConcat(a[1..], b);
      assert (a + b)[1..] == a[1..] + b;
    }
  }

  lemma TotalAround(entries: seq<Entry>, i: nat)
    requires i < |entries|
    ensures Total(entries) == Total(entries[..i] + entries[i + 1..]) + |entries[i].value|
  {
    assert entries == entries[..i] + ([entries[i]] + entries[i + 1..]);
    TotalConcat(entries[..i], [entries[i]] + entries[i + 1..]);
    TotalConcat([entries[i]], entries[i + 1..]);
    TotalConcat(entries[..i], entries[i + 1..]);
  }

  lemma FlushedSound(c: Cache, key: string)
    requires Sound(c)
    ensures Sound(Flushed(c, key)) && Drift(Flushed(c, key)) == Drift(c)
  {
    var i := IndexOf(c.entries, key);
    if i >= 0 { TotalAround(c.entries, i); }
  }

  lemma TouchedSound(c: Cache, key: string)
    requires Sound(c) && Holds(c.entries, key)
    ensures Sound(Touched(c, key)) && Drift(Touched(c, key)) == Drift(c)
  {
    TouchedTotal(c.entries, IndexOf(c.entries, key));
    TouchedDistinct(c.entries, IndexOf(c.entries, key));
  }

  lemma TouchedTotal(entries: seq<Entry>, i: nat)
    requires i < |entries|
    ensures Total(entries[..i] + entries[i + 1..] + [entries[i]]) == Total(entries)
  {
    TotalAround(entries, i);
    TotalConcat(entries[..i] + entries[i + 1..], [entries[i]]);
  }

  lemma TouchedDistinct(entries: seq<Entry>, i: nat)
    requires DistinctKeys(entries) && i < |entries|
    ensures DistinctKeys(entries[..i] + entries[i + 1..] + [entries[i]])
  {
  }

  lemma WithTotal(entries: seq<Entry>, key: string, value: Bytes)
    requires forall e <- entries | e.key == key :: e.value == value
    ensures Total(With(entries, key, value)) == Total(entries) + if Holds(entries, key) then 0 else |value|
  {
    var i := IndexOf(entries, key);
    if i < 0 {
      TotalConcat(entries, [Entry(key, value)]);
    } else {
      assert entries[i] in entries && With(entries, key, value) == entries;
    }
  }

  /** Eviction removes the shortest front after which the count fits; the drift stays. */
  lemma {:induction false} EvictedIsShortestFront(c: Cache) returns (n: nat)
    requires 0 <= Drift(c) <= CACHE_MAX_BYTES
    ensures n <= |c.entries| && Evicted(c) == Cache(c.entries[n..], Drift(c) + Total(c.entries[n..]))
    ensures Drift(c) + Total(c.entries[n..]) <= CACHE_MAX_BYTES
    ensures forall m | 0 <= m < n :: Drift(c) + Total(c.entries[m..]) > CACHE_MAX_BYTES
    decreases |c.entries|
  {
    if |c.entries| == 0 || c.cachedBytes <= CACHE_MAX_BYTES {
      n := 0;
    } else {
      var c' := Cache(c.entries[1..], c.cachedBytes - |c.entries[0].value|);
      assert Drift(c') == Drift(c);
      var n' := EvictedIsShortestFront(c');
      n := n' + 1;
      assert c'.entries[n'..] == c.entries[n..];
      TailsExceed(c.entries, Drift(c), n);
    }
  }

  lemma TailsExceed(entries: seq<Entry>, drift: int, n: nat)
    requires 0 < n <= |entries| && drift + Total(entries) > CACHE_MAX_BYTES
    requires forall m | 0 <= m < n - 1 :: drift + Total(entries[1..][m..]) > CACHE_MAX_BYTES
    ensures forall m | 0 <= m < n :: drift + Total(entries[m..]) > CACHE_MAX_BYTES
  {
    forall m | 0 <= m < n ensures drift + Total(entries[m..]) > CACHE_MAX_BYTES {
      if m == 0 { assert entries[0..] == entries; } else { assert entries[1..][m - 1..] == entries[m..]; }
    }
  }

  lemma DistinctTail(entries: seq<Entry>, n: nat)
    requires DistinctKeys(entries) && n <= |entries|
    ensures DistinctKeys(entries[n..])
  {
  }

  lemma DistinctWith(entries: seq<Entry>, key: string, value: Bytes)
    requires DistinctKeys(entries)
    ensures DistinctKeys(With(entries, key, value))
  {
  }

  lemma CachedFits(entries: seq<Entry>, key: string, value: Bytes)
    requires Holds(entries, key) && forall e <- entries | e.key == key :: e.value == value
    ensures |value| <= Total(entries)
  {
    var i := IndexOf(entries, key);
    assert entries[i] in entries;
    TotalAround(entries, i);
  }

  /** Storing again under a cached key counts the bytes twice; storing under a new key counts them once. */
  lemma MissedSound(c: Cache, key: string, value: Bytes)
    requires Sound(c) && Small(value) && forall e <- c.entries | e.key == key :: e.value == value
    ensures Sound(Missed(c, key, value))
    ensures Drift(Missed(c, key, value)) == Drift(c) + if Holds(c.entries, key) then |value| else 0
  {
    var grown := Cache(With(c.entries, key, value), c.cachedBytes + |value|);
    WithTotal(c.entries, key, value);
    if Holds(c.entries, key) { CachedFits(c.entries, key, value); }
    DistinctWith(c.entries, key, value);
    GrownEvicts(grown);
  }

  lemma GrownEvicts(c: Cache)
    requires DistinctKeys(c.entries) && 0 <= Drift(c) <= CACHE_MAX_BYTES
    ensures Sound(Evicted(c)) && Drift(Evicted(c)) == Drift(c)
    ensures forall e <- Evicted(c).entries :: e in c.entries
  {
    var n := EvictedIsShortestFront(c);
    DistinctTail(c.entries, n);
  }

  // ===== every interleaving ===================================================

  datatype Pending = Asked(key: string) | Fetched(key: string, bytes: Bytes)

  /** `stored` remembers every body ever stored; `used` when the cache last served or took in a key. */
  datatype State = State(
    cache: Cache, rows: set<string>, stored: map<string, Bytes>, pending: map<nat, Pending>, clock: nat, used: map<string, nat>)

  datatype Step =
    | Put(key: string, bytes: Bytes)
    | Read(reader: nat, key: string, driverIsDb: bool)
    | Fetch(reader: nat)
    | Resume(reader: nat)
    | FlushKey(key: string)
    | DeleteRow(key: string)
    | FlushAll

  const NEW: State := State(Cache([], 0), {}, map[], map[], 0, map[])

  /** `Read` runs up to the await, `Fetch` is the query, `Resume` the rest; `delete` is `FlushKey` and later `DeleteRow`. */
  function Effect(s: State, step: Step): State {
    match step
    case Put(key, bytes) => if key in s.stored then s else s.(rows := s.rows + {key}, stored := s.stored[key := bytes])
    case Read(reader, key, driverIsDb) =>
      if reader in s.pending then s
      else if Holds(s.cache.entries, key) then s.(cache := Touched(s.cache, key), used := s.used[key := s.clock])
      else if driverIsDb then s.(pending := s.pending[reader := Asked(key)])
      else s
    case Fetch(reader) =>
      if reader in s.pending && s.pending[reader].Asked? then
        var key := s.pending[reader].key;
        if key in s.rows && key in s.stored then s.(pending := s.pending[reader := Fetched(key, s.stored[key])])
        else s.(pending := s.pending - {reader})
      else s
    case Resume(reader) =>
      if reader in s.pending && s.pending[reader].Fetched? then
        var p := s.pending[reader];
        s.(cache := Missed(s.cache, p.key, p.bytes), pending := s.pending - {reader},
            used := if Small(p.bytes) then s.used[p.key := s.clock] else s.used)
      else s
    case FlushKey(key) => s.(cache := Flushed(s.cache, key))
    case DeleteRow(key) => s.(rows := s.rows - {key})
    case FlushAll => s.(cache := Cache([], 0))
  }

  function Apply(s: State, step: Step): State { Effect(s, step).(clock := s.clock + 1) }

  function Run(s: State, steps: seq<Step>): State {
    if |steps| == 0 then s else Apply(Run(s, steps[..|steps| - 1]), steps[|steps| - 1])
  }

  /** The bytes a step counts twice: a small miss resumes on a key another miss has cached meanwhile. */
  function Overlap(s: State, step: Step): nat {
    if step.Resume? && step.reader in s.pending && s.pending[step.reader].Fetched? && Small(s.pending[step.reader].bytes)
       && Holds(s.cache.entries, s.pending[step.reader].key)
    then |s.pending[step.reader].bytes| else 0
  }

  ghost predicate ValuesAreStored(entries: seq<Entry>, stored: map<string, Bytes>) {
    forall e <- entries :: e.key in stored && stored[e.key] == e.value
  }

  ghost predicate PendingIsStored(pending: map<nat, Pending>, stored: map<string, Bytes>) {
    forall r | r in pending && pending[r].Fetched? :: pending[r].key in stored && stored[pending[r].key] == pending[r].bytes
  }

  ghost predicate Inv(s: State) {
    Sound(s.cache) && ValuesAreStored(s.cache.entries, s.stored) && PendingIsStored(s.pending, s.stored)
  }

  lemma MissedValues(c: Cache, key: string, value: Bytes, stored: map<string, Bytes>)
    requires Sound(c) && ValuesAreStored(c.entries, stored) && key in stored && stored[key] == value && Small(value)
    ensures Sound(Missed(c, key, value)) && ValuesAreStored(Missed(c, key, value).entries, stored)
    ensures Drift(Missed(c, key, value)) == Drift(c) + if Holds(c.entries, key) then |value| else 0
  {
    MissedSound(c, key, value);
    WithTotal(c.entries, key, value);
    if Holds(c.entries, key) { CachedFits(c.entries, key, value); }
    DistinctWith(c.entries, key, value);
    var grown := Cache(With(c.entries, key, value), c.cachedBytes + |value|);
    GrownEvicts(grown);
    forall e <- grown.entries ensures e.key in stored && stored[e.key] == e.value { assert e == Entry(key, value) || e in c.entries; }
  }

  lemma PutKeepsInv(s: State, key: string, bytes: Bytes)
    requires Inv(s)
    ensures Inv(Apply(s, Put(key, bytes)))
  {
  }

  lemma ReadKeepsInv(s: State, reader: nat, key: string, driverIsDb: bool)
    requires Inv(s)
    ensures var s' := Apply(s, Read(reader, key, driverIsDb)); Inv(s') && Drift(s'.cache) == Drift(s.cache)
  {
    if reader !in s.pending && Holds(s.cache.entries, key) {
      TouchedSound(s.cache, key);
      WithoutMembers(s.cache.entries, key);
    }
  }

  lemma ResumeKeepsInv(s: State, reader: nat)
    requires Inv(s)
    ensures var s' := Apply(s, Resume(reader)); Inv(s') && Drift(s'.cache) == Drift(s.cache) + Overlap(s, Resume(reader))
  {
    if reader in s.pending && s.pending[reader].Fetched? && Small(s.pending[reader].bytes) {
      MissedValues(s.cache, s.pending[reader].key, s.pending[reader].bytes, s.stored);
    }
  }

  lemma WithoutMembers(entries: seq<Entry>, key: string)
    ensures forall e <- Without(entries, key) :: e in entries
  {
  }

  lemma FlushKeepsInv(s: State, key: string)
    requires Inv(s)
    ensures var s' := Apply(s, FlushKey(key)); Inv(s') && Drift(s'.cache) == Drift(s.cache)
  {
    FlushedSound(s.cache, key);
    WithoutMembers(s.cache.entries, key);
  }

  lemma FetchKeepsInv(s: State, reader: nat)
    requires Inv(s)
    ensures var s' := Apply(s, Fetch(reader)); Inv(s') && s'.cache == s.cache
  {
  }

  lemma StepKeepsInv(s: State, step: Step)
    requires Inv(s)
    ensures Inv(Apply(s, step))
    ensures Drift(Apply(s, step).cache) == if step.FlushAll? then 0 else Drift(s.cache) + Overlap(s, step)
  {
    match step
    case Put(key, bytes) => PutKeepsInv(s, key, bytes);
    case Read(reader, key, driverIsDb) => ReadKeepsInv(s, reader, key, driverIsDb);
    case Resume(reader) => ResumeKeepsInv(s, reader);
    case FlushKey(key) => FlushKeepsInv(s, key);
    case Fetch(reader) => FetchKeepsInv(s, reader);
    case DeleteRow(key) => assert Apply(s, step).cache == s.cache;
    case FlushAll => assert Apply(s, step).cache == Cache([], 0);
  }

  lemma {:induction false} RunKeepsInv(s: State, steps: seq<Step>)
    requires Inv(s)
    ensures Inv(Run(s, steps))
  {
    if |steps| != 0 {
      RunKeepsInv(s, steps[..|steps| - 1]);
      StepKeepsInv(Run(s, steps[..|steps| - 1]), steps[|steps| - 1]);
    }
  }

  // ----- main results ---------------------------------------------------------

  ghost predicate Reachable(s: State) { exists steps :: s == Run(NEW, steps) }

  /** In every interleaving the count covers what is cached, never passes the cap, and every cached value is the stored one. */
  lemma CacheIsBounded(s: State)
    requires Reachable(s)
    ensures DistinctKeys(s.cache.entries) && Total(s.cache.entries) <= s.cache.cachedBytes <= 32 * 1024 * 1024
    ensures ValuesAreStored(s.cache.entries, s.stored)
  {
    var steps :| s == Run(NEW, steps);
    RunKeepsInv(NEW, steps);
  }

  /** The bytes counted twice since the last full flush. */
  function OverlapOf(s: State, steps: seq<Step>): nat {
    if |steps| == 0 then 0
    else if steps[|steps| - 1].FlushAll? then 0
    else OverlapOf(s, steps[..|steps| - 1]) + Overlap(Run(s, steps[..|steps| - 1]), steps[|steps| - 1])
  }

  /** The count exceeds the cached bytes by exactly what overlapping misses counted twice: it is exact if and only if none did. */
  lemma {:induction false} DriftIsOverlap(steps: seq<Step>)
    ensures Drift(Run(NEW, steps).cache) == OverlapOf(NEW, steps)
  {
    if |steps| != 0 {
      DriftIsOverlap(steps[..|steps| - 1]);
      RunKeepsInv(NEW, steps[..|steps| - 1]);
      StepKeepsInv(Run(NEW, steps[..|steps| - 1]), steps[|steps| - 1]);
    }
  }

  lemma SuffixTotal(entries: seq<Entry>, i: nat, j: nat)
    requires i <= j <= |entries|
    ensures Total(entries[i..]) >= Total(entries[j..])
  {
    assert entries[i..] == entries[i..j] + entries[j..];
    TotalConcat(entries[i..j], entries[j..]);
  }

  /**
   * A small miss on a key that is not cached: the oldest entries go, as few as
   * bring the rest under the cap less the drift, and the new entry survives if
   * and only if it fits there by itself.
   */
  lemma EvictionIsMinimal(c: Cache, key: string, bytes: Bytes) returns (n: nat)
    requires Sound(c) && Small(bytes) && !Holds(c.entries, key)
    ensures var room, grown := CACHE_MAX_BYTES - Drift(c), c.entries + [Entry(key, bytes)];
            && n <= |grown| && Missed(c, key, bytes).entries == grown[n..]
            && Total(grown[n..]) <= room && (forall m | 0 <= m < n :: Total(grown[m..]) > room)
            && (n < |grown| <==> |bytes| <= room)
  {
    var grown := Cache(c.entries + [Entry(key, bytes)], c.cachedBytes + |bytes|);
    GrownDrift(c, key, bytes);
    n := EvictedIsShortestFront(grown);
    LastSurvivesIff(grown.entries, n, CACHE_MAX_BYTES - Drift(c));
  }

  lemma GrownDrift(c: Cache, key: string, bytes: Bytes)
    requires Small(bytes) && !Holds(c.entries, key)
    ensures var grown := Cache(c.entries + [Entry(key, bytes)], c.cachedBytes + |bytes|);
            Drift(grown) == Drift(c) && Missed(c, key, bytes) == Evicted(grown)
  {
    TotalConcat(c.entries, [Entry(key, bytes)]);
  }

  lemma LastSurvivesIff(entries: seq<Entry>, n: nat, room: int)
    requires 0 < |entries| && n <= |entries| && Total(entries[n..]) <= room
    requires forall m | 0 <= m < n :: Total(entries[m..]) > room
    ensures n < |entries| <==> |entries[|entries| - 1].value| <= room
  {
    var last := |entries| - 1;
    assert entries[last..] == [entries[last]];
    assert Total(entries[last..]) == |entries[last].value|;
    if n <= last { SuffixTotal(entries, n, last); }
  }

  /** With an exact count every small miss is kept. */
  lemma ExactCountKeepsNewEntry(s: State, reader: nat)
    requires Reachable(s) && Drift(s.cache) == 0 && reader in s.pending && s.pending[reader].Fetched? && Small(s.pending[reader].bytes)
    requires !Holds(s.cache.entries, s.pending[reader].key)
    ensures Entry(s.pending[reader].key, s.pending[reader].bytes) in Apply(s, Resume(reader)).cache.entries
  {
    CacheIsBounded(s);
    var n := EvictionIsMinimal(s.cache, s.pending[reader].key, s.pending[reader].bytes);
    var grown := s.cache.entries + [Entry(s.pending[reader].key, s.pending[reader].bytes)];
    assert grown[n..][|grown| - 1 - n] == Entry(s.pending[reader].key, s.pending[reader].bytes);
  }

  // ----- least recently used first --------------------------------------------

  /** The entries stand in the order of their last use. */
  ghost predicate InUseOrder(entries: seq<Entry>, used: map<string, nat>, clock: nat) {
    && (forall e <- entries :: e.key in used && used[e.key] < clock)
    && (forall i, j | 0 <= i < j < |entries| && entries[i].key in used && entries[j].key in used ::
          used[entries[i].key] < used[entries[j].key])
  }

  predicate Overlapping(s: State, step: Step) {
    && step.Resume? && step.reader in s.pending && s.pending[step.reader].Fetched? && Small(s.pending[step.reader].bytes)
    && Holds(s.cache.entries, s.pending[step.reader].key)
  }

  predicate NoneOverlap(s: State, steps: seq<Step>) {
    |steps| == 0 || (NoneOverlap(s, steps[..|steps| - 1]) && !Overlapping(Run(s, steps[..|steps| - 1]), steps[|steps| - 1]))
  }

  lemma WithoutKeepsOrder(entries: seq<Entry>, used: map<string, nat>, clock: nat, key: string)
    requires InUseOrder(entries, used, clock)
    ensures InUseOrder(Without(entries, key), used, clock)
  {
    WithoutMembers(entries, key);
  }

  lemma NewestGoesLast(entries: seq<Entry>, used: map<string, nat>, clock: nat, e: Entry)
    requires InUseOrder(entries, used, clock) && forall x <- entries :: x.key != e.key
    ensures InUseOrder(entries + [e], used[e.key := clock], clock + 1)
  {
    var after := used[e.key := clock];
    forall x <- entries + [e] ensures x.key in after && after[x.key] < clock + 1 { assert x in entries || x == e; }
    forall x <- entries ensures after[x.key] == used[x.key] {}
    forall i | 0 <= i < |entries| ensures after[entries[i].key] == used[entries[i].key] < clock { assert entries[i] in entries; }
  }

  lemma SuffixKeepsOrder(entries: seq<Entry>, n: nat, used: map<string, nat>, clock: nat)
    requires InUseOrder(entries, used, clock) && n <= |entries|
    ensures InUseOrder(entries[n..], used, clock)
  {
    assert forall e <- entries[n..] :: e in entries;
  }

  lemma WithoutLacksKey(entries: seq<Entry>, key: string)
    requires DistinctKeys(entries)
    ensures forall e <- Without(entries, key) :: e.key != key
  {
  }

  lemma TouchKeepsOrder(c: Cache, used: map<string, nat>, clock: nat, key: string)
    requires DistinctKeys(c.entries) && InUseOrder(c.entries, used, clock) && Holds(c.entries, key)
    ensures InUseOrder(Touched(c, key).entries, used[key := clock], clock + 1)
  {
    WithoutKeepsOrder(c.entries, used, clock, key);
    WithoutLacksKey(c.entries, key);
    NewestGoesLast(Without(c.entries, key), used, clock, c.entries[IndexOf(c.entries, key)]);
  }

  lemma MissKeepsOrder(c: Cache, used: map<string, nat>, clock: nat, e: Entry)
    requires Sound(c) && InUseOrder(c.entries, used, clock) && Small(e.value) && !Holds(c.entries, e.key)
    ensures InUseOrder(Missed(c, e.key, e.value).entries, used[e.key := clock], clock + 1)
  {
    NewestGoesLast(c.entries, used, clock, e);
    var n := EvictionIsMinimal(c, e.key, e.value);
    SuffixKeepsOrder(c.entries + [e], n, used[e.key := clock], clock + 1);
  }

  lemma StepKeepsOrder(s: State, step: Step)
    requires Inv(s) && InUseOrder(s.cache.entries, s.used, s.clock) && !Overlapping(s, step)
    ensures InUseOrder(Apply(s, step).cache.entries, Apply(s, step).used, s.clock + 1)
  {
    match step
    case Put(_, _) => ClockKeepsOrder(s.cache.entries, s.used, s.clock);
    case Read(reader, key, driverIsDb) => ReadKeepsOrder(s, reader, key, driverIsDb);
    case Fetch(_) => ClockKeepsOrder(s.cache.entries, s.used, s.clock);
    case Resume(reader) => ResumeKeepsOrder(s, reader);
    case FlushKey(key) => FlushKeepsOrder(s, key);
    case DeleteRow(_) => ClockKeepsOrder(s.cache.entries, s.used, s.clock);
    case FlushAll => assert Apply(s, step).cache.entries == [];
  }

  lemma FlushKeepsOrder(s: State, key: string)
    requires InUseOrder(s.cache.entries, s.used, s.clock)
    ensures var s' := Apply(s, FlushKey(key)); InUseOrder(s'.cache.entries, s'.used, s.clock + 1)
  {
    WithoutKeepsOrder(s.cache.entries, s.used, s.clock, key);
    ClockKeepsOrder(Flushed(s.cache, key).entries, s.used, s.clock);
  }

  lemma ClockKeepsOrder(entries: seq<Entry>, used: map<string, nat>, clock: nat)
    requires InUseOrder(entries, used, clock)
    ensures InUseOrder(entries, used, clock + 1)
  {
  }

  lemma ReadKeepsOrder(s: State, reader: nat, key: string, driverIsDb: bool)
    requires DistinctKeys(s.cache.entries) && InUseOrder(s.cache.entries, s.used, s.clock)
    ensures var s' := Apply(s, Read(reader, key, driverIsDb)); InUseOrder(s'.cache.entries, s'.used, s.clock + 1)
  {
    if reader !in s.pending && Holds(s.cache.entries, key) {
      TouchKeepsOrder(s.cache, s.used, s.clock, key);
    } else {
      ClockKeepsOrder(s.cache.entries, s.used, s.clock);
    }
  }

  lemma ResumeKeepsOrder(s: State, reader: nat)
    requires Sound(s.cache) && InUseOrder(s.cache.entries, s.used, s.clock) && !Overlapping(s, Resume(reader))
    ensures var s' := Apply(s, Resume(reader)); InUseOrder(s'.cache.entries, s'.used, s.clock + 1)
  {
    if reader in s.pending && s.pending[reader].Fetched? && Small(s.pending[reader].bytes) {
      MissKeepsOrder(s.cache, s.used, s.clock, Entry(s.pending[reader].key, s.pending[reader].bytes));
    } else {
      ClockKeepsOrder(s.cache.entries, s.used, s.clock);
    }
  }

  lemma {:induction false} RunKeepsOrder(steps: seq<Step>)
    requires NoneOverlap(NEW, steps)
    ensures var s := Run(NEW, steps); Inv(s) && InUseOrder(s.cache.entries, s.used, s.clock) && Drift(s.cache) == 0
  {
    if |steps| != 0 {
      var s := Run(NEW, steps[..|steps| - 1]);
      RunKeepsOrder(steps[..|steps| - 1]);
      StepKeepsOrder(s, steps[|steps| - 1]);
      StepKeepsInv(s, steps[|steps| - 1]);
    }
  }

  /**
   * As long as no miss resumes on a key another miss has cached meanwhile, the
   * count is exact, a small miss is always kept, and whatever it evicts was
   * last used before everything that stays.
   */
  lemma LeastRecentlyUsedGoFirst(steps: seq<Step>, reader: nat, gone: Entry, kept: Entry)
    requires NoneOverlap(NEW, steps + [Resume(reader)])
    requires var s := Run(NEW, steps);
             && reader in s.pending && s.pending[reader].Fetched? && Small(s.pending[reader].bytes)
             && gone in s.cache.entries && gone !in Apply(s, Resume(reader)).cache.entries
             && kept in Apply(s, Resume(reader)).cache.entries
    ensures var s, s' := Run(NEW, steps), Apply(Run(NEW, steps), Resume(reader));
            && s.cache.cachedBytes == Total(s.cache.entries)
            && Entry(s.pending[reader].key, s.pending[reader].bytes) in s'.cache.entries
            && gone.key in s'.used && kept.key in s'.used && s'.used[gone.key] < s'.used[kept.key]
  {
    var s := Run(NEW, steps);
    assert (steps + [Resume(reader)])[..|steps|] == steps;
    RunKeepsOrder(steps);
    MissEvictsOldest(s.cache, s.used, s.clock, Entry(s.pending[reader].key, s.pending[reader].bytes), gone, kept);
  }

  lemma MissEvictsOldest(c: Cache, used: map<string, nat>, clock: nat, e: Entry, gone: Entry, kept: Entry)
    requires Sound(c) && Drift(c) == 0 && InUseOrder(c.entries, used, clock) && Small(e.value) && !Holds(c.entries, e.key)
    requires gone in c.entries && gone !in Missed(c, e.key, e.value).entries && kept in Missed(c, e.key, e.value).entries
    ensures e in Missed(c, e.key, e.value).entries
    ensures var after := used[e.key := clock]; gone.key in after && kept.key in after && after[gone.key] < after[kept.key]
  {
    var grown := c.entries + [e];
    NewestGoesLast(c.entries, used, clock, e);
    var n := EvictionIsMinimal(c, e.key, e.value);
    assert grown[n..][|grown| - 1 - n] == e;
    OldBeforeNew(grown, n, used[e.key := clock], clock + 1, gone, kept);
  }

  lemma OldBeforeNew(entries: seq<Entry>, n: nat, used: map<string, nat>, clock: nat, gone: Entry, kept: Entry)
    requires InUseOrder(entries, used, clock) && n <= |entries|
    requires gone in entries && gone !in entries[n..] && kept in entries[n..]
    ensures gone.key in used && kept.key in used && used[gone.key] < used[kept.key]
  {
    var i :| 0 <= i < |entries| && entries[i] == gone;
    var j :| 0 <= j < |entries[n..]| && entries[n..][j] == kept;
    forall k | n <= k < |entries| ensures entries[k] != gone { assert entries[k] == entries[n..][k - n]; }
    assert entries[n + j] == kept;
  }

  // ----- a cache that overlapping misses have filled up -----------------------

  predicate NoFullFlush(steps: seq<Step>) { forall step <- steps :: !step.FlushAll? }

  lemma {:induction false} DriftOnlyGrows(s: State, steps: seq<Step>)
    requires Inv(s) && NoFullFlush(steps)
    ensures Inv(Run(s, steps)) && Drift(Run(s, steps).cache) >= Drift(s.cache)
  {
    if |steps| != 0 {
      var front := steps[..|steps| - 1];
      assert forall step <- front :: step in steps;
      assert steps[|steps| - 1] in steps;
      DriftOnlyGrows(s, front);
      StepKeepsInv(Run(s, front), steps[|steps| - 1]);
    }
  }

  /** Without a full flush, which only the tests call, the cache never again holds more than the cap less the drift. */
  lemma DriftIsLostCapacity(s: State, steps: seq<Step>)
    requires Reachable(s) && NoFullFlush(steps)
    ensures Total(Run(s, steps).cache.entries) <= CACHE_MAX_BYTES - Drift(s.cache)
  {
    var before :| s == Run(NEW, before);
    RunKeepsInv(NEW, before);
    DriftOnlyGrows(s, steps);
  }

  /** Readers lo..hi of one image are under way, those below `mid` with its bytes. */
  ghost predicate Staged(s: State, key: string, bytes: Bytes, lo: nat, mid: nat, hi: nat) {
    && key in s.rows && key in s.stored && s.stored[key] == bytes
    && (forall r: nat :: r in s.pending <==> lo <= r < hi)
    && (forall r: nat | r in s.pending :: s.pending[r] == if r < mid then Fetched(key, bytes) else Asked(key))
  }

  lemma {:induction false} AllAsk(key: string, bytes: Bytes, n: nat) returns (steps: seq<Step>)
    ensures Staged(Run(NEW, steps), key, bytes, 0, 0, n) && Run(NEW, steps).cache == Cache([], 0)
  {
    if n == 0 {
      steps := [Put(key, bytes)];
      assert steps[..0] == [];
    } else {
      var before := AllAsk(key, bytes, n - 1);
      steps := before + [Read(n - 1, key, true)];
      assert steps[..|before|] == before;
    }
  }

  lemma {:induction false} AllFetch(key: string, bytes: Bytes, n: nat, mid: nat) returns (steps: seq<Step>)
    requires mid <= n
    ensures Staged(Run(NEW, steps), key, bytes, 0, mid, n) && Run(NEW, steps).cache == Cache([], 0)
  {
    if mid == 0 {
      steps := AllAsk(key, bytes, n);
    } else {
      var before := AllFetch(key, bytes, n, mid - 1);
      steps := before + [Fetch(mid - 1)];
      assert steps[..|before|] == before;
    }
  }

  /** What `lo` overlapping misses on one image leave of an empty cache that has room for it `q` times. */
  function AfterOverlap(key: string, bytes: Bytes, q: nat, lo: nat): Cache {
    if lo == 0 then Cache([], 0)
    else if lo <= q then Cache([Entry(key, bytes)], lo * |bytes|)
    else Cache([], q * |bytes|)
  }

  lemma Multiples(x: nat, y: nat, b: nat)
    requires x <= y
    ensures x * b <= y * b
  {
  }

  lemma OneMoreOverlap(key: string, bytes: Bytes, q: nat, lo: nat)
    requires Small(bytes) && 1 <= q && q * |bytes| <= CACHE_MAX_BYTES < (q + 1) * |bytes| && lo <= q
    ensures Missed(AfterOverlap(key, bytes, q, lo), key, bytes) == AfterOverlap(key, bytes, q, lo + 1)
  {
    MissOnOnly(AfterOverlap(key, bytes, q, lo), key, bytes);
    assert AfterOverlap(key, bytes, q, lo).cachedBytes + |bytes| == (lo + 1) * |bytes|;
    if lo < q { Multiples(lo + 1, q, |bytes|); } else { assert (q + 1) * |bytes| - |bytes| == q * |bytes|; }
  }

  lemma MissOnOnly(c: Cache, key: string, bytes: Bytes)
    requires Small(bytes) && (c.entries == [] || c.entries == [Entry(key, bytes)])
    ensures var count := c.cachedBytes + |bytes|;
            Missed(c, key, bytes) == if count <= CACHE_MAX_BYTES then Cache([Entry(key, bytes)], count) else Cache([], c.cachedBytes)
  {
    var e := [Entry(key, bytes)];
    assert With(c.entries, key, bytes) == e by { if c.entries == [] { assert [] + e == e; } else { assert e[0 := e[0]] == e && e[..0] == []; } }
    assert e[1..] == [];
    assert Evicted(Cache([], c.cachedBytes)) == Cache([], c.cachedBytes);
  }

  lemma {:induction false} AllResume(key: string, bytes: Bytes, q: nat, lo: nat) returns (steps: seq<Step>)
    requires Small(bytes) && 1 <= q && q * |bytes| <= CACHE_MAX_BYTES < (q + 1) * |bytes| && lo <= q + 1
    ensures Staged(Run(NEW, steps), key, bytes, lo, q + 1, q + 1) && Run(NEW, steps).cache == AfterOverlap(key, bytes, q, lo)
  {
    if lo == 0 {
      steps := AllFetch(key, bytes, q + 1, q + 1);
    } else {
      var before := AllResume(key, bytes, q, lo - 1);
      OneMoreOverlap(key, bytes, q, lo - 1);
      steps := OneResumes(before, key, bytes, lo - 1, q + 1);
    }
  }

  lemma OneResumes(before: seq<Step>, key: string, bytes: Bytes, lo: nat, hi: nat) returns (steps: seq<Step>)
    requires Staged(Run(NEW, before), key, bytes, lo, hi, hi) && lo < hi
    ensures Staged(Run(NEW, steps), key, bytes, lo + 1, hi, hi)
    ensures Run(NEW, steps).cache == Missed(Run(NEW, before).cache, key, bytes)
  {
    steps := before + [Resume(lo)];
    assert steps[..|before|] == before;
  }

  lemma {:induction false} StoredStays(s: State, steps: seq<Step>, key: string)
    requires key in s.stored
    ensures key in Run(s, steps).stored && Run(s, steps).stored[key] == s.stored[key]
  {
    if |steps| != 0 {
      StoredStays(s, steps[..|steps| - 1], key);
      StepKeepsStored(Run(s, steps[..|steps| - 1]), steps[|steps| - 1], key);
    }
  }

  lemma StepKeepsStored(s: State, step: Step, key: string)
    requires key in s.stored
    ensures key in Apply(s, step).stored && Apply(s, step).stored[key] == s.stored[key]
  {
  }

  lemma EntryFits(entries: seq<Entry>, e: Entry)
    requires e in entries
    ensures |e.value| <= Total(entries)
  {
    var i :| 0 <= i < |entries| && entries[i] == e;
    TotalAround(entries, i);
  }

  /**
   * Simultaneous first reads of one image, one more than fit into the cap: the
   * cache is empty, and from then on the process caches less than one image of
   * that size in all, so that image never again.
   */
  lemma OverlapCanDisableTheCache(key: string, bytes: Bytes, after: seq<Step>) returns (steps: seq<Step>)
    requires 0 < |bytes| && Small(bytes) && NoFullFlush(after)
    ensures var b, s := |bytes|, Run(NEW, steps);
            && s.cache == Cache([], CACHE_MAX_BYTES / b * b)
            && Total(Run(s, after).cache.entries) <= CACHE_MAX_BYTES % b < b
            && !Holds(Run(s, after).cache.entries, key)
    ensures Staged(Run(NEW, steps), key, bytes, CACHE_MAX_BYTES / |bytes| + 1, CACHE_MAX_BYTES / |bytes| + 1, CACHE_MAX_BYTES / |bytes| + 1)
  {
    var b := |bytes|;
    var q := CACHE_MAX_BYTES / b;
    assert q * b + CACHE_MAX_BYTES % b == CACHE_MAX_BYTES && (q + 1) * b == q * b + b;
    steps := AllResume(key, bytes, q, q + 1);
    LostForGood(Run(NEW, steps), key, bytes, after);
  }

  /** With a drift that leaves no room for the image stored under `key`, it is never cached again. */
  lemma LostForGood(s: State, key: string, bytes: Bytes, after: seq<Step>)
    requires Reachable(s) && key in s.stored && s.stored[key] == bytes && NoFullFlush(after)
    requires CACHE_MAX_BYTES - Drift(s.cache) < |bytes|
    ensures Total(Run(s, after).cache.entries) <= CACHE_MAX_BYTES - Drift(s.cache)
    ensures !Holds(Run(s, after).cache.entries, key)
  {
    DriftIsLostCapacity(s, after);
    StoredStays(s, after, key);
    var before :| s == Run(NEW, before);
    RunKeepsInv(NEW, before);
    RunKeepsInv(s, after);
    var entries := Run(s, after).cache.entries;
    if Holds(entries, key) { EntryFits(entries, entries[IndexOf(entries, key)]); }
  }
}
