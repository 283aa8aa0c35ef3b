/**
 * Which jobs an event produces and under which deduplication keys
 * (lib/notify.ts).
 */
module Notify {
  import opened Wrappers
  import opened Distinctness

  datatype Event = Event(
    pageId: string, subject: string, body: string, eventType: string,
    eventId: Option<string>, componentIds: seq<string>, operatorsOnly: bool)

  datatype Subscriber = Subscriber(
    id: string, pageId: string, verified: bool, quarantined: bool, channel: string, eventTypes: seq<string>, componentIds: seq<string>)

  datatype Endpoint = Endpoint(id: string, pageId: string, active: bool, verified: bool)

  datatype Destination = Destination(
    id: string, pageId: string, active: bool, verified: bool, eventTypes: seq<string>, componentIds: seq<string>)

  datatype Page = Page(name: string, orgId: string, hubParentId: Option<string>, isHub: bool, isPublic: bool)

  datatype Tables = Tables(
    pages: map<string, Page>, subscribers: seq<Subscriber>, endpoints: seq<Endpoint>, destinations: seq<Destination>)

  const NUL: char := '\0'

  /** The text that is hashed into the deduplication key. */
  function KeyText(e: Event, target: string): string {
    e.eventId.GetOr(e.eventType) + [NUL] + e.pageId + [NUL] + target + [NUL] + e.subject + [NUL] + e.body
  }

  function DeduplicationKey(hash: string -> string, e: Event, target: string): string {
    hash(KeyText(e, target))
  }

  predicate Shares(a: seq<string>, b: seq<string>) { exists x <- a :: x in b }

  predicate SubscriberMatches(e: Event, s: Subscriber) {
    && s.pageId == e.pageId && s.verified && !s.quarantined && !e.operatorsOnly
    && (|s.eventTypes| == 0 || e.eventType in s.eventTypes)
    && (|e.componentIds| == 0 || |s.componentIds| == 0 || Shares(s.componentIds, e.componentIds))
    && (s.channel == "EMAIL" || s.channel == "SMS")
  }

  predicate EndpointMatches(e: Event, p: Endpoint) { p.pageId == e.pageId && p.active && p.verified }

  predicate DestinationMatches(e: Event, d: Destination) {
    && d.pageId == e.pageId && d.active && d.verified
    && (|d.eventTypes| == 0 || e.eventType in d.eventTypes)
    && (|e.componentIds| == 0 || |d.componentIds| == 0 || Shares(d.componentIds, e.componentIds))
  }

  /** The names of the rows that match, in row order. */
  function NamesOf<T>(rows: seq<T>, matches: T -> bool, name: T -> string): seq<string> {
    if |rows| == 0 then []
    else (if matches(rows[0]) then [name(rows[0])] else []) + NamesOf(rows[1..], matches, name)
  }

  function SubscriberTargets(e: Event, t: Tables): seq<string> {
    NamesOf(t.subscribers, (s: Subscriber) => SubscriberMatches(e, s), (s: Subscriber) => "subscriber:" + s.id)
  }

  function EndpointTargets(e: Event, t: Tables): seq<string> {
    NamesOf(t.endpoints, (p: Endpoint) => EndpointMatches(e, p), (p: Endpoint) => "endpoint:" + p.id)
  }

  function DestinationTargets(e: Event, t: Tables): seq<string> {
    NamesOf(t.destinations, (d: Destination) => DestinationMatches(e, d), (d: Destination) => "destination:" + d.id)
  }

  function Targets(e: Event, t: Tables): seq<string> {
    SubscriberTargets(e, t) + EndpointTargets(e, t) + DestinationTargets(e, t)
  }

  function KeysFor(hash: string -> string, e: Event, targets: seq<string>): seq<string> {
    if |targets| == 0 then [] else [DeduplicationKey(hash, e, targets[0])] + KeysFor(hash, e, targets[1..])
  }

  /** The copy of a product's event that its hub's own audience receives. */
  function HubEvent(e: Event, t: Tables): Option<Event> {
    if e.operatorsOnly || e.pageId !in t.pages then None
    else
      var page := t.pages[e.pageId];
      if page.hubParentId.None? || page.isHub || !page.isPublic then None
      else if page.hubParentId.value !in t.pages then None
      else
        var hub := t.pages[page.hubParentId.value];
        if hub.orgId != page.orgId || !hub.isHub then None
        else Some(e.(pageId := page.hubParentId.value, subject := "[" + page.name + "] " + e.subject,
                     body := "Product: " + page.name + "\n\n" + e.body, componentIds := []))
  }

  /** Every key an event is dispatched under, in insertion order. */
  function DispatchKeys(hash: string -> string, e: Event, t: Tables): seq<string> {
    var hub := HubEvent(e, t);
    KeysFor(hash, e, Targets(e, t)) + if hub.None? then [] else KeysFor(hash, hub.value, Targets(hub.value, t))
  }

  /** Collects the jobs target by target. */
  method CollectJobs(hash: string -> string, e: Event, t: Tables) returns (keys: seq<string>)
    ensures keys == DispatchKeys(hash, e, t)
  {
    var events := [e];
    var hub := HubEvent(e, t);
    if hub.Some? { events := events + [hub.value]; }
    keys := [];
    for k := 0 to |events|
      invariant k == 0 ==> keys == []
      invariant k == 1 ==> keys == KeysFor(hash, e, Targets(e, t))
      invariant k == 2 ==> keys == DispatchKeys(hash, e, t)
    {
      keys := keys + KeysFor(hash, events[k], Targets(events[k], t));
    }
  }

  // ----- no target is lost to deduplication -----------------------------------

  ghost predicate Injective(hash: string -> string) {
    forall a, b :: hash(a) == hash(b) ==> a == b
  }

  /** Within one event, different targets never share a key. */
  lemma KeysSeparateTargets(hash: string -> string, e: Event, t1: string, t2: string)
    requires Injective(hash) && DeduplicationKey(hash, e, t1) == DeduplicationKey(hash, e, t2)
    ensures t1 == t2
  {
    var before := e.eventId.GetOr(e.eventType) + [NUL] + e.pageId + [NUL];
    var after := [NUL] + e.subject + [NUL] + e.body;
    assert KeyText(e, t1) == before + t1 + after;
    assert KeyText(e, t2) == before + t2 + after;
    assert |t1| == |t2|;
    assert (before + t1 + after)[|before|..|before| + |t1|] == t1;
    assert (before + t2 + after)[|before|..|before| + |t2|] == t2;
  }

  lemma LongerSegmentHoldsNul(a: string, x: string, b: string, y: string)
    requires a + [NUL] + x == b + [NUL] + y && |a| < |b|
    ensures NUL in b
  {
    assert (a + [NUL] + x)[|a|] == NUL;
    assert (b + [NUL] + y)[|a|] == b[|a|];
  }

  /** A NUL-free first segment can be read off the joined text. */
  lemma FirstSegment(a: string, x: string, b: string, y: string)
    requires NUL !in a && NUL !in b && a + [NUL] + x == b + [NUL] + y
    ensures a == b
  {
    if |a| < |b| {
      LongerSegmentHoldsNul(a, x, b, y);
    } else if |b| < |a| {
      LongerSegmentHoldsNul(b, y, a, x);
    } else {
      assert (a + [NUL] + x)[..|a|] == a && (b + [NUL] + y)[..|a|] == b;
    }
  }

  /** Copies of an event for two pages never share a key (page ids contain no NUL). */
  lemma KeysSeparatePages(hash: string -> string, e: Event, f: Event, t1: string, t2: string)
    requires Injective(hash) && NUL !in e.pageId && NUL !in f.pageId
    requires e.eventId.GetOr(e.eventType) == f.eventId.GetOr(f.eventType)
    requires DeduplicationKey(hash, e, t1) == DeduplicationKey(hash, f, t2)
    ensures e.pageId == f.pageId
  {
    var head := e.eventId.GetOr(e.eventType) + [NUL];
    var x := t1 + [NUL] + e.subject + [NUL] + e.body;
    var y := t2 + [NUL] + f.subject + [NUL] + f.body;
    assert KeyText(e, t1) == head + (e.pageId + [NUL] + x);
    assert KeyText(f, t2) == head + (f.pageId + [NUL] + y);
    assert (head + (e.pageId + [NUL] + x))[|head|..] == e.pageId + [NUL] + x;
    assert (head + (f.pageId + [NUL] + y))[|head|..] == f.pageId + [NUL] + y;
    FirstSegment(e.pageId, x, f.pageId, y);
  }

  lemma {:induction false} KeysForDistinct(hash: string -> string, e: Event, targets: seq<string>)
    requires Injective(hash) && Distinct(targets)
    ensures Distinct(KeysFor(hash, e, targets)) && |KeysFor(hash, e, targets)| == |targets|
    ensures forall k <- KeysFor(hash, e, targets) :: exists t <- targets :: k == DeduplicationKey(hash, e, t)
  {
    if |targets| != 0 {
      KeysForDistinct(hash, e, targets[1..]);
      forall t <- targets[1..] ensures DeduplicationKey(hash, e, t) != DeduplicationKey(hash, e, targets[0]) {
        var i :| 0 <= i < |targets[1..]| && targets[1..][i] == t;
        assert targets[i + 1] == t;
        if DeduplicationKey(hash, e, t) == DeduplicationKey(hash, e, targets[0]) { KeysSeparateTargets(hash, e, t, targets[0]); }
      }
      assert forall t <- targets[1..] :: t in targets;
      DistinctConcat([DeduplicationKey(hash, e, targets[0])], KeysFor(hash, e, targets[1..]));
    }
  }

  lemma {:induction false} NamesDistinct<T>(rows: seq<T>, matches: T -> bool, name: T -> string)
    requires forall i, j | 0 <= i < j < |rows| :: name(rows[i]) != name(rows[j])
    ensures Distinct(NamesOf(rows, matches, name))
    ensures forall n <- NamesOf(rows, matches, name) :: exists i | 0 <= i < |rows| :: n == name(rows[i])
  {
    if |rows| != 0 {
      NamesDistinct(rows[1..], matches, name);
      var rest := NamesOf(rows[1..], matches, name);
      forall n <- rest ensures n != name(rows[0]) {
        var i :| 0 <= i < |rows[1..]| && n == name(rows[1..][i]);
        assert rows[1..][i] == rows[i + 1];
      }
      if matches(rows[0]) { DistinctConcat([name(rows[0])], rest); }
      forall n <- NamesOf(rows, matches, name) ensures exists i | 0 <= i < |rows| :: n == name(rows[i]) {
        if n in rest {
          var i :| 0 <= i < |rows[1..]| && n == name(rows[1..][i]);
          assert n == name(rows[i + 1]);
        } else {
          assert n == name(rows[0]);
        }
      }
    }
  }

  lemma PrefixedDiffer(prefix: string)
    ensures forall a: string, b: string :: prefix + a == prefix + b ==> a == b
  {
    forall a: string, b: string | prefix + a == prefix + b ensures a == b {
      assert (prefix + a)[|prefix|..] == a;
      assert (prefix + b)[|prefix|..] == b;
    }
  }

  ghost predicate PrimaryKeys(t: Tables) {
    && (forall i, j | 0 <= i < j < |t.subscribers| :: t.subscribers[i].id != t.subscribers[j].id)
    && (forall i, j | 0 <= i < j < |t.endpoints| :: t.endpoints[i].id != t.endpoints[j].id)
    && (forall i, j | 0 <= i < j < |t.destinations| :: t.destinations[i].id != t.destinations[j].id)
  }

  lemma TargetsDistinct(e: Event, t: Tables)
    requires PrimaryKeys(t)
    ensures Distinct(Targets(e, t))
  {
    PrefixedDiffer("subscriber:");
    PrefixedDiffer("endpoint:");
    PrefixedDiffer("destination:");
    NamesDistinct(t.subscribers, (s: Subscriber) => SubscriberMatches(e, s), (s: Subscriber) => "subscriber:" + s.id);
    NamesDistinct(t.endpoints, (p: Endpoint) => EndpointMatches(e, p), (p: Endpoint) => "endpoint:" + p.id);
    NamesDistinct(t.destinations, (d: Destination) => DestinationMatches(e, d), (d: Destination) => "destination:" + d.id);
    assert forall x <- SubscriberTargets(e, t) :: x[0] == 's';
    assert forall x <- EndpointTargets(e, t) :: x[0] == 'e';
    assert forall x <- DestinationTargets(e, t) :: x[0] == 'd';
    DistinctConcat(SubscriberTargets(e, t), EndpointTargets(e, t));
    DistinctConcat(SubscriberTargets(e, t) + EndpointTargets(e, t), DestinationTargets(e, t));
  }

  /** Each matching subscriber, endpoint and destination, of the page and of its hub, has a key of its own. */
  lemma DispatchKeysDistinct(hash: string -> string, e: Event, t: Tables)
    requires Injective(hash) && PrimaryKeys(t)
    requires NUL !in e.pageId && forall id <- t.pages :: NUL !in id
    ensures Distinct(DispatchKeys(hash, e, t))
    ensures |DispatchKeys(hash, e, t)| == |Targets(e, t)| + if HubEvent(e, t).None? then 0 else |Targets(HubEvent(e, t).value, t)|
  {
    TargetsDistinct(e, t);
    KeysForDistinct(hash, e, Targets(e, t));
    var hub := HubEvent(e, t);
    if hub.Some? {
      TargetsDistinct(hub.value, t);
      KeysForDistinct(hash, hub.value, Targets(hub.value, t));
      var own, hubs := KeysFor(hash, e, Targets(e, t)), KeysFor(hash, hub.value, Targets(hub.value, t));
      forall k, l | k in own && l in hubs ensures k != l {
        if k == l {
          var t1 :| t1 in Targets(e, t) && k == DeduplicationKey(hash, e, t1);
          var t2 :| t2 in Targets(hub.value, t) && l == DeduplicationKey(hash, hub.value, t2);
          KeysSeparatePages(hash, e, hub.value, t1, t2);
        }
      }
      DistinctConcat(own, hubs);
    }
  }

  // ----- exactly the matching rows have a key ---------------------------------

  lemma {:induction false} NamesAre<T>(rows: seq<T>, matches: T -> bool, name: T -> string, n: string)
    ensures n in NamesOf(rows, matches, name) <==> exists r <- rows :: matches(r) && n == name(r)
  {
    if |rows| != 0 {
      NamesAre(rows[1..], matches, name, n);
      assert forall r :: r in rows <==> r == rows[0] || r in rows[1..];
    }
  }

  lemma {:induction false} KeysAre(hash: string -> string, e: Event, targets: seq<string>, key: string)
    ensures key in KeysFor(hash, e, targets) <==> exists t <- targets :: key == DeduplicationKey(hash, e, t)
  {
    if |targets| != 0 {
      KeysAre(hash, e, targets[1..], key);
      assert forall t :: t in targets <==> t == targets[0] || t in targets[1..];
    }
  }

  /** A row that is to hear of the event, by the name it has among the targets. */
  ghost predicate IsTarget(e: Event, t: Tables, target: string) {
    || (exists s <- t.subscribers :: SubscriberMatches(e, s) && target == "subscriber:" + s.id)
    || (exists p <- t.endpoints :: EndpointMatches(e, p) && target == "endpoint:" + p.id)
    || (exists d <- t.destinations :: DestinationMatches(e, d) && target == "destination:" + d.id)
  }

  lemma TargetsAre(e: Event, t: Tables, target: string)
    ensures target in Targets(e, t) <==> IsTarget(e, t, target)
  {
    NamesAre(t.subscribers, (s: Subscriber) => SubscriberMatches(e, s), (s: Subscriber) => "subscriber:" + s.id, target);
    NamesAre(t.endpoints, (p: Endpoint) => EndpointMatches(e, p), (p: Endpoint) => "endpoint:" + p.id, target);
    NamesAre(t.destinations, (d: Destination) => DestinationMatches(e, d), (d: Destination) => "destination:" + d.id, target);
  }

  /** The event has a job under this key for some row of its own page. */
  ghost predicate Reaches(hash: string -> string, e: Event, t: Tables, key: string) {
    exists target :: IsTarget(e, t, target) && key == DeduplicationKey(hash, e, target)
  }

  /** A key is dispatched exactly if some matching row of the page, or of its hub for the hub's copy, has it: nobody is missed and nobody else is told. */
  lemma DispatchKeysAreMatchingRows(hash: string -> string, e: Event, t: Tables, key: string)
    ensures key in DispatchKeys(hash, e, t) <==>
            Reaches(hash, e, t, key) || (HubEvent(e, t).Some? && Reaches(hash, HubEvent(e, t).value, t, key))
  {
    KeysReach(hash, e, t, key);
    if HubEvent(e, t).Some? { KeysReach(hash, HubEvent(e, t).value, t, key); }
  }

  lemma KeysReach(hash: string -> string, e: Event, t: Tables, key: string)
    ensures key in KeysFor(hash, e, Targets(e, t)) <==> Reaches(hash, e, t, key)
  {
    KeysAre(hash, e, Targets(e, t), key);
    forall target ensures target in Targets(e, t) <==> IsTarget(e, t, target) { TargetsAre(e, t, target); }
  }

  // ----- which events share a key ---------------------------------------------

  /** Joined texts whose first segments contain no NUL agree segment by segment. */
  lemma SplitAtNul(a: string, x: string, b: string, y: string)
    requires NUL !in a && NUL !in b && a + [NUL] + x == b + [NUL] + y
    ensures a == b && x == y
  {
    FirstSegment(a, x, b, y);
    assert (a + [NUL] + x)[|a| + 1..] == x && (b + [NUL] + y)[|b| + 1..] == y;
  }

  function EventName(e: Event): string { if e.eventId.Some? then e.eventId.value else e.eventType }

  /**
   * Two jobs share a key exactly if they are for the same target and page, the
   * same event id (or type, if there is none), and the same text.
   */
  lemma SharedKeyIff(hash: string -> string, e: Event, f: Event, t1: string, t2: string)
    requires Injective(hash) && NUL !in EventName(e) + e.pageId + t1 && NUL !in EventName(f) + f.pageId + t2
    ensures DeduplicationKey(hash, e, t1) == DeduplicationKey(hash, f, t2) <==>
            && EventName(e) == EventName(f) && e.pageId == f.pageId && t1 == t2
            && e.subject + [NUL] + e.body == f.subject + [NUL] + f.body
  {
    var x, y := e.subject + [NUL] + e.body, f.subject + [NUL] + f.body;
    assert KeyText(e, t1) == EventName(e) + [NUL] + (e.pageId + [NUL] + (t1 + [NUL] + x));
    assert KeyText(f, t2) == EventName(f) + [NUL] + (f.pageId + [NUL] + (t2 + [NUL] + y));
    if DeduplicationKey(hash, e, t1) == DeduplicationKey(hash, f, t2) {
      SplitAtNul(EventName(e), e.pageId + [NUL] + (t1 + [NUL] + x), EventName(f), f.pageId + [NUL] + (t2 + [NUL] + y));
      SplitAtNul(e.pageId, t1 + [NUL] + x, f.pageId, t2 + [NUL] + y);
      SplitAtNul(t1, x, t2, y);
    }
  }

  // ----- who is skipped, and what a hub is told -------------------------------

  /** The reasons for which a subscriber is not told. */
  lemma SubscriberSkippedIff(e: Event, s: Subscriber)
    ensures !SubscriberMatches(e, s) <==>
            || s.pageId != e.pageId || !s.verified || s.quarantined || e.operatorsOnly
            || (s.channel != "EMAIL" && s.channel != "SMS")
            || (s.eventTypes != [] && e.eventType !in s.eventTypes)
            || (e.componentIds != [] && s.componentIds != [] && forall c <- e.componentIds :: c !in s.componentIds)
  {
  }

  lemma DestinationSkippedIff(e: Event, d: Destination)
    ensures !DestinationMatches(e, d) <==>
            || d.pageId != e.pageId || !d.active || !d.verified
            || (d.eventTypes != [] && e.eventType !in d.eventTypes)
            || (e.componentIds != [] && d.componentIds != [] && forall c <- e.componentIds :: c !in d.componentIds)
  {
  }

  lemma EndpointSkippedIff(e: Event, p: Endpoint)
    ensures !EndpointMatches(e, p) <==> p.pageId != e.pageId || !p.active || !p.verified
  {
  }

  /** The event's page is public, no hub itself, and the parent it names is a hub of the same organization. */
  ghost predicate HasHub(e: Event, t: Tables, hub: string) {
    && e.pageId in t.pages && hub in t.pages && t.pages[e.pageId].hubParentId == Some(hub)
    && t.pages[e.pageId].isPublic && !t.pages[e.pageId].isHub
    && t.pages[hub].isHub && t.pages[hub].orgId == t.pages[e.pageId].orgId
  }

  /**
   * A hub's audience hears of a product's event exactly if the event is not for
   * operators only and the product has that hub; the copy names the product in
   * front of subject and body, and no component filter can keep it from anybody.
   */
  lemma HubIsTold(e: Event, t: Tables, hub: string)
    ensures (HubEvent(e, t).Some? && HubEvent(e, t).value.pageId == hub) <==> !e.operatorsOnly && HasHub(e, t, hub)
    ensures HubEvent(e, t).Some? ==>
              var copy, name := HubEvent(e, t).value, t.pages[e.pageId].name;
              && copy.subject == "[" + name + "] " + e.subject && copy.body == "Product: " + name + "\n\n" + e.body
              && EventName(copy) == EventName(e) && copy.eventType == e.eventType && !copy.operatorsOnly && copy.componentIds == []
  {
  }
}
