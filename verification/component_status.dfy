/**
 * The status history of one component (lib/component-status.ts): which sources
 * count, what a reconciliation writes, and what the resulting interval log is
 * worth to the uptime computation.
 */
module ComponentHistory {
  import opened Wrappers
  import opened Status

  // ===== the sources of a status ==============================================

  /** A row of the incident link table joined with its incident. */
  datatype Link = Link(newStatus: StatusText, isMaintenance: bool, maintenanceStatus: string, incidentStatus: string)

  datatype MonitorSource = MonitorSource(enabled: bool, actionFlipStatus: bool, isDown: bool, downStatus: StatusText)

  predicate MaintenanceInForce(l: Link) {
    l.isMaintenance && (l.maintenanceStatus == "IN_PROGRESS" || l.maintenanceStatus == "VERIFYING")
  }

  predicate IncidentInForce(l: Link) { !l.isMaintenance && l.incidentStatus != "RESOLVED" && l.newStatus.Known? }

  predicate MonitorInForce(m: MonitorSource) { m.enabled && m.actionFlipStatus && m.isDown && m.downStatus.Known? }

  function IncidentStatuses(links: seq<Link>): seq<ComponentStatus> {
    if |links| == 0 then []
    else
      var l := links[|links| - 1];
      IncidentStatuses(links[..|links| - 1]) + if IncidentInForce(l) then [l.newStatus.status] else []
  }

  function MonitorStatuses(monitors: seq<MonitorSource>): seq<ComponentStatus> {
    if |monitors| == 0 then []
    else
      var m := monitors[|monitors| - 1];
      MonitorStatuses(monitors[..|monitors| - 1]) + if MonitorInForce(m) then [m.downStatus.status] else []
  }

  predicate AnyMaintenance(links: seq<Link>) { exists l <- links :: MaintenanceInForce(l) }

  lemma AnyMaintenanceStep(links: seq<Link>, l: Link)
    ensures AnyMaintenance(links + [l]) <==> AnyMaintenance(links) || MaintenanceInForce(l)
  {
    assert forall x :: x in links + [l] <==> x in links || x == l;
  }

  datatype Sources = Sources(
    manual: ComponentStatus, incidents: seq<ComponentStatus>, maintenanceActive: bool, monitors: seq<ComponentStatus>)

  datatype Reconciled = Reconciled(status: ComponentStatus, isMaintenance: bool)

  function CalculateReconciledStatus(s: Sources): Reconciled {
    var candidates := [s.manual] + s.incidents + s.monitors + if s.maintenanceActive then [UnderMaintenance] else [];
    var status := WorstStatus(candidates);
    Reconciled(status, s.maintenanceActive || (status == UnderMaintenance && s.manual == UnderMaintenance))
  }

  function SourcesOf(manual: StatusText, links: seq<Link>, monitors: seq<MonitorSource>): Sources {
    Sources(manual.Or(Operational), IncidentStatuses(links), AnyMaintenance(links), MonitorStatuses(monitors))
  }

  /**
   * Some input row argues for status `w`: the manual status, a maintenance that is
   * in progress or being verified, an unresolved incident, or an enabled monitor
   * that is down and may flip the status.
   */
  ghost predicate InForce(w: ComponentStatus, manual: StatusText, links: seq<Link>, monitors: seq<MonitorSource>) {
    || manual == Known(w) || (manual.Unknown? && w == Operational)
    || (w == UnderMaintenance
        && exists l <- links :: l.isMaintenance && (l.maintenanceStatus == "IN_PROGRESS" || l.maintenanceStatus == "VERIFYING"))
    || (exists l <- links :: !l.isMaintenance && l.incidentStatus != "RESOLVED" && l.newStatus == Known(w))
    || (exists m <- monitors :: m.enabled && m.actionFlipStatus && m.isDown && m.downStatus == Known(w))
  }

  lemma {:induction false} IncidentStatusesMembers(links: seq<Link>, w: ComponentStatus)
    ensures w in IncidentStatuses(links) <==> exists l <- links :: IncidentInForce(l) && l.newStatus == Known(w)
  {
    if |links| != 0 {
      IncidentStatusesMembers(links[..|links| - 1], w);
      assert links == links[..|links| - 1] + [links[|links| - 1]];
    }
  }

  lemma {:induction false} MonitorStatusesMembers(monitors: seq<MonitorSource>, w: ComponentStatus)
    ensures w in MonitorStatuses(monitors) <==> exists m <- monitors :: MonitorInForce(m) && m.downStatus == Known(w)
  {
    if |monitors| != 0 {
      MonitorStatusesMembers(monitors[..|monitors| - 1], w);
      assert monitors == monitors[..|monitors| - 1] + [monitors[|monitors| - 1]];
    }
  }

  /** The severity maximum of everything in force: in force itself, and nothing in force is worse. */
  ghost predicate IsWorstInForce(w: ComponentStatus, manual: StatusText, links: seq<Link>, monitors: seq<MonitorSource>) {
    && (w == Operational || InForce(w, manual, links, monitors))
    && forall v | InForce(v, manual, links, monitors) :: Rank(v) <= Rank(w)
  }

  lemma ReconciledIsWorstInForce(manual: StatusText, links: seq<Link>, monitors: seq<MonitorSource>, w: ComponentStatus)
    ensures CalculateReconciledStatus(SourcesOf(manual, links, monitors)).status == w <==> IsWorstInForce(w, manual, links, monitors)
  {
    var s := SourcesOf(manual, links, monitors);
    var candidates := [s.manual] + s.incidents + s.monitors + if s.maintenanceActive then [UnderMaintenance] else [];
    WorstStatusIsMaximum(candidates, w);
    forall v ensures v in candidates <==> InForce(v, manual, links, monitors) {
      IncidentStatusesMembers(links, v);
      MonitorStatusesMembers(monitors, v);
    }
  }

  /** The event is marked as maintenance exactly if one is in force, or the manual status says so and nothing worse is in force. */
  lemma MaintenanceFlagIff(manual: StatusText, links: seq<Link>, monitors: seq<MonitorSource>)
    ensures CalculateReconciledStatus(SourcesOf(manual, links, monitors)).isMaintenance <==>
            || (exists l <- links :: l.isMaintenance && (l.maintenanceStatus == "IN_PROGRESS" || l.maintenanceStatus == "VERIFYING"))
            || (manual == Known(UnderMaintenance)
                && forall v | InForce(v, manual, links, monitors) :: v == Operational || v == UnderMaintenance)
  {
    ReconciledIsWorstInForce(manual, links, monitors, UnderMaintenance);
    if manual == Known(UnderMaintenance) { assert InForce(UnderMaintenance, manual, links, monitors); }
  }

  // ===== the rows of one component ============================================

  function Closed(e: StatusEvent, now: int): StatusEvent { if e.endedAt.None? then e.(endedAt := Some(now)) else e }

  function CloseAll(events: seq<StatusEvent>, now: int): seq<StatusEvent> {
    seq(|events|, i requires 0 <= i < |events| => Closed(events[i], now))
  }

  /** The open event that started last. */
  function OpenEvent(events: seq<StatusEvent>): Option<StatusEvent> {
    if |events| == 0 then None
    else
      var before, e := OpenEvent(events[..|events| - 1]), events[|events| - 1];
      if e.endedAt.Some? then before
      else if before.Some? && before.value.startedAt > e.startedAt then before
      else Some(e)
  }

  predicate UpToDate(status: ComponentStatus, events: seq<StatusEvent>, r: Reconciled) {
    var open := OpenEvent(events);
    status == r.status && open.Some? && open.value.status == Known(r.status)
  }

  function NewEvent(r: Reconciled, now: int): StatusEvent { StatusEvent(Known(r.status), now, None, r.isMaintenance) }

  datatype Outcome = Unchanged | Changed | Fenced

  class ComponentRows {
    var pageDeleted: bool
    var orgActive: bool
    var status: ComponentStatus
    var manualStatus: StatusText
    var events: seq<StatusEvent>

    constructor (status: ComponentStatus, now: int)
      ensures !pageDeleted && orgActive && this.status == status && manualStatus == Known(Operational)
      ensures events == [StatusEvent(Known(status), now, None, false)]
    {
      pageDeleted, orgActive, this.status, manualStatus := false, true, status, Known(Operational);
      events := [StatusEvent(Known(status), now, None, false)];
    }

    /** Fenced stands for the thrown fence error, after which the transaction leaves no trace. */
    method ReconcileInTransaction(links: seq<Link>, monitors: seq<MonitorSource>, now: int) returns (outcome: Outcome)
      modifies this`status, this`events
      ensures var r := CalculateReconciledStatus(SourcesOf(manualStatus, links, monitors));
              && (outcome == Fenced <==> !pageDeleted && !orgActive)
              && (outcome == Changed <==> !pageDeleted && orgActive && !UpToDate(old(status), old(events), r))
              && (outcome == Changed ==> status == r.status && events == CloseAll(old(events), now) + [NewEvent(r, now)])
              && (outcome != Changed ==> status == old(status) && events == old(events))
    {
      if pageDeleted { return Unchanged; }
      if !orgActive { return Fenced; }
      var incidentStatuses: seq<ComponentStatus> := [];
      var maintenanceActive := false;
      for k := 0 to |links|
        invariant incidentStatuses == IncidentStatuses(links[..k])
        invariant maintenanceActive == AnyMaintenance(links[..k])
        invariant status == old(status) && events == old(events)
      {
        var source := links[k];
        assert links[..k + 1][..k] == links[..k] && links[..k + 1] == links[..k] + [source];
        AnyMaintenanceStep(links[..k], source);
        if source.isMaintenance {
          if source.maintenanceStatus == "IN_PROGRESS" || source.maintenanceStatus == "VERIFYING" { maintenanceActive := true; }
        } else if source.incidentStatus != "RESOLVED" && source.newStatus.Known? {
          incidentStatuses := incidentStatuses + [source.newStatus.status];
        }
      }
      assert links[..|links|] == links;
      var manual := manualStatus.Or(Operational);
      var r := CalculateReconciledStatus(Sources(manual, incidentStatuses, maintenanceActive, MonitorStatuses(monitors)));
      var open := OpenEvent(events);
      if status == r.status && open.Some? && open.value.status == Known(r.status) { return Unchanged; }
      events := CloseAll(events, now);
      events := events + [StatusEvent(Known(r.status), now, None, r.isMaintenance)];
      status := r.status;
      outcome := Changed;
    }

    /** Err: invalid status text.  A fence error rolls the manual status back as well. */
    method SetComponentStatus(newStatus: StatusText, links: seq<Link>, monitors: seq<MonitorSource>, now: int)
      returns (outcome: Result<Outcome, string>)
      modifies this`status, this`events, this`manualStatus
      ensures outcome.Err? <==> newStatus.Unknown?
      ensures outcome.Err? || !orgActive ==> status == old(status) && events == old(events) && manualStatus == old(manualStatus)
      ensures outcome.Ok? && orgActive ==> manualStatus == newStatus
      ensures outcome.Ok? && orgActive && !pageDeleted ==>
                var r := CalculateReconciledStatus(SourcesOf(newStatus, links, monitors));
                if UpToDate(old(status), old(events), r) then status == old(status) && events == old(events)
                else status == r.status && events == CloseAll(old(events), now) + [NewEvent(r, now)]
      ensures pageDeleted ==> status == old(status) && events == old(events)
    {
      if newStatus.Unknown? { return Err("Invalid component status"); }
      if !orgActive { return Ok(Fenced); }
      manualStatus := newStatus;
      var changed := ReconcileInTransaction(links, monitors, now);
      outcome := Ok(changed);
    }
  }

  // ===== every run ============================================================

  datatype State = State(
    pageDeleted: bool, orgActive: bool, status: ComponentStatus, manualStatus: StatusText,
    links: seq<Link>, monitors: seq<MonitorSource>, events: seq<StatusEvent>, clock: int)

  datatype Step =
    | ChangeSources(links: seq<Link>, monitors: seq<MonitorSource>)
    | SetOrgActive(active: bool)
    | DeletePage
    | Reconcile(now: int)
    | SetManual(newStatus: StatusText, now: int)
    | Retention(cutoff: int)

  function Created(status: ComponentStatus, now: int): State {
    State(false, true, status, Known(Operational), [], [], [StatusEvent(Known(status), now, None, false)], now)
  }

  function Wanted(s: State): Reconciled { CalculateReconciledStatus(SourcesOf(s.manualStatus, s.links, s.monitors)) }

  predicate CanReconcile(s: State) { !s.pageDeleted && s.orgActive }

  function Reconciliation(s: State, now: int): State {
    if !CanReconcile(s) || UpToDate(s.status, s.events, Wanted(s)) then s
    else s.(status := Wanted(s).status, events := CloseAll(s.events, now) + [NewEvent(Wanted(s), now)])
  }

  predicate Expired(e: StatusEvent, cutoff: int) { e.endedAt.Some? && e.endedAt.value < cutoff }

  function Kept(events: seq<StatusEvent>, cutoff: int): seq<StatusEvent> {
    if |events| == 0 then []
    else (if Expired(events[0], cutoff) then [] else [events[0]]) + Kept(events[1..], cutoff)
  }

  function Apply(s: State, step: Step): State {
    match step
    case ChangeSources(links, monitors) => s.(links := links, monitors := monitors)
    case SetOrgActive(active) => s.(orgActive := active)
    case DeletePage => s.(pageDeleted := true)
    case Reconcile(now) => Reconciliation(s, now).(clock := now)
    case SetManual(newStatus, now) =>
      if newStatus.Unknown? || !s.orgActive then s
      else Reconciliation(s.(manualStatus := newStatus), now).(clock := now)
    case Retention(cutoff) => s.(events := Kept(s.events, cutoff))
  }

  function Run(s: State, steps: seq<Step>): State {
    if |steps| == 0 then s else Apply(Run(s, steps[..|steps| - 1]), steps[|steps| - 1])
  }

  /** The clock does not run backwards between reconciliations. */
  predicate Monotone(s: State, step: Step) {
    match step
    case Reconcile(now) => now >= s.clock
    case SetManual(_, now) => now >= s.clock
    case _ => true
  }

  predicate MonotoneRun(s: State, steps: seq<Step>) {
    |steps| == 0 || (MonotoneRun(s, steps[..|steps| - 1]) && Monotone(Run(s, steps[..|steps| - 1]), steps[|steps| - 1]))
  }

  /** Consecutive events touch, only the last one is open, and time runs forward. */
  ghost predicate Tiled(events: seq<StatusEvent>) {
    && |events| > 0
    && events[|events| - 1].endedAt == None
    && (forall i | 0 <= i < |events| - 1 :: events[i].endedAt == Some(events[i + 1].startedAt))
    && (forall i, j | 0 <= i < j < |events| :: events[i].startedAt <= events[j].startedAt)
  }

  ghost predicate Inv(s: State) {
    && Tiled(s.events)
    && s.events[|s.events| - 1].status == Known(s.status)
    && s.events[|s.events| - 1].startedAt <= s.clock
  }

  lemma {:induction false} ClosedEventsHaveNoOpen(events: seq<StatusEvent>)
    requires forall e <- events :: e.endedAt.Some?
    ensures OpenEvent(events) == None
  {
    if |events| != 0 { ClosedEventsHaveNoOpen(events[..|events| - 1]); }
  }

  lemma TiledOpenEvent(events: seq<StatusEvent>)
    requires Tiled(events)
    ensures OpenEvent(events) == Some(events[|events| - 1])
  {
    var front := events[..|events| - 1];
    forall e <- front ensures e.endedAt.Some? {
      var i :| 0 <= i < |front| && front[i] == e;
      assert events[i].endedAt == Some(events[i + 1].startedAt);
    }
    ClosedEventsHaveNoOpen(front);
  }

  lemma AppendTiles(events: seq<StatusEvent>, now: int, e: StatusEvent)
    requires Tiled(events) && events[|events| - 1].startedAt <= now && e.startedAt == now && e.endedAt == None
    ensures Tiled(CloseAll(events, now) + [e])
  {
    var after := CloseAll(events, now) + [e];
    forall i | 0 <= i < |events| ensures after[i].startedAt == events[i].startedAt <= now {}
    forall i | 0 <= i < |after| - 1 ensures after[i].endedAt == Some(after[i + 1].startedAt) {
      if i < |events| - 1 { assert events[i].endedAt == Some(events[i + 1].startedAt); }
    }
  }

  lemma {:induction false} RecentEventsStay(events: seq<StatusEvent>, cutoff: int)
    requires forall e <- events :: e.endedAt.Some? ==> e.endedAt.value >= cutoff
    ensures Kept(events, cutoff) == events
  {
    if |events| != 0 {
      RecentEventsStay(events[1..], cutoff);
      assert [events[0]] + events[1..] == events;
    }
  }

  lemma TailTiles(events: seq<StatusEvent>)
    requires Tiled(events) && |events| > 1
    ensures Tiled(events[1..])
  {
    var tail := events[1..];
    forall i | 0 <= i < |tail| - 1 ensures tail[i].endedAt == Some(tail[i + 1].startedAt) {
      assert events[i + 1].endedAt == Some(events[i + 2].startedAt);
    }
  }

  /** In a tiled history the events end in the order in which they start. */
  lemma TiledEndsInOrder(events: seq<StatusEvent>, i: nat)
    requires Tiled(events) && i < |events| && events[i].endedAt.Some?
    ensures events[0].endedAt.Some? && events[0].endedAt.value <= events[i].endedAt.value
  {
    assert events[i].endedAt == Some(events[i + 1].startedAt);
    assert events[0].endedAt == Some(events[1].startedAt);
    if i > 0 { assert events[1].startedAt <= events[i + 1].startedAt; }
  }

  lemma NothingExpired(events: seq<StatusEvent>, cutoff: int)
    requires Tiled(events) && !Expired(events[0], cutoff)
    ensures Kept(events, cutoff) == events
  {
    forall e <- events ensures e.endedAt.Some? ==> e.endedAt.value >= cutoff {
      var i :| 0 <= i < |events| && events[i] == e;
      if e.endedAt.Some? { TiledEndsInOrder(events, i); }
    }
    RecentEventsStay(events, cutoff);
  }

  lemma FirstExpired(events: seq<StatusEvent>, cutoff: int)
    requires |events| > 0 && Expired(events[0], cutoff)
    ensures Kept(events, cutoff) == Kept(events[1..], cutoff)
  {
  }

  /** So retention removes a prefix, and what is left is still tiled. */
  lemma {:induction false} RetentionTiles(events: seq<StatusEvent>, cutoff: int)
    requires Tiled(events)
    ensures Tiled(Kept(events, cutoff)) && Kept(events, cutoff)[|Kept(events, cutoff)| - 1] == events[|events| - 1]
  {
    if Expired(events[0], cutoff) {
      TailTiles(events);
      FirstExpired(events, cutoff);
      RetentionTiles(events[1..], cutoff);
    } else {
      NothingExpired(events, cutoff);
    }
  }

  lemma ReconciliationKeepsInv(s: State, now: int)
    requires Inv(s) && now >= s.clock
    ensures Inv(Reconciliation(s, now).(clock := now))
    ensures CanReconcile(s) ==> Reconciliation(s, now).status == Wanted(s).status
  {
    TiledOpenEvent(s.events);
    if CanReconcile(s) && !UpToDate(s.status, s.events, Wanted(s)) {
      AppendTiles(s.events, now, NewEvent(Wanted(s), now));
    }
  }

  lemma StepKeepsInv(s: State, step: Step)
    requires Inv(s) && Monotone(s, step)
    ensures Inv(Apply(s, step))
  {
    match step
    case Reconcile(now) => ReconciliationKeepsInv(s, now);
    case SetManual(newStatus, now) =>
      if newStatus.Known? && s.orgActive { ReconciliationKeepsInv(s.(manualStatus := newStatus), now); }
    case Retention(cutoff) => RetentionTiles(s.events, cutoff);
    case _ =>
  }

  lemma {:induction false} RunKeepsInv(s: State, steps: seq<Step>)
    requires Inv(s) && MonotoneRun(s, steps)
    ensures Inv(Run(s, steps))
  {
    if |steps| != 0 {
      RunKeepsInv(s, steps[..|steps| - 1]);
      StepKeepsInv(Run(s, steps[..|steps| - 1]), steps[|steps| - 1]);
    }
  }

  // ----- main results ---------------------------------------------------------

  ghost predicate Reachable(s: State) {
    exists status, now, steps :: MonotoneRun(Created(status, now), steps) && s == Run(Created(status, now), steps)
  }

  /** Whatever the sources, reconciliations and retention did: the events tile time and the open one carries the component's status. */
  lemma HistoryTiles(s: State)
    requires Reachable(s)
    ensures Tiled(s.events) && s.events[|s.events| - 1].status == Known(s.status)
    ensures s.events[|s.events| - 1].startedAt <= s.clock
  {
    var status, now, steps :| MonotoneRun(Created(status, now), steps) && s == Run(Created(status, now), steps);
    RunKeepsInv(Created(status, now), steps);
  }

  /** Each reconciliation leaves the component at the worst status in force: one source recovering never hides another. */
  lemma ReconcileSetsWorst(s: State, now: int)
    requires Reachable(s) && CanReconcile(s) && now >= s.clock
    ensures var s' := Apply(s, Reconcile(now));
            && IsWorstInForce(s'.status, s.manualStatus, s.links, s.monitors)
            && Tiled(s'.events) && s'.events[|s'.events| - 1].status == Known(s'.status)
  {
    HistoryTiles(s);
    ReconciliationKeepsInv(s, now);
    ReconciledIsWorstInForce(s.manualStatus, s.links, s.monitors, Wanted(s).status);
  }

  ghost predicate InForceAt(e: StatusEvent, now: int, t: int) { e.startedAt <= t < EndOf(e, now) }

  lemma {:induction false} EventFor(events: seq<StatusEvent>, now: int, t: int, n: nat) returns (i: nat)
    requires Tiled(events) && n < |events| && events[n].startedAt <= t < now
    requires n + 1 < |events| ==> events[n + 1].startedAt <= now
    requires forall k | 0 <= k < |events| :: events[k].startedAt <= now
    ensures n <= i < |events| && InForceAt(events[i], now, t)
    decreases |events| - n
  {
    if n + 1 < |events| && events[n + 1].startedAt <= t {
      i := EventFor(events, now, t, n + 1);
    } else {
      i := n;
      if n + 1 < |events| { assert events[n].endedAt == Some(events[n + 1].startedAt); }
    }
  }

  /** No two events are in force at the same time. */
  ghost predicate Disjoint(events: seq<StatusEvent>, now: int) {
    forall i, j, t | 0 <= i < j < |events| :: !(InForceAt(events[i], now, t) && InForceAt(events[j], now, t))
  }

  lemma TiledIsDisjoint(events: seq<StatusEvent>, now: int)
    requires Tiled(events)
    ensures Disjoint(events, now)
  {
    forall i, j, t | 0 <= i < j < |events| ensures !(InForceAt(events[i], now, t) && InForceAt(events[j], now, t)) {
      assert events[i].endedAt == Some(events[i + 1].startedAt);
      assert events[i + 1].startedAt <= events[j].startedAt;
    }
  }

  /** At every moment from the first event on, exactly one event is in force. */
  lemma ExactlyOneEventInForce(events: seq<StatusEvent>, now: int, t: int)
    requires Tiled(events) && events[|events| - 1].startedAt <= now && events[0].startedAt <= t < now
    ensures exists i | 0 <= i < |events| :: InForceAt(events[i], now, t)
    ensures forall i, j | 0 <= i < |events| && 0 <= j < |events| && InForceAt(events[i], now, t) && InForceAt(events[j], now, t) :: i == j
  {
    var i := EventFor(events, now, t, 0);
    TiledIsDisjoint(events, now);
  }

  // ----- worth to the uptime computation --------------------------------------

  function ClippedLength(e: StatusEvent, now: int, lo: int, hi: int): int {
    Max(0, Min(EndOf(e, now), hi) - Max(e.startedAt, lo))
  }

  /** Plain sum of the clipped durations of the outages. */
  function OutageSum(events: seq<StatusEvent>, now: int, lo: int, hi: int): int {
    if |events| == 0 then 0
    else OutageSum(events[..|events| - 1], now, lo, hi) +
         var e := events[|events| - 1]; if IsOutage(e) then ClippedLength(e, now, lo, hi) else 0
  }

  ghost function Within(e: StatusEvent, now: int): int -> bool {
    (t: int) => IsOutage(e) && InForceAt(e, now, t)
  }

  lemma CountOfOne(e: StatusEvent, now: int, lo: int, hi: int)
    requires lo <= hi
    ensures CountMs(Within(e, now), lo, hi) == if IsOutage(e) then ClippedLength(e, now, lo, hi) else 0
  {
    var a, b := Max(e.startedAt, lo), Min(EndOf(e, now), hi);
    if IsOutage(e) && a < b {
      CountMsSplits(Within(e, now), lo, a, hi);
      CountMsSplits(Within(e, now), a, b, hi);
      CountMsOfAllOrNone(Within(e, now), lo, a);
      CountMsOfAllOrNone(Within(e, now), a, b);
      CountMsOfAllOrNone(Within(e, now), b, hi);
    } else {
      CountMsOfAllOrNone(Within(e, now), lo, hi);
    }
  }

  lemma {:induction false} CountsAdd(p: int -> bool, q: int -> bool, r: int -> bool, lo: int, hi: int)
    requires forall t | lo <= t < hi :: r(t) == (p(t) || q(t)) && !(p(t) && q(t))
    ensures CountMs(r, lo, hi) == CountMs(p, lo, hi) + CountMs(q, lo, hi)
    decreases hi - lo
  {
    if lo < hi { CountsAdd(p, q, r, lo, hi - 1); }
  }

  lemma EarlierDowntimeExcludesLast(events: seq<StatusEvent>, now: int, t: int)
    requires Disjoint(events, now) && |events| > 0 && Down(events[..|events| - 1], now)(t)
    ensures !InForceAt(events[|events| - 1], now, t)
  {
    var f :| f in events[..|events| - 1] && IsOutage(f) && f.startedAt <= t < EndOf(f, now);
    var i :| 0 <= i < |events| - 1 && events[i] == f;
    assert InForceAt(events[i], now, t);
  }

  lemma {:induction false} DowntimeOfDisjoint(events: seq<StatusEvent>, now: int, lo: int, hi: int)
    requires Disjoint(events, now) && lo <= hi
    ensures CountMs(Down(events, now), lo, hi) == OutageSum(events, now, lo, hi)
  {
    if |events| == 0 {
      CountMsOfAllOrNone(Down(events, now), lo, hi);
    } else {
      var front, e := events[..|events| - 1], events[|events| - 1];
      assert events == front + [e];
      DowntimeOfDisjoint(front, now, lo, hi);
      CountOfOne(e, now, lo, hi);
      DownAtStep(front, e, now);
      forall t | lo <= t < hi ensures !(Down(front, now)(t) && Within(e, now)(t)) {
        if Down(front, now)(t) { EarlierDowntimeExcludesLast(events, now, t); }
      }
      CountsAdd(Down(front, now), Within(e, now), Down(events, now), lo, hi);
    }
  }

  /** A history the reconciler wrote never overlaps, so the sweep's union is the plain sum of its outages. */
  lemma DowntimeOfHistory(s: State, now: int, lo: int, hi: int)
    requires Reachable(s) && lo <= hi
    ensures CountMs(Down(s.events, now), lo, hi) == OutageSum(s.events, now, lo, hi)
  {
    HistoryTiles(s);
    TiledIsDisjoint(s.events, now);
    DowntimeOfDisjoint(s.events, now, lo, hi);
  }

  // ----- the maintenance flag can go stale ------------------------------------

  /** After a reconciliation the open event's flag is right exactly when the event was rewritten or already agreed. */
  lemma FlagRightIff(s: State, now: int)
    requires Reachable(s) && CanReconcile(s) && now >= s.clock
    ensures var s' := Apply(s, Reconcile(now));
            && |s.events| > 0 && |s'.events| > 0
            && (s'.events[|s'.events| - 1].isMaintenance == Wanted(s).isMaintenance
                <==> s.status != Wanted(s).status || s.events[|s.events| - 1].isMaintenance == Wanted(s).isMaintenance)
  {
    HistoryTiles(s);
    TiledOpenEvent(s.events);
  }

  const DEGRADED_LINK: Link := Link(Known(DegradedPerformance), false, "", "INVESTIGATING")
  const MAINTENANCE_LINK: Link := Link(Known(UnderMaintenance), true, "IN_PROGRESS", "")

  const DEGRADED_HISTORY: seq<StatusEvent> := [
    StatusEvent(Known(Operational), 0, Some(10), false), StatusEvent(Known(DegradedPerformance), 10, None, false)]

  const DEGRADED: State := State(
    false, true, DegradedPerformance, Known(Operational), [DEGRADED_LINK], [], DEGRADED_HISTORY, 10)

  lemma RunTwoMore(s: State, steps: seq<Step>, a: Step, b: Step)
    ensures Run(s, steps + [a, b]) == Apply(Apply(Run(s, steps), a), b)
    ensures MonotoneRun(s, steps + [a, b]) <==> MonotoneRun(s, steps) && Monotone(Run(s, steps), a) && Monotone(Apply(Run(s, steps), a), b)
  {
    assert (steps + [a, b])[..|steps| + 1] == steps + [a];
    assert (steps + [a])[..|steps|] == steps;
  }

  /** An incident degrades the component; then a maintenance on the same component begins. */
  const DEGRADATION: seq<Step> := [ChangeSources([DEGRADED_LINK], []), Reconcile(10)]
  const MAINTENANCE: seq<Step> := [ChangeSources([DEGRADED_LINK, MAINTENANCE_LINK], []), Reconcile(20)]

  lemma DegradationIsRecorded()
    ensures Run(Created(Operational, 0), DEGRADATION) == DEGRADED && MonotoneRun(Created(Operational, 0), DEGRADATION)
  {
    var s0 := Created(Operational, 0);
    var s1 := Apply(s0, ChangeSources([DEGRADED_LINK], []));
    RunTwoMore(s0, [], ChangeSources([DEGRADED_LINK], []), Reconcile(10));
    assert [] + DEGRADATION == DEGRADATION;
    DegradedSources([]);
    assert [DEGRADED_LINK] + [] == [DEGRADED_LINK];
    assert Wanted(s1).status == DegradedPerformance != s1.status;
    assert CloseAll(s1.events, 10) + [NewEvent(Wanted(s1), 10)] == DEGRADED_HISTORY;
  }

  lemma OpenDegradation()
    ensures OpenEvent(DEGRADED_HISTORY) == Some(DEGRADED_HISTORY[1])
  {
    assert DEGRADED_HISTORY[..1] == [DEGRADED_HISTORY[0]] && [DEGRADED_HISTORY[0]][..0] == [];
  }

  /** A maintenance on top of a degradation: the status stays, so the event is not marked and counts as downtime. */
  lemma MaintenanceFlagGoesStale()
    ensures MonotoneRun(Created(Operational, 0), DEGRADATION + MAINTENANCE)
    ensures var s := Run(Created(Operational, 0), DEGRADATION + MAINTENANCE);
            && Wanted(s).isMaintenance && s.status == Wanted(s).status == DegradedPerformance
            && s.events == DEGRADED_HISTORY && !s.events[1].isMaintenance
            && DownAt(s.events, 40, 30)
  {
    DegradationIsRecorded();
    var s1 := Apply(DEGRADED, ChangeSources([DEGRADED_LINK, MAINTENANCE_LINK], []));
    RunTwoMore(Created(Operational, 0), DEGRADATION, ChangeSources([DEGRADED_LINK, MAINTENANCE_LINK], []), Reconcile(20));
    DegradedSources([MAINTENANCE_LINK]);
    assert [DEGRADED_LINK] + [MAINTENANCE_LINK] == [DEGRADED_LINK, MAINTENANCE_LINK];
    OpenDegradation();
    assert UpToDate(s1.status, s1.events, Wanted(s1));
    assert DEGRADED_HISTORY[1] in DEGRADED_HISTORY;
  }

  lemma DegradedSources(more: seq<Link>)
    requires more == [] || more == [MAINTENANCE_LINK]
    ensures var r := CalculateReconciledStatus(SourcesOf(Known(Operational), [DEGRADED_LINK] + more, []));
            r.status == DegradedPerformance && r.isMaintenance == (more != [])
  {
    var links := [DEGRADED_LINK] + more;
    assert links[0] == DEGRADED_LINK && DEGRADED_LINK in links;
    if more != [] { assert links[1] == MAINTENANCE_LINK && MAINTENANCE_LINK in links; }
    assert IsWorstInForce(DegradedPerformance, Known(Operational), links, []);
    ReconciledIsWorstInForce(Known(Operational), links, [], DegradedPerformance);
  }

  lemma {:induction false} KeptAre(events: seq<StatusEvent>, cutoff: int, e: StatusEvent)
    ensures e in Kept(events, cutoff) <==> e in events && (e.endedAt.Some? ==> e.endedAt.value >= cutoff)
  {
    if |events| != 0 {
      KeptAre(events[1..], cutoff, e);
      assert forall x :: x in events <==> x == events[0] || x in events[1..];
    }
  }

  /** Retention forgets exactly the events that ended before the cutoff; operators' settings and the status stay. */
  lemma RetentionForgets(s: State, cutoff: int, e: StatusEvent)
    ensures var s' := Apply(s, Retention(cutoff));
            && (e in s'.events <==> e in s.events && (e.endedAt.Some? ==> e.endedAt.value >= cutoff))
            && s'.status == s.status && s'.manualStatus == s.manualStatus
  {
    KeptAre(s.events, cutoff, e);
  }

  lemma OpenAfterChange(events: seq<StatusEvent>, now: int, e: StatusEvent)
    requires e.endedAt == None
    ensures OpenEvent(CloseAll(events, now) + [e]) == Some(e)
  {
    var after := CloseAll(events, now) + [e];
    assert after[..|events|] == CloseAll(events, now);
    ClosedEventsHaveNoOpen(CloseAll(events, now));
  }

  /**
   * From any rows, reachable or not: a reconciliation of a deleted page or an
   * inactive organization writes nothing.  Otherwise both the component and its
   * open event come to show the worst status in force, and the history grows by one
   * event that starts now exactly if one of the two did not show it before.
   */
  lemma ReconciliationShows(s: State, now: int, w: ComponentStatus)
    requires IsWorstInForce(w, s.manualStatus, s.links, s.monitors)
    ensures var s' := Apply(s, Reconcile(now)); var open, open' := OpenEvent(s.events), OpenEvent(s'.events);
            if s.pageDeleted || !s.orgActive then s'.status == s.status && s'.events == s.events
            else
              && s'.status == w && open'.Some? && open'.value.status == Known(w)
              && if s.status == w && open.Some? && open.value.status == Known(w) then s'.events == s.events
                 else |s'.events| == |s.events| + 1 && open'.value == s'.events[|s.events|] && open'.value.startedAt == now
                      && forall i | 0 <= i < |s.events| :: s'.events[i] == s.events[i].(endedAt := Some(s.events[i].endedAt.GetOr(now)))
  {
    ReconciledIsWorstInForce(s.manualStatus, s.links, s.monitors, w);
    OpenAfterChange(s.events, now, NewEvent(Wanted(s), now));
  }

  /** Setting a status by hand is recorded if the text is a status and the organization active, and is then a reconciliation. */
  lemma SettingReconciles(s: State, newStatus: StatusText, now: int)
    ensures var s' := Apply(s, SetManual(newStatus, now));
            if newStatus.Unknown? || !s.orgActive then s' == s
            else s' == Apply(s.(manualStatus := newStatus), Reconcile(now)) && s'.manualStatus == newStatus
  {
  }
}
