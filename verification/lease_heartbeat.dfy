/**
 * The lease heartbeat (worker/lease-heartbeat.ts): a timer that renews a lease
 * again and again until it is stopped.  The closure's variables `timer` and
 * `inFlight` are kept apart from what the platform really has pending: armed
 * timeouts and unsettled promises, each under its own id.
 */
module LeaseHeartbeat {
  import opened Wrappers

  /** Queued: the renewal is a pending microtask.  Settled: only the `finally` callback is left to do. */
  datatype Phase = Queued | Running | Settled

  datatype State = State(
    stopped: bool, timer: Option<nat>, inFlight: Option<nat>,
    armed: set<nat>, flights: map<nat, Phase>, nextId: nat,
    starts: nat,
    stops: map<nat, Option<nat>>, resolved: set<nat>)

  datatype Step =
    | TimerFires(timeout: nat)
    | RenewStarts(flight: nat)
    | RenewSettles(flight: nat, ok: bool)
    | FinallyRuns(flight: nat)
    | StopCalled(caller: nat)
    | StopResolves(caller: nat)

  function Scheduled(s: State): State {
    if s.stopped then s else s.(timer := Some(s.nextId), armed := s.armed + {s.nextId}, nextId := s.nextId + 1)
  }

  const NEW: State := State(false, None, None, {}, map[], 0, 0, map[], {})

  /** A step that is not pending changes nothing. */
  function Apply(s: State, step: Step): State {
    match step
    case TimerFires(timeout) =>
      if timeout !in s.armed then s
      else
        var fired := s.(armed := s.armed - {timeout}, timer := None);
        if s.stopped then fired
        else fired.(inFlight := Some(s.nextId), flights := s.flights[s.nextId := Queued], nextId := s.nextId + 1)
    case RenewStarts(flight) =>
      if flight in s.flights && s.flights[flight] == Queued
      then s.(flights := s.flights[flight := Running], starts := s.starts + 1) else s
    case RenewSettles(flight, ok) =>
      if flight in s.flights && s.flights[flight] == Running
      then s.(flights := s.flights[flight := Settled]) else s
    case FinallyRuns(flight) =>
      if flight in s.flights && s.flights[flight] == Settled
      then Scheduled(s.(flights := s.flights - {flight}, inFlight := None)) else s
    case StopCalled(caller) =>
      if caller in s.stops then s
      else s.(stopped := true, armed := if s.timer.Some? then s.armed - {s.timer.value} else s.armed, timer := None,
              stops := s.stops[caller := s.inFlight])
    case StopResolves(caller) =>
      if caller in s.stops && (s.stops[caller].Some? ==> s.stops[caller].value !in s.flights)
      then s.(resolved := s.resolved + {caller}) else s
  }

  datatype Interval = Finite(milliseconds: real) | NotFinite

  class Heartbeat {
    var stopped: bool
    var timer: Option<nat>
    var inFlight: Option<nat>
    var armed: set<nat>
    var flights: map<nat, Phase>
    var nextId: nat
    var starts: nat
    var stops: map<nat, Option<nat>>
    var resolved: set<nat>

    ghost function Now(): State
      reads this
    {
      State(stopped, timer, inFlight, armed, flights, nextId, starts, stops, resolved)
    }

    constructor ()
      ensures Now() == Scheduled(NEW)
    {
      stopped, inFlight, flights, starts, stops, resolved := false, None, map[], 0, map[], {};
      timer, armed, nextId := Some(0), {0}, 1;
    }

    static method StartLeaseHeartbeat(interval: Interval) returns (h: Result<Heartbeat, string>)
      ensures h.Ok? <==> interval.Finite? && interval.milliseconds > 0.0
      ensures h.Ok? ==> fresh(h.value) && h.value.Now() == Scheduled(NEW)
    {
      if interval.NotFinite? || interval.milliseconds <= 0.0 {
        return Err("Lease renewal interval must be a positive number");
      }
      var heartbeat := new Heartbeat();
      return Ok(heartbeat);
    }

    method Schedule()
      modifies this
      ensures Now() == Scheduled(old(Now()))
    {
      if stopped { return; }
      timer, armed, nextId := Some(nextId), armed + {nextId}, nextId + 1;
    }

    method OnTimeout(timeout: nat)
      requires timeout in armed
      modifies this
      ensures Now() == Apply(old(Now()), TimerFires(timeout))
    {
      armed := armed - {timeout};
      timer := None;
      if stopped { return; }
      inFlight, flights, nextId := Some(nextId), flights[nextId := Queued], nextId + 1;
    }

    method OnFinally(flight: nat)
      requires flight in flights && flights[flight] == Settled
      modifies this
      ensures Now() == Apply(old(Now()), FinallyRuns(flight))
    {
      flights := flights - {flight};
      inFlight := None;
      Schedule();
    }

    method Stop(caller: nat)
      requires caller !in stops
      modifies this
      ensures Now() == Apply(old(Now()), StopCalled(caller))
    {
      stopped := true;
      if timer.Some? { armed := armed - {timer.value}; }
      timer := None;
      stops := stops[caller := inFlight];
    }
  }

  // ===== every schedule =======================================================

  function Run(s: State, steps: seq<Step>): State {
    if |steps| == 0 then s else Apply(Run(s, steps[..|steps| - 1]), steps[|steps| - 1])
  }

  function Only(id: Option<nat>): set<nat> { if id.Some? then {id.value} else {} }

  /** The closure's variables are the whole truth, and exactly one thing is pending until `stop`. */
  ghost predicate Inv(s: State) {
    && s.armed == Only(s.timer)
    && s.flights.Keys == Only(s.inFlight)
    && (forall id | id in s.armed || id in s.flights :: id < s.nextId)
    && (if s.stopped then s.timer.None? else s.timer.Some? != s.inFlight.Some?)
    && (!s.stopped ==> s.stops == map[])
    && (forall caller | caller in s.stops :: s.stops[caller].None? ==> s.flights == map[])
    && (forall caller | caller in s.stops :: s.stops[caller].Some? ==> s.flights.Keys <= {s.stops[caller].value})
    && s.resolved <= s.stops.Keys
    && (s.resolved != {} ==> s.flights == map[])
  }

  lemma StepKeepsInv(s: State, step: Step)
    requires Inv(s)
    ensures Inv(Apply(s, step))
  {
  }

  /** The heartbeat as it is started. */
  const STARTED: State := Scheduled(NEW)

  lemma {:induction false} RunKeepsInv(steps: seq<Step>)
    ensures Inv(Run(STARTED, steps))
  {
    if |steps| != 0 {
      RunKeepsInv(steps[..|steps| - 1]);
      StepKeepsInv(Run(STARTED, steps[..|steps| - 1]), steps[|steps| - 1]);
    }
  }

  lemma {:induction false} RunConcat(s: State, a: seq<Step>, b: seq<Step>)
    ensures Run(s, a + b) == Run(Run(s, a), b)
  {
    if |b| == 0 {
      assert a + b == a;
    } else {
      RunConcat(s, a, b[..|b| - 1]);
      assert (a + b)[..|a + b| - 1] == a + b[..|b| - 1];
    }
  }

  // ----- main results ---------------------------------------------------------

  ghost predicate Reachable(s: State) { exists steps :: s == Run(STARTED, steps) }

  lemma ReachableInv(s: State)
    requires Reachable(s)
    ensures Inv(s)
  {
    var steps :| s == Run(STARTED, steps);
    RunKeepsInv(steps);
  }

  /** Never two timers, never two renewals, never one of each; and before `stop` never neither. */
  lemma OneThingPending(s: State)
    requires Reachable(s)
    ensures |s.armed| + |s.flights| <= 1
    ensures !s.stopped ==> |s.armed| + |s.flights| == 1
  {
    ReachableInv(s);
    assert |s.flights| == |s.flights.Keys|;
  }

  /** The steps that lead from any phase to the next renewal; the renewal in flight, if any, fails. */
  function NextRenewal(s: State): seq<Step> {
    if s.inFlight.None? then
      if s.timer.None? then [] else [TimerFires(s.timer.value), RenewStarts(s.nextId)]
    else
      var f := s.inFlight.value;
      if f !in s.flights then []
      else if s.flights[f] == Queued then [RenewStarts(f)]
      else if s.flights[f] == Running then [RenewSettles(f, false), FinallyRuns(f)] + [TimerFires(s.nextId), RenewStarts(s.nextId + 1)]
      else [FinallyRuns(f)] + [TimerFires(s.nextId), RenewStarts(s.nextId + 1)]
  }

  lemma RunOfOne(s: State, a: Step)
    ensures Run(s, [a]) == Apply(s, a)
  {
    assert [a][..0] == [];
  }

  lemma RunOfTwo(s: State, a: Step, b: Step)
    ensures Run(s, [a, b]) == Apply(Apply(s, a), b)
  {
    RunOfOne(s, a);
    assert [a, b][..1] == [a];
  }

  /** A failed renewal never ends the heartbeat: until `stop` is called, another renewal can always come. */
  lemma HeartbeatGoesOn(s: State)
    requires Reachable(s) && !s.stopped
    ensures Run(s, NextRenewal(s)).starts == s.starts + 1 && !Run(s, NextRenewal(s)).stopped
  {
    ReachableInv(s);
    if s.inFlight.None? {
      RunOfTwo(s, TimerFires(s.timer.value), RenewStarts(s.nextId));
    } else {
      var f := s.inFlight.value;
      assert f in s.flights.Keys;
      if s.flights[f] == Queued {
        RunOfOne(s, RenewStarts(f));
      } else if s.flights[f] == Settled {
        RunOfOne(s, FinallyRuns(f));
        RunConcat(s, [FinallyRuns(f)], [TimerFires(s.nextId), RenewStarts(s.nextId + 1)]);
        RunOfTwo(Apply(s, FinallyRuns(f)), TimerFires(s.nextId), RenewStarts(s.nextId + 1));
      } else {
        var s' := Apply(Apply(s, RenewSettles(f, false)), FinallyRuns(f));
        RunOfTwo(s, RenewSettles(f, false), FinallyRuns(f));
        RunConcat(s, [RenewSettles(f, false), FinallyRuns(f)], [TimerFires(s.nextId), RenewStarts(s.nextId + 1)]);
        RunOfTwo(s', TimerFires(s.nextId), RenewStarts(s.nextId + 1));
      }
    }
  }

  /** `stop()` resolves exactly when nothing is in flight. */
  lemma StopResolvesIff(s: State, caller: nat)
    requires Reachable(s) && caller in s.stops && caller !in s.resolved
    ensures caller in Apply(s, StopResolves(caller)).resolved <==> s.flights == map[]
  {
    ReachableInv(s);
    if s.stops[caller].Some? && s.flights != map[] {
      assert s.inFlight.Some? && s.inFlight.value in s.flights.Keys;
    }
  }

  predicate IsQueued(s: State) { s.inFlight.Some? && s.inFlight.value in s.flights && s.flights[s.inFlight.value] == Queued }

  lemma {:induction false} StoppedRun(s: State, steps: seq<Step>)
    requires Inv(s) && s.stopped
    ensures var s' := Run(s, steps);
            && Inv(s') && s'.stopped && s'.flights.Keys <= s.flights.Keys
            && s'.starts + (if IsQueued(s') then 1 else 0) <= s.starts + if IsQueued(s) then 1 else 0
  {
    if |steps| != 0 {
      StoppedRun(s, steps[..|steps| - 1]);
      StoppedStep(Run(s, steps[..|steps| - 1]), steps[|steps| - 1]);
    }
  }

  lemma StoppedStep(s: State, step: Step)
    requires Inv(s) && s.stopped
    ensures var s' := Apply(s, step);
            && Inv(s') && s'.stopped && s'.flights.Keys <= s.flights.Keys
            && s'.starts + (if IsQueued(s') then 1 else 0) <= s.starts + if IsQueued(s) then 1 else 0
  {
    StepKeepsInv(s, step);
  }

  /** After `stop` was called no timer fires, and only a renewal already queued by then still starts. */
  lemma StopHaltsTheTimer(s: State, steps: seq<Step>)
    requires Reachable(s) && s.stopped
    ensures Run(s, steps).armed == {} && Run(s, steps).starts <= s.starts + if IsQueued(s) then 1 else 0
  {
    ReachableInv(s);
    StoppedRun(s, steps);
  }

  /** Once any `stop()` has resolved, nothing runs and nothing ever starts again. */
  lemma StopIsFinal(s: State, steps: seq<Step>)
    requires Reachable(s) && s.resolved != {}
    ensures s.stopped && s.flights == map[]
    ensures var s' := Run(s, steps); s'.starts == s.starts && s'.flights == map[] && s'.armed == {}
  {
    ReachableInv(s);
    StoppedRun(s, steps);
    StartsOnlyGrow(s, steps);
  }

  lemma {:induction false} StartsOnlyGrow(s: State, steps: seq<Step>)
    ensures Run(s, steps).starts >= s.starts
  {
    if |steps| != 0 { StartsOnlyGrow(s, steps[..|steps| - 1]); }
  }
}
