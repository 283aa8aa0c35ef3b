/**
 * When a monitor is checked again (worker/monitors.ts): what commits, leases,
 * renewals and operators do to the moment at which the lease query picks a row.
 */
module MonitorSchedule {
  import opened Wrappers
  import opened Monitors

  // ----- what every run keeps -------------------------------------------------

  /** An owner has an expiry and nobody else has one; a snapshot has its row's timeout. */
  ghost predicate Scheduled(s: State) {
    && (forall id <- s.rows :: s.rows[id].leaseOwner.Some? <==> s.rows[id].leaseExpiresAt.Some?)
    && (forall k <- s.claims | s.claims[k].id in s.rows :: s.claims[k].snapshot.timeoutMs == s.rows[s.claims[k].id].timeoutMs)
  }

  lemma LeaseKeepsScheduled(s: State, worker: string, id: nat, now: int)
    requires Scheduled(s)
    ensures Scheduled(Apply(s, Lease(worker, id, now)))
  {
  }

  lemma WorkerKeepsScheduled(s: State, step: Step)
    requires Scheduled(s) && (step.Renew? || step.SetIncident? || step.Release? || step.Crash?)
    ensures Scheduled(Apply(s, step))
  {
  }

  lemma CommitKeepsScheduled(s: State, step: Step)
    requires Scheduled(s) && (step.Commit? || step.FailIncident?)
    ensures Scheduled(Apply(s, step))
  {
  }

  lemma CreateKeepsScheduled(s: State, id: nat, initial: Monitor)
    requires Scheduled(s) && ClaimsOk(s)
    ensures Scheduled(Apply(s, Create(id, initial)))
  {
    forall k <- s.claims ensures s.claims[k].id in s.records { assert ClaimOk(s, k); }
  }

  lemma OperatorKeepsScheduled(s: State, step: Step)
    requires Scheduled(s) && (step.Edit? || step.SetEnabled? || step.RunNow? || step.Delete? || step.SetOrgActive?)
    ensures Scheduled(Apply(s, step))
  {
  }

  lemma StepKeepsScheduled(s: State, step: Step)
    requires Scheduled(s) && ClaimsOk(s)
    ensures Scheduled(Apply(s, step))
  {
    match step
    case Create(id, initial) => CreateKeepsScheduled(s, id, initial);
    case Lease(worker, id, now) => LeaseKeepsScheduled(s, worker, id, now);
    case Commit(_, _, _) => CommitKeepsScheduled(s, step);
    case FailIncident(_) => CommitKeepsScheduled(s, step);
    case _ =>
      if step.Renew? || step.SetIncident? || step.Release? || step.Crash? {
        WorkerKeepsScheduled(s, step);
      } else {
        OperatorKeepsScheduled(s, step);
      }
  }

  lemma {:induction false} RunKeepsScheduled(s: State, steps: seq<Step>)
    requires Inv(s) && Scheduled(s)
    ensures Inv(Run(s, steps)) && Scheduled(Run(s, steps))
  {
    if |steps| != 0 {
      RunKeepsScheduled(s, steps[..|steps| - 1]);
      StepKeepsInv(Run(s, steps[..|steps| - 1]), steps[|steps| - 1]);
      StepKeepsScheduled(Run(s, steps[..|steps| - 1]), steps[|steps| - 1]);
    }
  }

  lemma ReachableScheduled(s: State)
    requires Reachable(s)
    ensures Inv(s) && Scheduled(s)
  {
    var steps :| s == Run(INIT, steps);
    RunKeepsInv([]);
    RunKeepsScheduled(INIT, steps);
  }

  // ----- from one commit to the next check ------------------------------------

  /** The step is no edit, switch, "run now", deletion or later commit of the row. */
  predicate LeavesAlone(s: State, step: Step, id: nat) {
    match step
    case Edit(i, _, _) => i != id
    case SetEnabled(i, _, _) => i != id
    case RunNow(i, _) => i != id
    case Delete(i) => i != id
    case Commit(k, _, _) => !(CanCommit(s, k) && s.claims[k].id == id)
    case _ => true
  }

  predicate LeftAlone(s: State, steps: seq<Step>, id: nat) {
    |steps| == 0 ||
    (LeftAlone(s, steps[..|steps| - 1], id) && LeavesAlone(Run(s, steps[..|steps| - 1]), steps[|steps| - 1], id))
  }

  /** The columns the due test reads, and the timeout. */
  predicate SameSchedule(a: Monitor, b: Monitor) {
    && a.enabled == b.enabled && a.intervalSec == b.intervalSec && a.timeoutMs == b.timeoutMs
    && a.lastCheckedAt == b.lastCheckedAt && a.runRequestedAt == b.runRequestedAt
  }

  lemma WorkerKeepsSchedule(s: State, step: Step, id: nat)
    requires id in s.rows && LeavesAlone(s, step, id)
    requires step.Create? || step.Lease? || step.Renew? || step.SetIncident? || step.Release?
    ensures id in Apply(s, step).rows && SameSchedule(Apply(s, step).rows[id], s.rows[id])
  {
  }

  lemma OtherStepKeepsSchedule(s: State, step: Step, id: nat)
    requires id in s.rows && LeavesAlone(s, step, id)
    requires !(step.Create? || step.Lease? || step.Renew? || step.SetIncident? || step.Release?)
    ensures id in Apply(s, step).rows && SameSchedule(Apply(s, step).rows[id], s.rows[id])
  {
  }

  lemma {:induction false} RunKeepsSchedule(s: State, steps: seq<Step>, id: nat)
    requires id in s.rows && LeftAlone(s, steps, id)
    ensures id in Run(s, steps).rows && SameSchedule(Run(s, steps).rows[id], s.rows[id])
  {
    if |steps| != 0 {
      var front, last := steps[..|steps| - 1], steps[|steps| - 1];
      RunKeepsSchedule(s, front, id);
      if last.Create? || last.Lease? || last.Renew? || last.SetIncident? || last.Release? {
        WorkerKeepsSchedule(Run(s, front), last, id);
      } else {
        OtherStepKeepsSchedule(Run(s, front), last, id);
      }
    }
  }

  /**
   * From a commit at `now` on, whatever workers do meanwhile: a released row is
   * picked at t if and only if it is enabled and its interval has passed since
   * `now`; a leased one in addition only once the lease has expired.
   */
  lemma NextCheckIsDue(s: State, k: nat, ok: bool, now: int, steps: seq<Step>, t: int)
    requires Reachable(s) && CanCommit(s, k) && LeftAlone(Apply(s, Commit(k, ok, now)), steps, s.claims[k].id)
    ensures var before, later, id := s.rows[s.claims[k].id], Run(Apply(s, Commit(k, ok, now)), steps), s.claims[k].id;
            && id in later.rows && (later.rows[id].leaseOwner.Some? ==> later.rows[id].leaseExpiresAt.Some?)
            && (Leasable(later.rows[id], t) <==>
                  && before.enabled && t >= now + before.intervalSec * 1000
                  && (later.rows[id].leaseOwner.None? || t >= later.rows[id].leaseExpiresAt.value))
  {
    var s', id := Apply(s, Commit(k, ok, now)), s.claims[k].id;
    ReachableScheduled(s);
    StepKeepsInv(s, Commit(k, ok, now));
    StepKeepsScheduled(s, Commit(k, ok, now));
    RunKeepsScheduled(s', steps);
    CommitSetsSchedule(s, k, ok, now);
    RunKeepsSchedule(s', steps, id);
  }

  lemma CommitSetsSchedule(s: State, k: nat, ok: bool, now: int)
    requires CanCommit(s, k)
    ensures var id := s.claims[k].id; var m := Apply(s, Commit(k, ok, now)).rows[id];
            && m.lastCheckedAt == Some(now) && m.runRequestedAt == None
            && m.enabled == s.rows[id].enabled && m.intervalSec == s.rows[id].intervalSec && m.timeoutMs == s.rows[id].timeoutMs
  {
  }

  /** An edit, enabling or "run now" at `now` frees the row for the next sweep, unless its last check is not older. */
  lemma OperatorsMakeDue(s: State, step: Step, id: nat, now: int, t: int)
    requires id in s.rows
    requires step == RunNow(id, now) || step == SetEnabled(id, true, now) || exists thresholds :: step == Edit(id, thresholds, now)
    ensures id in Apply(s, step).rows
    ensures Leasable(Apply(s, step).rows[id], t) <==>
            var m := s.rows[id];
            && (m.enabled || step.SetEnabled?)
            && (m.lastCheckedAt.None? || now > m.lastCheckedAt.value || t >= m.lastCheckedAt.value + m.intervalSec * 1000)
  {
  }

  /** A switched-off monitor is never picked, until it is switched on. */
  lemma DisabledIsNeverDue(s: State, id: nat, now: int, t: int)
    requires id in s.rows
    ensures id in Apply(s, SetEnabled(id, false, now)).rows && !Leasable(Apply(s, SetEnabled(id, false, now)).rows[id], t)
  {
  }

  // ----- while a lease stands -------------------------------------------------

  /** The step neither takes the lease away nor renews it at an earlier time. */
  predicate KeepsLease(s: State, step: Step, id: nat, from: int) {
    match step
    case Edit(i, _, _) => i != id
    case SetEnabled(i, _, _) => i != id
    case RunNow(i, _) => i != id
    case Delete(i) => i != id
    case Release(k) => !(k in s.claims && s.claims[k].id == id && Owns(s.rows, id, s.claims[k].worker))
    case Renew(k, now) => k in s.claims && s.claims[k].id == id && Owns(s.rows, id, s.claims[k].worker) ==> now >= from
    case _ => true
  }

  predicate LeaseKept(s: State, steps: seq<Step>, id: nat, from: int) {
    |steps| == 0 ||
    (LeaseKept(s, steps[..|steps| - 1], id, from) && KeepsLease(Run(s, steps[..|steps| - 1]), steps[|steps| - 1], id, from))
  }

  /** The row is leased for at least twice its timeout, and at least thirty seconds, from `from` on. */
  ghost predicate HeldFrom(s: State, id: nat, from: int) {
    && id in s.rows && s.rows[id].leaseExpiresAt.Some?
    && s.rows[id].leaseExpiresAt.value >= from + Max(30_000, 2 * s.rows[id].timeoutMs)
  }

  /** The lease or its renewal at `from`. */
  predicate Grants(s: State, step: Step, id: nat, from: int) {
    match step
    case Lease(_, i, now) => i == id && now == from && id in s.rows && Leasable(s.rows[id], now)
    case Renew(k, now) => now == from && k in s.claims && s.claims[k].id == id && Owns(s.rows, id, s.claims[k].worker)
    case _ => false
  }

  lemma GrantHolds(s: State, step: Step, id: nat, from: int)
    requires Scheduled(s) && Grants(s, step, id, from)
    ensures HeldFrom(Apply(s, step), id, from) && Apply(s, step).rows[id].timeoutMs == s.rows[id].timeoutMs
  {
  }

  lemma LeaseKeepsHeld(s: State, step: Step, id: nat, from: int)
    requires Scheduled(s) && HeldFrom(s, id, from) && KeepsLease(s, step, id, from)
    requires step.Create? || step.Lease? || step.Renew? || step.Release?
    ensures HeldFrom(Apply(s, step), id, from) && Apply(s, step).rows[id].timeoutMs == s.rows[id].timeoutMs
  {
  }

  lemma OtherStepKeepsHeld(s: State, step: Step, id: nat, from: int)
    requires HeldFrom(s, id, from) && KeepsLease(s, step, id, from)
    requires !(step.Create? || step.Lease? || step.Renew? || step.Release?)
    ensures HeldFrom(Apply(s, step), id, from) && Apply(s, step).rows[id].timeoutMs == s.rows[id].timeoutMs
  {
  }

  lemma {:induction false} RunKeepsHeld(s: State, steps: seq<Step>, id: nat, from: int)
    requires Inv(s) && Scheduled(s) && HeldFrom(s, id, from) && LeaseKept(s, steps, id, from)
    ensures HeldFrom(Run(s, steps), id, from) && Run(s, steps).rows[id].timeoutMs == s.rows[id].timeoutMs
  {
    if |steps| != 0 {
      var front, last := steps[..|steps| - 1], steps[|steps| - 1];
      RunKeepsHeld(s, front, id, from);
      RunKeepsScheduled(s, front);
      if last.Create? || last.Lease? || last.Renew? || last.Release? {
        LeaseKeepsHeld(Run(s, front), last, id, from);
      } else {
        OtherStepKeepsHeld(Run(s, front), last, id, from);
      }
    }
  }

  /**
   * From a lease or renewal at `from` on, as long as the lease is neither
   * released nor taken away and clocks do not fall behind `from`: no sweep picks
   * the row for twice its timeout, and at least for thirty seconds.
   */
  lemma NobodyLeasesEarly(s: State, grant: Step, id: nat, from: int, steps: seq<Step>, t: int)
    requires Reachable(s) && Grants(s, grant, id, from) && LeaseKept(Apply(s, grant), steps, id, from)
    requires id in s.rows && t < from + Max(30_000, 2 * s.rows[id].timeoutMs)
    ensures id in Run(Apply(s, grant), steps).rows && !Leasable(Run(Apply(s, grant), steps).rows[id], t)
  {
    ReachableScheduled(s);
    GrantHolds(s, grant, id, from);
    StepKeepsInv(s, grant);
    StepKeepsScheduled(s, grant);
    RunKeepsHeld(Apply(s, grant), steps, id, from);
  }

  /** Picking a leasable row gives a claim that may commit; picking any other changes nothing. */
  lemma LeaseGivesClaim(s: State, worker: string, id: nat, now: int)
    requires id in s.rows
    ensures if Leasable(s.rows[id], now)
            then CanCommit(Apply(s, Lease(worker, id, now)).(orgActive := true), s.nextClaim)
                 && Apply(s, Lease(worker, id, now)).claims[s.nextClaim].id == id
            else Apply(s, Lease(worker, id, now)) == s
  {
  }

  /** A released row has no owner and no expiry: whoever released it cannot commit any more. */
  lemma ReleaseFrees(s: State, k: nat)
    requires k in s.claims && Owns(s.rows, s.claims[k].id, s.claims[k].worker)
    ensures var m := Apply(s, Release(k)).rows[s.claims[k].id]; m.leaseOwner.None? && m.leaseExpiresAt.None?
    ensures forall j :: CanCommit(Apply(s, Release(k)), j) ==> Apply(s, Release(k)).claims[j].id != s.claims[k].id
  {
  }

  // ----- the incident of a monitor --------------------------------------------

  /** The step is the owner's link to an incident, after its commit. */
  predicate LinksIncident(s: State, step: Step, id: nat) {
    && step.SetIncident? && step.claim in s.claims && s.claims[step.claim].id == id
    && s.claims[step.claim].phase.AfterCommit? && Owns(s.rows, id, s.claims[step.claim].worker)
  }

  lemma WorkerKeepsIncident(s: State, step: Step, id: nat)
    requires id in s.rows && id in Apply(s, step).rows && (step.Lease? || step.Renew? || step.Commit? || step.SetIncident? || step.Release?)
    ensures Apply(s, step).rows[id].currentIncidentId == if LinksIncident(s, step, id) then step.incident else s.rows[id].currentIncidentId
  {
  }

  lemma OtherStepKeepsIncident(s: State, step: Step, id: nat)
    requires id in s.rows && id in Apply(s, step).rows && !(step.Lease? || step.Renew? || step.Commit? || step.SetIncident? || step.Release?)
    ensures Apply(s, step).rows[id].currentIncidentId == s.rows[id].currentIncidentId
  {
  }

  /** A monitor's incident is the one its owner linked last: every other step, also an edit or a lost lease, leaves it. */
  lemma IncidentStays(s: State, step: Step, id: nat)
    requires id in s.rows && id in Apply(s, step).rows
    ensures Apply(s, step).rows[id].currentIncidentId == if LinksIncident(s, step, id) then step.incident else s.rows[id].currentIncidentId
  {
    if step.Lease? || step.Renew? || step.Commit? || step.SetIncident? || step.Release? {
      WorkerKeepsIncident(s, step, id);
    } else {
      OtherStepKeepsIncident(s, step, id);
    }
  }

  // ----- what a commit needs --------------------------------------------------

  /** A result is written exactly if the check is still running, the organization active and the row its worker's; otherwise no table changes. */
  lemma CommitWritesIff(s: State, k: nat, ok: bool, now: int)
    ensures var s' := Apply(s, Commit(k, ok, now));
            if k in s.claims && s.claims[k].phase.Running? && s.orgActive
               && s.claims[k].id in s.rows && s.rows[s.claims[k].id].leaseOwner == Some(s.claims[k].worker)
            then
              var id := s.claims[k].id;
              && s'.rows.Keys == s.rows.Keys && (forall other <- s.rows | other != id :: s'.rows[other] == s.rows[other])
              && id in s'.checks && s'.checks[id] == (if id in s.checks then s.checks[id] else []) + [Check(ok, now)]
            else s'.rows == s.rows && s'.checks == s.checks
  {
  }

  /** A worker that crashes leaves every row as it is, and its claim commits nothing any more. */
  lemma CrashChangesNoRow(s: State, k: nat)
    ensures Apply(s, Crash(k)).rows == s.rows && !CanCommit(Apply(s, Crash(k)), k)
  {
  }

  /** A deleted monitor takes its checks along, and nothing else. */
  lemma DeletionTakesChecks(s: State, id: nat)
    ensures var s' := Apply(s, Delete(id));
            && s'.rows.Keys == s.rows.Keys - {id} && s'.checks.Keys == s.checks.Keys - {id}
            && (forall other <- s'.rows :: s'.rows[other] == s.rows[other])
            && (forall other <- s'.checks :: s'.checks[other] == s.checks[other])
  {
  }
}
