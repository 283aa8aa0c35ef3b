/**
 * What a delivery attempt, a suspension or an operator makes of a notification
 * job (worker/notifications.ts): which state it ends in and from when on it can
 * be leased again.
 */
module NotificationOutcomes {
  import opened Wrappers
  import opened Notifications

  // ----- one committed outcome ------------------------------------------------

  /** The delivery failed for good: permanently, or on the last attempt the job has. */
  predicate FailsForGood(j: Job, d: Delivery) { d.Failed? && (d.transient ==> j.attempts + 1 == j.maxAttempts) }

  lemma ClaimIsCurrent(s: State, k: nat)
    requires Reachable(s) && CanCommit(s, k)
    ensures var j, c := s.jobs[s.claims[k].key], s.claims[k];
            && 0 <= j.attempts < j.maxAttempts && c.snapshot.attempts == j.attempts && c.snapshot.maxAttempts == j.maxAttempts
  {
    ReachableInv(s);
    var c := s.claims[k];
    assert Fresh(s.jobs, c);
    assert JobOk(s.jobs[c.key], LogsOf(s.logs, c.key), RetriedAt(s, c.key));
  }

  /**
   * In every reachable state a commit ends in SENT exactly if the delivery
   * succeeded, in DEAD_LETTER exactly if it failed permanently or on the last
   * attempt, and otherwise in PENDING, one attempt further and leasable again
   * exactly from now + 2^attempt seconds (at most 2^10) + jitter on.
   */
  lemma CommitOutcome(s: State, k: nat, d: Delivery, now: int, t: int)
    requires Reachable(s) && CanCommit(s, k)
    ensures var s', key := Apply(s, Commit(k, d, now)), s.claims[k].key;
            var j, j' := s.jobs[key], s'.jobs[key];
            && 0 <= j.attempts < j.maxAttempts
            && s'.jobs.Keys == s.jobs.Keys && (forall other <- s.jobs | other != key :: s'.jobs[other] == s.jobs[other])
            && (j'.status == Sent <==> d.Delivered?)
            && (j'.status == DeadLetter <==> FailsForGood(j, d))
            && (d.Failed? && !FailsForGood(j, d) ==> j'.status == Pending)
            && (d.Delivered? || j'.status == Pending ==> j'.attempts == j.attempts + 1)
            && (Leasable(j', t) <==> j'.status == Pending && t >= now + 1000 * Pow2(Min(j.attempts + 1, 10)) + d.jitterMs)
            && LogsOf(s'.logs, key) == LogsOf(s.logs, key) + [LogRow(d.Delivered?, j.attempts + 1)]
            && k !in s'.claims
  {
    ClaimIsCurrent(s, k);
    Pow2Bound(Min(s.jobs[s.claims[k].key].attempts + 1, 10));
  }

  /** An outcome is written exactly if the organization is active and the job in delivery by this worker; otherwise the worker is left to block it. */
  lemma CommitWritesIff(s: State, k: nat, d: Delivery, now: int)
    requires k in s.claims && s.claims[k].phase == Delivering && s.claims[k].key in s.jobs
    ensures var s', j := Apply(s, Commit(k, d, now)), s.jobs[s.claims[k].key];
            if s.orgActive && j.status == Processing && j.leaseOwner == Some(s.claims[k].worker)
            then |LogsOf(s'.logs, s.claims[k].key)| == |LogsOf(s.logs, s.claims[k].key)| + 1 && k !in s'.claims
            else s'.jobs == s.jobs && s'.logs == s.logs && k in s'.claims && s'.claims[k].phase == MustBlock
  {
  }

  // ----- transient failures ---------------------------------------------------

  /** No permanent failure is committed for the job. */
  predicate OnlyTransient(s: State, steps: seq<Step>, key: string) {
    |steps| == 0 ||
    var before, last := Run(s, steps[..|steps| - 1]), steps[|steps| - 1];
    && OnlyTransient(s, steps[..|steps| - 1], key)
    && (last.Commit? && CanCommit(before, last.claim) && before.claims[last.claim].key == key && last.delivery.Failed? ==> last.delivery.transient)
  }

  /** A dead letter has as many log rows since its last retry as a job has attempts. */
  ghost predicate TriedOften(s: State, key: string) {
    key in s.jobs ==>
      && s.jobs[key].maxAttempts == 8
      && (s.jobs[key].status == DeadLetter ==> |LogsOf(s.logs, key)| - RetriedAt(s, key) == 8)
  }

  lemma TransientCommit(s: State, k: nat, d: Delivery, now: int, key: string)
    requires Inv(s) && TriedOften(s, key)
    requires CanCommit(s, k) && s.claims[k].key == key && d.Failed? ==> d.transient
    ensures TriedOften(Apply(s, Commit(k, d, now)), key)
  {
    if CanCommit(s, k) && s.claims[k].key == key {
      assert Fresh(s.jobs, s.claims[k]);
      assert JobOk(s.jobs[key], LogsOf(s.logs, key), RetriedAt(s, key));
    }
  }

  lemma WorkersKeepTries(s: State, step: Step, key: string)
    requires TriedOften(s, key) && (step.Lease? || step.Renew? || step.Block? || step.Crash?)
    ensures TriedOften(Apply(s, step), key)
  {
  }

  lemma OperatorsKeepTries(s: State, step: Step, key: string)
    requires TriedOften(s, key) && (step.Suspend? || step.Reactivate? || step.OperatorRetry? || step.Retention?)
    ensures TriedOften(Apply(s, step), key)
  {
  }

  lemma DispatchKeepsTries(s: State, keys: seq<string>, now: int, key: string)
    requires Inv(s) && TriedOften(s, key)
    ensures TriedOften(Apply(s, Dispatch(keys, now)), key)
  {
    InsertAllAddsMissing(s.jobs, keys, now);
  }

  lemma {:induction false} TransientRun(steps: seq<Step>, key: string)
    requires LegalRun(INIT, steps) && OnlyTransient(INIT, steps, key)
    ensures TriedOften(Run(INIT, steps), key)
  {
    if |steps| != 0 {
      var front, last := steps[..|steps| - 1], steps[|steps| - 1];
      TransientRun(front, key);
      RunKeepsInv(front);
      var s := Run(INIT, front);
      if last.Commit? {
        TransientCommit(s, last.claim, last.delivery, last.now, key);
      } else if last.Dispatch? {
        DispatchKeepsTries(s, last.keys, last.now, key);
      } else if last.Lease? || last.Renew? || last.Block? || last.Crash? {
        WorkersKeepTries(s, last, key);
      } else {
        OperatorsKeepTries(s, last, key);
      }
    }
  }

  /** Over any run: a job that only ever fails transiently is given all eight deliveries before it is dead-lettered. */
  lemma TransientFailuresGetAllAttempts(steps: seq<Step>, key: string)
    requires LegalRun(INIT, steps) && OnlyTransient(INIT, steps, key)
    ensures var s := Run(INIT, steps);
            key in s.jobs && s.jobs[key].status == DeadLetter ==> |LogsOf(s.logs, key)| - RetriedAt(s, key) == 8
  {
    TransientRun(steps, key);
  }

  // ----- leases ---------------------------------------------------------------

  /** A lease or renewal at `now` keeps everybody out for thirty seconds, and if its worker dies, no longer. */
  lemma LeaseLastsThirtySeconds(s: State, step: Step, key: string, now: int, t: int)
    requires Reachable(s) && key in s.jobs
    requires || (exists worker :: step == Lease(worker, key, now) && Leasable(s.jobs[key], now))
             || (exists k :: k in s.claims && step == Renew(k, now) && s.claims[k].key == key && OwnsProcessing(s.jobs, key, s.claims[k].worker))
    ensures var j := Apply(s, step).jobs[key];
            && j.status == Processing && j.attempts == s.jobs[key].attempts
            && (Leasable(j, t) <==> t >= now + 30_000 && t >= s.jobs[key].nextAttemptAt)
  {
    ReachableInv(s);
    assert JobOk(s.jobs[key], LogsOf(s.logs, key), RetriedAt(s, key));
  }

  /** Leasing gives a claim that may commit as long as the organization is active. */
  lemma LeaseGivesClaim(s: State, worker: string, key: string, now: int)
    requires key in s.jobs && Leasable(s.jobs[key], now) && s.orgActive
    ensures CanCommit(Apply(s, Lease(worker, key, now)), s.nextClaim) && Apply(s, Lease(worker, key, now)).claims[s.nextClaim].key == key
  {
  }

  // ----- new, retried and suspended jobs --------------------------------------

  /** A dispatched key that is new is a job that can be leased from now on, with eight attempts. */
  lemma NewJobsAreDue(s: State, keys: seq<string>, now: int, key: string, t: int)
    requires key in keys && key !in s.jobs
    ensures var j := Apply(s, Dispatch(keys, now)).jobs;
            key in j && j[key].attempts == 0 && j[key].maxAttempts == 8 && (Leasable(j[key], t) <==> t >= now)
  {
    InsertAllAddsMissing(s.jobs, keys, now);
  }

  /** A retried dead letter can be leased from now on, with all its attempts. */
  lemma RetriedJobsAreDue(s: State, key: string, now: int, t: int)
    requires Reachable(s) && key in s.jobs && s.jobs[key].status == DeadLetter
    ensures var j := Apply(s, OperatorRetry(key, now)).jobs[key];
            j.attempts == 0 && j.maxAttempts == s.jobs[key].maxAttempts && (Leasable(j, t) <==> t >= now)
  {
    ReachableInv(s);
    assert JobOk(s.jobs[key], LogsOf(s.logs, key), RetriedAt(s, key));
  }

  /** While the organization is suspended none of its jobs can be leased. */
  lemma SuspensionStops(s: State, key: string, t: int)
    requires s.orgActive && key in s.jobs
    ensures key in Apply(s, Suspend).jobs && !Leasable(Apply(s, Suspend).jobs[key], t)
  {
  }

  /**
   * A suspension and the reactivation at `now` that ends it: exactly the jobs
   * that were waiting or in delivery can be leased again, from now on and with
   * the attempts they had; all others are as they were.
   */
  lemma SuspensionRoundTrip(s: State, key: string, now: int, t: int)
    requires Reachable(s) && s.orgActive && key in s.jobs
    ensures var j, j' := s.jobs[key], Apply(Apply(s, Suspend), Reactivate(now)).jobs[key];
            if j.status == Pending || j.status == Processing
            then j'.status == Pending && j'.attempts == j.attempts && j'.maxAttempts == j.maxAttempts && (Leasable(j', t) <==> t >= now)
            else j' == j
  {
    ReachableInv(s);
    assert JobOk(s.jobs[key], LogsOf(s.logs, key), RetriedAt(s, key));
  }

  /** A worker that finds the organization inactive takes its own job out of the queue and no other. */
  lemma BlockingStops(s: State, k: nat, t: int)
    requires k in s.claims && Owns(s.jobs, s.claims[k].key, s.claims[k].worker)
    ensures var s', key := Apply(s, Block(k)), s.claims[k].key;
            && s'.jobs.Keys == s.jobs.Keys && (forall other <- s.jobs | other != key :: s'.jobs[other] == s.jobs[other])
            && s'.jobs[key].status == Blocked && s'.jobs[key].attempts == s.jobs[key].attempts && !Leasable(s'.jobs[key], t)
  {
  }

  // ----- hard bounces ---------------------------------------------------------

  /** Exactly the subscriber the job was for, on the job's page, is quarantined, and only by a refused recipient. */
  lemma QuarantineIff(subscribers: map<string, Subscriber>, pageId: string, subscriberId: Option<string>, d: Delivery, id: string)
    requires id in subscribers && !subscribers[id].quarantined
    ensures Quarantined(subscribers, pageId, subscriberId, d).Keys == subscribers.Keys
    ensures Quarantined(subscribers, pageId, subscriberId, d)[id].quarantined <==>
            d.Failed? && d.recipientRejected && subscriberId == Some(id) && subscribers[id].pageId == pageId
    ensures Quarantined(subscribers, pageId, subscriberId, d)[id].pageId == subscribers[id].pageId
  {
  }
}
