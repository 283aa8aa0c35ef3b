/**
 * What the purge protocol of platform_jobs.dfy guarantees over all runs, and
 * where it gets stuck.
 */
module PurgeProtocol {
  import opened Wrappers
  import opened Cascade
  import opened PlatformJobs

  function SucceededCount(jobs: seq<Job>): nat {
    if |jobs| == 0 then 0 else SucceededCount(jobs[..|jobs| - 1]) + if jobs[|jobs| - 1].status == Succeeded then 1 else 0
  }

  lemma {:induction false} NoneSucceeded(jobs: seq<Job>)
    requires forall j <- jobs :: j.status != Succeeded
    ensures SucceededCount(jobs) == 0
  {
    if |jobs| != 0 { NoneSucceeded(jobs[..|jobs| - 1]); }
  }

  /** Organization row gone, tombstone present and a succeeded job are one and the same event, and there is never a second. */
  lemma PurgedTogether(s: State)
    requires Reachable(s)
    ensures s.org == None <==> s.tombstone.Some?
    ensures s.org == None <==> SucceededCount(s.jobs) == 1
    ensures SucceededCount(s.jobs) <= 1
  {
    ReachableInv(s);
    if |s.jobs| > 0 {
      var older := s.jobs[..|s.jobs| - 1];
      forall j <- older ensures j.status != Succeeded {
        var n :| 0 <= n < |older| && older[n] == j;
        assert s.jobs[n].status == Cancelled;
      }
      NoneSucceeded(older);
    }
  }

  lemma PurgedStays(s: State, step: Step)
    requires Inv(s) && s.org == None
    ensures Apply(s, step).org == None && Apply(s, step).tombstone == s.tombstone && Apply(s, step).jobs == s.jobs
  {
    forall n | 0 <= n < |s.jobs|
      ensures s.jobs[n].status == Cancelled || s.jobs[n].status == Succeeded
      ensures s.jobs[n].leaseOwner == None
    {
      assert s.jobs[n] in s.jobs;
      assert JobOk(s.jobs[n]);
    }
  }

  /** A completed purge is final: nothing any worker or operator does afterwards touches organization, tombstone or jobs. */
  lemma {:induction false} PurgedForever(s: State, steps: seq<Step>)
    requires Inv(s) && s.org == None && LegalRun(s, steps)
    ensures Run(s, steps).org == None && Run(s, steps).tombstone == s.tombstone && Run(s, steps).jobs == s.jobs
  {
    if |steps| != 0 {
      var front := steps[..|steps| - 1];
      PurgedForever(s, front);
      RunKeepsInv(s, front);
      PurgedStays(Run(s, front), steps[|steps| - 1]);
    }
  }

  lemma UncancelledIsNewest(s: State, n: nat)
    requires JobsOk(s) && n < |s.jobs| && s.jobs[n].status != Cancelled
    ensures n == |s.jobs| - 1
  {
  }

  /** Claims exist only on a started job, and only the newest job can be started. */
  lemma UnstartedHasNoClaims(s: State)
    requires Inv(s) && |s.jobs| > 0 && s.jobs[|s.jobs| - 1].startedAt == None
    ensures s.claims == map[]
  {
    forall k ensures k !in s.claims {
      if k in s.claims {
        assert ClaimOk(s, s.claims[k]);
        StartedIsNewest(s, s.claims[k].job);
      }
    }
    assert s.claims.Keys == {};
  }

  lemma UnstartedIsUntouched(s: State, n: nat)
    requires Inv(s) && n < |s.jobs| && CanBeCancelled(s.jobs[n])
    ensures s.purged == {} && s.claims == map[] && n == |s.jobs| - 1 && s.org == Some(OrgStatus.Deleting)
  {
    UncancelledIsNewest(s, n);
    UnstartedHasNoClaims(s);
  }

  /** Whenever the policy allows cancelling, no purge attempt has deleted anything and none is under way. */
  lemma CancellableMeansUntouched(s: State, n: nat)
    requires Reachable(s) && n < |s.jobs| && CanBeCancelled(s.jobs[n])
    ensures s.purged == {} && s.claims == map[] && n == |s.jobs| - 1 && s.org == Some(OrgStatus.Deleting)
  {
    ReachableInv(s);
    UnstartedIsUntouched(s, n);
  }

  /** Among queued jobs the policy singles out exactly those that no worker ever leased. */
  lemma CancellableIffNeverStarted(s: State, n: nat)
    requires Reachable(s) && n < |s.jobs| && s.jobs[n].status == Queued
    ensures CanBeCancelled(s.jobs[n]) <==> s.jobs[n].startedAt == None
  {
    ReachableInv(s);
    assert s.jobs[n] in s.jobs;
    assert JobOk(s.jobs[n]);
  }

  lemma AttemptsWithinLimit(s: State, n: nat)
    requires Reachable(s) && n < |s.jobs|
    ensures 0 <= s.jobs[n].attempts <= s.jobs[n].maxAttempts
  {
    ReachableInv(s);
    assert s.jobs[n] in s.jobs;
    assert JobOk(s.jobs[n]);
  }

  /** Job rows are never lost, and each row's recorded scope only grows. */
  ghost predicate ScopesGrow(s: State, s': State) {
    && |s'.jobs| >= |s.jobs|
    && forall n | 0 <= n < |s.jobs| :: Within(s.jobs[n].purgeScope, s'.jobs[n].purgeScope)
  }

  /** The deletion of the organization, whenever it happens, leaves a tombstone that covers all that was deleted with it. */
  lemma StepGrowsScopes(s: State, step: Step)
    requires Inv(s)
    ensures ScopesGrow(s, Apply(s, step))
    ensures s.org.Some? && Apply(s, step).org == None ==>
              Apply(s, step).tombstone.Some? && Covers(Apply(s, step).tombstone.value, s.content)
  {
    if step.Finalize? && CanFinalize(s, step.claim) {
      FinalizeGrowsScopes(s, step.claim);
    } else {
      OtherStepsKeepScopes(s, step);
    }
  }

  lemma FinalizeGrowsScopes(s: State, k: nat)
    requires Inv(s) && CanFinalize(s, k)
    ensures ScopesGrow(s, AfterFinalize(s, k))
    ensures AfterFinalize(s, k).tombstone.Some? && Covers(AfterFinalize(s, k).tombstone.value, s.content)
  {
    assert ClaimOk(s, s.claims[k]);
    ScopeOnlyGrows(s.claims[k].snapshot.purgeScope, s.content);
  }

  /** What a run had recorded for a job is still recorded for it later, whatever happens in between. */
  lemma {:induction false} ScopesOnlyGrow(s: State, steps: seq<Step>)
    requires Inv(s) && LegalRun(s, steps)
    ensures ScopesGrow(s, Run(s, steps))
  {
    if |steps| != 0 {
      var front := steps[..|steps| - 1];
      ScopesOnlyGrow(s, front);
      RunKeepsInv(s, front);
      StepGrowsScopes(Run(s, front), steps[|steps| - 1]);
      GrowthIsTransitive(s, Run(s, front), Run(s, steps));
    }
  }

  lemma GrowthIsTransitive(a: State, b: State, c: State)
    requires ScopesGrow(a, b) && ScopesGrow(b, c)
    ensures ScopesGrow(a, c)
  {
    forall n | 0 <= n < |a.jobs| ensures Within(a.jobs[n].purgeScope, c.jobs[n].purgeScope) {
      WithinIsTransitive(a.jobs[n].purgeScope, b.jobs[n].purgeScope, c.jobs[n].purgeScope);
    }
  }

  lemma OtherStepsKeepScopes(s: State, step: Step)
    requires !(step.Finalize? && CanFinalize(s, step.claim))
    ensures |Apply(s, step).jobs| >= |s.jobs|
    ensures forall n | 0 <= n < |s.jobs| :: Apply(s, step).jobs[n].purgeScope == s.jobs[n].purgeScope
    ensures s.org.Some? ==> Apply(s, step).org.Some?
  {
  }

  // ----- where the protocol gets stuck ----------------------------------------

  /** All attempts are used up and whoever used the last one is gone. */
  ghost predicate Abandoned(s: State, n: nat) {
    && n < |s.jobs| && s.jobs[n].status == Processing && s.jobs[n].attempts >= s.jobs[n].maxAttempts
    && forall k <- s.claims | s.claims[k].job == n :: s.claims[k].worker != s.jobs[n].leaseOwner.GetOr("")
  }

  /** Nothing but claims that no longer own a job, and no job that anyone could take or change. */
  ghost predicate Stuck(s: State) {
    && s.org == Some(OrgStatus.Deleting) && |s.jobs| > 0 && s.jobs[|s.jobs| - 1].status == Processing
    && (forall k <- s.claims :: !ClaimOwns(s, k))
    && (forall n, now | 0 <= n < |s.jobs| :: !Leasable(s.jobs[n], now))
    && (forall n | 0 <= n < |s.jobs| :: s.jobs[n].status != Failed)
  }

  lemma AbandonedIsStuck(s: State, n: nat)
    requires Inv(s) && Abandoned(s, n)
    ensures Stuck(s) && n == |s.jobs| - 1
  {
    assert s.jobs[n] in s.jobs;
    StartedIsNewest(s, n);
    forall k <- s.claims ensures !ClaimOwns(s, k) {
      assert ClaimOk(s, s.claims[k]);
      StartedIsNewest(s, s.claims[k].job);
      assert JobOk(s.jobs[n]);
    }
  }

  lemma NothingHappens(s: State, step: Step)
    requires Stuck(s)
    ensures Apply(s, step).jobs == s.jobs && Apply(s, step).org == s.org && ClaimsFrom(s, Apply(s, step))
  {
  }

  lemma AbandonedStays(s: State, step: Step, n: nat)
    requires Inv(s) && Abandoned(s, n)
    ensures Abandoned(Apply(s, step), n) && Apply(s, step).jobs[n] == s.jobs[n] && Apply(s, step).org == Some(OrgStatus.Deleting)
  {
    AbandonedIsStuck(s, n);
    NothingHappens(s, step);
  }

  /**
   * After a crash on the last attempt nothing can ever move the job again: it is
   * not leasable, not failed, hence not retryable, and not cancellable.
   */
  lemma {:induction false} AbandonedForever(s: State, steps: seq<Step>, n: nat)
    requires Inv(s) && Abandoned(s, n) && LegalRun(s, steps)
    ensures Abandoned(Run(s, steps), n) && Run(s, steps).jobs[n] == s.jobs[n]
    ensures Run(s, steps).org == Some(OrgStatus.Deleting)
  {
    if |steps| == 0 {
      AbandonedIsStuck(s, n);
    } else {
      var front := steps[..|steps| - 1];
      AbandonedForever(s, front, n);
      RunKeepsInv(s, front);
      AbandonedStays(Run(s, front), steps[|steps| - 1], n);
    }
  }

  /** With attempts left, an abandoned lease only delays: the job is leasable again once the lease has expired. */
  lemma LeasableUnlessExhausted(s: State, n: nat)
    requires Reachable(s) && n < |s.jobs| && s.jobs[n].status == Processing
    ensures (exists now :: Leasable(s.jobs[n], now)) <==> s.jobs[n].attempts < s.jobs[n].maxAttempts
  {
    ReachableInv(s);
    var j := s.jobs[n];
    assert j in s.jobs;
    assert JobOk(j);
    if j.attempts < j.maxAttempts { assert Leasable(j, Max(j.nextAttemptAt, j.leaseExpiresAt.value)); }
  }

  ghost predicate CrashedTimes(s: State, n: nat) {
    && s.claims == map[] && s.nextClaim == n && |s.jobs| == 1 && s.org == Some(OrgStatus.Deleting)
    && s.jobs[0].attempts == n && s.jobs[0].maxAttempts == MAX_ATTEMPTS && s.jobs[0].nextAttemptAt == 0
    && (n == 0 ==> s.jobs[0].status == Queued)
    && (n > 0 ==> s.jobs[0].status == Processing && s.jobs[0].leaseExpiresAt == Some((n + 1) * LEASE_MS))
  }

  lemma CrashOnceMore(s: State, n: nat)
    requires CrashedTimes(s, n) && n < MAX_ATTEMPTS
    ensures var lease := Lease("w", 0, (n + 1) * LEASE_MS);
            Legal(s, lease) && CrashedTimes(Apply(Apply(s, lease), Crash(n)), n + 1)
  {
    var t := Apply(s, Lease("w", 0, (n + 1) * LEASE_MS));
    assert t.claims.Keys == {n};
    assert t.claims - {n} == map[];
  }

  lemma RunTwo(s: State, steps: seq<Step>, a: Step, b: Step)
    ensures Run(s, steps + [a, b]) == Apply(Apply(Run(s, steps), a), b)
    ensures LegalRun(s, steps + [a, b]) <==> LegalRun(s, steps) && Legal(Run(s, steps), a) && Legal(Apply(Run(s, steps), a), b)
  {
    var all := steps + [a, b];
    assert all[..|all| - 1] == steps + [a];
    assert (steps + [a])[..|steps|] == steps;
  }

  lemma RequestedNotCrashed(i: State)
    requires i.org == Some(OrgStatus.Active) && i.jobs == [] && i.claims == map[] && i.nextClaim == 0
    ensures CrashedTimes(Apply(Apply(i, SetSuspended(true)), RequestPurge(0)), 0)
  {
  }

  lemma OneMoreCrash(i: State, before: seq<Step>, n: nat) returns (steps: seq<Step>)
    requires n < MAX_ATTEMPTS && LegalRun(i, before) && CrashedTimes(Run(i, before), n)
    ensures LegalRun(i, steps) && CrashedTimes(Run(i, steps), n + 1)
  {
    steps := before + [Lease("w", 0, (n + 1) * LEASE_MS), Crash(n)];
    RunTwo(i, before, Lease("w", 0, (n + 1) * LEASE_MS), Crash(n));
    CrashOnceMore(Run(i, before), n);
  }

  lemma RequestedRun(i: State) returns (steps: seq<Step>)
    requires i.org == Some(OrgStatus.Active) && i.jobs == [] && i.claims == map[] && i.nextClaim == 0
    ensures LegalRun(i, steps) && CrashedTimes(Run(i, steps), 0)
  {
    RunTwo(i, [], SetSuspended(true), RequestPurge(0));
    RequestedNotCrashed(i);
    steps := [] + [SetSuspended(true), RequestPurge(0)];
  }

  lemma {:induction false} AfterCrashes(i: State, n: nat) returns (steps: seq<Step>)
    requires n <= MAX_ATTEMPTS
    requires i.org == Some(OrgStatus.Active) && i.jobs == [] && i.claims == map[] && i.nextClaim == 0
    ensures LegalRun(i, steps) && CrashedTimes(Run(i, steps), n)
  {
    if n == 0 {
      steps := RequestedRun(i);
    } else {
      var before := AfterCrashes(i, n - 1);
      steps := OneMoreCrash(i, before, n - 1);
    }
  }

  /** The stuck state is reached by five crashing workers. */
  lemma CrashOnLastAttemptAbandons(content: Content, assets: set<string>) returns (steps: seq<Step>)
    ensures LegalRun(Initial(content, assets), steps) && Abandoned(Run(Initial(content, assets), steps), 0)
    ensures Run(Initial(content, assets), steps).claims == map[] && Run(Initial(content, assets), steps).org == Some(OrgStatus.Deleting)
  {
    steps := AfterCrashes(Initial(content, assets), MAX_ATTEMPTS);
  }

  /** A manual retry brings the attempts back to zero but not the start time, which is why the policy has to look at both. */
  lemma RetriedJobIsNotCancellable(s: State, n: nat, now: int)
    requires Reachable(s) && n < |s.jobs| && s.jobs[n].status == Failed
    ensures var j := Apply(s, OperatorRetry(n, now)).jobs[n];
            && j.status == Queued && j.attempts == 0 && j.startedAt.Some?
            && !CanBeCancelled(j) && Apply(s, OperatorRetry(n, now)).purged == s.purged
  {
    ReachableInv(s);
    assert s.jobs[n] in s.jobs;
    assert JobOk(s.jobs[n]);
  }

  // ----- when a job can be leased ---------------------------------------------

  /**
   * A failed attempt at `now`: with attempts left the job is queued and can be
   * leased again exactly from now + 30 s * 2^attempts on, an hour at most; after
   * the last one it is failed and can not be leased any more.
   */
  lemma FailedAttempt(s: State, k: nat, now: int, t: int)
    requires Reachable(s) && ClaimOwns(s, k) && s.claims[k].phase == Failing
    ensures var j := s.jobs[s.claims[k].job]; var j' := Apply(s, Fail(k, now)).jobs[s.claims[k].job];
            && 1 <= j.attempts <= j.maxAttempts && j'.attempts == j.attempts && j'.maxAttempts == j.maxAttempts
            && (j'.status == Failed <==> j.attempts == j.maxAttempts) && (j'.status == Queued <==> j.attempts < j.maxAttempts)
            && (Leasable(j', t) <==> j.attempts < j.maxAttempts && t >= now + Min(3_600_000, 30_000 * Pow2(j.attempts)))
            && k !in Apply(s, Fail(k, now)).claims
  {
    ReachableInv(s);
    var c := s.claims[k];
    assert ClaimOk(s, c);
    assert s.jobs[c.job] in s.jobs;
    assert JobOk(s.jobs[c.job]);
    ProcessingHasAttempts(s, c.job);
  }

  lemma StepKeepsAttempts(s: State, step: Step)
    requires forall j <- s.jobs | j.status == Processing :: j.attempts >= 1
    requires forall j <- s.jobs :: j.attempts >= 0
    ensures forall j <- Apply(s, step).jobs | j.status == Processing :: j.attempts >= 1
    ensures forall j <- Apply(s, step).jobs :: j.attempts >= 0
  {
    var jobs := Apply(s, step).jobs;
    forall n | 0 <= n < |jobs| ensures jobs[n].attempts >= 0 && (jobs[n].status == Processing ==> jobs[n].attempts >= 1) {
      if n < |s.jobs| { assert s.jobs[n] in s.jobs; }
    }
  }

  lemma {:induction false} RunKeepsAttempts(s: State, steps: seq<Step>)
    requires s.jobs == []
    ensures forall j <- Run(s, steps).jobs | j.status == Processing :: j.attempts >= 1
    ensures forall j <- Run(s, steps).jobs :: j.attempts >= 0
  {
    if |steps| != 0 {
      RunKeepsAttempts(s, steps[..|steps| - 1]);
      StepKeepsAttempts(Run(s, steps[..|steps| - 1]), steps[|steps| - 1]);
    }
  }

  lemma ProcessingHasAttempts(s: State, n: nat)
    requires Reachable(s) && n < |s.jobs| && s.jobs[n].status == Processing
    ensures s.jobs[n].attempts >= 1
  {
    var content, assets, steps :| LegalRun(Initial(content, assets), steps) && s == Run(Initial(content, assets), steps);
    RunKeepsAttempts(Initial(content, assets), steps);
    assert s.jobs[n] in s.jobs;
  }

  /** A lease or renewal at `now` keeps everybody out for five minutes; if its worker dies, and attempts are left, no longer. */
  lemma LeaseLastsFiveMinutes(s: State, step: Step, n: nat, now: int, t: int)
    requires Reachable(s) && n < |s.jobs|
    requires || (exists worker :: step == Lease(worker, n, now) && Leasable(s.jobs[n], now))
             || (exists k :: step == Renew(k, now) && ClaimOwns(s, k) && s.claims[k].job == n)
             || (exists k :: step == BeforeFinalize(k, now) && ClaimOwns(s, k) && s.claims[k].job == n && s.claims[k].phase == Phase.Deleting)
    ensures var j := Apply(s, step).jobs[n];
            && j.status == Processing && j.attempts == s.jobs[n].attempts + (if step.Lease? then 1 else 0)
            && (Leasable(j, t) <==> j.attempts < j.maxAttempts && t >= now + 300_000 && t >= s.jobs[n].nextAttemptAt)
  {
  }

  /** A requested purge can be leased from now on, has five attempts and starts from the organization's pages. */
  lemma RequestedJobIsDue(s: State, now: int, t: int)
    requires s.org == Some(Suspended)
    ensures var s' := Apply(s, RequestPurge(now)); var j := s'.jobs[|s.jobs|];
            && s'.org == Some(OrgStatus.Deleting) && |s'.jobs| == |s.jobs| + 1 && j.purgeScope.pageIds == s.content.pages
            && j.attempts == 0 && j.maxAttempts == 5 && CanBeCancelled(j) && (Leasable(j, t) <==> t >= now)
  {
  }

  /** Cancelling takes the request back: the organization is suspended as before and the job can never be leased. */
  lemma CancelTakesBack(s: State, t: int)
    requires Reachable(s) && s.org == Some(OrgStatus.Deleting) && |s.jobs| > 0 && CanBeCancelled(s.jobs[|s.jobs| - 1])
    ensures var s' := Apply(s, CancelPurge);
            && s'.org == Some(Suspended) && s'.content == s.content && s'.assets == s.assets && |s'.jobs| == |s.jobs|
            && s'.jobs[|s.jobs| - 1].status == Cancelled && !Leasable(s'.jobs[|s.jobs| - 1], t)
  {
  }

  /** A retried job can be leased from now on, with all its attempts. */
  lemma RetriedJobIsDue(s: State, n: nat, now: int, t: int)
    requires Reachable(s) && n < |s.jobs| && s.jobs[n].status == Failed
    ensures var j := Apply(s, OperatorRetry(n, now)).jobs[n];
            j.status == Queued && j.attempts == 0 && j.maxAttempts == s.jobs[n].maxAttempts && (Leasable(j, t) <==> t >= now)
  {
    ReachableInv(s);
    assert s.jobs[n] in s.jobs;
    assert JobOk(s.jobs[n]);
  }

  /**
   * Apart from what an organization does itself, which it can only while it is
   * active, a blob goes exactly by the deletion of that key by a worker that still
   * deletes, and is then counted as purged; none comes back.
   */
  lemma BlobGoesIff(s: State, step: Step, key: string)
    requires step.ChangeContent? ==> s.org != Some(OrgStatus.Active)
    ensures var s' := Apply(s, step);
            && (key in s'.assets <==> key in s.assets && !(exists k <- s.claims :: s.claims[k].phase == Phase.Deleting && step == DeleteAsset(k, key)))
            && (key in s'.purged <==> key in s.purged || (key in s.assets && key !in s'.assets))
  {
  }

  /**
   * The finalizing transaction of a worker that still holds its job removes the
   * organization, leaves a tombstone unless there is one, and completes the job, which
   * records everything found; the worker is done.  Otherwise it writes nothing, and
   * the worker goes on to record a failure.
   */
  lemma FinalizeOutcome(s: State, k: nat)
    requires k in s.claims && s.claims[k].phase == Finalizing && s.claims[k].job < |s.jobs|
    ensures var s', c := Apply(s, Finalize(k)), s.claims[k]; var j := s.jobs[c.job];
            && s'.content == s.content && s'.assets == s.assets
            && if s.org.Some? && j.status == Processing && j.leaseOwner == Some(c.worker) then
                 && s'.org == None && s'.tombstone.Some? && (s.tombstone.Some? ==> s'.tombstone == s.tombstone)
                 && s'.jobs[c.job].status == Succeeded && s'.jobs[c.job].leaseOwner == None && s'.jobs[c.job].attempts == j.attempts
                 && (s.tombstone.None? ==> s'.tombstone == Some(s'.jobs[c.job].purgeScope))
                 && (forall i | 0 <= i < |s.jobs| && i != c.job :: s'.jobs[i] == s.jobs[i])
                 && s'.claims == s.claims - {k}
               else
                 s'.org == s.org && s'.tombstone == s.tombstone && s'.jobs == s.jobs && k in s'.claims && s'.claims[k].phase == Failing
  {
  }

  /** An error at any point makes the worker record a failure next, and changes no row. */
  lemma ErrorsAreRecorded(s: State, k: nat)
    requires k in s.claims
    ensures Apply(s, Throw(k)) == s.(claims := s.claims[k := s.claims[k].(phase := Failing)])
  {
  }

  /** The check before finalizing lets only the owner through; everybody else records a failure. */
  lemma OnlyOwnersFinalize(s: State, k: nat, now: int)
    requires k in s.claims && s.claims[k].phase == Phase.Deleting && s.claims[k].job < |s.jobs|
    ensures var s', j := Apply(s, BeforeFinalize(k, now)), s.jobs[s.claims[k].job];
            && k in s'.claims
            && s'.claims[k].phase == (if j.status == Processing && j.leaseOwner == Some(s.claims[k].worker) then Finalizing else Failing)
            && s'.assets == s.assets && s'.org == s.org
  {
  }
}
