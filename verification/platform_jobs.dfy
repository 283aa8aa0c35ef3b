/**
 * The organization purge protocol: the job row and its workers
 * (worker/platform-jobs.ts), the deletion they drive (lib/cascade.ts), the
 * cancellation policy (lib/platform-job-policy.ts), and the operator actions
 * that create, cancel and retry the job.
 */
module PlatformJobs {
  import opened Wrappers
  import opened Cascade

  // ===== the job row ==========================================================

  datatype JobStatus = Queued | Processing | Succeeded | Failed | Cancelled

  datatype Job = Job(
    status: JobStatus, attempts: int, maxAttempts: int, nextAttemptAt: int,
    leaseOwner: Option<string>, leaseExpiresAt: Option<int>, startedAt: Option<int>, purgeScope: Scope)

  const LEASE_MS: int := 300_000
  const NEVER: int := 253_402_300_799_999
  const MAX_ATTEMPTS: int := 5

  predicate CanBeCancelled(j: Job) { j.status == Queued && j.attempts == 0 && j.startedAt == None }

  predicate Leasable(j: Job, now: int) {
    && j.attempts < j.maxAttempts && j.nextAttemptAt <= now
    && (|| j.status == Queued || j.status == Failed
        || (j.status == Processing && j.leaseExpiresAt.Some? && j.leaseExpiresAt.value <= now))
  }

  function LeasedJob(j: Job, worker: string, now: int): Job {
    j.(status := Processing, leaseOwner := Some(worker), leaseExpiresAt := Some(now + LEASE_MS),
       startedAt := Some(now), attempts := j.attempts + 1)
  }

  predicate Owns(j: Job, worker: string) { j.status == Processing && j.leaseOwner == Some(worker) }

  function RetryDelayMs(attempts: int): int { Min(3_600_000, 30_000 * Pow2(Max(0, attempts))) }

  function FailedJob(j: Job, snapshot: Job, now: int): Job {
    var terminal := snapshot.attempts >= snapshot.maxAttempts;
    j.(status := if terminal then Failed else Queued, leaseOwner := None, leaseExpiresAt := None,
       nextAttemptAt := if terminal then NEVER else now + RetryDelayMs(snapshot.attempts))
  }

  function SucceededJob(j: Job, scope: Scope): Job {
    j.(status := Succeeded, leaseOwner := None, leaseExpiresAt := None, purgeScope := scope)
  }

  function NewJob(pages: seq<string>, now: int): Job {
    Job(Queued, 0, MAX_ATTEMPTS, now, None, None, None, EMPTY_SCOPE.(pageIds := pages))
  }

  // ===== the tables of one organization =======================================

  datatype OrgStatus = Active | Suspended | Deleting

  class PurgeTables {
    var org: Option<OrgStatus>
    var content: Content
    var assets: set<string>
    var tombstone: Option<Scope>
    var jobs: seq<Job>

    constructor (content: Content, assets: set<string>)
      ensures org == Some(Active) && this.content == content && this.assets == assets && tombstone == None && jobs == []
    {
      org, this.content, this.assets, tombstone, jobs := Some(Active), content, assets, None, [];
    }

    /** `candidate` is the locking query's answer. */
    method LeasePlatformJob(worker: string, now: int, candidate: Option<nat>) returns (job: Option<Job>)
      requires candidate.Some? ==> candidate.value < |jobs| && Leasable(jobs[candidate.value], now)
      modifies this`jobs
      ensures candidate.None? ==> job == None && jobs == old(jobs)
      ensures candidate.Some? ==>
                && job == Some(LeasedJob(old(jobs)[candidate.value], worker, now))
                && jobs == old(jobs)[candidate.value := job.value]
    {
      if candidate.None? { return None; }
      var j := jobs[candidate.value];
      jobs := jobs[candidate.value := j.(status := Processing, leaseOwner := Some(worker), leaseExpiresAt := Some(now + LEASE_MS),
                                         startedAt := Some(now), attempts := j.attempts + 1)];
      job := Some(jobs[candidate.value]);
    }

    method RenewPlatformJobLease(n: nat, worker: string, now: int) returns (renewed: bool)
      requires n < |jobs|
      modifies this`jobs
      ensures renewed == Owns(old(jobs)[n], worker)
      ensures jobs == if renewed then old(jobs)[n := old(jobs)[n].(leaseExpiresAt := Some(now + LEASE_MS))] else old(jobs)
    {
      renewed := Owns(jobs[n], worker);
      if renewed { jobs := jobs[n := jobs[n].(leaseExpiresAt := Some(now + LEASE_MS))]; }
    }

    /** Deletes the blobs one by one, outside any transaction and without looking at the lease. */
    method DeleteRecordedAssets(keys: seq<string>)
      modifies this`assets
      ensures assets == old(assets) - (set k <- keys)
    {
      for i := 0 to |keys|
        invariant assets == old(assets) - (set k <- keys[..i])
      {
        assert keys[..i + 1] == keys[..i] + [keys[i]];
        assets := assets - {keys[i]};
      }
      assert keys[..|keys|] == keys;
    }

    /** The first part of the finalizing transaction: what is found now joins what was recorded. */
    method DiscoverScope(snapshot: Job) returns (scope: Scope)
      ensures scope == ScopeAfter(Stored(snapshot.purgeScope), content)
    {
      scope := NormalizeScope(Stored(snapshot.purgeScope));
      scope := scope.(pageIds := MergeIds(scope.pageIds, content.pages));
      if |scope.pageIds| != 0 {
        scope := scope.(componentIds := MergeIds(scope.componentIds, IdsOn(content.components, scope.pageIds)),
                        incidentIds := MergeIds(scope.incidentIds, IdsOn(content.incidents, scope.pageIds)),
                        metricIds := MergeIds(scope.metricIds, IdsOn(content.metrics, scope.pageIds)),
                        monitorIds := MergeIds(scope.monitorIds, IdsOn(content.monitors, scope.pageIds)));
      }
    }

    /** The finalizing transaction: all of it or, on an error, nothing. */
    method FinalizePurge(n: nat, snapshot: Job, worker: string) returns (r: Result<Scope, string>)
      requires n < |jobs|
      modifies this`org, this`tombstone, this`jobs
      ensures r.Ok? <==> old(org).Some? && Owns(old(jobs)[n], worker)
      ensures r.Ok? ==>
                && r.value == ScopeAfter(Stored(snapshot.purgeScope), content)
                && org == None
                && tombstone == Some(old(tombstone).GetOr(r.value))
                && jobs == old(jobs)[n := SucceededJob(old(jobs)[n], r.value)]
      ensures r.Err? ==> org == old(org) && tombstone == old(tombstone) && jobs == old(jobs)
    {
      if org.None? { return Err("Organization no longer exists"); }
      var scope := DiscoverScope(snapshot);
      if !Owns(jobs[n], worker) { return Err("Platform purge job lease is no longer owned by this worker"); }
      jobs := jobs[n := jobs[n].(purgeScope := scope)];
      org := None;
      if tombstone.None? { tombstone := Some(scope); }
      jobs := jobs[n := jobs[n].(status := Succeeded, leaseOwner := None, leaseExpiresAt := None)];
      r := Ok(scope);
    }

    method FailPurge(n: nat, snapshot: Job, worker: string, now: int)
      requires n < |jobs|
      modifies this`jobs
      ensures jobs == if Owns(old(jobs)[n], worker) then old(jobs)[n := FailedJob(old(jobs)[n], snapshot, now)] else old(jobs)
    {
      if Owns(jobs[n], worker) { jobs := jobs[n := FailedJob(jobs[n], snapshot, now)]; }
    }
  }

  // ===== every interleaving ===================================================

  datatype Phase = Deleting | Finalizing | Failing

  datatype Claim = Claim(worker: string, job: nat, snapshot: Job, phase: Phase)

  /** `purged` are the assets that some purge attempt has deleted. */
  datatype State = State(
    org: Option<OrgStatus>, content: Content, assets: set<string>, purged: set<string>, tombstone: Option<Scope>,
    jobs: seq<Job>, claims: map<nat, Claim>, nextClaim: nat)

  datatype Step =
    | ChangeContent(content: Content, assets: set<string>)
    | SetSuspended(suspended: bool)
    | RequestPurge(now: int)
    | CancelPurge
    | OperatorRetry(job: nat, now: int)
    | Lease(worker: string, job: nat, now: int)
    | Renew(claim: nat, now: int)
    | DeleteAsset(claim: nat, key: string)
    | BeforeFinalize(claim: nat, now: int)
    | Finalize(claim: nat)
    | Throw(claim: nat)
    | Fail(claim: nat, now: int)
    | Crash(claim: nat)

  function Initial(content: Content, assets: set<string>): State {
    State(Some(Active), content, assets, {}, None, [], map[], 0)
  }

  predicate ClaimOwns(s: State, k: nat) {
    k in s.claims && s.claims[k].job < |s.jobs| && Owns(s.jobs[s.claims[k].job], s.claims[k].worker)
  }

  predicate CanFinalize(s: State, k: nat) {
    ClaimOwns(s, k) && s.claims[k].phase == Finalizing && s.org.Some?
  }

  function InPhase(s: State, k: nat, phase: Phase): State
    requires k in s.claims
  {
    s.(claims := s.claims[k := s.claims[k].(phase := phase)])
  }

  function AfterFinalize(s: State, k: nat): State
    requires CanFinalize(s, k)
  {
    var c := s.claims[k];
    var scope := ScopeAfter(Stored(c.snapshot.purgeScope), s.content);
    s.(org := None, tombstone := Some(s.tombstone.GetOr(scope)),
       jobs := s.jobs[c.job := SucceededJob(s.jobs[c.job], scope)], claims := s.claims - {k})
  }

  function Apply(s: State, step: Step): State {
    match step
    case ChangeContent(content, assets) => if s.org == Some(Active) then s.(content := content, assets := assets) else s
    case SetSuspended(suspended) =>
      if s.org == Some(OrgStatus.Active) && suspended then s.(org := Some(Suspended))
      else if s.org == Some(Suspended) && !suspended then s.(org := Some(Active))
      else s
    case RequestPurge(now) =>
      if s.org == Some(Suspended)
      then s.(org := Some(OrgStatus.Deleting), jobs := s.jobs + [NewJob(s.content.pages, now)])
      else s
    case CancelPurge =>
      if s.org == Some(OrgStatus.Deleting) && |s.jobs| > 0 && CanBeCancelled(s.jobs[|s.jobs| - 1])
      then s.(org := Some(Suspended), jobs := s.jobs[|s.jobs| - 1 := s.jobs[|s.jobs| - 1].(status := Cancelled, leaseOwner := None, leaseExpiresAt := None)])
      else s
    case OperatorRetry(n, now) =>
      if n < |s.jobs| && s.jobs[n].status == Failed && s.jobs[n].attempts >= s.jobs[n].maxAttempts
      then s.(jobs := s.jobs[n := s.jobs[n].(status := Queued, attempts := 0, nextAttemptAt := now, leaseOwner := None, leaseExpiresAt := None)])
      else s
    case Lease(worker, n, now) =>
      if n < |s.jobs| && Leasable(s.jobs[n], now)
      then var j := LeasedJob(s.jobs[n], worker, now);
           s.(jobs := s.jobs[n := j], claims := s.claims[s.nextClaim := Claim(worker, n, j, Phase.Deleting)], nextClaim := s.nextClaim + 1)
      else s
    case Renew(k, now) =>
      if ClaimOwns(s, k)
      then s.(jobs := s.jobs[s.claims[k].job := s.jobs[s.claims[k].job].(leaseExpiresAt := Some(now + LEASE_MS))])
      else s
    case DeleteAsset(k, key) =>
      if k in s.claims && s.claims[k].phase == Phase.Deleting && key in s.assets
      then s.(assets := s.assets - {key}, purged := s.purged + {key})
      else s
    case BeforeFinalize(k, now) =>
      if k !in s.claims || s.claims[k].phase != Phase.Deleting then s
      else if !ClaimOwns(s, k) then InPhase(s, k, Failing)
      else InPhase(s.(jobs := s.jobs[s.claims[k].job := s.jobs[s.claims[k].job].(leaseExpiresAt := Some(now + LEASE_MS))]), k, Finalizing)
    case Finalize(k) =>
      if k !in s.claims || s.claims[k].phase != Finalizing then s
      else if CanFinalize(s, k) then AfterFinalize(s, k)
      else InPhase(s, k, Failing)
    case Throw(k) => if k in s.claims then InPhase(s, k, Failing) else s
    case Fail(k, now) =>
      if k !in s.claims || s.claims[k].phase != Failing then s
      else
        var c := s.claims[k];
        var s' := s.(claims := s.claims - {k});
        if ClaimOwns(s, k) then s'.(jobs := s.jobs[c.job := FailedJob(s.jobs[c.job], c.snapshot, now)]) else s'
    case Crash(k) => s.(claims := s.claims - {k})
  }

  function Run(s: State, steps: seq<Step>): State {
    if |steps| == 0 then s else Apply(Run(s, steps[..|steps| - 1]), steps[|steps| - 1])
  }

  /** A worker id that is still working on a job does not lease it again: one drain loop handles one job at a time. */
  predicate Legal(s: State, step: Step) {
    step.Lease? ==> forall k <- s.claims :: !(s.claims[k].worker == step.worker && s.claims[k].job == step.job)
  }

  predicate LegalRun(s: State, steps: seq<Step>) {
    |steps| == 0 || (LegalRun(s, steps[..|steps| - 1]) && Legal(Run(s, steps[..|steps| - 1]), steps[|steps| - 1]))
  }

  // ----- the invariant --------------------------------------------------------

  ghost predicate JobOk(j: Job) {
    && (j.leaseOwner.Some? <==> j.status == Processing)
    && (j.leaseExpiresAt.Some? <==> j.status == Processing)
    && 0 <= j.attempts <= j.maxAttempts && j.maxAttempts > 0
    && (j.status == Queued ==> j.attempts < j.maxAttempts)
    && (j.status == Failed ==> j.attempts == j.maxAttempts)
    && (j.startedAt.None? ==> j.attempts == 0 && (j.status == Queued || j.status == Cancelled))
    && (j.status == Cancelled ==> j.startedAt.None?)
  }

  /** Only the newest job can be anything but cancelled, and its status says where the organization is. */
  ghost predicate JobsOk(s: State) {
    && (forall j <- s.jobs :: JobOk(j))
    && (forall n | 0 <= n < |s.jobs| - 1 :: s.jobs[n].status == Cancelled)
    && (s.org == Some(OrgStatus.Deleting) <==>
          |s.jobs| > 0 && var last := s.jobs[|s.jobs| - 1]; last.status == Queued || last.status == Processing || last.status == Failed)
    && (s.org == None <==> |s.jobs| > 0 && s.jobs[|s.jobs| - 1].status == Succeeded)
    && (s.tombstone.Some? <==> s.org == None)
    && (s.purged != {} ==> |s.jobs| > 0 && s.jobs[|s.jobs| - 1].startedAt.Some?)
  }

  ghost predicate ClaimOk(s: State, c: Claim) {
    && c.job < |s.jobs| && s.jobs[c.job].startedAt.Some?
    && c.snapshot.maxAttempts == s.jobs[c.job].maxAttempts
    && (Owns(s.jobs[c.job], c.worker) ==> c.snapshot.attempts == s.jobs[c.job].attempts)
    && (s.jobs[c.job].status != Succeeded ==> c.snapshot.purgeScope == s.jobs[c.job].purgeScope)
  }

  ghost predicate ClaimsOk(s: State) {
    && (forall k <- s.claims :: k < s.nextClaim && ClaimOk(s, s.claims[k]))
    && (forall j, k | j in s.claims && k in s.claims && s.claims[j].worker == s.claims[k].worker && s.claims[j].job == s.claims[k].job :: j == k)
  }

  ghost predicate Inv(s: State) { JobsOk(s) && ClaimsOk(s) }

  /** A started job is the newest one. */
  lemma StartedIsNewest(s: State, n: nat)
    requires JobsOk(s) && n < |s.jobs| && s.jobs[n].startedAt.Some?
    ensures n == |s.jobs| - 1
  {
    assert s.jobs[n] in s.jobs;
    assert JobOk(s.jobs[n]);
  }

  /** Replacing the newest job keeps the books if the new row fits the organization's state. */
  lemma NewestReplaced(s: State, s': State, j: Job)
    requires JobsOk(s) && |s.jobs| > 0 && s'.jobs == s.jobs[|s.jobs| - 1 := j]
    requires JobOk(j) && s'.tombstone == s.tombstone && s'.org == s.org
    requires s.org == Some(OrgStatus.Deleting) && (j.status == Queued || j.status == Processing || j.status == Failed)
    requires s'.purged == s.purged && (s.jobs[|s.jobs| - 1].startedAt.Some? ==> j.startedAt.Some?)
    ensures JobsOk(s')
  {
    forall x <- s'.jobs ensures JobOk(x) { if x != j { assert x in s.jobs; } }
  }

  lemma RequestKeepsJobs(s: State, now: int)
    requires JobsOk(s)
    ensures JobsOk(Apply(s, RequestPurge(now)))
  {
    if |s.jobs| > 0 { assert s.jobs[|s.jobs| - 1] in s.jobs; }
    forall j <- Apply(s, RequestPurge(now)).jobs ensures JobOk(j) { assert j in s.jobs || j == NewJob(s.content.pages, now); }
  }

  lemma CancelKeepsJobs(s: State)
    requires JobsOk(s)
    ensures JobsOk(Apply(s, CancelPurge))
  {
    if |s.jobs| > 0 { assert s.jobs[|s.jobs| - 1] in s.jobs; }
    var s' := Apply(s, CancelPurge);
    forall j <- s'.jobs ensures JobOk(j) {
      var n :| 0 <= n < |s'.jobs| && s'.jobs[n] == j;
      assert s.jobs[n] in s.jobs;
    }
  }

  lemma OperatorRetryKeepsJobs(s: State, n: nat, now: int)
    requires JobsOk(s)
    ensures JobsOk(Apply(s, OperatorRetry(n, now)))
  {
    if n < |s.jobs| && s.jobs[n].status == Failed && s.jobs[n].attempts >= s.jobs[n].maxAttempts {
      assert s.jobs[n] in s.jobs;
      NewestReplaced(s, Apply(s, OperatorRetry(n, now)), Apply(s, OperatorRetry(n, now)).jobs[n]);
    }
  }

  lemma LeaseKeepsJobs(s: State, worker: string, n: nat, now: int)
    requires JobsOk(s)
    ensures JobsOk(Apply(s, Lease(worker, n, now)))
  {
    if n < |s.jobs| && Leasable(s.jobs[n], now) {
      assert s.jobs[n] in s.jobs;
      NewestReplaced(s, Apply(s, Lease(worker, n, now)), LeasedJob(s.jobs[n], worker, now));
    }
  }

  lemma RenewalKeepsJobs(s: State, step: Step)
    requires JobsOk(s) && (step.Renew? || step.BeforeFinalize?)
    ensures JobsOk(Apply(s, step))
  {
    if ClaimOwns(s, step.claim) && (step.Renew? || s.claims[step.claim].phase == Phase.Deleting) {
      var n := s.claims[step.claim].job;
      assert s.jobs[n] in s.jobs;
      NewestReplaced(s, Apply(s, step), s.jobs[n].(leaseExpiresAt := Some(step.now + LEASE_MS)));
    }
  }

  lemma FailKeepsJobs(s: State, k: nat, now: int)
    requires Inv(s)
    ensures JobsOk(Apply(s, Fail(k, now)))
  {
    if ClaimOwns(s, k) && s.claims[k].phase == Failing {
      var c := s.claims[k];
      assert s.jobs[c.job] in s.jobs;
      assert ClaimOk(s, c);
      NewestReplaced(s, Apply(s, Fail(k, now)), FailedJob(s.jobs[c.job], c.snapshot, now));
    }
  }

  lemma FinalizeKeepsJobs(s: State, k: nat)
    requires JobsOk(s)
    ensures JobsOk(Apply(s, Finalize(k)))
  {
    if CanFinalize(s, k) {
      var s', n := AfterFinalize(s, k), s.claims[k].job;
      assert s.jobs[n] in s.jobs;
      forall j <- s'.jobs ensures JobOk(j) {
        var i :| 0 <= i < |s'.jobs| && s'.jobs[i] == j;
        assert s.jobs[i] in s.jobs;
      }
    }
  }

  lemma DeleteAssetKeepsJobs(s: State, k: nat, key: string)
    requires Inv(s)
    ensures JobsOk(Apply(s, DeleteAsset(k, key)))
  {
    if k in s.claims {
      assert ClaimOk(s, s.claims[k]);
      StartedIsNewest(s, s.claims[k].job);
    }
  }

  lemma StepKeepsJobs(s: State, step: Step)
    requires Inv(s)
    ensures JobsOk(Apply(s, step))
  {
    match step
    case OperatorRetry(n, now) => OperatorRetryKeepsJobs(s, n, now);
    case Lease(worker, n, now) => LeaseKeepsJobs(s, worker, n, now);
    case Renew(_, _) => RenewalKeepsJobs(s, step);
    case BeforeFinalize(_, _) => RenewalKeepsJobs(s, step);
    case Fail(k, now) => FailKeepsJobs(s, k, now);
    case Finalize(k) => FinalizeKeepsJobs(s, k);
    case DeleteAsset(k, key) => DeleteAssetKeepsJobs(s, k, key);
    case RequestPurge(now) => RequestKeepsJobs(s, now);
    case CancelPurge => CancelKeepsJobs(s);
    case ChangeContent(_, _) =>
    case SetSuspended(_) =>
    case Throw(_) =>
    case Crash(_) =>
  }

  lemma LeaseKeepsClaim(s: State, worker: string, n: nat, now: int, c: Claim)
    requires ClaimOk(s, c) && n < |s.jobs| && s.jobs[n].status != Succeeded && !(c.worker == worker && c.job == n)
    ensures ClaimOk(s.(jobs := s.jobs[n := LeasedJob(s.jobs[n], worker, now)]), c)
  {
  }

  lemma LeaseKeepsClaims(s: State, worker: string, n: nat, now: int)
    requires Inv(s) && Legal(s, Lease(worker, n, now))
    ensures ClaimsOk(Apply(s, Lease(worker, n, now)))
  {
    var s' := Apply(s, Lease(worker, n, now));
    if n < |s.jobs| && Leasable(s.jobs[n], now) {
      var t := s.(jobs := s.jobs[n := LeasedJob(s.jobs[n], worker, now)]);
      forall k <- s.claims ensures ClaimOk(t, s.claims[k]) { LeaseKeepsClaim(s, worker, n, now, s.claims[k]); }
      assert s'.jobs == t.jobs && s'.claims == s.claims[s.nextClaim := Claim(worker, n, t.jobs[n], Phase.Deleting)];
    }
  }

  /** What becomes of a job row leaves the claims on it right. */
  predicate Follows(j: Job, j': Job) {
    && (j.startedAt.Some? ==> j'.startedAt.Some?) && j'.maxAttempts == j.maxAttempts
    && (j'.leaseOwner.Some? && Owns(j', j'.leaseOwner.value) ==> Owns(j, j'.leaseOwner.value) && j'.attempts == j.attempts)
    && (j'.status != Succeeded ==> j.status != Succeeded && j'.purgeScope == j.purgeScope)
  }

  /** Claims may end or change phase. */
  ghost predicate ClaimsFrom(s: State, s': State) {
    s'.nextClaim == s.nextClaim && forall k <- s'.claims :: k in s.claims && s'.claims[k].(phase := s.claims[k].phase) == s.claims[k]
  }

  lemma ClaimFollows(s: State, s': State, c: Claim, phase: Phase)
    requires ClaimOk(s, c) && c.job < |s'.jobs|
    requires s'.jobs[c.job] == s.jobs[c.job] || Follows(s.jobs[c.job], s'.jobs[c.job])
    ensures ClaimOk(s', c.(phase := phase))
  {
  }

  lemma ClaimsSurvive(s: State, s': State)
    requires ClaimsOk(s) && ClaimsFrom(s, s') && |s'.jobs| >= |s.jobs|
    requires forall n | 0 <= n < |s.jobs| :: s'.jobs[n] == s.jobs[n] || Follows(s.jobs[n], s'.jobs[n])
    ensures ClaimsOk(s')
  {
    forall k <- s'.claims ensures k < s'.nextClaim && ClaimOk(s', s'.claims[k]) {
      assert ClaimOk(s, s.claims[k]);
      ClaimFollows(s, s', s.claims[k], s'.claims[k].phase);
    }
  }

  lemma ClaimsSurviveJob(s: State, s': State, n: nat, j: Job)
    requires ClaimsOk(s) && ClaimsFrom(s, s') && n < |s.jobs| && s'.jobs == s.jobs[n := j] && Follows(s.jobs[n], j)
    ensures ClaimsOk(s')
  {
    ClaimsSurvive(s, s');
  }

  lemma OperatorKeepsClaims(s: State, step: Step)
    requires Inv(s)
    requires step.ChangeContent? || step.SetSuspended? || step.RequestPurge? || step.CancelPurge?
    ensures ClaimsOk(Apply(s, step))
  {
    if step.CancelPurge? && Apply(s, step) != s {
      ClaimsSurviveJob(s, Apply(s, step), |s.jobs| - 1, Apply(s, step).jobs[|s.jobs| - 1]);
    } else {
      ClaimsSurvive(s, Apply(s, step));
    }
  }

  lemma OperatorRetryKeepsClaims(s: State, n: nat, now: int)
    requires Inv(s)
    ensures ClaimsOk(Apply(s, OperatorRetry(n, now)))
  {
    if n < |s.jobs| { ClaimsSurviveJob(s, Apply(s, OperatorRetry(n, now)), n, Apply(s, OperatorRetry(n, now)).jobs[n]); }
  }

  lemma RenewKeepsClaims(s: State, k: nat, now: int)
    requires Inv(s)
    ensures ClaimsOk(Apply(s, Renew(k, now)))
  {
    if ClaimOwns(s, k) {
      var n := s.claims[k].job;
      ClaimsSurviveJob(s, Apply(s, Renew(k, now)), n, s.jobs[n].(leaseExpiresAt := Some(now + LEASE_MS)));
    }
  }

  lemma PhaseKeepsClaims(s: State, k: nat, phase: Phase)
    requires ClaimsOk(s) && k in s.claims
    ensures ClaimsOk(InPhase(s, k, phase))
  {
    ClaimsSurvive(s, InPhase(s, k, phase));
  }

  lemma EndKeepsClaims(s: State, k: nat)
    requires Inv(s)
    ensures ClaimsOk(s.(claims := s.claims - {k}))
  {
    ClaimsSurvive(s, s.(claims := s.claims - {k}));
  }

  lemma RenewedPhaseKeepsClaims(s: State, k: nat, j: Job)
    requires ClaimsOk(s) && k in s.claims && s.claims[k].job < |s.jobs| && Follows(s.jobs[s.claims[k].job], j)
    ensures ClaimsOk(InPhase(s.(jobs := s.jobs[s.claims[k].job := j]), k, Finalizing))
  {
    ClaimsSurviveJob(s, InPhase(s.(jobs := s.jobs[s.claims[k].job := j]), k, Finalizing), s.claims[k].job, j);
  }

  lemma BeforeFinalizeKeepsClaims(s: State, k: nat, now: int)
    requires Inv(s)
    ensures ClaimsOk(Apply(s, BeforeFinalize(k, now)))
  {
    if ClaimOwns(s, k) && s.claims[k].phase == Phase.Deleting {
      RenewedPhaseKeepsClaims(s, k, s.jobs[s.claims[k].job].(leaseExpiresAt := Some(now + LEASE_MS)));
    } else if k in s.claims {
      PhaseKeepsClaims(s, k, Failing);
    }
  }

  lemma FinalizeKeepsClaims(s: State, k: nat)
    requires Inv(s)
    ensures ClaimsOk(Apply(s, Finalize(k)))
  {
    if CanFinalize(s, k) {
      var n := s.claims[k].job;
      ClaimsSurviveJob(s, AfterFinalize(s, k), n, AfterFinalize(s, k).jobs[n]);
    } else if k in s.claims {
      PhaseKeepsClaims(s, k, Failing);
    }
  }

  lemma FailKeepsClaims(s: State, k: nat, now: int)
    requires Inv(s)
    ensures ClaimsOk(Apply(s, Fail(k, now)))
  {
    EndKeepsClaims(s, k);
    if ClaimOwns(s, k) && s.claims[k].phase == Failing {
      var c := s.claims[k];
      ClaimsSurviveJob(s, Apply(s, Fail(k, now)), c.job, FailedJob(s.jobs[c.job], c.snapshot, now));
    }
  }

  lemma StepKeepsClaims(s: State, step: Step)
    requires Inv(s) && Legal(s, step)
    ensures ClaimsOk(Apply(s, step))
  {
    match step
    case Lease(worker, n, now) => LeaseKeepsClaims(s, worker, n, now);
    case Renew(k, now) => RenewKeepsClaims(s, k, now);
    case DeleteAsset(_, _) => ClaimsSurvive(s, Apply(s, step));
    case BeforeFinalize(k, now) => BeforeFinalizeKeepsClaims(s, k, now);
    case Finalize(k) => FinalizeKeepsClaims(s, k);
    case Throw(k) => if k in s.claims { PhaseKeepsClaims(s, k, Failing); }
    case Fail(k, now) => FailKeepsClaims(s, k, now);
    case Crash(k) => EndKeepsClaims(s, k);
    case OperatorRetry(n, now) => OperatorRetryKeepsClaims(s, n, now);
    case _ => OperatorKeepsClaims(s, step);
  }

  lemma StepKeepsInv(s: State, step: Step)
    requires Inv(s) && Legal(s, step)
    ensures Inv(Apply(s, step))
  {
    StepKeepsJobs(s, step);
    StepKeepsClaims(s, step);
  }

  lemma {:induction false} RunKeepsInv(s: State, steps: seq<Step>)
    requires Inv(s) && LegalRun(s, steps)
    ensures Inv(Run(s, steps))
  {
    if |steps| != 0 {
      RunKeepsInv(s, steps[..|steps| - 1]);
      StepKeepsInv(Run(s, steps[..|steps| - 1]), steps[|steps| - 1]);
    }
  }

  ghost predicate Reachable(s: State) {
    exists content, assets, steps :: LegalRun(Initial(content, assets), steps) && s == Run(Initial(content, assets), steps)
  }

  lemma ReachableInv(s: State)
    requires Reachable(s)
    ensures Inv(s)
  {
    var content, assets, steps :| LegalRun(Initial(content, assets), steps) && s == Run(Initial(content, assets), steps);
    RunKeepsInv(Initial(content, assets), steps);
  }
}
