/**
 * The notification queue (worker/notifications.ts) together with the operations
 * that touch the same rows: dispatch, organization suspension and reactivation,
 * and the operator's retry.
 */
module Notifications {
  import opened Wrappers
  import Notify

  // ===== one job row ==========================================================

  datatype Status = Pending | Processing | Sent | DeadLetter | Blocked

  /** The last_error texts that the code itself compares. */
  datatype LastError = NoError | PausedBySuspension | PausedByWorker | DeliveryError

  datatype Job = Job(
    status: Status, attempts: int, maxAttempts: int, nextAttemptAt: int,
    leaseOwner: Option<string>, leaseExpiresAt: Option<int>, lastError: LastError)

  datatype LogRow = LogRow(sent: bool, attempt: int)

  const LEASE_MS: int := 30_000
  const NEVER: int := 253_402_300_799_999 // the end of year 9999
  const MAX_ATTEMPTS: int := 8

  predicate Leasable(j: Job, now: int) {
    && (j.status == Pending || j.status == Processing)
    && j.attempts < j.maxAttempts
    && j.nextAttemptAt <= now
    && (j.leaseExpiresAt.None? || j.leaseExpiresAt.value <= now)
  }

  predicate Owns(jobs: map<string, Job>, key: string, worker: string) {
    key in jobs && jobs[key].leaseOwner == Some(worker)
  }

  predicate OwnsProcessing(jobs: map<string, Job>, key: string, worker: string) {
    Owns(jobs, key, worker) && jobs[key].status == Processing
  }

  function LeasedJob(j: Job, worker: string, now: int): Job {
    j.(status := Processing, leaseOwner := Some(worker), leaseExpiresAt := Some(now + LEASE_MS))
  }

  function BlockedJob(j: Job, why: LastError): Job {
    j.(status := Blocked, leaseOwner := None, leaseExpiresAt := None, lastError := why)
  }

  /** What came back from the provider; `jitterMs` is the random part of the delay. */
  datatype Delivery = Delivered | Failed(transient: bool, jitterMs: int, recipientRejected: bool)

  datatype Subscriber = Subscriber(pageId: string, quarantined: bool)

  /** A hard bounce: later events skip the address. */
  function Quarantined(subscribers: map<string, Subscriber>, pageId: string, id: Option<string>, d: Delivery): map<string, Subscriber> {
    if d.Failed? && d.recipientRejected && id.Some? && id.value in subscribers && subscribers[id.value].pageId == pageId
    then subscribers[id.value := subscribers[id.value].(quarantined := true)]
    else subscribers
  }

  function BackoffMs(attempt: int): int {
    Min(3_600_000, Pow2(if attempt < 0 then 0 else Min(attempt, 10)) * 1000)
  }

  /** The delays double up to 1024 seconds; the one-hour cap is never what limits them. */
  lemma BackoffDoubles(attempt: int)
    requires attempt >= 1
    ensures BackoffMs(attempt) == 1000 * Pow2(Min(attempt, 10)) <= 1_024_000
    ensures attempt < 10 ==> BackoffMs(attempt + 1) == 2 * BackoffMs(attempt)
    ensures attempt >= 10 ==> BackoffMs(attempt) == 1_024_000
  {
    Pow2Bound(Min(attempt, 10));
  }

  lemma {:induction false} Pow2Bound(n: nat)
    requires n <= 10
    ensures 1 <= Pow2(n) <= 1024 && (n == 10 ==> Pow2(n) == 1024) && (n < 10 ==> 2 * Pow2(n) <= 1024)
    decreases 10 - n
  {
    if n < 10 { Pow2Bound(n + 1); } else {
      assert Pow2(5) == 32;
      assert Pow2(10) == 2 * 2 * 2 * 2 * 2 * Pow2(5);
    }
  }

  predicate IsTerminal(snapshot: Job, d: Delivery) {
    d.Failed? && (!d.transient || snapshot.attempts + 1 >= snapshot.maxAttempts)
  }

  /** The row after a committed outcome. */
  function Settled(j: Job, snapshot: Job, d: Delivery, now: int): Job {
    var attempt := snapshot.attempts + 1;
    var freed := j.(leaseOwner := None, leaseExpiresAt := None);
    match d
    case Delivered => freed.(status := Sent, attempts := attempt, lastError := NoError)
    case Failed(_, jitterMs, _) =>
      if IsTerminal(snapshot, d)
      then freed.(status := DeadLetter, attempts := snapshot.maxAttempts, nextAttemptAt := NEVER, lastError := DeliveryError)
      else freed.(status := Pending, attempts := attempt, nextAttemptAt := now + BackoffMs(attempt) + jitterMs, lastError := DeliveryError)
  }

  function LogOf(snapshot: Job, d: Delivery): LogRow { LogRow(d.Delivered?, snapshot.attempts + 1) }

  function NewJob(now: int): Job { Job(Pending, 0, MAX_ATTEMPTS, now, None, None, NoError) }

  /** Insert, doing nothing on a key that exists. */
  function InsertAll(jobs: map<string, Job>, keys: seq<string>, now: int): map<string, Job> {
    if |keys| == 0 then jobs
    else
      var before := InsertAll(jobs, keys[..|keys| - 1], now);
      var key := keys[|keys| - 1];
      if key in before then before else before[key := NewJob(now)]
  }

  lemma {:induction false} InsertAllAddsMissing(jobs: map<string, Job>, keys: seq<string>, now: int)
    ensures InsertAll(jobs, keys, now) == map k | k in jobs.Keys + (set x <- keys) :: if k in jobs then jobs[k] else NewJob(now)
  {
    if |keys| != 0 {
      var front, key := keys[..|keys| - 1], keys[|keys| - 1];
      InsertAllAddsMissing(jobs, front, now);
      assert keys == front + [key];
    }
  }

  function LogsOf(logs: map<string, seq<LogRow>>, key: string): seq<LogRow> { if key in logs then logs[key] else [] }

  // ===== the table ============================================================

  class NotificationTable {
    var jobs: map<string, Job>
    var logs: map<string, seq<LogRow>>
    var subscribers: map<string, Subscriber>
    var orgActive: bool

    constructor (jobs: map<string, Job>, subscribers: map<string, Subscriber>, orgActive: bool)
      ensures this.jobs == jobs && this.logs == map[] && this.subscribers == subscribers && this.orgActive == orgActive
    {
      this.jobs, this.logs, this.subscribers, this.orgActive := jobs, map[], subscribers, orgActive;
    }

    /** `candidate` is the locking query's answer: some leasable row nobody else has locked, or none. */
    method LeaseNotificationJob(worker: string, now: int, candidate: Option<string>) returns (job: Option<Job>)
      requires candidate.Some? ==> candidate.value in jobs && Leasable(jobs[candidate.value], now)
      modifies this`jobs
      ensures candidate.None? ==> job == None && jobs == old(jobs)
      ensures candidate.Some? ==>
                && job == Some(LeasedJob(old(jobs)[candidate.value], worker, now))
                && jobs == old(jobs)[candidate.value := job.value]
    {
      if candidate.None? { return None; }
      jobs := jobs[candidate.value := LeasedJob(jobs[candidate.value], worker, now)];
      job := Some(jobs[candidate.value]);
    }

    method RenewNotificationLease(key: string, worker: string, now: int) returns (renewed: bool)
      modifies this`jobs
      ensures renewed == OwnsProcessing(old(jobs), key, worker)
      ensures jobs == if renewed then old(jobs)[key := old(jobs)[key].(leaseExpiresAt := Some(now + LEASE_MS))] else old(jobs)
    {
      renewed := OwnsProcessing(jobs, key, worker);
      if renewed { jobs := jobs[key := jobs[key].(leaseExpiresAt := Some(now + LEASE_MS))]; }
    }

    method BlockInactiveNotification(key: string, worker: string)
      modifies this`jobs
      ensures jobs == if Owns(old(jobs), key, worker) then old(jobs)[key := BlockedJob(old(jobs)[key], PausedByWorker)] else old(jobs)
    {
      if Owns(jobs, key, worker) { jobs := jobs[key := BlockedJob(jobs[key], PausedByWorker)]; }
    }

    /**
     * False: the organization is inactive or the guarded update matched nothing;
     * then nothing is written.  `pageId` and `subscriberId` are columns of the job.
     */
    method CommitNotificationOutcome(
      key: string, pageId: string, subscriberId: Option<string>, snapshot: Job, worker: string, d: Delivery, now: int)
      returns (committed: bool)
      modifies this`jobs, this`logs, this`subscribers
      ensures committed == (orgActive && OwnsProcessing(old(jobs), key, worker))
      ensures committed ==> jobs == old(jobs)[key := Settled(old(jobs)[key], snapshot, d, now)]
      ensures committed ==> logs == old(logs)[key := LogsOf(old(logs), key) + [LogOf(snapshot, d)]]
      ensures committed ==> subscribers == Quarantined(old(subscribers), pageId, subscriberId, d)
      ensures !committed ==> jobs == old(jobs) && logs == old(logs) && subscribers == old(subscribers)
    {
      if !orgActive || !OwnsProcessing(jobs, key, worker) { return false; }
      var attempt := snapshot.attempts + 1;
      var terminal := d.Failed? && (!d.transient || attempt >= snapshot.maxAttempts);
      var row := jobs[key].(leaseOwner := None, leaseExpiresAt := None);
      if d.Delivered? {
        row := row.(status := Sent, attempts := attempt, lastError := NoError);
      } else {
        row := row.(status := if terminal then DeadLetter else Pending,
                    attempts := if terminal then snapshot.maxAttempts else attempt,
                    nextAttemptAt := if terminal then NEVER else now + BackoffMs(attempt) + d.jitterMs,
                    lastError := DeliveryError);
      }
      jobs := jobs[key := row];
      if d.Failed? && d.recipientRejected && subscriberId.Some? { QuarantineSubscriber(subscriberId.value, pageId); }
      logs := logs[key := (if key in logs then logs[key] else []) + [LogRow(d.Delivered?, attempt)]];
      committed := true;
    }

    method QuarantineSubscriber(id: string, pageId: string)
      modifies this`subscribers
      ensures subscribers == if id in old(subscribers) && old(subscribers)[id].pageId == pageId
                             then old(subscribers)[id := Subscriber(pageId, true)] else old(subscribers)
    {
      if id in subscribers && subscribers[id].pageId == pageId {
        subscribers := subscribers[id := subscribers[id].(quarantined := true)];
      }
    }

    method DispatchNotifications(hash: string -> string, e: Notify.Event, t: Notify.Tables, now: int) returns (count: int)
      modifies this`jobs
      ensures var keys := Notify.DispatchKeys(hash, e, t);
              count == |keys| && jobs == InsertAll(old(jobs), keys, now)
    {
      var keys := Notify.CollectJobs(hash, e, t);
      InsertJobs(keys, now);
      count := |keys|;
    }

    /** The insert that does nothing on a key that exists. */
    method InsertJobs(keys: seq<string>, now: int)
      modifies this`jobs
      ensures jobs == InsertAll(old(jobs), keys, now)
    {
      for k := 0 to |keys|
        invariant jobs == InsertAll(old(jobs), keys[..k], now)
      {
        assert keys[..k + 1][..k] == keys[..k];
        if keys[k] !in jobs { jobs := jobs[keys[k] := NewJob(now)]; }
      }
      assert keys[..|keys|] == keys;
    }
  }

  // ===== every interleaving ===================================================

  datatype Phase = Delivering | MustBlock

  datatype Claim = Claim(worker: string, key: string, snapshot: Job, phase: Phase)

  /** `logsAtRetry` remembers how many log rows a job had when an operator last retried it. */
  datatype State = State(
    jobs: map<string, Job>, logs: map<string, seq<LogRow>>, orgActive: bool,
    claims: map<nat, Claim>, nextClaim: nat, logsAtRetry: map<string, nat>)

  const INIT: State := State(map[], map[], true, map[], 0, map[])

  datatype Step =
    | Dispatch(keys: seq<string>, now: int)
    | Lease(worker: string, key: string, now: int)
    | Renew(claim: nat, now: int)
    | Commit(claim: nat, delivery: Delivery, now: int)
    | Block(claim: nat)
    | Crash(claim: nat)
    | Suspend
    | Reactivate(now: int)
    | OperatorRetry(key: string, now: int)
    | Retention(key: string)

  predicate CanCommit(s: State, k: nat) {
    && k in s.claims && s.claims[k].phase == Delivering
    && s.orgActive && OwnsProcessing(s.jobs, s.claims[k].key, s.claims[k].worker)
  }

  function Suspended(j: Job): Job {
    if j.status == Pending || j.status == Processing then BlockedJob(j, PausedBySuspension) else j
  }

  function Reactivated(j: Job, now: int): Job {
    if j.status == Blocked && j.lastError == PausedBySuspension
    then j.(status := Pending, nextAttemptAt := now, lastError := NoError) else j
  }

  function Retried(j: Job, now: int): Job {
    j.(status := Pending, attempts := 0, nextAttemptAt := now, leaseOwner := None, leaseExpiresAt := None, lastError := NoError)
  }

  function Apply(s: State, step: Step): State {
    match step
    case Dispatch(keys, now) => s.(jobs := InsertAll(s.jobs, keys, now))
    case Lease(worker, key, now) =>
      if key !in s.jobs || !Leasable(s.jobs[key], now) then s
      else
        var j := LeasedJob(s.jobs[key], worker, now);
        s.(jobs := s.jobs[key := j], claims := s.claims[s.nextClaim := Claim(worker, key, j, Delivering)], nextClaim := s.nextClaim + 1)
    case Renew(k, now) =>
      if k in s.claims && OwnsProcessing(s.jobs, s.claims[k].key, s.claims[k].worker)
      then s.(jobs := s.jobs[s.claims[k].key := s.jobs[s.claims[k].key].(leaseExpiresAt := Some(now + LEASE_MS))])
      else s
    case Commit(k, d, now) =>
      if k !in s.claims || s.claims[k].phase != Delivering then s
      else if !CanCommit(s, k) then s.(claims := s.claims[k := s.claims[k].(phase := MustBlock)])
      else
        var c := s.claims[k];
        s.(jobs := s.jobs[c.key := Settled(s.jobs[c.key], c.snapshot, d, now)],
           logs := s.logs[c.key := LogsOf(s.logs, c.key) + [LogOf(c.snapshot, d)]],
           claims := s.claims - {k})
    case Block(k) =>
      if k !in s.claims then s
      else
        var c := s.claims[k];
        var s' := s.(claims := s.claims - {k});
        if Owns(s.jobs, c.key, c.worker) then s'.(jobs := s.jobs[c.key := BlockedJob(s.jobs[c.key], PausedByWorker)]) else s'
    case Crash(k) => s.(claims := s.claims - {k})
    case Suspend =>
      if !s.orgActive then s
      else s.(orgActive := false, jobs := map key | key in s.jobs :: Suspended(s.jobs[key]))
    case Reactivate(now) =>
      if s.orgActive then s
      else s.(orgActive := true, jobs := map key | key in s.jobs :: Reactivated(s.jobs[key], now))
    case OperatorRetry(key, now) =>
      if key in s.jobs && s.jobs[key].status == DeadLetter
      then s.(jobs := s.jobs[key := Retried(s.jobs[key], now)],
              logsAtRetry := s.logsAtRetry[key := |LogsOf(s.logs, key)|])
      else s
    case Retention(key) =>
      if key in s.jobs && (s.jobs[key].status == Sent || s.jobs[key].status == DeadLetter)
      then s.(jobs := s.jobs - {key}, logs := s.logs - {key}, logsAtRetry := s.logsAtRetry - {key})
      else s
  }

  function Run(s: State, steps: seq<Step>): State {
    if |steps| == 0 then s else Apply(Run(s, steps[..|steps| - 1]), steps[|steps| - 1])
  }

  /** A worker id with a delivery in progress does not lease the same job again: one drain loop handles one job at a time. */
  predicate Legal(s: State, step: Step) {
    step.Lease? ==> forall k <- s.claims :: !(s.claims[k].worker == step.worker && s.claims[k].key == step.key)
  }

  predicate LegalRun(s: State, steps: seq<Step>) {
    |steps| == 0 || (LegalRun(s, steps[..|steps| - 1]) && Legal(Run(s, steps[..|steps| - 1]), steps[|steps| - 1]))
  }

  // ----- the invariant --------------------------------------------------------

  function SentCount(logs: seq<LogRow>): nat {
    if |logs| == 0 then 0 else SentCount(logs[..|logs| - 1]) + if logs[|logs| - 1].sent then 1 else 0
  }

  predicate Live(j: Job) { j.status == Pending || j.status == Processing || j.status == Blocked }

  function RetriedAt(s: State, key: string): nat { if key in s.logsAtRetry then s.logsAtRetry[key] else 0 }

  /** What holds of one job, its log rows and the point of its last manual retry. */
  ghost predicate JobOk(j: Job, logs: seq<LogRow>, retriedAt: nat) {
    && (j.leaseOwner.Some? <==> j.status == Processing)
    && (j.leaseExpiresAt.Some? <==> j.status == Processing)
    && 0 <= j.attempts <= j.maxAttempts
    && (Live(j) ==> j.attempts < j.maxAttempts)
    && (j.status == Blocked ==> j.lastError == PausedBySuspension || j.lastError == PausedByWorker)
    && retriedAt <= |logs|
    && (if j.status == DeadLetter then 1 <= |logs| - retriedAt <= j.attempts == j.maxAttempts else |logs| - retriedAt == j.attempts)
    && SentCount(logs) == if j.status == Sent then 1 else 0
  }

  /** Blocked by the suspension itself: exactly what reactivation looks for. */
  predicate PausedJob(j: Job) { j.status == Blocked && j.lastError == PausedBySuspension }

  ghost predicate JobsOk(s: State) {
    && (forall key <- s.jobs :: JobOk(s.jobs[key], LogsOf(s.logs, key), RetriedAt(s, key)))
    && (forall key <- s.logs :: key in s.jobs)
    && (forall key <- s.logsAtRetry :: key in s.jobs)
    && (s.orgActive ==> forall key <- s.jobs :: !PausedJob(s.jobs[key]))
  }

  /** A claim that still owns its job has an up-to-date snapshot. */
  ghost predicate Fresh(jobs: map<string, Job>, c: Claim) {
    OwnsProcessing(jobs, c.key, c.worker) ==>
      jobs[c.key].attempts == c.snapshot.attempts && jobs[c.key].maxAttempts == c.snapshot.maxAttempts
  }

  ghost predicate ClaimsOk(s: State) {
    && (forall k <- s.claims :: k < s.nextClaim)
    && (forall j, k | j in s.claims && k in s.claims && s.claims[j].worker == s.claims[k].worker && s.claims[j].key == s.claims[k].key :: j == k)
    && (forall k <- s.claims :: Fresh(s.jobs, s.claims[k]))
  }

  ghost predicate Inv(s: State) { JobsOk(s) && ClaimsOk(s) }

  lemma SentCountAppend(logs: seq<LogRow>, r: LogRow)
    ensures SentCount(logs + [r]) == SentCount(logs) + if r.sent then 1 else 0
  {
    assert (logs + [r])[..|logs|] == logs;
  }

  /** A committed outcome keeps the books of its job balanced. */
  lemma SettledIsOk(j: Job, logs: seq<LogRow>, retriedAt: nat, snapshot: Job, d: Delivery, now: int)
    requires JobOk(j, logs, retriedAt) && j.status == Processing
    requires snapshot.attempts == j.attempts && snapshot.maxAttempts == j.maxAttempts
    ensures JobOk(Settled(j, snapshot, d, now), logs + [LogOf(snapshot, d)], retriedAt)
  {
    SentCountAppend(logs, LogOf(snapshot, d));
  }

  lemma CommitKeepsJobs(s: State, k: nat, d: Delivery, now: int)
    requires Inv(s)
    ensures JobsOk(Apply(s, Commit(k, d, now)))
  {
    if CanCommit(s, k) {
      var c := s.claims[k];
      assert Fresh(s.jobs, c);
      SettledIsOk(s.jobs[c.key], LogsOf(s.logs, c.key), RetriedAt(s, c.key), c.snapshot, d, now);
      OneJobLogged(s, Apply(s, Commit(k, d, now)), c.key, Settled(s.jobs[c.key], c.snapshot, d, now), LogOf(c.snapshot, d));
    }
  }

  lemma OneJobLogged(s: State, s': State, key: string, j: Job, r: LogRow)
    requires JobsOk(s) && key in s.jobs && s'.jobs == s.jobs[key := j] && s'.logsAtRetry == s.logsAtRetry
    requires s'.logs == s.logs[key := LogsOf(s.logs, key) + [r]] && s'.orgActive == s.orgActive
    requires JobOk(j, LogsOf(s.logs, key) + [r], RetriedAt(s, key)) && !PausedJob(j)
    ensures JobsOk(s')
  {
    forall k <- s'.jobs ensures JobOk(s'.jobs[k], LogsOf(s'.logs, k), RetriedAt(s', k)) {
      if k != key { assert JobOk(s.jobs[k], LogsOf(s.logs, k), RetriedAt(s, k)); }
    }
  }

  lemma DispatchKeepsJobs(s: State, keys: seq<string>, now: int)
    requires JobsOk(s)
    ensures JobsOk(Apply(s, Dispatch(keys, now)))
  {
    InsertAllAddsMissing(s.jobs, keys, now);
  }

  lemma SuspendedIsOk(j: Job, logs: seq<LogRow>, retriedAt: nat, now: int)
    requires JobOk(j, logs, retriedAt)
    ensures JobOk(Suspended(j), logs, retriedAt)
    ensures JobOk(Reactivated(j, now), logs, retriedAt) && !PausedJob(Reactivated(j, now))
  {
  }

  lemma SuspendKeepsJobs(s: State)
    requires JobsOk(s)
    ensures JobsOk(Apply(s, Suspend))
  {
    var s' := Apply(s, Suspend);
    forall key <- s'.jobs ensures JobOk(s'.jobs[key], LogsOf(s'.logs, key), RetriedAt(s', key)) {
      SuspendedIsOk(s.jobs[key], LogsOf(s.logs, key), RetriedAt(s, key), 0);
    }
  }

  lemma ReactivateKeepsJobs(s: State, now: int)
    requires JobsOk(s)
    ensures JobsOk(Apply(s, Reactivate(now)))
  {
    var s' := Apply(s, Reactivate(now));
    if !s.orgActive {
      forall key <- s'.jobs ensures JobOk(s'.jobs[key], LogsOf(s'.logs, key), RetriedAt(s', key)) && !PausedJob(s'.jobs[key]) {
        SuspendedIsOk(s.jobs[key], LogsOf(s.logs, key), RetriedAt(s, key), now);
      }
    }
  }

  lemma OperatorRetryKeepsJobs(s: State, key: string, now: int)
    requires JobsOk(s)
    ensures JobsOk(Apply(s, OperatorRetry(key, now)))
  {
    if key in s.jobs && s.jobs[key].status == DeadLetter {
      assert JobOk(s.jobs[key], LogsOf(s.logs, key), RetriedAt(s, key));
      OneJobRetried(s, Apply(s, OperatorRetry(key, now)), key, Retried(s.jobs[key], now));
    }
  }

  lemma OneJobRetried(s: State, s': State, key: string, j: Job)
    requires JobsOk(s) && key in s.jobs && s'.jobs == s.jobs[key := j] && s'.logs == s.logs
    requires s'.logsAtRetry == s.logsAtRetry[key := |LogsOf(s.logs, key)|] && s'.orgActive == s.orgActive
    requires JobOk(j, LogsOf(s.logs, key), |LogsOf(s.logs, key)|) && !PausedJob(j)
    ensures JobsOk(s')
  {
    forall k <- s'.jobs ensures JobOk(s'.jobs[k], LogsOf(s'.logs, k), RetriedAt(s', k)) {
      if k != key { assert JobOk(s.jobs[k], LogsOf(s.logs, k), RetriedAt(s, k)); }
    }
  }

  lemma RetentionKeepsJobs(s: State, key: string)
    requires JobsOk(s)
    ensures JobsOk(Apply(s, Retention(key)))
  {
    if key in s.jobs && (s.jobs[key].status == Sent || s.jobs[key].status == DeadLetter) {
      OneJobRemoved(s, Apply(s, Retention(key)), key);
    }
  }

  lemma OneJobRemoved(s: State, s': State, key: string)
    requires JobsOk(s) && s'.jobs == s.jobs - {key} && s'.logs == s.logs - {key} && s'.logsAtRetry == s.logsAtRetry - {key}
    requires s'.orgActive == s.orgActive
    ensures JobsOk(s')
  {
    forall k <- s'.jobs ensures JobOk(s'.jobs[k], LogsOf(s'.logs, k), RetriedAt(s', k)) {
      assert JobOk(s.jobs[k], LogsOf(s.logs, k), RetriedAt(s, k));
    }
  }

  lemma OneJobChanged(s: State, s': State, key: string, j: Job)
    requires JobsOk(s) && s'.jobs == s.jobs[key := j] && s'.logs == s.logs && s'.logsAtRetry == s.logsAtRetry
    requires JobOk(j, LogsOf(s.logs, key), RetriedAt(s, key)) && s'.orgActive == s.orgActive && !PausedJob(j)
    ensures JobsOk(s')
  {
    forall k <- s'.jobs ensures JobOk(s'.jobs[k], LogsOf(s'.logs, k), RetriedAt(s', k)) {
      if k != key { assert JobOk(s.jobs[k], LogsOf(s.logs, k), RetriedAt(s, k)); }
    }
  }

  lemma LeaseKeepsJobs(s: State, worker: string, key: string, now: int)
    requires JobsOk(s)
    ensures JobsOk(Apply(s, Lease(worker, key, now)))
  {
    if key in s.jobs && Leasable(s.jobs[key], now) {
      assert JobOk(s.jobs[key], LogsOf(s.logs, key), RetriedAt(s, key));
      OneJobChanged(s, Apply(s, Lease(worker, key, now)), key, LeasedJob(s.jobs[key], worker, now));
    }
  }

  lemma RenewKeepsJobs(s: State, k: nat, now: int)
    requires JobsOk(s)
    ensures JobsOk(Apply(s, Renew(k, now)))
  {
    if k in s.claims && OwnsProcessing(s.jobs, s.claims[k].key, s.claims[k].worker) {
      var key := s.claims[k].key;
      assert JobOk(s.jobs[key], LogsOf(s.logs, key), RetriedAt(s, key));
      OneJobChanged(s, Apply(s, Renew(k, now)), key, s.jobs[key].(leaseExpiresAt := Some(now + LEASE_MS)));
    }
  }

  lemma BlockKeepsJobs(s: State, k: nat)
    requires JobsOk(s)
    ensures JobsOk(Apply(s, Block(k)))
  {
    if k in s.claims && Owns(s.jobs, s.claims[k].key, s.claims[k].worker) {
      var key := s.claims[k].key;
      assert JobOk(s.jobs[key], LogsOf(s.logs, key), RetriedAt(s, key));
      OneJobChanged(s, Apply(s, Block(k)), key, BlockedJob(s.jobs[key], PausedByWorker));
    }
  }

  lemma LeaseKeepsClaims(s: State, worker: string, key: string, now: int)
    requires ClaimsOk(s) && Legal(s, Lease(worker, key, now))
    ensures ClaimsOk(Apply(s, Lease(worker, key, now)))
  {
    var s' := Apply(s, Lease(worker, key, now));
    forall k <- s'.claims ensures Fresh(s'.jobs, s'.claims[k]) {
      if k in s.claims { assert Fresh(s.jobs, s.claims[k]); }
    }
  }

  /** If the job is being processed afterwards, then it was before, for the same owner and with the same attempts. */
  ghost predicate Follows(jobs: map<string, Job>, after: map<string, Job>, key: string) {
    key in after && after[key].status == Processing && after[key].leaseOwner.Some? ==>
      && key in jobs && jobs[key].status == Processing && jobs[key].leaseOwner == after[key].leaseOwner
      && jobs[key].attempts == after[key].attempts && jobs[key].maxAttempts == after[key].maxAttempts
  }

  lemma ClaimsSurvive(s: State, s': State)
    requires ClaimsOk(s) && s'.nextClaim == s.nextClaim
    requires forall k <- s'.claims :: k in s.claims && s'.claims[k].(phase := s.claims[k].phase) == s.claims[k]
    requires forall c <- s.claims.Values :: Follows(s.jobs, s'.jobs, c.key)
    ensures ClaimsOk(s')
  {
    forall k <- s'.claims ensures Fresh(s'.jobs, s'.claims[k]) {
      assert s.claims[k] in s.claims.Values;
      assert Fresh(s.jobs, s.claims[k]);
    }
  }

  lemma ClaimsSurviveJob(s: State, s': State, key: string, j: Job)
    requires ClaimsOk(s) && s'.nextClaim == s.nextClaim && s'.jobs == s.jobs[key := j]
    requires forall k <- s'.claims :: k in s.claims && s'.claims[k].(phase := s.claims[k].phase) == s.claims[k]
    requires Follows(s.jobs, s.jobs[key := j], key)
    ensures ClaimsOk(s')
  {
    forall c <- s.claims.Values ensures Follows(s.jobs, s'.jobs, c.key) {}
    ClaimsSurvive(s, s');
  }

  lemma PhaseKeepsClaims(s: State, k: nat, phase: Phase)
    requires ClaimsOk(s) && k in s.claims
    ensures ClaimsOk(s.(claims := s.claims[k := s.claims[k].(phase := phase)]))
  {
    ClaimsSurvive(s, s.(claims := s.claims[k := s.claims[k].(phase := phase)]));
  }

  lemma CrashKeepsClaims(s: State, k: nat)
    requires ClaimsOk(s)
    ensures ClaimsOk(s.(claims := s.claims - {k}))
  {
    ClaimsSurvive(s, s.(claims := s.claims - {k}));
  }

  lemma CommitKeepsClaims(s: State, k: nat, d: Delivery, now: int)
    requires ClaimsOk(s)
    ensures ClaimsOk(Apply(s, Commit(k, d, now)))
  {
    if CanCommit(s, k) {
      var c := s.claims[k];
      ClaimsSurviveJob(s, Apply(s, Commit(k, d, now)), c.key, Settled(s.jobs[c.key], c.snapshot, d, now));
    } else if k in s.claims {
      PhaseKeepsClaims(s, k, MustBlock);
    }
  }

  lemma DispatchKeepsClaims(s: State, keys: seq<string>, now: int)
    requires ClaimsOk(s)
    ensures ClaimsOk(Apply(s, Dispatch(keys, now)))
  {
    InsertAllAddsMissing(s.jobs, keys, now);
    ClaimsSurvive(s, Apply(s, Dispatch(keys, now)));
  }

  lemma RenewKeepsClaims(s: State, k: nat, now: int)
    requires ClaimsOk(s)
    ensures ClaimsOk(Apply(s, Renew(k, now)))
  {
    if k in s.claims && OwnsProcessing(s.jobs, s.claims[k].key, s.claims[k].worker) {
      var key := s.claims[k].key;
      ClaimsSurviveJob(s, Apply(s, Renew(k, now)), key, s.jobs[key].(leaseExpiresAt := Some(now + LEASE_MS)));
    }
  }

  lemma BlockKeepsClaims(s: State, k: nat)
    requires ClaimsOk(s)
    ensures ClaimsOk(Apply(s, Block(k)))
  {
    CrashKeepsClaims(s, k);
    if k in s.claims && Owns(s.jobs, s.claims[k].key, s.claims[k].worker) {
      var key := s.claims[k].key;
      ClaimsSurviveJob(s, Apply(s, Block(k)), key, BlockedJob(s.jobs[key], PausedByWorker));
    }
  }

  lemma SuspensionKeepsClaims(s: State, step: Step)
    requires ClaimsOk(s)
    requires step.Suspend? || step.Reactivate?
    ensures ClaimsOk(Apply(s, step))
  {
    ClaimsSurvive(s, Apply(s, step));
  }

  lemma OperatorKeepsClaims(s: State, step: Step)
    requires ClaimsOk(s)
    requires step.OperatorRetry? || step.Retention?
    ensures ClaimsOk(Apply(s, step))
  {
    ClaimsSurvive(s, Apply(s, step));
  }

  lemma StepKeepsJobs(s: State, step: Step)
    requires Inv(s)
    ensures JobsOk(Apply(s, step))
  {
    match step
    case Dispatch(keys, now) => DispatchKeepsJobs(s, keys, now);
    case Lease(worker, key, now) => LeaseKeepsJobs(s, worker, key, now);
    case Renew(k, now) => RenewKeepsJobs(s, k, now);
    case Commit(k, d, now) => CommitKeepsJobs(s, k, d, now);
    case Block(k) => BlockKeepsJobs(s, k);
    case Crash(_) =>
    case Suspend => SuspendKeepsJobs(s);
    case Reactivate(now) => ReactivateKeepsJobs(s, now);
    case OperatorRetry(key, now) => OperatorRetryKeepsJobs(s, key, now);
    case Retention(key) => RetentionKeepsJobs(s, key);
  }

  lemma StepKeepsClaims(s: State, step: Step)
    requires Inv(s) && Legal(s, step)
    ensures ClaimsOk(Apply(s, step))
  {
    match step
    case Dispatch(keys, now) => DispatchKeepsClaims(s, keys, now);
    case Lease(worker, key, now) => LeaseKeepsClaims(s, worker, key, now);
    case Renew(k, now) => RenewKeepsClaims(s, k, now);
    case Commit(k, d, now) => CommitKeepsClaims(s, k, d, now);
    case Block(k) => BlockKeepsClaims(s, k);
    case Crash(k) => CrashKeepsClaims(s, k);
    case Suspend => SuspensionKeepsClaims(s, step);
    case Reactivate(_) => SuspensionKeepsClaims(s, step);
    case _ => OperatorKeepsClaims(s, step);
  }

  lemma StepKeepsInv(s: State, step: Step)
    requires Inv(s) && Legal(s, step)
    ensures Inv(Apply(s, step))
  {
    StepKeepsJobs(s, step);
    StepKeepsClaims(s, step);
  }

  lemma {:induction false} RunKeepsInv(steps: seq<Step>)
    requires LegalRun(INIT, steps)
    ensures Inv(Run(INIT, steps))
  {
    if |steps| != 0 {
      RunKeepsInv(steps[..|steps| - 1]);
      StepKeepsInv(Run(INIT, steps[..|steps| - 1]), steps[|steps| - 1]);
    }
  }

  ghost predicate Reachable(s: State) { exists steps :: LegalRun(INIT, steps) && s == Run(INIT, steps) }

  lemma ReachableInv(s: State)
    requires Reachable(s)
    ensures Inv(s)
  {
    var steps :| LegalRun(INIT, steps) && s == Run(INIT, steps);
    RunKeepsInv(steps);
  }

  // ----- main results ---------------------------------------------------------

  /**
   * The books of every job in every interleaving: attempts stay within the limit
   * and equal the log rows written since the last manual retry (a dead letter may
   * have fewer rows than attempts), exactly the leased jobs are processing, and
   * at most one delivery is ever logged as sent.
   */
  lemma JobBooks(s: State, key: string)
    requires Reachable(s) && key in s.jobs
    ensures var j, rows := s.jobs[key], |LogsOf(s.logs, key)| - RetriedAt(s, key);
            && (j.status == Processing <==> j.leaseOwner.Some?)
            && 0 <= j.attempts <= j.maxAttempts
            && (j.status != DeadLetter ==> rows == j.attempts)
            && (j.status == DeadLetter ==> rows <= j.attempts == j.maxAttempts)
            && SentCount(LogsOf(s.logs, key)) == if j.status == Sent then 1 else 0
  {
    ReachableInv(s);
    assert JobOk(s.jobs[key], LogsOf(s.logs, key), RetriedAt(s, key));
  }

  /** Whichever workers crashed: a waiting or processing job can be leased at any time late enough. */
  lemma NeverUnleasable(s: State, key: string, now: int)
    requires Reachable(s) && key in s.jobs && (s.jobs[key].status == Pending || s.jobs[key].status == Processing)
    requires now >= s.jobs[key].nextAttemptAt && now >= s.jobs[key].leaseExpiresAt.GetOr(now)
    ensures Leasable(s.jobs[key], now)
  {
    ReachableInv(s);
    assert JobOk(s.jobs[key], LogsOf(s.logs, key), RetriedAt(s, key));
  }

  /** Nobody holds a lease on a settled job, so no worker's step changes it. */
  lemma WorkersLeaveUnowned(s: State, step: Step, key: string)
    requires key in s.jobs && s.jobs[key].leaseOwner.None? && !Leasable(s.jobs[key], if step.Lease? then step.now else 0)
    requires step.Lease? || step.Renew? || step.Commit? || step.Block? || step.Crash?
    ensures key in Apply(s, step).jobs && Apply(s, step).jobs[key] == s.jobs[key]
  {
  }

  lemma DispatchLeavesJobs(s: State, keys: seq<string>, now: int, key: string)
    requires key in s.jobs
    ensures key in Apply(s, Dispatch(keys, now)).jobs && Apply(s, Dispatch(keys, now)).jobs[key] == s.jobs[key]
  {
    InsertAllAddsMissing(s.jobs, keys, now);
  }

  lemma OperatorsLeaveSettled(s: State, step: Step, key: string)
    requires key in s.jobs && (s.jobs[key].status == Sent || s.jobs[key].status == DeadLetter)
    requires step.Suspend? || step.Reactivate? || (step.Retention? && step.key != key)
             || (step.OperatorRetry? && (step.key != key || s.jobs[key].status == Sent))
    ensures key in Apply(s, step).jobs && Apply(s, step).jobs[key] == s.jobs[key]
  {
  }

  /** A step that leaves a settled job alone, removes it by retention, or is the operator's retry of a dead letter. */
  lemma SettledJobStays(s: State, step: Step, key: string)
    requires Inv(s) && key in s.jobs && (s.jobs[key].status == Sent || s.jobs[key].status == DeadLetter)
    requires step != Retention(key)
    requires s.jobs[key].status == DeadLetter ==> !(step.OperatorRetry? && step.key == key)
    ensures key in Apply(s, step).jobs && Apply(s, step).jobs[key] == s.jobs[key]
  {
    assert JobOk(s.jobs[key], LogsOf(s.logs, key), RetriedAt(s, key));
    if step.Dispatch? {
      DispatchLeavesJobs(s, step.keys, step.now, key);
    } else if step.Lease? || step.Renew? || step.Commit? || step.Block? || step.Crash? {
      WorkersLeaveUnowned(s, step, key);
    } else {
      OperatorsLeaveSettled(s, step, key);
    }
  }

  /** SENT is absorbing; DEAD_LETTER is left only by an operator's retry. */
  lemma {:induction false} SettledForever(s: State, steps: seq<Step>, key: string)
    requires Inv(s) && LegalRun(s, steps) && key in s.jobs && (s.jobs[key].status == Sent || s.jobs[key].status == DeadLetter)
    requires Retention(key) !in steps
    requires s.jobs[key].status == DeadLetter ==> forall step <- steps :: !(step.OperatorRetry? && step.key == key)
    ensures Inv(Run(s, steps)) && key in Run(s, steps).jobs && Run(s, steps).jobs[key] == s.jobs[key]
  {
    if |steps| != 0 {
      var front, last := steps[..|steps| - 1], steps[|steps| - 1];
      assert forall step <- front :: step in steps;
      assert last in steps;
      SettledForever(s, front, key);
      StepKeepsInv(Run(s, front), last);
      SettledJobStays(Run(s, front), last, key);
    }
  }

  lemma WorkerBlockedStays(s: State, step: Step, key: string)
    requires key in s.jobs && s.jobs[key].status == Blocked && s.jobs[key].lastError == PausedByWorker && s.jobs[key].leaseOwner == None
    ensures key in Apply(s, step).jobs && Apply(s, step).jobs[key] == s.jobs[key]
  {
    if step.Dispatch? { DispatchLeavesJobs(s, step.keys, step.now, key); }
  }

  lemma {:induction false} WorkerBlockedForever(s: State, steps: seq<Step>, key: string)
    requires key in s.jobs && s.jobs[key].status == Blocked && s.jobs[key].lastError == PausedByWorker && s.jobs[key].leaseOwner == None
    ensures key in Run(s, steps).jobs && Run(s, steps).jobs[key] == s.jobs[key]
  {
    if |steps| != 0 {
      WorkerBlockedForever(s, steps[..|steps| - 1], key);
      WorkerBlockedStays(Run(s, steps[..|steps| - 1]), steps[|steps| - 1], key);
    }
  }

  predicate BlockedAfter(s: State, steps: seq<Step>, key: string) {
    key in Run(s, steps).jobs && Run(s, steps).jobs[key].status == Blocked
  }

  /**
   * A blocked job can ever leave that state if and only if the suspension itself
   * blocked it.  One that a worker blocked stays blocked in every future, also
   * after the organization is active again: reactivation looks for another text.
   */
  lemma BlockedResumesIff(s: State, key: string)
    requires Reachable(s) && key in s.jobs && s.jobs[key].status == Blocked
    ensures s.jobs[key].lastError == PausedBySuspension <==>
            exists steps :: !BlockedAfter(s, steps, key)
  {
    ReachableInv(s);
    assert JobOk(s.jobs[key], LogsOf(s.logs, key), RetriedAt(s, key));
    if s.jobs[key].lastError == PausedBySuspension {
      ReactivationResumes(s, key);
    } else {
      forall steps ensures BlockedAfter(s, steps, key) {
        WorkerBlockedForever(s, steps, key);
      }
    }
  }

  lemma ReactivationResumes(s: State, key: string)
    requires JobsOk(s) && key in s.jobs && PausedJob(s.jobs[key])
    ensures !BlockedAfter(s, [Reactivate(0)], key)
  {
    var resume := [Reactivate(0)];
    assert resume[..0] == [];
    assert Run(s, resume) == Apply(s, Reactivate(0));
  }

  lemma ExtendRun(steps: seq<Step>, s: State, step: Step)
    requires LegalRun(INIT, steps) && Run(INIT, steps) == s && Legal(s, step)
    ensures LegalRun(INIT, steps + [step]) && Run(INIT, steps + [step]) == Apply(s, step)
  {
    assert (steps + [step])[..|steps|] == steps;
  }

  /** One job that waits in a suspended organization, nobody working on it. */
  ghost predicate OnlyJob(s: State, j: Job) {
    !s.orgActive && s.claims == map[] && s.jobs == map["k" := j]
  }

  /**
   * A job inserted just after the suspension is leased, found inactive and
   * blocked by its worker.  After the reactivation the organization is active,
   * nobody holds the job, and it is blocked for good.
   */
  lemma ActiveOrganizationCanHoldStuckJob() returns (steps: seq<Step>)
    ensures var s := Run(INIT, steps);
            && LegalRun(INIT, steps) && s.orgActive && s.claims == map[] && "k" in s.jobs
            && s.jobs["k"].status == Blocked && s.jobs["k"].lastError == PausedByWorker && s.jobs["k"].leaseOwner == None
  {
    var s := INIT;
    steps := [];
    ExtendRun(steps, s, Suspend);
    steps, s := steps + [Suspend], Apply(s, Suspend);
    InsertAllAddsMissing(s.jobs, ["k"], 0);
    ExtendRun(steps, s, Dispatch(["k"], 0));
    steps, s := steps + [Dispatch(["k"], 0)], Apply(s, Dispatch(["k"], 0));
    assert OnlyJob(s, NewJob(0));
    WorkerBlocksJob(steps, s);
    steps, s := steps + [Lease("w", "k", 0)] + [Block(s.nextClaim)], Apply(Apply(s, Lease("w", "k", 0)), Block(s.nextClaim));
    ExtendRun(steps, s, Reactivate(1));
    steps := steps + [Reactivate(1)];
  }

  lemma WorkerBlocksJob(steps: seq<Step>, s: State)
    requires LegalRun(INIT, steps) && Run(INIT, steps) == s && OnlyJob(s, NewJob(0))
    ensures var after, s' := steps + [Lease("w", "k", 0)] + [Block(s.nextClaim)], Apply(Apply(s, Lease("w", "k", 0)), Block(s.nextClaim));
            && LegalRun(INIT, after) && Run(INIT, after) == s'
            && OnlyJob(s', BlockedJob(LeasedJob(NewJob(0), "w", 0), PausedByWorker))
  {
    ExtendRun(steps, s, Lease("w", "k", 0));
    ExtendRun(steps + [Lease("w", "k", 0)], Apply(s, Lease("w", "k", 0)), Block(s.nextClaim));
  }

  /** The claim's lease was taken away. */
  ghost predicate Revoked(s: State, k: nat) {
    k < s.nextClaim && (k in s.claims ==> !Owns(s.jobs, s.claims[k].key, s.claims[k].worker))
  }

  lemma RevokedStays(s: State, step: Step, k: nat)
    requires Revoked(s, k) && Legal(s, step)
    ensures Revoked(Apply(s, step), k)
  {
    if step.Dispatch? { InsertAllAddsMissing(s.jobs, step.keys, step.now); }
  }

  /** A delivery in progress when its organization is suspended is never committed, not even after reactivation. */
  lemma {:induction false} SuspensionRevokes(s: State, steps: seq<Step>, k: nat)
    requires Inv(s) && s.orgActive && k in s.claims && LegalRun(Apply(s, Suspend), steps)
    ensures Revoked(Run(Apply(s, Suspend), steps), k) && !CanCommit(Run(Apply(s, Suspend), steps), k)
  {
    var t := Apply(s, Suspend);
    if |steps| == 0 {
      var c := s.claims[k];
      if c.key in s.jobs { assert JobOk(s.jobs[c.key], LogsOf(s.logs, c.key), RetriedAt(s, c.key)); }
    } else {
      SuspensionRevokes(s, steps[..|steps| - 1], k);
      RevokedStays(Run(t, steps[..|steps| - 1]), steps[|steps| - 1], k);
    }
  }

  lemma StepKeepsKey(s: State, step: Step, key: string)
    requires key in s.jobs && step != Retention(key)
    ensures key in Apply(s, step).jobs
  {
    if step.Dispatch? { DispatchLeavesJobs(s, step.keys, step.now, key); }
  }

  lemma {:induction false} KeysPersist(s: State, steps: seq<Step>, key: string)
    requires key in s.jobs && Retention(key) !in steps
    ensures key in Run(s, steps).jobs
  {
    if |steps| != 0 {
      var front, last := steps[..|steps| - 1], steps[|steps| - 1];
      assert last in steps && Retention(key) !in front;
      KeysPersist(s, front, key);
      StepKeepsKey(Run(s, front), last, key);
    }
  }

  /** Dispatching the same keys again, at any later point before retention, changes nothing. */
  lemma RedispatchAddsNothing(s: State, keys: seq<string>, now: int, steps: seq<Step>, later: int)
    requires forall key <- keys :: Retention(key) !in steps
    ensures var t := Run(Apply(s, Dispatch(keys, now)), steps);
            Apply(t, Dispatch(keys, later)) == t
  {
    var s1 := Apply(s, Dispatch(keys, now));
    InsertAllAddsMissing(s.jobs, keys, now);
    forall key <- keys ensures key in Run(s1, steps).jobs { KeysPersist(s1, steps, key); }
    InsertAllAddsMissing(Run(s1, steps).jobs, keys, later);
  }
}
