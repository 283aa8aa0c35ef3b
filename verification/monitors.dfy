/**
 * The monitor lease protocol and its up/down threshold machine
 * (worker/monitors.ts).  Part one is the threshold machine on its own, part two
 * the table the workers share, part three every interleaving of the workers.
 */
module Monitors {
  import opened Wrappers

  // ===== the threshold machine ================================================

  datatype Counters = Counters(fails: int, oks: int, down: bool)

  datatype Thresholds = Thresholds(fail: int, recover: int)

  const UP: Counters := Counters(0, 0, false)

  /** What one check result does to the counters of the row it is judged against. */
  function Judge(c: Counters, t: Thresholds, ok: bool): Counters {
    var fails := if ok then 0 else c.fails + 1;
    var oks := if ok then c.oks + 1 else 0;
    var down := if ok then c.down && oks < Max(1, t.recover) else c.down || fails >= Max(1, t.fail);
    Counters(fails, oks, down)
  }

  function JudgeAll(t: Thresholds, results: seq<bool>): Counters {
    if |results| == 0 then UP
    else Judge(JudgeAll(t, results[..|results| - 1]), t, results[|results| - 1])
  }

  /** The results at positions p - n, ..., p - 1 exist and all equal `ok`. */
  ghost predicate Completes(results: seq<bool>, ok: bool, n: int, p: int) {
    n <= p <= |results| && forall i | p - n <= i < p :: results[i] == ok
  }

  /** The last position that completes `n` consecutive results equal to `ok`; 0 if there is none. */
  ghost function LastCompletion(results: seq<bool>, ok: bool, n: int, upTo: nat): nat
    requires n >= 1 && upTo <= |results|
  {
    if upTo == 0 then 0
    else if Completes(results, ok, n, upTo) then upTo
    else LastCompletion(results, ok, n, upTo - 1)
  }

  /** LastCompletion is the greatest completing position. */
  lemma {:induction false} LastCompletionIsGreatest(results: seq<bool>, ok: bool, n: int, upTo: nat)
    requires n >= 1 && upTo <= |results|
    ensures var p := LastCompletion(results, ok, n, upTo);
            && (p == 0 || (p <= upTo && Completes(results, ok, n, p)))
            && forall q | p < q <= upTo :: !Completes(results, ok, n, q)
  {
    if upTo > 0 && !Completes(results, ok, n, upTo) { LastCompletionIsGreatest(results, ok, n, upTo - 1); }
  }

  /** The counters are the lengths of the run of equal results the list ends with. */
  lemma {:induction false} CountersAreRunLengths(t: Thresholds, results: seq<bool>)
    ensures var c := JudgeAll(t, results);
            && 0 <= c.fails <= |results| && 0 <= c.oks <= |results|
            && (forall n | n >= 1 :: c.fails >= n <==> Completes(results, false, n, |results|))
            && (forall n | n >= 1 :: c.oks >= n <==> Completes(results, true, n, |results|))
  {
    if |results| != 0 {
      var front, last := results[..|results| - 1], results[|results| - 1];
      CountersAreRunLengths(t, front);
      forall n, ok | n >= 1
        ensures Completes(results, ok, n, |results|) <==> last == ok && (n == 1 || Completes(front, ok, n - 1, |front|))
      {
        if last == ok && (n == 1 || Completes(front, ok, n - 1, |front|)) {
          assert forall i | |results| - n <= i < |front| :: results[i] == front[i];
        }
        if Completes(results, ok, n, |results|) {
          assert forall i | |results| - n <= i < |front| :: results[i] == front[i];
        }
      }
    }
  }

  lemma {:induction false} LastCompletionOfPrefix(results: seq<bool>, ok: bool, n: int, m: nat, upTo: nat)
    requires n >= 1 && upTo <= m <= |results|
    ensures LastCompletion(results[..m], ok, n, upTo) == LastCompletion(results, ok, n, upTo)
  {
    if upTo > 0 {
      assert Completes(results[..m], ok, n, upTo) <==> Completes(results, ok, n, upTo);
      LastCompletionOfPrefix(results, ok, n, m, upTo - 1);
    }
  }

  /**
   * A monitor that started up is down exactly when the last position completing
   * the failure threshold is later than the last one completing the recovery threshold.
   */
  lemma {:induction false} DownCharacterization(t: Thresholds, results: seq<bool>)
    ensures JudgeAll(t, results).down <==>
            LastCompletion(results, false, Max(1, t.fail), |results|) > LastCompletion(results, true, Max(1, t.recover), |results|)
  {
    if |results| != 0 {
      var m := |results| - 1;
      DownCharacterization(t, results[..m]);
      CountersAreRunLengths(t, results);
      LastCompletionOfPrefix(results, false, Max(1, t.fail), m, m);
      LastCompletionOfPrefix(results, true, Max(1, t.recover), m, m);
      LastCompletionIsGreatest(results, false, Max(1, t.fail), m);
      LastCompletionIsGreatest(results, true, Max(1, t.recover), m);
    }
  }

  /** Position `p` flips the monitor to `down`. */
  ghost predicate FlipsTo(t: Thresholds, results: seq<bool>, p: nat, down: bool) {
    && 1 <= p <= |results|
    && JudgeAll(t, results[..p]).down == down
    && JudgeAll(t, results[..p - 1]).down != down
  }

  /** A flip is caused by a full run of the matching results ending there. */
  lemma FlipNeedsFullRun(t: Thresholds, results: seq<bool>, p: nat, down: bool)
    requires FlipsTo(t, results, p, down)
    ensures Completes(results, !down, if down then Max(1, t.fail) else Max(1, t.recover), p)
  {
    CountersAreRunLengths(t, results[..p]);
    assert results[..p][..p - 1] == results[..p - 1];
    var n := if down then Max(1, t.fail) else Max(1, t.recover);
    assert Completes(results[..p], !down, n, p);
    assert forall i | p - n <= i < p :: results[i] == results[..p][i];
  }

  /** A later flip back is at least its threshold away, because its run cannot contain the earlier position. */
  lemma FlipsAreFarApart(t: Thresholds, results: seq<bool>, p: nat, q: nat, down: bool)
    requires p < q && FlipsTo(t, results, p, down) && FlipsTo(t, results, q, !down)
    ensures q - p >= if down then Max(1, t.recover) else Max(1, t.fail)
  {
    FlipNeedsFullRun(t, results, p, down);
    FlipNeedsFullRun(t, results, q, !down);
    assert results[p - 1] == !down;
  }

  /** A flag that changed since position p flipped somewhere in between. */
  lemma {:induction false} FlipBetween(t: Thresholds, results: seq<bool>, p: nat, q: nat, down: bool) returns (m: nat)
    requires p < q <= |results|
    requires JudgeAll(t, results[..p]).down == down && JudgeAll(t, results[..q]).down != down
    ensures p < m <= q && FlipsTo(t, results, m, !down)
    decreases q
  {
    if JudgeAll(t, results[..q - 1]).down == down { m := q; } else { m := FlipBetween(t, results, p, q - 1, down); }
  }

  /** Downs and ups alternate, so two downs, or two ups, are at least both thresholds apart. */
  lemma FlipsAlternate(t: Thresholds, results: seq<bool>, p: nat, q: nat, down: bool) returns (m: nat)
    requires p < q && FlipsTo(t, results, p, down) && FlipsTo(t, results, q, down)
    ensures p < m < q && FlipsTo(t, results, m, !down)
    ensures q - p >= Max(1, t.fail) + Max(1, t.recover)
  {
    m := FlipBetween(t, results, p, q - 1, down);
    FlipsAreFarApart(t, results, p, m, down);
    FlipsAreFarApart(t, results, m, q, !down);
  }

  // ===== the shared table =====================================================

  datatype Monitor = Monitor(
    enabled: bool, leaseOwner: Option<string>, leaseExpiresAt: Option<int>,
    lastCheckedAt: Option<int>, intervalSec: int, runRequestedAt: Option<int>, timeoutMs: int,
    thresholds: Thresholds, counters: Counters, currentIncidentId: Option<nat>)

  datatype Check = Check(ok: bool, checkedAt: int)

  function LeaseMilliseconds(m: Monitor): int { Max(30_000, m.timeoutMs * 2) }

  /** The condition under which the lease query may pick the row. */
  predicate Leasable(m: Monitor, now: int) {
    && m.enabled
    && (m.leaseExpiresAt.None? || m.leaseExpiresAt.value <= now)
    && (|| (m.runRequestedAt.Some? && (m.lastCheckedAt.None? || m.runRequestedAt.value > m.lastCheckedAt.value))
        || m.lastCheckedAt.None?
        || m.lastCheckedAt.value + m.intervalSec * 1000 <= now)
  }

  predicate Owns(rows: map<nat, Monitor>, id: nat, worker: string) {
    id in rows && rows[id].leaseOwner == Some(worker)
  }

  function Leased(m: Monitor, worker: string, now: int): Monitor {
    m.(leaseOwner := Some(worker), leaseExpiresAt := Some(now + LeaseMilliseconds(m)))
  }

  function Unleased(m: Monitor): Monitor { m.(leaseOwner := None, leaseExpiresAt := None) }

  /** The committed row: bookkeeping of the current row, counters computed from the worker's snapshot. */
  function Committed(m: Monitor, snapshot: Monitor, ok: bool, now: int): Monitor {
    m.(lastCheckedAt := Some(now), runRequestedAt := None, counters := Judge(snapshot.counters, snapshot.thresholds, ok))
  }

  function LeaseAll(rows: map<nat, Monitor>, ids: seq<nat>, worker: string, now: int): map<nat, Monitor> {
    map id | id in rows :: if id in ids then Leased(rows[id], worker, now) else rows[id]
  }

  class MonitorTable {
    var rows: map<nat, Monitor>
    var checks: map<nat, seq<Check>>
    var orgActive: bool

    constructor (rows: map<nat, Monitor>, checks: map<nat, seq<Check>>, orgActive: bool)
      ensures this.rows == rows && this.checks == checks && this.orgActive == orgActive
    {
      this.rows, this.checks, this.orgActive := rows, checks, orgActive;
    }

    /**
     * Claims the candidates the locking query returned (rows locked by another
     * transaction are skipped, so any leasable rows in any order).
     */
    method LeaseDueMonitors(worker: string, now: int, candidates: seq<nat>) returns (leased: seq<(nat, Monitor)>)
      requires forall i, j | 0 <= i < j < |candidates| :: candidates[i] != candidates[j]
      requires forall id <- candidates :: id in rows && Leasable(rows[id], now)
      modifies this`rows
      ensures rows == LeaseAll(old(rows), candidates, worker, now)
      ensures |leased| == |candidates|
      ensures forall i | 0 <= i < |candidates| :: leased[i] == (candidates[i], rows[candidates[i]])
    {
      leased := [];
      for k := 0 to |candidates|
        invariant rows == LeaseAll(old(rows), candidates[..k], worker, now)
        invariant |leased| == k
        invariant forall i | 0 <= i < k :: leased[i] == (candidates[i], rows[candidates[i]])
      {
        var id := candidates[k];
        assert id in candidates && id !in candidates[..k];
        assert candidates[..k + 1] == candidates[..k] + [id];
        var claimed := Leased(rows[id], worker, now);
        rows := rows[id := claimed];
        leased := leased + [(id, claimed)];
      }
      assert candidates[..|candidates|] == candidates;
    }

    /** False stands for the thrown "lease is no longer owned". */
    method RenewMonitorLease(id: nat, snapshot: Monitor, worker: string, now: int) returns (renewed: bool)
      modifies this`rows
      ensures renewed == Owns(old(rows), id, worker)
      ensures rows == if renewed then old(rows)[id := old(rows)[id].(leaseExpiresAt := Some(now + LeaseMilliseconds(snapshot)))] else old(rows)
    {
      renewed := Owns(rows, id, worker);
      if renewed {
        rows := rows[id := rows[id].(leaseExpiresAt := Some(now + LeaseMilliseconds(snapshot)))];
      }
    }

    method ReleaseMonitorLease(id: nat, worker: string)
      modifies this`rows
      ensures rows == if Owns(old(rows), id, worker) then old(rows)[id := Unleased(old(rows)[id])] else old(rows)
    {
      if Owns(rows, id, worker) { rows := rows[id := Unleased(rows[id])]; }
    }

    /** None: the organization is inactive.  Err: the guarded update matched no row, the transaction rolled back. */
    method CommitMonitorResult(id: nat, snapshot: Monitor, worker: string, ok: bool, now: int)
      returns (r: Result<Option<()>, string>)
      modifies this`rows, this`checks
      ensures !orgActive ==> r == Ok(None)
      ensures orgActive && !Owns(old(rows), id, worker) ==> r.Err?
      ensures orgActive && Owns(old(rows), id, worker) ==> r == Ok(Some(()))
      ensures r == Ok(Some(())) ==> rows == old(rows)[id := Committed(old(rows)[id], snapshot, ok, now)]
      ensures r == Ok(Some(())) ==> checks == AppendCheck(old(checks), id, Check(ok, now))
      ensures r != Ok(Some(())) ==> rows == old(rows) && checks == old(checks)
    {
      if !orgActive { return Ok(None); }
      if !Owns(rows, id, worker) { return Err("Monitor lease is no longer owned by this worker"); }
      var consecutiveFails := if ok then 0 else snapshot.counters.fails + 1;
      var consecutiveOks := if ok then snapshot.counters.oks + 1 else 0;
      var wasDown := snapshot.counters.down;
      var isDown := if ok then wasDown && consecutiveOks < Max(1, snapshot.thresholds.recover)
                    else wasDown || consecutiveFails >= Max(1, snapshot.thresholds.fail);
      rows := rows[id := rows[id].(lastCheckedAt := Some(now), runRequestedAt := None,
                                   counters := Counters(consecutiveFails, consecutiveOks, isDown))];
      checks := checks[id := (if id in checks then checks[id] else []) + [Check(ok, now)]];
      r := Ok(Some(()));
    }

    /** The compensation for an incident that could not be created. */
    method UndoDown(id: nat, worker: string)
      modifies this`rows
      ensures rows == if Owns(old(rows), id, worker)
                      then old(rows)[id := old(rows)[id].(counters := old(rows)[id].counters.(down := false))] else old(rows)
    {
      if Owns(rows, id, worker) { rows := rows[id := rows[id].(counters := rows[id].counters.(down := false))]; }
    }
  }

  function AppendCheck(checks: map<nat, seq<Check>>, id: nat, check: Check): map<nat, seq<Check>> {
    checks[id := (if id in checks then checks[id] else []) + [check]]
  }

  // ===== every interleaving of the workers ====================================

  /** What has happened to one monitor, in order: the sequential machine's input. */
  datatype Event =
    | Checked(ok: bool, at: int)
    | Edited(thresholds: Thresholds)
    | IncidentFailed

  datatype Sequential = Sequential(thresholds: Thresholds, counters: Counters)

  /** The sequential machine: nobody else is running. */
  function Replay(start: Thresholds, history: seq<Event>): Sequential {
    if |history| == 0 then Sequential(start, UP)
    else
      var s := Replay(start, history[..|history| - 1]);
      match history[|history| - 1]
      case Checked(ok, _) => s.(counters := Judge(s.counters, s.thresholds, ok))
      case Edited(t) => s.(thresholds := t)
      case IncidentFailed => s.(counters := s.counters.(down := false))
  }

  function ChecksIn(history: seq<Event>): seq<Check> {
    if |history| == 0 then []
    else
      var front := ChecksIn(history[..|history| - 1]);
      match history[|history| - 1]
      case Checked(ok, at) => front + [Check(ok, at)]
      case _ => front
  }

  /** Where a worker is in processing a claimed monitor. */
  datatype Phase = Running | AfterCommit(becameDown: bool) | Finished

  /**
   * A check in progress.  `alone`: no other check of the row under the same
   * worker id has been in progress beside it.  `seen`: how many events the row
   * had gone through when it was leased.
   */
  datatype Claim = Claim(worker: string, id: nat, snapshot: Monitor, phase: Phase, alone: bool, seen: nat)

  datatype Record = Record(start: Thresholds, history: seq<Event>)

  /** `tainted` are the rows to which a claim committed that was neither alone nor untouched. */
  datatype State = State(
    rows: map<nat, Monitor>, checks: map<nat, seq<Check>>, orgActive: bool,
    claims: map<nat, Claim>, nextClaim: nat, records: map<nat, Record>, tainted: set<nat>)

  const INIT: State := State(map[], map[], true, map[], 0, map[], {})

  /** One atomic statement or transaction of some process, with every clock reading arbitrary. */
  datatype Step =
    | Create(id: nat, initial: Monitor)
    | Lease(worker: string, id: nat, now: int)
    | Renew(claim: nat, now: int)
    | Commit(claim: nat, ok: bool, now: int)
    | FailIncident(claim: nat)
    | SetIncident(claim: nat, incident: Option<nat>)
    | Release(claim: nat)
    | Crash(claim: nat)
    | Edit(id: nat, thresholds: Thresholds, now: int)
    | SetEnabled(id: nat, enabled: bool, now: int)
    | RunNow(id: nat, now: int)
    | Delete(id: nat)
    | SetOrgActive(active: bool)

  function Log(records: map<nat, Record>, id: nat, e: Event): map<nat, Record> {
    if id in records then records[id := records[id].(history := records[id].history + [e])] else records
  }

  predicate CanCommit(s: State, claim: nat) {
    && claim in s.claims && s.claims[claim].phase.Running?
    && s.orgActive && Owns(s.rows, s.claims[claim].id, s.claims[claim].worker)
  }

  function HistoryOf(s: State, id: nat): seq<Event> { if id in s.records then s.records[id].history else [] }

  predicate Claims(c: Claim, worker: string, id: nat) { c.worker == worker && c.id == id }

  predicate HasRival(claims: map<nat, Claim>, worker: string, id: nat) { exists k <- claims :: Claims(claims[k], worker, id) }

  /** Another lease of the row under the same worker id ends the solitude of those in progress. */
  function Joined(claims: map<nat, Claim>, worker: string, id: nat): map<nat, Claim> {
    map k | k in claims :: if Claims(claims[k], worker, id) then claims[k].(alone := false) else claims[k]
  }

  /** Nothing has happened to the row since the claim's lease. */
  predicate Untouched(s: State, c: Claim) { |HistoryOf(s, c.id)| == c.seen }

  predicate Safe(s: State, c: Claim) { c.alone || Untouched(s, c) }

  /** A step that is not enabled, or whose row guard matches nothing, changes no row. */
  function Apply(s: State, step: Step): State {
    match step
    case Create(id, initial) =>
      if id in s.rows || id in s.records then s
      else s.(rows := s.rows[id := Unleased(initial.(counters := UP))], checks := s.checks - {id},
              records := s.records[id := Record(initial.thresholds, [])])
    case Lease(worker, id, now) =>
      if id in s.rows && Leasable(s.rows[id], now)
      then var m := Leased(s.rows[id], worker, now);
           var c := Claim(worker, id, m, Running, !HasRival(s.claims, worker, id), |HistoryOf(s, id)|);
           s.(rows := s.rows[id := m], claims := Joined(s.claims, worker, id)[s.nextClaim := c], nextClaim := s.nextClaim + 1)
      else s
    case Renew(k, now) =>
      if k in s.claims && Owns(s.rows, s.claims[k].id, s.claims[k].worker)
      then var c := s.claims[k];
           s.(rows := s.rows[c.id := s.rows[c.id].(leaseExpiresAt := Some(now + LeaseMilliseconds(c.snapshot)))])
      else s
    case Commit(k, ok, now) =>
      if k !in s.claims || !s.claims[k].phase.Running? then s
      else
        var c := s.claims[k];
        if !CanCommit(s, k) then s.(claims := s.claims[k := c.(phase := Finished)])
        else
          var m := Committed(s.rows[c.id], c.snapshot, ok, now);
          s.(rows := s.rows[c.id := m], checks := AppendCheck(s.checks, c.id, Check(ok, now)),
             claims := s.claims[k := c.(phase := AfterCommit(!c.snapshot.counters.down && m.counters.down))],
             records := Log(s.records, c.id, Checked(ok, now)), tainted := if Safe(s, c) then s.tainted else s.tainted + {c.id})
    case FailIncident(k) =>
      if k !in s.claims || s.claims[k].phase != AfterCommit(true) then s
      else
        var c := s.claims[k];
        var s' := s.(claims := s.claims[k := c.(phase := Finished)]);
        if !Owns(s.rows, c.id, c.worker) then s'
        else s'.(rows := s.rows[c.id := s.rows[c.id].(counters := s.rows[c.id].counters.(down := false))],
                 records := Log(s.records, c.id, IncidentFailed))
    case SetIncident(k, incident) =>
      if k in s.claims && s.claims[k].phase.AfterCommit? && Owns(s.rows, s.claims[k].id, s.claims[k].worker)
      then s.(rows := s.rows[s.claims[k].id := s.rows[s.claims[k].id].(currentIncidentId := incident)])
      else s
    case Release(k) =>
      if k !in s.claims then s
      else
        var c := s.claims[k];
        var s' := s.(claims := s.claims - {k});
        if Owns(s.rows, c.id, c.worker) then s'.(rows := s.rows[c.id := Unleased(s.rows[c.id])]) else s'
    case Crash(k) => s.(claims := s.claims - {k})
    case Edit(id, t, now) =>
      if id in s.rows
      then s.(rows := s.rows[id := Unleased(s.rows[id].(thresholds := t, runRequestedAt := Some(now)))],
              records := Log(s.records, id, Edited(t)))
      else s
    case SetEnabled(id, enabled, now) =>
      if id in s.rows
      then s.(rows := s.rows[id := Unleased(s.rows[id].(enabled := enabled, runRequestedAt := if enabled then Some(now) else None))])
      else s
    case RunNow(id, now) =>
      if id in s.rows then s.(rows := s.rows[id := Unleased(s.rows[id].(runRequestedAt := Some(now)))]) else s
    case Delete(id) =>
      s.(rows := s.rows - {id}, checks := s.checks - {id})
    case SetOrgActive(active) => s.(orgActive := active)
  }

  function Run(s: State, steps: seq<Step>): State {
    if |steps| == 0 then s else Apply(Run(s, steps[..|steps| - 1]), steps[|steps| - 1])
  }

  // ----- the invariant --------------------------------------------------------

  /** A running claim that is untouched, or alone and still the owner, has an up-to-date snapshot. */
  ghost predicate Fresh(s: State, c: Claim) {
    c.phase.Running? && c.id in s.rows && (Untouched(s, c) || (c.alone && Owns(s.rows, c.id, c.worker))) ==>
      s.rows[c.id].counters == c.snapshot.counters && s.rows[c.id].thresholds == c.snapshot.thresholds
  }

  ghost predicate ClaimOk(s: State, k: nat)
    requires k in s.claims
  {
    && k < s.nextClaim && s.claims[k].id in s.records && s.claims[k].seen <= |HistoryOf(s, s.claims[k].id)|
    && Fresh(s, s.claims[k])
  }

  /** Claims of one worker id on one row know of each other. */
  ghost predicate RivalsKnown(claims: map<nat, Claim>) {
    forall j, k | j in claims && k in claims && j != k && claims[j].worker == claims[k].worker && claims[j].id == claims[k].id ::
      !claims[j].alone
  }

  ghost predicate ClaimsOk(s: State) {
    && (forall id <- s.rows :: id in s.records)
    && RivalsKnown(s.claims)
    && forall k <- s.claims :: ClaimOk(s, k)
  }

  ghost predicate RowMatches(s: State, id: nat)
    requires id in s.rows
  {
    && id in s.records
    && Replay(s.records[id].start, s.records[id].history) == Sequential(s.rows[id].thresholds, s.rows[id].counters)
    && (if id in s.checks then s.checks[id] else []) == ChecksIn(s.records[id].history)
  }

  ghost predicate Refines(s: State) {
    forall id <- s.rows | id !in s.tainted :: RowMatches(s, id)
  }

  ghost predicate Inv(s: State) { ClaimsOk(s) && Refines(s) }

  /** The same claim, perhaps further on. */
  predicate SameClaim(c: Claim, c': Claim) {
    c'.(phase := c.phase) == c && (c'.phase.Running? ==> c.phase.Running?)
  }

  /** Nothing happened to the claim's row, and its owner is at most taken away. */
  predicate Undisturbed(s: State, s': State, c: Claim) {
    && c.id in s'.records && HistoryOf(s', c.id) == HistoryOf(s, c.id)
    && (c.id in s'.rows ==>
          && c.id in s.rows && s'.rows[c.id].counters == s.rows[c.id].counters && s'.rows[c.id].thresholds == s.rows[c.id].thresholds
          && (Owns(s'.rows, c.id, c.worker) ==> Owns(s.rows, c.id, c.worker)))
  }

  lemma UndisturbedClaim(s: State, s': State, k: nat)
    requires k in s.claims && k in s'.claims && ClaimOk(s, k) && s'.nextClaim >= s.nextClaim
    requires SameClaim(s.claims[k], s'.claims[k]) && Undisturbed(s, s', s.claims[k])
    ensures ClaimOk(s', k)
  {
  }

  /** Something happened to the row of a claim that is running no more, or not alone, or no longer the owner. */
  lemma DisturbedClaim(s: State, s': State, k: nat)
    requires k in s.claims && k in s'.claims && ClaimOk(s, k) && s'.nextClaim >= s.nextClaim
    requires SameClaim(s.claims[k], s'.claims[k]) && s.claims[k].id in s'.records
    requires |HistoryOf(s', s.claims[k].id)| > |HistoryOf(s, s.claims[k].id)|
    requires s'.claims[k].phase.Running? && s'.claims[k].alone ==> !Owns(s'.rows, s.claims[k].id, s.claims[k].worker)
    ensures ClaimOk(s', k)
  {
  }

  lemma JoinedClaim(s: State, worker: string, id: nat, now: int, k: nat)
    requires ClaimsOk(s) && id in s.rows && Leasable(s.rows[id], now) && k in s.claims
    ensures ClaimOk(Apply(s, Lease(worker, id, now)), k)
  {
    assert ClaimOk(s, k);
  }

  lemma LeaseKeepsClaims(s: State, worker: string, id: nat, now: int)
    requires ClaimsOk(s)
    ensures ClaimsOk(Apply(s, Lease(worker, id, now)))
  {
    var s' := Apply(s, Lease(worker, id, now));
    if id in s.rows && Leasable(s.rows[id], now) {
      forall k <- s'.claims ensures ClaimOk(s', k) {
        if k in s.claims { JoinedClaim(s, worker, id, now, k); }
      }
    }
  }

  /** Another claim on the row either loses sight of it or never was alone. */
  lemma CommitKeepsClaims(s: State, n: nat, ok: bool, now: int)
    requires ClaimsOk(s)
    ensures ClaimsOk(Apply(s, Commit(n, ok, now)))
  {
    var s' := Apply(s, Commit(n, ok, now));
    forall k <- s'.claims ensures ClaimOk(s', k) { CommitKeepsClaim(s, n, ok, now, k); }
  }

  lemma CommitKeepsClaim(s: State, n: nat, ok: bool, now: int, k: nat)
    requires ClaimsOk(s) && k in s.claims
    ensures ClaimOk(Apply(s, Commit(n, ok, now)), k)
  {
    var s' := Apply(s, Commit(n, ok, now));
    assert ClaimOk(s, k);
    if CanCommit(s, n) && s.claims[k].id == s.claims[n].id {
      DisturbedClaim(s, s', k);
    } else {
      UndisturbedClaim(s, s', k);
    }
  }

  /** A rolled-back incident is an event of the row, and only the owner records it. */
  lemma RollbackKeepsClaim(s: State, n: nat, m: Monitor, k: nat)
    requires ClaimsOk(s) && k in s.claims && n in s.claims && s.claims[n].id in s.rows
    requires Owns(s.rows, s.claims[n].id, s.claims[n].worker) && m.leaseOwner == s.rows[s.claims[n].id].leaseOwner
    ensures ClaimOk(s.(claims := s.claims[n := s.claims[n].(phase := Finished)],
                       rows := s.rows[s.claims[n].id := m], records := Log(s.records, s.claims[n].id, IncidentFailed)), k)
  {
    var c := s.claims[n];
    var s' := s.(claims := s.claims[n := c.(phase := Finished)], rows := s.rows[c.id := m], records := Log(s.records, c.id, IncidentFailed));
    assert ClaimOk(s, k) && ClaimOk(s, n);
    if s.claims[k].id == c.id { DisturbedClaim(s, s', k); } else { UndisturbedClaim(s, s', k); }
  }

  lemma FinishedKeepsClaims(s: State, n: nat)
    requires ClaimsOk(s) && n in s.claims
    ensures ClaimsOk(s.(claims := s.claims[n := s.claims[n].(phase := Finished)]))
  {
    var s' := s.(claims := s.claims[n := s.claims[n].(phase := Finished)]);
    forall k <- s'.claims ensures ClaimOk(s', k) {
      assert ClaimOk(s, k);
      UndisturbedClaim(s, s', k);
    }
  }

  lemma FailIncidentKeepsClaims(s: State, n: nat)
    requires ClaimsOk(s)
    ensures ClaimsOk(Apply(s, FailIncident(n)))
  {
    if n in s.claims && s.claims[n].phase == AfterCommit(true) {
      FinishedKeepsClaims(s, n);
      var id := s.claims[n].id;
      if Owns(s.rows, id, s.claims[n].worker) {
        var m := s.rows[id].(counters := s.rows[id].counters.(down := false));
        forall k <- s.claims ensures ClaimOk(Apply(s, FailIncident(n)), k) { RollbackKeepsClaim(s, n, m, k); }
      }
    }
  }

  /** A row keeps its counters and thresholds, and its owner or none. */
  lemma RowReplacedKeepsClaims(s: State, id: nat, m: Monitor)
    requires ClaimsOk(s) && id in s.rows && m.counters == s.rows[id].counters && m.thresholds == s.rows[id].thresholds
    requires m.leaseOwner == s.rows[id].leaseOwner || m.leaseOwner.None?
    ensures ClaimsOk(s.(rows := s.rows[id := m]))
  {
    var s' := s.(rows := s.rows[id := m]);
    forall k <- s'.claims ensures ClaimOk(s', k) {
      assert ClaimOk(s, k);
      UndisturbedClaim(s, s', k);
    }
  }

  lemma CrashKeepsClaims(s: State, n: nat)
    requires ClaimsOk(s)
    ensures ClaimsOk(s.(claims := s.claims - {n}))
  {
    var s' := s.(claims := s.claims - {n});
    forall k <- s'.claims ensures ClaimOk(s', k) {
      assert ClaimOk(s, k);
      UndisturbedClaim(s, s', k);
    }
  }

  lemma ReleaseKeepsClaims(s: State, n: nat)
    requires ClaimsOk(s)
    ensures ClaimsOk(Apply(s, Release(n)))
  {
    if n in s.claims {
      var c, s' := s.claims[n], s.(claims := s.claims - {n});
      CrashKeepsClaims(s, n);
      if Owns(s.rows, c.id, c.worker) { RowReplacedKeepsClaims(s', c.id, Unleased(s.rows[c.id])); }
    }
  }

  lemma RenewKeepsClaims(s: State, k: nat, now: int)
    requires ClaimsOk(s)
    ensures ClaimsOk(Apply(s, Renew(k, now)))
  {
    if k in s.claims && Owns(s.rows, s.claims[k].id, s.claims[k].worker) {
      RowReplacedKeepsClaims(s, s.claims[k].id, Apply(s, Renew(k, now)).rows[s.claims[k].id]);
    }
  }

  lemma SetIncidentKeepsClaims(s: State, k: nat, incident: Option<nat>)
    requires ClaimsOk(s)
    ensures ClaimsOk(Apply(s, SetIncident(k, incident)))
  {
    if k in s.claims && s.claims[k].phase.AfterCommit? && Owns(s.rows, s.claims[k].id, s.claims[k].worker) {
      RowReplacedKeepsClaims(s, s.claims[k].id, s.rows[s.claims[k].id].(currentIncidentId := incident));
    }
  }

  /** Operator steps take the lease away. */
  lemma EditKeepsClaims(s: State, id: nat, t: Thresholds, now: int)
    requires ClaimsOk(s)
    ensures ClaimsOk(Apply(s, Edit(id, t, now)))
  {
    var s' := Apply(s, Edit(id, t, now));
    forall k <- s'.claims ensures ClaimOk(s', k) {
      assert ClaimOk(s, k);
      if id in s.rows && s.claims[k].id == id { DisturbedClaim(s, s', k); } else { UndisturbedClaim(s, s', k); }
    }
  }

  lemma SwitchKeepsClaims(s: State, id: nat, enabled: bool, runRequestedAt: Option<int>)
    requires ClaimsOk(s) && id in s.rows
    ensures ClaimsOk(s.(rows := s.rows[id := Unleased(s.rows[id].(enabled := enabled, runRequestedAt := runRequestedAt))]))
  {
    RowReplacedKeepsClaims(s, id, Unleased(s.rows[id].(enabled := enabled, runRequestedAt := runRequestedAt)));
  }

  lemma DeleteKeepsClaims(s: State, id: nat)
    requires ClaimsOk(s)
    ensures ClaimsOk(Apply(s, Delete(id)))
  {
    var s' := Apply(s, Delete(id));
    forall k <- s'.claims ensures ClaimOk(s', k) {
      assert ClaimOk(s, k);
      UndisturbedClaim(s, s', k);
    }
  }

  lemma CreateKeepsClaims(s: State, id: nat, initial: Monitor)
    requires ClaimsOk(s)
    ensures ClaimsOk(Apply(s, Create(id, initial)))
  {
    var s' := Apply(s, Create(id, initial));
    forall k <- s'.claims ensures ClaimOk(s', k) {
      assert ClaimOk(s, k);
      UndisturbedClaim(s, s', k);
    }
  }

  lemma SetOrgActiveKeepsClaims(s: State, active: bool)
    requires ClaimsOk(s)
    ensures ClaimsOk(s.(orgActive := active))
  {
    var s' := s.(orgActive := active);
    forall k <- s'.claims ensures ClaimOk(s', k) {
      assert ClaimOk(s, k);
      UndisturbedClaim(s, s', k);
    }
  }

  lemma StepKeepsClaims(s: State, step: Step)
    requires ClaimsOk(s)
    ensures ClaimsOk(Apply(s, step))
  {
    match step
    case Lease(worker, id, now) => LeaseKeepsClaims(s, worker, id, now);
    case Commit(k, ok, now) => CommitKeepsClaims(s, k, ok, now);
    case FailIncident(k) => FailIncidentKeepsClaims(s, k);
    case Release(k) => ReleaseKeepsClaims(s, k);
    case Crash(k) => CrashKeepsClaims(s, k);
    case Renew(k, now) => RenewKeepsClaims(s, k, now);
    case SetIncident(k, incident) => SetIncidentKeepsClaims(s, k, incident);
    case SetOrgActive(active) => SetOrgActiveKeepsClaims(s, active);
    case Create(id, initial) => CreateKeepsClaims(s, id, initial);
    case Edit(id, t, now) => EditKeepsClaims(s, id, t, now);
    case SetEnabled(id, enabled, now) =>
      if id in s.rows { SwitchKeepsClaims(s, id, enabled, if enabled then Some(now) else None); }
    case RunNow(id, now) => if id in s.rows { SwitchKeepsClaims(s, id, s.rows[id].enabled, Some(now)); }
    case Delete(id) => DeleteKeepsClaims(s, id);
  }

  /** A logged event extends the history by exactly the change the row underwent. */
  lemma LoggedRowMatches(s: State, s': State, id: nat, e: Event)
    requires id in s.rows && id in s'.rows && RowMatches(s, id)
    requires s'.records == Log(s.records, id, e)
    requires var r := Replay(s.records[id].start, s.records[id].history);
             Sequential(s'.rows[id].thresholds, s'.rows[id].counters) ==
             match e
             case Checked(ok, _) => r.(counters := Judge(r.counters, r.thresholds, ok))
             case Edited(t) => r.(thresholds := t)
             case IncidentFailed => r.(counters := r.counters.(down := false))
    requires s'.checks == if e.Checked? then AppendCheck(s.checks, id, Check(e.ok, e.at)) else s.checks
    ensures RowMatches(s', id)
  {
    var history := s.records[id].history;
    assert (history + [e])[..|history + [e]| - 1] == history;
  }

  /** A step that leaves counters, thresholds, history and checks of a row alone. */
  ghost predicate Unlogged(s: State, s': State, id: nat) {
    && id in s.rows && id in s'.rows
    && s'.rows[id].thresholds == s.rows[id].thresholds && s'.rows[id].counters == s.rows[id].counters
    && (id in s'.records <==> id in s.records) && (id in s.records ==> s'.records[id] == s.records[id])
    && (id in s'.checks <==> id in s.checks) && (id in s.checks ==> s'.checks[id] == s.checks[id])
  }

  lemma UnloggedRowMatches(s: State, s': State, id: nat)
    requires Unlogged(s, s', id) && RowMatches(s, id)
    ensures RowMatches(s', id)
  {
  }

  lemma LeaseStepsAreUnlogged(s: State, step: Step, id: nat)
    requires step.Lease? || step.Renew?
    requires id in Apply(s, step).rows
    ensures Unlogged(s, Apply(s, step), id) && Apply(s, step).tainted == s.tainted
  {
  }

  lemma WorkerStepsAreUnlogged(s: State, step: Step, id: nat)
    requires step.SetIncident? || step.Release?
    requires id in Apply(s, step).rows
    ensures Unlogged(s, Apply(s, step), id) && Apply(s, step).tainted == s.tainted
  {
  }

  lemma OperatorStepsAreUnlogged(s: State, step: Step, id: nat)
    requires step.SetEnabled? || step.RunNow?
    requires id in Apply(s, step).rows
    ensures Unlogged(s, Apply(s, step), id) && Apply(s, step).tainted == s.tainted
  {
  }

  lemma RemovalsAreUnlogged(s: State, step: Step, id: nat)
    requires step.Crash? || step.Delete? || step.SetOrgActive?
    requires id in Apply(s, step).rows
    ensures Unlogged(s, Apply(s, step), id) && Apply(s, step).tainted == s.tainted
  {
  }

  lemma CommitKeepsRowMatches(s: State, k: nat, ok: bool, now: int, id: nat)
    requires ClaimsOk(s) && id in s.rows && RowMatches(s, id) && id !in Apply(s, Commit(k, ok, now)).tainted
    ensures id in Apply(s, Commit(k, ok, now)).rows && RowMatches(Apply(s, Commit(k, ok, now)), id)
  {
    var s' := Apply(s, Commit(k, ok, now));
    if CanCommit(s, k) && id == s.claims[k].id {
      assert ClaimOk(s, k);
      LoggedRowMatches(s, s', id, Checked(ok, now));
    } else {
      UnloggedRowMatches(s, s', id);
    }
  }

  lemma FailIncidentKeepsRowMatches(s: State, k: nat, id: nat)
    requires id in s.rows && RowMatches(s, id)
    ensures id in Apply(s, FailIncident(k)).rows && RowMatches(Apply(s, FailIncident(k)), id)
  {
    var s' := Apply(s, FailIncident(k));
    if k in s.claims && s.claims[k].phase == AfterCommit(true) && id == s.claims[k].id && Owns(s.rows, id, s.claims[k].worker) {
      LoggedRowMatches(s, s', id, IncidentFailed);
    } else {
      UnloggedRowMatches(s, s', id);
    }
  }

  lemma EditKeepsRowMatches(s: State, i: nat, t: Thresholds, now: int, id: nat)
    requires id in s.rows && RowMatches(s, id)
    ensures id in Apply(s, Edit(i, t, now)).rows && RowMatches(Apply(s, Edit(i, t, now)), id)
  {
    var s' := Apply(s, Edit(i, t, now));
    if id == i { LoggedRowMatches(s, s', id, Edited(t)); } else { UnloggedRowMatches(s, s', id); }
  }

  lemma CreateKeepsRowMatches(s: State, i: nat, initial: Monitor, id: nat)
    requires Refines(s) && id in Apply(s, Create(i, initial)).rows && id !in s.tainted
    ensures RowMatches(Apply(s, Create(i, initial)), id)
  {
    if id in s.rows { UnloggedRowMatches(s, Apply(s, Create(i, initial)), id); }
  }

  lemma StepOnlyTaints(s: State, step: Step)
    ensures s.tainted <= Apply(s, step).tainted && (!step.Create? ==> Apply(s, step).rows.Keys <= s.rows.Keys)
  {
  }

  lemma StepKeepsRowMatches(s: State, step: Step, id: nat)
    requires Refines(s) && ClaimsOk(s) && id in Apply(s, step).rows && id !in Apply(s, step).tainted
    ensures RowMatches(Apply(s, step), id)
  {
    StepOnlyTaints(s, step);
    if step.Create? {
      CreateKeepsRowMatches(s, step.id, step.initial, id);
    } else {
      assert id in s.rows.Keys && RowMatches(s, id);
      match step
      case Commit(k, ok, now) => CommitKeepsRowMatches(s, k, ok, now, id);
      case FailIncident(k) => FailIncidentKeepsRowMatches(s, k, id);
      case Edit(i, t, now) => EditKeepsRowMatches(s, i, t, now, id);
      case _ =>
        if step.SetEnabled? || step.RunNow? {
          OperatorStepsAreUnlogged(s, step, id);
        } else if step.Crash? || step.Delete? || step.SetOrgActive? {
          RemovalsAreUnlogged(s, step, id);
        } else if step.Lease? || step.Renew? {
          LeaseStepsAreUnlogged(s, step, id);
        } else {
          WorkerStepsAreUnlogged(s, step, id);
        }
        UnloggedRowMatches(s, Apply(s, step), id);
    }
  }

  lemma StepKeepsInv(s: State, step: Step)
    requires Inv(s)
    ensures Inv(Apply(s, step))
  {
    StepKeepsClaims(s, step);
    forall id <- Apply(s, step).rows | id !in Apply(s, step).tainted ensures RowMatches(Apply(s, step), id) {
      StepKeepsRowMatches(s, step, id);
    }
  }

  lemma {:induction false} RunKeepsInv(steps: seq<Step>)
    ensures Inv(Run(INIT, steps))
  {
    if |steps| != 0 {
      RunKeepsInv(steps[..|steps| - 1]);
      StepKeepsInv(Run(INIT, steps[..|steps| - 1]), steps[|steps| - 1]);
    }
  }

  // ----- main results ---------------------------------------------------------

  ghost predicate Reachable(s: State) { exists steps :: s == Run(INIT, steps) }

  lemma ReachableInv(s: State)
    requires Reachable(s)
    ensures Inv(s)
  {
    var steps :| s == Run(INIT, steps);
    RunKeepsInv(steps);
  }

  /**
   * In every interleaving, a commit that passes the ownership guard applies the
   * threshold machine to the values the row holds just before it, if the claim
   * is alone under its worker id or nothing happened to the row since its lease.
   */
  lemma CommitIsSequential(s: State, k: nat, ok: bool, now: int)
    requires Reachable(s) && CanCommit(s, k) && Safe(s, s.claims[k])
    ensures var before, after := s.rows[s.claims[k].id], Apply(s, Commit(k, ok, now)).rows[s.claims[k].id];
            after.counters == Judge(before.counters, before.thresholds, ok) && after.thresholds == before.thresholds
    ensures var before, after := s.rows[s.claims[k].id].counters, Judge(s.rows[s.claims[k].id].counters, s.rows[s.claims[k].id].thresholds, ok);
            Apply(s, Commit(k, ok, now)).claims[k].phase == AfterCommit(!before.down && after.down)
  {
    ReachableInv(s);
    assert ClaimOk(s, k);
  }

  /** However many workers believe they hold a monitor: a claim that is alone and may commit is the only one that may. */
  lemma AtMostOneCommitter(s: State, j: nat, k: nat)
    requires Reachable(s) && CanCommit(s, j) && CanCommit(s, k) && s.claims[j].id == s.claims[k].id && s.claims[j].alone
    ensures j == k
  {
    ReachableInv(s);
  }

  /** The commit writes what the threshold machine makes of the values the row holds just before it. */
  ghost predicate CommitsInTurn(s: State, k: nat, ok: bool)
    requires CanCommit(s, k)
  {
    var row := s.rows[s.claims[k].id];
    forall now :: Apply(s, Commit(k, ok, now)).rows[s.claims[k].id].counters == Judge(row.counters, row.thresholds, ok)
  }

  predicate StaysDown(m: Monitor) { m.counters.down && m.counters.oks + 1 < Max(1, m.thresholds.recover) }

  predicate GoesDown(m: Monitor) { m.counters.down || m.counters.fails + 1 >= Max(1, m.thresholds.fail) }

  /** The commit also reports a new down transition to the incident code, from the snapshot's flag. */
  ghost predicate ReportsInTurn(s: State, k: nat, ok: bool)
    requires CanCommit(s, k)
  {
    var row := s.rows[s.claims[k].id];
    forall now :: Apply(s, Commit(k, ok, now)).claims[k].phase ==
                  AfterCommit(!row.counters.down && Judge(row.counters, row.thresholds, ok).down)
  }

  function Verdict(m: Monitor, ok: bool): Counters { Judge(m.counters, m.thresholds, ok) }

  lemma JudgedAlikeIff(a: Monitor, b: Monitor)
    ensures Verdict(a, true) == Verdict(b, true) <==> a.counters.oks == b.counters.oks && StaysDown(a) == StaysDown(b)
    ensures Verdict(a, false) == Verdict(b, false) <==> a.counters.fails == b.counters.fails && GoesDown(a) == GoesDown(b)
  {
  }

  /** What a commit writes and reports comes from the snapshot alone. */
  lemma CommitWrites(s: State, k: nat, ok: bool, now: int)
    requires CanCommit(s, k)
    ensures var s', a := Apply(s, Commit(k, ok, now)), s.claims[k].snapshot;
            && s'.rows[s.claims[k].id].counters == Verdict(a, ok)
            && s'.claims[k].phase == AfterCommit(!a.counters.down && Verdict(a, ok).down)
  {
  }

  lemma InTurnIff(s: State, k: nat, ok: bool)
    requires CanCommit(s, k)
    ensures var a, b := s.claims[k].snapshot, s.rows[s.claims[k].id];
            && (CommitsInTurn(s, k, ok) <==> Verdict(a, ok) == Verdict(b, ok))
            && (ReportsInTurn(s, k, ok) <==> (!a.counters.down && Verdict(a, ok).down) == (!b.counters.down && Verdict(b, ok).down))
  {
    forall now { CommitWrites(s, k, ok, now); }
    CommitWrites(s, k, ok, 0);
    var s' := Apply(s, Commit(k, ok, 0));
  }

  /**
   * The exact condition on a stale snapshot, which brings its own thresholds: for
   * a passing check that the runs of successes agree and both sides, each under
   * its thresholds, stay down or not; for a failing one the same of failures.
   */
  lemma StaleSnapshotIff(s: State, k: nat)
    requires CanCommit(s, k)
    ensures var snapshot, row := s.claims[k].snapshot, s.rows[s.claims[k].id];
            && (CommitsInTurn(s, k, true) <==> snapshot.counters.oks == row.counters.oks && StaysDown(snapshot) == StaysDown(row))
            && (CommitsInTurn(s, k, false) <==> snapshot.counters.fails == row.counters.fails && GoesDown(snapshot) == GoesDown(row))
  {
    InTurnIff(s, k, true);
    InTurnIff(s, k, false);
    JudgedAlikeIff(s.claims[k].snapshot, s.rows[s.claims[k].id]);
  }

  /** With the report right as well, whatever the check says: counters and flag agree, and the one threshold that matters decides alike. */
  lemma StaleReportIff(s: State, k: nat)
    requires CanCommit(s, k)
    ensures var a, b := s.claims[k].snapshot, s.rows[s.claims[k].id];
            (forall ok :: CommitsInTurn(s, k, ok) && ReportsInTurn(s, k, ok)) <==>
            (a.counters == b.counters && if b.counters.down then StaysDown(a) == StaysDown(b) else GoesDown(a) == GoesDown(b))
  {
    InTurnIff(s, k, true);
    InTurnIff(s, k, false);
    JudgedAlikeIff(s.claims[k].snapshot, s.rows[s.claims[k].id]);
    assert (forall ok :: CommitsInTurn(s, k, ok) && ReportsInTurn(s, k, ok)) <==>
           CommitsInTurn(s, k, true) && ReportsInTurn(s, k, true) && CommitsInTurn(s, k, false) && ReportsInTurn(s, k, false);
  }

  /**
   * No lost update: a row to which only safe claims committed is what the
   * sequential machine makes of its own history, and its check rows are that
   * history's checks.
   */
  lemma RunsRefineSequentialMachine(s: State, id: nat)
    requires Reachable(s) && id in s.rows && id !in s.tainted
    ensures id in s.records
    ensures Sequential(s.rows[id].thresholds, s.rows[id].counters) == Replay(s.records[id].start, s.records[id].history)
    ensures (if id in s.checks then s.checks[id] else []) == ChecksIn(s.records[id].history)
  {
    ReachableInv(s);
    assert RowMatches(s, id);
  }

  /** A worker id does not lease a row on which it still has a check in progress. */
  predicate NoRivals(s: State, steps: seq<Step>) {
    |steps| == 0 ||
    var before, last := Run(s, steps[..|steps| - 1]), steps[|steps| - 1];
    NoRivals(s, steps[..|steps| - 1]) && !(last.Lease? && HasRival(before.claims, last.worker, last.id))
  }

  ghost predicate NoneTainted(s: State) { s.tainted == {} && forall k <- s.claims :: s.claims[k].alone }

  lemma StepLeavesAlone(s: State, step: Step)
    requires NoneTainted(s) && !(step.Lease? && HasRival(s.claims, step.worker, step.id))
    ensures NoneTainted(Apply(s, step))
  {
    if step.Lease? { forall k <- s.claims ensures !Claims(s.claims[k], step.worker, step.id) {} }
  }

  lemma {:induction false} NoRivalsNoTaint(steps: seq<Step>)
    requires NoRivals(INIT, steps)
    ensures NoneTainted(Run(INIT, steps))
  {
    if |steps| != 0 {
      NoRivalsNoTaint(steps[..|steps| - 1]);
      StepLeavesAlone(Run(INIT, steps[..|steps| - 1]), steps[|steps| - 1]);
    }
  }

  /**
   * As long as no worker id leases a row on which it still has a check in
   * progress, nothing is lost at all: every commit is sequential, and every row
   * and its checks replay from the row's own history.
   */
  lemma WithoutRivalsNothingIsLost(steps: seq<Step>)
    requires NoRivals(INIT, steps)
    ensures var s := Run(INIT, steps);
            && (forall id <- s.rows :: RowMatches(s, id))
            && (forall k, ok | CanCommit(s, k) :: CommitsInTurn(s, k, ok) && ReportsInTurn(s, k, ok))
            && (forall j, k | CanCommit(s, j) && CanCommit(s, k) && s.claims[j].id == s.claims[k].id :: j == k)
  {
    var s := Run(INIT, steps);
    NoRivalsNoTaint(steps);
    RunKeepsInv(steps);
    forall k, ok | CanCommit(s, k) ensures CommitsInTurn(s, k, ok) && ReportsInTurn(s, k, ok) {
      forall now { CommitIsSequential(s, k, ok, now); }
    }
    forall j, k | CanCommit(s, j) && CanCommit(s, k) && s.claims[j].id == s.claims[k].id ensures j == k { AtMostOneCommitter(s, j, k); }
  }

  function ResultsOf(checks: seq<Check>): seq<bool> {
    if |checks| == 0 then [] else ResultsOf(checks[..|checks| - 1]) + [checks[|checks| - 1].ok]
  }

  lemma {:induction false} ReplayOfChecksOnly(start: Thresholds, history: seq<Event>)
    requires forall e <- history :: e.Checked?
    ensures Replay(start, history) == Sequential(start, JudgeAll(start, ResultsOf(ChecksIn(history))))
  {
    if |history| != 0 {
      var front := history[..|history| - 1];
      ReplayOfChecksOnly(start, front);
      var e := history[|history| - 1];
      assert e in history;
      var checks := ChecksIn(front) + [Check(e.ok, e.at)];
      assert checks[..|checks| - 1] == ChecksIn(front);
      var results := ResultsOf(ChecksIn(front)) + [e.ok];
      assert results[..|results| - 1] == ResultsOf(ChecksIn(front));
    }
  }

  function ResultsFor(s: State, id: nat): seq<bool> { ResultsOf(if id in s.checks then s.checks[id] else []) }

  /** Never edited, no incident rolled back. */
  ghost predicate OnlyChecked(s: State, id: nat) { id in s.records && forall e <- s.records[id].history :: e.Checked? }

  /**
   * For a monitor that was never edited and had no incident rolled back, however
   * many workers raced for it: it is down exactly when, among its committed
   * checks, the failure threshold was completed last.
   */
  lemma DownFromCommittedChecks(s: State, id: nat)
    requires Reachable(s) && id in s.rows && id !in s.tainted && OnlyChecked(s, id)
    ensures var results, t := ResultsFor(s, id), s.rows[id].thresholds;
            s.rows[id].counters.down <==>
            LastCompletion(results, false, Max(1, t.fail), |results|) > LastCompletion(results, true, Max(1, t.recover), |results|)
  {
    RunsRefineSequentialMachine(s, id);
    ReplayOfChecksOnly(s.records[id].start, s.records[id].history);
    DownCharacterization(s.rows[id].thresholds, ResultsFor(s, id));
  }

  // ----- a second claim under one worker id -----------------------------------

  const SAMPLE: Monitor := Monitor(true, None, None, None, 60, None, 1000, Thresholds(3, 1), UP, None)

  lemma ExtendRun(steps: seq<Step>, s: State, step: Step)
    requires Run(INIT, steps) == s
    ensures Run(INIT, steps + [step]) == Apply(s, step)
  {
    assert (steps + [step])[..|steps|] == steps;
  }

  /** Row 0 is up and leased by worker "w", who has two running claims on it. */
  ghost predicate TwoClaims(s: State) {
    && s.orgActive && s.claims.Keys == {0, 1} && s.nextClaim == 2
    && (forall k <- s.claims :: Claims(s.claims[k], "w", 0) && s.claims[k].phase.Running? && s.claims[k].snapshot.counters == UP)
    && s.claims[1].seen == 0 && !s.claims[1].alone && s.claims[1].snapshot.thresholds == SAMPLE.thresholds
    && s.rows.Keys == {0} && s.rows[0].leaseOwner == Some("w") && s.rows[0].counters == UP && s.rows[0].thresholds == SAMPLE.thresholds
    && s.records.Keys == {0}
  }

  lemma LeasedTwice() returns (steps: seq<Step>)
    ensures TwoClaims(Run(INIT, steps))
  {
    var s := INIT;
    steps := [];
    ExtendRun(steps, s, Create(0, SAMPLE));
    steps, s := steps + [Create(0, SAMPLE)], Apply(s, Create(0, SAMPLE));
    ExtendRun(steps, s, Lease("w", 0, 0));
    steps, s := steps + [Lease("w", 0, 0)], Apply(s, Lease("w", 0, 0));
    ExtendRun(steps, s, RunNow(0, 1));
    steps, s := steps + [RunNow(0, 1)], Apply(s, RunNow(0, 1));
    ExtendRun(steps, s, Lease("w", 0, 2));
    steps, s := steps + [Lease("w", 0, 2)], Apply(s, Lease("w", 0, 2));
    assert !s.claims[1].alone by { assert Claims(s.claims[0], "w", 0); }
  }

  lemma LaterCommitLoses(s: State)
    requires TwoClaims(s)
    ensures var s' := Apply(s, Commit(0, false, 3));
            && CanCommit(s', 1) && s'.claims[1].id == 0 && !Safe(s', s'.claims[1])
            && Apply(s', Commit(1, false, 4)).rows[0].counters != Judge(s'.rows[0].counters, s'.rows[0].thresholds, false)
  {
    assert 0 in s.claims && 1 in s.claims;
  }

  /**
   * A check is still running when an operator asks for a run now, which clears
   * the lease, and the next sweep under the same worker id leases the row again.
   * Both claims pass the guard, and the later commit loses the earlier one's failure.
   */
  lemma SharedWorkerIdLosesUpdate() returns (steps: seq<Step>)
    ensures var s := Run(INIT, steps);
            && CanCommit(s, 1) && s.claims[1].id == 0 && !Safe(s, s.claims[1])
            && Apply(s, Commit(1, false, 4)).rows[0].counters != Judge(s.rows[0].counters, s.rows[0].thresholds, false)
  {
    var before := LeasedTwice();
    ExtendRun(before, Run(INIT, before), Commit(0, false, 3));
    LaterCommitLoses(Run(INIT, before));
    steps := before + [Commit(0, false, 3)];
  }

  const EAGER: Monitor := SAMPLE.(thresholds := Thresholds(1, 1))

  /** Row 0 is up, leased by worker "w" and demands three failures; claim 0 was made when one was enough. */
  ghost predicate StaleThresholds(s: State) {
    && s.orgActive && 0 in s.rows && 0 in s.claims && Claims(s.claims[0], "w", 0) && s.claims[0].phase.Running?
    && !s.claims[0].alone && s.claims[0].seen == 0 && |HistoryOf(s, 0)| == 1
    && s.claims[0].snapshot.counters == UP && s.claims[0].snapshot.thresholds == Thresholds(1, 1)
    && s.rows[0].leaseOwner == Some("w") && s.rows[0].counters == UP && s.rows[0].thresholds == Thresholds(3, 1)
  }

  lemma EditedBetweenLeases() returns (steps: seq<Step>)
    ensures StaleThresholds(Run(INIT, steps))
  {
    var s := INIT;
    steps := [];
    ExtendRun(steps, s, Create(0, EAGER));
    steps, s := steps + [Create(0, EAGER)], Apply(s, Create(0, EAGER));
    ExtendRun(steps, s, Lease("w", 0, 0));
    steps, s := steps + [Lease("w", 0, 0)], Apply(s, Lease("w", 0, 0));
    ExtendRun(steps, s, Edit(0, Thresholds(3, 1), 1));
    steps, s := steps + [Edit(0, Thresholds(3, 1), 1)], Apply(s, Edit(0, Thresholds(3, 1), 1));
    ExtendRun(steps, s, Lease("w", 0, 2));
    steps, s := steps + [Lease("w", 0, 2)], Apply(s, Lease("w", 0, 2));
  }

  /**
   * The same with an edit, which clears the lease too: counters and flags of
   * snapshot and row agree, but the old threshold takes the monitor down.
   */
  lemma EditBetweenLeasesIsIgnored() returns (steps: seq<Step>)
    ensures var s := Run(INIT, steps);
            && CanCommit(s, 0) && s.claims[0].id == 0 && s.claims[0].snapshot.counters == s.rows[0].counters
            && !CommitsInTurn(s, 0, false) && Apply(s, Commit(0, false, 4)).rows[0].counters.down
            && !Judge(s.rows[0].counters, s.rows[0].thresholds, false).down
  {
    steps := EditedBetweenLeases();
    StaleSnapshotIff(Run(INIT, steps), 0);
  }
}
