/**
 * Sealing and pruning the audit log (lib/audit-integrity.ts), alone and in any
 * sequence with late inserts.
 */
module AuditLog {
  import opened Wrappers
  import opened Sorting
  import opened Distinctness
  import opened AuditIntegrity

  // ===== sealing ==============================================================

  datatype Sealing = Sealing(rows: map<string, AuditRow>, previousHash: Option<Digest>, sequence: int)

  function SealedRow(h: Hash, s: Sealing, r: AuditRow): AuditRow {
    r.(previousHash := s.previousHash, entryHash := Some(EntryHash(h, s.previousHash, r)), chainSequence := Some(s.sequence + 1))
  }

  function SealOne(h: Hash, s: Sealing, id: string): Sealing {
    if id !in s.rows then s
    else
      var r := SealedRow(h, s, s.rows[id]);
      Sealing(s.rows[id := r], r.entryHash, s.sequence + 1)
  }

  function SealAll(h: Hash, s: Sealing, batch: seq<string>): Sealing {
    if |batch| == 0 then s else SealOne(h, SealAll(h, s, batch[..|batch| - 1]), batch[|batch| - 1])
  }

  lemma {:induction false} SealAllConcat(h: Hash, s: Sealing, a: seq<string>, b: seq<string>)
    ensures SealAll(h, s, a + b) == SealAll(h, SealAll(h, s, a), b)
  {
    if |b| == 0 {
      assert a + b == a;
    } else {
      SealAllConcat(h, s, a, b[..|b| - 1]);
      assert (a + b)[..|a + b| - 1] == a + b[..|b| - 1];
    }
  }

  // ===== deliveries to audit sinks ============================================

  /** A sink of the whole installation, or of one organization. */
  datatype Sink = Sink(id: string, orgId: Option<string>, enabled: bool)

  /** The payload of a delivery job: the entry's canonical content and its place in the chain. */
  datatype Delivery = Delivery(
    sinkId: string, content: Json, previousHash: Option<Digest>, entryHash: Option<Digest>, chainSequence: Option<int>)

  function OrganizationOf(columns: seq<Field>): Option<string> {
    if |columns| == 0 then None
    else if columns[0].key == "organizationId" then if columns[0].value.Text? then Some(columns[0].value.s) else None
    else OrganizationOf(columns[1..])
  }

  predicate Receives(sink: Sink, r: AuditRow) {
    sink.enabled && (sink.orgId.None? || sink.orgId == OrganizationOf(r.columns))
  }

  function DeliveryKey(sinkId: string, id: string): string { sinkId + ":" + id }

  function DeliveryOf(h: Hash, sink: Sink, r: AuditRow): Delivery {
    Delivery(sink.id, Content(h, r), r.previousHash, r.entryHash, r.chainSequence)
  }

  /** The jobs for one sealed entry, doing nothing on a key that exists. */
  function Enqueued(h: Hash, deliveries: map<string, Delivery>, sinks: seq<Sink>, id: string, r: AuditRow): map<string, Delivery> {
    if |sinks| == 0 then deliveries
    else
      var before, sink := Enqueued(h, deliveries, sinks[..|sinks| - 1], id, r), sinks[|sinks| - 1];
      if !Receives(sink, r) || DeliveryKey(sink.id, id) in before then before
      else before[DeliveryKey(sink.id, id) := DeliveryOf(h, sink, r)]
  }

  function EnqueueAll(h: Hash, s: Sealing, batch: seq<string>, sinks: seq<Sink>, deliveries: map<string, Delivery>): map<string, Delivery> {
    if |batch| == 0 then deliveries
    else
      var id, t := batch[|batch| - 1], SealAll(h, s, batch[..|batch| - 1]);
      var before := EnqueueAll(h, s, batch[..|batch| - 1], sinks, deliveries);
      if id !in t.rows then before else Enqueued(h, before, sinks, id, SealedRow(h, t, t.rows[id]))
  }

  lemma SealStep(h: Hash, s: Sealing, batch: seq<string>, k: nat, sinks: seq<Sink>, deliveries: map<string, Delivery>)
    requires k < |batch|
    ensures var t := SealAll(h, s, batch[..k]);
            && SealAll(h, s, batch[..k + 1]) == SealOne(h, t, batch[k])
            && (batch[k] in t.rows ==>
                  EnqueueAll(h, s, batch[..k + 1], sinks, deliveries) ==
                  Enqueued(h, EnqueueAll(h, s, batch[..k], sinks, deliveries), sinks, batch[k], SealedRow(h, t, t.rows[batch[k]])))
  {
    assert batch[..k + 1][..k] == batch[..k];
  }

  // ===== the tables ===========================================================

  /** The single chain-state row is created on first use. */
  function Locked(chain: Option<ChainState>): ChainState {
    chain.GetOr(ChainState(None, 0, None, None))
  }

  /** Some rows the backlog query may return: unsealed, in any number and order. */
  ghost predicate IsBacklogAnswer(rows: map<string, AuditRow>, batch: seq<string>) {
    Distinct(batch) && forall id <- batch :: id in rows && rows[id].entryHash.None?
  }

  predicate Prunable(r: AuditRow, before: int) {
    r.createdAt < before && r.entryHash.Some? && r.chainSequence.Some? && r.chainSequence.value > 0
  }

  /** The sealed row older than the cutoff that has the greatest sequence number, if there is one. */
  ghost predicate IsLastRemovedAnswer(rows: map<string, AuditRow>, before: int, last: Option<string>) {
    match last
    case None => forall id <- rows :: !Prunable(rows[id], before)
    case Some(id) =>
      && id in rows && Prunable(rows[id], before)
      && forall other <- rows | Prunable(rows[other], before) :: rows[other].chainSequence.value <= rows[id].chainSequence.value
  }

  predicate UpTo(r: AuditRow, sequence: int) { r.chainSequence.Some? && r.chainSequence.value <= sequence }

  function Without(rows: map<string, AuditRow>, sequence: int): map<string, AuditRow> {
    map id | id in rows && !UpTo(rows[id], sequence) :: rows[id]
  }

  class AuditTables {
    var rows: map<string, AuditRow>
    var chain: Option<ChainState>
    var sinks: seq<Sink>
    var deliveries: map<string, Delivery>

    constructor (sinks: seq<Sink>)
      ensures rows == map[] && chain == None && this.sinks == sinks && deliveries == map[]
    {
      rows, chain, this.sinks, deliveries := map[], None, sinks, map[];
    }

    /** One sealing transaction over the rows the locked backlog query returned. */
    method SealAuditEntries(h: Hash, batch: seq<string>) returns (count: int)
      requires IsBacklogAnswer(rows, batch)
      modifies this`rows, this`chain, this`deliveries
      ensures count == |batch|
      ensures var s := SealAll(h, Sealing(old(rows), Locked(old(chain)).latestHash, Locked(old(chain)).sequence), batch);
              rows == s.rows && chain == Some(Locked(old(chain)).(latestHash := s.previousHash, sequence := s.sequence))
      ensures var s := Sealing(old(rows), Locked(old(chain)).latestHash, Locked(old(chain)).sequence);
              deliveries == EnqueueAll(h, s, batch, sinks, old(deliveries))
    {
      var state := Locked(chain);
      chain := Some(state);
      var previousHash, sequence := state.latestHash, state.sequence;
      if |batch| == 0 { return 0; }
      ghost var start := Sealing(rows, previousHash, sequence);
      for k := 0 to |batch|
        invariant Sealing(rows, previousHash, sequence) == SealAll(h, start, batch[..k])
        invariant deliveries == EnqueueAll(h, start, batch[..k], sinks, old(deliveries))
        invariant forall id <- start.rows :: id in rows
        invariant forall i | k <= i < |batch| :: batch[i] in rows && rows[batch[i]] == start.rows[batch[i]]
        invariant chain == Some(state)
      {
        SealStep(h, start, batch, k, sinks, old(deliveries));
        sequence := sequence + 1;
        var hash := SealEntry(h, batch[k], previousHash, sequence);
        previousHash := Some(hash);
      }
      assert batch[..|batch|] == batch;
      chain := Some(state.(latestHash := previousHash, sequence := sequence));
      count := |batch|;
    }

    /** One pass of the loop; the update is guarded by the missing digest. */
    method SealEntry(h: Hash, id: string, previousHash: Option<Digest>, sequence: int) returns (hash: Digest)
      requires id in rows && rows[id].entryHash.None?
      modifies this`rows, this`deliveries
      ensures var sealed := SealedRow(h, Sealing(old(rows), previousHash, sequence - 1), old(rows)[id]);
              && sealed.entryHash == Some(hash) && rows == old(rows)[id := sealed]
              && deliveries == Enqueued(h, old(deliveries), sinks, id, sealed)
    {
      var entry := rows[id];
      hash := EntryHash(h, previousHash, entry);
      var sealed := entry.(previousHash := previousHash, entryHash := Some(hash), chainSequence := Some(sequence));
      rows := rows[id := sealed];
      ContentIgnoresChainColumns(h, entry, sealed);
      EnqueueDeliveries(h, id, sealed, Content(h, entry));
    }

    method EnqueueDeliveries(ghost h: Hash, id: string, sealed: AuditRow, content: Json)
      requires content == Content(h, sealed)
      modifies this`deliveries
      ensures deliveries == Enqueued(h, old(deliveries), sinks, id, sealed)
    {
      for k := 0 to |sinks|
        invariant deliveries == Enqueued(h, old(deliveries), sinks[..k], id, sealed)
      {
        assert sinks[..k + 1][..k] == sinks[..k];
        var sink := sinks[k];
        if Receives(sink, sealed) && DeliveryKey(sink.id, id) !in deliveries {
          deliveries := deliveries[DeliveryKey(sink.id, id) :=
            Delivery(sink.id, content, sealed.previousHash, sealed.entryHash, sealed.chainSequence)];
        }
      }
      assert sinks[..|sinks|] == sinks;
    }

    /** One pruning transaction, given the answer of its lookup. */
    method PruneAuditBefore(before: int, last: Option<string>) returns (removed: int)
      requires IsLastRemovedAnswer(rows, before, last)
      modifies this`rows, this`chain
      ensures removed == |old(rows)| - |rows|
      ensures last.None? ==> rows == old(rows) && chain == Some(Locked(old(chain)))
      ensures last.Some? ==> var r := old(rows)[last.value];
                && rows == Without(old(rows), r.chainSequence.value)
                && chain == Some(Locked(old(chain)).(retainedSequence := Some(r.chainSequence.value + 1), retainedPreviousHash := r.entryHash))
    {
      chain := Some(Locked(chain));
      if last.None? { return 0; }
      var r := rows[last.value];
      var kept := Without(rows, r.chainSequence.value);
      removed := |rows| - |kept|;
      rows := kept;
      chain := Some(chain.value.(retainedSequence := Some(r.chainSequence.value + 1), retainedPreviousHash := r.entryHash));
    }
  }

  // ===== every run ============================================================

  /** The two tables; `order` remembers the retained sealed ids in sealing order. */
  datatype State = State(rows: map<string, AuditRow>, chain: Option<ChainState>, order: seq<string>)

  const INIT: State := State(map[], None, [])

  datatype Step =
    | Insert(row: AuditRow)
    | Seal(batch: seq<string>)
    | Prune(before: int, last: Option<string>)

  function Start(s: State): Sealing { Sealing(s.rows, Locked(s.chain).latestHash, Locked(s.chain).sequence) }

  function Unsealed(r: AuditRow): AuditRow { r.(previousHash := None, entryHash := None, chainSequence := None) }

  function CutOf(s: State, id: string): int
    requires id in s.rows && s.rows[id].chainSequence.Some?
  {
    s.rows[id].chainSequence.value - FirstSequence(s.chain) + 1
  }

  function AfterSeal(h: Hash, s: State, batch: seq<string>): State {
    var t := SealAll(h, Start(s), batch);
    State(t.rows, Some(Locked(s.chain).(latestHash := t.previousHash, sequence := t.sequence)), s.order + batch)
  }

  /** The rows up to the one named by `id` are deleted, and the state remembers where the chain now starts. */
  function AfterPrune(s: State, id: string): State
    requires id in s.rows && s.rows[id].chainSequence.Some?
  {
    var r := s.rows[id];
    State(Without(s.rows, r.chainSequence.value),
          Some(Locked(s.chain).(retainedSequence := Some(r.chainSequence.value + 1), retainedPreviousHash := r.entryHash)),
          if 0 <= CutOf(s, id) <= |s.order| then s.order[CutOf(s, id)..] else s.order)
  }

  ghost function Apply(h: Hash, s: State, step: Step): State {
    match step
    case Insert(r) =>
      if r.id in s.rows then s else s.(rows := s.rows[r.id := Unsealed(r)])
    case Seal(batch) =>
      if IsBacklogAnswer(s.rows, batch) then AfterSeal(h, s, batch) else s
    case Prune(before, last) =>
      if !IsLastRemovedAnswer(s.rows, before, last) then s
      else if last.None? then s.(chain := Some(Locked(s.chain)))
      else AfterPrune(s, last.value)
  }

  ghost function Run(h: Hash, s: State, steps: seq<Step>): State {
    if |steps| == 0 then s else Apply(h, Run(h, s, steps[..|steps| - 1]), steps[|steps| - 1])
  }

  // ----- the invariant --------------------------------------------------------

  ghost predicate AllIn(rows: map<string, AuditRow>, order: seq<string>) { forall id <- order :: id in rows }

  ghost function Entries(h: Hash, rows: map<string, AuditRow>, order: seq<string>): seq<Entry>
    requires AllIn(rows, order)
  {
    seq(|order|, i requires 0 <= i < |order| => assert order[i] in order; View(h, rows[order[i]]))
  }

  ghost predicate OrderIsSealed(s: State) {
    && Distinct(s.order) && AllIn(s.rows, s.order)
    && (forall id <- s.rows :: s.rows[id].entryHash.Some? <==> id in s.order)
    && (forall id <- s.rows | id !in s.order :: s.rows[id].chainSequence.None?)
  }

  /** The retained start moves only together with the digest before it, and then past the first entry. */
  predicate RetainedOk(c: ChainState) {
    if c.retainedSequence.None? then c.retainedPreviousHash.None? else c.retainedSequence.value >= 2
  }

  ghost predicate Inv(h: Hash, s: State) {
    && OrderIsSealed(s)
    && (s.chain.None? ==> s.order == [])
    && RetainedOk(Locked(s.chain))
    && Accepts(h, Some(Locked(s.chain)), Entries(h, s.rows, s.order))
  }

  /** Hash and sequence travel between two sealing transactions through the state row. */
  lemma AfterSealConcat(h: Hash, s: State, a: seq<string>, b: seq<string>)
    ensures AfterSeal(h, AfterSeal(h, s, a), b) == AfterSeal(h, s, a + b)
  {
    SealAllConcat(h, Start(s), a, b);
    assert s.order + a + b == s.order + (a + b);
  }

  lemma AfterSealOneMore(h: Hash, s: State, batch: seq<string>)
    requires |batch| != 0
    ensures AfterSeal(h, s, batch) == AfterSeal(h, AfterSeal(h, s, batch[..|batch| - 1]), [batch[|batch| - 1]])
  {
    AfterSealConcat(h, s, batch[..|batch| - 1], [batch[|batch| - 1]]);
    assert batch[..|batch| - 1] + [batch[|batch| - 1]] == batch;
  }

  /** Sealing more entries extends the chain by exactly those entries, in that order. */
  lemma {:induction false} AfterSealKeepsInv(h: Hash, s: State, batch: seq<string>)
    requires Inv(h, s) && Distinct(batch)
    requires forall id <- batch :: id in s.rows && s.rows[id].entryHash.None?
    ensures var s' := AfterSeal(h, s, batch);
            && Inv(h, s')
            && s'.rows.Keys == s.rows.Keys
            && forall id <- s.rows | id !in batch :: s'.rows[id] == s.rows[id]
  {
    if |batch| == 0 {
      assert s.order + batch == s.order;
    } else {
      var front, id := batch[..|batch| - 1], batch[|batch| - 1];
      AfterSealKeepsInv(h, s, front);
      AfterSealOneMore(h, s, batch);
      assert id in batch && id !in front;
      SealOneExtends(h, AfterSeal(h, s, front), id);
    }
  }

  /** Entries depend only on the rows the order names. */
  lemma EntriesAgree(h: Hash, rows: map<string, AuditRow>, order: seq<string>, rows': map<string, AuditRow>, order': seq<string>, from: nat)
    requires AllIn(rows, order) && AllIn(rows', order')
    requires from <= |order| && order' == order[from..]
    requires forall id <- order' :: rows'[id] == rows[id]
    ensures Entries(h, rows', order') == Entries(h, rows, order)[from..]
  {
    forall i | 0 <= i < |order'| ensures Entries(h, rows', order')[i] == Entries(h, rows, order)[from..][i] {
      assert order'[i] == order[from + i] && order'[i] in order';
    }
  }

  lemma EntryAt(h: Hash, rows: map<string, AuditRow>, order: seq<string>, i: nat)
    requires AllIn(rows, order) && i < |order|
    ensures order[i] in rows && Entries(h, rows, order)[i] == View(h, rows[order[i]])
  {
    assert order[i] in order;
  }

  lemma EntriesAppend(h: Hash, rows: map<string, AuditRow>, order: seq<string>, id: string)
    requires AllIn(rows, order) && id in rows
    ensures AllIn(rows, order + [id]) && Entries(h, rows, order + [id]) == Entries(h, rows, order) + [View(h, rows[id])]
  {
  }

  /** The sealed row continues the chain it is appended to. */
  lemma SealedRowContinues(h: Hash, s: State, id: string)
    requires id in s.rows
    ensures var r := SealedRow(h, Start(s), s.rows[id]);
            EntryOk(h, View(h, r), Locked(s.chain).latestHash, Locked(s.chain).sequence + 1)
  {
    ContentIgnoresChainColumns(h, s.rows[id], SealedRow(h, Start(s), s.rows[id]));
  }

  lemma AfterSealOne(h: Hash, s: State, id: string)
    requires id in s.rows
    ensures var s', r := AfterSeal(h, s, [id]), SealedRow(h, Start(s), s.rows[id]);
            && s'.rows == s.rows[id := r] && s'.order == s.order + [id]
            && s'.chain == Some(Locked(s.chain).(latestHash := r.entryHash, sequence := Locked(s.chain).sequence + 1))
  {
    assert SealAll(h, Start(s), [id]) == SealOne(h, Start(s), id) by { assert [id][..0] == []; }
  }

  lemma SealOneKeepsOrder(h: Hash, s: State, id: string)
    requires OrderIsSealed(s) && id in s.rows && s.rows[id].entryHash.None?
    ensures OrderIsSealed(AfterSeal(h, s, [id]))
    ensures id !in s.order
  {
    AfterSealOne(h, s, id);
  }

  lemma EntriesWithSealed(h: Hash, rows: map<string, AuditRow>, order: seq<string>, id: string, r: AuditRow)
    requires AllIn(rows, order) && id !in order
    ensures var rows' := rows[id := r];
            AllIn(rows', order + [id]) && Entries(h, rows', order + [id]) == Entries(h, rows, order) + [View(h, r)]
  {
    EntriesAgree(h, rows, order, rows[id := r], order, 0);
    EntriesAppend(h, rows[id := r], order, id);
  }

  lemma SealedRowKeepsAccepts(h: Hash, c: ChainState, rows: map<string, AuditRow>, order: seq<string>, id: string, r: AuditRow)
    requires AllIn(rows, order) && id !in order && Accepts(h, Some(c), Entries(h, rows, order))
    requires EntryOk(h, View(h, r), c.latestHash, c.sequence + 1)
    ensures var rows', order' := rows[id := r], order + [id];
            && AllIn(rows', order')
            && Accepts(h, Some(c.(latestHash := r.entryHash, sequence := c.sequence + 1)), Entries(h, rows', order'))
  {
    EntriesWithSealed(h, rows, order, id, r);
    AcceptsOneMore(h, c, c.(latestHash := r.entryHash, sequence := c.sequence + 1), Entries(h, rows, order), View(h, r));
  }

  /** The sealed row's entry joins the others, and the state follows it. */
  lemma AppendKeepsInv(h: Hash, s: State, s': State, id: string, r: AuditRow)
    requires Inv(h, s) && OrderIsSealed(s') && id !in s.order
    requires s'.rows == s.rows[id := r] && s'.order == s.order + [id]
    requires s'.chain == Some(Locked(s.chain).(latestHash := r.entryHash, sequence := Locked(s.chain).sequence + 1))
    requires EntryOk(h, View(h, r), Locked(s.chain).latestHash, Locked(s.chain).sequence + 1)
    ensures Inv(h, s')
  {
    SealedRowKeepsAccepts(h, Locked(s.chain), s.rows, s.order, id, r);
    InvHolds(h, s', s'.chain.value);
  }

  lemma SealOneExtends(h: Hash, s: State, id: string)
    requires Inv(h, s)
    requires id in s.rows && s.rows[id].entryHash.None?
    ensures var s' := AfterSeal(h, s, [id]);
            && Inv(h, s')
            && s'.rows.Keys == s.rows.Keys
            && forall other <- s.rows | other != id :: s'.rows[other] == s.rows[other]
  {
    SealOneKeepsOrder(h, s, id);
    AfterSealOne(h, s, id);
    SealedRowContinues(h, s, id);
    AppendKeepsInv(h, s, AfterSeal(h, s, [id]), id, SealedRow(h, Start(s), s.rows[id]));
  }

  lemma AcceptsOneMore(h: Hash, c: ChainState, c': ChainState, entries: seq<Entry>, e: Entry)
    requires Accepts(h, Some(c), entries) && EntryOk(h, e, c.latestHash, c.sequence + 1)
    requires c' == c.(latestHash := e.entryHash, sequence := c.sequence + 1)
    ensures Accepts(h, Some(c'), entries + [e])
  {
    assert (entries + [e])[..|entries|] == entries;
  }

  lemma {:induction false} ChainedSequence(h: Hash, entries: seq<Entry>, start: Option<Digest>, first: int, i: nat)
    requires Chained(h, entries, start, first) && i < |entries|
    ensures entries[i].chainSequence == Some(first + i) && entries[i].entryHash.Some?
  {
    if i < |entries| - 1 { ChainedSequence(h, entries[..|entries| - 1], start, first, i); }
  }

  /** What remains after a cut is a chain from the digest of the last entry cut away. */
  lemma {:induction false} ChainedAfterCut(h: Hash, entries: seq<Entry>, start: Option<Digest>, first: int, cut: nat)
    requires Chained(h, entries, start, first) && cut <= |entries|
    ensures Chained(h, entries[cut..], Tail(entries[..cut], start), first + cut)
    ensures Tail(entries[cut..], Tail(entries[..cut], start)) == Tail(entries, start)
  {
    if cut == |entries| {
      assert entries[..cut] == entries;
    } else {
      var front := entries[..|entries| - 1];
      ChainedAfterCut(h, front, start, first, cut);
      assert front[cut..] == entries[cut..][..|entries| - cut - 1];
      assert front[..cut] == entries[..cut];
    }
  }

  /** Sequence numbers follow the order, and the row named by `id` is the last of the first `cut`. */
  ghost predicate CutAt(s: State, id: string, cut: nat) {
    && AllIn(s.rows, s.order) && 1 <= cut <= |s.order| && s.order[cut - 1] == id
    && forall i | 0 <= i < |s.order| :: s.rows[s.order[i]].chainSequence == Some(FirstSequence(s.chain) + i)
  }

  /** The retained rows carry consecutive sequence numbers, in sealing order. */
  ghost predicate Numbered(s: State) {
    && OrderIsSealed(s)
    && forall i | 0 <= i < |s.order| :: s.order[i] in s.rows && s.rows[s.order[i]].chainSequence == Some(FirstSequence(s.chain) + i)
  }

  lemma EntrySequence(h: Hash, rows: map<string, AuditRow>, order: seq<string>, c: ChainState, i: nat)
    requires AllIn(rows, order) && Accepts(h, Some(c), Entries(h, rows, order)) && i < |order|
    ensures order[i] in rows && rows[order[i]].chainSequence == Some(FirstSequence(Some(c)) + i)
  {
    ChainedSequence(h, Entries(h, rows, order), StartHash(Some(c)), FirstSequence(Some(c)), i);
    EntryAt(h, rows, order, i);
  }

  lemma InvNumbers(h: Hash, s: State)
    requires Inv(h, s)
    ensures Numbered(s)
  {
    forall i | 0 <= i < |s.order|
      ensures s.order[i] in s.rows && s.rows[s.order[i]].chainSequence == Some(FirstSequence(s.chain) + i)
    {
      EntrySequence(h, s.rows, s.order, Locked(s.chain), i);
    }
  }

  /** The row found by the prune lookup sits at the position its sequence number says. */
  lemma LastRemovedPosition(s: State, before: int, id: string)
    requires Numbered(s) && IsLastRemovedAnswer(s.rows, before, Some(id))
    ensures CutOf(s, id) >= 0 && CutAt(s, id, CutOf(s, id))
    ensures forall i | CutOf(s, id) <= i < |s.order| :: s.rows[s.order[i]].createdAt >= before
  {
    assert id in s.order;
    var k :| 0 <= k < |s.order| && s.order[k] == id;
    assert CutOf(s, id) == k + 1;
    forall i | k < i < |s.order| ensures s.rows[s.order[i]].createdAt >= before {
      assert s.order[i] in s.order;
      assert s.order[i] in s.rows;
      assert s.rows[s.order[i]].chainSequence.value > s.rows[id].chainSequence.value;
    }
  }

  /** Of the sealed rows, exactly those from position `cut` on survive. */
  lemma PruneCutsOrder(s: State, id: string, cut: nat)
    requires OrderIsSealed(s) && id in s.rows && CutAt(s, id, cut)
    ensures CutOf(s, id) == cut && AfterPrune(s, id).order == s.order[cut..]
    ensures forall i | 0 <= i < |s.order| :: s.order[i] in AfterPrune(s, id).rows <==> i >= cut
  {
    assert s.rows[s.order[cut - 1]].chainSequence == Some(FirstSequence(s.chain) + cut - 1);
    forall i | 0 <= i < |s.order| ensures s.order[i] in AfterPrune(s, id).rows <==> i >= cut {
      assert s.order[i] in s.order;
    }
  }

  lemma PruneKeepsOrder(s: State, id: string, cut: nat)
    requires OrderIsSealed(s) && id in s.rows && CutAt(s, id, cut)
    ensures CutOf(s, id) == cut && AfterPrune(s, id).order == s.order[cut..]
    ensures OrderIsSealed(AfterPrune(s, id))
    ensures forall i <- AfterPrune(s, id).rows :: i in s.rows && AfterPrune(s, id).rows[i] == s.rows[i]
  {
    PruneCutsOrder(s, id, cut);
    var rows := AfterPrune(s, id).rows;
    var order := s.order[cut..];
    forall i <- order ensures i in rows && i in s.order {
      var k :| 0 <= k < |order| && order[k] == i;
      assert s.order[cut + k] == i;
    }
    forall i <- rows | i in s.order ensures i in order {
      var k :| 0 <= k < |s.order| && s.order[k] == i;
      assert order[k - cut] == i;
    }
  }

  /** The chain state after its first `cut` entries, the last of them with digest `hash`, are gone. */
  function Retained(c: ChainState, cut: int, hash: Option<Digest>): ChainState {
    c.(retainedSequence := Some(FirstSequence(Some(c)) + cut), retainedPreviousHash := hash)
  }

  lemma AcceptsAfterCut(h: Hash, c: ChainState, entries: seq<Entry>, cut: nat)
    requires Accepts(h, Some(c), entries) && 1 <= cut <= |entries|
    ensures Accepts(h, Some(Retained(c, cut, entries[cut - 1].entryHash)), entries[cut..])
  {
    ChainedAfterCut(h, entries, StartHash(Some(c)), FirstSequence(Some(c)), cut);
  }

  lemma PruneKeepsInv(h: Hash, s: State, before: int, id: string)
    requires Inv(h, s) && IsLastRemovedAnswer(s.rows, before, Some(id))
    ensures Inv(h, AfterPrune(s, id))
  {
    InvNumbers(h, s);
    LastRemovedPosition(s, before, id);
    PruneAtKeepsInv(h, s, id, CutOf(s, id));
  }

  lemma PrunedEntries(h: Hash, s: State, id: string, cut: nat)
    requires OrderIsSealed(s) && id in s.rows && CutAt(s, id, cut)
    ensures AllIn(AfterPrune(s, id).rows, AfterPrune(s, id).order) && OrderIsSealed(AfterPrune(s, id))
    ensures Entries(h, AfterPrune(s, id).rows, AfterPrune(s, id).order) == Entries(h, s.rows, s.order)[cut..]
  {
    PruneKeepsOrder(s, id, cut);
    EntriesAgree(h, s.rows, s.order, AfterPrune(s, id).rows, AfterPrune(s, id).order, cut);
  }

  lemma PrunedChain(s: State, id: string, cut: nat)
    requires OrderIsSealed(s) && id in s.rows && CutAt(s, id, cut)
    ensures AfterPrune(s, id).chain == Some(Retained(Locked(s.chain), cut, s.rows[id].entryHash))
  {
    assert s.rows[s.order[cut - 1]].chainSequence == Some(FirstSequence(s.chain) + cut - 1);
  }

  lemma InvHolds(h: Hash, s: State, c: ChainState)
    requires OrderIsSealed(s) && s.chain == Some(c) && RetainedOk(c)
    requires Accepts(h, Some(c), Entries(h, s.rows, s.order))
    ensures Inv(h, s)
  {
    assert Locked(s.chain) == c;
  }

  lemma PruneAtKeepsInv(h: Hash, s: State, id: string, cut: nat)
    requires Inv(h, s) && id in s.rows && CutAt(s, id, cut)
    ensures Inv(h, AfterPrune(s, id))
  {
    PrunedEntries(h, s, id, cut);
    PrunedChain(s, id, cut);
    EntryAt(h, s.rows, s.order, cut - 1);
    AcceptsAfterCut(h, Locked(s.chain), Entries(h, s.rows, s.order), cut);
    InvHolds(h, AfterPrune(s, id), Retained(Locked(s.chain), cut, s.rows[id].entryHash));
  }

  lemma InsertKeepsInv(h: Hash, s: State, r: AuditRow)
    requires Inv(h, s)
    ensures Inv(h, Apply(h, s, Insert(r)))
  {
    var s' := Apply(h, s, Insert(r));
    assert s.order[0..] == s.order;
    EntriesAgree(h, s.rows, s.order, s'.rows, s.order, 0);
  }

  lemma StepKeepsInv(h: Hash, s: State, step: Step)
    requires Inv(h, s)
    ensures Inv(h, Apply(h, s, step))
  {
    match step
    case Insert(r) => InsertKeepsInv(h, s, r);
    case Seal(batch) => if IsBacklogAnswer(s.rows, batch) { AfterSealKeepsInv(h, s, batch); }
    case Prune(before, last) =>
      if IsLastRemovedAnswer(s.rows, before, last) && last.Some? { PruneKeepsInv(h, s, before, last.value); }
  }

  lemma {:induction false} RunKeepsInv(h: Hash, s: State, steps: seq<Step>)
    requires Inv(h, s)
    ensures Inv(h, Run(h, s, steps))
  {
    if |steps| != 0 {
      RunKeepsInv(h, s, steps[..|steps| - 1]);
      StepKeepsInv(h, Run(h, s, steps[..|steps| - 1]), steps[|steps| - 1]);
    }
  }

  lemma InitialInv(h: Hash)
    ensures Inv(h, INIT)
  {
    assert Entries(h, INIT.rows, INIT.order) == [];
  }

  ghost predicate Reachable(h: Hash, s: State) {
    exists steps :: s == Run(h, INIT, steps)
  }

  lemma ReachableInv(h: Hash, s: State)
    requires Reachable(h, s)
    ensures Inv(h, s)
  {
    var steps :| s == Run(h, INIT, steps);
    InitialInv(h);
    RunKeepsInv(h, INIT, steps);
  }

  // ----- main results ---------------------------------------------------------

  const BySequence: (AuditRow, AuditRow) -> bool :=
    (a: AuditRow, b: AuditRow) => a.chainSequence.GetOr(0) <= b.chainSequence.GetOr(0)

  /** A possible answer of "all sealed rows ordered by sequence". */
  ghost predicate IsSealedAnswer(rows: map<string, AuditRow>, ids: seq<string>, listed: seq<AuditRow>) {
    && Distinct(ids) && |listed| == |ids|
    && (forall id :: id in ids <==> id in rows && rows[id].entryHash.Some?)
    && (forall i | 0 <= i < |ids| :: ids[i] in rows && listed[i] == rows[ids[i]])
    && SortedBy(BySequence, listed)
  }

  /** Sequence numbers decide the order, so the query has only one answer: the sealing order. */
  lemma SealedAnswerIsOrder(h: Hash, s: State, ids: seq<string>, listed: seq<AuditRow>)
    requires Inv(h, s) && IsSealedAnswer(s.rows, ids, listed)
    ensures ids == s.order
  {
    InvNumbers(h, s);
    NumbersDecideOrder(s, ids, listed);
  }

  lemma NumbersDecideOrder(s: State, ids: seq<string>, listed: seq<AuditRow>)
    requires Numbered(s) && IsSealedAnswer(s.rows, ids, listed)
    ensures ids == s.order
  {
    DistinctPermutation(ids, s.order);
    assert |multiset(ids)| == |multiset(s.order)|;
    forall i | 0 <= i < |ids| ensures ids[i] == s.order[i] {
      assert forall id <- ids :: id in s.order;
      AnswerPosition(s, ids, listed, i);
    }
  }

  ghost function Position(s: State, id: string): int
    requires id in s.order
  {
    var k :| 0 <= k < |s.order| && s.order[k] == id;
    k
  }

  lemma PositionsIncrease(s: State, ids: seq<string>, listed: seq<AuditRow>, i: nat, j: nat)
    requires Numbered(s) && IsSealedAnswer(s.rows, ids, listed) && i < j < |ids|
    ensures ids[i] in s.order && ids[j] in s.order && Position(s, ids[i]) < Position(s, ids[j])
  {
    assert ids[i] in ids && ids[j] in ids;
    assert BySequence(listed[i], listed[j]);
  }

  ghost predicate Increasing(p: seq<int>) { forall i, j | 0 <= i < j < |p| :: p[i] < p[j] }

  /** A strictly increasing list of n naturals below n is 0, 1, ..., n - 1. */
  lemma {:induction false} IncreasingIsIdentity(p: seq<int>, i: nat)
    requires Increasing(p) && i < |p| && forall k | 0 <= k < |p| :: 0 <= p[k] < |p|
    ensures p[i] == i
  {
    AtLeast(p, i);
    AtMost(p, i);
  }

  lemma {:induction false} AtLeast(p: seq<int>, i: nat)
    requires Increasing(p) && i < |p| && p[0] >= 0
    ensures p[i] >= i
  {
    if i > 0 { AtLeast(p, i - 1); }
  }

  lemma {:induction false} AtMost(p: seq<int>, i: nat)
    requires Increasing(p) && i < |p| && p[|p| - 1] < |p|
    ensures p[i] <= i
    decreases |p| - i
  {
    if i + 1 < |p| { AtMost(p, i + 1); }
  }

  lemma AnswerPosition(s: State, ids: seq<string>, listed: seq<AuditRow>, i: nat)
    requires Numbered(s) && IsSealedAnswer(s.rows, ids, listed) && i < |ids| == |s.order|
    requires forall id <- ids :: id in s.order
    ensures ids[i] == s.order[i]
  {
    var p := seq(|ids|, k requires 0 <= k < |ids| => assert ids[k] in ids; Position(s, ids[k]));
    forall k, l | 0 <= k < l < |p| ensures p[k] < p[l] { PositionsIncrease(s, ids, listed, k, l); }
    IncreasingIsIdentity(p, i);
  }

  lemma ListedViews(h: Hash, s: State, listed: seq<AuditRow>)
    requires OrderIsSealed(s) && IsSealedAnswer(s.rows, s.order, listed)
    ensures Views(h, listed) == Entries(h, s.rows, s.order)
  {
    forall i | 0 <= i < |listed| ensures Views(h, listed)[i] == Entries(h, s.rows, s.order)[i] {
      EntryAt(h, s.rows, s.order, i);
    }
  }

  /** Verification of an empty log needs no state row; with one it is the same question. */
  lemma AcceptsUnlocked(h: Hash, chain: Option<ChainState>, entries: seq<Entry>)
    requires Accepts(h, Some(Locked(chain)), entries)
    ensures Accepts(h, chain, entries)
  {
  }

  lemma InvVerifies(h: Hash, s: State, ids: seq<string>, listed: seq<AuditRow>)
    requires Inv(h, s) && IsSealedAnswer(s.rows, ids, listed)
    ensures Accepts(h, s.chain, Views(h, listed))
  {
    SealedAnswerIsOrder(h, s, ids, listed);
    ListedViews(h, s, listed);
    AcceptsUnlocked(h, s.chain, Views(h, listed));
  }

  lemma InvSequences(h: Hash, s: State, ids: seq<string>, listed: seq<AuditRow>)
    requires Inv(h, s) && IsSealedAnswer(s.rows, ids, listed)
    ensures Locked(s.chain).sequence == FirstSequence(s.chain) + |listed| - 1
    ensures forall i | 0 <= i < |listed| :: listed[i].chainSequence == Some(FirstSequence(s.chain) + i)
  {
    SealedAnswerIsOrder(h, s, ids, listed);
    InvNumbers(h, s);
  }

  /**
   * Whatever was inserted, sealed in whatever batches, and pruned, in whatever
   * order: verification accepts the log, and the retained sequence numbers are
   * exactly FirstSequence, ..., sequence, also when nothing is retained.
   */
  lemma EveryRunVerifies(h: Hash, s: State, ids: seq<string>, listed: seq<AuditRow>)
    requires Reachable(h, s) && IsSealedAnswer(s.rows, ids, listed)
    ensures Accepts(h, s.chain, Views(h, listed))
    ensures Locked(s.chain).sequence == FirstSequence(s.chain) + |listed| - 1
    ensures forall i | 0 <= i < |listed| :: listed[i].chainSequence == Some(FirstSequence(s.chain) + i)
  {
    ReachableInv(h, s);
    InvVerifies(h, s, ids, listed);
    InvSequences(h, s, ids, listed);
  }

  /** The entry at position `j`, or one sealed after it, is older than the cutoff. */
  ghost predicate OldFrom(s: State, before: int, j: nat) {
    exists i | j <= i < |s.order| :: s.order[i] in s.rows && s.rows[s.order[i]].createdAt < before
  }

  /** Pruning removes a sealed entry exactly when it, or an entry sealed after it, is older than the cutoff. */
  lemma PruneRemovesExactly(h: Hash, s: State, before: int, last: Option<string>, j: nat)
    requires Reachable(h, s) && IsLastRemovedAnswer(s.rows, before, last) && j < |s.order|
    ensures s.order[j] !in Apply(h, s, Prune(before, last)).rows <==> OldFrom(s, before, j)
  {
    ReachableInv(h, s);
    InvNumbers(h, s);
    if last.Some? { PrunedAreOld(s, before, last.value, j); } else { NothingIsOld(s, before, j); }
  }

  /** Sequence numbers start at 1, so an old sealed row would meet the whole filter of the lookup. */
  lemma NothingIsOld(s: State, before: int, j: nat)
    requires Numbered(s) && FirstSequence(s.chain) >= 1 && IsLastRemovedAnswer(s.rows, before, None) && j < |s.order|
    ensures !OldFrom(s, before, j) && s.order[j] in s.rows
  {
    forall i | j <= i < |s.order| ensures !(s.rows[s.order[i]].createdAt < before) {
      assert s.order[i] in s.order;
      assert !Prunable(s.rows[s.order[i]], before);
    }
  }

  lemma PrunedAreOld(s: State, before: int, id: string, j: nat)
    requires Numbered(s) && IsLastRemovedAnswer(s.rows, before, Some(id)) && j < |s.order|
    ensures s.order[j] !in AfterPrune(s, id).rows <==> OldFrom(s, before, j)
  {
    LastRemovedPosition(s, before, id);
    PruneCutsOrder(s, id, CutOf(s, id));
    if j < CutOf(s, id) { assert s.order[CutOf(s, id) - 1] == id; }
  }

  // ----- verification is not one transaction ----------------------------------

  /** Nothing was sealed and nothing pruned in between. */
  ghost predicate SameChain(h: Hash, s: State, s': State)
    requires AllIn(s.rows, s.order) && AllIn(s'.rows, s'.order)
  {
    Locked(s'.chain) == Locked(s.chain) && Entries(h, s'.rows, s'.order) == Entries(h, s.rows, s.order)
  }

  /** Sequence numbers only grow, at both ends, and stay put only if the chain does. */
  ghost predicate Later(h: Hash, s: State, s': State)
    requires AllIn(s.rows, s.order) && AllIn(s'.rows, s'.order)
  {
    && Locked(s'.chain).sequence >= Locked(s.chain).sequence
    && FirstSequence(s'.chain) >= FirstSequence(s.chain)
    && (Locked(s'.chain).sequence == Locked(s.chain).sequence && FirstSequence(s'.chain) == FirstSequence(s.chain) ==> SameChain(h, s, s'))
  }

  lemma {:induction false} SealAllCounts(h: Hash, s: Sealing, batch: seq<string>)
    requires forall id <- batch :: id in s.rows
    ensures SealAll(h, s, batch).sequence == s.sequence + |batch| && SealAll(h, s, batch).rows.Keys == s.rows.Keys
  {
    if |batch| != 0 {
      SealAllCounts(h, s, batch[..|batch| - 1]);
      assert batch[|batch| - 1] in batch;
    }
  }

  lemma InsertIsLater(h: Hash, s: State, r: AuditRow)
    requires Inv(h, s) && Inv(h, Apply(h, s, Insert(r)))
    ensures Later(h, s, Apply(h, s, Insert(r)))
  {
    assert s.order[0..] == s.order;
    EntriesAgree(h, s.rows, s.order, Apply(h, s, Insert(r)).rows, s.order, 0);
  }

  lemma SealIsLater(h: Hash, s: State, batch: seq<string>)
    requires Inv(h, s) && IsBacklogAnswer(s.rows, batch) && Inv(h, AfterSeal(h, s, batch))
    ensures Later(h, s, AfterSeal(h, s, batch))
  {
    SealAllCounts(h, Start(s), batch);
    if |batch| == 0 { assert s.order + batch == s.order; }
  }

  lemma PruneIsLater(h: Hash, s: State, before: int, id: string)
    requires Inv(h, s) && IsLastRemovedAnswer(s.rows, before, Some(id)) && Inv(h, AfterPrune(s, id))
    ensures Later(h, s, AfterPrune(s, id))
  {
    InvNumbers(h, s);
    LastRemovedPosition(s, before, id);
  }

  lemma StepIsLater(h: Hash, s: State, step: Step)
    requires Inv(h, s) && Inv(h, Apply(h, s, step))
    ensures Later(h, s, Apply(h, s, step))
  {
    match step
    case Insert(r) => InsertIsLater(h, s, r);
    case Seal(batch) => if IsBacklogAnswer(s.rows, batch) { SealIsLater(h, s, batch); }
    case Prune(before, last) =>
      if IsLastRemovedAnswer(s.rows, before, last) && last.Some? { PruneIsLater(h, s, before, last.value); }
  }

  lemma {:induction false} RunIsLater(h: Hash, s: State, steps: seq<Step>)
    requires Inv(h, s)
    ensures Inv(h, Run(h, s, steps)) && Later(h, s, Run(h, s, steps))
  {
    if |steps| != 0 {
      var mid := Run(h, s, steps[..|steps| - 1]);
      RunIsLater(h, s, steps[..|steps| - 1]);
      StepKeepsInv(h, mid, steps[|steps| - 1]);
      StepIsLater(h, mid, steps[|steps| - 1]);
    }
  }

  /**
   * The verifier reads the state row and the log in two statements.  If other
   * processes run in between, it still accepts exactly when they neither sealed
   * nor pruned anything, or there is no sealed entry on either side; with no
   * state row yet, when they did not prune, whatever they sealed.
   */
  lemma VerificationRace(h: Hash, s: State, steps: seq<Step>, s': State)
    requires Reachable(h, s) && s' == Run(h, s, steps)
    ensures AllIn(s.rows, s.order) && AllIn(s'.rows, s'.order)
    ensures Accepts(h, s.chain, Entries(h, s'.rows, s'.order)) <==>
            || (s.order == [] && s'.order == [])
            || (if s.chain.Some? then SameChain(h, s, s') else FirstSequence(s'.chain) == 1)
  {
    ReachableInv(h, s);
    RunIsLater(h, s, steps);
    if s.chain.Some? { RaceWithState(h, s, s'); } else { RaceWithoutState(h, s'); }
  }

  lemma RaceWithState(h: Hash, s: State, s': State)
    requires Inv(h, s) && Inv(h, s') && Later(h, s, s') && s.chain.Some?
    ensures Accepts(h, s.chain, Entries(h, s'.rows, s'.order)) <==> SameChain(h, s, s') || (s.order == [] && s'.order == [])
  {
    var entries := Entries(h, s'.rows, s'.order);
    if Accepts(h, s.chain, entries) && s'.order != [] {
      ChainedSequence(h, entries, StartHash(s.chain), FirstSequence(s.chain), 0);
      ChainedSequence(h, entries, StartHash(Some(Locked(s'.chain))), FirstSequence(s'.chain), 0);
    }
  }

  lemma RaceWithoutState(h: Hash, s: State)
    requires Inv(h, s)
    ensures Accepts(h, None, Entries(h, s.rows, s.order)) <==> s.order == [] || FirstSequence(s.chain) == 1
  {
    var entries := Entries(h, s.rows, s.order);
    if Accepts(h, None, entries) && s.order != [] {
      ChainedSequence(h, entries, None, 1, 0);
      ChainedSequence(h, entries, StartHash(Some(Locked(s.chain))), FirstSequence(s.chain), 0);
    }
  }
}
