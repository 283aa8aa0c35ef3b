/**
 * What the sinks of the audit log are sent while it is sealed
 * (lib/audit-integrity.ts): the delivery jobs of one sealing transaction.
 */
module AuditSinks {
  import opened Wrappers
  import opened Distinctness
  import opened AuditIntegrity
  import opened AuditLog

  /** The job is for a sink that receives the entry, and holds what is stored for it. */
  ghost predicate IsJobFor(h: Hash, sink: Sink, id: string, r: AuditRow, key: string, d: Delivery) {
    Receives(sink, r) && key == DeliveryKey(sink.id, id) && d == DeliveryOf(h, sink, r)
  }

  ghost predicate IsJob(h: Hash, sinks: seq<Sink>, id: string, r: AuditRow, key: string, d: Delivery) {
    exists sink <- sinks :: IsJobFor(h, sink, id, r, key, d)
  }

  /** Jobs that were there stay; the new ones are for receiving sinks; and each receiving sink has one. */
  lemma {:induction false} EnqueuedAre(h: Hash, deliveries: map<string, Delivery>, sinks: seq<Sink>, id: string, r: AuditRow)
    ensures var after := Enqueued(h, deliveries, sinks, id, r);
            && (forall key <- deliveries :: key in after && after[key] == deliveries[key])
            && (forall key <- after | key !in deliveries :: IsJob(h, sinks, id, r, key, after[key]))
            && (forall sink <- sinks | Receives(sink, r) :: DeliveryKey(sink.id, id) in after)
  {
    if |sinks| != 0 {
      var front, last := sinks[..|sinks| - 1], sinks[|sinks| - 1];
      EnqueuedAre(h, deliveries, front, id, r);
      assert sinks == front + [last];
      var before, after := Enqueued(h, deliveries, front, id, r), Enqueued(h, deliveries, sinks, id, r);
      forall key <- after | key !in deliveries ensures IsJob(h, sinks, id, r, key, after[key]) {
        if key in before {
          var sink :| sink in front && IsJobFor(h, sink, id, r, key, before[key]);
          assert sink in sinks;
        } else {
          assert last in sinks && IsJobFor(h, last, id, r, key, after[key]);
        }
      }
    }
  }

  /** A job of one of the entries of the batch, as they stand in `rows`. */
  ghost predicate IsBatchJob(h: Hash, rows: map<string, AuditRow>, batch: seq<string>, sinks: seq<Sink>, key: string, d: Delivery) {
    exists id <- batch :: id in rows && IsJob(h, sinks, id, rows[id], key, d)
  }

  ghost predicate BatchDelivered(
    h: Hash, rows: map<string, AuditRow>, batch: seq<string>, sinks: seq<Sink>, before: map<string, Delivery>, after: map<string, Delivery>)
  {
    && (forall key <- before :: key in after && after[key] == before[key])
    && (forall key <- after | key !in before :: IsBatchJob(h, rows, batch, sinks, key, after[key]))
    && (forall sink, id | sink in sinks && id in batch && id in rows && Receives(sink, rows[id]) :: DeliveryKey(sink.id, id) in after)
  }

  /** One more entry is sealed; the rows of the others stay. */
  lemma OneMoreDelivered(
    h: Hash, rows: map<string, AuditRow>, rows': map<string, AuditRow>, front: seq<string>, id: string, sinks: seq<Sink>,
    before: map<string, Delivery>, mid: map<string, Delivery>)
    requires BatchDelivered(h, rows, front, sinks, before, mid) && id !in front && id in rows && id in rows' && rows' == rows[id := rows'[id]]
    ensures BatchDelivered(h, rows', front + [id], sinks, before, Enqueued(h, mid, sinks, id, rows'[id]))
  {
    var after := Enqueued(h, mid, sinks, id, rows'[id]);
    EnqueuedAre(h, mid, sinks, id, rows'[id]);
    forall key <- after | key !in before ensures IsBatchJob(h, rows', front + [id], sinks, key, after[key]) {
      if key in mid {
        var other :| other in front && other in rows && IsJob(h, sinks, other, rows[other], key, mid[key]);
        assert other in front + [id] && rows'[other] == rows[other];
      } else {
        assert id in front + [id] && IsJob(h, sinks, id, rows'[id], key, after[key]);
      }
    }
  }

  lemma {:induction false} EnqueueAllDelivers(h: Hash, s: Sealing, batch: seq<string>, sinks: seq<Sink>, deliveries: map<string, Delivery>)
    requires Distinct(batch) && forall id <- batch :: id in s.rows
    ensures BatchDelivered(h, SealAll(h, s, batch).rows, batch, sinks, deliveries, EnqueueAll(h, s, batch, sinks, deliveries))
  {
    if |batch| != 0 {
      var front, id := batch[..|batch| - 1], batch[|batch| - 1];
      assert forall x <- front :: x in batch;
      EnqueueAllDelivers(h, s, front, sinks, deliveries);
      SealAllCounts(h, s, front);
      assert id in batch && id !in front && batch == front + [id];
      EnqueueStep(h, s, batch, sinks, deliveries);
      OneMoreDelivered(h, SealAll(h, s, front).rows, SealAll(h, s, batch).rows, front, id, sinks, deliveries,
                       EnqueueAll(h, s, front, sinks, deliveries));
    }
  }

  lemma EnqueueStep(h: Hash, s: Sealing, batch: seq<string>, sinks: seq<Sink>, deliveries: map<string, Delivery>)
    requires |batch| != 0 && batch[|batch| - 1] in SealAll(h, s, batch[..|batch| - 1]).rows
    ensures var front, id, rows := batch[..|batch| - 1], batch[|batch| - 1], SealAll(h, s, batch).rows;
            && id in rows && rows == SealAll(h, s, front).rows[id := rows[id]]
            && EnqueueAll(h, s, batch, sinks, deliveries) == Enqueued(h, EnqueueAll(h, s, front, sinks, deliveries), sinks, id, rows[id])
  {
  }

  /** A sink id without a colon can be read off the deduplication key. */
  lemma KeySeparates(a: string, x: string, b: string, y: string)
    requires ':' !in a && ':' !in b && DeliveryKey(a, x) == DeliveryKey(b, y)
    ensures a == b && x == y
  {
    if |a| < |b| {
      LongerHasColon(a, x, b, y);
    } else if |b| < |a| {
      LongerHasColon(b, y, a, x);
    } else {
      var k, l := DeliveryKey(a, x), DeliveryKey(b, y);
      assert k[..|a|] == a && l[..|b|] == b && k[|a| + 1..] == x && l[|b| + 1..] == y;
    }
  }

  lemma LongerHasColon(a: string, x: string, b: string, y: string)
    requires DeliveryKey(a, x) == DeliveryKey(b, y) && |a| < |b|
    ensures ':' in b
  {
    assert DeliveryKey(a, x)[|a|] == ':';
    assert DeliveryKey(b, y)[|a|] == b[|a|];
  }

  ghost predicate SinkIds(sinks: seq<Sink>) {
    && (forall sink <- sinks :: ':' !in sink.id)
    && (forall i, j | 0 <= i < j < |sinks| :: sinks[i].id != sinks[j].id)
  }

  /** The chain's link that a payload claims to be. */
  predicate IsLink(h: Hash, d: Delivery) { d.entryHash == Some(h.digest(d.previousHash, d.content)) }

  /**
   * Sealing a batch queues for every sink exactly the entries it receives, each
   * once and as it is stored in the chain, so that the receiver can check the
   * digest; jobs queued before stay as they are.
   */
  lemma SinksReceiveTheChain(
    h: Hash, s: State, batch: seq<string>, sinks: seq<Sink>, deliveries: map<string, Delivery>, sink: Sink, id: string)
    requires IsBacklogAnswer(s.rows, batch) && SinkIds(sinks) && sink in sinks && id in batch
    requires DeliveryKey(sink.id, id) !in deliveries
    ensures var after, key := EnqueueAll(h, Start(s), batch, sinks, deliveries), DeliveryKey(sink.id, id);
            && id in AfterSeal(h, s, batch).rows
            && (key in after <==> Receives(sink, AfterSeal(h, s, batch).rows[id]))
            && (key in after ==> after[key] == DeliveryOf(h, sink, AfterSeal(h, s, batch).rows[id]))
            && forall other <- deliveries :: other in after && after[other] == deliveries[other]
  {
    var after, key := EnqueueAll(h, Start(s), batch, sinks, deliveries), DeliveryKey(sink.id, id);
    var rows := SealAll(h, Start(s), batch).rows;
    EnqueueAllDelivers(h, Start(s), batch, sinks, deliveries);
    SealAllCounts(h, Start(s), batch);
    if key in after {
      var other :| other in batch && other in rows && IsJob(h, sinks, other, rows[other], key, after[key]);
      var receiver :| receiver in sinks && IsJobFor(h, receiver, other, rows[other], key, after[key]);
      KeySeparates(sink.id, id, receiver.id, other);
    }
  }

  /** Every payload queued for a new entry is a link of the chain. */
  lemma PayloadsAreLinks(h: Hash, s: State, batch: seq<string>, sinks: seq<Sink>, deliveries: map<string, Delivery>, key: string)
    requires Inv(h, s) && IsBacklogAnswer(s.rows, batch) && key !in deliveries
    requires key in EnqueueAll(h, Start(s), batch, sinks, deliveries)
    ensures IsLink(h, EnqueueAll(h, Start(s), batch, sinks, deliveries)[key])
  {
    var after, rows := EnqueueAll(h, Start(s), batch, sinks, deliveries), SealAll(h, Start(s), batch).rows;
    EnqueueAllDelivers(h, Start(s), batch, sinks, deliveries);
    var id :| id in batch && id in rows && IsJob(h, sinks, id, rows[id], key, after[key]);
    AfterSealKeepsInv(h, s, batch);
    SealedRowIsLink(h, AfterSeal(h, s, batch), id);
  }

  lemma SealedRowIsLink(h: Hash, s: State, id: string)
    requires Inv(h, s) && id in s.order
    ensures id in s.rows && s.rows[id].entryHash == Some(h.digest(s.rows[id].previousHash, Content(h, s.rows[id])))
  {
    var i :| 0 <= i < |s.order| && s.order[i] == id;
    EntryAt(h, s.rows, s.order, i);
    ChainedLink(h, Entries(h, s.rows, s.order), StartHash(Some(Locked(s.chain))), FirstSequence(s.chain), i);
  }

  lemma {:induction false} ChainedLink(h: Hash, entries: seq<Entry>, start: Option<Digest>, first: int, i: nat)
    requires Chained(h, entries, start, first) && i < |entries|
    ensures entries[i].entryHash == Some(h.digest(entries[i].previousHash, entries[i].content))
  {
    if i < |entries| - 1 { ChainedLink(h, entries[..|entries| - 1], start, first, i); }
  }

  lemma {:induction false} OrganizationIs(columns: seq<Field>, organization: string)
    requires forall i, j | 0 <= i < j < |columns| :: columns[i].key != columns[j].key
    ensures OrganizationOf(columns) == Some(organization) <==> Field("organizationId", Text(organization)) in columns
  {
    if |columns| != 0 {
      assert forall f :: f in columns <==> f == columns[0] || f in columns[1..];
      if columns[0].key == "organizationId" {
        forall i | 0 <= i < |columns| - 1 ensures columns[1..][i].key != "organizationId" { assert columns[1..][i] == columns[i + 1]; }
      } else {
        OrganizationIs(columns[1..], organization);
      }
    }
  }

  /** A disabled sink receives nothing, one of the installation everything, and one of an organization exactly that organization's entries. */
  lemma ReceivesIff(sink: Sink, r: AuditRow)
    requires ColumnsOk(r)
    ensures Receives(sink, r) <==>
            sink.enabled && (sink.orgId.Some? ==> Field("organizationId", Text(sink.orgId.value)) in r.columns)
  {
    if sink.orgId.Some? { OrganizationIs(r.columns, sink.orgId.value); }
  }
}
