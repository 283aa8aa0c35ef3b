/**
 * Sealing the audit log in batches (lib/audit-integrity.ts): the backlog query
 * with its order and limit, and rows that arrive between two batches.
 */
module AuditBatches {
  import opened Wrappers
  import opened Sorting
  import opened StringOrder
  import opened Distinctness
  import opened AuditIntegrity
  import opened AuditLog

  function CreatedAt(rows: map<string, AuditRow>, id: string): int { if id in rows then rows[id].createdAt else 0 }

  /** The order of the backlog query: creation time, then id. */
  function NotLater(rows: map<string, AuditRow>): (string, string) -> bool {
    (a: string, b: string) =>
      CreatedAt(rows, a) < CreatedAt(rows, b) || (CreatedAt(rows, a) == CreatedAt(rows, b) && StringLe(a, b))
  }

  lemma NotLaterIsOrder(rows: map<string, AuditRow>)
    ensures TotalPreorder(NotLater(rows))
    ensures forall a, b :: NotLater(rows)(a, b) && NotLater(rows)(b, a) ==> a == b
  {
    var le := NotLater(rows);
    forall a, b ensures le(a, b) || le(b, a) { StringLeTotal(a, b); }
    forall a, b | le(a, b) && le(b, a) ensures a == b { StringLeTotal(a, b); }
    forall a, b, c | le(a, b) && le(b, c) ensures le(a, c) {
      if StringLe(a, b) && StringLe(b, c) { StringLeTransitive(a, b, c); }
    }
  }

  /** All unsealed rows, in the query's order. */
  ghost predicate IsBacklog(rows: map<string, AuditRow>, ids: seq<string>) {
    && Distinct(ids) && SortedBy(NotLater(rows), ids)
    && forall id :: id in ids <==> id in rows && rows[id].entryHash.None?
  }

  lemma BacklogIsUnique(rows: map<string, AuditRow>, x: seq<string>, y: seq<string>)
    requires IsBacklog(rows, x) && IsBacklog(rows, y)
    ensures x == y
  {
    NotLaterIsOrder(rows);
    DistinctPermutation(x, y);
    SortedPermutationsAgree(NotLater(rows), x, y);
  }

  lemma {:induction false} Listed(ids: set<string>) returns (list: seq<string>)
    ensures Distinct(list) && forall id :: id in list <==> id in ids
  {
    if ids == {} {
      list := [];
    } else {
      var id :| id in ids;
      var rest := Listed(ids - {id});
      list := rest + [id];
      DistinctConcat(rest, [id]);
    }
  }

  lemma BacklogExists(rows: map<string, AuditRow>) returns (ids: seq<string>)
    ensures IsBacklog(rows, ids)
  {
    var list := Listed(set id <- rows | rows[id].entryHash.None?);
    ids := Sort(NotLater(rows), list);
    NotLaterIsOrder(rows);
    SortIsSortedPermutation(NotLater(rows), list);
    SortKeepsElements(NotLater(rows), list);
    DistinctOfPermutation(list, ids);
  }

  function FirstOf(ids: seq<string>, limit: nat): seq<string> { ids[..Min(limit, |ids|)] }

  /** The answer of the backlog query under a limit: its first rows. */
  ghost predicate IsQueryAnswer(rows: map<string, AuditRow>, limit: nat, batch: seq<string>) {
    exists ids :: IsBacklog(rows, ids) && batch == FirstOf(ids, limit)
  }

  lemma PlaceInBacklog(rows: map<string, AuditRow>, ids: seq<string>, i: nat, j: nat)
    requires IsBacklog(rows, ids) && i < |ids| && j < |ids| && NotLater(rows)(ids[i], ids[j])
    ensures i <= j
  {
    NotLaterIsOrder(rows);
  }

  /** Older rows are sealed first: with a row, a batch holds every unsealed row created before it, or at the same time with a smaller id. */
  lemma OldestFirst(rows: map<string, AuditRow>, limit: nat, batch: seq<string>, older: string, younger: string)
    requires IsQueryAnswer(rows, limit, batch) && younger in batch && older in rows && rows[older].entryHash.None?
    requires younger in rows
    requires rows[older].createdAt < rows[younger].createdAt
             || (rows[older].createdAt == rows[younger].createdAt && StringLe(older, younger))
    ensures exists i, j | 0 <= i <= j < |batch| :: batch[i] == older && batch[j] == younger
  {
    var ids :| IsBacklog(rows, ids) && batch == FirstOf(ids, limit);
    var j :| 0 <= j < |batch| && batch[j] == younger;
    var i :| 0 <= i < |ids| && ids[i] == older;
    PlaceInBacklog(rows, ids, i, j);
    assert batch[i] == older;
  }

  /** What sealing leaves as it is, and what it marks. */
  lemma {:induction false} SealAllMarks(h: Hash, s: Sealing, batch: seq<string>, id: string)
    requires id in s.rows && forall x <- batch :: x in s.rows
    ensures var t := SealAll(h, s, batch);
            && t.rows.Keys == s.rows.Keys && t.rows[id].createdAt == s.rows[id].createdAt
            && (t.rows[id].entryHash.Some? <==> s.rows[id].entryHash.Some? || id in batch)
  {
    if |batch| != 0 {
      var front, last := batch[..|batch| - 1], batch[|batch| - 1];
      assert forall x <- front :: x in batch;
      SealAllMarks(h, s, front, id);
      SealAllCounts(h, s, front);
      SealOneMarks(h, SealAll(h, s, front), last, id);
      assert batch == front + [last];
    }
  }

  lemma SealOneMarks(h: Hash, s: Sealing, last: string, id: string)
    requires id in s.rows && last in s.rows
    ensures var t := SealOne(h, s, last);
            && t.rows.Keys == s.rows.Keys && t.rows[id].createdAt == s.rows[id].createdAt
            && (t.rows[id].entryHash.Some? <==> s.rows[id].entryHash.Some? || id == last)
  {
  }

  lemma PrefixOfBacklog(rows: map<string, AuditRow>, ids: seq<string>, n: nat)
    requires IsBacklog(rows, ids) && n <= |ids|
    ensures IsBacklogAnswer(rows, ids[..n])
  {
    assert forall id <- ids[..n] :: id in ids;
  }

  /** Creation times do not change, so rows compare before and after as they did. */
  lemma SameTimesSameOrder(rows: map<string, AuditRow>, rows': map<string, AuditRow>, a: string, b: string)
    requires CreatedAt(rows, a) == CreatedAt(rows', a) && CreatedAt(rows, b) == CreatedAt(rows', b)
    ensures NotLater(rows)(a, b) <==> NotLater(rows')(a, b)
  {
  }

  /** Two states of the table between which exactly the rows `done` were sealed. */
  ghost predicate SealedPart(before: map<string, AuditRow>, after: map<string, AuditRow>, done: seq<string>) {
    && after.Keys == before.Keys
    && (forall id <- before :: after[id].createdAt == before[id].createdAt)
    && (forall id <- before :: after[id].entryHash.Some? <==> before[id].entryHash.Some? || id in done)
  }

  lemma SealingSealsPart(h: Hash, s: State, done: seq<string>)
    requires forall id <- done :: id in s.rows
    ensures SealedPart(s.rows, AfterSeal(h, s, done).rows, done)
  {
    SealAllCounts(h, Start(s), done);
    var after := AfterSeal(h, s, done).rows;
    forall id <- s.rows
      ensures after[id].createdAt == s.rows[id].createdAt && (after[id].entryHash.Some? <==> s.rows[id].entryHash.Some? || id in done)
    {
      SealAllMarks(h, Start(s), done, id);
    }
  }

  lemma RestIsBacklog(before: map<string, AuditRow>, after: map<string, AuditRow>, ids: seq<string>, n: nat)
    requires IsBacklog(before, ids) && n <= |ids| && SealedPart(before, after, ids[..n])
    ensures IsBacklog(after, ids[n..])
  {
    SplitMembers(ids, n);
    forall i, j | 0 <= i < j < |ids[n..]| ensures NotLater(after)(ids[n..][i], ids[n..][j]) {
      assert ids[n + i] in ids && ids[n + j] in ids;
      assert NotLater(before)(ids[n + i], ids[n + j]);
      SameTimesSameOrder(before, after, ids[n + i], ids[n + j]);
    }
  }

  /** After its first `n` entries are sealed the backlog is what remains of it. */
  lemma RemainingBacklog(h: Hash, s: State, ids: seq<string>, n: nat)
    requires IsBacklog(s.rows, ids) && n <= |ids|
    ensures IsBacklog(AfterSeal(h, s, ids[..n]).rows, ids[n..])
  {
    PrefixOfBacklog(s.rows, ids, n);
    SealingSealsPart(h, s, ids[..n]);
    RestIsBacklog(s.rows, AfterSeal(h, s, ids[..n]).rows, ids, n);
  }

  lemma SplitMembers(ids: seq<string>, n: nat)
    requires Distinct(ids) && n <= |ids|
    ensures Distinct(ids[n..]) && forall id :: id in ids[n..] <==> id in ids && id !in ids[..n]
  {
    assert ids == ids[..n] + ids[n..];
  }

  /** A series of sealing transactions, each of which seals its own query's answer, under any limits. */
  ghost predicate SealsBacklog(h: Hash, s: State, steps: seq<Step>, limits: seq<nat>) {
    && |steps| == |limits|
    && (|steps| == 0 ||
        var front, last := steps[..|steps| - 1], steps[|steps| - 1];
        && SealsBacklog(h, s, front, limits[..|steps| - 1])
        && last.Seal? && IsQueryAnswer(Run(h, s, front).rows, limits[|steps| - 1], last.batch))
  }

  function Total(limits: seq<nat>): nat {
    if |limits| == 0 then 0 else Total(limits[..|limits| - 1]) + limits[|limits| - 1]
  }

  /** The state after sealing, which is unchanged as long as nobody has sealed. */
  function SealedSoFar(h: Hash, s: State, steps: seq<Step>, batch: seq<string>): State {
    if |steps| == 0 then s else AfterSeal(h, s, batch)
  }

  lemma {:induction false} BatchesAddUp(h: Hash, s: State, ids: seq<string>, steps: seq<Step>, limits: seq<nat>)
    requires IsBacklog(s.rows, ids) && SealsBacklog(h, s, steps, limits)
    ensures Run(h, s, steps) == SealedSoFar(h, s, steps, FirstOf(ids, Total(limits)))
    ensures IsBacklog(Run(h, s, steps).rows, ids[Min(Total(limits), |ids|)..])
  {
    if |steps| == 0 {
      assert ids[0..] == ids;
    } else {
      var front, limit := steps[..|steps| - 1], limits[|steps| - 1];
      var n, m := Min(Total(limits[..|steps| - 1]), |ids|), Min(Total(limits), |ids|);
      BatchesAddUp(h, s, ids, front, limits[..|steps| - 1]);
      AnswerIsNext(Run(h, s, front).rows, ids, n, limit, steps[|steps| - 1].batch);
      OneMoreBatch(h, s, ids, steps, n, m);
    }
  }

  lemma OneMoreBatch(h: Hash, s: State, ids: seq<string>, steps: seq<Step>, n: nat, m: nat)
    requires n <= m <= |ids| && |steps| > 0 && steps[|steps| - 1] == Seal(ids[n..m]) && (|steps| == 1 ==> n == 0)
    requires IsBacklog(s.rows, ids) && IsBacklog(Run(h, s, steps[..|steps| - 1]).rows, ids[n..])
    requires Run(h, s, steps[..|steps| - 1]) == SealedSoFar(h, s, steps[..|steps| - 1], ids[..n])
    ensures Run(h, s, steps) == AfterSeal(h, s, ids[..m])
    ensures IsBacklog(AfterSeal(h, s, ids[..m]).rows, ids[m..])
  {
    NextBatch(h, s, ids, n, m, Run(h, s, steps[..|steps| - 1]));
  }

  lemma AnswerIsNext(rows: map<string, AuditRow>, ids: seq<string>, n: nat, limit: nat, batch: seq<string>)
    requires n <= |ids| && IsBacklog(rows, ids[n..]) && IsQueryAnswer(rows, limit, batch)
    ensures batch == ids[n..Min(n + limit, |ids|)]
  {
    var rest :| IsBacklog(rows, rest) && batch == FirstOf(rest, limit);
    BacklogIsUnique(rows, rest, ids[n..]);
  }

  lemma NextBatch(h: Hash, s: State, ids: seq<string>, n: nat, m: nat, t: State)
    requires n <= m <= |ids| && IsBacklog(s.rows, ids) && IsBacklog(t.rows, ids[n..])
    requires t == AfterSeal(h, s, ids[..n]) || (t == s && n == 0)
    ensures Apply(h, t, Seal(ids[n..m])) == AfterSeal(h, s, ids[..m])
    ensures IsBacklog(AfterSeal(h, s, ids[..m]).rows, ids[m..])
  {
    MiddleIsAnswer(t.rows, ids, n, m);
    if t == s && n == 0 { assert ids[0..m] == ids[..m]; } else { AfterSealSplit(h, s, ids, n, m); }
    RemainingBacklog(h, s, ids, m);
  }

  lemma MiddleIsAnswer(rows: map<string, AuditRow>, ids: seq<string>, n: nat, m: nat)
    requires n <= m <= |ids| && IsBacklog(rows, ids[n..])
    ensures IsBacklogAnswer(rows, ids[n..m])
  {
    assert ids[n..][..m - n] == ids[n..m];
    PrefixOfBacklog(rows, ids[n..], m - n);
  }

  lemma AfterSealSplit(h: Hash, s: State, ids: seq<string>, n: nat, m: nat)
    requires n <= m <= |ids|
    ensures AfterSeal(h, AfterSeal(h, s, ids[..n]), ids[n..m]) == AfterSeal(h, s, ids[..m])
  {
    AfterSealConcat(h, s, ids[..n], ids[n..m]);
    assert ids[..n] + ids[n..m] == ids[..m];
  }

  /** With limits of at least one, as many transactions as there are rows are always enough. */
  lemma {:induction false} EnoughBatches(limits: seq<nat>)
    requires forall n <- limits :: n >= 1
    ensures Total(limits) >= |limits|
  {
    if |limits| != 0 {
      var front := limits[..|limits| - 1];
      assert forall n | n in front :: n in limits;
      assert limits[|limits| - 1] in limits;
      EnoughBatches(front);
    }
  }

  /**
   * The batch size is invisible in the chain: any series of sealing
   * transactions, each over the first rows of its own query under its own
   * limit, leaves the rows, the chain state and the order that one transaction
   * over as many rows would have left.
   */
  lemma BatchingIsInvisible(h: Hash, s: State, ids: seq<string>, steps: seq<Step>, limits: seq<nat>)
    requires IsBacklog(s.rows, ids) && SealsBacklog(h, s, steps, limits) && |steps| > 0
    ensures Run(h, s, steps) == Apply(h, s, Seal(FirstOf(ids, Total(limits))))
    ensures Total(limits) >= |ids| ==> Run(h, s, steps) == Apply(h, s, Seal(ids)) && IsBacklog(Run(h, s, steps).rows, [])
    ensures |limits| >= |ids| && (forall n <- limits :: n >= 1) ==> Total(limits) >= |ids|
  {
    if forall n <- limits :: n >= 1 { EnoughBatches(limits); }
    BatchesAddUp(h, s, ids, steps, limits);
    PrefixOfBacklog(s.rows, ids, Min(Total(limits), |ids|));
    if Total(limits) >= |ids| {
      assert FirstOf(ids, Total(limits)) == ids && ids[|ids|..] == [];
    }
  }

  // ----- a late insert between two batches ------------------------------------

  function WithRow(s: Sealing, r: AuditRow): Sealing { s.(rows := s.rows[r.id := r]) }

  lemma {:induction false} SealAllBeside(h: Hash, s: Sealing, batch: seq<string>, r: AuditRow)
    requires r.id !in s.rows && r.id !in batch && forall id <- batch :: id in s.rows
    ensures SealAll(h, WithRow(s, r), batch) == WithRow(SealAll(h, s, batch), r)
  {
    if |batch| != 0 {
      var front, id := batch[..|batch| - 1], batch[|batch| - 1];
      assert forall x <- front :: x in batch;
      SealAllBeside(h, s, front, r);
      SealAllCounts(h, s, front);
      assert id in batch;
      SealOneBeside(h, SealAll(h, s, front), id, r);
    }
  }

  lemma SealOneBeside(h: Hash, s: Sealing, id: string, r: AuditRow)
    requires r.id !in s.rows && id in s.rows
    ensures SealOne(h, WithRow(s, r), id) == WithRow(SealOne(h, s, id), r)
  {
    var sealed := SealedRow(h, s, s.rows[id]);
    assert s.rows[r.id := r][id := sealed] == s.rows[id := sealed][r.id := r];
  }

  /** Sealing first and inserting then is inserting first and sealing then, if the batch is the same. */
  lemma SealBesideInsert(h: Hash, s: State, batch: seq<string>, r: AuditRow)
    requires r.id !in s.rows && forall id <- batch :: id in s.rows
    ensures Apply(h, AfterSeal(h, s, batch), Insert(r)) == AfterSeal(h, Apply(h, s, Insert(r)), batch)
  {
    SealAllCounts(h, Start(s), batch);
    SealAllBeside(h, Start(s), batch, Unsealed(r));
  }

  lemma JoinedIsSorted(early: map<string, AuditRow>, late: map<string, AuditRow>, done: seq<string>, rest: seq<string>)
    requires SealedPart(early, late, done) && IsBacklog(late, rest)
    requires IsBacklogAnswer(early, done) && SortedBy(NotLater(early), done)
    requires forall x, y | x in done && y in rest :: NotLater(early)(x, y)
    ensures IsBacklog(early, done + rest)
  {
    forall x <- done ensures x !in rest {}
    DistinctConcat(done, rest);
    forall i, j | 0 <= i < j < |done + rest| ensures NotLater(early)((done + rest)[i], (done + rest)[j]) {
      if i >= |done| {
        assert NotLater(late)(rest[i - |done|], rest[j - |done|]);
        SameTimesSameOrder(early, late, rest[i - |done|], rest[j - |done|]);
      } else if j >= |done| {
        assert done[i] in done && rest[j - |done|] in rest;
      } else {
        assert NotLater(early)(done[i], done[j]);
      }
    }
  }

  /** What the backlog looks like before and after the insert of a row. */
  lemma InsertedBacklog(h: Hash, s: State, ids: seq<string>, n: nat, r: AuditRow)
    requires IsBacklog(s.rows, ids) && n <= |ids| && r.id !in s.rows
    ensures var early, late := Apply(h, s, Insert(r)).rows, Apply(h, AfterSeal(h, s, ids[..n]), Insert(r)).rows;
            && SealedPart(early, late, ids[..n]) && IsBacklogAnswer(early, ids[..n]) && SortedBy(NotLater(early), ids)
            && (forall id :: id in early && early[id].entryHash.None? <==> id in ids || id == r.id)
  {
    PrefixOfBacklog(s.rows, ids, n);
    SealingSealsPart(h, s, ids[..n]);
    var early := Apply(h, s, Insert(r)).rows;
    forall i, j | 0 <= i < j < |ids| ensures NotLater(early)(ids[i], ids[j]) {
      assert ids[i] in ids && ids[j] in ids;
      assert NotLater(s.rows)(ids[i], ids[j]);
      SameTimesSameOrder(s.rows, early, ids[i], ids[j]);
    }
  }

  lemma LateOrder(h: Hash, s: State, ids: seq<string>, n: nat, r: AuditRow, rest: seq<string>, full: seq<string>)
    requires IsBacklog(s.rows, ids) && n <= |ids| && r.id !in s.rows
    requires IsBacklog(Apply(h, AfterSeal(h, s, ids[..n]), Insert(r)).rows, rest)
    requires IsBacklog(Apply(h, s, Insert(r)).rows, full)
    ensures full == ids[..n] + rest <==> n == 0 || NotLater(Apply(h, s, Insert(r)).rows)(ids[n - 1], r.id)
  {
    var early, late := Apply(h, s, Insert(r)).rows, Apply(h, AfterSeal(h, s, ids[..n]), Insert(r)).rows;
    InsertedBacklog(h, s, ids, n, r);
    SplitMembers(ids, n);
    assert r.id in rest;
    if full == ids[..n] + rest && n > 0 {
      var k :| 0 <= k < |rest| && rest[k] == r.id;
      assert full[n - 1] == ids[n - 1] && full[n + k] == r.id;
      assert NotLater(early)(full[n - 1], full[n + k]);
    }
    if n == 0 || NotLater(early)(ids[n - 1], r.id) {
      forall x, y | x in ids[..n] && y in rest ensures NotLater(early)(x, y) { SealedComeFirst(early, ids, n, r.id, x, y); }
      forall i, j | 0 <= i < j < n ensures NotLater(early)(ids[..n][i], ids[..n][j]) { assert NotLater(early)(ids[i], ids[j]); }
      JoinedIsSorted(early, late, ids[..n], rest);
      BacklogIsUnique(early, full, ids[..n] + rest);
    }
  }

  lemma SealedComeFirst(rows: map<string, AuditRow>, ids: seq<string>, n: nat, r: string, x: string, y: string)
    requires SortedBy(NotLater(rows), ids) && 0 < n <= |ids| && NotLater(rows)(ids[n - 1], r)
    requires x in ids[..n] && (y == r || y in ids[n..])
    ensures NotLater(rows)(x, y)
  {
    NotLaterIsOrder(rows);
    var i :| 0 <= i < n && ids[..n][i] == x;
    assert i < n - 1 ==> NotLater(rows)(ids[i], ids[n - 1]);
    if y == r {
      assert NotLater(rows)(x, r);
    } else {
      var j :| 0 <= j < |ids| - n && ids[n..][j] == y;
      assert NotLater(rows)(ids[i], ids[n + j]);
    }
  }

  /** Sealing numbers the batch in its order. */
  lemma {:induction false} SealAllNumbers(h: Hash, s: Sealing, batch: seq<string>, i: nat)
    requires Distinct(batch) && i < |batch| && forall id <- batch :: id in s.rows
    ensures batch[i] in SealAll(h, s, batch).rows && SealAll(h, s, batch).rows[batch[i]].chainSequence == Some(s.sequence + i + 1)
  {
    var front, last := batch[..|batch| - 1], batch[|batch| - 1];
    assert forall x <- front :: x in batch;
    SealAllCounts(h, s, front);
    assert last in batch;
    if i < |front| {
      SealAllNumbers(h, s, front, i);
      assert batch[i] == front[i];
    }
    SealOneNumbers(h, SealAll(h, s, front), last, batch[i]);
  }

  lemma SealOneNumbers(h: Hash, s: Sealing, last: string, id: string)
    requires last in s.rows && id in s.rows
    ensures var rows := SealOne(h, s, last).rows;
            && id in rows && rows[id].chainSequence == if id == last then Some(s.sequence + 1) else s.rows[id].chainSequence
  {
  }

  /** So the rows remember the order in which they were sealed. */
  lemma RowsDecideOrder(h: Hash, s: Sealing, a: seq<string>, b: seq<string>)
    requires Distinct(a) && Distinct(b) && multiset(a) == multiset(b) && forall id <- a :: id in s.rows
    requires SealAll(h, s, a).rows == SealAll(h, s, b).rows
    ensures a == b
  {
    assert |multiset(a)| == |multiset(b)|;
    forall id <- b ensures id in s.rows { assert id in multiset(a); }
    forall i | 0 <= i < |a| ensures a[i] == b[i] {
      assert a[i] in multiset(b);
      var j :| 0 <= j < |b| && b[j] == a[i];
      SameNumberSamePlace(h, s, a, b, i, j);
    }
  }

  lemma SameNumberSamePlace(h: Hash, s: Sealing, a: seq<string>, b: seq<string>, i: nat, j: nat)
    requires Distinct(a) && Distinct(b) && (forall id <- a :: id in s.rows) && (forall id <- b :: id in s.rows)
    requires i < |a| && j < |b| && a[i] == b[j] && SealAll(h, s, a).rows == SealAll(h, s, b).rows
    ensures i == j
  {
    SealAllNumbers(h, s, a, i);
    SealAllNumbers(h, s, b, j);
  }

  lemma LateMembers(h: Hash, s: State, ids: seq<string>, n: nat, r: AuditRow, rest: seq<string>, full: seq<string>)
    requires IsBacklog(s.rows, ids) && n <= |ids| && r.id !in s.rows
    requires IsBacklog(Apply(h, AfterSeal(h, s, ids[..n]), Insert(r)).rows, rest)
    requires IsBacklog(Apply(h, s, Insert(r)).rows, full)
    ensures Distinct(ids[..n] + rest) && multiset(ids[..n] + rest) == multiset(full)
    ensures forall id <- full :: id in Apply(h, s, Insert(r)).rows && Apply(h, s, Insert(r)).rows[id].entryHash.None?
  {
    InsertedBacklog(h, s, ids, n, r);
    SplitMembers(ids, n);
    DistinctConcat(ids[..n], rest);
    DistinctPermutation(ids[..n] + rest, full);
  }

  /** The new row does not come before the last one sealed already. */
  ghost predicate InTime(h: Hash, s: State, ids: seq<string>, n: nat, r: AuditRow)
    requires n <= |ids|
  {
    n == 0 || NotLater(Apply(h, s, Insert(r)).rows)(ids[n - 1], r.id)
  }

  /** The table after the first `n` rows of the backlog, a late insert, and the rest of the backlog. */
  ghost function Late(h: Hash, s: State, ids: seq<string>, n: nat, r: AuditRow, rest: seq<string>): State
    requires n <= |ids|
  {
    AfterSeal(h, Apply(h, AfterSeal(h, s, ids[..n]), Insert(r)), rest)
  }

  /**
   * A row inserted after the first `n` rows of the backlog were sealed: the log
   * is sealed in the order `ids[..n] + rest`.  The sealed rows are those an
   * earlier insert would have given exactly if the new row does not come before
   * the last one sealed already; then chain and order are the same too.
   */
  lemma LateInsert(h: Hash, s: State, ids: seq<string>, n: nat, r: AuditRow, rest: seq<string>, full: seq<string>)
    requires IsBacklog(s.rows, ids) && n <= |ids| && r.id !in s.rows
    requires IsBacklog(Apply(h, AfterSeal(h, s, ids[..n]), Insert(r)).rows, rest)
    requires IsBacklog(Apply(h, s, Insert(r)).rows, full)
    ensures Late(h, s, ids, n, r, rest) == AfterSeal(h, Apply(h, s, Insert(r)), ids[..n] + rest)
    ensures Late(h, s, ids, n, r, rest).rows == AfterSeal(h, Apply(h, s, Insert(r)), full).rows <==> InTime(h, s, ids, n, r)
    ensures InTime(h, s, ids, n, r) ==> Late(h, s, ids, n, r, rest) == AfterSeal(h, Apply(h, s, Insert(r)), full)
  {
    var early := Apply(h, s, Insert(r));
    assert forall id <- ids[..n] :: id in ids;
    SealBesideInsert(h, s, ids[..n], r);
    AfterSealConcat(h, early, ids[..n], rest);
    LateOrder(h, s, ids, n, r, rest, full);
    LateMembers(h, s, ids, n, r, rest, full);
    if AfterSeal(h, early, ids[..n] + rest).rows == AfterSeal(h, early, full).rows {
      RowsDecideOrder(h, Start(early), full, ids[..n] + rest);
    }
  }

  // ----- and what the chain shows of it ---------------------------------------

  ghost predicate RowsOk(rows: map<string, AuditRow>) { forall id <- rows :: rows[id].id == id && ColumnsOk(rows[id]) }

  lemma {:induction false} SealAllKeepsRowsOk(h: Hash, s: Sealing, batch: seq<string>)
    requires RowsOk(s.rows)
    ensures RowsOk(SealAll(h, s, batch).rows)
  {
    if |batch| != 0 { SealAllKeepsRowsOk(h, s, batch[..|batch| - 1]); }
  }

  /** The retained rows, in sealing order. */
  ghost function RowsIn(rows: map<string, AuditRow>, order: seq<string>): seq<AuditRow>
    requires AllIn(rows, order)
  {
    seq(|order|, i requires 0 <= i < |order| => assert order[i] in order; rows[order[i]])
  }

  lemma EntriesAreViews(h: Hash, rows: map<string, AuditRow>, order: seq<string>)
    requires AllIn(rows, order)
    ensures Entries(h, rows, order) == Views(h, RowsIn(rows, order))
  {
    forall i | 0 <= i < |order| ensures Entries(h, rows, order)[i] == Views(h, RowsIn(rows, order))[i] { EntryAt(h, rows, order, i); }
  }

  /** Two logs with the same chain state were sealed in the same order. */
  lemma ChainDecidesOrder(h: Hash, s: State, t: State)
    requires Injective(h) && Inv(h, s) && Inv(h, t) && RowsOk(s.rows) && RowsOk(t.rows) && s.chain == t.chain && s.chain.Some?
    ensures s.order == t.order
  {
    var a, b := RowsIn(s.rows, s.order), RowsIn(t.rows, t.order);
    EntriesAreViews(h, s.rows, s.order);
    EntriesAreViews(h, t.rows, t.order);
    forall i | 0 <= i < |a| ensures a[i].id == s.order[i] && ColumnsOk(a[i]) { assert s.order[i] in s.order; }
    forall i | 0 <= i < |b| ensures b[i].id == t.order[i] && ColumnsOk(b[i]) { assert t.order[i] in t.order; }
    AcceptedLogsAgree(h, s.chain.value, a, b);
    forall i | 0 <= i < |a| ensures s.order[i] == t.order[i] { assert SameEntry(a[i], b[i]); }
  }

  lemma SealedStateOk(h: Hash, s: State, batch: seq<string>)
    requires Inv(h, s) && RowsOk(s.rows) && IsBacklogAnswer(s.rows, batch)
    ensures Inv(h, AfterSeal(h, s, batch)) && RowsOk(AfterSeal(h, s, batch).rows)
  {
    AfterSealKeepsInv(h, s, batch);
    SealAllKeepsRowsOk(h, Start(s), batch);
  }

  /** With an injective hash the chain state alone tells a late insert from an earlier one, under the same condition. */
  lemma ChainShowsLateInsert(h: Hash, s: State, ids: seq<string>, n: nat, r: AuditRow, rest: seq<string>, full: seq<string>)
    requires Injective(h) && Inv(h, s) && RowsOk(s.rows) && ColumnsOk(r)
    requires IsBacklog(s.rows, ids) && n <= |ids| && r.id !in s.rows
    requires IsBacklog(Apply(h, AfterSeal(h, s, ids[..n]), Insert(r)).rows, rest)
    requires IsBacklog(Apply(h, s, Insert(r)).rows, full)
    ensures Late(h, s, ids, n, r, rest).chain == AfterSeal(h, Apply(h, s, Insert(r)), full).chain <==> InTime(h, s, ids, n, r)
  {
    var early := Apply(h, s, Insert(r));
    LateInsert(h, s, ids, n, r, rest, full);
    LateAnswers(h, s, ids, n, r, rest, full);
    InsertKeepsInv(h, s, r);
    InsertedRowsOk(h, s, r);
    if Late(h, s, ids, n, r, rest).chain == AfterSeal(h, early, full).chain {
      SameChainSameBatch(h, early, ids[..n] + rest, full);
    }
  }

  lemma LateAnswers(h: Hash, s: State, ids: seq<string>, n: nat, r: AuditRow, rest: seq<string>, full: seq<string>)
    requires IsBacklog(s.rows, ids) && n <= |ids| && r.id !in s.rows
    requires IsBacklog(Apply(h, AfterSeal(h, s, ids[..n]), Insert(r)).rows, rest)
    requires IsBacklog(Apply(h, s, Insert(r)).rows, full)
    ensures IsBacklogAnswer(Apply(h, s, Insert(r)).rows, ids[..n] + rest) && IsBacklogAnswer(Apply(h, s, Insert(r)).rows, full)
  {
    LateMembers(h, s, ids, n, r, rest, full);
    forall id <- ids[..n] + rest ensures id in full { assert id in multiset(full); }
  }

  lemma InsertedRowsOk(h: Hash, s: State, r: AuditRow)
    requires RowsOk(s.rows) && ColumnsOk(r)
    ensures RowsOk(Apply(h, s, Insert(r)).rows)
  {
    var stored := Unsealed(r);
    assert stored.columns == r.columns;
  }

  lemma SameChainSameBatch(h: Hash, s: State, a: seq<string>, b: seq<string>)
    requires Injective(h) && Inv(h, s) && RowsOk(s.rows) && IsBacklogAnswer(s.rows, a) && IsBacklogAnswer(s.rows, b)
    requires AfterSeal(h, s, a).chain == AfterSeal(h, s, b).chain
    ensures a == b
  {
    SealedStateOk(h, s, a);
    SealedStateOk(h, s, b);
    ChainDecidesOrder(h, AfterSeal(h, s, a), AfterSeal(h, s, b));
    SameTail(s.order, a, b);
  }

  lemma SameTail(a: seq<string>, b: seq<string>, c: seq<string>)
    requires a + b == a + c
    ensures b == c
  {
    assert (a + b)[|a|..] == b && (a + c)[|a|..] == c;
  }
}
