/**
 * The audit hash chain (lib/audit-integrity.ts): canonical content, sealing,
 * verification.  The digest and the ISO text of an
 * instant are a parameter `h`.
 */
module AuditIntegrity {
  import opened Wrappers
  import opened Sorting
  import opened Distinctness
  import opened StringOrder

  // ===== canonical content ====================================================

  /** A value as read from a row; an instant carries its ISO text. */
  datatype Json =
    | Null | Bool(b: bool) | Number(n: int) | Text(s: string) | Instant(iso: string)
    | List(items: seq<Json>) | Object(fields: seq<Field>)

  datatype Field = Field(key: string, value: Json)

  const CHAIN_KEYS: set<string> := {"previousHash", "entryHash", "chainSequence"}

  const ByKey: (Field, Field) -> bool := (a: Field, b: Field) => StringLe(a.key, b.key)

  function Canonical(v: Json): Json
    decreases v, 1
  {
    match v
    case Instant(iso) => Text(iso)
    case List(items) => List(CanonicalItems(items))
    case Object(fields) => Object(Sort(ByKey, CanonicalFields(fields)))
    case _ => v
  }

  function CanonicalItems(items: seq<Json>): seq<Json>
    decreases items, 0
  {
    if |items| == 0 then [] else [Canonical(items[0])] + CanonicalItems(items[1..])
  }

  function CanonicalFields(fields: seq<Field>): seq<Field>
    decreases fields, 0
  {
    if |fields| == 0 then []
    else
      var rest := CanonicalFields(fields[1..]);
      if fields[0].key in CHAIN_KEYS then rest else [Field(fields[0].key, Canonical(fields[0].value))] + rest
  }

  lemma ByKeyIsTotalPreorder()
    ensures TotalPreorder(ByKey)
  {
    forall a: Field, b: Field ensures ByKey(a, b) || ByKey(b, a) { StringLeTotal(a.key, b.key); }
    forall a: Field, b: Field, c: Field | ByKey(a, b) && ByKey(b, c) ensures ByKey(a, c) {
      StringLeTransitive(a.key, b.key, c.key);
    }
  }

  ghost predicate Settled(f: Field) { f.key !in CHAIN_KEYS && Canonical(f.value) == f.value }

  lemma {:induction false} SettledFieldsStay(fields: seq<Field>)
    requires forall f <- fields :: Settled(f)
    ensures CanonicalFields(fields) == fields
  {
    if |fields| != 0 {
      assert Settled(fields[0]);
      SettledFieldsStay(fields[1..]);
      assert [fields[0]] + fields[1..] == fields;
    }
  }

  lemma {:induction false} CanonicalItemsIdempotent(items: seq<Json>)
    ensures CanonicalItems(CanonicalItems(items)) == CanonicalItems(items)
    decreases items, 0
  {
    if |items| != 0 {
      CanonicalIdempotent(items[0]);
      CanonicalItemsIdempotent(items[1..]);
      var c := CanonicalItems(items);
      assert c[1..] == CanonicalItems(items[1..]);
    }
  }

  lemma {:induction false} CanonicalFieldsSettle(fields: seq<Field>)
    ensures forall f <- CanonicalFields(fields) :: Settled(f)
    decreases fields, 0
  {
    if |fields| != 0 {
      CanonicalIdempotent(fields[0].value);
      CanonicalFieldsSettle(fields[1..]);
    }
  }

  /** Canonical content is a normal form: applying it twice changes nothing. */
  lemma {:induction false} CanonicalIdempotent(v: Json)
    ensures Canonical(Canonical(v)) == Canonical(v)
    decreases v, 1
  {
    match v
    case List(items) => CanonicalItemsIdempotent(items);
    case Object(fields) =>
      var g := CanonicalFields(fields);
      ByKeyIsTotalPreorder();
      CanonicalFieldsSettle(fields);
      SortIsSortedPermutation(ByKey, g);
      SortKeepsElements(ByKey, g);
      SettledFieldsStay(Sort(ByKey, g));
      SortOfSorted(ByKey, Sort(ByKey, g));
    case _ =>
  }

  ghost predicate DistinctKeys(fields: seq<Field>) {
    forall i, j | 0 <= i < j < |fields| :: fields[i].key != fields[j].key
  }

  // ----- when two values have the same canonical form -------------------------

  /** A text, or an instant as its ISO text. */
  predicate IsText(v: Json, s: string) { v == Text(s) || v == Instant(s) }

  /**
   * Equal after dropping the three chain names at every depth, whatever the
   * order of the keys at every depth, an instant being the same as its ISO text.
   */
  ghost predicate SameUpTo(a: Json, b: Json) {
    match a
    case Text(s) => IsText(b, s)
    case Instant(s) => IsText(b, s)
    case List(xs) => b.List? && |xs| == |b.items| && forall i | 0 <= i < |xs| :: SameUpTo(xs[i], b.items[i])
    case Object(fs) =>
      && b.Object?
      && (forall f <- fs | f.key !in CHAIN_KEYS :: exists g <- b.fields :: g.key == f.key && SameUpTo(f.value, g.value))
      && (forall g <- b.fields | g.key !in CHAIN_KEYS :: HasKey(fs, g.key))
    case _ => a == b
  }

  predicate HasKey(fields: seq<Field>, key: string) { exists f <- fields :: f.key == key }

  /** The keys of an object differ, at every depth. */
  ghost predicate WellFormed(v: Json) {
    match v
    case List(items) => forall x <- items :: WellFormed(x)
    case Object(fields) => DistinctKeys(fields) && forall f <- fields :: WellFormed(f.value)
    case _ => true
  }

  lemma {:induction false} CanonicalItemsAre(items: seq<Json>)
    ensures |CanonicalItems(items)| == |items|
    ensures forall i | 0 <= i < |items| :: CanonicalItems(items)[i] == Canonical(items[i])
  {
    if |items| != 0 { CanonicalItemsAre(items[1..]); }
  }

  lemma {:induction false} CanonicalFieldsAre(fields: seq<Field>, f: Field)
    ensures f in CanonicalFields(fields) <==> f.key !in CHAIN_KEYS && exists g <- fields :: g.key == f.key && f.value == Canonical(g.value)
  {
    if |fields| != 0 {
      CanonicalFieldsAre(fields[1..], f);
      assert forall g :: g in fields <==> g == fields[0] || g in fields[1..];
    }
  }

  lemma {:induction false} CanonicalFieldsDistinct(fields: seq<Field>)
    requires DistinctKeys(fields)
    ensures DistinctKeys(CanonicalFields(fields))
  {
    if |fields| != 0 {
      CanonicalFieldsDistinct(fields[1..]);
      var rest := CanonicalFields(fields[1..]);
      forall i | 0 <= i < |rest| ensures rest[i].key != fields[0].key {
        assert rest[i] in rest;
        CanonicalFieldsAre(fields[1..], rest[i]);
      }
    }
  }

  /** Sorted by key, objects with distinct keys are equal exactly when they have the same fields. */
  lemma SortedByElements(x: seq<Field>, y: seq<Field>)
    requires DistinctKeys(x) && DistinctKeys(y)
    ensures Sort(ByKey, x) == Sort(ByKey, y) <==> forall f :: f in x <==> f in y
  {
    ByKeyIsTotalPreorder();
    SortKeepsElements(ByKey, x);
    SortKeepsElements(ByKey, y);
    if forall f :: f in x <==> f in y { SameElementsSortAlike(x, y); }
  }

  lemma SameElementsSortAlike(x: seq<Field>, y: seq<Field>)
    requires DistinctKeys(x) && DistinctKeys(y) && forall f :: f in x <==> f in y
    ensures Sort(ByKey, x) == Sort(ByKey, y)
  {
    ByKeyIsTotalPreorder();
    DistinctPermutation(x, y);
    SortIsSortedPermutation(ByKey, x);
    SortIsSortedPermutation(ByKey, y);
    SortKeepsElements(ByKey, x);
    forall f, g | f in Sort(ByKey, x) && g in Sort(ByKey, x) && ByKey(f, g) && ByKey(g, f) ensures f == g {
      StringLeTotal(f.key, g.key);
      assert f in x && g in x;
    }
    SortedPermutationsAgree(ByKey, Sort(ByKey, x), Sort(ByKey, y));
  }

  /** The fields of a canonical object stand in the order of their keys, none of them a chain column. */
  lemma CanonicalIsSorted(fields: seq<Field>)
    requires DistinctKeys(fields)
    ensures var v := Canonical(Object(fields));
            && v.Object?
            && (forall i, j | 0 <= i < j < |v.fields| :: StringLe(v.fields[i].key, v.fields[j].key))
            && forall f <- v.fields :: f.key != "previousHash" && f.key != "entryHash" && f.key != "chainSequence"
  {
    var x := CanonicalFields(fields);
    ByKeyIsTotalPreorder();
    SortIsSortedPermutation(ByKey, x);
    SortKeepsElements(ByKey, x);
    forall i, j | 0 <= i < j < |x| ensures StringLe(Sort(ByKey, x)[i].key, Sort(ByKey, x)[j].key) {
      assert ByKey(Sort(ByKey, x)[i], Sort(ByKey, x)[j]);
    }
    forall f <- x ensures f.key !in CHAIN_KEYS { CanonicalFieldsAre(fields, f); }
  }

  /** The exact condition for two values to be hashed alike. */
  lemma {:induction false} CanonicalIff(a: Json, b: Json)
    requires WellFormed(a) && WellFormed(b)
    ensures Canonical(a) == Canonical(b) <==> SameUpTo(a, b)
    decreases a
  {
    match a
    case List(xs) =>
      CanonicalItemsAre(xs);
      if b.List? {
        CanonicalItemsAre(b.items);
        forall i | 0 <= i < |xs| && |xs| == |b.items| ensures Canonical(xs[i]) == Canonical(b.items[i]) <==> SameUpTo(xs[i], b.items[i]) {
          CanonicalIff(xs[i], b.items[i]);
        }
      }
    case Object(fs) =>
      if b.Object? {
        forall f, g | f in fs && g in b.fields ensures Canonical(f.value) == Canonical(g.value) <==> SameUpTo(f.value, g.value) {
          CanonicalIff(f.value, g.value);
        }
        ObjectsIff(fs, b.fields);
      }
    case _ =>
  }

  ghost predicate Counterpart(f: Field, gs: seq<Field>) {
    exists g <- gs :: g.key == f.key && Canonical(g.value) == Canonical(f.value)
  }

  lemma ObjectsIff(fs: seq<Field>, gs: seq<Field>)
    requires DistinctKeys(fs) && DistinctKeys(gs)
    ensures Canonical(Object(fs)) == Canonical(Object(gs)) <==>
            && (forall f <- fs | f.key !in CHAIN_KEYS :: Counterpart(f, gs))
            && (forall g <- gs | g.key !in CHAIN_KEYS :: HasKey(fs, g.key))
  {
    var x, y := CanonicalFields(fs), CanonicalFields(gs);
    CanonicalFieldsDistinct(fs);
    CanonicalFieldsDistinct(gs);
    SortedByElements(x, y);
    if forall e :: e in x <==> e in y { SharedFieldsAreCounterparts(fs, gs); }
    if (forall f <- fs | f.key !in CHAIN_KEYS :: Counterpart(f, gs)) && (forall g <- gs | g.key !in CHAIN_KEYS :: HasKey(fs, g.key)) {
      forall e ensures e in x <==> e in y { CounterpartsShareFields(fs, gs, e); }
    }
  }

  lemma SharedFieldsAreCounterparts(fs: seq<Field>, gs: seq<Field>)
    requires forall e :: e in CanonicalFields(fs) <==> e in CanonicalFields(gs)
    ensures forall f <- fs | f.key !in CHAIN_KEYS :: Counterpart(f, gs)
    ensures forall g <- gs | g.key !in CHAIN_KEYS :: HasKey(fs, g.key)
  {
    forall f <- fs | f.key !in CHAIN_KEYS ensures Counterpart(f, gs) {
      CanonicalFieldsAre(fs, Field(f.key, Canonical(f.value)));
      CanonicalFieldsAre(gs, Field(f.key, Canonical(f.value)));
    }
    forall g <- gs | g.key !in CHAIN_KEYS ensures HasKey(fs, g.key) {
      CanonicalFieldsAre(gs, Field(g.key, Canonical(g.value)));
      CanonicalFieldsAre(fs, Field(g.key, Canonical(g.value)));
    }
  }

  lemma CounterpartsShareFields(fs: seq<Field>, gs: seq<Field>, e: Field)
    requires DistinctKeys(gs)
    requires forall f <- fs | f.key !in CHAIN_KEYS :: Counterpart(f, gs)
    requires forall g <- gs | g.key !in CHAIN_KEYS :: HasKey(fs, g.key)
    ensures e in CanonicalFields(fs) <==> e in CanonicalFields(gs)
  {
    CanonicalFieldsAre(fs, e);
    CanonicalFieldsAre(gs, e);
    if e in CanonicalFields(fs) {
      var f :| f in fs && f.key == e.key && e.value == Canonical(f.value);
      assert Counterpart(f, gs);
    }
    if e in CanonicalFields(gs) {
      var g :| g in gs && g.key == e.key && e.value == Canonical(g.value);
      var f :| f in fs && f.key == g.key;
      assert Counterpart(f, gs);
    }
  }

  // ----- values without chain names and instants ------------------------------

  ghost predicate Plain(v: Json) {
    match v
    case Instant(_) => false
    case List(items) => forall x <- items :: Plain(x)
    case Object(fields) => forall f <- fields :: f.key !in CHAIN_KEYS && Plain(f.value)
    case _ => true
  }

  /** Equal but for the order of the keys, at every depth. */
  ghost predicate Reordered(a: Json, b: Json) {
    match a
    case List(xs) => b.List? && |xs| == |b.items| && forall i | 0 <= i < |xs| :: Reordered(xs[i], b.items[i])
    case Object(fs) =>
      && b.Object?
      && (forall f <- fs :: exists g <- b.fields :: g.key == f.key && Reordered(f.value, g.value))
      && (forall g <- b.fields :: HasKey(fs, g.key))
    case _ => a == b
  }

  lemma {:induction false} PlainSameIff(a: Json, b: Json)
    requires Plain(a) && Plain(b)
    ensures SameUpTo(a, b) <==> Reordered(a, b)
    decreases a
  {
    match a
    case List(xs) =>
      if b.List? && |xs| == |b.items| {
        forall i | 0 <= i < |xs| ensures SameUpTo(xs[i], b.items[i]) <==> Reordered(xs[i], b.items[i]) {
          PlainSameIff(xs[i], b.items[i]);
        }
      }
    case Object(fs) =>
      if b.Object? {
        forall f, g | f in fs && g in b.fields ensures SameUpTo(f.value, g.value) <==> Reordered(f.value, g.value) {
          PlainSameIff(f.value, g.value);
        }
      }
    case _ =>
  }

  lemma {:induction false} ReorderedIsSame(a: Json, b: Json)
    requires Reordered(a, b)
    ensures SameUpTo(a, b)
    decreases a
  {
    match a
    case List(xs) => forall i | 0 <= i < |xs| ensures SameUpTo(xs[i], b.items[i]) { ReorderedIsSame(xs[i], b.items[i]); }
    case Object(fs) =>
      forall f, g | f in fs && g in b.fields && Reordered(f.value, g.value) ensures SameUpTo(f.value, g.value) {
        ReorderedIsSame(f.value, g.value);
      }
    case _ =>
  }

  /** The order in which keys are enumerated does not matter, at any depth. */
  lemma CanonicalIgnoresKeyOrder(a: Json, b: Json)
    requires WellFormed(a) && WellFormed(b) && Reordered(a, b)
    ensures Canonical(a) == Canonical(b)
  {
    ReorderedIsSame(a, b);
    CanonicalIff(a, b);
  }

  /** Without chain names and instants the canonical form protects everything but the order of the keys. */
  lemma PlainCanonicalIff(a: Json, b: Json)
    requires WellFormed(a) && WellFormed(b) && Plain(a) && Plain(b)
    ensures Canonical(a) == Canonical(b) <==> Reordered(a, b)
  {
    CanonicalIff(a, b);
    PlainSameIff(a, b);
  }

  // ===== rows, hashes and the chain ===========================================

  type Digest = string

  /** The digest of a previous digest and a content, and the text of an instant. */
  datatype Hash = Hash(digest: (Option<Digest>, Json) -> Digest, iso: int -> string)

  ghost predicate Injective(h: Hash) {
    && (forall p1, c1, p2, c2 :: h.digest(p1, c1) == h.digest(p2, c2) ==> p1 == p2 && c1 == c2)
    && forall t1, t2 :: h.iso(t1) == h.iso(t2) ==> t1 == t2
  }

  /** A row of the audit table: `columns` are all but the named ones. */
  datatype AuditRow = AuditRow(
    id: string, createdAt: int, columns: seq<Field>,
    previousHash: Option<Digest>, entryHash: Option<Digest>, chainSequence: Option<int>)

  datatype ChainState = ChainState(
    latestHash: Option<Digest>, sequence: int, retainedSequence: Option<int>, retainedPreviousHash: Option<Digest>)

  function DigestJson(d: Option<Digest>): Json { if d.None? then Null else Text(d.value) }

  function OwnFields(h: Hash, r: AuditRow): seq<Field> {
    [Field("id", Text(r.id)), Field("createdAt", Instant(h.iso(r.createdAt)))] + r.columns
  }

  function ChainFields(r: AuditRow): seq<Field> {
    [Field("previousHash", DigestJson(r.previousHash)),
     Field("entryHash", DigestJson(r.entryHash)),
     Field("chainSequence", if r.chainSequence.None? then Null else Number(r.chainSequence.value))]
  }

  /** The whole row as the object that is hashed, chain columns included. */
  function RowJson(h: Hash, r: AuditRow): Json { Object(OwnFields(h, r) + ChainFields(r)) }

  function Content(h: Hash, r: AuditRow): Json { Canonical(RowJson(h, r)) }

  function EntryHash(h: Hash, previousHash: Option<Digest>, r: AuditRow): Digest { h.digest(previousHash, Content(h, r)) }

  /** No column has the name of another, at any depth of their values either. */
  ghost predicate ColumnsOk(r: AuditRow) {
    WellFormed(Object(r.columns)) && forall f <- r.columns :: f.key != "id" && f.key != "createdAt" && f.key !in CHAIN_KEYS
  }

  /** Sealing a row does not change what is hashed for it. */
  lemma ContentIgnoresChainColumns(h: Hash, r: AuditRow, s: AuditRow)
    requires r.id == s.id && r.createdAt == s.createdAt && r.columns == s.columns
    ensures Content(h, r) == Content(h, s) == Canonical(Object(OwnFields(h, r)))
  {
    ChainFieldsVanish(h, r);
    ChainFieldsVanish(h, s);
  }

  lemma {:induction false} CanonicalFieldsAppend(a: seq<Field>, b: seq<Field>)
    ensures CanonicalFields(a + b) == CanonicalFields(a) + CanonicalFields(b)
  {
    if |a| == 0 {
      assert a + b == b;
    } else {
      assert (a + b)[1..] == a[1..] + b;
      CanonicalFieldsAppend(a[1..], b);
    }
  }

  lemma ChainFieldsVanish(h: Hash, r: AuditRow)
    ensures CanonicalFields(OwnFields(h, r) + ChainFields(r)) == CanonicalFields(OwnFields(h, r))
  {
    CanonicalFieldsAppend(OwnFields(h, r), ChainFields(r));
    AllDropped(ChainFields(r));
  }

  lemma {:induction false} AllDropped(fields: seq<Field>)
    requires forall f <- fields :: f.key in CHAIN_KEYS
    ensures CanonicalFields(fields) == []
  {
    if |fields| != 0 {
      assert fields[0] in fields && forall f <- fields[1..] :: f in fields;
      AllDropped(fields[1..]);
    }
  }

  /** What is hashed for a row fixes its id, its creation time and, up to canonical form, all its other columns. */
  lemma ContentIff(h: Hash, r: AuditRow, s: AuditRow)
    requires Injective(h) && ColumnsOk(r) && ColumnsOk(s)
    ensures Content(h, r) == Content(h, s) <==>
            r.id == s.id && r.createdAt == s.createdAt && SameUpTo(Object(r.columns), Object(s.columns))
  {
    var a, b := OwnFields(h, r), OwnFields(h, s);
    ContentIgnoresChainColumns(h, r, r);
    ContentIgnoresChainColumns(h, s, s);
    OwnFieldsOk(h, r);
    OwnFieldsOk(h, s);
    CanonicalIff(Object(a), Object(b));
    OwnFieldsSameIff(h, r, s);
  }

  /** For rows whose columns hold no chain name below the top level and no instant, the content protects all but the key order. */
  lemma PlainContentIff(h: Hash, r: AuditRow, s: AuditRow)
    requires Injective(h) && ColumnsOk(r) && ColumnsOk(s)
    requires (forall f <- r.columns :: Plain(f.value)) && (forall f <- s.columns :: Plain(f.value))
    ensures Content(h, r) == Content(h, s) <==>
            r.id == s.id && r.createdAt == s.createdAt && Reordered(Object(r.columns), Object(s.columns))
  {
    ContentIff(h, r, s);
    PlainSameIff(Object(r.columns), Object(s.columns));
  }

  lemma OwnFieldsOk(h: Hash, r: AuditRow)
    requires ColumnsOk(r)
    ensures WellFormed(Object(OwnFields(h, r)))
  {
    var a := OwnFields(h, r);
    forall i, j | 0 <= i < j < |a| ensures a[i].key != a[j].key {
      if j >= 2 { assert a[j] == r.columns[j - 2] && r.columns[j - 2] in r.columns; }
    }
    forall f <- a ensures WellFormed(f.value) { assert f == a[0] || f == a[1] || f in r.columns; }
  }

  ghost predicate Like(f: Field, gs: seq<Field>) { exists g <- gs :: g.key == f.key && SameUpTo(f.value, g.value) }

  lemma SameObjects(fs: seq<Field>, gs: seq<Field>)
    ensures SameUpTo(Object(fs), Object(gs)) <==>
            && (forall f <- fs | f.key !in CHAIN_KEYS :: Like(f, gs))
            && (forall g <- gs | g.key !in CHAIN_KEYS :: HasKey(fs, g.key))
  {
  }

  /** A field finds its like among the row's own fields under the column of its name. */
  lemma LikeInOwn(h: Hash, r: AuditRow, f: Field)
    requires ColumnsOk(r)
    ensures f.key == "id" ==> (Like(f, OwnFields(h, r)) <==> SameUpTo(f.value, Text(r.id)))
    ensures f.key == "createdAt" ==> (Like(f, OwnFields(h, r)) <==> SameUpTo(f.value, Instant(h.iso(r.createdAt))))
    ensures f.key != "id" && f.key != "createdAt" ==> (Like(f, OwnFields(h, r)) <==> Like(f, r.columns))
    ensures HasKey(OwnFields(h, r), f.key) <==> f.key == "id" || f.key == "createdAt" || HasKey(r.columns, f.key)
  {
    var a := OwnFields(h, r);
    assert a[0] in a && a[1] in a;
    assert forall g :: g in a <==> g == a[0] || g == a[1] || g in r.columns;
  }

  lemma OwnLikeIff(h: Hash, r: AuditRow, s: AuditRow)
    requires Injective(h) && ColumnsOk(r) && ColumnsOk(s)
    ensures (forall f <- OwnFields(h, r) | f.key !in CHAIN_KEYS :: Like(f, OwnFields(h, s))) <==>
            r.id == s.id && r.createdAt == s.createdAt && forall f <- r.columns :: Like(f, s.columns)
  {
    LikeInOwn(h, s, OwnFields(h, r)[0]);
    LikeInOwn(h, s, OwnFields(h, r)[1]);
    forall f <- r.columns ensures Like(f, OwnFields(h, s)) <==> Like(f, s.columns) { LikeInOwn(h, s, f); }
    OwnAllLike(h, r, OwnFields(h, s));
  }

  lemma OwnAllLike(h: Hash, r: AuditRow, gs: seq<Field>)
    requires ColumnsOk(r)
    ensures (forall f <- OwnFields(h, r) | f.key !in CHAIN_KEYS :: Like(f, gs)) <==>
            Like(OwnFields(h, r)[0], gs) && Like(OwnFields(h, r)[1], gs) && forall f <- r.columns :: Like(f, gs)
  {
    OwnSplits(h, r);
    assert OwnFields(h, r)[0] in OwnFields(h, r) && OwnFields(h, r)[1] in OwnFields(h, r);
  }

  lemma OwnKeysIff(h: Hash, r: AuditRow, s: AuditRow)
    requires ColumnsOk(r) && ColumnsOk(s)
    ensures (forall g <- OwnFields(h, s) | g.key !in CHAIN_KEYS :: HasKey(OwnFields(h, r), g.key)) <==>
            forall g <- s.columns :: HasKey(r.columns, g.key)
  {
    var a, b := OwnFields(h, r), OwnFields(h, s);
    LikeInOwn(h, r, b[0]);
    LikeInOwn(h, r, b[1]);
    forall g <- s.columns ensures HasKey(a, g.key) <==> HasKey(r.columns, g.key) { LikeInOwn(h, r, g); }
    OwnSplits(h, s);
  }

  lemma OwnFieldsSameIff(h: Hash, r: AuditRow, s: AuditRow)
    requires Injective(h) && ColumnsOk(r) && ColumnsOk(s)
    ensures SameUpTo(Object(OwnFields(h, r)), Object(OwnFields(h, s))) <==>
            r.id == s.id && r.createdAt == s.createdAt && SameUpTo(Object(r.columns), Object(s.columns))
  {
    SameObjects(OwnFields(h, r), OwnFields(h, s));
    SameObjects(r.columns, s.columns);
    OwnLikeIff(h, r, s);
    OwnKeysIff(h, r, s);
  }

  lemma OwnSplits(h: Hash, r: AuditRow)
    ensures forall f :: f in OwnFields(h, r) <==> f == OwnFields(h, r)[0] || f == OwnFields(h, r)[1] || f in r.columns
  {
  }

  /** The same three names are dropped inside nested values too, so those nested values are not protected. */
  lemma NestedChainKeysAreUnprotected(a: Json, b: Json)
    ensures Canonical(Object([Field("metadata", Object([Field("entryHash", a)]))]))
         == Canonical(Object([Field("metadata", Object([Field("entryHash", b)]))]))
  {
    assert CanonicalFields([Field("entryHash", a)][1..]) == [];
    assert CanonicalFields([Field("entryHash", b)][1..]) == [];
    assert CanonicalFields([Field("entryHash", a)]) == [] == CanonicalFields([Field("entryHash", b)]);
    var x, y := [Field("metadata", Object([Field("entryHash", a)]))], [Field("metadata", Object([Field("entryHash", b)]))];
    assert Canonical(x[0].value) == Canonical(y[0].value);
    assert x[1..] == y[1..];
    assert CanonicalFields(x) == CanonicalFields(y);
  }

  // ===== verification =========================================================

  /** What the chain sees of a row: its canonical content and its chain columns. */
  datatype Entry = Entry(content: Json, previousHash: Option<Digest>, entryHash: Option<Digest>, chainSequence: Option<int>)

  function View(h: Hash, r: AuditRow): Entry { Entry(Content(h, r), r.previousHash, r.entryHash, r.chainSequence) }

  function Views(h: Hash, rows: seq<AuditRow>): seq<Entry> { seq(|rows|, i requires 0 <= i < |rows| => View(h, rows[i])) }

  /** The digest the next entry has to continue. */
  function Tail(entries: seq<Entry>, start: Option<Digest>): Option<Digest> {
    if |entries| == 0 then start else entries[|entries| - 1].entryHash
  }

  predicate EntryOk(h: Hash, e: Entry, previousHash: Option<Digest>, sequence: int) {
    && e.chainSequence == Some(sequence)
    && e.previousHash == previousHash
    && e.entryHash == Some(h.digest(previousHash, e.content))
  }

  /** Every entry continues the one before it, from `start` and sequence number `first` on. */
  ghost predicate Chained(h: Hash, entries: seq<Entry>, start: Option<Digest>, first: int) {
    |entries| == 0 ||
    var front := entries[..|entries| - 1];
    Chained(h, front, start, first) && EntryOk(h, entries[|entries| - 1], Tail(front, start), first + |front|)
  }

  function StartHash(state: Option<ChainState>): Option<Digest> {
    if state.None? then None else state.value.retainedPreviousHash
  }

  function FirstSequence(state: Option<ChainState>): int {
    if state.None? then 1 else state.value.retainedSequence.GetOr(1)
  }

  /** What "the audit log verifies" means. */
  ghost predicate Accepts(h: Hash, state: Option<ChainState>, entries: seq<Entry>) {
    && Chained(h, entries, StartHash(state), FirstSequence(state))
    && (state.Some? ==>
          && Tail(entries, StartHash(state)) == state.value.latestHash
          && FirstSequence(state) + |entries| - 1 == state.value.sequence)
  }

  datatype Verdict = Verdict(valid: bool, checked: int, failedId: Option<string>, unsealed: nat)

  /** Position `i` is the first entry that does not continue the chain. */
  ghost predicate FirstBad(h: Hash, state: Option<ChainState>, entries: seq<Entry>, i: nat) {
    && i < |entries|
    && Chained(h, entries[..i], StartHash(state), FirstSequence(state))
    && !EntryOk(h, entries[i], Tail(entries[..i], StartHash(state)), FirstSequence(state) + i)
  }

  lemma ChainedStep(h: Hash, entries: seq<Entry>, start: Option<Digest>, first: int, k: nat)
    requires k < |entries|
    ensures Chained(h, entries[..k + 1], start, first) <==>
            Chained(h, entries[..k], start, first) && EntryOk(h, entries[k], Tail(entries[..k], start), first + k)
    ensures Tail(entries[..k + 1], start) == entries[k].entryHash
  {
    assert entries[..k + 1][..k] == entries[..k];
  }

  lemma {:induction false} PrefixOfChained(h: Hash, entries: seq<Entry>, start: Option<Digest>, first: int, n: nat)
    requires n <= |entries| && Chained(h, entries, start, first)
    ensures Chained(h, entries[..n], start, first)
  {
    if n < |entries| {
      PrefixOfChained(h, entries[..|entries| - 1], start, first, n);
      assert entries[..|entries| - 1][..n] == entries[..n];
    } else {
      assert entries[..n] == entries;
    }
  }

  /** Stopping at the first bad entry is sound: no continuation could repair the chain. */
  lemma BadEntryRefutes(h: Hash, state: Option<ChainState>, entries: seq<Entry>, i: nat)
    requires FirstBad(h, state, entries, i)
    ensures !Chained(h, entries, StartHash(state), FirstSequence(state))
  {
    assert entries[..i + 1][..i] == entries[..i];
    if Chained(h, entries, StartHash(state), FirstSequence(state)) {
      PrefixOfChained(h, entries, StartHash(state), FirstSequence(state), i + 1);
    }
  }

  /** What verification reports: the verdict, and the first bad entry or else the tail. */
  ghost predicate IsVerdict(h: Hash, state: Option<ChainState>, rows: seq<AuditRow>, unsealed: nat, r: Verdict) {
    var entries := Views(h, rows);
    && (r.valid <==> Accepts(h, state, entries))
    && (r.valid ==> r == Verdict(true, |rows|, None, unsealed))
    && (!r.valid && Chained(h, entries, StartHash(state), FirstSequence(state)) ==>
          r == Verdict(false, |rows|, Some("chain-tail"), unsealed))
    && (!r.valid && !Chained(h, entries, StartHash(state), FirstSequence(state)) ==>
          exists i: nat :: FirstBad(h, state, entries, i) && r == Verdict(false, FirstSequence(state) + i - 1, Some(rows[i].id), 0))
  }

  /** The loop: how many entries continue the chain, and the digest the last of them leaves. */
  method WalkChain(h: Hash, state: Option<ChainState>, entries: seq<Entry>) returns (n: nat, previousHash: Option<Digest>)
    ensures n <= |entries| && Chained(h, entries[..n], StartHash(state), FirstSequence(state))
    ensures previousHash == Tail(entries[..n], StartHash(state))
    ensures n < |entries| ==> FirstBad(h, state, entries, n)
  {
    previousHash := StartHash(state);
    var expectedSequence := FirstSequence(state);
    n := 0;
    while n < |entries|
      invariant n <= |entries| && expectedSequence == FirstSequence(state) + n
      invariant previousHash == Tail(entries[..n], StartHash(state))
      invariant Chained(h, entries[..n], StartHash(state), FirstSequence(state))
    {
      ChainedStep(h, entries, StartHash(state), FirstSequence(state), n);
      var entry := entries[n];
      if entry.chainSequence != Some(expectedSequence) || entry.previousHash != previousHash
         || entry.entryHash != Some(h.digest(previousHash, entry.content)) {
        return;
      }
      previousHash := entry.entryHash;
      expectedSequence := expectedSequence + 1;
      n := n + 1;
    }
  }

  lemma VerdictOfWalk(h: Hash, state: Option<ChainState>, rows: seq<AuditRow>, unsealed: nat, n: nat)
    requires n < |rows| ==> FirstBad(h, state, Views(h, rows), n)
    requires n >= |rows| ==> n == |rows| && Chained(h, Views(h, rows), StartHash(state), FirstSequence(state))
    ensures n < |rows| ==> IsVerdict(h, state, rows, unsealed, Verdict(false, FirstSequence(state) + n - 1, Some(rows[n].id), 0))
    ensures n == |rows| && Accepts(h, state, Views(h, rows)) ==> IsVerdict(h, state, rows, unsealed, Verdict(true, |rows|, None, unsealed))
    ensures n == |rows| && !Accepts(h, state, Views(h, rows)) ==>
              IsVerdict(h, state, rows, unsealed, Verdict(false, |rows|, Some("chain-tail"), unsealed))
  {
    if n < |rows| { BadEntryRefutes(h, state, Views(h, rows), n); }
  }

  /**
   * Walks the sealed rows, which the query returns in sequence order.  The
   * count of unsealed rows, another query's answer, is reported only at the end.
   */
  method VerifyAuditScope(h: Hash, state: Option<ChainState>, rows: seq<AuditRow>, unsealed: nat) returns (r: Verdict)
    ensures IsVerdict(h, state, rows, unsealed, r)
  {
    var n, previousHash := WalkChain(h, state, Views(h, rows));
    assert Views(h, rows)[..|rows|] == Views(h, rows);
    VerdictOfWalk(h, state, rows, unsealed, n);
    if n < |rows| { return Verdict(false, FirstSequence(state) + n - 1, Some(rows[n].id), 0); }
    var valid := state.None? || (previousHash == state.value.latestHash && FirstSequence(state) + n - 1 == state.value.sequence);
    r := Verdict(valid, |rows|, if valid then None else Some("chain-tail"), unsealed);
  }

  // ----- tamper evidence ------------------------------------------------------

  /** Equal tails force equal entries, from the last one backwards. */
  lemma {:induction false} ChainsAgreeBackwards(h: Hash, a: seq<Entry>, b: seq<Entry>, start: Option<Digest>, first: int)
    requires Injective(h) && |a| == |b|
    requires Chained(h, a, start, first) && Chained(h, b, start, first)
    requires Tail(a, start) == Tail(b, start)
    ensures a == b
  {
    if |a| != 0 {
      var x, y := a[..|a| - 1], b[..|b| - 1];
      assert h.digest(Tail(x, start), a[|x|].content) == h.digest(Tail(y, start), b[|y|].content);
      ChainsAgreeBackwards(h, x, y, start, first);
      assert a == x + [a[|x|]] && b == y + [b[|y|]];
    }
  }

  /**
   * Tamper evidence: two logs that verification accepts under the same chain
   * state have the same length and agree, in order, in id, creation time, chain
   * columns and, up to canonical form, in every other column.
   */
  lemma AcceptedLogsAgree(h: Hash, state: ChainState, a: seq<AuditRow>, b: seq<AuditRow>)
    requires Injective(h) && Accepts(h, Some(state), Views(h, a)) && Accepts(h, Some(state), Views(h, b))
    requires (forall r <- a :: ColumnsOk(r)) && (forall r <- b :: ColumnsOk(r))
    ensures |a| == |b| && forall i | 0 <= i < |a| :: SameEntry(a[i], b[i])
  {
    var x, y := Views(h, a), Views(h, b);
    ChainsAgreeBackwards(h, x, y, StartHash(Some(state)), FirstSequence(Some(state)));
    forall i | 0 <= i < |a| ensures SameEntry(a[i], b[i]) {
      assert x[i] == y[i] && a[i] in a && b[i] in b;
      ContentIff(h, a[i], b[i]);
    }
  }

  ghost predicate SameEntry(r: AuditRow, s: AuditRow) {
    && r.id == s.id && r.createdAt == s.createdAt
    && r.previousHash == s.previousHash && r.entryHash == s.entryHash && r.chainSequence == s.chainSequence
    && SameUpTo(Object(r.columns), Object(s.columns))
  }

  /** Exactly three names are dropped; a field of any other name stays, with its value's canonical content. */
  lemma OnlyChainColumnsAreDropped(fields: seq<Field>, f: Field)
    ensures (exists c <- CanonicalFields(fields) :: c.key == f.key) <==>
            HasKey(fields, f.key) && f.key != "previousHash" && f.key != "entryHash" && f.key != "chainSequence"
    ensures f in fields && HasKey(CanonicalFields(fields), f.key) ==> Field(f.key, Canonical(f.value)) in CanonicalFields(fields)
  {
    forall g <- fields | g.key == f.key { CanonicalFieldsAre(fields, Field(g.key, Canonical(g.value))); }
    forall c <- CanonicalFields(fields) ensures HasKey(fields, c.key) && c.key !in CHAIN_KEYS { CanonicalFieldsAre(fields, c); }
  }
}
