/** The recorded scope of an organization purge (lib/cascade.ts). */
module Cascade {
  import opened Wrappers
  import opened Distinctness

  datatype Scope = Scope(
    pageIds: seq<string>, componentIds: seq<string>, incidentIds: seq<string>, metricIds: seq<string>, monitorIds: seq<string>)

  const EMPTY_SCOPE: Scope := Scope([], [], [], [], [])

  /** A stored JSON value, as far as scope normalization looks into it. */
  datatype Raw = RawString(s: string) | RawArray(items: seq<Raw>) | RawObject(fields: map<string, Raw>) | RawOther

  function Strings(items: Raw): seq<string> {
    if items.RawArray? then StringsOf(items.items) else []
  }

  function StringsOf(items: seq<Raw>): seq<string> {
    if |items| == 0 then []
    else (if items[0].RawString? then [items[0].s] else []) + StringsOf(items[1..])
  }

  function FieldOf(fields: map<string, Raw>, name: string): Raw { if name in fields then fields[name] else RawOther }

  function NormalizeScope(value: Raw): Scope {
    if !value.RawObject? then EMPTY_SCOPE
    else Scope(Strings(FieldOf(value.fields, "pageIds")), Strings(FieldOf(value.fields, "componentIds")),
               Strings(FieldOf(value.fields, "incidentIds")), Strings(FieldOf(value.fields, "metricIds")),
               Strings(FieldOf(value.fields, "monitorIds")))
  }

  function StoredIds(ids: seq<string>): Raw { RawArray(seq(|ids|, i requires 0 <= i < |ids| => RawString(ids[i]))) }

  /** A scope as the job row stores it. */
  function Stored(s: Scope): Raw {
    RawObject(map["pageIds" := StoredIds(s.pageIds), "componentIds" := StoredIds(s.componentIds),
                  "incidentIds" := StoredIds(s.incidentIds), "metricIds" := StoredIds(s.metricIds),
                  "monitorIds" := StoredIds(s.monitorIds)])
  }

  lemma {:induction false} StringsOfStored(ids: seq<string>)
    ensures Strings(StoredIds(ids)) == ids
  {
    if |ids| != 0 {
      StringsOfStored(ids[1..]);
      assert StoredIds(ids).items[1..] == StoredIds(ids[1..]).items;
      assert [ids[0]] + ids[1..] == ids;
    }
  }

  /** What one attempt recorded, the next attempt reads back unchanged. */
  lemma ScopeRoundTrip(s: Scope)
    ensures NormalizeScope(Stored(s)) == s
  {
    StringsOfStored(s.pageIds);
    StringsOfStored(s.componentIds);
    StringsOfStored(s.incidentIds);
    StringsOfStored(s.metricIds);
    StringsOfStored(s.monitorIds);
  }

  lemma {:induction false} StringsAre(items: seq<Raw>, id: string)
    ensures id in Strings(RawArray(items)) <==> RawString(id) in items
  {
    if |items| != 0 {
      StringsAre(items[1..], id);
      assert Strings(RawArray(items[1..])) == StringsOf(items[1..]);
      assert forall x :: x in items <==> x == items[0] || x in items[1..];
    }
  }

  /** Whatever is stored under the five names, exactly its strings are read; anything but an object reads as nothing recorded. */
  lemma ScopeIsRead(value: Raw, items: seq<Raw>, id: string)
    ensures !value.RawObject? ==> NormalizeScope(value) == Scope([], [], [], [], [])
    ensures value.RawObject? && "pageIds" in value.fields && value.fields["pageIds"] == RawArray(items) ==>
              (id in NormalizeScope(value).pageIds <==> RawString(id) in items)
    ensures value.RawObject? && "componentIds" in value.fields && value.fields["componentIds"] == RawArray(items) ==>
              (id in NormalizeScope(value).componentIds <==> RawString(id) in items)
    ensures value.RawObject? && "incidentIds" in value.fields && value.fields["incidentIds"] == RawArray(items) ==>
              (id in NormalizeScope(value).incidentIds <==> RawString(id) in items)
    ensures value.RawObject? && "metricIds" in value.fields && value.fields["metricIds"] == RawArray(items) ==>
              (id in NormalizeScope(value).metricIds <==> RawString(id) in items)
    ensures value.RawObject? && "monitorIds" in value.fields && value.fields["monitorIds"] == RawArray(items) ==>
              (id in NormalizeScope(value).monitorIds <==> RawString(id) in items)
  {
    StringsAre(items, id);
  }

  function MergeIds(existing: seq<string>, rows: seq<string>): seq<string> { Dedup(existing + rows) }

  datatype Child = Child(id: string, pageId: string)

  /** The organization's rows, as the finalizing transaction finds them. */
  datatype Content = Content(
    pages: seq<string>, components: seq<Child>, incidents: seq<Child>, metrics: seq<Child>, monitors: seq<Child>)

  function IdsOn(rows: seq<Child>, pageIds: seq<string>): seq<string> {
    if |rows| == 0 then []
    else (if rows[0].pageId in pageIds then [rows[0].id] else []) + IdsOn(rows[1..], pageIds)
  }

  lemma {:induction false} IdsOnMembers(rows: seq<Child>, pageIds: seq<string>, id: string)
    ensures id in IdsOn(rows, pageIds) <==> exists r <- rows :: r.id == id && r.pageId in pageIds
  {
    if |rows| != 0 {
      IdsOnMembers(rows[1..], pageIds, id);
      assert rows == [rows[0]] + rows[1..];
    }
  }

  /** The scope one finalizing transaction records. */
  function ScopeAfter(initial: Raw, content: Content): Scope {
    var s := NormalizeScope(initial);
    var pageIds := MergeIds(s.pageIds, content.pages);
    if |pageIds| == 0 then s.(pageIds := pageIds)
    else Scope(pageIds,
               MergeIds(s.componentIds, IdsOn(content.components, pageIds)),
               MergeIds(s.incidentIds, IdsOn(content.incidents, pageIds)),
               MergeIds(s.metricIds, IdsOn(content.metrics, pageIds)),
               MergeIds(s.monitorIds, IdsOn(content.monitors, pageIds)))
  }

  ghost predicate Within(a: Scope, b: Scope) {
    && (forall x <- a.pageIds :: x in b.pageIds)
    && (forall x <- a.componentIds :: x in b.componentIds)
    && (forall x <- a.incidentIds :: x in b.incidentIds)
    && (forall x <- a.metricIds :: x in b.metricIds)
    && (forall x <- a.monitorIds :: x in b.monitorIds)
  }

  lemma WithinIsTransitive(a: Scope, b: Scope, c: Scope)
    requires Within(a, b) && Within(b, c)
    ensures Within(a, c)
  {
  }

  /** Every page of the organization and every row on a recorded page is recorded. */
  ghost predicate Covers(s: Scope, content: Content) {
    && (forall x <- content.pages :: x in s.pageIds)
    && (forall r <- content.components | r.pageId in s.pageIds :: r.id in s.componentIds)
    && (forall r <- content.incidents | r.pageId in s.pageIds :: r.id in s.incidentIds)
    && (forall r <- content.metrics | r.pageId in s.pageIds :: r.id in s.metricIds)
    && (forall r <- content.monitors | r.pageId in s.pageIds :: r.id in s.monitorIds)
  }

  lemma MergeIdsIsUnion(existing: seq<string>, rows: seq<string>)
    ensures Distinct(MergeIds(existing, rows))
    ensures forall x :: x in MergeIds(existing, rows) <==> x in existing || x in rows
    ensures Dedup(existing) <= MergeIds(existing, rows)
  {
    DedupIsSet(existing + rows);
    DedupKeepsPrefix(existing, rows);
  }

  lemma ChildrenCovered(existing: seq<string>, rows: seq<Child>, pageIds: seq<string>)
    ensures forall r <- rows | r.pageId in pageIds :: r.id in MergeIds(existing, IdsOn(rows, pageIds))
    ensures forall x <- existing :: x in MergeIds(existing, IdsOn(rows, pageIds))
  {
    MergeIdsIsUnion(existing, IdsOn(rows, pageIds));
    forall r <- rows | r.pageId in pageIds ensures r.id in IdsOn(rows, pageIds) { IdsOnMembers(rows, pageIds, r.id); }
  }

  /** A recorded scope never loses an id and covers everything that is about to be deleted. */
  lemma ScopeOnlyGrows(recorded: Scope, content: Content)
    ensures Within(recorded, ScopeAfter(Stored(recorded), content))
    ensures Covers(ScopeAfter(Stored(recorded), content), content)
  {
    ScopeRoundTrip(recorded);
    var pageIds := MergeIds(recorded.pageIds, content.pages);
    MergeIdsIsUnion(recorded.pageIds, content.pages);
    ChildrenCovered(recorded.componentIds, content.components, pageIds);
    ChildrenCovered(recorded.incidentIds, content.incidents, pageIds);
    ChildrenCovered(recorded.metricIds, content.metrics, pageIds);
    ChildrenCovered(recorded.monitorIds, content.monitors, pageIds);
    if |pageIds| == 0 { assert forall x <- content.pages :: x in pageIds; }
  }
}
