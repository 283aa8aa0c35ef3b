/**
 * Where the edits of the page designer put things (lib/page-design.ts), in
 * numbers of columns and names of zones.
 */
module PageEdits {
  import opened Wrappers
  import opened Sorting
  import opened Distinctness
  import opened PageDesign

  // ----- placements -----------------------------------------------------------

  /** The value in [1, hi] nearest to the one asked for. */
  ghost predicate NearestFrom1(v: int, asked: int, hi: int) {
    1 <= v <= hi && (1 <= asked <= hi ==> v == asked) && (asked < 1 ==> v == 1) && (asked > hi ==> v == hi)
  }

  /** A patch sets the order as asked, the column as near to the one asked for as the grid allows, and the span as near as the room from there. */
  lemma PatchIsClamped(p: Placement, patch: Patch, columns: int)
    requires columns >= 1
    ensures var r := Patched(p, patch, columns);
            && r.blockId == p.blockId && r.order == (if patch.order.Some? then patch.order.value else p.order)
            && NearestFrom1(r.column, if patch.column.Some? then patch.column.value else p.column, columns)
            && NearestFrom1(r.span, if patch.span.Some? then patch.span.value else p.span, columns - r.column + 1)
  {
  }

  /** `n` is n0 / 12 rounded to the nearest integer, halves up. */
  predicate RoundedTwelfths(n: int, n0: int) { 12 * (2 * n - 1) <= 2 * n0 < 12 * (2 * n + 1) }

  lemma RoundIsNearest(n0: int)
    ensures RoundedTwelfths(Round(n0, 12), n0)
  {
  }

  lemma RoundedTwice(a: int, b: int, n0: int)
    requires RoundedTwelfths(a, n0) && RoundedTwelfths(b, n0)
    ensures a == b
  {
  }

  /**
   * On a narrower grid a placement keeps its block and order; its offset and its
   * span are scaled and rounded to the nearest column, and cut where they would
   * leave the grid.
   */
  lemma DerivedIsScaled(p: Placement, columns: int, offset: int, span: int)
    requires Fits(p, 12) && columns >= 1
    requires RoundedTwelfths(offset, (p.column - 1) * columns) && RoundedTwelfths(span, p.span * columns)
    ensures var d := Derived(p, columns);
            && d.blockId == p.blockId && d.order == p.order
            && NearestFrom1(d.column, offset + 1, columns) && NearestFrom1(d.span, span, columns - d.column + 1)
  {
    RoundsTo(offset, (p.column - 1) * columns);
    RoundsTo(span, p.span * columns);
    NotNegative(p.column - 1, columns);
    DerivedIsCut(p, columns, offset, span);
  }

  lemma RoundsTo(n: int, n0: int)
    requires RoundedTwelfths(n, n0)
    ensures n == Round(n0, 12)
  {
    RoundIsNearest(n0);
    RoundedTwice(n, Round(n0, 12), n0);
  }

  lemma NotNegative(a: int, b: int)
    requires a >= 0 && b >= 0
    ensures a * b >= 0
  {
  }

  lemma DerivedIsCut(p: Placement, columns: int, offset: int, span: int)
    requires columns >= 1 && (p.column - 1) * columns >= 0
    requires offset == Round((p.column - 1) * columns, 12) && span == Round(p.span * columns, 12)
    ensures var d := Derived(p, columns);
            && d.blockId == p.blockId && d.order == p.order
            && NearestFrom1(d.column, offset + 1, columns) && NearestFrom1(d.span, span, columns - d.column + 1)
  {
  }

  /** The grids are 12, 8 and 4 columns wide; one that is not configured follows the desktop. */
  lemma UnconfiguredFollowsDesktop(s: Surface)
    ensures PageGridPlacements(s, Desktop) == s.desktop
    ensures s.tablet.None? ==> PageGridPlacements(s, Tablet) == DerivedGrid(s.desktop, 8)
    ensures s.mobile.None? ==> PageGridPlacements(s, Mobile) == DerivedGrid(s.desktop, 4)
    ensures s.tablet.Some? ==> PageGridPlacements(s, Tablet) == s.tablet.value
    ensures s.mobile.Some? ==> PageGridPlacements(s, Mobile) == s.mobile.value
  {
  }

  /** Resetting a breakpoint makes it follow the desktop again, and nothing else changes. */
  lemma ResetFollowsDesktop(s: Surface, b: Breakpoint)
    requires b != Desktop
    ensures var s' := ResetPageGridBreakpoint(s, b);
            && AllBlocks(s') == AllBlocks(s) && s'.desktop == s.desktop
            && (b == Tablet ==> PageGridPlacements(s', Tablet) == DerivedGrid(s.desktop, 8) && s'.mobile == s.mobile)
            && (b == Mobile ==> PageGridPlacements(s', Mobile) == DerivedGrid(s.desktop, 4) && s'.tablet == s.tablet)
            && ZonesSame(s, s')
  {
  }

  predicate ZonesSame(s: Surface, s': Surface) { s'.full == s.full && s'.primary == s.primary && s'.sidebar == s.sidebar }

  /** An update changes the grid of its own breakpoint and no other, and no block. */
  lemma UpdateTouchesOneGrid(s: Surface, b: Breakpoint, id: string, patch: Patch)
    ensures var s' := Updated(s, b, id, patch);
            && ZonesSame(s, s') && (b != Desktop ==> s'.desktop == s.desktop)
            && (b != Tablet ==> s'.tablet == s.tablet) && (b != Mobile ==> s'.mobile == s.mobile)
            && ((forall p <- PageGridPlacements(s, b) :: p.blockId != id) ==> s' == s)
  {
    var i := PlacementIndex(PageGridPlacements(s, b), id);
    if i >= 0 { assert PageGridPlacements(s, b)[i] in PageGridPlacements(s, b); }
  }

  // ----- migration ------------------------------------------------------------

  /** A legacy design lays its full zone over the whole width, then primary beside the sidebar, if there is one, in zone order. */
  lemma MigrationLays(full: seq<Block>, primary: seq<Block>, sidebar: seq<Block>, i: nat)
    requires IsLegacy(full, primary, sidebar) && i < |full + primary + sidebar|
    ensures var s := Migrated(full, primary, sidebar);
            && s.full == full && s.primary == primary && s.sidebar == sidebar && s.tablet == None && s.mobile == None
            && |s.desktop| == |full + primary + sidebar|
            && s.desktop[i].blockId == (full + primary + sidebar)[i].id && s.desktop[i].order == i
            && (i < |full| ==> s.desktop[i].column == 1 && s.desktop[i].span == 12)
            && (|full| <= i < |full| + |primary| ==> s.desktop[i].column == 1 && s.desktop[i].span == if sidebar == [] then 12 else 8)
            && (|full| + |primary| <= i ==> s.desktop[i].column == 9 && s.desktop[i].span == 4)
  {
    AllNamed(full, primary, sidebar);
    NamedKeepsAll(LaidAll(full, primary, sidebar));
  }

  function LaidAll(full: seq<Block>, primary: seq<Block>, sidebar: seq<Block>): seq<Placement> {
    Laid(full, 0, 1, 12) + Laid(primary, |full|, 1, if |sidebar| > 0 then 8 else 12) + Laid(sidebar, |full| + |primary|, 9, 4)
  }

  lemma AllNamed(full: seq<Block>, primary: seq<Block>, sidebar: seq<Block>)
    requires IsLegacy(full, primary, sidebar)
    ensures forall p <- LaidAll(full, primary, sidebar) :: p.blockId != ""
  {
    var laid, blocks := LaidAll(full, primary, sidebar), full + primary + sidebar;
    forall j | 0 <= j < |laid| ensures laid[j].blockId == blocks[j].id {}
    forall p <- laid ensures p.blockId != "" {
      var j :| 0 <= j < |laid| && laid[j] == p;
      assert blocks[j] in blocks;
    }
  }

  // ----- moves ----------------------------------------------------------------

  function ZoneText(z: Zone): string {
    match z
    case Full => "zone-full"
    case Primary => "zone-primary"
    case Sidebar => "zone-sidebar"
  }

  lemma ZoneTexts(z: Zone)
    ensures IsZoneId(ZoneText(z)) && ZoneNamed(ZoneText(z)) == Some(z)
  {
  }

  /** A block dropped on a zone is the last block of that zone afterwards; unknown blocks and other "zone-" names move nothing. */
  lemma DropOnZone(s: Surface, activeId: string, z: Zone)
    ensures var moved := Moved(s, activeId, ZoneText(z));
            && (moved.Some? <==> exists b <- AllBlocks(s) :: b.id == activeId)
            && (moved.Some? ==> var blocks := InZone(moved.value, z); |blocks| > 0 && blocks[|blocks| - 1].id == activeId)
  {
    ZoneTexts(z);
    HeldIff(s, activeId);
    var moved := Moved(s, activeId, ZoneText(z));
    if moved.Some? {
      var source := ZoneHolding(s, activeId).value;
      CarriedLands(s, source, BlockIndex(InZone(s, source), activeId), z, |InZone(s, z)|);
      LastOfCarried(s, source, BlockIndex(InZone(s, source), activeId), z);
    }
  }

  lemma LastOfCarried(s: Surface, source: Zone, from: nat, z: Zone)
    requires from < |InZone(s, source)|
    ensures var blocks := InZone(Carried(s, source, from, z, |InZone(s, z)|), z);
            |blocks| > 0 && blocks[|blocks| - 1] == InZone(s, source)[from]
  {
  }

  lemma UnknownZoneMovesNothing(s: Surface, activeId: string, name: string)
    requires name != "full" && name != "primary" && name != "sidebar"
    ensures Moved(s, activeId, "zone-" + name) == None
  {
    var overId := "zone-" + name;
    assert overId[5..] == name;
    assert "zone-full"[5..] == "full" && "zone-primary"[5..] == "primary" && "zone-sidebar"[5..] == "sidebar";
  }

  lemma HeldIff(s: Surface, id: string)
    ensures ZoneHolding(s, id).Some? <==> exists b <- AllBlocks(s) :: b.id == id
    ensures ZoneHolding(s, id).Some? ==> BlockIndex(InZone(s, ZoneHolding(s, id).value), id) >= 0
  {
    forall b | b in AllBlocks(s) ensures b in s.full || b in s.primary || b in s.sidebar {}
    if ZoneHolding(s, id).Some? {
      var blocks := InZone(s, ZoneHolding(s, id).value);
      assert blocks[BlockIndex(blocks, id)] in blocks;
    }
  }

  /** A block dropped on another block of the surface takes the place that block had in its zone. */
  lemma DropOnBlock(s: Surface, activeId: string, overId: string, z: Zone, to: nat)
    requires Inv(s) && !IsZoneId(overId) && activeId != overId
    requires (exists b <- AllBlocks(s) :: b.id == activeId) && to < |InZone(s, z)| && InZone(s, z)[to].id == overId
    ensures var moved := Moved(s, activeId, overId);
            && moved.Some? && to < |InZone(moved.value, z)| && InZone(moved.value, z)[to].id == activeId
  {
    HeldIff(s, activeId);
    OnlyPlace(s, overId, z, to);
    var source := ZoneHolding(s, activeId).value;
    var from := BlockIndex(InZone(s, source), activeId);
    CarriedTakesPlace(s, source, from, z, to);
  }

  lemma CarriedTakesPlace(s: Surface, source: Zone, from: nat, target: Zone, to: nat)
    requires from < |InZone(s, source)| && to < |InZone(s, target)|
    ensures var after := InZone(Carried(s, source, from, target, to), target);
            to < |after| && after[to] == InZone(s, source)[from]
  {
    CarriedLands(s, source, from, target, to);
  }

  ghost predicate IdsOnce(a: seq<Block>) { forall i, j | 0 <= i < j < |a| :: a[i].id != a[j].id }

  ghost predicate IdsApart(a: seq<Block>, b: seq<Block>) { forall i, j | 0 <= i < |a| && 0 <= j < |b| :: a[i].id != b[j].id }

  lemma PartsApart(a: seq<Block>, b: seq<Block>)
    requires Distinct(BlockIds(a + b))
    ensures IdsOnce(a) && IdsOnce(b) && IdsApart(a, b)
  {
    var ids := BlockIds(a + b);
    assert forall i | 0 <= i < |a| :: ids[i] == a[i].id;
    assert forall i | 0 <= i < |b| :: ids[|a| + i] == b[i].id;
  }

  lemma OnceDistinct(a: seq<Block>)
    requires IdsOnce(a)
    ensures Distinct(BlockIds(a))
  {
  }

  lemma FoundAt(blocks: seq<Block>, id: string, at: nat)
    requires IdsOnce(blocks) && at < |blocks| && blocks[at].id == id
    ensures BlockIndex(blocks, id) == at
  {
    assert blocks[at] in blocks;
  }

  lemma NotFound(blocks: seq<Block>, others: seq<Block>, at: nat)
    requires at < |blocks| && (IdsApart(blocks, others) || IdsApart(others, blocks))
    ensures BlockIndex(others, blocks[at].id) < 0
  {
    var i := BlockIndex(others, blocks[at].id);
  }

  /** Block ids are distinct, so a block is found in its own zone and at its own place. */
  lemma OnlyPlace(s: Surface, id: string, z: Zone, at: nat)
    requires Inv(s) && at < |InZone(s, z)| && InZone(s, z)[at].id == id
    ensures ZoneHolding(s, id) == Some(z) && BlockIndex(InZone(s, z), id) == at
  {
    ZonesApart(s);
    FoundAt(InZone(s, z), id, at);
    if z != Full { NotFound(InZone(s, z), s.full, at); }
    if z == Sidebar { NotFound(s.sidebar, s.primary, at); }
  }

  lemma ZonesApart(s: Surface)
    requires Distinct(BlockIds(AllBlocks(s)))
    ensures IdsOnce(s.full) && IdsOnce(s.primary) && IdsOnce(s.sidebar)
    ensures IdsApart(s.full, s.primary) && IdsApart(s.full, s.sidebar) && IdsApart(s.primary, s.sidebar)
  {
    PartsApart(s.full + s.primary, s.sidebar);
    OnceDistinct(s.full + s.primary);
    PartsApart(s.full, s.primary);
    forall i, j | 0 <= i < |s.full| && 0 <= j < |s.sidebar| ensures s.full[i].id != s.sidebar[j].id {
      assert (s.full + s.primary)[i] == s.full[i];
    }
    forall i, j | 0 <= i < |s.primary| && 0 <= j < |s.sidebar| ensures s.primary[i].id != s.sidebar[j].id {
      assert (s.full + s.primary)[|s.full| + i] == s.primary[i];
    }
  }

  // ----- templates ------------------------------------------------------------

  /** A kind ranks where the template has it last; kinds it lacks come after all others. */
  lemma {:induction false} RankIsLastPlace(t: seq<Block>, kind: string, i: nat)
    requires i < |t| && t[i].kind == kind && forall j | i < j < |t| :: t[j].kind != kind
    ensures KindRank(t, kind) == i
  {
    if i < |t| - 1 { RankIsLastPlace(t[..|t| - 1], kind, i); }
  }

  lemma {:induction false} MissingKindsRankLast(t: seq<Block>, kind: string)
    requires forall b <- t :: b.kind != kind
    ensures KindRank(t, kind) == 999
  {
    if |t| > 0 {
      assert t[|t| - 1] in t && forall b <- t[..|t| - 1] :: b in t;
      MissingKindsRankLast(t[..|t| - 1], kind);
    }
  }

  /** A kind's slot is the first placement of the template's first block of that kind. */
  lemma SlotIsFirstPlacement(t: Template, kind: string, i: nat, j: nat)
    requires i < |t.blocks| && t.blocks[i].kind == kind && forall k | 0 <= k < i :: t.blocks[k].kind != kind
    requires j < |t.placements| && t.placements[j].blockId == t.blocks[i].id
    requires forall k | 0 <= k < j :: t.placements[k].blockId != t.blocks[i].id
    ensures SlotOf(t, kind) == Some(t.placements[j])
  {
    FirstIsAt(t.blocks, kind, i);
  }

  lemma {:induction false} FirstIsAt(blocks: seq<Block>, kind: string, i: nat)
    requires i < |blocks| && blocks[i].kind == kind && forall k | 0 <= k < i :: blocks[k].kind != kind
    ensures FirstOfKind(blocks, kind) == Some(blocks[i])
  {
    if i > 0 { FirstIsAt(blocks[1..], kind, i - 1); }
  }

  /** The placements that a template change makes for blocks of one kind stand in the order the blocks had. */
  lemma TemplateIsStable(s: Surface, t: Template, kind: string)
    ensures var arranged := Sort(TemplateLe(t), AllBlocks(s));
            && PlacementIds(Templated(s, t).desktop) == BlockIds(arranged)
            && Filter(arranged, (b: Block) => b.kind == kind) == Filter(AllBlocks(s), (b: Block) => b.kind == kind)
  {
    SortIsStable(TemplateLe(t), AllBlocks(s), (b: Block) => b.kind == kind);
  }

  /** A template lays out the desktop; tablet and mobile follow it again, and no block moves. */
  lemma TemplateResetsOtherGrids(s: Surface, t: Template)
    ensures var s' := Templated(s, t);
            && ZonesSame(s, s')
            && PageGridPlacements(s', Tablet) == DerivedGrid(s'.desktop, 8)
            && PageGridPlacements(s', Mobile) == DerivedGrid(s'.desktop, 4)
  {
  }
}
