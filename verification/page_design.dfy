/**
 * The page designer (lib/page-design.ts), one surface at a time: blocks in
 * three zones and, per breakpoint, a grid of placements.  Block settings are
 * not represented.
 */
module PageDesign {
  import opened Wrappers
  import opened Sorting
  import opened Distinctness

  datatype Block = Block(id: string, kind: string)

  datatype Placement = Placement(blockId: string, order: int, column: int, span: int)

  datatype Breakpoint = Desktop | Tablet | Mobile

  function Columns(b: Breakpoint): int {
    match b
    case Desktop => 12
    case Tablet => 8
    case Mobile => 4
  }

  datatype Zone = Full | Primary | Sidebar

  datatype Surface = Surface(
    full: seq<Block>, primary: seq<Block>, sidebar: seq<Block>,
    desktop: seq<Placement>, tablet: Option<seq<Placement>>, mobile: Option<seq<Placement>>)

  function AllBlocks(s: Surface): seq<Block> { s.full + s.primary + s.sidebar }

  function InZone(s: Surface, z: Zone): seq<Block> {
    match z
    case Full => s.full
    case Primary => s.primary
    case Sidebar => s.sidebar
  }

  function WithZone(s: Surface, z: Zone, blocks: seq<Block>): Surface {
    match z
    case Full => s.(full := blocks)
    case Primary => s.(primary := blocks)
    case Sidebar => s.(sidebar := blocks)
  }

  function WithGrid(s: Surface, b: Breakpoint, placements: seq<Placement>): Surface {
    match b
    case Desktop => s.(desktop := placements)
    case Tablet => s.(tablet := Some(placements))
    case Mobile => s.(mobile := Some(placements))
  }

  // ===== migration of a design without a grid =================================

  function Laid(blocks: seq<Block>, first: nat, column: int, span: int): seq<Placement> {
    seq(|blocks|, i requires 0 <= i < |blocks| => Placement(blocks[i].id, first + i, column, span))
  }

  function Named(placements: seq<Placement>): seq<Placement> {
    if |placements| == 0 then []
    else (if placements[0].blockId == "" then [] else [placements[0]]) + Named(placements[1..])
  }

  function PlacementsFromLegacySurface(full: seq<Block>, primary: seq<Block>, sidebar: seq<Block>): seq<Placement> {
    Named(Laid(full, 0, 1, 12)
          + Laid(primary, |full|, 1, if |sidebar| > 0 then 8 else 12)
          + Laid(sidebar, |full| + |primary|, 9, 4))
  }

  function Migrated(full: seq<Block>, primary: seq<Block>, sidebar: seq<Block>): Surface {
    Surface(full, primary, sidebar, PlacementsFromLegacySurface(full, primary, sidebar), None, None)
  }

  // ===== placements at a breakpoint ===========================================

  /** Rounds n / d to the nearest integer, halves up. */
  function Round(n: int, d: int): int
    requires d > 0
  {
    (2 * n + d) / (2 * d)
  }

  function Derived(p: Placement, columns: int): Placement {
    var column := Max(1, Round((p.column - 1) * columns, 12) + 1);
    var span := Max(1, Round(p.span * columns, 12));
    p.(column := Min(column, columns), span := Min(span, columns - Min(column, columns) + 1))
  }

  function DerivedGrid(desktop: seq<Placement>, columns: int): seq<Placement> {
    seq(|desktop|, i requires 0 <= i < |desktop| => Derived(desktop[i], columns))
  }

  function PageGridPlacements(s: Surface, b: Breakpoint): seq<Placement> {
    match b
    case Desktop => s.desktop
    case Tablet => s.tablet.GetOr(DerivedGrid(s.desktop, Columns(b)))
    case Mobile => s.mobile.GetOr(DerivedGrid(s.desktop, Columns(b)))
  }

  // ===== edits ================================================================

  datatype Patch = Patch(order: Option<int>, column: Option<int>, span: Option<int>)

  function Patched(p: Placement, patch: Patch, columns: int): Placement {
    var column := Max(1, Min(columns, patch.column.GetOr(p.column)));
    var span := Max(1, Min(columns - column + 1, patch.span.GetOr(p.span)));
    Placement(p.blockId, patch.order.GetOr(p.order), column, span)
  }

  function PlacementIndex(placements: seq<Placement>, id: string): (i: int)
    ensures -1 <= i < |placements|
    ensures i >= 0 ==> placements[i].blockId == id && forall j | 0 <= j < i :: placements[j].blockId != id
    ensures i < 0 ==> forall j | 0 <= j < |placements| :: placements[j].blockId != id
  {
    if |placements| == 0 then -1
    else if placements[0].blockId == id then 0
    else
      var i := PlacementIndex(placements[1..], id);
      assert forall j | 1 <= j < |placements| :: placements[j] == placements[1..][j - 1];
      if i < 0 then -1 else i + 1
  }

  predicate OrderLe(a: Placement, b: Placement) { a.order <= b.order }

  function Renumbered(placements: seq<Placement>): seq<Placement> {
    seq(|placements|, i requires 0 <= i < |placements| => placements[i].(order := i))
  }

  function Updated(s: Surface, b: Breakpoint, id: string, patch: Patch): Surface {
    var placements := PageGridPlacements(s, b);
    var index := PlacementIndex(placements, id);
    if index < 0 then s
    else WithGrid(s, b, Renumbered(Sort(OrderLe, placements[index := Patched(placements[index], patch, Columns(b))])))
  }

  method UpdatePageGridPlacement(s: Surface, b: Breakpoint, id: string, patch: Patch) returns (next: Surface)
    ensures next == Updated(s, b, id, patch)
  {
    next := s;
    var columns := Columns(b);
    var placements := PageGridPlacements(s, b);
    var index := 0;
    while index < |placements| && placements[index].blockId != id
      invariant 0 <= index <= |placements|
      invariant forall j | 0 <= j < index :: placements[j].blockId != id
    {
      index := index + 1;
    }
    if index == |placements| { return; }
    var current := placements[index];
    var column := Max(1, Min(columns, patch.column.GetOr(current.column)));
    var span := Max(1, Min(columns - column + 1, patch.span.GetOr(current.span)));
    placements := placements[index := Placement(current.blockId, patch.order.GetOr(current.order), column, span)];
    placements := Sort(OrderLe, placements);
    var normalized: seq<Placement> := [];
    for order := 0 to |placements|
      invariant |normalized| == order && forall i | 0 <= i < order :: normalized[i] == placements[i].(order := i)
    {
      normalized := normalized + [placements[order].(order := order)];
    }
    assert normalized == Renumbered(placements);
    match b
    case Desktop => next := next.(desktop := normalized);
    case Tablet => next := next.(tablet := Some(normalized));
    case Mobile => next := next.(mobile := Some(normalized));
  }

  function ResetPageGridBreakpoint(s: Surface, b: Breakpoint): Surface
    requires b != Desktop
  {
    if b == Tablet then s.(tablet := None) else s.(mobile := None)
  }

  function BlockIndex(blocks: seq<Block>, id: string): (i: int)
    ensures -1 <= i < |blocks|
    ensures i >= 0 ==> blocks[i].id == id
    ensures i < 0 ==> forall block <- blocks :: block.id != id
  {
    if |blocks| == 0 then -1
    else if blocks[0].id == id then 0
    else var i := BlockIndex(blocks[1..], id); if i < 0 then -1 else i + 1
  }

  function ZoneHolding(s: Surface, id: string): Option<Zone> {
    if BlockIndex(s.full, id) >= 0 then Some(Full)
    else if BlockIndex(s.primary, id) >= 0 then Some(Primary)
    else if BlockIndex(s.sidebar, id) >= 0 then Some(Sidebar)
    else None
  }

  predicate IsZoneId(id: string) { "zone-" <= id }

  function ZoneNamed(id: string): Option<Zone> {
    if id == "zone-full" then Some(Full)
    else if id == "zone-primary" then Some(Primary)
    else if id == "zone-sidebar" then Some(Sidebar)
    else None
  }

  function TargetZone(s: Surface, overId: string): Option<Zone> {
    if IsZoneId(overId) then ZoneNamed(overId) else ZoneHolding(s, overId)
  }

  function TargetIndex(s: Surface, overId: string): int
    requires TargetZone(s, overId).Some?
  {
    var target := InZone(s, TargetZone(s, overId).value);
    if IsZoneId(overId) then |target| else BlockIndex(target, overId)
  }

  function RemovedAt<T>(xs: seq<T>, i: nat): seq<T>
    requires i < |xs|
  {
    xs[..i] + xs[i + 1..]
  }

  /** Inserting past the end appends. */
  function InsertedAt<T>(xs: seq<T>, i: nat, x: T): seq<T> {
    var k := Min(i, |xs|);
    xs[..k] + [x] + xs[k..]
  }

  function Moved(s: Surface, activeId: string, overId: string): Option<Surface> {
    var source, target := ZoneHolding(s, activeId), TargetZone(s, overId);
    if source.None? || target.None? then None
    else
      var from, to := BlockIndex(InZone(s, source.value), activeId), TargetIndex(s, overId);
      if from < 0 || to < 0 || (source == target && from == to) then None
      else Some(Carried(s, source.value, from, target.value, to))
  }

  /** The block is spliced out before it is spliced in. */
  function Carried(s: Surface, source: Zone, from: nat, target: Zone, to: nat): Surface
    requires from < |InZone(s, source)|
  {
    var without := WithZone(s, source, RemovedAt(InZone(s, source), from));
    WithZone(without, target, InsertedAt(InZone(without, target), to, InZone(s, source)[from]))
  }

  method MovePageDesignBlock(s: Surface, activeId: string, overId: string) returns (moved: Option<Surface>)
    ensures moved == Moved(s, activeId, overId)
  {
    var source, target := ZoneHolding(s, activeId), TargetZone(s, overId);
    if source.None? || target.None? { return None; }
    var from := BlockIndex(InZone(s, source.value), activeId);
    var to := if IsZoneId(overId) then |InZone(s, target.value)| else BlockIndex(InZone(s, target.value), overId);
    if from < 0 || to < 0 || (source == target && from == to) { return None; }
    var next := Splice(s, source.value, from, target.value, to);
    moved := Some(next);
  }

  method Splice(s: Surface, source: Zone, from: nat, target: Zone, to: nat) returns (next: Surface)
    requires from < |InZone(s, source)|
    ensures next == Carried(s, source, from, target, to)
  {
    var blocks := InZone(s, source);
    var block := blocks[from];
    next := WithZone(s, source, blocks[..from] + blocks[from + 1..]);
    blocks := InZone(next, target);
    var spliced := if to < |blocks| then blocks[..to] + [block] + blocks[to..] else blocks + [block];
    assert spliced == InsertedAt(blocks, to, block);
    next := WithZone(next, target, spliced);
  }

  datatype Template = Template(blocks: seq<Block>, placements: seq<Placement>)

  /** The last template block of the kind decides; kinds the template lacks go last. */
  function KindRank(t: seq<Block>, kind: string): int {
    if |t| == 0 then 999
    else if t[|t| - 1].kind == kind then |t| - 1
    else KindRank(t[..|t| - 1], kind)
  }

  function SlotOf(t: Template, kind: string): Option<Placement> {
    var block := FirstOfKind(t.blocks, kind);
    if block.None? then None
    else
      var i := PlacementIndex(t.placements, block.value.id);
      if i < 0 then None else Some(t.placements[i])
  }

  function FirstOfKind(blocks: seq<Block>, kind: string): Option<Block> {
    if |blocks| == 0 then None
    else if blocks[0].kind == kind then Some(blocks[0])
    else FirstOfKind(blocks[1..], kind)
  }

  function TemplateLe(t: Template): (Block, Block) -> bool {
    (a: Block, b: Block) => KindRank(t.blocks, a.kind) <= KindRank(t.blocks, b.kind)
  }

  function Slotted(t: Template, block: Block, order: int): Placement {
    var slot := SlotOf(t, block.kind);
    if slot.Some? then Placement(block.id, order, slot.value.column, slot.value.span) else Placement(block.id, order, 1, 12)
  }

  function Templated(s: Surface, t: Template): Surface {
    var arranged := Sort(TemplateLe(t), AllBlocks(s));
    s.(desktop := TemplateGrid(t, arranged), tablet := None, mobile := None)
  }

  function TemplateGrid(t: Template, arranged: seq<Block>): seq<Placement> {
    seq(|arranged|, i requires 0 <= i < |arranged| => Slotted(t, arranged[i], i))
  }

  method ApplyPageTemplateLayout(s: Surface, t: Template) returns (next: Surface)
    ensures next == Templated(s, t)
  {
    var arranged := Sort(TemplateLe(t), s.full + s.primary + s.sidebar);
    var desktop: seq<Placement> := [];
    for order := 0 to |arranged|
      invariant |desktop| == order && forall i | 0 <= i < order :: desktop[i] == Slotted(t, arranged[i], i)
    {
      var block := arranged[order];
      var slot := SlotOf(t, block.kind);
      var column, span := 1, Columns(Desktop);
      if slot.Some? { column, span := slot.value.column, slot.value.span; }
      desktop := desktop + [Placement(block.id, order, column, span)];
    }
    assert desktop == TemplateGrid(t, arranged);
    next := s.(desktop := desktop, tablet := None, mobile := None);
  }

  // ===== what every edit keeps ================================================

  function BlockIds(blocks: seq<Block>): seq<string> {
    seq(|blocks|, i requires 0 <= i < |blocks| => blocks[i].id)
  }

  function PlacementIds(placements: seq<Placement>): seq<string> {
    seq(|placements|, i requires 0 <= i < |placements| => placements[i].blockId)
  }

  lemma IdsWithout(blocks: seq<Block>, i: nat)
    requires i < |blocks|
    ensures multiset(BlockIds(blocks)) == multiset(BlockIds(RemovedAt(blocks, i))) + multiset{blocks[i].id}
  {
    assert RemovedAt(BlockIds(blocks), i) == BlockIds(RemovedAt(blocks, i));
    RemovedPermutes(BlockIds(blocks), i);
  }

  lemma {:induction false} BlockIdsPermute(a: seq<Block>, b: seq<Block>)
    requires multiset(a) == multiset(b)
    ensures multiset(BlockIds(a)) == multiset(BlockIds(b))
  {
    assert |multiset(a)| == |multiset(b)|;
    if |a| > 0 {
      assert a[0] in multiset(b);
      var i :| 0 <= i < |b| && b[i] == a[0];
      RemovedPermutes(a, 0);
      RemovedPermutes(b, i);
      assert multiset(RemovedAt(a, 0)) == multiset(a) - multiset{a[0]} == multiset(RemovedAt(b, i));
      BlockIdsPermute(RemovedAt(a, 0), RemovedAt(b, i));
      IdsWithout(a, 0);
      IdsWithout(b, i);
    }
  }

  lemma RemovedPermutes<T>(xs: seq<T>, i: nat)
    requires i < |xs|
    ensures multiset(xs) == multiset(RemovedAt(xs, i)) + multiset{xs[i]}
  {
    assert xs == xs[..i] + [xs[i]] + xs[i + 1..];
  }

  predicate Fits(p: Placement, columns: int) { 1 <= p.column && 1 <= p.span && p.column + p.span <= columns + 1 }

  /** One placement per id, in the order of their `order` fields 0, 1, 2, ..., each inside the columns. */
  ghost predicate GoodGrid(placements: seq<Placement>, ids: seq<string>, columns: int) {
    && multiset(PlacementIds(placements)) == multiset(ids)
    && (forall i | 0 <= i < |placements| :: placements[i].order == i)
    && (forall p <- placements :: Fits(p, columns))
  }

  /** Block ids are distinct and the grid is good at every breakpoint. */
  ghost predicate Inv(s: Surface) {
    && Distinct(BlockIds(AllBlocks(s)))
    && GoodGrid(PageGridPlacements(s, Desktop), BlockIds(AllBlocks(s)), 12)
    && GoodGrid(PageGridPlacements(s, Tablet), BlockIds(AllBlocks(s)), 8)
    && GoodGrid(PageGridPlacements(s, Mobile), BlockIds(AllBlocks(s)), 4)
  }

  // ----- derived grids --------------------------------------------------------

  /** Scaling a fitting desktop placement down and rounding keeps it inside the columns. */
  lemma DerivedFits(p: Placement, columns: int)
    requires Fits(p, 12) && columns >= 1
    ensures Fits(Derived(p, columns), columns)
  {
    assert 0 <= (p.column - 1) * columns;
  }

  lemma DerivedIsGood(desktop: seq<Placement>, ids: seq<string>, columns: int)
    requires GoodGrid(desktop, ids, 12) && columns >= 1
    ensures GoodGrid(DerivedGrid(desktop, columns), ids, columns)
  {
    var derived := DerivedGrid(desktop, columns);
    assert PlacementIds(derived) == PlacementIds(desktop);
    forall p <- derived ensures Fits(p, columns) {
      var i :| 0 <= i < |desktop| && p == Derived(desktop[i], columns);
      assert desktop[i] in desktop;
      DerivedFits(desktop[i], columns);
    }
  }

  lemma DesktopGridIsEnough(s: Surface)
    requires Distinct(BlockIds(AllBlocks(s))) && GoodGrid(s.desktop, BlockIds(AllBlocks(s)), 12)
    requires s.tablet.Some? ==> GoodGrid(s.tablet.value, BlockIds(AllBlocks(s)), 8)
    requires s.mobile.Some? ==> GoodGrid(s.mobile.value, BlockIds(AllBlocks(s)), 4)
    ensures Inv(s)
  {
    DerivedIsGood(s.desktop, BlockIds(AllBlocks(s)), 8);
    DerivedIsGood(s.desktop, BlockIds(AllBlocks(s)), 4);
  }

  // ----- migration ------------------------------------------------------------

  lemma {:induction false} NamedKeepsAll(placements: seq<Placement>)
    requires forall p <- placements :: p.blockId != ""
    ensures Named(placements) == placements
  {
    if |placements| > 0 {
      assert forall p <- placements[1..] :: p in placements;
      NamedKeepsAll(placements[1..]);
      assert placements[0] in placements && [placements[0]] + placements[1..] == placements;
    }
  }

  ghost predicate IsLegacy(full: seq<Block>, primary: seq<Block>, sidebar: seq<Block>) {
    Distinct(BlockIds(full + primary + sidebar)) && forall x <- full + primary + sidebar :: x.id != ""
  }

  /** A legacy design with distinct, non-empty block ids migrates to a good grid. */
  lemma MigrationIsGood(full: seq<Block>, primary: seq<Block>, sidebar: seq<Block>)
    requires IsLegacy(full, primary, sidebar)
    ensures Inv(Migrated(full, primary, sidebar))
  {
    var blocks := full + primary + sidebar;
    var laid := Laid(full, 0, 1, 12) + Laid(primary, |full|, 1, if |sidebar| > 0 then 8 else 12) + Laid(sidebar, |full| + |primary|, 9, 4);
    forall i | 0 <= i < |laid| ensures laid[i].blockId == blocks[i].id && laid[i].order == i && Fits(laid[i], 12) {}
    assert PlacementIds(laid) == BlockIds(blocks);
    forall p <- laid ensures p.blockId != "" {
      var i :| 0 <= i < |laid| && laid[i] == p;
      assert blocks[i] in blocks;
    }
    NamedKeepsAll(laid);
    DesktopGridIsEnough(Migrated(full, primary, sidebar));
  }

  // ----- placement updates ----------------------------------------------------

  lemma {:induction false} InsertIds(x: Placement, placements: seq<Placement>)
    ensures multiset(PlacementIds(Insert(OrderLe, x, placements))) == multiset(PlacementIds(placements)) + multiset{x.blockId}
  {
    if |placements| == 0 || OrderLe(x, placements[0]) {
      assert PlacementIds([x] + placements) == [x.blockId] + PlacementIds(placements);
    } else {
      InsertIds(x, placements[1..]);
      assert PlacementIds(placements) == [placements[0].blockId] + PlacementIds(placements[1..]);
      var rest := Insert(OrderLe, x, placements[1..]);
      assert PlacementIds([placements[0]] + rest) == [placements[0].blockId] + PlacementIds(rest);
    }
  }

  lemma {:induction false} SortIds(placements: seq<Placement>)
    ensures multiset(PlacementIds(Sort(OrderLe, placements))) == multiset(PlacementIds(placements))
  {
    if |placements| > 0 {
      SortIds(placements[1..]);
      InsertIds(placements[0], Sort(OrderLe, placements[1..]));
      assert PlacementIds(placements) == [placements[0].blockId] + PlacementIds(placements[1..]);
    }
  }

  lemma RenumberedIsGood(placements: seq<Placement>, ids: seq<string>, columns: int)
    requires multiset(PlacementIds(placements)) == multiset(ids) && forall p <- placements :: Fits(p, columns)
    ensures GoodGrid(Renumbered(Sort(OrderLe, placements)), ids, columns)
  {
    var sorted := Sort(OrderLe, placements);
    SortIds(placements);
    assert PlacementIds(Renumbered(sorted)) == PlacementIds(sorted);
    SortKeepsElements(OrderLe, placements);
    forall p <- Renumbered(sorted) ensures Fits(p, columns) {
      var i :| 0 <= i < |sorted| && p == sorted[i].(order := i);
      assert sorted[i] in sorted;
    }
  }

  lemma PatchedFits(placements: seq<Placement>, i: nat, patch: Patch, columns: int)
    requires i < |placements| && columns >= 1 && forall p <- placements :: Fits(p, columns)
    ensures var changed := placements[i := Patched(placements[i], patch, columns)];
            PlacementIds(changed) == PlacementIds(placements) && forall p <- changed :: Fits(p, columns)
  {
    var patched := Patched(placements[i], patch, columns);
    forall p <- placements[i := patched] ensures Fits(p, columns) { assert p == patched || p in placements; }
  }

  lemma UpdatedIsGood(s: Surface, b: Breakpoint, id: string, patch: Patch)
    requires Inv(s)
    ensures Inv(Updated(s, b, id, patch)) && AllBlocks(Updated(s, b, id, patch)) == AllBlocks(s)
  {
    var placements, index := PageGridPlacements(s, b), PlacementIndex(PageGridPlacements(s, b), id);
    if index >= 0 {
      var changed := placements[index := Patched(placements[index], patch, Columns(b))];
      PatchedFits(placements, index, patch, Columns(b));
      RenumberedIsGood(changed, BlockIds(AllBlocks(s)), Columns(b));
      DesktopGridIsEnough(Updated(s, b, id, patch));
    }
  }

  // ----- moves ----------------------------------------------------------------

  lemma InsertedPermutes<T>(xs: seq<T>, i: nat, x: T)
    ensures multiset(InsertedAt(xs, i, x)) == multiset(xs) + multiset{x}
  {
    var k := Min(i, |xs|);
    assert xs == xs[..k] + xs[k..];
  }

  lemma BlocksByZone(s: Surface)
    ensures multiset(AllBlocks(s)) == multiset(s.full) + multiset(s.primary) + multiset(s.sidebar)
  {
  }

  lemma SplicedOut(s: Surface, z: Zone, i: nat)
    requires i < |InZone(s, z)|
    ensures multiset(AllBlocks(WithZone(s, z, RemovedAt(InZone(s, z), i)))) + multiset{InZone(s, z)[i]} == multiset(AllBlocks(s))
  {
    RemovedPermutes(InZone(s, z), i);
    BlocksByZone(s);
    BlocksByZone(WithZone(s, z, RemovedAt(InZone(s, z), i)));
  }

  lemma SplicedIn(s: Surface, z: Zone, i: nat, x: Block)
    ensures multiset(AllBlocks(WithZone(s, z, InsertedAt(InZone(s, z), i, x)))) == multiset(AllBlocks(s)) + multiset{x}
  {
    InsertedPermutes(InZone(s, z), i, x);
    BlocksByZone(s);
    BlocksByZone(WithZone(s, z, InsertedAt(InZone(s, z), i, x)));
  }

  lemma CarriedPermutes(s: Surface, source: Zone, from: nat, target: Zone, to: nat)
    requires from < |InZone(s, source)|
    ensures multiset(AllBlocks(Carried(s, source, from, target, to))) == multiset(AllBlocks(s))
    ensures Carried(s, source, from, target, to).(full := s.full, primary := s.primary, sidebar := s.sidebar) == s
  {
    SplicedOut(s, source, from);
    SplicedIn(WithZone(s, source, RemovedAt(InZone(s, source), from)), target, to, InZone(s, source)[from]);
  }

  /** A move rearranges the blocks of the surface and touches no placement. */
  lemma MovedPermutes(s: Surface, activeId: string, overId: string)
    requires Moved(s, activeId, overId).Some?
    ensures var s' := Moved(s, activeId, overId).value;
            && multiset(AllBlocks(s')) == multiset(AllBlocks(s))
            && s'.desktop == s.desktop && s'.tablet == s.tablet && s'.mobile == s.mobile
  {
    var source, target := ZoneHolding(s, activeId).value, TargetZone(s, overId).value;
    CarriedPermutes(s, source, BlockIndex(InZone(s, source), activeId), target, TargetIndex(s, overId));
  }

  lemma InsertedLands<T>(xs: seq<T>, i: nat, x: T)
    ensures var at := Min(i, |xs|);
            at < |InsertedAt(xs, i, x)| && InsertedAt(xs, i, x)[at] == x && RemovedAt(InsertedAt(xs, i, x), at) == xs
  {
    var k := Min(i, |xs|);
    var after := InsertedAt(xs, i, x);
    assert after[..k] == xs[..k] && after[k + 1..] == xs[k..];
    assert xs[..k] + xs[k..] == xs;
  }

  /** The moved block stands where the block it was dropped on stood, or at the end of the zone; all others keep their order. */
  lemma CarriedLands(s: Surface, source: Zone, from: nat, target: Zone, to: nat)
    requires from < |InZone(s, source)| && to <= |InZone(s, target)|
    ensures var after := InZone(Carried(s, source, from, target, to), target);
            var at := if source == target && to == |InZone(s, target)| then to - 1 else to;
            && at < |after| && after[at] == InZone(s, source)[from]
            && RemovedAt(after, at) == if source == target then RemovedAt(InZone(s, target), from) else InZone(s, target)
    ensures forall z | z != source && z != target :: InZone(Carried(s, source, from, target, to), z) == InZone(s, z)
    ensures source != target ==> InZone(Carried(s, source, from, target, to), source) == RemovedAt(InZone(s, source), from)
  {
    var without := WithZone(s, source, RemovedAt(InZone(s, source), from));
    InsertedLands(InZone(without, target), to, InZone(s, source)[from]);
  }

  lemma PermutedBlocksKeepInv(s: Surface, s': Surface)
    requires Inv(s) && multiset(AllBlocks(s')) == multiset(AllBlocks(s))
    requires s'.desktop == s.desktop && s'.tablet == s.tablet && s'.mobile == s.mobile
    ensures Inv(s')
  {
    BlockIdsPermute(AllBlocks(s'), AllBlocks(s));
    DistinctOfPermutation(BlockIds(AllBlocks(s)), BlockIds(AllBlocks(s')));
  }

  // ----- templates ------------------------------------------------------------

  predicate TemplateFits(t: Template) { forall p <- t.placements :: Fits(p, 12) }

  lemma SlottedFits(t: Template, block: Block, order: int)
    requires TemplateFits(t)
    ensures Fits(Slotted(t, block, order), 12)
  {
    var slot := SlotOf(t, block.kind);
    if slot.Some? { assert slot.value in t.placements; }
  }

  lemma TemplatedIsGood(s: Surface, t: Template)
    requires Inv(s) && TemplateFits(t)
    ensures Inv(Templated(s, t)) && AllBlocks(Templated(s, t)) == AllBlocks(s)
  {
    var arranged := Sort(TemplateLe(t), AllBlocks(s));
    SortIsSortedPermutation(TemplateLe(t), AllBlocks(s));
    BlockIdsPermute(arranged, AllBlocks(s));
    TemplateGridIsGood(t, arranged, BlockIds(AllBlocks(s)));
    DesktopGridIsEnough(Templated(s, t));
  }

  lemma TemplateGridIsGood(t: Template, arranged: seq<Block>, ids: seq<string>)
    requires TemplateFits(t) && multiset(BlockIds(arranged)) == multiset(ids)
    ensures GoodGrid(TemplateGrid(t, arranged), ids, 12)
  {
    var grid := TemplateGrid(t, arranged);
    assert PlacementIds(grid) == BlockIds(arranged);
    forall p <- grid ensures Fits(p, 12) {
      var i :| 0 <= i < |grid| && p == grid[i];
      SlottedFits(t, arranged[i], i);
    }
  }

  /** Which block a placement of the surface belongs to. */
  ghost predicate Belongs(s: Surface, p: Placement, b: Block) { b in AllBlocks(s) && b.id == p.blockId }

  /** The template's order and slots decide: kinds it lacks follow at full width, and equal kinds keep their order. */
  lemma TemplatedIsArranged(s: Surface, t: Template) returns (arranged: seq<Block>)
    requires Inv(s)
    ensures multiset(arranged) == multiset(AllBlocks(s)) && |arranged| == |Templated(s, t).desktop|
    ensures forall i, j | 0 <= i < j < |arranged| :: KindRank(t.blocks, arranged[i].kind) <= KindRank(t.blocks, arranged[j].kind)
    ensures forall i | 0 <= i < |arranged| ::
              var p, slot := Templated(s, t).desktop[i], SlotOf(t, arranged[i].kind);
              && Belongs(s, p, arranged[i])
              && (slot.Some? ==> p.column == slot.value.column && p.span == slot.value.span)
              && (slot.None? ==> p.column == 1 && p.span == 12)
  {
    arranged := Sort(TemplateLe(t), AllBlocks(s));
    SortIsSortedPermutation(TemplateLe(t), AllBlocks(s));
    forall i, j | 0 <= i < j < |arranged| ensures KindRank(t.blocks, arranged[i].kind) <= KindRank(t.blocks, arranged[j].kind) {
      assert TemplateLe(t)(arranged[i], arranged[j]);
    }
    forall i | 0 <= i < |arranged| ensures arranged[i] in AllBlocks(s) { assert arranged[i] in multiset(arranged); }
  }

  // ----- every series of edits ------------------------------------------------

  datatype Edit =
    | Move(activeId: string, overId: string)
    | Update(breakpoint: Breakpoint, id: string, patch: Patch)
    | Reset(breakpoint: Breakpoint)
    | ApplyTemplate(template: Template)

  function Apply(s: Surface, e: Edit): Surface {
    match e
    case Move(activeId, overId) => Moved(s, activeId, overId).GetOr(s)
    case Update(b, id, patch) => Updated(s, b, id, patch)
    case Reset(b) => if b == Desktop then s else ResetPageGridBreakpoint(s, b)
    case ApplyTemplate(t) => Templated(s, t)
  }

  function Run(s: Surface, edits: seq<Edit>): Surface {
    if |edits| == 0 then s else Apply(Run(s, edits[..|edits| - 1]), edits[|edits| - 1])
  }

  /** Templates come from a fixed table whose placements fit the desktop columns. */
  predicate TemplatesFit(edits: seq<Edit>) { forall e <- edits :: e.ApplyTemplate? ==> TemplateFits(e.template) }

  lemma EditKeepsInv(s: Surface, e: Edit)
    requires Inv(s) && (e.ApplyTemplate? ==> TemplateFits(e.template))
    ensures Inv(Apply(s, e)) && multiset(AllBlocks(Apply(s, e))) == multiset(AllBlocks(s))
  {
    match e
    case Move(activeId, overId) => MoveKeepsInv(s, activeId, overId);
    case Update(b, id, patch) => UpdatedIsGood(s, b, id, patch);
    case Reset(b) => ResetKeepsInv(s, b);
    case ApplyTemplate(t) => TemplatedIsGood(s, t);
  }

  lemma MoveKeepsInv(s: Surface, activeId: string, overId: string)
    requires Inv(s)
    ensures var s' := Apply(s, Move(activeId, overId)); Inv(s') && multiset(AllBlocks(s')) == multiset(AllBlocks(s))
  {
    if Moved(s, activeId, overId).Some? {
      MovedPermutes(s, activeId, overId);
      PermutedBlocksKeepInv(s, Moved(s, activeId, overId).value);
    }
  }

  lemma ResetKeepsInv(s: Surface, b: Breakpoint)
    requires Inv(s)
    ensures Inv(Apply(s, Reset(b))) && AllBlocks(Apply(s, Reset(b))) == AllBlocks(s)
  {
    if b != Desktop { DesktopGridIsEnough(Apply(s, Reset(b))); }
  }

  lemma {:induction false} EditsKeepInv(s: Surface, edits: seq<Edit>)
    requires Inv(s) && TemplatesFit(edits)
    ensures Inv(Run(s, edits)) && multiset(AllBlocks(Run(s, edits))) == multiset(AllBlocks(s))
  {
    if |edits| > 0 {
      assert forall e <- edits[..|edits| - 1] :: e in edits;
      EditsKeepInv(s, edits[..|edits| - 1]);
      assert edits[|edits| - 1] in edits;
      EditKeepsInv(Run(s, edits[..|edits| - 1]), edits[|edits| - 1]);
    }
  }

  ghost predicate EditedFrom(start: Surface, s: Surface) { exists edits :: TemplatesFit(edits) && s == Run(start, edits) }

  /** From a migrated legacy design, any series of edits keeps the blocks and a good grid at all three breakpoints. */
  lemma EditsKeepGoodGrids(full: seq<Block>, primary: seq<Block>, sidebar: seq<Block>, s: Surface, b: Breakpoint)
    requires IsLegacy(full, primary, sidebar) && EditedFrom(Migrated(full, primary, sidebar), s)
    ensures multiset(AllBlocks(s)) == multiset(full + primary + sidebar)
    ensures Distinct(PlacementIds(PageGridPlacements(s, b)))
    ensures GoodGrid(PageGridPlacements(s, b), BlockIds(AllBlocks(s)), Columns(b))
  {
    var edits :| TemplatesFit(edits) && s == Run(Migrated(full, primary, sidebar), edits);
    MigrationIsGood(full, primary, sidebar);
    EditsKeepInv(Migrated(full, primary, sidebar), edits);
    DistinctOfPermutation(BlockIds(AllBlocks(s)), PlacementIds(PageGridPlacements(s, b)));
  }

  // ----- where a reordered placement lands ------------------------------------

  lemma {:induction false} InsertStops(x: Placement, s: seq<Placement>, k: nat)
    requires k <= |s| && (forall j | 0 <= j < k :: s[j].order < x.order) && (k < |s| ==> x.order <= s[k].order)
    ensures Insert(OrderLe, x, s) == s[..k] + [x] + s[k..]
  {
    if k > 0 {
      InsertStops(x, s[1..], k - 1);
      assert s[1..][..k - 1] == s[1..k] && s[1..][k - 1..] == s[k..];
      assert [s[0]] + s[1..k] == s[..k];
    }
  }

  ghost predicate Rising(s: seq<Placement>) { forall i, j | 0 <= i < j < |s| :: s[i].order < s[j].order }

  /** The j-th of the others stays before the stray: its order is lower, or equal and it stood before already. */
  predicate Precedes(s: seq<Placement>, j: int, x: Placement, i: int)
    requires 0 <= j < |s|
  {
    s[j].order < x.order || (s[j].order == x.order && j < i)
  }

  /** The stray goes behind the first `k`. */
  ghost predicate PrecedesUpTo(s: seq<Placement>, k: nat, x: Placement, i: nat) {
    forall j | 0 <= j < |s| :: j < k <==> Precedes(s, j, x, i)
  }

  /** Sorting a rising sequence with one stray at place i puts the stray at place k. */
  lemma {:induction false} SortOneStray(s: seq<Placement>, i: nat, x: Placement, k: nat)
    requires Rising(s) && i <= |s| && k <= |s|
    requires PrecedesUpTo(s, k, x, i)
    ensures Sort(OrderLe, s[..i] + [x] + s[i..]) == InsertedAt(s, k, x)
  {
    if i == 0 {
      StrayInFront(s, x, k);
    } else {
      StrayBehindHead(s, i, x, k);
      SortOneStray(s[1..], i - 1, x, Max(0, k - 1));
      assert (s[..i] + [x] + s[i..])[1..] == s[1..][..i - 1] + [x] + s[1..][i - 1..];
      HeadInserted(s, x, k);
    }
  }

  lemma StrayInFront(s: seq<Placement>, x: Placement, k: nat)
    requires Rising(s) && k <= |s| && PrecedesUpTo(s, k, x, 0)
    ensures Sort(OrderLe, s[..0] + [x] + s[0..]) == InsertedAt(s, k, x)
  {
    assert s[..0] + [x] + s[0..] == [x] + s && ([x] + s)[1..] == s;
    SortOfSorted(OrderLe, s);
    forall j | 0 <= j < k ensures s[j].order < x.order { assert Precedes(s, j, x, 0); }
    if k < |s| { assert !Precedes(s, k, x, 0); }
    InsertStops(x, s, k);
  }

  /** Behind the head the stray is one place nearer. */
  lemma StrayBehindHead(s: seq<Placement>, i: nat, x: Placement, k: nat)
    requires Rising(s) && 0 < i <= |s| && k <= |s| && PrecedesUpTo(s, k, x, i)
    ensures Rising(s[1..]) && PrecedesUpTo(s[1..], Max(0, k - 1), x, i - 1)
    ensures if k > 0 then s[0].order <= x.order else x.order < s[0].order
  {
    var rest, k', i' := s[1..], Max(0, k - 1), i - 1;
    forall j | 0 <= j < |rest| ensures j < k' <==> Precedes(rest, j, x, i') {
      assert j + 1 < k <==> Precedes(s, j + 1, x, i);
    }
    assert 0 < k <==> Precedes(s, 0, x, i);
  }

  lemma InsertedAtFront<T>(xs: seq<T>, x: T)
    ensures InsertedAt(xs, 0, x) == [x] + xs
  {
  }

  lemma InsertedBehindHead<T>(xs: seq<T>, k: nat, x: T)
    requires 0 < k <= |xs|
    ensures InsertedAt(xs, k, x) == [xs[0]] + InsertedAt(xs[1..], k - 1, x)
    ensures InsertedAt(xs[1..], k - 1, x)[0] == if k == 1 then x else xs[1]
  {
  }

  lemma HeadInserted(s: seq<Placement>, x: Placement, k: nat)
    requires Rising(s) && 0 < |s| && k <= |s| && (if k > 0 then s[0].order <= x.order else x.order < s[0].order)
    ensures Insert(OrderLe, s[0], InsertedAt(s[1..], Max(0, k - 1), x)) == InsertedAt(s, k, x)
  {
    if k > 0 {
      InsertedBehindHead(s, k, x);
    } else {
      InsertedAtFront(s[1..], x);
      InsertedAtFront(s, x);
      HeadAfterStray(s[0], s[1..], x);
      assert [s[0]] + s[1..] == s;
    }
  }

  lemma HeadAfterStray(head: Placement, rest: seq<Placement>, x: Placement)
    requires x.order < head.order && (|rest| > 0 ==> head.order <= rest[0].order)
    ensures Insert(OrderLe, head, [x] + rest) == [x] + ([head] + rest)
  {
    assert ([x] + rest)[1..] == rest;
    assert Insert(OrderLe, head, rest) == [head] + rest;
  }

  /** Where an order asked for puts the placement that stands at place i of n. */
  function LandsAt(i: int, order: int, n: int): int {
    if order < i then Max(0, order + 1) else Max(i, Min(order, n) - 1)
  }

  lemma ReorderLands(before: seq<Placement>, i: nat, x: Placement)
    requires i < |before| && forall j | 0 <= j < |before| :: before[j].order == j
    ensures var k := LandsAt(i, x.order, |before|);
            0 <= k < |before| && Sort(OrderLe, before[i := x]) == InsertedAt(RemovedAt(before, i), k, x)
  {
    var k, others := LandsAt(i, x.order, |before|), RemovedAt(before, i);
    forall j | 0 <= j < |others| ensures others[j].order == if j < i then j else j + 1 {}
    assert before[i := x] == others[..i] + [x] + others[i..];
    forall j | 0 <= j < |others| ensures j < k <==> Precedes(others, j, x, i) {}
    SortOneStray(others, i, x, k);
  }

  /**
   * An update changes the one placement, moves it next to, not onto, the place
   * asked for (one short of it from either side) and leaves all others as they
   * are, in their order.
   */
  lemma UpdateLandsNextTo(s: Surface, b: Breakpoint, id: string, patch: Patch, i: nat)
    requires Inv(s) && i < |PageGridPlacements(s, b)| && PlacementIndex(PageGridPlacements(s, b), id) == i
    ensures var before := PageGridPlacements(s, b);
            var k := LandsAt(i, patch.order.GetOr(i), |before|);
            && 0 <= k < |before|
            && PageGridPlacements(Updated(s, b, id, patch), b) ==
               Renumbered(InsertedAt(RemovedAt(before, i), k, Patched(before[i], patch, Columns(b))))
  {
    ReorderLands(PageGridPlacements(s, b), i, Patched(PageGridPlacements(s, b)[i], patch, Columns(b)));
  }
}
