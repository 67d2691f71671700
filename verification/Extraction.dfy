/** The region list: every component of every kind, scored against the largest of its
    kind, best first, cut to a maximum length. */
module Extraction {
  import opened Wrappers
  import opened Rasters
  import opened Compare
  import opened Components
  import opened Regions
  import opened Rounding
  import opened Sorting
  import T = Transforms

  /** A region; its centre and radius are functions of `blocks`. */
  datatype Region = Region(kind: Kind, blocks: seq<Block>, cells: nat, height: Option<real>, score: real)

  datatype Job = Job(grid: MapGrid, cloud: Raster<bool>, heights: Heights, block: pos, minCells: int) {
    /** `minCells` is at least one by configuration. */
    predicate Valid() {
      && grid.Valid() && minCells >= 1
      && Shaped(cloud, grid.height, grid.width) && Shaped(heights, grid.height, grid.width)
    }

    function Mask(kind: Kind): (mask: Raster<bool>)
      requires Valid()
    {
      KindMask(grid, cloud, kind)
    }

    function Counts(kind: Kind): Raster<nat>
      requires Valid()
    {
      Pool(Mask(kind), grid.height, grid.width, block)
    }

    function Tops(): Heights
      requires Valid()
    {
      PoolMax(heights, grid.height, grid.width, block)
    }

    /** Blocks holding enough cells of the kind. */
    function Blocks(kind: Kind): Raster<bool>
      requires Valid()
    {
      Busy(Counts(kind), minCells)
    }
  }

  /** `max(1, int(round(block_m / resolution)))`. */
  function BlockSize(blockM: real, resolution: real): pos
    requires resolution > 0.0
  {
    var n := RoundHalfEven(blockM / resolution);
    if n < 1 then 1 else n
  }

  /** The number of cells whose length is closest to the block asked for, to within half
      a cell, but never less than one. */
  lemma BlockSizeIsClosest(blockM: real, resolution: real)
    requires resolution > 0.0
    ensures var length := resolution * BlockSize(blockM, resolution) as real;
            && blockM - length <= 0.5 * resolution
            && (BlockSize(blockM, resolution) > 1 ==> length - blockM <= 0.5 * resolution)
  {
    var q := blockM / resolution;
    assert q * resolution == blockM;
    Bracket(blockM, q, resolution, BlockSize(blockM, resolution) as real);
  }

  lemma Bracket(x: real, q: real, m: real, n: real)
    requires m > 0.0 && m * q == x
    ensures q - n <= 0.5 ==> x - m * n <= 0.5 * m
    ensures n - q <= 0.5 ==> m * n - x <= 0.5 * m
  {
    Half(m, q - n, m * q - m * n);
    Half(m, n - q, m * n - m * q);
  }

  lemma Half(m: real, d: real, p: real)
    requires m > 0.0 && p == m * d
    ensures d <= 0.5 ==> p <= 0.5 * m
  {
    MulMonotone(m, d, 0.5);
  }

  // ---- One component ----

  ghost predicate IsRegion(job: Job, reg: Region)
    requires job.Valid()
  {
    && IsComponent(job.Blocks(reg.kind), reg.blocks)
    && reg.cells == |CellsIn(job.Mask(reg.kind), job.block, Elems(reg.blocks))|
    && reg.cells >= 1
    && TopsCells(job.heights, BlockCells(job.block, reg.blocks, |reg.blocks|), reg.height)
  }

  /** The cells of the blocks whose value and cloud bit are of the kind. */
  ghost function CellsByValue(job: Job, kind: Kind, bs: seq<Block>): set<T.Cell>
    requires job.Valid()
  {
    set r, c | 0 <= r < job.grid.height && 0 <= c < job.grid.width && Block(r / job.block, c / job.block) in bs
               && ByValue(kind, job.grid.cells[r][c], job.cloud[r][c], job.grid.freeMax, job.grid.occupiedMin) :: T.Cell(c, r)
  }

  lemma MaskIsByValue(job: Job, kind: Kind, bs: seq<Block>)
    requires job.Valid()
    ensures CellsIn(job.Mask(kind), job.block, Elems(bs)) == CellsByValue(job, kind, bs)
  {
    forall cell: T.Cell ensures cell in CellsIn(job.Mask(kind), job.block, Elems(bs)) <==> cell in CellsByValue(job, kind, bs) {
      if InBounds(cell.row, cell.col, job.grid.height, job.grid.width) {
        KindIsByValue(job.grid, job.cloud, kind, cell.row, cell.col);
      }
      assert cell == T.Cell(cell.col, cell.row);
    }
  }

  /** A region of a kind counts the cells in its blocks whose value and cloud bit are of
      that kind, and each of its blocks holds enough of them. */
  lemma RegionCountsByValue(job: Job, reg: Region, i: nat)
    requires job.Valid() && IsRegion(job, reg) && i < |reg.blocks|
    ensures reg.cells == |CellsByValue(job, reg.kind, reg.blocks)|
    ensures |CellsByValue(job, reg.kind, [reg.blocks[i]])| >= job.minCells
  {
    MaskIsByValue(job, reg.kind, reg.blocks);
    MaskIsByValue(job, reg.kind, [reg.blocks[i]]);
    ComponentInRaster(job, reg.kind, reg.blocks, i);
    PoolCounts(job.Mask(reg.kind), job.grid.height, job.grid.width, job.block, reg.blocks[i]);
    assert Elems([reg.blocks[i]]) == {reg.blocks[i]};
  }

  lemma ComponentInRaster(job: Job, kind: Kind, comp: seq<Block>, i: nat)
    requires job.Valid() && IsComponent(job.Blocks(kind), comp) && i < |comp|
    ensures On(job.Blocks(kind), comp[i])
    ensures InBounds(comp[i].r, comp[i].c, PooledLength(job.grid.height, job.block), PooledLength(job.grid.width, job.block))
    ensures InRaster(job.Tops(), comp[i]) && CountAt(job.Counts(kind), comp[i]) >= job.minCells
  {
  }

  /** The numbers of one component.  `counts` and `tops` are the pooled rasters. */
  function MakeRegion(kind: Kind, counts: Raster<nat>, tops: Heights, comp: seq<Block>): Region {
    Region(kind, comp, SumCounts(counts, comp, |comp|), TopOf(tops, comp, |comp|), 0.0)
  }

  lemma {:induction false} SumAtLeast(counts: Raster<nat>, bs: seq<Block>, n: nat)
    requires 0 < n <= |bs|
    ensures SumCounts(counts, bs, n) >= CountAt(counts, bs[0])
  {
    if n > 1 {
      SumAtLeast(counts, bs, n - 1);
    }
  }

  lemma MadeIsRegion(job: Job, kind: Kind, comp: seq<Block>)
    requires job.Valid() && IsComponent(job.Blocks(kind), comp)
    ensures IsRegion(job, MakeRegion(kind, job.Counts(kind), job.Tops(), comp))
  {
    forall i | 0 <= i < |comp|
      ensures InRaster(job.Tops(), comp[i])
      ensures InBounds(comp[i].r, comp[i].c, PooledLength(job.grid.height, job.block), PooledLength(job.grid.width, job.block))
    {
      ComponentInRaster(job, kind, comp, i);
    }
    PoolCountsAll(job.Mask(kind), job.grid.height, job.grid.width, job.block, comp);
    CountsAddCells(job.Counts(kind), job.Mask(kind), job.block, comp, |comp|);
    FirstsAll(comp);
    ComponentInRaster(job, kind, comp, 0);
    SumAtLeast(job.Counts(kind), comp, |comp|);
    TopOfTopsCells(job.heights, job.grid.height, job.grid.width, job.block, comp, |comp|);
  }

  // ---- One kind ----

  ghost predicate Covered(regions: seq<Region>, kind: Kind, b: Block) {
    exists i :: 0 <= i < |regions| && regions[i].kind == kind && b in regions[i].blocks
  }

  ghost predicate Apart(regions: seq<Region>) {
    forall i, j, b :: 0 <= i < j < |regions| && regions[i].kind == regions[j].kind && b in regions[i].blocks ==>
      b !in regions[j].blocks
  }

  /** The place of a kind among the kinds. */
  function Rank(kind: Kind): (k: nat)
    ensures k < |KINDS| && KINDS[k] == kind
  {
    match kind case CloudOnly => 0 case MapOnly => 1 case Unobserved => 2 case Disagreement => 3
  }

  /** `a` is found before `b`: of an earlier kind, or of the same kind with its first
      block earlier. */
  predicate FoundBefore(a: Region, b: Region) {
    || Rank(a.kind) < Rank(b.kind)
    || (a.kind == b.kind && a.blocks != [] && b.blocks != [] && Earlier(a.blocks[0], b.blocks[0]))
  }

  /** The order the regions are found in, each led by its first block. */
  ghost predicate InOrder(regions: seq<Region>) {
    && (forall i :: 0 <= i < |regions| ==> Led(regions[i].blocks))
    && (forall i, j :: 0 <= i < j < |regions| ==> FoundBefore(regions[i], regions[j]))
  }

  ghost predicate AllRegions(job: Job, regions: seq<Region>)
    requires job.Valid()
  {
    forall i :: 0 <= i < |regions| ==> IsRegion(job, regions[i])
  }

  ghost predicate CoversKind(job: Job, regions: seq<Region>, kind: Kind)
    requires job.Valid()
  {
    forall b :: On(job.Blocks(kind), b) ==> Covered(regions, kind, b)
  }

  predicate Empty(mask: Raster<bool>, rows: nat, cols: nat)
    requires Shaped(mask, rows, cols)
  {
    forall r, c :: 0 <= r < rows && 0 <= c < cols ==> !mask[r][c]
  }

  /** Without a cell of the kind no block holds enough of them. */
  lemma EmptyHasNoBlocks(job: Job, kind: Kind, b: Block)
    requires job.Valid() && On(job.Blocks(kind), b)
    ensures !Empty(job.Mask(kind), job.grid.height, job.grid.width)
  {
    PoolCounts(job.Mask(kind), job.grid.height, job.grid.width, job.block, b);
    var cell :| cell in CellsIn(job.Mask(kind), job.block, {b});
  }

  lemma EmptyCovered(job: Job, kind: Kind)
    requires job.Valid() && Empty(job.Mask(kind), job.grid.height, job.grid.width)
    ensures CoversKind(job, [], kind)
  {
    forall b ensures !On(job.Blocks(kind), b) {
      if On(job.Blocks(kind), b) {
        EmptyHasNoBlocks(job, kind, b);
        assert false;
      }
    }
  }

  ghost predicate Made(kind: Kind, counts: Raster<nat>, tops: Heights, comps: seq<seq<Block>>, regions: seq<Region>) {
    && |regions| == |comps|
    && forall i :: 0 <= i < |comps| ==> regions[i] == MakeRegion(kind, counts, tops, comps[i])
  }

  lemma MadeAllRegions(job: Job, kind: Kind, comps: seq<seq<Block>>, regions: seq<Region>)
    requires job.Valid() && IsPartition(job.Blocks(kind), comps) && Made(kind, job.Counts(kind), job.Tops(), comps, regions)
    ensures AllRegions(job, regions)
  {
    forall i | 0 <= i < |regions| ensures IsRegion(job, regions[i]) {
      assert IsComponent(job.Blocks(kind), comps[i]);
      MadeIsRegion(job, kind, comps[i]);
    }
  }

  lemma MadeApart(kind: Kind, counts: Raster<nat>, tops: Heights, comps: seq<seq<Block>>, regions: seq<Region>)
    requires Disjoint(comps) && Made(kind, counts, tops, comps, regions)
    ensures Apart(regions)
  {
  }

  lemma MadeInOrder(kind: Kind, counts: Raster<nat>, tops: Heights, comps: seq<seq<Block>>, regions: seq<Region>)
    requires RowMajor(comps) && Made(kind, counts, tops, comps, regions)
    ensures InOrder(regions)
  {
    forall i | 0 <= i < |regions| ensures Led(regions[i].blocks) {
      assert regions[i].blocks == comps[i] && Led(comps[i]);
    }
    forall i, j | 0 <= i < j < |regions| ensures FoundBefore(regions[i], regions[j]) {
      assert Led(comps[i]) && Led(comps[j]) && Earlier(comps[i][0], comps[j][0]);
    }
  }

  lemma MadeCovers(job: Job, kind: Kind, comps: seq<seq<Block>>, regions: seq<Region>)
    requires job.Valid() && IsPartition(job.Blocks(kind), comps) && Made(kind, job.Counts(kind), job.Tops(), comps, regions)
    ensures CoversKind(job, regions, kind)
  {
  }

  method MakeRegions(kind: Kind, counts: Raster<nat>, tops: Heights, comps: seq<seq<Block>>) returns (regions: seq<Region>)
    ensures Made(kind, counts, tops, comps, regions)
  {
    regions := [];
    for i := 0 to |comps|
      invariant |regions| == i
      invariant forall j :: 0 <= j < i ==> regions[j] == MakeRegion(kind, counts, tops, comps[j])
    {
      regions := regions + [MakeRegion(kind, counts, tops, comps[i])];
    }
  }

  method FindRegions(job: Job, kind: Kind, tops: Heights) returns (regions: seq<Region>)
    requires job.Valid() && tops == job.Tops()
    ensures AllRegions(job, regions) && Apart(regions) && CoversKind(job, regions, kind) && InOrder(regions)
    ensures forall i :: 0 <= i < |regions| ==> regions[i].kind == kind
  {
    regions := [];
    var mask := job.Mask(kind);
    if Empty(mask, job.grid.height, job.grid.width) {
      EmptyCovered(job, kind);
      return;
    }
    var counts := job.Counts(kind);
    var comps := FindComponents(job.Blocks(kind), |counts|, PooledLength(job.grid.width, job.block));
    regions := MakeRegions(kind, counts, tops, comps);
    MadeAllRegions(job, kind, comps, regions);
    MadeApart(kind, counts, tops, comps, regions);
    MadeInOrder(kind, counts, tops, comps, regions);
    MadeCovers(job, kind, comps, regions);
  }

  // ---- Every kind ----

  /** The uncut list: the regions of every kind partition its blocks. */
  ghost predicate IsExtraction(job: Job, all: seq<Region>)
    requires job.Valid()
  {
    && AllRegions(job, all) && Apart(all)
    && forall kind :: CoversKind(job, all, kind)
  }

  lemma CoveredInSum(a: seq<Region>, b: seq<Region>, kind: Kind, x: Block)
    requires Covered(a, kind, x) || Covered(b, kind, x)
    ensures Covered(a + b, kind, x)
  {
    if Covered(a, kind, x) {
      var i :| 0 <= i < |a| && a[i].kind == kind && x in a[i].blocks;
      assert (a + b)[i] == a[i];
    } else {
      var i :| 0 <= i < |b| && b[i].kind == kind && x in b[i].blocks;
      assert (a + b)[|a| + i] == b[i];
    }
  }

  lemma SumIsApart(a: seq<Region>, b: seq<Region>, kind: Kind)
    requires Apart(a) && Apart(b)
    requires forall i :: 0 <= i < |a| ==> a[i].kind != kind
    requires forall i :: 0 <= i < |b| ==> b[i].kind == kind
    ensures Apart(a + b)
  {
  }

  lemma SumInOrder(a: seq<Region>, b: seq<Region>, kind: Kind)
    requires InOrder(a) && InOrder(b)
    requires forall i :: 0 <= i < |a| ==> Rank(a[i].kind) < Rank(kind)
    requires forall i :: 0 <= i < |b| ==> b[i].kind == kind
    ensures InOrder(a + b)
  {
    forall i, j | 0 <= i < j < |a + b| ensures FoundBefore((a + b)[i], (a + b)[j]) {
      if j < |a| {
        assert FoundBefore(a[i], a[j]);
      } else if i >= |a| {
        assert FoundBefore(b[i - |a|], b[j - |a|]);
      }
    }
  }

  lemma SumCovers(job: Job, a: seq<Region>, b: seq<Region>, kind: Kind)
    requires job.Valid() && (CoversKind(job, a, kind) || CoversKind(job, b, kind))
    ensures CoversKind(job, a + b, kind)
  {
    forall x | On(job.Blocks(kind), x) ensures Covered(a + b, kind, x) {
      CoveredInSum(a, b, kind, x);
    }
  }

  lemma SumRegions(job: Job, a: seq<Region>, b: seq<Region>)
    requires job.Valid() && AllRegions(job, a) && AllRegions(job, b)
    ensures AllRegions(job, a + b)
  {
  }

  /** What holds after the first `k` kinds. */
  ghost predicate Sofar(job: Job, all: seq<Region>, k: nat)
    requires job.Valid() && k <= |KINDS|
  {
    && AllRegions(job, all) && Apart(all)
    && (forall j :: 0 <= j < k ==> CoversKind(job, all, KINDS[j]))
    && InOrder(all) && (forall i :: 0 <= i < |all| ==> Rank(all[i].kind) < k)
  }

  lemma OneMoreKind(job: Job, all: seq<Region>, more: seq<Region>, k: nat)
    requires job.Valid() && k < |KINDS| && Sofar(job, all, k)
    requires AllRegions(job, more) && Apart(more) && CoversKind(job, more, KINDS[k]) && InOrder(more)
    requires forall i :: 0 <= i < |more| ==> more[i].kind == KINDS[k]
    ensures Sofar(job, all + more, k + 1)
  {
    SumRegions(job, all, more);
    assert Rank(KINDS[k]) == k;
    SumInOrder(all, more, KINDS[k]);
    SumIsApart(all, more, KINDS[k]);
    forall j | 0 <= j < k + 1 ensures CoversKind(job, all + more, KINDS[j]) {
      SumCovers(job, all, more, KINDS[j]);
    }
  }

  method FindAll(job: Job) returns (all: seq<Region>)
    requires job.Valid()
    ensures IsExtraction(job, all) && InOrder(all)
  {
    all := [];
    var tops := job.Tops();
    for k := 0 to |KINDS|
      invariant Sofar(job, all, k)
    {
      var more := FindRegions(job, KINDS[k], tops);
      OneMoreKind(job, all, more, k);
      all := all + more;
    }
    forall kind ensures CoversKind(job, all, kind) {
      assert kind == KINDS[0] || kind == KINDS[1] || kind == KINDS[2] || kind == KINDS[3];
    }
  }

  // ---- Cells are conserved ----

  function SumCells(all: seq<Region>, kind: Kind, n: nat): nat
    requires n <= |all|
  {
    if n == 0 then 0 else SumCells(all, kind, n - 1) + (if all[n - 1].kind == kind then all[n - 1].cells else 0)
  }

  ghost function BlocksOf(all: seq<Region>, kind: Kind, n: nat): set<Block>
    requires n <= |all|
  {
    if n == 0 then {} else BlocksOf(all, kind, n - 1) + (if all[n - 1].kind == kind then Elems(all[n - 1].blocks) else {})
  }

  lemma {:induction false} BlocksOfAre(all: seq<Region>, kind: Kind, n: nat, b: Block)
    requires n <= |all|
    ensures b in BlocksOf(all, kind, n) <==> exists i :: 0 <= i < n && all[i].kind == kind && b in all[i].blocks
  {
    if n > 0 {
      BlocksOfAre(all, kind, n - 1, b);
    }
  }

  /** The regions of one kind are counted over its mask. */
  ghost predicate Sized(all: seq<Region>, kind: Kind, mask: Raster<bool>, block: pos) {
    forall i :: 0 <= i < |all| && all[i].kind == kind ==> all[i].cells == |CellsIn(mask, block, Elems(all[i].blocks))|
  }

  lemma RegionsSized(job: Job, all: seq<Region>, kind: Kind)
    requires job.Valid() && AllRegions(job, all)
    ensures Sized(all, kind, job.Mask(kind), job.block)
  {
  }

  lemma ApartFromEarlier(all: seq<Region>, kind: Kind, n: nat)
    requires n < |all| && Apart(all) && all[n].kind == kind
    ensures BlocksOf(all, kind, n) !! Elems(all[n].blocks)
  {
    forall b: Block | b in BlocksOf(all, kind, n) ensures b !in all[n].blocks {
      BlocksOfAre(all, kind, n, b);
    }
  }

  lemma NoBlocksNoCells(mask: Raster<bool>, block: pos)
    ensures CellsIn(mask, block, {}) == {}
  {
  }

  lemma AddRegion(all: seq<Region>, kind: Kind, mask: Raster<bool>, block: pos, n: nat)
    requires n < |all| && Sized(all, kind, mask, block) && Apart(all) && all[n].kind == kind
    ensures |CellsIn(mask, block, BlocksOf(all, kind, n) + Elems(all[n].blocks))|
         == |CellsIn(mask, block, BlocksOf(all, kind, n))| + all[n].cells
  {
    ApartFromEarlier(all, kind, n);
    CellsSplit(mask, block, BlocksOf(all, kind, n), Elems(all[n].blocks));
  }

  lemma {:induction false} SumCellsAre(all: seq<Region>, kind: Kind, mask: Raster<bool>, block: pos, n: nat)
    requires n <= |all| && Sized(all, kind, mask, block) && Apart(all)
    ensures SumCells(all, kind, n) == |CellsIn(mask, block, BlocksOf(all, kind, n))|
  {
    if n == 0 {
      NoBlocksNoCells(mask, block);
    } else {
      var m := n - 1;
      SumCellsAre(all, kind, mask, block, m);
      if all[m].kind == kind {
        AddRegion(all, kind, mask, block, m);
        assert BlocksOf(all, kind, n) == BlocksOf(all, kind, m) + Elems(all[m].blocks);
      } else {
        assert BlocksOf(all, kind, n) == BlocksOf(all, kind, m);
      }
    }
  }

  /** Before the cut, the cells of a kind's regions are the cells of that kind in the
      blocks that hold enough of them: none lost, none counted twice. */
  lemma CellsAreConserved(job: Job, all: seq<Region>, kind: Kind)
    requires job.Valid() && IsExtraction(job, all)
    ensures SumCells(all, kind, |all|) == |CellsIn(job.Mask(kind), job.block, Trues(job.Blocks(kind)))|
  {
    RegionsSized(job, all, kind);
    SumCellsAre(all, kind, job.Mask(kind), job.block, |all|);
    BlocksOfAll(job, all, kind);
  }

  lemma BlocksOfAll(job: Job, all: seq<Region>, kind: Kind)
    requires job.Valid() && AllRegions(job, all) && CoversKind(job, all, kind)
    ensures BlocksOf(all, kind, |all|) == Trues(job.Blocks(kind))
  {
    forall b ensures b in BlocksOf(all, kind, |all|) <==> b in Trues(job.Blocks(kind)) {
      BlocksOfAre(all, kind, |all|, b);
      OnIsTrue(job.Blocks(kind), b);
      if i :| 0 <= i < |all| && all[i].kind == kind && b in all[i].blocks {
        assert IsRegion(job, all[i]) && b in Elems(all[i].blocks);
      }
    }
  }

  lemma OnIsTrue(blocks: Raster<bool>, b: Block)
    ensures On(blocks, b) <==> b in Trues(blocks)
  {
  }

  // ---- Scoring and ranking ----

  ghost predicate IsLargest(all: seq<Region>, kind: Kind, m: nat) {
    LargestOf(all, |all|, kind, m)
  }

  /** The greatest cell count of the kind among the first `n` regions, one of which has it. */
  ghost predicate LargestOf(all: seq<Region>, n: nat, kind: Kind, m: nat)
    requires n <= |all|
  {
    && (forall i :: 0 <= i < n && all[i].kind == kind ==> all[i].cells <= m)
    && exists i :: 0 <= i < n && all[i].kind == kind && all[i].cells == m
  }

  ghost predicate IsScored(all: seq<Region>) {
    forall i, m :: 0 <= i < |all| && m > 0 && IsLargest(all, all[i].kind, m) ==>
      all[i].score == Round4(all[i].cells as real / m as real)
  }

  /** The cells of the largest region of each kind. */
  method LargestPerKind(all: seq<Region>) returns (largest: map<Kind, nat>)
    ensures forall i :: 0 <= i < |all| ==> all[i].kind in largest
    ensures forall k :: k in largest ==> IsLargest(all, k, largest[k])
  {
    largest := map[];
    for i := 0 to |all|
      invariant forall j :: 0 <= j < i ==> all[j].kind in largest
      invariant forall k :: k in largest ==> LargestOf(all, i, k, largest[k])
    {
      var k := all[i].kind;
      var sofar := if k in largest then largest[k] else 0;
      var m := if sofar >= all[i].cells then sofar else all[i].cells;
      forall k' | k' in largest && k' != k ensures LargestOf(all, i + 1, k', largest[k']) {
        LargestStays(all, i, k', largest[k']);
      }
      LargestGrows(all, i, k, sofar, k in largest);
      largest := largest[k := m];
    }
  }

  method Score(all: seq<Region>) returns (scored: seq<Region>)
    requires Counted(all)
    ensures IsScored(scored) && SameButScores(all, scored)
  {
    var largest := LargestPerKind(all);
    scored := [];
    for i := 0 to |all|
      invariant |scored| == i
      invariant forall j :: 0 <= j < i ==> largest[all[j].kind] > 0
      invariant forall j :: 0 <= j < i ==>
                  scored[j] == all[j].(score := Round4(all[j].cells as real / largest[all[j].kind] as real))
    {
      assert IsLargest(all, all[i].kind, largest[all[i].kind]);
      scored := scored + [all[i].(score := Round4(all[i].cells as real / largest[all[i].kind] as real))];
    }
    forall i, m | 0 <= i < |all| && IsLargest(scored, scored[i].kind, m) ensures m == largest[all[i].kind] {
      SameLargest(all, scored, all[i].kind, largest[all[i].kind], m);
    }
  }

  /** Every region holds a cell. */
  ghost predicate Counted(all: seq<Region>) {
    forall i :: 0 <= i < |all| ==> all[i].cells >= 1
  }

  lemma RegionsCounted(job: Job, all: seq<Region>)
    requires job.Valid() && AllRegions(job, all)
    ensures Counted(all)
  {
  }

  lemma LargestStays(all: seq<Region>, i: nat, k: Kind, m: nat)
    requires i < |all| && LargestOf(all, i, k, m) && all[i].kind != k
    ensures LargestOf(all, i + 1, k, m)
  {
  }

  lemma LargestGrows(all: seq<Region>, i: nat, k: Kind, sofar: nat, had: bool)
    requires i < |all| && all[i].kind == k
    requires had ==> LargestOf(all, i, k, sofar)
    requires !had ==> sofar == 0 && forall j :: 0 <= j < i ==> all[j].kind != k
    ensures LargestOf(all, i + 1, k, if sofar >= all[i].cells then sofar else all[i].cells)
  {
  }

  lemma SameLargest(all: seq<Region>, scored: seq<Region>, k: Kind, m: nat, n: nat)
    requires |scored| == |all| && forall i :: 0 <= i < |all| ==> scored[i].kind == all[i].kind && scored[i].cells == all[i].cells
    requires IsLargest(all, k, m) && IsLargest(scored, k, n)
    ensures m == n
  {
  }

  function KeysOf(all: seq<Region>): (keys: seq<Key>)
    ensures |keys| == |all|
    ensures forall i :: 0 <= i < |all| ==> keys[i] == Key(all[i].score, all[i].cells)
  {
    seq(|all|, i requires 0 <= i < |all| => Key(all[i].score, all[i].cells))
  }

  function Picked(all: seq<Region>, order: seq<nat>): (picked: seq<Region>)
    requires forall i :: 0 <= i < |order| ==> order[i] < |all|
    ensures |picked| == |order| && forall i :: 0 <= i < |order| ==> picked[i] == all[order[i]]
  {
    seq(|order|, i requires 0 <= i < |order| => all[order[i]])
  }

  /** `regions` are the best of `all`, in the stable order of score and cells. */
  ghost predicate IsCut(regions: seq<Region>, all: seq<Region>, order: seq<nat>, maxRegions: nat) {
    && IsScored(all) && Lists(order, |all|) && Ordered(KeysOf(all), order)
    && |regions| == (if |all| <= maxRegions then |all| else maxRegions)
    && forall i :: 0 <= i < |regions| ==> regions[i] == all[order[i]]
  }

  /** Without heights none is measurable. */
  function NoHeights(height: nat, width: nat): (heights: Heights)
    ensures Shaped(heights, height, width)
  {
    seq(height, _ => seq(width, _ => None))
  }

  function JobOf(grid: MapGrid, cloud: Raster<bool>, heights: Option<Heights>, blockM: real, minCells: int): Job
    requires grid.geometry.resolution > 0.0
  {
    Job(grid, cloud, if heights.Some? then heights.value else NoHeights(grid.height, grid.width),
        BlockSize(blockM, grid.geometry.resolution), minCells)
  }

  /** Regions best first, at most `maxRegions`, out of the regions of every kind. */
  method ExtractRegions(grid: MapGrid, cloud: Raster<bool>, heights: Option<Heights>, blockM: real, minCells: int, maxRegions: nat)
    returns (regions: seq<Region>)
    requires grid.Valid() && JobOf(grid, cloud, heights, blockM, minCells).Valid()
    ensures exists all, order :: IsExtraction(JobOf(grid, cloud, heights, blockM, minCells), all) && InOrder(all)
                                && IsCut(regions, all, order, maxRegions)
  {
    var job := JobOf(grid, cloud, heights, blockM, minCells);
    var found := FindAll(job);
    RegionsCounted(job, found);
    var scored := Score(found);
    ScoringKeepsExtraction(job, found, scored);
    ScoringKeepsOrder(found, scored);
    var rank := Ranking(KeysOf(scored), |scored|);
    RankingIsStableSort(KeysOf(scored), |scored|);
    var sorted := Picked(scored, rank);
    regions := if |sorted| <= maxRegions then sorted else sorted[..maxRegions];
    assert IsCut(regions, scored, rank, maxRegions);
  }

  ghost predicate SameButScores(found: seq<Region>, scored: seq<Region>) {
    |scored| == |found| && forall i :: 0 <= i < |found| ==> scored[i] == found[i].(score := scored[i].score)
  }

  lemma ScoringKeepsRegions(job: Job, found: seq<Region>, scored: seq<Region>)
    requires job.Valid() && AllRegions(job, found) && SameButScores(found, scored)
    ensures AllRegions(job, scored)
  {
  }

  lemma ScoringKeepsCover(found: seq<Region>, scored: seq<Region>, kind: Kind, b: Block)
    requires SameButScores(found, scored) && Covered(found, kind, b)
    ensures Covered(scored, kind, b)
  {
  }

  lemma ScoringKeepsOrder(found: seq<Region>, scored: seq<Region>)
    requires SameButScores(found, scored) && InOrder(found)
    ensures InOrder(scored)
  {
    forall i | 0 <= i < |scored| ensures Led(scored[i].blocks) {
      assert Led(found[i].blocks);
    }
    forall i, j | 0 <= i < j < |scored| ensures FoundBefore(scored[i], scored[j]) {
      assert FoundBefore(found[i], found[j]);
    }
  }

  lemma ScoringKeepsExtraction(job: Job, found: seq<Region>, scored: seq<Region>)
    requires job.Valid() && IsExtraction(job, found) && SameButScores(found, scored)
    ensures IsExtraction(job, scored)
  {
    ScoringKeepsRegions(job, found, scored);
    forall kind, b | On(job.Blocks(kind), b) ensures Covered(scored, kind, b) {
      assert CoversKind(job, found, kind);
      ScoringKeepsCover(found, scored, kind, b);
    }
  }

  // ---- What the cut keeps ----

  ghost function Ones(all: seq<Region>): set<nat> {
    set i: nat | i < |all| && all[i].score == 1.0
  }

  lemma {:induction false} LargestExists(all: seq<Region>, i: nat, n: nat) returns (best: nat)
    requires i < n <= |all|
    ensures best < n && all[best].kind == all[i].kind
    ensures forall j :: 0 <= j < n && all[j].kind == all[i].kind ==> all[j].cells <= all[best].cells
    decreases n
  {
    if n == i + 1 {
      best := i;
      for k := 0 to n
        invariant best < n && all[best].kind == all[i].kind
        invariant forall j :: 0 <= j < k && all[j].kind == all[i].kind ==> all[j].cells <= all[best].cells
      {
        if all[k].kind == all[i].kind && all[k].cells > all[best].cells {
          best := k;
        }
      }
    } else {
      best := LargestExists(all, i, n - 1);
      if all[n - 1].kind == all[i].kind && all[n - 1].cells > all[best].cells {
        best := n - 1;
      }
    }
  }

  lemma LargestScoresOne(all: seq<Region>, best: nat)
    requires best < |all| && IsScored(all) && all[best].cells >= 1 && IsLargest(all, all[best].kind, all[best].cells)
    ensures all[best].score == 1.0
  {
    var m := all[best].cells;
    SelfQuotient(m as real);
    assert all[best].score == Round4(1.0);
    assert RoundHalfEven(10000.0) == 10000;
  }

  lemma ScoresAtMostOne(all: seq<Region>, i: nat, best: nat)
    requires i < |all| && best < |all| && IsScored(all) && all[best].kind == all[i].kind
    requires all[best].cells >= 1 && IsLargest(all, all[i].kind, all[best].cells)
    ensures all[i].score <= 1.0
  {
    var c, m := all[i].cells as real, all[best].cells as real;
    QuotientAtMostOne(c, m);
    RoundMonotone(c / m * 10000.0, 10000.0);
  }

  lemma QuotientAtMostOne(c: real, m: real)
    requires c <= m && m > 0.0
    ensures c / m <= 1.0
  {
  }

  lemma SelfQuotient(m: real)
    requires m > 0.0
    ensures m / m == 1.0
  {
  }

  lemma BestOfKind(all: seq<Region>, i: nat) returns (best: nat)
    requires Counted(all) && i < |all|
    ensures best < |all| && all[best].kind == all[i].kind && all[best].cells >= 1
    ensures IsLargest(all, all[i].kind, all[best].cells)
  {
    best := LargestExists(all, i, |all|);
  }

  /** Positions up to that of a region scoring 1 hold regions scoring 1. */
  lemma AheadScoreOne(all: seq<Region>, order: seq<nat>, p: nat, q: nat)
    requires Counted(all) && IsScored(all) && Ordered(KeysOf(all), order)
    requires q <= p < |order| && all[order[p]].score == 1.0
    ensures all[order[q]].score == 1.0
  {
    var i := order[q];
    var best := BestOfKind(all, i);
    ScoresAtMostOne(all, i, best);
    if q < p {
      assert Precedes(KeysOf(all), order[q], order[p]);
    }
  }

  lemma {:induction false} PrefixFits(order: seq<nat>, keys: seq<Key>, p: nat, s: set<nat>)
    requires p <= |order| && Ordered(keys, order) && forall q :: 0 <= q < p ==> order[q] in s
    ensures p <= |s|
  {
    if p > 0 {
      forall q | 0 <= q < p - 1 ensures order[q] in s - {order[p - 1]} {
        assert Precedes(keys, order[q], order[p - 1]);
      }
      PrefixFits(order, keys, p - 1, s - {order[p - 1]});
    }
  }

  /** Every kind that has a region keeps its largest one, as long as no more regions
      score 1 than the list may hold. */
  lemma EveryKindSurvives(regions: seq<Region>, all: seq<Region>, order: seq<nat>, maxRegions: nat, i: nat)
    requires Counted(all) && IsCut(regions, all, order, maxRegions)
    requires |Ones(all)| <= maxRegions && i < |all|
    ensures exists p :: 0 <= p < |regions| && regions[p].kind == all[i].kind
              && IsLargest(all, all[i].kind, regions[p].cells)
  {
    var best := BestOfKind(all, i);
    LargestScoresOne(all, best);
    assert best in order;
    var p :| 0 <= p < |order| && order[p] == best;
    forall q | 0 <= q < p + 1 ensures order[q] in Ones(all) {
      AheadScoreOne(all, order, p, q);
    }
    PrefixFits(order, KeysOf(all), p + 1, Ones(all));
    assert regions[p] == all[best];
  }

  /** The region of its kind that comes first in the order. */
  ghost predicate FirstOfKind(all: seq<Region>, best: nat) {
    && best < |all|
    && forall j :: 0 <= j < |all| && j != best && all[j].kind == all[best].kind ==> Precedes(KeysOf(all), best, j)
  }

  /** Every kind that has a region has a first one. */
  lemma {:induction false} SomeFirst(all: seq<Region>, i: nat, n: nat) returns (best: nat)
    requires i < n <= |all|
    ensures best < n && all[best].kind == all[i].kind
    ensures forall j :: 0 <= j < n && j != best && all[j].kind == all[best].kind ==> Precedes(KeysOf(all), best, j)
    decreases n
  {
    if exists j :: 0 <= j < n - 1 && all[j].kind == all[i].kind {
      var j: nat :| j < n - 1 && all[j].kind == all[i].kind;
      best := SomeFirst(all, j, n - 1);
      if all[n - 1].kind == all[i].kind && Precedes(KeysOf(all), n - 1, best) {
        best := n - 1;
      }
    } else {
      best := n - 1;
    }
  }

  /** It is the kind's largest. */
  lemma FirstIsLargest(all: seq<Region>, best: nat)
    requires Counted(all) && IsScored(all) && FirstOfKind(all, best)
    ensures IsLargest(all, all[best].kind, all[best].cells)
  {
    var top := BestOfKind(all, best);
    LargestScoresOne(all, top);
    ScoresAtMostOne(all, best, top);
  }

  ghost function Ahead(all: seq<Region>, best: nat): set<nat>
    requires best < |all|
  {
    set j: nat | j < |all| && Precedes(KeysOf(all), j, best)
  }

  ghost function Positions(order: seq<nat>, p: nat): set<nat>
    requires p <= |order|
  {
    set q | 0 <= q < p :: order[q]
  }

  lemma {:induction false} PositionsCount(keys: seq<Key>, order: seq<nat>, p: nat)
    requires p <= |order| && Ordered(keys, order)
    ensures |Positions(order, p)| == p
  {
    if p > 0 {
      PositionsCount(keys, order, p - 1);
      forall q | 0 <= q < p - 1 ensures order[q] != order[p - 1] {
        assert Precedes(keys, order[q], order[p - 1]);
      }
      assert Positions(order, p) == Positions(order, p - 1) + {order[p - 1]};
    } else {
      assert Positions(order, p) == {};
    }
  }

  /** As many regions are ahead of one as its place in the order says. */
  lemma AheadIsPlace(all: seq<Region>, order: seq<nat>, p: nat)
    requires Lists(order, |all|) && Ordered(KeysOf(all), order) && p < |order|
    ensures |Ahead(all, order[p])| == p
  {
    PositionsCount(KeysOf(all), order, p);
    forall j: nat ensures j in Ahead(all, order[p]) <==> j in Positions(order, p) {
      if j < |all| {
        assert j in order;
        var q :| 0 <= q < |order| && order[q] == j;
        assert q < p ==> Precedes(KeysOf(all), order[q], order[p]);
        assert p < q ==> Precedes(KeysOf(all), order[p], order[q]);
      }
    }
    assert Ahead(all, order[p]) == Positions(order, p);
  }

  lemma NotBefore(all: seq<Region>, best: nat, j: nat)
    requires FirstOfKind(all, best) && j < |all| && all[j].kind == all[best].kind
    ensures !Precedes(KeysOf(all), j, best)
  {
    if j != best {
      assert Precedes(KeysOf(all), best, j);
    }
  }

  /** A kind is in the cut list exactly when fewer regions than the list may hold come
      before the kind's first one, which is its largest. */
  lemma KindSurvivesIff(regions: seq<Region>, all: seq<Region>, order: seq<nat>, maxRegions: nat, best: nat)
    requires IsCut(regions, all, order, maxRegions) && FirstOfKind(all, best)
    ensures (exists p :: 0 <= p < |regions| && regions[p].kind == all[best].kind) <==> |Ahead(all, best)| < maxRegions
  {
    assert best in order;
    var p :| 0 <= p < |order| && order[p] == best;
    AheadIsPlace(all, order, p);
    if p < maxRegions {
      assert regions[p].kind == all[best].kind;
    }
    forall q | 0 <= q < |regions| && regions[q].kind == all[best].kind ensures p <= q {
      if q < p {
        NotBefore(all, best, order[q]);
        assert false;
      }
    }
  }

  // ---- Heights of regions ----

  /** Point `i` is inside the slice, on the grid, and in one of the blocks. */
  ghost predicate InRegion(job: Job, s: Slice, points: seq<T.Vec>, bs: seq<Block>, i: nat, r: int, c: int)
    requires job.Valid() && i < |points|
  {
    && InBounds(r, c, job.grid.height, job.grid.width) && Block(r / job.block, c / job.block) in bs
    && Lands(job.grid.geometry, s, points[i], r, c)
  }

  lemma RegionHasCell(job: Job, reg: Region) returns (cell: T.Cell)
    requires job.Valid() && IsRegion(job, reg)
    ensures InBounds(cell.row, cell.col, job.grid.height, job.grid.width)
    ensures InKind(job.grid, job.cloud, reg.kind, cell.row, cell.col)
    ensures Block(cell.row / job.block, cell.col / job.block) in reg.blocks
  {
    var cells := CellsIn(job.Mask(reg.kind), job.block, Elems(reg.blocks));
    cell :| cell in cells;
  }

  /** A region with structure has a measurable height: that of the highest point of
      the slice anywhere in its blocks. */
  lemma StructureHasHeight(job: Job, s: Slice, points: seq<T.Vec>, minPoints: int, reg: Region)
    requires job.Valid() && minPoints >= 1 && IsRegion(job, reg)
    requires IsBinned(job.grid, s, points, minPoints, job.cloud) && AreHeights(job.grid, s, points, job.heights)
    requires reg.kind.CloudOnly? || reg.kind.Disagreement?
    ensures reg.height.Some? && s.zMin <= reg.height.value <= s.zMax
    ensures exists i: nat, r, c :: i < |points| && InRegion(job, s, points, reg.blocks, i, r, c) && points[i].z == reg.height.value
    ensures forall i: nat, r, c :: i < |points| && InRegion(job, s, points, reg.blocks, i, r, c) ==> points[i].z <= reg.height.value
  {
    var cells := BlockCells(job.block, reg.blocks, |reg.blocks|);
    assert reg.blocks[..|reg.blocks|] == reg.blocks;
    var cell := RegionHasCell(job, reg);
    OccupiedCellHasHeight(job.grid, s, points, minPoints, job.cloud, job.heights, cell.row, cell.col);
    BlockCellsAre(job.block, reg.blocks, |reg.blocks|, cell);
    assert HeightAt(job.heights, cell).Some?;
    HighestPoint(job, s, points, reg);
    forall i: nat, r, c | i < |points| && InRegion(job, s, points, reg.blocks, i, r, c)
      ensures points[i].z <= reg.height.value
    {
      PointBelow(job, s, points, reg, i, r, c);
    }
  }

  lemma HighestPoint(job: Job, s: Slice, points: seq<T.Vec>, reg: Region)
    requires job.Valid() && IsRegion(job, reg) && AreHeights(job.grid, s, points, job.heights) && reg.height.Some?
    ensures exists i: nat, r, c :: i < |points| && InRegion(job, s, points, reg.blocks, i, r, c) && points[i].z == reg.height.value
  {
    var cells := BlockCells(job.block, reg.blocks, |reg.blocks|);
    var cell :| cell in cells && HeightAt(job.heights, cell) == reg.height;
    assert reg.blocks[..|reg.blocks|] == reg.blocks;
    BlockCellsAre(job.block, reg.blocks, |reg.blocks|, cell);
    assert TopsPoints(job.grid.geometry, s, points, |points|, cell.row, cell.col, job.heights[cell.row][cell.col]);
    var i: nat :| i < |points| && Lands(job.grid.geometry, s, points[i], cell.row, cell.col) && points[i].z == reg.height.value;
    assert InRegion(job, s, points, reg.blocks, i, cell.row, cell.col);
  }

  lemma PointBelow(job: Job, s: Slice, points: seq<T.Vec>, reg: Region, i: nat, r: int, c: int)
    requires job.Valid() && IsRegion(job, reg) && AreHeights(job.grid, s, points, job.heights)
    requires i < |points| && InRegion(job, s, points, reg.blocks, i, r, c)
    ensures reg.height.Some? && points[i].z <= reg.height.value
  {
    var cell := T.Cell(c, r);
    assert reg.blocks[..|reg.blocks|] == reg.blocks;
    BlockCellsAre(job.block, reg.blocks, |reg.blocks|, cell);
    assert TopsPoints(job.grid.geometry, s, points, |points|, r, c, job.heights[r][c]);
    assert HeightAt(job.heights, cell) == job.heights[r][c];
  }
}
