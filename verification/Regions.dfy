/** From a cell-by-cell disagreement to the regions a robot can act on: cells are
    pooled into blocks, blocks flood-filled into regions, regions ranked and cut. */
module Regions {
  import opened Wrappers
  import opened Rasters
  import opened Compare
  import opened Components
  import Rounding
  import Sorting
  import T = Transforms

  // ---- Kinds of disagreement ----

  datatype Kind = CloudOnly | MapOnly | Unobserved | Disagreement

  const KINDS := [CloudOnly, MapOnly, Unobserved, Disagreement]

  predicate InKind(grid: MapGrid, cloud: Raster<bool>, kind: Kind, r: int, c: int)
    requires grid.Valid() && Shaped(cloud, grid.height, grid.width) && InBounds(r, c, grid.height, grid.width)
  {
    match kind
    case CloudOnly => cloud[r][c] && grid.Free(r, c)
    case MapOnly => grid.Occupied(r, c) && !cloud[r][c]
    case Unobserved => grid.Free(r, c) && !cloud[r][c]
    case Disagreement => cloud[r][c] && grid.Unknown(r, c)
  }

  function KindMask(grid: MapGrid, cloud: Raster<bool>, kind: Kind): (mask: Raster<bool>)
    requires grid.Valid() && Shaped(cloud, grid.height, grid.width)
    ensures Shaped(mask, grid.height, grid.width)
    ensures forall r, c :: InBounds(r, c, grid.height, grid.width) ==> (mask[r][c] <==> InKind(grid, cloud, kind, r, c))
  {
    seq(grid.height, r requires 0 <= r < grid.height =>
      seq(grid.width, c requires 0 <= c < grid.width => InKind(grid, cloud, kind, r, c)))
  }

  /** No cell is of two kinds; the kinds with structure are the news over cells that
      are free or unknown; and a cell is of no kind exactly when both sides call it
      occupied, neither knows it, or the map observed it as neither free nor occupied. */
  lemma KindsAreDisjoint(grid: MapGrid, cloud: Raster<bool>, r: int, c: int, k: Kind, l: Kind)
    requires grid.Valid() && Shaped(cloud, grid.height, grid.width) && InBounds(r, c, grid.height, grid.width)
    ensures InKind(grid, cloud, k, r, c) && InKind(grid, cloud, l, r, c) ==> k == l
    ensures InKind(grid, cloud, CloudOnly, r, c) || InKind(grid, cloud, Disagreement, r, c) <==>
              New(grid, cloud, r, c) && !(grid.freeMax < grid.cells[r][c])
    ensures (forall j :: !InKind(grid, cloud, j, r, c)) <==>
              || (cloud[r][c] && grid.Occupied(r, c)) || (!cloud[r][c] && grid.Unknown(r, c))
              || grid.freeMax < grid.cells[r][c] < grid.occupiedMin
  {
    if cloud[r][c] {
      assert InKind(grid, cloud, CloudOnly, r, c) <==> grid.Free(r, c);
      assert InKind(grid, cloud, Disagreement, r, c) <==> grid.Unknown(r, c);
    } else {
      assert InKind(grid, cloud, MapOnly, r, c) <==> grid.Occupied(r, c);
      assert InKind(grid, cloud, Unobserved, r, c) <==> grid.Free(r, c);
    }
  }

  /** What a cell's value and the cloud's word on it have to be for each kind: cloud-only
      is structure where the map swept free, map-only a wall the cloud does not show,
      unobserved a free cell it says nothing of, disagreement structure over cells the
      map never saw. */
  predicate ByValue(kind: Kind, value: int, seen: bool, freeMax: int, occupiedMin: int) {
    match kind
    case CloudOnly => seen && 0 <= value <= freeMax
    case MapOnly => !seen && value >= occupiedMin
    case Unobserved => !seen && 0 <= value <= freeMax
    case Disagreement => seen && value < 0
  }

  lemma KindIsByValue(grid: MapGrid, cloud: Raster<bool>, kind: Kind, r: int, c: int)
    requires grid.Valid() && Shaped(cloud, grid.height, grid.width) && InBounds(r, c, grid.height, grid.width)
    ensures InKind(grid, cloud, kind, r, c) <==> ByValue(kind, grid.cells[r][c], cloud[r][c], grid.freeMax, grid.occupiedMin)
  {
  }

  // ---- Pooling ----

  /** A cell past the far edges, where the mask is padded with zeros, is unset. */
  predicate Padded(mask: Raster<bool>, r: int, c: int) {
    0 <= r < |mask| && 0 <= c < |mask[r]| && mask[r][c]
  }

  function RowCount(mask: Raster<bool>, r: int, c0: int, n: nat): nat {
    if n == 0 then 0 else RowCount(mask, r, c0, n - 1) + (if Padded(mask, r, c0 + n - 1) then 1 else 0)
  }

  /** The set cells of one padded window of `h` rows and `n` columns. */
  function WindowCount(mask: Raster<bool>, r0: int, c0: int, h: nat, n: nat): nat {
    if h == 0 then 0 else WindowCount(mask, r0, c0, h - 1, n) + RowCount(mask, r0 + h - 1, c0, n)
  }

  ghost function WindowCells(mask: Raster<bool>, r0: int, c0: int, h: nat, n: nat): set<T.Cell> {
    set r, c | r0 <= r < r0 + h && c0 <= c < c0 + n && Padded(mask, r, c) :: T.Cell(c, r)
  }

  lemma {:induction false} RowIsCounted(mask: Raster<bool>, r: int, c0: int, n: nat)
    ensures RowCount(mask, r, c0, n) == |WindowCells(mask, r, c0, 1, n)|
  {
    if n == 0 {
      assert WindowCells(mask, r, c0, 1, n) == {};
    } else {
      RowIsCounted(mask, r, c0, n - 1);
      var last := T.Cell(c0 + n - 1, r);
      assert WindowCells(mask, r, c0, 1, n)
          == WindowCells(mask, r, c0, 1, n - 1) + (if Padded(mask, last.row, last.col) then {last} else {});
    }
  }

  lemma {:induction false} WindowIsCounted(mask: Raster<bool>, r0: int, c0: int, h: nat, n: nat)
    ensures WindowCount(mask, r0, c0, h, n) == |WindowCells(mask, r0, c0, h, n)|
  {
    if h == 0 {
      assert WindowCells(mask, r0, c0, h, n) == {};
    } else {
      WindowIsCounted(mask, r0, c0, h - 1, n);
      RowIsCounted(mask, r0 + h - 1, c0, n);
      assert WindowCells(mask, r0, c0, h, n)
          == WindowCells(mask, r0, c0, h - 1, n) + WindowCells(mask, r0 + h - 1, c0, 1, n);
    }
  }

  /** Rows or columns of blocks: the length padded to whole blocks, over the block. */
  function PooledLength(length: nat, block: pos): nat {
    (length + (0 - length) % block) / block
  }

  lemma PaddingIsWhole(length: nat, block: pos)
    ensures PooledLength(length, block) * block == length + (0 - length) % block
    ensures (PooledLength(length, block) - 1) * block < length <= PooledLength(length, block) * block
  {
    var q := (0 - length) / block;
    assert 0 - length == q * block + (0 - length) % block;
    assert length + (0 - length) % block == -q * block;
    DivBlock(-q * block, block, -q);
  }

  /** Index `x` is in block `b` exactly when it lies in its window. */
  lemma DivBlock(x: int, block: pos, b: int)
    ensures x / block == b <==> b * block <= x < b * block + block
  {
    var q := x / block;
    assert q * block <= x < q * block + block;
    if b < q {
      assert (b + 1) * block <= q * block;
    } else if b > q {
      assert (q + 1) * block <= b * block;
    }
  }

  lemma LessByProduct(a: int, b: int, k: pos)
    requires a * k < b * k
    ensures a < b
  {
  }

  /** Every cell is in one of the pooled blocks. */
  lemma CellHasBlock(length: nat, block: pos, x: nat)
    requires x < length
    ensures 0 <= x / block < PooledLength(length, block)
  {
    assert length <= PooledLength(length, block) * block by {
      PaddingIsWhole(length, block);
    }
    assert (x / block) * block <= x by {
      DivBlock(x, block, x / block);
    }
    LessByProduct(x / block, PooledLength(length, block), block);
  }

  /** Set cells per block (`_pool`). */
  function Pool(mask: Raster<bool>, rows: nat, cols: nat, block: pos): (counts: Raster<nat>)
    requires Shaped(mask, rows, cols)
    ensures Shaped(counts, PooledLength(rows, block), PooledLength(cols, block))
    ensures forall r, c :: InBounds(r, c, PooledLength(rows, block), PooledLength(cols, block)) ==>
              counts[r][c] == WindowCount(mask, r * block, c * block, block, block)
  {
    seq(PooledLength(rows, block), r requires 0 <= r < PooledLength(rows, block) =>
      seq(PooledLength(cols, block), c requires 0 <= c < PooledLength(cols, block) =>
        WindowCount(mask, r * block, c * block, block, block)))
  }

  /** The set cells of a mask that lie in one of the blocks. */
  ghost function CellsIn(mask: Raster<bool>, block: pos, bs: set<Block>): set<T.Cell> {
    set r, c | 0 <= r < |mask| && 0 <= c < |mask[r]| && mask[r][c] && Block(r / block, c / block) in bs :: T.Cell(c, r)
  }

  lemma BlockIsWindow(mask: Raster<bool>, block: pos, b: Block)
    ensures CellsIn(mask, block, {b}) == WindowCells(mask, b.r * block, b.c * block, block, block)
  {
    forall cell ensures cell in CellsIn(mask, block, {b}) <==> cell in WindowCells(mask, b.r * block, b.c * block, block, block) {
      DivBlock(cell.row, block, b.r);
      DivBlock(cell.col, block, b.c);
      assert cell == T.Cell(cell.col, cell.row);
    }
  }

  ghost predicate Pooled(counts: Raster<nat>, mask: Raster<bool>, block: pos, b: Block) {
    && 0 <= b.r < |counts| && 0 <= b.c < |counts[b.r]|
    && counts[b.r][b.c] == |CellsIn(mask, block, {b})|
  }

  /** Padding adds nothing: a pooled count is the number of set cells of its block. */
  lemma PoolCounts(mask: Raster<bool>, rows: nat, cols: nat, block: pos, b: Block)
    requires Shaped(mask, rows, cols) && InBounds(b.r, b.c, PooledLength(rows, block), PooledLength(cols, block))
    ensures Pooled(Pool(mask, rows, cols, block), mask, block, b)
  {
    BlockIsWindow(mask, block, b);
    WindowIsCounted(mask, b.r * block, b.c * block, block, block);
  }

  predicate InRaster<X>(g: Raster<X>, b: Block) {
    0 <= b.r < |g| && 0 <= b.c < |g[b.r]|
  }

  function CountAt(counts: Raster<nat>, b: Block): nat {
    if InRaster(counts, b) then counts[b.r][b.c] else 0
  }

  /** The counts of the first `n` blocks of a list, added up. */
  function SumCounts(counts: Raster<nat>, bs: seq<Block>, n: nat): nat
    requires n <= |bs|
  {
    if n == 0 then 0 else SumCounts(counts, bs, n - 1) + CountAt(counts, bs[n - 1])
  }

  ghost function Firsts(bs: seq<Block>, n: nat): set<Block>
    requires n <= |bs|
  {
    set i | 0 <= i < n :: bs[i]
  }

  lemma FirstsGrow(bs: seq<Block>, n: nat)
    requires 0 < n <= |bs| && Distinct(bs)
    ensures Firsts(bs, n) == Firsts(bs, n - 1) + {bs[n - 1]} && bs[n - 1] !in Firsts(bs, n - 1)
  {
  }

  lemma FirstsAll(bs: seq<Block>)
    ensures Firsts(bs, |bs|) == Elems(bs)
  {
  }

  ghost predicate AllPooled(counts: Raster<nat>, mask: Raster<bool>, block: pos, bs: seq<Block>, n: nat)
    requires n <= |bs|
  {
    forall i :: 0 <= i < n ==> Pooled(counts, mask, block, bs[i])
  }

  /** Counts over distinct blocks add up to the set cells in those blocks. */
  lemma {:induction false} CountsAddCells(counts: Raster<nat>, mask: Raster<bool>, block: pos, bs: seq<Block>, n: nat)
    requires n <= |bs| && Distinct(bs) && AllPooled(counts, mask, block, bs, n)
    ensures SumCounts(counts, bs, n) == |CellsIn(mask, block, Firsts(bs, n))|
  {
    if n == 0 {
      assert CellsIn(mask, block, Firsts(bs, n)) == {};
    } else {
      CountsAddCells(counts, mask, block, bs, n - 1);
      FirstsGrow(bs, n);
      CellsSplit(mask, block, Firsts(bs, n - 1), {bs[n - 1]});
      assert Pooled(counts, mask, block, bs[n - 1]);
    }
  }

  lemma CellsSplit(mask: Raster<bool>, block: pos, a: set<Block>, b: set<Block>)
    requires a !! b
    ensures CellsIn(mask, block, a) !! CellsIn(mask, block, b)
    ensures |CellsIn(mask, block, a + b)| == |CellsIn(mask, block, a)| + |CellsIn(mask, block, b)|
  {
    assert CellsIn(mask, block, a + b) == CellsIn(mask, block, a) + CellsIn(mask, block, b);
  }

  /** Blocks that are all the blocks hold all the set cells. */
  lemma AllBlocksHoldAll(mask: Raster<bool>, rows: nat, cols: nat, block: pos, bs: set<Block>)
    requires Shaped(mask, rows, cols)
    requires forall b: Block :: InBounds(b.r, b.c, PooledLength(rows, block), PooledLength(cols, block)) ==> b in bs
    ensures CellsIn(mask, block, bs) == WindowCells(mask, 0, 0, rows, cols)
  {
    forall cell ensures cell in CellsIn(mask, block, bs) <==> cell in WindowCells(mask, 0, 0, rows, cols) {
      if InBounds(cell.row, cell.col, rows, cols) {
        CellHasBlock(rows, block, cell.row);
        CellHasBlock(cols, block, cell.col);
        assert Block(cell.row / block, cell.col / block) in bs;
      }
      assert cell == T.Cell(cell.col, cell.row);
    }
  }

  /** All pooled counts together are the population of the mask. */
  lemma PoolConservesCells(mask: Raster<bool>, rows: nat, cols: nat, block: pos, bs: seq<Block>)
    requires Shaped(mask, rows, cols) && Distinct(bs)
    requires forall b: Block :: b in bs <==> InBounds(b.r, b.c, PooledLength(rows, block), PooledLength(cols, block))
    ensures SumCounts(Pool(mask, rows, cols, block), bs, |bs|) == |WindowCells(mask, 0, 0, rows, cols)|
  {
    var counts := Pool(mask, rows, cols, block);
    PoolCountsAll(mask, rows, cols, block, bs);
    CountsAddCells(counts, mask, block, bs, |bs|);
    FirstsAll(bs);
    AllBlocksHoldAll(mask, rows, cols, block, Elems(bs));
  }

  lemma PoolCountsAll(mask: Raster<bool>, rows: nat, cols: nat, block: pos, bs: seq<Block>)
    requires Shaped(mask, rows, cols)
    requires forall i :: 0 <= i < |bs| ==> InBounds(bs[i].r, bs[i].c, PooledLength(rows, block), PooledLength(cols, block))
    ensures AllPooled(Pool(mask, rows, cols, block), mask, block, bs, |bs|)
  {
    forall i | 0 <= i < |bs| ensures Pooled(Pool(mask, rows, cols, block), mask, block, bs[i]) {
      PoolCounts(mask, rows, cols, block, bs[i]);
    }
  }

  /** Blocks that hold enough cells to count. */
  function Busy(counts: Raster<nat>, minCells: int): (blocks: Raster<bool>)
    ensures |blocks| == |counts| && forall r :: 0 <= r < |counts| ==> |blocks[r]| == |counts[r]|
    ensures forall b :: On(blocks, b) <==> InRaster(counts, b) && counts[b.r][b.c] >= minCells
  {
    seq(|counts|, r requires 0 <= r < |counts| =>
      seq(|counts[r]|, c requires 0 <= c < |counts[r]| => counts[r][c] >= minCells))
  }

  // ---- Heights ----

  type Heights = Raster<Option<real>>

  function Higher(a: Option<real>, b: Option<real>): Option<real> {
    if a.None? then b
    else if b.None? then a
    else if a.value >= b.value then a else b
  }

  /** Every point of the first `n` that lands in the cell is below `h`, and one is at
      `h`; None when no point lands there. */
  ghost predicate TopsPoints(geo: T.Geometry, s: Slice, points: seq<T.Vec>, n: nat, r: int, c: int, h: Option<real>)
    requires geo.resolution > 0.0 && n <= |points|
  {
    && (forall i :: 0 <= i < n && Lands(geo, s, points[i], r, c) ==> h.Some? && points[i].z <= h.value)
    && (h.Some? ==> exists i :: 0 <= i < n && Lands(geo, s, points[i], r, c) && points[i].z == h.value)
  }

  ghost predicate AreHeights(grid: MapGrid, s: Slice, points: seq<T.Vec>, heights: Heights)
    requires grid.Valid()
  {
    && Shaped(heights, grid.height, grid.width)
    && forall r, c :: InBounds(r, c, grid.height, grid.width) ==>
         TopsPoints(grid.geometry, s, points, |points|, r, c, heights[r][c])
  }

  lemma TopsOneMore(geo: T.Geometry, s: Slice, points: seq<T.Vec>, n: nat, r: int, c: int, h: Option<real>)
    requires geo.resolution > 0.0 && n < |points| && TopsPoints(geo, s, points, n, r, c, h)
    ensures !Lands(geo, s, points[n], r, c) ==> TopsPoints(geo, s, points, n + 1, r, c, h)
    ensures Lands(geo, s, points[n], r, c) ==> TopsPoints(geo, s, points, n + 1, r, c, Higher(h, Some(points[n].z)))
  {
  }

  /** Per-cell maximum height of the cloud within the slice. */
  method CellHeights(grid: MapGrid, s: Slice, points: seq<T.Vec>) returns (heights: Heights)
    requires grid.Valid()
    ensures AreHeights(grid, s, points, heights)
  {
    var acc := new Option<real>[grid.height, grid.width]((r, c) => None);
    for i := 0 to |points|
      invariant forall r, c :: InBounds(r, c, grid.height, grid.width) ==>
                  TopsPoints(grid.geometry, s, points, i, r, c, acc[r, c])
    {
      forall r, c | InBounds(r, c, grid.height, grid.width)
        ensures !Lands(grid.geometry, s, points[i], r, c) ==> TopsPoints(grid.geometry, s, points, i + 1, r, c, acc[r, c])
        ensures Lands(grid.geometry, s, points[i], r, c) ==>
                  TopsPoints(grid.geometry, s, points, i + 1, r, c, Higher(acc[r, c], Some(points[i].z)))
      {
        TopsOneMore(grid.geometry, s, points, i, r, c, acc[r, c]);
      }
      if s.zMin <= points[i].z <= s.zMax {
        var cell := grid.geometry.WorldToCell(points[i].x, points[i].y);
        if InBounds(cell.row, cell.col, grid.height, grid.width) {
          acc[cell.row, cell.col] := Higher(acc[cell.row, cell.col], Some(points[i].z));
        }
      }
    }
    heights := Rows(acc);
  }

  lemma {:induction false} HitLands(geo: T.Geometry, s: Slice, points: seq<T.Vec>, n: nat, r: int, c: int) returns (i: nat)
    requires geo.resolution > 0.0 && n <= |points| && Hits(geo, s, points, n, r, c) > 0
    ensures i < n && Lands(geo, s, points[i], r, c)
  {
    if Lands(geo, s, points[n - 1], r, c) {
      i := n - 1;
    } else {
      i := HitLands(geo, s, points, n - 1, r, c);
    }
  }

  /** A cell the cloud calls occupied has a height, and it is inside the slice. */
  lemma OccupiedCellHasHeight(grid: MapGrid, s: Slice, points: seq<T.Vec>, minPoints: int,
                              cloud: Raster<bool>, heights: Heights, r: int, c: int)
    requires grid.Valid() && minPoints >= 1 && InBounds(r, c, grid.height, grid.width)
    requires IsBinned(grid, s, points, minPoints, cloud) && AreHeights(grid, s, points, heights)
    requires cloud[r][c]
    ensures heights[r][c].Some? && s.zMin <= heights[r][c].value <= s.zMax
  {
    var i := HitLands(grid.geometry, s, points, |points|, r, c);
  }

  /** `h` is the greatest height among the cells that have one. */
  ghost predicate TopsCells(heights: Heights, cells: set<T.Cell>, h: Option<real>) {
    && (forall cell :: cell in cells && HeightAt(heights, cell).Some? ==> h.Some? && HeightAt(heights, cell).value <= h.value)
    && (h.Some? ==> exists cell :: cell in cells && HeightAt(heights, cell) == h)
  }

  /** A cell of the padding has no height. */
  function HeightAt(heights: Heights, cell: T.Cell): Option<real> {
    if 0 <= cell.row < |heights| && 0 <= cell.col < |heights[cell.row]| then heights[cell.row][cell.col] else None
  }

  lemma TopsUnion(heights: Heights, a: set<T.Cell>, b: set<T.Cell>, h: Option<real>, k: Option<real>)
    requires TopsCells(heights, a, h) && TopsCells(heights, b, k)
    ensures TopsCells(heights, a + b, Higher(h, k))
  {
  }

  function RowTop(heights: Heights, r: int, c0: int, n: nat): Option<real> {
    if n == 0 then None else Higher(RowTop(heights, r, c0, n - 1), HeightAt(heights, T.Cell(c0 + n - 1, r)))
  }

  function WindowTop(heights: Heights, r0: int, c0: int, h: nat, n: nat): Option<real> {
    if h == 0 then None else Higher(WindowTop(heights, r0, c0, h - 1, n), RowTop(heights, r0 + h - 1, c0, n))
  }

  /** Every cell of a window, padding included. */
  ghost function AllCells(r0: int, c0: int, h: nat, n: nat): set<T.Cell> {
    set r, c | r0 <= r < r0 + h && c0 <= c < c0 + n :: T.Cell(c, r)
  }

  lemma {:induction false} RowTopsCells(heights: Heights, r: int, c0: int, n: nat)
    ensures TopsCells(heights, AllCells(r, c0, 1, n), RowTop(heights, r, c0, n))
  {
    if n == 0 {
      assert AllCells(r, c0, 1, n) == {};
    } else {
      RowTopsCells(heights, r, c0, n - 1);
      var last := T.Cell(c0 + n - 1, r);
      assert AllCells(r, c0, 1, n) == AllCells(r, c0, 1, n - 1) + {last};
      assert last in {last};
      TopsUnion(heights, AllCells(r, c0, 1, n - 1), {last}, RowTop(heights, r, c0, n - 1), HeightAt(heights, last));
    }
  }

  lemma {:induction false} WindowTopsCells(heights: Heights, r0: int, c0: int, h: nat, n: nat)
    ensures TopsCells(heights, AllCells(r0, c0, h, n), WindowTop(heights, r0, c0, h, n))
  {
    if h == 0 {
      assert AllCells(r0, c0, h, n) == {};
    } else {
      WindowTopsCells(heights, r0, c0, h - 1, n);
      RowTopsCells(heights, r0 + h - 1, c0, n);
      assert AllCells(r0, c0, h, n) == AllCells(r0, c0, h - 1, n) + AllCells(r0 + h - 1, c0, 1, n);
      TopsUnion(heights, AllCells(r0, c0, h - 1, n), AllCells(r0 + h - 1, c0, 1, n),
                WindowTop(heights, r0, c0, h - 1, n), RowTop(heights, r0 + h - 1, c0, n));
    }
  }

  /** Maximum per block, None where a block has no height (`_pool_max`). */
  function PoolMax(heights: Heights, rows: nat, cols: nat, block: pos): (tops: Heights)
    requires Shaped(heights, rows, cols)
    ensures Shaped(tops, PooledLength(rows, block), PooledLength(cols, block))
    ensures forall r, c :: InBounds(r, c, PooledLength(rows, block), PooledLength(cols, block)) ==>
              tops[r][c] == WindowTop(heights, r * block, c * block, block, block)
  {
    seq(PooledLength(rows, block), r requires 0 <= r < PooledLength(rows, block) =>
      seq(PooledLength(cols, block), c requires 0 <= c < PooledLength(cols, block) =>
        WindowTop(heights, r * block, c * block, block, block)))
  }

  /** Every cell of some blocks, padding included. */
  ghost function BlockCells(block: pos, bs: seq<Block>, n: nat): set<T.Cell>
    requires n <= |bs|
  {
    if n == 0 then {} else BlockCells(block, bs, n - 1) + AllCells(bs[n - 1].r * block, bs[n - 1].c * block, block, block)
  }

  lemma {:induction false} BlockCellsAre(block: pos, bs: seq<Block>, n: nat, cell: T.Cell)
    requires n <= |bs|
    ensures cell in BlockCells(block, bs, n) <==> Block(cell.row / block, cell.col / block) in bs[..n]
  {
    if n > 0 {
      BlockCellsAre(block, bs, n - 1, cell);
      var last := bs[n - 1];
      DivBlock(cell.row, block, last.r);
      DivBlock(cell.col, block, last.c);
      assert bs[..n] == bs[..n - 1] + [last];
      assert cell == T.Cell(cell.col, cell.row);
    }
  }

  function TopAt(tops: Heights, b: Block): Option<real> {
    if InRaster(tops, b) then tops[b.r][b.c] else None
  }

  function TopOf(tops: Heights, bs: seq<Block>, n: nat): Option<real>
    requires n <= |bs|
  {
    if n == 0 then None else Higher(TopOf(tops, bs, n - 1), TopAt(tops, bs[n - 1]))
  }

  lemma {:induction false} TopOfTopsCells(heights: Heights, rows: nat, cols: nat, block: pos, bs: seq<Block>, n: nat)
    requires n <= |bs| && Shaped(heights, rows, cols)
    requires forall i :: 0 <= i < n ==> InRaster(PoolMax(heights, rows, cols, block), bs[i])
    ensures TopsCells(heights, BlockCells(block, bs, n), TopOf(PoolMax(heights, rows, cols, block), bs, n))
  {
    if n > 0 {
      TopOfTopsCells(heights, rows, cols, block, bs, n - 1);
      var b := bs[n - 1];
      assert InRaster(PoolMax(heights, rows, cols, block), b);
      WindowTopsCells(heights, b.r * block, b.c * block, block, block);
      TopsUnion(heights, BlockCells(block, bs, n - 1), AllCells(b.r * block, b.c * block, block, block),
                TopOf(PoolMax(heights, rows, cols, block), bs, n - 1), WindowTop(heights, b.r * block, b.c * block, block, block));
    }
  }
}
