/** The occupancy grid: three cell classes, the smallest-rectangle diff, and the
    asymmetric merge both ends of the link run. */
module Occupancy {
  import opened Wrappers
  import opened Rasters

  const UNKNOWN := -1

  datatype MapError = UnsupportedMerge | ShapeMismatch

  datatype Merge = Max | Replace | Other(name: string)

  /** A patch, at an offset that may be negative or hang over the far edge. */
  datatype Patch = Patch(cells: Raster<int>, height: nat, width: nat, x0: int, y0: int) {
    predicate WellFormed() {
      Shaped(cells, height, width)
    }

    predicate Covers(r: int, c: int) {
      InBounds(r - y0, c - x0, height, width)
    }

    function At(r: int, c: int): int
      requires WellFormed() && Covers(r, c)
    {
      cells[r - y0][c - x0]
    }
  }

  // ---- Merging ----

  function MergeCell(merge: Merge, target: int, source: int): int {
    if merge.Replace? then source
    else if source >= 0 && source > target then source else target
  }

  function CellAfter(merge: Merge, before: int, p: Patch, r: int, c: int): int
    requires p.WellFormed()
  {
    if p.Covers(r, c) then MergeCell(merge, before, p.At(r, c)) else before
  }

  /** The whole grid after merging one patch. */
  function Merged(merge: Merge, g: Raster<int>, p: Patch): (after: Raster<int>)
    requires p.WellFormed()
    ensures |after| == |g|
    ensures forall r :: 0 <= r < |g| ==> |after[r]| == |g[r]|
    ensures forall r, c :: 0 <= r < |g| && 0 <= c < |g[r]| ==> after[r][c] == CellAfter(merge, g[r][c], p, r, c)
  {
    seq(|g|, r requires 0 <= r < |g| =>
      seq(|g[r]|, c requires 0 <= c < |g[r]| => CellAfter(merge, g[r][c], p, r, c)))
  }

  /** The cells that differ between two rasters of one shape. */
  ghost function Changed(before: Raster<int>, after: Raster<int>, height: nat, width: nat): set<(int, int)>
    requires Shaped(before, height, width) && Shaped(after, height, width)
  {
    set r, c | 0 <= r < height && 0 <= c < width && before[r][c] != after[r][c] :: (r, c)
  }

  class Grid {
    var cells: array2<int>

    constructor (height: nat, width: nat, rows: Raster<int>)
      requires Shaped(rows, height, width)
      ensures fresh(cells) && Rows(cells) == rows && cells.Length0 == height && cells.Length1 == width
    {
      cells := new int[height, width]((r, c) requires 0 <= r < height && 0 <= c < width => rows[r][c]);
      new;
      SameCells(Rows(cells), rows, height, width);
    }
  }

  function AtLeast0(x: int): nat { if x > 0 then x else 0 }

  function Min(a: int, b: int): int { if a < b then a else b }

  lemma Untouched(merge: Merge, g: Raster<int>, p: Patch, height: nat, width: nat)
    requires p.WellFormed() && Shaped(g, height, width)
    requires forall r, c :: InBounds(r, c, height, width) ==> !p.Covers(r, c)
    ensures Merged(merge, g, p) == g && Changed(g, g, height, width) == {}
  {
    SameCells(Merged(merge, g, p), g, height, width);
  }

  /** Merging the patch changes this cell. */
  ghost predicate Moves(merge: Merge, before: Raster<int>, p: Patch, height: nat, width: nat, rc: (int, int))
    requires p.WellFormed() && Shaped(before, height, width)
  {
    && InBounds(rc.0, rc.1, height, width) && p.Covers(rc.0, rc.1)
    && MergeCell(merge, before[rc.0][rc.1], p.At(rc.0, rc.1)) != before[rc.0][rc.1]
  }

  /** Writing the clipped window of the patch is merging the patch. */
  lemma WindowMerged(merge: Merge, before: Raster<int>, p: Patch, height: nat, width: nat,
                     after: Raster<int>, differ: set<(int, int)>)
    requires p.WellFormed() && Shaped(before, height, width) && Shaped(after, height, width)
    requires forall r, c :: InBounds(r, c, height, width) ==> after[r][c] == CellAfter(merge, before[r][c], p, r, c)
    requires forall rc :: rc in differ <==> Moves(merge, before, p, height, width, rc)
    ensures after == Merged(merge, before, p)
    ensures differ == Changed(before, after, height, width)
  {
    SameCells(after, Merged(merge, before, p), height, width);
    forall rc ensures rc in differ <==> rc in Changed(before, after, height, width) {
      if InBounds(rc.0, rc.1, height, width) {
        assert rc in Changed(before, after, height, width) <==> before[rc.0][rc.1] != after[rc.0][rc.1];
      }
    }
  }

  /** The part of the patch that lands in the grid, as both ends clip it. */
  datatype Window = Window(sx0: nat, sy0: nat, dx0: nat, dy0: nat, dx1: int, dy1: int) {
    predicate Has(r: int, c: int) {
      dy0 <= r < dy1 && dx0 <= c < dx1
    }
  }

  predicate Clips(w: Window, p: Patch, height: nat, width: nat) {
    && w == Window(AtLeast0(-p.x0), AtLeast0(-p.y0), AtLeast0(p.x0), AtLeast0(p.y0),
                   Min(width, p.x0 + p.width), Min(height, p.y0 + p.height))
  }

  method StoreWindow(target: array2<int>, patch: Patch, merge: Merge, w: Window)
    requires patch.WellFormed() && Clips(w, patch, target.Length0, target.Length1)
    modifies target
    ensures forall r, c :: InBounds(r, c, target.Length0, target.Length1) ==>
              target[r, c] == CellAfter(merge, old(target[r, c]), patch, r, c)
  {
    forall r, c | w.dy0 <= r < w.dy1 && w.dx0 <= c < w.dx1 {
      target[r, c] := MergeCell(merge, target[r, c], patch.cells[w.sy0 + (r - w.dy0)][w.sx0 + (c - w.dx0)]);
    }
    forall r, c | InBounds(r, c, target.Length0, target.Length1)
      ensures target[r, c] == CellAfter(merge, old(target[r, c]), patch, r, c)
    {
      assert patch.Covers(r, c) <==> w.Has(r, c);
      if w.Has(r, c) {
        assert w.sy0 + (r - w.dy0) == r - patch.y0 && w.sx0 + (c - w.dx0) == c - patch.x0;
      }
    }
  }

  /** Count the cells of the window that change, then write it. */
  method WriteWindow(target: array2<int>, patch: Patch, merge: Merge, w: Window) returns (changed: nat)
    requires patch.WellFormed() && Clips(w, patch, target.Length0, target.Length1)
    modifies target
    ensures Rows(target) == Merged(merge, old(Rows(target)), patch)
    ensures changed == |Changed(old(Rows(target)), Rows(target), target.Length0, target.Length1)|
  {
    ghost var before := Rows(target);
    var differ := CountWindow(target, patch, merge, w);
    StoreWindow(target, patch, merge, w);
    WindowMerged(merge, before, patch, target.Length0, target.Length1, Rows(target), differ);
    changed := |differ|;
  }

  method CountWindow(target: array2<int>, patch: Patch, merge: Merge, w: Window) returns (differ: set<(int, int)>)
    requires patch.WellFormed() && Clips(w, patch, target.Length0, target.Length1)
    ensures forall rc :: rc in differ <==> Moves(merge, Rows(target), patch, target.Length0, target.Length1, rc)
  {
    differ := set r, c | w.dy0 <= r < w.dy1 && w.dx0 <= c < w.dx1
      && MergeCell(merge, target[r, c], patch.cells[w.sy0 + (r - w.dy0)][w.sx0 + (c - w.dx0)]) != target[r, c] :: (r, c);
    forall rc ensures rc in differ <==> Moves(merge, Rows(target), patch, target.Length0, target.Length1, rc) {
      assert rc == (rc.0, rc.1);
      assert w.sy0 + (rc.0 - w.dy0) == rc.0 - patch.y0 && w.sx0 + (rc.1 - w.dx0) == rc.1 - patch.x0;
    }
  }

  /** The server's merge, in place; an unsupported mode is refused. */
  method ApplyPatch(grid: Grid, patch: Patch, merge: Merge) returns (changed: Result<nat, MapError>)
    requires patch.WellFormed()
    modifies grid.cells
    ensures merge.Other? ==> changed == Err(UnsupportedMerge) && Rows(grid.cells) == old(Rows(grid.cells))
    ensures !merge.Other? ==> Rows(grid.cells) == Merged(merge, old(Rows(grid.cells)), patch)
    ensures !merge.Other? ==>
              changed == Ok(|Changed(old(Rows(grid.cells)), Rows(grid.cells), grid.cells.Length0, grid.cells.Length1)|)
  {
    if merge.Other? {
      return Err(UnsupportedMerge);
    }
    var x0, y0 := patch.x0, patch.y0;
    var x1, y1 := x0 + patch.width, y0 + patch.height;
    var sx0, sy0 := AtLeast0(-x0), AtLeast0(-y0);
    var dx0, dy0 := AtLeast0(x0), AtLeast0(y0);
    var dx1, dy1 := Min(grid.cells.Length1, x1), Min(grid.cells.Length0, y1);
    if dx1 <= dx0 || dy1 <= dy0 {
      Untouched(merge, Rows(grid.cells), patch, grid.cells.Length0, grid.cells.Length1);
      return Ok(0);
    }
    var n := WriteWindow(grid.cells, patch, merge, Window(sx0, sy0, dx0, dy0, dx1, dy1));
    return Ok(n);
  }

  /** The client's merge, in place; every mode but replace merges by maximum. */
  method MergeMapPatch(grid: array2<int>, patch: Patch, merge: Merge) returns (changed: nat)
    requires patch.WellFormed()
    modifies grid
    ensures Rows(grid) == Merged(merge, old(Rows(grid)), patch)
    ensures changed == |Changed(old(Rows(grid)), Rows(grid), grid.Length0, grid.Length1)|
  {
    var sx0, sy0 := AtLeast0(-patch.x0), AtLeast0(-patch.y0);
    var dx0, dy0 := AtLeast0(patch.x0), AtLeast0(patch.y0);
    var dx1, dy1 := Min(grid.Length1, patch.x0 + patch.width), Min(grid.Length0, patch.y0 + patch.height);
    if dx1 <= dx0 || dy1 <= dy0 {
      Untouched(merge, Rows(grid), patch, grid.Length0, grid.Length1);
      return 0;
    }
    changed := WriteWindow(grid, patch, merge, Window(sx0, sy0, dx0, dy0, dx1, dy1));
  }

  // ---- Merging many patches by maximum ----

  function MergedAll(g: Raster<int>, ps: seq<Patch>): (after: Raster<int>)
    requires forall p :: p in ps ==> p.WellFormed()
    ensures |after| == |g| && forall r :: 0 <= r < |g| ==> |after[r]| == |g[r]|
  {
    if ps == [] then g else Merged(Max, MergedAll(g, ps[..|ps| - 1]), ps[|ps| - 1])
  }

  /** `p` says something about the cell: it covers it with a known value. */
  ghost predicate Opines(p: Patch, r: int, c: int, v: int) {
    p.WellFormed() && p.Covers(r, c) && p.At(r, c) == v && v >= 0
  }

  /** `v` is the least value at or above the old cell and every opinion on it. */
  ghost predicate IsTop(before: int, ps: seq<Patch>, r: int, c: int, v: int) {
    && v >= before
    && (forall p, w :: p in ps && Opines(p, r, c, w) ==> v >= w)
    && (v == before || exists p :: p in ps && Opines(p, r, c, v))
  }

  lemma {:induction false} MergedAllIsTop(g: Raster<int>, ps: seq<Patch>, r: int, c: int)
    requires forall p :: p in ps ==> p.WellFormed()
    requires 0 <= r < |g| && 0 <= c < |g[r]|
    ensures IsTop(g[r][c], ps, r, c, MergedAll(g, ps)[r][c])
  {
    if ps != [] {
      var init, last := ps[..|ps| - 1], ps[|ps| - 1];
      MergedAllIsTop(g, init, r, c);
      var v, v' := MergedAll(g, init)[r][c], MergedAll(g, ps)[r][c];
      assert ps == init + [last];
      assert v' == CellAfter(Max, v, last, r, c);
      if v' != v {
        assert Opines(last, r, c, v');
      } else if v != g[r][c] {
        var p :| p in init && Opines(p, r, c, v);
        assert p in ps;
      }
    }
  }

  /** The merged grid depends on which patches were merged, not on their order nor
      on how often each was. */
  lemma MergeOrderIrrelevant(g: Raster<int>, height: nat, width: nat, ps: seq<Patch>, qs: seq<Patch>)
    requires Shaped(g, height, width)
    requires forall p :: p in ps ==> p.WellFormed()
    requires forall p :: p in ps <==> p in qs
    ensures MergedAll(g, ps) == MergedAll(g, qs)
  {
    forall r, c | InBounds(r, c, height, width) ensures MergedAll(g, ps)[r][c] == MergedAll(g, qs)[r][c] {
      MergedAllIsTop(g, ps, r, c);
      MergedAllIsTop(g, qs, r, c);
    }
    SameCells(MergedAll(g, ps), MergedAll(g, qs), height, width);
  }

  /** No sequence of patches lowers a cell or makes an observed one unknown. */
  lemma MergeOnlyAdds(g: Raster<int>, ps: seq<Patch>, r: int, c: int)
    requires forall p :: p in ps ==> p.WellFormed()
    requires 0 <= r < |g| && 0 <= c < |g[r]|
    ensures MergedAll(g, ps)[r][c] >= g[r][c]
    ensures g[r][c] >= 0 ==> MergedAll(g, ps)[r][c] >= 0
  {
  }

  // ---- The smallest patch carrying a difference ----

  /** Index of the first true element (`np.flatnonzero(b)[0]`). */
  function FirstTrue(b: seq<bool>): (i: nat)
    requires true in b
    ensures i < |b| && b[i] && forall k :: 0 <= k < i ==> !b[k]
  {
    if b[0] then 0 else 1 + FirstTrue(b[1..])
  }

  /** Index of the last true element (`np.flatnonzero(b)[-1]`). */
  function LastTrue(b: seq<bool>): (i: nat)
    requires true in b
    ensures i < |b| && b[i] && forall k :: i < k < |b| ==> !b[k]
  {
    var n := |b| - 1;
    if b[n] then n else LastTrue(b[..n])
  }

  predicate Differ(base: Raster<int>, updated: Raster<int>, r: int, c: int) {
    0 <= r < |base| && 0 <= c < |base[r]| && r < |updated| && c < |updated[r]| && updated[r][c] != base[r][c]
  }

  ghost predicate RowDiffers(base: Raster<int>, updated: Raster<int>, r: int) {
    exists c :: Differ(base, updated, r, c)
  }

  ghost predicate ColDiffers(base: Raster<int>, updated: Raster<int>, c: int) {
    exists r :: Differ(base, updated, r, c)
  }

  /** `diff.any(axis=1)`. */
  function RowsDiffer(base: Raster<int>, updated: Raster<int>, height: nat, width: nat): (b: seq<bool>)
    requires Shaped(base, height, width) && Shaped(updated, height, width)
    ensures |b| == height && forall r :: 0 <= r < height ==> (b[r] <==> RowDiffers(base, updated, r))
  {
    seq(height, r requires 0 <= r < height => exists c :: 0 <= c < width && Differ(base, updated, r, c))
  }

  /** `diff.any(axis=0)`. */
  function ColsDiffer(base: Raster<int>, updated: Raster<int>, height: nat, width: nat): (b: seq<bool>)
    requires Shaped(base, height, width) && Shaped(updated, height, width)
    ensures |b| == width && forall c :: 0 <= c < width ==> (b[c] <==> ColDiffers(base, updated, c))
  {
    seq(width, c requires 0 <= c < width => exists r :: 0 <= r < height && Differ(base, updated, r, c))
  }

  /** The bounding box of the changes, unchanged cells inside it unknown; None when
      nothing changed.  `gx0`, `gy0` are the base grid's own offset. */
  function PatchFromDiff(base: Raster<int>, height: nat, width: nat, gx0: int, gy0: int,
                         updated: Raster<int>, uHeight: nat, uWidth: nat): Result<Option<Patch>, MapError>
    requires Shaped(base, height, width) && Shaped(updated, uHeight, uWidth)
  {
    if height != uHeight || width != uWidth then Err(ShapeMismatch)
    else
      var rows, cols := RowsDiffer(base, updated, height, width), ColsDiffer(base, updated, height, width);
      if true !in rows then Ok(None)
      else
        AnyRowAnyColumn(base, updated, height, width);
        var r0, r1 := FirstTrue(rows), LastTrue(rows) + 1;
        var c0, c1 := FirstTrue(cols), LastTrue(cols) + 1;
        Ok(Some(Patch(DiffWindow(base, updated, height, width, r0, r1, c0, c1), r1 - r0, c1 - c0, c0 + gx0, r0 + gy0)))
  }

  function DiffWindow(base: Raster<int>, updated: Raster<int>, height: nat, width: nat,
                   r0: nat, r1: nat, c0: nat, c1: nat): (w: Raster<int>)
    requires Shaped(base, height, width) && Shaped(updated, height, width)
    requires r0 <= r1 <= height && c0 <= c1 <= width
    ensures Shaped(w, r1 - r0, c1 - c0)
    ensures forall i, j :: 0 <= i < r1 - r0 && 0 <= j < c1 - c0 ==>
              w[i][j] == if updated[r0 + i][c0 + j] != base[r0 + i][c0 + j] then updated[r0 + i][c0 + j] else UNKNOWN
  {
    seq(r1 - r0, i requires 0 <= i < r1 - r0 =>
      seq(c1 - c0, j requires 0 <= j < c1 - c0 =>
        if updated[r0 + i][c0 + j] != base[r0 + i][c0 + j] then updated[r0 + i][c0 + j] else UNKNOWN))
  }

  lemma AnyRowAnyColumn(base: Raster<int>, updated: Raster<int>, height: nat, width: nat)
    requires Shaped(base, height, width) && Shaped(updated, height, width)
    ensures true in RowsDiffer(base, updated, height, width) <==> updated != base
    ensures true in ColsDiffer(base, updated, height, width) <==> updated != base
  {
    var rows, cols := RowsDiffer(base, updated, height, width), ColsDiffer(base, updated, height, width);
    if r, c :| Differ(base, updated, r, c) {
      assert RowDiffers(base, updated, r) && ColDiffers(base, updated, c);
      assert rows[r] && cols[c];
    } else {
      forall r, c | InBounds(r, c, height, width) ensures updated[r][c] == base[r][c] {
        assert !Differ(base, updated, r, c);
      }
      SameCells(updated, base, height, width);
    }
  }

  /** Nothing changed exactly when no patch is made; otherwise the patch carries
      every change and nothing else, in a box each side of which touches a change. */
  lemma PatchIsSmallest(base: Raster<int>, height: nat, width: nat, updated: Raster<int>)
    requires Shaped(base, height, width) && Shaped(updated, height, width)
    ensures PatchFromDiff(base, height, width, 0, 0, updated, height, width) == Ok(None) <==> updated == base
    ensures updated != base ==> exists p: Patch ::
              && PatchFromDiff(base, height, width, 0, 0, updated, height, width) == Ok(Some(p))
              && Carries(p, base, updated, height, width)
  {
    AnyRowAnyColumn(base, updated, height, width);
    if updated != base {
      var p := PatchFromDiff(base, height, width, 0, 0, updated, height, width).value.value;
      BoxCarries(p, base, updated, height, width);
    }
  }

  /** What a smallest patch is: well formed, inside the grid, exactly the changes,
      and a change on each of its four sides. */
  ghost predicate Carries(p: Patch, base: Raster<int>, updated: Raster<int>, height: nat, width: nat)
    requires Shaped(base, height, width) && Shaped(updated, height, width)
  {
    && p.WellFormed()
    && 0 <= p.x0 && p.x0 + p.width <= width && 0 <= p.y0 && p.y0 + p.height <= height
    && (forall r, c :: InBounds(r, c, height, width) && p.Covers(r, c) ==>
          p.At(r, c) == if Differ(base, updated, r, c) then updated[r][c] else UNKNOWN)
    && (forall r, c :: Differ(base, updated, r, c) ==> p.Covers(r, c))
    && RowDiffers(base, updated, p.y0) && RowDiffers(base, updated, p.y0 + p.height - 1)
    && ColDiffers(base, updated, p.x0) && ColDiffers(base, updated, p.x0 + p.width - 1)
  }

  lemma BoxCovers(p: Patch, base: Raster<int>, updated: Raster<int>, height: nat, width: nat)
    requires Shaped(base, height, width) && Shaped(updated, height, width)
    requires PatchFromDiff(base, height, width, 0, 0, updated, height, width) == Ok(Some(p))
    ensures forall r, c :: Differ(base, updated, r, c) ==> p.Covers(r, c)
    ensures RowDiffers(base, updated, p.y0) && RowDiffers(base, updated, p.y0 + p.height - 1)
    ensures ColDiffers(base, updated, p.x0) && ColDiffers(base, updated, p.x0 + p.width - 1)
  {
    AnyRowAnyColumn(base, updated, height, width);
    var rows, cols := RowsDiffer(base, updated, height, width), ColsDiffer(base, updated, height, width);
    assert rows[p.y0] && rows[p.y0 + p.height - 1] && cols[p.x0] && cols[p.x0 + p.width - 1];
    forall r, c | Differ(base, updated, r, c) ensures p.Covers(r, c) {
      assert RowDiffers(base, updated, r) && ColDiffers(base, updated, c);
      assert rows[r] && cols[c];
    }
  }

  lemma BoxHolds(p: Patch, base: Raster<int>, updated: Raster<int>, height: nat, width: nat, r: int, c: int)
    requires Shaped(base, height, width) && Shaped(updated, height, width)
    requires PatchFromDiff(base, height, width, 0, 0, updated, height, width) == Ok(Some(p))
    requires p.WellFormed() && InBounds(r, c, height, width) && p.Covers(r, c)
    ensures p.At(r, c) == if Differ(base, updated, r, c) then updated[r][c] else UNKNOWN
  {
    AnyRowAnyColumn(base, updated, height, width);
    assert p.At(r, c) == p.cells[r - p.y0][c - p.x0];
  }

  lemma BoxInside(p: Patch, base: Raster<int>, updated: Raster<int>, height: nat, width: nat)
    requires Shaped(base, height, width) && Shaped(updated, height, width)
    requires PatchFromDiff(base, height, width, 0, 0, updated, height, width) == Ok(Some(p))
    ensures p.WellFormed() && 0 <= p.x0 && p.x0 + p.width <= width && 0 <= p.y0 && p.y0 + p.height <= height
  {
    AnyRowAnyColumn(base, updated, height, width);
  }

  lemma BoxCarries(p: Patch, base: Raster<int>, updated: Raster<int>, height: nat, width: nat)
    requires Shaped(base, height, width) && Shaped(updated, height, width)
    requires PatchFromDiff(base, height, width, 0, 0, updated, height, width) == Ok(Some(p))
    ensures Carries(p, base, updated, height, width)
  {
    BoxInside(p, base, updated, height, width);
    BoxCovers(p, base, updated, height, width);
    forall r, c | InBounds(r, c, height, width) && p.Covers(r, c)
      ensures p.At(r, c) == if Differ(base, updated, r, c) then updated[r][c] else UNKNOWN
    {
      BoxHolds(p, base, updated, height, width, r, c);
    }
  }

  // ---- Which merge a smallest patch is for ----

  /** The patch covers a cell it does not change and that is known. */
  ghost predicate Hides(p: Patch, base: Raster<int>, updated: Raster<int>, height: nat, width: nat, r: int, c: int)
    requires Shaped(base, height, width) && Shaped(updated, height, width)
  {
    InBounds(r, c, height, width) && p.Covers(r, c) && updated[r][c] == base[r][c] && base[r][c] != UNKNOWN
  }

  lemma ReplacedCell(p: Patch, base: Raster<int>, updated: Raster<int>, height: nat, width: nat, r: int, c: int)
    requires Shaped(base, height, width) && Shaped(updated, height, width) && Carries(p, base, updated, height, width)
    requires InBounds(r, c, height, width)
    ensures Merged(Replace, base, p)[r][c] == updated[r][c] <==> !Hides(p, base, updated, height, width, r, c)
  {
    assert Differ(base, updated, r, c) <==> updated[r][c] != base[r][c];
    if p.Covers(r, c) {
      assert p.At(r, c) == if Differ(base, updated, r, c) then updated[r][c] else UNKNOWN;
    }
  }

  /** Replacing with a smallest patch restores the updated grid exactly when its box
      covers no unchanged known cell. */
  lemma ReplaceRestoresIff(base: Raster<int>, height: nat, width: nat, updated: Raster<int>, p: Patch)
    requires Shaped(base, height, width) && Shaped(updated, height, width)
    requires PatchFromDiff(base, height, width, 0, 0, updated, height, width) == Ok(Some(p))
    ensures p.WellFormed()
    ensures Merged(Replace, base, p) == updated <==> forall r, c :: !Hides(p, base, updated, height, width, r, c)
  {
    BoxCarries(p, base, updated, height, width);
    var after := Merged(Replace, base, p);
    if forall r, c :: !Hides(p, base, updated, height, width, r, c) {
      forall r, c | InBounds(r, c, height, width) ensures after[r][c] == updated[r][c] {
        ReplacedCell(p, base, updated, height, width, r, c);
      }
      SameCells(after, updated, height, width);
    } else {
      var r, c :| Hides(p, base, updated, height, width, r, c);
      ReplacedCell(p, base, updated, height, width, r, c);
    }
  }

  /** The change lowers a cell, or makes it unknown. */
  predicate Lowers(base: Raster<int>, updated: Raster<int>, r: int, c: int) {
    Differ(base, updated, r, c) && !(updated[r][c] >= 0 && updated[r][c] > base[r][c])
  }

  lemma MaxedCell(p: Patch, base: Raster<int>, updated: Raster<int>, height: nat, width: nat, r: int, c: int)
    requires Shaped(base, height, width) && Shaped(updated, height, width) && Carries(p, base, updated, height, width)
    requires InBounds(r, c, height, width)
    ensures Merged(Max, base, p)[r][c] == updated[r][c] <==> !Lowers(base, updated, r, c)
  {
    assert Differ(base, updated, r, c) <==> updated[r][c] != base[r][c];
    if p.Covers(r, c) {
      assert p.At(r, c) == if Differ(base, updated, r, c) then updated[r][c] else UNKNOWN;
    }
  }

  /** Merging it by maximum restores the updated grid exactly when no change lowers a
      cell or makes it unknown. */
  lemma MaxRestoresIff(base: Raster<int>, height: nat, width: nat, updated: Raster<int>, p: Patch)
    requires Shaped(base, height, width) && Shaped(updated, height, width)
    requires PatchFromDiff(base, height, width, 0, 0, updated, height, width) == Ok(Some(p))
    ensures p.WellFormed()
    ensures Merged(Max, base, p) == updated <==> forall r, c :: !Lowers(base, updated, r, c)
  {
    BoxCarries(p, base, updated, height, width);
    var after := Merged(Max, base, p);
    if forall r, c :: !Lowers(base, updated, r, c) {
      forall r, c | InBounds(r, c, height, width) ensures after[r][c] == updated[r][c] {
        MaxedCell(p, base, updated, height, width, r, c);
      }
      SameCells(after, updated, height, width);
    } else {
      var r, c :| Lowers(base, updated, r, c);
      MaxedCell(p, base, updated, height, width, r, c);
    }
  }

  /** Whatever the grid, two changes in a row with a known unchanged cell between them
      make a patch that loses that cell when it replaces. */
  lemma CellBetweenChangesIsLost(base: Raster<int>, height: nat, width: nat, updated: Raster<int>, p: Patch, r: int, a: int, c: int, b: int)
    requires Shaped(base, height, width) && Shaped(updated, height, width)
    requires PatchFromDiff(base, height, width, 0, 0, updated, height, width) == Ok(Some(p))
    requires Differ(base, updated, r, a) && Differ(base, updated, r, b) && a < c < b
    requires updated[r][c] == base[r][c] != UNKNOWN
    ensures p.WellFormed() && Merged(Replace, base, p)[r][c] == UNKNOWN
    ensures Merged(Replace, base, p) != updated
  {
    BoxCarries(p, base, updated, height, width);
    assert p.Covers(r, a) && p.Covers(r, b);
    assert p.Covers(r, c) && !Differ(base, updated, r, c);
    assert p.At(r, c) == UNKNOWN;
  }

  /** One such grid: a free cell between two that become occupied. */
  lemma FreeCellLost()
    ensures var base: Raster<int>, updated: Raster<int> := [[0, 0, 0]], [[100, 0, 100]];
            exists p: Patch :: PatchFromDiff(base, 1, 3, 0, 0, updated, 1, 3) == Ok(Some(p)) && p.WellFormed()
              && Merged(Replace, base, p)[0][1] == UNKNOWN
  {
    var base: Raster<int>, updated: Raster<int> := [[0, 0, 0]], [[100, 0, 100]];
    assert updated[0][0] != base[0][0];
    PatchIsSmallest(base, 1, 3, updated);
    var p: Patch :| PatchFromDiff(base, 1, 3, 0, 0, updated, 1, 3) == Ok(Some(p)) && Carries(p, base, updated, 1, 3);
    CellBetweenChangesIsLost(base, 1, 3, updated, p, 0, 0, 1, 2);
  }
}
