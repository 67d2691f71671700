/** Rectangular rasters as rows of cells, row-major like the numpy arrays they
    stand for, and the mutable arrays that hold them. */
module Rasters {

  type Raster<T> = seq<seq<T>>

  /** The shape of a raster; a raster without rows still has a width. */
  predicate Shaped<T>(g: Raster<T>, height: nat, width: nat) {
    |g| == height && forall r :: 0 <= r < height ==> |g[r]| == width
  }

  predicate InBounds(r: int, c: int, height: nat, width: nat) {
    0 <= r < height && 0 <= c < width
  }

  function RowOf<T>(a: array2<T>, r: nat): (row: seq<T>)
    requires r < a.Length0
    reads a
    ensures |row| == a.Length1
    ensures forall c :: 0 <= c < a.Length1 ==> row[c] == a[r, c]
  {
    seq(a.Length1, c requires 0 <= c < a.Length1 reads a => a[r, c])
  }

  /** The contents of a two-dimensional array. */
  function Rows<T>(a: array2<T>): (g: Raster<T>)
    reads a
    ensures Shaped(g, a.Length0, a.Length1)
    ensures forall r, c :: InBounds(r, c, a.Length0, a.Length1) ==> g[r][c] == a[r, c]
  {
    seq(a.Length0, r requires 0 <= r < a.Length0 reads a => RowOf(a, r))
  }

  /** Rasters of one shape with the same cells are equal. */
  lemma SameCells<T>(g: Raster<T>, h: Raster<T>, height: nat, width: nat)
    requires Shaped(g, height, width) && Shaped(h, height, width)
    requires forall r, c :: InBounds(r, c, height, width) ==> g[r][c] == h[r][c]
    ensures g == h
  {
    forall r | 0 <= r < height ensures g[r] == h[r] {
      assert forall c :: InBounds(r, c, height, width) ==> g[r][c] == h[r][c];
      assert forall c :: 0 <= c < width ==> InBounds(r, c, height, width);
    }
  }
}
