/** One frame's comparison: the cloud is binned over the grid, what it adds to the
    occupied cells is the news, and the news becomes a patch. */
module Compare {
  import opened Wrappers
  import opened Rasters
  import O = Occupancy
  import T = Transforms

  /** A full occupancy grid with the robot's own thresholds. */
  datatype MapGrid = MapGrid(cells: Raster<int>, height: nat, width: nat, geometry: T.Geometry,
                             frame: string, freeMax: int, occupiedMin: int) {
    /** What the decoder accepts. */
    predicate Valid() {
      && Shaped(cells, height, width)
      && geometry.Valid()
      && 0 <= freeMax < occupiedMin <= 100
    }

    predicate Occupied(r: int, c: int)
      requires Valid() && InBounds(r, c, height, width)
    {
      cells[r][c] >= occupiedMin
    }

    predicate Unknown(r: int, c: int)
      requires Valid() && InBounds(r, c, height, width)
    {
      cells[r][c] < 0
    }

    predicate Free(r: int, c: int)
      requires Valid() && InBounds(r, c, height, width)
    {
      !Unknown(r, c) && cells[r][c] <= freeMax
    }
  }

  // ---- Binning ----

  /** The heights of the map frame that count as structure. */
  datatype Slice = Slice(zMin: real, zMax: real)

  predicate Lands(geo: T.Geometry, s: Slice, p: T.Vec, r: int, c: int)
    requires geo.resolution > 0.0
  {
    s.zMin <= p.z <= s.zMax && geo.WorldToCell(p.x, p.y) == T.Cell(c, r)
  }

  /** How many of the first `n` points land in a cell. */
  function Hits(geo: T.Geometry, s: Slice, points: seq<T.Vec>, n: nat, r: int, c: int): nat
    requires geo.resolution > 0.0 && n <= |points|
  {
    if n == 0 then 0
    else Hits(geo, s, points, n - 1, r, c) + (if Lands(geo, s, points[n - 1], r, c) then 1 else 0)
  }

  /** The points inside the slice that fall in the cell, among the first `n`. */
  ghost function PointsIn(geo: T.Geometry, s: Slice, points: seq<T.Vec>, n: nat, r: int, c: int): set<nat>
    requires geo.resolution > 0.0 && n <= |points|
  {
    set i: nat | i < n && s.zMin <= points[i].z && points[i].z <= s.zMax
                 && geo.WorldToCell(points[i].x, points[i].y) == T.Cell(c, r)
  }

  lemma {:induction false} HitsCountPoints(geo: T.Geometry, s: Slice, points: seq<T.Vec>, n: nat, r: int, c: int)
    requires geo.resolution > 0.0 && n <= |points|
    ensures Hits(geo, s, points, n, r, c) == |PointsIn(geo, s, points, n, r, c)|
  {
    if n == 0 {
      assert PointsIn(geo, s, points, n, r, c) == {};
    } else {
      HitsCountPoints(geo, s, points, n - 1, r, c);
      var last: nat := n - 1;
      assert PointsIn(geo, s, points, n, r, c)
          == PointsIn(geo, s, points, last, r, c) + (if Lands(geo, s, points[last], r, c) then {last} else {});
    }
  }

  /** The cells the cloud calls occupied. */
  ghost predicate IsBinned(grid: MapGrid, s: Slice, points: seq<T.Vec>, minPoints: int, cloud: Raster<bool>)
    requires grid.Valid()
  {
    && Shaped(cloud, grid.height, grid.width)
    && forall r, c :: InBounds(r, c, grid.height, grid.width) ==>
         (cloud[r][c] <==> Hits(grid.geometry, s, points, |points|, r, c) >= minPoints)
  }

  method OccupancyFromCloud(grid: MapGrid, s: Slice, points: seq<T.Vec>, minPoints: int) returns (cloud: Raster<bool>)
    requires grid.Valid() && minPoints >= 1
    ensures IsBinned(grid, s, points, minPoints, cloud)
  {
    var hits := new nat[grid.height, grid.width]((r, c) => 0);
    for i := 0 to |points|
      invariant forall r, c :: InBounds(r, c, grid.height, grid.width) ==>
                  hits[r, c] == Hits(grid.geometry, s, points, i, r, c)
    {
      if s.zMin <= points[i].z <= s.zMax {
        var cell := grid.geometry.WorldToCell(points[i].x, points[i].y);
        if InBounds(cell.row, cell.col, grid.height, grid.width) {
          hits[cell.row, cell.col] := hits[cell.row, cell.col] + 1;
        }
      }
    }
    var counts := Rows(hits);
    cloud := seq(grid.height, r requires 0 <= r < grid.height =>
      seq(grid.width, c requires 0 <= c < grid.width => counts[r][c] >= minPoints));
  }

  // ---- Comparing ----

  datatype Config = Config(slice: Slice, minPoints: int, occupiedValue: int, minNewCells: int) {
    /** What the configuration enforces. */
    predicate Valid() {
      minPoints >= 1 && 0 <= occupiedValue <= 100
    }
  }

  datatype Comparison = Comparison(placed: bool, cloud: Raster<bool>, agree: nat, news: nat, overFree: nat,
                                   missing: nat, patch: Option<O.Patch>, updated: Option<Raster<int>>)

  /** Cloud-occupied cells the map does not call occupied. */
  predicate New(grid: MapGrid, cloud: Raster<bool>, r: int, c: int)
    requires grid.Valid() && Shaped(cloud, grid.height, grid.width)
  {
    InBounds(r, c, grid.height, grid.width) && cloud[r][c] && !grid.Occupied(r, c)
  }

  function NewCells(grid: MapGrid, cloud: Raster<bool>): set<(int, int)>
    requires grid.Valid() && Shaped(cloud, grid.height, grid.width)
  {
    set r, c | 0 <= r < grid.height && 0 <= c < grid.width && New(grid, cloud, r, c) :: (r, c)
  }

  ghost predicate IsPainted(grid: MapGrid, cloud: Raster<bool>, v: int, updated: Raster<int>)
    requires grid.Valid() && Shaped(cloud, grid.height, grid.width)
  {
    && Shaped(updated, grid.height, grid.width)
    && forall r, c :: InBounds(r, c, grid.height, grid.width) ==>
         updated[r][c] == if New(grid, cloud, r, c) then v else grid.cells[r][c]
  }

  function CloudInMap(points: seq<T.Vec>, poseC2w: T.Pose, odom: T.Odom, mount: T.CameraMount): (inMap: seq<T.Vec>)
    ensures |inMap| == |points|
    ensures forall i :: 0 <= i < |points| ==> inMap[i] == T.CloudToMap(points[i], poseC2w, odom, mount)
  {
    seq(|points|, i requires 0 <= i < |points| => T.CloudToMap(points[i], poseC2w, odom, mount))
  }

  /** What a comparison answers for a cloud already in the map frame. */
  ghost predicate Answers(grid: MapGrid, cfg: Config, points: seq<T.Vec>, res: Comparison)
    requires grid.Valid()
  {
    && res.placed
    && IsBinned(grid, cfg.slice, points, cfg.minPoints, res.cloud)
    && res.news == |NewCells(grid, res.cloud)|
    && (res.news < cfg.minNewCells ==> res.patch.None? && res.updated.None?)
    && (res.news >= cfg.minNewCells ==>
          && res.updated.Some? && IsPainted(grid, res.cloud, cfg.occupiedValue, res.updated.value)
          && O.PatchFromDiff(grid.cells, grid.height, grid.width, 0, 0, res.updated.value, grid.height, grid.width) == Ok(res.patch))
  }

  function CloudCells(grid: MapGrid, cloud: Raster<bool>): set<(int, int)>
    requires grid.Valid() && Shaped(cloud, grid.height, grid.width)
  {
    set r, c | 0 <= r < grid.height && 0 <= c < grid.width && cloud[r][c] :: (r, c)
  }

  function OccupiedCells(grid: MapGrid): set<(int, int)>
    requires grid.Valid()
  {
    set r, c | 0 <= r < grid.height && 0 <= c < grid.width && grid.Occupied(r, c) :: (r, c)
  }

  /** The news the scanner swept free. */
  function FreeNews(grid: MapGrid, cloud: Raster<bool>): set<(int, int)>
    requires grid.Valid() && Shaped(cloud, grid.height, grid.width)
  {
    set rc | rc in NewCells(grid, cloud) && grid.Free(rc.0, rc.1)
  }

  /** Every cell is counted once: occupied for both, new, or missing. */
  ghost predicate CountsAddUp(grid: MapGrid, res: Comparison)
    requires grid.Valid() && Shaped(res.cloud, grid.height, grid.width)
  {
    && res.agree + res.news == |CloudCells(grid, res.cloud)|
    && res.agree + res.missing == |OccupiedCells(grid)|
    && res.overFree == |FreeNews(grid, res.cloud)|
  }

  lemma Split<X>(whole: set<X>, a: set<X>, b: set<X>)
    requires whole == a + b && a !! b
    ensures |whole| == |a| + |b|
  {
  }

  /** The counts a comparison reports. */
  method CountCells(grid: MapGrid, cloud: Raster<bool>) returns (agree: nat, news: nat, overFree: nat, missing: nat)
    requires grid.Valid() && Shaped(cloud, grid.height, grid.width)
    ensures news == |NewCells(grid, cloud)| && overFree == |FreeNews(grid, cloud)|
    ensures agree + news == |CloudCells(grid, cloud)| && agree + missing == |OccupiedCells(grid)|
  {
    var both := set rc | rc in CloudCells(grid, cloud) && rc in OccupiedCells(grid);
    var added := NewCells(grid, cloud);
    var swept := FreeNews(grid, cloud);
    var unseen := set rc | rc in OccupiedCells(grid) && rc !in CloudCells(grid, cloud);
    Split(CloudCells(grid, cloud), both, added);
    Split(OccupiedCells(grid), both, unseen);
    return |both|, |added|, |swept|, |unseen|;
  }

  /** A copy of the grid with the news painted in. */
  method Paint(grid: MapGrid, cloud: Raster<bool>, v: int) returns (updated: Raster<int>)
    requires grid.Valid() && Shaped(cloud, grid.height, grid.width)
    ensures IsPainted(grid, cloud, v, updated)
  {
    var copied := new int[grid.height, grid.width]((r, c) requires 0 <= r < grid.height && 0 <= c < grid.width => grid.cells[r][c]);
    forall r, c | 0 <= r < grid.height && 0 <= c < grid.width && New(grid, cloud, r, c) {
      copied[r, c] := v;
    }
    updated := Rows(copied);
  }

  /** Compare one frame's cloud, as the model placed it, with the grid.  A pose in
      another frame than the grid's is refused. */
  method CompareCloud(points: seq<T.Vec>, poseC2w: T.Pose, odom: T.Odom, grid: MapGrid, mount: T.CameraMount, cfg: Config)
    returns (res: Comparison)
    requires grid.Valid() && cfg.Valid()
    ensures grid.frame != odom.frame ==> !res.placed && res.patch.None? && res.updated.None?
    ensures grid.frame == odom.frame ==>
              Answers(grid, cfg, CloudInMap(points, poseC2w, odom, mount), res) && CountsAddUp(grid, res)
  {
    if grid.frame != odom.frame {
      return Comparison(false, [], 0, 0, 0, 0, None, None);
    }
    var cloud := OccupancyFromCloud(grid, cfg.slice, CloudInMap(points, poseC2w, odom, mount), cfg.minPoints);
    var agree, news, overFree, missing := CountCells(grid, cloud);
    if news < cfg.minNewCells {
      return Comparison(true, cloud, agree, news, overFree, missing, None, None);
    }
    var updated := Paint(grid, cloud, cfg.occupiedValue);
    var patch := O.PatchFromDiff(grid.cells, grid.height, grid.width, 0, 0, updated, grid.height, grid.width);
    return Comparison(true, cloud, agree, news, overFree, missing, patch.value, Some(updated));
  }

  // ---- The fixed point ----

  /** The grid after the receiver merges the patch, if there is one, by maximum. */
  function AfterMerge(grid: MapGrid, patch: Option<O.Patch>): (after: MapGrid)
    requires grid.Valid() && (patch.Some? ==> patch.value.WellFormed())
    ensures after.Valid() && after.height == grid.height && after.width == grid.width
  {
    if patch.None? then grid else grid.(cells := O.Merged(O.Max, grid.cells, patch.value))
  }

  lemma PatchShape(grid: MapGrid, cfg: Config, points: seq<T.Vec>, res: Comparison)
    requires grid.Valid() && cfg.Valid() && Answers(grid, cfg, points, res)
    ensures res.patch.Some? ==> O.Carries(res.patch.value, grid.cells, res.updated.value, grid.height, grid.width)
  {
    if res.patch.Some? {
      O.PatchIsSmallest(grid.cells, grid.height, grid.width, res.updated.value);
    }
  }

  /** Max-merging the smallest patch raises a cell to its updated value or leaves it. */
  lemma DiffMergedCell(base: Raster<int>, updated: Raster<int>, height: nat, width: nat, p: O.Patch, r: int, c: int)
    requires Shaped(base, height, width) && Shaped(updated, height, width) && O.Carries(p, base, updated, height, width)
    requires InBounds(r, c, height, width)
    ensures O.CellAfter(O.Max, base[r][c], p, r, c) == O.MergeCell(O.Max, base[r][c], updated[r][c])
  {
  }

  lemma MergedCell(grid: MapGrid, updated: Raster<int>, patch: Option<O.Patch>, r: int, c: int)
    requires grid.Valid() && Shaped(updated, grid.height, grid.width)
    requires patch.None? ==> updated == grid.cells
    requires patch.Some? ==> O.Carries(patch.value, grid.cells, updated, grid.height, grid.width)
    requires InBounds(r, c, grid.height, grid.width)
    ensures AfterMerge(grid, patch).cells[r][c] == O.MergeCell(O.Max, grid.cells[r][c], updated[r][c])
  {
    if patch.Some? {
      DiffMergedCell(grid.cells, updated, grid.height, grid.width, patch.value, r, c);
    }
  }

  /** What merging the answer does to each cell, whatever the configured value: the
      news rises to that value where it is higher, and nothing else changes. */
  lemma MergeWritesTheNews(grid: MapGrid, cfg: Config, points: seq<T.Vec>, res: Comparison, r: int, c: int)
    requires grid.Valid() && cfg.Valid() && Answers(grid, cfg, points, res)
    requires res.patch.Some? ==> res.patch.value.WellFormed()
    requires InBounds(r, c, grid.height, grid.width)
    ensures !New(grid, res.cloud, r, c) || res.news < cfg.minNewCells ==>
              AfterMerge(grid, res.patch).cells[r][c] == grid.cells[r][c]
    ensures New(grid, res.cloud, r, c) && res.news >= cfg.minNewCells ==>
              AfterMerge(grid, res.patch).cells[r][c] == O.MergeCell(O.Max, grid.cells[r][c], cfg.occupiedValue)
  {
    if res.news >= cfg.minNewCells {
      O.PatchIsSmallest(grid.cells, grid.height, grid.width, res.updated.value);
      MergedCell(grid, res.updated.value, res.patch, r, c);
    }
  }

  /** After the merge, exactly the cells either side called occupied are occupied. */
  ghost predicate OccupiedIsUnion(before: MapGrid, cloud: Raster<bool>, after: MapGrid)
    requires before.Valid() && after.Valid() && Shaped(cloud, before.height, before.width)
    requires after.height == before.height && after.width == before.width
  {
    forall r, c :: InBounds(r, c, before.height, before.width) ==>
      (after.Occupied(r, c) <==> before.Occupied(r, c) || cloud[r][c])
  }

  lemma NewCellWitness(grid: MapGrid, cloud: Raster<bool>) returns (r: int, c: int)
    requires grid.Valid() && Shaped(cloud, grid.height, grid.width) && |NewCells(grid, cloud)| > 0
    ensures New(grid, cloud, r, c)
  {
    var rc :| rc in NewCells(grid, cloud);
    r, c := rc.0, rc.1;
  }

  lemma UnionAt(grid: MapGrid, cfg: Config, points: seq<T.Vec>, res: Comparison, r: int, c: int)
    requires grid.Valid() && cfg.Valid() && Answers(grid, cfg, points, res)
    requires res.patch.Some? ==> res.patch.value.WellFormed()
    requires res.news >= cfg.minNewCells && InBounds(r, c, grid.height, grid.width)
    ensures cfg.occupiedValue >= grid.occupiedMin ==>
              (AfterMerge(grid, res.patch).Occupied(r, c) <==> grid.Occupied(r, c) || res.cloud[r][c])
    ensures cfg.occupiedValue < grid.occupiedMin && New(grid, res.cloud, r, c) ==>
              !AfterMerge(grid, res.patch).Occupied(r, c)
  {
    MergeWritesTheNews(grid, cfg, points, res, r, c);
  }

  /** Merging the answer makes the occupied cells the union of both sides' exactly
      when the value painted counts as occupied on this grid, once there is enough
      news to send. */
  lemma MergeReachesTheUnion(grid: MapGrid, cfg: Config, points: seq<T.Vec>, res: Comparison)
    requires grid.Valid() && cfg.Valid() && Answers(grid, cfg, points, res)
    requires res.news >= cfg.minNewCells && res.news > 0
    ensures res.patch.Some? ==> res.patch.value.WellFormed()
    ensures OccupiedIsUnion(grid, res.cloud, AfterMerge(grid, res.patch)) <==> cfg.occupiedValue >= grid.occupiedMin
  {
    PatchShape(grid, cfg, points, res);
    if cfg.occupiedValue >= grid.occupiedMin {
      forall r, c | InBounds(r, c, grid.height, grid.width)
        ensures AfterMerge(grid, res.patch).Occupied(r, c) <==> grid.Occupied(r, c) || res.cloud[r][c]
      {
        UnionAt(grid, cfg, points, res, r, c);
      }
    } else {
      var r, c := NewCellWitness(grid, res.cloud);
      UnionAt(grid, cfg, points, res, r, c);
    }
  }

  lemma BinningIgnoresCells(grid: MapGrid, after: MapGrid, s: Slice, points: seq<T.Vec>, minPoints: int,
                            cloud: Raster<bool>, again: Raster<bool>)
    requires grid.Valid() && after.Valid() && after == grid.(cells := after.cells)
    requires IsBinned(grid, s, points, minPoints, cloud) && IsBinned(after, s, points, minPoints, again)
    ensures again == cloud
  {
    SameCells(again, cloud, grid.height, grid.width);
  }

  /** Comparing the same cloud with the merged grid finds no news and sends no patch. */
  lemma ComparisonReachesAFixedPoint(grid: MapGrid, cfg: Config, points: seq<T.Vec>, res: Comparison, again: Comparison)
    requires grid.Valid() && cfg.Valid() && Answers(grid, cfg, points, res)
    requires res.news >= cfg.minNewCells && cfg.occupiedValue >= grid.occupiedMin
    requires res.patch.Some? ==> res.patch.value.WellFormed()
    requires Answers(AfterMerge(grid, res.patch), cfg, points, again)
    ensures again.news == 0 && again.patch.None?
  {
    var after := AfterMerge(grid, res.patch);
    BinningIgnoresCells(grid, after, cfg.slice, points, cfg.minPoints, res.cloud, again.cloud);
    forall r, c ensures !New(after, again.cloud, r, c) {
      if New(after, again.cloud, r, c) {
        MergeWritesTheNews(grid, cfg, points, res, r, c);
        assert false;
      }
    }
    assert NewCells(after, again.cloud) == {};
    if again.news >= cfg.minNewCells {
      SameCells(again.updated.value, after.cells, grid.height, grid.width);
      O.PatchIsSmallest(after.cells, grid.height, grid.width, again.updated.value);
    }
  }

  lemma StaysNew(grid: MapGrid, cfg: Config, points: seq<T.Vec>, res: Comparison, r: int, c: int)
    requires grid.Valid() && cfg.Valid() && Answers(grid, cfg, points, res) && cfg.occupiedValue < grid.occupiedMin
    requires res.patch.Some? ==> res.patch.value.WellFormed()
    ensures New(AfterMerge(grid, res.patch), res.cloud, r, c) <==> New(grid, res.cloud, r, c)
  {
    if InBounds(r, c, grid.height, grid.width) {
      MergeWritesTheNews(grid, cfg, points, res, r, c);
    }
  }

  /** With a value that does not count as occupied the news never goes away: the
      same cells are found again after every merge. */
  lemma NewsStaysBelowTheThreshold(grid: MapGrid, cfg: Config, points: seq<T.Vec>, res: Comparison, again: Comparison)
    requires grid.Valid() && cfg.Valid() && Answers(grid, cfg, points, res)
    requires cfg.occupiedValue < grid.occupiedMin
    requires res.patch.Some? ==> res.patch.value.WellFormed()
    requires Answers(AfterMerge(grid, res.patch), cfg, points, again)
    ensures NewCells(AfterMerge(grid, res.patch), again.cloud) == NewCells(grid, res.cloud) && again.news == res.news
  {
    var after := AfterMerge(grid, res.patch);
    BinningIgnoresCells(grid, after, cfg.slice, points, cfg.minPoints, res.cloud, again.cloud);
    forall rc ensures rc in NewCells(after, again.cloud) <==> rc in NewCells(grid, res.cloud) {
      StaysNew(grid, cfg, points, res, rc.0, rc.1);
      assert rc == (rc.0, rc.1);
    }
    assert NewCells(after, again.cloud) == NewCells(grid, res.cloud);
  }
}
