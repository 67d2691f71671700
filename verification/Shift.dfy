/** The search for a translation that would make the cloud agree with the map better. */
module Shift {
  import opened Wrappers
  import opened Rasters
  import opened Compare
  import opened Rounding

  datatype Config = Config(searchCells: nat, minInliers: int, minGain: real)

  datatype Offset = Offset(dy: int, dx: int)

  const ZERO := Offset(0, 0)

  datatype Offer = Offer(at: Offset, inliers: nat, baseline: nat, cloudCells: nat)

  /** The cell that rolling by an offset brings to (r, c). */
  function Rolled(grid: MapGrid, o: Offset, rc: (int, int)): (int, int)
    requires grid.height > 0 && grid.width > 0
  {
    ((rc.0 - o.dy) % grid.height, (rc.1 - o.dx) % grid.width)
  }

  /** Map-occupied cells on which the rolled cloud lands. */
  function Landed(grid: MapGrid, cloud: Raster<bool>, o: Offset): set<(int, int)>
    requires grid.Valid() && Shaped(cloud, grid.height, grid.width) && grid.height > 0 && grid.width > 0
  {
    set rc | rc in OccupiedCells(grid) && Rolled(grid, o, rc) in CloudCells(grid, cloud)
  }

  function ScoreAt(grid: MapGrid, cloud: Raster<bool>, o: Offset): nat
    requires grid.Valid() && Shaped(cloud, grid.height, grid.width) && grid.height > 0 && grid.width > 0
  {
    |Landed(grid, cloud, o)|
  }

  predicate InSearch(n: int, o: Offset) {
    -n <= o.dy <= n && -n <= o.dx <= n
  }

  /** Row-major order of the search. */
  predicate Before(a: Offset, b: Offset) {
    a.dy < b.dy || (a.dy == b.dy && a.dx < b.dx)
  }

  /** The best offset of the search: no offset scores more, none searched earlier
      scores as much, and staying put is preferred to any tie. */
  ghost predicate IsBest(grid: MapGrid, cloud: Raster<bool>, n: nat, o: Offset)
    requires grid.Valid() && Shaped(cloud, grid.height, grid.width) && grid.height > 0 && grid.width > 0
  {
    && InSearch(n, o)
    && (forall p :: InSearch(n, p) ==> ScoreAt(grid, cloud, p) <= ScoreAt(grid, cloud, o))
    && (o != ZERO ==> ScoreAt(grid, cloud, ZERO) < ScoreAt(grid, cloud, o))
    && (o != ZERO ==> forall p :: InSearch(n, p) && Before(p, o) ==> ScoreAt(grid, cloud, p) < ScoreAt(grid, cloud, o))
  }

  /** The best among staying put and the offsets before `end` in the search. */
  ghost predicate BestSoFar(grid: MapGrid, cloud: Raster<bool>, n: nat, end: Offset, o: Offset)
    requires grid.Valid() && Shaped(cloud, grid.height, grid.width) && grid.height > 0 && grid.width > 0
  {
    && (o == ZERO || (InSearch(n, o) && Before(o, end) && ScoreAt(grid, cloud, ZERO) < ScoreAt(grid, cloud, o)))
    && (forall p :: InSearch(n, p) && Before(p, end) ==> ScoreAt(grid, cloud, p) <= ScoreAt(grid, cloud, o))
    && (o != ZERO ==> forall p :: InSearch(n, p) && Before(p, o) ==> ScoreAt(grid, cloud, p) < ScoreAt(grid, cloud, o))
  }

  lemma OneMore(grid: MapGrid, cloud: Raster<bool>, n: nat, end: Offset, o: Offset)
    requires grid.Valid() && Shaped(cloud, grid.height, grid.width) && grid.height > 0 && grid.width > 0
    requires BestSoFar(grid, cloud, n, end, o) && InSearch(n, end)
    ensures var next := Offset(end.dy, end.dx + 1);
            && (ScoreAt(grid, cloud, end) > ScoreAt(grid, cloud, o) ==> BestSoFar(grid, cloud, n, next, end))
            && (ScoreAt(grid, cloud, end) <= ScoreAt(grid, cloud, o) ==> BestSoFar(grid, cloud, n, next, o))
  {
  }

  method BestOffset(grid: MapGrid, cloud: Raster<bool>, n: nat) returns (best: Offset, score: nat)
    requires grid.Valid() && Shaped(cloud, grid.height, grid.width) && grid.height > 0 && grid.width > 0
    ensures IsBest(grid, cloud, n, best) && score == ScoreAt(grid, cloud, best)
  {
    best, score := ZERO, ScoreAt(grid, cloud, ZERO);
    for dy := 0 - n to n + 1
      invariant BestSoFar(grid, cloud, n, Offset(dy, 0 - n), best) && score == ScoreAt(grid, cloud, best)
      invariant ScoreAt(grid, cloud, ZERO) <= score
    {
      for dx := 0 - n to n + 1
        invariant BestSoFar(grid, cloud, n, Offset(dy, dx), best) && score == ScoreAt(grid, cloud, best)
        invariant ScoreAt(grid, cloud, ZERO) <= score
      {
        var o := Offset(dy, dx);
        OneMore(grid, cloud, n, o, best);
        if o != ZERO {
          var s := ScoreAt(grid, cloud, o);
          if s > score {
            best, score := o, s;
          }
        }
      }
    }
  }

  /** An offer to move the pose, exactly when the best offset of the search moves
      something, has enough inliers, and is clearly better than staying put; nothing
      without cells on both sides. */
  method EstimateShift(grid: MapGrid, cloud: Raster<bool>, cfg: Config) returns (offer: Option<Offer>, ghost best: Offset)
    requires grid.Valid() && Shaped(cloud, grid.height, grid.width)
    ensures CloudCells(grid, cloud) == {} || OccupiedCells(grid) == {} ==> offer.None?
    ensures CloudCells(grid, cloud) != {} && OccupiedCells(grid) != {} ==>
              && grid.height > 0 && grid.width > 0 && IsBest(grid, cloud, cfg.searchCells, best)
              && (offer.Some? <==>
                    && best != Offset(0, 0) && ScoreAt(grid, cloud, best) >= cfg.minInliers
                    && (ScoreAt(grid, cloud, ZERO) == 0
                        || ScoreAt(grid, cloud, best) as real >= ScoreAt(grid, cloud, ZERO) as real * cfg.minGain))
              && (offer.Some? ==> offer.value == Offer(best, ScoreAt(grid, cloud, best), ScoreAt(grid, cloud, ZERO), |CloudCells(grid, cloud)|))
  {
    best := ZERO;
    if CloudCells(grid, cloud) == {} || OccupiedCells(grid) == {} {
      return None, best;
    }
    NotEmpty(grid);
    var base := ScoreAt(grid, cloud, ZERO);
    var found, score := BestOffset(grid, cloud, cfg.searchCells);
    best := found;
    if found == ZERO || score < cfg.minInliers {
      return None, best;
    }
    if base > 0 && (score as real) < base as real * cfg.minGain {
      return None, best;
    }
    return Some(Offer(found, score, base, |CloudCells(grid, cloud)|)), best;
  }

  lemma NotEmpty(grid: MapGrid)
    requires grid.Valid() && OccupiedCells(grid) != {}
    ensures grid.height > 0 && grid.width > 0
  {
  }

  // ---- What a score can be ----

  lemma RollBack(x: int, d: int, n: pos)
    requires 0 <= x < n
    ensures ((x - d) % n + d) % n == x
  {
    var q := (x - d) / n;
    assert (x - d) % n + d == x - q * n;
    ModUnique((x - d) % n + d, n, -q, x);
  }

  /** Rolling does not bring two cells to one. */
  lemma RollIsInjective(grid: MapGrid, o: Offset, a: (int, int), b: (int, int))
    requires grid.height > 0 && grid.width > 0
    requires InBounds(a.0, a.1, grid.height, grid.width) && InBounds(b.0, b.1, grid.height, grid.width)
    requires Rolled(grid, o, a) == Rolled(grid, o, b)
    ensures a == b
  {
    RollOne(a.0, b.0, o.dy, grid.height);
    RollOne(a.1, b.1, o.dx, grid.width);
    assert a == (a.0, a.1) && b == (b.0, b.1);
  }

  lemma RollOne(x: int, y: int, d: int, n: pos)
    requires 0 <= x < n && 0 <= y < n && (x - d) % n == (y - d) % n
    ensures x == y
  {
    RollBack(x, d, n);
    RollBack(y, d, n);
  }

  lemma {:induction false} AtMostAsMany(grid: MapGrid, o: Offset, s: set<(int, int)>, t: set<(int, int)>)
    requires grid.height > 0 && grid.width > 0
    requires forall a :: a in s ==> InBounds(a.0, a.1, grid.height, grid.width) && Rolled(grid, o, a) in t
    ensures |s| <= |t|
    decreases |s|
  {
    if s != {} {
      var a :| a in s;
      forall b | b in s - {a} ensures Rolled(grid, o, b) in t - {Rolled(grid, o, a)} {
        if Rolled(grid, o, b) == Rolled(grid, o, a) {
          RollIsInjective(grid, o, a, b);
          assert false;
        }
      }
      AtMostAsMany(grid, o, s - {a}, t - {Rolled(grid, o, a)});
    }
  }

  /** No offset scores more than the cloud has cells, so the ratio offered as a
      confidence is at most one without the clamp. */
  lemma ScoreAtMostCloud(grid: MapGrid, cloud: Raster<bool>, o: Offset)
    requires grid.Valid() && Shaped(cloud, grid.height, grid.width) && grid.height > 0 && grid.width > 0
    ensures ScoreAt(grid, cloud, o) <= |CloudCells(grid, cloud)|
  {
    AtMostAsMany(grid, o, Landed(grid, cloud, o), CloudCells(grid, cloud));
  }

  /** Where rolling by the offset takes a cell. */
  function Taken(grid: MapGrid, o: Offset, rc: (int, int)): (int, int)
    requires grid.height > 0 && grid.width > 0
  {
    ((rc.0 + o.dy) % grid.height, (rc.1 + o.dx) % grid.width)
  }

  /** The cloud's cells that the offset takes onto occupied cells of the map. */
  function TakenOnto(grid: MapGrid, cloud: Raster<bool>, o: Offset): set<(int, int)>
    requires grid.Valid() && Shaped(cloud, grid.height, grid.width) && grid.height > 0 && grid.width > 0
  {
    set rc | rc in CloudCells(grid, cloud) && Taken(grid, o, rc) in OccupiedCells(grid)
  }

  lemma RollForth(x: int, d: int, n: pos)
    requires 0 <= x < n
    ensures ((x + d) % n - d) % n == x
  {
    var q := (x + d) / n;
    assert (x + d) % n - d == x - q * n;
    ModUnique((x + d) % n - d, n, -q, x);
  }

  lemma TakenBack(grid: MapGrid, o: Offset, rc: (int, int), at: (int, int))
    requires grid.height > 0 && grid.width > 0 && InBounds(rc.0, rc.1, grid.height, grid.width)
    requires at == Rolled(grid, o, rc)
    ensures Taken(grid, o, at) == rc
  {
    RollBack(rc.0, o.dy, grid.height);
    RollBack(rc.1, o.dx, grid.width);
  }

  lemma RolledBack(grid: MapGrid, o: Offset, rc: (int, int), at: (int, int))
    requires grid.height > 0 && grid.width > 0 && InBounds(rc.0, rc.1, grid.height, grid.width)
    requires at == Rolled(grid, Offset(-o.dy, -o.dx), rc)
    ensures at == Taken(grid, o, rc) && Rolled(grid, o, at) == rc
  {
    RollForth(rc.0, o.dy, grid.height);
    RollForth(rc.1, o.dx, grid.width);
  }

  /** An offset scores the cells of the cloud that moving the cloud by it, not the map,
      puts on occupied cells. */
  lemma ScoreCountsTheMoved(grid: MapGrid, cloud: Raster<bool>, o: Offset)
    requires grid.Valid() && Shaped(cloud, grid.height, grid.width) && grid.height > 0 && grid.width > 0
    ensures ScoreAt(grid, cloud, o) == |TakenOnto(grid, cloud, o)|
  {
    var landed, moved, back := Landed(grid, cloud, o), TakenOnto(grid, cloud, o), Offset(-o.dy, -o.dx);
    forall a | a in landed ensures Rolled(grid, o, a) in moved {
      TakenBack(grid, o, a, Rolled(grid, o, a));
    }
    AtMostAsMany(grid, o, landed, moved);
    forall a | a in moved ensures Rolled(grid, back, a) in landed {
      RolledBack(grid, o, a, Rolled(grid, back, a));
    }
    AtMostAsMany(grid, back, moved, landed);
  }
}
