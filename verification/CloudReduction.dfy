/** Thinning a reconstructed cloud to one point per voxel under a cap, and packing it
    as 16-bit offsets from a rounded origin. */
module CloudReduction {
  import opened Wrappers
  import opened Rounding
  import opened Sorting

  /** A reconstructed point; None for a coordinate that is not finite and for a
      confidence that is not a number. */
  datatype RawPoint = RawPoint(x: Option<real>, y: Option<real>, z: Option<real>, conf: Option<real>)

  datatype Point = Point(x: real, y: real, z: real, conf: real)

  predicate Confident(r: RawPoint, minConf: real) {
    r.x.Some? && r.y.Some? && r.z.Some? && r.conf.Some? && r.conf.value >= minConf
  }

  function Finite(r: RawPoint): Point
    requires r.x.Some? && r.y.Some? && r.z.Some? && r.conf.Some?
  {
    Point(r.x.value, r.y.value, r.z.value, r.conf.value)
  }

  ghost predicate FromRaw(raw: seq<RawPoint>, minConf: real, p: Point) {
    p.conf >= minConf && RawPoint(Some(p.x), Some(p.y), Some(p.z), Some(p.conf)) in raw
  }

  /** The points over the threshold, in order. */
  function Gate(raw: seq<RawPoint>, minConf: real, n: nat): (pts: seq<Point>)
    requires n <= |raw|
  {
    if n == 0 then []
    else Gate(raw, minConf, n - 1) + (if Confident(raw[n - 1], minConf) then [Finite(raw[n - 1])] else [])
  }

  lemma {:induction false} GateKeepsExactly(raw: seq<RawPoint>, minConf: real, n: nat, p: Point)
    requires n <= |raw|
    ensures p in Gate(raw, minConf, n) <==> FromRaw(raw[..n], minConf, p)
  {
    if n > 0 {
      GateKeepsExactly(raw, minConf, n - 1, p);
      assert raw[..n] == raw[..n - 1] + [raw[n - 1]];
    }
  }

  // ---- One point per voxel ----

  datatype Voxel = Voxel(x: int, y: int, z: int)

  function VoxelOf(p: Point, voxelM: real): Voxel
    requires voxelM > 0.0
  {
    Voxel((p.x / voxelM).Floor, (p.y / voxelM).Floor, (p.z / voxelM).Floor)
  }

  /** Between `k` and `k + 1` steps of `m`. */
  predicate InStep(x: real, m: real, k: int) {
    m * k as real <= x < m * k as real + m
  }

  lemma FloorIsStep(x: real, m: real)
    requires m > 0.0
    ensures InStep(x, m, (x / m).Floor)
  {
    FloorBounds(x, m);
  }

  lemma StepsApart(x: real, m: real, k: real, l: real)
    requires m > 0.0 && k + 1.0 <= l && m * l <= x
    ensures m * k + m <= x
  {
    MulMonotone(m, k + 1.0, l);
    assert m * (k + 1.0) == m * k + m;
  }

  lemma OneStep(x: real, m: real, k: int, l: int)
    requires m > 0.0 && InStep(x, m, k) && InStep(x, m, l)
    ensures k == l
  {
    if k < l {
      StepsApart(x, m, k as real, l as real);
    } else if l < k {
      StepsApart(x, m, l as real, k as real);
    }
  }

  /** A voxel is the cube of side `voxelM` at its index. */
  lemma VoxelIsCube(p: Point, voxelM: real, v: Voxel)
    requires voxelM > 0.0
    ensures VoxelOf(p, voxelM) == v <==> InStep(p.x, voxelM, v.x) && InStep(p.y, voxelM, v.y) && InStep(p.z, voxelM, v.z)
  {
    FloorIsStep(p.x, voxelM);
    FloorIsStep(p.y, voxelM);
    FloorIsStep(p.z, voxelM);
    if InStep(p.x, voxelM, v.x) && InStep(p.y, voxelM, v.y) && InStep(p.z, voxelM, v.z) {
      OneStep(p.x, voxelM, v.x, VoxelOf(p, voxelM).x);
      OneStep(p.y, voxelM, v.y, VoxelOf(p, voxelM).y);
      OneStep(p.z, voxelM, v.z, VoxelOf(p, voxelM).z);
    }
  }

  function Voxels(pts: seq<Point>, voxelM: real): (vox: seq<Voxel>)
    requires voxelM > 0.0
    ensures |vox| == |pts| && forall i :: 0 <= i < |pts| ==> vox[i] == VoxelOf(pts[i], voxelM)
  {
    seq(|pts|, i requires 0 <= i < |pts| => VoxelOf(pts[i], voxelM))
  }

  /** The order a sort by voxel, then by descending confidence, gives: every index once,
      voxels together, the most confident of each first. */
  ghost predicate ByVoxel(pts: seq<Point>, vox: seq<Voxel>, order: seq<nat>) {
    && |vox| == |pts| && Lists(order, |pts|)
    && (forall i :: 0 <= i < |order| ==> order[i] < |pts|)
    && (forall i, j, k :: 0 <= i < j < k < |order| && vox[order[i]] == vox[order[k]] ==> vox[order[j]] == vox[order[k]])
    && (forall i, j :: 0 <= i < j < |order| && vox[order[i]] == vox[order[j]] ==> pts[order[i]].conf >= pts[order[j]].conf)
  }

  predicate InRange<X>(order: seq<nat>, xs: seq<X>) {
    forall i :: 0 <= i < |order| ==> order[i] < |xs|
  }

  /** Position `i` starts a run of one voxel. */
  predicate Starts(vox: seq<Voxel>, order: seq<nat>, i: nat)
    requires i < |order| && InRange(order, vox)
  {
    i == 0 || vox[order[i]] != vox[order[i - 1]]
  }

  /** The first of each run among the first `n` of the order. */
  function Picks(vox: seq<Voxel>, order: seq<nat>, n: nat): (picks: seq<nat>)
    requires n <= |order| && InRange(order, vox)
    ensures InRange(picks, vox)
  {
    if n == 0 then []
    else
      var before := Picks(vox, order, n - 1);
      if Starts(vox, order, n - 1) then before + [order[n - 1]] else before
  }

  /** A pick is the start of a run among the first `n`. */
  lemma {:induction false} PickStarts(vox: seq<Voxel>, order: seq<nat>, n: nat, a: nat) returns (i: nat)
    requires n <= |order| && InRange(order, vox) && a < |Picks(vox, order, n)|
    ensures i < n && Starts(vox, order, i) && Picks(vox, order, n)[a] == order[i]
  {
    if a < |Picks(vox, order, n - 1)| {
      i := PickStarts(vox, order, n - 1, a);
    } else {
      i := n - 1;
    }
  }

  lemma {:induction false} StartPicked(vox: seq<Voxel>, order: seq<nat>, n: nat, i: nat)
    requires i < n <= |order| && InRange(order, vox) && Starts(vox, order, i)
    ensures order[i] in Picks(vox, order, n)
  {
    if i < n - 1 {
      StartPicked(vox, order, n - 1, i);
    }
  }

  /** A position that starts a run has a voxel not seen before it. */
  lemma StartIsNew(pts: seq<Point>, vox: seq<Voxel>, order: seq<nat>, i: nat, k: nat)
    requires ByVoxel(pts, vox, order) && i < k < |order| && Starts(vox, order, k)
    ensures vox[order[i]] != vox[order[k]]
  {
  }

  ghost predicate DistinctPicks(vox: seq<Voxel>, picks: seq<nat>)
    requires InRange(picks, vox)
  {
    forall a, b :: 0 <= a < b < |picks| ==> vox[picks[a]] != vox[picks[b]]
  }

  lemma {:induction false} PicksAreDistinct(pts: seq<Point>, vox: seq<Voxel>, order: seq<nat>, n: nat)
    requires n <= |order| && ByVoxel(pts, vox, order)
    ensures DistinctPicks(vox, Picks(vox, order, n))
  {
    if n > 0 {
      PicksAreDistinct(pts, vox, order, n - 1);
      var before := Picks(vox, order, n - 1);
      if Starts(vox, order, n - 1) {
        forall a | 0 <= a < |before| ensures vox[before[a]] != vox[order[n - 1]] {
          var i := PickStarts(vox, order, n - 1, a);
          StartIsNew(pts, vox, order, i, n - 1);
        }
      }
    }
  }

  /** The start of the run position `k` is in. */
  lemma {:induction false} StartOf(vox: seq<Voxel>, order: seq<nat>, k: nat) returns (i: nat)
    requires k < |order| && InRange(order, vox)
    ensures i <= k && Starts(vox, order, i) && vox[order[i]] == vox[order[k]]
  {
    if Starts(vox, order, k) {
      i := k;
    } else {
      i := StartOf(vox, order, k - 1);
    }
  }

  /** The points at some indices. */
  function At(pts: seq<Point>, picks: seq<nat>): (out: seq<Point>)
    requires InRange(picks, pts)
    ensures |out| == |picks| && forall i :: 0 <= i < |picks| ==> out[i] == pts[picks[i]]
  {
    seq(|picks|, i requires 0 <= i < |picks| => pts[picks[i]])
  }

  /** The first point of each voxel in the order given. */
  function Downsample(pts: seq<Point>, voxelM: real, order: seq<nat>): seq<Point>
    requires voxelM > 0.0 && InRange(order, pts)
  {
    At(pts, Picks(Voxels(pts, voxelM), order, |order|))
  }

  ghost predicate DistinctVoxels(pts: seq<Point>, voxelM: real)
    requires voxelM > 0.0
  {
    forall i, j :: 0 <= i < j < |pts| ==> VoxelOf(pts[i], voxelM) != VoxelOf(pts[j], voxelM)
  }

  /** The voxel of `q` is represented by a point at least as confident. */
  ghost predicate HasBest(picks: seq<Point>, voxelM: real, q: Point)
    requires voxelM > 0.0
  {
    exists p :: p in picks && VoxelOf(p, voxelM) == VoxelOf(q, voxelM) && p.conf >= q.conf
  }

  /** One point of each voxel, no point of it more confident. */
  ghost predicate BestPerVoxel(pts: seq<Point>, voxelM: real, picks: seq<Point>)
    requires voxelM > 0.0
  {
    && DistinctVoxels(picks, voxelM)
    && (forall p :: p in picks ==> p in pts)
    && (forall q :: q in pts ==> HasBest(picks, voxelM, q))
  }

  /** Index `x` has an index of its voxel among the picks, at least as confident. */
  lemma BestPick(pts: seq<Point>, vox: seq<Voxel>, order: seq<nat>, x: nat) returns (y: nat)
    requires ByVoxel(pts, vox, order) && x < |pts|
    ensures y in Picks(vox, order, |order|) && y < |pts| && vox[y] == vox[x] && pts[y].conf >= pts[x].conf
  {
    assert x in order;
    var k :| 0 <= k < |order| && order[k] == x;
    var i := StartOf(vox, order, k);
    StartPicked(vox, order, |order|, i);
    y := order[i];
  }

  lemma VoxelIsRepresented(pts: seq<Point>, voxelM: real, order: seq<nat>, q: Point)
    requires voxelM > 0.0 && ByVoxel(pts, Voxels(pts, voxelM), order) && q in pts
    ensures HasBest(Downsample(pts, voxelM, order), voxelM, q)
  {
    var x :| 0 <= x < |pts| && pts[x] == q;
    var vox := Voxels(pts, voxelM);
    var y := BestPick(pts, vox, order, x);
    var picks := Picks(vox, order, |order|);
    var a :| 0 <= a < |picks| && picks[a] == y;
    assert Downsample(pts, voxelM, order)[a] == pts[y];
  }

  lemma DownsampleKeepsTheBest(pts: seq<Point>, voxelM: real, order: seq<nat>)
    requires voxelM > 0.0 && ByVoxel(pts, Voxels(pts, voxelM), order)
    ensures BestPerVoxel(pts, voxelM, Downsample(pts, voxelM, order))
  {
    PicksAreDistinct(pts, Voxels(pts, voxelM), order, |order|);
    forall q | q in pts ensures HasBest(Downsample(pts, voxelM, order), voxelM, q) {
      VoxelIsRepresented(pts, voxelM, order, q);
    }
  }

  // ---- The cap ----

  /** An ascending order of confidence; ties fall as the sort leaves them. */
  ghost predicate Ascending(pts: seq<Point>, order: seq<nat>) {
    && Lists(order, |pts|)
    && (forall i :: 0 <= i < |order| ==> order[i] < |pts|)
    && (forall i, j :: 0 <= i < j < |order| ==> order[i] != order[j] && ConfAt(pts, order, i) <= ConfAt(pts, order, j))
  }

  function ConfAt(pts: seq<Point>, order: seq<nat>, i: int): real {
    if 0 <= i < |order| && order[i] < |pts| then pts[order[i]].conf else 0.0
  }

  /** `order[::-1][:max]` of the points, when there are too many. */
  function Capped(pts: seq<Point>, max: nat, order: seq<nat>): (kept: seq<Point>)
    requires |order| == |pts| && forall i :: 0 <= i < |order| ==> order[i] < |pts|
    ensures |pts| <= max ==> kept == pts
    ensures |pts| > max ==> |kept| == max && forall i :: 0 <= i < max ==> kept[i] == pts[order[|order| - 1 - i]]
  {
    if |pts| <= max then pts
    else seq(max, i requires 0 <= i < max => pts[order[|order| - 1 - i]])
  }

  lemma CapKeepsDistinct(pts: seq<Point>, voxelM: real, max: nat, order: seq<nat>)
    requires voxelM > 0.0 && DistinctVoxels(pts, voxelM) && Ascending(pts, order)
    ensures DistinctVoxels(Capped(pts, max, order), voxelM)
  {
  }

  lemma TopIsKept(pts: seq<Point>, max: nat, order: seq<nat>, d: nat)
    requires Ascending(pts, order) && d < |order| && d >= |order| - max
    ensures pts[order[d]] in Capped(pts, max, order)
  {
    if |pts| > max {
      assert Capped(pts, max, order)[|order| - 1 - d] == pts[order[d]];
    }
  }

  /** No point the cap drops is more confident than one it keeps. */
  lemma CapDropsTheWeakest(pts: seq<Point>, max: nat, order: seq<nat>, dropped: Point, kept: Point)
    requires Ascending(pts, order)
    requires dropped in pts && dropped !in Capped(pts, max, order) && kept in Capped(pts, max, order)
    ensures dropped.conf <= kept.conf
  {
    var out := Capped(pts, max, order);
    var x :| 0 <= x < |pts| && pts[x] == dropped;
    assert x in order;
    var d :| 0 <= d < |order| && order[d] == x;
    var i :| 0 <= i < |out| && out[i] == kept;
    if d >= |order| - max {
      TopIsKept(pts, max, order, d);
      assert false;
    }
    assert ConfAt(pts, order, d) <= ConfAt(pts, order, |order| - 1 - i);
  }

  /** Filter, thin and cap; the two orders are what the two sorts return. */
  function Reduce(raw: seq<RawPoint>, minConf: real, voxelM: real, max: nat, byVoxel: seq<nat>, byConf: seq<nat>): (kept: seq<Point>)
    requires voxelM > 0.0
    requires ByVoxel(Gate(raw, minConf, |raw|), Voxels(Gate(raw, minConf, |raw|), voxelM), byVoxel)
    requires Ascending(Downsample(Gate(raw, minConf, |raw|), voxelM, byVoxel), byConf)
  {
    Capped(Downsample(Gate(raw, minConf, |raw|), voxelM, byVoxel), max, byConf)
  }

  /** The voxels that some points lie in. */
  ghost function Occupied(pts: seq<Point>, voxelM: real): set<Voxel>
    requires voxelM > 0.0
  {
    set i | 0 <= i < |pts| :: Voxels(pts, voxelM)[i]
  }

  lemma {:induction false} DistinctCount(pts: seq<Point>, voxelM: real)
    requires voxelM > 0.0 && DistinctVoxels(pts, voxelM)
    ensures |Occupied(pts, voxelM)| == |pts|
  {
    if pts == [] {
      assert Occupied(pts, voxelM) == {};
    } else {
      var n := |pts| - 1;
      var init := pts[..n];
      DistinctCount(init, voxelM);
      OccupiedMore(init, pts[n], voxelM);
      assert init + [pts[n]] == pts;
    }
  }

  lemma OccupiedMore(init: seq<Point>, p: Point, voxelM: real)
    requires voxelM > 0.0 && DistinctVoxels(init + [p], voxelM)
    ensures |Occupied(init + [p], voxelM)| == |Occupied(init, voxelM)| + 1
    ensures DistinctVoxels(init, voxelM)
  {
    var all, v := init + [p], VoxelOf(p, voxelM);
    var a, b := Voxels(init, voxelM), Voxels(all, voxelM);
    assert forall i :: 0 <= i < |init| ==> b[i] == a[i];
    assert b[|init|] == v;
    forall i | 0 <= i < |init| ensures a[i] != v {
      assert VoxelOf(all[i], voxelM) != VoxelOf(all[|init|], voxelM);
    }
    assert Occupied(all, voxelM) == Occupied(init, voxelM) + {v};
  }

  lemma OccupiedBy(pts: seq<Point>, voxelM: real, p: Point)
    requires voxelM > 0.0 && p in pts
    ensures VoxelOf(p, voxelM) in Occupied(pts, voxelM)
  {
    var i :| 0 <= i < |pts| && pts[i] == p;
    assert Voxels(pts, voxelM)[i] == VoxelOf(p, voxelM);
  }

  lemma Occupant(pts: seq<Point>, voxelM: real, v: Voxel) returns (p: Point)
    requires voxelM > 0.0 && v in Occupied(pts, voxelM)
    ensures p in pts && VoxelOf(p, voxelM) == v
  {
    var i :| 0 <= i < |pts| && Voxels(pts, voxelM)[i] == v;
    p := pts[i];
  }

  /** One pick for each voxel of the input. */
  lemma OnePerVoxel(pts: seq<Point>, voxelM: real, picks: seq<Point>)
    requires voxelM > 0.0 && BestPerVoxel(pts, voxelM, picks)
    ensures |picks| == |Occupied(pts, voxelM)|
  {
    DistinctCount(picks, voxelM);
    forall v | v in Occupied(pts, voxelM) ensures v in Occupied(picks, voxelM) {
      var q := Occupant(pts, voxelM, v);
      assert HasBest(picks, voxelM, q);
      var p :| p in picks && VoxelOf(p, voxelM) == VoxelOf(q, voxelM);
      OccupiedBy(picks, voxelM, p);
    }
    forall v | v in Occupied(picks, voxelM) ensures v in Occupied(pts, voxelM) {
      var p := Occupant(picks, voxelM, v);
      OccupiedBy(pts, voxelM, p);
    }
    assert Occupied(pts, voxelM) == Occupied(picks, voxelM);
  }

  /** What a reduced cloud is: finite points over the threshold, as many as they have
      voxels or the cap if that is less, one per voxel; and an input point more confident
      than one kept has its voxel represented by a point at least as confident. */
  lemma ReduceKeepsTheMostConfident(raw: seq<RawPoint>, minConf: real, voxelM: real, max: nat, byVoxel: seq<nat>, byConf: seq<nat>)
    requires voxelM > 0.0
    requires ByVoxel(Gate(raw, minConf, |raw|), Voxels(Gate(raw, minConf, |raw|), voxelM), byVoxel)
    requires Ascending(Downsample(Gate(raw, minConf, |raw|), voxelM, byVoxel), byConf)
    ensures var kept := Reduce(raw, minConf, voxelM, max, byVoxel, byConf);
            var voxels := |Occupied(Gate(raw, minConf, |raw|), voxelM)|;
            && |kept| == (if voxels <= max then voxels else max) && DistinctVoxels(kept, voxelM)
            && (forall p :: p in kept ==> FromRaw(raw, minConf, p))
            && (forall p, q :: p in kept && FromRaw(raw, minConf, q) && q.conf > p.conf ==> HasBest(kept, voxelM, q))
  {
    var pts := Gate(raw, minConf, |raw|);
    assert raw[..|raw|] == raw;
    var picks := Downsample(pts, voxelM, byVoxel);
    var kept := Reduce(raw, minConf, voxelM, max, byVoxel, byConf);
    DownsampleKeepsTheBest(pts, voxelM, byVoxel);
    OnePerVoxel(pts, voxelM, picks);
    CapKeepsDistinct(picks, voxelM, max, byConf);
    forall p | p in kept ensures FromRaw(raw, minConf, p) {
      assert p in picks && p in pts;
      GateKeepsExactly(raw, minConf, |raw|, p);
    }
    forall p, q | p in kept && FromRaw(raw, minConf, q) && q.conf > p.conf ensures HasBest(kept, voxelM, q) {
      GateKeepsExactly(raw, minConf, |raw|, q);
      assert HasBest(picks, voxelM, q);
      var b :| b in picks && VoxelOf(b, voxelM) == VoxelOf(q, voxelM) && b.conf >= q.conf;
      if b !in kept {
        CapDropsTheWeakest(picks, max, byConf, b, p);
        assert false;
      }
    }
  }

  // ---- Packing ----

  const QUANT_MAX := 65535

  datatype Axis = X | Y | Z

  function Coord(p: Point, a: Axis): real {
    match a case X => p.x case Y => p.y case Z => p.z
  }

  function Least(pts: seq<Point>, a: Axis, n: nat): (m: real)
    requires 0 < n <= |pts|
    ensures forall i :: 0 <= i < n ==> m <= Coord(pts[i], a)
  {
    if n == 1 then Coord(pts[0], a)
    else
      var m := Least(pts, a, n - 1);
      if Coord(pts[n - 1], a) < m then Coord(pts[n - 1], a) else m
  }

  function Greatest(pts: seq<Point>, a: Axis, n: nat): (m: real)
    requires 0 < n <= |pts|
    ensures forall i :: 0 <= i < n ==> Coord(pts[i], a) <= m
  {
    if n == 1 then Coord(pts[0], a)
    else
      var m := Greatest(pts, a, n - 1);
      if Coord(pts[n - 1], a) > m then Coord(pts[n - 1], a) else m
  }

  function Larger(a: real, b: real): real { if a >= b then a else b }

  function Side(pts: seq<Point>, a: Axis): (d: real)
    requires pts != []
    ensures d >= 0.0
  {
    assert Least(pts, a, |pts|) <= Coord(pts[0], a) <= Greatest(pts, a, |pts|);
    Greatest(pts, a, |pts|) - Least(pts, a, |pts|)
  }

  /** The widest side of the bounding box. */
  function Extent(pts: seq<Point>): (e: real)
    requires pts != []
    ensures e >= 0.0
    ensures forall a :: Side(pts, a) <= e
  {
    Larger(Side(pts, X), Larger(Side(pts, Y), Side(pts, Z)))
  }

  function Scale(pts: seq<Point>): (s: real)
    requires pts != []
    ensures s > 0.0
  {
    if Extent(pts) > 0.0 then Extent(pts) / QUANT_MAX as real else 1.0
  }

  function Clip(q: real): real {
    if q < 0.0 then 0.0 else if q > QUANT_MAX as real then QUANT_MAX as real else q
  }

  /** One coordinate on the wire: clipped, then truncated to 16 bits. */
  function Quantise(p: real, origin: real, scale: real): (u: int)
    requires scale > 0.0
    ensures 0 <= u <= QUANT_MAX
  {
    Clip((p - origin) / scale).Floor
  }

  /** What a receiver makes of it: the rounded origin plus the scaled offset. */
  function Unpack(u: int, origin: real, scale: real): real {
    Round4(origin) + scale * u as real
  }

  lemma QuotientInRange(d: real, e: real, s: real)
    requires s > 0.0 && 0.0 <= d <= e && s * QUANT_MAX as real == e
    ensures 0.0 <= d / s <= QUANT_MAX as real
  {
  }

  lemma TruncationError(d: real, s: real)
    requires s > 0.0 && d >= 0.0
    ensures 0.0 <= d - s * (d / s).Floor as real < s
  {
    FloorBounds(d, s);
  }

  /** Clipping never bites: the offset of every packed coordinate is within range. */
  lemma OffsetInRange(pts: seq<Point>, i: nat, a: Axis)
    requires i < |pts|
    ensures var o, s := Least(pts, a, |pts|), Scale(pts);
            0.0 <= (Coord(pts[i], a) - o) / s <= QUANT_MAX as real && Coord(pts[i], a) >= o
  {
    var d, e := Coord(pts[i], a) - Least(pts, a, |pts|), Extent(pts);
    assert Coord(pts[i], a) <= Greatest(pts, a, |pts|);
    assert 0.0 <= d <= Side(pts, a) <= e;
    if e > 0.0 {
      QuotientInRange(d, e, Scale(pts));
    }
  }

  /** Unpacking a packed coordinate errs by less than one step of the scale, plus the
      rounding of the origin to a tenth of a millimetre. */
  lemma PackRoundTrip(pts: seq<Point>, i: nat, a: Axis)
    requires i < |pts|
    ensures var origin, scale := Least(pts, a, |pts|), Scale(pts);
            -0.00005 <= Coord(pts[i], a) - Unpack(Quantise(Coord(pts[i], a), origin, scale), origin, scale) < scale + 0.00005
  {
    OffsetInRange(pts, i, a);
    PackError(Coord(pts[i], a), Least(pts, a, |pts|), Scale(pts));
  }

  lemma PackError(p: real, origin: real, scale: real)
    requires scale > 0.0 && p >= origin && 0.0 <= (p - origin) / scale <= QUANT_MAX as real
    ensures -0.00005 <= p - Unpack(Quantise(p, origin, scale), origin, scale) < scale + 0.00005
  {
    TruncationError(p - origin, scale);
    assert Quantise(p, origin, scale) == ((p - origin) / scale).Floor;
  }

  /** A cloud with no extent comes back to within the rounding of the origin. */
  lemma FlatCloudRoundTrip(pts: seq<Point>, i: nat, a: Axis)
    requires i < |pts| && Extent(pts) == 0.0
    ensures var origin, scale := Least(pts, a, |pts|), Scale(pts);
            -0.00005 <= Coord(pts[i], a) - Unpack(Quantise(Coord(pts[i], a), origin, scale), origin, scale) <= 0.00005
  {
  }
}
