/** From packets to revolutions: points fall into angle bins, and a start angle
    below the previous one closes the revolution. */
module Revolution {
  import opened Wrappers
  import opened Rounding
  import opened SerialSources

  /** One bin: the nearest return in millimetres, 0 for none, and its intensity. */
  datatype Hit = Hit(range: nat, intensity: nat)

  /** One emitted revolution. */
  datatype Reading = Reading(ranges: seq<nat>, intensities: seq<nat>)

  /** The angle in steps of a full turn over `n`. */
  function Steps(n: pos, p: Point): real {
    p.cdeg / 100.0 * n as real / 360.0
  }

  function Bin(n: pos, p: Point): (b: nat)
    ensures b < n
  {
    RoundHalfEven(Steps(n, p)) % n
  }

  // ---- The table of bins after a sequence of points ----

  function Empty(n: nat): (t: seq<Hit>)
    ensures |t| == n && forall b :: 0 <= b < n ==> t[b] == Hit(0, 0)
  {
    seq(n, _ => Hit(0, 0))
  }

  function Put(n: pos, t: seq<Hit>, p: Point): (r: seq<Hit>)
    requires |t| == n
    ensures |r| == n
  {
    var b := Bin(n, p);
    if p.distance != 0 && (t[b].range == 0 || p.distance < t[b].range)
    then t[b := Hit(p.distance, p.intensity)] else t
  }

  function Table(n: pos, pts: seq<Point>): (t: seq<Hit>)
    ensures |t| == n
  {
    if pts == [] then Empty(n) else Put(n, Table(n, pts[..|pts| - 1]), pts[|pts| - 1])
  }

  ghost function NonEmptyBins(t: seq<Hit>): set<nat> {
    set b: nat | b < |t| && t[b].range != 0
  }

  ghost predicate Returns(n: pos, b: nat, p: Point) {
    p.distance != 0 && Bin(n, p) == b
  }

  /** Each bin holds the minimum of the nonzero distances that fell into it, with
      the intensity of the first point at that distance; 0 when none fell in. */
  lemma {:induction false} TableIsMinimum(n: pos, pts: seq<Point>, b: nat)
    requires b < n
    ensures var t := Table(n, pts);
            && (t[b].range == 0 <==> forall k :: 0 <= k < |pts| ==> !Returns(n, b, pts[k]))
            && (forall k :: 0 <= k < |pts| && Returns(n, b, pts[k]) ==> t[b].range <= pts[k].distance)
            && (t[b].range != 0 ==> FirstNearest(n, pts, b, t[b]))
  {
    if pts != [] {
      var init, p := pts[..|pts| - 1], pts[|pts| - 1];
      TableIsMinimum(n, init, b);
      var before, after := Table(n, init)[b], Table(n, pts)[b];
      forall k | 0 <= k < |pts| && Returns(n, b, pts[k]) ensures after.range != 0 && after.range <= pts[k].distance {
        if k < |init| { assert init[k] == pts[k]; }
      }
      if after.range != 0 {
        if after == before {
          var k :| 0 <= k < |init| && NearestAt(n, init, b, before, k);
          assert NearestAt(n, pts, b, after, k) by {
            assert forall j :: 0 <= j < |init| ==> init[j] == pts[j];
          }
        } else {
          assert NearestAt(n, pts, b, after, |pts| - 1) by {
            assert forall j :: 0 <= j < |init| ==> init[j] == pts[j];
          }
        }
      }
    }
  }

  ghost predicate NearestAt(n: pos, pts: seq<Point>, b: nat, h: Hit, k: nat) {
    && k < |pts| && Returns(n, b, pts[k])
    && h == Hit(pts[k].distance, pts[k].intensity)
    && forall j :: 0 <= j < k && Returns(n, b, pts[j]) ==> pts[j].distance > h.range
  }

  ghost predicate FirstNearest(n: pos, pts: seq<Point>, b: nat, h: Hit) {
    exists k :: 0 <= k < |pts| && NearestAt(n, pts, b, h, k)
  }

  // ---- Splitting the packets at the wraps ----

  function Points(packets: seq<LdsPacket>): seq<Point> {
    if packets == [] then [] else Points(packets[..|packets| - 1]) + packets[|packets| - 1].points
  }

  /** Packet `k` starts below the one before it. */
  predicate WrapsAt(packets: seq<LdsPacket>, k: nat)
    requires k < |packets|
  {
    k > 0 && packets[k].start < packets[k - 1].start
  }

  /** The packets since the last wrap. */
  function Current(packets: seq<LdsPacket>): seq<LdsPacket> {
    if packets == [] then []
    else
      var n := |packets| - 1;
      if WrapsAt(packets, n) then [packets[n]] else Current(packets[..n]) + [packets[n]]
  }

  /** The groups of packets closed by a wrap, in order. */
  function Closed(packets: seq<LdsPacket>): seq<seq<LdsPacket>> {
    if packets == [] then []
    else
      var n := |packets| - 1;
      Closed(packets[..n]) + if WrapsAt(packets, n) then [Current(packets[..n])] else []
  }

  function Join(groups: seq<seq<LdsPacket>>): seq<LdsPacket> {
    if groups == [] then [] else Join(groups[..|groups| - 1]) + groups[|groups| - 1]
  }

  predicate Wraps(init: seq<LdsPacket>, p: LdsPacket) {
    init != [] && p.start < init[|init| - 1].start
  }

  lemma GroupingStep(init: seq<LdsPacket>, p: LdsPacket)
    ensures Wraps(init, p) ==> Current(init + [p]) == [p] && Closed(init + [p]) == Closed(init) + [Current(init)]
    ensures !Wraps(init, p) ==> Current(init + [p]) == Current(init) + [p] && Closed(init + [p]) == Closed(init)
  {
    assert (init + [p])[..|init|] == init;
  }

  lemma JoinMore(groups: seq<seq<LdsPacket>>, g: seq<LdsPacket>)
    ensures Join(groups + [g]) == Join(groups) + g
  {
  }

  /** The groups cut the packets up: none is lost, repeated or moved. */
  lemma {:induction false} GroupsPartition(packets: seq<LdsPacket>)
    ensures Join(Closed(packets)) + Current(packets) == packets
  {
    if packets != [] {
      var init, p := packets[..|packets| - 1], packets[|packets| - 1];
      assert packets == init + [p];
      GroupsPartition(init);
      GroupingStep(init, p);
      JoinMore(Closed(init), Current(init));
      assert Join(Closed(init)) + (Current(init) + [p]) == Join(Closed(init)) + Current(init) + [p];
    }
  }

  /** No start angle inside the group falls below the one before it. */
  ghost predicate Rising(g: seq<LdsPacket>) {
    g != [] && forall k :: 0 < k < |g| ==> !WrapsAt(g, k)
  }

  /** `next` opens with a start angle below the last one of `g`. */
  ghost predicate FallsTo(g: seq<LdsPacket>, next: seq<LdsPacket>) {
    g != [] && next != [] && next[0].start < g[|g| - 1].start
  }

  /** Every cut is at a wrap and every wrap is a cut. */
  lemma {:induction false} GroupsCutAtWraps(packets: seq<LdsPacket>)
    requires packets != []
    ensures var all := Closed(packets) + [Current(packets)];
            && (forall i :: 0 <= i < |all| ==> Rising(all[i]))
            && (forall i :: 0 <= i < |all| - 1 ==> FallsTo(all[i], all[i + 1]))
    ensures Current(packets)[|Current(packets)| - 1] == packets[|packets| - 1]
  {
    var init, p := packets[..|packets| - 1], packets[|packets| - 1];
    assert packets == init + [p];
    GroupingStep(init, p);
    if init != [] {
      GroupsCutAtWraps(init);
      var current := Current(init);
      if Wraps(init, p) {
        assert FallsTo(current, [p]);
        CutAfter(Closed(init), current, [p]);
      } else {
        assert Rising(current) by { assert (Closed(init) + [current])[|Closed(init)|] == current; }
        RisingMore(current, p);
        CutGrows(Closed(init), current, p);
      }
    }
  }

  lemma RisingMore(g: seq<LdsPacket>, p: LdsPacket)
    requires Rising(g) && g[|g| - 1].start <= p.start
    ensures Rising(g + [p])
  {
    forall k | 0 < k < |g| + 1 ensures !WrapsAt(g + [p], k) {
      if k < |g| { assert !WrapsAt(g, k); }
    }
  }

  lemma CutAfter(closed: seq<seq<LdsPacket>>, g: seq<LdsPacket>, next: seq<LdsPacket>)
    requires forall i :: 0 <= i < |closed| + 1 ==> Rising((closed + [g])[i])
    requires forall i :: 0 <= i < |closed| ==> FallsTo((closed + [g])[i], (closed + [g])[i + 1])
    requires FallsTo(g, next) && Rising(next)
    ensures var all := closed + [g] + [next];
            && (forall i :: 0 <= i < |all| ==> Rising(all[i]))
            && (forall i :: 0 <= i < |all| - 1 ==> FallsTo(all[i], all[i + 1]))
  {
  }

  lemma CutGrows(closed: seq<seq<LdsPacket>>, g: seq<LdsPacket>, p: LdsPacket)
    requires forall i :: 0 <= i < |closed| + 1 ==> Rising((closed + [g])[i])
    requires forall i :: 0 <= i < |closed| ==> FallsTo((closed + [g])[i], (closed + [g])[i + 1])
    requires Rising(g + [p])
    ensures var all := closed + [g + [p]];
            && (forall i :: 0 <= i < |all| ==> Rising(all[i]))
            && (forall i :: 0 <= i < |all| - 1 ==> FallsTo(all[i], all[i + 1]))
  {
    var before, all := closed + [g], closed + [g + [p]];
    assert before[|closed|] == g && Rising(before[|closed|]);
    forall i | 0 <= i < |all| ensures Rising(all[i]) {
      if i < |closed| { assert all[i] == before[i]; }
    }
    forall i | 0 <= i < |all| - 1 ensures FallsTo(all[i], all[i + 1]) {
      assert FallsTo(before[i], before[i + 1]);
      if i + 1 < |closed| { assert all[i + 1] == before[i + 1]; }
    }
  }

  // ---- What is emitted ----

  function Output(t: seq<Hit>): (r: Reading)
    ensures |r.ranges| == |r.intensities| == |t|
    ensures forall b :: 0 <= b < |t| ==> Hit(r.ranges[b], r.intensities[b]) == t[b]
  {
    Reading(seq(|t|, b requires 0 <= b < |t| => t[b].range), seq(|t|, b requires 0 <= b < |t| => t[b].intensity))
  }

  ghost predicate Dense(n: pos, g: seq<LdsPacket>) {
    |NonEmptyBins(Table(n, Points(g)))| >= n / 4
  }

  lemma DenseIsAQuarter(n: pos, g: seq<LdsPacket>)
    ensures Dense(n, g) <==> 4 * |NonEmptyBins(Table(n, Points(g)))| > n - 4
  {
  }

  /** One reading per closed group that fills a quarter of the bins. */
  ghost function Emitted(n: pos, groups: seq<seq<LdsPacket>>): seq<Reading> {
    if groups == [] then []
    else
      var g := groups[|groups| - 1];
      Emitted(n, groups[..|groups| - 1]) + if Dense(n, g) then [Output(Table(n, Points(g)))] else []
  }

  class Assembler {
    const points: pos
    var ranges: array<nat>
    var intensities: array<nat>
    var filled: nat
    var lastStart: Option<nat>
    var yielded: seq<Reading>

    ghost var taken: seq<LdsPacket>  // every packet so far

    ghost predicate Shaped()
      reads this
    {
      ranges.Length == intensities.Length == points && ranges != intensities
    }

    /** The arrays hold the table `t`. */
    ghost predicate Holds(t: seq<Hit>)
      requires Shaped() && |t| == points
      reads this, ranges, intensities
    {
      && (forall b :: 0 <= b < points ==> ranges[b] == t[b].range && intensities[b] == t[b].intensity)
      && filled == |NonEmptyBins(t)|
    }

    /** The bins hold exactly the current group, and one reading went out for every
        dense group closed before it. */
    ghost predicate Valid()
      reads this, ranges, intensities
    {
      && Shaped()
      && Holds(Table(points, Points(Current(taken))))
      && lastStart == (if taken == [] then None else Some(taken[|taken| - 1].start))
      && yielded == Emitted(points, Closed(taken))
    }

    constructor (n: pos)
      ensures Valid() && points == n && taken == [] && yielded == [] && fresh(ranges) && fresh(intensities)
    {
      points := n;
      ranges := new nat[n](_ => 0);
      intensities := new nat[n](_ => 0);
      filled, lastStart, yielded, taken := 0, None, [], [];
      new;
      assert NonEmptyBins(Empty(n)) == {};
    }

    method AddPoint(p: Point, ghost t: seq<Hit>)
      requires Shaped() && |t| == points && Holds(t)
      modifies ranges, intensities, this`filled
      ensures Shaped() && Holds(Put(points, t, p))
    {
      if p.distance == 0 {
        return;
      }
      var index := Bin(points, p);
      ghost var r := Put(points, t, p);
      if ranges[index] == 0 {
        filled := filled + 1;
        assert NonEmptyBins(r) == NonEmptyBins(t) + {index};
      } else {
        assert NonEmptyBins(r) == NonEmptyBins(t);
      }
      if ranges[index] == 0 || p.distance < ranges[index] {
        ranges[index] := p.distance;
        intensities[index] := p.intensity;
      }
    }

    method AddPoints(pts: seq<Point>, ghost base: seq<Point>)
      requires Shaped() && Holds(Table(points, base))
      modifies ranges, intensities, this`filled
      ensures Shaped() && Holds(Table(points, base + pts))
    {
      assert base + pts[..0] == base;
      var i := 0;
      while i < |pts|
        invariant 0 <= i <= |pts| && Shaped()
        invariant Holds(Table(points, base + pts[..i]))
      {
        AddPoint(pts[i], Table(points, base + pts[..i]));
        ghost var next := base + pts[..i + 1];
        assert next[..|next| - 1] == base + pts[..i];
        i := i + 1;
      }
      assert pts[..i] == pts;
    }

    /** The bins, emptied: fresh arrays after a reading went out, else in place. */
    method Clear()
      requires Shaped()
      modifies ranges, intensities, this`filled
      ensures Shaped() && Holds(Empty(points))
    {
      forall b | 0 <= b < points { ranges[b] := 0; }
      forall b | 0 <= b < points { intensities[b] := 0; }
      filled := 0;
      assert NonEmptyBins(Empty(points)) == {};
    }

    method Snapshot(ghost t: seq<Hit>) returns (r: Reading)
      requires Shaped() && |t| == points && Holds(t)
      ensures r == Output(t)
    {
      r := Reading(ranges[..], intensities[..]);
    }

    /** Close the revolution: send it on if it fills a quarter of the bins. */
    method CloseRevolution(ghost g: seq<LdsPacket>)
      requires Shaped() && Holds(Table(points, Points(g)))
      modifies this`filled, this`yielded, this`ranges, this`intensities, ranges, intensities
      ensures Shaped() && Holds(Empty(points))
      ensures yielded == old(yielded) + if Dense(points, g) then [Output(Table(points, Points(g)))] else []
      ensures ranges == old(ranges) || fresh(ranges)
      ensures intensities == old(intensities) || fresh(intensities)
    {
      if filled >= points / 4 {
        var r := Snapshot(Table(points, Points(g)));
        yielded := yielded + [r];
        ranges := new nat[points](_ => 0);
        intensities := new nat[points](_ => 0);
        filled := 0;
        assert NonEmptyBins(Empty(points)) == {};
      } else {
        Clear();
      }
    }

    /** Close the revolution if this packet wraps; `group` is what the packet joins. */
    method CloseIfWrapped(packet: LdsPacket, ghost all: seq<LdsPacket>) returns (ghost group: seq<LdsPacket>)
      requires Valid() && all == taken + [packet]
      modifies this`filled, this`yielded, this`ranges, this`intensities, ranges, intensities
      ensures Shaped() && Holds(Table(points, Points(group)))
      ensures Current(all) == group + [packet] && yielded == Emitted(points, Closed(all))
      ensures ranges == old(ranges) || fresh(ranges)
      ensures intensities == old(intensities) || fresh(intensities)
    {
      ghost var closed := Closed(taken);
      group := Current(taken);
      GroupingStep(taken, packet);
      if lastStart.Some? && packet.start < lastStart.value {
        assert Wraps(taken, packet);
        CloseRevolution(group);
        EmittedMore(points, closed, group);
        group := [];
      }
    }

    /** Let the packet join the group it belongs to. */
    method JoinGroup(packet: LdsPacket, ghost group: seq<LdsPacket>, ghost all: seq<LdsPacket>)
      requires Shaped() && Holds(Table(points, Points(group)))
      requires all != [] && all[|all| - 1] == packet
      requires Current(all) == group + [packet] && yielded == Emitted(points, Closed(all))
      modifies this`filled, this`lastStart, this`taken, ranges, intensities
      ensures Valid() && taken == all
    {
      ghost var base := Points(group);
      PointsMore(group, packet);
      AddPoints(packet.points, base);
      lastStart, taken := Some(packet.start), all;
      assert Points(Current(all)) == base + packet.points;
    }

    method Packet(packet: LdsPacket)
      requires Valid()
      modifies this`filled, this`lastStart, this`yielded, this`taken, this`ranges, this`intensities, ranges, intensities
      ensures Valid() && taken == old(taken) + [packet]
      ensures ranges == old(ranges) || fresh(ranges)
      ensures intensities == old(intensities) || fresh(intensities)
    {
      ghost var all := taken + [packet];
      assert all[|all| - 1] == packet;
      ghost var group := CloseIfWrapped(packet, all);
      JoinGroup(packet, group, all);
    }
  }

  lemma EmittedMore(n: pos, groups: seq<seq<LdsPacket>>, g: seq<LdsPacket>)
    ensures Emitted(n, groups + [g]) ==
            Emitted(n, groups) + if Dense(n, g) then [Output(Table(n, Points(g)))] else []
  {
  }

  lemma PointsMore(g: seq<LdsPacket>, p: LdsPacket)
    ensures Points(g + [p]) == Points(g) + p.points
  {
  }

  /** After a wrap the bins hold the new packet's points alone: nothing of an
      emitted or a discarded revolution leaks into the next. */
  lemma NothingLeaks(n: pos, packets: seq<LdsPacket>, p: LdsPacket)
    requires Wraps(packets, p)
    ensures Table(n, Points(Current(packets + [p]))) == Table(n, p.points)
  {
    GroupingStep(packets, p);
    PointsMore([], p);
    assert [] + p.points == p.points;
  }

  // ---- Which bin a point falls into ----

  /** `k` steps of a full turn over `n` is the closest such bearing to this angle. */
  predicate Closest(n: pos, cdeg: real, k: int) {
    36000.0 * k as real - 18000.0 <= cdeg * n as real <= 36000.0 * k as real + 18000.0
  }

  /** A point falls into the bin whose bearing, of `n` spread evenly over the turn, is
      closest to its angle. */
  lemma BinIsClosest(n: pos, p: Point)
    ensures exists k: int {:trigger Closest(n, p.cdeg, k)} :: k % n == Bin(n, p) && Closest(n, p.cdeg, k)
  {
    RoundsToClosest(n, p.cdeg, Steps(n, p));
    assert Closest(n, p.cdeg, RoundHalfEven(Steps(n, p)));
  }

  lemma RoundsToClosest(n: pos, cdeg: real, z: real)
    requires z == cdeg / 100.0 * n as real / 360.0
    ensures Closest(n, cdeg, RoundHalfEven(z))
  {
    Hundredths(cdeg, cdeg / 100.0, n as real);
  }

  lemma Hundredths(x: real, y: real, n: real)
    requires 100.0 * y == x
    ensures 100.0 * (y * n) == x * n
  {
    assert 100.0 * (y * n) == (100.0 * y) * n;
  }
}
