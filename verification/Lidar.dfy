/** The widest gap of a revolution: the longest run of clear beams on a circle, found
    in two laps over the array. */
module Lidar {
  import opened Wrappers
  import opened Rounding

  /** The beam `i` steps around the circle. */
  predicate ClearAt(clear: seq<bool>, i: nat)
    requires clear != []
  {
    clear[i % |clear|]
  }

  /** `len` clear beams in a row from beam `s`, wrapping past the end of the array. */
  ghost predicate Run(clear: seq<bool>, s: nat, len: nat)
    requires clear != []
  {
    forall i :: s <= i < s + len ==> ClearAt(clear, i)
  }

  /** No cyclic run of clear beams, of at most one turn, is longer than `len`, and
      `s` starts one of that length. */
  ghost predicate LongestRun(clear: seq<bool>, s: nat, len: nat)
    requires clear != []
  {
    && len <= |clear| && Run(clear, s, len)
    && forall t: nat, l: nat :: l <= |clear| && Run(clear, t, l) ==> l <= len
  }

  /** Beam `i` from beam `t` is beam `i` from the same beam on the first lap. */
  lemma SameBeam(t: nat, i: nat, n: pos)
    ensures (t + i) % n == (t % n + i) % n
  {
    var x := t % n + i;
    assert t + i == (t / n + x / n) * n + x % n;
    ModUnique(t + i, n, t / n + x / n, x % n);
  }

  lemma RunOnFirstLap(clear: seq<bool>, t: nat, l: nat)
    requires clear != [] && Run(clear, t, l)
    ensures Run(clear, t % |clear|, l)
  {
    var r := t % |clear|;
    forall i | r <= i < r + l ensures ClearAt(clear, i) {
      SameBeam(t, i - r, |clear|);
      assert ClearAt(clear, t + (i - r));
    }
  }

  /** A run of a whole turn leaves no beam blocked. */
  lemma WholeTurn(clear: seq<bool>, s: nat, k: nat)
    requires clear != [] && Run(clear, s, |clear|) && k < |clear|
    ensures clear[k]
  {
    var n: pos := |clear|;
    var d := (k - s) % n;
    assert s + d == (0 - (k - s) / n) * n + k;
    ModUnique(s + d, n, 0 - (k - s) / n, k);
    assert ClearAt(clear, s + d);
  }

  /** Every run inside the first `i` beams of the two laps is at most `len` long. */
  ghost predicate NoLonger(clear: seq<bool>, i: nat, len: nat)
    requires clear != []
  {
    forall t: nat, l: nat :: t + l <= i && Run(clear, t, l) ==> l <= len
  }

  /** `start` is where the run reaching beam `i` began: the beam before it is blocked. */
  ghost predicate RunsFrom(clear: seq<bool>, start: Option<nat>, length: nat, i: nat)
    requires clear != []
  {
    && (start.Some? ==> start.value + length == i && Run(clear, start.value, length)
                        && (start.value == 0 || !ClearAt(clear, start.value - 1)))
    && (start.None? ==> i == 0 || !ClearAt(clear, i - 1))
  }

  lemma NoLongerClear(clear: seq<bool>, i: nat, len: nat, start: nat, length: nat)
    requires clear != [] && NoLonger(clear, i, len) && ClearAt(clear, i) && length <= len
    requires start + length == i + 1 && (start == 0 || !ClearAt(clear, start - 1))
    ensures NoLonger(clear, i + 1, len)
  {
  }

  lemma NoLongerBlocked(clear: seq<bool>, i: nat, len: nat)
    requires clear != [] && NoLonger(clear, i, len) && !ClearAt(clear, i)
    ensures NoLonger(clear, i + 1, len)
  {
  }

  /** Two laps see every run of at most one turn. */
  lemma TwoLapsSuffice(clear: seq<bool>, s: nat, len: nat)
    requires clear != [] && len <= |clear| && Run(clear, s, len) && NoLonger(clear, 2 * |clear|, len)
    ensures LongestRun(clear, s, len)
  {
    forall t: nat, l: nat | l <= |clear| && Run(clear, t, l) ensures l <= len {
      RunOnFirstLap(clear, t, l);
      assert t % |clear| + l <= 2 * |clear|;
    }
  }

  /** No run of this length starts before `s` and ends by beam `i` of the two laps. */
  ghost predicate NoneEarlier(clear: seq<bool>, i: nat, s: nat, len: nat)
    requires clear != []
  {
    forall t: nat :: t < s && t + len <= i ==> !Run(clear, t, len)
  }

  lemma NewBestIsFirst(clear: seq<bool>, i: nat, len: nat, start: nat, length: nat)
    requires clear != [] && NoLonger(clear, i, len) && length > len && start + length == i + 1
    ensures NoneEarlier(clear, i + 1, start, length)
  {
  }

  lemma RunGrows(clear: seq<bool>, s: nat, len: nat)
    requires clear != [] && Run(clear, s, len) && ClearAt(clear, s + len)
    ensures Run(clear, s, len + 1)
  {
  }

  /** The first longest run of clear beams when some beam is clear and some is blocked, so
      that no run reaches a whole turn. */
  method LongestClear(clear: seq<bool>) returns (bestStart: nat, bestLen: nat)
    requires true in clear && false in clear
    ensures LongestRun(clear, bestStart, bestLen) && 0 < bestLen < |clear|
    ensures forall t: nat :: t < bestStart ==> !Run(clear, t, bestLen)
  {
    var n: pos := |clear|;
    bestStart, bestLen := 0, 0;
    var start: Option<nat>, length: nat := None, 0;
    for i := 0 to 2 * n
      invariant RunsFrom(clear, start, length, i) && Run(clear, bestStart, bestLen)
      invariant NoLonger(clear, i, bestLen) && NoneEarlier(clear, i, bestStart, bestLen) && bestStart + bestLen <= i
    {
      if ClearAt(clear, i) {
        if start.None? {
          start, length := Some(i), 0;
        }
        RunGrows(clear, start.value, length);
        length := length + 1;
        if length > bestLen {
          NewBestIsFirst(clear, i, bestLen, start.value, length);
          bestLen, bestStart := length, start.value;
        }
        NoLongerClear(clear, i, bestLen, start.value, length);
      } else {
        start, length := None, 0;
        NoLongerBlocked(clear, i, bestLen);
      }
    }
    LessThanATurn(clear, bestStart, bestLen);
    TwoLapsSuffice(clear, bestStart, bestLen);
    OneClear(clear);
  }

  lemma OneClear(clear: seq<bool>)
    requires true in clear
    ensures exists s: nat :: Run(clear, s, 1)
  {
    var k: nat :| k < |clear| && clear[k];
    assert ClearAt(clear, k);
    assert Run(clear, k, 1);
  }

  lemma LessThanATurn(clear: seq<bool>, s: nat, len: nat)
    requires clear != [] && false in clear && Run(clear, s, len)
    ensures len < |clear|
  {
    var k: nat :| k < |clear| && !clear[k];
    if len >= |clear| {
      WholeTurn(clear, s, k);
      assert false;
    }
  }

  /** A no-return counts as clear. */
  function ClearBeams(ranges: seq<Option<real>>, clearM: real): (clear: seq<bool>)
    ensures |clear| == |ranges|
    ensures forall i :: 0 <= i < |ranges| ==> (clear[i] <==> ranges[i].None? || ranges[i].value >= clearM)
  {
    seq(|ranges|, i requires 0 <= i < |ranges| => ranges[i].None? || ranges[i].value >= clearM)
  }

  function Centre(start: nat, len: pos): int {
    RoundHalfEven(start as real + (len - 1) as real / 2.0)
  }

  /** As many beams of the run lie before it as after it; between two middle beams it is
      the even one. */
  predicate Middle(start: nat, len: pos, beam: int) {
    var before, after := beam - start, start + len - 1 - beam;
    before >= 0 && after >= 0 && (before == after || (-1 <= before - after <= 1 && beam % 2 == 0))
  }

  lemma CentreIsMiddle(start: nat, len: pos)
    ensures Middle(start, len, Centre(start, len))
  {
    var x := start as real + (len - 1) as real / 2.0;
    if x == x.Floor as real + 0.5 {
      HalvesGoToEven(x);
    }
  }

  function Width(len: nat, n: pos): real {
    len as real * (360.0 / n as real)
  }

  /** The run's share of the full turn. */
  lemma WidthIsShare(len: nat, n: pos)
    ensures Width(len, n) * n as real == 360.0 * len as real
  {
    var step := 360.0 / n as real;
    assert step * n as real == 360.0;
    Share(len as real, step, n as real);
  }

  lemma Share(len: real, step: real, n: real)
    requires step * n == 360.0
    ensures len * step * n == 360.0 * len
  {
    assert len * step * n == len * (step * n);
  }

  /** Centre bearing, in the unit of `bearings`, and width in degrees of the widest gap;
      no bearing when no beam is clear or the widest gap is under `minFreeDeg`. */
  method WidestFree(ranges: seq<Option<real>>, bearings: seq<real>, clearM: real, minFreeDeg: real)
    returns (bearing: Option<real>, width: real)
    requires |bearings| == |ranges|
    ensures true !in ClearBeams(ranges, clearM) ==> bearing.None? && width == 0.0
    ensures ranges != [] && false !in ClearBeams(ranges, clearM) ==> bearing == Some(0.0) && width == 360.0
    ensures true in ClearBeams(ranges, clearM) && false in ClearBeams(ranges, clearM) ==>
              exists s: nat, len: pos, beam: nat :: LongestRun(ClearBeams(ranges, clearM), s, len) && Middle(s, len, beam)
                && (forall t: nat :: t < s ==> !Run(ClearBeams(ranges, clearM), t, len))
                && width * |ranges| as real == 360.0 * len as real
                && (bearing.None? <==> width < minFreeDeg)
                && (bearing.Some? ==> bearing.value == bearings[beam % |ranges|])
  {
    var clear := ClearBeams(ranges, clearM);
    assert ranges != [] ==> clear[0] in clear;
    if |ranges| == 0 || true !in clear {
      return None, 0.0;
    }
    if false !in clear {
      return Some(0.0), 360.0;
    }
    var bestStart, bestLen := LongestClear(clear);
    CentreIsMiddle(bestStart, bestLen);
    width := Width(bestLen, |ranges|);
    WidthIsShare(bestLen, |ranges|);
    assert LongestRun(clear, bestStart, bestLen);
    if width < minFreeDeg {
      return None, width;
    }
    var centre := Centre(bestStart, bestLen) % |ranges|;
    return Some(bearings[centre]), width;
  }

  /** The beam reported is clear. */
  lemma CentreIsClear(clear: seq<bool>, s: nat, len: pos)
    requires clear != [] && LongestRun(clear, s, len)
    ensures clear[Centre(s, len) % |clear|]
  {
    CentreIsMiddle(s, len);
    assert ClearAt(clear, Centre(s, len));
  }
}
