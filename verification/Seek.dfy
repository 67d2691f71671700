/** When the first scan is finished, and what a mission remembers: the sliding
    coverage window and the verdict it feeds, the target slot, the keyframes. */
module Seek {
  import opened Wrappers

  // ---- The coverage window ----

  datatype Sample = Sample(t: real, cells: int)

  /** The clock does not go back. */
  ghost predicate Ascending(h: seq<Sample>) {
    forall i, j :: 0 <= i < j < |h| ==> h[i].t <= h[j].t
  }

  /** Where the window over a history starts: at the last sample older than the window
      that still leaves two, or at the beginning while there is none. */
  ghost predicate WindowStart(h: seq<Sample>, window: real, k: nat)
    requires h != []
  {
    var cutoff := h[|h| - 1].t - window;
    && k < |h|
    && (k > 0 ==> k + 2 <= |h| && h[k].t < cutoff)
    && (k + 2 < |h| ==> h[k + 1].t >= cutoff)
  }

  class CoverageTracker {
    const windowS: real
    var samples: seq<Sample>
    ghost var history: seq<Sample>
    ghost var start: nat

    ghost predicate Valid()
      reads this
    {
      && Ascending(history)
      && |samples| + start == |history|
      && (forall i :: 0 <= i < |samples| ==> samples[i] == history[start + i])
      && (history == [] ==> samples == [])
      && (history != [] ==> WindowStart(history, windowS, start))
    }

    constructor (windowS: real)
      ensures Valid() && history == [] && this.windowS == windowS
    {
      this.windowS := windowS;
      samples, history, start := [], [], 0;
    }

    method Observe(cells: int, now: real)
      requires Valid() && forall i :: 0 <= i < |history| ==> history[i].t <= now
      modifies this
      ensures Valid() && history == old(history) + [Sample(now, cells)]
    {
      samples := samples + [Sample(now, cells)];
      history := history + [Sample(now, cells)];
      var cutoff := now - windowS;
      while |samples| > 2 && samples[1].t < cutoff
        invariant |samples| + start == |history| && |samples| > 0
        invariant history == old(history) + [Sample(now, cells)]
        invariant forall i :: 0 <= i < |samples| ==> samples[i] == history[start + i]
        invariant start > 0 ==> |samples| >= 2 && history[start].t < cutoff
      {
        samples := samples[1..];
        start := start + 1;
      }
    }

    /** Newest minus oldest sample held. */
    method SpanS() returns (span: real)
      requires Valid()
      ensures history == [] ==> span == 0.0
      ensures history != [] ==> span == history[|history| - 1].t - history[start].t
    {
      if |samples| < 2 {
        return 0.0;
      }
      span := samples[|samples| - 1].t - samples[0].t;
    }

    /** Cells gained per second over the window; None under one second of it. */
    method RateCellsPerS() returns (rate: Option<real>)
      requires Valid()
      ensures rate.Some? <==> history != [] && history[|history| - 1].t - history[start].t >= 1.0
      ensures rate.Some? ==> rate.value * (history[|history| - 1].t - history[start].t)
                             == (history[|history| - 1].cells - history[start].cells) as real
    {
      if |samples| < 2 {
        return None;
      }
      var first, last := samples[0], samples[|samples| - 1];
      var dt := last.t - first.t;
      if dt < 1.0 {
        return None;
      }
      rate := Some((last.cells - first.cells) as real / dt);
    }
  }

  ghost predicate GapsAtMost(h: seq<Sample>, g: real) {
    forall i :: 0 <= i < |h| - 1 ==> h[i + 1].t - h[i].t <= g
  }

  /** With observations at most `g` apart the span measured lies between the smaller of
      the elapsed time and the window, and the window and one gap more. */
  lemma SpanBounds(h: seq<Sample>, window: real, g: real, k: nat)
    requires h != [] && Ascending(h) && window >= 0.0 && g >= 0.0 && GapsAtMost(h, g)
    requires WindowStart(h, window, k)
    ensures var span, elapsed := h[|h| - 1].t - h[k].t, h[|h| - 1].t - h[0].t;
            span <= window + g && (span >= elapsed || span >= window)
  {
  }

  /** A window has one start: what is held is a function of the history. */
  lemma WindowStartUnique(h: seq<Sample>, window: real, k: nat, l: nat)
    requires h != [] && Ascending(h) && WindowStart(h, window, k) && WindowStart(h, window, l)
    ensures k == l
  {
  }

  // ---- The verdict on the first scan ----

  datatype Criteria = Criteria(minExplored: real, maxOpenExits: int, stallCellsPerS: real, minStallWindowS: real,
                               minAgreement: real, minFrames: int, minRuntimeS: real)

  /** What the grid says of itself: the fraction its own summary carries (a summary
      without one reads as zero), or the cell counts when it has no summary. */
  datatype GridInfo = Summary(explored: Option<real>) | Counted(size: nat, unknown: nat)

  datatype Exit = Exit(status: string, widthM: real)

  datatype Coverage = Coverage(rate: Option<real>, span: real)

  datatype Run = Run(grid: Option<GridInfo>, exits: seq<Exit>, coverage: Option<Coverage>, meanAgreement: Option<real>,
                     frames: int, runtimeS: real, minExitWidthM: real)

  datatype Blocking = NoGrid | Explored | OpenExits | NotEnoughHistory | StillGrowing | NeverCompared | NotPlaced | TooEarly

  function ExploredFraction(g: GridInfo): real {
    match g
    case Summary(explored) => if explored.Some? then explored.value else 0.0
    case Counted(size, unknown) => if size > 0 then (size - unknown) as real / size as real else 0.0
  }

  predicate IsOpen(e: Exit, minWidth: real) {
    e.status == "open" && e.widthM >= minWidth
  }

  function OpenExitsAmong(exits: seq<Exit>, minWidth: real, n: nat): nat
    requires n <= |exits|
  {
    if n == 0 then 0 else OpenExitsAmong(exits, minWidth, n - 1) + (if IsOpen(exits[n - 1], minWidth) then 1 else 0)
  }

  predicate ExploredEnough(c: Criteria, run: Run) {
    run.grid.Some? && ExploredFraction(run.grid.value) >= c.minExplored
  }

  predicate NotGrowing(c: Criteria, run: Run) {
    && run.coverage.Some? && run.coverage.value.rate.Some?
    && run.coverage.value.span >= c.minStallWindowS
    && run.coverage.value.rate.value < c.stallCellsPerS
  }

  predicate Placed(c: Criteria, run: Run) {
    run.meanAgreement.Some? && run.meanAgreement.value >= c.minAgreement
  }

  predicate PastMinimums(c: Criteria, run: Run) {
    run.frames >= c.minFrames && run.runtimeS >= c.minRuntimeS
  }

  /** The test behind each reason fails, in the way the reason says. */
  predicate Fails(c: Criteria, run: Run, b: Blocking) {
    match b
    case NoGrid => run.grid.None?
    case Explored => run.grid.Some? && !ExploredEnough(c, run)
    case OpenExits => OpenExitsAmong(run.exits, run.minExitWidthM, |run.exits|) > c.maxOpenExits
    case NotEnoughHistory => run.coverage.None? || run.coverage.value.rate.None? || run.coverage.value.span < c.minStallWindowS
    case StillGrowing =>
      && run.coverage.Some? && run.coverage.value.rate.Some? && run.coverage.value.span >= c.minStallWindowS
      && run.coverage.value.rate.value >= c.stallCellsPerS
    case NeverCompared => run.meanAgreement.None?
    case NotPlaced => run.meanAgreement.Some? && !Placed(c, run)
    case TooEarly => !PastMinimums(c, run)
  }

  method CountOpenExits(exits: seq<Exit>, minWidth: real) returns (open: nat)
    ensures open == OpenExitsAmong(exits, minWidth, |exits|)
  {
    open := 0;
    for i := 0 to |exits|
      invariant open == OpenExitsAmong(exits, minWidth, i)
    {
      if IsOpen(exits[i], minWidth) {
        open := open + 1;
      }
    }
  }

  /** One more reason when a test fails. */
  function Blocked(reasons: seq<Blocking>, ok: bool, why: Blocking): (more: seq<Blocking>)
    ensures more == [] <==> reasons == [] && ok
    ensures forall b :: b in more <==> b in reasons || (!ok && b == why)
  {
    if ok then reasons else reasons + [why]
  }

  function Reasons(explored: bool, whyExplored: Blocking, exits: bool, growth: bool, whyGrowth: Blocking,
                   placed: bool, whyPlaced: Blocking, floor: bool): (reasons: seq<Blocking>)
    ensures reasons == [] <==> explored && exits && growth && placed && floor
    ensures forall b :: b in reasons <==>
              || (b == whyExplored && !explored) || (b == OpenExits && !exits) || (b == whyGrowth && !growth)
              || (b == whyPlaced && !placed) || (b == TooEarly && !floor)
  {
    Blocked(Blocked(Blocked(Blocked(Blocked([], explored, whyExplored), exits, OpenExits), growth, whyGrowth),
                    placed, whyPlaced), floor, TooEarly)
  }

  /** Is the first scan done?  Ready exactly when nothing is blocking, which is exactly
      when every test passes; each reason given is a test that fails. */
  method T1ExitCriteria(c: Criteria, run: Run) returns (ready: bool, blocking: seq<Blocking>)
    ensures ready <==> blocking == []
    ensures ready <==> ExploredEnough(c, run) && OpenExitsAmong(run.exits, run.minExitWidthM, |run.exits|) <= c.maxOpenExits
                       && NotGrowing(c, run) && Placed(c, run) && PastMinimums(c, run)
    ensures forall b :: b in blocking <==> Fails(c, run, b)
  {
    var open := CountOpenExits(run.exits, run.minExitWidthM);
    var okExplored := ExploredEnough(c, run);
    var okExits := open <= c.maxOpenExits;
    var okGrowth := NotGrowing(c, run);
    var okPlaced := Placed(c, run);
    var okFloor := PastMinimums(c, run);
    var measured := run.coverage.Some? && run.coverage.value.rate.Some? && run.coverage.value.span >= c.minStallWindowS;
    var whyExplored := if run.grid.None? then NoGrid else Explored;
    var whyGrowth := if measured then StillGrowing else NotEnoughHistory;
    var whyPlaced := if run.meanAgreement.None? then NeverCompared else NotPlaced;
    blocking := Reasons(okExplored, whyExplored, okExits, okGrowth, whyGrowth, okPlaced, whyPlaced, okFloor);
    ready := okExplored && okExits && okGrowth && okPlaced && okFloor;
  }

  /** Exits still open and wide enough, among the first `n`. */
  ghost function Worthwhile(exits: seq<Exit>, minWidth: real, n: nat): set<nat>
    requires n <= |exits|
  {
    set i: nat | i < n && exits[i].status == "open" && exits[i].widthM >= minWidth
  }

  lemma {:induction false} OpenExitsAreCounted(exits: seq<Exit>, minWidth: real, n: nat)
    requires n <= |exits|
    ensures OpenExitsAmong(exits, minWidth, n) == |Worthwhile(exits, minWidth, n)|
  {
    if n == 0 {
      assert Worthwhile(exits, minWidth, n) == {};
    } else {
      OpenExitsAreCounted(exits, minWidth, n - 1);
      var last: nat := n - 1;
      assert Worthwhile(exits, minWidth, n)
          == Worthwhile(exits, minWidth, last) + (if IsOpen(exits[last], minWidth) then {last} else {});
    }
  }

  /** The grid says that at least this share of it was observed; a summary that does not
      say, and a grid without cells, count as nothing observed. */
  predicate SaysObserved(g: GridInfo, share: real) {
    match g
    case Summary(explored) => if explored.Some? then explored.value >= share else share <= 0.0
    case Counted(size, unknown) => if size > 0 then (size - unknown) as real >= share * size as real else share <= 0.0
  }

  lemma ShareOf(a: real, n: real, share: real)
    requires n > 0.0
    ensures a / n >= share <==> a >= share * n
  {
    var q := a / n;
    assert q * n == a;
    if q >= share {
      assert (q - share) * n >= 0.0;
    } else {
      assert (share - q) * n > 0.0;
    }
  }

  lemma ObservedIsExplored(g: GridInfo, share: real)
    ensures ExploredFraction(g) >= share <==> SaysObserved(g, share)
  {
    if g.Counted? && g.size > 0 {
      ShareOf((g.size - g.unknown) as real, g.size as real, share);
    }
  }

  /** The verdict in full: enough observed, few enough open exits, a coverage measured
      for long enough and no longer growing, an agreement, and the two floors. */
  lemma ReadyMeans(c: Criteria, run: Run)
    ensures (forall b :: !Fails(c, run, b)) <==>
              && run.grid.Some? && SaysObserved(run.grid.value, c.minExplored)
              && |Worthwhile(run.exits, run.minExitWidthM, |run.exits|)| <= c.maxOpenExits
              && run.coverage.Some? && run.coverage.value.rate.Some? && run.coverage.value.span >= c.minStallWindowS
              && run.coverage.value.rate.value < c.stallCellsPerS
              && run.meanAgreement.Some? && run.meanAgreement.value >= c.minAgreement
              && run.frames >= c.minFrames && run.runtimeS >= c.minRuntimeS
  {
    OpenExitsAreCounted(run.exits, run.minExitWidthM, |run.exits|);
    if run.grid.Some? {
      ObservedIsExplored(run.grid.value, c.minExplored);
    }
    if forall b :: !Fails(c, run, b) {
      assert !Fails(c, run, NoGrid) && !Fails(c, run, Explored) && !Fails(c, run, OpenExits) && !Fails(c, run, NotEnoughHistory);
      assert !Fails(c, run, StillGrowing) && !Fails(c, run, NeverCompared) && !Fails(c, run, NotPlaced) && !Fails(c, run, TooEarly);
    }
  }

  /** Observations `g` apart can never satisfy a stall window above the tracker's own
      window and one gap: such a configuration never finishes the first scan. */
  lemma StallWindowUnreachable(c: Criteria, run: Run, h: seq<Sample>, window: real, g: real, k: nat)
    requires h != [] && Ascending(h) && window >= 0.0 && g >= 0.0 && GapsAtMost(h, g) && WindowStart(h, window, k)
    requires run.coverage.Some? ==> run.coverage.value.span == h[|h| - 1].t - h[k].t
    requires c.minStallWindowS > window + g
    ensures !NotGrowing(c, run)
  {
  }

  /** A stall window no longer than the tracker's is met as soon as that much time
      has passed, however the observations fall. */
  lemma StallWindowReached(c: Criteria, h: seq<Sample>, window: real, k: nat)
    requires h != [] && Ascending(h) && WindowStart(h, window, k)
    requires c.minStallWindowS <= window && c.minStallWindowS <= h[|h| - 1].t - h[0].t
    ensures h[|h| - 1].t - h[k].t >= c.minStallWindowS
  {
  }

  /** A history with gaps of at most `g` over which the tracker measures a span of at
      least `stall`. */
  ghost predicate Measures(h: seq<Sample>, window: real, g: real, k: nat, stall: real) {
    && h != [] && Ascending(h) && GapsAtMost(h, g) && WindowStart(h, window, k)
    && h[|h| - 1].t - h[k].t >= stall
  }

  /** Observations every `g`, the last one cut back to `end`. */
  function Steady(n: nat, g: real, end: real): (h: seq<Sample>)
    ensures |h| == n && forall i :: 0 <= i < n ==> h[i].t == (if i as real * g <= end then i as real * g else end)
  {
    seq(n, i requires 0 <= i => Sample(if i as real * g <= end then i as real * g else end, 0))
  }

  lemma TimesGrow(i: nat, j: nat, g: real)
    requires g > 0.0 && i < j
    ensures i as real * g <= j as real * g
  {
  }

  lemma SteadyIsAscending(n: nat, g: real, end: real)
    requires g > 0.0
    ensures Ascending(Steady(n, g, end)) && GapsAtMost(Steady(n, g, end), g)
  {
    var h := Steady(n, g, end);
    forall i, j | 0 <= i < j < n ensures h[i].t <= h[j].t {
      TimesGrow(i, j, g);
      CutKeepsOrder(i as real * g, j as real * g, end);
    }
    forall i | 0 <= i < n - 1 ensures h[i + 1].t - h[i].t <= g {
      StepOf(i, g);
      CutBack(i as real * g, (i + 1) as real * g, g, end);
    }
  }

  lemma StepOf(i: nat, g: real)
    ensures (i + 1) as real * g == i as real * g + g
  {
  }

  lemma CutKeepsOrder(a: real, b: real, end: real)
    requires a <= b
    ensures (if a <= end then a else end) <= (if b <= end then b else end)
  {
  }

  lemma CutBack(a: real, b: real, g: real, end: real)
    requires b == a + g && g > 0.0
    ensures (if b <= end then b else end) - (if a <= end then a else end) <= g
  {
  }

  lemma EnoughSteps(end: real, g: real) returns (n: nat)
    requires g > 0.0 && end >= 0.0
    ensures n as real * g >= end
  {
    var q := end / g;
    n := q.Floor + 1;
    assert q * g == end;
    ProductGrows(q, n as real, g);
  }

  lemma ProductGrows(a: real, b: real, g: real)
    requires g > 0.0 && a <= b
    ensures a * g <= b * g
  {
  }

  /** With observations at most `g` apart a stall window can be met at all exactly when
      it is no longer than the tracker's window and one gap. */
  lemma StallWindowReachableIff(window: real, g: real, stall: real)
    requires window >= 0.0 && g > 0.0
    ensures (exists h, k :: Measures(h, window, g, k, stall)) <==> stall <= window + g
  {
    forall h, k | Measures(h, window, g, k, stall) ensures stall <= window + g {
      SpanBounds(h, window, g, k);
    }
    if stall <= window + g {
      var n := EnoughSteps(window + g, g);
      var h := Steady(n + 1, g, window + g);
      SteadyIsAscending(n + 1, g, window + g);
      assert 1 as real * g == g;
      assert h[0].t == 0.0 && h[n].t == window + g;
      assert Measures(h, window, g, 0, stall);
    }
  }

  // ---- The target slot ----

  datatype Basis = Live | Memory

  /** A target located in the map.  `born` is provenance the model adds: the number of
      the frame whose image and cloud it was derived from. */
  datatype Sighting = Sighting(target: string, x: real, y: real, confidence: real, mapId: string, basis: Basis, t: nat, born: nat)

  const NS := 1000000000.0
  const PREFER_NEWER_AFTER_S := 20.0

  function AgeS(s: Sighting, now: int): real {
    if s.t != 0 && now > s.t then (now - s.t) as real / NS else 0.0
  }

  predicate Beats(s: Sighting, held: Sighting) {
    || held.target != s.target
    || s.confidence >= held.confidence
    || (s.t - held.t) as real / NS >= PREFER_NEWER_AFTER_S
  }

  function Remembered(held: Option<Sighting>, s: Sighting): Option<Sighting> {
    if held.None? || Beats(s, held.value) then Some(s) else held
  }

  /** Both map identities are known and they differ. */
  predicate OtherMap(s: Sighting, mapId: string) {
    mapId != "" && s.mapId != "" && s.mapId != mapId
  }

  function Recalled(held: Option<Sighting>, target: string, mapId: string, ttlS: real, now: int): (s: Option<Sighting>)
    ensures s.Some? ==> s == held && !OtherMap(s.value, mapId) && (target != "" ==> s.value.target == target)
  {
    if held.None? then None
    else if target != "" && held.value.target != target then None
    else if OtherMap(held.value, mapId) then None
    else if ttlS != 0.0 && AgeS(held.value, now) > ttlS then None
    else held
  }

  class TargetMemory {
    const ttlS: real
    var best: Option<Sighting>
    var updates: nat

    constructor (ttlS: real)
      ensures best.None? && updates == 0 && this.ttlS == ttlS
    {
      this.ttlS := ttlS;
      best, updates := None, 0;
    }

    /** Store the sighting if it beats what is held; says whether it did. */
    method Remember(s: Sighting) returns (stored: bool)
      modifies this
      ensures best == Remembered(old(best), s)
      ensures stored <==> best == Some(s) && updates == old(updates) + 1
      ensures !stored ==> best == old(best) && updates == old(updates)
    {
      if best.None? || best.value.target != s.target {
        best, updates := Some(s), updates + 1;
        return true;
      }
      var newerBy := (s.t - best.value.t) as real / NS;
      if s.confidence >= best.value.confidence || newerBy >= PREFER_NEWER_AFTER_S {
        best, updates := Some(s), updates + 1;
        return true;
      }
      return false;
    }

    method Recall(target: string, mapId: string, now: int) returns (s: Option<Sighting>)
      ensures s == Recalled(best, target, mapId, ttlS, now)
    {
      if best.None? {
        return None;
      }
      var held := best.value;
      if target != "" && held.target != target {
        return None;
      }
      if mapId != "" && held.mapId != "" && held.mapId != mapId {
        return None;
      }
      if ttlS != 0.0 && AgeS(held, now) > ttlS {
        return None;
      }
      return Some(held);
    }

    method Forget()
      modifies this
      ensures best.None? && updates == old(updates)
    {
      best := None;
    }
  }

  /** A sighting takes the slot exactly when the slot is empty, holds another target or
      itself, holds nothing more confident, or holds something twenty seconds older. */
  lemma StoredIff(held: Option<Sighting>, s: Sighting)
    ensures Remembered(held, s) == Some(s) <==>
              || held.None? || held == Some(s) || held.value.target != s.target || s.confidence >= held.value.confidence
              || s.t - held.value.t >= 20_000_000_000
    ensures Remembered(held, s) == Some(s) || Remembered(held, s) == held
  {
  }

  /** What is held is given out exactly when it is of the target asked for, not of another
      known map, and no older than the time to live; a lifetime of zero is for ever, and
      a sighting without a time, or of the future, has no age. */
  lemma RecalledIff(held: Option<Sighting>, target: string, mapId: string, ttlS: real, now: int)
    ensures Recalled(held, target, mapId, ttlS, now) == held || Recalled(held, target, mapId, ttlS, now) == None
    ensures Recalled(held, target, mapId, ttlS, now).Some? <==>
              && held.Some? && (target == "" || held.value.target == target)
              && (mapId == "" || held.value.mapId == "" || held.value.mapId == mapId)
              && (ttlS == 0.0 || (if held.value.t != 0 && now > held.value.t
                                  then (now - held.value.t) as real <= ttlS * 1000000000.0 else 0.0 <= ttlS))
  {
  }

  /** The slot after a sequence of sightings. */
  function RememberedAll(held: Option<Sighting>, seen: seq<Sighting>): Option<Sighting> {
    if seen == [] then held else Remembered(RememberedAll(held, seen[..|seen| - 1]), seen[|seen| - 1])
  }

  /** The slot never goes back to another target, and never drops a sighting for a
      weaker one of the same target taken within the window of preference. */
  lemma {:induction false} SlotHoldsTheLastTarget(held: Option<Sighting>, seen: seq<Sighting>)
    requires seen != []
    ensures var best := RememberedAll(held, seen);
            && best.Some? && best.value.target == seen[|seen| - 1].target
            && (best.value in seen || best == held)
            && (best.value == seen[|seen| - 1] || best.value.confidence > seen[|seen| - 1].confidence)
  {
    var n := |seen| - 1;
    if n > 0 {
      SlotHoldsTheLastTarget(held, seen[..n]);
    }
  }

  // ---- Keyframes ----

  /** The newest `max` of the frames kept. */
  function Newest<K>(kept: seq<K>, max: nat): (held: seq<K>)
    ensures |held| == if |kept| <= max then |kept| else max
    ensures forall i :: 0 <= i < |held| ==> held[i] == kept[|kept| - |held| + i]
  {
    if |kept| <= max then kept else kept[|kept| - max..]
  }

  lemma NewestShrinks<K>(kept: seq<K>, n: nat)
    requires 0 < n <= |kept|
    ensures Newest(kept, n)[1..] == Newest(kept, n - 1)
  {
  }

  lemma NewestGrows<K>(kept: seq<K>, max: nat, k: K)
    ensures Newest(kept, max) + [k] == Newest(kept + [k], |Newest(kept, max)| + 1)
  {
  }

  class KeyframeStore<K(==)> {
    const maxFrames: nat
    const minKeep: nat
    var frames: seq<K>
    var anchored: bool
    var considered: nat
    var stored: nat
    var evicted: nat
    ghost var kept: seq<K>

    ghost predicate Valid()
      reads this
    {
      && frames == Newest(kept, maxFrames)
      && (anchored <==> kept != [])
    }

    constructor (maxFrames: nat, minKeep: nat)
      ensures Valid() && kept == [] && this.maxFrames == maxFrames && this.minKeep == minKeep
      ensures considered == 0 && stored == 0 && evicted == 0
    {
      this.maxFrames, this.minKeep := maxFrames, minKeep;
      frames, anchored, kept := [], false, [];
      considered, stored, evicted := 0, 0, 0;
    }

    /** Evict the oldest frames over the ceiling. */
    method Trim()
      requires frames == Newest(kept, |frames|)
      modifies this`frames, this`evicted
      ensures frames == Newest(kept, if old(|frames|) <= maxFrames then old(|frames|) else maxFrames)
      ensures evicted - old(evicted) == old(|frames|) - |frames|
    {
      while |frames| > maxFrames
        invariant frames == Newest(kept, |frames|) && |frames| <= |kept|
        invariant |frames| == old(|frames|) || maxFrames <= |frames| < old(|frames|)
        invariant evicted - old(evicted) == old(|frames|) - |frames|
      {
        NewestShrinks(kept, |frames|);
        frames := frames[1..];
        evicted := evicted + 1;
      }
    }

    /** Keep a frame if it is the first or the camera has `moved` since the last. */
    method Add(k: K, moved: bool) returns (added: bool)
      requires Valid()
      modifies this
      ensures Valid() && considered == old(considered) + 1
      ensures added == (old(kept) == [] || moved)
      ensures kept == if added then old(kept) + [k] else old(kept)
      ensures stored == if added then old(stored) + 1 else old(stored)
      ensures evicted - old(evicted) == (if added then 1 else 0) - (|frames| - old(|frames|))
    {
      considered := considered + 1;
      if anchored && !moved {
        return false;
      }
      NewestGrows(kept, maxFrames, k);
      frames := frames + [k];
      kept := kept + [k];
      anchored, stored := true, stored + 1;
      Trim();
      return true;
    }

    /** Search order. */
    method NewestFirst() returns (order: seq<K>)
      requires Valid()
      ensures |order| == |frames| && forall i :: 0 <= i < |order| ==> order[i] == kept[|kept| - 1 - i]
    {
      order := seq(|frames|, i requires 0 <= i < |frames| reads this => frames[|frames| - 1 - i]);
    }

    method Clear()
      requires Valid()
      modifies this
      ensures Valid() && kept == [] && considered == old(considered) && stored == old(stored) && evicted == old(evicted)
    {
      frames, anchored, kept := [], false, [];
    }
  }

  /** The floor the store promises: once `minKeep` frames were kept, that many are held.
      It is met by every run exactly when the floor is no higher than the ceiling; the
      store never looks at it. */
  lemma KeyframeFloor<K(!new)>(maxFrames: nat, minKeep: nat, k: K)
    ensures (forall kept: seq<K> :: |kept| >= minKeep ==> |Newest(kept, maxFrames)| >= minKeep) <==> minKeep <= maxFrames
  {
    var run := seq(minKeep, i => k);
    if minKeep > maxFrames {
      assert |Newest(run, maxFrames)| == maxFrames;
    }
  }
}
