/** What an announced absence rests on: fruitless looks are tallied over the whole
    session, and a new run does not start the tally over. */
module Absences {
  import opened Wrappers
  import opened Rounding
  import opened Seek
  import opened Deep3r
  import E = Epochs
  import D = Decision

  // ---- A session with its looks counted ----

  /** A session after some frames, with two counts beside it: the fruitless looks since
      the target was last seen live or an absence announced, and those of this run. */
  datatype Tracked = Tracked(world: World, tally: nat, own: nat)

  const START := Tracked(World(E.INIT, D.INIT), 0, 0)

  /** The decision runs on this frame. */
  predicate Clouded(ecfg: E.Config, w: World, f: Frame) {
    E.Step(ecfg, w.recon, f.recon).outcome.Cloud?
  }

  predicate LooksInVain(ecfg: E.Config, cfg: D.Config, w: World, f: Frame) {
    Clouded(ecfg, w, f) && D.Looks(cfg, f.view) && D.Vain(cfg, w.mind, f.view)
  }

  predicate Sees(ecfg: E.Config, cfg: D.Config, w: World, f: Frame) {
    Clouded(ecfg, w, f) && D.Looks(cfg, f.view) && D.SeesNow(cfg, w.mind, f.view)
  }

  predicate Absence(ecfg: E.Config, cfg: D.Config, w: World, f: Frame) {
    D.SaysAbsent(Step(ecfg, cfg, w, f).out)
  }

  function One(b: bool): nat { if b then 1 else 0 }

  function Advance(ecfg: E.Config, cfg: D.Config, t: Tracked, f: Frame): Tracked {
    var vain := One(LooksInVain(ecfg, cfg, t.world, f));
    Tracked(Step(ecfg, cfg, t.world, f).world,
            if Sees(ecfg, cfg, t.world, f) || Absence(ecfg, cfg, t.world, f) then 0 else t.tally + vain,
            (if E.Wipes(t.world.recon, f.recon) then 0 else t.own) + vain)
  }

  function After(ecfg: E.Config, cfg: D.Config, frames: seq<Frame>): Tracked {
    if frames == [] then START
    else Advance(ecfg, cfg, After(ecfg, cfg, frames[..|frames| - 1]), frames[|frames| - 1])
  }

  lemma OneMore(ecfg: E.Config, cfg: D.Config, frames: seq<Frame>, f: Frame)
    ensures After(ecfg, cfg, frames + [f]) == Advance(ecfg, cfg, After(ecfg, cfg, frames), f)
  {
    assert (frames + [f])[..|frames|] == frames;
  }

  /** It is the session of the same frames, seen with its counts. */
  lemma {:induction false} FollowsTheSession(ecfg: E.Config, cfg: D.Config, s: Session, n: nat)
    requires IsRun(ecfg, cfg, s) && n <= |s.frames|
    ensures After(ecfg, cfg, s.frames[..n]).world == s.worlds[n]
  {
    if n > 0 {
      FollowsTheSession(ecfg, cfg, s, n - 1);
      assert Linked(ecfg, cfg, s, n - 1);
      assert s.frames[..n] == s.frames[..n - 1] + [s.frames[n - 1]];
      OneMore(ecfg, cfg, s.frames[..n - 1], s.frames[n - 1]);
    }
  }

  /** The mind a frame meets: a new run has wiped it. */
  function Met(w: World, f: Frame): D.Mind {
    if E.Wipes(w.recon, f.recon) then D.Forgotten(w.mind) else w.mind
  }

  lemma StepDecides(ecfg: E.Config, cfg: D.Config, w: World, f: Frame)
    ensures var h, said := Step(ecfg, cfg, w, f), D.Decide(cfg, Met(w, f), f.view, w.recon.seen);
            && (Clouded(ecfg, w, f) ==> h.world.mind == said.mind && h.out == said.out)
            && (!Clouded(ecfg, w, f) ==> h.world.mind == Met(w, f) && h.out == [])
    ensures D.Vain(cfg, Met(w, f), f.view) == D.Vain(cfg, w.mind, f.view)
    ensures D.SeesNow(cfg, Met(w, f), f.view) == D.SeesNow(cfg, w.mind, f.view)
    ensures Met(w, f).absentRuns == w.mind.absentRuns
  {
  }

  lemma StepTallies(ecfg: E.Config, cfg: D.Config, t: Tracked, f: Frame)
    requires t.world.mind.absentRuns == t.tally
    ensures Advance(ecfg, cfg, t, f).world.mind.absentRuns == Advance(ecfg, cfg, t, f).tally
  {
    StepDecides(ecfg, cfg, t.world, f);
    D.AbsentTally(cfg, Met(t.world, f), f.view, t.world.recon.seen);
  }

  /** At every point of every session the counter holds the fruitless looks since the
      last live sighting or announced absence, whatever runs they belong to. */
  lemma {:induction false} CounterIsTheTally(ecfg: E.Config, cfg: D.Config, frames: seq<Frame>)
    ensures After(ecfg, cfg, frames).world.mind.absentRuns == After(ecfg, cfg, frames).tally
  {
    if frames != [] {
      CounterIsTheTally(ecfg, cfg, frames[..|frames| - 1]);
      StepTallies(ecfg, cfg, After(ecfg, cfg, frames[..|frames| - 1]), frames[|frames| - 1]);
    }
  }

  /** A frame of a session announces an absence exactly when it looks, nothing is known of
      the target, and the tally with this look reaches the configured number. */
  lemma AbsenceIff(ecfg: E.Config, cfg: D.Config, frames: seq<Frame>, f: Frame)
    ensures var t := After(ecfg, cfg, frames);
            Absence(ecfg, cfg, t.world, f) <==>
              && Clouded(ecfg, t.world, f) && D.Looks(cfg, f.view) && D.Nothing(cfg, Met(t.world, f), f.view)
              && cfg.absentAfterRuns != 0
              && t.tally + One(LooksInVain(ecfg, cfg, t.world, f)) >= cfg.absentAfterRuns
  {
    var w := After(ecfg, cfg, frames).world;
    CounterIsTheTally(ecfg, cfg, frames);
    StepDecides(ecfg, cfg, w, f);
    D.AbsentIff(cfg, Met(w, f), f.view, w.recon.seen);
  }

  // ---- Configurations whose absences rest on looks of their own run ----

  ghost predicate RestsOnItsRun(ecfg: E.Config, cfg: D.Config, t: Tracked, f: Frame) {
    Absence(ecfg, cfg, t.world, f) ==> Advance(ecfg, cfg, t, f).own >= cfg.absentAfterRuns
  }

  /** Nothing can withhold an absence that is due: no keyframe and no memory. */
  predicate NothingHeld(cfg: D.Config) {
    cfg.ttlS < 0.0 && (!cfg.keepsKeyframes || cfg.keyframeMax == 0)
  }

  /** No decision stage, no number of looks to reach, or a single look that is always
      announced at once. */
  predicate Honest(cfg: D.Config) {
    !cfg.enabled || !cfg.hasDetector || cfg.absentAfterRuns <= 0 || (cfg.absentAfterRuns == 1 && NothingHeld(cfg))
  }

  predicate Bare(m: D.Mind) {
    m.keyframes == [] && m.recallQueue == []
  }

  lemma BareKnowsNothing(cfg: D.Config, m: D.Mind, v: D.View)
    requires Bare(m) && !D.SeesNow(cfg, m, v) && (m.memory.None? || cfg.ttlS < 0.0)
    ensures D.Nothing(cfg, m, v)
  {
    assert D.Ready(cfg, m, v).recallQueue == [];
  }

  lemma BareStays(cfg: D.Config, m: D.Mind, v: D.View, born: nat)
    requires Bare(m) && (v.seeking || NothingHeld(cfg))
    ensures Bare(D.Decide(cfg, m, v, born).mind)
  {
    if D.Looks(cfg, v) {
      var ready := D.Ready(cfg, m, v);
      D.LiveOutcome(cfg, ready, v, born);
      var l := D.Live1(cfg, ready, v, born);
      assert D.Recall1(cfg, l.mind, l.found, v.target).mind.recallQueue == [];
    }
  }

  /** With one look to reach and nothing held, the counter is zero between frames. */
  lemma {:induction false} CounterStaysZero(ecfg: E.Config, cfg: D.Config, frames: seq<Frame>)
    requires cfg.absentAfterRuns == 1 && NothingHeld(cfg)
    ensures Bare(After(ecfg, cfg, frames).world.mind) && After(ecfg, cfg, frames).world.mind.absentRuns == 0
  {
    if frames != [] {
      var w, f := After(ecfg, cfg, frames[..|frames| - 1]).world, frames[|frames| - 1];
      CounterStaysZero(ecfg, cfg, frames[..|frames| - 1]);
      StepDecides(ecfg, cfg, w, f);
      BareStays(cfg, Met(w, f), f.view, w.recon.seen);
      D.AbsentTally(cfg, Met(w, f), f.view, w.recon.seen);
      D.AbsentIff(cfg, Met(w, f), f.view, w.recon.seen);
      if !D.SeesNow(cfg, w.mind, f.view) {
        BareKnowsNothing(cfg, Met(w, f), f.view);
      }
    }
  }

  lemma HonestRests(ecfg: E.Config, cfg: D.Config, frames: seq<Frame>, f: Frame)
    requires Honest(cfg)
    ensures RestsOnItsRun(ecfg, cfg, After(ecfg, cfg, frames), f)
  {
    AbsenceIff(ecfg, cfg, frames, f);
    if cfg.absentAfterRuns == 1 && NothingHeld(cfg) {
      CounterStaysZero(ecfg, cfg, frames);
      CounterIsTheTally(ecfg, cfg, frames);
    }
  }

  // ---- Every other configuration has a session that shows it ----

  const TARGET := "t"

  /** A frame that looks for the target, with what its image gives. */
  function Look(t: Tracked, run: string, d: D.Detected): Frame {
    Frame(E.Frame(run, t.world.recon.seen, E.Returns),
          D.View(true, TARGET, "", true, D.Image(map[TARGET := d]), None, false, 0, 0))
  }

  predicate OfRun(t: Tracked, run: string) {
    t.world.recon.runId == run
  }

  lemma LookRecon(ecfg: E.Config, cfg: D.Config, t: Tracked, run: string, d: D.Detected)
    requires run != ""
    ensures var n := Advance(ecfg, cfg, t, Look(t, run, d)).world.recon; n.runId == run && n.seen == t.world.recon.seen + 1
    ensures Clouded(ecfg, t.world, Look(t, run, d)) <==> t.world.recon.seen % ecfg.everyN == 0
  {
  }

  /** The looks counted for the run a frame will belong to. */
  function Base(t: Tracked, run: string): nat {
    if t.world.recon.runId != "" && t.world.recon.runId != run then 0 else t.own
  }

  /** What one look that finds nothing does to a mind that holds nothing. */
  lemma EmptyLook(ecfg: E.Config, cfg: D.Config, t: Tracked, run: string, d: D.Detected)
    requires cfg.enabled && cfg.hasDetector && cfg.absentAfterRuns > 0 && run != "" && (d.Raises? || d == D.Hits([]))
    requires var m := Met(t.world, Look(t, run, d)); Bare(m) && m.memory.None?
    ensures var f := Look(t, run, d); var n, m := Advance(ecfg, cfg, t, f), t.world.mind;
            var cloud := t.world.recon.seen % ecfg.everyN == 0;
            var vain := One(cloud && m.seekRuns % D.AtLeast1(cfg.detectEveryN) == 0 && d.Hits?);
            && Bare(n.world.mind) && n.world.mind.memory.None?
            && n.world.mind.seekRuns == m.seekRuns + One(cloud)
            && (Absence(ecfg, cfg, t.world, f) <==> cloud && m.absentRuns + vain >= cfg.absentAfterRuns)
            && (!Absence(ecfg, cfg, t.world, f) ==> n.world.mind.absentRuns == m.absentRuns + vain)
            && n.own == Base(t, run) + vain
  {
    var f := Look(t, run, d);
    var m := Met(t.world, f);
    assert D.LiveHit(cfg, []) == None;
    assert f.view.image.Detect(TARGET) == d;
    LookRecon(ecfg, cfg, t, run, d);
    StepDecides(ecfg, cfg, t.world, f);
    BareKnowsNothing(cfg, m, f.view);
    BareStays(cfg, m, f.view, t.world.recon.seen);
    EmptyMind(cfg, m, f.view, t.world.recon.seen);
    D.AbsentIff(cfg, m, f.view, t.world.recon.seen);
    D.AbsentTally(cfg, m, f.view, t.world.recon.seen);
  }

  lemma EmptyMind(cfg: D.Config, m: D.Mind, v: D.View, born: nat)
    requires D.Looks(cfg, v) && Bare(m) && m.memory.None? && !D.SeesNow(cfg, m, v)
    ensures var n := D.Decide(cfg, m, v, born).mind; n.memory.None? && n.seekRuns == m.seekRuns + 1
  {
    var ready := D.Ready(cfg, m, v);
    D.LiveOutcome(cfg, ready, v, born);
    D.LiveCounts(cfg, ready, v, born);
    D.ChosenIffKnown(cfg, m, v, born);
    BareKnowsNothing(cfg, m, v);
    var l := D.Live1(cfg, ready, v, born);
    D.RecallKeepsCounts(cfg, l.mind, l.found, v.target);
  }

  /** Frames and then one, with the state between. */
  ghost predicate Reached(ecfg: E.Config, cfg: D.Config, frames: seq<Frame>, t: Tracked) {
    After(ecfg, cfg, frames) == t
  }

  /** Numbers still to come before a multiple. */
  function Wait(n: nat, every: pos): nat {
    if n % every == 0 then 0 else every - n % every
  }

  lemma WaitShrinks(n: nat, every: pos)
    ensures n % every != 0 ==> Wait(n + 1, every) < Wait(n, every)
  {
    ModNext(n, every);
  }

  predicate Due(ecfg: E.Config, cfg: D.Config, t: Tracked) {
    t.world.recon.seen % ecfg.everyN == 0 && t.world.mind.seekRuns % D.AtLeast1(cfg.detectEveryN) == 0
  }

  /** Holds nothing, and has counted too few looks to announce. */
  predicate Idle(cfg: D.Config, t: Tracked, k: int) {
    Bare(t.world.mind) && t.world.mind.memory.None? && t.world.mind.absentRuns == k < cfg.absentAfterRuns
  }

  function DetectorWait(cfg: D.Config, t: Tracked): nat { Wait(t.world.mind.seekRuns, D.AtLeast1(cfg.detectEveryN)) }

  function CloudWait(ecfg: E.Config, t: Tracked): nat { Wait(t.world.recon.seen, ecfg.everyN) }

  /** A look before the detector is about to run counts nothing and announces nothing. */
  lemma EarlyLook(ecfg: E.Config, cfg: D.Config, t: Tracked, run: string, k: int)
    requires run != "" && cfg.enabled && cfg.hasDetector && cfg.absentAfterRuns > 0 && Idle(cfg, t, k) && !Due(ecfg, cfg, t)
    ensures var n := Advance(ecfg, cfg, t, Look(t, run, D.Hits([])));
            && Idle(cfg, n, k) && Base(n, run) == Base(t, run)
            && (DetectorWait(cfg, n) < DetectorWait(cfg, t)
                || (DetectorWait(cfg, n) == DetectorWait(cfg, t) && CloudWait(ecfg, n) < CloudWait(ecfg, t)))
  {
    LookRecon(ecfg, cfg, t, run, D.Hits([]));
    EmptyLook(ecfg, cfg, t, run, D.Hits([]));
    WaitShrinks(t.world.mind.seekRuns, D.AtLeast1(cfg.detectEveryN));
    WaitShrinks(t.world.recon.seen, ecfg.everyN);
  }

  /** Looks that find nothing until the detector is about to run. */
  lemma {:induction false} UntilDue(ecfg: E.Config, cfg: D.Config, frames: seq<Frame>, t: Tracked, run: string, k: int)
    returns (more: seq<Frame>, u: Tracked)
    requires Reached(ecfg, cfg, frames, t) && run != "" && cfg.enabled && cfg.hasDetector && cfg.absentAfterRuns > 0
    requires Idle(cfg, t, k)
    ensures Reached(ecfg, cfg, more, u) && Due(ecfg, cfg, u) && Idle(cfg, u, k) && Base(u, run) == Base(t, run)
    decreases DetectorWait(cfg, t), CloudWait(ecfg, t)
  {
    if Due(ecfg, cfg, t) {
      more, u := frames, t;
    } else {
      var f := Look(t, run, D.Hits([]));
      EarlyLook(ecfg, cfg, t, run, k);
      OneMore(ecfg, cfg, frames, f);
      more, u := UntilDue(ecfg, cfg, frames + [f], Advance(ecfg, cfg, t, f), run, k);
    }
  }

  /** A look when the detector runs. */
  lemma DueLook(ecfg: E.Config, cfg: D.Config, t: Tracked, run: string, k: int)
    requires run != "" && cfg.enabled && cfg.hasDetector && cfg.absentAfterRuns > 0 && Idle(cfg, t, k) && Due(ecfg, cfg, t)
    ensures var f := Look(t, run, D.Hits([])); var n := Advance(ecfg, cfg, t, f);
            && OfRun(n, run) && n.own == Base(t, run) + 1
            && (k + 1 < cfg.absentAfterRuns ==> Idle(cfg, n, k + 1))
            && (k + 1 >= cfg.absentAfterRuns ==> Absence(ecfg, cfg, t.world, f))
  {
    LookRecon(ecfg, cfg, t, run, D.Hits([]));
    EmptyLook(ecfg, cfg, t, run, D.Hits([]));
  }

  /** `k` fruitless looks in one run, too few to announce. */
  lemma {:induction false} SomeLooks(ecfg: E.Config, cfg: D.Config, run: string, k: nat)
    returns (frames: seq<Frame>, t: Tracked)
    requires cfg.enabled && cfg.hasDetector && k < cfg.absentAfterRuns && run != ""
    ensures Reached(ecfg, cfg, frames, t) && Idle(cfg, t, k) && (k > 0 ==> OfRun(t, run))
  {
    if k == 0 {
      frames, t := [], START;
    } else {
      frames, t := SomeLooks(ecfg, cfg, run, k - 1);
      frames, t := UntilDue(ecfg, cfg, frames, t, run, k - 1);
      var f := Look(t, run, D.Hits([]));
      DueLook(ecfg, cfg, t, run, k - 1);
      OneMore(ecfg, cfg, frames, f);
      frames, t := frames + [f], Advance(ecfg, cfg, t, f);
    }
  }

  /** All looks but one in run "a", and the last in run "b". */
  lemma ManyLooksCross(ecfg: E.Config, cfg: D.Config) returns (frames: seq<Frame>, f: Frame)
    requires cfg.enabled && cfg.hasDetector && cfg.absentAfterRuns >= 2
    ensures !RestsOnItsRun(ecfg, cfg, After(ecfg, cfg, frames), f)
  {
    var t;
    var k := cfg.absentAfterRuns - 1;
    frames, t := SomeLooks(ecfg, cfg, "a", k);
    frames, t := UntilDue(ecfg, cfg, frames, t, "b", k);
    f := Look(t, "b", D.Hits([]));
    DueLook(ecfg, cfg, t, "b", k);
  }

  // ---- A single look, withheld ----

  /** One fruitless look of run "a" is counted and was not announced. */
  predicate Withheld(t: Tracked) {
    OfRun(t, "a") && t.world.mind.absentRuns >= 1
  }

  /** A look of run "b" on which the detector raises. */
  lemma RaisingLook(ecfg: E.Config, cfg: D.Config, t: Tracked)
    requires cfg.enabled && cfg.hasDetector && cfg.absentAfterRuns == 1 && t.world.mind.absentRuns >= 1
    requires OfRun(t, "a") || (OfRun(t, "b") && t.own == 0 && Bare(t.world.mind) && t.world.mind.memory.None?)
    ensures var f := Look(t, "b", D.Raises); var n := Advance(ecfg, cfg, t, f);
            && n.own == 0
            && (t.world.recon.seen % ecfg.everyN == 0 ==> Absence(ecfg, cfg, t.world, f))
            && (t.world.recon.seen % ecfg.everyN != 0 ==>
                  && OfRun(n, "b") && Bare(n.world.mind) && n.world.mind.memory.None? && n.world.mind.absentRuns >= 1
                  && CloudWait(ecfg, n) < CloudWait(ecfg, t))
  {
    LookRecon(ecfg, cfg, t, "b", D.Raises);
    EmptyLook(ecfg, cfg, t, "b", D.Raises);
    WaitShrinks(t.world.recon.seen, ecfg.everyN);
  }

  lemma {:induction false} UntilCloud(ecfg: E.Config, cfg: D.Config, frames: seq<Frame>, t: Tracked)
    returns (more: seq<Frame>, f: Frame)
    requires cfg.enabled && cfg.hasDetector && cfg.absentAfterRuns == 1 && t.world.mind.absentRuns >= 1
    requires OfRun(t, "a") || (OfRun(t, "b") && t.own == 0 && Bare(t.world.mind) && t.world.mind.memory.None?)
    requires Reached(ecfg, cfg, frames, t)
    ensures !RestsOnItsRun(ecfg, cfg, After(ecfg, cfg, more), f)
    decreases CloudWait(ecfg, t)
  {
    RaisingLook(ecfg, cfg, t);
    f := Look(t, "b", D.Raises);
    if t.world.recon.seen % ecfg.everyN == 0 {
      more := frames;
    } else {
      OneMore(ecfg, cfg, frames, f);
      more, f := UntilCloud(ecfg, cfg, frames + [f], Advance(ecfg, cfg, t, f));
    }
  }

  // By the memory: the target is seen once, then looked for in vain while remembered.

  const PLACE := D.Place(0.0, 0.0)

  function Shown(cfg: D.Config): D.Detected { D.Hits([D.Hit(cfg.minConfidence, Some(PLACE))]) }

  function Seen(cfg: D.Config): Sighting { Sighting(TARGET, 0.0, 0.0, cfg.minConfidence, "", Live, 0, 0) }

  predicate Remembering(cfg: D.Config, t: Tracked) {
    OfRun(t, "a") && Bare(t.world.mind) && t.world.mind.memory == Some(Seen(cfg)) && t.world.mind.absentRuns == 0
  }

  lemma FirstSight(ecfg: E.Config, cfg: D.Config)
    requires cfg.enabled && cfg.hasDetector
    ensures Remembering(cfg, Advance(ecfg, cfg, START, Look(START, "a", Shown(cfg))))
  {
    var f := Look(START, "a", Shown(cfg));
    var m := D.Ready(cfg, D.INIT, f.view);
    assert f.view.image.Detect(TARGET) == Shown(cfg);
    assert D.LiveHit(cfg, Shown(cfg).hits) == Some(D.Hit(cfg.minConfidence, Some(PLACE)));
    LookRecon(ecfg, cfg, START, "a", Shown(cfg));
    StepDecides(ecfg, cfg, START.world, f);
    D.AbsentTally(cfg, D.INIT, f.view, 0);
    BareStays(cfg, D.INIT, f.view, 0);
    assert D.Live1(cfg, m, f.view, 0).found == Some(Seen(cfg));
  }

  lemma RememberedLook(ecfg: E.Config, cfg: D.Config, t: Tracked)
    requires cfg.enabled && cfg.hasDetector && cfg.absentAfterRuns == 1 && cfg.ttlS >= 0.0 && Remembering(cfg, t)
    ensures var n := Advance(ecfg, cfg, t, Look(t, "a", D.Hits([])));
            && (Due(ecfg, cfg, t) ==> Withheld(n))
            && (!Due(ecfg, cfg, t) ==>
                  && Remembering(cfg, n)
                  && (DetectorWait(cfg, n) < DetectorWait(cfg, t)
                      || (DetectorWait(cfg, n) == DetectorWait(cfg, t) && CloudWait(ecfg, n) < CloudWait(ecfg, t))))
  {
    var f := Look(t, "a", D.Hits([]));
    var m := t.world.mind;
    assert D.LiveHit(cfg, []) == None;
    assert f.view.image.Detect(TARGET) == D.Hits([]);
    LookRecon(ecfg, cfg, t, "a", D.Hits([]));
    StepDecides(ecfg, cfg, t.world, f);
    assert Recalled(m.memory, TARGET, "", cfg.ttlS, 0).Some?;
    D.AbsentIff(cfg, m, f.view, t.world.recon.seen);
    D.AbsentTally(cfg, m, f.view, t.world.recon.seen);
    BareStays(cfg, m, f.view, t.world.recon.seen);
    if Clouded(ecfg, t.world, f) {
      MemoryStays(cfg, m, f.view, t.world.recon.seen);
    }
    WaitShrinks(m.seekRuns, D.AtLeast1(cfg.detectEveryN));
    WaitShrinks(t.world.recon.seen, ecfg.everyN);
  }

  lemma MemoryStays(cfg: D.Config, m: D.Mind, v: D.View, born: nat)
    requires D.Looks(cfg, v) && Bare(m) && !D.SeesNow(cfg, m, v)
    ensures var n := D.Decide(cfg, m, v, born).mind; n.memory == m.memory && n.seekRuns == m.seekRuns + 1
  {
    var ready := D.Ready(cfg, m, v);
    D.LiveOutcome(cfg, ready, v, born);
    D.LiveCounts(cfg, ready, v, born);
    var l := D.Live1(cfg, ready, v, born);
    assert l.mind.recallQueue == [];
    D.RecallOutcome(cfg, l.mind, v.target);
    D.RecallKeepsCounts(cfg, l.mind, l.found, v.target);
  }

  lemma {:induction false} WithheldByMemory(ecfg: E.Config, cfg: D.Config, frames: seq<Frame>, t: Tracked)
    returns (more: seq<Frame>, u: Tracked)
    requires cfg.enabled && cfg.hasDetector && cfg.absentAfterRuns == 1 && cfg.ttlS >= 0.0
    requires Reached(ecfg, cfg, frames, t) && Remembering(cfg, t)
    ensures Reached(ecfg, cfg, more, u) && Withheld(u)
    decreases DetectorWait(cfg, t), CloudWait(ecfg, t)
  {
    var f := Look(t, "a", D.Hits([]));
    RememberedLook(ecfg, cfg, t);
    OneMore(ecfg, cfg, frames, f);
    more, u := frames + [f], Advance(ecfg, cfg, t, f);
    if !Due(ecfg, cfg, t) {
      more, u := WithheldByMemory(ecfg, cfg, more, u);
    }
  }

  // By a keyframe: it is kept first, and answers the first look.

  function KeptFrame(cfg: D.Config): Frame {
    var image := D.Image(map[TARGET := Shown(cfg)]);
    Frame(E.Frame("a", 0, E.Returns), D.View(false, "", "", true, image, Some(image), true, 0, 0))
  }

  function Kept(cfg: D.Config): D.Keyframe { D.Keyframe(D.Image(map[TARGET := Shown(cfg)]), "", 0, 0) }

  /** Holding the keyframe, before any look. */
  predicate Holding(cfg: D.Config, t: Tracked) {
    && OfRun(t, "a") && t.world.mind == D.INIT.(keyframes := [Kept(cfg)], anchored := true)
  }

  lemma FirstKeyframe(ecfg: E.Config, cfg: D.Config)
    requires cfg.enabled && cfg.hasDetector && cfg.keepsKeyframes && cfg.keyframeMax >= 1
    ensures Holding(cfg, Advance(ecfg, cfg, START, KeptFrame(cfg)))
  {
    StepDecides(ecfg, cfg, START.world, KeptFrame(cfg));
  }

  lemma KeptShows(cfg: D.Config)
    ensures D.FromKeyframe(cfg, Kept(cfg), TARGET).Some?
  {
    assert Kept(cfg).image.Detect(TARGET) == Shown(cfg);
    assert D.RecallHit(cfg, Shown(cfg).hits) == Some(D.Hit(cfg.minConfidence, Some(PLACE)));
  }

  lemma KeptAnswers(cfg: D.Config, m: D.Mind, v: D.View)
    requires cfg.keepsKeyframes && v.target == TARGET && m == D.INIT.(keyframes := [Kept(cfg)], anchored := true)
    ensures !D.Nothing(cfg, m, v)
  {
    KeptShows(cfg);
    assert D.Ready(cfg, m, v).recallQueue == [Kept(cfg)];
    assert D.Answers(cfg, D.Ready(cfg, m, v), TARGET, 0);
  }

  lemma AnsweredLook(ecfg: E.Config, cfg: D.Config, t: Tracked)
    requires cfg.enabled && cfg.hasDetector && cfg.keepsKeyframes && cfg.absentAfterRuns == 1 && Holding(cfg, t)
    ensures var n := Advance(ecfg, cfg, t, Look(t, "a", D.Hits([])));
            && (t.world.recon.seen % ecfg.everyN == 0 ==> Withheld(n))
            && (t.world.recon.seen % ecfg.everyN != 0 ==> Holding(cfg, n) && CloudWait(ecfg, n) < CloudWait(ecfg, t))
  {
    var f := Look(t, "a", D.Hits([]));
    var m := t.world.mind;
    assert D.LiveHit(cfg, []) == None;
    assert f.view.image.Detect(TARGET) == D.Hits([]);
    LookRecon(ecfg, cfg, t, "a", D.Hits([]));
    StepDecides(ecfg, cfg, t.world, f);
    KeptAnswers(cfg, m, f.view);
    D.AbsentIff(cfg, m, f.view, t.world.recon.seen);
    D.AbsentTally(cfg, m, f.view, t.world.recon.seen);
    WaitShrinks(t.world.recon.seen, ecfg.everyN);
  }

  lemma {:induction false} WithheldByKeyframe(ecfg: E.Config, cfg: D.Config, frames: seq<Frame>, t: Tracked)
    returns (more: seq<Frame>, u: Tracked)
    requires cfg.enabled && cfg.hasDetector && cfg.keepsKeyframes && cfg.absentAfterRuns == 1
    requires Reached(ecfg, cfg, frames, t) && Holding(cfg, t)
    ensures Reached(ecfg, cfg, more, u) && Withheld(u)
    decreases CloudWait(ecfg, t)
  {
    var f := Look(t, "a", D.Hits([]));
    AnsweredLook(ecfg, cfg, t);
    OneMore(ecfg, cfg, frames, f);
    more, u := frames + [f], Advance(ecfg, cfg, t, f);
    if t.world.recon.seen % ecfg.everyN != 0 {
      more, u := WithheldByKeyframe(ecfg, cfg, more, u);
    }
  }

  /** The look of run "a" is withheld, and the first frame of run "b" with a cloud
      announces the absence, though the detector raised on every frame of that run. */
  lemma OneLookCrosses(ecfg: E.Config, cfg: D.Config) returns (frames: seq<Frame>, f: Frame)
    requires cfg.enabled && cfg.hasDetector && cfg.absentAfterRuns == 1 && !NothingHeld(cfg)
    ensures !RestsOnItsRun(ecfg, cfg, After(ecfg, cfg, frames), f)
  {
    var t: Tracked;
    if cfg.ttlS >= 0.0 {
      FirstSight(ecfg, cfg);
      var first := Look(START, "a", Shown(cfg));
      OneMore(ecfg, cfg, [], first);
      frames, t := WithheldByMemory(ecfg, cfg, [] + [first], Advance(ecfg, cfg, START, first));
    } else {
      FirstKeyframe(ecfg, cfg);
      OneMore(ecfg, cfg, [], KeptFrame(cfg));
      frames, t := WithheldByKeyframe(ecfg, cfg, [] + [KeptFrame(cfg)], Advance(ecfg, cfg, START, KeptFrame(cfg)));
    }
    frames, f := UntilCloud(ecfg, cfg, frames, t);
  }

  /** Every absence announced in every session rests on as many fruitless looks of its own
      run as are configured, exactly in the configurations that announce none, that ask
      for none, or that ask for one and can withhold nothing. */
  lemma AbsencesRestOnTheirRunIff(ecfg: E.Config, cfg: D.Config)
    ensures (forall frames, f :: RestsOnItsRun(ecfg, cfg, After(ecfg, cfg, frames), f)) <==> Honest(cfg)
  {
    if Honest(cfg) {
      forall frames, f ensures RestsOnItsRun(ecfg, cfg, After(ecfg, cfg, frames), f) {
        HonestRests(ecfg, cfg, frames, f);
      }
    } else if cfg.absentAfterRuns >= 2 {
      var frames, f := ManyLooksCross(ecfg, cfg);
    } else {
      var frames, f := OneLookCrosses(ecfg, cfg);
    }
  }

  /** The shortest such session: one look in one run and one in the next are announced as
      an absence of two. */
  lemma TwoRunsOneAbsence(ecfg: E.Config, cfg: D.Config, f: Frame, g: Frame)
    requires ecfg.everyN == 1 && f.recon.model.Returns? && g.recon.model.Returns?
    requires f.recon.run != "" && g.recon.run != "" && f.recon.run != g.recon.run
    requires D.Looks(cfg, f.view) && D.Looks(cfg, g.view) && cfg.detectEveryN <= 1 && cfg.absentAfterRuns == 2
    requires f.view.image.Detect(f.view.target) == D.Hits([]) && g.view.image.Detect(g.view.target) == D.Hits([])
    ensures var s := TwoFrames(ecfg, cfg, f, g);
            IsRun(ecfg, cfg, s) && s.outs[0] == [] && s.outs[1] == [D.Absent(g.view.target, g.view.mapId)]
  {
    TwoFramesRun(ecfg, cfg, f, g);
    FirstFrame(ecfg, cfg, f);
    var w := Step(ecfg, cfg, START.world, f).world;
    assert D.LiveHit(cfg, []) == None;
    EmptyMind(cfg, D.INIT, f.view, 0);
    BareKnowsNothing(cfg, D.INIT, f.view);
    D.AbsentIff(cfg, D.INIT, f.view, 0);
    D.AbsentTally(cfg, D.INIT, f.view, 0);
    StepDecides(ecfg, cfg, w, g);
    BareKnowsNothing(cfg, Met(w, g), g.view);
    D.AbsentIff(cfg, Met(w, g), g.view, 1);
    OnlyAbsent(cfg, D.INIT, f.view, 0);
    OnlyAbsent(cfg, Met(w, g), g.view, 1);
  }

  lemma OnlyAbsent(cfg: D.Config, m: D.Mind, v: D.View, born: nat)
    requires D.Looks(cfg, v) && D.Nothing(cfg, m, v)
    ensures D.Decide(cfg, m, v, born).out == if D.SaysAbsent(D.Decide(cfg, m, v, born).out) then [D.Absent(v.target, v.mapId)] else []
  {
    D.ChosenIffKnown(cfg, m, v, born);
    var out := D.Decide(cfg, m, v, born).out;
    if out != [] {
      assert out == [D.Absent(v.target, v.mapId)] && out[0].Absent?;
    }
  }
}
