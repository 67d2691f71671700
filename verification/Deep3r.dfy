/** The whole processor, frame by frame: the reconstruction and the decision over it,
    and what a change of run leaves behind. */
module Deep3r {
  import opened Wrappers
  import Seek
  import E = Epochs
  import D = Decision

  datatype Frame = Frame(recon: E.Frame, view: D.View)

  datatype World = World(recon: E.State, mind: D.Mind)

  datatype Handled = Handled(world: World, outcome: E.Outcome, out: seq<D.Announcement>)

  /** One frame: a new run wipes first, and the decision runs on frames that gave a
      cloud. */
  function Step(ecfg: E.Config, cfg: D.Config, w: World, f: Frame): Handled {
    var mind := if E.Wipes(w.recon, f.recon) then D.Forgotten(w.mind) else w.mind;
    var stepped := E.Step(ecfg, w.recon, f.recon);
    if stepped.outcome.Cloud? then
      var said := D.Decide(cfg, mind, f.view, w.recon.seen);
      Handled(World(stepped.state, said.mind), stepped.outcome, said.out)
    else Handled(World(stepped.state, mind), stepped.outcome, [])
  }

  class Processor {
    const recon: E.Reconstruction
    const seeker: D.Seeker

    function Abs(): World
      reads recon, seeker
    {
      World(recon.Abs(), seeker.Abs())
    }

    constructor (ecfg: E.Config, cfg: D.Config)
      ensures Abs() == World(E.INIT, D.INIT) && recon.cfg == ecfg && seeker.cfg == cfg && fresh(recon) && fresh(seeker)
    {
      recon := new E.Reconstruction(ecfg);
      seeker := new D.Seeker(cfg);
    }

    method Process(f: Frame) returns (outcome: E.Outcome, out: seq<D.Announcement>)
      modifies recon, seeker
      ensures Step(recon.cfg, seeker.cfg, old(Abs()), f) == Handled(Abs(), outcome, out)
    {
      var born := recon.seen;
      if f.recon.run != "" && recon.runId != "" && f.recon.run != recon.runId {
        seeker.NewRun();
      }
      outcome := recon.Process(f.recon);
      out := [];
      if outcome.Cloud? {
        out := seeker.Run(f.view, born);
      }
    }
  }

  // ---- Whole sessions ----

  datatype Session = Session(frames: seq<Frame>, worlds: seq<World>, outs: seq<seq<D.Announcement>>)

  predicate Linked(ecfg: E.Config, cfg: D.Config, s: Session, n: nat)
    requires n < |s.frames| && |s.worlds| == |s.frames| + 1 && |s.outs| == |s.frames|
  {
    var h := Step(ecfg, cfg, s.worlds[n], s.frames[n]);
    h.world == s.worlds[n + 1] && h.out == s.outs[n]
  }

  ghost predicate IsRun(ecfg: E.Config, cfg: D.Config, s: Session) {
    && |s.worlds| == |s.frames| + 1 && |s.outs| == |s.frames|
    && s.worlds[0] == World(E.INIT, D.INIT)
    && forall n {:trigger Linked(ecfg, cfg, s, n)} :: 0 <= n < |s.frames| ==> Linked(ecfg, cfg, s, n)
  }

  predicate RunIs(s: Session, k: nat, run: string)
    requires k < |s.frames|
  {
    s.frames[k].recon.run == "" || s.frames[k].recon.run == run
  }

  /** Every frame from `b` up to but not including `n` names this run or none. */
  ghost predicate OneRun(s: Session, b: nat, n: nat, run: string)
    requires n <= |s.frames|
  {
    forall k :: b <= k < n ==> RunIs(s, k, run)
  }

  /** The frames before `n` with no change of run since. */
  ghost function Since(s: Session, n: nat, run: string): set<nat>
    requires n <= |s.frames|
  {
    set b: nat | b < n && OneRun(s, b, n, run)
  }

  lemma StepRecon(ecfg: E.Config, cfg: D.Config, s: Session, n: nat)
    requires IsRun(ecfg, cfg, s) && n < |s.frames|
    ensures s.worlds[n + 1].recon.seen == s.worlds[n].recon.seen + 1
    ensures s.worlds[n + 1].recon.runId == if s.frames[n].recon.run != "" then s.frames[n].recon.run else s.worlds[n].recon.runId
  {
    assert Linked(ecfg, cfg, s, n);
  }

  lemma {:induction false} SeenCounts(ecfg: E.Config, cfg: D.Config, s: Session, n: nat)
    requires IsRun(ecfg, cfg, s) && n <= |s.frames|
    ensures s.worlds[n].recon.seen == n
  {
    if n > 0 {
      SeenCounts(ecfg, cfg, s, n - 1);
      StepRecon(ecfg, cfg, s, n - 1);
    }
  }

  /** While no run is named, none was. */
  lemma {:induction false} UnnamedSoFar(ecfg: E.Config, cfg: D.Config, s: Session, n: nat, k: nat)
    requires IsRun(ecfg, cfg, s) && k < n <= |s.frames| && s.worlds[n].recon.runId == ""
    ensures s.frames[k].recon.run == ""
  {
    StepRecon(ecfg, cfg, s, n - 1);
    if k < n - 1 {
      UnnamedSoFar(ecfg, cfg, s, n - 1, k);
    }
  }

  /** Without a wipe, frames in one run up to `n` are still in one run after it. */
  lemma SinceGrows(ecfg: E.Config, cfg: D.Config, s: Session, n: nat)
    requires IsRun(ecfg, cfg, s) && n < |s.frames| && !E.Wipes(s.worlds[n].recon, s.frames[n].recon)
    ensures Since(s, n, s.worlds[n].recon.runId) + {n} <= Since(s, n + 1, s.worlds[n + 1].recon.runId)
  {
    StepRecon(ecfg, cfg, s, n);
    var before, after := s.worlds[n].recon.runId, s.worlds[n + 1].recon.runId;
    forall b | b in Since(s, n, before) + {n} ensures OneRun(s, b, n + 1, after) {
      forall k | b <= k < n + 1 ensures RunIs(s, k, after) {
        if k < n {
          assert RunIs(s, k, before);
          if before == "" {
            UnnamedSoFar(ecfg, cfg, s, n, k);
          }
        }
      }
    }
  }

  lemma FreshRun(ecfg: E.Config, cfg: D.Config, s: Session, n: nat)
    requires IsRun(ecfg, cfg, s) && n < |s.frames|
    ensures n in Since(s, n + 1, s.worlds[n + 1].recon.runId)
  {
    StepRecon(ecfg, cfg, s, n);
    assert OneRun(s, n, n + 1, s.worlds[n + 1].recon.runId);
  }

  lemma Widen(m: D.Mind, a: set<nat>, b: set<nat>)
    requires D.DerivedFrom(m, a) && a <= b
    ensures D.DerivedFrom(m, b)
  {
  }

  lemma ForgottenDerives(m: D.Mind, ok: set<nat>)
    ensures D.DerivedFrom(D.Forgotten(m), ok)
  {
  }

  lemma StepDerives(ecfg: E.Config, cfg: D.Config, w: World, f: Frame, ok: set<nat>)
    requires w.recon.seen in ok && (E.Wipes(w.recon, f.recon) || D.DerivedFrom(w.mind, ok))
    ensures var h := Step(ecfg, cfg, w, f); D.SaidFrom(D.Said(h.world.mind, h.out), ok)
  {
    var mind := if E.Wipes(w.recon, f.recon) then D.Forgotten(w.mind) else w.mind;
    ForgottenDerives(w.mind, ok);
    D.DecideDerives(cfg, mind, f.view, w.recon.seen, ok);
  }

  /** Before each frame, all that is kept, queued or remembered was derived from frames
      with no change of run since. */
  lemma {:induction false} NothingOutlivesItsRun(ecfg: E.Config, cfg: D.Config, s: Session, n: nat)
    requires IsRun(ecfg, cfg, s) && n <= |s.frames|
    ensures D.DerivedFrom(s.worlds[n].mind, Since(s, n, s.worlds[n].recon.runId))
    ensures n > 0 ==> D.SaidFrom(D.Said(s.worlds[n].mind, s.outs[n - 1]), Since(s, n, s.worlds[n].recon.runId))
  {
    if n > 0 {
      var w, f, ok := s.worlds[n - 1], s.frames[n - 1], Since(s, n, s.worlds[n].recon.runId);
      NothingOutlivesItsRun(ecfg, cfg, s, n - 1);
      SeenCounts(ecfg, cfg, s, n - 1);
      FreshRun(ecfg, cfg, s, n - 1);
      if !E.Wipes(w.recon, f.recon) {
        SinceGrows(ecfg, cfg, s, n - 1);
        Widen(w.mind, Since(s, n - 1, w.recon.runId), ok);
      }
      StepDerives(ecfg, cfg, w, f, ok);
      assert Linked(ecfg, cfg, s, n - 1);
    }
  }

  /** Run isolation: a target announced on a frame was derived from a frame of the same
      run, with no other run named between them, whatever the phases and targets were. */
  lemma RunIsolation(ecfg: E.Config, cfg: D.Config, s: Session, n: nat, i: nat)
    requires IsRun(ecfg, cfg, s) && n < |s.frames| && i < |s.outs[n]| && s.outs[n][i].Found?
    ensures var born := s.outs[n][i].sighting.born;
            && born <= n
            && forall k :: born <= k <= n && s.frames[k].recon.run != "" && s.frames[n].recon.run != "" ==>
                 s.frames[k].recon.run == s.frames[n].recon.run
  {
    NothingOutlivesItsRun(ecfg, cfg, s, n + 1);
    StepRecon(ecfg, cfg, s, n);
    var run, born := s.worlds[n + 1].recon.runId, s.outs[n][i].sighting.born;
    assert OneRun(s, born, n + 1, run);
    forall k | born <= k <= n && s.frames[k].recon.run != "" && s.frames[n].recon.run != ""
      ensures s.frames[k].recon.run == s.frames[n].recon.run
    {
      assert RunIs(s, k, run);
    }
  }

  lemma FirstFrame(ecfg: E.Config, cfg: D.Config, f: Frame)
    requires ecfg.everyN == 1 && f.recon.model.Returns?
    ensures var h := Step(ecfg, cfg, World(E.INIT, D.INIT), f);
            && h.world.recon == E.State(true, f.recon.run, 1, Some(f.recon.seqNo), 1, 1)
            && D.Said(h.world.mind, h.out) == D.Decide(cfg, D.INIT, f.view, 0)
  {
  }

  lemma NextFrame(ecfg: E.Config, cfg: D.Config, w: World, f: Frame)
    requires ecfg.everyN == 1 && f.recon.model.Returns? && !E.Wipes(w.recon, f.recon)
    ensures Step(ecfg, cfg, w, f).out == D.Decide(cfg, w.mind, f.view, w.recon.seen).out
  {
  }

  function TwoFrames(ecfg: E.Config, cfg: D.Config, f: Frame, g: Frame): Session {
    var first := Step(ecfg, cfg, World(E.INIT, D.INIT), f);
    var second := Step(ecfg, cfg, first.world, g);
    Session([f, g], [World(E.INIT, D.INIT), first.world, second.world], [first.out, second.out])
  }

  lemma TwoFramesRun(ecfg: E.Config, cfg: D.Config, f: Frame, g: Frame)
    ensures IsRun(ecfg, cfg, TwoFrames(ecfg, cfg, f, g))
  {
    var s := TwoFrames(ecfg, cfg, f, g);
    assert Linked(ecfg, cfg, s, 0) && Linked(ecfg, cfg, s, 1);
  }

  lemma FirstKept(cfg: D.Config, v: D.View, shown: D.Image)
    requires cfg.enabled && cfg.hasDetector && cfg.keepsKeyframes && cfg.keyframeMax >= 1
    requires v.posed && !v.seeking && v.small == Some(shown)
    ensures D.Decide(cfg, D.INIT, v, 0).mind == D.INIT.(keyframes := [D.Keyframe(shown, v.mapId, v.placedAt, 0)], anchored := true)
  {
  }

  /** A first frame that keeps a keyframe, and a second that looks for a target: it is
      seen in the keyframe, not on the second frame, and no wipe lies between. */
  ghost predicate KeptThenNamed(ecfg: E.Config, cfg: D.Config, f: Frame, g: Frame, shown: D.Image, x: Seek.Sighting) {
    && ecfg.everyN == 1 && f.recon.model.Returns? && g.recon.model.Returns?
    && (f.recon.run == "" || g.recon.run == "" || g.recon.run == f.recon.run)
    && cfg.enabled && cfg.hasDetector && cfg.keepsKeyframes && cfg.keyframeMax >= 1
    && f.view.posed && !f.view.seeking && f.view.small == Some(shown)
    && g.view.posed && g.view.seeking && g.view.target != "" && g.view.image.Detect(g.view.target) == D.Hits([])
    && D.FromKeyframe(cfg, D.Keyframe(shown, f.view.mapId, f.view.placedAt, 0), g.view.target) == Some(x)
  }

  lemma KeyframeIsAnnounced(ecfg: E.Config, cfg: D.Config, f: Frame, g: Frame, shown: D.Image, x: Seek.Sighting)
    requires KeptThenNamed(ecfg, cfg, f, g, shown, x)
    ensures IsRun(ecfg, cfg, TwoFrames(ecfg, cfg, f, g))
    ensures TwoFrames(ecfg, cfg, f, g).outs[1] == [D.Found(x, false)] && x.born == 0 && x.mapId == f.view.mapId
  {
    TwoFramesRun(ecfg, cfg, f, g);
    var h := Step(ecfg, cfg, World(E.INIT, D.INIT), f);
    FirstFrame(ecfg, cfg, f);
    FirstKept(cfg, f.view, shown);
    NextFrame(ecfg, cfg, h.world, g);
    D.FreshRecallIsAnnounced(cfg, h.world.mind, g.view, 1, x);
  }

  /** A frame that names no run is outside run isolation: what it leaves is kept by the
      run that is named next, and announced in it. */
  lemma UnnamedFrameLeaks(ecfg: E.Config, cfg: D.Config, f: Frame, g: Frame, shown: D.Image, x: Seek.Sighting)
    requires KeptThenNamed(ecfg, cfg, f, g, shown, x) && f.recon.run == "" && g.recon.run != ""
    ensures var s := TwoFrames(ecfg, cfg, f, g);
            && IsRun(ecfg, cfg, s) && s.outs[1] == [D.Found(x, false)] && x.born == 0
            && s.frames[x.born].recon.run != s.frames[1].recon.run
  {
    KeyframeIsAnnounced(ecfg, cfg, f, g, shown, x);
  }

  /** In one run whose grid changes map between its two frames, the second announces a
      target of the map before. */
  lemma MapChangeIsIgnored(ecfg: E.Config, cfg: D.Config, f: Frame, g: Frame, shown: D.Image, x: Seek.Sighting)
    requires KeptThenNamed(ecfg, cfg, f, g, shown, x) && f.recon.run == g.recon.run
    requires f.view.mapId != "" && g.view.mapId != "" && f.view.mapId != g.view.mapId
    ensures var s := TwoFrames(ecfg, cfg, f, g);
            && IsRun(ecfg, cfg, s) && s.outs[1] == [D.Found(x, false)] && Seek.OtherMap(x, s.frames[1].view.mapId)
  {
    KeyframeIsAnnounced(ecfg, cfg, f, g, shown, x);
  }

  /** Such frames exist, whatever the target, the place and the maps. */
  lemma SuchFramesExist(ecfg: E.Config, cfg: D.Config, runs: seq<string>, target: string, place: D.Place, maps: seq<string>)
    returns (f: Frame, g: Frame, shown: D.Image, x: Seek.Sighting)
    requires ecfg.everyN == 1 && cfg.enabled && cfg.hasDetector && cfg.keepsKeyframes && cfg.keyframeMax >= 1
    requires |runs| == 2 && |maps| == 2 && target != "" && (runs[0] == "" || runs[1] == "" || runs[0] == runs[1])
    ensures KeptThenNamed(ecfg, cfg, f, g, shown, x)
    ensures f.recon.run == runs[0] && g.recon.run == runs[1] && f.view.mapId == maps[0] && g.view.mapId == maps[1]
  {
    shown := D.Image(map[target := D.Hits([D.Hit(cfg.minConfidence, Some(place))])]);
    f := Frame(E.Frame(runs[0], 0, E.Returns), D.View(false, "", maps[0], true, shown, Some(shown), true, 0, 0));
    g := Frame(E.Frame(runs[1], 1, E.Returns), D.View(true, target, maps[1], true, D.Image(map[]), None, false, 1, 1));
    x := Seek.Sighting(target, place.x, place.y, cfg.minConfidence, maps[0], Seek.Memory, 0, 0);
  }

  // ---- What is announced ----

  function Views(s: Session): (views: seq<D.View>)
    ensures |views| == |s.frames| && forall k :: 0 <= k < |views| ==> views[k] == s.frames[k].view
  {
    seq(|s.frames|, k requires 0 <= k < |s.frames| => s.frames[k].view)
  }

  lemma ForgottenIsGenuine(cfg: D.Config, views: seq<D.View>, m: D.Mind)
    requires D.AllGenuine(cfg, views, m)
    ensures D.AllGenuine(cfg, views, D.Forgotten(m))
  {
  }

  lemma StepIsGenuine(ecfg: E.Config, cfg: D.Config, views: seq<D.View>, w: World, f: Frame)
    requires D.AllGenuine(cfg, views, w.mind) && w.recon.seen < |views| && views[w.recon.seen] == f.view
    ensures var h := Step(ecfg, cfg, w, f); D.SaidGenuine(cfg, views, D.Said(h.world.mind, h.out), f.view.target, w.recon.seen)
  {
    var mind := if E.Wipes(w.recon, f.recon) then D.Forgotten(w.mind) else w.mind;
    ForgottenIsGenuine(cfg, views, w.mind);
    D.DecideIsGenuine(cfg, views, mind, f.view, w.recon.seen);
  }

  lemma {:induction false} NothingIsInvented(ecfg: E.Config, cfg: D.Config, s: Session, n: nat)
    requires IsRun(ecfg, cfg, s) && n <= |s.frames|
    ensures D.AllGenuine(cfg, Views(s), s.worlds[n].mind)
  {
    if n > 0 {
      NothingIsInvented(ecfg, cfg, s, n - 1);
      SeenCounts(ecfg, cfg, s, n - 1);
      StepIsGenuine(ecfg, cfg, Views(s), s.worlds[n - 1], s.frames[n - 1]);
      assert Linked(ecfg, cfg, s, n - 1);
    }
  }

  /** Over every session, whatever is announced is a detection of the target asked for,
      on the frame it names or on the copy kept of it, at the place of the hit that was
      to be taken there and no weaker than the configuration asks; what is called live
      was seen on the very frame. */
  lemma FoundIsADetection(ecfg: E.Config, cfg: D.Config, s: Session, n: nat, i: nat)
    requires IsRun(ecfg, cfg, s) && n < |s.frames| && i < |s.outs[n]| && s.outs[n][i].Found?
    ensures var x := s.outs[n][i].sighting;
            && x.target == s.frames[n].view.target && x.confidence >= cfg.minConfidence && x.born <= n
            && (exists k: nat :: D.StandsFor(cfg, s.frames[x.born].view, x, k))
            && (s.outs[n][i].isLive ==> x.basis.Live? && x.born == n)
  {
    NothingIsInvented(ecfg, cfg, s, n);
    SeenCounts(ecfg, cfg, s, n);
    StepIsGenuine(ecfg, cfg, Views(s), s.worlds[n], s.frames[n]);
    assert Linked(ecfg, cfg, s, n);
    D.GenuineIsConfident(cfg, Views(s), s.outs[n][i].sighting);
    RunIsolation(ecfg, cfg, s, n, i);
  }

  /** Frame `k` announces nothing and forgets nothing. */
  ghost predicate Uneventful(s: Session, k: nat)
    requires k < |s.frames| && |s.worlds| == |s.frames| + 1 && |s.outs| == |s.frames|
  {
    && !E.Wipes(s.worlds[k].recon, s.frames[k].recon)
    && !D.SaysAbsent(s.outs[k]) && forall x :: !D.SaysFound(s.outs[k], x)
  }

  lemma StepKeepsLast(ecfg: E.Config, cfg: D.Config, s: Session, k: nat)
    requires IsRun(ecfg, cfg, s) && k < |s.frames| && Uneventful(s, k)
    ensures s.worlds[k + 1].mind.lastFound == s.worlds[k].mind.lastFound
    ensures s.worlds[k + 1].mind.lastAnnounced == s.worlds[k].mind.lastAnnounced
  {
    assert Linked(ecfg, cfg, s, k);
    var w, f := s.worlds[k], s.frames[k];
    if E.Step(ecfg, w.recon, f.recon).outcome.Cloud? {
      QuietDecision(cfg, w.mind, f.view, w.recon.seen);
    }
  }

  lemma QuietDecision(cfg: D.Config, m: D.Mind, v: D.View, born: nat)
    requires var said := D.Decide(cfg, m, v, born); !D.SaysAbsent(said.out) && forall x :: !D.SaysFound(said.out, x)
    ensures var said := D.Decide(cfg, m, v, born).mind; said.lastFound == m.lastFound && said.lastAnnounced == m.lastAnnounced
  {
    var x: Seek.Sighting :| true;
    D.FoundIff(cfg, m, v, born, x);
  }

  lemma FoundIsLast(ecfg: E.Config, cfg: D.Config, s: Session, p: nat, y: Seek.Sighting)
    requires IsRun(ecfg, cfg, s) && p < |s.frames| && D.SaysFound(s.outs[p], y)
    ensures s.worlds[p + 1].mind.lastFound == s.frames[p].view.now && s.worlds[p + 1].mind.lastAnnounced == Some(y)
  {
    assert Linked(ecfg, cfg, s, p);
    var w, f := s.worlds[p], s.frames[p];
    var mind := if E.Wipes(w.recon, f.recon) then D.Forgotten(w.mind) else w.mind;
    D.FoundIff(cfg, mind, f.view, w.recon.seen, y);
  }

  lemma {:induction false} LastIsKept(ecfg: E.Config, cfg: D.Config, s: Session, p: nat, n: nat, y: Seek.Sighting)
    requires IsRun(ecfg, cfg, s) && p < n <= |s.frames| && D.SaysFound(s.outs[p], y)
    requires forall k :: p < k < n ==> Uneventful(s, k)
    ensures s.worlds[n].mind.lastFound == s.frames[p].view.now && s.worlds[n].mind.lastAnnounced == Some(y)
    decreases n
  {
    if n == p + 1 {
      FoundIsLast(ecfg, cfg, s, p, y);
    } else {
      LastIsKept(ecfg, cfg, s, p, n - 1, y);
      StepKeepsLast(ecfg, cfg, s, n - 1);
    }
  }

  /** Two announcements on end, with no absence and no change of run between: the second
      comes an interval later, or is of a place far enough from the first, or rests on
      something else.  A clock at zero counts as never having announced. */
  lemma NoRepeats(ecfg: E.Config, cfg: D.Config, s: Session, p: nat, n: nat, y: Seek.Sighting, x: Seek.Sighting)
    requires IsRun(ecfg, cfg, s) && p < n < |s.frames| && D.SaysFound(s.outs[p], y) && D.SaysFound(s.outs[n], x)
    requires (forall k :: p < k < n ==> Uneventful(s, k)) && !E.Wipes(s.worlds[n].recon, s.frames[n].recon)
    requires s.frames[p].view.now != 0
    ensures || (s.frames[n].view.now - s.frames[p].view.now) as real >= cfg.minFoundIntervalMs * 1000000.0
            || cfg.resendMoveM <= 0.0
            || (x.x - y.x) * (x.x - y.x) + (x.y - y.y) * (x.y - y.y) >= cfg.resendMoveM * cfg.resendMoveM
            || x.basis != y.basis
  {
    LastIsKept(ecfg, cfg, s, p, n, y);
    assert Linked(ecfg, cfg, s, n);
    D.FoundIff(cfg, s.worlds[n].mind, s.frames[n].view, s.worlds[n].recon.seen, x);
    assert !D.Repeats(cfg, s.worlds[n].mind, x, s.frames[n].view.now);
  }
}
