/** When a reconstruction starts over: run changes, sequence gaps and frame budgets
    over the recurrent state, and the `map_id` that names each start. */
module Epochs {
  import opened Wrappers

  datatype Config = Config(everyN: pos, resetEvery: int, resetOnGap: int)

  /** The processor's options as it takes them: at least every frame, and a gap of zero
      standing for four times the stride. */
  function Configure(everyN: int, resetEvery: int, resetOnGap: int): (cfg: Config)
    ensures cfg.everyN == everyN || (everyN < 1 && cfg.everyN == 1)
    ensures cfg.resetEvery == resetEvery && cfg.resetOnGap == if resetOnGap == 0 then 4 * cfg.everyN else resetOnGap
  {
    var stride: pos := if everyN > 1 then everyN else 1;
    Config(stride, resetEvery, if resetOnGap != 0 then resetOnGap else 4 * stride)
  }

  /** The model call and what is made of its cloud: it returns, or raises before the
      recurrent state exists, or after, or when the cloud is compared and used, by which
      time the frame has been counted. */
  datatype Model = Returns | RaisesBeforeState | RaisesAfterState | RaisesWhenUsed

  /** It raises once the state exists. */
  predicate Late(m: Model) {
    m.RaisesAfterState? || m.RaisesWhenUsed?
  }

  datatype Frame = Frame(run: string, seqNo: int, model: Model)

  datatype State = State(hasState: bool, runId: string, framesInState: nat, lastSeq: Option<int>, mapId: nat, seen: nat)

  const INIT := State(false, "", 0, None, 0, 0)

  /** What one frame gives; of a frame that raised the model records its map and whether
      it was counted. */
  datatype Outcome =
    | Skipped(mapId: nat, framesInState: nat)
    | Cloud(mapId: nat, framesInState: nat, reset: bool, gap: int)
    | Raised(mapId: nat, counted: bool)

  function ResetState(s: State): State {
    s.(hasState := false, framesInState := 0, mapId := s.mapId + 1)
  }

  /** The frame names a run and the state belongs to another. */
  predicate Wipes(s: State, f: Frame) {
    f.run != "" && s.runId != "" && f.run != s.runId
  }

  /** The run check, before anything else looks at the frame. */
  function Entered(s: State, f: Frame): State {
    var wiped := if Wipes(s, f) then ResetState(s).(lastSeq := None) else s;
    if f.run != "" then wiped.(runId := f.run) else wiped
  }

  function Gap(s: State, f: Frame): int {
    if s.lastSeq.None? then 0 else f.seqNo - s.lastSeq.value
  }

  predicate Resets(cfg: Config, s: State, gap: int) {
    || !s.hasState
    || gap > cfg.resetOnGap
    || (cfg.resetEvery != 0 && s.framesInState >= cfg.resetEvery)
  }

  predicate Skips(cfg: Config, s: State) {
    s.seen % cfg.everyN != 0
  }

  datatype Stepped = Stepped(state: State, outcome: Outcome)

  /** The model call on a state that has already been reset if it had to be. */
  function Modelled(s: State, f: Frame, reset: bool, gap: int): Stepped {
    match f.model
    case Returns => Stepped(s.(hasState := true, framesInState := s.framesInState + 1),
                            Cloud(s.mapId, s.framesInState + 1, reset, gap))
    case RaisesBeforeState => Stepped(s, Raised(s.mapId, false))
    case RaisesAfterState => Stepped(s.(hasState := true), Raised(s.mapId, false))
    case RaisesWhenUsed => Stepped(s.(hasState := true, framesInState := s.framesInState + 1), Raised(s.mapId, true))
  }

  /** One frame. */
  function Step(cfg: Config, s: State, f: Frame): Stepped {
    var entered := Entered(s, f);
    var gap := Gap(entered, f);
    var counted := entered.(seen := entered.seen + 1, lastSeq := Some(f.seqNo));
    if Skips(cfg, entered) then Stepped(counted, Skipped(counted.mapId, counted.framesInState))
    else if Resets(cfg, counted, gap) then Modelled(ResetState(counted), f, true, gap)
    else Modelled(counted, f, false, gap)
  }

  /** The part of the processor that decides when to start over. */
  class Reconstruction {
    const cfg: Config
    var hasState: bool
    var runId: string
    var framesInState: nat
    var lastSeq: Option<int>
    var mapId: nat
    var seen: nat

    function Abs(): State
      reads this
    {
      State(hasState, runId, framesInState, lastSeq, mapId, seen)
    }

    constructor (cfg: Config)
      ensures Abs() == INIT && this.cfg == cfg
    {
      this.cfg := cfg;
      hasState, runId, framesInState, lastSeq, mapId, seen := false, "", 0, None, 0, 0;
    }

    method Reset()
      modifies this
      ensures Abs() == ResetState(old(Abs()))
    {
      hasState := false;
      framesInState := 0;
      mapId := mapId + 1;
    }

    method NewRun()
      modifies this
      ensures Abs() == ResetState(old(Abs())).(lastSeq := None)
    {
      Reset();
      lastSeq := None;
    }

    method RunModel(f: Frame) returns (ok: bool)
      modifies this
      ensures ok == (f.model.Returns? || f.model.RaisesWhenUsed?)
      ensures Abs() == old(Abs()).(hasState := hasState)
      ensures hasState == if f.model.RaisesBeforeState? then old(hasState) else true
    {
      if f.model.RaisesBeforeState? {
        return false;
      }
      if !hasState {
        hasState := true;
      }
      return !f.model.RaisesAfterState?;
    }

    /** The run check, before anything else looks at the frame. */
    method EnterRun(f: Frame)
      modifies this
      ensures Abs() == Entered(old(Abs()), f)
    {
      if f.run != "" && f.run != runId {
        if runId != "" {
          NewRun();
        }
        runId := f.run;
      }
    }

    method Process(f: Frame) returns (outcome: Outcome)
      modifies this
      ensures Step(cfg, old(Abs()), f) == Stepped(Abs(), outcome)
    {
      EnterRun(f);
      seen := seen + 1;
      var gap := if lastSeq.None? then 0 else f.seqNo - lastSeq.value;
      lastSeq := Some(f.seqNo);
      if (seen - 1) % cfg.everyN != 0 {
        return Skipped(mapId, framesInState);
      }
      var reset := false;
      if !hasState {
        reset := true;
      } else if gap > cfg.resetOnGap {
        reset := true;
      } else if cfg.resetEvery != 0 && framesInState >= cfg.resetEvery {
        reset := true;
      }
      if reset {
        Reset();
      }
      var ok := RunModel(f);
      if !ok {
        return Raised(mapId, false);
      }
      framesInState := framesInState + 1;
      if f.model.RaisesWhenUsed? {
        return Raised(mapId, true);
      }
      return Cloud(mapId, framesInState, reset, gap);
    }
  }

  // ---- Whole runs ----

  /** A session: its frames, the state before each and after the last, the outcomes. */
  datatype Session = Session(frames: seq<Frame>, states: seq<State>, outcomes: seq<Outcome>)

  predicate Linked(cfg: Config, run: Session, n: nat)
    requires n < |run.frames| && |run.states| == |run.frames| + 1 && |run.outcomes| == |run.frames|
  {
    Step(cfg, run.states[n], run.frames[n]) == Stepped(run.states[n + 1], run.outcomes[n])
  }

  ghost predicate IsRun(cfg: Config, run: Session) {
    && |run.states| == |run.frames| + 1 && |run.outcomes| == |run.frames|
    && run.states[0] == INIT
    && forall n {:trigger Linked(cfg, run, n)} :: 0 <= n < |run.frames| ==> Linked(cfg, run, n)
  }

  /** The frame starts the map over: it names another run, or it is not skipped and
      finds no state, a gap, or a full map. */
  predicate StartsOver(cfg: Config, s: State, f: Frame) {
    var entered := Entered(s, f);
    Wipes(s, f) || (!Skips(cfg, entered) && Resets(cfg, entered, Gap(entered, f)))
  }

  /** Frame `n` of the session starts the map over. */
  predicate Over(cfg: Config, run: Session, n: nat)
    requires n < |run.frames| && |run.states| == |run.frames| + 1
  {
    StartsOver(cfg, run.states[n], run.frames[n])
  }

  lemma StepMapId(cfg: Config, run: Session, n: nat)
    requires IsRun(cfg, run) && n < |run.frames|
    ensures run.states[n + 1].mapId >= run.states[n].mapId
    ensures run.states[n + 1].mapId > run.states[n].mapId <==> Over(cfg, run, n)
    ensures run.outcomes[n].mapId == run.states[n + 1].mapId
    ensures run.states[n + 1].seen == run.states[n].seen + 1
  {
    assert Linked(cfg, run, n);
  }

  /** `map_id` never decreases, and stays exactly while nothing starts over. */
  lemma {:induction false} MapIdOnlyGrows(cfg: Config, run: Session, i: nat, j: nat)
    requires IsRun(cfg, run) && i <= j <= |run.frames|
    ensures run.states[i].mapId <= run.states[j].mapId
    ensures run.states[i].mapId == run.states[j].mapId <==> forall k :: i <= k < j ==> !Over(cfg, run, k)
    decreases j - i
  {
    if i < j {
      MapIdOnlyGrows(cfg, run, i, j - 1);
      StepMapId(cfg, run, j - 1);
    }
  }

  /** Two results name the same map exactly when nothing started over between them. */
  lemma SameMapIffNoReset(cfg: Config, run: Session, i: nat, j: nat)
    requires IsRun(cfg, run) && i < j < |run.frames| && run.outcomes[i].Cloud? && run.outcomes[j].Cloud?
    ensures run.outcomes[i].mapId <= run.outcomes[j].mapId
    ensures run.outcomes[i].mapId == run.outcomes[j].mapId <==> forall k :: i < k <= j ==> !Over(cfg, run, k)
  {
    StepMapId(cfg, run, i);
    StepMapId(cfg, run, j);
    MapIdOnlyGrows(cfg, run, i + 1, j + 1);
  }

  /** Results among the first `n` outcomes that name map `m`. */
  function CloudsInMap(outcomes: seq<Outcome>, m: nat, n: nat): nat
    requires n <= |outcomes|
  {
    if n == 0 then 0
    else CloudsInMap(outcomes, m, n - 1) + (if outcomes[n - 1].Cloud? && outcomes[n - 1].mapId == m then 1 else 0)
  }

  predicate IsLost(o: Outcome, m: nat) {
    o.Raised? && o.counted && o.mapId == m
  }

  /** Frames counted into map `m` among the first `n` that gave no result. */
  function LostInMap(outcomes: seq<Outcome>, m: nat, n: nat): nat
    requires n <= |outcomes|
  {
    if n == 0 then 0 else LostInMap(outcomes, m, n - 1) + (if IsLost(outcomes[n - 1], m) then 1 else 0)
  }

  lemma {:induction false} NoneYet(cfg: Config, run: Session, m: nat, n: nat)
    requires IsRun(cfg, run) && n <= |run.frames| && m > run.states[n].mapId
    ensures CloudsInMap(run.outcomes, m, n) == 0 && LostInMap(run.outcomes, m, n) == 0
  {
    if n > 0 {
      StepMapId(cfg, run, n - 1);
      NoneYet(cfg, run, m, n - 1);
    }
  }

  lemma StepFrames(cfg: Config, run: Session, n: nat)
    requires IsRun(cfg, run) && n < |run.frames|
    ensures run.states[n + 1].framesInState
         == (if Over(cfg, run, n) then 0 else run.states[n].framesInState)
            + (if run.outcomes[n].Cloud? || IsLost(run.outcomes[n], run.states[n + 1].mapId) then 1 else 0)
    ensures run.outcomes[n].Cloud? ==> run.outcomes[n].framesInState == run.states[n + 1].framesInState
    ensures run.outcomes[n].Cloud? ==> (run.outcomes[n].reset <==> Over(cfg, run, n))
  {
    assert Linked(cfg, run, n);
  }

  /** The frames in the state are the results that name its map, and those lost. */
  lemma {:induction false} FramesAreCounted(cfg: Config, run: Session, n: nat)
    requires IsRun(cfg, run) && n <= |run.frames|
    ensures run.states[n].framesInState
         == CloudsInMap(run.outcomes, run.states[n].mapId, n) + LostInMap(run.outcomes, run.states[n].mapId, n)
  {
    if n > 0 {
      FramesAreCounted(cfg, run, n - 1);
      StepMapId(cfg, run, n - 1);
      StepFrames(cfg, run, n - 1);
      if Over(cfg, run, n - 1) {
        NoneYet(cfg, run, run.states[n].mapId, n - 1);
      }
    }
  }

  lemma StepBudget(cfg: Config, run: Session, n: nat)
    requires IsRun(cfg, run) && n < |run.frames| && run.outcomes[n].Cloud? && !Over(cfg, run, n) && cfg.resetEvery != 0
    ensures run.states[n].framesInState < cfg.resetEvery
  {
    assert Linked(cfg, run, n);
  }

  lemma OneMoreCloud(outcomes: seq<Outcome>, n: nat)
    requires n < |outcomes| && outcomes[n].Cloud?
    ensures CloudsInMap(outcomes, outcomes[n].mapId, n + 1) == CloudsInMap(outcomes, outcomes[n].mapId, n) + 1
    ensures LostInMap(outcomes, outcomes[n].mapId, n + 1) == LostInMap(outcomes, outcomes[n].mapId, n)
  {
  }

  /** A result's number is its place among the results of its map exactly when no frame
      of that map was lost before it; each one lost shifts the numbers by one. */
  lemma ResultsAreNumbered(cfg: Config, run: Session, n: nat)
    requires IsRun(cfg, run) && n < |run.frames| && run.outcomes[n].Cloud?
    ensures run.outcomes[n].framesInState == CloudsInMap(run.outcomes, run.outcomes[n].mapId, n) + 1
                                             + LostInMap(run.outcomes, run.outcomes[n].mapId, n)
  {
    var m := run.outcomes[n].mapId;
    assert run.states[n + 1].mapId == m by {
      StepMapId(cfg, run, n);
    }
    assert run.outcomes[n].framesInState == run.states[n + 1].framesInState by {
      StepFrames(cfg, run, n);
    }
    FramesAreCounted(cfg, run, n + 1);
    OneMoreCloud(run.outcomes, n);
  }

  /** With a frame budget no map holds more results than it, lost frames included. */
  lemma MapsStayInBudget(cfg: Config, run: Session, n: nat)
    requires IsRun(cfg, run) && n < |run.frames| && run.outcomes[n].Cloud? && cfg.resetEvery > 0
    ensures CloudsInMap(run.outcomes, run.outcomes[n].mapId, n + 1) + LostInMap(run.outcomes, run.outcomes[n].mapId, n + 1)
         <= cfg.resetEvery
  {
    ResultsAreNumbered(cfg, run, n);
    OneMoreCloud(run.outcomes, n);
    StepFrames(cfg, run, n);
    if !Over(cfg, run, n) {
      StepBudget(cfg, run, n);
    }
  }

  // ---- The mark of a reset ----

  /** Frame `k` started the map over, after which nothing did before frame `n`. */
  ghost predicate LastOver(cfg: Config, run: Session, k: nat, n: nat)
    requires IsRun(cfg, run) && k < n <= |run.frames|
  {
    Over(cfg, run, k) && forall j :: k < j < n ==> !Over(cfg, run, j)
  }

  lemma StepHasState(cfg: Config, run: Session, n: nat)
    requires IsRun(cfg, run) && n < |run.frames| && run.states[n + 1].hasState
    ensures run.states[n].hasState || Over(cfg, run, n)
    ensures Over(cfg, run, n) ==> run.outcomes[n].Cloud? || Late(run.frames[n].model)
  {
    assert Linked(cfg, run, n);
  }

  /** A state was made by the last frame that started over: it gave a result, or raised
      late. */
  lemma {:induction false} StateHasOrigin(cfg: Config, run: Session, n: nat) returns (k: nat)
    requires IsRun(cfg, run) && n <= |run.frames| && run.states[n].hasState
    ensures k < n && LastOver(cfg, run, k, n) && (run.outcomes[k].Cloud? || Late(run.frames[k].model))
  {
    StepHasState(cfg, run, n - 1);
    if Over(cfg, run, n - 1) {
      k := n - 1;
    } else {
      k := StateHasOrigin(cfg, run, n - 1);
    }
  }

  lemma {:induction false} CloudCounts(outcomes: seq<Outcome>, k: nat, n: nat)
    requires k < n <= |outcomes| && outcomes[k].Cloud?
    ensures CloudsInMap(outcomes, outcomes[k].mapId, n) >= 1
  {
    if k < n - 1 {
      CloudCounts(outcomes, k, n - 1);
    }
  }

  lemma UnmarkedHasState(cfg: Config, run: Session, n: nat)
    requires IsRun(cfg, run) && n < |run.frames| && run.outcomes[n].Cloud? && !Over(cfg, run, n)
    ensures run.states[n].hasState
  {
    assert Linked(cfg, run, n);
  }

  /** The first result of a map carries no mark exactly when the frame that started the
      map over raised once the new state existed: for every run and configuration.  A
      later result never carries one. */
  lemma FirstResultUnmarkedIff(cfg: Config, run: Session, n: nat)
    requires IsRun(cfg, run) && n < |run.frames| && run.outcomes[n].Cloud?
    ensures CloudsInMap(run.outcomes, run.outcomes[n].mapId, n) > 0 ==> !run.outcomes[n].reset
    ensures CloudsInMap(run.outcomes, run.outcomes[n].mapId, n) == 0 ==>
              (!run.outcomes[n].reset <==>
                 exists k :: 0 <= k < n && LastOver(cfg, run, k, n + 1) && Late(run.frames[k].model))
  {
    StepFrames(cfg, run, n);
    StepMapId(cfg, run, n);
    if Over(cfg, run, n) {
      NoneYet(cfg, run, run.outcomes[n].mapId, n);
    } else {
      UnmarkedHasState(cfg, run, n);
      var k := StateHasOrigin(cfg, run, n);
      assert LastOver(cfg, run, k, n + 1);
      if run.outcomes[k].Cloud? {
        SameMapIffNoReset(cfg, run, k, n);
        CloudCounts(run.outcomes, k, n);
      }
    }
  }

  // ---- When a map starts over, told from the frames and results ----

  /** The last run named by the first `n` frames, empty when none was. */
  function LastRun(frames: seq<Frame>, n: nat): string
    requires n <= |frames|
  {
    if n == 0 then "" else if frames[n - 1].run != "" then frames[n - 1].run else LastRun(frames, n - 1)
  }

  /** Frame `n` names a run other than the last one named. */
  predicate ChangesRun(frames: seq<Frame>, n: nat)
    requires n < |frames|
  {
    frames[n].run != "" && LastRun(frames, n) != "" && frames[n].run != LastRun(frames, n)
  }

  /** The model was called on frame `k` and got as far as a state. */
  predicate MadeState(run: Session, k: nat)
    requires k < |run.frames| && |run.outcomes| == |run.frames|
  {
    !run.outcomes[k].Skipped? && !run.frames[k].model.RaisesBeforeState?
  }

  /** The last frame that started over, before frame `n`, made a state. */
  ghost predicate StateAt(cfg: Config, run: Session, n: nat)
    requires IsRun(cfg, run) && n <= |run.frames|
  {
    exists k :: 0 <= k < n && LastOver(cfg, run, k, n) && MadeState(run, k)
  }

  lemma StepMakesState(cfg: Config, run: Session, n: nat)
    requires IsRun(cfg, run) && n < |run.frames|
    ensures run.states[n + 1].hasState <==> if Over(cfg, run, n) then MadeState(run, n) else run.states[n].hasState
    ensures run.states[n + 1].runId == if run.frames[n].run != "" then run.frames[n].run else run.states[n].runId
    ensures run.states[n + 1].seen == run.states[n].seen + 1 && run.states[n + 1].lastSeq == Some(run.frames[n].seqNo)
  {
    assert Linked(cfg, run, n);
  }

  /** The state before frame `n`, read off the frames and outcomes before it. */
  lemma {:induction false} StateIsHistory(cfg: Config, run: Session, n: nat)
    requires IsRun(cfg, run) && n <= |run.frames|
    ensures run.states[n].hasState <==> StateAt(cfg, run, n)
    ensures run.states[n].runId == LastRun(run.frames, n) && run.states[n].seen == n
    ensures run.states[n].lastSeq == if n == 0 then None else Some(run.frames[n - 1].seqNo)
  {
    if n > 0 {
      StateIsHistory(cfg, run, n - 1);
      StepMakesState(cfg, run, n - 1);
      if Over(cfg, run, n - 1) {
        assert LastOver(cfg, run, n - 1, n);
      } else if StateAt(cfg, run, n - 1) {
        var k :| 0 <= k < n - 1 && LastOver(cfg, run, k, n - 1) && MadeState(run, k);
        assert LastOver(cfg, run, k, n);
      }
      forall k | 0 <= k < n - 1 && LastOver(cfg, run, k, n) ensures LastOver(cfg, run, k, n - 1) {
      }
    }
  }

  /** Frame `n` comes more than the configured gap after the one before it. */
  predicate Jumps(cfg: Config, frames: seq<Frame>, n: nat)
    requires n < |frames|
  {
    n > 0 && frames[n].seqNo - frames[n - 1].seqNo > cfg.resetOnGap
  }

  /** The budget is spent on the map current before frame `n`. */
  predicate Full(cfg: Config, outcomes: seq<Outcome>, m: nat, n: nat)
    requires n <= |outcomes|
  {
    cfg.resetEvery != 0 && CloudsInMap(outcomes, m, n) + LostInMap(outcomes, m, n) >= cfg.resetEvery
  }

  /** Over every run: a frame starts the map over exactly when it names a new run, or it
      is one of every `everyN` and there is no state, a jump, or a full map.  Nothing
      starts over early. */
  lemma StartsOverIff(cfg: Config, run: Session, n: nat)
    requires IsRun(cfg, run) && n < |run.frames|
    ensures Over(cfg, run, n) <==>
              || ChangesRun(run.frames, n)
              || (n % cfg.everyN == 0
                  && (!StateAt(cfg, run, n) || Jumps(cfg, run.frames, n) || Full(cfg, run.outcomes, run.states[n].mapId, n)))
  {
    StateIsHistory(cfg, run, n);
    FramesAreCounted(cfg, run, n);
  }

  /** A result carries the gap of its own frame to the one before, none across runs. */
  lemma ResultCarriesTheGap(cfg: Config, run: Session, n: nat)
    requires IsRun(cfg, run) && n < |run.frames| && run.outcomes[n].Cloud?
    ensures run.outcomes[n].gap == if n == 0 || ChangesRun(run.frames, n) then 0 else run.frames[n].seqNo - run.frames[n - 1].seqNo
  {
    assert Linked(cfg, run, n);
    StateIsHistory(cfg, run, n);
  }

  // ---- Runs that show it ----

  /** Sequence numbers that stay within the gap: one after another, or, when the gap
      allows no step forward, back by as much. */
  function StrideSeq(cfg: Config, k: int): int {
    if cfg.resetOnGap >= 1 then k else k * cfg.resetOnGap
  }

  lemma StrideGap(cfg: Config, k: int)
    ensures StrideSeq(cfg, k + 1) - StrideSeq(cfg, k) <= cfg.resetOnGap
  {
  }

  /** One stride: the first frame raises once the state exists, the others return. */
  function LateFrame(cfg: Config, k: nat): Frame {
    Frame("", StrideSeq(cfg, k), if k == 0 then RaisesAfterState else Returns)
  }

  function LateState(cfg: Config, k: nat): State {
    if k == 0 then INIT
    else State(true, "", if k <= cfg.everyN then 0 else 1, Some(LateFrame(cfg, k - 1).seqNo), 1, k)
  }

  function LateOutcome(cfg: Config, k: nat): Outcome {
    if k == 0 then Raised(1, false)
    else if k < cfg.everyN then Skipped(1, 0)
    else Cloud(1, 1, false, StrideSeq(cfg, k) - StrideSeq(cfg, k - 1))
  }

  lemma SkipsBetween(k: nat, n: pos)
    requires k <= n
    ensures k % n == 0 <==> k == 0 || k == n
  {
  }

  lemma LateStep(cfg: Config, k: nat)
    requires cfg.resetEvery >= 0 && k <= cfg.everyN
    ensures Step(cfg, LateState(cfg, k), LateFrame(cfg, k)) == Stepped(LateState(cfg, k + 1), LateOutcome(cfg, k))
  {
    SkipsBetween(k, cfg.everyN);
    StrideGap(cfg, k - 1);
  }

  function LateRun(cfg: Config): (run: Session)
    ensures |run.frames| == cfg.everyN + 1 && |run.states| == |run.frames| + 1 && |run.outcomes| == |run.frames|
    ensures forall k :: 0 <= k <= cfg.everyN ==> run.frames[k] == LateFrame(cfg, k) && run.outcomes[k] == LateOutcome(cfg, k)
    ensures forall k :: 0 <= k <= cfg.everyN + 1 ==> run.states[k] == LateState(cfg, k)
  {
    Session(seq(cfg.everyN + 1, k requires 0 <= k => LateFrame(cfg, k)),
            seq(cfg.everyN + 2, k requires 0 <= k => LateState(cfg, k)),
            seq(cfg.everyN + 1, k requires 0 <= k => LateOutcome(cfg, k)))
  }

  /** Frame `n` gives the first result of its map. */
  predicate IsFirst(run: Session, n: nat)
    requires n < |run.outcomes|
  {
    run.outcomes[n].Cloud? && CloudsInMap(run.outcomes, run.outcomes[n].mapId, n) == 0
  }

  ghost predicate FirstsMarked(cfg: Config, run: Session)
    requires IsRun(cfg, run)
  {
    forall n :: 0 <= n < |run.frames| && IsFirst(run, n) ==> run.outcomes[n].reset
  }

  lemma {:induction false} NoCloudInLateRun(cfg: Config, n: nat)
    requires n <= cfg.everyN
    ensures CloudsInMap(LateRun(cfg).outcomes, 1, n) == 0
  {
    if n > 0 {
      NoCloudInLateRun(cfg, n - 1);
    }
  }

  lemma LateRunHidesTheMark(cfg: Config)
    requires cfg.resetEvery >= 0
    ensures IsRun(cfg, LateRun(cfg)) && !FirstsMarked(cfg, LateRun(cfg))
  {
    var run := LateRun(cfg);
    forall k | 0 <= k < |run.frames| ensures Linked(cfg, run, k) {
      LateStep(cfg, k);
    }
    NoCloudInLateRun(cfg, cfg.everyN);
    assert IsFirst(run, cfg.everyN) && !run.outcomes[cfg.everyN].reset;
  }

  /** A configuration marks the first result of every map in every run exactly when its
      budget is negative, which starts every frame over. */
  lemma AlwaysMarkedIff(cfg: Config)
    ensures (forall run :: IsRun(cfg, run) ==> FirstsMarked(cfg, run)) <==> cfg.resetEvery < 0
  {
    if cfg.resetEvery < 0 {
      forall run | IsRun(cfg, run) ensures FirstsMarked(cfg, run) {
        forall n | 0 <= n < |run.frames| && IsFirst(run, n) ensures run.outcomes[n].reset {
          StepFrames(cfg, run, n);
          if !Over(cfg, run, n) {
            StepBudget(cfg, run, n);
          }
        }
      }
    } else {
      LateRunHidesTheMark(cfg);
    }
  }

  // ---- Jumps ----

  /** Frames `i` and `j` give consecutive results in one map. */
  ghost predicate Consecutive(run: Session, i: nat, j: nat)
    requires |run.outcomes| == |run.frames| && i < j < |run.frames|
  {
    && run.outcomes[i].Cloud? && run.outcomes[j].Cloud? && run.outcomes[i].mapId == run.outcomes[j].mapId
    && forall k :: i < k < j ==> !run.outcomes[k].Cloud?
  }

  ghost predicate AllReturn(run: Session) {
    forall k :: 0 <= k < |run.frames| ==> run.frames[k].model.Returns?
  }

  ghost predicate NeverJumps(cfg: Config, run: Session)
    requires IsRun(cfg, run)
  {
    forall i: nat, j: nat :: i < j < |run.frames| && Consecutive(run, i, j) ==>
      run.frames[j].seqNo - run.frames[i].seqNo <= cfg.resetOnGap
  }

  lemma StepSeq(cfg: Config, run: Session, n: nat)
    requires IsRun(cfg, run) && n < |run.frames|
    ensures run.states[n + 1].lastSeq == Some(run.frames[n].seqNo)
    ensures cfg.everyN == 1 && run.frames[n].model.Returns? ==> run.outcomes[n].Cloud?
    ensures run.outcomes[n].Cloud? && !Over(cfg, run, n) ==> Gap(run.states[n], run.frames[n]) <= cfg.resetOnGap
  {
    assert Linked(cfg, run, n);
  }

  /** With every frame reconstructed, a jump longer than the configured gap never stays
      inside one map. */
  lemma EveryFrameNeverJumps(cfg: Config, run: Session, i: nat, j: nat)
    requires IsRun(cfg, run) && cfg.everyN == 1 && AllReturn(run) && i < j < |run.frames| && Consecutive(run, i, j)
    ensures run.frames[j].seqNo - run.frames[i].seqNo <= cfg.resetOnGap
  {
    StepSeq(cfg, run, i);
    StepSeq(cfg, run, i + 1);
    assert j == i + 1;
    SameMapIffNoReset(cfg, run, i, j);
  }

  /** A frame too far ahead that is skipped, then one frame after another up to the next
      that is not. */
  function JumpSeq(cfg: Config, k: int): int {
    if k == 0 then 0
    else if cfg.resetOnGap >= 1 then cfg.resetOnGap + k
    else cfg.resetOnGap + 1 + (cfg.everyN - k) * -cfg.resetOnGap
  }

  lemma JumpGap(cfg: Config, k: nat)
    requires k > 0
    ensures JumpSeq(cfg, k + 1) - JumpSeq(cfg, k) <= cfg.resetOnGap
  {
  }

  function JumpFrame(cfg: Config, k: nat): Frame {
    Frame("", JumpSeq(cfg, k), Returns)
  }

  function JumpState(cfg: Config, k: nat): State {
    if k == 0 then INIT
    else State(true, "", if k <= cfg.everyN then 1 else 2, Some(JumpFrame(cfg, k - 1).seqNo), 1, k)
  }

  function JumpOutcome(cfg: Config, k: nat): Outcome {
    if k == 0 then Cloud(1, 1, true, 0)
    else if k < cfg.everyN then Skipped(1, 1)
    else Cloud(1, 2, false, JumpSeq(cfg, k) - JumpSeq(cfg, k - 1))
  }

  /** Some frame is skipped, and a map can hold two results. */
  predicate CanJump(cfg: Config) {
    cfg.everyN >= 2 && (cfg.resetEvery == 0 || cfg.resetEvery >= 2)
  }

  lemma JumpStep(cfg: Config, k: nat)
    requires CanJump(cfg) && k <= cfg.everyN
    ensures Step(cfg, JumpState(cfg, k), JumpFrame(cfg, k)) == Stepped(JumpState(cfg, k + 1), JumpOutcome(cfg, k))
  {
    SkipsBetween(k, cfg.everyN);
    if k > 1 {
      JumpGap(cfg, k - 1);
    }
  }

  function JumpRun(cfg: Config): (run: Session)
    ensures |run.frames| == cfg.everyN + 1 && |run.states| == |run.frames| + 1 && |run.outcomes| == |run.frames|
    ensures forall k :: 0 <= k <= cfg.everyN ==> run.frames[k] == JumpFrame(cfg, k) && run.outcomes[k] == JumpOutcome(cfg, k)
    ensures forall k :: 0 <= k <= cfg.everyN + 1 ==> run.states[k] == JumpState(cfg, k)
  {
    Session(seq(cfg.everyN + 1, k requires 0 <= k => JumpFrame(cfg, k)),
            seq(cfg.everyN + 2, k requires 0 <= k => JumpState(cfg, k)),
            seq(cfg.everyN + 1, k requires 0 <= k => JumpOutcome(cfg, k)))
  }

  lemma JumpRunJumps(cfg: Config)
    requires CanJump(cfg)
    ensures IsRun(cfg, JumpRun(cfg)) && AllReturn(JumpRun(cfg)) && !NeverJumps(cfg, JumpRun(cfg))
  {
    var run := JumpRun(cfg);
    forall k | 0 <= k < |run.frames| ensures Linked(cfg, run, k) {
      JumpStep(cfg, k);
    }
    assert Consecutive(run, 0, cfg.everyN);
  }

  /** A budget of one frame, or a negative one, leaves no map with two results. */
  lemma NoTwoResults(cfg: Config, run: Session, i: nat, j: nat)
    requires IsRun(cfg, run) && (cfg.resetEvery < 0 || cfg.resetEvery == 1)
    requires i < j < |run.frames| && run.outcomes[i].Cloud? && run.outcomes[j].Cloud?
    ensures run.outcomes[i].mapId != run.outcomes[j].mapId
  {
    if run.outcomes[i].mapId == run.outcomes[j].mapId {
      SameMapIffNoReset(cfg, run, i, j);
      StepBudget(cfg, run, j);
      StepMapId(cfg, run, j);
      FramesAreCounted(cfg, run, j);
      CloudCounts(run.outcomes, i, j);
      assert false;
    }
  }

  /** While the model returns, jumps inside a map stay within the configured gap in
      every run exactly when no frame is skipped or no map can hold two results: a gap
      that lands on a skipped frame is forgotten. */
  lemma JumpsBoundedIff(cfg: Config)
    ensures (forall run :: IsRun(cfg, run) && AllReturn(run) ==> NeverJumps(cfg, run)) <==> !CanJump(cfg)
  {
    if CanJump(cfg) {
      JumpRunJumps(cfg);
    } else {
      forall run | IsRun(cfg, run) && AllReturn(run) ensures NeverJumps(cfg, run) {
        forall i: nat, j: nat | i < j < |run.frames| && Consecutive(run, i, j)
          ensures run.frames[j].seqNo - run.frames[i].seqNo <= cfg.resetOnGap
        {
          if cfg.everyN == 1 {
            EveryFrameNeverJumps(cfg, run, i, j);
          } else {
            NoTwoResults(cfg, run, i, j);
          }
        }
      }
    }
  }

  /** With the default gap, four times the stride, every stride above one forgets some
      gap: a later result names the map of a frame more than the gap before it. */
  lemma DefaultGapIsForgotten(everyN: int)
    requires everyN >= 2
    ensures Configure(everyN, 0, 0).resetOnGap == 4 * everyN
    ensures exists run :: IsRun(Configure(everyN, 0, 0), run) && AllReturn(run) && !NeverJumps(Configure(everyN, 0, 0), run)
  {
    JumpRunJumps(Configure(everyN, 0, 0));
  }
}
