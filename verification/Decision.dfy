/** Looking for the mission target: keyframes kept while exploring, the search back
    through them, the live detector, the remembered coordinate, and what is announced. */
module Decision {
  import opened Wrappers
  import opened Seek

  /** A detection and where its box lies in the map, if points back it. */
  datatype Hit = Hit(score: real, place: Option<Place>)

  datatype Place = Place(x: real, y: real)

  datatype Detected = Raises | Hits(hits: seq<Hit>)

  /** An image and the points behind it, as what the detector and the lookup make of
      them for each target; nothing is found for a target not listed. */
  datatype Image = Image(finds: map<string, Detected>) {
    function Detect(target: string): Detected {
      if target in finds then finds[target] else Hits([])
    }
  }

  /** `born` is provenance the model adds: the number of the frame it was kept from. */
  datatype Keyframe = Keyframe(image: Image, mapId: string, t: nat, born: nat)

  datatype Config = Config(enabled: bool, hasDetector: bool, keepsKeyframes: bool, keyframeMax: nat, minConfidence: real,
                           detectEveryN: int, recallBudget: int, minFoundIntervalMs: real, resendMoveM: real,
                           absentAfterRuns: int, ttlS: real)

  /** What the decision reads of a frame.  `small` is the copy to keep, None when
      resizing fails; `mapId` is empty without a grid; `moved` says whether the camera
      is far enough from the last keyframe; times are server nanoseconds. */
  datatype View = View(seeking: bool, target: string, mapId: string, posed: bool, image: Image, small: Option<Image>,
                       moved: bool, placedAt: nat, now: nat)

  datatype Mind = Mind(keyframes: seq<Keyframe>, anchored: bool, memory: Option<Sighting>, recallQueue: seq<Keyframe>,
                       recallTarget: string, recallDone: bool, seekRuns: nat, absentRuns: int, lastFound: nat,
                       lastAnnounced: Option<Sighting>, prevSeek: bool)

  const INIT := Mind([], false, None, [], "", false, 0, 0, 0, None, false)

  datatype Announcement = Found(sighting: Sighting, isLive: bool) | Absent(target: string, mapId: string)

  datatype Looked = Looked(mind: Mind, found: Option<Sighting>)

  datatype Said = Said(mind: Mind, out: seq<Announcement>)

  // ---- The steps, as functions of the state ----

  /** A new run; the run of absences is not among what it forgets. */
  function Forgotten(m: Mind): Mind {
    m.(keyframes := [], anchored := false, memory := None, recallTarget := "", recallQueue := [],
       lastAnnounced := None, prevSeek := false)
  }

  function Keep(cfg: Config, m: Mind, v: View, born: nat): Mind {
    if !cfg.keepsKeyframes || (m.anchored && !v.moved) || v.small.None? then m
    else m.(keyframes := Newest(m.keyframes + [Keyframe(v.small.value, v.mapId, v.placedAt, born)], cfg.keyframeMax),
            anchored := true)
  }

  function Reversed(ks: seq<Keyframe>): (r: seq<Keyframe>)
    ensures |r| == |ks| && forall i :: 0 <= i < |ks| ==> r[i] == ks[|ks| - 1 - i]
  {
    seq(|ks|, i requires 0 <= i < |ks| => ks[|ks| - 1 - i])
  }

  function Armed(cfg: Config, m: Mind, target: string): Mind {
    var queue := if cfg.keepsKeyframes then Reversed(m.keyframes) else [];
    m.(recallTarget := target, recallQueue := queue, recallDone := queue == [])
  }

  /** The best hit of a live frame: detections come best first, so the search ends at
      the first one under the confidence floor. */
  function LiveHit(cfg: Config, hits: seq<Hit>): Option<Hit> {
    if hits == [] || hits[0].score < cfg.minConfidence then None
    else if hits[0].place.Some? then Some(hits[0])
    else LiveHit(cfg, hits[1..])
  }

  /** The first hit of a keyframe over the floor that points back. */
  function RecallHit(cfg: Config, hits: seq<Hit>): Option<Hit> {
    if hits == [] then None
    else if hits[0].score >= cfg.minConfidence && hits[0].place.Some? then Some(hits[0])
    else RecallHit(cfg, hits[1..])
  }

  function SightingOf(hit: Option<Hit>, target: string, mapId: string, basis: Basis, t: nat, born: nat): Option<Sighting> {
    if hit.None? || hit.value.place.None? then None
    else Some(Sighting(target, hit.value.place.value.x, hit.value.place.value.y, hit.value.score, mapId, basis, t, born))
  }

  function LookLive(cfg: Config, m: Mind, v: View, born: nat): Looked {
    var d := v.image.Detect(v.target);
    if d.Raises? then Looked(m, None)
    else
      var s := SightingOf(LiveHit(cfg, d.hits), v.target, v.mapId, Live, v.placedAt, born);
      if s.Some? then Looked(m.(memory := Remembered(m.memory, s.value), absentRuns := 0), s)
      else Looked(m.(absentRuns := m.absentRuns + 1), None)
  }

  /** What the search makes of one keyframe. */
  function FromKeyframe(cfg: Config, k: Keyframe, target: string): Option<Sighting> {
    var d := k.image.Detect(target);
    if d.Raises? then None else SightingOf(RecallHit(cfg, d.hits), target, k.mapId, Memory, k.t, k.born)
  }

  function Recall(cfg: Config, m: Mind, target: string, n: nat): Looked
    decreases n
  {
    if n == 0 then Looked(m, None)
    else if m.recallQueue == [] then Looked(m.(recallDone := true), None)
    else
      var s := FromKeyframe(cfg, m.recallQueue[0], target);
      if s.Some? then Looked(m.(recallQueue := [], recallDone := true), s)
      else Recall(cfg, m.(recallQueue := m.recallQueue[1..]), target, n - 1)
  }

  function AtLeast1(n: int): (m: nat)
    ensures n >= 1 ==> m == n
    ensures n <= 1 ==> m == 1
  {
    if n > 1 then n else 1
  }

  function Moved(a: Sighting, b: Sighting, m: real): bool {
    m <= 0.0 || (a.x - b.x) * (a.x - b.x) + (a.y - b.y) * (a.y - b.y) >= m * m
  }

  predicate Worth(cfg: Config, m: Mind, s: Sighting, now: nat) {
    || m.lastFound == 0
    || (now - m.lastFound) as real / 1000000.0 >= cfg.minFoundIntervalMs
    || m.lastAnnounced.None?
    || Moved(s, m.lastAnnounced.value, cfg.resendMoveM)
    || m.lastAnnounced.value.basis != s.basis
  }

  function Announce(cfg: Config, m: Mind, v: View, s: Option<Sighting>, isLive: bool): Said {
    if s.None? then
      if cfg.absentAfterRuns != 0 && m.absentRuns >= cfg.absentAfterRuns
      then Said(m.(absentRuns := 0, lastAnnounced := None), [Absent(v.target, v.mapId)])
      else Said(m, [])
    else if !Worth(cfg, m, s.value, v.now) then Said(m, [])
    else Said(m.(lastFound := v.now, lastAnnounced := s), [Found(s.value, isLive)])
  }

  function Live1(cfg: Config, m: Mind, v: View, born: nat): Looked {
    var counted := m.(seekRuns := m.seekRuns + 1);
    if m.seekRuns % AtLeast1(cfg.detectEveryN) == 0 then LookLive(cfg, counted, v, born) else Looked(counted, None)
  }

  function Recall1(cfg: Config, m: Mind, live: Option<Sighting>, target: string): Looked {
    if live.Some? || m.recallDone then Looked(m, None)
    else
      var r := Recall(cfg, m, target, AtLeast1(cfg.recallBudget));
      if r.found.Some? then Looked(r.mind.(memory := Remembered(r.mind.memory, r.found.value)), r.found) else r
  }

  /** Live first, then freshly recalled, then remembered. */
  function Chosen(cfg: Config, m: Mind, live: Option<Sighting>, recalled: Option<Sighting>, v: View): Option<Sighting> {
    if live.Some? then live
    else if recalled.Some? then recalled
    else Recalled(m.memory, v.target, v.mapId, cfg.ttlS, v.now)
  }

  /** The state a frame is looked at with: the target's search armed if it is new. */
  function Ready(cfg: Config, m: Mind, v: View): Mind {
    (if !m.prevSeek || m.recallTarget != v.target then Armed(cfg, m, v.target) else m).(prevSeek := true)
  }

  function Seeking(cfg: Config, m: Mind, v: View, born: nat): Said {
    var live := Live1(cfg, Ready(cfg, m, v), v, born);
    var recalled := Recall1(cfg, live.mind, live.found, v.target);
    Announce(cfg, recalled.mind, v, Chosen(cfg, recalled.mind, live.found, recalled.found, v), live.found.Some?)
  }

  function Decide(cfg: Config, m: Mind, v: View, born: nat): Said {
    if !cfg.enabled || !cfg.hasDetector || !v.posed then Said(m, [])
    else if !v.seeking then Said(Keep(cfg, m, v, born).(prevSeek := false), [])
    else if v.target == "" then Said(m, [])
    else Seeking(cfg, m, v, born)
  }

  // ---- The processor's own fields ----

  class Seeker {
    const cfg: Config
    var keyframes: seq<Keyframe>
    var anchored: bool
    var memory: Option<Sighting>
    var recallQueue: seq<Keyframe>
    var recallTarget: string
    var recallDone: bool
    var seekRuns: nat
    var absentRuns: int
    var lastFound: nat
    var lastAnnounced: Option<Sighting>
    var prevSeek: bool

    function Abs(): Mind
      reads this
    {
      Mind(keyframes, anchored, memory, recallQueue, recallTarget, recallDone, seekRuns, absentRuns, lastFound,
           lastAnnounced, prevSeek)
    }

    constructor (cfg: Config)
      ensures Abs() == INIT && this.cfg == cfg
    {
      this.cfg := cfg;
      keyframes, anchored, memory := [], false, None;
      recallQueue, recallTarget, recallDone := [], "", false;
      seekRuns, absentRuns, lastFound, lastAnnounced, prevSeek := 0, 0, 0, None, false;
    }

    method NewRun()
      modifies this
      ensures Abs() == Forgotten(old(Abs()))
    {
      keyframes, anchored, memory := [], false, None;
      recallTarget, recallQueue := "", [];
      lastAnnounced, prevSeek := None, false;
    }

    method StoreKeyframe(v: View, born: nat)
      modifies this
      ensures Abs() == Keep(cfg, old(Abs()), v, born)
    {
      if !cfg.keepsKeyframes || (anchored && !v.moved) || v.small.None? {
        return;
      }
      keyframes := Newest(keyframes + [Keyframe(v.small.value, v.mapId, v.placedAt, born)], cfg.keyframeMax);
      anchored := true;
    }

    method ArmRecall(target: string)
      modifies this
      ensures Abs() == Armed(cfg, old(Abs()), target)
    {
      recallTarget, recallDone := target, false;
      recallQueue := if cfg.keepsKeyframes then Reversed(keyframes) else [];
      if recallQueue == [] {
        recallDone := true;
      }
    }

    method DetectLive(v: View, born: nat) returns (found: Option<Sighting>)
      modifies this
      ensures LookLive(cfg, old(Abs()), v, born) == Looked(Abs(), found)
    {
      var d := v.image.Detect(v.target);
      if d.Raises? {
        return None;
      }
      var s := SightingOf(LiveHit(cfg, d.hits), v.target, v.mapId, Live, v.placedAt, born);
      if s.Some? {
        memory := Remembered(memory, s.value);
        absentRuns := 0;
        return s;
      }
      absentRuns := absentRuns + 1;
      return None;
    }

    method RunRecall(target: string) returns (found: Option<Sighting>)
      modifies this
      ensures Recall(cfg, old(Abs()), target, AtLeast1(cfg.recallBudget)) == Looked(Abs(), found)
    {
      var left := AtLeast1(cfg.recallBudget);
      while left > 0
        invariant Recall(cfg, Abs(), target, left) == Recall(cfg, old(Abs()), target, AtLeast1(cfg.recallBudget))
      {
        if recallQueue == [] {
          recallDone := true;
          return None;
        }
        var k := recallQueue[0];
        recallQueue := recallQueue[1..];
        var s := FromKeyframe(cfg, k, target);
        if s.Some? {
          recallQueue, recallDone := [], true;
          return s;
        }
        left := left - 1;
      }
      return None;
    }

    method MaybeAnnounce(v: View, s: Option<Sighting>, isLive: bool) returns (out: seq<Announcement>)
      modifies this
      ensures Announce(cfg, old(Abs()), v, s, isLive) == Said(Abs(), out)
    {
      if s.None? {
        if cfg.absentAfterRuns != 0 && absentRuns >= cfg.absentAfterRuns {
          absentRuns, lastAnnounced := 0, None;
          return [Absent(v.target, v.mapId)];
        }
        return [];
      }
      if !Worth(cfg, Abs(), s.value, v.now) {
        return [];
      }
      lastFound, lastAnnounced := v.now, s;
      return [Found(s.value, isLive)];
    }

    method Run(v: View, born: nat) returns (out: seq<Announcement>)
      modifies this
      ensures Decide(cfg, old(Abs()), v, born) == Said(Abs(), out)
    {
      if !cfg.enabled || !cfg.hasDetector || !v.posed {
        return [];
      }
      if !v.seeking {
        StoreKeyframe(v, born);
        prevSeek := false;
        return [];
      }
      if v.target == "" {
        return [];
      }
      out := Seek(v, born);
    }

    method LookNow(v: View, born: nat) returns (live: Option<Sighting>)
      modifies this
      ensures Live1(cfg, old(Abs()), v, born) == Looked(Abs(), live)
    {
      seekRuns := seekRuns + 1;
      live := None;
      if (seekRuns - 1) % AtLeast1(cfg.detectEveryN) == 0 {
        live := DetectLive(v, born);
      }
    }

    method LookBack(live: Option<Sighting>, target: string) returns (recalled: Option<Sighting>)
      modifies this
      ensures Recall1(cfg, old(Abs()), live, target) == Looked(Abs(), recalled)
    {
      recalled := None;
      if live.None? && !recallDone {
        recalled := RunRecall(target);
        if recalled.Some? {
          memory := Remembered(memory, recalled.value);
        }
      }
    }

    method Seek(v: View, born: nat) returns (out: seq<Announcement>)
      modifies this
      ensures Seeking(cfg, old(Abs()), v, born) == Said(Abs(), out)
    {
      if !prevSeek || recallTarget != v.target {
        ArmRecall(v.target);
      }
      prevSeek := true;
      var live := LookNow(v, born);
      var recalled := LookBack(live, v.target);
      var s := Chosen(cfg, Abs(), live, recalled, v);
      out := MaybeAnnounce(v, s, live.Some?);
    }
  }

  // ---- Where a sighting comes from ----

  ghost predicate AllBorn(ks: seq<Keyframe>, ok: set<nat>) {
    forall i :: 0 <= i < |ks| ==> ks[i].born in ok
  }

  predicate BornIn(s: Option<Sighting>, ok: set<nat>) {
    s.Some? ==> s.value.born in ok
  }

  /** Everything remembered, kept or queued was derived from the frames in `ok`. */
  ghost predicate DerivedFrom(m: Mind, ok: set<nat>) {
    AllBorn(m.keyframes, ok) && AllBorn(m.recallQueue, ok) && BornIn(m.memory, ok) && BornIn(m.lastAnnounced, ok)
  }

  lemma KeepDerives(cfg: Config, m: Mind, v: View, born: nat, ok: set<nat>)
    requires DerivedFrom(m, ok) && born in ok
    ensures DerivedFrom(Keep(cfg, m, v, born), ok)
  {
  }

  lemma ArmDerives(cfg: Config, m: Mind, target: string, ok: set<nat>)
    requires DerivedFrom(m, ok)
    ensures DerivedFrom(Armed(cfg, m, target), ok)
  {
  }

  lemma LiveDerives(cfg: Config, m: Mind, v: View, born: nat, ok: set<nat>)
    requires DerivedFrom(m, ok) && born in ok
    ensures var l := Live1(cfg, m, v, born); DerivedFrom(l.mind, ok) && BornIn(l.found, ok)
  {
  }

  lemma {:induction false} RecallDerives(cfg: Config, m: Mind, target: string, n: nat, ok: set<nat>)
    requires DerivedFrom(m, ok)
    ensures var r := Recall(cfg, m, target, n); DerivedFrom(r.mind, ok) && BornIn(r.found, ok)
    decreases n
  {
    if n > 0 && m.recallQueue != [] && FromKeyframe(cfg, m.recallQueue[0], target).None? {
      RecallDerives(cfg, m.(recallQueue := m.recallQueue[1..]), target, n - 1, ok);
    }
  }

  lemma Recall1Derives(cfg: Config, m: Mind, live: Option<Sighting>, target: string, ok: set<nat>)
    requires DerivedFrom(m, ok)
    ensures var r := Recall1(cfg, m, live, target); DerivedFrom(r.mind, ok) && BornIn(r.found, ok)
  {
    RecallDerives(cfg, m, target, AtLeast1(cfg.recallBudget), ok);
  }

  ghost predicate SaidFrom(said: Said, ok: set<nat>) {
    && DerivedFrom(said.mind, ok)
    && forall i :: 0 <= i < |said.out| && said.out[i].Found? ==> said.out[i].sighting.born in ok
  }

  lemma AnnounceDerives(cfg: Config, m: Mind, v: View, s: Option<Sighting>, isLive: bool, ok: set<nat>)
    requires DerivedFrom(m, ok) && BornIn(s, ok)
    ensures SaidFrom(Announce(cfg, m, v, s, isLive), ok)
  {
  }

  lemma SeekingDerives(cfg: Config, m: Mind, v: View, born: nat, ok: set<nat>)
    requires DerivedFrom(m, ok) && born in ok
    ensures SaidFrom(Seeking(cfg, m, v, born), ok)
  {
    ArmDerives(cfg, m, v.target, ok);
    var armed := Ready(cfg, m, v);
    LiveDerives(cfg, armed, v, born, ok);
    var live := Live1(cfg, armed, v, born);
    Recall1Derives(cfg, live.mind, live.found, v.target, ok);
    var recalled := Recall1(cfg, live.mind, live.found, v.target);
    AnnounceDerives(cfg, recalled.mind, v, Chosen(cfg, recalled.mind, live.found, recalled.found, v), live.found.Some?, ok);
  }

  /** Nothing enters the state or an announcement but what this frame and the state
      itself were derived from. */
  lemma DecideDerives(cfg: Config, m: Mind, v: View, born: nat, ok: set<nat>)
    requires DerivedFrom(m, ok) && born in ok
    ensures SaidFrom(Decide(cfg, m, v, born), ok)
  {
    KeepDerives(cfg, m, v, born, ok);
    SeekingDerives(cfg, m, v, born, ok);
  }

  // ---- The search back ----

  /** `k` is the first of `ks` in which the target is found. */
  ghost predicate FirstToShow(cfg: Config, ks: seq<Keyframe>, target: string, i: nat)
    requires i < |ks|
  {
    && FromKeyframe(cfg, ks[i], target).Some?
    && forall j :: 0 <= j < i ==> FromKeyframe(cfg, ks[j], target).None?
  }

  /** The search answers with the first keyframe of the queue, within the budget, in
      which the target is found. */
  lemma {:induction false} RecallTakesTheFirst(cfg: Config, m: Mind, target: string, n: nat)
    requires Recall(cfg, m, target, n).found.Some?
    ensures exists i: nat :: i < n && i < |m.recallQueue| && FirstToShow(cfg, m.recallQueue, target, i)
              && Recall(cfg, m, target, n).found == FromKeyframe(cfg, m.recallQueue[i], target)
    decreases n
  {
    if FromKeyframe(cfg, m.recallQueue[0], target).Some? {
      assert FirstToShow(cfg, m.recallQueue, target, 0);
    } else {
      var rest := m.(recallQueue := m.recallQueue[1..]);
      RecallTakesTheFirst(cfg, rest, target, n - 1);
      var i: nat :| i < n - 1 && i < |rest.recallQueue| && FirstToShow(cfg, rest.recallQueue, target, i)
        && Recall(cfg, rest, target, n - 1).found == FromKeyframe(cfg, rest.recallQueue[i], target);
      FirstAfterOneMore(cfg, m.recallQueue, target, i);
    }
  }

  lemma FirstAfterOneMore(cfg: Config, ks: seq<Keyframe>, target: string, i: nat)
    requires i + 1 < |ks| && FromKeyframe(cfg, ks[0], target).None? && FirstToShow(cfg, ks[1..], target, i)
    ensures FirstToShow(cfg, ks, target, i + 1) && ks[1..][i] == ks[i + 1]
  {
  }

  /** Without an answer every keyframe within the budget was searched and the rest stay
      queued. */
  lemma {:induction false} RecallSearchesTheBudget(cfg: Config, m: Mind, target: string, n: nat)
    requires Recall(cfg, m, target, n).found.None?
    ensures forall j :: 0 <= j < n && j < |m.recallQueue| ==> FromKeyframe(cfg, m.recallQueue[j], target).None?
    ensures n <= |m.recallQueue| ==> Recall(cfg, m, target, n).mind.recallQueue == m.recallQueue[n..]
    ensures n > |m.recallQueue| ==> Recall(cfg, m, target, n).mind.recallQueue == [] && Recall(cfg, m, target, n).mind.recallDone
    decreases n
  {
    if n > 0 && m.recallQueue != [] {
      var rest := m.(recallQueue := m.recallQueue[1..]);
      RecallSearchesTheBudget(cfg, rest, target, n - 1);
      forall j | 0 <= j < n && j < |m.recallQueue| ensures FromKeyframe(cfg, m.recallQueue[j], target).None? {
        assert j > 0 ==> m.recallQueue[j] == rest.recallQueue[j - 1];
      }
    }
  }

  /** `k` is the newest of `ks` in which the target is found. */
  ghost predicate NewestToShow(cfg: Config, ks: seq<Keyframe>, target: string, k: nat)
    requires k < |ks|
  {
    && FromKeyframe(cfg, ks[k], target).Some?
    && forall j :: k < j < |ks| ==> FromKeyframe(cfg, ks[j], target).None?
  }

  lemma FirstReversedIsNewest(cfg: Config, ks: seq<Keyframe>, target: string, i: nat)
    requires i < |ks| && FirstToShow(cfg, Reversed(ks), target, i)
    ensures NewestToShow(cfg, ks, target, |ks| - 1 - i)
  {
    forall j | |ks| - 1 - i < j < |ks| ensures FromKeyframe(cfg, ks[j], target).None? {
      assert Reversed(ks)[|ks| - 1 - j] == ks[j];
    }
  }

  /** A target named when the second scan begins is answered, if at all, by the newest
      keyframe that shows it. */
  lemma RecallTakesTheNewest(cfg: Config, m: Mind, target: string, n: nat)
    requires cfg.keepsKeyframes && Recall(cfg, Armed(cfg, m, target), target, n).found.Some?
    ensures exists k: nat :: k < |m.keyframes| && NewestToShow(cfg, m.keyframes, target, k)
              && Recall(cfg, Armed(cfg, m, target), target, n).found == FromKeyframe(cfg, m.keyframes[k], target)
  {
    var armed := Armed(cfg, m, target);
    RecallTakesTheFirst(cfg, armed, target, n);
    var i: nat :| i < n && i < |armed.recallQueue| && FirstToShow(cfg, armed.recallQueue, target, i)
      && Recall(cfg, armed, target, n).found == FromKeyframe(cfg, armed.recallQueue[i], target);
    FirstReversedIsNewest(cfg, m.keyframes, target, i);
  }

  // ---- Which map a sighting is of ----

  /** The detector runs on this frame and finds the target where points back it. */
  predicate SeesNow(cfg: Config, m: Mind, v: View) {
    && m.seekRuns % AtLeast1(cfg.detectEveryN) == 0
    && v.image.Detect(v.target).Hits?
    && LiveHit(cfg, v.image.Detect(v.target).hits).Some?
  }

  lemma {:induction false} LiveHitHasPlace(cfg: Config, hits: seq<Hit>)
    ensures LiveHit(cfg, hits).Some? ==> LiveHit(cfg, hits).value.place.Some?
  {
    if hits != [] {
      LiveHitHasPlace(cfg, hits[1..]);
    }
  }

  lemma LiveOutcome(cfg: Config, m: Mind, v: View, born: nat)
    ensures var l := Live1(cfg, m, v, born);
            && (l.found.Some? <==> SeesNow(cfg, m, v))
            && (l.found.Some? ==> l.found.value.mapId == v.mapId)
            && l.mind == m.(seekRuns := l.mind.seekRuns, memory := l.mind.memory, absentRuns := l.mind.absentRuns)
  {
    if v.image.Detect(v.target).Hits? {
      LiveHitHasPlace(cfg, v.image.Detect(v.target).hits);
    }
  }

  /** Keyframe `i` of the queue is searched on this frame and is the one that answers. */
  ghost predicate Answers(cfg: Config, m: Mind, target: string, i: nat) {
    !m.recallDone && i < AtLeast1(cfg.recallBudget) && i < |m.recallQueue| && FirstToShow(cfg, m.recallQueue, target, i)
  }

  lemma AnswerUnique(cfg: Config, m: Mind, target: string, i: nat, j: nat)
    requires Answers(cfg, m, target, i) && Answers(cfg, m, target, j)
    ensures i == j
  {
  }

  lemma {:induction false} RecallKeeps(cfg: Config, m: Mind, target: string, n: nat)
    ensures var r := Recall(cfg, m, target, n);
            r.mind == m.(recallQueue := r.mind.recallQueue, recallDone := r.mind.recallDone)
    decreases n
  {
    if n > 0 && m.recallQueue != [] {
      RecallKeeps(cfg, m.(recallQueue := m.recallQueue[1..]), target, n - 1);
    }
  }

  /** The search finds what the keyframe that answers shows, and nothing without one. */
  lemma RecallOutcome(cfg: Config, m: Mind, target: string)
    ensures var r := Recall1(cfg, m, None, target);
            && (r.found.Some? <==> exists i: nat :: Answers(cfg, m, target, i))
            && (forall i: nat :: Answers(cfg, m, target, i) ==> r.found == FromKeyframe(cfg, m.recallQueue[i], target))
            && r.mind.lastFound == m.lastFound && r.mind.lastAnnounced == m.lastAnnounced
  {
    var n := AtLeast1(cfg.recallBudget);
    RecallKeeps(cfg, m, target, n);
    if !m.recallDone {
      if Recall(cfg, m, target, n).found.Some? {
        RecallTakesTheFirst(cfg, m, target, n);
        var i: nat :| i < n && i < |m.recallQueue| && FirstToShow(cfg, m.recallQueue, target, i)
          && Recall(cfg, m, target, n).found == FromKeyframe(cfg, m.recallQueue[i], target);
        assert Answers(cfg, m, target, i);
        forall j: nat | Answers(cfg, m, target, j) ensures j == i {
          AnswerUnique(cfg, m, target, i, j);
        }
      } else {
        RecallSearchesTheBudget(cfg, m, target, n);
      }
    }
  }

  /** A keyframe of another known map answers on this frame. */
  ghost predicate AnswersFromOtherMap(cfg: Config, m: Mind, v: View, i: nat) {
    && Answers(cfg, m, v.target, i)
    && v.mapId != "" && m.recallQueue[i].mapId != "" && m.recallQueue[i].mapId != v.mapId
  }

  /** What is chosen on a frame names another map than its grid exactly when, in the
      state before it, nothing is seen on the frame itself and the keyframe the search
      will answer with was kept under another map: the one branch that does not check. */
  lemma OtherMapIffKeyframeAnswers(cfg: Config, m: Mind, v: View, born: nat)
    ensures var l := Live1(cfg, m, v, born);
            var r := Recall1(cfg, l.mind, l.found, v.target);
            var s := Chosen(cfg, r.mind, l.found, r.found, v);
            s.Some? && OtherMap(s.value, v.mapId) <==> !SeesNow(cfg, m, v) && exists i: nat :: AnswersFromOtherMap(cfg, m, v, i)
  {
    LiveOutcome(cfg, m, v, born);
    var l := Live1(cfg, m, v, born);
    if l.found.None? {
      RecallOutcome(cfg, l.mind, v.target);
      SameAnswers(cfg, m, l.mind, v);
      if i: nat :| Answers(cfg, m, v.target, i) {
        assert Answers(cfg, l.mind, v.target, i);
        forall j: nat | AnswersFromOtherMap(cfg, m, v, j) ensures j == i {
          AnswerUnique(cfg, m, v.target, i, j);
        }
        if OtherMap(FromKeyframe(cfg, m.recallQueue[i], v.target).value, v.mapId) {
          assert AnswersFromOtherMap(cfg, m, v, i);
        }
      }
    }
  }

  lemma SameAnswers(cfg: Config, m: Mind, n: Mind, v: View)
    requires n.recallQueue == m.recallQueue && n.recallDone == m.recallDone
    ensures forall i: nat :: Answers(cfg, n, v.target, i) <==> Answers(cfg, m, v.target, i)
  {
  }

  predicate Looks(cfg: Config, v: View) {
    cfg.enabled && cfg.hasDetector && v.posed && v.seeking && v.target != ""
  }

  ghost predicate AnnouncesOtherMap(cfg: Config, m: Mind, v: View, born: nat) {
    exists i :: 0 <= i < |Decide(cfg, m, v, born).out| && Decide(cfg, m, v, born).out[i].Found?
      && OtherMap(Decide(cfg, m, v, born).out[i].sighting, v.mapId)
  }

  /** A frame announces a target of another map than its grid exactly when it looks for
      one, sees none itself, and the keyframe that answers, kept under another map, is
      worth a message. */
  lemma AnnouncesOtherMapIff(cfg: Config, m: Mind, v: View, born: nat)
    ensures AnnouncesOtherMap(cfg, m, v, born) <==>
              && Looks(cfg, v) && !SeesNow(cfg, Ready(cfg, m, v), v)
              && exists i: nat :: AnswersFromOtherMap(cfg, Ready(cfg, m, v), v, i)
                   && Worth(cfg, m, FromKeyframe(cfg, Ready(cfg, m, v).recallQueue[i], v.target).value, v.now)
  {
    if Looks(cfg, v) {
      var ready := Ready(cfg, m, v);
      var l := Live1(cfg, ready, v, born);
      var r := Recall1(cfg, l.mind, l.found, v.target);
      var s := Chosen(cfg, r.mind, l.found, r.found, v);
      LiveOutcome(cfg, ready, v, born);
      RecallOutcome(cfg, l.mind, v.target);
      OtherMapIffKeyframeAnswers(cfg, ready, v, born);
      SameAnswers(cfg, ready, l.mind, v);
      AnnouncedOutcome(cfg, r.mind, v, s, l.found.Some?);
      var out := Announce(cfg, r.mind, v, s, l.found.Some?).out;
      assert Decide(cfg, m, v, born).out == out;
      assert s.Some? ==> Worth(cfg, r.mind, s.value, v.now) == Worth(cfg, m, s.value, v.now);
      forall i: nat | AnswersFromOtherMap(cfg, ready, v, i) && l.found.None?
        ensures s == FromKeyframe(cfg, ready.recallQueue[i], v.target)
      {
        assert Answers(cfg, l.mind, v.target, i);
      }
      if s.Some? && OtherMap(s.value, v.mapId) && Worth(cfg, m, s.value, v.now) {
        assert out[0] == Found(s.value, l.found.Some?);
        var i: nat :| AnswersFromOtherMap(cfg, ready, v, i);
        assert s == FromKeyframe(cfg, ready.recallQueue[i], v.target);
      } else {
        assert forall i :: 0 <= i < |out| && out[i].Found? ==> !OtherMap(out[i].sighting, v.mapId);
      }
    }
  }

  lemma AnnouncedOutcome(cfg: Config, m: Mind, v: View, s: Option<Sighting>, isLive: bool)
    ensures s.Some? && Worth(cfg, m, s.value, v.now) ==> Announce(cfg, m, v, s, isLive).out == [Found(s.value, isLive)]
    ensures s.None? || !Worth(cfg, m, s.value, v.now) ==>
              forall i :: 0 <= i < |Announce(cfg, m, v, s, isLive).out| ==> !Announce(cfg, m, v, s, isLive).out[i].Found?
  {
  }

  lemma OneKeyframe(cfg: Config, m: Mind, target: string, n: pos, s: Sighting)
    requires m.recallQueue != [] && FromKeyframe(cfg, m.recallQueue[0], target) == Some(s)
    ensures Recall(cfg, m, target, n) == Looked(m.(recallQueue := [], recallDone := true), Some(s))
  {
  }

  lemma NothingLive(cfg: Config, m: Mind, v: View, born: nat)
    requires v.image.Detect(v.target) == Hits([])
    ensures Live1(cfg, m, v, born).found.None?
    ensures Live1(cfg, m, v, born).mind == m.(seekRuns := m.seekRuns + 1, absentRuns := Live1(cfg, m, v, born).mind.absentRuns)
  {
  }

  /** What the newest keyframe shows is announced when the second scan begins, whatever
      map it is of. */
  lemma FreshRecallIsAnnounced(cfg: Config, m: Mind, v: View, born: nat, s: Sighting)
    requires cfg.enabled && cfg.hasDetector && cfg.keepsKeyframes && v.posed && v.seeking && v.target != ""
    requires !m.prevSeek && m.lastFound == 0 && v.image.Detect(v.target) == Hits([])
    requires m.keyframes != [] && FromKeyframe(cfg, m.keyframes[|m.keyframes| - 1], v.target) == Some(s)
    ensures Decide(cfg, m, v, born).out == [Found(s, false)]
  {
    var armed := Armed(cfg, m, v.target).(prevSeek := true);
    NothingLive(cfg, armed, v, born);
    var live := Live1(cfg, armed, v, born).mind;
    OneKeyframe(cfg, live, v.target, AtLeast1(cfg.recallBudget), s);
    assert Recall1(cfg, live, None, v.target).found == Some(s);
  }

  // ---- Absence ----

  /** The detector runs on this frame, returns, and gives no hit. */
  predicate Vain(cfg: Config, m: Mind, v: View) {
    && m.seekRuns % AtLeast1(cfg.detectEveryN) == 0
    && v.image.Detect(v.target).Hits?
    && LiveHit(cfg, v.image.Detect(v.target).hits).None?
  }

  predicate SaysAbsent(out: seq<Announcement>) {
    exists i :: 0 <= i < |out| && out[i].Absent?
  }

  /** The absences counted by the end of a frame on which nothing is seen. */
  function Counted(cfg: Config, m: Mind, v: View): int {
    if Vain(cfg, m, v) then m.absentRuns + 1 else m.absentRuns
  }

  lemma LiveCounts(cfg: Config, m: Mind, v: View, born: nat)
    ensures var l := Live1(cfg, m, v, born).mind;
            && l.absentRuns == (if SeesNow(cfg, m, v) then 0 else Counted(cfg, m, v))
            && (!SeesNow(cfg, m, v) ==> l.memory == m.memory)
  {
    if v.image.Detect(v.target).Hits? {
      LiveHitHasPlace(cfg, v.image.Detect(v.target).hits);
    }
  }

  /** Nothing is known of the target on this frame: nothing seen, no keyframe answers,
      and no coordinate is remembered. */
  ghost predicate Nothing(cfg: Config, m: Mind, v: View) {
    && !SeesNow(cfg, Ready(cfg, m, v), v)
    && (forall i: nat :: !Answers(cfg, Ready(cfg, m, v), v.target, i))
    && Recalled(m.memory, v.target, v.mapId, cfg.ttlS, v.now).None?
  }

  lemma RecallKeepsCounts(cfg: Config, m: Mind, live: Option<Sighting>, target: string)
    ensures var r := Recall1(cfg, m, live, target);
            r.mind.absentRuns == m.absentRuns && (r.found.None? ==> r.mind.memory == m.memory)
  {
    RecallKeeps(cfg, m, target, AtLeast1(cfg.recallBudget));
  }

  /** What is chosen on a frame is None exactly when nothing is known. */
  lemma ChosenIffKnown(cfg: Config, m: Mind, v: View, born: nat)
    ensures var l := Live1(cfg, Ready(cfg, m, v), v, born);
            var r := Recall1(cfg, l.mind, l.found, v.target);
            && (Chosen(cfg, r.mind, l.found, r.found, v).None? <==> Nothing(cfg, m, v))
            && r.mind.absentRuns == l.mind.absentRuns
  {
    var ready := Ready(cfg, m, v);
    var l := Live1(cfg, ready, v, born);
    LiveOutcome(cfg, ready, v, born);
    LiveCounts(cfg, ready, v, born);
    RecallKeepsCounts(cfg, l.mind, l.found, v.target);
    if l.found.None? {
      RecallOutcome(cfg, l.mind, v.target);
      SameAnswers(cfg, ready, l.mind, v);
    }
  }

  lemma AnnouncedAbsence(cfg: Config, m: Mind, v: View, s: Option<Sighting>, isLive: bool)
    ensures var said := Announce(cfg, m, v, s, isLive);
            && (SaysAbsent(said.out) <==> s.None? && cfg.absentAfterRuns != 0 && m.absentRuns >= cfg.absentAfterRuns)
            && said.mind.absentRuns == (if SaysAbsent(said.out) then 0 else m.absentRuns)
  {
    var said := Announce(cfg, m, v, s, isLive);
    if s.None? && cfg.absentAfterRuns != 0 && m.absentRuns >= cfg.absentAfterRuns {
      assert said.out[0].Absent?;
    }
  }

  /** A frame announces an absence exactly when it looks for a target of which nothing is
      known and the fruitless looks counted, this one included, reach the configured
      number: for every state and frame. */
  lemma AbsentIff(cfg: Config, m: Mind, v: View, born: nat)
    ensures SaysAbsent(Decide(cfg, m, v, born).out) <==>
              && Looks(cfg, v) && Nothing(cfg, m, v)
              && cfg.absentAfterRuns != 0 && Counted(cfg, m, v) >= cfg.absentAfterRuns
  {
    if Looks(cfg, v) {
      var ready := Ready(cfg, m, v);
      var l := Live1(cfg, ready, v, born);
      var r := Recall1(cfg, l.mind, l.found, v.target);
      LiveCounts(cfg, ready, v, born);
      ChosenIffKnown(cfg, m, v, born);
      AnnouncedAbsence(cfg, r.mind, v, Chosen(cfg, r.mind, l.found, r.found, v), l.found.Some?);
    }
  }

  /** The count after a frame: a sighting on the frame itself or an announced absence
      ends it, and a look that finds nothing adds one. */
  lemma AbsentTally(cfg: Config, m: Mind, v: View, born: nat)
    ensures Decide(cfg, m, v, born).mind.absentRuns ==
              if !Looks(cfg, v) then m.absentRuns
              else if SeesNow(cfg, m, v) || SaysAbsent(Decide(cfg, m, v, born).out) then 0
              else Counted(cfg, m, v)
  {
    if Looks(cfg, v) {
      var ready := Ready(cfg, m, v);
      var l := Live1(cfg, ready, v, born);
      var r := Recall1(cfg, l.mind, l.found, v.target);
      LiveCounts(cfg, ready, v, born);
      ChosenIffKnown(cfg, m, v, born);
      AnnouncedAbsence(cfg, r.mind, v, Chosen(cfg, r.mind, l.found, r.found, v), l.found.Some?);
    }
  }

  // ---- What is kept while exploring ----

  /** `after` is the end of `all`. */
  ghost predicate EndOf(after: seq<Keyframe>, all: seq<Keyframe>) {
    |after| <= |all| && forall i :: 0 <= i < |after| ==> after[i] == all[|all| - |after| + i]
  }

  /** An exploring frame is kept exactly when keyframes are, it could be resized, and it is
      the first of its run or the camera has moved; the newest are held up to the ceiling. */
  lemma ExploringKeepsIff(cfg: Config, m: Mind, v: View, born: nat)
    requires cfg.enabled && cfg.hasDetector && v.posed && !v.seeking
    ensures var after := Decide(cfg, m, v, born).mind;
            var kept := cfg.keepsKeyframes && v.small.Some? && (!m.anchored || v.moved);
            && (!kept ==> after.keyframes == m.keyframes && after.anchored == m.anchored)
            && (kept ==> after.anchored && EndOf(after.keyframes, m.keyframes + [Keyframe(v.small.value, v.mapId, v.placedAt, born)])
                         && |after.keyframes| == if |m.keyframes| < cfg.keyframeMax then |m.keyframes| + 1 else cfg.keyframeMax)
  {
  }

  // ---- What a sighting is made of ----

  /** Hit `i` is the one a live frame takes: it has a place, no hit before it has one, and
      no hit up to it is under the floor. */
  ghost predicate TakenLive(cfg: Config, hits: seq<Hit>, i: nat) {
    && i < |hits| && hits[i].place.Some?
    && (forall j :: 0 <= j <= i ==> hits[j].score >= cfg.minConfidence)
    && (forall j :: 0 <= j < i ==> hits[j].place.None?)
  }

  /** Hit `i` is the one a keyframe is taken at: the first over the floor with a place. */
  ghost predicate TakenBack(cfg: Config, hits: seq<Hit>, i: nat) {
    && i < |hits| && hits[i].place.Some? && hits[i].score >= cfg.minConfidence
    && forall j :: 0 <= j < i ==> hits[j].place.None? || hits[j].score < cfg.minConfidence
  }

  /** The live search gives the hit that is to be taken, and nothing when there is none. */
  lemma {:induction false} LiveHitIsTaken(cfg: Config, hits: seq<Hit>)
    ensures LiveHit(cfg, hits).Some? <==> exists i: nat :: TakenLive(cfg, hits, i)
    ensures forall i: nat :: TakenLive(cfg, hits, i) ==> LiveHit(cfg, hits) == Some(hits[i])
  {
    if hits != [] && hits[0].score >= cfg.minConfidence {
      if hits[0].place.Some? {
        assert TakenLive(cfg, hits, 0);
      } else {
        LiveHitIsTaken(cfg, hits[1..]);
        forall i: nat | TakenLive(cfg, hits[1..], i) ensures TakenLive(cfg, hits, i + 1) {
          OneMoreLive(cfg, hits, i);
        }
        forall i: nat | TakenLive(cfg, hits, i) ensures i > 0 && TakenLive(cfg, hits[1..], i - 1) {
        }
      }
    }
  }

  lemma OneMoreLive(cfg: Config, hits: seq<Hit>, i: nat)
    requires hits != [] && hits[0].score >= cfg.minConfidence && hits[0].place.None? && TakenLive(cfg, hits[1..], i)
    ensures TakenLive(cfg, hits, i + 1)
  {
    forall j | 0 <= j <= i + 1 ensures hits[j].score >= cfg.minConfidence && (j < i + 1 ==> hits[j].place.None?) {
      assert j > 0 ==> hits[j] == hits[1..][j - 1];
    }
  }

  lemma {:induction false} RecallHitIsTaken(cfg: Config, hits: seq<Hit>)
    ensures RecallHit(cfg, hits).Some? <==> exists i: nat :: TakenBack(cfg, hits, i)
    ensures forall i: nat :: TakenBack(cfg, hits, i) ==> RecallHit(cfg, hits) == Some(hits[i])
  {
    if hits != [] {
      if hits[0].score >= cfg.minConfidence && hits[0].place.Some? {
        assert TakenBack(cfg, hits, 0);
      } else {
        RecallHitIsTaken(cfg, hits[1..]);
        forall i: nat | TakenBack(cfg, hits[1..], i) ensures TakenBack(cfg, hits, i + 1) {
          OneMoreBack(cfg, hits, i);
        }
        forall i: nat | TakenBack(cfg, hits, i) ensures i > 0 && TakenBack(cfg, hits[1..], i - 1) {
        }
      }
    }
  }

  lemma OneMoreBack(cfg: Config, hits: seq<Hit>, i: nat)
    requires hits != [] && (hits[0].place.None? || hits[0].score < cfg.minConfidence) && TakenBack(cfg, hits[1..], i)
    ensures TakenBack(cfg, hits, i + 1)
  {
    forall j | 0 <= j < i + 1 ensures hits[j].place.None? || hits[j].score < cfg.minConfidence {
      assert j > 0 ==> hits[j] == hits[1..][j - 1];
    }
  }

  /** The hit of this frame that the sighting stands for: one taken live on the frame's
      own image, or one taken back from the copy that was kept of it. */
  ghost predicate StandsFor(cfg: Config, v: View, s: Sighting, i: nat) {
    var d := if s.basis.Live? then v.image.Detect(s.target) else if v.small.Some? then v.small.value.Detect(s.target) else Raises;
    && d.Hits? && (if s.basis.Live? then TakenLive(cfg, d.hits, i) else TakenBack(cfg, d.hits, i))
    && d.hits[i].place == Some(Place(s.x, s.y)) && d.hits[i].score == s.confidence
    && s.mapId == v.mapId && s.t == v.placedAt
  }

  /** The sighting is a detection on one of these frames, the one it says. */
  ghost predicate Genuine(cfg: Config, views: seq<View>, s: Sighting) {
    s.born < |views| && exists i: nat :: StandsFor(cfg, views[s.born], s, i)
  }

  /** The keyframe is the copy kept of one of these frames, the one it says. */
  predicate KeptFrom(views: seq<View>, k: Keyframe) {
    && k.born < |views| && views[k.born].small == Some(k.image)
    && k.mapId == views[k.born].mapId && k.t == views[k.born].placedAt
  }

  ghost predicate AllKept(views: seq<View>, ks: seq<Keyframe>) {
    forall i :: 0 <= i < |ks| ==> KeptFrom(views, ks[i])
  }

  ghost predicate GenuineIf(cfg: Config, views: seq<View>, s: Option<Sighting>) {
    s.Some? ==> Genuine(cfg, views, s.value)
  }

  /** All that is kept, queued or remembered is what the frames showed. */
  ghost predicate AllGenuine(cfg: Config, views: seq<View>, m: Mind) {
    && AllKept(views, m.keyframes) && AllKept(views, m.recallQueue)
    && GenuineIf(cfg, views, m.memory) && GenuineIf(cfg, views, m.lastAnnounced)
  }

  lemma KeepIsGenuine(cfg: Config, views: seq<View>, m: Mind, v: View, born: nat)
    requires AllGenuine(cfg, views, m) && born < |views| && views[born] == v
    ensures AllGenuine(cfg, views, Keep(cfg, m, v, born))
  {
  }

  lemma ArmedIsGenuine(cfg: Config, views: seq<View>, m: Mind, target: string)
    requires AllGenuine(cfg, views, m)
    ensures AllGenuine(cfg, views, Armed(cfg, m, target))
  {
  }

  lemma LiveSightingIsGenuine(cfg: Config, views: seq<View>, v: View, target: string, hits: seq<Hit>, born: nat)
    requires born < |views| && views[born] == v && v.image.Detect(target) == Hits(hits)
    ensures GenuineIf(cfg, views, SightingOf(LiveHit(cfg, hits), target, v.mapId, Live, v.placedAt, born))
  {
    var s := SightingOf(LiveHit(cfg, hits), target, v.mapId, Live, v.placedAt, born);
    LiveHitIsTaken(cfg, hits);
    if s.Some? {
      var i: nat :| TakenLive(cfg, hits, i);
      assert StandsFor(cfg, v, s.value, i);
    }
  }

  lemma KeyframeSightingIsGenuine(cfg: Config, views: seq<View>, k: Keyframe, target: string)
    requires KeptFrom(views, k)
    ensures GenuineIf(cfg, views, FromKeyframe(cfg, k, target))
    ensures FromKeyframe(cfg, k, target).Some? ==> FromKeyframe(cfg, k, target).value.target == target
  {
    var d, s := k.image.Detect(target), FromKeyframe(cfg, k, target);
    if s.Some? {
      RecallHitIsTaken(cfg, d.hits);
      var i: nat :| TakenBack(cfg, d.hits, i);
      assert StandsFor(cfg, views[k.born], s.value, i);
    }
  }

  lemma LiveIsGenuine(cfg: Config, views: seq<View>, m: Mind, v: View, born: nat)
    requires AllGenuine(cfg, views, m) && born < |views| && views[born] == v
    ensures var l := Live1(cfg, m, v, born);
            && AllGenuine(cfg, views, l.mind) && GenuineIf(cfg, views, l.found)
            && (l.found.Some? ==> l.found.value.target == v.target && l.found.value.basis.Live? && l.found.value.born == born)
  {
    if v.image.Detect(v.target).Hits? {
      LiveSightingIsGenuine(cfg, views, v, v.target, v.image.Detect(v.target).hits, born);
    }
  }

  lemma {:induction false} RecallIsGenuine(cfg: Config, views: seq<View>, m: Mind, target: string, n: nat)
    requires AllGenuine(cfg, views, m)
    ensures var r := Recall(cfg, m, target, n);
            && AllGenuine(cfg, views, r.mind) && GenuineIf(cfg, views, r.found)
            && (r.found.Some? ==> r.found.value.target == target)
    decreases n
  {
    if n > 0 && m.recallQueue != [] {
      KeyframeSightingIsGenuine(cfg, views, m.recallQueue[0], target);
      if FromKeyframe(cfg, m.recallQueue[0], target).None? {
        RecallIsGenuine(cfg, views, m.(recallQueue := m.recallQueue[1..]), target, n - 1);
      }
    }
  }

  lemma Recall1IsGenuine(cfg: Config, views: seq<View>, m: Mind, live: Option<Sighting>, target: string)
    requires AllGenuine(cfg, views, m)
    ensures var r := Recall1(cfg, m, live, target);
            && AllGenuine(cfg, views, r.mind) && GenuineIf(cfg, views, r.found)
            && (r.found.Some? ==> r.found.value.target == target)
  {
    RecallIsGenuine(cfg, views, m, target, AtLeast1(cfg.recallBudget));
  }

  /** What a frame looking for `target` announces is a genuine detection of it, and what
      it calls live was seen on the frame itself. */
  ghost predicate SaidGenuine(cfg: Config, views: seq<View>, said: Said, target: string, born: nat) {
    && AllGenuine(cfg, views, said.mind)
    && forall i :: 0 <= i < |said.out| && said.out[i].Found? ==>
         && Genuine(cfg, views, said.out[i].sighting) && said.out[i].sighting.target == target
         && (said.out[i].isLive ==> said.out[i].sighting.basis.Live? && said.out[i].sighting.born == born)
  }

  lemma ChosenIsGenuine(cfg: Config, views: seq<View>, m: Mind, live: Option<Sighting>, recalled: Option<Sighting>, v: View)
    requires AllGenuine(cfg, views, m) && GenuineIf(cfg, views, live) && GenuineIf(cfg, views, recalled) && v.target != ""
    requires (live.Some? ==> live.value.target == v.target) && (recalled.Some? ==> recalled.value.target == v.target)
    ensures var s := Chosen(cfg, m, live, recalled, v); GenuineIf(cfg, views, s) && (s.Some? ==> s.value.target == v.target)
  {
  }

  lemma AnnounceIsGenuine(cfg: Config, views: seq<View>, m: Mind, v: View, s: Option<Sighting>, isLive: bool, born: nat)
    requires AllGenuine(cfg, views, m) && GenuineIf(cfg, views, s)
    requires s.Some? ==> s.value.target == v.target && (isLive ==> s.value.basis.Live? && s.value.born == born)
    ensures SaidGenuine(cfg, views, Announce(cfg, m, v, s, isLive), v.target, born)
  {
  }

  lemma SeekingIsGenuine(cfg: Config, views: seq<View>, m: Mind, v: View, born: nat)
    requires AllGenuine(cfg, views, m) && born < |views| && views[born] == v && v.target != ""
    ensures SaidGenuine(cfg, views, Seeking(cfg, m, v, born), v.target, born)
  {
    ArmedIsGenuine(cfg, views, m, v.target);
    var ready := Ready(cfg, m, v);
    LiveIsGenuine(cfg, views, ready, v, born);
    var live := Live1(cfg, ready, v, born);
    Recall1IsGenuine(cfg, views, live.mind, live.found, v.target);
    var recalled := Recall1(cfg, live.mind, live.found, v.target);
    ChosenIsGenuine(cfg, views, recalled.mind, live.found, recalled.found, v);
    AnnounceIsGenuine(cfg, views, recalled.mind, v, Chosen(cfg, recalled.mind, live.found, recalled.found, v), live.found.Some?, born);
  }

  /** A frame's decision keeps the state genuine and announces nothing else. */
  lemma DecideIsGenuine(cfg: Config, views: seq<View>, m: Mind, v: View, born: nat)
    requires AllGenuine(cfg, views, m) && born < |views| && views[born] == v
    ensures SaidGenuine(cfg, views, Decide(cfg, m, v, born), v.target, born)
  {
    KeepIsGenuine(cfg, views, m, v, born);
    if Looks(cfg, v) {
      SeekingIsGenuine(cfg, views, m, v, born);
    }
  }

  /** A genuine sighting is as confident as the configuration asks. */
  lemma GenuineIsConfident(cfg: Config, views: seq<View>, s: Sighting)
    requires Genuine(cfg, views, s)
    ensures s.confidence >= cfg.minConfidence
  {
  }

  // ---- What is worth a message ----

  /** What the frame knows of its target, best source first. */
  function Known(cfg: Config, m: Mind, v: View, born: nat): Option<Sighting> {
    var live := Live1(cfg, Ready(cfg, m, v), v, born);
    var recalled := Recall1(cfg, live.mind, live.found, v.target);
    Chosen(cfg, recalled.mind, live.found, recalled.found, v)
  }

  /** The detector runs on this frame and hit `i` of what it gives is taken. */
  ghost predicate TakesNow(cfg: Config, m: Mind, v: View, i: nat) {
    && m.seekRuns % AtLeast1(cfg.detectEveryN) == 0
    && v.image.Detect(v.target).Hits? && TakenLive(cfg, v.image.Detect(v.target).hits, i)
  }

  lemma SeesIffTakes(cfg: Config, m: Mind, v: View)
    ensures SeesNow(cfg, m, v) <==> exists i: nat :: TakesNow(cfg, m, v, i)
  {
    if v.image.Detect(v.target).Hits? {
      LiveHitIsTaken(cfg, v.image.Detect(v.target).hits);
      if i: nat :| TakenLive(cfg, v.image.Detect(v.target).hits, i) {
        assert m.seekRuns % AtLeast1(cfg.detectEveryN) == 0 ==> TakesNow(cfg, m, v, i);
      }
    }
  }

  lemma TakenIsFound(cfg: Config, m: Mind, v: View, born: nat, i: nat)
    requires TakesNow(cfg, m, v, i)
    ensures var h := v.image.Detect(v.target).hits[i];
            Live1(cfg, m, v, born).found
            == Some(Sighting(v.target, h.place.value.x, h.place.value.y, h.score, v.mapId, Live, v.placedAt, born))
  {
    LiveHitIsTaken(cfg, v.image.Detect(v.target).hits);
  }

  /** The best a frame knows: the hit taken on the frame itself; failing that, what the
      keyframe that answers shows; failing that, what is remembered and still good. */
  lemma KnownIs(cfg: Config, m: Mind, v: View, born: nat)
    ensures forall i: nat :: TakesNow(cfg, Ready(cfg, m, v), v, i) ==>
              var h := v.image.Detect(v.target).hits[i];
              Known(cfg, m, v, born)
              == Some(Sighting(v.target, h.place.value.x, h.place.value.y, h.score, v.mapId, Live, v.placedAt, born))
    ensures (forall i: nat :: !TakesNow(cfg, Ready(cfg, m, v), v, i)) ==>
              forall k: nat :: Answers(cfg, Ready(cfg, m, v), v.target, k) ==>
                Known(cfg, m, v, born) == FromKeyframe(cfg, Ready(cfg, m, v).recallQueue[k], v.target)
    ensures (forall i: nat :: !TakesNow(cfg, Ready(cfg, m, v), v, i) && !Answers(cfg, Ready(cfg, m, v), v.target, i)) ==>
              Known(cfg, m, v, born) == Recalled(m.memory, v.target, v.mapId, cfg.ttlS, v.now)
  {
    var ready := Ready(cfg, m, v);
    var live := Live1(cfg, ready, v, born);
    SeesIffTakes(cfg, ready, v);
    LiveOutcome(cfg, ready, v, born);
    LiveCounts(cfg, ready, v, born);
    forall i: nat | TakesNow(cfg, ready, v, i)
      ensures var h := v.image.Detect(v.target).hits[i];
              live.found == Some(Sighting(v.target, h.place.value.x, h.place.value.y, h.score, v.mapId, Live, v.placedAt, born))
    {
      TakenIsFound(cfg, ready, v, born, i);
    }
    if live.found.None? {
      RecallOutcome(cfg, live.mind, v.target);
      RecallKeepsCounts(cfg, live.mind, None, v.target);
      SameAnswers(cfg, ready, live.mind, v);
    }
  }

  /** What a keyframe shows: the hit taken at it, of the map and the moment it was kept. */
  lemma KeyframeShows(cfg: Config, k: Keyframe, target: string, i: nat)
    requires k.image.Detect(target).Hits? && TakenBack(cfg, k.image.Detect(target).hits, i)
    ensures var h := k.image.Detect(target).hits[i];
            FromKeyframe(cfg, k, target)
            == Some(Sighting(target, h.place.value.x, h.place.value.y, h.score, k.mapId, Memory, k.t, k.born))
  {
    RecallHitIsTaken(cfg, k.image.Detect(target).hits);
  }

  /** The message repeats the one before: too soon after it, not far enough from it, and
      on the same basis. */
  predicate Repeats(cfg: Config, m: Mind, s: Sighting, now: nat) {
    && m.lastFound != 0 && (now - m.lastFound) as real < cfg.minFoundIntervalMs * 1000000.0
    && m.lastAnnounced.Some?
    && cfg.resendMoveM > 0.0
    && (s.x - m.lastAnnounced.value.x) * (s.x - m.lastAnnounced.value.x)
       + (s.y - m.lastAnnounced.value.y) * (s.y - m.lastAnnounced.value.y) < cfg.resendMoveM * cfg.resendMoveM
    && s.basis == m.lastAnnounced.value.basis
  }

  lemma Opposite(a: real, b: real)
    ensures (a - b) * (a - b) == (b - a) * (b - a)
  {
  }

  lemma WorthIffNotRepeated(cfg: Config, m: Mind, s: Sighting, now: nat)
    ensures Worth(cfg, m, s, now) <==> !Repeats(cfg, m, s, now)
  {
    if m.lastAnnounced.Some? {
      Opposite(s.x, m.lastAnnounced.value.x);
      Opposite(s.y, m.lastAnnounced.value.y);
    }
  }

  predicate SaysFound(out: seq<Announcement>, x: Sighting) {
    exists i :: 0 <= i < |out| && out[i].Found? && out[i].sighting == x
  }

  lemma AnnouncedFound(cfg: Config, m: Mind, v: View, s: Option<Sighting>, isLive: bool, x: Sighting)
    ensures var said := Announce(cfg, m, v, s, isLive);
            && (SaysFound(said.out, x) <==> s == Some(x) && !Repeats(cfg, m, x, v.now))
            && (SaysFound(said.out, x) ==> said.mind.lastFound == v.now && said.mind.lastAnnounced == Some(x))
            && ((forall y :: !SaysFound(said.out, y)) ==>
                  said.mind.lastFound == m.lastFound
                  && said.mind.lastAnnounced == if SaysAbsent(said.out) then None else m.lastAnnounced)
  {
    var said := Announce(cfg, m, v, s, isLive);
    AnnouncedAbsence(cfg, m, v, s, isLive);
    if s.Some? {
      WorthIffNotRepeated(cfg, m, s.value, v.now);
      if Worth(cfg, m, s.value, v.now) {
        assert said.out[0].Found? && said.out[0].sighting == s.value;
        assert SaysFound(said.out, s.value);
      }
    }
  }

  /** For every state and frame: a target is announced exactly when the frame looks for
      one, that is what it knows best, and it does not repeat the announcement before;
      and what was announced last, and when, is kept so that the next can be compared. */
  lemma FoundIff(cfg: Config, m: Mind, v: View, born: nat, x: Sighting)
    ensures var said := Decide(cfg, m, v, born);
            && (SaysFound(said.out, x) <==> Looks(cfg, v) && Known(cfg, m, v, born) == Some(x) && !Repeats(cfg, m, x, v.now))
            && (SaysFound(said.out, x) ==> said.mind.lastFound == v.now && said.mind.lastAnnounced == Some(x))
            && ((forall y :: !SaysFound(said.out, y)) ==>
                  said.mind.lastFound == m.lastFound
                  && said.mind.lastAnnounced == if SaysAbsent(said.out) then None else m.lastAnnounced)
  {
    if Looks(cfg, v) {
      var end, isLive := BeforeAnnouncing(cfg, m, v, born);
      AnnouncedFound(cfg, end, v, Known(cfg, m, v, born), isLive, x);
      RepeatsAgree(cfg, m, end, x, v.now);
    }
  }

  lemma RepeatsAgree(cfg: Config, m: Mind, n: Mind, s: Sighting, now: nat)
    requires n.lastFound == m.lastFound && n.lastAnnounced == m.lastAnnounced
    ensures Repeats(cfg, n, s, now) <==> Repeats(cfg, m, s, now)
  {
  }

  /** The state a looking frame announces from. */
  lemma BeforeAnnouncing(cfg: Config, m: Mind, v: View, born: nat) returns (end: Mind, isLive: bool)
    requires Looks(cfg, v)
    ensures Decide(cfg, m, v, born) == Announce(cfg, end, v, Known(cfg, m, v, born), isLive)
    ensures end.lastFound == m.lastFound && end.lastAnnounced == m.lastAnnounced
  {
    var live := Live1(cfg, Ready(cfg, m, v), v, born);
    LiveOutcome(cfg, Ready(cfg, m, v), v, born);
    RecallKeeps(cfg, live.mind, v.target, AtLeast1(cfg.recallBudget));
    end := Recall1(cfg, live.mind, live.found, v.target).mind;
    isLive := live.found.Some?;
  }

  /** A looking frame searches for its own target: it goes on with the queue of the frame
      before if that one looked for the same target, and else queues every keyframe held,
      newest first. */
  lemma SearchIsForTheTarget(cfg: Config, m: Mind, v: View, born: nat, i: nat)
    requires Looks(cfg, v)
    ensures var ready, after := Ready(cfg, m, v), Decide(cfg, m, v, born).mind;
            && after.recallTarget == v.target && after.prevSeek
            && (m.prevSeek && m.recallTarget == v.target ==> ready.recallQueue == m.recallQueue && ready.recallDone == m.recallDone)
            && (!(m.prevSeek && m.recallTarget == v.target) ==>
                  && |ready.recallQueue| == (if cfg.keepsKeyframes then |m.keyframes| else 0)
                  && (i < |ready.recallQueue| ==> !ready.recallDone && ready.recallQueue[i] == m.keyframes[|m.keyframes| - 1 - i]))
  {
    var live := Live1(cfg, Ready(cfg, m, v), v, born);
    LiveOutcome(cfg, Ready(cfg, m, v), v, born);
    RecallKeeps(cfg, live.mind, v.target, AtLeast1(cfg.recallBudget));
  }

  /** A frame announces one thing at most; an absence names its target and map, and a
      found says whether it was seen on the frame itself. */
  lemma AtMostOne(cfg: Config, m: Mind, v: View, born: nat)
    ensures var out := Decide(cfg, m, v, born).out;
            && |out| <= 1
            && (out != [] && out[0].Absent? ==> out[0] == Absent(v.target, v.mapId))
            && (out != [] && out[0].Found? ==> (out[0].isLive <==> exists i: nat :: TakesNow(cfg, Ready(cfg, m, v), v, i)))
  {
    LiveOutcome(cfg, Ready(cfg, m, v), v, born);
    SeesIffTakes(cfg, Ready(cfg, m, v), v);
  }
}
