/** The client's in-flight windows: what each stream may send, what a reply frees, and
    what a reconnect clears. */
module ClientWindows {
  import opened Wrappers

  datatype Config = Config(maxInflight: int, maxScans: int, maxImu: int, maxOdom: int, mapEveryS: real) {
    /** What the constructor enforces. */
    predicate Valid() {
      maxInflight >= 1 && maxScans >= 1 && maxImu >= 1 && maxOdom >= 1
    }
  }

  datatype Stream = Frames | Scans | Imu | Odom

  /** One stream's window: the numbers awaiting a reply, and the next number. */
  datatype Flow = Flow(open: set<nat>, next: nat)

  /** The map upload: its window, whether the server wants grids and one is at hand, and
      when one last went up, zero when the next tick may send at once. */
  datatype MapFlow = MapFlow(open: set<nat>, next: nat, wanted: bool, have: bool, lastSent: real, sent: nat)

  datatype Windows = Windows(frames: Flow, scans: Flow, imu: Flow, odom: Flow, wants: set<Stream>, maps: MapFlow)

  const START := Flow({}, 0)

  const INIT := Windows(START, START, START, START, {}, MapFlow({}, 0, false, false, 0.0, 0))

  /** What happens to a client.  `accepted` says whether the socket took the message;
      `disabled` marks a refusal that switches the stream off. */
  datatype Event =
    | Connect
    | Welcome(wants: set<Stream>, wantsMap: bool)
    | Pump(stream: Stream, accepted: bool)
    | PumpMap(arrived: bool, now: real, accepted: bool)
    | Answer(stream: Stream, seqNo: nat, disabled: bool)
    | AnswerMap(seqNo: nat, ok: bool, disabled: bool)

  function Of(w: Windows, s: Stream): Flow {
    match s case Frames => w.frames case Scans => w.scans case Imu => w.imu case Odom => w.odom
  }

  function With(w: Windows, s: Stream, f: Flow): (v: Windows)
    ensures Of(v, s) == f && v.wants == w.wants && v.maps == w.maps
    ensures forall t :: t != s ==> Of(v, t) == Of(w, t)
  {
    match s
    case Frames => w.(frames := f)
    case Scans => w.(scans := f)
    case Imu => w.(imu := f)
    case Odom => w.(odom := f)
  }

  function Limit(cfg: Config, s: Stream): int {
    match s case Frames => cfg.maxInflight case Scans => cfg.maxScans case Imu => cfg.maxImu case Odom => cfg.maxOdom
  }

  /** Frames are sent whatever the server said; the other streams when it wants them. */
  predicate Wanted(w: Windows, s: Stream) {
    s.Frames? || s in w.wants
  }

  predicate HasRoom(f: Flow, limit: int) {
    |f.open| < limit
  }

  function Spent(f: Flow, limit: int, accepted: bool): Flow {
    if !HasRoom(f, limit) then f
    else if accepted then Flow(f.open + {f.next}, f.next + 1)
    else Flow(f.open, f.next + 1)
  }

  function Freed(f: Flow, n: nat): Flow {
    Flow(f.open - {n}, f.next)
  }

  /** A grid goes up when one is at hand, the timer allows it, and none is in flight. */
  predicate MayUpload(cfg: Config, m: MapFlow, now: real) {
    && m.wanted && m.have && !(m.lastSent != 0.0 && now - m.lastSent < cfg.mapEveryS)
    && m.open == {}
  }

  function MapPumped(cfg: Config, m: MapFlow, arrived: bool, now: real, accepted: bool): MapFlow {
    var taken := m.(have := m.have || (m.wanted && arrived));
    if !MayUpload(cfg, taken, now) then taken
    else if accepted then taken.(open := {m.next}, next := m.next + 1, lastSent := now, sent := m.sent + 1)
    else taken.(next := m.next + 1, lastSent := now)
  }

  function MapAnswered(m: MapFlow, n: nat, ok: bool, disabled: bool): MapFlow {
    if ok then m.(open := m.open - {n})
    else m.(open := m.open - {n}, lastSent := 0.0, wanted := m.wanted && !disabled)
  }

  function Step(cfg: Config, w: Windows, e: Event): Windows {
    match e
    case Connect =>
      w.(frames := Flow({}, w.frames.next), scans := Flow({}, w.scans.next), imu := Flow({}, w.imu.next),
         maps := w.maps.(lastSent := 0.0))
    case Welcome(wants, wantsMap) => w.(wants := wants, maps := w.maps.(wanted := wantsMap))
    case Pump(s, accepted) => if Wanted(w, s) then With(w, s, Spent(Of(w, s), Limit(cfg, s), accepted)) else w
    case PumpMap(arrived, now, accepted) => w.(maps := MapPumped(cfg, w.maps, arrived, now, accepted))
    case Answer(s, n, disabled) =>
      var freed := With(w, s, Freed(Of(w, s), n));
      if disabled then freed.(wants := w.wants - {s}) else freed
    case AnswerMap(n, ok, disabled) => w.(maps := MapAnswered(w.maps, n, ok, disabled))
  }

  class Client {
    const cfg: Config
    var pending: set<nat>
    var pendingScans: set<nat>
    var pendingImu: set<nat>
    var pendingOdom: set<nat>
    var pendingMaps: set<nat>
    var seqNo: nat
    var scanSeq: nat
    var imuSeq: nat
    var odomSeq: nat
    var mapSeq: nat
    var serverWants: set<Stream>
    var serverWantsMap: bool
    var haveMap: bool
    var lastMapSent: real
    var mapsSent: nat

    function Abs(): Windows
      reads this
    {
      Windows(Flow(pending, seqNo), Flow(pendingScans, scanSeq), Flow(pendingImu, imuSeq), Flow(pendingOdom, odomSeq),
              serverWants, MapFlow(pendingMaps, mapSeq, serverWantsMap, haveMap, lastMapSent, mapsSent))
    }

    constructor (cfg: Config)
      requires cfg.Valid()
      ensures Abs() == INIT && this.cfg == cfg
    {
      this.cfg := cfg;
      pending, pendingScans, pendingImu, pendingOdom, pendingMaps := {}, {}, {}, {}, {};
      seqNo, scanSeq, imuSeq, odomSeq, mapSeq := 0, 0, 0, 0, 0;
      serverWants, serverWantsMap, haveMap, lastMapSent, mapsSent := {}, false, false, 0.0, 0;
    }

    method Reconnect()
      modifies this
      ensures Abs() == Step(cfg, old(Abs()), Connect)
    {
      pending := {};
      pendingScans := {};
      pendingImu := {};
      lastMapSent := 0.0;
    }

    /** The main loop's frame: skipped at the source while the window is full. */
    method OfferFrame(accepted: bool)
      modifies this
      ensures Abs() == Step(cfg, old(Abs()), Pump(Frames, accepted))
    {
      if |pending| < cfg.maxInflight {
        var n := seqNo;
        seqNo := seqNo + 1;
        if accepted {
          pending := pending + {n};
        }
      }
    }

    method OfferScan(accepted: bool)
      modifies this
      ensures Abs() == Step(cfg, old(Abs()), Pump(Scans, accepted))
    {
      if Scans in serverWants && |pendingScans| < cfg.maxScans {
        var n := scanSeq;
        scanSeq := scanSeq + 1;
        if accepted {
          pendingScans := pendingScans + {n};
        }
      }
    }

    method OfferImu(accepted: bool)
      modifies this
      ensures Abs() == Step(cfg, old(Abs()), Pump(Imu, accepted))
    {
      if Imu in serverWants && |pendingImu| < cfg.maxImu {
        var n := imuSeq;
        imuSeq := imuSeq + 1;
        if accepted {
          pendingImu := pendingImu + {n};
        }
      }
    }

    method OfferOdom(accepted: bool)
      modifies this
      ensures Abs() == Step(cfg, old(Abs()), Pump(Odom, accepted))
    {
      if Odom in serverWants && |pendingOdom| < cfg.maxOdom {
        var n := odomSeq;
        odomSeq := odomSeq + 1;
        if accepted {
          pendingOdom := pendingOdom + {n};
        }
      }
    }

    method OfferMap(arrived: bool, now: real, accepted: bool)
      modifies this
      ensures Abs() == Step(cfg, old(Abs()), PumpMap(arrived, now, accepted))
    {
      if !serverWantsMap {
        return;
      }
      if arrived {
        haveMap := true;
      }
      if !haveMap || (lastMapSent != 0.0 && now - lastMapSent < cfg.mapEveryS) || pendingMaps != {} {
        return;
      }
      if accepted {
        pendingMaps := pendingMaps + {mapSeq};
        mapsSent := mapsSent + 1;
      }
      mapSeq := mapSeq + 1;
      lastMapSent := now;
    }

    method HandleMapResult(n: nat, ok: bool, disabled: bool)
      modifies this
      ensures Abs() == Step(cfg, old(Abs()), AnswerMap(n, ok, disabled))
    {
      pendingMaps := pendingMaps - {n};
      if !ok {
        if disabled {
          serverWantsMap := false;
        }
        lastMapSent := 0.0;
      }
    }

    method HandleResult(s: Stream, n: nat, disabled: bool)
      modifies this
      ensures Abs() == Step(cfg, old(Abs()), Answer(s, n, disabled))
    {
      match s {
        case Frames => pending := pending - {n};
        case Scans => pendingScans := pendingScans - {n};
        case Imu => pendingImu := pendingImu - {n};
        case Odom => pendingOdom := pendingOdom - {n};
      }
      if disabled {
        serverWants := serverWants - {s};
      }
    }
  }

  // ---- Windows over whole runs ----

  /** A window within its limit, every number in it already spent. */
  predicate FlowInv(f: Flow, limit: int) {
    |f.open| <= limit && forall n :: n in f.open ==> n < f.next
  }

  ghost predicate Inv(cfg: Config, w: Windows) {
    && (forall s: Stream :: FlowInv(Of(w, s), Limit(cfg, s)))
    && FlowInv(Flow(w.maps.open, w.maps.next), 1)
  }

  lemma Fewer(s: set<nat>, n: nat)
    ensures |s - {n}| <= |s|
  {
  }

  lemma PumpKeeps(cfg: Config, w: Windows, s: Stream, accepted: bool)
    requires Inv(cfg, w)
    ensures Inv(cfg, Step(cfg, w, Pump(s, accepted)))
  {
  }

  lemma AnswerKeeps(cfg: Config, w: Windows, s: Stream, n: nat, disabled: bool)
    requires Inv(cfg, w)
    ensures Inv(cfg, Step(cfg, w, Answer(s, n, disabled)))
  {
  }

  lemma OthersKeep(cfg: Config, w: Windows, e: Event)
    requires cfg.Valid() && Inv(cfg, w) && !e.Pump? && !e.Answer?
    ensures Inv(cfg, Step(cfg, w, e))
  {
    var v := Step(cfg, w, e);
    forall t ensures FlowInv(Of(v, t), Limit(cfg, t)) {
      assert FlowInv(Of(w, t), Limit(cfg, t));
    }
    if e.AnswerMap? {
      Fewer(w.maps.open, e.seqNo);
    }
  }

  /** No event overruns a window, nor puts a second grid in flight. */
  lemma StepKeeps(cfg: Config, w: Windows, e: Event)
    requires cfg.Valid() && Inv(cfg, w)
    ensures Inv(cfg, Step(cfg, w, e))
  {
    match e
    case Pump(s, accepted) => PumpKeeps(cfg, w, s, accepted);
    case Answer(s, n, disabled) => AnswerKeeps(cfg, w, s, n, disabled);
    case _ => OthersKeep(cfg, w, e);
  }

  /** The state after the first `k` events. */
  function After(cfg: Config, w: Windows, events: seq<Event>, k: nat): Windows
    requires k <= |events|
  {
    if k == 0 then w else Step(cfg, After(cfg, w, events, k - 1), events[k - 1])
  }

  lemma {:induction false} WindowsNeverOverrun(cfg: Config, events: seq<Event>, k: nat)
    requires cfg.Valid() && k <= |events|
    ensures Inv(cfg, After(cfg, INIT, events, k))
    ensures var w := After(cfg, INIT, events, k);
            && |w.frames.open| <= cfg.maxInflight && |w.scans.open| <= cfg.maxScans && |w.imu.open| <= cfg.maxImu
            && |w.odom.open| <= cfg.maxOdom && |w.maps.open| <= 1
  {
    if k > 0 {
      WindowsNeverOverrun(cfg, events, k - 1);
      StepKeeps(cfg, After(cfg, INIT, events, k - 1), events[k - 1]);
    }
    var w := After(cfg, INIT, events, k);
    assert FlowInv(Of(w, Frames), Limit(cfg, Frames)) && FlowInv(Of(w, Scans), Limit(cfg, Scans));
    assert FlowInv(Of(w, Imu), Limit(cfg, Imu)) && FlowInv(Of(w, Odom), Limit(cfg, Odom));
  }

  // ---- What is open, told from the events ----

  /** The event offers a message the stream takes up: it is wanted, and there is room. */
  predicate Offers(cfg: Config, w: Windows, e: Event, s: Stream) {
    e.Pump? && e.stream == s && (s.Frames? || s in w.wants) && |Of(w, s).open| < Limit(cfg, s)
  }

  /** The event puts number `n` of the stream on the wire. */
  predicate Sends(cfg: Config, w: Windows, e: Event, s: Stream, n: nat) {
    Offers(cfg, w, e, s) && e.accepted && Of(w, s).next == n
  }

  /** The event ends the wait for number `n`: its reply, or a reconnect, which forgets
      every stream but the poses. */
  predicate Settles(e: Event, s: Stream, n: nat) {
    (e.Answer? && e.stream == s && e.seqNo == n) || (e.Connect? && !s.Odom?)
  }

  /** Number `n` was sent by event `i`, and nothing since has ended the wait for it. */
  ghost predicate Awaited(cfg: Config, events: seq<Event>, s: Stream, n: nat, i: nat, k: nat)
    requires k <= |events|
  {
    && i < k && Sends(cfg, After(cfg, INIT, events, i), events[i], s, n)
    && forall j :: i < j < k ==> !Settles(events[j], s, n)
  }

  lemma OpenStep(cfg: Config, w: Windows, e: Event, s: Stream, n: nat)
    ensures n in Of(Step(cfg, w, e), s).open <==> Sends(cfg, w, e, s, n) || (n in Of(w, s).open && !Settles(e, s, n))
    ensures Of(Step(cfg, w, e), s).next == Of(w, s).next + (if Offers(cfg, w, e, s) then 1 else 0)
  {
  }

  lemma AwaitedStep(cfg: Config, events: seq<Event>, s: Stream, n: nat, j: nat, k: nat)
    requires k <= |events| && k == j + 1
    ensures (exists i: nat :: Awaited(cfg, events, s, n, i, k)) <==>
              || Sends(cfg, After(cfg, INIT, events, j), events[j], s, n)
              || ((exists i: nat :: Awaited(cfg, events, s, n, i, j)) && !Settles(events[j], s, n))
  {
    if Sends(cfg, After(cfg, INIT, events, j), events[j], s, n) {
      assert Awaited(cfg, events, s, n, j, k);
    }
    if (exists i: nat :: Awaited(cfg, events, s, n, i, j)) && !Settles(events[j], s, n) {
      var i: nat :| Awaited(cfg, events, s, n, i, j);
      assert Awaited(cfg, events, s, n, i, k);
    }
    forall i: nat | i < j && Awaited(cfg, events, s, n, i, k) ensures Awaited(cfg, events, s, n, i, j) {
    }
  }

  /** Over every sequence of events: a number is open exactly when it was sent and since
      then neither answered nor forgotten by a reconnect. */
  lemma {:induction false} OpenIffAwaited(cfg: Config, events: seq<Event>, s: Stream, n: nat, k: nat)
    requires k <= |events|
    ensures n in Of(After(cfg, INIT, events, k), s).open <==> exists i: nat :: Awaited(cfg, events, s, n, i, k)
  {
    if k > 0 {
      OpenIffAwaited(cfg, events, s, n, k - 1);
      OpenStep(cfg, After(cfg, INIT, events, k - 1), events[k - 1], s, n);
      AwaitedStep(cfg, events, s, n, k - 1, k);
    }
  }

  /** Every message of the stream sent so far has been answered, or forgotten by a
      reconnect. */
  ghost predicate AllSettled(cfg: Config, events: seq<Event>, s: Stream) {
    forall i: nat, n: nat :: i < |events| && Sends(cfg, After(cfg, INIT, events, i), events[i], s, n) ==>
      exists j :: i < j < |events| && Settles(events[j], s, n)
  }

  /** A client whose replies all came is never stuck: the next message wanted is sent,
      under the next number. */
  lemma AnsweredClientSends(cfg: Config, events: seq<Event>, s: Stream)
    requires cfg.Valid() && AllSettled(cfg, events, s)
    requires s.Frames? || s in After(cfg, INIT, events, |events|).wants
    ensures var w := After(cfg, INIT, events, |events|);
            Of(w, s).open == {} && Of(Step(cfg, w, Pump(s, true)), s) == Flow({Of(w, s).next}, Of(w, s).next + 1)
  {
    var w := After(cfg, INIT, events, |events|);
    forall n: nat ensures n !in Of(w, s).open {
      OpenIffAwaited(cfg, events, s, n, |events|);
    }
    assert Of(w, s).open == {};
  }

  lemma {:induction false} NumbersPass(cfg: Config, events: seq<Event>, s: Stream, n: nat, i: nat, j: nat)
    requires i < j <= |events| && Sends(cfg, After(cfg, INIT, events, i), events[i], s, n)
    ensures Of(After(cfg, INIT, events, j), s).next > n
    decreases j
  {
    OpenStep(cfg, After(cfg, INIT, events, j - 1), events[j - 1], s, n);
    if i < j - 1 {
      NumbersPass(cfg, events, s, n, i, j - 1);
    }
  }

  /** What a stream sends later has a later number, reconnects included: none is sent
      twice. */
  lemma LaterIsHigher(cfg: Config, events: seq<Event>, s: Stream, n: nat, m: nat, i: nat, j: nat)
    requires i < j < |events|
    requires Sends(cfg, After(cfg, INIT, events, i), events[i], s, n) && Sends(cfg, After(cfg, INIT, events, j), events[j], s, m)
    ensures n < m
  {
    NumbersPass(cfg, events, s, n, i, j);
  }

  /** The welcome `i` asked for the stream, and since then no other came and no reply
      switched the stream off. */
  ghost predicate AskedFor(events: seq<Event>, s: Stream, i: nat, k: nat)
    requires k <= |events|
  {
    && i < k && events[i].Welcome? && s in events[i].wants
    && forall j :: i < j < k ==> !events[j].Welcome? && !(events[j].Answer? && events[j].stream == s && events[j].disabled)
  }

  /** A stream is wanted exactly when the last welcome asked for it and no reply since
      has switched it off. */
  lemma {:induction false} WantedIffAskedFor(cfg: Config, events: seq<Event>, s: Stream, k: nat)
    requires k <= |events|
    ensures s in After(cfg, INIT, events, k).wants <==> exists i: nat :: AskedFor(events, s, i, k)
  {
    if k > 0 {
      WantedIffAskedFor(cfg, events, s, k - 1);
      if events[k - 1].Welcome? && s in events[k - 1].wants {
        assert AskedFor(events, s, k - 1, k);
      }
      if s in After(cfg, INIT, events, k - 1).wants && s in After(cfg, INIT, events, k).wants && !events[k - 1].Welcome? {
        var i: nat :| AskedFor(events, s, i, k - 1);
        assert AskedFor(events, s, i, k);
      }
      forall i: nat | i < k - 1 && AskedFor(events, s, i, k) ensures AskedFor(events, s, i, k - 1) {
      }
    }
  }

  /** The event tries to upload a grid: the server wants grids, one is at hand or just
      came, the interval has passed, and none is in flight. */
  predicate Tries(cfg: Config, m: MapFlow, e: Event) {
    && e.PumpMap? && m.wanted && (m.have || e.arrived)
    && (m.lastSent == 0.0 || e.now - m.lastSent >= cfg.mapEveryS) && m.open == {}
  }

  /** The event puts grid `n` on the wire. */
  predicate Uploads(cfg: Config, m: MapFlow, e: Event, n: nat) {
    Tries(cfg, m, e) && e.accepted && m.next == n
  }

  ghost predicate GridAwaited(cfg: Config, events: seq<Event>, n: nat, i: nat, k: nat)
    requires k <= |events|
  {
    && i < k && Uploads(cfg, After(cfg, INIT, events, i).maps, events[i], n)
    && forall j :: i < j < k ==> !(events[j].AnswerMap? && events[j].seqNo == n)
  }

  lemma GridStep(cfg: Config, w: Windows, e: Event, n: nat)
    ensures n in Step(cfg, w, e).maps.open <==>
              Uploads(cfg, w.maps, e, n) || (n in w.maps.open && !(e.AnswerMap? && e.seqNo == n))
    ensures var m := Step(cfg, w, e).maps;
            && m.next == w.maps.next + (if Tries(cfg, w.maps, e) then 1 else 0)
            && m.sent == w.maps.sent + (if Tries(cfg, w.maps, e) && e.accepted then 1 else 0)
            && m.lastSent == (if e.Connect? || (e.AnswerMap? && !e.ok) then 0.0
                              else if Tries(cfg, w.maps, e) then e.now else w.maps.lastSent)
            && m.wanted == (if e.Welcome? then e.wantsMap else w.maps.wanted && !(e.AnswerMap? && !e.ok && e.disabled))
  {
  }

  /** A grid is in flight exactly when it was uploaded and not answered since: no
      reconnect forgets it. */
  lemma {:induction false} GridOpenIffAwaited(cfg: Config, events: seq<Event>, n: nat, k: nat)
    requires k <= |events|
    ensures n in After(cfg, INIT, events, k).maps.open <==> exists i: nat :: GridAwaited(cfg, events, n, i, k)
  {
    if k > 0 {
      var w := After(cfg, INIT, events, k - 1);
      GridOpenIffAwaited(cfg, events, n, k - 1);
      GridStep(cfg, w, events[k - 1], n);
      if Uploads(cfg, w.maps, events[k - 1], n) {
        assert GridAwaited(cfg, events, n, k - 1, k);
      }
      if n in w.maps.open && !(events[k - 1].AnswerMap? && events[k - 1].seqNo == n) {
        var i: nat :| GridAwaited(cfg, events, n, i, k - 1);
        assert GridAwaited(cfg, events, n, i, k);
      }
      forall i: nat | i < k - 1 && GridAwaited(cfg, events, n, i, k) ensures GridAwaited(cfg, events, n, i, k - 1) {
      }
    }
  }

  /** The reply to a grid in flight never comes. */
  predicate MapReplyLost(events: seq<Event>, lost: nat) {
    forall k :: 0 <= k < |events| && events[k].AnswerMap? ==> events[k].seqNo != lost
  }

  lemma LostMapStep(cfg: Config, w: Windows, e: Event, lost: nat)
    requires lost in w.maps.open && (e.AnswerMap? ==> e.seqNo != lost)
    ensures lost in Step(cfg, w, e).maps.open && Step(cfg, w, e).maps.sent == w.maps.sent
  {
  }

  /** A grid whose reply is lost is the last grid uploaded, whatever happens after,
      reconnects included. */
  lemma {:induction false} LostMapReplyBlocksUploads(cfg: Config, w: Windows, events: seq<Event>, k: nat, lost: nat)
    requires k <= |events| && lost in w.maps.open && MapReplyLost(events, lost)
    ensures lost in After(cfg, w, events, k).maps.open && After(cfg, w, events, k).maps.sent == w.maps.sent
  {
    if k > 0 {
      LostMapReplyBlocksUploads(cfg, w, events, k - 1, lost);
      LostMapStep(cfg, After(cfg, w, events, k - 1), events[k - 1], lost);
    }
  }

  /** A client that connects, is welcomed, uploads a grid, and has to reconnect. */
  function UploadAndReconnect(wants: set<Stream>, now: real): seq<Event> {
    [Connect, Welcome(wants, true), PumpMap(true, now, true), Connect]
  }

  lemma UploadIsOpen(cfg: Config, wants: set<Stream>, now: real)
    ensures After(cfg, INIT, UploadAndReconnect(wants, now), 4).maps == MapFlow({0}, 1, true, true, 0.0, 1)
  {
    var e := UploadAndReconnect(wants, now);
    assert After(cfg, INIT, e, 1).maps == INIT.maps;
    assert After(cfg, INIT, e, 2).maps == INIT.maps.(wanted := true);
    assert After(cfg, INIT, e, 3).maps == MapFlow({0}, 1, true, true, now, 1);
  }

  /** From the start: when the reply to the first grid is lost to a reconnect, that grid
      is the only one ever uploaded. */
  lemma FirstUploadIsTheLast(cfg: Config, wants: set<Stream>, now: real, events: seq<Event>)
    requires MapReplyLost(events, 0)
    ensures After(cfg, After(cfg, INIT, UploadAndReconnect(wants, now), 4), events, |events|).maps.sent == 1
  {
    UploadIsOpen(cfg, wants, now);
    LostMapReplyBlocksUploads(cfg, After(cfg, INIT, UploadAndReconnect(wants, now), 4), events, |events|, 0);
  }

  predicate OdomRepliesLost(events: seq<Event>, lost: set<nat>) {
    forall k :: 0 <= k < |events| && events[k].Answer? && events[k].stream.Odom? ==> events[k].seqNo !in lost
  }

  lemma FullHasNoRoom(f: Flow, limit: int, lost: set<nat>)
    requires |lost| >= limit && lost <= f.open
    ensures !HasRoom(f, limit)
  {
    assert f.open == lost + (f.open - lost);
  }

  lemma LostOdomStep(cfg: Config, w: Windows, e: Event, lost: set<nat>)
    requires |lost| >= cfg.maxOdom && lost <= w.odom.open
    requires e.Answer? && e.stream.Odom? ==> e.seqNo !in lost
    ensures lost <= Step(cfg, w, e).odom.open && Step(cfg, w, e).odom.next == w.odom.next
  {
    FullHasNoRoom(w.odom, cfg.maxOdom, lost);
  }

  /** A pose window whose replies are all lost stays full: no pose is sent again,
      reconnects included. */
  lemma {:induction false} LostOdomRepliesBlockPoses(cfg: Config, w: Windows, events: seq<Event>, k: nat, lost: set<nat>)
    requires k <= |events| && |lost| >= cfg.maxOdom && lost <= w.odom.open && OdomRepliesLost(events, lost)
    ensures lost <= After(cfg, w, events, k).odom.open && After(cfg, w, events, k).odom.next == w.odom.next
  {
    if k > 0 {
      LostOdomRepliesBlockPoses(cfg, w, events, k - 1, lost);
      LostOdomStep(cfg, After(cfg, w, events, k - 1), events[k - 1], lost);
    }
  }

  /** Right after a reconnect every stream has room again except poses, which have it
      exactly if they had it before; a grid can go up exactly if none was in flight. */
  lemma ReconnectUnblocks(cfg: Config, w: Windows, s: Stream, now: real)
    requires cfg.Valid()
    ensures HasRoom(Of(Step(cfg, w, Connect), s), Limit(cfg, s)) <==> !s.Odom? || |w.odom.open| < cfg.maxOdom
    ensures MayUpload(cfg, Step(cfg, w, Connect).maps, now) <==> w.maps.wanted && w.maps.have && w.maps.open == {}
  {
  }
}
