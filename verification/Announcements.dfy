/** What a session sends besides results: numbered, rate-limited announcements of four
    streams, those of a frame before its result. */
module Announcements {
  import opened Wrappers

  datatype Stream = Updates | Hints | Verdicts | Founds

  /** What a processor announces; an unknown kind has no stream. */
  datatype Message =
    | MapUpdate(mapId: string, cellsChanged: int)
    | PoseHint(mapId: string)
    | Agreement(mapId: string)
    | Found(mapId: string)
    | Unknown

  datatype Config = Config(sendUpdates: bool, compareEnabled: bool, sendHints: bool, sendAgreement: bool,
                           updateMs: real, hintMs: real, agreementMs: real, minUpdateCells: int)

  /** Of one stream: the next number, and when it last sent (zero for never). */
  datatype Counter = Counter(next: nat, last: nat)

  datatype State = State(updates: Counter, hints: Counter, verdicts: Counter, founds: Counter, grid: Option<string>)

  const START := Counter(0, 0)
  const INIT := State(START, START, START, START, None)

  /** On the wire, with the clock and the map the server held when it was sent. */
  datatype Out =
    | Announced(stream: Stream, seqNo: nat, mapId: string, at: nat, held: Option<string>)
    | Result(frame: int)

  function Of(s: State, k: Stream): Counter {
    match k case Updates => s.updates case Hints => s.hints case Verdicts => s.verdicts case Founds => s.founds
  }

  function With(s: State, k: Stream, c: Counter): (t: State)
    ensures Of(t, k) == c && t.grid == s.grid
    ensures forall j :: j != k ==> Of(t, j) == Of(s, j)
  {
    match k
    case Updates => s.(updates := c)
    case Hints => s.(hints := c)
    case Verdicts => s.(verdicts := c)
    case Founds => s.(founds := c)
  }

  /** The configured interval of a limited stream, in milliseconds. */
  function Interval(cfg: Config, k: Stream): Option<real> {
    match k
    case Updates => Some(cfg.updateMs)
    case Hints => Some(cfg.hintMs)
    case Verdicts => Some(cfg.agreementMs)
    case Founds => None
  }

  function Ms(now: nat, last: nat): real {
    (now - last) as real / 1000000.0
  }

  function StreamOf(m: Message): Option<Stream> {
    match m
    case MapUpdate(_, _) => Some(Updates)
    case PoseHint(_) => Some(Hints)
    case Agreement(_) => Some(Verdicts)
    case Found(_) => Some(Founds)
    case Unknown => None
  }

  /** The operator's switches. */
  predicate SwitchedOn(cfg: Config, k: Stream) {
    match k
    case Updates => cfg.sendUpdates && cfg.compareEnabled
    case Hints => cfg.compareEnabled && cfg.sendHints
    case Verdicts => cfg.compareEnabled && cfg.sendAgreement
    case Founds => true
  }

  predicate TooSoon(cfg: Config, c: Counter, k: Stream, now: nat) {
    Interval(cfg, k).Some? && c.last != 0 && Ms(now, c.last) < Interval(cfg, k).value
  }

  /** Not a limited stream, or of the map the server holds, if it holds one. */
  predicate OfThisMap(s: State, k: Stream, m: Message)
    requires !m.Unknown?
  {
    k.Founds? || s.grid.None? || s.grid.value == m.mapId
  }

  /** The message goes out. */
  predicate Passes(cfg: Config, s: State, m: Message, now: nat) {
    !m.Unknown? &&
    var k := StreamOf(m).value;
    && SwitchedOn(cfg, k) && OfThisMap(s, k, m) && !TooSoon(cfg, Of(s, k), k, now)
    && (m.MapUpdate? ==> m.cellsChanged >= cfg.minUpdateCells)
  }

  datatype Said = Said(state: State, out: seq<Out>)

  function AnnounceOne(cfg: Config, s: State, m: Message, now: nat): Said {
    if !Passes(cfg, s, m, now) then Said(s, [])
    else
      var k := StreamOf(m).value;
      var c := Of(s, k);
      Said(With(s, k, Counter(c.next + 1, if k.Founds? then c.last else now)), [Announced(k, c.next, m.mapId, now, s.grid)])
  }

  /** The first `n` announcements of a frame. */
  function AnnounceAll(cfg: Config, s: State, ms: seq<Message>, now: nat, n: nat): Said
    requires n <= |ms|
  {
    if n == 0 then Said(s, [])
    else
      var before := AnnounceAll(cfg, s, ms, now, n - 1);
      var one := AnnounceOne(cfg, before.state, ms[n - 1], now);
      Said(one.state, before.out + one.out)
  }

  /** A finished frame: its announcements, then its result. */
  function FinishFrame(cfg: Config, s: State, ms: seq<Message>, frame: int, now: nat): Said {
    var said := AnnounceAll(cfg, s, ms, now, |ms|);
    Said(said.state, said.out + [Result(frame)])
  }

  class Session {
    const cfg: Config
    var mapUpdateSeq: nat
    var poseHintSeq: nat
    var agreementSeq: nat
    var foundSeq: nat
    var lastMapUpdateNs: nat
    var lastPoseHintNs: nat
    var lastAgreementNs: nat
    var grid: Option<string>
    var sent: seq<Out>

    function Abs(): State
      reads this
    {
      State(Counter(mapUpdateSeq, lastMapUpdateNs), Counter(poseHintSeq, lastPoseHintNs),
            Counter(agreementSeq, lastAgreementNs), Counter(foundSeq, 0), grid)
    }

    constructor (cfg: Config)
      ensures Abs() == INIT && sent == [] && this.cfg == cfg
    {
      this.cfg := cfg;
      mapUpdateSeq, poseHintSeq, agreementSeq, foundSeq := 0, 0, 0, 0;
      lastMapUpdateNs, lastPoseHintNs, lastAgreementNs := 0, 0, 0;
      grid, sent := None, [];
    }

    method OnGrid(mapId: string)
      modifies this
      ensures Abs() == old(Abs()).(grid := Some(mapId)) && sent == old(sent)
    {
      grid := Some(mapId);
    }

    method SendUpdate(m: Message, now: nat)
      requires m.MapUpdate?
      modifies this
      ensures var said := AnnounceOne(cfg, old(Abs()), m, now); Abs() == said.state && sent == old(sent) + said.out
    {
      if !(cfg.sendUpdates && cfg.compareEnabled) {
        return;
      }
      if grid.Some? && m.mapId != grid.value {
        return;
      }
      if lastMapUpdateNs != 0 && Ms(now, lastMapUpdateNs) < cfg.updateMs {
        return;
      }
      if m.cellsChanged < cfg.minUpdateCells {
        return;
      }
      sent := sent + [Announced(Updates, mapUpdateSeq, m.mapId, now, grid)];
      mapUpdateSeq := mapUpdateSeq + 1;
      lastMapUpdateNs := now;
    }

    method SendHint(m: Message, now: nat)
      requires m.PoseHint?
      modifies this
      ensures var said := AnnounceOne(cfg, old(Abs()), m, now); Abs() == said.state && sent == old(sent) + said.out
    {
      if !(cfg.compareEnabled && cfg.sendHints) {
        return;
      }
      if grid.Some? && m.mapId != grid.value {
        return;
      }
      if lastPoseHintNs != 0 && Ms(now, lastPoseHintNs) < cfg.hintMs {
        return;
      }
      sent := sent + [Announced(Hints, poseHintSeq, m.mapId, now, grid)];
      poseHintSeq := poseHintSeq + 1;
      lastPoseHintNs := now;
    }

    method SendAgreement(m: Message, now: nat)
      requires m.Agreement?
      modifies this
      ensures var said := AnnounceOne(cfg, old(Abs()), m, now); Abs() == said.state && sent == old(sent) + said.out
    {
      if !(cfg.compareEnabled && cfg.sendAgreement) {
        return;
      }
      if grid.Some? && m.mapId != grid.value {
        return;
      }
      if lastAgreementNs != 0 && Ms(now, lastAgreementNs) < cfg.agreementMs {
        return;
      }
      sent := sent + [Announced(Verdicts, agreementSeq, m.mapId, now, grid)];
      agreementSeq := agreementSeq + 1;
      lastAgreementNs := now;
    }

    method SendFound(m: Message, now: nat)
      requires m.Found?
      modifies this
      ensures var said := AnnounceOne(cfg, old(Abs()), m, now); Abs() == said.state && sent == old(sent) + said.out
    {
      sent := sent + [Announced(Founds, foundSeq, m.mapId, now, grid)];
      foundSeq := foundSeq + 1;
    }

    method SendAnnouncements(ms: seq<Message>, now: nat)
      modifies this
      ensures var said := AnnounceAll(cfg, old(Abs()), ms, now, |ms|); Abs() == said.state && sent == old(sent) + said.out
    {
      for i := 0 to |ms|
        invariant var said := AnnounceAll(cfg, old(Abs()), ms, now, i); Abs() == said.state && sent == old(sent) + said.out
      {
        match ms[i] {
          case MapUpdate(_, _) => SendUpdate(ms[i], now);
          case PoseHint(_) => SendHint(ms[i], now);
          case Agreement(_) => SendAgreement(ms[i], now);
          case Found(_) => SendFound(ms[i], now);
          case Unknown =>
        }
      }
    }

    method SendResult(ms: seq<Message>, frame: int, now: nat)
      modifies this
      ensures var said := FinishFrame(cfg, old(Abs()), ms, frame, now); Abs() == said.state && sent == old(sent) + said.out
    {
      SendAnnouncements(ms, now);
      sent := sent + [Result(frame)];
    }
  }

  // ---- A session's life ----

  /** Announcements of one stream among the first `n` messages. */
  function Count(log: seq<Out>, k: Stream, n: nat): nat
    requires n <= |log|
  {
    if n == 0 then 0 else Count(log, k, n - 1) + (if log[n - 1].Announced? && log[n - 1].stream == k then 1 else 0)
  }

  predicate NumberedAt(log: seq<Out>, i: nat)
    requires i < |log|
  {
    log[i].Announced? ==> log[i].seqNo == Count(log, log[i].stream, i)
  }

  /** Every announcement is numbered by those of its stream before it. */
  ghost predicate Numbered(log: seq<Out>) {
    forall i :: 0 <= i < |log| ==> NumberedAt(log, i)
  }

  predicate SameLimited(cfg: Config, a: Out, b: Out) {
    a.Announced? && b.Announced? && a.stream == b.stream && Interval(cfg, a.stream).Some?
  }

  /** Two announcements of a limited stream are at least its interval apart. */
  ghost predicate Spaced(cfg: Config, log: seq<Out>) {
    forall i, j :: 0 <= i < j < |log| && SameLimited(cfg, log[i], log[j]) ==>
      log[i].at <= log[j].at && Ms(log[j].at, log[i].at) >= Interval(cfg, log[i].stream).value
  }

  /** An announcement of a limited stream names the map the server held. */
  ghost predicate NamesTheMap(log: seq<Out>) {
    forall i :: 0 <= i < |log| && log[i].Announced? && !log[i].stream.Founds? && log[i].held.Some? ==>
      log[i].mapId == log[i].held.value
  }

  /** The counters know what the log holds. */
  ghost predicate Agrees(log: seq<Out>, s: State, now: nat) {
    && (forall k :: Of(s, k).next == Count(log, k, |log|) && Of(s, k).last <= now)
    && (forall i :: 0 <= i < |log| && log[i].Announced? && !log[i].stream.Founds? ==>
          0 < log[i].at <= Of(s, log[i].stream).last)
  }

  ghost predicate Inv(cfg: Config, log: seq<Out>, s: State, now: nat) {
    Numbered(log) && Spaced(cfg, log) && NamesTheMap(log) && Agrees(log, s, now)
  }

  lemma {:induction false} CountPrefix(log: seq<Out>, more: seq<Out>, k: Stream, n: nat)
    requires n <= |log|
    ensures Count(log + more, k, n) == Count(log, k, n)
  {
    if n > 0 {
      CountPrefix(log, more, k, n - 1);
    }
  }

  lemma CountOneMore(log: seq<Out>, o: Out, k: Stream)
    ensures Count(log + [o], k, |log| + 1) == Count(log, k, |log|) + (if o.Announced? && o.stream == k then 1 else 0)
  {
    CountPrefix(log, [o], k, |log|);
  }

  lemma NumberedAtLonger(log: seq<Out>, o: Out, i: nat)
    requires i < |log| && NumberedAt(log, i)
    ensures NumberedAt(log + [o], i)
  {
    var k := log[i];
    if k.Announced? {
      CountPrefix(log, [o], k.stream, i);
    }
  }

  lemma NumberedAtEnd(log: seq<Out>, o: Out)
    requires o.Announced? ==> o.seqNo == Count(log, o.stream, |log|)
    ensures NumberedAt(log + [o], |log|)
  {
    if o.Announced? {
      CountPrefix(log, [o], o.stream, |log|);
    }
  }

  lemma NumberedOneMore(log: seq<Out>, o: Out)
    requires Numbered(log) && (o.Announced? ==> o.seqNo == Count(log, o.stream, |log|))
    ensures Numbered(log + [o])
  {
    forall i | 0 <= i < |log + [o]| ensures NumberedAt(log + [o], i) {
      if i < |log| {
        NumberedAtLonger(log, o, i);
      } else {
        NumberedAtEnd(log, o);
      }
    }
  }

  lemma SpacedOneMore(cfg: Config, log: seq<Out>, s: State, o: Out, now: nat)
    requires Spaced(cfg, log) && Agrees(log, s, now)
    requires o.Announced? ==> o.at == now && !TooSoon(cfg, Of(s, o.stream), o.stream, now)
    ensures Spaced(cfg, log + [o])
  {
  }

  lemma AgreesOneMore(log: seq<Out>, s: State, o: Out, t: State, now: nat)
    requires Agrees(log, s, now) && o.Announced? && o.at == now > 0
    requires t == With(s, o.stream, Counter(Of(s, o.stream).next + 1, if o.stream.Founds? then Of(s, o.stream).last else now))
    ensures Agrees(log + [o], t, now)
  {
    var next := log + [o];
    forall k ensures Of(t, k).next == Count(next, k, |next|) && Of(t, k).last <= now {
      CountOneMore(log, o, k);
      assert Of(s, k).next == Count(log, k, |log|) && Of(s, k).last <= now;
    }
    forall i | 0 <= i < |next| && next[i].Announced? && !next[i].stream.Founds?
      ensures 0 < next[i].at <= Of(t, next[i].stream).last
    {
      if i < |log| {
        assert 0 < log[i].at <= Of(s, log[i].stream).last <= now;
      }
    }
  }

  /** One announcement, sent or suppressed, keeps what the log promises. */
  lemma AnnounceKeeps(cfg: Config, log: seq<Out>, s: State, m: Message, now: nat)
    requires Inv(cfg, log, s, now) && now > 0
    ensures var said := AnnounceOne(cfg, s, m, now); Inv(cfg, log + said.out, said.state, now)
  {
    if Passes(cfg, s, m, now) {
      var said := AnnounceOne(cfg, s, m, now);
      var o := said.out[0];
      assert said.out == [o];
      NumberedOneMore(log, o);
      SpacedOneMore(cfg, log, s, o, now);
      AgreesOneMore(log, s, o, said.state, now);
    } else {
      assert log + [] == log;
    }
  }

  lemma Unfold(cfg: Config, s: State, ms: seq<Message>, now: nat, n: nat, before: Said, one: Said)
    requires 0 < n <= |ms| && before == AnnounceAll(cfg, s, ms, now, n - 1)
    requires one == AnnounceOne(cfg, before.state, ms[n - 1], now)
    ensures AnnounceAll(cfg, s, ms, now, n) == Said(one.state, before.out + one.out)
  {
  }

  lemma {:induction false} AnnounceAllKeeps(cfg: Config, log: seq<Out>, s: State, ms: seq<Message>, now: nat, n: nat, said: Said)
    requires Inv(cfg, log, s, now) && now > 0 && n <= |ms| && said == AnnounceAll(cfg, s, ms, now, n)
    ensures Inv(cfg, log + said.out, said.state, now)
  {
    if n == 0 {
      assert log + [] == log;
    } else {
      var before := AnnounceAll(cfg, s, ms, now, n - 1);
      var one := AnnounceOne(cfg, before.state, ms[n - 1], now);
      AnnounceAllKeeps(cfg, log, s, ms, now, n - 1, before);
      AnnounceKeeps(cfg, log + before.out, before.state, ms[n - 1], now);
      Unfold(cfg, s, ms, now, n, before, one);
      assert log + (before.out + one.out) == log + before.out + one.out;
    }
  }

  lemma ResultKeeps(cfg: Config, log: seq<Out>, s: State, frame: int, now: nat)
    requires Inv(cfg, log, s, now)
    ensures Inv(cfg, log + [Result(frame)], s, now)
  {
    NumberedOneMore(log, Result(frame));
    SpacedOneMore(cfg, log, s, Result(frame), now);
    forall k ensures Count(log + [Result(frame)], k, |log| + 1) == Count(log, k, |log|) {
      CountOneMore(log, Result(frame), k);
    }
    forall k ensures Of(s, k).next == Count(log + [Result(frame)], k, |log| + 1) && Of(s, k).last <= now {
      assert Of(s, k).next == Count(log, k, |log|);
    }
  }

  datatype Event = Grid(mapId: string) | Finish(ms: seq<Message>, frame: int, now: nat)

  /** The clock is positive and does not go back. */
  ghost predicate Clocked(events: seq<Event>) {
    && (forall i :: 0 <= i < |events| && events[i].Finish? ==> events[i].now > 0)
    && (forall i, j :: 0 <= i < j < |events| && events[i].Finish? && events[j].Finish? ==> events[i].now <= events[j].now)
  }

  datatype Life = Life(state: State, log: seq<Out>)

  /** The session after its first `n` events. */
  function After(cfg: Config, events: seq<Event>, n: nat): Life
    requires n <= |events|
  {
    if n == 0 then Life(INIT, [])
    else
      var life := After(cfg, events, n - 1);
      match events[n - 1]
      case Grid(mapId) => Life(life.state.(grid := Some(mapId)), life.log)
      case Finish(ms, frame, now) =>
        var said := FinishFrame(cfg, life.state, ms, frame, now);
        Life(said.state, life.log + said.out)
  }

  lemma GridKeeps(cfg: Config, log: seq<Out>, s: State, now: nat, mapId: string)
    requires Inv(cfg, log, s, now)
    ensures Inv(cfg, log, s.(grid := Some(mapId)), now)
  {
  }

  lemma Later(cfg: Config, log: seq<Out>, s: State, now: nat, later: nat)
    requires Inv(cfg, log, s, now) && now <= later
    ensures Inv(cfg, log, s, later)
  {
  }

  lemma FinishKeeps(cfg: Config, log: seq<Out>, s: State, ms: seq<Message>, frame: int, now: nat)
    requires Inv(cfg, log, s, now) && now > 0
    ensures var said := FinishFrame(cfg, s, ms, frame, now); Inv(cfg, log + said.out, said.state, now)
  {
    var said := AnnounceAll(cfg, s, ms, now, |ms|);
    AnnounceAllKeeps(cfg, log, s, ms, now, |ms|, said);
    ResultKeeps(cfg, log + said.out, said.state, frame, now);
    assert log + (said.out + [Result(frame)]) == log + said.out + [Result(frame)];
  }

  /** Over a session's life every stream is numbered 0, 1, 2, ... without gaps, the
      limited ones keep their intervals and name the map the server holds. */
  lemma {:induction false} StreamsKeepTheirPromises(cfg: Config, events: seq<Event>, n: nat, now: nat)
    requires n <= |events| && Clocked(events)
    requires forall i :: 0 <= i < n && events[i].Finish? ==> events[i].now <= now
    ensures var life := After(cfg, events, n); Inv(cfg, life.log, life.state, now)
  {
    if n > 0 {
      var life := After(cfg, events, n - 1);
      match events[n - 1] {
        case Grid(mapId) =>
          StreamsKeepTheirPromises(cfg, events, n - 1, now);
          GridKeeps(cfg, life.log, life.state, now, mapId);
        case Finish(ms, frame, t) =>
          StreamsKeepTheirPromises(cfg, events, n - 1, t);
          FinishKeeps(cfg, life.log, life.state, ms, frame, t);
          Later(cfg, After(cfg, events, n).log, After(cfg, events, n).state, t, now);
      }
    }
  }

  /** What a frame adds to the log ends with its result, and all before it are the
      announcements of that frame, in the order they were made. */
  lemma {:induction false} AnnouncementsPrecedeTheResult(cfg: Config, s: State, ms: seq<Message>, frame: int, now: nat)
    ensures var out := FinishFrame(cfg, s, ms, frame, now).out;
            && out != [] && out[|out| - 1] == Result(frame)
            && forall i :: 0 <= i < |out| - 1 ==> out[i].Announced? && out[i].at == now
  {
    AllAnnounced(cfg, s, ms, now, |ms|);
  }

  lemma {:induction false} AllAnnounced(cfg: Config, s: State, ms: seq<Message>, now: nat, n: nat)
    requires n <= |ms|
    ensures forall i :: 0 <= i < |AnnounceAll(cfg, s, ms, now, n).out| ==>
              AnnounceAll(cfg, s, ms, now, n).out[i].Announced? && AnnounceAll(cfg, s, ms, now, n).out[i].at == now
  {
    if n > 0 {
      AllAnnounced(cfg, s, ms, now, n - 1);
    }
  }

  // ---- Nothing due is held back ----

  /** When the stream last announced, among the first `n` messages; zero for never. */
  function LastAt(log: seq<Out>, k: Stream, n: nat): nat
    requires n <= |log|
  {
    if n == 0 then 0 else if log[n - 1].Announced? && log[n - 1].stream == k then log[n - 1].at else LastAt(log, k, n - 1)
  }

  /** The clocks of the limited streams are those of the log. */
  ghost predicate Timed(log: seq<Out>, s: State) {
    forall k: Stream :: !k.Founds? ==> Of(s, k).last == LastAt(log, k, |log|)
  }

  /** The map named by the last grid among the first `n` events. */
  function HeldMap(events: seq<Event>, n: nat): Option<string>
    requires n <= |events|
  {
    if n == 0 then None else if events[n - 1].Grid? then Some(events[n - 1].mapId) else HeldMap(events, n - 1)
  }

  predicate Waited(log: seq<Out>, k: Stream, ms: real, now: nat) {
    LastAt(log, k, |log|) == 0 || (now - LastAt(log, k, |log|)) as real >= ms * 1000000.0
  }

  predicate IsOfMap(held: Option<string>, mapId: string) {
    held.None? || held.value == mapId
  }

  /** What a message needs to go out: its switch, the map the server holds, the interval
      of its own stream since the last of it, and for an update enough cells. */
  predicate Due(cfg: Config, log: seq<Out>, held: Option<string>, m: Message, now: nat) {
    match m
    case MapUpdate(mapId, cells) =>
      && cfg.sendUpdates && cfg.compareEnabled && IsOfMap(held, mapId)
      && Waited(log, Updates, cfg.updateMs, now) && cells >= cfg.minUpdateCells
    case PoseHint(mapId) =>
      cfg.compareEnabled && cfg.sendHints && IsOfMap(held, mapId) && Waited(log, Hints, cfg.hintMs, now)
    case Agreement(mapId) =>
      cfg.compareEnabled && cfg.sendAgreement && IsOfMap(held, mapId) && Waited(log, Verdicts, cfg.agreementMs, now)
    case Found(_) => true
    case Unknown => false
  }

  lemma {:induction false} LastAtPrefix(log: seq<Out>, more: seq<Out>, k: Stream, n: nat)
    requires n <= |log|
    ensures LastAt(log + more, k, n) == LastAt(log, k, n)
  {
    if n > 0 {
      LastAtPrefix(log, more, k, n - 1);
    }
  }

  lemma LastAtOneMore(log: seq<Out>, o: Out, k: Stream)
    ensures LastAt(log + [o], k, |log| + 1) == if o.Announced? && o.stream == k then o.at else LastAt(log, k, |log|)
  {
    LastAtPrefix(log, [o], k, |log|);
  }

  lemma AnnounceIsTimed(cfg: Config, log: seq<Out>, s: State, m: Message, now: nat)
    requires Timed(log, s)
    ensures var one := AnnounceOne(cfg, s, m, now); Timed(log + one.out, one.state) && one.state.grid == s.grid
  {
    var one := AnnounceOne(cfg, s, m, now);
    if Passes(cfg, s, m, now) {
      forall k: Stream | !k.Founds? ensures Of(one.state, k).last == LastAt(log + one.out, k, |log + one.out|) {
        LastAtOneMore(log, one.out[0], k);
      }
    } else {
      assert log + [] == log;
    }
  }

  lemma {:induction false} AllIsTimed(cfg: Config, log: seq<Out>, s: State, ms: seq<Message>, now: nat, n: nat)
    requires Timed(log, s) && n <= |ms|
    ensures var said := AnnounceAll(cfg, s, ms, now, n); Timed(log + said.out, said.state) && said.state.grid == s.grid
  {
    if n == 0 {
      assert log + [] == log;
    } else {
      var before := AnnounceAll(cfg, s, ms, now, n - 1);
      var one := AnnounceOne(cfg, before.state, ms[n - 1], now);
      AllIsTimed(cfg, log, s, ms, now, n - 1);
      AnnounceIsTimed(cfg, log + before.out, before.state, ms[n - 1], now);
      Unfold(cfg, s, ms, now, n, before, one);
      assert log + (before.out + one.out) == log + before.out + one.out;
    }
  }

  lemma FinishIsTimed(cfg: Config, log: seq<Out>, s: State, ms: seq<Message>, frame: int, now: nat)
    requires Timed(log, s)
    ensures var said := FinishFrame(cfg, s, ms, frame, now); Timed(log + said.out, said.state) && said.state.grid == s.grid
  {
    var said := AnnounceAll(cfg, s, ms, now, |ms|);
    AllIsTimed(cfg, log, s, ms, now, |ms|);
    forall k: Stream | !k.Founds?
      ensures LastAt(log + said.out + [Result(frame)], k, |log + said.out| + 1) == LastAt(log + said.out, k, |log + said.out|)
    {
      LastAtOneMore(log + said.out, Result(frame), k);
    }
    assert log + (said.out + [Result(frame)]) == log + said.out + [Result(frame)];
  }

  lemma {:induction false} LifeIsTimed(cfg: Config, events: seq<Event>, n: nat)
    requires n <= |events|
    ensures var life := After(cfg, events, n); Timed(life.log, life.state) && life.state.grid == HeldMap(events, n)
  {
    if n > 0 {
      LifeIsTimed(cfg, events, n - 1);
      var life := After(cfg, events, n - 1);
      match events[n - 1] {
        case Grid(mapId) =>
        case Finish(ms, frame, now) => FinishIsTimed(cfg, life.log, life.state, ms, frame, now);
      }
    }
  }

  lemma PassesIffDue(cfg: Config, log: seq<Out>, s: State, m: Message, now: nat)
    requires Timed(log, s)
    ensures Passes(cfg, s, m, now) <==> Due(cfg, log, s.grid, m, now)
  {
    assert Of(s, Updates).last == LastAt(log, Updates, |log|) && Of(s, Hints).last == LastAt(log, Hints, |log|);
    assert Of(s, Verdicts).last == LastAt(log, Verdicts, |log|);
  }

  /** The announcement is of this message, on the stream of its kind. */
  predicate Carries(o: Out, m: Message, now: nat) {
    && o.Announced? && !m.Unknown? && o.mapId == m.mapId && o.at == now
    && o.stream == if m.MapUpdate? then Updates else if m.PoseHint? then Hints else if m.Agreement? then Verdicts else Founds
  }

  /** Over a session's life: message `i` of the frame event `n` finishes goes out exactly
      when it is due, judged by the log up to it and the last grid received. */
  lemma SentIffDue(cfg: Config, events: seq<Event>, n: nat, i: nat)
    requires n < |events| && events[n].Finish? && i < |events[n].ms|
    ensures var life, ms, now := After(cfg, events, n), events[n].ms, events[n].now;
            var before := AnnounceAll(cfg, life.state, ms, now, i);
            var out := AnnounceOne(cfg, before.state, ms[i], now).out;
            && (out == [] <==> !Due(cfg, life.log + before.out, HeldMap(events, n), ms[i], now))
            && (out != [] ==> |out| == 1 && Carries(out[0], ms[i], now))
  {
    var life, ms, now := After(cfg, events, n), events[n].ms, events[n].now;
    LifeIsTimed(cfg, events, n);
    AllIsTimed(cfg, life.log, life.state, ms, now, i);
    PassesIffDue(cfg, life.log + AnnounceAll(cfg, life.state, ms, now, i).out, AnnounceAll(cfg, life.state, ms, now, i).state, ms[i], now);
  }
}
