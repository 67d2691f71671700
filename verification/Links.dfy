/** The frame protocol between clients and the server, as atomic steps over channels,
    queue, workers and results, and what every reachable state keeps. */
module Links {
  import opened FrameQueues

  /** A frame: the session that sent it and its number there. */
  datatype Id = Id(session: nat, seqNo: nat)

  datatype Decoding = TooLarge | Fails | Decodes

  datatype Config = Config(sessions: nat, maxInflight: nat, depth: nat, policy: Policy, workers: nat) {
    predicate Valid() {
      sessions >= 1 && maxInflight >= 1 && depth >= 1 && workers >= 1
    }
  }

  /** `pending` is the clients' windows, `down` the replies under way, named by the
      session they go to and the number they answer.  `sent` and `replied` are history. */
  datatype Net = Net(pending: set<Id>, next: seq<nat>, up: seq<Id>, queue: seq<Id>, busy: seq<Id>, results: seq<Id>,
                     down: seq<Id>, sent: set<Id>, replied: multiset<Id>)

  datatype Step =
    | Send(session: nat, accepted: bool)
    | Arrive(i: nat, decoding: Decoding)
    | Get
    | Finish(i: nat)
    | Flush
    | Deliver(i: nat)

  function Without(s: seq<Id>, i: nat): (t: seq<Id>)
    requires i < |s|
    ensures multiset(s) == multiset(t) + multiset{s[i]} && |t| == |s| - 1
  {
    assert s == s[..i] + [s[i]] + s[i + 1..];
    s[..i] + s[i + 1..]
  }

  function InitNet(cfg: Config): Net {
    Net({}, seq(cfg.sessions, i => 0), [], [], [], [], [], {}, multiset{})
  }

  /** How much of a session's window is in use. */
  function Window(pending: set<Id>, session: nat): set<Id> {
    set id | id in pending && id.session == session
  }

  /** The client numbers a frame and sends it, or the socket refuses it; the number is
      spent either way, the window only when it was sent. */
  function Sent(n: Net, session: nat, accepted: bool): Net
    requires session < |n.next|
  {
    var id := Id(session, n.next[session]);
    var counted := n.(next := n.next[session := n.next[session] + 1]);
    if accepted then counted.(pending := n.pending + {id}, up := n.up + [id], sent := n.sent + {id}) else counted
  }

  /** The reply to an evicted frame goes to the session of the frame that arrived. */
  function EvictionReply(arrived: Id, evicted: seq<Id>): (replies: seq<Id>)
    ensures |replies| == |evicted|
    ensures forall k :: 0 <= k < |evicted| ==> replies[k] == Id(arrived.session, evicted[k].seqNo)
  {
    seq(|evicted|, k requires 0 <= k < |evicted| => Id(arrived.session, evicted[k].seqNo))
  }

  function Reply(n: Net, replies: seq<Id>): Net {
    n.(down := n.down + replies, replied := n.replied + multiset(replies))
  }

  function Arrived(cfg: Config, n: Net, i: nat, decoding: Decoding): Net
    requires cfg.depth >= 1 && |n.queue| <= cfg.depth && i < |n.up|
  {
    var id, taken := n.up[i], n.(up := Without(n.up, i));
    if !decoding.Decodes? then Reply(taken, [id])
    else
      var p := PutOpen(n.queue, cfg.depth, cfg.policy, id);
      Reply(taken.(queue := p.items), EvictionReply(id, p.evicted))
  }

  predicate Enabled(cfg: Config, n: Net, st: Step) {
    match st
    case Send(session, _) => session < |n.next| && |Window(n.pending, session)| < cfg.maxInflight
    case Arrive(i, _) => i < |n.up| && cfg.depth >= 1 && |n.queue| <= cfg.depth
    case Get => n.queue != [] && |n.busy| < cfg.workers
    case Finish(i) => i < |n.busy|
    case Flush => n.results != []
    case Deliver(i) => i < |n.down|
  }

  function Next(cfg: Config, n: Net, st: Step): Net
    requires Enabled(cfg, n, st)
  {
    match st
    case Send(session, accepted) => Sent(n, session, accepted)
    case Arrive(i, decoding) => Arrived(cfg, n, i, decoding)
    case Get => n.(queue := n.queue[1..], busy := n.busy + [n.queue[0]])
    case Finish(i) => n.(busy := Without(n.busy, i), results := n.results + [n.busy[i]])
    case Flush => Reply(n.(results := []), n.results)
    case Deliver(i) => n.(down := Without(n.down, i), pending := n.pending - {n.down[i]})
  }

  // ---- The server's own code for two of the steps ----

  class FrameServer {
    const frames: FrameQueue<Id>
    var results: seq<Id>
    var down: seq<Id>

    constructor (frames: FrameQueue<Id>)
      ensures this.frames == frames && results == [] && down == []
    {
      this.frames := frames;
      results, down := [], [];
    }

    /** Decode a frame and queue it; every frame evicted is answered, and a frame that
        does not decode is answered at once. */
    method OnFrame(id: Id, decoding: Decoding)
      requires frames.Valid()
      modifies this, frames
      ensures frames.Valid() && results == old(results) && frames.closed == old(frames.closed)
      ensures !decoding.Decodes? ==> frames.items == old(frames.items) && down == old(down) + [id]
      ensures decoding.Decodes? && !frames.closed ==>
                var p := PutOpen(old(frames.items), frames.maxDepth, frames.policy, id);
                frames.items == p.items && down == old(down) + EvictionReply(id, p.evicted)
      ensures decoding.Decodes? && frames.closed ==> frames.items == old(frames.items) && down == old(down) + [id]
    {
      if !decoding.Decodes? {
        down := down + [id];
        return;
      }
      var evicted := frames.Enqueue(id);
      ghost var before := down;
      for k := 0 to |evicted|
        invariant |down| == |before| + k && down[..|before|] == before
        invariant forall j :: 0 <= j < k ==> down[|before| + j] == Id(id.session, evicted[j].seqNo)
        invariant results == old(results)
        modifies this
      {
        down := down + [Id(id.session, evicted[k].seqNo)];
      }
      assert down == before + EvictionReply(id, evicted);
    }

    /** One turn of a worker: the oldest frame is taken and finished, whether its
        processor returns or raises; nothing happens on an empty queue. */
    method WorkOne() returns (worked: bool)
      requires frames.Valid()
      modifies this, frames
      ensures frames.Valid() && down == old(down) && frames.closed == old(frames.closed)
      ensures worked <==> old(frames.items) != []
      ensures worked ==> results + frames.items == old(results) + old(frames.items) && |results| == |old(results)| + 1
      ensures !worked ==> results == old(results) && frames.items == []
    {
      var item := frames.Get();
      if item == [] {
        return false;
      }
      results := results + item;
      return true;
    }

    /** Answer everything the workers finished, oldest first. */
    method FlushResults()
      modifies this
      ensures results == [] && down == old(down) + old(results)
    {
      while results != []
        invariant down + results == old(down) + old(results)
        decreases |results|
      {
        down := down + [results[0]];
        results := results[1..];
      }
    }
  }

  // ---- What every state keeps ----

  /** Frames somewhere between the client's send and the server's reply. */
  function InFlight(n: Net): multiset<Id> {
    multiset(n.up) + multiset(n.queue) + multiset(n.busy) + multiset(n.results)
  }

  /** The clients' windows are exactly the frames in flight and the replies under way,
      each once. */
  predicate Accounted(n: Net) {
    multiset(n.pending) == InFlight(n) + multiset(n.down)
  }

  /** Every frame ever sent is either in flight or was answered, once. */
  predicate AnsweredOnce(n: Net) {
    multiset(n.sent) == InFlight(n) + n.replied
  }

  ghost predicate Bounded(cfg: Config, n: Net) {
    && |n.next| == cfg.sessions && |n.queue| <= cfg.depth && |n.busy| <= cfg.workers
    && (forall s :: 0 <= s < cfg.sessions ==> |Window(n.pending, s)| <= cfg.maxInflight)
    && (forall id :: id in n.sent ==> id.session < cfg.sessions && id.seqNo < n.next[id.session])
    && n.pending <= n.sent
  }

  ghost predicate Inv(cfg: Config, n: Net) {
    Bounded(cfg, n) && Accounted(n) && AnsweredOnce(n)
  }

  /** Whatever this step evicts belongs to the session of the frame that arrives. */
  predicate EvictsOwn(cfg: Config, n: Net, st: Step)
    requires Enabled(cfg, n, st)
  {
    st.Arrive? && st.decoding.Decodes? ==>
      forall id :: id in PutOpen(n.queue, cfg.depth, cfg.policy, n.up[st.i]).evicted ==> id.session == n.up[st.i].session
  }

  lemma InitInv(cfg: Config)
    requires cfg.Valid()
    ensures Inv(cfg, InitNet(cfg))
  {
  }

  lemma OneMore(s: seq<Id>, id: Id)
    ensures multiset(s + [id]) == multiset(s) + multiset{id}
  {
  }

  lemma SetOneMore(s: set<Id>, id: Id)
    requires id !in s
    ensures multiset(s + {id}) == multiset(s) + multiset{id}
  {
  }

  lemma SetOneLess(s: set<Id>, id: Id)
    requires id in s
    ensures multiset(s) == multiset(s - {id}) + multiset{id}
  {
  }

  lemma WindowOneMore(pending: set<Id>, id: Id, s: nat)
    requires id !in pending
    ensures |Window(pending + {id}, s)| == |Window(pending, s)| + (if id.session == s then 1 else 0)
  {
    if id.session == s {
      assert Window(pending + {id}, s) == Window(pending, s) + {id};
    } else {
      assert Window(pending + {id}, s) == Window(pending, s);
    }
  }

  lemma WindowShrinks(pending: set<Id>, less: set<Id>, s: nat)
    requires less <= pending
    ensures |Window(less, s)| <= |Window(pending, s)|
  {
    var whole, part := Window(pending, s), Window(less, s);
    assert part <= whole;
    assert |whole| == |part| + |whole - part|;
  }

  lemma SendBounded(cfg: Config, n: Net, session: nat, accepted: bool)
    requires Bounded(cfg, n) && Enabled(cfg, n, Send(session, accepted))
    ensures Bounded(cfg, Sent(n, session, accepted))
    ensures Id(session, n.next[session]) !in n.sent
  {
    var id, m := Id(session, n.next[session]), Sent(n, session, accepted);
    if accepted {
      forall s | 0 <= s < cfg.sessions ensures |Window(m.pending, s)| <= cfg.maxInflight {
        WindowOneMore(n.pending, id, s);
      }
    }
  }

  lemma SendKeeps(cfg: Config, n: Net, session: nat, accepted: bool)
    requires Inv(cfg, n) && Enabled(cfg, n, Send(session, accepted))
    ensures Inv(cfg, Sent(n, session, accepted))
  {
    SendBounded(cfg, n, session, accepted);
    if accepted {
      var id := Id(session, n.next[session]);
      OneMore(n.up, id);
      SetOneMore(n.pending, id);
      SetOneMore(n.sent, id);
    }
  }

  lemma FlowOf(n: Net)
    ensures InFlight(n) == multiset(n.up) + multiset(n.queue) + (multiset(n.busy) + multiset(n.results))
  {
  }

  lemma ReplyMoves(n: Net, replies: seq<Id>)
    ensures multiset(Reply(n, replies).down) == multiset(n.down) + multiset(replies)
    ensures Reply(n, replies).replied == n.replied + multiset(replies)
  {
  }

  /** The replies to evicted frames name those frames exactly when they are all of the
      session that the frame came from. */
  lemma EvictionReplyNames(arrived: Id, evicted: seq<Id>)
    requires |evicted| <= 1
    ensures multiset(EvictionReply(arrived, evicted)) == multiset(evicted) <==>
              forall id :: id in evicted ==> id.session == arrived.session
  {
    var replies := EvictionReply(arrived, evicted);
    if |evicted| == 1 {
      assert replies == [Id(arrived.session, evicted[0].seqNo)] && evicted == [evicted[0]];
      assert multiset(replies)[replies[0]] == 1;
    } else {
      assert replies == [] && evicted == [];
    }
  }

  lemma QueueFlow(up: multiset<Id>, queue: multiset<Id>, rest: multiset<Id>, up': multiset<Id>, queue': multiset<Id>,
                  evicted: multiset<Id>, id: Id)
    requires up == up' + multiset{id} && queue' + evicted == queue + multiset{id}
    ensures up + queue + rest == up' + queue' + rest + evicted
  {
    assert up + queue + rest == up' + (queue + multiset{id}) + rest;
  }

  /** What a decoded arrival does to the frames in flight. */
  lemma ArriveFlow(cfg: Config, n: Net, i: nat)
    requires cfg.depth >= 1 && |n.queue| <= cfg.depth && i < |n.up|
    ensures var m := Arrived(cfg, n, i, Decodes);
            var evicted := PutOpen(n.queue, cfg.depth, cfg.policy, n.up[i]).evicted;
            && InFlight(n) == InFlight(m) + multiset(evicted)
            && multiset(m.down) == multiset(n.down) + multiset(EvictionReply(n.up[i], evicted))
            && m.replied == n.replied + multiset(EvictionReply(n.up[i], evicted))
  {
    PutConserves(n.queue, cfg.depth, cfg.policy, n.up[i]);
    var p := PutOpen(n.queue, cfg.depth, cfg.policy, n.up[i]);
    var rest := multiset(n.busy) + multiset(n.results);
    QueueFlow(multiset(n.up), multiset(n.queue), rest, multiset(Without(n.up, i)), multiset(p.items), multiset(p.evicted), n.up[i]);
    FlowOf(n);
    FlowOf(Arrived(cfg, n, i, Decodes));
    ReplyMoves(n.(up := Without(n.up, i), queue := p.items), EvictionReply(n.up[i], p.evicted));
  }

  /** A decoded arrival keeps the account exactly when what it evicts is its own
      session's: otherwise the evicted frame is never answered and another session is
      answered for it. */
  lemma ArriveKeepsIff(cfg: Config, n: Net, i: nat)
    requires Inv(cfg, n) && Enabled(cfg, n, Arrive(i, Decodes))
    ensures Inv(cfg, Arrived(cfg, n, i, Decodes)) <==> EvictsOwn(cfg, n, Arrive(i, Decodes))
  {
    var evicted := PutOpen(n.queue, cfg.depth, cfg.policy, n.up[i]).evicted;
    ArriveFlow(cfg, n, i);
    EvictionReplyNames(n.up[i], evicted);
    ArriveAccount(InFlight(n), InFlight(Arrived(cfg, n, i, Decodes)), multiset(evicted),
                  multiset(EvictionReply(n.up[i], evicted)), multiset(n.down), n.replied);
    assert Bounded(cfg, Arrived(cfg, n, i, Decodes));
  }

  lemma ArriveAccount(flight: multiset<Id>, after: multiset<Id>, evicted: multiset<Id>, replies: multiset<Id>,
                      down: multiset<Id>, replied: multiset<Id>)
    requires flight == after + evicted
    ensures replies == evicted <==> after + (down + replies) == flight + down
    ensures replies == evicted ==> after + (replied + replies) == flight + replied
  {
    if after + (down + replies) == flight + down {
      forall id ensures replies[id] == evicted[id] {
        assert (after + (down + replies))[id] == (flight + down)[id];
      }
    }
  }

  lemma RefuseKeeps(cfg: Config, n: Net, i: nat, decoding: Decoding)
    requires Inv(cfg, n) && Enabled(cfg, n, Arrive(i, decoding)) && !decoding.Decodes?
    ensures Inv(cfg, Arrived(cfg, n, i, decoding))
  {
    var taken := n.(up := Without(n.up, i));
    ReplyMoves(taken, [n.up[i]]);
    assert multiset([n.up[i]]) == multiset{n.up[i]};
  }

  lemma WorkKeeps(cfg: Config, n: Net, st: Step)
    requires Inv(cfg, n) && Enabled(cfg, n, st) && (st.Get? || st.Finish?)
    ensures Inv(cfg, Next(cfg, n, st))
  {
    if st.Get? {
      assert n.queue == [n.queue[0]] + n.queue[1..];
      assert multiset(n.queue) == multiset{n.queue[0]} + multiset(n.queue[1..]);
      OneMore(n.busy, n.queue[0]);
    } else {
      OneMore(n.results, n.busy[st.i]);
    }
  }

  lemma FlushKeeps(cfg: Config, n: Net)
    requires Inv(cfg, n) && Enabled(cfg, n, Flush)
    ensures Inv(cfg, Next(cfg, n, Flush))
  {
    ReplyMoves(n.(results := []), n.results);
  }

  lemma Cancel(whole: multiset<Id>, flight: multiset<Id>, down: multiset<Id>, less: multiset<Id>, fewer: multiset<Id>, id: Id)
    requires whole == flight + down && whole == less + multiset{id} && down == fewer + multiset{id}
    ensures less == flight + fewer
  {
    assert (flight + fewer) + multiset{id} == less + multiset{id};
    forall x ensures less[x] == (flight + fewer)[x] {
      assert (less + multiset{id})[x] == ((flight + fewer) + multiset{id})[x];
    }
  }

  lemma DeliverKeeps(cfg: Config, n: Net, i: nat)
    requires Inv(cfg, n) && Enabled(cfg, n, Deliver(i))
    ensures Inv(cfg, Next(cfg, n, Deliver(i)))
  {
    var id, m := n.down[i], Next(cfg, n, Deliver(i));
    assert id in multiset(n.down);
    assert id in multiset(n.pending);
    SetOneLess(n.pending, id);
    Cancel(multiset(n.pending), InFlight(n), multiset(n.down), multiset(m.pending), multiset(m.down), id);
    assert InFlight(m) == InFlight(n);
    forall s | 0 <= s < cfg.sessions ensures |Window(m.pending, s)| <= cfg.maxInflight {
      WindowShrinks(n.pending, m.pending, s);
    }
  }

  /** Every step keeps the account, as long as an arrival evicts only its own session's
      frames. */
  lemma StepKeeps(cfg: Config, n: Net, st: Step)
    requires Inv(cfg, n) && Enabled(cfg, n, st) && EvictsOwn(cfg, n, st)
    ensures Inv(cfg, Next(cfg, n, st))
  {
    match st
    case Send(session, accepted) => SendKeeps(cfg, n, session, accepted);
    case Arrive(i, decoding) =>
      if decoding.Decodes? {
        ArriveKeepsIff(cfg, n, i);
      } else {
        RefuseKeeps(cfg, n, i, decoding);
      }
    case Get => WorkKeeps(cfg, n, st);
    case Finish(i) => WorkKeeps(cfg, n, st);
    case Flush => FlushKeeps(cfg, n);
    case Deliver(i) => DeliverKeeps(cfg, n, i);
  }

  // ---- Whole runs ----

  datatype Run = Run(nets: seq<Net>, steps: seq<Step>)

  predicate Linked(cfg: Config, run: Run, k: nat)
    requires k < |run.steps| && |run.nets| == |run.steps| + 1
  {
    Enabled(cfg, run.nets[k], run.steps[k]) && run.nets[k + 1] == Next(cfg, run.nets[k], run.steps[k])
  }

  ghost predicate IsRun(cfg: Config, run: Run) {
    && |run.nets| == |run.steps| + 1 && run.nets[0] == InitNet(cfg)
    && forall k {:trigger Linked(cfg, run, k)} :: 0 <= k < |run.steps| ==> Linked(cfg, run, k)
  }

  lemma FlightSent(cfg: Config, n: Net, id: Id)
    requires Inv(cfg, n) && (id in multiset(n.up) || id in multiset(n.queue))
    ensures id in n.sent && id.session < cfg.sessions
  {
    assert id in InFlight(n);
    assert id in multiset(n.sent);
  }

  /** A frame sent was answered exactly once if it is no longer in flight, and not at
      all while it is. */
  lemma ExactlyOneReply(cfg: Config, n: Net, id: Id)
    requires Inv(cfg, n) && id in n.sent
    ensures n.replied[id] == if id in InFlight(n) then 0 else 1
    ensures InFlight(n)[id] <= 1
  {
    assert multiset(n.sent)[id] == 1;
    assert multiset(n.sent)[id] == InFlight(n)[id] + n.replied[id];
  }

  /** Nothing is answered that was not sent. */
  lemma NoStrayReply(cfg: Config, n: Net, id: Id)
    requires Inv(cfg, n) && id !in n.sent
    ensures n.replied[id] == 0
  {
    assert multiset(n.sent)[id] == 0;
    assert multiset(n.sent)[id] == InFlight(n)[id] + n.replied[id];
  }

  // ---- Progress ----

  /** Steps still owed to the frames and replies under way. */
  function Owed(n: Net): nat {
    5 * |n.up| + 4 * |n.queue| + 3 * |n.busy| + 2 * |n.results| + |n.down|
  }

  /** Every step but a send brings the end nearer. */
  lemma StepsArePaid(cfg: Config, n: Net, st: Step)
    requires Enabled(cfg, n, st) && !st.Send?
    ensures Owed(Next(cfg, n, st)) < Owed(n)
  {
  }

  /** While a window is not empty, some step other than a send can be taken: with the
      lemma above, every run that stops sending ends with every frame answered. */
  lemma NeverStuck(cfg: Config, n: Net)
    requires cfg.Valid() && Inv(cfg, n) && n.pending != {}
    ensures exists st: Step :: Enabled(cfg, n, st) && !st.Send?
  {
    var id :| id in n.pending;
    assert id in multiset(n.pending);
    assert id in multiset(n.up) || id in multiset(n.queue) || id in multiset(n.busy) || id in multiset(n.results) || id in multiset(n.down);
    if n.up != [] {
      assert Enabled(cfg, n, Arrive(0, Decodes));
    } else if n.busy != [] {
      assert Enabled(cfg, n, Finish(0));
    } else if n.queue != [] {
      assert Enabled(cfg, n, Get);
    } else if n.results != [] {
      assert Enabled(cfg, n, Flush);
    } else {
      assert Enabled(cfg, n, Deliver(0));
    }
  }

  // ---- Two sessions ----

  ghost predicate NoneOf(s: seq<Id>, session: nat) {
    forall k :: 0 <= k < |s| ==> s[k].session != session
  }

  /** Frames that fill a session's window while nothing of the session is left anywhere. */
  ghost predicate Stranded(cfg: Config, n: Net, session: nat, lost: set<Id>) {
    && lost <= Window(n.pending, session) && |lost| >= cfg.maxInflight
    && NoneOf(n.up, session) && NoneOf(n.queue, session) && NoneOf(n.busy, session)
    && NoneOf(n.results, session) && NoneOf(n.down, session)
  }

  lemma StrandedCannotSend(cfg: Config, n: Net, session: nat, lost: set<Id>)
    requires Stranded(cfg, n, session, lost)
    ensures |Window(n.pending, session)| >= cfg.maxInflight
  {
    var w := Window(n.pending, session);
    assert w == lost + (w - lost);
  }

  lemma StrandedStep(cfg: Config, n: Net, st: Step, session: nat, lost: set<Id>)
    requires Stranded(cfg, n, session, lost) && Enabled(cfg, n, st)
    ensures Stranded(cfg, Next(cfg, n, st), session, lost)
  {
    StrandedCannotSend(cfg, n, session, lost);
    match st
    case Arrive(i, decoding) =>
      if decoding.Decodes? {
        var p := PutOpen(n.queue, cfg.depth, cfg.policy, n.up[i]);
        assert NoneOf(p.items, session);
      }
    case _ =>
  }

  /** A session whose whole window vanished stays so whatever happens: it never sends,
      and a session that sends nothing is never answered. */
  lemma {:induction false} StrandedForEver(cfg: Config, run: Run, j: nat, k: nat, session: nat, lost: set<Id>)
    requires IsRun(cfg, run) && j <= k < |run.nets| && Stranded(cfg, run.nets[j], session, lost)
    ensures Stranded(cfg, run.nets[k], session, lost)
    decreases k
  {
    if j < k {
      StrandedForEver(cfg, run, j, k - 1, session, lost);
      assert Linked(cfg, run, k - 1);
      StrandedStep(cfg, run.nets[k - 1], run.steps[k - 1], session, lost);
    }
  }

  function TwoSessions(): Config { Config(2, 1, 1, DropOldest, 1) }

  const LOST := Id(0, 0)
  const FIRST := Id(1, 0)
  const SECOND := Id(1, 1)

  /** Session 1's first send is refused; session 0's frame is queued; session 1's next
      frame evicts it. */
  function StrandingRun(): Run {
    var n0 := Net({}, [0, 0], [], [], [], [], [], {}, multiset{});
    var n1 := n0.(next := [0, 1]);
    var n2 := Net({LOST}, [1, 1], [LOST], [], [], [], [], {LOST}, multiset{});
    var n3 := n2.(up := [], queue := [LOST]);
    var n4 := Net({LOST, SECOND}, [1, 2], [SECOND], [LOST], [], [], [], {LOST, SECOND}, multiset{});
    var n5 := Net({LOST, SECOND}, [1, 2], [], [SECOND], [], [], [FIRST], {LOST, SECOND}, multiset{FIRST});
    Run([n0, n1, n2, n3, n4, n5],
        [Send(1, false), Send(0, true), Arrive(0, Decodes), Send(1, true), Arrive(0, Decodes)])
  }

  lemma StrandingStart()
    ensures Linked(TwoSessions(), StrandingRun(), 0) && Linked(TwoSessions(), StrandingRun(), 1)
  {
    assert Window({}, 0) == {} && Window({}, 1) == {};
  }

  lemma StrandingArrival()
    ensures Linked(TwoSessions(), StrandingRun(), 2)
  {
    assert Without([LOST], 0) == [];
    assert EvictionReply(LOST, []) == [];
  }

  lemma StrandingSend()
    ensures Linked(TwoSessions(), StrandingRun(), 3)
  {
  }

  lemma StrandingEviction()
    ensures Linked(TwoSessions(), StrandingRun(), 4)
  {
  }

  /** With two sessions a run can leave session 0 waiting for ever, while session 1 is
      told that a frame it never sent was dropped. */
  lemma CrossSessionEvictionStrands()
    ensures IsRun(TwoSessions(), StrandingRun())
    ensures Stranded(TwoSessions(), StrandingRun().nets[5], 0, {LOST})
    ensures FIRST in StrandingRun().nets[5].down && FIRST !in StrandingRun().nets[5].sent
  {
    StrandingStart();
    StrandingArrival();
    StrandingSend();
    StrandingEviction();
    assert InitNet(TwoSessions()).next == [0, 0];
    forall k | 0 <= k < 5 ensures Linked(TwoSessions(), StrandingRun(), k) {
      assert k == 0 || k == 1 || k == 2 || k == 3 || k == 4;
    }
  }
}
