/** For which configurations every frame is accounted for: with one session, when the
    queue refuses arrivals, or when it holds every window at once. */
module Sessions {
  import opened FrameQueues
  import opened Links
  import opened Wrappers

  /** No configuration parameter lets an arrival evict another session's frame. */
  predicate Safe(cfg: Config) {
    cfg.sessions == 1 || cfg.policy.DropNewest? || cfg.sessions * cfg.maxInflight <= cfg.depth
  }

  // ---- The windows of all sessions together ----

  ghost predicate AllBelow(pending: set<Id>, sessions: nat) {
    forall id :: id in pending ==> id.session < sessions
  }

  lemma OthersUnchanged(pending: set<Id>, last: nat, s: nat)
    requires s != last
    ensures Window(pending - Window(pending, last), s) == Window(pending, s)
  {
  }

  lemma {:induction false} WindowsAtMost(pending: set<Id>, sessions: nat, m: nat)
    requires AllBelow(pending, sessions) && forall s :: 0 <= s < sessions ==> |Window(pending, s)| <= m
    ensures |pending| <= sessions * m
  {
    if sessions == 0 {
      assert pending == {};
    } else {
      var last := Window(pending, sessions - 1);
      var rest := pending - last;
      forall s | 0 <= s < sessions - 1 ensures |Window(rest, s)| <= m {
        OthersUnchanged(pending, sessions - 1, s);
      }
      WindowsAtMost(rest, sessions - 1, m);
      assert |pending| == |rest| + |last|;
      assert sessions * m == (sessions - 1) * m + m;
    }
  }

  lemma {:induction false} WindowsAtLeast(pending: set<Id>, sessions: nat, m: nat)
    requires AllBelow(pending, sessions) && forall s :: 0 <= s < sessions ==> |Window(pending, s)| >= m
    ensures |pending| >= sessions * m
  {
    if sessions > 0 {
      var last := Window(pending, sessions - 1);
      var rest := pending - last;
      forall s | 0 <= s < sessions - 1 ensures |Window(rest, s)| >= m {
        OthersUnchanged(pending, sessions - 1, s);
      }
      WindowsAtLeast(rest, sessions - 1, m);
      assert |pending| == |rest| + |last|;
      assert sessions * m == (sessions - 1) * m + m;
    }
  }

  lemma PendingBelow(cfg: Config, n: Net)
    requires Inv(cfg, n)
    ensures AllBelow(n.pending, cfg.sessions)
  {
  }

  lemma PendingIsFlight(n: Net)
    requires Accounted(n)
    ensures |n.pending| == |n.up| + |n.queue| + |n.busy| + |n.results| + |n.down|
  {
    assert |multiset(n.pending)| == |n.pending|;
  }

  // ---- Safe configurations keep the account ----

  lemma FullQueueIsTooLong(cfg: Config, n: Net)
    requires cfg.Valid() && Inv(cfg, n) && n.up != [] && |n.queue| == cfg.depth
    ensures cfg.sessions * cfg.maxInflight > cfg.depth
  {
    PendingBelow(cfg, n);
    PendingIsFlight(n);
    WindowsAtMost(n.pending, cfg.sessions, cfg.maxInflight);
  }

  lemma SafeEvictsOwn(cfg: Config, n: Net, st: Step)
    requires cfg.Valid() && Safe(cfg) && Inv(cfg, n) && Enabled(cfg, n, st)
    ensures EvictsOwn(cfg, n, st)
  {
    if st.Arrive? && st.decoding.Decodes? {
      var id := n.up[st.i];
      FlightSent(cfg, n, id);
      if |n.queue| == cfg.depth {
        FullQueueIsTooLong(cfg, n);
        assert n.queue[0] in multiset(n.queue);
        FlightSent(cfg, n, n.queue[0]);
      }
    }
  }

  /** In a safe configuration, in every reachable state the clients' windows are the
      disjoint union of the frames on the way up, queued, worked on, finished, and
      answered but not delivered; each is within its limit, and no frame is answered
      twice. */
  lemma {:induction false} EveryStateAccounted(cfg: Config, run: Run, k: nat)
    requires cfg.Valid() && Safe(cfg) && IsRun(cfg, run) && k < |run.nets|
    ensures Inv(cfg, run.nets[k])
  {
    if k == 0 {
      InitInv(cfg);
    } else {
      EveryStateAccounted(cfg, run, k - 1);
      assert Linked(cfg, run, k - 1);
      SafeEvictsOwn(cfg, run.nets[k - 1], run.steps[k - 1]);
      StepKeeps(cfg, run.nets[k - 1], run.steps[k - 1]);
    }
  }

  // ---- Every other configuration has a run that breaks it ----

  ghost predicate Ends(cfg: Config, run: Run, n: Net) {
    IsRun(cfg, run) && run.nets[|run.steps|] == n
  }

  lemma Extend(cfg: Config, run: Run, n: Net, st: Step) returns (longer: Run)
    requires Ends(cfg, run, n) && Enabled(cfg, n, st)
    ensures Ends(cfg, longer, Next(cfg, n, st))
  {
    longer := Run(run.nets + [Next(cfg, n, st)], run.steps + [st]);
    forall k | 0 <= k < |longer.steps| ensures Linked(cfg, longer, k) {
      if k < |run.steps| {
        assert Linked(cfg, run, k);
      }
    }
  }

  /** Nothing is anywhere but in the queue, whose head is session 0's; and another
      session waits only when session 0's window is full. */
  ghost predicate Filling(cfg: Config, n: Net) {
    && Inv(cfg, n) && n.up == [] && n.busy == [] && n.results == [] && n.down == []
    && n.queue != [] && n.queue[0].session == 0
    && (|Window(n.pending, 0)| < cfg.maxInflight ==> forall id :: id in n.pending ==> id.session == 0)
  }

  /** While not every window is full, some session has room: session 0 if it can. */
  lemma SomeoneHasRoom(cfg: Config, n: Net) returns (s: nat)
    requires cfg.Valid() && Inv(cfg, n) && |n.pending| < cfg.sessions * cfg.maxInflight
    ensures s < cfg.sessions && |Window(n.pending, s)| < cfg.maxInflight
    ensures |Window(n.pending, 0)| < cfg.maxInflight ==> s == 0
  {
    if |Window(n.pending, 0)| < cfg.maxInflight {
      s := 0;
    } else {
      PendingBelow(cfg, n);
      if forall t :: 0 <= t < cfg.sessions ==> |Window(n.pending, t)| >= cfg.maxInflight {
        WindowsAtLeast(n.pending, cfg.sessions, cfg.maxInflight);
        assert false;
      }
      s :| s < cfg.sessions && |Window(n.pending, s)| < cfg.maxInflight;
    }
  }

  /** A frame sent by `s` and decoded on arrival joins the queue while it has room. */
  lemma SendAndArrive(cfg: Config, n: Net, s: nat)
    requires cfg.Valid() && Inv(cfg, n) && n.up == [] && |n.queue| < cfg.depth
    requires s < cfg.sessions && |Window(n.pending, s)| < cfg.maxInflight
    ensures Enabled(cfg, n, Send(s, true))
    ensures var up := Sent(n, s, true); var id := Id(s, n.next[s]);
            && Enabled(cfg, up, Arrive(0, Decodes)) && Inv(cfg, up)
            && Inv(cfg, Arrived(cfg, up, 0, Decodes)) && id !in n.pending
            && Arrived(cfg, up, 0, Decodes) == n.(next := up.next, pending := n.pending + {id}, sent := n.sent + {id}, queue := n.queue + [id])
  {
    var up, id := Sent(n, s, true), Id(s, n.next[s]);
    SendKeeps(cfg, n, s, true);
    SendBounded(cfg, n, s, true);
    ArriveKeepsIff(cfg, up, 0);
    assert up.up == [id] && Without(up.up, 0) == [];
    assert EvictionReply(id, []) == [];
    assert n.down + [] == n.down;
    assert n.replied + multiset([]) == n.replied;
  }

  lemma FillOne(cfg: Config, run: Run, n: Net) returns (longer: Run, m: Net)
    requires cfg.Valid() && cfg.sessions * cfg.maxInflight > cfg.depth
    requires Ends(cfg, run, n) && Filling(cfg, n) && |n.queue| < cfg.depth
    ensures Ends(cfg, longer, m) && Filling(cfg, m) && |m.queue| == |n.queue| + 1
  {
    PendingIsFlight(n);
    var s := SomeoneHasRoom(cfg, n);
    SendAndArrive(cfg, n, s);
    longer := Extend(cfg, run, n, Send(s, true));
    longer := Extend(cfg, longer, Sent(n, s, true), Arrive(0, Decodes));
    m := Arrived(cfg, Sent(n, s, true), 0, Decodes);
    WindowOneMore(n.pending, Id(s, n.next[s]), 0);
  }

  lemma {:induction false} Fill(cfg: Config, k: pos) returns (run: Run, n: Net)
    requires cfg.Valid() && cfg.sessions * cfg.maxInflight > cfg.depth && k <= cfg.depth
    ensures Ends(cfg, run, n) && Filling(cfg, n) && |n.queue| == k
  {
    if k == 1 {
      InitInv(cfg);
      var start := InitNet(cfg);
      run := Run([start], []);
      assert Window(start.pending, 0) == {};
      SendAndArrive(cfg, start, 0);
      run := Extend(cfg, run, start, Send(0, true));
      run := Extend(cfg, run, Sent(start, 0, true), Arrive(0, Decodes));
      n := Arrived(cfg, Sent(start, 0, true), 0, Decodes);
    } else {
      run, n := Fill(cfg, k - 1);
      run, n := FillOne(cfg, run, n);
    }
  }

  /** With the queue full of frames behind one of session 0's, another session has room. */
  lemma AnotherHasRoom(cfg: Config, n: Net) returns (s: nat)
    requires cfg.Valid() && !Safe(cfg) && Filling(cfg, n) && |n.queue| == cfg.depth
    ensures 0 < s < cfg.sessions && |Window(n.pending, s)| < cfg.maxInflight
  {
    if |Window(n.pending, 0)| < cfg.maxInflight {
      s := 1;
      assert Window(n.pending, 1) == {};
    } else {
      PendingIsFlight(n);
      s := SomeoneHasRoom(cfg, n);
    }
  }

  /** A frame was sent, is nowhere any more, and was never answered. */
  ghost predicate Lost(n: Net, id: Id) {
    id in n.sent && InFlight(n)[id] == 0 && n.replied[id] == 0
  }

  /** An arrival that evicts another session's frame loses it. */
  lemma EvictedIsLost(cfg: Config, up: Net, id: Id)
    requires Inv(cfg, up) && Enabled(cfg, up, Arrive(0, Decodes))
    requires PutOpen(up.queue, cfg.depth, cfg.policy, up.up[0]).evicted == [id] && id in multiset(up.queue)
    requires id.session != up.up[0].session
    ensures Lost(Arrived(cfg, up, 0, Decodes), id)
  {
    ArriveFlow(cfg, up, 0);
    FlightSent(cfg, up, id);
    ExactlyOneReply(cfg, up, id);
    assert id in InFlight(up);
    assert EvictionReply(up.up[0], [id]) == [Id(up.up[0].session, id.seqNo)];
    assert multiset([id]) == multiset{id};
  }

  lemma UnsafeBreaks(cfg: Config) returns (run: Run, id: Id)
    requires cfg.Valid() && !Safe(cfg)
    ensures IsRun(cfg, run) && !Inv(cfg, run.nets[|run.steps|]) && Lost(run.nets[|run.steps|], id)
  {
    var n;
    run, n := Fill(cfg, cfg.depth);
    var s := AnotherHasRoom(cfg, n);
    SendKeeps(cfg, n, s, true);
    var up := Sent(n, s, true);
    run := Extend(cfg, run, n, Send(s, true));
    assert up.up == [Id(s, n.next[s])];
    assert PutOpen(up.queue, cfg.depth, cfg.policy, up.up[0]).evicted == [n.queue[0]];
    assert n.queue[0] in [n.queue[0]];
    id := n.queue[0];
    ArriveKeepsIff(cfg, up, 0);
    EvictedIsLost(cfg, up, id);
    run := Extend(cfg, run, up, Arrive(0, Decodes));
  }

  /** Every reachable state keeps the account exactly in the safe configurations. */
  lemma AccountedIffSafe(cfg: Config)
    requires cfg.Valid()
    ensures (forall run, k: nat :: IsRun(cfg, run) && k < |run.nets| ==> Inv(cfg, run.nets[k])) <==> Safe(cfg)
  {
    if Safe(cfg) {
      forall run, k: nat | IsRun(cfg, run) && k < |run.nets| ensures Inv(cfg, run.nets[k]) {
        EveryStateAccounted(cfg, run, k);
      }
    } else {
      var run, id := UnsafeBreaks(cfg);
      assert IsRun(cfg, run) && |run.steps| < |run.nets|;
    }
  }
}
