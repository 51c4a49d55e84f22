/** Whom a queued packet reaches. It is queued for a context, and the context may
    serve another connection by the time the functor runs. */
module ReactorAddressing {
  import opened Wire
  import opened TimerQueue
  import opened Reactor
  import opened ReactorProofs
  import opened ReactorTheorems
  import opened ReactorDelivery

  // ---------------------------------------------------------------- one step

  /** An action opens connections or closes some, not both, and forgets no context. */
  ghost predicate OneWay(s: State, t: State)
  {
    && |s.contexts| <= |t.contexts|
    && (s.conns.Keys <= t.conns.Keys || t.conns.Keys <= s.conns.Keys)
  }

  /** Closing as the only change of the tables. */
  lemma CloseIsOneWay(s: State, fd: int, cause: Cause)
    ensures var t := Close(s, fd, cause); |t.contexts| == |s.contexts| && t.conns.Keys <= s.conns.Keys
  {
    hide Remove;
  }

  lemma ReadIsOneWay(s: State, fd: int, results: seq<ReadResult>)
    ensures var t := Read(s, fd, results); |t.contexts| == |s.contexts| && t.conns.Keys <= s.conns.Keys
  {
    hide ReadLoop, ParseServer, Close;
    ReadLoopKeepsIdentity(s, fd, results);
    var s1 := ReadLoop(s, fd, results).0;
    CloseIsOneWay(s1, fd, OtherCause);
    CloseIsOneWay(DispatchFrames(s1, fd), fd, OtherCause);
  }

  lemma WriteIsOneWay(s: State, fd: int, results: seq<WriteResult>)
    ensures var t := Write(s, fd, results); |t.contexts| == |s.contexts| && t.conns.Keys <= s.conns.Keys
  {
    hide WriteLoop, Close;
    if fd in s.conns && s.conns[fd].ctx < |s.contexts| {
      var (k, _) := WriteLoop(|s.contexts[s.conns[fd].ctx].sendBuf|, results);
      CloseIsOneWay(WroteBytes(s, fd, k), fd, OtherCause);
    }
  }

  lemma RunFunctorIsOneWay(s: State, tick: int)
    requires Inv(s) && s.running != []
    ensures OneWay(s, RunFunctor(s, tick))
  {
    hide Inv, TablesAgree, PoolConsistent, Open, Send, Close;
    PopKeepsTables(s, tick);
    var u := s.(running := s.running[1..], now := tick);
    match s.running[0]
    case AddConnection(fd) =>
      HeadIsNew(s);
      var c, o := OpenShape(u, fd, tick);
    case SendPacket(ctx, p) => SendKeepsConns(u, ctx, p);
    case CloseConnection(fd) => CloseIsOneWay(u, fd, OtherCause);
  }

  lemma SendKeepsConns(s: State, ctx: nat, p: Packet)
    ensures var t := Send(s, ctx, p); t.conns == s.conns && |t.contexts| == |s.contexts|
  {
    hide Encode;
  }

  lemma HeadIsNew(s: State)
    requires Inv(s) && s.running != [] && s.running[0].AddConnection?
    ensures s.running[0].fd !in s.conns && s.running[0].fd !in s.heartbeats
  {
    hide LinksMatch, PoolMatch, NodesMatch, ExpiriesMatch, BooksMatch, StreamsMatch, RetiredMatch;
    AddedIsNew(s);
  }

  lemma StepIsOneWay(s: State, e: Event)
    requires Inv(s) && Enabled(s, e)
    ensures OneWay(s, Step(s, e))
  {
    hide Inv, Read, Write, Close, RunFunctor;
    match e
    case Readable(fd, results) => ReadIsOneWay(s, fd, results);
    case Writable(fd, results) => WriteIsOneWay(s, fd, results);
    case Hangup(fd) => CloseIsOneWay(s, fd, OtherCause);
    case CheckTimer(tick) =>
      if s.timers != [] {
        CloseIsOneWay(s.(now := tick), s.timers[0].fd, HeartbeatExpired);
      }
    case RunNext(tick) => RunFunctorIsOneWay(s, tick);
    case _ =>
  }

  /** A context keeps its connection through an action, or is free after it. */
  lemma StepKeepsOrReleases(s: State, e: Event, fd: int)
    requires Inv(s) && Enabled(s, e) && fd in s.conns
    ensures var c, t := s.conns[fd].ctx, Step(s, e);
            && c < |t.contexts|
            && if fd in t.conns then t.conns[fd].ctx == c && t.contexts[c].fd == fd else t.contexts[c].fd == -1
  {
    var c, t := s.conns[fd].ctx, Step(s, e);
    StepIsOneWay(s, e);
    StepKeepsInv(s, e);
    InvLinks(s, fd);
    hide Inv, Step, Enabled;
    if fd in t.conns {
      StepAccepts(s, e, fd);
      InvLinks(t, fd);
    } else if t.contexts[c].fd != -1 {
      var gd := t.contexts[c].fd;
      InvOwner(t, c);
      if gd in s.conns {
        StepAccepts(s, e, gd);
        InvLinks(s, gd);
      }
    }
  }

  // ---------------------------------------------------------------- whole runs

  /** Nobody uses the context. */
  predicate Idle(s: State, c: nat)
  {
    c < |s.contexts| ==> s.contexts[c].fd == -1
  }

  /** Some event of the run gives the context, idle until then, to a new connection. */
  predicate Reacquired(s: State, es: seq<Event>, c: nat)
    decreases es
  {
    es != [] && ((Idle(s, c) && !Idle(Step(s, es[0]), c)) || Reacquired(Step(s, es[0]), es[1..], c))
  }

  lemma {:induction false} IdleUntilReacquired(s: State, es: seq<Event>, c: nat)
    requires Idle(s, c) && !Idle(Run(s, es), c)
    ensures Reacquired(s, es, c)
    decreases es
  {
    hide Step, Idle;
    if Idle(Step(s, es[0]), c) {
      IdleUntilReacquired(Step(s, es[0]), es[1..], c);
    }
  }

  /** While its connection stays, a context is that connection's and is not acquired
      again; a context in use at the end that was not is still its connection's. */
  lemma {:induction false} StaysUnlessReacquired(s: State, es: seq<Event>, fd: int)
    requires Inv(s) && Legal(s, es) && fd in s.conns
    ensures var c, z := s.conns[fd].ctx, Run(s, es);
            && (Stays(s, es, fd) ==> c < |z.contexts| && z.contexts[c].fd == fd && !Reacquired(s, es, c))
            && (!Stays(s, es, fd) && !Idle(z, c) ==> Reacquired(s, es, c))
    decreases es
  {
    hide Inv, Step, Enabled;
    var c := s.conns[fd].ctx;
    InvLinks(s, fd);
    if es != [] {
      var t := Step(s, es[0]);
      StepKeepsOrReleases(s, es[0], fd);
      StepKeepsInv(s, es[0]);
      if fd in t.conns {
        StaysUnlessReacquired(t, es[1..], fd);
      } else {
        assert !Stays(t, es[1..], fd);
        if !Idle(Run(s, es), c) {
          IdleUntilReacquired(t, es[1..], c);
        }
      }
    }
  }

  /** A packet queued for the context of connection `fd` and run after the events `es`:
      nobody gets it if the context is idle then; otherwise the connection that has
      the context then, and no other. That is the connection it was queued for exactly
      if the context was not acquired again in between. */
  lemma PacketReachesItsConnection(s: State, es: seq<Event>, fd: int, p: Packet)
    requires Reachable(s) && Legal(s, es) && fd in s.conns
    ensures var c, z := s.conns[fd].ctx, Run(s, es);
            var t := Send(z, c, p);
            && (Stays(s, es, fd) ==> !Idle(z, c) && z.contexts[c].fd == fd)
            && (Idle(z, c) ==> t == z)
            && (!Idle(z, c) ==>
                  && (Stays(s, es, fd) <==> !Reacquired(s, es, c))
                  && (forall gd :: gd in z.conns && z.conns[gd].ctx != c ==> AcceptedMore(z, t, gd, []))
                  && z.contexts[c].fd in z.conns
                  && AcceptedMore(z, t, z.contexts[c].fd, if Fits(z, c, p) then [p] else []))
  {
    ReachableKeepsInv(s);
    StaysUnlessReacquired(s, es, fd);
    RunKeepsInv(s, es);
    var c, z := s.conns[fd].ctx, Run(s, es);
    InvTables(z);
    hide Run, Legal, Stays, Reacquired, Inv, Reachable, TablesAgree, AcceptedMore, Send, Fits;
    if Idle(z, c) {
      IdleTakesNothing(z, c, p);
    } else {
      InvOwner(z, c);
      SendAccepts(z, c, p, z.contexts[c].fd);
      forall gd | gd in z.conns && z.conns[gd].ctx != c
        ensures AcceptedMore(z, Send(z, c, p), gd, [])
      {
        SendAccepts(z, c, p, gd);
      }
    }
  }

  lemma IdleTakesNothing(s: State, c: nat, p: Packet)
    requires Idle(s, c)
    ensures Send(s, c, p) == s
  {
  }

  lemma InvTables(s: State)
    requires Inv(s)
    ensures TablesAgree(s)
  {
  }

  // ---------------------------------------------------------------- an instance

  /** With a pool of one context: a packet is queued for connection 5, which hangs up
      before the packet's functor runs; connection 6 gets the context and the packet. */
  const ONE_CONTEXT := Config(1, 60000, 1048576)
  const GREETING := Packet(2, 0, [])
  const CONNECTING := [Accept(5), Swap, RunNext(0)]
  const HANDING_ON := [Accept(6), QueueSend(0, GREETING), Hangup(5), Swap, RunNext(0), RunNext(0)]

  /** A reactor whose only context serves connection 5, with its queues empty. */
  ghost predicate ServesFive(s: State)
  {
    && Inv(s) && s.config == ONE_CONTEXT && s.now == 0
    && |s.contexts| == 1 && s.free == [] && s.pending == [] && s.running == []
    && s.conns.Keys == {5} && s.conns[5].ctx == 0 && s.open == {5}
  }

  /** A functor that opens a connection on the only context. */
  lemma OpensOnFree(s: State, fd: int)
    requires Inv(s) && s.running != [] && s.running[0] == AddConnection(fd)
    requires s.now == 0 && |s.contexts| == 1 && s.free == [0]
    ensures var t := Step(s, RunNext(0));
            && Inv(t) && fd !in s.conns
            && t.conns == s.conns[fd := Connection(fd, 0, false)]
            && |t.contexts| == 1 && t.free == [] && t.contexts[0].sendBuf == s.contexts[0].sendBuf
            && fd in t.traces && t.traces[fd].accepted == []
            && t.running == s.running[1..] && t.pending == s.pending
            && t.config == s.config && t.open == s.open && t.now == 0
  {
    hide Inv, TablesAgree, PoolConsistent, Open, Send, Close, Read, Write, TimerCheck, Insert;
    StepKeepsInv(s, RunNext(0));
    PopKeepsTables(s, 0);
    HeadIsNew(s);
    var c, o := OpenShape(s.(running := s.running[1..], now := 0), fd, 0);
  }

  /** Five is accepted and its functor swapped out. */
  lemma FiveArrives() returns (s1: State, s2: State)
    ensures Enabled(Init(ONE_CONTEXT, 0), Accept(5)) && s1 == Step(Init(ONE_CONTEXT, 0), Accept(5))
    ensures Enabled(s1, Swap) && s2 == Step(s1, Swap)
    ensures Inv(s2) && s2.config == ONE_CONTEXT && s2.now == 0 && Enabled(s2, RunNext(0))
    ensures s2.running == [AddConnection(5)] && s2.pending == []
    ensures |s2.contexts| == 1 && s2.free == [0] && s2.open == {5} && s2.conns == map[]
  {
    var s0 := Init(ONE_CONTEXT, 0);
    hide Inv, Close, Read, Write, TimerCheck, RunFunctor;
    InitEstablishesInv(ONE_CONTEXT, 0);
    AcceptKeepsInv(s0, 5);
    s1 := Step(s0, Accept(5));
    SwapKeepsInv(s1);
    assert s1.pending == [AddConnection(5)] && s1.open == {5} && s1.free == [0];
    s2 := Step(s1, Swap);
  }

  lemma FiveConnects()
    ensures Legal(Init(ONE_CONTEXT, 0), CONNECTING)
    ensures ServesFive(Run(Init(ONE_CONTEXT, 0), CONNECTING))
  {
    hide Run, Legal, Inv, Init, Step, Enabled;
    var s0 := Init(ONE_CONTEXT, 0);
    var s1, s2 := FiveArrives();
    OpensOnFree(s2, 5);
    var s3 := Step(s2, RunNext(0));
    assert s3.conns == map[5 := Connection(5, 0, false)];
    assert ServesFive(s3);
    hide ServesFive;
    RunsThrough(CONNECTING, [s0, s1, s2, s3]);
  }

  /** Five hangs up, its context becomes free and empty. */
  lemma FiveHangsUp(s: State)
    requires Inv(s) && s.config == ONE_CONTEXT && |s.contexts| == 1 && s.free == []
    requires s.conns.Keys == {5} && s.conns[5].ctx == 0
    ensures var t := Step(s, Hangup(5));
            && Inv(t) && t.config == s.config && t.now == s.now
            && t.free == [0] && |t.contexts| == 1 && t.contexts[0].sendBuf == []
            && t.conns.Keys == {} && t.open == s.open - {5}
            && t.pending == s.pending && t.running == s.running
  {
    hide Inv, Remove, Close, Read, Write, TimerCheck, RunFunctor, PoolMatch;
    StepKeepsInv(s, Hangup(5));
    InvLinks(s, 5);
    PoolKnows(s);
    CloseByField(s, 5, OtherCause);
    assert {5} - {5} == {};
    assert (s.conns - {5}).Keys == s.conns.Keys - {5};
  }

  lemma PoolKnows(s: State)
    requires Inv(s) && s.config == ONE_CONTEXT && |s.contexts| == 1
    ensures s.contexts[0].poolIdx == 0
  {
    hide LinksMatch, NodesMatch, ExpiriesMatch, BooksMatch, StreamsMatch, RetiredMatch;
  }

  /** The packet queued for connection 5 is accepted by connection 6. */
  lemma RecycledContextTakesPacket()
    ensures var s := Run(Init(ONE_CONTEXT, 0), CONNECTING);
            var z := Run(s, HANDING_ON);
            && Legal(Init(ONE_CONTEXT, 0), CONNECTING) && Legal(s, HANDING_ON)
            && 5 in s.conns && s.conns[5].ctx == 0 && 6 !in s.conns
            && 6 in z.conns && 6 in z.traces && z.traces[6].accepted == [GREETING]
  {
    hide Run, Legal;
    FiveConnects();
    var s := Run(Init(ONE_CONTEXT, 0), CONNECTING);
    GreetingGoesToSix(s);
  }

  /** Six is accepted and the packet queued, then Five hangs up. */
  lemma SixArrives(s: State) returns (s1: State, s2: State, s3: State)
    requires ServesFive(s)
    ensures Enabled(s, Accept(6)) && s1 == Step(s, Accept(6))
    ensures Enabled(s1, QueueSend(0, GREETING)) && s2 == Step(s1, QueueSend(0, GREETING))
    ensures Enabled(s2, Hangup(5)) && s3 == Step(s2, Hangup(5)) && Enabled(s3, Swap)
    ensures Inv(s3) && s3.config == ONE_CONTEXT && s3.now == 0
    ensures s3.pending == [AddConnection(6), SendPacket(0, GREETING)] && s3.running == []
    ensures |s3.contexts| == 1 && s3.free == [0] && s3.contexts[0].sendBuf == []
  {
    hide Inv, Close, Read, Write, TimerCheck, RunFunctor;
    AcceptKeepsInv(s, 6);
    s1 := Step(s, Accept(6));
    PushKeepsInv(s1, SendPacket(0, GREETING));
    s2 := Step(s1, QueueSend(0, GREETING));
    assert s2.pending == [AddConnection(6), SendPacket(0, GREETING)];
    FiveHangsUp(s2);
    s3 := Step(s2, Hangup(5));
  }

  /** Then both functors run. */
  lemma SixTakesPacket(s: State) returns (s4: State, s5: State, s6: State)
    requires Inv(s) && s.config == ONE_CONTEXT && s.now == 0
    requires s.pending == [AddConnection(6), SendPacket(0, GREETING)] && s.running == []
    requires |s.contexts| == 1 && s.free == [0] && s.contexts[0].sendBuf == []
    ensures s4 == Step(s, Swap)
    ensures Enabled(s4, RunNext(0)) && s5 == Step(s4, RunNext(0))
    ensures Enabled(s5, RunNext(0)) && s6 == Step(s5, RunNext(0))
    ensures 6 in s6.conns && 6 in s6.traces && s6.traces[6].accepted == [GREETING]
  {
    hide Inv, RunFunctor, Fitting, Refused;
    SwapKeepsInv(s);
    s4 := Step(s, Swap);
    OpensOnFree(s4, 6);
    s5 := Step(s4, RunNext(0));
    s6 := Step(s5, RunNext(0));
    RunSendAccepts(s5, 0, 6);
    HeadFits(s5, 0, 0);
    assert [] + [GREETING] == [GREETING];
  }

  lemma GreetingGoesToSix(s: State)
    requires ServesFive(s)
    ensures Legal(s, HANDING_ON)
    ensures var z := Run(s, HANDING_ON); 6 in z.conns && 6 in z.traces && z.traces[6].accepted == [GREETING]
  {
    hide Run, Legal, Inv, Step, Enabled, ServesFive;
    var s1, s2, s3 := SixArrives(s);
    var s4, s5, s6 := SixTakesPacket(s3);
    RunsThrough(HANDING_ON, [s, s1, s2, s3, s4, s5, s6]);
  }

  /** A run through given states. */
  lemma {:induction false} RunsThrough(es: seq<Event>, ts: seq<State>)
    requires |ts| == |es| + 1
    requires forall i :: 0 <= i < |es| ==> Enabled(ts[i], es[i]) && Step(ts[i], es[i]) == ts[i + 1]
    ensures Legal(ts[0], es) && Run(ts[0], es) == ts[|es|]
  {
    hide Step, Enabled;
    if es != [] {
      RunsThrough(es[1..], ts[1..]);
    }
  }
}
