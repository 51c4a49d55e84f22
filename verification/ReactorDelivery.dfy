/** From the functor queue to the connection, and from the socket to the thread
    pool: which packets a connection accepts, and what a read pass decides. */
module ReactorDelivery {
  import opened Wire
  import opened TimerQueue
  import opened Reactor
  import opened ReactorProofs
  import opened ReactorTheorems

  // ---------------------------------------------------------------- accepted packets

  /** The packets among functors that are addressed to context `c`. */
  function SendsTo(fs: seq<Functor>, c: nat): seq<Packet>
  {
    if fs == [] then []
    else (if fs[0].SendPacket? && fs[0].ctx == c then [fs[0].packet] else []) + SendsTo(fs[1..], c)
  }

  /** `xs` is `ys` with some elements left out. */
  predicate Subsequence(xs: seq<Packet>, ys: seq<Packet>)
    decreases ys
  {
    if xs == [] then true
    else if ys == [] then false
    else if xs[0] == ys[0] && Subsequence(xs[1..], ys[1..]) then true
    else Subsequence(xs, ys[1..])
  }

  lemma {:induction false} SubsequenceAppend(xs: seq<Packet>, ys: seq<Packet>, xs': seq<Packet>, ys': seq<Packet>)
    requires Subsequence(xs, ys) && Subsequence(xs', ys')
    ensures Subsequence(xs + xs', ys + ys')
    decreases ys
  {
    if ys == [] {
      assert xs + xs' == xs' && ys + ys' == ys';
    } else {
      assert (ys + ys')[1..] == ys[1..] + ys';
      if xs == [] {
        SubsequenceAppend([], ys[1..], xs', ys');
      } else if xs[0] == ys[0] && Subsequence(xs[1..], ys[1..]) {
        SubsequenceAppend(xs[1..], ys[1..], xs', ys');
        assert (xs + xs')[1..] == xs[1..] + xs';
      } else {
        SubsequenceAppend(xs, ys[1..], xs', ys');
      }
      SubsequenceWeaken(xs + xs', ys + ys');
    }
  }

  lemma SubsequenceWeaken(xs: seq<Packet>, ys: seq<Packet>)
    requires ys != []
    requires Subsequence(xs, ys[1..]) || (xs != [] && xs[0] == ys[0] && Subsequence(xs[1..], ys[1..]))
    ensures Subsequence(xs, ys)
  {
  }

  lemma {:induction false} SendsToAppend(fs: seq<Functor>, gs: seq<Functor>, c: nat)
    ensures SendsTo(fs + gs, c) == SendsTo(fs, c) + SendsTo(gs, c)
  {
    if fs == [] {
      assert fs + gs == gs;
    } else {
      assert (fs + gs)[1..] == fs[1..] + gs;
      SendsToAppend(fs[1..], gs, c);
    }
  }

  /** There is room for the packet in the send buffer of context `c`. */
  predicate Fits(s: State, c: nat, p: Packet)
  {
    c < |s.contexts| && |s.contexts[c].sendBuf| + HEADER_SIZE + |p.body| <= s.config.maxSendBuf
  }

  /** The packet for context `c` whose functor an event runs, if there is room for it
      then, and if there is none. */
  function Fitting(s: State, e: Event, c: nat): seq<Packet>
  {
    var ps := SendsTo(Executed(s, e), c);
    if ps != [] && Fits(s, c, ps[0]) then ps else []
  }

  function Refused(s: State, e: Event, c: nat): seq<Packet>
  {
    var ps := SendsTo(Executed(s, e), c);
    if ps != [] && !Fits(s, c, ps[0]) then ps else []
  }

  function FittingBy(s: State, es: seq<Event>, c: nat): seq<Packet>
    decreases es
  {
    if es == [] then [] else Fitting(s, es[0], c) + FittingBy(Step(s, es[0]), es[1..], c)
  }

  function RefusedBy(s: State, es: seq<Event>, c: nat): seq<Packet>
    decreases es
  {
    if es == [] then [] else Refused(s, es[0], c) + RefusedBy(Step(s, es[0]), es[1..], c)
  }

  lemma FitsOrRefused(s: State, e: Event, c: nat)
    ensures var ps, fit, no := SendsTo(Executed(s, e), c), Fitting(s, e, c), Refused(s, e, c);
            || (fit == ps && no == [])
            || (fit == [] && no == ps && ps != [])
    ensures Subsequence(Fitting(s, e, c), SendsTo(Executed(s, e), c))
  {
    SubsequenceSelf(SendsTo(Executed(s, e), c));
  }

  lemma {:induction false} SubsequenceSelf(xs: seq<Packet>)
    ensures Subsequence(xs, xs)
  {
    if xs != [] {
      SubsequenceSelf(xs[1..]);
    }
  }

  lemma Together(fit: seq<Packet>, no: seq<Packet>, all: seq<Packet>,
                 fits: seq<Packet>, nos: seq<Packet>, alls: seq<Packet>)
    requires (fit == all && no == []) || (fit == [] && no == all && all != [])
    requires Subsequence(fit, all) && Subsequence(fits, alls)
    requires |fits| + |nos| == |alls| && multiset(fits) + multiset(nos) == multiset(alls)
    requires fits == alls <==> nos == []
    ensures Subsequence(fit + fits, all + alls)
    ensures |fit + fits| + |no + nos| == |all + alls|
    ensures multiset(fit + fits) + multiset(no + nos) == multiset(all + alls)
    ensures fit + fits == all + alls <==> no + nos == []
  {
    SubsequenceAppend(fit, all, fits, alls);
    hide Subsequence;
    if fit + fits == all + alls {
      assert |no + nos| == 0;
    }
  }

  /** Each packet that reached its functor either fitted or was refused; those that
      fitted keep their order, and they are all exactly if none was refused. */
  lemma {:induction false} AllFitOrRefused(s: State, es: seq<Event>, c: nat)
    ensures var all, fit, no := SendsTo(ExecutedBy(s, es), c), FittingBy(s, es, c), RefusedBy(s, es, c);
            && Subsequence(fit, all)
            && |fit| + |no| == |all|
            && multiset(fit) + multiset(no) == multiset(all)
            && (fit == all <==> no == [])
    decreases es
  {
    hide Step, Executed, Fitting, Refused;
    if es != [] {
      var e, t := es[0], Step(s, es[0]);
      FitsOrRefused(s, e, c);
      AllFitOrRefused(t, es[1..], c);
      SendsToAppend(Executed(s, e), ExecutedBy(t, es[1..]), c);
      assert FittingBy(s, es, c) == Fitting(s, e, c) + FittingBy(t, es[1..], c);
      assert RefusedBy(s, es, c) == Refused(s, e, c) + RefusedBy(t, es[1..], c);
      hide SendsTo, ExecutedBy, Subsequence, FittingBy, RefusedBy;
      Together(Fitting(s, e, c), Refused(s, e, c), SendsTo(Executed(s, e), c),
               FittingBy(t, es[1..], c), RefusedBy(t, es[1..], c), SendsTo(ExecutedBy(t, es[1..]), c));
    }
  }

  /** The connection of `fd` is there before and after every event. */
  predicate Stays(s: State, es: seq<Event>, fd: int)
    decreases es
  {
    fd in s.conns && (es == [] || Stays(Step(s, es[0]), es[1..], fd))
  }

  /** `t` has the same connection under `fd`, with `more` accepted besides. */
  ghost predicate AcceptedMore(s: State, t: State, fd: int, more: seq<Packet>)
  {
    && fd in s.conns && fd in t.conns && t.conns[fd] == s.conns[fd]
    && fd in s.traces && fd in t.traces && t.traces[fd].accepted == s.traces[fd].accepted + more
  }

  lemma {:induction false} ReadLoopAcceptsNothing(s: State, gd: int, results: seq<ReadResult>, fd: int)
    requires fd in s.conns && fd in s.traces
    ensures AcceptedMore(s, ReadLoop(s, gd, results).0, fd, [])
    decreases results
  {
    hide StartHeartbeat;
    assert s.traces[fd].accepted + [] == s.traces[fd].accepted;
    if results != [] && results[0].Data? && results[0].bytes != [] {
      var u := ReadBytes(s, gd, results[0].bytes, results[0].tick);
      ReadBytesAcceptsNothing(s, gd, results[0].bytes, results[0].tick, fd);
      ReadLoopAcceptsNothing(u, gd, results[1..], fd);
    }
  }

  lemma ReadBytesAcceptsNothing(s: State, gd: int, bytes: seq<byte>, tick: int, fd: int)
    requires fd in s.conns && fd in s.traces
    ensures AcceptedMore(s, ReadBytes(s, gd, bytes, tick), fd, [])
  {
    hide Insert, Remove;
    assert s.traces[fd].accepted + [] == s.traces[fd].accepted;
  }

  lemma CloseAcceptsNothing(s: State, gd: int, cause: Cause, fd: int)
    requires fd in s.conns && fd in s.traces
    ensures fd in Close(s, gd, cause).conns ==> AcceptedMore(s, Close(s, gd, cause), fd, [])
  {
    hide Remove;
    assert s.traces[fd].accepted + [] == s.traces[fd].accepted;
  }

  lemma ReadAcceptsNothing(s: State, gd: int, results: seq<ReadResult>, fd: int)
    requires fd in s.conns && fd in s.traces && fd in Read(s, gd, results).conns
    ensures AcceptedMore(s, Read(s, gd, results), fd, [])
  {
    hide ReadLoop, ParseServer, Close;
    ReadLoopAcceptsNothing(s, gd, results, fd);
    var s1 := ReadLoop(s, gd, results).0;
    var s2 := DispatchFrames(s1, gd);
    assert s.traces[fd].accepted + [] == s.traces[fd].accepted;
    CloseAcceptsNothing(s1, gd, OtherCause, fd);
    CloseAcceptsNothing(s2, gd, OtherCause, fd);
  }

  lemma WroteAcceptsNothing(s: State, gd: int, k: nat, fd: int)
    requires fd in s.conns && fd in s.traces
    ensures AcceptedMore(s, WroteBytes(s, gd, k), fd, [])
    ensures AcceptedMore(s, StopWriting(WroteBytes(s, gd, k), gd), fd, [])
  {
    assert s.traces[fd].accepted + [] == s.traces[fd].accepted;
  }

  lemma WriteAcceptsNothing(s: State, gd: int, results: seq<WriteResult>, fd: int)
    requires fd in s.conns && fd in s.traces && fd in Write(s, gd, results).conns
    ensures AcceptedMore(s, Write(s, gd, results), fd, [])
  {
    hide WriteLoop, Close, WroteBytes, StopWriting;
    assert s.traces[fd].accepted + [] == s.traces[fd].accepted;
    if gd in s.conns && s.conns[gd].ctx < |s.contexts| {
      var (k, _) := WriteLoop(|s.contexts[s.conns[gd].ctx].sendBuf|, results);
      WroteAcceptsNothing(s, gd, k, fd);
      CloseAcceptsNothing(WroteBytes(s, gd, k), gd, OtherCause, fd);
    }
  }

  lemma AddAcceptsNothing(s: State, gd: int, tick: int, fd: int)
    requires PoolConsistent(s) && fd in s.conns && fd in s.traces && gd != fd
    ensures AcceptedMore(s, Open(s, gd, tick), fd, [])
  {
    hide Attach, StartHeartbeat, PoolConsistent, Insert, Remove;
    var c, a := AttachShape(s, gd, tick);
    StartByField(a, gd, tick);
    assert s.traces[fd].accepted + [] == s.traces[fd].accepted;
  }

  /** A packet goes to the connection of its context if it fits; if it does not, a
      close is queued. */
  lemma SendAccepts(s: State, ctx: nat, p: Packet, fd: int)
    requires TablesAgree(s) && fd in s.conns
    ensures AcceptedMore(s, Send(s, ctx, p), fd, if ctx == s.conns[fd].ctx && Fits(s, ctx, p) then [p] else [])
    ensures ctx == s.conns[fd].ctx && !Fits(s, ctx, p) ==> Send(s, ctx, p) == Push(s, CloseConnection(fd))
  {
    LinkFacts(s, fd);
    hide Encode;
    assert s.traces[fd].accepted + [] == s.traces[fd].accepted;
    if ctx != s.conns[fd].ctx && ctx < |s.contexts| && s.contexts[ctx].fd in s.conns {
      LinkFacts(s, s.contexts[ctx].fd);
      OwnerLinks(s, ctx);
    }
    hide TablesAgree;
  }

  lemma OwnerLinks(s: State, c: nat)
    requires TablesAgree(s) && c < |s.contexts| && s.contexts[c].fd in s.conns
    ensures s.conns[s.contexts[c].fd].ctx == c
  {
  }

  lemma PopKeepsTables(s: State, tick: int)
    requires Inv(s) && s.running != []
    ensures var u := s.(running := s.running[1..], now := tick); TablesAgree(u) && PoolConsistent(u)
  {
    hide LinksMatch, PoolMatch, NodesMatch, ExpiriesMatch, BooksMatch, StreamsMatch, RetiredMatch;
  }

  /** What the oldest functor brings for context `c`. */
  lemma HeadFits(s: State, tick: int, c: nat)
    requires s.running != []
    ensures var f, e := s.running[0], RunNext(tick);
            if f.SendPacket? && f.ctx == c then
              if Fits(s, c, f.packet) then Fitting(s, e, c) == [f.packet] && Refused(s, e, c) == []
              else Fitting(s, e, c) == [] && Refused(s, e, c) == [f.packet]
            else
              Fitting(s, e, c) == [] && Refused(s, e, c) == []
  {
    var f := s.running[0];
    assert s.running[..1] == [f] && [f][1..] == [];
    assert SendsTo([f], c) == if f.SendPacket? && f.ctx == c then [f.packet] else [];
  }

  lemma RunAddAccepts(s: State, tick: int, fd: int)
    requires Inv(s) && s.running != [] && s.running[0].AddConnection? && fd in s.conns
    ensures AcceptedMore(s, RunFunctor(s, tick), fd, [])
  {
    assert DescriptorsAgree(s);
    hide Inv, TablesAgree, PoolConsistent, DescriptorsAgree, Open, Send, Close;
    AddedIsNew(s);
    InvLinks(s, fd);
    PopKeepsTables(s, tick);
    AddAcceptsNothing(s.(running := s.running[1..], now := tick), s.running[0].fd, tick, fd);
  }

  lemma RunSendAccepts(s: State, tick: int, fd: int)
    requires Inv(s) && s.running != [] && s.running[0].SendPacket? && fd in s.conns
    ensures AcceptedMore(s, RunFunctor(s, tick), fd, Fitting(s, RunNext(tick), s.conns[fd].ctx))
    ensures Refused(s, RunNext(tick), s.conns[fd].ctx) != [] ==>
              RunFunctor(s, tick).pending == s.pending + [CloseConnection(fd)]
  {
    hide Inv, TablesAgree, PoolConsistent, Open, Send, Close;
    PopKeepsTables(s, tick);
    HeadFits(s, tick, s.conns[fd].ctx);
    hide Fitting, Refused;
    var f := s.running[0];
    SendAccepts(s.(running := s.running[1..], now := tick), f.ctx, f.packet, fd);
  }

  lemma RunCloseAccepts(s: State, tick: int, fd: int)
    requires Inv(s) && s.running != [] && s.running[0].CloseConnection?
    requires fd in s.conns && fd in RunFunctor(s, tick).conns
    ensures AcceptedMore(s, RunFunctor(s, tick), fd, [])
  {
    hide Inv, Open, Send, Close;
    InvLinks(s, fd);
    CloseAcceptsNothing(s.(running := s.running[1..], now := tick), s.running[0].fd, OtherCause, fd);
  }

  /** Running a functor accepts its packet on the connection of its context, if it
      fits, and nothing anywhere else. */
  lemma RunFunctorAccepts(s: State, tick: int, fd: int)
    requires Inv(s) && s.running != [] && fd in s.conns && fd in RunFunctor(s, tick).conns
    ensures AcceptedMore(s, RunFunctor(s, tick), fd, Fitting(s, RunNext(tick), s.conns[fd].ctx))
    ensures Refused(s, RunNext(tick), s.conns[fd].ctx) != [] ==>
              RunFunctor(s, tick).pending == s.pending + [CloseConnection(fd)]
  {
    HeadFits(s, tick, s.conns[fd].ctx);
    hide Inv, RunFunctor, AcceptedMore, Fitting, Refused;
    match s.running[0]
    case AddConnection(_) => RunAddAccepts(s, tick, fd);
    case SendPacket(_, _) => RunSendAccepts(s, tick, fd);
    case CloseConnection(_) => RunCloseAccepts(s, tick, fd);
  }

  lemma CheckAcceptsNothing(s: State, tick: int, fd: int)
    requires fd in s.conns && fd in s.traces && fd in TimerCheck(s, tick).conns
    ensures AcceptedMore(s, TimerCheck(s, tick), fd, [])
  {
    hide Close;
    assert s.traces[fd].accepted + [] == s.traces[fd].accepted;
    if s.timers != [] {
      CloseAcceptsNothing(s.(now := tick), s.timers[0].fd, HeartbeatExpired, fd);
    }
  }

  lemma StepAccepts(s: State, e: Event, fd: int)
    requires Inv(s) && Enabled(s, e) && fd in s.conns && fd in Step(s, e).conns
    ensures AcceptedMore(s, Step(s, e), fd, Fitting(s, e, s.conns[fd].ctx))
    ensures Refused(s, e, s.conns[fd].ctx) != [] ==> Queued(s, e) == [CloseConnection(fd)]
  {
    hide Inv, AcceptedMore, RunFunctor, Fitting, Refused, Read, Write, Close, TimerCheck;
    if e.RunNext? {
      RunFunctorAccepts(s, e.tick, fd);
      assert [] + [CloseConnection(fd)] == [CloseConnection(fd)];
    } else {
      NothingRuns(s, e, s.conns[fd].ctx);
      QuietStepAccepts(s, e, fd);
    }
  }

  lemma NothingRuns(s: State, e: Event, c: nat)
    requires !e.RunNext?
    ensures Fitting(s, e, c) == [] && Refused(s, e, c) == []
  {
  }

  lemma QuietStepAccepts(s: State, e: Event, fd: int)
    requires Inv(s) && !e.RunNext? && fd in s.conns && fd in Step(s, e).conns
    ensures AcceptedMore(s, Step(s, e), fd, [])
  {
    hide Inv, Read, Write, Close, TimerCheck, RunFunctor;
    InvLinks(s, fd);
    assert s.traces[fd].accepted + [] == s.traces[fd].accepted;
    match e
    case Readable(gd, results) => ReadAcceptsNothing(s, gd, results, fd);
    case Writable(gd, results) => WriteAcceptsNothing(s, gd, results, fd);
    case Hangup(gd) => CloseAcceptsNothing(s, gd, OtherCause, fd);
    case CheckTimer(tick) => CheckAcceptsNothing(s, tick, fd);
    case _ =>
  }

  /** While a connection stays, it accepts exactly the packets sent to its context
      that fitted when their functors ran, in that order, which is the order they
      were queued. A packet that did not fit queued a close of the connection. */
  lemma {:induction false} AcceptedFollowQueueOrder(s: State, es: seq<Event>, fd: int)
    requires Inv(s) && Legal(s, es) && Stays(s, es, fd)
    ensures AcceptedMore(s, Run(s, es), fd, FittingBy(s, es, s.conns[fd].ctx))
    ensures RefusedBy(s, es, s.conns[fd].ctx) != [] ==> CloseConnection(fd) in QueuedBy(s, es)
    decreases es
  {
    hide Inv, Step, Enabled, Fitting, Refused, Queued;
    if es == [] {
      InvKnows(s, fd);
    } else {
      var t, c := Step(s, es[0]), s.conns[fd].ctx;
      StepAccepts(s, es[0], fd);
      StepKeepsInv(s, es[0]);
      AcceptedFollowQueueOrder(t, es[1..], fd);
      var first, rest := Fitting(s, es[0], c), FittingBy(t, es[1..], c);
      assert s.traces[fd].accepted + first + rest == s.traces[fd].accepted + (first + rest);
    }
  }

  lemma {:induction false} RunAppend(s: State, es: seq<Event>, fs: seq<Event>)
    requires Legal(s, es) && Legal(Run(s, es), fs)
    ensures Legal(s, es + fs) && Run(s, es + fs) == Run(Run(s, es), fs)
    decreases es
  {
    hide Step, Enabled;
    if es == [] {
      assert es + fs == fs;
    } else {
      assert (es + fs)[1..] == es[1..] + fs;
      RunAppend(Step(s, es[0]), es[1..], fs);
    }
  }

  lemma ReachableStays(s: State, es: seq<Event>)
    requires Reachable(s) && Legal(s, es)
    ensures Reachable(Run(s, es))
  {
    hide Run, Legal, Init;
    var config: Config, start: int, before: seq<Event> :|
      Legal(Init(config, start), before) && s == Run(Init(config, start), before);
    RunAppend(Init(config, start), before, es);
  }

  /** The packets queued for context `c` when the run starts or during it. */
  function QueuedFor(s: State, es: seq<Event>, c: nat): seq<Packet>
  {
    SendsTo(s.running + s.pending + QueuedBy(s, es), c)
  }

  /** They have run in order, up to those still waiting. */
  lemma QueuedRunOrWait(s: State, es: seq<Event>, c: nat)
    requires Legal(s, es)
    ensures var z := Run(s, es);
            QueuedFor(s, es, c) == SendsTo(ExecutedBy(s, es), c) + SendsTo(z.running + z.pending, c)
  {
    FunctorsAreFifo(s, es);
    var z := Run(s, es);
    SendsToAppend(ExecutedBy(s, es), z.running + z.pending, c);
  }

  lemma SubsequenceOfMore(xs: seq<Packet>, ys: seq<Packet>, zs: seq<Packet>)
    requires Subsequence(xs, ys)
    ensures Subsequence(xs, ys + zs)
  {
    SubsequenceAppend(xs, ys, [], zs);
    assert xs + [] == xs;
  }

  /** The fitting packets among the queued ones. */
  lemma FittingFromQueue(s: State, es: seq<Event>, fd: int, c: nat)
    requires Legal(s, es)
    requires RefusedBy(s, es, c) != [] ==> CloseConnection(fd) in QueuedBy(s, es)
    ensures Subsequence(FittingBy(s, es, c), QueuedFor(s, es, c))
    ensures CloseConnection(fd) !in QueuedBy(s, es) ==> FittingBy(s, es, c) <= QueuedFor(s, es, c)
    ensures CloseConnection(fd) !in QueuedBy(s, es) && Run(s, es).running == [] && Run(s, es).pending == [] ==>
              FittingBy(s, es, c) == QueuedFor(s, es, c)
  {
    hide Run, Legal, FittingBy, RefusedBy, SendsTo, ExecutedBy, QueuedBy, QueuedFor, Subsequence;
    var z := Run(s, es);
    var ran, waiting := SendsTo(ExecutedBy(s, es), c), SendsTo(z.running + z.pending, c);
    AllFitOrRefused(s, es, c);
    QueuedRunOrWait(s, es, c);
    SubsequenceOfMore(FittingBy(s, es, c), ran, waiting);
    if z.running == [] && z.pending == [] {
      NothingWaits(z, c);
      assert ran + [] == ran;
    }
  }

  lemma NothingWaits(s: State, c: nat)
    requires s.running == [] && s.pending == []
    ensures SendsTo(s.running + s.pending, c) == []
  {
    assert s.running + s.pending == [];
  }

  /** From queue to client, for all packets queued for the context of a connection
      while it stays. The client has handed on, in order and unchanged, a prefix of
      those that fitted when they ran. Unless a close of the connection was queued
      that is a prefix of all of them, and it is all of them once the queues and the
      send buffer are empty and nothing is in transit. */
  lemma QueueToClient(s: State, es: seq<Event>, fd: int, chunks: seq<seq<byte>>)
    requires Reachable(s) && Legal(s, es) && Stays(s, es, fd)
    requires fd in s.conns && fd in s.traces && s.traces[fd].accepted == []
    requires fd in Run(s, es).traces && Concat(chunks) <= Run(s, es).traces[fd].written
    ensures var c, ctx, z := ClientFeed(ClientParse([], [], false), chunks), s.conns[fd].ctx, Run(s, es);
            && !c.broken && ctx < |z.contexts|
            && Packets(c.items) <= FittingBy(s, es, ctx)
            && Subsequence(FittingBy(s, es, ctx), QueuedFor(s, es, ctx))
            && (Concat(chunks) == z.traces[fd].written && z.contexts[ctx].sendBuf == [] ==>
                  Packets(c.items) == FittingBy(s, es, ctx))
            && (CloseConnection(fd) !in QueuedBy(s, es) ==> Packets(c.items) <= QueuedFor(s, es, ctx))
            && (CloseConnection(fd) !in QueuedBy(s, es) && z.running == [] && z.pending == []
                && Concat(chunks) == z.traces[fd].written && z.contexts[ctx].sendBuf == [] ==>
                  Packets(c.items) == QueuedFor(s, es, ctx))
  {
    ReachableKeepsInv(s);
    ReachableStays(s, es);
    hide Inv, Reachable, Run, Legal, Stays, FittingBy, RefusedBy, QueuedFor, QueuedBy, Subsequence;
    hide ClientFeed, Packets, Frames;
    AcceptedFollowQueueOrder(s, es, fd);
    FittingFromQueue(s, es, fd, s.conns[fd].ctx);
    assert [] + FittingBy(s, es, s.conns[fd].ctx) == FittingBy(s, es, s.conns[fd].ctx);
    ClientSeesAcceptedPackets(Run(s, es), fd, chunks);
  }

  lemma InvKnows(s: State, fd: int)
    requires Inv(s) && fd in s.conns
    ensures AcceptedMore(s, s, fd, [])
  {
    assert TablesAgree(s);
    hide Inv;
    assert s.traces[fd].accepted + [] == s.traces[fd].accepted;
  }

  // ---------------------------------------------------------------- the verdict of a read pass

  /** The bytes a pass reads: those of the reads before the one that ends it. */
  function BytesOf(results: seq<ReadResult>): seq<byte>
  {
    if results == [] || !results[0].Data? || results[0].bytes == [] then []
    else results[0].bytes + BytesOf(results[1..])
  }

  /** When the last of these bytes came, or `before` if there are none. */
  function LastTick(results: seq<ReadResult>, before: int): int
  {
    if results == [] || !results[0].Data? || results[0].bytes == [] then before
    else LastTick(results[1..], results[0].tick)
  }

  /** A pass of reads that all return bytes, up to the one that would block. Any other
      pass ends in end of file or an error. */
  predicate EndsBlocked(results: seq<ReadResult>)
  {
    results == [] || results[0].ReadBlocked? ||
    (results[0].Data? && results[0].bytes != [] && EndsBlocked(results[1..]))
  }

  lemma {:induction false} ReadLoopReceives(s: State, fd: int, results: seq<ReadResult>)
    requires Known(s, fd) && fd in s.conns
    ensures var (t, lost) := ReadLoop(s, fd, results);
            && lost == !EndsBlocked(results) && fd in t.traces
            && t.traces[fd] == s.traces[fd].(received := s.traces[fd].received + BytesOf(results),
                                             lastRead := LastTick(results, s.traces[fd].lastRead))
            && t.retired == s.retired && t.open == s.open && t.connCount == s.connCount
    decreases results
  {
    hide ReadBytes;
    var r := s.traces[fd].received;
    if results != [] && results[0].Data? && results[0].bytes != [] {
      ReadBytesReceives(s, fd, results[0].bytes, results[0].tick);
      ReadLoopReceives(ReadBytes(s, fd, results[0].bytes, results[0].tick), fd, results[1..]);
      assert r + results[0].bytes + BytesOf(results[1..]) == r + (results[0].bytes + BytesOf(results[1..]));
    } else {
      assert r + [] == r;
    }
  }

  lemma ReadBytesReceives(s: State, fd: int, bytes: seq<byte>, tick: int)
    requires Known(s, fd) && fd in s.conns
    ensures var t := ReadBytes(s, fd, bytes, tick);
            && Known(t, fd) && fd in t.conns && fd in t.traces
            && t.retired == s.retired && t.open == s.open && t.connCount == s.connCount
            && t.traces[fd] == s.traces[fd].(received := s.traces[fd].received + bytes, lastRead := tick)
  {
    hide Insert, Remove;
  }

  /** From `s` to `t` connection `fd` was closed: it is gone everywhere, counted out, and
      this is how it ended. */
  ghost predicate ClosedWith(s: State, t: State, fd: int, trace: Trace, cause: Cause)
  {
    && fd !in t.conns && fd !in t.open && fd !in t.heartbeats && fd !in t.interest
    && t.connCount == s.connCount - 1
    && |t.retired| == |s.retired| + 1 && s.retired <= t.retired
    && t.retired[|s.retired|] == Retired(trace, cause, t.now)
  }

  lemma CloseCloses(s: State, fd: int, cause: Cause)
    requires Known(s, fd) && fd in s.conns
    ensures ClosedWith(s, Close(s, fd, cause), fd, s.traces[fd], cause)
  {
    hide Close, Remove;
    CloseByField(s, fd, cause);
  }

  /** A pass that ends in end of file or an error closes and dispatches nothing. */
  lemma FailedPassCloses(s: State, fd: int, results: seq<ReadResult>)
    requires Inv(s) && fd in s.conns && fd in s.traces && TicksFrom(s.now, results) && !EndsBlocked(results)
    ensures var was := s.traces[fd];
            ClosedWith(s, Read(s, fd, results), fd,
                       was.(received := was.received + BytesOf(results), lastRead := LastTick(results, was.lastRead)),
                       OtherCause)
  {
    hide Inv, MidRead, ReadLoop, ParseServer, Close;
    StartOfRead(s, fd);
    InvLinks(s, fd);
    ReadLoopKeepsMid(s, fd, results);
    ReadLoopReceives(s, fd, results);
    var (s1, lost) := ReadLoop(s, fd, results);
    MidReadKnows(s1, fd);
    CloseCloses(s1, fd, OtherCause);
  }

  /** A pass that empties the socket dispatches what one parse of everything received so
      far dispatches, and closes exactly if that parse rejects. */
  lemma BlockedPassDecides(s: State, fd: int, results: seq<ReadResult>)
    requires Inv(s) && fd in s.conns && fd in s.traces && TicksFrom(s.now, results) && EndsBlocked(results)
    ensures var was, t := s.traces[fd], Read(s, fd, results);
            var whole := ParseServer(was.received + BytesOf(results));
            var now := was.(received := was.received + BytesOf(results),
                            lastRead := LastTick(results, was.lastRead), dispatched := whole.frames);
            if whole.rejected then ClosedWith(s, t, fd, now, OtherCause)
            else fd in t.conns && fd in t.traces && t.traces[fd] == now && t.retired == s.retired
  {
    hide Inv, MidRead, ReadLoop, ParseServer, Close;
    StartOfRead(s, fd);
    InvLinks(s, fd);
    ReadLoopKeepsMid(s, fd, results);
    ReadLoopKeepsIdentity(s, fd, results);
    ReadLoopReceives(s, fd, results);
    var (s1, lost) := ReadLoop(s, fd, results);
    MidReadKnows(s1, fd);
    MidReadParse(s1, fd);
    CloseCloses(DispatchFrames(s1, fd), fd, OtherCause);
  }

  /** What a read pass means for its connection. It closes exactly if the pass ends in
      end of file or an error, or one parse of everything received so far rejects. The
      frames of that parse are dispatched unless the pass failed; then none are. A
      connection that stays is next due an interval after its last bytes. */
  lemma ReadPassDecides(s: State, fd: int, results: seq<ReadResult>)
    requires Inv(s) && fd in s.conns && fd in s.traces && TicksFrom(s.now, results)
    ensures var was, t := s.traces[fd], Read(s, fd, results);
            var whole := ParseServer(was.received + BytesOf(results));
            var now := was.(received := was.received + BytesOf(results),
                            lastRead := LastTick(results, was.lastRead),
                            dispatched := if EndsBlocked(results) then whole.frames else was.dispatched);
            && (fd !in t.conns <==> !EndsBlocked(results) || whole.rejected)
            && (fd !in t.conns ==> ClosedWith(s, t, fd, now, OtherCause))
            && (fd in t.conns ==>
                  && fd in t.traces && t.traces[fd] == now && t.retired == s.retired
                  && fd in t.heartbeats && t.heartbeats[fd].expire == now.lastRead + s.config.heartbeatMs)
  {
    hide Inv, Read, ParseServer;
    if EndsBlocked(results) {
      BlockedPassDecides(s, fd, results);
      ReadKeepsInv(s, fd, results);
      ReadKeepsConfig(s, fd, results);
      if fd in Read(s, fd, results).conns {
        NextDue(Read(s, fd, results), fd);
      }
    } else {
      FailedPassCloses(s, fd, results);
    }
  }

  lemma NextDue(s: State, fd: int)
    requires Inv(s) && fd in s.conns
    ensures fd in s.heartbeats && fd in s.traces
    ensures s.heartbeats[fd].expire == s.traces[fd].lastRead + s.config.heartbeatMs
  {
    hide LinksMatch, PoolMatch, NodesMatch, BooksMatch, StreamsMatch, RetiredMatch;
  }

  lemma {:induction false} ReadLoopKeepsConfig(s: State, fd: int, results: seq<ReadResult>)
    ensures ReadLoop(s, fd, results).0.config == s.config
    decreases results
  {
    hide Insert, Remove;
    if results != [] && results[0].Data? && results[0].bytes != [] {
      ReadLoopKeepsConfig(ReadBytes(s, fd, results[0].bytes, results[0].tick), fd, results[1..]);
    }
  }

  lemma ReadKeepsConfig(s: State, fd: int, results: seq<ReadResult>)
    ensures Read(s, fd, results).config == s.config
  {
    hide ReadLoop, ParseServer, Remove;
    ReadLoopKeepsConfig(s, fd, results);
  }

  /** While a pass is under way, the parse of everything received is what was
      dispatched followed by the parse of the buffer. */
  lemma MidReadParse(s: State, fd: int)
    requires MidRead(s, fd) && fd in s.traces && s.conns[fd].ctx < |s.contexts|
    ensures var q := ParseServer(s.contexts[s.conns[fd].ctx].recvBuf);
            ParseServer(s.traces[fd].received) == ServerParse(s.traces[fd].dispatched + q.frames, q.rest, q.rejected)
  {
    hide InvExcept, StreamsAgree, ParseServer;
  }
}
