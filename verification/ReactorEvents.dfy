/** What each event of the reactor decides, and for whom: when a connection is opened and
    closed, what a write pass does, what is queued, and that nobody else notices. */
module ReactorEvents {
  import opened Common
  import opened Wire
  import opened TimerQueue
  import opened Reactor
  import opened ReactorProofs
  import opened ReactorTheorems
  import opened ReactorDelivery
  import opened ReactorAddressing

  // ---------------------------------------------------------------- write passes

  /** How many bytes the writes of a pass take before one takes none. */
  function Taken(results: seq<WriteResult>): nat
  {
    if results == [] || !results[0].Wrote? || results[0].n == 0 then 0 else results[0].n + Taken(results[1..])
  }

  /** The write that takes none is a failure, and not a full socket. */
  predicate EndsInFailure(results: seq<WriteResult>)
  {
    results != [] && !results[0].WriteBlocked? &&
    (results[0].Wrote? && results[0].n != 0 ==> EndsInFailure(results[1..]))
  }

  /** A write loop writes what the socket takes, up to all it has; it breaks exactly if a
      write fails before that. */
  lemma {:induction false} WriteLoopDecides(size: nat, results: seq<WriteResult>)
    ensures var (k, end) := WriteLoop(size, results);
            && k == (if Taken(results) < size then Taken(results) else size)
            && (end == Flushed <==> size <= Taken(results))
            && (end == Broken <==> Taken(results) < size && EndsInFailure(results))
    decreases results
  {
    if size != 0 && results != [] && results[0].Wrote? && results[0].n != 0 {
      var n := if results[0].n < size then results[0].n else size;
      WriteLoopDecides(size - n, results[1..]);
    }
  }

  /** What a write pass means for its connection: the socket's share leaves the front of
      the buffer. It closes exactly if a write fails with bytes left; otherwise it
      waits for the socket exactly if bytes are left. */
  lemma WritePassDecides(s: State, fd: int, results: seq<WriteResult>)
    requires Inv(s) && fd in s.conns && fd in s.traces && s.conns[fd].ctx < |s.contexts|
    ensures var buf, was, t := s.contexts[s.conns[fd].ctx].sendBuf, s.traces[fd], Write(s, fd, results);
            var k := if Taken(results) < |buf| then Taken(results) else |buf|;
            var now := was.(written := was.written + buf[..k]);
            && (fd !in t.conns <==> k < |buf| && EndsInFailure(results))
            && (fd !in t.conns ==> ClosedWith(s, t, fd, now, OtherCause))
            && (fd in t.conns ==>
                  && t.conns == s.conns && |t.contexts| == |s.contexts| && t.retired == s.retired
                  && fd in t.traces && t.traces[fd] == now
                  && t.contexts[s.conns[fd].ctx].sendBuf == buf[k..]
                  && fd in t.interest && (t.interest[fd] <==> k < |buf|))
  {
    hide Inv, WriteLoop, Close;
    var c := s.conns[fd].ctx;
    WriteLoopDecides(|s.contexts[c].sendBuf|, results);
    WriteKeepsInv(s, fd, results);
    InvLinks(s, fd);
    var (k, end) := WriteLoop(|s.contexts[c].sendBuf|, results);
    CloseCloses(WroteBytes(s, fd, k), fd, OtherCause);
    if end != Broken {
      Armed(Write(s, fd, results), fd);
    }
  }

  lemma Armed(s: State, fd: int)
    requires Inv(s) && fd in s.conns
    ensures fd in s.interest && s.conns[fd].ctx < |s.contexts|
    ensures s.interest[fd] <==> s.contexts[s.conns[fd].ctx].sendBuf != []
  {
    hide Inv, InvExcept, ParseServer, EncodeAll;
    InvAndExcept(s, fd);
  }

  // ---------------------------------------------------------------- who is closed and who is opened

  /** The heartbeat of `fd` is due at `tick` and earlier than all others. */
  ghost predicate DueFirst(s: State, fd: int, tick: int)
  {
    && fd in s.heartbeats && fd in s.traces
    && s.traces[fd].lastRead + s.config.heartbeatMs <= tick
    && forall gd :: gd in s.heartbeats && gd != fd ==> Before(s.heartbeats[fd], s.heartbeats[gd])
  }

  lemma EarliestNode(ns: seq<TimerNode>, hb: map<int, TimerKey>, gid: int, fd: int)
    requires NodesMatch(ns, hb, gid)
    ensures ns != [] && ns[0].fd == fd <==>
            fd in hb && forall gd :: gd in hb && gd != fd ==> Before(hb[fd], hb[gd])
  {
    if ns != [] && ns[0].fd == fd {
      assert ns[0] in ns;
      forall gd | gd in hb && gd != fd
        ensures Before(hb[fd], hb[gd])
      {
        assert TimerNode(hb[gd], gd) in ns;
        var j :| 0 <= j < |ns| && ns[j] == TimerNode(hb[gd], gd);
      }
    } else if fd in hb {
      assert TimerNode(hb[fd], fd) in ns;
      assert ns[0] in ns;
      var gd := ns[0].fd;
      var j :| 0 <= j < |ns| && ns[j] == TimerNode(hb[fd], fd);
      assert Before(ns[0].key, ns[j].key);
      assert !Before(hb[fd], hb[gd]);
    }
  }

  lemma DueFirstIsNode(s: State, tick: int, fd: int)
    requires Inv(s) && fd in s.conns
    ensures DueFirst(s, fd, tick) <==> s.timers != [] && s.timers[0].fd == fd && s.timers[0].key.expire <= tick
  {
    hide Inv, NodesMatch, Before;
    InvNodes(s);
    EarliestNode(s.timers, s.heartbeats, s.gid, fd);
    NextDue(s, fd);
    if s.timers != [] {
      FirstIsLinked(s);
    }
  }

  /** A timer check closes the connection that is due first, if one is. */
  lemma CheckCloses(s: State, tick: int, fd: int)
    requires Inv(s) && fd in s.conns
    ensures fd !in TimerCheck(s, tick).conns <==> DueFirst(s, fd, tick)
    ensures DueFirst(s, fd, tick) ==>
              fd in s.traces && ClosedWith(s, TimerCheck(s, tick), fd, s.traces[fd], HeartbeatExpired)
  {
    hide Inv, Close, DueFirst;
    DueFirstIsNode(s, tick, fd);
    InvLinks(s, fd);
    if s.timers != [] && s.timers[0].key.expire <= tick {
      var gd := s.timers[0].fd;
      FirstIsLinked(s);
      CloseByField(s.(now := tick), gd, HeartbeatExpired);
      if gd == fd {
        CloseCloses(s.(now := tick), fd, HeartbeatExpired);
      }
    }
  }

  lemma InvNodes(s: State)
    requires Inv(s)
    ensures NodesMatch(s.timers, s.heartbeats, s.gid)
  {
  }

  lemma FirstIsLinked(s: State)
    requires Inv(s) && s.timers != []
    ensures var n := s.timers[0];
            && n.fd in s.conns && n.fd in s.heartbeats && s.heartbeats[n.fd] == n.key
            && Known(s, n.fd)
  {
    hide LinksMatch, PoolMatch, ExpiriesMatch, BooksMatch, StreamsMatch, RetiredMatch;
    assert s.timers[0] in s.timers;
    LinkFacts(s, s.timers[0].fd);
  }

  /** The events that close connection `fd`, each with its reason. */
  ghost predicate Closes(s: State, e: Event, fd: int)
    requires fd in s.conns && fd in s.traces && s.conns[fd].ctx < |s.contexts|
  {
    match e
    case Readable(gd, results) =>
      gd == fd && (!EndsBlocked(results) || ParseServer(s.traces[fd].received + BytesOf(results)).rejected)
    case Writable(gd, results) =>
      gd == fd && Taken(results) < |s.contexts[s.conns[fd].ctx].sendBuf| && EndsInFailure(results)
    case Hangup(gd) => gd == fd
    case CheckTimer(tick) => DueFirst(s, fd, tick)
    case RunNext(_) => s.running != [] && s.running[0] == CloseConnection(fd)
    case _ => false
  }

  lemma CloseSparesOthers(s: State, gd: int, cause: Cause, fd: int)
    requires Known(s, gd) && fd in s.conns
    ensures fd !in Close(s, gd, cause).conns <==> gd == fd
  {
    hide Close, Remove;
    CloseByField(s, gd, cause);
    if gd !in s.conns {
      assert Close(s, gd, cause) == s;
    }
  }

  lemma RunFunctorCloses(s: State, tick: int, fd: int)
    requires Inv(s) && s.running != [] && fd in s.conns
    ensures fd !in RunFunctor(s, tick).conns <==> s.running[0] == CloseConnection(fd)
  {
    hide Inv, TablesAgree, PoolConsistent, Open, Send, Close;
    PopKeepsTables(s, tick);
    InvLinks(s, fd);
    var u := s.(running := s.running[1..], now := tick);
    match s.running[0]
    case AddConnection(gd) =>
      HeadIsNew(s);
      var c, o := OpenShape(u, gd, tick);
    case SendPacket(ctx, p) => SendKeepsConns(u, ctx, p);
    case CloseConnection(gd) =>
      if gd in s.conns {
        InvLinks(s, gd);
      }
      CloseSparesOthers(u, gd, OtherCause, fd);
  }

  lemma OtherReadSpares(s: State, gd: int, results: seq<ReadResult>, fd: int)
    requires Inv(s) && gd in s.conns && fd in s.conns && gd != fd && TicksFrom(s.now, results)
    ensures fd in Read(s, gd, results).conns
  {
    hide Inv, MidRead, ReadLoop, ParseServer, Close;
    StartOfRead(s, gd);
    ReadLoopKeepsMid(s, gd, results);
    ReadLoopKeepsIdentity(s, gd, results);
    var s1 := ReadLoop(s, gd, results).0;
    MidReadKnows(s1, gd);
    CloseSparesOthers(s1, gd, OtherCause, fd);
    CloseSparesOthers(DispatchFrames(s1, gd), gd, OtherCause, fd);
  }

  lemma OtherWriteSpares(s: State, gd: int, results: seq<WriteResult>, fd: int)
    requires Inv(s) && gd in s.conns && fd in s.conns && gd != fd
    ensures fd in Write(s, gd, results).conns
  {
    hide Inv, WriteLoop, Close;
    InvLinks(s, gd);
    var (k, _) := WriteLoop(|s.contexts[s.conns[gd].ctx].sendBuf|, results);
    CloseSparesOthers(WroteBytes(s, gd, k), gd, OtherCause, fd);
  }

  /** A connection is closed by an event exactly for one of these reasons. */
  lemma ClosedExactlyWhen(s: State, e: Event, fd: int)
    requires Inv(s) && Enabled(s, e) && fd in s.conns
    ensures fd in s.traces && s.conns[fd].ctx < |s.contexts|
    ensures fd !in Step(s, e).conns <==> Closes(s, e, fd)
  {
    hide Inv, Read, Write, Close, RunFunctor, TimerCheck, DueFirst, ParseServer;
    InvLinks(s, fd);
    match e
    case Readable(gd, results) =>
      if gd == fd {
        ReadPassDecides(s, fd, results);
      } else {
        OtherReadSpares(s, gd, results, fd);
      }
    case Writable(gd, results) =>
      if gd == fd {
        WritePassDecides(s, fd, results);
      } else {
        OtherWriteSpares(s, gd, results, fd);
      }
    case Hangup(gd) =>
      InvLinks(s, gd);
      CloseSparesOthers(s, gd, OtherCause, fd);
    case CheckTimer(tick) => CheckCloses(s, tick, fd);
    case RunNext(tick) => RunFunctorCloses(s, tick, fd);
    case _ =>
  }

  /** A descriptor becomes a connection exactly when its functor runs. */
  lemma OpenedExactlyWhen(s: State, e: Event, fd: int)
    requires Inv(s) && Enabled(s, e) && fd !in s.conns
    ensures fd in Step(s, e).conns <==> e.RunNext? && s.running != [] && s.running[0] == AddConnection(fd)
  {
    hide Inv, Read, Write, Close, RunFunctor;
    match e
    case Readable(gd, results) => ReadIsOneWay(s, gd, results);
    case Writable(gd, results) => WriteIsOneWay(s, gd, results);
    case Hangup(gd) => CloseIsOneWay(s, gd, OtherCause);
    case CheckTimer(tick) =>
      if s.timers != [] {
        CloseIsOneWay(s.(now := tick), s.timers[0].fd, HeartbeatExpired);
      }
    case RunNext(tick) => RunFunctorOpens(s, tick, fd);
    case _ =>
  }

  lemma RunFunctorOpens(s: State, tick: int, fd: int)
    requires Inv(s) && s.running != [] && fd !in s.conns
    ensures fd in RunFunctor(s, tick).conns <==> s.running[0] == AddConnection(fd)
  {
    hide Inv, TablesAgree, PoolConsistent, Open, Send, Close;
    PopKeepsTables(s, tick);
    var u := s.(running := s.running[1..], now := tick);
    match s.running[0]
    case AddConnection(gd) =>
      HeadIsNew(s);
      var c, o := OpenShape(u, gd, tick);
    case SendPacket(ctx, p) => SendKeepsConns(u, ctx, p);
    case CloseConnection(gd) => CloseIsOneWay(u, gd, OtherCause);
  }

  // ---------------------------------------------------------------- nobody else notices

  /** Connection `gd` and all that belongs to it are the same in `t`. */
  ghost predicate Kept(s: State, t: State, gd: int)
  {
    && gd in s.conns && gd in t.conns && t.conns[gd] == s.conns[gd]
    && s.conns[gd].ctx < |s.contexts| && s.conns[gd].ctx < |t.contexts|
    && t.contexts[s.conns[gd].ctx] == s.contexts[s.conns[gd].ctx]
    && gd in s.traces && gd in t.traces && t.traces[gd] == s.traces[gd]
    && gd in s.heartbeats && gd in t.heartbeats && t.heartbeats[gd] == s.heartbeats[gd]
    && gd in s.interest && gd in t.interest && t.interest[gd] == s.interest[gd]
  }

  /** `gd` is a connection with a context of its own. */
  ghost predicate Apart(s: State, fd: int, gd: int)
  {
    gd != fd && Kept(s, s, gd) && (fd in s.conns ==> s.conns[fd].ctx != s.conns[gd].ctx)
  }

  lemma InvApart(s: State, fd: int, gd: int)
    requires Inv(s) && gd in s.conns && gd != fd
    ensures Apart(s, fd, gd)
  {
    hide PoolMatch, NodesMatch, ExpiriesMatch, BooksMatch, StreamsMatch, RetiredMatch;
  }

  lemma CloseKeepsOthers(s: State, fd: int, cause: Cause, gd: int)
    requires Known(s, fd) && Apart(s, fd, gd)
    ensures Kept(s, Close(s, fd, cause), gd)
  {
    hide Close, Remove;
    CloseByField(s, fd, cause);
    if fd !in s.conns {
      assert Close(s, fd, cause) == s;
    }
  }

  lemma ReadBytesKeepsOthers(s: State, fd: int, bytes: seq<byte>, tick: int, gd: int)
    requires Apart(s, fd, gd)
    ensures Kept(s, ReadBytes(s, fd, bytes, tick), gd) && Apart(ReadBytes(s, fd, bytes, tick), fd, gd)
  {
    hide Insert, Remove;
  }

  lemma {:induction false} ReadLoopKeepsOthers(s: State, fd: int, results: seq<ReadResult>, gd: int)
    requires Apart(s, fd, gd)
    ensures var t := ReadLoop(s, fd, results).0; Kept(s, t, gd) && Apart(t, fd, gd)
    decreases results
  {
    if results != [] && results[0].Data? && results[0].bytes != [] {
      hide ReadBytes;
      ReadBytesKeepsOthers(s, fd, results[0].bytes, results[0].tick, gd);
      ReadLoopKeepsOthers(ReadBytes(s, fd, results[0].bytes, results[0].tick), fd, results[1..], gd);
    }
  }

  lemma ReadKeepsOthers(s: State, fd: int, results: seq<ReadResult>, gd: int)
    requires Inv(s) && fd in s.conns && gd in s.conns && gd != fd && TicksFrom(s.now, results)
    ensures Kept(s, Read(s, fd, results), gd)
  {
    hide Inv, MidRead, ReadLoop, ParseServer, Close;
    InvApart(s, fd, gd);
    StartOfRead(s, fd);
    ReadLoopKeepsMid(s, fd, results);
    ReadLoopKeepsOthers(s, fd, results, gd);
    var s1 := ReadLoop(s, fd, results).0;
    MidReadKnows(s1, fd);
    CloseKeepsOthers(s1, fd, OtherCause, gd);
    CloseKeepsOthers(DispatchFrames(s1, fd), fd, OtherCause, gd);
  }

  lemma WroteKeepsOthers(s: State, fd: int, k: nat, gd: int)
    requires Known(s, fd) && Apart(s, fd, gd)
    ensures var t := WroteBytes(s, fd, k);
            Known(t, fd) && Apart(t, fd, gd) && Kept(s, t, gd) && Kept(s, StopWriting(t, fd), gd)
  {
  }

  lemma WriteKeepsOthers(s: State, fd: int, results: seq<WriteResult>, gd: int)
    requires Inv(s) && fd in s.conns && gd in s.conns && gd != fd
    ensures Kept(s, Write(s, fd, results), gd)
  {
    hide Inv, WriteLoop, Close, WroteBytes, StopWriting;
    InvApart(s, fd, gd);
    InvLinks(s, fd);
    var (k, _) := WriteLoop(|s.contexts[s.conns[fd].ctx].sendBuf|, results);
    WroteKeepsOthers(s, fd, k, gd);
    CloseKeepsOthers(WroteBytes(s, fd, k), fd, OtherCause, gd);
  }

  lemma SendKeepsOthers(s: State, ctx: nat, p: Packet, gd: int)
    requires Inv(s) && gd in s.conns && s.conns[gd].ctx != ctx
    ensures Kept(s, Send(s, ctx, p), gd)
  {
    hide Inv, Encode;
    InvApart(s, -1, gd) by {
      InvLinks(s, gd);
    }
    if ctx < |s.contexts| && s.contexts[ctx].fd != -1 {
      InvOwner(s, ctx);
      InvLinks(s, s.contexts[ctx].fd);
    }
  }

  lemma OpenKeepsOthers(s: State, fd: int, tick: int, gd: int)
    requires PoolConsistent(s) && fd !in s.heartbeats && Apart(s, fd, gd)
    requires s.contexts[s.conns[gd].ctx].fd != -1
    ensures Kept(s, Open(s, fd, tick), gd)
  {
    if s.free != [] {
      FreeHasNoFd(s);
    }
    hide Open, PoolMatch, Insert;
    var c, o := OpenShape(s, fd, tick);
  }

  lemma RunFunctorKeepsOthers(s: State, tick: int, gd: int)
    requires Inv(s) && s.running != [] && s.now <= tick && gd in s.conns
    requires s.running[0] != CloseConnection(gd)
    requires s.running[0].SendPacket? ==> s.running[0].ctx != s.conns[gd].ctx
    ensures Kept(s, RunFunctor(s, tick), gd)
  {
    hide Inv, TablesAgree, PoolConsistent, Open, Send, Close;
    PopKeepsTables(s, tick);
    InvLinks(s, gd);
    var u := s.(running := s.running[1..], now := tick);
    match s.running[0]
    case AddConnection(fd) =>
      HeadIsNew(s);
      InvApart(s, fd, gd);
      OpenKeepsOthers(u, fd, tick, gd);
    case SendPacket(ctx, p) =>
      PopOtherKeepsInv(s, tick);
      SendKeepsOthers(u, ctx, p, gd);
    case CloseConnection(fd) =>
      InvApart(s, fd, gd);
      if fd in s.conns {
        InvLinks(s, fd);
      }
      CloseKeepsOthers(u, fd, OtherCause, gd);
  }

  lemma CheckKeepsOthers(s: State, tick: int, gd: int)
    requires Inv(s) && gd in s.conns && gd in TimerCheck(s, tick).conns
    ensures Kept(s, TimerCheck(s, tick), gd)
  {
    hide Inv, Close;
    InvApart(s, -1, gd) by {
      InvLinks(s, gd);
    }
    if s.timers != [] && s.timers[0].key.expire <= tick {
      var fd := s.timers[0].fd;
      FirstIsLinked(s);
      CloseSparesOthers(s.(now := tick), fd, HeartbeatExpired, gd);
      InvApart(s, fd, gd);
      CloseKeepsOthers(s.(now := tick), fd, HeartbeatExpired, gd);
    }
  }

  /** The events that are about connection `gd`. */
  ghost predicate Concerns(s: State, e: Event, gd: int)
    requires gd in s.conns
  {
    match e
    case Readable(fd, _) => fd == gd
    case Writable(fd, _) => fd == gd
    case Hangup(fd) => fd == gd
    case CheckTimer(tick) => DueFirst(s, gd, tick)
    case TaskUpdate(ctx, _, _, _, _) => ctx == s.conns[gd].ctx
    case RunNext(_) =>
      s.running != [] &&
      (s.running[0] == CloseConnection(gd) || (s.running[0].SendPacket? && s.running[0].ctx == s.conns[gd].ctx))
    case _ => false
  }

  /** Isolation: an event that is not about a connection changes nothing of it, neither
      its context and buffers nor its timer, registration or streams. */
  lemma OthersAreKept(s: State, e: Event, gd: int)
    requires Inv(s) && Enabled(s, e) && gd in s.conns && !Concerns(s, e, gd)
    ensures Kept(s, Step(s, e), gd)
  {
    hide Inv, Read, Write, Close, RunFunctor, TimerCheck, DueFirst;
    InvApart(s, -1, gd) by {
      InvLinks(s, gd);
    }
    match e
    case Readable(fd, results) => ReadKeepsOthers(s, fd, results, gd);
    case Writable(fd, results) => WriteKeepsOthers(s, fd, results, gd);
    case Hangup(fd) =>
      InvLinks(s, fd);
      InvApart(s, fd, gd);
      CloseKeepsOthers(s, fd, OtherCause, gd);
    case CheckTimer(tick) =>
      CheckCloses(s, tick, gd);
      CheckKeepsOthers(s, tick, gd);
    case RunNext(tick) => RunFunctorKeepsOthers(s, tick, gd);
    case _ =>
  }

  // ---------------------------------------------------------------- what is queued

  /** What an event hands over: what another thread queues, or the close of a connection
      whose packet does not fit. */
  function HandedOver(s: State, e: Event): seq<Functor>
  {
    match e
    case Accept(fd) => [AddConnection(fd)]
    case QueueSend(ctx, p) => [SendPacket(ctx, p)]
    case QueueClose(fd) => [CloseConnection(fd)]
    case RunNext(_) => if s.running == [] then [] else Overflow(s, s.running[0])
    case _ => []
  }

  function Overflow(s: State, f: Functor): seq<Functor>
  {
    if f.SendPacket? && !Idle(s, f.ctx) && !Fits(s, f.ctx, f.packet) then [CloseConnection(s.contexts[f.ctx].fd)]
    else []
  }

  /** That and nothing else is queued. */
  lemma QueuedExactly(s: State, e: Event)
    requires Inv(s) && Enabled(s, e)
    ensures Queued(s, e) == HandedOver(s, e)
  {
    hide Inv, Read, Write, Close, RunFunctor, TimerCheck, Overflow;
    match e
    case Hangup(fd) => CloseKeepsQueues(s, fd, OtherCause);
    case CheckTimer(tick) => CheckKeepsQueues(s, tick);
    case Readable(fd, results) => ReadKeepsQueues(s, fd, results);
    case Writable(fd, results) => WriteKeepsQueues(s, fd, results);
    case RunNext(tick) => RunFunctorQueues(s, tick);
    case _ =>
  }

  lemma CheckKeepsQueues(s: State, tick: int)
    ensures TimerCheck(s, tick).pending == s.pending
  {
    hide Close;
    if s.timers != [] {
      CloseKeepsQueues(s.(now := tick), s.timers[0].fd, HeartbeatExpired);
    }
  }

  lemma RunFunctorQueues(s: State, tick: int)
    requires Inv(s) && s.running != []
    ensures RunFunctor(s, tick).pending == s.pending + Overflow(s, s.running[0])
  {
    hide Inv, TablesAgree, PoolConsistent, Open, Send, Close;
    PopKeepsTables(s, tick);
    assert s.pending + [] == s.pending;
    var u := s.(running := s.running[1..], now := tick);
    match s.running[0]
    case AddConnection(fd) =>
      HeadIsNew(s);
      var c, o := OpenShape(u, fd, tick);
    case SendPacket(ctx, p) =>
      if Idle(s, ctx) {
        IdleTakesNothing(u, ctx, p);
      } else {
        InvOwner(s, ctx);
        SendQueues(u, ctx, p);
      }
    case CloseConnection(fd) => CloseKeepsQueues(u, fd, OtherCause);
  }

  lemma SendQueues(s: State, ctx: nat, p: Packet)
    requires TablesAgree(s) && !Idle(s, ctx) && s.contexts[ctx].fd in s.conns && s.conns[s.contexts[ctx].fd].ctx == ctx
    ensures Send(s, ctx, p).pending ==
            s.pending + if Fits(s, ctx, p) then [] else [CloseConnection(s.contexts[ctx].fd)]
  {
    LinkFacts(s, s.contexts[ctx].fd);
    hide Encode, TablesAgree;
    assert s.pending + [] == s.pending;
  }

  // ---------------------------------------------------------------- business tasks

  /** A business task's write is what the context holds from then on; buffers are left
      alone. */
  lemma TaskWrites(s: State, ctx: nat, uid: int, loggedIn: bool, windowStart: int, count: int)
    requires ctx < |s.contexts|
    ensures var t := Step(s, TaskUpdate(ctx, uid, loggedIn, windowStart, count));
            && |t.contexts| == |s.contexts|
            && t.contexts[ctx].uid == uid && t.contexts[ctx].loggedIn == loggedIn
            && t.contexts[ctx].rateWindowStart == windowStart && t.contexts[ctx].rateMsgCount == count
            && t.contexts[ctx].sendBuf == s.contexts[ctx].sendBuf && t.contexts[ctx].recvBuf == s.contexts[ctx].recvBuf
  {
  }
}
