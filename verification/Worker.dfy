/** The reactor thread as the program writes it: tables updated in place by methods
    that call back into each other. Every method is tied to the action it performs
    in the state machine of module `Reactor`. */
module WorkerLoop {
  import opened Wire
  import opened TimerQueue
  import opened Reactor
  import opened ReactorProofs

  class Worker {
    const config: Config
    const timer: Timer
    var contexts: seq<Context>
    var freeList: seq<int>
    var connections: map<int, Connection>
    var heartbeatTimers: map<int, TimerKey>
    var connCount: int
    var interest: map<int, bool>
    var pendingFunctors: seq<Functor>
    var running: seq<Functor>

    // what the kernel knows and what has happened
    ghost var open: set<int>
    ghost var acceptedFds: multiset<int>
    ghost var closedFds: multiset<int>
    ghost var traces: map<int, Trace>
    ghost var retired: seq<Retired>
    ghost var now: int

    ghost function View(): State
      reads this, timer
    {
      State(config, contexts, freeList, connections, heartbeatTimers,
            timer.timermap, timer.gid, connCount, interest, pendingFunctors, running,
            open, acceptedFds, closedFds, traces, retired, now)
    }

    ghost predicate Valid()
      reads this, timer
    {
      Inv(View())
    }

    /** A worker with its pool filled, before its loop runs. */
    constructor (config: Config, ghost start: int)
      ensures this.config == config && fresh(timer)
      ensures View() == Init(config, start) && Valid()
    {
      this.config := config;
      var t := new Timer();
      timer := t;
      var cs: seq<Context>, free: seq<int> := [], [];
      for i := 0 to config.poolSize
        invariant cs == seq(i, j => NewContext(true, j))
        invariant free == seq(i, j => j)
      {
        cs := cs + [NewContext(true, i)];
        free := free + [i];
      }
      contexts, freeList := cs, free;
      connections, heartbeatTimers, interest, traces := map[], map[], map[], map[];
      connCount, pendingFunctors, running := 0, [], [];
      open, acceptedFds, closedFds, retired, now := {}, multiset{}, multiset{}, [], start;
      new;
      InitEstablishesInv(config, start);
    }

    // -------------------------------------------------------------- context pool

    method Acquire() returns (c: nat)
      requires forall i :: 0 <= i < |freeList| ==> 0 <= freeList[i] < |contexts|
      modifies this`contexts, this`freeList
      ensures c < |contexts|
      ensures if old(freeList) == [] then
                && c == |old(contexts)| && contexts == old(contexts) + [NewContext(false, -1)]
                && freeList == []
              else
                && contexts == old(contexts)
                && old(freeList) == freeList + [c]
    {
      if freeList == [] {
        c := |contexts|;
        contexts := contexts + [NewContext(false, -1)];
      } else {
        c := freeList[|freeList| - 1];
        freeList := freeList[..|freeList| - 1];
      }
    }

    method Release(c: nat)
      requires c < |contexts|
      modifies this`contexts, this`freeList
      ensures old(contexts[c]).poolIdx == -1 ==> contexts == old(contexts) && freeList == old(freeList)
      ensures old(contexts[c]).poolIdx != -1 ==>
                && contexts == old(contexts)[c := old(contexts[c]).Reset()]
                && freeList == old(freeList) + [old(contexts[c]).poolIdx]
    {
      if contexts[c].poolIdx == -1 {
        return;
      }
      contexts := contexts[c := contexts[c].Reset()];
      freeList := freeList + [contexts[c].poolIdx];
    }

    // -------------------------------------------------------------- heartbeat timers

    method CancelHeartbeatTimer(fd: int)
      modifies this`heartbeatTimers, timer`timermap
      ensures heartbeatTimers == old(heartbeatTimers) - {fd}
      ensures timer.timermap == if fd in old(heartbeatTimers)
                                then Remove(old(timer.timermap), old(heartbeatTimers[fd]))
                                else old(timer.timermap)
    {
      if fd in heartbeatTimers {
        var _ := timer.DelTimer(heartbeatTimers[fd]);
        heartbeatTimers := heartbeatTimers - {fd};
      }
    }

    method StartHeartbeatTimer(fd: int, tick: int)
      modifies this`heartbeatTimers, timer
      ensures timer.gid == old(timer.gid) + 1
      ensures var key := TimerKey(tick + config.heartbeatMs, timer.gid);
              var kept := if fd in old(heartbeatTimers)
                          then Remove(old(timer.timermap), old(heartbeatTimers[fd]))
                          else old(timer.timermap);
              && heartbeatTimers == (old(heartbeatTimers) - {fd})[fd := key]
              && timer.timermap == Insert(kept, TimerNode(key, fd))
    {
      hide Insert, Remove;
      CancelHeartbeatTimer(fd);
      var key := timer.AddTimer(config.heartbeatMs, tick, fd);
      heartbeatTimers := heartbeatTimers[fd := key];
    }

    // -------------------------------------------------------------- opening

    /** The connection constructor. */
    method Construct(fd: int, tick: int) returns (conn: Connection)
      requires forall i :: 0 <= i < |freeList| ==> 0 <= freeList[i] < |contexts|
      modifies this`contexts, this`freeList, this`connCount
      ensures var s := Attach(old(View()), fd, tick);
              && contexts == s.contexts && freeList == s.free && connCount == s.connCount
              && conn.fd == fd && !conn.closed && s.conns == connections[fd := conn]
    {
      var c := Acquire();
      ghost var taken := contexts;
      contexts := contexts[c := contexts[c].(fd := fd)];
      contexts := contexts[c := contexts[c].(lastActive := tick / 1000)];
      assert contexts == taken[c := taken[c].(fd := fd, lastActive := tick / 1000)];
      connCount := connCount + 1;
      conn := Connection(fd, c, false);
    }

    /** Construct the connection, enter it in the table and start it. */
    method AddConnectionInLoop(fd: int, tick: int)
      requires PoolConsistent(View())
      modifies this, timer
      ensures View() == Open(old(View()), fd, tick)
    {
      hide PoolConsistent, Attach, StartHeartbeat, Insert, Remove;
      PoolInRange(View());
      ghost var c, a := AttachShape(View(), fd, tick);
      var conn := Construct(fd, tick);
      connections := connections[fd := conn];
      interest := interest[fd := false];
      traces := traces[fd := Trace(fd, tick, [], [], [], [])];
      now := tick;
      assert View() == a;
      StartByField(a, fd, tick);
      StartHeartbeatTimer(fd, tick);
    }

    // -------------------------------------------------------------- closing

    method CloseImpl(conn: Connection) returns (closed: Connection)
      requires conn.ctx < |contexts|
      modifies this`interest, this`heartbeatTimers, this`contexts, this`freeList, this`connCount,
               this`open, this`closedFds, timer`timermap
      ensures closed == conn.(fd := -1)
      ensures var ctx := old(contexts[conn.ctx]);
              && interest == old(interest) - {conn.fd}
              && heartbeatTimers == old(heartbeatTimers) - {conn.fd}
              && timer.timermap == (if conn.fd in old(heartbeatTimers)
                                    then Remove(old(timer.timermap), old(heartbeatTimers[conn.fd]))
                                    else old(timer.timermap))
              && contexts == old(contexts)[conn.ctx := if ctx.poolIdx == -1 then ctx.(fd := -1) else ctx.Reset()]
              && freeList == (if ctx.poolIdx == -1 then old(freeList) else old(freeList) + [ctx.poolIdx])
              && connCount == old(connCount) - 1
              && open == old(open) - {conn.fd} && closedFds == old(closedFds) + multiset{conn.fd}
    {
      hide Remove;
      interest := interest - {conn.fd};
      CancelHeartbeatTimer(conn.fd);
      open, closedFds := open - {conn.fd}, closedFds + multiset{conn.fd};
      closed := conn.(fd := -1);
      contexts := contexts[conn.ctx := contexts[conn.ctx].(fd := -1)];
      ghost var detached := contexts;
      Release(conn.ctx);
      assert detached[conn.ctx := detached[conn.ctx].Reset()]
          == old(contexts)[conn.ctx := old(contexts[conn.ctx]).Reset()];
      connCount := connCount - 1;
    }

    method DoForceClose(conn: Connection) returns (done: Connection)
      requires !conn.closed ==> conn.ctx < |contexts|
      modifies this`interest, this`heartbeatTimers, this`contexts, this`freeList, this`connCount,
               this`open, this`closedFds, timer`timermap
      ensures if conn.closed then View() == old(View()) && done == conn
              else
                var ctx := old(contexts[conn.ctx]);
                && done == conn.(fd := -1, closed := true)
                && interest == old(interest) - {conn.fd}
                && heartbeatTimers == old(heartbeatTimers) - {conn.fd}
                && timer.timermap == (if conn.fd in old(heartbeatTimers)
                                      then Remove(old(timer.timermap), old(heartbeatTimers[conn.fd]))
                                      else old(timer.timermap))
                && contexts == old(contexts)[conn.ctx := if ctx.poolIdx == -1 then ctx.(fd := -1) else ctx.Reset()]
                && freeList == (if ctx.poolIdx == -1 then old(freeList) else old(freeList) + [ctx.poolIdx])
                && connCount == old(connCount) - 1
                && open == old(open) - {conn.fd} && closedFds == old(closedFds) + multiset{conn.fd}
    {
      done := conn;
      if !conn.closed {
        done := CloseImpl(conn.(closed := true));
      }
    }

    /** The destructor, when the last reference to a connection goes: it closes the
        descriptor and counts down unless the connection was closed before. */
    method Destroy(conn: Connection)
      modifies this`open, this`closedFds, this`connCount
      ensures conn.fd < 0 ==> open == old(open) && closedFds == old(closedFds)
      ensures conn.fd >= 0 ==> open == old(open) - {conn.fd} && closedFds == old(closedFds) + multiset{conn.fd}
      ensures connCount == old(connCount) - (if conn.closed then 0 else 1)
    {
      if conn.fd >= 0 {
        open, closedFds := open - {conn.fd}, closedFds + multiset{conn.fd};
      }
      if !conn.closed {
        connCount := connCount - 1;
      }
    }

    /** Closing by descriptor. Called from events, timers and queued functors alike;
        it does not need the timer set to be in order. */
    method ForceCloseInLoop(fd: int, ghost cause: Cause)
      requires Known(View(), fd)
      modifies this, timer`timermap
      ensures View() == Close(old(View()), fd, cause)
    {
      hide Remove, Close;
      CloseByField(View(), fd, cause);
      if fd !in connections {
        return;
      }
      var conn := connections[fd];
      connections := connections - {fd};
      var done := DoForceClose(conn);
      Destroy(done);
      retired := retired + [Retired(traces[fd], cause, now)];
      traces := traces - {fd};
    }

    /** One element of the connection table goes, and with it the last reference. */
    method DestroyOne(fd: int)
      requires fd in connections && 0 <= fd == connections[fd].fd && !connections[fd].closed
      modifies this`connections, this`open, this`closedFds, this`connCount
      ensures View() == old(View()).(conns := old(connections) - {fd}, connCount := old(connCount) - 1,
                                     open := old(open) - {fd}, closedFds := old(closedFds) + multiset{fd})
    {
      var conn := connections[fd];
      connections := connections - {fd};
      Destroy(conn);
    }

    /** The worker's destructor destroys the connections left in the table, in the
        container's order. */
    method DestroyConnections(order: seq<int>)
      requires Valid()
      requires multiset(order) == multiset(connections.Keys)
      modifies this`connections, this`open, this`closedFds, this`connCount
      ensures View() == Shutdown(old(View()))
    {
      hide Inv, Shutdown;
      ghost var s := View();
      AllKnown(s);
      assert order[0..] == order;
      for i := 0 to |order|
        invariant multiset(order[i..]) == multiset(connections.Keys)
        invariant forall fd :: fd in connections ==> 0 <= fd == connections[fd].fd && !connections[fd].closed
        invariant Shutdown(View()) == Shutdown(s)
      {
        KeyTaken(order, i, connections);
        OneLess(View(), order[i]);
        DestroyOne(order[i]);
      }
      assert |multiset(order[|order|..])| == |connections.Keys| == |connections|;
      NoneLeft(View());
    }

    // -------------------------------------------------------------- timers

    /** One look at the earliest timer. The callback closes the connection, which
        cancels the heartbeat whose node was taken out just before. */
    method CheckTimer(tick: int) returns (fired: bool)
      requires Valid() && now <= tick
      modifies this, timer`timermap
      ensures View() == TimerCheck(old(View()), tick) && Valid()
      ensures fired <==> old(timer.timermap) != [] && old(timer.timermap)[0].key.expire <= tick
      ensures if fired then |timer.timermap| < |old(timer.timermap)| else timer.timermap == old(timer.timermap)
      ensures now == tick
    {
      hide Inv, Close;
      ghost var s := View();
      TimerCheckKeepsInv(s, tick);
      InvSorted(s);
      now := tick;
      var node;
      fired, node := timer.PopDue(tick);
      if fired {
        PoppedThenClosed(s, tick);
        ForceCloseInLoop(node.fd, HeartbeatExpired);
      }
    }

    /** The loop's timer pass: check until nothing is due. Each firing removes a
        node and adds none, so one clock reading per node and one more suffice. */
    method DrainTimers(clock: seq<int>) returns (ghost last: int)
      requires Valid() && |timer.timermap| < |clock|
      requires now <= clock[0] && forall i, j :: 0 <= i < j < |clock| ==> clock[i] <= clock[j]
      modifies this, timer`timermap
      ensures Valid() && last in clock
      ensures OverdueClosed(old(View()), View(), last)
      ensures NoneOverdue(View(), last)
    {
      hide Inv, OverdueClosed, NoneOverdue, TimerCheck;
      ghost var s := View();
      var i := 0;
      var fired := CheckTimer(clock[0]);
      last := clock[0];
      OneCheck(s, last);
      while fired
        invariant 0 <= i < |clock| && Valid() && now == last == clock[i]
        invariant fired ==> |timer.timermap| + i + 1 < |clock|
        invariant OverdueClosed(s, View(), last)
        invariant !fired ==> NoneOverdue(View(), last)
        decreases |timer.timermap|, fired
      {
        ghost var t := View();
        i := i + 1;
        fired := CheckTimer(clock[i]);
        last := clock[i];
        OneCheck(t, last);
        OverdueClosedTrans(s, t, View(), clock[i - 1], last);
      }
    }

    // -------------------------------------------------------------- sending

    /** `send` on the connection `fd`: all of the packet or none of it. */
    method SendOn(fd: int, packet: Packet)
      requires Known(View(), fd) && fd in connections
      modifies this`contexts, this`interest, this`pendingFunctors, this`traces
      ensures var c, t := old(connections[fd]).ctx, old(traces[fd]);
              if |old(contexts[c]).sendBuf| + |Encode(packet)| > config.maxSendBuf then
                View() == Push(old(View()), CloseConnection(fd))
              else
                View() == old(View()).(
                  contexts := contexts,
                  interest := if old(contexts[c]).writing then old(interest) else old(interest)[fd := true],
                  traces := old(traces)[fd := t.(accepted := t.accepted + [packet])])
                && contexts == old(contexts)[c := old(contexts[c]).(
                     sendBuf := old(contexts[c]).sendBuf + Encode(packet), writing := true)]
    {
      hide Encode;
      var data := Encode(packet);
      var c := connections[fd].ctx;
      if connections[fd].closed {
        return;
      }
      if |contexts[c].sendBuf| + |data| > config.maxSendBuf {
        pendingFunctors := pendingFunctors + [CloseConnection(fd)];
        return;
      }
      ghost var before := contexts;
      contexts := contexts[c := contexts[c].(sendBuf := contexts[c].sendBuf + data)];
      traces := traces[fd := traces[fd].(accepted := traces[fd].accepted + [packet])];
      if !contexts[c].writing {
        contexts := contexts[c := contexts[c].(writing := true)];
        interest := interest[fd := true];
      }
      assert contexts == before[c := before[c].(sendBuf := before[c].sendBuf + data, writing := true)];
    }

    method SendPacketInLoop(ctx: nat, packet: Packet)
      requires Valid()
      modifies this`contexts, this`interest, this`pendingFunctors, this`traces
      ensures View() == Send(old(View()), ctx, packet) && Valid()
    {
      hide Inv, Encode;
      ghost var s := View();
      SendKeepsInv(s, ctx, packet);
      if ctx >= |contexts| {
        return;
      }
      var fd := contexts[ctx].fd;
      if fd < 0 || fd !in connections {
        return;
      }
      InvKnown(s, fd);
      SendOn(fd, packet);
    }

    /** The kernel took `n` bytes from the front of the send buffer. */
    method EraseSent(fd: int, n: nat)
      requires Known(View(), fd) && fd in connections
      requires n <= |contexts[connections[fd].ctx].sendBuf|
      modifies this`contexts, this`traces
      ensures View() == WroteBytes(old(View()), fd, n)
    {
      var c := connections[fd].ctx;
      traces := traces[fd := traces[fd].(written := traces[fd].written + contexts[c].sendBuf[..n])];
      contexts := contexts[c := contexts[c].(sendBuf := contexts[c].sendBuf[n..])];
    }

    /** Flush the send buffer as far as the socket takes it. */
    method HandleWrite(fd: int, results: seq<WriteResult>)
      requires Valid() && fd in connections
      modifies this, timer`timermap
      ensures View() == Write(old(View()), fd, results) && Valid()
    {
      hide Inv, Close, WroteBytes;
      ghost var s := View();
      WriteKeepsInv(s, fd, results);
      InvKnown(s, fd);
      var c := connections[fd].ctx;
      ghost var k: nat := 0;
      ghost var size := |contexts[c].sendBuf|;
      ghost var (total, end) := WriteLoop(size, results);
      var rest := results;
      WroteNothing(s, fd);
      while contexts[c].sendBuf != []
        invariant k <= size && View() == WroteBytes(s, fd, k)
        invariant Known(View(), fd) && connections == s.conns && |contexts[c].sendBuf| == size - k
        invariant var r := WriteLoop(size - k, rest); (total, end) == (k + r.0, r.1)
        decreases |rest|
      {
        if rest == [] || rest[0].WriteBlocked? {
          return;
        }
        if rest[0].WriteFailed? || rest[0].n == 0 {
          ForceCloseInLoop(fd, OtherCause);
          return;
        }
        var left := |contexts[c].sendBuf|;
        var n := if rest[0].n < left then rest[0].n else left;
        WroteMore(s, fd, k, n);
        EraseSent(fd, n);
        rest := rest[1..];
        k := k + n;
      }
      contexts := contexts[c := contexts[c].(writing := false)];
      interest := interest[fd := false];
    }

    // -------------------------------------------------------------- receiving

    /** A read that returned bytes. */
    method BytesReceived(fd: int, bytes: seq<byte>, tick: int)
      requires Known(View(), fd) && fd in connections
      modifies this, timer
      ensures View() == ReadBytes(old(View()), fd, bytes, tick)
    {
      hide StartHeartbeat, Insert, Remove;
      var c := connections[fd].ctx;
      contexts := contexts[c := contexts[c].(recvBuf := contexts[c].recvBuf + bytes, lastActive := tick / 1000)];
      traces := traces[fd := traces[fd].(received := traces[fd].received + bytes, lastRead := tick)];
      now := tick;
      StartByField(View(), fd, tick);
      StartHeartbeatTimer(fd, tick);
    }

    /** The read loop: everything the socket has, the timer restarted per read. */
    method DrainSocket(fd: int, results: seq<ReadResult>) returns (lost: bool)
      requires Known(View(), fd) && fd in connections
      modifies this, timer
      ensures (View(), lost) == ReadLoop(old(View()), fd, results)
    {
      hide ReadBytes;
      ghost var s := View();
      var rest := results;
      lost := false;
      while true
        invariant Known(View(), fd) && fd in connections
        invariant !lost && ReadLoop(s, fd, results) == ReadLoop(View(), fd, rest)
        decreases |rest|
      {
        if rest == [] || rest[0].ReadBlocked? {
          break;
        }
        if rest[0].ReadFailed? || rest[0].bytes == [] {
          lost := true;
          break;
        }
        ReadBytesKeepsKnown(View(), fd, rest[0].bytes, rest[0].tick);
        BytesReceived(fd, rest[0].bytes, rest[0].tick);
        rest := rest[1..];
      }
    }

    /** The frame loop over the receive buffer of `fd`. */
    method DispatchAll(fd: int) returns (rejected: bool)
      requires Known(View(), fd) && fd in connections
      modifies this`contexts, this`traces
      ensures View() == DispatchFrames(old(View()), fd)
      ensures rejected == ParseServer(old(contexts[connections[fd].ctx]).recvBuf).rejected
    {
      hide ParseServer;
      var c := connections[fd].ctx;
      var tasks, rest;
      tasks, rest, rejected := CutFrames(contexts[c].recvBuf);
      contexts := contexts[c := contexts[c].(recvBuf := rest)];
      traces := traces[fd := traces[fd].(dispatched := traces[fd].dispatched + tasks)];
    }

    method HandleRead(fd: int, results: seq<ReadResult>)
      requires Valid() && fd in connections && TicksFrom(now, results)
      modifies this, timer
      ensures View() == Read(old(View()), fd, results) && Valid()
    {
      hide Inv, Close, DispatchFrames, ReadLoop, ParseServer;
      ghost var s := View();
      ReadKeepsInv(s, fd, results);
      InvKnown(s, fd);
      ReadLoopKeepsKnown(s, fd, results);
      var lost := DrainSocket(fd, results);
      if lost {
        ForceCloseInLoop(fd, OtherCause);
        return;
      }
      DispatchKeepsKnown(View(), fd);
      var rejected := DispatchAll(fd);
      if rejected {
        ForceCloseInLoop(fd, OtherCause);
      }
    }

    // -------------------------------------------------------------- the functor queue

    method QueueInLoop(f: Functor)
      requires Valid() && !f.AddConnection?
      modifies this`pendingFunctors
      ensures View() == Push(old(View()), f) && Valid()
    {
      hide Inv;
      PushKeepsInv(View(), f);
      pendingFunctors := pendingFunctors + [f];
    }

    /** The acceptor's hand-over of a descriptor the kernel just opened. */
    method QueueAddConnection(fd: int)
      requires Valid() && 0 <= fd && fd !in open
      modifies this`pendingFunctors, this`open, this`acceptedFds
      ensures View() == Step(old(View()), Accept(fd)) && Valid()
    {
      hide Inv;
      AcceptKeepsInv(View(), fd);
      pendingFunctors := pendingFunctors + [AddConnection(fd)];
      open, acceptedFds := open + {fd}, acceptedFds + multiset{fd};
    }

    method RunOne(f: Functor, tick: int)
      requires Valid() && running != [] && f == running[0] && now <= tick
      modifies this, timer
      ensures View() == RunFunctor(old(View()), tick) && Valid()
    {
      hide Inv, Open, Close, Send;
      ghost var s := View();
      RunFunctorKeepsInv(s, tick);
      running := running[1..];
      now := tick;
      match f
      case AddConnection(fd) =>
        InvPool(s, tick);
        AddConnectionInLoop(fd, tick);
      case SendPacket(ctx, packet) =>
        PopOtherKeepsInv(s, tick);
        SendPacketInLoop(ctx, packet);
      case CloseConnection(fd) =>
        PopOtherKeepsInv(s, tick);
        InvKnown(View(), fd);
        ForceCloseInLoop(fd, OtherCause);
    }

    /** Swap the queue out and run what was in it; functors queued meanwhile wait
        for the next pass. */
    method DoPendingFunctors(clock: seq<int>)
      requires Valid() && running == [] && |clock| == |pendingFunctors|
      requires forall i :: 0 <= i < |clock| ==> now <= clock[i]
      requires forall i, j :: 0 <= i < j < |clock| ==> clock[i] <= clock[j]
      modifies this, timer
      ensures View() == RunAll(SwapFunctors(old(View())), clock) && Valid()
      ensures running == []
    {
      hide Inv, RunFunctor;
      SwapKeepsInv(View());
      ghost var s := SwapFunctors(View());
      running, pendingFunctors := pendingFunctors, [];
      for i := 0 to |clock|
        invariant Valid() && |running| == |clock| - i
        invariant forall j :: i <= j < |clock| ==> now <= clock[j]
        invariant RunAll(View(), clock[i..]) == RunAll(s, clock)
      {
        RunFunctorShape(View(), clock[i]);
        assert clock[i..][1..] == clock[i + 1..];
        RunOne(running[0], clock[i]);
      }
    }
  }

  /** The server's frame loop: cut whole frames from the front of the buffer until
      it is too short for the next one or its header is refused. */
  method CutFrames(recvBuf: seq<byte>) returns (tasks: seq<Packet>, rest: seq<byte>, rejected: bool)
    ensures ParseServer(recvBuf) == ServerParse(tasks, rest, rejected)
  {
    hide Magic, BodyLen, FrameAt;
    rest, tasks, rejected := recvBuf, [], false;
    while HEADER_SIZE <= |rest|
      invariant !rejected
      invariant var r := ParseServer(rest);
                ParseServer(recvBuf) == ServerParse(tasks + r.frames, r.rest, r.rejected)
      decreases |rest|
    {
      if Magic(rest) != PROTO_MAGIC || BodyLen(rest) > MAX_BODY_LEN {
        rejected := true;
        break;
      }
      if |rest| < HEADER_SIZE + BodyLen(rest) {
        break;
      }
      tasks := tasks + [FrameAt(rest, BodyLen(rest))];
      rest := rest[HEADER_SIZE + BodyLen(rest)..];
    }
  }

  /** Running the swapped-out functors, one clock reading each. */
  function RunAll(s: State, clock: seq<int>): State
    decreases clock
  {
    if clock == [] then s else RunAll(RunFunctor(s, clock[0]), clock[1..])
  }

  lemma RunFunctorShape(s: State, tick: int)
    requires s.running != []
    ensures RunFunctor(s, tick).running == s.running[1..] && RunFunctor(s, tick).now == tick
  {
    hide Insert, Remove, Encode;
  }

  lemma RunFunctorKeepsInv(s: State, tick: int)
    requires Inv(s) && s.running != [] && s.now <= tick
    ensures Inv(RunFunctor(s, tick))
  {
    hide Inv;
    StepKeepsInv(s, RunNext(tick));
  }

  lemma PoolInRange(s: State)
    requires PoolConsistent(s)
    ensures forall i :: 0 <= i < |s.free| ==> 0 <= s.free[i] < |s.contexts|
  {
  }

  lemma InvPool(s: State, tick: int)
    requires Inv(s) && s.running != []
    ensures PoolConsistent(s.(running := s.running[1..], now := tick))
  {
    hide LinksMatch, PoolMatch, NodesMatch, ExpiriesMatch, BooksMatch, StreamsMatch, RetiredMatch;
  }

  lemma ReadBytesKeepsKnown(s: State, fd: int, bytes: seq<byte>, tick: int)
    requires Known(s, fd) && fd in s.conns
    ensures var t := ReadBytes(s, fd, bytes, tick); Known(t, fd) && t.conns == s.conns
  {
    hide Insert, Remove;
  }

  lemma {:induction false} ReadLoopKeepsKnown(s: State, fd: int, results: seq<ReadResult>)
    requires Known(s, fd) && fd in s.conns
    ensures var t := ReadLoop(s, fd, results).0;
            Known(t, fd) && t.conns == s.conns && |t.contexts| == |s.contexts|
    decreases results
  {
    ReadLoopKeepsIdentity(s, fd, results);
    if results != [] && results[0].Data? && results[0].bytes != [] {
      var t := ReadBytes(s, fd, results[0].bytes, results[0].tick);
      ReadBytesKeepsKnown(s, fd, results[0].bytes, results[0].tick);
      hide ReadBytes;
      ReadLoopKeepsKnown(t, fd, results[1..]);
    }
  }

  lemma DispatchKeepsKnown(s: State, fd: int)
    requires Known(s, fd)
    ensures Known(DispatchFrames(s, fd), fd)
  {
    hide ParseServer;
  }

  lemma InvKnown(s: State, fd: int)
    requires Inv(s)
    ensures Known(s, fd)
    ensures fd in s.conns ==> fd in s.interest && fd in s.heartbeats
  {
    hide Inv;
    if fd in s.conns {
      InvLinks(s, fd);
    }
  }

  lemma AllKnown(s: State)
    requires Inv(s)
    ensures forall fd :: fd in s.conns ==> 0 <= fd == s.conns[fd].fd && !s.conns[fd].closed
  {
    hide PoolMatch, NodesMatch, ExpiriesMatch, BooksMatch, StreamsMatch, RetiredMatch;
  }

  lemma KeyTaken(order: seq<int>, i: nat, conns: map<int, Connection>)
    requires i < |order| && multiset(order[i..]) == multiset(conns.Keys)
    ensures order[i] in conns && multiset(order[i + 1..]) == multiset((conns - {order[i]}).Keys)
  {
    var fd := order[i];
    assert order[i..] == [fd] + order[i + 1..];
    assert fd in multiset(order[i..]) && fd in multiset(conns.Keys);
    assert multiset(order[i..]) == multiset{fd} + multiset(order[i + 1..]);
    assert (conns - {fd}).Keys == conns.Keys - {fd};
    assert multiset(conns.Keys - {fd}) == multiset(conns.Keys) - multiset{fd};
  }

  /** Destroying one connection and then the rest is destroying all. */
  lemma OneLess(s: State, fd: int)
    requires fd in s.conns
    ensures Shutdown(s.(conns := s.conns - {fd}, connCount := s.connCount - 1,
                        open := s.open - {fd}, closedFds := s.closedFds + multiset{fd})) == Shutdown(s)
  {
    var keys := s.conns.Keys;
    assert (s.conns - {fd}).Keys == keys - {fd};
    assert |s.conns| == |keys| && |s.conns - {fd}| == |(s.conns - {fd}).Keys|;
    WithoutKey(keys, s.open, s.closedFds, fd);
  }

  lemma WithoutKey(keys: set<int>, open: set<int>, closed: multiset<int>, fd: int)
    requires fd in keys
    ensures |keys - {fd}| == |keys| - 1
    ensures open - {fd} - (keys - {fd}) == open - keys
    ensures closed + multiset{fd} + multiset(keys - {fd}) == closed + multiset(keys)
  {
    assert keys == keys - {fd} + {fd};
    assert multiset(keys) == multiset{fd} + multiset(keys - {fd});
  }

  lemma NoneLeft(s: State)
    requires |s.conns| == 0
    ensures Shutdown(s) == s
  {
    assert s.conns == map[];
    assert s.open - s.conns.Keys == s.open;
  }

  lemma WroteNothing(s: State, fd: int)
    requires Known(s, fd) && fd in s.conns
    ensures WroteBytes(s, fd, 0) == s
  {
    var c := s.conns[fd].ctx;
    assert s.contexts[c].sendBuf[0..] == s.contexts[c].sendBuf;
    assert s.traces[fd].written + s.contexts[c].sendBuf[..0] == s.traces[fd].written;
    assert s.contexts[c := s.contexts[c]] == s.contexts;
    assert s.traces[fd := s.traces[fd]] == s.traces;
  }

  /** Writing `k` bytes and then `n` more is writing `k + n` bytes. */
  lemma WroteMore(s: State, fd: int, k: nat, n: nat)
    requires Known(s, fd) && fd in s.conns
    requires k + n <= |s.contexts[s.conns[fd].ctx].sendBuf|
    ensures WroteBytes(WroteBytes(s, fd, k), fd, n) == WroteBytes(s, fd, k + n)
    ensures var t := WroteBytes(s, fd, k + n);
            && Known(t, fd) && t.conns == s.conns && |t.contexts| == |s.contexts|
            && var c := s.conns[fd].ctx; |t.contexts[c].sendBuf| == |s.contexts[c].sendBuf| - k - n
  {
    var c := s.conns[fd].ctx;
    var buf := s.contexts[c].sendBuf;
    assert buf[k..][n..] == buf[k + n..];
    assert s.traces[fd].written + buf[..k] + buf[k..][..n] == s.traces[fd].written + buf[..k + n];
    var t := WroteBytes(s, fd, k);
    assert t.contexts[c := t.contexts[c].(sendBuf := buf[k + n..])]
        == s.contexts[c := s.contexts[c].(sendBuf := buf[k + n..])];
    assert t.traces[fd := t.traces[fd].(written := s.traces[fd].written + buf[..k + n])]
        == s.traces[fd := s.traces[fd].(written := s.traces[fd].written + buf[..k + n])];
  }

  /** `t` is `s` without some connections, all of them idle for an interval. */
  ghost predicate OverdueClosed(s: State, t: State, tick: int)
  {
    && t.config == s.config
    && (forall fd :: fd in t.conns ==>
          && fd in s.conns && t.conns[fd] == s.conns[fd]
          && fd in s.traces && fd in t.traces && t.traces[fd] == s.traces[fd])
    && (forall fd :: fd in s.conns && fd !in t.conns ==>
          fd in s.traces && s.traces[fd].lastRead + s.config.heartbeatMs <= tick)
  }

  lemma OneCheck(s: State, tick: int)
    requires Inv(s) && s.now <= tick
    ensures OverdueClosed(s, TimerCheck(s, tick), tick)
    ensures s.timers == [] || tick < s.timers[0].key.expire ==> NoneOverdue(TimerCheck(s, tick), tick)
  {
    hide LinksMatch, PoolMatch, NodesMatch, ExpiriesMatch, BooksMatch, StreamsMatch, RetiredMatch;
    hide Close, Remove;
    if s.timers == [] || tick < s.timers[0].key.expire {
      QuietCheck(s, tick);
    } else {
      FirstNode(s);
      InvLinks(s, s.timers[0].fd);
      CloseByField(s.(now := tick), s.timers[0].fd, HeartbeatExpired);
    }
  }

  lemma OverdueClosedTrans(s: State, t: State, u: State, before: int, tick: int)
    requires OverdueClosed(s, t, before) && OverdueClosed(t, u, tick) && before <= tick
    ensures OverdueClosed(s, u, tick)
  {
  }

  lemma InvSorted(s: State)
    requires Inv(s)
    ensures Sorted(s.timers)
  {
  }

  /** Closing after the node was popped is closing with the node still there. */
  lemma PoppedThenClosed(s: State, tick: int)
    requires Inv(s) && s.timers != []
    ensures var t, fd := s.(now := tick), s.timers[0].fd;
            && Known(t.(timers := s.timers[1..]), fd)
            && Close(t.(timers := s.timers[1..]), fd, HeartbeatExpired) == Close(t, fd, HeartbeatExpired)
            && |Close(t, fd, HeartbeatExpired).timers| < |s.timers|
            && Close(t, fd, HeartbeatExpired).now == tick
  {
    hide LinksMatch, PoolMatch, ExpiriesMatch, BooksMatch, StreamsMatch, RetiredMatch;
    FirstNode(s);
    InvLinks(s, s.timers[0].fd);
    RemoveFront(s.timers);
  }
}
