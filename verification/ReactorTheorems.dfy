/** What the reactor invariant means for every run from an empty reactor. */
module ReactorTheorems {
  import opened Common
  import opened Wire
  import opened TimerQueue
  import opened Reactor
  import opened ReactorProofs

  /** The states a reactor thread can be in. */
  ghost predicate Reachable(s: State)
  {
    exists config: Config, start: int, es: seq<Event> ::
      Legal(Init(config, start), es) && s == Run(Init(config, start), es)
  }

  lemma ReachableKeepsInv(s: State)
    requires Reachable(s)
    ensures Inv(s)
  {
    hide Inv, Run, Legal;
    var config: Config, start: int, es: seq<Event> :|
      Legal(Init(config, start), es) && s == Run(Init(config, start), es);
    InitEstablishesInv(config, start);
    RunKeepsInv(Init(config, start), es);
  }

  /** The five structures move together in every run: the connection and heartbeat
      tables have the same descriptors, the timer set is exactly the heartbeat
      table, every connection's context carries its descriptor, and the count is
      the number of connections. */
  lemma LifecycleInvariant(s: State)
    requires Reachable(s)
    ensures s.conns.Keys == s.heartbeats.Keys == s.interest.Keys
    ensures (set n | n in s.timers) == (set fd | fd in s.conns :: TimerNode(s.heartbeats[fd], fd))
    ensures |s.timers| == |s.conns| == s.connCount
    ensures forall fd :: fd in s.conns ==>
              && s.conns[fd].ctx < |s.contexts|
              && s.contexts[s.conns[fd].ctx].fd == fd
              && !s.conns[fd].closed
  {
    ReachableKeepsInv(s);
    hide StreamsAgree, RetiredOk, PoolConsistent, Adds;
    NodesCount(s.timers, s.heartbeats);
    assert |s.conns| == |s.conns.Keys|;
    NodesAre(s);
  }

  lemma TailMatches(ns: seq<TimerNode>, hb: map<int, TimerKey>)
    requires Sorted(ns) && ns != []
    requires forall n :: n in ns ==> n.fd in hb && hb[n.fd] == n.key
    requires forall fd :: fd in hb ==> TimerNode(hb[fd], fd) in ns
    ensures var rest := hb - {ns[0].fd};
            && (forall m :: m in ns[1..] ==> m.fd in rest && rest[m.fd] == m.key)
            && (forall fd :: fd in rest ==> TimerNode(rest[fd], fd) in ns[1..])
  {
    assert ns == [ns[0]] + ns[1..];
    forall m | m in ns[1..]
      ensures m in ns && m.key != ns[0].key
    {
      var i :| 0 <= i < |ns| - 1 && ns[1..][i] == m;
      assert Before(ns[0].key, ns[i + 1].key);
    }
  }

  lemma NodesAre(s: State)
    requires TimersAgree(s) && s.conns.Keys == s.heartbeats.Keys
    ensures (set n | n in s.timers) == (set fd | fd in s.conns :: TimerNode(s.heartbeats[fd], fd))
  {
    var table := set fd | fd in s.conns :: TimerNode(s.heartbeats[fd], fd);
    forall n | n in s.timers
      ensures n in table
    {
      assert n == TimerNode(s.heartbeats[n.fd], n.fd);
    }
  }

  lemma {:induction false} NodesCount(ns: seq<TimerNode>, hb: map<int, TimerKey>)
    requires Sorted(ns)
    requires forall n :: n in ns ==> n.fd in hb && hb[n.fd] == n.key
    requires forall fd :: fd in hb ==> TimerNode(hb[fd], fd) in ns
    ensures |ns| == |hb.Keys|
    decreases |ns|
  {
    if ns == [] {
      assert hb.Keys == {};
    } else {
      var n := ns[0];
      assert n in ns;
      var rest := hb - {n.fd};
      TailMatches(ns, hb);
      NodesCount(ns[1..], rest);
      assert hb.Keys == rest.Keys + {n.fd};
    }
  }

  /** Closing undoes opening: the tables, the timer set, the free list and the count
      are what they were, and the context is as it was or, if the pool was empty, an
      unused one more. Only the descriptor is gone and the timer counter moved on. */
  lemma ClosingUndoesOpening(s: State, fd: int, tick: int, cause: Cause)
    requires Reachable(s) && 0 <= fd && fd !in s.conns
    ensures var t := Close(Open(s, fd, tick), fd, cause);
            && t.conns == s.conns && t.heartbeats == s.heartbeats && t.interest == s.interest
            && t.timers == s.timers && t.free == s.free && t.connCount == s.connCount
            && t.open == s.open - {fd} && t.gid == s.gid + 1
            && (s.free != [] ==> t.contexts == s.contexts)
            && (s.free == [] ==>
                  && s.contexts < t.contexts
                  && |t.contexts| == |s.contexts| + 1 && t.contexts[|s.contexts|].fd == -1)
  {
    ReachableKeepsInv(s);
    var key := TimerKey(tick + s.config.heartbeatMs, s.gid + 1);
    NewKey(s, key.expire);
    FreeIsReset(s);
    assert TablesAgree(s) && PoolConsistent(s);
    hide Inv, Reachable, Open, Close, Insert, Remove, PoolMatch, LinksMatch;
    var c, o := OpenShape(s, fd, tick);
    hide TablesAgree, PoolConsistent;
    CloseByField(o, fd, cause);
    RemoveInserted(s.timers, TimerNode(key, fd));
    EnteredThenErased(s.conns, fd, o.conns[fd]);
    EnteredThenErased(s.heartbeats, fd, key);
    EnteredThenErased(s.interest, fd, false);
    ReleasedAsBefore(s, o, c);
  }

  /** The fields of the state after opening. */
  lemma OpenShape(s: State, fd: int, tick: int) returns (c: nat, o: State)
    requires PoolConsistent(s) && fd !in s.heartbeats
    ensures o == Open(s, fd, tick) && c < |o.contexts|
    ensures if s.free == [] then
              c == |s.contexts| && |o.contexts| == c + 1 && o.free == []
            else
              && c == s.free[|s.free| - 1] && c < |s.contexts| == |o.contexts| && s.free == o.free + [c]
    ensures o.contexts[c] ==
            (if s.free == [] then NewContext(false, -1) else s.contexts[c]).(fd := fd, lastActive := tick / 1000)
    ensures forall d :: 0 <= d < |s.contexts| && d != c ==> o.contexts[d] == s.contexts[d]
    ensures var key := TimerKey(tick + s.config.heartbeatMs, s.gid + 1);
            o == State(s.config, o.contexts, o.free,
                       s.conns[fd := Connection(fd, c, false)],
                       s.heartbeats[fd := key], Insert(s.timers, TimerNode(key, fd)), s.gid + 1, s.connCount + 1,
                       s.interest[fd := false], s.pending, s.running,
                       s.open, s.acceptedFds, s.closedFds,
                       s.traces[fd := Trace(fd, tick, [], [], [], [])], s.retired, tick)
  {
    hide Attach, StartHeartbeat, Insert, Remove, PoolMatch;
    var a;
    c, a := AttachShape(s, fd, tick);
    StartByField(a, fd, tick);
    o := Open(s, fd, tick);
    assert s.heartbeats - {fd} == s.heartbeats;
  }

  lemma EnteredThenErased<V>(m: map<int, V>, k: int, v: V)
    requires k !in m
    ensures m[k := v] - {k} == m
  {
  }

  /** What release makes of the context and the free list after an acquire. */
  lemma ReleasedAsBefore(s: State, a: State, c: nat)
    requires c < |a.contexts| && |s.contexts| <= |a.contexts|
    requires forall d :: 0 <= d < |s.contexts| && d != c ==> a.contexts[d] == s.contexts[d]
    requires if s.free == [] then
               c == |s.contexts| && |a.contexts| == c + 1 && a.free == [] && a.contexts[c].poolIdx == -1
             else
               && c < |s.contexts| == |a.contexts| && s.free == a.free + [c]
               && a.contexts[c].poolIdx == c && a.contexts[c].Reset() == s.contexts[c]
    ensures var ctx := a.contexts[c];
            var after := a.contexts[c := if ctx.poolIdx == -1 then ctx.(fd := -1) else ctx.Reset()];
            && (if ctx.poolIdx == -1 then a.free else a.free + [ctx.poolIdx]) == s.free
            && (s.free != [] ==> after == s.contexts)
            && (s.free == [] ==> s.contexts < after && |after| == |s.contexts| + 1 && after[c].fd == -1)
  {
  }

  lemma NewKey(s: State, expire: int)
    requires Inv(s)
    ensures forall n :: n in s.timers ==> n.key != TimerKey(expire, s.gid + 1)
  {
    hide LinksMatch, PoolMatch, ExpiriesMatch, BooksMatch, StreamsMatch, RetiredMatch;
  }

  /** The context that would be taken next is in reset state and knows its index. */
  lemma FreeIsReset(s: State)
    requires Inv(s)
    ensures s.free != [] ==>
              var c := s.free[|s.free| - 1];
              && 0 <= c < |s.contexts| && c < s.config.poolSize
              && s.contexts[c] == s.contexts[c].Reset() && s.contexts[c].poolIdx == c
  {
    hide LinksMatch, NodesMatch, ExpiriesMatch, BooksMatch, StreamsMatch, RetiredMatch;
  }

  /** Each accepted descriptor is closed exactly once: its accepts and closes differ
      by one while it is open and agree otherwise, and what is open is connected or
      waits in one queued functor. */
  lemma ClosedExactlyOnce(s: State, fd: int)
    requires Reachable(s)
    ensures s.acceptedFds[fd] == s.closedFds[fd] + (if fd in s.open then 1 else 0)
    ensures fd in s.open <==> fd in s.conns || fd in Adds(s.running + s.pending)
    ensures !(fd in s.conns && fd in Adds(s.running + s.pending))
  {
    ReachableKeepsInv(s);
    hide TablesAgree, PoolConsistent, TimersAgree, AllRetiredOk, Adds;
    var adds := Adds(s.running + s.pending);
    assert multiset(s.open)[fd] == multiset(s.conns.Keys)[fd] + multiset(adds)[fd];
    assert fd in multiset(adds) <==> fd in adds;
    assert fd in multiset(s.open) <==> fd in s.open;
    assert fd in multiset(s.conns.Keys) <==> fd in s.conns.Keys;
    assert multiset(s.open)[fd] <= 1;
  }

  /** After the destructor the count is zero, and the descriptors still open are
      exactly those accepted but never added to the loop. */
  lemma ShutdownLeavesOnlyUnadded(s: State)
    requires Reachable(s)
    ensures var t := Shutdown(s);
            && t.connCount == 0
            && multiset(t.open) == multiset(Adds(s.running + s.pending))
            && t.acceptedFds == t.closedFds + multiset(t.open)
  {
    ReachableKeepsInv(s);
    assert DescriptorsAgree(s);
    hide Inv, Reachable, Adds;
    OpenWithoutConnected(s.open, s.conns.Keys, Adds(s.running + s.pending));
  }

  lemma OpenWithoutConnected(open: set<int>, connected: set<int>, adds: seq<int>)
    requires multiset(open) == multiset(connected) + multiset(adds)
    ensures multiset(open - connected) == multiset(adds)
    ensures multiset(open) == multiset(connected) + multiset(open - connected)
  {
    forall fd
      ensures multiset(open - connected)[fd] == multiset(adds)[fd]
    {
      assert multiset(open)[fd] == multiset(connected)[fd] + multiset(adds)[fd];
    }
    assert multiset(open - connected) == multiset(adds);
  }

  /** A leak: a descriptor accepted just before shutdown stays open. */
  lemma AcceptedThenShutDown(config: Config, start: int)
    ensures Legal(Init(config, start), [Accept(5)])
    ensures Shutdown(Run(Init(config, start), [Accept(5)])).open == {5}
  {
    var s := Init(config, start);
    assert Enabled(s, Accept(5)) && [Accept(5)][1..] == [];
    assert Run(s, [Accept(5)]) == Step(s, Accept(5));
    assert s.open + {5} == {5};
  }

  // ---------------------------------------------------------------- context pool

  predicate InUse(s: State, c: int)
  {
    exists fd :: fd in s.conns && s.conns[fd].ctx == c
  }

  /** No two connections share a context; free indices are distinct, in range, and
      together with the contexts in use partition the pool's storage. */
  lemma ContextsAreExclusive(s: State)
    requires Reachable(s)
    ensures forall fd, gd :: fd in s.conns && gd in s.conns && fd != gd ==>
              s.conns[fd].ctx != s.conns[gd].ctx
    ensures forall i, j :: 0 <= i < j < |s.free| ==> s.free[i] != s.free[j]
    ensures forall c :: c in s.free ==> 0 <= c < s.config.poolSize
    ensures forall c :: 0 <= c < s.config.poolSize ==> (c in s.free <==> !InUse(s, c))
  {
    ReachableKeepsInv(s);
    hide StreamsAgree, RetiredOk, TimersAgree, DescriptorsAgree;
    forall c | 0 <= c < s.config.poolSize
      ensures c in s.free <==> !InUse(s, c)
    {
      if s.contexts[c].fd != -1 {
        assert s.conns[s.contexts[c].fd].ctx == c;
      }
    }
  }

  lemma PoolFlags(s: State, c: nat)
    requires PoolConsistent(s) && c < |s.contexts|
    ensures s.contexts[c].ownerWorker == (c < s.config.poolSize)
  {
  }

  /** A new connection starts from a context in reset state that nobody uses,
      whether the pool is fresh, recycled or exhausted. */
  lemma AcquiredContextIsReset(s: State, fd: int, tick: int)
    requires Reachable(s)
    ensures var t := Open(s, fd, tick);
            && fd in t.conns && t.conns[fd].ctx < |t.contexts|
            && var c := t.conns[fd].ctx;
               && !InUse(s, c)
               && var ctx := t.contexts[c];
                  && ctx.fd == fd && ctx.lastActive == tick / 1000
                  && ctx.uid == 0 && !ctx.loggedIn
                  && ctx.recvBuf == [] && ctx.sendBuf == [] && !ctx.writing
                  && ctx.rateWindowStart == 0 && ctx.rateMsgCount == 0
                  && ctx.ownerWorker == (s.free != [])
  {
    ReachableKeepsInv(s);
    assert TablesAgree(s) && PoolConsistent(s);
    hide Inv, Reachable, Attach, StartHeartbeat, Insert, Remove, PoolMatch;
    var c, a := AttachShape(s, fd, tick);
    StartByField(a, fd, tick);
    if s.free != [] {
      FreeHasNoFd(s);
      PoolFlags(s, c);
    }
  }

  // ---------------------------------------------------------------- heartbeat

  /** A connection closed by its timer had no bytes read for a whole interval. */
  lemma HeartbeatNeverTooEarly(s: State, r: Retired)
    requires Reachable(s) && r in s.retired && r.cause == HeartbeatExpired
    ensures r.at - r.trace.lastRead >= s.config.heartbeatMs
  {
    ReachableKeepsInv(s);
  }

  /** A check that finds nothing due leaves no connection that should have been
      closed by then; a check that fires removes exactly one connection and one
      node, so draining terminates. */
  lemma HeartbeatNeverTooLate(s: State, tick: int)
    requires Reachable(s) && s.now <= tick
    ensures s.conns.Keys == s.traces.Keys
    ensures var t := TimerCheck(s, tick);
            if t == s.(now := tick) then
              forall fd :: fd in s.conns ==> tick < s.traces[fd].lastRead + s.config.heartbeatMs
            else
              && |t.timers| == |s.timers| - 1
              && exists fd :: && fd in s.conns && t.conns == s.conns - {fd}
                              && s.traces[fd].lastRead + s.config.heartbeatMs <= tick
  {
    ReachableKeepsInv(s);
    assert TablesAgree(s) && TimersAgree(s) && TimersExact(s);
    hide Inv, Reachable, LinksMatch, ExpiriesMatch;
    if s.timers != [] && s.timers[0].key.expire <= tick {
      FirstNode(s);
      var fd := s.timers[0].fd;
      LinkFacts(s, fd);
      RemoveFront(s.timers);
      hide NodesMatch, Close, Remove;
      CloseByField(s.(now := tick), fd, HeartbeatExpired);
      assert fd !in TimerCheck(s, tick).conns;
    } else {
      QuietCheck(s, tick);
      hide NodesMatch;
    }
  }

  /** While the interval fits an int, no poll outlasts the earliest timer. */
  lemma PollWakesForEveryTimer(s: State, tick: int, fd: int)
    requires Reachable(s) && s.now <= tick
    requires s.config.heartbeatMs <= INT32_MAX
    requires fd in s.heartbeats
    ensures s.timers != []
    ensures WakesBy(TimeToSleep(s.timers, tick), tick, s.heartbeats[fd].expire)
  {
    ReachableKeepsInv(s);
    assert TablesAgree(s) && TimersAgree(s) && TimersExact(s);
    hide Inv, Reachable;
    var n := TimerNode(s.heartbeats[fd], fd);
    assert n in s.timers;
    assert s.timers[0] in s.timers;
    assert s.timers[0].key.expire - tick <= INT32_MAX;
    hide TimersAgree, TimersExact, TablesAgree, TimeToSleep, WakesBy, AsInt32;
    ShortWaitsWake(s.timers, tick, n);
  }

  // ---------------------------------------------------------------- byte streams

  /** Between actions, a connection wants to write iff bytes are waiting iff
      EPOLLOUT is requested; the buffer respects its cap; and written plus waiting
      bytes are the accepted packets' encodings. */
  lemma SendBufferStateMachine(s: State, fd: int)
    requires Reachable(s) && fd in s.conns
    ensures s.conns[fd].ctx < |s.contexts|
    ensures fd in s.interest && fd in s.traces
    ensures var ctx := s.contexts[s.conns[fd].ctx];
            && (ctx.writing <==> ctx.sendBuf != [])
            && (ctx.writing <==> s.interest[fd])
            && |ctx.sendBuf| <= s.config.maxSendBuf
            && s.traces[fd].written + ctx.sendBuf == EncodeAll(s.traces[fd].accepted)
  {
    ReachableKeepsInv(s);
  }

  /** A packet is taken whole or not at all; it is refused only when its connection
      is gone or it would overflow the buffer, and then a close is queued. */
  lemma AcceptedWholeOrDroppedWhole(s: State, ctx: nat, p: Packet)
    requires Reachable(s)
    ensures var t := Send(s, ctx, p);
            if ctx >= |s.contexts| || s.contexts[ctx].fd == -1 then t == s
            else
              var fd := s.contexts[ctx].fd;
              && fd in s.conns && fd in s.traces && fd in t.traces
              && if |s.contexts[ctx].sendBuf| + HEADER_SIZE + |p.body| <= s.config.maxSendBuf then
                   && t.traces[fd].accepted == s.traces[fd].accepted + [p]
                   && t.contexts == s.contexts[ctx := t.contexts[ctx]]
                   && t.contexts[ctx].sendBuf == s.contexts[ctx].sendBuf + Encode(p)
                   && BodyLen(Encode(p)) == |p.body|
                 else
                   t == s.(pending := s.pending + [CloseConnection(fd)])
  {
    hide Inv, Reachable;
    ReachableKeepsInv(s);
    if ctx < |s.contexts| && s.contexts[ctx].fd != -1 {
      InvOwner(s, ctx);
      InvLinks(s, s.contexts[ctx].fd);
      if |s.contexts[ctx].sendBuf| + HEADER_SIZE + |p.body| <= s.config.maxSendBuf {
        HeaderOfEncoded(p, []);
        assert Encode(p) + [] == Encode(p);
      }
      hide Encode, BodyLen;
    }
  }

  /** End to end, for every connection still open: whatever part of the written
      bytes has reached the client and however its reads cut it, the client has
      handed on a prefix of the accepted packets, unchanged and in order; it has
      handed on all of them once nothing is buffered or in transit. */
  lemma ClientSeesAcceptedPackets(s: State, fd: int, chunks: seq<seq<byte>>)
    requires Reachable(s) && fd in s.conns
    requires fd in s.traces && Concat(chunks) <= s.traces[fd].written
    ensures s.conns[fd].ctx < |s.contexts|
    ensures var c := ClientFeed(ClientParse([], [], false), chunks);
            && !c.broken
            && c.items == Frames(Packets(c.items))
            && Packets(c.items) <= s.traces[fd].accepted
            && (Concat(chunks) == s.traces[fd].written && s.contexts[s.conns[fd].ctx].sendBuf == [] ==>
                  Packets(c.items) == s.traces[fd].accepted)
  {
    hide ClientFeed, Packets, Frames, EncodeAll, Inv, Reachable, ParseServer;
    SendBufferStateMachine(s, fd);
    ReachableKeepsInv(s);
    InvAndExcept(s, fd);
    hide InvExcept;
    var t := s.traces[fd];
    assert Countable(t.accepted);
    assert t.written <= EncodeAll(t.accepted);
    assert t.written + [] == t.written;
    ClientReceivesPrefix(t.accepted, chunks);
  }

  /** A connection that was closed delivered a prefix as well. */
  lemma ClosedConnectionDeliveredPrefix(s: State, r: Retired, chunks: seq<seq<byte>>)
    requires Reachable(s) && r in s.retired
    requires Concat(chunks) <= r.trace.written
    ensures var c := ClientFeed(ClientParse([], [], false), chunks);
            !c.broken && c.items == Frames(Packets(c.items)) && Packets(c.items) <= r.trace.accepted
  {
    ReachableKeepsInv(s);
    assert RetiredOk(s.config, r);
    hide ClientFeed, Packets, Frames, EncodeAll, Inv;
    ClientReceivesPrefix(r.trace.accepted, chunks);
  }

  /** The frames handed to the thread pool are those of one parse of everything
      received, however the bytes arrived; the rest waits and stays short. */
  lemma ServerDispatchesWholeStreamParse(s: State, fd: int)
    requires Reachable(s) && fd in s.conns
    ensures fd in s.traces && s.conns[fd].ctx < |s.contexts|
    ensures var t, buf := s.traces[fd], s.contexts[s.conns[fd].ctx].recvBuf;
            && ParseServer(t.received) == ServerParse(t.dispatched, buf, false)
            && EncodeAll(t.dispatched) + buf == t.received
            && |buf| < HEADER_SIZE + MAX_BODY_LEN
  {
    ReachableKeepsInv(s);
    assert StreamsAgree(s.config, s.contexts[s.conns[fd].ctx], s.interest[fd], s.traces[fd]);
    hide Inv, EncodeAll, ParseServer;
    ServerParseSound(s.traces[fd].received);
    ServerResidueBounded(s.traces[fd].received);
  }

  // ---------------------------------------------------------------- the functor queue

  /** What an action adds to the queue, and what it takes from it. */
  function Queued(s: State, e: Event): seq<Functor>
  {
    var t := Step(s, e);
    if e.Swap? || |t.pending| < |s.pending| then [] else t.pending[|s.pending|..]
  }

  function Executed(s: State, e: Event): seq<Functor>
  {
    if e.RunNext? && s.running != [] then s.running[..1] else []
  }

  function QueuedBy(s: State, es: seq<Event>): seq<Functor>
    decreases es
  {
    if es == [] then [] else Queued(s, es[0]) + QueuedBy(Step(s, es[0]), es[1..])
  }

  function ExecutedBy(s: State, es: seq<Event>): seq<Functor>
    decreases es
  {
    if es == [] then [] else Executed(s, es[0]) + ExecutedBy(Step(s, es[0]), es[1..])
  }

  /** A read pass leaves both queues alone. */
  lemma {:induction false} ReadLoopKeepsQueues(s: State, fd: int, results: seq<ReadResult>)
    ensures var t := ReadLoop(s, fd, results).0; t.pending == s.pending && t.running == s.running
    decreases results
  {
    hide Insert, Remove;
    if results != [] && results[0].Data? && results[0].bytes != [] {
      ReadLoopKeepsQueues(ReadBytes(s, fd, results[0].bytes, results[0].tick), fd, results[1..]);
    }
  }

  lemma CloseKeepsQueues(s: State, fd: int, cause: Cause)
    ensures var t := Close(s, fd, cause); t.pending == s.pending && t.running == s.running
  {
    hide Remove;
  }

  lemma ReadKeepsQueues(s: State, fd: int, results: seq<ReadResult>)
    ensures var t := Read(s, fd, results); t.pending == s.pending && t.running == s.running
  {
    hide ReadLoop, ParseServer, Close;
    ReadLoopKeepsQueues(s, fd, results);
    CloseKeepsQueues(ReadLoop(s, fd, results).0, fd, OtherCause);
    CloseKeepsQueues(DispatchFrames(ReadLoop(s, fd, results).0, fd), fd, OtherCause);
  }

  lemma WriteKeepsQueues(s: State, fd: int, results: seq<WriteResult>)
    ensures var t := Write(s, fd, results); t.pending == s.pending && t.running == s.running
  {
    hide WriteLoop, Close;
    if fd in s.conns && s.conns[fd].ctx < |s.contexts| {
      var (k, _) := WriteLoop(|s.contexts[s.conns[fd].ctx].sendBuf|, results);
      CloseKeepsQueues(WroteBytes(s, fd, k), fd, OtherCause);
    }
  }

  lemma RunFunctorTakesHead(s: State, tick: int)
    requires s.running != []
    ensures var t := RunFunctor(s, tick); t.running == s.running[1..] && s.pending <= t.pending
  {
    hide Insert, Remove, Encode;
  }

  lemma StepIsFifo(s: State, e: Event)
    requires Enabled(s, e)
    ensures var t := Step(s, e);
            s.running + s.pending + Queued(s, e) == Executed(s, e) + (t.running + t.pending)
  {
    hide Read, Write, RunFunctor, Close;
    var t := Step(s, e);
    match e
    case Hangup(fd) => CloseKeepsQueues(s, fd, OtherCause);
    case CheckTimer(tick) =>
      if s.timers != [] {
        CloseKeepsQueues(s.(now := tick), s.timers[0].fd, HeartbeatExpired);
      }
    case Readable(fd, results) => ReadKeepsQueues(s, fd, results);
    case Writable(fd, results) => WriteKeepsQueues(s, fd, results);
    case Swap => assert s.running + s.pending == s.pending;
    case RunNext(tick) =>
      RunFunctorTakesHead(s, tick);
      assert s.running == s.running[..1] + s.running[1..];
    case _ =>
  }

  /** Functors run in the order they were queued, each once: over any run, what was
      waiting plus what was queued is what was executed plus what is waiting. */
  lemma {:induction false} FunctorsAreFifo(s: State, es: seq<Event>)
    requires Legal(s, es)
    ensures var t := Run(s, es);
            s.running + s.pending + QueuedBy(s, es) == ExecutedBy(s, es) + (t.running + t.pending)
    decreases es
  {
    hide Step, Queued, Executed, Enabled;
    if es != [] {
      var e, t := es[0], Step(s, es[0]);
      StepIsFifo(s, e);
      FunctorsAreFifo(t, es[1..]);
      var z := Run(s, es);
      calc {
        s.running + s.pending + QueuedBy(s, es);
        s.running + s.pending + Queued(s, e) + QueuedBy(t, es[1..]);
        Executed(s, e) + (t.running + t.pending) + QueuedBy(t, es[1..]);
        Executed(s, e) + (t.running + t.pending + QueuedBy(t, es[1..]));
        Executed(s, e) + (ExecutedBy(t, es[1..]) + (z.running + z.pending));
        Executed(s, e) + ExecutedBy(t, es[1..]) + (z.running + z.pending);
      }
    }
  }
}
