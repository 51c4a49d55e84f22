/** Every action of the reactor keeps its invariant, hence every run does. */
module ReactorProofs {
  import opened Wire
  import opened TimerQueue
  import opened Reactor

  // ---------------------------------------------------------------- what the actions do, field by field

  /** The fields of the state after a timer was started. */
  lemma StartByField(s: State, fd: int, tick: int)
    ensures var key := TimerKey(tick + s.config.heartbeatMs, s.gid + 1);
            var ns := if fd in s.heartbeats then Remove(s.timers, s.heartbeats[fd]) else s.timers;
            StartHeartbeat(s, fd, tick) == State(
              s.config, s.contexts, s.free, s.conns,
              (s.heartbeats - {fd})[fd := key], Insert(ns, TimerNode(key, fd)),
              s.gid + 1, s.connCount, s.interest, s.pending, s.running,
              s.open, s.acceptedFds, s.closedFds, s.traces, s.retired, s.now)
  {
    hide Insert, Remove;
    assert fd !in s.heartbeats ==> s.heartbeats - {fd} == s.heartbeats;
  }

  /** The fields of the state after a close. */
  lemma CloseByField(s: State, fd: int, cause: Cause)
    requires Known(s, fd)
    ensures fd !in s.conns ==> Close(s, fd, cause) == s
    ensures fd in s.conns ==>
              var c := s.conns[fd].ctx;
              var ctx := s.contexts[c];
              Close(s, fd, cause) == State(
                s.config,
                s.contexts[c := if ctx.poolIdx == -1 then ctx.(fd := -1) else ctx.Reset()],
                if ctx.poolIdx == -1 then s.free else s.free + [ctx.poolIdx],
                s.conns - {fd},
                s.heartbeats - {fd},
                if fd in s.heartbeats then Remove(s.timers, s.heartbeats[fd]) else s.timers,
                s.gid, s.connCount - 1, s.interest - {fd}, s.pending, s.running,
                s.open - {fd}, s.acceptedFds, s.closedFds + multiset{fd},
                s.traces - {fd}, s.retired + [Retired(s.traces[fd], cause, s.now)], s.now)
  {
    hide Remove;
  }

  /** Opening changes one context: the last free one, or a new one when none is. */
  lemma AttachShape(s: State, fd: int, tick: int) returns (c: nat, t: State)
    requires PoolConsistent(s)
    ensures t == Attach(s, fd, tick)
    ensures c < |t.contexts|
    ensures if s.free == [] then
              && c == |s.contexts| && |t.contexts| == c + 1
              && t.free == [] && s.config.poolSize <= c
            else
              && c == s.free[|s.free| - 1] && |t.contexts| == |s.contexts|
              && s.free == t.free + [c] && c < s.config.poolSize
    ensures t.contexts[c] ==
            (if s.free == [] then NewContext(false, -1) else s.contexts[c]).(fd := fd, lastActive := tick / 1000)
    ensures forall d :: 0 <= d < |s.contexts| && d != c ==> t.contexts[d] == s.contexts[d]
    ensures t == State(s.config, t.contexts, t.free,
                       s.conns[fd := Connection(fd, c, false)],
                       s.heartbeats, s.timers, s.gid, s.connCount + 1,
                       s.interest[fd := false], s.pending, s.running,
                       s.open, s.acceptedFds, s.closedFds,
                       s.traces[fd := Trace(fd, tick, [], [], [], [])], s.retired, tick)
  {
    t := Attach(s, fd, tick);
    if s.free == [] {
      c := |s.contexts|;
      hide PoolMatch;
    } else {
      c := s.free[|s.free| - 1];
      assert c < s.config.poolSize <= |s.contexts|;
      hide PoolMatch;
      assert s.free == t.free + [c];
    }
  }

  // ---------------------------------------------------------------- timers

  lemma RemoveKeepsNodes(ns: seq<TimerNode>, hb: map<int, TimerKey>, gid: int, fd: int)
    requires NodesMatch(ns, hb, gid)
    ensures NodesMatch(if fd in hb then Remove(ns, hb[fd]) else ns, hb - {fd}, gid)
  {
    if fd in hb {
      var r := Remove(ns, hb[fd]);
      assert Sorted(r);
      assert TimerNode(hb[fd], fd) in ns;
      hide Remove, Sorted;
      assert forall n :: n in ns && n.key == hb[fd] ==> n.fd == fd by {
        SameKeySameFd(ns, hb, gid, fd);
      }
    } else {
      assert hb - {fd} == hb;
    }
  }

  /** Keys are unique in an ordered set. */
  lemma SameKeySameFd(ns: seq<TimerNode>, hb: map<int, TimerKey>, gid: int, fd: int)
    requires NodesMatch(ns, hb, gid) && fd in hb
    ensures forall n :: n in ns && n.key == hb[fd] ==> n.fd == fd
  {
    assert TimerNode(hb[fd], fd) in ns;
    var i :| 0 <= i < |ns| && ns[i] == TimerNode(hb[fd], fd);
    forall n | n in ns && n.key == hb[fd]
      ensures n.fd == fd
    {
      var j :| 0 <= j < |ns| && ns[j] == n;
      assert i == j;
    }
  }

  lemma AddKeepsNodes(ns: seq<TimerNode>, hb: map<int, TimerKey>, gid: int, fd: int, key: TimerKey)
    requires NodesMatch(ns, hb, gid) && fd !in hb && key.id == gid + 1
    ensures NodesMatch(Insert(ns, TimerNode(key, fd)), hb[fd := key], gid + 1)
  {
    assert forall n :: n in ns ==> n.key != key;
    var r := Insert(ns, TimerNode(key, fd));
    assert TimerNode(key, fd) in r && Sorted(r);
    hide Insert, Sorted;
  }

  /** Restarting keeps the bijection between nodes and table entries. */
  lemma StartKeepsTimers(s: State, fd: int, tick: int)
    requires TimersAgree(s)
    ensures TimersAgree(StartHeartbeat(s, fd, tick))
  {
    hide NodesMatch, StartHeartbeat, Insert, Remove;
    StartByField(s, fd, tick);
    RemoveKeepsNodes(s.timers, s.heartbeats, s.gid, fd);
    AddKeepsNodes(if fd in s.heartbeats then Remove(s.timers, s.heartbeats[fd]) else s.timers,
                  s.heartbeats - {fd}, s.gid, fd, TimerKey(tick + s.config.heartbeatMs, s.gid + 1));
  }

  lemma RemoveKeepsExpiries(hb: map<int, TimerKey>, traces: map<int, Trace>, ms: int, now: int, fd: int)
    requires ExpiriesMatch(hb, traces, ms, now)
    ensures ExpiriesMatch(hb - {fd}, traces - {fd}, ms, now)
  {
  }

  lemma StartKeepsExpiries(hb: map<int, TimerKey>, traces: map<int, Trace>, ms: int, now: int,
                           fd: int, key: TimerKey, t: Trace, tick: int)
    requires ExpiriesMatch(hb, traces, ms, now) && now <= tick
    requires key.expire == tick + ms && t.lastRead == tick
    ensures ExpiriesMatch((hb - {fd})[fd := key], traces[fd := t], ms, tick)
  {
  }

  /** No connection has been idle for an interval at `tick`. */
  ghost predicate NoneOverdue(s: State, tick: int)
  {
    forall fd :: fd in s.conns ==>
      fd in s.traces && tick < s.traces[fd].lastRead + s.config.heartbeatMs
  }

  /** No node is due if the first is not. */
  lemma FirstIsEarliest(ns: seq<TimerNode>, tick: int)
    requires Sorted(ns) && (ns == [] || tick < ns[0].key.expire)
    ensures forall n :: n in ns ==> tick < n.key.expire
  {
    forall n | n in ns
      ensures tick < n.key.expire
    {
      var i :| 0 <= i < |ns| && ns[i] == n;
      assert i > 0 ==> Before(ns[0].key, ns[i].key);
    }
  }

  lemma QuietCheck(s: State, tick: int)
    requires TablesAgree(s) && TimersAgree(s) && TimersExact(s)
    requires s.timers == [] || tick < s.timers[0].key.expire
    ensures NoneOverdue(s, tick)
  {
    FirstIsEarliest(s.timers, tick);
    assert forall fd :: fd in s.heartbeats ==> TimerNode(s.heartbeats[fd], fd) in s.timers;
    hide NodesMatch;
  }

  // ---------------------------------------------------------------- closing

  /** Taking a connection out of the tables, its context without a descriptor. */
  lemma UnlinkKeepsLinks(cs: seq<Context>, conns: map<int, Connection>, traces: map<int, Trace>, fd: int, ctx: Context)
    requires LinksMatch(cs, conns, traces) && fd in conns && ctx.fd == -1
    ensures LinksMatch(cs[conns[fd].ctx := ctx], conns - {fd}, traces - {fd})
  {
    var c := conns[fd].ctx;
    assert forall gd :: gd in conns && gd != fd ==> conns[gd].ctx != c;
  }

  /** Giving a context back keeps the pool partitioned. */
  lemma ReleaseKeepsPool(n: nat, cs: seq<Context>, free: seq<int>, c: nat)
    requires PoolMatch(n, cs, free) && c < |cs| && cs[c].fd != -1
    ensures var ctx := cs[c];
            PoolMatch(n, cs[c := if ctx.poolIdx == -1 then ctx.(fd := -1) else ctx.Reset()],
                      if ctx.poolIdx == -1 then free else free + [ctx.poolIdx])
  {
    assert c < n ==> c !in free;
    if c < n {
      assert forall d :: d in free + [c] <==> d in free || d == c;
    }
  }

  lemma KeyRemoved(m: map<int, Connection>, fd: int)
    requires fd in m
    ensures multiset((m - {fd}).Keys) == multiset(m.Keys) - multiset{fd}
    ensures |m - {fd}| == |m| - 1
  {
    assert (m - {fd}).Keys == m.Keys - {fd};
  }

  lemma CloseKeepsBooks(open: set<int>, conns: map<int, Connection>, adds: seq<int>,
                        acc: multiset<int>, closed: multiset<int>, count: int, fd: int)
    requires BooksMatch(open, conns, adds, acc, closed, count) && fd in conns
    ensures BooksMatch(open - {fd}, conns - {fd}, adds, acc, closed + multiset{fd}, count - 1)
  {
    KeyRemoved(conns, fd);
    assert fd in multiset(conns.Keys);
    assert fd in multiset(open);
    assert multiset(open - {fd}) == multiset(open) - multiset{fd};
  }

  lemma CloseKeepsStreams(config: Config, cs: seq<Context>, conns: map<int, Connection>,
                          interest: map<int, bool>, traces: map<int, Trace>, fd: int, ctx: Context)
    requires LinksMatch(cs, conns, traces) && fd in conns
    requires StreamsMatch(config, cs, conns, interest, traces, fd)
    ensures StreamsMatch(config, cs[conns[fd].ctx := ctx], conns - {fd}, interest - {fd}, traces - {fd}, -1)
  {
    hide StreamsAgree;
    var c := conns[fd].ctx;
    assert forall gd :: gd in conns && gd != fd ==> conns[gd].ctx != c;
  }

  /** What a connection's streams guarantee at the moment it is closed. */
  ghost predicate Closable(s: State, fd: int, cause: Cause)
  {
    fd in s.traces && RetiredOk(s.config, Retired(s.traces[fd], cause, s.now))
  }

  lemma RetireKeeps(config: Config, retired: seq<Retired>, r: Retired)
    requires RetiredMatch(config, retired) && RetiredOk(config, r)
    ensures RetiredMatch(config, retired + [r])
  {
    hide RetiredOk;
  }

  /** The invariant without the streams of `fd`, which a read or write that ends in
      a close may leave in disarray. */
  ghost predicate InvExcept(s: State, fd: int)
  {
    && TablesAgree(s)
    && PoolConsistent(s)
    && TimersAgree(s)
    && TimersExact(s)
    && DescriptorsAgree(s)
    && AllRetiredOk(s)
    && StreamsMatch(s.config, s.contexts, s.conns, s.interest, s.traces, fd)
  }

  lemma LinkFacts(s: State, fd: int)
    requires TablesAgree(s) && fd in s.conns
    ensures fd in s.traces && fd in s.interest && fd in s.heartbeats
    ensures s.conns[fd] == Connection(fd, s.conns[fd].ctx, false) && s.conns[fd].ctx < |s.contexts|
    ensures s.contexts[s.conns[fd].ctx].fd == fd && 0 <= fd && s.traces[fd].fd == fd
    ensures Known(s, fd)
  {
  }

  lemma CloseRestoresInv(s: State, fd: int, cause: Cause)
    requires InvExcept(s, fd) && fd in s.conns && Closable(s, fd, cause)
    ensures Inv(Close(s, fd, cause))
  {
    hide Close, Remove, Adds;
    hide LinksMatch, PoolMatch, NodesMatch, ExpiriesMatch, BooksMatch, StreamsMatch, RetiredMatch, RetiredOk;
    LinkFacts(s, fd);
    CloseByField(s, fd, cause);
    var c := s.conns[fd].ctx;
    var ctx := Close(s, fd, cause).contexts[c];
    UnlinkKeepsLinks(s.contexts, s.conns, s.traces, fd, ctx);
    ReleaseKeepsPool(s.config.poolSize, s.contexts, s.free, c);
    RemoveKeepsNodes(s.timers, s.heartbeats, s.gid, fd);
    RemoveKeepsExpiries(s.heartbeats, s.traces, s.config.heartbeatMs, s.now, fd);
    CloseKeepsBooks(s.open, s.conns, Adds(s.running + s.pending), s.acceptedFds, s.closedFds, s.connCount, fd);
    CloseKeepsStreams(s.config, s.contexts, s.conns, s.interest, s.traces, fd, ctx);
    RetireKeeps(s.config, s.retired, Retired(s.traces[fd], cause, s.now));
  }

  lemma InvAndExcept(s: State, fd: int)
    requires fd in s.conns
    ensures Inv(s) ==> InvExcept(s, fd)
    ensures Inv(s) ==>
              && s.conns[fd].ctx < |s.contexts| && fd in s.interest && fd in s.traces
              && StreamsAgree(s.config, s.contexts[s.conns[fd].ctx], s.interest[fd], s.traces[fd])
    ensures && InvExcept(s, fd)
            && s.conns[fd].ctx < |s.contexts| && fd in s.interest && fd in s.traces
            && StreamsAgree(s.config, s.contexts[s.conns[fd].ctx], s.interest[fd], s.traces[fd])
            ==> Inv(s)
  {
    hide StreamsAgree, LinksMatch, PoolMatch, NodesMatch, ExpiriesMatch, BooksMatch, RetiredMatch, StreamsMatch;
    if TablesAgree(s) {
      LinkFacts(s, fd);
      if -1 in s.conns {
        LinkFacts(s, -1);
      }
      StreamsSplit(s.config, s.contexts, s.conns, s.interest, s.traces, fd);
    }
  }

  /** All streams agree iff those of one connection and those of all others do. */
  lemma StreamsSplit(config: Config, cs: seq<Context>, conns: map<int, Connection>,
                     interest: map<int, bool>, traces: map<int, Trace>, fd: int)
    requires fd in conns && -1 !in conns
    ensures StreamsMatch(config, cs, conns, interest, traces, -1) <==>
            && StreamsMatch(config, cs, conns, interest, traces, fd)
            && conns[fd].ctx < |cs| && fd in interest && fd in traces
            && StreamsAgree(config, cs[conns[fd].ctx], interest[fd], traces[fd])
  {
    hide StreamsAgree;
  }

  lemma StreamsAreClosable(config: Config, ctx: Context, out: bool, t: Trace, at: int)
    requires StreamsAgree(config, ctx, out, t)
    ensures RetiredOk(config, Retired(t, OtherCause, at))
    ensures t.lastRead + config.heartbeatMs <= at ==> RetiredOk(config, Retired(t, HeartbeatExpired, at))
  {
    hide EncodeAll, ParseServer;
  }

  lemma CloseKeepsInv(s: State, fd: int)
    requires Inv(s)
    ensures Inv(Close(s, fd, OtherCause))
  {
    hide Inv, InvExcept, RetiredOk, StreamsAgree;
    if fd in s.conns {
      InvAndExcept(s, fd);
      StreamsAreClosable(s.config, s.contexts[s.conns[fd].ctx], s.interest[fd], s.traces[fd], s.now);
      CloseRestoresInv(s, fd, OtherCause);
    }
  }

  lemma LaterKeepsExpiries(hb: map<int, TimerKey>, traces: map<int, Trace>, ms: int, now: int, tick: int)
    requires ExpiriesMatch(hb, traces, ms, now) && now <= tick
    ensures ExpiriesMatch(hb, traces, ms, tick)
  {
  }

  /** The rest of the invariant does not look at the queues or the kernel's books. */
  lemma InvReframe(s: State, t: State)
    requires Inv(s) && DescriptorsAgree(t)
    requires t == s.(pending := t.pending, running := t.running, open := t.open,
                     acceptedFds := t.acceptedFds, now := t.now) && s.now <= t.now
    ensures Inv(t)
  {
    hide LinksMatch, PoolMatch, NodesMatch, ExpiriesMatch, BooksMatch, StreamsMatch, RetiredMatch, Adds;
    LaterKeepsExpiries(s.heartbeats, s.traces, s.config.heartbeatMs, s.now, t.now);
  }

  /** The connection of the first node, and when it expires. */
  lemma FirstNode(s: State)
    requires TablesAgree(s) && TimersAgree(s) && TimersExact(s) && s.timers != []
    ensures var fd := s.timers[0].fd;
            && fd in s.conns && fd in s.traces && fd in s.heartbeats
            && s.heartbeats[fd] == s.timers[0].key
            && s.timers[0].key.expire == s.traces[fd].lastRead + s.config.heartbeatMs
  {
    assert s.timers[0] in s.timers;
    assert s.timers[0].fd in s.conns.Keys;
    hide LinksMatch;
  }

  /** An expired timer closes its connection like any other close; that the node was
      popped before does not matter, because cancelling it again finds nothing. */
  lemma TimerCheckKeepsInv(s: State, tick: int)
    requires Inv(s) && s.now <= tick
    ensures Inv(TimerCheck(s, tick))
  {
    var t := s.(now := tick);
    InvReframe(s, t);
    if t.timers != [] && t.timers[0].key.expire <= tick {
      FirstNode(t);
      var fd := t.timers[0].fd;
      hide Inv, InvExcept, RetiredOk, StreamsAgree, Close;
      InvAndExcept(t, fd);
      StreamsAreClosable(t.config, t.contexts[t.conns[fd].ctx], t.interest[fd], t.traces[fd], tick);
      CloseRestoresInv(t, fd, HeartbeatExpired);
    }
  }

  // ---------------------------------------------------------------- opening

  /** Linking a descriptor to a context that has none. */
  lemma LinkKeepsLinks(cs: seq<Context>, ds: seq<Context>, conns: map<int, Connection>, traces: map<int, Trace>,
                       fd: int, c: nat, t: Trace)
    requires LinksMatch(cs, conns, traces) && fd !in conns && 0 <= fd && t.fd == fd
    requires c < |ds| && |cs| <= |ds| <= |cs| + 1 && (|ds| > |cs| ==> c == |cs|)
    requires ds[c].fd == fd && (c < |cs| ==> cs[c].fd == -1)
    requires forall d :: 0 <= d < |cs| && d != c ==> ds[d] == cs[d]
    ensures LinksMatch(ds, conns[fd := Connection(fd, c, false)], traces[fd := t])
  {
    assert forall gd :: gd in conns ==> conns[gd].ctx != c;
  }

  /** Taking the last free context, or making one when none is free. */
  lemma AcquireKeepsPool(n: nat, cs: seq<Context>, ds: seq<Context>, free: seq<int>, left: seq<int>, c: nat)
    requires PoolMatch(n, cs, free) && c < |ds| && ds[c].fd != -1
    requires if free == [] then left == [] && c == |cs| && |ds| == c + 1 && ds[c].poolIdx == -1 && !ds[c].ownerWorker
             else free == left + [c] && |ds| == |cs| && c < n
                  && ds[c].poolIdx == cs[c].poolIdx && ds[c].ownerWorker == cs[c].ownerWorker
    requires forall d :: 0 <= d < |cs| && d != c ==> ds[d] == cs[d]
    ensures PoolMatch(n, ds, left)
  {
    if free != [] {
      forall i | 0 <= i < |left|
        ensures left[i] == free[i] && left[i] != c
      {
        assert free[i] != free[|left|];
      }
      assert forall d :: d in free <==> d in left || d == c;
    }
  }

  lemma OpenKeepsStreams(config: Config, cs: seq<Context>, ds: seq<Context>, conns: map<int, Connection>,
                         interest: map<int, bool>, traces: map<int, Trace>, fd: int, c: nat, t: Trace)
    requires LinksMatch(cs, conns, traces) && StreamsMatch(config, cs, conns, interest, traces, -1)
    requires fd !in conns && c < |ds| && |cs| <= |ds| && StreamsAgree(config, ds[c], false, t)
    requires c < |cs| ==> cs[c].fd == -1
    requires forall d :: 0 <= d < |cs| && d != c ==> ds[d] == cs[d]
    ensures StreamsMatch(config, ds, conns[fd := Connection(fd, c, false)], interest[fd := false], traces[fd := t], -1)
  {
    hide StreamsAgree;
    assert forall gd :: gd in conns ==> conns[gd].ctx != c;
  }

  lemma FreshStreamsAgree(config: Config, ctx: Context, t: Trace)
    requires ctx.recvBuf == [] && ctx.sendBuf == [] && !ctx.writing
    requires t == Trace(t.fd, t.lastRead, [], [], [], [])
    ensures StreamsAgree(config, ctx, false, t)
  {
  }

  lemma KeyAdded(m: map<int, Connection>, fd: int, conn: Connection)
    requires fd !in m
    ensures multiset(m[fd := conn].Keys) == multiset(m.Keys) + multiset{fd}
    ensures |m[fd := conn]| == |m| + 1
  {
    assert m[fd := conn].Keys == m.Keys + {fd};
  }

  /** A queued descriptor is not connected; connecting it moves it in the books. */
  lemma AddKeepsBooks(open: set<int>, conns: map<int, Connection>, fd: int, adds: seq<int>,
                      acc: multiset<int>, closed: multiset<int>, count: int, conn: Connection)
    requires BooksMatch(open, conns, [fd] + adds, acc, closed, count)
    ensures fd !in conns && 0 <= fd
    ensures BooksMatch(open, conns[fd := conn], adds, acc, closed, count + 1)
  {
    assert multiset([fd] + adds) == multiset{fd} + multiset(adds);
    assert multiset(open)[fd] <= 1;
    assert fd in multiset(open);
    assert fd !in multiset(conns.Keys);
    assert fd !in conns.Keys;
    KeyAdded(conns, fd, conn);
  }

  lemma HeadAdds(s: State)
    requires s.running != []
    ensures var f := s.running[0];
            Adds(s.running + s.pending) ==
            (if f.AddConnection? then [f.fd] else []) + Adds(s.running[1..] + s.pending)
  {
    assert (s.running + s.pending)[1..] == s.running[1..] + s.pending;
  }

  lemma AddedIsNew(s: State)
    requires DescriptorsAgree(s) && s.running != [] && s.running[0].AddConnection?
    ensures s.running[0].fd !in s.conns && 0 <= s.running[0].fd
  {
    HeadAdds(s);
    hide Adds, BooksMatch;
    var fd := s.running[0].fd;
    AddKeepsBooks(s.open, s.conns, fd, Adds(s.running[1..] + s.pending), s.acceptedFds, s.closedFds,
                  s.connCount, Connection(fd, 0, false));
  }

  /** The context a new connection gets has no descriptor yet. */
  lemma FreeHasNoFd(s: State)
    requires PoolConsistent(s) && s.free != []
    ensures var c := s.free[|s.free| - 1];
            0 <= c < |s.contexts| && s.contexts[c].fd == -1 && s.contexts[c] == s.contexts[c].Reset()
  {
    assert s.free[|s.free| - 1] in s.free;
  }

  lemma OpenKeepsTables(s: State, fd: int, tick: int)
    requires TablesAgree(s) && PoolConsistent(s) && fd !in s.conns && 0 <= fd
    ensures TablesAgree(Open(s, fd, tick)) && PoolConsistent(Open(s, fd, tick))
  {
    hide Attach, StartHeartbeat, Insert, Remove, LinksMatch, PoolMatch;
    var c, a := AttachShape(s, fd, tick);
    StartByField(a, fd, tick);
    if s.free != [] {
      FreeHasNoFd(s);
    }
    LinkKeepsLinks(s.contexts, a.contexts, s.conns, s.traces, fd, c, a.traces[fd]);
    AcquireKeepsPool(s.config.poolSize, s.contexts, a.contexts, s.free, a.free, c);
  }

  lemma OpenKeepsTimers(s: State, fd: int, tick: int)
    requires PoolConsistent(s) && TimersAgree(s) && TimersExact(s) && s.now <= tick
    ensures TimersAgree(Open(s, fd, tick)) && TimersExact(Open(s, fd, tick))
  {
    hide Attach, StartHeartbeat, Insert, Remove, PoolMatch, NodesMatch, ExpiriesMatch;
    var c, a := AttachShape(s, fd, tick);
    StartByField(a, fd, tick);
    StartKeepsTimers(a, fd, tick);
    StartKeepsExpiries(s.heartbeats, s.traces, s.config.heartbeatMs, s.now, fd,
                       TimerKey(tick + s.config.heartbeatMs, s.gid + 1), a.traces[fd], tick);
  }

  lemma OpenKeepsAllStreams(s: State, fd: int, tick: int)
    requires TablesAgree(s) && PoolConsistent(s) && AllStreamsAgree(s) && fd !in s.conns
    ensures AllStreamsAgree(Open(s, fd, tick))
  {
    hide Attach, StartHeartbeat, Insert, Remove, LinksMatch, PoolMatch, StreamsMatch, StreamsAgree;
    var c, a := AttachShape(s, fd, tick);
    StartByField(a, fd, tick);
    if s.free != [] {
      FreeHasNoFd(s);
    }
    FreshStreamsAgree(s.config, a.contexts[c], a.traces[fd]);
    OpenKeepsStreams(s.config, s.contexts, a.contexts, s.conns, s.interest, s.traces, fd, c, a.traces[fd]);
  }

  lemma RunAddKeepsBooks(s: State, tick: int)
    requires PoolConsistent(s) && DescriptorsAgree(s) && s.running != [] && s.running[0].AddConnection?
    ensures DescriptorsAgree(RunFunctor(s, tick))
    ensures AllRetiredOk(s) ==> AllRetiredOk(RunFunctor(s, tick))
  {
    HeadAdds(s);
    hide Attach, StartHeartbeat, Insert, Remove, PoolMatch, BooksMatch, Adds, RetiredMatch;
    var fd := s.running[0].fd;
    var u := s.(running := s.running[1..], now := tick);
    var c, a := AttachShape(u, fd, tick);
    StartByField(a, fd, tick);
    AddKeepsBooks(s.open, s.conns, fd, Adds(u.running + u.pending), s.acceptedFds, s.closedFds,
                  s.connCount, Connection(fd, c, false));
  }

  /** Running the queued functor of an accepted descriptor. */
  lemma RunAddKeepsInv(s: State, tick: int)
    requires Inv(s) && s.running != [] && s.running[0].AddConnection? && s.now <= tick
    ensures Inv(RunFunctor(s, tick))
  {
    hide Open, Adds;
    hide LinksMatch, PoolMatch, NodesMatch, ExpiriesMatch, BooksMatch, StreamsMatch, RetiredMatch;
    var fd := s.running[0].fd;
    var u := s.(running := s.running[1..], now := tick);
    AddedIsNew(s);
    RunAddKeepsBooks(s, tick);
    LaterKeepsExpiries(s.heartbeats, s.traces, s.config.heartbeatMs, s.now, tick);
    OpenKeepsTables(u, fd, tick);
    OpenKeepsTimers(u, fd, tick);
    OpenKeepsAllStreams(u, fd, tick);
  }

  // ---------------------------------------------------------------- queueing

  lemma {:induction false} AddsAppend(fs: seq<Functor>, gs: seq<Functor>)
    ensures Adds(fs + gs) == Adds(fs) + Adds(gs)
  {
    if fs == [] {
      assert fs + gs == gs;
    } else {
      AddsAppend(fs[1..], gs);
      AddsCons(fs[0], fs[1..]);
      AddsCons(fs[0], fs[1..] + gs);
      Regroup(fs, gs);
      hide Adds;
    }
  }

  lemma Regroup(fs: seq<Functor>, gs: seq<Functor>)
    requires fs != []
    ensures fs == [fs[0]] + fs[1..] && fs + gs == [fs[0]] + (fs[1..] + gs)
  {
  }

  lemma AddsCons(f: Functor, fs: seq<Functor>)
    ensures Adds([f] + fs) == (if f.AddConnection? then [f.fd] else []) + Adds(fs)
  {
    assert ([f] + fs)[1..] == fs;
  }

  lemma PushAdds(s: State, f: Functor)
    ensures var t := Push(s, f);
            Adds(t.running + t.pending) ==
            Adds(s.running + s.pending) + (if f.AddConnection? then [f.fd] else [])
  {
    assert s.running + (s.pending + [f]) == s.running + s.pending + [f];
    AddsAppend(s.running + s.pending, [f]);
  }

  lemma PushKeepsInv(s: State, f: Functor)
    requires Inv(s) && !f.AddConnection?
    ensures Inv(Push(s, f))
  {
    PushAdds(s, f);
    hide Adds, BooksMatch;
    assert Adds(s.running + s.pending) + [] == Adds(s.running + s.pending);
    InvReframe(s, Push(s, f));
  }

  lemma AcceptKeepsBooks(open: set<int>, conns: map<int, Connection>, adds: seq<int>,
                         acc: multiset<int>, closed: multiset<int>, count: int, fd: int)
    requires BooksMatch(open, conns, adds, acc, closed, count) && 0 <= fd && fd !in open
    ensures BooksMatch(open + {fd}, conns, adds + [fd], acc + multiset{fd}, closed, count)
  {
    assert multiset(open + {fd}) == multiset(open) + multiset{fd};
    assert multiset(adds + [fd]) == multiset(adds) + multiset{fd};
  }

  lemma AcceptKeepsInv(s: State, fd: int)
    requires Inv(s) && 0 <= fd && fd !in s.open
    ensures Inv(Step(s, Accept(fd)))
  {
    PushAdds(s, AddConnection(fd));
    hide Adds, BooksMatch;
    AcceptKeepsBooks(s.open, s.conns, Adds(s.running + s.pending), s.acceptedFds, s.closedFds, s.connCount, fd);
    InvReframe(s, Step(s, Accept(fd)));
  }

  lemma PopOtherKeepsInv(s: State, tick: int)
    requires Inv(s) && s.running != [] && !s.running[0].AddConnection? && s.now <= tick
    ensures Inv(s.(running := s.running[1..], now := tick))
  {
    HeadAdds(s);
    hide Adds, BooksMatch;
    assert [] + Adds(s.running[1..] + s.pending) == Adds(s.running[1..] + s.pending);
    InvReframe(s, s.(running := s.running[1..], now := tick));
  }

  lemma SwapKeepsInv(s: State)
    requires Inv(s) && s.running == []
    ensures Inv(SwapFunctors(s))
  {
    assert s.running + s.pending == s.pending;
    assert s.pending + [] == s.pending;
    hide Adds, BooksMatch;
    InvReframe(s, SwapFunctors(s));
  }

  // ---------------------------------------------------------------- traffic on one connection

  /** A change to what belongs to one connection only. */
  function Tweak(s: State, fd: int, ctx: Context, out: bool, t: Trace): State
    requires fd in s.conns && s.conns[fd].ctx < |s.contexts|
  {
    s.(contexts := s.contexts[s.conns[fd].ctx := ctx],
       interest := s.interest[fd := out],
       traces := s.traces[fd := t])
  }

  lemma PutBack<T>(m: map<int, T>, fd: int)
    requires fd in m
    ensures m[fd := m[fd]] == m
  {
  }

  /** It keeps what identifies the context and the time of the last read. */
  ghost predicate SameIdentity(s: State, fd: int, ctx: Context, t: Trace)
    requires fd in s.conns && s.conns[fd].ctx < |s.contexts| && fd in s.traces
  {
    var was := s.contexts[s.conns[fd].ctx];
    && ctx.fd == fd && ctx.poolIdx == was.poolIdx && ctx.ownerWorker == was.ownerWorker
    && t.fd == fd && t.lastRead == s.traces[fd].lastRead
  }

  lemma TweakKeepsLinks(cs: seq<Context>, conns: map<int, Connection>, traces: map<int, Trace>,
                        fd: int, ctx: Context, t: Trace)
    requires LinksMatch(cs, conns, traces) && fd in conns && ctx.fd == fd && t.fd == fd
    ensures LinksMatch(cs[conns[fd].ctx := ctx], conns, traces[fd := t])
  {
    var c := conns[fd].ctx;
    assert forall gd :: gd in conns && gd != fd ==> conns[gd].ctx != c;
  }

  lemma TweakKeepsPool(n: nat, cs: seq<Context>, free: seq<int>, c: nat, ctx: Context)
    requires PoolMatch(n, cs, free) && c < |cs| && cs[c].fd != -1 && ctx.fd != -1
    requires ctx.poolIdx == cs[c].poolIdx && ctx.ownerWorker == cs[c].ownerWorker
    ensures PoolMatch(n, cs[c := ctx], free)
  {
    assert c !in free;
  }

  lemma TweakKeepsExpiries(hb: map<int, TimerKey>, traces: map<int, Trace>, ms: int, now: int, fd: int, t: Trace)
    requires ExpiriesMatch(hb, traces, ms, now) && fd in traces && t.lastRead == traces[fd].lastRead
    ensures ExpiriesMatch(hb, traces[fd := t], ms, now)
  {
  }

  lemma TweakKeepsStreams(config: Config, cs: seq<Context>, conns: map<int, Connection>,
                          interest: map<int, bool>, traces: map<int, Trace>,
                          fd: int, ctx: Context, out: bool, t: Trace)
    requires LinksMatch(cs, conns, traces) && fd in conns
    requires StreamsMatch(config, cs, conns, interest, traces, fd)
    ensures StreamsMatch(config, cs[conns[fd].ctx := ctx], conns, interest[fd := out], traces[fd := t], fd)
  {
    hide StreamsAgree;
    var c := conns[fd].ctx;
    assert forall gd :: gd in conns && gd != fd ==> conns[gd].ctx != c;
  }

  /** Such a change leaves everybody else alone: no other connection shares the
      context. */
  lemma TweakKeepsRest(s: State, fd: int, ctx: Context, out: bool, t: Trace)
    requires InvExcept(s, fd) && fd in s.conns && SameIdentity(s, fd, ctx, t)
    ensures InvExcept(Tweak(s, fd, ctx, out, t), fd)
  {
    hide LinksMatch, PoolMatch, NodesMatch, ExpiriesMatch, BooksMatch, StreamsMatch, RetiredMatch, Adds;
    LinkFacts(s, fd);
    TweakKeepsLinks(s.contexts, s.conns, s.traces, fd, ctx, t);
    TweakKeepsPool(s.config.poolSize, s.contexts, s.free, s.conns[fd].ctx, ctx);
    TweakKeepsExpiries(s.heartbeats, s.traces, s.config.heartbeatMs, s.now, fd, t);
    TweakKeepsStreams(s.config, s.contexts, s.conns, s.interest, s.traces, fd, ctx, out, t);
    assert (s.interest[fd := out]).Keys == s.interest.Keys && (s.traces[fd := t]).Keys == s.traces.Keys;
  }

  lemma TweakKeepsInv(s: State, fd: int, ctx: Context, out: bool, t: Trace)
    requires Inv(s) && fd in s.conns && SameIdentity(s, fd, ctx, t)
    requires StreamsAgree(s.config, ctx, out, t)
    ensures Inv(Tweak(s, fd, ctx, out, t))
  {
    hide Inv, InvExcept, StreamsAgree;
    InvAndExcept(s, fd);
    TweakKeepsRest(s, fd, ctx, out, t);
    InvAndExcept(Tweak(s, fd, ctx, out, t), fd);
  }

  lemma InvLinks(s: State, fd: int)
    requires Inv(s) && fd in s.conns
    ensures fd in s.traces && fd in s.interest && fd in s.heartbeats
    ensures s.conns[fd] == Connection(fd, s.conns[fd].ctx, false) && s.conns[fd].ctx < |s.contexts|
    ensures s.contexts[s.conns[fd].ctx].fd == fd && 0 <= fd && s.traces[fd].fd == fd
    ensures Known(s, fd)
  {
    hide LinksMatch, PoolMatch, NodesMatch, ExpiriesMatch, BooksMatch, StreamsMatch, RetiredMatch;
    LinkFacts(s, fd);
  }

  lemma InvOwner(s: State, c: nat)
    requires Inv(s) && c < |s.contexts| && s.contexts[c].fd != -1
    ensures s.contexts[c].fd in s.conns && s.conns[s.contexts[c].fd].ctx == c
  {
    hide PoolMatch, NodesMatch, ExpiriesMatch, BooksMatch, StreamsMatch, RetiredMatch;
  }

  lemma TaskUpdateKeepsInv(s: State, e: Event)
    requires Inv(s) && e.TaskUpdate? && Enabled(s, e)
    ensures Inv(Step(s, e))
  {
    hide Inv, InvExcept, StreamsAgree, Known, Read, Write, Close, TimerCheck, RunFunctor;
    var fd := s.contexts[e.ctx].fd;
    InvLinks(s, fd);
    InvOwner(s, e.ctx);
    InvAndExcept(s, fd);
    var was, t := s.contexts[e.ctx], s.traces[fd];
    var ctx := was.(uid := e.uid, loggedIn := e.loggedIn,
                    rateWindowStart := e.windowStart, rateMsgCount := e.count);
    IdleFieldsDoNotMatter(s.config, was, ctx, s.interest[fd], t);
    PutBack(s.interest, fd);
    PutBack(s.traces, fd);
    TweakKeepsInv(s, fd, ctx, s.interest[fd], t);
  }

  lemma IdleFieldsDoNotMatter(config: Config, was: Context, ctx: Context, out: bool, t: Trace)
    requires StreamsAgree(config, was, out, t)
    requires ctx.recvBuf == was.recvBuf && ctx.sendBuf == was.sendBuf && ctx.writing == was.writing
    ensures StreamsAgree(config, ctx, out, t)
  {
  }

  // ---------------------------------------------------------------- sending

  /** A packet that fits is appended whole. */
  lemma AppendKeepsStreams(config: Config, ctx: Context, out: bool, t: Trace, p: Packet)
    requires StreamsAgree(config, ctx, out, t)
    requires |ctx.sendBuf| + |Encode(p)| <= config.maxSendBuf
    ensures StreamsAgree(config, ctx.(sendBuf := ctx.sendBuf + Encode(p), writing := true), true,
                         t.(accepted := t.accepted + [p]))
  {
    hide Encode, ParseServer;
    EncodeAllSnoc(t.accepted, p);
    assert t.written + (ctx.sendBuf + Encode(p)) == t.written + ctx.sendBuf + Encode(p);
  }

  lemma SendKeepsInv(s: State, ctx: nat, p: Packet)
    requires Inv(s)
    ensures Inv(Send(s, ctx, p))
  {
    hide Inv, InvExcept, Encode, StreamsAgree, Known;
    if ctx < |s.contexts| && 0 <= s.contexts[ctx].fd {
      var fd := s.contexts[ctx].fd;
      InvOwner(s, ctx);
      InvLinks(s, fd);
      InvAndExcept(s, fd);
      var c, t := s.contexts[ctx], s.traces[fd];
      if |c.sendBuf| + |Encode(p)| > s.config.maxSendBuf {
        PushKeepsInv(s, CloseConnection(fd));
      } else {
        AppendKeepsStreams(s.config, c, s.interest[fd], t, p);
        WritingIsArmed(s.config, c, s.interest[fd], t);
        PutBack(s.interest, fd);
        TweakKeepsInv(s, fd, c.(sendBuf := c.sendBuf + Encode(p), writing := true), true,
                      t.(accepted := t.accepted + [p]));
      }
    }
  }

  lemma WritingIsArmed(config: Config, ctx: Context, out: bool, t: Trace)
    requires StreamsAgree(config, ctx, out, t)
    ensures out == ctx.writing
  {
  }

  lemma WroteKeepsStreams(config: Config, ctx: Context, out: bool, t: Trace, k: nat)
    requires StreamsAgree(config, ctx, out, t) && k <= |ctx.sendBuf|
    ensures var t' := t.(written := t.written + ctx.sendBuf[..k]);
            var ctx' := ctx.(sendBuf := ctx.sendBuf[k..]);
            && t'.written + ctx'.sendBuf == EncodeAll(t.accepted)
            && (k < |ctx.sendBuf| ==> StreamsAgree(config, ctx', out, t'))
            && (k == |ctx.sendBuf| ==> StreamsAgree(config, ctx'.(writing := false), false, t'))
  {
    hide EncodeAll, ParseServer;
    assert ctx.sendBuf == ctx.sendBuf[..k] + ctx.sendBuf[k..];
    assert t.written + ctx.sendBuf[..k] + ctx.sendBuf[k..] == t.written + ctx.sendBuf;
  }

  lemma BrokenIsClosable(config: Config, ctx: Context, out: bool, t: Trace, k: nat, at: int)
    requires StreamsAgree(config, ctx, out, t) && k <= |ctx.sendBuf|
    ensures RetiredOk(config, Retired(t.(written := t.written + ctx.sendBuf[..k]), OtherCause, at))
  {
    WroteKeepsStreams(config, ctx, out, t, k);
    hide EncodeAll, ParseServer;
    var w := t.written + ctx.sendBuf[..k];
    assert w + ctx.sendBuf[k..] == EncodeAll(t.accepted);
    assert w <= EncodeAll(t.accepted);
  }

  lemma WriteKeepsInv(s: State, fd: int, results: seq<WriteResult>)
    requires Inv(s) && fd in s.conns
    ensures Inv(Write(s, fd, results))
  {
    hide Inv, InvExcept, StreamsAgree, RetiredOk, WriteLoop, Close;
    InvLinks(s, fd);
    InvAndExcept(s, fd);
    var c := s.conns[fd].ctx;
    var ctx, t := s.contexts[c], s.traces[fd];
    var (k, end) := WriteLoop(|ctx.sendBuf|, results);
    WroteKeepsStreams(s.config, ctx, s.interest[fd], t, k);
    var ctx' := ctx.(sendBuf := ctx.sendBuf[k..]);
    var t' := t.(written := t.written + ctx.sendBuf[..k]);
    PutBack(s.interest, fd);
    var s1 := WroteBytes(s, fd, k);
    assert s1 == Tweak(s, fd, ctx', s.interest[fd], t');
    match end
    case Flushed =>
      TweakKeepsInv(s, fd, ctx'.(writing := false), false, t');
      assert s1.contexts[c := ctx'.(writing := false)] == s.contexts[c := ctx'.(writing := false)];
    case Blocked =>
      TweakKeepsInv(s, fd, ctx', s.interest[fd], t');
    case Broken =>
      TweakKeepsRest(s, fd, ctx', s.interest[fd], t');
      BrokenIsClosable(s.config, ctx, s.interest[fd], t, k, s.now);
      CloseRestoresInv(s1, fd, OtherCause);
  }

  // ---------------------------------------------------------------- receiving

  /** A read restarts the timer from this instant and touches only its own buffer. */
  lemma ReadBytesKeepsRest(s: State, fd: int, bytes: seq<byte>, tick: int)
    requires InvExcept(s, fd) && fd in s.conns && s.now <= tick
    ensures InvExcept(ReadBytes(s, fd, bytes, tick), fd)
  {
    hide LinksMatch, PoolMatch, NodesMatch, ExpiriesMatch, BooksMatch, StreamsMatch, RetiredMatch, Adds;
    hide StartHeartbeat, Insert, Remove;
    LinkFacts(s, fd);
    var c := s.conns[fd].ctx;
    var ctx := s.contexts[c].(recvBuf := s.contexts[c].recvBuf + bytes, lastActive := tick / 1000);
    var t := s.traces[fd].(received := s.traces[fd].received + bytes, lastRead := tick);
    var u := s.(contexts := s.contexts[c := ctx], traces := s.traces[fd := t], now := tick);
    StartByField(u, fd, tick);
    StartKeepsTimers(u, fd, tick);
    TweakKeepsLinks(s.contexts, s.conns, s.traces, fd, ctx, t);
    TweakKeepsPool(s.config.poolSize, s.contexts, s.free, c, ctx);
    StartKeepsExpiries(s.heartbeats, s.traces, s.config.heartbeatMs, s.now, fd,
                       TimerKey(tick + s.config.heartbeatMs, s.gid + 1), t, tick);
    TweakKeepsStreams(s.config, s.contexts, s.conns, s.interest, s.traces, fd, ctx, s.interest[fd], t);
    PutBack(s.interest, fd);
    assert (s.traces[fd := t]).Keys == s.traces.Keys;
  }

  /** The receive buffer is the part of the received stream that was not dispatched
      yet, so parsing it continues the parse of the stream. */
  ghost predicate BufferContinues(recvBuf: seq<byte>, received: seq<byte>, dispatched: seq<Packet>)
  {
    var q := ParseServer(recvBuf);
    ParseServer(received) == ServerParse(dispatched + q.frames, q.rest, q.rejected)
  }

  /** The streams while a read pass is under way: everything but the parse. */
  ghost predicate MidStreams(config: Config, ctx: Context, out: bool, t: Trace)
  {
    && StreamsAgree(config, ctx.(recvBuf := []), out, t.(received := [], dispatched := []))
    && BufferContinues(ctx.recvBuf, t.received, t.dispatched)
  }

  ghost predicate MidRead(s: State, fd: int)
  {
    && InvExcept(s, fd)
    && fd in s.conns && s.conns[fd].ctx < |s.contexts| && fd in s.interest && fd in s.traces
    && MidStreams(s.config, s.contexts[s.conns[fd].ctx], s.interest[fd], s.traces[fd])
  }

  lemma EmptyParse()
    ensures ParseServer([]) == ServerParse([], [], false)
  {
  }

  lemma ResidueStays(buf: seq<byte>)
    ensures var p := ParseServer(buf); ParseServer(p.rest) == ServerParse([], p.rest, p.rejected)
  {
    ServerParseSound(buf);
    hide ServerStep, Encode, EncodeAll;
  }

  lemma MoreBytesContinue(recvBuf: seq<byte>, received: seq<byte>, dispatched: seq<Packet>, bytes: seq<byte>)
    requires BufferContinues(recvBuf, received, dispatched)
    ensures BufferContinues(recvBuf + bytes, received + bytes, dispatched)
  {
    ServerParseAppend(received, bytes);
    ServerParseAppend(recvBuf, bytes);
    hide ParseServer;
    var q := ParseServer(recvBuf);
    assert dispatched + q.frames + ParseServer(q.rest + bytes).frames
        == dispatched + (q.frames + ParseServer(q.rest + bytes).frames);
  }

  lemma MidStreamsStart(config: Config, ctx: Context, out: bool, t: Trace)
    requires StreamsAgree(config, ctx, out, t)
    ensures MidStreams(config, ctx, out, t)
  {
    ResidueStays(t.received);
    EmptyParse();
    hide ParseServer, EncodeAll;
    assert t.dispatched + [] == t.dispatched;
  }

  lemma MidStreamsGrow(config: Config, ctx: Context, out: bool, t: Trace, bytes: seq<byte>, tick: int)
    requires MidStreams(config, ctx, out, t)
    ensures MidStreams(config, ctx.(recvBuf := ctx.recvBuf + bytes, lastActive := tick / 1000), out,
                       t.(received := t.received + bytes, lastRead := tick))
  {
    MoreBytesContinue(ctx.recvBuf, t.received, t.dispatched, bytes);
    hide ParseServer, EncodeAll, BufferContinues;
  }

  /** Handing on the whole frames completes the parse of what was received. */
  lemma MidStreamsEnd(config: Config, ctx: Context, out: bool, t: Trace, at: int)
    requires MidStreams(config, ctx, out, t)
    ensures var p := ParseServer(ctx.recvBuf);
            var t' := t.(dispatched := t.dispatched + p.frames);
            && RetiredOk(config, Retired(t, OtherCause, at))
            && RetiredOk(config, Retired(t', OtherCause, at))
            && (!p.rejected ==> StreamsAgree(config, ctx.(recvBuf := p.rest), out, t'))
  {
    hide ParseServer, EncodeAll;
  }

  lemma StartOfRead(s: State, fd: int)
    requires Inv(s) && fd in s.conns
    ensures MidRead(s, fd)
  {
    hide Inv, InvExcept, StreamsAgree, MidStreams;
    InvLinks(s, fd);
    InvAndExcept(s, fd);
    MidStreamsStart(s.config, s.contexts[s.conns[fd].ctx], s.interest[fd], s.traces[fd]);
  }

  /** The connection's own fields after a read. */
  lemma ReadBytesByField(s: State, fd: int, bytes: seq<byte>, tick: int)
    requires fd in s.conns && fd in s.traces && s.conns[fd].ctx < |s.contexts|
    ensures var u := ReadBytes(s, fd, bytes, tick);
            var c := s.conns[fd].ctx;
            && u.config == s.config && u.conns == s.conns && u.interest == s.interest && u.retired == s.retired
            && u.now == tick && u.pending == s.pending && u.running == s.running
            && u.contexts == s.contexts[c := s.contexts[c].(
                 recvBuf := s.contexts[c].recvBuf + bytes, lastActive := tick / 1000)]
            && u.traces == s.traces[fd := s.traces[fd].(
                 received := s.traces[fd].received + bytes, lastRead := tick)]
  {
    hide Insert, Remove;
  }

  lemma ReadBytesKeepsMid(s: State, fd: int, bytes: seq<byte>, tick: int)
    requires MidRead(s, fd) && s.now <= tick
    ensures MidRead(ReadBytes(s, fd, bytes, tick), fd)
  {
    hide InvExcept, MidStreams, ReadBytes;
    ReadBytesKeepsRest(s, fd, bytes, tick);
    ReadBytesByField(s, fd, bytes, tick);
    MidStreamsGrow(s.config, s.contexts[s.conns[fd].ctx], s.interest[fd], s.traces[fd], bytes, tick);
  }

  lemma {:induction false} ReadLoopKeepsMid(s: State, fd: int, results: seq<ReadResult>)
    requires MidRead(s, fd) && TicksFrom(s.now, results)
    ensures MidRead(ReadLoop(s, fd, results).0, fd)
    decreases results
  {
    hide MidRead, ReadBytes;
    if results != [] && results[0].Data? && results[0].bytes != [] {
      var bytes, tick := results[0].bytes, results[0].tick;
      ReadBytesKeepsMid(s, fd, bytes, tick);
      MidReadKnows(s, fd);
      ReadBytesByField(s, fd, bytes, tick);
      ReadLoopKeepsMid(ReadBytes(s, fd, bytes, tick), fd, results[1..]);
    }
  }

  lemma MidReadKnows(s: State, fd: int)
    requires MidRead(s, fd)
    ensures fd in s.conns && fd in s.traces && fd in s.interest && s.conns[fd].ctx < |s.contexts|
    ensures Known(s, fd) && SameIdentity(s, fd, s.contexts[s.conns[fd].ctx], s.traces[fd])
  {
    hide PoolMatch, NodesMatch, ExpiriesMatch, BooksMatch, StreamsMatch, RetiredMatch, MidStreams;
  }

  lemma DispatchEndsRead(s: State, fd: int)
    requires MidRead(s, fd)
    ensures fd in s.conns && s.conns[fd].ctx < |s.contexts|
    ensures var t := DispatchFrames(s, fd);
            && fd in t.conns
            && Closable(s, fd, OtherCause)
            && InvExcept(t, fd) && Closable(t, fd, OtherCause)
            && (!ParseServer(s.contexts[s.conns[fd].ctx].recvBuf).rejected ==> Inv(t))
  {
    MidReadKnows(s, fd);
    hide Inv, InvExcept, ParseServer, StreamsAgree, RetiredOk, MidStreams;
    var ctx, t := s.contexts[s.conns[fd].ctx], s.traces[fd];
    MidStreamsEnd(s.config, ctx, s.interest[fd], t, s.now);
    var p := ParseServer(ctx.recvBuf);
    var ctx', t' := ctx.(recvBuf := p.rest), t.(dispatched := t.dispatched + p.frames);
    PutBack(s.interest, fd);
    assert DispatchFrames(s, fd) == Tweak(s, fd, ctx', s.interest[fd], t');
    TweakKeepsRest(s, fd, ctx', s.interest[fd], t');
    InvAndExcept(DispatchFrames(s, fd), fd);
  }

  lemma ReadKeepsInv(s: State, fd: int, results: seq<ReadResult>)
    requires Inv(s) && fd in s.conns && TicksFrom(s.now, results)
    ensures Inv(Read(s, fd, results))
  {
    hide Inv, MidRead, InvExcept, Closable, ParseServer, ReadLoop, Close, DispatchFrames;
    StartOfRead(s, fd);
    ReadLoopKeepsMid(s, fd, results);
    ReadLoopKeepsIdentity(s, fd, results);
    var (s1, lost) := ReadLoop(s, fd, results);
    DispatchEndsRead(s1, fd);
    if lost {
      MidReadRest(s1, fd);
      CloseRestoresInv(s1, fd, OtherCause);
    } else if ParseServer(s1.contexts[s.conns[fd].ctx].recvBuf).rejected {
      CloseRestoresInv(DispatchFrames(s1, fd), fd, OtherCause);
    }
  }

  lemma MidReadRest(s: State, fd: int)
    requires MidRead(s, fd)
    ensures InvExcept(s, fd)
  {
  }

  /** A read pass changes neither the connection table nor the number of contexts. */
  lemma {:induction false} ReadLoopKeepsIdentity(s: State, fd: int, results: seq<ReadResult>)
    ensures var t := ReadLoop(s, fd, results).0;
            t.conns == s.conns && |t.contexts| == |s.contexts|
    decreases results
  {
    hide Insert, Remove;
    if results != [] && results[0].Data? && results[0].bytes != [] {
      var u := ReadBytes(s, fd, results[0].bytes, results[0].tick);
      ReadLoopKeepsIdentity(u, fd, results[1..]);
    }
  }

  // ---------------------------------------------------------------- runs

  lemma InitPool(config: Config, now: int)
    ensures PoolConsistent(Init(config, now))
  {
    var s := Init(config, now);
    forall c | 0 <= c < config.poolSize
      ensures c in s.free
    {
      assert s.free[c] == c;
    }
  }

  lemma InitEstablishesInv(config: Config, now: int)
    ensures Inv(Init(config, now))
  {
    InitPool(config, now);
    hide PoolMatch, StreamsAgree, RetiredOk;
  }

  /** Every action keeps the invariant. */
  lemma StepKeepsInv(s: State, e: Event)
    requires Inv(s) && Enabled(s, e)
    ensures Inv(Step(s, e))
  {
    hide Inv;
    match e
    case Accept(fd) => AcceptKeepsInv(s, fd);
    case QueueSend(ctx, p) => PushKeepsInv(s, SendPacket(ctx, p));
    case QueueClose(fd) => PushKeepsInv(s, CloseConnection(fd));
    case TaskUpdate(_, _, _, _, _) => TaskUpdateKeepsInv(s, e);
    case Readable(fd, results) => ReadKeepsInv(s, fd, results);
    case Writable(fd, results) => WriteKeepsInv(s, fd, results);
    case Hangup(fd) => CloseKeepsInv(s, fd);
    case CheckTimer(tick) => TimerCheckKeepsInv(s, tick);
    case Swap => SwapKeepsInv(s);
    case RunNext(tick) =>
      match s.running[0]
      case AddConnection(_) => RunAddKeepsInv(s, tick);
      case SendPacket(ctx, p) =>
        PopOtherKeepsInv(s, tick);
        SendKeepsInv(s.(running := s.running[1..], now := tick), ctx, p);
      case CloseConnection(fd) =>
        PopOtherKeepsInv(s, tick);
        CloseKeepsInv(s.(running := s.running[1..], now := tick), fd);
  }

  lemma {:induction false} RunKeepsInv(s: State, es: seq<Event>)
    requires Inv(s) && Legal(s, es)
    ensures Inv(Run(s, es))
    decreases es
  {
    hide Inv, Step;
    if es != [] {
      StepKeepsInv(s, es[0]);
      RunKeepsInv(Step(s, es[0]), es[1..]);
    }
  }
}
