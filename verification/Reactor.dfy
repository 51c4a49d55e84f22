/** One reactor thread as a state machine: connections, heartbeat timers, the
    context pool, the functor queue and what the kernel sees of the descriptors.

    `Step` says what each loop-thread action does; the actions may be interleaved
    in any order with actions of other threads (accepting, queueing functors,
    business tasks that write to a live context). */
module Reactor {
  import opened Wire
  import opened TimerQueue

  // ---------------------------------------------------------------- data

  datatype Context = Context(
    fd: int, uid: int, loggedIn: bool, lastActive: int,
    recvBuf: seq<byte>, sendBuf: seq<byte>, writing: bool,
    ownerWorker: bool, poolIdx: int,
    rateWindowStart: int, rateMsgCount: int)
  {
    function Reset(): Context
    {
      Context(-1, 0, false, 0, [], [], false, ownerWorker, poolIdx, 0, 0)
    }
  }

  function NewContext(ownerWorker: bool, poolIdx: int): Context
  {
    Context(-1, 0, false, 0, [], [], false, ownerWorker, poolIdx, 0, 0)
  }

  /** A connection object; `ctx` identifies the context it shares. */
  datatype Connection = Connection(fd: int, ctx: nat, closed: bool)

  datatype Functor =
    | AddConnection(fd: int)
    | SendPacket(ctx: nat, packet: Packet)
    | CloseConnection(fd: int)

  /** History of one connection since it was added. */
  datatype Trace = Trace(
    fd: int,
    lastRead: int,
    received: seq<byte>,
    dispatched: seq<Packet>,
    accepted: seq<Packet>,
    written: seq<byte>)

  datatype Cause = HeartbeatExpired | OtherCause

  datatype Retired = Retired(trace: Trace, cause: Cause, at: int)

  datatype Config = Config(poolSize: nat, heartbeatMs: int, maxSendBuf: u32)

  /** Contexts are named by their position in `contexts`: the pool's storage comes
      first, contexts made when the pool was empty follow. `interest` is the epoll
      registration of each descriptor (true when EPOLLOUT is requested). The fields
      from `open` on record what the kernel knows and what has happened. */
  datatype State = State(
    config: Config,
    contexts: seq<Context>,
    free: seq<int>,
    conns: map<int, Connection>,
    heartbeats: map<int, TimerKey>,
    timers: seq<TimerNode>,
    gid: int,
    connCount: int,
    interest: map<int, bool>,
    pending: seq<Functor>,
    running: seq<Functor>,
    open: set<int>,
    acceptedFds: multiset<int>,
    closedFds: multiset<int>,
    traces: map<int, Trace>,
    retired: seq<Retired>,
    now: int)

  function Init(config: Config, now: int): State
  {
    State(config,
          seq(config.poolSize, i => NewContext(true, i)),
          seq(config.poolSize, i => i),
          map[], map[], [], 0, 0, map[], [], [], {}, multiset{}, multiset{}, map[], [], now)
  }

  // ---------------------------------------------------------------- heartbeat timers

  function CancelHeartbeat(s: State, fd: int): State
  {
    if fd in s.heartbeats then
      s.(timers := Remove(s.timers, s.heartbeats[fd]), heartbeats := s.heartbeats - {fd})
    else s
  }

  function StartHeartbeat(s: State, fd: int, tick: int): State
  {
    var c := CancelHeartbeat(s, fd);
    var key := TimerKey(tick + c.config.heartbeatMs, c.gid + 1);
    c.(gid := c.gid + 1,
       timers := Insert(c.timers, TimerNode(key, fd)),
       heartbeats := c.heartbeats[fd := key])
  }

  // ---------------------------------------------------------------- opening and closing

  /** Constructing the connection object: take a context, count, register. */
  function Attach(s: State, fd: int, tick: int): State
  {
    var exhausted := s.free == [];
    var cs := if exhausted then s.contexts + [NewContext(false, -1)] else s.contexts;
    var c := if exhausted then |s.contexts| else s.free[|s.free| - 1];
    if !(0 <= c < |cs|) then s
    else
      s.(contexts := cs[c := cs[c].(fd := fd, lastActive := tick / 1000)],
         free := if exhausted then [] else s.free[..|s.free| - 1],
         conns := s.conns[fd := Connection(fd, c, false)],
         connCount := s.connCount + 1,
         interest := s.interest[fd := false],
         traces := s.traces[fd := Trace(fd, tick, [], [], [], [])],
         now := tick)
  }

  /** Adding an accepted descriptor to the loop. */
  function Open(s: State, fd: int, tick: int): State
  {
    StartHeartbeat(Attach(s, fd, tick), fd, tick)
  }

  /** Everything closing a connection does: it leaves the connection table, epoll,
      the timers and the descriptor table, its context goes back to the pool in
      reset state, and the count drops by one. */
  function Close(s: State, fd: int, cause: Cause): State
  {
    if fd !in s.conns || fd !in s.traces || s.conns[fd].ctx >= |s.contexts| then s
    else
      var c := s.conns[fd].ctx;
      var ctx := s.contexts[c];
      CancelHeartbeat(s, fd)
        .(contexts := s.contexts[c := if ctx.poolIdx == -1 then ctx.(fd := -1) else ctx.Reset()],
          free := if ctx.poolIdx == -1 then s.free else s.free + [ctx.poolIdx],
          conns := s.conns - {fd},
          connCount := s.connCount - 1,
          interest := s.interest - {fd},
          open := s.open - {fd},
          closedFds := s.closedFds + multiset{fd},
          traces := s.traces - {fd},
          retired := s.retired + [Retired(s.traces[fd], cause, s.now)])
  }

  /** The destructor of the worker: the connection objects left are destroyed, which
      closes their descriptors and counts them out. */
  function Shutdown(s: State): State
  {
    s.(conns := map[], connCount := s.connCount - |s.conns|,
       open := s.open - s.conns.Keys,
       closedFds := s.closedFds + multiset(s.conns.Keys))
  }

  // ---------------------------------------------------------------- sending

  function Push(s: State, f: Functor): State
  {
    s.(pending := s.pending + [f])
  }

  /** A packet for the connection that `ctx` names now: appended whole to the send
      buffer, or dropped whole with a close queued when the buffer would overflow. */
  function Send(s: State, ctx: nat, p: Packet): State
  {
    if ctx >= |s.contexts| || s.contexts[ctx].fd < 0 || s.contexts[ctx].fd !in s.conns then s
    else
      var fd := s.contexts[ctx].fd;
      var c := s.conns[fd].ctx;
      if c >= |s.contexts| || fd !in s.traces then s
      else if |s.contexts[c].sendBuf| + |Encode(p)| > s.config.maxSendBuf then
        Push(s, CloseConnection(fd))
      else
        var ctx' := s.contexts[c];
        var t := s.traces[fd];
        s.(contexts := s.contexts[c := ctx'.(sendBuf := ctx'.sendBuf + Encode(p), writing := true)],
           interest := if ctx'.writing then s.interest else s.interest[fd := true],
           traces := s.traces[fd := t.(accepted := t.accepted + [p])])
  }

  datatype WriteResult = Wrote(n: nat) | WriteBlocked | WriteFailed

  datatype WriteEnd = Flushed | Blocked | Broken

  /** How many bytes of a `size`-byte buffer a write loop gets rid of, and how it
      ends. The kernel never takes more than it is given; when `results` runs out
      the socket is full. */
  function WriteLoop(size: nat, results: seq<WriteResult>): (r: (nat, WriteEnd))
    ensures r.0 <= size
    ensures r.1 == Flushed <==> r.0 == size
    decreases results
  {
    if size == 0 then (0, Flushed)
    else if results == [] || results[0].WriteBlocked? then (0, Blocked)
    else if results[0].WriteFailed? || results[0].n == 0 then (0, Broken)
    else
      var n := if results[0].n < size then results[0].n else size;
      var r := WriteLoop(size - n, results[1..]);
      (n + r.0, r.1)
  }

  /** `k` bytes from the front of the send buffer went to the kernel. */
  function WroteBytes(s: State, fd: int, k: nat): State
  {
    if fd !in s.conns || fd !in s.traces || s.conns[fd].ctx >= |s.contexts| then s
    else
      var c := s.conns[fd].ctx;
      var ctx, t := s.contexts[c], s.traces[fd];
      if k > |ctx.sendBuf| then s
      else
        s.(contexts := s.contexts[c := ctx.(sendBuf := ctx.sendBuf[k..])],
           traces := s.traces[fd := t.(written := t.written + ctx.sendBuf[..k])])
  }

  /** The write side is idle again. */
  function StopWriting(s: State, fd: int): State
  {
    if fd !in s.conns || s.conns[fd].ctx >= |s.contexts| then s
    else
      var c := s.conns[fd].ctx;
      s.(contexts := s.contexts[c := s.contexts[c].(writing := false)],
         interest := s.interest[fd := false])
  }

  function Write(s: State, fd: int, results: seq<WriteResult>): State
  {
    if fd !in s.conns || s.conns[fd].ctx >= |s.contexts| then s
    else
      var (k, end) := WriteLoop(|s.contexts[s.conns[fd].ctx].sendBuf|, results);
      var s1 := WroteBytes(s, fd, k);
      match end
      case Flushed => StopWriting(s1, fd)
      case Blocked => s1
      case Broken => Close(s1, fd, OtherCause)
  }

  // ---------------------------------------------------------------- receiving

  /** The result of one `read`; no bytes means end of file. */
  datatype ReadResult = Data(bytes: seq<byte>, tick: int) | ReadBlocked | ReadFailed

  /** A read that returned bytes: buffer them, note the time, restart the timer. */
  function ReadBytes(s: State, fd: int, bytes: seq<byte>, tick: int): State
  {
    if fd !in s.conns || fd !in s.traces || s.conns[fd].ctx >= |s.contexts| then s
    else
      var c := s.conns[fd].ctx;
      var ctx, t := s.contexts[c], s.traces[fd];
      StartHeartbeat(
        s.(contexts := s.contexts[c := ctx.(recvBuf := ctx.recvBuf + bytes, lastActive := tick / 1000)],
           traces := s.traces[fd := t.(received := t.received + bytes, lastRead := tick)],
           now := tick),
        fd, tick)
  }

  /** Reading until the socket is drained; the flag says that it ended in end of
      file or an error. */
  function ReadLoop(s: State, fd: int, results: seq<ReadResult>): (State, bool)
    decreases results
  {
    if results == [] || results[0].ReadBlocked? then (s, false)
    else if results[0].ReadFailed? || results[0].bytes == [] then (s, true)
    else ReadLoop(ReadBytes(s, fd, results[0].bytes, results[0].tick), fd, results[1..])
  }

  /** The whole frames in the receive buffer are handed to the thread pool. */
  function DispatchFrames(s: State, fd: int): State
  {
    if fd !in s.conns || fd !in s.traces || s.conns[fd].ctx >= |s.contexts| then s
    else
      var c := s.conns[fd].ctx;
      var ctx, t := s.contexts[c], s.traces[fd];
      var p := ParseServer(ctx.recvBuf);
      s.(contexts := s.contexts[c := ctx.(recvBuf := p.rest)],
         traces := s.traces[fd := t.(dispatched := t.dispatched + p.frames)])
  }

  function Read(s: State, fd: int, results: seq<ReadResult>): State
  {
    if fd !in s.conns || s.conns[fd].ctx >= |s.contexts| then s
    else
      var (s1, lost) := ReadLoop(s, fd, results);
      if lost then Close(s1, fd, OtherCause)
      else
        var s2 := DispatchFrames(s1, fd);
        if |s1.contexts| == |s.contexts| &&
           ParseServer(s1.contexts[s.conns[fd].ctx].recvBuf).rejected
        then Close(s2, fd, OtherCause)
        else s2
  }

  // ---------------------------------------------------------------- timers and functors

  /** One `CheckTimer`: nothing if no node is due, otherwise the earliest node is
      removed and its connection closed. */
  function TimerCheck(s: State, tick: int): State
  {
    var t := s.(now := tick);
    if t.timers == [] || tick < t.timers[0].key.expire then t
    else Close(t, t.timers[0].fd, HeartbeatExpired)
  }

  function SwapFunctors(s: State): State
  {
    s.(running := s.pending, pending := [])
  }

  function RunFunctor(s: State, tick: int): State
  {
    if s.running == [] then s
    else
      var t := s.(running := s.running[1..], now := tick);
      match s.running[0]
      case AddConnection(fd) => Open(t, fd, tick)
      case SendPacket(ctx, p) => Send(t, ctx, p)
      case CloseConnection(fd) => Close(t, fd, OtherCause)
  }

  // ---------------------------------------------------------------- events and runs

  datatype Event =
    | Accept(fd: int)
    | QueueSend(ctx: nat, packet: Packet)
    | QueueClose(fd: int)
    | TaskUpdate(ctx: nat, uid: int, loggedIn: bool, windowStart: int, count: int)
    | Readable(fd: int, input: seq<ReadResult>)
    | Writable(fd: int, output: seq<WriteResult>)
    | Hangup(fd: int)
    | CheckTimer(tick: int)
    | Swap
    | RunNext(tick: int)

  predicate TicksFrom(now: int, results: seq<ReadResult>)
    decreases results
  {
    results == [] ||
    match results[0]
    case Data(_, tick) => now <= tick && TicksFrom(tick, results[1..])
    case _ => true
  }

  /** The kernel hands out no descriptor that is open, the clock does not go back,
      events reach connections that are still there, and business tasks write to
      contexts in use. */
  predicate Enabled(s: State, e: Event)
  {
    match e
    case Accept(fd) => 0 <= fd && fd !in s.open
    case QueueSend(_, _) => true
    case QueueClose(_) => true
    case TaskUpdate(ctx, _, _, _, _) => ctx < |s.contexts| && s.contexts[ctx].fd in s.conns
    case Readable(fd, results) => fd in s.conns && TicksFrom(s.now, results)
    case Writable(fd, _) => fd in s.conns
    case Hangup(fd) => fd in s.conns
    case CheckTimer(tick) => s.now <= tick
    case Swap => s.running == []
    case RunNext(tick) => s.running != [] && s.now <= tick
  }

  function Step(s: State, e: Event): State
  {
    match e
    case Accept(fd) =>
      Push(s, AddConnection(fd)).(open := s.open + {fd}, acceptedFds := s.acceptedFds + multiset{fd})
    case QueueSend(ctx, p) => Push(s, SendPacket(ctx, p))
    case QueueClose(fd) => Push(s, CloseConnection(fd))
    case TaskUpdate(ctx, uid, loggedIn, windowStart, count) =>
      if ctx >= |s.contexts| then s
      else s.(contexts := s.contexts[ctx := s.contexts[ctx].(
                uid := uid, loggedIn := loggedIn,
                rateWindowStart := windowStart, rateMsgCount := count)])
    case Readable(fd, results) => Read(s, fd, results)
    case Writable(fd, results) => Write(s, fd, results)
    case Hangup(fd) => Close(s, fd, OtherCause)
    case CheckTimer(tick) => TimerCheck(s, tick)
    case Swap => SwapFunctors(s)
    case RunNext(tick) => RunFunctor(s, tick)
  }

  /** `s'` is reached from `s` by the events in order, each enabled when taken. */
  predicate Legal(s: State, es: seq<Event>)
    decreases es
  {
    es == [] || (Enabled(s, es[0]) && Legal(Step(s, es[0]), es[1..]))
  }

  function Run(s: State, es: seq<Event>): State
    decreases es
  {
    if es == [] then s else Run(Step(s, es[0]), es[1..])
  }

  // ---------------------------------------------------------------- the invariant

  /** Connections and the contexts in use point at each other. */
  ghost predicate LinksMatch(contexts: seq<Context>, conns: map<int, Connection>, traces: map<int, Trace>)
  {
    && (forall fd :: fd in conns ==>
          && 0 <= fd
          && conns[fd].fd == fd
          && !conns[fd].closed
          && conns[fd].ctx < |contexts|
          && contexts[conns[fd].ctx].fd == fd
          && fd in traces && traces[fd].fd == fd)
    && (forall c :: 0 <= c < |contexts| && contexts[c].fd != -1 ==>
          contexts[c].fd in conns && conns[contexts[c].fd].ctx == c)
  }

  /** Tables agree: the same descriptors everywhere, and matching links. */
  ghost predicate TablesAgree(s: State)
  {
    && s.conns.Keys == s.heartbeats.Keys == s.interest.Keys == s.traces.Keys
    && LinksMatch(s.contexts, s.conns, s.traces)
  }

  /** What closing by descriptor relies on. */
  ghost predicate Known(s: State, fd: int)
  {
    fd in s.conns ==>
      && s.conns[fd] == Connection(fd, s.conns[fd].ctx, false)
      && s.conns[fd].ctx < |s.contexts|
      && 0 <= fd
      && fd in s.traces
  }

  /** The pool: free indices are distinct and in range, they are exactly the pooled
      contexts without a descriptor, and those are in reset state. */
  ghost predicate PoolMatch(poolSize: nat, contexts: seq<Context>, free: seq<int>)
  {
    && poolSize <= |contexts|
    && (forall c :: 0 <= c < |contexts| ==>
          && contexts[c].poolIdx == (if c < poolSize then c else -1)
          && contexts[c].ownerWorker == (c < poolSize))
    && (forall i :: 0 <= i < |free| ==> 0 <= free[i] < poolSize)
    && (forall i, j :: 0 <= i < j < |free| ==> free[i] != free[j])
    && (forall c :: 0 <= c < poolSize ==> (c in free <==> contexts[c].fd == -1))
    && (forall i :: 0 <= i < |free| ==> contexts[free[i]] == contexts[free[i]].Reset())
  }

  ghost predicate PoolConsistent(s: State)
  {
    PoolMatch(s.config.poolSize, s.contexts, s.free)
  }

  /** Timer nodes are in bijection with the heartbeat table. */
  ghost predicate NodesMatch(ns: seq<TimerNode>, hb: map<int, TimerKey>, gid: int)
  {
    && Sorted(ns)
    && (forall n :: n in ns ==> n.fd in hb && hb[n.fd] == n.key && n.key.id <= gid)
    && (forall fd :: fd in hb ==> TimerNode(hb[fd], fd) in ns)
  }

  ghost predicate TimersAgree(s: State)
  {
    NodesMatch(s.timers, s.heartbeats, s.gid)
  }

  /** Every node expires one interval after the last read of its connection. */
  ghost predicate ExpiriesMatch(hb: map<int, TimerKey>, traces: map<int, Trace>, heartbeatMs: int, now: int)
  {
    forall fd :: fd in hb && fd in traces ==>
      hb[fd].expire == traces[fd].lastRead + heartbeatMs && traces[fd].lastRead <= now
  }

  ghost predicate TimersExact(s: State)
  {
    ExpiriesMatch(s.heartbeats, s.traces, s.config.heartbeatMs, s.now)
  }

  function Adds(fs: seq<Functor>): seq<int>
  {
    if fs == [] then []
    else (if fs[0].AddConnection? then [fs[0].fd] else []) + Adds(fs[1..])
  }

  /** Descriptors: each open one is either connected or waits in exactly one queued
      functor, accepts are closes plus what is open, and connections are counted. */
  ghost predicate BooksMatch(open: set<int>, conns: map<int, Connection>, adds: seq<int>,
                             acceptedFds: multiset<int>, closedFds: multiset<int>, connCount: int)
  {
    && multiset(open) == multiset(conns.Keys) + multiset(adds)
    && acceptedFds == closedFds + multiset(open)
    && (forall fd :: fd in open ==> 0 <= fd)
    && connCount == |conns|
  }

  ghost predicate DescriptorsAgree(s: State)
  {
    BooksMatch(s.open, s.conns, Adds(s.running + s.pending), s.acceptedFds, s.closedFds, s.connCount)
  }

  /** The byte streams of one connection. */
  ghost predicate StreamsAgree(config: Config, ctx: Context, out: bool, t: Trace)
  {
    && (ctx.writing <==> ctx.sendBuf != [])
    && out == ctx.writing
    && |ctx.sendBuf| <= config.maxSendBuf
    && t.written + ctx.sendBuf == EncodeAll(t.accepted)
    && Countable(t.accepted)
    && ParseServer(t.received) == ServerParse(t.dispatched, ctx.recvBuf, false)
  }

  /** So for all connections but, perhaps, the one under `except`. */
  ghost predicate StreamsMatch(config: Config, contexts: seq<Context>, conns: map<int, Connection>,
                               interest: map<int, bool>, traces: map<int, Trace>, except: int)
  {
    forall fd :: fd in conns && fd != except ==>
      && conns[fd].ctx < |contexts| && fd in interest && fd in traces
      && StreamsAgree(config, contexts[conns[fd].ctx], interest[fd], traces[fd])
  }

  ghost predicate AllStreamsAgree(s: State)
  {
    StreamsMatch(s.config, s.contexts, s.conns, s.interest, s.traces, -1)
  }

  /** What stays true of a connection after it was closed. */
  ghost predicate RetiredOk(config: Config, r: Retired)
  {
    && (r.cause == HeartbeatExpired ==> r.trace.lastRead + config.heartbeatMs <= r.at)
    && r.trace.written <= EncodeAll(r.trace.accepted)
    && Countable(r.trace.accepted)
    && r.trace.dispatched <= ParseServer(r.trace.received).frames
  }

  ghost predicate RetiredMatch(config: Config, retired: seq<Retired>)
  {
    forall r :: r in retired ==> RetiredOk(config, r)
  }

  ghost predicate AllRetiredOk(s: State)
  {
    RetiredMatch(s.config, s.retired)
  }

  ghost predicate Inv(s: State)
  {
    && TablesAgree(s)
    && PoolConsistent(s)
    && TimersAgree(s)
    && TimersExact(s)
    && DescriptorsAgree(s)
    && AllStreamsAgree(s)
    && AllRetiredOk(s)
  }
}
