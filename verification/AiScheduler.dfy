/** The queue in front of the AI service: a bounded FIFO of requests, and the table
    of requests being streamed, one per descriptor. */
module AiScheduler {

  const PENDING_LIMIT: nat := 1000
  const MAX_AGE_SEC: int := 30

  /** `id` tells requests apart; the timestamp is in milliseconds. */
  datatype Request = Request(id: int, uid: int, timestamp: int)

  datatype Fate = Dispatched(fd: int) | TimedOut(waitedSec: int) | Skipped

  /** `accepted` and `popped` record the history of requests. */
  datatype State = State(
    pending: seq<Request>, active: map<int, Request>,
    accepted: seq<Request>, popped: seq<(Request, Fate)>)

  const INIT := State([], map[], [], [])

  /** Submitting; `owned` says that the context belongs to a worker, `fd` is its
      descriptor at that moment. */
  function Submit(s: State, req: Request, owned: bool, fd: int): (State, bool)
  {
    if !owned || fd < 0 || fd in s.active || |s.pending| > PENDING_LIMIT then (s, false)
    else (s.(pending := s.pending + [req], accepted := s.accepted + [req]), true)
  }

  function Cancel(s: State, uid: int): State
  {
    s.(active := map fd | fd in s.active && s.active[fd].uid != uid :: s.active[fd])
  }

  function FateOf(req: Request, now: int, fd: int): Fate
  {
    var age := (now - req.timestamp) / 1000;
    if age > MAX_AGE_SEC then TimedOut(age) else if fd < 0 then Skipped else Dispatched(fd)
  }

  /** One turn of the scheduler; `fd` is the descriptor of the oldest request. */
  function Schedule(s: State, max: nat, now: int, fd: int): State
  {
    if s.pending == [] || |s.active| >= max then s
    else
      var req := s.pending[0];
      var fate := FateOf(req, now, fd);
      s.(pending := s.pending[1..],
         popped := s.popped + [(req, fate)],
         active := if fate.Dispatched? then s.active[fd := req] else s.active)
  }

  /** The end of a stream, whose context has descriptor `fd` by then. */
  function Finish(s: State, fd: int): State
  {
    if fd >= 0 then s.(active := s.active - {fd}) else s
  }

  datatype Event =
    | DoSubmit(req: Request, owned: bool, fd: int)
    | DoCancel(uid: int)
    | DoSchedule(now: int, fd: int)
    | DoFinish(fd: int)

  function Step(s: State, max: nat, e: Event): State
  {
    match e
    case DoSubmit(req, owned, fd) => Submit(s, req, owned, fd).0
    case DoCancel(uid) => Cancel(s, uid)
    case DoSchedule(now, fd) => Schedule(s, max, now, fd)
    case DoFinish(fd) => Finish(s, fd)
  }

  function Run(s: State, max: nat, es: seq<Event>): State
    decreases es
  {
    if es == [] then s else Run(Step(s, max, es[0]), max, es[1..])
  }

  function Requests(ps: seq<(Request, Fate)>): (r: seq<Request>)
    ensures |r| == |ps|
  {
    seq(|ps|, i requires 0 <= i < |ps| => ps[i].0)
  }

  ghost predicate Inv(s: State, max: nat)
  {
    && Requests(s.popped) + s.pending == s.accepted
    && |s.active| <= max
    && |s.pending| <= PENDING_LIMIT + 1
    && (forall i :: 0 <= i < |s.popped| && s.popped[i].1.TimedOut? ==> s.popped[i].1.waitedSec > MAX_AGE_SEC)
    && (forall fd :: fd in s.active ==> fd >= 0 && (s.active[fd], Dispatched(fd)) in s.popped)
  }

  lemma FewerKeys(m: map<int, Request>, n: map<int, Request>)
    requires n.Keys <= m.Keys
    ensures |n| <= |m|
  {
    assert m.Keys == n.Keys + (m.Keys - n.Keys);
  }

  lemma OneMoreKey(m: map<int, Request>, fd: int, req: Request)
    ensures |m[fd := req]| <= |m| + 1
  {
    assert m[fd := req].Keys == m.Keys + {fd};
  }

  lemma ScheduleKeepsInv(s: State, max: nat, now: int, fd: int)
    requires Inv(s, max)
    ensures Inv(Schedule(s, max, now, fd), max)
  {
    var t := Schedule(s, max, now, fd);
    if t != s {
      var req := s.pending[0];
      OneMoreKey(s.active, fd, req);
      assert Requests(t.popped) == Requests(s.popped) + [req];
      assert Requests(s.popped) + s.pending == Requests(s.popped) + [req] + s.pending[1..];
      hide Requests;
      assert t.popped[|s.popped|] == (req, FateOf(req, now, fd));
      assert forall p :: p in s.popped ==> p in t.popped;
    }
  }

  lemma StepKeepsInv(s: State, max: nat, e: Event)
    requires Inv(s, max)
    ensures Inv(Step(s, max, e), max)
  {
    hide Requests, Schedule;
    var t := Step(s, max, e);
    match e
    case DoSubmit(req, _, _) =>
      assert Requests(s.popped) + (s.pending + [req]) == s.accepted + [req];
    case DoCancel(_) => FewerKeys(s.active, t.active);
    case DoFinish(_) => FewerKeys(s.active, t.active);
    case DoSchedule(now, fd) => ScheduleKeepsInv(s, max, now, fd);
  }

  /** In every interleaving of submits, cancels, scheduling and endings, requests
      leave the queue in the order they were accepted, each once, with a fate; the
      queue and the table stay within their bounds; a request is refused for its age
      only after more than thirty seconds; and every active entry is a request that
      was dispatched on that descriptor. */
  lemma {:induction false} SchedulerConserves(s: State, max: nat, es: seq<Event>)
    requires Inv(s, max)
    ensures Inv(Run(s, max, es), max)
    decreases es
  {
    hide Inv, Step;
    if es != [] {
      StepKeepsInv(s, max, es[0]);
      SchedulerConserves(Step(s, max, es[0]), max, es[1..]);
    }
  }

  lemma InitConserves(max: nat)
    ensures Inv(INIT, max)
  {
  }

  // ---------------------------------------------------------------- what each call decides

  /** A request is taken exactly if its context has an owner and a descriptor that is
      not streaming, and at most a thousand requests wait; it then waits behind them. */
  lemma SubmitDecides(s: State, req: Request, owned: bool, fd: int)
    ensures var (t, ok) := Submit(s, req, owned, fd);
            && (ok <==> owned && 0 <= fd && fd !in s.active && |s.pending| <= 1000)
            && t.pending == (if ok then s.pending + [req] else s.pending)
            && t.active == s.active && t.popped == s.popped
  {
  }

  /** With room in the table the oldest request leaves the queue. It times out exactly if
      it has waited thirty-one seconds; otherwise it is dispatched exactly if its
      context has a descriptor, and is then what streams there. */
  lemma ScheduleDecides(s: State, max: nat, now: int, fd: int)
    ensures var t := Schedule(s, max, now, fd);
            if s.pending == [] || max <= |s.active| then t == s
            else
              var req := s.pending[0];
              && t.pending == s.pending[1..] && t.accepted == s.accepted
              && |t.popped| == |s.popped| + 1 && s.popped <= t.popped
              && var (r, fate) := t.popped[|s.popped|];
                 && r == req
                 && (fate.TimedOut? <==> now - req.timestamp >= 31000)
                 && (fate == Dispatched(fd) <==> now - req.timestamp < 31000 && 0 <= fd)
                 && (if fate == Dispatched(fd) then fd in t.active && t.active[fd] == req
                     else t.active == s.active)
                 && (forall gd :: gd != fd ==>
                       (gd in t.active <==> gd in s.active) && (gd in s.active ==> t.active[gd] == s.active[gd]))
  {
  }

  /** The turns of a run that find a request and room for it: the request, the clock and
      the descriptor of its context. */
  function Turns(s: State, max: nat, es: seq<Event>): seq<(Request, int, int)>
    decreases es
  {
    if es == [] then []
    else
      var e := es[0];
      (if e.DoSchedule? && s.pending != [] && |s.active| < max then [(s.pending[0], e.now, e.fd)] else [])
      + Turns(Step(s, max, e), max, es[1..])
  }

  predicate Earned(turn: (Request, int, int), p: (Request, Fate))
  {
    var (req, now, fd) := turn;
    && p.0 == req
    && (p.1.TimedOut? <==> now - req.timestamp >= 31000)
    && (p.1.Dispatched? <==> now - req.timestamp < 31000 && 0 <= fd)
    && (p.1.Dispatched? ==> p.1.fd == fd)
  }

  /** Over any run, each such turn takes one request, in order, and its clock and
      descriptor alone decide the request's fate. */
  lemma {:induction false} FatesFollowTurns(s: State, max: nat, es: seq<Event>)
    ensures var t, turns := Run(s, max, es), Turns(s, max, es);
            && s.popped <= t.popped && |t.popped| == |s.popped| + |turns|
            && forall k :: 0 <= k < |turns| ==> Earned(turns[k], t.popped[|s.popped| + k])
    decreases es
  {
    if es != [] {
      var e, u := es[0], Step(s, max, es[0]);
      FatesFollowTurns(u, max, es[1..]);
      StepTakesOne(s, max, e);
      hide Step, Earned;
      var t, turns, rest := Run(s, max, es), Turns(s, max, es), Turns(u, max, es[1..]);
      forall k | 0 <= k < |turns|
        ensures Earned(turns[k], t.popped[|s.popped| + k])
      {
        var taken := |turns| - |rest|;
        if taken <= k {
          assert turns[k] == rest[k - taken];
          assert Earned(rest[k - taken], t.popped[|u.popped| + (k - taken)]);
        } else {
          assert t.popped[|s.popped|] == u.popped[|s.popped|];
        }
      }
    }
  }

  lemma StepTakesOne(s: State, max: nat, e: Event)
    ensures var u := Step(s, max, e);
            if e.DoSchedule? && s.pending != [] && |s.active| < max then
              && |u.popped| == |s.popped| + 1 && s.popped <= u.popped
              && Earned((s.pending[0], e.now, e.fd), u.popped[|s.popped|])
            else u.popped == s.popped
  {
    if e.DoSchedule? {
      ScheduleDecides(s, max, e.now, e.fd);
    }
  }

  /** Cancelling removes exactly the user's entries, ending a stream exactly its
      descriptor's; the queue is left alone. */
  lemma CancelRemovesUser(s: State, uid: int, fd: int)
    ensures var t := Cancel(s, uid);
            && t.pending == s.pending && t.accepted == s.accepted && t.popped == s.popped
            && (fd in t.active <==> fd in s.active && s.active[fd].uid != uid)
            && (fd in t.active ==> t.active[fd] == s.active[fd])
  {
  }

  lemma FinishRemovesDescriptor(s: State, fd: int, gd: int)
    ensures var t := Finish(s, fd);
            && t.pending == s.pending && t.accepted == s.accepted && t.popped == s.popped
            && (gd in t.active <==> gd in s.active && (gd != fd || fd < 0))
            && (gd in t.active ==> t.active[gd] == s.active[gd])
  {
  }

  /** Scheduling turns and nothing else. */
  predicate OnlySchedules(es: seq<Event>)
  {
    forall i :: 0 <= i < |es| ==> es[i].DoSchedule?
  }

  /** Progress: while the table has room for them, as many of the oldest requests leave as
      there are turns, whatever the clock and the descriptors. */
  lemma {:induction false} TurnsTakeOldest(s: State, max: nat, es: seq<Event>)
    requires OnlySchedules(es) && |es| <= |s.pending| && |s.active| + |es| <= max
    ensures var t := Run(s, max, es);
            && t.pending == s.pending[|es|..]
            && |t.popped| == |s.popped| + |es|
            && |t.active| <= |s.active| + |es|
    decreases es
  {
    if es != [] {
      var t := Step(s, max, es[0]);
      ScheduleDecides(s, max, es[0].now, es[0].fd);
      OneMoreKey(s.active, es[0].fd, s.pending[0]);
      TurnsTakeOldest(t, max, es[1..]);
      assert t.pending[|es| - 1..] == s.pending[|es|..];
    }
  }

  /** An event that may end or replace the stream on `fd`. */
  predicate Disturbs(e: Event, fd: int, uid: int)
  {
    match e
    case DoSubmit(_, _, _) => false
    case DoCancel(u) => u == uid
    case DoSchedule(_, gd) => gd == fd
    case DoFinish(gd) => gd == fd
  }

  /** A dispatched request streams until its user cancels, its stream ends or another
      request is dispatched on its descriptor. */
  lemma {:induction false} StreamsUntilDisturbed(s: State, max: nat, es: seq<Event>, fd: int)
    requires fd in s.active
    requires forall i :: 0 <= i < |es| ==> !Disturbs(es[i], fd, s.active[fd].uid)
    ensures var t := Run(s, max, es); fd in t.active && t.active[fd] == s.active[fd]
    decreases es
  {
    if es != [] {
      StreamsUntilDisturbed(Step(s, max, es[0]), max, es[1..], fd);
    }
  }

  class Manager {
    const maxConcurrent: nat
    var pendingRequests: seq<Request>
    var activeStreams: map<int, Request>
    ghost var accepted: seq<Request>
    ghost var popped: seq<(Request, Fate)>

    ghost function View(): State
      reads this
    {
      State(pendingRequests, activeStreams, accepted, popped)
    }

    constructor (max: nat)
      ensures maxConcurrent == max && View() == INIT
    {
      maxConcurrent := max;
      pendingRequests, activeStreams, accepted, popped := [], map[], [], [];
    }

    method SubmitStreamRequest(req: Request, owned: bool, fd: int) returns (ok: bool)
      modifies this
      ensures (View(), ok) == Submit(old(View()), req, owned, fd)
    {
      if !owned || fd < 0 || fd in activeStreams || |pendingRequests| > PENDING_LIMIT {
        return false;
      }
      pendingRequests := pendingRequests + [req];
      accepted := accepted + [req];
      ok := true;
    }

    /** Erase the entries of `uid`, visiting the table in the order the container
        happens to keep. */
    method CancelRequest(uid: int, order: seq<int>)
      requires forall fd :: fd in order <==> fd in activeStreams
      modifies this`activeStreams
      ensures forall fd :: fd in activeStreams <==> fd in old(activeStreams) && old(activeStreams)[fd].uid != uid
      ensures forall fd :: fd in activeStreams ==> activeStreams[fd] == old(activeStreams)[fd]
    {
      for i := 0 to |order|
        invariant forall fd :: fd in activeStreams ==>
                    fd in old(activeStreams) && activeStreams[fd] == old(activeStreams)[fd]
        invariant forall fd :: fd in old(activeStreams) && old(activeStreams)[fd].uid != uid ==> fd in activeStreams
        invariant forall j :: 0 <= j < i && order[j] in activeStreams ==> activeStreams[order[j]].uid != uid
      {
        if order[i] in activeStreams && activeStreams[order[i]].uid == uid {
          activeStreams := activeStreams - {order[i]};
        }
      }
      forall fd | fd in activeStreams
        ensures activeStreams[fd].uid != uid
      {
        assert fd in order;
        var j :| 0 <= j < |order| && order[j] == fd;
      }
    }

    /** One turn of the scheduling thread; returns whether a task is to be started. */
    method ScheduleOnce(now: int, fd: int) returns (start: bool)
      modifies this
      ensures View() == Schedule(old(View()), maxConcurrent, now, fd)
      ensures start <==> |popped| > |old(popped)| && popped[|old(popped)|].1.Dispatched?
    {
      start := false;
      if pendingRequests == [] || |activeStreams| >= maxConcurrent {
        return;
      }
      var req := pendingRequests[0];
      pendingRequests := pendingRequests[1..];
      popped := popped + [(req, FateOf(req, now, fd))];
      if (now - req.timestamp) / 1000 > MAX_AGE_SEC {
        return;
      }
      if fd < 0 {
        return;
      }
      activeStreams := activeStreams[fd := req];
      start := true;
    }

    method FinishStream(fd: int)
      modifies this`activeStreams
      ensures View() == Finish(old(View()), fd)
    {
      if fd >= 0 {
        activeStreams := activeStreams - {fd};
      }
    }
  }
}
