/** The task pool as a protocol: workers wait for a task or for the end, take the
    oldest task under the lock, run it outside the lock, and return once the pool is
    stopping and the queue is empty. Steps of different threads interleave freely. */
module ThreadPool {
  import opened Common

  const QUEUE_LIMIT: nat := 200000

  datatype Worker = Idle | Busy(task: int) | Returned

  /** `accepted`, `started` and `finished` record the history of tasks. */
  datatype State = State(
    workers: seq<Worker>, tasks: seq<int>, stop: bool,
    accepted: seq<int>, started: seq<int>, finished: multiset<int>)

  function Init(n: nat): State
  {
    State(seq(n, _ => Idle), [], false, [], [], multiset{})
  }

  datatype Event =
    | Enqueue(source: Option<nat>, task: int)
    | Take(w: nat)
    | Finish(w: nat)
    | Return(w: nat)
    | Stop

  predicate Is(s: State, w: nat, k: Worker -> bool)
  {
    w < |s.workers| && k(s.workers[w])
  }

  /** Once the destructor runs, only tasks of the pool itself still enqueue. */
  predicate Enabled(s: State, e: Event)
  {
    match e
    case Enqueue(source, _) => if source.None? then !s.stop else Is(s, source.value, (x: Worker) => x.Busy?)
    case Take(w) => Is(s, w, (x: Worker) => x.Idle?) && s.tasks != []
    case Finish(w) => Is(s, w, (x: Worker) => x.Busy?)
    case Return(w) => Is(s, w, (x: Worker) => x.Idle?) && s.stop && s.tasks == []
    case Stop => !s.stop
  }

  function Step(s: State, e: Event): State
    requires Enabled(s, e)
  {
    match e
    case Enqueue(_, task) =>
      if |s.tasks| > QUEUE_LIMIT then s
      else s.(tasks := s.tasks + [task], accepted := s.accepted + [task])
    case Take(w) =>
      s.(workers := s.workers[w := Busy(s.tasks[0])], tasks := s.tasks[1..], started := s.started + [s.tasks[0]])
    case Finish(w) =>
      s.(workers := s.workers[w := Idle], finished := s.finished + multiset{s.workers[w].task})
    case Return(w) => s.(workers := s.workers[w := Returned])
    case Stop => s.(stop := true)
  }

  ghost predicate Legal(s: State, es: seq<Event>)
    decreases es
  {
    es == [] || (Enabled(s, es[0]) && Legal(Step(s, es[0]), es[1..]))
  }

  ghost function Run(s: State, es: seq<Event>): State
    requires Legal(s, es)
    decreases es
  {
    if es == [] then s else Run(Step(s, es[0]), es[1..])
  }

  // ---------------------------------------------------------------- invariant

  /** How many workers run `task` now. */
  function Running(ws: seq<Worker>, task: int): nat
  {
    if ws == [] then 0
    else Running(ws[..|ws| - 1], task) + (if ws[|ws| - 1] == Busy(task) then 1 else 0)
  }

  lemma {:induction false} RunningUpdate(ws: seq<Worker>, w: nat, x: Worker, task: int)
    requires w < |ws|
    ensures Running(ws[w := x], task) + (if ws[w] == Busy(task) then 1 else 0)
         == Running(ws, task) + (if x == Busy(task) then 1 else 0)
  {
    var n := |ws| - 1;
    if w < n {
      RunningUpdate(ws[..n], w, x, task);
      assert ws[w := x][..n] == ws[..n][w := x];
    } else {
      assert ws[w := x][..n] == ws[..n];
    }
  }

  lemma {:induction false} NothingRuns(ws: seq<Worker>, task: int)
    requires forall i :: 0 <= i < |ws| ==> !ws[i].Busy?
    ensures Running(ws, task) == 0
  {
    if ws != [] {
      NothingRuns(ws[..|ws| - 1], task);
    }
  }

  predicate AllReturned(s: State)
  {
    forall i :: 0 <= i < |s.workers| ==> s.workers[i].Returned?
  }

  /** Every started task is finished or running. */
  ghost predicate CountsMatch(s: State)
  {
    forall t :: multiset(s.started)[t] == s.finished[t] + Running(s.workers, t)
  }

  ghost predicate Inv(s: State)
  {
    && s.accepted == s.started + s.tasks
    && CountsMatch(s)
    && |s.tasks| <= QUEUE_LIMIT + 1
    && (forall i :: 0 <= i < |s.workers| && s.workers[i].Returned? ==> s.stop)
    && (s.tasks != [] ==> exists i :: 0 <= i < |s.workers| && !s.workers[i].Returned?)
  }

  lemma InitInv(n: nat)
    ensures Inv(Init(n))
  {
    forall t
      ensures Running(Init(n).workers, t) == 0
    {
      NothingRuns(Init(n).workers, t);
    }
  }

  /** Every worker counts its task from taking it to finishing it. */
  lemma StepKeepsCounts(s: State, e: Event, t: int)
    requires Inv(s) && Enabled(s, e)
    ensures var u := Step(s, e);
            multiset(u.started)[t] == u.finished[t] + Running(u.workers, t)
  {
    hide Running;
    assert multiset(s.started)[t] == s.finished[t] + Running(s.workers, t);
    match e
    case Take(w) =>
      RunningUpdate(s.workers, w, Busy(s.tasks[0]), t);
      assert multiset(s.started + [s.tasks[0]]) == multiset(s.started) + multiset{s.tasks[0]};
    case Finish(w) => RunningUpdate(s.workers, w, Idle, t);
    case Return(w) => RunningUpdate(s.workers, w, Returned, t);
    case _ =>
  }

  lemma StepKeepsAllCounts(s: State, e: Event)
    requires Inv(s) && Enabled(s, e) && 0 < |s.workers|
    ensures CountsMatch(Step(s, e))
  {
    hide Inv, Enabled, Step, Running;
    var u := Step(s, e);
    forall t
      ensures multiset(u.started)[t] == u.finished[t] + Running(u.workers, t)
    {
      StepKeepsCounts(s, e, t);
    }
  }

  lemma StepKeepsInv(s: State, e: Event)
    requires Inv(s) && Enabled(s, e) && 0 < |s.workers|
    ensures Inv(Step(s, e)) && |Step(s, e).workers| == |s.workers|
  {
    var u := Step(s, e);
    StepKeepsAllCounts(s, e);
    hide Running, CountsMatch;
    match e
    case Enqueue(source, task) =>
      assert s.accepted + [task] == s.started + (s.tasks + [task]);
      var i := if source.Some? then source.value else 0;
      assert !s.workers[i].Returned?;
    case Take(w) =>
      assert s.started + s.tasks == s.started + [s.tasks[0]] + s.tasks[1..];
      assert !u.workers[w].Returned?;
    case Finish(w) => assert !u.workers[w].Returned?;
    case _ =>
  }

  lemma {:induction false} RunKeepsInv(s: State, es: seq<Event>)
    requires Inv(s) && Legal(s, es) && 0 < |s.workers|
    ensures Inv(Run(s, es)) && |Run(s, es).workers| == |s.workers|
    decreases es
  {
    hide Inv, Enabled;
    if es != [] {
      StepKeepsInv(s, es[0]);
      RunKeepsInv(Step(s, es[0]), es[1..]);
    }
  }

  // ---------------------------------------------------------------- theorems

  /** In every interleaving tasks start in the order they were accepted and the
      queue stays bounded. */
  lemma StartedInOrder(n: nat, es: seq<Event>)
    requires 0 < n && Legal(Init(n), es)
    ensures var s := Run(Init(n), es);
            s.accepted == s.started + s.tasks && |s.tasks| <= QUEUE_LIMIT + 1
  {
    InitInv(n);
    RunKeepsInv(Init(n), es);
    hide Run, Running;
  }

  /** When all workers have returned, nothing is left and every accepted task ran
      exactly once, including tasks enqueued by tasks after the stop. */
  lemma DrainedAtShutdown(n: nat, es: seq<Event>)
    requires 0 < n && Legal(Init(n), es) && AllReturned(Run(Init(n), es))
    ensures var s := Run(Init(n), es);
            s.tasks == [] && s.started == s.accepted && s.finished == multiset(s.accepted)
  {
    InitInv(n);
    RunKeepsInv(Init(n), es);
    var s := Run(Init(n), es);
    hide Run, Running;
    assert s.tasks == [];
    assert s.started + [] == s.started;
    forall t
      ensures s.finished[t] == multiset(s.accepted)[t]
    {
      NothingRuns(s.workers, t);
    }
  }

  // ---------------------------------------------------------------- tasks that are refused

  /** The task handed to `enqueue`. The reactor hands over a task per frame and does not
      look at the result. */
  function Offer(e: Event): seq<int>
  {
    if e.Enqueue? then [e.task] else []
  }

  predicate FindsFull(s: State, e: Event)
  {
    e.Enqueue? && |s.tasks| > QUEUE_LIMIT
  }

  function Refusal(s: State, e: Event): seq<int>
  {
    if FindsFull(s, e) then Offer(e) else []
  }

  function OfferedBy(es: seq<Event>): seq<int>
  {
    if es == [] then [] else Offer(es[0]) + OfferedBy(es[1..])
  }

  ghost function RefusedBy(s: State, es: seq<Event>): seq<int>
    requires Legal(s, es)
    decreases es
  {
    if es == [] then [] else Refusal(s, es[0]) + RefusedBy(Step(s, es[0]), es[1..])
  }

  ghost predicate NeverFull(s: State, es: seq<Event>)
    requires Legal(s, es)
    decreases es
  {
    es == [] || (!FindsFull(s, es[0]) && NeverFull(Step(s, es[0]), es[1..]))
  }

  lemma StepAcceptsOrRefuses(s: State, e: Event)
    requires Enabled(s, e)
    ensures FindsFull(s, e) <==> Refusal(s, e) != []
    ensures !FindsFull(s, e) ==> Step(s, e).accepted == s.accepted + Offer(e)
    ensures multiset(s.accepted) + multiset(Offer(e)) == multiset(Step(s, e).accepted) + multiset(Refusal(s, e))
  {
  }

  /** Each task handed over is accepted or refused. */
  lemma {:induction false} AcceptedOrRefused(s: State, es: seq<Event>)
    requires Legal(s, es)
    ensures multiset(s.accepted) + multiset(OfferedBy(es)) == multiset(Run(s, es).accepted) + multiset(RefusedBy(s, es))
    decreases es
  {
    if es != [] {
      var t := Step(s, es[0]);
      StepAcceptsOrRefuses(s, es[0]);
      AcceptedOrRefused(t, es[1..]);
      assert Run(s, es) == Run(t, es[1..]);
      assert RefusedBy(s, es) == Refusal(s, es[0]) + RefusedBy(t, es[1..]);
      assert OfferedBy(es) == Offer(es[0]) + OfferedBy(es[1..]);
      Balance(s.accepted, Offer(es[0]), t.accepted, Refusal(s, es[0]),
              OfferedBy(es[1..]), Run(t, es[1..]).accepted, RefusedBy(t, es[1..]));
      hide Legal, Run, RefusedBy, OfferedBy, Enabled, Step, Offer, Refusal;
    }
  }

  lemma Balance(a: seq<int>, o: seq<int>, b: seq<int>, r: seq<int>, os: seq<int>, z: seq<int>, rs: seq<int>)
    requires multiset(a) + multiset(o) == multiset(b) + multiset(r)
    requires multiset(b) + multiset(os) == multiset(z) + multiset(rs)
    ensures multiset(a) + multiset(o + os) == multiset(z) + multiset(r + rs)
  {
    calc {
      multiset(a) + multiset(o + os);
      multiset(a) + multiset(o) + multiset(os);
      multiset(b) + multiset(os) + multiset(r);
      multiset(z) + multiset(rs) + multiset(r);
      multiset(z) + multiset(r + rs);
    }
  }

  /** All are accepted, in order, exactly if the queue is never found full. */
  lemma {:induction false} AllAcceptedUnlessFull(s: State, es: seq<Event>)
    requires Legal(s, es)
    ensures NeverFull(s, es) <==> RefusedBy(s, es) == []
    ensures NeverFull(s, es) ==> Run(s, es).accepted == s.accepted + OfferedBy(es)
    decreases es
  {
    if es == [] {
      assert s.accepted + [] == s.accepted;
    } else {
      var t := Step(s, es[0]);
      StepAcceptsOrRefuses(s, es[0]);
      AllAcceptedUnlessFull(t, es[1..]);
      assert Run(s, es) == Run(t, es[1..]);
      assert RefusedBy(s, es) == Refusal(s, es[0]) + RefusedBy(t, es[1..]);
      assert OfferedBy(es) == Offer(es[0]) + OfferedBy(es[1..]);
      Regroup(s.accepted, Offer(es[0]), OfferedBy(es[1..]));
      hide Legal, Run, RefusedBy, OfferedBy, Enabled, Step, Offer, Refusal, FindsFull;
    }
  }

  lemma Regroup(xs: seq<int>, ys: seq<int>, zs: seq<int>)
    ensures xs + ys + zs == xs + (ys + zs)
  {
  }

  /** When all workers have returned, what ran and what was refused is what was handed
      over; everything handed over ran, once and in order, exactly if the queue was
      never found full. */
  lemma EveryTaskRunsUnlessFull(n: nat, es: seq<Event>)
    requires 0 < n && Legal(Init(n), es) && AllReturned(Run(Init(n), es))
    ensures var s := Run(Init(n), es);
            && s.finished + multiset(RefusedBy(Init(n), es)) == multiset(OfferedBy(es))
            && (s.finished == multiset(OfferedBy(es)) <==> NeverFull(Init(n), es))
            && (NeverFull(Init(n), es) ==> s.started == OfferedBy(es))
  {
    DrainedAtShutdown(n, es);
    AcceptedOrRefused(Init(n), es);
    AllAcceptedUnlessFull(Init(n), es);
    assert Init(n).accepted == [];
    var refused := RefusedBy(Init(n), es);
    hide Run, Legal, RefusedBy, OfferedBy, NeverFull, AllReturned, Init;
    assert [] + OfferedBy(es) == OfferedBy(es);
    assert |multiset(refused)| == |refused|;
  }

  /** So many tasks in a row, from outside the pool. */
  function Burst(first: int, count: nat): seq<Event>
    decreases count
  {
    if count == 0 then [] else [Enqueue(None, first)] + Burst(first + 1, count - 1)
  }

  /** A burst that reaches two above the limit loses its last task. */
  lemma {:induction false} BurstLosesTask(s: State, first: int, count: nat)
    requires !s.stop && 0 < count && |s.tasks| + count == QUEUE_LIMIT + 2
    ensures Legal(s, Burst(first, count)) && RefusedBy(s, Burst(first, count)) == [first + count - 1]
    decreases count
  {
    var e, rest := Enqueue(None, first), Burst(first + 1, count - 1);
    assert Burst(first, count)[1..] == rest;
    var t := Step(s, e);
    if count > 1 {
      BurstLosesTask(t, first + 1, count - 1);
    } else {
      assert rest == [] && FindsFull(s, e);
    }
  }

  // ---------------------------------------------------------------- shutdown

  /** A pool of no workers drains exactly if it was given nothing. */
  lemma {:induction false} NoWorkersNeverDrain(s: State, es: seq<Event>)
    requires s.workers == [] && Legal(s, es) && s.tasks == s.accepted
    ensures var t := Run(s, es);
            AllReturned(t) && (t.tasks == [] <==> t.accepted == [])
    decreases es
  {
    if es != [] {
      NoWorkersNeverDrain(Step(s, es[0]), es[1..]);
    }
  }

  /** No deadlock at shutdown: until all workers have returned, one of them can
      move. */
  lemma ShutdownMakesProgress(s: State) returns (e: Event)
    requires s.stop && !AllReturned(s)
    ensures (e.Take? || e.Finish? || e.Return?) && Enabled(s, e)
  {
    var w :| 0 <= w < |s.workers| && !s.workers[w].Returned?;
    e := if s.workers[w].Busy? then Finish(w) else if s.tasks != [] then Take(w) else Return(w);
  }

  /** What is left to do: three moves for a queued task, two for a running one, one
      for a worker that has yet to return. */
  function Weight(ws: seq<Worker>): nat
  {
    if ws == [] then 0 else Weight(ws[..|ws| - 1]) + Own(ws[|ws| - 1])
  }

  function Own(w: Worker): nat
  {
    match w case Busy(_) => 2 case Idle => 1 case Returned => 0
  }

  lemma {:induction false} WeightUpdate(ws: seq<Worker>, w: nat, x: Worker)
    requires w < |ws|
    ensures Weight(ws[w := x]) + Own(ws[w]) == Weight(ws) + Own(x)
  {
    var n := |ws| - 1;
    if w < n {
      WeightUpdate(ws[..n], w, x);
      assert ws[w := x][..n] == ws[..n][w := x];
    } else {
      assert ws[w := x][..n] == ws[..n];
    }
  }

  function Remaining(s: State): nat
  {
    3 * |s.tasks| + Weight(s.workers)
  }

  /** And it cannot move for ever: every worker step uses up work, so without new
      tasks shutdown ends. */
  lemma WorkerStepsUseUpWork(s: State, e: Event)
    requires (e.Take? || e.Finish? || e.Return?) && Enabled(s, e)
    ensures Remaining(Step(s, e)) < Remaining(s)
  {
    WeightUpdate(s.workers, e.w, Step(s, e).workers[e.w]);
    hide Weight;
  }
}
