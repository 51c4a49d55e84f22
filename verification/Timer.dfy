/** The ordered timer set of a reactor thread. A node carries the descriptor its
    callback captured; every callback in the program is `force_close_in_loop(fd)`. */
module TimerQueue {
  import opened Common

  datatype TimerKey = TimerKey(expire: int, id: int)
  datatype TimerNode = TimerNode(key: TimerKey, fd: int)

  predicate Before(a: TimerKey, b: TimerKey)
  {
    if a.expire != b.expire then a.expire < b.expire else a.id < b.id
  }

  /** Strictly ascending, as the nodes of an ordered set are. */
  predicate Sorted(ns: seq<TimerNode>)
  {
    forall i, j :: 0 <= i < j < |ns| ==> Before(ns[i].key, ns[j].key)
  }

  /** Insertion into the ordered set; an equivalent node already there wins. */
  function Insert(ns: seq<TimerNode>, n: TimerNode): (r: seq<TimerNode>)
    ensures forall m :: m in r ==> m == n || m in ns
    ensures forall m :: m in ns ==> m in r
    ensures (forall m :: m in ns ==> m.key != n.key) ==> n in r
    ensures Sorted(ns) ==> Sorted(r)
  {
    if ns == [] || Before(n.key, ns[0].key) then [n] + ns
    else if ns[0].key == n.key then ns
    else
      var r := Insert(ns[1..], n);
      assert ns == [ns[0]] + ns[1..];
      assert Sorted(ns) ==> Sorted(ns[1..]) && forall m :: m in r ==> Before(ns[0].key, m.key) by {
        assert forall m :: m in ns[1..] ==> exists i :: 0 < i < |ns| && ns[i] == m;
      }
      [ns[0]] + r
  }

  /** Erasing the node with the given key, if any. */
  function Remove(ns: seq<TimerNode>, k: TimerKey): (r: seq<TimerNode>)
    ensures forall m :: m in r <==> m in ns && m.key != k
    ensures Sorted(ns) ==> Sorted(r)
    ensures |r| <= |ns|
  {
    if ns == [] then []
    else
      assert ns == [ns[0]] + ns[1..];
      var r := Remove(ns[1..], k);
      if ns[0].key == k then r else [ns[0]] + r
  }

  /** Removing the front of an ordered set by key is popping it. */
  lemma RemoveFront(ns: seq<TimerNode>)
    requires Sorted(ns) && ns != []
    ensures Remove(ns, ns[0].key) == ns[1..]
    ensures Remove(ns[1..], ns[0].key) == ns[1..]
  {
    RemoveAbsent(ns[1..], ns[0].key);
  }

  lemma {:induction false} RemoveAbsent(ns: seq<TimerNode>, k: TimerKey)
    requires forall m :: m in ns ==> m.key != k
    ensures Remove(ns, k) == ns
  {
    if ns != [] {
      RemoveAbsent(ns[1..], k);
    }
  }

  /** A node that expires no earlier than all others and has a newer id goes last: among
      timers with one interval and a clock that does not go back, the set is a queue. */
  lemma {:induction false} NewestGoesLast(ns: seq<TimerNode>, n: TimerNode)
    requires forall m :: m in ns ==> m.key.expire <= n.key.expire && m.key.id < n.key.id
    ensures Insert(ns, n) == ns + [n]
  {
    if ns != [] {
      assert ns[0] in ns;
      NewestGoesLast(ns[1..], n);
    }
  }

  /** Erasing undoes inserting. */
  lemma {:induction false} RemoveInserted(ns: seq<TimerNode>, n: TimerNode)
    requires forall m :: m in ns ==> m.key != n.key
    ensures Remove(Insert(ns, n), n.key) == ns
  {
    RemoveAbsent(ns, n.key);
    if ns != [] && !Before(n.key, ns[0].key) {
      RemoveInserted(ns[1..], n);
    }
  }

  const INT32_RANGE: int := 0x1_0000_0000

  /** `static_cast<int>` of a 64-bit value. */
  function AsInt32(x: int): int
  {
    var r := x % INT32_RANGE;
    if r <= INT32_MAX then r else r - INT32_RANGE
  }

  /** The poll timeout computed from the earliest node; -1 waits for ever. */
  function TimeToSleep(ns: seq<TimerNode>, tick: int): int
  {
    if ns == [] then -1
    else
      var diss := ns[0].key.expire - tick;
      if diss > 0 then AsInt32(diss) else 0
  }

  /** A poll that starts at `tick` with this timeout ends by the given instant. */
  predicate WakesBy(timeout: int, tick: int, instant: int)
  {
    0 <= timeout && (timeout == 0 || tick + timeout <= instant)
  }

  /** The poll is over when the earliest node is due, or at once if it already is,
      exactly if the remaining time survives the cast with its sign. */
  lemma SleepsNoLongerThanEarliest(ns: seq<TimerNode>, tick: int)
    requires Sorted(ns) && ns != []
    ensures (forall n :: n in ns ==> WakesBy(TimeToSleep(ns, tick), tick, n.key.expire))
       <==> (ns[0].key.expire - tick) % INT32_RANGE <= INT32_MAX || ns[0].key.expire <= tick
  {
    var t := TimeToSleep(ns, tick);
    assert ns[0] in ns;
    forall n | n in ns
      ensures ns[0].key.expire <= n.key.expire
    {
      var i :| 0 <= i < |ns| && ns[i] == n;
      assert i > 0 ==> Before(ns[0].key, ns[i].key);
    }
  }

  /** In particular, waits that fit an int are never cut or made endless. */
  lemma ShortWaitsWake(ns: seq<TimerNode>, tick: int, n: TimerNode)
    requires Sorted(ns) && n in ns && ns[0].key.expire - tick <= INT32_MAX
    ensures WakesBy(TimeToSleep(ns, tick), tick, n.key.expire)
  {
    SleepsNoLongerThanEarliest(ns, tick);
  }

  /** The poll timeout is the time left to the earliest node whenever that fits an int,
      nothing if it is due, and none at all without nodes. */
  lemma SleepsUntilEarliest(ns: seq<TimerNode>, tick: int)
    ensures ns == [] ==> TimeToSleep(ns, tick) == -1
    ensures ns != [] && ns[0].key.expire <= tick ==> TimeToSleep(ns, tick) == 0
    ensures ns != [] && 0 < ns[0].key.expire - tick <= 0x7FFF_FFFF ==>
              TimeToSleep(ns, tick) == ns[0].key.expire - tick
  {
  }

  /** A heartbeat of 2147484 seconds is too long: the poll timeout comes out negative,
      so the poll waits for ever. */
  lemma LongHeartbeatOversleeps(tick: int)
    ensures var expire := tick + 2147484 * 1000;
            var ns := Insert([], TimerNode(TimerKey(expire, 1), 5));
            TimeToSleep(ns, tick) < 0 && !WakesBy(TimeToSleep(ns, tick), tick, expire)
    ensures var expire := tick + 0x8000_0000;
            !WakesBy(TimeToSleep([TimerNode(TimerKey(expire, 1), 5)], tick), tick, expire)
  {
  }

  class Timer {
    var gid: int
    var timermap: seq<TimerNode>

    constructor ()
      ensures gid == 0 && timermap == []
    {
      gid, timermap := 0, [];
    }

    method AddTimer(msec: int, tick: int, fd: int) returns (key: TimerKey)
      modifies this
      ensures gid == old(gid) + 1
      ensures key == TimerKey(tick + msec, gid)
      ensures timermap == Insert(old(timermap), TimerNode(key, fd))
    {
      gid := gid + 1;
      key := TimerKey(tick + msec, gid);
      timermap := Insert(timermap, TimerNode(key, fd));
    }

    method DelTimer(key: TimerKey) returns (found: bool)
      modifies this`timermap
      ensures timermap == Remove(old(timermap), key)
      ensures found <==> exists n :: n in old(timermap) && n.key == key
    {
      found := exists n | n in timermap :: n.key == key;
      if found {
        timermap := Remove(timermap, key);
      } else {
        RemoveAbsent(timermap, key);
      }
    }

    /** The half of `CheckTimer` before the callback: take the earliest node if it
        is due. */
    method PopDue(tick: int) returns (due: bool, node: TimerNode)
      requires Sorted(timermap)
      modifies this`timermap
      ensures due <==> old(timermap) != [] && old(timermap)[0].key.expire <= tick
      ensures due ==> node == old(timermap)[0] && timermap == old(timermap)[1..]
      ensures !due ==> timermap == old(timermap)
      ensures !due ==> forall n :: n in timermap ==> tick < n.key.expire
    {
      due := timermap != [] && timermap[0].key.expire <= tick;
      node := TimerNode(TimerKey(0, 0), 0);
      if due {
        node := timermap[0];
        timermap := timermap[1..];
      } else {
        forall n | n in timermap
          ensures tick < n.key.expire
        {
          var i :| 0 <= i < |timermap| && timermap[i] == n;
          assert i > 0 ==> Before(timermap[0].key, timermap[i].key);
        }
      }
    }
  }
}
