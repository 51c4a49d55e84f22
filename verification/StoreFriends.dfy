/** Friendship bookkeeping over every run of the store. */
module StoreFriends {
  import opened Store
  import opened StorePersistence

  // ---------------------------------------------------------------- counting

  /** Pending requests of one ordered pair. */
  function PendingCount(rs: seq<FriendRequest>, a: int, b: int): nat
  {
    if rs == [] then 0
    else PendingCount(rs[..|rs| - 1], a, b) + (if IsPending(rs[|rs| - 1], a, b) then 1 else 0)
  }

  /** An accepted request that makes `p` friends. */
  predicate Befriends(r: FriendRequest, p: (int, int))
  {
    r.status == ACCEPTED && r.fromUid >= 0 && Norm(r.fromUid, r.toUid) == p
  }

  function AcceptedCount(rs: seq<FriendRequest>, p: (int, int)): nat
  {
    if rs == [] then 0
    else AcceptedCount(rs[..|rs| - 1], p) + (if Befriends(rs[|rs| - 1], p) then 1 else 0)
  }

  lemma {:induction false} PendingCountUpdate(rs: seq<FriendRequest>, i: nat, r: FriendRequest, a: int, b: int)
    requires i < |rs|
    ensures PendingCount(rs[i := r], a, b) + (if IsPending(rs[i], a, b) then 1 else 0)
         == PendingCount(rs, a, b) + (if IsPending(r, a, b) then 1 else 0)
    decreases |rs|
  {
    var n := |rs| - 1;
    if i < n {
      PendingCountUpdate(rs[..n], i, r, a, b);
      assert rs[i := r][..n] == rs[..n][i := r];
    } else {
      assert rs[i := r][..n] == rs[..n];
    }
  }

  lemma {:induction false} AcceptedCountUpdate(rs: seq<FriendRequest>, i: nat, r: FriendRequest, p: (int, int))
    requires i < |rs|
    ensures AcceptedCount(rs[i := r], p) + (if Befriends(rs[i], p) then 1 else 0)
         == AcceptedCount(rs, p) + (if Befriends(r, p) then 1 else 0)
    decreases |rs|
  {
    var n := |rs| - 1;
    if i < n {
      AcceptedCountUpdate(rs[..n], i, r, p);
      assert rs[i := r][..n] == rs[..n][i := r];
    } else {
      assert rs[i := r][..n] == rs[..n];
    }
  }

  lemma {:induction false} PendingCountZero(rs: seq<FriendRequest>, a: int, b: int)
    ensures PendingCount(rs, a, b) == 0 <==> !HasPending(rs, a, b)
  {
    if rs != [] {
      var n := |rs| - 1;
      PendingCountZero(rs[..n], a, b);
      assert HasPending(rs, a, b) <==> HasPending(rs[..n], a, b) || IsPending(rs[n], a, b) by {
        assert forall i :: 0 <= i < n ==> rs[..n][i] == rs[i];
      }
    }
  }

  // ---------------------------------------------------------------- the invariant

  /** How often a pair is befriended or about to be. */
  function Slots(t: Tables, a: int, b: int): nat
  {
    multiset(t.friends)[Norm(a, b)]
    + PendingCount(t.requests, a, b)
    + (if a == b then 0 else PendingCount(t.requests, b, a))
  }

  /** Each pair is in the friend list once per accepted request between the two. */
  ghost predicate PairsAreAccepted(t: Tables)
  {
    forall p :: multiset(t.friends)[p] == AcceptedCount(t.requests, p)
  }

  ghost predicate FriendsConserved(t: Tables)
  {
    && PairsAreAccepted(t)
    && (forall i :: 0 <= i < |t.requests| ==> t.requests[i].status in {PENDING, ACCEPTED})
    && (forall a, b :: PendingCount(t.requests, a, b) <= 1)
    && (forall a, b :: Slots(t, a, b) <= 2)
  }

  lemma AddKeepsPairs(t: Tables, fromUid: int, toUid: int, msg: string)
    requires PairsAreAccepted(t)
    ensures PairsAreAccepted(AddFriendRequest(t, fromUid, toUid, msg).0)
  {
    hide HasPending;
    var u := AddFriendRequest(t, fromUid, toUid, msg).0;
    if u != t {
      assert u.requests[..|t.requests|] == t.requests;
    }
  }

  /** A new request takes a slot of a pair that has none or only the crossing one. */
  lemma AddTakesOneSlot(t: Tables, fromUid: int, toUid: int, msg: string, a: int, b: int)
    requires FriendsConserved(t)
    ensures var u := AddFriendRequest(t, fromUid, toUid, msg).0;
            PendingCount(u.requests, a, b) <= 1 && Slots(u, a, b) <= 2
  {
    var u := AddFriendRequest(t, fromUid, toUid, msg).0;
    assert Slots(t, a, b) <= 2;
    if u != t {
      PendingCountZero(t.requests, fromUid, toUid);
      PendingCountSnoc(t.requests, u.requests[|t.requests|], a, b);
      PendingCountSnoc(t.requests, u.requests[|t.requests|], b, a);
      assert multiset(t.friends)[Norm(fromUid, toUid)] == 0;
      assert PendingCount(t.requests, a, b) <= 1 && PendingCount(t.requests, b, a) <= 1;
      hide PendingCount, AcceptedCount, HasPending;
    }
  }

  lemma PendingCountSnoc(rs: seq<FriendRequest>, r: FriendRequest, a: int, b: int)
    ensures PendingCount(rs + [r], a, b) == PendingCount(rs, a, b) + (if IsPending(r, a, b) then 1 else 0)
  {
    assert (rs + [r])[..|rs|] == rs;
  }

  lemma AddKeepsFriends(t: Tables, fromUid: int, toUid: int, msg: string)
    requires FriendsConserved(t)
    ensures FriendsConserved(AddFriendRequest(t, fromUid, toUid, msg).0)
  {
    hide PendingCount, AcceptedCount, HasPending, Slots, PairsAreAccepted;
    AddKeepsPairs(t, fromUid, toUid, msg);
    var u := AddFriendRequest(t, fromUid, toUid, msg).0;
    forall a, b
      ensures PendingCount(u.requests, a, b) <= 1
      ensures Slots(u, a, b) <= 2
    {
      AddTakesOneSlot(t, fromUid, toUid, msg, a, b);
    }
  }

  lemma AcceptKeepsPairs(t: Tables, id: int, acceptor: int)
    requires PairsAreAccepted(t)
    ensures PairsAreAccepted(AcceptFriendRequest(t, id, acceptor).0)
  {
    hide FindRequest, AcceptedCount;
    var i := FindRequest(t.requests, id, acceptor);
    if i < |t.requests| {
      var r := t.requests[i];
      var u := AcceptFriendRequest(t, id, acceptor).0;
      forall p
        ensures multiset(u.friends)[p] == AcceptedCount(u.requests, p)
      {
        AcceptedCountUpdate(t.requests, i, r.(status := ACCEPTED), p);
      }
    }
  }

  /** Accepting turns one pending request of an ordered pair into at most one entry. */
  lemma AcceptMovesOneSlot(t: Tables, id: int, acceptor: int, a: int, b: int)
    ensures var u := AcceptFriendRequest(t, id, acceptor).0;
            PendingCount(u.requests, a, b) <= PendingCount(t.requests, a, b) && Slots(u, a, b) <= Slots(t, a, b)
  {
    hide FindRequest, PendingCount;
    var i := FindRequest(t.requests, id, acceptor);
    if i < |t.requests| {
      var r := t.requests[i];
      PendingCountUpdate(t.requests, i, r.(status := ACCEPTED), a, b);
      PendingCountUpdate(t.requests, i, r.(status := ACCEPTED), b, a);
    }
  }

  lemma AcceptKeepsFriends(t: Tables, id: int, acceptor: int)
    requires FriendsConserved(t)
    ensures FriendsConserved(AcceptFriendRequest(t, id, acceptor).0)
  {
    hide FindRequest, PendingCount, Slots, PairsAreAccepted;
    AcceptKeepsPairs(t, id, acceptor);
    var u := AcceptFriendRequest(t, id, acceptor).0;
    forall a, b
      ensures PendingCount(u.requests, a, b) <= 1
      ensures Slots(u, a, b) <= 2
    {
      AcceptMovesOneSlot(t, id, acceptor, a, b);
      assert Slots(t, a, b) <= 2;
    }
  }

  lemma StepKeepsFriends(s: State, e: Event)
    requires FriendsConserved(s.tables) && (e.cmd.Restart? ==> Mirrors(s))
    ensures FriendsConserved(Step(s, e).0.tables)
  {
    hide FriendsConserved, Save, Load, NameTaken;
    var t := s.tables;
    match e.cmd
    case CmdAddFriend(a, b, msg) => AddKeepsFriends(t, a, b, msg);
    case CmdAccept(id, acceptor) => AcceptKeepsFriends(t, id, acceptor);
    case Restart => RestartIsInvisible(s, e);
    case _ => SameFriends(t, Step(s, e).0.tables);
  }

  lemma SameFriends(t: Tables, u: Tables)
    requires FriendsConserved(t) && u.friends == t.friends && u.requests == t.requests
    ensures FriendsConserved(u)
  {
    hide PendingCount, AcceptedCount;
    forall a, b
      ensures Slots(u, a, b) <= 2
    {
      assert Slots(t, a, b) <= 2;
    }
  }

  /** Friendship conservation, for every sequence of commands on an empty store:
      the friend list is the accepted requests' endpoints, as a multiset; at most one
      request is pending per ordered pair; entries and pending requests of an
      unordered pair never exceed two. */
  lemma {:induction false} RunConservesFriends(s: State, es: seq<Event>)
    requires FriendsConserved(s.tables)
    requires forall i :: 0 <= i < |es| ==> !es[i].cmd.Restart?
    ensures FriendsConserved(Run(s, es).tables)
    decreases es
  {
    hide FriendsConserved, Step;
    if es != [] {
      StepKeepsFriends(s, es[0]);
      RunConservesFriends(Step(s, es[0]).0, es[1..]);
    }
  }

  /** The same with restarts wherever they come, while the server's own calls keep the
      files up to date. */
  lemma {:induction false} RunConservesFriendsAcrossRestarts(s: State, es: seq<Event>)
    requires FriendsConserved(s.tables) && Mirrors(s) && NonNegative(s.tables.requests)
    requires forall i :: 0 <= i < |es| ==> Genuine(es[i])
    ensures FriendsConserved(Run(s, es).tables)
    decreases es
  {
    hide FriendsConserved, Step, Mirrors, NonNegative;
    if es != [] {
      StepMirrors(s, es[0]);
      StepKeepsFriends(s, es[0]);
      RunConservesFriendsAcrossRestarts(Step(s, es[0]).0, es[1..]);
    }
  }

  lemma EmptyStoreConserves()
    ensures FriendsConserved(EMPTY_TABLES)
  {
  }

  /** The bound of two is reached: crossing requests can both be accepted. */
  lemma CrossingRequestsBothAccepted()
    ensures var t1 := AddFriendRequest(EMPTY_TABLES, 1, 2, "").0;
            var t2 := AddFriendRequest(t1, 2, 1, "").0;
            var t3 := AcceptFriendRequest(t2, 1, 2).0;
            var t4 := AcceptFriendRequest(t3, 2, 1).0;
            t4.friends == [(1, 2), (1, 2)] && Slots(t4, 1, 2) == 2
  {
    var t2 := AddFriendRequest(AddFriendRequest(EMPTY_TABLES, 1, 2, "").0, 2, 1, "").0;
    assert t2.requests == [FriendRequest(1, 1, 2, "", PENDING), FriendRequest(2, 2, 1, "", PENDING)];
    assert FindRequest(t2.requests, 1, 2) == 0;
    var t3 := AcceptFriendRequest(t2, 1, 2).0;
    assert FindRequest(t3.requests, 2, 1) == 1;
    var t4 := AcceptFriendRequest(t3, 2, 1).0;
    PendingCountZero(t4.requests, 1, 2);
    PendingCountZero(t4.requests, 2, 1);
  }

  // ---------------------------------------------------------------- when a pair stays unique

  /** Every unordered pair is befriended or about to be at most once. */
  ghost predicate AtMostOne(t: Tables)
  {
    forall a, b :: Slots(t, a, b) <= 1
  }

  /** A request that is entered although its reverse is pending. */
  predicate Crosses(t: Tables, c: Command)
  {
    && c.CmdAddFriend? && c.fromUid != c.toUid
    && HasPending(t.requests, c.toUid, c.fromUid) && !HasPending(t.requests, c.fromUid, c.toUid)
  }

  /** What a new request does to the slots of a pair: one more for its own. */
  lemma AddedSlot(t: Tables, fromUid: int, toUid: int, msg: string, a: int, b: int)
    ensures var u := AddFriendRequest(t, fromUid, toUid, msg).0;
            Slots(u, a, b) ==
            Slots(t, a, b) + if u != t && Norm(a, b) == Norm(fromUid, toUid) then 1 else 0
  {
    hide HasPending;
    var u := AddFriendRequest(t, fromUid, toUid, msg).0;
    if u != t {
      var r := u.requests[|t.requests|];
      PendingCountSnoc(t.requests, r, a, b);
      PendingCountSnoc(t.requests, r, b, a);
      hide PendingCount;
    }
  }

  /** The slots a pair has when a new request is entered for it: the reverse one. */
  lemma SlotsBeforeAdd(t: Tables, fromUid: int, toUid: int, msg: string)
    requires AddFriendRequest(t, fromUid, toUid, msg).0 != t
    ensures Slots(t, fromUid, toUid) == if fromUid == toUid then 0 else PendingCount(t.requests, toUid, fromUid)
  {
    PendingCountZero(t.requests, fromUid, toUid);
    hide PendingCount, HasPending;
    assert multiset(t.friends)[Norm(fromUid, toUid)] == 0;
  }

  lemma SlotsSymmetric(t: Tables, a: int, b: int)
    ensures Slots(t, a, b) == Slots(t, b, a)
  {
  }

  lemma SlotsOfPair(t: Tables, a: int, b: int, c: int, d: int)
    requires Norm(a, b) == Norm(c, d)
    ensures Slots(t, a, b) == Slots(t, c, d)
  {
    SlotsSymmetric(t, a, b);
  }

  /** A new request keeps pairs unique exactly if it does not cross a pending one. */
  lemma AddKeepsAtMostOne(t: Tables, fromUid: int, toUid: int, msg: string)
    requires AtMostOne(t)
    ensures AtMostOne(AddFriendRequest(t, fromUid, toUid, msg).0) <==>
            !Crosses(t, CmdAddFriend(fromUid, toUid, msg))
  {
    var u := AddFriendRequest(t, fromUid, toUid, msg).0;
    AddedSlot(t, fromUid, toUid, msg, fromUid, toUid);
    PendingCountZero(t.requests, toUid, fromUid);
    if u == t {
      CrossingIsEntered(t, fromUid, toUid, msg);
    } else {
      SlotsBeforeAdd(t, fromUid, toUid, msg);
      hide Slots, PendingCount, HasPending;
      assert Slots(t, fromUid, toUid) <= 1;
      if PendingCount(t.requests, toUid, fromUid) == 0 || fromUid == toUid {
        forall a, b
          ensures Slots(u, a, b) <= 1
        {
          AddedSlot(t, fromUid, toUid, msg, a, b);
          assert Slots(t, a, b) <= 1;
          if Norm(a, b) == Norm(fromUid, toUid) {
            SlotsOfPair(t, a, b, fromUid, toUid);
          }
        }
      } else {
        assert Slots(u, fromUid, toUid) == 2;
      }
    }
  }

  /** With unique pairs, a crossing request is never refused. */
  lemma CrossingIsEntered(t: Tables, fromUid: int, toUid: int, msg: string)
    requires AtMostOne(t) && AddFriendRequest(t, fromUid, toUid, msg).0 == t
    ensures !Crosses(t, CmdAddFriend(fromUid, toUid, msg))
  {
    PendingCountZero(t.requests, toUid, fromUid);
    hide PendingCount, HasPending;
    assert Slots(t, fromUid, toUid) <= 1;
    assert fromUid != toUid && Norm(fromUid, toUid) in t.friends ==> PendingCount(t.requests, toUid, fromUid) == 0 by {
      assert Norm(fromUid, toUid) in multiset(t.friends) <==> Norm(fromUid, toUid) in t.friends;
    }
  }

  /** Every other command keeps pairs unique, so each step does exactly if it does not
      cross. */
  lemma StepKeepsAtMostOne(s: State, e: Event)
    requires AtMostOne(s.tables) && (e.cmd.Restart? ==> Mirrors(s))
    ensures AtMostOne(Step(s, e).0.tables) <==> !Crosses(s.tables, e.cmd)
  {
    hide Save, Load, NameTaken, HasPending, FindRequest, Slots;
    var t := s.tables;
    match e.cmd
    case CmdAddFriend(a, b, msg) => AddKeepsAtMostOne(t, a, b, msg);
    case CmdAccept(id, acceptor) =>
      forall a, b
        ensures Slots(Step(s, e).0.tables, a, b) <= 1
      {
        AcceptMovesOneSlot(t, id, acceptor, a, b);
        assert Slots(t, a, b) <= 1;
      }
    case Restart => RestartIsInvisible(s, e);
    case _ => SameSlots(t, Step(s, e).0.tables);
  }

  lemma SameSlots(t: Tables, u: Tables)
    requires AtMostOne(t) && u.friends == t.friends && u.requests == t.requests
    ensures AtMostOne(u)
  {
    hide PendingCount;
    forall a, b
      ensures Slots(u, a, b) <= 1
    {
      assert Slots(t, a, b) <= 1;
    }
  }

  /** No request of the run crosses a pending one. */
  predicate NeverCrosses(s: State, es: seq<Event>)
    decreases es
  {
    es == [] || (!Crosses(s.tables, es[0].cmd) && NeverCrosses(Step(s, es[0]).0, es[1..]))
  }

  ghost predicate AlwaysAtMostOne(s: State, es: seq<Event>)
    decreases es
  {
    AtMostOne(s.tables) && (es == [] || AlwaysAtMostOne(Step(s, es[0]).0, es[1..]))
  }

  /** Over any run, restarts included, pairs stay unique all the way exactly if no
      request is entered while its reverse is pending. */
  lemma {:induction false} UniqueUnlessCrossing(s: State, es: seq<Event>)
    requires AtMostOne(s.tables) && RestartsFindMirror(s, es)
    ensures AlwaysAtMostOne(s, es) <==> NeverCrosses(s, es)
    decreases es
  {
    hide AtMostOne, Step, Crosses, Mirrors;
    if es != [] {
      StepKeepsAtMostOne(s, es[0]);
      if !Crosses(s.tables, es[0].cmd) {
        UniqueUnlessCrossing(Step(s, es[0]).0, es[1..]);
      } else {
        assert !AlwaysAtMostOne(Step(s, es[0]).0, es[1..]);
      }
    }
  }

  lemma {:induction false} EndsAtMostOne(s: State, es: seq<Event>)
    requires AlwaysAtMostOne(s, es)
    ensures AtMostOne(Run(s, es).tables)
    decreases es
  {
    hide AtMostOne, Step;
    if es != [] {
      EndsAtMostOne(Step(s, es[0]).0, es[1..]);
    }
  }

  /** Hence, from an empty store, no pair is entered twice unless requests cross. */
  lemma FriendsAreUnique(disk: Disk, es: seq<Event>)
    requires var s := State(EMPTY_TABLES, disk, [], []); RestartsFindMirror(s, es) && NeverCrosses(s, es)
    ensures var fs := Run(State(EMPTY_TABLES, disk, [], []), es).tables.friends;
            Normal(fs) && NoDoubles(fs)
  {
    var s := State(EMPTY_TABLES, disk, [], []);
    assert AtMostOne(s.tables);
    UniqueUnlessCrossing(s, es);
    EndsAtMostOne(s, es);
    RunKeepsNormal(s, es);
    hide Run, NeverCrosses, RestartsFindMirror;
    UniqueEntries(Run(s, es).tables);
  }

  /** Entries are stored with the smaller uid first. */
  predicate Normal(fs: seq<(int, int)>)
  {
    forall i :: 0 <= i < |fs| ==> fs[i].0 <= fs[i].1
  }

  lemma {:induction false} RunKeepsNormal(s: State, es: seq<Event>)
    requires Normal(s.tables.friends) && RestartsFindMirror(s, es)
    ensures Normal(Run(s, es).tables.friends)
    decreases es
  {
    hide Step, Mirrors;
    if es != [] {
      StepKeepsNormal(s, es[0]);
      RunKeepsNormal(Step(s, es[0]).0, es[1..]);
    }
  }

  lemma StepKeepsNormal(s: State, e: Event)
    requires Normal(s.tables.friends) && (e.cmd.Restart? ==> Mirrors(s))
    ensures Normal(Step(s, e).0.tables.friends)
  {
    hide Save, Load, NameTaken, HasPending, FindRequest, MarkDelivered, QueryOffline;
    if e.cmd.Restart? {
      RestartIsInvisible(s, e);
    }
  }

  lemma UniqueEntries(t: Tables)
    requires AtMostOne(t) && Normal(t.friends)
    ensures NoDoubles(t.friends)
  {
    hide PendingCount;
    var fs := t.friends;
    forall i, j | 0 <= i < j < |fs|
      ensures fs[i] != fs[j]
    {
      assert Slots(t, fs[i].0, fs[i].1) <= 1;
      if fs[i] == fs[j] {
        CountedTwice(fs, i, j);
      }
    }
  }

  lemma CountedTwice(fs: seq<(int, int)>, i: nat, j: nat)
    requires i < j < |fs| && fs[i] == fs[j]
    ensures multiset(fs)[fs[i]] >= 2
  {
    assert fs == fs[..i] + [fs[i]] + fs[i + 1..j] + [fs[j]] + fs[j + 1..];
  }

  // ---------------------------------------------------------------- when an entry is doubled

  predicate NoDoubles(fs: seq<(int, int)>)
  {
    forall i, j :: 0 <= i < j < |fs| ==> fs[i] != fs[j]
  }

  /** The request that an accept finds would befriend a pair that is befriended. */
  predicate AcceptsTwice(t: Tables, c: Command)
  {
    c.CmdAccept? &&
    var i := FindRequest(t.requests, c.id, c.acceptor);
    i < |t.requests| && t.requests[i].fromUid >= 0 && Norm(t.requests[i].fromUid, c.acceptor) in t.friends
  }

  lemma AddedEntry(fs: seq<(int, int)>, p: (int, int))
    ensures NoDoubles(fs + [p]) <==> NoDoubles(fs) && p !in fs
  {
    var gs := fs + [p];
    assert forall i :: 0 <= i < |fs| ==> gs[i] == fs[i];
    if p in fs {
      var i :| 0 <= i < |fs| && fs[i] == p;
      assert gs[i] == gs[|fs|];
    }
    if i, j :| 0 <= i < j < |fs| && fs[i] == fs[j] {
      assert gs[i] == gs[j];
    }
  }

  /** What each command does to the friend list: an accept may add one entry. */
  lemma StepAddsEntry(s: State, e: Event)
    requires e.cmd.Restart? ==> Mirrors(s)
    ensures var fs, gs := s.tables.friends, Step(s, e).0.tables.friends;
            || (gs == fs && !AcceptsTwice(s.tables, e.cmd))
            || (e.cmd.CmdAccept? &&
                var i := FindRequest(s.tables.requests, e.cmd.id, e.cmd.acceptor);
                && i < |s.tables.requests|
                && var p := Norm(s.tables.requests[i].fromUid, e.cmd.acceptor);
                   gs == fs + [p] && (AcceptsTwice(s.tables, e.cmd) <==> p in fs))
  {
    hide Save, Load, NameTaken, HasPending, FindRequest, MarkDelivered, QueryOffline, Norm;
    if e.cmd.Restart? {
      RestartIsInvisible(s, e);
    }
  }

  /** One command keeps the list free of doubles exactly if it does not accept a pair
      that is already in it. */
  lemma StepKeepsNoDoubles(s: State, e: Event)
    requires e.cmd.Restart? ==> Mirrors(s)
    ensures NoDoubles(Step(s, e).0.tables.friends) <==>
            NoDoubles(s.tables.friends) && !AcceptsTwice(s.tables, e.cmd)
  {
    StepAddsEntry(s, e);
    hide Step, AcceptsTwice, NoDoubles, FindRequest, Norm;
    if Step(s, e).0.tables.friends != s.tables.friends {
      var i := FindRequest(s.tables.requests, e.cmd.id, e.cmd.acceptor);
      AddedEntry(s.tables.friends, Norm(s.tables.requests[i].fromUid, e.cmd.acceptor));
    }
  }

  predicate NeverAcceptsTwice(s: State, es: seq<Event>)
    decreases es
  {
    es == [] || (!AcceptsTwice(s.tables, es[0].cmd) && NeverAcceptsTwice(Step(s, es[0]).0, es[1..]))
  }

  /** Over any run, restarts included, no entry is doubled at the end exactly if none was
      at the start and no accept befriended a pair that was befriended. */
  lemma {:induction false} DoubledIffAcceptedTwice(s: State, es: seq<Event>)
    requires RestartsFindMirror(s, es)
    ensures NoDoubles(Run(s, es).tables.friends) <==> NoDoubles(s.tables.friends) && NeverAcceptsTwice(s, es)
    decreases es
  {
    hide Step, AcceptsTwice, NoDoubles, Mirrors;
    if es != [] {
      StepKeepsNoDoubles(s, es[0]);
      DoubledIffAcceptedTwice(Step(s, es[0]).0, es[1..]);
    }
  }

  // ---------------------------------------------------------------- requests only grow

  /** Requests keep their place and content; a status moves from pending to
      accepted or not at all. */
  ghost predicate RequestsGrow(rs: seq<FriendRequest>, ss: seq<FriendRequest>)
  {
    && |rs| <= |ss|
    && forall i :: 0 <= i < |rs| ==>
         ss[i] == rs[i] || (rs[i].status == PENDING && ss[i] == rs[i].(status := ACCEPTED))
  }

  lemma StepGrowsRequests(s: State, e: Event)
    requires e.cmd.Restart? ==> Mirrors(s)
    ensures RequestsGrow(s.tables.requests, Step(s, e).0.tables.requests)
  {
    hide Save, Load, NameTaken, HasPending, FindRequest, MarkDelivered, QueryOffline;
    if e.cmd.Restart? {
      RestartIsInvisible(s, e);
    }
  }

  lemma {:induction false} RunGrowsRequests(s: State, es: seq<Event>)
    requires RestartsFindMirror(s, es)
    ensures RequestsGrow(s.tables.requests, Run(s, es).tables.requests)
    decreases es
  {
    hide Step, Mirrors;
    if es != [] {
      StepGrowsRequests(s, es[0]);
      RunGrowsRequests(Step(s, es[0]).0, es[1..]);
      hide Run;
      var rs, ss, ts := s.tables.requests, Step(s, es[0]).0.tables.requests, Run(s, es).tables.requests;
      assert RequestsGrow(ss, ts);
    }
  }

  // ---------------------------------------------------------------- symmetry

  lemma {:induction false} FriendCount(friends: seq<(int, int)>, a: int, b: int)
    requires a != b
    ensures multiset(FriendUids(friends, a))[b] == multiset(friends)[(a, b)] + multiset(friends)[(b, a)]
  {
    if friends != [] {
      FriendCount(friends[1..], a, b);
      assert friends == [friends[0]] + friends[1..];
    }
  }

  /** Friendship is symmetric, with multiplicity: `b` is listed for `a` as often as
      `a` for `b`, whatever the store holds. */
  lemma FriendsAreSymmetric(friends: seq<(int, int)>, a: int, b: int)
    ensures multiset(FriendUids(friends, a))[b] == multiset(FriendUids(friends, b))[a]
    ensures b in FriendUids(friends, a) <==> a in FriendUids(friends, b)
  {
    if a != b {
      FriendCount(friends, a, b);
      FriendCount(friends, b, a);
    }
    assert b in multiset(FriendUids(friends, a)) <==> b in FriendUids(friends, a);
    assert a in multiset(FriendUids(friends, b)) <==> a in FriendUids(friends, b);
  }
}
