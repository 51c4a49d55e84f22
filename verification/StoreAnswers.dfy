/** What the store answers to each command, in terms of what was entered before. */
module StoreAnswers {
  import opened Common
  import opened Store
  import opened StorePersistence
  import opened StoreUsers
  import opened StoreFriends

  // ---------------------------------------------------------------- identifiers along the lists

  /** Uids and request ids strictly ascend along their lists and stay below the counters;
      no two users share a name. */
  ghost predicate Numbered(t: Tables)
  {
    && (forall i :: 0 <= i < |t.users| ==> t.users[i].uid < t.nextUid)
    && (forall i, j :: 0 <= i < j < |t.users| ==> t.users[i].uid < t.users[j].uid)
    && (forall i :: 0 <= i < |t.requests| ==> t.requests[i].id < t.nextReqId)
    && (forall i, j :: 0 <= i < j < |t.requests| ==> t.requests[i].id < t.requests[j].id)
    && NamesUnique(t.users)
  }

  lemma StepKeepsNumbers(s: State, e: Event)
    requires Numbered(s.tables) && (e.cmd.Restart? ==> Mirrors(s))
    ensures Numbered(Step(s, e).0.tables)
  {
    hide Save, Load, HasPending, FindRequest, QueryOffline, MarkDelivered;
    if e.cmd.Restart? {
      RestartIsInvisible(s, e);
    }
  }

  /** So in every run from an empty store, restarts included. */
  lemma {:induction false} RunKeepsNumbers(s: State, es: seq<Event>)
    requires Numbered(s.tables) && RestartsFindMirror(s, es)
    ensures Numbered(Run(s, es).tables)
    decreases es
  {
    hide Step, Numbered, Mirrors;
    if es != [] {
      StepKeepsNumbers(s, es[0]);
      RunKeepsNumbers(Step(s, es[0]).0, es[1..]);
    }
  }

  lemma EmptyIsNumbered()
    ensures Numbered(EMPTY_TABLES)
  {
  }

  // ---------------------------------------------------------------- users

  /** A taken name is refused with -2 and changes nothing; any other name is entered with
      the next uid, which is the answer. */
  lemma RegisterDecides(t: Tables, name: string, hash: string)
    ensures var (u, n) := Register(t, name, hash);
            if exists i :: 0 <= i < |t.users| && t.users[i].username == name then u == t && n == -2
            else
              && n == t.nextUid && u.nextUid == n + 1
              && u == t.(users := t.users + [User(n, name, hash)], nextUid := u.nextUid)
  {
  }

  /** A login finds its user exactly if somebody registered under this name with this
      hash; anybody else gets -1. */
  lemma VerifyDecides(t: Tables, name: string, hash: string)
    requires Numbered(t)
    ensures (forall i :: 0 <= i < |t.users| ==> t.users[i].username != name || t.users[i].passwordHash != hash) ==>
              VerifyLogin(t, name, hash) == -1
    ensures forall i :: 0 <= i < |t.users| && t.users[i].username == name && t.users[i].passwordHash == hash ==>
              VerifyLogin(t, name, hash) == t.users[i].uid
  {
    var p := (u: User) => u.username == name && u.passwordHash == hash;
    var j := FindUser(t.users, p);
    hide FindUser;
    assert forall i :: 0 <= i < |t.users| ==>
        (p(t.users[i]) <==> t.users[i].username == name && t.users[i].passwordHash == hash);
  }

  /** The name shown for a uid is that of the one user who has it; a uid nobody has is
      shown as a placeholder. */
  lemma NameDecides(t: Tables, uid: int)
    requires Numbered(t)
    ensures forall i :: 0 <= i < |t.users| && t.users[i].uid == uid ==>
              NameOf(t.users, uid) == Known(t.users[i].username)
    ensures (forall i :: 0 <= i < |t.users| ==> t.users[i].uid != uid) ==> NameOf(t.users, uid) == Placeholder(uid)
  {
    var p := (u: User) => u.uid == uid;
    var j := FindUser(t.users, p);
    hide FindUser;
    assert forall i :: 0 <= i < |t.users| ==> (p(t.users[i]) <==> t.users[i].uid == uid);
  }

  // ---------------------------------------------------------------- friend requests

  /** A request between friends is refused with -2, one that repeats a pending one with
      -3; any other is entered with the next id, which is the answer. */
  lemma AddDecides(t: Tables, a: int, b: int, msg: string)
    ensures var (u, n) := AddFriendRequest(t, a, b, msg);
            var pair := if a <= b then (a, b) else (b, a);
            if pair in t.friends then u == t && n == -2
            else if exists i :: 0 <= i < |t.requests| && t.requests[i].fromUid == a && t.requests[i].toUid == b
                                && t.requests[i].status == 0 then u == t && n == -3
            else
              && n == t.nextReqId && u.nextReqId == n + 1
              && u == t.(requests := t.requests + [FriendRequest(n, a, b, msg, 0)], nextReqId := u.nextReqId)
  {
    if HasPending(t.requests, a, b) {
      var i :| 0 <= i < |t.requests| && IsPending(t.requests[i], a, b);
      assert t.requests[i].fromUid == a && t.requests[i].toUid == b && t.requests[i].status == 0;
    } else {
      assert forall i :: 0 <= i < |t.requests| ==> !IsPending(t.requests[i], a, b);
    }
  }

  /** Entry `i` waits for this acceptor under this id. */
  predicate WaitsFor(rs: seq<FriendRequest>, i: nat, id: int, acceptor: int)
  {
    i < |rs| && rs[i].id == id && rs[i].toUid == acceptor && rs[i].status == 0
  }

  /** Accepting takes the request with this id that waits for the acceptor and no other:
      it alone changes, its requester is the answer, and the two become friends. A
      request from a negative uid makes no friends. */
  lemma AcceptDecides(t: Tables, id: int, acceptor: int, i: nat)
    requires Numbered(t) && WaitsFor(t.requests, i, id, acceptor)
    ensures var (u, n) := AcceptFriendRequest(t, id, acceptor);
            var a := t.requests[i].fromUid;
            var pair := if a <= acceptor then (a, acceptor) else (acceptor, a);
            && n == (if a < 0 then -1 else a)
            && u == t.(requests := t.requests[i := t.requests[i].(status := 1)],
                       friends := if a < 0 then t.friends else t.friends + [pair])
  {
    var j := FindRequest(t.requests, id, acceptor);
    hide FindRequest;
    assert Acceptable(t.requests[i], id, acceptor);
    assert j == i by {
      assert j <= i;
      assert t.requests[j].id == t.requests[i].id;
    }
  }

  /** If no request with this id waits for the acceptor, nothing changes. */
  lemma AcceptRefuses(t: Tables, id: int, acceptor: int)
    requires forall i :: 0 <= i < |t.requests| ==> !WaitsFor(t.requests, i, id, acceptor)
    ensures AcceptFriendRequest(t, id, acceptor) == (t, -1)
  {
    var j := FindRequest(t.requests, id, acceptor);
    hide FindRequest;
    assert j < |t.requests| ==> WaitsFor(t.requests, j, id, acceptor);
  }

  /** A request waits for its acceptor through any commands of others, and through
      restarts. */
  lemma StepKeepsWaiting(s: State, e: Event, i: nat, id: int, acceptor: int)
    requires Numbered(s.tables) && (e.cmd.Restart? ==> Mirrors(s))
    requires WaitsFor(s.tables.requests, i, id, acceptor) && e.cmd != CmdAccept(id, acceptor)
    ensures WaitsFor(Step(s, e).0.tables.requests, i, id, acceptor)
    ensures Step(s, e).0.tables.requests[i] == s.tables.requests[i]
  {
    hide Save, Load, NameTaken, HasPending, FindRequest, QueryOffline, MarkDelivered;
    if e.cmd.Restart? {
      RestartIsInvisible(s, e);
    } else if e.cmd.CmdAccept? {
      var j := FindRequest(s.tables.requests, e.cmd.id, e.cmd.acceptor);
      assert j != i;
    }
  }

  lemma {:induction false} RunKeepsWaiting(s: State, es: seq<Event>, i: nat, id: int, acceptor: int)
    requires Numbered(s.tables) && RestartsFindMirror(s, es)
    requires WaitsFor(s.tables.requests, i, id, acceptor)
    requires forall k :: 0 <= k < |es| ==> es[k].cmd != CmdAccept(id, acceptor)
    ensures WaitsFor(Run(s, es).tables.requests, i, id, acceptor)
    ensures Run(s, es).tables.requests[i] == s.tables.requests[i]
    decreases es
  {
    hide Step, Numbered, Mirrors;
    if es != [] {
      StepKeepsNumbers(s, es[0]);
      StepKeepsWaiting(s, es[0], i, id, acceptor);
      RunKeepsWaiting(Step(s, es[0]).0, es[1..], i, id, acceptor);
    }
  }

  /** The life of a request: a request that was entered is accepted under the id answered
      then, whatever commands and restarts come in between, as long as it was not
      accepted before. Its requester is the answer, and the pair is added. */
  lemma RequestThenAccept(s: State, a: int, b: int, msg: string, es: seq<Event>)
    requires Numbered(s.tables) && 0 <= a
    requires var (s', n) := DoAddFriend(s, a, b, msg, ALL_FILES);
             && s'.tables != s.tables && RestartsFindMirror(s', es)
             && forall k :: 0 <= k < |es| ==> es[k].cmd != CmdAccept(n, b)
    ensures var (s', n) := DoAddFriend(s, a, b, msg, ALL_FILES);
            var t := Run(s', es).tables;
            var (u, answer) := AcceptFriendRequest(t, n, b);
            && answer == a
            && u.friends == t.friends + [if a <= b then (a, b) else (b, a)]
  {
    hide Save, HasPending, Mirrors, RestartsFindMirror, Run;
    var (s', n) := DoAddFriend(s, a, b, msg, ALL_FILES);
    var i := |s.tables.requests|;
    AddDecides(s.tables, a, b, msg);
    StepKeepsNumbers(s, Event(CmdAddFriend(a, b, msg), ALL_FILES));
    assert s'.tables.requests[i] == FriendRequest(n, a, b, msg, 0);
    hide Numbered, AddFriendRequest, DoAddFriend, AcceptFriendRequest;
    RunKeepsWaiting(s', es, i, n, b);
    RunKeepsNumbers(s', es);
    AcceptDecides(Run(s', es).tables, n, b, i);
  }

  // ---------------------------------------------------------------- friend lists

  /** A new entry shows at the end of both its users' lists and in no other. */
  lemma {:induction false} EntryShows(fs: seq<(int, int)>, p: (int, int), uid: int)
    ensures FriendUids(fs + [p], uid) ==
            FriendUids(fs, uid) + (if p.0 == uid then [p.1] else if p.1 == uid then [p.0] else [])
  {
    if fs == [] {
      assert fs + [p] == [p] + [];
      ListOf(p, [], uid);
    } else {
      EntryShows(fs[1..], p, uid);
      ListOf(fs[0], fs[1..], uid);
      ListOf(fs[0], fs[1..] + [p], uid);
      Regroup(fs, p);
      hide FriendUids;
    }
  }

  lemma ListOf(p: (int, int), fs: seq<(int, int)>, uid: int)
    ensures FriendUids([p] + fs, uid) ==
            (if p.0 == uid then [p.1] else if p.1 == uid then [p.0] else []) + FriendUids(fs, uid)
  {
    assert ([p] + fs)[1..] == fs;
  }

  lemma Regroup(fs: seq<(int, int)>, p: (int, int))
    requires fs != []
    ensures fs == [fs[0]] + fs[1..] && fs + [p] == [fs[0]] + (fs[1..] + [p])
  {
  }

  /** The list answered is the friends in the order they were made, each with its name. */
  lemma FriendsAnswered(t: Tables, uid: int, k: nat)
    requires Numbered(t) && k < |FriendUids(t.friends, uid)|
    ensures var o, answer := FriendUids(t.friends, uid)[k], GetFriends(t, uid);
            && |answer| == |FriendUids(t.friends, uid)|
            && answer[k].0 == o
            && (forall i :: 0 <= i < |t.users| && t.users[i].uid == o ==> answer[k].1 == Known(t.users[i].username))
            && ((forall i :: 0 <= i < |t.users| ==> t.users[i].uid != o) ==> answer[k].1 == Placeholder(o))
  {
    hide NameOf, FriendUids, Numbered;
    NameDecides(t, FriendUids(t.friends, uid)[k]);
  }

  // ---------------------------------------------------------------- files

  /** Files that are missing or do not parse are an empty store. */
  lemma UnreadableFilesAreEmpty(disk: Disk)
    requires forall f :: f in disk ==> disk[f].Unparsable?
    ensures Load(disk) == Some(EMPTY_TABLES)
  {
    assert forall f :: ReadFile(disk, f) == Object(map[]);
  }

  /** What cannot be written is forgotten: if no file can be opened, a run leaves the
      files alone, and a new process reads what was there before it. */
  lemma {:induction false} UnwrittenIsForgotten(s: State, es: seq<Event>)
    requires forall i :: 0 <= i < |es| ==> es[i].writable == {}
    ensures Run(s, es).disk == s.disk
    decreases es
  {
    if es != [] {
      StepWithoutFiles(s, es[0]);
      hide Step;
      UnwrittenIsForgotten(Step(s, es[0]).0, es[1..]);
    }
  }

  lemma StepWithoutFiles(s: State, e: Event)
    requires e.writable == {}
    ensures Step(s, e).0.disk == s.disk
  {
    hide FileJson, Load, NameTaken, HasPending, FindRequest, QueryOffline, MarkDelivered;
  }

  /** A messages file as it stands on disk: a message without a delivery mark counts as
      delivered. */
  lemma OldMessagesFile()
    ensures var m := Object(map["id" := Number(4), "from_uid" := Number(1000), "to_uid" := Number(1001),
                                "content" := Str("hi")]);
            var file := Object(map["next_id" := Number(5), "messages" := Array([m])]);
            LoadMessages(map[MessagesFile := Parsed(file)]) == Some((5, [Message(4, 1000, 1001, "hi", true)]))
  {
    var m := Object(map["id" := Number(4), "from_uid" := Number(1000), "to_uid" := Number(1001),
                        "content" := Str("hi")]);
    var file := Object(map["next_id" := Number(5), "messages" := Array([m])]);
    assert MessageOf(m) == Some(Message(4, 1000, 1001, "hi", true));
    var r := Entries(file, "messages", MessageOf);
    assert r.Some? && r.value == [Message(4, 1000, 1001, "hi", true)];
  }

  /** The other files, each with one entry. */
  lemma OldUsersFile()
    ensures LoadUsers(map[UsersFile := Parsed(Object(map[
              "next_uid" := Number(1001),
              "users" := Array([Object(map["uid" := Number(1000), "username" := Str("ann"),
                                           "password_hash" := Str("h")])])]))])
         == Some((1001, [User(1000, "ann", "h")]))
  {
    var u := Object(map["uid" := Number(1000), "username" := Str("ann"), "password_hash" := Str("h")]);
    assert UserOf(u) == Some(User(1000, "ann", "h"));
    var us := Entries(Object(map["next_uid" := Number(1001), "users" := Array([u])]), "users", UserOf);
    assert us.Some? && us.value == [User(1000, "ann", "h")];
  }

  lemma OldFriendsFile()
    ensures LoadFriends(map[FriendsFile := Parsed(Object(map["pairs" := Array([Array([Number(1), Number(2)])])]))])
         == Some([(1, 2)])
  {
    var p := Array([Number(1), Number(2)]);
    assert PairOf(p) == Some((1, 2));
    var ps := Entries(Object(map["pairs" := Array([p])]), "pairs", PairOf);
    assert ps.Some? && ps.value == [(1, 2)];
  }

  /** A request without a message or a status is a pending one with no message. */
  lemma OldRequestsFile()
    ensures LoadRequests(map[RequestsFile := Parsed(Object(map[
              "next_id" := Number(8),
              "requests" := Array([Object(map["id" := Number(7), "from_uid" := Number(1),
                                              "to_uid" := Number(2)])])]))])
         == Some((8, [FriendRequest(7, 1, 2, "", 0)]))
  {
    var r := Object(map["id" := Number(7), "from_uid" := Number(1), "to_uid" := Number(2)]);
    assert RequestOf(r) == Some(FriendRequest(7, 1, 2, "", 0));
    var rs := Entries(Object(map["next_id" := Number(8), "requests" := Array([r])]), "requests", RequestOf);
    assert rs.Some? && rs.value == [FriendRequest(7, 1, 2, "", 0)];
  }
}
