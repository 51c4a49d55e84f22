/** The store as the program writes it: vectors searched, marked and appended to in
    place, each mutation followed by a rewrite of its file. Every method performs the
    command of module `Store` that its contract names. */
module DbWriter {
  import opened Common
  import opened Store
  import StoreDelivery

  // ---------------------------------------------------------------- JSON arrays

  method BuildArray<T>(xs: seq<T>, show: T -> Json) returns (items: seq<Json>)
    ensures items == MapSeq(show, xs)
  {
    items := [];
    for i := 0 to |xs|
      invariant |items| == i
      invariant forall j :: 0 <= j < i ==> items[j] == show(xs[j])
    {
      items := items + [show(xs[i])];
    }
  }

  method ReadArray<T(!new)>(j: Json, key: string, parse: Json -> Option<T>) returns (r: Option<seq<T>>)
    ensures r == Entries(j, key, parse)
  {
    if !j.Object? {
      return None;
    }
    if key !in j.fields {
      return Some([]);
    }
    if !j.fields[key].Array? {
      return None;
    }
    var items := j.fields[key].items;
    var xs: seq<T> := [];
    for i := 0 to |items|
      invariant |xs| == i
      invariant forall k :: 0 <= k < i ==> parse(items[k]) == Some(xs[k])
    {
      var x := parse(items[i]);
      if x.None? {
        return None;
      }
      xs := xs + [x.value];
    }
    r := Some(xs);
    ghost var e := Entries(j, key, parse);
    assert e.Some? && |e.value| == |xs|;
    assert e.value == xs;
  }

  lemma QueryUpTo(ms: seq<Message>, uid: int, i: nat)
    requires i < |ms|
    ensures QueryOffline(ms[..i + 1], uid) ==
            QueryOffline(ms[..i], uid) + (if ms[i].toUid == uid && !ms[i].delivered then [ms[i]] else [])
  {
    assert ms[..i + 1] == ms[..i] + [ms[i]];
    StoreDelivery.QueryAppend(ms[..i], [ms[i]], uid);
    assert QueryOffline([ms[i]], uid) == if ms[i].toUid == uid && !ms[i].delivered then [ms[i]] else [];
  }

  class BatchWriter {
    var users: seq<User>
    var friends: seq<(int, int)>
    var requests: seq<FriendRequest>
    var messages: seq<Message>
    var nextUid: int
    var nextReqId: int
    var nextMsgId: int
    var disk: Disk
    var queue: seq<Submission>
    var batch: seq<Submission>

    ghost function View(): State
      reads this
    {
      State(Tables(users, friends, requests, messages, nextUid, nextReqId, nextMsgId), disk, queue, batch)
    }

    /** Before the files are read. */
    constructor (disk: Disk)
      ensures View() == State(EMPTY_TABLES, disk, [], [])
    {
      this.disk, queue, batch := disk, [], [];
      users, friends, requests, messages := [], [], [], [];
      nextUid, nextReqId, nextMsgId := 1000, 1, 1;
    }

    /** Reading the four files; `ok` is false when a conversion throws. */
    method LoadFileData() returns (ok: bool)
      modifies this
      ensures ok <==> Load(old(disk)).Some?
      ensures ok ==> View() == old(View()).(tables := Load(old(disk)).value)
    {
      var ju, jr, jm := ReadFile(disk, UsersFile), ReadFile(disk, RequestsFile), ReadFile(disk, MessagesFile);
      var us := ReadArray(ju, "users", UserOf);
      var fs := ReadArray(ReadFile(disk, FriendsFile), "pairs", PairOf);
      var rs := ReadArray(jr, "requests", RequestOf);
      var ms := ReadArray(jm, "messages", MessageOf);
      var u, r, m := IntOr(ju, "next_uid", 1000), IntOr(jr, "next_id", 1), IntOr(jm, "next_id", 1);
      ok := us.Some? && fs.Some? && rs.Some? && ms.Some? && u.Some? && r.Some? && m.Some?;
      if ok {
        users, friends, requests, messages := us.value, fs.value, rs.value, ms.value;
        nextUid, nextReqId, nextMsgId := u.value, r.value, m.value;
      }
    }

    /** Starting the store on the files found. A file that does not convert makes
        construction fail, and there is no store. */
    static method Start(disk: Disk) returns (w: BatchWriter?)
      ensures w == null <==> Load(disk).None?
      ensures w != null ==> fresh(w) && w.View() == State(Load(disk).value, disk, [], [])
    {
      w := new BatchWriter(disk);
      var ok := w.LoadFileData();
      if !ok {
        w := null;
      }
    }

    // -------------------------------------------------------------- saving

    method SaveUsersFile(writable: set<File>)
      modifies this`disk
      ensures disk == Save(old(disk), View().tables, UsersFile, writable)
    {
      var items := BuildArray(users, UserJson);
      if UsersFile in writable {
        disk := disk[UsersFile := Parsed(Object(map["next_uid" := Number(nextUid), "users" := Array(items)]))];
      }
    }

    method SaveFriendsFile(writable: set<File>)
      modifies this`disk
      ensures disk == Save(old(disk), View().tables, FriendsFile, writable)
    {
      var items := BuildArray(friends, PairJson);
      if FriendsFile in writable {
        disk := disk[FriendsFile := Parsed(Object(map["pairs" := Array(items)]))];
      }
    }

    method SaveFriendReqsFile(writable: set<File>)
      modifies this`disk
      ensures disk == Save(old(disk), View().tables, RequestsFile, writable)
    {
      var items := BuildArray(requests, RequestJson);
      if RequestsFile in writable {
        disk := disk[RequestsFile := Parsed(Object(map["next_id" := Number(nextReqId), "requests" := Array(items)]))];
      }
    }

    method SaveMessagesFile(writable: set<File>)
      modifies this`disk
      ensures disk == Save(old(disk), View().tables, MessagesFile, writable)
    {
      var items := BuildArray(messages, MessageJson);
      if MessagesFile in writable {
        disk := disk[MessagesFile := Parsed(Object(map["next_id" := Number(nextMsgId), "messages" := Array(items)]))];
      }
    }

    // -------------------------------------------------------------- users

    method RegisterUser(username: string, hash: string, writable: set<File>) returns (code: int)
      modifies this`users, this`nextUid, this`disk
      ensures (View(), code) == DoRegister(old(View()), username, hash, writable)
    {
      hide Save;
      for i := 0 to |users|
        invariant users == old(users)
        invariant forall j :: 0 <= j < i ==> users[j].username != username
      {
        if users[i].username == username {
          assert NameTaken(users, username);
          return -2;
        }
      }
      code := nextUid;
      nextUid := nextUid + 1;
      users := users + [User(code, username, hash)];
      SaveUsersFile(writable);
    }

    method VerifyLogin(username: string, hash: string) returns (uid: int)
      ensures uid == Store.VerifyLogin(View().tables, username, hash)
    {
      for i := 0 to |users|
        invariant forall j :: 0 <= j < i ==> !(users[j].username == username && users[j].passwordHash == hash)
      {
        if users[i].username == username && users[i].passwordHash == hash {
          return users[i].uid;
        }
      }
      uid := -1;
    }

    method LookUpName(uid: int) returns (name: DisplayName)
      ensures name == NameOf(users, uid)
    {
      for i := 0 to |users|
        invariant forall j :: 0 <= j < i ==> users[j].uid != uid
      {
        if users[i].uid == uid {
          return Known(users[i].username);
        }
      }
      name := Placeholder(uid);
    }

    // -------------------------------------------------------------- friends

    method AddFriendRequest(fromUid: int, toUid: int, msg: string, writable: set<File>) returns (code: int)
      modifies this`requests, this`nextReqId, this`disk
      ensures (View(), code) == DoAddFriend(old(View()), fromUid, toUid, msg, writable)
    {
      hide Save;
      var lo := if fromUid <= toUid then fromUid else toUid;
      var hi := if fromUid <= toUid then toUid else fromUid;
      for i := 0 to |friends|
        invariant View() == old(View())
        invariant forall j :: 0 <= j < i ==> friends[j] != (lo, hi)
      {
        if friends[i].0 == lo && friends[i].1 == hi {
          return -2;
        }
      }
      for i := 0 to |requests|
        invariant View() == old(View())
        invariant forall j :: 0 <= j < i ==> !IsPending(requests[j], fromUid, toUid)
      {
        if requests[i].fromUid == fromUid && requests[i].toUid == toUid && requests[i].status == PENDING {
          assert HasPending(requests, fromUid, toUid);
          return -3;
        }
      }
      code := nextReqId;
      nextReqId := nextReqId + 1;
      requests := requests + [FriendRequest(code, fromUid, toUid, msg, PENDING)];
      SaveFriendReqsFile(writable);
    }

    method AcceptFriendRequest(id: int, acceptor: int, writable: set<File>) returns (code: int)
      modifies this`requests, this`friends, this`disk
      ensures (View(), code) == DoAccept(old(View()), id, acceptor, writable)
    {
      hide Save, FindRequest;
      var fromUid := -1;
      ghost var found := FindRequest(requests, id, acceptor);
      var i := 0;
      while i < |requests|
        invariant i <= found && View() == old(View()) && fromUid == -1
      {
        var r := requests[i];
        if r.id == id && r.toUid == acceptor && r.status == PENDING {
          fromUid := r.fromUid;
          requests := requests[i := r.(status := ACCEPTED)];
          break;
        }
        i := i + 1;
      }
      if fromUid < 0 {
        return -1;
      }
      var lo := if fromUid <= acceptor then fromUid else acceptor;
      var hi := if fromUid <= acceptor then acceptor else fromUid;
      friends := friends + [(lo, hi)];
      SaveFriendReqsFile(writable);
      SaveFriendsFile(writable);
      code := fromUid;
    }

    method GetFriends(uid: int) returns (result: seq<(int, DisplayName)>)
      ensures result == Store.GetFriends(View().tables, uid)
    {
      hide NameOf, FindUser;
      result := [];
      ghost var uids := [];
      for i := 0 to |friends|
        invariant uids + FriendUids(friends[i..], uid) == FriendUids(friends, uid)
        invariant |result| == |uids| && forall k :: 0 <= k < |uids| ==> result[k] == (uids[k], NameOf(users, uids[k]))
      {
        var p := friends[i];
        assert friends[i..][1..] == friends[i + 1..];
        if p.0 == uid || p.1 == uid {
          var other := if p.0 == uid then p.1 else p.0;
          var name := LookUpName(other);
          result := result + [(other, name)];
          uids := uids + [other];
        }
      }
      assert uids == FriendUids(friends, uid);
    }

    // -------------------------------------------------------------- messages

    method QueryOfflineMessages(uid: int) returns (msgs: seq<Message>)
      ensures msgs == QueryOffline(messages, uid)
    {
      msgs := [];
      for i := 0 to |messages|
        invariant msgs == QueryOffline(messages[..i], uid)
      {
        QueryUpTo(messages, uid, i);
        if messages[i].toUid == uid && !messages[i].delivered {
          msgs := msgs + [messages[i]];
        }
      }
      assert messages[..|messages|] == messages;
    }

    method MarkDelivered(uid: int, maxId: int, writable: set<File>)
      modifies this`messages, this`disk
      ensures View() == DoMark(old(View()), uid, maxId, writable)
    {
      hide Save;
      for i := 0 to |messages|
        invariant |messages| == |old(messages)| && disk == old(disk)
        invariant forall j :: 0 <= j < i ==> messages[j] == Mark(old(messages)[j], uid, maxId)
        invariant forall j :: i <= j < |messages| ==> messages[j] == old(messages)[j]
      {
        if messages[i].toUid == uid && messages[i].id <= maxId {
          messages := messages[i := messages[i].(delivered := true)];
        }
      }
      assert messages == Store.MarkDelivered(old(messages), uid, maxId);
      SaveMessagesFile(writable);
    }

    /** Login's delivery: hand on what is undelivered, then mark without a bound. */
    method DeliverAtLogin(uid: int, writable: set<File>) returns (mail: seq<Message>)
      modifies this`messages, this`disk
      ensures View() == DoLogin(old(View()), uid, writable).0
      ensures mail == DoLogin(old(View()), uid, writable).1
    {
      hide QueryOffline, DoMark;
      ghost var s := View();
      mail := QueryOfflineMessages(uid);
      assert mail == QueryOffline(s.tables.messages, uid);
      if mail != [] {
        MarkDelivered(uid, INT64_MAX, writable);
        assert View() == DoMark(s, uid, INT64_MAX, writable);
      }
    }

    method Submit(msg: Submission)
      modifies this`queue
      ensures View() == old(View()).(queue := old(queue) + [msg])
    {
      queue := queue + [msg];
    }

    /** The part of the writer's loop under the queue lock. */
    method TakeBatch()
      requires batch == []
      modifies this`queue, this`batch
      ensures View() == DoTakeBatch(old(View())) && |batch| <= BATCH_LIMIT
    {
      while queue != [] && |batch| < BATCH_LIMIT
        invariant batch + queue == old(queue) && |batch| <= BATCH_LIMIT
        decreases |queue|
      {
        assert old(queue) == batch + [queue[0]] + queue[1..];
        batch := batch + [queue[0]];
        queue := queue[1..];
      }
      assert batch == old(queue)[..|batch|] && queue == old(queue)[|batch|..];
    }

    /** The part under the file lock: give ids, append, save, forget the batch. */
    method WriteBatch(writable: set<File>)
      modifies this`messages, this`nextMsgId, this`disk, this`batch
      ensures View() == DoWriteBatch(old(View()), writable)
    {
      hide Save;
      if batch == [] {
        return;
      }
      for i := 0 to |batch|
        invariant batch == old(batch) && disk == old(disk)
        invariant nextMsgId == old(nextMsgId) + i
        invariant messages == old(messages) + Stored(batch[..i], old(nextMsgId))
      {
        var m := batch[i];
        messages := messages + [Message(nextMsgId, m.fromUid, m.toUid, m.content, m.delivered)];
        nextMsgId := nextMsgId + 1;
        assert Stored(batch[..i + 1], old(nextMsgId))
            == Stored(batch[..i], old(nextMsgId))
             + [Message(old(nextMsgId) + i, m.fromUid, m.toUid, m.content, m.delivered)];
      }
      assert batch[..|batch|] == batch;
      SaveMessagesFile(writable);
      batch := [];
    }
  }
}
