/** The file-backed store: users, friend pairs, friend requests and the message
    log, the queue of messages waiting to be logged, and their JSON mirror on disk. */
module Store {
  import opened Common

  // ---------------------------------------------------------------- data

  datatype User = User(uid: int, username: string, passwordHash: string)

  const PENDING := 0
  const ACCEPTED := 1

  datatype FriendRequest = FriendRequest(id: int, fromUid: int, toUid: int, message: string, status: int)

  datatype Message = Message(id: int, fromUid: int, toUid: int, content: string, delivered: bool)

  /** A message submitted for storage; it has no id yet. */
  datatype Submission = Submission(fromUid: int, toUid: int, content: string, delivered: bool)

  datatype Tables = Tables(
    users: seq<User>, friends: seq<(int, int)>, requests: seq<FriendRequest>, messages: seq<Message>,
    nextUid: int, nextReqId: int, nextMsgId: int)

  const EMPTY_TABLES := Tables([], [], [], [], 1000, 1, 1)

  /** JSON as a tree. */
  datatype Json =
    | Number(n: int)
    | Bool(b: bool)
    | Str(s: string)
    | Array(items: seq<Json>)
    | Object(fields: map<string, Json>)

  datatype File = UsersFile | FriendsFile | RequestsFile | MessagesFile

  /** A file holds JSON or text that does not parse. */
  datatype Contents = Parsed(json: Json) | Unparsable

  type Disk = map<File, Contents>

  /** `queue` is what `submit` appended; `batch` is what the writer thread took from
      it and has not stored yet. */
  datatype State = State(tables: Tables, disk: Disk, queue: seq<Submission>, batch: seq<Submission>)

  const BATCH_LIMIT: nat := 100

  // ---------------------------------------------------------------- saving

  function UserJson(u: User): Json
  {
    Object(map["uid" := Number(u.uid), "username" := Str(u.username), "password_hash" := Str(u.passwordHash)])
  }

  function PairJson(p: (int, int)): Json
  {
    Array([Number(p.0), Number(p.1)])
  }

  function RequestJson(r: FriendRequest): Json
  {
    Object(map["id" := Number(r.id), "from_uid" := Number(r.fromUid), "to_uid" := Number(r.toUid),
               "message" := Str(r.message), "status" := Number(r.status)])
  }

  function MessageJson(m: Message): Json
  {
    Object(map["id" := Number(m.id), "from_uid" := Number(m.fromUid), "to_uid" := Number(m.toUid),
               "content" := Str(m.content), "delivered" := Bool(m.delivered)])
  }

  function MapSeq<A, B>(f: A -> B, xs: seq<A>): (ys: seq<B>)
    ensures |ys| == |xs|
    ensures forall i :: 0 <= i < |xs| ==> ys[i] == f(xs[i])
  {
    seq(|xs|, i requires 0 <= i < |xs| => f(xs[i]))
  }

  function FileJson(t: Tables, f: File): Json
  {
    match f
    case UsersFile => Object(map["next_uid" := Number(t.nextUid), "users" := Array(MapSeq(UserJson, t.users))])
    case FriendsFile => Object(map["pairs" := Array(MapSeq(PairJson, t.friends))])
    case RequestsFile =>
      Object(map["next_id" := Number(t.nextReqId), "requests" := Array(MapSeq(RequestJson, t.requests))])
    case MessagesFile =>
      Object(map["next_id" := Number(t.nextMsgId), "messages" := Array(MapSeq(MessageJson, t.messages))])
  }

  /** Rewriting one file; nothing happens when it cannot be opened. */
  function Save(disk: Disk, t: Tables, f: File, writable: set<File>): Disk
  {
    if f in writable then disk[f := Parsed(FileJson(t, f))] else disk
  }

  // ---------------------------------------------------------------- loading

  /** A missing or unparsable file counts as an empty object. */
  function ReadFile(disk: Disk, f: File): Json
  {
    if f in disk && disk[f].Parsed? then disk[f].json else Object(map[])
  }

  function Field(j: Json, key: string): Option<Json>
  {
    if j.Object? && key in j.fields then Some(j.fields[key]) else None
  }

  function AsInt(j: Option<Json>): Option<int>
  {
    if j.Some? && j.value.Number? then Some(j.value.n) else None
  }

  function AsString(j: Option<Json>): Option<string>
  {
    if j.Some? && j.value.Str? then Some(j.value.s) else None
  }

  /** `value(key, default)`: the default stands in for an absent field only. */
  function IntOr(j: Json, key: string, default: int): Option<int>
  {
    if !j.Object? then None
    else if key !in j.fields then Some(default)
    else AsInt(Field(j, key))
  }

  function StringOr(j: Json, key: string, default: string): Option<string>
  {
    if !j.Object? then None
    else if key !in j.fields then Some(default)
    else AsString(Field(j, key))
  }

  function BoolOr(j: Json, key: string, default: bool): Option<bool>
  {
    if !j.Object? then None
    else if key !in j.fields then Some(default)
    else if j.fields[key].Bool? then Some(j.fields[key].b) else None
  }

  function UserOf(j: Json): Option<User>
  {
    var uid, name, hash := AsInt(Field(j, "uid")), AsString(Field(j, "username")), AsString(Field(j, "password_hash"));
    if uid.Some? && name.Some? && hash.Some? then Some(User(uid.value, name.value, hash.value)) else None
  }

  function PairOf(j: Json): Option<(int, int)>
  {
    if j.Array? && |j.items| >= 2 && j.items[0].Number? && j.items[1].Number?
    then Some((j.items[0].n, j.items[1].n)) else None
  }

  function RequestOf(j: Json): Option<FriendRequest>
  {
    var id, a, b := AsInt(Field(j, "id")), AsInt(Field(j, "from_uid")), AsInt(Field(j, "to_uid"));
    var msg, status := StringOr(j, "message", ""), IntOr(j, "status", PENDING);
    if id.Some? && a.Some? && b.Some? && msg.Some? && status.Some?
    then Some(FriendRequest(id.value, a.value, b.value, msg.value, status.value)) else None
  }

  function MessageOf(j: Json): Option<Message>
  {
    var id, a, b := AsInt(Field(j, "id")), AsInt(Field(j, "from_uid")), AsInt(Field(j, "to_uid"));
    var text, done := AsString(Field(j, "content")), BoolOr(j, "delivered", true);
    if id.Some? && a.Some? && b.Some? && text.Some? && done.Some?
    then Some(Message(id.value, a.value, b.value, text.value, done.value)) else None
  }

  /** The entries of the array in field `key`, none if it is absent; one entry that
      does not convert fails the whole. */
  function Entries<T(!new)>(j: Json, key: string, parse: Json -> Option<T>): Option<seq<T>>
  {
    if !j.Object? then None
    else if key !in j.fields then Some([])
    else if !j.fields[key].Array? then None
    else
      var items := j.fields[key].items;
      if forall i :: 0 <= i < |items| ==> parse(items[i]).Some? then
        Some(seq(|items|, i requires 0 <= i < |items| && parse(items[i]).Some? => parse(items[i]).value))
      else None
  }

  function LoadUsers(disk: Disk): Option<(int, seq<User>)>
  {
    var j := ReadFile(disk, UsersFile);
    var next, xs := IntOr(j, "next_uid", 1000), Entries(j, "users", UserOf);
    if next.Some? && xs.Some? then Some((next.value, xs.value)) else None
  }

  function LoadFriends(disk: Disk): Option<seq<(int, int)>>
  {
    Entries(ReadFile(disk, FriendsFile), "pairs", PairOf)
  }

  function LoadRequests(disk: Disk): Option<(int, seq<FriendRequest>)>
  {
    var j := ReadFile(disk, RequestsFile);
    var next, xs := IntOr(j, "next_id", 1), Entries(j, "requests", RequestOf);
    if next.Some? && xs.Some? then Some((next.value, xs.value)) else None
  }

  function LoadMessages(disk: Disk): Option<(int, seq<Message>)>
  {
    var j := ReadFile(disk, MessagesFile);
    var next, xs := IntOr(j, "next_id", 1), Entries(j, "messages", MessageOf);
    if next.Some? && xs.Some? then Some((next.value, xs.value)) else None
  }

  /** What a starting server reads; `None` when a conversion throws. */
  function Load(disk: Disk): Option<Tables>
  {
    var us, fs, rs, ms := LoadUsers(disk), LoadFriends(disk), LoadRequests(disk), LoadMessages(disk);
    if us.Some? && fs.Some? && rs.Some? && ms.Some? then
      Some(Tables(us.value.1, fs.value, rs.value.1, ms.value.1, us.value.0, rs.value.0, ms.value.0))
    else None
  }

  // ---------------------------------------------------------------- users

  function FindUser(users: seq<User>, p: User -> bool): (i: nat)
    ensures i <= |users|
    ensures i < |users| ==> p(users[i])
    ensures forall j :: 0 <= j < i ==> !p(users[j])
  {
    if users == [] || p(users[0]) then 0
    else
      var i := FindUser(users[1..], p);
      assert forall j :: 0 < j < i + 1 ==> users[j] == users[1..][j - 1];
      i + 1
  }

  predicate NameTaken(users: seq<User>, username: string)
  {
    exists i :: 0 <= i < |users| && users[i].username == username
  }

  function Register(t: Tables, username: string, hash: string): (Tables, int)
  {
    if NameTaken(t.users, username) then (t, -2)
    else (t.(users := t.users + [User(t.nextUid, username, hash)], nextUid := t.nextUid + 1), t.nextUid)
  }

  function VerifyLogin(t: Tables, username: string, hash: string): int
  {
    var i := FindUser(t.users, (u: User) => u.username == username && u.passwordHash == hash);
    if i < |t.users| then t.users[i].uid else -1
  }

  /** The name shown for a user: its username, or a placeholder made from the uid. */
  datatype DisplayName = Known(name: string) | Placeholder(uid: int)

  function NameOf(users: seq<User>, uid: int): DisplayName
  {
    var i := FindUser(users, (u: User) => u.uid == uid);
    if i < |users| then Known(users[i].username) else Placeholder(uid)
  }

  // ---------------------------------------------------------------- friends

  function Norm(a: int, b: int): (int, int)
  {
    if a <= b then (a, b) else (b, a)
  }

  predicate IsPending(r: FriendRequest, fromUid: int, toUid: int)
  {
    r.fromUid == fromUid && r.toUid == toUid && r.status == PENDING
  }

  predicate HasPending(rs: seq<FriendRequest>, fromUid: int, toUid: int)
  {
    exists i :: 0 <= i < |rs| && IsPending(rs[i], fromUid, toUid)
  }

  function AddFriendRequest(t: Tables, fromUid: int, toUid: int, msg: string): (Tables, int)
  {
    if Norm(fromUid, toUid) in t.friends then (t, -2)
    else if HasPending(t.requests, fromUid, toUid) then (t, -3)
    else (t.(requests := t.requests + [FriendRequest(t.nextReqId, fromUid, toUid, msg, PENDING)],
             nextReqId := t.nextReqId + 1),
          t.nextReqId)
  }

  predicate Acceptable(r: FriendRequest, id: int, acceptor: int)
  {
    r.id == id && r.toUid == acceptor && r.status == PENDING
  }

  /** The first request the acceptor may accept under this id. */
  function FindRequest(rs: seq<FriendRequest>, id: int, acceptor: int): (i: nat)
    ensures i <= |rs|
    ensures i < |rs| ==> Acceptable(rs[i], id, acceptor)
    ensures forall j :: 0 <= j < i ==> !Acceptable(rs[j], id, acceptor)
  {
    if rs == [] || Acceptable(rs[0], id, acceptor) then 0
    else
      var i := FindRequest(rs[1..], id, acceptor);
      assert forall j :: 0 < j < i + 1 ==> rs[j] == rs[1..][j - 1];
      i + 1
  }

  /** A request from a negative uid is marked accepted, but makes no friends. */
  function AcceptFriendRequest(t: Tables, id: int, acceptor: int): (Tables, int)
  {
    var i := FindRequest(t.requests, id, acceptor);
    if i == |t.requests| then (t, -1)
    else
      var r := t.requests[i];
      var t' := t.(requests := t.requests[i := r.(status := ACCEPTED)]);
      if r.fromUid < 0 then (t', -1)
      else (t'.(friends := t.friends + [Norm(r.fromUid, acceptor)]), r.fromUid)
  }

  /** The other end of a pair that names `uid`. */
  function OtherEnd(p: (int, int), uid: int): Option<int>
  {
    if p.0 == uid then Some(p.1) else if p.1 == uid then Some(p.0) else None
  }

  function FriendUids(friends: seq<(int, int)>, uid: int): seq<int>
  {
    if friends == [] then []
    else
      var o := OtherEnd(friends[0], uid);
      (if o.Some? then [o.value] else []) + FriendUids(friends[1..], uid)
  }

  function GetFriends(t: Tables, uid: int): seq<(int, DisplayName)>
  {
    MapSeq(o => (o, NameOf(t.users, o)), FriendUids(t.friends, uid))
  }

  // ---------------------------------------------------------------- messages

  function QueryOffline(ms: seq<Message>, uid: int): seq<Message>
  {
    if ms == [] then []
    else (if ms[0].toUid == uid && !ms[0].delivered then [ms[0]] else []) + QueryOffline(ms[1..], uid)
  }

  function Mark(m: Message, uid: int, maxId: int): Message
  {
    if m.toUid == uid && m.id <= maxId then m.(delivered := true) else m
  }

  function MarkDelivered(ms: seq<Message>, uid: int, maxId: int): (r: seq<Message>)
    ensures |r| == |ms|
    ensures forall i :: 0 <= i < |ms| ==> r[i] == Mark(ms[i], uid, maxId)
  {
    seq(|ms|, i requires 0 <= i < |ms| => Mark(ms[i], uid, maxId))
  }

  /** The batch with the ids it gets in the log. */
  function Stored(batch: seq<Submission>, firstId: int): (r: seq<Message>)
    ensures |r| == |batch|
    ensures forall i :: 0 <= i < |batch| ==> r[i].id == firstId + i
  {
    seq(|batch|, i requires 0 <= i < |batch| =>
      Message(firstId + i, batch[i].fromUid, batch[i].toUid, batch[i].content, batch[i].delivered))
  }

  // ---------------------------------------------------------------- commands

  /** Passwords appear as their hashes. `Login` is the delivery part of a login: the
      query and the mark that follows it, as one step. `Restart` starts a new
      process on the same files. */
  datatype Command =
    | CmdRegister(username: string, hash: string)
    | CmdVerify(username: string, hash: string)
    | CmdAddFriend(fromUid: int, toUid: int, msg: string)
    | CmdAccept(id: int, acceptor: int)
    | CmdFriends(uid: int)
    | CmdQuery(uid: int)
    | CmdMark(uid: int, maxId: int)
    | Login(uid: int)
    | Chat(fromUid: int, toUid: int, content: string, online: bool)
    | TakeBatch
    | WriteBatch
    | Restart

  datatype Answer =
    | Code(n: int)
    | People(friends: seq<(int, DisplayName)>)
    | Mail(mail: seq<Message>)
    | Nothing

  /** A command and the files that can be opened for writing while it runs. */
  datatype Event = Event(cmd: Command, writable: set<File>)

  const ALL_FILES: set<File> := {UsersFile, FriendsFile, RequestsFile, MessagesFile}

  function WithTables(s: State, t: Tables, f: File, writable: set<File>): State
  {
    s.(tables := t, disk := Save(s.disk, t, f, writable))
  }

  function DoRegister(s: State, username: string, hash: string, w: set<File>): (State, int)
  {
    var (t, n) := Register(s.tables, username, hash);
    if t == s.tables then (s, n) else (WithTables(s, t, UsersFile, w), n)
  }

  function DoAddFriend(s: State, fromUid: int, toUid: int, msg: string, w: set<File>): (State, int)
  {
    var (t, n) := AddFriendRequest(s.tables, fromUid, toUid, msg);
    if t == s.tables then (s, n) else (WithTables(s, t, RequestsFile, w), n)
  }

  /** Both files are rewritten, unless the call fails: then nothing is saved. */
  function DoAccept(s: State, id: int, acceptor: int, w: set<File>): (State, int)
  {
    var (t, n) := AcceptFriendRequest(s.tables, id, acceptor);
    if n < 0 then (s.(tables := t), n)
    else (s.(tables := t, disk := Save(Save(s.disk, t, RequestsFile, w), t, FriendsFile, w)), n)
  }

  function DoMark(s: State, uid: int, maxId: int, w: set<File>): State
  {
    WithTables(s, s.tables.(messages := MarkDelivered(s.tables.messages, uid, maxId)), MessagesFile, w)
  }

  function DoLogin(s: State, uid: int, w: set<File>): (State, seq<Message>)
  {
    var mail := QueryOffline(s.tables.messages, uid);
    (if mail == [] then s else DoMark(s, uid, INT64_MAX, w), mail)
  }

  function DoTakeBatch(s: State): State
  {
    if s.batch != [] then s
    else
      var n := if |s.queue| < BATCH_LIMIT then |s.queue| else BATCH_LIMIT;
      s.(batch := s.queue[..n], queue := s.queue[n..])
  }

  function DoWriteBatch(s: State, w: set<File>): State
  {
    if s.batch == [] then s
    else
      var t := s.tables;
      WithTables(s.(batch := []),
                 t.(messages := t.messages + Stored(s.batch, t.nextMsgId), nextMsgId := t.nextMsgId + |s.batch|),
                 MessagesFile, w)
  }

  function Step(s: State, e: Event): (State, Answer)
  {
    match e.cmd
    case CmdRegister(name, hash) => var (s', n) := DoRegister(s, name, hash, e.writable); (s', Code(n))
    case CmdVerify(name, hash) => (s, Code(VerifyLogin(s.tables, name, hash)))
    case CmdAddFriend(a, b, msg) => var (s', n) := DoAddFriend(s, a, b, msg, e.writable); (s', Code(n))
    case CmdAccept(id, acceptor) => var (s', n) := DoAccept(s, id, acceptor, e.writable); (s', Code(n))
    case CmdFriends(uid) => (s, People(GetFriends(s.tables, uid)))
    case CmdQuery(uid) => (s, Mail(QueryOffline(s.tables.messages, uid)))
    case CmdMark(uid, maxId) => (DoMark(s, uid, maxId, e.writable), Nothing)
    case Login(uid) => var (s', mail) := DoLogin(s, uid, e.writable); (s', Mail(mail))
    case Chat(a, b, text, online) => (s.(queue := s.queue + [Submission(a, b, text, online)]), Nothing)
    case TakeBatch => (DoTakeBatch(s), Nothing)
    case WriteBatch => (DoWriteBatch(s, e.writable), Nothing)
    case Restart =>
      var t := Load(s.disk);
      (if t.Some? then State(t.value, s.disk, [], []) else s, Nothing)
  }

  function Run(s: State, es: seq<Event>): State
    decreases es
  {
    if es == [] then s else Run(Step(s, es[0]).0, es[1..])
  }

  function Answers(s: State, es: seq<Event>): seq<Answer>
    decreases es
  {
    if es == [] then []
    else
      var (s', a) := Step(s, es[0]);
      (if es[0].cmd.Restart? then [] else [a]) + Answers(s', es[1..])
  }
}
