/** Saving and loading are inverse, the files follow the tables through every
    command, and so a restart on quiet queues cannot be noticed. */
module StorePersistence {
  import opened Common
  import opened Store

  // ---------------------------------------------------------------- round trip

  /** If every entry converts back, so does the array. */
  lemma EntriesRoundTrip<T(!new)>(j: Json, key: string, parse: Json -> Option<T>, show: T -> Json, xs: seq<T>)
    requires j.Object? && key in j.fields && j.fields[key] == Array(MapSeq(show, xs))
    requires forall x :: parse(show(x)) == Some(x)
    ensures Entries(j, key, parse) == Some(xs)
  {
    var items := j.fields[key].items;
    assert forall i :: 0 <= i < |items| ==> parse(items[i]) == Some(xs[i]);
    var r := Entries(j, key, parse);
    assert r.Some? && |r.value| == |xs|;
    assert r.value == xs;
  }

  lemma UsersRoundTrip(disk: Disk, t: Tables)
    requires UsersFile in disk && disk[UsersFile] == Parsed(FileJson(t, UsersFile))
    ensures LoadUsers(disk) == Some((t.nextUid, t.users))
  {
    assert forall u :: UserOf(UserJson(u)) == Some(u);
    EntriesRoundTrip(FileJson(t, UsersFile), "users", UserOf, UserJson, t.users);
  }

  lemma FriendsRoundTrip(disk: Disk, t: Tables)
    requires FriendsFile in disk && disk[FriendsFile] == Parsed(FileJson(t, FriendsFile))
    ensures LoadFriends(disk) == Some(t.friends)
  {
    assert forall p :: PairOf(PairJson(p)) == Some(p);
    EntriesRoundTrip(FileJson(t, FriendsFile), "pairs", PairOf, PairJson, t.friends);
  }

  lemma RequestsConvertBack()
    ensures forall r :: RequestOf(RequestJson(r)) == Some(r)
  {
  }

  lemma MessagesConvertBack()
    ensures forall m :: MessageOf(MessageJson(m)) == Some(m)
  {
  }

  lemma RequestsRoundTrip(disk: Disk, t: Tables)
    requires RequestsFile in disk && disk[RequestsFile] == Parsed(FileJson(t, RequestsFile))
    ensures LoadRequests(disk) == Some((t.nextReqId, t.requests))
  {
    RequestsConvertBack();
    hide RequestOf, RequestJson;
    EntriesRoundTrip(FileJson(t, RequestsFile), "requests", RequestOf, RequestJson, t.requests);
  }

  lemma MessagesRoundTrip(disk: Disk, t: Tables)
    requires MessagesFile in disk && disk[MessagesFile] == Parsed(FileJson(t, MessagesFile))
    ensures LoadMessages(disk) == Some((t.nextMsgId, t.messages))
  {
    MessagesConvertBack();
    hide MessageOf, MessageJson;
    EntriesRoundTrip(FileJson(t, MessagesFile), "messages", MessageOf, MessageJson, t.messages);
  }

  /** Loading what was saved gives back every table and counter, whatever was on
      disk before. */
  lemma LoadAfterSave(disk: Disk, t: Tables)
    ensures var d := Save(Save(Save(Save(disk, t, UsersFile, ALL_FILES), t, FriendsFile, ALL_FILES),
                               t, RequestsFile, ALL_FILES), t, MessagesFile, ALL_FILES);
            Load(d) == Some(t)
  {
    hide FileJson, LoadUsers, LoadFriends, LoadRequests, LoadMessages;
    var d := Save(Save(Save(Save(disk, t, UsersFile, ALL_FILES), t, FriendsFile, ALL_FILES),
                       t, RequestsFile, ALL_FILES), t, MessagesFile, ALL_FILES);
    UsersRoundTrip(d, t);
    FriendsRoundTrip(d, t);
    RequestsRoundTrip(d, t);
    MessagesRoundTrip(d, t);
  }

  // ---------------------------------------------------------------- the mirror

  /** A process started now would read exactly the tables in memory. */
  ghost predicate Mirrors(s: State)
  {
    Load(s.disk) == Some(s.tables)
  }

  /** The tables that differ from the files only in what file `f` holds. */
  ghost predicate DiffersOnlyIn(t: Tables, u: Tables, f: File)
  {
    match f
    case UsersFile => u == t.(users := u.users, nextUid := u.nextUid)
    case FriendsFile => u == t.(friends := u.friends)
    case RequestsFile => u == t.(requests := u.requests, nextReqId := u.nextReqId)
    case MessagesFile => u == t.(messages := u.messages, nextMsgId := u.nextMsgId)
  }

  /** Rewriting the one file that is out of date restores the mirror. */
  lemma SaveRestoresMirror(disk: Disk, t: Tables, u: Tables, f: File)
    requires Load(disk) == Some(t) && DiffersOnlyIn(t, u, f)
    ensures Load(Save(disk, u, f, ALL_FILES)) == Some(u)
  {
    var d := Save(disk, u, f, ALL_FILES);
    LoadsUnchanged(disk, d, f);
    hide FileJson, LoadUsers, LoadFriends, LoadRequests, LoadMessages;
    match f
    case UsersFile => UsersRoundTrip(d, u);
    case FriendsFile => FriendsRoundTrip(d, u);
    case RequestsFile => RequestsRoundTrip(d, u);
    case MessagesFile => MessagesRoundTrip(d, u);
  }

  lemma LoadsUnchanged(disk: Disk, d: Disk, f: File)
    requires forall g :: g != f ==> ReadFile(d, g) == ReadFile(disk, g)
    ensures f != UsersFile ==> LoadUsers(d) == LoadUsers(disk)
    ensures f != FriendsFile ==> LoadFriends(d) == LoadFriends(disk)
    ensures f != RequestsFile ==> LoadRequests(d) == LoadRequests(disk)
    ensures f != MessagesFile ==> LoadMessages(d) == LoadMessages(disk)
  {
    hide Entries, IntOr, ReadFile;
  }

  /** The request an accept would mark comes from a negative uid. */
  predicate AcceptsNegative(t: Tables, id: int, acceptor: int)
  {
    var i := FindRequest(t.requests, id, acceptor);
    i < |t.requests| && t.requests[i].fromUid < 0
  }

  lemma RegisterMirrors(s: State, name: string, hash: string)
    requires Mirrors(s)
    ensures Mirrors(DoRegister(s, name, hash, ALL_FILES).0)
  {
    hide Load, Save, NameTaken;
    SaveRestoresMirror(s.disk, s.tables, Register(s.tables, name, hash).0, UsersFile);
  }

  lemma AddFriendMirrors(s: State, a: int, b: int, msg: string)
    requires Mirrors(s)
    ensures Mirrors(DoAddFriend(s, a, b, msg, ALL_FILES).0)
  {
    hide Load, Save, HasPending;
    SaveRestoresMirror(s.disk, s.tables, AddFriendRequest(s.tables, a, b, msg).0, RequestsFile);
  }

  /** Accepting keeps the mirror exactly unless it hits a request from a negative
      uid, which is then marked in memory only. */
  lemma AcceptMirrors(s: State, id: int, acceptor: int)
    requires Mirrors(s)
    ensures Mirrors(DoAccept(s, id, acceptor, ALL_FILES).0) <==> !AcceptsNegative(s.tables, id, acceptor)
  {
    hide Load, Save, FindRequest;
    var t := s.tables;
    var i := FindRequest(t.requests, id, acceptor);
    var (u, n) := AcceptFriendRequest(t, id, acceptor);
    if i < |t.requests| {
      if t.requests[i].fromUid < 0 {
        assert u.requests[i].status != t.requests[i].status;
      } else {
        var v := t.(requests := u.requests);
        SaveRestoresMirror(s.disk, t, v, RequestsFile);
        SaveLooksAtOneTable(s.disk, u, v);
        SaveRestoresMirror(Save(s.disk, u, RequestsFile, ALL_FILES), v, u, FriendsFile);
      }
    }
  }

  /** A concrete store where accepting leaves the files behind: after a restart the
      request would be pending again. */
  lemma NegativeRequesterIsNotSaved()
    ensures var request := FriendRequest(1, -5, 7, "", PENDING);
            var t := EMPTY_TABLES.(requests := [request], nextReqId := 2);
            var s := State(t, Save(map[], t, RequestsFile, ALL_FILES), [], []);
            && Mirrors(s)
            && !Mirrors(DoAccept(s, 1, 7, ALL_FILES).0)
  {
    var request := FriendRequest(1, -5, 7, "", PENDING);
    var t := EMPTY_TABLES.(requests := [request], nextReqId := 2);
    EmptyStoreMirrors();
    SaveRestoresMirror(map[], EMPTY_TABLES, t, RequestsFile);
    var s := State(t, Save(map[], t, RequestsFile, ALL_FILES), [], []);
    hide Load, Save;
    AcceptMirrors(s, 1, 7);
    assert FindRequest(t.requests, 1, 7) == 0;
  }

  lemma SaveLooksAtOneTable(disk: Disk, t: Tables, u: Tables)
    requires t.requests == u.requests && t.nextReqId == u.nextReqId
    ensures Save(disk, t, RequestsFile, ALL_FILES) == Save(disk, u, RequestsFile, ALL_FILES)
  {
  }

  lemma MarkMirrors(s: State, uid: int, maxId: int)
    requires Mirrors(s)
    ensures Mirrors(DoMark(s, uid, maxId, ALL_FILES))
  {
    hide Load, Save;
    SaveRestoresMirror(s.disk, s.tables,
                       s.tables.(messages := MarkDelivered(s.tables.messages, uid, maxId)), MessagesFile);
  }

  lemma WriteBatchMirrors(s: State)
    requires Mirrors(s)
    ensures Mirrors(DoWriteBatch(s, ALL_FILES))
  {
    hide Load, Save;
    var t := s.tables;
    SaveRestoresMirror(s.disk, t,
                       t.(messages := t.messages + Stored(s.batch, t.nextMsgId), nextMsgId := t.nextMsgId + |s.batch|),
                       MessagesFile);
  }

  /** Requests that no accept can mark without saving. */
  predicate NonNegative(rs: seq<FriendRequest>)
  {
    forall i :: 0 <= i < |rs| ==> rs[i].fromUid >= 0
  }

  /** The server passes a context's uid as the requester; it is never negative. */
  predicate Genuine(e: Event)
  {
    && e.writable == ALL_FILES
    && (e.cmd.CmdAddFriend? ==> e.cmd.fromUid >= 0)
  }

  /** Every completed command leaves disk equal to memory. */
  lemma StepMirrors(s: State, e: Event)
    requires Mirrors(s) && NonNegative(s.tables.requests) && Genuine(e)
    ensures var t := Step(s, e).0; Mirrors(t) && NonNegative(t.tables.requests)
  {
    hide Load, Save, Mirrors, NameTaken, HasPending, FindRequest;
    match e.cmd
    case CmdRegister(name, hash) => RegisterMirrors(s, name, hash);
    case CmdAddFriend(a, b, msg) => AddFriendMirrors(s, a, b, msg);
    case CmdAccept(id, acceptor) => AcceptMirrors(s, id, acceptor);
    case CmdMark(uid, maxId) => MarkMirrors(s, uid, maxId);
    case Login(uid) => MarkMirrors(s, uid, INT64_MAX);
    case WriteBatch => WriteBatchMirrors(s);
    case Chat(_, _, _, _) => SameTablesMirror(s, Step(s, e).0);
    case TakeBatch => SameTablesMirror(s, Step(s, e).0);
    case Restart => RestartIsInvisible(s, e);
    case _ =>
  }

  lemma SameTablesMirror(s: State, t: State)
    requires Mirrors(s) && t.tables == s.tables && t.disk == s.disk
    ensures Mirrors(t)
  {
  }

  /** A restart loses what was not stored yet and nothing else. */
  lemma RestartIsInvisible(s: State, e: Event)
    requires Mirrors(s) && e.cmd.Restart?
    ensures Step(s, e).0 == s.(queue := [], batch := []) && Mirrors(Step(s, e).0)
  {
    hide Load;
  }

  lemma {:induction false} RunMirrors(s: State, es: seq<Event>)
    requires Mirrors(s) && NonNegative(s.tables.requests)
    requires forall i :: 0 <= i < |es| ==> Genuine(es[i])
    ensures Mirrors(Run(s, es)) && NonNegative(Run(s, es).tables.requests)
    decreases es
  {
    hide Mirrors, NonNegative, Step;
    if es != [] {
      StepMirrors(s, es[0]);
      RunMirrors(Step(s, es[0]).0, es[1..]);
    }
  }

  /** A first start on an empty directory mirrors. */
  lemma EmptyStoreMirrors()
    ensures Mirrors(State(EMPTY_TABLES, map[], [], []))
  {
  }

  // ---------------------------------------------------------------- restarts

  function WithoutRestarts(es: seq<Event>): seq<Event>
  {
    if es == [] then []
    else (if es[0].cmd.Restart? then [] else [es[0]]) + WithoutRestarts(es[1..])
  }

  /** No message is waiting whenever a restart comes. */
  predicate RestartsAreQuiet(s: State, es: seq<Event>)
    decreases es
  {
    es == [] ||
    ((es[0].cmd.Restart? ==> s.queue == [] && s.batch == []) && RestartsAreQuiet(Step(s, es[0]).0, es[1..]))
  }

  /** The files are up to date whenever a restart comes. */
  ghost predicate RestartsFindMirror(s: State, es: seq<Event>)
    decreases es
  {
    es == [] || ((es[0].cmd.Restart? ==> Mirrors(s)) && RestartsFindMirror(Step(s, es[0]).0, es[1..]))
  }

  /** They are, while the server's own calls write every file. */
  lemma {:induction false} GenuineRestartsFindMirror(s: State, es: seq<Event>)
    requires Mirrors(s) && NonNegative(s.tables.requests)
    requires forall i :: 0 <= i < |es| ==> Genuine(es[i])
    ensures RestartsFindMirror(s, es)
    decreases es
  {
    hide Mirrors, NonNegative, Step;
    if es != [] {
      StepMirrors(s, es[0]);
      GenuineRestartsFindMirror(Step(s, es[0]).0, es[1..]);
    }
  }

  lemma {:induction false} WithoutAnyRestart(s: State, es: seq<Event>)
    requires forall i :: 0 <= i < |es| ==> !es[i].cmd.Restart?
    ensures RestartsFindMirror(s, es) && RestartsAreQuiet(s, es)
    decreases es
  {
    hide Mirrors, Step;
    if es != [] {
      WithoutAnyRestart(Step(s, es[0]).0, es[1..]);
    }
  }

  /** Restart transparency: dropping the restarts from a run changes neither any
      answer nor the final state. */
  lemma {:induction false} RestartTransparency(s: State, es: seq<Event>)
    requires Mirrors(s) && NonNegative(s.tables.requests)
    requires forall i :: 0 <= i < |es| ==> Genuine(es[i])
    requires RestartsAreQuiet(s, es)
    ensures Run(s, WithoutRestarts(es)) == Run(s, es)
    ensures Answers(s, WithoutRestarts(es)) == Answers(s, es)
    decreases es
  {
    hide Mirrors, NonNegative, Step;
    if es != [] {
      var e := es[0];
      StepMirrors(s, e);
      RestartTransparency(Step(s, e).0, es[1..]);
      var rest := WithoutRestarts(es[1..]);
      if e.cmd.Restart? {
        RestartIsInvisible(s, e);
        assert s.(queue := [], batch := []) == s;
        assert [] + rest == rest;
      } else {
        assert ([e] + rest)[1..] == rest;
      }
    }
  }

  // ---------------------------------------------------------------- identifiers

  /** What a command issues: the new uid or request id, or the ids of the messages
      it stores. */
  function Issued(s: State, e: Event, f: File): seq<int>
  {
    var t := Step(s, e).0.tables;
    match f
    case UsersFile => if e.cmd.CmdRegister? && t != s.tables then [s.tables.nextUid] else []
    case RequestsFile => if e.cmd.CmdAddFriend? && t != s.tables then [s.tables.nextReqId] else []
    case MessagesFile => if e.cmd.WriteBatch? then seq(|s.batch|, i => s.tables.nextMsgId + i) else []
    case FriendsFile => []
  }

  function IssuedBy(s: State, es: seq<Event>, f: File): seq<int>
    decreases es
  {
    if es == [] then [] else Issued(s, es[0], f) + IssuedBy(Step(s, es[0]).0, es[1..], f)
  }

  function Counter(t: Tables, f: File): int
  {
    match f
    case UsersFile => t.nextUid
    case RequestsFile => t.nextReqId
    case MessagesFile => t.nextMsgId
    case FriendsFile => 0
  }

  predicate Ascending(xs: seq<int>, low: int, high: int)
  {
    && (forall i :: 0 <= i < |xs| ==> low <= xs[i] < high)
    && (forall i, j :: 0 <= i < j < |xs| ==> xs[i] < xs[j])
  }

  lemma StepIssuesFromCounter(s: State, e: Event, f: File)
    requires Mirrors(s)
    ensures var t := Step(s, e).0;
            Counter(s.tables, f) <= Counter(t.tables, f)
            && Ascending(Issued(s, e, f), Counter(s.tables, f), Counter(t.tables, f))
  {
    hide Load, Save, NameTaken, HasPending, FindRequest, MarkDelivered;
    if e.cmd.Restart? {
      RestartIsInvisible(s, e);
    }
  }

  /** The code answered is the id issued. */
  lemma AnswersAreIssuedIds(s: State, e: Event)
    requires s.tables.nextUid >= 0 && s.tables.nextReqId >= 0
    ensures e.cmd.CmdRegister? ==>
              var n := Step(s, e).1.n;
              Issued(s, e, UsersFile) == if n >= 0 then [n] else []
    ensures e.cmd.CmdAddFriend? ==>
              var n := Step(s, e).1.n;
              Issued(s, e, RequestsFile) == if n >= 0 then [n] else []
  {
  }

  /** Over any run, with restarts wherever they come, identifiers are issued in
      strictly ascending order; none is issued twice. */
  lemma {:induction false} IdsNeverReissued(s: State, es: seq<Event>, f: File)
    requires Mirrors(s) && NonNegative(s.tables.requests)
    requires forall i :: 0 <= i < |es| ==> Genuine(es[i])
    ensures Counter(s.tables, f) <= Counter(Run(s, es).tables, f)
    ensures Ascending(IssuedBy(s, es, f), Counter(s.tables, f), Counter(Run(s, es).tables, f))
    decreases es
  {
    hide Mirrors, NonNegative, Step, Issued;
    if es != [] {
      StepMirrors(s, es[0]);
      StepIssuesFromCounter(s, es[0], f);
      IdsNeverReissued(Step(s, es[0]).0, es[1..], f);
    }
  }
}
