/** Offline messages reach their recipient once and in order. */
module StoreDelivery {
  import opened Common
  import opened Store
  import opened StorePersistence

  /** A message without its id and delivery mark. */
  datatype Envelope = Envelope(fromUid: int, toUid: int, content: string)

  // ---------------------------------------------------------------- what is still owed

  /** Undelivered messages for `uid` in the log. */
  function InLog(ms: seq<Message>, uid: int): seq<Envelope>
  {
    Envelopes(QueryOffline(ms, uid))
  }

  function Envelopes(ms: seq<Message>): (r: seq<Envelope>)
    ensures |r| == |ms|
  {
    seq(|ms|, i requires 0 <= i < |ms| => Envelope(ms[i].fromUid, ms[i].toUid, ms[i].content))
  }

  /** Undelivered messages for `uid` among submissions that have no id yet. */
  function Waiting(qs: seq<Submission>, uid: int): seq<Envelope>
  {
    if qs == [] then []
    else
      var q := qs[0];
      (if q.toUid == uid && !q.delivered then [Envelope(q.fromUid, q.toUid, q.content)] else [])
      + Waiting(qs[1..], uid)
  }

  /** Everything owed to `uid`, oldest first: the log, the batch, the queue. */
  function Owed(s: State, uid: int): seq<Envelope>
  {
    InLog(s.tables.messages, uid) + Waiting(s.batch, uid) + Waiting(s.queue, uid)
  }

  lemma {:induction false} QueryAppend(ms: seq<Message>, ns: seq<Message>, uid: int)
    ensures QueryOffline(ms + ns, uid) == QueryOffline(ms, uid) + QueryOffline(ns, uid)
  {
    if ms == [] {
      assert ms + ns == ns;
    } else {
      assert (ms + ns)[1..] == ms[1..] + ns;
      QueryAppend(ms[1..], ns, uid);
    }
  }

  lemma {:induction false} WaitingAppend(ps: seq<Submission>, qs: seq<Submission>, uid: int)
    ensures Waiting(ps + qs, uid) == Waiting(ps, uid) + Waiting(qs, uid)
  {
    if ps == [] {
      assert ps + qs == qs;
    } else {
      assert (ps + qs)[1..] == ps[1..] + qs;
      WaitingAppend(ps[1..], qs, uid);
    }
  }

  /** Storing a batch gives each submission an id and changes nothing else. */
  lemma {:induction false} StoredKeepsEnvelopes(batch: seq<Submission>, first: int, uid: int)
    ensures InLog(Stored(batch, first), uid) == Waiting(batch, uid)
  {
    if batch != [] {
      StoredKeepsEnvelopes(batch[1..], first + 1, uid);
      assert Stored(batch, first)[1..] == Stored(batch[1..], first + 1);
      EnvelopesAppend(if batch[0].toUid == uid && !batch[0].delivered then [Stored(batch, first)[0]] else [],
                      QueryOffline(Stored(batch[1..], first + 1), uid));
    }
  }

  lemma EnvelopesAppend(ms: seq<Message>, ns: seq<Message>)
    ensures Envelopes(ms + ns) == Envelopes(ms) + Envelopes(ns)
  {
  }

  /** Marking everything of `uid` leaves it nothing and others all they had. */
  lemma {:induction false} MarkAllEmpties(ms: seq<Message>, uid: int, maxId: int, other: int)
    requires forall i :: 0 <= i < |ms| ==> ms[i].id <= maxId
    ensures QueryOffline(MarkDelivered(ms, uid, maxId), other) == if other == uid then [] else QueryOffline(ms, other)
  {
    if ms != [] {
      MarkAllEmpties(ms[1..], uid, maxId, other);
      assert MarkDelivered(ms, uid, maxId)[1..] == MarkDelivered(ms[1..], uid, maxId);
    }
  }

  // ---------------------------------------------------------------- ids along the log

  /** Ids strictly ascend along the log and stay below the counter. */
  ghost predicate IdsAscend(t: Tables)
  {
    && (forall i :: 0 <= i < |t.messages| ==> t.messages[i].id < t.nextMsgId)
    && (forall i, j :: 0 <= i < j < |t.messages| ==> t.messages[i].id < t.messages[j].id)
  }

  lemma StepKeepsIds(s: State, e: Event)
    requires IdsAscend(s.tables) && (e.cmd.Restart? ==> Mirrors(s))
    ensures IdsAscend(Step(s, e).0.tables)
    ensures s.tables.nextMsgId <= Step(s, e).0.tables.nextMsgId
  {
    hide Save, Load, NameTaken, HasPending, FindRequest, QueryOffline;
    if e.cmd.Restart? {
      RestartIsInvisible(s, e);
    }
  }

  // ---------------------------------------------------------------- exactly once, in order

  /** Offline messages submitted to `uid`, and messages handed to `uid` at login. */
  function Submitted(e: Event, uid: int): seq<Envelope>
  {
    if e.cmd.Chat? && e.cmd.toUid == uid && !e.cmd.online
    then [Envelope(e.cmd.fromUid, uid, e.cmd.content)] else []
  }

  function Delivered(s: State, e: Event, uid: int): seq<Envelope>
  {
    if e.cmd == Login(uid) then InLog(s.tables.messages, uid) else []
  }

  function SubmittedBy(es: seq<Event>, uid: int): seq<Envelope>
  {
    if es == [] then [] else Submitted(es[0], uid) + SubmittedBy(es[1..], uid)
  }

  function DeliveredBy(s: State, es: seq<Event>, uid: int): seq<Envelope>
    decreases es
  {
    if es == [] then [] else Delivered(s, es[0], uid) + DeliveredBy(Step(s, es[0]).0, es[1..], uid)
  }

  /** The messages handed on at login are the answer of the command. */
  lemma DeliveredIsAnswered(s: State, e: Event, uid: int)
    requires e.cmd == Login(uid)
    ensures Step(s, e).1.Mail? && Delivered(s, e, uid) == Envelopes(Step(s, e).1.mail)
  {
  }

  /** Only logins mark messages, as in the server. */
  predicate OnlyLoginsMark(es: seq<Event>)
  {
    forall i :: 0 <= i < |es| ==> !es[i].cmd.CmdMark?
  }

  lemma MarkSparesOthers(s: State, uid: int, other: int, w: set<File>)
    requires var ms := s.tables.messages;
             QueryOffline(MarkDelivered(ms, uid, INT64_MAX), other) == QueryOffline(ms, other)
    ensures Owed(DoMark(s, uid, INT64_MAX, w), other) == Owed(s, other)
  {
    hide QueryOffline, Save, Waiting, Envelopes;
  }

  lemma LoginPays(s: State, e: Event, uid: int)
    requires IdsAscend(s.tables) && s.tables.nextMsgId <= INT64_MAX + 1 && e.cmd.Login?
    ensures Owed(s, uid) == Delivered(s, e, uid) + Owed(Step(s, e).0, uid)
  {
    hide Save, QueryOffline, Waiting, Owed;
    var ms, other := s.tables.messages, e.cmd.uid;
    assert forall i :: 0 <= i < |ms| ==> ms[i].id <= INT64_MAX;
    hide IdsAscend;
    MarkAllEmpties(ms, other, INT64_MAX, uid);
    var t := DoMark(s, other, INT64_MAX, e.writable);
    if other == uid {
      MarkPaysAll(s, uid, e.writable);
      assert QueryOffline(ms, uid) == [] ==> InLog(ms, uid) + Owed(s, uid) == Owed(s, uid);
    } else {
      MarkSparesOthers(s, other, uid, e.writable);
      assert [] + Owed(s, uid) == Owed(s, uid);
    }
  }

  lemma WriteBatchMovesOn(s: State, e: Event, uid: int)
    requires e.cmd.WriteBatch?
    ensures Owed(Step(s, e).0, uid) == Owed(s, uid)
  {
    hide Save;
    var ms, ns := s.tables.messages, Stored(s.batch, s.tables.nextMsgId);
    if s.batch != [] {
      QueryAppend(ms, ns, uid);
      EnvelopesAppend(QueryOffline(ms, uid), QueryOffline(ns, uid));
      StoredKeepsEnvelopes(s.batch, s.tables.nextMsgId, uid);
    }
  }

  lemma TakeBatchMovesOn(s: State, e: Event, uid: int)
    requires e.cmd.TakeBatch?
    ensures Owed(Step(s, e).0, uid) == Owed(s, uid)
  {
    var t := Step(s, e).0;
    if s.batch == [] {
      assert s.queue == t.batch + t.queue;
      WaitingAppend(t.batch, t.queue, uid);
    }
  }

  lemma StepBalances(s: State, e: Event, uid: int)
    requires IdsAscend(s.tables) && s.tables.nextMsgId <= INT64_MAX + 1 && !e.cmd.CmdMark?
    requires e.cmd.Restart? ==> Mirrors(s) && s.queue == [] && s.batch == []
    ensures Owed(s, uid) + Submitted(e, uid) == Delivered(s, e, uid) + Owed(Step(s, e).0, uid)
  {
    hide IdsAscend, Owed, Mirrors, QueryOffline;
    assert Owed(s, uid) + [] == Owed(s, uid);
    match e.cmd
    case Login(_) => LoginPays(s, e, uid);
    case WriteBatch => WriteBatchMovesOn(s, e, uid);
    case TakeBatch => TakeBatchMovesOn(s, e, uid);
    case Chat(_, _, _, _) => ChatIsOwed(s, e, uid);
    case Restart => RestartIsInvisible(s, e);
    case _ =>
      OthersKeepMessages(s, e);
      hide Step;
      SameOwed(s, Step(s, e).0, uid);
  }

  lemma ChatIsOwed(s: State, e: Event, uid: int)
    requires e.cmd.Chat?
    ensures Owed(Step(s, e).0, uid) == Owed(s, uid) + Submitted(e, uid)
  {
    var q := Submission(e.cmd.fromUid, e.cmd.toUid, e.cmd.content, e.cmd.online);
    assert Waiting([q], uid) == Submitted(e, uid) + Waiting([], uid);
    hide Waiting, InLog, Submitted;
    WaitingAppend(s.queue, [q], uid);
    NobodyWaits(uid);
  }

  lemma NobodyWaits(uid: int)
    ensures Waiting([], uid) == []
  {
  }

  /** Commands about users and friends leave messages alone. */
  lemma OthersKeepMessages(s: State, e: Event)
    requires e.cmd.CmdRegister? || e.cmd.CmdVerify? || e.cmd.CmdAddFriend? || e.cmd.CmdAccept?
             || e.cmd.CmdFriends? || e.cmd.CmdQuery?
    ensures var t := Step(s, e).0;
            t.tables.messages == s.tables.messages && t.batch == s.batch && t.queue == s.queue
  {
    hide Save, NameTaken, HasPending, FindRequest, QueryOffline, VerifyLogin, GetFriends;
  }

  lemma SameOwed(s: State, t: State, uid: int)
    requires t.tables.messages == s.tables.messages && t.batch == s.batch && t.queue == s.queue
    ensures Owed(t, uid) == Owed(s, uid)
  {
  }

  /** Exactly once and first in, first out: over any run, what `uid` was owed plus
      what was submitted to it while offline is what it got at logins plus what it is
      still owed, as sequences. Restarts may come on quiet queues with the files up
      to date. The id counter must stay within the int that holds it. */
  lemma {:induction false} OfflineMessagesExactlyOnceInOrder(s: State, es: seq<Event>, uid: int)
    requires IdsAscend(s.tables) && OnlyLoginsMark(es)
    requires RestartsAreQuiet(s, es) && RestartsFindMirror(s, es)
    requires Run(s, es).tables.nextMsgId <= INT32_MAX + 1
    ensures IdsAscend(Run(s, es).tables) && s.tables.nextMsgId <= Run(s, es).tables.nextMsgId
    ensures Owed(s, uid) + SubmittedBy(es, uid) == DeliveredBy(s, es, uid) + Owed(Run(s, es), uid)
    decreases es
  {
    hide IdsAscend, Owed, Step, Submitted, Delivered, Mirrors;
    if es != [] {
      var e, t := es[0], Step(s, es[0]).0;
      StepKeepsIds(s, e);
      OfflineMessagesExactlyOnceInOrder(t, es[1..], uid);
      StepBalances(s, e, uid);
      var z := Run(s, es);
      calc {
        Owed(s, uid) + SubmittedBy(es, uid);
        Owed(s, uid) + Submitted(e, uid) + SubmittedBy(es[1..], uid);
        Delivered(s, e, uid) + Owed(t, uid) + SubmittedBy(es[1..], uid);
        Delivered(s, e, uid) + (Owed(t, uid) + SubmittedBy(es[1..], uid));
        Delivered(s, e, uid) + (DeliveredBy(t, es[1..], uid) + Owed(z, uid));
        Delivered(s, e, uid) + DeliveredBy(t, es[1..], uid) + Owed(z, uid);
      }
    }
  }

  /** From an empty store: delivered, then stored, then waiting is what was sent. */
  lemma FromEmptyStore(disk: Disk, es: seq<Event>, uid: int)
    requires var s := State(EMPTY_TABLES, disk, [], []);
             && OnlyLoginsMark(es) && RestartsAreQuiet(s, es) && RestartsFindMirror(s, es)
             && Run(s, es).tables.nextMsgId <= INT32_MAX + 1
    ensures var s := State(EMPTY_TABLES, disk, [], []);
            var t := Run(s, es);
            SubmittedBy(es, uid) ==
            DeliveredBy(s, es, uid) + (InLog(t.tables.messages, uid) + Waiting(t.batch, uid) + Waiting(t.queue, uid))
  {
    var s := State(EMPTY_TABLES, disk, [], []);
    assert Owed(s, uid) == [] && IdsAscend(s.tables);
    hide Run, SubmittedBy, DeliveredBy, Step, InLog, Waiting, IdsAscend, RestartsAreQuiet, RestartsFindMirror;
    OfflineMessagesExactlyOnceInOrder(s, es, uid);
    assert [] + SubmittedBy(es, uid) == SubmittedBy(es, uid);
  }

  /** A server that starts in an empty directory and is restarted whenever its queue
      is empty loses, doubles and reorders nothing. */
  lemma ExactlyOnceAcrossRestarts(es: seq<Event>, uid: int)
    requires OnlyLoginsMark(es) && forall i :: 0 <= i < |es| ==> Genuine(es[i])
    requires var s := State(EMPTY_TABLES, map[], [], []);
             RestartsAreQuiet(s, es) && Run(s, es).tables.nextMsgId <= INT32_MAX + 1
    ensures var s := State(EMPTY_TABLES, map[], [], []);
            SubmittedBy(es, uid) == DeliveredBy(s, es, uid) + Owed(Run(s, es), uid)
  {
    var s := State(EMPTY_TABLES, map[], [], []);
    EmptyStoreMirrors();
    hide Mirrors, Run, SubmittedBy, DeliveredBy, InLog, Waiting, RestartsAreQuiet, RestartsFindMirror;
    GenuineRestartsFindMirror(s, es);
    FromEmptyStore(map[], es, uid);
  }

  // ---------------------------------------------------------------- marking by id

  /** The entries that differ between two versions of the log, as they were. */
  function Changed(before: seq<Message>, after: seq<Message>): seq<Message>
    requires |before| == |after|
  {
    if before == [] then []
    else (if after[0] != before[0] then [before[0]] else []) + Changed(before[1..], after[1..])
  }

  /** The undelivered messages for `uid` up to an id. */
  function UpTo(ms: seq<Message>, uid: int, k: int): seq<Message>
  {
    if ms == [] then []
    else
      (if ms[0].toUid == uid && !ms[0].delivered && ms[0].id <= k then [ms[0]] else [])
      + UpTo(ms[1..], uid, k)
  }

  /** A mark changes these entries and no others. */
  lemma {:induction false} MarkChanges(ms: seq<Message>, uid: int, k: int)
    ensures Changed(ms, MarkDelivered(ms, uid, k)) == UpTo(ms, uid, k)
  {
    if ms != [] {
      MarkChanges(ms[1..], uid, k);
      assert MarkDelivered(ms, uid, k)[1..] == MarkDelivered(ms[1..], uid, k);
    }
  }

  lemma {:induction false} NothingChanged(ms: seq<Message>)
    ensures Changed(ms, ms) == []
  {
    if ms != [] {
      NothingChanged(ms[1..]);
    }
  }

  /** The log only grows at its end, and nobody but `uid`'s own marks touch the
      delivery flags of `uid`. */
  ghost predicate Untouched(ms: seq<Message>, ns: seq<Message>, uid: int)
  {
    && |ms| <= |ns|
    && forall i :: 0 <= i < |ms| ==>
         ns[i].id == ms[i].id && ns[i].toUid == ms[i].toUid && (ms[i].toUid == uid ==> ns[i] == ms[i])
  }

  /** A command that delivers nothing to `uid`. */
  predicate LeavesAlone(e: Event, uid: int)
  {
    && e.cmd != Login(uid)
    && !(e.cmd.CmdMark? && e.cmd.uid == uid)
    && !e.cmd.Restart?
  }

  lemma StepLeavesAlone(s: State, e: Event, uid: int)
    requires LeavesAlone(e, uid)
    ensures Untouched(s.tables.messages, Step(s, e).0.tables.messages, uid)
  {
    hide Save, NameTaken, HasPending, FindRequest, QueryOffline;
  }

  lemma {:induction false} RunLeavesAlone(s: State, es: seq<Event>, uid: int)
    requires IdsAscend(s.tables)
    requires forall i :: 0 <= i < |es| ==> LeavesAlone(es[i], uid)
    ensures IdsAscend(Run(s, es).tables)
    ensures Untouched(s.tables.messages, Run(s, es).tables.messages, uid)
    decreases es
  {
    hide Step, IdsAscend;
    if es != [] {
      StepLeavesAlone(s, es[0], uid);
      StepKeepsIds(s, es[0]);
      RunLeavesAlone(Step(s, es[0]).0, es[1..], uid);
    }
  }

  lemma {:induction false} UntouchedQuery(ms: seq<Message>, ns: seq<Message>, uid: int)
    requires |ns| == |ms| && Untouched(ms, ns, uid)
    ensures QueryOffline(ns, uid) == QueryOffline(ms, uid)
    ensures forall k :: UpTo(ns, uid, k) == UpTo(ms, uid, k)
  {
    if ms != [] {
      UntouchedQuery(ms[1..], ns[1..], uid);
    }
  }

  lemma {:induction false} UpToAll(ms: seq<Message>, uid: int, k: int)
    requires forall i :: 0 <= i < |ms| && ms[i].toUid == uid && !ms[i].delivered ==> ms[i].id <= k
    ensures UpTo(ms, uid, k) == QueryOffline(ms, uid)
  {
    if ms != [] {
      UpToAll(ms[1..], uid, k);
    }
  }

  lemma {:induction false} UpToNone(ms: seq<Message>, uid: int, k: int)
    requires forall i :: 0 <= i < |ms| ==> ms[i].id > k
    ensures UpTo(ms, uid, k) == []
  {
    if ms != [] {
      UpToNone(ms[1..], uid, k);
    }
  }

  lemma {:induction false} UpToAppend(ms: seq<Message>, ns: seq<Message>, uid: int, k: int)
    ensures UpTo(ms + ns, uid, k) == UpTo(ms, uid, k) + UpTo(ns, uid, k)
  {
    if ms == [] {
      assert ms + ns == ns;
    } else {
      assert (ms + ns)[1..] == ms[1..] + ns;
      UpToAppend(ms[1..], ns, uid, k);
    }
  }

  lemma {:induction false} QueryMembers(ms: seq<Message>, uid: int)
    ensures forall m :: m in QueryOffline(ms, uid) <==> m in ms && m.toUid == uid && !m.delivered
  {
    if ms != [] {
      QueryMembers(ms[1..], uid);
      assert ms == [ms[0]] + ms[1..];
    }
  }

  lemma {:induction false} QueryIdsAscend(ms: seq<Message>, uid: int, k: int)
    requires forall i, j :: 0 <= i < j < |ms| ==> ms[i].id < ms[j].id
    requires var q := QueryOffline(ms, uid); q != [] && k == q[|q| - 1].id
    ensures forall i :: 0 <= i < |ms| && ms[i].toUid == uid && !ms[i].delivered ==> ms[i].id <= k
  {
    var rest := QueryOffline(ms[1..], uid);
    assert forall i :: 1 <= i < |ms| ==> ms[1..][i - 1] == ms[i] && ms[i] in ms[1..];
    QueryMembers(ms[1..], uid);
    if rest != [] {
      QueryIdsAscend(ms[1..], uid, k);
      assert rest[|rest| - 1] in rest;
      assert rest[|rest| - 1] in ms[1..];
    }
  }

  /** What was stored after the queried messages has larger ids than all of them. */
  lemma LaterIdsAreLarger(t: Tables, ms: seq<Message>, uid: int, k: int)
    requires IdsAscend(t) && Untouched(ms, t.messages, uid)
    requires var q := QueryOffline(ms, uid); q != [] && k == q[|q| - 1].id
    ensures forall i :: 0 <= i < |t.messages| - |ms| ==> t.messages[|ms|..][i].id > k
  {
    var q := QueryOffline(ms, uid);
    QueryMembers(ms, uid);
    hide QueryOffline;
    assert q[|q| - 1] in q;
    var last :| 0 <= last < |ms| && ms[last] == q[|q| - 1];
    assert t.messages[last].id == k;
  }

  lemma PreciseOnLogs(ms: seq<Message>, ns: seq<Message>, uid: int, k: int)
    requires Untouched(ms, ns, uid)
    requires forall i :: 0 <= i < |ms| && ms[i].toUid == uid && !ms[i].delivered ==> ms[i].id <= k
    requires forall i :: 0 <= i < |ns| - |ms| ==> ns[|ms|..][i].id > k
    ensures UpTo(ns, uid, k) == QueryOffline(ms, uid)
  {
    var n := |ms|;
    UntouchedQuery(ms, ns[..n], uid);
    UpToAll(ms, uid, k);
    UpToNone(ns[n..], uid, k);
    UpToAppend(ns[..n], ns[n..], uid, k);
    hide UpTo, QueryOffline, Untouched;
    assert ns == ns[..n] + ns[n..];
  }

  lemma MarkAppend(ms: seq<Message>, ns: seq<Message>, uid: int, k: int)
    ensures MarkDelivered(ms + ns, uid, k) == MarkDelivered(ms, uid, k) + MarkDelivered(ns, uid, k)
  {
  }

  lemma LargerIdsUnmarked(ms: seq<Message>, uid: int, k: int)
    requires forall i :: 0 <= i < |ms| ==> ms[i].id > k
    ensures MarkDelivered(ms, uid, k) == ms
  {
  }

  /** A mark that covers all undelivered messages of `uid` leaves it none. */
  lemma {:induction false} CoveringMarkEmpties(ms: seq<Message>, uid: int, k: int)
    requires forall i :: 0 <= i < |ms| && ms[i].toUid == uid && !ms[i].delivered ==> ms[i].id <= k
    ensures QueryOffline(MarkDelivered(ms, uid, k), uid) == []
  {
    if ms != [] {
      CoveringMarkEmpties(ms[1..], uid, k);
      assert MarkDelivered(ms, uid, k)[1..] == MarkDelivered(ms[1..], uid, k);
    }
  }

  /** After a mark up to `k`, what came later than `k` is still there to query. */
  lemma LeftOnLogs(ms: seq<Message>, ns: seq<Message>, uid: int, k: int)
    requires Untouched(ms, ns, uid)
    requires forall i :: 0 <= i < |ms| && ms[i].toUid == uid && !ms[i].delivered ==> ms[i].id <= k
    requires forall i :: 0 <= i < |ns| - |ms| ==> ns[|ms|..][i].id > k
    ensures QueryOffline(MarkDelivered(ns, uid, k), uid) == QueryOffline(ns[|ms|..], uid)
  {
    var n := |ms|;
    CoveringMarkEmpties(ns[..n], uid, k);
    LargerIdsUnmarked(ns[n..], uid, k);
    MarkAppend(ns[..n], ns[n..], uid, k);
    hide QueryOffline, MarkDelivered, Untouched;
    QueryAppend(MarkDelivered(ns[..n], uid, k), ns[n..], uid);
    assert ns == ns[..n] + ns[n..];
  }

  /** The entries such a mark changes, one by one. */
  lemma MarkedEntries(ms: seq<Message>, ns: seq<Message>, uid: int, k: int)
    requires Untouched(ms, ns, uid)
    requires forall i :: 0 <= i < |ms| && ms[i].toUid == uid && !ms[i].delivered ==> ms[i].id <= k
    requires forall i :: 0 <= i < |ns| - |ms| ==> ns[|ms|..][i].id > k
    ensures forall i :: 0 <= i < |ns| ==>
              (MarkDelivered(ns, uid, k)[i] != ns[i] <==> i < |ms| && ms[i].toUid == uid && !ms[i].delivered)
  {
    assert forall i :: |ms| <= i < |ns| ==> ns[i] == ns[|ms|..][i - |ms|];
  }

  /** Marking up to the last id a query returned changes exactly the queried entries,
      however many batches and other users' deliveries came in between; what was
      stored since is still there to query. */
  lemma MarkIsPrecise(s: State, es: seq<Event>, uid: int, k: int)
    requires IdsAscend(s.tables)
    requires forall i :: 0 <= i < |es| ==> LeavesAlone(es[i], uid)
    requires var q := QueryOffline(s.tables.messages, uid); q != [] && k == q[|q| - 1].id
    ensures var ms, ns := s.tables.messages, Run(s, es).tables.messages;
            var after := MarkDelivered(ns, uid, k);
            && |ms| <= |ns|
            && Changed(ns, after) == QueryOffline(ms, uid)
            && (forall i :: 0 <= i < |ns| ==>
                  (after[i] != ns[i] <==> i < |ms| && ms[i].toUid == uid && !ms[i].delivered))
            && QueryOffline(after, uid) == QueryOffline(ns[|ms|..], uid)
  {
    RunLeavesAlone(s, es, uid);
    QueryIdsAscend(s.tables.messages, uid, k);
    var ms, ns := s.tables.messages, Run(s, es).tables.messages;
    assert |ms| <= |ns|;
    hide Run, QueryOffline, UpTo, IdsAscend, Changed, Untouched, MarkDelivered, Step;
    LaterIdsAreLarger(Run(s, es).tables, ms, uid, k);
    PreciseOnLogs(ms, ns, uid, k);
    LeftOnLogs(ms, ns, uid, k);
    MarkedEntries(ms, ns, uid, k);
    MarkChanges(ns, uid, k);
  }

  // ---------------------------------------------------------------- login in two calls

  /** Login as the server makes it: a query, whatever other threads do meanwhile, and
      a mark without a bound if the query found anything. */
  function SplitLogin(s: State, es: seq<Event>, uid: int, w: set<File>): State
  {
    if QueryOffline(s.tables.messages, uid) == [] then Run(s, es)
    else DoMark(Run(s, es), uid, INT64_MAX, w)
  }

  /** With nothing in the gap it is the one-step login. */
  lemma SplitLoginWithoutGap(s: State, uid: int, w: set<File>)
    ensures SplitLogin(s, [], uid, w) == DoLogin(s, uid, w).0
  {
  }

  /** No new process starts during these events. */
  predicate NoRestart(es: seq<Event>)
  {
    forall i :: 0 <= i < |es| ==> !es[i].cmd.Restart?
  }

  predicate LogsIn(es: seq<Event>, uid: int)
  {
    exists i :: 0 <= i < |es| && es[i].cmd == Login(uid)
  }

  lemma {:induction false} RunKeepsIds(s: State, es: seq<Event>)
    requires IdsAscend(s.tables) && NoRestart(es)
    ensures IdsAscend(Run(s, es).tables) && s.tables.nextMsgId <= Run(s, es).tables.nextMsgId
    decreases es
  {
    hide Step, IdsAscend;
    if es != [] {
      StepKeepsIds(s, es[0]);
      RunKeepsIds(Step(s, es[0]).0, es[1..]);
    }
  }

  // ---------------------------------------------------------------- what a login leaves behind

  /** Nothing among the first `n` entries is owed to `uid`. */
  ghost predicate Paid(ms: seq<Message>, n: nat, uid: int)
  {
    n <= |ms| && forall i :: 0 <= i < n && ms[i].toUid == uid ==> ms[i].delivered
  }

  lemma StepKeepsPaid(s: State, e: Event, n: nat, uid: int)
    requires Paid(s.tables.messages, n, uid) && !e.cmd.Restart?
    ensures Paid(Step(s, e).0.tables.messages, n, uid)
  {
    hide Save, NameTaken, HasPending, FindRequest, QueryOffline;
  }

  lemma {:induction false} RunKeepsPaid(s: State, es: seq<Event>, n: nat, uid: int)
    requires Paid(s.tables.messages, n, uid) && NoRestart(es)
    ensures Paid(Run(s, es).tables.messages, n, uid)
    decreases es
  {
    hide Step, Paid;
    if es != [] {
      StepKeepsPaid(s, es[0], n, uid);
      RunKeepsPaid(Step(s, es[0]).0, es[1..], n, uid);
    }
  }

  lemma StepGrowsLog(s: State, e: Event)
    requires !e.cmd.Restart?
    ensures |s.tables.messages| <= |Step(s, e).0.tables.messages|
  {
    hide Save, NameTaken, HasPending, FindRequest, QueryOffline;
  }

  lemma LoginPaysLog(s: State, e: Event, uid: int)
    requires IdsAscend(s.tables) && s.tables.nextMsgId <= INT64_MAX + 1 && e.cmd == Login(uid)
    ensures Paid(Step(s, e).0.tables.messages, |s.tables.messages|, uid)
  {
    QueryMembers(s.tables.messages, uid);
    hide QueryOffline, Save;
  }

  /** A login of the same user in the gap pays everything that was there before. */
  lemma {:induction false} GapLoginPays(s: State, es: seq<Event>, uid: int)
    requires IdsAscend(s.tables) && NoRestart(es) && LogsIn(es, uid)
    requires Run(s, es).tables.nextMsgId <= INT64_MAX + 1
    ensures Paid(Run(s, es).tables.messages, |s.tables.messages|, uid)
    decreases es
  {
    hide Step, IdsAscend;
    var t := Step(s, es[0]).0;
    RunKeepsIds(s, es);
    StepKeepsIds(s, es[0]);
    if es[0].cmd == Login(uid) {
      LoginPaysLog(s, es[0], uid);
      hide Paid;
      RunKeepsPaid(t, es[1..], |s.tables.messages|, uid);
    } else {
      var i :| 0 <= i < |es| && es[i].cmd == Login(uid);
      assert es[1..][i - 1].cmd == Login(uid);
      GapLoginPays(t, es[1..], uid);
      StepGrowsLog(s, es[0]);
    }
  }

  lemma {:induction false} PaidQuery(ms: seq<Message>, uid: int)
    requires forall i :: 0 <= i < |ms| && ms[i].toUid == uid ==> ms[i].delivered
    ensures QueryOffline(ms, uid) == []
  {
    if ms != [] {
      PaidQuery(ms[1..], uid);
    }
  }

  lemma PaidPrefixQuery(ms: seq<Message>, n: nat, uid: int)
    requires Paid(ms, n, uid)
    ensures QueryOffline(ms, uid) == QueryOffline(ms[n..], uid)
  {
    PaidQuery(ms[..n], uid);
    QueryAppend(ms[..n], ms[n..], uid);
    hide QueryOffline;
    assert ms == ms[..n] + ms[n..];
  }

  // ---------------------------------------------------------------- what is undelivered after the gap

  lemma UntouchedPrefixQuery(ms: seq<Message>, ns: seq<Message>, uid: int)
    requires Untouched(ms, ns, uid)
    ensures QueryOffline(ns, uid) == QueryOffline(ms, uid) + QueryOffline(ns[|ms|..], uid)
  {
    var n := |ms|;
    assert ns == ns[..n] + ns[n..];
    UntouchedQuery(ms, ns[..n], uid);
    QueryAppend(ns[..n], ns[n..], uid);
  }

  /** After a gap without marks by hand, what is undelivered is what came late, and
      before it what was queried unless somebody logged in as `uid` meanwhile. */
  lemma UndeliveredAfterGap(s: State, es: seq<Event>, uid: int)
    requires IdsAscend(s.tables) && NoRestart(es) && OnlyLoginsMark(es)
    requires Run(s, es).tables.nextMsgId <= INT64_MAX + 1
    ensures var ms, ns := s.tables.messages, Run(s, es).tables.messages;
            && |ms| <= |ns|
            && QueryOffline(ns, uid) ==
               (if LogsIn(es, uid) then [] else QueryOffline(ms, uid)) + QueryOffline(ns[|ms|..], uid)
  {
    hide Run, QueryOffline, IdsAscend;
    var ms, ns := s.tables.messages, Run(s, es).tables.messages;
    if LogsIn(es, uid) {
      GapLoginPays(s, es, uid);
      PaidPrefixQuery(ns, |ms|, uid);
    } else {
      RunLeavesAlone(s, es, uid);
      UntouchedPrefixQuery(ms, ns, uid);
    }
  }

  /** An unbounded mark changes all that is undelivered and leaves nothing. */
  lemma MarkAll(t: Tables, uid: int)
    requires IdsAscend(t) && t.nextMsgId <= INT64_MAX + 1
    ensures Changed(t.messages, MarkDelivered(t.messages, uid, INT64_MAX)) == QueryOffline(t.messages, uid)
    ensures QueryOffline(MarkDelivered(t.messages, uid, INT64_MAX), uid) == []
  {
    hide QueryOffline, UpTo, Changed;
    UpToAll(t.messages, uid, INT64_MAX);
    MarkChanges(t.messages, uid, INT64_MAX);
    CoveringMarkEmpties(t.messages, uid, INT64_MAX);
  }

  /** Whatever other threads do between query and mark, login marks nothing if it sent
      nothing, and otherwise everything that is undelivered by then. */
  lemma LoginMarks(s: State, es: seq<Event>, uid: int, w: set<File>)
    requires IdsAscend(s.tables) && NoRestart(es)
    requires Run(s, es).tables.nextMsgId <= INT64_MAX + 1
    ensures var ns, after := Run(s, es).tables.messages, SplitLogin(s, es, uid, w).tables.messages;
            var sent := QueryOffline(s.tables.messages, uid);
            && |after| == |ns|
            && Changed(ns, after) == (if sent == [] then [] else QueryOffline(ns, uid))
            && QueryOffline(after, uid) == (if sent == [] then QueryOffline(ns, uid) else [])
  {
    RunKeepsIds(s, es);
    hide Run, QueryOffline, Changed, Save, IdsAscend;
    MarkAll(Run(s, es).tables, uid);
    NothingChanged(Run(s, es).tables.messages);
  }

  /** Login marks exactly what it sent if and only if it sent nothing, or nobody logged
      in as `uid` between query and mark and nothing undelivered for `uid` was stored
      there. What it marks unsent is what came late, and no later query returns it. */
  lemma LoginGap(s: State, es: seq<Event>, uid: int, w: set<File>)
    requires IdsAscend(s.tables) && NoRestart(es) && OnlyLoginsMark(es)
    requires Run(s, es).tables.nextMsgId <= INT64_MAX + 1
    ensures var ms, ns := s.tables.messages, Run(s, es).tables.messages;
            var after := SplitLogin(s, es, uid, w).tables.messages;
            && |ms| <= |ns| == |after|
            && var sent, late := QueryOffline(ms, uid), QueryOffline(ns[|ms|..], uid);
               && Changed(ns, after) ==
                  (if sent == [] then [] else if LogsIn(es, uid) then late else sent + late)
               && (Changed(ns, after) == sent <==> sent == [] || (!LogsIn(es, uid) && late == []))
               && (sent != [] ==> QueryOffline(after, uid) == [])
  {
    LoginMarks(s, es, uid, w);
    UndeliveredAfterGap(s, es, uid);
    RunKeepsIds(s, es);
    var ms, t := s.tables.messages, Run(s, es).tables;
    hide Run, QueryOffline, Changed, SplitLogin, LogsIn;
    var sent, late := QueryOffline(ms, uid), QueryOffline(t.messages[|ms|..], uid);
    assert [] + late == late;
    if sent != [] && LogsIn(es, uid) {
      RunKeepsPlaces(s, es);
      LateIsNotSent(ms, t, uid);
    }
  }

  /** Entries keep their ids. */
  lemma {:induction false} RunKeepsPlaces(s: State, es: seq<Event>)
    requires NoRestart(es)
    ensures var ms, ns := s.tables.messages, Run(s, es).tables.messages;
            |ms| <= |ns| && forall i :: 0 <= i < |ms| ==> ns[i].id == ms[i].id
    decreases es
  {
    if es != [] {
      StepKeepsPlaces(s, es[0]);
      hide Step;
      RunKeepsPlaces(Step(s, es[0]).0, es[1..]);
    }
  }

  lemma StepKeepsPlaces(s: State, e: Event)
    requires !e.cmd.Restart?
    ensures var ms, ns := s.tables.messages, Step(s, e).0.tables.messages;
            |ms| <= |ns| && forall i :: 0 <= i < |ms| ==> ns[i].id == ms[i].id
  {
    hide Save, NameTaken, HasPending, FindRequest, QueryOffline;
  }

  lemma LateIsNotSent(ms: seq<Message>, t: Tables, uid: int)
    requires IdsAscend(t) && |ms| <= |t.messages|
    requires forall i :: 0 <= i < |ms| ==> t.messages[i].id == ms[i].id
    requires QueryOffline(ms, uid) != []
    ensures QueryOffline(t.messages[|ms|..], uid) != QueryOffline(ms, uid)
  {
    var sent, late := QueryOffline(ms, uid), QueryOffline(t.messages[|ms|..], uid);
    QueryMembers(ms, uid);
    QueryMembers(t.messages[|ms|..], uid);
    hide QueryOffline;
    assert sent[0] in sent;
    var i :| 0 <= i < |ms| && ms[i] == sent[0];
    forall m | m in late
      ensures m.id > sent[0].id
    {
      var j :| 0 <= j < |t.messages| - |ms| && t.messages[|ms|..][j] == m;
      assert t.messages[i].id < t.messages[|ms| + j].id;
    }
    assert sent[0] !in late;
  }

  // ---------------------------------------------------------------- mail that goes out twice

  /** A query for `uid`, alone as the first half of a login or within one. */
  predicate Queries(e: Event, uid: int)
  {
    e.cmd == Login(uid) || e.cmd == CmdQuery(uid)
  }

  /** What the queries for `uid` hand on during a run. */
  function HandedOnBy(s: State, es: seq<Event>, uid: int): seq<Envelope>
    decreases es
  {
    if es == [] then []
    else
      (if Queries(es[0], uid) then InLog(s.tables.messages, uid) else [])
      + HandedOnBy(Step(s, es[0]).0, es[1..], uid)
  }

  lemma StepKeepsOwedPrefix(s: State, e: Event, uid: int, mail: seq<Envelope>)
    requires !e.cmd.Restart? && !e.cmd.CmdMark? && !Queries(e, uid) && mail <= InLog(s.tables.messages, uid)
    ensures mail <= InLog(Step(s, e).0.tables.messages, uid)
  {
    hide Step, QueryOffline;
    var ms, ns := s.tables.messages, Step(s, e).0.tables.messages;
    StepLeavesAlone(s, e, uid);
    UntouchedPrefixQuery(ms, ns, uid);
    EnvelopesAppend(QueryOffline(ms, uid), QueryOffline(ns[|ms|..], uid));
  }

  /** Mail that is in the log goes out during a run exactly if there is a query. */
  lemma {:induction false} QueriedMailGoesOut(s: State, es: seq<Event>, uid: int, mail: seq<Envelope>)
    requires NoRestart(es) && OnlyLoginsMark(es) && mail != [] && mail <= InLog(s.tables.messages, uid)
    ensures mail <= HandedOnBy(s, es, uid) <==> exists i :: 0 <= i < |es| && Queries(es[i], uid)
    ensures (forall i :: 0 <= i < |es| ==> !Queries(es[i], uid)) ==> HandedOnBy(s, es, uid) == []
    decreases es
  {
    hide Step, InLog, Queries;
    if es != [] {
      var t := Step(s, es[0]).0;
      if Queries(es[0], uid) {
        assert mail <= HandedOnBy(s, es, uid);
      } else {
        StepKeepsOwedPrefix(s, es[0], uid, mail);
        QueriedMailGoesOut(t, es[1..], uid, mail);
        assert HandedOnBy(s, es, uid) == HandedOnBy(t, es[1..], uid);
        assert (exists i :: 0 <= i < |es| && Queries(es[i], uid)) <==>
               exists i :: 0 <= i < |es[1..]| && Queries(es[1..][i], uid) by {
          assert forall i :: 0 <= i < |es[1..]| ==> es[1..][i] == es[i + 1];
          if i :| 0 <= i < |es| && Queries(es[i], uid) {
            assert Queries(es[1..][i - 1], uid);
          }
        }
      }
    }
  }

  /** What a login sends is sent again before its mark exactly if somebody else queries
      for the same user in between. */
  lemma SentTwice(s: State, es: seq<Event>, uid: int)
    requires NoRestart(es) && OnlyLoginsMark(es)
    requires QueryOffline(s.tables.messages, uid) != []
    ensures Envelopes(QueryOffline(s.tables.messages, uid)) <= HandedOnBy(s, es, uid) <==>
            exists i :: 0 <= i < |es| && Queries(es[i], uid)
  {
    hide HandedOnBy, Queries, QueryOffline;
    QueriedMailGoesOut(s, es, uid, InLog(s.tables.messages, uid));
  }

  // ---------------------------------------------------------------- the balance

  /** The balance of a login with a gap: what is owed and submitted is what logins in the
      gap delivered, or else what this one sent; then what was lost, which is what
      came late if it sent anything; then what is owed afterwards. */
  lemma LoginGapLoses(s: State, es: seq<Event>, uid: int, w: set<File>)
    requires IdsAscend(s.tables) && NoRestart(es) && OnlyLoginsMark(es)
    requires Run(s, es).tables.nextMsgId <= INT32_MAX + 1
    ensures var ms, ns := s.tables.messages, Run(s, es).tables.messages;
            && |ms| <= |ns|
            && var sent, late := QueryOffline(ms, uid), QueryOffline(ns[|ms|..], uid);
               Owed(s, uid) + SubmittedBy(es, uid) ==
               (if LogsIn(es, uid) then DeliveredBy(s, es, uid) else Envelopes(sent))
               + (if sent == [] then [] else Envelopes(late))
               + Owed(SplitLogin(s, es, uid, w), uid)
  {
    hide Run, SubmittedBy, DeliveredBy, SplitLogin, Owed, IdsAscend, RestartsAreQuiet, RestartsFindMirror, LogsIn;
    WithoutAnyRestart(s, es);
    OfflineMessagesExactlyOnceInOrder(s, es, uid);
    if !LogsIn(es, uid) {
      NobodyLogsIn(es, uid);
      NothingDelivered(s, es, uid);
    }
    SplitLoginOwes(s, es, uid, w);
  }

  lemma NobodyLogsIn(es: seq<Event>, uid: int)
    requires !LogsIn(es, uid) && NoRestart(es) && OnlyLoginsMark(es)
    ensures forall i :: 0 <= i < |es| ==> LeavesAlone(es[i], uid)
  {
  }

  /** What the unbounded mark pays: all of the log. */
  lemma MarkPaysAll(z: State, uid: int, w: set<File>)
    requires QueryOffline(MarkDelivered(z.tables.messages, uid, INT64_MAX), uid) == []
    ensures Owed(z, uid) == InLog(z.tables.messages, uid) + Owed(DoMark(z, uid, INT64_MAX, w), uid)
  {
    hide QueryOffline, Save, Waiting;
    assert InLog(DoMark(z, uid, INT64_MAX, w).tables.messages, uid) == [];
  }

  lemma SplitLoginOwes(s: State, es: seq<Event>, uid: int, w: set<File>)
    requires IdsAscend(s.tables) && NoRestart(es) && OnlyLoginsMark(es)
    requires Run(s, es).tables.nextMsgId <= INT64_MAX + 1
    ensures var ms, ns := s.tables.messages, Run(s, es).tables.messages;
            && |ms| <= |ns|
            && var sent, late := QueryOffline(ms, uid), QueryOffline(ns[|ms|..], uid);
               Owed(Run(s, es), uid) ==
               (if LogsIn(es, uid) then [] else Envelopes(sent))
               + (if sent == [] then [] else Envelopes(late)) + Owed(SplitLogin(s, es, uid, w), uid)
  {
    hide Run, QueryOffline, DoMark, Waiting, Envelopes, IdsAscend, LogsIn, NoRestart, OnlyLoginsMark, Owed;
    RunKeepsIds(s, es);
    UndeliveredAfterGap(s, es, uid);
    var z := Run(s, es);
    var ms, ns := s.tables.messages, z.tables.messages;
    var sent, late := QueryOffline(ms, uid), QueryOffline(ns[|ms|..], uid);
    if sent == [] {
      assert Envelopes(sent) == [];
    } else {
      EnvelopesAppend(if LogsIn(es, uid) then [] else sent, late);
      assert Envelopes([]) == [];
      MarkAll(z.tables, uid);
      MarkPaysAll(z, uid, w);
    }
  }

  lemma {:induction false} NothingDelivered(s: State, es: seq<Event>, uid: int)
    requires forall i :: 0 <= i < |es| ==> LeavesAlone(es[i], uid)
    ensures DeliveredBy(s, es, uid) == []
    decreases es
  {
    hide Step, InLog;
    if es != [] {
      NothingDelivered(Step(s, es[0]).0, es[1..], uid);
    }
  }

  /** One message is stored; a second one is stored between query and mark. */
  const FIRST := Message(1, 3, 7, "first", false)
  const SECOND := Message(2, 3, 7, "second", false)
  const BEFORE_GAP := State(EMPTY_TABLES.(messages := [FIRST], nextMsgId := 2), map[], [], [])
  const GAP := [Event(Chat(3, 7, "second", false), {}), Event(TakeBatch, {}), Event(WriteBatch, {})]

  lemma GapStoresSecond()
    ensures var z := Run(BEFORE_GAP, GAP);
            z.tables.messages == [FIRST, SECOND] && z.batch == [] && z.queue == []
    ensures SubmittedBy(GAP, 7) == [Envelope(3, 7, "second")]
  {
    hide Save;
    var s1 := Step(BEFORE_GAP, GAP[0]).0;
    assert s1.queue == [Submission(3, 7, "second", false)];
    var s2 := Step(s1, GAP[1]).0;
    assert s2.batch == s1.queue && s2.queue == [];
    var s3 := Step(s2, GAP[2]).0;
    assert s3.tables.messages == [FIRST, SECOND];
    assert GAP[1..] == [GAP[1], GAP[2]] && GAP[2..] == [GAP[2]];
    hide Step;
    assert Run(s2, [GAP[2]]) == Run(s3, []);
    assert Run(s1, [GAP[1], GAP[2]]) == Run(s2, [GAP[2]]);
    assert [GAP[1], GAP[2]][1..] == [GAP[2]];
    assert SubmittedBy([GAP[2]], 7) == [];
    assert SubmittedBy([GAP[1], GAP[2]], 7) == Submitted(GAP[1], 7) + SubmittedBy([GAP[2]], 7);
  }

  /** A losing login: the first message is sent, both are marked, nothing is owed any
      more. */
  lemma LoginLosesLateMessage()
    ensures var after := SplitLogin(BEFORE_GAP, GAP, 7, {});
            && QueryOffline(BEFORE_GAP.tables.messages, 7) == [FIRST]
            && SubmittedBy(GAP, 7) == [Envelope(3, 7, "second")]
            && after.tables.messages == [FIRST.(delivered := true), SECOND.(delivered := true)]
            && Owed(after, 7) == []
  {
    GapStoresSecond();
    hide Run, Save, SubmittedBy;
    assert QueryOffline(BEFORE_GAP.tables.messages, 7) == [FIRST];
    var after := SplitLogin(BEFORE_GAP, GAP, 7, {});
    assert after.tables.messages == [FIRST.(delivered := true), SECOND.(delivered := true)];
    assert QueryOffline(after.tables.messages, 7) == [] by {
      var rest := [SECOND.(delivered := true)];
      assert after.tables.messages[1..] == rest && rest[1..] == [];
      assert QueryOffline(rest, 7) == [];
    }
  }

  /** Two logins of one user overlap: the message goes out twice, and the mark of the
      first login finds nothing left to mark. */
  lemma OverlappingLoginsSendTwice()
    ensures var gap := [Event(Login(7), {})];
            var ns, after := Run(BEFORE_GAP, gap).tables.messages, SplitLogin(BEFORE_GAP, gap, 7, {}).tables.messages;
            && QueryOffline(BEFORE_GAP.tables.messages, 7) == [FIRST]
            && HandedOnBy(BEFORE_GAP, gap, 7) == [Envelope(3, 7, "first")]
            && |ns| == |after| && Changed(ns, after) == []
  {
    hide Save;
    var e := Event(Login(7), {});
    var t := Step(BEFORE_GAP, e).0;
    assert QueryOffline(BEFORE_GAP.tables.messages, 7) == [FIRST];
    assert t.tables.messages == [FIRST.(delivered := true)];
    assert [e][1..] == [];
    assert Run(BEFORE_GAP, [e]) == Run(t, []);
    assert HandedOnBy(BEFORE_GAP, [e], 7) == InLog([FIRST], 7) + HandedOnBy(t, [], 7);
    assert SplitLogin(BEFORE_GAP, [e], 7, {}).tables.messages == t.tables.messages;
    NothingChanged(t.tables.messages);
  }
}
