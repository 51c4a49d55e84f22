/** The batch writer: what each round stores, and that it stores everything. */
module StoreBatches {
  import opened Common
  import opened Store
  import opened StorePersistence
  import opened StoreDelivery

  // ---------------------------------------------------------------- rounds

  function Least(m: nat, n: nat): nat
  {
    if m <= n then m else n
  }

  /** With no batch in hand the writer takes the oldest hundred submissions, or all. */
  lemma TakeDecides(s: State)
    ensures var t, n := DoTakeBatch(s), Least(100, |s.queue|);
            if s.batch != [] then t == s
            else t == s.(batch := s.queue[..n], queue := s.queue[n..])
  {
  }

  /** Storing appends the batch to the log with consecutive ids and forgets it. */
  lemma WriteDecides(s: State, w: set<File>)
    ensures var t := DoWriteBatch(s, w);
            && t.batch == [] && t.queue == s.queue
            && t.tables == s.tables.(messages := s.tables.messages + Stored(s.batch, s.tables.nextMsgId),
                                     nextMsgId := s.tables.nextMsgId + |s.batch|)
  {
    hide Save;
    assert s.tables.messages + [] == s.tables.messages;
  }

  function Rounds(n: nat, w: set<File>): seq<Event>
  {
    if n == 0 then [] else [Event(TakeBatch, w), Event(WriteBatch, w)] + Rounds(n - 1, w)
  }

  lemma StoredInTwo(qs: seq<Submission>, n: nat, first: int)
    requires n <= |qs|
    ensures Stored(qs[..n], first) + Stored(qs[n..], first + n) == Stored(qs, first)
  {
  }

  lemma Pieces(ms: seq<Message>, qs: seq<Submission>, m: nat, l: nat, first: int)
    requires m + l <= |qs|
    ensures ms + Stored(qs[..m], first) + Stored(qs[m..][..l], first + m) == ms + Stored(qs[..m + l], first)
    ensures qs[m..][l..] == qs[m + l..]
  {
    assert qs[..m + l][..m] == qs[..m] && qs[..m + l][m..] == qs[m..][..l];
    hide Stored;
    StoredInTwo(qs[..m + l], m, first);
  }

  /** One round. */
  lemma OneRound(s: State, w: set<File>)
    requires s.batch == []
    ensures var t, n := DoWriteBatch(DoTakeBatch(s), w), Least(100, |s.queue|);
            && t.batch == [] && t.queue == s.queue[n..]
            && t.tables == s.tables.(messages := s.tables.messages + Stored(s.queue[..n], s.tables.nextMsgId),
                                     nextMsgId := s.tables.nextMsgId + n)
  {
    hide DoTakeBatch, DoWriteBatch;
    TakeDecides(s);
    WriteDecides(DoTakeBatch(s), w);
  }

  /** After `n` rounds the oldest hundred times `n` submissions are in the log, in order
      and with consecutive ids, and the rest waits. */
  lemma {:induction false} RoundsStoreOldest(s: State, n: nat, w: set<File>)
    requires s.batch == []
    ensures var t, k := Run(s, Rounds(n, w)), Least(100 * n, |s.queue|);
            && t.batch == [] && t.queue == s.queue[k..]
            && t.tables.messages == s.tables.messages + Stored(s.queue[..k], s.tables.nextMsgId)
            && t.tables.nextMsgId == s.tables.nextMsgId + k
    decreases n
  {
    hide Step, DoTakeBatch, DoWriteBatch, Rounds, Run, Stored;
    if n == 0 {
      NoRounds(s, w);
    } else {
      var u := DoWriteBatch(DoTakeBatch(s), w);
      OneRound(s, w);
      TwoSteps(s, n, w);
      RoundsStoreOldest(u, n - 1, w);
      var m, l := Least(100, |s.queue|), Least(100 * (n - 1), |u.queue|);
      assert m + l == Least(100 * n, |s.queue|);
      hide Least;
      Pieces(s.tables.messages, s.queue, m, l, s.tables.nextMsgId);
    }
  }

  lemma NoRounds(s: State, w: set<File>)
    ensures Run(s, Rounds(0, w)) == s && s.queue[0..] == s.queue
    ensures s.tables.messages + Stored(s.queue[..0], s.tables.nextMsgId) == s.tables.messages
  {
  }

  lemma TwoSteps(s: State, n: nat, w: set<File>)
    requires 0 < n
    ensures Run(s, Rounds(n, w)) == Run(DoWriteBatch(DoTakeBatch(s), w), Rounds(n - 1, w))
  {
    var es := Rounds(n, w);
    assert es[0] == Event(TakeBatch, w) && es[1..][0] == Event(WriteBatch, w);
    assert es[1..][1..] == Rounds(n - 1, w);
    hide DoTakeBatch, DoWriteBatch;
  }

  /** Enough rounds store everything. */
  lemma EnoughRoundsStoreAll(s: State, n: nat, w: set<File>)
    requires s.batch == [] && |s.queue| <= 100 * n
    ensures var t := Run(s, Rounds(n, w));
            && t.batch == [] && t.queue == []
            && t.tables.messages == s.tables.messages + Stored(s.queue, s.tables.nextMsgId)
  {
    hide Rounds, Run, Stored;
    RoundsStoreOldest(s, n, w);
    assert s.queue[..|s.queue|] == s.queue;
  }

  // ---------------------------------------------------------------- no message is lost or altered

  function Letters(qs: seq<Submission>): (r: seq<Envelope>)
    ensures |r| == |qs|
  {
    seq(|qs|, i requires 0 <= i < |qs| => Envelope(qs[i].fromUid, qs[i].toUid, qs[i].content))
  }

  /** Every message so far, oldest first, delivered or not. */
  function Mail(s: State): seq<Envelope>
  {
    Envelopes(s.tables.messages) + Letters(s.batch) + Letters(s.queue)
  }

  function Sent(e: Event): seq<Envelope>
  {
    if e.cmd.Chat? then [Envelope(e.cmd.fromUid, e.cmd.toUid, e.cmd.content)] else []
  }

  function SentBy(es: seq<Event>): seq<Envelope>
  {
    if es == [] then [] else Sent(es[0]) + SentBy(es[1..])
  }

  lemma MarkKeepsEnvelopes(ms: seq<Message>, uid: int, k: int)
    ensures Envelopes(MarkDelivered(ms, uid, k)) == Envelopes(ms)
  {
  }

  lemma StoredLetters(qs: seq<Submission>, first: int)
    ensures Envelopes(Stored(qs, first)) == Letters(qs)
  {
  }

  lemma LettersInTwo(qs: seq<Submission>, n: nat)
    requires n <= |qs|
    ensures Letters(qs) == Letters(qs[..n]) + Letters(qs[n..])
  {
  }

  lemma BatchKeepsMail(s: State, w: set<File>)
    ensures Mail(DoTakeBatch(s)) == Mail(s) && Mail(DoWriteBatch(s, w)) == Mail(s)
  {
    hide DoTakeBatch, DoWriteBatch, Envelopes, Letters, Stored;
    TakeDecides(s);
    WriteDecides(s, w);
    NoLetters();
    if s.batch == [] {
      LettersInTwo(s.queue, Least(100, |s.queue|));
    }
    EnvelopesAppend(s.tables.messages, Stored(s.batch, s.tables.nextMsgId));
    StoredLetters(s.batch, s.tables.nextMsgId);
  }

  lemma NoLetters()
    ensures Letters([]) == []
  {
  }

  lemma ChatAddsMail(s: State, e: Event)
    requires e.cmd.Chat?
    ensures Mail(Step(s, e).0) == Mail(s) + Sent(e)
  {
    var q := Submission(e.cmd.fromUid, e.cmd.toUid, e.cmd.content, e.cmd.online);
    LettersInTwo(s.queue + [q], |s.queue|);
    assert (s.queue + [q])[..|s.queue|] == s.queue && (s.queue + [q])[|s.queue|..] == [q];
    assert Letters([q]) == Sent(e);
    hide Letters, Envelopes;
  }

  lemma MarkKeepsMail(s: State, uid: int, k: int, w: set<File>)
    ensures Mail(DoMark(s, uid, k, w)) == Mail(s)
  {
    hide Save, Envelopes, Letters;
    MarkKeepsEnvelopes(s.tables.messages, uid, k);
  }

  lemma StepKeepsMail(s: State, e: Event)
    requires e.cmd.Restart? ==> Mirrors(s) && s.queue == [] && s.batch == []
    ensures Mail(Step(s, e).0) == Mail(s) + Sent(e)
  {
    hide Mail, DoTakeBatch, DoWriteBatch, DoMark, Mirrors, QueryOffline, Save;
    assert Mail(s) + [] == Mail(s);
    match e.cmd
    case Chat(_, _, _, _) => ChatAddsMail(s, e);
    case TakeBatch => BatchKeepsMail(s, e.writable);
    case WriteBatch => BatchKeepsMail(s, e.writable);
    case CmdMark(uid, k) => MarkKeepsMail(s, uid, k, e.writable);
    case Login(uid) => MarkKeepsMail(s, uid, INT64_MAX, e.writable);
    case Restart => RestartIsInvisible(s, e);
    case _ =>
      OthersKeepMessages(s, e);
      SameMail(s, Step(s, e).0);
  }

  lemma SameMail(s: State, t: State)
    requires t.tables.messages == s.tables.messages && t.batch == s.batch && t.queue == s.queue
    ensures Mail(t) == Mail(s)
  {
  }

  /** The log, the batch and the queue together are all messages ever sent, online or
      not, in order and unaltered, over any run with quiet restarts. */
  lemma {:induction false} NoMessageIsLost(s: State, es: seq<Event>)
    requires RestartsAreQuiet(s, es) && RestartsFindMirror(s, es)
    ensures Mail(Run(s, es)) == Mail(s) + SentBy(es)
    decreases es
  {
    hide Step, Mail, Sent, Mirrors;
    if es == [] {
      assert Mail(s) + [] == Mail(s);
    } else {
      StepKeepsMail(s, es[0]);
      NoMessageIsLost(Step(s, es[0]).0, es[1..]);
      assert Mail(s) + Sent(es[0]) + SentBy(es[1..]) == Mail(s) + (Sent(es[0]) + SentBy(es[1..]));
    }
  }
}
