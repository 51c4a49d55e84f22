/** Which connection a logged-in user has: a table split over 1024 buckets, each
    under its own lock, against one flat map. */
module Sessions {
  import opened Common

  const BUCKETS: nat := 1024
  const UINT32_RANGE: int := 0x1_0000_0000

  /** What the table needs of a client context. */
  datatype Client = Client(fd: int, uid: int, loggedIn: bool)

  /** The bucket of a user: the uid as an unsigned word, modulo the bucket count. */
  function BucketOf(uid: int): (b: nat)
    ensures b < BUCKETS
  {
    (uid % UINT32_RANGE) % BUCKETS
  }

  /** Contexts are named by number. */
  type Buckets = seq<map<int, nat>>

  /** Every bucket holds its own users and no others, each as the flat table has it. */
  ghost predicate Agrees(bs: Buckets, table: map<int, nat>)
  {
    && |bs| == BUCKETS
    && (forall uid :: uid in table ==> uid in bs[BucketOf(uid)] && bs[BucketOf(uid)][uid] == table[uid])
    && (forall b, uid :: 0 <= b < BUCKETS && uid in bs[b] ==> BucketOf(uid) == b && uid in table)
  }

  // ---------------------------------------------------------------- the critical sections

  /** What is done under a bucket's lock. `bind` is a `Find` and then a `Put`, with the
      lock released in between when it found an old session; `get` is a `Find`,
      `unbind` an `Erase`. */
  datatype Section = Find(uid: int) | Put(uid: int, ctx: nat) | Erase(uid: int)

  function Sharded(bs: Buckets, op: Section): (Buckets, Option<nat>)
    requires |bs| == BUCKETS
  {
    var b := BucketOf(op.uid);
    match op
    case Find(uid) => (bs, if uid in bs[b] then Some(bs[b][uid]) else None)
    case Put(uid, ctx) => var m: map<int, nat> := bs[b][uid := ctx]; (bs[b := m], None)
    case Erase(uid) => (bs[b := bs[b] - {uid}], None)
  }

  function Flat(table: map<int, nat>, op: Section): (map<int, nat>, Option<nat>)
  {
    match op
    case Find(uid) => (table, if uid in table then Some(table[uid]) else None)
    case Put(uid, ctx) => (table[uid := ctx], None)
    case Erase(uid) => (table - {uid}, None)
  }

  function ShardedAnswers(bs: Buckets, ops: seq<Section>): seq<Option<nat>>
    requires |bs| == BUCKETS
    decreases ops
  {
    if ops == [] then []
    else
      var (cs, a) := Sharded(bs, ops[0]);
      [a] + ShardedAnswers(cs, ops[1..])
  }

  function FlatAnswers(table: map<int, nat>, ops: seq<Section>): seq<Option<nat>>
    decreases ops
  {
    if ops == [] then []
    else
      var (t, a) := Flat(table, ops[0]);
      [a] + FlatAnswers(t, ops[1..])
  }

  lemma SectionAgrees(bs: Buckets, table: map<int, nat>, op: Section)
    requires Agrees(bs, table)
    ensures Sharded(bs, op).1 == Flat(table, op).1
    ensures Agrees(Sharded(bs, op).0, Flat(table, op).0)
  {
    hide BucketOf;
  }

  lemma EmptyTableAgrees()
    ensures Agrees(seq(BUCKETS, _ => map[]), map[])
  {
  }

  /** However the critical sections of all threads interleave, the split table answers
      as the flat one. */
  lemma {:induction false} ShardedIsFlat(bs: Buckets, table: map<int, nat>, ops: seq<Section>)
    requires Agrees(bs, table)
    ensures ShardedAnswers(bs, ops) == FlatAnswers(table, ops)
    decreases ops
  {
    AgreeingSize(bs, table);
    hide Agrees, Sharded, Flat;
    if ops != [] {
      SectionAgrees(bs, table, ops[0]);
      AgreeingSize(Sharded(bs, ops[0]).0, Flat(table, ops[0]).0);
      ShardedIsFlat(Sharded(bs, ops[0]).0, Flat(table, ops[0]).0, ops[1..]);
    }
  }

  lemma AgreeingSize(bs: Buckets, table: map<int, nat>)
    requires Agrees(bs, table)
    ensures |bs| == BUCKETS
  {
  }

  // ---------------------------------------------------------------- the program text

  class SessionManager {
    var buckets: Buckets
    var clients: seq<Client>
    var closesQueued: seq<int>
    ghost var table: map<int, nat>

    ghost predicate Valid()
      reads this
    {
      && Agrees(buckets, table)
      && forall uid :: uid in table ==> table[uid] < |clients|
    }

    constructor (clients: seq<Client>)
      ensures Valid() && table == map[] && this.clients == clients && closesQueued == []
    {
      buckets := seq(BUCKETS, _ => map[]);
      this.clients, closesQueued, table := clients, [], map[];
      new;
      EmptyTableAgrees();
    }

    /** The user's sessions are now this one; if it had another that is still open,
        that one's close is queued first. */
    method Bind(uid: int, ctx: nat)
      requires Valid() && ctx < |clients|
      modifies this
      ensures Valid() && table == old(table)[uid := ctx]
      ensures clients == old(clients)[ctx := old(clients)[ctx].(uid := uid, loggedIn := true)]
      ensures closesQueued ==
              old(closesQueued) + (if uid in old(table) && old(clients)[old(table)[uid]].fd != -1
                                   then [old(clients)[old(table)[uid]].fd] else [])
    {
      hide BucketOf;
      var b := BucketOf(uid);
      if uid in buckets[b] {
        var was := buckets[b][uid];
        if clients[was].fd != -1 {
          closesQueued := closesQueued + [clients[was].fd];
        }
      }
      SectionAgrees(buckets, table, Put(uid, ctx));
      clients := clients[ctx := clients[ctx].(uid := uid, loggedIn := true)];
      var m: map<int, nat> := buckets[b][uid := ctx];
      buckets := buckets[b := m];
      table := table[uid := ctx];
    }

    method Unbind(uid: int)
      requires Valid()
      modifies this`buckets, this`table
      ensures Valid() && table == old(table) - {uid}
    {
      SectionAgrees(buckets, table, Erase(uid));
      var b := BucketOf(uid);
      buckets := buckets[b := buckets[b] - {uid}];
      table := table - {uid};
    }

    method Get(uid: int) returns (r: Option<nat>)
      requires Valid()
      ensures r == if uid in table then Some(table[uid]) else None
    {
      SectionAgrees(buckets, table, Find(uid));
      var b := BucketOf(uid);
      r := if uid in buckets[b] then Some(buckets[b][uid]) else None;
    }
  }
}
