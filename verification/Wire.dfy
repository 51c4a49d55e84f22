/** The wire format of the chat protocol: a packed 16-byte header of four
    little-endian 32-bit words (magic, body length, command, sequence number)
    followed by the body.

    `ParseServer` and `ParseClient` describe what one run of the server's and of
    the client's frame loop does to a buffer. The lemmas tie both to the encoder,
    and show that neither depends on how the byte stream was cut into reads. */
module Wire {

  type byte = x: int | 0 <= x < 256
  type u32 = x: int | 0 <= x < 0x1_0000_0000

  const U32_RANGE: int := 0x1_0000_0000
  const PROTO_MAGIC: u32 := 0xDEADBEEF
  const HEADER_SIZE: nat := 16
  const MAX_BODY_LEN: nat := 65535

  datatype Packet = Packet(cmd: u32, seqNo: u32, body: seq<byte>)

  // ---------------------------------------------------------------- encoding

  function Le32(x: u32): (r: seq<byte>)
    ensures |r| == 4
  {
    [x % 256, x / 256 % 256, x / 256 / 256 % 256, x / 256 / 256 / 256]
  }

  function FromLe32(b: seq<byte>): u32
    requires |b| == 4
  {
    var b0: int, b1: int, b2: int, b3: int := b[0], b[1], b[2], b[3];
    b0 + 256 * (b1 + 256 * (b2 + 256 * b3))
  }

  lemma Le32RoundTrip(x: u32)
    ensures FromLe32(Le32(x)) == x
  {
  }

  lemma FromLe32RoundTrip(b: seq<byte>)
    requires |b| == 4
    ensures Le32(FromLe32(b)) == b
  {
    var b0: int, b1: int, b2: int, b3: int := b[0], b[1], b[2], b[3];
    var x := FromLe32(b);
    assert x / 256 == b1 + 256 * (b2 + 256 * b3);
    assert x / 256 / 256 == b2 + 256 * b3;
  }

  /** The bytes of a small packet, one by one. */
  lemma BytesOfPacket()
    ensures Encode(Packet(2, 258, [7])) ==
            [0xEF, 0xBE, 0xAD, 0xDE, 1, 0, 0, 0, 2, 0, 0, 0, 2, 1, 0, 0, 7]
  {
    assert Le32(PROTO_MAGIC) == [0xEF, 0xBE, 0xAD, 0xDE];
    assert Le32(1) == [1, 0, 0, 0] && Le32(2) == [2, 0, 0, 0] && Le32(258) == [2, 1, 0, 0];
    var body: seq<byte> := [7];
    assert |body| % U32_RANGE == 1;
  }

  /** The bytes the server appends to a send buffer for one packet. The length
      word is the body size cast to 32 bits. */
  function Encode(p: Packet): (r: seq<byte>)
    ensures |r| == HEADER_SIZE + |p.body|
  {
    Le32(PROTO_MAGIC) + Le32(|p.body| % U32_RANGE) + Le32(p.cmd) + Le32(p.seqNo) + p.body
  }

  function EncodeAll(ps: seq<Packet>): seq<byte>
  {
    if ps == [] then [] else Encode(ps[0]) + EncodeAll(ps[1..])
  }

  lemma {:induction false} EncodeAllAppend(ps: seq<Packet>, qs: seq<Packet>)
    ensures EncodeAll(ps + qs) == EncodeAll(ps) + EncodeAll(qs)
  {
    if ps == [] {
      assert ps + qs == qs;
    } else {
      assert (ps + qs)[1..] == ps[1..] + qs;
      EncodeAllAppend(ps[1..], qs);
    }
  }

  lemma EncodeAllSnoc(ps: seq<Packet>, p: Packet)
    ensures EncodeAll(ps + [p]) == EncodeAll(ps) + Encode(p)
  {
    EncodeAllAppend(ps, [p]);
    assert EncodeAll([p]) == Encode(p);
  }

  // ---------------------------------------------------------------- header fields

  function Word(buf: seq<byte>, i: nat): u32
    requires 4 * i + 4 <= |buf|
  {
    FromLe32(buf[4 * i..4 * i + 4])
  }

  function Magic(buf: seq<byte>): u32
    requires HEADER_SIZE <= |buf|
  {
    Word(buf, 0)
  }

  function BodyLen(buf: seq<byte>): u32
    requires HEADER_SIZE <= |buf|
  {
    Word(buf, 1)
  }

  /** The frame whose header starts `buf` and whose body is `len` bytes long. */
  function FrameAt(buf: seq<byte>, len: nat): Packet
    requires HEADER_SIZE + len <= |buf|
  {
    Packet(Word(buf, 2), Word(buf, 3), buf[HEADER_SIZE..HEADER_SIZE + len])
  }

  /** What the header of an encoded packet says, whatever follows it. */
  lemma HeaderOfEncoded(p: Packet, tail: seq<byte>)
    requires |p.body| < U32_RANGE
    ensures var b := Encode(p) + tail;
            && Magic(b) == PROTO_MAGIC
            && BodyLen(b) == |p.body|
            && FrameAt(b, |p.body|) == p
            && b[HEADER_SIZE + |p.body|..] == tail
  {
    hide Le32, FromLe32, Magic, BodyLen, FrameAt;
    Le32RoundTrip(PROTO_MAGIC);
    Le32RoundTrip(|p.body|);
    Le32RoundTrip(p.cmd);
    Le32RoundTrip(p.seqNo);
    Words(Encode(p) + tail, |p.body|);
    assert |p.body| % U32_RANGE == |p.body|;
    Pieces(Le32(PROTO_MAGIC), Le32(|p.body|), Le32(p.cmd), Le32(p.seqNo), p.body, tail);
  }

  lemma Words(b: seq<byte>, n: nat)
    requires HEADER_SIZE + n <= |b|
    ensures Magic(b) == FromLe32(b[0..4]) && BodyLen(b) == FromLe32(b[4..8])
    ensures FrameAt(b, n) == Packet(FromLe32(b[8..12]), FromLe32(b[12..16]), b[16..16 + n])
  {
    hide FromLe32;
  }

  /** Where the words, the body and the rest of a buffer are. */
  lemma Pieces(w0: seq<byte>, w1: seq<byte>, w2: seq<byte>, w3: seq<byte>, body: seq<byte>, tail: seq<byte>)
    requires |w0| == |w1| == |w2| == |w3| == 4
    ensures var b := w0 + w1 + w2 + w3 + body + tail;
            && b[0..4] == w0 && b[4..8] == w1 && b[8..12] == w2 && b[12..16] == w3
            && b[16..16 + |body|] == body && b[16 + |body|..] == tail
  {
  }

  /** Conversely, a buffer that starts with a whole frame starts with the encoding
      of that frame. */
  lemma EncodedOfHeader(buf: seq<byte>)
    requires HEADER_SIZE <= |buf|
    requires Magic(buf) == PROTO_MAGIC
    requires HEADER_SIZE + BodyLen(buf) <= |buf|
    ensures Encode(FrameAt(buf, BodyLen(buf))) == buf[..HEADER_SIZE + BodyLen(buf)]
  {
    hide Le32, FromLe32;
    FromLe32RoundTrip(buf[0..4]);
    FromLe32RoundTrip(buf[4..8]);
    FromLe32RoundTrip(buf[8..12]);
    FromLe32RoundTrip(buf[12..16]);
    assert |buf[16..16 + BodyLen(buf)]| % U32_RANGE == BodyLen(buf);
    assert buf[..HEADER_SIZE + BodyLen(buf)]
        == buf[0..4] + buf[4..8] + buf[8..12] + buf[12..16] + buf[16..16 + BodyLen(buf)];
  }

  /** Header fields only look at the first sixteen bytes. */
  lemma HeaderOfPrefix(a: seq<byte>, b: seq<byte>)
    requires HEADER_SIZE <= |a|
    ensures Magic(a + b) == Magic(a) && BodyLen(a + b) == BodyLen(a)
    ensures HEADER_SIZE + BodyLen(a) <= |a| ==>
              FrameAt(a + b, BodyLen(a)) == FrameAt(a, BodyLen(a))
  {
    forall i | 0 <= i < 4
      ensures Word(a + b, i) == Word(a, i)
    {
      assert (a + b)[4 * i..4 * i + 4] == a[4 * i..4 * i + 4];
    }
  }

  // ---------------------------------------------------------------- server side

  datatype ServerParse = ServerParse(frames: seq<Packet>, rest: seq<byte>, rejected: bool)

  /** One turn of the server's frame loop: wait for more bytes, close the
      connection, or dispatch the frame held in the first `n` bytes. */
  datatype ServerTurn = Await | Reject | Dispatch(p: Packet, n: nat)

  function ServerStep(buf: seq<byte>): (t: ServerTurn)
    ensures t.Dispatch? ==> HEADER_SIZE <= t.n <= |buf|
  {
    if |buf| < HEADER_SIZE then Await
    else if Magic(buf) != PROTO_MAGIC || BodyLen(buf) > MAX_BODY_LEN then Reject
    else if |buf| < HEADER_SIZE + BodyLen(buf) then Await
    else Dispatch(FrameAt(buf, BodyLen(buf)), HEADER_SIZE + BodyLen(buf))
  }

  function ParseServer(buf: seq<byte>): ServerParse
  {
    match ServerStep(buf)
    case Await => ServerParse([], buf, false)
    case Reject => ServerParse([], buf, true)
    case Dispatch(p, n) =>
      var r := ParseServer(buf[n..]);
      ServerParse([p] + r.frames, r.rest, r.rejected)
  }

  lemma ServerStepAppend(a: seq<byte>, b: seq<byte>)
    requires !ServerStep(a).Await?
    ensures ServerStep(a + b) == ServerStep(a)
  {
    HeaderOfPrefix(a, b);
  }

  lemma ServerStepOfEncoded(p: Packet, tail: seq<byte>)
    requires |p.body| <= MAX_BODY_LEN
    ensures ServerStep(Encode(p) + tail) == Dispatch(p, |Encode(p)|)
    ensures (Encode(p) + tail)[|Encode(p)|..] == tail
  {
    HeaderOfEncoded(p, tail);
  }

  lemma ServerStepBytes(buf: seq<byte>)
    requires ServerStep(buf).Dispatch?
    ensures var t := ServerStep(buf);
            Encode(t.p) == buf[..t.n] && |t.p.body| <= MAX_BODY_LEN
  {
    EncodedOfHeader(buf);
  }

  predicate ServerSized(ps: seq<Packet>)
  {
    forall p :: p in ps ==> |p.body| <= MAX_BODY_LEN
  }

  /** Parsing inverts encoding: frames followed by a residue the loop cannot
      consume parse to exactly those frames, that residue and that verdict. */
  lemma {:induction false} ServerParseComplete(ps: seq<Packet>, rest: seq<byte>)
    requires ServerSized(ps)
    requires !ServerStep(rest).Dispatch?
    ensures ParseServer(EncodeAll(ps) + rest) == ServerParse(ps, rest, ServerStep(rest).Reject?)
  {
    hide ServerStep, Encode;
    if ps == [] {
      assert EncodeAll(ps) + rest == rest;
    } else {
      var tail := EncodeAll(ps[1..]) + rest;
      assert EncodeAll(ps) + rest == Encode(ps[0]) + tail;
      hide EncodeAll, ParseServer;
      ServerParseFirst(ps[0], tail);
      ServerParseComplete(ps[1..], rest);
      assert ps == [ps[0]] + ps[1..];
    }
  }

  lemma ServerParseFirst(p: Packet, tail: seq<byte>)
    requires |p.body| <= MAX_BODY_LEN
    ensures var r := ParseServer(tail);
            ParseServer(Encode(p) + tail) == ServerParse([p] + r.frames, r.rest, r.rejected)
  {
    hide ServerStep, Encode;
    ServerStepOfEncoded(p, tail);
  }

  /** Every buffer is the encoding of the parsed frames followed by a residue the
      loop cannot consume, and that residue decides the verdict. */
  lemma {:induction false} ServerParseSound(buf: seq<byte>)
    ensures var p := ParseServer(buf);
            && ServerSized(p.frames)
            && EncodeAll(p.frames) + p.rest == buf
            && !ServerStep(p.rest).Dispatch?
            && p.rejected == ServerStep(p.rest).Reject?
    decreases |buf|
  {
    hide ServerStep, Encode;
    var t := ServerStep(buf);
    if t.Dispatch? {
      var r := ParseServer(buf[t.n..]);
      assert ParseServer(buf) == ServerParse([t.p] + r.frames, r.rest, r.rejected);
      ServerStepBytes(buf);
      ServerParseSound(buf[t.n..]);
      hide ParseServer, EncodeAll, ServerSized;
      EncodeAllFirst(t.p, r.frames, r.rest);
      SplitAt(buf, t.n);
    } else {
      assert ParseServer(buf) == ServerParse([], buf, t.Reject?);
      hide ParseServer, EncodeAll, ServerSized;
      NothingEncoded(buf);
    }
  }

  lemma SplitAt(buf: seq<byte>, n: nat)
    requires n <= |buf|
    ensures buf == buf[..n] + buf[n..]
  {
  }

  lemma NothingEncoded(buf: seq<byte>)
    ensures EncodeAll([]) + buf == buf && ServerSized([])
  {
  }

  lemma EncodeAllFirst(p: Packet, ps: seq<Packet>, rest: seq<byte>)
    ensures EncodeAll([p] + ps) + rest == Encode(p) + (EncodeAll(ps) + rest)
    ensures |p.body| <= MAX_BODY_LEN && ServerSized(ps) ==> ServerSized([p] + ps)
  {
    hide Encode;
    assert ([p] + ps)[1..] == ps;
  }

  /** The verdict, in terms of the header of what is left: a stream is rejected exactly if
      a whole header is left whose magic word is wrong or whose length is above the
      limit; otherwise the header or the frame it announces is not complete. */
  lemma ServerVerdict(buf: seq<byte>)
    ensures var p := ParseServer(buf);
            && (p.rejected <==>
                  && 16 <= |p.rest|
                  && (FromLe32(p.rest[0..4]) != 0xDEADBEEF || FromLe32(p.rest[4..8]) > 65535))
            && (!p.rejected ==> |p.rest| < 16 || |p.rest| < 16 + FromLe32(p.rest[4..8]))
  {
    ServerParseSound(buf);
    hide ParseServer, EncodeAll, FromLe32;
  }

  /** A residue that is kept is shorter than one maximal frame. */
  lemma ServerResidueBounded(buf: seq<byte>)
    requires !ParseServer(buf).rejected
    ensures |ParseServer(buf).rest| < HEADER_SIZE + MAX_BODY_LEN
  {
    ServerParseSound(buf);
  }

  /** Going on with more bytes after `p` was parsed; a rejection is final. */
  function ServerResume(p: ServerParse, b: seq<byte>): ServerParse
  {
    if p.rejected then p.(rest := p.rest + b)
    else var q := ParseServer(p.rest + b); ServerParse(p.frames + q.frames, q.rest, q.rejected)
  }

  lemma {:induction false} ServerParseAppend(a: seq<byte>, b: seq<byte>)
    ensures ParseServer(a + b) == ServerResume(ParseServer(a), b)
    decreases |a|
  {
    hide ServerStep;
    var t := ServerStep(a);
    if !t.Await? {
      ServerStepAppend(a, b);
      if t.Dispatch? {
        assert (a + b)[t.n..] == a[t.n..] + b;
        ServerParseAppend(a[t.n..], b);
        var p := ParseServer(a[t.n..]);
        var q := ParseServer(p.rest + b);
        assert [t.p] + (p.frames + q.frames) == [t.p] + p.frames + q.frames;
      }
    }
  }

  // ---------------------------------------------------------------- client side

  /** What the client's loop does with the head of its buffer: drop one byte that
      cannot start a frame, or hand on a frame. */
  datatype ClientItem = Skip(b: byte) | Frame(p: Packet)

  /** `broken` marks a length word so large that the 32-bit `full_len` wraps below
      the header size; the client then builds a string from a reversed range, and
      nothing is said about what follows. */
  datatype ClientParse = ClientParse(items: seq<ClientItem>, rest: seq<byte>, broken: bool)

  /** `sizeof(PacketHeader) + body_len`, as the client's 32-bit sum wraps it. */
  function FullLen(buf: seq<byte>): u32
    requires HEADER_SIZE <= |buf|
  {
    var n := HEADER_SIZE + BodyLen(buf);
    if n < U32_RANGE then n else n - U32_RANGE
  }

  /** One turn of the client's loop: wait for more bytes, break down, or consume
      `n` bytes as one item. */
  datatype ClientTurn = Wait | Break | Consume(item: ClientItem, n: nat)

  function ClientStep(buf: seq<byte>): (t: ClientTurn)
    ensures t.Consume? ==> 1 <= t.n <= |buf|
  {
    if |buf| < HEADER_SIZE then Wait
    else if Magic(buf) != PROTO_MAGIC then Consume(Skip(buf[0]), 1)
    else if FullLen(buf) < HEADER_SIZE then Break
    else if |buf| < FullLen(buf) then Wait
    else Consume(Frame(FrameAt(buf, FullLen(buf) - HEADER_SIZE)), FullLen(buf))
  }

  function ParseClient(buf: seq<byte>): ClientParse
  {
    match ClientStep(buf)
    case Wait => ClientParse([], buf, false)
    case Break => ClientParse([], buf, true)
    case Consume(item, n) =>
      var r := ParseClient(buf[n..]);
      ClientParse([item] + r.items, r.rest, r.broken)
  }

  /** Once the loop can move, later bytes do not change what it does. */
  lemma ClientStepAppend(a: seq<byte>, b: seq<byte>)
    requires !ClientStep(a).Wait?
    ensures ClientStep(a + b) == ClientStep(a)
  {
    HeaderOfPrefix(a, b);
  }

  lemma ClientStepBytes(buf: seq<byte>)
    requires ClientStep(buf).Consume?
    ensures var t := ClientStep(buf); Bytes(t.item) == buf[..t.n]
  {
    if Magic(buf) == PROTO_MAGIC {
      EncodedOfHeader(buf);
    }
  }

  function Frames(ps: seq<Packet>): seq<ClientItem>
  {
    seq(|ps|, i requires 0 <= i < |ps| => Frame(ps[i]))
  }

  /** The packets among the items, in order. */
  function Packets(items: seq<ClientItem>): seq<Packet>
  {
    if items == [] then []
    else (if items[0].Frame? then [items[0].p] else []) + Packets(items[1..])
  }

  lemma {:induction false} PacketsOfFrames(ps: seq<Packet>)
    ensures Packets(Frames(ps)) == ps
  {
    if ps != [] {
      assert Frames(ps)[1..] == Frames(ps[1..]);
      PacketsOfFrames(ps[1..]);
    }
  }

  function Bytes(i: ClientItem): seq<byte>
  {
    match i case Skip(b) => [b] case Frame(p) => Encode(p)
  }

  function ItemBytes(items: seq<ClientItem>): seq<byte>
  {
    if items == [] then [] else Bytes(items[0]) + ItemBytes(items[1..])
  }

  /** No byte is invented, lost or reordered: dropped bytes and frames, put back
      together, are the input up to the residue. */
  lemma {:induction false} ClientParseConserves(buf: seq<byte>)
    ensures var p := ParseClient(buf); ItemBytes(p.items) + p.rest == buf
    decreases |buf|
  {
    hide ClientStep, Bytes;
    var t := ClientStep(buf);
    if t.Consume? {
      ClientStepBytes(buf);
      ClientParseConserves(buf[t.n..]);
      assert ParseClient(buf).items[1..] == ParseClient(buf[t.n..]).items;
      assert buf == buf[..t.n] + buf[t.n..];
    }
  }

  /** Going on with more bytes after `p` was parsed. */
  function ClientResume(p: ClientParse, b: seq<byte>): ClientParse
  {
    if p.broken then p.(rest := p.rest + b)
    else var q := ParseClient(p.rest + b); ClientParse(p.items + q.items, q.rest, q.broken)
  }

  lemma {:induction false} ClientParseAppend(a: seq<byte>, b: seq<byte>)
    ensures ParseClient(a + b) == ClientResume(ParseClient(a), b)
    decreases |a|
  {
    hide ClientStep;
    var t := ClientStep(a);
    if !t.Wait? {
      ClientStepAppend(a, b);
      if t.Consume? {
        assert (a + b)[t.n..] == a[t.n..] + b;
        ClientParseAppend(a[t.n..], b);
        var p, q := ParseClient(a[t.n..]), ClientResume(ParseClient(a[t.n..]), b);
        assert !p.broken ==>
            [t.item] + (p.items + ParseClient(p.rest + b).items)
            == [t.item] + p.items + ParseClient(p.rest + b).items;
      }
    }
  }

  /** What the client's loop leaves: less than a header, or the start of a frame that is
      not complete. It breaks down exactly at a frame whose length wraps. */
  lemma {:induction false} ClientResidue(buf: seq<byte>)
    ensures var p := ParseClient(buf);
            var whole := if 16 <= |p.rest| then 16 + FromLe32(p.rest[4..8]) else 0;
            && (16 <= |p.rest| ==> FromLe32(p.rest[0..4]) == 0xDEADBEEF && (|p.rest| < whole || p.broken))
            && (p.broken <==> 16 <= |p.rest| && FromLe32(p.rest[0..4]) == 0xDEADBEEF && 0x1_0000_0000 <= whole)
    decreases |buf|
  {
    hide FromLe32;
    var t := ClientStep(buf);
    if t.Consume? {
      ClientResidue(buf[t.n..]);
    }
  }

  function Skips(junk: seq<byte>): seq<ClientItem>
  {
    seq(|junk|, i requires 0 <= i < |junk| => Skip(junk[i]))
  }

  /** A whole header at position `i` that starts with the magic word. */
  predicate MagicAt(buf: seq<byte>, i: nat)
  {
    i + 16 <= |buf| && FromLe32(buf[i..i + 4]) == 0xDEADBEEF
  }

  /** Every position in `junk`, read with what follows, shows a header without the magic
      word. */
  predicate NoMagicIn(junk: seq<byte>, tail: seq<byte>)
  {
    && (junk == [] || 15 <= |tail|)
    && forall i :: 0 <= i < |junk| ==> !MagicAt(junk + tail, i)
  }

  /** Resynchronisation: bytes that start no frame are dropped one by one, and the client
      goes on with what follows as if they had not been there. */
  lemma {:induction false} ClientResynchronises(junk: seq<byte>, tail: seq<byte>)
    requires NoMagicIn(junk, tail)
    ensures var r := ParseClient(tail);
            ParseClient(junk + tail) == ClientParse(Skips(junk) + r.items, r.rest, r.broken)
    decreases |junk|
  {
    if junk == [] {
      assert junk + tail == tail;
    } else {
      SkipsFirst(junk, tail);
      NoMagicLater(junk, tail);
      ClientResynchronises(junk[1..], tail);
      SkipsCons(junk, ParseClient(tail).items);
      hide ParseClient, NoMagicIn, Skips;
    }
  }

  lemma SkipsCons(junk: seq<byte>, items: seq<ClientItem>)
    requires junk != []
    ensures Skips(junk) + items == [Skip(junk[0])] + (Skips(junk[1..]) + items)
  {
    assert Skips(junk) == [Skip(junk[0])] + Skips(junk[1..]);
  }

  lemma SkipsFirst(junk: seq<byte>, tail: seq<byte>)
    requires junk != [] && NoMagicIn(junk, tail)
    ensures var r := ParseClient(junk[1..] + tail);
            ParseClient(junk + tail) == ClientParse([Skip(junk[0])] + r.items, r.rest, r.broken)
  {
    hide FromLe32;
    assert !MagicAt(junk + tail, 0);
    assert ClientStep(junk + tail) == Consume(Skip(junk[0]), 1);
    assert (junk + tail)[1..] == junk[1..] + tail;
  }

  lemma NoMagicLater(junk: seq<byte>, tail: seq<byte>)
    requires junk != [] && NoMagicIn(junk, tail)
    ensures NoMagicIn(junk[1..], tail)
  {
    var buf := junk + tail;
    assert junk[1..] + tail == buf[1..];
    hide MagicAt;
    forall i | 0 <= i < |junk| - 1
      ensures !MagicAt(junk[1..] + tail, i)
    {
      assert !MagicAt(buf, i + 1);
      MagicLater(buf, i);
    }
  }

  lemma MagicLater(buf: seq<byte>, i: nat)
    requires buf != []
    ensures MagicAt(buf[1..], i) == MagicAt(buf, i + 1)
  {
    hide FromLe32;
    if i + 17 <= |buf| {
      assert buf[1..][i..i + 4] == buf[i + 1..i + 5];
    }
  }

  /** Bytes none of which is the first of the magic word start no frame. */
  lemma NoMagicWithoutFirstByte(junk: seq<byte>, tail: seq<byte>)
    requires 15 <= |tail| && forall i :: 0 <= i < |junk| ==> junk[i] != 0xEF
    ensures NoMagicIn(junk, tail)
  {
    forall i | 0 <= i < |junk|
      ensures !MagicAt(junk + tail, i)
    {
      var w := (junk + tail)[i..i + 4];
      assert w[0] == junk[i];
      if FromLe32(w) == 0xDEADBEEF {
        FirstByteOf(w);
      }
    }
  }

  lemma FirstByteOf(w: seq<byte>)
    requires |w| == 4 && FromLe32(w) == 0xDEADBEEF
    ensures w[0] == 0xEF
  {
    FromLe32RoundTrip(w);
    assert Le32(0xDEADBEEF)[0] == 0xEF;
  }

  /** The client finds the packets behind junk that starts no frame, for every cut of the
      stream into reads. */
  lemma ClientFindsPackets(junk: seq<byte>, ps: seq<Packet>, chunks: seq<seq<byte>>)
    requires ps != [] && Countable(ps) && NoMagicIn(junk, EncodeAll(ps))
    requires Concat(chunks) == junk + EncodeAll(ps)
    ensures ClientFeed(ClientParse([], [], false), chunks) == ClientParse(Skips(junk) + Frames(ps), [], false)
  {
    var all := EncodeAll(ps);
    assert [] + Concat(chunks) == junk + all;
    assert ParseClient([]) == ClientParse([], [], false);
    hide EncodeAll, ParseClient, ClientFeed, NoMagicIn;
    ClientChunkingIrrelevant([], chunks);
    ClientResynchronises(junk, all);
    var k := ClientParsePrefix(ps, all);
    assert ps[..k] == ps;
  }

  /** A stray byte in front of a packet is dropped, the packet handed on. */
  lemma StrayByteIsDropped(p: Packet)
    requires 16 + |p.body| < 0x1_0000_0000
    ensures ParseClient([0] + Encode(p)) == ClientParse([Skip(0), Frame(p)], [], false)
  {
    hide Encode, ParseClient;
    var junk: seq<byte> := [0];
    NoMagicWithoutFirstByte(junk, Encode(p));
    ClientResynchronises(junk, Encode(p));
    assert EncodeAll([p]) == Encode(p) by {
      assert EncodeAll([p]) == Encode(p) + EncodeAll([p][1..]);
    }
    var k := ClientParsePrefix([p], Encode(p));
    assert Skips(junk) + Frames([p]) == [Skip(0), Frame(p)];
  }

  /** A packet whose whole encoding is countable in 32 bits. */
  predicate Countable(ps: seq<Packet>)
  {
    forall p :: p in ps ==> HEADER_SIZE + |p.body| < U32_RANGE
  }

  lemma WholeFrameIsTaken(p: Packet, tail: seq<byte>)
    requires HEADER_SIZE + |p.body| < U32_RANGE
    ensures ClientStep(Encode(p) + tail) == Consume(Frame(p), |Encode(p)|)
  {
    HeaderOfEncoded(p, tail);
  }

  lemma CutFrameIsKept(p: Packet, tail: seq<byte>, got: seq<byte>)
    requires HEADER_SIZE + |p.body| < U32_RANGE
    requires got <= Encode(p) + tail && |got| < |Encode(p)|
    ensures ClientStep(got).Wait?
  {
    var all := Encode(p) + tail;
    if HEADER_SIZE <= |got| {
      HeaderOfEncoded(p, tail);
      assert all == got + all[|got|..];
      HeaderOfPrefix(got, all[|got|..]);
    }
  }

  /** On any prefix of an encoded packet sequence the client decodes a prefix of
      that sequence, never skips a byte, and holds back exactly the cut-off frame. */
  lemma {:induction false} ClientParsePrefix(ps: seq<Packet>, got: seq<byte>) returns (k: nat)
    requires Countable(ps)
    requires got <= EncodeAll(ps)
    ensures k <= |ps|
    ensures ParseClient(got) == ClientParse(Frames(ps[..k]), ParseClient(got).rest, false)
    ensures if k == |ps| then ParseClient(got).rest == []
            else |ParseClient(got).rest| < |Encode(ps[k])|
    ensures got == EncodeAll(ps) ==> k == |ps|
  {
    hide ClientStep, Encode;
    if ps == [] {
      k := 0;
      NothingToRead();
    } else if |got| < |Encode(ps[0])| {
      k := 0;
      CutFrameIsKept(ps[0], EncodeAll(ps[1..]), got);
    } else {
      var n := |Encode(ps[0])|;
      assert got == Encode(ps[0]) + got[n..];
      WholeFrameIsTaken(ps[0], got[n..]);
      var j := ClientParsePrefix(ps[1..], got[n..]);
      k := j + 1;
      assert Frames(ps[..k]) == [Frame(ps[0])] + Frames(ps[1..][..j]);
    }
  }

  lemma NothingToRead()
    ensures ClientStep([]) == Wait
  {
  }

  lemma StepsAgree(buf: seq<byte>)
    requires !ServerStep(buf).Reject?
    ensures ClientStep(buf) ==
            match ServerStep(buf) case Await => Wait case Dispatch(p, n) => Consume(Frame(p), n)
  {
  }

  /** Where the server accepts a stream, the client reads the same frames in it. */
  lemma {:induction false} ServerAndClientAgree(buf: seq<byte>)
    requires !ParseServer(buf).rejected
    ensures var s := ParseServer(buf);
            ParseClient(buf) == ClientParse(Frames(s.frames), s.rest, false)
    decreases |buf|
  {
    hide ServerStep, ClientStep;
    StepsAgree(buf);
    var t := ServerStep(buf);
    if t.Dispatch? {
      ServerAndClientAgree(buf[t.n..]);
      var s := ParseServer(buf);
      assert s.frames[1..] == ParseServer(buf[t.n..]).frames;
      assert Frames(s.frames) == [Frame(t.p)] + Frames(s.frames[1..]);
    }
  }

  // ---------------------------------------------------------------- streams cut into reads

  function Concat(chunks: seq<seq<byte>>): seq<byte>
  {
    if chunks == [] then [] else chunks[0] + Concat(chunks[1..])
  }

  /** The server decoder fed one chunk after the other. */
  function ServerFeed(p: ServerParse, chunks: seq<seq<byte>>): ServerParse
    decreases chunks
  {
    if chunks == [] then p else ServerFeed(ServerResume(p, chunks[0]), chunks[1..])
  }

  /** The client decoder fed one chunk after the other. */
  function ClientFeed(p: ClientParse, chunks: seq<seq<byte>>): ClientParse
    decreases chunks
  {
    if chunks == [] then p else ClientFeed(ClientResume(p, chunks[0]), chunks[1..])
  }

  lemma ConcatFirst(seen: seq<byte>, chunks: seq<seq<byte>>)
    ensures seen + Concat(chunks) == if chunks == [] then seen else seen + chunks[0] + Concat(chunks[1..])
  {
  }

  /** Server decoding does not depend on chunking: after any prefix `seen` of the
      stream, any cut of the remaining bytes leads to the whole-stream parse. */
  lemma {:induction false} ServerChunkingIrrelevant(seen: seq<byte>, chunks: seq<seq<byte>>)
    ensures ServerFeed(ParseServer(seen), chunks) == ParseServer(seen + Concat(chunks))
    decreases chunks
  {
    hide ParseServer;
    ConcatFirst(seen, chunks);
    if chunks != [] {
      ServerParseAppend(seen, chunks[0]);
      ServerChunkingIrrelevant(seen + chunks[0], chunks[1..]);
    }
  }

  /** Client decoding does not depend on chunking either, whatever the bytes. */
  lemma {:induction false} ClientChunkingIrrelevant(seen: seq<byte>, chunks: seq<seq<byte>>)
    ensures ClientFeed(ParseClient(seen), chunks) == ParseClient(seen + Concat(chunks))
    decreases chunks
  {
    hide ParseClient;
    ConcatFirst(seen, chunks);
    if chunks != [] {
      ClientParseAppend(seen, chunks[0]);
      ClientChunkingIrrelevant(seen + chunks[0], chunks[1..]);
    }
  }

  /** End to end over a byte pipe: whatever prefix of the encoded packets has come
      through and however the client's reads cut it, the client has handed on a
      prefix of the packets, unchanged and in order, has dropped no byte, and has
      handed on all of them once all bytes are through. */
  lemma ClientReceivesPrefix(ps: seq<Packet>, chunks: seq<seq<byte>>)
    requires Countable(ps)
    requires Concat(chunks) <= EncodeAll(ps)
    ensures var c := ClientFeed(ClientParse([], [], false), chunks);
            && !c.broken
            && Packets(c.items) <= ps
            && c.items == Frames(Packets(c.items))
            && (Concat(chunks) == EncodeAll(ps) ==> Packets(c.items) == ps && c.rest == [])
  {
    var got := Concat(chunks);
    assert [] + got == got;
    ClientChunkingIrrelevant([], chunks);
    var k := ClientParsePrefix(ps, got);
    PacketsOfFrames(ps[..k]);
  }
}
