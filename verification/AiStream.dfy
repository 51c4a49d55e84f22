/** Cutting a model's streamed answer into frames for the client, with a local
    fallback text when the service fails. */
module AiStream {

  const MAX_CHUNK_SIZE: nat := 50
  const FLUSH_INTERVAL_MS: int := 80
  const PIECE_SIZE: nat := 15

  datatype Frame = Frame(content: string, isStream: bool, isLast: bool, seqNo: nat)

  /** One piece of text from the service: what it says, the clock when it is handled,
      and whether the client's connection is still there. A lost connection does not
      stop the stream: the exception it raises is swallowed by the parser that calls
      the handler, and the text stays in the buffer. */
  datatype Delta = Delta(text: string, now: int, open: bool)

  function Text(ds: seq<Delta>): string
  {
    if ds == [] then "" else Text(ds[..|ds| - 1]) + ds[|ds| - 1].text
  }

  function Contents(fs: seq<Frame>): string
  {
    if fs == [] then "" else Contents(fs[..|fs| - 1]) + fs[|fs| - 1].content
  }

  lemma TextSnoc(ds: seq<Delta>, i: nat)
    requires i < |ds|
    ensures Text(ds[..i + 1]) == Text(ds[..i]) + ds[i].text
    ensures AllOpen(ds[..i + 1]) <==> AllOpen(ds[..i]) && ds[i].open
  {
    assert ds[..i + 1][..i] == ds[..i];
    assert ds[..i + 1] == ds[..i] + [ds[i]];
  }

  lemma NothingYet(ds: seq<Delta>)
    ensures WellNumbered([]) && !Ended([])
    ensures Contents([]) + "" == Text(ds[..0]) && AllOpen(ds[..0])
  {
  }

  lemma ContentsSnoc(fs: seq<Frame>, f: Frame)
    ensures Contents(fs + [f]) == Contents(fs) + f.content
  {
    assert (fs + [f])[..|fs|] == fs;
  }

  /** A stream frame unless it is an empty last one; only a last one is empty. */
  predicate FrameOk(f: Frame, i: nat)
  {
    f.seqNo == i && f.isStream == (|f.content| > 0) && (f.isLast || f.isStream)
  }

  /** Frames are numbered 0, 1, 2, ... and only the final one may be the last. */
  predicate WellNumbered(fs: seq<Frame>)
  {
    && (forall i :: 0 <= i < |fs| ==> FrameOk(fs[i], i))
    && (forall i :: 0 <= i < |fs| - 1 ==> !fs[i].isLast)
  }

  predicate Ended(fs: seq<Frame>)
  {
    fs != [] && fs[|fs| - 1].isLast
  }

  predicate AllOpen(ds: seq<Delta>)
  {
    forall i :: 0 <= i < |ds| ==> ds[i].open
  }

  /** Sending one frame with the next number. */
  function Emit(fs: seq<Frame>, content: string, isLast: bool): seq<Frame>
  {
    fs + [Frame(content, !isLast || |content| > 0, isLast, |fs|)]
  }

  lemma EmitKeeps(fs: seq<Frame>, content: string, isLast: bool)
    requires WellNumbered(fs) && !Ended(fs) && (isLast || |content| > 0)
    ensures var gs := Emit(fs, content, isLast);
            WellNumbered(gs) && Ended(gs) == isLast && Contents(gs) == Contents(fs) + content
  {
    hide Contents, FrameOk;
    var f := Frame(content, !isLast || |content| > 0, isLast, |fs|);
    NewFrameOk(f);
    ContentsSnoc(fs, f);
  }

  lemma NewFrameOk(f: Frame)
    requires f.isLast || |f.content| > 0
    ensures FrameOk(f.(isStream := !f.isLast || |f.content| > 0), f.seqNo)
  {
  }

  // ---------------------------------------------------------------- streamed text

  /** The handler's variables. */
  datatype Stream = Stream(frames: seq<Frame>, buffer: string, lastFlush: int, connLost: bool)

  /** The buffer is flushed when it is large, old or has just got the end of a line. */
  predicate Due(buffer: string, lastFlush: int, d: Delta)
  {
    && buffer != ""
    && (|buffer| >= MAX_CHUNK_SIZE || d.now - lastFlush >= FLUSH_INTERVAL_MS || '\n' in d.text)
  }

  function OnDelta(st: Stream, d: Delta): Stream
  {
    var buffer := st.buffer + d.text;
    if !d.open then st.(buffer := buffer, connLost := true)
    else if Due(buffer, st.lastFlush, d) then Stream(Emit(st.frames, buffer, false), "", d.now, st.connLost)
    else st.(buffer := buffer)
  }

  function OnDeltas(st: Stream, ds: seq<Delta>): Stream
  {
    if ds == [] then st else OnDelta(OnDeltas(st, ds[..|ds| - 1]), ds[|ds| - 1])
  }

  /** Text is sent on exactly if the connection is there and there is any, and it makes
      fifty bytes, was held back for eighty milliseconds or ends a line. It is sent as
      one frame, and the clock starts anew; otherwise it waits. */
  lemma FlushedInTime(st: Stream, d: Delta)
    ensures var t, text := OnDelta(st, d), st.buffer + d.text;
            if d.open && text != "" && (50 <= |text| || 80 <= d.now - st.lastFlush || '\n' in d.text) then
              && t.buffer == "" && t.lastFlush == d.now
              && |t.frames| == |st.frames| + 1 && st.frames <= t.frames
              && t.frames[|st.frames|] == Frame(text, true, false, |st.frames|)
            else
              t.buffer == text && t.lastFlush == st.lastFlush && t.frames == st.frames
    ensures OnDelta(st, d).connLost <==> st.connLost || !d.open
  {
  }

  /** A piece of text that finds the connection open and the buffer due, if nothing
      was flushed since `st`. */
  predicate DueAt(st: Stream, ds: seq<Delta>, i: nat)
    requires i < |ds|
  {
    ds[i].open && Due(st.buffer + Text(ds[..i + 1]), st.lastFlush, ds[i])
  }

  lemma DueAtPrefix(st: Stream, ds: seq<Delta>, n: nat)
    requires n <= |ds|
    ensures forall i :: 0 <= i < n ==> DueAt(st, ds[..n], i) == DueAt(st, ds, i)
  {
    hide Due, Text;
    forall i | 0 <= i < n
      ensures DueAt(st, ds[..n], i) == DueAt(st, ds, i)
    {
      assert ds[..n][..i + 1] == ds[..i + 1];
    }
  }

  lemma OneDelta(st: Stream, d: Delta)
    ensures var t := OnDelta(st, d);
            if d.open && Due(st.buffer + d.text, st.lastFlush, d) then |t.frames| == |st.frames| + 1
            else t.frames == st.frames && t.buffer == st.buffer + d.text && t.lastFlush == st.lastFlush
    ensures st.frames <= OnDelta(st, d).frames
  {
    hide Due;
  }

  /** The handler sends no further frame, whether the connection was lost or not, exactly
      if no piece of text finds it open and what was buffered up to it due. */
  lemma {:induction false} SilentIffNeverDue(st: Stream, ds: seq<Delta>)
    ensures st.frames <= OnDeltas(st, ds).frames
    ensures OnDeltas(st, ds).frames == st.frames <==> forall i :: 0 <= i < |ds| ==> !DueAt(st, ds, i)
    ensures OnDeltas(st, ds).frames == st.frames ==>
              && OnDeltas(st, ds).buffer == st.buffer + Text(ds)
              && OnDeltas(st, ds).lastFlush == st.lastFlush
  {
    if ds != [] {
      var n := |ds| - 1;
      var before, d := OnDeltas(st, ds[..n]), ds[n];
      SilentIffNeverDue(st, ds[..n]);
      DueAtPrefix(st, ds, n);
      OneDelta(before, d);
      hide Due, OnDelta;
      assert ds[..n + 1] == ds;
      assert st.buffer + Text(ds[..n]) + d.text == st.buffer + Text(ds);
      assert before.frames == st.frames ==>
               (DueAt(st, ds, n) <==> d.open && Due(before.buffer + d.text, before.lastFlush, d));
      hide DueAt, Text;
      if before.frames != st.frames {
        var i :| 0 <= i < n && DueAt(st, ds[..n], i);
        assert DueAt(st, ds, i);
      }
    }
  }

  /** A stream whose handler sends text after its connection was lost. */
  lemma TextSentAfterLoss()
    ensures var lost := OnDeltas(Stream([], "", 0, false), [Delta("a", 1, false)]);
            var later := OnDeltas(lost, [Delta("\n", 2, true)]);
            && lost.connLost && lost.frames == []
            && later.frames == [Frame("a\n", true, false, 0)]
  {
    var none, first, second := Stream([], "", 0, false), [Delta("a", 1, false)], [Delta("\n", 2, true)];
    var lost := OnDelta(none, first[0]);
    assert first[..0] == [] && second[..0] == [];
    assert OnDeltas(none, first) == OnDelta(OnDeltas(none, []), first[0]);
    assert "a" + "\n" == "a\n" && "" + "a" == "a";
    var later := OnDelta(lost, Delta("\n", 2, true));
    assert '\n' in "\n" by {
      assert "\n"[0] == '\n';
    }
    assert later.frames == [Frame("a\n", true, false, 0)];
    assert OnDeltas(lost, second) == OnDelta(OnDeltas(lost, []), second[0]);
  }

  /** The handler of streamed text. */
  method HandleDeltas(deltas: seq<Delta>, start: int) returns (frames: seq<Frame>, buffer: string, connLost: bool)
    ensures var st := OnDeltas(Stream([], "", start, false), deltas);
            frames == st.frames && buffer == st.buffer && connLost == st.connLost
    ensures WellNumbered(frames) && !Ended(frames)
    ensures Contents(frames) + buffer == Text(deltas)
    ensures connLost == !AllOpen(deltas)
    ensures deltas == [] || deltas[|deltas| - 1].open ==> |buffer| < MAX_CHUNK_SIZE
    ensures deltas != [] && deltas[|deltas| - 1].open && '\n' in deltas[|deltas| - 1].text ==> buffer == ""
  {
    frames, buffer, connLost := [], "", false;
    hide WellNumbered, Ended, Contents, Text, AllOpen, Emit;
    NothingYet(deltas);
    var lastFlush := start;
    ghost var empty := Stream([], "", start, false);
    for i := 0 to |deltas|
      invariant OnDeltas(empty, deltas[..i]) == Stream(frames, buffer, lastFlush, connLost)
      invariant WellNumbered(frames) && !Ended(frames)
      invariant Contents(frames) + buffer == Text(deltas[..i])
      invariant connLost == !AllOpen(deltas[..i])
      invariant i == 0 || deltas[i - 1].open ==> |buffer| < MAX_CHUNK_SIZE
      invariant i > 0 && deltas[i - 1].open && '\n' in deltas[i - 1].text ==> buffer == ""
    {
      var d := deltas[i];
      TextSnoc(deltas, i);
      assert deltas[..i + 1][..i] == deltas[..i];
      assert Contents(frames) + buffer + d.text == Contents(frames) + (buffer + d.text);
      buffer := buffer + d.text;
      if !d.open {
        connLost := true;
        continue;
      }
      if |buffer| >= MAX_CHUNK_SIZE || d.now - lastFlush >= FLUSH_INTERVAL_MS || '\n' in d.text {
        if buffer != "" {
          EmitKeeps(frames, buffer, false);
          frames := Emit(frames, buffer, false);
          buffer := "";
          lastFlush := d.now;
        }
      }
    }
    assert deltas[..|deltas|] == deltas;
  }

  /** The fallback text cut into pieces, sent while the connection is there. */
  function Fallback(fs: seq<Frame>, text: string, i: nat, open: nat -> bool): seq<Frame>
    decreases |text| - i
  {
    if i >= |text| then fs
    else
      var end := if i + PIECE_SIZE < |text| then i + PIECE_SIZE else |text|;
      var gs := if open(i) then Emit(fs, text[i..end], i + PIECE_SIZE >= |text|) else fs;
      Fallback(gs, text, i + PIECE_SIZE, open)
  }

  method SendFallback(flushed: seq<Frame>, text: string, open: nat -> bool) returns (frames: seq<Frame>)
    ensures frames == Fallback(flushed, text, 0, open)
  {
    frames := flushed;
    var i := 0;
    while i < |text|
      invariant Fallback(frames, text, i, open) == Fallback(flushed, text, 0, open)
      decreases |text| - i
    {
      var end := if i + PIECE_SIZE < |text| then i + PIECE_SIZE else |text|;
      var last := i + PIECE_SIZE >= |text|;
      if open(i) {
        frames := Emit(frames, text[i..end], last);
      }
      i := i + PIECE_SIZE;
    }
  }

  /** While the connection stays, the pieces add up to the text, and the final one is
      the last frame. */
  lemma {:induction false} FallbackIsComplete(fs: seq<Frame>, text: string, i: nat, open: nat -> bool)
    requires WellNumbered(fs) && !Ended(fs) && i < |text|
    requires forall k :: open(k)
    ensures var gs := Fallback(fs, text, i, open);
            Ended(gs) && Contents(gs) == Contents(fs) + text[i..]
    decreases |text| - i
  {
    hide WellNumbered, Ended, Contents, Emit;
    var end := if i + PIECE_SIZE < |text| then i + PIECE_SIZE else |text|;
    var last := i + PIECE_SIZE >= |text|;
    EmitKeeps(fs, text[i..end], last);
    if last {
      assert text[i..end] == text[i..];
    } else {
      FallbackIsComplete(Emit(fs, text[i..end], last), text, end, open);
      assert Contents(fs) + text[i..end] + text[end..] == Contents(fs) + text[i..];
    }
  }

  /** No piece is longer than fifteen bytes, and all but the final one are exactly
      that long. */
  lemma {:induction false} FallbackPieceSizes(fs: seq<Frame>, text: string, i: nat, open: nat -> bool)
    requires forall k :: open(k)
    ensures var gs := Fallback(fs, text, i, open);
            && fs <= gs
            && (forall k :: |fs| <= k < |gs| ==> |gs[k].content| <= 15)
            && (forall k :: |fs| <= k < |gs| - 1 ==> |gs[k].content| == 15)
    decreases |text| - i
  {
    if i < |text| {
      var end := if i + PIECE_SIZE < |text| then i + PIECE_SIZE else |text|;
      FallbackPieceSizes(Emit(fs, text[i..end], i + PIECE_SIZE >= |text|), text, i + PIECE_SIZE, open);
    }
  }

  /** If the connection is lost on the way, frames are still numbered without gaps
      and at most the final one is last. */
  lemma {:induction false} FallbackStaysNumbered(fs: seq<Frame>, text: string, i: nat, open: nat -> bool)
    requires WellNumbered(fs) && !Ended(fs)
    ensures var gs := Fallback(fs, text, i, open); fs <= gs && WellNumbered(gs)
    decreases |text| - i
  {
    if i < |text| {
      var end := if i + PIECE_SIZE < |text| then i + PIECE_SIZE else |text|;
      if open(i) {
        EmitKeeps(fs, text[i..end], i + PIECE_SIZE >= |text|);
        var hs := Emit(fs, text[i..end], i + PIECE_SIZE >= |text|);
        if i + PIECE_SIZE < |text| {
          FallbackStaysNumbered(hs, text, i + PIECE_SIZE, open);
        }
      } else {
        FallbackStaysNumbered(fs, text, i + PIECE_SIZE, open);
      }
    }
  }

  // ---------------------------------------------------------------- whole requests

  /** All frames of one AI request: those of the handler, then the completion frame, the
      fallback or nothing. Completion looks at the descriptor only, the fallback also
      at whether the connection was ever found lost. */
  function RequestFrames(openAtStart: bool, deltas: seq<Delta>, start: int, success: bool, openAtEnd: bool,
                         fallback: string, openForPiece: nat -> bool): seq<Frame>
  {
    if !openAtStart then []
    else
      var st := OnDeltas(Stream([], "", start, false), deltas);
      if success then if openAtEnd then Emit(st.frames, st.buffer, true) else st.frames
      else if st.connLost then st.frames
      else Fallback(st.frames, fallback, 0, openForPiece)
  }

  lemma {:induction false} OnDeltasAppend(st: Stream, ds: seq<Delta>, es: seq<Delta>)
    ensures OnDeltas(st, ds + es) == OnDeltas(OnDeltas(st, ds), es)
    decreases es
  {
    if es == [] {
      assert ds + es == ds;
    } else {
      var n := |es| - 1;
      OnDeltasAppend(st, ds, es[..n]);
      assert (ds + es)[..|ds| + n] == ds + es[..n];
    }
  }

  lemma {:induction false} LossSticks(st: Stream, ds: seq<Delta>)
    requires st.connLost
    ensures OnDeltas(st, ds).connLost
  {
    if ds != [] {
      LossSticks(st, ds[..|ds| - 1]);
    }
  }

  /** Losing the connection does not end a request. After the text that found it lost
      nothing more is sent exactly if no later text finds it open with the buffer due
      and the request does not complete on an open descriptor. */
  lemma SilentAfterLoss(deltas: seq<Delta>, i: nat, start: int, success: bool, openAtEnd: bool,
                        fallback: string, openForPiece: nat -> bool)
    requires i < |deltas| && !deltas[i].open
    ensures var at, later := OnDeltas(Stream([], "", start, false), deltas[..i + 1]), deltas[i + 1..];
            RequestFrames(true, deltas, start, success, openAtEnd, fallback, openForPiece) == at.frames <==>
            (forall j :: 0 <= j < |later| ==> !DueAt(at, later, j)) && !(success && openAtEnd)
  {
    var none := Stream([], "", start, false);
    var at, later := OnDeltas(none, deltas[..i + 1]), deltas[i + 1..];
    assert deltas[..i + 1][..i] == deltas[..i];
    assert at.connLost;
    assert deltas == deltas[..i + 1] + later;
    OnDeltasAppend(none, deltas[..i + 1], later);
    LossSticks(at, later);
    SilentIffNeverDue(at, later);
    hide OnDeltas, DueAt;
  }

  /** A request that sends its text on completion, after the connection was lost and
      with nothing ever due. */
  lemma CompletionAfterLoss(fallback: string, openForPiece: nat -> bool)
    ensures RequestFrames(true, [Delta("a", 1, false)], 0, true, true, fallback, openForPiece)
         == [Frame("a", true, true, 0)]
  {
    var none, ds := Stream([], "", 0, false), [Delta("a", 1, false)];
    assert ds[..0] == [] && "" + "a" == "a";
    assert OnDeltas(none, ds) == OnDelta(OnDeltas(none, []), ds[0]);
  }

  /** One AI request from start to end. `success` is what the service call returned;
      `openAtEnd` and `openForPiece` say whether the connection was there when the
      completion handler and each fallback piece ran. `flushed` is the number of
      frames that carry streamed text before completion. */
  method ProcessStream(openAtStart: bool, deltas: seq<Delta>, start: int, success: bool, openAtEnd: bool,
                       fallback: string, openForPiece: nat -> bool)
    returns (frames: seq<Frame>, flushed: nat)
    ensures frames == RequestFrames(openAtStart, deltas, start, success, openAtEnd, fallback, openForPiece)
    ensures WellNumbered(frames) && flushed <= |frames|
    ensures !openAtStart ==> frames == []
    ensures openAtStart && success && openAtEnd ==> Ended(frames) && Contents(frames) == Text(deltas)
    ensures openAtStart && success && !openAtEnd ==> !Ended(frames) && Contents(frames) <= Text(deltas)
    ensures openAtStart && !success && !AllOpen(deltas) ==> !Ended(frames) && Contents(frames) <= Text(deltas)
    ensures openAtStart && !success && AllOpen(deltas) ==>
              && Contents(frames[..flushed]) <= Text(deltas)
              && |Text(deltas)| - |Contents(frames[..flushed])| < MAX_CHUNK_SIZE
    ensures openAtStart && !success && AllOpen(deltas) && (forall k :: openForPiece(k)) ==>
              (Ended(frames) <==> fallback != "") && Contents(frames) == Contents(frames[..flushed]) + fallback
  {
    hide WellNumbered, Contents, Text, OnDeltas;
    NothingYet(deltas);
    if !openAtStart {
      return [], 0;
    }
    var buffer, connLost;
    frames, buffer, connLost := HandleDeltas(deltas, start);
    flushed := |frames|;
    ghost var streamed := frames;
    if success {
      if openAtEnd {
        EmitKeeps(frames, buffer, true);
        frames := Emit(frames, buffer, true);
      }
    } else if !connLost {
      FallbackStaysNumbered(frames, fallback, 0, openForPiece);
      frames := SendFallback(frames, fallback, openForPiece);
      assert frames[..flushed] == streamed;
      if fallback != "" && forall k :: openForPiece(k) {
        FallbackIsComplete(streamed, fallback, 0, openForPiece);
        assert fallback[0..] == fallback;
      }
      assert Contents(streamed) + "" == Contents(streamed);
    }
  }
}
