/** The client of the AI service: splitting its event stream into lines, and
    escaping a prompt into the JSON request body. */
module LlamaClient {
  import opened Common

  // ---------------------------------------------------------------- event stream

  const PREFIX := "data: "
  const DONE := "[DONE]"

  predicate NoNewline(s: string)
  {
    forall i :: 0 <= i < |s| ==> s[i] != '\n'
  }

  /** Index of the first line feed, or the length if there is none. */
  function FindNewline(s: string): (i: nat)
    ensures i <= |s|
    ensures i < |s| ==> s[i] == '\n'
  {
    if s == "" || s[0] == '\n' then 0 else 1 + FindNewline(s[1..])
  }

  lemma {:induction false} FindNewlineIsFirst(s: string)
    ensures NoNewline(s[..FindNewline(s)])
  {
    if s != "" && s[0] != '\n' {
      FindNewlineIsFirst(s[1..]);
      assert s[..FindNewline(s)] == [s[0]] + s[1..][..FindNewline(s[1..])];
    }
  }

  /** More text after the first line feed does not move it. */
  lemma {:induction false} FindNewlineAppend(a: string, b: string)
    requires FindNewline(a) < |a|
    ensures FindNewline(a + b) == FindNewline(a)
  {
    if a[0] != '\n' {
      assert (a + b)[1..] == a[1..] + b;
      FindNewlineAppend(a[1..], b);
    }
  }

  datatype Split = Split(lines: seq<string>, rest: string)

  function SplitLines(s: string): Split
  {
    var i := FindNewline(s);
    if i == |s| then Split([], s)
    else
      var r := SplitLines(s[i + 1..]);
      Split([s[..i]] + r.lines, r.rest)
  }

  function JoinLines(lines: seq<string>): string
  {
    if lines == [] then "" else lines[0] + "\n" + JoinLines(lines[1..])
  }

  /** Splitting loses nothing: the lines and the rest, put back together, are the
      text. */
  lemma {:induction false} SplitConserves(s: string)
    ensures var r := SplitLines(s); JoinLines(r.lines) + r.rest == s
    decreases |s|
  {
    hide FindNewline;
    var i := FindNewline(s);
    if i < |s| {
      var tail := s[i + 1..];
      var r := SplitLines(tail);
      assert SplitLines(s) == Split([s[..i]] + r.lines, r.rest);
      SplitConserves(tail);
      hide SplitLines, JoinLines;
      JoinFirst(s[..i], r.lines, r.rest);
      CutAt(s, i);
    } else {
      assert SplitLines(s) == Split([], s);
      assert "" + s == s;
    }
  }

  lemma JoinFirst(line: string, lines: seq<string>, rest: string)
    ensures JoinLines([line] + lines) + rest == line + "\n" + (JoinLines(lines) + rest)
  {
    assert ([line] + lines)[1..] == lines;
  }

  lemma CutAt(s: string, i: nat)
    requires i < |s| && s[i] == '\n'
    ensures s == s[..i] + "\n" + s[i + 1..]
  {
  }

  /** It cuts at every line feed: neither the lines nor the rest hold one. */
  lemma {:induction false} SplitCutsEverywhere(s: string)
    ensures var r := SplitLines(s);
            NoNewline(r.rest) && forall i :: 0 <= i < |r.lines| ==> NoNewline(r.lines[i])
    decreases |s|
  {
    hide FindNewline, NoNewline;
    FindNewlineIsFirst(s);
    var i := FindNewline(s);
    if i < |s| {
      SplitCutsEverywhere(s[i + 1..]);
    } else {
      assert s[..i] == s;
    }
  }

  /** Going on with more text after `p` was split. */
  function SplitMore(p: Split, b: string): Split
  {
    var q := SplitLines(p.rest + b);
    Split(p.lines + q.lines, q.rest)
  }

  lemma {:induction false} SplitAppend(a: string, b: string)
    ensures SplitLines(a + b) == SplitMore(SplitLines(a), b)
    decreases |a|
  {
    hide FindNewline;
    var i := FindNewline(a);
    if i < |a| {
      FindNewlineAppend(a, b);
      assert (a + b)[..i] == a[..i] && (a + b)[i + 1..] == a[i + 1..] + b;
      SplitAppend(a[i + 1..], b);
      SplitMoreCons(a[..i], SplitLines(a[i + 1..]), b);
    }
  }

  lemma SplitMoreCons(line: string, p: Split, b: string)
    ensures var q := SplitMore(p, b);
            SplitMore(Split([line] + p.lines, p.rest), b) == Split([line] + q.lines, q.rest)
  {
    hide SplitLines;
    assert [line] + p.lines + SplitLines(p.rest + b).lines == [line] + (p.lines + SplitLines(p.rest + b).lines);
  }

  /** The payload of a line, if it is a data line other than the end marker. */
  function Payload(line: string): Option<string>
  {
    var text := if line != "" && line[|line| - 1] == '\r' then line[..|line| - 1] else line;
    if PREFIX <= text && text[|PREFIX|..] != DONE then Some(text[|PREFIX|..]) else None
  }

  /** The payload is what stands between the prefix and the end of the line, where one
      carriage return counts as part of the line's end. */
  lemma PayloadMeaning(line: string, x: string)
    ensures Payload(line) == Some(x) <==>
            x != DONE && (line == PREFIX + x + "\r" || (line == PREFIX + x && line[|line| - 1] != '\r'))
  {
    var n := |line| - 1;
    if line != "" && line[n] == '\r' {
      assert line == line[..n] + "\r";
      assert line == PREFIX + x + "\r" ==> line[..n] == PREFIX + x;
      CutPrefix(line[..n], x);
    } else {
      assert line != PREFIX + x + "\r" by {
        assert (PREFIX + x + "\r")[|PREFIX + x|] == '\r';
      }
      CutPrefix(line, x);
    }
  }

  lemma CutPrefix(text: string, x: string)
    ensures PREFIX <= text && text[|PREFIX|..] == x <==> text == PREFIX + x
  {
    if PREFIX <= text {
      assert text == PREFIX + text[|PREFIX|..];
    }
  }

  function Payloads(lines: seq<string>): seq<string>
  {
    if lines == [] then []
    else (var p := Payload(lines[0]); if p.Some? then [p.value] else []) + Payloads(lines[1..])
  }

  lemma {:induction false} PayloadsAppend(ls: seq<string>, ms: seq<string>)
    ensures Payloads(ls + ms) == Payloads(ls) + Payloads(ms)
  {
    if ls == [] {
      assert ls + ms == ms;
    } else {
      hide Payload, Payloads;
      PayloadsAppend(ls[1..], ms);
      PayloadsCons(ls[0], ls[1..]);
      PayloadsCons(ls[0], ls[1..] + ms);
      Regroup(ls, ms);
    }
  }

  lemma Regroup(ls: seq<string>, ms: seq<string>)
    requires ls != []
    ensures ls == [ls[0]] + ls[1..] && ls + ms == [ls[0]] + (ls[1..] + ms)
  {
  }

  class StreamContext {
    var lineBuffer: string

    constructor ()
      ensures lineBuffer == ""
    {
      lineBuffer := "";
    }

    /** One write callback; the result is what it hands to the parser, in order. */
    method WriteCallback(data: string) returns (payloads: seq<string>)
      modifies this
      ensures var r := SplitLines(old(lineBuffer) + data);
              payloads == Payloads(r.lines) && lineBuffer == r.rest
      ensures NoNewline(lineBuffer)
    {
      hide Payload, Payloads, FindNewline, NoNewline;
      PayloadsOfNothing();
      lineBuffer := lineBuffer + data;
      SplitCutsEverywhere(lineBuffer);
      payloads := [];
      var pos := FindNewline(lineBuffer);
      ghost var whole := SplitLines(lineBuffer);
      ghost var done: seq<string> := [];
      while pos < |lineBuffer|
        invariant pos == FindNewline(lineBuffer)
        invariant var r := SplitLines(lineBuffer); whole == Split(done + r.lines, r.rest)
        invariant payloads == Payloads(done)
        decreases |lineBuffer|
      {
        var line := lineBuffer[..pos];
        PayloadsSnoc(done, line);
        ghost var more := SplitLines(lineBuffer[pos + 1..]).lines;
        assert done + ([line] + more) == done + [line] + more;
        done := done + [line];
        lineBuffer := lineBuffer[pos + 1..];
        var p := PayloadOf(line);
        if p.Some? {
          payloads := payloads + [p.value];
        }
        pos := FindNewline(lineBuffer);
      }
      assert done + [] == done;
    }
  }

  method PayloadOf(raw: string) returns (p: Option<string>)
    ensures p == Payload(raw)
  {
    var line := raw;
    if line != "" && line[|line| - 1] == '\r' {
      line := line[..|line| - 1];
    }
    if PREFIX <= line {
      var json := line[|PREFIX|..];
      if json == DONE {
        return None;
      }
      return Some(json);
    }
    return None;
  }

  function Concat(chunks: seq<string>): string
  {
    if chunks == [] then "" else chunks[0] + Concat(chunks[1..])
  }

  /** What a sequence of callbacks hands on, starting with `buffer` carried over. */
  function Stream(buffer: string, chunks: seq<string>): (seq<string>, string)
    decreases chunks
  {
    if chunks == [] then ([], buffer)
    else
      var r := SplitLines(buffer + chunks[0]);
      var (ps, rest) := Stream(r.rest, chunks[1..]);
      (Payloads(r.lines) + ps, rest)
  }

  /** Event splitting does not depend on how the response was cut into callbacks:
      the payloads are those of splitting the whole response at once. */
  lemma {:induction false} StreamIgnoresChunking(buffer: string, chunks: seq<string>)
    requires NoNewline(buffer)
    ensures var r := SplitLines(buffer + Concat(chunks));
            Stream(buffer, chunks) == (Payloads(r.lines), r.rest)
    decreases chunks
  {
    hide Payloads, FindNewline, NoNewline;
    if chunks == [] {
      assert buffer + Concat(chunks) == buffer;
      NothingToFind(buffer);
      PayloadsOfNothing();
    } else {
      var first, tail := buffer + chunks[0], Concat(chunks[1..]);
      assert buffer + Concat(chunks) == first + tail;
      var r := SplitLines(first);
      SplitCutsEverywhere(first);
      SplitAppend(first, tail);
      StreamIgnoresChunking(r.rest, chunks[1..]);
      PayloadsAppend(r.lines, SplitLines(r.rest + tail).lines);
    }
  }

  /** A service's event stream: each payload as a data line and an empty line, both
      ended by `eol`. */
  function Events(payloads: seq<string>, eol: string): string
  {
    if payloads == [] then "" else PREFIX + payloads[0] + eol + eol + Events(payloads[1..], eol)
  }

  /** What an event can carry: one line, not the end marker, and no carriage return at
      its end if lines end in a bare line feed. */
  predicate Sendable(p: string, eol: string)
  {
    NoNewline(p) && p != DONE && (eol == "\n" && p != "" ==> p[|p| - 1] != '\r')
  }

  lemma {:induction false} FindNewlineAt(a: string, b: string)
    requires NoNewline(a)
    ensures FindNewline(a + "\n" + b) == |a|
  {
    if a == "" {
      assert a + "\n" + b == "\n" + b;
    } else {
      FindNewlineAt(a[1..], b);
      assert (a + "\n" + b)[1..] == a[1..] + "\n" + b;
    }
  }

  /** A line at the front is the first one split off. */
  lemma SplitFirst(a: string, b: string)
    requires NoNewline(a)
    ensures SplitLines(a + "\n" + b) == Split([a] + SplitLines(b).lines, SplitLines(b).rest)
  {
    FindNewlineAt(a, b);
    var s := a + "\n" + b;
    assert s[..|a|] == a && s[|a| + 1..] == b;
  }

  /** One event hands on its payload. */
  lemma OneEvent(p: string, cr: string, tail: string)
    requires cr == "" || cr == "\r"
    requires Sendable(p, cr + "\n")
    ensures var whole, rest := SplitLines(PREFIX + p + (cr + "\n") + (cr + "\n") + tail), SplitLines(tail);
            Payloads(whole.lines) == [p] + Payloads(rest.lines) && whole.rest == rest.rest
  {
    hide SplitLines, Payloads;
    var line := PREFIX + p + cr;
    EventRegroups(PREFIX + p, cr, tail);
    SplitFirst(line, cr + "\n" + tail);
    SplitFirst(cr, tail);
    EventLine(p, cr);
    NoPayload(cr);
    hide Payload;
    PayloadsCons(line, [cr] + SplitLines(tail).lines);
    PayloadsCons(cr, SplitLines(tail).lines);
  }

  lemma EventRegroups(a: string, cr: string, tail: string)
    ensures a + (cr + "\n") + (cr + "\n") + tail == (a + cr) + "\n" + (cr + "\n" + tail)
  {
  }

  lemma EventLine(p: string, cr: string)
    requires (cr == "" || cr == "\r") && Sendable(p, cr + "\n")
    ensures Payload(PREFIX + p + cr) == Some(p) && NoNewline(PREFIX + p + cr)
  {
    var line := PREFIX + p + cr;
    if cr == "" {
      assert line == PREFIX + p;
      assert p != "" ==> line[|line| - 1] == p[|p| - 1];
    }
    PayloadMeaning(line, p);
  }

  lemma PayloadsCons(line: string, lines: seq<string>)
    ensures Payloads([line] + lines) == (if Payload(line).Some? then [Payload(line).value] else []) + Payloads(lines)
  {
    assert ([line] + lines)[1..] == lines;
  }

  lemma NoPayload(cr: string)
    requires cr == "" || cr == "\r"
    ensures Payload(cr) == None
  {
  }

  lemma {:induction false} EventsSplit(payloads: seq<string>, cr: string)
    requires cr == "" || cr == "\r"
    requires forall i :: 0 <= i < |payloads| ==> Sendable(payloads[i], cr + "\n")
    ensures var r := SplitLines(Events(payloads, cr + "\n")); Payloads(r.lines) == payloads && r.rest == ""
  {
    if payloads != [] {
      hide Sendable, SplitLines, Payloads;
      EventsSplit(payloads[1..], cr);
      OneEvent(payloads[0], cr, Events(payloads[1..], cr + "\n"));
      assert payloads == [payloads[0]] + payloads[1..];
    }
  }

  /** Round trip: whatever a service sends as events arrives, in order and unchanged,
      however the response is cut into callbacks and whichever way its lines end. */
  lemma EventsArrive(payloads: seq<string>, cr: string, chunks: seq<string>)
    requires cr == "" || cr == "\r"
    requires forall i :: 0 <= i < |payloads| ==> Sendable(payloads[i], cr + "\n")
    requires Concat(chunks) == Events(payloads, cr + "\n")
    ensures Stream("", chunks) == (payloads, "")
  {
    hide Sendable, SplitLines, Payloads, Stream, Events, Concat;
    EventsSplit(payloads, cr);
    StreamIgnoresChunking("", chunks);
    assert "" + Concat(chunks) == Concat(chunks);
  }

  lemma NothingToFind(s: string)
    requires NoNewline(s)
    ensures FindNewline(s) == |s|
  {
  }

  lemma PayloadsOfNothing()
    ensures Payloads([]) == []
  {
  }

  lemma PayloadsSnoc(ls: seq<string>, line: string)
    ensures Payloads(ls + [line]) == Payloads(ls) + (if Payload(line).Some? then [Payload(line).value] else [])
  {
    PayloadsAppend(ls, [line]);
    hide Payload;
    assert [line][1..] == [];
  }

  // ---------------------------------------------------------------- JSON strings

  /** Code units of a JSON text. */
  type Code = x: int | 0 <= x < 0x11_0000

  const QUOTE: Code := 0x22
  const SLASH: Code := 0x2F
  const BACKSLASH: Code := 0x5C
  const BS: Code := 0x08
  const TAB: Code := 0x09
  const LF: Code := 0x0A
  const FF: Code := 0x0C
  const CR: Code := 0x0D

  function EscapeCode(c: Code): seq<Code>
  {
    if c == QUOTE then [BACKSLASH, QUOTE]
    else if c == BACKSLASH then [BACKSLASH, BACKSLASH]
    else if c == LF then [BACKSLASH, 'n' as int]
    else if c == CR then [BACKSLASH, 'r' as int]
    else if c == TAB then [BACKSLASH, 't' as int]
    else [c]
  }

  function Escape(s: seq<Code>): seq<Code>
  {
    if s == [] then [] else EscapeCode(s[0]) + Escape(s[1..])
  }

  method EscapeLoop(s: seq<Code>) returns (out: seq<Code>)
    ensures out == Escape(s)
  {
    hide EscapeCode;
    out := [];
    for i := 0 to |s|
      invariant out + Escape(s[i..]) == Escape(s)
    {
      assert s[i..][1..] == s[i + 1..];
      out := out + EscapeCode(s[i]);
    }
  }

  /** The single-letter escapes of section 7 of RFC 8259. */
  function UnescapeLetter(c: Code): Option<Code>
  {
    if c in {QUOTE, BACKSLASH, SLASH} then Some(c)
    else if c == 'b' as int then Some(BS)
    else if c == 'f' as int then Some(FF)
    else if c == 'n' as int then Some(LF)
    else if c == 'r' as int then Some(CR)
    else if c == 't' as int then Some(TAB)
    else None
  }

  function HexDigit(c: Code): Option<nat>
  {
    if '0' as int <= c <= '9' as int then Some(c - '0' as int)
    else if 'a' as int <= c <= 'f' as int then Some(c - 'a' as int + 10)
    else if 'A' as int <= c <= 'F' as int then Some(c - 'A' as int + 10)
    else None
  }

  /** A `uXXXX` escape names one code unit. */
  function UnescapeHex(s: seq<Code>): Option<Code>
    requires |s| == 4
  {
    var a, b, c, d := HexDigit(s[0]), HexDigit(s[1]), HexDigit(s[2]), HexDigit(s[3]);
    if a.Some? && b.Some? && c.Some? && d.Some? && a.value < 16 && b.value < 16 && c.value < 16 && d.value < 16
    then Some(((a.value * 16 + b.value) * 16 + c.value) * 16 + d.value) else None
  }

  function Prepend(c: Code, r: Option<seq<Code>>): Option<seq<Code>>
  {
    if r.Some? then Some([c] + r.value) else None
  }

  /** The text of a string body; control characters stand for themselves. */
  function Decode(s: seq<Code>): Option<seq<Code>>
  {
    if s == [] then Some([])
    else if s[0] == QUOTE then None
    else if s[0] != BACKSLASH then Prepend(s[0], Decode(s[1..]))
    else if |s| >= 2 && UnescapeLetter(s[1]).Some? then Prepend(UnescapeLetter(s[1]).value, Decode(s[2..]))
    else if |s| >= 6 && s[1] == 'u' as int && UnescapeHex(s[2..6]).Some? then
      Prepend(UnescapeHex(s[2..6]).value, Decode(s[6..]))
    else None
  }

  /** Escaping loses nothing: decoding gives every string back. */
  lemma {:induction false} EscapeRoundTrip(s: seq<Code>)
    ensures Decode(Escape(s)) == Some(s)
  {
    if s != [] {
      EscapeRoundTrip(s[1..]);
      var head, tail := EscapeCode(s[0]), Escape(s[1..]);
      assert Escape(s) == head + tail;
      assert (head + tail)[|head|..] == tail;
      assert s == [s[0]] + s[1..];
    }
  }

  /** Where a scanner that reads a string body stops: the first quote that is not
      part of an escape. */
  function ScanString(s: seq<Code>): nat
  {
    if s == [] || s[0] == QUOTE then 0
    else if s[0] == BACKSLASH && |s| >= 2 then 2 + ScanString(s[2..])
    else 1 + ScanString(s[1..])
  }

  /** The body cannot end the string early or swallow its closing quote, whatever
      follows. */
  lemma {:induction false} ScannerStopsAtClosingQuote(s: seq<Code>, tail: seq<Code>)
    ensures ScanString(Escape(s) + [QUOTE] + tail) == |Escape(s)|
  {
    if s == [] {
      assert Escape(s) + [QUOTE] + tail == [QUOTE] + tail;
    } else {
      ScannerStopsAtClosingQuote(s[1..], tail);
      var head, rest := EscapeCode(s[0]), Escape(s[1..]) + [QUOTE] + tail;
      assert Escape(s) + [QUOTE] + tail == head + rest;
      assert (head + rest)[|head|..] == rest;
    }
  }

  /** The grammar of string bodies in section 7 of RFC 8259. */
  predicate ValidBody(s: seq<Code>)
  {
    s == [] ||
    (if s[0] == BACKSLASH then
       || (|s| >= 2 && UnescapeLetter(s[1]).Some? && ValidBody(s[2..]))
       || (|s| >= 6 && s[1] == 'u' as int && UnescapeHex(s[2..6]).Some? && ValidBody(s[6..]))
     else s[0] >= 0x20 && s[0] != QUOTE && ValidBody(s[1..]))
  }

  predicate Printable(c: Code)
  {
    c >= 0x20 || c in {LF, CR, TAB}
  }

  /** The request body is valid JSON there exactly if the prompt has no control
      characters other than the three that are escaped. */
  lemma {:induction false} EscapedIsValidIffPrintable(s: seq<Code>)
    ensures ValidBody(Escape(s)) <==> forall i :: 0 <= i < |s| ==> Printable(s[i])
  {
    if s != [] {
      EscapedIsValidIffPrintable(s[1..]);
      var head, tail := EscapeCode(s[0]), Escape(s[1..]);
      assert Escape(s) == head + tail;
      assert (head + tail)[|head|..] == tail;
      assert (forall i :: 0 <= i < |s| ==> Printable(s[i])) <==>
             Printable(s[0]) && forall i :: 0 <= i < |s| - 1 ==> Printable(s[1..][i]) by {
        assert s == [s[0]] + s[1..];
      }
    }
  }

  /** Nothing but the five special characters is changed. */
  lemma {:induction false} EscapeLeavesPlainText(s: seq<Code>)
    requires forall i :: 0 <= i < |s| ==> s[i] !in {0x22, 0x5C, 0x0A, 0x0D, 0x09}
    ensures Escape(s) == s
  {
    if s != [] {
      EscapeLeavesPlainText(s[1..]);
      assert s[0] !in {0x22, 0x5C, 0x0A, 0x0D, 0x09};
    }
  }

  /** The five are written as a backslash and a letter or themselves. */
  lemma EscapeOfSpecials()
    ensures EscapeCode(0x22) == [0x5C, 0x22] && EscapeCode(0x5C) == [0x5C, 0x5C]
    ensures EscapeCode(0x0A) == [0x5C, 0x6E] && EscapeCode(0x0D) == [0x5C, 0x72] && EscapeCode(0x09) == [0x5C, 0x74]
  {
  }

  /** A prompt of one control character gives a request body that is not JSON. */
  lemma ControlCharacterBreaksBody()
    ensures !ValidBody(Escape([0x01]))
  {
    EscapedIsValidIffPrintable([0x01]);
    assert !Printable([0x01][0]);
  }
}
