/**
 Line framing of the YNCA byte stream (pkg/ynca/client.go).

 A character of a `string` stands for one byte of the stream. `SplitCrlf` is the
 split function the client installs in its scanner; `ScanStream` is the scanner
 driving it over a buffer that grows read by read. `Frame` is the reference: the
 lines of a whole stream that ends in EOF.
*/
module Framing {

  /** A CRLF pair starts at index i of s. */
  predicate CrlfAt(s: string, i: int) {
    0 <= i < |s| - 1 && s[i] == '\r' && s[i + 1] == '\n'
  }

  predicate HasCrlf(s: string) {
    exists i | 0 <= i < |s| :: CrlfAt(s, i)
  }

  const CRLF := "\r\n"

  /** Where the first CRLF of s starts, or |s| when there is none. */
  function FirstCrlf(s: string): (i: nat)
    ensures i <= |s|
    ensures i < |s| ==> CrlfAt(s, i)
    ensures forall j | 0 <= j < i :: !CrlfAt(s, j)
  {
    if s == "" then 0
    else if CrlfAt(s, 0) then 0
    else
      var i := 1 + FirstCrlf(s[1..]);
      assert forall j | 1 <= j < i :: CrlfAt(s, j) == CrlfAt(s[1..], j - 1);
      i
  }

  /** What a scanner split function answers: it needs more bytes, or it consumed
      `advance` bytes and yields a line. */
  datatype Split = More | Token(advance: nat, line: string)

  /** A final unterminated line loses one trailing CR. */
  function TrimCr(s: string): string {
    if s != "" && s[|s| - 1] == '\r' then s[..|s| - 1] else s
  }

  function SplitOf(data: string, atEof: bool): Split {
    var i := FirstCrlf(data);
    if i < |data| then Token(i + 2, data[..i])
    else if atEof && data != "" then Token(|data|, TrimCr(data))
    else More
  }

  /** The split function as the client runs it: an index loop over the buffer. */
  method SplitCrlf(data: string, atEof: bool) returns (r: Split)
    ensures r == SplitOf(data, atEof)
  {
    var i := 0;
    while i + 1 < |data|
      invariant 0 <= i <= |data|
      invariant forall j | 0 <= j < i :: !CrlfAt(data, j)
    {
      if data[i] == '\r' && data[i + 1] == '\n' {
        assert CrlfAt(data, i);
        return Token(i + 2, data[..i]);
      }
      i := i + 1;
    }
    if atEof && |data| > 0 {
      if data[|data| - 1] == '\r' {
        return Token(|data|, data[..|data| - 1]);
      }
      return Token(|data|, data);
    }
    return More;
  }

  /** The lines of a whole stream that ends in EOF. */
  function Frame(s: string): (lines: seq<string>)
    ensures forall l | l in lines :: !HasCrlf(l)
  {
    if s == "" then []
    else
      var i := FirstCrlf(s);
      if i < |s| then
        assert forall j :: CrlfAt(s[..i], j) ==> CrlfAt(s, j);
        assert !HasCrlf(s[..i]);
        [s[..i]] + Frame(s[i + 2..])
      else
        assert forall j :: CrlfAt(TrimCr(s), j) ==> CrlfAt(s, j);
        [TrimCr(s)]
  }

  function Concat(parts: seq<string>): string {
    if parts == [] then "" else parts[0] + Concat(parts[1..])
  }

  /** A line the splitter finds before the end of the stream stays what it is
      whatever bytes arrive behind it. */
  lemma {:induction false} SplitIsStable(data: string, more: string)
    requires FirstCrlf(data) < |data|
    ensures SplitOf(data + more, false) == SplitOf(data, false)
    ensures Frame(data + more) == [data[..FirstCrlf(data)]] + Frame(data[FirstCrlf(data) + 2..] + more)
  {
    var i := FirstCrlf(data);
    assert CrlfAt(data + more, i);
    assert forall j | 0 <= j < i :: CrlfAt(data + more, j) == CrlfAt(data, j);
    assert FirstCrlf(data + more) == i;
    assert (data + more)[..i] == data[..i];
    assert (data + more)[i + 2..] == data[i + 2..] + more;
  }

  /**
   The scanner: `chunks` are the byte chunks the connection delivers, in order,
   before EOF. The buffer holds what arrived and is not yet consumed; the split
   function is applied until it asks for more, then the next chunk is appended.
   However the stream is cut into reads, the lines are those of the whole stream.
  */
  method ScanStream(chunks: seq<string>) returns (lines: seq<string>)
    ensures lines == Frame(Concat(chunks))
  {
    lines := [];
    var buffer := "";
    var k := 0;
    assert chunks[0..] == chunks;
    assert buffer + Concat(chunks) == Concat(chunks);
    while true
      invariant 0 <= k <= |chunks|
      invariant lines + Frame(buffer + Concat(chunks[k..])) == Frame(Concat(chunks))
      decreases |chunks| - k, |buffer|
    {
      var atEof := k == |chunks|;
      var split := SplitCrlf(buffer, atEof);
      ghost var pending := Concat(chunks[k..]);
      if split.Token? {
        SplitTakesALine(buffer, pending, atEof);
        lines, buffer := lines + [split.line], buffer[split.advance..];
      } else if atEof {
        assert buffer + pending == "";
        return;
      } else {
        assert buffer + pending == (buffer + chunks[k]) + Concat(chunks[k + 1..]);
        buffer, k := buffer + chunks[k], k + 1;
      }
    }
  }

  lemma {:induction false} SplitTakesALine(buffer: string, pending: string, atEof: bool)
    requires atEof ==> pending == ""
    requires SplitOf(buffer, atEof).Token?
    ensures var split := SplitOf(buffer, atEof);
      && 0 < split.advance <= |buffer|
      && Frame(buffer + pending) == [split.line] + Frame(buffer[split.advance..] + pending)
  {
    if FirstCrlf(buffer) < |buffer| {
      SplitIsStable(buffer, pending);
    } else {
      assert buffer + pending == buffer && buffer[|buffer|..] + pending == "";
    }
  }

  /** What a peer puts on the wire for these lines. */
  function Render(lines: seq<string>): string {
    if lines == [] then "" else lines[0] + CRLF + Render(lines[1..])
  }

  lemma {:induction false} FrameOneLine(line: string, rest: string)
    requires !HasCrlf(line)
    ensures Frame(line + CRLF + rest) == [line] + Frame(rest)
  {
    var s := line + CRLF + rest;
    assert CrlfAt(s, |line|);
    forall j | 0 <= j < |line| ensures !CrlfAt(s, j) {
      if j < |line| - 1 { assert CrlfAt(s, j) == CrlfAt(line, j); }
    }
    assert FirstCrlf(s) == |line|;
    assert s[..|line|] == line && s[|line| + 2..] == rest;
  }

  /** Framing gives back exactly the lines that were sent if and only if none of
      them carries a CRLF of its own. */
  lemma {:induction false} FrameInvertsRender(lines: seq<string>)
    ensures Frame(Render(lines)) == lines <==> (forall l | l in lines :: !HasCrlf(l))
  {
    if forall l | l in lines :: !HasCrlf(l) {
      FrameRenderOfCleanLines(lines);
    }
  }

  /** A last line that the stream cuts off, before its CRLF or in the middle of it, is
      still a line. */
  lemma {:induction false} LastLineNeedsNoCrlf(lines: seq<string>, last: string)
    requires !HasCrlf(last) && forall l | l in lines :: !HasCrlf(l)
    ensures Frame(Render(lines) + (last + "\r")) == lines + [last]
    ensures last != "" && last[|last| - 1] != '\r' ==> Frame(Render(lines) + last) == lines + [last]
  {
    NoCrlfAtTheEnd(last);
    FrameBeforeTheEnd(lines, last + "\r");
    FrameBeforeTheEnd(lines, last);
    assert TrimCr(last + "\r") == last;
  }

  lemma {:induction false} FrameBeforeTheEnd(lines: seq<string>, rest: string)
    requires forall l | l in lines :: !HasCrlf(l)
    ensures Frame(Render(lines) + rest) == lines + Frame(rest)
  {
    hide Frame;
    if lines == [] {
      assert Render(lines) + rest == rest && lines + Frame(rest) == Frame(rest);
    } else {
      FrameBeforeTheEnd(lines[1..], rest);
      FrameOneLine(lines[0], Render(lines[1..]) + rest);
      assert Render(lines) + rest == lines[0] + CRLF + (Render(lines[1..]) + rest);
      assert lines + Frame(rest) == [lines[0]] + (lines[1..] + Frame(rest));
    }
  }

  lemma {:induction false} NoCrlfAtTheEnd(last: string)
    requires !HasCrlf(last)
    ensures FirstCrlf(last) == |last| && FirstCrlf(last + "\r") == |last| + 1
  {
    var s := last + "\r";
    assert forall j :: CrlfAt(s, j) ==> CrlfAt(last, j);
  }

  lemma {:induction false} FrameRenderOfCleanLines(lines: seq<string>)
    requires forall l | l in lines :: !HasCrlf(l)
    ensures Frame(Render(lines)) == lines
  {
    FrameBeforeTheEnd(lines, "");
    assert Render(lines) + "" == Render(lines);
  }
}
