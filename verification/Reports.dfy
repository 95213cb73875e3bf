/**
 YNCA reports, @SUBUNIT:FUNCTION=value: the client's parser (pkg/ynca/client.go) and
 the tolerant one of the transcript scanner (internal/cli/ynca_diff.go).

 A `char` is a rune. `up` is the upper-case mapping of a rune, left open.
*/
module Reports {

  import opened Options
  import opened Text

  // ----- reports --------------------------------------------------------------

  datatype Report = Report(subunit: string, name: string, value: string)

  /** Splits @SUBUNIT:FUNCTION=value. */
  function ParseLine(line: string): Option<Report> {
    if line == "" || line[0] != '@' then None else ParseBody(line[1..])
  }

  // Neither the subunit nor the function may be empty.
  function ParseBody(body: string): Option<Report> {
    var colon, eq := IndexOf(body, ':'), IndexOf(body, '=');
    if colon < 0 || eq < 0 || colon > eq then None
    else if colon == 0 || colon + 1 == eq then None
    else Some(Report(body[..colon], body[colon + 1..eq], body[eq + 1..]))
  }

  function Key(r: Report): string {
    r.subunit + ":" + r.name
  }

  function Render(r: Report): string {
    "@" + (Key(r) + "=" + r.value)
  }

  lemma {:induction false} CutAt(s: string, i: nat)
    requires i < |s|
    ensures s == s[..i] + [s[i]] + s[i + 1..]
  {
  }

  lemma {:induction false} SameIndex(a: string, c: char, b: string)
    requires c !in b
    ensures IndexOf(a + b, c) == IndexOf(a, c)
  {
    var i := IndexOf(a, c);
    if i >= 0 {
      assert (a + b)[..i] == a[..i];
      IndexIs(a + b, c, i);
    }
  }

  predicate Separable(r: Report) {
    r.subunit != "" && r.name != "" && ':' !in r.subunit && '=' !in r.subunit && '=' !in r.name
  }

  lemma {:induction false} SeparableReportsParse(r: Report)
    requires Separable(r)
    ensures ParseLine(Render(r)) == Some(r)
  {
    var body := Key(r) + "=" + r.value;
    assert Render(r)[1..] == body;
    var colon, eq := |r.subunit|, |Key(r)|;
    assert body[..eq] == Key(r) && body[..colon] == Key(r)[..colon] == r.subunit;
    assert body[colon] == Key(r)[colon] == ':' && body[eq] == '=';
    IndexIs(body, ':', colon);
    IndexIs(body, '=', eq);
    assert body[colon + 1..eq] == Key(r)[colon + 1..] == r.name && body[eq + 1..] == r.value;
  }

  lemma {:induction false} BetweenSeparators(body: string, colon: nat, eq: nat)
    requires colon < eq < |body| && body[colon] == ':' && body[eq] == '='
    requires ':' !in body[..colon] && '=' !in body[..eq]
    ensures body == body[..colon] + ":" + body[colon + 1..eq] + "=" + body[eq + 1..]
    ensures '=' !in body[..colon] && '=' !in body[colon + 1..eq]
  {
    var front := body[..eq];
    CutAt(body, eq);
    CutAt(front, colon);
    assert front[..colon] == body[..colon] && front[colon + 1..] == body[colon + 1..eq];
  }

  lemma {:induction false} AcceptedBodies(body: string)
    requires ParseBody(body).Some?
    ensures Key(ParseBody(body).value) + "=" + ParseBody(body).value.value == body && Separable(ParseBody(body).value)
  {
    BetweenSeparators(body, IndexOf(body, ':'), IndexOf(body, '='));
  }

  lemma {:induction false} RenderOfBody(line: string, r: Report)
    requires line != "" && line[0] == '@' && Key(r) + "=" + r.value == line[1..]
    ensures Render(r) == line
  {
    CutAt(line, 0);
  }

  lemma {:induction false} AcceptedLinesAreRendered(line: string)
    requires ParseLine(line).Some?
    ensures Render(ParseLine(line).value) == line && Separable(ParseLine(line).value)
  {
    AcceptedBodies(line[1..]);
    RenderOfBody(line, ParseLine(line).value);
  }

  /** The parser accepts exactly the rendered reports whose subunit and function are
      not empty and hold no separators, and reads their parts back. */
  lemma {:induction false} ParseLineInvertsRender(r: Report)
    ensures ParseLine(Render(r)) == Some(r) <==> Separable(r)
  {
    if Separable(r) {
      SeparableReportsParse(r);
    } else if ParseLine(Render(r)).Some? {
      AcceptedLinesAreRendered(Render(r));
    }
  }

  // ----- the key of a transcript line -----------------------------------------

  predicate IsQuoting(c: char) {
    c == '"' || c == ','
  }

  function Upper(s: string, up: char -> char): (t: string)
    ensures |t| == |s| && forall i | 0 <= i < |s| :: t[i] == up(s[i])
  {
    seq(|s|, i requires 0 <= i < |s| => up(s[i]))
  }

  /** A line without white space around it and without the quoting some logs add. */
  function Clean(line: string): string {
    TrimRight(TrimSpace(line), IsQuoting)
  }

  function KeyOfReport(r: Report, up: char -> char): string {
    "@" + Upper(r.subunit, up) + ":" + Upper(r.name, up)
  }

  /** The key under which the scanner counts a line, if it does. */
  function KeyOf(line: string, up: char -> char): Option<string> {
    KeyOfReply(Clean(line), up)
  }

  /** The key of a reply that the report parser accepts. */
  function KeyOfReply(line: string, up: char -> char): Option<string> {
    match ParseLine(line)
    case None => None
    case Some(r) => Some(KeyOfReport(r, up))
  }

  predicate SameFunction(a: Option<Report>, b: Option<Report>) {
    (a.Some? <==> b.Some?) && (a.Some? ==> a.value.subunit == b.value.subunit && a.value.name == b.value.name)
  }

  /** Cutting a tail without separators changes no subunit and no function. */
  lemma {:induction false} TailDoesNotMatter(body: string, tail: string)
    requires ':' !in tail && '=' !in tail
    ensures SameFunction(ParseBody(body + tail), ParseBody(body))
  {
    SameIndex(body, ':', tail);
    SameIndex(body, '=', tail);
    var colon, eq := IndexOf(body, ':'), IndexOf(body, '=');
    if 0 <= colon <= eq {
      assert (body + tail)[..colon] == body[..colon] && (body + tail)[colon + 1..eq] == body[colon + 1..eq];
    }
  }

  /** Trimming a report changes its value at most. */
  lemma {:induction false} TrimmingKeepsTheFunction(s: string)
    requires s != "" && s[0] == '@'
    ensures SameFunction(ParseLine(TrimRight(TrimRight(s, IsSpace), IsQuoting)), ParseLine(s))
  {
    var t := TrimRight(s, IsSpace);
    var c := TrimRight(t, IsQuoting);
    TrimRightKeepsTheFirst(s, IsSpace);
    TrimRightKeepsTheFirst(t, IsQuoting);
    var tail := s[|c|..];
    forall i | 0 <= i < |tail| ensures tail[i] != ':' && tail[i] != '=' {
      assert |c| + i < |t| ==> s[|c| + i] == t[|c| + i];
    }
    TailDoesNotMatter(c[1..], tail);
    assert s[1..] == c[1..] + tail;
  }

  lemma {:induction false} NotAReport(line: string, up: char -> char)
    requires line == "" || line[0] != '@'
    ensures ParseLine(line).None? && KeyOfReply(line, up).None?
  {
  }

  lemma {:induction false} SameFunctionSameKey(a: string, b: string, up: char -> char)
    requires SameFunction(ParseLine(a), ParseLine(b))
    ensures KeyOfReply(a, up) == KeyOfReply(b, up)
  {
  }

  lemma {:induction false} ScannerTrims(line: string, up: char -> char)
    ensures KeyOf(line, up) == KeyOfReply(TrimLeft(line, IsSpace), up)
  {
    hide ParseLine, KeyOfReply, IsSpace, IsQuoting, TrimLeft, TrimRight, SameFunction;
    var s := TrimLeft(line, IsSpace);
    if s != "" && s[0] == '@' {
      TrimmingKeepsTheFunction(s);
      SameFunctionSameKey(Clean(line), s, up);
    } else {
      NotAReport(s, up);
      NotAReport(Clean(line), up);
    }
  }

  /** The scanner counts a line exactly as the report parser reads it once leading
      white space is gone. */
  lemma {:induction false} ScannerAgreesWithParser(line: string, up: char -> char)
    ensures KeyOf(line, up) == KeyOfReply(TrimLeft(line, IsSpace), up)
    ensures KeyOf(line, up) == KeyOfReply(line, up) <==>
      line == "" || !IsSpace(line[0]) || KeyOfReply(TrimLeft(line, IsSpace), up).None?
  {
    hide KeyOf, KeyOfReply, TrimLeft;
    ScannerTrims(line, up);
    if line == "" {
    } else if IsSpace(line[0]) {
      NotAReport(line, up);
    } else {
      NothingToTrim(line, IsSpace);
    }
  }

  /** A comment reports nothing. */
  lemma {:induction false} CommentsCountForNothing(line: string, up: char -> char)
    requires line != "" && line[0] == '#'
    ensures KeyOf(line, up).None?
  {
    hide TrimLeft, KeyOf;
    ScannerAgreesWithParser(line, up);
    NothingToTrim(line, IsSpace);
  }

  // ----- line ends ------------------------------------------------------------

  function DropCr(line: string): string {
    if line != "" && line[|line| - 1] == '\r' then line[..|line| - 1] else line
  }

  /** A trailing CR is white space, so dropping it changes no key. */
  lemma {:induction false} SpaceAtTheEndDoesNotMatter(line: string)
    requires line != "" && IsSpace(line[|line| - 1])
    ensures TrimSpace(line[..|line| - 1]) == TrimSpace(line)
  {
    hide IsSpace, TrimLeft;
    var front, s := line[..|line| - 1], TrimLeft(line, IsSpace);
    var k, m := |line| - |s|, |s| - 1;
    if s == "" {
      assert TrimLeft(front, IsSpace) == "";
    } else {
      assert s[m] == line[|line| - 1] && front == line[..k] + s[..m];
      TrimLeftIs(line[..k], s[..m], IsSpace);
    }
  }

  lemma {:induction false} CrDoesNotMatter(line: string, up: char -> char)
    ensures KeyOf(DropCr(line), up) == KeyOf(line, up)
  {
    if DropCr(line) != line {
      SpaceAtTheEndDoesNotMatter(line);
    }
  }

  /** The key under which the scanner counts a line. */
  function KeyWith(up: char -> char): string -> Option<string> {
    line => KeyOf(line, up)
  }

  /** The same as the scanner's loop computes it. */
  method KeyOfLine(text: string, up: char -> char) returns (key: Option<string>)
    ensures key == KeyOf(text, up)
  {
    var line := TrimSpace(text);
    line := TrimRight(line, IsQuoting);
    key := KeyOfCleanLine(line, up);
  }

  method KeyOfCleanLine(line: string, up: char -> char) returns (key: Option<string>)
    ensures key == KeyOfReply(line, up)
  {
    if line == "" || line[0] == '#' || line[0] != '@' {
      return None;
    }
    var body := line[1..];
    var colon, eq := IndexOf(body, ':'), IndexOf(body, '=');
    if colon < 0 || eq < 0 || colon > eq {
      return None;
    }
    var subunit, name := body[..colon], body[colon + 1..eq];
    if subunit == "" || name == "" {
      return None;
    }
    return Some("@" + Upper(subunit, up) + ":" + Upper(name, up));
  }
}
