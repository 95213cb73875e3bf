/**
 YNCA transcripts: the dump of a receiver's replies (internal/cli/ynca_dump.go), and
 the functions that one transcript reports and another does not
 (internal/cli/ynca_diff.go).
*/
module Transcript {

  import opened Options
  import opened Reports
  import opened Sorting
  import opened Text

  // ----- writing --------------------------------------------------------------

  datatype Exchange = Exchange(request: string, lines: seq<string>)

  /** Quotes a line so that no LF is left in it. */
  function Quote(s: string): (q: string)
    ensures '\n' !in q
  {
    if s == "" then ""
    else (if s[0] == '\n' then "\\n" else if s[0] == '"' || s[0] == '\\' then ['\\', s[0]] else [s[0]]) + Quote(s[1..])
  }

  /** Whether a reply goes into the transcript as it is. */
  predicate Recorded(line: string) {
    '\n' !in line && !("@UNDEFINED" <= line) && !("@RESTRICTED" <= line)
  }

  /** The transcript line for a reply. */
  function RecordOf(request: string, line: string): string {
    if Recorded(line) then line
    else if '\n' in line then "# " + request + " -> " + ("\"" + Quote(line) + "\"")
    else "# " + request + " -> " + line
  }

  /** A reply stands in the transcript as it is, if and only if it is one line and no
      refusal; otherwise a comment names its request. */
  lemma {:induction false} RecordMeans(request: string, line: string)
    requires '\n' !in request
    ensures var r := RecordOf(request, line);
      && '\n' !in r
      && (r == line <==> '\n' !in line && !("@UNDEFINED" <= line) && !("@RESTRICTED" <= line))
      && (r != line ==> "# " + request + " -> " <= r)
  {
    var front := "# " + request + " -> ";
    hide Quote;
    if '\n' in line {
      CommentOf(front, "\"" + Quote(line) + "\"");
    } else if !Recorded(line) {
      CommentOf(front, line);
      assert line[0] == '@';
    }
  }

  lemma {:induction false} CommentOf(front: string, text: string)
    requires front != ""
    ensures front <= front + text && (front + text)[0] == front[0]
  {
  }

  function Unquote(q: string): string {
    if q == "" then ""
    else if q[0] == '\\' && |q| >= 2 then [if q[1] == 'n' then '\n' else q[1]] + Unquote(q[2..])
    else [q[0]] + Unquote(q[1..])
  }

  /** Quoting loses nothing. */
  lemma {:induction false} UnquoteInvertsQuote(s: string)
    ensures Unquote(Quote(s)) == s
  {
    if s == "" {
    } else {
      UnquoteInvertsQuote(s[1..]);
      var q, rest := Quote(s), Quote(s[1..]);
      if s[0] == '\n' {
        assert q == "\\n" + rest && q[2..] == rest;
      } else if s[0] == '"' || s[0] == '\\' {
        assert q == ['\\', s[0]] + rest && q[2..] == rest;
      } else {
        assert q == [s[0]] + rest && q[1..] == rest;
      }
    }
  }

  function RecordsOf(request: string, lines: seq<string>): seq<string> {
    if lines == [] then ["# " + request + " -> (no reply)"]
    else seq(|lines|, i requires 0 <= i < |lines| => RecordOf(request, lines[i]))
  }

  /** The text with these lines, each ended by LF. */
  function Unlines(records: seq<string>): string {
    if records == [] then ""
    else Unlines(records[..|records| - 1]) + records[|records| - 1] + "\n"
  }

  lemma {:induction false} UnlinesAppend(a: seq<string>, b: seq<string>)
    ensures Unlines(a + b) == Unlines(a) + Unlines(b)
  {
    if b == [] {
      assert a + b == a;
    } else {
      var m := |b| - 1;
      assert (a + b)[..|a + b| - 1] == a + b[..m];
      UnlinesAppend(a, b[..m]);
    }
  }

  /** The transcript line for a reply, branch by branch. */
  method Record(request: string, line: string) returns (record: string)
    ensures record == RecordOf(request, line)
  {
    if '\n' in line {
      return "# " + request + " -> " + ("\"" + Quote(line) + "\"");
    }
    if "@UNDEFINED" <= line || "@RESTRICTED" <= line {
      return "# " + request + " -> " + line;
    }
    return line;
  }

  method WriteDumpReplies(w: string, request: string, lines: seq<string>) returns (out: string)
    ensures out == w + Unlines(RecordsOf(request, lines))
  {
    ghost var records := RecordsOf(request, lines);
    if |lines| == 0 {
      OneMoreLine(w, records, 0);
      return w + ("# " + request + " -> (no reply)") + "\n";
    }
    out := w;
    for i := 0 to |lines|
      invariant out == w + Unlines(records[..i])
    {
      var record := Record(request, lines[i]);
      OneMoreLine(w, records, i);
      out := out + record + "\n";
    }
    assert records[..|lines|] == records;
  }

  lemma {:induction false} OneMoreLine(w: string, records: seq<string>, i: nat)
    requires i < |records|
    ensures w + Unlines(records[..i + 1]) == w + Unlines(records[..i]) + records[i] + "\n"
    ensures i == 0 ==> Unlines(records[..i]) == ""
    ensures records[..|records|] == records
  {
    assert records[..i + 1][..i] == records[..i];
  }

  function AllRecords(exchanges: seq<Exchange>): seq<string> {
    if exchanges == [] then []
    else
      var m := |exchanges| - 1;
      AllRecords(exchanges[..m]) + RecordsOf(exchanges[m].request, exchanges[m].lines)
  }

  method Dump(exchanges: seq<Exchange>) returns (text: string)
    ensures text == Unlines(AllRecords(exchanges))
  {
    text := "";
    for i := 0 to |exchanges|
      invariant text == Unlines(AllRecords(exchanges[..i]))
    {
      text := WriteDumpReplies(text, exchanges[i].request, exchanges[i].lines);
      assert exchanges[..i + 1][..i] == exchanges[..i];
      UnlinesAppend(AllRecords(exchanges[..i]), RecordsOf(exchanges[i].request, exchanges[i].lines));
    }
    assert exchanges[..|exchanges|] == exchanges;
  }

  // ----- scanning -------------------------------------------------------------

  /** The lines of a text; the last one need not end in LF. */
  function LinesOf(text: string): seq<string>
    decreases |text|
  {
    var i := IndexOf(text, '\n');
    if i >= 0 then [DropCr(text[..i])] + LinesOf(text[i + 1..])
    else if text == "" then []
    else [DropCr(text)]
  }

  /** The keys of the lines that have one. */
  function KeysOf(lines: seq<string>, key: string -> Option<string>): set<string> {
    set line | line in lines && key(line).Some? :: key(line).value
  }

  lemma {:induction false} KeysOfAppend(a: seq<string>, b: seq<string>, key: string -> Option<string>)
    ensures KeysOf(a + b, key) == KeysOf(a, key) + KeysOf(b, key)
  {
  }

  lemma {:induction false} KeysOfCons(line: string, lines: seq<string>, key: string -> Option<string>)
    ensures KeysOf([line] + lines, key) == KeysOf(lines, key) + if key(line).Some? then {key(line).value} else {}
  {
    KeysOfAppend([line], lines, key);
    assert KeysOf([line], key) == if key(line).Some? then {key(line).value} else {};
  }

  lemma {:induction false} LinesOfRest(rest: string)
    requires rest != ""
    ensures
      var i := IndexOf(rest, '\n');
      LinesOf(rest) == if i >= 0 then [DropCr(rest[..i])] + LinesOf(rest[i + 1..]) else [DropCr(rest)] + LinesOf("")
  {
  }

  /** The scanner's loop, over the key function of a line (Reports.KeyOfLine). */
  method ScanLines(text: string, key: string -> Option<string>) returns (keys: set<string>)
    ensures keys == KeysOf(LinesOf(text), key)
  {
    keys := {};
    var rest := text;
    while rest != ""
      invariant keys + KeysOf(LinesOf(rest), key) == KeysOf(LinesOf(text), key)
      decreases |rest|
    {
      LinesOfRest(rest);
      var i := IndexOf(rest, '\n');
      var line, after := DropCr(rest), "";
      if i >= 0 {
        line, after := DropCr(rest[..i]), rest[i + 1..];
      }
      KeysOfCons(line, LinesOf(after), key);
      var k := key(line);
      if k.Some? {
        keys := keys + {k.value};
      }
      rest := after;
    }
  }

  method ScanTranscript(text: string, up: char -> char) returns (keys: set<string>)
    ensures keys == KeysOf(LinesOf(text), KeyWith(up))
  {
    keys := ScanLines(text, KeyWith(up));
  }

  // ----- a dump read back -----------------------------------------------------

  lemma {:induction false} LinesOfLine(line: string, rest: string)
    requires '\n' !in line
    ensures LinesOf(line + "\n" + rest) == [DropCr(line)] + LinesOf(rest)
  {
    var text := line + "\n" + rest;
    assert forall k | 0 <= k < |line| :: text[k] == line[k];
    IndexIs(text, '\n', |line|);
    assert text[..|line|] == line && text[|line| + 1..] == rest;
  }

  predicate OneLine(records: seq<string>) {
    forall i | 0 <= i < |records| :: '\n' !in records[i]
  }

  lemma {:induction false} UnlinesSnoc(records: seq<string>, last: string, rest: string)
    ensures Unlines(records + [last]) + rest == Unlines(records) + (last + "\n" + rest)
  {
    assert (records + [last])[..|records|] == records;
  }

  /** Scanning a text made of records finds the keys of the records. */
  lemma {:induction false} ScanOfUnlines(records: seq<string>, rest: string, key: string -> Option<string>)
    requires OneLine(records)
    requires forall line :: key(DropCr(line)) == key(line)
    ensures KeysOf(LinesOf(Unlines(records) + rest), key) == KeysOf(records, key) + KeysOf(LinesOf(rest), key)
    decreases |records|
  {
    if records == [] {
      assert Unlines(records) + rest == rest;
    } else {
      var m := |records| - 1;
      var last := records[m];
      UnlinesSnoc(records[..m], last, rest);
      assert records == records[..m] + [last];
      ScanOfUnlines(records[..m], last + "\n" + rest, key);
      LinesOfLine(last, rest);
      KeysOfCons(DropCr(last), LinesOf(rest), key);
      KeysOfAppend(records[..m], [last], key);
      KeysOfCons(last, [], key);
      assert [last] + [] == [last];
    }
  }

  /** The keys of the replies that went into the transcript as they were. */
  function Supported(exchanges: seq<Exchange>, key: string -> Option<string>): set<string> {
    set e, line | e in exchanges && line in e.lines && Recorded(line) && key(line).Some? :: key(line).value
  }

  /** What the scanner makes of comments and line ends. */
  ghost predicate Scans(key: string -> Option<string>) {
    && (forall line :: key(DropCr(line)) == key(line))
    && (forall line | line != "" && line[0] == '#' :: key(line).None?)
  }

  lemma {:induction false} KeyWithScans(up: char -> char)
    ensures Scans(KeyWith(up))
  {
    forall line ensures KeyWith(up)(DropCr(line)) == KeyWith(up)(line) {
      CrDoesNotMatter(line, up);
    }
    forall line | line != "" && line[0] == '#' ensures KeyWith(up)(line).None? {
      CommentsCountForNothing(line, up);
    }
  }

  function RecordedKeys(lines: seq<string>, key: string -> Option<string>): set<string> {
    set line | line in lines && Recorded(line) && key(line).Some? :: key(line).value
  }

  lemma {:induction false} RecordsOfExchange(e: Exchange, key: string -> Option<string>)
    requires '\n' !in e.request && Scans(key)
    ensures OneLine(RecordsOf(e.request, e.lines))
    ensures KeysOf(RecordsOf(e.request, e.lines), key) == RecordedKeys(e.lines, key)
  {
    var records := RecordsOf(e.request, e.lines);
    forall i | 0 <= i < |e.lines|
      ensures '\n' !in records[i]
      ensures Recorded(e.lines[i]) ==> records[i] == e.lines[i]
      ensures !Recorded(e.lines[i]) ==> key(records[i]).None?
    {
      assert !Recorded(e.lines[i]) ==> records[i][0] == '#';
    }
  }

  lemma {:induction false} SupportedSnoc(exchanges: seq<Exchange>, e: Exchange, key: string -> Option<string>)
    ensures Supported(exchanges + [e], key) == Supported(exchanges, key) + RecordedKeys(e.lines, key)
  {
  }

  predicate OneLineRequests(exchanges: seq<Exchange>) {
    forall e | e in exchanges :: '\n' !in e.request
  }

  lemma {:induction false} RecordsOfAll(exchanges: seq<Exchange>, key: string -> Option<string>)
    requires OneLineRequests(exchanges) && Scans(key)
    ensures OneLine(AllRecords(exchanges)) && KeysOf(AllRecords(exchanges), key) == Supported(exchanges, key)
  {
    if exchanges == [] {
    } else {
      var m := |exchanges| - 1;
      assert exchanges == exchanges[..m] + [exchanges[m]];
      RecordsOfAll(exchanges[..m], key);
      RecordsOfOneMore(exchanges[..m], exchanges[m], key);
    }
  }

  lemma {:induction false} RecordsOfOneMore(front: seq<Exchange>, e: Exchange, key: string -> Option<string>)
    requires '\n' !in e.request && Scans(key)
    requires OneLine(AllRecords(front)) && KeysOf(AllRecords(front), key) == Supported(front, key)
    ensures OneLine(AllRecords(front + [e])) && KeysOf(AllRecords(front + [e]), key) == Supported(front + [e], key)
  {
    assert (front + [e])[..|front|] == front;
    RecordsOfExchange(e, key);
    KeysOfAppend(AllRecords(front), RecordsOf(e.request, e.lines), key);
    OneLineAppend(AllRecords(front), RecordsOf(e.request, e.lines));
    SupportedSnoc(front, e, key);
  }

  lemma {:induction false} OneLineAppend(a: seq<string>, b: seq<string>)
    requires OneLine(a) && OneLine(b)
    ensures OneLine(a + b)
  {
  }

  /** Scanning a dump yields exactly the keys of the recorded replies: a rejected reply
      or one with an LF in it adds none. */
  lemma {:induction false} DumpThenScan(exchanges: seq<Exchange>, up: char -> char)
    requires OneLineRequests(exchanges)
    ensures KeysOf(LinesOf(Unlines(AllRecords(exchanges))), KeyWith(up)) == Supported(exchanges, KeyWith(up))
  {
    KeyWithScans(up);
    RecordsOfAll(exchanges, KeyWith(up));
    ScanOfUnlines(AllRecords(exchanges), "", KeyWith(up));
    assert Unlines(AllRecords(exchanges)) + "" == Unlines(AllRecords(exchanges));
  }

  /** The functions that the report parser accepts among these replies. */
  function Accepted(exchanges: seq<Exchange>, up: char -> char): set<string> {
    Supported(exchanges, line => KeyOfReply(line, up))
  }

  /** When no reply starts with white space, a dump scanned reports the functions that
      the report parser accepts. */
  lemma {:induction false} DumpReportsWhatTheParserAccepts(exchanges: seq<Exchange>, up: char -> char)
    requires OneLineRequests(exchanges)
    requires forall e, line | e in exchanges && line in e.lines && line != "" :: !IsSpace(line[0])
    ensures KeysOf(LinesOf(Unlines(AllRecords(exchanges))), KeyWith(up)) == Accepted(exchanges, up)
  {
    DumpThenScan(exchanges, up);
    forall e, line | e in exchanges && line in e.lines ensures KeyWith(up)(line) == KeyOfReply(line, up) {
      ScannerAgreesWithParser(line, up);
    }
    SameKeysSameSupport(exchanges, KeyWith(up), line => KeyOfReply(line, up));
  }

  lemma {:induction false} SameKeysSameSupport(exchanges: seq<Exchange>, a: string -> Option<string>,
                                               b: string -> Option<string>)
    requires forall e, line | e in exchanges && line in e.lines :: a(line) == b(line)
    ensures Supported(exchanges, a) == Supported(exchanges, b)
  {
  }

  // ----- the difference of two transcripts ------------------------------------

  /** Splits a key "@SUB:FUNC" at its first colon. */
  function SplitSubunitFunc(key: string): (string, string) {
    var body := if "@" <= key then key[1..] else key;
    var colon := IndexOf(body, ':');
    if colon < 0 then (body, "") else (body[..colon], body[colon + 1..])
  }

  /** It takes the keys of the scanner apart again, provided that upper-casing makes no
      new colon. */
  lemma {:induction false} SplitInvertsKey(r: Report, up: char -> char)
    requires Separable(r) && forall c :: up(c) == ':' ==> c == ':'
    ensures SplitSubunitFunc(KeyOfReport(r, up)) == (Upper(r.subunit, up), Upper(r.name, up))
  {
    var subunit, name := Upper(r.subunit, up), Upper(r.name, up);
    var body := subunit + ":" + name;
    assert KeyOfReport(r, up) == "@" + body;
    assert KeyOfReport(r, up)[1..] == body;
    IndexIs(body, ':', |subunit|);
    assert body[..|subunit|] == subunit && body[|subunit| + 1..] == name;
  }

  function Subunit(key: string): string {
    SplitSubunitFunc(key).0
  }

  /** The functions of one subunit, in the order of the keys. */
  function FunctionsOf(keys: seq<string>, subunit: string): seq<string> {
    if keys == [] then []
    else
      var m := |keys| - 1;
      FunctionsOf(keys[..m], subunit) +
      if Subunit(keys[m]) == subunit then [SplitSubunitFunc(keys[m]).1] else []
  }

  lemma {:induction false} FunctionsOfAppend(a: seq<string>, b: seq<string>, subunit: string)
    ensures FunctionsOf(a + b, subunit) == FunctionsOf(a, subunit) + FunctionsOf(b, subunit)
  {
    if b == [] {
      assert a + b == a;
    } else {
      var m := |b| - 1;
      assert (a + b)[..|a + b| - 1] == a + b[..m];
      FunctionsOfAppend(a, b[..m], subunit);
    }
  }

  lemma {:induction false} FunctionsWithout(keys: seq<string>, i: nat, subunit: string)
    requires i < |keys|
    ensures multiset(keys[..i] + keys[i + 1..]) == multiset(keys) - multiset{keys[i]}
    ensures multiset(FunctionsOf(keys, subunit))
         == multiset(FunctionsOf(keys[..i] + keys[i + 1..], subunit)) + multiset(FunctionsOf([keys[i]], subunit))
  {
    var front, back := keys[..i], keys[i + 1..];
    assert keys == front + [keys[i]] + back;
    FunctionsOfAppend(front + [keys[i]], back, subunit);
    FunctionsOfAppend(front, [keys[i]], subunit);
    FunctionsOfAppend(front, back, subunit);
  }

  lemma {:induction false} FunctionsOfIgnoresOrder(a: seq<string>, b: seq<string>, subunit: string)
    requires multiset(a) == multiset(b)
    ensures multiset(FunctionsOf(a, subunit)) == multiset(FunctionsOf(b, subunit))
    decreases |a|
  {
    if a == [] {
      assert |multiset(b)| == 0;
    } else {
      var m := |a| - 1;
      assert a[m] in multiset(a);
      var i :| 0 <= i < |b| && b[i] == a[m];
      FunctionsWithout(a, m, subunit);
      FunctionsWithout(b, i, subunit);
      FunctionsOfIgnoresOrder(a[..m] + a[m + 1..], b[..i] + b[i + 1..], subunit);
    }
  }

  /** `added` lists these keys in order, and `bySubunit` the functions among them. */
  ghost predicate Lists(added: seq<string>, bySubunit: map<string, seq<string>>, keys: set<string>) {
    && Sorted(StringLe, added) && NoDuplicates(added) && (forall key :: key in added <==> key in keys)
    && (forall key | key in added :: Subunit(key) in bySubunit)
    && (forall subunit | subunit in bySubunit ::
         FunctionsOf(added, subunit) != [] && bySubunit[subunit] == Sort(StringLe, FunctionsOf(added, subunit)))
  }

  /** Groups the functions of `other` that `ref` does not have; the maps are visited in
      any order. */
  method Collect(ref: set<string>, other: set<string>) returns (added: seq<string>, bySubunit: map<string, seq<string>>)
    ensures NoDuplicates(added) && forall key :: key in added <==> key in other && key !in ref
    ensures forall key | key in added :: Subunit(key) in bySubunit
    ensures forall subunit | subunit in bySubunit ::
      FunctionsOf(added, subunit) != [] && bySubunit[subunit] == FunctionsOf(added, subunit)
  {
    added, bySubunit := [], map[];
    var keys := other;
    while keys != {}
      invariant keys <= other
      invariant NoDuplicates(added) && forall key :: key in added <==> key in other && key !in ref && key !in keys
      invariant forall key | key in added :: Subunit(key) in bySubunit
      invariant forall subunit :: FunctionsOf(added, subunit) == if subunit in bySubunit then bySubunit[subunit] else []
      invariant forall subunit | subunit in bySubunit :: bySubunit[subunit] != []
    {
      var key :| key in keys;
      keys := keys - {key};
      if key in ref {
        continue;
      }
      var (subunit, name) := SplitSubunitFunc(key);
      assert (added + [key])[..|added|] == added;
      bySubunit := bySubunit[subunit := (if subunit in bySubunit then bySubunit[subunit] else []) + [name]];
      added := added + [key];
    }
  }

  /** Some report with this key names this subunit and this function. */
  ghost predicate Names(keys: set<string>, up: char -> char, subunit: string, name: string) {
    exists r: Report :: Separable(r) && KeyOfReport(r, up) in keys
      && Upper(r.subunit, up) == subunit && Upper(r.name, up) == name
  }

  ghost predicate KeysOfReports(keys: set<string>, up: char -> char) {
    forall key | key in keys :: exists r: Report :: Separable(r) && key == KeyOfReport(r, up)
  }

  lemma {:induction false} FunctionsOfMeans(keys: seq<string>, subunit: string, name: string)
    ensures name in FunctionsOf(keys, subunit)
       <==> exists i | 0 <= i < |keys| :: SplitSubunitFunc(keys[i]) == (subunit, name)
  {
    hide SplitSubunitFunc;
    if keys == [] {
    } else {
      var m := |keys| - 1;
      FunctionsOfMeans(keys[..m], subunit, name);
      assert forall i | 0 <= i < m :: keys[..m][i] == keys[i];
    }
  }

  /** The groups are made of the reports that gave the keys: under each subunit stand, in
      order, the functions that some of these reports names for it. */
  lemma {:induction false} GroupsAreTheReports(added: seq<string>, bySubunit: map<string, seq<string>>,
                                               keys: set<string>, up: char -> char)
    requires Lists(added, bySubunit, keys) && KeysOfReports(keys, up) && forall c :: up(c) == ':' ==> c == ':'
    ensures forall subunit, name ::
      subunit in bySubunit && name in bySubunit[subunit] <==> Names(keys, up, subunit, name)
    ensures forall subunit | subunit in bySubunit :: Sorted(StringLe, bySubunit[subunit])
  {
    hide FunctionsOf, SplitSubunitFunc, KeyOfReport, Sort, Sorted;
    StringOrder();
    forall subunit | subunit in bySubunit
      ensures Sorted(StringLe, bySubunit[subunit])
      ensures forall name :: name in bySubunit[subunit] <==> name in FunctionsOf(added, subunit)
    {
      SortSorts(StringLe, FunctionsOf(added, subunit));
      PermutationKeepsMembers(FunctionsOf(added, subunit), bySubunit[subunit]);
    }
    forall subunit, name
      ensures subunit in bySubunit && name in bySubunit[subunit] <==> Names(keys, up, subunit, name)
    {
      FunctionsOfMeans(added, subunit, name);
      NamesMeans(keys, up, subunit, name);
    }
  }

  lemma {:induction false} NamesMeans(keys: set<string>, up: char -> char, subunit: string, name: string)
    requires KeysOfReports(keys, up) && forall c :: up(c) == ':' ==> c == ':'
    ensures Names(keys, up, subunit, name) <==> exists key | key in keys :: SplitSubunitFunc(key) == (subunit, name)
  {
    hide SplitSubunitFunc, KeyOfReport;
    forall r: Report | Separable(r)
      ensures SplitSubunitFunc(KeyOfReport(r, up)) == (Upper(r.subunit, up), Upper(r.name, up))
    {
      SplitInvertsKey(r, up);
    }
    if key :| key in keys && SplitSubunitFunc(key) == (subunit, name) {
      var r: Report :| Separable(r) && key == KeyOfReport(r, up);
      assert Names(keys, up, subunit, name);
    }
  }

  method Diff(ref: set<string>, other: set<string>) returns (added: seq<string>, bySubunit: map<string, seq<string>>)
    ensures Lists(added, bySubunit, other - ref)
  {
    var found, groups := Collect(ref, other);
    added := Sort(StringLe, found);
    StringOrder();
    SortSorts(StringLe, found);
    PermutationKeepsMembers(found, added);
    bySubunit := groups;
    var subunits := groups.Keys;
    while subunits != {}
      invariant subunits <= groups.Keys == bySubunit.Keys
      invariant forall s | s in subunits :: bySubunit[s] == groups[s]
      invariant forall s | s in groups.Keys - subunits :: bySubunit[s] == Sort(StringLe, groups[s])
    {
      var s :| s in subunits;
      subunits := subunits - {s};
      bySubunit := bySubunit[s := Sort(StringLe, bySubunit[s])];
    }
    forall s | s in bySubunit
      ensures FunctionsOf(added, s) != [] && bySubunit[s] == Sort(StringLe, FunctionsOf(added, s))
    {
      FunctionsOfIgnoresOrder(found, added, s);
      SortIgnoresOrder(StringLe, groups[s], FunctionsOf(added, s));
      assert groups[s][0] in multiset(FunctionsOf(added, s));
    }
  }

  /** Some recorded reply reports this function of this subunit. */
  ghost predicate Reported(exchanges: seq<Exchange>, up: char -> char, subunit: string, name: string) {
    exists e, line | e in exchanges && line in e.lines :: Recorded(line) && Says(line, up, subunit, name)
  }

  predicate Says(line: string, up: char -> char, subunit: string, name: string) {
    var r := ParseLine(TrimLeft(line, IsSpace));
    r.Some? && Upper(r.value.subunit, up) == subunit && Upper(r.value.name, up) == name
  }

  /** What a line says, and its key. */
  lemma {:induction false} KeyMeans(line: string, r: Report, up: char -> char)
    requires Separable(r) && forall c :: up(c) == ':' ==> c == ':'
    ensures KeyOf(line, up) == Some(KeyOfReport(r, up)) <==> Says(line, up, Upper(r.subunit, up), Upper(r.name, up))
  {
    hide TrimLeft, ParseLine, KeyOf, Separable, KeyOfReport, Upper, IsSpace;
    var start := TrimLeft(line, IsSpace);
    ScannerAgreesWithParser(line, up);
    if ParseLine(start).Some? {
      AcceptedLinesAreRendered(start);
      SameKey(ParseLine(start).value, r, up);
    }
  }

  lemma {:induction false} SameKey(a: Report, b: Report, up: char -> char)
    requires Separable(a) && Separable(b) && forall c :: up(c) == ':' ==> c == ':'
    ensures KeyOfReport(a, up) == KeyOfReport(b, up) <==>
      Upper(a.subunit, up) == Upper(b.subunit, up) && Upper(a.name, up) == Upper(b.name, up)
  {
    hide SplitSubunitFunc, Upper, Separable;
    SplitInvertsKey(a, up);
    SplitInvertsKey(b, up);
  }

  lemma {:induction false} SupportedMeans(exchanges: seq<Exchange>, r: Report, up: char -> char)
    requires Separable(r) && forall c :: up(c) == ':' ==> c == ':'
    ensures KeyOfReport(r, up) in Supported(exchanges, KeyWith(up))
       <==> Reported(exchanges, up, Upper(r.subunit, up), Upper(r.name, up))
  {
    hide KeyOf, KeyOfReport, Says, Recorded, Upper;
    forall e, line | e in exchanges && line in e.lines
      ensures KeyWith(up)(line) == Some(KeyOfReport(r, up)) <==>
              Says(line, up, Upper(r.subunit, up), Upper(r.name, up))
    {
      KeyMeans(line, r, up);
    }
  }

  lemma {:induction false} SupportedKeysAreReports(exchanges: seq<Exchange>, up: char -> char)
    ensures KeysOfReports(Supported(exchanges, KeyWith(up)), up)
  {
    forall key | key in Supported(exchanges, KeyWith(up))
      ensures exists r: Report :: Separable(r) && key == KeyOfReport(r, up)
    {
      var e, line :| e in exchanges && line in e.lines && KeyOf(line, up) == Some(key);
      AcceptedLinesAreRendered(Clean(line));
    }
  }

  lemma {:induction false} ReportedHasAReport(exchanges: seq<Exchange>, up: char -> char, subunit: string, name: string)
    returns (r: Report)
    requires Reported(exchanges, up, subunit, name)
    ensures Separable(r) && Upper(r.subunit, up) == subunit && Upper(r.name, up) == name
  {
    var e, line :| e in exchanges && line in e.lines && Recorded(line) && Says(line, up, subunit, name);
    AcceptedLinesAreRendered(TrimLeft(line, IsSpace));
    r := ParseLine(TrimLeft(line, IsSpace)).value;
  }

  /** The functions among the keys of `others` and not of `refs` are those that `others`
      report and `refs` do not. */
  lemma {:induction false} NamesAreTheDifference(refs: seq<Exchange>, others: seq<Exchange>, up: char -> char,
                                                 subunit: string, name: string)
    requires forall c :: up(c) == ':' ==> c == ':'
    ensures Names(Supported(others, KeyWith(up)) - Supported(refs, KeyWith(up)), up, subunit, name)
       <==> Reported(others, up, subunit, name) && !Reported(refs, up, subunit, name)
  {
    hide Supported, Reported, KeyOfReport, Upper;
    var keys := Supported(others, KeyWith(up)) - Supported(refs, KeyWith(up));
    if Names(keys, up, subunit, name) {
      var r: Report :| Separable(r) && KeyOfReport(r, up) in keys
        && Upper(r.subunit, up) == subunit && Upper(r.name, up) == name;
      SupportedMeans(others, r, up);
      SupportedMeans(refs, r, up);
    }
    if Reported(others, up, subunit, name) && !Reported(refs, up, subunit, name) {
      var r := ReportedHasAReport(others, up, subunit, name);
      SupportedMeans(others, r, up);
      SupportedMeans(refs, r, up);
    }
  }

  /** The difference of two dumps is the difference of what their receivers support: under
      each subunit stand the functions that a reply of `others` reports and none of `refs`. */
  method DiffDumps(refs: seq<Exchange>, others: seq<Exchange>, up: char -> char)
    returns (added: seq<string>, bySubunit: map<string, seq<string>>)
    requires OneLineRequests(refs) && OneLineRequests(others)
    ensures Lists(added, bySubunit, Supported(others, KeyWith(up)) - Supported(refs, KeyWith(up)))
    ensures (forall c :: up(c) == ':' ==> c == ':') ==> forall subunit, name ::
      subunit in bySubunit && name in bySubunit[subunit] <==>
      Reported(others, up, subunit, name) && !Reported(refs, up, subunit, name)
  {
    var refText := Dump(refs);
    var otherText := Dump(others);
    var ref := ScanTranscript(refText, up);
    var other := ScanTranscript(otherText, up);
    DumpThenScan(refs, up);
    DumpThenScan(others, up);
    added, bySubunit := Diff(ref, other);
    if forall c :: up(c) == ':' ==> c == ':' {
      SupportedKeysAreReports(others, up);
      GroupsAreTheReports(added, bySubunit, other - ref, up);
      forall subunit, name
        ensures subunit in bySubunit && name in bySubunit[subunit] <==>
                Reported(others, up, subunit, name) && !Reported(refs, up, subunit, name)
      {
        NamesAreTheDifference(refs, others, up, subunit, name);
      }
    }
  }
}
