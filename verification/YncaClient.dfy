/**
 The YNCA line client (pkg/ynca/client.go): one connection shared by the
 one-line Send and the fan-out SendMulti, which drains replies up to the echo of
 a version query it appends as a fence.

 The receiver keeps a history of every line it heard and every report it put on
 a wire; each report carries the index of the heard line that caused it. The
 client reads only the text. Timeouts, cancellation, resets and a receiver that
 drops lines, stops answering or closes are nondeterministic choices at every
 interaction, so a contract proved here holds for every run. An attempt is `fair`
 when none of them comes in its way: then it must succeed if it is answered.
*/
module YncaClient {
  import opened Framing
  import opened Text

  // ----- the receiver's history -----------------------------------------------

  /** Why a line was written: a command of Send, a command of SendMulti, the
      fence behind it, or the wake query of a fresh connection. */
  datatype Purpose = Single | FanOut | Fence | Wake

  datatype Heard = Heard(line: string, purpose: Purpose)

  datatype Report = Report(text: string, cause: nat)

  function Texts(reports: seq<Report>): (t: seq<string>)
    ensures |t| == |reports|
    ensures forall i | 0 <= i < |t| :: t[i] == reports[i].text
  {
    seq(|reports|, i requires 0 <= i < |reports| => reports[i].text)
  }

  /** The texts the receiver said in answer to heard line k, in order. */
  function AnswersTo(said: seq<Report>, k: nat): seq<string> {
    if said == [] then []
    else AnswersTo(said[..|said| - 1], k)
         + (var last := said[|said| - 1]; if last.cause == k then [last.text] else [])
  }

  lemma {:induction false} AnswersOfBatch(said: seq<Report>, batch: seq<Report>, k: nat, cause: nat)
    requires forall r | r in batch :: r.cause == cause
    ensures AnswersTo(said + batch, k)
         == AnswersTo(said, k) + (if cause == k then Texts(batch) else [])
  {
    hide AnswersTo, Texts;
    if batch == [] {
      assert said + batch == said && Texts(batch) == [];
    } else {
      var front, last := batch[..|batch| - 1], batch[|batch| - 1];
      AnswersOfBatch(said, front, k, cause);
      AnswersOfOneMore(said + front, last, k);
      TextsOfOneMore(front, last);
      assert batch == front + [last];
      assert said + batch == said + front + [last];
    }
  }

  lemma {:induction false} TextsOfOneMore(reports: seq<Report>, r: Report)
    ensures Texts(reports + [r]) == Texts(reports) + [r.text]
  {
  }

  lemma {:induction false} AnswersOfOneMore(said: seq<Report>, r: Report, k: nat)
    ensures AnswersTo(said + [r], k) == AnswersTo(said, k) + if r.cause == k then [r.text] else []
  {
    assert (said + [r])[..|said|] == said;
  }

  /** A line not heard yet has no answers. */
  lemma {:induction false} NoAnswersYet(said: seq<Report>, k: nat)
    requires forall r | r in said :: r.cause < k
    ensures AnswersTo(said, k) == []
  {
    if said == [] {
    } else {
      NoAnswersYet(said[..|said| - 1], k);
    }
  }

  const VERSION_QUERY := "@SYS:VERSION=?"
  const VERSION_ECHO := "@SYS:VERSION="
  const WAKE_QUERY := "@SYS:MODELNAME=?"
  const MAX_MULTI_LINES := 1024

  predicate IsEcho(text: string) { VERSION_ECHO <= text }

  datatype History = History(heard: seq<Heard>, said: seq<Report>)

  /**
   The manners alignment depends on: at most one report for a Send command, no
   report of a fan-out that looks like the fence echo, and at most one report,
   an echo, for the fence. Fewer reports are always allowed: a receiver may drop
   a line, go silent or close at any point.
  */
  predicate WellMannered(h: History) {
    forall k | 0 <= k < |h.heard| :: MannersAt(h, k)
  }

  predicate MannersAt(h: History, k: nat)
    requires k < |h.heard|
  {
    Proper(h.heard[k].purpose, AnswersTo(h.said, k))
  }

  predicate Proper(purpose: Purpose, answers: seq<string>) {
    match purpose
    case Single => |answers| <= 1
    case FanOut => forall a | a in answers :: !IsEcho(a)
    case Fence => |answers| <= 1 && forall a | a in answers :: IsEcho(a)
    case Wake => true
  }

  predicate CausesKnown(h: History) {
    forall r | r in h.said :: r.cause < |h.heard|
  }

  /** h' continues h: nothing heard or said is undone, and what is said later
      answers later lines. */
  predicate Extends(h: History, h': History) {
    && h.heard <= h'.heard
    && h.said <= h'.said
    && forall i | |h.said| <= i < |h'.said| :: |h.heard| <= h'.said[i].cause
  }

  /** The answers to a line heard before do not change as the run goes on. */
  lemma {:induction false} AnswersAreFinal(h: History, h': History, k: nat)
    requires Extends(h, h') && k < |h.heard|
    ensures AnswersTo(h'.said, k) == AnswersTo(h.said, k)
    decreases |h'.said|
  {
    if |h'.said| == |h.said| {
      assert h'.said == h.said;
    } else {
      AnswersAreFinal(h, h'.(said := h'.said[..|h'.said| - 1]), k);
    }
  }

  lemma {:induction false} MannersWereGood(h: History, h': History)
    requires Extends(h, h') && WellMannered(h')
    ensures WellMannered(h)
  {
    forall k | 0 <= k < |h.heard| ensures MannersAt(h, k) {
      AnswersAreFinal(h, h', k);
      assert MannersAt(h', k);
    }
  }

  /** Everything heard but the wake queries. */
  function Asked(heard: seq<Heard>): seq<Heard> {
    if heard == [] then []
    else
      var last := heard[|heard| - 1];
      Asked(heard[..|heard| - 1]) + if last.purpose.Wake? then [] else [last]
  }

  function Batch(answers: seq<string>, cause: nat): (batch: seq<Report>)
    ensures Texts(batch) == answers
    ensures forall r | r in batch :: r.cause == cause
  {
    seq(|answers|, i requires 0 <= i < |answers| => Report(answers[i], cause))
  }

  /** The history after one more line, answered with `answers`. */
  function Continue(h: History, line: string, purpose: Purpose, answers: seq<string>): History {
    History(h.heard + [Heard(line, purpose)], h.said + Batch(answers, |h.heard|))
  }

  lemma {:induction false} MannersHold(h: History, h': History)
    requires Extends(h, h')
    ensures WellMannered(h') ==> WellMannered(h)
  {
    if WellMannered(h') { MannersWereGood(h, h'); }
  }

  predicate Replied(h: History, at: nat, purpose: Purpose, line: string, lines: seq<string>) {
    at < |h.heard| && h.heard[at] == Heard(line, purpose) && AnswersTo(h.said, at) == lines
  }

  lemma {:induction false} ContinueExtends(h: History, line: string, purpose: Purpose, answers: seq<string>)
    requires CausesKnown(h)
    ensures var h' := Continue(h, line, purpose, answers);
      && CausesKnown(h') && Extends(h, h')
      && AnswersTo(h'.said, |h.heard|) == answers
      && Asked(h'.heard) == Asked(h.heard) + if purpose.Wake? then [] else [Heard(line, purpose)]
  {
    var k := |h.heard|;
    NoAnswersYet(h.said, k);
    AnswersOfBatch(h.said, Batch(answers, k), k, k);
    assert (h.heard + [Heard(line, purpose)])[..k] == h.heard;
  }

  lemma {:induction false} ReplyIsFinal(h: History, h': History, at: nat, purpose: Purpose, line: string,
                                        lines: seq<string>)
    requires Extends(h, h') && Replied(h, at, purpose, line, lines)
    ensures Replied(h', at, purpose, line, lines)
  {
    AnswersAreFinal(h, h', at);
  }

  lemma {:induction false} NoGo(wanted: seq<Heard>)
    ensures AtMostTwice([], wanted)
  {
    var none: seq<Heard> := [];
    assert none[..0] == none;
  }

  /** What one or two goes, from h0 to h1 and from there to h2, come to. */
  lemma {:induction false} TwoGoes(h0: History, h1: History, h2: History, first: seq<Heard>, second: seq<Heard>,
                                   wanted: seq<Heard>)
    requires first <= wanted && second <= wanted && Extends(h0, h1) && Extends(h1, h2)
    requires Asked(h1.heard) == Asked(h0.heard) + first && Asked(h2.heard) == Asked(h1.heard) + second
    ensures Extends(h0, h2) && Asked(h2.heard) == Asked(h0.heard) + (first + second)
    ensures AtMostTwice(first + second, wanted)
  {
    var sent := first + second;
    assert sent[..|first|] == first && sent[|first|..] == second;
    ExtendsIsTransitive(h0, h1, h2);
  }

  /** One more line heard, seen from an earlier history h0. */
  lemma {:induction false} Step(h0: History, h: History, line: string, purpose: Purpose, answers: seq<string>)
    requires CausesKnown(h) && Extends(h0, h) && !purpose.Wake?
    ensures var h' := Continue(h, line, purpose, answers);
      && CausesKnown(h') && Extends(h0, h') && Extends(h, h')
      && Asked(h'.heard) == Asked(h.heard) + [Heard(line, purpose)]
      && Replied(h', |h.heard|, purpose, line, answers)
  {
    ContinueExtends(h, line, purpose, answers);
    ExtendsIsTransitive(h0, h, Continue(h, line, purpose, answers));
  }

  /** `sent` is one or two goes at writing `wanted`, each cut short anywhere. */
  predicate AtMostTwice(sent: seq<Heard>, wanted: seq<Heard>) {
    exists i | 0 <= i <= |sent| :: sent[..i] <= wanted && sent[i..] <= wanted
  }

  lemma {:induction false} ExtendsIsTransitive(a: History, b: History, c: History)
    requires Extends(a, b) && Extends(b, c)
    ensures Extends(a, c)
  {
    forall i | |a.said| <= i < |c.said| ensures |a.heard| <= c.said[i].cause {
      if i < |b.said| { assert c.said[i] == b.said[i]; }
    }
  }

  // ----- errors and environment ------------------------------------------------

  datatype Failure =
    | EmptyLine
    | Dial(reset: bool)
    | Cancelled
    | NoReply
    | PeerClosed
    | Reset
    | OtherIo
    | TooManyLines
    | Undefined(request: string, line: string)
    | Restricted(request: string, line: string)

  datatype Result<T> = Ok(value: T) | Err(failure: Failure)

  /** The stale-connection errors one resend is allowed for. A dial error wraps
      its cause, so a reset while dialling counts too. */
  predicate IsConnReset(f: Failure) {
    f.PeerClosed? || f.Reset? || (f.Dial? && f.reset)
  }

  /** One go at writing a command and reading what comes back. */
  datatype Attempt = Attempt(line: string, purpose: Purpose, result: Result<seq<string>>)

  function AttemptOf(line: string, r: Result<string>): Attempt {
    Attempt(line, Single, match r case Ok(reply) => Ok([reply]) case Err(f) => Err(f))
  }

  /** A call adds one attempt, or two, and two exactly when the first one ended at a
      stale connection: the peer had closed it or reset it, while dialling included. */
  predicate Tried(before: seq<Attempt>, after: seq<Attempt>, line: string, purpose: Purpose) {
    var n := |before|;
    && before <= after && n + 1 <= |after| <= n + 2
    && (forall k | n <= k < |after| :: after[k].line == line && after[k].purpose == purpose)
    && (|after| == n + 2 <==>
         after[n].result.Err? &&
         match after[n].result.failure
         case PeerClosed => true
         case Reset => true
         case Dial(reset) => reset
         case _ => false)
  }

  /** One go is enough, or there is a second one. */
  lemma {:induction false} Tries(before: seq<Attempt>, first: Attempt, second: Attempt)
    requires first.line == second.line && first.purpose == second.purpose
    ensures first.result.Ok? || !IsConnReset(first.result.failure) ==>
      Tried(before, before + [first], first.line, first.purpose)
    ensures first.result.Err? && IsConnReset(first.result.failure) ==>
      Tried(before, before + [first] + [second], first.line, first.purpose)
  {
  }

  predicate FromConnection(f: Failure) {
    !f.EmptyLine? && !f.Undefined? && !f.Restricted?
  }

  datatype ReadOutcome = Line(text: string) | ReadFailed(failure: Failure)

  class Connection {
    // What the receiver delivered on this connection and the client has not read.
    var unread: seq<Report>

    constructor ()
      ensures unread == []
    {
      unread := [];
    }

    /** One scanner step: the next line, or any failure at any time. A fair read fails
        only when there is nothing to read. */
    method Read(fair: bool) returns (r: ReadOutcome)
      modifies this
      ensures fair && old(unread) != [] ==> r.Line?
      ensures r.Line? ==> old(unread) != [] && r.text == old(unread)[0].text && unread == old(unread)[1..]
      ensures r.ReadFailed? ==> unread == old(unread)
      ensures r.ReadFailed? ==> r.failure in {Cancelled, NoReply, PeerClosed, Reset, OtherIo}
    {
      var arrived: bool := *;
      if (arrived || fair) && unread != [] {
        r := Line(unread[0].text);
        unread := unread[1..];
      } else {
        var f: Failure := *;
        r := ReadFailed(if f in {Cancelled, NoReply, Reset, OtherIo} then f else PeerClosed);
      }
    }
  }

  class Receiver {
    var log: History

    /** A line reaches the receiver, which answers with whatever it likes. */
    method Hear(line: string, purpose: Purpose, wire: Connection) returns (ghost answers: seq<string>)
      modifies this, wire
      ensures log == Continue(old(log), line, purpose, answers)
      ensures wire.unread == old(wire.unread) + Batch(answers, |old(log.heard)|)
    {
      var reply: seq<string> := *;
      answers := reply;
      wire.unread := wire.unread + Batch(reply, |log.heard|);
      log := Continue(log, line, purpose, reply);
    }
  }

  // ----- commands -------------------------------------------------------------

  predicate IsCrlf(c: char) {
    c == '\r' || c == '\n'
  }

  /** The line put on the wire for a caller's line. */
  function Command(line: string): string {
    TrimRight(if "@" <= line then line else "@" + line, IsCrlf)
  }

  /** The command is the caller's line, with an '@' in front only where there is none,
      and without exactly its trailing CR and LF bytes. */
  lemma {:induction false} CommandKeepsTheLine(line: string)
    ensures var c, body := Command(line), if line != "" && line[0] == '@' then line else ['@'] + line;
      && c != "" && c <= body && c[0] == '@' && c[|c| - 1] != '\r' && c[|c| - 1] != '\n'
      && forall i | |c| <= i < |body| :: body[i] == '\r' || body[i] == '\n'
  {
    hide TrimRight;
    var body := if line != "" && line[0] == '@' then line else ['@'] + line;
    assert "@" <= line <==> line != "" && line[0] == '@';
    assert Command(line) == TrimRight(body, IsCrlf);
    TrimRightKeepsTheFirst(body, IsCrlf);
  }

  /** A command occupies one line of the stream, and so earns one reply, if and
      only if the caller's line has no CRLF before its trailing CR and LF bytes. */
  lemma {:induction false} CommandIsOneLine(line: string)
    ensures Frame(Command(line) + CRLF) == [Command(line)] <==> !HasCrlf(Command(line))
  {
    assert Render([Command(line)]) == Command(line) + CRLF + "" == Command(line) + CRLF;
    FrameInvertsRender([Command(line)]);
  }

  // ----- the drain ------------------------------------------------------------

  datatype Drained = Fenced(lines: seq<string>, rest: seq<string>) | TooMany | Dry

  /** Reading a wire up to the fence echo, with `got` lines collected so far. */
  function Drain(wire: seq<string>, got: seq<string>): Drained {
    if wire == [] then Dry
    else if IsEcho(wire[0]) then Fenced(got, wire[1..])
    else if |got| == MAX_MULTI_LINES then TooMany
    else Drain(wire[1..], got + [wire[0]])
  }

  /**
   The fence is exact: when a fan-out answered with `reports` and the fence with
   `echo`, the drain returns those reports and leaves the rest of the wire alone
   if and only if no report looks like the echo and there are at most 1024.
  */
  lemma {:induction false} FenceIsExact(reports: seq<string>, echo: string, rest: seq<string>)
    requires IsEcho(echo)
    ensures Drain(reports + [echo] + rest, []) == Fenced(reports, rest)
      <==> |reports| <= MAX_MULTI_LINES && forall r | r in reports :: !IsEcho(r)
  {
    var wire := reports + [echo] + rest;
    var n := FirstEcho(wire);
    DrainStopsAtFirstEcho(wire, [], n);
    assert wire[|reports|] == echo;
    if forall r | r in reports :: !IsEcho(r) {
      forall i | 0 <= i < |reports| ensures !IsEcho(wire[i]) { assert wire[i] == reports[i]; }
      assert n == |reports| && wire[..n] == reports && wire[n + 1..] == rest;
    } else {
      var r :| r in reports && IsEcho(r);
      var i :| 0 <= i < |reports| && reports[i] == r;
      assert IsEcho(wire[i]) && n <= i;
    }
  }

  function FirstEcho(wire: seq<string>): (n: nat)
    ensures n <= |wire|
    ensures forall i | 0 <= i < n :: !IsEcho(wire[i])
    ensures n < |wire| ==> IsEcho(wire[n])
  {
    if wire == [] || IsEcho(wire[0]) then 0 else 1 + FirstEcho(wire[1..])
  }

  lemma {:induction false} DrainStopsAtFirstEcho(wire: seq<string>, got: seq<string>, n: nat)
    requires n < |wire| && IsEcho(wire[n]) && forall i | 0 <= i < n :: !IsEcho(wire[i])
    requires |got| <= MAX_MULTI_LINES
    ensures Drain(wire, got)
         == if |got| + n <= MAX_MULTI_LINES then Fenced(got + wire[..n], wire[n + 1..]) else TooMany
  {
    if n == 0 {
      assert got + wire[..0] == got;
    } else if |got| < MAX_MULTI_LINES {
      DrainStopsAtFirstEcho(wire[1..], got + [wire[0]], n - 1);
      assert got + [wire[0]] + wire[1..][..n - 1] == got + wire[..n];
      assert wire[1..][n..] == wire[n + 1..];
    }
  }

  lemma {:induction false} NoEchoNoFence(wire: seq<string>, got: seq<string>)
    requires forall w | w in wire :: !IsEcho(w)
    ensures !Drain(wire, got).Fenced?
  {
    if wire == [] {
    } else {
      assert wire[0] in wire;
      if |got| != MAX_MULTI_LINES { NoEchoNoFence(wire[1..], got + [wire[0]]); }
    }
  }

  /** A drain that succeeds on well-mannered answers took the command's reports,
      all of them and nothing else. */
  lemma {:induction false} DrainOfGoodManners(answers: seq<string>, echoes: seq<string>)
    requires Proper(FanOut, answers) && Proper(Fence, echoes)
    requires Drain(answers + echoes, []).Fenced?
    ensures Drain(answers + echoes, []) == Fenced(answers, []) && |answers| <= MAX_MULTI_LINES && |echoes| == 1
  {
    if echoes == [] {
      NoEchoNoFence(answers + echoes, []);
    } else {
      assert answers + echoes == answers + [echoes[0]] + [];
      var n := FirstEcho(answers + echoes);
      assert IsEcho((answers + echoes)[|answers|]);
      forall i | 0 <= i < |answers| ensures !IsEcho((answers + echoes)[i]) {
        assert (answers + echoes)[i] == answers[i];
      }
      DrainStopsAtFirstEcho(answers + echoes, [], n);
      FenceIsExact(answers, echoes[0], []);
    }
  }

  /** A fan-out the drain can tell from its fence and is willing to hold. */
  predicate Plain(reports: seq<string>) {
    |reports| <= MAX_MULTI_LINES && forall r | r in reports :: !IsEcho(r)
  }

  /** What the SendMulti calls of one connection return, call by call until one
      fails, when the receiver answers the i-th command with fanouts[i] and every
      fence with `echo`, and `stale` was unread at the start. */
  function MultiRun(stale: seq<string>, fanouts: seq<seq<string>>, echo: string): seq<seq<string>>
    decreases |fanouts|
  {
    if fanouts == [] then []
    else
      var d := Drain(stale + fanouts[0] + [echo], []);
      if d.Fenced? then [d.lines] + MultiRun(d.rest, fanouts[1..], echo) else []
  }

  /** A call that starts with nothing unread returns its own reports if and only if
      they are plain, and then leaves nothing unread either. */
  lemma {:induction false} OneCallIsAligned(reports: seq<string>, echo: string)
    requires IsEcho(echo)
    ensures var d := Drain([] + reports + [echo], []);
      if Plain(reports) then d == Fenced(reports, []) else d.Fenced? ==> d.lines != reports
  {
    hide Drain;
    var wire, n := reports + [echo], FirstEcho(reports + [echo]);
    assert [] + reports + [echo] == wire == wire + [];
    FenceIsExact(reports, echo, []);
    assert wire[|reports|] == echo;
    DrainStopsAtFirstEcho(wire, [], n);
    assert [] + wire[..n] == wire[..n];
    if n == |reports| {
      assert wire[..n] == reports && wire[n + 1..] == [];
    }
  }

  /** Every call of a connection returns exactly its own reports if and only if
      every fan-out is plain. */
  lemma {:induction false} RunIsAligned(fanouts: seq<seq<string>>, echo: string)
    requires IsEcho(echo)
    ensures MultiRun([], fanouts, echo) == fanouts <==> forall f | f in fanouts :: Plain(f)
    decreases |fanouts|
  {
    hide Drain, Plain, IsEcho;
    if fanouts == [] {
    } else {
      OneCallIsAligned(fanouts[0], echo);
      RunIsAligned(fanouts[1..], echo);
      assert fanouts == [fanouts[0]] + fanouts[1..];
      assert forall g :: g in fanouts <==> g == fanouts[0] || g in fanouts[1..];
    }
  }

  /**
   The `ynca dump` catalog sends the version query itself through SendMulti. Its
   own report passes for the fence, so that call returns no lines and the true
   echo stays unread; from then on every call returns the lines of the call
   before it.
  */
  lemma {:induction false} VersionQueryDelaysTheRun(echo: string, fanouts: seq<seq<string>>)
    requires IsEcho(echo)
    requires forall f | f in fanouts :: Plain(f)
    ensures MultiRun([], [[echo]] + fanouts, echo) == [[]] + ([[]] + fanouts)[..|fanouts|]
  {
    var all := [[echo]] + fanouts;
    assert [] + all[0] + [echo] == [echo, echo] && [echo, echo][1..] == [echo];
    assert all[1..] == fanouts;
    assert [] + [echo] == [echo];
    DelayedRun([], echo, fanouts);
  }

  /** With one late fan-out and its echo unread, every call answers one call late. */
  lemma {:induction false} DelayedRun(late: seq<string>, echo: string, fanouts: seq<seq<string>>)
    requires IsEcho(echo) && Plain(late)
    requires forall f | f in fanouts :: Plain(f)
    ensures MultiRun(late + [echo], fanouts, echo) == ([late] + fanouts)[..|fanouts|]
    decreases |fanouts|
  {
    if fanouts == [] {
    } else {
      var rest := fanouts[0] + [echo];
      assert late + [echo] + fanouts[0] + [echo] == late + [echo] + rest;
      FenceIsExact(late, echo, rest);
      DelayedRun(fanouts[0], echo, fanouts[1..]);
      assert [fanouts[0]] + fanouts[1..] == fanouts;
      assert [late] + fanouts[..|fanouts| - 1] == ([late] + fanouts)[..|fanouts|];
    }
  }

  function AfterMulti(mid: History, line: string, n: nat, answers: seq<string>, echoes: seq<string>): History {
    if n == 0 then mid
    else
      var asked := Continue(mid, line, FanOut, answers);
      if n == 1 then asked else Continue(asked, VERSION_QUERY, Fence, echoes)
  }

  function AfterSingle(mid: History, line: string, reached: bool, answers: seq<string>): History {
    if reached then Continue(mid, line, Single, answers) else mid
  }

  function Wanted(line: string, purpose: Purpose): seq<Heard> {
    if purpose.FanOut? then [Heard(line, FanOut), Heard(VERSION_QUERY, Fence)] else [Heard(line, purpose)]
  }

  /** One attempt of Send, seen from the history. */
  lemma {:induction false} SingleAttempt(h0: History, mid: History, line: string, reached: bool, answers: seq<string>)
    requires CausesKnown(mid) && Extends(h0, mid)
    ensures var h := AfterSingle(mid, line, reached, answers);
      && CausesKnown(h) && Extends(h0, h)
      && Asked(h.heard) == Asked(mid.heard) + Wanted(line, Single)[..if reached then 1 else 0]
      && (reached ==> Replied(h, |mid.heard|, Single, line, answers))
      && (reached && answers != [] && WellMannered(h) ==> |answers| == 1)
  {
    if reached {
      var h := AfterSingle(mid, line, reached, answers);
      Step(h0, mid, line, Single, answers);
      assert WellMannered(h) ==> MannersAt(h, |mid.heard|);
    }
  }

  /** One attempt of SendMulti, seen from the history. */
  lemma {:induction false} MultiAttempt(h0: History, mid: History, line: string, n: nat, answers: seq<string>,
                                        echoes: seq<string>)
    requires CausesKnown(mid) && Extends(h0, mid) && n <= 2
    requires (n == 0 ==> answers == []) && (n <= 1 ==> echoes == [])
    ensures var h := AfterMulti(mid, line, n, answers, echoes);
      && CausesKnown(h) && Extends(h0, h)
      && Asked(h.heard) == Asked(mid.heard) + Wanted(line, FanOut)[..n]
      && (n == 2 ==>
            && Replied(h, |mid.heard|, FanOut, line, answers)
            && Replied(h, |mid.heard| + 1, Fence, VERSION_QUERY, echoes))
  {
    var wanted := Wanted(line, FanOut);
    if n > 0 {
      var asked := Continue(mid, line, FanOut, answers);
      Step(h0, mid, line, FanOut, answers);
      assert wanted[..1] == [wanted[0]];
      if n == 2 {
        SecondStep(h0, asked, |mid.heard|, line, answers, echoes);
        assert wanted[..2] == wanted[..1] + [wanted[1]];
        assert Asked(asked.heard) + [wanted[1]] == Asked(mid.heard) + (wanted[..1] + [wanted[1]]);
      }
    }
  }

  lemma {:induction false} SecondStep(h0: History, asked: History, at: nat, line: string, answers: seq<string>,
                                      echoes: seq<string>)
    requires CausesKnown(asked) && Extends(h0, asked) && Replied(asked, at, FanOut, line, answers)
    ensures var h := Continue(asked, VERSION_QUERY, Fence, echoes);
      && CausesKnown(h) && Extends(h0, h)
      && Asked(h.heard) == Asked(asked.heard) + [Heard(VERSION_QUERY, Fence)]
      && Replied(h, at, FanOut, line, answers)
      && Replied(h, |asked.heard|, Fence, VERSION_QUERY, echoes)
  {
    Step(h0, asked, VERSION_QUERY, Fence, echoes);
    ReplyIsFinal(asked, Continue(asked, VERSION_QUERY, Fence, echoes), at, FanOut, line, answers);
  }

  /** A drain that succeeded, of a well-mannered receiver, returned exactly the
      command's reports and left nothing unread. */
  lemma {:induction false} MultiAligned(mid: History, line: string, n: nat, answers: seq<string>, echoes: seq<string>)
    requires CausesKnown(mid) && n <= 2
    requires (n == 0 ==> answers == []) && (n <= 1 ==> echoes == [])
    requires Drain(answers + echoes, []).Fenced?
    requires WellMannered(AfterMulti(mid, line, n, answers, echoes))
    ensures Drain(answers + echoes, []) == Fenced(answers, []) && |answers| <= MAX_MULTI_LINES
    ensures Replied(AfterMulti(mid, line, n, answers, echoes), |mid.heard|, FanOut, line, answers)
  {
    var h := AfterMulti(mid, line, n, answers, echoes);
    var k := |mid.heard|;
    MultiAttempt(mid, mid, line, n, answers, echoes);
    if n == 0 {
      NoEchoNoFence(answers + echoes, []);
    } else if n == 1 {
      assert MannersAt(h, k) && answers + echoes == answers;
      ContinueExtends(mid, line, FanOut, answers);
      NoEchoNoFence(answers + echoes, []);
    } else {
      assert MannersAt(h, k) && MannersAt(h, k + 1);
      DrainOfGoodManners(answers, echoes);
    }
  }

  /** The receiver heard this line as number `at`, and if it answered, it was read. */
  predicate Answering(h: History, at: nat, purpose: Purpose, line: string, ok: bool) {
    at < |h.heard| && h.heard[at] == Heard(line, purpose) && (AnswersTo(h.said, at) != [] ==> ok)
  }

  /** The receiver heard this line and the fence behind it. If it answered the fence, and
      the line with 1024 reports at most, they were read. */
  predicate AnsweringBoth(h: History, at: nat, line: string, ok: bool) {
    && at + 1 < |h.heard| && h.heard[at] == Heard(line, FanOut) && h.heard[at + 1] == Heard(VERSION_QUERY, Fence)
    && (AnswersTo(h.said, at + 1) != [] && |AnswersTo(h.said, at)| <= 1024 ==> ok)
  }

  /** Proper answers that come through are drained. */
  lemma {:induction false} FairDrain(h: History, at: nat, line: string, answers: seq<string>, echoes: seq<string>)
    requires WellMannered(h)
    requires Replied(h, at, FanOut, line, answers) && Replied(h, at + 1, Fence, VERSION_QUERY, echoes)
    ensures AnsweringBoth(h, at, line, Drain(answers + echoes, []).Fenced?)
  {
    assert MannersAt(h, at) && MannersAt(h, at + 1);
    if echoes != [] {
      assert echoes[0] in echoes && echoes == [echoes[0]];
      assert answers + echoes == answers + [echoes[0]] + [];
      FenceIsExact(answers, echoes[0], []);
    }
  }

  /** What an attempt on a clean connection comes to, when the receiver has good manners. */
  lemma {:induction false} MultiOutcome(mid: History, line: string, n: nat, answers: seq<string>, echoes: seq<string>,
                                        fair: bool, r: Result<seq<string>>, unread: seq<string>)
    requires CausesKnown(mid) && n <= 2 && (fair ==> n == 2)
    requires (n == 0 ==> answers == []) && (n <= 1 ==> echoes == [])
    requires WellMannered(AfterMulti(mid, line, n, answers, echoes))
    requires r.Ok? ==> Drain(answers + echoes, []) == Fenced(r.value, unread)
    requires fair && Drain(answers + echoes, []).Fenced? ==> r.Ok?
    ensures var h := AfterMulti(mid, line, n, answers, echoes);
      && (r.Ok? ==> unread == [] && |r.value| <= MAX_MULTI_LINES && Replied(h, |mid.heard|, FanOut, line, r.value))
      && (fair ==> AnsweringBoth(h, |mid.heard|, line, r.Ok?))
  {
    hide Drain, WellMannered, CausesKnown, Replied;
    if r.Ok? {
      MultiAligned(mid, line, n, answers, echoes);
    }
    if fair {
      MultiAttempt(mid, mid, line, n, answers, echoes);
      FairDrain(AfterMulti(mid, line, n, answers, echoes), |mid.heard|, line, answers, echoes);
    }
  }

  predicate IsRefusal(line: string) {
    "@UNDEFINED" <= line || "@RESTRICTED" <= line
  }

  /** Refusals become typed errors that carry the request and the reply. */
  function ClassifyReply(request: string, reply: string): Result<string> {
    if "@UNDEFINED" <= reply then Err(Undefined(request, reply))
    else if "@RESTRICTED" <= reply then Err(Restricted(request, reply))
    else Ok(reply)
  }

  /** The reply line a result of Send reports, if it reports one. */
  function ReplyOf(r: Result<string>): seq<string> {
    match r
    case Ok(reply) => [reply]
    case Err(Undefined(_, reply)) => [reply]
    case Err(Restricted(_, reply)) => [reply]
    case Err(_) => []
  }

  lemma {:induction false} ClassifyingKeepsTheReply(request: string, reply: string)
    ensures var r := ClassifyReply(request, reply);
      && ReplyOf(r) == [reply] && (r.Ok? <==> !IsRefusal(reply)) && (r.Err? ==> !r.failure.EmptyLine?)
      && (r == Err(Undefined(request, reply)) <==> "@UNDEFINED" <= reply)
      && (r == Err(Restricted(request, reply)) <==> "@RESTRICTED" <= reply)
  {
    if "@UNDEFINED" <= reply {
      assert reply[1] == 'U';
    } else if "@RESTRICTED" <= reply {
      assert reply[1] == 'R';
    }
  }

  // ----- the client -----------------------------------------------------------

  class Client {
    const receiver: Receiver
    const wakeOnConnect: bool
    var conn: Connection?
    // Every attempt made, in order.
    ghost var attempts: seq<Attempt>

    constructor (receiver: Receiver, wakeOnConnect: bool)
      ensures this.receiver == receiver && this.wakeOnConnect == wakeOnConnect && conn == null && attempts == []
    {
      this.receiver, this.wakeOnConnect := receiver, wakeOnConnect;
      conn, attempts := null, [];
    }

    function Repr(): set<object>
      reads this
    {
      {this, receiver} + if conn == null then {} else {conn}
    }

    /** Nothing is unread on an open connection. */
    predicate Clean()
      reads this, conn
    {
      conn != null ==> conn.unread == []
    }

    /** What holds between calls: with a well-mannered receiver, Clean. */
    predicate Valid()
      reads this, receiver, conn
    {
      && CausesKnown(receiver.log)
      && (WellMannered(receiver.log) ==> Clean())
    }

    method CloseLocked()
      modifies this`conn
      ensures conn == null
    {
      conn := null;
    }

    method Close()
      requires Valid()
      modifies this`conn
      ensures Valid() && conn == null
    {
      CloseLocked();
    }

    /** Opens a connection, or fails. The wake query's reply is drained or was
        dropped, so nothing is unread afterwards. */
    method DialLocked(fair: bool) returns (r: Result<()>)
      requires conn == null && CausesKnown(receiver.log)
      modifies this`conn, receiver
      ensures CausesKnown(receiver.log) && Extends(old(receiver.log), receiver.log)
      ensures Asked(receiver.log.heard) == Asked(old(receiver.log.heard))
      ensures fair ==> r.Ok?
      ensures r.Ok? ==> conn != null && fresh(conn) && conn.unread == []
      ensures r.Err? ==> conn == null && r.failure.Dial?
    {
      var connected: bool := *;
      if !connected && !fair {
        var reset: bool := *;
        return Err(Dial(reset));
      }
      conn := new Connection();
      if wakeOnConnect {
        var sent: bool := *;
        if sent {
          ghost var before := receiver.log;
          ghost var answers := receiver.Hear(WAKE_QUERY, Wake, conn);
          ContinueExtends(before, WAKE_QUERY, Wake, answers);
          conn.unread := [];
        }
      }
      return Ok(());
    }

    /** Deadlines, write and read fail in any of the ways a connection can. */
    method AnyFailure() returns (f: Failure)
      ensures f in {Cancelled, PeerClosed, Reset, OtherIo}
    {
      f := *;
      if f !in {Cancelled, Reset, OtherIo} { f := PeerClosed; }
    }

    /** One write and one read. The line reaches the receiver, which answers with
        `answers`, or is lost. Any failure closes the connection. */
    method ExchangeLocked(line: string, reaches: bool, fair: bool)
      returns (r: Result<string>, ghost answers: seq<string>)
      requires conn != null
      modifies this`conn, receiver, conn
      ensures conn == null || conn == old(conn)
      ensures receiver.log == AfterSingle(old(receiver.log), line, reaches, answers)
      ensures fair && reaches && answers != [] ==> r.Ok?
      ensures r.Err? ==> conn == null && FromConnection(r.failure)
      ensures r.Ok? ==> conn != null
      ensures r.Ok? && old(conn.unread) == [] ==>
        reaches && answers != [] && r.value == answers[0] && |conn.unread| == |answers| - 1
    {
      answers := [];
      if reaches {
        answers := receiver.Hear(line, Single, conn);
      }
      var written: bool := *;
      if !written && !fair {
        var f := AnyFailure();
        CloseLocked();
        return Err(f), answers;
      }
      assert Texts(Batch(answers, |old(receiver.log.heard)|)) == answers;
      var read := conn.Read(fair);
      if read.ReadFailed? {
        CloseLocked();
        return Err(read.failure), answers;
      }
      return Ok(read.text), answers;
    }

    /** One attempt of Send, dialling first when there is no connection. */
    method SendOnceLocked(line: string, fair: bool)
      returns (r: Result<string>, ghost at: nat, ghost sent: seq<Heard>)
      requires CausesKnown(receiver.log)
      modifies Repr()
      ensures conn == null || conn == old(conn) || fresh(conn)
      ensures attempts == old(attempts) + [AttemptOf(line, r)]
      ensures CausesKnown(receiver.log) && Extends(old(receiver.log), receiver.log)
      ensures sent <= Wanted(line, Single) && Asked(receiver.log.heard) == Asked(old(receiver.log.heard)) + sent
      ensures r.Err? ==> conn == null && FromConnection(r.failure)
      ensures r.Ok? ==> conn != null
      ensures fair ==> Answering(receiver.log, at, Single, line, r.Ok?)
      ensures r.Ok? && old(Clean()) && WellMannered(receiver.log) ==>
        Clean() && |old(receiver.log.heard)| <= at && Replied(receiver.log, at, Single, line, [r.value])
    {
      ghost var h0 := receiver.log;
      at, sent := 0, [];
      if conn == null {
        var dialled := DialLocked(fair);
        if dialled.Err? {
          r := Err(dialled.failure);
          attempts := attempts + [AttemptOf(line, r)];
          return;
        }
      }
      ghost var mid := receiver.log;
      var reaches: bool := *;
      reaches := reaches || fair;
      ghost var answers;
      r, answers := ExchangeLocked(line, reaches, fair);
      at, sent := |mid.heard|, Wanted(line, Single)[..if reaches then 1 else 0];
      attempts := attempts + [AttemptOf(line, r)];
      SingleAttempt(h0, mid, line, reaches, answers);
    }

    /** Command and fence in one write, then the drain. The first `n` of the two
        lines reach the receiver. On success the drain took its lines off the
        front of the wire and left the rest unread. */
    method ExchangeMultiLocked(line: string, n: nat, fair: bool)
      returns (r: Result<seq<string>>, ghost answers: seq<string>, ghost echoes: seq<string>)
      requires conn != null && n <= 2
      modifies this`conn, receiver, conn
      ensures conn == null || conn == old(conn)
      ensures (n == 0 ==> answers == []) && (n <= 1 ==> echoes == [])
      ensures receiver.log == AfterMulti(old(receiver.log), line, n, answers, echoes)
      ensures r.Err? ==> conn == null && FromConnection(r.failure)
      ensures r.Ok? ==> conn != null
      ensures fair && old(conn.unread) == [] && Drain(answers + echoes, []).Fenced? ==> r.Ok?
      ensures r.Ok? && old(conn.unread) == [] ==>
        Drain(answers + echoes, []) == Fenced(r.value, Texts(conn.unread))
    {
      answers, echoes := [], [];
      if n > 0 {
        answers := receiver.Hear(line, FanOut, conn);
      }
      if n > 1 {
        echoes := receiver.Hear(VERSION_QUERY, Fence, conn);
      }
      var written: bool := *;
      if !written && !fair {
        var f := AnyFailure();
        CloseLocked();
        return Err(f), answers, echoes;
      }
      assert old(conn.unread) == [] ==> Texts(conn.unread) == answers + echoes;
      r := DrainLocked(fair);
    }

    /** Reads up to the fence echo. Any failure closes the connection. */
    method DrainLocked(fair: bool) returns (r: Result<seq<string>>)
      requires conn != null
      modifies this`conn, conn
      ensures conn == null || conn == old(conn)
      ensures r.Ok? ==> conn != null && Drain(old(Texts(conn.unread)), []) == Fenced(r.value, Texts(conn.unread))
      ensures r.Err? ==> conn == null && FromConnection(r.failure)
      ensures r.Err? && r.failure.TooManyLines? ==> Drain(old(Texts(conn.unread)), []) == TooMany
      ensures fair && r.Err? && !r.failure.TooManyLines? ==> Drain(old(Texts(conn.unread)), []) == Dry
    {
      var lines: seq<string> := [];
      while true
        invariant conn == old(conn)
        invariant Drain(old(Texts(conn.unread)), []) == Drain(Texts(conn.unread), lines)
        decreases |conn.unread|
      {
        ghost var before := Texts(conn.unread);
        var read := conn.Read(fair);
        if read.ReadFailed? {
          CloseLocked();
          return Err(read.failure);
        }
        assert before[1..] == Texts(conn.unread);
        if IsEcho(read.text) {
          return Ok(lines);
        }
        if |lines| == MAX_MULTI_LINES {
          CloseLocked();
          return Err(TooManyLines);
        }
        lines := lines + [read.text];
      }
    }

    /** One attempt of SendMulti, dialling first when there is no connection. */
    method SendMultiOnceLocked(line: string, fair: bool)
      returns (r: Result<seq<string>>, ghost at: nat, ghost sent: seq<Heard>)
      requires CausesKnown(receiver.log)
      modifies Repr()
      ensures conn == null || conn == old(conn) || fresh(conn)
      ensures attempts == old(attempts) + [Attempt(line, FanOut, r)]
      ensures CausesKnown(receiver.log) && Extends(old(receiver.log), receiver.log)
      ensures sent <= Wanted(line, FanOut) && Asked(receiver.log.heard) == Asked(old(receiver.log.heard)) + sent
      ensures r.Err? ==> conn == null && FromConnection(r.failure)
      ensures r.Ok? ==> conn != null
      ensures fair && old(Clean()) && WellMannered(receiver.log) ==> AnsweringBoth(receiver.log, at, line, r.Ok?)
      ensures r.Ok? && old(Clean()) && WellMannered(receiver.log) ==>
        && Clean() && |r.value| <= MAX_MULTI_LINES
        && |old(receiver.log.heard)| <= at && Replied(receiver.log, at, FanOut, line, r.value)
    {
      ghost var h0 := receiver.log;
      at, sent := 0, [];
      if conn == null {
        var dialled := DialLocked(fair);
        if dialled.Err? {
          r := Err(dialled.failure);
          attempts := attempts + [Attempt(line, FanOut, r)];
          return;
        }
      }
      ghost var mid := receiver.log;
      var first, second: bool := *, *;
      var n := if fair || (first && second) then 2 else if first then 1 else 0;
      ghost var answers, echoes;
      r, answers, echoes := ExchangeMultiLocked(line, n, fair);
      at, sent := |mid.heard|, Wanted(line, FanOut)[..n];
      attempts := attempts + [Attempt(line, FanOut, r)];
      MultiAttempt(h0, mid, line, n, answers, echoes);
      if old(Clean()) && WellMannered(receiver.log) {
        MultiOutcome(mid, line, n, answers, echoes, fair, r, if conn == null then [] else Texts(conn.unread));
      }
    }

    /** Send below its argument checks: a stale connection gets one resend. */
    method SendLocked(command: string, fair: bool, fairAgain: bool)
      returns (r: Result<string>, ghost at: nat, ghost sent: seq<Heard>)
      requires Valid()
      modifies Repr()
      ensures Valid()
      ensures conn == null || conn == old(conn) || fresh(conn)
      ensures Extends(old(receiver.log), receiver.log)
      ensures Asked(receiver.log.heard) == Asked(old(receiver.log.heard)) + sent
      ensures AtMostTwice(sent, Wanted(command, Single))
      ensures Tried(old(attempts), attempts, command, Single)
      ensures attempts[|attempts| - 1] == AttemptOf(command, r)
      ensures (if |attempts| == |old(attempts)| + 1 then fair else fairAgain) ==>
        Answering(receiver.log, at, Single, command, r.Ok?)
      ensures r.Err? ==> conn == null && FromConnection(r.failure)
      ensures WellMannered(receiver.log) && r.Ok? ==>
        |old(receiver.log.heard)| <= at && Replied(receiver.log, at, Single, command, [r.value])
    {
      ghost var h0 := receiver.log;
      ghost var resent: seq<Heard> := [];
      ghost var before := attempts;
      r, at, sent := SendOnceLocked(command, fair);
      MannersHold(h0, receiver.log);
      ghost var h1, first := receiver.log, AttemptOf(command, r);
      if r.Err? && IsConnReset(r.failure) {
        CloseLocked();
        r, at, resent := SendOnceLocked(command, fairAgain);
      }
      Tries(before, first, AttemptOf(command, r));
      TwoGoes(h0, h1, receiver.log, sent, resent, Wanted(command, Single));
      sent := sent + resent;
    }

    /** SendLocked, with a device refusal turned into an error. */
    method SendClassifiedLocked(command: string, fair: bool, fairAgain: bool)
      returns (r: Result<string>, ghost at: nat, ghost sent: seq<Heard>)
      requires Valid()
      modifies Repr()
      ensures Valid()
      ensures conn == null || conn == old(conn) || fresh(conn)
      ensures Extends(old(receiver.log), receiver.log)
      ensures Asked(receiver.log.heard) == Asked(old(receiver.log.heard)) + sent
      ensures AtMostTwice(sent, Wanted(command, Single))
      ensures Tried(old(attempts), attempts, command, Single)
      ensures match attempts[|attempts| - 1].result
        case Ok(lines) => ReplyOf(r) == lines && |lines| == 1
        case Err(f) => r == Err(f) && ReplyOf(r) == []
      ensures (if |attempts| == |old(attempts)| + 1 then fair else fairAgain) ==>
        Answering(receiver.log, at, Single, command, ReplyOf(r) != [])
      ensures r.Err? ==> !r.failure.EmptyLine?
      ensures ReplyOf(r) == [] ==> conn == null
      ensures WellMannered(receiver.log) && ReplyOf(r) != [] ==>
        |old(receiver.log.heard)| <= at && Replied(receiver.log, at, Single, command, ReplyOf(r))
      ensures r.Ok? ==> !IsRefusal(r.value)
    {
      r, at, sent := SendLocked(command, fair, fairAgain);
      if r.Ok? {
        ClassifyingKeepsTheReply(command, r.value);
        r := ClassifyReply(command, r.value);
      }
    }

    /**
     One line out, one reply back. A stale connection gets one resend. When the
     receiver is well-mannered, a reply that comes back is the one answer to a
     line written during this call, and nothing stays unread behind it.
    */
    method Send(line: string, fair: bool, fairAgain: bool)
      returns (r: Result<string>, ghost at: nat, ghost sent: seq<Heard>)
      requires Valid()
      modifies Repr()
      ensures Valid()
      ensures conn == null || conn == old(conn) || fresh(conn)
      ensures Extends(old(receiver.log), receiver.log)
      ensures Asked(receiver.log.heard) == Asked(old(receiver.log.heard)) + sent
      ensures AtMostTwice(sent, Wanted(Command(line), Single))
      ensures r.Err? && r.failure.EmptyLine? <==> line == ""
      ensures line == "" ==> receiver.log == old(receiver.log) && conn == old(conn) && attempts == old(attempts)
      ensures line != "" ==> Tried(old(attempts), attempts, Command(line), Single)
      ensures line != "" ==>
        match attempts[|attempts| - 1].result
        case Ok(lines) => ReplyOf(r) == lines && |lines| == 1
        case Err(f) => r == Err(f) && ReplyOf(r) == []
      ensures line != "" && (if |attempts| == |old(attempts)| + 1 then fair else fairAgain) ==>
        Answering(receiver.log, at, Single, Command(line), ReplyOf(r) != [])
      ensures ReplyOf(r) == [] && line != "" ==> conn == null
      ensures WellMannered(receiver.log) && ReplyOf(r) != [] ==>
        |old(receiver.log.heard)| <= at && Replied(receiver.log, at, Single, Command(line), ReplyOf(r))
      ensures r.Ok? ==> !IsRefusal(r.value)
    {
      if line == "" {
        NoGo(Wanted(Command(line), Single));
        return Err(EmptyLine), 0, [];
      }
      r, at, sent := SendClassifiedLocked(Command(line), fair, fairAgain);
    }

    /** SendMulti below its argument checks: a stale connection gets one resend. */
    method SendMultiLocked(command: string, fair: bool, fairAgain: bool)
      returns (r: Result<seq<string>>, ghost at: nat, ghost sent: seq<Heard>)
      requires Valid()
      modifies Repr()
      ensures Valid()
      ensures conn == null || conn == old(conn) || fresh(conn)
      ensures Extends(old(receiver.log), receiver.log)
      ensures Asked(receiver.log.heard) == Asked(old(receiver.log.heard)) + sent
      ensures AtMostTwice(sent, Wanted(command, FanOut))
      ensures Tried(old(attempts), attempts, command, FanOut)
      ensures attempts[|attempts| - 1] == Attempt(command, FanOut, r)
      ensures (if |attempts| == |old(attempts)| + 1 then fair else fairAgain) && WellMannered(receiver.log) ==>
        AnsweringBoth(receiver.log, at, command, r.Ok?)
      ensures r.Err? ==> conn == null && FromConnection(r.failure)
      ensures WellMannered(receiver.log) && r.Ok? ==>
        && |old(receiver.log.heard)| <= at && Replied(receiver.log, at, FanOut, command, r.value)
        && |r.value| <= MAX_MULTI_LINES
    {
      ghost var h0 := receiver.log;
      ghost var resent: seq<Heard> := [];
      ghost var before := attempts;
      r, at, sent := SendMultiOnceLocked(command, fair);
      MannersHold(h0, receiver.log);
      ghost var h1, first := receiver.log, Attempt(command, FanOut, r);
      if r.Err? && IsConnReset(r.failure) {
        CloseLocked();
        r, at, resent := SendMultiOnceLocked(command, fairAgain);
      }
      Tries(before, first, Attempt(command, FanOut, r));
      TwoGoes(h0, h1, receiver.log, sent, resent, Wanted(command, FanOut));
      sent := sent + resent;
    }

    /**
     One line out, every report line up to the fence back. When the receiver is
     well-mannered, the lines are exactly the answers to the command written
     during this call, at most 1024 of them, and nothing stays unread.
    */
    method SendMulti(line: string, fair: bool, fairAgain: bool)
      returns (r: Result<seq<string>>, ghost at: nat, ghost sent: seq<Heard>)
      requires Valid()
      modifies Repr()
      ensures Valid()
      ensures conn == null || conn == old(conn) || fresh(conn)
      ensures Extends(old(receiver.log), receiver.log)
      ensures Asked(receiver.log.heard) == Asked(old(receiver.log.heard)) + sent
      ensures AtMostTwice(sent, Wanted(Command(line), FanOut))
      ensures r.Err? && r.failure.EmptyLine? <==> line == ""
      ensures line == "" ==> receiver.log == old(receiver.log) && conn == old(conn) && attempts == old(attempts)
      ensures line != "" ==> Tried(old(attempts), attempts, Command(line), FanOut)
      ensures line != "" ==> attempts[|attempts| - 1].result == r
      ensures line != "" && (if |attempts| == |old(attempts)| + 1 then fair else fairAgain) ==>
        WellMannered(receiver.log) ==> AnsweringBoth(receiver.log, at, Command(line), r.Ok?)
      ensures r.Err? && line != "" ==> conn == null
      ensures WellMannered(receiver.log) && r.Ok? ==>
        && |old(receiver.log.heard)| <= at && Replied(receiver.log, at, FanOut, Command(line), r.value)
        && |r.value| <= MAX_MULTI_LINES
    {
      if line == "" {
        NoGo(Wanted(Command(line), FanOut));
        return Err(EmptyLine), 0, [];
      }
      r, at, sent := SendMultiLocked(Command(line), fair, fairAgain);
    }
  }

  // ----- whole runs -----------------------------------------------------------

  datatype Call = SendCall(line: string) | MultiCall(line: string) | CloseCall

  datatype Outcome = Sent(reply: Result<string>) | Gathered(lines: Result<seq<string>>) | Closed

  /** The lines an outcome hands to the caller, when it hands over any. */
  function Returned(o: Outcome): Result<seq<string>> {
    match o
    case Sent(r) => if ReplyOf(r) != [] then Ok(ReplyOf(r)) else Err(r.failure)
    case Gathered(r) => r
    case Closed => Err(Cancelled)
  }

  /** Line `at` is a call's own command, and the outcome is exactly its answers. */
  predicate Aligned(h: History, call: Call, o: Outcome, at: nat) {
    match call
    case SendCall(line) => o.Sent? && (Returned(o).Ok? ==> Replied(h, at, Single, Command(line), Returned(o).value))
    case MultiCall(line) => o.Gathered? && (Returned(o).Ok? ==>
      Replied(h, at, FanOut, Command(line), Returned(o).value) && |Returned(o).value| <= MAX_MULTI_LINES)
    case CloseCall => o.Closed?
  }

  lemma {:induction false} AlignmentIsFinal(h: History, h': History, call: Call, o: Outcome, at: nat)
    requires Extends(h, h') && Aligned(h, call, o, at)
    ensures Aligned(h', call, o, at)
  {
    if Returned(o).Ok? && !call.CloseCall? {
      var purpose := if call.SendCall? then Single else FanOut;
      ReplyIsFinal(h, h', at, purpose, Command(call.line), Returned(o).value);
    }
  }

  method Perform(client: Client, call: Call) returns (outcome: Outcome, ghost at: nat)
    requires client.Valid()
    modifies client.Repr()
    ensures client.Valid()
    ensures client.conn == null || client.conn == old(client.conn) || fresh(client.conn)
    ensures Extends(old(client.receiver.log), client.receiver.log)
    ensures WellMannered(client.receiver.log) ==>
      && Aligned(client.receiver.log, call, outcome, at)
      && (Returned(outcome).Ok? ==> |old(client.receiver.log.heard)| <= at)
  {
    ghost var sent;
    var fair, fairAgain: bool := *, *;
    at := 0;
    match call {
      case SendCall(line) =>
        var r;
        r, at, sent := client.Send(line, fair, fairAgain);
        outcome := Sent(r);
      case MultiCall(line) =>
        var r;
        r, at, sent := client.SendMulti(line, fair, fairAgain);
        outcome := Gathered(r);
      case CloseCall =>
        client.Close();
        outcome := Closed;
    }
  }

  /**
   Alignment over every run: whatever the order of calls and whatever fails in
   between, every call that returns lines returns the answers to a line it wrote
   itself, and different calls return the answers to different lines.
  */
  method Drive(client: Client, calls: seq<Call>) returns (outcomes: seq<Outcome>, ghost ats: seq<nat>)
    requires client.Valid()
    modifies client.Repr()
    ensures client.Valid() && |outcomes| == |ats| == |calls|
    ensures Extends(old(client.receiver.log), client.receiver.log)
    ensures WellMannered(client.receiver.log) ==>
      forall i | 0 <= i < |calls| :: Aligned(client.receiver.log, calls[i], outcomes[i], ats[i])
    ensures WellMannered(client.receiver.log) ==>
      forall i, j | 0 <= i < j < |calls| && Returned(outcomes[i]).Ok? && Returned(outcomes[j]).Ok? :: ats[i] < ats[j]
  {
    outcomes, ats := [], [];
    for n := 0 to |calls|
      invariant client.Valid() && |outcomes| == |ats| == n
      invariant client.conn == null || client.conn == old(client.conn) || fresh(client.conn)
      invariant Extends(old(client.receiver.log), client.receiver.log)
      invariant WellMannered(client.receiver.log) ==> RunAligned(client.receiver.log, calls[..n], outcomes, ats)
    {
      ghost var before := client.receiver.log;
      var outcome, at := Perform(client, calls[n]);
      ExtendsIsTransitive(old(client.receiver.log), before, client.receiver.log);
      if WellMannered(client.receiver.log) {
        MannersHold(before, client.receiver.log);
        RunGrows(before, client.receiver.log, calls[..n], outcomes, ats, calls[n], outcome, at);
        assert calls[..n + 1] == calls[..n] + [calls[n]];
      }
      outcomes, ats := outcomes + [outcome], ats + [at];
    }
    assert calls[..|calls|] == calls;
  }

  predicate RunAligned(h: History, calls: seq<Call>, outcomes: seq<Outcome>, ats: seq<nat>)
    requires |calls| == |outcomes| == |ats|
  {
    && (forall i | 0 <= i < |calls| :: Aligned(h, calls[i], outcomes[i], ats[i]))
    && (forall i | 0 <= i < |calls| && Returned(outcomes[i]).Ok? :: ats[i] < |h.heard|)
    && (forall i, j | 0 <= i < j < |calls| && Returned(outcomes[i]).Ok? && Returned(outcomes[j]).Ok? :: ats[i] < ats[j])
  }

  lemma {:induction false} RunGrows(h: History, h': History, calls: seq<Call>, outcomes: seq<Outcome>, ats: seq<nat>,
                 call: Call, o: Outcome, at: nat)
    requires |calls| == |outcomes| == |ats| && RunAligned(h, calls, outcomes, ats) && Extends(h, h')
    requires Aligned(h', call, o, at) && (Returned(o).Ok? ==> |h.heard| <= at)
    ensures RunAligned(h', calls + [call], outcomes + [o], ats + [at])
  {
    forall i | 0 <= i < |calls| ensures Aligned(h', calls[i], outcomes[i], ats[i]) {
      AlignmentIsFinal(h, h', calls[i], outcomes[i], ats[i]);
    }
  }
}
