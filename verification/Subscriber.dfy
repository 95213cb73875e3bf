/**
 The event subscriber (pkg/yxc/events.go): subscribe, pump packets, renew, and
 recover from outages with capped backoff until cancelled.

 Everything the pump does not decide is a Turn: one turn of one of its three
 loops, saying whether the subscribe call of that turn succeeds, whether
 cancellation beats the timer of that turn, and which signal the select of the
 steady loop takes. A schedule is any finite sequence of turns.
*/
module Subscriber {
  import opened Arithmetic
  import opened Backoff

  type Address = nat

  datatype Event = Data(from: Address) | Subscribed | Renewed | Reconnecting | Shutdown

  datatype Signal = Cancelled | ReaderFailed | Packet(from: Address) | RenewTick | SilenceFired

  datatype Turn = Turn(accepted: bool, cancelled: bool, signal: Signal)

  /** What the pump does that can be seen: hand an event to emit, or start a wait. */
  datatype Action = Emit(event: Event) | Wait(duration: int)

  datatype Params = Params(backoffMin: int, backoffMax: int, expected: set<Address>) {
    predicate Valid() {
      0 < backoffMin <= backoffMax <= MAX_INT64
    }

    /** An empty allow-set disables the source filter. */
    predicate Accepts(from: Address) {
      expected == {} || from in expected
    }
  }

  const BACKOFF_MIN_DEFAULT := 1_000_000_000
  const BACKOFF_MAX_DEFAULT := 60_000_000_000

  /** The defaults Subscribe applies to its caller's fields. */
  function WithDefaults(backoffMin: int, backoffMax: int, expected: set<Address>): (p: Params)
    requires backoffMin <= MAX_INT64 && backoffMax <= MAX_INT64
    ensures p.Valid() && p.expected == expected
    ensures p.backoffMin == if backoffMin > 0 then backoffMin else 1_000_000_000
    ensures backoffMax >= p.backoffMin ==> p.backoffMax == backoffMax
    ensures 0 < backoffMax < p.backoffMin ==> p.backoffMax == p.backoffMin
    ensures backoffMax <= 0 ==> p.backoffMax == if backoffMin > 60_000_000_000 then backoffMin else 60_000_000_000
  {
    var lo := if backoffMin <= 0 then BACKOFF_MIN_DEFAULT else backoffMin;
    var hi := if backoffMax <= 0 then BACKOFF_MAX_DEFAULT else backoffMax;
    Params(lo, if hi < lo then lo else hi, expected)
  }

  // ----- one turn at a time ---------------------------------------------------

  datatype Phase = Starting | Live | Recovering | Ended

  datatype State = State(phase: Phase, backoff: int, log: seq<Action>)

  function Initial(p: Params): State {
    State(Starting, p.backoffMin, [])
  }

  function Step(p: Params, st: State, t: Turn): State {
    match st.phase
    case Ended => st
    case Starting =>
      if t.accepted then State(Live, p.backoffMin, st.log + [Emit(Subscribed)])
      else
        var log := st.log + [Emit(Reconnecting), Wait(st.backoff)];
        if t.cancelled then State(Ended, st.backoff, log + [Emit(Shutdown)])
        else State(Starting, NextBackoff(st.backoff, p.backoffMax), log)
    case Live =>
      (match t.signal
       case Cancelled => State(Ended, st.backoff, st.log + [Emit(Shutdown)])
       case ReaderFailed => State(Ended, st.backoff, st.log + [Emit(Shutdown)])
       case Packet(from) => if p.Accepts(from) then st.(log := st.log + [Emit(Data(from))]) else st
       case RenewTick =>
         if t.accepted then st.(log := st.log + [Emit(Renewed)])
         else State(Recovering, st.backoff, st.log + [Emit(Reconnecting)])
       case SilenceFired => State(Recovering, st.backoff, st.log + [Emit(Reconnecting)]))
    case Recovering =>
      var log := st.log + [Wait(st.backoff)];
      if t.cancelled then State(Ended, st.backoff, log + [Emit(Shutdown)])
      else if t.accepted then State(Live, p.backoffMin, log + [Emit(Subscribed)])
      else State(Recovering, NextBackoff(st.backoff, p.backoffMax), log + [Emit(Reconnecting)])
  }

  function Run(p: Params, st: State, schedule: seq<Turn>): State
    decreases |schedule|
  {
    if schedule == [] then st else Run(p, Step(p, st, schedule[0]), schedule[1..])
  }

  lemma {:induction false} RunAppend(p: Params, st: State, s: seq<Turn>, t: seq<Turn>)
    ensures Run(p, st, s + t) == Run(p, Run(p, st, s), t)
    decreases |s|
  {
    if s == [] {
      assert s + t == t;
    } else {
      assert (s + t)[1..] == s[1..] + t;
      RunAppend(p, Step(p, st, s[0]), s[1..], t);
    }
  }

  lemma {:induction false} EndedStays(p: Params, st: State, schedule: seq<Turn>)
    requires st.phase.Ended?
    ensures Run(p, st, schedule) == st
    decreases |schedule|
  {
    if schedule == [] {
    } else {
      EndedStays(p, st, schedule[1..]);
    }
  }

  // ----- the pump as the code runs it -----------------------------------------

  datatype Recovery = Recovered | Gone | OutOfTurns

  class Pump {
    const p: Params
    var backoff: int
    var log: seq<Action>

    constructor (p: Params)
      ensures this.p == p && backoff == p.backoffMin && log == []
    {
      this.p := p;
      backoff := p.backoffMin;
      log := [];
    }

    /** The first i turns left the pump in this phase with these fields. */
    predicate At(schedule: seq<Turn>, i: nat, phase: Phase)
      requires i <= |schedule|
      reads this
    {
      Run(p, Initial(p), schedule[..i]) == State(phase, backoff, log)
    }

    method Do(action: Action)
      modifies this`log
      ensures log == old(log) + [action]
    {
      log := log + [action];
    }

    lemma {:induction false} Next(schedule: seq<Turn>, i: nat, st: State)
      requires i < |schedule| && Run(p, Initial(p), schedule[..i]) == st
      ensures Run(p, Initial(p), schedule[..i + 1]) == Step(p, st, schedule[i])
    {
      assert schedule[..i + 1] == schedule[..i] + [schedule[i]];
      RunAppend(p, Initial(p), schedule[..i], [schedule[i]]);
    }

    /** Subscribe with growing waits until it works or the context is cancelled. */
    method Recover(schedule: seq<Turn>, from: nat) returns (r: Recovery, i: nat)
      requires from <= |schedule| && At(schedule, from, Recovering)
      modifies this
      ensures from <= i <= |schedule|
      ensures r.Recovered? ==> At(schedule, i, Live) && from < i
      ensures r.Gone? ==> At(schedule, i, Ended)
      ensures r.OutOfTurns? ==> i == |schedule| && At(schedule, i, Recovering)
    {
      i := from;
      while i < |schedule|
        invariant from <= i <= |schedule| && At(schedule, i, Recovering)
      {
        var t := schedule[i];
        Next(schedule, i, State(Recovering, backoff, log));
        i := i + 1;
        Do(Wait(backoff));
        if t.cancelled {
          Do(Emit(Shutdown));
          return Gone, i;
        }
        if t.accepted {
          backoff := p.backoffMin;
          Do(Emit(Subscribed));
          return Recovered, i;
        }
        Do(Emit(Reconnecting));
        backoff := NextBackoff(backoff, p.backoffMax);
      }
      return OutOfTurns, i;
    }

    /** The first subscription, before the steady loop. */
    method Start(schedule: seq<Turn>) returns (r: Recovery, i: nat)
      requires At(schedule, 0, Starting)
      modifies this
      ensures i <= |schedule|
      ensures r.Recovered? ==> At(schedule, i, Live)
      ensures r.Gone? ==> At(schedule, i, Ended)
      ensures r.OutOfTurns? ==> i == |schedule| && At(schedule, i, Starting)
    {
      i := 0;
      while i < |schedule|
        invariant i <= |schedule| && At(schedule, i, Starting)
      {
        var t := schedule[i];
        Next(schedule, i, State(Starting, backoff, log));
        i := i + 1;
        if t.accepted {
          Do(Emit(Subscribed));
          backoff := p.backoffMin;
          return Recovered, i;
        }
        ghost var before := log;
        Do(Emit(Reconnecting));
        Do(Wait(backoff));
        assert log == before + [Emit(Reconnecting), Wait(backoff)];
        if t.cancelled {
          Do(Emit(Shutdown));
          return Gone, i;
        }
        backoff := NextBackoff(backoff, p.backoffMax);
      }
      return OutOfTurns, i;
    }

    /** The whole pump. It finishes when a shutdown event went out, and otherwise
        is still at work when the schedule is used up. */
    method Work(schedule: seq<Turn>) returns (finished: bool)
      requires log == [] && backoff == p.backoffMin
      modifies this
      ensures log == Run(p, Initial(p), schedule).log
      ensures finished <==> Run(p, Initial(p), schedule).phase.Ended?
    {
      assert schedule[..0] == [];
      assert schedule[..|schedule|] == schedule;
      var r, i := Start(schedule);
      while r.Recovered? && i < |schedule|
        invariant i <= |schedule|
        invariant r.Recovered? ==> At(schedule, i, Live)
        invariant r.Gone? ==> At(schedule, i, Ended)
        invariant r.OutOfTurns? ==> i == |schedule| && (At(schedule, i, Starting) || At(schedule, i, Recovering))
        decreases |schedule| - i, r.Recovered?
      {
        var t := schedule[i];
        Next(schedule, i, State(Live, backoff, log));
        i := i + 1;
        match t.signal {
          case Cancelled =>
            Do(Emit(Shutdown));
            r := Gone;
          case ReaderFailed =>
            Do(Emit(Shutdown));
            r := Gone;
          case Packet(from) =>
            if p.expected == {} || from in p.expected {
              Do(Emit(Data(from)));
            }
          case RenewTick =>
            if t.accepted {
              Do(Emit(Renewed));
            } else {
              Do(Emit(Reconnecting));
              r, i := Recover(schedule, i);
            }
          case SilenceFired =>
            Do(Emit(Reconnecting));
            r, i := Recover(schedule, i);
        }
      }
      if r.Gone? {
        assert schedule == schedule[..i] + schedule[i..];
        RunAppend(p, Initial(p), schedule[..i], schedule[i..]);
        EndedStays(p, State(Ended, backoff, log), schedule[i..]);
      }
      return r.Gone?;
    }
  }

  // ----- the lifecycle language -----------------------------------------------

  datatype Kind = DataKind | SubscribeKind | RenewKind | ReconnectKind | ShutdownKind

  function KindOf(e: Event): Kind {
    match e
    case Data(_) => DataKind
    case Subscribed => SubscribeKind
    case Renewed => RenewKind
    case Reconnecting => ReconnectKind
    case Shutdown => ShutdownKind
  }

  /** The kinds of the events handed to emit, in order. */
  function Kinds(log: seq<Action>): seq<Kind> {
    if log == [] then []
    else
      var last := log[|log| - 1];
      Kinds(log[..|log| - 1]) + if last.Emit? then [KindOf(last.event)] else []
  }

  /** What happens between two packets of good health. */
  datatype Block = DataBlock | RenewBlock | Outage(failures: nat)

  /** The parse trees of `reconnect+ shutdown` and of
      `reconnect* subscribe (data | renew | reconnect+ subscribe)* reconnect* shutdown`. */
  datatype Lifecycle =
    | NeverLive(failures: nat)
    | Served(failures: nat, blocks: seq<Block>, unrecovered: nat)

  function Reconnects(n: nat): seq<Kind> {
    seq(n, _ => ReconnectKind)
  }

  function BlockWord(b: Block): seq<Kind> {
    match b
    case DataBlock => [DataKind]
    case RenewBlock => [RenewKind]
    case Outage(n) => Reconnects(n + 1) + [SubscribeKind]
  }

  function BlocksWord(blocks: seq<Block>): seq<Kind> {
    if blocks == [] then []
    else BlocksWord(blocks[..|blocks| - 1]) + BlockWord(blocks[|blocks| - 1])
  }

  function ServedWord(failures: nat, blocks: seq<Block>): seq<Kind> {
    Reconnects(failures) + [SubscribeKind] + BlocksWord(blocks)
  }

  function Word(l: Lifecycle): seq<Kind> {
    match l
    case NeverLive(n) => Reconnects(n + 1) + [ShutdownKind]
    case Served(n, blocks, m) => ServedWord(n, blocks) + Reconnects(m) + [ShutdownKind]
  }

  /** How far into a lifecycle an unfinished pump is. */
  predicate Reads(st: State, l: Lifecycle) {
    match st.phase
    case Starting => l.NeverLive? && Kinds(st.log) == Reconnects(l.failures)
    case Live => l.Served? && l.unrecovered == 0 && Kinds(st.log) == ServedWord(l.failures, l.blocks)
    case Recovering =>
      l.Served? && l.unrecovered > 0 && Kinds(st.log) == ServedWord(l.failures, l.blocks) + Reconnects(l.unrecovered)
    case Ended => Kinds(st.log) == Word(l)
  }

  lemma {:induction false} KindsOneMore(log: seq<Action>, a: Action)
    ensures Kinds(log + [a]) == Kinds(log) + if a.Emit? then [KindOf(a.event)] else []
  {
    assert (log + [a])[..|log|] == log;
  }

  /** The kinds one turn adds. */
  function TurnKinds(p: Params, phase: Phase, t: Turn): seq<Kind> {
    match phase
    case Ended => []
    case Starting =>
      if t.accepted then [SubscribeKind]
      else if t.cancelled then [ReconnectKind, ShutdownKind] else [ReconnectKind]
    case Live =>
      (match t.signal
       case Cancelled => [ShutdownKind]
       case ReaderFailed => [ShutdownKind]
       case Packet(from) => if p.Accepts(from) then [DataKind] else []
       case RenewTick => if t.accepted then [RenewKind] else [ReconnectKind]
       case SilenceFired => [ReconnectKind])
    case Recovering =>
      if t.cancelled then [ShutdownKind] else if t.accepted then [SubscribeKind] else [ReconnectKind]
  }

  lemma {:induction false} StepKinds(p: Params, st: State, t: Turn)
    ensures Kinds(Step(p, st, t).log) == Kinds(st.log) + TurnKinds(p, st.phase, t)
  {
    match st.phase {
      case Ended =>
      case Starting => StartingKinds(p, st, t);
      case Live => LiveKinds(p, st, t);
      case Recovering => RecoveringKinds(p, st, t);
    }
  }

  lemma {:induction false} LiveKinds(p: Params, st: State, t: Turn)
    requires st.phase.Live?
    ensures Kinds(Step(p, st, t).log) == Kinds(st.log) + TurnKinds(p, Live, t)
  {
    var log' := Step(p, st, t).log;
    if log' == st.log {
      assert Kinds(st.log) + [] == Kinds(st.log);
    } else {
      KindsOneMore(st.log, log'[|st.log|]);
    }
  }

  lemma {:induction false} RecoveringKinds(p: Params, st: State, t: Turn)
    requires st.phase.Recovering?
    ensures Kinds(Step(p, st, t).log) == Kinds(st.log) + TurnKinds(p, Recovering, t)
  {
    var waited := st.log + [Wait(st.backoff)];
    KindsOneMore(st.log, Wait(st.backoff));
    KindsOneMore(waited, Emit(if t.cancelled then Shutdown else if t.accepted then Subscribed else Reconnecting));
  }

  lemma {:induction false} StartingKinds(p: Params, st: State, t: Turn)
    requires st.phase.Starting?
    ensures Kinds(Step(p, st, t).log) == Kinds(st.log) + TurnKinds(p, Starting, t)
  {
    if t.accepted {
      KindsOneMore(st.log, Emit(Subscribed));
    } else {
      var failed := st.log + [Emit(Reconnecting)];
      var waited := st.log + [Emit(Reconnecting), Wait(st.backoff)];
      assert waited == failed + [Wait(st.backoff)];
      KindsOneMore(st.log, Emit(Reconnecting));
      KindsOneMore(failed, Wait(st.backoff));
      if t.cancelled { KindsOneMore(waited, Emit(Shutdown)); }
    }
  }

  function After(l: Lifecycle, st: State, p: Params, t: Turn): Lifecycle {
    match st.phase
    case Ended => l
    case Starting =>
      if t.accepted then Served(l.failures, [], 0)
      else if t.cancelled then l else NeverLive(l.failures + 1)
    case Live =>
      if l.NeverLive? then l else
      (match t.signal
       case Packet(from) => if p.Accepts(from) then l.(blocks := l.blocks + [DataBlock]) else l
       case RenewTick =>
         if t.accepted then l.(blocks := l.blocks + [RenewBlock]) else l.(unrecovered := 1)
       case SilenceFired => l.(unrecovered := 1)
       case _ => l)
    case Recovering =>
      if l.NeverLive? || t.cancelled then l
      else if t.accepted then
        Served(l.failures, l.blocks + [Outage(if l.unrecovered > 0 then l.unrecovered - 1 else 0)], 0)
      else l.(unrecovered := l.unrecovered + 1)
  }

  lemma {:induction false} OneMoreBlock(n: nat, blocks: seq<Block>, b: Block)
    ensures ServedWord(n, blocks + [b]) == ServedWord(n, blocks) + BlockWord(b)
  {
    assert (blocks + [b])[..|blocks|] == blocks;
  }

  lemma {:induction false} OneMoreReconnect(n: nat)
    ensures Reconnects(n + 1) == Reconnects(n) + [ReconnectKind]
    ensures Reconnects(0) == []
  {
  }

  lemma {:induction false} StartingReads(p: Params, st: State, l: Lifecycle, t: Turn)
    requires st.phase.Starting? && Reads(st, l)
    ensures Reads(Step(p, st, t), After(l, st, p, t))
  {
    StepKinds(p, st, t);
    var n := l.failures;
    OneMoreReconnect(n);
    assert Reconnects(n) + [ReconnectKind, ShutdownKind] == Reconnects(n) + [ReconnectKind] + [ShutdownKind];
    assert ServedWord(n, []) == Reconnects(n) + [SubscribeKind];
  }

  lemma {:induction false} LiveReads(p: Params, st: State, l: Lifecycle, t: Turn)
    requires st.phase.Live? && Reads(st, l)
    ensures Reads(Step(p, st, t), After(l, st, p, t))
  {
    StepKinds(p, st, t);
    OneMoreReconnect(0);
    var served := ServedWord(l.failures, l.blocks);
    OneMoreBlock(l.failures, l.blocks, DataBlock);
    OneMoreBlock(l.failures, l.blocks, RenewBlock);
    assert served + Reconnects(0) == served && Reconnects(1) == [ReconnectKind];
  }

  lemma {:induction false} RecoveringReads(p: Params, st: State, l: Lifecycle, t: Turn)
    requires st.phase.Recovering? && Reads(st, l)
    ensures Reads(Step(p, st, t), After(l, st, p, t))
  {
    StepKinds(p, st, t);
    var m := l.unrecovered;
    OneMoreReconnect(m);
    var served := ServedWord(l.failures, l.blocks);
    OneMoreBlock(l.failures, l.blocks, Outage(m - 1));
    assert served + Reconnects(m) + [SubscribeKind] == served + (Reconnects(m) + [SubscribeKind]);
    assert served + Reconnects(m) + [ReconnectKind] == served + (Reconnects(m) + [ReconnectKind]);
  }

  lemma {:induction false} RunReads(p: Params, st: State, l: Lifecycle, schedule: seq<Turn>) returns (l': Lifecycle)
    requires Reads(st, l)
    ensures Reads(Run(p, st, schedule), l')
    decreases |schedule|
  {
    if schedule == [] {
      return l;
    }
    var t := schedule[0];
    match st.phase {
      case Starting => StartingReads(p, st, l, t);
      case Live => LiveReads(p, st, l, t);
      case Recovering => RecoveringReads(p, st, l, t);
      case Ended =>
    }
    l' := RunReads(p, Step(p, st, t), After(l, st, p, t), schedule[1..]);
  }

  /** The events of a finished pump are a word of the lifecycle language. */
  lemma {:induction false} FinishedRunIsALifecycle(p: Params, schedule: seq<Turn>)
    requires Run(p, Initial(p), schedule).phase.Ended?
    ensures exists l :: Kinds(Run(p, Initial(p), schedule).log) == Word(l)
  {
    var l := RunReads(p, Initial(p), NeverLive(0), schedule);
  }

  /** In every word of the language the shutdown comes last, and only there. */
  lemma {:induction false} OneShutdownLast(l: Lifecycle)
    ensures var w := Word(l);
      w != [] && w[|w| - 1] == ShutdownKind && ShutdownKind !in w[..|w| - 1]
  {
    var w := Word(l);
    if l.Served? {
      BlocksGoOn(l.blocks);
      assert w[..|w| - 1] == ServedWord(l.failures, l.blocks) + Reconnects(l.unrecovered);
    } else {
      assert w[..|w| - 1] == Reconnects(l.failures + 1);
    }
  }

  lemma {:induction false} BlocksGoOn(blocks: seq<Block>)
    ensures ShutdownKind !in BlocksWord(blocks)
  {
    if blocks == [] {
    } else {
      var front, b := BlocksWord(blocks[..|blocks| - 1]), BlockWord(blocks[|blocks| - 1]);
      BlocksGoOn(blocks[..|blocks| - 1]);
      assert ShutdownKind !in b;
      assert BlocksWord(blocks) == front + b;
    }
  }

  // ----- what each turn does, and where the pump then is ------------------------

  function Waits(log: seq<Action>): nat {
    if log == [] then 0 else Waits(log[..|log| - 1]) + if log[|log| - 1].Wait? then 1 else 0
  }

  lemma {:induction false} WaitsOneMore(log: seq<Action>, a: Action)
    ensures Waits(log + [a]) == Waits(log) + if a.Wait? then 1 else 0
  {
    assert (log + [a])[..|log|] == log;
  }

  /** A turn leads into `phase`, adds these kinds of events and waits so many times. */
  predicate Turned(before: State, after: State, phase: Phase, added: seq<Kind>, waits: nat) {
    && after.phase == phase
    && Kinds(after.log) == Kinds(before.log) + added
    && Waits(after.log) == Waits(before.log) + waits
  }

  lemma {:induction false} StepWaits(p: Params, st: State, t: Turn)
    ensures Waits(Step(p, st, t).log)
         == Waits(st.log) + if (st.phase.Starting? && !t.accepted) || st.phase.Recovering? then 1 else 0
  {
    hide Waits;
    var log' := Step(p, st, t).log;
    if st.phase.Recovering? {
      var waited := st.log + [Wait(st.backoff)];
      WaitsOneMore(st.log, Wait(st.backoff));
      WaitsOneMore(waited, Emit(if t.cancelled then Shutdown else if t.accepted then Subscribed else Reconnecting));
    } else if st.phase.Starting? && !t.accepted {
      var failed := st.log + [Emit(Reconnecting)];
      WaitsOneMore(st.log, Emit(Reconnecting));
      WaitsOneMore(failed, Wait(st.backoff));
      WaitsOneMore(failed + [Wait(st.backoff)], Emit(Shutdown));
      assert st.log + [Emit(Reconnecting), Wait(st.backoff)] == failed + [Wait(st.backoff)];
    } else if log' != st.log {
      WaitsOneMore(st.log, log'[|st.log|]);
    }
  }

  /**
   What one more turn does after any schedule. A live pump starts an outage when a
   renewal is refused or nothing was heard for too long, ends when it is cancelled or
   its reader fails, and stays live otherwise. Each failed attempt of an outage is
   reported, and so is the one that works; between attempts the pump waits once.
  */
  lemma {:induction false} OneMoreTurn(p: Params, schedule: seq<Turn>, t: Turn)
    ensures
      var st, st' := Run(p, Initial(p), schedule), Run(p, Initial(p), schedule + [t]);
      match st.phase
      case Ended => st' == st
      case Starting =>
        if t.accepted then Turned(st, st', Live, [SubscribeKind], 0)
        else if t.cancelled then Turned(st, st', Ended, [ReconnectKind, ShutdownKind], 1)
        else Turned(st, st', Starting, [ReconnectKind], 1)
      case Recovering =>
        if t.cancelled then Turned(st, st', Ended, [ShutdownKind], 1)
        else if t.accepted then Turned(st, st', Live, [SubscribeKind], 1)
        else Turned(st, st', Recovering, [ReconnectKind], 1)
      case Live =>
        match t.signal
        case Cancelled => Turned(st, st', Ended, [ShutdownKind], 0)
        case ReaderFailed => Turned(st, st', Ended, [ShutdownKind], 0)
        case SilenceFired => Turned(st, st', Recovering, [ReconnectKind], 0)
        case RenewTick =>
          if t.accepted then Turned(st, st', Live, [RenewKind], 0)
          else Turned(st, st', Recovering, [ReconnectKind], 0)
        case Packet(from) =>
          if p.expected == {} || from in p.expected
          then Turned(st, st', Live, [DataKind], 0) && st'.log[|st'.log| - 1] == Emit(Data(from))
          else st' == st
  {
    hide Kinds, Waits;
    var st := Run(p, Initial(p), schedule);
    RunAppend(p, Initial(p), schedule, [t]);
    RunOfOne(p, st, t);
    StepKinds(p, st, t);
    StepWaits(p, st, t);
  }

  lemma {:induction false} RunOfOne(p: Params, st: State, t: Turn)
    ensures Run(p, st, [t]) == Step(p, st, t)
  {
    assert Run(p, Step(p, st, t), [t][1..]) == Step(p, st, t);
  }

  predicate EndsIn(kinds: seq<Kind>, last: set<Kind>) {
    kinds != [] && kinds[|kinds| - 1] in last
  }

  /** The events tell where the pump is. It ended if and only if the last one is a
      shutdown, and it is live if and only if the last one is a sign of life; when the
      last one is a reconnect it recovers, or has never been subscribed. */
  lemma {:induction false} EventsTellThePhase(p: Params, schedule: seq<Turn>)
    ensures
      var st := Run(p, Initial(p), schedule);
      var kinds := Kinds(st.log);
      && (st.phase.Ended? <==> EndsIn(kinds, {ShutdownKind}))
      && (st.phase.Live? <==> EndsIn(kinds, {SubscribeKind, DataKind, RenewKind}))
      && (st.phase.Live? ==> SubscribeKind in kinds)
      && (st.phase.Recovering? <==> EndsIn(kinds, {ReconnectKind}) && SubscribeKind in kinds)
      && (st.phase.Starting? <==> (kinds == [] || EndsIn(kinds, {ReconnectKind})) && SubscribeKind !in kinds)
    decreases |schedule|
  {
    hide Run, Kinds;
    if schedule == [] {
      NothingYet(p);
    } else {
      var m := |schedule| - 1;
      EventsTellThePhase(p, schedule[..m]);
      OneMoreTurn(p, schedule[..m], schedule[m]);
      assert schedule[..m] + [schedule[m]] == schedule;
      var kinds, kinds' := Kinds(Run(p, Initial(p), schedule[..m]).log), Kinds(Run(p, Initial(p), schedule).log);
      assert kinds <= kinds';
      assert SubscribeKind in kinds' <==> SubscribeKind in kinds || SubscribeKind in kinds'[|kinds|..];
    }
  }

  lemma {:induction false} NothingYet(p: Params)
    ensures Run(p, Initial(p), []) == Initial(p) && Kinds(Initial(p).log) == []
  {
  }

  // ----- and every word of it happens -----------------------------------------

  const FAILS := Turn(false, false, Cancelled)
  const WORKS := Turn(true, false, Cancelled)
  const STOPS := Turn(false, true, Cancelled)

  function Failing(n: nat): seq<Turn> {
    seq(n, _ => FAILS)
  }

  function BlockTurns(from: Address, b: Block): seq<Turn> {
    match b
    case DataBlock => [Turn(false, false, Packet(from))]
    case RenewBlock => [Turn(true, false, RenewTick)]
    case Outage(n) => [SILENCE] + Failing(n) + [WORKS]
  }

  function BlocksTurns(from: Address, blocks: seq<Block>): seq<Turn> {
    if blocks == [] then []
    else BlocksTurns(from, blocks[..|blocks| - 1]) + BlockTurns(from, blocks[|blocks| - 1])
  }

  /** From st, the schedule ends in this phase and adds the word w. */
  predicate Adds(p: Params, st: State, schedule: seq<Turn>, phase: Phase, w: seq<Kind>) {
    var end := Run(p, st, schedule);
    end.phase == phase && Kinds(end.log) == Kinds(st.log) + w
  }

  lemma {:induction false} AddsOne(p: Params, st: State, t: Turn)
    ensures Adds(p, st, [t], Step(p, st, t).phase, TurnKinds(p, st.phase, t))
  {
    assert Run(p, Step(p, st, t), [t][1..]) == Step(p, st, t);
    StepKinds(p, st, t);
  }

  lemma {:induction false} AddsBoth(p: Params, st: State, s: seq<Turn>, w: seq<Kind>, t: seq<Turn>, phase: Phase,
                                    v: seq<Kind>)
    requires Adds(p, st, s, Run(p, st, s).phase, w) && Adds(p, Run(p, st, s), t, phase, v)
    ensures Adds(p, st, s + t, phase, w + v)
  {
    var before, mid, end := Kinds(st.log), Run(p, st, s), Run(p, Run(p, st, s), t);
    assert Kinds(mid.log) == before + w && Kinds(end.log) == Kinds(mid.log) + v;
    assert before + w + v == before + (w + v);
    RunAppend(p, st, s, t);
  }

  /** Failed attempts add one reconnect each and stay in the phase. */
  lemma {:induction false} FailingRun(p: Params, st: State, n: nat)
    requires st.phase.Starting? || st.phase.Recovering?
    ensures Adds(p, st, Failing(n), st.phase, Reconnects(n))
  {
    if n == 0 {
      assert Failing(0) == [];
    } else {
      FailingRun(p, st, n - 1);
      assert Failing(n) == Failing(n - 1) + [FAILS];
      AddsOne(p, Run(p, st, Failing(n - 1)), FAILS);
      AddsBoth(p, st, Failing(n - 1), Reconnects(n - 1), [FAILS], st.phase, [ReconnectKind]);
      OneMoreReconnect(n - 1);
    }
  }

  const SILENCE := Turn(false, false, SilenceFired)

  /** An outage: silence, n failed attempts, then a turn that ends it. */
  lemma {:induction false} OutageRun(p: Params, st: State, n: nat, recovers: bool)
    requires st.phase.Live?
    ensures Adds(p, st, [SILENCE] + Failing(n) + [if recovers then WORKS else STOPS],
      if recovers then Live else Ended,
      Reconnects(n + 1) + [if recovers then SubscribeKind else ShutdownKind])
  {
    var last := if recovers then WORKS else STOPS;
    var w := [if recovers then SubscribeKind else ShutdownKind];
    var down := Step(p, st, SILENCE);
    AddsOne(p, st, SILENCE);
    assert Run(p, st, [SILENCE]) == down by { assert Run(p, down, [SILENCE][1..]) == down; }
    FailingRun(p, down, n);
    AddsBoth(p, st, [SILENCE], [ReconnectKind], Failing(n), Recovering, Reconnects(n));
    assert [ReconnectKind] + Reconnects(n) == Reconnects(n + 1);
    AddsOne(p, Run(p, st, [SILENCE] + Failing(n)), last);
    AddsBoth(p, st, [SILENCE] + Failing(n), Reconnects(n + 1), [last], if recovers then Live else Ended, w);
  }

  lemma {:induction false} BlockRun(p: Params, from: Address, st: State, b: Block)
    requires st.phase.Live? && p.Accepts(from)
    ensures Adds(p, st, BlockTurns(from, b), Live, BlockWord(b))
  {
    match b {
      case DataBlock => AddsOne(p, st, Turn(false, false, Packet(from)));
      case RenewBlock => AddsOne(p, st, Turn(true, false, RenewTick));
      case Outage(n) => OutageRun(p, st, n, true);
    }
  }

  lemma {:induction false} BlocksRun(p: Params, from: Address, st: State, blocks: seq<Block>)
    requires st.phase.Live? && p.Accepts(from)
    ensures Adds(p, st, BlocksTurns(from, blocks), Live, BlocksWord(blocks))
    decreases |blocks|
  {
    if blocks == [] {
    } else {
      var front, b := blocks[..|blocks| - 1], blocks[|blocks| - 1];
      BlocksRun(p, from, st, front);
      BlockRun(p, from, Run(p, st, BlocksTurns(from, front)), b);
      AddsBoth(p, st, BlocksTurns(from, front), BlocksWord(front), BlockTurns(from, b), Live, BlockWord(b));
    }
  }

  lemma {:induction false} SomeAcceptedSource(p: Params) returns (from: Address)
    ensures p.Accepts(from)
  {
    if p.expected == {} {
      from := 0;
    } else {
      from :| from in p.expected;
    }
  }

  /** Every word of the lifecycle language is the run of some schedule. */
  lemma {:induction false} EveryLifecycleHappens(p: Params, l: Lifecycle) returns (schedule: seq<Turn>)
    ensures Run(p, Initial(p), schedule).phase.Ended?
    ensures Kinds(Run(p, Initial(p), schedule).log) == Word(l)
  {
    var start, n := Initial(p), l.failures;
    FailingRun(p, start, n);
    if l.NeverLive? {
      schedule := Failing(n) + [STOPS];
      AddsOne(p, Run(p, start, Failing(n)), STOPS);
      AddsBoth(p, start, Failing(n), Reconnects(n), [STOPS], Ended, [ReconnectKind, ShutdownKind]);
      OneMoreReconnect(n);
    } else {
      var from := SomeAcceptedSource(p);
      ServedRun(p, from, n, l.blocks);
      var rise := Failing(n) + [WORKS] + BlocksTurns(from, l.blocks);
      var live := Run(p, start, rise);
      var m := l.unrecovered;
      if m == 0 {
        schedule := rise + [STOPS];
        AddsOne(p, live, STOPS);
        AddsBoth(p, start, rise, ServedWord(n, l.blocks), [STOPS], Ended, [ShutdownKind]);
        assert ServedWord(n, l.blocks) + Reconnects(0) == ServedWord(n, l.blocks);
      } else {
        var fall := [SILENCE] + Failing(m - 1) + [STOPS];
        schedule := rise + fall;
        OutageRun(p, live, m - 1, false);
        AddsBoth(p, start, rise, ServedWord(n, l.blocks), fall, Ended, Reconnects(m) + [ShutdownKind]);
      }
    }
  }

  lemma {:induction false} ServedRun(p: Params, from: Address, n: nat, blocks: seq<Block>)
    requires p.Accepts(from)
    ensures Adds(p, Initial(p), Failing(n) + [WORKS] + BlocksTurns(from, blocks), Live, ServedWord(n, blocks))
  {
    var start := Initial(p);
    FailingRun(p, start, n);
    AddsOne(p, Run(p, start, Failing(n)), WORKS);
    AddsBoth(p, start, Failing(n), Reconnects(n), [WORKS], Live, [SubscribeKind]);
    var rise := Failing(n) + [WORKS];
    BlocksRun(p, from, Run(p, start, rise), blocks);
    AddsBoth(p, start, rise, Reconnects(n) + [SubscribeKind], BlocksTurns(from, blocks), Live, BlocksWord(blocks));
  }

  // ----- sources and waits ----------------------------------------------------

  /** With a non-empty allow-set, no data event comes from outside it. */
  predicate OnlyExpectedSources(p: Params, log: seq<Action>) {
    forall a | a in log && a.Emit? && a.event.Data? :: p.Accepts(a.event.from)
  }

  /** How many waits started since the last subscribe event. */
  function WaitsInOutage(log: seq<Action>): nat {
    if log == [] then 0
    else
      var last := log[|log| - 1];
      if last.Wait? then WaitsInOutage(log[..|log| - 1]) + 1
      else if last.event.Subscribed? then 0
      else WaitsInOutage(log[..|log| - 1])
  }

  /** The k-th wait of every outage, counting from 0, is min * 2^k capped at max. */
  predicate WaitsDouble(p: Params, log: seq<Action>) {
    forall i | 0 <= i < |log| && log[i].Wait? ::
      log[i].duration == Capped(p.backoffMin, p.backoffMax, WaitsInOutage(log[..i]))
  }

  ghost predicate Steady(p: Params, st: State) {
    && OnlyExpectedSources(p, st.log)
    && WaitsDouble(p, st.log)
    && (!st.phase.Ended? ==> st.backoff == Capped(p.backoffMin, p.backoffMax, WaitsInOutage(st.log)))
  }

  lemma {:induction false} LogGrows(p: Params, log: seq<Action>, a: Action)
    requires OnlyExpectedSources(p, log) && WaitsDouble(p, log)
    requires a.Emit? && a.event.Data? ==> p.Accepts(a.event.from)
    requires a.Wait? ==> a.duration == Capped(p.backoffMin, p.backoffMax, WaitsInOutage(log))
    ensures OnlyExpectedSources(p, log + [a]) && WaitsDouble(p, log + [a])
    ensures WaitsInOutage(log + [a])
         == if a.Wait? then WaitsInOutage(log) + 1 else if a.event.Subscribed? then 0 else WaitsInOutage(log)
  {
    assert (log + [a])[..|log|] == log;
    forall i | 0 <= i < |log| + 1 && (log + [a])[i].Wait?
      ensures (log + [a])[i].duration == Capped(p.backoffMin, p.backoffMax, WaitsInOutage((log + [a])[..i]))
    {
      if i < |log| { assert (log + [a])[..i] == log[..i]; }
    }
  }

  lemma {:induction false} StepIsSteady(p: Params, st: State, t: Turn)
    requires p.Valid() && Steady(p, st)
    ensures Steady(p, Step(p, st, t))
  {
    match st.phase {
      case Ended =>
      case Starting => StartingIsSteady(p, st, t);
      case Live => LiveIsSteady(p, st, t);
      case Recovering => RecoveringIsSteady(p, st, t);
    }
  }

  lemma {:induction false} LiveIsSteady(p: Params, st: State, t: Turn)
    requires p.Valid() && st.phase.Live? && Steady(p, st)
    ensures Steady(p, Step(p, st, t))
  {
    match t.signal {
      case Cancelled => LogGrows(p, st.log, Emit(Shutdown));
      case ReaderFailed => LogGrows(p, st.log, Emit(Shutdown));
      case Packet(from) => if p.Accepts(from) { LogGrows(p, st.log, Emit(Data(from))); }
      case RenewTick => LogGrows(p, st.log, Emit(if t.accepted then Renewed else Reconnecting));
      case SilenceFired => LogGrows(p, st.log, Emit(Reconnecting));
    }
  }

  lemma {:induction false} RecoveringIsSteady(p: Params, st: State, t: Turn)
    requires p.Valid() && st.phase.Recovering? && Steady(p, st)
    ensures Steady(p, Step(p, st, t))
  {
    CappedStep(p.backoffMin, p.backoffMax, WaitsInOutage(st.log));
    LogGrows(p, st.log, Wait(st.backoff));
    var last := if t.cancelled then Shutdown else if t.accepted then Subscribed else Reconnecting;
    LogGrows(p, st.log + [Wait(st.backoff)], Emit(last));
  }

  lemma {:induction false} StartingIsSteady(p: Params, st: State, t: Turn)
    requires p.Valid() && st.phase.Starting? && Steady(p, st)
    ensures Steady(p, Step(p, st, t))
  {
    if t.accepted {
      LogGrows(p, st.log, Emit(Subscribed));
    } else {
      var failed := st.log + [Emit(Reconnecting)];
      var waited := st.log + [Emit(Reconnecting), Wait(st.backoff)];
      assert waited == failed + [Wait(st.backoff)];
      CappedStep(p.backoffMin, p.backoffMax, WaitsInOutage(st.log));
      LogGrows(p, st.log, Emit(Reconnecting));
      LogGrows(p, failed, Wait(st.backoff));
      if t.cancelled { LogGrows(p, waited, Emit(Shutdown)); }
    }
  }

  /** Under every schedule data comes from expected sources only, and the waits
      of every outage double from the minimum up to the cap. */
  lemma {:induction false} RunIsSteady(p: Params, st: State, schedule: seq<Turn>)
    requires p.Valid() && Steady(p, st)
    ensures Steady(p, Run(p, st, schedule))
    decreases |schedule|
  {
    if schedule == [] {
    } else {
      StepIsSteady(p, st, schedule[0]);
      RunIsSteady(p, Step(p, st, schedule[0]), schedule[1..]);
    }
  }

  lemma {:induction false} SourcesAndWaits(p: Params, schedule: seq<Turn>)
    requires p.Valid()
    ensures var log := Run(p, Initial(p), schedule).log;
      OnlyExpectedSources(p, log) && WaitsDouble(p, log)
  {
    assert Capped(p.backoffMin, p.backoffMax, 0) == p.backoffMin;
    RunIsSteady(p, Initial(p), schedule);
  }
}
