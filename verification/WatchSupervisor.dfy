/**
 The supervise loop of `ynca watch` (internal/cli/ynca_watch.go): run one
 session at a time, re-settle the host after every few consecutive dial failures,
 and back off between sessions until cancelled.
*/
module WatchSupervisor {
  import opened Arithmetic
  import opened Backoff

  datatype Params = Params(backoffMin: int, backoffMax: int, rediscoverAfter: int) {
    /** The cap is small enough to double in 64 bits; see DoublingStaysInRange. */
    predicate Valid() {
      0 < backoffMin <= backoffMax && 2 * backoffMax <= MAX_INT64 && rediscoverAfter >= 1
    }
  }

  const PRODUCTION := Params(1_000_000_000, 30_000_000_000, 3)

  lemma {:induction false} ProductionIsValid()
    ensures PRODUCTION.Valid()
  {
  }

  /** Where cancellation lands in a turn, if it does. */
  datatype Cancel = Nowhere | DuringRun | DuringSettle | DuringWait

  /** One turn of the loop: how the session ended, and how a settle would go. */
  datatype Turn = Turn(dialFailed: bool, settles: bool, cancel: Cancel)

  datatype Action = Ran(dialFailed: bool) | Settle(ok: bool) | Wait(duration: int)

  datatype State = State(backoff: int, dialFailures: int, log: seq<Action>, ended: bool)

  function Initial(p: Params): State {
    State(p.backoffMin, 0, [], false)
  }

  function Doubled(backoff: int, max: int): int {
    if Wrap64(backoff * 2) > max then max else Wrap64(backoff * 2)
  }

  /** Unlike the subscriber's step, this doubling does not look for overflow: it
      stays between 1 and the cap if and only if twice the cap fits in 64 bits. */
  lemma {:induction false} DoublingStaysInRange(max: int)
    requires 0 < max <= MAX_INT64
    ensures (forall cur | 0 < cur <= max :: 0 < Doubled(cur, max) <= max) <==> 2 * max <= MAX_INT64
  {
    if 2 * max > MAX_INT64 {
      assert 2 * max + MAX_INT64 + 1 == 1 * TWO_TO_64 + (2 * max - MAX_INT64 - 1);
      assert Doubled(max, max) < 0;
    }
  }

  /** The settle of a turn, when the count of dial failures calls for one. */
  function Step(p: Params, st: State, t: Turn): State {
    if st.ended then st
    else if t.cancel.DuringRun? then st.(ended := true)
    else
      var log := st.log + [Ran(t.dialFailed)];
      var failures := if t.dialFailed then st.dialFailures + 1 else 0;
      var due := t.dialFailed && failures >= p.rediscoverAfter;
      var log' := if due then log + [Settle(t.settles)] else log;
      var backoff := if due && t.settles then p.backoffMin else st.backoff;
      var failures' := if due then 0 else failures;
      if due && !t.settles && t.cancel.DuringSettle? then State(backoff, failures', log', true)
      else
        var waited := log' + [Wait(backoff)];
        if t.cancel.DuringWait? || (due && t.cancel.DuringSettle?) then State(backoff, failures', waited, true)
        else State(Doubled(backoff, p.backoffMax), failures', waited, false)
  }

  function Run(p: Params, schedule: seq<Turn>): State {
    if schedule == [] then Initial(p)
    else Step(p, Run(p, schedule[..|schedule| - 1]), schedule[|schedule| - 1])
  }

  lemma {:induction false} EndedStays(p: Params, schedule: seq<Turn>, i: nat)
    requires i <= |schedule| && Run(p, schedule[..i]).ended
    ensures Run(p, schedule) == Run(p, schedule[..i])
    decreases |schedule|
  {
    if i == |schedule| {
      assert schedule[..i] == schedule;
    } else {
      var front := schedule[..|schedule| - 1];
      assert front[..i] == schedule[..i];
      EndedStays(p, front, i);
    }
  }

  class Supervisor {
    const p: Params
    var backoff: int
    var dialFailures: int
    var log: seq<Action>

    constructor (p: Params)
      ensures this.p == p && backoff == p.backoffMin && dialFailures == 0 && log == []
    {
      this.p := p;
      backoff, dialFailures, log := p.backoffMin, 0, [];
    }

    method Do(action: Action)
      modifies this`log
      ensures log == old(log) + [action]
    {
      log := log + [action];
    }

    /** The loop, over a finite stretch of turns. It returns true when it was cancelled. */
    method Supervise(schedule: seq<Turn>) returns (cancelled: bool)
      requires State(backoff, dialFailures, log, false) == Initial(p)
      modifies this
      ensures log == Run(p, schedule).log && cancelled == Run(p, schedule).ended
    {
      var i := 0;
      assert schedule[..0] == [];
      while i < |schedule|
        invariant i <= |schedule|
        invariant State(backoff, dialFailures, log, false) == Run(p, schedule[..i])
      {
        var t := schedule[i];
        var done := t.cancel.DuringWait?;
        assert schedule[..i + 1][..i] == schedule[..i];
        i := i + 1;
        if t.cancel.DuringRun? {
          EndedStays(p, schedule, i);
          return true;
        }
        Do(Ran(t.dialFailed));
        if t.dialFailed {
          dialFailures := dialFailures + 1;
          if dialFailures >= p.rediscoverAfter {
            dialFailures := 0;
            Do(Settle(t.settles));
            done := done || t.cancel.DuringSettle?;
            if t.settles {
              backoff := p.backoffMin;
            } else if t.cancel.DuringSettle? {
              EndedStays(p, schedule, i);
              return true;
            }
          }
        } else {
          dialFailures := 0;
        }
        Do(Wait(backoff));
        if done {
          EndedStays(p, schedule, i);
          return true;
        }
        backoff := Wrap64(backoff * 2);
        if backoff > p.backoffMax {
          backoff := p.backoffMax;
        }
      }
      assert schedule[..i] == schedule;
      return false;
    }
  }

  // ----- what the run does ----------------------------------------------------

  /** The length of the block of consecutive dial failures the log ends in. */
  function DialFailuresAtEnd(log: seq<Action>): nat {
    if log == [] then 0
    else
      var last := log[|log| - 1];
      if last.Ran? && !last.dialFailed then 0
      else DialFailuresAtEnd(log[..|log| - 1]) + if last.Ran? then 1 else 0
  }

  /** The re-settles of that block. */
  function SettlesAtEnd(log: seq<Action>): nat {
    if log == [] then 0
    else
      var last := log[|log| - 1];
      if last.Ran? && !last.dialFailed then 0
      else SettlesAtEnd(log[..|log| - 1]) + if last.Settle? then 1 else 0
  }

  /** The waits started since the last re-settle that worked. */
  function WaitsSinceSettle(log: seq<Action>): nat {
    if log == [] then 0
    else
      var last := log[|log| - 1];
      if last.Settle? && last.ok then 0
      else WaitsSinceSettle(log[..|log| - 1]) + if last.Wait? then 1 else 0
  }

  /** The k-th wait, counting from 0, since the last re-settle that worked is
      min * 2^k capped at max. */
  predicate WaitsDouble(p: Params, log: seq<Action>) {
    forall i | 0 <= i < |log| && log[i].Wait? ::
      log[i].duration == Capped(p.backoffMin, p.backoffMax, WaitsSinceSettle(log[..i]))
  }

  lemma {:induction false} LogGrows(p: Params, log: seq<Action>, a: Action)
    requires WaitsDouble(p, log)
    requires a.Wait? ==> a.duration == Capped(p.backoffMin, p.backoffMax, WaitsSinceSettle(log))
    ensures WaitsDouble(p, log + [a])
    ensures a == Ran(false) ==> DialFailuresAtEnd(log + [a]) == 0 && SettlesAtEnd(log + [a]) == 0
    ensures a != Ran(false) ==>
      && DialFailuresAtEnd(log + [a]) == DialFailuresAtEnd(log) + (if a.Ran? then 1 else 0)
      && SettlesAtEnd(log + [a]) == SettlesAtEnd(log) + (if a.Settle? then 1 else 0)
    ensures WaitsSinceSettle(log + [a])
         == if a == Settle(true) then 0 else WaitsSinceSettle(log) + if a.Wait? then 1 else 0
  {
    assert (log + [a])[..|log|] == log;
    forall i | 0 <= i < |log| + 1 && (log + [a])[i].Wait?
      ensures (log + [a])[i].duration == Capped(p.backoffMin, p.backoffMax, WaitsSinceSettle((log + [a])[..i]))
    {
      if i < |log| { assert (log + [a])[..i] == log[..i]; }
    }
  }

  lemma {:induction false} DoubledIsCappedStep(p: Params, k: nat)
    requires p.Valid()
    ensures Doubled(Capped(p.backoffMin, p.backoffMax, k), p.backoffMax) == Capped(p.backoffMin, p.backoffMax, k + 1)
    ensures p.backoffMin <= Capped(p.backoffMin, p.backoffMax, k) <= p.backoffMax
  {
    CappedStep(p.backoffMin, p.backoffMax, k);
    NextBackoffDoubles(Capped(p.backoffMin, p.backoffMax, k), p.backoffMax);
    assert p.backoffMin * Pow2(k) >= p.backoffMin * 1;
  }

  /** The counter holds what the settles of the current block have not used up. */
  predicate Counted(p: Params, log: seq<Action>, dialFailures: int) {
    && SettlesAtEnd(log) * p.rediscoverAfter + dialFailures == DialFailuresAtEnd(log)
    && 0 <= dialFailures < p.rediscoverAfter
  }

  predicate Steady(p: Params, st: State) {
    && WaitsDouble(p, st.log)
    && Counted(p, st.log, st.dialFailures)
    && (!st.ended ==> st.backoff == Capped(p.backoffMin, p.backoffMax, WaitsSinceSettle(st.log)))
  }

  /** A turn up to its wait: the session's end and the settle it calls for. */
  lemma {:induction false} SettleStep(p: Params, st: State, t: Turn)
    returns (log: seq<Action>, failures: int, backoff: int)
    requires p.Valid() && Steady(p, st) && !st.ended
    ensures var due := t.dialFailed && st.dialFailures + 1 >= p.rediscoverAfter;
      && log == (if due then st.log + [Ran(t.dialFailed)] + [Settle(t.settles)] else st.log + [Ran(t.dialFailed)])
      && failures == (if due || !t.dialFailed then 0 else st.dialFailures + 1)
      && backoff == (if due && t.settles then p.backoffMin else st.backoff)
    ensures WaitsDouble(p, log) && Counted(p, log, failures)
    ensures backoff == Capped(p.backoffMin, p.backoffMax, WaitsSinceSettle(log))
  {
    hide Capped;
    log := st.log + [Ran(t.dialFailed)];
    failures := if t.dialFailed then st.dialFailures + 1 else 0;
    backoff := st.backoff;
    LogGrows(p, st.log, Ran(t.dialFailed));
    var q := SettlesAtEnd(log);
    if t.dialFailed && failures >= p.rediscoverAfter {
      LogGrows(p, log, Settle(t.settles));
      assert (q + 1) * p.rediscoverAfter == q * p.rediscoverAfter + p.rediscoverAfter;
      log := log + [Settle(t.settles)];
      failures := 0;
      if t.settles {
        backoff := p.backoffMin;
        FirstIsTheMinimum(p);
      }
    }
  }

  lemma {:induction false} FirstIsTheMinimum(p: Params)
    requires p.Valid()
    ensures Capped(p.backoffMin, p.backoffMax, 0) == p.backoffMin
  {
  }

  /** The wait that ends a turn. */
  lemma {:induction false} WaitStep(p: Params, log: seq<Action>, failures: int, backoff: int)
    requires p.Valid() && WaitsDouble(p, log) && Counted(p, log, failures)
    requires backoff == Capped(p.backoffMin, p.backoffMax, WaitsSinceSettle(log))
    ensures WaitsDouble(p, log + [Wait(backoff)]) && Counted(p, log + [Wait(backoff)], failures)
    ensures Doubled(backoff, p.backoffMax)
         == Capped(p.backoffMin, p.backoffMax, WaitsSinceSettle(log + [Wait(backoff)]))
  {
    hide Capped, Doubled, WaitsDouble;
    LogGrows(p, log, Wait(backoff));
    DoubledIsCappedStep(p, WaitsSinceSettle(log));
  }

  lemma {:induction false} StepIsSteady(p: Params, st: State, t: Turn)
    requires p.Valid() && Steady(p, st)
    ensures Steady(p, Step(p, st, t))
  {
    hide Capped, Doubled, WaitsDouble, Counted;
    if st.ended || t.cancel.DuringRun? { return; }
    var log, failures, backoff := SettleStep(p, st, t);
    WaitStep(p, log, failures, backoff);
  }

  lemma {:induction false} RunIsSteady(p: Params, schedule: seq<Turn>)
    requires p.Valid()
    ensures Steady(p, Run(p, schedule))
  {
    if schedule == [] {
      FirstIsTheMinimum(p);
    } else {
      RunIsSteady(p, schedule[..|schedule| - 1]);
      StepIsSteady(p, Run(p, schedule[..|schedule| - 1]), schedule[|schedule| - 1]);
    }
  }

  /** Under every schedule, a block of L consecutive dial failures holds exactly
      L / K re-settles. */
  lemma {:induction false} SettlesPerBlock(p: Params, schedule: seq<Turn>)
    requires p.Valid()
    ensures var log := Run(p, schedule).log;
      SettlesAtEnd(log) == DialFailuresAtEnd(log) / p.rediscoverAfter
  {
    RunIsSteady(p, schedule);
    var st := Run(p, schedule);
    QuotientIs(DialFailuresAtEnd(st.log), p.rediscoverAfter, SettlesAtEnd(st.log));
  }

  // ----- the run, from its turns alone ----------------------------------------

  /** How many turns in a row, up to the last one, ended in a dial failure. */
  function DialFailuresInARow(schedule: seq<Turn>): nat {
    if schedule == [] || !schedule[|schedule| - 1].dialFailed then 0
    else 1 + DialFailuresInARow(schedule[..|schedule| - 1])
  }

  /** The last turn is the K-th, 2K-th, ... dial failure in a row. */
  predicate SettleDue(p: Params, schedule: seq<Turn>)
    requires p.rediscoverAfter >= 1 && schedule != []
  {
    schedule[|schedule| - 1].dialFailed && DialFailuresInARow(schedule) % p.rediscoverAfter == 0
  }

  /** The last turn is cancelled, during something it does. */
  predicate Stops(p: Params, schedule: seq<Turn>)
    requires p.rediscoverAfter >= 1 && schedule != []
  {
    match schedule[|schedule| - 1].cancel
    case Nowhere => false
    case DuringRun => true
    case DuringSettle => SettleDue(p, schedule)
    case DuringWait => true
  }

  /** A loop that goes on counts the dial failures in a row, modulo K. */
  lemma {:induction false} CountsFailures(p: Params, schedule: seq<Turn>)
    requires p.rediscoverAfter >= 1
    ensures !Run(p, schedule).ended ==>
      Run(p, schedule).dialFailures == DialFailuresInARow(schedule) % p.rediscoverAfter
  {
    hide Step, Doubled;
    if schedule == [] {
    } else {
      var m := |schedule| - 1;
      CountsFailures(p, schedule[..m]);
      StepCounts(p, Run(p, schedule[..m]), schedule[m]);
      NextRemainder(DialFailuresInARow(schedule[..m]), p.rediscoverAfter);
    }
  }

  lemma {:induction false} StepCounts(p: Params, st: State, t: Turn)
    requires p.rediscoverAfter >= 1
    ensures st.ended ==> Step(p, st, t).ended
    ensures var n := st.dialFailures + 1;
      Step(p, st, t).ended ||
      Step(p, st, t).dialFailures == if !t.dialFailed || n >= p.rediscoverAfter then 0 else n
  {
  }

  lemma {:induction false} NextRemainder(n: nat, k: nat)
    requires k >= 1
    ensures (n + 1) % k == if n % k + 1 == k then 0 else n % k + 1
  {
    var q, r := n / k, n % k;
    assert n == q * k + r;
    if r + 1 == k {
      assert n + 1 == (q + 1) * k;
      QuotientIs(n + 1, k, q + 1);
    } else {
      QuotientIs(n + 1, k, q);
    }
  }

  /** The loop has ended if and only if some turn was cancelled during its session, its
      wait, or a re-settle that was due. */
  lemma {:induction false} EndedExactlyWhen(p: Params, schedule: seq<Turn>)
    requires p.rediscoverAfter >= 1
    ensures Run(p, schedule).ended <==> exists i | 0 < i <= |schedule| :: Stops(p, schedule[..i])
  {
    if schedule == [] {
    } else {
      var m := |schedule| - 1;
      EndedExactlyWhen(p, schedule[..m]);
      assert forall i | 0 <= i <= m :: schedule[..m][..i] == schedule[..i];
      assert schedule[..|schedule|] == schedule;
      if !Run(p, schedule[..m]).ended {
        StopsNow(p, schedule);
      }
    }
  }

  lemma {:induction false} StopsNow(p: Params, schedule: seq<Turn>)
    requires p.rediscoverAfter >= 1 && schedule != [] && !Run(p, schedule[..|schedule| - 1]).ended
    ensures Run(p, schedule).ended <==> Stops(p, schedule)
  {
    var m := |schedule| - 1;
    CountsFailures(p, schedule[..m]);
    NextRemainder(DialFailuresInARow(schedule[..m]), p.rediscoverAfter);
  }

  /** What a turn of a loop that goes on does, in order: the session, the re-settle if one
      is due, and one wait. */
  lemma {:induction false} OneMoreTurn(p: Params, schedule: seq<Turn>, t: Turn)
    requires p.rediscoverAfter >= 1 && !Run(p, schedule + [t]).ended
    ensures
      var before, log := Run(p, schedule).log, Run(p, schedule + [t]).log;
      var due := SettleDue(p, schedule + [t]);
      && before <= log && |log| == |before| + (if due then 3 else 2)
      && log[|before|] == Ran(t.dialFailed)
      && (due ==> log[|before| + 1] == Settle(t.settles))
      && log[|log| - 1].Wait?
  {
    assert (schedule + [t])[..|schedule|] == schedule;
    CountsFailures(p, schedule);
    NextRemainder(DialFailuresInARow(schedule), p.rediscoverAfter);
  }

  // ----- waits ----------------------------------------------------------------

  predicate WaitsInRange(p: Params, log: seq<Action>) {
    forall i | 0 <= i < |log| && log[i].Wait? :: p.backoffMin <= log[i].duration <= p.backoffMax
  }

  /** Under every schedule the waits double from the minimum since the last
      re-settle that worked, and never leave [min, max]. */
  lemma {:induction false} WaitsDoubleAndStayInRange(p: Params, schedule: seq<Turn>)
    requires p.Valid()
    ensures WaitsDouble(p, Run(p, schedule).log) && WaitsInRange(p, Run(p, schedule).log)
  {
    RunIsSteady(p, schedule);
    var log := Run(p, schedule).log;
    forall i | 0 <= i < |log| && log[i].Wait? ensures p.backoffMin <= log[i].duration <= p.backoffMax {
      DoubledIsCappedStep(p, WaitsSinceSettle(log[..i]));
    }
  }

  const DROPPED := Turn(false, false, Nowhere)

  /** A larger cap is left some time: the doubling wraps around, at the cap if not before. */
  lemma {:induction false} WaitsLeaveTheRange(p: Params, schedule: seq<Turn>) returns (longer: seq<Turn>)
    requires p.backoffMax <= MAX_INT64 < 2 * p.backoffMax
    requires !Run(p, schedule).ended && 0 < p.backoffMin && 0 < Run(p, schedule).backoff <= p.backoffMax
    ensures !WaitsInRange(p, Run(p, longer).log)
    decreases p.backoffMax - Run(p, schedule).backoff
  {
    var cur := Run(p, schedule).backoff;
    var once := schedule + [DROPPED];
    assert once[..|schedule|] == schedule;
    if 2 * cur > MAX_INT64 {
      var twice := once + [DROPPED];
      assert twice[..|once|] == once;
      assert 2 * cur + MAX_INT64 + 1 == 1 * TWO_TO_64 + (2 * cur - MAX_INT64 - 1);
      assert Doubled(cur, p.backoffMax) < 0;
      var before, log := Run(p, once).log + [Ran(false)], Run(p, twice).log;
      assert log == before + [Wait(Doubled(cur, p.backoffMax))];
      assert log[|before|] == Wait(Doubled(cur, p.backoffMax));
      longer := twice;
    } else {
      longer := WaitsLeaveTheRange(p, once);
    }
  }

  /** So the waits stay in [min, max] under every schedule if and only if twice the cap
      fits in 64 bits. */
  lemma {:induction false} WaitsStayInRangeExactlyWhen(p: Params)
    requires 0 < p.backoffMin <= p.backoffMax <= MAX_INT64 && p.rediscoverAfter >= 1
    ensures (forall schedule :: WaitsInRange(p, Run(p, schedule).log)) <==> 2 * p.backoffMax <= MAX_INT64
  {
    if 2 * p.backoffMax <= MAX_INT64 {
      forall schedule ensures WaitsInRange(p, Run(p, schedule).log) {
        WaitsDoubleAndStayInRange(p, schedule);
      }
    } else {
      var schedule := WaitsLeaveTheRange(p, []);
      assert !WaitsInRange(p, Run(p, schedule).log);
    }
  }
}
