/**
 The timed M-SEARCH exchange (pkg/discover/search.go): three requests spread over
 the wait, and every datagram that arrives until the wait elapses.

 Time is in nanoseconds. The clock never goes back; a read times out at its
 deadline or later, or because the context was cancelled.
*/
module SearchExchange {

  import opened Arithmetic

  const SECOND := 1_000_000_000
  const SENDS := 3
  const MX := 1

  function ResendInterval(wait: int): int {
    var i := TruncDiv(wait - MX * SECOND, SENDS);
    if i > 0 then i else 0
  }

  /** The last request leaves its responders their MX seconds, and no longer
      interval would do so with one more interval to spare. A wait of less than MX
      seconds sends all requests at once. */
  lemma {:induction false} ResendsLeaveMxSeconds(wait: int)
    ensures wait >= 1_000_000_000 ==>
      && 2 * ResendInterval(wait) + 1_000_000_000 <= wait
      && 3 * ResendInterval(wait) + 1_000_000_000 <= wait < 3 * (ResendInterval(wait) + 1) + 1_000_000_000
    ensures wait < 1_000_000_000 ==> ResendInterval(wait) == 0
  {
  }

  datatype ReadResult = Datagram | TimedOut | ReadFailed

  datatype Outcome = WaitElapsed | ReplyWasEnough | ContextDone | FirstSendFailed | DeadlineFailed | ReadBroke

  class Exchange {
    var now: int
    // Datagrams that have yet to arrive.
    var datagrams: nat
    var cancelled: bool
    // The clock reading that let each request go out, in order.
    var sends: seq<int>

    constructor (now: int, datagrams: nat)
      ensures this.now == now && this.datagrams == datagrams && sends == [] && !cancelled
    {
      this.now := now;
      this.datagrams := datagrams;
      this.cancelled := false;
      this.sends := [];
    }

    /** Time passes, and the context may be cancelled. */
    method Clock() returns (t: int)
      modifies this`now, this`cancelled
      ensures t == now && old(now) <= now
      ensures old(cancelled) ==> cancelled
    {
      var later: int := *;
      if later < 0 {
        later := 0;
      }
      var stop: bool := *;
      now, cancelled := now + later, cancelled || stop;
      t := now;
    }

    method Read(until: int, fair: bool) returns (r: ReadResult)
      modifies this`now, this`cancelled, this`datagrams
      ensures old(now) <= now && (old(cancelled) ==> cancelled)
      ensures r.Datagram? ==> datagrams + 1 == old(datagrams)
      ensures !r.Datagram? ==> datagrams == old(datagrams)
      ensures r.TimedOut? ==> until <= now || cancelled
      ensures fair ==> !r.ReadFailed?
    {
      var t := Clock();
      var arrives: bool := *;
      var fails: bool := *;
      if arrives && datagrams > 0 {
        datagrams := datagrams - 1;
        return Datagram;
      }
      if fails && !fair {
        return ReadFailed;
      }
      if !cancelled && now < until {
        now := until;
      }
      return TimedOut;
    }

    /** When request number `sent` is due. */
    function NextSend(start: int, interval: int, sent: nat): int {
      start + sent * interval
    }

    predicate Due(start: int, interval: int, sent: nat)
      reads this
    {
      sent < SENDS && NextSend(start, interval, sent) <= now
    }

    /** What is left to do: datagrams to read, and for each request its send and,
        unless it is due already, the timeout that makes it so. */
    function Remaining(start: int, interval: int, sent: nat): int
      reads this
      requires sent <= SENDS
    {
      datagrams + 2 * (SENDS - sent) - if Due(start, interval, sent) then 1 else 0
    }

    /** Requests go out in turn, so the first that is not due ends the due ones. */
    lemma {:induction false} AllDueAreSent(start: int, interval: int, sent: nat, at: int)
      requires interval >= 0 && sent <= 3
      requires sent == 3 || at < start + sent * interval
      ensures forall k | 0 <= k < 3 && start + k * interval <= at :: k < sent
    {
      forall k | 0 <= k < 3 && start + k * interval <= at ensures k < sent {
        if sent <= k { MulMono(sent, k, interval); }
      }
    }

    /**
     The exchange. `turns` counts the turns of its loop. The body runs at most
     six times more often than datagrams arrive, request k goes out no earlier
     than k intervals after the start, and a wait that elapses did elapse. `last` is
     the clock reading of the last turn: every request due by then went out, unless
     it was the first and it failed. When the socket never fails (`fair`) nothing else
     ends the exchange than the wait, a reply or the context.
    */
    method MSearchExchange(wait: int, fair: bool) returns (r: Outcome, turns: nat, start: int, last: int)
      requires sends == []
      modifies this
      ensures old(now) <= start <= now
      ensures turns <= old(datagrams) - datagrams + 6
      ensures |sends| <= SENDS
      ensures forall k | 0 <= k < |sends| :: start + k * ResendInterval(wait) <= sends[k] <= now
      ensures start <= last <= now
      ensures !r.FirstSendFailed? ==>
        forall k | 0 <= k < 3 && start + k * ResendInterval(wait) <= last :: k < |sends|
      ensures r.WaitElapsed? ==> start + wait <= now
      ensures r.FirstSendFailed? <==> sends == []
      ensures fair ==> r.WaitElapsed? || r.ReplyWasEnough? || r.ContextDone?
      ensures r.ContextDone? ==> cancelled
    {
      var interval := ResendInterval(wait);
      start := Clock();
      var deadline := start + wait;
      var sent := 0;
      turns, last := 0, start;
      while true
        invariant old(now) <= start <= last <= now
        invariant 0 <= sent <= SENDS && |sends| == sent
        invariant forall k | 0 <= k < sent :: start + k * interval <= sends[k] <= now
        invariant sent == 0 ==> turns == 0
        invariant datagrams <= old(datagrams)
        invariant turns + Remaining(start, interval, sent) <= old(datagrams) + 5
        decreases Remaining(start, interval, sent)
      {
        turns := turns + 1;
        var t := Clock();
        last := t;
        if sent < SENDS && !(t < NextSend(start, interval, sent)) {
          var written: bool := *;
          if !written && !fair && sent == 0 {
            return FirstSendFailed, turns, start, last;
          }
          sends := sends + [t];
          sent := sent + 1;
          continue;
        }
        AllDueAreSent(start, interval, sent, last);
        var readUntil := deadline;
        if sent < SENDS && NextSend(start, interval, sent) < readUntil {
          readUntil := NextSend(start, interval, sent);
        }
        var settable: bool := *;
        if !settable && !fair {
          return DeadlineFailed, turns, start, last;
        }
        if cancelled {
          return ContextDone, turns, start, last;
        }
        var read := Read(readUntil, fair);
        if !read.Datagram? {
          if cancelled {
            return ContextDone, turns, start, last;
          }
          if read.ReadFailed? {
            return ReadBroke, turns, start, last;
          }
          t := Clock();
          if t < deadline {
            continue;
          }
          return WaitElapsed, turns, start, last;
        }
        var done: bool := *;
        if done {
          return ReplyWasEnough, turns, start, last;
        }
      }
    }
  }
}
