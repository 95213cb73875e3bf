/**
 LAN discovery (pkg/discover/discover.go): concurrent description fetches under a
 semaphore, the first-per-UDN filter, the SSDP location list, and the merge of
 SSDP and probe results.
*/
module Discovery {
  import opened Options
  import opened Sorting

  datatype Device = Device(name: string, host: string, model: string, udn: string)

  /** One HTTP attempt at a description; a stall is a timeout or a cut-short body
      after the connection was made. */
  datatype Attempt = Got(dev: Device) | Stalled | Refused

  datatype Fetch = Found(dev: Device) | Missed

  /** One retry, for a stall only. */
  function FetchWithRetry(first: Attempt, second: Attempt): Fetch {
    match first
    case Got(d) => Found(d)
    case Refused => Missed
    case Stalled => if second.Got? then Found(second.dev) else Missed
  }

  // ----- the pool of fetches --------------------------------------------------

  const FETCH_PARALLEL := 16

  /** A goroutine waits for a slot, fetches, stores its result, frees the slot. */
  datatype Worker = Waiting | Fetching | Stored | Done

  datatype Pool = Pool(workers: seq<Worker>, results: seq<Option<Fetch>>)

  function Slot(w: Worker): nat {
    if w.Fetching? || w.Stored? then 1 else 0
  }

  function InFlight(workers: seq<Worker>): nat {
    if workers == [] then 0 else Slot(workers[0]) + InFlight(workers[1..])
  }

  function Stage(w: Worker): nat {
    match w case Waiting => 0 case Fetching => 1 case Stored => 2 case Done => 3
  }

  function Stages(workers: seq<Worker>): nat {
    if workers == [] then 0 else Stage(workers[0]) + Stages(workers[1..])
  }

  function Fresh(n: nat): Pool {
    Pool(seq(n, _ => Waiting), seq(n, _ => None))
  }

  /** Worker i moves one stage on, unless it is done or blocked on the semaphore. */
  function Advance(pool: Pool, outcomes: seq<Fetch>, i: nat): Pool
    requires |pool.workers| == |pool.results| == |outcomes| && i < |outcomes|
  {
    match pool.workers[i]
    case Waiting =>
      if InFlight(pool.workers) < FETCH_PARALLEL then pool.(workers := pool.workers[i := Fetching]) else pool
    case Fetching => Pool(pool.workers[i := Stored], pool.results[i := Some(outcomes[i])])
    case Stored => pool.(workers := pool.workers[i := Done])
    case Done => pool
  }

  /** An interleaving: which worker the scheduler lets move, time after time. */
  function RunPool(outcomes: seq<Fetch>, schedule: seq<nat>): (pool: Pool)
    requires forall k | 0 <= k < |schedule| :: schedule[k] < |outcomes|
    ensures |pool.workers| == |pool.results| == |outcomes|
  {
    if schedule == [] then Fresh(|outcomes|)
    else Advance(RunPool(outcomes, schedule[..|schedule| - 1]), outcomes, schedule[|schedule| - 1])
  }

  predicate Finished(pool: Pool) {
    forall i | 0 <= i < |pool.workers| :: pool.workers[i].Done?
  }

  lemma {:induction false} OneMoves(workers: seq<Worker>, i: nat, w: Worker)
    requires i < |workers|
    ensures InFlight(workers[i := w]) == InFlight(workers) - Slot(workers[i]) + Slot(w)
    ensures Stages(workers[i := w]) == Stages(workers) - Stage(workers[i]) + Stage(w)
  {
    if i > 0 {
      OneMoves(workers[1..], i - 1, w);
      assert workers[i := w][1..] == workers[1..][i - 1 := w];
    } else {
      assert workers[0 := w][1..] == workers[1..];
    }
  }

  lemma {:induction false} NothingInFlightAtFirst(n: nat)
    ensures InFlight(seq(n, _ => Waiting)) == 0 && Stages(seq(n, _ => Waiting)) == 0
  {
    if n == 0 {
    } else {
      NothingInFlightAtFirst(n - 1);
      assert seq(n, _ => Waiting)[1..] == seq(n - 1, _ => Waiting);
    }
  }

  /** In every interleaving at most 16 fetches are in flight, and a stored result
      is the outcome of its own location. */
  lemma {:induction false} PoolInvariant(outcomes: seq<Fetch>, schedule: seq<nat>)
    requires forall k | 0 <= k < |schedule| :: schedule[k] < |outcomes|
    ensures var pool := RunPool(outcomes, schedule);
      && InFlight(pool.workers) <= 16
      && forall i | 0 <= i < |outcomes| ::
           pool.results[i] == if Stage(pool.workers[i]) >= 2 then Some(outcomes[i]) else None
  {
    if schedule == [] {
      NothingInFlightAtFirst(|outcomes|);
    } else {
      var front, i := schedule[..|schedule| - 1], schedule[|schedule| - 1];
      PoolInvariant(outcomes, front);
      var before, after := RunPool(outcomes, front), RunPool(outcomes, schedule);
      OneMoves(before.workers, i, after.workers[i]);
      assert after.workers == before.workers[i := after.workers[i]];
    }
  }

  /** No deadlock: until all are done, some worker can move, and the move is progress. */
  lemma {:induction false} SomeWorkerCanMove(outcomes: seq<Fetch>, schedule: seq<nat>) returns (i: nat)
    requires forall k | 0 <= k < |schedule| :: schedule[k] < |outcomes|
    requires !Finished(RunPool(outcomes, schedule))
    ensures i < |outcomes|
    ensures Stages(RunPool(outcomes, schedule + [i]).workers) == Stages(RunPool(outcomes, schedule).workers) + 1
  {
    var pool := RunPool(outcomes, schedule);
    PoolInvariant(outcomes, schedule);
    i :| 0 <= i < |pool.workers| && !pool.workers[i].Done?;
    if pool.workers[i].Waiting? && InFlight(pool.workers) == FETCH_PARALLEL {
      i := SomeInFlight(pool.workers);
    }
    assert (schedule + [i])[..|schedule|] == schedule;
    var after := RunPool(outcomes, schedule + [i]);
    OneMoves(pool.workers, i, after.workers[i]);
    assert after.workers == pool.workers[i := after.workers[i]];
  }

  /** And as many as 16 do run at once. */
  lemma {:induction false} SlotsFillUp(outcomes: seq<Fetch>, n: nat) returns (schedule: seq<nat>)
    requires n <= 16 && n <= |outcomes|
    ensures forall k | 0 <= k < |schedule| :: schedule[k] < |outcomes|
    ensures InFlight(RunPool(outcomes, schedule).workers) == n
    ensures forall i | n <= i < |outcomes| :: RunPool(outcomes, schedule).workers[i].Waiting?
  {
    hide RunPool, InFlight;
    if n == 0 {
      schedule := [];
      NothingInFlightAtFirst(|outcomes|);
      RunPoolStarts(outcomes);
    } else {
      var front := SlotsFillUp(outcomes, n - 1);
      schedule := front + [n - 1];
      RunPoolOneMore(outcomes, front, n - 1);
      OneMoves(RunPool(outcomes, front).workers, n - 1, Fetching);
    }
  }

  lemma {:induction false} RunPoolStarts(outcomes: seq<Fetch>)
    ensures RunPool(outcomes, []) == Fresh(|outcomes|)
  {
  }

  lemma {:induction false} RunPoolOneMore(outcomes: seq<Fetch>, schedule: seq<nat>, i: nat)
    requires (forall k | 0 <= k < |schedule| :: schedule[k] < |outcomes|) && i < |outcomes|
    ensures RunPool(outcomes, schedule + [i]) == Advance(RunPool(outcomes, schedule), outcomes, i)
  {
    assert (schedule + [i])[..|schedule|] == schedule;
  }

  lemma {:induction false} SomeInFlight(workers: seq<Worker>) returns (i: nat)
    requires InFlight(workers) > 0
    ensures i < |workers| && Slot(workers[i]) == 1
  {
    if Slot(workers[0]) == 1 {
      i := 0;
    } else {
      i := SomeInFlight(workers[1..]);
      i := i + 1;
    }
  }

  lemma {:induction false} StagesAreBounded(workers: seq<Worker>)
    ensures Stages(workers) <= 3 * |workers|
    ensures Stages(workers) == 3 * |workers| <==> (forall i | 0 <= i < |workers| :: workers[i].Done?)
  {
    if workers == [] {
    } else {
      StagesAreBounded(workers[1..]);
      assert forall i | 1 <= i < |workers| :: workers[i] == workers[1..][i - 1];
    }
  }

  /** Every interleaving so far can be completed, and takes exactly the moves it still
      lacks of the 3n that n workers have. */
  lemma {:induction false} EveryScheduleCanFinish(outcomes: seq<Fetch>, schedule: seq<nat>) returns (more: seq<nat>)
    requires forall k | 0 <= k < |schedule| :: schedule[k] < |outcomes|
    ensures forall k | 0 <= k < |more| :: more[k] < |outcomes|
    ensures Finished(RunPool(outcomes, schedule + more))
    ensures |more| == 3 * |outcomes| - Stages(RunPool(outcomes, schedule).workers)
    decreases 3 * |outcomes| - Stages(RunPool(outcomes, schedule).workers)
  {
    hide RunPool, Stages;
    StagesAreBounded(RunPool(outcomes, schedule).workers);
    if Finished(RunPool(outcomes, schedule)) {
      more := [];
      assert schedule + more == schedule;
    } else {
      var i := SomeWorkerCanMove(outcomes, schedule);
      StagesAreBounded(RunPool(outcomes, schedule + [i]).workers);
      var rest := EveryScheduleCanFinish(outcomes, schedule + [i]);
      more := [i] + rest;
      assert schedule + more == schedule + [i] + rest;
    }
  }

  /** The results of a finished pool are the outcomes, in location order. */
  function Collected(pool: Pool): seq<Fetch>
    requires |pool.workers| == |pool.results|
  {
    seq(|pool.results|, i requires 0 <= i < |pool.results| =>
      if pool.results[i].Some? then pool.results[i].value else Missed)
  }

  lemma {:induction false} FinishedPoolIsSequential(outcomes: seq<Fetch>, schedule: seq<nat>)
    requires forall k | 0 <= k < |schedule| :: schedule[k] < |outcomes|
    requires Finished(RunPool(outcomes, schedule))
    ensures Collected(RunPool(outcomes, schedule)) == outcomes
  {
    PoolInvariant(outcomes, schedule);
  }

  // ----- first device per UDN -------------------------------------------------

  predicate HasUdn(devs: seq<Device>, udn: string) {
    exists i | 0 <= i < |devs| :: devs[i].udn == udn
  }

  predicate DistinctUdns(devs: seq<Device>) {
    forall i, j | 0 <= i < j < |devs| :: devs[i].udn != devs[j].udn
  }

  /** The reference: a location's device is kept when no earlier one has its UDN. */
  function FirstPerUdn(results: seq<Fetch>): seq<Device> {
    if results == [] then []
    else
      var front := FirstPerUdn(results[..|results| - 1]);
      var last := results[|results| - 1];
      if last.Found? && !HasUdn(front, last.dev.udn) then front + [last.dev] else front
  }

  /** The loop of the code, over a set of UDNs seen. */
  method FilterResults(results: seq<Fetch>) returns (out: seq<Device>)
    ensures out == FirstPerUdn(results)
  {
    var seen: set<string> := {};
    out := [];
    for n := 0 to |results|
      invariant out == FirstPerUdn(results[..n])
      invariant forall u :: u in seen <==> HasUdn(out, u)
    {
      assert results[..n + 1][..n] == results[..n];
      var r := results[n];
      if r.Missed? { continue; }
      if r.dev.udn in seen { continue; }
      ghost var before := out;
      seen := seen + {r.dev.udn};
      out := out + [r.dev];
      forall u ensures u in seen <==> HasUdn(out, u) {
        if u == r.dev.udn { assert out[|before|].udn == u; }
        if HasUdn(before, u) {
          var i :| 0 <= i < |before| && before[i].udn == u;
          assert out[i].udn == u;
        }
      }
    }
    assert results[..|results|] == results;
  }

  lemma {:induction false} FirstPerUdnCovers(results: seq<Fetch>)
    ensures DistinctUdns(FirstPerUdn(results))
    ensures forall i | 0 <= i < |results| && results[i].Found? :: HasUdn(FirstPerUdn(results), results[i].dev.udn)
  {
    if results == [] {
    } else {
      var n := |results| - 1;
      var front, out := FirstPerUdn(results[..n]), FirstPerUdn(results);
      FirstPerUdnCovers(results[..n]);
      assert forall u | HasUdn(front, u) :: HasUdn(out, u) by {
        forall u | HasUdn(front, u) ensures HasUdn(out, u) {
          var k :| 0 <= k < |front| && front[k].udn == u;
          assert out[k].udn == u;
        }
      }
      if out != front { assert out[|front|] == results[n].dev; }
      forall i | 0 <= i < |results| && results[i].Found? ensures HasUdn(out, results[i].dev.udn) {
        if i < n { assert results[..n][i] == results[i]; }
      }
    }
  }

  /** What the reference means: the result lists, in location order, exactly the
      locations whose UDN no earlier location has; `at` gives their positions. */
  lemma {:induction false} FirstPerUdnMeans(results: seq<Fetch>) returns (at: seq<nat>)
    ensures var out := FirstPerUdn(results);
      && |at| == |out|
      && (forall k | 0 <= k < |at| :: at[k] < |results| && results[at[k]] == Found(out[k]))
      && (forall k, l | 0 <= k < l < |at| :: at[k] < at[l])
      && (forall k, j | 0 <= k < |at| && 0 <= j < at[k] && results[j].Found? ::
            results[j].dev.udn != out[k].udn)
  {
    if results == [] {
      return [];
    }
    var n := |results| - 1;
    at := FirstPerUdnMeans(results[..n]);
    FirstPerUdnCovers(results[..n]);
    var front, out := FirstPerUdn(results[..n]), FirstPerUdn(results);
    if out != front {
      at := at + [n];
      forall j | 0 <= j < n && results[j].Found? ensures results[j].dev.udn != results[n].dev.udn {
        assert HasUdn(front, results[..n][j].dev.udn);
      }
    }
  }

  /** What each location's fetch comes to, with its retry if it needs one. */
  function Outcomes(attempts: seq<(Attempt, Attempt)>): (outcomes: seq<Fetch>)
    ensures |outcomes| == |attempts|
  {
    seq(|attempts|, i requires 0 <= i < |attempts| => FetchWithRetry(attempts[i].0, attempts[i].1))
  }

  /** A location yields a device when its first attempt gets it, or stalls and its second
      attempt gets it. */
  predicate Yields(attempts: (Attempt, Attempt), d: Device) {
    attempts.0 == Got(d) || (attempts.0.Stalled? && attempts.1 == Got(d))
  }

  /** Two attempts come to a device if and only if they yield it. */
  lemma {:induction false} OutcomesMean(attempts: seq<(Attempt, Attempt)>, i: nat, d: Device)
    requires i < |attempts|
    ensures Outcomes(attempts)[i] == Found(d) <==> Yields(attempts[i], d)
  {
  }

  /** Some location yields a device with this UDN. */
  predicate SomeYields(attempts: seq<(Attempt, Attempt)>, udn: string) {
    exists i | 0 <= i < |attempts| :: YieldsUdn(attempts[i], udn)
  }

  predicate YieldsUdn(attempts: (Attempt, Attempt), udn: string) {
    || (attempts.0.Got? && attempts.0.dev.udn == udn)
    || (attempts.0.Stalled? && attempts.1.Got? && attempts.1.dev.udn == udn)
  }

  /**
   What concurrent discovery returns, whatever the interleaving: for every UDN that some
   location yields, the device of the first such location, and nothing else, in the order
   of the locations. `at` gives their positions.
  */
  lemma {:induction false} FinishedPoolListsWhatLocationsYield(attempts: seq<(Attempt, Attempt)>, schedule: seq<nat>)
    returns (at: seq<nat>)
    requires forall k | 0 <= k < |schedule| :: schedule[k] < |attempts|
    requires Finished(RunPool(Outcomes(attempts), schedule))
    ensures var out := FirstPerUdn(Collected(RunPool(Outcomes(attempts), schedule)));
      && |at| == |out|
      && (forall k | 0 <= k < |at| :: at[k] < |attempts| && Yields(attempts[at[k]], out[k]))
      && (forall k, l | 0 <= k < l < |at| :: at[k] < at[l])
      && (forall k, j | 0 <= k < |at| && 0 <= j < at[k] :: !YieldsUdn(attempts[j], out[k].udn))
      && (forall u :: HasUdn(out, u) <==> SomeYields(attempts, u))
  {
    hide RunPool, FirstPerUdn, Collected;
    var outcomes := Outcomes(attempts);
    FinishedPoolIsSequential(outcomes, schedule);
    at := FirstPerUdnMeans(outcomes);
    assert forall j, u | 0 <= j < |attempts| ::
      YieldsUdn(attempts[j], u) <==> outcomes[j].Found? && outcomes[j].dev.udn == u;
    forall u ensures HasUdn(FirstPerUdn(outcomes), u) <==> SomeYields(attempts, u) {
      UdnsOfFilter(outcomes, u);
      SomeYieldsMeans(attempts, u);
    }
  }

  lemma {:induction false} SomeYieldsMeans(attempts: seq<(Attempt, Attempt)>, udn: string)
    ensures SomeYields(attempts, udn) <==> exists f | f in Outcomes(attempts) :: f.Found? && f.dev.udn == udn
  {
    var outcomes := Outcomes(attempts);
    if SomeYields(attempts, udn) {
      var i :| 0 <= i < |attempts| && YieldsUdn(attempts[i], udn);
      assert outcomes[i] in outcomes;
    }
    if f :| f in outcomes && f.Found? && f.dev.udn == udn {
      var i :| 0 <= i < |outcomes| && outcomes[i] == f;
      assert YieldsUdn(attempts[i], udn);
    }
  }

  /** Concurrent fetching refines the sequential loop: every finished interleaving
      gives the first device per UDN in location order. */
  lemma {:induction false} ConcurrentFetchRefinesSequential(attempts: seq<(Attempt, Attempt)>, schedule: seq<nat>)
    requires forall k | 0 <= k < |schedule| :: schedule[k] < |attempts|
    requires Finished(RunPool(Outcomes(attempts), schedule))
    ensures FirstPerUdn(Collected(RunPool(Outcomes(attempts), schedule))) == FirstPerUdn(Outcomes(attempts))
  {
    FinishedPoolIsSequential(Outcomes(attempts), schedule);
  }

  /** And every interleaving can be finished, so none is without an answer. */
  lemma {:induction false} EveryFetchEndsSequentially(attempts: seq<(Attempt, Attempt)>, schedule: seq<nat>)
    returns (more: seq<nat>)
    requires forall k | 0 <= k < |schedule| :: schedule[k] < |attempts|
    ensures forall k | 0 <= k < |more| :: more[k] < |attempts|
    ensures |more| == 3 * |attempts| - Stages(RunPool(Outcomes(attempts), schedule).workers)
    ensures Finished(RunPool(Outcomes(attempts), schedule + more))
    ensures FirstPerUdn(Collected(RunPool(Outcomes(attempts), schedule + more))) == FirstPerUdn(Outcomes(attempts))
  {
    more := EveryScheduleCanFinish(Outcomes(attempts), schedule);
    ConcurrentFetchRefinesSequential(attempts, schedule + more);
  }

  // ----- SSDP locations -------------------------------------------------------

  /** What one interface's search sends over the results channel. */
  datatype Arrival = Arrival(locs: seq<string>, failed: bool)

  datatype Locations = Locations(list: seq<string>) | SearchFailed

  function AllLocations(arrivals: seq<Arrival>): set<string> {
    set a, l | a in arrivals && l in a.locs :: l
  }

  predicate StrictlySorted(s: seq<string>) {
    Sorted(StringLe, s) && NoDuplicates(s)
  }

  /** The answer to a set of arrivals: every location found, once each, sorted; a
      failure only when a search failed and nothing was found. */
  predicate IsAnswer(arrivals: seq<Arrival>, r: Locations) {
    var all := AllLocations(arrivals);
    var failed := exists a | a in arrivals :: a.failed;
    if all == {} && failed then r.SearchFailed?
    else r.Locations? && StrictlySorted(r.list) && (set l | l in r.list) == all
  }

  /** The collecting loop, over the arrivals in the order they come in. */
  method SearchLocations(arrivals: seq<Arrival>) returns (r: Locations)
    ensures IsAnswer(arrivals, r)
  {
    var seen: set<string> := {};
    var locs: seq<string> := [];
    var failed := false;
    for n := 0 to |arrivals|
      invariant seen == (set l | l in locs) && NoDuplicates(locs)
      invariant seen == AllLocations(arrivals[..n])
      invariant failed <==> exists a | a in arrivals[..n] :: a.failed
    {
      var a := arrivals[n];
      assert arrivals[..n + 1] == arrivals[..n] + [a];
      if a.failed { failed := true; }
      for m := 0 to |a.locs|
        invariant seen == (set l | l in locs) && NoDuplicates(locs)
        invariant seen == AllLocations(arrivals[..n]) + (set l | l in a.locs[..m])
      {
        var loc := a.locs[m];
        assert a.locs[..m + 1] == a.locs[..m] + [loc];
        if loc !in seen {
          seen, locs := seen + {loc}, locs + [loc];
        }
      }
      assert a.locs[..|a.locs|] == a.locs;
    }
    assert arrivals[..|arrivals|] == arrivals;
    if |locs| == 0 && failed {
      assert AllLocations(arrivals) == {};
      return SearchFailed;
    }
    assert locs != [] ==> locs[0] in AllLocations(arrivals);
    StringOrder();
    SortSorts(StringLe, locs);
    PermutationKeepsMembers(locs, Sort(StringLe, locs));
    return Locations(Sort(StringLe, locs));
  }

  /** The order in which the searches complete does not change the answer. */
  lemma {:induction false} CompletionOrderDoesNotMatter(arrivals: seq<Arrival>, reordered: seq<Arrival>, r: Locations,
                                                        r': Locations)
    requires multiset(arrivals) == multiset(reordered)
    requires IsAnswer(arrivals, r) && IsAnswer(reordered, r')
    ensures r == r'
  {
    assert forall a :: a in arrivals <==> a in multiset(arrivals);
    assert forall a :: a in reordered <==> a in multiset(reordered);
    assert AllLocations(arrivals) == AllLocations(reordered);
    if r.Locations? {
      StringOrder();
      assert forall l :: l in r.list <==> l in AllLocations(arrivals);
      assert forall l :: l in r'.list <==> l in AllLocations(reordered);
      SortedSetIsUnique(StringLe, r.list, r'.list);
    }
  }

  // ----- merging SSDP and probe -----------------------------------------------

  function FindUdn(devs: seq<Device>, udn: string): (r: Option<Device>)
    ensures r.Some? <==> HasUdn(devs, udn)
    ensures r.Some? ==> r.value in devs && r.value.udn == udn
  {
    if devs == [] then None
    else if devs[0].udn == udn then Some(devs[0])
    else
      assert forall i | 1 <= i < |devs| :: devs[i] == devs[1..][i - 1];
      assert forall i | 0 <= i < |devs| - 1 :: devs[1..][i] == devs[i + 1];
      FindUdn(devs[1..], udn)
  }

  /** What the probe found and SSDP did not, in order. */
  function Unknown(devs: seq<Device>, swept: seq<Device>): seq<Device> {
    if swept == [] then []
    else
      var m := |swept| - 1;
      Unknown(devs, swept[..m]) + if HasUdn(devs, swept[m].udn) then [] else [swept[m]]
  }

  lemma {:induction false} UnknownOfOneMore(devs: seq<Device>, swept: seq<Device>, n: nat)
    requires n < |swept|
    ensures swept[..n + 1] == swept[..n] + [swept[n]]
    ensures Unknown(devs, swept[..n + 1])
         == Unknown(devs, swept[..n]) + if HasUdn(devs, swept[n].udn) then [] else [swept[n]]
    ensures DistinctUdns(swept) ==> !HasUdn(swept[..n], swept[n].udn)
  {
    assert swept[..n + 1][..n] == swept[..n];
  }

  lemma {:induction false} NothingUnknown(devs: seq<Device>, swept: seq<Device>)
    ensures Unknown(devs, swept[..0]) == []
  {
  }

  /** Appends what the probe found and SSDP did not. */
  method MergeSwept(devs: seq<Device>, swept: seq<Device>) returns (out: seq<Device>)
    requires DistinctUdns(devs)
    ensures devs <= out && DistinctUdns(out)
    ensures forall u :: HasUdn(out, u) <==> HasUdn(devs, u) || HasUdn(swept, u)
    ensures forall d | d in out[|devs|..] :: d in swept && !HasUdn(devs, d.udn)
    ensures DistinctUdns(swept) ==> out == devs + Unknown(devs, swept)
  {
    hide Unknown;
    out := devs;
    NothingUnknown(devs, swept);
    for n := 0 to |swept|
      invariant devs <= out && DistinctUdns(out)
      invariant forall u :: HasUdn(out, u) <==> HasUdn(devs, u) || HasUdn(swept[..n], u)
      invariant forall d | d in out[|devs|..] :: d in swept && !HasUdn(devs, d.udn)
      invariant DistinctUdns(swept) ==> out == devs + Unknown(devs, swept[..n])
    {
      var d := swept[n];
      UnknownOfOneMore(devs, swept, n);
      HasUdnOfOneMore(swept[..n], d);
      if FindUdn(out, d.udn).None? {
        HasUdnOfOneMore(out, d);
        out := out + [d];
      }
    }
    assert swept[..|swept|] == swept;
  }

  lemma {:induction false} HasUdnOfOneMore(devs: seq<Device>, d: Device)
    ensures forall u :: HasUdn(devs + [d], u) <==> HasUdn(devs, u) || d.udn == u
  {
    forall u ensures HasUdn(devs + [d], u) <==> HasUdn(devs, u) || d.udn == u {
      if HasUdn(devs, u) {
        var i :| 0 <= i < |devs| && devs[i].udn == u;
        assert (devs + [d])[i].udn == u;
      }
      assert (devs + [d])[|devs|].udn == d.udn;
    }
  }

  datatype SearchResult = Devices(list: seq<Device>) | Failure

  /** SSDP first; the probe when `needProbe` says its devices fall short. An SSDP
      error shows only when nothing was found either way. */
  method Search(ssdp: seq<Fetch>, ssdpFailed: bool, needProbe: seq<Device> -> bool, probe: seq<Fetch>)
    returns (r: SearchResult)
    ensures var devs := FirstPerUdn(ssdp);
      var swept := if needProbe(devs) then FirstPerUdn(probe) else [];
      match r
      case Failure => devs == [] && swept == [] && ssdpFailed
      case Devices(list) =>
        && DistinctUdns(list) && list == devs + Unknown(devs, swept)
        && (forall u :: HasUdn(list, u) <==> HasUdn(devs, u) || HasUdn(swept, u))
        && (list == [] ==> !ssdpFailed)
  {
    var devs := FilterResults(ssdp);
    FirstPerUdnCovers(ssdp);
    FirstPerUdnCovers(probe);
    ghost var swept: seq<Device> := [];
    if needProbe(devs) {
      var found := FilterResults(probe);
      swept := found;
      var merged := MergeSwept(devs, found);
      if found != [] { assert HasUdn(found, found[0].udn) by { assert found[0].udn == found[0].udn; } }
      devs := merged;
    }
    if devs == [] && ssdpFailed {
      return Failure;
    }
    return Devices(devs);
  }

  /** Finding a receiver again by its UDN: the probe runs only when SSDP missed it
      and there is a last address to probe around. */
  method LookupByUdn(udn: string, canProbe: bool, ssdp: seq<Fetch>, ssdpFailed: bool, probe: seq<Fetch>)
    returns (r: Option<Device>)
    ensures r.Some? <==> (
      || (exists f | f in ssdp :: f.Found? && f.dev.udn == udn)
      || (canProbe && exists f | f in probe :: f.Found? && f.dev.udn == udn))
    ensures r.Some? ==> r.value.udn == udn
    ensures r.Some? ==>
      if exists f | f in ssdp :: f.Found? && f.dev.udn == udn then Found(r.value) in ssdp else Found(r.value) in probe
  {
    var s := Search(ssdp, ssdpFailed, devs => canProbe && FindUdn(devs, udn).None?, probe);
    UdnsOfFilter(ssdp, udn);
    UdnsOfFilter(probe, udn);
    if s.Failure? {
      return None;
    }
    r := FindUdn(s.list, udn);
    if r.Some? {
      FoundAmong(ssdp, r.value);
      FoundAmong(probe, r.value);
      UnknownAmong(FirstPerUdn(ssdp), FirstPerUdn(probe), r.value);
    }
  }

  lemma {:induction false} FoundAmong(results: seq<Fetch>, d: Device)
    ensures d in FirstPerUdn(results) ==> Found(d) in results && HasUdn(FirstPerUdn(results), d.udn)
  {
    var at := FirstPerUdnMeans(results);
    var out := FirstPerUdn(results);
    if d in out {
      var k :| 0 <= k < |out| && out[k] == d;
      assert results[at[k]] == Found(out[k]) && out[k].udn == d.udn;
    }
  }

  /** The probe's devices that SSDP does not know keep their order; `at` gives their
      positions. */
  lemma {:induction false} UnknownMeans(devs: seq<Device>, swept: seq<Device>) returns (at: seq<nat>)
    ensures var out := Unknown(devs, swept);
      && |at| == |out|
      && (forall k | 0 <= k < |at| :: at[k] < |swept| && swept[at[k]] == out[k] && !HasUdn(devs, out[k].udn))
      && (forall k, l | 0 <= k < l < |at| :: at[k] < at[l])
      && (forall i | 0 <= i < |swept| && !HasUdn(devs, swept[i].udn) :: i in at)
  {
    if swept == [] {
      return [];
    }
    var m := |swept| - 1;
    at := UnknownMeans(devs, swept[..m]);
    if !HasUdn(devs, swept[m].udn) {
      at := at + [m];
    }
  }

  lemma {:induction false} UnknownAmong(devs: seq<Device>, swept: seq<Device>, d: Device)
    ensures d in Unknown(devs, swept) <==> d in swept && !HasUdn(devs, d.udn)
  {
    if swept == [] {
    } else {
      var m := |swept| - 1;
      UnknownAmong(devs, swept[..m], d);
      assert swept == swept[..m] + [swept[m]];
    }
  }

  lemma {:induction false} UdnsOfFilter(results: seq<Fetch>, udn: string)
    ensures HasUdn(FirstPerUdn(results), udn) <==> exists f | f in results :: f.Found? && f.dev.udn == udn
  {
    FirstPerUdnCovers(results);
    var at := FirstPerUdnMeans(results);
    var out := FirstPerUdn(results);
    if HasUdn(out, udn) {
      var k :| 0 <= k < |out| && out[k].udn == udn;
      assert results[at[k]] == Found(out[k]);
    }
  }
}
