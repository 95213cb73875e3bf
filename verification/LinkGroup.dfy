/**
 MusicCast Link groups (internal/cli/link.go): creating a group over several
 receivers with rollback, and dissolving it.

 Every call may be refused before or after it is sent, may take effect without
 its acknowledgement arriving, or may work. Receivers are known by host; two
 aliases, or two places in the follower list, may name the same host.
*/
module LinkGroup {

  type Host = string

  datatype Peer = Peer(alias: string, host: Host, zone: string)

  datatype Role = NoRole | ServerRole | ClientRole

  // Reset is the setClientInfo with an empty server address that a rollback sends.
  datatype Request =
    | GetInfo
    | AddServer(group: string, zone: string, clients: seq<Host>)
    | RemoveServer(group: string, zone: string)
    | SetClient(group: string, zone: string, server: Host)
    | Reset(group: string, zone: string)
    | StartDistribution
    | StopDistribution

  datatype Outcome = Refused | Unacknowledged | Acknowledged

  datatype Order = Order(host: Host, request: Request)

  datatype Call = Call(order: Order, outcome: Outcome)

  datatype Pointer = Pointer(group: string, server: Host)

  datatype Serving = Serving(group: string, clients: seq<Host>)

  /** The state of all receivers: who follows whom, who serves whom, who streams. */
  datatype Net = Net(pointer: map<Host, Pointer>, serving: map<Host, Serving>, streaming: set<Host>)

  function RoleOf(net: Net, h: Host): Role {
    if h in net.serving then ServerRole else if h in net.pointer then ClientRole else NoRole
  }

  /** The group a receiver reports; empty when it is in none. */
  function GroupOf(net: Net, h: Host): string {
    if h in net.serving then net.serving[h].group else if h in net.pointer then net.pointer[h].group else ""
  }

  predicate TookEffect(c: Call) {
    c.outcome.Unacknowledged? || c.outcome.Acknowledged?
  }

  /** What a request that takes effect does to the receiver it is sent to. */
  function Apply(net: Net, o: Order): Net {
    match o.request
    case GetInfo => net
    case AddServer(g, _, clients) => net.(serving := net.serving[o.host := Serving(g, clients)])
    case RemoveServer(_, _) => net.(serving := net.serving - {o.host})
    case SetClient(g, _, server) => net.(pointer := net.pointer[o.host := Pointer(g, server)])
    case Reset(_, _) => net.(pointer := net.pointer - {o.host})
    case StartDistribution => net.(streaming := net.streaming + {o.host})
    case StopDistribution => net.(streaming := net.streaming - {o.host})
  }

  function Replay(net: Net, calls: seq<Call>): Net {
    if calls == [] then net
    else
      var before, last := Replay(net, calls[..|calls| - 1]), calls[|calls| - 1];
      if TookEffect(last) then Apply(before, last.order) else before
  }

  function Orders(calls: seq<Call>): (orders: seq<Order>)
    ensures |orders| == |calls| && forall i | 0 <= i < |calls| :: orders[i] == calls[i].order
  {
    seq(|calls|, i requires 0 <= i < |calls| => calls[i].order)
  }

  predicate AllAcknowledged(calls: seq<Call>) {
    forall i | 0 <= i < |calls| :: calls[i].outcome.Acknowledged?
  }

  // ----- the orders of a creation ---------------------------------------------

  function Checks(followers: seq<Peer>): (o: seq<Order>)
    ensures |o| == |followers|
  {
    seq(|followers|, i requires 0 <= i < |followers| => Order(followers[i].host, GetInfo))
  }

  function Hosts(followers: seq<Peer>): seq<Host> {
    seq(|followers|, i requires 0 <= i < |followers| => followers[i].host)
  }

  function PointOrder(leader: Peer, follower: Peer, group: string): Order {
    Order(follower.host, SetClient(group, follower.zone, leader.host))
  }

  function Resets(followers: seq<Peer>, k: nat, group: string): (o: seq<Order>)
    requires k <= |followers|
    ensures |o| == k
  {
    if k == 0 then []
    else Resets(followers, k - 1, group) + [Order(followers[k - 1].host, Reset(group, followers[k - 1].zone))]
  }

  function AddOrder(leader: Peer, followers: seq<Peer>, group: string): Order {
    Order(leader.host, AddServer(group, leader.zone, Hosts(followers)))
  }

  /** The orders up to and including follower number k. */
  function Steps(leader: Peer, followers: seq<Peer>, k: nat, group: string): (o: seq<Order>)
    requires k <= |followers|
    ensures |o| == |followers| + 1 + k
  {
    if k == 0 then Checks(followers) + [AddOrder(leader, followers, group)]
    else Steps(leader, followers, k - 1, group) + [PointOrder(leader, followers[k - 1], group)]
  }

  function StartOrder(leader: Peer): Order {
    Order(leader.host, StartDistribution)
  }

  /** Stop the leader, then reset the followers known to point at it. */
  function Rollback(leader: Peer, confirmed: seq<Peer>, group: string): seq<Order> {
    [Order(leader.host, StopDistribution)] + Resets(confirmed, |confirmed|, group)
  }

  datatype Result =
    | Created
    | CheckFailed(at: nat)
    | AlreadyMember(at: nat)
    | NoGroupId
    | AddFailed
    | PointFailed(at: nat)
    | StartFailed

  /** The calls a creation with this result makes, and which of them worked. */
  predicate Saga(calls: seq<Call>, leader: Peer, followers: seq<Peer>, group: string, r: Result) {
    var f := |followers|;
    match r
    case Created =>
      && AllAcknowledged(calls)
      && Orders(calls) == Steps(leader, followers, |followers|, group) + [StartOrder(leader)]
    case CheckFailed(k) =>
      && k < f && Orders(calls) == Checks(followers)[..k + 1]
      && FailsAt(calls, k)
    case AlreadyMember(k) =>
      && k < f && Orders(calls) == Checks(followers)[..k + 1]
      && AllAcknowledged(calls)
    case NoGroupId =>
      && Orders(calls) == Checks(followers) && AllAcknowledged(calls)
    case AddFailed =>
      Undone(calls, Steps(leader, followers, 0, group), leader, [], group)
    case PointFailed(k) =>
      && k < f
      && Undone(calls, Steps(leader, followers, k + 1, group), leader, followers[..k], group)
    case StartFailed =>
      Undone(calls, Steps(leader, followers, |followers|, group) + [StartOrder(leader)], leader, followers, group)
  }

  /** Call number n is the first that was not acknowledged. */
  predicate FailsAt(calls: seq<Call>, n: nat) {
    n < |calls| && AllAcknowledged(calls[..n]) && !calls[n].outcome.Acknowledged?
  }

  /** The last of these steps failed, and was followed by a rollback. */
  predicate Undone(calls: seq<Call>, steps: seq<Order>, leader: Peer, confirmed: seq<Peer>, group: string) {
    && steps != []
    && Orders(calls) == steps + Rollback(leader, confirmed, group)
    && FailsAt(calls, |steps| - 1)
  }

  // ----- the operations -------------------------------------------------------

  class Fabric {
    var net: Net
    var calls: seq<Call>
    // The state before the first call.
    ghost const initial: Net

    ghost predicate Valid()
      reads this
    {
      net == Replay(initial, calls)
    }

    constructor (net: Net)
      ensures Valid() && this.net == initial == net && calls == []
    {
      this.net, this.initial := net, net;
      calls := [];
    }

    /** One request to one receiver. */
    method Send(order: Order) returns (outcome: Outcome)
      requires Valid()
      modifies this
      ensures calls == old(calls) + [Call(order, outcome)]
      ensures Orders(calls) == Orders(old(calls)) + [order]
      ensures AllAcknowledged(old(calls)) ==>
        if outcome.Acknowledged? then AllAcknowledged(calls) else FailsAt(calls, |old(calls)|)
      ensures net == if TookEffect(Call(order, outcome)) then Apply(old(net), order) else old(net)
      ensures Valid()
    {
      outcome := *;
      calls := calls + [Call(order, outcome)];
      assert calls[..|calls| - 1] == old(calls);
      if TookEffect(Call(order, outcome)) {
        net := Apply(net, order);
      }
    }

    /** Refuses a follower that is part of any group already. */
    method CheckMembership(followers: seq<Peer>) returns (r: Result)
      requires Valid() && calls == []
      modifies this
      ensures Valid() && net == old(net)
      ensures r.Created? || r.CheckFailed? || r.AlreadyMember?
      ensures r.Created? ==> AllAcknowledged(calls) && Orders(calls) == Checks(followers)
      ensures r.Created? ==> forall i | 0 <= i < |followers| :: RoleOf(net, followers[i].host).NoRole?
      ensures r.CheckFailed? ==> r.at < |followers| && FailsAt(calls, r.at)
      ensures r.AlreadyMember? ==> r.at < |followers| && AllAcknowledged(calls)
      ensures r.AlreadyMember? ==> !RoleOf(net, followers[r.at].host).NoRole?
      ensures r.CheckFailed? || r.AlreadyMember? ==> Orders(calls) == Checks(followers)[..r.at + 1]
    {
      for i := 0 to |followers|
        invariant Valid() && net == old(net)
        invariant AllAcknowledged(calls) && Orders(calls) == Checks(followers)[..i]
        invariant forall k | 0 <= k < i :: RoleOf(net, followers[k].host).NoRole?
      {
        var outcome := Send(Order(followers[i].host, GetInfo));
        if !outcome.Acknowledged? {
          return CheckFailed(i);
        }
        if RoleOf(net, followers[i].host) != NoRole {
          return AlreadyMember(i);
        }
      }
      return Created;
    }

    /** Undoes as much as it can: no failure stops it. */
    method RollBack(leader: Peer, confirmed: seq<Peer>, group: string)
      requires Valid()
      modifies this
      ensures old(calls) <= calls
      ensures Orders(calls) == Orders(old(calls)) + Rollback(leader, confirmed, group)
      ensures forall n: nat | FailsAt(old(calls), n) :: FailsAt(calls, n)
      ensures Valid()
    {
      var stopped := Send(Order(leader.host, StopDistribution));
      for i := 0 to |confirmed|
        invariant old(calls) <= calls
        invariant Orders(calls)
               == Orders(old(calls)) + [Order(leader.host, StopDistribution)] + Resets(confirmed, i, group)
        invariant Valid()
      {
        var reset := Send(Order(confirmed[i].host, Reset(group, confirmed[i].zone)));
      }
      forall n: nat | FailsAt(old(calls), n) ensures FailsAt(calls, n) {
        assert calls[..n] == old(calls)[..n];
      }
    }

    /** Points each follower at the leader, and stops at the first failure.
        `confirmed` lists the followers whose setClientInfo was acknowledged. */
    method PointFollowers(leader: Peer, followers: seq<Peer>, group: string) returns (confirmed: seq<Peer>)
      requires Valid() && AllAcknowledged(calls)
      requires Orders(calls) == Steps(leader, followers, 0, group)
      modifies this
      ensures Valid()
      ensures |confirmed| <= |followers| && confirmed == followers[..|confirmed|]
      ensures |confirmed| == |followers| ==>
        AllAcknowledged(calls) && Orders(calls) == Steps(leader, followers, |followers|, group)
      ensures |confirmed| < |followers| ==>
        && FailsAt(calls, |followers| + 1 + |confirmed|)
        && Orders(calls) == Steps(leader, followers, |confirmed| + 1, group)
    {
      confirmed := [];
      for i := 0 to |followers|
        invariant confirmed == followers[..i]
        invariant Valid() && AllAcknowledged(calls)
        invariant Orders(calls) == Steps(leader, followers, i, group)
      {
        var outcome := Send(PointOrder(leader, followers[i], group));
        if !outcome.Acknowledged? {
          return;
        }
        confirmed := confirmed + [followers[i]];
      }
      assert followers[..|followers|] == followers;
    }

    /** Creates a group; `groupId` is the random identifier, absent when there was
        no randomness to be had. */
    method Create(leader: Peer, followers: seq<Peer>, groupId: seq<string>) returns (r: Result)
      requires Valid() && calls == []
      requires |groupId| <= 1
      modifies this
      ensures Valid()
      ensures Saga(calls, leader, followers, if groupId == [] then "" else groupId[0], r)
      ensures r.AlreadyMember? ==> !RoleOf(old(net), followers[r.at].host).NoRole?
      ensures r.NoGroupId? ==> groupId == []
      ensures r.CheckFailed? || r.AlreadyMember? || CanJoin(old(net), followers)
    {
      r := CheckMembership(followers);
      if !r.Created? {
        return;
      }
      if groupId == [] {
        return NoGroupId;
      }
      r := Connect(leader, followers, groupId[0]);
    }

    /** The three mutating steps of a creation. */
    method Connect(leader: Peer, followers: seq<Peer>, group: string) returns (r: Result)
      requires Valid() && AllAcknowledged(calls) && Orders(calls) == Checks(followers)
      modifies this
      ensures Valid()
      ensures r.Created? || r.AddFailed? || r.PointFailed? || r.StartFailed?
      ensures Saga(calls, leader, followers, group, r)
    {
      var added := Send(AddOrder(leader, followers, group));
      if !added.Acknowledged? {
        RollBack(leader, [], group);
        return AddFailed;
      }
      r := Follow(leader, followers, group);
    }

    /** Steps two and three: the followers, then the stream. */
    method Follow(leader: Peer, followers: seq<Peer>, group: string) returns (r: Result)
      requires Valid() && AllAcknowledged(calls) && Orders(calls) == Steps(leader, followers, 0, group)
      modifies this
      ensures Valid()
      ensures r.Created? || r.PointFailed? || r.StartFailed?
      ensures Saga(calls, leader, followers, group, r)
    {
      var confirmed := PointFollowers(leader, followers, group);
      if |confirmed| < |followers| {
        RollBack(leader, confirmed, group);
        return PointFailed(|confirmed|);
      }
      var started := Send(StartOrder(leader));
      if !started.Acknowledged? {
        RollBack(leader, followers, group);
        return StartFailed;
      }
      return Created;
    }

    /** Dissolves the group its leader reports. Nothing is sent to a receiver that
        leads none, and nothing is undone when the second step fails. */
    method Dissolve(leader: Peer) returns (r: Dissolution)
      requires Valid() && calls == []
      modifies this
      ensures Valid()
      ensures |calls| ==
        match r { case InfoFailed | NotInAGroup | NotTheServer => 1 case RemoveFailed => 2 case _ => 3 }
      ensures Orders(calls) == DissolveOrders(leader, GroupOf(old(net), leader.host))[..|calls|]
      ensures |calls| > 1 ==>
        && leader.host in old(net.serving)
        && calls[1].order == Order(leader.host, RemoveServer(old(net.serving[leader.host].group), leader.zone))
      ensures |calls| > 2 ==> calls[2].order == Order(leader.host, StopDistribution)
      ensures r.NotInAGroup? ==>
        && net == old(net)
        && (leader.host in net.serving ==> net.serving[leader.host].group == "")
        && (leader.host in net.pointer && leader.host !in net.serving ==> net.pointer[leader.host].group == "")
      ensures r.NotTheServer? ==> net == old(net) && leader.host !in net.serving && leader.host in net.pointer
      ensures r.InfoFailed? <==> !calls[0].outcome.Acknowledged?
      ensures r.InfoFailed? ==> net == old(net)
      ensures r.RemoveFailed? ==> net.pointer == old(net.pointer) && net.streaming == old(net.streaming)
      ensures r.StopFailed? || r.Dissolved? ==>
        old(leader.host in net.serving) && leader.host !in net.serving && net.pointer == old(net.pointer)
      ensures r.Dissolved? ==>
        net == Net(old(net.pointer), old(net.serving) - {leader.host}, old(net.streaming) - {leader.host})
    {
      var info := Send(Order(leader.host, GetInfo));
      if !info.Acknowledged? {
        return InfoFailed;
      }
      var group := GroupOf(net, leader.host);
      if group == "" {
        return NotInAGroup;
      }
      if RoleOf(net, leader.host) != ServerRole {
        return NotTheServer;
      }
      var removed := Send(Order(leader.host, RemoveServer(group, leader.zone)));
      if !removed.Acknowledged? {
        return RemoveFailed;
      }
      var stopped := Send(Order(leader.host, StopDistribution));
      if !stopped.Acknowledged? {
        return StopFailed;
      }
      return Dissolved;
    }
  }

  function DissolveOrders(leader: Peer, group: string): seq<Order> {
    [Order(leader.host, GetInfo), Order(leader.host, RemoveServer(group, leader.zone)),
     Order(leader.host, StopDistribution)]
  }

  datatype Dissolution = Dissolved | InfoFailed | NotInAGroup | NotTheServer | RemoveFailed | StopFailed

  /** No follower is part of a group. */
  predicate CanJoin(net: Net, followers: seq<Peer>) {
    forall i | 0 <= i < |followers| :: RoleOf(net, followers[i].host).NoRole?
  }

  // ----- the orders, one by one -----------------------------------------------

  /** How many followers are pointed at the leader, or tried. */
  function Points(followers: seq<Peer>, r: Result): nat {
    match r
    case PointFailed(n) => n + 1
    case AddFailed => 0
    case _ => |followers|
  }

  lemma {:induction false} StepsAt(leader: Peer, followers: seq<Peer>, k: nat, group: string, i: nat)
    requires k <= |followers| && i < |followers| + 1 + k
    ensures Steps(leader, followers, k, group)[i] ==
      if i < |followers| then Order(followers[i].host, GetInfo)
      else if i == |followers| then AddOrder(leader, followers, group)
      else
        var f := followers[i - |followers| - 1];
        Order(f.host, SetClient(group, f.zone, leader.host))
  {
    if k == 0 {
    } else if i < |followers| + k {
      StepsAt(leader, followers, k - 1, group, i);
    }
  }

  lemma {:induction false} ResetsAt(followers: seq<Peer>, k: nat, group: string, i: nat)
    requires i < k <= |followers|
    ensures Resets(followers, k, group)[i] == Order(followers[i].host, Reset(group, followers[i].zone))
  {
    if i < k - 1 {
      ResetsAt(followers, k - 1, group, i);
    }
  }

  /** Order number i of a creation past its checks: each follower is asked, then the leader
      told of all of them, then each follower pointed at the leader in its own zone, up to
      the one that fails, and at last the stream started. */
  predicate StepAt(o: Order, leader: Peer, followers: seq<Peer>, group: string, i: nat) {
    var f := |followers|;
    if i < f then o == Order(followers[i].host, GetInfo)
    else if i == f then
      && o.host == leader.host && o.request.AddServer?
      && o.request.group == group && o.request.zone == leader.zone && |o.request.clients| == f
      && forall k | 0 <= k < f :: o.request.clients[k] == followers[k].host
    else if i <= 2 * f then
      var follower := followers[i - f - 1];
      o == Order(follower.host, SetClient(group, follower.zone, leader.host))
    else o == Order(leader.host, StartDistribution)
  }

  lemma {:induction false} StepsAreInOrder(calls: seq<Call>, leader: Peer, followers: seq<Peer>, group: string,
                                           r: Result)
    requires Saga(calls, leader, followers, group, r)
    requires r.Created? || r.AddFailed? || r.PointFailed? || r.StartFailed?
    ensures var n := |followers| + 1 + Points(followers, r) + (if r.Created? || r.StartFailed? then 1 else 0);
      && n <= |calls| && (r.Created? ==> n == |calls|)
      && (forall i | 0 <= i < n :: StepAt(calls[i].order, leader, followers, group, i))
      && (forall i | 0 <= i < n - 1 :: calls[i].outcome.Acknowledged?)
      && (calls[n - 1].outcome.Acknowledged? <==> r.Created?)
  {
    var f, points := |followers|, Points(followers, r);
    forall i | 0 <= i < f + 1 + points ensures StepAt(Orders(calls)[i], leader, followers, group, i) {
      StepsAt(leader, followers, points, group, i);
    }
    if !r.Created? {
      var n := f + 1 + points + (if r.StartFailed? then 1 else 0);
      assert forall i | 0 <= i < n - 1 :: calls[i] == calls[..n - 1][i];
    }
  }

  /** The orders of a rollback that resets the first k followers: the leader is stopped, and
      each of them reset in its own zone. */
  lemma {:induction false} RollbackIsInOrder(calls: seq<Call>, leader: Peer, followers: seq<Peer>, group: string,
                                             r: Result)
    requires Saga(calls, leader, followers, group, r) && (r.AddFailed? || r.PointFailed? || r.StartFailed?)
    ensures
      var n := |followers| + 1 + Points(followers, r) + (if r.StartFailed? then 1 else 0);
      var k := if r.StartFailed? then |followers| else if r.PointFailed? then r.at else 0;
      && |calls| == n + 1 + k && k <= |followers|
      && calls[n].order == Order(leader.host, StopDistribution)
      && forall i | 0 <= i < k :: calls[n + 1 + i].order == Order(followers[i].host, Reset(group, followers[i].zone))
  {
    var n := |followers| + 1 + Points(followers, r) + (if r.StartFailed? then 1 else 0);
    var k := if r.StartFailed? then |followers| else if r.PointFailed? then r.at else 0;
    var confirmed := followers[..k];
    assert r.StartFailed? ==> confirmed == followers;
    assert Orders(calls)[n..] == Rollback(leader, confirmed, group);
    assert Orders(calls)[n] == Orders(calls)[n..][0];
    forall i | 0 <= i < k
      ensures calls[n + 1 + i].order == Order(followers[i].host, Reset(group, followers[i].zone))
    {
      ResetsAt(confirmed, k, group, i);
      assert Orders(calls)[n + 1 + i] == Orders(calls)[n..][1 + i];
    }
  }

  // ----- what a creation leaves behind ----------------------------------------

  /** The hosts of the first k followers. */
  function HostSet(followers: seq<Peer>, k: nat): set<Host>
    requires k <= |followers|
  {
    if k == 0 then {} else HostSet(followers, k - 1) + {followers[k - 1].host}
  }

  /** All these hosts follow the leader. */
  function Following(hosts: set<Host>, group: string, leader: Host): map<Host, Pointer> {
    map h | h in hosts :: Pointer(group, leader)
  }

  /** The state after the first n calls. */
  function After(net: Net, calls: seq<Call>, n: nat): Net
    requires n <= |calls|
  {
    Replay(net, calls[..n])
  }

  lemma {:induction false} AfterOneMore(net: Net, calls: seq<Call>, n: nat)
    requires n < |calls|
    ensures After(net, calls, n + 1) ==
      if TookEffect(calls[n]) then Apply(After(net, calls, n), calls[n].order) else After(net, calls, n)
  {
    assert calls[..n + 1][..n] == calls[..n];
  }

  lemma {:induction false} ChecksChangeNothing(net: Net, calls: seq<Call>, n: nat)
    requires n <= |calls| && forall i | 0 <= i < n :: calls[i].order.request.GetInfo?
    ensures After(net, calls, n) == net
  {
    if n == 0 {
    } else {
      ChecksChangeNothing(net, calls, n - 1);
      AfterOneMore(net, calls, n - 1);
    }
  }

  /** Orders number `at` onwards are these, and took effect. */
  predicate Took(calls: seq<Call>, at: nat, orders: seq<Order>) {
    && at + |orders| <= |calls|
    && forall i | 0 <= i < |orders| :: Match(calls, at, orders, i)
  }

  predicate Match(calls: seq<Call>, at: nat, orders: seq<Order>, i: nat) {
    at + i < |calls| && i < |orders| && calls[at + i].order == orders[i] && TookEffect(calls[at + i])
  }

  /** Orders number `at` onwards are these, whatever came of them. */
  predicate Sent(calls: seq<Call>, at: nat, orders: seq<Order>) {
    && at + |orders| <= |calls|
    && forall i | 0 <= i < |orders| :: SentAt(calls, at, orders, i)
  }

  predicate SentAt(calls: seq<Call>, at: nat, orders: seq<Order>, i: nat) {
    at + i < |calls| && i < |orders| && calls[at + i].order == orders[i]
  }

  /** The hosts of which a reset took effect, among the first k resets from call `at`. */
  function ResetHosts(calls: seq<Call>, at: nat, followers: seq<Peer>, k: nat): (hosts: set<Host>)
    requires k <= |followers| && at + k <= |calls|
    ensures hosts <= HostSet(followers, k)
  {
    if k == 0 then {}
    else
      ResetHosts(calls, at, followers, k - 1)
      + if TookEffect(calls[at + k - 1]) then {followers[k - 1].host} else {}
  }

  lemma {:induction false} AfterResets(net: Net, calls: seq<Call>, at: nat, followers: seq<Peer>, k: nat, group: string)
    requires k <= |followers| && Sent(calls, at, Resets(followers, k, group))
    ensures var before := After(net, calls, at);
      After(net, calls, at + k) == before.(pointer := before.pointer - ResetHosts(calls, at, followers, k))
  {
    var before := After(net, calls, at);
    if k == 0 {
      assert before.pointer - {} == before.pointer;
    } else {
      var last := Order(followers[k - 1].host, Reset(group, followers[k - 1].zone));
      SentPart(calls, at, Resets(followers, k - 1, group), last);
      AfterResets(net, calls, at, followers, k - 1, group);
      AfterOneMore(net, calls, at + k - 1);
      var done := ResetHosts(calls, at, followers, k - 1);
      assert (before.pointer - done) - {last.host} == before.pointer - (done + {last.host});
    }
  }

  lemma {:induction false} SentPart(calls: seq<Call>, at: nat, orders: seq<Order>, last: Order)
    requires Sent(calls, at, orders + [last])
    ensures Sent(calls, at, orders)
    ensures at + |orders| < |calls| && calls[at + |orders|].order == last
  {
    forall i | 0 <= i < |orders| ensures SentAt(calls, at, orders, i) {
      assert SentAt(calls, at, orders + [last], i);
    }
    assert SentAt(calls, at, orders + [last], |orders|);
  }

  lemma {:induction false} TookPart(calls: seq<Call>, at: nat, orders: seq<Order>, last: Order)
    requires Took(calls, at, orders + [last])
    ensures Took(calls, at, orders)
    ensures at + |orders| < |calls| && calls[at + |orders|].order == last && TookEffect(calls[at + |orders|])
  {
    forall i | 0 <= i < |orders| ensures Match(calls, at, orders, i) {
      assert Match(calls, at, orders + [last], i);
    }
    assert Match(calls, at, orders + [last], |orders|);
  }

  lemma {:induction false} OneMoreFollows(pointer: map<Host, Pointer>, hosts: set<Host>, h: Host, group: string,
                                          leader: Host)
    ensures (pointer + Following(hosts, group, leader))[h := Pointer(group, leader)]
         == pointer + Following(hosts + {h}, group, leader)
  {
  }

  /** What the steps of a creation do. */
  function Forward(net: Net, leader: Peer, followers: seq<Peer>, k: nat, group: string): Net
    requires k <= |followers|
  {
    Net(net.pointer + Following(HostSet(followers, k), group, leader.host),
        net.serving[leader.host := Serving(group, Hosts(followers))],
        net.streaming)
  }

  lemma {:induction false} AfterForward(net: Net, calls: seq<Call>, leader: Peer, followers: seq<Peer>, k: nat,
                                        group: string)
    requires k <= |followers| && Took(calls, 0, Steps(leader, followers, k, group))
    ensures After(net, calls, |followers| + 1 + k) == Forward(net, leader, followers, k, group)
  {
    var n := |followers| + k;
    if k == 0 {
      TookPart(calls, 0, Checks(followers), AddOrder(leader, followers, group));
      forall i | 0 <= i < n ensures calls[i].order.request.GetInfo? {
        assert Match(calls, 0, Checks(followers), i);
      }
      ChecksChangeNothing(net, calls, n);
      assert net.pointer + Following({}, group, leader.host) == net.pointer;
    } else {
      TookPart(calls, 0, Steps(leader, followers, k - 1, group), PointOrder(leader, followers[k - 1], group));
      AfterForward(net, calls, leader, followers, k - 1, group);
      OneMoreFollows(net.pointer, HostSet(followers, k - 1), followers[k - 1].host, group, leader.host);
    }
    AfterOneMore(net, calls, n);
  }

  lemma {:induction false} UndoneTook(calls: seq<Call>, steps: seq<Order>, last: Order, leader: Peer,
                                      confirmed: seq<Peer>, group: string)
    requires Undone(calls, steps + [last], leader, confirmed, group)
    ensures |calls| == |steps| + 2 + |confirmed|
    ensures Took(calls, 0, steps) && calls[|steps|].order == last
    ensures calls[|steps| + 1].order == Order(leader.host, StopDistribution)
    ensures Sent(calls, |steps| + 2, Resets(confirmed, |confirmed|, group))
  {
    var n, resets := |steps| + 2, Resets(confirmed, |confirmed|, group);
    forall i | 0 <= i < |steps| ensures Match(calls, 0, steps, i) {
      assert calls[i].order == Orders(calls)[i] && calls[..|steps|][i] == calls[i];
    }
    assert calls[n - 2].order == Orders(calls)[n - 2];
    assert calls[n - 1].order == Orders(calls)[n - 1];
    forall i | 0 <= i < |resets| ensures SentAt(calls, n, resets, i) {
      assert calls[n + i].order == Orders(calls)[n + i] == resets[i];
    }
  }

  /** What a rollback does of which the resets of these hosts took effect. */
  function Undo(net: Net, leader: Peer, reset: set<Host>, stopped: bool): Net {
    net.(pointer := net.pointer - reset,
         streaming := if stopped then net.streaming - {leader.host} else net.streaming)
  }

  /** What a creation leaves that had reached the first k followers when a call failed. */
  function Left(net: Net, leader: Peer, followers: seq<Peer>, k: nat, group: string, failed: Call,
                reset: set<Host>, stopped: bool): Net
    requires k <= |followers|
  {
    var before := Forward(net, leader, followers, k, group);
    Undo(if TookEffect(failed) then Apply(before, failed.order) else before, leader, reset, stopped)
  }

  lemma {:induction false} AfterFailedStep(net: Net, calls: seq<Call>, leader: Peer, followers: seq<Peer>, k: nat,
                                           group: string, n: nat)
    requires k <= |followers| && n == |followers| + 1 + k && |calls| == n + 2 + k
    requires Took(calls, 0, Steps(leader, followers, k, group))
    requires calls[n + 1].order == Order(leader.host, StopDistribution)
    requires Sent(calls, n + 2, Resets(followers[..k], k, group))
    ensures
      var reset := ResetHosts(calls, n + 2, followers[..k], k);
      Replay(net, calls) == Left(net, leader, followers, k, group, calls[n], reset, TookEffect(calls[n + 1]))
  {
    AfterForward(net, calls, leader, followers, k, group);
    AfterOneMore(net, calls, n);
    AfterOneMore(net, calls, n + 1);
    AfterResets(net, calls, n + 2, followers[..k], k, group);
    assert calls[..|calls|] == calls;
  }

  lemma {:induction false} AfterFailure(net: Net, calls: seq<Call>, leader: Peer, followers: seq<Peer>, k: nat,
                                        group: string, last: Order)
    requires k <= |followers|
    requires Undone(calls, Steps(leader, followers, k, group) + [last], leader, followers[..k], group)
    ensures
      var n := |followers| + 1 + k;
      && |calls| == n + 2 + k && calls[n].order == last
      && var reset := ResetHosts(calls, n + 2, followers[..k], k);
         Replay(net, calls) == Left(net, leader, followers, k, group, calls[n], reset, TookEffect(calls[n + 1]))
  {
    UndoneTook(calls, Steps(leader, followers, k, group), last, leader, followers[..k], group);
    AfterFailedStep(net, calls, leader, followers, k, group, |followers| + 1 + k);
  }

  lemma {:induction false} SameHosts(followers: seq<Peer>, n: nat, k: nat)
    requires k <= n <= |followers|
    ensures HostSet(followers[..n], k) == HostSet(followers, k)
  {
    if k == 0 {
    } else {
      SameHosts(followers, n, k - 1);
    }
  }

  /** A creation that works leaves every follower pointing at the leader, and the
      leader serving exactly them. */
  lemma {:induction false} CreatedConnectsAll(net: Net, calls: seq<Call>, leader: Peer, followers: seq<Peer>,
                                              group: string)
    requires Saga(calls, leader, followers, group, Created)
    ensures Replay(net, calls) == Net(net.pointer + Following(HostSet(followers, |followers|), group, leader.host),
                                      net.serving[leader.host := Serving(group, Hosts(followers))],
                                      net.streaming + {leader.host})
  {
    var m, steps := |calls| - 1, Steps(leader, followers, |followers|, group);
    forall i | 0 <= i < |calls| ensures Match(calls, 0, steps + [StartOrder(leader)], i) {
      assert calls[i].order == Orders(calls)[i];
    }
    TookPart(calls, 0, steps, StartOrder(leader));
    AfterForward(net, calls, leader, followers, |followers|, group);
    AfterOneMore(net, calls, m);
    assert calls[..|calls|] == calls;
  }

  /** A creation that stops before its first mutation changes no receiver. */
  lemma {:induction false} ChecksFirst(net: Net, calls: seq<Call>, leader: Peer, followers: seq<Peer>, group: string,
                                       r: Result)
    requires Saga(calls, leader, followers, group, r)
    requires r.CheckFailed? || r.AlreadyMember? || r.NoGroupId?
    ensures Replay(net, calls) == net
  {
    assert forall i | 0 <= i < |calls| :: calls[i].order == Orders(calls)[i] == Checks(followers)[i];
    ChecksChangeNothing(net, calls, |calls|);
    assert calls[..|calls|] == calls;
  }

  /** A refused setServerInfo leaves no follower pointing anywhere new. */
  lemma {:induction false} AddFailureIsUndone(net: Net, calls: seq<Call>, leader: Peer, followers: seq<Peer>,
                                              group: string)
    requires Saga(calls, leader, followers, group, AddFailed)
    ensures Replay(net, calls).pointer == net.pointer
  {
    var f := |followers|;
    assert forall i | 0 <= i < |calls| :: calls[i].order == Orders(calls)[i];
    PointersElsewhere(net, calls, {});
    assert Replay(net, calls).pointer - {} == Replay(net, calls).pointer;
    assert net.pointer - {} == net.pointer;
  }

  /** The hosts a creation pointed at the leader: those of the first k followers, and
      that of the next one if its failed call took effect all the same. */
  function Reached(followers: seq<Peer>, k: nat, failed: Call): set<Host>
    requires k < |followers|
  {
    HostSet(followers, k) + if TookEffect(failed) then {followers[k].host} else {}
  }

  /** After a follower refused, whatever comes of the resets, the hosts left pointing
      at the leader are those reached of which no reset took effect. */
  lemma {:induction false} PointFailureLeaves(net: Net, calls: seq<Call>, leader: Peer, followers: seq<Peer>,
                                              group: string, k: nat)
    requires Saga(calls, leader, followers, group, PointFailed(k)) && CanJoin(net, followers)
    ensures |calls| == |followers| + 3 + 2 * k
    ensures
      var reset := ResetHosts(calls, |followers| + 3 + k, followers[..k], k);
      Replay(net, calls).pointer
        == net.pointer + Following(Reached(followers, k, calls[|followers| + 1 + k]) - reset, group, leader.host)
    ensures TookEffect(calls[|followers| + 2 + k]) ==> leader.host !in Replay(net, calls).streaming
  {
    PointFailureLeft(net, calls, leader, followers, group, k);
    hide Saga, Following, CanJoin, ResetHosts, Left, TookEffect, PointOrder, HostSet, Replay, Reached;
    NobodyFollows(net, followers, k);
    SameHosts(followers, k, k);
    var n := |followers| + 1 + k;
    var reset := ResetHosts(calls, n + 2, followers[..k], k);
    LeftAfterPoint(net, Replay(net, calls), leader, followers, k, group, calls[n], reset, TookEffect(calls[n + 1]));
  }

  lemma {:induction false} PointFailureLeft(net: Net, calls: seq<Call>, leader: Peer, followers: seq<Peer>,
                                            group: string, k: nat)
    requires Saga(calls, leader, followers, group, PointFailed(k))
    ensures k < |followers| && |calls| == |followers| + 3 + 2 * k
    ensures
      var n := |followers| + 1 + k;
      var reset := ResetHosts(calls, n + 2, followers[..k], k);
      && calls[n].order == PointOrder(leader, followers[k], group)
      && Replay(net, calls) == Left(net, leader, followers, k, group, calls[n], reset, TookEffect(calls[n + 1]))
  {
    PointFailureUndone(calls, leader, followers, group, k);
    hide Saga, Undone, Left, Replay, Steps;
    AfterFailure(net, calls, leader, followers, k, group, PointOrder(leader, followers[k], group));
  }

  lemma {:induction false} LeftAfterPoint(net: Net, after: Net, leader: Peer, followers: seq<Peer>, k: nat,
                                          group: string, failed: Call, reset: set<Host>, stopped: bool)
    requires k < |followers| && failed.order == PointOrder(leader, followers[k], group)
    requires net.pointer.Keys !! HostSet(followers, k) && reset <= HostSet(followers, k)
    requires after == Left(net, leader, followers, k, group, failed, reset, stopped)
    ensures after.pointer == net.pointer + Following(Reached(followers, k, failed) - reset, group, leader.host)
    ensures stopped ==> leader.host !in after.streaming
  {
    hide Following, HostSet;
    OneMoreLeft(net.pointer, HostSet(followers, k), followers[k].host, reset, group, leader.host);
    PointersLeft(net.pointer, HostSet(followers, k), reset, group, leader.host);
    assert HostSet(followers, k) + {} == HostSet(followers, k);
  }

  lemma {:induction false} PointFailureUndone(calls: seq<Call>, leader: Peer, followers: seq<Peer>, group: string,
                                              k: nat)
    requires Saga(calls, leader, followers, group, PointFailed(k))
    ensures k < |followers|
    ensures Undone(calls, Steps(leader, followers, k, group) + [PointOrder(leader, followers[k], group)], leader,
                   followers[..k], group)
  {
  }

  /** When the stream does not start, they are those of which no reset took effect. */
  lemma {:induction false} StartFailureLeaves(net: Net, calls: seq<Call>, leader: Peer, followers: seq<Peer>,
                                              group: string)
    requires Saga(calls, leader, followers, group, StartFailed) && CanJoin(net, followers)
    ensures |calls| == 3 * |followers| + 3
    ensures
      var reached := HostSet(followers, |followers|);
      var reset := ResetHosts(calls, 2 * |followers| + 3, followers, |followers|);
      Replay(net, calls).pointer == net.pointer + Following(reached - reset, group, leader.host)
    ensures TookEffect(calls[2 * |followers| + 2]) ==> leader.host !in Replay(net, calls).streaming
  {
    var f := |followers|;
    StartFailureUndone(calls, leader, followers, group);
    assert followers[..f] == followers;
    hide Saga, Following, Steps, Undone, CanJoin, ResetHosts, HostSet, Replay, Left, TookEffect, StartOrder;
    AfterFailure(net, calls, leader, followers, f, group, StartOrder(leader));
    NobodyFollows(net, followers, f);
    var n, reset := 2 * f + 1, ResetHosts(calls, 2 * f + 3, followers, f);
    LeftAfterStart(net, Replay(net, calls), leader, followers, group, calls[n], reset, TookEffect(calls[n + 1]));
  }

  lemma {:induction false} StartFailureUndone(calls: seq<Call>, leader: Peer, followers: seq<Peer>, group: string)
    requires Saga(calls, leader, followers, group, StartFailed)
    ensures Undone(calls, Steps(leader, followers, |followers|, group) + [StartOrder(leader)], leader,
                   followers[..|followers|], group)
  {
    assert followers[..|followers|] == followers;
  }

  lemma {:induction false} LeftAfterStart(net: Net, after: Net, leader: Peer, followers: seq<Peer>, group: string,
                                          failed: Call, reset: set<Host>, stopped: bool)
    requires failed.order == StartOrder(leader)
    requires net.pointer.Keys !! HostSet(followers, |followers|) && reset <= HostSet(followers, |followers|)
    requires after == Left(net, leader, followers, |followers|, group, failed, reset, stopped)
    ensures after.pointer
         == net.pointer + Following(HostSet(followers, |followers|) - reset, group, leader.host)
    ensures stopped ==> leader.host !in after.streaming
  {
    hide Following, HostSet;
    PointersLeft(net.pointer, HostSet(followers, |followers|), reset, group, leader.host);
  }

  /** What is left of the pointers to the leader after some hosts were reset. */
  lemma {:induction false} PointersLeft(pointer: map<Host, Pointer>, hosts: set<Host>, reset: set<Host>, group: string,
                                        leader: Host)
    requires pointer.Keys !! hosts && reset <= hosts
    ensures (pointer + Following(hosts, group, leader)) - reset == pointer + Following(hosts - reset, group, leader)
  {
  }

  /** The same when one more host follows, which may have been a follower before. */
  lemma {:induction false} OneMoreLeft(pointer: map<Host, Pointer>, hosts: set<Host>, h: Host, reset: set<Host>,
                                       group: string, leader: Host)
    requires pointer.Keys !! hosts && reset <= hosts
    ensures (pointer + Following(hosts, group, leader))[h := Pointer(group, leader)] - reset
         == pointer + Following(hosts + {h} - reset, group, leader)
  {
  }

  /** Every reset that was sent took effect. */
  predicate ResetsWork(calls: seq<Call>) {
    forall i | 0 <= i < |calls| :: calls[i].order.request.Reset? ==> TookEffect(calls[i])
  }

  lemma {:induction false} AllAreReset(calls: seq<Call>, at: nat, followers: seq<Peer>, k: nat, group: string)
    requires k <= |followers| && Sent(calls, at, Resets(followers, k, group)) && ResetsWork(calls)
    ensures ResetHosts(calls, at, followers, k) == HostSet(followers, k)
  {
    if k == 0 {
    } else {
      var last := Order(followers[k - 1].host, Reset(group, followers[k - 1].zone));
      SentPart(calls, at, Resets(followers, k - 1, group), last);
      AllAreReset(calls, at, followers, k - 1, group);
    }
  }

  /** So when the resets work, at most the follower that failed is left pointing at the
      leader, and it exactly if its call took effect all the same and its host is not
      among those reset. */
  lemma {:induction false} PointFailureIsUndone(net: Net, calls: seq<Call>, leader: Peer, followers: seq<Peer>,
                                                group: string, k: nat)
    requires Saga(calls, leader, followers, group, PointFailed(k))
    requires CanJoin(net, followers) && ResetsWork(calls)
    ensures Replay(net, calls).pointer ==
      if TookEffect(calls[|followers| + 1 + k]) && followers[k].host !in HostSet(followers, k)
      then net.pointer[followers[k].host := Pointer(group, leader.host)]
      else net.pointer
  {
    var last := PointOrder(leader, followers[k], group);
    PointFailureUndone(calls, leader, followers, group, k);
    PointFailureLeaves(net, calls, leader, followers, group, k);
    hide Saga, Following, Steps, Undone, CanJoin, ResetHosts, ResetsWork, Replay, Took, Sent, Resets, HostSet;
    UndoneTook(calls, Steps(leader, followers, k, group), last, leader, followers[..k], group);
    AllAreReset(calls, |followers| + 3 + k, followers[..k], k, group);
    SameHosts(followers, k, k);
    var reached := Reached(followers, k, calls[|followers| + 1 + k]);
    OneLeft(net.pointer, reached - HostSet(followers, k), followers[k].host, group, leader.host);
  }

  lemma {:induction false} OneLeft(pointer: map<Host, Pointer>, hosts: set<Host>, h: Host, group: string, leader: Host)
    requires hosts <= {h}
    ensures pointer + Following(hosts, group, leader)
         == if h in hosts then pointer[h := Pointer(group, leader)] else pointer
  {
  }

  /** And when the stream did not start, none. */
  lemma {:induction false} StartFailureIsUndone(net: Net, calls: seq<Call>, leader: Peer, followers: seq<Peer>,
                                                group: string)
    requires Saga(calls, leader, followers, group, StartFailed)
    requires CanJoin(net, followers) && ResetsWork(calls)
    ensures Replay(net, calls).pointer == net.pointer
  {
    var f := |followers|;
    assert followers[..f] == followers;
    StartFailureLeaves(net, calls, leader, followers, group);
    UndoneTook(calls, Steps(leader, followers, f, group), StartOrder(leader), leader, followers, group);
    AllAreReset(calls, 2 * f + 3, followers, f, group);
    OneLeft(net.pointer, HostSet(followers, f) - HostSet(followers, f), "", group, leader.host);
  }

  // ----- what becomes of the leader -------------------------------------------

  predicate Serves(o: Order) {
    o.request.AddServer? || o.request.RemoveServer?
  }

  /** Of a list of calls with one setServerInfo, that one decides who serves. */
  lemma {:induction false} OneCallServes(net: Net, calls: seq<Call>, at: nat)
    requires forall i | 0 <= i < |calls| && i != at :: !Serves(calls[i].order)
    ensures Replay(net, calls).serving
         == if at < |calls| && TookEffect(calls[at]) then Apply(net, calls[at].order).serving else net.serving
  {
    if calls == [] {
    } else {
      var m := |calls| - 1;
      assert forall i | 0 <= i < m :: calls[..m][i] == calls[i];
      OneCallServes(net, calls[..m], at);
    }
  }

  predicate ServesOnlyAt(orders: seq<Order>, at: nat) {
    forall i | 0 <= i < |orders| && i != at :: !Serves(orders[i])
  }

  lemma {:induction false} StepsServeOnce(leader: Peer, followers: seq<Peer>, k: nat, group: string)
    requires k <= |followers|
    ensures ServesOnlyAt(Steps(leader, followers, k, group), |followers|)
    ensures Steps(leader, followers, k, group)[|followers|] == AddOrder(leader, followers, group)
  {
    if k > 0 {
      StepsServeOnce(leader, followers, k - 1, group);
    } else {
      var steps := Steps(leader, followers, 0, group);
      forall i | 0 <= i < |followers| ensures !Serves(steps[i]) {
        assert steps[i] == Checks(followers)[i];
      }
    }
  }

  lemma {:induction false} ResetsServeNobody(followers: seq<Peer>, k: nat, group: string, at: nat)
    requires k <= |followers|
    ensures ServesOnlyAt(Resets(followers, k, group), at)
  {
    if k == 0 {
    } else {
      ResetsServeNobody(followers, k - 1, group, at);
    }
  }

  /** The steps taken by a creation that failed past its checks. */
  function StepsOf(leader: Peer, followers: seq<Peer>, group: string, r: Result): (steps: seq<Order>)
    requires r.AddFailed? || r.StartFailed? || (r.PointFailed? && r.at < |followers|)
    ensures |steps| > |followers|
  {
    if r.AddFailed? then Steps(leader, followers, 0, group)
    else if r.PointFailed? then Steps(leader, followers, r.at + 1, group)
    else Steps(leader, followers, |followers|, group) + [StartOrder(leader)]
  }

  lemma {:induction false} UndoneServesOnce(calls: seq<Call>, steps: seq<Order>, leader: Peer, confirmed: seq<Peer>,
                                            group: string, at: nat)
    requires Undone(calls, steps, leader, confirmed, group) && at < |steps| && ServesOnlyAt(steps, at)
    ensures |calls| > |steps| && calls[at].order == steps[at]
    ensures forall i | 0 <= i < |calls| && i != at :: !Serves(calls[i].order)
    ensures at < |steps| - 1 ==> TookEffect(calls[at])
  {
    ResetsServeNobody(confirmed, |confirmed|, group, |confirmed|);
    forall i | 0 <= i < |calls| ensures calls[i].order == (steps + Rollback(leader, confirmed, group))[i] {
      assert calls[i].order == Orders(calls)[i];
    }
    assert at < |steps| - 1 ==> calls[..|steps| - 1][at] == calls[at];
  }

  /** A rollback does not take back setServerInfo: after any failure past the checks
      the leader serves the group if and only if that call took effect, and it did
      whenever a later one failed. */
  lemma {:induction false} RollbackKeepsTheServer(net: Net, calls: seq<Call>, leader: Peer, followers: seq<Peer>,
                                                  group: string, r: Result)
    requires Saga(calls, leader, followers, group, r) && (r.AddFailed? || r.PointFailed? || r.StartFailed?)
    ensures |calls| > |followers| && (!r.AddFailed? ==> TookEffect(calls[|followers|]))
    ensures Replay(net, calls).serving
         == if TookEffect(calls[|followers|]) then net.serving[leader.host := Serving(group, Hosts(followers))]
            else net.serving
  {
    var f, steps := |followers|, StepsOf(leader, followers, group, r);
    var confirmed := if r.AddFailed? then [] else if r.PointFailed? then followers[..r.at] else followers;
    StepsServeOnce(leader, followers, if r.AddFailed? then 0 else if r.PointFailed? then r.at + 1 else f, group);
    assert ServesOnlyAt(steps, f) && steps[f] == AddOrder(leader, followers, group);
    UndoneServesOnce(calls, steps, leader, confirmed, group, f);
    OneCallServes(net, calls, f);
  }

  /** So a failed creation leaves the receivers' server roles as they were exactly when
      its setServerInfo did not take effect, or said what was the case already. */
  lemma {:induction false} ServersAreRestoredExactlyWhen(net: Net, calls: seq<Call>, leader: Peer, followers: seq<Peer>,
                                                         group: string, r: Result)
    requires Saga(calls, leader, followers, group, r) && (r.AddFailed? || r.PointFailed? || r.StartFailed?)
    ensures |calls| > |followers|
    ensures Replay(net, calls).serving == net.serving <==>
      || !TookEffect(calls[|followers|])
      || (leader.host in net.serving && net.serving[leader.host] == Serving(group, Hosts(followers)))
  {
    RollbackKeepsTheServer(net, calls, leader, followers, group, r);
    var served := net.serving[leader.host := Serving(group, Hosts(followers))];
    assert served[leader.host] == Serving(group, Hosts(followers));
    if leader.host in net.serving && net.serving[leader.host] == Serving(group, Hosts(followers)) {
      assert served == net.serving;
    }
  }

  /** One such run: the only follower refuses, every call of the rollback works, and the
      leader is left the server of a group nobody follows. */
  lemma {:induction false} AServerIsLeftBehind() returns (calls: seq<Call>, leader: Peer, follower: Peer)
    ensures Saga(calls, leader, [follower], "g", PointFailed(0)) && ResetsWork(calls)
    ensures Replay(Net(map[], map[], {}), calls) == Net(map[], map["a" := Serving("g", ["b"])], {})
  {
    leader, follower := Peer("A", "a", "main"), Peer("B", "b", "main");
    var net, followers := Net(map[], map[], {}), [follower];
    calls := [Call(Order("b", GetInfo), Acknowledged), Call(AddOrder(leader, followers, "g"), Acknowledged),
              Call(PointOrder(leader, follower, "g"), Refused), Call(Order("a", StopDistribution), Acknowledged)];
    assert Steps(leader, followers, 1, "g")
        == [Order("b", GetInfo), AddOrder(leader, followers, "g"), PointOrder(leader, follower, "g")];
    assert Orders(calls) == Steps(leader, followers, 1, "g") + Rollback(leader, [], "g");
    assert followers[..0] == [] && Hosts(followers) == ["b"];
    AfterOneMore(net, calls, 0);
    AfterOneMore(net, calls, 1);
    AfterOneMore(net, calls, 2);
    AfterOneMore(net, calls, 3);
    assert calls[..0] == [] && calls[..4] == calls;
  }

  lemma {:induction false} NobodyFollows(net: Net, followers: seq<Peer>, k: nat)
    requires CanJoin(net, followers) && k <= |followers|
    ensures net.pointer.Keys !! HostSet(followers, k)
  {
    if k == 0 {
    } else {
      NobodyFollows(net, followers, k - 1);
      assert RoleOf(net, followers[k - 1].host).NoRole?;
    }
  }

  lemma {:induction false} PointersElsewhere(net: Net, calls: seq<Call>, hosts: set<Host>)
    requires forall i | 0 <= i < |calls| :: Moves(calls[i].order) ==> calls[i].order.host in hosts
    ensures Replay(net, calls).pointer - hosts == net.pointer - hosts
  {
    if calls == [] {
    } else {
      var m := |calls| - 1;
      assert forall i | 0 <= i < m :: calls[..m][i] == calls[i];
      PointersElsewhere(net, calls[..m], hosts);
    }
  }

  /** Whatever happens, and whichever resets work, no receiver outside the follower
      list is pointed anywhere. */
  lemma {:induction false} StrangersAreLeftAlone(net: Net, calls: seq<Call>, leader: Peer, followers: seq<Peer>,
                                                 group: string, r: Result)
    requires Saga(calls, leader, followers, group, r)
    ensures forall h | h !in Hosts(followers) ::
      (h in Replay(net, calls).pointer <==> h in net.pointer)
      && (h in net.pointer ==> Replay(net, calls).pointer[h] == net.pointer[h])
  {
    var hosts := set h | h in Hosts(followers);
    forall i | 0 <= i < |calls| && Moves(calls[i].order) ensures calls[i].order.host in hosts {
      assert calls[i].order == Orders(calls)[i];
      SagaOrdersNameFollowers(calls, leader, followers, group, r, i);
    }
    PointersElsewhere(net, calls, hosts);
    var after := Replay(net, calls).pointer;
    forall h | h !in Hosts(followers)
      ensures (h in after <==> h in net.pointer) && (h in net.pointer ==> after[h] == net.pointer[h])
    {
      assert h in after <==> h in after - hosts;
      assert h in net.pointer <==> h in net.pointer - hosts;
    }
  }

  lemma {:induction false} SagaOrdersNameFollowers(calls: seq<Call>, leader: Peer, followers: seq<Peer>, group: string,
                                                   r: Result, i: nat)
    requires Saga(calls, leader, followers, group, r)
    requires i < |calls| && Moves(Orders(calls)[i])
    ensures Orders(calls)[i].host in Hosts(followers)
  {
    match r {
      case Created => StepsNameFollowers(leader, followers, |followers|, group);
      case CheckFailed(_) =>
      case AlreadyMember(_) =>
      case NoGroupId =>
      case AddFailed => StepsNameFollowers(leader, followers, 0, group);
      case PointFailed(k) =>
        StepsNameFollowers(leader, followers, k + 1, group);
        ResetsNameFollowers(followers, followers[..k], k, group);
      case StartFailed =>
        StepsNameFollowers(leader, followers, |followers|, group);
        ResetsNameFollowers(followers, followers, |followers|, group);
    }
  }

  predicate Moves(o: Order) {
    o.request.SetClient? || o.request.Reset?
  }

  predicate MoveOnly(orders: seq<Order>, hosts: seq<Host>) {
    forall i | 0 <= i < |orders| :: Moves(orders[i]) ==> orders[i].host in hosts
  }

  lemma {:induction false} StepsNameFollowers(leader: Peer, followers: seq<Peer>, k: nat, group: string)
    requires k <= |followers|
    ensures MoveOnly(Steps(leader, followers, k, group), Hosts(followers))
  {
    var steps := Steps(leader, followers, k, group);
    if k > 0 {
      StepsNameFollowers(leader, followers, k - 1, group);
      assert Hosts(followers)[k - 1] == followers[k - 1].host;
    } else {
      forall i | 0 <= i < |steps| ensures !Moves(steps[i]) {
        assert i < |followers| ==> steps[i] == Checks(followers)[i];
      }
    }
  }

  lemma {:induction false} ResetsNameFollowers(followers: seq<Peer>, confirmed: seq<Peer>, k: nat, group: string)
    requires confirmed <= followers && k <= |confirmed|
    ensures MoveOnly(Resets(confirmed, k, group), Hosts(followers))
  {
    if k == 0 {
    } else {
      ResetsNameFollowers(followers, confirmed, k - 1, group);
      assert Hosts(followers)[k - 1] == confirmed[k - 1].host;
    }
  }
}
