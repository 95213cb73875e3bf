/**
 The targets of the subnet probe (pkg/discover/sweep.go), in 32-bit IPv4 prefix
 arithmetic. Interfaces, the default-route address and the address to look near
 are inputs.
*/
module Sweep {
  import opened Arithmetic
  import opened Options
  import opened Sorting

  const TWO_TO_32 := 0x1_0000_0000

  /** An IPv4 address; TWO_TO_32 stands for the invalid address behind the last. */
  type Address = nat

  type Bits = b: nat | b <= 32

  datatype Prefix = Prefix(addr: Address, bits: Bits)

  /** How many addresses a prefix of this many bits has. */
  function Size(bits: Bits): (n: nat)
    ensures n >= 1
  {
    Pow2(32 - bits)
  }

  function Masked(addr: Address, bits: Bits): Prefix
  {
    Prefix(Floor(addr, Size(bits)), bits)
  }

  /** The first `bits` bits agree, and a is a valid address. */
  predicate Contains(p: Prefix, a: Address)
  {
    a < TWO_TO_32 && a / Size(p.bits) == p.addr / Size(p.bits)
  }

  /** Section 3 of RFC 1918. */
  predicate IsPrivate(a: Address) {
    || 0x0A00_0000 <= a < 0x0B00_0000
    || 0xAC10_0000 <= a < 0xAC20_0000
    || 0xC0A8_0000 <= a < 0xC0A9_0000
  }

  /** An interface address: an IPv4 address with its mask's (ones, bits), or
      anything else. */
  datatype IfaceAddr = Other | Net4(addr: Address, ones: nat, maskBits: nat)

  datatype Iface = Iface(searchable: bool, addrs: seq<IfaceAddr>)

  const WIDEST_BITS: Bits := 24

  predicate Usable(a: IfaceAddr) {
    a.Net4? && IsPrivate(a.addr) && a.maskBits == 32 && a.ones <= 30
  }

  function UsableAddrs(addrs: seq<IfaceAddr>): set<IfaceAddr> {
    set a | a in addrs && Usable(a)
  }

  function UsableOf(ifaces: seq<Iface>): set<IfaceAddr> {
    set i, a | i in ifaces && i.searchable && a in UsableAddrs(i.addrs) :: a
  }

  function Max(a: nat, b: nat): nat {
    if a < b then b else a
  }

  /** The prefix probed on account of one usable address. */
  function ChosenFor(a: IfaceAddr, near: Option<Address>): Option<Prefix>
    requires Usable(a)
  {
    var bits := Max(a.ones, WIDEST_BITS);
    if near.None? then Some(Masked(a.addr, bits))
    else if Contains(Masked(a.addr, a.ones), near.value) then Some(Masked(near.value, bits))
    else None
  }

  function Chosen(addrs: set<IfaceAddr>, near: Option<Address>): set<Prefix>
    requires forall a | a in addrs :: Usable(a)
  {
    set a | a in addrs && ChosenFor(a, near).Some? :: ChosenFor(a, near).value
  }

  function Self(addrs: set<IfaceAddr>): set<Address>
  {
    set a | a in addrs && a.Net4? :: a.addr
  }

  // ----- prefix arithmetic ----------------------------------------------------

  /** A masked prefix is an interval. */
  lemma {:induction false} MaskedIsInterval(addr: Address, bits: Bits, a: Address)
    requires addr < TWO_TO_32
    ensures var p := Masked(addr, bits);
      && p.addr + Size(bits) <= TWO_TO_32
      && (Contains(p, a) <==> p.addr <= a < p.addr + Size(bits))
      && Contains(p, addr)
  {
    SameQuotient(a, addr, Size(bits));
    SameQuotient(addr, addr, Size(bits));
    Pow2Splits(bits, 32 - bits);
    Pow2Of32();
    FloorFits(addr, Size(bits), Pow2(bits));
  }

  lemma {:induction false} Pow2Of32()
    ensures Pow2(32) == TWO_TO_32 && Pow2(8) == 256
  {
    Pow2Splits(8, 8);
    Pow2Splits(16, 16);
    assert Pow2(8) == 256 by { assert Pow2(4) == 16; Pow2Splits(4, 4); }
  }

  /** A longer prefix around an address of a subnet lies inside the subnet. */
  lemma {:induction false} LongerIsInside(subnet: Prefix, y: Address, bits: Bits, a: Address)
    requires subnet.bits <= bits && Contains(subnet, y) && Contains(Masked(y, bits), a)
    ensures Contains(subnet, a)
  {
    var s, k := Size(bits), Pow2(bits - subnet.bits);
    Pow2Splits(32 - bits, bits - subnet.bits);
    DivideTwice(a, s, k);
    DivideTwice(y, s, k);
    MaskedIsInterval(y, bits, y);
  }

  /** What every chosen prefix is: an interval of 4 to 256 addresses that starts
      at a multiple of its size. */
  predicate Proper(p: Prefix) {
    24 <= p.bits <= 30 && p.addr < TWO_TO_32 && p == Masked(p.addr, p.bits)
  }

  lemma {:induction false} SizeOfProper(bits: nat)
    requires 24 <= bits <= 30
    ensures 4 <= Size(bits) <= 256
  {
    Pow2Of32();
    Pow2Splits(2, 30 - bits);
    Pow2Splits(32 - bits, bits - 24);
    MulMono(1, Pow2(30 - bits), 4);
    MulMono(1, Pow2(bits - 24), Size(bits));
  }

  lemma {:induction false} MaskedIsProper(addr: Address, bits: nat)
    requires addr < TWO_TO_32 && 24 <= bits <= 30
    ensures Proper(Masked(addr, bits))
  {
    MaskedIsInterval(addr, bits, addr);
    var f := Floor(addr, Size(bits));
    SameQuotient(f, addr, Size(bits));
  }

  /** Each chosen prefix has at least 24 bits and lies inside the subnet of a usable
      interface address. */
  lemma {:induction false} ChosenLiesInASubnet(a: IfaceAddr, near: Option<Address>)
    requires Usable(a) && (near.Some? ==> near.value < TWO_TO_32)
    requires ChosenFor(a, near).Some?
    ensures var p := ChosenFor(a, near).value;
      Proper(p) && forall x | Contains(p, x) :: Contains(Masked(a.addr, a.ones), x)
  {
    var p, subnet := ChosenFor(a, near).value, Masked(a.addr, a.ones);
    var y := if near.None? then a.addr else near.value;
    MaskedIsProper(y, Max(a.ones, WIDEST_BITS));
    MaskedIsInterval(a.addr, a.ones, a.addr);
    forall x | Contains(p, x) ensures Contains(subnet, x) {
      LongerIsInside(subnet, y, p.bits, x);
    }
  }

  // ----- what is probed, address by address -----------------------------------

  /** An address of this computer to probe around: private (section 3 of RFC 1918), with
      the mask of a subnet that has hosts. */
  predicate Qualifies(a: IfaceAddr) {
    && a.Net4? && a.maskBits == 32 && a.ones <= 30
    && (a.addr / 0x100_0000 == 10 || a.addr / 0x10_0000 == 172 * 16 + 1 || a.addr / 0x1_0000 == 192 * 256 + 168)
  }

  /** x lies in the subnet of interface address a. */
  predicate InSubnet(a: IfaceAddr, x: Address)
    requires a.Net4? && a.ones <= 32
  {
    x < 0x1_0000_0000 && x / Pow2(32 - a.ones) == a.addr / Pow2(32 - a.ones)
  }

  /** x shares with c a block of 256 addresses, and lies in the subnet of a. */
  predicate Around(a: IfaceAddr, c: Address, x: Address)
    requires a.Net4? && a.ones <= 32
  {
    InSubnet(a, x) && x / 256 == c / 256
  }

  lemma {:induction false} UsableMeans(a: IfaceAddr)
    ensures Usable(a) <==> Qualifies(a)
    ensures Usable(a) ==> a.addr < TWO_TO_32
  {
  }

  /** Membership in the prefix of any address of the subnet, cut to 24 bits if it is wider. */
  lemma {:induction false} NarrowedHolds(a: IfaceAddr, c: Address, x: Address)
    requires Usable(a) && InSubnet(a, c)
    ensures Contains(Masked(c, if a.ones < 24 then 24 else a.ones), x) <==> Around(a, c, x)
  {
    var bits: Bits := if a.ones < 24 then 24 else a.ones;
    Pow2Of32();
    SameQuotient(c, c, Size(bits));
    if a.ones < 24 {
      SubnetOfBlock(a, c);
      SubnetOfBlock(a, x);
    } else {
      BlockOfSubnet(a, c);
      BlockOfSubnet(a, x);
    }
  }

  lemma {:induction false} SubnetOfBlock(a: IfaceAddr, x: Address)
    requires a.Net4? && a.ones <= 24
    ensures x / Pow2(32 - a.ones) == x / 256 / Pow2(24 - a.ones)
  {
    Pow2Of32();
    Pow2Splits(8, 24 - a.ones);
    DivideTwice(x, 256, Pow2(24 - a.ones));
  }

  lemma {:induction false} BlockOfSubnet(a: IfaceAddr, x: Address)
    requires a.Net4? && 24 <= a.ones <= 32
    ensures x / 256 == x / Pow2(32 - a.ones) / Pow2(a.ones - 24)
  {
    Pow2Of32();
    Pow2Splits(32 - a.ones, a.ones - 24);
    DivideTwice(x, Pow2(32 - a.ones), Pow2(a.ones - 24));
  }

  /** On account of a usable address the block of 256 around it is probed, as far as it
      lies in its subnet; with an address to look near, the block around that one, and
      nothing exactly if it is outside the subnet. */
  lemma {:induction false} ChosenHolds(a: IfaceAddr, near: Option<Address>, x: Address)
    requires Usable(a) && (near.Some? ==> near.value < TWO_TO_32)
    ensures near.None? ==>
      ChosenFor(a, near).Some? && (Contains(ChosenFor(a, near).value, x) <==> Around(a, a.addr, x))
    ensures near.Some? ==> (ChosenFor(a, near).None? <==> !InSubnet(a, near.value))
    ensures near.Some? && InSubnet(a, near.value) ==>
      (Contains(ChosenFor(a, near).value, x) <==> Around(a, near.value, x))
  {
    UsableMeans(a);
    NarrowedHolds(a, a.addr, x);
    if near.Some? {
      SameQuotient(near.value, a.addr, Size(a.ones));
      if InSubnet(a, near.value) {
        NarrowedHolds(a, near.value, x);
      }
    }
  }

  /** What is probed on account of one address: the block without its first and its last
      address, so that both neighbours of x lie in it. */
  predicate ProbedFor(a: IfaceAddr, near: Option<Address>, x: Address)
    requires a.Net4? && a.ones <= 32
  {
    && (near.Some? ==> InSubnet(a, near.value))
    && var c := if near.Some? then near.value else a.addr;
       x > 0 && Around(a, c, x - 1) && Around(a, c, x + 1)
  }

  ghost predicate Probed(ifaces: seq<Iface>, near: Option<Address>, x: Address) {
    exists i, a | i in ifaces && a in i.addrs :: i.searchable && Qualifies(a) && ProbedFor(a, near, x)
  }

  ghost predicate IsOwn(ifaces: seq<Iface>, x: Address) {
    exists i, a | i in ifaces && a in i.addrs :: i.searchable && Qualifies(a) && a.addr == x
  }

  lemma {:induction false} HostMeans(p: Prefix, x: Address)
    requires Proper(p)
    ensures IsHost(p, x) <==> x > 0 && Contains(p, x - 1) && Contains(p, x + 1)
  {
    hide Contains;
    SizeOfProper(p.bits);
    MaskedIsInterval(p.addr, p.bits, x + 1);
    if x > 0 { MaskedIsInterval(p.addr, p.bits, x - 1); }
  }

  lemma {:induction false} ProbedForMeans(a: IfaceAddr, near: Option<Address>, x: Address)
    requires Usable(a) && (near.Some? ==> near.value < TWO_TO_32)
    ensures ProbedFor(a, near, x) <==> ChosenFor(a, near).Some? && IsHost(ChosenFor(a, near).value, x)
  {
    hide ChosenFor, Around, InSubnet, Contains, IsHost;
    ChosenHolds(a, near, x + 1);
    if x > 0 { ChosenHolds(a, near, x - 1); }
    if ChosenFor(a, near).Some? {
      ChosenLiesInASubnet(a, near);
      HostMeans(ChosenFor(a, near).value, x);
    }
  }

  /** The hosts of the chosen prefixes, and this computer's own addresses. */
  lemma {:induction false} HostsAreProbed(ifaces: seq<Iface>, near: Option<Address>, prefixes: seq<Prefix>, x: Address)
    requires near.Some? ==> near.value < TWO_TO_32
    requires forall p :: p in prefixes <==> p in Chosen(UsableOf(ifaces), near)
    ensures HostOfSome(prefixes, x) <==> Probed(ifaces, near, x)
    ensures x in Self(UsableOf(ifaces)) <==> IsOwn(ifaces, x)
  {
    hide ChosenFor, IsHost, ProbedFor, Usable;
    forall a ensures Usable(a) <==> Qualifies(a) {
      UsableMeans(a);
    }
    if Probed(ifaces, near, x) {
      var i, a :| i in ifaces && a in i.addrs && i.searchable && Qualifies(a) && ProbedFor(a, near, x);
      assert a in UsableAddrs(i.addrs) && a in UsableOf(ifaces);
      ProbedForMeans(a, near, x);
      var p := ChosenFor(a, near).value;
      assert p in prefixes;
      var k :| 0 <= k < |prefixes| && prefixes[k] == p;
      assert IsHost(prefixes[k], x);
    }
    if HostOfSome(prefixes, x) {
      var k :| 0 <= k < |prefixes| && IsHost(prefixes[k], x);
      assert prefixes[k] in Chosen(UsableOf(ifaces), near);
      var a :| a in UsableOf(ifaces) && ChosenFor(a, near) == Some(prefixes[k]);
      ProbedForMeans(a, near, x);
      var i :| i in ifaces && i.searchable && a in UsableAddrs(i.addrs);
      assert i in ifaces && a in i.addrs;
    }
    OwnAddresses(ifaces, x);
  }

  lemma {:induction false} OwnAddresses(ifaces: seq<Iface>, x: Address)
    ensures x in Self(UsableOf(ifaces)) <==> IsOwn(ifaces, x)
  {
    if IsOwn(ifaces, x) {
      var i, a :| i in ifaces && a in i.addrs && i.searchable && Qualifies(a) && a.addr == x;
      UsableMeans(a);
      assert a in UsableAddrs(i.addrs) && a in UsableOf(ifaces);
    }
    if x in Self(UsableOf(ifaces)) {
      var a :| a in UsableOf(ifaces) && a.Net4? && a.addr == x;
      var i :| i in ifaces && i.searchable && a in UsableAddrs(i.addrs);
      UsableMeans(a);
      assert i in ifaces && a in i.addrs;
    }
  }

  // ----- order of the prefixes ------------------------------------------------

  predicate PrefixLe(p: Prefix, q: Prefix) {
    if p.addr != q.addr then p.addr < q.addr else p.bits <= q.bits
  }

  /** From index `from` on the prefixes ascend, by their first address and then by length. */
  predicate InOrder(prefixes: seq<Prefix>, from: nat) {
    forall j, k | from <= j < k < |prefixes| ::
      prefixes[j].addr < prefixes[k].addr
      || (prefixes[j].addr == prefixes[k].addr && prefixes[j].bits <= prefixes[k].bits)
  }

  lemma {:induction false} PrefixOrder()
    ensures TotalOrder(PrefixLe)
  {
  }

  /** The index of the first prefix that holds the default-route address, or 0. */
  function RouteIndex(sorted: seq<Prefix>, route: Option<Address>): (i: nat)
    ensures sorted != [] ==> i < |sorted|
    ensures sorted == [] ==> i == 0
    ensures forall k | 0 <= k < i :: !(route.Some? && Contains(sorted[k], route.value))
    ensures i > 0 ==> route.Some? && Contains(sorted[i], route.value)
  {
    if route.None? || sorted == [] || Contains(sorted[0], route.value) then 0
    else
      var i := RouteIndex(sorted[1..], route);
      if sorted[1..] != [] && Contains(sorted[1..][i], route.value) then i + 1 else 0
  }

  /** The route's prefix first, the rest in order. */
  function RouteFirst(sorted: seq<Prefix>, route: Option<Address>): seq<Prefix>
  {
    var i := RouteIndex(sorted, route);
    if i > 0 then [sorted[i]] + sorted[..i] + sorted[i + 1..] else sorted
  }

  // ----- targets --------------------------------------------------------------

  /** Addresses lo..hi in order, minus self and what was collected before. */
  function Collect(acc: seq<Address>, self: set<Address>, lo: nat, hi: nat): seq<Address>
    decreases hi
  {
    if hi <= lo then acc
    else
      var c := Collect(acc, self, lo, hi - 1);
      if hi - 1 in self || hi - 1 in c then c else c + [hi - 1]
  }

  lemma {:induction false} CollectCollects(acc: seq<Address>, self: set<Address>, lo: nat, hi: nat)
    requires NoDuplicates(acc)
    ensures var c := Collect(acc, self, lo, hi);
      && acc <= c && NoDuplicates(c) && |c| <= |acc| + (if lo < hi then hi - lo else 0)
      && forall a :: a in c <==> a in acc || (lo <= a < hi && a !in self)
    decreases hi
  {
    if lo < hi {
      CollectCollects(acc, self, lo, hi - 1);
      var c, c' := Collect(acc, self, lo, hi - 1), Collect(acc, self, lo, hi);
      if c' != c {
        forall a ensures a in c' <==> a in acc || (lo <= a < hi && a !in self) {
          assert a in c' <==> a in c || a == hi - 1;
        }
      }
    }
  }

  /** The first and last host of a prefix: not its network address, and not its
      last, the broadcast address. */
  function FirstHost(p: Prefix): nat {
    p.addr + 1
  }

  function HostsEnd(p: Prefix): int
  {
    p.addr + Size(p.bits) - 1
  }

  predicate IsHost(p: Prefix, a: Address)
  {
    FirstHost(p) <= a < HostsEnd(p)
  }

  function TargetsOf(prefixes: seq<Prefix>, self: set<Address>): seq<Address>
  {
    if prefixes == [] then []
    else
      var last := prefixes[|prefixes| - 1];
      Collect(TargetsOf(prefixes[..|prefixes| - 1], self), self, FirstHost(last), HostsEnd(last))
  }

  predicate HostOfSome(prefixes: seq<Prefix>, a: Address) {
    exists i | 0 <= i < |prefixes| :: IsHost(prefixes[i], a)
  }

  lemma {:induction false} HostOfOneMore(prefixes: seq<Prefix>, p: Prefix, a: Address)
    ensures HostOfSome(prefixes + [p], a) <==> HostOfSome(prefixes, a) || IsHost(p, a)
  {
    if HostOfSome(prefixes, a) {
      var i :| 0 <= i < |prefixes| && IsHost(prefixes[i], a);
      assert IsHost((prefixes + [p])[i], a);
    }
    if IsHost(p, a) { assert IsHost((prefixes + [p])[|prefixes|], a); }
  }

  /** Without duplicates, exactly the hosts of some prefix minus self. */
  lemma {:induction false} TargetsAreTheHosts(prefixes: seq<Prefix>, self: set<Address>)
    ensures NoDuplicates(TargetsOf(prefixes, self))
    ensures forall a :: a in TargetsOf(prefixes, self) <==> a !in self && HostOfSome(prefixes, a)
  {
    if prefixes == [] {
    } else {
      var front, last := prefixes[..|prefixes| - 1], prefixes[|prefixes| - 1];
      TargetsAreTheHosts(front, self);
      CollectCollects(TargetsOf(front, self), self, FirstHost(last), HostsEnd(last));
      assert prefixes == front + [last];
      forall a ensures a in TargetsOf(prefixes, self) <==> a !in self && HostOfSome(prefixes, a) {
        HostOfOneMore(front, last, a);
      }
    }
  }

  /** The targets of more prefixes start with the targets of the first ones. */
  lemma {:induction false} TargetsGrow(prefixes: seq<Prefix>, self: set<Address>, n: nat)
    requires n <= |prefixes|
    ensures TargetsOf(prefixes[..n], self) <= TargetsOf(prefixes, self)
    decreases |prefixes|
  {
    if n < |prefixes| {
      var front, last := prefixes[..|prefixes| - 1], prefixes[|prefixes| - 1];
      assert front[..n] == prefixes[..n];
      TargetsGrow(front, self, n);
      TargetsAreTheHosts(front, self);
      CollectCollects(TargetsOf(front, self), self, FirstHost(last), HostsEnd(last));
    } else {
      assert prefixes[..n] == prefixes;
    }
  }

  /** The enumeration loop of one prefix, stepping with Next until the address
      after the current one leaves the prefix. */
  method AddHosts(p: Prefix, self: set<Address>, acc: seq<Address>) returns (targets: seq<Address>)
    requires Proper(p)
    ensures targets == Collect(acc, self, FirstHost(p), HostsEnd(p))
  {
    targets := acc;
    var a := p.addr + 1;
    SizeOfProper(p.bits);
    MaskedIsInterval(p.addr, p.bits, a + 1);
    while Contains(p, a + 1)
      invariant FirstHost(p) <= a <= HostsEnd(p)
      invariant Contains(p, a + 1) <==> a < HostsEnd(p)
      invariant targets == Collect(acc, self, FirstHost(p), a)
      decreases HostsEnd(p) - a
    {
      if !(a in self || a in targets) {
        targets := targets + [a];
      }
      a := a + 1;
      MaskedIsInterval(p.addr, p.bits, a + 1);
    }
  }

  /** Notes the usable addresses of one interface: what is this computer's own,
      and what to probe on its account. */
  method AddUsable(addrs: seq<IfaceAddr>, near: Option<Address>, ghost known: set<IfaceAddr>,
                   self: set<Address>, prefixes: seq<Prefix>)
    returns (self': set<Address>, prefixes': seq<Prefix>)
    requires forall a | a in known :: Usable(a)
    requires self == Self(known) && NoDuplicates(prefixes) && (set p | p in prefixes) == Chosen(known, near)
    ensures self' == Self(known + UsableAddrs(addrs))
    ensures NoDuplicates(prefixes') && (set p | p in prefixes') == Chosen(known + UsableAddrs(addrs), near)
  {
    self', prefixes' := self, prefixes;
    assert known + UsableAddrs(addrs[..0]) == known;
    for m := 0 to |addrs|
      invariant self' == Self(known + UsableAddrs(addrs[..m]))
      invariant NoDuplicates(prefixes') && (set p | p in prefixes') == Chosen(known + UsableAddrs(addrs[..m]), near)
    {
      var a := addrs[m];
      ghost var before := known + UsableAddrs(addrs[..m]);
      assert addrs[..m + 1] == addrs[..m] + [a];
      assert known + UsableAddrs(addrs[..m + 1]) == before + if Usable(a) then {a} else {};
      if Usable(a) {
        self' := self' + {a.addr};
        var chosen := ChosenFor(a, near);
        assert Chosen(before + {a}, near) == Chosen(before, near) + if chosen.Some? then {chosen.value} else {};
        if chosen.Some? && chosen.value !in prefixes' {
          prefixes' := prefixes' + [chosen.value];
        }
      }
    }
    assert addrs[..|addrs|] == addrs;
  }

  method CollectPrefixes(ifaces: seq<Iface>, near: Option<Address>) returns (self: set<Address>, prefixes: seq<Prefix>)
    ensures self == Self(UsableOf(ifaces))
    ensures NoDuplicates(prefixes) && (set p | p in prefixes) == Chosen(UsableOf(ifaces), near)
  {
    self, prefixes := {}, [];
    for n := 0 to |ifaces|
      invariant self == Self(UsableOf(ifaces[..n]))
      invariant NoDuplicates(prefixes) && (set p | p in prefixes) == Chosen(UsableOf(ifaces[..n]), near)
    {
      var ia := ifaces[n];
      assert ifaces[..n + 1] == ifaces[..n] + [ia];
      assert UsableOf(ifaces[..n + 1]) == UsableOf(ifaces[..n]) + if ia.searchable then UsableAddrs(ia.addrs) else {};
      if ia.searchable {
        self, prefixes := AddUsable(ia.addrs, near, UsableOf(ifaces[..n]), self, prefixes);
      }
    }
    assert ifaces[..|ifaces|] == ifaces;
  }

  /** Every host of every prefix, prefix by prefix. */
  method ListHosts(prefixes: seq<Prefix>, self: set<Address>) returns (targets: seq<Address>)
    requires forall p | p in prefixes :: Proper(p)
    ensures targets == TargetsOf(prefixes, self)
  {
    targets := [];
    for n := 0 to |prefixes|
      invariant targets == TargetsOf(prefixes[..n], self)
    {
      assert prefixes[..n + 1][..n] == prefixes[..n];
      targets := AddHosts(prefixes[n], self, targets);
    }
    assert prefixes[..|prefixes|] == prefixes;
  }

  lemma {:induction false} ChosenAreProper(addrs: set<IfaceAddr>, near: Option<Address>)
    requires (forall a | a in addrs :: Usable(a)) && (near.Some? ==> near.value < TWO_TO_32)
    ensures forall p | p in Chosen(addrs, near) :: Proper(p)
  {
    forall a | a in addrs && ChosenFor(a, near).Some? ensures Proper(ChosenFor(a, near).value) {
      ChosenLiesInASubnet(a, near);
    }
  }

  /** Moving the route's prefix keeps the prefixes and leaves the rest in order. */
  lemma {:induction false} RouteFirstReorders(sorted: seq<Prefix>, route: Option<Address>)
    requires Sorted(PrefixLe, sorted) && NoDuplicates(sorted)
    ensures var r := RouteFirst(sorted, route);
      && NoDuplicates(r) && (forall p :: p in r <==> p in sorted)
      && (r != [] ==> Sorted(PrefixLe, r[1..]))
  {
    var i := RouteIndex(sorted, route);
    if i > 0 {
      MoveToFront(sorted, i);
      PermutationKeepsMembers(sorted, RouteFirst(sorted, route));
    }
  }

  lemma {:induction false} MoveToFront(sorted: seq<Prefix>, i: nat)
    requires Sorted(PrefixLe, sorted) && i < |sorted|
    ensures var r := [sorted[i]] + sorted[..i] + sorted[i + 1..];
      multiset(r) == multiset(sorted) && Sorted(PrefixLe, r[1..])
  {
    var before, p, after := sorted[..i], sorted[i], sorted[i + 1..];
    assert sorted == before + [p] + after;
    assert multiset([p] + before + after) == multiset{p} + multiset(before) + multiset(after);
    var rest := before + after;
    assert ([p] + before + after)[1..] == rest;
    forall j, k | 0 <= j < k < |rest| ensures PrefixLe(rest[j], rest[k]) {
      assert rest[j] == sorted[if j < i then j else j + 1];
      assert rest[k] == sorted[if k < i then k else k + 1];
    }
  }

  /** The least prefix that holds the route's address leads, if there is one. */
  predicate RouteLeadsIn(prefixes: seq<Prefix>, route: Option<Address>) {
    forall p | route.Some? && p in prefixes && Contains(p, route.value) ::
      Contains(prefixes[0], route.value) && PrefixLe(prefixes[0], p)
  }

  /** When some prefix holds the route's address, the least such prefix leads. */
  lemma {:induction false} RouteLeads(sorted: seq<Prefix>, route: Address, p: Prefix)
    requires Sorted(PrefixLe, sorted) && p in sorted && Contains(p, route)
    ensures var r := RouteFirst(sorted, Some(route));
      r != [] && Contains(r[0], route) && PrefixLe(r[0], p)
  {
    hide Contains, RouteIndex;
    var k :| 0 <= k < |sorted| && sorted[k] == p;
    RouteIndexFinds(sorted, Some(route), k);
    var i := RouteIndex(sorted, Some(route));
    assert RouteFirst(sorted, Some(route))[0] == sorted[i];
    assert i <= k;
  }

  lemma {:induction false} RouteIndexFinds(sorted: seq<Prefix>, route: Option<Address>, k: nat)
    requires k < |sorted|
    requires route.Some? && Contains(sorted[k], route.value)
    ensures Contains(sorted[RouteIndex(sorted, route)], route.value)
  {
    if !Contains(sorted[0], route.value) {
      RouteIndexFinds(sorted[1..], route, k - 1);
    }
  }

  /**
   The addresses to probe and the prefixes they come from: collect the usable
   interface addresses and their prefixes, sort the prefixes, move the default
   route's to the front, then list the hosts.
  */
  method SweepTargets(ifaces: seq<Iface>, near: Option<Address>, route: Option<Address>)
    returns (targets: seq<Address>, prefixes: seq<Prefix>)
    requires near.Some? ==> near.value < TWO_TO_32
    ensures NoDuplicates(prefixes) && forall p :: p in prefixes <==> p in Chosen(UsableOf(ifaces), near)
    ensures forall p | p in prefixes :: Proper(p)
    ensures RouteLeadsIn(prefixes, route)
    ensures InOrder(prefixes, if route.None? then 0 else 1)
    ensures targets == TargetsOf(prefixes, Self(UsableOf(ifaces)))
    ensures NoDuplicates(targets)
    ensures forall a :: a in targets <==> Probed(ifaces, near, a) && !IsOwn(ifaces, a)
  {
    var self, found := CollectPrefixes(ifaces, near);
    ChosenAreProper(UsableOf(ifaces), near);
    assert forall p :: p in found <==> p in (set q | q in found);
    prefixes := SortPrefixes(found, route);
    targets := ListHosts(prefixes, self);
    TargetsAreTheHosts(prefixes, self);
    forall a ensures a in targets <==> Probed(ifaces, near, a) && !IsOwn(ifaces, a) {
      HostsAreProbed(ifaces, near, prefixes, a);
    }
  }

  method SortPrefixes(found: seq<Prefix>, route: Option<Address>) returns (prefixes: seq<Prefix>)
    requires NoDuplicates(found)
    ensures NoDuplicates(prefixes) && forall p :: p in prefixes <==> p in found
    ensures RouteLeadsIn(prefixes, route)
    ensures InOrder(prefixes, if route.None? then 0 else 1)
  {
    PrefixOrder();
    SortSorts(PrefixLe, found);
    var sorted := Sort(PrefixLe, found);
    PermutationKeepsMembers(found, sorted);
    RouteFirstOrders(sorted, route);
    var i := RouteIndex(sorted, route);
    prefixes := if i > 0 then [sorted[i]] + sorted[..i] + sorted[i + 1..] else sorted;
    assert prefixes == RouteFirst(sorted, route);
  }

  /** What moving the route's prefix to the front of sorted prefixes makes of them. */
  lemma {:induction false} RouteFirstOrders(sorted: seq<Prefix>, route: Option<Address>)
    requires Sorted(PrefixLe, sorted) && NoDuplicates(sorted)
    ensures var r := RouteFirst(sorted, route);
      && NoDuplicates(r) && (forall p :: p in r <==> p in sorted)
      && RouteLeadsIn(r, route) && InOrder(r, if route.None? then 0 else 1)
  {
    hide Contains, RouteIndex;
    var r := RouteFirst(sorted, route);
    RouteFirstReorders(sorted, route);
    forall p | route.Some? && p in r && Contains(p, route.value)
      ensures Contains(r[0], route.value) && PrefixLe(r[0], p)
    {
      RouteLeads(sorted, route.value, p);
    }
    forall j, k | 1 <= j < k < |r| ensures PrefixLe(r[j], r[k]) {
      assert r[1..][j - 1] == r[j] && r[1..][k - 1] == r[k];
    }
  }

  // ----- the cap --------------------------------------------------------------

  predicate HoldsOne(p: Prefix, targets: seq<Address>)
  {
    exists a | a in targets :: Contains(p, a)
  }

  /** The prefixes that hold one of the targets, in order. */
  function Reached(prefixes: seq<Prefix>, targets: seq<Address>): seq<Prefix> {
    if prefixes == [] then []
    else
      var m := |prefixes| - 1;
      Reached(prefixes[..m], targets) + if HoldsOne(prefixes[m], targets) then [prefixes[m]] else []
  }

  /** The first n targets, and the prefixes they still reach. */
  method CapTargets(targets: seq<Address>, prefixes: seq<Prefix>, n: nat)
    returns (kept: seq<Address>, reached: seq<Prefix>)
    ensures kept == targets[..if n < |targets| then n else |targets|]
    ensures reached == Reached(prefixes, kept)
    ensures forall p :: p in reached <==> p in prefixes && HoldsOne(p, kept)
  {
    kept := targets[..if n < |targets| then n else |targets|];
    reached := [];
    for i := 0 to |prefixes|
      invariant reached == Reached(prefixes[..i], kept)
      invariant forall p :: p in reached <==> p in prefixes[..i] && HoldsOne(p, kept)
    {
      assert prefixes[..i + 1] == prefixes[..i] + [prefixes[i]] && prefixes[..i + 1][..i] == prefixes[..i];
      if HoldsOne(prefixes[i], kept) {
        reached := reached + [prefixes[i]];
      }
    }
    assert prefixes[..|prefixes|] == prefixes;
  }

  /** The cap of 1024 never drops a host of the leading prefix. */
  lemma {:induction false} CapSparesTheLeader(prefixes: seq<Prefix>, self: set<Address>, a: Address)
    requires prefixes != [] && (forall p | p in prefixes :: Proper(p))
    requires IsHost(prefixes[0], a) && a !in self
    ensures var t := TargetsOf(prefixes, self);
      a in t[..if 1024 < |t| then 1024 else |t|]
  {
    var lead := TargetsOf(prefixes[..1], self);
    assert prefixes[0] in prefixes;
    SizeOfProper(prefixes[0].bits);
    assert TargetsOf(prefixes[..1][..0], self) == [];
    CollectCollects([], self, FirstHost(prefixes[0]), HostsEnd(prefixes[0]));
    assert a in lead && |lead| <= 254;
    TargetsGrow(prefixes, self, 1);
  }
}
