/** Hop-by-hop forwarding over converged tables (src/network/ippacket.c). */
module Forwarding {
  import opened Words
  import opened RouteTable
  import opened Lookup
  import opened RouterClass
  import opened Topology
  import opened Stabilise

  const BROAD_IP: u32 := 0xffff_ffff

  /** isMyPacket. */
  ghost predicate IsMyPacket(t: Topo, i: nat, dst: u32) {
    dst == BROAD_IP || OwnsIp(t, i, dst)
  }

  /** A hardware address belongs to one router. */
  ghost predicate UniqueMacs(t: Topo) {
    forall i, j, mac :: OwnsMac(t, i, mac) && OwnsMac(t, j, mac) ==> i == j
  }

  /** handleIPPacket at `i` passes a packet on, and the frame it sends reaches `j`: the destination
      is not i's own, queryRouteTable yields an entry, and `j`, on the link of that entry's
      interface, has that entry's hardware address. No manual routes are set. */
  ghost predicate Forwards(t: Topo, tables: seq<Table>, i: nat, dst: u32, j: nat) {
    && i < |tables|
    && !IsMyPacket(t, i, dst)
    && var r := Query([], tables[i], dst);
      && r.Some?
      && OwnsMac(t, j, r.value.mac)
      && exists e: nat :: (Port(i, r.value.device), Port(j, e)) in t.wires
  }

  ghost predicate Converged(t: Topo, tables: seq<Table>) {
    && |tables| == |t.devices|
    && forall i :: 0 <= i < |tables| ==> ShortestPaths(t, i, tables[i])
  }

  /** The lookup at a router that is not the destination finds its exact entry. */
  lemma LookupExact(t: Topo, i: nat, tab: Table, dst: u32, d: nat)
    requires ShortestPaths(t, i, tab) && HopDist(t, i, dst, d) && 0 < d <= MAX_DIST
    ensures var r := Query([], tab, dst);
      r.Some? && r.value.ip == dst && r.value.dist == d && FirstHop(t, i, r.value)
  {
    HostLookup(tab, dst);
    var e := ListedEntry(tab, dst, d);
    var r := Query([], tab, dst);
    assert r == Scan(tab, dst);
    assert EntryExact(t, i, r.value);
    hide FirstHop, StrictlySorted;
    HopDistUnique(t, i, dst, d, r.value.dist);
  }

  /** One forwarding step reaches exactly one router, and it is one hop nearer. */
  lemma ForwardIsNearer(t: Topo, tables: seq<Table>, i: nat, dst: u32, d: nat) returns (j: nat)
    requires ValidTopo(t) && UniqueMacs(t) && Converged(t, tables)
    requires i < |tables| && HopDist(t, i, dst, d) && d <= MAX_DIST && !IsMyPacket(t, i, dst)
    ensures d > 0 && Forwards(t, tables, i, dst, j) && j < |tables| && HopDist(t, j, dst, d - 1)
    ensures forall j' :: Forwards(t, tables, i, dst, j') ==> j' == j
  {
    hide ShortestPaths;
    LookupExact(t, i, tables[i], dst, d);
    var e := Query([], tables[i], dst).value;
    hide Query;
    j :| Reaches(t, j, i, e.device) && OwnsMac(t, j, e.mac) && HopDist(t, j, dst, d - 1);
    var f: nat :| (Port(j, f), Port(i, e.device)) in t.wires;
    assert (Port(i, e.device), Port(j, f)) in t.wires;
  }

  /** `route` is the list of routers a packet for `dst` visits. */
  ghost predicate Route(t: Topo, tables: seq<Table>, dst: u32, route: seq<nat>) {
    && route != []
    && forall k :: 0 <= k < |route| - 1 ==> Forwards(t, tables, route[k], dst, route[k + 1])
  }

  /** Although the time to live is never decremented, forwarding over converged tables delivers: a
      packet at distance d reaches an owner of its address after exactly d hops. */
  lemma {:induction false} ForwardingDelivers(t: Topo, tables: seq<Table>, i: nat, dst: u32, d: nat)
    returns (route: seq<nat>)
    requires ValidTopo(t) && UniqueMacs(t) && Converged(t, tables)
    requires i < |tables| && HopDist(t, i, dst, d) && d <= MAX_DIST && dst != BROAD_IP
    ensures Route(t, tables, dst, route) && |route| == d + 1 && route[0] == i
    ensures IsMyPacket(t, route[d], dst)
    decreases d
  {
    hide Converged, ValidTopo, UniqueMacs, Forwards;
    if d == 0 {
      ZeroDist(t, i, dst);
      route := [i];
    } else {
      assert !IsMyPacket(t, i, dst) by { NotYet(t, i, dst, d); }
      var j := ForwardIsNearer(t, tables, i, dst, d);
      var rest := ForwardingDelivers(t, tables, j, dst, d - 1);
      route := [i] + rest;
      forall k | 0 <= k < |route| - 1
        ensures Forwards(t, tables, route[k], dst, route[k + 1])
      {
        assert k > 0 ==> route[k] == rest[k - 1] && route[k + 1] == rest[k];
      }
    }
  }

  lemma NotYet(t: Topo, i: nat, dst: u32, d: nat)
    requires HopDist(t, i, dst, d) && d > 0 && dst != BROAD_IP
    ensures !IsMyPacket(t, i, dst)
  {
  }

  /** No packet can loop or stray: every router on every route of the packet is at its due
      distance, so no route visits more than d + 1 routers. */
  lemma {:induction false} NoLoops(t: Topo, tables: seq<Table>, dst: u32, d: nat, route: seq<nat>, k: nat)
    requires ValidTopo(t) && UniqueMacs(t) && Converged(t, tables)
    requires Route(t, tables, dst, route) && route[0] < |tables|
    requires HopDist(t, route[0], dst, d) && d <= MAX_DIST && k < |route|
    ensures k <= d && route[k] < |tables| && HopDist(t, route[k], dst, d - k)
  {
    if k > 0 {
      NoLoops(t, tables, dst, d, route, k - 1);
      assert Forwards(t, tables, route[k - 1], dst, route[k]);
      var j := ForwardIsNearer(t, tables, route[k - 1], dst, d - (k - 1));
    }
  }

  /** Beyond 20 hops, and for addresses nobody owns, a converged router that is not the destination
      finds no route, so the packet is not forwarded at all. */
  lemma FarIsUnroutable(t: Topo, tables: seq<Table>, i: nat, dst: u32)
    requires Converged(t, tables) && i < |tables|
    requires forall d: nat :: d <= MAX_DIST ==> !HopDist(t, i, dst, d)
    ensures Query([], tables[i], dst) == None
  {
    HostLookup(tables[i], dst);
    var r := Query([], tables[i], dst);
    assert r == Scan(tables[i], dst);
    assert r.Some? ==> EntryExact(t, i, r.value);
  }
}
