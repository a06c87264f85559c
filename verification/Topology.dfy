/** Hosts, their interfaces and the links between them; hop distances. */
module Topology {
  import opened Words
  import opened RouterClass

  /** Interface `index` of router `node`. */
  datatype Port = Port(node: nat, index: nat)

  /** The interfaces of every router, and which interfaces hear each other's frames. */
  datatype Topo = Topo(devices: seq<seq<Device>>, wires: set<(Port, Port)>)

  predicate IsNode(t: Topo, i: nat) {
    i < |t.devices|
  }

  ghost predicate ValidTopo(t: Topo) {
    && (forall p, q :: (p, q) in t.wires ==> (q, p) in t.wires)
    && (forall p, q :: (p, q) in t.wires ==> IsNode(t, p.node) && IsNode(t, q.node))
    && (forall i :: 0 <= i < |t.devices| ==> t.devices[i] != [])
  }

  ghost predicate OwnsIp(t: Topo, i: nat, ip: u32) {
    IsNode(t, i) && exists d :: 0 <= d < |t.devices[i]| && t.devices[i][d].ip == ip
  }

  ghost predicate OwnsMac(t: Topo, i: nat, mac: nat) {
    IsNode(t, i) && exists d :: 0 <= d < |t.devices[i]| && t.devices[i][d].mac == mac
  }

  /** A frame that `j` broadcasts arrives at interface `f` of `i`. */
  ghost predicate Reaches(t: Topo, j: nat, i: nat, f: nat) {
    exists e: nat :: (Port(j, e), Port(i, f)) in t.wires
  }

  ghost predicate Neighbours(t: Topo, i: nat, j: nat) {
    exists f: nat :: Reaches(t, j, i, f)
  }

  /** An owner of `ip` is at most `k` hops from `i`. */
  ghost predicate Within(t: Topo, i: nat, ip: u32, k: nat)
    decreases k
  {
    OwnsIp(t, i, ip) || (k > 0 && exists j: nat :: Neighbours(t, i, j) && Within(t, j, ip, k - 1))
  }

  /** The hop distance from `i` to the nearest owner of `ip` is `d`. */
  ghost predicate HopDist(t: Topo, i: nat, ip: u32, d: nat) {
    Within(t, i, ip, d) && (d > 0 ==> !Within(t, i, ip, d - 1))
  }

  lemma {:induction false} WithinGrows(t: Topo, i: nat, ip: u32, k: nat, k': nat)
    requires Within(t, i, ip, k) && k <= k'
    ensures Within(t, i, ip, k')
    decreases k
  {
    if !OwnsIp(t, i, ip) {
      var j: nat :| Neighbours(t, i, j) && Within(t, j, ip, k - 1);
      WithinGrows(t, j, ip, k - 1, k' - 1);
    }
  }

  lemma HopDistUnique(t: Topo, i: nat, ip: u32, d: nat, d': nat)
    requires HopDist(t, i, ip, d) && HopDist(t, i, ip, d')
    ensures d == d'
  {
    if d < d' { WithinGrows(t, i, ip, d, d' - 1); }
    if d' < d { WithinGrows(t, i, ip, d', d - 1); }
  }

  lemma {:induction false} Least(t: Topo, i: nat, ip: u32, k: nat) returns (d: nat)
    requires Within(t, i, ip, k)
    ensures d <= k && HopDist(t, i, ip, d)
  {
    if k == 0 || !Within(t, i, ip, k - 1) {
      d := k;
    } else {
      d := Least(t, i, ip, k - 1);
    }
  }

  /** A router at distance d > 0 has a neighbour at distance d - 1, and none nearer. */
  lemma NearerNeighbour(t: Topo, i: nat, ip: u32, d: nat) returns (j: nat)
    requires HopDist(t, i, ip, d) && d > 0
    ensures Neighbours(t, i, j) && HopDist(t, j, ip, d - 1)
  {
    assert !OwnsIp(t, i, ip);
    j :| Neighbours(t, i, j) && Within(t, j, ip, d - 1);
  }

  // ----- walks -----

  /** Some walk of exactly `d` hops leads from `i` to an owner of `ip`. */
  ghost predicate Walk(t: Topo, i: nat, ip: u32, d: nat)
    decreases d
  {
    if d == 0 then OwnsIp(t, i, ip)
    else exists j: nat :: Neighbours(t, i, j) && Walk(t, j, ip, d - 1)
  }

  lemma {:induction false} WalkIsWithin(t: Topo, i: nat, ip: u32, d: nat)
    requires Walk(t, i, ip, d)
    ensures Within(t, i, ip, d)
    decreases d
  {
    if d > 0 {
      var j: nat :| Neighbours(t, i, j) && Walk(t, j, ip, d - 1);
      WalkIsWithin(t, j, ip, d - 1);
    }
  }
}
