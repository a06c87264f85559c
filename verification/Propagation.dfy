/** Routing as a system of asynchronous steps: broadcasts, receipts, losses and table updates in
    any order. Every entry anywhere is witnessed by a walk. */
module Propagation {
  import opened RouteTable
  import opened RouterClass
  import opened Topology
  import opened Stabilise

  /** A broadcast of router `sender` on its way to interface `port` of router `to`. */
  datatype Flight = Flight(sender: nat, to: nat, port: nat, message: Message)

  datatype State = State(online: seq<Table>, tmp: seq<Table>, flying: set<Flight>)

  ghost predicate Initial(t: Topo, s: State) {
    && |s.online| == |s.tmp| == |t.devices|
    && (forall i :: 0 <= i < |t.devices| ==> s.online[i] == OwnEntries(t.devices[i]) && s.tmp[i] == [])
    && s.flying == {}
  }

  /** A message router `i` may send: its table with an address of one of its interfaces, to any
      interface that hears it. */
  ghost predicate Sendable(t: Topo, s: State, f: Flight) {
    && f.sender < |s.online|
    && f.message.table == s.online[f.sender]
    && OwnsMac(t, f.sender, f.message.mac)
    && Reaches(t, f.sender, f.to, f.port)
    && f.to < |s.online|
  }

  /** Messages join the network, at any time and in any number. */
  ghost predicate Broadcast(t: Topo, s: State, s': State) {
    && s'.online == s.online && s'.tmp == s.tmp && s.flying <= s'.flying
    && forall f :: f in s'.flying ==> f in s.flying || Sendable(t, s, f)
  }

  /** handleRouteTable; the message may also stay in flight and arrive again. */
  ghost predicate Receipt(s: State, s': State, f: Flight) {
    && f in s.flying && f.to < |s.tmp|
    && s' == s.(tmp := s.tmp[f.to := s.tmp[f.to] + HeardAll(f.message, f.port)])
  }

  ghost predicate Loss(s: State, s': State) {
    s' == s.(flying := s'.flying) && s'.flying <= s.flying
  }

  /** updateRouteTable at router `i`, with whatever qsort makes of equal keys. */
  ghost predicate Update(t: Topo, s: State, s': State, i: nat, sorted: Table) {
    && i < |t.devices| && |s.online| == |s.tmp| == |t.devices|
    && IsSortOf(sorted, s.tmp[i] + OwnEntries(t.devices[i]))
    && s' == s.(online := s.online[i := Dedup(sorted)], tmp := s.tmp[i := []])
  }

  ghost predicate Next(t: Topo, s: State, s': State) {
    || Broadcast(t, s, s')
    || (exists f :: Receipt(s, s', f))
    || Loss(s, s')
    || (exists i: nat, sorted :: Update(t, s, s', i, sorted))
  }

  ghost predicate Run(t: Topo, run: seq<State>) {
    && run != []
    && Initial(t, run[0])
    && forall k :: 0 < k < |run| ==> Next(t, run[k - 1], run[k])
  }

  // ----- the invariant -----

  /** The entry's address is owned at the end of a walk of exactly its distance, whose first hop
      is the recorded interface and neighbour; at distance 0 it names the router's own interface. */
  ghost predicate Witnessed(t: Topo, i: nat, x: RouteEntry) {
    && x.mask == HOST_MASK
    && Walk(t, i, x.ip, x.dist)
    && (x.dist > 0 ==>
          exists j: nat :: Reaches(t, j, i, x.device) && OwnsMac(t, j, x.mac) && Walk(t, j, x.ip, x.dist - 1))
    && (x.dist == 0 ==> IsNode(t, i) && NamesOwn(t.devices[i], x))
  }

  ghost predicate AllWitnessed(t: Topo, i: nat, tab: Table) {
    forall x :: x in tab ==> Witnessed(t, i, x)
  }

  ghost predicate Near(tab: Table, bound: nat) {
    forall x :: x in tab ==> x.dist <= bound
  }

  ghost predicate Sound(t: Topo, s: State) {
    && |s.online| == |s.tmp| == |t.devices|
    && (forall i :: 0 <= i < |s.online| ==> AllWitnessed(t, i, s.online[i]) && Near(s.online[i], 20))
    && (forall i :: 0 <= i < |s.tmp| ==> AllWitnessed(t, i, s.tmp[i]))
    && (forall f :: f in s.flying ==>
          && AllWitnessed(t, f.sender, f.message.table) && Near(f.message.table, 20)
          && OwnsMac(t, f.sender, f.message.mac) && Reaches(t, f.sender, f.to, f.port))
  }

  lemma OwnWitnessed(t: Topo, i: nat)
    requires i < |t.devices|
    ensures AllWitnessed(t, i, OwnEntries(t.devices[i])) && Near(OwnEntries(t.devices[i]), 0)
  {
    forall x | x in OwnEntries(t.devices[i])
      ensures Witnessed(t, i, x) && x.dist == 0
    {
      OwnIsZero(t, i, x);
    }
  }

  lemma HeardWitnessed(t: Topo, i: nat, j: nat, port: nat, m: Message)
    requires AllWitnessed(t, j, m.table) && Near(m.table, 20)
    requires OwnsMac(t, j, m.mac) && Reaches(t, j, i, port)
    ensures AllWitnessed(t, i, HeardAll(m, port))
  {
    hide OwnsMac, Reaches, OwnsIp;
    forall x | x in HeardAll(m, port)
      ensures Witnessed(t, i, x)
    {
      var n :| 0 <= n < |m.table| && HeardAll(m, port)[n] == x;
      assert Witnessed(t, j, m.table[n]);
      assert Neighbours(t, i, j);
    }
  }

  lemma UpdateWitnessed(t: Topo, i: nat, heard: Table, sorted: Table)
    requires i < |t.devices| && t.devices[i] != []
    requires AllWitnessed(t, i, heard) && IsSortOf(sorted, heard + OwnEntries(t.devices[i]))
    ensures AllWitnessed(t, i, Dedup(sorted)) && Near(Dedup(sorted), 20)
  {
    hide Dedup, IsSortOf, Witnessed;
    OwnWitnessed(t, i);
    UpdateIsBest(sorted, heard, t.devices[i]);
  }

  lemma InitialSound(t: Topo, s: State)
    requires Initial(t, s)
    ensures Sound(t, s)
  {
    hide Witnessed;
    forall i | 0 <= i < |t.devices|
      ensures AllWitnessed(t, i, s.online[i]) && Near(s.online[i], 20)
    {
      OwnWitnessed(t, i);
    }
  }

  lemma ReceiptSound(t: Topo, s: State, s': State, f: Flight)
    requires Sound(t, s) && Receipt(s, s', f)
    ensures Sound(t, s')
  {
    hide Near, OwnsMac, Reaches, HeardAll, Witnessed;
    HeardWitnessed(t, f.to, f.sender, f.port, f.message);
  }

  lemma UpdateSound(t: Topo, s: State, s': State, i: nat, sorted: Table)
    requires ValidTopo(t) && Sound(t, s) && Update(t, s, s', i, sorted)
    ensures Sound(t, s')
  {
    hide Dedup, IsSortOf, Near, OwnsMac, Reaches, Witnessed;
    UpdateWitnessed(t, i, s.tmp[i], sorted);
  }

  lemma NextSound(t: Topo, s: State, s': State)
    requires ValidTopo(t) && Sound(t, s) && Next(t, s, s')
    ensures Sound(t, s')
  {
    hide AllWitnessed, Near, OwnsMac, Reaches, ValidTopo, Receipt, Update;
    if f :| Receipt(s, s', f) {
      ReceiptSound(t, s, s', f);
    } else if i: nat, sorted :| Update(t, s, s', i, sorted) {
      UpdateSound(t, s, s', i, sorted);
    }
  }

  lemma {:induction false} RunSound(t: Topo, run: seq<State>, k: nat)
    requires ValidTopo(t) && Run(t, run) && k < |run|
    ensures Sound(t, run[k])
  {
    hide Sound, Next, Initial;
    if k == 0 {
      InitialSound(t, run[0]);
    } else {
      RunSound(t, run, k - 1);
      NextSound(t, run[k - 1], run[k]);
    }
  }

  /** On every asynchronous run an entry at distance 0 names the interface that owns its address. */
  lemma ZeroIsOwn(t: Topo, run: seq<State>, k: nat, i: nat, x: RouteEntry)
    requires ValidTopo(t) && Run(t, run) && k < |run|
    requires i < |t.devices| && i < |run[k].online| && x in run[k].online[i] && x.dist == 0
    ensures var devices := t.devices[i];
      x.device < |devices| && devices[x.device].ip == x.ip && devices[x.device].mac == x.mac
  {
    RunSound(t, run, k);
    assert AllWitnessed(t, i, run[k].online[i]);
    assert Witnessed(t, i, x);
    hide Sound, Run, Walk;
  }

  /** On every asynchronous run, with any losses, repetitions and orders, a table never claims less
      than the true distance, and always through a neighbour that is really one step on the way. */
  lemma NeverUnderestimates(t: Topo, run: seq<State>, k: nat, i: nat, x: RouteEntry)
    requires ValidTopo(t) && Run(t, run) && k < |run|
    requires i < |t.devices| && i < |run[k].online| && x in run[k].online[i]
    ensures Witnessed(t, i, x) && x.dist <= MAX_DIST
    ensures exists d: nat :: d <= x.dist && HopDist(t, i, x.ip, d)
  {
    RunSound(t, run, k);
    assert AllWitnessed(t, i, run[k].online[i]) && Near(run[k].online[i], 20);
    hide Sound, Run;
    WalkIsWithin(t, i, x.ip, x.dist);
    var d := Least(t, i, x.ip, x.dist);
  }
}
