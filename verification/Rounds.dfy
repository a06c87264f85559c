/** Asynchronous runs of the routing protocol, cut into rounds, are the epochs of module Stabilise:
    so tables stabilise on them too, whatever the routers held and had in flight at the start. */
module Rounds {
  import opened RouteTable
  import opened RouterClass
  import opened Topology
  import opened Stabilise
  import opened Propagation

  /** Messages in flight carry an address of their sender to an interface that hears it; tables
      may be anything. */
  ghost predicate Genuine(t: Topo, s: State) {
    && |s.online| == |s.tmp| == |t.devices|
    && forall f :: f in s.flying ==> OwnsMac(t, f.sender, f.message.mac) && Reaches(t, f.sender, f.to, f.port)
  }

  /** A run from any such state. */
  ghost predicate AnyRun(t: Topo, run: seq<State>) {
    && run != []
    && Genuine(t, run[0])
    && forall k :: 0 < k < |run| ==> Next(t, run[k - 1], run[k])
  }

  ghost predicate IsUpdate(t: Topo, s: State, s': State, i: nat) {
    exists sorted :: Update(t, s, s', i, sorted)
  }

  ghost predicate Updates(t: Topo, run: seq<State>, i: nat, k: nat) {
    k + 1 < |run| && IsUpdate(t, run[k], run[k + 1], i)
  }

  ghost predicate Receives(run: seq<State>, i: nat, f: Flight, k: nat) {
    k + 1 < |run| && f.to == i && Receipt(run[k], run[k + 1], f)
  }

  /** The tables router `i` holds at or after step `c`. */
  ghost function HeldSince(run: seq<State>, c: nat, i: nat): set<Table> {
    set k: nat | c <= k < |run| && i < |run[k].online| :: run[k].online[i]
  }

  ghost function Row(t: Topo, run: seq<State>, c: nat): (seen: seq<set<Table>>)
    ensures |seen| == |t.devices|
  {
    seq(|t.devices|, i requires 0 <= i < |t.devices| => HeldSince(run, c, i))
  }

  /** From step `p` on, what router `i` receives is a table its sender held at or after step `c`. */
  ghost predicate NothingOlder(run: seq<State>, c: nat, i: nat, p: nat) {
    forall k, f :: p <= k && Receives(run, i, f, k) ==> f.message.table in HeldSince(run, c, f.sender)
  }

  ghost predicate Undisturbed(t: Topo, run: seq<State>, i: nat, r: nat, u: nat) {
    forall v :: r < v < u ==> !Updates(t, run, i, v)
  }

  /** Router `i` hears from neighbour `j` after step `p` and its last update, before step `u`. */
  ghost predicate HeardBefore(t: Topo, run: seq<State>, i: nat, j: nat, p: nat, u: nat) {
    exists r, f :: p <= r < u && Receives(run, i, f, r) && f.sender == j && Undisturbed(t, run, i, r, u)
  }

  ghost predicate HearsAll(t: Topo, run: seq<State>, i: nat, p: nat) {
    forall u, j: nat :: p <= u && Updates(t, run, i, u) && Neighbours(t, i, j) ==> HeardBefore(t, run, i, j, p, u)
  }

  /** The collection of router `i` is empty at step `p`. From then on it hears nothing older than `c`,
      and every neighbour before each of its updates. */
  ghost predicate StartsAt(t: Topo, run: seq<State>, c: nat, i: nat, p: nat) {
    && c <= p < |run| && i < |run[p].tmp| && run[p].tmp[i] == []
    && NothingOlder(run, c, i, p)
    && HearsAll(t, run, i, p)
  }

  /** Router `i` makes a round between `c` and `d`: it starts, and it updates. */
  ghost predicate MakesRound(t: Topo, run: seq<State>, c: nat, d: nat, i: nat) {
    exists p: nat, u: nat :: StartsAt(t, run, c, i, p) && p <= u < d && Updates(t, run, i, u)
  }

  ghost predicate AllMakeRound(t: Topo, run: seq<State>, c: nat, d: nat) {
    forall i: nat :: i < |t.devices| ==> MakesRound(t, run, c, d, i)
  }

  /** Every router makes a round between consecutive cuts. */
  ghost predicate Paced(t: Topo, run: seq<State>, cuts: seq<nat>) {
    && (forall m :: 0 <= m < |cuts| ==> cuts[m] < |run|)
    && forall m :: 0 < m < |cuts| ==> AllMakeRound(t, run, cuts[m - 1], cuts[m])
  }

  // ----- every step -----

  lemma {:induction false} AllGenuine(t: Topo, run: seq<State>, k: nat)
    requires AnyRun(t, run) && k < |run|
    ensures Genuine(t, run[k])
  {
    hide OwnsMac, Reaches, Update, Next;
    if k > 0 {
      AllGenuine(t, run, k - 1);
      GenuineNext(t, run[k - 1], run[k]);
    }
  }

  lemma Sizes(t: Topo, run: seq<State>, k: nat)
    requires AnyRun(t, run) && k < |run|
    ensures |run[k].online| == |run[k].tmp| == |t.devices|
  {
    hide AnyRun;
    AllGenuine(t, run, k);
  }

  lemma GenuineNext(t: Topo, s: State, s': State)
    requires Genuine(t, s) && Next(t, s, s')
    ensures Genuine(t, s')
  {
    hide OwnsMac, Reaches, Dedup, IsSortOf;
  }

  /** What a step does to the table and the collection of router `i`. */
  lemma StepAt(t: Topo, run: seq<State>, i: nat, k: nat)
    requires AnyRun(t, run) && k + 1 < |run| && i < |t.devices|
    ensures |run[k].online| == |run[k].tmp| == |run[k + 1].online| == |run[k + 1].tmp| == |t.devices|
    ensures Updates(t, run, i, k) || run[k + 1].online[i] == run[k].online[i]
    ensures || Updates(t, run, i, k)
            || run[k + 1].tmp[i] == run[k].tmp[i]
            || exists f :: Receives(run, i, f, k) && run[k + 1].tmp[i] == run[k].tmp[i] + HeardAll(f.message, f.port)
  {
    AllGenuine(t, run, k);
    AllGenuine(t, run, k + 1);
    assert Next(t, run[k], run[k + 1]);
    hide Genuine, Dedup, IsSortOf, HeardAll, OwnEntries, AnyRun;
    var s, s' := run[k], run[k + 1];
    if f :| Receipt(s, s', f) {
      assert f.to == i ==> Receives(run, i, f, k);
    } else if j: nat, sorted :| Update(t, s, s', j, sorted) {
      assert j == i ==> Updates(t, run, i, k);
    }
  }

  // ----- one round -----

  lemma ReceivedIsImported(t: Topo, run: seq<State>, c: nat, i: nat, f: Flight, k: nat, x: RouteEntry)
    requires AnyRun(t, run) && Receives(run, i, f, k) && f.message.table in HeldSince(run, c, f.sender)
    requires x in HeardAll(f.message, f.port)
    ensures Imported(t, Row(t, run, c), i, x)
  {
    AllGenuine(t, run, k);
    hide AnyRun, HeldSince, OwnsMac, Reaches;
    var n :| 0 <= n < |f.message.table| && HeardAll(f.message, f.port)[n] == x;
    assert OwnsMac(t, f.sender, f.message.mac) && Reaches(t, f.sender, i, f.port);
    assert f.message.table[n] in f.message.table;
    assert HeardFrom(t, i, x, f.sender, f.message.table);
    assert f.sender < |t.devices| by { OwnerIsNode(t, f.sender, f.message.mac); }
    assert Row(t, run, c)[f.sender] == HeldSince(run, c, f.sender);
  }

  lemma OwnerIsNode(t: Topo, i: nat, mac: nat)
    requires OwnsMac(t, i, mac)
    ensures i < |t.devices|
  {
  }

  lemma CollectionStep(t: Topo, run: seq<State>, c: nat, i: nat, p: nat, k: nat, x: RouteEntry)
    requires AnyRun(t, run) && i < |t.devices| && StartsAt(t, run, c, i, p) && p <= k && k + 1 < |run|
    requires i < |run[k].tmp| && i < |run[k + 1].tmp| && x in run[k + 1].tmp[i]
    ensures x in run[k].tmp[i] || Imported(t, Row(t, run, c), i, x)
  {
    hide AnyRun, Imported, HeardAll, HearsAll, Row, HeldSince;
    StepAt(t, run, i, k);
    if Updates(t, run, i, k) {
      UpdateClears(t, run, i, k);
      assert false;
    } else if run[k + 1].tmp[i] != run[k].tmp[i] {
      hide Updates, Receives;
      var f :| Receives(run, i, f, k) && run[k + 1].tmp[i] == run[k].tmp[i] + HeardAll(f.message, f.port);
      if x in HeardAll(f.message, f.port) {
        ReceivedIsImported(t, run, c, i, f, k, x);
      }
    }
  }

  /** Everything collected since the start of a round comes from tables held since `c`. */
  lemma {:induction false} CollectionIsImported(t: Topo, run: seq<State>, c: nat, i: nat, p: nat, k: nat)
    requires AnyRun(t, run) && i < |t.devices| && StartsAt(t, run, c, i, p) && p <= k < |run|
    ensures |run[k].tmp| == |t.devices|
    ensures forall x :: x in run[k].tmp[i] ==> Imported(t, Row(t, run, c), i, x)
    decreases k
  {
    hide AnyRun, Imported, HearsAll, NothingOlder, Row;
    Sizes(t, run, k);
    if k > p {
      CollectionIsImported(t, run, c, i, p, k - 1);
      forall x | x in run[k].tmp[i]
        ensures Imported(t, Row(t, run, c), i, x)
      {
        CollectionStep(t, run, c, i, p, k - 1, x);
      }
    }
  }

  lemma UpdateClears(t: Topo, run: seq<State>, i: nat, k: nat)
    requires Updates(t, run, i, k)
    ensures i < |run[k + 1].tmp| && run[k + 1].tmp[i] == []
  {
    hide Dedup, IsSortOf;
  }

  /** A message stays in the collection until the next update. */
  lemma {:induction false} ReceivedStays(t: Topo, run: seq<State>, i: nat, f: Flight, r: nat, k: nat)
    requires AnyRun(t, run) && i < |t.devices| && Receives(run, i, f, r)
    requires r < k < |run| && Undisturbed(t, run, i, r, k)
    ensures |run[k].tmp| == |t.devices|
    ensures forall x :: x in HeardAll(f.message, f.port) ==> x in run[k].tmp[i]
    decreases k
  {
    hide AnyRun, Updates, Receives, HeardAll, Genuine;
    Sizes(t, run, k);
    if k == r + 1 {
      ReceivedEnters(t, run, i, f, r);
    } else {
      ReceivedStays(t, run, i, f, r, k - 1);
      StepAt(t, run, i, k - 1);
    }
  }

  lemma ReceivedEnters(t: Topo, run: seq<State>, i: nat, f: Flight, r: nat)
    requires Receives(run, i, f, r)
    ensures i < |run[r + 1].tmp| && forall x :: x in HeardAll(f.message, f.port) ==> x in run[r + 1].tmp[i]
  {
  }

  lemma HeardIsNeighbour(t: Topo, run: seq<State>, c: nat, i: nat, j: nat, p: nat, u: nat, input: seq<RouteEntry>)
    requires AnyRun(t, run) && i < |t.devices| && StartsAt(t, run, c, i, p) && HeardBefore(t, run, i, j, p, u)
    requires u < |run| && i < |run[u].tmp| && forall x :: x in run[u].tmp[i] ==> x in input
    ensures NeighbourHeard(t, Row(t, run, c), i, input, j)
  {
    hide AnyRun, HearsAll, HeldSince, HeardAll, OwnsMac, Reaches, Updates;
    var r, f :| p <= r < u && Receives(run, i, f, r) && f.sender == j && Undisturbed(t, run, i, r, u);
    ReceivedStays(t, run, i, f, r, u);
    AllGenuine(t, run, r);
    OwnerIsNode(t, j, f.message.mac);
    assert Row(t, run, c)[j] == HeldSince(run, c, j);
    var tab := f.message.table;
    forall e | e in tab
      ensures Heard(e, f.port, f.message.mac) in input
    {
      HeardAllHas(f.message, f.port, e);
    }
    assert TableArrived(t, i, input, j, tab);
  }

  lemma HeardAllHas(m: Message, port: nat, e: RouteEntry)
    requires e in m.table
    ensures Heard(e, port, m.mac) in HeardAll(m, port)
  {
    var n :| 0 <= n < |m.table| && m.table[n] == e;
    assert HeardAll(m, port)[n] == Heard(e, port, m.mac);
  }

  /** An update after the start of a round rebuilds the table from tables held since `c`. */
  lemma UpdateRebuilds(t: Topo, run: seq<State>, c: nat, i: nat, p: nat, u: nat)
    requires ValidTopo(t) && AnyRun(t, run) && i < |t.devices| && StartsAt(t, run, c, i, p)
    requires p <= u && Updates(t, run, i, u)
    ensures |run[u + 1].online| == |t.devices| && Rebuilt(t, Row(t, run, c), i, run[u + 1].online[i])
  {
    CollectionIsImported(t, run, c, i, p, u);
    AllGenuine(t, run, u + 1);
    assert t.devices[i] != [];
    hide AnyRun, ValidTopo, Imported, BestOf, HeardBefore, NeighbourHeard, Dedup, IsSortOf, Row;
    var sorted :| Update(t, run[u], run[u + 1], i, sorted);
    UpdateIsBest(sorted, run[u].tmp[i], t.devices[i]);
    var input := run[u].tmp[i] + OwnEntries(t.devices[i]);
    forall j: nat | Neighbours(t, i, j)
      ensures NeighbourHeard(t, Row(t, run, c), i, input, j)
    {
      HeardIsNeighbour(t, run, c, i, j, p, u, input);
    }
    assert Collected(t, Row(t, run, c), i, input);
  }

  lemma {:induction false} HeldIsRebuilt(t: Topo, run: seq<State>, c: nat, i: nat, p: nat, u: nat, k: nat)
    requires ValidTopo(t) && AnyRun(t, run) && i < |t.devices| && StartsAt(t, run, c, i, p)
    requires p <= u < k < |run| && Updates(t, run, i, u)
    ensures |run[k].online| == |t.devices| && Rebuilt(t, Row(t, run, c), i, run[k].online[i])
    decreases k
  {
    hide AnyRun, ValidTopo, Rebuilt, StartsAt, Updates, Receives;
    if Updates(t, run, i, k - 1) {
      UpdateRebuilds(t, run, c, i, p, k - 1);
    } else {
      HeldIsRebuilt(t, run, c, i, p, u, k - 1);
      StepAt(t, run, i, k - 1);
    }
  }

  // ----- all rounds -----

  /** The tables held since each cut. */
  ghost function History(t: Topo, run: seq<State>, cuts: seq<nat>): (hist: seq<seq<set<Table>>>)
    ensures |hist| == |cuts|
  {
    seq(|cuts|, m requires 0 <= m < |cuts| => Row(t, run, cuts[m]))
  }

  /** The rounds of an asynchronous run are epochs. */
  lemma PacedIsEpochs(t: Topo, run: seq<State>, cuts: seq<nat>)
    requires ValidTopo(t) && AnyRun(t, run) && Paced(t, run, cuts)
    ensures Epochs(t, History(t, run, cuts))
  {
    var hist := History(t, run, cuts);
    hide ValidTopo, AnyRun, Rebuilt, StartsAt, Updates;
    forall m, i: nat, out | 0 < m < |hist| && i < |t.devices| && out in hist[m][i]
      ensures Rebuilt(t, hist[m - 1], i, out)
    {
      var c, d := cuts[m - 1], cuts[m];
      assert AllMakeRound(t, run, c, d);
      assert MakesRound(t, run, c, d, i);
      var p: nat, u: nat :| StartsAt(t, run, c, i, p) && p <= u < d && Updates(t, run, i, u);
      assert out in HeldSince(run, cuts[m], i);
      var k: nat :| cuts[m] <= k < |run| && i < |run[k].online| && run[k].online[i] == out;
      HeldIsRebuilt(t, run, c, i, p, u, k);
    }
  }

  /** Routing stabilises on asynchronous runs: whatever the tables, collections and messages were at
      the start, once every router has made 22 rounds every table is exactly the shortest-path
      table cut at 20, and remains so. */
  lemma AsynchronousStabilises(t: Topo, run: seq<State>, cuts: seq<nat>, k: nat, i: nat)
    requires ValidTopo(t) && AnyRun(t, run) && Paced(t, run, cuts)
    requires |cuts| == 23 && cuts[22] <= k < |run| && i < |t.devices|
    ensures |run[k].online| == |t.devices| && ShortestPaths(t, i, run[k].online[i])
  {
    AllGenuine(t, run, k);
    PacedIsEpochs(t, run, cuts);
    hide ValidTopo, AnyRun, Paced, Epochs, ShortestPaths, OwnsMac, Reaches;
    var hist := History(t, run, cuts);
    assert run[k].online[i] in HeldSince(run, cuts[22], i);
    RoutingStabilisesFromAnything(t, hist, 22, i, run[k].online[i]);
  }
}
