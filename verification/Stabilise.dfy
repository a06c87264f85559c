/** The routing tables stabilise from any starting state to the shortest-path tables. */
module Stabilise {
  import opened Words
  import opened RouteTable
  import opened RouterClass
  import opened Topology

  type Table = seq<RouteEntry>

  /** Entry `x` at router `i` came in a message of neighbour `j`, which carried table `tab`. */
  ghost predicate HeardFrom(t: Topo, i: nat, x: RouteEntry, j: nat, tab: Table) {
    exists e, f: nat, mac :: e in tab && Reaches(t, j, i, f) && OwnsMac(t, j, mac) && x == Heard(e, f, mac)
  }

  ghost predicate Imported(t: Topo, seen: seq<set<Table>>, i: nat, x: RouteEntry) {
    exists j: nat, tab :: j < |seen| && tab in seen[j] && HeardFrom(t, i, x, j, tab)
  }

  /** A whole table `tab` of neighbour `j` is among the inputs. */
  ghost predicate TableArrived(t: Topo, i: nat, input: seq<RouteEntry>, j: nat, tab: Table) {
    exists f: nat, mac :: && Reaches(t, j, i, f) && OwnsMac(t, j, mac)
                          && forall e :: e in tab ==> Heard(e, f, mac) in input
  }

  ghost predicate NeighbourHeard(t: Topo, seen: seq<set<Table>>, i: nat, input: seq<RouteEntry>, j: nat) {
    j < |seen| && exists tab :: tab in seen[j] && TableArrived(t, i, input, j, tab)
  }

  /** The entries router `i` rebuilds its table from: its own, and tables its neighbours held, at
      least one from each neighbour, any number of times, in any order. */
  ghost predicate Collected(t: Topo, seen: seq<set<Table>>, i: nat, input: seq<RouteEntry>) {
    && IsNode(t, i)
    && (forall x :: x in OwnEntries(t.devices[i]) ==> x in input)
    && (forall x :: x in input ==> x in OwnEntries(t.devices[i]) || Imported(t, seen, i, x))
    && (forall j: nat :: Neighbours(t, i, j) ==> NeighbourHeard(t, seen, i, input, j))
  }

  /** `out` is a table updateRouteTable may leave at router `i`. */
  ghost predicate Rebuilt(t: Topo, seen: seq<set<Table>>, i: nat, out: Table) {
    exists input :: Collected(t, seen, i, input) && BestOf(out, input)
  }

  // ----- what a table gets right -----

  /** The recorded interface and address lead to a neighbour one hop nearer. */
  ghost predicate FirstHop(t: Topo, i: nat, x: RouteEntry) {
    x.dist > 0 && exists j: nat :: Reaches(t, j, i, x.device) && OwnsMac(t, j, x.mac) && HopDist(t, j, x.ip, x.dist - 1)
  }

  ghost predicate EntryExact(t: Topo, i: nat, x: RouteEntry) {
    && x.mask == HOST_MASK
    && HopDist(t, i, x.ip, x.dist)
    && (x.dist > 0 ==> FirstHop(t, i, x))
    && (x.dist == 0 ==> IsNode(t, i) && NamesOwn(t.devices[i], x))
  }

  ghost predicate Lists(tab: Table, ip: u32, d: nat) {
    exists x :: x in tab && x.ip == ip && x.mask == HOST_MASK && x.dist == d
  }

  /** Right below distance `k`: every entry is exact, and every address that near is listed. */
  ghost predicate ExactBelow(t: Topo, i: nat, tab: Table, k: nat) {
    && (forall x :: x in tab && x.dist < k ==> EntryExact(t, i, x))
    && (forall ip: u32, d: nat :: d < k && d <= MAX_DIST && HopDist(t, i, ip, d) ==> Lists(tab, ip, d))
  }

  /** No distance is at the point where the next increment wraps. */
  ghost predicate NoWrap(tab: Table) {
    forall e :: e in tab ==> e.dist < 0xffff_ffff
  }

  ghost predicate AllExactBelow(t: Topo, seen: seq<set<Table>>, k: nat) {
    && |seen| == |t.devices|
    && forall j: nat, tab :: j < |seen| && tab in seen[j] ==> ExactBelow(t, j, tab, k) && NoWrap(tab)
  }

  // ----- one rebuild -----

  lemma OwnInput(t: Topo, i: nat, ip: u32) returns (y: RouteEntry)
    requires OwnsIp(t, i, ip)
    ensures y in OwnEntries(t.devices[i]) && y.ip == ip && y.mask == HOST_MASK && y.dist == 0
  {
    var n :| 0 <= n < |t.devices[i]| && t.devices[i][n].ip == ip;
    y := OwnEntries(t.devices[i])[n];
  }

  lemma ArrivedEntry(t: Topo, i: nat, input: seq<RouteEntry>, j: nat, tab: Table, e: RouteEntry)
    returns (y: RouteEntry)
    requires TableArrived(t, i, input, j, tab) && e in tab
    ensures y in input && y.ip == e.ip && y.mask == e.mask && y.dist == U32(e.dist + 1)
  {
    hide Reaches, OwnsMac;
    var f: nat, mac :| Reaches(t, j, i, f) && OwnsMac(t, j, mac) && forall e :: e in tab ==> Heard(e, f, mac) in input;
    y := Heard(e, f, mac);
  }

  lemma ListedEntry(tab: Table, ip: u32, d: nat) returns (e: RouteEntry)
    requires Lists(tab, ip, d)
    ensures e in tab && e.ip == ip && e.mask == HOST_MASK && e.dist == d
  {
    e :| e in tab && e.ip == ip && e.mask == HOST_MASK && e.dist == d;
  }

  lemma HeardTable(t: Topo, seen: seq<set<Table>>, i: nat, input: seq<RouteEntry>, j: nat) returns (tab: Table)
    requires NeighbourHeard(t, seen, i, input, j)
    ensures j < |seen| && tab in seen[j] && TableArrived(t, i, input, j, tab)
  {
    hide TableArrived;
    tab :| tab in seen[j] && TableArrived(t, i, input, j, tab);
  }

  /** Every address at distance d <= k is among the inputs at that distance. */
  lemma NearInput(t: Topo, seen: seq<set<Table>>, i: nat, input: seq<RouteEntry>, k: nat, ip: u32, d: nat)
    returns (y: RouteEntry)
    requires AllExactBelow(t, seen, k) && Collected(t, seen, i, input)
    requires HopDist(t, i, ip, d) && d <= k && d <= MAX_DIST
    ensures y in input && y.ip == ip && y.mask == HOST_MASK && y.dist == d
  {
    hide Reaches, OwnsMac, OwnsIp, Neighbours, TableArrived, Lists, Imported, NeighbourHeard, EntryExact, NoWrap;
    if d == 0 {
      hide HopDist;
      assert OwnsIp(t, i, ip) by { ZeroDist(t, i, ip); }
      y := OwnInput(t, i, ip);
    } else {
      var j := NearerNeighbour(t, i, ip, d);
      hide HopDist;
      var tab := HeardTable(t, seen, i, input, j);
      assert ExactBelow(t, j, tab, k);
      var e := ListedEntry(tab, ip, d - 1);
      y := ArrivedEntry(t, i, input, j, tab, e);
    }
  }

  lemma ZeroDist(t: Topo, i: nat, ip: u32)
    requires HopDist(t, i, ip, 0)
    ensures OwnsIp(t, i, ip)
  {
  }

  lemma OwnIsZero(t: Topo, i: nat, x: RouteEntry)
    requires IsNode(t, i) && x in OwnEntries(t.devices[i])
    ensures x.mask == HOST_MASK && x.dist == 0 && OwnsIp(t, i, x.ip) && NamesOwn(t.devices[i], x)
  {
    OwnIsNamed(t.devices[i]);
    var n :| 0 <= n < |t.devices[i]| && OwnEntries(t.devices[i])[n] == x;
    assert t.devices[i][n].ip == x.ip;
  }

  /** One hop beyond an exact neighbour entry. */
  lemma HeardOrigin(t: Topo, i: nat, j: nat, tab: Table, k: nat, x: RouteEntry)
    requires ExactBelow(t, j, tab, k) && NoWrap(tab) && HeardFrom(t, i, x, j, tab) && x.dist <= k
    ensures x.mask == HOST_MASK && Within(t, i, x.ip, x.dist) && x.dist > 0 && FirstHop(t, i, x)
  {
    hide Reaches, OwnsMac, OwnsIp;
    var e, f: nat, mac :| e in tab && Reaches(t, j, i, f) && OwnsMac(t, j, mac) && x == Heard(e, f, mac);
    assert EntryExact(t, j, e);
    assert Neighbours(t, i, j);
    assert HopDist(t, j, x.ip, x.dist - 1);
  }

  /** An input entry is the router's own, or one hop further than an exact neighbour entry. */
  lemma InputOrigin(t: Topo, seen: seq<set<Table>>, i: nat, input: seq<RouteEntry>, k: nat, x: RouteEntry)
    requires AllExactBelow(t, seen, k) && Collected(t, seen, i, input)
    requires x in input && x.dist <= k
    ensures x.mask == HOST_MASK && Within(t, i, x.ip, x.dist)
    ensures x.dist > 0 ==> FirstHop(t, i, x)
    ensures IsNode(t, i) && (x.dist == 0 ==> NamesOwn(t.devices[i], x))
  {
    hide ExactBelow, NoWrap, HeardFrom, OwnsIp, Neighbours, NeighbourHeard, FirstHop;
    if x in OwnEntries(t.devices[i]) {
      OwnIsZero(t, i, x);
    } else {
      assert Imported(t, seen, i, x);
      var j: nat, tab :| j < |seen| && tab in seen[j] && HeardFrom(t, i, x, j, tab);
      HeardOrigin(t, i, j, tab, k, x);
    }
  }

  /** A rebuild from tables right below k is right below k + 1. */
  lemma RebuildImproves(t: Topo, seen: seq<set<Table>>, i: nat, out: Table, k: nat)
    requires AllExactBelow(t, seen, k) && Rebuilt(t, seen, i, out)
    ensures ExactBelow(t, i, out, k + 1) && NoWrap(out)
  {
    hide Collected, AllExactBelow, Within, Lists, FirstHop, HasKey, StrictlySorted;
    var input :| Collected(t, seen, i, input) && BestOf(out, input);
    forall x | x in out && x.dist < k + 1
      ensures EntryExact(t, i, x)
    {
      InputOrigin(t, seen, i, input, k, x);
      var d := Least(t, i, x.ip, x.dist);
      var y := NearInput(t, seen, i, input, k, x.ip, d);
      assert SameKey(x, y) && x.dist == d;
    }
    forall ip: u32, d: nat | d < k + 1 && d <= MAX_DIST && HopDist(t, i, ip, d)
      ensures Lists(out, ip, d)
    {
      var y := NearInput(t, seen, i, input, k, ip, d);
      var x := KeyWitness(out, y);
      assert SameKey(x, y) && x.dist <= d;
      assert EntryExact(t, i, x);
      HopDistUnique(t, i, ip, d, x.dist);
      ListsBy(out, x);
    }
  }

  lemma ListsBy(tab: Table, x: RouteEntry)
    requires x in tab && x.mask == HOST_MASK
    ensures Lists(tab, x.ip, x.dist)
  {
  }

  // ----- epochs -----

  /** `hist[k][i]` are the tables router `i` holds in epoch k, which may be several; each table of
      the next epoch is rebuilt from tables of this one. With one table per router and epoch
      these are synchronous rounds. */
  ghost predicate Epochs(t: Topo, hist: seq<seq<set<Table>>>) {
    && (forall k :: 0 <= k < |hist| ==> |hist[k]| == |t.devices|)
    && (forall k, i: nat, out :: 0 < k < |hist| && i < |t.devices| && out in hist[k][i] ==>
          Rebuilt(t, hist[k - 1], i, out))
  }

  ghost predicate EpochNoWrap(seen: seq<set<Table>>) {
    forall j: nat, tab :: j < |seen| && tab in seen[j] ==> NoWrap(tab)
  }

  lemma BelowZero(t: Topo, i: nat, tab: Table)
    ensures ExactBelow(t, i, tab, 0)
  {
  }

  lemma {:induction false} EpochExact(t: Topo, hist: seq<seq<set<Table>>>, start: nat, k: nat)
    requires Epochs(t, hist) && start + k < |hist|
    requires EpochNoWrap(hist[start])
    ensures AllExactBelow(t, hist[start + k], k)
  {
    hide ExactBelow, NoWrap, Rebuilt;
    var seen := hist[start + k];
    if k == 0 {
      assert hist[start + k] == hist[start];
      forall j: nat, tab | j < |t.devices| && tab in hist[start + k][j]
        ensures ExactBelow(t, j, tab, k)
      {
        BelowZero(t, j, tab);
      }
    } else {
      EpochExact(t, hist, start, k - 1);
      forall i: nat, out | i < |seen| && out in seen[i]
        ensures ExactBelow(t, i, out, k) && NoWrap(out)
      {
        assert out in hist[start + k][i];
        assert Rebuilt(t, hist[start + k - 1], i, out);
        RebuildImproves(t, hist[start + k - 1], i, out, k - 1);
      }
    }
  }

  /** The shortest-path table cut at 20: exact entries, all of them, and nothing else. */
  ghost predicate ShortestPaths(t: Topo, i: nat, tab: Table) {
    && StrictlySorted(tab)
    && (forall x :: x in tab ==> EntryExact(t, i, x) && x.dist <= MAX_DIST)
    && (forall ip: u32, d: nat :: d <= MAX_DIST && HopDist(t, i, ip, d) ==> Lists(tab, ip, d))
  }

  lemma RebuiltBounds(t: Topo, seen: seq<set<Table>>, i: nat, out: Table)
    requires Rebuilt(t, seen, i, out)
    ensures StrictlySorted(out) && NoWrap(out) && forall x :: x in out ==> x.dist <= MAX_DIST
  {
    var input :| Collected(t, seen, i, input) && BestOf(out, input);
  }

  lemma LateTables(t: Topo, hist: seq<seq<set<Table>>>, start: nat, i: nat, tab: Table)
    requires Epochs(t, hist) && start + 21 < |hist| && i < |t.devices| && tab in hist[start + 21][i]
    requires EpochNoWrap(hist[start])
    ensures ShortestPaths(t, i, tab)
  {
    EpochExact(t, hist, start, 21);
    assert Rebuilt(t, hist[start + 20], i, tab);
    RebuiltBounds(t, hist[start + 20], i, tab);
    assert ExactBelow(t, i, tab, 21);
  }

  /** After one rebuild no distance can wrap. */
  lemma RebuiltEpoch(t: Topo, hist: seq<seq<set<Table>>>, m: nat)
    requires Epochs(t, hist) && 0 < m < |hist|
    ensures EpochNoWrap(hist[m])
  {
    hide Rebuilt;
    forall j: nat, tab | j < |hist[m]| && tab in hist[m][j]
      ensures NoWrap(tab)
    {
      assert Rebuilt(t, hist[m - 1], j, tab);
      RebuiltBounds(t, hist[m - 1], j, tab);
    }
  }

  /** Routing self-stabilises: whatever the tables held, as long as no distance was 2^32 - 1, after
      k epochs everything nearer than k is right, and after 21 epochs every table is exactly the
      shortest-path table cut at 20, so stale and unreachable addresses are gone. */
  lemma RoutingStabilises(t: Topo, hist: seq<seq<set<Table>>>, k: nat, i: nat, tab: Table)
    requires Epochs(t, hist) && k < |hist| && i < |t.devices| && tab in hist[k][i]
    requires EpochNoWrap(hist[0])
    ensures ExactBelow(t, i, tab, k)
    ensures k >= 21 ==> ShortestPaths(t, i, tab)
  {
    hide ExactBelow, ShortestPaths, NoWrap, Rebuilt, EpochNoWrap;
    EpochExact(t, hist, 0, k);
    if k >= 21 {
      if k > 21 { RebuiltEpoch(t, hist, k - 21); }
      LateTables(t, hist, k - 21, i, tab);
    }
  }

  /** From any tables at all, wrapping distances included, one epoch more suffices. */
  lemma RoutingStabilisesFromAnything(t: Topo, hist: seq<seq<set<Table>>>, k: nat, i: nat, tab: Table)
    requires Epochs(t, hist) && 22 <= k < |hist| && i < |t.devices| && tab in hist[k][i]
    ensures ShortestPaths(t, i, tab)
  {
    hide ShortestPaths, NoWrap, Rebuilt, EpochNoWrap;
    RebuiltEpoch(t, hist, k - 21);
    LateTables(t, hist, k - 21, i, tab);
  }
}
