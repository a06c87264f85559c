/** The routing state of one host and the code that updates it (src/network/route.c). */
module RouterClass {
  import opened Words
  import opened RouteTable
  import opened Lookup

  /** A network interface; its index in the router's list is its identity. */
  datatype Device = Device(name: string, ip: u32, mac: nat)

  /** A broadcast packet: a table followed by a hardware address of the sender. */
  datatype Message = Message(table: seq<RouteEntry>, mac: nat)

  /** What addDefaultRouteTable adds for interface `d`. */
  function OwnEntry(device: Device, d: nat): RouteEntry {
    RouteEntry(device.ip, HOST_MASK, d, 0, device.mac)
  }

  function OwnEntries(devices: seq<Device>): seq<RouteEntry> {
    seq(|devices|, d requires 0 <= d < |devices| => OwnEntry(devices[d], d))
  }

  /** The entry names one of the router's interfaces, with the address and hardware address of that
      interface. */
  predicate NamesOwn(devices: seq<Device>, x: RouteEntry) {
    x.device < |devices| && devices[x.device].ip == x.ip && devices[x.device].mac == x.mac
  }

  lemma OwnIsNamed(devices: seq<Device>)
    ensures |OwnEntries(devices)| == |devices|
    ensures forall x :: x in OwnEntries(devices) ==> x.dist == 0 && x.mask == HOST_MASK && NamesOwn(devices, x)
    ensures forall d :: 0 <= d < |devices| ==> OwnEntries(devices)[d].device == d
  {
  }

  /** What handleRouteTable makes of a received entry; the distance is a uint32_t. */
  function Heard(e: RouteEntry, device: nat, mac: nat): RouteEntry {
    e.(device := device, mac := mac, dist := U32(e.dist + 1))
  }

  function HeardAll(m: Message, device: nat): seq<RouteEntry> {
    seq(|m.table|, i requires 0 <= i < |m.table| => Heard(m.table[i], device, m.mac))
  }

  /** qsort's contract: an order of the same entries, sorted, equal keys in any order. */
  ghost predicate IsSortOf(sorted: seq<RouteEntry>, entries: seq<RouteEntry>) {
    Sorted(sorted) && multiset(sorted) == multiset(entries)
  }

  /** Interface `d` is the first of that name. */
  ghost predicate FirstNamed(devices: seq<Device>, name: string, d: nat) {
    && d < |devices| && devices[d].name == name
    && forall k :: 0 <= k < d ==> devices[k].name != name
  }

  class Router {
    const devices: seq<Device>
    var manual: seq<RouteEntry>
    var online: seq<RouteEntry>
    var tmp: seq<RouteEntry>

    /** initRouteTable. */
    constructor (devices: seq<Device>)
      ensures this.devices == devices
      ensures online == OwnEntries(devices) && tmp == [] && manual == []
      ensures |online| == |devices| && forall d :: 0 <= d < |devices| ==>
                online[d] == RouteEntry(devices[d].ip, HOST_MASK, d, 0, devices[d].mac)
    {
      this.devices := devices;
      manual, online, tmp := [], [], [];
      new;
      online := AddDefaultRouteTable(online);
    }

    /** addDefaultRouteTable. */
    method AddDefaultRouteTable(table: seq<RouteEntry>) returns (table': seq<RouteEntry>)
      ensures table' == table + OwnEntries(devices)
      ensures |table'| == |table| + |devices| && forall d :: 0 <= d < |devices| ==>
                table'[|table| + d] == RouteEntry(devices[d].ip, HOST_MASK, d, 0, devices[d].mac)
    {
      table' := table;
      for d := 0 to |devices|
        invariant table' == table + OwnEntries(devices)[..d]
      {
        table' := table' + [OwnEntry(devices[d], d)];
      }
    }

    /** handleRouteTable, for a packet that arrived on interface `device`. */
    method HandleRouteTable(m: Message, device: nat)
      modifies this`tmp
      ensures tmp == old(tmp) + HeardAll(m, device)
      ensures |tmp| == |old(tmp)| + |m.table| && forall i :: 0 <= i < |m.table| ==>
                var e := m.table[i];
                tmp[|old(tmp)| + i] == RouteEntry(e.ip, e.mask, device, (e.dist + 1) % 0x1_0000_0000, m.mac)
    {
      var first := |tmp|;
      tmp := tmp + m.table;
      for i := first to |tmp|
        invariant |tmp| == first + |m.table|
        invariant tmp[..first] == old(tmp)
        invariant tmp[first..i] == HeardAll(m, device)[..i - first]
        invariant tmp[i..] == m.table[i - first..]
      {
        ghost var was, heard := tmp, HeardAll(m, device);
        assert tmp[i] == m.table[i - first];
        tmp := tmp[i := tmp[i].(device := device, mac := m.mac, dist := U32(tmp[i].dist + 1))];
        assert tmp[first..i + 1] == was[first..i] + [heard[i - first]];
        assert heard[..i + 1 - first] == heard[..i - first] + [heard[i - first]];
        assert tmp[i + 1..] == was[i..][1..];
      }
    }

    /** broadcastRouteTable: one packet for every interface, each with that interface's address. */
    method BroadcastRouteTable() returns (out: seq<Message>)
      ensures |out| == |devices|
      ensures forall d :: 0 <= d < |devices| ==> out[d] == Message(online, devices[d].mac)
    {
      out := [];
      for d := 0 to |devices|
        invariant |out| == d
        invariant forall k :: 0 <= k < d ==> out[k] == Message(online, devices[k].mac)
      {
        out := out + [Message(online, devices[d].mac)];
      }
    }

    /** updateRouteTable; `sorted` is what qsort makes of the collected entries and the router's own. */
    method UpdateRouteTable(sorted: seq<RouteEntry>)
      requires IsSortOf(sorted, tmp + OwnEntries(devices))
      modifies this`tmp, this`online
      ensures online == Dedup(sorted) && tmp == []
      ensures devices != [] ==> BestOf(online, old(tmp) + OwnEntries(devices))
      ensures forall x :: x in online ==> x in old(tmp) || (x.dist == 0 && NamesOwn(devices, x))
    {
      hide BestOf, IsSortOf, Dedup, NamesOwn;
      if devices != [] {
        UpdateIsBest(sorted, tmp, devices);
      }
      UpdateIsIncluded(sorted, tmp, devices);
      tmp := AddDefaultRouteTable(tmp);
      var buffer := new RouteEntry[|sorted|](i requires 0 <= i < |sorted| => sorted[i]);
      assert buffer[..buffer.Length] == sorted;
      var count := RemoveDuplicates(buffer, buffer.Length);
      online := buffer[..count];
      tmp := [];
    }

    /** findDevice: the first interface of that name. */
    method FindDevice(name: string) returns (r: Option<nat>)
      ensures r.None? ==> forall d :: 0 <= d < |devices| ==> devices[d].name != name
      ensures r.Some? ==> FirstNamed(devices, name, r.value)
    {
      for d := 0 to |devices|
        invariant forall k :: 0 <= k < d ==> devices[k].name != name
      {
        if devices[d].name == name {
          return Some(d);
        }
      }
      r := None;
    }

    /** setRoutingTable: a route over the first interface of that name, or -1 and no change when there
        is none. */
    method SetRoutingTable(dest: u32, mask: u32, nextHop: nat, name: string) returns (code: int)
      modifies this`manual
      ensures code == -1 <==> forall d :: 0 <= d < |devices| ==> devices[d].name != name
      ensures code == -1 ==> manual == old(manual)
      ensures code != -1 ==>
                && code == 0
                && exists d ::
                  FirstNamed(devices, name, d) && manual == old(manual) + [RouteEntry(dest, mask, d, 0, nextHop)]
    {
      var device := FindDevice(name);
      if device.None? {
        return -1;
      }
      manual := manual + [RouteEntry(dest, mask, device.value, 0, nextHop)];
      code := 0;
    }

    /** One loop of queryRouteTable. */
    static method ScanTable(table: seq<RouteEntry>, ip: u32) returns (r: Option<RouteEntry>)
      ensures r == Scan(table, ip)
    {
      r := None;
      var bestMask: u32 := 0;
      for i := 0 to |table|
        invariant r == Scan(table[..i], ip) && bestMask == MaskOf(r)
      {
        assert Init(table[..i + 1]) == table[..i];
        if table[i].ip == BitAnd(ip, table[i].mask) {
          if bestMask < table[i].mask {
            bestMask := table[i].mask;
            r := Some(table[i]);
          }
        }
      }
      assert table[..|table|] == table;
    }

    /** queryRouteTable. */
    method QueryRouteTable(ip: u32) returns (r: Option<RouteEntry>)
      ensures r == Query(manual, online, ip)
    {
      r := ScanTable(manual, ip);
      if r.None? {
        r := ScanTable(online, ip);
      }
    }
  }

  /** Every entry of a rebuilt table was heard or names one of the router's interfaces. */
  lemma UpdateIsIncluded(sorted: seq<RouteEntry>, heard: seq<RouteEntry>, devices: seq<Device>)
    requires IsSortOf(sorted, heard + OwnEntries(devices))
    ensures forall x :: x in Dedup(sorted) ==> x in heard || (x.dist == 0 && NamesOwn(devices, x))
  {
    MergeIncluded(sorted);
    CutKeeps(Merge(sorted));
    OwnIsNamed(devices);
    hide Merge, Cut, OwnEntries, NamesOwn, Sorted;
    forall x | x in Dedup(sorted)
      ensures x in heard || x in OwnEntries(devices)
    {
      assert x in multiset(sorted);
      assert x in multiset(heard + OwnEntries(devices));
    }
  }

  /** A rebuilt table is the best of what was heard and the router's own devices. */
  lemma UpdateIsBest(sorted: seq<RouteEntry>, heard: seq<RouteEntry>, devices: seq<Device>)
    requires IsSortOf(sorted, heard + OwnEntries(devices)) && devices != []
    ensures BestOf(Dedup(sorted), heard + OwnEntries(devices))
  {
    var entries := heard + OwnEntries(devices);
    assert OwnEntries(devices)[0] in entries;
    assert forall x :: x in sorted <==> x in multiset(sorted);
    assert forall x :: x in entries <==> x in multiset(entries);
    DedupIsBest(sorted);
  }
}
