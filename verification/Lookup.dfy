/** queryRouteTable: the choice of the matching entry with the numerically greatest mask, and why
    that is the longest prefix. */
module Lookup {
  import opened Words
  import opened RouteTable

  datatype Option<+T> = None | Some(value: T)

  /** Bitwise and. */
  function BitAnd(x: nat, y: nat): (r: nat)
    ensures r <= x && r <= y
  {
    if x == 0 || y == 0 then 0 else 2 * BitAnd(x / 2, y / 2) + (x % 2) * (y % 2)
  }

  function Pow2(k: nat): (r: nat)
    ensures r >= 1
  {
    if k == 0 then 1 else 2 * Pow2(k - 1)
  }

  lemma {:induction false} AndOnes(x: nat, k: nat)
    requires x < Pow2(k)
    ensures BitAnd(x, Pow2(k) - 1) == x
  {
    if k > 0 && x > 0 {
      AndOnes(x / 2, k - 1);
      assert (Pow2(k) - 1) / 2 == Pow2(k - 1) - 1;
    }
  }

  lemma AndHostMask(ip: u32)
    ensures BitAnd(ip, HOST_MASK) == ip
  {
    hide BitAnd;
    Pow2Values();
    AndOnes(ip, 32);
  }

  lemma Pow2Values()
    ensures Pow2(8) == 0x100 && Pow2(16) == 0x1_0000 && Pow2(32) == 0x1_0000_0000
  {
    assert Pow2(4) == 16;
    hide Pow2;
    Pow2Sum(4, 4);
    assert Pow2(8) == 0x100;
    Pow2Sum(8, 8);
    assert Pow2(16) == 0x1_0000;
    Pow2Sum(16, 16);
  }

  lemma {:induction false} Pow2Sum(a: nat, b: nat)
    ensures Pow2(a + b) == Pow2(a) * Pow2(b)
  {
    if b > 0 {
      Pow2Sum(a, b - 1);
      assert Pow2(a + b) == 2 * Pow2(a + (b - 1));
    }
  }

  /** The entry covers the address. */
  predicate Hit(e: RouteEntry, ip: u32) {
    e.ip == BitAnd(ip, e.mask)
  }

  function MaskOf(r: Option<RouteEntry>): u32 {
    match r
    case None => 0
    case Some(e) => e.mask
  }

  /** One loop of queryRouteTable, as a function of what it has scanned. */
  function Scan(table: seq<RouteEntry>, ip: u32): Option<RouteEntry> {
    if table == [] then None
    else
      var r, e := Scan(Init(table), ip), Last(table);
      if Hit(e, ip) && MaskOf(r) < e.mask then Some(e) else r
  }

  /** queryRouteTable: the online table is consulted when no manual entry matches. */
  function Query(manual: seq<RouteEntry>, online: seq<RouteEntry>, ip: u32): Option<RouteEntry> {
    var r := Scan(manual, ip);
    if r.Some? then r else Scan(online, ip)
  }

  /** `r` is a matching entry of greatest mask; none is chosen only when none matches with a
      non-zero mask. */
  ghost predicate GreatestMask(table: seq<RouteEntry>, ip: u32, r: Option<RouteEntry>) {
    match r
    case None => forall y :: y in table && Hit(y, ip) ==> y.mask == 0
    case Some(e) =>
      && e in table && Hit(e, ip) && e.mask > 0
      && forall y :: y in table && Hit(y, ip) ==> y.mask <= e.mask
  }

  lemma {:induction false} ScanIsGreatest(table: seq<RouteEntry>, ip: u32)
    ensures GreatestMask(table, ip, Scan(table, ip))
  {
    if table != [] {
      ScanIsGreatest(Init(table), ip);
      assert table == Init(table) + [Last(table)];
    }
  }

  /** Entry `i` is the one a search must choose: it matches, entries before it have smaller masks and
      entries behind it no greater ones, as far as they match. */
  ghost predicate FirstOfGreatest(table: seq<RouteEntry>, ip: u32, i: nat) {
    && i < |table| && Hit(table[i], ip) && table[i].mask > 0
    && (forall j :: 0 <= j < i && Hit(table[j], ip) ==> table[j].mask < table[i].mask)
    && (forall j :: i < j < |table| && Hit(table[j], ip) ==> table[j].mask <= table[i].mask)
  }

  /** Among matching entries of equal mask the search keeps the first. */
  lemma {:induction false} ScanKeepsFirst(table: seq<RouteEntry>, ip: u32) returns (i: nat)
    requires Scan(table, ip).Some?
    ensures FirstOfGreatest(table, ip, i) && Scan(table, ip) == Some(table[i])
  {
    hide Hit;
    ScanIsGreatest(Init(table), ip);
    var r := Scan(Init(table), ip);
    if !(Hit(Last(table), ip) && MaskOf(r) < Last(table).mask) {
      i := ScanKeepsFirst(Init(table), ip);
    } else {
      i := |table| - 1;
      forall j | 0 <= j < i && Hit(table[j], ip)
        ensures table[j].mask < table[i].mask
      {
        assert Init(table)[j] == table[j];
      }
    }
  }

  /** The entry to choose is unique, so this pins the search down. */
  lemma FirstOfGreatestIsUnique(table: seq<RouteEntry>, ip: u32, i: nat, j: nat)
    requires FirstOfGreatest(table, ip, i) && FirstOfGreatest(table, ip, j)
    ensures i == j
  {
    hide Hit;
  }

  // ----- bits -----

  /** Bit `n` of a number, counted from the least significant. */
  function Bit(x: nat, n: nat): nat {
    if n == 0 then x % 2 else Bit(x / 2, n - 1)
  }

  lemma {:induction false} BitOfAnd(x: nat, y: nat, n: nat)
    ensures Bit(BitAnd(x, y), n) == Bit(x, n) * Bit(y, n)
  {
    if x == 0 || y == 0 {
      BitOfZero(n);
    } else {
      assert BitAnd(x, y) / 2 == BitAnd(x / 2, y / 2) && BitAnd(x, y) % 2 == (x % 2) * (y % 2);
      if n > 0 { BitOfAnd(x / 2, y / 2, n - 1); }
    }
  }

  lemma {:induction false} BitOfZero(n: nat)
    ensures Bit(0, n) == 0
  {
    if n > 0 { BitOfZero(n - 1); }
  }

  lemma {:induction false} SameBitsSame(x: nat, y: nat, width: nat)
    requires x < Pow2(width) && y < Pow2(width)
    requires forall n: nat :: n < width ==> Bit(x, n) == Bit(y, n)
    ensures x == y
  {
    if width > 0 {
      forall n: nat | n < width - 1
        ensures Bit(x / 2, n) == Bit(y / 2, n)
      {
        assert Bit(x, n + 1) == Bit(y, n + 1);
      }
      SameBitsSame(x / 2, y / 2, width - 1);
      assert Bit(x, 0) == Bit(y, 0);
    }
  }

  /** Bits below and above a split. */
  lemma {:induction false} BitOfSplit(low: nat, high: nat, width: nat, n: nat)
    requires low < Pow2(width)
    ensures Bit(low + Pow2(width) * high, n) == if n < width then Bit(low, n) else Bit(high, n - width)
    decreases width
  {
    if width > 0 {
      var rest := Pow2(width - 1) * high;
      assert low + Pow2(width) * high == low + 2 * rest;
      assert (low + 2 * rest) % 2 == low % 2 && (low + 2 * rest) / 2 == low / 2 + rest;
      if n > 0 { BitOfSplit(low / 2, high, width - 1, n - 1); }
    }
  }

  // ----- masks in network order, loaded little-endian -----

  /** The low `bits` (at most 8) high-order bits of a byte set. */
  function HighBits(bits: nat): int
    requires bits <= 8
  {
    0x100 - Pow2(8 - bits)
  }

  /** The contiguous mask of a prefix length, as four network-order bytes read by a little-endian
      load: its first byte is the least significant. */
  function PrefixMask(length: nat): int
    requires length <= 32
  {
    if length <= 8 then HighBits(length)
    else if length <= 16 then 0xff + 0x100 * HighBits(length - 8)
    else if length <= 24 then 0xffff + 0x1_0000 * HighBits(length - 16)
    else 0xff_ffff + 0x100_0000 * HighBits(length - 24)
  }

  lemma HighBitsGrow(bits: nat)
    requires bits < 8
    ensures 0 <= HighBits(bits) < HighBits(bits + 1) <= 0xff
  {
    assert Pow2(8) == 0x100;
    Pow2Sum(8 - bits, bits);
    assert Pow2(8 - bits) == 2 * Pow2(8 - (bits + 1));
    assert Pow2(8 - bits) <= 0x100;
  }

  lemma HighBitsEnds()
    ensures HighBits(0) == 0 && HighBits(8) == 0xff
  {
    assert Pow2(8) == 0x100;
  }

  lemma PrefixMaskStep(p: nat)
    requires p < 32
    ensures PrefixMask(p) < PrefixMask(p + 1)
  {
    HighBitsEnds();
    HighBitsGrow(if p < 8 then p else if p < 16 then p - 8 else if p < 24 then p - 16 else p - 24);
    HighBitsGrow(0);
    hide HighBits;
  }

  lemma {:induction false} PrefixMaskGrows(p: nat, q: nat)
    requires p <= q <= 32
    ensures PrefixMask(p) <= PrefixMask(q)
    ensures p < q ==> PrefixMask(p) < PrefixMask(q)
  {
    if p < q {
      hide PrefixMask;
      PrefixMaskGrows(p, q - 1);
      PrefixMaskStep(q - 1);
    }
  }

  /** On contiguous masks the numeric order of the loaded words is the order of prefix lengths. */
  lemma MaskOrderIsPrefixOrder(p: nat, q: nat)
    requires p <= 32 && q <= 32
    ensures PrefixMask(p) <= PrefixMask(q) <==> p <= q
    ensures PrefixMask(p) == 0 <==> p == 0
    ensures PrefixMask(32) == HOST_MASK
  {
    HighBitsEnds();
    assert PrefixMask(0) == 0 && PrefixMask(32) == HOST_MASK;
    hide PrefixMask;
    if p <= q { PrefixMaskGrows(p, q); } else { PrefixMaskGrows(q, p); }
    PrefixMaskGrows(0, p);
  }

  // ----- what a match means -----

  /** Where bit `k` of an address, counted from its first, is in the loaded word: the mapping is its
      own inverse. */
  function LoadedAt(k: nat): (n: nat)
    requires k < 32
    ensures n < 32 && 8 * (n / 8) + 7 - n % 8 == k
  {
    8 * (k / 8) + 7 - k % 8
  }

  /** Bit `k` of an address in network order. */
  function NetBit(x: u32, k: nat): nat
    requires k < 32
  {
    Bit(x, LoadedAt(k))
  }

  lemma {:induction false} BitOfOnes(b: nat, n: nat)
    ensures Bit(Pow2(b) - 1, n) == if n < b then 1 else 0
  {
    if b == 0 {
      BitOfZero(n);
    } else {
      assert (Pow2(b) - 1) % 2 == 1 && (Pow2(b) - 1) / 2 == Pow2(b - 1) - 1;
      if n > 0 { BitOfOnes(b - 1, n - 1); }
    }
  }

  lemma HighBitsAre(bits: nat)
    requires bits <= 8
    ensures 0 <= HighBits(bits) < 0x100 && HighBits(bits) == Pow2(8 - bits) * (Pow2(bits) - 1)
  {
    hide Pow2;
    Pow2Values();
    Pow2Sum(8 - bits, bits);
    Factors(Pow2(8 - bits), Pow2(bits));
  }

  lemma Factors(p: nat, q: nat)
    requires p * q == 0x100 && p >= 1 && q >= 1
    ensures p * (q - 1) == 0x100 - p && p <= 0x100
  {
    assert p * (q - 1) >= 0;
  }

  lemma BitOfHighBits(bits: nat, m: nat)
    requires bits <= 8 && m < 8
    ensures 0 <= HighBits(bits) < 0x100 && Bit(HighBits(bits), 7 - m) == if m < bits then 1 else 0
  {
    HighBitsAre(bits);
    hide Pow2, Bit, HighBits;
    BitOfSplit(0, Pow2(bits) - 1, 8 - bits, 7 - m);
    BitOfZero(7 - m);
    if m < bits { BitOfOnes(bits, bits - 1 - m); }
  }

  /** Byte `j` of the mask of a prefix length. */
  function MaskByte(length: nat, j: nat): int {
    HighBits(if length <= 8 * j then 0 else if length >= 8 * j + 8 then 8 else length - 8 * j)
  }

  lemma MaskOfBytes(length: nat)
    requires length <= 32
    ensures forall j: nat :: j < 4 ==> 0 <= MaskByte(length, j) < 0x100
    ensures PrefixMask(length) == MaskByte(length, 0) + 0x100 * MaskByte(length, 1)
                                  + 0x1_0000 * MaskByte(length, 2) + 0x100_0000 * MaskByte(length, 3)
  {
    HighBitsEnds();
    forall j: nat | j < 4
      ensures 0 <= MaskByte(length, j) < 0x100
    {
      BitOfHighBits(if length <= 8 * j then 0 else if length >= 8 * j + 8 then 8 else length - 8 * j, 0);
    }
    hide HighBits;
  }

  /** Bit `r` of byte `j` of a word. */
  lemma BitOfBytes(b: seq<nat>, j: nat, r: nat)
    requires |b| == 4 && j < 4 && r < 8 && forall i :: 0 <= i < 4 ==> b[i] < 0x100
    ensures Bit(b[0] + 0x100 * b[1] + 0x1_0000 * b[2] + 0x100_0000 * b[3], 8 * j + r) == Bit(b[j], r)
  {
    Pow2Values();
    hide Pow2, Bit;
    var n := 8 * j + r;
    BitOfSplit(b[0], b[1] + 0x100 * (b[2] + 0x100 * b[3]), 8, n);
    if j >= 1 { BitOfSplit(b[1], b[2] + 0x100 * b[3], 8, n - 8); }
    if j >= 2 { BitOfSplit(b[2], b[3], 8, n - 16); }
  }

  lemma MaskByteBit(length: nat, j: nat, m: nat)
    requires m < 8
    ensures 0 <= MaskByte(length, j) < 0x100
    ensures Bit(MaskByte(length, j), 7 - m) == if 8 * j + m < length then 1 else 0
  {
    hide HighBits, Bit;
    BitOfHighBits(if length <= 8 * j then 0 else if length >= 8 * j + 8 then 8 else length - 8 * j, m);
  }

  lemma MaskBit(length: nat, j: nat, m: nat)
    requires length <= 32 && j < 4 && m < 8
    ensures 0 <= PrefixMask(length) < 0x1_0000_0000
    ensures Bit(PrefixMask(length), 8 * j + (7 - m)) == if 8 * j + m < length then 1 else 0
  {
    MaskOfBytes(length);
    hide PrefixMask, MaskByte, Bit;
    BitOfBytes([MaskByte(length, 0), MaskByte(length, 1), MaskByte(length, 2), MaskByte(length, 3)], j, 7 - m);
    MaskByteBit(length, j, m);
  }

  /** The mask of a prefix length has exactly that many leading bits, in network order. */
  lemma PrefixMaskBits(length: nat, k: nat)
    requires length <= 32 && k < 32
    ensures 0 <= PrefixMask(length) < 0x1_0000_0000
    ensures NetBit(PrefixMask(length), k) == if k < length then 1 else 0
  {
    hide PrefixMask, Bit;
    MaskBit(length, k / 8, k % 8);
    assert LoadedAt(k) == 8 * (k / 8) + (7 - k % 8) && k == 8 * (k / 8) + k % 8;
  }

  lemma NetBitOfAnd(x: u32, y: u32, k: nat)
    requires k < 32
    ensures NetBit(BitAnd(x, y), k) == NetBit(x, k) * NetBit(y, k)
  {
    hide Bit, BitAnd, LoadedAt;
    BitOfAnd(x, y, LoadedAt(k));
  }

  /** An entry with the mask of a prefix length matches an address exactly if its leading bits are the
      leading bits of the address, in network order, and its other bits are clear. */
  lemma HitIsPrefix(e: RouteEntry, length: nat, ip: u32)
    requires length <= 32 && e.mask == PrefixMask(length)
    ensures Hit(e, ip) <==> forall k: nat :: k < 32 ==> NetBit(e.ip, k) == if k < length then NetBit(ip, k) else 0
  {
    hide PrefixMask, BitAnd, NetBit;
    forall k: nat | k < 32
      ensures NetBit(BitAnd(ip, e.mask), k) == if k < length then NetBit(ip, k) else 0
    {
      PrefixMaskBits(length, k);
      NetBitOfAnd(ip, e.mask, k);
    }
    if forall k: nat :: k < 32 ==> NetBit(e.ip, k) == if k < length then NetBit(ip, k) else 0 {
      SameNetBits(e.ip, BitAnd(ip, e.mask));
    }
  }

  lemma SameNetBits(x: u32, y: u32)
    requires forall k: nat :: k < 32 ==> NetBit(x, k) == NetBit(y, k)
    ensures x == y
  {
    hide Bit;
    forall n: nat | n < 32
      ensures Bit(x, n) == Bit(y, n)
    {
      assert NetBit(x, LoadedAt(n)) == NetBit(y, LoadedAt(n));
      assert LoadedAt(LoadedAt(n)) == n;
    }
    hide LoadedAt, Pow2;
    Pow2Values();
    SameBitsSame(x, y, 32);
  }

  /** Every mask of the table is the mask of its prefix length. */
  ghost predicate Contiguous(table: seq<RouteEntry>, length: RouteEntry -> nat) {
    forall e :: e in table ==> length(e) <= 32 && e.mask == PrefixMask(length(e))
  }

  /** queryRouteTable is longest-prefix match, manual entries first: a matching manual entry of
      greatest prefix length if one matches, otherwise a matching online entry of greatest prefix
      length. An entry of length 0, a default route, is never chosen. */
  lemma QueryIsLongestPrefix(manual: seq<RouteEntry>, online: seq<RouteEntry>, length: RouteEntry -> nat, ip: u32)
    requires Contiguous(manual, length) && Contiguous(online, length)
    ensures var r := Query(manual, online, ip);
      var table := if exists y :: y in manual && Hit(y, ip) && length(y) > 0 then manual else online;
      match r
      case None => forall y :: y in table && Hit(y, ip) ==> length(y) == 0
      case Some(e) =>
        && e in table && Hit(e, ip) && length(e) > 0
        && forall y :: y in table && Hit(y, ip) ==> length(y) <= length(e)
  {
    ScanIsGreatest(manual, ip);
    ScanIsGreatest(online, ip);
    hide Hit, PrefixMask;
    var r := Query(manual, online, ip);
    forall y | y in manual + online
      ensures length(y) <= 32 && (y.mask == 0 <==> length(y) == 0)
      ensures r.Some? && (r.value in manual || r.value in online) ==>
                (y.mask <= r.value.mask <==> length(y) <= length(r.value))
    {
      MaskOrderIsPrefixOrder(length(y), length(y));
      if r.Some? && (r.value in manual || r.value in online) {
        MaskOrderIsPrefixOrder(length(y), length(r.value));
      }
    }
    assert forall y :: y in manual || y in online ==> y in manual + online;
  }

  /** In a deduplicated table the longest match is unique. */
  lemma LongestIsUnique(table: seq<RouteEntry>, ip: u32, x: RouteEntry, y: RouteEntry)
    requires StrictlySorted(table) && x in table && y in table
    requires Hit(x, ip) && Hit(y, ip) && x.mask == y.mask
    ensures x == y
  {
    SameKeySame(table, x, y);
  }

  /** In a deduplicated table whose entries are all host routes, the lookup finds the entry of the
      address, and only that. */
  lemma HostLookup(table: seq<RouteEntry>, ip: u32)
    requires StrictlySorted(table) && forall e :: e in table ==> e.mask == HOST_MASK
    ensures match Scan(table, ip)
      case None => forall e :: e in table ==> e.ip != ip
      case Some(e) => e in table && e.ip == ip
  {
    ScanIsGreatest(table, ip);
    AndHostMask(ip);
  }
}
