/** The IPv4 header checksum (src/network/ipheader.c), against one's-complement addition as
    section 3.1 of RFC 791 and section 2 of RFC 1071 define it. */
module Checksum {
  import opened Words

  const HEADER_WORDS: nat := 10

  type HeaderWords = s: seq<u16> | |s| == HEADER_WORDS witness [0, 0, 0, 0, 0, 0, 0, 0, 0, 0]

  function Sum(s: seq<u16>): nat {
    if s == [] then 0 else Sum(s[..|s| - 1]) + s[|s| - 1]
  }

  /** One fold of the carries. */
  function Fold(x: nat): nat {
    x % 0x1_0000 + x / 0x1_0000
  }

  /** calcCheck. */
  method CalcCheck(p: HeaderWords) returns (r: u16)
    ensures r == Complement(OnesSum(p))
  {
    var check: nat := 0;
    for i := 0 to HEADER_WORDS
      invariant check == Sum(p[..i])
    {
      check := check + p[i];
      assert p[..i + 1][..i] == p[..i];
    }
    assert p[..HEADER_WORDS] == p;
    SumBound(p);
    FoldsAreOnesSum(p);
    check := check % 0x1_0000 + check / 0x1_0000;
    check := check % 0x1_0000 + check / 0x1_0000;
    r := U16(-1 - check);
  }

  /** One's-complement negation of a word. */
  function Complement(x: u16): u16 {
    0xffff - x
  }

  /** One's-complement addition: the carry out of the top bit goes back in at the bottom. */
  function OnesAdd(a: u16, b: u16): u16 {
    if a + b > 0xffff then a + b - 0xffff else a + b
  }

  function OnesSum(s: seq<u16>): u16 {
    if s == [] then 0 else OnesAdd(OnesSum(s[..|s| - 1]), s[|s| - 1])
  }

  // ----- one's-complement sums and remainders modulo 65535 -----

  lemma {:induction false} SumBound(s: seq<u16>)
    ensures Sum(s) <= |s| * 0xffff
  {
    if s != [] {
      SumBound(s[..|s| - 1]);
    }
  }

  /** The sum's class modulo 65535, with 65535 standing for zero unless every word is zero. */
  lemma {:induction false} OnesSumResidue(s: seq<u16>)
    ensures exists q: nat :: Sum(s) == OnesSum(s) + 0xffff * q
    ensures OnesSum(s) == 0 <==> Sum(s) == 0
  {
    if s == [] {
      assert Sum(s) == OnesSum(s) + 0xffff * 0;
    } else {
      var t := s[..|s| - 1];
      OnesSumResidue(t);
      var q: nat :| Sum(t) == OnesSum(t) + 0xffff * q;
      var q' := if OnesSum(t) + s[|s| - 1] > 0xffff then q + 1 else q;
      assert Sum(s) == OnesSum(s) + 0xffff * q';
    }
  }

  /** A word is determined by its class and by being zero or not. */
  lemma ResidueUnique(x: u16, y: u16, q: int)
    requires x == y + 0xffff * q && (x == 0 <==> y == 0)
    ensures x == y
  {
  }

  /** Two folds always suffice for ten words. */
  lemma TwoFolds(x: nat)
    requires x <= HEADER_WORDS * 0xffff
    ensures Fold(Fold(x)) <= 0xffff
    ensures Fold(Fold(x)) == 0 <==> x == 0
    ensures x == Fold(Fold(x)) + 0xffff * (x / 0x1_0000 + Fold(x) / 0x1_0000)
  {
    assert Fold(x) <= 0xffff + 9;
  }

  lemma FoldsAreOnesSum(s: HeaderWords)
    ensures Fold(Fold(Sum(s))) == OnesSum(s)
  {
    SumBound(s);
    OnesSumResidue(s);
    var x := Sum(s);
    TwoFolds(x);
    var q: nat :| x == OnesSum(s) + 0xffff * q;
    ResidueUnique(OnesSum(s), Fold(Fold(x)), x / 0x1_0000 + Fold(x) / 0x1_0000 - q);
  }

  // ----- what a receiver checks -----

  lemma {:induction false} SumUpdate(s: seq<u16>, i: nat, w: u16)
    requires i < |s| && s[i] == 0
    ensures Sum(s[i := w]) == Sum(s) + w
  {
    var n := |s| - 1;
    if i == n {
      assert s[i := w][..n] == s[..n];
    } else {
      assert s[i := w][..n] == s[..n][i := w];
      SumUpdate(s[..n], i, w);
    }
  }

  /** A header that carries its checksum sums to all ones. */
  lemma CheckedHeaderSums(s: HeaderWords)
    requires s[5] == 0
    ensures OnesSum(s[5 := Complement(OnesSum(s))]) == 0xffff
  {
    var c := Complement(OnesSum(s));
    var s' := s[5 := c];
    SumUpdate(s, 5, c);
    OnesSumResidue(s);
    OnesSumResidue(s');
    var q: nat :| Sum(s) == OnesSum(s) + 0xffff * q;
    var q': nat :| Sum(s') == OnesSum(s') + 0xffff * q';
    ResidueUnique(OnesSum(s'), 0xffff, q - q');
  }

  // ----- byte order -----

  function Swap(w: u16): u16 {
    w % 0x100 * 0x100 + w / 0x100
  }

  function SwapAll(s: seq<u16>): (r: seq<u16>)
    ensures |r| == |s|
  {
    seq(|s|, i requires 0 <= i < |s| => Swap(s[i]))
  }

  /** Swapping the bytes of a word multiplies its class by 256. */
  lemma SwapResidue(w: u16)
    ensures 0x100 * w == Swap(w) + 0xffff * (w / 0x100)
    ensures Swap(w) == 0 <==> w == 0
  {
  }

  lemma {:induction false} SwapAllSum(s: seq<u16>)
    ensures exists q: nat :: 0x100 * Sum(s) == Sum(SwapAll(s)) + 0xffff * q
    ensures Sum(SwapAll(s)) == 0 <==> Sum(s) == 0
  {
    if s == [] {
      assert 0x100 * Sum(s) == Sum(SwapAll(s)) + 0xffff * 0;
    } else {
      var t, w := s[..|s| - 1], s[|s| - 1];
      SwapAllSum(t);
      assert SwapAll(s)[..|s| - 1] == SwapAll(t);
      SwapResidue(w);
      var q: nat :| 0x100 * Sum(t) == Sum(SwapAll(t)) + 0xffff * q;
      assert 0x100 * Sum(s) == Sum(SwapAll(s)) + 0xffff * (q + w / 0x100);
    }
  }

  lemma SwapOfComplement(x: u16)
    ensures Swap(Complement(x)) == Complement(Swap(x))
  {
    var high, low := x / 0x100, x % 0x100;
    assert Complement(x) == (0xff - high) * 0x100 + (0xff - low);
    assert Complement(x) / 0x100 == 0xff - high && Complement(x) % 0x100 == 0xff - low;
  }

  lemma SwapOfSum(s: seq<u16>)
    ensures OnesSum(SwapAll(s)) == Swap(OnesSum(s))
  {
    SwapAllSum(s);
    OnesSumResidue(s);
    OnesSumResidue(SwapAll(s));
    var x, y := OnesSum(s), OnesSum(SwapAll(s));
    var q: nat :| 0x100 * Sum(s) == Sum(SwapAll(s)) + 0xffff * q;
    var a: nat :| Sum(s) == x + 0xffff * a;
    var b: nat :| Sum(SwapAll(s)) == y + 0xffff * b;
    SwapResidue(x);
    hide Sum, OnesSum, Swap;
    ResidueUnique(y, Swap(x), x / 0x100 + 0x100 * a - q - b);
  }

  /** The checksum does not depend on the byte order words are loaded in: computing it on swapped
      words gives the swapped checksum. */
  lemma CheckCommutesWithSwap(s: seq<u16>)
    ensures Complement(OnesSum(SwapAll(s))) == Swap(Complement(OnesSum(s)))
  {
    SwapOfSum(s);
    SwapOfComplement(OnesSum(s));
    hide OnesSum;
  }

  // ----- headers -----

  datatype IpHeader = IpHeader(verHdrlen: byte, service: byte, len: u16, id: u16, flagOffset: u16,
                               ttl: byte, protocol: byte, check: u16, src: u32, dst: u32)

  function LowByte(w: u16): byte {
    w % 0x100
  }

  function HighByte(w: u16): byte {
    w / 0x100
  }

  /** A 16-bit field in memory. */
  function HalfBytes(w: u16): seq<byte> {
    [LowByte(w), HighByte(w)]
  }

  /** A 32-bit field in memory. */
  function WordBytes(x: u32): seq<byte> {
    [x % 0x100, x / 0x100 % 0x100, x / 0x1_0000 % 0x100, x / 0x100_0000]
  }

  /** The header's twenty bytes in memory and on the wire, field by field. Fields of several bytes
      hold network order already, and are stored as they are. */
  function HeaderBytes(h: IpHeader): seq<byte> {
    [h.verHdrlen, h.service] + HalfBytes(h.len) + HalfBytes(h.id) + HalfBytes(h.flagOffset)
    + [h.ttl, h.protocol] + HalfBytes(h.check) + WordBytes(h.src) + WordBytes(h.dst)
  }

  function Join(low: byte, high: byte): u16 {
    low + 0x100 * high
  }

  /** Twenty bytes as ten words the way a little-endian host loads them. */
  function LoadedWords(bytes: seq<byte>): HeaderWords
    requires |bytes| == 2 * HEADER_WORDS
  {
    seq(HEADER_WORDS, i requires 0 <= i < HEADER_WORDS => Join(bytes[2 * i], bytes[2 * i + 1]))
  }

  /** Twenty bytes as ten words in network order, as the standard sums them. */
  function NetworkWords(bytes: seq<byte>): HeaderWords
    requires |bytes| == 2 * HEADER_WORDS
  {
    seq(HEADER_WORDS, i requires 0 <= i < HEADER_WORDS => Join(bytes[2 * i + 1], bytes[2 * i]))
  }

  lemma HeaderSize(h: IpHeader)
    ensures |HeaderBytes(h)| == 2 * HEADER_WORDS
  {
  }

  /** The sum of the words in either order is all ones for the same headers. */
  lemma NetworkOrderSums(bytes: seq<byte>)
    requires |bytes| == 2 * HEADER_WORDS
    ensures OnesSum(NetworkWords(bytes)) == Swap(OnesSum(LoadedWords(bytes)))
  {
    assert NetworkWords(bytes) == SwapAll(LoadedWords(bytes)) by {
      forall i | 0 <= i < HEADER_WORDS
        ensures NetworkWords(bytes)[i] == Swap(LoadedWords(bytes)[i])
      {
        SwapOfBytes(bytes[2 * i], bytes[2 * i + 1]);
      }
    }
    SwapOfSum(LoadedWords(bytes));
  }

  lemma SwapOfBytes(low: byte, high: byte)
    ensures Swap(Join(low, high)) == Join(high, low)
  {
    assert Join(low, high) / 0x100 == high && Join(low, high) % 0x100 == low;
  }

  /** Storing the checksum changes the sixth loaded word only. */
  lemma CheckIsSixth(h: IpHeader, check: u16)
    ensures |HeaderBytes(h)| == |HeaderBytes(h.(check := check))| == 2 * HEADER_WORDS
    ensures LoadedWords(HeaderBytes(h.(check := check))) == LoadedWords(HeaderBytes(h))[5 := check]
    ensures LoadedWords(HeaderBytes(h))[5] == h.check
  {
    var bytes, bytes' := HeaderBytes(h), HeaderBytes(h.(check := check));
    assert bytes[10..12] == HalfBytes(h.check) && bytes'[10..12] == HalfBytes(check);
    forall i | 0 <= i < 2 * HEADER_WORDS && i != 10 && i != 11
      ensures bytes'[i] == bytes[i]
    {
    }
  }

  /** createIpHeader. The fragment arguments of the C function are ignored there as here. On the wire,
      the header's twenty bytes, taken pairwise in network order, sum to all ones. */
  method CreateIpHeader(version: byte, len: u16, id: u16, ttl: byte, protocol: byte, src: u32, dst: u32)
    returns (h: IpHeader)
    ensures h == IpHeader(version % 16 * 16 + 5, 0, len, id, 0x40, ttl, protocol, h.check, src, dst)
    ensures |HeaderBytes(h)| == 2 * HEADER_WORDS && OnesSum(NetworkWords(HeaderBytes(h))) == 0xffff
  {
    h := IpHeader(version % 16 * 16 + 5, 0, len, id, 0x40, ttl, protocol, 0, src, dst);
    HeaderSize(h);
    var words := LoadedWords(HeaderBytes(h));
    var check := CalcCheck(words);
    CheckIsSixth(h, check);
    CheckedHeaderSums(words);
    h := h.(check := check);
    NetworkOrderSums(HeaderBytes(h));
  }
}
