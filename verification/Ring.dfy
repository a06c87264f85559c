/** The 64 KiB byte rings behind every socket (src/transport/mainthread.h), and the two-piece
    copies in and out of them. */
module Ring {
  import opened Words

  const RING_SIZE: nat := 0x1_0000

  type Bytes = s: seq<byte> | |s| == RING_SIZE witness seq(RING_SIZE, _ => 0)

  /** The `len` bytes at consecutive ring positions from `start`. */
  function Get(r: Bytes, start: u16, len: nat): (data: seq<byte>)
    ensures |data| == len
  {
    seq(len, i requires 0 <= i < len => r[U16(start + i)])
  }

  /** The ring after `data` was written at consecutive positions from `start`. */
  function Put(r: Bytes, start: u16, data: seq<byte>): (r': Bytes)
    ensures forall i :: 0 <= i < RING_SIZE ==> r'[i] == PutAt(r, start, data, i)
  {
    seq(RING_SIZE, i requires 0 <= i < RING_SIZE => PutAt(r, start, data, i))
  }

  function PutAt(r: Bytes, start: u16, data: seq<byte>, i: nat): byte
    requires i < RING_SIZE
  {
    var offset := U16(i - start);
    if offset < |data| then data[offset] else r[i]
  }

  /** The ring holds positions lo..hi of an unbounded stream, each at its low 16 bits. */
  ghost predicate Holds(r: Bytes, stream: seq<byte>, lo: nat, hi: nat) {
    && lo <= hi <= |stream|
    && forall i :: lo <= i < hi ==> r[U16(i)] == stream[i]
  }

  /** What is read back from live positions is the stream, wherever the ring wraps. */
  lemma GetReads(r: Bytes, stream: seq<byte>, lo: nat, hi: nat, from: nat, len: nat)
    requires Holds(r, stream, lo, hi)
    requires lo <= from && from + len <= hi
    ensures Get(r, U16(from), len) == stream[from..from + len]
  {
    forall i | 0 <= i < len
      ensures Get(r, U16(from), len)[i] == stream[from + i]
    {
      U16OfSum(from, i);
    }
  }

  /** Writing behind the live positions extends the stream and disturbs no live byte. */
  lemma PutExtends(r: Bytes, stream: seq<byte>, lo: nat, data: seq<byte>)
    requires Holds(r, stream, lo, |stream|)
    requires |stream| + |data| - lo <= RING_SIZE
    ensures Holds(Put(r, U16(|stream|), data), stream + data, lo, |stream + data|)
  {
    var hi := |stream|;
    var r' := Put(r, U16(hi), data);
    forall i | lo <= i < hi + |data|
      ensures r'[U16(i)] == (stream + data)[i]
    {
      U16OfSum(i, 0 - U16(hi) as int);
      U16OfDifference(hi, i);
      if i < hi {
        assert U16(i - hi) == i - hi + RING_SIZE;
      } else {
        assert U16(i - hi) == i - hi;
      }
    }
  }

  lemma HoldsLess(r: Bytes, stream: seq<byte>, lo: nat, hi: nat, lo': nat)
    requires Holds(r, stream, lo, hi) && lo <= lo' <= hi
    ensures Holds(r, stream, lo', hi)
  {
  }

  /** The two-piece copy reads consecutive positions. */
  lemma GetPieces(r: Bytes, start: u16, len: nat)
    requires len < RING_SIZE
    ensures Get(r, start, len) == if start + len <= RING_SIZE then r[start..start + len]
                                  else r[start..] + r[..start + len - RING_SIZE]
  {
    var pieces := if start + len <= RING_SIZE then r[start..start + len]
                  else r[start..] + r[..start + len - RING_SIZE];
    forall i | 0 <= i < len
      ensures Get(r, start, len)[i] == pieces[i]
    {
      assert U16(start + i) == if start + i < RING_SIZE then start + i else start + i - RING_SIZE;
    }
  }

  /** memcpy into part of an array. */
  method CopyTo(dst: array<byte>, at: nat, data: seq<byte>)
    requires at + |data| <= dst.Length
    modifies dst
    ensures dst[..] == old(dst[..at]) + data + old(dst[at + |data|..])
  {
    for i := 0 to |data|
      invariant dst[..at] == old(dst[..at])
      invariant dst[at..at + i] == data[..i]
      invariant dst[at + i..] == old(dst[at + i..])
    {
      dst[at + i] := data[i];
      assert dst[at..at + i + 1] == dst[at..at + i] + [dst[at + i]];
    }
    assert dst[..] == dst[..at] + dst[at..at + |data|] + dst[at + |data|..];
  }

  /** The copy of writeLab and of the receive handler: one piece, or two when the ring wraps. */
  method CopyIn(ring: array<byte>, start: u16, data: seq<byte>)
    requires ring.Length == RING_SIZE && |data| < RING_SIZE
    modifies ring
    ensures ring[..] == Put(old(ring[..]), start, data)
  {
    if start + |data| <= RING_SIZE {
      CopyTo(ring, start, data);
    } else {
      var len1 := RING_SIZE - start;
      CopyTo(ring, start, data[..len1]);
      CopyTo(ring, 0, data[len1..]);
    }
    ghost var was: Bytes := old(ring[..]);
    forall i | 0 <= i < RING_SIZE
      ensures ring[i] == PutAt(was, start, data, i)
    {
      if i >= start {
        assert U16(i - start) == i - start;
      } else {
        assert U16(i - start) == i - start + RING_SIZE;
      }
    }
  }

  /** The copy of readLab: the caller's buffer receives `len` ring bytes and keeps its rest. */
  method CopyOut(ring: array<byte>, start: u16, len: u16, buf: array<byte>)
    requires ring.Length == RING_SIZE && ring != buf && len <= buf.Length
    modifies buf
    ensures buf[..len] == Get(ring[..], start, len)
    ensures buf[len..] == old(buf[len..])
  {
    GetPieces(ring[..], start, len);
    if start + len <= RING_SIZE {
      CopyTo(buf, 0, ring[start..start + len]);
    } else {
      var len1 := RING_SIZE - start;
      CopyTo(buf, 0, ring[start..]);
      assert buf[..len1] == ring[start..];
      var len2 := len - len1;
      CopyTo(buf, len1, ring[..len2]);
      assert buf[..len] == ring[start..] + ring[..len2];
    }
  }

  /** The copy of asyncSendTCPPacket, whose second piece ends at `end`. */
  method CopySegment(ring: array<byte>, start: u16, end: u16) returns (data: seq<byte>)
    requires ring.Length == RING_SIZE
    ensures data == Get(ring[..], start, U16(end - start))
  {
    if end >= start {
      data := ring[start..end];
    } else {
      data := ring[start..] + ring[..end];
    }
    GetPieces(ring[..], start, U16(end - start));
  }
}
