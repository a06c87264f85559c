/** What holds between two endpoints in every reachable state of module Protocol. `Direction` is
    about one stream: the sender's half `tx`, the receiver's half `rx`, the channel `fwd` that
    carries the stream's segments and the channel `back` that carries its acknowledgements. */
module Invariant {
  import opened Tcp
  import opened Protocol

  predicate IsData(p: Segment) {
    p.ctrl == CT_NONE
  }

  predicate IsFin(p: Segment) {
    p.ctrl == CT_FIN
  }

  predicate IsAck(p: Segment) {
    p.ctrl == CT_ACK
  }

  /** A receiver one byte behind an acknowledgement: the ACK of the FIN was taken for the ACK of
      a one-byte segment committed after the FIN. */
  predicate Overtaken(tx: Tx, rx: Rx) {
    tx.finSent && rx.finRecv && |rx.received| == tx.finPos && tx.acked == |rx.received| + 1
  }

  /** The two halves of one stream. At most one segment is outstanding, and the receiver has all
      of it or nothing of it. */
  predicate Core(tx: Tx, rx: Rx) {
    var got := |rx.received|;
    && tx.acked <= tx.sent <= |tx.committed|
    && tx.sent <= tx.acked + MAX_TCP_LEN
    && |tx.committed| <= tx.acked + LAP
    && tx.sent <= tx.front <= tx.sent + LAP
    && rx.read <= got <= rx.read + LAP
    && got <= tx.sent
    && rx.received == tx.committed[..got]
    && (got == tx.acked || got == tx.sent || Overtaken(tx, rx))
    && (tx.finSent ==> tx.finPos <= tx.acked && tx.finPos <= got)
    && (tx.finSent && !tx.ackRecv ==> tx.acked == tx.finPos)
    && (rx.finRecv ==> tx.finSent)
    && tx.front <= rx.read + LAP + 1
    && (!Late(tx) ==> tx.front <= rx.read + LAP)
  }

  /** A segment in flight carries its bytes of the stream: the outstanding segment, an old copy
      of an acknowledged one, or an empty probe. */
  predicate DataOk(tx: Tx, got: nat, p: Segment) {
    && 0 <= p.seqPos <= tx.acked
    && p.seqPos + |p.data| <= tx.sent <= |tx.committed|
    && p.data == tx.committed[p.seqPos..p.seqPos + |p.data|]
    && (|p.data| > 0 ==>
          p.seqPos + |p.data| <= tx.acked || (p.seqPos == tx.acked && p.seqPos + |p.data| == tx.sent))
    && got <= p.seqPos + MAX_TCP_LEN
  }

  /** FIFO order of a data segment `p` and a packet `q` behind it. */
  predicate InOrder(tx: Tx, p: Segment, q: Segment) {
    && (IsData(q) ==> p.seqPos <= q.seqPos)
    && (IsFin(q) && |p.data| > 0 ==> p.seqPos + |p.data| <= tx.finPos)
  }

  ghost predicate Forward(tx: Tx, got: nat, ch: seq<Segment>) {
    && (forall i :: 0 <= i < |ch| && IsData(ch[i]) ==> DataOk(tx, got, ch[i]))
    && (forall i :: 0 <= i < |ch| && IsFin(ch[i]) ==> tx.finSent && got <= tx.finPos)
    && (forall i, j :: 0 <= i < j < |ch| && IsData(ch[i]) ==> InOrder(tx, ch[i], ch[j]))
  }

  /** An acknowledgement in flight: of a position the receiver has reached, or of the FIN. */
  predicate AckOk(tx: Tx, rx: Rx, p: Segment) {
    var got := |rx.received|;
    && 0 <= p.window <= LAP
    && tx.acked <= p.ackPos + 1
    && (p.ackPos <= got || (rx.finRecv && p.ackPos == tx.finPos + 1))
    && p.ackPos + p.window <= rx.read + LAP + 1
    && (!Late(tx) && p.ackPos <= got ==> p.ackPos + p.window <= rx.read + LAP)
  }

  ghost predicate Backward(tx: Tx, rx: Rx, ch: seq<Segment>) {
    && (forall i :: 0 <= i < |ch| && IsAck(ch[i]) ==> AckOk(tx, rx, ch[i]))
    && (forall i, j :: 0 <= i < j < |ch| && IsAck(ch[i]) && IsAck(ch[j]) ==> ch[i].ackPos <= ch[j].ackPos + 1)
  }

  ghost predicate FinInFlight(ch: seq<Segment>) {
    exists p :: p in ch && IsFin(p)
  }

  ghost predicate AckInFlight(ch: seq<Segment>) {
    exists p :: p in ch && IsAck(p)
  }

  ghost predicate AckOf(ch: seq<Segment>, pos: nat) {
    exists p :: p in ch && IsAck(p) && p.ackPos == pos
  }

  /** What is owed is in flight, as control packets are never lost; a closed sender is owed nothing. */
  ghost predicate Owed(tx: Tx, rx: Rx, fwd: seq<Segment>, back: seq<Segment>) {
    && (tx.finSent ==> rx.finRecv || FinInFlight(fwd))
    && (rx.finRecv ==> tx.ackRecv || AckInFlight(back))
    && (tx.conn && tx.acked < |rx.received| ==> AckOf(back, |rx.received|))
  }

  ghost predicate Direction(tx: Tx, rx: Rx, fwd: seq<Segment>, back: seq<Segment>) {
    && Core(tx, rx)
    && Forward(tx, |rx.received|, fwd)
    && Backward(tx, rx, back)
    && Owed(tx, rx, fwd, back)
  }

  /** Nothing was sent, received or closed here yet. */
  predicate Pristine(x: Peer) {
    x.tx == TX0 && x.rx == RX0
  }

  /** Data transfer has begun here. */
  predicate Open(x: Peer) {
    x.state == Established || (x.state == Closed && Bits(x).Complete())
  }

  predicate Endpoint(x: Peer) {
    && x.rx.ackSent == x.rx.finRecv
    && x.tx.conn == (x.state == Established)
    && (x.state != Established ==> Pristine(x) || (x.state == Closed && Bits(x).Complete()))
    && (x.state == Listen ==> Bits(x) == CL_ZERO && x.timer == 0.0)
    && (Bits(x).Complete() ==> x.state == Closed || x.call)
    && (x.tx.finSent && !x.rx.finRecv ==> x.call)
    && (x.tx.ackRecv ==> x.tx.finSent)
    && (!x.writer.WriteIdle? ==> Open(x))
    && (x.writer.WriteReady? ==> 0 < x.writer.count <= |x.writer.buf| && x.writer.count <= SendSpace(x.tx))
    && (x.reader.ReadReady? ==> 0 < x.reader.count <= RecvSpace(x.rx))
  }

  predicate KindOk(p: Segment) {
    && (p.ctrl == CT_NONE || p.ctrl == CT_ACK || p.ctrl == CT_FIN)
    && (|p.data| > 0 ==> p.ctrl == CT_NONE)
  }

  /** Only data, ACK and FIN packets. */
  ghost predicate Kinds(ch: seq<Segment>) {
    forall p :: p in ch ==> KindOk(p)
  }

  /** The part of the invariant that does not care which endpoint called connectLab. */
  ghost predicate Both(n: Net) {
    && Direction(n.a.tx, n.b.rx, n.ab, n.ba)
    && Direction(n.b.tx, n.a.rx, n.ba, n.ab)
    && Endpoint(n.a)
    && Endpoint(n.b)
  }

  const SYN := Segment(-1, 0, CT_SYN, LAP, [])
  const SYN_ACK := Segment(-1, 0, CT_SYN_ACK, LAP, [])
  const HANDSHAKE_ACK := Segment(0, 0, CT_ACK, LAP, [])

  /** How far the handshake is, for client `c` and server `s`. */
  ghost predicate Phase(c: Peer, s: Peer, cs: seq<Segment>, sc: seq<Segment>) {
    || (c.state == Closed && Pristine(c) && s.state == Listen && cs == [] && sc == [])
    || (c.state == SysSent && s.state == Listen && cs == [SYN] && sc == [])
    || (c.state == SysSent && s.state == SysRecv && cs == [] && sc == [SYN_ACK])
    || (c.state == Established && s.state == SysRecv && sc == [] && Kinds(cs)
        && |cs| > 0 && cs[0] == HANDSHAKE_ACK && c.tx.acked == 0 && c.rx == RX0)
    || (Open(c) && Open(s) && Kinds(cs) && Kinds(sc))
  }

  ghost predicate Inv(n: Net) {
    Both(n) && Phase(n.a, n.b, n.ab, n.ba)
  }

  // ----- one stream: what each event does to each part -----

  lemma ForwardTail(tx: Tx, got: nat, ch: seq<Segment>)
    requires Forward(tx, got, ch) && |ch| > 0
    ensures Forward(tx, got, ch[1..])
  {
  }

  lemma BackwardTail(tx: Tx, rx: Rx, ch: seq<Segment>)
    requires Backward(tx, rx, ch) && |ch| > 0
    ensures Backward(tx, rx, ch[1..])
  {
  }

  lemma ForwardDrop(tx: Tx, got: nat, ch: seq<Segment>, k: nat)
    requires Forward(tx, got, ch) && k < |ch|
    ensures Forward(tx, got, DropAt(ch, k))
  {
    var ch' := DropAt(ch, k);
    forall i, j | 0 <= i < j < |ch'| && IsData(ch'[i])
      ensures InOrder(tx, ch'[i], ch'[j])
    {
      assert ch'[i] == ch[if i < k then i else i + 1] && ch'[j] == ch[if j < k then j else j + 1];
    }
  }

  lemma BackwardDrop(tx: Tx, rx: Rx, ch: seq<Segment>, k: nat)
    requires Backward(tx, rx, ch) && k < |ch|
    ensures Backward(tx, rx, DropAt(ch, k))
  {
    var ch' := DropAt(ch, k);
    forall i, j | 0 <= i < j < |ch'| && IsAck(ch'[i]) && IsAck(ch'[j])
      ensures ch'[i].ackPos <= ch'[j].ackPos + 1
    {
      assert ch'[i] == ch[if i < k then i else i + 1] && ch'[j] == ch[if j < k then j else j + 1];
    }
  }

  /** Appending packets that are not of the stream's own kind. */
  lemma ForwardPush(tx: Tx, got: nat, ch: seq<Segment>, p: Segment)
    requires Forward(tx, got, ch)
    requires IsData(p) ==> DataOk(tx, got, p)
    requires IsData(p) ==> forall i :: 0 <= i < |ch| && IsData(ch[i]) ==> ch[i].seqPos <= p.seqPos
    requires IsFin(p) ==> tx.finSent && got <= tx.finPos
    requires IsFin(p) ==>
               forall i :: 0 <= i < |ch| && IsData(ch[i]) ==> ch[i].seqPos + |ch[i].data| <= tx.finPos
    ensures Forward(tx, got, ch + [p])
  {
  }

  lemma BackwardPush(tx: Tx, rx: Rx, ch: seq<Segment>, p: Segment)
    requires Backward(tx, rx, ch)
    requires IsAck(p) ==> AckOk(tx, rx, p)
    requires IsAck(p) ==> forall i :: 0 <= i < |ch| && IsAck(ch[i]) ==> ch[i].ackPos <= p.ackPos + 1
    ensures Backward(tx, rx, ch + [p])
  {
  }
}
