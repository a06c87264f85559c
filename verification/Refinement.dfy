/** The machine with 16-bit ring indices and 32-bit sequence numbers takes exactly the steps of
    the protocol with unbounded positions. */
module Refinement {
  import opened Words
  import opened Ring
  import opened Tcp
  import M = Machine
  import S = System
  import P = Protocol
  import opened Invariant

  /** A packet carries its positions modulo 2^32. */
  predicate Carries(q: Packet, p: P.Segment) {
    && q.seqNum == U32(p.seqPos)
    && q.ackNum == U32(p.ackPos)
    && q.ctrl == p.ctrl
    && q.window == p.window
    && q.data == p.data
  }

  ghost predicate CarriesAll(qs: seq<Packet>, ps: seq<P.Segment>) {
    |qs| == |ps| && forall i :: 0 <= i < |qs| ==> Carries(qs[i], ps[i])
  }

  /** The sender's fields are its positions modulo 2^16 and 2^32, and the ring holds what is
      committed and not yet acknowledged. */
  ghost predicate TxFields(s: M.Sock, tx: P.Tx) {
    && s.sendFront == U16(|tx.committed|)
    && s.sendBack == U16(tx.sent)
    && s.ackBack == U16(tx.acked)
    && Holds(s.writeRing, tx.committed, tx.acked, |tx.committed|)
  }

  /** The two fields the handshake sets last. */
  ghost predicate TxOpen(s: M.Sock, tx: P.Tx) {
    s.ackFront == U16(tx.front) && s.seqNum == U32(tx.acked)
  }

  /** The receiver's fields, and the ring with what is received and not yet read. */
  ghost predicate RxFields(s: M.Sock, rx: P.Rx) {
    && rx.read <= |rx.received|
    && s.recvFront == U16(|rx.received|)
    && s.recvBack == U16(rx.read)
    && s.ackNum == U32(|rx.received|)
    && Holds(s.readRing, rx.received, rx.read, |rx.received|)
  }

  ghost predicate SockMatches(s: M.Sock, x: P.Peer) {
    && s.state == x.state
    && s.cl == P.Bits(x)
    && s.isConnection == x.tx.conn
    && s.resendTime == x.timer
    && TxFields(s, x.tx)
    && RxFields(s, x.rx)
    && (Open(x) ==> TxOpen(s, x.tx))
    && (x.state == SysSent || x.state == SysRecv ==> s.seqNum == U32(-1))
  }

  ghost predicate HostMatches(h: S.Host, x: P.Peer) {
    && SockMatches(h.sock, x)
    && h.writer == x.writer
    && h.reader == x.reader
    && h.committed == x.tx.committed
    && h.returned == P.Returned(x.rx)
  }

  ghost predicate Matches(w: S.World, n: P.Net) {
    HostMatches(w.a, n.a) && HostMatches(w.b, n.b) && CarriesAll(w.ab, n.ab) && CarriesAll(w.ba, n.ba)
  }

  /** The bounds under which the narrow comparisons of the machine are exact. */
  predicate Bounded(x: P.Peer) {
    && x.tx.acked <= x.tx.sent <= |x.tx.committed| <= x.tx.acked + P.LAP
    && x.tx.sent <= x.tx.acked + MAX_TCP_LEN
    && x.tx.sent <= x.tx.front <= x.tx.sent + P.LAP
    && x.rx.read <= |x.rx.received| <= x.rx.read + P.LAP
  }

  predicate Legible(x: P.Peer, p: P.Segment) {
    && KindOk(p)
    && (IsAck(p) ==> -0x1_0000 < p.ackPos - x.tx.sent < 0x1_0000)
    && (IsData(p) ==> -0x1_0000 < p.seqPos - |x.rx.received| < 0x1_0000 && |p.data| < 0x1_0000)
  }

  // ----- the handlers -----

  lemma WindowMatches(s: M.Sock, rx: P.Rx)
    requires RxFields(s, rx) && rx.read <= |rx.received| <= rx.read + P.LAP
    ensures M.Window(s) == P.Window(rx)
  {
    var read, got := rx.read, |rx.received|;
    assert s.recvBack as int - 1 - s.recvFront == U16(read) as int - 1 - U16(got);
    U16OfDifference(got, U16(read) as int - 1);
    U16OfSum(read, -1 - got);
    U16Shift(read - 1 - got, 1);
  }

  lemma AckMatches(s: M.Sock, x: P.Peer, pos: int)
    requires SockMatches(s, x) && Bounded(x) && Open(x)
    ensures Carries(M.AckPacket(s, U32(pos)), P.AckSegment(x, pos))
  {
    WindowMatches(s, x.rx);
  }

  /** The 16-bit arithmetic of an accepted ACK: the new ackBack and ackFront. */
  lemma AckArithmetic(acked: int, sent: int, window: int)
    ensures U16(U16(acked) + U16(U32(sent) - U32(acked))) == U16(sent)
    ensures U16(U32(sent)) == U16(sent)
    ensures U16(U16(sent) + window) == U16(sent + window)
  {
    U16OfU32(sent);
    U16OfU32Difference(sent, acked);
    U16OfSum(acked, U16(sent - acked));
    U16OfSum(sent - acked, acked);
    U16OfSum(sent, window);
  }

  lemma HoldsKept(r: Bytes, tx: P.Tx)
    requires Holds(r, tx.committed, tx.acked, |tx.committed|) && tx.acked <= tx.sent <= |tx.committed|
    ensures Holds(r, tx.committed, tx.sent, |tx.committed|)
  {
    HoldsLess(r, tx.committed, tx.acked, |tx.committed|, tx.sent);
  }

  /** The 16-bit match accepts exactly the ACK of everything sent, and its assert holds. */
  lemma AckSendMatches(s: M.Sock, tx: P.Tx, q: Packet, p: P.Segment)
    requires TxFields(s, tx) && TxOpen(s, tx) && Carries(q, p)
    requires tx.acked <= tx.sent <= |tx.committed|
    requires -0x1_0000 < p.ackPos - tx.sent < 0x1_0000
    ensures U16(q.ackNum) == s.sendBack <==> p.ackPos == tx.sent
    ensures var after := M.AckSend(s, q);
      && after.Done?
      && TxFields(after.sock, P.AckSend(tx, p)) && TxOpen(after.sock, P.AckSend(tx, p))
      && after.sock == s.(ackBack := after.sock.ackBack, ackFront := after.sock.ackFront,
                          seqNum := after.sock.seqNum)
  {
    hide Holds, U16, U32;
    U16OfU32(p.ackPos);
    U16Near(p.ackPos, tx.sent);
    AckArithmetic(tx.acked, tx.sent, q.window);
    HoldsKept(s.writeRing, tx);
  }

  lemma OnAckMatches(s: M.Sock, x: P.Peer, q: Packet, p: P.Segment)
    requires SockMatches(s, x) && Bounded(x) && Open(x) && Carries(q, p)
    requires -0x1_0000 < p.ackPos - x.tx.sent < 0x1_0000
    ensures M.AckSend(s, q).Done?
    ensures SockMatches(M.AckClose(M.AckSend(s, q).sock), P.OnAck(x, p))
  {
    AckSendMatches(s, x.tx, q, p);
  }

  lemma OnFinMatches(s: M.Sock, x: P.Peer)
    requires SockMatches(s, x) && Bounded(x) && Open(x)
    ensures SockMatches(M.OnFin(s).sock, P.OnFin(x).peer)
    ensures CarriesAll(M.OnFin(s).out, P.OnFin(x).out)
  {
    U32OfSum(|x.rx.received|, 1);
    AckMatches(s, x, |x.rx.received| + 1);
  }

  /** The socket after accepting `data`. */
  function Accept(s: M.Sock, data: seq<byte>): M.Sock {
    s.(readRing := Put(s.readRing, s.recvFront, data),
       ackNum := U32(s.ackNum + |data|), recvFront := U16(s.recvFront + |data|))
  }

  lemma AcceptMatches(s: M.Sock, rx: P.Rx, data: seq<byte>)
    requires RxFields(s, rx) && |rx.received| + |data| <= rx.read + P.LAP
    ensures RxFields(Accept(s, data), rx.(received := rx.received + data))
  {
    hide Holds, Put, U16, U32;
    var stream := rx.received;
    AcceptRing(s.readRing, stream, rx.read, data);
    U16OfSum(|stream|, |data|);
    U32OfSum(|stream|, |data|);
    var s', rx' := Accept(s, data), rx.(received := rx.received + data);
    assert s'.recvFront == U16(|rx'.received|) && s'.recvBack == U16(rx'.read);
    assert s'.ackNum == U32(|rx'.received|);
    assert Holds(s'.readRing, rx'.received, rx'.read, |rx'.received|);
  }

  lemma AcceptRing(r: Bytes, stream: seq<byte>, read: nat, data: seq<byte>)
    requires Holds(r, stream, read, |stream|) && |stream| + |data| <= read + P.LAP
    ensures Holds(Put(r, U16(|stream|), data), stream + data, read, |stream + data|)
  {
    PutExtends(r, stream, read, data);
  }

  lemma AcceptReplyMatches(s: M.Sock, x: P.Peer, data: seq<byte>)
    requires SockMatches(s, x) && Bounded(x) && Open(x) && |data| <= P.Window(x.rx)
    ensures var s', x' := Accept(s, data), x.(rx := x.rx.(received := x.rx.received + data));
      SockMatches(s', x') && Carries(M.AckPacket(s', s'.ackNum), P.AckSegment(x', |x'.rx.received|))
  {
    hide Holds, U16, U32, Put;
    AcceptMatches(s, x.rx, data);
    var x' := x.(rx := x.rx.(received := x.rx.received + data));
    AckMatches(Accept(s, data), x', |x'.rx.received|);
  }

  lemma SegmentTests(s: M.Sock, x: P.Peer, q: Packet, p: P.Segment)
    requires SockMatches(s, x) && Bounded(x) && Carries(q, p) && Legible(x, p) && IsData(p)
    ensures q.seqNum == s.ackNum <==> p.seqPos == |x.rx.received|
    ensures M.Window(s) == P.Window(x.rx)
    ensures U16(|q.data|) == |p.data| && q.data[..|p.data|] == p.data
  {
    hide Holds;
    U32Near(p.seqPos, |x.rx.received|);
    WindowMatches(s, x.rx);
  }

  lemma OnSegmentAccepts(s: M.Sock, q: Packet)
    requires q.seqNum == s.ackNum && 0 < |q.data| <= M.Window(s)
    ensures M.OnData(s, q) == M.Done(Accept(s, q.data), [M.AckPacket(Accept(s, q.data), Accept(s, q.data).ackNum)])
  {
    assert q.data[..|q.data|] == q.data && U16(|q.data|) == |q.data|;
    hide M.Window, Put, U16, U32;
  }

  /** The 32-bit match accepts exactly the next segment, and the length assert of the machine
      fails exactly when the segment does not fit the receive ring. */
  lemma OnDataMatches(s: M.Sock, x: P.Peer, q: Packet, p: P.Segment)
    requires SockMatches(s, x) && Bounded(x) && Open(x) && Carries(q, p) && Legible(x, p)
    ensures M.OnData(s, q).Abort? <==> P.OnData(x, p).Abort?
    ensures M.OnData(s, q).Done? ==>
              && SockMatches(M.OnData(s, q).sock, P.OnData(x, p).peer)
              && CarriesAll(M.OnData(s, q).out, P.OnData(x, p).out)
  {
    if IsData(p) {
      SegmentTests(s, x, q, p);
      hide SockMatches, M.Window, P.Window, Put;
      if p.seqPos == |x.rx.received| {
        if |p.data| == 0 {
          AckMatches(s, x, |x.rx.received|);
        } else if |p.data| <= P.Window(x.rx) {
          AcceptReplyMatches(s, x, p.data);
          OnSegmentAccepts(s, q);
        }
      }
    }
  }

  lemma OnEstablishedMatches(s: M.Sock, x: P.Peer, q: Packet, p: P.Segment)
    requires SockMatches(s, x) && Bounded(x) && x.state == Established && Carries(q, p) && Legible(x, p)
    ensures M.OnEstablished(s, q).Abort? <==> P.OnEstablished(x, p).Abort?
    ensures M.OnEstablished(s, q).Done? ==>
              && SockMatches(M.OnEstablished(s, q).sock, P.OnEstablished(x, p).peer)
              && CarriesAll(M.OnEstablished(s, q).out, P.OnEstablished(x, p).out)
  {
    hide SockMatches;
    if IsAck(p) {
      OnAckMatches(s, x, q, p);
    } else if IsFin(p) {
      OnFinMatches(s, x);
    } else {
      OnDataMatches(s, x, q, p);
    }
  }

  lemma HandshakeMatches(s: M.Sock, x: P.Peer, q: Packet, p: P.Segment, heap: Heap)
    requires SockMatches(s, x) && x.tx == P.TX0 && x.rx == P.RX0 && Carries(q, p)
    requires x.state == Listen ==> p == SYN && P.Bits(x) == CL_ZERO && !x.tx.conn && x.timer == 0.0
    requires x.state == SysSent ==> p == SYN_ACK
    requires x.state == SysRecv ==> p == HANDSHAKE_ACK
    requires x.state == Listen || x.state == SysSent || x.state == SysRecv
    ensures M.Receive(s, q, heap).Done? && P.Receive(x, p).Done?
    ensures SockMatches(M.Receive(s, q, heap).sock, P.Receive(x, p).peer)
    ensures CarriesAll(M.Receive(s, q, heap).out, P.Receive(x, p).out)
  {
  }

  // ----- the timer task -----

  lemma DataPacketMatches(s: M.Sock, x: P.Peer, to: nat)
    requires SockMatches(s, x) && Bounded(x) && Open(x)
    requires x.tx.acked <= to <= |x.tx.committed|
    ensures Carries(M.DataPacket(s, U16(x.tx.acked), U16(to)), P.DataSegment(x, x.tx.acked, to))
  {
    U16Distance(to, x.tx.acked);
    GetReads(s.writeRing, x.tx.committed, x.tx.acked, |x.tx.committed|, x.tx.acked, to - x.tx.acked);
  }

  /** The 16-bit tests and differences of the timer task are the exact ones. */
  lemma TickTestsMatch(s: M.Sock, tx: P.Tx)
    requires TxFields(s, tx) && TxOpen(s, tx)
    requires tx.acked <= tx.sent <= |tx.committed| <= tx.acked + P.LAP
    requires tx.sent <= tx.front <= tx.sent + P.LAP && tx.sent <= tx.acked + MAX_TCP_LEN
    ensures s.sendBack == s.ackBack <==> tx.sent == tx.acked
    ensures tx.sent == tx.acked ==> (s.ackBack == s.ackFront <==> tx.acked == tx.front)
    ensures s.sendBack == s.sendFront <==> tx.sent == |tx.committed|
    ensures U16(s.sendFront - s.sendBack) == |tx.committed| - tx.sent
    ensures U16(s.ackFront - s.sendBack) == tx.front - tx.sent
  {
    hide Holds;
    U16Near(tx.sent, tx.acked);
    U16Near(|tx.committed|, tx.sent);
    U16Distance(|tx.committed|, tx.sent);
    U16Distance(tx.front, tx.sent);
    U16Near(tx.front, tx.sent);
  }

  /** The matching outcomes of the timer task's data part. */
  ghost predicate TickDataPair(sent: M.Outcome, sent': P.Outcome) {
    && sent.Done? && sent'.Done?
    && SockMatches(sent.sock, sent'.peer)
    && CarriesAll(sent.out, sent'.out)
    && Bounded(sent'.peer) && sent'.peer.tx.conn && Open(sent'.peer)
  }

  lemma ResendMatches(s: M.Sock, x: P.Peer, now: real)
    requires SockMatches(s, x) && Bounded(x) && Open(x) && x.tx.conn
    ensures var s', x' := s.(resendTime := now + 0.5), x.(timer := now + 0.5);
      TickDataPair(M.Done(s', [M.DataPacket(s', s.ackBack, s.sendBack)]),
                   P.Done(x', [P.DataSegment(x, x.tx.acked, x.tx.sent)]))
  {
    hide Holds;
    DataPacketMatches(s.(resendTime := now + 0.5), x.(timer := now + 0.5), x.tx.sent);
  }

  lemma NewSegmentMatches(s: M.Sock, x: P.Peer, len: nat, now: real)
    requires SockMatches(s, x) && Bounded(x) && Open(x) && x.tx.conn
    requires x.tx.acked == x.tx.sent && len <= MAX_TCP_LEN
    requires x.tx.sent + len <= |x.tx.committed| && x.tx.sent + len <= x.tx.front
    ensures var s' := s.(sendBack := U16(s.sendBack + len), resendTime := now + 0.5);
      var x' := x.(tx := x.tx.(sent := x.tx.sent + len), timer := now + 0.5);
      TickDataPair(M.Done(s', [M.DataPacket(s', s.sendBack, s'.sendBack)]),
                   P.Done(x', [P.DataSegment(x', x.tx.sent, x'.tx.sent)]))
  {
    hide Holds;
    U16OfSum(x.tx.sent, len);
    DataPacketMatches(s.(sendBack := U16(s.sendBack + len), resendTime := now + 0.5),
                      x.(tx := x.tx.(sent := x.tx.sent + len), timer := now + 0.5), x.tx.sent + len);
  }

  lemma IdleMatches(s: M.Sock, x: P.Peer)
    requires SockMatches(s, x) && Bounded(x) && Open(x) && x.tx.conn
    ensures TickDataPair(M.Done(s, []), P.Done(x, []))
    ensures TxFields(s, x.tx) && TxOpen(s, x.tx) && s.resendTime == x.timer && s.isConnection
    ensures x.tx.acked <= x.tx.sent <= |x.tx.committed| <= x.tx.acked + P.LAP
    ensures x.tx.sent <= x.tx.front <= x.tx.sent + P.LAP && x.tx.sent <= x.tx.acked + MAX_TCP_LEN
  {
  }

  lemma TickDataMatches(s: M.Sock, x: P.Peer, now: real)
    requires SockMatches(s, x) && Bounded(x) && Open(x) && x.tx.conn
    ensures TickDataPair(M.TickData(s, now), P.TickData(x, now))
  {
    hide U16, U32, TickDataPair, SockMatches, Bounded, Open, TxFields, TxOpen, M.DataPacket, P.DataSegment;
    IdleMatches(s, x);
    var tx := x.tx;
    TickTestsMatch(s, tx);
    var len := Min(|tx.committed| - tx.sent, tx.front - tx.sent);
    if tx.sent != tx.acked || tx.acked == tx.front {
      ResendMatches(s, x, now);
    } else if len > 0 {
      NewSegmentMatches(s, x, Min(len, MAX_TCP_LEN), now);
    }
  }

  lemma TickFinMatches(s: M.Sock, x: P.Peer, now: real)
    requires SockMatches(s, x) && Bounded(x) && x.tx.conn && Open(x)
    ensures SockMatches(M.TickFin(s, now).sock, P.TickFin(x, now).peer)
    ensures CarriesAll(M.TickFin(s, now).out, P.TickFin(x, now).out)
  {
    hide Holds;
    TickTestsMatch(s, x.tx);
    hide U16, U32;
  }

  lemma TickMatches(s: M.Sock, x: P.Peer, now: real)
    requires SockMatches(s, x) && Bounded(x) && (x.tx.conn ==> Open(x))
    ensures P.Tick(x, now).Done? && M.Tick(s, now).Done?
    ensures SockMatches(M.Tick(s, now).sock, P.Tick(x, now).peer)
    ensures CarriesAll(M.Tick(s, now).out, P.Tick(x, now).out)
  {
    assert s.isConnection == x.tx.conn;
    hide SockMatches;
    if x.tx.conn {
      TickDataMatches(s, x, now);
      TickFinMatches(M.TickData(s, now).sock, P.TickData(x, now).peer, now);
    }
  }
}
