/** Unlocked samples, the handshake and connection closing, on every run of the machine. */
module Closing {
  import opened Words
  import opened Ring
  import opened Tcp
  import M = Machine
  import S = System
  import P = Protocol
  import opened Invariant
  import opened Reachable
  import opened Refinement
  import opened Simulation
  import opened Theorems
  import opened Moments
  import opened Guarantees

  // ----- unlocked sampling -----

  /** The count a thread computed without the lock is still available. */
  predicate SamplesHold(h: S.Host) {
    && (h.writer.WriteReady? ==> 0 < h.writer.count <= |h.writer.buf| && h.writer.count <= M.SendSpace(h.sock))
    && (h.reader.ReadReady? ==> 0 < h.reader.count <= M.RecvSpace(h.sock))
  }

  lemma SamplesOneWay(h: S.Host, x: P.Peer)
    requires HostMatches(h, x) && Bounded(x) && Endpoint(x)
    ensures SamplesHold(h)
  {
    hide SockMatches, Bounded, M.SendSpace, M.RecvSpace;
    SpaceMatches(h.sock, x);
  }

  /** Whatever the loop thread does between the unlocked sample of writeLab or readLab and the
      moment the thread takes the lock, the sampled space is still there. */
  lemma SampledSpaceIsStable(heap: Heap, acts: seq<Action>)
    requires S.Run(heap, acts).Next?
    ensures SamplesHold(S.Run(heap, acts).world.a) && SamplesHold(S.Run(heap, acts).world.b)
  {
    var w, n := At(heap, acts);
    hide S.Run, P.Run, Direction, Endpoint, Phase, HostMatches, SamplesHold;
    SamplesOneWay(w.a, n.a);
    SamplesOneWay(w.b, n.b);
  }

  // ----- handshake -----

  /** All ring indices are at the start of the streams. */
  predicate AtStart(s: M.Sock) {
    && s.sendFront == s.sendBack == s.ackBack == s.recvFront == s.recvBack == 0
    && s.ackFront == 0xffff
    && s.seqNum == s.ackNum == 0
  }

  lemma ServerEntryOneWay(w: S.World, n: P.Net, act: Action)
    requires Matches(w, n) && Both(n) && PhaseOf(n, false)
    requires w.a.sock.state == SysRecv
    requires S.StepA(w, act).Next? && S.StepA(w, act).world.a.sock.state == Established
    ensures var w' := S.StepA(w, act).world;
      AtStart(w'.a.sock) && w'.b == w.b && w.b.sock.state == Established
      && w.b.sock.seqNum == w.b.sock.ackNum == w.b.sock.recvFront == w.b.sock.recvBack == w.b.sock.ackBack == 0
  {
    hide Direction, Holds;
    assert act.Deliver? && n.ba[0] == HANDSHAKE_ACK && Carries(w.ba[0], n.ba[0]);
  }

  lemma ClientEntryOneWay(w: S.World, n: P.Net, act: Action)
    requires Matches(w, n) && Both(n) && PhaseOf(n, true)
    requires w.a.sock.state == SysSent
    requires S.StepA(w, act).Next? && S.StepA(w, act).world.a.sock.state == Established
    ensures var w' := S.StepA(w, act).world;
      AtStart(w'.a.sock) && w'.b == w.b && w.b.sock.state == SysRecv
      && w.b.sock.ackNum == w.b.sock.recvFront == w.b.sock.recvBack == 0
      && U32(w.b.sock.seqNum + 1) == 0
  {
    hide Direction, Holds;
    assert act.Deliver? && n.ba[0] == SYN_ACK && Carries(w.ba[0], n.ba[0]);
  }

  /** The handshake aligns the two ends: an end that enters ST_ESTABLISHED has the sequence number
      its peer expects, expects its peer's next one, and has every ring index at the matching low
      16 bits. */
  lemma HandshakeAligns(heap: Heap, acts: seq<Action>, act: Action)
    requires S.Run(heap, acts).Next?
    requires S.Step(S.Run(heap, acts).world, act).Next?
    ensures var w := S.Run(heap, acts).world;
      var w' := S.Step(w, act).world;
      && (w.a.sock.state == SysSent && w'.a.sock.state == Established ==>
            && AtStart(w'.a.sock) && w'.a.sock.seqNum == w'.b.sock.ackNum
            && w'.a.sock.ackNum == U32(w'.b.sock.seqNum + 1))
      && (w.b.sock.state == SysRecv && w'.b.sock.state == Established ==>
            && AtStart(w'.b.sock) && w'.b.sock.seqNum == w'.a.sock.ackNum
            && w'.b.sock.ackNum == w'.a.sock.seqNum
            && w'.a.sock.recvFront == w'.b.sock.ackBack && w'.a.sock.ackBack == w'.b.sock.recvFront)
  {
    var w, n := At(heap, acts);
    hide S.Run, P.Run, Direction, Endpoint, Phase, HostMatches, S.StepA, AtStart;
    OnlyOneMoves(w, act);
    if w.a.sock.state == SysSent && S.Step(w, act).world.a.sock.state == Established {
      ClientEntryOneWay(w, n, act);
    }
    if w.b.sock.state == SysRecv && S.Step(w, act).world.b.sock.state == Established {
      ServerEntryOneWay(Flip(w), Flip(n), act);
    }
  }

  /** A step changes the socket of one host only. */
  lemma OnlyOneMoves(w: S.World, act: Action)
    requires S.Step(w, act).Next?
    ensures AtB(act) ==> S.Step(w, act).world.a == w.a && S.StepA(Flip(w), act).Next?
    ensures !AtB(act) ==> S.Step(w, act).world.b == w.b && S.StepA(w, act).Next?
  {
    hide M.Receive, M.Tick;
  }

  // ----- closing -----

  /** What has arrived is the whole stream exactly when the receiver expects the number that ends
      the sender's ring. */
  predicate AllArrived(s: M.Sock, r: M.Sock) {
    r.ackNum == U32(s.seqNum + Unacknowledged(s))
  }

  lemma StreamPositions(n: P.Net)
    requires Both(n)
    ensures var got := |n.b.rx.received|;
      && got <= |n.a.tx.committed| <= n.a.tx.acked + P.LAP <= got + 1 + P.LAP
      && n.b.rx.received == n.a.tx.committed[..got]
  {
    hide Forward, Backward, Owed, Endpoint;
  }

  lemma EndNumber(acked: int, committed: int, got: int)
    requires -2 * P.LAP <= committed - got <= 2 * P.LAP
    ensures U32(got) == U32(U32(acked) + (committed - acked)) <==> got == committed
  {
    U32OfSum(acked, committed - acked);
    U32Near(committed, got);
  }

  lemma AllArrivedIs(w: S.World, n: P.Net)
    requires Matches(w, n) && Both(n) && Bounded(n.a) && Bounded(n.b) && Open(n.a)
    ensures AllArrived(w.a.sock, w.b.sock) <==> n.b.rx.received == n.a.tx.committed
  {
    hide SockMatches, Both, Bounded, CarriesAll, U32, Unacknowledged, Open;
    UnacknowledgedIs(w.a, n.a);
    SendBackIs(w.a.sock, n.a);
    SendBackIs(w.b.sock, n.b);
    StreamPositions(n);
    EndNumber(n.a.tx.acked, |n.a.tx.committed|, |n.b.rx.received|);
  }

  lemma FinOneWay(n: P.Net)
    requires Both(n) && n.b.rx.finRecv
    ensures n.a.tx.finSent && Open(n.a) && n.a.tx.finPos <= |n.b.rx.received|
    ensures n.b.rx.received == n.a.tx.committed[..|n.b.rx.received|]
    ensures !P.Late(n.a.tx) ==> n.a.tx.finPos == |n.a.tx.committed|
  {
    hide Forward, Backward, Owed;
  }

  /** What a received FIN means, on every run: everything its sender had committed when that FIN
      first went out, in step `k`, has arrived. That is all its sender committed unless it has
      committed more since, as it never does on a disciplined run; whether the rest arrived as
      well is seen from the two sockets. */
  lemma FinAfterDrain(heap: Heap, acts: seq<Action>, fromB: bool) returns (k: nat)
    requires S.Run(heap, acts).Next? && Seen(S.Run(heap, acts).world, fromB).b.sock.cl.finRecv
    ensures FinSentAt(heap, acts, fromB, k)
    ensures var w, atFin := Seen(S.Run(heap, acts).world, fromB), CommittedAt(heap, acts, fromB, k);
      && atFin <= Arrived(w.b) <= w.a.committed
      && (Arrived(w.b) == w.a.committed <==> AllArrived(w.a.sock, w.b.sock))
      && (Disciplined(heap, acts) ==> atFin == w.a.committed)
  {
    hide S.Run, P.Run, Disciplined, Direction, Endpoint, Phase, HostMatches, P.Late, Arrived, Bounded, AllArrived;
    var w, n := AtSide(heap, acts, fromB);
    FinBits(heap, acts, fromB);
    FinOneWay(n);
    AllArrivedIs(w, n);
    ArrivedIs(w.b, n.b);
    StreamPositions(n);
    k := FinSentMoment(heap, acts, fromB);
    FinPosAt(heap, acts, fromB, k);
    assert n.a.tx.committed[..|n.a.tx.committed|] == n.a.tx.committed;
  }

  lemma FinStepOneWay(n: P.Net, client: bool, act: Action)
    requires Both(n) && PhaseOf(n, client) && P.StepA(n, act).Next?
    requires !n.a.rx.finRecv && P.StepA(n, act).net.a.rx.finRecv
    ensures var n' := P.StepA(n, act).net;
      |n'.a.rx.received| == n.b.tx.finPos && n.b.tx.finSent && n'.b == n.b
  {
    match act
    case Timer(_, _) =>
      hide Both, Phase, P.TickData;
      assert P.TickData(n.a, act.now).peer.rx == n.a.rx by { TimerLeavesRx(n.a, act.now); }
    case Deliver(_, _) =>
      if n.a.state == Established { HeadKind(n, client); }
      ReceiptOfFin(n.a, n.ba[0]);
      if IsFin(n.ba[0]) { FinReceipt(n); }
      hide Both, Phase, P.Receive;
    case _ =>
      hide Both, Phase;
  }

  lemma TimerLeavesRx(x: P.Peer, now: real)
    ensures P.TickData(x, now).Done? && P.TickData(x, now).peer.rx == x.rx
  {
  }

  lemma ReceiptOfFin(x: P.Peer, p: P.Segment)
    requires x.state == Established ==> KindOk(p)
    requires P.Receive(x, p).Done? && !x.rx.finRecv && P.Receive(x, p).peer.rx.finRecv
    ensures IsFin(p) && P.Receive(x, p).peer.rx.received == x.rx.received
  {
  }

  lemma FinStep(n0: P.Net, fromB: bool, act: Action)
    requires Inv(n0) && P.Step(n0, act).Next?
    requires !Seen(n0, fromB).b.rx.finRecv && Seen(P.Step(n0, act).net, fromB).b.rx.finRecv
    ensures var n, n' := Seen(n0, fromB), Seen(P.Step(n0, act).net, fromB);
      |n'.b.rx.received| == n.a.tx.finPos && n.a.tx.finSent && n'.a == n.a
  {
    StepAIsAlone(if AtB(act) then Flip(n0) else n0, act);
    hide Direction, Endpoint, Phase, P.StepA;
    FinStepOneWay(Flip(Seen(n0, fromB)), fromB, act);
  }

  /** At the step in which a host first sees the FIN of its peer, exactly what the peer had committed
      when that FIN went out has arrived. So it is then the peer's whole stream if and only if the
      peer committed nothing in between. */
  lemma FinArrival(heap: Heap, acts: seq<Action>, act: Action, fromB: bool) returns (k: nat)
    requires S.Run(heap, acts).Next? && S.Step(S.Run(heap, acts).world, act).Next?
    requires !Seen(S.Run(heap, acts).world, fromB).b.sock.cl.finRecv
    requires Seen(S.Step(S.Run(heap, acts).world, act).world, fromB).b.sock.cl.finRecv
    ensures FinSentAt(heap, acts, fromB, k)
    ensures var w', atFin := Seen(S.Step(S.Run(heap, acts).world, act).world, fromB), CommittedAt(heap, acts, fromB, k);
      && Arrived(w'.b) == atFin <= w'.a.committed
      && (Arrived(w'.b) == w'.a.committed <==> w'.a.committed == atFin)
  {
    hide S.Run, P.Run, S.Step, P.Step, Direction, Endpoint, Phase, HostMatches, Arrived, Bounded;
    var w0, n0 := At(heap, acts);
    StepMatches(w0, n0, act);
    StepKeeps(n0, act);
    var n0' := P.Step(n0, act).net;
    InvBounds(n0');
    var w', n' := Seen(S.Step(w0, act).world, fromB), Seen(n0', fromB);
    FinBits(heap, acts, fromB);
    FinBitsOf(w', n');
    FinStep(n0, fromB, act);
    FinOneWay(n');
    ArrivedIs(w'.b, n'.b);
    k := FinSentMoment(heap, acts, fromB);
    FinPosAt(heap, acts, fromB, k);
  }

  lemma FinBitsOf(w: S.World, n: P.Net)
    requires Matches(w, n)
    ensures w.b.sock.cl == P.Bits(n.b) && w.a.committed == n.a.tx.committed
  {
    hide SockMatches;
    BitsMatch(w.b, n.b);
  }

  /** Close bits are never taken back. */
  lemma CloseBitsOnlyGrow(heap: Heap, acts: seq<Action>, act: Action)
    requires S.Run(heap, acts).Next? && S.Step(S.Run(heap, acts).world, act).Next?
    ensures var w := S.Run(heap, acts).world;
      var w' := S.Step(w, act).world;
      w.a.sock.cl.KeptBy(w'.a.sock.cl) && w.b.sock.cl.KeptBy(w'.b.sock.cl)
  {
    var w, n := At(heap, acts);
    hide S.Run, P.Run, Direction, Endpoint, Phase, HostMatches, S.Step, P.Step, P.Bits;
    StepMatches(w, n, act);
    StepKeeps(n, act);
    var w', n' := S.Step(w, act).world, P.Step(n, act).net;
    BitsMatch(w.a, n.a);
    BitsMatch(w.b, n.b);
    BitsMatch(w'.a, n'.a);
    BitsMatch(w'.b, n'.b);
  }

  /** A connection is closed only with both FINs and both ACKs; the one other closed socket is a
      client that was never connected. */
  lemma ClosedMeansComplete(heap: Heap, acts: seq<Action>)
    requires S.Run(heap, acts).Next?
    ensures var w := S.Run(heap, acts).world;
      && (w.b.sock.state == Closed ==> w.b.sock.cl.Complete())
      && (w.a.sock.state == Closed ==>
            w.a.sock.cl.Complete() || (w.b.sock.state == Listen && w.a.committed == [] == w.b.committed))
  {
    var w, n := At(heap, acts);
    hide S.Run, P.Run, Direction, SockMatches;
    BitsMatch(w.a, n.a);
    BitsMatch(w.b, n.b);
  }

  lemma EndOneWay(h: S.Host, sent: seq<byte>)
    requires Arrived(h) <= sent
    ensures h.returned == sent <==> M.RecvSpace(h.sock) == 0 && Arrived(h) == sent
    ensures M.RecvSpace(h.sock) == 0 ==> h.returned == Arrived(h)
  {
    hide M.RecvSpace;
    assert |Unread(h.sock)| == M.RecvSpace(h.sock);
    assert Arrived(h)[..|h.returned|] == h.returned;
  }

  /** End of file, on every run: once its connection is closed, a host has read its peer's stream to
      the end exactly when its ring is empty at this instant and the peer's ring ends at the number
      it expects. An empty ring alone means that everything committed before the peer's FIN has
      been read; on a disciplined run that is the whole stream. */
  lemma EndOfFile(heap: Heap, acts: seq<Action>, fromB: bool) returns (k: nat)
    requires S.Run(heap, acts).Next?
    requires var b := Seen(S.Run(heap, acts).world, fromB).b; b.sock.state == Closed && b.sock.cl.Complete()
    ensures FinSentAt(heap, acts, fromB, k)
    ensures var w, atFin := Seen(S.Run(heap, acts).world, fromB), CommittedAt(heap, acts, fromB, k);
      && (w.b.returned == w.a.committed <==> M.RecvSpace(w.b.sock) == 0 && AllArrived(w.a.sock, w.b.sock))
      && (M.RecvSpace(w.b.sock) == 0 ==> atFin <= w.b.returned)
      && (Disciplined(heap, acts) ==> (w.b.returned == w.a.committed <==> M.RecvSpace(w.b.sock) == 0))
  {
    hide S.Run, Disciplined, Arrived, M.RecvSpace, AllArrived;
    k := FinAfterDrain(heap, acts, fromB);
    var w := Seen(S.Run(heap, acts).world, fromB);
    EndOneWay(w.b, w.a.committed);
  }

  /** asyncSendTCPPacket has no FIN left to send here, whenever its timer expires. */
  ghost predicate NoFinLeft(s: M.Sock) {
    forall now: real :: M.TickFin(s, now).out == [] || !s.isConnection
  }

  /** Every committed byte was sent and acknowledged. */
  predicate SendRingEmpty(s: M.Sock) {
    s.ackBack == s.sendBack == s.sendFront
  }

  lemma DrainedMatches(h: S.Host, x: P.Peer)
    requires HostMatches(h, x) && Bounded(x) && SendRingEmpty(h.sock) && NoFinLeft(h.sock)
    ensures P.Drained(x.tx) && !P.FinDue(x)
  {
    hide Holds;
    U16Near(x.tx.sent, x.tx.acked);
    U16Near(|x.tx.committed|, x.tx.sent);
    var later := h.sock.resendTime + 1.0;
    assert M.TickFin(h.sock, later).out == [] || !h.sock.isConnection;
  }

  lemma QuiescentIsComplete(n: P.Net)
    requires Both(n) && Open(n.a) && Open(n.b) && n.ab == [] && n.ba == []
    requires P.Drained(n.a.tx) && P.Drained(n.b.tx) && !P.FinDue(n.a) && !P.FinDue(n.b)
    requires n.a.call || n.b.call
    ensures P.Bits(n.a).Complete() && P.Bits(n.b).Complete()
  {
    hide Forward, Backward;
  }

  /** No dead end in closing: with nothing in flight, both send rings empty, closeLab called on at
      least one side and no FIN left to send, closeLab's exit test holds at both ends. */
  lemma NoDeadEnd(heap: Heap, acts: seq<Action>)
    requires S.Run(heap, acts).Next?
    requires var w := S.Run(heap, acts).world;
      && w.ab == [] && w.ba == []
      && (w.a.sock.isConnection || w.a.sock.cl.Complete())
      && (w.b.sock.isConnection || w.b.sock.cl.Complete())
      && SendRingEmpty(w.a.sock) && SendRingEmpty(w.b.sock)
      && NoFinLeft(w.a.sock) && NoFinLeft(w.b.sock)
      && (w.a.sock.cl.call || w.b.sock.cl.call)
    ensures var w := S.Run(heap, acts).world;
      && (w.a.sock.state == Closed || w.a.sock.cl == CL_ALL)
      && (w.b.sock.state == Closed || w.b.sock.cl == CL_ALL)
  {
    var w, n := At(heap, acts);
    hide S.Run, P.Run, Direction, Phase, HostMatches, SendRingEmpty, NoFinLeft, P.Drained, P.FinDue;
    BitsMatch(w.a, n.a);
    BitsMatch(w.b, n.b);
    DrainedMatches(w.a, n.a);
    DrainedMatches(w.b, n.b);
    QuiescentIsComplete(n);
  }
}
