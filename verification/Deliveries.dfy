/** What the delivery of one packet does on every run, seen from the hosts and the channels: which
    packets are answered, with what, and what they change. */
module Deliveries {
  import opened Words
  import opened Ring
  import opened Tcp
  import M = Machine
  import S = System
  import P = Protocol
  import opened Invariant
  import opened Reachable
  import opened Refinement
  import opened Simulation
  import opened Theorems
  import opened Guarantees
  import opened Threads

  /** The free space of a host's receive ring: 65535 less what has arrived and is unread. */
  function Free(h: S.Host): int {
    P.LAP - |Unread(h.sock)|
  }

  lemma FreeIs(s: M.Sock)
    ensures M.Window(s) == P.LAP - |Unread(s)|
  {
    U16OfDifference(s.recvFront - s.recvBack, P.LAP);
    assert P.LAP - (s.recvFront - s.recvBack) as int == s.recvBack - 1 - s.recvFront + 0x1_0000;
    U16Shift(s.recvBack - 1 - s.recvFront, 1);
  }

  /** An ACK a host sends as it stands: its own number, the given one, its free space, no data. */
  predicate IsAckOf(h: S.Host, q: Packet, ackNum: u32) {
    q == Packet(h.sock.seqNum, ackNum, CT_ACK, Free(h), [])
  }

  // ----- data -----

  lemma UnansweredData(w: S.World, act: Action)
    requires act.Deliver? && |w.ba| > 0 && w.ba[0].ctrl == CT_NONE
    requires w.a.sock.state != Established || w.ba[0].seqNum != w.a.sock.ackNum
    ensures S.StepA(w, act) == S.Next(w.(ba := w.ba[1..]))
  {
    assert w.ab + [] == w.ab;
  }

  lemma AnsweredData(w: S.World, act: Action)
    requires act.Deliver? && |w.ba| > 0 && w.ba[0].ctrl == CT_NONE
    requires w.a.sock.state == Established && w.ba[0].seqNum == w.a.sock.ackNum
    requires |w.ba[0].data| <= M.Window(w.a.sock)
    ensures S.StepA(w, act).Next?
    ensures var w' := S.StepA(w, act).world;
      var s, s' := w.a.sock, w'.a.sock;
      && w'.b == w.b && w'.ba == w.ba[1..] && w'.a == w.a.(sock := s')
      && w'.ab == w.ab + [Packet(s.seqNum, s'.ackNum, CT_ACK, M.Window(s'), [])]
      && s' == s.(readRing := s'.readRing, ackNum := s'.ackNum, recvFront := s'.recvFront)
      && s'.ackNum == U32(s.ackNum + |w.ba[0].data|)
  {
    var q := w.ba[0];
    assert q.data[..|q.data|] == q.data && U16(|q.data|) == |q.data|;
    hide Put, M.Window;
    if q.data == [] { U32OfSum(w.a.sock.ackNum, 0); }
  }

  /** A packet without control bits that does not carry the number its receiver expects next is not
      answered and changes nothing: an old or repeated segment is never acknowledged again, which is
      why a lost ACK could not be made up for. The same goes for a socket that is not established. */
  lemma UnexpectedData(w: S.World, fromB: bool, heap: Heap)
    requires var v := Seen(w, fromB);
      && |v.ab| > 0 && v.ab[0].ctrl == CT_NONE
      && (v.b.sock.state != Established || v.ab[0].seqNum != v.b.sock.ackNum)
    ensures var r := S.Step(w, Deliver(!fromB, heap));
      && r.Next?
      && var v, v' := Seen(w, fromB), Seen(r.world, fromB);
      v'.a == v.a && v'.b == v.b && v'.ba == v.ba && v'.ab == v.ab[1..]
  {
    UnansweredData(Seen(w, !fromB), Deliver(!fromB, heap));
    StepSees(w, Deliver(!fromB, heap), !fromB);
    hide S.Step, S.StepA;
  }

  lemma NetReceives(n: P.Net, act: Action)
    requires act.Deliver? && |n.ba| > 0 && IsData(n.ba[0]) && n.a.state == Established
    requires n.ba[0].seqPos == |n.a.rx.received| && |n.ba[0].data| <= P.Window(n.a.rx)
    ensures P.StepA(n, act).Next?
    ensures P.StepA(n, act).net.a.rx.received == n.a.rx.received + n.ba[0].data
  {
    assert P.OnData(n.a, n.ba[0]).Done?;
    assert n.a.rx.received + [] == n.a.rx.received;
  }

  lemma NetSeesData(w: S.World, n: P.Net, client: bool)
    requires Matches(w, n) && Both(n) && PhaseOf(n, client) && Bounded(n.a)
    requires |w.ba| > 0 && w.ba[0].ctrl == CT_NONE && w.a.sock.state == Established
    requires w.ba[0].seqNum == w.a.sock.ackNum && |w.ba[0].data| <= M.Window(w.a.sock)
    ensures |n.ba| > 0 && IsData(n.ba[0]) && n.a.state == Established && n.ba[0].data == w.ba[0].data
    ensures n.ba[0].seqPos == |n.a.rx.received| && |n.ba[0].data| <= P.Window(n.a.rx)
  {
    hide Phase, TxFields, RxFields, Holds, M.Window, P.Window, Direction;
    HeadLegible(n);
    assert Carries(w.ba[0], n.ba[0]);
    SegmentTests(w.a.sock, n.a, w.ba[0], n.ba[0]);
  }

  lemma ArrivedMore(h: S.Host, x: P.Peer, h': S.Host, x': P.Peer, data: seq<byte>)
    requires HostMatches(h, x) && Bounded(x) && HostMatches(h', x') && Bounded(x')
    requires x'.rx.received == x.rx.received + data
    ensures Arrived(h') == Arrived(h) + data && h'.sock.ackNum == U32(|Arrived(h')|)
  {
    hide Bounded, Arrived;
    ArrivedIs(h, x);
    ArrivedIs(h', x');
    SendBackIs(h'.sock, x');
  }

  lemma ExpectedFits(heap: Heap, acts: seq<Action>, fromB: bool, heap': Heap)
    requires S.Run(heap, acts).Next?
    requires var w := Seen(S.Run(heap, acts).world, fromB);
      && |w.ab| > 0 && w.ab[0].ctrl == CT_NONE && |w.ab[0].data| <= Free(w.b)
      && w.b.sock.state == Established && w.ab[0].seqNum == w.b.sock.ackNum
    ensures var w, r := Seen(S.Run(heap, acts).world, fromB), S.Step(S.Run(heap, acts).world, Deliver(!fromB, heap'));
      && r.Next?
      && var w' := Seen(r.world, fromB);
      && w'.a == w.a && w'.ab == w.ab[1..]
      && |w'.ba| == |w.ba| + 1 && w'.ba[..|w.ba|] == w.ba
      && IsAckOf(w'.b, w'.ba[|w.ba|], U32(|Arrived(w'.b)|))
      && Arrived(w'.b) == Arrived(w.b) + w.ab[0].data
      && SameThreads(w.b, w'.b)
      && w'.b.sock.state == Established && w'.b.sock.cl == w.b.sock.cl
  {
    var act := Deliver(!fromB, heap');
    hide S.Run, P.Run, S.Step, P.Step, S.StepA, P.StepA, Direction, Endpoint, Phase, HostMatches, Bounded;
    hide Unread, M.Window, Arrived, U32;
    var w, n := AtSide(heap, acts, fromB);
    FreeIs(w.b.sock);
    StepSees(S.Run(heap, acts).world, act, !fromB);
    AnsweredData(Flip(w), act);
    NetSeesData(Flip(w), Flip(n), fromB);
    NetReceives(Flip(n), act);
    NetStepSees(P.Run(acts).net, act, !fromB);
    var w', n' := After(heap, acts, act, fromB);
    FreeIs(w'.b.sock);
    ArrivedMore(w.b, n.b, w'.b, n'.b, w.ab[0].data);
  }

  /** A packet without control bits that carries the expected number arrives with all its bytes and is
      answered by exactly one ACK, of everything arrived and with the free space left. So it is, if
      it fits; if not, an assert fails. */
  lemma ExpectedData(heap: Heap, acts: seq<Action>, fromB: bool, heap': Heap)
    requires S.Run(heap, acts).Next?
    requires var w := Seen(S.Run(heap, acts).world, fromB);
      && |w.ab| > 0 && w.ab[0].ctrl == CT_NONE
      && w.b.sock.state == Established && w.ab[0].seqNum == w.b.sock.ackNum
    ensures var w, r := Seen(S.Run(heap, acts).world, fromB), S.Step(S.Run(heap, acts).world, Deliver(!fromB, heap'));
      && (r.Next? <==> |w.ab[0].data| <= Free(w.b))
      && (r.Next? ==>
            var w' := Seen(r.world, fromB);
            && w'.a == w.a && w'.ab == w.ab[1..]
            && |w'.ba| == |w.ba| + 1 && w'.ba[..|w.ba|] == w.ba
            && IsAckOf(w'.b, w'.ba[|w.ba|], U32(|Arrived(w'.b)|))
            && Arrived(w'.b) == Arrived(w.b) + w.ab[0].data
            && SameThreads(w.b, w'.b)
            && w'.b.sock.state == Established && w'.b.sock.cl == w.b.sock.cl)
  {
    var w := Seen(S.Run(heap, acts).world, fromB);
    hide S.Run, S.Step, Unread, M.Window, Arrived, U32, IsAckOf, SameThreads;
    FreeIs(w.b.sock);
    CrashIsOverflow(heap, acts, Deliver(!fromB, heap'));
    if |w.ab[0].data| <= Free(w.b) { ExpectedFits(heap, acts, fromB, heap'); }
  }

  // ----- ACK -----

  /** The close bits after an ACK. */
  function BitsAfterAck(cl: CloseState): CloseState {
    CloseState(cl.call, cl.finSent, cl.ackSent, cl.finRecv, cl.ackRecv || cl.finSent)
  }

  lemma AckAlone(w: S.World, act: Action)
    requires act.Deliver? && |w.ba| > 0 && w.ba[0].ctrl == CT_ACK && w.ba[0].data == []
    requires w.a.sock.state == Established && M.AckSend(w.a.sock, w.ba[0]).Done?
    ensures S.StepA(w, act).Next?
    ensures var w' := S.StepA(w, act).world;
      var s, s', cl := w.a.sock, w'.a.sock, BitsAfterAck(w.a.sock.cl);
      && w'.b == w.b && w'.ba == w.ba[1..] && w'.ab == w.ab && w'.a == w.a.(sock := s')
      && s' == M.AckSend(s, w.ba[0]).sock.(cl := cl, state := s'.state, isConnection := s'.isConnection)
      && (s'.state == if cl.finSent && cl.ackSent && cl.finRecv && cl.ackRecv then Closed else Established)
      && (s'.isConnection == if s'.state == Closed then false else s.isConnection)
  {
    var s, q := w.a.sock, w.ba[0];
    assert w.ab + [] == w.ab;
    var acked := M.AckSend(s, q).sock;
    assert acked.cl == s.cl && acked.state == s.state && acked.isConnection == s.isConnection;
    hide M.AckSend;
    assert M.OnData(M.AckClose(acked), q) == M.Done(M.AckClose(acked), []);
  }

  lemma AckMoves(h: S.Host, q: Packet)
    requires M.AckSend(h.sock, q).Done?
    ensures var h' := h.(sock := M.AckSend(h.sock, q).sock);
      && SentCount(h') == SentCount(h)
      && (U16(q.ackNum) == h.sock.sendBack ==> Settled(h'.sock) && WindowEnd(h') == SentCount(h) + q.window)
      && (U16(q.ackNum) != h.sock.sendBack ==> h' == h)
      && Unread(h'.sock) == Unread(h.sock)
  {
  }

  lemma CountsIgnoreClosing(h: S.Host, cl: CloseState, state: TcpState, conn: bool)
    ensures var h' := h.(sock := h.sock.(cl := cl, state := state, isConnection := conn));
      && SentCount(h') == SentCount(h) && WindowEnd(h') == WindowEnd(h) && Unread(h'.sock) == Unread(h.sock)
      && Unacknowledged(h'.sock) == Unacknowledged(h.sock) && Settled(h'.sock) == Settled(h.sock)
  {
  }

  /** On every run an ACK is not answered. If its low 16 bits are those of everything sent, nothing is
      outstanding any more and the window is the one it carries; otherwise no position moves. Once a
      FIN is out, any ACK counts as its ACK, and the socket closes exactly when all four bits are
      then set. */
  lemma AckDelivery(heap: Heap, acts: seq<Action>, fromB: bool, heap': Heap)
    requires S.Run(heap, acts).Next?
    requires var w := Seen(S.Run(heap, acts).world, fromB);
      |w.ba| > 0 && w.ba[0].ctrl.ack && w.a.sock.state == Established
    ensures var w, r := Seen(S.Run(heap, acts).world, fromB), S.Step(S.Run(heap, acts).world, Deliver(fromB, heap'));
      && r.Next?
      && var w' := Seen(r.world, fromB);
      var h, h', q := w.a, w'.a, w.ba[0];
      && w'.b == w.b && w'.ab == w.ab && w'.ba == w.ba[1..]
      && SameThreads(h, h') && Arrived(h') == Arrived(h) && SentCount(h') == SentCount(h)
      && (U16(q.ackNum) == h.sock.sendBack ==> Settled(h'.sock) && WindowEnd(h') == SentCount(h) + q.window)
      && (U16(q.ackNum) != h.sock.sendBack ==>
            WindowEnd(h') == WindowEnd(h) && Unacknowledged(h'.sock) == Unacknowledged(h.sock))
      && h'.sock.cl == BitsAfterAck(h.sock.cl)
      && (h'.sock.state == Closed <==>
            h.sock.cl.finSent && h.sock.cl.ackSent && h.sock.cl.finRecv)
      && (h'.sock.state != Closed ==> h'.sock.state == Established)
      && (h'.sock.isConnection <==> h'.sock.state == Established)
  {
    var act := Deliver(fromB, heap');
    hide S.Run, P.Run, S.Step, S.StepA, Direction, Endpoint, Phase, HostMatches, Bounded;
    hide SentCount, WindowEnd, Unacknowledged, Settled, Unread, U16, M.AckSend;
    var w, n := AtSide(heap, acts, fromB);
    AckOneWay(w, n, !fromB);
    AckIsPlain(w, n, !fromB);
    AckAlone(w, act);
    StepSees(S.Run(heap, acts).world, act, fromB);
    AckMoves(w.a, w.ba[0]);
    var s' := Seen(S.Step(S.Run(heap, acts).world, act).world, fromB).a.sock;
    CountsIgnoreClosing(w.a.(sock := M.AckSend(w.a.sock, w.ba[0]).sock), s'.cl, s'.state, s'.isConnection);
  }

  lemma AckIsPlain(w: S.World, n: P.Net, client: bool)
    requires Matches(w, n) && Both(n) && PhaseOf(n, client)
    requires |w.ba| > 0 && w.ba[0].ctrl.ack && w.a.sock.state == Established
    ensures w.ba[0].ctrl == CT_ACK && w.ba[0].data == [] && w.a.sock.isConnection
    ensures w.a.sock.cl.ackRecv ==> w.a.sock.cl.finSent
  {
    hide Direction, Phase, TxFields, RxFields;
    HeadKind(n, client);
    assert Carries(w.ba[0], n.ba[0]);
  }

  // ----- FIN -----

  lemma FinAlone(w: S.World, act: Action)
    requires act.Deliver? && |w.ba| > 0 && w.ba[0].ctrl == CT_FIN && w.ba[0].data == []
    requires w.a.sock.state == Established
    ensures S.StepA(w, act).Next?
    ensures var w' := S.StepA(w, act).world;
      var s, s' := w.a.sock, w'.a.sock;
      && w'.b == w.b && w'.ba == w.ba[1..] && w'.a == w.a.(sock := s')
      && w'.ab == w.ab + [Packet(s.seqNum, U32(s.ackNum + 1), CT_ACK, M.Window(s), [])]
      && s' == s.(cl := CloseState(s.cl.call, s.cl.finSent, true, true, s.cl.ackRecv))
  {
    hide M.Window, U32;
  }

  /** On every run a FIN is answered by exactly one ACK, of one more than everything arrived, and
      changes only the two close bits; the connection stays open. */
  lemma FinDelivery(heap: Heap, acts: seq<Action>, fromB: bool, heap': Heap)
    requires S.Run(heap, acts).Next?
    requires var w := Seen(S.Run(heap, acts).world, fromB);
      |w.ab| > 0 && w.ab[0].ctrl.fin && w.b.sock.state == Established
    ensures var w, r := Seen(S.Run(heap, acts).world, fromB), S.Step(S.Run(heap, acts).world, Deliver(!fromB, heap'));
      && r.Next?
      && var w' := Seen(r.world, fromB);
      && w'.a == w.a && w'.ab == w.ab[1..]
      && |w'.ba| == |w.ba| + 1 && w'.ba[..|w.ba|] == w.ba
      && IsAckOf(w.b, w'.ba[|w.ba|], U32(|Arrived(w.b)| + 1))
      && w'.b == w.b.(sock := w.b.sock.(cl := CloseState(w.b.sock.cl.call, w.b.sock.cl.finSent, true, true,
                                                         w.b.sock.cl.ackRecv)))
  {
    var act := Deliver(!fromB, heap');
    hide S.Run, P.Run, S.Step, S.StepA, Direction, Endpoint, Phase, HostMatches, Bounded;
    hide Unread, Arrived, U32, M.Window;
    var w, n := AtSide(heap, acts, fromB);
    FinIsPlain(Flip(w), Flip(n), fromB);
    FinAlone(Flip(w), act);
    StepSees(S.Run(heap, acts).world, act, !fromB);
    FreeIs(w.b.sock);
    ArrivedIs(w.b, n.b);
    NextNumber(w.b, n.b);
  }

  lemma FinIsPlain(w: S.World, n: P.Net, client: bool)
    requires Matches(w, n) && Both(n) && PhaseOf(n, client)
    requires |w.ba| > 0 && w.ba[0].ctrl.fin && w.a.sock.state == Established
    ensures w.ba[0].ctrl == CT_FIN && w.ba[0].data == []
  {
    hide Direction, Phase, TxFields, RxFields;
    HeadKind(n, client);
    assert Carries(w.ba[0], n.ba[0]);
  }

  lemma NextNumber(h: S.Host, x: P.Peer)
    requires HostMatches(h, x)
    ensures U32(h.sock.ackNum + 1) == U32(|x.rx.received| + 1)
  {
    SendBackIs(h.sock, x);
    hide SockMatches, U32;
    U32OfSum(|x.rx.received|, 1);
  }

  // ----- the handshake -----

  /** During the handshake only the packet a socket waits for has an effect; any other is dropped. */
  lemma HandshakeIgnores(w: S.World, fromB: bool, heap: Heap)
    requires var v := Seen(w, fromB); |v.ab| > 0 && !Awaited(v.b.sock.state, v.ab[0].ctrl)
    ensures var r := S.Step(w, Deliver(!fromB, heap));
      && r.Next?
      && var v, v' := Seen(w, fromB), Seen(r.world, fromB);
      v'.a == v.a && v'.b == v.b && v'.ba == v.ba && v'.ab == v.ab[1..]
  {
    var act := Deliver(!fromB, heap);
    var v := Flip(Seen(w, fromB));
    assert v.ab + [] == v.ab;
    assert S.StepA(v, act) == S.Next(v.(ba := v.ba[1..]));
    StepSees(w, act, !fromB);
    hide S.Step, S.StepA;
  }

  /** The control bits a socket reacts to in each state. */
  predicate Awaited(state: TcpState, ctrl: Ctrl) {
    match state
    case Closed => false
    case Listen => ctrl.syn
    case SysSent => ctrl.syn && ctrl.ack
    case SysRecv => ctrl.ack
    case Established => true
  }
}
