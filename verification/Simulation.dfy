/** Whole runs: whatever the machine does from `System.Init`, the protocol does from
    `Protocol.INIT` with the same labels, in matching states that satisfy the invariant. */
module Simulation {
  import opened Words
  import opened Ring
  import opened Tcp
  import M = Machine
  import S = System
  import P = Protocol
  import opened Invariant
  import opened Reachable
  import opened Refinement

  // ----- the application threads -----

  lemma SpaceMatches(s: M.Sock, x: P.Peer)
    requires SockMatches(s, x) && Bounded(x)
    ensures M.SendSpace(s) == P.SendSpace(x.tx)
    ensures M.RecvSpace(s) == P.RecvSpace(x.rx)
  {
    hide Holds;
    var acked, written := x.tx.acked, |x.tx.committed|;
    assert s.ackBack as int - 1 - s.sendFront == U16(acked) as int - 1 - U16(written);
    U16OfDifference(written, U16(acked) as int - 1);
    U16OfSum(acked, -1 - written);
    U16Shift(acked - 1 - written, 1);
    U16Distance(|x.rx.received|, x.rx.read);
  }

  lemma CommitTx(s: M.Sock, tx: P.Tx, data: seq<byte>)
    requires TxFields(s, tx) && |tx.committed| + |data| <= tx.acked + RING_SIZE
    ensures TxFields(M.Commit(s, data), tx.(committed := tx.committed + data))
  {
    hide Holds, Put, U16;
    PutExtends(s.writeRing, tx.committed, tx.acked, data);
    U16OfSum(|tx.committed|, |data|);
  }

  lemma CommitMatches(s: M.Sock, x: P.Peer, data: seq<byte>)
    requires SockMatches(s, x) && |data| <= P.SendSpace(x.tx)
    ensures SockMatches(M.Commit(s, data), x.(writer := WriteIdle, tx := x.tx.(committed := x.tx.committed + data)))
  {
    CommitTx(s, x.tx, data);
    hide Holds, U16, U32, Put;
  }

  lemma ReturnedGrows(rx: P.Rx, count: nat)
    requires rx.read + count <= |rx.received|
    ensures P.Returned(rx) + rx.received[rx.read..rx.read + count] == P.Returned(rx.(read := rx.read + count))
  {
  }

  lemma TakeReads(s: M.Sock, rx: P.Rx, count: u16)
    requires RxFields(s, rx) && count <= P.RecvSpace(rx)
    ensures P.Returned(rx) + Get(s.readRing, s.recvBack, count) == P.Returned(rx.(read := rx.read + count))
  {
    GetReads(s.readRing, rx.received, rx.read, |rx.received|, rx.read, count);
    hide Holds, Get, U16, U32;
    ReturnedGrows(rx, count);
  }

  lemma TakeRx(s: M.Sock, rx: P.Rx, count: u16)
    requires RxFields(s, rx) && count <= P.RecvSpace(rx)
    ensures RxFields(M.Take(s, count), rx.(read := rx.read + count))
  {
    HoldsLess(s.readRing, rx.received, rx.read, |rx.received|, rx.read + count);
    U16OfSum(rx.read, count);
    hide Holds, U16, U32;
  }

  lemma TakeMatches(s: M.Sock, x: P.Peer, count: u16)
    requires SockMatches(s, x) && count <= P.RecvSpace(x.rx)
    ensures SockMatches(M.Take(s, count), x.(reader := ReadIdle, rx := x.rx.(read := x.rx.read + count)))
  {
    TakeRx(s, x.rx, count);
    hide Holds, U16, U32;
  }

  lemma CloseMatches(s: M.Sock, x: P.Peer)
    requires SockMatches(s, x) && x.state != Listen
    ensures SockMatches(s.(cl := s.cl.(call := true)), x.(call := true))
  {
    hide Holds;
  }

  /** Entering a call, sampling and retrying touch the threads only, and both levels decide alike. */
  lemma ThreadMatches(h: S.Host, x: P.Peer, act: Action)
    requires HostMatches(h, x) && Bounded(x)
    requires !act.Close? && !act.WriteCommit? && !act.ReadCommit?
    ensures HostMatches(S.Application(h, act), P.Application(x, act))
  {
    SpaceMatches(h.sock, x);
    assert h.sock.state == x.state && h.sock.cl.finRecv == x.rx.finRecv;
    assert P.SendSpace(x.tx) <= P.LAP && P.RecvSpace(x.rx) <= P.LAP;
    hide SockMatches, Bounded, M.SendSpace, M.RecvSpace, P.SendSpace, P.RecvSpace, P.Returned;
  }

  lemma ApplicationMatches(h: S.Host, x: P.Peer, act: Action)
    requires HostMatches(h, x) && Bounded(x) && Endpoint(x)
    ensures HostMatches(S.Application(h, act), P.Application(x, act))
  {
    hide SockMatches, Bounded;
    if act.Close? {
      MatchingState(h.sock, x);
      if x.state != Listen { CloseMatches(h.sock, x); }
    } else if act.WriteCommit? {
      if x.writer.WriteReady? { CommitMatches(h.sock, x, x.writer.buf[..x.writer.count]); }
    } else if act.ReadCommit? {
      if x.reader.ReadReady? {
        TakeMatches(h.sock, x, x.reader.count);
        MatchingRx(h.sock, x);
        hide RxFields, Get, P.Returned;
        TakeReads(h.sock, x.rx, x.reader.count);
      }
    } else {
      ThreadMatches(h, x, act);
    }
  }

  // ----- bounds -----

  lemma InvBounds(n: P.Net)
    requires Both(n)
    ensures Bounded(n.a) && Bounded(n.b)
  {
    hide Forward, Backward, Owed;
  }

  lemma HeadLegible(n: P.Net)
    requires Both(n) && |n.ba| > 0 && KindOk(n.ba[0])
    ensures Legible(n.a, n.ba[0])
  {
    hide Owed;
    var p := n.ba[0];
    assert IsAck(p) ==> AckOk(n.a.tx, n.b.rx, p);
    assert IsData(p) ==> DataOk(n.b.tx, |n.a.rx.received|, p);
  }

  // ----- steps -----

  lemma CarriesPush(qs: seq<Packet>, ps: seq<P.Segment>, qs': seq<Packet>, ps': seq<P.Segment>)
    requires CarriesAll(qs, ps) && CarriesAll(qs', ps')
    ensures CarriesAll(qs + qs', ps + ps')
  {
  }

  /** The outcomes of one step on both levels. */
  ghost predicate ResultMatches(r: S.Result, r': P.Result) {
    (r.Crash? && r'.Crash?) || (r.Next? && r'.Next? && Matches(r.world, r'.net))
  }

  lemma DeliverMatches(w: S.World, n: P.Net, client: bool, act: Action)
    requires Matches(w, n) && Both(n) && PhaseOf(n, client) && act.Deliver?
    ensures ResultMatches(S.StepA(w, act), P.StepA(n, act))
  {
    hide Both, SockMatches, M.Receive, P.Receive;
    InvBounds(n);
    if n.ba != [] {
      var got, got' := M.Receive(w.a.sock, w.ba[0], act.heap), P.Receive(n.a, n.ba[0]);
      ReceiveMatches(w, n, client, act.heap);
      if got.Done? {
        CarriesPush(w.ab, n.ab, got.out, got'.out);
      }
    }
  }

  lemma ReceiveMatches(w: S.World, n: P.Net, client: bool, heap: Heap)
    requires Matches(w, n) && Both(n) && PhaseOf(n, client) && |n.ba| > 0
    ensures var got, got' := M.Receive(w.a.sock, w.ba[0], heap), P.Receive(n.a, n.ba[0]);
      && (got.Abort? <==> got'.Abort?)
      && (got.Done? ==> SockMatches(got.sock, got'.peer) && CarriesAll(got.out, got'.out)
                        && ReceiveKeepsApplication(n.a, got'.peer))
  {
    hide Both, SockMatches;
    var q, p := w.ba[0], n.ba[0];
    InvBounds(n);
    MatchingState(w.a.sock, n.a);
    if n.a.state == Established {
      HeadKind(n, client);
      HeadLegible(n);
      OnEstablishedMatches(w.a.sock, n.a, q, p);
    } else if n.a.state != Closed {
      HandshakeHead(n, client);
      HandshakeMatches(w.a.sock, n.a, q, p, heap);
    }
    if P.Receive(n.a, p).Done? {
      ReceiveTouches(n.a, p);
    }
  }

  lemma MatchingRx(s: M.Sock, x: P.Peer)
    requires SockMatches(s, x)
    ensures RxFields(s, x.rx)
  {
  }

  lemma MatchingState(s: M.Sock, x: P.Peer)
    requires SockMatches(s, x)
    ensures s.state == x.state
  {
  }

  lemma OnDataTouches(x: P.Peer, p: P.Segment)
    requires P.OnData(x, p).Done? && x.rx.read <= |x.rx.received|
    ensures ReceiveKeepsApplication(x, P.OnData(x, p).peer)
  {
  }

  lemma ReceiveTouches(x: P.Peer, p: P.Segment)
    requires P.Receive(x, p).Done? && x.rx.read <= |x.rx.received|
    ensures ReceiveKeepsApplication(x, P.Receive(x, p).peer)
  {
    if x.state == Established {
      var x1 := if p.ctrl.ack then P.OnAck(x, p) else x;
      var fin := if p.ctrl.fin then P.OnFin(x1) else P.Done(x1, []);
      OnDataTouches(fin.peer, p);
      hide P.OnData, P.Bits;
    }
  }

  /** Handlers do not touch the application's view of the streams. */
  predicate ReceiveKeepsApplication(x: P.Peer, x': P.Peer) {
    && x'.writer == x.writer && x'.reader == x.reader
    && x'.tx.committed == x.tx.committed && P.Returned(x'.rx) == P.Returned(x.rx)
  }

  lemma HeadKind(n: P.Net, client: bool)
    requires Both(n) && PhaseOf(n, client) && n.a.state == Established && |n.ba| > 0
    ensures KindOk(n.ba[0])
  {
    hide Both;
    assert n.ba[0] in n.ba;
  }

  lemma HandshakeHead(n: P.Net, client: bool)
    requires Both(n) && PhaseOf(n, client) && |n.ba| > 0
    requires n.a.state != Established && n.a.state != Closed
    ensures n.a.tx == P.TX0 && n.a.rx == P.RX0
    ensures n.a.state == Listen ==> n.ba[0] == SYN && P.Bits(n.a) == CL_ZERO && !n.a.tx.conn && n.a.timer == 0.0
    ensures n.a.state == SysSent ==> n.ba[0] == SYN_ACK
    ensures n.a.state == SysRecv ==> n.ba[0] == HANDSHAKE_ACK
  {
    hide Direction;
  }

  lemma ConnOpen(n: P.Net)
    requires Both(n)
    ensures n.a.tx.conn ==> Open(n.a)
  {
    hide Direction;
  }

  lemma TimerMatches(w: S.World, n: P.Net, act: Action)
    requires Matches(w, n) && Both(n) && act.Timer?
    ensures ResultMatches(S.StepA(w, act), P.StepA(n, act))
  {
    hide Both, SockMatches;
    InvBounds(n);
    ConnOpen(n);
    TickMatches(w.a.sock, n.a, act.now);
    CarriesPush(w.ab, n.ab, M.Tick(w.a.sock, act.now).out, P.Tick(n.a, act.now).out);
  }

  lemma ConnectMatches(w: S.World, n: P.Net, act: Action)
    requires Matches(w, n) && Both(n) && PhaseOf(n, true) && act.Connect?
    ensures ResultMatches(S.StepA(w, act), P.StepA(n, act))
  {
    hide Direction, Holds;
    if n.a.state == Closed && P.Bits(n.a) == CL_ZERO {
      CarriesPush(w.ab, n.ab, M.Connecting(w.a.sock).out, [SYN]);
    }
  }

  lemma StepAMatches(w: S.World, n: P.Net, client: bool, act: Action)
    requires Matches(w, n) && Both(n) && PhaseOf(n, client) && (act.Connect? ==> client)
    ensures ResultMatches(S.StepA(w, act), P.StepA(n, act))
  {
    hide Both, HostMatches;
    match act
    case Connect => ConnectMatches(w, n, act);
    case Timer(_, _) => TimerMatches(w, n, act);
    case Deliver(_, _) => DeliverMatches(w, n, client, act);
    case Drop(_, i) =>
    case _ => ApplicationStepMatches(w, n, act);
  }

  lemma ApplicationStepMatches(w: S.World, n: P.Net, act: Action)
    requires Matches(w, n) && Both(n)
    ensures HostMatches(S.Application(w.a, act), P.Application(n.a, act))
  {
    hide HostMatches, Direction, Endpoint;
    InvBounds(n);
    ApplicationMatches(w.a, n.a, act);
  }

  lemma StepMatches(w: S.World, n: P.Net, act: Action)
    requires Matches(w, n) && Inv(n)
    ensures ResultMatches(S.Step(w, act), P.Step(n, act))
  {
    hide HostMatches, Direction, Endpoint, Phase;
    if AtB(act) {
      StepAMatches(Flip(w), Flip(n), false, act);
    } else {
      StepAMatches(w, n, true, act);
    }
  }

  lemma InitMatches(heap: Heap)
    ensures Matches(S.Init(heap), P.INIT)
  {
  }

  /** The narrow machine refines the unbounded protocol on every run. */
  lemma {:induction false} RunMatches(heap: Heap, acts: seq<Action>)
    ensures ResultMatches(S.Run(heap, acts), P.Run(acts))
    ensures P.Run(acts).Next? ==> Inv(P.Run(acts).net)
  {
    if P.Run(acts).Next? {
      RunHolds(acts);
    }
    if acts == [] {
      InitMatches(heap);
    } else {
      var before := acts[..|acts| - 1];
      RunMatches(heap, before);
      if P.Run(before).Next? {
        StepMatches(S.Run(heap, before).world, P.Run(before).net, acts[|acts| - 1]);
      }
    }
  }
}
