/** The socket code as functions on socket values, with the C code's own word widths: what each
    handler of src/transport/loopthread.c and each locked or sampled part of
    src/transport/mainthread.c does to one socket, and which packets it sends. */
module Machine {
  import opened Words
  import opened Ring
  import opened Tcp

  datatype Sock = Sock(
    state: TcpState,
    cl: CloseState,
    isConnection: bool,
    sendFront: u16, sendBack: u16,
    recvFront: u16, recvBack: u16,
    ackFront: u16, ackBack: u16,
    seqNum: u32, ackNum: u32,
    resendTime: real,
    readRing: Bytes,
    writeRing: Bytes)

  /** A handler either runs into one of its asserts or leaves a socket and the packets it sent. */
  datatype Outcome = Abort | Done(sock: Sock, out: seq<Packet>)

  /** A zeroed socket, as allocSocket leaves it. */
  function Fresh(state: TcpState, heap: Heap): Sock {
    Sock(state, CL_ZERO, false, 0, 0, 0, 0, 0, 0, 0, 0, 0.0, heap.readBuffer, heap.writeBuffer)
  }

  /** The receive window a socket advertises. */
  function Window(s: Sock): u16 {
    U16(s.recvBack - 1 - s.recvFront)
  }

  function AckPacket(s: Sock, ackNum: u32): Packet {
    Packet(s.seqNum, ackNum, CT_ACK, Window(s), [])
  }

  // ----- handshake -----

  function Connecting(s: Sock): Outcome {
    var s' := s.(seqNum := U32(-1), ackNum := 0, state := SysSent);
    Done(s', [Packet(s'.seqNum, 0, CT_SYN, 0xffff, [])])
  }

  function OnListen(s: Sock, p: Packet, heap: Heap): Outcome {
    if p.ctrl.syn then
      var s' := Fresh(SysRecv, heap).(seqNum := U32(-1), ackNum := U32(p.seqNum + 1));
      Done(s', [Packet(s'.seqNum, s'.ackNum, CT_SYN_ACK, 0xffff, [])])
    else
      Done(s, [])
  }

  /** Both handshake handlers end in the same fresh data-transfer state; malloc returns `heap`. */
  function Establish(s: Sock, heap: Heap): Sock {
    s.(readRing := heap.readBuffer, writeRing := heap.writeBuffer, seqNum := U32(s.seqNum + 1),
       sendFront := 0, sendBack := 0, ackFront := U16(-1), ackBack := 0,
       recvFront := 0, recvBack := 0, state := Established, isConnection := true)
  }

  function OnSysSent(s: Sock, p: Packet, heap: Heap): Outcome {
    if p.ctrl.syn && p.ctrl.ack then
      var s' := Establish(s, heap).(ackNum := U32(p.seqNum + 1));
      Done(s', [Packet(0, s'.ackNum, CT_ACK, 0xffff, [])])
    else
      Done(s, [])
  }

  function OnSysRecv(s: Sock, p: Packet, heap: Heap): Outcome {
    if p.ctrl.ack then Done(Establish(s, heap), []) else Done(s, [])
  }

  // ----- data transfer -----

  /** The send side's part of an ACK: the assert, the window and the sequence number. */
  function AckSend(s: Sock, p: Packet): Outcome {
    if U16(p.ackNum) == s.sendBack then
      var back := U16(s.ackBack + U16(p.ackNum - s.seqNum));
      if back != U16(p.ackNum) then Abort
      else Done(s.(ackBack := back, ackFront := U16(back + p.window), seqNum := p.ackNum), [])
    else
      Done(s, [])
  }

  /** The closing part of an ACK. */
  function AckClose(s: Sock): Sock {
    var s1 := if s.cl.finSent then s.(cl := s.cl.(ackRecv := true)) else s;
    if s1.cl.Complete() then s1.(isConnection := false, state := Closed) else s1
  }

  function OnFin(s: Sock): Outcome {
    Done(s.(cl := s.cl.(finRecv := true, ackSent := true)), [AckPacket(s, U32(s.ackNum + 1))])
  }

  function OnData(s: Sock, p: Packet): Outcome {
    if |p.data| > 0 && p.seqNum == s.ackNum then
      var receivedLen := U16(|p.data|);
      var validLen := Min(Window(s), receivedLen);
      if validLen != receivedLen then Abort
      else
        var s' := s.(readRing := Put(s.readRing, s.recvFront, p.data[..validLen]),
                     ackNum := U32(p.seqNum + validLen),
                     recvFront := U16(s.recvFront + validLen));
        Done(s', [AckPacket(s', s'.ackNum)])
    else if p.ctrl == CT_NONE && p.seqNum == s.ackNum then
      Done(s, [AckPacket(s, s.ackNum)])
    else
      Done(s, [])
  }

  /** TCPHandleEstablished: the three parts one after the other. */
  function OnEstablished(s: Sock, p: Packet): Outcome {
    var acked := if p.ctrl.ack then AckSend(s, p) else Done(s, []);
    if acked.Abort? then Abort
    else
      var s1 := if p.ctrl.ack then AckClose(acked.sock) else s;
      var fin := if p.ctrl.fin then OnFin(s1) else Done(s1, []);
      var data := OnData(fin.sock, p);
      if data.Abort? then Abort else Done(data.sock, fin.out + data.out)
  }

  /** handleTCPMain's dispatch on the matched socket's state. */
  function Receive(s: Sock, p: Packet, heap: Heap): Outcome {
    match s.state
    case Closed => Done(s, [])
    case Listen => OnListen(s, p, heap)
    case SysSent => OnSysSent(s, p, heap)
    case SysRecv => OnSysRecv(s, p, heap)
    case Established => OnEstablished(s, p)
  }

  // ----- the timer task -----

  function DataPacket(s: Sock, start: u16, end: u16): Packet {
    Packet(s.seqNum, s.ackNum, CT_NONE, 0xffff, Get(s.writeRing, start, U16(end - start)))
  }

  /** The data part of asyncSendTCPPacket: a resend or a zero-window probe (both of ackBack up to
      sendBack, when the timer allows), or one new segment. */
  function TickData(s: Sock, now: real): Outcome {
    if s.sendBack != s.ackBack || s.ackBack == s.ackFront then
      if s.resendTime < now then
        var s' := s.(resendTime := now + 0.5);
        Done(s', [DataPacket(s', s'.ackBack, s'.sendBack)])
      else
        Done(s, [])
    else
      var len := Min(U16(s.sendFront - s.sendBack), U16(s.ackFront - s.sendBack));
      if len > 0 then
        var s' := s.(sendBack := U16(s.sendBack + Min(len, MAX_TCP_LEN)), resendTime := now + 0.5);
        Done(s', [DataPacket(s', s.sendBack, s'.sendBack)])
      else
        Done(s, [])
  }

  /** The closing part of asyncSendTCPPacket. */
  function TickFin(s: Sock, now: real): Outcome {
    if && s.ackBack == s.sendBack == s.sendFront
       && ((s.cl.finRecv && s.cl.ackSent) || s.cl.call)
       && (!s.cl.finSent || (!s.cl.ackRecv && s.resendTime < now))
    then
      Done(s.(resendTime := now + 5.0, cl := s.cl.(finSent := true)),
           [Packet(s.seqNum, s.ackNum, CT_FIN, 0xffff, [])])
    else
      Done(s, [])
  }

  /** asyncSendTCPPacket's work on one socket. */
  function Tick(s: Sock, now: real): Outcome {
    if !s.isConnection then Done(s, [])
    else
      var data := TickData(s, now);
      var fin := TickFin(data.sock, now);
      Done(fin.sock, data.out + fin.out)
  }

  // ----- the application threads -----

  /** The locked test at the head of writeLab. */
  predicate WriteRefused(s: Sock): (refused: bool)
    ensures refused <==> s.state != Established || s.cl.finRecv
  {
    s.state != Established || s.state.Code() % 2 == 1 || s.cl.finRecv
  }

  function SendSpace(s: Sock): u16 {
    U16(s.ackBack - 1 - s.sendFront)
  }

  function RecvSpace(s: Sock): u16 {
    U16(s.recvFront - s.recvBack)
  }

  /** The locked tail of writeLab. */
  function Commit(s: Sock, data: seq<byte>): Sock {
    s.(writeRing := Put(s.writeRing, s.sendFront, data), sendFront := U16(s.sendFront + |data|))
  }

  /** The locked tail of readLab. */
  function Take(s: Sock, count: u16): Sock {
    s.(recvBack := U16(s.recvBack + count))
  }
}
