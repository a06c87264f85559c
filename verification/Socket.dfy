/** `struct Socket` and the code that updates it in place, each method proved equal to the
    function on socket values of module Machine. */
module SocketClass {
  import opened Words
  import opened Ring
  import opened Tcp
  import opened Machine

  class Socket {
    var state: TcpState
    var clstate: CloseState
    var isConnection: bool
    var sendFront: u16
    var sendBack: u16
    var recvFront: u16
    var recvBack: u16
    var ackFront: u16
    var ackBack: u16
    var seqNum: u32
    var ackNum: u32
    var resendTime: real
    var readBuffer: array<byte>
    var writeBuffer: array<byte>

    ghost predicate Valid()
      reads this
    {
      readBuffer.Length == RING_SIZE && writeBuffer.Length == RING_SIZE && readBuffer != writeBuffer
    }

    /** The socket as a value. */
    ghost function View(): Sock
      requires Valid()
      reads this, readBuffer, writeBuffer
    {
      Sock(state, clstate, isConnection, sendFront, sendBack, recvFront, recvBack, ackFront, ackBack,
           seqNum, ackNum, resendTime, readBuffer[..], writeBuffer[..])
    }

    ghost function Buffers(): Heap
      requires Valid()
      reads this, readBuffer, writeBuffer
    {
      Heap(readBuffer[..], writeBuffer[..])
    }

    /** allocSocket. */
    constructor (state: TcpState)
      ensures Valid() && fresh(readBuffer) && fresh(writeBuffer)
      ensures View() == Fresh(state, Buffers())
    {
      this.state, clstate, isConnection := state, CL_ZERO, false;
      sendFront, sendBack, recvFront, recvBack, ackFront, ackBack := 0, 0, 0, 0, 0, 0;
      seqNum, ackNum, resendTime := 0, 0, 0.0;
      readBuffer := new byte[RING_SIZE];
      writeBuffer := new byte[RING_SIZE];
    }

    /** createTCPHeader for an ACK with the current window. */
    method MakeAck(ack: u32) returns (p: Packet)
      requires Valid()
      ensures p == AckPacket(View(), ack)
    {
      var window := U16(recvBack - 1 - recvFront);
      p := Packet(seqNum, ack, CT_ACK, window, []);
    }

    /** connectLab's locked part. */
    method ConnectLab() returns (out: seq<Packet>)
      requires Valid()
      modifies this
      ensures Valid() && readBuffer == old(readBuffer) && writeBuffer == old(writeBuffer)
      ensures Done(View(), out) == Connecting(old(View()))
    {
      seqNum := U32(-1);
      ackNum := 0;
      out := [Packet(seqNum, 0, CT_SYN, 0xffff, [])];
      state := SysSent;
    }

    /** TCPHandleListen: the listening socket stays, a connection socket is made. */
    method HandleListen(p: Packet) returns (conn: Socket?, out: seq<Packet>)
      requires Valid() && state == Listen
      ensures conn == null <==> !p.ctrl.syn
      ensures conn == null ==> Done(View(), out) == Receive(View(), p, Buffers())
      ensures conn != null ==>
                && fresh(conn) && conn.Valid()
                && Done(conn.View(), out) == Receive(View(), p, conn.Buffers())
    {
      conn, out := null, [];
      if p.ctrl.syn {
        var s := new Socket(SysRecv);
        s.seqNum := U32(-1);
        s.ackNum := U32(p.seqNum + 1);
        conn := s;
        out := [Packet(s.seqNum, s.ackNum, CT_SYN_ACK, 0xffff, [])];
      }
    }

    /** malloc(TCP_BUFFER_SIZE): a new buffer of arbitrary contents. */
    static method Malloc() returns (buffer: array<byte>)
      ensures fresh(buffer) && buffer.Length == RING_SIZE
    {
      buffer := new byte[RING_SIZE];
    }

    /** The fields, other than the buffers, at the start of data transfer. */
    method ResetFields()
      modifies this`seqNum, this`sendFront, this`sendBack, this`recvFront, this`recvBack, this`ackFront,
        this`ackBack, this`isConnection, this`state
      ensures sendFront == sendBack == ackBack == recvFront == recvBack == 0 && ackFront == U16(-1)
      ensures seqNum == U32(old(seqNum) + 1) && isConnection && state == Established
    {
      seqNum := U32(seqNum + 1);
      sendFront, sendBack, ackFront, ackBack := 0, 0, U16(-1), 0;
      recvFront, recvBack := 0, 0;
      isConnection := true;
      state := Established;
    }

    /** The initialisation both handshake handlers share. */
    method EnterEstablished()
      requires Valid()
      modifies this
      ensures Valid() && fresh(readBuffer) && fresh(writeBuffer)
      ensures View() == Establish(old(View()), Buffers())
    {
      readBuffer := Malloc();
      writeBuffer := Malloc();
      ResetFields();
    }

    /** TCPHandleSyssent and TCPHandleSysrecv. */
    method HandleHandshake(p: Packet) returns (out: seq<Packet>)
      requires Valid() && (state == SysSent || state == SysRecv)
      modifies this
      ensures Valid()
      ensures Done(View(), out) == Receive(old(View()), p, Buffers())
      ensures state == Established <==> p.ctrl.ack && (old(state) == SysRecv || p.ctrl.syn)
      ensures state != Established ==> View() == old(View()) && out == []
    {
      out := [];
      if state == SysSent {
        if p.ctrl.syn && p.ctrl.ack {
          EnterEstablished();
          ackNum := U32(p.seqNum + 1);
          out := [Packet(0, ackNum, CT_ACK, 0xffff, [])];
        }
      } else if p.ctrl.ack {
        EnterEstablished();
      }
    }

    /** The ACK part of TCPHandleEstablished. `aborted` says that an assert of the C code failed. */
    method HandleAck(p: Packet) returns (aborted: bool)
      requires Valid()
      modifies this
      ensures Valid() && readBuffer == old(readBuffer) && writeBuffer == old(writeBuffer)
      ensures var after := AckSend(old(View()), p);
        aborted == after.Abort? && (!aborted ==> View() == AckClose(after.sock))
    {
      aborted := false;
      var ack16 := U16(p.ackNum);
      if ack16 == sendBack {
        var ackDiff := U16(p.ackNum - seqNum);
        ackBack := U16(ackBack + ackDiff);
        if ackBack != U16(p.ackNum) {
          return true;
        }
        ackFront := U16(ackBack + p.window);
        seqNum := p.ackNum;
      }
      if clstate.finSent {
        clstate := clstate.(ackRecv := true);
      }
      if clstate.Complete() {
        isConnection := false;
        state := Closed;
      }
    }

    /** The FIN part of TCPHandleEstablished. */
    method HandleFin() returns (reply: Packet)
      requires Valid()
      modifies this`clstate
      ensures Valid() && Done(View(), [reply]) == OnFin(old(View()))
    {
      clstate := clstate.(finRecv := true);
      reply := MakeAck(U32(ackNum + 1));
      clstate := clstate.(ackSent := true);
    }

    /** The data part of TCPHandleEstablished. */
    method HandleData(p: Packet) returns (aborted: bool, out: seq<Packet>)
      requires Valid()
      modifies this, readBuffer
      ensures Valid() && readBuffer == old(readBuffer) && writeBuffer == old(writeBuffer)
      ensures var after := OnData(old(View()), p);
        aborted == after.Abort? && (!aborted ==> after == Done(View(), out))
      ensures p.seqNum != old(ackNum) ==> !aborted && out == [] && View() == old(View())
    {
      aborted, out := false, [];
      if |p.data| > 0 && p.seqNum == ackNum {
        var receivedLen := U16(|p.data|);
        var maxAvailable := U16(recvBack - 1 - recvFront);
        var validLen: u16 := if maxAvailable < receivedLen then maxAvailable else receivedLen;
        if validLen != receivedLen {
          return true, [];
        }
        CopyIn(readBuffer, recvFront, p.data[..validLen]);
        ackNum := U32(p.seqNum + validLen);
        recvFront := U16(recvFront + validLen);
        var reply := MakeAck(ackNum);
        out := [reply];
      } else if p.ctrl == CT_NONE && p.seqNum == ackNum {
        var reply := MakeAck(ackNum);
        out := [reply];
      }
    }

    /** TCPHandleEstablished. */
    method HandleEstablished(p: Packet) returns (aborted: bool, out: seq<Packet>)
      requires Valid() && state == Established
      modifies this, readBuffer
      ensures Valid() && readBuffer == old(readBuffer) && writeBuffer == old(writeBuffer)
      ensures var after := Receive(old(View()), p, Buffers());
        aborted == after.Abort? && (!aborted ==> after == Done(View(), out))
    {
      aborted, out := false, [];
      if p.ctrl.ack {
        aborted := HandleAck(p);
        if aborted {
          return;
        }
      }
      if p.ctrl.fin {
        var reply := HandleFin();
        out := [reply];
      }
      var replies;
      aborted, replies := HandleData(p);
      out := out + replies;
    }

    /** The data part of asyncSendTCPPacket's loop body. */
    method AsyncSendData(now: real) returns (out: seq<Packet>)
      requires Valid()
      modifies this`sendBack, this`resendTime
      ensures Done(View(), out) == TickData(old(View()), now)
      ensures (old(sendBack) != ackBack || ackBack == ackFront) && now <= old(resendTime) ==> out == []
    {
      out := [];
      var send, start, end := false, 0, 0;
      if sendBack != ackBack {
        if resendTime < now {
          resendTime := now + 0.5;
          send, start, end := true, ackBack, sendBack;
        }
      } else if ackBack == ackFront {
        if resendTime < now {
          resendTime := now + 0.5;
          send, start, end := true, ackBack, sendBack;
        }
      } else {
        var len1 := U16(sendFront - sendBack);
        var len2 := U16(ackFront - sendBack);
        var len := if len1 < len2 then len1 else len2;
        if len > 0 {
          send := true;
          start := sendBack;
          if len > MAX_TCP_LEN {
            len := MAX_TCP_LEN;
          }
          sendBack := U16(sendBack + len);
          end := sendBack;
          resendTime := now + 0.5;
        }
      }
      if send {
        var data := CopySegment(writeBuffer, start, end);
        out := [Packet(seqNum, ackNum, CT_NONE, 0xffff, data)];
      }
    }

    /** The closing part of asyncSendTCPPacket's loop body. */
    method AsyncSendFin(now: real) returns (out: seq<Packet>)
      requires Valid()
      modifies this`clstate, this`resendTime
      ensures Done(View(), out) == TickFin(old(View()), now)
    {
      out := [];
      var send := false;
      if ackBack == sendBack && sendBack == sendFront {
        if (clstate.finRecv && clstate.ackSent) || clstate.call {
          if !clstate.finSent {
            send := true;
            resendTime := now + 5.0;
          } else if !clstate.ackRecv && resendTime < now {
            send := true;
            resendTime := now + 5.0;
          }
          if send {
            out := [Packet(seqNum, ackNum, CT_FIN, 0xffff, [])];
            clstate := clstate.(finSent := true);
          }
        }
      }
    }

    /** asyncSendTCPPacket's loop body for this socket. */
    method AsyncSend(now: real) returns (out: seq<Packet>)
      requires Valid()
      modifies this`sendBack, this`resendTime, this`clstate
      ensures Done(View(), out) == Tick(old(View()), now)
    {
      out := [];
      if isConnection {
        out := AsyncSendData(now);
        var fin := AsyncSendFin(now);
        out := out + fin;
      }
    }

    /** writeLab's locked test. Its middle part never decides: the socket may be closing, with
        CL_CALL or CL_FIN_SENT set, and writing is still allowed. */
    method WriteAllowed() returns (ok: bool)
      ensures ok <==> state == Established && !clstate.finRecv
    {
      ok := !(state != Established || state.Code() % 2 == 1 || clstate.finRecv);
    }

    /** One unlocked sample of writeLab's loop. */
    method SampleSendSpace(nbyte: nat) returns (sendByte: u16)
      requires Valid()
      ensures sendByte == Min(nbyte, SendSpace(View()))
    {
      var sendSpace := U16(ackBack - 1 - sendFront);
      sendByte := if nbyte > sendSpace then sendSpace else nbyte;
    }

    /** writeLab's locked copy. */
    method WriteCommit(buf: array<byte>, sendByte: u16)
      requires Valid() && sendByte <= buf.Length && buf != writeBuffer
      modifies this, writeBuffer
      ensures Valid() && readBuffer == old(readBuffer) && writeBuffer == old(writeBuffer)
      ensures View() == Commit(old(View()), old(buf[..sendByte]))
    {
      CopyIn(writeBuffer, sendFront, buf[..sendByte]);
      sendFront := U16(sendFront + sendByte);
    }

    /** One unlocked sample of readLab's loop. */
    method SampleRecvSpace(nbyte: nat) returns (recvByte: u16)
      requires Valid()
      ensures recvByte == Min(nbyte, RecvSpace(View()))
    {
      var recvSpace := U16(recvFront - recvBack);
      recvByte := if nbyte > recvSpace then recvSpace else nbyte;
    }

    /** readLab's locked copy. */
    method ReadCommit(buf: array<byte>, recvByte: u16)
      requires Valid() && recvByte <= buf.Length && buf != readBuffer && buf != writeBuffer
      modifies this, buf
      ensures Valid() && readBuffer == old(readBuffer) && writeBuffer == old(writeBuffer)
      ensures View() == Take(old(View()), recvByte)
      ensures buf[..recvByte] == Get(old(View()).readRing, old(recvBack), recvByte)
      ensures buf[recvByte..] == old(buf[recvByte..])
    {
      CopyOut(readBuffer, recvBack, recvByte, buf);
      recvBack := U16(recvBack + recvByte);
    }

    /** closeLab's locked part. */
    method CloseCall()
      requires Valid()
      modifies this`clstate
      ensures Valid() && View() == old(View()).(cl := old(clstate).(call := true))
    {
      clstate := clstate.(call := true);
    }
  }
}
