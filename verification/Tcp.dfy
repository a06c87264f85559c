/** The vocabulary of the transport layer (src/transport/mainthread.h,
    src/transport/tcpheader.h): states, flag words, packets, and the application threads that
    sit inside writeLab and readLab. */
module Tcp {
  import opened Words
  import opened Ring

  const MAX_TCP_LEN: nat := 1024

  /** The states a handler is ever entered in. */
  datatype TcpState = Closed | Listen | SysSent | SysRecv | Established {
    /** The enumeration value, for the test `state & CL_CALL` of writeLab. */
    function Code(): nat {
      match this
      case Closed => 0
      case Listen => 1
      case SysSent => 2
      case SysRecv => 3
      case Established => 4
    }
  }

  /** The bits of the header's control byte. */
  datatype Ctrl = Ctrl(urg: bool, ack: bool, psh: bool, rst: bool, syn: bool, fin: bool)

  const CT_NONE := Ctrl(false, false, false, false, false, false)
  const CT_ACK := CT_NONE.(ack := true)
  const CT_SYN := CT_NONE.(syn := true)
  const CT_FIN := CT_NONE.(fin := true)
  const CT_SYN_ACK := CT_SYN.(ack := true)

  /** The bits of `clstate`. */
  datatype CloseState = CloseState(call: bool, finSent: bool, ackSent: bool, finRecv: bool, ackRecv: bool) {
    /** All bits of CL_CLOSE: both FINs and both ACKs seen. */
    predicate Complete() {
      finSent && ackSent && finRecv && ackRecv
    }

    /** The bits of `this` are still set in `that`. */
    predicate KeptBy(that: CloseState) {
      && (call ==> that.call)
      && (finSent ==> that.finSent)
      && (ackSent ==> that.ackSent)
      && (finRecv ==> that.finRecv)
      && (ackRecv ==> that.ackRecv)
    }
  }

  const CL_ZERO := CloseState(false, false, false, false, false)
  const CL_ALL := CloseState(true, true, true, true, true)

  /** A segment on the wire. */
  datatype Packet = Packet(seqNum: u32, ackNum: u32, ctrl: Ctrl, window: u16, data: seq<byte>)

  /** The contents of the two buffers malloc returns to a handshake handler. */
  datatype Heap = Heap(readBuffer: Bytes, writeBuffer: Bytes)

  /** Where the writing thread of a socket is: outside writeLab, in its unlocked loop, in that
      loop after finding no space, or past the loop with a byte count it computed unlocked. */
  datatype Writer =
    | WriteIdle
    | WriteSpin(buf: seq<byte>)
    | WriteFull(buf: seq<byte>)
    | WriteReady(buf: seq<byte>, count: u16)

  /** Where the reading thread of a socket is, with the same four places. */
  datatype Reader =
    | ReadIdle
    | ReadSpin(nbyte: nat)
    | ReadEmpty(nbyte: nat)
    | ReadReady(count: u16)

  /** One atomic step of the system. `toB` or `atB` selects the endpoint. */
  datatype Action =
    | Connect
    | Close(atB: bool)
    | WriteCall(atB: bool, data: seq<byte>)
    | WriteSample(atB: bool)
    | WriteRetry(atB: bool)
    | WriteCommit(atB: bool)
    | ReadCall(atB: bool, size: nat)
    | ReadSample(atB: bool)
    | ReadRetry(atB: bool)
    | ReadCommit(atB: bool)
    | Timer(atB: bool, now: real)
    | Deliver(toB: bool, heap: Heap)
    | Drop(toB: bool, index: nat)

  /** The endpoint an action belongs to, or is delivered to. */
  function AtB(act: Action): bool {
    match act
    case Connect => false
    case Deliver(toB, _) => toB
    case Drop(toB, _) => toB
    case _ => act.atB
  }

  /** Two endpoints and the packets in flight between them, oldest first. */
  datatype Link<E, Q> = Link(a: E, b: E, ab: seq<Q>, ba: seq<Q>)

  /** Exchanging the names of the endpoints. */
  function Flip<E, Q>(l: Link<E, Q>): Link<E, Q> {
    Link(l.b, l.a, l.ba, l.ab)
  }

  /** `l` with the chosen endpoint in the first place. */
  function Seen<E, Q>(l: Link<E, Q>, fromB: bool): Link<E, Q> {
    if fromB then Flip(l) else l
  }

  function DropAt<Q>(ch: seq<Q>, i: nat): seq<Q>
    requires i < |ch|
  {
    ch[..i] + ch[i + 1..]
  }

  function Min(a: int, b: int): int {
    if a < b then a else b
  }
}
