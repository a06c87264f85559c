/** The same protocol with unbounded positions: every counter counts bytes of a stream from its
    start, packets carry positions, and comparisons are exact. No ring, no wrap-around. Module
    Refinement proves that the machine of module Machine does exactly this. */
module Protocol {
  import opened Words
  import opened Tcp

  const LAP: nat := 0xffff

  /** The sending half of an endpoint: whether it is connected, the bytes the application committed,
      and how many of them are sent, acknowledged, and allowed by the last window. `finPos` is the length of the
      stream when the FIN was first sent. */
  datatype Tx = Tx(conn: bool, committed: seq<byte>, sent: nat, acked: nat, front: int,
                   finSent: bool, finPos: nat, ackRecv: bool)

  /** The receiving half: the bytes accepted in order, how many the application has read. */
  datatype Rx = Rx(received: seq<byte>, read: nat, finRecv: bool, ackSent: bool)

  datatype Peer = Peer(state: TcpState, call: bool, timer: real, tx: Tx, rx: Rx,
                       writer: Writer, reader: Reader)

  datatype Segment = Segment(seqPos: int, ackPos: int, ctrl: Ctrl, window: int, data: seq<byte>)

  datatype Outcome = Abort | Done(peer: Peer, out: seq<Segment>)

  type Net = Link<Peer, Segment>

  datatype Result = Crash | Next(net: Net)

  /** Bytes were committed after the FIN went out. */
  predicate Late(tx: Tx) {
    tx.finSent && |tx.committed| > tx.finPos
  }

  const TX0 := Tx(false, [], 0, 0, LAP, false, 0, false)
  const RX0 := Rx([], 0, false, false)

  function NewPeer(state: TcpState): Peer {
    Peer(state, false, 0.0, TX0, RX0, WriteIdle, ReadIdle)
  }

  const INIT: Net := Link(NewPeer(Closed), NewPeer(Listen), [], [])

  function Window(rx: Rx): int {
    rx.read + LAP - |rx.received|
  }

  function AckSegment(x: Peer, pos: int): Segment {
    Segment(x.tx.acked, pos, CT_ACK, Window(x.rx), [])
  }

  // ----- handlers -----

  function Establish(x: Peer): Peer {
    x.(state := Established, tx := x.tx.(conn := true))
  }

  function OnListen(x: Peer, p: Segment): Outcome {
    if p.ctrl.syn then
      Done(x.(state := SysRecv), [Segment(-1, p.seqPos + 1, CT_SYN_ACK, LAP, [])])
    else
      Done(x, [])
  }

  function OnSysSent(x: Peer, p: Segment): Outcome {
    if p.ctrl.syn && p.ctrl.ack then
      Done(Establish(x), [Segment(0, p.seqPos + 1, CT_ACK, LAP, [])])
    else
      Done(x, [])
  }

  function OnSysRecv(x: Peer, p: Segment): Outcome {
    if p.ctrl.ack then Done(Establish(x), []) else Done(x, [])
  }

  function AckSend(tx: Tx, p: Segment): Tx {
    if p.ackPos == tx.sent then tx.(acked := tx.sent, front := tx.sent + p.window) else tx
  }

  function AckClose(x: Peer): Peer {
    var x1 := if x.tx.finSent then x.(tx := x.tx.(ackRecv := true)) else x;
    if Bits(x1).Complete() then x1.(state := Closed, tx := x1.tx.(conn := false)) else x1
  }

  /** The endpoint's `clstate`. */
  function Bits(x: Peer): CloseState {
    CloseState(x.call, x.tx.finSent, x.rx.ackSent, x.rx.finRecv, x.tx.ackRecv)
  }

  function OnAck(x: Peer, p: Segment): Peer {
    AckClose(x.(tx := AckSend(x.tx, p)))
  }

  function OnFin(x: Peer): Outcome {
    Done(x.(rx := x.rx.(finRecv := true, ackSent := true)), [AckSegment(x, |x.rx.received| + 1)])
  }

  function OnData(x: Peer, p: Segment): Outcome {
    if |p.data| > 0 && p.seqPos == |x.rx.received| then
      if |p.data| > Window(x.rx) then Abort
      else
        var x' := x.(rx := x.rx.(received := x.rx.received + p.data));
        Done(x', [AckSegment(x', |x'.rx.received|)])
    else if p.ctrl == CT_NONE && p.seqPos == |x.rx.received| then
      Done(x, [AckSegment(x, |x.rx.received|)])
    else
      Done(x, [])
  }

  function OnEstablished(x: Peer, p: Segment): Outcome {
    var x1 := if p.ctrl.ack then OnAck(x, p) else x;
    var fin := if p.ctrl.fin then OnFin(x1) else Done(x1, []);
    var data := OnData(fin.peer, p);
    if data.Abort? then Abort else Done(data.peer, fin.out + data.out)
  }

  function Receive(x: Peer, p: Segment): Outcome {
    match x.state
    case Closed => Done(x, [])
    case Listen => OnListen(x, p)
    case SysSent => OnSysSent(x, p)
    case SysRecv => OnSysRecv(x, p)
    case Established => OnEstablished(x, p)
  }

  function Slice(s: seq<byte>, from: int, to: int): seq<byte> {
    if 0 <= from <= to <= |s| then s[from..to] else []
  }

  function DataSegment(x: Peer, from: int, to: int): Segment {
    Segment(x.tx.acked, |x.rx.received|, CT_NONE, LAP, Slice(x.tx.committed, from, to))
  }

  function TickData(x: Peer, now: real): Outcome {
    var tx := x.tx;
    if tx.sent != tx.acked || tx.acked == tx.front then
      if x.timer < now then
        Done(x.(timer := now + 0.5), [DataSegment(x, tx.acked, tx.sent)])
      else
        Done(x, [])
    else
      var len := Min(|tx.committed| - tx.sent, tx.front - tx.sent);
      if len > 0 then
        var x' := x.(tx := tx.(sent := tx.sent + Min(len, MAX_TCP_LEN)), timer := now + 0.5);
        Done(x', [DataSegment(x', tx.sent, x'.tx.sent)])
      else
        Done(x, [])
  }

  /** Everything committed is acknowledged. */
  predicate Drained(tx: Tx) {
    tx.acked == tx.sent == |tx.committed|
  }

  /** asyncSendTCPPacket sends a FIN now, or would once its timer allows. */
  predicate FinDue(x: Peer) {
    && x.tx.conn
    && Drained(x.tx)
    && ((x.rx.finRecv && x.rx.ackSent) || x.call)
    && (!x.tx.finSent || !x.tx.ackRecv)
  }

  function TickFin(x: Peer, now: real): Outcome {
    if FinDue(x) && (!x.tx.finSent || x.timer < now) then
      var finPos := if x.tx.finSent then x.tx.finPos else |x.tx.committed|;
      Done(x.(timer := now + 5.0, tx := x.tx.(finSent := true, finPos := finPos)),
           [Segment(x.tx.acked, |x.rx.received|, CT_FIN, LAP, [])])
    else
      Done(x, [])
  }

  function Tick(x: Peer, now: real): Outcome {
    if !x.tx.conn then Done(x, [])
    else
      var data := TickData(x, now);
      var fin := TickFin(data.peer, now);
      Done(fin.peer, data.out + fin.out)
  }

  // ----- application threads -----

  function SendSpace(tx: Tx): int {
    tx.acked + LAP - |tx.committed|
  }

  function RecvSpace(rx: Rx): int {
    |rx.received| - rx.read
  }

  function Application(x: Peer, act: Action): Peer {
    match act
    case Close(_) =>
      if x.state == Listen then x else x.(call := true)
    case WriteCall(_, data) =>
      if x.writer.WriteIdle? && x.state == Established && !x.rx.finRecv
      then x.(writer := WriteSpin(data)) else x
    case WriteSample(_) =>
      if x.writer.WriteSpin? then
        var count := Min(|x.writer.buf|, SendSpace(x.tx));
        x.(writer := if 0 < count <= LAP then WriteReady(x.writer.buf, count) else WriteFull(x.writer.buf))
      else x
    case WriteRetry(_) =>
      if x.writer.WriteFull?
      then x.(writer := if x.state == Closed then WriteIdle else WriteSpin(x.writer.buf)) else x
    case WriteCommit(_) =>
      if x.writer.WriteReady? then
        var data := Slice(x.writer.buf, 0, x.writer.count);
        x.(writer := WriteIdle, tx := x.tx.(committed := x.tx.committed + data))
      else x
    case ReadCall(_, size) =>
      if x.reader.ReadIdle? && x.state != Listen then x.(reader := ReadSpin(size)) else x
    case ReadSample(_) =>
      if x.reader.ReadSpin? then
        var count := Min(x.reader.nbyte, RecvSpace(x.rx));
        x.(reader := if 0 < count <= LAP then ReadReady(count) else ReadEmpty(x.reader.nbyte))
      else x
    case ReadRetry(_) =>
      if x.reader.ReadEmpty?
      then x.(reader := if x.state == Closed then ReadIdle else ReadSpin(x.reader.nbyte)) else x
    case ReadCommit(_) =>
      if x.reader.ReadReady?
      then x.(reader := ReadIdle, rx := x.rx.(read := x.rx.read + x.reader.count)) else x
    case _ => x
  }

  /** The bytes readLab has handed out so far. */
  function Returned(rx: Rx): seq<byte> {
    Slice(rx.received, 0, rx.read)
  }

  // ----- the network -----

  /** randomDrop may discard a packet whose control byte is zero, anywhere on the way. */
  predicate Droppable(ch: seq<Segment>, i: nat) {
    i < |ch| && ch[i].ctrl == CT_NONE
  }

  /** A step of, or a delivery to, endpoint `a`. */
  function StepA(n: Net, act: Action): Result {
    match act
    case Connect =>
      if n.a.state == Closed && Bits(n.a) == CL_ZERO
      then Next(n.(a := n.a.(state := SysSent), ab := n.ab + [Segment(-1, 0, CT_SYN, LAP, [])]))
      else Next(n)
    case Timer(_, now) =>
      var sent := Tick(n.a, now);
      Next(n.(a := sent.peer, ab := n.ab + sent.out))
    case Deliver(_, _) =>
      if n.ba == [] then Next(n)
      else
        var got := Receive(n.a, n.ba[0]);
        if got.Abort? then Crash
        else Next(n.(a := got.peer, ba := n.ba[1..], ab := n.ab + got.out))
    case Drop(_, i) =>
      if Droppable(n.ba, i) then Next(n.(ba := DropAt(n.ba, i))) else Next(n)
    case _ => Next(n.(a := Application(n.a, act)))
  }

  function Step(n: Net, act: Action): Result {
    if AtB(act) then
      var r := StepA(Flip(n), act);
      if r.Crash? then Crash else Next(Flip(r.net))
    else
      StepA(n, act)
  }

  /** A run: any finite sequence of steps. */
  function Run(acts: seq<Action>): Result {
    if acts == [] then Next(INIT)
    else
      var r := Run(acts[..|acts| - 1]);
      if r.Crash? then Crash else Step(r.net, acts[|acts| - 1])
  }
}
