/** The whole machine: two hosts running the socket code, their application threads, and the
    packets in flight between them. One step is one handler, one timer task, one locked or sampled
    part of an application call, or one loss. */
module System {
  import opened Words
  import opened Ring
  import opened Tcp
  import opened Machine

  /** A socket, its application threads, and what the application has seen: all bytes writeLab
      committed and all bytes readLab returned. */
  datatype Host = Host(sock: Sock, writer: Writer, reader: Reader,
                       committed: seq<byte>, returned: seq<byte>)

  type World = Link<Host, Packet>

  datatype Result = Crash | Next(world: World)

  function NewHost(state: TcpState, heap: Heap): Host {
    Host(Fresh(state, heap), WriteIdle, ReadIdle, [], [])
  }

  /** A closed client socket at `a`, a listening one at `b`, nothing in flight. */
  function Init(heap: Heap): World {
    Link(NewHost(Closed, heap), NewHost(Listen, heap), [], [])
  }

  /** The application threads: writeLab, readLab and closeLab, part by part. */
  function Application(h: Host, act: Action): Host {
    var s := h.sock;
    match act
    case Close(_) =>
      if s.state == Listen then h else h.(sock := s.(cl := s.cl.(call := true)))
    case WriteCall(_, data) =>
      if h.writer.WriteIdle? && !WriteRefused(s) then h.(writer := WriteSpin(data)) else h
    case WriteSample(_) =>
      if h.writer.WriteSpin? then
        var count := Min(|h.writer.buf|, SendSpace(s));
        h.(writer := if count > 0 then WriteReady(h.writer.buf, count) else WriteFull(h.writer.buf))
      else h
    case WriteRetry(_) =>
      if h.writer.WriteFull?
      then h.(writer := if s.state == Closed then WriteIdle else WriteSpin(h.writer.buf)) else h
    case WriteCommit(_) =>
      if h.writer.WriteReady? && h.writer.count <= |h.writer.buf| then
        var data := h.writer.buf[..h.writer.count];
        h.(writer := WriteIdle, sock := Commit(s, data), committed := h.committed + data)
      else h
    case ReadCall(_, size) =>
      if h.reader.ReadIdle? && s.state != Listen then h.(reader := ReadSpin(size)) else h
    case ReadSample(_) =>
      if h.reader.ReadSpin? then
        var count := Min(h.reader.nbyte, RecvSpace(s));
        h.(reader := if count > 0 then ReadReady(count) else ReadEmpty(h.reader.nbyte))
      else h
    case ReadRetry(_) =>
      if h.reader.ReadEmpty?
      then h.(reader := if s.state == Closed then ReadIdle else ReadSpin(h.reader.nbyte)) else h
    case ReadCommit(_) =>
      if h.reader.ReadReady? then
        h.(reader := ReadIdle, sock := Take(s, h.reader.count),
           returned := h.returned + Get(s.readRing, s.recvBack, h.reader.count))
      else h
    case _ => h
  }

  /** A step of, or a delivery to, host `a`. */
  function StepA(w: World, act: Action): Result {
    match act
    case Connect =>
      if w.a.sock.state == Closed && w.a.sock.cl == CL_ZERO then
        var sent := Connecting(w.a.sock);
        Next(w.(a := w.a.(sock := sent.sock), ab := w.ab + sent.out))
      else Next(w)
    case Timer(_, now) =>
      var sent := Tick(w.a.sock, now);
      Next(w.(a := w.a.(sock := sent.sock), ab := w.ab + sent.out))
    case Deliver(_, heap) =>
      if w.ba == [] then Next(w)
      else
        var got := Receive(w.a.sock, w.ba[0], heap);
        if got.Abort? then Crash
        else Next(w.(a := w.a.(sock := got.sock), ba := w.ba[1..], ab := w.ab + got.out))
    case Drop(_, i) =>
      if i < |w.ba| && w.ba[i].ctrl == CT_NONE then Next(w.(ba := DropAt(w.ba, i))) else Next(w)
    case _ => Next(w.(a := Application(w.a, act)))
  }

  function Step(w: World, act: Action): Result {
    if AtB(act) then
      var r := StepA(Flip(w), act);
      if r.Crash? then Crash else Next(Flip(r.world))
    else
      StepA(w, act)
  }

  /** A run from `Init(heap)`: any finite sequence of steps. */
  function Run(heap: Heap, acts: seq<Action>): Result {
    if acts == [] then Next(Init(heap))
    else
      var r := Run(heap, acts[..|acts| - 1]);
      if r.Crash? then Crash else Step(r.world, acts[|acts| - 1])
  }
}
