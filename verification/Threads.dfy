/** What the application threads do, step by step, on every run: readLab, writeLab and closeLab as their
    callers see them. */
module Threads {
  import opened Words
  import opened Tcp
  import M = Machine
  import S = System
  import P = Protocol
  import opened Invariant
  import opened Refinement
  import opened Theorems
  import opened Guarantees
  import opened Closing

  // ----- steps of other parties -----

  /** Neither thread moved, and nothing was committed or returned. */
  predicate SameThreads(h: S.Host, h': S.Host) {
    h'.writer == h.writer && h'.reader == h.reader && h'.committed == h.committed && h'.returned == h.returned
  }

  /** A step of one of the two application threads. */
  predicate IsThreadStep(act: Action) {
    || act.WriteCall? || act.WriteSample? || act.WriteRetry? || act.WriteCommit?
    || act.ReadCall? || act.ReadSample? || act.ReadRetry? || act.ReadCommit?
  }

  /** A step of `act` changes nothing but the host `h` of its own thread. */
  predicate OnlyHost(w: S.World, w': S.World) {
    w'.b == w.b && w'.ab == w.ab && w'.ba == w.ba
  }

  /** Handlers, timers, losses and the other host leave both threads where they are. */
  lemma OthersLeaveThreads(w: S.World, act: Action, fromB: bool)
    requires S.Step(w, act).Next?
    requires !IsThreadStep(act) || AtB(act) != fromB
    ensures SameThreads(Seen(w, fromB).a, Seen(S.Step(w, act).world, fromB).a)
  {
    OnlyOneMoves(w, act);
    StepSees(w, act, AtB(act));
    hide M.Receive, M.Tick, S.Step, M.Connecting;
  }

  // ----- readLab -----

  /** readLab is entered, unless on a listening socket. */
  lemma ReadCallStep(w: S.World, fromB: bool, size: nat)
    ensures var r := S.Step(w, ReadCall(fromB, size));
      && r.Next?
      && var v, v' := Seen(w, fromB), Seen(r.world, fromB);
      && OnlyHost(v, v')
      && v'.a == if v.a.reader == ReadIdle && v.a.sock.state != Listen then v.a.(reader := ReadSpin(size)) else v.a
  {
    StepSees(w, ReadCall(fromB, size), fromB);
  }

  /** A look at the ring: readLab goes on with as many bytes as are asked for and unread, if there
      are any. */
  lemma ReadSampleStep(w: S.World, fromB: bool)
    ensures var r := S.Step(w, ReadSample(fromB));
      && r.Next?
      && var v, v' := Seen(w, fromB), Seen(r.world, fromB);
      && OnlyHost(v, v')
      && (!v.a.reader.ReadSpin? ==> v'.a == v.a)
      && (v.a.reader.ReadSpin? ==>
            var size, unread := v.a.reader.nbyte, |Unread(v.a.sock)|;
            v'.a == v.a.(reader := if size == 0 || unread == 0 then ReadEmpty(size)
                                   else ReadReady(if size < unread then size else unread)))
  {
    StepSees(w, ReadSample(fromB), fromB);
    hide M.RecvSpace;
  }

  /** A look at the state after an empty ring: readLab returns 0 exactly on a closed socket, and
      otherwise looks at the ring again. */
  lemma ReadRetryStep(w: S.World, fromB: bool)
    ensures var r := S.Step(w, ReadRetry(fromB));
      && r.Next?
      && var v, v' := Seen(w, fromB), Seen(r.world, fromB);
      && OnlyHost(v, v')
      && (!v.a.reader.ReadEmpty? ==> v'.a == v.a)
      && (v.a.reader.ReadEmpty? ==>
            v'.a == v.a.(reader := if v.a.sock.state == Closed then ReadIdle else ReadSpin(v.a.reader.nbyte)))
  {
    StepSees(w, ReadRetry(fromB), fromB);
  }

  /** On every run: a step that takes a reader away from an empty ring takes it out of readLab only if
      the socket is closed, and back to the ring only if it is not. */
  lemma ReaderLeaves(heap: Heap, acts: seq<Action>, act: Action, fromB: bool)
    requires S.Run(heap, acts).Next? && S.Step(S.Run(heap, acts).world, act).Next?
    requires Seen(S.Run(heap, acts).world, fromB).a.reader.ReadEmpty?
    ensures var w := S.Run(heap, acts).world;
      var h, h' := Seen(w, fromB).a, Seen(S.Step(w, act).world, fromB).a;
      && (h'.reader == h.reader || h'.reader == ReadIdle || h'.reader == ReadSpin(h.reader.nbyte))
      && (h'.reader == ReadIdle ==> h.sock.state == Closed && act == ReadRetry(fromB))
      && (h'.reader.ReadSpin? ==> h.sock.state != Closed && act == ReadRetry(fromB))
  {
    var w := S.Run(heap, acts).world;
    hide S.Run;
    if !IsThreadStep(act) || AtB(act) != fromB {
      hide S.Step;
      OthersLeaveThreads(w, act, fromB);
    } else {
      StepSees(w, act, fromB);
      hide S.Step, M.Commit, M.Take, M.SendSpace, M.RecvSpace;
    }
  }

  /** What readLab's 0 means, on every run: if the ring is still empty at the step that leaves readLab,
      everything the peer had committed when its FIN first went out has been returned, and on a
      disciplined run all it ever committed. */
  lemma ReadEnds(heap: Heap, acts: seq<Action>, act: Action, fromB: bool) returns (k: nat)
    requires S.Run(heap, acts).Next? && S.Step(S.Run(heap, acts).world, act).Next?
    requires var w := Seen(S.Run(heap, acts).world, fromB);
      w.b.reader.ReadEmpty? && w.b.sock.cl.Complete() && Unread(w.b.sock) == []
    requires Seen(S.Step(S.Run(heap, acts).world, act).world, fromB).b.reader == ReadIdle
    ensures FinSentAt(heap, acts, fromB, k)
    ensures var w := Seen(S.Run(heap, acts).world, fromB);
      && CommittedAt(heap, acts, fromB, k) <= w.b.returned <= w.a.committed
      && (Disciplined(heap, acts) ==> w.b.returned == w.a.committed)
  {
    ReaderLeaves(heap, acts, act, !fromB);
    StreamIntegrity(heap, acts);
    hide S.Run, S.Step, Disciplined;
    assert M.RecvSpace(Seen(S.Run(heap, acts).world, fromB).b.sock) == 0;
    hide Unread, M.RecvSpace;
    k := EndOfFile(heap, acts, fromB);
  }

  lemma Cut(s: seq<byte>, from: nat, count: nat)
    requires from + count <= |s|
    ensures s[from..][..count] == s[from..from + count] && s[from..][count..] == s[from + count..]
    ensures s[..from] + s[from..from + count] == s[..from + count]
  {
  }

  lemma ReturnedIs(h: S.Host, x: P.Peer)
    requires HostMatches(h, x) && Bounded(x)
    ensures x.rx.read <= |x.rx.received| && h.returned == x.rx.received[..x.rx.read]
    ensures Unread(h.sock) == x.rx.received[x.rx.read..]
  {
    UnreadIs(h.sock, x);
    hide SockMatches, Unread;
  }

  lemma CommitTakes(h: S.Host, x: P.Peer, h': S.Host, x': P.Peer, count: nat)
    requires HostMatches(h, x) && Bounded(x) && HostMatches(h', x') && Bounded(x')
    requires x'.rx == x.rx.(read := x.rx.read + count)
    ensures |Unread(h.sock)| >= count
    ensures h'.returned == h.returned + Unread(h.sock)[..count] && Unread(h'.sock) == Unread(h.sock)[count..]
  {
    hide HostMatches, Bounded, Unread;
    ReturnedIs(h, x);
    ReturnedIs(h', x');
    Cut(x.rx.received, x.rx.read, count);
  }

  lemma ReadCommitMoves(w: S.World, n: P.Net, act: Action)
    requires act.ReadCommit? && w.a.reader.ReadReady? && n.a.reader == w.a.reader
    ensures S.StepA(w, act).Next? && P.StepA(n, act).Next?
    ensures var w', n' := S.StepA(w, act).world, P.StepA(n, act).net;
      && OnlyHost(w, w') && w'.a.reader == ReadIdle && w'.a.writer == w.a.writer && w'.a.committed == w.a.committed
      && n'.a.rx == n.a.rx.(read := n.a.rx.read + w.a.reader.count)
  {
  }

  lemma ReadyCount(h: S.Host, x: P.Peer)
    requires HostMatches(h, x) && Endpoint(x) && h.reader.ReadReady?
    ensures x.reader == h.reader && 0 < h.reader.count
  {
    hide SockMatches;
  }

  /** On every run: the locked copy hands out exactly the sampled number of the bytes that had arrived
      and were unread, oldest first, and leaves the rest unread. */
  lemma ReadCommitStep(heap: Heap, acts: seq<Action>, fromB: bool)
    requires S.Run(heap, acts).Next? && Seen(S.Run(heap, acts).world, fromB).a.reader.ReadReady?
    ensures var r := S.Step(S.Run(heap, acts).world, ReadCommit(fromB));
      && r.Next?
      && var v, v' := Seen(S.Run(heap, acts).world, fromB), Seen(r.world, fromB);
      var count := v.a.reader.count;
      && OnlyHost(v, v') && 0 < count <= |Unread(v.a.sock)|
      && v'.a.returned == v.a.returned + Unread(v.a.sock)[..count]
      && Unread(v'.a.sock) == Unread(v.a.sock)[count..]
      && v'.a.reader == ReadIdle && v'.a.writer == v.a.writer && v'.a.committed == v.a.committed
  {
    var act := ReadCommit(fromB);
    hide S.Run, P.Run, Direction, Endpoint, Phase, HostMatches, Bounded, Unread, S.StepA, P.StepA, S.Step, P.Step;
    var v, n := AtSide(heap, acts, fromB);
    ReadyCount(v.a, n.a);
    ReadCommitMoves(v, n, act);
    StepSees(S.Run(heap, acts).world, act, fromB);
    NetStepSees(P.Run(acts).net, act, fromB);
    var v', n' := After(heap, acts, act, fromB);
    CommitTakes(v.a, n.a, v'.a, n'.a, v.a.reader.count);
  }

  /** On every run, readLab's three parts in a row return the first bytes that had arrived and were
      unread: as many as there are, up to the number asked for. */
  lemma ReadReturns(heap: Heap, acts: seq<Action>, fromB: bool, size: nat)
    requires S.Run(heap, acts).Next? && size > 0
    requires var h := Seen(S.Run(heap, acts).world, fromB).a;
      h.reader == ReadIdle && h.sock.state != Listen && Unread(h.sock) != []
    ensures var after := S.Run(heap, acts + [ReadCall(fromB, size)] + [ReadSample(fromB)] + [ReadCommit(fromB)]);
      && after.Next?
      && var h, h' := Seen(S.Run(heap, acts).world, fromB).a, Seen(after.world, fromB).a;
      var count := if size < |Unread(h.sock)| then size else |Unread(h.sock)|;
      && h'.returned == h.returned + Unread(h.sock)[..count] && Unread(h'.sock) == Unread(h.sock)[count..]
      && h'.reader == ReadIdle && h'.committed == h.committed
  {
    hide S.Run, S.Step, Unread;
    var w := S.Run(heap, acts).world;
    ReadCallStep(w, fromB, size);
    WorldAppend(heap, acts, ReadCall(fromB, size));
    var acts1 := acts + [ReadCall(fromB, size)];
    ReadSampleStep(S.Run(heap, acts1).world, fromB);
    WorldAppend(heap, acts1, ReadSample(fromB));
    var acts2 := acts1 + [ReadSample(fromB)];
    ReadCommitStep(heap, acts2, fromB);
    WorldAppend(heap, acts2, ReadCommit(fromB));
  }

  // ----- writeLab -----

  /** The ring space of a host: 65535 less what is committed and not acknowledged. */
  function Space(h: S.Host): int {
    P.LAP - Unacknowledged(h.sock)
  }

  lemma SpaceIs(s: M.Sock)
    ensures M.SendSpace(s) == P.LAP - Unacknowledged(s)
  {
    var free := P.LAP - U16(s.sendFront - s.ackBack) as int;
    U16OfDifference(s.sendFront - s.ackBack, P.LAP);
    assert P.LAP - (s.sendFront - s.ackBack) as int == s.ackBack - 1 - s.sendFront + 0x1_0000;
    U16Shift(s.ackBack - 1 - s.sendFront, 1);
  }

  /** writeLab is entered exactly on an established socket that has not seen its peer's FIN. */
  lemma WriteCallStep(w: S.World, fromB: bool, data: seq<byte>)
    ensures var r := S.Step(w, WriteCall(fromB, data));
      && r.Next?
      && var v, v' := Seen(w, fromB), Seen(r.world, fromB);
      && OnlyHost(v, v')
      && v'.a == if v.a.writer == WriteIdle && v.a.sock.state == Established && !v.a.sock.cl.finRecv
                 then v.a.(writer := WriteSpin(data)) else v.a
  {
    StepSees(w, WriteCall(fromB, data), fromB);
  }

  /** A look at the ring: writeLab goes on with as many bytes as it was given and there is space for. */
  lemma WriteSampleStep(w: S.World, fromB: bool)
    ensures var r := S.Step(w, WriteSample(fromB));
      && r.Next?
      && var v, v' := Seen(w, fromB), Seen(r.world, fromB);
      && OnlyHost(v, v')
      && (!v.a.writer.WriteSpin? ==> v'.a == v.a)
      && (v.a.writer.WriteSpin? ==>
            var buf, space := v.a.writer.buf, Space(v.a);
            v'.a == v.a.(writer := if |buf| == 0 || space == 0 then WriteFull(buf)
                                   else WriteReady(buf, if |buf| < space then |buf| else space)))
  {
    StepSees(w, WriteSample(fromB), fromB);
    SpaceIs(Seen(w, fromB).a.sock);
    hide M.SendSpace, Unacknowledged;
  }

  /** A look at the state after a full ring: writeLab gives up exactly on a closed socket. */
  lemma WriteRetryStep(w: S.World, fromB: bool)
    ensures var r := S.Step(w, WriteRetry(fromB));
      && r.Next?
      && var v, v' := Seen(w, fromB), Seen(r.world, fromB);
      && OnlyHost(v, v')
      && (!v.a.writer.WriteFull? ==> v'.a == v.a)
      && (v.a.writer.WriteFull? ==>
            v'.a == v.a.(writer := if v.a.sock.state == Closed then WriteIdle else WriteSpin(v.a.writer.buf)))
  {
    StepSees(w, WriteRetry(fromB), fromB);
  }

  lemma WriteCommitMoves(w: S.World, act: Action)
    requires act.WriteCommit? && w.a.writer.WriteReady? && w.a.writer.count <= |w.a.writer.buf|
    ensures S.StepA(w, act).Next?
    ensures var w' := S.StepA(w, act).world;
      && OnlyHost(w, w') && w'.a.writer == WriteIdle && w'.a.reader == w.a.reader && w'.a.returned == w.a.returned
      && w'.a.committed == w.a.committed + w.a.writer.buf[..w.a.writer.count]
      && w'.a.sock.sendFront == U16(w.a.sock.sendFront + w.a.writer.count) && w'.a.sock.ackBack == w.a.sock.ackBack
  {
  }

  /** On every run: the locked copy commits exactly the sampled number of the first bytes writeLab was
      given, behind what was committed. */
  lemma WriteCommitStep(heap: Heap, acts: seq<Action>, fromB: bool)
    requires S.Run(heap, acts).Next? && Seen(S.Run(heap, acts).world, fromB).a.writer.WriteReady?
    ensures var r := S.Step(S.Run(heap, acts).world, WriteCommit(fromB));
      && r.Next?
      && var v, v' := Seen(S.Run(heap, acts).world, fromB), Seen(r.world, fromB);
      var buf, count := v.a.writer.buf, v.a.writer.count;
      && OnlyHost(v, v') && 0 < count <= |buf|
      && v'.a.committed == v.a.committed + buf[..count]
      && v'.a.writer == WriteIdle && v'.a.reader == v.a.reader && v'.a.returned == v.a.returned
  {
    var act := WriteCommit(fromB);
    SampledSpaceIsStable(heap, acts);
    hide S.Run, S.Step, S.StepA;
    WriteCommitMoves(Seen(S.Run(heap, acts).world, fromB), act);
    StepSees(S.Run(heap, acts).world, act, fromB);
  }

  /** On every run, writeLab's three parts in a row commit the first bytes of the buffer: as many as
      it holds, up to the space in the ring. */
  lemma WriteCommits(heap: Heap, acts: seq<Action>, fromB: bool, data: seq<byte>)
    requires S.Run(heap, acts).Next? && data != []
    requires var h := Seen(S.Run(heap, acts).world, fromB).a;
      h.writer == WriteIdle && h.sock.state == Established && !h.sock.cl.finRecv && Space(h) > 0
    ensures var after := S.Run(heap, acts + [WriteCall(fromB, data)] + [WriteSample(fromB)] + [WriteCommit(fromB)]);
      && after.Next?
      && var h, h' := Seen(S.Run(heap, acts).world, fromB).a, Seen(after.world, fromB).a;
      && h'.committed == h.committed + data[..if |data| < Space(h) then |data| else Space(h)]
      && h'.writer == WriteIdle && h'.returned == h.returned
  {
    hide S.Run, S.Step, Unacknowledged;
    var w := S.Run(heap, acts).world;
    WriteCallStep(w, fromB, data);
    WorldAppend(heap, acts, WriteCall(fromB, data));
    var acts1 := acts + [WriteCall(fromB, data)];
    WriteSampleStep(S.Run(heap, acts1).world, fromB);
    WorldAppend(heap, acts1, WriteSample(fromB));
    var acts2 := acts1 + [WriteSample(fromB)];
    WriteCommitStep(heap, acts2, fromB);
    WorldAppend(heap, acts2, WriteCommit(fromB));
  }

  /** The bytes a writing thread was given, wherever it is in writeLab. */
  function Given(t: Writer): seq<byte> {
    if t.WriteIdle? then [] else t.buf
  }

  /** The writing thread entered writeLab in step `k` with `data`, and has been inside since. */
  ghost predicate EnteredAt(heap: Heap, acts: seq<Action>, fromB: bool, k: nat, data: seq<byte>) {
    && k < |acts| && acts[k] == WriteCall(fromB, data)
    && forall j :: k < j <= |acts| ==> Inside(heap, acts[..j], fromB)
  }

  ghost predicate Inside(heap: Heap, acts: seq<Action>, fromB: bool) {
    S.Run(heap, acts).Next? && !Seen(S.Run(heap, acts).world, fromB).a.writer.WriteIdle?
  }

  lemma WriterKeepsBuffer(w: S.World, act: Action, fromB: bool)
    requires S.Step(w, act).Next? && !Seen(S.Step(w, act).world, fromB).a.writer.WriteIdle?
    ensures var t, t' := Seen(w, fromB).a.writer, Seen(S.Step(w, act).world, fromB).a.writer;
      if t.WriteIdle? then act.WriteCall? && act == WriteCall(fromB, Given(t')) else Given(t') == Given(t)
  {
    if !IsThreadStep(act) || AtB(act) != fromB {
      hide S.Step;
      OthersLeaveThreads(w, act, fromB);
    } else {
      StepSees(w, act, fromB);
      hide S.Step, M.Commit, M.Take, M.SendSpace, M.RecvSpace;
    }
  }

  /** On every run, what a writing thread holds, and so commits the first bytes of, is what its last
      WriteCall was given. */
  lemma {:induction false} BufferIsGiven(heap: Heap, acts: seq<Action>, fromB: bool) returns (k: nat)
    requires S.Run(heap, acts).Next? && !Seen(S.Run(heap, acts).world, fromB).a.writer.WriteIdle?
    ensures EnteredAt(heap, acts, fromB, k, Given(Seen(S.Run(heap, acts).world, fromB).a.writer))
    decreases |acts|
  {
    hide S.Step;
    if acts == [] {
      assert false;
    }
    var before, act := acts[..|acts| - 1], acts[|acts| - 1];
    WriterKeepsBuffer(S.Run(heap, before).world, act, fromB);
    assert acts[..|acts|] == acts;
    if Seen(S.Run(heap, before).world, fromB).a.writer.WriteIdle? {
      k := |before|;
    } else {
      k := BufferIsGiven(heap, before, fromB);
      forall j | k < j <= |acts|
        ensures Inside(heap, acts[..j], fromB)
      {
        if j < |acts| { assert before[..j] == acts[..j]; }
      }
    }
  }

  // ----- closeLab -----

  /** closeLab marks any socket but a listening one, and does nothing else. */
  lemma CloseStep(w: S.World, fromB: bool)
    ensures var r := S.Step(w, Close(fromB));
      && r.Next?
      && var v, v' := Seen(w, fromB), Seen(r.world, fromB);
      && OnlyHost(v, v') && SameThreads(v.a, v'.a)
      && v'.a.sock == if v.a.sock.state == Listen then v.a.sock
                      else v.a.sock.(cl := CloseState(true, v.a.sock.cl.finSent, v.a.sock.cl.ackSent,
                                                      v.a.sock.cl.finRecv, v.a.sock.cl.ackRecv))
  {
    StepSees(w, Close(fromB), fromB);
  }
}
