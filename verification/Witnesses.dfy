/** Concrete runs showing that the conditions of the guarantees are needed: writes after the FIN, and
    readLab's two unlocked reads taken at different instants. */
module Witnesses {
  import opened Words
  import opened Tcp
  import S = System
  import P = Protocol
  import opened Invariant
  import opened Refinement
  import opened Simulation
  import opened Theorems
  import opened Moments
  import opened Guarantees
  import opened Closing
  import M = Machine

  /** Consecutive states, from the first on. */
  ghost predicate Chain(nets: seq<P.Net>, acts: seq<Action>) {
    && |nets| == |acts| + 1
    && forall i :: 0 <= i < |acts| ==> P.Step(nets[i], acts[i]) == P.Next(nets[i + 1])
  }

  lemma {:induction false} ChainRuns(before: seq<Action>, nets: seq<P.Net>, acts: seq<Action>)
    requires Chain(nets, acts) && P.Run(before) == P.Next(nets[0])
    ensures P.Run(before + acts) == P.Next(nets[|acts|])
  {
    if acts == [] {
      assert before + acts == before;
    } else {
      var most := acts[..|acts| - 1];
      assert (before + acts)[..|before + acts| - 1] == before + most;
      ChainRuns(before, nets[..|acts|], most);
    }
  }

  function Connected(heap: Heap): seq<Action> {
    [Connect, Deliver(true, heap), Deliver(false, heap), Deliver(true, heap)]
  }

  const OPEN := P.Establish(P.NewPeer(Established))

  const CALLING := P.NewPeer(SysSent)
  const CALLED := P.NewPeer(SysRecv)

  lemma HandshakeStarts(heap: Heap)
    ensures P.Step(P.INIT, Connect) == P.Next(Link(CALLING, P.NewPeer(Listen), [SYN], []))
    ensures P.Step(Link(CALLING, P.NewPeer(Listen), [SYN], []), Deliver(true, heap))
            == P.Next(Link(CALLING, CALLED, [], [SYN_ACK]))
  {
    assert [SYN][1..] == [];
  }

  lemma HandshakeEnds(heap: Heap)
    ensures P.Step(Link(CALLING, CALLED, [], [SYN_ACK]), Deliver(false, heap))
            == P.Next(Link(OPEN, CALLED, [HANDSHAKE_ACK], []))
    ensures P.Step(Link(OPEN, CALLED, [HANDSHAKE_ACK], []), Deliver(true, heap)) == P.Next(Link(OPEN, OPEN, [], []))
  {
    assert [SYN_ACK][1..] == [] && [HANDSHAKE_ACK][1..] == [];
  }

  lemma Handshake(heap: Heap)
    ensures P.Run(Connected(heap)) == P.Next(Link(OPEN, OPEN, [], []))
  {
    hide P.Step;
    HandshakeStarts(heap);
    HandshakeEnds(heap);
    var nets := [P.INIT, Link(CALLING, P.NewPeer(Listen), [SYN], []), Link(CALLING, CALLED, [], [SYN_ACK]),
                 Link(OPEN, CALLED, [HANDSHAKE_ACK], []), Link(OPEN, OPEN, [], [])];
    assert P.Run([]) == P.Next(P.INIT);
    hide P.Run;
    assert Chain(nets, Connected(heap));
    ChainRuns([], nets, Connected(heap));
    assert [] + Connected(heap) == Connected(heap);
  }

  // ----- a write after the FIN -----

  /** a closes and its FIN goes out; a writes one byte more, and it goes out too. */
  function LateSent(heap: Heap): seq<Action> {
    Connected(heap)
    + [Close(false), Timer(false, 1.0)]
    + [WriteCall(false, [7]), WriteSample(false), WriteCommit(false), Timer(false, 2.0)]
  }

  /** That segment is lost, and b answers the FIN. */
  function LateLost(heap: Heap): seq<Action> {
    LateSent(heap) + [Drop(true, 1), Deliver(true, heap)]
  }

  /** a takes the answer. */
  function LateWrite(heap: Heap): seq<Action> {
    LateLost(heap) + [Deliver(false, heap)]
  }

  /** Instead, nothing is lost. */
  function LateKept(heap: Heap): seq<Action> {
    LateSent(heap) + [Deliver(true, heap), Deliver(true, heap)]
  }

  const FIN := P.Segment(0, 0, CT_FIN, P.LAP, [])
  const FIN_ACK := P.Segment(0, 1, CT_ACK, P.LAP, [])
  const CLOSING := OPEN.(call := true, timer := 6.0, tx := OPEN.tx.(finSent := true))
  const WRITTEN := CLOSING.(tx := CLOSING.tx.(committed := [7]))
  const SENT := WRITTEN.(timer := 2.5, tx := WRITTEN.tx.(sent := 1))
  const FOOLED := SENT.(tx := SENT.tx.(acked := 1, front := 0x1_0000, ackRecv := true))
  const FINISHED := OPEN.(rx := P.RX0.(finRecv := true, ackSent := true))

  lemma LateWriteCommits(n: P.Net)
    requires n == Link(OPEN, OPEN, [], [])
    ensures var n5 := n.(a := OPEN.(call := true));
      var n6 := Link(CLOSING, OPEN, [FIN], []);
      var n7 := n6.(a := CLOSING.(writer := WriteSpin([7])));
      var n8 := n6.(a := CLOSING.(writer := WriteReady([7], 1)));
      && P.Step(n, Close(false)) == P.Next(n5)
      && P.Step(n5, Timer(false, 1.0)) == P.Next(n6)
      && P.Step(n6, WriteCall(false, [7])) == P.Next(n7)
      && P.Step(n7, WriteSample(false)) == P.Next(n8)
      && P.Step(n8, WriteCommit(false)) == P.Next(Link(WRITTEN, OPEN, [FIN], []))
  {
    assert P.TX0.committed + P.Slice([7], 0, 1) == [7];
  }

  const BYTE := P.Segment(0, 0, CT_NONE, P.LAP, [7])

  lemma LateWriteDropped(n: P.Net)
    requires n == Link(WRITTEN, OPEN, [FIN], [])
    ensures P.Step(n, Timer(false, 2.0)) == P.Next(Link(SENT, OPEN, [FIN, BYTE], []))
    ensures P.Step(Link(SENT, OPEN, [FIN, BYTE], []), Drop(true, 1)) == P.Next(Link(SENT, OPEN, [FIN], []))
  {
    assert P.Slice([7], 0, 1) == [7];
    assert [FIN] + [BYTE] == [FIN, BYTE] && DropAt([FIN, BYTE], 1) == [FIN];
  }

  lemma LateWriteAnswered(n: P.Net, heap: Heap)
    requires n == Link(SENT, OPEN, [FIN], [])
    ensures P.Step(n, Deliver(true, heap)) == P.Next(Link(SENT, FINISHED, [], [FIN_ACK]))
    ensures P.Step(Link(SENT, FINISHED, [], [FIN_ACK]), Deliver(false, heap))
            == P.Next(Link(FOOLED, FINISHED, [], []))
  {
    assert [FIN][1..] == [] && [FIN_ACK][1..] == [];
  }

  lemma LateSentRuns(heap: Heap)
    ensures P.Run(LateSent(heap)) == P.Next(Link(SENT, OPEN, [FIN, BYTE], []))
  {
    hide P.Step, P.Run;
    Handshake(heap);
    var n4 := Link(OPEN, OPEN, [], []);
    LateWriteCommits(n4);
    var n5 := n4.(a := OPEN.(call := true));
    var n6 := Link(CLOSING, OPEN, [FIN], []);
    var n7 := n6.(a := CLOSING.(writer := WriteSpin([7])));
    var n8 := n6.(a := CLOSING.(writer := WriteReady([7], 1)));
    var n9 := Link(WRITTEN, OPEN, [FIN], []);
    LateWriteDropped(n9);
    var nets := [n4, n5, n6, n7, n8, n9, Link(SENT, OPEN, [FIN, BYTE], [])];
    var acts := LateSent(heap)[|Connected(heap)|..];
    assert Chain(nets, acts);
    ChainRuns(Connected(heap), nets, acts);
    assert Connected(heap) + acts == LateSent(heap);
  }

  lemma LateLostRuns(heap: Heap)
    ensures P.Run(LateLost(heap)) == P.Next(Link(SENT, FINISHED, [], [FIN_ACK]))
    ensures P.Run(LateWrite(heap)) == P.Next(Link(FOOLED, FINISHED, [], []))
  {
    hide P.Step, P.Run;
    LateSentRuns(heap);
    LateWriteDropped(Link(WRITTEN, OPEN, [FIN], []));
    var n11 := Link(SENT, OPEN, [FIN], []);
    LateWriteAnswered(n11, heap);
    var n12 := Link(SENT, FINISHED, [], [FIN_ACK]);
    var acts := [Drop(true, 1), Deliver(true, heap)];
    assert Chain([Link(SENT, OPEN, [FIN, BYTE], []), n11, n12], acts);
    ChainRuns(LateSent(heap), [Link(SENT, OPEN, [FIN, BYTE], []), n11, n12], acts);
    RunAppend(LateLost(heap), Deliver(false, heap));
  }

  const BYTE_ACK := P.Segment(0, 1, CT_ACK, 0xfffe, [])
  const CONTENT := FINISHED.(rx := FINISHED.rx.(received := [7]))

  lemma LateKeptSteps(heap: Heap)
    ensures P.Step(Link(SENT, OPEN, [FIN, BYTE], []), Deliver(true, heap))
            == P.Next(Link(SENT, FINISHED, [BYTE], [FIN_ACK]))
    ensures P.Step(Link(SENT, FINISHED, [BYTE], [FIN_ACK]), Deliver(true, heap))
            == P.Next(Link(SENT, CONTENT, [], [FIN_ACK, BYTE_ACK]))
  {
    assert [FIN, BYTE][1..] == [BYTE] && [BYTE][1..] == [] && P.RX0.received + [7] == [7];
    assert [FIN_ACK] + [BYTE_ACK] == [FIN_ACK, BYTE_ACK];
  }

  lemma LateKeptRuns(heap: Heap)
    ensures P.Run(LateKept(heap)) == P.Next(Link(SENT, CONTENT, [], [FIN_ACK, BYTE_ACK]))
  {
    hide P.Step, P.Run;
    LateSentRuns(heap);
    LateKeptSteps(heap);
    var nets := [Link(SENT, OPEN, [FIN, BYTE], []), Link(SENT, FINISHED, [BYTE], [FIN_ACK]),
                 Link(SENT, CONTENT, [], [FIN_ACK, BYTE_ACK])];
    var acts := [Deliver(true, heap), Deliver(true, heap)];
    assert Chain(nets, acts);
    ChainRuns(LateSent(heap), nets, acts);
  }

  /** A run in which host a stays as it is. */
  lemma {:induction false} OnlyBMoves(heap: Heap, acts: seq<Action>, more: seq<Action>)
    requires S.Run(heap, acts + more).Next? && forall act :: act in more ==> AtB(act)
    ensures S.Run(heap, acts).Next? && S.Run(heap, acts + more).world.a == S.Run(heap, acts).world.a
  {
    hide S.Step, S.StepA;
    if more == [] {
      assert acts + more == acts;
    } else {
      var most := more[..|more| - 1];
      assert (acts + more)[..|acts + more| - 1] == acts + most;
      OnlyBMoves(heap, acts, most);
      OnlyOneMoves(S.Run(heap, acts + most).world, more[|more| - 1]);
    }
  }

  /** No test at the sender can be exact: two runs end with the very same host a and the same matching
      ACK next in the channel, and in one of them b has the byte, in the other it has not. */
  lemma SenderCannotTell(heap: Heap)
    ensures S.Run(heap, LateLost(heap)).Next? && S.Run(heap, LateKept(heap)).Next?
    ensures var w, v := S.Run(heap, LateLost(heap)).world, S.Run(heap, LateKept(heap)).world;
      && w.a == v.a && |w.ba| > 0 && |v.ba| > 0 && w.ba[0] == v.ba[0]
      && w.ba[0].ctrl.ack && U16(w.ba[0].ackNum) == w.a.sock.sendBack && w.a.sock.state == Established
      && |Arrived(w.b)| != SentCount(w.a) && |Arrived(v.b)| == SentCount(v.a)
  {
    hide P.Run, S.Run, HostMatches, CarriesAll, Bounded, Direction, Endpoint, Phase, SentCount, Arrived, U16;
    LateLostRuns(heap);
    LateKeptRuns(heap);
    RunMatches(heap, LateLost(heap));
    RunMatches(heap, LateKept(heap));
    OnlyBMoves(heap, LateSent(heap), [Drop(true, 1), Deliver(true, heap)]);
    OnlyBMoves(heap, LateSent(heap), [Deliver(true, heap), Deliver(true, heap)]);
    var w, n := At(heap, LateLost(heap));
    var v, m := At(heap, LateKept(heap));
    CannotTellView(w, n, v, m);
  }

  lemma CannotTellView(w: S.World, n: P.Net, v: S.World, m: P.Net)
    requires Matches(w, n) && Matches(v, m) && Bounded(n.a) && Bounded(n.b) && Bounded(m.a) && Bounded(m.b)
    requires n == Link(SENT, FINISHED, [], [FIN_ACK]) && m == Link(SENT, CONTENT, [], [FIN_ACK, BYTE_ACK])
    ensures |w.ba| > 0 && |v.ba| > 0 && w.ba[0] == v.ba[0]
    ensures w.ba[0].ctrl.ack && U16(w.ba[0].ackNum) == w.a.sock.sendBack && w.a.sock.state == Established
    ensures |Arrived(w.b)| != SentCount(w.a) && |Arrived(v.b)| == SentCount(v.a)
  {
    SentCountIs(w.a, n.a);
    SentCountIs(v.a, m.a);
    ArrivedIs(w.b, n.b);
    ArrivedIs(v.b, m.b);
    BitsMatch(w.a, n.a);
    SendBackIs(w.a.sock, n.a);
    hide SentCount, Arrived, SockMatches, Bounded;
    assert Carries(w.ba[0], FIN_ACK) && Carries(v.ba[0], FIN_ACK);
  }

  /** Without discipline a byte can be acknowledged that never arrived and never will: the FIN's
      ACK carries ackNum + 1, which is also the end of a one-byte segment committed after it. */
  lemma LateWriteLosesByte(heap: Heap)
    ensures S.Run(heap, LateWrite(heap)).Next?
    ensures var w := S.Run(heap, LateWrite(heap)).world;
      && w.a.committed == [7] && SentCount(w.a) == 1 && Settled(w.a.sock)
      && Arrived(w.b) == [] && w.b.sock.ackNum != w.a.sock.seqNum
      && w.b.sock.cl.finRecv && WindowEnd(w.a) == |w.b.returned| + P.LAP + 1
      && w.ab == [] && w.ba == []
    ensures !Disciplined(heap, LateWrite(heap))
  {
    hide P.Run, S.Run, Disciplined;
    LateLostRuns(heap);
    RunMatches(heap, LateWrite(heap));
    var w, n := At(heap, LateWrite(heap));
    SentCountIs(w.a, n.a);
    WindowEndIs(w.a, n.a);
    ArrivedIs(w.b, n.b);
    if Disciplined(heap, LateWrite(heap)) {
      DisciplineIsOnTime(heap, LateWrite(heap));
      assert false;
    }
  }

  /** a writes once more, and that byte is sent too. */
  function WriteOn(heap: Heap): seq<Action> {
    LateWrite(heap) + [WriteCall(false, [8]), WriteSample(false), WriteCommit(false), Timer(false, 3.0)]
  }

  const MORE := FOOLED.(tx := FOOLED.tx.(committed := [7, 8]))
  const STUCK := MORE.(timer := 3.5, tx := MORE.tx.(sent := 2))
  const NEXT_BYTE := P.Segment(1, 0, CT_NONE, P.LAP, [8])

  lemma WriteOnSteps(n: P.Net)
    requires n == Link(FOOLED, FINISHED, [], [])
    ensures var n1 := n.(a := FOOLED.(writer := WriteSpin([8])));
      var n2 := n.(a := FOOLED.(writer := WriteReady([8], 1)));
      var n3 := n.(a := MORE);
      && P.Step(n, WriteCall(false, [8])) == P.Next(n1)
      && P.Step(n1, WriteSample(false)) == P.Next(n2)
      && P.Step(n2, WriteCommit(false)) == P.Next(n3)
      && P.Step(n3, Timer(false, 3.0)) == P.Next(Link(STUCK, FINISHED, [NEXT_BYTE], []))
  {
    assert [7] + P.Slice([8], 0, 1) == [7, 8];
    assert P.Slice([7, 8], 1, 2) == [8];
    assert [] + [NEXT_BYTE] == [NEXT_BYTE];
  }

  lemma WriteOnRuns(heap: Heap)
    ensures P.Run(WriteOn(heap)) == P.Next(Link(STUCK, FINISHED, [NEXT_BYTE], []))
  {
    hide P.Step, P.Run;
    LateLostRuns(heap);
    WriteOnSteps(Link(FOOLED, FINISHED, [], []));
    var acts := LateWrite(heap);
    RunAppend(acts, WriteCall(false, [8]));
    var acts1 := acts + [WriteCall(false, [8])];
    RunAppend(acts1, WriteSample(false));
    var acts2 := acts1 + [WriteSample(false)];
    RunAppend(acts2, WriteCommit(false));
    var acts3 := acts2 + [WriteCommit(false)];
    RunAppend(acts3, Timer(false, 3.0));
    assert WriteOn(heap) == acts3 + [Timer(false, 3.0)];
  }

  /** Without discipline a sender can be stuck: the outstanding byte is not the one its peer still
      waits for, and no ACK is on its way. */
  lemma LateWriteSticks(heap: Heap)
    ensures S.Run(heap, WriteOn(heap)).Next?
    ensures var w := S.Run(heap, WriteOn(heap)).world;
      w.a.sock.sendBack != w.a.sock.ackBack && w.b.sock.ackNum != w.a.sock.seqNum && w.ba == []
  {
    hide P.Run, S.Run;
    WriteOnRuns(heap);
    RunMatches(heap, WriteOn(heap));
    var w, n := At(heap, WriteOn(heap));
  }

  // ----- the end-of-file race -----

  /** b samples an empty ring, then a sends one byte and both sides close; b's second read, of the
      state, comes last. */
  function EarlyEnd(heap: Heap): seq<Action> {
    Connected(heap)
    + [ReadCall(true, 1), ReadSample(true), WriteCall(false, [7]), WriteSample(false), WriteCommit(false)]
    + [Timer(false, 1.0), Deliver(true, heap), Deliver(false, heap), Close(false), Timer(false, 2.0)]
    + [Deliver(true, heap), Deliver(false, heap), Timer(true, 1.0), Deliver(false, heap), Deliver(true, heap)]
  }

  const WAITING := OPEN.(reader := ReadEmpty(1))
  const HOLDING := OPEN.(tx := OPEN.tx.(committed := [7]))
  const SENDING := HOLDING.(timer := 1.5, tx := HOLDING.tx.(sent := 1))
  const GOT := WAITING.(rx := P.RX0.(received := [7]))
  const REPLY := P.Segment(0, 1, CT_ACK, 0xfffe, [])
  const ACKED := SENDING.(tx := SENDING.tx.(acked := 1))
  const LEAVING := ACKED.(call := true, timer := 7.0, tx := ACKED.tx.(finSent := true, finPos := 1))
  const FIN_A := P.Segment(1, 0, CT_FIN, P.LAP, [])
  const ASKED := GOT.(rx := GOT.rx.(finRecv := true, ackSent := true))
  const FIN_A_ACK := P.Segment(0, 2, CT_ACK, 0xfffe, [])
  const LEFT := LEAVING.(tx := LEAVING.tx.(ackRecv := true))
  const ANSWERED := ASKED.(timer := 6.0, tx := OPEN.tx.(finSent := true))
  const FIN_B := P.Segment(0, 1, CT_FIN, P.LAP, [])
  const ALL_DONE := LEFT.(rx := P.RX0.(finRecv := true, ackSent := true))
  const FIN_B_ACK := P.Segment(1, 1, CT_ACK, P.LAP, [])
  const GONE := ANSWERED.(state := Closed, tx := ANSWERED.tx.(conn := false, ackRecv := true))

  lemma EarlyEndSamples(n: P.Net)
    requires n == Link(OPEN, OPEN, [], [])
    ensures P.Step(n, ReadCall(true, 1)) == P.Next(n.(b := OPEN.(reader := ReadSpin(1))))
    ensures P.Step(n.(b := OPEN.(reader := ReadSpin(1))), ReadSample(true)) == P.Next(Link(OPEN, WAITING, [], []))
  {
  }

  lemma EarlyEndWrites(n: P.Net)
    requires n == Link(OPEN, WAITING, [], [])
    ensures P.Step(n, WriteCall(false, [7])) == P.Next(n.(a := OPEN.(writer := WriteSpin([7]))))
    ensures P.Step(n.(a := OPEN.(writer := WriteSpin([7]))), WriteSample(false))
            == P.Next(n.(a := OPEN.(writer := WriteReady([7], 1))))
    ensures P.Step(n.(a := OPEN.(writer := WriteReady([7], 1))), WriteCommit(false))
            == P.Next(Link(HOLDING, WAITING, [], []))
    ensures P.Step(Link(HOLDING, WAITING, [], []), Timer(false, 1.0)) == P.Next(Link(SENDING, WAITING, [BYTE], []))
  {
    assert P.TX0.committed + P.Slice([7], 0, 1) == [7];
    assert P.Slice([7], 0, 1) == [7];
  }

  lemma EarlyEndDelivers(n: P.Net, heap: Heap)
    requires n == Link(SENDING, WAITING, [BYTE], [])
    ensures P.Step(n, Deliver(true, heap)) == P.Next(Link(SENDING, GOT, [], [REPLY]))
    ensures P.Step(Link(SENDING, GOT, [], [REPLY]), Deliver(false, heap)) == P.Next(Link(ACKED, GOT, [], []))
  {
    assert [BYTE][1..] == [] && [REPLY][1..] == [] && P.RX0.received + [7] == [7];
  }

  lemma EarlyEndCloses(n: P.Net)
    requires n == Link(ACKED, GOT, [], [])
    ensures P.Step(n, Close(false)) == P.Next(n.(a := ACKED.(call := true)))
    ensures P.Step(n.(a := ACKED.(call := true)), Timer(false, 2.0)) == P.Next(Link(LEAVING, GOT, [FIN_A], []))
  {
  }

  lemma EarlyEndFirstFin(heap: Heap)
    ensures P.Step(Link(LEAVING, GOT, [FIN_A], []), Deliver(true, heap))
            == P.Next(Link(LEAVING, ASKED, [], [FIN_A_ACK]))
    ensures P.Step(Link(LEAVING, ASKED, [], [FIN_A_ACK]), Deliver(false, heap)) == P.Next(Link(LEFT, ASKED, [], []))
  {
    assert [FIN_A][1..] == [] && [FIN_A_ACK][1..] == [];
  }

  lemma EarlyEndAnswers(n: P.Net)
    requires n == Link(LEFT, ASKED, [], [])
    ensures P.Step(n, Timer(true, 1.0)) == P.Next(Link(LEFT, ANSWERED, [], [FIN_B]))
  {
  }

  lemma EarlyEndSecondFin(heap: Heap)
    ensures P.Step(Link(LEFT, ANSWERED, [], [FIN_B]), Deliver(false, heap))
            == P.Next(Link(ALL_DONE, ANSWERED, [FIN_B_ACK], []))
    ensures P.Step(Link(ALL_DONE, ANSWERED, [FIN_B_ACK], []), Deliver(true, heap))
            == P.Next(Link(ALL_DONE, GONE, [], []))
  {
    assert [FIN_B][1..] == [] && [FIN_B_ACK][1..] == [];
  }

  lemma EarlyEndRuns(heap: Heap)
    ensures P.Run(EarlyEnd(heap)) == P.Next(Link(ALL_DONE, GONE, [], []))
  {
    hide P.Step, P.Run;
    Handshake(heap);
    var n4 := Link(OPEN, OPEN, [], []);
    var n5 := n4.(b := OPEN.(reader := ReadSpin(1)));
    var n6 := Link(OPEN, WAITING, [], []);
    EarlyEndSamples(n4);
    var n7 := n6.(a := OPEN.(writer := WriteSpin([7])));
    var n8 := n6.(a := OPEN.(writer := WriteReady([7], 1)));
    var n10 := Link(SENDING, WAITING, [BYTE], []);
    EarlyEndWrites(n6);
    EarlyEndDelivers(n10, heap);
    var n12 := Link(ACKED, GOT, [], []);
    EarlyEndCloses(n12);
    EarlyEndFirstFin(heap);
    var n16 := Link(LEFT, ASKED, [], []);
    EarlyEndAnswers(n16);
    EarlyEndSecondFin(heap);
    var writing := [n4, n5, n6, n7, n8, Link(HOLDING, WAITING, [], []), n10, Link(SENDING, GOT, [], [REPLY]), n12];
    var closing := [n12, n12.(a := ACKED.(call := true)), Link(LEAVING, GOT, [FIN_A], []),
                    Link(LEAVING, ASKED, [], [FIN_A_ACK]), n16, Link(LEFT, ANSWERED, [], [FIN_B]),
                    Link(ALL_DONE, ANSWERED, [FIN_B_ACK], []), Link(ALL_DONE, GONE, [], [])];
    var done := |Connected(heap)|;
    var first, last := EarlyEnd(heap)[done..done + 8], EarlyEnd(heap)[done + 8..];
    assert Chain(writing, first);
    ChainRuns(Connected(heap), writing, first);
    assert Chain(closing, last);
    ChainRuns(Connected(heap) + first, closing, last);
    assert Connected(heap) + first + last == EarlyEnd(heap);
  }

  /** The reads of readLab's loop are not of one instant: the ring was empty when b looked, the
      state is ST_CLOSED when b looks next, so readLab returns 0 although a byte is waiting. */
  lemma EarlyEndOfFile(heap: Heap)
    ensures S.Run(heap, EarlyEnd(heap)).Next?
    ensures var w := S.Run(heap, EarlyEnd(heap)).world;
      && w.b.reader == ReadEmpty(1) && w.b.sock.state == Closed
      && S.Application(w.b, ReadRetry(true)) == w.b.(reader := ReadIdle)
      && w.a.committed == [7] && w.b.returned == [] && M.RecvSpace(w.b.sock) == 1
  {
    hide P.Run, S.Run;
    EarlyEndRuns(heap);
    RunMatches(heap, EarlyEnd(heap));
    var w, n := At(heap, EarlyEnd(heap));
    BitsMatch(w.b, n.b);
    SpaceMatches(w.b.sock, n.b);
  }
}
