/** A concrete run, with no loss at all, on which an assert of the receiver fails: the ACK of a FIN
    opens a window that is one byte too wide, and a write after the FIN fills it. */
module Overflow {
  import opened Words
  import opened Tcp
  import S = System
  import P = Protocol
  import opened Simulation
  import opened Theorems
  import opened Moments
  import opened Guarantees
  import opened Witnesses

  const MOST: nat := 0xfffe

  /** One byte less than a ring takes. */
  function Bulk(): (bulk: seq<byte>)
    ensures |bulk| == MOST
  {
    seq(MOST, _ => 0)
  }

  // ----- filling the ring of b -----

  /** a after `k` bytes of the bulk went through, and b, which reads none of them. */
  function Filling(k: nat): P.Peer {
    OPEN.(timer := if k == 0 then 0.0 else 0.5, tx := OPEN.tx.(committed := Bulk(), sent := k, acked := k))
  }

  function Filled(k: nat): P.Peer
    requires k <= MOST
  {
    OPEN.(rx := P.RX0.(received := Bulk()[..k]))
  }

  function Round(heap: Heap): seq<Action> {
    [Timer(false, 0.0), Deliver(true, heap), Deliver(false, heap)]
  }

  function Chunk(k: nat, k': nat): P.Segment
    requires k <= k' <= MOST
  {
    P.Segment(k, 0, CT_NONE, P.LAP, Bulk()[k..k'])
  }

  lemma RoundSends(k: nat, k': nat)
    requires k < MOST && k' == Min(k + MAX_TCP_LEN, MOST)
    ensures P.Step(Link(Filling(k), Filled(k), [], []), Timer(false, 0.0))
            == P.Next(Link(Filling(k').(tx := Filling(k').tx.(acked := k)), Filled(k), [Chunk(k, k')], []))
  {
    hide Bulk;
    assert [] + [Chunk(k, k')] == [Chunk(k, k')];
  }

  lemma RoundArrives(k: nat, k': nat, a: P.Peer, heap: Heap)
    requires k < MOST && k' == Min(k + MAX_TCP_LEN, MOST)
    ensures P.Step(Link(a, Filled(k), [Chunk(k, k')], []), Deliver(true, heap))
            == P.Next(Link(a, Filled(k'), [], [P.Segment(0, k', CT_ACK, P.LAP - k', [])]))
  {
    hide Bulk;
    assert Bulk()[..k] + Bulk()[k..k'] == Bulk()[..k'];
    assert [Chunk(k, k')][1..] == [];
  }

  lemma RoundReturns(k: nat, k': nat, heap: Heap)
    requires k < MOST && k' == Min(k + MAX_TCP_LEN, MOST)
    ensures P.Step(Link(Filling(k').(tx := Filling(k').tx.(acked := k)), Filled(k'), [],
                        [P.Segment(0, k', CT_ACK, P.LAP - k', [])]), Deliver(false, heap))
            == P.Next(Link(Filling(k'), Filled(k'), [], []))
  {
    hide Bulk;
    assert [P.Segment(0, k', CT_ACK, P.LAP - k', [])][1..] == [];
  }

  /** a commits the bulk and `rounds` segments go through. */
  function Fill(heap: Heap, rounds: nat): seq<Action> {
    if rounds == 0 then Connected(heap) + [WriteCall(false, Bulk()), WriteSample(false), WriteCommit(false)]
    else Fill(heap, rounds - 1) + Round(heap)
  }

  lemma FillStarts(n: P.Net)
    requires n == Link(OPEN, OPEN, [], [])
    ensures P.Step(n, WriteCall(false, Bulk())) == P.Next(n.(a := OPEN.(writer := WriteSpin(Bulk()))))
    ensures P.Step(n.(a := OPEN.(writer := WriteSpin(Bulk()))), WriteSample(false))
            == P.Next(n.(a := OPEN.(writer := WriteReady(Bulk(), MOST))))
    ensures P.Step(n.(a := OPEN.(writer := WriteReady(Bulk(), MOST))), WriteCommit(false))
            == P.Next(Link(Filling(0), Filled(0), [], []))
  {
    hide Bulk;
    assert [] + P.Slice(Bulk(), 0, MOST) == Bulk();
  }

  lemma {:induction false} FillRuns(heap: Heap, rounds: nat)
    requires rounds <= 64
    ensures var k := Min(rounds * MAX_TCP_LEN, MOST);
      P.Run(Fill(heap, rounds)) == P.Next(Link(Filling(k), Filled(k), [], []))
  {
    hide P.Run, P.Step, Filling, Filled, Chunk, Bulk;
    if rounds == 0 {
      Handshake(heap);
      var n := Link(OPEN, OPEN, [], []);
      FillStarts(n);
      var nets := [n, n.(a := OPEN.(writer := WriteSpin(Bulk()))), n.(a := OPEN.(writer := WriteReady(Bulk(), MOST))),
                   Link(Filling(0), Filled(0), [], [])];
      var acts := [WriteCall(false, Bulk()), WriteSample(false), WriteCommit(false)];
      assert Chain(nets, acts);
      ChainRuns(Connected(heap), nets, acts);
    } else {
      FillRuns(heap, rounds - 1);
      var k, k' := (rounds - 1) * MAX_TCP_LEN, Min(rounds * MAX_TCP_LEN, MOST);
      var half := Filling(k').(tx := Filling(k').tx.(acked := k));
      RoundSends(k, k');
      RoundArrives(k, k', half, heap);
      RoundReturns(k, k', heap);
      var nets := [Link(Filling(k), Filled(k), [], []), Link(half, Filled(k), [Chunk(k, k')], []),
                   Link(half, Filled(k'), [], [P.Segment(0, k', CT_ACK, P.LAP - k', [])]),
                   Link(Filling(k'), Filled(k'), [], [])];
      assert Chain(nets, Round(heap));
      ChainRuns(Fill(heap, rounds - 1), nets, Round(heap));
    }
  }

  // ----- the FIN, and two bytes after it -----

  function One(): seq<byte> {
    Bulk() + [1]
  }

  function Two(): seq<byte> {
    One() + [2]
  }

  const LAST_FIN := P.Segment(MOST, 0, CT_FIN, P.LAP, [])
  const LAST_FIN_ACK := P.Segment(0, 0xffff, CT_ACK, 1, [])
  const ONE_MORE := P.Segment(MOST, 0, CT_NONE, P.LAP, [1])
  const ONE_ACK := P.Segment(0, 0xffff, CT_ACK, 0, [])
  const TOO_MUCH := P.Segment(0xffff, 0, CT_NONE, P.LAP, [2])

  function Ended(): P.Peer {
    Filling(MOST).(call := true, timer := 6.0, tx := Filling(MOST).tx.(finSent := true, finPos := MOST))
  }

  /** a has sent its first late byte; it has taken the ACK of the FIN for that byte's; it has sent
      its second. */
  function Sent(): P.Peer {
    Ended().(timer := 2.5, tx := Ended().tx.(committed := One(), sent := 0xffff))
  }

  function Widened(): P.Peer {
    Sent().(tx := Sent().tx.(acked := 0xffff, front := 0x1_0000, ackRecv := true))
  }

  function Over(): P.Peer {
    Widened().(timer := 3.5, tx := Widened().tx.(committed := Two(), sent := 0x1_0000))
  }

  function Told(): P.Peer {
    Filled(MOST).(rx := Filled(MOST).rx.(finRecv := true, ackSent := true))
  }

  function Full(): P.Peer {
    Told().(rx := Told().rx.(received := One()))
  }

  function FirstWrite(): seq<Action> {
    [Close(false), Timer(false, 1.0), WriteCall(false, [1]), WriteSample(false), WriteCommit(false), Timer(false, 2.0)]
  }

  lemma FirstWriteBegins(n: P.Net)
    requires n == Link(Filling(MOST), Filled(MOST), [], [])
    ensures P.Step(n, Close(false)) == P.Next(n.(a := Filling(MOST).(call := true)))
    ensures P.Step(n.(a := Filling(MOST).(call := true)), Timer(false, 1.0))
            == P.Next(Link(Ended(), Filled(MOST), [LAST_FIN], []))
  {
    hide Bulk;
    assert [] + [LAST_FIN] == [LAST_FIN];
  }

  lemma FirstWriteCommits(n: P.Net)
    requires n == Link(Ended(), Filled(MOST), [LAST_FIN], [])
    ensures P.Step(n, WriteCall(false, [1])) == P.Next(n.(a := Ended().(writer := WriteSpin([1]))))
    ensures P.Step(n.(a := Ended().(writer := WriteSpin([1]))), WriteSample(false))
            == P.Next(n.(a := Ended().(writer := WriteReady([1], 1))))
    ensures P.Step(n.(a := Ended().(writer := WriteReady([1], 1))), WriteCommit(false))
            == P.Next(n.(a := Ended().(tx := Ended().tx.(committed := One()))))
  {
    hide Bulk;
    assert Bulk() + P.Slice([1], 0, 1) == One();
  }

  lemma FirstWriteSends(n: P.Net)
    requires n == Link(Ended().(tx := Ended().tx.(committed := One())), Filled(MOST), [LAST_FIN], [])
    ensures P.Step(n, Timer(false, 2.0)) == P.Next(Link(Sent(), Filled(MOST), [LAST_FIN, ONE_MORE], []))
  {
    hide Bulk;
    assert P.Slice(One(), MOST, 0xffff) == [1];
    assert [LAST_FIN] + [ONE_MORE] == [LAST_FIN, ONE_MORE];
  }

  lemma FirstWriteRuns(heap: Heap)
    ensures P.Run(Fill(heap, 64) + FirstWrite())
            == P.Next(Link(Sent(), Filled(MOST), [LAST_FIN, ONE_MORE], []))
  {
    hide P.Run, P.Step, Filling, Filled, Ended, Sent, One;
    FillRuns(heap, 64);
    var n := Link(Filling(MOST), Filled(MOST), [], []);
    FirstWriteBegins(n);
    var n2 := Link(Ended(), Filled(MOST), [LAST_FIN], []);
    FirstWriteCommits(n2);
    var n5 := n2.(a := Ended().(tx := Ended().tx.(committed := One())));
    FirstWriteSends(n5);
    var nets := [n, n.(a := Filling(MOST).(call := true)), n2, n2.(a := Ended().(writer := WriteSpin([1]))),
                 n2.(a := Ended().(writer := WriteReady([1], 1))), n5,
                 Link(Sent(), Filled(MOST), [LAST_FIN, ONE_MORE], [])];
    assert Chain(nets, FirstWrite());
    ChainRuns(Fill(heap, 64), nets, FirstWrite());
  }

  function Answers(heap: Heap): seq<Action> {
    [Deliver(true, heap), Deliver(true, heap), Deliver(false, heap)]
  }

  lemma FinAnswered(a: P.Peer, heap: Heap)
    ensures P.Step(Link(a, Filled(MOST), [LAST_FIN, ONE_MORE], []), Deliver(true, heap))
            == P.Next(Link(a, Told(), [ONE_MORE], [LAST_FIN_ACK]))
  {
    hide Bulk;
    assert [LAST_FIN, ONE_MORE][1..] == [ONE_MORE] && [] + [LAST_FIN_ACK] == [LAST_FIN_ACK];
  }

  lemma ByteAnswered(a: P.Peer, heap: Heap)
    ensures P.Step(Link(a, Told(), [ONE_MORE], [LAST_FIN_ACK]), Deliver(true, heap))
            == P.Next(Link(a, Full(), [], [LAST_FIN_ACK, ONE_ACK]))
  {
    hide Bulk;
    assert Bulk()[..MOST] + [1] == One();
    assert [ONE_MORE][1..] == [] && [LAST_FIN_ACK] + [ONE_ACK] == [LAST_FIN_ACK, ONE_ACK];
  }

  lemma WindowWidens(b: P.Peer, heap: Heap)
    ensures P.Step(Link(Sent(), b, [], [LAST_FIN_ACK, ONE_ACK]), Deliver(false, heap))
            == P.Next(Link(Widened(), b, [], [ONE_ACK]))
  {
    hide Bulk;
    assert [LAST_FIN_ACK, ONE_ACK][1..] == [ONE_ACK];
  }

  function SecondWrite(): seq<Action> {
    [WriteCall(false, [2]), WriteSample(false), WriteCommit(false), Timer(false, 3.0)]
  }

  lemma SecondWriteCommits(n: P.Net)
    requires n == Link(Widened(), Full(), [], [ONE_ACK])
    ensures P.Step(n, WriteCall(false, [2])) == P.Next(n.(a := Widened().(writer := WriteSpin([2]))))
    ensures P.Step(n.(a := Widened().(writer := WriteSpin([2]))), WriteSample(false))
            == P.Next(n.(a := Widened().(writer := WriteReady([2], 1))))
    ensures P.Step(n.(a := Widened().(writer := WriteReady([2], 1))), WriteCommit(false))
            == P.Next(n.(a := Widened().(tx := Widened().tx.(committed := Two()))))
  {
    hide Bulk;
    assert One() + P.Slice([2], 0, 1) == Two();
  }

  lemma SecondWriteSends(n: P.Net)
    requires n == Link(Widened().(tx := Widened().tx.(committed := Two())), Full(), [], [ONE_ACK])
    ensures P.Step(n, Timer(false, 3.0)) == P.Next(Link(Over(), Full(), [TOO_MUCH], [ONE_ACK]))
  {
    hide Bulk;
    assert P.Slice(Two(), 0xffff, 0x1_0000) == [2];
    assert [] + [TOO_MUCH] == [TOO_MUCH];
  }

  lemma ByteOverflows(n: P.Net, heap: Heap)
    requires n == Link(Over(), Full(), [TOO_MUCH], [ONE_ACK])
    ensures P.Step(n, Deliver(true, heap)) == P.Crash
  {
    hide Bulk;
  }

  /** a fills b's ring up to one byte, closes, and writes two bytes more. */
  function TwoTooMany(heap: Heap): seq<Action> {
    Fill(heap, 64) + FirstWrite() + Answers(heap) + SecondWrite() + [Deliver(true, heap)]
  }

  lemma OverflowRuns(heap: Heap)
    ensures P.Run(TwoTooMany(heap)) == P.Crash
  {
    hide P.Run, P.Step, Filled, Ended, Sent, Widened, Over, Told, Full, One, Two;
    FirstWriteRuns(heap);
    FinAnswered(Sent(), heap);
    ByteAnswered(Sent(), heap);
    WindowWidens(Full(), heap);
    var n9 := Link(Widened(), Full(), [], [ONE_ACK]);
    SecondWriteCommits(n9);
    var n12 := n9.(a := Widened().(tx := Widened().tx.(committed := Two())));
    SecondWriteSends(n12);
    var n13 := Link(Over(), Full(), [TOO_MUCH], [ONE_ACK]);
    ByteOverflows(n13, heap);
    var nets := [Link(Sent(), Filled(MOST), [LAST_FIN, ONE_MORE], []), Link(Sent(), Told(), [ONE_MORE], [LAST_FIN_ACK]),
                 Link(Sent(), Full(), [], [LAST_FIN_ACK, ONE_ACK]), n9,
                 n9.(a := Widened().(writer := WriteSpin([2]))), n9.(a := Widened().(writer := WriteReady([2], 1))),
                 n12, n13];
    var before, acts := Fill(heap, 64) + FirstWrite(), Answers(heap) + SecondWrite();
    assert Chain(nets, acts);
    ChainRuns(before, nets, acts);
    RunAppend(before + acts, Deliver(true, heap));
    assert before + acts + [Deliver(true, heap)] == TwoTooMany(heap);
  }

  /** The assert `validLen == receivedLen` fails, although nothing was lost. */
  lemma LateWriteCrashes(heap: Heap)
    ensures S.Run(heap, TwoTooMany(heap)).Crash?
    ensures forall act :: act in TwoTooMany(heap) ==> !act.Drop?
    ensures !Disciplined(heap, TwoTooMany(heap))
  {
    hide P.Run, S.Run, Disciplined;
    OverflowRuns(heap);
    RunMatches(heap, TwoTooMany(heap));
    FillDropsNothing(heap, 64);
    if Disciplined(heap, TwoTooMany(heap)) { NeverCrashes(heap, TwoTooMany(heap)); }
  }

  lemma {:induction false} FillDropsNothing(heap: Heap, rounds: nat)
    ensures forall act :: act in Fill(heap, rounds) ==> !act.Drop?
  {
    if rounds > 0 { FillDropsNothing(heap, rounds - 1); }
  }
}
