/** Two concrete runs in which a write is under way while the connection closes: the two rules of
    module Orderly about writes under way are needed. */
module Races {
  import opened Tcp
  import S = System
  import P = Protocol
  import opened Simulation
  import opened Theorems
  import opened Guarantees
  import opened Settling
  import opened Orderly
  import opened Witnesses

  // ----- a write under way when the peer's FIN comes in -----

  /** b is past its unlocked loop when a closes; b's own FIN goes out before b commits, and the
      committed byte is lost. b never calls closeLab. */
  function PeerCloses(heap: Heap): seq<Action> {
    Connected(heap)
    + [WriteCall(true, [7]), WriteSample(true), Close(false), Timer(false, 1.0), Deliver(true, heap), Timer(true, 1.0)]
    + [WriteCommit(true), Timer(true, 2.0), Drop(false, 2)]
    + [Deliver(false, heap), Deliver(false, heap), Deliver(true, heap)]
  }

  const ABOUT := OPEN.(writer := WriteReady([7], 1))
  const TOLD := ABOUT.(rx := P.RX0.(finRecv := true, ackSent := true))
  const PARTING := TOLD.(timer := 6.0, tx := OPEN.tx.(finSent := true))
  const STORED := PARTING.(writer := WriteIdle, tx := PARTING.tx.(committed := [7]))
  const FLUSHED := STORED.(timer := 2.5, tx := STORED.tx.(sent := 1))
  const GLAD := CLOSING.(tx := CLOSING.tx.(ackRecv := true))
  const MISSED := GLAD.(rx := P.RX0.(finRecv := true, ackSent := true))
  const SHUT := FLUSHED.(state := Closed,
    tx := FLUSHED.tx.(conn := false, acked := 1, front := 0x1_0000, ackRecv := true))

  lemma PeerClosesBegins(n: P.Net, heap: Heap)
    requires n == Link(OPEN, OPEN, [], [])
    ensures var n1 := n.(b := OPEN.(writer := WriteSpin([7])));
      var n2 := n.(b := ABOUT);
      var n3 := Link(OPEN.(call := true), ABOUT, [], []);
      && P.Step(n, WriteCall(true, [7])) == P.Next(n1)
      && P.Step(n1, WriteSample(true)) == P.Next(n2)
      && P.Step(n2, Close(false)) == P.Next(n3)
      && P.Step(n3, Timer(false, 1.0)) == P.Next(Link(CLOSING, ABOUT, [FIN], []))
      && P.Step(Link(CLOSING, ABOUT, [FIN], []), Deliver(true, heap)) == P.Next(Link(CLOSING, TOLD, [], [FIN_ACK]))
  {
    assert [FIN][1..] == [];
  }

  lemma PeerClosesAnswers(n: P.Net)
    requires n == Link(CLOSING, TOLD, [], [FIN_ACK])
    ensures P.Step(n, Timer(true, 1.0)) == P.Next(Link(CLOSING, PARTING, [], [FIN_ACK, FIN]))
  {
    assert [FIN_ACK] + [FIN] == [FIN_ACK, FIN];
  }

  lemma PeerClosesCommits(n: P.Net)
    requires n == Link(CLOSING, PARTING, [], [FIN_ACK, FIN])
    ensures P.Step(n, WriteCommit(true)) == P.Next(n.(b := STORED))
    ensures P.Step(n.(b := STORED), Timer(true, 2.0)) == P.Next(Link(CLOSING, FLUSHED, [], [FIN_ACK, FIN, BYTE]))
  {
    assert P.TX0.committed + P.Slice([7], 0, 1) == [7] && P.Slice([7], 0, 1) == [7];
    assert [FIN_ACK, FIN] + [BYTE] == [FIN_ACK, FIN, BYTE];
  }

  lemma PeerClosesLoses(n: P.Net)
    requires n == Link(CLOSING, FLUSHED, [], [FIN_ACK, FIN, BYTE])
    ensures P.Step(n, Drop(false, 2)) == P.Next(Link(CLOSING, FLUSHED, [], [FIN_ACK, FIN]))
  {
    assert DropAt([FIN_ACK, FIN, BYTE], 2) == [FIN_ACK, FIN];
  }

  lemma PeerClosesEnds(n: P.Net, heap: Heap)
    requires n == Link(CLOSING, FLUSHED, [], [FIN_ACK, FIN])
    ensures var n1 := Link(GLAD, FLUSHED, [], [FIN]);
      var n2 := Link(MISSED, FLUSHED, [FIN_ACK], []);
      && P.Step(n, Deliver(false, heap)) == P.Next(n1)
      && P.Step(n1, Deliver(false, heap)) == P.Next(n2)
      && P.Step(n2, Deliver(true, heap)) == P.Next(Link(MISSED, SHUT, [], []))
  {
    assert [FIN_ACK, FIN][1..] == [FIN] && [FIN][1..] == [] && [FIN_ACK][1..] == [];
  }

  lemma PeerClosesRuns(heap: Heap)
    ensures P.Run(PeerCloses(heap)) == P.Next(Link(MISSED, SHUT, [], []))
  {
    hide P.Step, P.Run;
    Handshake(heap);
    var n0 := Link(OPEN, OPEN, [], []);
    PeerClosesBegins(n0, heap);
    var n5 := Link(CLOSING, TOLD, [], [FIN_ACK]);
    PeerClosesAnswers(n5);
    var n6 := Link(CLOSING, PARTING, [], [FIN_ACK, FIN]);
    PeerClosesCommits(n6);
    PeerClosesLoses(Link(CLOSING, FLUSHED, [], [FIN_ACK, FIN, BYTE]));
    var n9 := Link(CLOSING, FLUSHED, [], [FIN_ACK, FIN]);
    PeerClosesEnds(n9, heap);
    var nets := [n0, n0.(b := OPEN.(writer := WriteSpin([7]))), n0.(b := ABOUT),
                 Link(OPEN.(call := true), ABOUT, [], []), Link(CLOSING, ABOUT, [FIN], []), n5, n6, n6.(b := STORED),
                 Link(CLOSING, FLUSHED, [], [FIN_ACK, FIN, BYTE]), n9, Link(GLAD, FLUSHED, [], [FIN]),
                 Link(MISSED, FLUSHED, [FIN_ACK], []), Link(MISSED, SHUT, [], [])];
    var acts := PeerCloses(heap)[|Connected(heap)|..];
    assert Chain(nets, acts);
    ChainRuns(Connected(heap), nets, acts);
    assert Connected(heap) + acts == PeerCloses(heap);
  }

  /** A host that never calls closeLab loses a byte as well: b was let into writeLab, a closed, and b
      answered with its own FIN before it committed. b ends closed, with everything acknowledged;
      a has seen b's FIN, and has none of b's bytes. */
  lemma PeerCloseLosesByte(heap: Heap)
    ensures S.Run(heap, PeerCloses(heap)).Next?
    ensures var w := S.Run(heap, PeerCloses(heap)).world;
      && !w.b.sock.cl.call && w.b.committed == [7] && w.b.sock.state == Closed && Settled(w.b.sock)
      && Arrived(w.a) == [] && w.a.sock.cl.finRecv
      && w.ab == [] && w.ba == []
    ensures !KeepsRules(heap, PeerCloses(heap))
  {
    hide P.Run, S.Run, Disciplined, KeepsRules;
    PeerClosesRuns(heap);
    RunMatches(heap, PeerCloses(heap));
    var w, n := At(heap, PeerCloses(heap));
    ArrivedIs(w.a, n.a);
    BitsMatch(w.a, n.a);
    BitsMatch(w.b, n.b);
    SettledIs(w.b, n.b);
    NotOnTime(heap, PeerCloses(heap));
  }

  lemma NotOnTime(heap: Heap, acts: seq<Action>)
    requires P.Run(acts).Next? && (P.Late(P.Run(acts).net.a.tx) || P.Late(P.Run(acts).net.b.tx))
    ensures !Disciplined(heap, acts) && !KeepsRules(heap, acts)
  {
    hide P.Run, S.Run, Disciplined, KeepsRules, P.Late;
    RunMatches(heap, acts);
    if KeepsRules(heap, acts) { RulesAreEnough(heap, acts); }
    if Disciplined(heap, acts) {
      DisciplineIsOnTime(heap, acts);
      assert false;
    }
  }

  // ----- a write under way when its own side closes -----

  /** One thread of a is past the unlocked loop of writeLab when another calls closeLab; the closing
      handshake completes at b before the write is committed. */
  function OwnCloses(heap: Heap): seq<Action> {
    Connected(heap)
    + [WriteCall(false, [7]), WriteSample(false), Close(false), Timer(false, 1.0)]
    + [Deliver(true, heap), Timer(true, 1.0)]
    + [Deliver(false, heap), Deliver(false, heap), Deliver(true, heap), WriteCommit(false), Timer(false, 2.0)]
  }

  const TORN := ABOUT.(call := true)
  const TEARING := CLOSING.(writer := ABOUT.writer)
  const PARTED := FINISHED.(timer := 6.0, tx := OPEN.tx.(finSent := true))
  const HALF := TEARING.(tx := TEARING.tx.(ackRecv := true))
  const WHOLE := HALF.(rx := P.RX0.(finRecv := true, ackSent := true))
  const AWAY := PARTED.(state := Closed, tx := PARTED.tx.(conn := false, ackRecv := true))
  const ADDED := WHOLE.(writer := WriteIdle, tx := WHOLE.tx.(committed := [7]))
  const ALONE := ADDED.(timer := 2.5, tx := ADDED.tx.(sent := 1))

  lemma OwnClosesBegins(n: P.Net, heap: Heap)
    requires n == Link(OPEN, OPEN, [], [])
    ensures var n1 := n.(a := OPEN.(writer := WriteSpin([7])));
      var n2 := n.(a := ABOUT);
      var n3 := n.(a := TORN);
      var n4 := Link(TEARING, OPEN, [FIN], []);
      && P.Step(n, WriteCall(false, [7])) == P.Next(n1)
      && P.Step(n1, WriteSample(false)) == P.Next(n2)
      && P.Step(n2, Close(false)) == P.Next(n3)
      && P.Step(n3, Timer(false, 1.0)) == P.Next(n4)
      && P.Step(n4, Deliver(true, heap)) == P.Next(Link(TEARING, FINISHED, [], [FIN_ACK]))
  {
    assert [FIN][1..] == [];
  }

  lemma OwnClosesAnswers(n: P.Net)
    requires n == Link(TEARING, FINISHED, [], [FIN_ACK])
    ensures P.Step(n, Timer(true, 1.0)) == P.Next(Link(TEARING, PARTED, [], [FIN_ACK, FIN]))
  {
    assert [FIN_ACK] + [FIN] == [FIN_ACK, FIN];
  }

  lemma OwnClosesTakes(n: P.Net, heap: Heap)
    requires n == Link(TEARING, PARTED, [], [FIN_ACK, FIN])
    ensures P.Step(n, Deliver(false, heap)) == P.Next(Link(HALF, PARTED, [], [FIN]))
    ensures P.Step(Link(HALF, PARTED, [], [FIN]), Deliver(false, heap)) == P.Next(Link(WHOLE, PARTED, [FIN_ACK], []))
  {
    assert [FIN_ACK, FIN][1..] == [FIN] && [FIN][1..] == [];
  }

  lemma OwnClosesParts(n: P.Net, heap: Heap)
    requires n == Link(WHOLE, PARTED, [FIN_ACK], [])
    ensures P.Step(n, Deliver(true, heap)) == P.Next(Link(WHOLE, AWAY, [], []))
  {
    assert [FIN_ACK][1..] == [];
  }

  lemma OwnClosesCommits(n: P.Net)
    requires n == Link(WHOLE, AWAY, [], [])
    ensures P.Step(n, WriteCommit(false)) == P.Next(n.(a := ADDED))
    ensures P.Step(n.(a := ADDED), Timer(false, 2.0)) == P.Next(Link(ALONE, AWAY, [BYTE], []))
  {
    assert P.TX0.committed + P.Slice([7], 0, 1) == [7] && P.Slice([7], 0, 1) == [7];
    assert [] + [BYTE] == [BYTE];
  }

  lemma OwnClosesRuns(heap: Heap)
    ensures P.Run(OwnCloses(heap)) == P.Next(Link(ALONE, AWAY, [BYTE], []))
  {
    hide P.Step, P.Run;
    Handshake(heap);
    var n0 := Link(OPEN, OPEN, [], []);
    OwnClosesBegins(n0, heap);
    var n5 := Link(TEARING, FINISHED, [], [FIN_ACK]);
    OwnClosesAnswers(n5);
    OwnClosesTakes(Link(TEARING, PARTED, [], [FIN_ACK, FIN]), heap);
    OwnClosesParts(Link(WHOLE, PARTED, [FIN_ACK], []), heap);
    var n9 := Link(WHOLE, AWAY, [], []);
    OwnClosesCommits(n9);
    var nets := [n0, n0.(a := OPEN.(writer := WriteSpin([7]))), n0.(a := ABOUT), n0.(a := TORN),
                 Link(TEARING, OPEN, [FIN], []), n5, Link(TEARING, PARTED, [], [FIN_ACK, FIN]),
                 Link(HALF, PARTED, [], [FIN]), Link(WHOLE, PARTED, [FIN_ACK], []), n9, n9.(a := ADDED),
                 Link(ALONE, AWAY, [BYTE], [])];
    var acts := OwnCloses(heap)[|Connected(heap)|..];
    assert Chain(nets, acts);
    ChainRuns(Connected(heap), nets, acts);
    assert Connected(heap) + acts == OwnCloses(heap);
  }

  /** The sender is connected and its peer's sequence numbers agree, so a resend is exactly what the
      peer would expect; but the peer is closed, and on no continuation is the byte acknowledged. */
  lemma ClosedPeerSticks(heap: Heap, more: seq<Action>)
    requires S.Run(heap, OwnCloses(heap) + more).Next?
    ensures S.Run(heap, OwnCloses(heap)).Next? && !KeepsRules(heap, OwnCloses(heap))
    ensures var w, w' := S.Run(heap, OwnCloses(heap)).world, S.Run(heap, OwnCloses(heap) + more).world;
      && w.a.sock.isConnection && w.b.sock.state == Closed && w.b.sock.ackNum == w.a.sock.seqNum
      && !Settled(w.a.sock) && !Settled(w'.a.sock)
  {
    hide P.Run, S.Run, Disciplined, KeepsRules, Settled, MatchComing;
    var acts := OwnCloses(heap);
    OwnClosesRuns(heap);
    RunMatches(heap, acts);
    var w, n := At(heap, acts);
    BitsMatch(w.a, n.a);
    BitsMatch(w.b, n.b);
    SendBackIs(w.a.sock, n.a);
    SendBackIs(w.b.sock, n.b);
    DesertedView(w, n);
    ClosedPeerNeverAnswers(heap, acts, more, false);
    NotOnTime(heap, acts);
  }
}
