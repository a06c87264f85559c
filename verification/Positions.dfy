/** Where both ends stand in the streams: how sequence numbers and ring indices agree, that no
    position ever moves backwards, and what an ACK says about the moment it was sent. */
module Positions {
  import opened Words
  import opened Ring
  import opened Tcp
  import M = Machine
  import S = System
  import P = Protocol
  import opened Invariant
  import opened Reachable
  import opened Refinement
  import opened Simulation
  import opened Theorems
  import opened Moments
  import opened Guarantees

  // ----- agreement -----

  /** On every run, sequence numbers and ring indices agree in their low 16 bits. What a sender
      with nothing outstanding sends next is what its peer expects next, so that a zero-window
      probe is answered, if and only if its sequence number is not one past that; it is so only
      after an ACK of a FIN was taken for that of a byte, never on a disciplined run. */
  lemma PositionsAgree(heap: Heap, acts: seq<Action>, fromB: bool)
    requires S.Run(heap, acts).Next?
    ensures var w := Seen(S.Run(heap, acts).world, fromB);
      var s, r := w.a.sock, w.b.sock;
      && (s.state == Established ==> U16(s.seqNum) == s.ackBack && U16(s.ackNum) == s.recvFront)
      && (s.state == Established && r.state == Established && Settled(s) ==>
            && (r.ackNum == s.seqNum && r.recvFront == s.sendBack <==> s.seqNum != U32(r.ackNum + 1))
            && (s.seqNum == U32(r.ackNum + 1) ==> s.cl.finSent && r.cl.finRecv && !Disciplined(heap, acts)))
  {
    hide S.Run, P.Run, Disciplined, Phase, Direction, HostMatches, Endpoint, Bounded, P.Late, U16, U32, Settled;
    var w, n := AtSide(heap, acts, fromB);
    if w.a.sock.state == Established {
      AgreeOneWay(w, n);
    }
  }

  lemma SettledPositions(n: P.Net)
    requires Both(n) && n.a.tx.acked == n.a.tx.sent
    ensures |n.b.rx.received| == n.a.tx.acked || |n.b.rx.received| + 1 == n.a.tx.acked
    ensures |n.b.rx.received| != n.a.tx.acked ==> P.Late(n.a.tx) && n.a.tx.finSent && n.b.rx.finRecv
  {
    hide Forward, Backward, Owed;
  }

  lemma AgreeOneWay(w: S.World, n: P.Net)
    requires Matches(w, n) && Both(n) && Bounded(n.a) && Bounded(n.b) && w.a.sock.state == Established
    ensures U16(w.a.sock.seqNum) == w.a.sock.ackBack && U16(w.a.sock.ackNum) == w.a.sock.recvFront
    ensures var s, r := w.a.sock, w.b.sock;
      r.state == Established && Settled(s) ==>
        && (r.ackNum == s.seqNum && r.recvFront == s.sendBack <==> s.seqNum != U32(r.ackNum + 1))
        && (s.seqNum == U32(r.ackNum + 1) ==> P.Late(n.a.tx) && s.cl.finSent && r.cl.finRecv)
  {
    var got := |n.b.rx.received|;
    U16OfU32(n.a.tx.acked);
    U16OfU32(|n.a.rx.received|);
    SendBackIs(w.a.sock, n.a);
    SendBackIs(w.b.sock, n.b);
    SettledIs(w.a, n.a);
    MatchingRx(w.a.sock, n.a);
    MatchingRx(w.b.sock, n.b);
    if w.a.sock.state == Established { EstablishedIsOpen(w.a.sock, n.a); }
    if n.a.tx.acked == n.a.tx.sent { SettledPositions(n); }
    hide Both, SockMatches, Holds, U16, U32, Settled, P.Late;
    if n.a.tx.acked == n.a.tx.sent { NumbersNear(n.a.tx.acked, got); }
  }

  lemma EstablishedIsOpen(s: M.Sock, x: P.Peer)
    requires SockMatches(s, x) && s.state == Established
    ensures Open(x) && s.seqNum == U32(x.tx.acked)
  {
    hide Holds;
  }

  // ----- nothing moves backwards -----

  /** The number of committed bytes the host has an ACK for. */
  function AckedCount(h: S.Host): int {
    |h.committed| - Unacknowledged(h.sock)
  }

  /** Every position of `h` in either stream is at most that of `h'`. */
  predicate HostGrows(h: S.Host, h': S.Host) {
    && h.committed <= h'.committed && h.returned <= h'.returned && Arrived(h) <= Arrived(h')
    && SentCount(h) <= SentCount(h') && AckedCount(h) <= AckedCount(h')
  }

  lemma GrowsMatches(h: S.Host, x: P.Peer, h': S.Host, x': P.Peer)
    requires HostMatches(h, x) && Bounded(x) && HostMatches(h', x') && Bounded(x') && Grows(x, x')
    ensures HostGrows(h, h')
  {
    hide SockMatches, SentCount, Unacknowledged, Arrived, Bounded;
    ArrivedIs(h, x);
    ArrivedIs(h', x');
    SentCountIs(h, x);
    SentCountIs(h', x');
    UnacknowledgedIs(h, x);
    UnacknowledgedIs(h', x');
    ReturnedGrowsWith(x, x');
  }

  lemma ReturnedGrowsWith(x: P.Peer, x': P.Peer)
    requires Bounded(x) && Bounded(x') && Grows(x, x')
    ensures P.Returned(x.rx) <= P.Returned(x'.rx)
  {
  }

  /** No step of any run takes back a byte that was committed, sent, acknowledged, received or
      returned. */
  lemma NothingMovesBack(heap: Heap, acts: seq<Action>, act: Action)
    requires S.Run(heap, acts).Next? && S.Step(S.Run(heap, acts).world, act).Next?
    ensures var w := S.Run(heap, acts).world;
      var w' := S.Step(w, act).world;
      HostGrows(w.a, w'.a) && HostGrows(w.b, w'.b)
  {
    var w, n := At(heap, acts);
    hide S.Run, P.Run, Direction, Endpoint, Phase, HostMatches, S.Step, P.Step, HostGrows;
    StepMatches(w, n, act);
    StepKeeps(n, act);
    var w', n' := S.Step(w, act).world, P.Step(n, act).net;
    InvBounds(n');
    StepGrows(n, act);
    hide Grows, Bounded;
    GrowsMatches(w.a, n.a, w'.a, n'.a);
    GrowsMatches(w.b, n.b, w'.b, n'.b);
  }

  // ----- the moment an ACK was sent -----

  /** What taking a matched ACK does to the window, and which ACK it is. */
  lemma MatchedWindow(w: S.World, n: P.Net, client: bool)
    requires Matches(w, n) && Both(n) && PhaseOf(n, client) && Bounded(n.a) && Bounded(n.b)
    requires w.a.sock.state == Established && |w.ba| > 0 && w.ba[0].ctrl.ack
    requires U16(w.ba[0].ackNum) == w.a.sock.sendBack
    ensures IsAck(n.ba[0]) && n.ba[0].ackPos == n.a.tx.sent
    ensures FinAck(n.a.tx, n.b.rx, n.ba[0]) ==> P.Late(n.a.tx) && w.a.sock.cl.finSent
    ensures var after := M.AckSend(w.a.sock, w.ba[0]);
      after.Done? && WindowEnd(w.a.(sock := after.sock)) == n.a.tx.sent + n.ba[0].window
  {
    AckOneWay(w, n, client);
    SentCountIs(w.a, n.a);
    HeadKind(n, client);
    MatchOpens(w.a, w.ba[0]);
    hide Phase, Holds, Forward, Owed, SentCount, WindowEnd, M.AckSend, TxFields, RxFields, U16, U32, Bounded;
    assert Carries(w.ba[0], n.ba[0]) && AckOk(n.a.tx, n.b.rx, n.ba[0]);
  }

  lemma MatchOpens(h: S.Host, q: Packet)
    requires U16(q.ackNum) == h.sock.sendBack && M.AckSend(h.sock, q).Done?
    ensures WindowEnd(h.(sock := M.AckSend(h.sock, q).sock)) == SentCount(h) + q.window
  {
  }

  /** Windows are what the receiver last said. A matched ACK moves the sender's window to 65535
      bytes beyond what the receiver's application had read at the moment the ACK was sent, and
      everything sent by now had arrived at that moment. So the answer to a zero-window probe lets
      the sender go on as soon as one byte had been read. The one exception is `extra`: an ACK that
      answers a FIN claims one byte more, and opens the window by one byte too much. */
  lemma WindowIsReadPosition(heap: Heap, acts: seq<Action>, fromB: bool) returns (k: nat, extra: nat)
    requires S.Run(heap, acts).Next?
    requires var w := Seen(S.Run(heap, acts).world, fromB);
      w.a.sock.state == Established && |w.ba| > 0 && w.ba[0].ctrl.ack && U16(w.ba[0].ackNum) == w.a.sock.sendBack
    ensures k <= |acts| && S.Run(heap, acts[..k]).Next?
    ensures var w, then' := Seen(S.Run(heap, acts).world, fromB), Seen(S.Run(heap, acts[..k]).world, fromB);
      var after := M.AckSend(w.a.sock, w.ba[0]);
      && after.Done?
      && |Arrived(then'.b)| + extra == SentCount(w.a)
      && WindowEnd(w.a.(sock := after.sock)) == |then'.b.returned| + P.LAP + extra
      && extra <= 1 && (extra == 1 ==> w.a.sock.cl.finSent && then'.b.sock.cl.finRecv)
    ensures Disciplined(heap, acts) ==> extra == 0
  {
    hide S.Run, P.Run, Disciplined, Direction, Endpoint, Phase, HostMatches, Bounded, P.Late;
    hide SentCount, WindowEnd, Arrived, FinAck, M.AckSend;
    var w, n := AtSide(heap, acts, fromB);
    MatchedWindow(w, n, !fromB);
    SentCountIs(w.a, n.a);
    k, extra := AcksAreAnswers(acts, fromB, n.ba[0]);
    RunMatches(heap, acts[..k]);
    var then', m := AtSide(heap, acts[..k], fromB);
    ArrivedIs(then'.b, m.b);
    ReadCount(then'.b, m.b);
  }

  lemma ReadCount(h: S.Host, x: P.Peer)
    requires HostMatches(h, x) && Bounded(x)
    ensures |h.returned| == x.rx.read && h.sock.cl.finRecv == x.rx.finRecv
  {
    hide Holds;
  }
}
