/** Asserts, flow control and acknowledgement, on every run of the machine. `Disciplined` runs are
    those where no writeLab commit follows its own socket's FIN. A statement about one
    stream takes the sending endpoint as `fromB` and sees that endpoint as `a`. */
module Guarantees {
  import opened Words
  import opened Ring
  import opened Tcp
  import M = Machine
  import S = System
  import P = Protocol
  import opened Invariant
  import opened Reachable
  import opened Refinement
  import opened Simulation
  import opened Theorems
  import opened Moments

  // ----- the moment a FIN went out -----

  /** Step `k` is the one in which the chosen host first sends a FIN. */
  ghost predicate FinSentAt(heap: Heap, acts: seq<Action>, fromB: bool, k: nat) {
    && k < |acts|
    && S.Run(heap, acts[..k]).Next? && !Seen(S.Run(heap, acts[..k]).world, fromB).a.sock.cl.finSent
    && S.Run(heap, acts[..k + 1]).Next? && Seen(S.Run(heap, acts[..k + 1]).world, fromB).a.sock.cl.finSent
  }

  /** What the chosen host had committed after the first `k` steps. */
  function CommittedAt(heap: Heap, acts: seq<Action>, fromB: bool, k: nat): seq<byte>
    requires k <= |acts| && S.Run(heap, acts[..k]).Next?
  {
    Seen(S.Run(heap, acts[..k]).world, fromB).a.committed
  }

  lemma FinBits(heap: Heap, acts: seq<Action>, fromB: bool)
    requires S.Run(heap, acts).Next?
    ensures P.Run(acts).Next?
    ensures var w, n := Seen(S.Run(heap, acts).world, fromB), Seen(P.Run(acts).net, fromB);
      w.a.sock.cl == P.Bits(n.a) && w.b.sock.cl == P.Bits(n.b) && w.a.committed == n.a.tx.committed
  {
    var w, n := AtSide(heap, acts, fromB);
    hide S.Run, P.Run, Direction, Endpoint, Phase, SockMatches;
    BitsMatch(w.a, n.a);
    BitsMatch(w.b, n.b);
  }

  /** What was committed at that moment is what `finPos` counts. */
  lemma FinPosAt(heap: Heap, acts: seq<Action>, fromB: bool, k: nat)
    requires S.Run(heap, acts).Next? && FinSentAt(heap, acts, fromB, k)
    ensures P.Run(acts).Next? && var tx := Seen(P.Run(acts).net, fromB).a.tx;
      tx.finSent && tx.finPos <= |tx.committed| && CommittedAt(heap, acts, fromB, k) == tx.committed[..tx.finPos]
  {
    FinBits(heap, acts, fromB);
    FinBits(heap, acts[..k], fromB);
    FinBits(heap, acts[..k + 1], fromB);
    hide S.Run, P.Run;
    FinLength(acts, fromB, k);
  }

  lemma FinSentMoment(heap: Heap, acts: seq<Action>, fromB: bool) returns (k: nat)
    requires S.Run(heap, acts).Next? && Seen(S.Run(heap, acts).world, fromB).a.sock.cl.finSent
    ensures FinSentAt(heap, acts, fromB, k)
  {
    FinBits(heap, acts, fromB);
    hide S.Run, P.Run, P.Step;
    k := FinMoment(acts, fromB);
    RunMatches(heap, acts[..k]);
    RunMatches(heap, acts[..k + 1]);
    FinBits(heap, acts[..k], fromB);
    FinBits(heap, acts[..k + 1], fromB);
  }

  // ----- asserts -----

  /** The next packet of `ch` is the one the socket expects, and longer than its free space. */
  predicate Overflows(s: M.Sock, ch: seq<Packet>) {
    && s.state == Established
    && |ch| > 0 && ch[0].seqNum == s.ackNum && |ch[0].data| > M.Window(s)
  }

  predicate TooLong(x: P.Peer, ch: seq<P.Segment>) {
    && x.state == Established
    && |ch| > 0 && ch[0].seqPos == |x.rx.received| && |ch[0].data| > P.Window(x.rx)
  }

  lemma TooLongMatches(w: S.World, n: P.Net, client: bool)
    requires Matches(w, n) && Both(n) && PhaseOf(n, client) && Bounded(n.a)
    ensures Overflows(w.a.sock, w.ba) <==> TooLong(n.a, n.ba)
    ensures TooLong(n.a, n.ba) ==> |n.ba[0].data| == |w.ba[0].data| && M.Window(w.a.sock) == P.Window(n.a.rx)
  {
    hide Both, Phase, TxFields, Holds, M.Window, P.Window;
    MatchingRx(w.a.sock, n.a);
    WindowMatches(w.a.sock, n.a.rx);
    if w.a.sock.state == Established && |w.ba| > 0 {
      HeadKind(n, client);
      HeadLegible(n);
      assert Carries(w.ba[0], n.ba[0]);
      if IsData(n.ba[0]) {
        SegmentTests(w.a.sock, n.a, w.ba[0], n.ba[0]);
      } else {
        NoWindowIsNegative(n.a.rx);
      }
    }
  }

  lemma NoWindowIsNegative(rx: P.Rx)
    requires |rx.received| <= rx.read + P.LAP
    ensures P.Window(rx) >= 0
  {
  }

  /** A delivery fails an assert exactly for a segment that is too long, then by one byte, and the
      sender's stream has grown past its FIN. */
  lemma CrashOneWay(n: P.Net, client: bool, act: Action)
    requires Both(n) && PhaseOf(n, client)
    ensures P.StepA(n, act).Crash? <==> act.Deliver? && TooLong(n.a, n.ba)
    ensures TooLong(n.a, n.ba) ==> P.Late(n.b.tx) && |n.ba[0].data| == P.Window(n.a.rx) + 1
  {
    if n.ba != [] && n.a.state == Established {
      HeadKind(n, client);
      hide Owed, Backward, Phase;
      var p := n.ba[0];
      assert IsData(p) ==> DataOk(n.b.tx, |n.a.rx.received|, p);
      assert P.Receive(n.a, p).Abort? <==> P.OnData(n.a, p).Abort?;
    } else if act.Deliver? && n.ba != [] && n.a.state != Closed {
      HandshakeHead(n, client);
    }
  }

  /** On every run, an assert of TCPHandleEstablished fails exactly when the expected segment is
      longer than the free space of the receive ring. */
  lemma CrashIsOverflow(heap: Heap, acts: seq<Action>, act: Action)
    requires S.Run(heap, acts).Next?
    ensures var w := S.Run(heap, acts).world;
      S.Step(w, act).Crash? <==>
        act.Deliver? && if act.toB then Overflows(w.b.sock, w.ab) else Overflows(w.a.sock, w.ba)
  {
    var w, n := At(heap, acts);
    hide S.Run, P.Run, Direction, Endpoint, Phase, HostMatches, Overflows, TooLong, P.Step, S.Step, Bounded;
    StepMatches(w, n, act);
    CrashStep(n, act);
    TooLongMatches(Flip(w), Flip(n), false);
    TooLongMatches(w, n, true);
  }

  lemma CrashStep(n: P.Net, act: Action)
    requires Inv(n)
    ensures P.Step(n, act).Crash? <==>
              act.Deliver? && if act.toB then TooLong(n.b, n.ab) else TooLong(n.a, n.ba)
  {
    hide Direction, Endpoint, Phase, TooLong, P.StepA;
    if AtB(act) {
      CrashOneWay(Flip(n), false, act);
    } else {
      CrashOneWay(n, true, act);
    }
  }

  /** Such a segment is one byte too long, and its sender has committed bytes after its FIN. */
  lemma OverflowIsOneByte(heap: Heap, acts: seq<Action>, fromB: bool)
    requires S.Run(heap, acts).Next?
    requires var w := Seen(S.Run(heap, acts).world, fromB); Overflows(w.b.sock, w.ab)
    ensures var w := Seen(S.Run(heap, acts).world, fromB);
      w.a.sock.cl.finSent && |w.ab[0].data| == M.Window(w.b.sock) + 1
    ensures forall k :: FinSentAt(heap, acts, fromB, k) ==>
              |CommittedAt(heap, acts, fromB, k)| < |Seen(S.Run(heap, acts).world, fromB).a.committed|
    ensures !Disciplined(heap, acts)
  {
    hide S.Run, P.Run, Direction, Endpoint, Phase, HostMatches, Bounded, Overflows, TooLong, Disciplined;
    var w, n := AtSide(heap, acts, fromB);
    TooLongMatches(Flip(w), Flip(n), fromB);
    CrashOneWay(Flip(n), fromB, Deliver(true, heap));
    FinBits(heap, acts, fromB);
    forall k | FinSentAt(heap, acts, fromB, k)
      ensures |CommittedAt(heap, acts, fromB, k)| < |w.a.committed|
    {
      FinPosAt(heap, acts, fromB, k);
    }
  }

  /** On a disciplined run no assert of TCPHandleEstablished ever fails. */
  lemma {:induction false} NeverCrashes(heap: Heap, acts: seq<Action>)
    requires Disciplined(heap, acts)
    ensures S.Run(heap, acts).Next?
    decreases |acts|
  {
    hide S.Step, CommitsLate, Overflows;
    if acts != [] {
      var before, act := acts[..|acts| - 1], acts[|acts| - 1];
      NeverCrashes(heap, before);
      CrashIsOverflow(heap, before, act);
      if S.Step(S.Run(heap, before).world, act).Crash? {
        OverflowIsOneByte(heap, before, !act.toB);
        assert false;
      }
    }
  }

  // ----- flow control -----

  /** The number of bytes a host has put on the wire at least once. */
  function SentCount(h: S.Host): int {
    |h.committed| - U16(h.sock.sendFront - h.sock.sendBack)
  }

  lemma SentCountIs(h: S.Host, x: P.Peer)
    requires HostMatches(h, x) && Bounded(x)
    ensures SentCount(h) == x.tx.sent
  {
    hide Holds;
    U16Distance(|x.tx.committed|, x.tx.sent);
  }

  /** The stream position up to which a host may send. */
  function WindowEnd(h: S.Host): int {
    SentCount(h) + U16(h.sock.ackFront - h.sock.sendBack)
  }

  lemma WindowEndIs(h: S.Host, x: P.Peer)
    requires HostMatches(h, x) && Bounded(x) && Open(x)
    ensures WindowEnd(h) == x.tx.front
  {
    SentCountIs(h, x);
    hide Holds, SentCount;
    U16Distance(x.tx.front, x.tx.sent);
  }

  lemma WindowOneWay(w: S.World, n: P.Net)
    requires Matches(w, n) && Both(n) && Bounded(n.a) && w.a.sock.isConnection
    ensures WindowEnd(w.a) <= |w.b.returned| + P.LAP + 1
    ensures WindowEnd(w.a) > |w.b.returned| + P.LAP ==> P.Late(n.a.tx) && w.a.sock.cl.finSent
  {
    hide Forward, Backward, Owed, Holds;
    WindowEndIs(w.a, n.a);
  }

  /** On every run, the window a sender works with ends at most 65536 bytes beyond the bytes the
      receiver's application has read. That is one byte more than the ring can take, and only a
      host whose FIN is out, on a run that is not disciplined, ever has that byte. */
  lemma FlowControl(heap: Heap, acts: seq<Action>, fromB: bool)
    requires S.Run(heap, acts).Next? && Seen(S.Run(heap, acts).world, fromB).a.sock.isConnection
    ensures var w := Seen(S.Run(heap, acts).world, fromB);
      && WindowEnd(w.a) <= |w.b.returned| + P.LAP + 1
      && (WindowEnd(w.a) > |w.b.returned| + P.LAP ==> w.a.sock.cl.finSent && !Disciplined(heap, acts))
  {
    hide S.Run, P.Run, Disciplined, Direction, Endpoint, Phase, HostMatches, WindowEnd, P.Late, Bounded;
    var w, n := AtSide(heap, acts, fromB);
    WindowOneWay(w, n);
  }

  // ----- acknowledgements -----

  lemma AckOneWay(w: S.World, n: P.Net, client: bool)
    requires Matches(w, n) && Both(n) && PhaseOf(n, client) && Bounded(n.a) && Bounded(n.b)
    requires w.a.sock.state == Established && |w.ba| > 0 && w.ba[0].ctrl.ack
    ensures M.AckSend(w.a.sock, w.ba[0]).Done?
    ensures U16(w.ba[0].ackNum) == w.a.sock.sendBack <==> n.ba[0].ackPos == n.a.tx.sent
    ensures !P.Late(n.a.tx) && n.ba[0].ackPos == n.a.tx.sent ==> |n.b.rx.received| == n.a.tx.sent
    ensures |n.b.rx.received| <= n.a.tx.sent
  {
    hide Phase, Holds, Forward, Owed;
    HeadKind(n, client);
    HeadLegible(n);
    assert Carries(w.ba[0], n.ba[0]);
    assert AckOk(n.a.tx, n.b.rx, n.ba[0]);
    hide U16, U32;
    AckSendMatches(w.a.sock, n.a.tx, w.ba[0], n.ba[0]);
  }

  lemma NotLateYet(tx: P.Tx)
    ensures !tx.finSent ==> !P.Late(tx)
  {
  }

  /** The assert on ackBack never fails, on any run. On a disciplined run, and on any run before the
      FIN is out, the 16-bit match is exact: an ACK is accepted only when the peer has received
      every byte sent so far. */
  lemma AckMatchIsExact(heap: Heap, acts: seq<Action>, fromB: bool)
    requires S.Run(heap, acts).Next?
    requires var w := Seen(S.Run(heap, acts).world, fromB);
      w.a.sock.state == Established && |w.ba| > 0 && w.ba[0].ctrl.ack
    ensures var w := Seen(S.Run(heap, acts).world, fromB);
      && M.AckSend(w.a.sock, w.ba[0]).Done?
      && ((Disciplined(heap, acts) || !w.a.sock.cl.finSent) && U16(w.ba[0].ackNum) == w.a.sock.sendBack ==>
            |Arrived(w.b)| == SentCount(w.a))
  {
    hide S.Run, P.Run, Disciplined, Direction, Endpoint, Phase, HostMatches, Bounded, P.Late, SentCount, Arrived;
    var w, n := AtSide(heap, acts, fromB);
    FinBits(heap, acts, fromB);
    assert !w.a.sock.cl.finSent ==> !P.Late(n.a.tx) by { NotLateYet(n.a.tx); }
    AckOneWay(w, n, !fromB);
    StreamOneWay(w, n);
    SentCountIs(w.a, n.a);
  }

  lemma MatchOneWay(w: S.World, n: P.Net, client: bool)
    requires Matches(w, n) && Both(n) && PhaseOf(n, client) && Bounded(n.a) && Bounded(n.b)
    requires w.a.sock.state == Established && |w.ba| > 0 && w.ba[0].ctrl.ack
    requires n.ba[0].ackPos == n.a.tx.sent
    ensures |n.b.rx.received| == n.a.tx.sent <==> w.ba[0].ackNum != U32(w.b.sock.ackNum + 1)
    ensures |n.b.rx.received| != n.a.tx.sent ==>
              && w.a.sock.cl.finSent && w.b.sock.cl.finRecv && |n.b.rx.received| + 1 == n.a.tx.sent
              && n.a.tx.finPos + 1 == n.a.tx.sent
  {
    hide Phase, Holds, Forward, Owed;
    HeadKind(n, client);
    assert Carries(w.ba[0], n.ba[0]);
    assert AckOk(n.a.tx, n.b.rx, n.ba[0]);
    U32OfSum(|n.b.rx.received|, 1);
    assert w.b.sock.ackNum == U32(|n.b.rx.received|);
    U32Near(n.a.tx.sent, |n.b.rx.received| + 1);
  }

  /** On every run, exactly when a matched ACK tells the truth: unless its number is one past what
      the peer expects next. It then answers a FIN and was taken for the ACK of a single byte
      sent after it, which the peer lacks. What the sender can see of this: the ACK is true if
      no FIN is out, or if the bytes sent are not exactly one more than were committed when the
      FIN went out. With exactly one more, Witnesses.SenderCannotTell shows that only the peer
      knows. */
  lemma MatchedAckIsTrue(heap: Heap, acts: seq<Action>, fromB: bool)
    requires S.Run(heap, acts).Next?
    requires var w := Seen(S.Run(heap, acts).world, fromB);
      w.a.sock.state == Established && |w.ba| > 0 && w.ba[0].ctrl.ack && U16(w.ba[0].ackNum) == w.a.sock.sendBack
    ensures var w := Seen(S.Run(heap, acts).world, fromB);
      && (|Arrived(w.b)| == SentCount(w.a) <==> w.ba[0].ackNum != U32(w.b.sock.ackNum + 1))
      && (|Arrived(w.b)| != SentCount(w.a) ==>
            w.a.sock.cl.finSent && w.b.sock.cl.finRecv && |Arrived(w.b)| + 1 == SentCount(w.a))
      && forall k :: FinSentAt(heap, acts, fromB, k) && SentCount(w.a) != |CommittedAt(heap, acts, fromB, k)| + 1 ==>
                       |Arrived(w.b)| == SentCount(w.a)
  {
    hide S.Run, P.Run, Direction, Endpoint, Phase, HostMatches, Bounded, SentCount, Arrived, U16, U32;
    var w, n := AtSide(heap, acts, fromB);
    AckOneWay(w, n, !fromB);
    MatchOneWay(w, n, !fromB);
    ArrivedIs(w.b, n.b);
    SentCountIs(w.a, n.a);
    forall k | FinSentAt(heap, acts, fromB, k)
      ensures |CommittedAt(heap, acts, fromB, k)| == n.a.tx.finPos
    {
      FinPosAt(heap, acts, fromB, k);
    }
  }

  /** The packet holds bytes the host has committed and sent, at its own sequence number. */
  ghost predicate FromStream(h: S.Host, q: Packet) {
    exists pos: nat :: && pos + |q.data| <= SentCount(h)
                       && q.seqNum == U32(pos)
                       && q.data == h.committed[pos..pos + |q.data|]
  }

  /** Every data packet in flight carries the sender's committed bytes at its sequence number,
      although writeLab may have reused the rest of the ring since it was first sent. */
  lemma SegmentsCarryTheStream(heap: Heap, acts: seq<Action>, fromB: bool)
    requires S.Run(heap, acts).Next?
    ensures var w := Seen(S.Run(heap, acts).world, fromB);
      forall q :: q in w.ab && q.ctrl == CT_NONE ==> FromStream(w.a, q)
  {
    hide S.Run, P.Run, FromStream, Direction, Endpoint, Phase, HostMatches, Carries, Bounded;
    var w, n := AtSide(heap, acts, fromB);
    forall q | q in w.ab && q.ctrl == CT_NONE
      ensures FromStream(w.a, q)
    {
      var i :| 0 <= i < |w.ab| && w.ab[i] == q;
      SegmentOneWay(w, n, i);
    }
  }

  lemma SegmentOneWay(w: S.World, n: P.Net, i: nat)
    requires Matches(w, n) && Both(n) && Bounded(n.a)
    requires i < |w.ab| && w.ab[i].ctrl == CT_NONE
    ensures FromStream(w.a, w.ab[i])
  {
    SentCountIs(w.a, n.a);
    hide Phase, Holds, Backward, Owed, Endpoint, U16, U32, SockMatches, SentCount, Bounded;
    assert Carries(w.ab[i], n.ab[i]);
    assert DataOk(n.a.tx, |n.b.rx.received|, n.ab[i]);
    var pos: nat := n.ab[i].seqPos;
    assert w.ab[i].data == w.a.committed[pos..pos + |w.ab[i].data|];
  }

  // ----- progress -----

  /** The sender has nothing outstanding. */
  predicate Settled(s: M.Sock) {
    s.sendBack == s.ackBack
  }

  /** An ACK the sender will match is in flight. */
  ghost predicate MatchComing(w: S.World) {
    exists q :: q in w.ba && q.ctrl == CT_ACK && U16(q.ackNum) == w.a.sock.sendBack
  }

  /** No stuck sender. On every run, while a connected sender has a segment outstanding, either the
      receiver still expects it, so that a resend will be accepted, or an ACK that the sender will
      match is in flight. The exact exception is a receiver one byte behind the sender's sequence
      number, after an ACK of a FIN was taken for that byte's; a disciplined run has no such
      state. A receiver that is closed expects nothing any more: see
      Settling.ClosedPeerNeverAnswers. */
  lemma NoStuckSender(heap: Heap, acts: seq<Action>, fromB: bool)
    requires S.Run(heap, acts).Next?
    requires !Settled(Seen(S.Run(heap, acts).world, fromB).a.sock)
    ensures var w := Seen(S.Run(heap, acts).world, fromB);
      && (w.a.sock.isConnection ==>
            && (w.b.sock.ackNum == w.a.sock.seqNum || MatchComing(w) <==> w.a.sock.seqNum != U32(w.b.sock.ackNum + 1))
            && (w.a.sock.seqNum == U32(w.b.sock.ackNum + 1) ==>
                  w.a.sock.cl.finSent && w.b.sock.cl.finRecv && !Disciplined(heap, acts)))
      && (Disciplined(heap, acts) ==> w.a.sock.isConnection)
  {
    hide S.Run, P.Run, Disciplined, Direction, Endpoint, Phase, HostMatches, P.Late, Bounded, U16, MatchComing, Settled;
    var w, n := AtSide(heap, acts, fromB);
    SettledIs(w.a, n.a);
    BitsMatch(w.a, n.a);
    if Disciplined(heap, acts) { OutstandingIsConnected(n); }
    if w.a.sock.isConnection { OutstandingOneWay(w, n); }
  }

  lemma OutstandingIsConnected(n: P.Net)
    requires Both(n) && !P.Late(n.a.tx) && n.a.tx.sent != n.a.tx.acked
    ensures n.a.tx.conn && !n.a.tx.finSent && !n.b.rx.finRecv
  {
    hide Forward, Backward, Owed;
  }

  lemma SettledIs(h: S.Host, x: P.Peer)
    requires HostMatches(h, x) && Bounded(x)
    ensures Settled(h.sock) <==> x.tx.sent == x.tx.acked
  {
    hide Holds;
    U16Near(x.tx.sent, x.tx.acked);
  }

  lemma MatchComingIs(w: S.World, n: P.Net)
    requires Matches(w, n) && Direction(n.a.tx, n.b.rx, n.ab, n.ba) && Bounded(n.a)
    ensures MatchComing(w) <==> AckOf(n.ba, n.a.tx.sent)
  {
    hide Forward, Owed, Holds, SockMatches, U16, U32;
    assert w.a.sock.sendBack == U16(n.a.tx.sent) by { SendBackIs(w.a.sock, n.a); }
    hide HostMatches;
    if AckOf(n.ba, n.a.tx.sent) {
      var p :| p in n.ba && IsAck(p) && p.ackPos == n.a.tx.sent;
      var i :| 0 <= i < |n.ba| && n.ba[i] == p;
      assert Carries(w.ba[i], p) && w.ba[i] in w.ba;
      U16OfU32(p.ackPos);
    }
    if MatchComing(w) {
      var q :| q in w.ba && q.ctrl == CT_ACK && U16(q.ackNum) == w.a.sock.sendBack;
      var i :| 0 <= i < |w.ba| && w.ba[i] == q;
      assert Carries(q, n.ba[i]) && AckOk(n.a.tx, n.b.rx, n.ba[i]);
      U16OfU32(n.ba[i].ackPos);
      U16Near(n.ba[i].ackPos, n.a.tx.sent);
      assert n.ba[i] in n.ba;
    }
  }

  lemma SendBackIs(s: M.Sock, x: P.Peer)
    requires SockMatches(s, x)
    ensures s.sendBack == U16(x.tx.sent) && s.ackBack == U16(x.tx.acked) && s.ackNum == U32(|x.rx.received|)
    ensures Open(x) ==> s.seqNum == U32(x.tx.acked)
    ensures s.cl == P.Bits(x) && s.isConnection == x.tx.conn
  {
  }

  lemma OutstandingPositions(n: P.Net)
    requires Both(n) && n.a.tx.conn && n.a.tx.acked != n.a.tx.sent
    ensures var acked, got := n.a.tx.acked, |n.b.rx.received|;
      && (got == acked || AckOf(n.ba, n.a.tx.sent) <==> acked != got + 1)
      && (acked == got + 1 ==> P.Late(n.a.tx) && n.a.tx.finSent && n.b.rx.finRecv)
      && acked <= got + 1 && got <= acked + MAX_TCP_LEN
  {
    hide Forward, Endpoint;
    if AckOf(n.ba, n.a.tx.sent) {
      var p :| p in n.ba && IsAck(p) && p.ackPos == n.a.tx.sent;
      assert AckOk(n.a.tx, n.b.rx, p);
    }
  }

  lemma OutstandingOneWay(w: S.World, n: P.Net)
    requires Matches(w, n) && Both(n) && Bounded(n.a)
    requires w.a.sock.isConnection && !Settled(w.a.sock)
    ensures w.b.sock.ackNum == w.a.sock.seqNum || MatchComing(w) <==> w.a.sock.seqNum != U32(w.b.sock.ackNum + 1)
    ensures w.a.sock.seqNum == U32(w.b.sock.ackNum + 1) ==>
              P.Late(n.a.tx) && w.a.sock.cl.finSent && w.b.sock.cl.finRecv
  {
    MatchComingIs(w, n);
    SendBackIs(w.a.sock, n.a);
    SendBackIs(w.b.sock, n.b);
    ConnOpen(n);
    hide Direction, Endpoint, MatchComing, HostMatches, CarriesAll, U16, U32, P.Late, Bounded;
    OutstandingPositions(n);
    var acked, got := n.a.tx.acked, |n.b.rx.received|;
    NumbersNear(acked, got);
  }

  /** Near positions, as sequence numbers. */
  lemma NumbersNear(acked: int, got: int)
    requires -2 * P.LAP <= acked - got <= 2 * P.LAP
    ensures U32(got) == U32(acked) <==> got == acked
    ensures U32(acked) == U32(U32(got) + 1) <==> acked == got + 1
  {
    U32OfSum(got, 1);
    U32Near(acked, got);
    U32Near(acked, got + 1);
  }

  /** The number of committed bytes the host has no ACK for. */
  function Unacknowledged(s: M.Sock): int {
    U16(s.sendFront - s.ackBack)
  }

  lemma UnacknowledgedIs(h: S.Host, x: P.Peer)
    requires HostMatches(h, x) && Bounded(x)
    ensures Unacknowledged(h.sock) == |x.tx.committed| - x.tx.acked
  {
    hide Holds;
    U16Distance(|x.tx.committed|, x.tx.acked);
  }

}
