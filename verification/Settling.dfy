/** Progress from any state of a run: deliveries alone empty the channels, one timer round then
    settles the sender, and a closed peer leaves it unsettled for good. */
module Settling {
  import opened Words
  import opened Ring
  import opened Tcp
  import M = Machine
  import S = System
  import P = Protocol
  import opened Invariant
  import opened DirectionSteps
  import opened Reachable
  import opened Refinement
  import opened Simulation
  import opened Theorems
  import opened Moments
  import opened Guarantees
  import opened Progress

  // ----- a matched ACK takes the sender forward -----

  lemma MatchSettles(n: P.Net, act: Action)
    requires Both(n) && act.Deliver? && n.a.state == Established && n.ba != []
    requires IsAck(n.ba[0]) && n.ba[0].ackPos == n.a.tx.sent && |n.ba[0].data| == 0
    ensures P.StepA(n, act).Next?
    ensures var tx, tx' := n.a.tx, P.StepA(n, act).net.a.tx;
      tx'.acked == tx'.sent == tx.sent && tx'.committed == tx.committed
  {
    hide Both;
    assert P.OnEstablished(n.a, n.ba[0]) == P.Done(P.OnAck(n.a, n.ba[0]), []);
  }

  /** On every run, an ACK that is matched while a segment is outstanding leaves strictly fewer
      committed bytes unacknowledged, and nothing outstanding. */
  lemma MatchIsProgress(heap: Heap, acts: seq<Action>, fromB: bool, heap': Heap)
    requires S.Run(heap, acts).Next?
    requires var w := Seen(S.Run(heap, acts).world, fromB);
      && w.a.sock.state == Established && !Settled(w.a.sock)
      && |w.ba| > 0 && w.ba[0].ctrl.ack && U16(w.ba[0].ackNum) == w.a.sock.sendBack
    ensures var after := S.Step(S.Run(heap, acts).world, Deliver(fromB, heap'));
      && after.Next?
      && var w, w' := Seen(S.Run(heap, acts).world, fromB), Seen(after.world, fromB);
      && Settled(w'.a.sock) && Unacknowledged(w'.a.sock) < Unacknowledged(w.a.sock)
      && SentCount(w'.a) == SentCount(w.a) && w'.a.committed == w.a.committed
  {
    var act := Deliver(fromB, heap');
    hide S.Run, P.Run, Direction, Endpoint, Phase, HostMatches, Bounded, Settled, Unacknowledged, SentCount, U16;
    hide P.Step, S.Step;
    var w0, n0 := At(heap, acts);
    var w, n := AtSide(heap, acts, fromB);
    MatchStep(w, n, n0, act, fromB);
    StepMatches(w0, n0, act);
    StepKeeps(n0, act);
    var n' := P.Step(n0, act).net;
    InvBounds(n');
    SettledByMatch(w, n, Seen(S.Step(w0, act).world, fromB), Seen(n', fromB));
  }

  lemma MatchStep(w: S.World, n: P.Net, n0: P.Net, act: Action, fromB: bool)
    requires Matches(w, n) && Both(n) && PhaseOf(n, !fromB) && Bounded(n.a) && Bounded(n.b)
    requires n == Seen(n0, fromB) && act.Deliver? && act.toB == fromB
    requires w.a.sock.state == Established && |w.ba| > 0 && w.ba[0].ctrl.ack && U16(w.ba[0].ackNum) == w.a.sock.sendBack
    ensures P.Step(n0, act).Next?
    ensures var tx, tx' := n.a.tx, Seen(P.Step(n0, act).net, fromB).a.tx;
      tx'.acked == tx'.sent == tx.sent && tx'.committed == tx.committed
  {
    hide Direction, Endpoint, Phase, Bounded, SockMatches, U16, P.StepA;
    MatchingState(w.a.sock, n.a);
    HeadKind(n, !fromB);
    AckOneWay(w, n, !fromB);
    HeadIsAck(w, n);
    MatchSettles(n, act);
    StepSeen(n0, act, fromB);
  }

  lemma HeadIsAck(w: S.World, n: P.Net)
    requires Matches(w, n) && |w.ba| > 0 && w.ba[0].ctrl.ack && KindOk(n.ba[0])
    ensures IsAck(n.ba[0]) && |n.ba[0].data| == 0
  {
    assert Carries(w.ba[0], n.ba[0]);
    hide HostMatches;
  }

  lemma SettledByMatch(w: S.World, n: P.Net, w': S.World, n': P.Net)
    requires Matches(w, n) && Bounded(n.a) && Matches(w', n') && Bounded(n'.a) && !Settled(w.a.sock)
    requires n'.a.tx.acked == n'.a.tx.sent == n.a.tx.sent && n'.a.tx.committed == n.a.tx.committed
    ensures Settled(w'.a.sock) && Unacknowledged(w'.a.sock) < Unacknowledged(w.a.sock)
    ensures SentCount(w'.a) == SentCount(w.a) && w'.a.committed == w.a.committed
  {
    hide SockMatches, Settled, Unacknowledged, SentCount;
    SettledIs(w.a, n.a);
    SettledIs(w'.a, n'.a);
    UnacknowledgedIs(w.a, n.a);
    UnacknowledgedIs(w'.a, n'.a);
    SentCountIs(w.a, n.a);
    SentCountIs(w'.a, n'.a);
  }

  // ----- deliveries alone -----

  /** Both ends are connected, neither stream is late, and `a` has sent no FIN. */
  predicate Going(n: P.Net) {
    && n.a.tx.conn && n.b.tx.conn && !n.a.tx.finSent
    && !P.Late(n.a.tx) && !P.Late(n.b.tx)
  }

  /** What deliveries leave alone. */
  predicate SameStreams(x: P.Peer, x': P.Peer) {
    && x'.tx.committed == x.tx.committed && x'.tx.sent == x.tx.sent && x'.tx.finSent == x.tx.finSent
    && x'.tx.finPos == x.tx.finPos && x'.rx.read == x.rx.read && x'.timer == x.timer
    && x'.tx.conn == x.tx.conn
  }

  /** Only ACKs. */
  ghost predicate OnlyAcks(ch: seq<P.Segment>) {
    forall p :: p in ch ==> IsAck(p)
  }

  lemma EstablishedStays(x: P.Peer, p: P.Segment)
    requires KindOk(p) && P.OnEstablished(x, p).Done?
    requires !x.tx.finSent || (!x.rx.finRecv && !IsFin(p))
    ensures var got := P.OnEstablished(x, p);
      && SameStreams(x, got.peer) && OnlyAcks(got.out) && (IsAck(p) ==> got.out == [])
  {
  }

  lemma NoFinComes(n: P.Net)
    requires Both(n) && !n.b.tx.finSent
    ensures !n.a.rx.finRecv && forall i :: 0 <= i < |n.ba| ==> !IsFin(n.ba[i])
  {
    hide Endpoint, Backward, Owed;
  }

  lemma DeliverStays(n: P.Net, client: bool, act: Action)
    requires Both(n) && PhaseOf(n, client) && act.Deliver? && n.ba != []
    requires Going(n) || Going(Flip(n))
    ensures P.StepA(n, act).Next?
    ensures var n' := P.StepA(n, act).net;
      && SameStreams(n.a, n'.a) && n'.b == n.b && n'.ba == n.ba[1..]
      && (IsAck(n.ba[0]) ==> n'.ab == n.ab)
      && (OnlyAcks(n.ab) ==> OnlyAcks(n'.ab))
  {
    ConnEstablished(n);
    HeadKind(n, client);
    CrashOneWay(n, client, act);
    if !n.b.tx.finSent { NoFinComes(n); }
    hide Both, Phase, P.OnEstablished, TooLong;
    EstablishedStays(n.a, n.ba[0]);
    assert n.ab + [] == n.ab;
  }

  lemma ConnEstablished(n: P.Net)
    requires Both(n)
    ensures n.a.tx.conn <==> n.a.state == Established
  {
    hide Direction;
  }

  ghost predicate OnlyDeliveries(acts: seq<Action>) {
    forall act :: act in acts ==> act.Deliver?
  }

  /** Delivering everything in the channel towards one endpoint. */
  lemma {:induction false} Drain(acts: seq<Action>, toB: bool, heap: Heap) returns (more: seq<Action>)
    requires P.Run(acts).Next? && (Going(Seen(P.Run(acts).net, toB)) || Going(Flip(Seen(P.Run(acts).net, toB))))
    ensures OnlyDeliveries(more) && P.Run(acts + more).Next?
    ensures var n, n' := Seen(P.Run(acts).net, toB), Seen(P.Run(acts + more).net, toB);
      && SameStreams(n.a, n'.a) && n'.b == n.b && n'.ba == []
      && (OnlyAcks(n.ba) ==> n'.ab == n.ab)
      && (OnlyAcks(n.ab) ==> OnlyAcks(n'.ab))
    decreases |Seen(P.Run(acts).net, toB).ba|
  {
    hide P.Run, P.Step, Going;
    var n := Seen(P.Run(acts).net, toB);
    if n.ba == [] {
      more := [];
      assert acts + more == acts;
    } else {
      var act := Deliver(toB, heap);
      RunHolds(acts);
      DrainStep(P.Run(acts).net, toB, act);
      RunAppend(acts, act);
      hide Inv;
      InTail(n.ba);
      var rest := Drain(acts + [act], toB, heap);
      more := [act] + rest;
      assert acts + more == acts + [act] + rest;
    }
  }

  lemma DrainStep(n0: P.Net, toB: bool, act: Action)
    requires Inv(n0) && act.Deliver? && act.toB == toB && Seen(n0, toB).ba != []
    requires Going(Seen(n0, toB)) || Going(Flip(Seen(n0, toB)))
    ensures P.Step(n0, act).Next?
    ensures var n, n' := Seen(n0, toB), Seen(P.Step(n0, act).net, toB);
      && SameStreams(n.a, n'.a) && n'.b == n.b && n'.ba == n.ba[1..]
      && (IsAck(n.ba[0]) ==> n'.ab == n.ab)
      && (OnlyAcks(n.ab) ==> OnlyAcks(n'.ab))
      && (Going(n') || Going(Flip(n')))
  {
    hide Direction, Endpoint, Phase, P.StepA;
    DeliverStays(Seen(n0, toB), !toB, act);
    StepSeen(n0, act, toB);
  }

  /** Deliveries to one end, to the other, and of the last ACKs empty both channels. */
  lemma Quiesce(acts: seq<Action>, fromB: bool, heap: Heap) returns (more: seq<Action>)
    requires P.Run(acts).Next? && Going(Seen(P.Run(acts).net, fromB))
    ensures OnlyDeliveries(more) && P.Run(acts + more).Next?
    ensures var n, n' := Seen(P.Run(acts).net, fromB), Seen(P.Run(acts + more).net, fromB);
      && SameStreams(n.a, n'.a) && SameStreams(n.b, n'.b) && n'.ab == [] && n'.ba == []
  {
    hide P.Run;
    var first := Drain(acts, !fromB, heap);
    var acts1 := acts + first;
    var second := Drain(acts1, fromB, heap);
    var acts2 := acts1 + second;
    var third := Drain(acts2, !fromB, heap);
    more := first + second + third;
    assert acts2 + third == acts + more;
  }

  // ----- settling -----

  /** The sender has nothing outstanding, and may send on unless it has nothing to send or the
      receiver's ring is full. */
  predicate Ready(tx: P.Tx, rx: P.Rx) {
    tx.acked == tx.sent && (tx.sent == |tx.committed| || tx.front > tx.sent || tx.sent == rx.read + P.LAP)
  }

  lemma QuietIsAligned(n: P.Net)
    requires Both(n) && Going(n)
    ensures n.a.state == Established && n.b.state == Established
    ensures n.a.tx.acked <= n.a.tx.sent <= n.a.tx.front && n.a.tx.sent <= |n.a.tx.committed|
  {
    hide Forward, Backward, Owed;
  }

  lemma OpenWindow(n: P.Net)
    requires Both(n) && n.a.tx.acked == n.a.tx.sent && n.a.tx.front == n.b.rx.read + P.LAP
    ensures Ready(n.a.tx, n.b.rx)
  {
    hide Forward, Backward, Owed;
  }

  lemma AlreadyReady(tx: P.Tx, rx: P.Rx)
    requires tx.acked == tx.sent <= tx.front && tx.sent <= |tx.committed|
    requires tx.acked == tx.front ==> tx.sent == |tx.committed|
    ensures Ready(tx, rx)
  {
  }

  lemma SettleRuns(acts: seq<Action>, fromB: bool, heap: Heap) returns (more: seq<Action>)
    requires P.Run(acts).Next? && Going(Seen(P.Run(acts).net, fromB))
    ensures (forall act :: act in more ==> act.Deliver? || act.Timer?) && P.Run(acts + more).Next?
    ensures var n, n' := Seen(P.Run(acts).net, fromB), Seen(P.Run(acts + more).net, fromB);
      && Ready(n'.a.tx, n'.b.rx) && n'.a.tx.sent == n.a.tx.sent && n'.a.tx.committed == n.a.tx.committed
      && n'.b.rx.read == n.b.rx.read && n'.a.state == Established
  {
    hide P.Run, Direction, Endpoint, Phase, Ready;
    more := Quiesce(acts, fromB, heap);
    var acts1 := acts + more;
    RunHolds(acts1);
    var n1 := Seen(P.Run(acts1).net, fromB);
    QuietIsAligned(n1);
    if n1.a.tx.sent != n1.a.tx.acked || (n1.a.tx.acked == n1.a.tx.front && n1.a.tx.sent < |n1.a.tx.committed|) {
      var e := Exchange(fromB, n1.a.timer + 1.0, heap);
      ExchangeRuns(acts1, fromB, n1.a.timer + 1.0, heap);
      RunHolds(acts1 + e);
      OpenWindow(Seen(P.Run(acts1 + e).net, fromB));
      more := more + e;
      assert acts + more == acts1 + e;
    } else {
      AlreadyReady(n1.a.tx, n1.b.rx);
    }
  }

  lemma {:induction false} DisciplinedOn(heap: Heap, acts: seq<Action>, more: seq<Action>)
    requires Disciplined(heap, acts) && forall act :: act in more ==> !act.WriteCommit?
    ensures Disciplined(heap, acts + more)
  {
    hide S.Run;
    if more == [] {
      assert acts + more == acts;
    } else {
      var most := more[..|more| - 1];
      assert more == most + [more[|more| - 1]];
      assert (acts + more)[..|acts + more| - 1] == acts + most;
      DisciplinedOn(heap, acts, most);
    }
  }

  /** The send ring holds bytes that are unsent or unacknowledged. */
  predicate Unfinished(s: M.Sock) {
    !(s.ackBack == s.sendBack == s.sendFront)
  }

  lemma UnfinishedGoes(w: S.World, n: P.Net)
    requires Matches(w, n) && Both(n) && !P.Late(n.a.tx) && !P.Late(n.b.tx)
    requires w.a.sock.isConnection && w.b.sock.isConnection && Unfinished(w.a.sock)
    ensures Going(n)
  {
    hide Forward, Backward, Owed, Holds;
  }

  /** From every state of a disciplined run with both ends connected and bytes still to be sent or
      acknowledged, whatever is in flight, some continuation of deliveries and timer rounds, without
      any loss, leaves nothing outstanding and everything sent arrived. It also opens
      the window, unless nothing is left to send or the receiver's ring is full of unread bytes. */
  lemma OutstandingSettles(heap: Heap, acts: seq<Action>, fromB: bool) returns (more: seq<Action>)
    requires Disciplined(heap, acts) && S.Run(heap, acts).Next?
    requires var w := Seen(S.Run(heap, acts).world, fromB);
      w.a.sock.isConnection && w.b.sock.isConnection && Unfinished(w.a.sock)
    ensures forall act :: act in more ==> act.Deliver? || act.Timer?
    ensures Disciplined(heap, acts + more) && S.Run(heap, acts + more).Next?
    ensures var w, w' := Seen(S.Run(heap, acts).world, fromB), Seen(S.Run(heap, acts + more).world, fromB);
      && Settled(w'.a.sock) && SentCount(w'.a) == SentCount(w.a) && |Arrived(w'.b)| == SentCount(w.a)
      && (!Settled(w.a.sock) ==> Unacknowledged(w'.a.sock) < Unacknowledged(w.a.sock))
      && w'.a.committed == w.a.committed && |w'.b.returned| == |w.b.returned|
      && (|| SentCount(w'.a) == |w'.a.committed| || WindowEnd(w'.a) > SentCount(w'.a)
          || SentCount(w'.a) == |w'.b.returned| + P.LAP)
  {
    hide S.Run, P.Run, Direction, Endpoint, Phase, HostMatches, P.Late, Disciplined, Bounded, Ready, Going;
    hide SentCount, Arrived, Unacknowledged, WindowEnd, Settled, Unfinished;
    var w, n := AtSide(heap, acts, fromB);
    UnfinishedGoes(w, n);
    more := SettleRuns(acts, fromB, heap);
    DisciplinedOn(heap, acts, more);
    RunMatches(heap, acts + more);
    var w', n' := AtSide(heap, acts + more, fromB);
    SettledView(w, n, w', n');
  }

  lemma SettledView(w: S.World, n: P.Net, w': S.World, n': P.Net)
    requires Matches(w, n) && Bounded(n.a) && Bounded(n.b)
    requires Matches(w', n') && Both(n') && Bounded(n'.a) && Bounded(n'.b) && !P.Late(n'.a.tx)
    requires Ready(n'.a.tx, n'.b.rx) && n'.a.tx.sent == n.a.tx.sent && n'.a.tx.committed == n.a.tx.committed
    requires n'.b.rx.read == n.b.rx.read && n'.a.state == Established
    ensures Settled(w'.a.sock) && SentCount(w'.a) == SentCount(w.a) && |Arrived(w'.b)| == SentCount(w.a)
    ensures !Settled(w.a.sock) ==> Unacknowledged(w'.a.sock) < Unacknowledged(w.a.sock)
    ensures w'.a.committed == w.a.committed && |w'.b.returned| == |w.b.returned|
    ensures || SentCount(w'.a) == |w'.a.committed| || WindowEnd(w'.a) > SentCount(w'.a)
            || SentCount(w'.a) == |w'.b.returned| + P.LAP
  {
    hide SockMatches, SentCount, Arrived, Unacknowledged, WindowEnd, Settled, Forward, Backward, Owed;
    SettledIs(w.a, n.a);
    SettledIs(w'.a, n'.a);
    UnacknowledgedIs(w.a, n.a);
    UnacknowledgedIs(w'.a, n'.a);
    SentCountIs(w.a, n.a);
    SentCountIs(w'.a, n'.a);
    ArrivedIs(w'.b, n'.b);
    if n'.a.tx.front > n'.a.tx.sent { WindowEndIs(w'.a, n'.a); }
  }

  // ----- a closed peer -----

  /** A segment of `a` is outstanding, no ACK for it is in flight, and `b` is closed. */
  ghost predicate Deserted(n: P.Net) {
    && n.b.state == Closed && P.Bits(n.b).Complete()
    && n.a.tx.acked != n.a.tx.sent && !AckOf(n.ba, n.a.tx.sent)
  }

  lemma DesertedTimer(x: P.Peer, now: real)
    requires x.tx.acked != x.tx.sent
    ensures P.Tick(x, now).Done? && P.Tick(x, now).peer.tx == x.tx
  {
  }

  lemma DesertedReceipt(x: P.Peer, p: P.Segment)
    requires KindOk(p) && P.OnEstablished(x, p).Done? && (IsAck(p) ==> p.ackPos != x.tx.sent)
    ensures var x' := P.OnEstablished(x, p).peer; x'.tx.acked == x.tx.acked && x'.tx.sent == x.tx.sent
  {
  }

  lemma DesertedDelivery(n: P.Net, client: bool, act: Action)
    requires Both(n) && PhaseOf(n, client) && Deserted(n) && act.Deliver? && P.StepA(n, act).Next?
    ensures var n' := P.StepA(n, act).net;
      Deserted(n') && n'.a.tx.acked == n.a.tx.acked && n'.a.tx.sent == n.a.tx.sent && n'.b == n.b
  {
    if n.ba != [] {
      InTail(n.ba);
      if n.a.state == Established {
        HeadKind(n, client);
        hide Both, Phase, P.OnEstablished;
        DesertedReceipt(n.a, n.ba[0]);
      } else if n.a.state != Closed {
        HandshakeHead(n, client);
      }
    }
  }

  lemma DesertedStep(n: P.Net, client: bool, act: Action)
    requires Both(n) && PhaseOf(n, client) && Deserted(n) && P.StepA(n, act).Next?
    ensures var n' := P.StepA(n, act).net;
      Deserted(n') && n'.a.tx.acked == n.a.tx.acked && n'.a.tx.sent == n.a.tx.sent && n'.b == n.b
  {
    match act
    case Timer(_, now) =>
      hide Both, Phase, P.Tick;
      DesertedTimer(n.a, now);
    case Deliver(_, _) =>
      DesertedDelivery(n, client, act);
      hide Both, Phase, P.StepA;
    case Drop(_, i) =>
      hide Both, Phase;
      if P.Droppable(n.ba, i) { InDropped(n.ba, i); }
    case _ =>
      hide Both, Phase;
  }

  /** The closed end does nothing, whatever happens there. */
  lemma ClosedStep(m: P.Net, act: Action)
    requires Both(m) && Deserted(Flip(m)) && P.StepA(m, act).Next?
    ensures var m' := P.StepA(m, act).net;
      Deserted(Flip(m')) && m'.b == m.b && m'.a.rx.received == m.a.rx.received
  {
    assert !m.a.tx.conn by { ConnEstablished(m); }
    hide Both;
    match act
    case Timer(_, _) =>
      assert m.ab + [] == m.ab;
    case Deliver(_, _) =>
      assert m.ab + [] == m.ab;
    case _ =>
  }

  lemma {:induction false} DesertedForGood(acts: seq<Action>, more: seq<Action>, fromB: bool)
    requires P.Run(acts).Next? && Deserted(Seen(P.Run(acts).net, fromB)) && P.Run(acts + more).Next?
    ensures var n, n' := Seen(P.Run(acts).net, fromB), Seen(P.Run(acts + more).net, fromB);
      && Deserted(n') && n'.a.tx.acked == n.a.tx.acked && n'.a.tx.sent == n.a.tx.sent
      && n'.b.rx.received == n.b.rx.received
  {
    hide P.Step, P.StepA, Deserted;
    if more == [] {
      assert acts + more == acts;
    } else {
      var most, act := more[..|more| - 1], more[|more| - 1];
      assert (acts + more)[..|acts + more| - 1] == acts + most;
      DesertedForGood(acts, most, fromB);
      RunHolds(acts + most);
      var n0 := P.Run(acts + most).net;
      hide P.Run, Direction, Endpoint, Phase;
      DesertedNext(n0, act, fromB);
    }
  }

  lemma DesertedNext(n0: P.Net, act: Action, fromB: bool)
    requires Inv(n0) && Deserted(Seen(n0, fromB)) && P.Step(n0, act).Next?
    ensures var n, n' := Seen(n0, fromB), Seen(P.Step(n0, act).net, fromB);
      && Deserted(n') && n'.a.tx.acked == n.a.tx.acked && n'.a.tx.sent == n.a.tx.sent
      && n'.b.rx.received == n.b.rx.received
  {
    hide P.StepA, Deserted, Direction, Endpoint, Phase;
    if AtB(act) == fromB {
      DesertedStep(Seen(n0, fromB), !fromB, act);
    } else {
      ClosedStep(Flip(Seen(n0, fromB)), act);
    }
  }

  /** A closed peer accepts nothing and answers nothing, even a resend of exactly the bytes it
      would expect: if a segment is outstanding and no matching ACK is in flight when the peer is
      closed, the segment stays outstanding on every continuation, and nothing more arrives. */
  lemma ClosedPeerNeverAnswers(heap: Heap, acts: seq<Action>, more: seq<Action>, fromB: bool)
    requires S.Run(heap, acts).Next? && S.Run(heap, acts + more).Next?
    requires var w := Seen(S.Run(heap, acts).world, fromB);
      w.b.sock.state == Closed && w.b.sock.cl.Complete() && !Settled(w.a.sock) && !MatchComing(w)
    ensures var w, w' := Seen(S.Run(heap, acts).world, fromB), Seen(S.Run(heap, acts + more).world, fromB);
      && !Settled(w'.a.sock) && !MatchComing(w') && w'.b.sock.state == Closed
      && SentCount(w'.a) == SentCount(w.a) && |Arrived(w'.b)| == |Arrived(w.b)|
  {
    hide S.Run, P.Run, Direction, Endpoint, Phase, HostMatches, Bounded, Settled, MatchComing;
    hide SentCount, Arrived, AckOf;
    var w, n := AtSide(heap, acts, fromB);
    var w', n' := AtSide(heap, acts + more, fromB);
    DesertedView(w, n);
    DesertedForGood(acts, more, fromB);
    DesertedView(w', n');
  }

  lemma DesertedView(w: S.World, n: P.Net)
    requires Matches(w, n) && Both(n) && Bounded(n.a) && Bounded(n.b)
    ensures w.b.sock.state == n.b.state && w.b.sock.cl == P.Bits(n.b)
    ensures Settled(w.a.sock) <==> n.a.tx.sent == n.a.tx.acked
    ensures MatchComing(w) <==> AckOf(n.ba, n.a.tx.sent)
    ensures SentCount(w.a) == n.a.tx.sent && |Arrived(w.b)| == |n.b.rx.received|
  {
    hide Direction, Endpoint, SockMatches, Settled, MatchComing, SentCount, Arrived, Bounded, AckOf;
    BitsMatch(w.b, n.b);
    SettledIs(w.a, n.a);
    MatchComingIs(w, n);
    SentCountIs(w.a, n.a);
    ArrivedIs(w.b, n.b);
  }
}
