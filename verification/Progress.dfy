/** Progress: an exchange between two connected hosts completes, a matched ACK always takes the sender
    forward, and what happens when the peer is closed. */
module Progress {
  import opened Words
  import opened Ring
  import opened Tcp
  import S = System
  import P = Protocol
  import opened Invariant
  import opened Refinement
  import opened Simulation
  import opened Theorems
  import opened Moments
  import opened Guarantees

  /** What one loss-free exchange does when nothing else is in flight: timer at `a`, delivery to
      `b`, delivery of the ACK to `a`. */
  lemma RoundTrip(n: P.Net, now: real)
    requires Both(n) && !P.Late(n.a.tx) && n.ab == [] && n.ba == []
    requires n.a.state == Established && n.b.state == Established && n.a.timer < now
    requires n.a.tx.sent != n.a.tx.acked || (n.a.tx.acked == n.a.tx.front && n.a.tx.sent < |n.a.tx.committed|)
    ensures var tx, rx := n.a.tx, n.b.rx;
      var sent := P.Tick(n.a, now);
      && sent.Done? && |sent.out| == 1
      && var got := P.Receive(n.b, sent.out[0]);
      && got.Done? && |got.out| == 1
      && got.peer == n.b.(rx := rx.(received := tx.committed[..tx.sent]))
      && var done := P.Receive(sent.peer, got.out[0]);
      && done.Done? && done.out == [] && done.peer.state == Established
      && done.peer.tx.acked == tx.sent == done.peer.tx.sent
      && done.peer.tx.front == rx.read + P.LAP
      && done.peer.tx.committed == tx.committed
  {
    hide Forward, Backward;
    var tx, rx := n.a.tx, n.b.rx;
    assert |rx.received| == tx.acked;
    var sent := P.TickData(n.a, now);
    assert sent.out == [P.DataSegment(n.a, tx.acked, tx.sent)];
    assert P.TickFin(sent.peer, now) == P.Done(sent.peer, []);
    assert P.Tick(n.a, now).out == sent.out;
    var p := sent.out[0];
    assert rx.received + p.data == tx.committed[..tx.sent];
    assert |p.data| <= P.Window(rx);
    var got := P.OnData(n.b, p);
    assert P.Receive(n.b, p).out == got.out;
  }

  /** Three steps in a row, with nothing else in flight. */
  function Exchange(fromB: bool, now: real, heap: Heap): seq<Action> {
    [Timer(fromB, now), Deliver(!fromB, heap), Deliver(fromB, heap)]
  }

  /** A step as the chosen endpoint sees it: its own, or its peer's. */
  lemma StepSeen(n: P.Net, act: Action, fromB: bool)
    requires act.Timer? || act.Deliver?
    ensures AtB(act) == fromB && P.StepA(Seen(n, fromB), act).Next? ==>
              P.Step(n, act).Next? && Seen(P.Step(n, act).net, fromB) == P.StepA(Seen(n, fromB), act).net
    ensures AtB(act) != fromB && P.StepA(Flip(Seen(n, fromB)), act).Next? ==>
              && P.Step(n, act).Next?
              && Flip(Seen(P.Step(n, act).net, fromB)) == P.StepA(Flip(Seen(n, fromB)), act).net
  {
    hide P.StepA;
  }

  lemma TimerAlone(n: P.Net, act: Action)
    requires act.Timer? && n.ab == [] && P.Tick(n.a, act.now).Done? && |P.Tick(n.a, act.now).out| == 1
    ensures var sent := P.Tick(n.a, act.now);
      P.StepA(n, act) == P.Next(n.(a := sent.peer, ab := [sent.out[0]]))
  {
    hide P.Tick;
    assert [] + P.Tick(n.a, act.now).out == [P.Tick(n.a, act.now).out[0]];
  }

  lemma DeliverAlone(n: P.Net, act: Action)
    requires act.Deliver? && n.ab == [] && |n.ba| == 1 && P.Receive(n.a, n.ba[0]).Done?
    ensures var got := P.Receive(n.a, n.ba[0]);
      P.StepA(n, act) == P.Next(n.(a := got.peer, ba := [], ab := got.out))
  {
    hide P.Receive;
    assert [] + P.Receive(n.a, n.ba[0]).out == P.Receive(n.a, n.ba[0]).out;
    assert n.ba[1..] == [];
  }

  lemma ExchangeRuns(acts: seq<Action>, fromB: bool, now: real, heap: Heap)
    requires P.Run(acts).Next?
    requires var n := Seen(P.Run(acts).net, fromB);
      && Both(n) && !P.Late(n.a.tx) && n.ab == [] && n.ba == []
      && n.a.state == Established && n.b.state == Established && n.a.timer < now
      && (n.a.tx.sent != n.a.tx.acked || (n.a.tx.acked == n.a.tx.front && n.a.tx.sent < |n.a.tx.committed|))
    ensures var n := Seen(P.Run(acts).net, fromB);
      && P.Run(acts + Exchange(fromB, now, heap)).Next?
      && var n' := Seen(P.Run(acts + Exchange(fromB, now, heap)).net, fromB);
      && n'.a.state == Established
      && n'.a.tx.acked == n'.a.tx.sent == n.a.tx.sent
      && n'.a.tx.front == n.b.rx.read + P.LAP
      && n'.a.tx.committed == n.a.tx.committed
      && n'.b == n.b.(rx := n.b.rx.(received := n.a.tx.committed[..n.a.tx.sent]))
  {
    hide P.Run, Both, P.Tick, P.Receive, P.Late, P.Step, P.StepA;
    var n := Seen(P.Run(acts).net, fromB);
    RoundTrip(n, now);
    var e := Exchange(fromB, now, heap);
    var sent := P.Tick(n.a, now);
    var got := P.Receive(n.b, sent.out[0]);
    var acts1 := acts + [e[0]];
    var acts2 := acts1 + [e[1]];
    RunAppend(acts, e[0]);
    StepSeen(P.Run(acts).net, e[0], fromB);
    TimerAlone(n, e[0]);
    var n1 := Link(sent.peer, n.b, [sent.out[0]], []);
    assert Seen(P.Run(acts1).net, fromB) == n1;
    RunAppend(acts1, e[1]);
    StepSeen(P.Run(acts1).net, e[1], fromB);
    DeliverAlone(Flip(n1), e[1]);
    var n2 := Link(sent.peer, got.peer, [], [got.out[0]]);
    assert Seen(P.Run(acts2).net, fromB) == n2;
    RunAppend(acts2, e[2]);
    StepSeen(P.Run(acts2).net, e[2], fromB);
    DeliverAlone(n2, e[2]);
    assert acts + e == acts2 + [e[2]];
  }

  /** Both connections are open, nothing is in flight, and a's timer has expired. */
  ghost predicate Quiet(w: S.World, now: real) {
    && w.ab == [] && w.ba == []
    && w.a.sock.state == Established && w.b.sock.state == Established
    && w.a.sock.resendTime < now
  }

  lemma QuietMatches(w: S.World, n: P.Net, now: real)
    requires Matches(w, n) && Bounded(n.a) && Quiet(w, now)
    ensures n.ab == [] && n.ba == [] && n.a.timer < now
    ensures n.a.state == Established && n.b.state == Established
    ensures w.a.sock.sendBack != w.a.sock.ackBack ==> n.a.tx.sent != n.a.tx.acked
    ensures w.a.sock.sendBack == w.a.sock.ackBack == w.a.sock.ackFront && w.a.sock.sendFront != w.a.sock.sendBack ==>
              n.a.tx.acked == n.a.tx.sent == n.a.tx.front < |n.a.tx.committed|
  {
    hide Holds;
    U16Near(n.a.tx.sent, n.a.tx.acked);
    U16Near(n.a.tx.front, n.a.tx.sent);
  }

  lemma AfterExchange(w: S.World, n: P.Net, w': S.World, n': P.Net)
    requires Matches(w, n) && Bounded(n.a) && Bounded(n.b)
    requires Matches(w', n') && Bounded(n'.a) && Bounded(n'.b) && Open(n'.a)
    requires n'.a.tx.acked == n'.a.tx.sent == n.a.tx.sent && n'.a.tx.committed == n.a.tx.committed
    requires n.b.rx.read <= |n.b.rx.received| <= n.a.tx.sent <= |n.a.tx.committed|
    requires n.b.rx.received == n.a.tx.committed[..|n.b.rx.received|]
    requires n'.a.tx.front == n.b.rx.read + P.LAP && n'.a.tx.sent <= n'.a.tx.front
    requires n'.b == n.b.(rx := n.b.rx.(received := n.a.tx.committed[..n.a.tx.sent]))
    ensures SentCount(w'.a) == SentCount(w.a) && Settled(w'.a.sock) && w'.a.committed == w.a.committed
    ensures Unacknowledged(w'.a.sock) == Unacknowledged(w.a.sock) - (n.a.tx.sent - n.a.tx.acked)
    ensures WindowEnd(w'.a) == |w.b.returned| + P.LAP
    ensures w'.b.returned == w.b.returned
    ensures Arrived(w'.b) <= w.a.committed && |Arrived(w'.b)| == SentCount(w.a)
  {
    hide SockMatches, U16, U32, SentCount, WindowEnd, Arrived, Bounded, Settled, Unacknowledged;
    UnacknowledgedIs(w.a, n.a);
    UnacknowledgedIs(w'.a, n'.a);
    SentCountIs(w.a, n.a);
    SentCountIs(w'.a, n'.a);
    WindowEndIs(w'.a, n'.a);
    ArrivedIs(w'.b, n'.b);
    SettledIs(w'.a, n'.a);
  }

  /** One loss-free timer round completes an outstanding exchange, and reopens a window that had
      closed on unsent bytes: everything sent is then received and acknowledged, and the sender
      may send up to 65535 bytes beyond what the receiver's application has read. */
  lemma ExchangeCompletes(heap: Heap, acts: seq<Action>, fromB: bool, now: real, heap': Heap)
    requires Disciplined(heap, acts)
    requires S.Run(heap, acts).Next? && Quiet(Seen(S.Run(heap, acts).world, fromB), now)
    requires var s := Seen(S.Run(heap, acts).world, fromB).a.sock;
      !Settled(s) || (s.ackBack == s.ackFront && s.sendFront != s.sendBack)
    ensures var after := S.Run(heap, acts + Exchange(fromB, now, heap'));
      && after.Next?
      && var w, w' := Seen(S.Run(heap, acts).world, fromB), Seen(after.world, fromB);
      && SentCount(w'.a) == SentCount(w.a) && Settled(w'.a.sock)
      && (!Settled(w.a.sock) ==> Unacknowledged(w'.a.sock) < Unacknowledged(w.a.sock))
      && w'.a.committed == w.a.committed && w'.b.returned == w.b.returned
      && Arrived(w'.b) <= w.a.committed && |Arrived(w'.b)| == SentCount(w.a)
      && WindowEnd(w'.a) == |w.b.returned| + P.LAP
  {
    hide S.Run, P.Run, Direction, Endpoint, Phase, HostMatches, P.Late, Disciplined, Bounded, Unacknowledged;
    var acts' := acts + Exchange(fromB, now, heap');
    var w, n := AtSide(heap, acts, fromB);
    QuietMatches(w, n, now);
    ExchangeRuns(acts, fromB, now, heap');
    RunMatches(heap, acts');
    var w', n' := AtSide(heap, acts', fromB);
    SettledMatches(w, n);
    SettledMatches(w', n');
    AfterExchange(w, n, w', n');
  }

  lemma SettledMatches(w: S.World, n: P.Net)
    requires Matches(w, n) && Both(n)
    ensures n.a.tx.acked <= n.a.tx.sent <= n.a.tx.front
    ensures n.b.rx.read <= |n.b.rx.received| <= n.a.tx.sent <= |n.a.tx.committed|
    ensures n.b.rx.received == n.a.tx.committed[..|n.b.rx.received|]
    ensures n.a.state == Established ==> Open(n.a)
  {
    hide Forward, Backward, Owed;
  }
}
