/** Runs looked back upon: what every step of the protocol can only increase, the moment a FIN first
    went out, and the moment an ACK in flight was sent. */
module Moments {
  import opened Tcp
  import P = Protocol
  import opened Invariant
  import opened DirectionSteps
  import opened Reachable
  import opened Simulation

  lemma RunAppend(acts: seq<Action>, act: Action)
    requires P.Run(acts).Next?
    ensures P.Run(acts + [act]) == P.Step(P.Run(acts).net, act)
  {
    assert (acts + [act])[..|acts|] == acts;
    hide P.Step;
  }

  // ----- nothing moves backwards -----

  predicate Grows(x: P.Peer, x': P.Peer) {
    && x.tx.committed <= x'.tx.committed && x.tx.acked <= x'.tx.acked && x.tx.sent <= x'.tx.sent
    && x.rx.received <= x'.rx.received && x.rx.read <= x'.rx.read
    && (x.rx.finRecv ==> x'.rx.finRecv) && (x.tx.finSent ==> x'.tx.finSent && x'.tx.finPos == x.tx.finPos)
  }

  lemma AckGrows(x: P.Peer, p: P.Segment)
    requires x.tx.acked <= x.tx.sent
    ensures Grows(x, P.OnAck(x, p))
  {
  }

  lemma DataGrows(x: P.Peer, p: P.Segment)
    requires P.OnData(x, p).Done?
    ensures Grows(x, P.OnData(x, p).peer)
  {
  }

  lemma EstablishedGrows(x: P.Peer, p: P.Segment)
    requires x.tx.acked <= x.tx.sent && P.OnEstablished(x, p).Done?
    ensures Grows(x, P.OnEstablished(x, p).peer)
  {
    if p.ctrl.ack { AckGrows(x, p); }
    var x1 := if p.ctrl.ack then P.OnAck(x, p) else x;
    hide P.OnAck;
    var fin := if p.ctrl.fin then P.OnFin(x1) else P.Done(x1, []);
    assert Grows(x1, fin.peer);
    DataGrows(fin.peer, p);
    hide P.OnData, P.OnFin;
  }

  lemma ReceiveGrows(x: P.Peer, p: P.Segment)
    requires x.tx.acked <= x.tx.sent && P.Receive(x, p).Done?
    ensures Grows(x, P.Receive(x, p).peer)
  {
    if x.state == Established { EstablishedGrows(x, p); }
    hide P.OnEstablished;
  }

  lemma TimerGrows(x: P.Peer, now: real)
    ensures Grows(x, P.Tick(x, now).peer)
  {
    var data := P.TickData(x, now);
    assert Grows(x, data.peer);
    hide P.TickData;
  }

  lemma ApplicationGrows(x: P.Peer, act: Action)
    ensures Grows(x, P.Application(x, act))
  {
  }

  lemma StepAGrows(n: P.Net, act: Action)
    requires n.a.tx.acked <= n.a.tx.sent && P.StepA(n, act).Next?
    ensures Grows(n.a, P.StepA(n, act).net.a) && P.StepA(n, act).net.b == n.b
  {
    match act
    case Connect =>
    case Timer(_, now) =>
      TimerGrows(n.a, now);
      hide P.Tick;
    case Deliver(_, _) =>
      if n.ba != [] { ReceiveGrows(n.a, n.ba[0]); }
      hide P.Receive, Grows;
    case Drop(_, _) =>
    case _ =>
      ApplicationGrows(n.a, act);
      hide P.Application, Grows;
  }

  lemma StepGrows(n: P.Net, act: Action)
    requires Inv(n) && P.Step(n, act).Next?
    ensures Grows(n.a, P.Step(n, act).net.a) && Grows(n.b, P.Step(n, act).net.b)
  {
    assert n.a.tx.acked <= n.a.tx.sent && n.b.tx.acked <= n.b.tx.sent;
    hide Inv, P.StepA;
    if AtB(act) {
      StepAGrows(Flip(n), act);
    } else {
      StepAGrows(n, act);
    }
  }

  /** An endpoint at some moment of a run, and at its end. */
  lemma {:induction false} GrowsAlong(acts: seq<Action>, k: nat)
    requires P.Run(acts).Next? && k <= |acts|
    ensures P.Run(acts[..k]).Next?
    ensures Grows(P.Run(acts[..k]).net.a, P.Run(acts).net.a) && Grows(P.Run(acts[..k]).net.b, P.Run(acts).net.b)
    decreases |acts|
  {
    hide P.Step;
    if k == |acts| {
      assert acts[..k] == acts;
    } else {
      var before := acts[..|acts| - 1];
      assert before[..k] == acts[..k];
      GrowsAlong(before, k);
      RunHolds(before);
      StepGrows(P.Run(before).net, acts[|acts| - 1]);
    }
  }

  // ----- the moment a FIN went out -----

  /** The FIN of the chosen endpoint first goes out in step `k`. */
  ghost predicate FinSentBy(acts: seq<Action>, fromB: bool, k: nat) {
    && k < |acts|
    && P.Run(acts[..k]).Next? && !Seen(P.Run(acts[..k]).net, fromB).a.tx.finSent
    && P.Run(acts[..k + 1]).Next? && Seen(P.Run(acts[..k + 1]).net, fromB).a.tx.finSent
  }

  lemma StepAFinPos(n: P.Net, act: Action)
    requires P.StepA(n, act).Next? && !n.a.tx.finSent && P.StepA(n, act).net.a.tx.finSent
    ensures P.StepA(n, act).net.a.tx.finPos == |n.a.tx.committed|
  {
    match act
    case Timer(_, now) =>
      assert P.TickData(n.a, now).peer.tx.committed == n.a.tx.committed;
    case Deliver(_, _) =>
      ReceiptSendsNoFin(n.a, n.ba[0]);
    case _ =>
  }

  lemma ReceiptSendsNoFin(x: P.Peer, p: P.Segment)
    requires P.Receive(x, p).Done?
    ensures P.Receive(x, p).peer.tx.finSent == x.tx.finSent
  {
    if x.state == Established {
      var x1 := if p.ctrl.ack then P.OnAck(x, p) else x;
      assert x1.tx.finSent == x.tx.finSent;
      hide P.OnAck;
    }
  }

  lemma StepFinPos(n: P.Net, act: Action, fromB: bool)
    requires P.Step(n, act).Next?
    requires !Seen(n, fromB).a.tx.finSent && Seen(P.Step(n, act).net, fromB).a.tx.finSent
    ensures Seen(P.Step(n, act).net, fromB).a.tx.finPos == |Seen(n, fromB).a.tx.committed|
  {
    StepAIsAlone(if AtB(act) then Flip(n) else n, act);
    hide P.StepA;
    StepAFinPos(Seen(n, fromB), act);
  }

  lemma StepAIsAlone(n: P.Net, act: Action)
    requires P.StepA(n, act).Next?
    ensures P.StepA(n, act).net.b == n.b
  {
    hide P.Receive, P.Tick, P.Application;
  }

  /** The length of the stream at that moment is what the protocol remembers as `finPos`. */
  lemma FinLength(acts: seq<Action>, fromB: bool, k: nat)
    requires P.Run(acts).Next? && FinSentBy(acts, fromB, k)
    ensures var x, y := Seen(P.Run(acts[..k]).net, fromB).a, Seen(P.Run(acts).net, fromB).a;
      y.tx.finSent && y.tx.finPos == |x.tx.committed| && x.tx.committed <= y.tx.committed
  {
    GrowsAlong(acts, k);
    GrowsAlong(acts, k + 1);
    assert acts[..k + 1] == acts[..k] + [acts[k]];
    RunAppend(acts[..k], acts[k]);
    hide P.Run, P.Step;
    StepFinPos(P.Run(acts[..k]).net, acts[k], fromB);
  }

  lemma {:induction false} FinMoment(acts: seq<Action>, fromB: bool) returns (k: nat)
    requires P.Run(acts).Next? && Seen(P.Run(acts).net, fromB).a.tx.finSent
    ensures FinSentBy(acts, fromB, k)
    decreases |acts|
  {
    hide P.Step;
    if acts == [] {
      assert false;
    }
    var before := acts[..|acts| - 1];
    assert before[..|before|] == before && acts[..|acts|] == acts;
    if Seen(P.Run(before).net, fromB).a.tx.finSent {
      k := FinMoment(before, fromB);
      assert before[..k] == acts[..k] && before[..k + 1] == acts[..k + 1];
    } else {
      k := |before|;
    }
  }

  // ----- the moment an ACK was sent -----

  /** `p` acknowledges what `x` has received, and the peer's FIN if `extra` is 1, with the window of
      this moment. */
  predicate Answers(x: P.Peer, p: P.Segment, extra: nat) {
    && p.ackPos == |x.rx.received| + extra && p.window == P.Window(x.rx)
    && extra <= 1 && (extra == 1 ==> x.rx.finRecv)
  }

  /** `p` acknowledges the FIN of stream `tx`. */
  predicate FinAck(tx: P.Tx, rx: P.Rx, p: P.Segment) {
    rx.finRecv && p.ackPos == tx.finPos + 1
  }

  lemma FinReceipt(n: P.Net)
    requires Both(n) && n.ba != [] && IsFin(n.ba[0])
    ensures |n.a.rx.received| == n.b.tx.finPos && n.b.tx.finSent
  {
    hide Endpoint, Backward, Owed;
  }

  lemma ReceiptAnswers(n: P.Net, client: bool)
    requires Both(n) && PhaseOf(n, client) && n.ba != [] && P.Receive(n.a, n.ba[0]).Done?
    ensures var got := P.Receive(n.a, n.ba[0]);
      forall p :: p in got.out && IsAck(p) ==>
                    Answers(got.peer, p, 0) || (Answers(got.peer, p, 1) && FinAck(n.b.tx, got.peer.rx, p))
  {
    var x, p := n.a, n.ba[0];
    if x.state == Established {
      HeadKind(n, client);
      if p.ctrl.fin { FinReceipt(n); }
      hide Both, Phase;
      var x1 := if p.ctrl.ack then P.OnAck(x, p) else x;
      assert x1.rx == x.rx;
      hide P.OnAck;
      var fin := if p.ctrl.fin then P.OnFin(x1) else P.Done(x1, []);
      assert forall q :: q in fin.out ==> Answers(fin.peer, q, 1) && FinAck(n.b.tx, fin.peer.rx, q);
      var data := P.OnData(fin.peer, p);
      assert forall q :: q in data.out ==> Answers(data.peer, q, 0);
      assert p.ctrl.fin ==> data == P.Done(fin.peer, []);
    } else if x.state != Closed {
      HandshakeHead(n, client);
      hide Both, Phase;
    }
  }

  /** A step's new ACKs are answers. */
  lemma StepAnswers(n: P.Net, client: bool, act: Action)
    requires Both(n) && PhaseOf(n, client) && P.StepA(n, act).Next?
    ensures var n' := P.StepA(n, act).net;
      && (forall p :: p in n'.ab && IsAck(p) ==>
           p in n.ab || Answers(n'.a, p, 0) || (Answers(n'.a, p, 1) && FinAck(n'.b.tx, n'.a.rx, p)))
      && (forall p :: p in n'.ba ==> p in n.ba)
  {
    hide Answers, FinAck;
    match act
    case Timer(_, now) =>
      hide Both, Phase, P.Tick;
      TimerSendsNoAck(n.a, now);
    case Deliver(_, _) =>
      if n.ba != [] { ReceiptAnswers(n, client); }
      hide Both, Phase, P.Receive;
    case Drop(_, i) =>
      hide Both, Phase;
      if P.Droppable(n.ba, i) { InDropped(n.ba, i); }
    case _ =>
      hide Both, Phase, P.Application;
  }

  lemma TimerSendsNoAck(x: P.Peer, now: real)
    ensures var sent := P.Tick(x, now);
      && sent.Done? && (forall p :: p in sent.out ==> !IsAck(p))
  {
    var data := P.TickData(x, now);
    assert forall p :: p in data.out ==> !IsAck(p);
    hide P.TickData;
  }

  /** `p` acknowledges what the receiving endpoint had received after the first `k` steps. */
  ghost predicate AnsweredAt(acts: seq<Action>, fromB: bool, p: P.Segment, k: nat, extra: nat) {
    k <= |acts| && P.Run(acts[..k]).Next? && Answers(Seen(P.Run(acts[..k]).net, fromB).b, p, extra)
  }

  ghost predicate FinAckAt(acts: seq<Action>, fromB: bool, p: P.Segment) {
    P.Run(acts).Next? && var n := Seen(P.Run(acts).net, fromB); FinAck(n.a.tx, n.b.rx, p)
  }

  lemma AnsweredStep(before: seq<Action>, act: Action, fromB: bool, p: P.Segment) returns (extra: nat)
    requires P.Run(before + [act]).Next? && P.Run(before).Next?
    requires p in Seen(P.Run(before + [act]).net, fromB).ba && IsAck(p)
    ensures || p in Seen(P.Run(before).net, fromB).ba
            || (Answers(Seen(P.Run(before + [act]).net, fromB).b, p, extra)
                && (extra == 1 ==> FinAckAt(before + [act], fromB, p)))
    ensures FinAckAt(before, fromB, p) ==> FinAckAt(before + [act], fromB, p)
  {
    RunAppend(before, act);
    RunHolds(before);
    var n := P.Run(before).net;
    StepGrows(n, act);
    assert n.a.rx.finRecv ==> n.b.tx.finSent;
    assert n.b.rx.finRecv ==> n.a.tx.finSent;
    hide P.Run, P.StepA, Answers, Direction, Endpoint, Phase;
    if AtB(act) {
      StepAnswers(Flip(n), false, act);
    } else {
      StepAnswers(n, true, act);
    }
    extra := if Answers(Seen(P.Run(before + [act]).net, fromB).b, p, 0) then 0 else 1;
  }

  /** Every ACK in flight was sent at some moment of the run. It says what was received then, plus
      one if it answers a FIN, with the window of then. */
  lemma {:induction false} AcksAreAnswers(acts: seq<Action>, fromB: bool, p: P.Segment) returns (k: nat, extra: nat)
    requires P.Run(acts).Next? && p in Seen(P.Run(acts).net, fromB).ba && IsAck(p)
    ensures AnsweredAt(acts, fromB, p, k, extra)
    ensures extra == 1 ==> FinAckAt(acts, fromB, p)
    decreases |acts|
  {
    hide P.Step, Answers, FinAck;
    if acts == [] {
      assert false;
    }
    var before, act := acts[..|acts| - 1], acts[|acts| - 1];
    assert acts == before + [act];
    extra := AnsweredStep(before, act, fromB, p);
    k := |acts|;
    assert acts[..k] == acts;
    if p in Seen(P.Run(before).net, fromB).ba {
      k, extra := AcksAreAnswers(before, fromB, p);
      assert before[..k] == acts[..k];
    }
  }
}
