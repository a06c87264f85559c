/** What applications can do so that no byte is committed after a FIN: begin no write after their own
    close, close while no write is under way, and have no write under way when the peer's FIN
    comes in. */
module Orderly {
  import opened Tcp
  import M = Machine
  import S = System
  import P = Protocol
  import opened Invariant
  import opened Refinement
  import opened Theorems

  /** The step breaks one of these rules at host `h`, whose next packet comes from `ch`. */
  predicate BreaksRule(h: S.Host, ch: seq<Packet>, act: Action) {
    || (act.WriteCall? && h.sock.cl.call)
    || (act.Close? && !h.writer.WriteIdle?)
    || (act.Deliver? && |ch| > 0 && ch[0].ctrl.fin && !h.writer.WriteIdle?)
  }

  /** No step of the run breaks a rule. */
  predicate KeepsRules(heap: Heap, acts: seq<Action>)
    decreases |acts|
  {
    acts == [] ||
    var before, act := acts[..|acts| - 1], acts[|acts| - 1];
    && KeepsRules(heap, before)
    && (S.Run(heap, before).Next? ==>
          var w := Seen(S.Run(heap, before).world, AtB(act)); !BreaksRule(w.a, w.ba, act))
  }

  /** A write is under way only while neither side has begun to close. */
  predicate Calm(h: S.Host) {
    h.writer.WriteIdle? || (!h.sock.cl.call && !h.sock.cl.finRecv)
  }

  lemma ReceiptBits(s: M.Sock, p: Packet, heap: Heap)
    requires M.Receive(s, p, heap).Done?
    ensures var s' := M.Receive(s, p, heap).sock;
      && (s'.cl.call ==> s.cl.call)
      && (s'.cl.finRecv ==> s.cl.finRecv || p.ctrl.fin)
  {
    if s.state == Established {
      var acked := if p.ctrl.ack then M.AckSend(s, p) else M.Done(s, []);
      assert acked.sock.cl == s.cl;
      hide M.AckSend;
      var s1 := if p.ctrl.ack then M.AckClose(acked.sock) else s;
      var fin := if p.ctrl.fin then M.OnFin(s1) else M.Done(s1, []);
      assert M.OnData(fin.sock, p).Done? && M.OnData(fin.sock, p).sock.cl == fin.sock.cl;
      hide M.OnData;
    }
  }

  lemma TimerBits(s: M.Sock, now: real)
    ensures var s' := M.Tick(s, now);
      s'.Done? && s'.sock.cl.call == s.cl.call && s'.sock.cl.finRecv == s.cl.finRecv
  {
    var data := M.TickData(s, now);
    assert data.Done? && data.sock.cl == s.cl;
    hide M.TickData;
  }

  lemma StepIsCalm(w: S.World, act: Action)
    requires S.StepA(w, act).Next? && Calm(w.a) && !BreaksRule(w.a, w.ba, act)
    ensures Calm(S.StepA(w, act).world.a) && S.StepA(w, act).world.b == w.b
  {
    match act
    case Timer(_, now) =>
      TimerBits(w.a.sock, now);
      hide M.Tick;
    case Deliver(_, heap) =>
      if w.ba != [] { ReceiptBits(w.a.sock, w.ba[0], heap); }
      hide M.Receive;
    case _ =>
  }

  lemma {:induction false} RulesKeepCalm(heap: Heap, acts: seq<Action>)
    requires KeepsRules(heap, acts) && S.Run(heap, acts).Next?
    ensures Calm(S.Run(heap, acts).world.a) && Calm(S.Run(heap, acts).world.b)
    decreases |acts|
  {
    hide S.StepA, BreaksRule, Calm;
    if acts == [] {
      StartsCalm(heap);
    } else {
      var before, act := acts[..|acts| - 1], acts[|acts| - 1];
      RulesKeepCalm(heap, before);
      StepIsCalm(Seen(S.Run(heap, before).world, AtB(act)), act);
    }
  }

  lemma StartsCalm(heap: Heap)
    ensures Calm(S.Init(heap).a) && Calm(S.Init(heap).b)
  {
  }

  /** A FIN is sent only once its side was asked to close or has seen the peer's FIN. */
  lemma FinHasCause(heap: Heap, acts: seq<Action>, fromB: bool)
    requires S.Run(heap, acts).Next?
    ensures var s := Seen(S.Run(heap, acts).world, fromB).a.sock; s.cl.finSent ==> s.cl.call || s.cl.finRecv
  {
    hide S.Run, P.Run, Direction, Phase, SockMatches;
    var w, n := AtSide(heap, acts, fromB);
    BitsMatch(w.a, n.a);
  }

  /** Applications that keep the three rules never commit a byte after a FIN. */
  lemma {:induction false} RulesAreEnough(heap: Heap, acts: seq<Action>)
    requires KeepsRules(heap, acts)
    ensures Disciplined(heap, acts)
    decreases |acts|
  {
    if acts != [] {
      var before, act := acts[..|acts| - 1], acts[|acts| - 1];
      RulesAreEnough(heap, before);
      if S.Run(heap, before).Next? {
        RulesKeepCalm(heap, before);
        FinHasCause(heap, before, false);
        FinHasCause(heap, before, true);
        hide S.Run, S.Step;
      }
    }
  }
}
