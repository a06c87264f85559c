/** The invariant holds in every reachable state: the handshake phases, the steps of either
    endpoint, and runs. */
module Reachable {
  import opened Tcp
  import opened Protocol
  import opened Invariant
  import opened DirectionSteps
  import opened Preservation

  lemma InitHolds()
    ensures Inv(INIT)
  {
  }

  lemma ConnectKeeps(n: Net)
    requires Both(n) && n.a.state == Closed && Bits(n.a) == CL_ZERO
    ensures Both(n.(a := n.a.(state := SysSent), ab := n.ab + [SYN]))
  {
    PushForward(n.a.tx, n.b.rx, n.ab, n.ba, SYN);
    PushBackward(n.b.tx, n.a.rx, n.ba, n.ab, SYN);
  }

  lemma SynArrives(n: Net)
    requires Both(n) && n.a.state == Listen && n.ba == [SYN]
    ensures Both(n.(a := n.a.(state := SysRecv), ba := [], ab := n.ab + [SYN_ACK]))
  {
    assert n.ba[1..] == [];
    PopForward(n.b.tx, n.a.rx, n.ba, n.ab);
    PopBackward(n.a.tx, n.b.rx, n.ab, n.ba);
    PushForward(n.a.tx, n.b.rx, n.ab, [], SYN_ACK);
    PushBackward(n.b.tx, n.a.rx, [], n.ab, SYN_ACK);
  }

  lemma SynAckArrives(n: Net)
    requires Both(n) && n.a.state == SysSent && n.ba == [SYN_ACK]
    ensures Both(n.(a := Establish(n.a), ba := [], ab := n.ab + [HANDSHAKE_ACK]))
  {
    assert n.ba[1..] == [];
    PopForward(n.b.tx, n.a.rx, n.ba, n.ab);
    PopBackward(n.a.tx, n.b.rx, n.ab, n.ba);
    PushForward(n.a.tx, n.b.rx, n.ab, [], HANDSHAKE_ACK);
    ProbeKeeps(n.b.tx, n.a.rx, [], n.ab, HANDSHAKE_ACK);
    OpeningKeeps(n.a.tx, n.b.rx, n.ab + [HANDSHAKE_ACK], []);
  }

  lemma HandshakeAckArrives(n: Net)
    requires Both(n) && n.a.state == SysRecv && |n.ba| > 0 && n.ba[0] == HANDSHAKE_ACK
    ensures Both(n.(a := Establish(n.a), ba := n.ba[1..]))
  {
    PopForward(n.b.tx, n.a.rx, n.ba, n.ab);
    PopBackward(n.a.tx, n.b.rx, n.ab, n.ba);
    OpeningKeeps(n.a.tx, n.b.rx, n.ab, n.ba[1..]);
  }

  lemma DropBoth(n: Net, i: nat)
    requires Both(n) && Droppable(n.ba, i)
    ensures Both(n.(ba := DropAt(n.ba, i)))
  {
    DropKeeps(n.a.tx, n.b.rx, n.ab, n.ba, i);
    DropKeeps(n.b.tx, n.a.rx, n.ba, n.ab, i);
  }

  /** `Phase` seen from endpoint `a`, which is the client or the server. */
  ghost predicate PhaseOf(n: Net, client: bool) {
    if client then Phase(n.a, n.b, n.ab, n.ba) else Phase(n.b, n.a, n.ba, n.ab)
  }

  lemma KindsAppend(ch: seq<Segment>, out: seq<Segment>)
    requires Kinds(ch) && forall p :: p in out ==> KindOk(p)
    ensures Kinds(ch + out)
  {
  }

  lemma KindsLess(ch: seq<Segment>, i: nat)
    requires Kinds(ch) && i < |ch|
    ensures Kinds(ch[1..]) && Kinds(DropAt(ch, i)) && KindOk(ch[0])
  {
    InTail(ch);
    InDropped(ch, i);
  }

  lemma TimerStep(n: Net, client: bool, act: Action)
    requires Both(n) && PhaseOf(n, client) && act.Timer?
    ensures var n' := StepA(n, act).net;
      Both(n') && PhaseOf(n', client) && Bits(n.a).KeptBy(Bits(n'.a))
  {
    hide Direction;
    TimerKeeps(n, act.now);
    var sent := Tick(n.a, act.now);
    if Kinds(n.ab) {
      KindsAppend(n.ab, sent.out);
    }
    assert !n.a.tx.conn ==> n.ab + sent.out == n.ab;
  }

  lemma DropStep(n: Net, client: bool, act: Action)
    requires Both(n) && PhaseOf(n, client) && act.Drop?
    ensures var n' := StepA(n, act).net;
      Both(n') && PhaseOf(n', client) && n'.a == n.a
  {
    hide Direction;
    if Droppable(n.ba, act.index) {
      DropBoth(n, act.index);
      if Kinds(n.ba) {
        KindsLess(n.ba, act.index);
      }
    }
  }

  lemma ApplicationStep(n: Net, client: bool, act: Action)
    requires Both(n) && PhaseOf(n, client)
    requires !act.Connect? && !act.Timer? && !act.Deliver? && !act.Drop?
    ensures var n' := StepA(n, act).net;
      Both(n') && PhaseOf(n', client) && Bits(n.a).KeptBy(Bits(n'.a))
  {
    hide Direction;
    ApplicationKeeps(n, act);
  }

  lemma DeliverOpen(n: Net, client: bool, act: Action)
    requires Both(n) && PhaseOf(n, client) && act.Deliver? && n.ba != [] && Open(n.a)
    requires StepA(n, act).Next?
    ensures var n' := StepA(n, act).net;
      Both(n') && PhaseOf(n', client) && Bits(n.a).KeptBy(Bits(n'.a))
  {
    hide Direction;
    KindsLess(n.ba, 0);
    DeliverKeeps(n);
    KindsAppend(n.ab, Receive(n.a, n.ba[0]).out);
  }

  lemma DeliverHandshake(n: Net, client: bool, act: Action)
    requires Both(n) && PhaseOf(n, client) && act.Deliver? && n.ba != [] && !Open(n.a)
    ensures StepA(n, act).Next?
    ensures var n' := StepA(n, act).net;
      Both(n') && PhaseOf(n', client) && Bits(n'.a) == Bits(n.a)
  {
    hide Direction;
    if client {
      SynAckArrives(n);
      assert n.ba[1..] == [];
      assert [HANDSHAKE_ACK][0] == HANDSHAKE_ACK;
    } else if n.a.state == Listen {
      SynArrives(n);
      assert n.ba[1..] == [];
    } else {
      HandshakeAckArrives(n);
      KindsLess(n.ba, 0);
      assert n.ab + [] == n.ab;
    }
  }

  lemma StepAKeeps(n: Net, client: bool, act: Action)
    requires Both(n) && PhaseOf(n, client) && (act.Connect? ==> client)
    requires StepA(n, act).Next?
    ensures var n' := StepA(n, act).net;
      Both(n') && PhaseOf(n', client) && Bits(n.a).KeptBy(Bits(n'.a))
  {
    hide Direction;
    match act
    case Connect =>
      if n.a.state == Closed && Bits(n.a) == CL_ZERO {
        ConnectKeeps(n);
        assert [] + [SYN] == [SYN];
      }
    case Timer(_, _) => TimerStep(n, client, act);
    case Deliver(_, _) =>
      if n.ba != [] {
        if Open(n.a) { DeliverOpen(n, client, act); } else { DeliverHandshake(n, client, act); }
      }
    case Drop(_, _) => DropStep(n, client, act);
    case _ => ApplicationStep(n, client, act);
  }

  /** Any step keeps the invariant and every close bit. */
  lemma StepKeeps(n: Net, act: Action)
    requires Inv(n) && Step(n, act).Next?
    ensures Inv(Step(n, act).net)
    ensures Bits(n.a).KeptBy(Bits(Step(n, act).net.a)) && Bits(n.b).KeptBy(Bits(Step(n, act).net.b))
  {
    hide Direction, Phase;
    if AtB(act) {
      StepAKeeps(Flip(n), false, act);
    } else {
      StepAKeeps(n, true, act);
    }
  }

  lemma {:induction false} RunHolds(acts: seq<Action>)
    requires Run(acts).Next?
    ensures Inv(Run(acts).net)
  {
    if acts == [] {
      InitHolds();
    } else {
      RunHolds(acts[..|acts| - 1]);
      StepKeeps(Run(acts[..|acts| - 1]).net, acts[|acts| - 1]);
    }
  }
}
