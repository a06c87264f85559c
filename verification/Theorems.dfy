/** What the transport layer guarantees, stated on the machine of module System for every run. */
module Theorems {
  import opened Words
  import opened Ring
  import opened Tcp
  import M = Machine
  import S = System
  import P = Protocol
  import opened Invariant
  import opened Reachable
  import opened Refinement
  import opened Simulation

  /** The bytes a socket has received and its application has not read yet. */
  function Unread(s: M.Sock): seq<byte> {
    Get(s.readRing, s.recvBack, M.RecvSpace(s))
  }

  /** Everything that has arrived at a host in order: what its application read, then its ring. */
  function Arrived(h: S.Host): seq<byte> {
    h.returned + Unread(h.sock)
  }

  lemma UnreadIs(s: M.Sock, x: P.Peer)
    requires SockMatches(s, x) && Bounded(x)
    ensures Unread(s) == x.rx.received[x.rx.read..]
  {
    SpaceMatches(s, x);
    GetReads(s.readRing, x.rx.received, x.rx.read, |x.rx.received|, x.rx.read, |x.rx.received| - x.rx.read);
    hide Holds, U16, U32;
    assert x.rx.received[x.rx.read..|x.rx.received|] == x.rx.received[x.rx.read..];
  }

  /** The matching states at the end of a run. */
  lemma At(heap: Heap, acts: seq<Action>) returns (w: S.World, n: P.Net)
    requires S.Run(heap, acts).Next?
    ensures P.Run(acts).Next? && w == S.Run(heap, acts).world && n == P.Run(acts).net
    ensures Matches(w, n) && Inv(n) && Bounded(n.a) && Bounded(n.b)
  {
    RunMatches(heap, acts);
    w, n := S.Run(heap, acts).world, P.Run(acts).net;
    hide Direction, Endpoint, Phase, HostMatches;
    InvBounds(n);
  }

  lemma AtSide(heap: Heap, acts: seq<Action>, fromB: bool) returns (w: S.World, n: P.Net)
    requires S.Run(heap, acts).Next?
    ensures P.Run(acts).Next? && w == Seen(S.Run(heap, acts).world, fromB) && n == Seen(P.Run(acts).net, fromB)
    ensures Matches(w, n) && Both(n) && PhaseOf(n, !fromB) && Bounded(n.a) && Bounded(n.b)
    ensures Disciplined(heap, acts) ==> !P.Late(n.a.tx) && !P.Late(n.b.tx)
  {
    hide S.Run, P.Run, Direction, Endpoint, Phase, HostMatches, Disciplined, P.Late;
    w, n := At(heap, acts);
    if Disciplined(heap, acts) {
      DisciplineIsOnTime(heap, acts);
    }
    w, n := Seen(w, fromB), Seen(n, fromB);
  }

  lemma BitsMatch(h: S.Host, x: P.Peer)
    requires HostMatches(h, x)
    ensures h.sock.cl == P.Bits(x) && h.sock.state == x.state && h.sock.isConnection == x.tx.conn
  {
    hide Holds;
  }

  // ----- one step of a run -----

  lemma WorldAppend(heap: Heap, acts: seq<Action>, act: Action)
    requires S.Run(heap, acts).Next?
    ensures S.Run(heap, acts + [act]) == S.Step(S.Run(heap, acts).world, act)
  {
    assert (acts + [act])[..|acts|] == acts;
    hide S.Step;
  }

  lemma StepSees(w: S.World, act: Action, fromB: bool)
    requires AtB(act) == fromB
    ensures S.Step(w, act).Next? <==> S.StepA(Seen(w, fromB), act).Next?
    ensures S.Step(w, act).Next? ==> Seen(S.Step(w, act).world, fromB) == S.StepA(Seen(w, fromB), act).world
  {
    hide S.StepA;
  }

  lemma NetStepSees(n: P.Net, act: Action, fromB: bool)
    requires AtB(act) == fromB && P.StepA(Seen(n, fromB), act).Next?
    ensures P.Step(n, act).Next? && Seen(P.Step(n, act).net, fromB) == P.StepA(Seen(n, fromB), act).net
  {
    hide P.StepA;
  }

  /** The matching states after a step of a run. */
  lemma After(heap: Heap, acts: seq<Action>, act: Action, fromB: bool) returns (w': S.World, n': P.Net)
    requires S.Run(heap, acts).Next? && S.Step(S.Run(heap, acts).world, act).Next?
    ensures P.Run(acts).Next? && P.Step(P.Run(acts).net, act).Next?
    ensures w' == Seen(S.Step(S.Run(heap, acts).world, act).world, fromB)
    ensures n' == Seen(P.Step(P.Run(acts).net, act).net, fromB)
    ensures Matches(w', n') && Both(n') && Bounded(n'.a) && Bounded(n'.b)
  {
    hide S.Run, P.Run, S.Step, P.Step, Direction, Endpoint, Phase, HostMatches, Bounded;
    var w0, n0 := At(heap, acts);
    StepMatches(w0, n0, act);
    StepKeeps(n0, act);
    InvBounds(P.Step(n0, act).net);
    w', n' := Seen(S.Step(w0, act).world, fromB), Seen(P.Step(n0, act).net, fromB);
  }

  // ----- stream integrity -----

  lemma StreamOneWay(w: S.World, n: P.Net)
    requires Matches(w, n) && Both(n) && Bounded(n.b)
    ensures Arrived(w.b) == n.b.rx.received
    ensures Arrived(w.b) <= w.a.committed
  {
    hide Forward, Backward, Owed;
    ArrivedIs(w.b, n.b);
  }

  lemma ArrivedIs(h: S.Host, x: P.Peer)
    requires HostMatches(h, x) && Bounded(x)
    ensures Arrived(h) == x.rx.received
  {
    UnreadIs(h.sock, x);
    hide SockMatches, Unread;
    assert x.rx.received == x.rx.received[..x.rx.read] + x.rx.received[x.rx.read..];
  }

  /** On every run, with any losses of data segments, any resends and any interleaving of the
      application threads, the bytes one application has read, followed by those still in its
      ring, are a prefix of the bytes the other has committed. */
  lemma StreamIntegrity(heap: Heap, acts: seq<Action>)
    requires S.Run(heap, acts).Next?
    ensures var w := S.Run(heap, acts).world;
      && w.b.returned <= Arrived(w.b) <= w.a.committed
      && w.a.returned <= Arrived(w.a) <= w.b.committed
  {
    var w, n := At(heap, acts);
    hide Direction, Endpoint, Phase, HostMatches;
    StreamOneWay(w, n);
    StreamOneWay(Flip(w), Flip(n));
  }

  // ----- late writes -----

  /** A commit that a test of `clstate & CL_FIN_SENT`, made where writeLab takes the lock to copy,
      would refuse. writeLab makes no test there. */
  predicate CommitsLate(w: S.World, act: Action) {
    && act.WriteCommit?
    && var h := if act.atB then w.b else w.a;
      h.writer.WriteReady? && h.sock.cl.finSent
  }

  /** Every commit of the run would pass that test. Module Orderly says how applications see to it. */
  predicate Disciplined(heap: Heap, acts: seq<Action>)
    decreases |acts|
  {
    acts == [] ||
    var before := acts[..|acts| - 1];
    && Disciplined(heap, before)
    && (S.Run(heap, before).Next? ==> !CommitsLate(S.Run(heap, before).world, acts[|acts| - 1]))
  }

  lemma StaysOnTime(n: P.Net, act: Action)
    requires !P.Late(n.a.tx) && P.StepA(n, act).Next?
    requires act.WriteCommit? && n.a.writer.WriteReady? ==> !n.a.tx.finSent
    ensures !P.Late(P.StepA(n, act).net.a.tx) && P.StepA(n, act).net.b == n.b
  {
    match act
    case Timer(_, now) =>
      assert !P.Late(P.TickData(n.a, now).peer.tx);
    case Deliver(_, _) =>
      if n.ba != [] && n.a.state == Established { DeliveryOnTime(n.a, n.ba[0]); }
    case _ =>
  }

  lemma DeliveryOnTime(x: P.Peer, p: P.Segment)
    requires P.OnEstablished(x, p).Done?
    ensures P.Late(P.OnEstablished(x, p).peer.tx) == P.Late(x.tx)
  {
    var x1 := if p.ctrl.ack then P.OnAck(x, p) else x;
    assert P.Late(x1.tx) == P.Late(x.tx);
    hide P.OnAck;
  }

  lemma StepOnTime(w: S.World, n: P.Net, act: Action)
    requires Matches(w, n) && !CommitsLate(w, act)
    requires !P.Late(n.a.tx) && !P.Late(n.b.tx) && P.Step(n, act).Next?
    ensures !P.Late(P.Step(n, act).net.a.tx) && !P.Late(P.Step(n, act).net.b.tx)
  {
    if act.WriteCommit? {
      LateMatches(w, n, act);
    }
    hide Matches, P.StepA, P.Late;
    if AtB(act) {
      StaysOnTime(Flip(n), act);
    } else {
      StaysOnTime(n, act);
    }
  }

  lemma {:induction false} DisciplineIsOnTime(heap: Heap, acts: seq<Action>)
    requires Disciplined(heap, acts) && S.Run(heap, acts).Next?
    ensures P.Run(acts).Next? && !P.Late(P.Run(acts).net.a.tx) && !P.Late(P.Run(acts).net.b.tx)
  {
    hide Inv, Matches, P.Step, S.Step, CommitsLate;
    RunMatches(heap, acts);
    if acts != [] {
      var before := acts[..|acts| - 1];
      DisciplineIsOnTime(heap, before);
      var w, n := At(heap, before);
      StepOnTime(w, n, acts[|acts| - 1]);
    }
  }

  lemma LateMatches(w: S.World, n: P.Net, act: Action)
    requires Matches(w, n) && !CommitsLate(w, act) && act.WriteCommit?
    ensures var x := if act.atB then n.b else n.a; x.writer.WriteReady? ==> !x.tx.finSent
  {
    hide Holds, U16, U32;
  }
}
