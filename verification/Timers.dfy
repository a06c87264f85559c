/** What a timer round puts into the channel on every run: which packets, with which bytes, and when it
    waits. The waiting time is told from the packets of earlier rounds alone. */
module Timers {
  import opened Words
  import opened Ring
  import opened Tcp
  import M = Machine
  import S = System
  import P = Protocol
  import opened Invariant
  import opened Refinement
  import opened Theorems
  import opened Guarantees
  import opened Positions
  import opened Threads

  const DATA_WAIT: real := 0.5
  const FIN_WAIT: real := 5.0

  /** The packets that entered the channel of `a` between two states. */
  function Entered(w: S.World, w': S.World): seq<Packet> {
    if |w.ab| <= |w'.ab| then w'.ab[|w.ab|..] else []
  }

  /** The packets the chosen host sent in the last step of a run. */
  function LastSent(heap: Heap, acts: seq<Action>, fromB: bool): seq<Packet>
    requires acts != [] && S.Run(heap, acts).Next?
  {
    Entered(Seen(S.Run(heap, acts[..|acts| - 1]).world, fromB), Seen(S.Run(heap, acts).world, fromB))
  }

  /** When the chosen host may repeat itself: half a second after its last timer round that sent
      anything, or five seconds after it if that round ended with a FIN. */
  function Deadline(heap: Heap, acts: seq<Action>, fromB: bool): real
    requires S.Run(heap, acts).Next?
    decreases |acts|
  {
    if acts == [] then 0.0
    else
      var before, act := acts[..|acts| - 1], acts[|acts| - 1];
      if act.Timer? && act.atB == fromB && LastSent(heap, acts, fromB) != [] then
        act.now + if Last(LastSent(heap, acts, fromB)).ctrl.fin then FIN_WAIT else DATA_WAIT
      else
        Deadline(heap, before, fromB)
  }

  function Last(s: seq<Packet>): Packet
    requires s != []
  {
    s[|s| - 1]
  }

  // ----- the deadline is the one the host keeps -----

  lemma TickKeepsTime(s: M.Sock, now: real)
    ensures var sent := M.Tick(s, now);
      && sent.Done?
      && sent.sock.resendTime == if sent.out == [] then s.resendTime
                                 else now + if Last(sent.out).ctrl.fin then FIN_WAIT else DATA_WAIT
  {
    if s.isConnection {
      var data := M.TickData(s, now);
      DataKeepsTime(s, now);
      hide M.TickData;
      var fin := M.TickFin(data.sock, now);
      assert fin.out == [] ==> data.out + fin.out == data.out;
      assert fin.out != [] ==> Last(data.out + fin.out) == fin.out[0];
    }
  }

  lemma DataKeepsTime(s: M.Sock, now: real)
    ensures var sent := M.TickData(s, now);
      && sent.Done? && |sent.out| <= 1 && (sent.out != [] ==> sent.out[0].ctrl == CT_NONE)
      && sent.sock.resendTime == if sent.out == [] then s.resendTime else now + DATA_WAIT
  {
    hide Get;
  }

  lemma ReceiptKeepsTime(s: M.Sock, p: Packet, heap: Heap)
    requires M.Receive(s, p, heap).Done? && (s.state == Listen ==> s.resendTime == 0.0)
    ensures M.Receive(s, p, heap).sock.resendTime == s.resendTime
  {
    hide Put, M.Window;
  }

  lemma StepKeepsTime(w: S.World, act: Action)
    requires S.StepA(w, act).Next? && (w.a.sock.state == Listen ==> w.a.sock.resendTime == 0.0)
    ensures var w' := S.StepA(w, act).world;
      && w'.b == w.b && |w.ab| <= |w'.ab| && w'.ab[..|w.ab|] == w.ab
      && w'.a.sock.resendTime ==
         if act.Timer? && Entered(w, w') != []
         then act.now + if Last(Entered(w, w')).ctrl.fin then FIN_WAIT else DATA_WAIT
         else w.a.sock.resendTime
  {
    match act
    case Timer(_, now) =>
      TickKeepsTime(w.a.sock, now);
      assert Entered(w, S.StepA(w, act).world) == M.Tick(w.a.sock, now).out;
      hide M.Tick;
    case Deliver(_, heap) =>
      if w.ba != [] { ReceiptKeepsTime(w.a.sock, w.ba[0], heap); }
      hide M.Receive;
    case _ =>
  }

  lemma ListenTime(heap: Heap, acts: seq<Action>, fromB: bool)
    requires S.Run(heap, acts).Next?
    ensures var s := Seen(S.Run(heap, acts).world, fromB).a.sock; s.state == Listen ==> s.resendTime == 0.0
  {
    hide S.Run, P.Run, Direction, Phase, TxFields, RxFields;
    var w, n := AtSide(heap, acts, fromB);
  }

  lemma {:induction false} DeadlineIs(heap: Heap, acts: seq<Action>, fromB: bool)
    requires S.Run(heap, acts).Next?
    ensures Seen(S.Run(heap, acts).world, fromB).a.sock.resendTime == Deadline(heap, acts, fromB)
    decreases |acts|
  {
    if acts != [] {
      var before, act := acts[..|acts| - 1], acts[|acts| - 1];
      DeadlineIs(heap, before, fromB);
      ListenTime(heap, before, fromB);
      var w := S.Run(heap, before).world;
      StepSees(w, act, AtB(act));
      hide S.Step, S.StepA;
      if AtB(act) == fromB {
        StepKeepsTime(Seen(w, fromB), act);
      } else {
        ListenTime(heap, before, !fromB);
        StepKeepsTime(Seen(w, !fromB), act);
      }
    }
  }

  // ----- the packets of a round -----

  /** A data packet of the bytes `from` to `to`, numbered by its first byte. */
  function Carrying(h: S.Host, from: int, to: int): Packet {
    Packet(U32(from), U32(|Arrived(h)|), CT_NONE, 0xffff, P.Slice(h.committed, from, to))
  }

  /** The length of the next new segment: what is committed and unsent, within the window, and at
      most 1024 bytes. */
  function Chunk(h: S.Host): int {
    Min(Min(|h.committed|, WindowEnd(h)) - SentCount(h), MAX_TCP_LEN)
  }

  /** Something is outstanding, or the window is closed: only a repetition or a probe may go out. */
  predicate Waiting(h: S.Host) {
    !Settled(h.sock) || WindowEnd(h) == SentCount(h)
  }

  /** The data a round sends: while waiting, the bytes outstanding, if any, once the deadline has
      passed; otherwise the next new segment, at once. */
  function DataDue(h: S.Host, expired: bool): seq<Packet> {
    if Waiting(h) then
      if expired then [Carrying(h, AckedCount(h), SentCount(h))] else []
    else
      if Chunk(h) > 0 then [Carrying(h, SentCount(h), SentCount(h) + Chunk(h))] else []
  }

  /** A round sends a FIN when everything committed is acknowledged and either side has begun to close:
      the first at once, another only past the deadline, if no ACK came and no probe went out. */
  predicate FinIsDue(h: S.Host, expired: bool) {
    && Settled(h.sock) && SentCount(h) == |h.committed|
    && (h.sock.cl.call || h.sock.cl.finRecv)
    && (!h.sock.cl.finSent || (!h.sock.cl.ackRecv && expired && !Waiting(h)))
  }

  function FinDue(h: S.Host, expired: bool): seq<Packet> {
    if FinIsDue(h, expired) then [Packet(U32(SentCount(h)), U32(|Arrived(h)|), CT_FIN, 0xffff, [])] else []
  }

  function RoundDue(h: S.Host, expired: bool): seq<Packet> {
    if h.sock.isConnection then DataDue(h, expired) + FinDue(h, expired) else []
  }

  // ----- the same round on positions -----

  predicate NetWaiting(tx: P.Tx) {
    tx.sent != tx.acked || tx.front == tx.sent
  }

  function NetChunk(tx: P.Tx): int {
    Min(Min(|tx.committed|, tx.front) - tx.sent, MAX_TCP_LEN)
  }

  function NetCarrying(x: P.Peer, from: int, to: int): P.Segment {
    P.Segment(x.tx.acked, |x.rx.received|, CT_NONE, P.LAP, P.Slice(x.tx.committed, from, to))
  }

  function NetData(x: P.Peer, expired: bool): seq<P.Segment> {
    if NetWaiting(x.tx) then
      if expired then [NetCarrying(x, x.tx.acked, x.tx.sent)] else []
    else
      if NetChunk(x.tx) > 0 then [NetCarrying(x, x.tx.sent, x.tx.sent + NetChunk(x.tx))] else []
  }

  predicate NetFin(x: P.Peer, expired: bool) {
    && x.tx.sent == x.tx.acked && x.tx.sent == |x.tx.committed|
    && (x.call || x.rx.finRecv)
    && (!x.tx.finSent || (!x.tx.ackRecv && expired && !NetWaiting(x.tx)))
  }

  function NetFins(x: P.Peer, expired: bool): seq<P.Segment> {
    if NetFin(x, expired) then [P.Segment(x.tx.acked, |x.rx.received|, CT_FIN, P.LAP, [])] else []
  }

  lemma NetDataIsSent(x: P.Peer, now: real)
    requires x.tx.acked <= x.tx.sent <= |x.tx.committed|
    ensures P.TickData(x, now).Done? && P.TickData(x, now).out == NetData(x, x.timer < now)
    ensures var x' := P.TickData(x, now).peer;
      && x' == x.(timer := x'.timer, tx := x.tx.(sent := x'.tx.sent))
      && x'.timer == (if NetData(x, x.timer < now) == [] then x.timer else now + DATA_WAIT)
      && x'.tx.sent == if !NetWaiting(x.tx) && NetChunk(x.tx) > 0 then x.tx.sent + NetChunk(x.tx) else x.tx.sent
  {
  }

  lemma NetRoundIsSent(x: P.Peer, now: real)
    requires x.tx.acked <= x.tx.sent <= |x.tx.committed| && x.tx.sent <= x.tx.front
    requires x.rx.ackSent == x.rx.finRecv && x.tx.conn
    ensures var sent := P.Tick(x, now);
      var fin := NetFin(x, x.timer < now);
      && sent.Done?
      && sent.out == NetData(x, x.timer < now) + NetFins(x, x.timer < now)
      && sent.peer.tx.finSent == (x.tx.finSent || fin)
      && sent.peer.tx.sent == if !NetWaiting(x.tx) && NetChunk(x.tx) > 0 then x.tx.sent + NetChunk(x.tx) else x.tx.sent
  {
    NetDataIsSent(x, now);
    hide P.TickData;
  }

  lemma RoundMatches(h: S.Host, x: P.Peer)
    requires HostMatches(h, x) && Bounded(x) && Open(x)
    ensures Waiting(h) == NetWaiting(x.tx) && Chunk(h) == NetChunk(x.tx)
    ensures SentCount(h) == x.tx.sent && AckedCount(h) == x.tx.acked && |Arrived(h)| == |x.rx.received|
    ensures (Settled(h.sock) <==> x.tx.sent == x.tx.acked) && h.committed == x.tx.committed
    ensures h.sock.cl == P.Bits(x)
  {
    hide SockMatches, Settled, SentCount, WindowEnd, Unacknowledged, Arrived;
    SettledIs(h, x);
    SentCountIs(h, x);
    WindowEndIs(h, x);
    UnacknowledgedIs(h, x);
    ArrivedIs(h, x);
    BitsMatch(h, x);
  }

  lemma CarriedPacket(q: Packet, p: P.Segment)
    requires Carries(q, p)
    ensures q == Packet(U32(p.seqPos), U32(p.ackPos), p.ctrl, p.window, p.data)
  {
  }

  lemma DueMatches(h: S.Host, x: P.Peer, expired: bool, out: seq<P.Segment>, sent: seq<Packet>)
    requires HostMatches(h, x) && Bounded(x) && Open(x) && h.sock.isConnection
    requires out == NetData(x, expired) + NetFins(x, expired)
    requires CarriesAll(sent, out)
    ensures sent == RoundDue(h, expired)
  {
    RoundMatches(h, x);
    hide SockMatches, HostMatches, Bounded, Carries, Waiting, Chunk, SentCount, AckedCount, Arrived, Settled, U32;
    var due := RoundDue(h, expired);
    assert |due| == |out|;
    forall i | 0 <= i < |out|
      ensures sent[i] == due[i]
    {
      CarriedPacket(sent[i], out[i]);
    }
  }

  // ----- the theorem -----

  lemma TimerMoves(w: S.World, act: Action)
    requires act.Timer?
    ensures var sent := M.Tick(w.a.sock, act.now);
      && S.StepA(w, act) == S.Next(w.(a := w.a.(sock := sent.sock), ab := w.ab + sent.out))
      && (!w.a.sock.isConnection ==> sent == M.Done(w.a.sock, []))
  {
    TickKeepsTime(w.a.sock, act.now);
    assert !w.a.sock.isConnection ==> M.Tick(w.a.sock, act.now) == M.Done(w.a.sock, []);
    hide M.Tick;
  }

  lemma RoundBounds(n: P.Net)
    requires Both(n)
    ensures var x := n.a;
      && x.tx.acked <= x.tx.sent <= |x.tx.committed| && x.tx.sent <= x.tx.front
      && x.rx.ackSent == x.rx.finRecv && (x.tx.conn ==> Open(x))
  {
    hide Forward, Backward, Owed;
  }

  lemma NetTimerMoves(n: P.Net, act: Action)
    requires act.Timer? && P.Tick(n.a, act.now).Done?
    ensures P.StepA(n, act).Next? && P.StepA(n, act).net.a == P.Tick(n.a, act.now).peer
  {
    hide P.Tick;
  }

  /** The host after its round. */
  predicate RoundMoves(h: S.Host, h': S.Host, expired: bool) {
    && SameThreads(h, h') && Arrived(h') == Arrived(h)
    && SentCount(h') == SentCount(h) + (if h.sock.isConnection && !Waiting(h) && Chunk(h) > 0 then Chunk(h) else 0)
    && (h'.sock.cl.finSent <==> h.sock.cl.finSent || (h.sock.isConnection && FinIsDue(h, expired)))
  }

  lemma ConnectedRound(w: S.World, n: P.Net, w': S.World, n': P.Net, now: real)
    requires HostMatches(w.a, n.a) && Bounded(n.a) && Both(n) && w.a.sock.isConnection
    requires HostMatches(w'.a, n'.a) && Bounded(n'.a)
    requires P.Tick(n.a, now).Done? && n'.a == P.Tick(n.a, now).peer && w'.a == w.a.(sock := M.Tick(w.a.sock, now).sock)
    ensures M.Tick(w.a.sock, now).out == RoundDue(w.a, w.a.sock.resendTime < now)
    ensures RoundMoves(w.a, w'.a, w.a.sock.resendTime < now)
  {
    RoundBounds(n);
    TimeMatches(w.a.sock, n.a);
    hide Both, SockMatches, P.Tick, M.Tick, Waiting, Chunk, Arrived, SentCount, AckedCount, Settled, Bounded, Open;
    hide RoundDue;
    NetRoundIsSent(n.a, now);
    TickMatches(w.a.sock, n.a, now);
    DueMatches(w.a, n.a, n.a.timer < now, P.Tick(n.a, now).out, M.Tick(w.a.sock, now).out);
    RoundMatches(w.a, n.a);
    SentCountIs(w'.a, n'.a);
    TickLeavesArrived(w.a, now);
    BitsMatch(w'.a, n'.a);
  }

  lemma TimeMatches(s: M.Sock, x: P.Peer)
    requires SockMatches(s, x)
    ensures s.resendTime == x.timer && s.isConnection == x.tx.conn
  {
    hide Holds;
  }

  lemma TickLeavesArrived(h: S.Host, now: real)
    ensures M.Tick(h.sock, now).Done? && Arrived(h.(sock := M.Tick(h.sock, now).sock)) == Arrived(h)
  {
    var s := h.sock;
    var data := M.TickData(s, now);
    assert data.Done? && data.sock.readRing == s.readRing && data.sock.recvBack == s.recvBack
      && data.sock.recvFront == s.recvFront;
    hide M.TickData;
    var s' := M.Tick(s, now).sock;
    assert s'.readRing == s.readRing && s'.recvBack == s.recvBack && s'.recvFront == s.recvFront;
    hide M.Tick, Get;
  }

  /** On every run, what a timer round at `now` sends, and what else it changes. */
  lemma RoundSends(heap: Heap, acts: seq<Action>, fromB: bool, now: real)
    requires S.Run(heap, acts).Next?
    ensures var r := S.Step(S.Run(heap, acts).world, Timer(fromB, now));
      && r.Next?
      && var w, w' := Seen(S.Run(heap, acts).world, fromB), Seen(r.world, fromB);
      var expired := Deadline(heap, acts, fromB) < now;
      && w'.b == w.b && w'.ba == w.ba
      && w'.ab == w.ab + RoundDue(w.a, expired)
      && RoundMoves(w.a, w'.a, expired)
  {
    var act := Timer(fromB, now);
    DeadlineIs(heap, acts, fromB);
    hide S.Run, P.Run, S.Step, P.Step, S.StepA, P.StepA, M.Tick, P.Tick, Direction, Endpoint, Phase;
    hide HostMatches, Bounded, RoundDue, RoundMoves, Deadline;
    var w, n := AtSide(heap, acts, fromB);
    TimerMoves(w, act);
    StepSees(S.Run(heap, acts).world, act, fromB);
    if w.a.sock.isConnection {
      RoundBounds(n);
      TimeView(w, n);
      NetRoundIsSent(n.a, now);
      NetTimerMoves(n, act);
      NetStepSees(P.Run(acts).net, act, fromB);
      var w', n' := After(heap, acts, act, fromB);
      ConnectedRound(w, n, w', n', now);
    } else {
      NothingDue(w.a, Deadline(heap, acts, fromB) < now);
      assert w.ab + [] == w.ab;
    }
  }

  lemma TimeView(w: S.World, n: P.Net)
    requires HostMatches(w.a, n.a)
    ensures w.a.sock.isConnection == n.a.tx.conn
  {
    TimeMatches(w.a.sock, n.a);
  }

  lemma NothingDue(h: S.Host, expired: bool)
    requires !h.sock.isConnection
    ensures RoundDue(h, expired) == [] && RoundMoves(h, h, expired)
  {
  }

  // ----- repetitions -----

  /** No timer round of the chosen host in `more` sends anything. */
  ghost predicate SendsNothing(heap: Heap, acts: seq<Action>, more: seq<Action>, fromB: bool) {
    forall k :: 0 <= k < |more| && more[k].Timer? && more[k].atB == fromB ==> Silent(heap, acts + more[..k + 1], fromB)
  }

  ghost predicate Silent(heap: Heap, acts: seq<Action>, fromB: bool) {
    acts != [] && S.Run(heap, acts).Next? ==> LastSent(heap, acts, fromB) == []
  }

  lemma {:induction false} DeadlineStays(heap: Heap, acts: seq<Action>, more: seq<Action>, fromB: bool)
    requires S.Run(heap, acts + more).Next? && SendsNothing(heap, acts, more, fromB)
    ensures S.Run(heap, acts).Next? && Deadline(heap, acts + more, fromB) == Deadline(heap, acts, fromB)
    decreases |more|
  {
    hide LastSent, S.Step;
    if more == [] {
      assert acts + more == acts;
    } else {
      var most, act := more[..|more| - 1], more[|more| - 1];
      assert (acts + more)[..|acts + more| - 1] == acts + most && (acts + more)[|acts + more| - 1] == act;
      forall k | 0 <= k < |most| && most[k].Timer? && most[k].atB == fromB
        ensures Silent(heap, acts + most[..k + 1], fromB)
      {
        assert most[..k + 1] == more[..k + 1] && most[k] == more[k];
      }
      DeadlineStays(heap, acts, most, fromB);
      assert more[..|more|] == more;
      if act.Timer? && act.atB == fromB { assert Silent(heap, acts + more[..|more|], fromB); }
    }
  }

  /** The time to wait after a round that sent `sent`. */
  function Wait(sent: seq<Packet>): real
    requires sent != []
  {
    if Last(sent).ctrl.fin then FIN_WAIT else DATA_WAIT
  }

  lemma DeadlineAfter(heap: Heap, acts: seq<Action>, now: real, more: seq<Action>, fromB: bool)
    requires var first := acts + [Timer(fromB, now)];
      && S.Run(heap, first).Next? && LastSent(heap, first, fromB) != []
      && S.Run(heap, first + more).Next? && SendsNothing(heap, first, more, fromB)
    ensures var first := acts + [Timer(fromB, now)];
      Deadline(heap, first + more, fromB) == now + Wait(LastSent(heap, first, fromB))
  {
    var first := acts + [Timer(fromB, now)];
    hide LastSent, S.Run;
    DeadlineStays(heap, first, more, fromB);
  }

  /** Repetitions are spaced: after a timer round at `now` that sent something, and until the host's
      rounds send again, a round of the waiting host sends no data up to half a second later (five
      seconds, if that round ended with a FIN), and exactly one data packet from then on. Waiting
      means that a segment is outstanding or the window is closed. */
  lemma DataIsSpaced(heap: Heap, acts: seq<Action>, now: real, more: seq<Action>, later: real, fromB: bool)
    requires var first := acts + [Timer(fromB, now)];
      && S.Run(heap, first).Next? && LastSent(heap, first, fromB) != []
      && S.Run(heap, first + more).Next? && SendsNothing(heap, first, more, fromB)
      && var h := Seen(S.Run(heap, first + more).world, fromB).a; h.sock.isConnection && Waiting(h)
    ensures var first := acts + [Timer(fromB, now)];
      var r := S.Step(S.Run(heap, first + more).world, Timer(fromB, later));
      && r.Next?
      && var w, w' := Seen(S.Run(heap, first + more).world, fromB), Seen(r.world, fromB);
      && (later <= now + Wait(LastSent(heap, first, fromB)) ==> forall q :: q in Entered(w, w') ==> q.ctrl == CT_FIN)
      && (later > now + Wait(LastSent(heap, first, fromB)) ==>
            && Entered(w, w') != [] && Entered(w, w')[0].ctrl == CT_NONE
            && forall q :: q in Entered(w, w')[1..] ==> q.ctrl == CT_FIN)
      && (!Settled(w.a.sock) ==> |Entered(w, w')| == if later <= now + Wait(LastSent(heap, first, fromB)) then 0 else 1)
  {
    hide S.Run, S.Step, LastSent, Deadline, SendsNothing, Wait, Settled, Waiting, SentCount, AckedCount, Arrived;
    hide RoundMoves;
    var first := acts + [Timer(fromB, now)];
    DeadlineAfter(heap, acts, now, more, fromB);
    RoundSends(heap, first + more, fromB, later);
    UnsettledWaits(Seen(S.Run(heap, first + more).world, fromB).a);
  }

  lemma UnsettledWaits(h: S.Host)
    ensures !Settled(h.sock) ==> Waiting(h)
  {
  }

  /** FINs are spaced: after a round at `now` that ended with a FIN, and until the host's rounds send
      again, a round of the host that still waits for the FIN's ACK, with an open window, sends
      nothing for five seconds, and exactly one FIN from then on. */
  lemma FinIsSpaced(heap: Heap, acts: seq<Action>, now: real, more: seq<Action>, later: real, fromB: bool)
    requires var first := acts + [Timer(fromB, now)];
      && S.Run(heap, first).Next? && LastSent(heap, first, fromB) != [] && Last(LastSent(heap, first, fromB)).ctrl.fin
      && S.Run(heap, first + more).Next? && SendsNothing(heap, first, more, fromB)
      && var h := Seen(S.Run(heap, first + more).world, fromB).a;
      && h.sock.isConnection && !Waiting(h) && SentCount(h) == |h.committed|
      && h.sock.cl.finSent && !h.sock.cl.ackRecv && (h.sock.cl.call || h.sock.cl.finRecv)
    ensures var first := acts + [Timer(fromB, now)];
      var r := S.Step(S.Run(heap, first + more).world, Timer(fromB, later));
      && r.Next?
      && var w, w' := Seen(S.Run(heap, first + more).world, fromB), Seen(r.world, fromB);
      && (later <= now + FIN_WAIT ==> Entered(w, w') == [])
      && (later > now + FIN_WAIT ==> |Entered(w, w')| == 1 && Entered(w, w')[0].ctrl == CT_FIN)
  {
    hide S.Run, S.Step, LastSent, Deadline, SendsNothing, SentCount, AckedCount, Arrived, RoundMoves, WindowEnd;
    var first := acts + [Timer(fromB, now)];
    DeadlineAfter(heap, acts, now, more, fromB);
    RoundSends(heap, first + more, fromB, later);
  }
}
