/** Every step of the protocol keeps the invariant. */
module Preservation {
  import opened Tcp
  import opened Protocol
  import opened Invariant
  import opened DirectionSteps

  lemma ApplicationKeeps(n: Net, act: Action)
    requires Both(n)
    ensures Both(n.(a := Application(n.a, act)))
  {
    hide Forward, Backward, Owed;
    var x := n.a;
    if act.WriteCommit? && x.writer.WriteReady? {
      CommitKeeps(x.tx, n.b.rx, n.ab, n.ba, Slice(x.writer.buf, 0, x.writer.count));
    } else if act.ReadCommit? && x.reader.ReadReady? {
      ReadKeeps(n.b.tx, x.rx, n.ba, n.ab, x.reader.count);
    }
  }

  lemma TickDataKeeps(n: Net, now: real)
    requires Both(n) && n.a.tx.conn
    ensures var sent := TickData(n.a, now);
      && sent.Done?
      && Both(n.(a := sent.peer, ab := n.ab + sent.out))
      && sent.peer.tx.conn && sent.peer.rx == n.a.rx && |sent.out| <= 1
      && Bits(sent.peer) == Bits(n.a)
      && forall p :: p in sent.out ==> KindOk(p)
  {
    hide Forward, Backward, Owed;
    var x := n.a;
    var sent := TickData(x, now);
    if sent.out == [] {
      assert n.ab + sent.out == n.ab;
    } else {
      var p := sent.out[0];
      assert sent.out == [p];
      if x.tx.sent != x.tx.acked || x.tx.acked == x.tx.front {
        ResendKeeps(x.tx, n.b.rx, n.ab, n.ba, p);
      } else {
        SendKeeps(x.tx, n.b.rx, n.ab, n.ba, sent.peer.tx.sent, p);
      }
      PushBackward(n.b.tx, x.rx, n.ba, n.ab, p);
    }
  }

  lemma TickFinKeeps(n: Net, now: real)
    requires Both(n) && n.a.tx.conn
    ensures var sent := TickFin(n.a, now);
      && sent.Done?
      && Both(n.(a := sent.peer, ab := n.ab + sent.out))
      && sent.peer.state == n.a.state && sent.peer.rx == n.a.rx
      && Bits(n.a).KeptBy(Bits(sent.peer))
      && forall p :: p in sent.out ==> KindOk(p)
  {
    hide Forward, Backward, Owed;
    var x := n.a;
    var sent := TickFin(x, now);
    if sent.out == [] {
      assert n.ab + sent.out == n.ab;
    } else {
      var p := sent.out[0];
      assert sent.out == [p];
      FinKeeps(x.tx, n.b.rx, n.ab, n.ba, sent.peer.tx, p);
      PushBackward(n.b.tx, x.rx, n.ba, n.ab, p);
    }
  }

  lemma TimerKeeps(n: Net, now: real)
    requires Both(n)
    ensures var sent := Tick(n.a, now);
      && sent.Done?
      && Both(n.(a := sent.peer, ab := n.ab + sent.out))
      && sent.peer.state == n.a.state
      && Bits(n.a).KeptBy(Bits(sent.peer))
      && (forall p :: p in sent.out ==> KindOk(p))
      && (!n.a.tx.conn ==> sent == Done(n.a, []))
  {
    hide Direction;
    var x := n.a;
    var sent := Tick(x, now);
    if x.tx.conn {
      var data := TickData(x, now);
      TickDataKeeps(n, now);
      var n1 := n.(a := data.peer, ab := n.ab + data.out);
      TickFinKeeps(n1, now);
      assert n.ab + sent.out == n1.ab + TickFin(data.peer, now).out;
    } else {
      assert n.ab + sent.out == n.ab;
    }
  }

  // ----- deliveries during data transfer -----

  lemma DeliverAck(n: Net)
    requires Both(n) && n.a.state == Established && |n.ba| > 0 && IsAck(n.ba[0])
    ensures Both(n.(a := OnAck(n.a, n.ba[0]), ba := n.ba[1..]))
    ensures Open(OnAck(n.a, n.ba[0]))
  {
    hide Forward, Backward, Owed;
    var x := n.a;
    var x' := OnAck(x, n.ba[0]);
    AckKeeps(x.tx, n.b.rx, n.ab, n.ba);
    ClosingKeeps(Acked(x.tx, n.ba[0]), n.b.rx, n.ab, n.ba[1..]);
    assert x'.tx == if x'.state == Closed then Acked(x.tx, n.ba[0]).(conn := false) else Acked(x.tx, n.ba[0]);
    PopForward(n.b.tx, x.rx, n.ba, n.ab);
  }

  lemma DeliverFin(n: Net)
    requires Both(n) && n.a.state == Established && |n.ba| > 0 && IsFin(n.ba[0])
    ensures Both(n.(a := OnFin(n.a).peer, ba := n.ba[1..], ab := n.ab + OnFin(n.a).out))
  {
    hide Forward, Backward, Owed;
    var x := n.a;
    var x' := OnFin(x).peer;
    var p := OnFin(x).out[0];
    FinArrives(n.b.tx, x.rx, n.ba, n.ab, x'.rx, p);
    PopBackward(x.tx, n.b.rx, n.ab, n.ba);
    PushForward(x.tx, n.b.rx, n.ab, n.ba[1..], p);
  }

  lemma DeliverData(n: Net)
    requires Both(n) && n.a.state == Established && |n.ba| > 0 && IsData(n.ba[0])
    requires OnData(n.a, n.ba[0]).Done?
    ensures var got := OnData(n.a, n.ba[0]);
      Both(n.(a := got.peer, ba := n.ba[1..], ab := n.ab + got.out))
  {
    hide Forward, Backward, Owed;
    var x := n.a;
    var got := OnData(x, n.ba[0]);
    PopBackward(x.tx, n.b.rx, n.ab, n.ba);
    if got.out == [] {
      PopForward(n.b.tx, x.rx, n.ba, n.ab);
      assert n.ab + got.out == n.ab;
    } else {
      var p := got.out[0];
      assert got.out == [p];
      if |n.ba[0].data| > 0 {
        AcceptKeeps(n.b.tx, x.rx, n.ba, n.ab, got.peer.rx, p);
      } else {
        ProbeKeeps(n.b.tx, x.rx, n.ba, n.ab, p);
        PopForward(n.b.tx, x.rx, n.ba, n.ab + [p]);
      }
      PushForward(x.tx, n.b.rx, n.ab, n.ba[1..], p);
    }
  }

  lemma DeliverClosed(n: Net)
    requires Both(n) && n.a.state == Closed && Bits(n.a).Complete() && |n.ba| > 0
    ensures Both(n.(ba := n.ba[1..]))
  {
    hide Forward, Backward, Owed;
    PopForward(n.b.tx, n.a.rx, n.ba, n.ab);
    PopBackward(n.a.tx, n.b.rx, n.ab, n.ba);
  }

  lemma DeliverKeeps(n: Net)
    requires Both(n) && Open(n.a) && |n.ba| > 0 && KindOk(n.ba[0])
    requires Receive(n.a, n.ba[0]).Done?
    ensures var got := Receive(n.a, n.ba[0]);
      && Both(n.(a := got.peer, ba := n.ba[1..], ab := n.ab + got.out))
      && Open(got.peer)
      && Bits(n.a).KeptBy(Bits(got.peer))
      && forall p :: p in got.out ==> KindOk(p)
  {
    hide Direction;
    var p := n.ba[0];
    var got := Receive(n.a, p);
    if n.a.state == Closed {
      DeliverClosed(n);
      assert n.ab + got.out == n.ab;
    } else if IsAck(p) {
      DeliverAck(n);
      assert n.ab + got.out == n.ab;
    } else if IsFin(p) {
      DeliverFin(n);
      assert got.out == OnFin(n.a).out;
    } else {
      DeliverData(n);
      assert got.out == OnData(n.a, p).out;
    }
  }
}
