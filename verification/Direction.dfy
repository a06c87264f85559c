/** Every event of one stream keeps `Direction`. */
module DirectionSteps {
  import opened Words
  import opened Tcp
  import opened Protocol
  import opened Invariant

  // ----- opening and closing the sender -----

  lemma OpeningKeeps(tx: Tx, rx: Rx, fwd: seq<Segment>, back: seq<Segment>)
    requires Direction(tx, rx, fwd, back) && |rx.received| <= tx.acked
    ensures Direction(tx.(conn := true), rx, fwd, back)
  {
    assert forall p :: DataOk(tx.(conn := true), |rx.received|, p) == DataOk(tx, |rx.received|, p);
  }

  lemma ClosingKeeps(tx: Tx, rx: Rx, fwd: seq<Segment>, back: seq<Segment>)
    requires Direction(tx, rx, fwd, back)
    ensures Direction(tx.(conn := false), rx, fwd, back)
  {
    assert forall p :: DataOk(tx.(conn := false), |rx.received|, p) == DataOk(tx, |rx.received|, p);
  }

  // ----- packets that belong to the other stream, and losses -----

  lemma InTail<T>(ch: seq<T>)
    requires |ch| > 0
    ensures forall p :: p in ch <==> p == ch[0] || p in ch[1..]
  {
    assert ch == [ch[0]] + ch[1..];
  }

  lemma PopForward(tx: Tx, rx: Rx, fwd: seq<Segment>, back: seq<Segment>)
    requires Direction(tx, rx, fwd, back) && |fwd| > 0
    requires IsFin(fwd[0]) ==> rx.finRecv
    ensures Direction(tx, rx, fwd[1..], back)
  {
    ForwardTail(tx, |rx.received|, fwd);
    InTail(fwd);
  }

  lemma PopBackward(tx: Tx, rx: Rx, fwd: seq<Segment>, back: seq<Segment>)
    requires Direction(tx, rx, fwd, back) && |back| > 0
    requires IsAck(back[0]) ==> tx.ackRecv || !rx.finRecv
    requires IsAck(back[0]) && tx.conn ==> |rx.received| <= tx.acked
    ensures Direction(tx, rx, fwd, back[1..])
  {
    BackwardTail(tx, rx, back);
    InTail(back);
  }

  lemma PushForward(tx: Tx, rx: Rx, fwd: seq<Segment>, back: seq<Segment>, p: Segment)
    requires Direction(tx, rx, fwd, back) && !IsData(p) && !IsFin(p)
    ensures Direction(tx, rx, fwd + [p], back)
  {
    ForwardPush(tx, |rx.received|, fwd, p);
    assert forall q :: q in fwd ==> q in fwd + [p];
  }

  lemma PushBackward(tx: Tx, rx: Rx, fwd: seq<Segment>, back: seq<Segment>, p: Segment)
    requires Direction(tx, rx, fwd, back) && !IsAck(p)
    ensures Direction(tx, rx, fwd, back + [p])
  {
    BackwardPush(tx, rx, back, p);
    assert forall q :: q in back ==> q in back + [p];
  }

  lemma InDropped<T>(ch: seq<T>, k: nat)
    requires k < |ch|
    ensures forall p :: p in ch <==> p == ch[k] || p in DropAt(ch, k)
  {
    assert ch == ch[..k] + [ch[k]] + ch[k + 1..];
  }

  /** A loss of a data segment, a probe or a copy harms neither stream. */
  lemma DropKeeps(tx: Tx, rx: Rx, fwd: seq<Segment>, back: seq<Segment>, k: nat)
    requires Direction(tx, rx, fwd, back)
    ensures Droppable(fwd, k) ==> Direction(tx, rx, DropAt(fwd, k), back)
    ensures Droppable(back, k) ==> Direction(tx, rx, fwd, DropAt(back, k))
  {
    if Droppable(fwd, k) {
      ForwardDrop(tx, |rx.received|, fwd, k);
      InDropped(fwd, k);
    }
    if Droppable(back, k) {
      BackwardDrop(tx, rx, back, k);
      InDropped(back, k);
    }
  }

  // ----- the sender -----

  lemma CommitKeeps(tx: Tx, rx: Rx, fwd: seq<Segment>, back: seq<Segment>, data: seq<byte>)
    requires Direction(tx, rx, fwd, back)
    requires |data| <= SendSpace(tx)
    ensures Direction(tx.(committed := tx.committed + data), rx, fwd, back)
  {
    var tx' := tx.(committed := tx.committed + data);
    forall i | 0 <= i < |fwd| && IsData(fwd[i])
      ensures DataOk(tx', |rx.received|, fwd[i])
    {
      assert DataOk(tx, |rx.received|, fwd[i]);
    }
  }

  /** A resend of the outstanding segment, or a zero-window probe. */
  lemma ResendKeeps(tx: Tx, rx: Rx, fwd: seq<Segment>, back: seq<Segment>, p: Segment)
    requires Direction(tx, rx, fwd, back)
    requires IsData(p) && p.seqPos == tx.acked && p.data == tx.committed[tx.acked..tx.sent]
    ensures Direction(tx, rx, fwd + [p], back)
  {
    ForwardPush(tx, |rx.received|, fwd, p);
    assert forall q :: q in fwd ==> q in fwd + [p];
  }

  lemma SendKeeps(tx: Tx, rx: Rx, fwd: seq<Segment>, back: seq<Segment>, sent: nat, p: Segment)
    requires Direction(tx, rx, fwd, back)
    requires tx.acked == tx.sent < sent <= |tx.committed| && sent <= tx.sent + MAX_TCP_LEN && sent <= tx.front
    requires IsData(p) && p.seqPos == tx.acked && p.data == tx.committed[tx.acked..sent]
    ensures Direction(tx.(sent := sent), rx, fwd + [p], back)
  {
    var tx' := tx.(sent := sent);
    forall i | 0 <= i < |fwd| && IsData(fwd[i])
      ensures DataOk(tx', |rx.received|, fwd[i])
    {
      assert DataOk(tx, |rx.received|, fwd[i]);
    }
    ForwardPush(tx', |rx.received|, fwd, p);
    assert forall q :: q in fwd ==> q in fwd + [p];
  }

  lemma FinKeeps(tx: Tx, rx: Rx, fwd: seq<Segment>, back: seq<Segment>, tx': Tx, p: Segment)
    requires Direction(tx, rx, fwd, back) && Drained(tx) && IsFin(p)
    requires tx.ackRecv ==> tx.finSent
    requires tx.finSent ==> !tx.ackRecv && tx' == tx
    requires !tx.finSent ==> tx' == tx.(finSent := true, finPos := |tx.committed|)
    ensures Direction(tx', rx, fwd + [p], back)
  {
    forall i, j | 0 <= i < j < |fwd| && IsData(fwd[i])
      ensures InOrder(tx', fwd[i], fwd[j])
    {
      assert InOrder(tx, fwd[i], fwd[j]) && DataOk(tx, |rx.received|, fwd[i]);
    }
    assert Forward(tx', |rx.received|, fwd);
    forall i | 0 <= i < |fwd| && IsData(fwd[i])
      ensures fwd[i].seqPos + |fwd[i].data| <= tx'.finPos
    {
      assert DataOk(tx, |rx.received|, fwd[i]);
    }
    ForwardPush(tx', |rx.received|, fwd, p);
    assert forall q :: q in fwd ==> q in fwd + [p];
    assert p in fwd + [p];
  }

  /** The sender's half after an ACK. */
  function Acked(tx: Tx, p: Segment): Tx {
    var tx1 := AckSend(tx, p);
    if tx1.finSent then tx1.(ackRecv := true) else tx1
  }

  lemma AckCore(tx: Tx, rx: Rx, p: Segment)
    requires Core(tx, rx) && AckOk(tx, rx, p)
    ensures Core(Acked(tx, p), rx)
    ensures p.ackPos != tx.sent ==> Acked(tx, p).acked == tx.acked
    ensures p.ackPos == tx.sent ==> Acked(tx, p).acked == tx.sent
    ensures Acked(tx, p).sent == tx.sent && Acked(tx, p).committed == tx.committed
  {
  }

  lemma AckKeeps(tx: Tx, rx: Rx, fwd: seq<Segment>, back: seq<Segment>)
    requires Direction(tx, rx, fwd, back) && |back| > 0 && IsAck(back[0])
    ensures Direction(Acked(tx, back[0]), rx, fwd, back[1..])
  {
    var tx' := Acked(tx, back[0]);
    var got := |rx.received|;
    AckCore(tx, rx, back[0]);
    AckForward(tx, rx, fwd, back[0]);
    AckBackward(tx, rx, back);
    InTail(back);
    if tx'.conn && tx'.acked < got {
      assert AckOf(back, got);
      assert back[0].ackPos != got;
    }
  }

  lemma AckForward(tx: Tx, rx: Rx, fwd: seq<Segment>, p: Segment)
    requires Core(tx, rx) && Forward(tx, |rx.received|, fwd)
    ensures Forward(Acked(tx, p), |rx.received|, fwd)
  {
    forall i | 0 <= i < |fwd| && IsData(fwd[i])
      ensures DataOk(Acked(tx, p), |rx.received|, fwd[i])
    {
      assert DataOk(tx, |rx.received|, fwd[i]);
    }
  }

  lemma AckBackward(tx: Tx, rx: Rx, back: seq<Segment>)
    requires Core(tx, rx) && Backward(tx, rx, back) && |back| > 0 && IsAck(back[0])
    ensures Backward(Acked(tx, back[0]), rx, back[1..])
  {
    forall i | 1 <= i < |back| && IsAck(back[i])
      ensures AckOk(Acked(tx, back[0]), rx, back[i])
    {
      assert AckOk(tx, rx, back[i]);
    }
  }

  // ----- the receiver -----

  lemma ReadKeeps(tx: Tx, rx: Rx, fwd: seq<Segment>, back: seq<Segment>, count: nat)
    requires Direction(tx, rx, fwd, back) && count <= RecvSpace(rx)
    ensures Direction(tx, rx.(read := rx.read + count), fwd, back)
  {
    var rx' := rx.(read := rx.read + count);
    forall i | 0 <= i < |back| && IsAck(back[i])
      ensures AckOk(tx, rx', back[i])
    {
      assert AckOk(tx, rx, back[i]);
    }
  }

  /** An ACK of everything received, with the current window. */
  lemma ReplyKeeps(tx: Tx, rx: Rx, fwd: seq<Segment>, back: seq<Segment>, p: Segment)
    requires Core(tx, rx) && Backward(tx, rx, back)
    requires IsAck(p) && p.ackPos == |rx.received| && p.window == Window(rx)
    ensures Backward(tx, rx, back + [p])
  {
    forall i | 0 <= i < |back| && IsAck(back[i])
      ensures back[i].ackPos <= p.ackPos + 1
    {
      assert AckOk(tx, rx, back[i]);
    }
    BackwardPush(tx, rx, back, p);
  }

  lemma ProbeKeeps(tx: Tx, rx: Rx, fwd: seq<Segment>, back: seq<Segment>, p: Segment)
    requires Direction(tx, rx, fwd, back)
    requires IsAck(p) && p.ackPos == |rx.received| && p.window == Window(rx)
    ensures Direction(tx, rx, fwd, back + [p])
  {
    ReplyKeeps(tx, rx, fwd, back, p);
    assert forall q :: q in back ==> q in back + [p];
  }

  /** A segment accepted in order: it is the whole outstanding segment, with the stream's bytes. */
  lemma AcceptExtends(tx: Tx, rx: Rx, fwd: seq<Segment>)
    requires Core(tx, rx) && Forward(tx, |rx.received|, fwd)
    requires |fwd| > 0 && IsData(fwd[0]) && |fwd[0].data| > 0 && fwd[0].seqPos == |rx.received|
    ensures var got' := |rx.received + fwd[0].data|;
      && rx.received + fwd[0].data == tx.committed[..got']
      && (got' == tx.sent || (got' == tx.acked && Overtaken(tx, rx)))
      && (!Late(tx) ==> got' == tx.sent)
  {
    assert DataOk(tx, |rx.received|, fwd[0]);
  }

  lemma AcceptKeeps(tx: Tx, rx: Rx, fwd: seq<Segment>, back: seq<Segment>, rx': Rx, p: Segment)
    requires Direction(tx, rx, fwd, back)
    requires |fwd| > 0 && IsData(fwd[0]) && |fwd[0].data| > 0 && fwd[0].seqPos == |rx.received|
    requires |fwd[0].data| <= Window(rx)
    requires rx' == rx.(received := rx.received + fwd[0].data)
    requires IsAck(p) && p.ackPos == |rx'.received| && p.window == Window(rx')
    ensures Direction(tx, rx', fwd[1..], back + [p])
  {
    var got, got' := |rx.received|, |rx'.received|;
    AcceptExtends(tx, rx, fwd);
    assert Core(tx, rx');
    forall j | 1 <= j < |fwd|
      ensures IsData(fwd[j]) ==> DataOk(tx, got', fwd[j])
      ensures IsFin(fwd[j]) ==> tx.finSent && got' <= tx.finPos
    {
      assert InOrder(tx, fwd[0], fwd[j]) && DataOk(tx, got, fwd[0]);
      assert IsData(fwd[j]) ==> DataOk(tx, got, fwd[j]);
    }
    ForwardTail(tx, got, fwd);
    assert Forward(tx, got', fwd[1..]);
    forall i | 0 <= i < |back| && IsAck(back[i])
      ensures AckOk(tx, rx', back[i])
    {
      assert AckOk(tx, rx, back[i]);
    }
    ReplyKeeps(tx, rx', fwd[1..], back, p);
    InTail(fwd);
    assert forall q :: q in back ==> q in back + [p];
    assert p in back + [p];
  }

  lemma FinArrives(tx: Tx, rx: Rx, fwd: seq<Segment>, back: seq<Segment>, rx': Rx, p: Segment)
    requires Direction(tx, rx, fwd, back) && |fwd| > 0 && IsFin(fwd[0])
    requires rx' == rx.(finRecv := true, ackSent := true)
    requires IsAck(p) && p.ackPos == |rx.received| + 1 && p.window == Window(rx)
    ensures Direction(tx, rx', fwd[1..], back + [p])
  {
    ForwardTail(tx, |rx.received|, fwd);
    assert |rx.received| == tx.finPos;
    forall i | 0 <= i < |back| && IsAck(back[i])
      ensures AckOk(tx, rx', back[i]) && back[i].ackPos <= p.ackPos + 1
    {
      assert AckOk(tx, rx, back[i]);
    }
    BackwardPush(tx, rx', back, p);
    InTail(fwd);
    assert forall q :: q in back ==> q in back + [p];
    assert p in back + [p];
  }
}
