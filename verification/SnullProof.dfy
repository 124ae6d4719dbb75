/** Every step of the snull pair keeps `PortInv` of both interfaces. */
module SnullProof {
  import opened Common
  import opened SnullModel

  // ---------------------------------------------------------------------------
  // Counting
  // ---------------------------------------------------------------------------

  lemma CountCons<T>(x: T, q: seq<T>, k: T)
    ensures Count([x] + q, k) == B(x == k) + Count(q, k)
  {
    assert ([x] + q)[1..] == q;
  }

  lemma {:induction false} CountSnoc<T>(q: seq<T>, x: T, k: T)
    ensures Count(q + [x], k) == Count(q, k) + B(x == k)
  {
    if q != [] {
      assert (q + [x])[1..] == q[1..] + [x];
      CountSnoc(q[1..], x, k);
    }
  }

  lemma {:induction false} CountZero<T>(q: seq<T>, k: T)
    requires k !in q
    ensures Count(q, k) == 0
  {
    if q != [] { CountZero(q[1..], k); }
  }

  lemma {:induction false} CountIsMultiplicity<T>(q: seq<T>, k: T)
    ensures Count(q, k) == multiset(q)[k]
  {
    if q != [] {
      CountIsMultiplicity(q[1..], k);
      assert q == [q[0]] + q[1..];
    }
  }

  lemma HandsAreOwned(c: Config, p: Port, q: Port)
    requires BufferInv(c, p, q)
    ensures HandsOwned(p, q)
  {
    if p.xmit.HasBuffer? || p.xmit.Lost? { assert InOnePlace(c, p, q, p.xmit.pkt); }
    if p.xmit.InRxIrq? && p.xmit.irq.PreRelease? { assert InOnePlace(c, p, q, p.xmit.irq.pkt); }
    if q.xmit.InTxIrq? && q.xmit.irq.PreRelease? { assert InOnePlace(c, p, q, q.xmit.irq.pkt); }
    if q.napi.poll.PollRelease? { assert InOnePlace(c, p, q, q.napi.poll.pkt); }
    if q.ctl.DrainRelease? { assert InOnePlace(c, p, q, q.ctl.pkt); }
  }

  // ---------------------------------------------------------------------------
  // Steps of ldd_start_xmit()
  // ---------------------------------------------------------------------------

  lemma XmitKeepsCtl(c: Config, a: XmitAction, p: Port, q: Port, p': Port, q': Port)
    requires p.dev != q.dev && XmitStep(a, p, q, p', q')
    requires CtlInv(c, p)
    ensures p'.dev == p.dev && CtlInv(c, p')
  {
  }

  lemma XmitLeavesCtl(c: Config, a: XmitAction, p: Port, q: Port, p': Port, q': Port)
    requires p.dev != q.dev && XmitStep(a, p, q, p', q')
    requires CtlInv(c, q)
    ensures q'.dev == q.dev && CtlInv(c, q')
  {
  }

  lemma XmitKeepsStatus(c: Config, a: XmitAction, p: Port, q: Port, p': Port, q': Port)
    requires p.dev != q.dev && XmitStep(a, p, q, p', q')
    requires StatusInv(c, p, q) && StatusInv(c, q, p)
    ensures StatusInv(c, p', q') && StatusInv(c, q', p')
  {
  }

  lemma XmitKeepsFifo(c: Config, a: XmitAction, p: Port, q: Port, p': Port, q': Port)
    requires p.dev != q.dev && XmitStep(a, p, q, p', q')
    requires FifoInv(p) && FifoInv(q)
    ensures FifoInv(p') && FifoInv(q')
  {
  }

  lemma XmitKeepsQueues(c: Config, a: XmitAction, p: Port, q: Port, p': Port, q': Port)
    requires p.dev != q.dev && XmitStep(a, p, q, p', q')
    requires QueueInv(p, q) && QueueInv(q, p)
    ensures QueueInv(p', q') && QueueInv(q', p')
  {
  }

  lemma XmitKeepsRx(c: Config, a: XmitAction, p: Port, q: Port, p': Port, q': Port)
    requires p.dev != q.dev && XmitStep(a, p, q, p', q')
    requires CtlInv(c, p) && CtlInv(c, q) && StatusInv(c, p, q) && StatusInv(c, q, p)
    requires RxInv(c, p, q) && RxInv(c, q, p)
    ensures RxInv(c, p', q') && RxInv(c, q', p')
  {
  }

  lemma XmitSendsBuffer(c: Config, p: Port, q: Port, p': Port, q': Port, k: Packet)
    requires XmitStep(Enqueue, p, q, p', q') && InOnePlace(c, p, q, k)
    ensures InOnePlace(c, p', q', k)
  {
    CountSnoc(q.rx.queue, p.xmit.pkt, k);
  }

  lemma XmitReturnsBuffer(c: Config, p: Port, q: Port, p': Port, q': Port, k: Packet)
    requires p.dev != q.dev && XmitStep(ReleaseLost, p, q, p', q')
    requires InOnePlace(c, p, q, k) && HandsOwned(p, q)
    ensures InOnePlace(c, p', q', k)
  {
    CountCons(p.xmit.pkt, p.tx.pool, k);
  }

  lemma XmitMovesBuffer(c: Config, a: XmitAction, p: Port, q: Port, p': Port, q': Port, k: Packet)
    requires p.dev != q.dev && XmitStep(a, p, q, p', q')
    requires InOnePlace(c, p, q, k) && HandsOwned(p, q)
    ensures InOnePlace(c, p', q', k)
  {
    match a
    case Enqueue => XmitSendsBuffer(c, p, q, p', q', k);
    case ReleaseLost => XmitReturnsBuffer(c, p, q, p', q', k);
    case _ =>
  }

  lemma XmitLeavesBuffer(c: Config, a: XmitAction, p: Port, q: Port, p': Port, q': Port, k: Packet)
    requires p.dev != q.dev && XmitStep(a, p, q, p', q')
    requires InOnePlace(c, q, p, k) && HandsOwned(p, q)
    ensures InOnePlace(c, q', p', k)
  {
  }

  lemma XmitKeepsSkb(c: Config, a: XmitAction, p: Port, q: Port, p': Port, q': Port, k: nat)
    requires p.dev != q.dev && XmitStep(a, p, q, p', q')
    requires FreedOnce(p, q, k) && StatusInv(c, p, q)
    ensures FreedOnce(p', q', k)
  {
    if a.Drop? || a.GetBuffer? {
      CountSnoc(p.tx.accepted, a.skb, k);
      CountSnoc(p.tx.freed, a.skb, k);
      CountZero(p.tx.accepted, a.skb);
    }
  }

  lemma XmitLeavesSkb(c: Config, a: XmitAction, p: Port, q: Port, p': Port, q': Port, k: nat)
    requires p.dev != q.dev && XmitStep(a, p, q, p', q')
    requires FreedOnce(q, p, k)
    ensures FreedOnce(q', p', k)
  {
  }

  lemma XmitKeeps(c: Config, a: XmitAction, p: Port, q: Port, p': Port, q': Port)
    requires p.dev != q.dev && XmitStep(a, p, q, p', q')
    requires PortInv(c, p, q) && PortInv(c, q, p)
    ensures p'.dev == p.dev && q'.dev == q.dev
    ensures PortInv(c, p', q') && PortInv(c, q', p')
  {
    XmitKeepsCtl(c, a, p, q, p', q');
    XmitLeavesCtl(c, a, p, q, p', q');
    XmitKeepsStatus(c, a, p, q, p', q');
    XmitKeepsFifo(c, a, p, q, p', q');
    XmitKeepsQueues(c, a, p, q, p', q');
    XmitKeepsRx(c, a, p, q, p', q');
    HandsAreOwned(c, p, q);
    forall k ensures InOnePlace(c, p', q', k) && InOnePlace(c, q', p', k) {
      assert InOnePlace(c, p, q, k) && InOnePlace(c, q, p, k);
      XmitMovesBuffer(c, a, p, q, p', q', k);
      XmitLeavesBuffer(c, a, p, q, p', q', k);
    }
    forall k ensures FreedOnce(p', q', k) && FreedOnce(q', p', k) {
      assert FreedOnce(p, q, k) && FreedOnce(q, p, k);
      XmitKeepsSkb(c, a, p, q, p', q', k);
      XmitLeavesSkb(c, a, p, q, p', q', k);
    }
  }

  // ---------------------------------------------------------------------------
  // Steps of the TX interrupt
  // ---------------------------------------------------------------------------

  lemma OwnIrqKeepsCtl(c: Config, a: IrqAction, p: Port, q: Port, p': Port, q': Port)
    requires p.dev != q.dev && OwnIrqStep(c, a, p, q, p', q')
    requires CtlInv(c, p) && StatusInv(c, p, q)
    ensures p'.dev == p.dev && CtlInv(c, p')
  {
  }

  lemma OwnIrqLeavesCtl(c: Config, a: IrqAction, p: Port, q: Port, p': Port, q': Port)
    requires p.dev != q.dev && OwnIrqStep(c, a, p, q, p', q')
    requires CtlInv(c, q)
    ensures q'.dev == q.dev && CtlInv(c, q')
  {
  }

  lemma OwnIrqKeepsStatus(c: Config, a: IrqAction, p: Port, q: Port, p': Port, q': Port)
    requires p.dev != q.dev && OwnIrqStep(c, a, p, q, p', q')
    requires StatusInv(c, p, q) && StatusInv(c, q, p)
    ensures StatusInv(c, p', q') && StatusInv(c, q', p')
  {
  }

  lemma OwnIrqKeepsFifo(c: Config, a: IrqAction, p: Port, q: Port, p': Port, q': Port)
    requires p.dev != q.dev && OwnIrqStep(c, a, p, q, p', q')
    requires FifoInv(p) && FifoInv(q)
    ensures FifoInv(p') && FifoInv(q')
  {
  }

  lemma OwnIrqKeepsQueues(c: Config, a: IrqAction, p: Port, q: Port, p': Port, q': Port)
    requires p.dev != q.dev && OwnIrqStep(c, a, p, q, p', q')
    requires QueueInv(p, q) && QueueInv(q, p)
    ensures QueueInv(p', q') && QueueInv(q', p')
  {
  }

  lemma OwnIrqKeepsRx(c: Config, a: IrqAction, p: Port, q: Port, p': Port, q': Port)
    requires p.dev != q.dev && OwnIrqStep(c, a, p, q, p', q')
    requires CtlInv(c, p) && CtlInv(c, q) && StatusInv(c, p, q) && StatusInv(c, q, p)
    requires RxInv(c, p, q) && RxInv(c, q, p)
    ensures RxInv(c, p', q') && RxInv(c, q', p')
  {
  }

  lemma OwnIrqMovesBuffer(c: Config, a: IrqAction, p: Port, q: Port, p': Port, q': Port, k: Packet)
    requires p.dev != q.dev && OwnIrqStep(c, a, p, q, p', q')
    requires InOnePlace(c, q, p, k) && HandsOwned(q, p)
    ensures InOnePlace(c, q', p', k)
  {
    if a.Release? { CountCons(p.xmit.irq.pkt, q.tx.pool, k); }
  }

  lemma OwnIrqLeavesBuffer(c: Config, a: IrqAction, p: Port, q: Port, p': Port, q': Port, k: Packet)
    requires p.dev != q.dev && OwnIrqStep(c, a, p, q, p', q')
    requires InOnePlace(c, p, q, k) && HandsOwned(q, p)
    ensures InOnePlace(c, p', q', k)
  {
  }

  lemma OwnIrqKeepsSkb(c: Config, a: IrqAction, p: Port, q: Port, p': Port, q': Port, k: nat)
    requires p.dev != q.dev && OwnIrqStep(c, a, p, q, p', q')
    requires FreedOnce(p, q, k) && StatusInv(c, p, q)
    ensures FreedOnce(p', q', k)
  {
    if a.TxDone? && p.xmit.irq.tx.Some? { CountSnoc(p.tx.freed, p.xmit.irq.tx.value, k); }
  }

  lemma OwnIrqLeavesSkb(c: Config, a: IrqAction, p: Port, q: Port, p': Port, q': Port, k: nat)
    requires p.dev != q.dev && OwnIrqStep(c, a, p, q, p', q')
    requires FreedOnce(q, p, k)
    ensures FreedOnce(q', p', k)
  {
  }

  lemma OwnIrqKeeps(c: Config, a: IrqAction, p: Port, q: Port, p': Port, q': Port)
    requires p.dev != q.dev && OwnIrqStep(c, a, p, q, p', q')
    requires PortInv(c, p, q) && PortInv(c, q, p)
    ensures p'.dev == p.dev && q'.dev == q.dev
    ensures PortInv(c, p', q') && PortInv(c, q', p')
  {
    OwnIrqKeepsCtl(c, a, p, q, p', q');
    OwnIrqLeavesCtl(c, a, p, q, p', q');
    OwnIrqKeepsStatus(c, a, p, q, p', q');
    OwnIrqKeepsFifo(c, a, p, q, p', q');
    OwnIrqKeepsQueues(c, a, p, q, p', q');
    OwnIrqKeepsRx(c, a, p, q, p', q');
    HandsAreOwned(c, q, p);
    forall k ensures InOnePlace(c, p', q', k) && InOnePlace(c, q', p', k) {
      assert InOnePlace(c, p, q, k) && InOnePlace(c, q, p, k);
      OwnIrqMovesBuffer(c, a, p, q, p', q', k);
      OwnIrqLeavesBuffer(c, a, p, q, p', q', k);
    }
    forall k ensures FreedOnce(p', q', k) && FreedOnce(q', p', k) {
      assert FreedOnce(p, q, k) && FreedOnce(q, p, k);
      OwnIrqKeepsSkb(c, a, p, q, p', q', k);
      OwnIrqLeavesSkb(c, a, p, q, p', q', k);
    }
  }

  // ---------------------------------------------------------------------------
  // Steps of the RX interrupt
  // ---------------------------------------------------------------------------

  lemma PeerIrqKeepsCtl(c: Config, a: IrqAction, p: Port, q: Port, p': Port, q': Port)
    requires p.dev != q.dev && PeerIrqStep(c, a, p, q, p', q')
    requires CtlInv(c, p) && StatusInv(c, q, p)
    ensures p'.dev == p.dev && CtlInv(c, p')
  {
  }

  lemma PeerIrqLeavesCtl(c: Config, a: IrqAction, p: Port, q: Port, p': Port, q': Port)
    requires p.dev != q.dev && PeerIrqStep(c, a, p, q, p', q')
    requires CtlInv(c, q)
    ensures q'.dev == q.dev && CtlInv(c, q')
  {
  }

  lemma PeerIrqKeepsStatus(c: Config, a: IrqAction, p: Port, q: Port, p': Port, q': Port)
    requires p.dev != q.dev && PeerIrqStep(c, a, p, q, p', q')
    requires StatusInv(c, p, q) && StatusInv(c, q, p)
    ensures StatusInv(c, p', q') && StatusInv(c, q', p')
  {
  }

  lemma PeerIrqKeepsFifo(c: Config, a: IrqAction, p: Port, q: Port, p': Port, q': Port)
    requires p.dev != q.dev && PeerIrqStep(c, a, p, q, p', q')
    requires FifoInv(p) && FifoInv(q)
    ensures FifoInv(p') && FifoInv(q')
  {
  }

  lemma PeerIrqKeepsQueues(c: Config, a: IrqAction, p: Port, q: Port, p': Port, q': Port)
    requires p.dev != q.dev && PeerIrqStep(c, a, p, q, p', q')
    requires QueueInv(p, q) && QueueInv(q, p)
    ensures QueueInv(p', q') && QueueInv(q', p')
  {
  }

  lemma PeerIrqKeepsRx(c: Config, a: IrqAction, p: Port, q: Port, p': Port, q': Port)
    requires p.dev != q.dev && PeerIrqStep(c, a, p, q, p', q')
    requires CtlInv(c, p) && CtlInv(c, q) && StatusInv(c, p, q) && StatusInv(c, q, p)
    requires RxInv(c, p, q) && RxInv(c, q, p)
    ensures RxInv(c, p', q') && RxInv(c, q', p')
  {
  }

  lemma PeerIrqMovesBuffer(c: Config, a: IrqAction, p: Port, q: Port, p': Port, q': Port, k: Packet)
    requires p.dev != q.dev && PeerIrqStep(c, a, p, q, p', q')
    requires InOnePlace(c, q, p, k) && HandsOwned(q, p)
    ensures InOnePlace(c, q', p', k)
  {
    if a.Release? { CountCons(q.xmit.irq.pkt, q.tx.pool, k); }
  }

  lemma PeerIrqLeavesBuffer(c: Config, a: IrqAction, p: Port, q: Port, p': Port, q': Port, k: Packet)
    requires p.dev != q.dev && PeerIrqStep(c, a, p, q, p', q')
    requires InOnePlace(c, p, q, k) && HandsOwned(q, p)
    ensures InOnePlace(c, p', q', k)
  {
  }

  lemma PeerIrqKeepsSkb(c: Config, a: IrqAction, p: Port, q: Port, p': Port, q': Port, k: nat)
    requires p.dev != q.dev && PeerIrqStep(c, a, p, q, p', q')
    requires FreedOnce(p, q, k) && StatusInv(c, p, q)
    ensures FreedOnce(p', q', k)
  {
    if a.TxDone? && q.xmit.irq.tx.Some? { CountSnoc(p.tx.freed, q.xmit.irq.tx.value, k); }
  }

  lemma PeerIrqLeavesSkb(c: Config, a: IrqAction, p: Port, q: Port, p': Port, q': Port, k: nat)
    requires p.dev != q.dev && PeerIrqStep(c, a, p, q, p', q')
    requires FreedOnce(q, p, k)
    ensures FreedOnce(q', p', k)
  {
  }

  lemma PeerIrqKeeps(c: Config, a: IrqAction, p: Port, q: Port, p': Port, q': Port)
    requires p.dev != q.dev && PeerIrqStep(c, a, p, q, p', q')
    requires PortInv(c, p, q) && PortInv(c, q, p)
    ensures p'.dev == p.dev && q'.dev == q.dev
    ensures PortInv(c, p', q') && PortInv(c, q', p')
  {
    PeerIrqKeepsCtl(c, a, p, q, p', q');
    PeerIrqLeavesCtl(c, a, p, q, p', q');
    PeerIrqKeepsStatus(c, a, p, q, p', q');
    PeerIrqKeepsFifo(c, a, p, q, p', q');
    PeerIrqKeepsQueues(c, a, p, q, p', q');
    PeerIrqKeepsRx(c, a, p, q, p', q');
    HandsAreOwned(c, q, p);
    forall k ensures InOnePlace(c, p', q', k) && InOnePlace(c, q', p', k) {
      assert InOnePlace(c, p, q, k) && InOnePlace(c, q, p, k);
      PeerIrqMovesBuffer(c, a, p, q, p', q', k);
      PeerIrqLeavesBuffer(c, a, p, q, p', q', k);
    }
    forall k ensures FreedOnce(p', q', k) && FreedOnce(q', p', k) {
      assert FreedOnce(p, q, k) && FreedOnce(q, p, k);
      PeerIrqKeepsSkb(c, a, p, q, p', q', k);
      PeerIrqLeavesSkb(c, a, p, q, p', q', k);
    }
  }

  // ---------------------------------------------------------------------------
  // Steps of ldd_poll()
  // ---------------------------------------------------------------------------

  lemma PollKeepsCtl(c: Config, a: PollAction, p: Port, q: Port, p': Port, q': Port)
    requires p.dev != q.dev && PollStep(c, a, p, q, p', q')
    requires CtlInv(c, p)
    ensures p'.dev == p.dev && CtlInv(c, p')
  {
  }

  lemma PollLeavesCtl(c: Config, a: PollAction, p: Port, q: Port, p': Port, q': Port)
    requires p.dev != q.dev && PollStep(c, a, p, q, p', q')
    requires CtlInv(c, q)
    ensures q'.dev == q.dev && CtlInv(c, q')
  {
  }

  lemma PollKeepsStatus(c: Config, a: PollAction, p: Port, q: Port, p': Port, q': Port)
    requires p.dev != q.dev && PollStep(c, a, p, q, p', q')
    requires StatusInv(c, p, q) && StatusInv(c, q, p)
    ensures StatusInv(c, p', q') && StatusInv(c, q', p')
  {
  }

  lemma PollKeepsFifo(c: Config, a: PollAction, p: Port, q: Port, p': Port, q': Port)
    requires p.dev != q.dev && PollStep(c, a, p, q, p', q')
    requires FifoInv(p) && FifoInv(q)
    ensures FifoInv(p') && FifoInv(q')
  {
  }

  lemma PollKeepsQueues(c: Config, a: PollAction, p: Port, q: Port, p': Port, q': Port)
    requires p.dev != q.dev && PollStep(c, a, p, q, p', q')
    requires QueueInv(p, q) && QueueInv(q, p)
    ensures QueueInv(p', q') && QueueInv(q', p')
  {
  }

  lemma PollKeepsRx(c: Config, a: PollAction, p: Port, q: Port, p': Port, q': Port)
    requires p.dev != q.dev && PollStep(c, a, p, q, p', q')
    requires CtlInv(c, p) && CtlInv(c, q) && StatusInv(c, p, q) && StatusInv(c, q, p)
    requires RxInv(c, p, q) && RxInv(c, q, p)
    ensures RxInv(c, p', q') && RxInv(c, q', p')
  {
  }

  lemma PollTakesBuffer(c: Config, p: Port, q: Port, p': Port, q': Port, k: Packet)
    requires PollStep(c, PollTake, p, q, p', q') && InOnePlace(c, q, p, k)
    ensures InOnePlace(c, q', p', k)
  {
  }

  lemma PollReturnsBuffer(c: Config, p: Port, q: Port, p': Port, q': Port, k: Packet)
    requires p.dev != q.dev && PollStep(c, PollGiveBack, p, q, p', q')
    requires InOnePlace(c, q, p, k) && HandsOwned(q, p)
    ensures InOnePlace(c, q', p', k)
  {
    CountCons(p.napi.poll.pkt, q.tx.pool, k);
  }

  lemma PollMovesBuffer(c: Config, a: PollAction, p: Port, q: Port, p': Port, q': Port, k: Packet)
    requires p.dev != q.dev && PollStep(c, a, p, q, p', q')
    requires InOnePlace(c, q, p, k) && HandsOwned(q, p)
    ensures InOnePlace(c, q', p', k)
  {
    match a
    case PollTake => PollTakesBuffer(c, p, q, p', q', k);
    case PollGiveBack => PollReturnsBuffer(c, p, q, p', q', k);
    case _ =>
  }

  lemma PollLeavesBuffer(c: Config, a: PollAction, p: Port, q: Port, p': Port, q': Port, k: Packet)
    requires p.dev != q.dev && PollStep(c, a, p, q, p', q')
    requires InOnePlace(c, p, q, k) && HandsOwned(q, p)
    ensures InOnePlace(c, p', q', k)
  {
  }

  lemma PollKeepsSkb(c: Config, a: PollAction, p: Port, q: Port, p': Port, q': Port, k: nat)
    requires p.dev != q.dev && PollStep(c, a, p, q, p', q')
    requires FreedOnce(p, q, k) && StatusInv(c, p, q)
    ensures FreedOnce(p', q', k)
  {
  }

  lemma PollLeavesSkb(c: Config, a: PollAction, p: Port, q: Port, p': Port, q': Port, k: nat)
    requires p.dev != q.dev && PollStep(c, a, p, q, p', q')
    requires FreedOnce(q, p, k)
    ensures FreedOnce(q', p', k)
  {
  }

  lemma PollKeeps(c: Config, a: PollAction, p: Port, q: Port, p': Port, q': Port)
    requires p.dev != q.dev && PollStep(c, a, p, q, p', q')
    requires PortInv(c, p, q) && PortInv(c, q, p)
    ensures p'.dev == p.dev && q'.dev == q.dev
    ensures PortInv(c, p', q') && PortInv(c, q', p')
  {
    PollKeepsCtl(c, a, p, q, p', q');
    PollLeavesCtl(c, a, p, q, p', q');
    PollKeepsStatus(c, a, p, q, p', q');
    PollKeepsFifo(c, a, p, q, p', q');
    PollKeepsQueues(c, a, p, q, p', q');
    PollKeepsRx(c, a, p, q, p', q');
    HandsAreOwned(c, q, p);
    forall k ensures InOnePlace(c, p', q', k) && InOnePlace(c, q', p', k) {
      assert InOnePlace(c, p, q, k) && InOnePlace(c, q, p, k);
      PollMovesBuffer(c, a, p, q, p', q', k);
      PollLeavesBuffer(c, a, p, q, p', q', k);
    }
    forall k ensures FreedOnce(p', q', k) && FreedOnce(q', p', k) {
      assert FreedOnce(p, q, k) && FreedOnce(q, p, k);
      PollKeepsSkb(c, a, p, q, p', q', k);
      PollLeavesSkb(c, a, p, q, p', q', k);
    }
  }

  // ---------------------------------------------------------------------------
  // Steps of ldd_open() and ldd_stop()
  // ---------------------------------------------------------------------------

  lemma CtlKeepsCtl(c: Config, a: CtlAction, p: Port, q: Port, p': Port, q': Port)
    requires p.dev != q.dev && CtlStep(c, a, p, q, p', q')
    requires CtlInv(c, p)
    ensures p'.dev == p.dev && CtlInv(c, p')
  {
  }

  lemma CtlLeavesCtl(c: Config, a: CtlAction, p: Port, q: Port, p': Port, q': Port)
    requires p.dev != q.dev && CtlStep(c, a, p, q, p', q')
    requires CtlInv(c, q)
    ensures q'.dev == q.dev && CtlInv(c, q')
  {
  }

  lemma CtlKeepsStatus(c: Config, a: CtlAction, p: Port, q: Port, p': Port, q': Port)
    requires p.dev != q.dev && CtlStep(c, a, p, q, p', q')
    requires StatusInv(c, p, q) && StatusInv(c, q, p)
    ensures StatusInv(c, p', q') && StatusInv(c, q', p')
  {
  }

  lemma CtlKeepsFifo(c: Config, a: CtlAction, p: Port, q: Port, p': Port, q': Port)
    requires p.dev != q.dev && CtlStep(c, a, p, q, p', q')
    requires FifoInv(p) && FifoInv(q)
    ensures FifoInv(p') && FifoInv(q')
  {
  }

  lemma CtlKeepsQueues(c: Config, a: CtlAction, p: Port, q: Port, p': Port, q': Port)
    requires p.dev != q.dev && CtlStep(c, a, p, q, p', q')
    requires QueueInv(p, q) && QueueInv(q, p)
    ensures QueueInv(p', q') && QueueInv(q', p')
  {
  }

  lemma CtlKeepsRx(c: Config, a: CtlAction, p: Port, q: Port, p': Port, q': Port)
    requires p.dev != q.dev && CtlStep(c, a, p, q, p', q')
    requires CtlInv(c, p) && CtlInv(c, q) && StatusInv(c, p, q) && StatusInv(c, q, p)
    requires RxInv(c, p, q) && RxInv(c, q, p)
    ensures RxInv(c, p', q') && RxInv(c, q', p')
  {
  }

  lemma DrainTakesBuffer(c: Config, p: Port, q: Port, p': Port, q': Port, k: Packet)
    requires CtlStep(c, DrainTake, p, q, p', q') && InOnePlace(c, q, p, k)
    ensures InOnePlace(c, q', p', k)
  {
  }

  lemma DrainReturnsBuffer(c: Config, p: Port, q: Port, p': Port, q': Port, k: Packet)
    requires p.dev != q.dev && CtlStep(c, DrainGiveBack, p, q, p', q')
    requires InOnePlace(c, q, p, k) && HandsOwned(q, p)
    ensures InOnePlace(c, q', p', k)
  {
    CountCons(p.ctl.pkt, q.tx.pool, k);
  }

  lemma CtlMovesBuffer(c: Config, a: CtlAction, p: Port, q: Port, p': Port, q': Port, k: Packet)
    requires p.dev != q.dev && CtlStep(c, a, p, q, p', q')
    requires InOnePlace(c, q, p, k) && HandsOwned(q, p)
    ensures InOnePlace(c, q', p', k)
  {
    match a
    case DrainTake => DrainTakesBuffer(c, p, q, p', q', k);
    case DrainGiveBack => DrainReturnsBuffer(c, p, q, p', q', k);
    case _ =>
  }

  lemma CtlLeavesBuffer(c: Config, a: CtlAction, p: Port, q: Port, p': Port, q': Port, k: Packet)
    requires p.dev != q.dev && CtlStep(c, a, p, q, p', q')
    requires InOnePlace(c, p, q, k) && HandsOwned(q, p)
    ensures InOnePlace(c, p', q', k)
  {
  }

  lemma CtlKeepsSkb(c: Config, a: CtlAction, p: Port, q: Port, p': Port, q': Port, k: nat)
    requires p.dev != q.dev && CtlStep(c, a, p, q, p', q')
    requires FreedOnce(p, q, k) && StatusInv(c, p, q)
    ensures FreedOnce(p', q', k)
  {
  }

  lemma CtlLeavesSkb(c: Config, a: CtlAction, p: Port, q: Port, p': Port, q': Port, k: nat)
    requires p.dev != q.dev && CtlStep(c, a, p, q, p', q')
    requires FreedOnce(q, p, k)
    ensures FreedOnce(q', p', k)
  {
  }

  lemma CtlKeeps(c: Config, a: CtlAction, p: Port, q: Port, p': Port, q': Port)
    requires p.dev != q.dev && CtlStep(c, a, p, q, p', q')
    requires PortInv(c, p, q) && PortInv(c, q, p)
    ensures p'.dev == p.dev && q'.dev == q.dev
    ensures PortInv(c, p', q') && PortInv(c, q', p')
  {
    CtlKeepsCtl(c, a, p, q, p', q');
    CtlLeavesCtl(c, a, p, q, p', q');
    CtlKeepsStatus(c, a, p, q, p', q');
    CtlKeepsFifo(c, a, p, q, p', q');
    CtlKeepsQueues(c, a, p, q, p', q');
    CtlKeepsRx(c, a, p, q, p', q');
    HandsAreOwned(c, q, p);
    forall k ensures InOnePlace(c, p', q', k) && InOnePlace(c, q', p', k) {
      assert InOnePlace(c, p, q, k) && InOnePlace(c, q, p, k);
      CtlMovesBuffer(c, a, p, q, p', q', k);
      CtlLeavesBuffer(c, a, p, q, p', q', k);
    }
    forall k ensures FreedOnce(p', q', k) && FreedOnce(q', p', k) {
      assert FreedOnce(p, q, k) && FreedOnce(q, p, k);
      CtlKeepsSkb(c, a, p, q, p', q', k);
      CtlLeavesSkb(c, a, p, q, p', q', k);
    }
  }
}
