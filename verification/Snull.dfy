/** The two snull interfaces together: every interleaving, and what holds all along it. */
module Snull {
  import opened Common
  import opened SnullModel
  import opened SnullProof

  datatype State = State(sn0: Port, sn1: Port)

  datatype Action =
    | Transmit(x: XmitAction)
    | OwnInterrupt(i: IrqAction)
    | PeerInterrupt(i: IrqAction)
    | NapiPoll(l: PollAction)
    | OpenStop(k: CtlAction)

  ghost predicate PortStep(c: Config, a: Action, p: Port, q: Port, p': Port, q': Port) {
    match a
    case Transmit(x) => XmitStep(x, p, q, p', q')
    case OwnInterrupt(i) => OwnIrqStep(c, i, p, q, p', q')
    case PeerInterrupt(i) => PeerIrqStep(c, i, p, q, p', q')
    case NapiPoll(l) => PollStep(c, l, p, q, p', q')
    case OpenStop(k) => CtlStep(c, k, p, q, p', q')
  }

  ghost predicate Step(c: Config, a: Action, s: State, t: State) {
    PortStep(c, a, s.sn0, s.sn1, t.sn0, t.sn1) || PortStep(c, a, s.sn1, s.sn0, t.sn1, t.sn0)
  }

  ghost predicate Next(c: Config, s: State, t: State) {
    exists a :: Step(c, a, s, t)
  }

  ghost predicate StepAt(c: Config, run: seq<State>, i: nat) {
    0 < i < |run| && Next(c, run[i - 1], run[i])
  }

  /** A run starts after ldd_create() of both interfaces; each next state is one step on. */
  ghost predicate Run(c: Config, run: seq<State>) {
    run != [] && run[0] == State(NewPort(c, Sn0), NewPort(c, Sn1)) &&
    forall i :: 0 < i < |run| ==> StepAt(c, run, i)
  }

  ghost predicate Inv(c: Config, s: State) {
    s.sn0.dev == Sn0 && s.sn1.dev == Sn1 && PortInv(c, s.sn0, s.sn1) && PortInv(c, s.sn1, s.sn0)
  }

  /** `p` is one of the two interfaces, `q` the other, in the state that `run` ends in. */
  ghost predicate EndsIn(c: Config, run: seq<State>, p: Port, q: Port) {
    Run(c, run) &&
    (run[|run| - 1] == State(p, q) || run[|run| - 1] == State(q, p))
  }

  lemma {:induction false} CountFresh(d: Dev, n: nat, k: Packet)
    ensures Count(FreshPool(d, n), k) == B(k.owner == d && k.id < n)
  {
    if n > 0 {
      assert FreshPool(d, n) == FreshPool(d, n - 1) + [Packet(d, n - 1)];
      CountFresh(d, n - 1, k);
      CountSnoc(FreshPool(d, n - 1), Packet(d, n - 1), k);
    }
  }

  lemma NewPortsHold(c: Config)
    ensures Inv(c, State(NewPort(c, Sn0), NewPort(c, Sn1)))
  {
    forall d, k ensures Count(NewPort(c, d).tx.pool, k) == B(Owns(c, NewPort(c, d), k)) {
      CountFresh(d, c.poolSize, k);
    }
    var p, q := NewPort(c, Sn0), NewPort(c, Sn1);
    forall k ensures InOnePlace(c, p, q, k) && InOnePlace(c, q, p, k) {
    }
  }

  lemma PortStepKeeps(c: Config, a: Action, p: Port, q: Port, p': Port, q': Port)
    requires p.dev != q.dev && PortStep(c, a, p, q, p', q')
    requires PortInv(c, p, q) && PortInv(c, q, p)
    ensures p'.dev == p.dev && q'.dev == q.dev
    ensures PortInv(c, p', q') && PortInv(c, q', p')
  {
    match a
    case Transmit(x) => XmitKeeps(c, x, p, q, p', q');
    case OwnInterrupt(i) => OwnIrqKeeps(c, i, p, q, p', q');
    case PeerInterrupt(i) => PeerIrqKeeps(c, i, p, q, p', q');
    case NapiPoll(l) => PollKeeps(c, l, p, q, p', q');
    case OpenStop(k) => CtlKeeps(c, k, p, q, p', q');
  }

  lemma StepKeeps(c: Config, s: State, t: State)
    requires Inv(c, s) && Next(c, s, t)
    ensures Inv(c, t)
  {
    var a :| Step(c, a, s, t);
    if PortStep(c, a, s.sn0, s.sn1, t.sn0, t.sn1) {
      PortStepKeeps(c, a, s.sn0, s.sn1, t.sn0, t.sn1);
    } else {
      PortStepKeeps(c, a, s.sn1, s.sn0, t.sn1, t.sn0);
    }
  }

  lemma {:induction false} RunKeeps(c: Config, run: seq<State>, i: nat)
    requires Run(c, run) && i < |run|
    ensures Inv(c, run[i])
    decreases i
  {
    if i == 0 {
      NewPortsHold(c);
    } else {
      RunKeeps(c, run, i - 1);
      assert StepAt(c, run, i);
      StepKeeps(c, run[i - 1], run[i]);
    }
  }

  lemma EndKeeps(c: Config, run: seq<State>, p: Port, q: Port)
    requires EndsIn(c, run, p, q)
    ensures p.dev != q.dev && PortInv(c, p, q) && PortInv(c, q, p)
  {
    RunKeeps(c, run, |run| - 1);
  }

  // ---------------------------------------------------------------------------
  // The promises of the driver
  // ---------------------------------------------------------------------------

  /**
   No received frame is stranded on an open interface.  With NAPI, either the poll function
   is scheduled or running, or a named thread still owes the napi_schedule().  Without,
   every queued frame has a raised interrupt or a handler about to dequeue, even when the
   TX interrupt on another CPU took the RX bit; a raised bit has its handler on the way.
   */
  lemma NoFrameStranded(c: Config, run: seq<State>, p: Port, q: Port)
    requires EndsIn(c, run, p, q) && p.rx.running
    ensures c.napi && p.rx.queue != [] ==> PollDue(p, q) || InterruptDue(p, q)
    ensures c.napi && p.napi.sched ==> !p.napi.held && !p.napi.disable
    ensures !c.napi ==> |p.rx.queue| <= Tokens(p, q)
    ensures p.rx.bit ==> q.xmit.InRxIrq? && q.xmit.irq.PreAck?
  {
    EndKeeps(c, run, p, q);
  }

  /** Receive interrupts are off on an open interface only while a poll is due. */
  lemma InterruptsComeBack(c: Config, run: seq<State>, p: Port, q: Port)
    requires EndsIn(c, run, p, q) && p.rx.running && !p.rx.intOn
    ensures c.napi && PollDue(p, q)
  {
    EndKeeps(c, run, p, q);
  }

  /** Each packet of `p` is in its pool, in the peer's receive queue or in one thread's hand. */
  lemma BuffersConserved(c: Config, run: seq<State>, p: Port, q: Port, k: Packet)
    requires EndsIn(c, run, p, q)
    ensures Places(p, q, k) == B(k.owner == p.dev && k.id < c.poolSize)
  {
    EndKeeps(c, run, p, q);
    assert InOnePlace(c, p, q, k);
  }

  lemma FramesStayInOrder(c: Config, run: seq<State>, p: Port, q: Port)
    requires EndsIn(c, run, p, q)
    ensures p.rx.dequeued <= p.rx.enqueued
    ensures p.rx.queue == p.rx.enqueued[|p.rx.dequeued|..]
  {
    EndKeeps(c, run, p, q);
  }

  /** tx_skb is never overwritten while set. */
  lemma TxSkbFree(c: Config, run: seq<State>, p: Port, q: Port, p': Port, q': Port)
    requires EndsIn(c, run, p, q) && XmitStep(SetTx, p, q, p', q')
    ensures p.tx.skb == None && p'.tx.skb == Some(p.xmit.skb)
  {
    EndKeeps(c, run, p, q);
  }

  /** An accepted skb was dropped or completed, or is in one place on its way there; never twice. */
  lemma SkbsFreedOnce(c: Config, run: seq<State>, p: Port, q: Port, skb: nat)
    requires EndsIn(c, run, p, q) && skb in p.tx.accepted
    ensures multiset(p.tx.freed)[skb] + InFlight(p, q, skb) == 1
  {
    EndKeeps(c, run, p, q);
    assert FreedOnce(p, q, skb);
    CountIsMultiplicity(p.tx.accepted, skb);
    CountIsMultiplicity(p.tx.freed, skb);
  }

  /** A stopped queue of an interface that is up, with a buffer to send, has its wake-up on the way. */
  lemma QueueNotStuck(c: Config, run: seq<State>, p: Port, q: Port)
    requires EndsIn(c, run, p, q) && p.ctl.Up? && p.tx.stopped && p.tx.pool != []
    ensures Owes(p, p.dev) || Owes(q, p.dev)
  {
    EndKeeps(c, run, p, q);
  }

  /**
   When both interfaces are unregistered, closed and with no transmission under way, every
   packet is back in its own pool and every accepted skb is freed: kfree() leaks nothing.
   */
  lemma DestroyFindsAll(c: Config, run: seq<State>, p: Port, q: Port)
    requires EndsIn(c, run, p, q)
    requires p.ctl.Closed? && q.ctl.Closed? && p.xmit.Idle? && q.xmit.Idle?
    ensures p.rx.queue == []
    ensures multiset(p.tx.pool) == multiset(FreshPool(p.dev, c.poolSize))
    ensures multiset(p.tx.freed) == multiset(p.tx.accepted)
  {
    EndKeeps(c, run, p, q);
    var full := FreshPool(p.dev, c.poolSize);
    forall k ensures multiset(p.tx.pool)[k] == multiset(full)[k] {
      assert InOnePlace(c, p, q, k);
      CountFresh(p.dev, c.poolSize, k);
      CountIsMultiplicity(p.tx.pool, k);
      CountIsMultiplicity(full, k);
    }
    forall k ensures multiset(p.tx.freed)[k] == multiset(p.tx.accepted)[k] {
      assert FreedOnce(p, q, k);
      CountIsMultiplicity(p.tx.freed, k);
      CountIsMultiplicity(p.tx.accepted, k);
    }
  }
}
