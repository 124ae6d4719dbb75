/**
 What the steps of the snull pair do: laws about any two states of a run that follow each other,
 told by what changed between them.  `p` is one of the interfaces and `q` its peer.
 */
module SnullLaws {
  import opened Common
  import opened SnullModel
  import opened SnullProof
  import opened Snull

  /** A frame in hand goes to a peer that is running, with an interrupt if it wants them, and is lost otherwise. */
  predicate FrameLaw(p: Port, q: Port, p': Port, q': Port) {
    && (p.xmit.HasBuffer? && p'.xmit != p.xmit ==>
          if q.rx.running then
            && q'.rx.queue == q.rx.queue + [p.xmit.pkt]
            && q'.rx.enqueued == q.rx.enqueued + [p.xmit.pkt]
            && q'.rx.bit == (q.rx.bit || q.rx.intOn)
            && p'.xmit == if q.rx.intOn then InRxIrq(p.xmit.skb, PreAck) else PreSetTx(p.xmit.skb)
          else
            q'.rx == q.rx && p'.xmit == Lost(p.xmit.skb, p.xmit.pkt))
    && (p'.xmit.Lost? && !p.xmit.Lost? ==> p.xmit.HasBuffer? && !q.rx.running)
    && (q'.rx.enqueued != q.rx.enqueued ==> p.xmit.HasBuffer? && p'.xmit != p.xmit)
    && (q'.rx.bit && !q.rx.bit ==> q.rx.intOn && q'.rx.enqueued != q.rx.enqueued)
  }

  /** `after` is `before` with one more behind it. */
  predicate OneMore<T(==)>(before: seq<T>, after: seq<T>) {
    |after| == |before| + 1 && after[..|before|] == before
  }

  /** A frame is accepted with a buffer for it, or dropped at once; and only while nothing is being sent. */
  predicate AcceptLaw(p: Port, p': Port) {
    p'.tx.accepted != p.tx.accepted ==>
      && p.xmit.Idle? && OneMore(p.tx.accepted, p'.tx.accepted)
      && var skb := p'.tx.accepted[|p.tx.accepted|];
         if p'.tx.freed == p.tx.freed + [skb] then p'.xmit.Idle? && p'.tx.pool == p.tx.pool
         else p.tx.pool != [] && p'.tx.pool == p.tx.pool[1..] && p'.xmit == HasBuffer(skb, p.tx.pool[0])
  }

  /** The handler of `p` that is at `h` has come to its end. */
  predicate Ended(p: Port, q: Port, p': Port, q': Port, h: Irq) {
    (p.xmit == InTxIrq(h) && p'.xmit.Idle?) || (q.xmit.InRxIrq? && q.xmit.irq == h && q'.xmit == PreSetTx(q.xmit.skb))
  }

  /** A sent skb goes to tx_skb, and it is freed when it is dropped or when a handler took it from there. */
  ghost predicate CompletionLaw(p: Port, q: Port, p': Port, q': Port) {
    && (p.xmit.PreSetTx? && p'.xmit != p.xmit ==>
          p'.tx.skb == Some(p.xmit.skb) && p'.tx.bit && p'.xmit == InTxIrq(PreAck))
    && (p'.tx.freed != p.tx.freed ==>
          && OneMore(p.tx.freed, p'.tx.freed)
          && var skb := p'.tx.freed[|p.tx.freed|];
             p'.tx.accepted == p.tx.accepted + [skb] || Ended(p, q, p', q', PreTxDone(Some(skb))))
    && (p.xmit.InTxIrq? && p.xmit.irq.PreTxDone? && p'.xmit != p.xmit ==> p'.xmit.Idle?)
    && (forall skb :: Ended(p, q, p', q', PreTxDone(Some(skb))) ==> p'.tx.freed == p.tx.freed + [skb])
  }

  /** The queue stops with the last buffer and when the interface goes down, and for nothing else. */
  predicate QueueLaw(p: Port, q: Port, p': Port) {
    && (p.tx.pool != [] && p'.tx.pool == [] ==> p'.tx.stopped)
    && (p.ctl.Up? && !p'.ctl.Up? ==> p'.tx.stopped)
    && (!p.ctl.Up? && p'.ctl.Up? ==> !p'.tx.stopped)
    && (p'.tx.stopped && !p.tx.stopped ==> p'.tx.pool == [] || (p.ctl.Up? && !p'.ctl.Up?))
    && (!p'.tx.stopped && p.tx.stopped ==> (!p.ctl.Up? && p'.ctl.Up?) || Owes(p, p.dev) || Owes(q, p.dev))
  }

  /** Receive interrupts go off only with a poll to come, and on again only if nothing waits. */
  predicate InterruptLaw(p: Port, q: Port, p': Port, q': Port) {
    && (p.rx.intOn && !p'.rx.intOn ==>
          || (p.rx.running && !p'.rx.running)
          || p'.napi.reschedules > p.napi.reschedules
          || (p'.xmit != p.xmit && p'.xmit.InTxIrq? && p'.xmit.irq.PreSchedule?)
          || (q'.xmit != q.xmit && q'.xmit.InRxIrq? && q'.xmit.irq.PreSchedule?))
    && (!p.rx.intOn && p'.rx.intOn ==>
          || (!p.rx.running && p'.rx.running)
          || (p'.napi.rechecks < p.napi.rechecks && p.rx.queue == []))
    && (p.xmit.InTxIrq? && p.xmit.irq.PreRxOff? && p'.xmit != p.xmit ==> !p'.rx.intOn)
    && (q.xmit.InRxIrq? && q.xmit.irq.PreRxOff? && q'.xmit != q.xmit ==> !p'.rx.intOn)
    && (p'.rx.running && !p.rx.running ==> p'.rx.intOn)
  }

  /** napi_schedule() is never forgotten: NAPI is scheduled then, or it polls once more. */
  predicate ScheduleLaw(p: Port, q: Port, p': Port, q': Port) {
    && ((p.xmit.InTxIrq? && p.xmit.irq.PreSchedule? && p'.xmit != p.xmit)
        || (q.xmit.InRxIrq? && q.xmit.irq.PreSchedule? && q'.xmit != q.xmit)
        || p'.napi.reschedules < p.napi.reschedules ==>
          p.napi.disable || (p'.napi.sched && (p.napi.sched ==> p'.napi.missed)))
    && (p.napi.missed && !p'.napi.missed && !p.napi.disable ==> p'.napi.sched)
    && (p.napi.sched && !p'.napi.sched && !p.napi.disable && !p.napi.held ==>
          p.napi.poll.PollComplete? && !p.napi.missed && p'.napi.rechecks == p.napi.rechecks + 1)
    && (p'.napi.rechecks < p.napi.rechecks ==>
          p'.napi.reschedules == p.napi.reschedules + B(p.rx.queue != []) && (p'.rx.intOn <==> p.rx.queue == []))
  }

  /** The oldest frame of `p` was taken off its queue. */
  predicate Took(p: Port, p': Port) {
    p.rx.queue != [] && p'.rx.queue == p.rx.queue[1..] && p'.rx.dequeued == p.rx.dequeued + [p.rx.queue[0]]
  }

  /** A poll takes frame after frame, the oldest first, until its budget is used or none is left. */
  predicate PollLaw(c: Config, p: Port, p': Port) {
    var l, l' := p.napi.poll, p'.napi.poll;
    && (l.NotPolling? && l' != l ==> l' == PollLoop(0) && p.napi.sched)
    && (l.PollLoop? && l' != l ==>
          if l.done >= c.weight then l'.NotPolling?
          else if p.rx.queue == [] then l'.PollComplete?
          else Took(p, p') && l' == PollRelease(p.rx.queue[0], l.done + 1))
    && (l.PollRelease? && l' != l ==> l' == PollLoop(l.done) || l' == PollWake(l.pkt.owner, l.done))
    && (l.PollWake? && l' != l ==> l' == PollLoop(l.done))
    && (l.PollComplete? && l' != l ==> l'.NotPolling?)
  }

  /** What comes behind `h` in the handler of `p`, and what it did. */
  predicate HandlerStepLaw(c: Config, p: Port, h: Irq, h': Irq, p': Port) {
    match h
    case PreAck =>
      var tx := if p.tx.bit then p.tx.skb else None;
      && !p'.rx.bit && !p'.tx.bit
      && h' == if !p.rx.bit then PreTxDone(tx) else if c.napi then PreRxOff(tx) else PreDequeue(tx)
    case PreDequeue(tx) =>
      if p.rx.queue == [] then h' == PreTxDone(tx) else Took(p, p') && h' == PreRelease(p.rx.queue[0], tx)
    case PreRelease(pkt, tx) => h' == PreTxDone(tx) || h' == PreWake(pkt.owner, tx)
    case PreWake(_, tx) => h' == PreTxDone(tx)
    case PreRxOff(tx) => h' == PreSchedule(tx) && !p'.rx.intOn
    case PreSchedule(tx) => h' == PreTxDone(tx)
    case PreTxDone(_) => false
  }

  /** An acknowledged receive interrupt leads to the queue, an acknowledged transmission to its skb. */
  predicate HandlerLaw(c: Config, p: Port, q: Port, p': Port, q': Port) {
    && (p.xmit.InTxIrq? && p'.xmit != p.xmit ==>
          if p.xmit.irq.PreTxDone? then p'.xmit.Idle?
          else p'.xmit.InTxIrq? && HandlerStepLaw(c, p, p.xmit.irq, p'.xmit.irq, p'))
    && (q.xmit.InRxIrq? && q'.xmit != q.xmit ==>
          if q.xmit.irq.PreTxDone? then q'.xmit == PreSetTx(q.xmit.skb)
          else q'.xmit.InRxIrq? && q'.xmit.skb == q.xmit.skb && HandlerStepLaw(c, p, q.xmit.irq, q'.xmit.irq, p'))
  }

  /** Open and stop in their order: a stopped interface takes no frames, waits for its poll, and drains its queue. */
  predicate ControlLaw(c: Config, p: Port, p': Port) {
    var k, k' := p.ctl, p'.ctl;
    && (p.rx.running && !p'.rx.running ==> !p'.rx.intOn)
    && (k' != k ==>
          match k
          case Closed => k' == OpenPreRun
          case OpenPreRun => k' == OpenPreStart && p'.rx.running
          case OpenPreStart => k' == Up
          case Up => k' == StopPreClear
          case StopPreClear => !p'.rx.running && k' == if c.napi then StopPreDisable else Draining
          case StopPreDisable => k' == StopWaiting && p'.napi.disable
          case StopWaiting => k' == Draining && !p.napi.sched && p'.napi.held
          case Draining => if p.rx.queue == [] then k' == Closed else Took(p, p') && k' == DrainRelease(p.rx.queue[0])
          case DrainRelease(pkt) => k' == Draining || k' == DrainWake(pkt.owner)
          case DrainWake(_) => k' == Draining)
  }

  /** A packet leaves a receive queue only into the hands of the handler, of the poll or of the stop. */
  predicate TakeLaw(p: Port, q: Port, p': Port, q': Port) {
    p'.rx.dequeued != p.rx.dequeued ==>
      && Took(p, p')
      && (|| (p'.napi.poll.PollRelease? && p'.napi.poll != p.napi.poll)
          || (p'.ctl.DrainRelease? && p'.ctl != p.ctl)
          || (p'.xmit.InTxIrq? && p'.xmit.irq.PreRelease? && p'.xmit != p.xmit)
          || (q'.xmit.InRxIrq? && q'.xmit.irq.PreRelease? && q'.xmit != q.xmit))
  }

  ghost predicate SendLaws(c: Config, p: Port, q: Port, p': Port, q': Port) {
    FrameLaw(p, q, p', q') && AcceptLaw(p, p') && CompletionLaw(p, q, p', q') && QueueLaw(p, q, p')
  }

  ghost predicate ReceiveLaws(c: Config, p: Port, q: Port, p': Port, q': Port) {
    InterruptLaw(p, q, p', q') && ScheduleLaw(p, q, p', q') && TakeLaw(p, q, p', q')
  }

  ghost predicate ThreadLaws(c: Config, p: Port, q: Port, p': Port, q': Port) {
    PollLaw(c, p, p') && HandlerLaw(c, p, q, p', q') && ControlLaw(c, p, p')
  }

  ghost predicate Laws(c: Config, p: Port, q: Port, p': Port, q': Port) {
    SendLaws(c, p, q, p', q') && ReceiveLaws(c, p, q, p', q') && ThreadLaws(c, p, q, p', q')
  }

  lemma XmitSends(c: Config, a: XmitAction, p: Port, q: Port, p': Port, q': Port)
    requires p.dev != q.dev && XmitStep(a, p, q, p', q') && CtlInv(c, p)
    ensures SendLaws(c, p, q, p', q')
  {
  }

  lemma XmitSendsOfPeer(c: Config, a: XmitAction, p: Port, q: Port, p': Port, q': Port)
    requires p.dev != q.dev && XmitStep(a, p, q, p', q') && CtlInv(c, q)
    ensures SendLaws(c, q, p, q', p')
  {
  }

  lemma XmitReceives(c: Config, a: XmitAction, p: Port, q: Port, p': Port, q': Port)
    requires p.dev != q.dev && XmitStep(a, p, q, p', q') && CtlInv(c, p)
    ensures ReceiveLaws(c, p, q, p', q')
  {
  }

  lemma XmitReceivesOfPeer(c: Config, a: XmitAction, p: Port, q: Port, p': Port, q': Port)
    requires p.dev != q.dev && XmitStep(a, p, q, p', q') && CtlInv(c, q)
    ensures ReceiveLaws(c, q, p, q', p')
  {
  }

  lemma XmitThreads(c: Config, a: XmitAction, p: Port, q: Port, p': Port, q': Port)
    requires p.dev != q.dev && XmitStep(a, p, q, p', q') && CtlInv(c, p)
    ensures ThreadLaws(c, p, q, p', q')
  {
  }

  lemma XmitThreadsOfPeer(c: Config, a: XmitAction, p: Port, q: Port, p': Port, q': Port)
    requires p.dev != q.dev && XmitStep(a, p, q, p', q') && CtlInv(c, q)
    ensures ThreadLaws(c, q, p, q', p')
  {
  }

  lemma OwnIrqSends(c: Config, a: IrqAction, p: Port, q: Port, p': Port, q': Port)
    requires p.dev != q.dev && OwnIrqStep(c, a, p, q, p', q') && CtlInv(c, p)
    ensures SendLaws(c, p, q, p', q')
  {
  }

  lemma OwnIrqSendsOfPeer(c: Config, a: IrqAction, p: Port, q: Port, p': Port, q': Port)
    requires p.dev != q.dev && OwnIrqStep(c, a, p, q, p', q') && CtlInv(c, q)
    ensures SendLaws(c, q, p, q', p')
  {
  }

  lemma OwnIrqReceives(c: Config, a: IrqAction, p: Port, q: Port, p': Port, q': Port)
    requires p.dev != q.dev && OwnIrqStep(c, a, p, q, p', q') && CtlInv(c, p)
    ensures ReceiveLaws(c, p, q, p', q')
  {
  }

  lemma OwnIrqReceivesOfPeer(c: Config, a: IrqAction, p: Port, q: Port, p': Port, q': Port)
    requires p.dev != q.dev && OwnIrqStep(c, a, p, q, p', q') && CtlInv(c, q)
    ensures ReceiveLaws(c, q, p, q', p')
  {
  }

  lemma OwnIrqThreads(c: Config, a: IrqAction, p: Port, q: Port, p': Port, q': Port)
    requires p.dev != q.dev && OwnIrqStep(c, a, p, q, p', q') && CtlInv(c, p)
    ensures ThreadLaws(c, p, q, p', q')
  {
  }

  lemma OwnIrqThreadsOfPeer(c: Config, a: IrqAction, p: Port, q: Port, p': Port, q': Port)
    requires p.dev != q.dev && OwnIrqStep(c, a, p, q, p', q') && CtlInv(c, q)
    ensures ThreadLaws(c, q, p, q', p')
  {
  }

  lemma PeerIrqSends(c: Config, a: IrqAction, p: Port, q: Port, p': Port, q': Port)
    requires p.dev != q.dev && PeerIrqStep(c, a, p, q, p', q') && CtlInv(c, p)
    ensures SendLaws(c, p, q, p', q')
  {
  }

  lemma PeerIrqSendsOfPeer(c: Config, a: IrqAction, p: Port, q: Port, p': Port, q': Port)
    requires p.dev != q.dev && PeerIrqStep(c, a, p, q, p', q') && CtlInv(c, q)
    ensures SendLaws(c, q, p, q', p')
  {
  }

  lemma PeerIrqReceives(c: Config, a: IrqAction, p: Port, q: Port, p': Port, q': Port)
    requires p.dev != q.dev && PeerIrqStep(c, a, p, q, p', q') && CtlInv(c, p)
    ensures ReceiveLaws(c, p, q, p', q')
  {
  }

  lemma PeerIrqReceivesOfPeer(c: Config, a: IrqAction, p: Port, q: Port, p': Port, q': Port)
    requires p.dev != q.dev && PeerIrqStep(c, a, p, q, p', q') && CtlInv(c, q)
    ensures ReceiveLaws(c, q, p, q', p')
  {
  }

  lemma PeerIrqThreads(c: Config, a: IrqAction, p: Port, q: Port, p': Port, q': Port)
    requires p.dev != q.dev && PeerIrqStep(c, a, p, q, p', q') && CtlInv(c, p)
    ensures ThreadLaws(c, p, q, p', q')
  {
  }

  lemma PeerIrqThreadsOfPeer(c: Config, a: IrqAction, p: Port, q: Port, p': Port, q': Port)
    requires p.dev != q.dev && PeerIrqStep(c, a, p, q, p', q') && CtlInv(c, q)
    ensures ThreadLaws(c, q, p, q', p')
  {
  }

  lemma PollSends(c: Config, a: PollAction, p: Port, q: Port, p': Port, q': Port)
    requires p.dev != q.dev && PollStep(c, a, p, q, p', q') && CtlInv(c, p)
    ensures SendLaws(c, p, q, p', q')
  {
  }

  lemma PollSendsOfPeer(c: Config, a: PollAction, p: Port, q: Port, p': Port, q': Port)
    requires p.dev != q.dev && PollStep(c, a, p, q, p', q') && CtlInv(c, q)
    ensures SendLaws(c, q, p, q', p')
  {
  }

  lemma PollReceives(c: Config, a: PollAction, p: Port, q: Port, p': Port, q': Port)
    requires p.dev != q.dev && PollStep(c, a, p, q, p', q') && CtlInv(c, p)
    ensures ReceiveLaws(c, p, q, p', q')
  {
  }

  lemma PollReceivesOfPeer(c: Config, a: PollAction, p: Port, q: Port, p': Port, q': Port)
    requires p.dev != q.dev && PollStep(c, a, p, q, p', q') && CtlInv(c, q)
    ensures ReceiveLaws(c, q, p, q', p')
  {
  }

  lemma PollThreads(c: Config, a: PollAction, p: Port, q: Port, p': Port, q': Port)
    requires p.dev != q.dev && PollStep(c, a, p, q, p', q') && CtlInv(c, p)
    ensures ThreadLaws(c, p, q, p', q')
  {
  }

  lemma PollThreadsOfPeer(c: Config, a: PollAction, p: Port, q: Port, p': Port, q': Port)
    requires p.dev != q.dev && PollStep(c, a, p, q, p', q') && CtlInv(c, q)
    ensures ThreadLaws(c, q, p, q', p')
  {
  }

  lemma CtlSends(c: Config, a: CtlAction, p: Port, q: Port, p': Port, q': Port)
    requires p.dev != q.dev && CtlStep(c, a, p, q, p', q') && CtlInv(c, p)
    ensures SendLaws(c, p, q, p', q')
  {
  }

  lemma CtlSendsOfPeer(c: Config, a: CtlAction, p: Port, q: Port, p': Port, q': Port)
    requires p.dev != q.dev && CtlStep(c, a, p, q, p', q') && CtlInv(c, q)
    ensures SendLaws(c, q, p, q', p')
  {
  }

  lemma CtlReceives(c: Config, a: CtlAction, p: Port, q: Port, p': Port, q': Port)
    requires p.dev != q.dev && CtlStep(c, a, p, q, p', q') && CtlInv(c, p)
    ensures ReceiveLaws(c, p, q, p', q')
  {
  }

  lemma CtlReceivesOfPeer(c: Config, a: CtlAction, p: Port, q: Port, p': Port, q': Port)
    requires p.dev != q.dev && CtlStep(c, a, p, q, p', q') && CtlInv(c, q)
    ensures ReceiveLaws(c, q, p, q', p')
  {
  }

  lemma CtlThreads(c: Config, a: CtlAction, p: Port, q: Port, p': Port, q': Port)
    requires p.dev != q.dev && CtlStep(c, a, p, q, p', q') && CtlInv(c, p)
    ensures ThreadLaws(c, p, q, p', q')
  {
  }

  lemma CtlThreadsOfPeer(c: Config, a: CtlAction, p: Port, q: Port, p': Port, q': Port)
    requires p.dev != q.dev && CtlStep(c, a, p, q, p', q') && CtlInv(c, q)
    ensures ThreadLaws(c, q, p, q', p')
  {
  }

  lemma PortLaws(c: Config, a: Action, p: Port, q: Port, p': Port, q': Port)
    requires p.dev != q.dev && PortStep(c, a, p, q, p', q') && CtlInv(c, p) && CtlInv(c, q)
    ensures Laws(c, p, q, p', q') && Laws(c, q, p, q', p')
  {
    match a
    case Transmit(x) =>
      XmitSends(c, x, p, q, p', q');
      XmitSendsOfPeer(c, x, p, q, p', q');
      XmitReceives(c, x, p, q, p', q');
      XmitReceivesOfPeer(c, x, p, q, p', q');
      XmitThreads(c, x, p, q, p', q');
      XmitThreadsOfPeer(c, x, p, q, p', q');
    case OwnInterrupt(i) =>
      OwnIrqSends(c, i, p, q, p', q');
      OwnIrqSendsOfPeer(c, i, p, q, p', q');
      OwnIrqReceives(c, i, p, q, p', q');
      OwnIrqReceivesOfPeer(c, i, p, q, p', q');
      OwnIrqThreads(c, i, p, q, p', q');
      OwnIrqThreadsOfPeer(c, i, p, q, p', q');
    case PeerInterrupt(i) =>
      PeerIrqSends(c, i, p, q, p', q');
      PeerIrqSendsOfPeer(c, i, p, q, p', q');
      PeerIrqReceives(c, i, p, q, p', q');
      PeerIrqReceivesOfPeer(c, i, p, q, p', q');
      PeerIrqThreads(c, i, p, q, p', q');
      PeerIrqThreadsOfPeer(c, i, p, q, p', q');
    case NapiPoll(l) =>
      PollSends(c, l, p, q, p', q');
      PollSendsOfPeer(c, l, p, q, p', q');
      PollReceives(c, l, p, q, p', q');
      PollReceivesOfPeer(c, l, p, q, p', q');
      PollThreads(c, l, p, q, p', q');
      PollThreadsOfPeer(c, l, p, q, p', q');
    case OpenStop(k) =>
      CtlSends(c, k, p, q, p', q');
      CtlSendsOfPeer(c, k, p, q, p', q');
      CtlReceives(c, k, p, q, p', q');
      CtlReceivesOfPeer(c, k, p, q, p', q');
      CtlThreads(c, k, p, q, p', q');
      CtlThreadsOfPeer(c, k, p, q, p', q');
  }

  // ---------------------------------------------------------------------------
  // Along a run
  // ---------------------------------------------------------------------------

  /** Interface `d` in a state. */
  function At(s: State, d: Dev): Port {
    if d == Sn0 then s.sn0 else s.sn1
  }

  /** Step `i` of a run keeps to the laws, seen from either interface. */
  lemma EveryStepIsLawful(c: Config, run: seq<State>, i: nat, d: Dev)
    requires Run(c, run) && 0 < i < |run|
    ensures var s, t := run[i - 1], run[i];
      Laws(c, At(s, d), At(s, Peer(d)), At(t, d), At(t, Peer(d)))
  {
    RunKeeps(c, run, i - 1);
    assert StepAt(c, run, i);
    NextIsLawful(c, run[i - 1], run[i], d);
  }

  lemma NextIsLawful(c: Config, s: State, t: State, d: Dev)
    requires Inv(c, s) && Next(c, s, t)
    ensures Laws(c, At(s, d), At(s, Peer(d)), At(t, d), At(t, Peer(d)))
  {
    var a :| Step(c, a, s, t);
    if PortStep(c, a, s.sn0, s.sn1, t.sn0, t.sn1) {
      PortLaws(c, a, s.sn0, s.sn1, t.sn0, t.sn1);
    } else {
      PortLaws(c, a, s.sn1, s.sn0, t.sn1, t.sn0);
    }
  }

  /** Frame `skb` of interface `d`, in buffer `pkt`, is offered to the peer in the step from `s` to `t`. */
  ghost predicate Offered(s: State, t: State, d: Dev, skb: nat, pkt: Packet) {
    var q, q' := At(s, Peer(d)), At(t, Peer(d));
    && At(s, d).xmit == HasBuffer(skb, pkt)
    && if q.rx.running then
         q'.rx.queue == q.rx.queue + [pkt] && q'.rx.enqueued == q.rx.enqueued + [pkt] && !At(t, d).xmit.Lost?
       else
         q'.rx == q.rx && At(t, d).xmit == Lost(skb, pkt)
  }

  /**
   A frame that was accepted with a buffer is offered to the peer once: it is the last of the
   peer's queue then if the peer was running, and lost only if it was not.
   */
  lemma {:induction false} FrameFate(c: Config, run: seq<State>, i: nat, j: nat, d: Dev) returns (m: nat)
    requires Run(c, run) && i < j < |run| && At(run[i], d).xmit.HasBuffer? && At(run[j], d).xmit != At(run[i], d).xmit
    ensures i < m <= j && Offered(run[m - 1], run[m], d, At(run[i], d).xmit.skb, At(run[i], d).xmit.pkt)
    decreases j
  {
    if At(run[j - 1], d).xmit != At(run[i], d).xmit {
      m := FrameFate(c, run, i, j - 1, d);
    } else {
      m := j;
      EveryStepIsLawful(c, run, j, d);
    }
  }

  predicate WithinBudget(c: Config, l: Poll) {
    l.PollLoop? || l.PollRelease? || l.PollWake? ==> l.done <= c.weight
  }

  /** A poll handles no more frames than its weight. */
  lemma {:induction false} PollKeepsToBudget(c: Config, run: seq<State>, i: nat, d: Dev)
    requires Run(c, run) && i < |run|
    ensures WithinBudget(c, At(run[i], d).napi.poll)
    decreases i
  {
    if i > 0 {
      PollKeepsToBudget(c, run, i - 1, d);
      EveryStepIsLawful(c, run, i, d);
    }
  }

  // ---------------------------------------------------------------------------
  // Nobody is stuck
  // ---------------------------------------------------------------------------

  /** Some step of the pair `p`, `q` moves the thread that sends on `p`. */
  ghost predicate XmitCanMove(c: Config, p: Port, q: Port) {
    exists a, p', q' :: (PortStep(c, a, p, q, p', q') || PortStep(c, a, q, p, q', p')) && p'.xmit != p.xmit
  }

  function ActionAt(h: Irq): IrqAction {
    match h
    case PreAck => Ack
    case PreDequeue(_) => Dequeue
    case PreRelease(_, _) => Release
    case PreWake(_, _) => WakeOwner
    case PreRxOff(_) => RxOff
    case PreSchedule(_) => Schedule
    case PreTxDone(_) => TxDone
  }

  /** Whatever a handler of `p` has to do next, it can. */
  lemma HandlerCanMove(c: Config, h: Irq, p: Port, q: Port) returns (p': Port, q': Port, h': Option<Irq>)
    ensures HandlerStep(c, ActionAt(h), h, p, q, p', q', h') && h' != Some(h)
    ensures p'.xmit == p.xmit && q'.xmit == q.xmit
  {
    p', q' := p, q;
    match h
    case PreAck =>
      var tx := if p.tx.bit then p.tx.skb else None;
      p' := p.(rx := p.rx.(bit := false),
               tx := p.tx.(bit := false, skb := if p.tx.bit then None else p.tx.skb));
      h' := Some(if !p.rx.bit then PreTxDone(tx) else if c.napi then PreRxOff(tx) else PreDequeue(tx));
    case PreDequeue(tx) =>
      if p.rx.queue == [] {
        h' := Some(PreTxDone(tx));
      } else {
        p', h' := p.(rx := TakeRx(p.rx)), Some(PreRelease(p.rx.queue[0], tx));
      }
    case PreRelease(pkt, tx) =>
      p', q' := Push(p, pkt), Push(q, pkt);
      h' := Some(if WasEmpty(p, q, pkt) then PreWake(pkt.owner, tx) else PreTxDone(tx));
    case PreWake(owner, tx) =>
      p', q', h' := Wake(p, owner), Wake(q, owner), Some(PreTxDone(tx));
    case PreRxOff(tx) =>
      p', h' := p.(rx := p.rx.(intOn := false)), Some(PreSchedule(tx));
    case PreSchedule(tx) =>
      p', h' := p.(napi := NapiSchedule(p.napi)), Some(PreTxDone(tx));
    case PreTxDone(tx) =>
      p' := if tx.Some? then p.(tx := p.tx.(freed := p.tx.freed + [tx.value])) else p;
      h' := None;
  }

  lemma XmitGoesOn(c: Config, p: Port, q: Port)
    requires !p.xmit.Idle?
    ensures XmitCanMove(c, p, q)
  {
    var x := p.xmit;
    match x
    case HasBuffer(skb, pkt) =>
      var q' := if !q.rx.running then q
                else q.(rx := q.rx.(queue := q.rx.queue + [pkt], enqueued := q.rx.enqueued + [pkt],
                                    bit := q.rx.bit || q.rx.intOn));
      var p' := p.(xmit := if !q.rx.running then Lost(skb, pkt)
                           else if q.rx.intOn then InRxIrq(skb, PreAck) else PreSetTx(skb));
      assert PortStep(c, Transmit(Enqueue), p, q, p', q');
    case Lost(skb, pkt) =>
      var p' := Push(p, pkt).(xmit := if WasEmpty(p, q, pkt) then LostWake(skb, pkt.owner) else PreSetTx(skb));
      assert PortStep(c, Transmit(ReleaseLost), p, q, p', Push(q, pkt));
    case LostWake(skb, owner) =>
      assert PortStep(c, Transmit(WakeLost), p, q, Wake(p, owner).(xmit := PreSetTx(skb)), Wake(q, owner));
    case InRxIrq(skb, irq) =>
      var q', p1, h' := HandlerCanMove(c, irq, q, p);
      var p' := p1.(xmit := if h'.Some? then InRxIrq(skb, h'.value) else PreSetTx(skb));
      assert PortStep(c, PeerInterrupt(ActionAt(irq)), q, p, q', p');
    case PreSetTx(skb) =>
      var p' := p.(tx := p.tx.(skb := Some(skb), bit := true), xmit := InTxIrq(PreAck));
      assert PortStep(c, Transmit(SetTx), p, q, p', q);
    case InTxIrq(irq) =>
      var p1, q', h' := HandlerCanMove(c, irq, p, q);
      var p' := p1.(xmit := if h'.Some? then InTxIrq(h'.value) else Idle);
      assert PortStep(c, OwnInterrupt(ActionAt(irq)), p, q, p', q');
  }

  /** An idle sender with a buffer in its pool can send any new skb. */
  lemma CanSend(c: Config, p: Port, q: Port, skb: nat)
    requires p.xmit.Idle? && p.tx.pool != [] && skb !in p.tx.accepted
    ensures exists p' :: PortStep(c, Transmit(GetBuffer(skb)), p, q, p', q) && p'.xmit == HasBuffer(skb, p.tx.pool[0])
  {
    var p' := p.(tx := p.tx.(pool := p.tx.pool[1..], stopped := p.tx.stopped || |p.tx.pool| == 1,
                             accepted := p.tx.accepted + [skb]),
                 xmit := HasBuffer(skb, p.tx.pool[0]));
    assert PortStep(c, Transmit(GetBuffer(skb)), p, q, p', q);
  }

  ghost predicate PollCanMove(c: Config, p: Port, q: Port) {
    exists a, p', q' :: PortStep(c, NapiPoll(a), p, q, p', q') && p'.napi != p.napi
  }

  /** A poll that is scheduled or running, or owes its re-check or its schedule, can go on. */
  lemma PollGoesOn(c: Config, p: Port, q: Port)
    requires c.napi && ((p.napi.sched && !p.napi.held) || p.napi.rechecks > 0 || p.napi.reschedules > 0)
    requires CtlInv(c, p)
    ensures PollCanMove(c, p, q)
  {
    var n := p.napi;
    if n.rechecks > 0 {
      var more := p.rx.queue != [];
      var p' := p.(rx := p.rx.(intOn := !more),
                   napi := n.(rechecks := n.rechecks - 1, reschedules := n.reschedules + if more then 1 else 0));
      assert PortStep(c, NapiPoll(PollRecheck), p, q, p', q);
    } else if n.reschedules > 0 {
      var p' := p.(napi := NapiSchedule(n).(reschedules := n.reschedules - 1));
      assert PortStep(c, NapiPoll(PollSchedule), p, q, p', q);
    } else {
      match n.poll
      case NotPolling => assert PortStep(c, NapiPoll(PollStart), p, q, p.(napi := n.(poll := PollLoop(0))), q);
      case PollLoop(done) =>
        if done >= c.weight {
          var p' := p.(napi := n.(poll := NotPolling, sched := !n.disable || n.missed,
                                  missed := n.missed && !n.disable));
          assert PortStep(c, NapiPoll(PollBudget), p, q, p', q);
        } else {
          var p' := if p.rx.queue == [] then p.(napi := n.(poll := PollComplete))
                    else p.(rx := TakeRx(p.rx), napi := n.(poll := PollRelease(p.rx.queue[0], done + 1)));
          assert PortStep(c, NapiPoll(PollTake), p, q, p', q);
        }
      case PollRelease(pkt, done) =>
        var l := if WasEmpty(p, q, pkt) then PollWake(pkt.owner, done) else PollLoop(done);
        assert PortStep(c, NapiPoll(PollGiveBack), p, q, Push(p, pkt).(napi := n.(poll := l)), Push(q, pkt));
      case PollWake(owner, done) =>
        var p' := Wake(p, owner).(napi := n.(poll := PollLoop(done)));
        assert PortStep(c, NapiPoll(PollWakeOwner), p, q, p', Wake(q, owner));
      case PollComplete =>
        var p' := p.(napi := if n.missed then n.(poll := NotPolling, missed := false)
                             else n.(poll := NotPolling, sched := false, rechecks := n.rechecks + 1));
        assert PortStep(c, NapiPoll(PollDone), p, q, p', q);
    }
  }

  ghost predicate ControlCanMove(c: Config, p: Port, q: Port) {
    exists a, p', q' :: PortStep(c, OpenStop(a), p, q, p', q') && p'.ctl != p.ctl
  }

  /** Open and stop go on, except in napi_disable() while the poll is scheduled. */
  lemma ControlGoesOn(c: Config, p: Port, q: Port)
    requires p.ctl.StopWaiting? ==> !p.napi.sched
    ensures ControlCanMove(c, p, q)
  {
    var n := p.napi;
    match p.ctl
    case Closed =>
      var p' := p.(ctl := OpenPreRun, napi := if c.napi then n.(sched := false, held := false) else n);
      assert PortStep(c, OpenStop(Open), p, q, p', q);
    case OpenPreRun =>
      var p' := p.(ctl := OpenPreStart, rx := p.rx.(running := true, intOn := true));
      assert PortStep(c, OpenStop(OpenRun), p, q, p', q);
    case OpenPreStart =>
      assert PortStep(c, OpenStop(OpenStart), p, q, p.(ctl := Up, tx := p.tx.(stopped := false)), q);
    case Up =>
      assert PortStep(c, OpenStop(Stop), p, q, p.(ctl := StopPreClear, tx := p.tx.(stopped := true)), q);
    case StopPreClear =>
      var p' := p.(ctl := if c.napi then StopPreDisable else Draining,
                   rx := p.rx.(running := false, intOn := false));
      assert PortStep(c, OpenStop(StopClear), p, q, p', q);
    case StopPreDisable =>
      assert PortStep(c, OpenStop(StopDisable), p, q, p.(ctl := StopWaiting, napi := n.(disable := true)), q);
    case StopWaiting =>
      var p' := p.(ctl := Draining, napi := n.(disable := false, sched := true, held := true));
      assert PortStep(c, OpenStop(StopDisabled), p, q, p', q);
    case Draining =>
      var p' := if p.rx.queue == [] then p.(ctl := Closed)
                else p.(rx := TakeRx(p.rx), ctl := DrainRelease(p.rx.queue[0]));
      assert PortStep(c, OpenStop(DrainTake), p, q, p', q);
    case DrainRelease(pkt) =>
      var p' := Push(p, pkt).(ctl := if WasEmpty(p, q, pkt) then DrainWake(pkt.owner) else Draining);
      assert PortStep(c, OpenStop(DrainGiveBack), p, q, p', Push(q, pkt));
    case DrainWake(owner) =>
      assert PortStep(c, OpenStop(DrainWakeOwner), p, q, Wake(p, owner).(ctl := Draining), Wake(q, owner));
  }

  /**
   In every reachable state, a thread that is sending can go on, and so can a poll that is due; open
   and stop wait for nothing but a scheduled poll, which can go on.
   */
  lemma NobodyIsStuck(c: Config, run: seq<State>, p: Port, q: Port)
    requires EndsIn(c, run, p, q)
    ensures !p.xmit.Idle? ==> XmitCanMove(c, p, q)
    ensures ControlCanMove(c, p, q) || (p.ctl.StopWaiting? && PollCanMove(c, p, q))
    ensures c.napi && p.napi.sched && !p.napi.held ==> PollCanMove(c, p, q)
  {
    EndKeeps(c, run, p, q);
    if !p.xmit.Idle? {
      XmitGoesOn(c, p, q);
    }
    if c.napi && p.napi.sched && !p.napi.held {
      PollGoesOn(c, p, q);
    }
    if !(p.ctl.StopWaiting? && p.napi.sched) {
      ControlGoesOn(c, p, q);
    }
  }
}
