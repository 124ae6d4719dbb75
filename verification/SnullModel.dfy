/**
 The snull pair (examples/30_netdev/main.c) as a step system: one step for each section
 under `priv->lock` and for each atomic call outside it.  Any interleaving is a run.

 Threads: the transmit path of each interface, serialized per interface, which runs the
 simulated interrupt of its peer and of itself inline; the NAPI poll of each interface,
 of which one runs before napi_complete_done() and any number after it; and the thread
 that opens and stops each interface.
 */
module SnullModel {
  import opened Common

  datatype Dev = Sn0 | Sn1

  function Peer(d: Dev): Dev {
    if d == Sn0 then Sn1 else Sn0
  }

  /** A transmit buffer; `owner` is `pkt->dev`. */
  datatype Packet = Packet(owner: Dev, id: nat)

  /** The interrupt handler between two of its steps; `tx` is the skb taken by the ack. */
  datatype Irq =
    | PreAck
    | PreDequeue(tx: Option<nat>)                 // regular mode, the ack saw RX
    | PreRelease(pkt: Packet, tx: Option<nat>)    // a dequeued packet in hand
    | PreWake(owner: Dev, tx: Option<nat>)        // its pool was empty: owes the wake
    | PreRxOff(tx: Option<nat>)                   // NAPI mode, the ack saw RX
    | PreSchedule(tx: Option<nat>)                // receive interrupts are off now
    | PreTxDone(tx: Option<nat>)

  /** ldd_start_xmit() between two of its steps. */
  datatype Xmit =
    | Idle
    | HasBuffer(skb: nat, pkt: Packet)
    | Lost(skb: nat, pkt: Packet)                 // the peer is not running
    | LostWake(skb: nat, owner: Dev)
    | InRxIrq(skb: nat, irq: Irq)                 // ldd_interrupt(peer)
    | PreSetTx(skb: nat)
    | InTxIrq(irq: Irq)                           // ldd_interrupt(dev)

  /** ldd_poll() while it owns the NAPI_STATE_SCHED bit. */
  datatype Poll =
    | NotPolling
    | PollLoop(done: nat)
    | PollRelease(pkt: Packet, done: nat)
    | PollWake(owner: Dev, done: nat)
    | PollComplete

  /** ldd_open() and ldd_stop(). */
  datatype Ctl =
    | Closed
    | OpenPreRun
    | OpenPreStart
    | Up
    | StopPreClear
    | StopPreDisable
    | StopWaiting                                 // in napi_disable()
    | Draining
    | DrainRelease(pkt: Packet)
    | DrainWake(owner: Dev)

  /** The receive half of struct ldd_dev, with the history of its queue. */
  datatype Rx = Rx(
    running: bool,
    intOn: bool,            // rx_int_enabled
    bit: bool,              // NETDEV_RX_INTR in status
    queue: seq<Packet>,     // rx_head .. rx_tail
    enqueued: seq<Packet>,
    dequeued: seq<Packet>)

  /** The transmit half, with the history of its skbs. */
  datatype Tx = Tx(
    bit: bool,              // NETDEV_TX_INTR in status
    skb: Option<nat>,       // tx_skb
    pool: seq<Packet>,
    stopped: bool,          // netif_stop_queue()
    accepted: seq<nat>,     // skbs for which NETDEV_TX_OK is due
    freed: seq<nat>)        // skbs dropped or completed

  datatype Napi = Napi(
    sched: bool,            // NAPI_STATE_SCHED
    missed: bool,           // NAPI_STATE_MISSED
    disable: bool,          // NAPI_STATE_DISABLE
    held: bool,             // SCHED is held by napi_disable()
    poll: Poll,
    rechecks: nat,          // polls between napi_complete_done() and their re-check
    reschedules: nat)       // polls that saw more and owe napi_schedule()

  datatype Port = Port(dev: Dev, rx: Rx, tx: Tx, napi: Napi, xmit: Xmit, ctl: Ctl)

  datatype Config = Config(napi: bool, poolSize: nat, weight: nat)

  function FreshPool(d: Dev, n: nat): (p: seq<Packet>)
    ensures |p| == n
    ensures forall i :: 0 <= i < n ==> p[i] == Packet(d, i)
  {
    seq(n, i requires 0 <= i < n => Packet(d, i))
  }

  function NewPort(c: Config, d: Dev): Port {
    Port(d, Rx(false, false, false, [], [], []),
         Tx(false, None, FreshPool(d, c.poolSize), true, [], []),
         Napi(true, false, false, true, NotPolling, 0, 0), Idle, Closed)
  }

  // ---------------------------------------------------------------------------
  // Steps of one interface `p` whose peer is `q`
  // ---------------------------------------------------------------------------

  /** The locked part of ldd_release_buffer(), for the one of the two that owns `pkt`. */
  function Push(p: Port, pkt: Packet): Port {
    if pkt.owner == p.dev then p.(tx := p.tx.(pool := [pkt] + p.tx.pool)) else p
  }

  predicate WasEmpty(p: Port, q: Port, pkt: Packet) {
    (if pkt.owner == p.dev then p else q).tx.pool == []
  }

  function Wake(p: Port, d: Dev): Port {
    if d == p.dev then p.(tx := p.tx.(stopped := false)) else p
  }

  /** ldd_rx_dequeue() on a non-empty queue. */
  function TakeRx(r: Rx): Rx
    requires r.queue != []
  {
    r.(queue := r.queue[1..], dequeued := r.dequeued + [r.queue[0]])
  }

  /** napi_schedule(): refused while disabling, remembered while already scheduled. */
  function NapiSchedule(n: Napi): Napi {
    if n.disable then n else if n.sched then n.(missed := true) else n.(sched := true)
  }

  datatype XmitAction =
    | Drop(skb: nat) | GetBuffer(skb: nat) | Enqueue | ReleaseLost | WakeLost | SetTx

  /** ldd_start_xmit() on `p`. */
  ghost predicate XmitStep(a: XmitAction, p: Port, q: Port, p': Port, q': Port) {
    var x := p.xmit;
    match a
    case Drop(skb) =>
      // not IPv4, no peer, or a bad length
      x.Idle? && skb !in p.tx.accepted && q' == q &&
      p' == p.(tx := p.tx.(accepted := p.tx.accepted + [skb], freed := p.tx.freed + [skb]))
    case GetBuffer(skb) =>
      // an empty pool means NETDEV_TX_BUSY: the skb is not accepted
      x.Idle? && skb !in p.tx.accepted && p.tx.pool != [] && q' == q &&
      p' == p.(tx := p.tx.(pool := p.tx.pool[1..],
                           stopped := p.tx.stopped || |p.tx.pool| == 1,
                           accepted := p.tx.accepted + [skb]),
               xmit := HasBuffer(skb, p.tx.pool[0]))
    case Enqueue =>
      x.HasBuffer? &&
      if !q.rx.running then
        q' == q && p' == p.(xmit := Lost(x.skb, x.pkt))
      else
        q' == q.(rx := q.rx.(queue := q.rx.queue + [x.pkt], enqueued := q.rx.enqueued + [x.pkt],
                             bit := q.rx.bit || q.rx.intOn)) &&
        p' == p.(xmit := if q.rx.intOn then InRxIrq(x.skb, PreAck) else PreSetTx(x.skb))
    case ReleaseLost =>
      x.Lost? && q' == Push(q, x.pkt) &&
      p' == Push(p, x.pkt).(xmit := if WasEmpty(p, q, x.pkt) then LostWake(x.skb, x.pkt.owner)
                                    else PreSetTx(x.skb))
    case WakeLost =>
      x.LostWake? && q' == Wake(q, x.owner) && p' == Wake(p, x.owner).(xmit := PreSetTx(x.skb))
    case SetTx =>
      x.PreSetTx? && q' == q &&
      p' == p.(tx := p.tx.(skb := Some(x.skb), bit := true), xmit := InTxIrq(PreAck))
  }

  datatype IrqAction = Ack | Dequeue | Release | WakeOwner | RxOff | Schedule | TxDone

  /**
   ldd_regular_interrupt(p) and ldd_napi_interrupt(p): what a step at `h` makes of the two
   ports, their transmit threads aside, and of the handler; None is its end.
   */
  ghost predicate HandlerStep(c: Config, a: IrqAction, h: Irq, p: Port, q: Port,
                              p': Port, q': Port, h': Option<Irq>) {
    match a
    case Ack =>
      h.PreAck? && q' == q &&
      var tx := if p.tx.bit then p.tx.skb else None;
      p' == p.(rx := p.rx.(bit := false),
               tx := p.tx.(bit := false, skb := if p.tx.bit then None else p.tx.skb)) &&
      h' == Some(if !p.rx.bit then PreTxDone(tx) else if c.napi then PreRxOff(tx) else PreDequeue(tx))
    case Dequeue =>
      h.PreDequeue? && q' == q &&
      if p.rx.queue == [] then p' == p && h' == Some(PreTxDone(h.tx))
      else p' == p.(rx := TakeRx(p.rx)) && h' == Some(PreRelease(p.rx.queue[0], h.tx))
    case Release =>
      h.PreRelease? && p' == Push(p, h.pkt) && q' == Push(q, h.pkt) &&
      h' == Some(if WasEmpty(p, q, h.pkt) then PreWake(h.pkt.owner, h.tx) else PreTxDone(h.tx))
    case WakeOwner =>
      h.PreWake? && p' == Wake(p, h.owner) && q' == Wake(q, h.owner) && h' == Some(PreTxDone(h.tx))
    case RxOff =>
      h.PreRxOff? && q' == q && p' == p.(rx := p.rx.(intOn := false)) && h' == Some(PreSchedule(h.tx))
    case Schedule =>
      h.PreSchedule? && q' == q && p' == p.(napi := NapiSchedule(p.napi)) && h' == Some(PreTxDone(h.tx))
    case TxDone =>
      h.PreTxDone? && q' == q && h' == None &&
      p' == if h.tx.Some? then p.(tx := p.tx.(freed := p.tx.freed + [h.tx.value])) else p
  }

  /** The handler of `p` on the thread that transmits on `p`: its TX interrupt. */
  ghost predicate OwnIrqStep(c: Config, a: IrqAction, p: Port, q: Port, p': Port, q': Port) {
    p.xmit.InTxIrq? &&
    exists p1, h' :: HandlerStep(c, a, p.xmit.irq, p, q, p1, q', h') &&
                     p' == p1.(xmit := if h'.Some? then InTxIrq(h'.value) else Idle)
  }

  /** The handler of `p` on the thread that transmits on `q`: the RX interrupt of `p`. */
  ghost predicate PeerIrqStep(c: Config, a: IrqAction, p: Port, q: Port, p': Port, q': Port) {
    q.xmit.InRxIrq? &&
    exists q1, h' :: HandlerStep(c, a, q.xmit.irq, p, q, p', q1, h') &&
                     q' == q1.(xmit := if h'.Some? then InRxIrq(q.xmit.skb, h'.value)
                                       else PreSetTx(q.xmit.skb))
  }

  datatype PollAction =
    | PollStart | PollTake | PollGiveBack | PollWakeOwner | PollBudget | PollDone
    | PollRecheck | PollSchedule

  /** ldd_poll() on `p`, under the NAPI core. */
  ghost predicate PollStep(c: Config, a: PollAction, p: Port, q: Port, p': Port, q': Port) {
    var n := p.napi;
    match a
    case PollStart =>
      c.napi && n.sched && !n.held && n.poll.NotPolling? && q' == q &&
      p' == p.(napi := n.(poll := PollLoop(0)))
    case PollTake =>
      n.poll.PollLoop? && n.poll.done < c.weight && q' == q &&
      p' == if p.rx.queue == [] then p.(napi := n.(poll := PollComplete))
            else p.(rx := TakeRx(p.rx), napi := n.(poll := PollRelease(p.rx.queue[0], n.poll.done + 1)))
    case PollGiveBack =>
      n.poll.PollRelease? && q' == Push(q, n.poll.pkt) &&
      p' == Push(p, n.poll.pkt).(napi := n.(poll :=
        if WasEmpty(p, q, n.poll.pkt) then PollWake(n.poll.pkt.owner, n.poll.done)
        else PollLoop(n.poll.done)))
    case PollWakeOwner =>
      n.poll.PollWake? && q' == Wake(q, n.poll.owner) &&
      p' == Wake(p, n.poll.owner).(napi := n.(poll := PollLoop(n.poll.done)))
    case PollBudget =>
      // stays scheduled, unless a napi_disable() waits: then the core completes it
      n.poll.PollLoop? && n.poll.done >= c.weight && q' == q &&
      p' == p.(napi := n.(poll := NotPolling, sched := !n.disable || n.missed,
                          missed := n.missed && !n.disable))
    case PollDone =>
      // napi_complete_done(): false, and polled again, if a schedule was missed
      n.poll.PollComplete? && q' == q &&
      p' == p.(napi := if n.missed then n.(poll := NotPolling, missed := false)
                       else n.(poll := NotPolling, sched := false, rechecks := n.rechecks + 1))
    case PollRecheck =>
      n.rechecks > 0 && q' == q &&
      var more := p.rx.queue != [];
      p' == p.(rx := p.rx.(intOn := !more),
               napi := n.(rechecks := n.rechecks - 1,
                          reschedules := n.reschedules + if more then 1 else 0))
    case PollSchedule =>
      n.reschedules > 0 && q' == q &&
      p' == p.(napi := NapiSchedule(n).(reschedules := n.reschedules - 1))
  }

  datatype CtlAction =
    | Open | OpenRun | OpenStart | Stop | StopClear | StopDisable | StopDisabled
    | DrainTake | DrainGiveBack | DrainWakeOwner

  /** ldd_open() and ldd_stop() on `p`. */
  ghost predicate CtlStep(c: Config, a: CtlAction, p: Port, q: Port, p': Port, q': Port) {
    var n, k := p.napi, p.ctl;
    match a
    case Open =>
      k.Closed? && q' == q &&
      p' == p.(ctl := OpenPreRun, napi := if c.napi then n.(sched := false, held := false) else n)
    case OpenRun =>
      k.OpenPreRun? && q' == q && p' == p.(ctl := OpenPreStart, rx := p.rx.(running := true, intOn := true))
    case OpenStart =>
      k.OpenPreStart? && q' == q && p' == p.(ctl := Up, tx := p.tx.(stopped := false))
    case Stop =>
      k.Up? && q' == q && p' == p.(ctl := StopPreClear, tx := p.tx.(stopped := true))
    case StopClear =>
      k.StopPreClear? && q' == q &&
      p' == p.(ctl := if c.napi then StopPreDisable else Draining,
               rx := p.rx.(running := false, intOn := false))
    case StopDisable =>
      k.StopPreDisable? && q' == q && p' == p.(ctl := StopWaiting, napi := n.(disable := true))
    case StopDisabled =>
      k.StopWaiting? && !n.sched && q' == q &&
      p' == p.(ctl := Draining, napi := n.(disable := false, sched := true, held := true))
    case DrainTake =>
      k.Draining? && q' == q &&
      p' == if p.rx.queue == [] then p.(ctl := Closed)
            else p.(rx := TakeRx(p.rx), ctl := DrainRelease(p.rx.queue[0]))
    case DrainGiveBack =>
      k.DrainRelease? && q' == Push(q, k.pkt) &&
      p' == Push(p, k.pkt).(ctl := if WasEmpty(p, q, k.pkt) then DrainWake(k.pkt.owner) else Draining)
    case DrainWakeOwner =>
      k.DrainWake? && q' == Wake(q, k.owner) && p' == Wake(p, k.owner).(ctl := Draining)
  }

  // ---------------------------------------------------------------------------
  // What every state of every run satisfies, of `p` with peer `q`
  // ---------------------------------------------------------------------------

  /** Open and stop: what each phase says about `running`, NAPI and the receive queue. */
  ghost predicate CtlInv(c: Config, p: Port) {
    var n, k := p.napi, p.ctl;
    && (p.rx.running <==> k.OpenPreStart? || k.Up? || k.StopPreClear?)
    && (k.Closed? || k.OpenPreRun? ==> p.rx.queue == [])
    && (c.napi ==>
          && (n.disable <==> k.StopWaiting?)
          && (n.held <==> k.Closed? || k.Draining? || k.DrainRelease? || k.DrainWake?)
          && (n.held ==> n.sched)
          && (!n.poll.NotPolling? ==> n.sched && !n.held))
    && (!c.napi ==>
          && n.poll.NotPolling? && n.rechecks == 0 && n.reschedules == 0
          && (p.rx.running ==> p.rx.intOn)
          && !k.StopPreDisable? && !k.StopWaiting?)
  }

  ghost predicate RightMode(c: Config, x: Xmit) {
    x.InRxIrq? || x.InTxIrq? ==>
      && (x.irq.PreDequeue? || x.irq.PreRelease? || x.irq.PreWake? ==> !c.napi)
      && (x.irq.PreRxOff? || x.irq.PreSchedule? ==> c.napi)
  }

  /** A pending status bit has the thread that raised it on its way to the ack. */
  ghost predicate StatusInv(c: Config, p: Port, q: Port) {
    && (p.rx.bit ==> q.xmit.InRxIrq? && q.xmit.irq.PreAck?)
    && (p.tx.bit ==> p.xmit == InTxIrq(PreAck))
    && (p.tx.bit <==> p.tx.skb.Some?)
    && RightMode(c, p.xmit)
  }

  function B(b: bool): nat {
    if b then 1 else 0
  }

  function Count<T(==)>(q: seq<T>, k: T): nat {
    if q == [] then 0 else B(q[0] == k) + Count(q[1..], k)
  }

  /** Receive interrupts of `p` raised and not yet turned into a dequeue. */
  function Tokens(p: Port, q: Port): nat {
    B(p.rx.bit) + B(p.xmit.InTxIrq? && p.xmit.irq.PreDequeue?) + B(q.xmit.InRxIrq? && q.xmit.irq.PreDequeue?)
  }

  /** NAPI is scheduled or polling, or a thread with receive interrupts off owes the schedule. */
  predicate PollDue(p: Port, q: Port) {
    p.napi.sched || p.napi.rechecks > 0 || p.napi.reschedules > 0 ||
    (p.xmit.InTxIrq? && p.xmit.irq.PreSchedule?) || (q.xmit.InRxIrq? && q.xmit.irq.PreSchedule?)
  }

  /** A receive interrupt of `p` is raised, or acknowledged and about to turn to NAPI. */
  predicate InterruptDue(p: Port, q: Port) {
    p.rx.bit || (p.xmit.InTxIrq? && p.xmit.irq.PreRxOff?) || (q.xmit.InRxIrq? && q.xmit.irq.PreRxOff?)
  }

  /** No frame is stranded on an open interface. */
  ghost predicate RxInv(c: Config, p: Port, q: Port) {
    if c.napi then
      p.rx.running ==>
        (!p.rx.intOn ==> PollDue(p, q)) && (p.rx.queue != [] ==> PollDue(p, q) || InterruptDue(p, q))
    else
      |p.rx.queue| <= Tokens(p, q)
  }

  /** Frames leave the receive queue in the order in which they came. */
  ghost predicate FifoInv(p: Port) {
    p.rx.enqueued == p.rx.dequeued + p.rx.queue
  }

  predicate IrqHolds(h: Irq, k: Packet) {
    h.PreRelease? && h.pkt == k
  }

  predicate SenderHolds(x: Xmit, k: Packet) {
    match x
    case HasBuffer(_, pkt) => pkt == k
    case Lost(_, pkt) => pkt == k
    case InRxIrq(_, irq) => IrqHolds(irq, k)
    case _ => false
  }

  /** How many of the threads have `k`, a packet from the pool of `p`, in hand. */
  function Hands(p: Port, q: Port, k: Packet): nat {
    B(SenderHolds(p.xmit, k)) + B(q.xmit.InTxIrq? && IrqHolds(q.xmit.irq, k)) +
    B(q.napi.poll.PollRelease? && q.napi.poll.pkt == k) + B(q.ctl.DrainRelease? && q.ctl.pkt == k)
  }

  /** In how many places `k` is: the pool of `p`, the receive queue of its peer, a thread's hand. */
  function Places(p: Port, q: Port, k: Packet): nat {
    Count(p.tx.pool, k) + Count(q.rx.queue, k) + Hands(p, q, k)
  }

  predicate Owns(c: Config, p: Port, k: Packet) {
    k.owner == p.dev && k.id < c.poolSize
  }

  predicate InOnePlace(c: Config, p: Port, q: Port, k: Packet) {
    Places(p, q, k) == B(Owns(c, p, k))
  }

  /** Each of the `pool_size` packets of `p` is in exactly one place, and no other packet is in any. */
  ghost predicate BufferInv(c: Config, p: Port, q: Port) {
    forall k :: InOnePlace(c, p, q, k)
  }

  /** Packets in hand are given back to the pool that they came from. */
  predicate HandsOwned(p: Port, q: Port) {
    && (p.xmit.HasBuffer? || p.xmit.Lost? ==> p.xmit.pkt.owner == p.dev)
    && (p.xmit.InRxIrq? && p.xmit.irq.PreRelease? ==> p.xmit.irq.pkt.owner == p.dev)
    && (q.xmit.InTxIrq? && q.xmit.irq.PreRelease? ==> q.xmit.irq.pkt.owner == p.dev)
    && (q.napi.poll.PollRelease? ==> q.napi.poll.pkt.owner == p.dev)
    && (q.ctl.DrainRelease? ==> q.ctl.pkt.owner == p.dev)
  }

  predicate IrqHasSkb(h: Irq, skb: nat) {
    !h.PreAck? && h.tx == Some(skb)
  }

  /** In how many places an accepted skb of `p` is before it is dropped or completed. */
  function InFlight(p: Port, q: Port, skb: nat): nat {
    B(!p.xmit.Idle? && !p.xmit.InTxIrq? && p.xmit.skb == skb) +
    B(p.tx.skb == Some(skb)) +
    B(p.xmit.InTxIrq? && IrqHasSkb(p.xmit.irq, skb)) +
    B(q.xmit.InRxIrq? && IrqHasSkb(q.xmit.irq, skb))
  }

  predicate FreedOnce(p: Port, q: Port, skb: nat) {
    Count(p.tx.accepted, skb) == Count(p.tx.freed, skb) + InFlight(p, q, skb) <= 1
  }

  /** Each accepted skb is in flight or was freed, once in all. */
  ghost predicate SkbInv(p: Port, q: Port) {
    forall skb :: FreedOnce(p, q, skb)
  }

  predicate Owes(p: Port, d: Dev) {
    ((p.xmit.InRxIrq? || p.xmit.InTxIrq?) && p.xmit.irq.PreWake? && p.xmit.irq.owner == d) ||
    (p.xmit.LostWake? && p.xmit.owner == d) ||
    (p.napi.poll.PollWake? && p.napi.poll.owner == d) ||
    (p.ctl.DrainWake? && p.ctl.owner == d)
  }

  /** The transmit queue of an interface that is up is not stopped for good. */
  ghost predicate QueueInv(p: Port, q: Port) {
    p.ctl.Up? && p.tx.stopped && p.tx.pool != [] ==> Owes(p, p.dev) || Owes(q, p.dev)
  }

  ghost predicate PortInv(c: Config, p: Port, q: Port) {
    && CtlInv(c, p)
    && StatusInv(c, p, q)
    && RxInv(c, p, q)
    && FifoInv(p)
    && QueueInv(p, q)
    && BufferInv(c, p, q)
    && SkbInv(p, q)
  }
}
