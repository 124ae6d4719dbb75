/** What a step of the snull pair does to the pools and the receive queues: at most one of the four changes. */
module SnullMoves {
  import opened Common
  import opened SnullModel
  import opened SnullProof
  import opened Snull

  datatype Move =
    | Still
    | Take(dev: Dev)         // ldd_get_tx_buffer()
    | Deliver(k: Packet)     // ldd_rx_enqueue() on the peer of the owner
    | Receive(dev: Dev)      // ldd_rx_dequeue()
    | GiveBack(k: Packet)    // ldd_release_buffer()

  function PoolAfter(p: Port, m: Move): seq<Packet> {
    if m == Take(p.dev) && p.tx.pool != [] then p.tx.pool[1..]
    else if m.GiveBack? && m.k.owner == p.dev then [m.k] + p.tx.pool
    else p.tx.pool
  }

  function QueueAfter(p: Port, m: Move): seq<Packet> {
    if m == Receive(p.dev) && p.rx.queue != [] then p.rx.queue[1..]
    else if m.Deliver? && Peer(m.k.owner) == p.dev then p.rx.queue + [m.k]
    else p.rx.queue
  }

  /** `k` is one of the packets of the pair and on none of the four lists. */
  predicate Free(c: Config, p: Port, q: Port, k: Packet) {
    k.id < c.poolSize && k !in p.tx.pool && k !in q.tx.pool && k !in p.rx.queue && k !in q.rx.queue
  }

  predicate PossibleAt(p: Port, m: Move) {
    && (m == Take(p.dev) ==> p.tx.pool != [])
    && (m == Receive(p.dev) ==> p.rx.queue != [])
    && (m.Deliver? && Peer(m.k.owner) == p.dev ==> p.rx.running)
  }

  predicate Possible(c: Config, p: Port, q: Port, m: Move) {
    PossibleAt(p, m) && PossibleAt(q, m) && (m.Deliver? || m.GiveBack? ==> Free(c, p, q, m.k))
  }

  predicate ListsMove(p: Port, p': Port, m: Move) {
    p'.dev == p.dev && p'.tx.pool == PoolAfter(p, m) && p'.rx.queue == QueueAfter(p, m)
  }

  predicate MovesBy(c: Config, p: Port, q: Port, p': Port, q': Port, m: Move) {
    Possible(c, p, q, m) && ListsMove(p, p', m) && ListsMove(q, q', m)
  }

  lemma {:induction false} CountNone<T>(q: seq<T>, k: T)
    requires Count(q, k) == 0
    ensures k !in q
  {
    if q != [] {
      CountNone(q[1..], k);
      assert q == [q[0]] + q[1..];
    }
  }

  /** A packet in a thread's hand is on no list. */
  lemma HeldIsFree(c: Config, p: Port, q: Port, k: Packet)
    requires p.dev != q.dev && InOnePlace(c, p, q, k) && InOnePlace(c, q, p, k) && Hands(p, q, k) > 0
    ensures k.owner == p.dev && Free(c, p, q, k)
  {
    CountNone(p.tx.pool, k);
    CountNone(q.rx.queue, k);
    CountNone(q.tx.pool, k);
    CountNone(p.rx.queue, k);
  }

  lemma XmitMoves(c: Config, a: XmitAction, p: Port, q: Port, p': Port, q': Port) returns (m: Move)
    requires p.dev != q.dev && XmitStep(a, p, q, p', q')
    requires BufferInv(c, p, q) && BufferInv(c, q, p)
    ensures MovesBy(c, p, q, p', q', m)
  {
    m := Still;
    if a.GetBuffer? {
      m := Take(p.dev);
    } else if a.Enqueue? || a.ReleaseLost? {
      var k := p.xmit.pkt;
      assert InOnePlace(c, p, q, k) && InOnePlace(c, q, p, k);
      HeldIsFree(c, p, q, k);
      if a.ReleaseLost? {
        m := GiveBack(k);
      } else if q.rx.running {
        m := Deliver(k);
      }
    }
  }

  lemma OwnIrqMoves(c: Config, a: IrqAction, p: Port, q: Port, p': Port, q': Port) returns (m: Move)
    requires p.dev != q.dev && OwnIrqStep(c, a, p, q, p', q')
    requires BufferInv(c, p, q) && BufferInv(c, q, p)
    ensures MovesBy(c, p, q, p', q', m)
  {
    m := Still;
    if a.Dequeue? && p.rx.queue != [] {
      m := Receive(p.dev);
    } else if a.Release? {
      var k := p.xmit.irq.pkt;
      assert InOnePlace(c, p, q, k) && InOnePlace(c, q, p, k);
      HeldIsFree(c, q, p, k);
      m := GiveBack(k);
    }
  }

  lemma PeerIrqMoves(c: Config, a: IrqAction, p: Port, q: Port, p': Port, q': Port) returns (m: Move)
    requires p.dev != q.dev && PeerIrqStep(c, a, p, q, p', q')
    requires BufferInv(c, p, q) && BufferInv(c, q, p)
    ensures MovesBy(c, p, q, p', q', m)
  {
    m := Still;
    if a.Dequeue? && p.rx.queue != [] {
      m := Receive(p.dev);
    } else if a.Release? {
      var k := q.xmit.irq.pkt;
      assert InOnePlace(c, p, q, k) && InOnePlace(c, q, p, k);
      HeldIsFree(c, q, p, k);
      m := GiveBack(k);
    }
  }

  lemma PollMoves(c: Config, a: PollAction, p: Port, q: Port, p': Port, q': Port) returns (m: Move)
    requires p.dev != q.dev && PollStep(c, a, p, q, p', q')
    requires BufferInv(c, p, q) && BufferInv(c, q, p)
    ensures MovesBy(c, p, q, p', q', m)
  {
    m := Still;
    if a.PollTake? && p.rx.queue != [] {
      m := Receive(p.dev);
    } else if a.PollGiveBack? {
      var k := p.napi.poll.pkt;
      assert InOnePlace(c, p, q, k) && InOnePlace(c, q, p, k);
      HeldIsFree(c, q, p, k);
      m := GiveBack(k);
    }
  }

  lemma CtlMoves(c: Config, a: CtlAction, p: Port, q: Port, p': Port, q': Port) returns (m: Move)
    requires p.dev != q.dev && CtlStep(c, a, p, q, p', q')
    requires BufferInv(c, p, q) && BufferInv(c, q, p)
    ensures MovesBy(c, p, q, p', q', m)
  {
    m := Still;
    if a.DrainTake? && p.rx.queue != [] {
      m := Receive(p.dev);
    } else if a.DrainGiveBack? {
      var k := p.ctl.pkt;
      assert InOnePlace(c, p, q, k) && InOnePlace(c, q, p, k);
      HeldIsFree(c, q, p, k);
      m := GiveBack(k);
    }
  }

  lemma PortMoves(c: Config, a: Action, p: Port, q: Port, p': Port, q': Port) returns (m: Move)
    requires p.dev != q.dev && PortStep(c, a, p, q, p', q')
    requires BufferInv(c, p, q) && BufferInv(c, q, p)
    ensures MovesBy(c, p, q, p', q', m)
  {
    match a
    case Transmit(x) => m := XmitMoves(c, x, p, q, p', q');
    case OwnInterrupt(i) => m := OwnIrqMoves(c, i, p, q, p', q');
    case PeerInterrupt(i) => m := PeerIrqMoves(c, i, p, q, p', q');
    case NapiPoll(l) => m := PollMoves(c, l, p, q, p', q');
    case OpenStop(k) => m := CtlMoves(c, k, p, q, p', q');
  }

  /** The move between two states, read off the lengths of the lists. */
  function MoveAt(p: Port, p': Port): Move {
    if |p'.tx.pool| < |p.tx.pool| then Take(p.dev)
    else if |p'.tx.pool| > |p.tx.pool| then GiveBack(p'.tx.pool[0])
    else if |p'.rx.queue| < |p.rx.queue| then Receive(p.dev)
    else if |p'.rx.queue| > |p.rx.queue| then Deliver(p'.rx.queue[|p'.rx.queue| - 1])
    else Still
  }

  function MoveOf(s: State, t: State): Move {
    if MoveAt(s.sn0, t.sn0) != Still then MoveAt(s.sn0, t.sn0) else MoveAt(s.sn1, t.sn1)
  }

  lemma MoveAtIs(p: Port, p': Port, m: Move)
    requires PossibleAt(p, m) && ListsMove(p, p', m)
    ensures MoveAt(p, p') == m ||
      (MoveAt(p, p') == Still && PoolAfter(p, m) == p.tx.pool && QueueAfter(p, m) == p.rx.queue)
  {
  }

  /** Every step of a reachable state is one move of the lists, which MoveOf() finds. */
  lemma StepMoves(c: Config, s: State, t: State)
    requires Inv(c, s) && Next(c, s, t)
    ensures MovesBy(c, s.sn0, s.sn1, t.sn0, t.sn1, MoveOf(s, t))
  {
    var a :| Step(c, a, s, t);
    var m;
    if PortStep(c, a, s.sn0, s.sn1, t.sn0, t.sn1) {
      m := PortMoves(c, a, s.sn0, s.sn1, t.sn0, t.sn1);
    } else {
      m := PortMoves(c, a, s.sn1, s.sn0, t.sn1, t.sn0);
    }
    MoveAtIs(s.sn0, t.sn0, m);
    MoveAtIs(s.sn1, t.sn1, m);
  }

  ghost predicate Hop(c: Config, s: State, t: State) {
    s.sn0.dev == Sn0 && s.sn1.dev == Sn1 && MovesBy(c, s.sn0, s.sn1, t.sn0, t.sn1, MoveOf(s, t))
  }

  /** A run as its lists see it. */
  ghost predicate Path(c: Config, run: seq<State>) {
    run != [] && run[0] == State(NewPort(c, Sn0), NewPort(c, Sn1)) &&
    forall i :: 0 < i < |run| ==> Hop(c, run[i - 1], run[i])
  }

  lemma RunIsPath(c: Config, run: seq<State>)
    requires Run(c, run)
    ensures Path(c, run)
  {
    forall i | 0 < i < |run| ensures Hop(c, run[i - 1], run[i]) {
      RunKeeps(c, run, i - 1);
      assert StepAt(c, run, i);
      StepMoves(c, run[i - 1], run[i]);
    }
  }
}
