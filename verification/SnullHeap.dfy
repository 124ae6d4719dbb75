/**
 The linked lists of SnullBuffers go along with every run of Snull: whatever the interleaving, the
 heap lists spell the pools and the receive queues of the model.
 */
module SnullHeap {
  import opened SnullBuffers
  import M = SnullModel
  import S = Snull
  import L = SnullMoves

  /** A packet as the model names it; `d` is the first interface. */
  function Name(d: LddDev, k: Packet): M.Packet {
    M.Packet(if k.dev == d then M.Sn0 else M.Sn1, k.id)
  }

  ghost predicate Spells(d: LddDev, list: seq<Packet>, names: seq<M.Packet>) {
    |list| == |names| && forall i :: 0 <= i < |list| ==> Name(d, list[i]) == names[i]
  }

  /** One interface and the port that stands for it. */
  ghost predicate Matches(d: LddDev, x: LddDev, p: M.Port)
    reads x
  {
    Spells(d, x.Pool, p.tx.pool) && Spells(d, x.Rx, p.rx.queue)
  }

  /** The arrays of both interfaces and the packets in them. */
  ghost predicate Arrays(d: LddDev, e: LddDev, ds: seq<Packet>, es: seq<Packet>, all: set<Packet>) {
    d != e && |ds| == |es| && InOrder(d, ds) && InOrder(e, es) && all == set k | k in ds + es
  }

  ghost predicate Mirrors(d: LddDev, e: LddDev, hand: set<Packet>, all: set<Packet>, s: S.State)
    reads d, e, d.Pool, d.Rx, e.Pool, e.Rx
  {
    && Conserved(d, e, hand, all)
    && s.sn0.dev == M.Sn0 && s.sn1.dev == M.Sn1
    && Matches(d, d, s.sn0) && Matches(d, e, s.sn1)
    && d.running == s.sn0.rx.running && e.running == s.sn1.rx.running
  }

  /** The packet that the model calls `k`. */
  function Find(ds: seq<Packet>, es: seq<Packet>, k: M.Packet): Packet
    requires k.id < |ds| == |es|
  {
    if k.owner == M.Sn0 then ds[k.id] else es[k.id]
  }

  lemma NotOnList(d: LddDev, list: seq<Packet>, names: seq<M.Packet>, pkt: Packet)
    requires Spells(d, list, names) && Name(d, pkt) !in names
    ensures pkt !in list
  {
  }

  lemma SpellsMore(d: LddDev, list: seq<Packet>, names: seq<M.Packet>, pkt: Packet)
    requires Spells(d, list, names)
    ensures Spells(d, list + [pkt], names + [Name(d, pkt)])
  {
  }

  /** What is on none of the model's lists is in hand on the heap. */
  lemma FreeIsInHand(d: LddDev, x: LddDev, y: LddDev, hand: set<Packet>, all: set<Packet>,
                     p: M.Port, q: M.Port, c: M.Config, pkt: Packet)
    requires Conserved(x, y, hand, all) && Matches(d, x, p) && Matches(d, y, q)
    requires L.Free(c, p, q, Name(d, pkt)) && pkt in all
    ensures pkt in hand
  {
    NotOnList(d, x.Pool, p.tx.pool, pkt);
    NotOnList(d, y.Pool, q.tx.pool, pkt);
    NotOnList(d, x.Rx, p.rx.queue, pkt);
    NotOnList(d, y.Rx, q.rx.queue, pkt);
  }

  // ----- One move of the interface `x`, which `p` stands for; `y` and `q` are its peer

  method DoTake(ghost d: LddDev, x: LddDev, y: LddDev, ghost hand: set<Packet>, ghost all: set<Packet>,
                ghost p: M.Port) returns (ghost hand': set<Packet>)
    requires Conserved(x, y, hand, all) && Matches(d, x, p) && p.tx.pool != []
    modifies x`pool, x`Pool, x`stopped
    ensures Conserved(x, y, hand', all) && Spells(d, x.Pool, p.tx.pool[1..])
  {
    var pkt := TakeBuffer(x, y, hand, all);
    hand' := hand + {pkt};
  }

  method DoSend(ghost d: LddDev, x: LddDev, y: LddDev, pkt: Packet, ghost hand: set<Packet>, ghost all: set<Packet>,
                ghost q: M.Port) returns (ghost hand': set<Packet>)
    requires Conserved(x, y, hand, all) && Matches(d, y, q) && pkt in hand && pkt.dev == x && y.running
    modifies y`rxHead, y`rxTail, y`Rx, y`status, pkt`next, (if y.rxTail == null then {} else {y.rxTail})`next
    ensures Conserved(x, y, hand', all) && Spells(d, y.Rx, q.rx.queue + [Name(d, pkt)])
  {
    ghost var was := y.Rx;
    var interrupt := Send(x, y, pkt, hand, all);
    hand' := hand - {pkt};
    SpellsMore(d, was, q.rx.queue, pkt);
  }

  method DoReceive(ghost d: LddDev, x: LddDev, y: LddDev, ghost hand: set<Packet>, ghost all: set<Packet>,
                   ghost p: M.Port) returns (ghost hand': set<Packet>)
    requires Conserved(x, y, hand, all) && Matches(d, x, p) && p.rx.queue != []
    modifies x`rxHead, x`rxTail, x`Rx
    ensures Conserved(x, y, hand', all) && Spells(d, x.Rx, p.rx.queue[1..])
  {
    var pkt := Receive(x, y, hand, all);
    hand' := hand + {pkt};
  }

  method DoGiveBack(ghost d: LddDev, x: LddDev, y: LddDev, pkt: Packet, ghost hand: set<Packet>, ghost all: set<Packet>,
                    ghost p: M.Port) returns (ghost hand': set<Packet>)
    requires Conserved(x, y, hand, all) && Matches(d, x, p) && pkt in hand && pkt.dev == x
    modifies x`pool, x`Pool, pkt`next
    ensures Conserved(x, y, hand', all) && Spells(d, x.Pool, [Name(d, pkt)] + p.tx.pool)
  {
    var wasEmpty := GiveBack(x, y, pkt, hand, all);
    hand' := hand - {pkt};
  }

  /** The list operation of a move by `x`, or of a packet of `x` in hand. */
  method Perform(ghost d: LddDev, x: LddDev, y: LddDev, pkt: Packet, ghost hand: set<Packet>, ghost all: set<Packet>,
                 ghost p: M.Port, ghost q: M.Port, ghost p': M.Port, ghost q': M.Port, m: L.Move)
    returns (ghost hand': set<Packet>)
    requires Conserved(x, y, hand, all) && Matches(d, x, p) && Matches(d, y, q) && y.running == q.rx.running
    requires p.dev != q.dev && L.ListsMove(p, p', m) && L.ListsMove(q, q', m)
    requires L.PossibleAt(p, m) && L.PossibleAt(q, m)
    requires m.Take? || m.Receive? ==> m.dev == p.dev
    requires m.Deliver? || m.GiveBack? ==>
               m.k.owner == p.dev && pkt in hand && pkt.dev == x && Name(d, pkt) == m.k
    modifies x, y, all
    ensures Conserved(x, y, hand', all) && Matches(d, x, p') && Matches(d, y, q')
  {
    hand' := hand;
    match m
    case Still =>
    case Take(_) =>
      hand' := DoTake(d, x, y, hand, all, p);
    case Deliver(k) =>
      assert y.rxTail == null || y.rxTail in y.Rx;
      hand' := DoSend(d, x, y, pkt, hand, all, q);
    case Receive(_) =>
      hand' := DoReceive(d, x, y, hand, all, p);
    case GiveBack(k) =>
      hand' := DoGiveBack(d, x, y, pkt, hand, all, p);
  }

  /** Whether a move is one of the first interface or of a packet of its. */
  predicate ByFirst(m: L.Move) {
    match m
    case Still => true
    case Take(dev) => dev == M.Sn0
    case Receive(dev) => dev == M.Sn0
    case Deliver(k) => k.owner == M.Sn0
    case GiveBack(k) => k.owner == M.Sn0
  }

  /** The lists after one step of the pair. */
  method ListStep(ghost c: M.Config, s: S.State, t: S.State, d: LddDev, e: LddDev, ds: seq<Packet>, es: seq<Packet>,
                  ghost hand: set<Packet>, ghost all: set<Packet>) returns (ghost hand': set<Packet>)
    requires Mirrors(d, e, hand, all, s) && Arrays(d, e, ds, es, all) && c.poolSize == |ds| >= 1
    requires L.Hop(c, s, t)
    modifies d, e, all
    ensures Conserved(d, e, hand', all) && Matches(d, d, t.sn0) && Matches(d, e, t.sn1)
  {
    var m := L.MoveOf(s, t);
    var pkt := Carried(c, s, t, d, e, ds, es, hand, all);
    if ByFirst(m) {
      hand' := Perform(d, d, e, pkt, hand, all, s.sn0, s.sn1, t.sn0, t.sn1, m);
    } else {
      EitherFirst(d, e, hand, all);
      hand' := Perform(d, e, d, pkt, hand, all, s.sn1, s.sn0, t.sn1, t.sn0, m);
      EitherFirst(e, d, hand', all);
    }
  }

  /** One step of the pair. */
  method OneStep(ghost c: M.Config, s: S.State, t: S.State, d: LddDev, e: LddDev, ds: seq<Packet>, es: seq<Packet>,
                 ghost hand: set<Packet>, ghost all: set<Packet>) returns (ghost hand': set<Packet>)
    requires Mirrors(d, e, hand, all, s) && Arrays(d, e, ds, es, all) && c.poolSize == |ds| >= 1
    requires L.Hop(c, s, t)
    modifies d, e, all
    ensures Mirrors(d, e, hand', all, t)
  {
    hand' := ListStep(c, s, t, d, e, ds, es, hand, all);
    SetRunning(d, d, e, hand', all, t.sn0);
    EitherFirst(d, e, hand', all);
    SetRunning(d, e, d, hand', all, t.sn1);
    EitherFirst(e, d, hand', all);
  }

  lemma EitherFirst(x: LddDev, y: LddDev, hand: set<Packet>, all: set<Packet>)
    requires Conserved(x, y, hand, all)
    ensures Conserved(y, x, hand, all)
  {
  }

  /** Open and stop change `running`, and no list. */
  method SetRunning(ghost d: LddDev, x: LddDev, y: LddDev, ghost hand: set<Packet>, ghost all: set<Packet>, p: M.Port)
    requires Conserved(x, y, hand, all) && Matches(d, x, p)
    modifies x`running
    ensures Conserved(x, y, hand, all) && Matches(d, x, p) && x.running == p.rx.running
  {
    x.running := p.rx.running;
  }

  /** The packet that a step delivers or gives back is in hand. */
  method Carried(ghost c: M.Config, s: S.State, t: S.State, d: LddDev, e: LddDev, ds: seq<Packet>, es: seq<Packet>,
                 ghost hand: set<Packet>, ghost all: set<Packet>) returns (pkt: Packet)
    requires Mirrors(d, e, hand, all, s) && Arrays(d, e, ds, es, all) && c.poolSize == |ds| >= 1
    requires L.Hop(c, s, t)
    ensures var m := L.MoveOf(s, t);
      m.Deliver? || m.GiveBack? ==>
        pkt in hand && Name(d, pkt) == m.k && pkt.dev == if m.k.owner == M.Sn0 then d else e
  {
    var m := L.MoveOf(s, t);
    pkt := ds[0];
    if m.Deliver? || m.GiveBack? {
      pkt := Find(ds, es, m.k);
      assert pkt in ds + es && Name(d, pkt) == m.k;
      FreeIsInHand(d, d, e, hand, all, s.sn0, s.sn1, c, pkt);
    }
  }

  lemma StartMirrors(c: M.Config, d: LddDev, e: LddDev, all: set<Packet>)
    requires Conserved(d, e, {}, all) && |d.Pool| == |e.Pool| == c.poolSize && d.Rx == e.Rx == []
    requires InOrder(d, d.Pool) && InOrder(e, e.Pool) && !d.running && !e.running
    ensures Mirrors(d, e, {}, all, S.State(M.NewPort(c, M.Sn0), M.NewPort(c, M.Sn1)))
  {
  }

  /** From ldd_create() on, along any path of list moves. */
  method FollowPath(c: M.Config, run: seq<S.State>)
    returns (d: LddDev, e: LddDev, ghost hand: set<Packet>, ghost all: set<Packet>)
    requires c.poolSize >= 1 && L.Path(c, run)
    ensures fresh(d) && fresh(e)
    ensures Mirrors(d, e, hand, all, run[|run| - 1])
  {
    var ds, es;
    d, e, ds, es, all := CreatePair(c.poolSize);
    hand := {};
    StartMirrors(c, d, e, all);
    var i := 1;
    while i < |run|
      invariant 1 <= i <= |run| && fresh(d) && fresh(e) && fresh(all) && Arrays(d, e, ds, es, all)
      invariant Mirrors(d, e, hand, all, run[i - 1])
    {
      hand := OneStep(c, run[i - 1], run[i], d, e, ds, es, hand, all);
      i := i + 1;
    }
  }

  /** Every run of the pair can be followed on the heap, and the lists end as the run has them. */
  method Follow(c: M.Config, run: seq<S.State>)
    returns (d: LddDev, e: LddDev, ghost hand: set<Packet>, ghost all: set<Packet>)
    requires c.poolSize >= 1 && S.Run(c, run)
    ensures Mirrors(d, e, hand, all, run[|run| - 1])
  {
    L.RunIsPath(c, run);
    d, e, hand, all := FollowPath(c, run);
  }
}
