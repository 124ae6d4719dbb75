/**
 The buffers of the snull pair on the heap: a free pool and a receive queue for each
 interface, both threaded through the one `next` field of their packets.  Each method is a
 section under `priv->lock` of examples/30_netdev/main.c, proved against the sequences that the
 lists hold; SnullHeap ties those to the sequences of SnullModel along every run.
 */
module SnullBuffers {
  import opened Common

  const RX_INTR: bv16 := 1
  const TX_INTR: bv16 := 2

  class Packet {
    var next: Packet?
    const dev: LddDev     // set once, by ldd_create()
    const id: nat         // its place in the array that ldd_create() allocates

    constructor (d: LddDev, id: nat)
      ensures next == null && dev == d && this.id == id
    {
      next, dev, this.id := null, d, id;
    }
  }

  /** The node behind `s[i]`. */
  function Link(s: seq<Packet>, i: nat): Packet? {
    if i + 1 < |s| then s[i + 1] else null
  }

  /** The nodes from `head` along `next`, in order and to the end, are `s`. */
  ghost predicate Chain(head: Packet?, s: seq<Packet>)
    reads s
  {
    head == (if s == [] then null else s[0]) &&
    forall i :: 0 <= i < |s| ==> s[i].next == Link(s, i)
  }

  lemma ChainTail(head: Packet?, s: seq<Packet>)
    requires Chain(head, s) && s != []
    ensures head == s[0] && Chain(s[0].next, s[1..])
  {
    forall i | 0 <= i < |s| - 1 ensures s[1..][i].next == Link(s[1..], i) {
      assert s[1..][i] == s[i + 1] && s[i + 1].next == Link(s, i + 1);
    }
    assert s[0].next == Link(s, 0);
  }

  lemma ChainCons(head: Packet?, s: seq<Packet>, x: Packet)
    requires Chain(head, s) && x.next == head
    ensures Chain(x, [x] + s)
  {
    var t := [x] + s;
    forall i | 0 <= i < |t| ensures t[i].next == Link(t, i) {
      if i > 0 { assert t[i] == s[i - 1]; }
    }
  }

  ghost predicate Apart(s: seq<Packet>, t: seq<Packet>) {
    forall k :: k in s ==> k !in t
  }

  ghost predicate NoRepeats<T>(s: seq<T>) {
    forall i, j :: 0 <= i < j < |s| ==> s[i] != s[j]
  }

  /** Nodes that are equal have equal nodes behind them, so a chain that ends cannot repeat one. */
  lemma {:induction false} ChainAcyclic(head: Packet?, s: seq<Packet>)
    requires Chain(head, s)
    ensures NoRepeats(s)
  {
    forall i, j | 0 <= i < j < |s| ensures s[i] != s[j] {
      RepeatRunsOff(head, s, i, j);
    }
  }

  lemma {:induction false} RepeatRunsOff(head: Packet?, s: seq<Packet>, i: nat, j: nat)
    requires Chain(head, s) && i < j < |s|
    ensures s[i] != s[j]
    decreases |s| - j
  {
    if s[i] == s[j] {
      assert s[i].next == Link(s, i) && s[j].next == Link(s, j);
      if j + 1 < |s| {
        RepeatRunsOff(head, s, i + 1, j + 1);
      }
    }
  }

  /** The lists of struct ldd_dev; `Pool` and `Rx` are what they hold. */
  class LddDev {
    var pool: Packet?
    var rxHead: Packet?
    var rxTail: Packet?
    var stopped: bool
    var running: bool
    var rxIntEnabled: bool
    var status: bv16
    var txSkb: Option<nat>
    ghost var Pool: seq<Packet>
    ghost var Rx: seq<Packet>

    ghost predicate Valid()
      reads this, Pool, Rx
    {
      && Chain(pool, Pool)
      && Chain(rxHead, Rx)
      && rxTail == (if Rx == [] then null else Rx[|Rx| - 1])
      && Apart(Pool, Rx)
    }

    constructor ()
      ensures Valid() && Pool == [] && Rx == [] && stopped
      ensures !running && !rxIntEnabled && status == 0 && txSkb == None
    {
      pool, rxHead, rxTail, stopped := null, null, null, true;
      running, rxIntEnabled, status, txSkb := false, false, 0, None;
      Pool, Rx := [], [];
    }

    /** The pool set-up of ldd_create(). */
    method InitPool(packets: array<Packet>)
      requires Valid() && Pool == [] && Rx == []
      requires packets.Length >= 1 && NoRepeats(packets[..])
      modifies this`pool, this`Pool, packets[..]
      ensures Valid() && Pool == packets[..] && Rx == []
    {
      var n := packets.Length;
      ghost var all := packets[..];
      for j := 0 to n
        invariant packets[..] == all
        invariant forall i :: 0 <= i < j ==> all[i].next == Link(all, i)
      {
        assert packets[j] == all[j];
        packets[j].next := if j + 1 < n then packets[j + 1] else null;
      }
      pool := packets[0];
      Pool := all;
    }

    /** ldd_get_tx_buffer(). */
    method GetTxBuffer() returns (pkt: Packet?)
      requires Valid()
      modifies `pool, `Pool, `stopped
      ensures Valid()
      ensures old(Pool) == [] ==> pkt == null && Pool == [] && stopped == old(stopped)
      ensures old(Pool) != [] ==> pkt == old(Pool)[0] && Pool == old(Pool)[1..]
      ensures old(Pool) != [] ==> stopped == (old(stopped) || Pool == [])
      ensures pkt != null ==> pkt !in Pool && pkt !in Rx
    {
      pkt := pool;
      if pkt != null {
        ChainAcyclic(pool, Pool);
        ChainTail(pool, Pool);
        assert pkt in Pool;
        pool := pkt.next;
        Pool := Pool[1..];
        if pool == null {
          stopped := true;
        }
      }
    }

    /** The locked part of ldd_release_buffer(), for a packet of this interface. */
    method ReleaseBuffer(pkt: Packet) returns (wasEmpty: bool)
      requires Valid() && pkt !in Pool && pkt !in Rx
      modifies `pool, `Pool, pkt`next
      ensures Valid() && Pool == [pkt] + old(Pool)
      ensures wasEmpty <==> old(Pool) == []
    {
      wasEmpty := pool == null;
      pkt.next := pool;
      ChainCons(pool, Pool, pkt);
      pool := pkt;
      Pool := [pkt] + Pool;
    }

    /** ldd_rx_dequeue(); the packet keeps its stale `next`. */
    method RxDequeue() returns (pkt: Packet?)
      requires Valid()
      modifies `rxHead, `rxTail, `Rx
      ensures Valid()
      ensures old(Rx) == [] ==> pkt == null && Rx == []
      ensures old(Rx) != [] ==> pkt == old(Rx)[0] && Rx == old(Rx)[1..]
      ensures pkt != null ==> pkt !in Pool && pkt !in Rx
    {
      pkt := rxHead;
      if pkt != null {
        ChainAcyclic(rxHead, Rx);
        ChainTail(rxHead, Rx);
        assert pkt in Rx;
        rxHead := pkt.next;
        Rx := Rx[1..];
        if rxHead == null {
          rxTail := null;
        }
      }
    }

    /** Link `pkt` behind the newest received packet. */
    method Append(pkt: Packet)
      requires Valid() && pkt !in Pool && pkt !in Rx
      modifies `rxHead, `rxTail, `Rx, pkt`next, (if rxTail == null then {} else {rxTail})`next
      ensures Valid() && Rx == old(Rx) + [pkt]
    {
      ChainAcyclic(rxHead, Rx);
      assert rxTail == null || rxTail in Rx;
      ghost var q := Rx + [pkt];
      pkt.next := null;
      if rxTail != null {
        rxTail.next := pkt;
      } else {
        rxHead := pkt;
      }
      rxTail := pkt;
      Rx := q;
      forall i | 0 <= i < |q| ensures q[i].next == Link(q, i) {
        if i + 1 < |q| { assert old(Rx[i].next) == Link(old(Rx), i); }
      }
    }

    /** The locked part of ldd_rx_enqueue(); a frame for a closed interface stays in hand. */
    method RxEnqueue(pkt: Packet) returns (interrupt: bool)
      requires Valid() && pkt !in Pool && pkt !in Rx
      modifies `rxHead, `rxTail, `Rx, `status, pkt`next, (if rxTail == null then {} else {rxTail})`next
      ensures Valid()
      ensures Rx == if running then old(Rx) + [pkt] else old(Rx)
      ensures interrupt <==> running && rxIntEnabled
      ensures status == if interrupt then old(status) | RX_INTR else old(status)
    {
      interrupt := false;
      if running {
        Append(pkt);
        if rxIntEnabled {
          status := status | RX_INTR;
          interrupt := true;
        }
      }
    }

    /** ldd_ack_interrupt(). */
    method AckInterrupt() returns (was: bv16, skb: Option<nat>)
      modifies `status, `txSkb
      ensures was == old(status) && status == 0
      ensures was & TX_INTR != 0 ==> skb == old(txSkb) && txSkb == None
      ensures was & TX_INTR == 0 ==> skb == None && txSkb == old(txSkb)
    {
      was, status, skb := status, 0, None;
      if was & TX_INTR != 0 {
        skb, txSkb := txSkb, None;
      }
    }
  }

  /** The packets of `d` are in its pool, in what its peer received, or in hand; in one of them. */
  ghost predicate Placed(d: LddDev, pool: seq<Packet>, rx: seq<Packet>, hand: set<Packet>, all: set<Packet>) {
    && (forall k :: k in pool ==> k in all && k.dev == d && k !in rx && k !in hand)
    && (forall k :: k in rx ==> k in all && k.dev == d && k !in hand)
    && (forall k :: k in all && k.dev == d ==> k in pool || k in rx || k in hand)
  }

  lemma PlacedOnQueue(d: LddDev, pool: seq<Packet>, rx: seq<Packet>, hand: set<Packet>, all: set<Packet>, pkt: Packet)
    requires Placed(d, pool, rx, hand, all) && pkt in hand && pkt in all
    ensures pkt.dev == d ==> Placed(d, pool, rx + [pkt], hand - {pkt}, all)
    ensures pkt.dev == d ==> Placed(d, [pkt] + pool, rx, hand - {pkt}, all)
    ensures pkt.dev != d ==> Placed(d, pool, rx, hand - {pkt}, all)
  {
  }

  /** Where every packet of the two interfaces is; `hand` holds those the threads have. */
  ghost predicate Conserved(d: LddDev, e: LddDev, hand: set<Packet>, all: set<Packet>)
    reads d, e, d.Pool, d.Rx, e.Pool, e.Rx
  {
    && d != e && d.Valid() && e.Valid() && hand <= all
    && Placed(d, d.Pool, e.Rx, hand, all) && Placed(e, e.Pool, d.Rx, hand, all)
    && forall k :: k in all ==> k.dev == d || k.dev == e
  }

  /** The packets of one interface, as ldd_create() allocates them. */
  method NewPackets(d: LddDev, n: nat) returns (packets: array<Packet>)
    ensures fresh(packets) && packets.Length == n
    ensures forall i :: 0 <= i < n ==> fresh(packets[i]) && packets[i].dev == d && packets[i].id == i
  {
    var list: seq<Packet> := [];
    while |list| < n
      invariant |list| <= n
      invariant forall i :: 0 <= i < |list| ==> fresh(list[i]) && list[i].dev == d && list[i].id == i
    {
      var pkt := new Packet(d, |list|);
      list := list + [pkt];
    }
    packets := new Packet[n](i requires 0 <= i < |list| => list[i]);
  }

  /** The packets of `pool` are those of `d`, in the order of their array. */
  ghost predicate InOrder(d: LddDev, pool: seq<Packet>) {
    forall i :: 0 <= i < |pool| ==> pool[i].dev == d && pool[i].id == i
  }

  /** ldd_create() of one interface; `arr` is its pkt_arr. */
  method Create(n: nat) returns (d: LddDev, arr: seq<Packet>)
    requires n >= 1
    ensures fresh(d) && d.Valid() && d.Pool == arr && |arr| == n && d.Rx == [] && InOrder(d, d.Pool)
    ensures forall k :: k in d.Pool ==> fresh(k)
    ensures !d.running && !d.rxIntEnabled
  {
    d := new LddDev();
    var packets := NewPackets(d, n);
    d.InitPool(packets);
    arr := packets[..];
  }

  lemma NothingMoved(d: LddDev, pool: seq<Packet>, other: seq<Packet>, all: set<Packet>)
    requires (forall k :: k in pool ==> k.dev == d) && forall k :: k in other ==> k.dev != d
    requires all == set k | k in pool + other
    ensures Placed(d, pool, [], {}, all)
  {
  }

  /** Both interfaces after ldd_create(), each with a pool of `n` packets. */
  method CreatePair(n: nat)
    returns (d: LddDev, e: LddDev, ds: seq<Packet>, es: seq<Packet>, ghost all: set<Packet>)
    requires n >= 1
    ensures fresh(d) && fresh(e) && fresh(all)
    ensures Conserved(d, e, {}, all) && d.Pool == ds && e.Pool == es && d.Rx == e.Rx == []
    ensures |ds| == |es| == n && InOrder(d, ds) && InOrder(e, es) && all == set k | k in ds + es
    ensures !d.running && !d.rxIntEnabled && !e.running && !e.rxIntEnabled
  {
    d, ds := Create(n);
    e, es := Create(n);
    all := set k | k in ds + es;
    NothingMoved(d, ds, es, all);
    NothingMoved(e, es, ds, all);
  }

  /** A buffer of `d` into a thread's hand: ldd_get_tx_buffer(). */
  method TakeBuffer(d: LddDev, e: LddDev, ghost hand: set<Packet>, ghost all: set<Packet>) returns (pkt: Packet?)
    requires Conserved(d, e, hand, all)
    modifies d`pool, d`Pool, d`stopped
    ensures Conserved(d, e, if pkt == null then hand else hand + {pkt}, all)
    ensures pkt == null <==> old(d.Pool) == []
    ensures pkt != null ==> pkt == old(d.Pool)[0] && pkt.dev == d && d.Pool == old(d.Pool)[1..]
  {
    pkt := d.GetTxBuffer();
  }

  /** From hand to the queue of the other interface `e`: ldd_rx_enqueue(). */
  method Send(d: LddDev, e: LddDev, pkt: Packet, ghost hand: set<Packet>, ghost all: set<Packet>)
    returns (interrupt: bool)
    requires Conserved(d, e, hand, all) && pkt in hand && pkt.dev == d
    modifies e`rxHead, e`rxTail, e`Rx, e`status, pkt`next, (if e.rxTail == null then {} else {e.rxTail})`next
    ensures Conserved(d, e, if e.running then hand - {pkt} else hand, all)
    ensures e.Rx == if e.running then old(e.Rx) + [pkt] else old(e.Rx)
    ensures interrupt <==> e.running && e.rxIntEnabled
  {
    PlacedOnQueue(d, d.Pool, e.Rx, hand, all, pkt);
    PlacedOnQueue(e, e.Pool, d.Rx, hand, all, pkt);
    assert e.rxTail == null || e.rxTail in e.Rx;
    interrupt := e.RxEnqueue(pkt);
  }

  /** The oldest frame received by `d` into a thread's hand. */
  method Receive(d: LddDev, e: LddDev, ghost hand: set<Packet>, ghost all: set<Packet>) returns (pkt: Packet?)
    requires Conserved(d, e, hand, all)
    modifies d`rxHead, d`rxTail, d`Rx
    ensures Conserved(d, e, if pkt == null then hand else hand + {pkt}, all)
    ensures pkt == null <==> old(d.Rx) == []
    ensures pkt != null ==> pkt == old(d.Rx)[0] && pkt.dev == e && d.Rx == old(d.Rx)[1..]
  {
    pkt := d.RxDequeue();
  }

  /** Back to the pool that `pkt->dev` names: ldd_release_buffer(). */
  method GiveBack(d: LddDev, e: LddDev, pkt: Packet, ghost hand: set<Packet>, ghost all: set<Packet>)
    returns (wasEmpty: bool)
    requires Conserved(d, e, hand, all) && pkt in hand && pkt.dev == d
    modifies d`pool, d`Pool, pkt`next
    ensures Conserved(d, e, hand - {pkt}, all)
    ensures d.Pool == [pkt] + old(d.Pool)
    ensures wasEmpty <==> old(d.Pool) == []
  {
    PlacedOnQueue(d, d.Pool, e.Rx, hand, all, pkt);
    PlacedOnQueue(e, e.Pool, d.Rx, hand, all, pkt);
    wasEmpty := pkt.dev.ReleaseBuffer(pkt);
  }

  /** With nothing queued and nothing in hand, kfree() of a pool's memory frees all its packets. */
  lemma PoolIsWhole(d: LddDev, e: LddDev, all: set<Packet>)
    requires Conserved(d, e, {}, all) && e.Rx == []
    ensures forall k :: k in d.Pool <==> k in all && k.dev == d
    ensures NoRepeats(d.Pool)
  {
    ChainAcyclic(d.pool, d.Pool);
  }
}
