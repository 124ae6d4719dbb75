/**
 The lock-free inbox of ds/llist: any number of producers push with a compare-and-exchange on
 the list head, and one consumer takes the whole list at once and walks it along its pointers,
 until the producers have left.
 */
module Llist {
  import opened Common

  /** The `i`th item that producer `p` allocates. */
  datatype Item = Item(p: nat, i: nat)

  datatype Phase =
    | Idle                         // at the top of its loop
    | Linking(seen: Option<Item>)  // in llist_add(), with the head it saw stored behind the new node
    | Counting                     // found the list empty, atomic_inc(&was_empty) is next
    | Leaving                      // atomic_dec(&producers_left) is next
    | Gone

  /** `n` items pushed so far; `failed` if the producer ran out of memory. */
  datatype Producer = Producer(phase: Phase, n: nat, failed: bool)

  datatype Place =
    | Check                                          // reads producers_left
    | Take(done: bool)                               // llist_del_all()
    | Freeing(done: bool, at: Option<Item>, n: nat)  // free_batch() at an item, `n` freed
    | Test(done: bool)                               // the loop condition
    | Exited

  datatype Consumer = Consumer(place: Place, got: nat, batches: nat)

  /** The list head, the `next` pointers of all nodes, and the two counters. */
  datatype Inbox = Inbox(head: Option<Item>, next: map<Item, Option<Item>>, left: int, wasEmpty: nat)

  /**
   What happened, and what the pointers are meant to spell: the inbox, the batch being freed, the
   items freed so far, and the number of pushes onto an empty list.
   */
  datatype Trace = Trace(list: seq<Item>, batch: seq<Item>, freed: seq<Item>, emptyPushes: nat)

  datatype State = State(producers: seq<Producer>, inbox: Inbox, consumer: Consumer, trace: Trace)

  function Start(n: nat): State {
    State(seq(n, i => Producer(Idle, 0, false)), Inbox(None, map[], n, 0), Consumer(Check, 0, 0),
          Trace([], [], [], 0))
  }

  // ----- Steps

  function SetPhase(s: State, p: nat, phase: Phase): State
    requires p < |s.producers|
  {
    s.(producers := s.producers[p := s.producers[p].(phase := phase)])
  }

  /** The new node points to the head as it is now. */
  function Link(s: State, p: nat): State
    requires p < |s.producers|
  {
    SetPhase(s, p, Linking(s.inbox.head))
      .(inbox := s.inbox.(next := s.inbox.next[Item(p, s.producers[p].n) := s.inbox.head]))
  }

  /** The exchange succeeds; having seen no head is what llist_add() returns. */
  function Push(s: State, p: nat, seen: Option<Item>): State
    requires p < |s.producers|
  {
    var it := Item(p, s.producers[p].n);
    s.(producers := s.producers[p := s.producers[p].(phase := if seen.None? then Counting else Idle,
                                                     n := s.producers[p].n + 1)],
       inbox := s.inbox.(head := Some(it)),
       trace := s.trace.(list := [it] + s.trace.list,
                         emptyPushes := s.trace.emptyPushes + if s.trace.list == [] then 1 else 0))
  }

  /** producer(), which pushes `each` items unless it runs out of memory. */
  ghost predicate ProducerStep(each: nat, s: State, t: State, p: nat)
    requires p < |s.producers|
  {
    var r := s.producers[p];
    match r.phase
    case Idle =>
      if r.n >= each then t == SetPhase(s, p, Leaving)
      else t == Link(s, p) || t == s.(producers := s.producers[p := r.(phase := Leaving, failed := true)])
    case Linking(seen) => t == if s.inbox.head == seen then Push(s, p, seen) else Link(s, p)
    case Counting => t == SetPhase(s, p, Idle).(inbox := s.inbox.(wasEmpty := s.inbox.wasEmpty + 1))
    case Leaving => t == SetPhase(s, p, Gone).(inbox := s.inbox.(left := s.inbox.left - 1))
    case Gone => false
  }

  function Goes(s: State, place: Place): State {
    s.(consumer := s.consumer.(place := place))
  }

  /** The drain loop of llist_demo(); free_batch() reads `next` of an item before it frees it. */
  ghost predicate ConsumerStep(s: State, t: State) {
    match s.consumer.place
    case Check => t == Goes(s, Take(s.inbox.left == 0))
    case Take(done) =>
      t == Goes(s, if s.inbox.head.None? then Test(done) else Freeing(done, s.inbox.head, 0))
             .(inbox := s.inbox.(head := None), trace := s.trace.(list := [], batch := s.trace.list))
    case Freeing(done, at, n) =>
      if at.Some? then
        && at.value in s.inbox.next
        && t == Goes(s, Freeing(done, s.inbox.next[at.value], n + 1))
                  .(trace := s.trace.(batch := if s.trace.batch == [] then [] else s.trace.batch[1..],
                                      freed := s.trace.freed + [at.value]))
      else t == s.(consumer := Consumer(Test(done), s.consumer.got + n, s.consumer.batches + 1))
    case Test(done) => t == Goes(s, if !done || s.inbox.head.Some? then Check else Exited)
    case Exited => false
  }

  ghost predicate Next(each: nat, s: State, t: State) {
    ConsumerStep(s, t) || exists p :: 0 <= p < |s.producers| && ProducerStep(each, s, t, p)
  }

  ghost predicate StepAt(each: nat, run: seq<State>, i: nat) {
    0 < i < |run| && Next(each, run[i - 1], run[i])
  }

  ghost predicate Run(run: seq<State>, n: nat, each: nat) {
    run != [] && run[0] == Start(n) && forall i :: 0 < i < |run| ==> StepAt(each, run, i)
  }

  // ----- Invariants

  /** Producers among the first `k` that have not left. */
  function Live(producers: seq<Producer>, k: nat): nat
    requires k <= |producers|
  {
    if k == 0 then 0 else Live(producers, k - 1) + if producers[k - 1].phase.Gone? then 0 else 1
  }

  /** Items the first `k` producers have pushed. */
  function Pushed(producers: seq<Producer>, k: nat): nat
    requires k <= |producers|
  {
    if k == 0 then 0 else Pushed(producers, k - 1) + producers[k - 1].n
  }

  /** Empty lists found but not yet counted by the first `k` producers. */
  function Uncounted(producers: seq<Producer>, k: nat): nat
    requires k <= |producers|
  {
    if k == 0 then 0 else Uncounted(producers, k - 1) + if producers[k - 1].phase.Counting? then 1 else 0
  }

  function Count(items: seq<Item>, it: Item): nat {
    if items == [] then 0 else Count(items[1..], it) + if items[0] == it then 1 else 0
  }

  predicate WasPushed(s: State, it: Item) {
    it.p < |s.producers| && it.i < s.producers[it.p].n
  }

  /** Every pushed item is in one place, and no other item is anywhere. */
  ghost predicate OnePlace(s: State, it: Item) {
    Count(s.trace.freed, it) + Count(s.trace.batch, it) + Count(s.trace.list, it) ==
    if WasPushed(s, it) then 1 else 0
  }

  ghost predicate ProducersInv(s: State) {
    && s.inbox.left == Live(s.producers, |s.producers|)
    && s.inbox.wasEmpty + Uncounted(s.producers, |s.producers|) == s.trace.emptyPushes
    && |s.trace.freed| + |s.trace.batch| + |s.trace.list| == Pushed(s.producers, |s.producers|)
  }

  ghost predicate ConsumerInv(s: State) {
    var c, list := s.consumer, s.trace.list;
    && s.trace.emptyPushes == c.batches + (if list != [] then 1 else 0) + (if c.place.Freeing? then 1 else 0)
    && |s.trace.freed| == c.got + (if c.place.Freeing? then c.place.n else 0)
    && (!c.place.Freeing? ==> s.trace.batch == [])
    && ((c.place.Take? || c.place.Freeing? || c.place.Test?) && c.place.done ==> s.inbox.left == 0)
    && ((c.place.Freeing? || c.place.Test?) && c.place.done ==> list == [])
    && (c.place.Exited? ==> s.inbox.left == 0 && list == [])
  }

  /** A producer stops at `each` items, or for want of memory. */
  predicate ProducerInv(each: nat, r: Producer) {
    && r.n <= each
    && (r.phase.Linking? ==> r.n < each)
    && (r.phase.Leaving? || r.phase.Gone? ==> r.failed || r.n == each)
  }

  function Behind(items: seq<Item>, i: nat): Option<Item> {
    if i < |items| then Some(items[i]) else None
  }

  /** The nodes from `head` on along `next` are `items`. */
  ghost predicate Chain(head: Option<Item>, next: map<Item, Option<Item>>, items: seq<Item>) {
    && head == Behind(items, 0)
    && forall i :: 0 <= i < |items| ==> items[i] in next && next[items[i]] == Behind(items, i + 1)
  }

  ghost predicate ChainInv(s: State) {
    && Chain(s.inbox.head, s.inbox.next, s.trace.list)
    && (s.consumer.place.Freeing? ==> Chain(s.consumer.place.at, s.inbox.next, s.trace.batch))
  }

  /** A producer that links has its node ready, behind the head it saw. */
  ghost predicate LinkInv(s: State, p: nat)
    requires p < |s.producers|
  {
    var r, it := s.producers[p], Item(p, s.producers[p].n);
    r.phase.Linking? ==> it in s.inbox.next && s.inbox.next[it] == r.phase.seen
  }

  /** Newer items of a producer come before older ones. */
  ghost predicate NewestFirst(items: seq<Item>) {
    forall i, j :: 0 <= i < j < |items| && items[i].p == items[j].p ==> items[i].i > items[j].i
  }

  ghost predicate AllPushed(s: State, items: seq<Item>) {
    forall i :: 0 <= i < |items| ==> WasPushed(s, items[i])
  }

  ghost predicate OrderInv(s: State) {
    NewestFirst(s.trace.list) && NewestFirst(s.trace.batch) && AllPushed(s, s.trace.list) && AllPushed(s, s.trace.batch)
  }

  ghost predicate Inv(each: nat, s: State) {
    && ProducersInv(s) && ConsumerInv(s) && ChainInv(s) && OrderInv(s)
    && (forall p :: 0 <= p < |s.producers| ==> ProducerInv(each, s.producers[p]))
    && (forall p :: 0 <= p < |s.producers| ==> LinkInv(s, p))
    && forall it :: OnePlace(s, it)
  }

  function One(b: bool): nat {
    if b then 1 else 0
  }

  lemma {:induction false} Replaced(producers: seq<Producer>, p: nat, q: Producer, k: nat)
    requires p < |producers| && k <= |producers|
    ensures Live(producers[p := q], k) ==
      Live(producers, k) + if p < k then One(!q.phase.Gone?) - One(!producers[p].phase.Gone?) else 0
    ensures Pushed(producers[p := q], k) == Pushed(producers, k) + if p < k then q.n - producers[p].n else 0
    ensures Uncounted(producers[p := q], k) ==
      Uncounted(producers, k) + if p < k then One(q.phase.Counting?) - One(producers[p].phase.Counting?) else 0
    decreases k
  {
    if k > 0 {
      Replaced(producers, p, q, k - 1);
    }
  }

  lemma {:induction false} LiveOne(producers: seq<Producer>, p: nat, k: nat)
    requires p < k <= |producers| && !producers[p].phase.Gone?
    ensures Live(producers, k) > 0
    decreases k
  {
    if p < k - 1 {
      LiveOne(producers, p, k - 1);
    }
  }

  lemma ProducerKeepsProducers(each: nat, s: State, t: State, p: nat)
    requires ProducersInv(s) && ChainInv(s) && p < |s.producers| && ProducerStep(each, s, t, p)
    ensures ProducersInv(t)
  {
    Replaced(s.producers, p, t.producers[p], |s.producers|);
  }

  lemma ProducerKeepsConsumer(each: nat, s: State, t: State, p: nat)
    requires ProducersInv(s) && ConsumerInv(s) && p < |s.producers| && ProducerStep(each, s, t, p)
    ensures ConsumerInv(t)
  {
    LiveOne(s.producers, p, |s.producers|);
  }

  lemma ProducerKeepsItem(each: nat, s: State, t: State, p: nat, it: Item)
    requires p < |s.producers| && ProducerStep(each, s, t, p) && OnePlace(s, it)
    ensures OnePlace(t, it)
  {
    var list := s.trace.list;
    assert ([Item(p, s.producers[p].n)] + list)[1..] == list;
  }

  /** A node that is not on a chain may be relinked. */
  lemma ChainLeaves(head: Option<Item>, next: map<Item, Option<Item>>, items: seq<Item>, it: Item, to: Option<Item>)
    requires Chain(head, next, items) && it !in items
    ensures Chain(head, next[it := to], items)
  {
  }

  lemma ChainPush(head: Option<Item>, next: map<Item, Option<Item>>, items: seq<Item>, it: Item)
    requires Chain(head, next, items) && it in next && next[it] == head
    ensures Chain(Some(it), next, [it] + items)
  {
    var all := [it] + items;
    forall i | 0 <= i < |all| ensures all[i] in next && next[all[i]] == Behind(all, i + 1) {
      if i > 0 {
        assert all[i] == items[i - 1];
      }
    }
  }

  lemma ChainRest(head: Option<Item>, next: map<Item, Option<Item>>, items: seq<Item>)
    requires Chain(head, next, items) && head.Some?
    ensures items != [] && head.value == items[0] && head.value in next && Chain(next[head.value], next, items[1..])
  {
    forall i | 0 <= i < |items| - 1 ensures next[items[1..][i]] == Behind(items[1..], i + 1) {
      assert items[1..][i] == items[i + 1];
    }
  }

  /** The item that a producer works on is not yet anywhere. */
  lemma NewIsNowhere(s: State, p: nat)
    requires p < |s.producers| && OrderInv(s)
    ensures Item(p, s.producers[p].n) !in s.trace.list && Item(p, s.producers[p].n) !in s.trace.batch
  {
  }

  lemma ProducerKeepsChains(each: nat, s: State, t: State, p: nat)
    requires p < |s.producers| && ProducerStep(each, s, t, p) && ChainInv(s) && OrderInv(s) && LinkInv(s, p)
    ensures ChainInv(t)
  {
    var it, next := Item(p, s.producers[p].n), s.inbox.next;
    NewIsNowhere(s, p);
    ChainLeaves(s.inbox.head, next, s.trace.list, it, s.inbox.head);
    if s.consumer.place.Freeing? {
      ChainLeaves(s.consumer.place.at, next, s.trace.batch, it, s.inbox.head);
    }
    if s.producers[p].phase.Linking? && s.inbox.head == s.producers[p].phase.seen {
      ChainPush(s.inbox.head, next, s.trace.list, it);
    }
  }

  lemma ProducerKeepsLinks(each: nat, s: State, t: State, p: nat, k: nat)
    requires p < |s.producers| && ProducerStep(each, s, t, p) && k < |s.producers| && LinkInv(s, k)
    ensures k < |t.producers| && LinkInv(t, k)
  {
  }

  lemma ProducerKeepsOrder(each: nat, s: State, t: State, p: nat)
    requires p < |s.producers| && ProducerStep(each, s, t, p) && OrderInv(s)
    ensures OrderInv(t)
  {
  }

  lemma ConsumerKeeps(s: State, t: State)
    requires ProducersInv(s) && ConsumerInv(s) && ChainInv(s) && ConsumerStep(s, t)
    ensures ProducersInv(t) && ConsumerInv(t)
  {
    if s.consumer.place.Freeing? && s.consumer.place.at.Some? {
      ChainRest(s.consumer.place.at, s.inbox.next, s.trace.batch);
    }
  }

  lemma ConsumerKeepsChains(s: State, t: State)
    requires ConsumerInv(s) && ChainInv(s) && OrderInv(s) && ConsumerStep(s, t)
    ensures ChainInv(t) && OrderInv(t)
  {
    if s.consumer.place.Freeing? && s.consumer.place.at.Some? {
      ChainRest(s.consumer.place.at, s.inbox.next, s.trace.batch);
    }
  }

  lemma {:induction false} CountMore(items: seq<Item>, x: Item, it: Item)
    ensures Count(items + [x], it) == Count(items, it) + One(x == it)
  {
    if items == [] {
      assert items + [x] == [x];
    } else {
      assert (items + [x])[1..] == items[1..] + [x];
      CountMore(items[1..], x, it);
    }
  }

  lemma ConsumerKeepsItem(s: State, t: State, it: Item)
    requires ConsumerInv(s) && ChainInv(s) && ConsumerStep(s, t) && OnePlace(s, it)
    ensures OnePlace(t, it)
  {
    if s.consumer.place.Freeing? && s.consumer.place.at.Some? {
      ChainRest(s.consumer.place.at, s.inbox.next, s.trace.batch);
      CountMore(s.trace.freed, s.trace.batch[0], it);
    }
  }

  lemma ConsumerStepKeeps(each: nat, s: State, t: State)
    requires Inv(each, s) && ConsumerStep(s, t)
    ensures Inv(each, t) && |t.producers| == |s.producers|
  {
    ConsumerKeeps(s, t);
    ConsumerKeepsChains(s, t);
    forall p | 0 <= p < |t.producers| ensures LinkInv(t, p) {
      assert LinkInv(s, p);
    }
    forall it ensures OnePlace(t, it) {
      assert OnePlace(s, it);
      ConsumerKeepsItem(s, t, it);
    }
  }

  lemma ProducerStepKeeps(each: nat, s: State, t: State, p: nat)
    requires Inv(each, s) && p < |s.producers| && ProducerStep(each, s, t, p)
    ensures Inv(each, t) && |t.producers| == |s.producers|
  {
    ProducerKeepsProducers(each, s, t, p);
    ProducerKeepsConsumer(each, s, t, p);
    assert LinkInv(s, p);
    ProducerKeepsChains(each, s, t, p);
    ProducerKeepsOrder(each, s, t, p);
    forall k | 0 <= k < |t.producers| ensures LinkInv(t, k) {
      assert LinkInv(s, k);
      ProducerKeepsLinks(each, s, t, p, k);
    }
    forall it ensures OnePlace(t, it) {
      assert OnePlace(s, it);
      ProducerKeepsItem(each, s, t, p, it);
    }
  }

  lemma NextKeeps(each: nat, s: State, t: State)
    requires Inv(each, s) && Next(each, s, t)
    ensures Inv(each, t) && |t.producers| == |s.producers|
  {
    if ConsumerStep(s, t) {
      ConsumerStepKeeps(each, s, t);
    } else {
      var p :| 0 <= p < |s.producers| && ProducerStep(each, s, t, p);
      ProducerStepKeeps(each, s, t, p);
    }
  }

  lemma {:induction false} AtStart(n: nat, k: nat)
    requires k <= n
    ensures var producers := Start(n).producers;
      Live(producers, k) == k && Pushed(producers, k) == 0 && Uncounted(producers, k) == 0
  {
    if k > 0 {
      AtStart(n, k - 1);
    }
  }

  lemma {:induction false} RunKeeps(run: seq<State>, n: nat, each: nat, i: nat)
    requires Run(run, n, each) && i < |run|
    ensures Inv(each, run[i]) && |run[i].producers| == n
  {
    if i == 0 {
      AtStart(n, n);
    } else {
      RunKeeps(run, n, each, i - 1);
      assert StepAt(each, run, i);
      NextKeeps(each, run[i - 1], run[i]);
    }
  }

  lemma {:induction false} AllGone(producers: seq<Producer>, k: nat)
    requires k <= |producers| && Live(producers, k) == 0
    ensures Uncounted(producers, k) == 0
    ensures forall p :: 0 <= p < k ==> producers[p].phase.Gone?
  {
    if k > 0 {
      AllGone(producers, k - 1);
    }
  }

  // ----- What the drain promises

  /** At no time has an item been freed twice, or one that was never pushed. */
  lemma NeverFreedTwice(run: seq<State>, n: nat, each: nat, i: nat, it: Item)
    requires Run(run, n, each) && i < |run|
    ensures Count(run[i].trace.freed, it) <= if WasPushed(run[i], it) then 1 else 0
  {
    RunKeeps(run, n, each, i);
    assert OnePlace(run[i], it);
  }

  lemma {:induction false} CountSome(items: seq<Item>, it: Item)
    ensures Count(items, it) > 0 <==> it in items
  {
    if items != [] {
      CountSome(items[1..], it);
      assert items == [items[0]] + items[1..];
    }
  }

  /** The consumer never follows the pointer of an item that it has freed, and the walk has one to follow. */
  lemma NeverUsedAfterFree(run: seq<State>, n: nat, each: nat, i: nat)
    requires Run(run, n, each) && i < |run|
    requires run[i].consumer.place.Freeing? && run[i].consumer.place.at.Some?
    ensures var s, it := run[i], run[i].consumer.place.at.value;
      it !in s.trace.freed && it in s.inbox.next && WasPushed(s, it)
  {
    RunKeeps(run, n, each, i);
    var s, it := run[i], run[i].consumer.place.at.value;
    ChainRest(Some(it), s.inbox.next, s.trace.batch);
    assert OnePlace(s, it);
    CountSome(s.trace.batch, it);
    CountSome(s.trace.freed, it);
  }

  /** A batch has each producer's items newest first, and the pointers lead through all of it. */
  lemma BatchIsNewestFirst(run: seq<State>, n: nat, each: nat, i: nat)
    requires Run(run, n, each) && i < |run|
    ensures NewestFirst(run[i].trace.list) && Chain(run[i].inbox.head, run[i].inbox.next, run[i].trace.list)
    ensures run[i].consumer.place.Freeing? ==>
      NewestFirst(run[i].trace.batch) && Chain(run[i].consumer.place.at, run[i].inbox.next, run[i].trace.batch)
  {
    RunKeeps(run, n, each, i);
  }

  /**
   When the loop has ended, the producers have left, every item they pushed has been freed
   exactly once, `got` is their number, and the batches are as many as the pushes that found
   the list empty, which `was_empty` counted.
   */
  lemma DrainIsComplete(run: seq<State>, n: nat, each: nat, i: nat)
    requires Run(run, n, each) && i < |run| && run[i].consumer.place.Exited?
    ensures var s := run[i];
      && |s.producers| == n
      && (forall p :: 0 <= p < n ==> s.producers[p].phase.Gone?)
      && (forall it :: Count(s.trace.freed, it) == if WasPushed(s, it) then 1 else 0)
      && s.consumer.got == |s.trace.freed| == Pushed(s.producers, n)
      && s.consumer.batches == s.trace.emptyPushes == s.inbox.wasEmpty
  {
    RunKeeps(run, n, each, i);
    var s := run[i];
    AllGone(s.producers, n);
    forall it ensures Count(s.trace.freed, it) == if WasPushed(s, it) then 1 else 0 {
      assert OnePlace(s, it);
    }
  }

  lemma {:induction false} PushedAll(producers: seq<Producer>, k: nat, each: nat)
    requires k <= |producers| && forall p :: 0 <= p < k ==> producers[p].n <= each
    ensures Pushed(producers, k) <= k * each
    ensures Pushed(producers, k) == k * each <==> forall p :: 0 <= p < k ==> producers[p].n == each
  {
    if k > 0 {
      PushedAll(producers, k - 1, each);
      assert k * each == (k - 1) * each + each;
    }
  }

  /** The final check passes exactly when every producer pushed all its items, as each does that finds memory. */
  lemma FinalCheck(run: seq<State>, n: nat, each: nat, i: nat)
    requires Run(run, n, each) && i < |run| && run[i].consumer.place.Exited?
    ensures |run[i].producers| == n
    ensures run[i].consumer.got == n * each <==> forall p :: 0 <= p < n ==> run[i].producers[p].n == each
    ensures (forall p :: 0 <= p < n ==> !run[i].producers[p].failed) ==> run[i].consumer.got == n * each
  {
    RunKeeps(run, n, each, i);
    DrainIsComplete(run, n, each, i);
    PushedAll(run[i].producers, n, each);
  }

  lemma ConsumerGoesOn(s: State)
    requires ChainInv(s) && !s.consumer.place.Exited?
    ensures exists t :: ConsumerStep(s, t)
  {
    match s.consumer.place {
      case Check => assert ConsumerStep(s, Goes(s, Take(s.inbox.left == 0)));
      case Take(done) =>
        assert ConsumerStep(s, Goes(s, if s.inbox.head.None? then Test(done) else Freeing(done, s.inbox.head, 0))
                                 .(inbox := s.inbox.(head := None),
                                   trace := s.trace.(list := [], batch := s.trace.list)));
      case Freeing(done, at, k) =>
        if at.Some? {
          ChainRest(at, s.inbox.next, s.trace.batch);
          assert ConsumerStep(s, Goes(s, Freeing(done, s.inbox.next[at.value], k + 1))
                                   .(trace := s.trace.(batch := s.trace.batch[1..],
                                                       freed := s.trace.freed + [at.value])));
        } else {
          assert ConsumerStep(s, s.(consumer := Consumer(Test(done), s.consumer.got + k, s.consumer.batches + 1)));
        }
      case Test(done) => assert ConsumerStep(s, Goes(s, if !done || s.inbox.head.Some? then Check else Exited));
    }
  }

  lemma ProducerGoesOn(each: nat, s: State, p: nat)
    requires p < |s.producers| && !s.producers[p].phase.Gone?
    ensures exists t :: ProducerStep(each, s, t, p)
  {
    var r := s.producers[p];
    match r.phase {
      case Idle => assert ProducerStep(each, s, if r.n >= each then SetPhase(s, p, Leaving) else Link(s, p), p);
      case Linking(seen) =>
        assert ProducerStep(each, s, if s.inbox.head == seen then Push(s, p, seen) else Link(s, p), p);
      case Counting =>
        assert ProducerStep(each, s, SetPhase(s, p, Idle).(inbox := s.inbox.(wasEmpty := s.inbox.wasEmpty + 1)), p);
      case Leaving =>
        assert ProducerStep(each, s, SetPhase(s, p, Gone).(inbox := s.inbox.(left := s.inbox.left - 1)), p);
    }
  }

  /** Until the loop has ended, the consumer can go on, and so can every producer that has not left. */
  lemma NobodyIsStuck(run: seq<State>, n: nat, each: nat, i: nat, p: nat)
    requires Run(run, n, each) && i < |run| && p < n
    ensures |run[i].producers| == n
    ensures !run[i].consumer.place.Exited? ==> exists t :: ConsumerStep(run[i], t)
    ensures !run[i].producers[p].phase.Gone? ==> exists t :: ProducerStep(each, run[i], t, p)
  {
    RunKeeps(run, n, each, i);
    if !run[i].consumer.place.Exited? {
      ConsumerGoesOn(run[i]);
    }
    if !run[i].producers[p].phase.Gone? {
      ProducerGoesOn(each, run[i], p);
    }
  }
}
