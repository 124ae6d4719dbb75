/**
 Who reports the result of a 25_async_io request: the call itself, or, for an asynchronous
 request whose completion could be deferred, a delayed work item that calls ki_complete().
 */
module AsyncCompletion {
  import opened AsyncRing

  /** A result for the request with number `iocb`. */
  datatype Work = Work(iocb: nat, result: int)

  /** A return value as the system call gives it: bytes, -EFAULT, -ENOSPC or -ERESTARTSYS. */
  function Code(ret: Ret): int {
    match ret
    case Done(n) => n
    case Efault => -14
    case Enospc => -28
    case Erestartsys => -512
  }

  /**
   `calls` and `results` are the requests in the order of submission, when the data moves, and
   what the ring answered; `kinds` says of each whether it was synchronous and whether there was
   memory for a work item.  `returned` went back to the caller, `queued` waits on the workqueue,
   `completed` was handed to ki_complete().
   */
  datatype Requests = Requests(ring: Fifo, calls: seq<Call>, kinds: seq<Kind>, results: seq<int>,
                               returned: seq<Work>, queued: seq<Work>, completed: seq<Work>)

  datatype Kind = Kind(sync: bool, hasMemory: bool)

  datatype Step = Submit(call: Call, sync: bool, hasMemory: bool) | Complete(k: nat)

  const NONE := Requests(EMPTY, [], [], [], [], [], [])

  predicate Enabled(q: Requests, step: Step) {
    Sound(q.ring) && (step.Complete? ==> step.k < |q.queued|)
  }

  /** Work items fire after a delay, in any order. */
  function Next(q: Requests, step: Step): Requests
    requires Enabled(q, step)
  {
    match step
    case Submit(call, sync, hasMemory) =>
      var result := Code(Answer(q.ring, call));
      var work := Work(|q.results|, result);
      var s := q.(ring := AfterCall(q.ring, call), calls := q.calls + [call],
                  kinds := q.kinds + [Kind(sync, hasMemory)], results := q.results + [result]);
      if sync || result < 0 || !hasMemory then s.(returned := q.returned + [work])
      else s.(queued := q.queued + [work])
    case Complete(k) =>
      q.(queued := q.queued[..k] + q.queued[k + 1..], completed := q.completed + [q.queued[k]])
  }

  ghost predicate StepAt(run: seq<Requests>, i: nat) {
    0 < i < |run| && Moves(run[i - 1], run[i])
  }

  ghost predicate Run(run: seq<Requests>) {
    && run != [] && run[0] == NONE
    && forall i :: 0 < i < |run| ==> StepAt(run, i)
  }

  ghost predicate Moves(q: Requests, q': Requests) {
    exists step :: Enabled(q, step) && q' == Next(q, step)
  }

  /** How many results for `iocb` there are in `works`. */
  function Count(works: seq<Work>, iocb: nat): nat {
    if works == [] then 0 else Count(works[1..], iocb) + if works[0].iocb == iocb then 1 else 0
  }

  ghost predicate Right(works: seq<Work>, results: seq<int>) {
    forall i :: 0 <= i < |works| ==> works[i].iocb < |results| && works[i].result == results[works[i].iocb]
  }

  /** The results are what the ring answered to the calls, one after another. */
  ghost predicate RingInv(q: Requests) {
    && q.ring == AfterCalls(EMPTY, q.calls, |q.calls|)
    && |q.results| == |q.calls| == |q.kinds|
    && forall i :: 0 <= i < |q.calls| ==> q.results[i] == Code(Answers(EMPTY, q.calls, |q.calls|)[i])
  }

  /** A completion is put off only for an asynchronous request that succeeded and has a work item. */
  predicate Deferred(kind: Kind, result: int) {
    !kind.sync && result >= 0 && kind.hasMemory
  }

  ghost predicate Sorted(works: seq<Work>, q: Requests, deferred: bool) {
    forall i :: 0 <= i < |works| ==>
      && works[i].iocb < |q.kinds| == |q.results|
      && Deferred(q.kinds[works[i].iocb], q.results[works[i].iocb]) == deferred
  }

  /** Every request has one result, in one place, and it is the right one. */
  ghost predicate Inv(q: Requests) {
    && Sorted(q.returned, q, false) && Sorted(q.queued, q, true) && Sorted(q.completed, q, true)
    && RingInv(q)
    && Right(q.returned, q.results) && Right(q.queued, q.results) && Right(q.completed, q.results)
    && (forall i :: 0 <= i < |q.queued| ==> q.queued[i].result >= 0)
    && forall iocb :: 0 <= iocb < |q.results| ==> Places(q, iocb) == 1
  }

  function Places(q: Requests, iocb: nat): nat {
    Count(q.returned, iocb) + Count(q.queued, iocb) + Count(q.completed, iocb)
  }

  lemma {:induction false} CountConcat(a: seq<Work>, b: seq<Work>, iocb: nat)
    ensures Count(a + b, iocb) == Count(a, iocb) + Count(b, iocb)
  {
    if a == [] {
      assert a + b == b;
    } else {
      assert (a + b)[1..] == a[1..] + b;
      CountConcat(a[1..], b, iocb);
    }
  }

  lemma {:induction false} CountAbsent(works: seq<Work>, iocb: nat)
    requires forall i :: 0 <= i < |works| ==> works[i].iocb != iocb
    ensures Count(works, iocb) == 0
  {
    if works != [] {
      CountAbsent(works[1..], iocb);
    }
  }

  lemma SubmitCounts(q: Requests, step: Step, iocb: nat)
    requires Inv(q) && step.Submit? && Enabled(q, step) && iocb <= |q.results|
    ensures Places(Next(q, step), iocb) == 1
  {
    var work := Work(|q.results|, Code(Answer(q.ring, step.call)));
    CountConcat(q.returned, [work], iocb);
    CountConcat(q.queued, [work], iocb);
    if iocb == |q.results| {
      CountAbsent(q.returned, iocb);
      CountAbsent(q.queued, iocb);
      CountAbsent(q.completed, iocb);
    } else {
      assert Places(q, iocb) == 1;
    }
  }

  lemma CompleteCounts(q: Requests, k: nat, iocb: nat)
    requires Enabled(q, Complete(k))
    ensures Places(Next(q, Complete(k)), iocb) == Places(q, iocb)
  {
    var a, w, b := q.queued[..k], q.queued[k], q.queued[k + 1..];
    assert q.queued == a + ([w] + b);
    CountConcat(a, [w] + b, iocb);
    CountConcat([w], b, iocb);
    CountConcat(a, b, iocb);
    CountConcat(q.completed, [w], iocb);
  }

  lemma {:induction false} MoreCalls(calls: seq<Call>, call: Call, n: nat)
    requires n <= |calls|
    ensures AfterCalls(EMPTY, calls + [call], n) == AfterCalls(EMPTY, calls, n)
    ensures Answers(EMPTY, calls + [call], n) == Answers(EMPTY, calls, n)
  {
    if n > 0 {
      MoreCalls(calls, call, n - 1);
    }
  }

  /** Bytes are reported as they are, and errors as different negative numbers. */
  lemma CodesTellApart(a: Ret, b: Ret)
    ensures a.Done? ==> Code(a) == a.n
    ensures Code(a) < 0 <==> !a.Done?
    ensures Code(a) == Code(b) <==> a == b
    ensures Code(Efault) == -14 && Code(Enospc) == -28 && Code(Erestartsys) == -512
  {
  }

  lemma RingKeeps(q: Requests, step: Step)
    requires RingInv(q) && Enabled(q, step)
    ensures RingInv(Next(q, step))
  {
    if step.Submit? {
      MoreCalls(q.calls, step.call, |q.calls|);
    }
  }

  lemma WorksKeep(q: Requests, step: Step)
    requires Inv(q) && Enabled(q, step)
    ensures var r := Next(q, step);
      && Right(r.returned, r.results) && Right(r.queued, r.results) && Right(r.completed, r.results)
      && Sorted(r.returned, r, false) && Sorted(r.queued, r, true) && Sorted(r.completed, r, true)
      && forall i :: 0 <= i < |r.queued| ==> r.queued[i].result >= 0
  {
  }

  lemma NextKeeps(q: Requests, step: Step)
    requires Inv(q) && Enabled(q, step)
    ensures Inv(Next(q, step))
  {
    RingKeeps(q, step);
    WorksKeep(q, step);
    forall iocb | 0 <= iocb < |Next(q, step).results| ensures Places(Next(q, step), iocb) == 1 {
      if step.Submit? {
        SubmitCounts(q, step, iocb);
      } else {
        CompleteCounts(q, step.k, iocb);
        assert Places(q, iocb) == 1;
      }
    }
  }

  lemma {:induction false} RunKeeps(run: seq<Requests>, i: nat)
    requires Run(run) && i < |run|
    ensures Inv(run[i])
  {
    if i > 0 {
      RunKeeps(run, i - 1);
      assert StepAt(run, i);
      var step :| Enabled(run[i - 1], step) && run[i] == Next(run[i - 1], step);
      NextKeeps(run[i - 1], step);
    }
  }

  lemma {:induction false} CountPresent(works: seq<Work>, iocb: nat) returns (i: nat)
    requires Count(works, iocb) > 0
    ensures i < |works| && works[i].iocb == iocb
  {
    if works[0].iocb == iocb {
      i := 0;
    } else {
      i := CountPresent(works[1..], iocb);
      i := i + 1;
    }
  }

  /**
   Once the workqueue is empty, as destroy_workqueue() waits for, every request has got what the
   ring answered to it exactly once, either from the call or from ki_complete(); and at any time
   no request has got two.
   */
  lemma OneResultEach(run: seq<Requests>, i: nat, iocb: nat)
    requires Run(run) && i < |run| && iocb < |run[i].results|
    ensures var q := run[i];
      && Count(q.returned, iocb) + Count(q.completed, iocb) == 1 - Count(q.queued, iocb) <= 1
      && |q.calls| == |q.results| == |q.kinds|
      && (Count(q.returned, iocb) == 1 <==>
            q.kinds[iocb].sync || q.results[iocb] < 0 || !q.kinds[iocb].hasMemory)
      && (q.queued == [] ==>
            Work(iocb, Code(Answer(AfterCalls(EMPTY, q.calls, iocb), q.calls[iocb]))) in q.returned + q.completed)
  {
    RunKeeps(run, i);
    var q := run[i];
    assert Places(q, iocb) == 1;
    AnswersAt(EMPTY, q.calls, |q.calls|, iocb);
    if Deferred(q.kinds[iocb], q.results[iocb]) {
      CountAbsent(q.returned, iocb);
    } else {
      CountAbsent(q.queued, iocb);
      CountAbsent(q.completed, iocb);
    }
    if q.queued == [] {
      if Count(q.returned, iocb) > 0 {
        var k := CountPresent(q.returned, iocb);
        assert q.returned[k] == Work(iocb, q.results[iocb]);
      } else {
        var k := CountPresent(q.completed, iocb);
        assert q.completed[k] == Work(iocb, q.results[iocb]);
      }
    }
  }
}
