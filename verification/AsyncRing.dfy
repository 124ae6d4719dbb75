/** The ring buffer of 25_async_io: a byte queue in a fixed array. */
module AsyncRing {

  type Bytes = seq<bv8>

  const BUFF_SIZE := 4096

  datatype Ret = Done(n: nat) | Efault | Enospc | Erestartsys

  function Min(a: nat, b: nat): nat {
    if a <= b then a else b
  }

  /** Where the ring goes on behind its last cell. */
  function Wrap(x: nat): nat
    requires x < 2 * BUFF_SIZE
  {
    if x < BUFF_SIZE then x else x - BUFF_SIZE
  }

  lemma WrapIsModulo(x: nat)
    requires x < 2 * BUFF_SIZE
    ensures Wrap(x) == x % BUFF_SIZE
  {
  }

  /** The cells from `at` on, around the end, hold `contents`. */
  ghost predicate Holds(cells: Bytes, at: nat, contents: Bytes) {
    && |cells| == BUFF_SIZE && at < BUFF_SIZE && |contents| <= BUFF_SIZE
    && forall i :: 0 <= i < |contents| ==> contents[i] == cells[Wrap(at + i)]
  }

  lemma Taken(cells: Bytes, at: nat, contents: Bytes, done: nat)
    requires Holds(cells, at, contents) && done <= Min(BUFF_SIZE - at, |contents|)
    ensures cells[at..at + done] == contents[..done]
    ensures Holds(cells, Wrap(at + done), contents[done..])
  {
    forall i | 0 <= i < |contents| - done ensures contents[done..][i] == cells[Wrap(Wrap(at + done) + i)] {
      assert Wrap(Wrap(at + done) + i) == Wrap(at + (done + i));
    }
  }

  /** Cells behind the contents may be overwritten; the first `|data|` of them join the contents. */
  lemma Added(cells: Bytes, cells': Bytes, at: nat, contents: Bytes, data: Bytes, want: nat)
    requires Holds(cells, at, contents) && |cells'| == BUFF_SIZE && |data| <= want
    requires want <= Min(BUFF_SIZE - Wrap(at + |contents|), BUFF_SIZE - |contents|)
    requires forall k :: 0 <= k < BUFF_SIZE && !(Wrap(at + |contents|) <= k < Wrap(at + |contents|) + want) ==>
      cells'[k] == cells[k]
    requires forall k :: 0 <= k < |data| ==> data[k] == cells'[Wrap(at + |contents|) + k]
    ensures Holds(cells', at, contents + data)
  {
    var end := Wrap(at + |contents|);
    forall i | 0 <= i < |contents + data| ensures (contents + data)[i] == cells'[Wrap(at + i)] {
      if i >= |contents| {
        assert data[i - |contents|] == cells'[end + (i - |contents|)];
      }
    }
  }

  /** What a copy of `want` bytes to or from the user comes to when only `granted` can be copied. */
  function CopyResult(want: nat, granted: nat): Ret {
    var done := Min(want, granted);
    if want > 0 && done == 0 then Efault else Done(done)
  }

  datatype Call = Read(count: nat, granted: nat, signal: bool) | Write(from: Bytes, granted: nat, signal: bool)

  /** The queue, and where in the array it starts; how much one call moves depends on both. */
  datatype Fifo = Fifo(contents: Bytes, readCur: nat)

  const EMPTY := Fifo([], 0)

  predicate Sound(f: Fifo) {
    |f.contents| <= BUFF_SIZE && f.readCur < BUFF_SIZE
  }

  /** What a call returns. */
  function Answer(f: Fifo, call: Call): Ret
    requires Sound(f)
  {
    var len := |f.contents|;
    if call.signal then Erestartsys
    else match call
      case Read(count, granted, _) => CopyResult(Min(Min(BUFF_SIZE - f.readCur, len), count), granted)
      case Write(from, granted, _) =>
        if len == BUFF_SIZE then Enospc
        else CopyResult(Min(Min(BUFF_SIZE - Wrap(f.readCur + len), BUFF_SIZE - len), |from|), granted)
  }

  /** The queue behind a call: only what it returns was removed or appended. */
  function AfterCall(f: Fifo, call: Call): (g: Fifo)
    requires Sound(f)
    ensures Sound(g)
  {
    var ret := Answer(f, call);
    if !ret.Done? then f
    else match call
      case Read(_, _, _) => Fifo(f.contents[ret.n..], Wrap(f.readCur + ret.n))
      case Write(from, _, _) => Fifo(f.contents + from[..ret.n], f.readCur)
  }

  /** The queue behind the first `n` calls. */
  function AfterCalls(f: Fifo, calls: seq<Call>, n: nat): (g: Fifo)
    requires Sound(f) && n <= |calls|
    ensures Sound(g)
  {
    if n == 0 then f else AfterCall(AfterCalls(f, calls, n - 1), calls[n - 1])
  }

  /** What a call put into the ring, and what it took out. */
  function StoredBy(f: Fifo, call: Call): Bytes
    requires Sound(f)
  {
    var ret := Answer(f, call);
    if call.Write? && ret.Done? then call.from[..ret.n] else []
  }

  function TakenBy(f: Fifo, call: Call): Bytes
    requires Sound(f)
  {
    var ret := Answer(f, call);
    if call.Read? && ret.Done? then f.contents[..ret.n] else []
  }

  function AllStored(f: Fifo, calls: seq<Call>, n: nat): Bytes
    requires Sound(f) && n <= |calls|
  {
    if n == 0 then [] else AllStored(f, calls, n - 1) + StoredBy(AfterCalls(f, calls, n - 1), calls[n - 1])
  }

  function AllTaken(f: Fifo, calls: seq<Call>, n: nat): Bytes
    requires Sound(f) && n <= |calls|
  {
    if n == 0 then [] else AllTaken(f, calls, n - 1) + TakenBy(AfterCalls(f, calls, n - 1), calls[n - 1])
  }

  /** What the first `n` calls return. */
  function Answers(f: Fifo, calls: seq<Call>, n: nat): (rets: seq<Ret>)
    requires Sound(f) && n <= |calls|
    ensures |rets| == n
  {
    if n == 0 then [] else Answers(f, calls, n - 1) + [Answer(AfterCalls(f, calls, n - 1), calls[n - 1])]
  }

  lemma {:induction false} AnswersAt(f: Fifo, calls: seq<Call>, n: nat, i: nat)
    requires Sound(f) && i < n <= |calls|
    ensures Answers(f, calls, n)[i] == Answer(AfterCalls(f, calls, i), calls[i])
    decreases n
  {
    if i < n - 1 {
      AnswersAt(f, calls, n - 1, i);
    }
  }

  lemma OneMore(f: Fifo, calls: seq<Call>, n: nat)
    requires Sound(f) && 0 < n <= |calls|
    ensures var g := AfterCalls(f, calls, n - 1);
      && AfterCalls(f, calls, n) == AfterCall(g, calls[n - 1])
      && Answers(f, calls, n) == Answers(f, calls, n - 1) + [Answer(g, calls[n - 1])]
      && AllTaken(f, calls, n) == AllTaken(f, calls, n - 1) + TakenBy(g, calls[n - 1])
  {
  }

  lemma OneCallKeeps(f: Fifo, call: Call)
    requires Sound(f)
    ensures f.contents + StoredBy(f, call) == TakenBy(f, call) + AfterCall(f, call).contents
  {
  }

  /** Over any run of calls, whatever each of them is granted, the bytes come out as they went in. */
  lemma {:induction false} InOrderOut(f: Fifo, calls: seq<Call>, n: nat)
    requires Sound(f) && n <= |calls|
    ensures f.contents + AllStored(f, calls, n) == AllTaken(f, calls, n) + AfterCalls(f, calls, n).contents
    decreases n
  {
    if n > 0 {
      InOrderOut(f, calls, n - 1);
      var g := AfterCalls(f, calls, n - 1);
      OneCallKeeps(g, calls[n - 1]);
      Regroup(f.contents, AllStored(f, calls, n - 1), AllTaken(f, calls, n - 1), g.contents,
              StoredBy(g, calls[n - 1]), TakenBy(g, calls[n - 1]), AfterCalls(f, calls, n).contents);
    }
  }

  lemma Regroup(start: Bytes, stored: Bytes, taken: Bytes, was: Bytes, more: Bytes, out: Bytes, contents: Bytes)
    requires start + stored == taken + was && was + more == out + contents
    ensures start + (stored + more) == taken + out + contents
  {
    assert start + (stored + more) == start + stored + more;
    assert taken + was + more == taken + (was + more);
    assert taken + (out + contents) == taken + out + contents;
  }

  class Ring {
    const buff: array<bv8>
    var len: nat
    var readCur: nat
    var writeCur: nat

    /** The queue that the ring stands for. */
    ghost var contents: Bytes

    ghost predicate Valid()
      reads this, buff
    {
      && buff.Length == BUFF_SIZE && len <= BUFF_SIZE && readCur < BUFF_SIZE
      && writeCur == Wrap(readCur + len)
      && |contents| == len
      && Holds(buff[..], readCur, contents)
    }

    ghost function View(): Fifo
      reads this
    {
      Fifo(contents, readCur)
    }

    constructor ()
      ensures Valid() && View() == EMPTY && fresh(buff)
    {
      buff := new bv8[BUFF_SIZE];
      len, readCur, writeCur, contents := 0, 0, 0, [];
    }

    /**
     Take up to `count` bytes, of which the user's memory takes `granted`. A signal while
     waiting for the mutex ends the call before anything is looked at.
     */
    method DoRead(count: nat, granted: nat, signal: bool) returns (ret: Ret, out: Bytes)
      requires Valid()
      modifies this`len, this`readCur, this`contents
      ensures Valid()
      ensures ret == if signal then Erestartsys
                     else CopyResult(Min(Min(BUFF_SIZE - old(readCur), old(len)), count), granted)
      ensures ret == Efault <==> !signal && old(len) > 0 && count > 0 && granted == 0
      ensures ret != Erestartsys && granted > 0 && count > 0 && old(len) > 0 ==> ret.Done? && ret.n > 0
      ensures ret.Done? ==> ret.n <= old(len) && old(contents) == out + contents && |out| == ret.n
      ensures ret.Done? ==> readCur == Wrap(old(readCur) + ret.n)
      ensures !ret.Done? ==> out == [] && contents == old(contents) && readCur == old(readCur)
    {
      if signal {
        return Erestartsys, [];
      }
      var want := Min(Min(BUFF_SIZE - readCur, len), count);
      var done := Min(want, granted);
      if want > 0 && done == 0 {
        return Efault, [];
      }
      out := Remove(done);
      ret := Done(done);
    }

    /** The end of async_io_do_read(). */
    method Remove(done: nat) returns (out: Bytes)
      requires Valid() && done <= Min(BUFF_SIZE - readCur, len)
      modifies this`len, this`readCur, this`contents
      ensures Valid() && old(contents) == out + contents && |out| == done && readCur == Wrap(old(readCur) + done)
    {
      out := buff[readCur..readCur + done];
      Taken(buff[..], readCur, contents, done);
      WrapIsModulo(readCur + done);
      assert contents == out + contents[done..];
      contents := contents[done..];
      readCur, len := (readCur + done) % BUFF_SIZE, len - done;
    }

    /**
     Store what fits of `from`, of which `granted` bytes can be read. Cells behind the bytes
     that were copied, up to the ones asked for, are left with anything.
     */
    method DoWrite(from: Bytes, granted: nat, junk: nat -> bv8, signal: bool) returns (ret: Ret)
      requires Valid()
      modifies this`len, this`writeCur, this`contents, buff
      ensures Valid()
      ensures ret == if signal then Erestartsys
                     else if old(len) == BUFF_SIZE then Enospc
                     else CopyResult(Min(Min(BUFF_SIZE - old(writeCur), BUFF_SIZE - old(len)), |from|), granted)
      ensures ret == Enospc <==> !signal && old(len) == BUFF_SIZE
      ensures ret == Efault <==> !signal && old(len) < BUFF_SIZE && from != [] && granted == 0
      ensures !signal && old(len) < BUFF_SIZE && from != [] && granted > 0 ==> ret.Done? && ret.n > 0
      ensures ret.Done? ==> ret.n <= |from| && contents == old(contents) + from[..ret.n]
      ensures ret.Done? ==> writeCur == Wrap(old(writeCur) + ret.n)
      ensures !ret.Done? ==> contents == old(contents) && writeCur == old(writeCur)
    {
      if signal {
        return Erestartsys;
      }
      if len == BUFF_SIZE {
        return Enospc;
      }
      var want := Min(Min(BUFF_SIZE - writeCur, BUFF_SIZE - len), |from|);
      var done := Min(want, granted);
      CopyFrom(from, want, done, junk);
      if want > 0 && done == 0 {
        return Efault;
      }
      WrapIsModulo(writeCur + done);
      contents := contents + from[..done];
      writeCur, len := (writeCur + done) % BUFF_SIZE, len + done;
      assert writeCur == Wrap(readCur + len);
      ret := Done(done);
    }

    /** copy_from_iter() into the free cells. */
    method CopyFrom(from: Bytes, want: nat, done: nat, junk: nat -> bv8)
      requires Valid() && done <= want <= Min(Min(BUFF_SIZE - writeCur, BUFF_SIZE - len), |from|)
      modifies buff
      ensures Valid() && Holds(buff[..], readCur, contents + from[..done])
    {
      ghost var cells := buff[..];
      forall k | 0 <= k < want {
        buff[writeCur + k] := if k < done then from[k] else junk(k);
      }
      forall k | 0 <= k < done ensures from[..done][k] == buff[..][writeCur + k] {
        assert buff[writeCur + k] == from[k];
      }
      Added(cells, buff[..], readCur, contents, from[..done], want);
      Added(cells, buff[..], readCur, contents, [], want);
      assert contents + [] == contents;
    }
  }

  /** Two reads that ask for everything, with nothing between them, empty the ring. */
  method TwoReads(r: Ring, count: nat) returns (a: Bytes, b: Bytes)
    requires r.Valid() && count >= BUFF_SIZE
    modifies r`len, r`readCur, r`contents
    ensures r.Valid() && r.contents == [] && a + b == old(r.contents)
  {
    var ret;
    ret, a := r.DoRead(count, count, false);
    ret, b := r.DoRead(count, count, false);
  }

  /** Two writes store the whole of what fits in the ring, wherever it wraps. */
  method TwoWrites(r: Ring, from: Bytes, junk: nat -> bv8)
    requires r.Valid() && 0 < |from| <= BUFF_SIZE - r.len
    modifies r`len, r`writeCur, r`contents, r.buff
    ensures r.Valid() && r.contents == old(r.contents) + from
  {
    var ret := r.DoWrite(from, |from|, junk, false);
    var n := ret.n;
    if n < |from| {
      ret := r.DoWrite(from[n..], |from| - n, junk, false);
      assert from[..n] + from[n..] == from;
    }
  }

  /** One call does what Answer(), TakenBy() and AfterCall() say. */
  method Perform(r: Ring, call: Call, junk: nat -> bv8) returns (ret: Ret, out: Bytes)
    requires r.Valid()
    modifies r`len, r`readCur, r`writeCur, r`contents, r.buff
    ensures r.Valid() && ret == Answer(old(r.View()), call) && r.View() == AfterCall(old(r.View()), call)
    ensures out == TakenBy(old(r.View()), call)
  {
    out := [];
    match call
    case Read(count, granted, signal) =>
      ret, out := r.DoRead(count, granted, signal);
      assert ret.Done? ==> r.contents == old(r.contents)[ret.n..] && out == old(r.contents)[..ret.n];
    case Write(from, granted, signal) =>
      ret := r.DoWrite(from, granted, junk, signal);
  }

  /** Any run of calls. */
  method Serve(r: Ring, calls: seq<Call>, junk: nat -> bv8) returns (taken: Bytes, rets: seq<Ret>)
    requires r.Valid()
    modifies r`len, r`readCur, r`writeCur, r`contents, r.buff
    ensures r.Valid() && r.View() == AfterCalls(old(r.View()), calls, |calls|)
    ensures taken == AllTaken(old(r.View()), calls, |calls|)
    ensures rets == Answers(old(r.View()), calls, |calls|)
    ensures old(r.contents) + AllStored(old(r.View()), calls, |calls|) == taken + r.contents
  {
    ghost var start := r.View();
    taken, rets := [], [];
    while |rets| < |calls|
      invariant r.Valid() && |rets| <= |calls| && rets == Answers(start, calls, |rets|)
      invariant r.View() == AfterCalls(start, calls, |rets|) && taken == AllTaken(start, calls, |rets|)
    {
      var ret, out := Perform(r, calls[|rets|], junk);
      OneMore(start, calls, |rets| + 1);
      taken, rets := taken + out, rets + [ret];
    }
    InOrderOut(start, calls, |calls|);
  }
}
