/**
 The hand-written sleep of examples/09_pipe_advanced_sleep/fops.c: any number of readers and
 writers around an 8-byte buffer.  One step for each section that others cannot see inside;
 `buff_len` is tested without the mutex, so its store and the wake-up that follows are
 separate steps.
 */
module Pipe {
  import opened Common

  const BUFF_SIZE := 8

  // ---------------------------------------------------------------------------
  // The buffer
  // ---------------------------------------------------------------------------

  datatype Buffer = Buffer(bytes: seq<bv8>, len: nat, pos: nat)

  ghost predicate WellFormed(b: Buffer) {
    |b.bytes| == BUFF_SIZE && (b.pos < b.len <= BUFF_SIZE || b.pos == b.len == 0)
  }

  function Min(a: nat, b: nat): nat {
    if a < b then a else b
  }

  /** The bytes that were written and not yet read. */
  function Unread(b: Buffer): seq<bv8>
    requires b.pos <= b.len <= |b.bytes|
  {
    b.bytes[b.pos..b.len]
  }

  lemma NextUnread(b: Buffer, n: nat)
    requires b.pos <= b.pos + n <= b.len <= |b.bytes|
    ensures b.bytes[b.pos..b.pos + n] == Unread(b)[..n]
  {
    forall k | 0 <= k < n ensures b.bytes[b.pos..b.pos + n][k] == Unread(b)[..n][k] {
      assert Unread(b)[k] == b.bytes[b.pos + k];
    }
  }

  /** The end of pipe_read() on a non-empty buffer: `n` more bytes are read. */
  function Taken(b: Buffer, n: nat): Buffer {
    if b.pos + n >= b.len then b.(len := 0, pos := 0) else b.(pos := b.pos + n)
  }

  /** The end of pipe_write() on an empty buffer. */
  function Filled(b: Buffer, bytes: seq<bv8>, n: nat): Buffer {
    if n > 0 then Buffer(bytes, n, 0) else b.(bytes := bytes)
  }

  /** The mutable state of struct pipe_dev. */
  class PipeDev {
    const buff: array<bv8>
    var buffLen: nat
    var rdPos: nat

    ghost function View(): Buffer
      reads this, buff
    {
      Buffer(buff[..], buffLen, rdPos)
    }

    constructor ()
      ensures WellFormed(View()) && buffLen == 0
    {
      buff := new bv8[BUFF_SIZE];
      buffLen, rdPos := 0, 0;
    }

    /** pipe_read() from the copy on; `wake` is whether it wakes the writers. */
    method ReadLocked(count: nat, faults: bool) returns (ret: Option<seq<bv8>>, wake: bool)
      requires WellFormed(View()) && buffLen != 0
      modifies this
      ensures WellFormed(View())
      ensures faults ==> ret == None && !wake && View() == old(View())
      ensures !faults ==> ret == Some(old(Unread(View()))[..Min(count, |old(Unread(View()))|)])
      ensures !faults ==> View() == Taken(old(View()), |ret.value|)
      ensures wake <==> !faults && buffLen == 0
    {
      wake := false;
      var n := Min(count, buffLen - rdPos);
      if faults {
        return None, false;
      }
      ret := Some(buff[..][rdPos..rdPos + n]);
      NextUnread(View(), n);
      rdPos := rdPos + n;
      if rdPos >= buffLen {
        buffLen := 0;
        rdPos := 0;
        wake := true;
      }
    }

    /** pipe_write() from the copy on; a failed copy may have overwritten any of `buff`. */
    method WriteLocked(data: seq<bv8>, faults: Option<seq<bv8>>) returns (n: nat, wake: bool)
      requires WellFormed(View()) && buffLen == 0
      requires faults.Some? ==> |faults.value| == BUFF_SIZE
      modifies this, buff
      ensures WellFormed(View())
      ensures n == if faults.Some? then 0 else Min(|data|, BUFF_SIZE)
      ensures faults.None? ==> View() == Filled(old(View()), data[..n] + old(View()).bytes[n..], n)
      ensures faults.Some? ==> View() == Buffer(faults.value, 0, old(rdPos))
      ensures wake <==> n > 0
    {
      n := Min(|data|, BUFF_SIZE);
      if faults.Some? {
        forall i | 0 <= i < BUFF_SIZE { buff[i] := faults.value[i]; }
        return 0, false;
      }
      forall i | 0 <= i < n { buff[i] := data[i]; }
      assert buff[..] == data[..n] + old(buff[..])[n..];
      if n > 0 {
        buffLen := n;
        rdPos := 0;
      }
      wake := n > 0;
    }
  }

  // ---------------------------------------------------------------------------
  // Threads
  // ---------------------------------------------------------------------------

  datatype Pc = Out | Locking | Testing | Preparing | Checking | Sleeping | Finishing | Copying | Waking | Unlocking

  datatype Return = Pending | Bytes(n: nat) | Efault | Eagain | Erestartsys

  /**
   A call of pipe_read() or pipe_write(); `interruptible` is its task state, `queued` its wait queue
   entry, `signalled` whether a signal is pending, and `ret` what the call returns once it is known.
   */
  datatype Thread = Thread(writer: bool, nonblock: bool, pc: Pc, interruptible: bool, queued: bool,
                           signalled: bool, ret: Return)

  datatype State = State(
    dev: Buffer,
    holder: Option<nat>,          // the mutex
    threads: map<nat, Thread>,
    accepted: seq<bv8>,           // history: bytes accepted by writes
    returned: seq<bv8>)           // history: bytes returned by reads

  ghost predicate Init(s: State) {
    WellFormed(s.dev) && s.dev.len == 0 && s.holder == None && s.threads == map[] &&
    s.accepted == s.returned == []
  }

  /** Readers wait for bytes, writers for an empty buffer. */
  predicate MustWait(b: Buffer, writer: bool) {
    if writer then b.len != 0 else b.len == 0
  }

  function Goto(s: State, t: nat, pc: Pc): State
    requires t in s.threads
  {
    s.(threads := s.threads[t := s.threads[t].(pc := pc)])
  }

  function Answer(s: State, t: nat, ret: Return): State
    requires t in s.threads
  {
    s.(threads := s.threads[t := s.threads[t].(ret := ret)])
  }

  /** The call returns without having reached the copy. */
  function Leave(s: State, t: nat, ret: Return): State
    requires t in s.threads
  {
    Goto(Answer(s, t, ret), t, Out)
  }

  /** wake_up_interruptible() of the readers or of the writers. */
  function WakeAll(threads: map<nat, Thread>, writers: bool): (r: map<nat, Thread>)
    ensures r.Keys == threads.Keys
    ensures forall u :: u in threads ==>
              r[u] == if threads[u].writer == writers && threads[u].queued
                      then threads[u].(interruptible := false, queued := false) else threads[u]
  {
    map u | u in threads ::
      if threads[u].writer == writers && threads[u].queued
      then threads[u].(interruptible := false, queued := false) else threads[u]
  }

  datatype Action =
    | Call(writer: bool, nonblock: bool)
    | Signal                                        // a signal becomes pending
    | GiveUp                                        // the signal ends the wait for the mutex
    | Lock
    | Test
    | Prepare
    | Check
    | Resume                                        // schedule() returns: woken up
    | Interrupt                                     // schedule() returns: the signal
    | Finish
    | Take(count: nat, faults: bool)
    | Put(data: seq<bv8>, faults: bool, junk: seq<bv8>)
    | Wake
    | Unlock

  ghost predicate SleepStep(s: State, t: nat, a: Action, s': State) {
    match a
    case Call(writer, nonblock) =>
      (t in s.threads ==> s.threads[t].pc.Out?) &&
      s' == s.(threads := s.threads[t := Thread(writer, nonblock, Locking, false, false, false, Pending)])
    case Signal =>
      t in s.threads && !s.threads[t].pc.Out? &&
      s' == s.(threads := s.threads[t := s.threads[t].(signalled := true)])
    case GiveUp =>
      t in s.threads && s.threads[t].pc.Locking? && s.threads[t].signalled && s' == Leave(s, t, Erestartsys)
    case Prepare =>
      t in s.threads && s.threads[t].pc.Preparing? &&
      s' == s.(threads := s.threads[t := s.threads[t].(pc := Checking, interruptible := true, queued := true)])
    case Check =>
      t in s.threads && s.threads[t].pc.Checking? &&
      s' == Goto(s, t, if MustWait(s.dev, s.threads[t].writer) then Sleeping else Finishing)
    case Resume =>
      t in s.threads && s.threads[t].pc.Sleeping? && !s.threads[t].interruptible && s' == Goto(s, t, Finishing)
    case Interrupt =>
      t in s.threads && s.threads[t].pc.Sleeping? && s.threads[t].signalled &&
      s' == s.(threads := s.threads[t := s.threads[t].(pc := Finishing, interruptible := false)])
    case Finish =>
      t in s.threads && s.threads[t].pc.Finishing? &&
      var s1 := s.(threads := s.threads[t := s.threads[t].(interruptible := false, queued := false)]);
      s' == if s.threads[t].signalled then Leave(s1, t, Erestartsys) else Goto(s1, t, Locking)
    case _ => false
  }

  ghost predicate LockedStep(s: State, t: nat, a: Action, s': State) {
    t in s.threads &&
    var h := s.threads[t];
    match a
    case Lock =>
      h.pc.Locking? && s.holder == None && s' == Goto(s, t, Testing).(holder := Some(t))
    case Test =>
      h.pc.Testing? &&
      s' == if !MustWait(s.dev, h.writer) then Goto(s, t, Copying)
            else if h.nonblock then Leave(s, t, Eagain).(holder := None)
            else Goto(s, t, Preparing).(holder := None)
    case Take(count, faults) =>
      h.pc.Copying? && !h.writer && WellFormed(s.dev) && s.dev.len != 0 &&
      var n := if faults then 0 else Min(count, s.dev.len - s.dev.pos);
      var b := if faults then s.dev else Taken(s.dev, n);
      s' == Goto(Answer(s, t, if faults then Efault else Bytes(n)), t, if b.len == 0 then Waking else Unlocking)
            .(dev := b, returned := s.returned + Unread(s.dev)[..n])
    case Put(data, faults, junk) =>
      h.pc.Copying? && h.writer && WellFormed(s.dev) && |junk| == BUFF_SIZE &&
      var n := if faults then 0 else Min(|data|, BUFF_SIZE);
      var b := Filled(s.dev, if faults then junk else data[..n] + s.dev.bytes[n..], n);
      s' == Goto(Answer(s, t, if faults then Efault else Bytes(n)), t, if n > 0 then Waking else Unlocking)
            .(dev := b, accepted := s.accepted + data[..n])
    case Wake =>
      h.pc.Waking? &&
      s' == Goto(s.(threads := WakeAll(s.threads, !h.writer)), t, Unlocking)
    case Unlock =>
      h.pc.Unlocking? && s' == Goto(s, t, Out).(holder := None)
    case _ => false
  }

  ghost predicate Step(s: State, t: nat, a: Action, s': State) {
    SleepStep(s, t, a, s') || LockedStep(s, t, a, s')
  }

  ghost predicate Next(s: State, s': State) {
    exists t, a :: Step(s, t, a, s')
  }

  /** State `i` of the run is one step behind the state before it. */
  ghost predicate StepAt(run: seq<State>, i: nat) {
    0 < i < |run| && Next(run[i - 1], run[i])
  }

  ghost predicate Run(run: seq<State>) {
    run != [] && Init(run[0]) && forall i :: 0 < i < |run| ==> StepAt(run, i)
  }

  // ---------------------------------------------------------------------------
  // Invariant
  // ---------------------------------------------------------------------------

  predicate Holding(pc: Pc) {
    pc.Testing? || pc.Copying? || pc.Waking? || pc.Unlocking?
  }

  /** A thread that sleeps, or will, until it is woken. */
  predicate Asleep(h: Thread) {
    h.pc.Sleeping? && h.interruptible
  }

  /** The mutex holder is between its store to `buff_len` and its wake-up of this kind of thread. */
  predicate WakerOf(s: State, writer: bool) {
    s.holder.Some? && s.holder.value in s.threads &&
    s.threads[s.holder.value].pc.Waking? && s.threads[s.holder.value].writer != writer
  }

  ghost predicate ThreadInv(s: State, t: nat)
    requires t in s.threads
  {
    var h := s.threads[t];
    && (Holding(h.pc) <==> s.holder == Some(t))
    && (h.interruptible ==> h.queued)
    && (Asleep(h) ==> MustWait(s.dev, h.writer) || WakerOf(s, h.writer))
    && (h.pc.Copying? ==> !MustWait(s.dev, h.writer))
  }

  predicate Waits(pc: Pc) {
    pc.Preparing? || pc.Checking? || pc.Sleeping? || pc.Finishing?
  }

  /** A call with O_NONBLOCK never waits; what is returned has its reason. */
  predicate CallInv(h: Thread) {
    && (h.nonblock ==> !Waits(h.pc))
    && (h.ret.Pending? <==> h.pc.Locking? || h.pc.Testing? || Waits(h.pc) || h.pc.Copying?)
    && (h.ret.Eagain? ==> h.nonblock)
    && (h.ret.Erestartsys? ==> h.signalled)
    && (h.ret.Eagain? || h.ret.Erestartsys? ==> h.pc.Out?)
  }

  ghost predicate Inv(s: State) {
    && WellFormed(s.dev)
    && (s.holder.Some? ==> s.holder.value in s.threads)
    && (forall t :: t in s.threads ==> ThreadInv(s, t))
    && (forall t :: t in s.threads ==> CallInv(s.threads[t]))
    && s.accepted == s.returned + Unread(s.dev)
  }

  lemma SleeperKeeps(s: State, t: nat, a: Action, s': State)
    requires SleepStep(s, t, a, s') && (s.holder.Some? ==> s.holder.value in s.threads)
    requires t in s.threads ==> ThreadInv(s, t)
    ensures t in s'.threads && (t !in s.threads ==> s.holder != Some(t)) && ThreadInv(s', t)
  {
  }

  lemma SleepLeavesThread(s: State, t: nat, a: Action, s': State, u: nat)
    requires SleepStep(s, t, a, s') && u != t && u in s.threads && ThreadInv(s, u)
    requires t in s.threads ==> ThreadInv(s, t)
    ensures u in s'.threads && ThreadInv(s', u)
  {
  }

  lemma SleepKeepsCall(s: State, t: nat, a: Action, s': State, u: nat)
    requires SleepStep(s, t, a, s') && u in s'.threads && (u in s.threads ==> CallInv(s.threads[u]))
    ensures CallInv(s'.threads[u])
  {
  }

  lemma HolderKeepsCall(s: State, t: nat, a: Action, s': State)
    requires LockedStep(s, t, a, s') && CallInv(s.threads[t])
    ensures s'.threads.Keys == s.threads.Keys && CallInv(s'.threads[t])
  {
  }

  lemma LockedLeavesCall(s: State, t: nat, a: Action, s': State, u: nat)
    requires LockedStep(s, t, a, s') && u != t && u in s.threads && CallInv(s.threads[u])
    ensures u in s'.threads && CallInv(s'.threads[u])
  {
  }

  lemma SleepKeeps(s: State, t: nat, a: Action, s': State)
    requires Inv(s) && SleepStep(s, t, a, s')
    ensures Inv(s')
  {
    forall u | u in s'.threads ensures ThreadInv(s', u) {
      SleeperKeeps(s, t, a, s');
      if u != t {
        SleepLeavesThread(s, t, a, s', u);
      }
    }
    forall u | u in s'.threads ensures CallInv(s'.threads[u]) {
      SleepKeepsCall(s, t, a, s', u);
    }
  }

  lemma HolderKeeps(s: State, t: nat, a: Action, s': State)
    requires WellFormed(s.dev) && LockedStep(s, t, a, s') && ThreadInv(s, t)
    ensures s'.holder.Some? ==> s'.holder.value in s'.threads
    ensures s'.threads.Keys == s.threads.Keys && ThreadInv(s', t)
  {
  }

  lemma LockedLeavesThread(s: State, t: nat, a: Action, s': State, u: nat)
    requires WellFormed(s.dev) && LockedStep(s, t, a, s') && u != t && u in s.threads
    requires ThreadInv(s, t) && ThreadInv(s, u)
    ensures u in s'.threads && ThreadInv(s', u)
  {
  }

  lemma LockedKeepsBytes(s: State, t: nat, a: Action, s': State)
    requires WellFormed(s.dev) && s.accepted == s.returned + Unread(s.dev)
    requires LockedStep(s, t, a, s') && ThreadInv(s, t)
    ensures WellFormed(s'.dev) && s'.accepted == s'.returned + Unread(s'.dev)
  {
  }

  lemma LockedKeeps(s: State, t: nat, a: Action, s': State)
    requires Inv(s) && LockedStep(s, t, a, s')
    ensures Inv(s')
  {
    LockedKeepsBytes(s, t, a, s');
    HolderKeeps(s, t, a, s');
    forall u | u in s'.threads ensures ThreadInv(s', u) {
      if u != t {
        LockedLeavesThread(s, t, a, s', u);
      }
    }
    forall u | u in s'.threads ensures CallInv(s'.threads[u]) {
      HolderKeepsCall(s, t, a, s');
      if u != t {
        LockedLeavesCall(s, t, a, s', u);
      }
    }
  }

  lemma NextKeeps(s: State, s': State)
    requires Inv(s) && Next(s, s')
    ensures Inv(s')
  {
    var t, a :| Step(s, t, a, s');
    if SleepStep(s, t, a, s') {
      SleepKeeps(s, t, a, s');
    } else {
      LockedKeeps(s, t, a, s');
    }
  }

  lemma {:induction false} RunKeeps(run: seq<State>, i: nat)
    requires Run(run) && i < |run|
    ensures Inv(run[i])
    decreases i
  {
    if i > 0 {
      RunKeeps(run, i - 1);
      assert StepAt(run, i);
      NextKeeps(run[i - 1], run[i]);
    }
  }

  // ---------------------------------------------------------------------------
  // The promises of the driver
  // ---------------------------------------------------------------------------

  /** No wake-up is lost: a thread sleeps only while it has to, or with its waker on the way. */
  lemma NoLostWakeUp(run: seq<State>, i: nat, t: nat)
    requires Run(run) && i < |run| && t in run[i].threads && Asleep(run[i].threads[t])
    ensures MustWait(run[i].dev, run[i].threads[t].writer) || WakerOf(run[i], run[i].threads[t].writer)
  {
    RunKeeps(run, i);
    assert ThreadInv(run[i], t);
  }

  /** A reader and a writer are never both asleep with no waker running. */
  lemma NeverBothAsleep(run: seq<State>, i: nat, r: nat, w: nat)
    requires Run(run) && i < |run| && r in run[i].threads && w in run[i].threads
    requires !run[i].threads[r].writer && run[i].threads[w].writer
    requires Asleep(run[i].threads[r]) && Asleep(run[i].threads[w])
    ensures WakerOf(run[i], false) || WakerOf(run[i], true)
  {
    NoLostWakeUp(run, i, r);
    NoLostWakeUp(run, i, w);
  }

  /** Bytes come out as they went in: what was accepted is what was returned and what is left. */
  lemma StreamPreserved(run: seq<State>, i: nat)
    requires Run(run) && i < |run|
    ensures var b := run[i].dev;
            && (b.pos < b.len <= BUFF_SIZE || b.pos == b.len == 0)
            && |b.bytes| == BUFF_SIZE
            && run[i].accepted == run[i].returned + b.bytes[b.pos..b.len]
  {
    RunKeeps(run, i);
  }

  /** Two threads are never between lock and unlock, and a write never overwrites an unread byte. */
  lemma WritesFindRoom(run: seq<State>, i: nat, t: nat, u: nat)
    requires Run(run) && i < |run| && t in run[i].threads && u in run[i].threads
    requires run[i].threads[t].pc.Copying? && Holding(run[i].threads[u].pc)
    ensures t == u
    ensures run[i].threads[t].writer ==> run[i].dev.len == 0
    ensures !run[i].threads[t].writer ==> run[i].dev.len != 0
  {
    RunKeeps(run, i);
    assert ThreadInv(run[i], t) && ThreadInv(run[i], u);
  }

  /** O_NONBLOCK calls never sleep, -EAGAIN is for them alone, and -ERESTARTSYS for calls with a signal pending. */
  lemma CallsAreAnswered(run: seq<State>, i: nat, t: nat)
    requires Run(run) && i < |run| && t in run[i].threads
    ensures var h := run[i].threads[t];
            && (h.nonblock ==> !h.pc.Preparing? && !h.pc.Checking? && !h.pc.Sleeping? && !h.pc.Finishing?)
            && (h.pc.Out? ==> h.ret != Pending)
            && (h.ret == Eagain ==> h.nonblock)
            && (h.ret == Erestartsys ==> h.signalled)
  {
    RunKeeps(run, i);
    assert ThreadInv(run[i], t);
  }

  /** Thread `t` comes to its answer in the step from `s` to `s'`, and this is why. */
  ghost predicate Explained(s: State, t: nat, s': State)
    requires t in s.threads && t in s'.threads && WellFormed(s.dev)
  {
    var h := s.threads[t];
    match s'.threads[t].ret
    case Pending => true
    case Eagain => h.pc.Testing? && h.nonblock && (if h.writer then s.dev.len != 0 else s.dev.len == 0)
    case Erestartsys => h.signalled
    case Efault => h.pc.Copying? && s'.returned == s.returned && s'.accepted == s.accepted
    case Bytes(n) =>
      && h.pc.Copying?
      && (if h.writer then s.dev.len == 0 else n <= |Unread(s.dev)|)
      && (h.writer ==> s'.returned == s.returned && |s'.accepted| == |s.accepted| + n)
      && (!h.writer ==> s'.accepted == s.accepted && s'.returned == s.returned + Unread(s.dev)[..n])
  }

  lemma SleepExplains(s: State, t: nat, a: Action, s': State, u: nat)
    requires WellFormed(s.dev) && SleepStep(s, t, a, s') && u in s.threads && s.threads[u].ret.Pending?
    ensures u in s'.threads && Explained(s, u, s')
  {
  }

  lemma HolderExplains(s: State, t: nat, a: Action, s': State)
    requires WellFormed(s.dev) && LockedStep(s, t, a, s') && s.threads[t].ret.Pending? && ThreadInv(s, t)
    ensures t in s'.threads && Explained(s, t, s')
  {
  }

  lemma OthersStayPending(s: State, t: nat, a: Action, s': State, u: nat)
    requires LockedStep(s, t, a, s') && u != t && u in s.threads && s.threads[u].ret.Pending?
    ensures u in s'.threads && s'.threads[u].ret.Pending?
  {
  }

  lemma NextExplains(s: State, s': State, t: nat)
    requires Inv(s) && Next(s, s') && t in s.threads && s.threads[t].ret.Pending?
    ensures ExplainedBy(s, t, s')
  {
    var u, a :| Step(s, u, a, s');
    assert ThreadInv(s, t);
    if SleepStep(s, u, a, s') {
      SleepExplains(s, u, a, s', t);
    } else {
      if u == t {
        HolderExplains(s, t, a, s');
      } else {
        OthersStayPending(s, u, a, s', t);
      }
    }
  }

  ghost predicate ExplainedBy(s: State, t: nat, s': State) {
    t in s.threads && t in s'.threads && WellFormed(s.dev) && Explained(s, t, s')
  }

  /** A call that gets its answer in one step of a run gets it for the right reason. */
  lemma AnswersAreExplained(run: seq<State>, i: nat, t: nat)
    requires Run(run) && 0 < i < |run| && t in run[i - 1].threads && run[i - 1].threads[t].ret.Pending?
    ensures ExplainedBy(run[i - 1], t, run[i])
  {
    RunKeeps(run, i - 1);
    assert StepAt(run, i);
    NextExplains(run[i - 1], run[i], t);
  }

  /** A call that has to wait goes to sleep if it may block, and returns at once if not. */
  lemma BlockingDecides(s: State, t: nat, u: nat, a: Action, s': State)
    requires Step(s, u, a, s') && t in s.threads && t in s'.threads
    requires s.threads[t].pc.Testing? && s'.threads[t].pc != Testing && MustWait(s.dev, s.threads[t].writer)
    requires ThreadInv(s, t)
    ensures u == t && s'.holder == None
    ensures s'.threads[t].pc == if s.threads[t].nonblock then Out else Preparing
  {
  }

  // ---------------------------------------------------------------------------
  // The copies of a step are those of the device
  // ---------------------------------------------------------------------------

  method PerformTake(dev: PipeDev, s: State, t: nat, count: nat, faults: bool)
      returns (s': State, out: Option<seq<bv8>>)
    requires t in s.threads && s.threads[t].pc.Copying? && !s.threads[t].writer
    requires WellFormed(s.dev) && s.dev.len != 0 && dev.View() == s.dev
    modifies dev
    ensures LockedStep(s, t, Take(count, faults), s') && dev.View() == s'.dev
    ensures out.None? <==> faults
    ensures s'.returned == s.returned + if out.Some? then out.value else []
    ensures s'.threads[t].ret == if out.Some? then Bytes(|out.value|) else Efault
    ensures s'.threads[t].pc == if dev.buffLen == 0 then Waking else Unlocking
  {
    var wake;
    out, wake := dev.ReadLocked(count, faults);
    var ret := if out.Some? then Bytes(|out.value|) else Efault;
    s' := Goto(Answer(s, t, ret), t, if wake then Waking else Unlocking)
          .(dev := Buffer(dev.buff[..], dev.buffLen, dev.rdPos),
            returned := s.returned + if out.Some? then out.value else []);
  }

  method PerformPut(dev: PipeDev, s: State, t: nat, data: seq<bv8>, faults: bool, junk: seq<bv8>)
      returns (s': State, n: nat)
    requires t in s.threads && s.threads[t].pc.Copying? && s.threads[t].writer && |junk| == BUFF_SIZE
    requires WellFormed(s.dev) && s.dev.len == 0 && dev.View() == s.dev
    modifies dev, dev.buff
    ensures LockedStep(s, t, Put(data, faults, junk), s') && dev.View() == s'.dev
    ensures n == if faults then 0 else Min(|data|, BUFF_SIZE)
    ensures s'.accepted == s.accepted + data[..n]
    ensures s'.threads[t].ret == if faults then Efault else Bytes(n)
    ensures s'.threads[t].pc == if n > 0 then Waking else Unlocking
  {
    var wake;
    n, wake := dev.WriteLocked(data, if faults then Some(junk) else None);
    s' := Goto(Answer(s, t, if faults then Efault else Bytes(n)), t, if wake then Waking else Unlocking)
          .(dev := Buffer(dev.buff[..], dev.buffLen, dev.rdPos), accepted := s.accepted + data[..n]);
  }

  // ---------------------------------------------------------------------------
  // Nobody is stuck
  // ---------------------------------------------------------------------------

  /** The holder of the mutex can always go on. */
  lemma HolderGoesOn(s: State, t: nat)
    requires Inv(s) && s.holder == Some(t)
    ensures exists a, s' :: Step(s, t, a, s')
  {
    assert ThreadInv(s, t);
    var h := s.threads[t];
    match h.pc
    case Testing =>
      var s' := if !MustWait(s.dev, h.writer) then Goto(s, t, Copying)
                else if h.nonblock then Leave(s, t, Eagain).(holder := None)
                else Goto(s, t, Preparing).(holder := None);
      assert Step(s, t, Test, s');
    case Copying =>
      if h.writer {
        var junk := s.dev.bytes;
        var b := Filled(s.dev, junk, 0);
        var none: seq<bv8> := [];
        assert none[..0] == none && s.accepted + none == s.accepted;
        assert Step(s, t, Put(none, true, junk), Goto(Answer(s, t, Efault), t, Unlocking).(dev := b));
      } else {
        assert s.returned + Unread(s.dev)[..0] == s.returned;
        assert Step(s, t, Take(0, true), Goto(Answer(s, t, Efault), t, Unlocking));
      }
    case Waking =>
      assert Step(s, t, Wake, Goto(s.(threads := WakeAll(s.threads, !h.writer)), t, Unlocking));
    case Unlocking => assert Step(s, t, Unlock, Goto(s, t, Out).(holder := None));
  }

  /** A call that is neither asleep without a signal nor behind the mutex of another can go on. */
  lemma CallGoesOn(s: State, t: nat)
    requires Inv(s) && t in s.threads && !s.threads[t].pc.Out?
    requires Asleep(s.threads[t]) ==> s.threads[t].signalled
    requires s.threads[t].pc.Locking? ==> s.holder == None
    ensures exists a, s' :: Step(s, t, a, s')
  {
    assert ThreadInv(s, t);
    var h := s.threads[t];
    if Holding(h.pc) {
      HolderGoesOn(s, t);
    } else {
      match h.pc
      case Locking => assert Step(s, t, Lock, Goto(s, t, Testing).(holder := Some(t)));
      case Preparing =>
        assert Step(s, t, Prepare,
                    s.(threads := s.threads[t := h.(pc := Checking, interruptible := true, queued := true)]));
      case Checking =>
        assert Step(s, t, Check, Goto(s, t, if MustWait(s.dev, h.writer) then Sleeping else Finishing));
      case Sleeping =>
        if h.interruptible {
          assert Step(s, t, Interrupt, s.(threads := s.threads[t := h.(pc := Finishing, interruptible := false)]));
        } else {
          assert Step(s, t, Resume, Goto(s, t, Finishing));
        }
      case Finishing =>
        var s1 := s.(threads := s.threads[t := h.(interruptible := false, queued := false)]);
        assert Step(s, t, Finish, if h.signalled then Leave(s1, t, Erestartsys) else Goto(s1, t, Locking));
    }
  }

  /** Along every run: a call waits only asleep, or for a mutex whose holder can go on. */
  lemma NobodyIsStuck(run: seq<State>, i: nat, t: nat)
    requires Run(run) && i < |run| && t in run[i].threads && !run[i].threads[t].pc.Out?
    ensures var s := run[i];
      || Asleep(s.threads[t])
      || (exists a, s' :: Step(s, t, a, s'))
      || (s.threads[t].pc.Locking? && s.holder.Some? && exists a, s' :: Step(s, s.holder.value, a, s'))
  {
    RunKeeps(run, i);
    var s := run[i];
    if s.threads[t].pc.Locking? && s.holder.Some? {
      HolderGoesOn(s, s.holder.value);
    } else if !Asleep(s.threads[t]) {
      CallGoesOn(s, t);
    }
  }
}
