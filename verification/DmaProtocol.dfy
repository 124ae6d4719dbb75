/**
 One DMA transfer at a time: the waiting side of examples/27_dma/main.c and
 examples/28_dma_sg/main.c (dma_xfer(), dma_sg_run() and the handler) against the
 ldd-pcie registers, as a step system of driver thread, interrupt handler, completion
 timer and interrupt delivery.  The two drivers run the same protocol.

 The engine, its interrupt registers and their updates are those of PcieRegs.  The
 interrupt is one MSI message, which may wait, or an INTx line, which may be shared.
 */
module DmaProtocol {
  import opened PcieRegs

  datatype Return = Ok | EIO | ETIMEDOUT

  /** The driver thread, under the mutex, between two of its steps. */
  datatype Driver =
    | Idle
    | PreReinit
    | PreStart
    | Waiting
    | PreResult             // the completion is taken, int_status is not yet read
    | PreReset              // wait_for_completion_timeout() gave up
    | PreSync
    | PreUnmask
    | PreUnmap(ret: Return)

  datatype Handler =
    | NotRunning
    | PreRead
    | PreClear(status: set<Event>)
    | PreStore(status: set<Event>)
    | PreComplete

  datatype State = State(
    mode: Mode,
    ints: Ints,
    engine: Engine,
    message: bool,                // an MSI on its way
    line: bool,                   // the INTx line
    handler: Handler,
    completion: nat,              // dma_done
    intStatus: set<Event>,        // the int_status field that the handler stores
    driver: Driver,
    mapped: bool,                 // the buffer is the device's
    removed: bool,
    cur: nat,                     // the transfer that the driver runs, or ran last
    running: nat,                 // the transfer that the engine was started for
    finished: map<nat, u32>,      // history: what the engine reported for each
    timedOut: set<nat>,           // history: the transfers whose wait gave up
    returned: map<nat, Return>)   // history: what the driver reported for each

  ghost predicate Init(s: State) {
    && (s.mode == Msi || s.mode == IntX)
    && s.ints == Ints({}, DMA_EVENTS, {}) && s.engine == RESET_DEVICE.engine
    && !s.message && !s.line && s.handler.NotRunning? && s.driver.Idle? && !s.mapped && !s.removed
    && s.cur == s.running == 0 && s.finished == map[] && s.returned == map[]
    && s.timedOut == {}
  }

  /** Write the interrupt registers and let ldd_pcie_update_irq() signal. */
  function Signal(s: State, i: Ints): State {
    s.(ints := Update(i),
       message := s.message || (s.mode == Msi && Fresh(i) != {}),
       line := s.mode == IntX && Pending(i) != {})
  }

  datatype Action =
    // the driver thread
    | Begin | Reinit | StartDma(o: Outcome) | Woken | Result | TimeOut | ResetDevice | Synchronize | Unmask | Unmap
    | Remove
    // the device
    | TimerFires
    // the handler
    | Deliver | Spurious | Read | Acknowledge | Store | CompleteDone

  ghost predicate DriverStep(s: State, a: Action, t: State) {
    match a
    case Begin =>
      s.driver.Idle? && !s.removed && t == s.(driver := PreReinit, mapped := true, cur := s.cur + 1)
    case Reinit =>
      s.driver.PreReinit? && t == s.(driver := PreStart, completion := 0)
    case StartDma(o) =>
      // a START while busy would be ignored
      s.driver.PreStart? && o.code <= 5 &&
      t == s.(driver := Waiting,
              engine := if Busy(s.engine) then s.engine else Start(s.engine, o),
              running := if Busy(s.engine) then s.running else s.cur)
    case Woken =>
      s.driver.Waiting? && s.completion > 0 &&
      t == s.(completion := s.completion - 1, driver := PreResult)
    case Result =>
      s.driver.PreResult? && t == s.(driver := PreUnmap(if DmaError in s.intStatus then EIO else Ok))
    case TimeOut =>
      s.driver.Waiting? && s.completion == 0 && t == s.(driver := PreReset, timedOut := s.timedOut + {s.cur})
    case ResetDevice =>
      s.driver.PreReset? &&
      t == s.(driver := PreSync, engine := RESET_DEVICE.engine, ints := RESET_DEVICE.ints, line := false)
    case Synchronize =>
      s.driver.PreSync? && s.handler.NotRunning? && t == s.(driver := PreUnmask)
    case Unmask =>
      s.driver.PreUnmask? && t == Signal(s, SetMask(s.ints, DMA_EVENTS)).(driver := PreUnmap(ETIMEDOUT))
    case Unmap =>
      s.driver.PreUnmap? &&
      t == s.(driver := Idle, mapped := false, returned := s.returned[s.cur := s.driver.ret])
    case Remove =>
      s.driver.Idle? && t == Signal(s, SetMask(s.ints, {})).(removed := true)
    case _ => false
  }

  ghost predicate TimerStep(s: State, t: State) {
    s.engine.armed && s.engine.result <= 5 &&
    t == Signal(s, Raise(s.ints, {DoneEvent(s.engine.result)}))
         .(engine := s.engine.(status := DoneStatus(s.engine.result), armed := false),
           finished := s.finished[s.running := s.engine.result])
  }

  ghost predicate HandlerStep(s: State, a: Action, t: State) {
    match a
    case Deliver =>
      s.handler.NotRunning? && (if s.mode == Msi then s.message else s.line) &&
      t == s.(handler := PreRead, message := false)
    case Spurious =>
      s.handler.NotRunning? && t == s.(handler := PreRead)
    case Read =>
      s.handler.PreRead? &&
      var status := s.ints.raised * DMA_EVENTS;
      t == s.(handler := if status == {} then NotRunning else PreClear(status))
    case Acknowledge =>
      s.handler.PreClear? &&
      t == Signal(s, Clear(s.ints, s.handler.status)).(handler := PreStore(s.handler.status))
    case Store =>
      s.handler.PreStore? && t == s.(handler := PreComplete, intStatus := s.handler.status)
    case CompleteDone =>
      s.handler.PreComplete? && t == s.(handler := NotRunning, completion := s.completion + 1)
    case _ => false
  }

  ghost predicate Step(s: State, a: Action, t: State) {
    DriverStep(s, a, t) || (a.TimerFires? && TimerStep(s, t)) || HandlerStep(s, a, t)
  }

  ghost predicate Next(s: State, t: State) {
    exists a :: Step(s, a, t)
  }

  /** State `i` of the run is one step behind the state before it. */
  ghost predicate StepAt(run: seq<State>, i: nat) {
    0 < i < |run| && Next(run[i - 1], run[i])
  }

  ghost predicate Run(run: seq<State>) {
    run != [] && Init(run[0]) && forall i :: 0 < i < |run| ==> StepAt(run, i)
  }

  // ---------------------------------------------------------------------------
  // Invariant
  // ---------------------------------------------------------------------------

  predicate InTransfer(d: Driver) {
    d.Waiting? || d.PreReset?
  }

  /** The engine has finished the transfer that the driver waits for, and reported `bits`. */
  predicate Reported(s: State, bits: set<Event>) {
    s.cur == s.running && s.cur in s.finished && bits == {DoneEvent(s.finished[s.cur])}
  }

  /** The handler has seen that report and not yet completed `dma_done`. */
  predicate Carrying(h: Handler) {
    h.PreClear? || h.PreStore? || h.PreComplete?
  }

  ghost predicate EngineInv(s: State) {
    && (Busy(s.engine) <==> s.engine.armed)
    && s.engine.result <= 5
    && (s.engine.armed ==> InTransfer(s.driver) && s.running == s.cur && s.cur !in s.finished)
    && s.running <= s.cur
    && (forall k :: k in s.finished ==> k <= s.running)
    && (forall k :: k in s.returned ==> k <= s.cur && (k == s.cur ==> s.driver.Idle?))
    && (s.driver.PreReinit? || s.driver.PreStart? ==> s.running < s.cur)
    && (InTransfer(s.driver) ==> s.running == s.cur)
    && (s.mapped <==> !s.driver.Idle?)
  }

  ghost predicate IntsInv(s: State) {
    && (s.mode == Msi || s.mode == IntX)
    && s.ints.sent == Pending(s.ints)
    && (s.line <==> s.mode == IntX && Pending(s.ints) != {})
    && s.ints.mask == (if s.driver.PreSync? || s.driver.PreUnmask? || s.removed then {} else DMA_EVENTS)
    && (s.removed ==> s.driver.Idle?)
    && (s.ints.raised != {} ==> InTransfer(s.driver) && Reported(s, s.ints.raised))
    && (s.ints.raised != {} && s.mode == Msi ==> s.message || s.handler.PreRead? || s.handler.PreClear?)
  }

  ghost predicate HandlerInv(s: State) {
    && (Carrying(s.handler) ==> InTransfer(s.driver) || s.driver.PreSync?)
    && (s.handler.PreClear? || s.handler.PreStore? ==> Reported(s, s.handler.status))
    && (s.handler.PreComplete? ==> Reported(s, s.intStatus))
    && (s.handler.PreStore? || s.handler.PreComplete? ==> s.ints.raised == {})
    && (s.handler.PreClear? && InTransfer(s.driver) ==> s.ints.raised == s.handler.status)
  }

  ghost predicate WaitInv(s: State) {
    && (s.driver.PreStart? ==> s.completion == 0)
    && (s.driver.PreResult? ==> Reported(s, s.intStatus))
    && (InTransfer(s.driver) && s.completion > 0 ==>
          Reported(s, s.intStatus) && s.ints.raised == {} && !Carrying(s.handler))
    && (s.driver.Waiting? && !s.engine.armed && s.completion == 0 ==>
          s.ints.raised != {} || Carrying(s.handler))
    && (InTransfer(s.driver) && !s.engine.armed ==> s.cur in s.finished)
  }

  /** `r` is what the driver has to say about transfer `k`. */
  predicate Honest(s: State, k: nat, r: Return) {
    if k in s.timedOut then r.ETIMEDOUT?
    else k in s.finished && r == if s.finished[k] == 0 then Ok else EIO
  }

  predicate GaveUp(d: Driver) {
    d.PreReset? || d.PreSync? || d.PreUnmask?
  }

  /** Transfer `k` has returned if it is over, and then truly. */
  ghost predicate TransferInv(s: State, k: nat) {
    && (k in s.timedOut ==> 1 <= k <= s.cur)
    && (k in s.returned <==> 1 <= k <= s.cur && (k == s.cur ==> s.driver.Idle?))
    && (k in s.returned ==> Honest(s, k, s.returned[k]))
  }

  ghost predicate ReturnInv(s: State) {
    && (!s.driver.Idle? ==> s.cur >= 1)
    && (s.driver.PreUnmap? ==> Honest(s, s.cur, s.driver.ret))
    && (GaveUp(s.driver) ==> s.cur in s.timedOut)
    && (s.cur in s.timedOut ==> GaveUp(s.driver) || s.driver.PreUnmap? || s.driver.Idle?)
    && (forall k :: TransferInv(s, k))
  }

  ghost predicate Inv(s: State) {
    EngineInv(s) && IntsInv(s) && HandlerInv(s) && WaitInv(s) && ReturnInv(s)
  }

  lemma DriverKeepsTransfer(s: State, a: Action, t: State, k: nat)
    requires EngineInv(s) && WaitInv(s) && ReturnInv(s) && DriverStep(s, a, t)
    ensures TransferInv(t, k)
  {
    assert TransferInv(s, k);
  }

  lemma DriverKeepsReturns(s: State, a: Action, t: State)
    requires EngineInv(s) && WaitInv(s) && ReturnInv(s) && DriverStep(s, a, t)
    ensures ReturnInv(t)
  {
    assert TransferInv(s, s.cur) && TransferInv(s, s.cur + 1);
    forall k ensures TransferInv(t, k) {
      DriverKeepsTransfer(s, a, t, k);
    }
  }

  lemma DriverKeepsDevice(s: State, a: Action, t: State)
    requires EngineInv(s) && IntsInv(s) && HandlerInv(s) && WaitInv(s) && DriverStep(s, a, t)
    ensures EngineInv(t) && IntsInv(t)
  {
  }

  lemma DriverKeepsWait(s: State, a: Action, t: State)
    requires EngineInv(s) && IntsInv(s) && HandlerInv(s) && WaitInv(s) && DriverStep(s, a, t)
    ensures HandlerInv(t) && WaitInv(t)
  {
  }

  lemma DriverKeeps(s: State, a: Action, t: State)
    requires Inv(s) && DriverStep(s, a, t)
    ensures Inv(t)
  {
    DriverKeepsReturns(s, a, t);
    DriverKeepsDevice(s, a, t);
    DriverKeepsWait(s, a, t);
  }

  lemma TimerKeeps(s: State, t: State)
    requires Inv(s) && TimerStep(s, t)
    ensures Inv(t)
  {
    forall k ensures TransferInv(t, k) {
      assert TransferInv(s, k);
    }
  }

  lemma HandlerKeepsDevice(s: State, a: Action, t: State)
    requires EngineInv(s) && IntsInv(s) && HandlerInv(s) && HandlerStep(s, a, t)
    ensures EngineInv(t) && IntsInv(t) && HandlerInv(t)
  {
  }

  lemma HandlerKeepsWait(s: State, a: Action, t: State)
    requires IntsInv(s) && HandlerInv(s) && WaitInv(s) && ReturnInv(s) && HandlerStep(s, a, t)
    ensures WaitInv(t) && ReturnInv(t)
  {
    forall k ensures TransferInv(t, k) {
      assert TransferInv(s, k);
    }
  }

  lemma HandlerKeeps(s: State, a: Action, t: State)
    requires Inv(s) && HandlerStep(s, a, t)
    ensures Inv(t)
  {
    HandlerKeepsDevice(s, a, t);
    HandlerKeepsWait(s, a, t);
  }

  lemma NextKeeps(s: State, t: State)
    requires Inv(s) && Next(s, t)
    ensures Inv(t)
  {
    var a :| Step(s, a, t);
    if DriverStep(s, a, t) {
      DriverKeeps(s, a, t);
    } else if HandlerStep(s, a, t) {
      HandlerKeeps(s, a, t);
    } else {
      TimerKeeps(s, t);
    }
  }

  lemma InitHolds(s: State)
    requires Init(s)
    ensures Inv(s)
  {
  }

  lemma {:induction false} RunKeeps(run: seq<State>, i: nat)
    requires Run(run) && i < |run|
    ensures Inv(run[i])
    decreases i
  {
    if i == 0 {
      InitHolds(run[0]);
    } else {
      RunKeeps(run, i - 1);
      assert StepAt(run, i);
      NextKeeps(run[i - 1], run[i]);
    }
  }

  // ---------------------------------------------------------------------------
  // The promises of the drivers
  // ---------------------------------------------------------------------------

  /**
   Over every interleaving, every transfer that was begun returns once, and the driver reports a
   timeout exactly for those whose wait gave up; every other one the engine itself finished, and
   the driver reports success exactly if its code was 0, and an I/O error otherwise.  The
   completion of a transfer that timed out is never taken for a later one.
   */
  lemma ReturnsAreHonest(run: seq<State>, i: nat, k: nat)
    requires Run(run) && i < |run| && 1 <= k <= run[i].cur && (k == run[i].cur ==> run[i].driver.Idle?)
    ensures var s := run[i];
            && k in s.returned
            && (s.returned[k] == ETIMEDOUT <==> k in s.timedOut)
            && (k !in s.timedOut ==> k in s.finished && (s.returned[k] == Ok <==> s.finished[k] == 0))
            && (k !in s.timedOut ==> (s.returned[k] == EIO <==> s.finished[k] != 0))
  {
    RunKeeps(run, i);
    assert TransferInv(run[i], k);
  }

  /** What was reported of transfer `k` in `s` still stands in `t`. */
  ghost predicate History(s: State, t: State, k: nat) {
    && (k in s.finished ==> k in t.finished && t.finished[k] == s.finished[k])
    && (k in s.timedOut ==> k in t.timedOut)
    && (k in s.returned ==> k in t.returned && t.returned[k] == s.returned[k])
  }

  lemma {:induction false} HistoryAlong(run: seq<State>, i: nat, j: nat, k: nat)
    requires i <= j < |run| && forall m :: 0 < m < |run| ==> History(run[m - 1], run[m], k)
    ensures History(run[i], run[j], k)
    decreases j
  {
    if i < j {
      HistoryAlong(run, i, j - 1, k);
      assert History(run[j - 1], run[j], k);
    }
  }

  /** The engine finishes a transfer once, and the driver returns from it once. */
  lemma HistoryIsKept(run: seq<State>, i: nat, j: nat, k: nat)
    requires Run(run) && i <= j < |run|
    ensures History(run[i], run[j], k)
  {
    forall m | 0 < m < |run| ensures History(run[m - 1], run[m], k) {
      RunKeeps(run, m - 1);
      assert StepAt(run, m);
      NextKeepsHistory(run[m - 1], run[m], k);
    }
    HistoryAlong(run, i, j, k);
  }

  lemma NextKeepsHistory(s: State, t: State, k: nat)
    requires Inv(s) && Next(s, t)
    ensures History(s, t, k)
  {
    var a :| Step(s, a, t);
    StepKeepsHistory(s, a, t, k);
  }

  lemma StepKeepsHistory(s: State, a: Action, t: State, k: nat)
    requires Inv(s) && Step(s, a, t)
    ensures History(s, t, k)
  {
    assert TransferInv(s, k);
  }

  /** The driver is never stuck: whatever it waits for, it or the handler it waits for can go on. */
  lemma DriverGoesOn(run: seq<State>, i: nat)
    requires Run(run) && i < |run| && !run[i].driver.Idle?
    ensures exists a, t :: Step(run[i], a, t) && (t.driver != run[i].driver || t.handler != run[i].handler)
  {
    RunKeeps(run, i);
    var s := run[i];
    match s.driver
    case PreReinit => assert Step(s, Reinit, s.(driver := PreStart, completion := 0));
    case PreStart =>
      var o := Outcome(0, 0, 0);
      assert Step(s, StartDma(o), s.(driver := Waiting, engine := Start(s.engine, o), running := s.cur));
    case Waiting =>
      if s.completion > 0 {
        assert Step(s, Woken, s.(completion := s.completion - 1, driver := PreResult));
      } else {
        assert Step(s, TimeOut, s.(driver := PreReset, timedOut := s.timedOut + {s.cur}));
      }
    case PreResult =>
      assert Step(s, Result, s.(driver := PreUnmap(if DmaError in s.intStatus then EIO else Ok)));
    case PreReset =>
      assert Step(s, ResetDevice,
                  s.(driver := PreSync, engine := RESET_DEVICE.engine, ints := RESET_DEVICE.ints, line := false));
    case PreSync => HandlerGoesOn(s);
    case PreUnmask =>
      assert Step(s, Unmask, Signal(s, SetMask(s.ints, DMA_EVENTS)).(driver := PreUnmap(ETIMEDOUT)));
    case PreUnmap(ret) =>
      assert Step(s, Unmap, s.(driver := Idle, mapped := false, returned := s.returned[s.cur := ret]));
  }

  lemma HandlerGoesOn(s: State)
    requires s.driver.PreSync? || !s.handler.NotRunning?
    ensures exists a, t :: Step(s, a, t) && (t.driver != s.driver || t.handler != s.handler)
  {
    match s.handler
    case NotRunning => assert Step(s, Synchronize, s.(driver := PreUnmask));
    case PreRead =>
      var status := s.ints.raised * DMA_EVENTS;
      assert Step(s, Read, s.(handler := if status == {} then NotRunning else PreClear(status)));
    case PreClear(status) =>
      assert Step(s, Acknowledge, Signal(s, Clear(s.ints, status)).(handler := PreStore(status)));
    case PreStore(status) => assert Step(s, Store, s.(handler := PreComplete, intStatus := status));
    case PreComplete => assert Step(s, CompleteDone, s.(handler := NotRunning, completion := s.completion + 1));
  }

  /** The engine runs only on behalf of the waiting driver, with the buffer mapped for it. */
  lemma NeverUnmappedWhileBusy(run: seq<State>, i: nat)
    requires Run(run) && i < |run| && Busy(run[i].engine)
    ensures run[i].mapped && InTransfer(run[i].driver) && run[i].running == run[i].cur
  {
    RunKeeps(run, i);
  }

  /** A START is never lost to a busy engine, and never signals a stale completion. */
  lemma StartIsAccepted(run: seq<State>, i: nat)
    requires Run(run) && i < |run| && run[i].driver.PreStart?
    ensures !Busy(run[i].engine) && run[i].completion == 0
    ensures run[i].ints.raised == {} && !Carrying(run[i].handler)
  {
    RunKeeps(run, i);
  }

  /**
   While the driver waits, a finished transfer has its completion set, a handler that will
   set it, or an interrupt that will start one.
   */
  lemma NoLostCompletion(run: seq<State>, i: nat)
    requires Run(run) && i < |run| && run[i].driver.Waiting? && !Busy(run[i].engine)
    ensures var s := run[i];
            s.completion > 0 || Carrying(s.handler) ||
            (s.ints.raised != {} &&
             (s.handler.PreRead? || if s.mode == Msi then s.message else s.line))
  {
    RunKeeps(run, i);
  }

  /** After remove() no transfer is started and the device does not interrupt. */
  lemma QuietAfterRemove(run: seq<State>, i: nat)
    requires Run(run) && i < |run| && run[i].removed
    ensures run[i].driver.Idle? && !Busy(run[i].engine) && Pending(run[i].ints) == {} && !run[i].line
  {
    RunKeeps(run, i);
  }
}
