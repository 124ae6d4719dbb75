/**
 Counting interrupts: examples/26_msi_interrupt/main.c against the interrupt registers of
 ldd-pcie, under MSI-X, MSI and INTx (section 6.8 of the PCI Local Bus Specification,
 revision 3.0), as a step system of events, message delivery and handlers.

 With MSI-X each event has a vector, and the handlers of different vectors run at once.
 With MSI and INTx there is one handler.  Messages for one vector that wait to be
 delivered coalesce.
 */
module MsiProtocol {
  import opened PcieRegs

  /** msi_handler() between two of its steps. */
  datatype Handler =
    | NotRunning
    | PreRead
    | PreClear(status: set<Event>)
    | Counting(left: set<Event>)

  datatype State = State(
    mode: Mode,
    ints: Ints,
    probed: bool,               // msi_probe() has unmasked the events
    removed: bool,
    vectors: set<Event>,        // MSI-X: vectors with a message on its way
    starting: set<Event>,       // MSI-X: handlers started, bit not yet cleared
    counting: set<Event>,       // MSI-X: bit cleared, event not yet counted
    message: bool,              // MSI: a message on its way
    line: bool,                 // INTx: the level that pci_set_irq() put on the line
    handler: Handler,           // MSI and INTx
    counts: multiset<Event>,    // msi->count[]
    rises: multiset<Event>)     // history: 0 to 1 changes of each INT_STATUS bit

  /** In msi_probe(), after INT_MASK and INT_STATUS are cleared. */
  ghost predicate Init(s: State) {
    && s.ints == Ints({}, {}, {}) && !s.probed && !s.removed
    && s.vectors == s.starting == s.counting == {} && !s.message && !s.line && s.handler.NotRunning?
    && s.counts == s.rises == multiset{}
  }

  /** ldd_pcie_update_irq() after the registers became `i`. */
  function Signal(s: State, i: Ints): State {
    s.(ints := Update(i),
       vectors := if s.mode == MsiX then s.vectors + Fresh(i) else s.vectors,
       message := s.message || (s.mode == Msi && Fresh(i) != {}),
       line := s.mode == IntX && Pending(i) != {})
  }

  datatype Action =
    | Happen(bits: set<Event>)      // the DMA engine, or a write to INT_RAISE
    | Unmask
    | Remove
    | VectorStart(e: Event)
    | VectorClear(e: Event)
    | VectorCount(e: Event)
    | Deliver
    | Spurious
    | Read
    | Acknowledge
    | CountOne(e: Event)

  ghost predicate DeviceStep(s: State, a: Action, t: State) {
    match a
    case Happen(bits) =>
      t == Signal(s, Raise(s.ints, bits)).(rises := s.rises + multiset(bits - s.ints.raised))
    case Unmask =>
      !s.probed && t == Signal(s, SetMask(s.ints, ALL_EVENTS)).(probed := true)
    case Remove =>
      s.probed && t == Signal(s, SetMask(s.ints, {})).(removed := true)
    case _ => false
  }

  /** msi_vec_handler(): it clears its bit without reading INT_STATUS. */
  ghost predicate VectorStep(s: State, a: Action, t: State) {
    s.mode == MsiX &&
    match a
    case VectorStart(e) =>
      e in s.vectors && e !in s.starting && e !in s.counting &&
      t == s.(vectors := s.vectors - {e}, starting := s.starting + {e})
    case VectorClear(e) =>
      e in s.starting &&
      t == Signal(s, Clear(s.ints, {e})).(starting := s.starting - {e}, counting := s.counting + {e})
    case VectorCount(e) =>
      e in s.counting &&
      t == s.(counting := s.counting - {e}, counts := s.counts + multiset{e})
    case _ => false
  }

  /** msi_handler(); an INTx line may be shared, so it may be called for nothing. */
  ghost predicate HandlerStep(s: State, a: Action, t: State) {
    s.mode != MsiX &&
    match a
    case Deliver =>
      s.handler.NotRunning? && (if s.mode == Msi then s.message else s.line) &&
      t == s.(handler := PreRead, message := false)
    case Spurious =>
      s.mode == IntX && s.handler.NotRunning? && t == s.(handler := PreRead)
    case Read =>
      s.handler.PreRead? &&
      t == s.(handler := if s.ints.raised == {} then NotRunning else PreClear(s.ints.raised))
    case Acknowledge =>
      s.handler.PreClear? &&
      t == Signal(s, Clear(s.ints, s.handler.status)).(handler := Counting(s.handler.status))
    case CountOne(e) =>
      s.handler.Counting? && e in s.handler.left &&
      var left := s.handler.left - {e};
      t == s.(handler := if left == {} then NotRunning else Counting(left),
              counts := s.counts + multiset{e})
    case _ => false
  }

  ghost predicate Step(s: State, a: Action, t: State) {
    DeviceStep(s, a, t) || VectorStep(s, a, t) || HandlerStep(s, a, t)
  }

  ghost predicate Next(s: State, t: State) {
    exists a :: Step(s, a, t)
  }

  /** State `i` of the run is one step behind the state before it. */
  ghost predicate StepAt(run: seq<State>, i: nat) {
    0 < i < |run| && Next(run[i - 1], run[i])
  }

  ghost predicate Run(run: seq<State>) {
    run != [] && Init(run[0]) && forall i :: 0 < i < |run| ==> StepAt(run, i)
  }

  function B(b: bool): nat {
    if b then 1 else 0
  }

  /** A handler has cleared the bit of `e` and not yet counted it. */
  predicate BeingCounted(s: State, e: Event) {
    e in s.counting || (s.handler.Counting? && e in s.handler.left)
  }

  predicate Accounted(s: State, e: Event) {
    s.rises[e] == s.counts[e] + B(e in s.ints.raised) + B(BeingCounted(s, e))
  }

  /** The interrupt for `e` is on its way, or a handler that will clear its bit has started. */
  predicate OnItsWay(s: State, e: Event) {
    match s.mode
    case MsiX => e in s.vectors || e in s.starting
    case Msi => s.message || s.handler.PreRead? || (s.handler.PreClear? && e in s.handler.status)
    case IntX => s.line     // and it stays asserted until no bit is set and unmasked
  }

  ghost predicate EventInv(s: State, e: Event) {
    && Accounted(s, e)
    && (e in s.ints.sent <==> e in s.ints.raised && e in s.ints.mask)
    && (e in s.ints.sent ==> OnItsWay(s, e))
    && (e in s.vectors || e in s.starting ==> s.mode == MsiX && e in s.ints.raised)
    && (e in s.vectors || e in s.starting ==> s.removed || e in s.ints.mask)
    && !(e in s.vectors && e in s.starting) && !(e in s.starting && e in s.counting)
    && (s.removed ==> e !in s.ints.mask)
    && (e in s.counting ==> s.mode == MsiX)
    && (s.handler.PreClear? && e in s.handler.status ==> e in s.ints.raised)
  }

  /** The line is asserted exactly while something is pending. */
  ghost predicate LineInv(s: State) {
    s.line <==> s.mode == IntX && Pending(s.ints) != {}
  }

  /** All events are unmasked from probe to remove; a handler that runs has something to do. */
  ghost predicate ModeInv(s: State) {
    && s.ints.mask == (if s.probed && !s.removed then {DmaDone, DmaError, Soft} else {})
    && (s.removed ==> s.probed)
    && (s.handler.PreClear? ==> s.handler.status != {})
    && (s.handler.Counting? ==> s.handler.left != {})
  }

  ghost predicate Inv(s: State) {
    && (s.mode == MsiX ==> s.handler.NotRunning?)
    && LineInv(s)
    && ModeInv(s)
    && forall e :: EventInv(s, e)
  }

  lemma DeviceKeeps(s: State, a: Action, t: State, e: Event)
    requires Inv(s) && DeviceStep(s, a, t)
    ensures EventInv(t, e)
  {
    assert EventInv(s, e);
    var i := if a.Happen? then Raise(s.ints, a.bits)
             else SetMask(s.ints, if a.Unmask? then ALL_EVENTS else {});
    assert e in Fresh(i) ==> Fresh(i) != {};
  }

  lemma VectorKeeps(s: State, a: Action, t: State, e: Event)
    requires Inv(s) && VectorStep(s, a, t)
    ensures EventInv(t, e)
  {
    assert EventInv(s, e);
  }

  lemma HandlerKeeps(s: State, a: Action, t: State, e: Event)
    requires Inv(s) && HandlerStep(s, a, t)
    ensures EventInv(t, e)
  {
    assert EventInv(s, e);
  }

  lemma StepKeeps(s: State, a: Action, t: State)
    requires Inv(s) && Step(s, a, t)
    ensures Inv(t)
  {
    forall e ensures EventInv(t, e) {
      if DeviceStep(s, a, t) {
        DeviceKeeps(s, a, t, e);
      } else if VectorStep(s, a, t) {
        VectorKeeps(s, a, t, e);
      } else {
        HandlerKeeps(s, a, t, e);
      }
    }
    LineKeeps(s, a, t);
  }

  lemma LineKeeps(s: State, a: Action, t: State)
    requires LineInv(s) && ModeInv(s) && (s.mode == MsiX ==> s.handler.NotRunning?) && Step(s, a, t)
    ensures LineInv(t) && ModeInv(t) && (t.mode == MsiX ==> t.handler.NotRunning?)
  {
  }

  lemma {:induction false} RunKeeps(run: seq<State>, i: nat)
    requires Run(run) && i < |run|
    ensures Inv(run[i])
    decreases i
  {
    if i > 0 {
      RunKeeps(run, i - 1);
      assert StepAt(run, i);
      var a :| Step(run[i - 1], a, run[i]);
      StepKeeps(run[i - 1], a, run[i]);
    }
  }

  // ---------------------------------------------------------------------------
  // The promises of the driver
  // ---------------------------------------------------------------------------

  /** In all three modes each rise of an INT_STATUS bit is counted exactly once. */
  lemma EveryRiseCounted(run: seq<State>, i: nat, e: Event)
    requires Run(run) && i < |run|
    ensures var s := run[i];
            s.rises[e] == s.counts[e] + B(e in s.ints.raised) + B(BeingCounted(s, e))
  {
    RunKeeps(run, i);
    assert EventInv(run[i], e);
  }

  /** The INTx line follows the registers through every write and every handler. */
  lemma LineFollows(run: seq<State>, i: nat)
    requires Run(run) && i < |run|
    ensures run[i].line <==> run[i].mode == IntX && Pending(run[i].ints) != {}
  {
    RunKeeps(run, i);
  }

  /**
   A set and unmasked bit, even one that rose after the handler read, has its interrupt on the
   way or a handler that will clear it; and if no handler runs, one can start.
   */
  lemma NoEventForgotten(run: seq<State>, i: nat, e: Event)
    requires Run(run) && i < |run| && run[i].probed && !run[i].removed && e in run[i].ints.raised
    ensures OnItsWay(run[i], e)
    ensures run[i].mode != MsiX && run[i].handler.NotRunning? ==> exists t :: HandlerStep(run[i], Deliver, t)
  {
    RunKeeps(run, i);
    var s := run[i];
    assert EventInv(s, e) && e in Pending(s.ints);
    var t := s.(handler := PreRead, message := false);
    assert s.mode != MsiX && s.handler.NotRunning? ==> HandlerStep(s, Deliver, t);
  }

  /** A new MSI-X message is never lost to one that still waits for the same vector. */
  lemma VectorsDoNotCoalesce(run: seq<State>, i: nat, a: Action, t: State, e: Event)
    requires Run(run) && i < |run| && run[i].mode == MsiX && DeviceStep(run[i], a, t)
    requires e in t.ints.sent && e !in run[i].ints.sent && run[i].probed
    ensures e !in run[i].vectors && e in t.vectors && t.rises[e] == run[i].rises[e] + 1
  {
    RunKeeps(run, i);
    assert EventInv(run[i], e);
  }

  /** Whatever happens is recorded: its bit is set, and a bit that was not set before has risen. */
  lemma EventsAreRecorded(s: State, bits: set<Event>, t: State, e: Event)
    requires DeviceStep(s, Happen(bits), t)
    ensures t.ints.raised == s.ints.raised + bits && t.counts == s.counts
    ensures t.rises[e] == s.rises[e] + if e in bits && e !in s.ints.raised then 1 else 0
  {
  }

  /** A bit is cleared only by a handler that will count it. */
  lemma ClearedIsCounted(run: seq<State>, i: nat, e: Event)
    requires Run(run) && 0 < i < |run| && e in run[i - 1].ints.raised && e !in run[i].ints.raised
    ensures BeingCounted(run[i], e) && !BeingCounted(run[i - 1], e)
  {
    RunKeeps(run, i - 1);
    RunKeeps(run, i);
    assert StepAt(run, i);
    var a :| Step(run[i - 1], a, run[i]);
    assert EventInv(run[i - 1], e) && EventInv(run[i], e);
    ClearingStep(run[i - 1], a, run[i], e);
  }

  lemma ClearingStep(s: State, a: Action, t: State, e: Event)
    requires Step(s, a, t) && EventInv(s, e) && EventInv(t, e) && e in s.ints.raised && e !in t.ints.raised
    ensures t.rises[e] == s.rises[e] && t.counts[e] == s.counts[e]
  {
  }

  /** A handler that runs, or a vector whose message is there, can go on. */
  lemma HandlersGoOn(run: seq<State>, i: nat)
    requires Run(run) && i < |run|
    requires var s := run[i]; !s.handler.NotRunning? || s.vectors + s.starting + s.counting != {}
    ensures exists a, t :: (VectorStep(run[i], a, t) || HandlerStep(run[i], a, t)) && t != run[i]
  {
    RunKeeps(run, i);
    var s := run[i];
    if s.counting != {} {
      var e :| e in s.counting;
      assert EventInv(s, e);
      assert VectorStep(s, VectorCount(e), s.(counting := s.counting - {e}, counts := s.counts + multiset{e}));
    } else if s.starting != {} {
      var e :| e in s.starting;
      assert EventInv(s, e);
      var t := Signal(s, Clear(s.ints, {e})).(starting := s.starting - {e}, counting := s.counting + {e});
      assert VectorStep(s, VectorClear(e), t);
    } else if s.vectors != {} {
      var e :| e in s.vectors;
      assert EventInv(s, e);
      assert VectorStep(s, VectorStart(e), s.(vectors := s.vectors - {e}, starting := s.starting + {e}));
    } else {
      match s.handler
      case PreRead =>
        assert HandlerStep(s, Read, s.(handler := if s.ints.raised == {} then NotRunning else PreClear(s.ints.raised)));
      case PreClear(status) =>
        assert HandlerStep(s, Acknowledge, Signal(s, Clear(s.ints, status)).(handler := Counting(status)));
      case Counting(left) =>
        var e :| e in left;
        var rest := left - {e};
        var h := if rest == {} then NotRunning else Counting(rest);
        assert HandlerStep(s, CountOne(e), s.(handler := h, counts := s.counts + multiset{e}));
    }
  }
}
