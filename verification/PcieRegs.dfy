/**
 The registers of the ldd-pcie device (tools/qemu/hw/ldd/pcie.c) as values: what each
 register write, the completion timer and a reset make of them, and what every sequence
 of those keeps.  The data itself is moved in PcieTransfer.
 */
module PcieRegs {

  type u32 = x: int | 0 <= x < 0x1_0000_0000
  type u64 = x: int | 0 <= x < 0x1_0000_0000_0000_0000

  // BAR0 offsets of the registers that change
  const REG_SCRATCH := 0x0c
  const REG_CTRL := 0x10
  const REG_STATUS := 0x14
  const REG_INT_STATUS := 0x18
  const REG_INT_MASK := 0x1c
  const REG_INT_RAISE := 0x20
  const REG_DESC_ADDR_LO := 0x40
  const REG_DESC_ADDR_HI := 0x44
  const REG_DESC_COUNT := 0x48
  const REG_DEV_OFFSET := 0x4c
  const REG_DMA_CTRL := 0x50
  const REG_XFER_BYTES := 0x54
  const REG_ERR_DESC := 0x58
  const REG_XOR := 0x5c

  const STATUS_BUSY := 1
  const STATUS_DONE := 2
  const STATUS_ERROR := 4

  // STATUS.ERR_CODE
  const ERR_NO_MASTER := 1
  const ERR_BAD_COUNT := 2
  const ERR_BAD_DESC := 3
  const ERR_OUT_OF_RANGE := 4
  const ERR_DMA_FAULT := 5

  predicate Bit(val: u32, n: nat)
    requires n <= 2
  {
    (val / (if n == 0 then 1 else if n == 1 then 2 else 4)) % 2 == 1
  }

  // ---------------------------------------------------------------------------
  // Interrupt registers
  // ---------------------------------------------------------------------------

  /** Bits 0, 1 and 2 of INT_STATUS, INT_MASK and INT_RAISE. */
  datatype Event = DmaDone | DmaError | Soft

  datatype Mode = MsiX | Msi | IntX

  const ALL_EVENTS: set<Event> := {DmaDone, DmaError, Soft}
  const DMA_EVENTS: set<Event> := {DmaDone, DmaError}

  function Events(val: u32): set<Event> {
    (if Bit(val, 0) then {DmaDone} else {}) +
    (if Bit(val, 1) then {DmaError} else {}) +
    (if Bit(val, 2) then {Soft} else {})
  }

  /** INT_STATUS, INT_MASK and `irq_sent`. */
  datatype Ints = Ints(raised: set<Event>, mask: set<Event>, sent: set<Event>)

  function Pending(i: Ints): set<Event> {
    i.raised * i.mask
  }

  /** What ldd_pcie_update_irq() signals: a message for each of these, or one for them all. */
  function Fresh(i: Ints): set<Event> {
    Pending(i) - i.sent
  }

  function Update(i: Ints): Ints {
    i.(sent := Pending(i))
  }

  function Raise(i: Ints, bits: set<Event>): Ints {
    i.(raised := i.raised + bits)
  }

  function Clear(i: Ints, bits: set<Event>): Ints {
    i.(raised := i.raised - bits)
  }

  function SetMask(i: Ints, bits: set<Event>): Ints {
    i.(mask := bits)
  }

  // ---------------------------------------------------------------------------
  // The transfer engine
  // ---------------------------------------------------------------------------

  /** `armed` is the completion timer; `result` the code that it will report. */
  datatype Engine = Engine(status: u32, result: u32, armed: bool, xferBytes: nat, errDesc: nat)

  predicate Busy(e: Engine) {
    e.status % 2 == 1
  }

  /** What ldd_pcie_transfer() returned and left in XFER_BYTES and ERR_DESC. */
  datatype Outcome = Outcome(code: u32, moved: nat, errDesc: nat)

  function Start(e: Engine, o: Outcome): Engine {
    Engine(STATUS_BUSY, o.code, true, o.moved, o.errDesc)
  }

  function DoneStatus(result: u32): u32
    requires result <= 5
  {
    if result != 0 then STATUS_ERROR + result * 256 else STATUS_DONE
  }

  function DoneEvent(result: u32): Event {
    if result != 0 then DmaError else DmaDone
  }

  // ---------------------------------------------------------------------------
  // The whole register file
  // ---------------------------------------------------------------------------

  /** The registers that describe a transfer. */
  datatype Program = Program(descHi: u32, descLo: u32, descCount: u32, devOffset: u32, toGuest: bool)

  datatype Device = Device(scratch: u32, ints: Ints, engine: Engine, prog: Program, xor: u32)

  const RESET_DEVICE: Device :=
    Device(0, Ints({}, {}, {}), Engine(0, 0, false, 0, 0), Program(0, 0, 0, 0, false), 0)

  /** `desc_addr`, which the driver writes in halves. */
  function DescAddr(p: Program): u64 {
    p.descHi * 0x1_0000_0000 + p.descLo
  }

  /** ldd_pcie_bar0_write(); `o` is the outcome of the transfer that a START would run. */
  function Write(d: Device, reg: int, val: u32, o: Outcome): Device {
    var busy := Busy(d.engine);
    if reg == REG_SCRATCH then d.(scratch := val)
    else if reg == REG_CTRL then if Bit(val, 0) then RESET_DEVICE else d
    else if reg == REG_INT_STATUS then d.(ints := Update(Clear(d.ints, Events(val))))
    else if reg == REG_INT_MASK then d.(ints := Update(SetMask(d.ints, Events(val))))
    else if reg == REG_INT_RAISE then d.(ints := Update(Raise(d.ints, Events(val))))
    else if reg == REG_DESC_ADDR_LO then
      if busy then d else d.(prog := d.prog.(descLo := val - val % 16))
    else if reg == REG_DESC_ADDR_HI then
      if busy then d else d.(prog := d.prog.(descHi := val))
    else if reg == REG_DESC_COUNT then
      if busy then d else d.(prog := d.prog.(descCount := val))
    else if reg == REG_DEV_OFFSET then
      if busy then d else d.(prog := d.prog.(devOffset := val))
    else if reg == REG_DMA_CTRL then
      if busy then d
      else
        var e := if Bit(val, 1) then Start(d.engine, o) else d.engine;
        d.(prog := d.prog.(toGuest := Bit(val, 0)), engine := e)
    else if reg == REG_XOR then d.(xor := val % 256)
    else d
  }

  /** The number whose low three bits are `events`. */
  function Bits(events: set<Event>): u32 {
    (if DmaDone in events then 1 else 0) + (if DmaError in events then 2 else 0) + (if Soft in events then 4 else 0)
  }

  /** ldd_pcie_bar0_read() of the registers that change; the write-only ones read as 0. */
  function Read(d: Device, reg: int): int {
    if reg == REG_SCRATCH then d.scratch
    else if reg == REG_STATUS then d.engine.status
    else if reg == REG_INT_STATUS then Bits(d.ints.raised)
    else if reg == REG_INT_MASK then Bits(d.ints.mask)
    else if reg == REG_DESC_ADDR_LO then d.prog.descLo
    else if reg == REG_DESC_ADDR_HI then d.prog.descHi
    else if reg == REG_DESC_COUNT then d.prog.descCount
    else if reg == REG_DEV_OFFSET then d.prog.devOffset
    else if reg == REG_DMA_CTRL then if d.prog.toGuest then 1 else 0
    else if reg == REG_XFER_BYTES then d.engine.xferBytes
    else if reg == REG_ERR_DESC then d.engine.errDesc
    else if reg == REG_XOR then d.xor
    else 0
  }

  predicate IsProgram(reg: int) {
    reg == REG_DESC_ADDR_LO || reg == REG_DESC_ADDR_HI || reg == REG_DESC_COUNT || reg == REG_DEV_OFFSET
    || reg == REG_DMA_CTRL
  }

  /** The two halves of `desc_addr` as extract64() takes them. */
  lemma AddrHalves(p: Program)
    ensures DescAddr(p) % 0x1_0000_0000 == p.descLo && DescAddr(p) / 0x1_0000_0000 == p.descHi
  {
  }

  lemma BitsOfEvents(val: u32)
    ensures Bits(Events(val)) == val % 8
  {
    var half, quarter, rest := val / 2, val / 4, val / 8;
    assert half == 2 * quarter + half % 2;
    assert quarter == 2 * rest + quarter % 2;
    LowThree(rest, val % 2, half % 2, quarter % 2);
  }

  lemma LowThree(rest: nat, x: nat, y: nat, z: nat)
    requires x <= 1 && y <= 1 && z <= 1
    ensures (8 * rest + (x + 2 * y + 4 * z)) % 8 == x + 2 * y + 4 * z
  {
  }

  lemma BitsOfSum(x: nat, y: nat, z: nat)
    requires x <= 1 && y <= 1 && z <= 1
    ensures Bit(x + 2 * y + 4 * z, 0) <==> x == 1
    ensures Bit(x + 2 * y + 4 * z, 1) <==> y == 1
    ensures Bit(x + 2 * y + 4 * z, 2) <==> z == 1
  {
    assert (x + 2 * y + 4 * z) / 2 == y + 2 * z && (x + 2 * y + 4 * z) / 4 == z;
  }

  lemma EventsOfBits(events: set<Event>)
    ensures Events(Bits(events)) == events
  {
    BitsOfSum(if DmaDone in events then 1 else 0, if DmaError in events then 1 else 0, if Soft in events then 1 else 0);
    forall e ensures e in Events(Bits(events)) <==> e in events {
      match e
      case DmaDone =>
      case DmaError =>
      case Soft =>
    }
  }

  /** What a register reads as after it was written. */
  lemma WriteReadsBack(d: Device, reg: int, val: u32, o: Outcome)
    ensures var r := Read(Write(d, reg, val, o), reg);
      && (reg == REG_SCRATCH ==> r == val)
      && (reg == REG_CTRL || reg == REG_INT_RAISE ==> r == 0)
      && (reg == REG_INT_MASK ==> r == val % 8)
      && (reg == REG_INT_STATUS ==> Events(r) == Events(Read(d, reg)) - Events(val))
      && (reg == REG_XOR ==> r == val % 256)
      && (IsProgram(reg) && Busy(d.engine) ==> r == Read(d, reg))
      && (IsProgram(reg) && !Busy(d.engine) ==>
            r == if reg == REG_DESC_ADDR_LO then val - val % 16 else if reg == REG_DMA_CTRL then val % 2 else val)
  {
    BitsOfEvents(val);
    EventsOfBits(d.ints.raised);
    EventsOfBits(d.ints.raised - Events(val));
  }

  /**
   A write changes no other register, but for a reset, INT_RAISE, which sets bits of INT_STATUS,
   and an accepted START, which sets STATUS, XFER_BYTES and ERR_DESC.
   */
  lemma WriteLeavesOthers(d: Device, reg: int, val: u32, o: Outcome, other: int)
    requires other != reg && !Resets(WriteReg(reg, val, o))
    ensures reg == REG_INT_RAISE && other == REG_INT_STATUS ==>
      Events(Read(Write(d, reg, val, o), other)) == Events(Read(d, other)) + Events(val)
    ensures !(reg == REG_INT_RAISE && other == REG_INT_STATUS)
            && !(AcceptsStart(d, WriteReg(reg, val, o))
                 && (other == REG_STATUS || other == REG_XFER_BYTES || other == REG_ERR_DESC)) ==>
      Read(Write(d, reg, val, o), other) == Read(d, other)
  {
    if reg == REG_INT_RAISE {
      EventsOfBits(d.ints.raised);
      EventsOfBits(d.ints.raised + Events(val));
    }
  }

  /** ldd_pcie_complete(), run by the timer. */
  function Complete(d: Device): Device
    requires d.engine.result <= 5
  {
    d.(engine := d.engine.(status := DoneStatus(d.engine.result), armed := false),
       ints := Update(Raise(d.ints, {DoneEvent(d.engine.result)})))
  }

  // ---------------------------------------------------------------------------
  // Every sequence of inputs
  // ---------------------------------------------------------------------------

  datatype Input =
    | WriteReg(reg: int, val: u32, o: Outcome)
    | TimerFires
    | FunctionReset

  predicate Allowed(d: Device, i: Input) {
    match i
    case WriteReg(_, _, o) => o.code <= 5
    case TimerFires => d.engine.armed && d.engine.result <= 5
    case FunctionReset => true
  }

  function Apply(d: Device, i: Input): Device
    requires Allowed(d, i)
  {
    match i
    case WriteReg(reg, val, o) => Write(d, reg, val, o)
    case TimerFires => Complete(d)
    case FunctionReset => RESET_DEVICE
  }

  predicate Resets(i: Input) {
    i.FunctionReset? || (i.WriteReg? && i.reg == REG_CTRL && Bit(i.val, 0))
  }

  predicate AcceptsStart(d: Device, i: Input) {
    i.WriteReg? && i.reg == REG_DMA_CTRL && Bit(i.val, 1) && !Busy(d.engine)
  }

  /** A run: the states from reset on, and the input between each two. */
  ghost predicate Run(states: seq<Device>, inputs: seq<Input>) {
    |states| == |inputs| + 1 && states[0] == RESET_DEVICE &&
    forall k :: 0 <= k < |inputs| ==> Follows(states, inputs, k)
  }

  ghost predicate Follows(states: seq<Device>, inputs: seq<Input>, k: nat)
    requires k < |inputs| && k + 1 < |states|
  {
    Allowed(states[k], inputs[k]) && states[k + 1] == Apply(states[k], inputs[k])
  }

  ghost predicate LegalStatus(s: u32) {
    s == 0 || s == STATUS_BUSY || s == STATUS_DONE ||
    exists code :: 1 <= code <= 5 && s == STATUS_ERROR + code * 256
  }

  ghost predicate Inv(d: Device) {
    && (Busy(d.engine) <==> d.engine.armed)
    && LegalStatus(d.engine.status)
    && d.engine.result <= 5
    && d.ints.sent == d.ints.raised * d.ints.mask
    && d.prog.descLo % 16 == 0
    && d.xor <= 0xff
  }

  lemma ApplyKeeps(d: Device, i: Input)
    requires Inv(d) && Allowed(d, i)
    ensures Inv(Apply(d, i))
  {
    if i.TimerFires? && d.engine.result != 0 {
      assert Apply(d, i).engine.status == STATUS_ERROR + d.engine.result * 256;
    }
  }

  /** Over every sequence of register writes, timer firings and resets. */
  lemma {:induction false} RunKeeps(states: seq<Device>, inputs: seq<Input>, k: nat)
    requires Run(states, inputs) && k < |states|
    ensures Inv(states[k])
    decreases k
  {
    if k > 0 {
      RunKeeps(states, inputs, k - 1);
      assert Follows(states, inputs, k - 1);
      ApplyKeeps(states[k - 1], inputs[k - 1]);
    }
  }

  /** While the engine stays busy, nothing changes what it runs or what it will report. */
  lemma {:induction false} FrozenWhileBusy(states: seq<Device>, inputs: seq<Input>, i: nat, j: nat)
    requires Run(states, inputs) && i <= j < |states|
    requires forall k :: i <= k <= j ==> Busy(states[k].engine)
    ensures states[j].prog == states[i].prog && states[j].engine == states[i].engine
    decreases j
  {
    if i < j {
      FrozenWhileBusy(states, inputs, i, j - 1);
      RunKeeps(states, inputs, j - 1);
      assert Follows(states, inputs, j - 1) && Busy(states[j - 1].engine) && Busy(states[j].engine);
    }
  }

  /** What a guest reads of a transfer that came to `o`: while it runs, and after the timer fired. */
  ghost predicate Reads(d: Device, o: Outcome, done: bool) {
    && Read(d, REG_XFER_BYTES) == o.moved
    && Read(d, REG_ERR_DESC) == o.errDesc
    && Read(d, REG_STATUS) == if !done then 1 else if o.code == 0 then 2 else 4 + 256 * o.code
  }

  /** The timer fired between states `i` and `j`. */
  predicate Fired(inputs: seq<Input>, i: nat, j: nat)
    requires i <= j <= |inputs|
    decreases j
  {
    i < j && (inputs[j - 1].TimerFires? || Fired(inputs, i, j - 1))
  }

  /** Nothing reset the device or started another transfer between states `i` and `j`. */
  ghost predicate Undisturbed(states: seq<Device>, inputs: seq<Input>, i: nat, j: nat)
    requires j <= |inputs| <= |states|
  {
    forall k :: i <= k < j ==> !Resets(inputs[k]) && !AcceptsStart(states[k], inputs[k])
  }

  /** The same step by step: the timer fires once, and whatever else is written changes nothing of it. */
  lemma ReportStays(d: Device, i: Input, o: Outcome, done: bool)
    requires Allowed(d, i) && Inv(d) && !Resets(i) && !AcceptsStart(d, i)
    requires Reads(d, o, done) && (!done ==> d.engine.result == o.code)
    ensures !(done && i.TimerFires?)
    ensures Reads(Apply(d, i), o, done || i.TimerFires?)
    ensures !done && !i.TimerFires? ==> Apply(d, i).engine.result == o.code
  {
  }

  /**
   From an accepted START on, until a reset or the next one: XFER_BYTES and ERR_DESC are what the
   transfer left, STATUS is BUSY until the timer fires, and then DONE, or ERROR with its code.
   */
  lemma {:induction false} TransferReported(states: seq<Device>, inputs: seq<Input>, i: nat, j: nat)
    requires Run(states, inputs) && i < j <= |inputs| && AcceptsStart(states[i], inputs[i])
    requires Undisturbed(states, inputs, i + 1, j)
    ensures Reads(states[j], inputs[i].o, Fired(inputs, i + 1, j))
    ensures !Fired(inputs, i + 1, j) ==> states[j].engine.result == inputs[i].o.code
    decreases j
  {
    assert Follows(states, inputs, j - 1);
    if i + 1 < j {
      TransferReported(states, inputs, i, j - 1);
      RunKeeps(states, inputs, j - 1);
      ReportStays(states[j - 1], inputs[j - 1], inputs[i].o, Fired(inputs, i + 1, j - 1));
    }
  }

  /** The end of a transfer raises DMA_DONE for success and DMA_ERROR for an error, and no other event. */
  lemma EndRaises(d: Device)
    requires Allowed(d, TimerFires)
    ensures var was, now := Events(Read(d, REG_INT_STATUS)), Events(Read(Apply(d, TimerFires), REG_INT_STATUS));
      now == was + {if d.engine.result == 0 then DmaDone else DmaError}
  {
    EventsOfBits(d.ints.raised);
    EventsOfBits(d.ints.raised + {DoneEvent(d.engine.result)});
  }

  /** After a reset every register reads as 0, nothing runs and nothing is pending. */
  lemma ResetClears(d: Device, i: Input, reg: int)
    requires Allowed(d, i) && Resets(i)
    ensures Read(Apply(d, i), reg) == 0
    ensures !Apply(d, i).engine.armed && Apply(d, i).ints.sent == {}
  {
  }

  /** The descriptor table is always 16-byte aligned. */
  lemma TableAligned(states: seq<Device>, inputs: seq<Input>, k: nat)
    requires Run(states, inputs) && k < |states|
    ensures DescAddr(states[k].prog) % 16 == 0
  {
    RunKeeps(states, inputs, k);
    var p := states[k].prog;
    assert DescAddr(p) == 16 * (p.descHi * 0x1000_0000 + p.descLo / 16);
  }

  function Count(b: bool): nat {
    if b then 1 else 0
  }

  function Starts(states: seq<Device>, inputs: seq<Input>, n: nat): nat
    requires n <= |inputs| <= |states|
  {
    if n == 0 then 0
    else Starts(states, inputs, n - 1) + Count(AcceptsStart(states[n - 1], inputs[n - 1]))
  }

  function Completions(inputs: seq<Input>, n: nat): nat
    requires n <= |inputs|
  {
    if n == 0 then 0 else Completions(inputs, n - 1) + Count(inputs[n - 1].TimerFires?)
  }

  function BusyResets(states: seq<Device>, inputs: seq<Input>, n: nat): nat
    requires n <= |inputs| <= |states|
  {
    if n == 0 then 0
    else BusyResets(states, inputs, n - 1) + Count(Busy(states[n - 1].engine) && Resets(inputs[n - 1]))
  }

  /** Every accepted START completes once, is abandoned by a reset, or is still running. */
  lemma {:induction false} StartsAccounted(states: seq<Device>, inputs: seq<Input>, n: nat)
    requires Run(states, inputs) && n <= |inputs|
    ensures Starts(states, inputs, n) ==
            Completions(inputs, n) + BusyResets(states, inputs, n) + Count(Busy(states[n].engine))
    decreases n
  {
    if n > 0 {
      StartsAccounted(states, inputs, n - 1);
      RunKeeps(states, inputs, n - 1);
      assert Follows(states, inputs, n - 1);
    }
  }
}
