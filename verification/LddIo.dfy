/**
 The receive side of the ldd-io device: a one-byte buffer filled by the keyboard or by loopback,
 acknowledged by the guest, and signalled by interrupt pulses. A log of the changes made to the
 registers since reset says what the device promises; the device is a class that extends the log.
 */
module LddIo {

  const U32 := 0x1_0000_0000

  datatype Regs = Regs(dataIn: bv8, ready: bool, irqEn: bool, loopback: bool, pulses: nat)

  datatype Change = Receive(byte: bv8, keyboard: bool) | Ack | Control(irqEn: bool, loopback: bool)

  const RESET := Regs(0, false, false, false, 0)

  function Pulse(r: Regs): Regs {
    r.(pulses := (r.pulses + 1) % U32)
  }

  function Make(r: Regs, c: Change): Regs {
    match c
    case Receive(byte, _) =>
      var s := r.(dataIn := byte, ready := true);
      if r.irqEn then Pulse(s) else s
    case Ack => r.(ready := false)
    case Control(irqEn, loopback) =>
      var s := r.(irqEn := irqEn, loopback := loopback);
      if !r.irqEn && irqEn && r.ready then Pulse(s) else s
  }

  /** A byte enters an empty buffer, from the keyboard exactly while loopback is off. */
  predicate Allowed(r: Regs, c: Change) {
    match c
    case Receive(_, keyboard) => !r.ready && keyboard == !r.loopback
    case Ack => r.ready
    case Control(_, _) => true
  }

  function Front(log: seq<Change>): seq<Change>
    requires log != []
  {
    log[..|log| - 1]
  }

  function Last(log: seq<Change>): Change
    requires log != []
  {
    log[|log| - 1]
  }

  function After(log: seq<Change>): Regs {
    if log == [] then RESET else Make(After(Front(log)), Last(log))
  }

  ghost predicate Legal(log: seq<Change>) {
    log == [] || (Legal(Front(log)) && Allowed(After(Front(log)), Last(log)))
  }

  // ----- What a log says, apart from the registers

  function Signalled(r: Regs): bool {
    r.ready && r.irqEn
  }

  /** How often RX_READY && IRQ_EN became true. */
  function Rises(log: seq<Change>): nat {
    if log == [] then 0
    else Rises(Front(log)) + if !Signalled(After(Front(log))) && Signalled(After(log)) then 1 else 0
  }

  /** The bytes that entered the buffer. */
  function Entered(log: seq<Change>): seq<bv8> {
    if log == [] then []
    else Entered(Front(log)) + if Last(log).Receive? then [Last(log).byte] else []
  }

  /** The bytes the keyboard sent. */
  function FromKeyboard(log: seq<Change>): seq<bv8> {
    if log == [] then []
    else FromKeyboard(Front(log)) + if Last(log).Receive? && Last(log).keyboard then [Last(log).byte] else []
  }

  /** The bytes that were in the buffer when they were acknowledged. */
  function Acked(log: seq<Change>): seq<bv8> {
    if log == [] then []
    else Acked(Front(log)) + if Last(log).Ack? then [After(Front(log)).dataIn] else []
  }

  function Buffered(r: Regs): seq<bv8> {
    if r.ready then [r.dataIn] else []
  }

  ghost predicate LoopbackOff(log: seq<Change>) {
    !After(log).loopback && (log == [] || LoopbackOff(Front(log)))
  }

  /** Every pulse is a rise of RX_READY && IRQ_EN, and every rise a pulse. */
  lemma {:induction false} PulsesAreRises(log: seq<Change>)
    requires Legal(log)
    ensures After(log).pulses == Rises(log) % U32
  {
    if log != [] {
      PulsesAreRises(Front(log));
    }
  }

  /** No byte is lost, repeated or reordered between entering the buffer and being acknowledged. */
  lemma {:induction false} EveryByteAcked(log: seq<Change>)
    requires Legal(log)
    ensures Entered(log) == Acked(log) + Buffered(After(log))
  {
    if log != [] {
      EveryByteAcked(Front(log));
    }
  }

  /** DATA reads as the byte that entered last, acknowledged or not, and as 0 before the first. */
  lemma {:induction false} DataIsLast(log: seq<Change>)
    ensures After(log).dataIn == if Entered(log) == [] then 0 else Entered(log)[|Entered(log)| - 1]
  {
    if log != [] {
      DataIsLast(Front(log));
    }
  }

  /** With loopback off, the acknowledged bytes and the buffered one are what the keyboard sent. */
  lemma {:induction false} KeyboardBytesOnly(log: seq<Change>)
    requires Legal(log) && LoopbackOff(log)
    ensures Acked(log) + Buffered(After(log)) == FromKeyboard(log)
  {
    if log != [] {
      KeyboardBytesOnly(Front(log));
    }
  }

  lemma Extend(log: seq<Change>, c: Change)
    ensures Front(log + [c]) == log && Last(log + [c]) == c
  {
  }

  lemma ByteComesIn(log: seq<Change>, byte: bv8)
    ensures Acked(log + [Receive(byte, true)]) == Acked(log)
    ensures LoopbackOff(log + [Receive(byte, true)]) == LoopbackOff(log)
  {
    Extend(log, Receive(byte, true));
  }

  lemma ByteAcked(log: seq<Change>)
    ensures Acked(log + [Ack]) == Acked(log) + [After(log).dataIn]
    ensures LoopbackOff(log + [Ack]) == LoopbackOff(log)
  {
    Extend(log, Ack);
  }

  // ----- The device

  const RX_READY: bv8 := 1
  const IRQ_EN: bv8 := 1
  const LOOPBACK: bv8 := 2

  class Device {
    var dataOut: bv8
    var dataIn: bv8
    var ready: bool
    var irqEn: bool
    var loopback: bool
    var pulses: nat

    /** Bytes typed on the host that the device has not taken. */
    var pending: seq<bv8>

    ghost var log: seq<Change>

    /** All bytes waiting at the last reset or typed since. */
    ghost var offered: seq<bv8>

    ghost function Registers(): Regs
      reads this
    {
      Regs(dataIn, ready, irqEn, loopback, pulses)
    }

    ghost predicate Valid()
      reads this
    {
      Registers() == After(log) && Legal(log) && offered == FromKeyboard(log) + pending
    }

    /** What the guest and the host may rely on at any time. */
    lemma Promises()
      requires Valid()
      ensures pulses == Rises(log) % U32
      ensures Entered(log) == Acked(log) + (if ready then [dataIn] else [])
      ensures dataIn == if Entered(log) == [] then 0 else Entered(log)[|Entered(log)| - 1]
      ensures LoopbackOff(log) ==> offered == Acked(log) + (if ready then [dataIn] else []) + pending
    {
      PulsesAreRises(log);
      EveryByteAcked(log);
      DataIsLast(log);
      if LoopbackOff(log) {
        KeyboardBytesOnly(log);
      }
    }

    method SendPulse()
      modifies this`pulses
      ensures Registers() == Pulse(old(Registers()))
    {
      pulses := (pulses + 1) % U32;
    }

    method ReceiveByte(byte: bv8, ghost keyboard: bool)
      requires Registers() == After(log) && Legal(log) && !ready && keyboard == !loopback
      modifies this`dataIn, this`ready, this`pulses, this`log
      ensures log == old(log) + [Receive(byte, keyboard)] && Registers() == After(log) && Legal(log)
    {
      Extend(log, Receive(byte, keyboard));
      dataIn := byte;
      ready := true;
      if irqEn {
        SendPulse();
      }
      log := log + [Receive(byte, keyboard)];
    }

    predicate CanReceive()
      reads this
    {
      !ready && !loopback
    }

    /** The character backend delivers, at once or later, when it is told that there is room. */
    method AcceptInput(atOnce: bool)
      requires Valid()
      modifies this`dataIn, this`ready, this`pulses, this`pending, this`log
      ensures Valid()
      ensures var arrives := atOnce && old(CanReceive()) && old(pending) != [];
        log == if arrives then old(log) + [Receive(old(pending)[0], true)] else old(log)
    {
      if atOnce && pending != [] && CanReceive() {
        Extend(log, Receive(pending[0], true));
        ReceiveByte(pending[0], true);
        pending := pending[1..];
      }
    }

    method WriteData(byte: bv8)
      requires Valid()
      modifies this`dataOut, this`dataIn, this`ready, this`pulses, this`log
      ensures Valid() && dataOut == byte
      ensures log == if old(loopback && !ready) then old(log) + [Receive(byte, false)] else old(log)
    {
      dataOut := byte;
      if loopback && !ready {
        Extend(log, Receive(byte, false));
        ReceiveByte(byte, false);
      }
    }

    method WriteStatus(byte: bv8, atOnce: bool)
      requires Valid()
      modifies this`dataIn, this`ready, this`pulses, this`pending, this`log
      ensures Valid()
      ensures var acks := byte & RX_READY != 0 && old(ready);
        var arrives := acks && atOnce && !loopback && old(pending) != [];
        log == if !acks then old(log)
               else if arrives then old(log) + [Ack] + [Receive(old(pending)[0], true)]
               else old(log) + [Ack]
    {
      if byte & RX_READY != 0 && ready {
        Extend(log, Ack);
        ready := false;
        log := log + [Ack];
        AcceptInput(atOnce);
      }
    }

    method WriteCtrl(byte: bv8, atOnce: bool)
      requires Valid()
      modifies this`dataIn, this`ready, this`irqEn, this`loopback, this`pulses, this`pending, this`log
      ensures Valid() && irqEn == (byte & IRQ_EN != 0) && loopback == (byte & LOOPBACK != 0)
      ensures var arrives := atOnce && old(loopback) && !loopback && !old(ready) && old(pending) != [];
        log == if arrives then old(log) + [Control(irqEn, loopback)] + [Receive(old(pending)[0], true)]
               else old(log) + [Control(irqEn, loopback)]
    {
      var wasEn, wasLoop := irqEn, loopback;
      irqEn, loopback := byte & IRQ_EN != 0, byte & LOOPBACK != 0;
      Extend(log, Control(irqEn, loopback));
      log := log + [Control(irqEn, loopback)];
      if !wasEn && irqEn && ready {
        SendPulse();
      }
      if wasLoop && !loopback {
        AcceptInput(atOnce);
      }
    }

    /** Both phases of a reset; bytes the host still holds are offered again. */
    method Reset(atOnce: bool)
      modifies this
      ensures Valid() && dataOut == 0 && offered == old(pending)
      ensures !irqEn && !loopback && pulses == 0 && (ready <==> atOnce && old(pending) != [])
      ensures !ready ==> dataIn == 0 && pending == old(pending)
      ensures log == if atOnce && old(pending) != [] then [Receive(old(pending)[0], true)] else []
    {
      dataOut, dataIn, ready, irqEn, loopback, pulses := 0, 0, false, false, false, 0;
      log, offered := [], pending;
      AcceptInput(atOnce);
    }

    method ReadStatus() returns (byte: bv8)
      ensures byte & RX_READY != 0 <==> ready
    {
      byte := if ready then RX_READY else 0;
    }

    /** What the host does between two register accesses: type, and let the backend deliver. */
    method HostActs(m: Moment)
      requires Valid()
      modifies this`dataIn, this`ready, this`pulses, this`pending, this`log, this`offered
      ensures Valid() && offered == old(offered) + m.typed && Acked(log) == old(Acked(log))
      ensures old(ready) ==> log == old(log)
      ensures m.deliver && !old(ready) && !loopback && old(pending) + m.typed != [] ==> ready
      ensures LoopbackOff(old(log)) ==> LoopbackOff(log)
    {
      offered, pending := offered + m.typed, pending + m.typed;
      if pending != [] {
        ByteComesIn(log, pending[0]);
      }
      AcceptInput(m.deliver);
    }
  }

  datatype Moment = Moment(typed: seq<bv8>, deliver: bool)

  // ----- The driver

  /** One turn of the loop in data_take(): is a byte ready, read it, acknowledge it. */
  method TakeOne(io: Device, m: seq<Moment>) returns (got: bool, byte: bv8)
    requires io.Valid() && |m| == 4
    modifies io`dataIn, io`ready, io`pulses, io`pending, io`log, io`offered
    ensures io.Valid() && Acked(io.log) == old(Acked(io.log)) + if got then [byte] else []
    ensures !got ==> !io.ready
    ensures LoopbackOff(old(io.log)) ==> LoopbackOff(io.log)
  {
    io.HostActs(m[0]);
    var status := io.ReadStatus();
    got := status & RX_READY != 0;
    if !got {
      return false, 0;
    }
    io.HostActs(m[1]);
    byte := io.dataIn;
    io.HostActs(m[2]);
    ByteAcked(io.log);
    if io.pending != [] {
      ByteComesIn(io.log + [Ack], io.pending[0]);
    }
    io.WriteStatus(RX_READY, m[3].deliver);
  }

  /**
   data_take(): whatever the host does between the register accesses, the bytes stored are the
   ones acknowledged, in order, and fewer than `count` only if none was ready.
   */
  method DataTake(io: Device, kbuf: array<bv8>, count: nat, host: nat -> Moment) returns (n: nat)
    requires io.Valid() && count <= kbuf.Length
    modifies io`dataIn, io`ready, io`pulses, io`pending, io`log, io`offered, kbuf
    ensures io.Valid() && n <= count && Acked(io.log) == old(Acked(io.log)) + kbuf[..n]
    ensures n < count ==> !io.ready
    ensures forall k :: n <= k < kbuf.Length ==> kbuf[k] == old(kbuf[k])
    ensures LoopbackOff(old(io.log)) ==> LoopbackOff(io.log)
  {
    n := 0;
    while n < count
      invariant io.Valid() && n <= count && Acked(io.log) == old(Acked(io.log)) + kbuf[..n]
      invariant forall k :: n <= k < kbuf.Length ==> kbuf[k] == old(kbuf[k])
      invariant LoopbackOff(old(io.log)) ==> LoopbackOff(io.log)
    {
      ghost var before := kbuf[..n];
      var got, byte := TakeOne(io, [host(4 * n), host(4 * n + 1), host(4 * n + 2), host(4 * n + 3)]);
      if !got {
        return;
      }
      kbuf[n] := byte;
      assert kbuf[..n + 1] == before + [byte];
      n := n + 1;
    }
  }
}
