/** The data path of /dev/dma_sg: dma_sg_rw(), dma_sg_xfer() and dma_sg_run(). */
module SgDriver {
  import opened Common
  import opened PcieRegs
  import opened PcieTransfer
  import opened PcieDevice
  import opened Segments
  import opened SgLayout

  const ENOSPC := -28
  const EFAULT := -14
  const ENODEV := -19
  const EIO := -5
  const ETIMEDOUT := -110
  const ERESTARTSYS := -512

  /** A user's buffer as pin_user_pages_fast() finds it: the frames from the first missing one on are absent. */
  datatype Buffer = Buffer(offset: nat, frames: seq<nat>)

  /** What sg_alloc_table_from_pages_segment() and dma_map_sgtable() come to. */
  datatype Mapping = MapFailed(err: int) | MappedTo(descs: seq<Desc>)

  /**
   How the kernel calls of one read() or write() turn out: a signal while waiting for the mutex,
   what pin_user_pages_fast() returns if no page is there, the mapping, and the wait.
   */
  datatype Kernel = Kernel(signal: bool, pinned: int, mapping: Mapping, timesOut: bool)

  /** The segments of the first `pages` frames, mapped for the device and in its reach. */
  ghost predicate Mapped(p: Props, guest: GuestMemory, b: Buffer, plan: Plan, descs: seq<Desc>) {
    && plan.pages <= |b.frames|
    && Regroups(descs, b.frames[..plan.pages], b.offset, plan.count, p.maxSeg)
    && forall k :: 0 <= k < |descs| ==> Reachable(p, guest, descs[k])
  }

  /** `n` bytes of on-board memory from `pos` on now hold the start of the buffer. */
  ghost predicate Written(ram: Bytes, mem0: Bytes, mem1: Bytes, b: Buffer, pos: nat, n: nat) {
    && b.offset + n <= |b.frames| * PAGE && |mem1| == |mem0|
    && (forall i :: 0 <= i < n ==> PhysAt(b.frames, b.offset, i) < |ram|)
    && forall k :: 0 <= k < |mem1| ==>
         mem1[k] == if pos <= k < pos + n then ram[PhysAt(b.frames, b.offset, k - pos)] else mem0[k]
  }

  /** The start of the buffer now holds `n` bytes of on-board memory, XORed with `x`. */
  ghost predicate WasRead(ram0: Bytes, ram1: Bytes, mem: Bytes, b: Buffer, pos: nat, n: nat, x: bv8) {
    && b.offset + n <= |b.frames| * PAGE && |ram1| == |ram0| && pos + n <= |mem|
    && (forall i :: 0 <= i < n ==> PhysAt(b.frames, b.offset, i) < |ram1|)
    && (forall i :: 0 <= i < n ==> ram1[PhysAt(b.frames, b.offset, i)] == mem[pos + i] ^ x)
    && forall a :: 0 <= a < |ram1| && !InBuffer(b.frames, b.offset, n, a) ==> ram1[a] == ram0[a]
  }

  lemma PrefixPhys(b: Buffer, plan: Plan, i: nat)
    requires plan.pages <= |b.frames| && b.offset + plan.count <= plan.pages * PAGE && i < plan.count
    ensures (b.offset + i) / PAGE < plan.pages
    ensures PhysAt(b.frames[..plan.pages], b.offset, i) == PhysAt(b.frames, b.offset, i)
  {
  }

  lemma SuccessWrites(p: Props, guest: GuestMemory, g: Program, x: bv8,
                      ram: Bytes, mem0: Bytes, ram1: Bytes, mem1: Bytes, o: Outcome,
                      b: Buffer, plan: Plan, descs: seq<Desc>)
    requires Mapped(p, guest, b, plan, descs) && !g.toGuest
    requires Transfers(p, guest, Accepted(descs), g, x, ram, mem0, ram1, mem1, o)
    ensures o.code == 0 && o.moved == plan.count && ram1 == ram
    ensures Written(ram, mem0, mem1, b, g.devOffset, plan.count)
  {
    forall i | 0 <= i < plan.count
      ensures (b.offset + i) / PAGE < |b.frames| && PhysAt(b.frames, b.offset, i) == AddrAt(descs, |descs|, i) < |ram|
    {
      PrefixPhys(b, plan, i);
    }
  }

  lemma SuccessReads(p: Props, guest: GuestMemory, g: Program, x: bv8,
                     ram0: Bytes, mem: Bytes, ram1: Bytes, mem1: Bytes, o: Outcome,
                     b: Buffer, plan: Plan, descs: seq<Desc>)
    requires Mapped(p, guest, b, plan, descs) && g.toGuest && Distinct(b.frames) && guest.ram.Length == |ram0|
    requires Transfers(p, guest, Accepted(descs), g, x, ram0, mem, ram1, mem1, o)
    ensures o.code == 0 && o.moved == plan.count && mem1 == mem
    ensures WasRead(ram0, ram1, mem, b, g.devOffset, plan.count, x)
  {
    var n := |descs|;
    RegroupedInjective(descs, b.frames[..plan.pages], b.offset, plan.count, p.maxSeg);
    forall i | 0 <= i < plan.count
      ensures (b.offset + i) / PAGE < |b.frames|
      ensures PhysAt(b.frames, b.offset, i) == AddrAt(descs, n, i) < |ram0|
      ensures ram1[PhysAt(b.frames, b.offset, i)] == mem[g.devOffset + i] ^ x
    {
      PrefixPhys(b, plan, i);
      AddrInReach(p, guest, descs, n, i);
      ByteAtHit(ram0, descs, n, mem, g.devOffset, x, i);
    }
    forall a | 0 <= a < |ram1| && !InBuffer(b.frames, b.offset, plan.count, a) ensures ram1[a] == ram0[a] {
      ByteAtMiss(ram0, descs, n, mem, g.devOffset, x, a);
    }
  }

  lemma {:induction false} AddrInReach(p: Props, guest: GuestMemory, descs: seq<Desc>, n: nat, i: nat)
    requires n <= |descs| && i < Total(descs, n)
    requires forall k :: 0 <= k < n ==> Reachable(p, guest, descs[k])
    ensures AddrAt(descs, n, i) < guest.ram.Length
    decreases n
  {
    if i < Total(descs, n - 1) {
      AddrInReach(p, guest, descs, n - 1, i);
    }
  }

  /**
   What a write() of `n` bytes and then a read() of `m` at the same position leave: in the reader's
   buffer the writer's bytes, and behind them what was on board before, XORed with the XOR
   register; nothing else on board changed, and the read() changed nothing else in RAM, which may
   have become `later` in between.
   */
  ghost predicate CameBack(ram0: Bytes, mem0: Bytes, later: Bytes, ram1: Bytes, mem1: Bytes, w: Buffer, r: Buffer,
                           pos: nat, n: nat, m: nat, x: bv8) {
    && w.offset + n <= |w.frames| * PAGE && r.offset + m <= |r.frames| * PAGE
    && |ram1| == |later| && |mem1| == |mem0| && pos + n <= |mem0| && pos + m <= |mem0|
    && (forall i :: 0 <= i < n ==> PhysAt(w.frames, w.offset, i) < |ram0|)
    && (forall i :: 0 <= i < m ==> PhysAt(r.frames, r.offset, i) < |ram1|)
    && (forall i :: 0 <= i < m ==>
          ram1[PhysAt(r.frames, r.offset, i)] ==
          (if i < n then ram0[PhysAt(w.frames, w.offset, i)] else mem0[pos + i]) ^ x)
    && (forall a :: 0 <= a < |ram1| && !InBuffer(r.frames, r.offset, m, a) ==> ram1[a] == later[a])
    && (forall k :: 0 <= k < |mem1| && !(pos <= k < pos + n) ==> mem1[k] == mem0[k])
  }

  /** One byte of it. */
  lemma ByteCameBack(ram0: Bytes, mem0: Bytes, mem1: Bytes, w: Buffer, later: Bytes, ram1: Bytes, r: Buffer,
                     pos: nat, n: nat, m: nat, x: bv8, i: nat)
    requires i < m && pos + m <= |mem0|
    requires Written(ram0, mem0, mem1, w, pos, n) && WasRead(later, ram1, mem1, r, pos, m, x)
    ensures (r.offset + i) / PAGE < |r.frames| && PhysAt(r.frames, r.offset, i) < |ram1|
    ensures i < n ==> (w.offset + i) / PAGE < |w.frames| && PhysAt(w.frames, w.offset, i) < |ram0|
    ensures ram1[PhysAt(r.frames, r.offset, i)] ==
            (if i < n then ram0[PhysAt(w.frames, w.offset, i)] else mem0[pos + i]) ^ x
  {
    var k := pos + i;
    assert mem1[k] == if pos <= k < pos + n then ram0[PhysAt(w.frames, w.offset, k - pos)] else mem0[k];
    assert k - pos == i;
  }

  lemma RoundTrip(ram0: Bytes, mem0: Bytes, mem1: Bytes, w: Buffer, later: Bytes, ram1: Bytes, r: Buffer,
                  pos: nat, n: nat, m: nat, x: bv8)
    requires pos + n <= |mem0|
    requires Written(ram0, mem0, mem1, w, pos, n)
    requires WasRead(later, ram1, mem1, r, pos, m, x)
    ensures CameBack(ram0, mem0, later, ram1, mem1, w, r, pos, n, m, x)
  {
    forall i | 0 <= i < m
      ensures ram1[PhysAt(r.frames, r.offset, i)] ==
              (if i < n then ram0[PhysAt(w.frames, w.offset, i)] else mem0[pos + i]) ^ x
    {
      ByteCameBack(ram0, mem0, mem1, w, later, ram1, r, pos, n, m, x, i);
    }
  }

  lemma BusHalves(bus: u64)
    requires bus % 16 == 0
    ensures var lo, hi := bus % 0x1_0000_0000, bus / 0x1_0000_0000;
      lo % 16 == 0 && hi < 0x1_0000_0000 && hi * 0x1_0000_0000 + lo == bus
  {
    var lo, hi := bus % 0x1_0000_0000, bus / 0x1_0000_0000;
    assert bus == 16 * (hi * 0x1000_0000) + lo;
  }

  /** The four writes that describe a transfer to an idle engine. */
  lemma TableWrites(d: Device, lo: u32, hi: u32, nents: u32, pos: u32)
    requires !Busy(d.engine) && lo % 16 == 0
    ensures var o := Outcome(0, 0, 0);
      var half := Write(Write(d, REG_DESC_ADDR_LO, lo, o), REG_DESC_ADDR_HI, hi, o);
      Write(Write(half, REG_DESC_COUNT, nents, o), REG_DEV_OFFSET, pos, o) ==
      d.(prog := Program(hi, lo, nents, pos, d.prog.toGuest))
  {
  }

  /** struct dma_sg_dev: the device, the coherent descriptor table at `descBus`, and the limits read by probe(). */
  class DmaSg {
    const dev: LddPcie
    const guest: GuestMemory
    const descBus: u64
    var removed: bool

    ghost predicate Valid()
      reads this, dev
    {
      && dev.Valid() && dev.master && dev.mem != guest.ram
      && !Busy(dev.regs.engine) && dev.regs.ints.raised !! DMA_EVENTS && dev.regs.ints.mask == DMA_EVENTS
      && PAGE <= dev.props.maxSeg
      && descBus % 16 == 0 && descBus + dev.props.maxDesc * 16 <= TWO_64
      && (dev.props.dma64 || descBus + dev.props.maxDesc * 16 <= FOUR_GIB)
    }

    constructor (dev: LddPcie, guest: GuestMemory, descBus: u64)
      requires dev.Valid() && dev.master && dev.mem != guest.ram
      requires !Busy(dev.regs.engine) && dev.regs.ints.raised !! DMA_EVENTS && dev.regs.ints.mask == DMA_EVENTS
      requires PAGE <= dev.props.maxSeg
      requires descBus % 16 == 0 && descBus + dev.props.maxDesc * 16 <= TWO_64
      requires dev.props.dma64 || descBus + dev.props.maxDesc * 16 <= FOUR_GIB
      ensures Valid() && this.dev == dev && this.guest == guest && this.descBus == descBus && !removed
    {
      this.dev, this.guest, this.descBus, removed := dev, guest, descBus, false;
    }

    /** The loop over for_each_sgtable_dma_sg(). */
    method FillTable(descs: seq<Desc>)
      requires forall k :: 0 <= k < |descs| ==> descs[k].tag == 0
      modifies guest`table
      ensures guest.Fetch(descBus, |descs|) == Some(descs)
    {
      for i := 0 to |descs|
        invariant forall k :: 0 <= k < i ==>
                    Slot(descBus, k) in guest.table && guest.table[Slot(descBus, k)] == descs[k]
      {
        guest.table := guest.table[Slot(descBus, i) := Seg(descs[i].addr, descs[i].len, 0)];
      }
      assert guest.Fetch(descBus, |descs|).value == descs;
    }

    /** The registers as dma_sg_run() leaves them before the START. */
    ghost predicate Programmed(nents: nat, pos: nat)
      reads this, dev
    {
      var g := dev.regs.prog;
      DescAddr(g) == descBus && g.descCount == nents && g.devOffset == pos
    }

    method Program(nents: u32, pos: u32, toGuest: bool, xor: u32)
      requires Valid()
      modifies dev`regs
      ensures Valid() && Programmed(nents, pos) && dev.regs.ints == old(dev.regs.ints)
      ensures toGuest ==> dev.regs.xor == xor % 256
    {
      var lo, hi := descBus % 0x1_0000_0000, descBus / 0x1_0000_0000;
      BusHalves(descBus);
      dev.WritePlain(REG_DESC_ADDR_LO, lo);
      dev.WritePlain(REG_DESC_ADDR_HI, hi);
      dev.WritePlain(REG_DESC_COUNT, nents);
      dev.WritePlain(REG_DEV_OFFSET, pos);
      TableWrites(old(dev.regs), lo, hi, nents, pos);
      if toGuest {
        dev.WritePlain(REG_XOR, xor % 256);
      }
    }

    /** After the START: the timer fires and the handler acknowledges, or the wait times out. */
    method Await(timesOut: bool) returns (err: int)
      requires dev.Valid() && dev.regs.engine.armed
      requires dev.regs.ints.raised !! DMA_EVENTS && dev.regs.ints.mask == DMA_EVENTS
      modifies dev`regs
      ensures dev.Valid() && !Busy(dev.regs.engine)
      ensures dev.regs.ints.raised !! DMA_EVENTS && dev.regs.ints.mask == DMA_EVENTS
      ensures err == if timesOut then ETIMEDOUT else if old(dev.regs.engine.result) != 0 then EIO else 0
    {
      if timesOut {
        dev.WritePlain(REG_CTRL, 1);
        dev.WritePlain(REG_INT_MASK, 3);
        err := ETIMEDOUT;
      } else {
        dev.TimerFires();
        err := if DmaError in dev.regs.ints.raised then EIO else 0;
        dev.WritePlain(REG_INT_STATUS, 3);
      }
    }

    /** The START of a programmed transfer. */
    method Launch(toGuest: bool) returns (ghost o: Outcome)
      requires Valid()
      modifies dev`regs, dev.mem, guest.ram
      ensures dev.Valid() && dev.regs.engine.armed && dev.regs.engine.result == o.code
      ensures dev.regs.ints == old(dev.regs.ints) && dev.regs.xor == old(dev.regs.xor)
      ensures dev.regs.prog == old(dev.regs.prog).(toGuest := toGuest)
      ensures DescAddr(dev.regs.prog) == DescAddr(old(dev.regs.prog))
      ensures Transfers(dev.props, guest, dev.Ruling(guest), dev.regs.prog, dev.XorByte(),
                        old(guest.ram[..]), old(dev.mem[..]), guest.ram[..], dev.mem[..], o)
    {
      var val := if toGuest then 3 else 2;
      assert Bit(val, 1) && (Bit(val, 0) <==> toGuest);
      o := dev.WriteDmaCtrl(val, guest);
    }

    /** dma_sg_run() up to the START; `o` is what the engine did under the registers `g` and `x`. */
    method StartXfer(nents: u32, pos: u32, toGuest: bool, xor: u32)
      returns (ghost o: Outcome, ghost g: Program, ghost x: bv8)
      requires Valid()
      modifies dev`regs, dev.mem, guest.ram
      ensures dev.Valid() && dev.regs.engine.armed && dev.regs.engine.result == o.code
      ensures dev.regs.ints == old(dev.regs.ints)
      ensures DescAddr(g) == descBus && g.descCount == nents && g.devOffset == pos && g.toGuest == toGuest
      ensures toGuest ==> x == LowByte(xor % 256)
      ensures Transfers(dev.props, guest, Judge(dev.props, true, g, guest.Fetch(descBus, nents)), g, x,
                        old(guest.ram[..]), old(dev.mem[..]), guest.ram[..], dev.mem[..], o)
    {
      Program(nents, pos, toGuest, xor);
      o := Launch(toGuest);
      g, x := dev.regs.prog, dev.XorByte();
    }

    /** dma_sg_run(). */
    method Run(nents: u32, pos: u32, toGuest: bool, xor: u32, timesOut: bool)
      returns (err: int, ghost o: Outcome, ghost g: Program, ghost x: bv8)
      requires Valid()
      modifies dev`regs, dev.mem, guest.ram
      ensures Valid()
      ensures err == if timesOut then ETIMEDOUT else if o.code != 0 then EIO else 0
      ensures DescAddr(g) == descBus && g.descCount == nents && g.devOffset == pos && g.toGuest == toGuest
      ensures toGuest ==> x == LowByte(xor % 256)
      ensures Transfers(dev.props, guest, Judge(dev.props, true, g, guest.Fetch(descBus, nents)), g, x,
                        old(guest.ram[..]), old(dev.mem[..]), guest.ram[..], dev.mem[..], o)
    {
      o, g, x := StartXfer(nents, pos, toGuest, xor);
      err := Await(timesOut);
    }

    /** dma_sg_xfer() once the pages are pinned. */
    method Xfer(b: Buffer, plan: Plan, pos: nat, toGuest: bool, xor: u32, mapping: Mapping, timesOut: bool)
      returns (ret: int)
      requires Valid() && Distinct(b.frames)
      requires plan.pages <= dev.props.maxDesc && 1 <= plan.count && pos + plan.count <= MEM_SIZE
      requires mapping.MappedTo? ==> Mapped(dev.props, guest, b, plan, mapping.descs)
      modifies dev`regs, dev.mem, guest.ram, guest`table
      ensures Valid()
      ensures ret == if mapping.MapFailed? then mapping.err else if timesOut then ETIMEDOUT else plan.count
      ensures mapping.MapFailed? ==> dev.mem[..] == old(dev.mem[..]) && guest.ram[..] == old(guest.ram[..])
      ensures mapping.MappedTo? && !toGuest ==> guest.ram[..] == old(guest.ram[..])
      ensures mapping.MappedTo? && !toGuest ==>
                Written(guest.ram[..], old(dev.mem[..]), dev.mem[..], b, pos, plan.count)
      ensures mapping.MappedTo? && toGuest ==> dev.mem[..] == old(dev.mem[..])
      ensures mapping.MappedTo? && toGuest ==>
                WasRead(old(guest.ram[..]), guest.ram[..], dev.mem[..], b, pos, plan.count, LowByte(xor % 256))
    {
      if mapping.MapFailed? {
        return mapping.err;
      }
      var descs := mapping.descs;
      FillTable(descs);
      var err, o, g, x := Run(|descs|, pos, toGuest, xor, timesOut);
      TableAccepted(dev.props, g, descs, b.frames[..plan.pages], b.offset, plan.count);
      if toGuest {
        SuccessReads(dev.props, guest, g, x, old(guest.ram[..]), old(dev.mem[..]), guest.ram[..], dev.mem[..],
                     o, b, plan, descs);
      } else {
        SuccessWrites(dev.props, guest, g, x, old(guest.ram[..]), old(dev.mem[..]), guest.ram[..], dev.mem[..],
                      o, b, plan, descs);
      }
      ret := if err != 0 then err else plan.count;
    }

    /** What dma_sg_rw() asks for, once it has limited `count`. */
    function PlanOf(b: Buffer, count: nat, pos: nat): Plan
      requires b.offset < PAGE && pos < MEM_SIZE && Realized(dev.props)
    {
      PlanFor(b.offset, Limit(count, pos, dev.props.maxDesc, b.offset), |b.frames|)
    }

    /**
     dma_sg_rw(): read() and write() of /dev/dma_sg.  What is moved is moved exactly; the
     device never reports an error for what the driver asks of it.
     */
    method ReadWrite(b: Buffer, count: nat, pos: nat, toGuest: bool, xor: u32, k: Kernel)
      returns (ret: int, newPos: nat)
      requires Valid() && b.offset < PAGE && Distinct(b.frames)
      requires k.pinned <= 0 && (k.mapping.MapFailed? ==> k.mapping.err < 0)
      requires k.mapping.MappedTo? && pos < MEM_SIZE && count > 0 && b.frames != [] ==>
                 Mapped(dev.props, guest, b, PlanOf(b, count, pos), k.mapping.descs)
      modifies dev`regs, dev.mem, guest.ram, guest`table
      ensures Valid() && newPos == pos + (if ret > 0 then ret else 0)
      ensures pos >= MEM_SIZE ==> ret == if toGuest then 0 else ENOSPC
      ensures pos < MEM_SIZE && count == 0 ==> ret == 0
      ensures pos < MEM_SIZE && count > 0 ==>
                ret == if k.signal then ERESTARTSYS
                       else if removed then ENODEV
                       else if b.frames == [] then (if k.pinned != 0 then k.pinned else EFAULT)
                       else if k.mapping.MapFailed? then k.mapping.err
                       else if k.timesOut then ETIMEDOUT
                       else PlanOf(b, count, pos).count
      ensures ret <= 0 && !(k.timesOut && k.mapping.MappedTo?) ==>
                dev.mem[..] == old(dev.mem[..]) && guest.ram[..] == old(guest.ram[..])
      ensures ret > 0 ==> ret <= count && pos + ret <= MEM_SIZE
      ensures ret > 0 && !toGuest ==> guest.ram[..] == old(guest.ram[..])
      ensures ret > 0 && !toGuest ==>
                Written(guest.ram[..], old(dev.mem[..]), dev.mem[..], b, pos, ret)
      ensures ret > 0 && toGuest ==> dev.mem[..] == old(dev.mem[..])
      ensures ret > 0 && toGuest ==>
                WasRead(old(guest.ram[..]), guest.ram[..], dev.mem[..], b, pos, ret, LowByte(xor % 256))
    {
      newPos := pos;
      if pos >= MEM_SIZE {
        return if toGuest then 0 else ENOSPC, pos;
      }
      if count == 0 {
        return 0, pos;
      }
      if k.signal {
        return ERESTARTSYS, pos;
      }
      if removed {
        return ENODEV, pos;
      }
      if b.frames == [] {
        return if k.pinned != 0 then k.pinned else EFAULT, pos;
      }
      PlanFits(count, pos, dev.props.maxDesc, b.offset, |b.frames|);
      ret := Xfer(b, PlanOf(b, count, pos), pos, toGuest, xor, k.mapping, k.timesOut);
      if ret > 0 {
        newPos := pos + ret;
      }
    }
  }

  /** The segments are what the mapping calls make of the part of the buffer that is moved. */
  ghost predicate Ready(d: DmaSg, b: Buffer, count: nat, pos: nat, k: Kernel)
    requires d.Valid()
    reads d, d.dev
  {
    && b.offset < PAGE && Distinct(b.frames)
    && k.pinned <= 0 && (k.mapping.MapFailed? ==> k.mapping.err < 0)
    && (k.mapping.MappedTo? && pos < MEM_SIZE && count > 0 && b.frames != [] ==>
          Mapped(d.dev.props, d.guest, b, d.PlanOf(b, count, pos), k.mapping.descs))
  }

  /** write(), then read() at the same position and into any other buffer, of any other length. */
  method WriteThenRead(d: DmaSg, w: Buffer, r: Buffer, count: nat, again: nat, pos: nat, xor: u32,
                       kw: Kernel, kr: Kernel) returns (n: int, m: int)
    requires d.Valid() && Ready(d, w, count, pos, kw) && Ready(d, r, again, pos, kr)
    modifies d.dev`regs, d.dev.mem, d.guest.ram, d.guest`table
    ensures d.Valid()
    ensures n > 0 && m > 0 ==>
              CameBack(old(d.guest.ram[..]), old(d.dev.mem[..]), old(d.guest.ram[..]), d.guest.ram[..],
                       d.dev.mem[..], w, r, pos, n, m, LowByte(xor % 256))
  {
    var newPos;
    n, newPos := d.ReadWrite(w, count, pos, false, xor, kw);
    ghost var ram, mem := d.guest.ram[..], d.dev.mem[..];
    m, newPos := d.ReadWrite(r, again, pos, true, xor, kr);
    if n > 0 && m > 0 {
      RoundTrip(ram, old(d.dev.mem[..]), mem, w, ram, d.guest.ram[..], r, pos, n, m, LowByte(xor % 256));
    }
  }
}
