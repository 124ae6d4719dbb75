/** The ldd-pcie device as an object: registers, on-board memory and timer. */
module PcieDevice {
  import opened Common
  import opened PcieRegs
  import opened PcieTransfer
  import opened Segments

  class LddPcie {
    const props: Props
    const mem: array<bv8>
    var master: bool      // PCI_COMMAND_MASTER
    var regs: Device

    ghost predicate Valid()
      reads this
    {
      Realized(props) && mem.Length == MEM_SIZE && Inv(regs)
    }

    constructor (props: Props, mem: array<bv8>)
      requires Realized(props) && mem.Length == MEM_SIZE
      ensures Valid() && this.props == props && this.mem == mem && regs == RESET_DEVICE && !master
    {
      this.props, this.mem, master, regs := props, mem, false, RESET_DEVICE;
    }

    /** The loop that checks every descriptor and adds up their lengths. */
    method CheckDescs(descs: seq<Desc>) returns (bad: nat, total: nat)
      ensures bad == FirstBad(props, descs, 0)
      ensures total == Total(descs, bad)
      ensures Realized(props) && |descs| <= props.maxDesc ==> total <= 4096 * MEM_SIZE
    {
      bad, total := 0, 0;
      while bad < |descs|
        invariant bad <= |descs| && total == Total(descs, bad)
        invariant Realized(props) ==> total <= bad * MEM_SIZE
        invariant forall k :: 0 <= k < bad ==> GoodDesc(props, descs[k])
      {
        if !GoodDesc(props, descs[bad]) {
          return;
        }
        total := total + descs[bad].len;
        bad := bad + 1;
      }
    }

    /** RAM to on-board memory, up to the first segment that faults. */
    method MoveIn(guest: GuestMemory, descs: seq<Desc>, start: nat) returns (f: nat, moved: nat)
      requires start + Total(descs, |descs|) <= mem.Length && mem != guest.ram
      modifies mem
      ensures FaultsAt(props, guest, descs, f) && moved == Total(descs, f) <= Total(descs, |descs|)
      ensures start + moved <= mem.Length
      ensures CopiedIn(guest.ram[..], old(mem[..]), mem[..], descs, f, start)
    {
      f, moved := 0, 0;
      while f < |descs|
        invariant f <= |descs| && moved == Total(descs, f) <= Total(descs, |descs|)
        invariant forall k :: 0 <= k < f ==> Reachable(props, guest, descs[k])
        invariant forall j :: 0 <= j < moved ==> AddrAt(descs, f, j) < guest.ram.Length
        invariant forall i :: 0 <= i < mem.Length ==>
                    mem[i] == if start <= i < start + moved then guest.ram[AddrAt(descs, f, i - start)]
                              else old(mem[i])
      {
        var d := descs[f];
        TotalMonotone(descs, f + 1, |descs|);
        if !DmaOk(props, d.addr, d.len) {
          return;
        }
        var ok := DmaRead(guest, d.addr, mem, start + moved, d.len);
        if !ok {
          return;
        }
        moved := moved + d.len;
        f := f + 1;
      }
    }

    /** One segment to RAM; the copy for the XOR is made only if it changes anything. */
    method SegmentOut(guest: GuestMemory, d: Desc, off: nat, x: bv8) returns (ok: bool)
      requires mem != guest.ram && off + d.len <= mem.Length
      modifies guest.ram
      ensures ok <==> Reachable(props, guest, d)
      ensures ok ==> d.addr + d.len <= guest.ram.Length
      ensures ok ==> forall a :: d.addr <= a < d.addr + d.len ==> guest.ram[a] == mem[off + (a - d.addr)] ^ x
      ensures forall a :: 0 <= a < guest.ram.Length && !(d.addr <= a < d.addr + d.len) ==>
                guest.ram[a] == old(guest.ram[a])
    {
      if !DmaOk(props, d.addr, d.len) {
        return false;
      }
      var data: Bytes;
      if x != 0 {
        data := XorCopy(mem, off, d.len, x);
      } else {
        data := mem[off..off + d.len];
      }
      ok := DmaWrite(guest, d.addr, data);
    }

    /** On-board memory to RAM, XORed with `x`, up to the first segment that faults. */
    method MoveOut(guest: GuestMemory, descs: seq<Desc>, start: nat, x: bv8) returns (f: nat, moved: nat)
      requires start + Total(descs, |descs|) <= mem.Length && mem != guest.ram
      modifies guest.ram
      ensures FaultsAt(props, guest, descs, f) && moved == Total(descs, f) <= Total(descs, |descs|)
      ensures start + moved <= mem.Length
      ensures CopiedOut(old(guest.ram[..]), guest.ram[..], mem[..], descs, f, start, x)
    {
      f, moved := 0, 0;
      while f < |descs|
        invariant f <= |descs| && moved == Total(descs, f) <= Total(descs, |descs|)
        invariant forall k :: 0 <= k < f ==> Reachable(props, guest, descs[k])
        invariant forall a :: 0 <= a < guest.ram.Length ==>
                    guest.ram[a] == ByteAt(old(guest.ram[..]), descs, f, mem[..], start, x, a)
      {
        var d := descs[f];
        TotalMonotone(descs, f + 1, |descs|);
        var ok := SegmentOut(guest, d, start + moved, x);
        if !ok {
          return;
        }
        moved := moved + d.len;
        f := f + 1;
      }
    }

    function XorByte(): bv8
      reads this
    {
      LowByte(regs.xor)
    }

    ghost function Ruling(guest: GuestMemory): Verdict
      reads this, guest
    {
      Judge(props, master, regs.prog, guest.Fetch(DescAddr(regs.prog), regs.prog.descCount))
    }

    /** The checks of ldd_pcie_transfer(), made before any data is moved. */
    method Check(guest: GuestMemory) returns (v: Verdict)
      requires Valid()
      ensures v == Ruling(guest)
      ensures v.Accepted? ==> regs.prog.devOffset + Total(v.descs, |v.descs|) <= MEM_SIZE && |v.descs| <= 4096
      ensures v.Refused? ==> v.code <= 5 && v.errDesc < 4096
    {
      var g := regs.prog;
      if !master {
        return Refused(ERR_NO_MASTER, 0);
      }
      if g.descCount == 0 || g.descCount > props.maxDesc {
        return Refused(ERR_BAD_COUNT, 0);
      }
      var fetched := guest.Fetch(DescAddr(g), g.descCount);
      if !DmaOk(props, DescAddr(g), g.descCount * 16) || fetched.None? {
        return Refused(ERR_DMA_FAULT, 0);
      }
      var bad, total := CheckDescs(fetched.value);
      if bad < |fetched.value| {
        return Refused(ERR_BAD_DESC, bad);
      }
      if g.devOffset > MEM_SIZE || total > MEM_SIZE - g.devOffset {
        return Refused(ERR_OUT_OF_RANGE, 0);
      }
      v := Accepted(fetched.value);
    }

    /** ldd_pcie_transfer(); XFER_BYTES and ERR_DESC are 0 when it is called. */
    method Transfer(guest: GuestMemory) returns (o: Outcome)
      requires Valid() && mem != guest.ram
      modifies mem, guest.ram
      ensures o.code <= 5 && o.moved <= MEM_SIZE && o.errDesc < 4096
      ensures Transfers(props, guest, Ruling(guest), regs.prog, XorByte(),
                        old(guest.ram[..]), old(mem[..]), guest.ram[..], mem[..], o)
    {
      var v := Check(guest);
      match v
      case Refused(code, errDesc) =>
        o := Outcome(code, 0, errDesc);
      case Accepted(descs) =>
        var f, moved;
        if regs.prog.toGuest {
          f, moved := MoveOut(guest, descs, regs.prog.devOffset, XorByte());
        } else {
          f, moved := MoveIn(guest, descs, regs.prog.devOffset);
        }
        o := if f < |descs| then Outcome(ERR_DMA_FAULT, moved, f) else Outcome(0, moved, 0);
    }

    /** ldd_pcie_bar0_write() of any register but DMA_CTRL. */
    method WritePlain(reg: int, val: u32)
      requires Valid() && reg != REG_DMA_CTRL
      modifies this`regs
      ensures Valid() && regs == Write(old(regs), reg, val, Outcome(0, 0, 0))
      ensures regs.ints.sent == Pending(regs.ints)
      ensures reg == REG_CTRL && Bit(val, 0) ==> regs == RESET_DEVICE
      ensures !(reg == REG_CTRL && Bit(val, 0)) ==> regs.engine == old(regs).engine
      ensures !(reg == REG_CTRL && Bit(val, 0)) && Busy(old(regs).engine) ==> regs.prog == old(regs).prog
      ensures !(reg == REG_CTRL && Bit(val, 0)) ==>
                forall other :: other != reg && !(reg == REG_INT_RAISE && other == REG_INT_STATUS) ==>
                                Read(regs, other) == Read(old(regs), other)
    {
      ghost var was := regs;
      ApplyKeeps(regs, WriteReg(reg, val, Outcome(0, 0, 0)));
      regs := Write(regs, reg, val, Outcome(0, 0, 0));
      if !(reg == REG_CTRL && Bit(val, 0)) {
        forall other | other != reg && !(reg == REG_INT_RAISE && other == REG_INT_STATUS)
          ensures Read(regs, other) == Read(was, other)
        {
          WriteLeavesOthers(was, reg, val, Outcome(0, 0, 0), other);
        }
      }
    }

    /** ldd_pcie_start(). */
    method StartTransfer(guest: GuestMemory) returns (o: Outcome)
      requires Valid() && mem != guest.ram
      modifies this`regs, mem, guest.ram
      ensures o.code <= 5 && o.moved <= MEM_SIZE && o.errDesc < 4096
      ensures regs == old(regs).(engine := Start(old(regs).engine, o))
      ensures Reads(regs, o, false)
      ensures Transfers(props, guest, Ruling(guest), regs.prog, XorByte(),
                        old(guest.ram[..]), old(mem[..]), guest.ram[..], mem[..], o)
    {
      o := Transfer(guest);
      regs := regs.(engine := Start(regs.engine, o));
    }

    /** ldd_pcie_bar0_write() of DMA_CTRL; `o` is what the transfer came to. */
    method WriteDmaCtrl(val: u32, guest: GuestMemory) returns (ghost o: Outcome)
      requires Valid() && mem != guest.ram
      modifies this`regs, mem, guest.ram
      ensures Valid() && o.code <= 5 && regs == Write(old(regs), REG_DMA_CTRL, val, o)
      ensures !AcceptsStart(old(regs), WriteReg(REG_DMA_CTRL, val, o)) ==>
                mem[..] == old(mem[..]) && guest.ram[..] == old(guest.ram[..])
      ensures AcceptsStart(old(regs), WriteReg(REG_DMA_CTRL, val, o)) ==> Reads(regs, o, false)
      ensures AcceptsStart(old(regs), WriteReg(REG_DMA_CTRL, val, o)) ==>
                Transfers(props, guest, Ruling(guest), regs.prog, XorByte(),
                          old(guest.ram[..]), old(mem[..]), guest.ram[..], mem[..], o)
    {
      o := Outcome(0, 0, 0);
      if !Busy(regs.engine) {
        regs := regs.(prog := regs.prog.(toGuest := Bit(val, 0)));
        if Bit(val, 1) {
          var out := StartTransfer(guest);
          o := out;
        }
      }
    }

    /** ldd_pcie_complete(). */
    method TimerFires()
      requires Valid() && regs.engine.armed
      modifies this`regs
      ensures Valid() && regs == Complete(old(regs))
      ensures forall o :: Reads(old(regs), o, false) && o.code == old(regs).engine.result ==> Reads(regs, o, true)
      ensures regs.ints.raised == old(regs).ints.raised + {if old(regs).engine.result == 0 then DmaDone else DmaError}
    {
      ApplyKeeps(regs, Input.TimerFires);
      var result := regs.engine.result;
      regs := regs.(engine := regs.engine.(status := DoneStatus(result), armed := false),
                    ints := regs.ints.(raised := regs.ints.raised + {DoneEvent(result)}));
      regs := regs.(ints := Update(regs.ints));
    }
  }
}
