/**
 The scatter-gather copy of ldd-pcie (tools/qemu/hw/ldd/pcie.c, ldd_pcie_transfer()):
 the checks, the two loops over the descriptors, and what each outcome leaves in the
 on-board memory and in guest RAM.  Guest RAM, the descriptor table and the on-board
 memory do not overlap.
 */
module PcieTransfer {
  import opened Common
  import opened PcieRegs
  import opened Segments

  const MEM_SIZE := 0x10_0000
  const FOUR_GIB := 0x1_0000_0000
  const TWO_64 := 0x1_0000_0000_0000_0000

  /** One entry of the descriptor table. */
  type Desc = d: Seg<u32> | d.addr < TWO_64 && d.len < FOUR_GIB witness Seg(0, 0, 0)

  /** The properties set on the command line, in the ranges that realize() accepts. */
  datatype Props = Props(dma64: bool, maxSeg: u32, maxDesc: u32)

  predicate Realized(p: Props) {
    512 <= p.maxSeg <= 0x10_0000 && 1 <= p.maxDesc <= 4096
  }

  // ---------------------------------------------------------------------------
  // What a transfer means
  // ---------------------------------------------------------------------------

  /** The sum of two 64-bit values, which wraps. */
  function Add64(a: u64, b: u64): u64 {
    if a + b < TWO_64 then a + b else a + b - TWO_64
  }

  predicate DmaOk(p: Props, addr: u64, len: u64) {
    p.dma64 || Add64(addr, len) <= FOUR_GIB
  }

  /**
   An engine with 32 address bits is meant to reach only the first 4 GiB.  The check keeps it
   there exactly when the 64-bit sum does not wrap.
   */
  lemma ReachOf32Bits(p: Props, addr: u64, len: u32)
    requires len > 0
    ensures DmaOk(p, addr, len) <==> p.dma64 || addr + len <= FOUR_GIB || addr + len >= TWO_64
    ensures !p.dma64 && DmaOk(p, addr, len) ==> (addr + len <= FOUR_GIB <==> addr + len < TWO_64)
  {
  }

  lemma WrapEscapesCheck(p: Props)
    requires !p.dma64
    ensures DmaOk(p, TWO_64 - 1, 1) && TWO_64 - 1 >= FOUR_GIB
  {
  }

  /** `b` if bit log2(`weight`) of `val` is set. */
  function BitAs(val: u32, weight: nat, b: bv8): bv8
    requires weight > 0
  {
    if val / weight % 2 == 1 then b else 0
  }

  function LowByte(val: u32): bv8 {
    BitAs(val, 1, 1) | BitAs(val, 2, 2) | BitAs(val, 4, 4) | BitAs(val, 8, 8) |
    BitAs(val, 16, 16) | BitAs(val, 32, 32) | BitAs(val, 64, 64) | BitAs(val, 128, 128)
  }

  /** Bit for bit the low byte of the register. */
  lemma LowByteBits(val: u32)
    ensures LowByte(val) & 1 != 0 <==> val % 2 == 1
    ensures LowByte(val) & 2 != 0 <==> val / 2 % 2 == 1
    ensures LowByte(val) & 4 != 0 <==> val / 4 % 2 == 1
    ensures LowByte(val) & 8 != 0 <==> val / 8 % 2 == 1
    ensures LowByte(val) & 16 != 0 <==> val / 16 % 2 == 1
    ensures LowByte(val) & 32 != 0 <==> val / 32 % 2 == 1
    ensures LowByte(val) & 64 != 0 <==> val / 64 % 2 == 1
    ensures LowByte(val) & 128 != 0 <==> val / 128 % 2 == 1
  {
  }

  predicate GoodDesc(p: Props, d: Desc) {
    d.len != 0 && d.len <= p.maxSeg && d.tag == 0
  }

  /** The first bad descriptor from `i` on, or their number. */
  function FirstBad(p: Props, descs: seq<Desc>, i: nat): (b: nat)
    requires i <= |descs|
    ensures i <= b <= |descs|
    ensures forall k :: i <= k < b ==> GoodDesc(p, descs[k])
    ensures b < |descs| ==> !GoodDesc(p, descs[b])
    decreases |descs| - i
  {
    if i == |descs| || !GoodDesc(p, descs[i]) then i else FirstBad(p, descs, i + 1)
  }

  datatype Verdict = Refused(code: u32, errDesc: nat) | Accepted(descs: seq<Desc>)

  /** The checks made before any data is moved, in their order. */
  function Judge(p: Props, master: bool, g: Program, fetched: Option<seq<Desc>>): Verdict {
    if !master then Refused(ERR_NO_MASTER, 0)
    else if g.descCount == 0 || g.descCount > p.maxDesc then Refused(ERR_BAD_COUNT, 0)
    else if fetched.None? || !DmaOk(p, DescAddr(g), g.descCount * 16) then Refused(ERR_DMA_FAULT, 0)
    else
      var descs := fetched.value;
      var bad := FirstBad(p, descs, 0);
      if bad < |descs| then Refused(ERR_BAD_DESC, bad)
      else if g.devOffset > MEM_SIZE || Total(descs, |descs|) > MEM_SIZE - g.devOffset then Refused(ERR_OUT_OF_RANGE, 0)
      else Accepted(descs)
  }

  /** A descriptor that the device refuses: empty, too long, or with flags set. */
  predicate BadDesc(p: Props, d: Desc) {
    d.len == 0 || d.len > p.maxSeg || d.tag != 0
  }

  /**
   Which code a refusal has, as the device documents them: 1 without bus mastering, 2 for a bad
   count, 5 for a table that cannot be read, 3 for the first bad descriptor, 4 for a range outside
   the on-board memory; each only if none of those before it applies.
   */
  lemma RefusalExact(p: Props, master: bool, g: Program, fetched: Option<seq<Desc>>)
    requires fetched.Some? ==> |fetched.value| == g.descCount
    ensures var v := Judge(p, master, g, fetched);
      var counted := master && 1 <= g.descCount <= p.maxDesc;
      var readable := counted && fetched.Some? && DmaOk(p, DescAddr(g), g.descCount * 16);
      var good := readable && forall k :: 0 <= k < |fetched.value| ==> !BadDesc(p, fetched.value[k]);
      var inside := good && g.devOffset + Total(fetched.value, |fetched.value|) <= 0x10_0000;
      && (v == Refused(1, 0) <==> !master)
      && (v == Refused(2, 0) <==> master && !counted)
      && (v == Refused(5, 0) <==> counted && !readable)
      && (v.Refused? && v.code == 3 <==> readable && !good)
      && (v.Refused? && v.code == 3 ==>
            && v.errDesc < |fetched.value| && BadDesc(p, fetched.value[v.errDesc])
            && forall k :: 0 <= k < v.errDesc ==> !BadDesc(p, fetched.value[k]))
      && (v == Refused(4, 0) <==> good && !inside)
      && (v.Accepted? <==> inside)
      && (v.Accepted? ==> v.descs == fetched.value)
  {
    if fetched.Some? {
      var bad := FirstBad(p, fetched.value, 0);
      assert bad < |fetched.value| ==> BadDesc(p, fetched.value[bad]);
    }
  }

  // ---------------------------------------------------------------------------
  // Guest memory
  // ---------------------------------------------------------------------------

  /** Where entry `i` of the table at `addr` is. */
  function Slot(addr: int, i: int): int {
    addr + 16 * i
  }

  /** What the bus answers: RAM with holes in it, and the coherent descriptor tables. */
  class GuestMemory {
    const ram: array<bv8>
    const holes: set<int>
    var table: map<int, Desc>

    constructor (ram: array<bv8>, holes: set<int>)
      ensures this.ram == ram && this.holes == holes && table == map[]
    {
      this.ram, this.holes, this.table := ram, holes, map[];
    }

    predicate ByteBacked(a: int) {
      0 <= a < ram.Length && a !in holes
    }

    predicate Backed(addr: int, len: int) {
      0 <= addr && addr + len <= ram.Length && forall a :: addr <= a < addr + len ==> ByteBacked(a)
    }

    function Fetch(addr: int, count: nat): (r: Option<seq<Desc>>)
      reads this
      ensures r.Some? <==> forall i :: 0 <= i < count ==> Slot(addr, i) in table
      ensures r.Some? ==> |r.value| == count && forall i :: 0 <= i < count ==> r.value[i] == table[Slot(addr, i)]
    {
      var t := table;
      if forall i :: 0 <= i < count ==> Slot(addr, i) in t
      then Some(seq(count, i requires 0 <= i < count && Slot(addr, i) in t => t[Slot(addr, i)]))
      else None
    }
  }

  /** Segment `f` is the first that cannot be reached; all can if `f` is the end. */
  ghost predicate FaultsAt(p: Props, guest: GuestMemory, descs: seq<Desc>, f: nat) {
    f <= |descs| &&
    (forall k :: 0 <= k < f ==> Reachable(p, guest, descs[k])) &&
    (f < |descs| ==> !Reachable(p, guest, descs[f]))
  }

  predicate Reachable(p: Props, guest: GuestMemory, d: Desc) {
    DmaOk(p, d.addr, d.len) && guest.Backed(d.addr, d.len)
  }

  /** What a copy into on-board memory that stopped at segment `f` leaves there. */
  ghost predicate CopiedIn(ram: Bytes, mem0: Bytes, mem1: Bytes, descs: seq<Desc>, f: nat, start: nat)
    requires f <= |descs|
  {
    var moved := Total(descs, f);
    && |mem1| == |mem0|
    && (forall j :: 0 <= j < moved ==> AddrAt(descs, f, j) < |ram|)
    && forall i :: 0 <= i < |mem1| && !TornIn(descs, f, start + moved, i) ==>
         mem1[i] == if start <= i < start + moved then ram[AddrAt(descs, f, i - start)] else mem0[i]
  }

  /** What a copy out to RAM that stopped at segment `f` leaves there. */
  ghost predicate CopiedOut(ram0: Bytes, ram1: Bytes, mem: Bytes, descs: seq<Desc>, f: nat, start: nat, x: bv8)
    requires f <= |descs| && start + Total(descs, f) <= |mem|
  {
    && |ram1| == |ram0|
    && forall a :: 0 <= a < |ram1| && !(f < |descs| && TornIn(descs, f, descs[f].addr, a)) ==>
         ram1[a] == ByteAt(ram0, descs, f, mem, start, x, a)
  }

  /** The bytes that a fault in segment `f` may have torn: none if no segment faulted. */
  predicate TornIn(descs: seq<Desc>, f: nat, start: nat, i: nat) {
    f < |descs| && start <= i < start + descs[f].len
  }

  /**
   The whole of ldd_pcie_transfer(): a refused transfer moves nothing; an accepted one moves
   all, or the segments before the one that faulted.
   */
  ghost predicate Transfers(p: Props, guest: GuestMemory, v: Verdict, g: Program, x: bv8,
                            ram0: Bytes, mem0: Bytes, ram1: Bytes, mem1: Bytes, o: Outcome) {
    match v
    case Refused(code, errDesc) =>
      o == Outcome(code, 0, errDesc) && ram1 == ram0 && mem1 == mem0
    case Accepted(descs) =>
      var f := if o.code == 0 then |descs| else o.errDesc;
      && (o.code == 0 ==> o.errDesc == 0)
      && (o.code != 0 ==> o.code == ERR_DMA_FAULT && f < |descs|)
      && FaultsAt(p, guest, descs, f)
      && o.moved == Total(descs, f)
      && g.devOffset + o.moved <= |mem0|
      && if g.toGuest then mem1 == mem0 && CopiedOut(ram0, ram1, mem0, descs, f, g.devOffset, x)
         else ram1 == ram0 && CopiedIn(ram0, mem0, mem1, descs, f, g.devOffset)
  }

  /** pci_dma_read(): RAM to on-board memory.  A fault may leave part of the segment copied. */
  method DmaRead(guest: GuestMemory, addr: nat, mem: array<bv8>, off: nat, len: nat) returns (ok: bool)
    requires off + len <= mem.Length && mem != guest.ram
    modifies mem
    ensures ok <==> guest.Backed(addr, len)
    ensures ok ==> forall i :: off <= i < off + len ==> mem[i] == guest.ram[addr + (i - off)]
    ensures forall i :: 0 <= i < mem.Length && !(off <= i < off + len) ==> mem[i] == old(mem[i])
  {
    ok := guest.Backed(addr, len);
    for j := 0 to len
      invariant forall i :: 0 <= i < mem.Length && !(off <= i < off + j) ==> mem[i] == old(mem[i])
      invariant ok ==> forall i :: off <= i < off + j ==> mem[i] == guest.ram[addr + (i - off)]
    {
      if guest.ByteBacked(addr + j) {
        mem[off + j] := guest.ram[addr + j];
      }
    }
  }

  /** pci_dma_write(): `data` to RAM.  A fault may leave part of the segment written. */
  method DmaWrite(guest: GuestMemory, addr: nat, data: Bytes) returns (ok: bool)
    modifies guest.ram
    ensures ok <==> guest.Backed(addr, |data|)
    ensures ok ==> forall a :: addr <= a < addr + |data| ==> guest.ram[a] == data[a - addr]
    ensures forall a :: 0 <= a < guest.ram.Length && !(addr <= a < addr + |data|) ==>
              guest.ram[a] == old(guest.ram[a])
  {
    var ram := guest.ram;
    ok := guest.Backed(addr, |data|);
    for j := 0 to |data|
      invariant forall a :: 0 <= a < ram.Length && !(addr <= a < addr + j) ==> ram[a] == old(ram[a])
      invariant ok ==> forall a :: addr <= a < addr + j ==> ram[a] == data[a - addr]
    {
      if guest.ByteBacked(addr + j) {
        ram[addr + j] := data[j];
      }
    }
  }

  /** The copy that is XORed on its way to the guest. */
  method XorCopy(mem: array<bv8>, off: nat, len: nat, x: bv8) returns (buf: Bytes)
    requires off + len <= mem.Length
    ensures |buf| == len && forall j :: 0 <= j < len ==> buf[j] == mem[off + j] ^ x
  {
    buf := [];
    for j := 0 to len
      invariant |buf| == j
      invariant forall i :: 0 <= i < j ==> buf[i] == mem[off + i] ^ x
    {
      buf := buf + [mem[off + j] ^ x];
    }
  }
}
