/**
 How examples/28_dma_sg/main.c describes a user's buffer to the device: pages, segments and
 descriptors, that the device never refuses them, and that data written with one layout
 and read with another comes back.
 */
module SgLayout {
  import opened Common
  import opened PcieRegs
  import opened PcieTransfer
  import opened Segments

  const PAGE := 4096

  // ---------------------------------------------------------------------------
  // What the driver asks for
  // ---------------------------------------------------------------------------

  function Min(a: int, b: int): int {
    if a < b then a else b
  }

  /** `count` as dma_sg_rw() limits it: to the on-board memory and to one page per descriptor. */
  function Limit(count: nat, pos: nat, maxDesc: nat, offset: nat): int {
    Min(Min(count, MEM_SIZE - pos), maxDesc * PAGE - offset)
  }

  function PagesFor(offset: nat, count: nat): nat {
    (offset + count + (PAGE - 1)) / PAGE
  }

  /** Pages pinned and bytes moved, when `present` of the pages from the first on are there. */
  datatype Plan = Plan(pages: nat, count: nat)

  function PlanFor(offset: nat, count: nat, present: nat): Plan
    requires offset < PAGE
  {
    var npages := PagesFor(offset, count);
    if present < npages then Plan(present, if present == 0 then 0 else present * PAGE - offset)
    else Plan(npages, count)
  }

  /**
   Whatever the user's address, count, file position and missing pages: the pages fit the
   arrays of `max_desc` entries, the on-board range fits, and as much is moved as was asked for,
   as is left on board, as `max_desc` pages hold and as is present; never nothing.
   */
  lemma PlanFits(count: nat, pos: nat, maxDesc: nat, offset: nat, present: nat)
    requires count >= 1 && pos < MEM_SIZE && maxDesc >= 1 && offset < PAGE && present >= 1
    ensures Limit(count, pos, maxDesc, offset) >= 1
    ensures var plan := PlanFor(offset, Limit(count, pos, maxDesc, offset), present);
            && 1 <= plan.pages <= maxDesc && plan.pages <= present
            && 1 <= plan.count <= count && pos + plan.count <= MEM_SIZE
            && (plan.pages - 1) * PAGE < offset + plan.count <= plan.pages * PAGE
            && plan.count == Min(Min(count, 0x10_0000 - pos), Min(maxDesc, present) * 4096 - offset)
  {
    var c := Limit(count, pos, maxDesc, offset);
    var n := PagesFor(offset, c);
    assert (n - 1) * PAGE < offset + c <= n * PAGE;
    assert offset + c <= maxDesc * PAGE;
  }

  // ---------------------------------------------------------------------------
  // Pages and segments
  // ---------------------------------------------------------------------------

  /** The physical address of byte `i` of a buffer that starts at `offset` in the first frame. */
  function PhysAt(frames: seq<nat>, offset: nat, i: nat): nat
    requires (offset + i) / PAGE < |frames|
  {
    frames[(offset + i) / PAGE] * PAGE + (offset + i) % PAGE
  }

  ghost predicate Distinct(frames: seq<nat>) {
    forall i, j :: 0 <= i < j < |frames| ==> frames[i] != frames[j]
  }

  lemma PhysInjective(frames: seq<nat>, offset: nat, i: nat, j: nat)
    requires Distinct(frames) && (offset + i) / PAGE < |frames| && (offset + j) / PAGE < |frames|
    requires PhysAt(frames, offset, i) == PhysAt(frames, offset, j)
    ensures i == j
  {
    var p, q := (offset + i) / PAGE, (offset + j) / PAGE;
    assert frames[p] == frames[q] && (offset + i) % PAGE == (offset + j) % PAGE;
  }

  /**
   What sg_alloc_table_from_pages_segment() and dma_map_sgtable() promise: the pages in order,
   regrouped into at most as many non-empty segments of at most `maxSeg` bytes, `count` in all.
   */
  ghost predicate Regroups(descs: seq<Desc>, frames: seq<nat>, offset: nat, count: nat, maxSeg: nat) {
    && offset + count <= |frames| * PAGE
    && 1 <= |descs| <= |frames|
    && (forall k :: 0 <= k < |descs| ==> 0 < descs[k].len <= maxSeg && descs[k].tag == 0)
    && Total(descs, |descs|) == count
    && (forall i :: 0 <= i < count ==> AddrAt(descs, |descs|, i) == PhysAt(frames, offset, i))
  }

  /** The table that the driver writes is never refused. */
  lemma TableAccepted(p: Props, g: Program, descs: seq<Desc>, frames: seq<nat>, offset: nat, count: nat)
    requires Realized(p) && Regroups(descs, frames, offset, count, p.maxSeg)
    requires |frames| <= p.maxDesc && g.devOffset + count <= MEM_SIZE
    requires g.descCount == |descs| && DmaOk(p, DescAddr(g), |descs| * 16)
    ensures Judge(p, true, g, Some(descs)) == Accepted(descs)
  {
    var bad := FirstBad(p, descs, 0);
    assert bad < |descs| ==> GoodDesc(p, descs[bad]);
  }

  /** Byte `a` belongs to the buffer. */
  ghost predicate InBuffer(frames: seq<nat>, offset: nat, count: nat, a: nat)
    requires offset + count <= |frames| * PAGE
  {
    exists i :: 0 <= i < count && PhysAt(frames, offset, i) == a
  }

  lemma RegroupedInjective(descs: seq<Desc>, frames: seq<nat>, offset: nat, count: nat, maxSeg: nat)
    requires Regroups(descs, frames, offset, count, maxSeg) && Distinct(frames)
    ensures Injective(descs, |descs|)
  {
    forall i, j | 0 <= i < count && 0 <= j < count && AddrAt(descs, |descs|, i) == AddrAt(descs, |descs|, j)
      ensures i == j
    {
      PhysInjective(frames, offset, i, j);
    }
  }
}
