/** The RAM disk of 29_block_device: its three request modes, proved against the walks of Block and NestedLoops. */
module MemDisk {
  import opened Segments
  import opened Block
  import opened NestedLoops
  import opened BlockBytes

  ghost predicate Ready(bios: seq<Bio>, memory: nat) {
    forall k :: 0 <= k < |bios| ==> BioReady(bios[k], memory)
  }

  /** What the block layer promises of a bio: its pages are there and its byte offset fits 63 bits. */
  ghost predicate BioReady(bio: Bio, memory: nat) {
    Mapped(bio.vecs, memory) && SECTOR_SIZE * bio.sector <= MAX_BYTES
  }

  lemma ShiftDoesNotWrap(sector: nat, len: nat)
    requires SECTOR_SIZE * sector <= MAX_BYTES && len < MAX_LEN
    ensures sector * SECTOR_SIZE % U64 == SECTOR_SIZE * sector
    ensures (SECTOR_SIZE * sector + len) % U64 == SECTOR_SIZE * sector + len
  {
  }

  lemma {:induction false} AllMapped(bios: seq<Bio>, memory: nat, n: nat)
    requires n <= |bios| && Ready(bios, memory)
    ensures Mapped(AllVecs(bios, n), memory)
  {
    if n > 0 {
      AllMapped(bios, memory, n - 1);
      assert BioReady(bios[n - 1], memory);
    }
  }

  class Disk {
    const data: array<bv8>

    constructor (size: nat)
      ensures data.Length == size && fresh(data)
    {
      data := new bv8[size];
    }

    /** memdisk_transfer(): the 64-bit sums are taken as the C code takes them. */
    method Transfer(mem: array<bv8>, sector: nat, v: BioVec, write: bool) returns (status: Status)
      requires mem != data && data.Length <= MAX_BYTES
      requires v.addr + v.len <= mem.Length && v.len < MAX_LEN && SECTOR_SIZE * sector <= MAX_BYTES
      modifies data, mem
      ensures status == Report(SECTOR_SIZE * sector + v.len <= data.Length)
      ensures Did(old(data[..]), old(mem[..]), data[..], mem[..],
                  if status == Ok then [Copy(SECTOR_SIZE * sector, v.addr, v.len)] else [], write)
    {
      ShiftDoesNotWrap(sector, v.len);
      var offset := sector * SECTOR_SIZE % U64;
      if (offset + v.len) % U64 > data.Length {
        return IoErr;
      }
      if write {
        forall k | 0 <= k < v.len {
          data[offset + k] := mem[v.addr + k];
        }
        OneCopy(mem[..], old(data[..]), data[..], Copy(offset, v.addr, v.len), true, v.addr, offset);
      } else {
        forall k | 0 <= k < v.len {
          mem[v.addr + k] := data[offset + k];
        }
        OneCopy(data[..], old(mem[..]), mem[..], Copy(offset, v.addr, v.len), false, offset, v.addr);
      }
      return Ok;
    }

    /** The loop over segments that every mode has: transfer, stop on an error, advance the sector. */
    method ForEachSegment(mem: array<bv8>, start: nat, vecs: seq<BioVec>, write: bool)
        returns (status: Status, sector: nat)
      requires mem != data && data.Length <= MAX_BYTES
      requires Mapped(vecs, mem.Length) && SECTOR_SIZE * start <= MAX_BYTES
      modifies data, mem
      ensures status == Report(Walk(START, data.Length, start, vecs, |vecs|).ok)
      ensures sector == Next(start, Walk(START, data.Length, start, vecs, |vecs|).copies)
      ensures SECTOR_SIZE * sector <= MAX_BYTES
      ensures Did(old(data[..]), old(mem[..]), data[..], mem[..],
                  Walk(START, data.Length, start, vecs, |vecs|).copies, write)
    {
      sector := start;
      var i := 0;
      ghost var copies := [];
      while i < |vecs|
        invariant 0 <= i <= |vecs| && sector == start + Sectors(vecs, i) == Next(start, copies)
        invariant SECTOR_SIZE * sector <= MAX_BYTES
        invariant Walk(START, data.Length, start, vecs, i) == Outcome(true, copies)
        invariant Did(old(data[..]), old(mem[..]), data[..], mem[..], copies, write)
      {
        ghost var disk, pages := data[..], mem[..];
        status := Transfer(mem, sector, vecs[i], write);
        ghost var made := if status == Ok then [Copy(SECTOR_SIZE * sector, vecs[i].addr, vecs[i].len)] else [];
        DidMore(old(data[..]), old(mem[..]), disk, pages, data[..], mem[..], copies, made, write);
        copies := copies + made;
        if status != Ok {
          WalkStops(START, data.Length, start, vecs, i + 1, |vecs|);
          return;
        }
        sector := sector + vecs[i].len / SECTOR_SIZE;
        i := i + 1;
      }
      status := Ok;
    }

    method XferBio(mem: array<bv8>, bio: Bio, write: bool) returns (status: Status)
      requires mem != data && data.Length <= MAX_BYTES && BioReady(bio, mem.Length)
      modifies data, mem
      ensures status == Report(WalkBio(START, data.Length, bio).ok)
      ensures Did(old(data[..]), old(mem[..]), data[..], mem[..], WalkBio(START, data.Length, bio).copies, write)
    {
      var next;
      status, next := ForEachSegment(mem, bio.sector, bio.vecs, write);
    }

    /** Mode 0 as its comment describes it: the request's segments across all its bios in one loop. */
    method QueueRqOneLoop(mem: array<bv8>, rq: Request) returns (status: Status)
      requires mem != data && data.Length <= MAX_BYTES && Ready(rq.bios, mem.Length)
      modifies data, mem
      ensures status == OneLoopStatus(data.Length, rq)
      ensures Did(old(data[..]), old(mem[..]), data[..], mem[..],
                  if status == NotSupp then [] else InOneLoop(data.Length, rq.bios, |rq.bios|).copies, rq.op == Write)
    {
      status := NotSupp;
      if rq.op == OtherOp || rq.bios == [] {
        return;
      }
      var vecs := AllVecs(rq.bios, |rq.bios|);
      if vecs != [] {
        AllMapped(rq.bios, mem.Length, |rq.bios|);
        assert BioReady(rq.bios[0], mem.Length);
        var next;
        status, next := ForEachSegment(mem, rq.bios[0].sector, vecs, rq.op == Write);
      }
    }

    /** Mode 1, bio by bio. */
    method QueueRqFull(mem: array<bv8>, rq: Request) returns (status: Status)
      requires mem != data && data.Length <= MAX_BYTES && Ready(rq.bios, mem.Length)
      modifies data, mem
      ensures status == FullStatus(data.Length, rq)
      ensures Did(old(data[..]), old(mem[..]), data[..], mem[..],
                  if status == NotSupp then [] else BioByBio(data.Length, rq.bios, |rq.bios|).copies, rq.op == Write)
    {
      status := NotSupp;
      if rq.op == OtherOp {
        return;
      }
      var k, write := 0, rq.op == Write;
      ghost var copies := [];
      while k < |rq.bios|
        invariant 0 <= k <= |rq.bios| && status == if k == 0 then NotSupp else Ok
        invariant BioByBio(data.Length, rq.bios, k) == Outcome(true, copies)
        invariant Did(old(data[..]), old(mem[..]), data[..], mem[..], copies, write)
      {
        ghost var disk, pages, bio := data[..], mem[..], rq.bios[k];
        status := XferBio(mem, rq.bios[k], write);
        ghost var made := WalkBio(START, data.Length, bio).copies;
        WalkFrom(copies, data.Length, bio.sector, bio.vecs, |bio.vecs|);
        DidMore(old(data[..]), old(mem[..]), disk, pages, data[..], mem[..], copies, made, write);
        copies := copies + made;
        k := k + 1;
        if status != Ok {
          BiosStop(data.Length, rq.bios, k, |rq.bios|);
          return;
        }
      }
    }

    /** Mode 0, with the two loops that rq_for_each_segment() is made of. */
    method QueueRqSimple(mem: array<bv8>, rq: Request) returns (status: Status)
      requires mem != data && data.Length <= MAX_BYTES && Ready(rq.bios, mem.Length)
      modifies data, mem
      ensures status == SimpleStatus(data.Length, rq)
      ensures Did(old(data[..]), old(mem[..]), data[..], mem[..],
                  if status == NotSupp then [] else InTwoLoops(data.Length, rq.bios, |rq.bios|).copies, rq.op == Write)
    {
      status := NotSupp;
      if rq.op == OtherOp || rq.bios == [] {
        return;
      }
      assert BioReady(rq.bios[0], mem.Length);
      var k, sector, write := 0, rq.bios[0].sector, rq.op == Write;
      ghost var copies := [];
      while k < |rq.bios|
        invariant 0 <= k <= |rq.bios| && (status == NotSupp <==> AllVecs(rq.bios, k) == [])
        invariant InTwoLoops(data.Length, rq.bios, k).copies == copies
        invariant status != NotSupp ==> status == Report(InTwoLoops(data.Length, rq.bios, k).ok)
        invariant status == NotSupp ==> copies == []
        invariant sector == Next(rq.bios[0].sector, copies) && SECTOR_SIZE * sector <= MAX_BYTES
        invariant Did(old(data[..]), old(mem[..]), data[..], mem[..], copies, write)
      {
        assert BioReady(rq.bios[k], mem.Length);
        if rq.bios[k].vecs != [] {
          ghost var disk, pages, at := data[..], mem[..], sector;
          status, sector := ForEachSegment(mem, sector, rq.bios[k].vecs, write);
          ghost var vecs := rq.bios[k].vecs;
          ghost var made := Walk(START, data.Length, at, vecs, |vecs|).copies;
          WalkFrom(copies, data.Length, at, vecs, |vecs|);
          DidMore(old(data[..]), old(mem[..]), disk, pages, data[..], mem[..], copies, made, write);
          copies := copies + made;
        }
        k := k + 1;
      }
    }

    /** Mode 2, one bio as it is submitted. */
    method SubmitBio(mem: array<bv8>, op: Op, bio: Bio) returns (status: Status)
      requires mem != data && data.Length <= MAX_BYTES && BioReady(bio, mem.Length)
      modifies data, mem
      ensures status == if op == OtherOp then NotSupp else Report(WalkBio(START, data.Length, bio).ok)
      ensures Did(old(data[..]), old(mem[..]), data[..], mem[..],
                  if op == OtherOp then [] else WalkBio(START, data.Length, bio).copies, op == Write)
    {
      if op == OtherOp {
        return NotSupp;
      }
      status := XferBio(mem, bio, op == Write);
    }

    /** The bios of a request as mode 2 gets them: one call each, whatever became of the one before. */
    method SubmitAll(mem: array<bv8>, op: Op, bios: seq<Bio>) returns (statuses: seq<Status>)
      requires mem != data && data.Length <= MAX_BYTES && Ready(bios, mem.Length)
      modifies data, mem
      ensures |statuses| == |bios|
      ensures forall k :: 0 <= k < |bios| ==>
                statuses[k] == if op == OtherOp then NotSupp else Report(WalkBio(START, data.Length, bios[k]).ok)
      ensures Did(old(data[..]), old(mem[..]), data[..], mem[..],
                  if op == OtherOp then [] else EachAlone(data.Length, bios, |bios|), op == Write)
    {
      statuses := [];
      ghost var copies := [];
      while |statuses| < |bios|
        invariant |statuses| <= |bios|
        invariant forall k :: 0 <= k < |statuses| ==>
                    statuses[k] == if op == OtherOp then NotSupp else Report(WalkBio(START, data.Length, bios[k]).ok)
        invariant copies == if op == OtherOp then [] else EachAlone(data.Length, bios, |statuses|)
        invariant Did(old(data[..]), old(mem[..]), data[..], mem[..], copies, op == Write)
      {
        ghost var disk, pages, bio := data[..], mem[..], bios[|statuses|];
        assert BioReady(bio, mem.Length);
        var status := SubmitBio(mem, op, bios[|statuses|]);
        ghost var made := if op == OtherOp then [] else WalkBio(START, data.Length, bio).copies;
        AloneMore(data.Length, bios, |statuses|);
        DidMore(old(data[..]), old(mem[..]), disk, pages, data[..], mem[..], copies, made, op == Write);
        copies := copies + made;
        statuses := statuses + [status];
      }
    }
  }

  /** The same request on two equal disks, one in simple mode and one in full mode. */
  method SimpleAgainstFull(d: Disk, e: Disk, pagesD: array<bv8>, pagesE: array<bv8>, rq: Request)
      returns (simple: Status, full: Status)
    requires d.data != pagesD && e.data != pagesE && {d.data, pagesD} !! {e.data, pagesE}
    requires d.data[..] == e.data[..] && pagesD[..] == pagesE[..]
    requires d.data.Length <= MAX_BYTES && Ready(rq.bios, pagesD.Length) && Consecutive(rq.bios)
    modifies d.data, e.data, pagesD, pagesE
    ensures rq.op != OtherOp && rq.bios != [] ==>
              (simple == full <==> AllVecs(rq.bios, |rq.bios|) != [] && !HidesError(d.data.Length, rq.bios))
    ensures (forall k :: 0 <= k < |rq.bios| ==> !LateFit(d.data.Length, rq.bios, k)) ==>
              d.data[..] == e.data[..] && pagesD[..] == pagesE[..]
  {
    ghost var size := d.data.Length;
    assert |d.data[..]| == |e.data[..]| && |pagesD[..]| == |pagesE[..]|;
    simple := d.QueueRqSimple(pagesD, rq);
    full := e.QueueRqFull(pagesE, rq);
    StatusesAgree(size, rq);
    if forall k :: 0 <= k < |rq.bios| ==> !LateFit(size, rq.bios, k) {
      TwoLoopsExact(size, rq.bios);
      if AllVecs(rq.bios, |rq.bios|) == [] {
        NoSegmentsNoCopies(size, rq.bios, |rq.bios|);
      }
      ghost var copies := if rq.op == OtherOp then [] else BioByBio(size, rq.bios, |rq.bios|).copies;
      SameCopiesSameBytes(old(d.data[..]), old(pagesD[..]), d.data[..], pagesD[..], e.data[..], pagesE[..],
                          copies, rq.op == Write);
    }
  }
}
