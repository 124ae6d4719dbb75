/**
 The RAM disk of 29_block_device: a request is a list of bios, a bio a list of segments, and
 three request modes walk them. The disk and the pages that the segments lie in are byte
 arrays; a segment is an address in the pages and a length.
 */
module Block {
  import opened Segments

  const SECTOR_SIZE := 512
  const U64 := 0x1_0000_0000_0000_0000

  /** No array and no byte offset the block layer passes on is longer. */
  const MAX_BYTES := 0x8000_0000_0000_0000

  /** bv_len is 32 bits wide. */
  const MAX_LEN := 0x1_0000_0000

  type BioVec = Seg<()>

  datatype Bio = Bio(sector: nat, vecs: seq<BioVec>)

  datatype Op = Read | Write | OtherOp

  datatype Request = Request(op: Op, bios: seq<Bio>)

  datatype Status = Ok | IoErr | NotSupp

  /** `len` bytes between the disk at `offset` and the pages at `addr`. */
  datatype Copy = Copy(offset: nat, addr: nat, len: nat)

  /** Where a walk is: whether every segment so far fitted, and the copies it made, in order. */
  datatype Outcome = Outcome(ok: bool, copies: seq<Copy>)

  /** The sectors the walk advances over the first `n` segments; each length is shifted on its own. */
  function Sectors(vecs: seq<BioVec>, n: nat): nat
    requires n <= |vecs|
  {
    if n == 0 then 0 else Sectors(vecs, n - 1) + vecs[n - 1].len / SECTOR_SIZE
  }

  /** Where on the disk segment `i` goes when the first one goes to `sector`. */
  function Offset(sector: nat, vecs: seq<BioVec>, i: nat): nat
    requires i <= |vecs|
  {
    SECTOR_SIZE * (sector + Sectors(vecs, i))
  }

  /** One segment of a walk that is at `r`: nothing more happens once a segment did not fit. */
  function Step(r: Outcome, size: nat, offset: nat, v: BioVec): Outcome {
    if !r.ok then r
    else if offset + v.len > size then Outcome(false, r.copies)
    else Outcome(true, r.copies + [Copy(offset, v.addr, v.len)])
  }

  /** A walk that is at `r` goes on over the first `n` of `vecs`, from `sector`. */
  function Walk(r: Outcome, size: nat, sector: nat, vecs: seq<BioVec>, n: nat): Outcome
    requires n <= |vecs|
  {
    if n == 0 then r
    else Step(Walk(r, size, sector, vecs, n - 1), size, Offset(sector, vecs, n - 1), vecs[n - 1])
  }

  const START := Outcome(true, [])

  function WalkBio(r: Outcome, size: nat, bio: Bio): Outcome {
    Walk(r, size, bio.sector, bio.vecs, |bio.vecs|)
  }

  /** The first `n` bios walked one after the other, stopping at the first that fails. */
  function BioByBio(size: nat, bios: seq<Bio>, n: nat): Outcome
    requires n <= |bios|
  {
    if n == 0 then START else WalkBio(BioByBio(size, bios, n - 1), size, bios[n - 1])
  }

  /** The copies of the first `n` bios, each submitted on its own: none stops the next. */
  function EachAlone(size: nat, bios: seq<Bio>, n: nat): seq<Copy>
    requires n <= |bios|
  {
    if n == 0 then [] else WalkBio(Outcome(true, EachAlone(size, bios, n - 1)), size, bios[n - 1]).copies
  }

  /** The segments of the first `n` bios as one list. */
  function AllVecs(bios: seq<Bio>, n: nat): (r: seq<BioVec>)
    requires n <= |bios|
  {
    if n == 0 then [] else AllVecs(bios, n - 1) + bios[n - 1].vecs
  }

  /** A request covers consecutive sectors: each bio starts where the one before it ends. */
  ghost predicate Consecutive(bios: seq<Bio>) {
    forall k :: 0 <= k < |bios| ==> bios[k].sector == bios[0].sector + Sectors(AllVecs(bios, k), |AllVecs(bios, k)|)
  }

  ghost predicate Aligned(vecs: seq<BioVec>) {
    forall i :: 0 <= i < |vecs| ==> vecs[i].len % SECTOR_SIZE == 0
  }

  // ----- A list of segments split in two

  lemma {:induction false} SectorsSplit(a: seq<BioVec>, b: seq<BioVec>, j: nat)
    requires j <= |a + b|
    ensures Sectors(a + b, j) ==
      if j <= |a| then Sectors(a, j) else Sectors(a, |a|) + Sectors(b, j - |a|)
  {
    if j > 0 {
      SectorsSplit(a, b, j - 1);
    }
  }

  lemma {:induction false} WalkPrefix(r: Outcome, size: nat, sector: nat, a: seq<BioVec>, b: seq<BioVec>, n: nat)
    requires n <= |a|
    ensures Walk(r, size, sector, a + b, n) == Walk(r, size, sector, a, n)
  {
    if n > 0 {
      WalkPrefix(r, size, sector, a, b, n - 1);
      SectorsSplit(a, b, n - 1);
    }
  }

  lemma OffsetSplit(sector: nat, a: seq<BioVec>, b: seq<BioVec>, j: nat)
    requires j <= |b|
    ensures Offset(sector, a + b, |a| + j) == Offset(sector + Sectors(a, |a|), b, j)
  {
    SectorsSplit(a, b, |a| + j);
  }

  /** Walking two lists as one is walking the first and then the second behind it. */
  lemma {:induction false} WalkSplit(r: Outcome, size: nat, sector: nat, a: seq<BioVec>, b: seq<BioVec>, j: nat)
    requires j <= |b|
    ensures Walk(r, size, sector, a + b, |a| + j) ==
      Walk(Walk(r, size, sector, a, |a|), size, sector + Sectors(a, |a|), b, j)
    decreases j
  {
    if j == 0 {
      WalkPrefix(r, size, sector, a, b, |a|);
    } else {
      WalkSplit(r, size, sector, a, b, j - 1);
      OffsetSplit(sector, a, b, j - 1);
    }
  }

  // ----- Simple as its comment describes it, in one loop

  /** One walk over all the segments of the first `n` bios. */
  function InOneLoop(size: nat, bios: seq<Bio>, n: nat): Outcome
    requires 0 < n <= |bios|
  {
    Walk(START, size, bios[0].sector, AllVecs(bios, n), |AllVecs(bios, n)|)
  }

  lemma OneMoreBio(size: nat, bios: seq<Bio>, n: nat)
    requires 1 < n <= |bios| && Consecutive(bios)
    ensures InOneLoop(size, bios, n) == WalkBio(InOneLoop(size, bios, n - 1), size, bios[n - 1])
  {
    WalkSplit(START, size, bios[0].sector, AllVecs(bios, n - 1), bios[n - 1].vecs, |bios[n - 1].vecs|);
  }

  /** In one loop simple does what full does: the same status and the same copies, also past the end of the disk. */
  lemma {:induction false} OneLoopIsFull(size: nat, bios: seq<Bio>, n: nat)
    requires 0 < n <= |bios| && Consecutive(bios)
    ensures InOneLoop(size, bios, n) == BioByBio(size, bios, n)
    decreases n
  {
    if n == 1 {
      assert AllVecs(bios, 1) == bios[0].vecs;
    } else {
      OneMoreBio(size, bios, n);
      OneLoopIsFull(size, bios, n - 1);
    }
  }

  lemma {:induction false} SectorsExact(vecs: seq<BioVec>, n: nat)
    requires n <= |vecs| && Aligned(vecs)
    ensures SECTOR_SIZE * Sectors(vecs, n) == Total(vecs, n)
  {
    if n > 0 {
      SectorsExact(vecs, n - 1);
    }
  }

  /** A walk succeeds exactly when it has nothing to move or its last byte is on the disk. */
  lemma {:induction false} StatusExact(copies: seq<Copy>, size: nat, sector: nat, vecs: seq<BioVec>, n: nat)
    requires n <= |vecs| && Aligned(vecs)
    ensures Walk(Outcome(true, copies), size, sector, vecs, n).ok <==>
      n == 0 || SECTOR_SIZE * sector + Total(vecs, n) <= size
    decreases n
  {
    if n > 0 {
      StatusExact(copies, size, sector, vecs, n - 1);
      SectorsExact(vecs, n - 1);
    }
  }

  /** Nothing moves from a start past the end. */
  lemma {:induction false} PastTheEnd(r: Outcome, size: nat, sector: nat, vecs: seq<BioVec>, n: nat)
    requires n <= |vecs| && SECTOR_SIZE * sector > size
    ensures Walk(r, size, sector, vecs, n).copies == r.copies
    decreases n
  {
    if n > 0 {
      PastTheEnd(r, size, sector, vecs, n - 1);
    }
  }

  lemma BioPastTheEnd(r: Outcome, size: nat, bio: Bio)
    requires SECTOR_SIZE * bio.sector > size
    ensures WalkBio(r, size, bio).copies == r.copies
  {
    PastTheEnd(r, size, bio.sector, bio.vecs, |bio.vecs|);
  }

  lemma {:induction false} AllAligned(bios: seq<Bio>, n: nat)
    requires n <= |bios| && forall k :: 0 <= k < |bios| ==> Aligned(bios[k].vecs)
    ensures Aligned(AllVecs(bios, n))
  {
    if n > 0 {
      AllAligned(bios, n - 1);
    }
  }

  /** A bio behind one that failed starts past the end. */
  lemma LaterIsPastTheEnd(size: nat, bios: seq<Bio>, n: nat)
    requires n < |bios| && Consecutive(bios)
    requires forall k :: 0 <= k < |bios| ==> Aligned(bios[k].vecs)
    requires !BioByBio(size, bios, n).ok
    ensures SECTOR_SIZE * bios[n].sector > size
  {
    var vecs := AllVecs(bios, n);
    OneLoopIsFull(size, bios, n);
    AllAligned(bios, n);
    StatusExact([], size, bios[0].sector, vecs, |vecs|);
    SectorsExact(vecs, |vecs|);
  }

  /** The same bio, submitted alone or behind others that made the same copies. */
  lemma AloneStep(size: nat, bio: Bio, r: Outcome)
    requires !r.ok ==> SECTOR_SIZE * bio.sector > size
    ensures WalkBio(Outcome(true, r.copies), size, bio).copies == WalkBio(r, size, bio).copies
  {
    if r.ok {
      assert r == Outcome(true, r.copies);
    } else {
      BioPastTheEnd(r, size, bio);
      BioPastTheEnd(Outcome(true, r.copies), size, bio);
    }
  }

  ghost predicate StartsPastTheEnd(size: nat, bios: seq<Bio>, n: nat)
    requires n < |bios|
  {
    !BioByBio(size, bios, n).ok ==> SECTOR_SIZE * bios[n].sector > size
  }

  lemma {:induction false} AloneUpTo(size: nat, bios: seq<Bio>, n: nat)
    requires n <= |bios| && forall k :: 0 <= k < |bios| ==> StartsPastTheEnd(size, bios, k)
    ensures EachAlone(size, bios, n) == BioByBio(size, bios, n).copies
  {
    if n > 0 {
      AloneUpTo(size, bios, n - 1);
      assert StartsPastTheEnd(size, bios, n - 1);
      AloneStep(size, bios[n - 1], BioByBio(size, bios, n - 1));
    }
  }

  /** Each bio on its own makes the same copies: once one fails, the later ones start past the end. */
  lemma AloneIsFull(size: nat, bios: seq<Bio>)
    requires Consecutive(bios) && forall k :: 0 <= k < |bios| ==> Aligned(bios[k].vecs)
    ensures EachAlone(size, bios, |bios|) == BioByBio(size, bios, |bios|).copies
  {
    forall k | 0 <= k < |bios| ensures StartsPastTheEnd(size, bios, k) {
      if !BioByBio(size, bios, k).ok {
        LaterIsPastTheEnd(size, bios, k);
      }
    }
    AloneUpTo(size, bios, |bios|);
  }

  // ----- Where a walk is

  lemma {:induction false} WalkStuck(r: Outcome, size: nat, sector: nat, vecs: seq<BioVec>, n: nat)
    requires n <= |vecs| && !r.ok
    ensures Walk(r, size, sector, vecs, n) == r
  {
    if n > 0 {
      WalkStuck(r, size, sector, vecs, n - 1);
    }
  }

  lemma {:induction false} BiosStop(size: nat, bios: seq<Bio>, k: nat, n: nat)
    requires k <= n <= |bios| && !BioByBio(size, bios, k).ok
    ensures BioByBio(size, bios, n) == BioByBio(size, bios, k)
    decreases n
  {
    if k < n {
      BiosStop(size, bios, k, n - 1);
      WalkStuck(BioByBio(size, bios, k), size, bios[n - 1].sector, bios[n - 1].vecs, |bios[n - 1].vecs|);
    }
  }

  lemma {:induction false} WalkStops(r: Outcome, size: nat, sector: nat, vecs: seq<BioVec>, i: nat, n: nat)
    requires i <= n <= |vecs| && !Walk(r, size, sector, vecs, i).ok
    ensures Walk(r, size, sector, vecs, n) == Walk(r, size, sector, vecs, i)
    decreases n
  {
    if i < n {
      WalkStops(r, size, sector, vecs, i, n - 1);
    }
  }

  /** The copies made before a walk do not change what it adds. */
  lemma {:induction false} WalkFrom(copies: seq<Copy>, size: nat, sector: nat, vecs: seq<BioVec>, n: nat)
    requires n <= |vecs|
    ensures var w := Walk(START, size, sector, vecs, n);
      Walk(Outcome(true, copies), size, sector, vecs, n) == Outcome(w.ok, copies + w.copies)
    decreases n
  {
    if n > 0 {
      WalkFrom(copies, size, sector, vecs, n - 1);
    }
  }

  /** Whatever a walk ends with, its copies are those of the segments before the one it stopped at. */
  lemma {:induction false} CopiesArePrefix(size: nat, sector: nat, vecs: seq<BioVec>, n: nat)
    requires n <= |vecs|
    ensures var m := |Walk(START, size, sector, vecs, n).copies|;
      && m <= n
      && Walk(START, size, sector, vecs, m) == Outcome(true, Walk(START, size, sector, vecs, n).copies)
      && (Walk(START, size, sector, vecs, n).ok ==> m == n)
    decreases n
  {
    if n > 0 {
      CopiesArePrefix(size, sector, vecs, n - 1);
    }
  }

  /** The sector a walk from `start` is at after `copies`. */
  function Next(start: nat, copies: seq<Copy>): nat {
    if copies == [] then start
    else
      var last := copies[|copies| - 1];
      last.offset / SECTOR_SIZE + last.len / SECTOR_SIZE
  }

  lemma {:induction false} NextAfter(start: nat, size: nat, vecs: seq<BioVec>, n: nat)
    requires n <= |vecs| && Walk(START, size, start, vecs, n).ok
    ensures Next(start, Walk(START, size, start, vecs, n).copies) == start + Sectors(vecs, n)
    decreases n
  {
    if n > 0 {
      NextAfter(start, size, vecs, n - 1);
    }
  }

  /** The first segment from `i` on that ends past the disk, or their number: lengths alone decide. */
  function FirstPast(size: nat, sector: nat, vecs: seq<BioVec>, i: nat): (f: nat)
    requires i <= |vecs|
    ensures i <= f <= |vecs|
    decreases |vecs| - i
  {
    if i == |vecs| || Offset(sector, vecs, i) + vecs[i].len > size then i else FirstPast(size, sector, vecs, i + 1)
  }

  lemma {:induction false} FirstPastIsFirst(size: nat, sector: nat, vecs: seq<BioVec>, i: nat, j: nat)
    requires i <= j < |vecs|
    ensures j < FirstPast(size, sector, vecs, i) ==> Offset(sector, vecs, j) + vecs[j].len <= size
    ensures j == FirstPast(size, sector, vecs, i) ==> Offset(sector, vecs, j) + vecs[j].len > size
    decreases j - i
  {
    if i < j {
      if FirstPast(size, sector, vecs, i) > i {
        FirstPastIsFirst(size, sector, vecs, i + 1, j);
      }
    }
  }

  lemma {:induction false} WalkReaches(size: nat, sector: nat, vecs: seq<BioVec>, i: nat)
    requires i <= |vecs| && Walk(START, size, sector, vecs, i).ok && |Walk(START, size, sector, vecs, i).copies| == i
    ensures var w, f := Walk(START, size, sector, vecs, |vecs|), FirstPast(size, sector, vecs, i);
      (w.ok <==> f == |vecs|) && |w.copies| == f
    decreases |vecs| - i
  {
    if i < |vecs| {
      if Offset(sector, vecs, i) + vecs[i].len > size {
        WalkStops(START, size, sector, vecs, i + 1, |vecs|);
      } else {
        WalkReaches(size, sector, vecs, i + 1);
      }
    }
  }

  lemma AloneMore(size: nat, bios: seq<Bio>, k: nat)
    requires k < |bios|
    ensures EachAlone(size, bios, k + 1) == EachAlone(size, bios, k) + WalkBio(START, size, bios[k]).copies
  {
    WalkFrom(EachAlone(size, bios, k), size, bios[k].sector, bios[k].vecs, |bios[k].vecs|);
  }

  /** A walk ends at the first segment that is past the disk, and knows its sector. */
  lemma WalkEnds(size: nat, sector: nat, vecs: seq<BioVec>)
    ensures var w, f := Walk(START, size, sector, vecs, |vecs|), FirstPast(size, sector, vecs, 0);
      && (w.ok <==> f == |vecs|)
      && |w.copies| == f
      && Next(sector, w.copies) == sector + Sectors(vecs, f)
  {
    WalkReaches(size, sector, vecs, 0);
    CopiesArePrefix(size, sector, vecs, |vecs|);
    NextAfter(sector, size, vecs, FirstPast(size, sector, vecs, 0));
  }

  // ----- What the request completes with

  function Report(ok: bool): Status {
    if ok then Ok else IoErr
  }

  /** Full's status is set by its bios. */
  function FullStatus(size: nat, rq: Request): Status {
    if rq.op == OtherOp || rq.bios == [] then NotSupp else Report(BioByBio(size, rq.bios, |rq.bios|).ok)
  }

  /** Simple's status is set by its segments, here in one loop: a request without any stays unsupported. */
  function OneLoopStatus(size: nat, rq: Request): Status {
    if rq.op == OtherOp || rq.bios == [] || AllVecs(rq.bios, |rq.bios|) == [] then NotSupp
    else Report(InOneLoop(size, rq.bios, |rq.bios|).ok)
  }

  /** In one loop the two report the same, except for a request of bios that all lack segments. */
  lemma OneLoopStatusesAgree(size: nat, rq: Request)
    requires Consecutive(rq.bios)
    ensures OneLoopStatus(size, rq) == FullStatus(size, rq) <==>
      rq.op == OtherOp || rq.bios == [] || AllVecs(rq.bios, |rq.bios|) != []
  {
    if rq.bios != [] {
      OneLoopIsFull(size, rq.bios, |rq.bios|);
    }
  }
}
