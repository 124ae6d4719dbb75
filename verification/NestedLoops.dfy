/**
 Simple mode of 29_block_device as the kernel runs it.  rq_for_each_segment() is a loop over bios
 around a loop over segments, and the driver's break leaves only the inner one: after an error
 the walk resumes with the next bio, at the sector that failed.
 */
module NestedLoops {
  import opened Segments
  import opened Block

  function InTwoLoops(size: nat, bios: seq<Bio>, n: nat): Outcome
    requires n <= |bios|
  {
    if n == 0 then START
    else
      var r, bio := InTwoLoops(size, bios, n - 1), bios[n - 1];
      if bio.vecs == [] then r
      else Walk(Outcome(true, r.copies), size, Next(bios[0].sector, r.copies), bio.vecs, |bio.vecs|)
  }

  // ----- The walk told by lengths alone

  /** Where the walk is after the first `n` bios. */
  function SectorAt(size: nat, bios: seq<Bio>, n: nat): nat
    requires 0 < |bios| && n <= |bios|
  {
    if n == 0 then bios[0].sector
    else
      var s, vecs := SectorAt(size, bios, n - 1), bios[n - 1].vecs;
      s + Sectors(vecs, FirstPast(size, s, vecs, 0))
  }

  /** Whether the last of the first `n` bios that has segments fits where the walk finds itself. */
  predicate LastFits(size: nat, bios: seq<Bio>, n: nat)
    requires 0 < |bios| && n <= |bios|
  {
    n == 0 ||
    (if bios[n - 1].vecs == [] then LastFits(size, bios, n - 1)
     else FirstPast(size, SectorAt(size, bios, n - 1), bios[n - 1].vecs, 0) == |bios[n - 1].vecs|)
  }

  lemma {:induction false} NestedWalk(size: nat, bios: seq<Bio>, n: nat)
    requires 0 < |bios| && n <= |bios|
    ensures InTwoLoops(size, bios, n).ok == LastFits(size, bios, n)
    ensures Next(bios[0].sector, InTwoLoops(size, bios, n).copies) == SectorAt(size, bios, n)
    decreases n
  {
    if n > 0 {
      NestedWalk(size, bios, n - 1);
      var r, s, vecs := InTwoLoops(size, bios, n - 1), SectorAt(size, bios, n - 1), bios[n - 1].vecs;
      WalkFrom(r.copies, size, s, vecs, |vecs|);
      WalkEnds(size, s, vecs);
    }
  }

  /** Some segment of the first `k` bios is past the disk: full mode fails there. */
  ghost predicate FailsBefore(size: nat, bios: seq<Bio>, k: nat)
    requires 0 < |bios| && k <= |bios|
  {
    FirstPast(size, bios[0].sector, AllVecs(bios, k), 0) < |AllVecs(bios, k)|
  }

  /** The sector of that segment, or the one behind them all. */
  ghost function FailsAt(size: nat, bios: seq<Bio>, k: nat): nat
    requires 0 < |bios| && k <= |bios|
  {
    bios[0].sector + Sectors(AllVecs(bios, k), FirstPast(size, bios[0].sector, AllVecs(bios, k), 0))
  }

  lemma FullWalk(size: nat, bios: seq<Bio>, k: nat)
    requires 0 < |bios| && k <= |bios| && Consecutive(bios)
    ensures BioByBio(size, bios, k).ok <==> !FailsBefore(size, bios, k)
    ensures Next(bios[0].sector, BioByBio(size, bios, k).copies) == FailsAt(size, bios, k)
  {
    WalkEnds(size, bios[0].sector, AllVecs(bios, k));
    if k > 0 {
      OneLoopIsFull(size, bios, k);
    }
  }

  /** A bio behind the failed segment whose first segment is short enough for that one's place. */
  ghost predicate LateFit(size: nat, bios: seq<Bio>, k: nat)
    requires k < |bios|
  {
    && FailsBefore(size, bios, k)
    && bios[k].vecs != []
    && SECTOR_SIZE * FailsAt(size, bios, k) + bios[k].vecs[0].len <= size
  }

  // ----- When the two walks part

  /** A walk either misses with its first segment, and copies nothing, or copies something. */
  lemma {:induction false} FirstDecides(copies: seq<Copy>, size: nat, sector: nat, vecs: seq<BioVec>, n: nat)
    requires 0 < n <= |vecs|
    ensures SECTOR_SIZE * sector + vecs[0].len > size ==>
      Walk(Outcome(true, copies), size, sector, vecs, n) == Outcome(false, copies)
    ensures SECTOR_SIZE * sector + vecs[0].len <= size ==>
      |Walk(Outcome(true, copies), size, sector, vecs, n).copies| > |copies|
    decreases n
  {
    if n == 1 {
      assert Walk(Outcome(true, copies), size, sector, vecs, 0) == Outcome(true, copies);
    } else {
      FirstDecides(copies, size, sector, vecs, n - 1);
    }
  }

  lemma {:induction false} WalkGrows(r: Outcome, size: nat, sector: nat, vecs: seq<BioVec>, n: nat)
    requires n <= |vecs|
    ensures |Walk(r, size, sector, vecs, n).copies| >= |r.copies|
  {
    if n > 0 {
      WalkGrows(r, size, sector, vecs, n - 1);
    }
  }

  lemma NextBio(size: nat, bios: seq<Bio>, n: nat)
    requires n < |bios| && Consecutive(bios) && BioByBio(size, bios, n).ok
    ensures Next(bios[0].sector, BioByBio(size, bios, n).copies) == bios[n].sector
  {
    if n > 0 {
      OneLoopIsFull(size, bios, n);
      NextAfter(bios[0].sector, size, AllVecs(bios, n), |AllVecs(bios, n)|);
    }
  }

  ghost predicate Agree(size: nat, bios: seq<Bio>, n: nat)
    requires n <= |bios|
  {
    InTwoLoops(size, bios, n) == BioByBio(size, bios, n)
  }

  ghost predicate Apart(size: nat, bios: seq<Bio>, n: nat)
    requires n <= |bios|
  {
    !BioByBio(size, bios, n).ok && |InTwoLoops(size, bios, n).copies| > |BioByBio(size, bios, n).copies|
  }

  /** One bio more, the two walks having agreed so far. */
  lemma PartOnLateFit(size: nat, bios: seq<Bio>, n: nat)
    requires n < |bios| && Consecutive(bios) && Agree(size, bios, n)
    ensures if LateFit(size, bios, n) then Apart(size, bios, n + 1) else Agree(size, bios, n + 1)
  {
    var r, bio := BioByBio(size, bios, n), bios[n];
    FullWalk(size, bios, n);
    if r.ok {
      NextBio(size, bios, n);
      assert r == Outcome(true, r.copies);
    } else {
      WalkStuck(r, size, bio.sector, bio.vecs, |bio.vecs|);
      if bio.vecs != [] {
        FirstDecides(r.copies, size, Next(bios[0].sector, r.copies), bio.vecs, |bio.vecs|);
      }
    }
  }

  /** One bio more, the two walks having parted: full makes no more copies, and two loops lose none. */
  lemma StayApart(size: nat, bios: seq<Bio>, n: nat)
    requires n < |bios| && Apart(size, bios, n)
    ensures Apart(size, bios, n + 1)
  {
    var r, s, bio := BioByBio(size, bios, n), InTwoLoops(size, bios, n), bios[n];
    WalkStuck(r, size, bio.sector, bio.vecs, |bio.vecs|);
    WalkGrows(Outcome(true, s.copies), size, Next(bios[0].sector, s.copies), bio.vecs, |bio.vecs|);
  }

  lemma {:induction false} AgreeUpTo(size: nat, bios: seq<Bio>, n: nat)
    requires n <= |bios| && Consecutive(bios) && forall k :: 0 <= k < n ==> !LateFit(size, bios, k)
    ensures Agree(size, bios, n)
    decreases n
  {
    if n > 0 {
      AgreeUpTo(size, bios, n - 1);
      PartOnLateFit(size, bios, n - 1);
    }
  }

  lemma {:induction false} ApartFrom(size: nat, bios: seq<Bio>, k: nat, n: nat)
    requires k < n <= |bios| && Apart(size, bios, k + 1)
    ensures Apart(size, bios, n)
    decreases n
  {
    if k + 1 < n {
      ApartFrom(size, bios, k, n - 1);
      StayApart(size, bios, n - 1);
    }
  }

  lemma {:induction false} FirstLateFit(size: nat, bios: seq<Bio>, n: nat) returns (k: nat)
    requires n <= |bios| && !forall k :: 0 <= k < n ==> !LateFit(size, bios, k)
    ensures k < n && LateFit(size, bios, k) && forall j :: 0 <= j < k ==> !LateFit(size, bios, j)
    decreases n
  {
    if forall j :: 0 <= j < n - 1 ==> !LateFit(size, bios, j) {
      k := n - 1;
    } else {
      k := FirstLateFit(size, bios, n - 1);
    }
  }

  /**
   Walked in two loops, simple still does what full does exactly when no bio behind a failed
   one starts with a segment that fits where the walk got stuck; a request that fits has none.
   */
  lemma TwoLoopsExact(size: nat, bios: seq<Bio>)
    requires Consecutive(bios)
    ensures InTwoLoops(size, bios, |bios|) == BioByBio(size, bios, |bios|) <==>
      forall k :: 0 <= k < |bios| ==> !LateFit(size, bios, k)
    ensures BioByBio(size, bios, |bios|).ok ==> InTwoLoops(size, bios, |bios|) == BioByBio(size, bios, |bios|)
  {
    if forall k :: 0 <= k < |bios| ==> !LateFit(size, bios, k) {
      AgreeUpTo(size, bios, |bios|);
    } else {
      var k := FirstLateFit(size, bios, |bios|);
      AgreeUpTo(size, bios, k);
      PartOnLateFit(size, bios, k);
      ApartFrom(size, bios, k, |bios|);
    }
  }

  /** A request past the end of a three-sector disk: the second bio lands in the first one's place, and succeeds. */
  lemma TwoLoopsDiverge()
    ensures var bios := [Bio(2, [Seg(0, 1024, ())]), Bio(4, [Seg(1024, 512, ())])];
      && Consecutive(bios)
      && BioByBio(1536, bios, 2) == Outcome(false, [])
      && InTwoLoops(1536, bios, 2) == Outcome(true, [Copy(1024, 1024, 512)])
      && FullStatus(1536, Request(Write, bios)) == IoErr
      && SimpleStatus(1536, Request(Write, bios)) == Ok
  {
    var a, b := Bio(2, [Seg(0, 1024, ())]), Bio(4, [Seg(1024, 512, ())]);
    var bios := [a, b];
    assert AllVecs(bios, 1) == a.vecs && Sectors(a.vecs, 1) == 2;
    assert BioByBio(1536, bios, 1) == Outcome(false, []);
    WalkStuck(Outcome(false, []), 1536, 4, b.vecs, 1);
    assert InTwoLoops(1536, bios, 1) == Outcome(false, []);
    assert Walk(START, 1536, 2, b.vecs, 1) == Outcome(true, [Copy(1024, 1024, 512)]);
    assert AllVecs(bios, 2) == a.vecs + b.vecs;
  }

  lemma {:induction false} NoSegmentsNoCopies(size: nat, bios: seq<Bio>, n: nat)
    requires n <= |bios| && AllVecs(bios, n) == []
    ensures InTwoLoops(size, bios, n) == BioByBio(size, bios, n) == START
  {
    if n > 0 {
      NoSegmentsNoCopies(size, bios, n - 1);
    }
  }

  // ----- What the request completes with

  /** Simple's status is that of its last segment: a request without any stays unsupported. */
  function SimpleStatus(size: nat, rq: Request): Status {
    if rq.op == OtherOp || rq.bios == [] || AllVecs(rq.bios, |rq.bios|) == [] then NotSupp
    else Report(InTwoLoops(size, rq.bios, |rq.bios|).ok)
  }

  /** Full fails, and simple says that all went well. */
  ghost predicate HidesError(size: nat, bios: seq<Bio>)
    requires 0 < |bios|
  {
    FailsBefore(size, bios, |bios|) && LastFits(size, bios, |bios|)
  }

  /**
   Simple and full report the same status exactly unless the bios of a read or write all lack
   segments, or one is past the disk and the last one with segments fits where the walk is by then.
   */
  lemma StatusesAgree(size: nat, rq: Request)
    requires Consecutive(rq.bios)
    ensures SimpleStatus(size, rq) == FullStatus(size, rq) <==>
      || rq.op == OtherOp
      || rq.bios == []
      || (AllVecs(rq.bios, |rq.bios|) != [] && !HidesError(size, rq.bios))
  {
    if rq.bios != [] {
      NestedWalk(size, rq.bios, |rq.bios|);
      FullWalk(size, rq.bios, |rq.bios|);
      TwoLoopsExact(size, rq.bios);
    }
  }

  /** A read of one bio without segments is unsupported for simple and succeeds for full. */
  lemma NoSegmentsDiverge(size: nat)
    ensures SimpleStatus(size, Request(Read, [Bio(0, [])])) == NotSupp
    ensures FullStatus(size, Request(Read, [Bio(0, [])])) == Ok
  {
    var bios := [Bio(0, [])];
    assert AllVecs(bios, 0) == [] && BioByBio(size, bios, 0) == START;
  }
}
