/** What the copies of a walk leave on the disk and in the pages. */
module BlockBytes {
  import opened Segments
  import opened Block
  import opened NestedLoops

  // ----- Contents

  /** The byte at `k` of `dst` after the first `n` copies from `src`: from the pages to the disk for a write. */
  function After(src: Bytes, dst: Bytes, copies: seq<Copy>, n: nat, write: bool, k: nat): bv8
    requires n <= |copies| && k < |dst|
  {
    if n == 0 then dst[k]
    else
      var c := copies[n - 1];
      var (to, from) := if write then (c.offset, c.addr) else (c.addr, c.offset);
      if to <= k < to + c.len && from + (k - to) < |src| then src[from + (k - to)]
      else After(src, dst, copies, n - 1, write, k)
  }

  ghost predicate Left(src: Bytes, dst: Bytes, dst': Bytes, copies: seq<Copy>, write: bool) {
    && |dst'| == |dst|
    && forall k :: 0 <= k < |dst| ==> dst'[k] == After(src, dst, copies, |copies|, write, k)
  }

  /** The disk and the pages before and after `copies`. */
  ghost predicate Did(disk: Bytes, mem: Bytes, disk': Bytes, mem': Bytes, copies: seq<Copy>, write: bool) {
    if write then mem' == mem && Left(mem, disk, disk', copies, true)
    else disk' == disk && Left(disk, mem, mem', copies, false)
  }

  lemma {:induction false} AfterPrefix(src: Bytes, dst: Bytes, p: seq<Copy>, q: seq<Copy>, n: nat, write: bool, k: nat)
    requires n <= |p| && k < |dst|
    ensures After(src, dst, p + q, n, write, k) == After(src, dst, p, n, write, k)
  {
    if n > 0 {
      AfterPrefix(src, dst, p, q, n - 1, write, k);
    }
  }

  lemma {:induction false} AfterMore(src: Bytes, dst: Bytes, dst': Bytes, p: seq<Copy>, q: seq<Copy>, j: nat,
                                     write: bool, k: nat)
    requires j <= |q| && k < |dst| == |dst'| && dst'[k] == After(src, dst, p, |p|, write, k)
    ensures After(src, dst, p + q, |p| + j, write, k) == After(src, dst', q, j, write, k)
    decreases j
  {
    if j == 0 {
      AfterPrefix(src, dst, p, q, |p|, write, k);
    } else {
      AfterMore(src, dst, dst', p, q, j - 1, write, k);
    }
  }

  lemma LeftMore(src: Bytes, dst: Bytes, dst': Bytes, dst'': Bytes, p: seq<Copy>, q: seq<Copy>, write: bool)
    requires Left(src, dst, dst', p, write) && Left(src, dst', dst'', q, write)
    ensures Left(src, dst, dst'', p + q, write)
  {
    forall k | 0 <= k < |dst| ensures dst''[k] == After(src, dst, p + q, |p + q|, write, k) {
      AfterMore(src, dst, dst', p, q, |q|, write, k);
    }
  }

  /** Making `p` and then `q` is making `p + q`. */
  lemma DidMore(disk: Bytes, mem: Bytes, disk': Bytes, mem': Bytes, disk'': Bytes, mem'': Bytes,
                p: seq<Copy>, q: seq<Copy>, write: bool)
    requires Did(disk, mem, disk', mem', p, write) && Did(disk', mem', disk'', mem'', q, write)
    ensures Did(disk, mem, disk'', mem'', p + q, write)
  {
    if write {
      LeftMore(mem, disk, disk', disk'', p, q, true);
    } else {
      LeftMore(disk, mem, mem', mem'', p, q, false);
    }
  }

  lemma OneCopy(src: Bytes, dst: Bytes, dst': Bytes, c: Copy, write: bool, from: nat, to: nat)
    requires (to, from) == if write then (c.offset, c.addr) else (c.addr, c.offset)
    requires |dst'| == |dst| && to + c.len <= |dst| && from + c.len <= |src|
    requires forall k :: 0 <= k < |dst| ==> dst'[k] == if to <= k < to + c.len then src[from + (k - to)] else dst[k]
    ensures Left(src, dst, dst', [c], write)
  {
    forall k | 0 <= k < |dst| ensures dst'[k] == After(src, dst, [c], 1, write, k) {
      assert After(src, dst, [c], 0, write, k) == dst[k];
    }
  }

  ghost predicate Mapped(vecs: seq<BioVec>, memory: nat) {
    forall i :: 0 <= i < |vecs| ==> vecs[i].addr + vecs[i].len <= memory && vecs[i].len < MAX_LEN
  }

  lemma {:induction false} AddrMapped(vecs: seq<BioVec>, memory: nat, n: nat, i: nat)
    requires n <= |vecs| && Mapped(vecs, memory) && i < Total(vecs, n)
    ensures AddrAt(vecs, n, i) < memory
    decreases n
  {
    if i < Total(vecs, n - 1) {
      AddrMapped(vecs, memory, n - 1, i);
    }
  }

  // ----- One flat copy

  /** A write of the first `n` segments puts their bytes at 512 * sector, in order, and changes no other. */
  lemma {:induction false} WriteIsFlat(disk: Bytes, mem: Bytes, sector: nat, vecs: seq<BioVec>, n: nat, k: nat)
    requires n <= |vecs| && Aligned(vecs) && Mapped(vecs, |mem|) && k < |disk|
    requires Walk(START, |disk|, sector, vecs, n).ok
    ensures var copies, start := Walk(START, |disk|, sector, vecs, n).copies, SECTOR_SIZE * sector;
      var byte := After(mem, disk, copies, |copies|, true, k);
      if start <= k < start + Total(vecs, n) then
        AddrAt(vecs, n, k - start) < |mem| && byte == mem[AddrAt(vecs, n, k - start)]
      else
        byte == disk[k]
    decreases n
  {
    if n > 0 {
      WriteIsFlat(disk, mem, sector, vecs, n - 1, k);
      SectorsExact(vecs, n - 1);
      var p := Walk(START, |disk|, sector, vecs, n - 1).copies;
      AfterPrefix(mem, disk, p, [Copy(Offset(sector, vecs, n - 1), vecs[n - 1].addr, vecs[n - 1].len)], |p|, true, k);
    }
  }

  /** A read of the first `n` segments fills them with the bytes from 512 * sector on, in order. */
  lemma {:induction false} ReadIsFlat(disk: Bytes, mem: Bytes, sector: nat, vecs: seq<BioVec>, n: nat, a: nat)
    requires n <= |vecs| && Aligned(vecs) && a < |mem|
    requires Walk(START, |disk|, sector, vecs, n).ok && SECTOR_SIZE * sector + Total(vecs, n) <= |disk|
    ensures var copies := Walk(START, |disk|, sector, vecs, n).copies;
      After(disk, mem, copies, |copies|, false, a) == ByteAt(mem, vecs, n, disk, SECTOR_SIZE * sector, 0, a)
    decreases n
  {
    if n > 0 {
      ReadIsFlat(disk, mem, sector, vecs, n - 1, a);
      SectorsExact(vecs, n - 1);
      var p := Walk(START, |disk|, sector, vecs, n - 1).copies;
      AfterPrefix(disk, mem, p, [Copy(Offset(sector, vecs, n - 1), vecs[n - 1].addr, vecs[n - 1].len)], |p|, false, a);
    }
  }

  /** Read into pages that do not overlap: byte `i` of the segments is byte `i` behind 512 * sector. */
  lemma {:induction false} ReadReturns(disk: Bytes, mem: Bytes, mem': Bytes, sector: nat, vecs: seq<BioVec>, i: nat)
    requires Aligned(vecs) && Mapped(vecs, |mem|) && Injective(vecs, |vecs|) && i < Total(vecs, |vecs|)
    requires Walk(START, |disk|, sector, vecs, |vecs|).ok
    requires Left(disk, mem, mem', Walk(START, |disk|, sector, vecs, |vecs|).copies, false)
    ensures AddrAt(vecs, |vecs|, i) < |mem'| && SECTOR_SIZE * sector + i < |disk|
    ensures mem'[AddrAt(vecs, |vecs|, i)] == disk[SECTOR_SIZE * sector + i]
  {
    var n := |vecs|;
    StatusExact([], |disk|, sector, vecs, n);
    AddrMapped(vecs, |mem|, n, i);
    ReadIsFlat(disk, mem, sector, vecs, n, AddrAt(vecs, n, i));
    ByteAtHit(mem, vecs, n, disk, SECTOR_SIZE * sector, 0, i);
  }

  /** What a write stored, a read of the same sectors through any other pages returns. */
  lemma {:induction false} RoundTrip(disk: Bytes, mem: Bytes, disk': Bytes, mem': Bytes,
                                     sector: nat, from: seq<BioVec>, to: seq<BioVec>, i: nat)
    requires Aligned(from) && Aligned(to) && Mapped(from, |mem|) && Mapped(to, |mem|)
    requires Total(from, |from|) == Total(to, |to|) && i < Total(from, |from|) && Injective(to, |to|)
    requires Walk(START, |disk|, sector, from, |from|).ok && Walk(START, |disk|, sector, to, |to|).ok
    requires Left(mem, disk, disk', Walk(START, |disk|, sector, from, |from|).copies, true)
    requires Left(disk', mem, mem', Walk(START, |disk|, sector, to, |to|).copies, false)
    ensures AddrAt(to, |to|, i) < |mem'| && AddrAt(from, |from|, i) < |mem|
    ensures mem'[AddrAt(to, |to|, i)] == mem[AddrAt(from, |from|, i)]
  {
    ReadReturns(disk', mem, mem', sector, to, i);
    WriteIsFlat(disk, mem, sector, from, |from|, SECTOR_SIZE * sector + i);
  }

  // ----- The modes against each other

  lemma SameCopiesSameBytes(disk: Bytes, mem: Bytes, disk1: Bytes, mem1: Bytes, disk2: Bytes, mem2: Bytes,
                            copies: seq<Copy>, write: bool)
    requires Did(disk, mem, disk1, mem1, copies, write) && Did(disk, mem, disk2, mem2, copies, write)
    ensures disk1 == disk2 && mem1 == mem2
  {
  }

  /**
   Full and bio by bio leave the same disk and the same pages as simple, unless a bio behind the
   one that ran past the end starts with a segment that fits in its place.
   */
  lemma ThreeModes(bios: seq<Bio>, write: bool, disk: Bytes, mem: Bytes, diskS: Bytes, memS: Bytes,
                   diskF: Bytes, memF: Bytes, diskB: Bytes, memB: Bytes)
    requires Consecutive(bios) && forall k :: 0 <= k < |bios| ==> Aligned(bios[k].vecs)
    requires forall k :: 0 <= k < |bios| ==> !LateFit(|disk|, bios, k)
    requires Did(disk, mem, diskS, memS, InTwoLoops(|disk|, bios, |bios|).copies, write)
    requires Did(disk, mem, diskF, memF, BioByBio(|disk|, bios, |bios|).copies, write)
    requires Did(disk, mem, diskB, memB, EachAlone(|disk|, bios, |bios|), write)
    ensures diskS == diskF == diskB && memS == memF == memB
  {
    var copies := BioByBio(|disk|, bios, |bios|).copies;
    TwoLoopsExact(|disk|, bios);
    AloneIsFull(|disk|, bios);
    SameCopiesSameBytes(disk, mem, diskS, memS, diskF, memF, copies, write);
    SameCopiesSameBytes(disk, mem, diskB, memB, diskF, memF, copies, write);
  }

  /** In one loop, as the driver's comment has it, simple leaves them in any case. */
  lemma OneLoopSameBytes(bios: seq<Bio>, write: bool, disk: Bytes, mem: Bytes, diskS: Bytes, memS: Bytes,
                         diskF: Bytes, memF: Bytes)
    requires bios != [] && Consecutive(bios)
    requires Did(disk, mem, diskS, memS, InOneLoop(|disk|, bios, |bios|).copies, write)
    requires Did(disk, mem, diskF, memF, BioByBio(|disk|, bios, |bios|).copies, write)
    ensures diskS == diskF && memS == memF
  {
    OneLoopIsFull(|disk|, bios, |bios|);
    SameCopiesSameBytes(disk, mem, diskS, memS, diskF, memF, BioByBio(|disk|, bios, |bios|).copies, write);
  }

  /** Written from any pages to any disk of that size, both lists of copies leave the same. */
  ghost predicate SameDisk(size: nat, memory: nat, a: seq<Copy>, b: seq<Copy>) {
    forall disk: Bytes, mem: Bytes, k: nat :: |disk| == size && |mem| == memory && k < size ==>
      After(mem, disk, a, |a|, true, k) == After(mem, disk, b, |b|, true, k)
  }

  /** Byte `k` of the disk is written by one of the first `n` copies. */
  predicate Covered(copies: seq<Copy>, n: nat, k: nat)
    requires n <= |copies|
  {
    n > 0 && (copies[n - 1].offset <= k < copies[n - 1].offset + copies[n - 1].len || Covered(copies, n - 1, k))
  }

  ghost predicate CopiesMapped(copies: seq<Copy>, memory: nat) {
    forall i :: 0 <= i < |copies| ==> copies[i].addr + copies[i].len <= memory
  }

  /** Ones written over zeros show which bytes were written. */
  lemma {:induction false} Painted(copies: seq<Copy>, n: nat, ones: Bytes, zeros: Bytes, k: nat)
    requires n <= |copies| && CopiesMapped(copies, |ones|) && k < |zeros|
    requires (forall i :: 0 <= i < |ones| ==> ones[i] == 1) && forall i :: 0 <= i < |zeros| ==> zeros[i] == 0
    ensures After(ones, zeros, copies, n, true, k) == if Covered(copies, n, k) then 1 else 0
    decreases n
  {
    if n > 0 {
      Painted(copies, n - 1, ones, zeros, k);
    }
  }

  lemma {:induction false} CoveredMore(p: seq<Copy>, q: seq<Copy>, n: nat, k: nat)
    requires n <= |p|
    ensures Covered(p + q, n, k) == Covered(p, n, k)
  {
    if n > 0 {
      CoveredMore(p, q, n - 1, k);
    }
  }

  lemma {:induction false} CoveredStays(copies: seq<Copy>, i: nat, n: nat, k: nat)
    requires i <= n <= |copies| && Covered(copies, i, k)
    ensures Covered(copies, n, k)
    decreases n
  {
    if i < n {
      CoveredStays(copies, i, n - 1, k);
    }
  }

  /** A walk writes nothing behind the segments it copied. */
  lemma {:induction false} WalkCovers(size: nat, sector: nat, vecs: seq<BioVec>, n: nat, k: nat)
    requires n <= |vecs| && Aligned(vecs) && Walk(START, size, sector, vecs, n).ok
    requires k >= SECTOR_SIZE * (sector + Sectors(vecs, n))
    ensures var copies := Walk(START, size, sector, vecs, n).copies;
      !Covered(copies, |copies|, k)
    decreases n
  {
    if n > 0 {
      var p := Walk(START, size, sector, vecs, n - 1).copies;
      WalkCovers(size, sector, vecs, n - 1, k);
      CoveredMore(p, [Copy(Offset(sector, vecs, n - 1), vecs[n - 1].addr, vecs[n - 1].len)], |p|, k);
    }
  }

  /** A walk whose first segment fits copies that one first. */
  lemma {:induction false} FirstCopied(size: nat, sector: nat, vecs: seq<BioVec>, n: nat)
    requires 0 < n <= |vecs| && SECTOR_SIZE * sector + vecs[0].len <= size
    ensures var copies := Walk(START, size, sector, vecs, n).copies;
      copies != [] && copies[0] == Copy(SECTOR_SIZE * sector, vecs[0].addr, vecs[0].len)
    decreases n
  {
    if n == 1 {
      assert Walk(START, size, sector, vecs, 0) == START;
    } else {
      FirstCopied(size, sector, vecs, n - 1);
    }
  }

  ghost predicate BiosMapped(bios: seq<Bio>, memory: nat) {
    forall k :: 0 <= k < |bios| ==> Mapped(bios[k].vecs, memory)
  }

  lemma {:induction false} WalkMapped(r: Outcome, size: nat, sector: nat, vecs: seq<BioVec>, n: nat, memory: nat)
    requires n <= |vecs| && CopiesMapped(r.copies, memory) && Mapped(vecs, memory)
    ensures CopiesMapped(Walk(r, size, sector, vecs, n).copies, memory)
    decreases n
  {
    if n > 0 {
      WalkMapped(r, size, sector, vecs, n - 1, memory);
    }
  }

  lemma {:induction false} AllCopiesMapped(size: nat, bios: seq<Bio>, n: nat, memory: nat)
    requires n <= |bios| && BiosMapped(bios, memory)
    ensures CopiesMapped(InTwoLoops(size, bios, n).copies, memory)
    ensures CopiesMapped(BioByBio(size, bios, n).copies, memory)
    decreases n
  {
    if n > 0 {
      AllCopiesMapped(size, bios, n - 1, memory);
      var r, s, bio := BioByBio(size, bios, n - 1), InTwoLoops(size, bios, n - 1), bios[n - 1];
      WalkMapped(r, size, bio.sector, bio.vecs, |bio.vecs|, memory);
      WalkMapped(Outcome(true, s.copies), size, Next(bios[0].sector, s.copies), bio.vecs, |bio.vecs|, memory);
    }
  }

  /** Where full fails nothing is written. */
  lemma FullLeaves(size: nat, bios: seq<Bio>, k: nat)
    requires k < |bios| && Consecutive(bios) && FailsBefore(size, bios, k)
    requires forall j :: 0 <= j < |bios| ==> Aligned(bios[j].vecs)
    ensures var copies := BioByBio(size, bios, |bios|).copies;
      !Covered(copies, |copies|, SECTOR_SIZE * FailsAt(size, bios, k))
  {
    var sector, vecs := bios[0].sector, AllVecs(bios, k);
    FullWalk(size, bios, k);
    BiosStop(size, bios, k, |bios|);
    OneLoopIsFull(size, bios, k);
    AllAligned(bios, k);
    CopiesArePrefix(size, sector, vecs, |vecs|);
    WalkEnds(size, sector, vecs);
    WalkCovers(size, sector, vecs, FirstPast(size, sector, vecs, 0), SECTOR_SIZE * FailsAt(size, bios, k));
  }

  /** A late bio that fits is written there. */
  lemma LateFitWrites(size: nat, bios: seq<Bio>, k: nat)
    requires k < |bios| && Consecutive(bios) && Agree(size, bios, k) && LateFit(size, bios, k)
    requires bios[k].vecs[0].len > 0
    ensures var copies := InTwoLoops(size, bios, k + 1).copies;
      Covered(copies, |copies|, SECTOR_SIZE * FailsAt(size, bios, k))
  {
    var p, s, vecs := BioByBio(size, bios, k).copies, FailsAt(size, bios, k), bios[k].vecs;
    var w := Walk(START, size, s, vecs, |vecs|).copies;
    FullWalk(size, bios, k);
    WalkFrom(p, size, s, vecs, |vecs|);
    FirstCopied(size, s, vecs, |vecs|);
    assert (p + w)[|p|] == w[0];
    CoveredStays(p + w, |p| + 1, |p + w|, SECTOR_SIZE * s);
  }

  lemma {:induction false} WrittenStays(size: nat, bios: seq<Bio>, i: nat, n: nat, k: nat)
    requires i <= n <= |bios|
    requires var copies := InTwoLoops(size, bios, i).copies; Covered(copies, |copies|, k)
    ensures var copies := InTwoLoops(size, bios, n).copies; Covered(copies, |copies|, k)
    decreases n
  {
    if i < n {
      WrittenStays(size, bios, i, n - 1, k);
      var p, vecs := InTwoLoops(size, bios, n - 1).copies, bios[n - 1].vecs;
      var s := Next(bios[0].sector, p);
      var w := Walk(START, size, s, vecs, |vecs|).copies;
      WalkFrom(p, size, s, vecs, |vecs|);
      CoveredMore(p, w, |p|, k);
      CoveredStays(p + w, |p|, |p + w|, k);
    }
  }

  /**
   For a write of whole sectors, simple and full leave the same disk whatever the pages and the
   disk held exactly when no late bio fits.
   */
  lemma SameDiskExact(size: nat, memory: nat, bios: seq<Bio>)
    requires Consecutive(bios) && BiosMapped(bios, memory)
    requires forall k :: 0 <= k < |bios| ==> Aligned(bios[k].vecs)
    requires forall k, i :: 0 <= k < |bios| && 0 <= i < |bios[k].vecs| ==> bios[k].vecs[i].len > 0
    ensures SameDisk(size, memory, InTwoLoops(size, bios, |bios|).copies, BioByBio(size, bios, |bios|).copies) <==>
      forall k :: 0 <= k < |bios| ==> !LateFit(size, bios, k)
  {
    if forall k :: 0 <= k < |bios| ==> !LateFit(size, bios, k) {
      TwoLoopsExact(size, bios);
    } else {
      var k := FirstLateFit(size, bios, |bios|);
      var at := SECTOR_SIZE * FailsAt(size, bios, k);
      var a, b := InTwoLoops(size, bios, |bios|).copies, BioByBio(size, bios, |bios|).copies;
      AgreeUpTo(size, bios, k);
      LateFitWrites(size, bios, k);
      WrittenStays(size, bios, k + 1, |bios|, at);
      FullLeaves(size, bios, k);
      AllCopiesMapped(size, bios, |bios|, memory);
      TellApart(size, memory, a, b, at);
    }
  }

  lemma TellApart(size: nat, memory: nat, a: seq<Copy>, b: seq<Copy>, k: nat)
    requires k < size && CopiesMapped(a, memory) && CopiesMapped(b, memory)
    requires Covered(a, |a|, k) && !Covered(b, |b|, k)
    ensures !SameDisk(size, memory, a, b)
  {
    var ones, zeros := seq(memory, _ => 1 as bv8), seq(size, _ => 0 as bv8);
    Painted(a, |a|, ones, zeros, k);
    Painted(b, |b|, ones, zeros, k);
  }
}
