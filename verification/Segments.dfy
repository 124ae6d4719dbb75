/** Bytes spread over segments of a memory, as a descriptor table or a list of bio_vecs has them. */
module Segments {

  type Bytes = seq<bv8>

  /** `len` bytes at `addr`, with whatever else an entry carries. */
  datatype Seg<T> = Seg(addr: nat, len: nat, tag: T)

  /** The bytes of the first `n` segments. */
  function Total<T>(segs: seq<Seg<T>>, n: nat): nat
    requires n <= |segs|
  {
    if n == 0 then 0 else Total(segs, n - 1) + segs[n - 1].len
  }

  /** The address of byte `i` of the first `n` segments, taken one after the other. */
  function AddrAt<T>(segs: seq<Seg<T>>, n: nat, i: nat): nat
    requires n <= |segs| && i < Total(segs, n)
  {
    var before := Total(segs, n - 1);
    if i >= before then segs[n - 1].addr + (i - before) else AddrAt(segs, n - 1, i)
  }

  /**
   The byte at address `a` after the first `n` segments took the bytes of `m` from
   `start` on, each XORed with `x`, one segment after the other.
   */
  function ByteAt<T>(ram: Bytes, segs: seq<Seg<T>>, n: nat, m: Bytes, start: nat, x: bv8, a: nat): bv8
    requires n <= |segs| && start + Total(segs, n) <= |m| && a < |ram|
  {
    if n == 0 then ram[a]
    else
      var d := segs[n - 1];
      if d.addr <= a < d.addr + d.len then m[start + Total(segs, n - 1) + (a - d.addr)] ^ x
      else ByteAt(ram, segs, n - 1, m, start, x, a)
  }

  lemma {:induction false} TotalMonotone<T>(segs: seq<Seg<T>>, i: nat, j: nat)
    requires i <= j <= |segs|
    ensures Total(segs, i) <= Total(segs, j)
    decreases j
  {
    if i < j {
      TotalMonotone(segs, i, j - 1);
    }
  }

  lemma LastSegment<T>(segs: seq<Seg<T>>, n: nat, a: nat)
    requires 0 < n <= |segs| && segs[n - 1].addr <= a < segs[n - 1].addr + segs[n - 1].len
    ensures AddrAt(segs, n, Total(segs, n - 1) + (a - segs[n - 1].addr)) == a
  {
  }

  ghost predicate Injective<T>(segs: seq<Seg<T>>, n: nat)
    requires n <= |segs|
  {
    var total := Total(segs, n);
    forall i, j :: 0 <= i < total && 0 <= j < total && AddrAt(segs, n, i) == AddrAt(segs, n, j) ==> i == j
  }

  lemma {:induction false} ByteAtHit<T>(ram: Bytes, segs: seq<Seg<T>>, n: nat, m: Bytes, start: nat, x: bv8, i: nat)
    requires n <= |segs| && i < Total(segs, n) && start + Total(segs, n) <= |m|
    requires AddrAt(segs, n, i) < |ram| && Injective(segs, n)
    ensures ByteAt(ram, segs, n, m, start, x, AddrAt(segs, n, i)) == m[start + i] ^ x
    decreases n
  {
    var p := n - 1;
    var before, d, a := Total(segs, p), segs[p], AddrAt(segs, n, i);
    if i < before {
      var other := if d.addr <= a < d.addr + d.len then before + (a - d.addr) else i;
      assert AddrAt(segs, n, other) == a;
      forall j, k | 0 <= j < before && 0 <= k < before && AddrAt(segs, p, j) == AddrAt(segs, p, k)
        ensures j == k
      {
        assert AddrAt(segs, n, j) == AddrAt(segs, n, k);
      }
      ByteAtHit(ram, segs, p, m, start, x, i);
    }
  }

  lemma {:induction false} ByteAtMiss<T>(ram: Bytes, segs: seq<Seg<T>>, n: nat, m: Bytes, start: nat, x: bv8, a: nat)
    requires n <= |segs| && start + Total(segs, n) <= |m| && a < |ram|
    requires forall i :: 0 <= i < Total(segs, n) ==> AddrAt(segs, n, i) != a
    ensures ByteAt(ram, segs, n, m, start, x, a) == ram[a]
    decreases n
  {
    if n > 0 {
      var p := n - 1;
      var before, d := Total(segs, p), segs[p];
      if d.addr <= a < d.addr + d.len {
        LastSegment(segs, n, a);
        assert false;
      }
      forall i | 0 <= i < before ensures AddrAt(segs, p, i) != a {
        assert AddrAt(segs, n, i) == AddrAt(segs, p, i);
      }
      ByteAtMiss(ram, segs, p, m, start, x, a);
    }
  }
}
