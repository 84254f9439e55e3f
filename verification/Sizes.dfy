/**
 Table sizes: what `_mulle_concurrent_hashtablestorage_alloc` makes of a requested
 slot count.
 */
module Sizes {
  import opened Probing

  predicate IsPow2(p: nat) {
    p == 1 || (p > 0 && p % 2 == 0 && IsPow2(p / 2))
  }

  /** Doubles `p` until it reaches `n`. */
  function DoubleUntil(p: nat, n: nat): (r: nat)
    requires IsPow2(p)
    ensures r >= n && r >= p && IsPow2(r)
    ensures r == p || r < 2 * n
    decreases n - p
  {
    if p >= n then p else DoubleUntil(2 * p, n)
  }

  /** The least power of two that is at least `n` and at least 4. */
  function AllocSize(n: nat): (r: nat)
    ensures r >= n && r >= 4 && IsPow2(r)
  {
    DoubleUntil(4, n)
  }

  /** Two powers of two are equal or one is at least the double of the other. */
  lemma {:induction false} Pow2Gap(p: nat, q: nat)
    requires IsPow2(p) && IsPow2(q) && p < q
    ensures 2 * p <= q
  {
    if p > 1 {
      Pow2Gap(p / 2, q / 2);
    }
  }

  /** `AllocSize` is the least such power of two. */
  lemma AllocSizeLeast(n: nat, q: nat)
    requires IsPow2(q) && q >= n && q >= 4
    ensures AllocSize(n) <= q
  {
    var r := AllocSize(n);
    if q < r {
      Pow2Gap(q, r);
    }
  }

  /** Twice a table size is a table size. */
  lemma AllocDoubles(n: nat)
    requires IsPow2(n) && n >= 4
    ensures AllocSize(n) == n && AllocSize(2 * n) == 2 * n
  {
    AllocSizeLeast(n, n);
    AllocSizeLeast(2 * n, 2 * n);
  }

  /** A smaller power of two divides a larger one. */
  lemma {:induction false} Pow2Divides(p: nat, q: nat) returns (d: nat)
    requires IsPow2(p) && IsPow2(q) && p <= q
    ensures q == d * p
  {
    if p == q {
      d := 1;
    } else {
      Pow2Gap(p, q);
      var e := Pow2Divides(p, q / 2);
      d := 2 * e;
      assert (2 * e) * p == 2 * (e * p);
    }
  }

  lemma Regroup(a: nat, d: nat, b: nat, k: nat, size: nat)
    requires k < size
    ensures (a * (d * size) + b * size + k) % size == k
  {
    assert a * (d * size) + b * size == (a * d + b) * size;
    RemainderOf(a * d + b, k, size);
  }

  /** An index that wraps around at the end of the machine word still probes the same slots. */
  lemma ProbeWraps(hash: nat, i: nat, size: nat, words: nat)
    requires IsPow2(size) && IsPow2(words) && size <= words
    ensures (hash + i) % words % size == Probe(hash, i, size)
  {
    var d := Pow2Divides(size, words);
    SameRemainder(hash + i, d, size, words);
  }

  lemma DivMod(x: nat, n: nat)
    requires n > 0
    ensures x == (x / n) * n + x % n && x % n < n
  {
  }

  lemma SameRemainder(x: nat, d: nat, size: nat, words: nat)
    requires size > 0 && words == d * size && words > 0
    ensures x % words % size == x % size
  {
    DivMod(x, words);
    DivMod(x % words, size);
    Regroup(x / words, d, x % words / size, x % words % size, size);
  }

  // ------------------------------------------------------------------- masking

  /** Bitwise and of two unsigned numbers. */
  function And(a: nat, b: nat): nat {
    if a == 0 || b == 0 then 0 else (a % 2) * (b % 2) + 2 * And(a / 2, b / 2)
  }

  lemma DoubleRemainder(x: nat, s: nat)
    requires s > 0
    ensures x % (2 * s) == x % 2 + 2 * (x / 2 % s)
  {
    DivMod(x, 2);
    DivMod(x / 2, s);
    var q, k := x / 2 / s, x / 2 % s;
    assert x == q * (2 * s) + (x % 2 + 2 * k);
    RemainderOf(q, x % 2 + 2 * k, 2 * s);
  }

  /** Masking with one less than a power of two is taking the remainder. */
  lemma {:induction false} MaskIsRemainder(x: nat, size: nat)
    requires IsPow2(size)
    ensures And(x, size - 1) == x % size
  {
    if size == 1 {
      RemainderOf(x, 0, 1);
    } else if x > 0 {
      MaskIsRemainder(x / 2, size / 2);
      DoubleRemainder(x, size / 2);
      assert (size - 1) % 2 == 1 && (size - 1) / 2 == size / 2 - 1;
    } else {
      RemainderOf(0, 0, size);
    }
  }

  /** `index & mask` of the code, with an index that has wrapped around, is the slot that the machines probe. */
  lemma MaskIsProbe(hash: nat, i: nat, size: nat, words: nat)
    requires IsPow2(size) && IsPow2(words) && size <= words
    ensures And((hash + i) % words, size - 1) == Probe(hash, i, size)
  {
    MaskIsRemainder((hash + i) % words, size);
    ProbeWraps(hash, i, size, words);
  }
}
