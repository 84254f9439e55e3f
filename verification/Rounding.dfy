/**
 The bit trick that rounds up to a power of two, on unsigned numbers: smearing the
 highest bit of n - 1 down and adding one gives the size that Sizes.AllocSize gives.
 Words has the same trick on 64-bit words, where it wraps.
 */
module Rounding {
  import opened Probing
  import opened Sizes

  function Pow(k: nat): (p: nat)
    ensures p >= 1
  {
    if k == 0 then 1 else 2 * Pow(k - 1)
  }

  /** Bitwise or of two unsigned numbers. */
  function Or(a: nat, b: nat): nat {
    if a == 0 && b == 0 then 0
    else (if a % 2 == 1 || b % 2 == 1 then 1 else 0) + 2 * Or(a / 2, b / 2)
  }

  /** Shifted right by `j` bits. */
  function Shift(v: nat, j: nat): nat {
    if j == 0 then v else Shift(v / 2, j - 1)
  }

  /** One line of the trick: the number or'ed with itself shifted right by `j`. */
  function SmearBy(v: nat, j: nat): nat {
    Or(v, Shift(v, j))
  }

  function Smeared(v: nat): nat {
    SmearBy(SmearBy(SmearBy(SmearBy(SmearBy(SmearBy(v, 1), 2), 4), 8), 16), 32)
  }

  /** `v` in 1 .. 2^63, so that neither the decrement nor the increment wraps. */
  function RoundedUp(v: nat): nat
    requires v >= 1
  {
    Smeared(v - 1) + 1
  }

  // ------------------------------------------------------------------------ powers

  lemma {:induction false} PowAdd(a: nat, b: nat)
    ensures Pow(a + b) == Pow(a) * Pow(b)
  {
    if a > 0 {
      PowAdd(a - 1, b);
      assert 2 * (Pow(a - 1) * Pow(b)) == (2 * Pow(a - 1)) * Pow(b);
    }
  }

  lemma {:induction false} PowGrows(a: nat, b: nat)
    requires a <= b
    ensures Pow(a) <= Pow(b)
  {
    if a < b { PowGrows(a, b - 1); }
  }

  lemma {:induction false} PowIsPow2(k: nat)
    ensures IsPow2(Pow(k))
  {
    if k > 0 { PowIsPow2(k - 1); }
  }

  // ---------------------------------------------------------------------- bitwise or

  lemma {:induction false} OrIsMore(a: nat, b: nat)
    ensures Or(a, b) >= a && Or(a, b) >= b
    decreases a + b
  {
    if a != 0 || b != 0 { OrIsMore(a / 2, b / 2); }
  }

  lemma {:induction false} OrFits(a: nat, b: nat, k: nat)
    requires a < Pow(k) && b < Pow(k)
    ensures Or(a, b) < Pow(k)
  {
    if k > 0 { OrFits(a / 2, b / 2, k - 1); }
  }

  lemma {:induction false} OrWithZero(a: nat)
    ensures Or(a, 0) == a
  {
    if a > 0 { OrWithZero(a / 2); }
  }

  /** What is below bit `m` does not touch what is above. */
  lemma {:induction false} OrBelow(h: nat, l: nat, b: nat, m: nat)
    requires l < Pow(m) && b < Pow(m)
    ensures Or(h * Pow(m) + l, b) == h * Pow(m) + Or(l, b)
  {
    if m == 0 {
      OrWithZero(h);
    } else {
      OrBelow(h, l / 2, b / 2, m - 1);
      Halve(h, Pow(m - 1), l);
    }
  }

  lemma Halve(h: nat, p: nat, l: nat)
    ensures (h * (2 * p) + l) % 2 == l % 2 && (h * (2 * p) + l) / 2 == h * p + l / 2
  {
    assert h * (2 * p) == 2 * (h * p);
  }

  // ----------------------------------------------------------------------- smearing

  /** The top `j` of the `k` bits are set. */
  predicate TopSet(v: nat, k: nat, j: nat) {
    1 <= j <= k && Pow(k) - Pow(k - j) <= v < Pow(k)
  }

  lemma Distribute(a: nat, b: nat, p: nat)
    requires b <= a
    ensures (a - b) * p == a * p - b * p
  {
  }

  lemma {:induction false} ShiftBounds(v: nat, lo: nat, j: nat)
    requires lo * Pow(j) <= v
    ensures lo <= Shift(v, j)
  {
    if j > 0 {
      assert lo * Pow(j) == 2 * (lo * Pow(j - 1));
      ShiftBounds(v / 2, lo, j - 1);
    }
  }

  lemma {:induction false} ShiftBelow(v: nat, hi: nat, j: nat)
    requires v < hi * Pow(j)
    ensures Shift(v, j) < hi
  {
    if j > 0 {
      assert hi * Pow(j) == 2 * (hi * Pow(j - 1));
      ShiftBelow(v / 2, hi, j - 1);
    }
  }

  /** A number with its top `j` bits set is those bits and a rest. */
  lemma TopAndRest(v: nat, k: nat, j: nat) returns (h: nat, l: nat)
    requires TopSet(v, k, j)
    ensures h + 1 == Pow(j) && l < Pow(k - j) && v == h * Pow(k - j) + l
  {
    PowAdd(j, k - j);
    h, l := Pow(j) - 1, v - (Pow(k) - Pow(k - j));
    assert h * Pow(k - j) == Pow(j) * Pow(k - j) - Pow(k - j);
  }

  /** Shifted right by `j`, its top bits are the next ones: all of them, or `j` if there are more. */
  lemma ShiftedTop(v: nat, k: nat, j: nat)
    requires TopSet(v, k, j) && 2 * j <= k
    ensures Pow(k - j) - Pow(k - 2 * j) <= Shift(v, j) < Pow(k - j)
  {
    var m := k - j;
    PowAdd(m, j);
    PowAdd(m - j, j);
    PowGrows(m - j, m);
    ShiftBelow(v, Pow(m), j);
    Distribute(Pow(m), Pow(m - j), Pow(j));
    ShiftBounds(v, Pow(m) - Pow(m - j), j);
  }

  lemma ShiftedRest(v: nat, k: nat, j: nat)
    requires TopSet(v, k, j) && 2 * j > k
    ensures Pow(k - j) - 1 <= Shift(v, j) < Pow(k - j)
  {
    var m := k - j;
    PowAdd(m, j);
    PowGrows(m, j);
    ShiftBelow(v, Pow(m), j);
    Distribute(Pow(m), 1, Pow(j));
    ShiftBounds(v, Pow(m) - 1, j);
  }

  /** The bits of the lower part are added to the upper part. */
  lemma OrAdds(v: nat, k: nat, j: nat, b: nat, missing: nat)
    requires TopSet(v, k, j) && Pow(k - j) - missing <= b < Pow(k - j)
    ensures Pow(k) - missing <= Or(v, b) < Pow(k)
  {
    var h, l := TopAndRest(v, k, j);
    OrBelow(h, l, b, k - j);
    OrIsMore(l, b);
    PowGrows(k - j, k);
    OrFits(v, b, k);
    TopPart(h, k, j);
  }

  lemma TopPart(h: nat, k: nat, j: nat)
    requires j <= k && h + 1 == Pow(j)
    ensures h * Pow(k - j) == Pow(k) - Pow(k - j)
  {
    PowAdd(j, k - j);
    Distribute(Pow(j), 1, Pow(k - j));
  }

  /** One line of the trick doubles the number of top bits that are set. */
  lemma SmearDoubles(v: nat, k: nat, j: nat)
    requires TopSet(v, k, j)
    ensures TopSet(SmearBy(v, j), k, if 2 * j <= k then 2 * j else k)
  {
    if 2 * j <= k {
      ShiftedTop(v, k, j);
      OrAdds(v, k, j, Shift(v, j), Pow(k - 2 * j));
    } else {
      ShiftedRest(v, k, j);
      OrAdds(v, k, j, Shift(v, j), 1);
    }
  }

  lemma SmearedIsOnes(v: nat, k: nat)
    requires 1 <= k <= 64 && Pow(k - 1) <= v < Pow(k)
    ensures Smeared(v) == Pow(k) - 1
  {
    var a := SmearBy(v, 1);
    var b := SmearBy(a, 2);
    var c := SmearBy(b, 4);
    var d := SmearBy(c, 8);
    var e := SmearBy(d, 16);
    SmearTo(v, k, 1);
    SmearTo(a, k, 2);
    SmearTo(b, k, 4);
    SmearTo(c, k, 8);
    SmearTo(d, k, 16);
    SmearTo(e, k, 32);
  }

  function Least(a: nat, b: nat): nat {
    if a < b then a else b
  }

  /** The same when all bits may be set already. */
  lemma SmearTo(v: nat, k: nat, j: nat)
    requires j >= 1 && k >= 1 && TopSet(v, k, Least(j, k))
    ensures TopSet(SmearBy(v, j), k, Least(2 * j, k))
  {
    if j <= k {
      SmearDoubles(v, k, j);
    } else {
      SmearOver(v, k, j);
    }
  }

  lemma SmearOver(v: nat, k: nat, j: nat)
    requires v < Pow(k) && k < j
    ensures SmearBy(v, j) == v
  {
    PowGrows(k, j);
    ShiftBelow(v, 1, j);
    OrWithZero(v);
  }

  // ----------------------------------------------------------------------- rounding

  lemma {:induction false} HighestBit(v: nat, n: nat) returns (k: nat)
    requires 1 <= v < Pow(n)
    ensures 1 <= k <= n && Pow(k - 1) <= v < Pow(k)
  {
    if v < Pow(n - 1) {
      k := HighestBit(v, n - 1);
    } else {
      k := n;
    }
  }

  /** A power of two that is enough, while half of it is not, is the least one. */
  lemma LeastSize(r: nat, n: nat)
    requires IsPow2(r) && r >= n && (r == 1 || r / 2 < n) && n >= 1
    ensures AllocSize(n) == if r < 4 then 4 else r
  {
    var q := AllocSize(n);
    if r >= 4 {
      AllocSizeLeast(n, r);
      if q < r { Pow2Gap(q, r); }
    }
  }

  /** The trick gives a power of two, and the half of it is too small. */
  lemma RoundedUpIsPower(v: nat) returns (k: nat)
    requires 2 <= v <= Pow(63)
    ensures k >= 1 && RoundedUp(v) == Pow(k) && Pow(k - 1) < v <= Pow(k)
  {
    k := HighestBit(v - 1, 63);
    SmearedIsOnes(v - 1, k);
  }

  lemma RoundedUpOfOne()
    ensures RoundedUp(1) == 1
  {
    SmearedZero();
  }

  /** It gives the least power of two that is not below its argument. */
  lemma RoundedUpIsLeast(v: nat, q: nat)
    requires 1 <= v <= Pow(63) && IsPow2(q) && q >= v
    ensures IsPow2(RoundedUp(v)) && v <= RoundedUp(v) <= q
    ensures RoundedUp(v) == 1 || RoundedUp(v) / 2 < v
  {
    if v == 1 {
      RoundedUpOfOne();
    } else {
      var k := RoundedUpIsPower(v);
      PowerIsLeast(v, k, q);
    }
  }

  lemma PowerIsLeast(v: nat, k: nat, q: nat)
    requires k >= 1 && Pow(k - 1) < v <= Pow(k) && IsPow2(q) && q >= v
    ensures IsPow2(Pow(k)) && Pow(k) <= q && Pow(k) / 2 < v
  {
    PowIsPow2(k);
    if q < Pow(k) { Pow2Gap(q, Pow(k)); }
  }

  lemma SmearedZero()
    ensures Smeared(0) == 0
  {
    forall j: nat ensures SmearBy(0, j) == 0 {
      ShiftBelow(0, 1, j);
    }
  }

  /** What the code allocates for a request is what the machines allocate. */
  lemma RoundedUpIsAllocSize(v: nat)
    requires 1 <= v <= Pow(63)
    ensures AllocSize(v) == if RoundedUp(v) < 4 then 4 else RoundedUp(v)
  {
    RoundedUpIsLeast(v, AllocSize(v));
    LeastSize(RoundedUp(v), v);
  }
}
