/**
 What every reachable memory of the pointer set satisfies, and what the steps that
 write do to it.
 */
module PointersetInvariant {
  import opened Probing
  import opened Sizes
  import opened MapSpec
  import opened PointersetModel

  // --------------------------------------------------------- one generation

  /** The first `i` probes for `p` meet slots that belong to other pointers. */
  ghost predicate Passed(gen: Generation, p: nat, i: nat)
    requires |gen.slots| > 0
  {
    forall i' {:trigger Probe(p, i', |gen.slots|)} :: 0 <= i' < i ==>
      gen.slots[Probe(p, i', |gen.slots|)].owner != 0 && gen.slots[Probe(p, i', |gen.slots|)].owner != p
  }

  ghost predicate Owned(gen: Generation, k: nat)
    requires k < |gen.slots|
  {
    gen.slots[k].owner != 0 ==>
      exists i: nat :: Probe(gen.slots[k].owner, i, |gen.slots|) == k && Passed(gen, gen.slots[k].owner, i)
  }

  ghost predicate GenOk(gen: Generation) {
    && |gen.slots| > 0 && (gen.constant || (|gen.slots| >= 4 && IsPow2(|gen.slots|)))
    && (forall k :: 0 <= k < |gen.slots| ==> Owned(gen, k))
    && (gen.constant ==> forall k :: 0 <= k < |gen.slots| ==> gen.slots[k] == Slot(0, false))
  }

  ghost predicate Has(gen: Generation, p: nat) {
    exists k :: 0 <= k < |gen.slots| && gen.slots[k].owner == p
  }

  ghost predicate AllRedirected(gen: Generation) {
    gen.constant || forall k :: 0 <= k < |gen.slots| ==> gen.slots[k].redirected
  }

  ghost predicate NoneRedirected(gen: Generation) {
    forall k :: 0 <= k < |gen.slots| ==> !gen.slots[k].redirected
  }

  /** No pointer has two slots. */
  lemma OneSlotPerPointer(gen: Generation, k: nat, l: nat)
    requires GenOk(gen) && k < |gen.slots| && l < |gen.slots| && gen.slots[k].owner == gen.slots[l].owner != 0
    ensures k == l
  {
    var p, n := gen.slots[k].owner, |gen.slots|;
    assert Owned(gen, k) && Owned(gen, l);
    var i: nat :| Probe(p, i, n) == k && Passed(gen, p, i);
    var j: nat :| Probe(p, j, n) == l && Passed(gen, p, j);
  }

  /** A pointer that has a slot is met before a free one, and before a full round is made. */
  lemma OwnerMetFirst(gen: Generation, p: nat, i: nat)
    requires GenOk(gen) && p != 0 && Passed(gen, p, i) && Has(gen, p)
    ensures gen.slots[Probe(p, i, |gen.slots|)].owner != 0 && i < |gen.slots|
  {
    var k :| 0 <= k < |gen.slots| && gen.slots[k].owner == p;
    assert Owned(gen, k);
    var j := ProbeCovers(p, k, |gen.slots|);
  }

  // ------------------------------------------------------------- all memory

  predicate HasPending(m: Memory) {
    |m.gens| == m.cur + 2
  }

  /** The successor has only pointers of its predecessor, and all that have been redirected. */
  ghost predicate Carried(src: Generation, dst: Generation) {
    && NoneRedirected(dst)
    && (forall k :: 0 <= k < |dst.slots| && dst.slots[k].owner != 0 ==> Has(src, dst.slots[k].owner))
    && (forall k :: 0 <= k < |src.slots| && src.slots[k].owner != 0 && src.slots[k].redirected ==> Has(dst, src.slots[k].owner))
  }

  predicate SizeOk(m: Memory, g: nat) {
    0 < g < |m.gens| ==> |m.gens[g].slots| >= 2 * |m.gens[g - 1].slots| && !m.gens[g].constant
  }

  ghost predicate MemInv(m: Memory) {
    && m.cur < |m.gens| <= m.cur + 2
    && (forall g: nat :: SizeOk(m, g))
    && (forall g :: 0 <= g < |m.gens| ==> GenOk(m.gens[g]))
    && (forall g :: 0 <= g < m.cur ==> AllRedirected(m.gens[g]))
    && (if HasPending(m) then Carried(m.gens[m.cur], m.gens[m.cur + 1]) else NoneRedirected(m.gens[m.cur]))
  }

  /** The set: the pointers that have a slot in the current storage, redirected or not. */
  ghost predicate Contains(m: Memory, p: nat)
    requires m.cur < |m.gens|
  {
    p != 0 && Has(m.gens[m.cur], p)
  }

  ghost function Owners(gen: Generation): set<nat> {
    set k | 0 <= k < |gen.slots| :: gen.slots[k].owner
  }

  /** The set as a map of each pointer to itself. */
  ghost function Abs(m: Memory): (a: map<nat, Value>)
    requires m.cur < |m.gens|
    ensures forall p: nat :: p in a <==> Contains(m, p)
    ensures forall p: nat :: p in a ==> a[p] == p
  {
    map p | p in Owners(m.gens[m.cur]) && p != 0 :: p
  }

  // ------------------------------------------------------- how it may change

  predicate SlotLater(a: Slot, b: Slot) {
    (a.owner != 0 || a.redirected ==> b.owner == a.owner) && (a.redirected ==> b.redirected)
  }

  ghost predicate GenLater(a: Generation, b: Generation) {
    && |a.slots| == |b.slots| && a.constant == b.constant
    && (forall k :: 0 <= k < |a.slots| ==> SlotLater(a.slots[k], b.slots[k]))
  }

  ghost predicate Grows(m: Memory, m': Memory)
    requires m.cur < |m.gens| && m'.cur < |m'.gens|
  {
    forall p: nat :: Contains(m, p) ==> Contains(m', p)
  }

  ghost predicate Same(m: Memory, m': Memory)
    requires m.cur < |m.gens| && m'.cur < |m'.gens|
  {
    forall p: nat :: Contains(m, p) <==> Contains(m', p)
  }

  ghost predicate Evolves(m: Memory, m': Memory)
    requires m.cur < |m.gens| && m'.cur < |m'.gens|
  {
    && m.cur <= m'.cur <= m.cur + 1 && |m.gens| <= |m'.gens|
    && (forall g :: 0 <= g < |m.gens| ==> GenLater(m.gens[g], m'.gens[g]))
    && Grows(m, m')
  }

  lemma PassedStays(a: Generation, b: Generation, p: nat, i: nat)
    requires |a.slots| > 0 && GenLater(a, b) && Passed(a, p, i)
    ensures Passed(b, p, i)
  {
  }

  lemma HasStays(a: Generation, b: Generation, p: nat)
    requires GenLater(a, b) && Has(a, p) && p != 0
    ensures Has(b, p)
  {
    var k :| 0 <= k < |a.slots| && a.slots[k].owner == p;
    assert SlotLater(a.slots[k], b.slots[k]);
  }

  lemma GenOkUpdate(a: Generation, k: nat, s: Slot)
    requires GenOk(a) && k < |a.slots| && !a.constant && SlotLater(a.slots[k], s)
    requires a.slots[k].owner == s.owner || exists i: nat :: Probe(s.owner, i, |a.slots|) == k && Passed(a, s.owner, i)
    ensures var b := a.(slots := a.slots[k := s]); GenOk(b) && GenLater(a, b)
  {
    var b := a.(slots := a.slots[k := s]);
    assert GenLater(a, b);
    forall l | 0 <= l < |b.slots| ensures Owned(b, l) {
      var p := b.slots[l].owner;
      if p != 0 {
        assert Owned(a, l);
        var i: nat :| Probe(p, i, |a.slots|) == l && Passed(a, p, i);
        PassedStays(a, b, p, i);
      }
    }
  }

  // ----------------------------------------------------------------- actions

  lemma ChangeKeeps(m: Memory, g: nat, b: Generation)
    requires MemInv(m) && m.cur <= g < |m.gens| && GenOk(b) && GenLater(m.gens[g], b)
    requires var m' := m.(gens := m.gens[g := b]);
             if HasPending(m) then Carried(m'.gens[m.cur], m'.gens[m.cur + 1]) else NoneRedirected(m'.gens[m.cur])
    ensures var m' := m.(gens := m.gens[g := b]); MemInv(m') && Evolves(m, m')
  {
    var m' := m.(gens := m.gens[g := b]);
    forall f: nat ensures SizeOk(m', f) {
      assert SizeOk(m, f);
    }
    assert forall f :: 0 <= f < |m.gens| && f != g ==> m'.gens[f] == m.gens[f];
    forall p: nat | Contains(m, p) ensures Contains(m', p) {
      if g == m.cur { HasStays(m.gens[g], b, p); }
    }
  }

  /** Who has a slot after `p` got slot `k`. */
  lemma HasMore(a: Generation, k: nat, p: nat)
    requires k < |a.slots| && a.slots[k].owner == 0
    ensures forall q: nat :: q != 0 ==> (Has(a.(slots := a.slots[k := Slot(p, false)]), q) <==> Has(a, q) || q == p)
  {
    var b := a.(slots := a.slots[k := Slot(p, false)]);
    forall q: nat | q != 0 ensures Has(b, q) <==> Has(a, q) || q == p {
      if Has(a, q) {
        var l :| 0 <= l < |a.slots| && a.slots[l].owner == q;
        assert b.slots[l].owner == q;
      }
      if q == p { assert b.slots[k].owner == q; }
      if Has(b, q) {
        var l :| 0 <= l < |b.slots| && b.slots[l].owner == q;
        assert l != k ==> a.slots[l].owner == q;
      }
    }
  }

  /** register wins a slot of the current storage. */
  lemma RegisterKeeps(m: Memory, p: nat, i: nat)
    requires MemInv(m) && Shaped(m) && !m.gens[m.cur].constant && p != 0
    requires Passed(m.gens[m.cur], p, i) && ReadAt(m, m.cur, p, i) == Vacant
    ensures !Contains(m, p)
    ensures var m' := WithMember(m, m.cur, Pos(m, m.cur, p, i), p);
            MemInv(m') && Evolves(m, m') && forall q: nat :: Contains(m', q) <==> Contains(m, q) || q == p
  {
    var a, k := m.gens[m.cur], Pos(m, m.cur, p, i);
    if Has(a, p) { OwnerMetFirst(a, p, i); }
    GenOkUpdate(a, k, Slot(p, false));
    HasMore(a, k, p);
    var b := a.(slots := a.slots[k := Slot(p, false)]);
    if HasPending(m) { assert Carried(b, m.gens[m.cur + 1]); }
    ChangeKeeps(m, m.cur, b);
  }

  /** copy registers a pointer of the current storage in the successor. */
  lemma PutKeeps(m: Memory, p: nat, i: nat)
    requires MemInv(m) && Shaped(m) && HasPending(m) && Contains(m, p)
    requires Passed(m.gens[m.cur + 1], p, i) && ReadAt(m, m.cur + 1, p, i) == Vacant
    ensures var m' := WithMember(m, m.cur + 1, Pos(m, m.cur + 1, p, i), p);
            MemInv(m') && Evolves(m, m') && Same(m, m') && Has(m'.gens[m.cur + 1], p)
  {
    var a, k := m.gens[m.cur + 1], Pos(m, m.cur + 1, p, i);
    assert SizeOk(m, m.cur + 1);
    GenOkUpdate(a, k, Slot(p, false));
    HasMore(a, k, p);
    var b := a.(slots := a.slots[k := Slot(p, false)]);
    assert Carried(m.gens[m.cur], b);
    ChangeKeeps(m, m.cur + 1, b);
  }

  /** A slot is redirected: a vacant one, or one whose pointer the successor has. */
  lemma RedirectKeeps(m: Memory, k: nat)
    requires MemInv(m) && HasPending(m) && !m.gens[m.cur].constant && k < |m.gens[m.cur].slots|
    requires m.gens[m.cur].slots[k].owner != 0 ==> Has(m.gens[m.cur + 1], m.gens[m.cur].slots[k].owner)
    ensures var m' := WithRedirect(m, m.cur, k); MemInv(m') && Evolves(m, m') && Same(m, m')
  {
    var a, d := m.gens[m.cur], m.gens[m.cur + 1];
    var s := a.slots[k].(redirected := true);
    var b := a.(slots := a.slots[k := s]);
    GenOkUpdate(a, k, s);
    SameOwners(a, b);
    assert Carried(b, d);
    ChangeKeeps(m, m.cur, b);
  }

  lemma SameOwners(a: Generation, b: Generation)
    requires |a.slots| == |b.slots| && forall k :: 0 <= k < |a.slots| ==> a.slots[k].owner == b.slots[k].owner
    ensures forall p: nat :: Has(a, p) <==> Has(b, p)
  {
    forall p: nat ensures Has(a, p) <==> Has(b, p) {
      if Has(a, p) {
        var k :| 0 <= k < |a.slots| && a.slots[k].owner == p;
        assert b.slots[k].owner == p;
      }
      if Has(b, p) {
        var k :| 0 <= k < |b.slots| && b.slots[k].owner == p;
        assert a.slots[k].owner == p;
      }
    }
  }

  lemma IncrementKeeps(m: Memory, g: nat)
    requires MemInv(m) && g < |m.gens|
    ensures var m' := WithIncrement(m, g); MemInv(m') && Evolves(m, m') && Same(m, m')
  {
    var a, m' := m.gens[g], WithIncrement(m, g);
    var b := a.(nUsed := a.nUsed + 1);
    SameSlots(a, b);
    forall f: nat ensures SizeOk(m', f) {
      assert SizeOk(m, f);
    }
    assert forall f :: 0 <= f < |m.gens| && f != g ==> m'.gens[f] == m.gens[f];
  }

  lemma SameSlots(a: Generation, b: Generation)
    requires GenOk(a) && a.slots == b.slots && a.constant == b.constant
    ensures GenOk(b) && GenLater(a, b) && forall p: nat :: Has(a, p) <==> Has(b, p)
  {
    forall k | 0 <= k < |b.slots| ensures Owned(b, k) {
      assert Owned(a, k);
      if a.slots[k].owner != 0 {
        var i: nat :| Probe(a.slots[k].owner, i, |a.slots|) == k && Passed(a, a.slots[k].owner, i);
        PassedStays(a, b, a.slots[k].owner, i);
      }
    }
  }

  lemma PublishKeeps(m: Memory)
    requires MemInv(m) && !HasPending(m)
    ensures var m' := m.(gens := m.gens + [Fresh(2 * Size(m, m.cur))]); MemInv(m') && Evolves(m, m') && Same(m, m')
  {
    var d := Fresh(2 * Size(m, m.cur));
    var m' := m.(gens := m.gens + [d]);
    forall f: nat ensures SizeOk(m', f) {
      assert SizeOk(m, f);
    }
    assert forall g :: 0 <= g < |m.gens| ==> m'.gens[g] == m.gens[g];
    assert GenOk(d) && Carried(m.gens[m.cur], d);
  }

  /** The swap: the successor has every pointer, and no other. */
  lemma SwapKeeps(m: Memory)
    requires MemInv(m) && HasPending(m) && AllRedirected(m.gens[m.cur])
    ensures var m' := m.(cur := m.cur + 1); MemInv(m') && Evolves(m, m') && Same(m, m')
  {
    var c, d, m' := m.gens[m.cur], m.gens[m.cur + 1], m.(cur := m.cur + 1);
    forall p: nat | p != 0 ensures Has(c, p) <==> Has(d, p) {
      if Has(c, p) {
        var k :| 0 <= k < |c.slots| && c.slots[k].owner == p;
        assert !c.constant by { assert GenOk(c); }
      }
      if Has(d, p) {
        var k :| 0 <= k < |d.slots| && d.slots[k].owner == p;
      }
    }
    forall f: nat ensures SizeOk(m', f) {
      assert SizeOk(m, f);
    }
  }
}
