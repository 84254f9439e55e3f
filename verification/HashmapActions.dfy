/**
 The steps of the hashmap that write: each keeps the memory in order, and each but the
 filling of a slot leaves the map as it is.
 */
module HashmapActions {
  import opened Probing
  import opened MapSpec
  import opened HashmapModel
  import opened HashmapInvariant

  /** A change of one generation that is allowed and does not touch the frozen ones. */
  lemma ChangeKeeps(m: Memory, g: nat, b: Generation)
    requires MemInv(m) && g < |m.gens| && GenOk(b) && GenLater(m.gens[g], b) && (g < m.cur ==> AllFrozen(b))
    requires var m' := m.(gens := m.gens[g := b]);
             && Grows(m, m')
             && (if HasPending(m) then OnlyCarried(m'.gens[m.cur], m'.gens[m.cur + 1]) else NoneFrozen(m'.gens[m.cur]))
    ensures var m' := m.(gens := m.gens[g := b]); MemInv(m') && Evolves(m, m')
  {
    var m' := m.(gens := m.gens[g := b]);
    forall f: nat ensures SizeOk(m', f) {
      assert SizeOk(m, f);
    }
    assert forall f :: 0 <= f < |m.gens| && f != g ==> m'.gens[f] == m.gens[f];
  }

  ghost predicate SameBound(a: Generation, b: Generation) {
    forall h: nat, v: Value :: Bound(a, h, v) <==> Bound(b, h, v)
  }

  lemma SameMaps(m: Memory, m': Memory)
    requires m.cur < |m.gens| && m'.cur == m.cur && |m'.gens| == |m.gens|
    requires SameBound(m.gens[m.cur], m'.gens[m.cur])
    requires HasPending(m) ==> SameBound(m.gens[m.cur + 1], m'.gens[m.cur + 1])
    ensures Same(m, m') && Grows(m, m')
  {
    forall h: nat, v: Value ensures Maps(m, h, v) <==> Maps(m', h, v) {
      assert Bound(m.gens[m.cur], h, v) <==> Bound(m'.gens[m.cur], h, v);
      assert HasPending(m) ==> (Bound(m.gens[m.cur + 1], h, v) <==> Bound(m'.gens[m.cur + 1], h, v));
    }
  }

  /** A change of a slot that holds no value before or after leaves the bindings alone. */
  lemma BoundSame(a: Generation, k: nat, s: Slot)
    requires k < |a.slots| && !s.word.Holding? && !a.slots[k].word.Holding?
    ensures SameBound(a, a.(slots := a.slots[k := s]))
  {
    var b := a.(slots := a.slots[k := s]);
    forall h: nat, v: Value ensures Bound(b, h, v) <==> Bound(a, h, v) {
      if Bound(a, h, v) {
        var l :| 0 <= l < |a.slots| && a.slots[l] == Slot(h, Holding(v));
        assert b.slots[l] == Slot(h, Holding(v));
      }
      if Bound(b, h, v) {
        var l :| 0 <= l < |b.slots| && b.slots[l] == Slot(h, Holding(v));
        assert a.slots[l] == Slot(h, Holding(v));
      }
    }
  }

  lemma HasAfter(a: Generation, b: Generation, d: Generation)
    requires GenLater(a, b) && forall k :: 0 <= k < |d.slots| && d.slots[k].hash != 0 ==> Has(a, d.slots[k].hash)
    ensures forall k :: 0 <= k < |d.slots| && d.slots[k].hash != 0 ==> Has(b, d.slots[k].hash)
  {
    forall k | 0 <= k < |d.slots| && d.slots[k].hash != 0 ensures Has(b, d.slots[k].hash) {
      HasStays(a, b, d.slots[k].hash);
    }
  }

  // ------------------------------------------------------------------- claim

  /** A claim in the current storage: the successor has nothing of this hash yet. */
  lemma ClaimKeepsCarried(c: Generation, d: Generation, k: nat, h: nat, i: nat)
    requires GenOk(c) && OnlyCarried(c, d) && h != 0 && k < |c.slots| && c.slots[k].hash == 0
    requires Passed(c, h, i) && Probe(h, i, |c.slots|) == k
    requires GenLater(c, c.(slots := c.slots[k := c.slots[k].(hash := h)]))
    ensures OnlyCarried(c.(slots := c.slots[k := c.slots[k].(hash := h)]), d)
  {
    var c' := c.(slots := c.slots[k := c.slots[k].(hash := h)]);
    HasAfter(c, c', d);
    if Has(c, h) { OwnerMetFirst(c, h, i); }
    forall x, l | 0 <= x < |d.slots| && 0 <= l < |c'.slots| ensures CarriedFrom(c'.slots[l], d.slots[x]) {
      assert CarriedFrom(c.slots[l], d.slots[x]);
      assert d.slots[x].hash != 0 ==> Has(c, d.slots[x].hash);
    }
  }

  lemma ClaimKeeps(m: Memory, g: nat, h: nat, i: nat)
    requires MemInv(m) && Shaped(m) && g < |m.gens| && !m.gens[g].constant && h != 0
    requires Passed(m.gens[g], h, i) && SlotAt(m, g, h, i).hash == 0 && (g > m.cur ==> Has(m.gens[m.cur], h))
    ensures var m' := WithClaim(m, g, Pos(m, g, h, i), h); MemInv(m') && Evolves(m, m') && Same(m, m')
  {
    var k, a := Pos(m, g, h, i), m.gens[g];
    var s := a.slots[k].(hash := h);
    var b := a.(slots := a.slots[k := s]);
    GenOkUpdate(a, k, s);
    BoundSame(a, k, s);
    var m' := WithClaim(m, g, k, h);
    SameMaps(m, m');
    if g == m.cur && HasPending(m) {
      ClaimKeepsCarried(a, m.gens[g + 1], k, h, i);
    } else if g > m.cur {
      ClaimInPending(m.gens[m.cur], a, k, h);
    }
    ChangeKeeps(m, g, b);
  }

  lemma ClaimInPending(c: Generation, d: Generation, k: nat, h: nat)
    requires OnlyCarried(c, d) && k < |d.slots| && !d.slots[k].word.Holding? && Has(c, h)
    ensures OnlyCarried(c, d.(slots := d.slots[k := d.slots[k].(hash := h)]))
  {
    var d' := d.(slots := d.slots[k := d.slots[k].(hash := h)]);
    forall x, l | 0 <= x < |d'.slots| && 0 <= l < |c.slots| ensures CarriedFrom(c.slots[l], d'.slots[x]) {
      assert CarriedFrom(c.slots[l], d.slots[x]);
    }
  }

  lemma IncrementKeeps(m: Memory, g: nat)
    requires MemInv(m) && g < |m.gens|
    ensures var m' := WithIncrement(m, g); MemInv(m') && Evolves(m, m') && Same(m, m')
  {
    var a := m.gens[g];
    var b := a.(nHashs := a.nHashs + 1);
    SameSlots(a, b);
    SameMaps(m, WithIncrement(m, g));
    ChangeKeeps(m, g, b);
  }

  lemma SameSlots(a: Generation, b: Generation)
    requires GenOk(a) && a.slots == b.slots && a.constant == b.constant
    ensures GenOk(b) && GenLater(a, b) && SameBound(a, b) && forall h: nat :: Has(b, h) <==> Has(a, h)
  {
    forall k | 0 <= k < |b.slots| ensures Owned(b, k) {
      assert Owned(a, k);
      if a.slots[k].hash != 0 {
        var i: nat :| Probe(a.slots[k].hash, i, |a.slots|) == k && Passed(a, a.slots[k].hash, i);
        PassedStays(a, b, a.slots[k].hash, i);
      }
    }
  }

  // -------------------------------------------------------------------- fill

  lemma WordKeepsCarried(c: Generation, d: Generation, k: nat, x: Word)
    requires OnlyCarried(c, d) && k < |c.slots|
    requires c.slots[k].word == Void || x == Redirect
    ensures OnlyCarried(c.(slots := c.slots[k := c.slots[k].(word := x)]), d)
  {
    var c' := c.(slots := c.slots[k := c.slots[k].(word := x)]);
    forall y | 0 <= y < |d.slots| && d.slots[y].hash != 0 ensures Has(c', d.slots[y].hash) {
      var l :| 0 <= l < |c.slots| && c.slots[l].hash == d.slots[y].hash;
      assert c'.slots[l].hash == d.slots[y].hash;
    }
    forall y, l | 0 <= y < |d.slots| && 0 <= l < |c'.slots| ensures CarriedFrom(c'.slots[l], d.slots[y]) {
      assert CarriedFrom(c.slots[l], d.slots[y]);
    }
  }

  /** What a generation binds after a void slot has been filled. */
  lemma BoundMore(a: Generation, k: nat, v: Value)
    requires k < |a.slots| && a.slots[k].word == Void
    ensures forall h: nat, w: Value ::
              Bound(a.(slots := a.slots[k := a.slots[k].(word := Holding(v))]), h, w)
              <==> Bound(a, h, w) || (h == a.slots[k].hash && w == v)
  {
    var b := a.(slots := a.slots[k := a.slots[k].(word := Holding(v))]);
    forall h: nat, w: Value ensures Bound(b, h, w) <==> Bound(a, h, w) || (h == a.slots[k].hash && w == v) {
      if Bound(a, h, w) {
        var l :| 0 <= l < |a.slots| && a.slots[l] == Slot(h, Holding(w));
        assert b.slots[l] == Slot(h, Holding(w));
      }
      if h == a.slots[k].hash && w == v { assert b.slots[k] == Slot(h, Holding(w)); }
      if Bound(b, h, w) {
        var l :| 0 <= l < |b.slots| && b.slots[l] == Slot(h, Holding(w));
        assert l != k ==> a.slots[l] == Slot(h, Holding(w));
      }
    }
  }

  /** A void slot is filled: the map binds one hash more. */
  lemma FillKeeps(m: Memory, k: nat, v: Value)
    requires MemInv(m) && k < |m.gens[m.cur].slots| && m.gens[m.cur].slots[k].hash != 0 && m.gens[m.cur].slots[k].word == Void
    ensures var m' := WithWord(m, m.cur, k, Holding(v));
            && MemInv(m') && Evolves(m, m')
            && (forall h: nat, w: Value :: Maps(m', h, w) <==> Maps(m, h, w) || (h == m.gens[m.cur].slots[k].hash && w == v))
  {
    var a := m.gens[m.cur];
    var s := a.slots[k].(word := Holding(v));
    GenOkUpdate(a, k, s);
    BoundMore(a, k, v);
    if HasPending(m) { WordKeepsCarried(a, m.gens[m.cur + 1], k, Holding(v)); }
    ChangeKeeps(m, m.cur, a.(slots := a.slots[k := s]));
  }

  // ----------------------------------------------------------------- migrate

  /** A void slot is frozen. */
  lemma FreezeKeeps(m: Memory, k: nat)
    requires MemInv(m) && HasPending(m) && !m.gens[m.cur].constant
    requires k < |m.gens[m.cur].slots| && m.gens[m.cur].slots[k].word == Void
    ensures var m' := WithWord(m, m.cur, k, Redirect); MemInv(m') && Evolves(m, m') && Same(m, m')
  {
    var a := m.gens[m.cur];
    var s := a.slots[k].(word := Redirect);
    GenOkUpdate(a, k, s);
    BoundSame(a, k, s);
    WordKeepsCarried(a, m.gens[m.cur + 1], k, Redirect);
    SameMaps(m, WithWord(m, m.cur, k, Redirect));
    ChangeKeeps(m, m.cur, a.(slots := a.slots[k := s]));
  }

  /** put stores a value of the map in the successor. */
  lemma InstallKeeps(m: Memory, k: nat, v: Value)
    requires MemInv(m) && HasPending(m) && k < |m.gens[m.cur + 1].slots|
    requires m.gens[m.cur + 1].slots[k].word == Void && m.gens[m.cur + 1].slots[k].hash != 0
    requires Maps(m, m.gens[m.cur + 1].slots[k].hash, v)
    ensures var m' := WithWord(m, m.cur + 1, k, Holding(v)); MemInv(m') && Evolves(m, m') && Same(m, m')
  {
    var c, a := m.gens[m.cur], m.gens[m.cur + 1];
    var h, s := a.slots[k].hash, a.slots[k].(word := Holding(v));
    var b := a.(slots := a.slots[k := s]);
    assert SizeOk(m, m.cur + 1);
    GenOkUpdate(a, k, s);
    BoundMore(a, k, v);
    InstallKeepsCarried(m, k, v);
    assert Same(m, WithWord(m, m.cur + 1, k, Holding(v)));
    ChangeKeeps(m, m.cur + 1, b);
  }

  lemma InstallKeepsCarried(m: Memory, k: nat, v: Value)
    requires MemInv(m) && HasPending(m) && k < |m.gens[m.cur + 1].slots|
    requires m.gens[m.cur + 1].slots[k].word == Void && m.gens[m.cur + 1].slots[k].hash != 0
    requires Maps(m, m.gens[m.cur + 1].slots[k].hash, v)
    ensures var d := m.gens[m.cur + 1]; OnlyCarried(m.gens[m.cur], d.(slots := d.slots[k := d.slots[k].(word := Holding(v))]))
  {
    var c, d := m.gens[m.cur], m.gens[m.cur + 1];
    var h, d' := d.slots[k].hash, d.(slots := d.slots[k := d.slots[k].(word := Holding(v))]);
    if Bound(d, h, v) {
      var l :| 0 <= l < |d.slots| && d.slots[l] == Slot(h, Holding(v));
      OneSlotPerHash(d, k, l);
    }
    assert Bound(c, h, v);
    var l :| 0 <= l < |c.slots| && c.slots[l] == Slot(h, Holding(v));
    forall x, y | 0 <= x < |d'.slots| && 0 <= y < |c.slots| ensures CarriedFrom(c.slots[y], d'.slots[x]) {
      assert CarriedFrom(c.slots[y], d.slots[x]);
      if x == k && c.slots[y].hash == h { OneSlotPerHash(c, y, l); }
    }
  }

  /** A slot is redirected after its value has arrived in the successor. */
  lemma RetireKeeps(m: Memory, k: nat)
    requires MemInv(m) && HasPending(m) && k < |m.gens[m.cur].slots| && m.gens[m.cur].slots[k].word.Holding?
    requires Bound(m.gens[m.cur + 1], m.gens[m.cur].slots[k].hash, m.gens[m.cur].slots[k].word.value)
    ensures var m' := WithWord(m, m.cur, k, Redirect); MemInv(m') && Evolves(m, m') && Same(m, m')
  {
    var a := m.gens[m.cur];
    var s := a.slots[k].(word := Redirect);
    GenOkUpdate(a, k, s);
    WordKeepsCarried(a, m.gens[m.cur + 1], k, Redirect);
    BoundLess(a, k);
    ChangeKeeps(m, m.cur, a.(slots := a.slots[k := s]));
  }

  lemma BoundLess(a: Generation, k: nat)
    requires GenOk(a) && k < |a.slots| && a.slots[k].word.Holding?
    ensures forall h: nat, w: Value ::
              Bound(a, h, w) <==> Bound(a.(slots := a.slots[k := a.slots[k].(word := Redirect)]), h, w) || a.slots[k] == Slot(h, Holding(w))
  {
    var b := a.(slots := a.slots[k := a.slots[k].(word := Redirect)]);
    forall h: nat, w: Value ensures Bound(a, h, w) <==> Bound(b, h, w) || a.slots[k] == Slot(h, Holding(w)) {
      if Bound(a, h, w) {
        var l :| 0 <= l < |a.slots| && a.slots[l] == Slot(h, Holding(w));
        assert l != k ==> b.slots[l] == Slot(h, Holding(w));
      }
      if Bound(b, h, w) {
        var l :| 0 <= l < |b.slots| && b.slots[l] == Slot(h, Holding(w));
        assert a.slots[l] == Slot(h, Holding(w));
      }
    }
  }

  /** A successor for the current storage. */
  lemma PublishKeeps(m: Memory)
    requires MemInv(m) && !HasPending(m)
    ensures var m' := m.(gens := m.gens + [Fresh(2 * Size(m, m.cur))]); MemInv(m') && Evolves(m, m') && Same(m, m')
  {
    var d := Fresh(2 * Size(m, m.cur));
    var m' := m.(gens := m.gens + [d]);
    forall f: nat ensures SizeOk(m', f) {
      assert SizeOk(m, f);
    }
    assert forall g :: 0 <= g < |m.gens| ==> m'.gens[g] == m.gens[g];
    assert forall h: nat, v: Value :: !Bound(d, h, v);
    assert GenOk(d) && OnlyCarried(m.gens[m.cur], d);
  }

  /** The swap: everything is in the successor. */
  lemma SwapKeeps(m: Memory)
    requires MemInv(m) && HasPending(m) && AllFrozen(m.gens[m.cur])
    ensures var m' := m.(cur := m.cur + 1); MemInv(m') && Evolves(m, m') && Same(m, m')
  {
    var m' := m.(cur := m.cur + 1);
    assert forall h: nat, v: Value :: h != 0 ==> !Bound(m.gens[m.cur], h, v);
    forall f: nat ensures SizeOk(m', f) {
      assert SizeOk(m, f);
    }
  }
}
