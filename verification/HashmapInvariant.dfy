/**
 What every reachable memory of the hashmap satisfies, and how it may change: a hash
 is claimed once per storage, a value is written once, and nobody is left behind.
 */
module HashmapInvariant {
  import opened Options
  import opened Probing
  import opened Sizes
  import opened MapSpec
  import opened HashmapModel

  // --------------------------------------------------------- one generation

  /** The first `i` probes for `h` meet slots that belong to other hashes. */
  ghost predicate Passed(gen: Generation, h: nat, i: nat)
    requires |gen.slots| > 0
  {
    forall i' {:trigger Probe(h, i', |gen.slots|)} :: 0 <= i' < i ==>
      gen.slots[Probe(h, i', |gen.slots|)].hash != 0 && gen.slots[Probe(h, i', |gen.slots|)].hash != h
  }

  ghost predicate Owned(gen: Generation, k: nat)
    requires k < |gen.slots|
  {
    gen.slots[k].hash != 0 ==>
      exists i: nat :: Probe(gen.slots[k].hash, i, |gen.slots|) == k && Passed(gen, gen.slots[k].hash, i)
  }

  ghost predicate GenOk(gen: Generation) {
    && |gen.slots| > 0 && (gen.constant || (|gen.slots| >= 4 && IsPow2(|gen.slots|)))
    && (forall k :: 0 <= k < |gen.slots| ==> Owned(gen, k))
    && (forall k :: 0 <= k < |gen.slots| && gen.slots[k].hash == 0 ==> !gen.slots[k].word.Holding?)
    && (gen.constant ==> forall k :: 0 <= k < |gen.slots| ==> gen.slots[k] == Slot(0, Void))
  }

  /** `h` has a slot. */
  ghost predicate Has(gen: Generation, h: nat) {
    exists k :: 0 <= k < |gen.slots| && gen.slots[k].hash == h
  }

  /** `h` has a slot with value `v`. */
  ghost predicate Bound(gen: Generation, h: nat, v: Value) {
    exists k :: 0 <= k < |gen.slots| && gen.slots[k] == Slot(h, Holding(v))
  }

  /** Nothing can be written any more. */
  ghost predicate AllFrozen(gen: Generation) {
    gen.constant || forall k :: 0 <= k < |gen.slots| ==> gen.slots[k].word == Redirect
  }

  ghost predicate NoneFrozen(gen: Generation) {
    forall k :: 0 <= k < |gen.slots| ==> gen.slots[k].word != Redirect
  }

  lemma OneSlotPerHash(gen: Generation, k: nat, l: nat)
    requires GenOk(gen) && k < |gen.slots| && l < |gen.slots| && gen.slots[k].hash == gen.slots[l].hash != 0
    ensures k == l
  {
    var h, n := gen.slots[k].hash, |gen.slots|;
    assert Owned(gen, k) && Owned(gen, l);
    var i: nat :| Probe(h, i, n) == k && Passed(gen, h, i);
    var j: nat :| Probe(h, j, n) == l && Passed(gen, h, j);
  }

  /** A hash that has a slot is met before a free one, and before a full round is made. */
  lemma OwnerMetFirst(gen: Generation, h: nat, i: nat)
    requires GenOk(gen) && h != 0 && Passed(gen, h, i) && Has(gen, h)
    ensures gen.slots[Probe(h, i, |gen.slots|)].hash != 0 && i < |gen.slots|
  {
    var k :| 0 <= k < |gen.slots| && gen.slots[k].hash == h;
    assert Owned(gen, k);
    var j := ProbeCovers(h, k, |gen.slots|);
  }

  // ------------------------------------------------------------- all memory

  predicate HasPending(m: Memory) {
    |m.gens| == m.cur + 2
  }

  /** Before it becomes current, a storage has nothing but what its predecessor has or had. */
  ghost predicate OnlyCarried(src: Generation, dst: Generation) {
    && NoneFrozen(dst)
    && (forall k :: 0 <= k < |dst.slots| && dst.slots[k].hash != 0 ==> Has(src, dst.slots[k].hash))
    && (forall k, l :: 0 <= k < |dst.slots| && 0 <= l < |src.slots| ==> CarriedFrom(src.slots[l], dst.slots[k]))
  }

  predicate CarriedFrom(a: Slot, b: Slot) {
    a.hash == b.hash != 0 && b.word.Holding? ==> a.word == Redirect || a.word == b.word
  }

  predicate SizeOk(m: Memory, g: nat) {
    0 < g < |m.gens| ==> |m.gens[g].slots| >= 2 * |m.gens[g - 1].slots| && !m.gens[g].constant
  }

  ghost predicate MemInv(m: Memory) {
    && m.cur < |m.gens| <= m.cur + 2
    && (forall g: nat :: SizeOk(m, g))
    && (forall g :: 0 <= g < |m.gens| ==> GenOk(m.gens[g]))
    && (forall g :: 0 <= g < m.cur ==> AllFrozen(m.gens[g]))
    && (if HasPending(m) then OnlyCarried(m.gens[m.cur], m.gens[m.cur + 1]) else NoneFrozen(m.gens[m.cur]))
  }

  /** The map: what the current storage holds, or has handed on to its successor. */
  ghost predicate Maps(m: Memory, h: nat, v: Value)
    requires m.cur < |m.gens|
  {
    h != 0 && (Bound(m.gens[m.cur], h, v) || (HasPending(m) && Bound(m.gens[m.cur + 1], h, v)))
  }

  lemma MapsOnce(m: Memory, h: nat, v: Value, w: Value)
    requires MemInv(m) && Maps(m, h, v) && Maps(m, h, w)
    ensures v == w
  {
    var c := m.gens[m.cur];
    if HasPending(m) {
      var d := m.gens[m.cur + 1];
      if Bound(d, h, v) { InPredecessor(c, d, h, v); }
      if Bound(d, h, w) { InPredecessor(c, d, h, w); }
      if Bound(d, h, v) && Bound(d, h, w) { BoundOnce(d, h, v, w); }
    }
    if Bound(c, h, v) && Bound(c, h, w) { BoundOnce(c, h, v, w); }
    if Bound(c, h, v) && !Bound(c, h, w) { BoundTwice(m, h, v, w); }
    if Bound(c, h, w) && !Bound(c, h, v) { BoundTwice(m, h, w, v); }
  }

  lemma BoundOnce(gen: Generation, h: nat, v: Value, w: Value)
    requires GenOk(gen) && h != 0 && Bound(gen, h, v) && Bound(gen, h, w)
    ensures v == w
  {
    var k :| 0 <= k < |gen.slots| && gen.slots[k] == Slot(h, Holding(v));
    var l :| 0 <= l < |gen.slots| && gen.slots[l] == Slot(h, Holding(w));
    OneSlotPerHash(gen, k, l);
  }

  lemma BoundTwice(m: Memory, h: nat, v: Value, w: Value)
    requires MemInv(m) && h != 0 && Bound(m.gens[m.cur], h, v) && HasPending(m) && Bound(m.gens[m.cur + 1], h, w)
    ensures v == w
  {
    var c, d := m.gens[m.cur], m.gens[m.cur + 1];
    var k :| 0 <= k < |c.slots| && c.slots[k] == Slot(h, Holding(v));
    var l :| 0 <= l < |d.slots| && d.slots[l] == Slot(h, Holding(w));
    assert CarriedFrom(c.slots[k], d.slots[l]);
  }

  lemma InPredecessor(c: Generation, d: Generation, h: nat, v: Value)
    requires OnlyCarried(c, d) && h != 0 && Bound(d, h, v)
    ensures Has(c, h)
  {
    var l :| 0 <= l < |d.slots| && d.slots[l] == Slot(h, Holding(v));
    assert Has(c, d.slots[l].hash);
  }

  /** A hash that the map binds has a slot in the current storage. */
  lemma MappedHasSlot(m: Memory, h: nat, v: Value)
    requires MemInv(m) && Maps(m, h, v)
    ensures Has(m.gens[m.cur], h)
  {
    if Bound(m.gens[m.cur], h, v) {
      var k :| 0 <= k < |m.gens[m.cur].slots| && m.gens[m.cur].slots[k] == Slot(h, Holding(v));
      assert m.gens[m.cur].slots[k].hash == h;
    } else {
      InPredecessor(m.gens[m.cur], m.gens[m.cur + 1], h, v);
    }
  }

  /** The slot of a hash in the current storage: if it is void then the map does not bind the hash. */
  lemma VoidMeansAbsent(m: Memory, k: nat, v: Value)
    requires MemInv(m) && k < |m.gens[m.cur].slots| && m.gens[m.cur].slots[k].hash != 0 && m.gens[m.cur].slots[k].word == Void
    ensures !Maps(m, m.gens[m.cur].slots[k].hash, v)
  {
    var c, h := m.gens[m.cur], m.gens[m.cur].slots[k].hash;
    if Bound(c, h, v) {
      var l :| 0 <= l < |c.slots| && c.slots[l] == Slot(h, Holding(v));
      OneSlotPerHash(c, k, l);
    }
    if HasPending(m) {
      var d := m.gens[m.cur + 1];
      assert forall l :: 0 <= l < |d.slots| ==> CarriedFrom(c.slots[k], d.slots[l]);
    }
  }

  ghost function Hashes(gen: Generation): set<nat> {
    set k | 0 <= k < |gen.slots| :: gen.slots[k].hash
  }

  /** The map that the memory stands for. */
  ghost function Abs(m: Memory): map<nat, Value>
    requires m.cur < |m.gens|
  {
    map h | h in Hashes(m.gens[m.cur]) && exists v :: Maps(m, h, v) :: var v :| Maps(m, h, v); v
  }

  lemma AbsMeaning(m: Memory, h: nat, v: Value)
    requires MemInv(m)
    ensures Get(Abs(m), h) == Some(v) <==> Maps(m, h, v)
  {
    if Maps(m, h, v) {
      MappedHasSlot(m, h, v);
      MapsOnce(m, h, v, Abs(m)[h]);
    }
  }

  /** The map is what it binds. */
  lemma AbsIs(m: Memory, a: map<nat, Value>)
    requires MemInv(m) && forall h: nat, v: Value :: Get(a, h) == Some(v) <==> Maps(m, h, v)
    ensures Abs(m) == a
  {
    forall h: nat ensures Get(Abs(m), h) == Get(a, h) {
      if h in a { AbsMeaning(m, h, a[h]); }
      if h in Abs(m) { AbsMeaning(m, h, Abs(m)[h]); }
    }
    assert forall h: nat :: h in a <==> Get(a, h).Some?;
    assert forall h: nat :: h in Abs(m) <==> Get(Abs(m), h).Some?;
    assert forall h: nat :: h in a ==> Get(a, h) == Some(a[h]);
    assert forall h: nat :: h in Abs(m) ==> Get(Abs(m), h) == Some(Abs(m)[h]);
  }

  // ------------------------------------------------------- how it may change

  predicate SlotLater(a: Slot, b: Slot) {
    && (a.hash != 0 ==> b.hash == a.hash)
    && (a.word == Void || a.word == b.word || b.word == Redirect)
    && (b.word == Void ==> a.word == Void)
  }

  ghost predicate GenLater(a: Generation, b: Generation) {
    && |a.slots| == |b.slots| && a.constant == b.constant
    && (forall k :: 0 <= k < |a.slots| ==> SlotLater(a.slots[k], b.slots[k]))
  }

  /** Nothing that the map binds is ever lost or changed. */
  ghost predicate Grows(m: Memory, m': Memory)
    requires m.cur < |m.gens| && m'.cur < |m'.gens|
  {
    forall h: nat, v: Value :: Maps(m, h, v) ==> Maps(m', h, v)
  }

  ghost predicate Same(m: Memory, m': Memory)
    requires m.cur < |m.gens| && m'.cur < |m'.gens|
  {
    forall h: nat, v: Value :: Maps(m, h, v) <==> Maps(m', h, v)
  }

  ghost predicate Evolves(m: Memory, m': Memory)
    requires m.cur < |m.gens| && m'.cur < |m'.gens|
  {
    && m.cur <= m'.cur <= m.cur + 1 && |m.gens| <= |m'.gens|
    && (forall g :: 0 <= g < |m.gens| ==> GenLater(m.gens[g], m'.gens[g]))
    && Grows(m, m')
  }

  lemma PassedStays(a: Generation, b: Generation, h: nat, i: nat)
    requires |a.slots| > 0 && GenLater(a, b) && Passed(a, h, i)
    ensures Passed(b, h, i)
  {
  }

  lemma HasStays(a: Generation, b: Generation, h: nat)
    requires GenLater(a, b) && Has(a, h) && h != 0
    ensures Has(b, h)
  {
    var k :| 0 <= k < |a.slots| && a.slots[k].hash == h;
    assert SlotLater(a.slots[k], b.slots[k]);
  }

  /** Changing one slot in an allowed way keeps a generation well-formed. */
  lemma GenOkUpdate(a: Generation, k: nat, s: Slot)
    requires GenOk(a) && k < |a.slots| && !a.constant && SlotLater(a.slots[k], s) && (s.hash == 0 ==> !s.word.Holding?)
    requires a.slots[k].hash == s.hash || exists i: nat :: Probe(s.hash, i, |a.slots|) == k && Passed(a, s.hash, i)
    ensures var b := a.(slots := a.slots[k := s]); GenOk(b) && GenLater(a, b)
  {
    var b := a.(slots := a.slots[k := s]);
    assert GenLater(a, b);
    forall l | 0 <= l < |b.slots| ensures Owned(b, l) {
      var h := b.slots[l].hash;
      if h != 0 {
        assert Owned(a, l);
        var i: nat :| Probe(h, i, |a.slots|) == l && Passed(a, h, i);
        PassedStays(a, b, h, i);
      }
    }
  }
}
