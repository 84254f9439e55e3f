/**
 What every reachable memory and every running thread of the hashtable satisfy,
 and how memory may change. `MemInv` is about the shared words alone, `LocalInv`
 about one thread's locals; `Evolves` is all that a thread may rely on about the
 steps of the others.
 */
module HashtableInvariant {
  import opened Probing
  import opened Sizes
  import opened Options
  import opened MapSpec
  import opened HashtableModel

  // ------------------------------------------------------- one generation

  /** The first `i` probes for `h` meet slots that belong to other hashes. */
  ghost predicate Passed(gen: Generation, h: nat, i: nat)
    requires |gen.slots| > 0
  {
    forall i' {:trigger Probe(h, i', |gen.slots|)} :: 0 <= i' < i ==>
      gen.slots[Probe(h, i', |gen.slots|)].hw.hash != 0 && gen.slots[Probe(h, i', |gen.slots|)].hw.hash != h
  }

  /** A claimed slot is reached by probing for its hash past foreign slots only. */
  ghost predicate Owned(gen: Generation, k: nat)
    requires k < |gen.slots|
  {
    gen.slots[k].hw.hash != 0 ==>
      exists i: nat :: Probe(gen.slots[k].hw.hash, i, |gen.slots|) == k && Passed(gen, gen.slots[k].hw.hash, i)
  }

  predicate SlotOk(s: Slot) {
    && (s.hw.hash == 0 ==> s.vw == ValueWord(Empty, false))
    && (s.vw.sealed ==> s.hw.frozen)
  }

  ghost predicate GenOk(gen: Generation) {
    && |gen.slots| >= 4 && IsPow2(|gen.slots|)
    && (forall k :: 0 <= k < |gen.slots| ==> SlotOk(gen.slots[k]))
    && (forall k :: 0 <= k < |gen.slots| ==> Owned(gen, k))
  }

  /** Some slot binds `h` to `v`, sealed or not. */
  ghost predicate Holds(gen: Generation, h: nat, v: Value) {
    exists k :: 0 <= k < |gen.slots| && gen.slots[k].hw.hash == h && gen.slots[k].vw.payload == Live(v)
  }

  ghost function LiveHashes(gen: Generation): (hs: set<nat>)
    ensures forall h :: h in hs ==> exists v :: Holds(gen, h, v)
    ensures forall h: nat, v: Value :: Holds(gen, h, v) ==> h in hs
  {
    var hs := set k | 0 <= k < |gen.slots| && gen.slots[k].vw.payload.Live? :: gen.slots[k].hw.hash;
    assert forall h :: h in hs ==> exists v :: Holds(gen, h, v) by {
      forall h | h in hs ensures exists v :: Holds(gen, h, v) {
        var k :| 0 <= k < |gen.slots| && gen.slots[k].vw.payload.Live? && gen.slots[k].hw.hash == h;
        assert Holds(gen, h, gen.slots[k].vw.payload.value);
      }
    }
    hs
  }

  /** The live bindings of a generation, seals ignored. */
  ghost function Contents(gen: Generation): map<nat, Value> {
    map h | h in LiveHashes(gen) :: var v :| Holds(gen, h, v); v
  }

  /** The map that the memory stands for: the live bindings of the current generation. */
  ghost function Abs(m: Memory): map<nat, Value>
    requires m.cur < |m.gens|
  {
    Contents(m.gens[m.cur])
  }

  /** A hash never owns two slots of a generation. */
  lemma OneSlotPerHash(gen: Generation, k: nat, l: nat)
    requires GenOk(gen) && k < |gen.slots| && l < |gen.slots|
    requires gen.slots[k].hw.hash == gen.slots[l].hw.hash != 0
    ensures k == l
  {
    var h, n := gen.slots[k].hw.hash, |gen.slots|;
    assert Owned(gen, k) && Owned(gen, l);
    var i: nat :| Probe(h, i, n) == k && Passed(gen, h, i);
    var j: nat :| Probe(h, j, n) == l && Passed(gen, h, j);
  }

  /** A free slot ends the probe chain: the hash is nowhere in the generation. */
  lemma FreeSlotEndsChain(gen: Generation, h: nat, i: nat, k: nat)
    requires GenOk(gen) && h != 0 && Passed(gen, h, i)
    requires gen.slots[Probe(h, i, |gen.slots|)].hw.hash == 0
    requires k < |gen.slots|
    ensures gen.slots[k].hw.hash != h
  {
    assert Owned(gen, k);
  }

  /** A hash that owns a slot is met before a free one. */
  lemma OwnerMetFirst(gen: Generation, h: nat, i: nat, k: nat)
    requires GenOk(gen) && h != 0 && Passed(gen, h, i)
    requires k < |gen.slots| && gen.slots[k].hw.hash == h
    ensures gen.slots[Probe(h, i, |gen.slots|)].hw.hash != 0
  {
    assert Owned(gen, k);
  }

  lemma ContentsMeaning(gen: Generation, h: nat, v: Value)
    requires GenOk(gen)
    ensures Get(Contents(gen), h) == Some(v) <==> Holds(gen, h, v)
  {
    if Holds(gen, h, v) {
      var k :| 0 <= k < |gen.slots| && gen.slots[k].hw.hash == h && gen.slots[k].vw.payload == Live(v);
      assert h in Contents(gen) && Holds(gen, h, Contents(gen)[h]);
      var l :| 0 <= l < |gen.slots| && gen.slots[l].hw.hash == h && gen.slots[l].vw.payload == Live(Contents(gen)[h]);
      assert SlotOk(gen.slots[k]);
      OneSlotPerHash(gen, k, l);
    }
  }

  /** The slot of a hash tells what the generation binds it to. */
  lemma ContentsAt(gen: Generation, k: nat)
    requires GenOk(gen) && k < |gen.slots| && gen.slots[k].hw.hash != 0
    ensures Get(Contents(gen), gen.slots[k].hw.hash) ==
            (if gen.slots[k].vw.payload.Live? then Some(gen.slots[k].vw.payload.value) else None)
  {
    var h := gen.slots[k].hw.hash;
    if gen.slots[k].vw.payload.Live? {
      ContentsMeaning(gen, h, gen.slots[k].vw.payload.value);
    } else if h in Contents(gen) {
      ContentsMeaning(gen, h, Contents(gen)[h]);
      var l :| 0 <= l < |gen.slots| && gen.slots[l].hw.hash == h && gen.slots[l].vw.payload == Live(Contents(gen)[h]);
      OneSlotPerHash(gen, k, l);
    }
  }

  /** A generation's contents are determined by what it holds. */
  lemma ContentsAre(gen: Generation, a: map<nat, Value>)
    requires GenOk(gen)
    requires forall h: nat, v: Value :: Get(a, h) == Some(v) <==> Holds(gen, h, v)
    ensures Contents(gen) == a
  {
    forall h: nat ensures Get(Contents(gen), h) == Get(a, h) {
      if h in a { ContentsMeaning(gen, h, a[h]); }
      if h in Contents(gen) { ContentsMeaning(gen, h, Contents(gen)[h]); }
    }
    assert forall h: nat :: h in a <==> Get(a, h).Some?;
    assert forall h: nat :: h in Contents(gen) <==> Get(Contents(gen), h).Some?;
    assert forall h: nat :: h in a ==> Get(a, h) == Some(a[h]);
    assert forall h: nat :: h in Contents(gen) ==> Get(Contents(gen), h) == Some(Contents(gen)[h]);
  }

  // ----------------------------------------------------------- all memory

  /** Slot `k` will never change again. */
  predicate Retired(gen: Generation, k: nat)
    requires k < |gen.slots|
  {
    gen.slots[k].hw.frozen && (gen.slots[k].hw.hash != 0 ==> gen.slots[k].vw.sealed)
  }

  ghost predicate AllRetired(gen: Generation) {
    forall k :: 0 <= k < |gen.slots| ==> Retired(gen, k)
  }

  ghost predicate NoneFrozen(gen: Generation) {
    forall k :: 0 <= k < |gen.slots| ==> !gen.slots[k].hw.frozen
  }

  /** `h` has a slot that has held a value. */
  ghost predicate Settled(gen: Generation, h: nat) {
    exists k :: 0 <= k < |gen.slots| && gen.slots[k].hw.hash == h && gen.slots[k].vw.payload != Empty
  }

  /** `h` is sealed with the live value `v`. */
  ghost predicate Source(gen: Generation, h: nat, v: Value) {
    h != 0 && exists k :: 0 <= k < |gen.slots| && gen.slots[k] == Slot(HashWord(h, true), ValueWord(Live(v), true))
  }

  /** The live bindings of `src` have all arrived in `dst` at some time. */
  ghost predicate CarriedOver(src: Generation, dst: Generation) {
    forall k :: 0 <= k < |src.slots| && src.slots[k].vw.payload.Live? ==> Settled(dst, src.slots[k].hw.hash)
  }

  /** Before `dst` becomes current it holds nothing but sealed bindings of `src`. */
  ghost predicate OnlyCarried(src: Generation, dst: Generation) {
    forall k :: 0 <= k < |dst.slots| && dst.slots[k].hw.hash != 0 ==>
      exists v :: Source(src, dst.slots[k].hw.hash, v) && dst.slots[k].vw.payload in {Empty, Live(v)}
  }

  ghost predicate AllOk(m: Memory) {
    forall g :: 0 <= g < |m.gens| ==> GenOk(m.gens[g])
  }

  ghost predicate NeverShrinks(m: Memory) {
    forall g :: 0 <= g < |m.gens| - 1 ==> |m.gens[g].slots| <= |m.gens[g + 1].slots|
  }

  ghost predicate PastRetired(m: Memory)
    requires m.cur < |m.gens|
  {
    forall g :: 0 <= g < m.cur ==> AllRetired(m.gens[g])
  }

  ghost predicate PastCarried(m: Memory)
    requires m.cur < |m.gens|
  {
    forall g :: 0 <= g < m.cur ==> CarriedOver(m.gens[g], m.gens[g + 1])
  }

  ghost predicate MemInv(m: Memory) {
    && m.cur < |m.gens| <= m.cur + 2
    && AllOk(m) && NeverShrinks(m) && PastRetired(m) && PastCarried(m)
    && NoneFrozen(m.gens[|m.gens| - 1])
    && (|m.gens| == m.cur + 2 ==> OnlyCarried(m.gens[m.cur], m.gens[m.cur + 1]))
  }

  // ------------------------------------------------- how memory may change

  predicate SlotEvolves(a: Slot, b: Slot) {
    && (a.hw.hash != 0 || a.hw.frozen ==> b.hw.hash == a.hw.hash)
    && (a.hw.frozen ==> b.hw.frozen)
    && (a.vw.sealed ==> b.vw == a.vw)
    && (a.vw.payload != Empty ==> b.vw.payload != Empty)
    && (!a.vw.payload.Live? && b.vw.payload != a.vw.payload ==> b.vw.payload.Live?)
  }

  ghost predicate GenEvolves(a: Generation, b: Generation) {
    |a.slots| == |b.slots| && forall k :: 0 <= k < |a.slots| ==> SlotEvolves(a.slots[k], b.slots[k])
  }

  ghost predicate Evolves(m: Memory, m': Memory) {
    && m.cur <= m'.cur <= m.cur + 1
    && |m.gens| <= |m'.gens|
    && (m'.cur != m.cur ==> m'.gens == m.gens)
    && (forall g :: 0 <= g < |m.gens| ==> GenEvolves(m.gens[g], m'.gens[g]))
  }

  lemma PassedStays(a: Generation, b: Generation, h: nat, i: nat)
    requires |a.slots| > 0 && GenEvolves(a, b) && Passed(a, h, i)
    ensures Passed(b, h, i)
  {
  }

  lemma SettledStays(a: Generation, b: Generation, h: nat)
    requires GenEvolves(a, b) && Settled(a, h) && h != 0
    ensures Settled(b, h)
  {
    var k :| 0 <= k < |a.slots| && a.slots[k].hw.hash == h && a.slots[k].vw.payload != Empty;
    assert SlotEvolves(a.slots[k], b.slots[k]);
  }

  lemma SourceStays(a: Generation, b: Generation, h: nat, v: Value)
    requires GenEvolves(a, b) && Source(a, h, v)
    ensures Source(b, h, v)
  {
    var k :| 0 <= k < |a.slots| && a.slots[k] == Slot(HashWord(h, true), ValueWord(Live(v), true));
    assert SlotEvolves(a.slots[k], b.slots[k]);
  }

  /** A retired generation is frozen in time. */
  lemma RetiredStays(a: Generation, b: Generation)
    requires GenOk(a) && GenOk(b) && GenEvolves(a, b) && AllRetired(a)
    ensures b.slots == a.slots
  {
    forall k | 0 <= k < |a.slots| ensures a.slots[k] == b.slots[k] {
      assert SlotEvolves(a.slots[k], b.slots[k]) && Retired(a, k) && SlotOk(a.slots[k]) && SlotOk(b.slots[k]);
    }
  }

  // ------------------------------------- what a step can do to a generation

  /** Changing one slot in an allowed way keeps a generation well-formed. */
  lemma GenOkUpdate(a: Generation, k: nat, s: Slot, b: Generation)
    requires GenOk(a) && k < |a.slots| && b.slots == a.slots[k := s]
    requires SlotEvolves(a.slots[k], s) && SlotOk(s)
    requires a.slots[k].hw.hash == s.hw.hash ||
             exists i: nat :: Probe(s.hw.hash, i, |a.slots|) == k && Passed(a, s.hw.hash, i)
    ensures GenOk(b) && GenEvolves(a, b)
  {
    assert GenEvolves(a, b);
    forall l | 0 <= l < |b.slots| ensures Owned(b, l) {
      var h := b.slots[l].hw.hash;
      if h != 0 {
        assert Owned(a, l);
        var i: nat :| Probe(h, i, |a.slots|) == l && Passed(a, h, i);
        PassedStays(a, b, h, i);
      }
    }
  }
}
