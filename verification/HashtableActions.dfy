/**
 The ways in which a single step changes the hashtable's memory, each with what it
 keeps of `MemInv` and what it does to the map that the memory stands for.
 */
module HashtableActions {
  import opened Probing
  import opened Options
  import opened MapSpec
  import opened HashtableModel
  import opened HashtableInvariant

  /** Writing slot `k` changes the contents at that slot's hash only. */
  lemma ContentsUpdate(a: Generation, k: nat, s: Slot, b: Generation)
    requires GenOk(a) && GenOk(b) && k < |a.slots| && b.slots == a.slots[k := s]
    requires a.slots[k].hw.hash == 0 || s.hw.hash == a.slots[k].hw.hash
    ensures Contents(b) ==
            if s.vw.payload.Live? then Contents(a)[s.hw.hash := s.vw.payload.value]
            else Contents(a) - {s.hw.hash}
  {
    var h := s.hw.hash;
    var c := if s.vw.payload.Live? then Contents(a)[h := s.vw.payload.value] else Contents(a) - {h};
    forall h': nat, v: Value ensures Get(c, h') == Some(v) <==> Holds(b, h', v) {
      assert SlotOk(a.slots[k]) && SlotOk(s) by { assert SlotOk(b.slots[k]); }
      if h' != h {
        ContentsMeaning(a, h', v);
        HoldsElsewhere(a, k, s, b, h', v);
      } else if h != 0 {
        ContentsAt(b, k);
        ContentsMeaning(b, h, v);
      } else {
        ContentsMeaning(a, 0, v);
        assert !Holds(b, 0, v) by { assert forall l :: 0 <= l < |b.slots| ==> SlotOk(b.slots[l]); }
      }
    }
    ContentsAre(b, c);
  }

  lemma HoldsElsewhere(a: Generation, k: nat, s: Slot, b: Generation, h: nat, v: Value)
    requires GenOk(a) && k < |a.slots| && b.slots == a.slots[k := s]
    requires a.slots[k].hw.hash == 0 || s.hw.hash == a.slots[k].hw.hash
    requires h != s.hw.hash
    ensures Holds(a, h, v) <==> Holds(b, h, v)
  {
    assert SlotOk(a.slots[k]);
    if Holds(a, h, v) {
      var l :| 0 <= l < |a.slots| && a.slots[l].hw.hash == h && a.slots[l].vw.payload == Live(v);
      assert b.slots[l] == a.slots[l];
    }
    if Holds(b, h, v) {
      var l :| 0 <= l < |b.slots| && b.slots[l].hw.hash == h && b.slots[l].vw.payload == Live(v);
      assert a.slots[l] == b.slots[l];
    }
  }

  lemma CarriedOverStays(p: Generation, a: Generation, b: Generation)
    requires GenOk(p) && CarriedOver(p, a) && GenEvolves(a, b)
    ensures CarriedOver(p, b)
  {
    forall l | 0 <= l < |p.slots| && p.slots[l].vw.payload.Live? ensures Settled(b, p.slots[l].hw.hash) {
      assert SlotOk(p.slots[l]);
      SettledStays(a, b, p.slots[l].hw.hash);
    }
  }

  lemma OnlyCarriedStays(a: Generation, b: Generation, dst: Generation)
    requires OnlyCarried(a, dst) && GenEvolves(a, b)
    ensures OnlyCarried(b, dst)
  {
    forall l | 0 <= l < |dst.slots| && dst.slots[l].hw.hash != 0
      ensures exists v :: Source(b, dst.slots[l].hw.hash, v) && dst.slots[l].vw.payload in {Empty, Live(v)}
    {
      var v :| Source(a, dst.slots[l].hw.hash, v) && dst.slots[l].vw.payload in {Empty, Live(v)};
      SourceStays(a, b, dst.slots[l].hw.hash, v);
    }
  }

  lemma OnlyCarriedWrite(src: Generation, a: Generation, k: nat, s: Slot, b: Generation)
    requires OnlyCarried(src, a) && k < |a.slots| && b.slots == a.slots[k := s]
    requires s.hw.hash != 0 ==> exists v :: Source(src, s.hw.hash, v) && s.vw.payload in {Empty, Live(v)}
    ensures OnlyCarried(src, b)
  {
  }

  /** What the write of slot `k` of generation `g` must respect. */
  ghost predicate MayWrite(m: Memory, g: nat, k: nat, s: Slot) {
    && m.cur <= g < |m.gens| && k < |m.gens[g].slots|
    && SlotEvolves(m.gens[g].slots[k], s) && SlotOk(s)
    && (m.gens[g].slots[k].hw.hash == s.hw.hash ||
        exists i: nat :: Probe(s.hw.hash, i, |m.gens[g].slots|) == k && Passed(m.gens[g], s.hw.hash, i))
  }

  lemma WriteKeepsOk(m: Memory, g: nat, k: nat, s: Slot)
    requires AllOk(m) && NeverShrinks(m) && MayWrite(m, g, k, s)
    ensures var m' := WithSlot(m, g, k, s);
            AllOk(m') && NeverShrinks(m') && Evolves(m, m')
  {
    GenOkUpdate(m.gens[g], k, s, WithSlot(m, g, k, s).gens[g]);
  }

  lemma WriteKeepsPast(m: Memory, g: nat, k: nat, s: Slot)
    requires m.cur <= g < |m.gens| && k < |m.gens[g].slots| && AllOk(m)
    requires PastRetired(m) && PastCarried(m) && GenEvolves(m.gens[g], WithSlot(m, g, k, s).gens[g])
    ensures PastRetired(WithSlot(m, g, k, s)) && PastCarried(WithSlot(m, g, k, s))
  {
    var m' := WithSlot(m, g, k, s);
    if 0 < m.cur && g == m.cur {
      assert CarriedOver(m.gens[m.cur - 1], m.gens[m.cur - 1 + 1]);
      CarriedOverStays(m.gens[m.cur - 1], m.gens[g], m'.gens[g]);
    }
  }

  /** Writing a slot of the current or the pending generation, in general. */
  lemma WriteKeeps(m: Memory, g: nat, k: nat, s: Slot)
    requires MemInv(m) && MayWrite(m, g, k, s)
    requires s.hw.frozen ==> g + 1 < |m.gens|
    requires g == m.cur + 1 && s.hw.hash != 0 ==>
               exists v :: Source(m.gens[m.cur], s.hw.hash, v) && s.vw.payload in {Empty, Live(v)}
    ensures MemInv(WithSlot(m, g, k, s)) && Evolves(m, WithSlot(m, g, k, s))
  {
    var m' := WithSlot(m, g, k, s);
    WriteKeepsOk(m, g, k, s);
    WriteKeepsPast(m, g, k, s);
    if |m.gens| == m.cur + 2 {
      if g == m.cur {
        OnlyCarriedStays(m.gens[g], m'.gens[g], m.gens[m.cur + 1]);
      } else {
        OnlyCarriedWrite(m.gens[m.cur], m.gens[g], k, s, m'.gens[g]);
      }
    }
  }

  /** What a write does to the abstract map. */
  lemma WriteAbs(m: Memory, g: nat, k: nat, s: Slot)
    requires MemInv(m) && m.cur <= g < |m.gens| && k < |m.gens[g].slots|
    requires MemInv(WithSlot(m, g, k, s))
    requires m.gens[g].slots[k].hw.hash == 0 || s.hw.hash == m.gens[g].slots[k].hw.hash
    ensures g != m.cur ==> Abs(WithSlot(m, g, k, s)) == Abs(m)
    ensures g == m.cur && s.vw.payload == m.gens[g].slots[k].vw.payload ==>
              Abs(WithSlot(m, g, k, s)) == Abs(m)
    ensures g == m.cur && s.hw.hash != 0 && s.vw.payload.Live? ==>
              Abs(WithSlot(m, g, k, s)) == Abs(m)[s.hw.hash := s.vw.payload.value]
    ensures g == m.cur && s.hw.hash != 0 && !s.vw.payload.Live? ==>
              Abs(WithSlot(m, g, k, s)) == Abs(m) - {s.hw.hash}
  {
    if g == m.cur {
      var a, b := m.gens[g], WithSlot(m, g, k, s).gens[g];
      ContentsUpdate(a, k, s, b);
      if s.vw.payload == a.slots[k].vw.payload {
        SameContents(a, k, s, b);
      }
    }
  }

  lemma SameContents(a: Generation, k: nat, s: Slot, b: Generation)
    requires GenOk(a) && GenOk(b) && k < |a.slots| && b.slots == a.slots[k := s]
    requires a.slots[k].hw.hash == 0 || s.hw.hash == a.slots[k].hw.hash
    requires s.vw.payload == a.slots[k].vw.payload
    ensures Contents(b) == Contents(a)
  {
    assert SlotOk(a.slots[k]);
    forall h: nat, v: Value ensures Get(Contents(a), h) == Some(v) <==> Holds(b, h, v) {
      ContentsMeaning(a, h, v);
      if Holds(a, h, v) {
        var l :| 0 <= l < |a.slots| && a.slots[l].hw.hash == h && a.slots[l].vw.payload == Live(v);
        assert b.slots[l].hw.hash == h && b.slots[l].vw.payload == Live(v);
      }
      if Holds(b, h, v) {
        var l :| 0 <= l < |b.slots| && b.slots[l].hw.hash == h && b.slots[l].vw.payload == Live(v);
        assert a.slots[l].hw.hash == h && a.slots[l].vw.payload == Live(v);
      }
    }
    ContentsAre(b, Contents(a));
  }

  lemma GenOkSlots(a: Generation, b: Generation)
    requires a.slots == b.slots && GenOk(a)
    ensures GenOk(b) && Contents(b) == Contents(a)
  {
    forall k | 0 <= k < |b.slots| ensures Owned(b, k) {
      assert Owned(a, k);
      if b.slots[k].hw.hash != 0 {
        var i: nat :| Probe(a.slots[k].hw.hash, i, |a.slots|) == k && Passed(a, a.slots[k].hw.hash, i);
        assert Passed(b, a.slots[k].hw.hash, i);
      }
    }
    forall h: nat, v: Value ensures Get(Contents(a), h) == Some(v) <==> Holds(b, h, v) {
      ContentsMeaning(a, h, v);
    }
    ContentsAre(b, Contents(a));
  }

  lemma RetiredSlots(a: Generation, b: Generation)
    requires a.slots == b.slots && AllRetired(a)
    ensures AllRetired(b)
  {
    assert forall k :: 0 <= k < |a.slots| ==> Retired(a, k) == Retired(b, k);
  }

  lemma OnlyCarriedSlots(a: Generation, b: Generation, a': Generation, b': Generation)
    requires a.slots == a'.slots && b.slots == b'.slots && OnlyCarried(a, b)
    ensures OnlyCarried(a', b')
  {
    assert forall h: nat, v: Value :: Source(a, h, v) ==> Source(a', h, v);
  }

  lemma CarriedOverSlots(a: Generation, b: Generation, a': Generation, b': Generation)
    requires a.slots == a'.slots && b.slots == b'.slots && CarriedOver(a, b)
    ensures CarriedOver(a', b')
  {
    assert forall h: nat :: Settled(b, h) ==> Settled(b', h);
  }

  lemma IncrementKeepsOk(m: Memory, g: nat)
    requires AllOk(m) && NeverShrinks(m) && g < |m.gens|
    ensures AllOk(WithIncrement(m, g)) && NeverShrinks(WithIncrement(m, g))
  {
    GenOkSlots(m.gens[g], WithIncrement(m, g).gens[g]);
  }

  lemma IncrementKeepsPast(m: Memory, g: nat)
    requires m.cur < |m.gens| && g < |m.gens| && PastRetired(m) && PastCarried(m)
    ensures PastRetired(WithIncrement(m, g)) && PastCarried(WithIncrement(m, g))
  {
    var m' := WithIncrement(m, g);
    if g < m.cur {
      RetiredSlots(m.gens[g], m'.gens[g]);
    }
    forall l | 0 <= l < m.cur ensures CarriedOver(m'.gens[l], m'.gens[l + 1]) {
      CarriedOverSlots(m.gens[l], m.gens[l + 1], m'.gens[l], m'.gens[l + 1]);
    }
  }

  /** The counter takes no part in the map. */
  lemma IncrementKeeps(m: Memory, g: nat)
    requires MemInv(m) && g < |m.gens|
    ensures MemInv(WithIncrement(m, g)) && Evolves(m, WithIncrement(m, g))
    ensures Abs(WithIncrement(m, g)) == Abs(m)
  {
    var m' := WithIncrement(m, g);
    IncrementKeepsOk(m, g);
    IncrementKeepsPast(m, g);
    if |m.gens| == m.cur + 2 {
      OnlyCarriedSlots(m.gens[m.cur], m.gens[m.cur + 1], m'.gens[m.cur], m'.gens[m.cur + 1]);
    }
    GenOkSlots(m.gens[m.cur], m'.gens[m.cur]);
  }

  lemma FreshIsOk(size: nat)
    ensures GenOk(Fresh(size)) && NoneFrozen(Fresh(size)) && Contents(Fresh(size)) == map[]
  {
    assert forall h: nat, v: Value :: !Holds(Fresh(size), h, v);
    ContentsAre(Fresh(size), map[]);
  }

  /** Linking a fresh successor to the current generation. */
  lemma PublishKeeps(m: Memory, size: nat)
    requires MemInv(m) && |m.gens| == m.cur + 1 && size >= |m.gens[m.cur].slots|
    ensures var m' := m.(gens := m.gens + [Fresh(size)]);
            MemInv(m') && Evolves(m, m') && Abs(m') == Abs(m)
  {
    var m' := m.(gens := m.gens + [Fresh(size)]);
    FreshIsOk(size);
    assert forall l :: 0 <= l < |m.gens| ==> m'.gens[l] == m.gens[l];
  }

  lemma CarriedBindingArrived(src: Generation, dst: Generation, h: nat, v: Value)
    requires GenOk(src) && CarriedOver(src, dst) && OnlyCarried(src, dst) && Holds(src, h, v)
    ensures Holds(dst, h, v)
  {
    var k :| 0 <= k < |src.slots| && src.slots[k].hw.hash == h && src.slots[k].vw.payload == Live(v);
    assert Settled(dst, h) && SlotOk(src.slots[k]);
    var l :| 0 <= l < |dst.slots| && dst.slots[l].hw.hash == h && dst.slots[l].vw.payload != Empty;
    var v' :| Source(src, h, v') && dst.slots[l].vw.payload in {Empty, Live(v')};
    var k' :| 0 <= k' < |src.slots| && src.slots[k'] == Slot(HashWord(h, true), ValueWord(Live(v'), true));
    OneSlotPerHash(src, k, k');
  }

  lemma ArrivedBindingWasCarried(src: Generation, dst: Generation, h: nat, v: Value)
    requires GenOk(dst) && OnlyCarried(src, dst) && Holds(dst, h, v)
    ensures Holds(src, h, v)
  {
    var l :| 0 <= l < |dst.slots| && dst.slots[l].hw.hash == h && dst.slots[l].vw.payload == Live(v);
    assert SlotOk(dst.slots[l]);
    var v' :| Source(src, h, v') && dst.slots[l].vw.payload in {Empty, Live(v')};
    assert Holds(src, h, v');
  }

  /** When copy has finished, the successor holds exactly what its source holds. */
  lemma SuccessorEqual(src: Generation, dst: Generation)
    requires GenOk(src) && GenOk(dst) && CarriedOver(src, dst) && OnlyCarried(src, dst)
    ensures Contents(dst) == Contents(src)
  {
    forall h: nat, v: Value ensures Get(Contents(src), h) == Some(v) <==> Holds(dst, h, v) {
      ContentsMeaning(src, h, v);
      if Holds(src, h, v) { CarriedBindingArrived(src, dst, h, v); }
      if Holds(dst, h, v) { ArrivedBindingWasCarried(src, dst, h, v); }
    }
    ContentsAre(dst, Contents(src));
  }

  /** Storage advance is invisible: the map stays the same when `map->storage` moves on. */
  lemma AdvanceKeeps(m: Memory)
    requires MemInv(m) && |m.gens| == m.cur + 2
    requires AllRetired(m.gens[m.cur]) && CarriedOver(m.gens[m.cur], m.gens[m.cur + 1])
    ensures var m' := m.(cur := m.cur + 1);
            MemInv(m') && Evolves(m, m') && Abs(m') == Abs(m)
  {
    SuccessorEqual(m.gens[m.cur], m.gens[m.cur + 1]);
  }

  // ------------------------------------------------- the writes of the code

  /** A won hash CAS: `h` takes a free slot; the map stays the same. */
  lemma ClaimKeeps(m: Memory, g: nat, k: nat, h: nat, i: nat)
    requires MemInv(m) && m.cur <= g < |m.gens| && k < |m.gens[g].slots| && h != 0
    requires m.gens[g].slots[k].hw == HashWord(0, false)
    requires Probe(h, i, |m.gens[g].slots|) == k && Passed(m.gens[g], h, i)
    requires g == m.cur + 1 ==> exists v :: Source(m.gens[m.cur], h, v)
    ensures MemInv(WithClaim(m, g, k, h)) && Evolves(m, WithClaim(m, g, k, h))
    ensures Abs(WithClaim(m, g, k, h)) == Abs(m)
  {
    var s := m.gens[g].slots[k].(hw := HashWord(h, false));
    assert SlotOk(m.gens[g].slots[k]) by { assert GenOk(m.gens[g]); }
    WriteKeeps(m, g, k, s);
    WriteAbs(m, g, k, s);
  }

  /** A won freeze CAS; the map stays the same. */
  lemma FreezeKeeps(m: Memory, k: nat)
    requires MemInv(m) && |m.gens| == m.cur + 2 && k < |m.gens[m.cur].slots|
    ensures MemInv(WithFreeze(m, m.cur, k)) && Evolves(m, WithFreeze(m, m.cur, k))
    ensures Abs(WithFreeze(m, m.cur, k)) == Abs(m)
  {
    var s := m.gens[m.cur].slots[k].(hw := m.gens[m.cur].slots[k].hw.(frozen := true));
    assert SlotOk(m.gens[m.cur].slots[k]) by { assert GenOk(m.gens[m.cur]); }
    WriteKeeps(m, m.cur, k, s);
    WriteAbs(m, m.cur, k, s);
  }

  /** A won seal CAS; the map stays the same. */
  lemma SealKeeps(m: Memory, k: nat)
    requires MemInv(m) && |m.gens| == m.cur + 2 && k < |m.gens[m.cur].slots|
    requires m.gens[m.cur].slots[k].hw.frozen && m.gens[m.cur].slots[k].hw.hash != 0
    ensures MemInv(WithSeal(m, m.cur, k)) && Evolves(m, WithSeal(m, m.cur, k))
    ensures Abs(WithSeal(m, m.cur, k)) == Abs(m)
  {
    var s := m.gens[m.cur].slots[k].(vw := m.gens[m.cur].slots[k].vw.(sealed := true));
    WriteKeeps(m, m.cur, k, s);
    WriteAbs(m, m.cur, k, s);
  }

  /** A won value CAS of insert or register binds the hash. */
  lemma BindKeeps(m: Memory, k: nat, v: Value)
    requires MemInv(m) && k < |m.gens[m.cur].slots|
    requires m.gens[m.cur].slots[k].hw.hash != 0 && !m.gens[m.cur].slots[k].vw.sealed
    requires !m.gens[m.cur].slots[k].vw.payload.Live?
    ensures MemInv(WithValue(m, m.cur, k, Live(v))) && Evolves(m, WithValue(m, m.cur, k, Live(v)))
    ensures m.gens[m.cur].slots[k].hw.hash !in Abs(m)
    ensures Abs(WithValue(m, m.cur, k, Live(v))) == Abs(m)[m.gens[m.cur].slots[k].hw.hash := v]
  {
    var s := m.gens[m.cur].slots[k].(vw := ValueWord(Live(v), false));
    WriteKeeps(m, m.cur, k, s);
    WriteAbs(m, m.cur, k, s);
    ContentsAt(m.gens[m.cur], k);
  }

  /** A won value CAS of remove unbinds the hash. */
  lemma UnbindKeeps(m: Memory, k: nat)
    requires MemInv(m) && k < |m.gens[m.cur].slots|
    requires m.gens[m.cur].slots[k].hw.hash != 0 && !m.gens[m.cur].slots[k].vw.sealed
    requires m.gens[m.cur].slots[k].vw.payload.Live?
    ensures MemInv(WithValue(m, m.cur, k, Tomb)) && Evolves(m, WithValue(m, m.cur, k, Tomb))
    ensures Get(Abs(m), m.gens[m.cur].slots[k].hw.hash) == Some(m.gens[m.cur].slots[k].vw.payload.value)
    ensures Abs(WithValue(m, m.cur, k, Tomb)) == Abs(m) - {m.gens[m.cur].slots[k].hw.hash}
  {
    var s := m.gens[m.cur].slots[k].(vw := ValueWord(Tomb, false));
    WriteKeeps(m, m.cur, k, s);
    WriteAbs(m, m.cur, k, s);
    ContentsAt(m.gens[m.cur], k);
  }

  /** A won value CAS of carry, in the pending generation; the map stays the same. */
  lemma InstallKeeps(m: Memory, k: nat, v: Value)
    requires MemInv(m) && |m.gens| == m.cur + 2 && k < |m.gens[m.cur + 1].slots|
    requires Source(m.gens[m.cur], m.gens[m.cur + 1].slots[k].hw.hash, v)
    requires m.gens[m.cur + 1].slots[k].vw == ValueWord(Empty, false)
    ensures MemInv(WithValue(m, m.cur + 1, k, Live(v))) && Evolves(m, WithValue(m, m.cur + 1, k, Live(v)))
    ensures Abs(WithValue(m, m.cur + 1, k, Live(v))) == Abs(m)
  {
    var s := m.gens[m.cur + 1].slots[k].(vw := ValueWord(Live(v), false));
    WriteKeeps(m, m.cur + 1, k, s);
    WriteAbs(m, m.cur + 1, k, s);
  }
}
