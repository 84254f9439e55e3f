/**
 A call on the hashtable that runs alone ends: from every state of every run, if only one
 thread goes on, it answers; there is one exception, a lookup or a remove that probes a
 storage without a free slot for a hash that is not in it.
 */
module HashtableAlone {
  import opened Options
  import opened MapSpec
  import opened Probing
  import opened Sizes
  import opened Counting
  import opened HashtableModel
  import opened HashtableInvariant
  import opened HashtableSteps
  import opened HashtableProof
  import opened HashtableRuns
  import opened Occupancy
  import opened HashtableOccupancy
  import opened Ranks

  // --------------------------------------------------------------------- ranks

  predicate Pending(m: Memory) {
    m.cur + 1 < |m.gens|
  }

  ghost function Taken(m: Memory, g: nat): nat
    requires g < |m.gens|
  {
    |ClaimedSlots(m.gens[g])|
  }

  /** How often a call may still start over that tries generation `g`, given how full that is. */
  function TryNeed(m: Memory, g: nat, level: nat): nat {
    if g < m.cur then 4 else if Pending(m) then 3 else level
  }

  /** The same for one that migrates generation `g` to one of `size` slots, or to the one that is there. */
  ghost function MoveNeed(m: Memory, g: nat, size: nat): nat
    requires g < |m.gens|
  {
    if g < m.cur then 3 else Level(Taken(m, g), if g + 1 < |m.gens| then Size(m, g + 1) else AllocSize(size))
  }

  /** How full the current generation is, or 3 if it is to be left. */
  ghost function ReadNeed(m: Memory): nat
    requires m.cur < |m.gens|
  {
    if Pending(m) then 3 else Level(Taken(m, m.cur), Size(m, m.cur))
  }

  /** A remove that probes for `h` goes no further than this slot. */
  predicate Stops(s: Slot, h: nat) {
    s.hw.frozen || s.hw.hash == 0 || s.hw.hash == h
  }

  /** How many of the next `n` probes, from the i-th on, a remove makes before it stops. */
  function Distance(gen: Generation, h: nat, i: nat, n: nat): nat
    requires |gen.slots| > 0
    decreases n
  {
    if n == 0 || Stops(gen.slots[Probe(h, i, |gen.slots|)], h) then 0 else 1 + Distance(gen, h, i + 1, n - 1)
  }

  ghost function RankOf(m: Memory, op: Op, pc: Pc): Rank
    requires Shaped(m) && PcOk(m, pc)
  {
    match pc
    case Idle => Rank(0, 0, 0, 0, 0)
    case Done(_) => Rank(0, 0, 0, 0, 0)
    case ReadStorage => Rank(if op.MigrateSameSize? then 5 else ReadNeed(m), READS, 0, 0, 0)
    case LookProbe(g, i) => Rank(0, TRIES, 0, 2, Minus(Size(m, g), i))
    case LookValue(g, i) => Rank(0, TRIES, 0, 1, 0)
    case ReadCount(g) => Rank(TryNeed(m, g, Level(Taken(m, g), Size(m, g))), TRIES, 0, 5, 0)
    case ClaimRead(g, i) => Rank(TryNeed(m, g, Level(Taken(m, g), Size(m, g))), TRIES, 0, 4, 2 * Minus(Size(m, g), i) + 1)
    case ClaimCas(g, i) => Rank(TryNeed(m, g, Level(Taken(m, g), Size(m, g))), TRIES, 0, 4, 2 * Minus(Size(m, g), i))
    case ClaimIncrement(g, i) => Rank(TryNeed(m, g, 0), TRIES, 0, 3, 0)
    case ValueRead(g, i) => Rank(TryNeed(m, g, 0), TRIES, 0, 2, 3)
    case ValueCas(g, i, want) =>
      Rank(TryNeed(m, g, 0), TRIES, 0, 2, if m.gens[g].slots[Pos(m, g, Hash(op), i)].vw == ValueWord(want, false) then 1 else 2)
    case RemoveProbe(g, i) => Rank(TryNeed(m, g, 0), TRIES, 0, 2, Distance(m.gens[g], Hash(op), i, Size(m, g)))
    case RemoveCas(g, i) => Rank(TryNeed(m, g, 0), TRIES, 0, 1, 0)
    case NextRead(g, size) => Rank(MoveNeed(m, g, size), MIGRATES, Size(m, g) + 2, 0, 0)
    case NextCas(g, size) => Rank(MoveNeed(m, g, size), MIGRATES, Size(m, g) + 1, 0, 0)
    case FreezeRead(g, j) => Rank(MoveNeed(m, g, 0), MIGRATES, Minus(Size(m, g), j), 3, 2)
    case FreezeCas(g, j, seen) =>
      Rank(MoveNeed(m, g, 0), MIGRATES, Minus(Size(m, g), j), 3, if m.gens[g].slots[j].hw == seen then 1 else 3)
    case SealRead(g, j, h) => Rank(MoveNeed(m, g, 0), MIGRATES, Minus(Size(m, g), j), 2, 2)
    case SealCas(g, j, h, want) =>
      Rank(MoveNeed(m, g, 0), MIGRATES, Minus(Size(m, g), j), 2, if m.gens[g].slots[j].vw == ValueWord(want, false) then 1 else 3)
    case CarryRead(g, j, h, v, q, i) => Rank(MoveNeed(m, g, 0), MIGRATES, Minus(Size(m, g), j), 1, 2 * Minus(Size(m, q), i) + 3)
    case CarryCas(g, j, h, v, q, i) => Rank(MoveNeed(m, g, 0), MIGRATES, Minus(Size(m, g), j), 1, 2 * Minus(Size(m, q), i) + 2)
    case CarryIncrement(g, j, h, v, q, i) => Rank(MoveNeed(m, g, 0), MIGRATES, Minus(Size(m, g), j), 1, 1)
    case CarryInstall(g, j, h, v, q, i) => Rank(MoveNeed(m, g, 0), MIGRATES, Minus(Size(m, g), j), 1, 0)
    case CarryNext(g, j, h, v, q) => Rank(0, 0, 0, 0, 0)
    case Swap(g) => Rank(MoveNeed(m, g, 0), MIGRATES, 0, 0, 0)
  }

  /** The generation is full of other hashes: a probe for `h` goes round and round. */
  ghost predicate NoEnd(gen: Generation, h: nat) {
    forall k :: 0 <= k < |gen.slots| ==> gen.slots[k].hw.hash != 0 && gen.slots[k].hw.hash != h
  }

  /** A lookup or a remove that does not end. A remove stops at a frozen slot. */
  ghost predicate Spins(m: Memory, op: Op, pc: Pc) {
    || (pc.LookProbe? && pc.g < |m.gens| && NoEnd(m.gens[pc.g], Hash(op)))
    || (pc.RemoveProbe? && pc.g < |m.gens| && NoEnd(m.gens[pc.g], Hash(op)) && NoneFrozen(m.gens[pc.g]))
  }

  /** What the descent of a step needs to know. */
  ghost predicate Ready(m: Memory, op: Op, pc: Pc, seen: set<Option<Value>>) {
    && MemInv(m) && Shaped(m) && PcOk(m, pc) && LocalInv(m, op, pc, seen) && !pc.Idle? && !pc.Done?
    && m.gens[m.cur].nHashs <= Taken(m, m.cur)
    && (pc.ClaimRead? || pc.ClaimCas? ==> pc.i < Size(m, pc.g))
  }

  ghost predicate Descends(m: Memory, op: Op, pc: Pc)
    requires Shaped(m) && PcOk(m, pc) && !pc.Idle?
  {
    var (m', pc') := Step(m, op, pc);
    Shaped(m') && PcOk(m', pc') && (pc'.Done? || Lower(RankOf(m', op, pc'), RankOf(m, op, pc)))
  }

  // ------------------------------------------------------------------- attempts

  /** Who finds a generation busy starts over with a lower need. */
  lemma BusyIsLower(m: Memory, g: nat, level: nat)
    requires MemInv(m) && g <= m.cur
    requires g == m.cur && !Pending(m) ==> level == Level(Taken(m, g), Size(m, g)) > 0
    ensures MoveNeed(m, g, 2 * Size(m, g)) < TryNeed(m, g, level)
  {
    if g == m.cur && !Pending(m) {
      HashesSize(m.gens[g]);
      DoublingHelps(Taken(m, g), Size(m, g), AllocSize(2 * Size(m, g)));
    }
  }

  lemma ReadDescends(m: Memory, op: Op, seen: set<Option<Value>>)
    requires Ready(m, op, ReadStorage, seen)
    ensures Descends(m, op, ReadStorage)
  {
  }

  lemma LookDescends(m: Memory, op: Op, pc: Pc, seen: set<Option<Value>>)
    requires Ready(m, op, pc, seen) && (pc.LookProbe? || pc.LookValue?) && !Spins(m, op, pc)
    ensures Descends(m, op, pc)
  {
    if pc.LookProbe? { ProbeIsShort(m.gens[pc.g], Hash(op), pc.i); }
  }

  /** Unless the storage is full of other hashes, the probes so far are less than a round. */
  lemma ProbeIsShort(gen: Generation, h: nat, i: nat)
    requires |gen.slots| > 0 && Passed(gen, h, i) && !NoEnd(gen, h)
    ensures i < |gen.slots|
  {
    if i >= |gen.slots| {
      forall k: nat | k < |gen.slots| ensures gen.slots[k].hw.hash != 0 && gen.slots[k].hw.hash != h {
        var i0 := ProbeCovers(h, k, |gen.slots|);
      }
    }
  }

  lemma CountDescends(m: Memory, op: Op, pc: Pc, seen: set<Option<Value>>)
    requires Ready(m, op, pc, seen) && pc.ReadCount?
    ensures Descends(m, op, pc)
  {
    var g := pc.g;
    if m.gens[g].nHashs >= Size(m, g) - Size(m, g) / 2 {
      BusyIsLower(m, g, Level(Taken(m, g), Size(m, g)));
    }
  }

  /** A generation without a successor has no sealed slot. */
  lemma LastIsUnsealed(m: Memory, k: nat)
    requires MemInv(m) && !Pending(m) && k < |m.gens[m.cur].slots|
    ensures !m.gens[m.cur].slots[k].hw.frozen && !m.gens[m.cur].slots[k].vw.sealed
  {
    assert GenOk(m.gens[m.cur]) && SlotOk(m.gens[m.cur].slots[k]);
  }

  /** find_or_claim finds a generation busy that is frozen or full. */
  lemma ClaimIsLower(m: Memory, h: nat, g: nat, i: nat)
    requires MemInv(m) && Shaped(m) && Seeking(m, g, h, i) && i < Size(m, g)
    requires var found := m.gens[g].slots[Pos(m, g, h, i)].hw;
             found != HashWord(0, false) && (found.frozen || (found.hash != h && i + 1 == Size(m, g)))
    ensures MoveNeed(m, g, 2 * Size(m, g)) < TryNeed(m, g, Level(Taken(m, g), Size(m, g)))
  {
    if g == m.cur && !Pending(m) {
      LastIsUnsealed(m, Pos(m, g, h, i));
      PassedOneMore(m.gens[g], h, i);
      FullRound(m.gens[g], h, i + 1);
    }
    BusyIsLower(m, g, Level(Taken(m, g), Size(m, g)));
  }

  predicate ClaimIsBusy(m: Memory, h: nat, g: nat, i: nat)
    requires Shaped(m) && g < |m.gens|
  {
    var found := m.gens[g].slots[Pos(m, g, h, i)].hw;
    found != HashWord(0, false) && (found.frozen || (found.hash != h && i + 1 == Size(m, g)))
  }

  lemma ClaimWins(m: Memory, op: Op, pc: Pc)
    requires Shaped(m) && PcOk(m, pc) && pc.ClaimCas? && m.gens[pc.g].slots[Pos(m, pc.g, Hash(op), pc.i)].hw == HashWord(0, false)
    ensures Descends(m, op, pc)
  {
    var m' := Step(m, op, pc).0;
    assert m' == WithClaim(m, pc.g, Pos(m, pc.g, Hash(op), pc.i), Hash(op)) && Shaped(m');
    assert TryNeed(m', pc.g, 0) <= TryNeed(m, pc.g, Level(Taken(m, pc.g), Size(m, pc.g)));
  }

  lemma ClaimGoesOn(m: Memory, op: Op, pc: Pc)
    requires Shaped(m) && PcOk(m, pc) && (pc.ClaimRead? || pc.ClaimCas?) && pc.i < Size(m, pc.g) && !ClaimIsBusy(m, Hash(op), pc.g, pc.i)
    requires pc.ClaimCas? ==> m.gens[pc.g].slots[Pos(m, pc.g, Hash(op), pc.i)].hw != HashWord(0, false)
    ensures Descends(m, op, pc)
  {
    assert Step(m, op, pc).0 == m;
  }

  lemma ClaimGivesUp(m: Memory, op: Op, pc: Pc)
    requires Shaped(m) && PcOk(m, pc) && (pc.ClaimRead? || pc.ClaimCas?) && ClaimIsBusy(m, Hash(op), pc.g, pc.i)
    requires MoveNeed(m, pc.g, 2 * Size(m, pc.g)) < TryNeed(m, pc.g, Level(Taken(m, pc.g), Size(m, pc.g)))
    ensures Descends(m, op, pc)
  {
  }

  lemma ClaimDescends(m: Memory, op: Op, pc: Pc, seen: set<Option<Value>>)
    requires Ready(m, op, pc, seen) && (pc.ClaimRead? || pc.ClaimCas?)
    ensures Descends(m, op, pc)
  {
    if ClaimIsBusy(m, Hash(op), pc.g, pc.i) {
      ClaimIsLower(m, Hash(op), pc.g, pc.i);
      ClaimGivesUp(m, op, pc);
    } else if pc.ClaimCas? && m.gens[pc.g].slots[Pos(m, pc.g, Hash(op), pc.i)].hw == HashWord(0, false) {
      ClaimWins(m, op, pc);
    } else {
      ClaimGoesOn(m, op, pc);
    }
  }

  predicate ValueIsBusy(m: Memory, h: nat, g: nat, i: nat)
    requires Shaped(m) && g < |m.gens|
  {
    m.gens[g].slots[Pos(m, g, h, i)].vw.sealed
  }

  lemma ValueGoesOn(m: Memory, op: Op, pc: Pc)
    requires Shaped(m) && PcOk(m, pc) && (pc.ClaimIncrement? || pc.ValueRead? || pc.ValueCas?)
    requires pc.ClaimIncrement? || !ValueIsBusy(m, Hash(op), pc.g, pc.i)
    ensures Descends(m, op, pc)
  {
  }

  lemma ValueGivesUp(m: Memory, op: Op, pc: Pc)
    requires Shaped(m) && PcOk(m, pc) && (pc.ValueRead? || pc.ValueCas?) && ValueIsBusy(m, Hash(op), pc.g, pc.i)
    requires MoveNeed(m, pc.g, 2 * Size(m, pc.g)) < TryNeed(m, pc.g, 0)
    ensures Descends(m, op, pc)
  {
  }

  lemma ValueDescends(m: Memory, op: Op, pc: Pc, seen: set<Option<Value>>)
    requires Ready(m, op, pc, seen) && (pc.ClaimIncrement? || pc.ValueRead? || pc.ValueCas?)
    ensures Descends(m, op, pc)
  {
    if pc.g == m.cur && !Pending(m) { LastIsUnsealed(m, Pos(m, pc.g, Hash(op), pc.i)); }
    if !pc.ClaimIncrement? && ValueIsBusy(m, Hash(op), pc.g, pc.i) {
      BusyIsLower(m, pc.g, 0);
      ValueGivesUp(m, op, pc);
    } else {
      ValueGoesOn(m, op, pc);
    }
  }

  lemma {:induction false} DistanceWithin(gen: Generation, h: nat, i: nat, n: nat, n': nat, d: nat)
    requires |gen.slots| > 0 && d < n <= n' && Stops(gen.slots[Probe(h, i + d, |gen.slots|)], h)
    ensures Distance(gen, h, i, n) == Distance(gen, h, i, n')
    decreases n
  {
    if !Stops(gen.slots[Probe(h, i, |gen.slots|)], h) {
      DistanceWithin(gen, h, i + 1, n - 1, n' - 1, d - 1);
    }
  }

  /** As long as there is a slot to stop at, every probe brings a remove nearer to one. */
  lemma DistanceFalls(gen: Generation, h: nat, i: nat, k: nat)
    requires k < |gen.slots| && Stops(gen.slots[k], h) && !Stops(gen.slots[Probe(h, i, |gen.slots|)], h)
    ensures Distance(gen, h, i + 1, |gen.slots|) < Distance(gen, h, i, |gen.slots|)
  {
    var n := |gen.slots|;
    var d := ProbeCovers(h + i, k, n);
    assert Probe(h + i, d, n) == Probe(h, i + d, n) && Probe(h + i, 0, n) == Probe(h, i, n);
    DistanceWithin(gen, h, i + 1, n - 1, n, d - 1);
  }

  lemma RemoveCasEnds(m: Memory, op: Op, pc: Pc)
    requires Shaped(m) && PcOk(m, pc) && pc.RemoveCas?
    requires ValueIsBusy(m, Hash(op), pc.g, pc.i) ==> MoveNeed(m, pc.g, 2 * Size(m, pc.g)) < TryNeed(m, pc.g, 0)
    ensures Descends(m, op, pc)
  {
  }

  lemma RemoveCasDescends(m: Memory, op: Op, pc: Pc, seen: set<Option<Value>>)
    requires Ready(m, op, pc, seen) && pc.RemoveCas?
    ensures Descends(m, op, pc)
  {
    if pc.g == m.cur && !Pending(m) {
      LastIsUnsealed(m, Pos(m, pc.g, Hash(op), pc.i));
    } else {
      BusyIsLower(m, pc.g, 0);
    }
    RemoveCasEnds(m, op, pc);
  }

  lemma StopExists(m: Memory, op: Op, pc: Pc) returns (k: nat)
    requires Shaped(m) && PcOk(m, pc) && pc.RemoveProbe? && !Spins(m, op, pc)
    ensures k < Size(m, pc.g) && Stops(m.gens[pc.g].slots[k], Hash(op))
  {
    k :| k < Size(m, pc.g) && Stops(m.gens[pc.g].slots[k], Hash(op));
  }

  lemma RemoveProbeDescends(m: Memory, op: Op, pc: Pc, seen: set<Option<Value>>)
    requires Ready(m, op, pc, seen) && pc.RemoveProbe? && !Spins(m, op, pc)
    ensures Descends(m, op, pc)
  {
    var g, h := pc.g, Hash(op);
    var found := m.gens[g].slots[Pos(m, g, h, pc.i)];
    if !Stops(found, h) {
      var k := StopExists(m, op, pc);
      DistanceFalls(m.gens[g], h, pc.i, k);
    } else if found.hw.frozen {
      if g < m.cur || Pending(m) { BusyIsLower(m, g, 0); }
    }
  }

  // ------------------------------------------------------------------ migrations

  /** The memory means the same to the migration of generation `g`. */
  ghost predicate SameToCopy(m: Memory, m': Memory, g: nat) {
    && Shaped(m') && g + 1 < |m.gens| == |m'.gens| && m'.cur == m.cur
    && MoveNeed(m', g, 0) == MoveNeed(m, g, 0) && Size(m', g) == Size(m, g) && Size(m', g + 1) == Size(m, g + 1)
  }

  lemma SlotIsSame(m: Memory, g: nat, k: nat, s: Slot)
    requires Shaped(m) && g + 1 < |m.gens| && k < |m.gens[g].slots| && m.gens[g].slots[k].hw.hash == s.hw.hash
    ensures SameToCopy(m, WithSlot(m, g, k, s), g)
  {
    SlotCountsNothing(m, g, k, s);
  }

  lemma NextSlotIsSame(m: Memory, g: nat, k: nat, s: Slot)
    requires Shaped(m) && g + 1 < |m.gens| && k < |m.gens[g + 1].slots|
    ensures SameToCopy(m, WithSlot(m, g + 1, k, s), g)
  {
    assert WithSlot(m, g + 1, k, s).gens[g] == m.gens[g];
  }

  lemma IncrementIsSame(m: Memory, g: nat)
    requires Shaped(m) && g + 1 < |m.gens|
    ensures SameToCopy(m, WithIncrement(m, g + 1), g)
  {
    assert WithIncrement(m, g + 1).gens[g] == m.gens[g];
  }

  lemma NextGoesOn(m: Memory, op: Op, pc: Pc)
    requires Shaped(m) && PcOk(m, pc) && (pc.NextRead? || (pc.NextCas? && pc.g + 1 < |m.gens|))
    ensures Descends(m, op, pc)
  {
    assert Step(m, op, pc).0 == m;
  }

  lemma NextIsMade(m: Memory, op: Op, pc: Pc)
    requires Shaped(m) && PcOk(m, pc) && pc.NextCas? && pc.g + 1 == |m.gens| && pc.g == m.cur
    ensures Descends(m, op, pc)
  {
    var m' := Step(m, op, pc).0;
    assert m' == m.(gens := m.gens + [Fresh(pc.size)]);
    assert m'.gens[pc.g] == m.gens[pc.g] && Size(m', pc.g + 1) == AllocSize(pc.size);
  }

  lemma NextDescends(m: Memory, op: Op, pc: Pc, seen: set<Option<Value>>)
    requires Ready(m, op, pc, seen) && (pc.NextRead? || pc.NextCas?)
    ensures Descends(m, op, pc)
  {
    if pc.NextRead? || pc.g + 1 < |m.gens| { NextGoesOn(m, op, pc); } else { NextIsMade(m, op, pc); }
  }

  predicate OnSlot(m: Memory, pc: Pc) {
    && (pc.FreezeRead? || pc.FreezeCas? || pc.SealRead? || pc.SealCas?)
    && pc.g + 1 < |m.gens| && pc.j < |m.gens[pc.g].slots|
  }

  lemma FreezeGoesOn(m: Memory, op: Op, pc: Pc)
    requires Shaped(m) && PcOk(m, pc) && OnSlot(m, pc) && (pc.FreezeRead? || (pc.FreezeCas? && m.gens[pc.g].slots[pc.j].hw != pc.seen))
    ensures Descends(m, op, pc)
  {
    assert Step(m, op, pc).0 == m;
  }

  lemma SealReads(m: Memory, op: Op, pc: Pc)
    requires Shaped(m) && PcOk(m, pc) && OnSlot(m, pc) && pc.SealRead?
    ensures Descends(m, op, pc)
  {
    assert Step(m, op, pc).0 == m;
  }

  lemma SealLoses(m: Memory, op: Op, pc: Pc)
    requires Shaped(m) && PcOk(m, pc) && OnSlot(m, pc) && pc.SealCas? && m.gens[pc.g].slots[pc.j].vw != ValueWord(pc.want, false)
    ensures Descends(m, op, pc)
  {
    assert Step(m, op, pc) == (m, SealRead(pc.g, pc.j, pc.h));
  }

  lemma FreezeWinsLower(m: Memory, op: Op, pc: Pc)
    requires Shaped(m) && PcOk(m, pc) && OnSlot(m, pc) && pc.FreezeCas? && m.gens[pc.g].slots[pc.j].hw == pc.seen
    requires SameToCopy(m, WithFreeze(m, pc.g, pc.j), pc.g)
    ensures Descends(m, op, pc)
  {
  }

  lemma SealWinsLower(m: Memory, op: Op, pc: Pc)
    requires Shaped(m) && PcOk(m, pc) && OnSlot(m, pc) && pc.SealCas? && m.gens[pc.g].slots[pc.j].vw == ValueWord(pc.want, false)
    requires SameToCopy(m, WithSeal(m, pc.g, pc.j), pc.g)
    ensures Descends(m, op, pc)
  {
  }

  lemma SlotDescends(m: Memory, op: Op, pc: Pc)
    requires Shaped(m) && PcOk(m, pc) && OnSlot(m, pc)
    ensures Descends(m, op, pc)
  {
    var g, j := pc.g, pc.j;
    var s := m.gens[g].slots[j];
    if pc.FreezeCas? && s.hw == pc.seen {
      SlotIsSame(m, g, j, s.(hw := s.hw.(frozen := true)));
      FreezeWinsLower(m, op, pc);
    } else if pc.SealCas? && s.vw == ValueWord(pc.want, false) {
      SlotIsSame(m, g, j, s.(vw := s.vw.(sealed := true)));
      SealWinsLower(m, op, pc);
    } else if pc.FreezeRead? || pc.FreezeCas? {
      FreezeGoesOn(m, op, pc);
    } else if pc.SealRead? {
      SealReads(m, op, pc);
    } else {
      SealLoses(m, op, pc);
    }
  }

  /** carry has met neither a frozen free slot nor a sealed empty word. */
  predicate CarryGoesWell(m: Memory, pc: Pc)
    requires Shaped(m) && PcOk(m, pc) && IsCarrier(pc) && !pc.CarryNext?
  {
    var s := m.gens[pc.q].slots[Pos(m, pc.q, pc.h, pc.i)];
    && pc.q == pc.g + 1 && pc.h != 0
    && (pc.CarryRead? || pc.CarryCas? ==> (s.hw.hash == 0 ==> !s.hw.frozen) && pc.i < Size(m, pc.q))
    && (pc.CarryInstall? ==> s.vw != ValueWord(Empty, true))
  }

  lemma CarryProbesOn(m: Memory, op: Op, pc: Pc)
    requires Shaped(m) && PcOk(m, pc) && (pc.CarryRead? || pc.CarryCas?) && CarryGoesWell(m, pc)
    requires Step(m, op, pc).0 == m
    ensures Descends(m, op, pc)
  {
  }

  lemma CarryClaims(m: Memory, op: Op, pc: Pc)
    requires Shaped(m) && PcOk(m, pc) && pc.CarryCas? && CarryGoesWell(m, pc)
    requires Step(m, op, pc).0 != m && SameToCopy(m, Step(m, op, pc).0, pc.g)
    ensures Descends(m, op, pc)
  {
    assert Step(m, op, pc).1 == CarryIncrement(pc.g, pc.j, pc.h, pc.v, pc.q, pc.i);
  }

  lemma CarryEndsLower(m: Memory, op: Op, pc: Pc)
    requires Shaped(m) && PcOk(m, pc) && (pc.CarryIncrement? || pc.CarryInstall?) && CarryGoesWell(m, pc)
    requires Step(m, op, pc).0 == m || SameToCopy(m, Step(m, op, pc).0, pc.g)
    ensures Descends(m, op, pc)
  {
  }

  lemma CarryIsSame(m: Memory, op: Op, pc: Pc)
    requires Shaped(m) && PcOk(m, pc) && IsCarrier(pc) && !pc.CarryNext? && pc.q == pc.g + 1
    ensures Step(m, op, pc).0 == m || SameToCopy(m, Step(m, op, pc).0, pc.g)
  {
    var k := Pos(m, pc.q, pc.h, pc.i);
    var s := m.gens[pc.q].slots[k];
    if pc.CarryCas? { NextSlotIsSame(m, pc.g, k, s.(hw := HashWord(pc.h, false))); }
    if pc.CarryInstall? { NextSlotIsSame(m, pc.g, k, s.(vw := ValueWord(Live(pc.v), false))); }
    if pc.CarryIncrement? { IncrementIsSame(m, pc.g); }
  }

  lemma CarryGoes(m: Memory, op: Op, pc: Pc, seen: set<Option<Value>>)
    requires Ready(m, op, pc, seen) && IsCarrier(pc)
    ensures !pc.CarryNext? && CarryGoesWell(m, pc)
  {
    if pc.CarryRead? || pc.CarryCas? {
      CarryWithinSize(m, pc.g, pc.j, pc.h, pc.v, pc.q, pc.i);
      CarryMeets(m, pc.g, pc.j, pc.h, pc.v, pc.q, pc.i);
    } else if pc.CarryInstall? {
      CarryFinds(m, pc.g, pc.j, pc.h, pc.v, pc.q, pc.i);
    }
  }

  lemma CarryDescends(m: Memory, op: Op, pc: Pc, seen: set<Option<Value>>)
    requires Ready(m, op, pc, seen) && IsCarrier(pc)
    ensures Descends(m, op, pc)
  {
    CarryGoes(m, op, pc, seen);
    CarryIsSame(m, op, pc);
    if pc.CarryIncrement? || pc.CarryInstall? {
      CarryEndsLower(m, op, pc);
    } else if Step(m, op, pc).0 == m {
      CarryProbesOn(m, op, pc);
    } else {
      CarryClaims(m, op, pc);
    }
  }

  /** The successor is no fuller than what was carried to it. */
  lemma SwapDescends(m: Memory, op: Op, pc: Pc, seen: set<Option<Value>>)
    requires Ready(m, op, pc, seen) && pc.Swap?
    ensures Descends(m, op, pc)
  {
    var g := pc.g;
    if g == m.cur {
      assert GenOk(m.gens[g]) && GenOk(m.gens[g + 1]);
      PendingNotFuller(m.gens[g], m.gens[g + 1]);
      LessIsLower(Taken(m, g + 1), Taken(m, g), Size(m, g + 1), Size(m, g + 1));
    }
  }

  lemma CopierDescends(m: Memory, op: Op, pc: Pc, seen: set<Option<Value>>)
    requires Ready(m, op, pc, seen) && IsCopier(pc)
    ensures Descends(m, op, pc)
  {
    if pc.NextRead? || pc.NextCas? {
      NextDescends(m, op, pc, seen);
    } else if pc.Swap? {
      SwapDescends(m, op, pc, seen);
    } else {
      SlotDescends(m, op, pc);
    }
  }

  lemma WriterDescends(m: Memory, op: Op, pc: Pc, seen: set<Option<Value>>)
    requires Ready(m, op, pc, seen) && IsWriter(pc) && !Spins(m, op, pc)
    ensures Descends(m, op, pc)
  {
    if pc.ReadCount? {
      CountDescends(m, op, pc, seen);
    } else if pc.ClaimRead? || pc.ClaimCas? {
      ClaimDescends(m, op, pc, seen);
    } else if pc.RemoveProbe? {
      RemoveProbeDescends(m, op, pc, seen);
    } else if pc.RemoveCas? {
      RemoveCasDescends(m, op, pc, seen);
    } else {
      ValueDescends(m, op, pc, seen);
    }
  }

  /** Every step of a call that runs alone ends it or brings it nearer to its end, unless it spins. */
  lemma StepDescends(m: Memory, op: Op, pc: Pc, seen: set<Option<Value>>)
    requires Ready(m, op, pc, seen) && !Spins(m, op, pc)
    ensures Descends(m, op, pc)
  {
    if IsWriter(pc) {
      WriterDescends(m, op, pc, seen);
    } else if IsCopier(pc) {
      CopierDescends(m, op, pc, seen);
    } else if IsCarrier(pc) {
      CarryDescends(m, op, pc, seen);
    } else if pc.ReadStorage? {
      ReadDescends(m, op, seen);
    } else {
      LookDescends(m, op, pc, seen);
    }
  }

  // ----------------------------------------------------------------------- runs

  function OpAt(s: State, t: nat): Op
    requires t < |s.threads|
  {
    s.threads[t].op
  }

  function PcAt(s: State, t: nat): Pc
    requires t < |s.threads|
  {
    s.threads[t].pc
  }

  /** find_or_claim makes no more than a round of probes. */
  predicate ClaimInRound(m: Memory, pc: Pc) {
    (pc.ClaimRead? || pc.ClaimCas?) && pc.g < |m.gens| ==> pc.i < |m.gens[pc.g].slots|
  }

  lemma ClaimProbesOn(m: Memory, op: Op, pc: Pc)
    requires Shaped(m) && PcOk(m, pc) && (pc.ReadCount? || pc.ClaimRead? || pc.ClaimCas?) && ClaimInRound(m, pc)
    ensures ClaimInRound(Step(m, op, pc).0, Step(m, op, pc).1)
  {
  }

  lemma OthersDoNotClaim(m: Memory, op: Op, pc: Pc)
    requires Shaped(m) && PcOk(m, pc) && !pc.Idle? && !pc.ReadCount? && !pc.ClaimRead? && !pc.ClaimCas?
    ensures !Step(m, op, pc).1.ClaimRead? && !Step(m, op, pc).1.ClaimCas?
  {
  }

  lemma RoundGoesOn(m: Memory, op: Op, pc: Pc)
    requires Shaped(m) && PcOk(m, pc) && !pc.Idle? && ClaimInRound(m, pc)
    ensures ClaimInRound(Step(m, op, pc).0, Step(m, op, pc).1)
  {
    if pc.ReadCount? || pc.ClaimRead? || pc.ClaimCas? { ClaimProbesOn(m, op, pc); } else { OthersDoNotClaim(m, op, pc); }
  }

  lemma RoundStays(s: State, s': State, u: nat, t: nat)
    requires Next(s, s', u) && Shaped(s.mem) && Evolves(s.mem, s'.mem) && t < |s.threads| == |s'.threads|
    requires ClaimInRound(s.mem, PcAt(s, t)) && PcOk(s.mem, PcAt(s, t))
    ensures ClaimInRound(s'.mem, PcAt(s', t))
  {
    if u == t {
      if Moves(s, s', t) { RoundGoesOn(s.mem, OpAt(s, t), PcAt(s, t)); }
    } else if PcAt(s, t).ClaimRead? || PcAt(s, t).ClaimCas? {
      assert GenEvolves(s.mem.gens[PcAt(s, t).g], s'.mem.gens[PcAt(s, t).g]);
    }
  }

  lemma PcIsOk(run: seq<State>, sched: seq<nat>, k: nat, t: nat)
    requires IsRun(run, sched) && k < |run| && t < |run[0].threads|
    ensures MemInv(run[k].mem) && Shaped(run[k].mem) && PcOk(run[k].mem, PcAt(run[k], t))
  {
    RunsAreOk(run, sched, k);
    assert ThreadOk(run, t, k);
    HashtableProof.NeverStuck(run[k].mem, OpAt(run[k], t), PcAt(run[k], t), Seen(run, CallStart(run, t, k), k, Hash(OpAt(run[k], t))));
  }

  lemma RoundStaysAt(run: seq<State>, sched: seq<nat>, k: nat, t: nat)
    requires IsRun(run, sched) && k < |sched| && t < |run[0].threads| && ClaimInRound(run[k].mem, PcAt(run[k], t))
    ensures ClaimInRound(run[k + 1].mem, PcAt(run[k + 1], t))
  {
    PcIsOk(run, sched, k, t);
    StepEvolves(run, sched, k);
    assert StepAt(run, sched, k);
    RoundStays(run[k], run[k + 1], sched[k], t);
  }

  lemma {:induction false} ClaimsStayInRound(run: seq<State>, sched: seq<nat>, k: nat, t: nat)
    requires IsRun(run, sched) && k < |run| && t < |run[0].threads|
    ensures ClaimInRound(run[k].mem, PcAt(run[k], t))
    decreases k
  {
    if k > 0 {
      ClaimsStayInRound(run, sched, k - 1, t);
      RoundStaysAt(run, sched, k - 1, t);
    }
  }

  /** In the last state of a run everything is known that the descent needs. */
  lemma LastIsReady(run: seq<State>, sched: seq<nat>, t: nat) returns (seen: set<Option<Value>>)
    requires IsRun(run, sched) && t < |run[0].threads|
    requires !PcAt(run[|sched|], t).Idle? && !PcAt(run[|sched|], t).Done?
    ensures Ready(run[|sched|].mem, OpAt(run[|sched|], t), PcAt(run[|sched|], t), seen)
  {
    var k := |sched|;
    var s := run[k];
    RunsAreOk(run, sched, k);
    assert ThreadOk(run, t, k);
    seen := Seen(run, CallStart(run, t, k), k, Hash(OpAt(s, t)));
    PcIsOk(run, sched, k, t);
    OccupancyAlways(run, sched, k);
    assert CountsOk(Tallies(s.mem), Roles(s.threads), s.mem.cur);
    ClaimsStayInRound(run, sched, k, t);
  }

  ghost function Moved(s: State, t: nat): State
    requires Shaped(s.mem) && t < |s.threads| && PcOk(s.mem, PcAt(s, t)) && !PcAt(s, t).Idle?
  {
    var (m, pc) := Step(s.mem, OpAt(s, t), PcAt(s, t));
    State(m, s.threads[t := s.threads[t].(pc := pc)])
  }

  lemma RunGoesOn(run: seq<State>, sched: seq<nat>, t: nat)
    requires IsRun(run, sched) && t < |run[0].threads|
    requires var s := run[|sched|]; Shaped(s.mem) && PcOk(s.mem, PcAt(s, t)) && !PcAt(s, t).Idle?
    ensures IsRun(run + [Moved(run[|sched|], t)], sched + [t])
  {
    var s, s' := run[|sched|], Moved(run[|sched|], t);
    var run', sched' := run + [s'], sched + [t];
    assert Moves(s, s', t);
    forall i: nat | i < |sched'| ensures StepAt(run', sched', i) {
      if i < |sched| {
        assert StepAt(run, sched, i);
      }
    }
  }

  predicate InCall(s: State, t: nat) {
    t < |s.threads| && Shaped(s.mem) && PcOk(s.mem, PcAt(s, t)) && !PcAt(s, t).Idle?
  }

  ghost function LastRank(run: seq<State>, t: nat): Rank
    requires run != [] && InCall(run[|run| - 1], t)
  {
    var s := run[|run| - 1];
    RankOf(s.mem, OpAt(s, t), PcAt(s, t))
  }

  /** The call of thread `t` has ended, or is a lookup or a remove that spins. */
  ghost predicate EndedOrSpins(s: State, t: nat)
    requires t < |s.threads|
  {
    PcAt(s, t).Done? || ((OpAt(s, t).Lookup? || OpAt(s, t).Remove?) && Spins(s.mem, OpAt(s, t), PcAt(s, t)))
  }

  lemma LastDescends(run: seq<State>, sched: seq<nat>, t: nat)
    requires IsRun(run, sched) && InCall(run[|run| - 1], t) && t < |run[0].threads| && !EndedOrSpins(run[|run| - 1], t)
    ensures var s := run[|run| - 1]; !PcAt(s, t).Done? && Descends(s.mem, OpAt(s, t), PcAt(s, t))
  {
    var s := run[|sched|];
    var seen := LastIsReady(run, sched, t);
    StepDescends(s.mem, OpAt(s, t), PcAt(s, t), seen);
  }

  lemma OneStepAlone(run: seq<State>, sched: seq<nat>, t: nat) returns (s': State)
    requires IsRun(run, sched) && InCall(run[|run| - 1], t) && t < |run[0].threads| && !EndedOrSpins(run[|run| - 1], t)
    ensures IsRun(run + [s'], sched + [t]) && InCall(s', t) && OpAt(s', t) == OpAt(run[|run| - 1], t)
    ensures PcAt(s', t).Done? || Lower(LastRank(run + [s'], t), LastRank(run, t))
  {
    LastDescends(run, sched, t);
    RunGoesOn(run, sched, t);
    s' := Moved(run[|sched|], t);
  }

  /**
   From every state of every run: if thread `t` goes on alone, its call ends. Only a lookup
   or a remove may instead come to probe a storage that is full of other hashes.
   */
  lemma {:induction false} EndsAlone(run: seq<State>, sched: seq<nat>, t: nat) returns (more: seq<State>)
    requires IsRun(run, sched) && t < |run[0].threads| && InCall(run[|run| - 1], t)
    ensures IsRun(run + more, sched + seq(|more|, _ => t))
    ensures var s := (run + more)[|run + more| - 1]; OpAt(s, t) == OpAt(run[|run| - 1], t) && EndedOrSpins(s, t)
    decreases LastRank(run, t).need, LastRank(run, t).phase, LastRank(run, t).slot, LastRank(run, t).stage, LastRank(run, t).probe,
              if PcAt(run[|run| - 1], t).Done? then 0 else 1
  {
    if EndedOrSpins(run[|run| - 1], t) {
      more := [];
      assert run + more == run && sched + seq(|more|, _ => t) == sched;
    } else {
      var s' := OneStepAlone(run, sched, t);
      if PcAt(s', t).Done? {
        more := [s'];
        assert sched + seq(|more|, _ => t) == sched + [t];
      } else {
        var rest := EndsAlone(run + [s'], sched + [t], t);
        more := [s'] + rest;
        assert run + more == run + [s'] + rest;
        StepsOf(sched, t, |rest|);
      }
    }
  }

  /** A call that spins does so forever. */
  lemma SpinsOn(m: Memory, op: Op, pc: Pc)
    requires Shaped(m) && PcOk(m, pc) && Spins(m, op, pc)
    ensures Step(m, op, pc).0 == m && Spins(m, op, Step(m, op, pc).1) && !Step(m, op, pc).1.Done?
  {
  }

  /** With no more threads than half of the slots nobody ever spins. */
  lemma NobodySpins(run: seq<State>, sched: seq<nat>, k: nat, t: nat)
    requires IsRun(run, sched) && k < |run| && t < |run[0].threads|
    requires forall g :: 0 <= g < |run[k].mem.gens| ==> |run[0].threads| <= |run[k].mem.gens[g].slots| / 2
    ensures !Spins(run[k].mem, OpAt(run[k], t), PcAt(run[k], t))
  {
    var m, pc := run[k].mem, PcAt(run[k], t);
    if Spins(m, OpAt(run[k], t), pc) {
      OccupancyBound(run, sched, k, pc.g);
      AllTaken(m.gens[pc.g], Hash(OpAt(run[k], t)));
    }
  }

  lemma AllTaken(gen: Generation, h: nat)
    requires NoEnd(gen, h)
    ensures |ClaimedSlots(gen)| == |gen.slots|
  {
    assert ClaimedSlots(gen) == Below(|gen.slots|);
  }
}
