/**
 What each thread of the hashtable knows at each of its program points, that no
 other thread's step can take that knowledge away, and that each step keeps the
 memory invariant and acts on the abstract map at its linearization point only.
 */
module HashtableSteps {
  import opened Options
  import opened MapSpec
  import opened HashtableModel
  import opened HashtableInvariant
  import opened HashtableActions

  /** The i-th probe for `h` in generation `g` is the slot of `h`. */
  ghost predicate Mine(m: Memory, g: nat, h: nat, i: nat)
    requires Shaped(m)
  {
    g < |m.gens| && m.gens[g].slots[Pos(m, g, h, i)].hw.hash == h
  }

  /** Probing generation `g` for `h`, with `i` foreign slots behind us. */
  ghost predicate Seeking(m: Memory, g: nat, h: nat, i: nat)
    requires Shaped(m)
  {
    g <= m.cur && Passed(m.gens[g], h, i)
  }

  /** copy is through with the first `j` slots of `g`. */
  ghost predicate Copied(m: Memory, g: nat, j: nat)
    requires Shaped(m)
  {
    && g <= m.cur && g + 1 < |m.gens| && j <= |m.gens[g].slots|
    && (forall k :: 0 <= k < j ==> Retired(m.gens[g], k))
    && (forall k :: 0 <= k < j && m.gens[g].slots[k].vw.payload.Live? ==>
          Settled(m.gens[g + 1], m.gens[g].slots[k].hw.hash))
  }

  /** copy works on slot `j`, whose hash is `h`. */
  ghost predicate Copying(m: Memory, g: nat, j: nat, h: nat)
    requires Shaped(m)
  {
    Copied(m, g, j) && j < |m.gens[g].slots| && h != 0 && m.gens[g].slots[j].hw == HashWord(h, true)
  }

  /** carry takes the sealed binding of slot `j` into the immediate successor. */
  ghost predicate Carrying(m: Memory, g: nat, j: nat, h: nat, v: Value, q: nat)
    requires Shaped(m)
  {
    Copying(m, g, j, h) && m.gens[g].slots[j].vw == ValueWord(Live(v), true) && q == g + 1
  }

  /** `o` is what the map bound the operation's hash to, at some instant of the call. */
  ghost predicate Answers(op: Op, o: Option<Value>, r: Result) {
    if !Legal(op) then r == Refusal(op)
    else match op
      case Lookup(_) => r == Found(o)
      case Insert(_, _) => o.Some? && r == Exists
      case Register(_, _) => o.Some? && r == Registered(o)
      case Remove(_, val) => o != Some(val.payload.value) && r == NoEntry
      case MigrateSameSize => r == Ok
  }

  /**
   What a thread knows. `seen` holds what the operation's hash was bound to at the
   instants of the call so far, the present one included.
   */
  ghost predicate LocalInv(m: Memory, op: Op, pc: Pc, seen: set<Option<Value>>)
    requires Shaped(m)
  {
    var h := Hash(op);
    && (!pc.Idle? ==> Get(Abs(m), h) in seen)
    && (!pc.Idle? && !pc.Done? ==> Legal(op))
    && match pc
      case Idle => true
      case Done(_) => true
      case ReadStorage => true
      case LookProbe(g, i) => op.Lookup? && Seeking(m, g, h, i) && Get(Contents(m.gens[g]), h) in seen
      case LookValue(g, i) =>
        op.Lookup? && g <= m.cur && Mine(m, g, h, i) && Get(Contents(m.gens[g]), h) in seen
      case ReadCount(g) => (op.Insert? || op.Register?) && g <= m.cur
      case ClaimRead(g, i) => (op.Insert? || op.Register?) && Seeking(m, g, h, i)
      case ClaimCas(g, i) => (op.Insert? || op.Register?) && Seeking(m, g, h, i)
      case ClaimIncrement(g, i) => (op.Insert? || op.Register?) && g <= m.cur && Mine(m, g, h, i)
      case ValueRead(g, i) => (op.Insert? || op.Register?) && g <= m.cur && Mine(m, g, h, i)
      case ValueCas(g, i, want) =>
        && (op.Insert? || op.Register?) && g <= m.cur && Mine(m, g, h, i) && !want.Live?
        && (m.gens[g].slots[Pos(m, g, h, i)].vw.payload != want ==> exists v :: Some(v) in seen)
      case RemoveProbe(g, i) => op.Remove? && Seeking(m, g, h, i)
      case RemoveCas(g, i) => op.Remove? && g <= m.cur && Mine(m, g, h, i)
      case NextRead(g, size) => g <= m.cur && size >= |m.gens[g].slots| && !op.Lookup?
      case NextCas(g, size) => g <= m.cur && size >= |m.gens[g].slots| && !op.Lookup?
      case FreezeRead(g, j) => Copied(m, g, j) && j < |m.gens[g].slots|
      case FreezeCas(g, j, w) => Copied(m, g, j) && j < |m.gens[g].slots| && !w.frozen
      case SealRead(g, j, h) => Copying(m, g, j, h)
      case SealCas(g, j, h, _) => Copying(m, g, j, h)
      case CarryRead(g, j, h, v, q, i) => Carrying(m, g, j, h, v, q) && Passed(m.gens[q], h, i)
      case CarryCas(g, j, h, v, q, i) => Carrying(m, g, j, h, v, q) && Passed(m.gens[q], h, i)
      case CarryIncrement(g, j, h, v, q, i) => Carrying(m, g, j, h, v, q) && Mine(m, q, h, i)
      case CarryInstall(g, j, h, v, q, i) => Carrying(m, g, j, h, v, q) && Mine(m, q, h, i)
      case CarryNext(_, _, _, _, _) => false
      case Swap(g) => g < |m.gens| && Copied(m, g, |m.gens[g].slots|)
  }

  // --------------------------------------------------------- no interference

  lemma MineStays(m: Memory, m': Memory, g: nat, h: nat, i: nat)
    requires Shaped(m) && Shaped(m') && Evolves(m, m') && h != 0 && Mine(m, g, h, i)
    ensures Mine(m', g, h, i)
  {
    assert GenEvolves(m.gens[g], m'.gens[g]);
    assert SlotEvolves(m.gens[g].slots[Pos(m, g, h, i)], m'.gens[g].slots[Pos(m, g, h, i)]);
  }

  lemma PassedStaysAt(m: Memory, m': Memory, g: nat, h: nat, i: nat)
    requires Shaped(m) && Shaped(m') && Evolves(m, m') && g < |m.gens| && Passed(m.gens[g], h, i)
    ensures Passed(m'.gens[g], h, i)
  {
    assert GenEvolves(m.gens[g], m'.gens[g]);
    PassedStays(m.gens[g], m'.gens[g], h, i);
  }

  lemma CopiedStays(m: Memory, m': Memory, g: nat, j: nat)
    requires MemInv(m) && MemInv(m') && Shaped(m) && Shaped(m') && Evolves(m, m') && Copied(m, g, j)
    ensures Copied(m', g, j) && |m'.gens[g].slots| == |m.gens[g].slots|
  {
    var a, b := m.gens[g], m'.gens[g];
    assert GenEvolves(a, b) && GenEvolves(m.gens[g + 1], m'.gens[g + 1]);
    forall k | 0 <= k < j
      ensures Retired(b, k)
      ensures b.slots[k].vw.payload.Live? ==> Settled(m'.gens[g + 1], b.slots[k].hw.hash)
    {
      assert Retired(a, k) && SlotEvolves(a.slots[k], b.slots[k]);
      assert SlotOk(a.slots[k]) by { assert GenOk(a); }
      assert SlotOk(b.slots[k]) by { assert GenOk(b); }
      if b.slots[k].vw.payload.Live? {
        SettledStays(m.gens[g + 1], m'.gens[g + 1], a.slots[k].hw.hash);
      }
    }
  }

  lemma CopyingStays(m: Memory, m': Memory, g: nat, j: nat, h: nat)
    requires MemInv(m) && MemInv(m') && Shaped(m) && Shaped(m') && Evolves(m, m') && Copying(m, g, j, h)
    ensures Copying(m', g, j, h)
  {
    CopiedStays(m, m', g, j);
    assert GenEvolves(m.gens[g], m'.gens[g]);
    assert SlotEvolves(m.gens[g].slots[j], m'.gens[g].slots[j]);
  }

  lemma CarryingStays(m: Memory, m': Memory, g: nat, j: nat, h: nat, v: Value, q: nat)
    requires MemInv(m) && MemInv(m') && Shaped(m) && Shaped(m') && Evolves(m, m') && Carrying(m, g, j, h, v, q)
    ensures Carrying(m', g, j, h, v, q)
  {
    CopyingStays(m, m', g, j, h);
    assert GenEvolves(m.gens[g], m'.gens[g]);
    assert SlotEvolves(m.gens[g].slots[j], m'.gens[g].slots[j]);
  }

  /** What a lookup may still answer from its generation, the map did say during the call. */
  lemma AnswerStays(m: Memory, m': Memory, g: nat, h: nat, seen: set<Option<Value>>)
    requires MemInv(m) && MemInv(m') && Evolves(m, m') && g <= m.cur
    requires Get(Contents(m.gens[g]), h) in seen
    ensures Get(Contents(m'.gens[g]), h) in seen + {Get(Abs(m'), h)}
  {
    if g < m.cur {
      assert GenEvolves(m.gens[g], m'.gens[g]);
      RetiredStays(m.gens[g], m'.gens[g]);
      GenOkSlots(m.gens[g], m'.gens[g]);
    }
  }

  /** A value word that moved on from a non-live `want` did so by holding a live value. */
  lemma LostStays(m: Memory, m': Memory, g: nat, h: nat, i: nat, want: Payload, seen: set<Option<Value>>)
    requires MemInv(m) && MemInv(m') && Shaped(m) && Shaped(m') && Evolves(m, m')
    requires g <= m.cur && h != 0 && Mine(m, g, h, i) && !want.Live?
    requires m.gens[g].slots[Pos(m, g, h, i)].vw.payload != want ==> exists v :: Some(v) in seen
    ensures Size(m', g) == Size(m, g)
    ensures m'.gens[g].slots[Pos(m', g, h, i)].vw.payload != want ==>
              exists v :: Some(v) in seen + {Get(Abs(m'), h)}
  {
    var a, b, k := m.gens[g], m'.gens[g], Pos(m, g, h, i);
    assert GenEvolves(a, b) && SlotEvolves(a.slots[k], b.slots[k]);
    if a.slots[k].vw.payload != want {
      var v :| Some(v) in seen;
      assert Some(v) in seen + {Get(Abs(m'), h)};
    } else if b.slots[k].vw.payload != want {
      if g < m.cur {
        RetiredStays(a, b);
      } else {
        assert m'.cur == g;
        ContentsAt(b, k);
        assert Some(b.slots[k].vw.payload.value) in seen + {Get(Abs(m'), h)};
      }
    }
  }

  predicate IsReader(pc: Pc) { pc.LookProbe? || pc.LookValue? }

  predicate IsWriter(pc: Pc) {
    || pc.ReadCount? || pc.ClaimRead? || pc.ClaimCas? || pc.ClaimIncrement? || pc.ValueRead? || pc.ValueCas?
    || pc.RemoveProbe? || pc.RemoveCas?
  }

  predicate IsCopier(pc: Pc) {
    || pc.NextRead? || pc.NextCas? || pc.FreezeRead? || pc.FreezeCas? || pc.SealRead? || pc.SealCas? || pc.Swap?
  }

  predicate IsCarrier(pc: Pc) {
    pc.CarryRead? || pc.CarryCas? || pc.CarryIncrement? || pc.CarryInstall? || pc.CarryNext?
  }

  ghost predicate Compatible(m: Memory, m': Memory) {
    MemInv(m) && MemInv(m') && Shaped(m) && Shaped(m') && Evolves(m, m')
  }

  lemma StableReader(m: Memory, m': Memory, op: Op, pc: Pc, seen: set<Option<Value>>)
    requires Compatible(m, m') && LocalInv(m, op, pc, seen) && IsReader(pc)
    ensures LocalInv(m', op, pc, seen + {Get(Abs(m'), Hash(op))})
  {
    AnswerStays(m, m', pc.g, Hash(op), seen);
    if pc.LookProbe? { PassedStaysAt(m, m', pc.g, Hash(op), pc.i); } else { MineStays(m, m', pc.g, Hash(op), pc.i); }
  }

  lemma StableWriter(m: Memory, m': Memory, op: Op, pc: Pc, seen: set<Option<Value>>)
    requires Compatible(m, m') && LocalInv(m, op, pc, seen) && IsWriter(pc)
    ensures LocalInv(m', op, pc, seen + {Get(Abs(m'), Hash(op))})
  {
    if pc.ClaimRead? || pc.ClaimCas? || pc.RemoveProbe? {
      PassedStaysAt(m, m', pc.g, Hash(op), pc.i);
    } else if pc.ValueCas? {
      MineStays(m, m', pc.g, Hash(op), pc.i);
      LostStays(m, m', pc.g, Hash(op), pc.i, pc.want, seen);
    } else if !pc.ReadCount? {
      MineStays(m, m', pc.g, Hash(op), pc.i);
    }
  }

  lemma StableFreezer(m: Memory, m': Memory, op: Op, pc: Pc, seen: set<Option<Value>>)
    requires Compatible(m, m') && LocalInv(m, op, pc, seen) && (pc.FreezeRead? || pc.FreezeCas?)
    ensures LocalInv(m', op, pc, seen + {Get(Abs(m'), Hash(op))})
  {
    CopiedStays(m, m', pc.g, pc.j);
  }

  lemma StableSealer(m: Memory, m': Memory, op: Op, pc: Pc, seen: set<Option<Value>>)
    requires Compatible(m, m') && LocalInv(m, op, pc, seen) && (pc.SealRead? || pc.SealCas?)
    ensures LocalInv(m', op, pc, seen + {Get(Abs(m'), Hash(op))})
  {
    CopyingStays(m, m', pc.g, pc.j, pc.h);
  }

  lemma StableCopier(m: Memory, m': Memory, op: Op, pc: Pc, seen: set<Option<Value>>)
    requires Compatible(m, m') && LocalInv(m, op, pc, seen) && IsCopier(pc)
    ensures LocalInv(m', op, pc, seen + {Get(Abs(m'), Hash(op))})
  {
    if pc.FreezeRead? || pc.FreezeCas? {
      StableFreezer(m, m', op, pc, seen);
    } else if pc.SealRead? || pc.SealCas? {
      StableSealer(m, m', op, pc, seen);
    } else if pc.Swap? {
      CopiedStays(m, m', pc.g, |m.gens[pc.g].slots|);
    } else {
      assert GenEvolves(m.gens[pc.g], m'.gens[pc.g]);
    }
  }

  lemma StableCarrier(m: Memory, m': Memory, op: Op, pc: Pc, seen: set<Option<Value>>)
    requires Compatible(m, m') && LocalInv(m, op, pc, seen) && IsCarrier(pc)
    ensures LocalInv(m', op, pc, seen + {Get(Abs(m'), Hash(op))})
  {
    CarryingStays(m, m', pc.g, pc.j, pc.h, pc.v, pc.q);
    if pc.CarryRead? || pc.CarryCas? {
      PassedStaysAt(m, m', pc.q, pc.h, pc.i);
    } else {
      MineStays(m, m', pc.q, pc.h, pc.i);
    }
  }

  /** No step of another thread takes away what a thread knows. */
  lemma Stable(m: Memory, m': Memory, op: Op, pc: Pc, seen: set<Option<Value>>)
    requires Compatible(m, m') && LocalInv(m, op, pc, seen)
    ensures LocalInv(m', op, pc, seen + {Get(Abs(m'), Hash(op))})
  {
    if IsReader(pc) {
      StableReader(m, m', op, pc, seen);
    } else if IsWriter(pc) {
      StableWriter(m, m', op, pc, seen);
    } else if IsCopier(pc) {
      StableCopier(m, m', op, pc, seen);
    } else if IsCarrier(pc) {
      StableCarrier(m, m', op, pc, seen);
    }
  }
}
