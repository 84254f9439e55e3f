/**
 Every step of every hashtable thread keeps the invariants, and touches the
 abstract map at its linearization point only.
 */
module HashtableProof {
  import opened Probing
  import opened Options
  import opened MapSpec
  import opened HashtableModel
  import opened HashtableInvariant
  import opened HashtableActions
  import opened HashtableSteps

  /**
   How result `r` of a call that ends with this step is accounted for: this step
   performs the operation on the map, or it leaves the map alone and the answer is
   the one of some instant of the call.
   */
  ghost predicate Linearized(op: Op, r: Result, a: map<nat, Value>, a': map<nat, Value>, seen: set<Option<Value>>) {
    || Atomic(op, a) == (a', r)
    || (a' == a && exists o :: o in seen && Answers(op, o, r))
  }

  /** What a step from `m` to `m'` owes that leads to `pc'`, when `seen` was seen before it. */
  ghost predicate StepOk(m: Memory, op: Op, seen: set<Option<Value>>, m': Memory, pc': Pc)
    requires Shaped(m)
  {
    && MemInv(m') && Shaped(m') && Evolves(m, m')
    && var seen' := seen + {Get(Abs(m'), Hash(op))};
    && LocalInv(m', op, pc', seen')
    && (if pc'.Done? then Linearized(op, pc'.result, Abs(m), Abs(m'), seen') else Abs(m') == Abs(m))
  }

  /** A thread in the middle of a call. */
  ghost predicate Running(m: Memory, op: Op, seen: set<Option<Value>>) {
    MemInv(m) && Shaped(m) && Legal(op) && Get(Abs(m), Hash(op)) in seen
  }

  // ---------------------------------------------------------------- helpers

  /** A step that only reads. */
  lemma Reads(m: Memory, op: Op, seen: set<Option<Value>>, pc': Pc)
    requires Running(m, op, seen) && LocalInv(m, op, pc', seen) && !pc'.Done?
    ensures StepOk(m, op, seen, m, pc')
  {
    assert seen + {Get(Abs(m), Hash(op))} == seen;
  }

  /** A step that reads and returns an answer. */
  lemma Returns(m: Memory, op: Op, seen: set<Option<Value>>, o: Option<Value>, r: Result)
    requires Running(m, op, seen) && o in seen && Answers(op, o, r)
    ensures StepOk(m, op, seen, m, Done(r))
  {
  }

  /** A write that the map does not notice. */
  lemma WritesQuietly(m: Memory, op: Op, seen: set<Option<Value>>, m': Memory, pc': Pc)
    requires Running(m, op, seen) && MemInv(m') && Shaped(m') && Evolves(m, m') && Abs(m') == Abs(m)
    requires LocalInv(m', op, pc', seen) && !pc'.Done?
    ensures StepOk(m, op, seen, m', pc')
  {
    assert seen + {Get(Abs(m'), Hash(op))} == seen;
  }

  /** The write that performs the operation. */
  lemma Performs(m: Memory, op: Op, seen: set<Option<Value>>, m': Memory, r: Result)
    requires Shaped(m) && Legal(op) && MemInv(m') && Shaped(m') && Evolves(m, m')
    requires Atomic(op, Abs(m)) == (Abs(m'), r)
    ensures StepOk(m, op, seen, m', Done(r))
  {
    var seen' := seen + {Get(Abs(m'), Hash(op))};
    assert LocalInv(m', op, Done(r), seen');
    assert Linearized(op, r, Abs(m), Abs(m'), seen');
  }

  lemma IsShaped(m: Memory)
    requires MemInv(m)
    ensures Shaped(m)
  {
  }

  /** Only the current generation still has slots to write for those who found it in `map->storage`. */
  lemma WritableIsCurrent(m: Memory, g: nat, k: nat)
    requires MemInv(m) && g <= m.cur && k < |m.gens[g].slots| && !Retired(m.gens[g], k)
    ensures g == m.cur
  {
    assert g < m.cur ==> AllRetired(m.gens[g]);
  }

  lemma PassedOneMore(gen: Generation, h: nat, i: nat)
    requires |gen.slots| > 0 && Passed(gen, h, i)
    requires gen.slots[Probe(h, i, |gen.slots|)].hw.hash != 0
    requires gen.slots[Probe(h, i, |gen.slots|)].hw.hash != h
    ensures Passed(gen, h, i + 1)
  {
  }

  lemma Absent(gen: Generation, h: nat, i: nat)
    requires GenOk(gen) && h != 0 && Passed(gen, h, i)
    requires gen.slots[Probe(h, i, |gen.slots|)].hw.hash == 0
    ensures Get(Contents(gen), h) == None
  {
    if h in Contents(gen) {
      ContentsMeaning(gen, h, Contents(gen)[h]);
      var k :| 0 <= k < |gen.slots| && gen.slots[k].hw.hash == h && gen.slots[k].vw.payload == Live(Contents(gen)[h]);
      FreeSlotEndsChain(gen, h, i, k);
    }
  }

  lemma BusyStep(m: Memory, op: Op, seen: set<Option<Value>>, g: nat)
    requires Running(m, op, seen) && g <= m.cur && !op.Lookup?
    ensures StepOk(m, op, seen, m, Busy(m, g))
  {
    Reads(m, op, seen, Busy(m, g));
  }

  // ---------------------------------------------------------------- lookup

  lemma LookProbeStep(m: Memory, op: Op, g: nat, i: nat, seen: set<Option<Value>>)
    requires Running(m, op, seen) && LocalInv(m, op, LookProbe(g, i), seen)
    ensures StepOk(m, op, seen, Step(m, op, LookProbe(g, i)).0, Step(m, op, LookProbe(g, i)).1)
  {
    var gen, h := m.gens[g], Hash(op);
    var found := gen.slots[Pos(m, g, h, i)].hw.hash;
    if found == h {
      Reads(m, op, seen, LookValue(g, i));
    } else if found == 0 {
      Absent(gen, h, i);
      Returns(m, op, seen, None, Found(None));
    } else {
      PassedOneMore(gen, h, i);
      Reads(m, op, seen, LookProbe(g, i + 1));
    }
  }

  lemma LookValueStep(m: Memory, op: Op, g: nat, i: nat, seen: set<Option<Value>>)
    requires Running(m, op, seen) && LocalInv(m, op, LookValue(g, i), seen)
    ensures StepOk(m, op, seen, Step(m, op, LookValue(g, i)).0, Step(m, op, LookValue(g, i)).1)
  {
    ContentsAt(m.gens[g], Pos(m, g, Hash(op), i));
    var o := Get(Contents(m.gens[g]), Hash(op));
    Returns(m, op, seen, o, Found(o));
  }

  // ---------------------------------------------------- insert and register

  lemma ClaimedStep(m: Memory, op: Op, g: nat, i: nat, seen: set<Option<Value>>)
    requires Running(m, op, seen) && Seeking(m, g, Hash(op), i) && (op.Insert? || op.Register?)
    requires m.gens[g].slots[Pos(m, g, Hash(op), i)].hw != HashWord(0, false)
    ensures StepOk(m, op, seen, m, Claimed(m, op, g, i, m.gens[g].slots[Pos(m, g, Hash(op), i)].hw))
  {
    var found := m.gens[g].slots[Pos(m, g, Hash(op), i)].hw;
    if found.frozen {
      BusyStep(m, op, seen, g);
    } else if found.hash == Hash(op) {
      Reads(m, op, seen, ValueRead(g, i));
    } else if i + 1 == Size(m, g) {
      BusyStep(m, op, seen, g);
    } else {
      PassedOneMore(m.gens[g], Hash(op), i);
      Reads(m, op, seen, ClaimRead(g, i + 1));
    }
  }

  lemma ClaimReadStep(m: Memory, op: Op, g: nat, i: nat, seen: set<Option<Value>>)
    requires Running(m, op, seen) && LocalInv(m, op, ClaimRead(g, i), seen)
    ensures StepOk(m, op, seen, Step(m, op, ClaimRead(g, i)).0, Step(m, op, ClaimRead(g, i)).1)
  {
    if m.gens[g].slots[Pos(m, g, Hash(op), i)].hw == HashWord(0, false) {
      Reads(m, op, seen, ClaimCas(g, i));
    } else {
      ClaimedStep(m, op, g, i, seen);
    }
  }

  lemma ClaimWins(m: Memory, op: Op, g: nat, i: nat, seen: set<Option<Value>>, k: nat)
    requires Running(m, op, seen) && Seeking(m, g, Hash(op), i) && (op.Insert? || op.Register?)
    requires k == Pos(m, g, Hash(op), i) && m.gens[g].slots[k].hw == HashWord(0, false)
    ensures StepOk(m, op, seen, WithClaim(m, g, k, Hash(op)), ClaimIncrement(g, i))
  {
    WritableIsCurrent(m, g, k);
    ClaimKeeps(m, g, k, Hash(op), i);
    WritesQuietly(m, op, seen, WithClaim(m, g, k, Hash(op)), ClaimIncrement(g, i));
  }

  lemma ClaimCasStep(m: Memory, op: Op, g: nat, i: nat, seen: set<Option<Value>>)
    requires Running(m, op, seen) && LocalInv(m, op, ClaimCas(g, i), seen)
    ensures StepOk(m, op, seen, Step(m, op, ClaimCas(g, i)).0, Step(m, op, ClaimCas(g, i)).1)
  {
    var k := Pos(m, g, Hash(op), i);
    if m.gens[g].slots[k].hw == HashWord(0, false) {
      ClaimWins(m, op, g, i, seen, k);
    } else {
      ClaimedStep(m, op, g, i, seen);
    }
  }

  lemma ClaimIncrementStep(m: Memory, op: Op, g: nat, i: nat, seen: set<Option<Value>>)
    requires Running(m, op, seen) && LocalInv(m, op, ClaimIncrement(g, i), seen)
    ensures StepOk(m, op, seen, WithIncrement(m, g), ValueRead(g, i))
  {
    IncrementKeeps(m, g);
    IsShaped(WithIncrement(m, g));
    MineStays(m, WithIncrement(m, g), g, Hash(op), i);
    WritesQuietly(m, op, seen, WithIncrement(m, g), ValueRead(g, i));
  }

  lemma JudgedStep(m: Memory, op: Op, g: nat, i: nat, seen: set<Option<Value>>)
    requires Running(m, op, seen) && (op.Insert? || op.Register?) && g <= m.cur && Mine(m, g, Hash(op), i)
    ensures StepOk(m, op, seen, m, Judged(m, op, g, i, m.gens[g].slots[Pos(m, g, Hash(op), i)].vw))
  {
    var k := Pos(m, g, Hash(op), i);
    var found := m.gens[g].slots[k].vw;
    if found.sealed {
      BusyStep(m, op, seen, g);
    } else if found.payload.Live? {
      WritableIsCurrent(m, g, k);
      ContentsAt(m.gens[g], k);
      Returns(m, op, seen, Some(found.payload.value),
              if op.Insert? then Exists else Registered(Some(found.payload.value)));
    } else {
      Reads(m, op, seen, ValueCas(g, i, found.payload));
    }
  }

  lemma ValueCasWins(m: Memory, op: Op, seen: set<Option<Value>>, k: nat)
    requires Running(m, op, seen) && (op.Insert? || op.Register?)
    requires k < |m.gens[m.cur].slots| && m.gens[m.cur].slots[k].hw.hash == Hash(op)
    requires !m.gens[m.cur].slots[k].vw.sealed && !m.gens[m.cur].slots[k].vw.payload.Live?
    ensures StepOk(m, op, seen, WithValue(m, m.cur, k, Val(op)), Done(if op.Insert? then Ok else Registered(None)))
  {
    BindKeeps(m, k, Val(op).value);
    IsShaped(WithValue(m, m.cur, k, Val(op)));
    Performs(m, op, seen, WithValue(m, m.cur, k, Val(op)), if op.Insert? then Ok else Registered(None));
  }

  lemma ValueCasStep(m: Memory, op: Op, g: nat, i: nat, want: Payload, seen: set<Option<Value>>)
    requires Running(m, op, seen) && LocalInv(m, op, ValueCas(g, i, want), seen)
    ensures StepOk(m, op, seen, Step(m, op, ValueCas(g, i, want)).0, Step(m, op, ValueCas(g, i, want)).1)
  {
    var k := Pos(m, g, Hash(op), i);
    var found := m.gens[g].slots[k].vw;
    if found == ValueWord(want, false) {
      WritableIsCurrent(m, g, k);
      ValueCasWins(m, op, seen, k);
    } else if op.Insert? && !found.sealed {
      var v :| Some(v) in seen;
      Returns(m, op, seen, Some(v), Exists);
    } else {
      JudgedStep(m, op, g, i, seen);
    }
  }

  // ---------------------------------------------------------------- remove

  lemma RemoveProbeStep(m: Memory, op: Op, g: nat, i: nat, seen: set<Option<Value>>)
    requires Running(m, op, seen) && LocalInv(m, op, RemoveProbe(g, i), seen)
    ensures StepOk(m, op, seen, Step(m, op, RemoveProbe(g, i)).0, Step(m, op, RemoveProbe(g, i)).1)
  {
    var gen, h := m.gens[g], Hash(op);
    var found := gen.slots[Pos(m, g, h, i)].hw;
    if found == HashWord(0, false) {
      WritableIsCurrent(m, g, Pos(m, g, h, i));
      Absent(gen, h, i);
      Returns(m, op, seen, None, NoEntry);
    } else if found.frozen {
      BusyStep(m, op, seen, g);
    } else if found.hash == h {
      Reads(m, op, seen, RemoveCas(g, i));
    } else {
      PassedOneMore(gen, h, i);
      Reads(m, op, seen, RemoveProbe(g, i + 1));
    }
  }

  lemma RemoveCasWins(m: Memory, op: Op, seen: set<Option<Value>>, k: nat)
    requires Running(m, op, seen) && op.Remove?
    requires k < |m.gens[m.cur].slots| && m.gens[m.cur].slots[k].hw.hash == Hash(op)
    requires m.gens[m.cur].slots[k].vw == ValueWord(Val(op), false)
    ensures StepOk(m, op, seen, WithValue(m, m.cur, k, Tomb), Done(Ok))
  {
    UnbindKeeps(m, k);
    IsShaped(WithValue(m, m.cur, k, Tomb));
    Performs(m, op, seen, WithValue(m, m.cur, k, Tomb), Ok);
  }

  lemma RemoveCasStep(m: Memory, op: Op, g: nat, i: nat, seen: set<Option<Value>>)
    requires Running(m, op, seen) && LocalInv(m, op, RemoveCas(g, i), seen)
    ensures StepOk(m, op, seen, Step(m, op, RemoveCas(g, i)).0, Step(m, op, RemoveCas(g, i)).1)
  {
    var k := Pos(m, g, Hash(op), i);
    var found := m.gens[g].slots[k].vw;
    if found.sealed {
      BusyStep(m, op, seen, g);
    } else {
      WritableIsCurrent(m, g, k);
      if found == ValueWord(Val(op), false) {
        RemoveCasWins(m, op, seen, k);
      } else {
        ContentsAt(m.gens[g], k);
        Returns(m, op, seen, Get(Abs(m), Hash(op)), NoEntry);
      }
    }
  }

  // ------------------------------------------------------------- migration

  lemma CopyStarts(m: Memory, op: Op, seen: set<Option<Value>>, g: nat)
    requires Running(m, op, seen) && g <= m.cur && g + 1 < |m.gens|
    ensures LocalInv(m, op, CopyFrom(m, g, 0), seen) && !CopyFrom(m, g, 0).Done?
  {
  }

  lemma NextReadStep(m: Memory, op: Op, g: nat, size: nat, seen: set<Option<Value>>)
    requires Running(m, op, seen) && LocalInv(m, op, NextRead(g, size), seen)
    ensures StepOk(m, op, seen, Step(m, op, NextRead(g, size)).0, Step(m, op, NextRead(g, size)).1)
  {
    if g + 1 < |m.gens| {
      CopyStarts(m, op, seen, g);
      Reads(m, op, seen, CopyFrom(m, g, 0));
    } else {
      Reads(m, op, seen, NextCas(g, size));
    }
  }

  lemma NextCasStep(m: Memory, op: Op, g: nat, size: nat, seen: set<Option<Value>>)
    requires Running(m, op, seen) && LocalInv(m, op, NextCas(g, size), seen)
    ensures StepOk(m, op, seen, Step(m, op, NextCas(g, size)).0, Step(m, op, NextCas(g, size)).1)
  {
    if g + 1 < |m.gens| {
      CopyStarts(m, op, seen, g);
      Reads(m, op, seen, CopyFrom(m, g, 0));
    } else {
      var m' := m.(gens := m.gens + [Fresh(size)]);
      PublishKeeps(m, size);
      IsShaped(m');
      CopyStarts(m', op, seen, g);
      WritesQuietly(m, op, seen, m', CopyFrom(m', g, 0));
    }
  }

  /** One more slot is done once it is retired and, if live, settled in the successor. */
  lemma CopiedOneMore(m: Memory, op: Op, seen: set<Option<Value>>, g: nat, j: nat)
    requires Running(m, op, seen) && Copied(m, g, j) && j < |m.gens[g].slots| && Retired(m.gens[g], j)
    requires m.gens[g].slots[j].vw.payload.Live? ==> Settled(m.gens[g + 1], m.gens[g].slots[j].hw.hash)
    ensures LocalInv(m, op, CopyFrom(m, g, j + 1), seen) && !CopyFrom(m, g, j + 1).Done?
  {
  }

  lemma FrozenNext(m: Memory, op: Op, seen: set<Option<Value>>, g: nat, j: nat)
    requires Running(m, op, seen) && Copied(m, g, j) && j < |m.gens[g].slots| && m.gens[g].slots[j].hw.frozen
    ensures var pc' := FrozenWith(m, g, j, m.gens[g].slots[j].hw.hash);
            LocalInv(m, op, pc', seen) && !pc'.Done?
  {
    if m.gens[g].slots[j].hw.hash == 0 {
      assert SlotOk(m.gens[g].slots[j]) by { assert GenOk(m.gens[g]); }
      CopiedOneMore(m, op, seen, g, j);
    }
  }

  lemma FreezeReadStep(m: Memory, op: Op, g: nat, j: nat, seen: set<Option<Value>>)
    requires Running(m, op, seen) && LocalInv(m, op, FreezeRead(g, j), seen)
    ensures StepOk(m, op, seen, Step(m, op, FreezeRead(g, j)).0, Step(m, op, FreezeRead(g, j)).1)
  {
    var found := m.gens[g].slots[j].hw;
    if found.frozen {
      FrozenNext(m, op, seen, g, j);
      Reads(m, op, seen, FrozenWith(m, g, j, found.hash));
    } else {
      Reads(m, op, seen, FreezeCas(g, j, found));
    }
  }

  lemma FreezeWins(m: Memory, op: Op, seen: set<Option<Value>>, g: nat, j: nat)
    requires Running(m, op, seen) && Copied(m, g, j) && j < |m.gens[g].slots| && !m.gens[g].slots[j].hw.frozen
    ensures StepOk(m, op, seen, WithFreeze(m, g, j), FrozenWith(m, g, j, m.gens[g].slots[j].hw.hash))
  {
    var m' := WithFreeze(m, g, j);
    WritableIsCurrent(m, g, j);
    FreezeKeeps(m, j);
    IsShaped(m');
    CopiedStays(m, m', g, j);
    FrozenNext(m', op, seen, g, j);
    WritesQuietly(m, op, seen, m', FrozenWith(m, g, j, m.gens[g].slots[j].hw.hash));
  }

  lemma FreezeCasStep(m: Memory, op: Op, g: nat, j: nat, w: HashWord, seen: set<Option<Value>>)
    requires Running(m, op, seen) && LocalInv(m, op, FreezeCas(g, j, w), seen)
    ensures StepOk(m, op, seen, Step(m, op, FreezeCas(g, j, w)).0, Step(m, op, FreezeCas(g, j, w)).1)
  {
    if m.gens[g].slots[j].hw == w {
      FreezeWins(m, op, seen, g, j);
    } else {
      Reads(m, op, seen, FreezeRead(g, j));
    }
  }

  lemma SealedNext(m: Memory, op: Op, seen: set<Option<Value>>, g: nat, j: nat, h: nat)
    requires Running(m, op, seen) && Copying(m, g, j, h) && m.gens[g].slots[j].vw.sealed
    ensures var pc' := SealedWith(m, g, j, h, m.gens[g].slots[j].vw.payload);
            LocalInv(m, op, pc', seen) && !pc'.Done?
  {
    if !m.gens[g].slots[j].vw.payload.Live? {
      CopiedOneMore(m, op, seen, g, j);
    }
  }

  lemma SealReadStep(m: Memory, op: Op, g: nat, j: nat, h: nat, seen: set<Option<Value>>)
    requires Running(m, op, seen) && LocalInv(m, op, SealRead(g, j, h), seen)
    ensures StepOk(m, op, seen, Step(m, op, SealRead(g, j, h)).0, Step(m, op, SealRead(g, j, h)).1)
  {
    var found := m.gens[g].slots[j].vw;
    if found.sealed {
      SealedNext(m, op, seen, g, j, h);
      Reads(m, op, seen, SealedWith(m, g, j, h, found.payload));
    } else {
      Reads(m, op, seen, SealCas(g, j, h, found.payload));
    }
  }

  lemma SealWins(m: Memory, op: Op, seen: set<Option<Value>>, g: nat, j: nat, h: nat)
    requires Running(m, op, seen) && Copying(m, g, j, h) && !m.gens[g].slots[j].vw.sealed
    ensures StepOk(m, op, seen, WithSeal(m, g, j), SealedWith(m, g, j, h, m.gens[g].slots[j].vw.payload))
  {
    var m' := WithSeal(m, g, j);
    WritableIsCurrent(m, g, j);
    SealKeeps(m, j);
    IsShaped(m');
    CopyingStays(m, m', g, j, h);
    SealedNext(m', op, seen, g, j, h);
    WritesQuietly(m, op, seen, m', SealedWith(m, g, j, h, m.gens[g].slots[j].vw.payload));
  }

  lemma SealCasStep(m: Memory, op: Op, g: nat, j: nat, h: nat, want: Payload, seen: set<Option<Value>>)
    requires Running(m, op, seen) && LocalInv(m, op, SealCas(g, j, h, want), seen)
    ensures StepOk(m, op, seen, Step(m, op, SealCas(g, j, h, want)).0, Step(m, op, SealCas(g, j, h, want)).1)
  {
    if m.gens[g].slots[j].vw == ValueWord(want, false) {
      SealWins(m, op, seen, g, j, h);
    } else {
      Reads(m, op, seen, SealRead(g, j, h));
    }
  }

  /** When copy is through with the current generation, `map->storage` may move on unnoticed. */
  lemma SwapWins(m: Memory)
    requires MemInv(m) && Shaped(m) && Copied(m, m.cur, |m.gens[m.cur].slots|)
    ensures var m' := m.(cur := m.cur + 1);
            MemInv(m') && Shaped(m') && Evolves(m, m') && Abs(m') == Abs(m)
  {
    AdvanceKeeps(m);
  }

  lemma SwapStep(m: Memory, op: Op, g: nat, seen: set<Option<Value>>)
    requires Running(m, op, seen) && LocalInv(m, op, Swap(g), seen)
    ensures StepOk(m, op, seen, Step(m, op, Swap(g)).0, Step(m, op, Swap(g)).1)
  {
    if m.cur == g {
      SwapWins(m);
      var m' := m.(cur := m.cur + 1);
      if op.MigrateSameSize? {
        Performs(m, op, seen, m', Ok);
      } else {
        WritesQuietly(m, op, seen, m', ReadStorage);
      }
    } else if op.MigrateSameSize? {
      Returns(m, op, seen, Get(Abs(m), Hash(op)), Ok);
    } else {
      Reads(m, op, seen, ReadStorage);
    }
  }

  // ----------------------------------------------------------------- carry

  /** A binding of an older generation has reached the next one. */
  lemma StaleIsSettled(m: Memory, g: nat, j: nat, h: nat, v: Value, q: nat)
    requires MemInv(m) && Shaped(m) && Carrying(m, g, j, h, v, q) && g < m.cur
    ensures Settled(m.gens[q], h)
  {
    assert CarriedOver(m.gens[g], m.gens[g + 1]);
  }

  /** carry never meets a frozen free slot, and it claims in a pending successor only. */
  lemma CarryMeets(m: Memory, g: nat, j: nat, h: nat, v: Value, q: nat, i: nat)
    requires MemInv(m) && Shaped(m) && Carrying(m, g, j, h, v, q) && Passed(m.gens[q], h, i)
    ensures var found := m.gens[q].slots[Pos(m, q, h, i)].hw;
            found.hash == 0 ==> !found.frozen && g == m.cur
  {
    if g < m.cur {
      StaleIsSettled(m, g, j, h, v, q);
      var k :| 0 <= k < |m.gens[q].slots| && m.gens[q].slots[k].hw.hash == h && m.gens[q].slots[k].vw.payload != Empty;
      OwnerMetFirst(m.gens[q], h, i, k);
    }
  }

  /** carry never meets a sealed empty word, and it installs in a pending successor only. */
  lemma CarryFinds(m: Memory, g: nat, j: nat, h: nat, v: Value, q: nat, i: nat)
    requires MemInv(m) && Shaped(m) && Carrying(m, g, j, h, v, q) && Mine(m, q, h, i)
    ensures var found := m.gens[q].slots[Pos(m, q, h, i)].vw;
            found.payload == Empty ==> !found.sealed && g == m.cur
  {
    var k := Pos(m, q, h, i);
    if g < m.cur {
      StaleIsSettled(m, g, j, h, v, q);
      var l :| 0 <= l < |m.gens[q].slots| && m.gens[q].slots[l].hw.hash == h && m.gens[q].slots[l].vw.payload != Empty;
      OneSlotPerHash(m.gens[q], k, l);
    } else {
      assert SlotOk(m.gens[q].slots[k]) by { assert GenOk(m.gens[q]); }
    }
  }

  lemma CarryClaimedStep(m: Memory, op: Op, g: nat, j: nat, h: nat, v: Value, q: nat, i: nat, seen: set<Option<Value>>)
    requires Running(m, op, seen) && Carrying(m, g, j, h, v, q) && Passed(m.gens[q], h, i)
    requires m.gens[q].slots[Pos(m, q, h, i)].hw != HashWord(0, false)
    ensures StepOk(m, op, seen, m, CarryClaimed(g, j, h, v, q, i, m.gens[q].slots[Pos(m, q, h, i)].hw))
  {
    CarryMeets(m, g, j, h, v, q, i);
    if m.gens[q].slots[Pos(m, q, h, i)].hw.hash == h {
      Reads(m, op, seen, CarryInstall(g, j, h, v, q, i));
    } else {
      PassedOneMore(m.gens[q], h, i);
      Reads(m, op, seen, CarryRead(g, j, h, v, q, i + 1));
    }
  }

  lemma CarryReadStep(m: Memory, op: Op, g: nat, j: nat, h: nat, v: Value, q: nat, i: nat, seen: set<Option<Value>>)
    requires Running(m, op, seen) && LocalInv(m, op, CarryRead(g, j, h, v, q, i), seen)
    ensures StepOk(m, op, seen, Step(m, op, CarryRead(g, j, h, v, q, i)).0, Step(m, op, CarryRead(g, j, h, v, q, i)).1)
  {
    if m.gens[q].slots[Pos(m, q, h, i)].hw == HashWord(0, false) {
      Reads(m, op, seen, CarryCas(g, j, h, v, q, i));
    } else {
      CarryClaimedStep(m, op, g, j, h, v, q, i, seen);
    }
  }

  lemma CarryCasWins(m: Memory, op: Op, g: nat, j: nat, h: nat, v: Value, q: nat, i: nat, seen: set<Option<Value>>, k: nat)
    requires Running(m, op, seen) && Carrying(m, g, j, h, v, q) && Passed(m.gens[q], h, i)
    requires k == Pos(m, q, h, i) && m.gens[q].slots[k].hw == HashWord(0, false)
    ensures StepOk(m, op, seen, WithClaim(m, q, k, h), CarryIncrement(g, j, h, v, q, i))
  {
    var m' := WithClaim(m, q, k, h);
    CarryMeets(m, g, j, h, v, q, i);
    assert Source(m.gens[g], h, v);
    ClaimKeeps(m, q, k, h, i);
    IsShaped(m');
    CarryingStays(m, m', g, j, h, v, q);
    WritesQuietly(m, op, seen, m', CarryIncrement(g, j, h, v, q, i));
  }

  lemma CarryCasStep(m: Memory, op: Op, g: nat, j: nat, h: nat, v: Value, q: nat, i: nat, seen: set<Option<Value>>)
    requires Running(m, op, seen) && LocalInv(m, op, CarryCas(g, j, h, v, q, i), seen)
    ensures StepOk(m, op, seen, Step(m, op, CarryCas(g, j, h, v, q, i)).0, Step(m, op, CarryCas(g, j, h, v, q, i)).1)
  {
    var k := Pos(m, q, h, i);
    if m.gens[q].slots[k].hw == HashWord(0, false) {
      CarryCasWins(m, op, g, j, h, v, q, i, seen, k);
    } else {
      CarryClaimedStep(m, op, g, j, h, v, q, i, seen);
    }
  }

  lemma CarryIncrementStep(m: Memory, op: Op, g: nat, j: nat, h: nat, v: Value, q: nat, i: nat, seen: set<Option<Value>>)
    requires Running(m, op, seen) && Carrying(m, g, j, h, v, q) && Mine(m, q, h, i)
    ensures StepOk(m, op, seen, WithIncrement(m, q), CarryInstall(g, j, h, v, q, i))
  {
    var m' := WithIncrement(m, q);
    IncrementKeeps(m, q);
    IsShaped(m');
    CarryingStays(m, m', g, j, h, v, q);
    MineStays(m, m', q, h, i);
    WritesQuietly(m, op, seen, m', CarryInstall(g, j, h, v, q, i));
  }

  lemma CarryInstallWins(m: Memory, op: Op, g: nat, j: nat, h: nat, v: Value, q: nat, i: nat, seen: set<Option<Value>>, k: nat)
    requires Running(m, op, seen) && Carrying(m, g, j, h, v, q) && Mine(m, q, h, i)
    requires k == Pos(m, q, h, i) && m.gens[q].slots[k].vw == ValueWord(Empty, false)
    ensures StepOk(m, op, seen, WithValue(m, q, k, Live(v)), CopyFrom(m, g, j + 1))
  {
    var m' := WithValue(m, q, k, Live(v));
    CarryFinds(m, g, j, h, v, q, i);
    assert Source(m.gens[g], h, v);
    InstallKeeps(m, k, v);
    IsShaped(m');
    CarryingStays(m, m', g, j, h, v, q);
    assert m'.gens[q].slots[k].hw.hash == h && m'.gens[q].slots[k].vw.payload != Empty;
    CopiedOneMore(m', op, seen, g, j);
    WritesQuietly(m, op, seen, m', CopyFrom(m, g, j + 1));
  }

  lemma CarryInstallLoses(m: Memory, op: Op, g: nat, j: nat, h: nat, v: Value, q: nat, i: nat, seen: set<Option<Value>>)
    requires Running(m, op, seen) && Carrying(m, g, j, h, v, q) && Mine(m, q, h, i)
    requires m.gens[q].slots[Pos(m, q, h, i)].vw.payload != Empty
    ensures StepOk(m, op, seen, m, CopyFrom(m, g, j + 1))
  {
    CopiedOneMore(m, op, seen, g, j);
    Reads(m, op, seen, CopyFrom(m, g, j + 1));
  }

  lemma CarryInstallStep(m: Memory, op: Op, g: nat, j: nat, h: nat, v: Value, q: nat, i: nat, seen: set<Option<Value>>)
    requires Running(m, op, seen) && LocalInv(m, op, CarryInstall(g, j, h, v, q, i), seen)
    ensures StepOk(m, op, seen, Step(m, op, CarryInstall(g, j, h, v, q, i)).0, Step(m, op, CarryInstall(g, j, h, v, q, i)).1)
  {
    var k := Pos(m, q, h, i);
    if m.gens[q].slots[k].vw == ValueWord(Empty, false) {
      CarryInstallWins(m, op, g, j, h, v, q, i, seen, k);
    } else {
      CarryFinds(m, g, j, h, v, q, i);
      CarryInstallLoses(m, op, g, j, h, v, q, i, seen);
    }
  }

  // -------------------------------------------------------------- all steps

  /** The locals of a thread always name memory that exists, so its next step is defined. */
  lemma NeverStuck(m: Memory, op: Op, pc: Pc, seen: set<Option<Value>>)
    requires MemInv(m) && Shaped(m) && LocalInv(m, op, pc, seen)
    ensures PcOk(m, pc)
  {
  }

  lemma FirstStep(m: Memory, op: Op, seen: set<Option<Value>>)
    requires Running(m, op, seen)
    ensures StepOk(m, op, seen, m, Dispatch(m, op))
  {
    Reads(m, op, seen, Dispatch(m, op));
  }

  lemma WriterStep(m: Memory, op: Op, pc: Pc, seen: set<Option<Value>>)
    requires Running(m, op, seen) && LocalInv(m, op, pc, seen) && PcOk(m, pc) && IsWriter(pc)
    ensures StepOk(m, op, seen, Step(m, op, pc).0, Step(m, op, pc).1)
  {
    match pc
    case ReadCount(g) =>
      if m.gens[g].nHashs >= Size(m, g) - Size(m, g) / 2 {
        BusyStep(m, op, seen, g);
      } else {
        Reads(m, op, seen, ClaimRead(g, 0));
      }
    case ClaimRead(g, i) => ClaimReadStep(m, op, g, i, seen);
    case ClaimCas(g, i) => ClaimCasStep(m, op, g, i, seen);
    case ClaimIncrement(g, i) => ClaimIncrementStep(m, op, g, i, seen);
    case ValueRead(g, i) => JudgedStep(m, op, g, i, seen);
    case ValueCas(g, i, want) => ValueCasStep(m, op, g, i, want, seen);
    case RemoveProbe(g, i) => RemoveProbeStep(m, op, g, i, seen);
    case RemoveCas(g, i) => RemoveCasStep(m, op, g, i, seen);
  }

  lemma CopierStep(m: Memory, op: Op, pc: Pc, seen: set<Option<Value>>)
    requires Running(m, op, seen) && LocalInv(m, op, pc, seen) && PcOk(m, pc) && IsCopier(pc)
    ensures StepOk(m, op, seen, Step(m, op, pc).0, Step(m, op, pc).1)
  {
    match pc
    case NextRead(g, size) => NextReadStep(m, op, g, size, seen);
    case NextCas(g, size) => NextCasStep(m, op, g, size, seen);
    case FreezeRead(g, j) => FreezeReadStep(m, op, g, j, seen);
    case FreezeCas(g, j, w) => FreezeCasStep(m, op, g, j, w, seen);
    case SealRead(g, j, h) => SealReadStep(m, op, g, j, h, seen);
    case SealCas(g, j, h, want) => SealCasStep(m, op, g, j, h, want, seen);
    case Swap(g) => SwapStep(m, op, g, seen);
  }

  lemma CarrierStep(m: Memory, op: Op, pc: Pc, seen: set<Option<Value>>)
    requires Running(m, op, seen) && LocalInv(m, op, pc, seen) && PcOk(m, pc) && IsCarrier(pc)
    ensures StepOk(m, op, seen, Step(m, op, pc).0, Step(m, op, pc).1)
  {
    if pc.CarryRead? {
      CarryReadStep(m, op, pc.g, pc.j, pc.h, pc.v, pc.q, pc.i, seen);
    } else if pc.CarryCas? {
      CarryCasStep(m, op, pc.g, pc.j, pc.h, pc.v, pc.q, pc.i, seen);
    } else if pc.CarryIncrement? {
      CarryIncrementStep(m, op, pc.g, pc.j, pc.h, pc.v, pc.q, pc.i, seen);
    } else {
      CarryInstallStep(m, op, pc.g, pc.j, pc.h, pc.v, pc.q, pc.i, seen);
    }
  }

  lemma EveryStep(m: Memory, op: Op, pc: Pc, seen: set<Option<Value>>)
    requires MemInv(m) && Shaped(m) && LocalInv(m, op, pc, seen) && PcOk(m, pc) && !pc.Idle? && !pc.Done?
    ensures StepOk(m, op, seen, Step(m, op, pc).0, Step(m, op, pc).1)
  {
    if IsWriter(pc) {
      WriterStep(m, op, pc, seen);
    } else if IsCopier(pc) {
      CopierStep(m, op, pc, seen);
    } else if IsCarrier(pc) {
      CarrierStep(m, op, pc, seen);
    } else if pc.LookProbe? {
      LookProbeStep(m, op, pc.g, pc.i, seen);
    } else if pc.LookValue? {
      LookValueStep(m, op, pc.g, pc.i, seen);
    } else {
      FirstStep(m, op, seen);
    }
  }
}
