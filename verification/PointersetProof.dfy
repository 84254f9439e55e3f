/**
 What each thread of the pointer set knows, that no other thread can take that away,
 and what each step does to the set. In particular: copy may ignore what its register
 answers.
 */
module PointersetProof {
  import opened Probing
  import opened Counting
  import opened MapSpec
  import opened PointersetModel
  import opened PointersetInvariant

  // ------------------------------------------------------------ local knowledge

  /** The set still has what it had at the start of the call. */
  ghost predicate Below(a: map<nat, Value>, m: Memory)
    requires m.cur < |m.gens|
  {
    forall p: nat :: p in a ==> Contains(m, p)
  }

  ghost predicate Seeking(m: Memory, g: nat, p: nat, i: nat)
    requires Shaped(m)
  {
    g < |m.gens| && i < Size(m, g) && Passed(m.gens[g], p, i)
  }

  /** copy is through with the first `j` slots. */
  ghost predicate JobOk(m: Memory, job: Job)
    requires Shaped(m)
  {
    && job.g <= m.cur && job.g < job.q < |m.gens| && !m.gens[job.g].constant && job.j <= Size(m, job.g)
    && (forall k :: 0 <= k < job.j ==> m.gens[job.g].slots[k].redirected)
  }

  ghost predicate JobAt(m: Memory, job: Job, p: nat)
    requires Shaped(m)
  {
    JobOk(m, job) && job.j < Size(m, job.g) && p != 0 && m.gens[job.g].slots[job.j].owner == p
  }

  /** The pointer goes to the immediate successor, which has it if it is or was current. */
  ghost predicate PutOk(m: Memory, job: Job, p: nat)
    requires Shaped(m)
  {
    JobAt(m, job, p) && job.q == job.g + 1 && (job.q <= m.cur ==> Has(m.gens[job.q], p))
  }

  ghost predicate RetireOk(m: Memory, job: Job, p: nat)
    requires Shaped(m)
  {
    JobAt(m, job, p) && (job.g == m.cur ==> HasPending(m) && Has(m.gens[m.cur + 1], p))
  }

  ghost predicate MigrationInv(m: Memory, pc: Pc)
    requires Shaped(m)
  {
    match pc
    case ReadStorage => true
    case MigrateCheck(g) => g <= m.cur
    case NextRead(g) => g <= m.cur
    case NextCas(g) => g <= m.cur
    case CopyRead(job) => JobOk(m, job)
    case CopyFreeze(job) => JobOk(m, job) && job.j < Size(m, job.g)
    case PutRead(job, p, i) => PutOk(m, job, p) && Seeking(m, job.q, p, i)
    case PutCas(job, p, i) => PutOk(m, job, p) && Seeking(m, job.q, p, i)
    case PutIncrement(job, p) => RetireOk(m, job, p)
    case Retire(job, p) => RetireOk(m, job, p)
    case Swap(job) => job.g <= m.cur && job.g < job.q < |m.gens| && AllRedirected(m.gens[job.g])
    case _ => false
  }

  predicate InCall(pc: Pc) {
    pc.ReadStorage? || pc.MemberProbe? || pc.ReadCount? || pc.RegisterRead? || pc.RegisterCas?
  }

  ghost predicate CallInv(m: Memory, op: Op, pc: Pc, a: map<nat, Value>)
    requires Shaped(m) && InCall(pc)
  {
    var p := Hash(op);
    match pc
    case ReadStorage => true
    case MemberProbe(g, i) => op.Lookup? && g <= m.cur && Seeking(m, g, p, i) && (p in a ==> Has(m.gens[g], p))
    case ReadCount(g) => !op.Lookup? && g <= m.cur
    case RegisterRead(g, i) => !op.Lookup? && g <= m.cur && Seeking(m, g, p, i) && !m.gens[g].constant
    case RegisterCas(g, i) => !op.Lookup? && g <= m.cur && Seeking(m, g, p, i) && !m.gens[g].constant
  }

  /** What a thread knows; `a` is the set at the start of its call. */
  ghost predicate LocalInv(m: Memory, op: Op, pc: Pc, a: map<nat, Value>)
    requires Shaped(m)
  {
    pc.Idle? ||
    (&& Below(a, m)
     && (if pc.Done? then pc.counts.Some? ==> pc.counts.value < |m.gens|
         else Legal(op) && OnPointer(op) && if InCall(pc) then CallInv(m, op, pc, a) else MigrationInv(m, pc)))
  }

  // ------------------------------------------------------------------ stability

  ghost predicate Compatible(m: Memory, m': Memory) {
    MemInv(m) && MemInv(m') && Shaped(m) && Shaped(m') && Evolves(m, m')
  }

  lemma SeekingStays(m: Memory, m': Memory, g: nat, p: nat, i: nat)
    requires Compatible(m, m') && Seeking(m, g, p, i)
    ensures Seeking(m', g, p, i) && m'.gens[g].constant == m.gens[g].constant
  {
    assert GenLater(m.gens[g], m'.gens[g]);
    PassedStays(m.gens[g], m'.gens[g], p, i);
  }

  lemma HasStaysAt(m: Memory, m': Memory, g: nat, p: nat)
    requires Compatible(m, m') && g < |m.gens| && p != 0 && Has(m.gens[g], p)
    ensures Has(m'.gens[g], p)
  {
    assert GenLater(m.gens[g], m'.gens[g]);
    HasStays(m.gens[g], m'.gens[g], p);
  }

  lemma JobStays(m: Memory, m': Memory, job: Job)
    requires Compatible(m, m') && JobOk(m, job)
    ensures JobOk(m', job) && Size(m', job.g) == Size(m, job.g)
  {
    assert GenLater(m.gens[job.g], m'.gens[job.g]);
    forall k | 0 <= k < job.j ensures m'.gens[job.g].slots[k].redirected {
      assert SlotLater(m.gens[job.g].slots[k], m'.gens[job.g].slots[k]);
    }
  }

  lemma JobAtStays(m: Memory, m': Memory, job: Job, p: nat)
    requires Compatible(m, m') && JobAt(m, job, p)
    ensures JobAt(m', job, p)
  {
    JobStays(m, m', job);
    assert GenLater(m.gens[job.g], m'.gens[job.g]);
    assert SlotLater(m.gens[job.g].slots[job.j], m'.gens[job.g].slots[job.j]);
  }

  lemma PutStays(m: Memory, m': Memory, job: Job, p: nat)
    requires Compatible(m, m') && PutOk(m, job, p)
    ensures PutOk(m', job, p)
  {
    JobAtStays(m, m', job, p);
    if job.q <= m.cur {
      HasStaysAt(m, m', job.q, p);
    } else if job.q == m'.cur {
      assert Contains(m, p);
      assert Contains(m', p);
    }
  }

  lemma RetireStays(m: Memory, m': Memory, job: Job, p: nat)
    requires Compatible(m, m') && RetireOk(m, job, p)
    ensures RetireOk(m', job, p)
  {
    JobAtStays(m, m', job, p);
    if job.g == m'.cur { HasStaysAt(m, m', m.cur + 1, p); }
  }

  lemma MigrationStays(m: Memory, m': Memory, pc: Pc)
    requires Compatible(m, m') && MigrationInv(m, pc)
    ensures MigrationInv(m', pc)
  {
    match pc
    case CopyRead(job) => JobStays(m, m', job);
    case CopyFreeze(job) => JobStays(m, m', job);
    case PutRead(job, p, i) => PutStays(m, m', job, p); SeekingStays(m, m', job.q, p, i);
    case PutCas(job, p, i) => PutStays(m, m', job, p); SeekingStays(m, m', job.q, p, i);
    case PutIncrement(job, p) => RetireStays(m, m', job, p);
    case Retire(job, p) => RetireStays(m, m', job, p);
    case Swap(job) =>
      assert GenLater(m.gens[job.g], m'.gens[job.g]);
      assert forall k :: 0 <= k < Size(m, job.g) ==> SlotLater(m.gens[job.g].slots[k], m'.gens[job.g].slots[k]);
    case _ =>
  }

  /** No step of another thread takes away what a thread knows. */
  lemma Stable(m: Memory, m': Memory, op: Op, pc: Pc, a: map<nat, Value>)
    requires Compatible(m, m') && LocalInv(m, op, pc, a)
    ensures LocalInv(m', op, pc, a)
  {
    if InCall(pc) {
      if pc.MemberProbe? || pc.RegisterRead? || pc.RegisterCas? {
        SeekingStays(m, m', pc.g, Hash(op), pc.i);
        if Has(m.gens[pc.g], Hash(op)) { HasStaysAt(m, m', pc.g, Hash(op)); }
      }
    } else if !pc.Idle? && !pc.Done? {
      MigrationStays(m, m', pc);
    }
  }

  // --------------------------------------------------------------- what a step does

  ghost predicate Adds(m: Memory, p: nat, m': Memory)
    requires m.cur < |m.gens| && m'.cur < |m'.gens|
  {
    !Contains(m, p) && forall q: nat :: Contains(m', q) <==> Contains(m, q) || q == p
  }

  /** The answer is that of the set at the start of the call, or now; or the step performs the operation. */
  ghost predicate Answered(m: Memory, op: Op, a: map<nat, Value>, m': Memory, r: Result)
    requires m.cur < |m.gens| && m'.cur < |m'.gens|
  {
    var p := Hash(op);
    match r
    case Found(None) => op.Lookup? && p !in a && Same(m, m')
    case Found(Some(v)) => op.Lookup? && v == p && Contains(m, p) && Same(m, m')
    case Exists => op.Insert? && Contains(m, p) && Same(m, m')
    case Registered(Some(v)) => op.Register? && v == p && Contains(m, p) && Same(m, m')
    case Ok => op.Insert? && Adds(m, p, m')
    case Registered(None) => op.Register? && Adds(m, p, m')
    case _ => false
  }

  ghost predicate StepOk(m: Memory, op: Op, a: map<nat, Value>, m': Memory, pc': Pc) {
    && MemInv(m') && m.cur < |m.gens| && Shaped(m') && Evolves(m, m') && LocalInv(m', op, pc', a)
    && (if pc'.Done? then Answered(m, op, a, m', pc'.result) else Same(m, m'))
  }

  lemma ShapedOf(m: Memory)
    requires MemInv(m)
    ensures Shaped(m)
  {
    assert forall g :: 0 <= g < |m.gens| ==> GenOk(m.gens[g]);
  }

  lemma Unchanged(m: Memory, op: Op, a: map<nat, Value>, pc': Pc)
    requires MemInv(m) && Shaped(m) && LocalInv(m, op, pc', a) && (pc'.Done? ==> Answered(m, op, a, m, pc'.result))
    ensures StepOk(m, op, a, m, pc')
  {
  }

  /** A slot that can still be written is in the current storage, or in its successor. */
  lemma UnredirectedIsCurrent(m: Memory, g: nat, k: nat)
    requires MemInv(m) && g <= m.cur && k < |m.gens[g].slots| && !m.gens[g].slots[k].redirected && !m.gens[g].constant
    ensures g == m.cur
  {
    assert g < m.cur ==> AllRedirected(m.gens[g]);
  }

  lemma VacantMeansNone(m: Memory, g: nat, p: nat, i: nat)
    requires MemInv(m) && Shaped(m) && p != 0 && Seeking(m, g, p, i) && ReadAt(m, g, p, i) == Vacant
    ensures !Has(m.gens[g], p)
  {
    assert GenOk(m.gens[g]);
    if Has(m.gens[g], p) { OwnerMetFirst(m.gens[g], p, i); }
  }

  lemma PassOne(m: Memory, g: nat, p: nat, i: nat)
    requires Shaped(m) && Seeking(m, g, p, i) && ReadAt(m, g, p, i).Member? && ReadAt(m, g, p, i) != Member(p)
    ensures Passed(m.gens[g], p, i + 1)
  {
    assert ReadAt(m, g, p, i) == Read(m.gens[g].slots[Probe(p, i, |m.gens[g].slots|)]);
  }

  /** A pointer that is found is in the set. */
  lemma FoundIsContained(m: Memory, g: nat, p: nat, i: nat)
    requires MemInv(m) && Shaped(m) && p != 0 && g <= m.cur && ReadAt(m, g, p, i) == Member(p)
    ensures Contains(m, p)
  {
    var k := Pos(m, g, p, i);
    assert GenOk(m.gens[g]) && m.gens[g].slots[k] == Slot(p, false);
    UnredirectedIsCurrent(m, g, k);
  }

  // --------------------------------------------------------------------------- calls

  lemma ReadStorageStep(m: Memory, op: Op, a: map<nat, Value>)
    requires MemInv(m) && Shaped(m) && LocalInv(m, op, ReadStorage, a)
    ensures StepOk(m, op, a, m, Step(m, op, ReadStorage).1)
  {
    assert Hash(op) in a ==> Contains(m, Hash(op));
    Unchanged(m, op, a, Step(m, op, ReadStorage).1);
  }

  lemma MemberStep(m: Memory, op: Op, pc: Pc, a: map<nat, Value>)
    requires MemInv(m) && Shaped(m) && pc.MemberProbe? && LocalInv(m, op, pc, a)
    ensures StepOk(m, op, a, m, Step(m, op, pc).1)
  {
    var p, x := Hash(op), ReadAt(m, pc.g, Hash(op), pc.i);
    if x == Vacant {
      VacantMeansNone(m, pc.g, p, pc.i);
    } else if x == Member(p) {
      FoundIsContained(m, pc.g, p, pc.i);
    } else if x != Redirect {
      PassOne(m, pc.g, p, pc.i);
      assert GenOk(m.gens[pc.g]);
      if Has(m.gens[pc.g], p) { OwnerMetFirst(m.gens[pc.g], p, pc.i + 1); }
    }
    Unchanged(m, op, a, Step(m, op, pc).1);
  }

  lemma TriedOk(m: Memory, op: Op, g: nat, i: nat, a: map<nat, Value>)
    requires MemInv(m) && Shaped(m) && LocalInv(m, op, RegisterRead(g, i), a) && ReadAt(m, g, Hash(op), i) != Vacant
    ensures StepOk(m, op, a, m, Tried(m, op, g, i, ReadAt(m, g, Hash(op), i)))
  {
    var p, x := Hash(op), ReadAt(m, g, Hash(op), i);
    if x == Member(p) {
      FoundIsContained(m, g, p, i);
    } else if x != Redirect {
      PassOne(m, g, p, i);
    }
    Unchanged(m, op, a, Tried(m, op, g, i, x));
  }

  lemma RegisterStep(m: Memory, op: Op, pc: Pc, a: map<nat, Value>)
    requires MemInv(m) && Shaped(m) && (pc.RegisterRead? || pc.RegisterCas?) && LocalInv(m, op, pc, a)
    ensures StepOk(m, op, a, Step(m, op, pc).0, Step(m, op, pc).1)
  {
    var p, x := Hash(op), ReadAt(m, pc.g, Hash(op), pc.i);
    if x != Vacant {
      TriedOk(m, op, pc.g, pc.i, a);
    } else if pc.RegisterRead? {
      Unchanged(m, op, a, RegisterCas(pc.g, pc.i));
    } else {
      UnredirectedIsCurrent(m, pc.g, Pos(m, pc.g, p, pc.i));
      RegisterKeeps(m, p, pc.i);
      ShapedOf(Step(m, op, pc).0);
    }
  }

  lemma CountStep(m: Memory, op: Op, pc: Pc, a: map<nat, Value>)
    requires MemInv(m) && Shaped(m) && pc.ReadCount? && LocalInv(m, op, pc, a)
    ensures StepOk(m, op, a, m, Step(m, op, pc).1)
  {
    Unchanged(m, op, a, Step(m, op, pc).1);
  }

  lemma EveryCallStep(m: Memory, op: Op, pc: Pc, a: map<nat, Value>)
    requires MemInv(m) && Shaped(m) && InCall(pc) && LocalInv(m, op, pc, a)
    ensures PcOk(m, pc) && StepOk(m, op, a, Step(m, op, pc).0, Step(m, op, pc).1)
  {
    match pc
    case ReadStorage => ReadStorageStep(m, op, a);
    case MemberProbe(_, _) => MemberStep(m, op, pc, a);
    case ReadCount(_) => CountStep(m, op, pc, a);
    case RegisterRead(_, _) => RegisterStep(m, op, pc, a);
    case RegisterCas(_, _) => RegisterStep(m, op, pc, a);
  }

  // ------------------------------------------------------------------------- migrate

  ghost predicate Silent(m: Memory, m': Memory) {
    MemInv(m) && Shaped(m) && MemInv(m') && Shaped(m') && Evolves(m, m') && Same(m, m')
  }

  ghost predicate GoesOn(m: Memory, op: Op, pc: Pc)
    requires Shaped(m)
  {
    PcOk(m, pc) && Silent(m, Step(m, op, pc).0) && MigrationInv(Step(m, op, pc).0, Step(m, op, pc).1)
  }

  lemma CopyBeginsOk(m: Memory, g: nat, q: nat)
    requires MemInv(m) && Shaped(m) && g <= m.cur && g < q < |m.gens|
    ensures MigrationInv(m, CopyBegins(m, g, q))
  {
  }

  lemma NextReadStep(m: Memory, op: Op, pc: Pc)
    requires MemInv(m) && Shaped(m) && pc.NextRead? && pc.g <= m.cur
    ensures GoesOn(m, op, pc)
  {
    if |m.gens| - 1 != pc.g { CopyBeginsOk(m, pc.g, |m.gens| - 1); }
  }

  lemma NextCasStep(m: Memory, op: Op, pc: Pc)
    requires MemInv(m) && Shaped(m) && pc.NextCas? && pc.g <= m.cur
    ensures GoesOn(m, op, pc)
  {
    if |m.gens| - 1 != pc.g {
      CopyBeginsOk(m, pc.g, |m.gens| - 1);
    } else {
      PublishKeeps(m);
      var m' := Step(m, op, pc).0;
      ShapedOf(m');
      CopyBeginsOk(m', pc.g, |m.gens|);
      assert m'.gens[pc.g] == m.gens[pc.g];
    }
  }

  /** What copy reads in a slot that is not redirected belongs to the set. */
  lemma CopyReads(m: Memory, job: Job)
    requires MemInv(m) && Shaped(m) && JobOk(m, job) && job.j < Size(m, job.g) && !m.gens[job.g].slots[job.j].redirected
    ensures job.g == m.cur && job.q == m.cur + 1 && HasPending(m)
  {
    UnredirectedIsCurrent(m, job.g, job.j);
  }

  lemma InspectOk(m: Memory, job: Job)
    requires MemInv(m) && Shaped(m) && JobOk(m, job) && job.j < Size(m, job.g)
    ensures MigrationInv(m, Inspect(job, Read(m.gens[job.g].slots[job.j])))
  {
    if !m.gens[job.g].slots[job.j].redirected { CopyReads(m, job); }
  }

  lemma RedirectStep(m: Memory, job: Job)
    requires MemInv(m) && Shaped(m) && JobOk(m, job) && job.j < Size(m, job.g) && !m.gens[job.g].slots[job.j].redirected
    requires var p := m.gens[job.g].slots[job.j].owner; p != 0 ==> RetireOk(m, job, p)
    ensures var m' := WithRedirect(m, job.g, job.j); Silent(m, m') && MigrationInv(m', NextSlot(job))
  {
    CopyReads(m, job);
    RedirectKeeps(m, job.j);
    var m' := WithRedirect(m, job.g, job.j);
    ShapedOf(m');
    JobStays(m, m', job);
  }

  lemma CopyStep(m: Memory, op: Op, pc: Pc)
    requires MemInv(m) && Shaped(m) && (pc.CopyRead? || pc.CopyFreeze? || pc.Retire?) && MigrationInv(m, pc)
    ensures GoesOn(m, op, pc)
  {
    var job := pc.job;
    if job.j < Size(m, job.g) {
      InspectOk(m, job);
      var x := Read(m.gens[job.g].slots[job.j]);
      if (pc.CopyFreeze? && x == Vacant) || (pc.Retire? && x == Member(pc.p)) { RedirectStep(m, job); }
    }
  }

  // -------------------------------------------------------------- put finds a place

  ghost function SlotOwners(gen: Generation): (r: seq<nat>)
    ensures |r| == |gen.slots| && forall k :: 0 <= k < |r| ==> r[k] == gen.slots[k].owner
  {
    seq(|gen.slots|, k requires 0 <= k < |gen.slots| => gen.slots[k].owner)
  }

  /** A successor cannot be full before it is current: all its pointers are from a storage half its size. */
  lemma PendingIsNotFull(m: Memory)
    requires MemInv(m) && HasPending(m)
    ensures Has(m.gens[m.cur + 1], 0)
  {
    var c, d := m.gens[m.cur], m.gens[m.cur + 1];
    assert GenOk(c) && GenOk(d) && SizeOk(m, m.cur + 1);
    if forall k :: 0 <= k < |d.slots| ==> d.slots[k].owner != 0 {
      var theirs, ours := SlotOwners(d), SlotOwners(c);
      forall k, l | 0 <= k < l < |theirs| ensures theirs[k] != theirs[l] {
        if theirs[k] == theirs[l] { OneSlotPerPointer(d, k, l); }
      }
      forall k | 0 <= k < |theirs| ensures theirs[k] in ours {
        assert Has(c, d.slots[k].owner);
        var l :| 0 <= l < |c.slots| && c.slots[l].owner == theirs[k];
        assert ours[l] == theirs[k];
      }
      Pigeonhole(theirs, ours);
    }
  }

  lemma PutIsNotBusy(m: Memory, job: Job, p: nat, i: nat)
    requires MemInv(m) && Shaped(m) && PutOk(m, job, p) && Passed(m.gens[job.q], p, i) && job.g == m.cur
    ensures i < Size(m, job.q)
  {
    PendingIsNotFull(m);
    var d := m.gens[job.q];
    var k :| 0 <= k < |d.slots| && d.slots[k].owner == 0;
    var x := ProbeCovers(p, k, |d.slots|);
  }

  /** Whatever the register of a copied pointer answers: if the source is still current, the successor has it. */
  lemma PutTriedOk(m: Memory, job: Job, p: nat, i: nat)
    requires MemInv(m) && Shaped(m) && PutOk(m, job, p) && Seeking(m, job.q, p, i) && ReadAt(m, job.q, p, i) != Vacant
    ensures MigrationInv(m, PutTried(m, job, p, i, ReadAt(m, job.q, p, i)))
  {
    var x, k := ReadAt(m, job.q, p, i), Pos(m, job.q, p, i);
    assert job.q > m.cur ==> NoneRedirected(m.gens[job.q]);
    if x == Member(p) {
      assert m.gens[job.q].slots[k].owner == p;
    } else if x != Redirect {
      PassOne(m, job.q, p, i);
      if job.g == m.cur { PutIsNotBusy(m, job, p, i + 1); }
    }
  }

  lemma PutStep(m: Memory, op: Op, pc: Pc)
    requires MemInv(m) && Shaped(m) && (pc.PutRead? || pc.PutCas?) && MigrationInv(m, pc)
    ensures GoesOn(m, op, pc)
  {
    var job, p, i := pc.job, pc.p, pc.i;
    if ReadAt(m, job.q, p, i) != Vacant {
      PutTriedOk(m, job, p, i);
    } else if pc.PutCas? {
      VacantMeansNone(m, job.q, p, i);
      assert Contains(m, p);
      PutKeeps(m, p, i);
      var m' := Step(m, op, pc).0;
      ShapedOf(m');
      JobAtStays(m, m', job, p);
    }
  }

  lemma PutIncrementStep(m: Memory, op: Op, pc: Pc)
    requires MemInv(m) && Shaped(m) && pc.PutIncrement? && MigrationInv(m, pc)
    ensures GoesOn(m, op, pc)
  {
    IncrementKeeps(m, pc.job.q);
    var m' := Step(m, op, pc).0;
    ShapedOf(m');
    RetireStays(m, m', pc.job, pc.p);
  }

  lemma SwapStep(m: Memory, op: Op, pc: Pc)
    requires MemInv(m) && Shaped(m) && pc.Swap? && MigrationInv(m, pc)
    ensures GoesOn(m, op, pc)
  {
    if m.cur == pc.job.g { SwapKeeps(m); }
  }

  lemma MigrationGoesOn(m: Memory, op: Op, pc: Pc)
    requires MemInv(m) && Shaped(m) && !pc.ReadStorage? && MigrationInv(m, pc)
    ensures GoesOn(m, op, pc)
  {
    match pc
    case MigrateCheck(_) =>
    case NextRead(_) => NextReadStep(m, op, pc);
    case NextCas(_) => NextCasStep(m, op, pc);
    case CopyRead(_) => CopyStep(m, op, pc);
    case CopyFreeze(_) => CopyStep(m, op, pc);
    case PutRead(_, _, _) => PutStep(m, op, pc);
    case PutCas(_, _, _) => PutStep(m, op, pc);
    case PutIncrement(_, _) => PutIncrementStep(m, op, pc);
    case Retire(_, _) => CopyStep(m, op, pc);
    case Swap(_) => SwapStep(m, op, pc);
  }

  /** Every step of every call, whatever the others are doing. */
  lemma EveryStep(m: Memory, op: Op, pc: Pc, a: map<nat, Value>)
    requires MemInv(m) && Shaped(m) && !pc.Idle? && !pc.Done? && LocalInv(m, op, pc, a)
    ensures PcOk(m, pc) && StepOk(m, op, a, Step(m, op, pc).0, Step(m, op, pc).1)
  {
    if InCall(pc) { EveryCallStep(m, op, pc, a); } else { MigrationGoesOn(m, op, pc); }
  }

  /** Returning, with or without counting the slot. */
  lemma ReturnStep(m: Memory, op: Op, pc: Pc, a: map<nat, Value>)
    requires MemInv(m) && Shaped(m) && pc.Done? && LocalInv(m, op, pc, a)
    ensures PcOk(m, pc) && MemInv(Step(m, op, pc).0) && Shaped(Step(m, op, pc).0) && Evolves(m, Step(m, op, pc).0) && Same(m, Step(m, op, pc).0)
  {
    if pc.counts.Some? {
      IncrementKeeps(m, pc.counts.value);
      ShapedOf(Step(m, op, pc).0);
    }
  }
}
