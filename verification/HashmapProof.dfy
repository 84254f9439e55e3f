/**
 What each thread of the hashmap knows at each of its program points, that no other
 thread can take that away, and what each step does to the map.
 */
module HashmapProof {
  import opened Options
  import opened Probing
  import opened Counting
  import opened MapSpec
  import opened HashmapModel
  import opened HashmapInvariant
  import opened HashmapActions

  // ------------------------------------------------------------ local knowledge

  /** The map still has what it had at the start of the call. */
  ghost predicate Below(a: map<nat, Value>, m: Memory)
    requires m.cur < |m.gens|
  {
    forall h: nat, v: Value :: Get(a, h) == Some(v) ==> Maps(m, h, v)
  }

  ghost predicate Mine(m: Memory, g: nat, h: nat, i: nat)
    requires Shaped(m)
  {
    g < |m.gens| && SlotAt(m, g, h, i).hash == h
  }

  ghost predicate Seeking(m: Memory, g: nat, h: nat, i: nat)
    requires Shaped(m)
  {
    g < |m.gens| && i < Size(m, g) && Passed(m.gens[g], h, i)
  }

  /** copy is through with the first `j` slots. */
  ghost predicate JobOk(m: Memory, job: Job)
    requires Shaped(m)
  {
    && job.g <= m.cur && job.g < job.q < |m.gens| && !m.gens[job.g].constant && job.j <= Size(m, job.g)
    && (forall k :: 0 <= k < job.j ==> m.gens[job.g].slots[k].word == Redirect)
  }

  ghost predicate JobAt(m: Memory, job: Job, h: nat)
    requires Shaped(m)
  {
    JobOk(m, job) && job.j < Size(m, job.g) && h != 0 && m.gens[job.g].slots[job.j].hash == h
  }

  /** put carries a binding of the map into a later storage, which has the hash if it is or was current. */
  ghost predicate PutOk(m: Memory, job: Job, put: Put)
    requires Shaped(m)
  {
    && JobAt(m, job, put.h) && Maps(m, put.h, put.v) && job.g < put.d < |m.gens|
    && (put.d <= m.cur ==> Has(m.gens[put.d], put.h))
  }

  ghost predicate RetireOk(m: Memory, job: Job, put: Put)
    requires Shaped(m)
  {
    && JobAt(m, job, put.h) && Maps(m, put.h, put.v)
    && (job.g == m.cur ==> HasPending(m) && Bound(m.gens[m.cur + 1], put.h, put.v))
  }

  ghost predicate SwapOk(m: Memory, job: Job)
    requires Shaped(m)
  {
    job.g <= m.cur && job.g < job.q < |m.gens| && AllFrozen(m.gens[job.g])
  }

  /** What a thread knows while it helps with a migration. put never finds a storage full (PutBusy). */
  ghost predicate MigrationInv(m: Memory, pc: Pc)
    requires Shaped(m)
  {
    match pc
    case ReadStorage => true
    case NextRead(g) => g <= m.cur
    case NextCas(g) => g <= m.cur
    case CopyHash(job) => JobOk(m, job)
    case FreezeVirgin(job) => JobOk(m, job) && job.j < Size(m, job.g)
    case CopyRehash(job, v) =>
      job.g < |m.gens| && job.j < Size(m, job.g) && PutOk(m, job, Put(m.gens[job.g].slots[job.j].hash, v, job.q, 0))
    case CopyValue(job, h) => JobAt(m, job, h)
    case FreezeVoid(job, h) => JobAt(m, job, h)
    case PutRead(job, put) => PutOk(m, job, put) && Seeking(m, put.d, put.h, put.i)
    case PutCas(job, put) => PutOk(m, job, put) && Seeking(m, put.d, put.h, put.i)
    case PutIncrement(job, put) => PutOk(m, job, put) && Mine(m, put.d, put.h, put.i)
    case PutInstall(job, put) => PutOk(m, job, put) && Mine(m, put.d, put.h, put.i)
    case PutNext(job, put) =>
      PutOk(m, job, put) && put.d <= m.cur && Mine(m, put.d, put.h, put.i) && SlotAt(m, put.d, put.h, put.i).word == Redirect
    case Retire(job, put) => RetireOk(m, job, put)
    case Swap(job) => SwapOk(m, job)
    case _ => false
  }

  /** What a thread knows while it works for itself; `a` is the map at the start of its call. */
  ghost predicate CallInv(m: Memory, op: Op, pc: Pc, a: map<nat, Value>)
    requires Shaped(m) && InCall(pc)
  {
    var h := Hash(op);
    match pc
    case ReadStorage => true
    case LookProbe(g, i) => op.Lookup? && g <= m.cur && Seeking(m, g, h, i) && (h in a ==> h != 0 && Has(m.gens[g], h))
    case LookValue(g, i) => op.Lookup? && g <= m.cur && h != 0 && Mine(m, g, h, i)
    case ReadCount(g) => !op.Lookup? && g <= m.cur
    case ClaimRead(g, i) => !op.Lookup? && g <= m.cur && Seeking(m, g, h, i) && !m.gens[g].constant
    case ClaimCas(g, i) => !op.Lookup? && g <= m.cur && Seeking(m, g, h, i) && !m.gens[g].constant
    case ClaimIncrement(g, i) => !op.Lookup? && g <= m.cur && Mine(m, g, h, i)
    case Fill(g, i) => !op.Lookup? && g <= m.cur && Mine(m, g, h, i)
  }

  ghost predicate LocalInv(m: Memory, op: Op, pc: Pc, a: map<nat, Value>)
    requires Shaped(m)
  {
    pc.Idle? ||
    (&& Below(a, m)
     && (pc.Done? || (OfHashmap(op) && (op.Lookup? || Legal(op))
                      && if InCall(pc) then CallInv(m, op, pc, a) else MigrationInv(m, pc))))
  }

  // ------------------------------------------------------------------ stability

  ghost predicate Compatible(m: Memory, m': Memory) {
    MemInv(m) && MemInv(m') && Shaped(m) && Shaped(m') && Evolves(m, m')
  }

  lemma MineStays(m: Memory, m': Memory, g: nat, h: nat, i: nat)
    requires Compatible(m, m') && h != 0 && Mine(m, g, h, i)
    ensures Mine(m', g, h, i)
    ensures SlotAt(m, g, h, i).word == Redirect ==> SlotAt(m', g, h, i).word == Redirect
  {
    assert GenLater(m.gens[g], m'.gens[g]);
    assert SlotLater(m.gens[g].slots[Pos(m, g, h, i)], m'.gens[g].slots[Pos(m, g, h, i)]);
  }

  lemma SeekingStays(m: Memory, m': Memory, g: nat, h: nat, i: nat)
    requires Compatible(m, m') && Seeking(m, g, h, i)
    ensures Seeking(m', g, h, i) && m'.gens[g].constant == m.gens[g].constant
  {
    assert GenLater(m.gens[g], m'.gens[g]);
    PassedStays(m.gens[g], m'.gens[g], h, i);
  }

  lemma HasStaysAt(m: Memory, m': Memory, g: nat, h: nat)
    requires Compatible(m, m') && g < |m.gens| && h != 0 && Has(m.gens[g], h)
    ensures Has(m'.gens[g], h)
  {
    assert GenLater(m.gens[g], m'.gens[g]);
    HasStays(m.gens[g], m'.gens[g], h);
  }

  lemma JobStays(m: Memory, m': Memory, job: Job)
    requires Compatible(m, m') && JobOk(m, job)
    ensures JobOk(m', job) && Size(m', job.g) == Size(m, job.g)
  {
    assert GenLater(m.gens[job.g], m'.gens[job.g]);
    forall k | 0 <= k < job.j ensures m'.gens[job.g].slots[k].word == Redirect {
      assert SlotLater(m.gens[job.g].slots[k], m'.gens[job.g].slots[k]);
    }
  }

  lemma JobAtStays(m: Memory, m': Memory, job: Job, h: nat)
    requires Compatible(m, m') && JobAt(m, job, h)
    ensures JobAt(m', job, h)
  {
    JobStays(m, m', job);
    assert GenLater(m.gens[job.g], m'.gens[job.g]);
    assert SlotLater(m.gens[job.g].slots[job.j], m'.gens[job.g].slots[job.j]);
  }

  lemma PutStays(m: Memory, m': Memory, job: Job, put: Put)
    requires Compatible(m, m') && PutOk(m, job, put)
    ensures PutOk(m', job, put)
  {
    JobAtStays(m, m', job, put.h);
    if put.d <= m.cur {
      HasStaysAt(m, m', put.d, put.h);
    } else if put.d == m'.cur {
      MappedHasSlot(m', put.h, put.v);
    }
  }

  lemma RetireStays(m: Memory, m': Memory, job: Job, put: Put)
    requires Compatible(m, m') && RetireOk(m, job, put)
    ensures RetireOk(m', job, put)
  {
    JobAtStays(m, m', job, put.h);
    if job.g == m'.cur {
      var d, d' := m.gens[m.cur + 1], m'.gens[m.cur + 1];
      assert GenLater(d, d');
      var k :| 0 <= k < |d.slots| && d.slots[k] == Slot(put.h, Holding(put.v));
      assert SlotLater(d.slots[k], d'.slots[k]) && d'.slots[k].word != Redirect;
    }
  }

  lemma SwapStays(m: Memory, m': Memory, job: Job)
    requires Compatible(m, m') && SwapOk(m, job)
    ensures SwapOk(m', job)
  {
    var a, b := m.gens[job.g], m'.gens[job.g];
    assert GenLater(a, b);
    assert forall k :: 0 <= k < |a.slots| ==> SlotLater(a.slots[k], b.slots[k]);
  }

  lemma CallStays(m: Memory, m': Memory, op: Op, pc: Pc, a: map<nat, Value>)
    requires Compatible(m, m') && LocalInv(m, op, pc, a) && InCall(pc)
    ensures LocalInv(m', op, pc, a)
  {
    var h := Hash(op);
    if pc.LookProbe? || pc.ClaimRead? || pc.ClaimCas? {
      SeekingStays(m, m', pc.g, h, pc.i);
      if h != 0 && Has(m.gens[pc.g], h) { HasStaysAt(m, m', pc.g, h); }
    } else if pc.LookValue? || pc.ClaimIncrement? || pc.Fill? {
      MineStays(m, m', pc.g, h, pc.i);
    }
  }

  predicate InCopy(pc: Pc) {
    pc.NextRead? || pc.NextCas? || pc.CopyHash? || pc.FreezeVirgin? || pc.CopyRehash? || pc.CopyValue? || pc.FreezeVoid? || pc.Swap?
  }

  predicate InPut(pc: Pc) {
    pc.PutRead? || pc.PutCas? || pc.PutIncrement? || pc.PutInstall? || pc.PutNext? || pc.Retire?
  }

  lemma CopyStays(m: Memory, m': Memory, pc: Pc)
    requires Compatible(m, m') && MigrationInv(m, pc) && InCopy(pc)
    ensures MigrationInv(m', pc)
  {
    match pc
    case CopyHash(job) => JobStays(m, m', job);
    case FreezeVirgin(job) => JobStays(m, m', job);
    case CopyRehash(job, v) =>
      var h := m.gens[job.g].slots[job.j].hash;
      PutStays(m, m', job, Put(h, v, job.q, 0));
    case CopyValue(job, h) => JobAtStays(m, m', job, h);
    case FreezeVoid(job, h) => JobAtStays(m, m', job, h);
    case Swap(job) => SwapStays(m, m', job);
    case _ =>
  }

  lemma PutterStays(m: Memory, m': Memory, pc: Pc)
    requires Compatible(m, m') && MigrationInv(m, pc) && InPut(pc)
    ensures MigrationInv(m', pc)
  {
    if pc.Retire? {
      RetireStays(m, m', pc.job, pc.put);
    } else {
      PutStays(m, m', pc.job, pc.put);
      if pc.PutRead? || pc.PutCas? {
        SeekingStays(m, m', pc.put.d, pc.put.h, pc.put.i);
      } else {
        MineStays(m, m', pc.put.d, pc.put.h, pc.put.i);
      }
    }
  }

  /** No step of another thread takes away what a thread knows. */
  lemma Stable(m: Memory, m': Memory, op: Op, pc: Pc, a: map<nat, Value>)
    requires Compatible(m, m') && LocalInv(m, op, pc, a)
    ensures LocalInv(m', op, pc, a)
  {
    if InCall(pc) {
      CallStays(m, m', op, pc, a);
    } else if InCopy(pc) {
      CopyStays(m, m', pc);
    } else if InPut(pc) {
      PutterStays(m, m', pc);
    }
  }

  // --------------------------------------------------------------- what a step does

  /** The answer is that of the map at the start of the call, or now; or the step performs the operation. */
  ghost predicate Answered(m: Memory, op: Op, a: map<nat, Value>, m': Memory, r: Result)
    requires m.cur < |m.gens| && m'.cur < |m'.gens|
  {
    var h := Hash(op);
    match r
    case Found(None) => op.Lookup? && h !in a && Same(m, m')
    case Found(Some(v)) => op.Lookup? && Maps(m, h, v) && Same(m, m')
    case Exists => op.Insert? && (exists v :: Maps(m, h, v)) && Same(m, m')
    case Registered(Some(v)) => op.Register? && Maps(m, h, v) && Same(m, m')
    case Ok => op.Insert? && Adds(m, h, Store(op), m')
    case Registered(None) => op.Register? && Adds(m, h, Store(op), m')
    case _ => false
  }

  ghost predicate Adds(m: Memory, h: nat, v: Value, m': Memory)
    requires m.cur < |m.gens| && m'.cur < |m'.gens|
  {
    && (forall w :: !Maps(m, h, w))
    && (forall k: nat, w: Value :: Maps(m', k, w) <==> Maps(m, k, w) || (k == h && w == v))
  }

  ghost predicate StepOk(m: Memory, op: Op, a: map<nat, Value>, m': Memory, pc': Pc) {
    && MemInv(m') && m.cur < |m.gens| && Shaped(m') && Evolves(m, m') && LocalInv(m', op, pc', a)
    && (if pc'.Done? then Answered(m, op, a, m', pc'.result) else Same(m, m'))
  }

  lemma ShapedOf(m: Memory)
    requires MemInv(m)
    ensures Shaped(m)
  {
    assert forall g :: 0 <= g < |m.gens| ==> GenOk(m.gens[g]);
  }

  lemma Unchanged(m: Memory, op: Op, a: map<nat, Value>, pc': Pc)
    requires MemInv(m) && Shaped(m) && LocalInv(m, op, pc', a) && (pc'.Done? ==> Answered(m, op, a, m, pc'.result))
    ensures StepOk(m, op, a, m, pc')
  {
  }

  lemma BelowStays(a: map<nat, Value>, m: Memory, m': Memory)
    requires m.cur < |m.gens| && m'.cur < |m'.gens| && Below(a, m) && Grows(m, m')
    ensures Below(a, m')
  {
  }

  /** A slot that can still be written is in the current storage, or in its successor. */
  lemma UnfrozenIsCurrent(m: Memory, g: nat, k: nat)
    requires MemInv(m) && g <= m.cur && k < |m.gens[g].slots| && m.gens[g].slots[k].word != Redirect && !m.gens[g].constant
    ensures g == m.cur
  {
    assert g < m.cur ==> AllFrozen(m.gens[g]);
  }

  lemma ClaimedIsNotConstant(m: Memory, g: nat, k: nat)
    requires MemInv(m) && g < |m.gens| && k < |m.gens[g].slots| && m.gens[g].slots[k].hash != 0
    ensures !m.gens[g].constant
  {
    assert GenOk(m.gens[g]);
  }

  /** An unclaimed slot after foreign ones: the hash has no slot. */
  lemma FreeMeansNone(m: Memory, g: nat, h: nat, i: nat)
    requires MemInv(m) && Shaped(m) && h != 0 && Seeking(m, g, h, i) && SlotAt(m, g, h, i).hash == 0
    ensures !Has(m.gens[g], h)
  {
    assert GenOk(m.gens[g]);
    if Has(m.gens[g], h) { OwnerMetFirst(m.gens[g], h, i); }
  }

  // ------------------------------------------------------------------------ lookup

  lemma ReadStorageStep(m: Memory, op: Op, a: map<nat, Value>)
    requires MemInv(m) && Shaped(m) && LocalInv(m, op, ReadStorage, a)
    ensures StepOk(m, op, a, m, CallStep(m, op, ReadStorage).1)
  {
    var h := Hash(op);
    if h in a {
      assert Get(a, h) == Some(a[h]);
      MappedHasSlot(m, h, a[h]);
    }
    Unchanged(m, op, a, CallStep(m, op, ReadStorage).1);
  }

  lemma PassOne(m: Memory, g: nat, h: nat, i: nat)
    requires Shaped(m) && Seeking(m, g, h, i) && SlotAt(m, g, h, i).hash != 0 && SlotAt(m, g, h, i).hash != h
    ensures Passed(m.gens[g], h, i + 1)
  {
    assert SlotAt(m, g, h, i) == m.gens[g].slots[Probe(h, i, |m.gens[g].slots|)];
  }

  lemma LookProbeStep(m: Memory, op: Op, pc: Pc, a: map<nat, Value>)
    requires MemInv(m) && Shaped(m) && pc.LookProbe? && LocalInv(m, op, pc, a)
    ensures StepOk(m, op, a, m, CallStep(m, op, pc).1)
  {
    var h, found := Hash(op), SlotAt(m, pc.g, Hash(op), pc.i).hash;
    if found == 0 {
      if h != 0 { FreeMeansNone(m, pc.g, h, pc.i); }
    } else if found != h {
      PassOne(m, pc.g, h, pc.i);
    }
    Unchanged(m, op, a, CallStep(m, op, pc).1);
  }

  lemma LookValueStep(m: Memory, op: Op, pc: Pc, a: map<nat, Value>)
    requires MemInv(m) && Shaped(m) && pc.LookValue? && LocalInv(m, op, pc, a)
    ensures StepOk(m, op, a, m, CallStep(m, op, pc).1)
  {
    var h, k := Hash(op), Pos(m, pc.g, Hash(op), pc.i);
    ClaimedIsNotConstant(m, pc.g, k);
    var word := m.gens[pc.g].slots[k].word;
    if word != Redirect {
      UnfrozenIsCurrent(m, pc.g, k);
      if word == Void {
        AbsentAtStart(m, k, a);
      } else {
        assert Bound(m.gens[m.cur], h, word.value);
      }
    }
    Unchanged(m, op, a, CallStep(m, op, pc).1);
  }

  lemma AbsentAtStart(m: Memory, k: nat, a: map<nat, Value>)
    requires MemInv(m) && Below(a, m) && k < |m.gens[m.cur].slots| && m.gens[m.cur].slots[k].hash != 0
    requires m.gens[m.cur].slots[k].word == Void
    ensures m.gens[m.cur].slots[k].hash !in a
  {
    var h := m.gens[m.cur].slots[k].hash;
    if h in a {
      assert Get(a, h) == Some(a[h]);
      VoidMeansAbsent(m, k, a[h]);
    }
  }

  // -------------------------------------------------------------- insert, register

  lemma ClaimedOk(m: Memory, op: Op, g: nat, i: nat, a: map<nat, Value>)
    requires MemInv(m) && Shaped(m) && LocalInv(m, op, ClaimRead(g, i), a)
    requires SlotAt(m, g, Hash(op), i).hash != 0
    ensures LocalInv(m, op, Claimed(m, g, i, Hash(op), SlotAt(m, g, Hash(op), i).hash), a)
  {
    if SlotAt(m, g, Hash(op), i).hash != Hash(op) { PassOne(m, g, Hash(op), i); }
  }

  lemma ClaimStep(m: Memory, op: Op, pc: Pc, a: map<nat, Value>)
    requires MemInv(m) && Shaped(m) && (pc.ClaimRead? || pc.ClaimCas?) && LocalInv(m, op, pc, a)
    ensures StepOk(m, op, a, CallStep(m, op, pc).0, CallStep(m, op, pc).1)
  {
    var h, found := Hash(op), SlotAt(m, pc.g, Hash(op), pc.i).hash;
    if found != 0 {
      ClaimedOk(m, op, pc.g, pc.i, a);
      Unchanged(m, op, a, CallStep(m, op, pc).1);
    } else if pc.ClaimRead? {
      Unchanged(m, op, a, ClaimCas(pc.g, pc.i));
    } else {
      ClaimKeeps(m, pc.g, h, pc.i);
      var m' := CallStep(m, op, pc).0;
      ShapedOf(m');
      BelowStays(a, m, m');
    }
  }

  lemma IncrementStep(m: Memory, op: Op, pc: Pc, a: map<nat, Value>)
    requires MemInv(m) && Shaped(m) && pc.ClaimIncrement? && LocalInv(m, op, pc, a)
    ensures StepOk(m, op, a, CallStep(m, op, pc).0, CallStep(m, op, pc).1)
  {
    IncrementKeeps(m, pc.g);
    var m' := CallStep(m, op, pc).0;
    ShapedOf(m');
    BelowStays(a, m, m');
    MineStays(m, m', pc.g, Hash(op), pc.i);
  }

  lemma FillStep(m: Memory, op: Op, pc: Pc, a: map<nat, Value>)
    requires MemInv(m) && Shaped(m) && pc.Fill? && LocalInv(m, op, pc, a)
    ensures StepOk(m, op, a, CallStep(m, op, pc).0, CallStep(m, op, pc).1)
  {
    var h, k := Hash(op), Pos(m, pc.g, Hash(op), pc.i);
    ClaimedIsNotConstant(m, pc.g, k);
    var word := m.gens[pc.g].slots[k].word;
    if word == Void {
      UnfrozenIsCurrent(m, pc.g, k);
      FillKeeps(m, k, Store(op));
      forall v ensures !Maps(m, h, v) { VoidMeansAbsent(m, k, v); }
      var m' := CallStep(m, op, pc).0;
      ShapedOf(m');
      BelowStays(a, m, m');
    } else {
      if word.Holding? {
        UnfrozenIsCurrent(m, pc.g, k);
        assert Bound(m.gens[m.cur], h, word.value);
        assert Maps(m, h, word.value);
      }
      Unchanged(m, op, a, CallStep(m, op, pc).1);
    }
  }

  lemma ReadCountStep(m: Memory, op: Op, pc: Pc, a: map<nat, Value>)
    requires MemInv(m) && Shaped(m) && pc.ReadCount? && LocalInv(m, op, pc, a)
    ensures StepOk(m, op, a, m, CallStep(m, op, pc).1)
  {
    Unchanged(m, op, a, CallStep(m, op, pc).1);
  }

  lemma EveryCallStep(m: Memory, op: Op, pc: Pc, a: map<nat, Value>)
    requires MemInv(m) && Shaped(m) && InCall(pc) && LocalInv(m, op, pc, a)
    ensures PcOk(m, pc) && StepOk(m, op, a, CallStep(m, op, pc).0, CallStep(m, op, pc).1)
  {
    match pc
    case ReadStorage => ReadStorageStep(m, op, a);
    case LookProbe(_, _) => LookProbeStep(m, op, pc, a);
    case LookValue(_, _) => LookValueStep(m, op, pc, a);
    case ReadCount(_) => ReadCountStep(m, op, pc, a);
    case ClaimRead(_, _) => ClaimStep(m, op, pc, a);
    case ClaimCas(_, _) => ClaimStep(m, op, pc, a);
    case ClaimIncrement(_, _) => IncrementStep(m, op, pc, a);
    case Fill(_, _) => FillStep(m, op, pc, a);
  }

  // ------------------------------------------------------------------------ migrate

  /** A step of a migration: the map stays as it is, and the call goes on. */
  ghost predicate Silent(m: Memory, m': Memory) {
    MemInv(m) && Shaped(m) && MemInv(m') && Shaped(m') && Evolves(m, m') && Same(m, m')
  }

  lemma MigrationOk(m: Memory, op: Op, pc: Pc, a: map<nat, Value>, m': Memory, pc': Pc)
    requires LocalInvBase(m, op, pc, a) && Silent(m, m') && MigrationInv(m', pc')
    ensures StepOk(m, op, a, m', pc')
  {
    BelowStays(a, m, m');
  }

  ghost predicate LocalInvBase(m: Memory, op: Op, pc: Pc, a: map<nat, Value>)
  {
    Shaped(m) && !pc.Idle? && !pc.Done? && LocalInv(m, op, pc, a)
  }

  lemma CopyBeginsOk(m: Memory, g: nat, q: nat)
    requires MemInv(m) && Shaped(m) && g <= m.cur && g < q < |m.gens|
    ensures MigrationInv(m, CopyBegins(m, g, q))
  {
  }

  lemma NextStep(m: Memory, pc: Pc)
    requires MemInv(m) && Shaped(m) && (pc.NextRead? || pc.NextCas?) && pc.g <= m.cur
    ensures PcOk(m, pc) && Silent(m, MigrateStep(m, pc).0) && MigrationInv(MigrateStep(m, pc).0, MigrateStep(m, pc).1)
  {
    if |m.gens| - 1 != pc.g {
      CopyBeginsOk(m, pc.g, |m.gens| - 1);
    } else if pc.NextCas? {
      PublishKeeps(m);
      var m' := MigrateStep(m, pc).0;
      ShapedOf(m');
      CopyBeginsOk(m', pc.g, |m.gens|);
      assert m'.gens[pc.g] == m.gens[pc.g];
    }
  }

  /** What copy reads in a slot that is not redirected belongs to the map. */
  lemma CopyReads(m: Memory, job: Job)
    requires MemInv(m) && Shaped(m) && JobOk(m, job) && job.j < Size(m, job.g) && m.gens[job.g].slots[job.j].word != Redirect
    ensures job.g == m.cur && job.q == m.cur + 1 && HasPending(m)
    ensures var s := m.gens[job.g].slots[job.j]; s.word.Holding? ==> s.hash != 0 && Maps(m, s.hash, s.word.value)
  {
    UnfrozenIsCurrent(m, job.g, job.j);
    assert GenOk(m.gens[m.cur]);
    var s := m.gens[job.g].slots[job.j];
    if s.word.Holding? { assert Bound(m.gens[m.cur], s.hash, s.word.value); }
  }

  lemma InspectOk(m: Memory, job: Job, h: nat)
    requires MemInv(m) && Shaped(m) && JobAt(m, job, h)
    ensures MigrationInv(m, Inspect(job, h, m.gens[job.g].slots[job.j].word))
  {
    if m.gens[job.g].slots[job.j].word != Redirect { CopyReads(m, job); }
  }

  lemma FreezeStep(m: Memory, job: Job)
    requires MemInv(m) && Shaped(m) && JobOk(m, job) && job.j < Size(m, job.g) && m.gens[job.g].slots[job.j].word == Void
    ensures var m' := WithWord(m, job.g, job.j, Redirect); Silent(m, m') && MigrationInv(m', NextSlot(job))
  {
    CopyReads(m, job);
    FreezeKeeps(m, job.j);
    var m' := WithWord(m, job.g, job.j, Redirect);
    ShapedOf(m');
    JobStays(m, m', job);
  }

  lemma FreezeVirginStep(m: Memory, job: Job)
    requires MemInv(m) && Shaped(m) && MigrationInv(m, FreezeVirgin(job))
    ensures var (m', pc') := MigrateStep(m, FreezeVirgin(job)); Silent(m, m') && MigrationInv(m', pc')
  {
    match m.gens[job.g].slots[job.j].word
    case Void => FreezeStep(m, job);
    case Redirect =>
    case Holding(v) => CopyReads(m, job);
  }

  lemma CopyStep(m: Memory, pc: Pc)
    requires MemInv(m) && Shaped(m) && (pc.CopyHash? || pc.FreezeVirgin? || pc.CopyRehash? || pc.CopyValue? || pc.FreezeVoid?)
    requires MigrationInv(m, pc)
    ensures PcOk(m, pc) && Silent(m, MigrateStep(m, pc).0) && MigrationInv(MigrateStep(m, pc).0, MigrateStep(m, pc).1)
  {
    match pc
    case CopyHash(job) =>
    case FreezeVirgin(job) => FreezeVirginStep(m, job);
    case CopyRehash(job, v) =>
    case CopyValue(job, h) => InspectOk(m, job, h);
    case FreezeVoid(job, h) =>
      if m.gens[job.g].slots[job.j].word == Void { FreezeStep(m, job); } else { InspectOk(m, job, h); }
  }

  // -------------------------------------------------------------- put finds a place

  ghost function SlotHashes(gen: Generation): (r: seq<nat>)
    ensures |r| == |gen.slots| && forall k :: 0 <= k < |r| ==> r[k] == gen.slots[k].hash
  {
    seq(|gen.slots|, k requires 0 <= k < |gen.slots| => gen.slots[k].hash)
  }

  /** A successor cannot be full before it is current: all its hashes are from a storage half its size. */
  lemma PendingIsNotFull(m: Memory)
    requires MemInv(m) && HasPending(m)
    ensures Has(m.gens[m.cur + 1], 0)
  {
    var c, d := m.gens[m.cur], m.gens[m.cur + 1];
    assert GenOk(c) && GenOk(d) && SizeOk(m, m.cur + 1);
    if forall k :: 0 <= k < |d.slots| ==> d.slots[k].hash != 0 {
      var theirs, ours := SlotHashes(d), SlotHashes(c);
      forall k, l | 0 <= k < l < |theirs| ensures theirs[k] != theirs[l] {
        if theirs[k] == theirs[l] { OneSlotPerHash(d, k, l); }
      }
      forall k | 0 <= k < |theirs| ensures theirs[k] in ours {
        assert Has(c, d.slots[k].hash);
        var l :| 0 <= l < |c.slots| && c.slots[l].hash == theirs[k];
        assert ours[l] == theirs[k];
      }
      Pigeonhole(theirs, ours);
    }
  }

  /** put always finds a slot: it never probes a whole round in vain. */
  lemma PutIsNotBusy(m: Memory, job: Job, put: Put)
    requires MemInv(m) && Shaped(m) && PutOk(m, job, put) && Passed(m.gens[put.d], put.h, put.i)
    ensures put.i < Size(m, put.d)
  {
    var d := m.gens[put.d];
    assert GenOk(d);
    if put.d <= m.cur {
      OwnerMetFirst(d, put.h, put.i);
    } else {
      PendingIsNotFull(m);
      var k :| 0 <= k < |d.slots| && d.slots[k].hash == 0;
      var i := ProbeCovers(put.h, k, |d.slots|);
    }
  }

  lemma PutClaimedOk(m: Memory, job: Job, put: Put)
    requires MemInv(m) && Shaped(m) && PutOk(m, job, put) && Seeking(m, put.d, put.h, put.i)
    requires SlotAt(m, put.d, put.h, put.i).hash != 0
    ensures MigrationInv(m, PutClaimed(m, job, put, SlotAt(m, put.d, put.h, put.i).hash))
  {
    if SlotAt(m, put.d, put.h, put.i).hash != put.h {
      PassOne(m, put.d, put.h, put.i);
      PutIsNotBusy(m, job, put.(i := put.i + 1));
    }
  }

  lemma PutClaimStep(m: Memory, pc: Pc)
    requires MemInv(m) && Shaped(m) && (pc.PutRead? || pc.PutCas?) && MigrationInv(m, pc)
    ensures PcOk(m, pc) && Silent(m, MigrateStep(m, pc).0) && MigrationInv(MigrateStep(m, pc).0, MigrateStep(m, pc).1)
  {
    var job, put := pc.job, pc.put;
    if SlotAt(m, put.d, put.h, put.i).hash != 0 {
      PutClaimedOk(m, job, put);
    } else if pc.PutCas? {
      FreeMeansNone(m, put.d, put.h, put.i);
      assert SizeOk(m, put.d);
      MappedHasSlot(m, put.h, put.v);
      ClaimKeeps(m, put.d, put.h, put.i);
      var m' := MigrateStep(m, pc).0;
      ShapedOf(m');
      PutStays(m, m', job, put);
    }
  }

  lemma PutIncrementStep(m: Memory, pc: Pc)
    requires MemInv(m) && Shaped(m) && pc.PutIncrement? && MigrationInv(m, pc)
    ensures PcOk(m, pc) && Silent(m, MigrateStep(m, pc).0) && MigrationInv(MigrateStep(m, pc).0, MigrateStep(m, pc).1)
  {
    IncrementKeeps(m, pc.put.d);
    var m' := MigrateStep(m, pc).0;
    ShapedOf(m');
    PutStays(m, m', pc.job, pc.put);
    MineStays(m, m', pc.put.d, pc.put.h, pc.put.i);
  }

  /** Where put installs: in the successor of the current storage. */
  lemma PutsInSuccessor(m: Memory, put: Put)
    requires MemInv(m) && Shaped(m) && Mine(m, put.d, put.h, put.i) && put.h != 0 && Maps(m, put.h, put.v)
    requires SlotAt(m, put.d, put.h, put.i).word == Void
    ensures put.d == m.cur + 1 && HasPending(m)
  {
    var k := Pos(m, put.d, put.h, put.i);
    ClaimedIsNotConstant(m, put.d, k);
    if put.d <= m.cur {
      UnfrozenIsCurrent(m, put.d, k);
      VoidMeansAbsent(m, k, put.v);
    }
  }

  lemma PutInstallStep(m: Memory, pc: Pc)
    requires MemInv(m) && Shaped(m) && pc.PutInstall? && MigrationInv(m, pc)
    ensures PcOk(m, pc) && Silent(m, MigrateStep(m, pc).0) && MigrationInv(MigrateStep(m, pc).0, MigrateStep(m, pc).1)
  {
    var job, put, k := pc.job, pc.put, Pos(m, pc.put.d, pc.put.h, pc.put.i);
    var d := m.gens[put.d];
    assert put.d > m.cur ==> NoneFrozen(d);
    match d.slots[k].word
    case Void =>
      PutsInSuccessor(m, put);
      InstallKeeps(m, k, put.v);
      var m' := MigrateStep(m, pc).0;
      ShapedOf(m');
      JobAtStays(m, m', job, put.h);
      assert m'.gens[put.d].slots[k] == Slot(put.h, Holding(put.v));
    case Redirect =>
    case Holding(w) =>
      assert d.slots[k] == Slot(put.h, Holding(w)) && Bound(d, put.h, w);
      if job.g == m.cur { MapsOnce(m, put.h, put.v, w); }
  }

  /** The next storage is not the one that has been redirected. */
  lemma NextIsNew(m: Memory, pc: Pc)
    requires MemInv(m) && Shaped(m) && pc.PutNext? && MigrationInv(m, pc)
    ensures |m.gens| - 1 > pc.put.d
  {
    var k := Pos(m, pc.put.d, pc.put.h, pc.put.i);
    if !HasPending(m) { assert m.gens[m.cur].slots[k % |m.gens[m.cur].slots|].word != Redirect; }
  }

  lemma PutNextStep(m: Memory, pc: Pc)
    requires MemInv(m) && Shaped(m) && pc.PutNext? && MigrationInv(m, pc)
    ensures PcOk(m, pc) && Silent(m, MigrateStep(m, pc).0) && MigrationInv(MigrateStep(m, pc).0, MigrateStep(m, pc).1)
  {
    NextIsNew(m, pc);
    if !HasPending(m) { MappedHasSlot(m, pc.put.h, pc.put.v); }
  }

  lemma RetireStep(m: Memory, pc: Pc)
    requires MemInv(m) && Shaped(m) && pc.Retire? && MigrationInv(m, pc)
    ensures PcOk(m, pc) && Silent(m, MigrateStep(m, pc).0) && MigrationInv(MigrateStep(m, pc).0, MigrateStep(m, pc).1)
  {
    var job, put := pc.job, pc.put;
    if m.gens[job.g].slots[job.j].word == Holding(put.v) {
      CopyReads(m, job);
      RetireKeeps(m, job.j);
      var m' := MigrateStep(m, pc).0;
      ShapedOf(m');
      JobStays(m, m', job);
    } else {
      InspectOk(m, job, put.h);
    }
  }

  lemma SwapStep(m: Memory, pc: Pc)
    requires MemInv(m) && Shaped(m) && pc.Swap? && MigrationInv(m, pc)
    ensures PcOk(m, pc) && Silent(m, MigrateStep(m, pc).0) && MigrationInv(MigrateStep(m, pc).0, MigrateStep(m, pc).1)
  {
    if m.cur == pc.job.g { SwapKeeps(m); }
  }

  lemma MigrationGoesOn(m: Memory, pc: Pc)
    requires MemInv(m) && Shaped(m) && !pc.ReadStorage? && MigrationInv(m, pc)
    ensures PcOk(m, pc) && Silent(m, MigrateStep(m, pc).0) && MigrationInv(MigrateStep(m, pc).0, MigrateStep(m, pc).1)
  {
    match pc {
      case NextRead(_) => NextStep(m, pc);
      case NextCas(_) => NextStep(m, pc);
      case CopyHash(_) => CopyStep(m, pc);
      case FreezeVirgin(_) => CopyStep(m, pc);
      case CopyRehash(_, _) => CopyStep(m, pc);
      case CopyValue(_, _) => CopyStep(m, pc);
      case FreezeVoid(_, _) => CopyStep(m, pc);
      case PutRead(_, _) => PutClaimStep(m, pc);
      case PutCas(_, _) => PutClaimStep(m, pc);
      case PutIncrement(_, _) => PutIncrementStep(m, pc);
      case PutInstall(_, _) => PutInstallStep(m, pc);
      case PutNext(_, _) => PutNextStep(m, pc);
      case Retire(_, _) => RetireStep(m, pc);
      case Swap(_) => SwapStep(m, pc);
    }
  }

  lemma EveryMigrateStep(m: Memory, op: Op, pc: Pc, a: map<nat, Value>)
    requires MemInv(m) && Shaped(m) && !InCall(pc) && !pc.Idle? && !pc.Done? && LocalInv(m, op, pc, a)
    ensures PcOk(m, pc) && StepOk(m, op, a, MigrateStep(m, pc).0, MigrateStep(m, pc).1)
  {
    MigrationGoesOn(m, pc);
    MigrationOk(m, op, pc, a, MigrateStep(m, pc).0, MigrateStep(m, pc).1);
  }

  /** Every step of every call, whatever the others are doing. */
  lemma EveryStep(m: Memory, op: Op, pc: Pc, a: map<nat, Value>)
    requires MemInv(m) && Shaped(m) && !pc.Idle? && !pc.Done? && LocalInv(m, op, pc, a)
    ensures PcOk(m, pc) && StepOk(m, op, a, Step(m, op, pc).0, Step(m, op, pc).1)
  {
    if InCall(pc) { EveryCallStep(m, op, pc, a); } else { EveryMigrateStep(m, op, pc, a); }
  }
}
