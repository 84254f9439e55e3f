/**
 What a thread of the pointer array knows at each point of its call, that the others
 cannot take it away, and that every step keeps the memory in order.
 */
module PointerarrayProof {
  import opened PointerarrayModel
  import opened PointerarrayInvariant

  // -------------------------------------------------------------- local knowledge

  predicate Known(m: Memory, i: nat, item: Item) {
    i < |Log(m)| && Log(m)[i] == item
  }

  predicate Held(m: Memory, i: nat, item: Item) {
    i < |Placed(m)| && Placed(m)[i] == item
  }

  predicate JobOk(m: Memory, job: Job) {
    Full(m, job.p) && job.p < job.q < |m.gens|
  }

  /** The first `j` slots have been redirected. */
  predicate Carried(m: Memory, job: Job, dst: nat, j: nat) {
    && JobOk(m, job) && job.p < dst < |m.gens| && j <= Size(m, job.p)
    && (forall i :: 0 <= i < j ==> SlotAt(m, job.p, i) == Redirect)
  }

  /** The successor, if `p` is still current, has slot `j`. */
  predicate InSuccessor(m: Memory, p: nat, j: nat) {
    p == m.cur ==> SlotAt(m, p + 1, j).Filled?
  }

  predicate ThenOk(m: Memory, d: nat, then_: Then) {
    match then_
    case AddTried(item, i, won) =>
      d <= m.cur && i < Size(m, d) && SlotAt(m, d, i) != Empty && (won ==> Held(m, i, item))
    case PutTried(job, j, item) =>
      Carried(m, job, d, j) && j < Size(m, job.p) && Known(m, j, item) && InSuccessor(m, job.p, j)
    case CopyEnds(job) => Carried(m, job, d, Size(m, job.p))
  }

  predicate SwapOk(m: Memory, job: Job) {
    && JobOk(m, job)
    && (m.cur == job.p ==> Retired(m.gens[job.p]) && Count(m, job.p + 1) >= Size(m, job.p))
  }

  /** What a call knows. It never gets to freeze an empty slot. */
  predicate LocalInv(m: Memory, pc: Pc) {
    match pc
    case Idle => true
    case ReadStorage(_) => true
    case AddIndex(_, p) => p <= m.cur
    case AddSlot(_, p, i) => p <= m.cur && i < Size(m, p) && i <= Count(m, p)
    case PubIndex(d, then_) => d < |m.gens| && ThenOk(m, d, then_)
    case PubSlot(d, k, then_) => d < |m.gens| && k < Size(m, d) && k <= Count(m, d) && ThenOk(m, d, then_)
    case PubCas(d, k, then_) =>
      d < |m.gens| && k < Size(m, d) && k <= Count(m, d) && SlotAt(m, d, k) != Empty && ThenOk(m, d, then_)
    case GetCount(_, p) => p <= m.cur
    case GetSlot(index, p) => p <= m.cur && index < Count(m, p)
    case MigrateCheck(_, p) => Full(m, p)
    case MigrateNext(_, p) => Full(m, p)
    case MigrateAlloc(_, p) => Full(m, p)
    case CopySlot(job, dst, j) => Carried(m, job, dst, j)
    case CopyFreeze(_, _, _) => false
    case PutCas(job, dst, j, item) => Carried(m, job, dst, j) && j < Size(m, job.p) && Known(m, j, item)
    case PutNext(job, dst, j, item) =>
      Carried(m, job, dst, j) && j < Size(m, job.p) && Known(m, j, item) && SlotAt(m, dst, j) == Redirect
    case CopyRetire(job, dst, j, item) =>
      Carried(m, job, dst, j) && j < Size(m, job.p) && Known(m, j, item) && InSuccessor(m, job.p, j)
    case Swap(job) => SwapOk(m, job)
    case Done(op, result) =>
      match op
      case Add(item) => item in Log(m) && result.None?
      case Get(index) => result.Some? ==> Known(m, index, result.value)
  }

  // ------------------------------------------------------------------- stability

  lemma SlotStays(m: Memory, m': Memory, g: nat, i: nat)
    requires Evolves(m, m') && g < |m.gens| && i < Size(m, g)
    ensures Size(m', g) == Size(m, g) && Count(m, g) <= Count(m', g)
    ensures SlotLater(SlotAt(m, g, i), SlotAt(m', g, i)) && (SlotAt(m', g, i) == Empty ==> SlotAt(m, g, i) == Empty)
  {
    assert GenLater(m.gens[g], m'.gens[g]);
  }

  lemma SizeStays(m: Memory, m': Memory, g: nat)
    requires Evolves(m, m') && g < |m.gens|
    ensures Size(m', g) == Size(m, g) && Count(m, g) <= Count(m', g)
  {
    assert GenLater(m.gens[g], m'.gens[g]);
  }

  lemma FullStays(m: Memory, m': Memory, p: nat)
    requires MemInv(m') && Evolves(m, m') && Full(m, p)
    ensures Full(m', p)
  {
    SizeStays(m, m', p);
    assert GenOk(m'.gens[p]);
  }

  lemma CarriedStays(m: Memory, m': Memory, job: Job, dst: nat, j: nat)
    requires MemInv(m') && Evolves(m, m') && Carried(m, job, dst, j)
    ensures Carried(m', job, dst, j)
  {
    FullStays(m, m', job.p);
    SizeStays(m, m', job.p);
    forall i | 0 <= i < j ensures SlotAt(m', job.p, i) == Redirect {
      assert SlotAt(m, job.p, i) == Redirect;
      SlotStays(m, m', job.p, i);
    }
  }

  lemma InSuccessorStays(m: Memory, m': Memory, p: nat, j: nat)
    requires MemInv(m) && MemInv(m') && Evolves(m, m') && InSuccessor(m, p, j) && p <= m.cur
    ensures InSuccessor(m', p, j)
  {
    if p == m'.cur {
      assert p == m.cur && SlotAt(m, p + 1, j).Filled?;
      SlotStays(m, m', p + 1, j);
      assert m'.gens[p + 1].slots[j] != Redirect;
    }
  }

  lemma ThenStays(m: Memory, m': Memory, d: nat, then_: Then)
    requires MemInv(m) && MemInv(m') && Evolves(m, m') && d < |m.gens| && ThenOk(m, d, then_)
    ensures ThenOk(m', d, then_)
  {
    match then_
    case AddTried(item, i, won) => SlotStays(m, m', d, i);
    case PutTried(job, j, item) =>
      CarriedStays(m, m', job, d, j);
      SizeStays(m, m', job.p);
      InSuccessorStays(m, m', job.p, j);
    case CopyEnds(job) =>
      CarriedStays(m, m', job, d, Size(m, job.p));
      SizeStays(m, m', job.p);
  }

  lemma SwapStays(m: Memory, m': Memory, job: Job)
    requires MemInv(m) && MemInv(m') && Evolves(m, m') && SwapOk(m, job)
    ensures SwapOk(m', job)
  {
    FullStays(m, m', job.p);
    SizeStays(m, m', job.p);
    if m'.cur == job.p {
      SizeStays(m, m', job.p + 1);
      assert GenLater(m.gens[job.p], m'.gens[job.p]);
    }
  }

  lemma CopierStays(m: Memory, m': Memory, job: Job, dst: nat, j: nat, item: Item)
    requires MemInv(m) && MemInv(m') && Evolves(m, m') && Carried(m, job, dst, j) && j < Size(m, job.p) && Known(m, j, item)
    ensures Carried(m', job, dst, j) && j < Size(m', job.p) && Known(m', j, item)
    ensures InSuccessor(m, job.p, j) ==> InSuccessor(m', job.p, j)
    ensures SlotAt(m, dst, j) == Redirect && j < Size(m, dst) ==> SlotAt(m', dst, j) == Redirect
  {
    CarriedStays(m, m', job, dst, j);
    SizeStays(m, m', job.p);
    if InSuccessor(m, job.p, j) { InSuccessorStays(m, m', job.p, j); }
    if j < Size(m, dst) { SlotStays(m, m', dst, j); }
  }

  /** A copier's slot exists in every later generation. */
  lemma SlotExists(m: Memory, job: Job, dst: nat, j: nat)
    requires MemInv(m) && job.p < dst < |m.gens| && j < Size(m, job.p)
    ensures j < Size(m, dst)
  {
    SizesGrow(m, job.p, dst);
  }

  /** No step of another thread takes away what a thread knows. */
  lemma Stable(m: Memory, m': Memory, pc: Pc)
    requires MemInv(m) && MemInv(m') && Evolves(m, m') && LocalInv(m, pc)
    ensures LocalInv(m', pc)
  {
    match pc
    case AddSlot(_, p, i) => SizeStays(m, m', p);
    case PubIndex(d, then_) => ThenStays(m, m', d, then_);
    case PubSlot(d, k, then_) => ThenStays(m, m', d, then_); SizeStays(m, m', d);
    case PubCas(d, k, then_) => ThenStays(m, m', d, then_); SlotStays(m, m', d, k);
    case GetSlot(index, p) => SizeStays(m, m', p);
    case MigrateCheck(_, p) => FullStays(m, m', p);
    case MigrateNext(_, p) => FullStays(m, m', p);
    case MigrateAlloc(_, p) => FullStays(m, m', p);
    case CopySlot(job, dst, j) => CarriedStays(m, m', job, dst, j);
    case PutCas(job, dst, j, item) => CopierStays(m, m', job, dst, j, item);
    case PutNext(job, dst, j, item) => SlotExists(m, job, dst, j); CopierStays(m, m', job, dst, j, item);
    case CopyRetire(job, dst, j, item) => CopierStays(m, m', job, dst, j, item);
    case Swap(job) => SwapStays(m, m', job);
    case _ =>
  }

  // ----------------------------------------------------------------------- steps

  ghost predicate StepOk(m: Memory, m': Memory, pc': Pc) {
    MemInv(m') && Evolves(m, m') && LocalInv(m', pc')
  }

  lemma Unchanged(m: Memory, pc': Pc)
    requires MemInv(m) && LocalInv(m, pc')
    ensures StepOk(m, m, pc')
  {
    EvolvesSelf(m);
  }

  /** A redirected slot means that the generation is full. */
  lemma RedirectMeansFull(m: Memory, p: nat, i: nat)
    requires MemInv(m) && p <= m.cur && i < Size(m, p) && SlotAt(m, p, i) == Redirect
    ensures Full(m, p) && p + 1 < |m.gens|
  {
    assert p < m.cur ==> Retired(m.gens[p]);
  }

  lemma AddSlotStep(m: Memory, pc: Pc)
    requires MemInv(m) && pc.AddSlot? && LocalInv(m, pc)
    ensures PcOk(m, pc) && StepOk(m, Step(m, pc).0, Step(m, pc).1)
  {
    match SlotAt(m, pc.p, pc.i)
    case Redirect =>
      RedirectMeansFull(m, pc.p, pc.i);
      Unchanged(m, MigrateCheck(Add(pc.item), pc.p));
    case Empty =>
      AddKeeps(m, pc.p, pc.i, pc.item);
      var m' := WithSlot(m, pc.p, pc.i, Filled(pc.item));
      assert Placed(m')[pc.i] == pc.item;
    case Filled(_) => Unchanged(m, PubIndex(pc.p, AddTried(pc.item, pc.i, false)));
  }

  /** Publish ends only when the count has passed everything that had to be published. */
  lemma PublishEnds(m: Memory, d: nat, k: nat, then_: Then)
    requires MemInv(m) && d < |m.gens| && ThenOk(m, d, then_)
    requires k <= Count(m, d) && (k >= Size(m, d) || !SlotAt(m, d, k).Filled?)
    ensures LocalInv(m, Continue(d, then_))
  {
    match then_
    case AddTried(item, i, won) => AddIsPublished(m, d, k, i);
    case PutTried(job, j, item) =>
    case CopyEnds(job) => CopyIsPublished(m, d, k, job);
  }

  lemma AddIsPublished(m: Memory, d: nat, k: nat, i: nat)
    requires MemInv(m) && d <= m.cur && i < Size(m, d) && SlotAt(m, d, i) != Empty
    requires k <= Count(m, d) && (k >= Size(m, d) || !SlotAt(m, d, k).Filled?)
    ensures i < Count(m, d) && Count(m, d) <= Count(m, m.cur)
  {
    assert GenOk(m.gens[d]);
    assert d < m.cur ==> Retired(m.gens[d]);
    if k < Size(m, d) && SlotAt(m, d, k) == Redirect { RedirectMeansFull(m, d, k); }
    if d < m.cur { SizesGrow(m, d, m.cur - 1); }
  }

  lemma CopyIsPublished(m: Memory, d: nat, k: nat, job: Job)
    requires MemInv(m) && d < |m.gens| && Carried(m, job, d, Size(m, job.p))
    requires k <= Count(m, d) && (k >= Size(m, d) || !SlotAt(m, d, k).Filled?)
    ensures SwapOk(m, job)
  {
    if m.cur == job.p {
      assert d == m.cur + 1 && GenOk(m.gens[d]);
      SizesGrow(m, job.p, d);
      forall i: nat | i < Size(m, job.p) ensures m.gens[m.cur].slots[i] == Redirect && SlotAt(m, d, i).Filled? {
        assert SlotAt(m, job.p, i) == Redirect;
      }
    }
  }

  lemma PublishReadStep(m: Memory, pc: Pc)
    requires MemInv(m) && (pc.PubIndex? || pc.PubSlot?) && LocalInv(m, pc)
    ensures PcOk(m, pc) && StepOk(m, Step(m, pc).0, Step(m, pc).1)
  {
    assert GenOk(m.gens[pc.d]);
    var k := if pc.PubIndex? then Count(m, pc.d) else pc.k;
    if k >= Size(m, pc.d) || (pc.PubSlot? && !SlotAt(m, pc.d, k).Filled?) { PublishEnds(m, pc.d, k, pc.then_); }
    Unchanged(m, Step(m, pc).1);
  }

  lemma PublishCasStep(m: Memory, pc: Pc)
    requires MemInv(m) && pc.PubCas? && LocalInv(m, pc)
    ensures PcOk(m, pc) && StepOk(m, Step(m, pc).0, Step(m, pc).1)
  {
    if Count(m, pc.d) == pc.k {
      PublishKeeps(m, pc.d);
      ThenStays(m, WithCount(m, pc.d, pc.k + 1), pc.d, pc.then_);
    } else {
      Unchanged(m, PubIndex(pc.d, pc.then_));
    }
  }

  lemma GetSlotStep(m: Memory, pc: Pc)
    requires MemInv(m) && pc.GetSlot? && LocalInv(m, pc)
    ensures PcOk(m, pc) && StepOk(m, Step(m, pc).0, Step(m, pc).1) && SlotAt(m, pc.p, pc.index) != Empty
  {
    assert GenOk(m.gens[pc.p]);
    if SlotAt(m, pc.p, pc.index) == Redirect {
      RedirectMeansFull(m, pc.p, pc.index);
    } else {
      assert pc.p < m.cur ==> Retired(m.gens[pc.p]);
      assert pc.p == m.cur;
      assert Log(m)[pc.index] == ValueAt(m, pc.index);
    }
    Unchanged(m, Step(m, pc).1);
  }

  lemma CopyBeginsOk(m: Memory, job: Job)
    requires MemInv(m) && JobOk(m, job)
    ensures LocalInv(m, CopyBegins(m, job))
  {
  }

  lemma MigrateStep(m: Memory, pc: Pc)
    requires MemInv(m) && (pc.MigrateCheck? || pc.MigrateNext?) && LocalInv(m, pc)
    ensures PcOk(m, pc) && StepOk(m, Step(m, pc).0, Step(m, pc).1)
  {
    if pc.MigrateNext? && |m.gens| - 1 != pc.p { CopyBeginsOk(m, Job(pc.op, pc.p, |m.gens| - 1)); }
    Unchanged(m, Step(m, pc).1);
  }

  lemma AllocStep(m: Memory, pc: Pc)
    requires MemInv(m) && pc.MigrateAlloc? && LocalInv(m, pc)
    ensures PcOk(m, pc) && StepOk(m, Step(m, pc).0, Step(m, pc).1)
  {
    if |m.gens| - 1 == pc.p {
      AllocKeeps(m);
      var m' := Step(m, pc).0;
      FullStays(m, m', pc.p);
      CopyBeginsOk(m', Job(pc.op, pc.p, |m.gens|));
      SizeStays(m, m', pc.p);
    } else {
      CopyBeginsOk(m, Job(pc.op, pc.p, |m.gens| - 1));
      Unchanged(m, Step(m, pc).1);
    }
  }

  lemma ReadStep(m: Memory, pc: Pc)
    requires MemInv(m) && (pc.ReadStorage? || pc.AddIndex? || pc.GetCount?) && LocalInv(m, pc)
    ensures PcOk(m, pc) && StepOk(m, Step(m, pc).0, Step(m, pc).1)
  {
    if !pc.ReadStorage? { assert GenOk(m.gens[pc.p]); }
    Unchanged(m, Step(m, pc).1);
  }

  /** What copy reads in a full generation is the value of the log, or a redirection: never an empty slot. */
  lemma CopyReads(m: Memory, p: nat, j: nat)
    requires MemInv(m) && Full(m, p) && j < Size(m, p)
    ensures SlotAt(m, p, j) != Empty
    ensures SlotAt(m, p, j).Filled? ==> p == m.cur && Known(m, j, SlotAt(m, p, j).item)
  {
    assert GenOk(m.gens[p]);
    assert p < m.cur ==> Retired(m.gens[p]);
    if p == m.cur { assert Log(m)[j] == ValueAt(m, j); }
  }

  lemma CopyValueOk(m: Memory, job: Job, dst: nat, j: nat)
    requires MemInv(m) && Carried(m, job, dst, j) && j < Size(m, job.p)
    ensures LocalInv(m, CopyValue(job, dst, j, SlotAt(m, job.p, j)))
  {
    CopyReads(m, job.p, j);
  }

  lemma CopySlotStep(m: Memory, pc: Pc)
    requires MemInv(m) && pc.CopySlot? && LocalInv(m, pc)
    ensures PcOk(m, pc) && StepOk(m, Step(m, pc).0, Step(m, pc).1)
  {
    if pc.j < Size(m, pc.job.p) { CopyValueOk(m, pc.job, pc.dst, pc.j); }
    Unchanged(m, Step(m, pc).1);
  }

  /** After a put the successor has the slot, if the source is still current. */
  lemma PutStep(m: Memory, pc: Pc)
    requires MemInv(m) && pc.PutCas? && LocalInv(m, pc)
    ensures PcOk(m, pc) && StepOk(m, Step(m, pc).0, Step(m, pc).1)
  {
    var job, dst, j, item := pc.job, pc.dst, pc.j, pc.item;
    SlotExists(m, job, dst, j);
    match SlotAt(m, dst, j)
    case Redirect => Unchanged(m, PutNext(job, dst, j, item));
    case Empty =>
      PutKeeps(m, dst, j, item);
      var m' := WithSlot(m, dst, j, Filled(item));
      CopierStays(m, m', job, dst, j, item);
    case Filled(_) => Unchanged(m, PubIndex(dst, PutTried(job, j, item)));
  }

  /** The next storage is not the one that has been redirected. */
  lemma NextIsNew(m: Memory, pc: Pc)
    requires MemInv(m) && pc.PutNext? && LocalInv(m, pc)
    ensures |m.gens| - 1 > pc.dst
  {
    SlotExists(m, pc.job, pc.dst, pc.j);
    if pc.dst <= m.cur { RedirectMeansFull(m, pc.dst, pc.j); }
  }

  lemma PutNextStep(m: Memory, pc: Pc)
    requires MemInv(m) && pc.PutNext? && LocalInv(m, pc)
    ensures PcOk(m, pc) && StepOk(m, Step(m, pc).0, Step(m, pc).1)
  {
    NextIsNew(m, pc);
    Unchanged(m, Step(m, pc).1);
  }

  lemma RetireStep(m: Memory, pc: Pc)
    requires MemInv(m) && pc.CopyRetire? && LocalInv(m, pc)
    ensures PcOk(m, pc) && StepOk(m, Step(m, pc).0, Step(m, pc).1)
  {
    var job, dst, j, item := pc.job, pc.dst, pc.j, pc.item;
    if SlotAt(m, job.p, j) == Filled(item) {
      CopyReads(m, job.p, j);
      RetireKeeps(m, job.p, j);
      var m' := WithSlot(m, job.p, j, Redirect);
      CarriedStays(m, m', job, dst, j);
      SizeStays(m, m', job.p);
    } else {
      CopyValueOk(m, job, dst, j);
      Unchanged(m, Step(m, pc).1);
    }
  }

  lemma SwapStep(m: Memory, pc: Pc)
    requires MemInv(m) && pc.Swap? && LocalInv(m, pc)
    ensures PcOk(m, pc) && StepOk(m, Step(m, pc).0, Step(m, pc).1)
    ensures Step(m, pc).0 != m ==> Log(Step(m, pc).0) == Log(m) && Step(m, pc).0.cur == m.cur + 1
  {
    if m.cur == pc.job.p {
      SwapKeeps(m);
    } else {
      Unchanged(m, ReadStorage(pc.job.op));
    }
  }

  /** Every step of every call keeps the memory in order and leaves the thread with what it needs. */
  lemma EveryStep(m: Memory, pc: Pc)
    requires MemInv(m) && LocalInv(m, pc) && !pc.Idle? && !pc.Done?
    ensures PcOk(m, pc) && StepOk(m, Step(m, pc).0, Step(m, pc).1)
  {
    match pc
    case ReadStorage(_) => ReadStep(m, pc);
    case AddIndex(_, _) => ReadStep(m, pc);
    case AddSlot(_, _, _) => AddSlotStep(m, pc);
    case PubIndex(_, _) => PublishReadStep(m, pc);
    case PubSlot(_, _, _) => PublishReadStep(m, pc);
    case PubCas(_, _, _) => PublishCasStep(m, pc);
    case GetCount(_, _) => ReadStep(m, pc);
    case GetSlot(_, _) => GetSlotStep(m, pc);
    case MigrateCheck(_, _) => MigrateStep(m, pc);
    case MigrateNext(_, _) => MigrateStep(m, pc);
    case MigrateAlloc(_, _) => AllocStep(m, pc);
    case CopySlot(_, _, _) => CopySlotStep(m, pc);
    case PutCas(_, _, _, _) => PutStep(m, pc);
    case PutNext(_, _, _, _) => PutNextStep(m, pc);
    case CopyRetire(_, _, _, _) => RetireStep(m, pc);
    case Swap(_) => SwapStep(m, pc);
  }
}
