/**
 Whole runs of the pointer array, with any number of threads: it is an append-only
 log. Every add appends its value once, during the call; every get answers as the log
 would at some instant of the call.
 */
module PointerarrayRuns {
  import opened Options
  import opened PointerarrayModel
  import opened PointerarrayInvariant
  import opened PointerarrayProof

  ghost predicate StepAt(run: seq<State>, sched: seq<nat>, i: nat) {
    i < |sched| && i + 1 < |run| && Next(run[i], run[i + 1], sched[i])
  }

  /** `run` lists the states, `sched[i]` is the thread that moves from state i to state i + 1. */
  ghost predicate IsRun(run: seq<State>, sched: seq<nat>) {
    && |run| == |sched| + 1
    && (exists size :: Init(run[0], size))
    && (forall i: nat :: i < |sched| ==> StepAt(run, sched, i))
  }

  // ------------------------------------------------------------ what a step does

  /** The three things a step can do to the log: nothing, claim a slot, publish the claimed slot. */
  ghost predicate Effect(m: Memory, pc: Pc, m': Memory, pc': Pc) {
    || (Log(m') == Log(m) && Claimed(m') == Claimed(m))
    || (Log(m') == Log(m) && pc.AddSlot? && Claimed(m) == [] && Claimed(m') == [pc.item] && Publishing(pc', pc.item))
    || (pc.PubCas? && |Claimed(m)| == 1 && Log(m') == Log(m) + Claimed(m) && Claimed(m') == [])
  }

  /** In add, has the slot, and has not returned yet. */
  predicate Publishing(pc: Pc, item: Item) {
    (pc.PubIndex? || pc.PubSlot? || pc.PubCas?) && pc.then_.AddTried? && pc.then_.won && pc.then_.item == item
  }

  lemma StepEffect(m: Memory, pc: Pc)
    requires MemInv(m) && LocalInv(m, pc) && !pc.Idle? && !pc.Done? && PcOk(m, pc)
    ensures Effect(m, pc, Step(m, pc).0, Step(m, pc).1)
  {
    if pc.AddSlot? {
      if SlotAt(m, pc.p, pc.i) == Empty { AddKeeps(m, pc.p, pc.i, pc.item); }
    } else if pc.PubCas? {
      if Count(m, pc.d) == pc.k { PublishKeeps(m, pc.d); }
    } else {
      MigrationIsSilent(m, pc);
    }
  }

  /** No step of a migration changes the log. */
  lemma MigrationIsSilent(m: Memory, pc: Pc)
    requires MemInv(m) && LocalInv(m, pc) && !pc.Idle? && !pc.Done? && PcOk(m, pc) && !pc.AddSlot? && !pc.PubCas?
    ensures Log(Step(m, pc).0) == Log(m) && Claimed(Step(m, pc).0) == Claimed(m)
  {
    match pc
    case MigrateAlloc(_, p) => if |m.gens| - 1 == p { AllocKeeps(m); }
    case PutCas(job, dst, j, item) => if SlotAt(m, dst, j) == Empty { PutKeeps(m, dst, j, item); }
    case CopyRetire(job, _, j, item) =>
      if SlotAt(m, job.p, j) == Filled(item) {
        CopyReads(m, job.p, j);
        RetireKeeps(m, job.p, j);
      }
    case Swap(job) => if m.cur == job.p { SwapKeeps(m); }
    case _ =>
  }

  // ----------------------------------------------------------------- the items

  function ThenOp(then_: Then): Op {
    match then_
    case AddTried(item, _, _) => Add(item)
    case PutTried(job, _, _) => job.op
    case CopyEnds(job) => job.op
  }

  /** What the thread was called to do. */
  function OpOf(pc: Pc): Option<Op> {
    match pc
    case Idle => None
    case ReadStorage(op) => Some(op)
    case AddIndex(item, _) => Some(Add(item))
    case AddSlot(item, _, _) => Some(Add(item))
    case PubIndex(_, then_) => Some(ThenOp(then_))
    case PubSlot(_, _, then_) => Some(ThenOp(then_))
    case PubCas(_, _, then_) => Some(ThenOp(then_))
    case GetCount(index, _) => Some(Get(index))
    case GetSlot(index, _) => Some(Get(index))
    case MigrateCheck(op, _) => Some(op)
    case MigrateNext(op, _) => Some(op)
    case MigrateAlloc(op, _) => Some(op)
    case CopySlot(job, _, _) => Some(job.op)
    case CopyFreeze(job, _, _) => Some(job.op)
    case PutCas(job, _, _, _) => Some(job.op)
    case PutNext(job, _, _, _) => Some(job.op)
    case CopyRetire(job, _, _, _) => Some(job.op)
    case Swap(job) => Some(job.op)
    case Done(op, _) => Some(op)
  }

  function OpItem(op: Op): Option<Item> {
    match op
    case Add(item) => Some(item)
    case Get(_) => None
  }

  /** The value that the call adds. */
  function ItemOf(pc: Pc): Option<Item> {
    if OpOf(pc).Some? then OpItem(OpOf(pc).value) else None
  }

  /** The call has yet to get a slot for its value. */
  predicate Seeking(pc: Pc) {
    ItemOf(pc).Some? && !Publishing(pc, ItemOf(pc).value) && !pc.Done?
  }

  predicate NoDuplicates(s: seq<Item>) {
    forall i, j :: 0 <= i < j < |s| ==> s[i] != s[j]
  }

  /** The thread's item is its own, and not yet in the array if it is still looking for a slot. */
  ghost predicate ItemOk(s: State, t: nat)
    requires t < |s.threads|
  {
    var pc := s.threads[t];
    && (ItemOf(pc).Some? ==> ItemOf(pc).value.thread == t && 1 <= ItemOf(pc).value.called <= s.now)
    && (Seeking(pc) ==> ItemOf(pc).value !in Placed(s.mem))
  }

  ghost predicate ItemsOk(s: State) {
    && NoDuplicates(Placed(s.mem))
    && (forall x :: x in Placed(s.mem) ==> x.called <= s.now)
    && (forall x :: x in Claimed(s.mem) ==> x.thread < |s.threads| && Publishing(s.threads[x.thread], x))
  }

  ghost predicate Inv(s: State) {
    && MemInv(s.mem) && ItemsOk(s)
    && (forall t {:trigger LocalInv(s.mem, s.threads[t])} :: 0 <= t < |s.threads| ==> LocalInv(s.mem, s.threads[t]))
    && (forall t {:trigger ItemOk(s, t)} :: 0 <= t < |s.threads| ==> ItemOk(s, t))
  }

  lemma OpKept(m: Memory, pc: Pc)
    requires |m.gens| > 0 && PcOk(m, pc) && !pc.Idle? && !pc.Done?
    ensures OpOf(Step(m, pc).1) == OpOf(pc)
  {
  }

  /** Once a call has its slot it stays so until it returns. */
  lemma SeekingEnds(m: Memory, pc: Pc)
    requires |m.gens| > 0 && PcOk(m, pc) && !pc.Idle? && !pc.Done? && Seeking(Step(m, pc).1)
    ensures Seeking(pc)
  {
    OpKept(m, pc);
  }

  /** The step that gets a slot is the winning CAS of add. */
  lemma PublishingGoesOn(m: Memory, pc: Pc, x: Item)
    requires |m.gens| > 0 && PcOk(m, pc) && !pc.Idle? && !pc.Done? && Publishing(pc, x)
    ensures Publishing(Step(m, pc).1, x) || Step(m, pc).1 == Done(Add(x), None)
  {
  }

  // --------------------------------------------------------------- one more step

  lemma PlacedGrows(m: Memory, pc: Pc, m': Memory, pc': Pc)
    requires Effect(m, pc, m', pc')
    ensures Placed(m') == Placed(m) || (pc.AddSlot? && Placed(m') == Placed(m) + [pc.item] && Publishing(pc', pc.item))
  {
    if Claimed(m) == [] { assert Placed(m) == Log(m); }
    if Claimed(m') == [] { assert Placed(m') == Log(m'); }
  }

  lemma AppendKeepsDistinct(p: seq<Item>, x: Item)
    requires NoDuplicates(p) && x !in p
    ensures NoDuplicates(p + [x])
  {
  }

  lemma MoveKeepsItems(s: State, s': State, t: nat)
    requires Inv(s) && Moves(s, s', t)
    ensures NoDuplicates(Placed(s'.mem)) && forall x :: x in Placed(s'.mem) ==> x.called <= s'.now
    ensures forall u :: 0 <= u < |s'.threads| ==> ItemOk(s', u)
  {
    var pc := s.threads[t];
    assert LocalInv(s.mem, pc) && ItemOk(s, t);
    StepEffect(s.mem, pc);
    PlacedGrows(s.mem, pc, s'.mem, s'.threads[t]);
    if Placed(s'.mem) != Placed(s.mem) { AppendKeepsDistinct(Placed(s.mem), pc.item); }
    forall u | 0 <= u < |s'.threads| ensures ItemOk(s', u) {
      MoveKeepsItem(s, s', t, u);
    }
  }

  lemma MoveKeepsItem(s: State, s': State, t: nat, u: nat)
    requires Inv(s) && Moves(s, s', t) && u < |s.threads|
    requires var pc := s.threads[t];
             Placed(s'.mem) == Placed(s.mem) || (pc.AddSlot? && Placed(s'.mem) == Placed(s.mem) + [pc.item] && Publishing(s'.threads[t], pc.item))
    ensures ItemOk(s', u)
  {
    assert ItemOk(s, u) && ItemOk(s, t);
    if u == t {
      OpKept(s.mem, s.threads[t]);
      if Seeking(s'.threads[t]) { SeekingEnds(s.mem, s.threads[t]); }
    }
  }

  /** The claimed slot belongs to an add that has not returned. */
  lemma MoveKeepsClaim(s: State, s': State, t: nat, x: Item)
    requires Inv(s) && Moves(s, s', t) && StepOk(s.mem, s'.mem, s'.threads[t]) && x in Claimed(s'.mem)
    requires NoDuplicates(Placed(s'.mem))
    ensures x.thread < |s'.threads| && Publishing(s'.threads[x.thread], x)
  {
    var pc := s.threads[t];
    assert LocalInv(s.mem, pc) && ItemOk(s, t);
    StepEffect(s.mem, pc);
    if x in Claimed(s.mem) {
      if x.thread == t {
        PublishingGoesOn(s.mem, pc, x);
        ClaimedIsNotPublished(s'.mem, x);
      }
    }
  }

  lemma ClaimedIsNotPublished(m: Memory, x: Item)
    requires NoDuplicates(Placed(m)) && x in Claimed(m)
    ensures x !in Log(m)
  {
    var p, n := Placed(m), |Log(m)|;
    assert p[n] == x;
    forall i | 0 <= i < n ensures Log(m)[i] != x {
      assert p[i] == Log(m)[i];
    }
  }

  lemma MoveKeeps(s: State, s': State, t: nat)
    requires Inv(s) && Moves(s, s', t)
    ensures Inv(s') && Evolves(s.mem, s'.mem)
  {
    assert LocalInv(s.mem, s.threads[t]);
    EveryStep(s.mem, s.threads[t]);
    MoveKeepsItems(s, s', t);
    forall x | x in Claimed(s'.mem) ensures x.thread < |s'.threads| && Publishing(s'.threads[x.thread], x) {
      MoveKeepsClaim(s, s', t, x);
    }
    forall u | 0 <= u < |s'.threads| ensures LocalInv(s'.mem, s'.threads[u]) {
      assert LocalInv(s.mem, s.threads[u]);
      if u != t { Stable(s.mem, s'.mem, s.threads[u]); }
    }
  }

  lemma EdgeKeeps(s: State, s': State, t: nat)
    requires Inv(s) && (Returns(s, s', t) || exists q :: Begins(s, s', t, q))
    ensures Inv(s') && s'.mem == s.mem
  {
    forall u | 0 <= u < |s'.threads| ensures LocalInv(s'.mem, s'.threads[u]) && ItemOk(s', u) {
      assert LocalInv(s.mem, s.threads[u]) && ItemOk(s, u);
    }
  }

  lemma NextKeeps(s: State, s': State, t: nat)
    requires Inv(s) && Next(s, s', t)
    ensures Inv(s') && Evolves(s.mem, s'.mem) && s'.now == s.now + 1 && |s'.threads| == |s.threads|
  {
    if Moves(s, s', t) {
      MoveKeeps(s, s', t);
    } else {
      EdgeKeeps(s, s', t);
      EvolvesSelf(s.mem);
    }
  }

  lemma InitMemory(s: State, size: nat)
    requires Init(s, size)
    ensures MemInv(s.mem) && Log(s.mem) == [] && Claimed(s.mem) == [] && Placed(s.mem) == []
  {
    assert SizesOk(s.mem);
    assert CurrentOk(s.mem) && PendingOk(s.mem);
  }

  lemma InitOk(s: State, size: nat)
    requires Init(s, size)
    ensures Inv(s) && Log(s.mem) == []
  {
    InitMemory(s, size);
  }

  lemma {:induction false} RunsAreOk(run: seq<State>, sched: seq<nat>, k: nat)
    requires IsRun(run, sched) && k < |run|
    ensures Inv(run[k]) && run[k].now == k && |run[k].threads| == |run[0].threads|
    decreases k
  {
    if k == 0 {
      var size :| Init(run[0], size);
      InitOk(run[0], size);
    } else {
      RunsAreOk(run, sched, k - 1);
      assert StepAt(run, sched, k - 1);
      NextKeeps(run[k - 1], run[k], sched[k - 1]);
    }
  }

  // ------------------------------------------------------------- the array is a log

  /** What has been published stays published, at its index, through all migrations. */
  lemma {:induction false} AppendOnly(run: seq<State>, sched: seq<nat>, k: nat, l: nat)
    requires IsRun(run, sched) && k <= l < |run|
    ensures Prefix(Log(run[k].mem), Log(run[l].mem))
    decreases l
  {
    if k < l {
      AppendOnly(run, sched, k, l - 1);
      RunsAreOk(run, sched, l - 1);
      assert StepAt(run, sched, l - 1);
      NextKeeps(run[l - 1], run[l], sched[l - 1]);
    }
  }

  /** A step that changes the log appends the value of one add that is under way. */
  lemma AppendsOneAtATime(run: seq<State>, sched: seq<nat>, k: nat) returns (x: Item)
    requires IsRun(run, sched) && k < |sched| && Log(run[k + 1].mem) != Log(run[k].mem)
    ensures Log(run[k + 1].mem) == Log(run[k].mem) + [x]
    ensures x.called <= k && x.thread < |run[k].threads| && Publishing(run[k].threads[x.thread], x)
  {
    var s, s', t := run[k], run[k + 1], sched[k];
    RunsAreOk(run, sched, k);
    assert StepAt(run, sched, k);
    if !Moves(s, s', t) { EdgeKeeps(s, s', t); }
    assert LocalInv(s.mem, s.threads[t]);
    StepMayPublish(s, s', t);
    x := Claimed(s.mem)[0];
  }

  lemma StepMayPublish(s: State, s': State, t: nat)
    requires Inv(s) && Moves(s, s', t)
    ensures Log(s'.mem) == Log(s.mem) || (|Claimed(s.mem)| == 1 && Log(s'.mem) == Log(s.mem) + [Claimed(s.mem)[0]]
              && Claimed(s.mem)[0] in Claimed(s.mem) && Claimed(s.mem)[0] in Placed(s.mem))
  {
    assert LocalInv(s.mem, s.threads[t]);
    StepEffect(s.mem, s.threads[t]);
  }

  /** When add returns its value has been appended, exactly once, and not before the call. */
  lemma AddedOnce(run: seq<State>, sched: seq<nat>, k: nat, t: nat, item: Item)
    requires IsRun(run, sched) && k < |run| && t < |run[k].threads| && run[k].threads[t] == Done(Add(item), None)
    ensures 1 <= item.called <= k && item.thread == t
    ensures multiset(Log(run[k].mem))[item] == 1 && item !in Log(run[item.called - 1].mem)
  {
    RunsAreOk(run, sched, k);
    assert LocalInv(run[k].mem, run[k].threads[t]) && ItemOk(run[k], t);
    LogHasNoDuplicates(run[k].mem);
    OneOccurrence(Log(run[k].mem), item);
    var b := item.called - 1;
    RunsAreOk(run, sched, b);
    assert forall x :: x in Log(run[b].mem) ==> x in Placed(run[b].mem);
  }

  lemma LogHasNoDuplicates(m: Memory)
    requires NoDuplicates(Placed(m))
    ensures NoDuplicates(Log(m))
  {
    assert forall i :: 0 <= i < |Log(m)| ==> Placed(m)[i] == Log(m)[i];
  }

  lemma {:induction false} OneOccurrence(s: seq<Item>, x: Item)
    requires NoDuplicates(s)
    ensures multiset(s)[x] == if x in s then 1 else 0
  {
    if s != [] {
      var front, last := s[..|s| - 1], s[|s| - 1];
      assert s == front + [last];
      OneOccurrence(front, x);
      assert forall i :: 0 <= i < |front| ==> front[i] != last;
    }
  }

  /** Never a thread that cannot go on, and never one that freezes an empty slot. */
  lemma NeverStuck(run: seq<State>, sched: seq<nat>, k: nat, t: nat)
    requires IsRun(run, sched) && k < |run| && t < |run[k].threads|
    ensures PcOk(run[k].mem, run[k].threads[t]) && !run[k].threads[t].CopyFreeze?
  {
    RunsAreOk(run, sched, k);
    var pc := run[k].threads[t];
    assert LocalInv(run[k].mem, pc);
    if !pc.Idle? && !pc.Done? { EveryStep(run[k].mem, pc); }
  }

  /** A generation is left only when it is full and published, and its successor has the same log. */
  lemma MigratesWhenFull(run: seq<State>, sched: seq<nat>, k: nat)
    requires IsRun(run, sched) && k < |sched| && run[k + 1].mem.cur != run[k].mem.cur
    ensures var m, m' := run[k].mem, run[k + 1].mem;
            m'.cur == m.cur + 1 < |m.gens| && Retired(m.gens[m.cur]) && Log(m') == Log(m)
  {
    var s, s', t := run[k], run[k + 1], sched[k];
    RunsAreOk(run, sched, k);
    assert StepAt(run, sched, k);
    if !Moves(s, s', t) { EdgeKeeps(s, s', t); }
    assert LocalInv(s.mem, s.threads[t]);
    OnlySwapMoves(s.mem, s.threads[t]);
    SwapStep(s.mem, s.threads[t]);
  }

  lemma OnlySwapMoves(m: Memory, pc: Pc)
    requires |m.gens| > 0 && PcOk(m, pc) && !pc.Idle? && !pc.Done? && Step(m, pc).0.cur != m.cur
    ensures pc.Swap? && m.cur == pc.job.p
  {
  }

  /** A new storage has twice the slots of the current one, and at least eight. */
  lemma SuccessorDoubles(run: seq<State>, sched: seq<nat>, k: nat)
    requires IsRun(run, sched) && k < |sched| && |run[k + 1].mem.gens| != |run[k].mem.gens|
    ensures var m, m' := run[k].mem, run[k + 1].mem;
            && |m'.gens| == |m.gens| + 1 == m.cur + 2 && m'.gens[..|m.gens|] == m.gens
            && |m'.gens[m.cur + 1].slots| == if |m.gens[m.cur].slots| < 4 then 8 else 2 * |m.gens[m.cur].slots|
  {
    var s, s', t := run[k], run[k + 1], sched[k];
    RunsAreOk(run, sched, k);
    RunsAreOk(run, sched, k + 1);
    assert StepAt(run, sched, k);
    OnlyAllocGrows(s.mem, s.threads[t]);
  }

  lemma OnlyAllocGrows(m: Memory, pc: Pc)
    requires |m.gens| > 0 && PcOk(m, pc) && !pc.Idle? && !pc.Done? && |Step(m, pc).0.gens| != |m.gens|
    ensures pc.MigrateAlloc? && pc.p + 1 == |m.gens| && Step(m, pc).0 == m.(gens := m.gens + [Fresh(AllocSize(2 * Size(m, pc.p)))])
  {
  }

  // ----------------------------------------------------------------------- get

  /** The state at which the call began that thread `t` runs in state `k`. */
  ghost function CallStart(run: seq<State>, t: nat, k: nat): (b: nat)
    requires k < |run| && forall i :: 0 <= i <= k ==> t < |run[i].threads|
    ensures b <= k
    ensures !run[k].threads[t].Idle? ==> forall i :: b <= i <= k ==> !run[i].threads[t].Idle?
  {
    if k == 0 || run[k - 1].threads[t].Idle? then k else CallStart(run, t, k - 1)
  }

  /** What get answers if the array is `log`. */
  function Lookup(log: seq<Item>, index: nat): Option<Item> {
    if index < |log| then Some(log[index]) else None
  }

  /** At state `j` of the call the log had at most `n` values. */
  ghost predicate WasShort(run: seq<State>, b: nat, k: nat, n: nat, j: nat)
    requires k < |run|
  {
    b <= j <= k && |Log(run[j].mem)| <= n
  }

  ghost predicate GetOk(run: seq<State>, t: nat, k: nat)
    requires k < |run| && forall i :: 0 <= i <= k ==> t < |run[i].threads|
  {
    var pc, b := run[k].threads[t], CallStart(run, t, k);
    && (pc.GetCount? ==> exists j: nat :: WasShort(run, b, k, Count(run[k].mem, pc.p), j))
    && (pc.Done? && pc.op.Get? && pc.result.None? ==> exists j: nat :: WasShort(run, b, k, pc.op.index, j))
  }

  lemma WasShortStays(run: seq<State>, b: nat, k: nat, n: nat, n': nat, j: nat)
    requires k + 1 < |run| && WasShort(run, b, k, n, j) && n <= n'
    ensures WasShort(run, b, k + 1, n', j)
  {
  }

  lemma ThreadsExist(run: seq<State>, sched: seq<nat>, t: nat)
    requires IsRun(run, sched) && t < |run[0].threads|
    ensures forall i :: 0 <= i < |run| ==> t < |run[i].threads|
  {
    forall i | 0 <= i < |run| ensures t < |run[i].threads| {
      RunsAreOk(run, sched, i);
    }
  }

  lemma {:induction false} GetsAreOk(run: seq<State>, sched: seq<nat>, t: nat, k: nat)
    requires IsRun(run, sched) && t < |run[0].threads| && k < |run| && forall i :: 0 <= i < |run| ==> t < |run[i].threads|
    ensures GetOk(run, t, k)
    decreases k
  {
    if k > 0 {
      GetsAreOk(run, sched, t, k - 1);
      RunsAreOk(run, sched, k - 1);
      RunsAreOk(run, sched, k);
      assert StepAt(run, sched, k - 1);
      GetGoesOn(run, sched, t, k - 1);
    }
  }

  lemma CallGoesOn(run: seq<State>, t: nat, k: nat)
    requires k + 1 < |run| && (forall i :: 0 <= i <= k + 1 ==> t < |run[i].threads|) && !run[k].threads[t].Idle?
    ensures CallStart(run, t, k + 1) == CallStart(run, t, k)
  {
  }

  lemma GetGoesOn(run: seq<State>, sched: seq<nat>, t: nat, k: nat)
    requires k + 1 < |run| && (forall i :: 0 <= i < |run| ==> t < |run[i].threads|)
    requires Inv(run[k]) && Inv(run[k + 1]) && StepAt(run, sched, k) && GetOk(run, t, k)
    ensures GetOk(run, t, k + 1)
  {
    var s, s' := run[k], run[k + 1];
    NextKeeps(s, s', sched[k]);
    var pc, pc' := s.threads[t], s'.threads[t];
    if pc'.GetCount? {
      if pc != pc' {
        ReadsCurrent(s, s', sched[k], t);
        assert WasShort(run, CallStart(run, t, k + 1), k + 1, Count(s'.mem, pc'.p), k + 1);
      } else {
        CallGoesOn(run, t, k);
        var j := GetCountStays(run, t, k);
      }
    } else if pc'.Done? && pc'.op.Get? && pc'.result.None? {
      GetDoneFrom(s, s', sched[k], t);
      CallGoesOn(run, t, k);
      var j := GetEnds(run, t, k);
    }
  }

  /** get begins with the storage that is current. */
  lemma ReadsCurrent(s: State, s': State, u: nat, t: nat)
    requires Inv(s) && Next(s, s', u) && t < |s.threads| == |s'.threads| && s'.threads[t].GetCount? && s.threads[t] != s'.threads[t]
    ensures s'.threads[t].p == s'.mem.cur
  {
  }

  /** get finds nothing when its index is not below the count. */
  lemma GetDoneFrom(s: State, s': State, u: nat, t: nat)
    requires Inv(s) && Next(s, s', u) && t < |s.threads| == |s'.threads|
    requires s'.threads[t].Done? && s'.threads[t].op.Get? && s'.threads[t].result.None?
    ensures s.threads[t] == s'.threads[t] || (s.threads[t].GetCount? && Count(s.mem, s.threads[t].p) <= s'.threads[t].op.index)
  {
    assert LocalInv(s.mem, s.threads[t]);
    if s.threads[t].GetSlot? { GetSlotStep(s.mem, s.threads[t]); }
  }

  lemma GetCountStays(run: seq<State>, t: nat, k: nat) returns (j: nat)
    requires k + 1 < |run| && (forall i :: 0 <= i < |run| ==> t < |run[i].threads|)
    requires Inv(run[k]) && Evolves(run[k].mem, run[k + 1].mem) && GetOk(run, t, k)
    requires run[k].threads[t].GetCount?
    ensures WasShort(run, CallStart(run, t, k), k + 1, Count(run[k + 1].mem, run[k].threads[t].p), j)
  {
    var s, s', pc, b := run[k], run[k + 1], run[k].threads[t], CallStart(run, t, k);
    assert LocalInv(s.mem, pc);
    SizeStays(s.mem, s'.mem, pc.p);
    j :| WasShort(run, b, k, Count(s.mem, pc.p), j);
    WasShortStays(run, b, k, Count(s.mem, pc.p), Count(s'.mem, pc.p), j);
  }

  lemma GetEnds(run: seq<State>, t: nat, k: nat) returns (j: nat)
    requires k + 1 < |run| && (forall i :: 0 <= i < |run| ==> t < |run[i].threads|) && GetOk(run, t, k)
    requires var pc' := run[k + 1].threads[t];
             && pc'.Done? && pc'.op.Get? && pc'.result.None?
             && (run[k].threads[t] == pc' ||
                 (run[k].threads[t].GetCount? && Count(run[k].mem, run[k].threads[t].p) <= pc'.op.index))
    ensures WasShort(run, CallStart(run, t, k), k + 1, run[k + 1].threads[t].op.index, j)
  {
    var pc, index, b := run[k].threads[t], run[k + 1].threads[t].op.index, CallStart(run, t, k);
    var n := if pc.GetCount? then Count(run[k].mem, pc.p) else index;
    j :| WasShort(run, b, k, n, j);
    WasShortStays(run, b, k, n, index, j);
  }

  /** Every get answers what the log has at its index, at some instant between call and return. */
  lemma GetIsCurrent(run: seq<State>, sched: seq<nat>, k: nat, t: nat)
    requires IsRun(run, sched) && k < |run| && t < |run[k].threads|
    requires run[k].threads[t].Done? && run[k].threads[t].op.Get?
    ensures forall i :: 0 <= i < |run| ==> t < |run[i].threads|
    ensures exists j: nat :: CallStart(run, t, k) <= j <= k
              && Lookup(Log(run[j].mem), run[k].threads[t].op.index) == run[k].threads[t].result
  {
    RunsAreOk(run, sched, k);
    ThreadsExist(run, sched, t);
    GetsAreOk(run, sched, t, k);
    var pc, b := run[k].threads[t], CallStart(run, t, k);
    assert LocalInv(run[k].mem, pc);
    if pc.result.Some? {
      assert b <= k <= k && Lookup(Log(run[k].mem), pc.op.index) == pc.result;
    } else {
      var j: nat :| WasShort(run, b, k, pc.op.index, j);
      assert b <= j <= k && Lookup(Log(run[j].mem), pc.op.index) == pc.result;
    }
  }
}
