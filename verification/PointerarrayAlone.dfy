/**
 A call on the pointer array that runs alone ends: from every state of every run, if only
 one thread goes on, it answers.
 */
module PointerarrayAlone {
  import opened PointerarrayModel
  import opened PointerarrayInvariant
  import opened PointerarrayProof
  import opened PointerarrayRuns
  import opened Ranks

  // --------------------------------------------------------------------- ranks

  predicate Pending(m: Memory) {
    m.cur + 1 < |m.gens|
  }

  /** The current storage is full, or will be once what has been claimed is published. */
  function LevelOf(m: Memory): nat {
    if |Placed(m)| >= Size(m, m.cur) then 1 else 0
  }

  /** How often a call may still start over that tries storage `p`, given how full that is. */
  function TryNeed(m: Memory, p: nat, level: nat): nat {
    if p < m.cur then 3 else if Pending(m) then 2 else level
  }

  /** The same for one that migrates storage `p`: the successor has room. */
  function MoveNeed(m: Memory, p: nat): nat {
    if p < m.cur then 2 else 0
  }

  function ReadNeed(m: Memory): nat {
    if Pending(m) then 2 else LevelOf(m)
  }

  /** Slots of storage `d` that are not published. */
  function Unpublished(m: Memory, d: nat): nat {
    Minus(Size(m, d), Count(m, d))
  }

  /** The first slot that is not published has been filled. */
  predicate Waiting(m: Memory, d: nat) {
    SlotAt(m, d, Count(m, d)).Filled?
  }

  /** Where publish is; a stale count costs another look. */
  function PubStage(m: Memory, pc: Pc): nat {
    match pc
    case PubIndex(_, _) => 7
    case PubSlot(d, k, _) => if k == Count(m, d) then 6 else 12
    case PubCas(d, k, _) => if k == Count(m, d) then 5 else 11
    case _ => 0
  }

  /** What copy is to find in its slot before it retires it. */
  function Stale(m: Memory, p: nat, j: nat, item: Item): nat {
    if SlotAt(m, p, j) in {Redirect, Filled(item)} then 0 else 10
  }

  function MigrationRank(m: Memory, p: nat, j: nat, stage: nat, probe: nat): Rank {
    Rank(MoveNeed(m, p), MIGRATES, Minus(Size(m, p) + 1, j), stage, probe)
  }

  function PubRank(m: Memory, d: nat, then_: Then, stage: nat): Rank {
    match then_
    case AddTried(_, _, won) =>
      if won then Rank(0, ENDS, Unpublished(m, d), stage, 0)
      else Rank(TryNeed(m, d, LevelOf(m)), TRIES, Unpublished(m, d), stage, 0)
    case PutTried(job, j, item) => MigrationRank(m, job.p, j, Stale(m, job.p, j, item) + 4, 16 * Unpublished(m, d) + stage)
    case CopyEnds(job) => MigrationRank(m, job.p, Size(m, job.p), 4, 16 * Unpublished(m, d) + stage)
  }

  function RankOf(m: Memory, pc: Pc): Rank {
    match pc
    case Idle => Rank(0, 0, 0, 0, 0)
    case Done(_, _) => Rank(0, 0, 0, 0, 0)
    case ReadStorage(op) => Rank(ReadNeed(m), READS, 0, 0, 0)
    case AddIndex(item, p) => Rank(TryNeed(m, p, LevelOf(m)), TRIES, Unpublished(m, p), if Waiting(m, p) then 9 else 4, 0)
    case AddSlot(item, p, i) => Rank(TryNeed(m, p, LevelOf(m)), TRIES, Unpublished(m, p), if SlotAt(m, p, i) == Empty then 3 else 8, 0)
    case PubIndex(d, then_) => PubRank(m, d, then_, PubStage(m, pc))
    case PubSlot(d, k, then_) => PubRank(m, d, then_, PubStage(m, pc))
    case PubCas(d, k, then_) => PubRank(m, d, then_, PubStage(m, pc))
    case GetCount(index, p) => Rank(TryNeed(m, p, 0), TRIES, 0, 2, 0)
    case GetSlot(index, p) => Rank(TryNeed(m, p, 0), TRIES, 0, 1, 0)
    case MigrateCheck(op, p) => Rank(MoveNeed(m, p), MIGRATES, Size(m, p) + 4, 0, 0)
    case MigrateNext(op, p) => Rank(MoveNeed(m, p), MIGRATES, Size(m, p) + 3, 0, 0)
    case MigrateAlloc(op, p) => Rank(MoveNeed(m, p), MIGRATES, Size(m, p) + 2, 0, 0)
    case CopySlot(job, dst, j) => MigrationRank(m, job.p, j, 29, 0)
    case CopyFreeze(job, dst, j) => MigrationRank(m, job.p, j, 28, 0)
    case PutCas(job, dst, j, item) => MigrationRank(m, job.p, j, Stale(m, job.p, j, item) + (if dst + 1 < |m.gens| then 7 else 5), 0)
    case PutNext(job, dst, j, item) => MigrationRank(m, job.p, j, Stale(m, job.p, j, item) + 6, 0)
    case CopyRetire(job, dst, j, item) => MigrationRank(m, job.p, j, Stale(m, job.p, j, item) + 3, 0)
    case Swap(job) => Rank(MoveNeed(m, job.p), MIGRATES, 0, 0, 0)
  }

  predicate CanMove(m: Memory, pc: Pc) {
    |m.gens| > 0 && PcOk(m, pc) && !pc.Idle? && !pc.Done?
  }

  predicate Descends(m: Memory, pc: Pc)
    requires CanMove(m, pc)
  {
    var (m', pc') := Step(m, pc);
    pc'.Done? || Lower(RankOf(m', pc'), RankOf(m, pc))
  }

  // ------------------------------------------------------------------ add and get

  lemma ReadDescends(m: Memory, pc: Pc)
    requires CanMove(m, pc) && MemInv(m) && pc.ReadStorage?
    ensures Descends(m, pc)
  {
  }

  lemma GetDescends(m: Memory, pc: Pc)
    requires CanMove(m, pc) && MemInv(m) && LocalInv(m, pc) && (pc.GetCount? || pc.GetSlot?)
    ensures Descends(m, pc)
  {
  }

  /** A storage without a successor has no redirected slot, and nothing after the first slot that is not published. */
  lemma AddDescends(m: Memory, pc: Pc)
    requires CanMove(m, pc) && MemInv(m) && LocalInv(m, pc) && (pc.AddIndex? || pc.AddSlot?)
    ensures Descends(m, pc)
  {
    var p := pc.p;
    assert p < m.cur ==> Retired(m.gens[p]);
    assert GenOk(m.gens[p]);
    if pc.AddSlot? && SlotAt(m, p, pc.i) == Empty { AddsAtCount(m, p, pc.i); }
  }

  // --------------------------------------------------------------------- publish

  predicate Publishes(pc: Pc) {
    pc.PubIndex? || pc.PubSlot? || pc.PubCas?
  }

  /** Leaving publish. */
  lemma ContinueLower(m: Memory, d: nat, then_: Then, stage: nat)
    requires ThenOk(m, d, then_) && !Waiting(m, d) && stage > 4
    ensures Continue(d, then_).Done? || Lower(RankOf(m, Continue(d, then_)), PubRank(m, d, then_, stage))
  {
  }

  /** A stale look at the slot leaves publish too, if it finds the slot redirected. */
  lemma StaleContinueLower(m: Memory, d: nat, then_: Then)
    requires ThenOk(m, d, then_)
    ensures Continue(d, then_).Done? || Lower(RankOf(m, Continue(d, then_)), PubRank(m, d, then_, 12))
  {
  }

  lemma NextLookLower(m: Memory, d: nat, then_: Then, stage: nat, stage': nat)
    requires stage' < stage
    ensures Lower(PubRank(m, d, then_, stage'), PubRank(m, d, then_, stage))
  {
  }

  lemma LookDescends(m: Memory, pc: Pc)
    requires CanMove(m, pc) && LocalInv(m, pc) && Publishes(pc) && (pc.PubCas? ==> Count(m, pc.d) != pc.k)
    ensures Descends(m, pc)
  {
    var d, stage, pc' := pc.d, PubStage(m, pc), Step(m, pc).1;
    if pc.PubIndex? && Count(m, d) >= Size(m, d) {
      ContinueLower(m, d, pc.then_, 7);
    } else if pc.PubSlot? && !SlotAt(m, d, pc.k).Filled? {
      if pc.k == Count(m, d) { ContinueLower(m, d, pc.then_, 6); } else { StaleContinueLower(m, d, pc.then_); }
    } else {
      assert Publishes(pc') && pc'.d == d && pc'.then_ == pc.then_;
      NextLookLower(m, d, pc.then_, stage, PubStage(m, pc'));
    }
  }

  ghost predicate SameSlots(m: Memory, m': Memory) {
    m'.cur == m.cur && |m'.gens| == |m.gens| && forall g :: 0 <= g < |m.gens| ==> m'.gens[g].slots == m.gens[g].slots
  }

  /** Counting a slot leaves everything else as it is. */
  lemma CountLeaves(m: Memory, d: nat)
    requires MemInv(m) && d < |m.gens| && Count(m, d) < Size(m, d) && SlotAt(m, d, Count(m, d)) != Empty
    ensures var m' := WithCount(m, d, Count(m, d) + 1);
            SameSlots(m, m') && Unpublished(m', d) + 1 == Unpublished(m, d) && LevelOf(m') == LevelOf(m)
  {
    PublishKeeps(m, d);
    var m' := WithCount(m, d, Count(m, d) + 1);
    assert SameSlots(m, m');
    assert |Placed(m')| == |Placed(m)|;
  }

  lemma CountLower(m: Memory, m': Memory, d: nat, then_: Then)
    requires SameSlots(m, m') && Unpublished(m', d) + 1 == Unpublished(m, d) && LevelOf(m') == LevelOf(m)
    ensures Lower(PubRank(m', d, then_, 7), PubRank(m, d, then_, 5))
  {
    if !then_.AddTried? {
      var p := then_.job.p;
      assert p < |m.gens| ==> m'.gens[p].slots == m.gens[p].slots;
    }
  }

  lemma CountDescends(m: Memory, pc: Pc)
    requires CanMove(m, pc) && MemInv(m) && LocalInv(m, pc) && pc.PubCas? && Count(m, pc.d) == pc.k
    ensures Descends(m, pc)
  {
    CountLeaves(m, pc.d);
    CountLower(m, WithCount(m, pc.d, pc.k + 1), pc.d, pc.then_);
    assert Step(m, pc) == (WithCount(m, pc.d, pc.k + 1), PubIndex(pc.d, pc.then_));
  }

  // ----------------------------------------------------------------- migrations

  lemma NextDescends(m: Memory, pc: Pc)
    requires CanMove(m, pc) && MemInv(m) && LocalInv(m, pc) && (pc.MigrateCheck? || pc.MigrateNext? || pc.MigrateAlloc?)
    ensures Descends(m, pc)
  {
    var m' := Step(m, pc).0;
    assert m' == m || m' == m.(gens := m.gens + [Fresh(AllocSize(2 * Size(m, pc.p)))]);
    assert Size(m', pc.p) == Size(m, pc.p);
  }

  predicate OnSlot(pc: Pc) {
    pc.CopySlot? || pc.PutCas? || pc.PutNext? || pc.CopyRetire?
  }

  /** A storage without a successor has no redirected slot. */
  lemma LastIsOpen(m: Memory, j: nat)
    requires MemInv(m) && j < Size(m, |m.gens| - 1)
    ensures SlotAt(m, |m.gens| - 1, j) != Redirect
  {
  }

  lemma SlotGoesOn(m: Memory, pc: Pc)
    requires CanMove(m, pc) && LocalInv(m, pc) && OnSlot(pc) && Step(m, pc).0 == m && !Step(m, pc).1.CopyFreeze?
    requires pc.PutCas? && SlotAt(m, pc.dst, pc.j) == Redirect ==> pc.dst + 1 < |m.gens|
    ensures Descends(m, pc)
  {
  }

  lemma PutDescends(m: Memory, pc: Pc)
    requires CanMove(m, pc) && LocalInv(m, pc) && pc.PutCas? && SlotAt(m, pc.dst, pc.j) == Empty
    ensures Descends(m, pc)
  {
    var m', p := WithSlot(m, pc.dst, pc.j, Filled(pc.item)), pc.job.p;
    assert Step(m, pc) == (m', PubIndex(pc.dst, PutTried(pc.job, pc.j, pc.item)));
    assert m'.gens[p] == m.gens[p];
  }

  lemma RetireDescends(m: Memory, pc: Pc)
    requires CanMove(m, pc) && LocalInv(m, pc) && pc.CopyRetire? && SlotAt(m, pc.job.p, pc.j) == Filled(pc.item)
    ensures Descends(m, pc)
  {
    var m' := WithSlot(m, pc.job.p, pc.j, Redirect);
    assert Step(m, pc) == (m', CopySlot(pc.job, pc.dst, pc.j + 1));
    assert Size(m', pc.job.p) == Size(m, pc.job.p);
  }

  lemma SlotDescends(m: Memory, pc: Pc)
    requires CanMove(m, pc) && MemInv(m) && LocalInv(m, pc) && OnSlot(pc)
    ensures Descends(m, pc)
  {
    if pc.PutCas? && SlotAt(m, pc.dst, pc.j) == Empty {
      PutDescends(m, pc);
    } else if pc.CopyRetire? && SlotAt(m, pc.job.p, pc.j) == Filled(pc.item) {
      RetireDescends(m, pc);
    } else {
      EveryStep(m, pc);
      if pc.PutCas? && pc.dst + 1 == |m.gens| { LastIsOpen(m, pc.j); }
      SlotGoesOn(m, pc);
    }
  }

  /** The successor has room for more than what was carried to it. */
  lemma SwapDescends(m: Memory, pc: Pc)
    requires CanMove(m, pc) && MemInv(m) && LocalInv(m, pc) && pc.Swap?
    ensures Descends(m, pc)
  {
    if m.cur == pc.job.p {
      SwapKeeps(m);
      assert SizeOk(m, m.cur + 1);
      assert |Log(m)| == Size(m, m.cur);
    }
  }

  /** Every step of a call that runs alone ends it or brings it nearer to its end. */
  lemma StepDescends(m: Memory, pc: Pc)
    requires CanMove(m, pc) && MemInv(m) && LocalInv(m, pc)
    ensures Descends(m, pc)
  {
    if pc.ReadStorage? {
      ReadDescends(m, pc);
    } else if pc.GetCount? || pc.GetSlot? {
      GetDescends(m, pc);
    } else if pc.AddIndex? || pc.AddSlot? {
      AddDescends(m, pc);
    } else if Publishes(pc) {
      if pc.PubCas? && Count(m, pc.d) == pc.k { CountDescends(m, pc); } else { LookDescends(m, pc); }
    } else if OnSlot(pc) {
      SlotDescends(m, pc);
    } else if pc.Swap? {
      SwapDescends(m, pc);
    } else {
      NextDescends(m, pc);
    }
  }

  // ----------------------------------------------------------------------- runs

  predicate InProgress(s: State, t: nat) {
    t < |s.threads| && !s.threads[t].Idle?
  }

  function LastRank(run: seq<State>, t: nat): Rank
    requires run != [] && InProgress(run[|run| - 1], t)
  {
    RankOf(run[|run| - 1].mem, run[|run| - 1].threads[t])
  }

  lemma OneStepAlone(run: seq<State>, sched: seq<nat>, t: nat) returns (s': State)
    requires IsRun(run, sched) && InProgress(run[|run| - 1], t) && !run[|run| - 1].threads[t].Done?
    ensures IsRun(run + [s'], sched + [t]) && InProgress(s', t) && OpOf(s'.threads[t]) == OpOf(run[|run| - 1].threads[t])
    ensures s'.threads[t].Done? || Lower(LastRank(run + [s'], t), LastRank(run, t))
  {
    var s := run[|sched|];
    RunsAreOk(run, sched, |sched|);
    NeverStuck(run, sched, |sched|, t);
    assert LocalInv(s.mem, s.threads[t]);
    StepDescends(s.mem, s.threads[t]);
    OpKept(s.mem, s.threads[t]);
    var (m, pc) := Step(s.mem, s.threads[t]);
    s' := State(m, s.threads[t := pc], s.now + 1);
    assert Moves(s, s', t);
    RunGoesOn(run, sched, t, s');
  }

  lemma RunGoesOn(run: seq<State>, sched: seq<nat>, t: nat, s': State)
    requires IsRun(run, sched) && Moves(run[|sched|], s', t)
    ensures IsRun(run + [s'], sched + [t])
  {
    var run', sched' := run + [s'], sched + [t];
    forall i: nat | i < |sched'| ensures StepAt(run', sched', i) {
      if i < |sched| {
        assert StepAt(run, sched, i);
      }
    }
    var size :| Init(run[0], size);
    assert Init(run'[0], size);
  }

  /** From every state of every run: if thread `t` goes on alone, its call ends. */
  lemma {:induction false} EndsAlone(run: seq<State>, sched: seq<nat>, t: nat) returns (more: seq<State>)
    requires IsRun(run, sched) && InProgress(run[|run| - 1], t)
    ensures IsRun(run + more, sched + seq(|more|, _ => t))
    ensures var s := (run + more)[|run + more| - 1];
            t < |s.threads| && OpOf(s.threads[t]) == OpOf(run[|run| - 1].threads[t]) && s.threads[t].Done?
    decreases LastRank(run, t).need, LastRank(run, t).phase, LastRank(run, t).slot, LastRank(run, t).stage, LastRank(run, t).probe
  {
    if run[|run| - 1].threads[t].Done? {
      more := [];
      assert run + more == run && sched + seq(|more|, _ => t) == sched;
    } else {
      var s' := OneStepAlone(run, sched, t);
      if s'.threads[t].Done? {
        more := [s'];
        assert sched + seq(|more|, _ => t) == sched + [t];
      } else {
        var rest := EndsAlone(run + [s'], sched + [t], t);
        more := [s'] + rest;
        assert run + more == run + [s'] + rest;
        StepsOf(sched, t, |rest|);
      }
    }
  }
}
