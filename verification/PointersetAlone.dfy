/**
 A call on the pointer set that runs alone ends: from every state of every run, if only one
 thread goes on, it answers.
 */
module PointersetAlone {
  import opened MapSpec
  import opened Probing
  import opened Sizes
  import opened PointersetModel
  import opened PointersetInvariant
  import opened PointersetProof
  import opened PointersetRuns
  import opened Occupancy
  import opened PointersetOccupancy
  import opened Ranks

  // --------------------------------------------------------------------- ranks

  predicate Pending(m: Memory) {
    m.cur + 1 < |m.gens|
  }

  ghost function Taken(m: Memory, g: nat): nat
    requires g < |m.gens|
  {
    |Claims(m.gens[g]).Keys|
  }

  /** How full a storage is. The empty storage has to be left. */
  ghost function LevelAt(m: Memory, g: nat): nat
    requires g < |m.gens|
  {
    if m.gens[g].constant then 1 else Level(Taken(m, g), Size(m, g))
  }

  /** How often a call may still start over that tries storage `g`, given how full that is. */
  function TryNeed(m: Memory, g: nat, level: nat): nat {
    if g < m.cur then 4 else if Pending(m) then 3 else level
  }

  /** The same for one that migrates storage `g`. */
  ghost function MoveNeed(m: Memory, g: nat): nat
    requires g < |m.gens|
  {
    if g < m.cur then 3 else Level(Taken(m, g), if g + 1 < |m.gens| then Size(m, g + 1) else AllocSize(2 * Size(m, g)))
  }

  ghost function ReadNeed(m: Memory): nat
    requires m.cur < |m.gens|
  {
    if Pending(m) then 3 else LevelAt(m, m.cur)
  }

  /** What copy is to find in its slot before it retires it. */
  function Stale(m: Memory, job: Job, p: nat): nat {
    if JobInRange(m, job) && Read(m.gens[job.g].slots[job.j]) in {Redirect, Member(p)} then 0 else 10
  }

  ghost function MigrationRank(m: Memory, job: Job, stage: nat, probe: nat): Rank {
    if job.g < |m.gens| then Rank(MoveNeed(m, job.g), MIGRATES, Minus(Size(m, job.g), job.j), stage, probe) else Rank(0, 0, 0, 0, 0)
  }

  ghost function RankOf(m: Memory, pc: Pc): Rank
    requires Shaped(m) && PcOk(m, pc)
  {
    match pc
    case Idle => Rank(0, 0, 0, 0, 0)
    case Done(_, _) => Rank(0, 0, 0, 0, 0)
    case ReadStorage => Rank(ReadNeed(m), READS, 0, 0, 0)
    case MemberProbe(g, i) => Rank(TryNeed(m, g, 0), TRIES, 0, 4, Minus(Size(m, g), i))
    case ReadCount(g) => Rank(TryNeed(m, g, LevelAt(m, g)), TRIES, 0, 5, 0)
    case RegisterRead(g, i) => Rank(TryNeed(m, g, LevelAt(m, g)), TRIES, 0, 4, 2 * Minus(Size(m, g), i) + 1)
    case RegisterCas(g, i) => Rank(TryNeed(m, g, LevelAt(m, g)), TRIES, 0, 4, 2 * Minus(Size(m, g), i))
    case MigrateCheck(g) => if g < |m.gens| then Rank(MoveNeed(m, g), MIGRATES, Size(m, g) + 3, 0, 0) else Rank(0, 0, 0, 0, 0)
    case NextRead(g) => Rank(MoveNeed(m, g), MIGRATES, Size(m, g) + 2, 0, 0)
    case NextCas(g) => Rank(MoveNeed(m, g), MIGRATES, Size(m, g) + 1, 0, 0)
    case CopyRead(job) => MigrationRank(m, job, 29, 0)
    case CopyFreeze(job) => MigrationRank(m, job, if Read(m.gens[job.g].slots[job.j]) == Vacant then 1 else 25, 0)
    case PutRead(job, p, i) => MigrationRank(m, job, Stale(m, job, p) + 5, 2 * Minus(Size(m, job.q), i) + 1)
    case PutCas(job, p, i) => MigrationRank(m, job, Stale(m, job, p) + 5, 2 * Minus(Size(m, job.q), i))
    case PutIncrement(job, p) => MigrationRank(m, job, Stale(m, job, p) + 4, 0)
    case Retire(job, p) => MigrationRank(m, job, Stale(m, job, p) + 2, 0)
    case Swap(job) => if job.g < |m.gens| then Rank(MoveNeed(m, job.g), MIGRATES, 0, 0, 0) else Rank(0, 0, 0, 0, 0)
  }

  /** What the descent of a step needs to know. */
  ghost predicate Ready(m: Memory, op: Op, pc: Pc, a: map<nat, Value>) {
    && MemInv(m) && Shaped(m) && PcOk(m, pc) && LocalInv(m, op, pc, a) && !pc.Idle? && !pc.Done?
    && m.gens[m.cur].nUsed <= Taken(m, m.cur)
  }

  ghost predicate Descends(m: Memory, op: Op, pc: Pc)
    requires Shaped(m) && PcOk(m, pc)
  {
    var (m', pc') := Step(m, op, pc);
    Shaped(m') && PcOk(m', pc') && (pc'.Done? || Lower(RankOf(m', pc'), RankOf(m, pc)))
  }

  // ------------------------------------------------------------------- attempts

  /** Who finds a storage busy starts over with a lower need. */
  lemma BusyIsLower(m: Memory, g: nat, level: nat)
    requires MemInv(m) && g <= m.cur
    requires g == m.cur && !Pending(m) ==> level == LevelAt(m, g) > 0
    ensures MoveNeed(m, g) < TryNeed(m, g, level)
  {
    if g == m.cur && !Pending(m) {
      PointersAreDistinct(m.gens[g]);
      if m.gens[g].constant {
        assert Claims(m.gens[g]).Keys == {};
      } else {
        DoublingHelps(Taken(m, g), Size(m, g), AllocSize(2 * Size(m, g)));
      }
    }
  }

  lemma ReadDescends(m: Memory, op: Op)
    requires Shaped(m)
    ensures Descends(m, op, ReadStorage)
  {
  }

  lemma CountDescends(m: Memory, op: Op, pc: Pc, a: map<nat, Value>)
    requires Ready(m, op, pc, a) && pc.ReadCount?
    ensures Descends(m, op, pc)
  {
    if MustMigrate(m.gens[pc.g]) { BusyIsLower(m, pc.g, LevelAt(m, pc.g)); }
  }

  /** A whole round of probes meets other pointers only: the storage is full. */
  lemma FullRound(gen: Generation, p: nat, i: nat)
    requires GenOk(gen) && Passed(gen, p, i) && i >= |gen.slots|
    ensures |Claims(gen).Keys| == |gen.slots| && !gen.constant
  {
    forall k: nat | k < |gen.slots| ensures k in Claims(gen).Keys {
      var i0 := ProbeCovers(p, k, |gen.slots|);
    }
    assert Claims(gen).Keys == Counting.Below(|gen.slots|);
    assert 0 in Claims(gen);
  }

  /** register finds the storage redirected or full. */
  predicate RegisterIsBusy(m: Memory, p: nat, g: nat, i: nat)
    requires Shaped(m) && g < |m.gens|
  {
    var x := ReadAt(m, g, p, i);
    x != Vacant && x != Member(p) && (x == Redirect || i + 1 >= Size(m, g))
  }

  lemma RegisterIsLower(m: Memory, p: nat, g: nat, i: nat)
    requires MemInv(m) && Shaped(m) && g <= m.cur && Seeking(m, g, p, i) && RegisterIsBusy(m, p, g, i)
    ensures MoveNeed(m, g) < TryNeed(m, g, LevelAt(m, g))
  {
    if g == m.cur && !Pending(m) {
      PassOne(m, g, p, i);
      FullRound(m.gens[g], p, i + 1);
    }
    BusyIsLower(m, g, LevelAt(m, g));
  }

  lemma RegisterGoesOn(m: Memory, op: Op, pc: Pc)
    requires Shaped(m) && PcOk(m, pc) && (pc.RegisterRead? || pc.RegisterCas?) && pc.i < Size(m, pc.g)
    requires !RegisterIsBusy(m, Hash(op), pc.g, pc.i) && (pc.RegisterCas? ==> ReadAt(m, pc.g, Hash(op), pc.i) != Vacant)
    ensures Descends(m, op, pc)
  {
    assert Step(m, op, pc).0 == m;
  }

  lemma RegisterGivesUp(m: Memory, op: Op, pc: Pc)
    requires Shaped(m) && PcOk(m, pc) && (pc.RegisterRead? || pc.RegisterCas?) && RegisterIsBusy(m, Hash(op), pc.g, pc.i)
    requires MoveNeed(m, pc.g) < TryNeed(m, pc.g, LevelAt(m, pc.g))
    ensures Descends(m, op, pc)
  {
    assert Step(m, op, pc) == (m, MigrateCheck(pc.g));
  }

  lemma RegisterDescends(m: Memory, op: Op, pc: Pc, a: map<nat, Value>)
    requires Ready(m, op, pc, a) && (pc.RegisterRead? || pc.RegisterCas?)
    ensures Descends(m, op, pc)
  {
    if RegisterIsBusy(m, Hash(op), pc.g, pc.i) {
      RegisterIsLower(m, Hash(op), pc.g, pc.i);
      RegisterGivesUp(m, op, pc);
    } else if pc.RegisterRead? || ReadAt(m, pc.g, Hash(op), pc.i) != Vacant {
      RegisterGoesOn(m, op, pc);
    } else {
      EveryStep(m, op, pc, a);
    }
  }

  lemma MemberDescends(m: Memory, op: Op, pc: Pc, a: map<nat, Value>)
    requires Ready(m, op, pc, a) && pc.MemberProbe?
    ensures Descends(m, op, pc)
  {
    if ReadAt(m, pc.g, Hash(op), pc.i) == Redirect {
      if pc.g < m.cur || Pending(m) { BusyIsLower(m, pc.g, 0); }
    }
  }

  lemma CallDescends(m: Memory, op: Op, pc: Pc, a: map<nat, Value>)
    requires Ready(m, op, pc, a) && InCall(pc)
    ensures Descends(m, op, pc)
  {
    if pc.ReadStorage? {
      ReadDescends(m, op);
    } else if pc.ReadCount? {
      CountDescends(m, op, pc, a);
    } else if pc.MemberProbe? {
      MemberDescends(m, op, pc, a);
    } else {
      RegisterDescends(m, op, pc, a);
    }
  }

  // ------------------------------------------------------------------ migrations

  /** The memory means the same to the migration of storage `g`. */
  ghost predicate SameToCopy(m: Memory, m': Memory, g: nat) {
    && Shaped(m') && g < |m.gens| == |m'.gens| && m'.cur == m.cur
    && MoveNeed(m', g) == MoveNeed(m, g) && Size(m', g) == Size(m, g)
  }

  lemma RedirectIsSame(m: Memory, g: nat, k: nat)
    requires Shaped(m) && g < |m.gens| && k < |m.gens[g].slots|
    ensures SameToCopy(m, WithRedirect(m, g, k), g)
  {
    var m' := WithRedirect(m, g, k);
    assert Claims(m'.gens[g]).Keys == Claims(m.gens[g]).Keys;
    assert Shaped(m') && (g + 1 < |m.gens| ==> m'.gens[g + 1] == m.gens[g + 1]);
  }

  lemma OtherIsSame(m: Memory, g: nat, d: nat, gen: Generation)
    requires Shaped(m) && g < |m.gens| && d < |m.gens| && d != g && |gen.slots| == |m.gens[d].slots|
    ensures SameToCopy(m, m.(gens := m.gens[d := gen]), g)
  {
    var m' := m.(gens := m.gens[d := gen]);
    assert m'.gens[g] == m.gens[g] && Shaped(m');
    assert g + 1 < |m.gens| ==> Size(m', g + 1) == Size(m, g + 1);
  }

  lemma NextGoesOn(m: Memory, op: Op, pc: Pc)
    requires Shaped(m) && PcOk(m, pc) && (pc.MigrateCheck? || pc.NextRead? || (pc.NextCas? && |m.gens| - 1 != pc.g)) && pc.g <= m.cur
    ensures Descends(m, op, pc)
  {
    assert Step(m, op, pc).0 == m;
  }

  lemma NextIsMade(m: Memory, op: Op, pc: Pc)
    requires Shaped(m) && PcOk(m, pc) && pc.NextCas? && |m.gens| - 1 == pc.g
    ensures Descends(m, op, pc)
  {
    var m' := Step(m, op, pc).0;
    assert m' == m.(gens := m.gens + [Fresh(2 * Size(m, pc.g))]);
    assert m'.gens[pc.g] == m.gens[pc.g] && Size(m', pc.g + 1) == AllocSize(2 * Size(m, pc.g)) && Shaped(m');
  }

  predicate OnSlot(pc: Pc) {
    pc.CopyRead? || pc.CopyFreeze? || pc.Retire?
  }

  /** copy redirects its slot and goes on to the next. */
  predicate Redirects(m: Memory, pc: Pc)
    requires PcOk(m, pc) && OnSlot(pc)
  {
    || (pc.CopyFreeze? && Read(m.gens[pc.job.g].slots[pc.job.j]) == Vacant)
    || (pc.Retire? && Read(m.gens[pc.job.g].slots[pc.job.j]) == Member(pc.p))
  }

  lemma RedirectDescends(m: Memory, op: Op, pc: Pc)
    requires Shaped(m) && PcOk(m, pc) && OnSlot(pc) && Redirects(m, pc)
    ensures Descends(m, op, pc)
  {
    RedirectIsSame(m, pc.job.g, pc.job.j);
    assert Step(m, op, pc) == (WithRedirect(m, pc.job.g, pc.job.j), NextSlot(pc.job));
  }

  lemma SlotGoesOn(m: Memory, op: Op, pc: Pc)
    requires Shaped(m) && PcOk(m, pc) && OnSlot(pc) && !Redirects(m, pc) && pc.job.q < |m.gens|
    ensures Descends(m, op, pc)
  {
    assert Step(m, op, pc).0 == m;
  }

  predicate Puts(pc: Pc) {
    pc.PutRead? || pc.PutCas? || pc.PutIncrement?
  }

  /** What a step of put leaves alone. */
  ghost predicate PutLeaves(m: Memory, m': Memory, job: Job, p: nat) {
    && SameToCopy(m, m', job.g) && Stale(m', job, p) == Stale(m, job, p) && job.q < |m.gens|
    && Size(m', job.q) == Size(m, job.q)
  }

  lemma PutChanges(m: Memory, job: Job, p: nat, gen: Generation)
    requires Shaped(m) && job.g < job.q < |m.gens| && |gen.slots| == |m.gens[job.q].slots|
    ensures PutLeaves(m, m.(gens := m.gens[job.q := gen]), job, p)
  {
    OtherIsSame(m, job.g, job.q, gen);
  }

  lemma PutMemory(m: Memory, op: Op, pc: Pc)
    requires Shaped(m) && PcOk(m, pc) && Puts(pc) && pc.job.g < pc.job.q < |m.gens|
    ensures PutLeaves(m, Step(m, op, pc).0, pc.job, pc.p)
  {
    var q := pc.job.q;
    if pc.PutCas? && ReadAt(m, q, pc.p, pc.i) == Vacant {
      PutChanges(m, pc.job, pc.p, WithMember(m, q, Pos(m, q, pc.p, pc.i), pc.p).gens[q]);
    } else if pc.PutIncrement? {
      PutChanges(m, pc.job, pc.p, WithIncrement(m, q).gens[q]);
    } else {
      assert Step(m, op, pc).0 == m;
    }
  }

  lemma PutGoesOn(m: Memory, op: Op, pc: Pc)
    requires Shaped(m) && PcOk(m, pc) && (pc.PutRead? || (pc.PutCas? && ReadAt(m, pc.job.q, pc.p, pc.i) != Vacant))
    requires JobInRange(m, pc.job) && pc.i < Size(m, pc.job.q)
    ensures Descends(m, op, pc)
  {
    assert Step(m, op, pc).0 == m;
  }

  lemma PutLowers(m: Memory, op: Op, pc: Pc)
    requires Shaped(m) && PcOk(m, pc) && (pc.PutIncrement? || (pc.PutCas? && ReadAt(m, pc.job.q, pc.p, pc.i) == Vacant))
    requires JobInRange(m, pc.job) && PutLeaves(m, Step(m, op, pc).0, pc.job, pc.p)
    ensures Descends(m, op, pc)
  {
    assert Step(m, op, pc).1 == if pc.PutCas? then PutIncrement(pc.job, pc.p) else Retire(pc.job, pc.p);
  }

  lemma PutDescends(m: Memory, op: Op, pc: Pc, a: map<nat, Value>)
    requires Ready(m, op, pc, a) && Puts(pc)
    ensures Descends(m, op, pc)
  {
    if pc.PutRead? || (pc.PutCas? && ReadAt(m, pc.job.q, pc.p, pc.i) != Vacant) {
      PutGoesOn(m, op, pc);
    } else {
      PutMemory(m, op, pc);
      PutLowers(m, op, pc);
    }
  }

  /** The successor is no fuller than what was carried to it. */
  lemma SuccessorIsNoFuller(m: Memory)
    requires MemInv(m) && Pending(m)
    ensures LevelAt(m, m.cur + 1) <= MoveNeed(m, m.cur)
  {
    var g := m.cur;
    assert GenOk(m.gens[g]) && GenOk(m.gens[g + 1]) && SizeOk(m, g + 1);
    PendingNotFuller(m.gens[g], m.gens[g + 1]);
    LessIsLower(Taken(m, g + 1), Taken(m, g), Size(m, g + 1), Size(m, g + 1));
  }

  lemma SwapLowers(m: Memory, op: Op, pc: Pc)
    requires Shaped(m) && pc.Swap? && pc.job.g <= m.cur && pc.job.g < pc.job.q < |m.gens| <= m.cur + 2
    requires pc.job.g == m.cur ==> LevelAt(m, m.cur + 1) <= MoveNeed(m, m.cur)
    ensures Descends(m, op, pc)
  {
  }

  lemma SwapDescends(m: Memory, op: Op, pc: Pc, a: map<nat, Value>)
    requires Ready(m, op, pc, a) && pc.Swap?
    ensures Descends(m, op, pc)
  {
    if pc.job.g == m.cur { SuccessorIsNoFuller(m); }
    SwapLowers(m, op, pc);
  }

  /** Every step of a call that runs alone ends it or brings it nearer to its end. */
  lemma StepDescends(m: Memory, op: Op, pc: Pc, a: map<nat, Value>)
    requires Ready(m, op, pc, a)
    ensures Descends(m, op, pc)
  {
    if InCall(pc) {
      CallDescends(m, op, pc, a);
    } else if OnSlot(pc) {
      if Redirects(m, pc) { RedirectDescends(m, op, pc); } else { SlotGoesOn(m, op, pc); }
    } else if Puts(pc) {
      PutDescends(m, op, pc, a);
    } else if pc.Swap? {
      SwapDescends(m, op, pc, a);
    } else if pc.NextCas? && |m.gens| - 1 == pc.g {
      NextIsMade(m, op, pc);
    } else {
      NextGoesOn(m, op, pc);
    }
  }

  // ----------------------------------------------------------------------- runs

  predicate InProgress(s: State, t: nat) {
    t < |s.threads| && Shaped(s.mem) && PcOk(s.mem, s.threads[t].pc) && !s.threads[t].pc.Idle?
  }

  ghost function LastRank(run: seq<State>, t: nat): Rank
    requires run != [] && InProgress(run[|run| - 1], t)
  {
    RankOf(run[|run| - 1].mem, run[|run| - 1].threads[t].pc)
  }

  function Moved(s: State, t: nat): State
    requires InProgress(s, t)
  {
    var (m, pc) := Step(s.mem, s.threads[t].op, s.threads[t].pc);
    State(m, s.threads[t := s.threads[t].(pc := pc)])
  }

  lemma RunGoesOn(run: seq<State>, sched: Schedule, t: nat)
    requires IsRun(run, sched) && InProgress(run[|sched|], t)
    ensures IsRun(run + [Moved(run[|sched|], t)], sched + [t])
  {
    var s, s' := run[|sched|], Moved(run[|sched|], t);
    var run', sched' := run + [s'], sched + [t];
    assert Moves(s, s', t);
    forall i: nat | i < |sched'| ensures StepAt(run', sched', i) {
      if i < |sched| {
        assert StepAt(run, sched, i);
      }
    }
  }

  lemma LastDescends(run: seq<State>, sched: Schedule, t: nat)
    requires IsRun(run, sched) && InProgress(run[|run| - 1], t) && !run[|run| - 1].threads[t].pc.Done?
    ensures var s := run[|run| - 1]; Descends(s.mem, s.threads[t].op, s.threads[t].pc)
  {
    var k := |sched|;
    var s := run[k];
    RunsAreOk(run, sched, k);
    assert ThreadOk(run, t, k);
    OccupancyAlways(run, sched, k);
    assert CountsOk(Tallies(s.mem), Roles(s.threads), s.mem.cur);
    StepDescends(s.mem, s.threads[t].op, s.threads[t].pc, Map(run[CallStart(run, t, k)]));
  }

  lemma OneStepAlone(run: seq<State>, sched: Schedule, t: nat) returns (s': State)
    requires IsRun(run, sched) && InProgress(run[|run| - 1], t) && !run[|run| - 1].threads[t].pc.Done?
    ensures IsRun(run + [s'], sched + [t]) && InProgress(s', t) && s'.threads[t].op == run[|run| - 1].threads[t].op
    ensures s'.threads[t].pc.Done? || Lower(LastRank(run + [s'], t), LastRank(run, t))
  {
    LastDescends(run, sched, t);
    RunGoesOn(run, sched, t);
    s' := Moved(run[|sched|], t);
  }

  /** From every state of every run: if thread `t` goes on alone, its call ends. */
  lemma {:induction false} EndsAlone(run: seq<State>, sched: Schedule, t: nat) returns (more: seq<State>)
    requires IsRun(run, sched) && InProgress(run[|run| - 1], t)
    ensures IsRun(run + more, sched + seq(|more|, _ => t))
    ensures var s := (run + more)[|run + more| - 1];
            t < |s.threads| && s.threads[t].op == run[|run| - 1].threads[t].op && s.threads[t].pc.Done?
    decreases LastRank(run, t).need, LastRank(run, t).phase, LastRank(run, t).slot, LastRank(run, t).stage, LastRank(run, t).probe
  {
    if run[|run| - 1].threads[t].pc.Done? {
      more := [];
      assert run + more == run && sched + seq(|more|, _ => t) == sched;
    } else {
      var s' := OneStepAlone(run, sched, t);
      if s'.threads[t].pc.Done? {
        more := [s'];
        assert sched + seq(|more|, _ => t) == sched + [t];
      } else {
        var rest := EndsAlone(run + [s'], sched + [t], t);
        more := [s'] + rest;
        assert run + more == run + [s'] + rest;
        StepsOf(sched, t, |rest|);
      }
    }
  }
}
