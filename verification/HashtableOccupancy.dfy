/**
 How full a generation of the hashtable can get: every step accounts for what it claims
 and counts, so that the bound of module Occupancy holds.
 */
module HashtableOccupancy {
  import opened Probing
  import opened Sizes
  import opened Options
  import opened MapSpec
  import opened HashtableModel
  import opened HashtableInvariant
  import opened HashtableSteps
  import opened HashtableProof
  import opened HashtableRuns
  import opened Counting
  import opened Occupancy

  // ------------------------------------------------------- counting slots

  ghost function ClaimedSlots(gen: Generation): set<nat> {
    set k: nat | k < |gen.slots| && gen.slots[k].hw.hash != 0
  }

  ghost function Hashes(gen: Generation): set<nat> {
    set k: nat | k < |gen.slots| && gen.slots[k].hw.hash != 0 :: gen.slots[k].hw.hash
  }

  lemma {:induction false} ImageSize(gen: Generation, ks: set<nat>)
    requires GenOk(gen) && ks <= ClaimedSlots(gen)
    ensures |set k | k in ks :: gen.slots[k].hw.hash| == |ks|
  {
    var image := set k | k in ks :: gen.slots[k].hw.hash;
    if ks != {} {
      var k :| k in ks;
      ImageSize(gen, ks - {k});
      var rest := set l | l in ks - {k} :: gen.slots[l].hw.hash;
      forall l | l in ks - {k} ensures gen.slots[l].hw.hash != gen.slots[k].hw.hash {
        if gen.slots[l].hw.hash == gen.slots[k].hw.hash { OneSlotPerHash(gen, k, l); }
      }
      assert image == rest + {gen.slots[k].hw.hash};
    }
  }

  /** Each claimed slot has a hash of its own. */
  lemma HashesSize(gen: Generation)
    requires GenOk(gen)
    ensures |Hashes(gen)| == |ClaimedSlots(gen)| <= |gen.slots|
  {
    ImageSize(gen, ClaimedSlots(gen));
    assert Hashes(gen) == set k | k in ClaimedSlots(gen) :: gen.slots[k].hw.hash;
    SubsetSize(ClaimedSlots(gen), Below(|gen.slots|));
  }

  /** A pending generation is never fuller than the one it is carried from. */
  lemma PendingNotFuller(src: Generation, dst: Generation)
    requires GenOk(src) && GenOk(dst) && OnlyCarried(src, dst)
    ensures Hashes(dst) <= Hashes(src) && |ClaimedSlots(dst)| <= |ClaimedSlots(src)|
  {
    forall h | h in Hashes(dst) ensures h in Hashes(src) {
      var k: nat :| k < |dst.slots| && dst.slots[k].hw.hash == h && h != 0;
      var v :| Source(src, h, v) && dst.slots[k].vw.payload in {Empty, Live(v)};
      var l: nat :| l < |src.slots| && src.slots[l] == Slot(HashWord(h, true), ValueWord(Live(v), true));
    }
    HashesSize(src);
    HashesSize(dst);
    SubsetSize(Hashes(dst), Hashes(src));
  }

  /** If a full round of probes meets foreign hashes only, the table is full of them. */
  lemma FullRound(gen: Generation, h: nat, i: nat)
    requires GenOk(gen) && Passed(gen, h, i) && i >= |gen.slots|
    ensures |ClaimedSlots(gen)| == |gen.slots| && h !in Hashes(gen)
  {
    var n := |gen.slots|;
    forall k: nat | k < n ensures gen.slots[k].hw.hash != 0 && gen.slots[k].hw.hash != h {
      var i0 := ProbeCovers(h, k, n);
    }
    assert ClaimedSlots(gen) == Below(n);
  }

  /** For any number of threads, carry needs fewer probes than its destination has slots. */
  lemma CarryWithinSize(m: Memory, g: nat, j: nat, h: nat, v: Value, q: nat, i: nat)
    requires MemInv(m) && Shaped(m) && Carrying(m, g, j, h, v, q) && Passed(m.gens[q], h, i)
    ensures i < Size(m, q)
  {
    var src, dst := m.gens[g], m.gens[q];
    assert GenOk(src) && GenOk(dst);
    if g < m.cur {
      StaleIsSettled(m, g, j, h, v, q);
      assert h in Hashes(dst);
    } else {
      PendingNotFuller(src, dst);
      HashesSize(src);
      HashesSize(dst);
      assert |src.slots| <= |dst.slots| by { assert NeverShrinks(m); }
      assert h in Hashes(src);
      if Hashes(dst) == Hashes(src) {
        assert h in Hashes(dst);
      } else {
        SubsetSize(Hashes(dst), Hashes(src));
      }
    }
    if i >= |dst.slots| {
      FullRound(dst, h, i);
    }
  }

  // ------------------------------------------------------------ what a step counts

  function RoleOf(pc: Pc): Role {
    match pc
    case ClaimRead(g, _) => Claiming(g)
    case ClaimCas(g, _) => Claiming(g)
    case ClaimIncrement(g, _) => Counting(g)
    case CarryIncrement(_, _, _, _, q, _) => Counting(q)
    case _ => NoRole
  }

  function Roles(threads: seq<Thread>): (roles: seq<Role>)
    ensures |roles| == |threads|
    ensures forall t :: 0 <= t < |threads| ==> roles[t] == RoleOf(threads[t].pc)
  {
    seq(|threads|, t requires 0 <= t < |threads| => RoleOf(threads[t].pc))
  }

  ghost function TallyOf(gen: Generation): Tally {
    Tally(|gen.slots|, |ClaimedSlots(gen)|, gen.nHashs)
  }

  ghost function Tallies(m: Memory): (tallies: seq<Tally>)
    ensures |tallies| == |m.gens|
    ensures forall g :: 0 <= g < |m.gens| ==> tallies[g] == TallyOf(m.gens[g])
  {
    seq(|m.gens|, g requires 0 <= g < |m.gens| => TallyOf(m.gens[g]))
  }

  lemma TalliesUpdate(m: Memory, g: nat, gen: Generation)
    requires g < |m.gens|
    ensures Tallies(m.(gens := m.gens[g := gen])) == Tallies(m)[g := TallyOf(gen)]
  {
  }

  lemma ClaimCounts(m: Memory, g: nat, k: nat, h: nat)
    requires g < |m.gens| && k < |m.gens[g].slots| && m.gens[g].slots[k].hw.hash == 0 && h != 0
    ensures ClaimsOne(Tallies(m), Tallies(WithClaim(m, g, k, h)), g)
  {
    var gen := WithClaim(m, g, k, h).gens[g];
    assert ClaimedSlots(gen) == ClaimedSlots(m.gens[g]) + {k};
    TalliesUpdate(m, g, gen);
  }

  lemma SlotCountsNothing(m: Memory, g: nat, k: nat, s: Slot)
    requires g < |m.gens| && k < |m.gens[g].slots| && m.gens[g].slots[k].hw.hash == s.hw.hash
    ensures Tallies(WithSlot(m, g, k, s)) == Tallies(m)
    ensures ClaimedSlots(WithSlot(m, g, k, s).gens[g]) == ClaimedSlots(m.gens[g])
  {
    var gen := WithSlot(m, g, k, s).gens[g];
    assert ClaimedSlots(gen) == ClaimedSlots(m.gens[g]);
    TalliesUpdate(m, g, gen);
  }

  lemma PublishCountsNothing(m: Memory, size: nat)
    ensures CountsNothing(Tallies(m), Tallies(m.(gens := m.gens + [Fresh(size)])))
  {
    assert ClaimedSlots(Fresh(size)) == {};
  }

  lemma IncrementCounts(m: Memory, g: nat)
    requires g < |m.gens|
    ensures CountsOne(Tallies(m), Tallies(WithIncrement(m, g)), g)
  {
    var gen := WithIncrement(m, g).gens[g];
    assert ClaimedSlots(gen) == ClaimedSlots(m.gens[g]);
    TalliesUpdate(m, g, gen);
  }

  /** The step of a thread at `pc` accounts for what it claims and counts. */
  ghost predicate StepAccountsFor(m: Memory, op: Op, pc: Pc)
    requires Shaped(m) && PcOk(m, pc) && !pc.Idle?
  {
    Accounts(m.cur, Tallies(m), RoleOf(pc), Tallies(Step(m, op, pc).0), RoleOf(Step(m, op, pc).1))
  }

  predicate Compares(pc: Pc) {
    || pc.ClaimCas? || pc.CarryCas? || pc.NextCas? || pc.ValueCas? || pc.RemoveCas? || pc.CarryInstall?
    || pc.FreezeCas? || pc.SealCas?
  }

  lemma ReadKeepsRole(m: Memory, op: Op, pc: Pc)
    requires Shaped(m) && PcOk(m, pc) && !pc.Idle? && !Compares(pc)
    requires !pc.ClaimIncrement? && !pc.CarryIncrement? && !pc.Swap? && !pc.ReadCount?
    ensures Step(m, op, pc).0 == m
    ensures var r, r' := RoleOf(pc), RoleOf(Step(m, op, pc).1); r' == r || (r.Claiming? && r' == NoRole)
  {
  }

  lemma ReadAccounts(m: Memory, op: Op, pc: Pc)
    requires Shaped(m) && PcOk(m, pc) && !pc.Idle? && !Compares(pc)
    requires !pc.ClaimIncrement? && !pc.CarryIncrement? && !pc.Swap? && !pc.ReadCount?
    ensures StepAccountsFor(m, op, pc)
  {
    ReadKeepsRole(m, op, pc);
  }

  lemma ClaimAccounts(m: Memory, op: Op, pc: Pc)
    requires Shaped(m) && PcOk(m, pc) && pc.ClaimCas? && Hash(op) != 0
    ensures StepAccountsFor(m, op, pc)
  {
    var k := Pos(m, pc.g, Hash(op), pc.i);
    if m.gens[pc.g].slots[k].hw == HashWord(0, false) { ClaimCounts(m, pc.g, k, Hash(op)); }
  }

  lemma CarriedCount(m: Memory, m': Memory)
    requires MemInv(m) && MemInv(m') && m'.cur == m.cur && m.cur + 1 < |m.gens| == |m'.gens| && m'.gens[m.cur] == m.gens[m.cur]
    ensures Tallies(m')[m.cur + 1].taken <= Tallies(m)[m.cur].taken && Tallies(m)[m.cur].size <= Tallies(m)[m.cur + 1].size
  {
    assert NeverShrinks(m);
    assert GenOk(m'.gens[m.cur]) && GenOk(m'.gens[m.cur + 1]);
    PendingNotFuller(m'.gens[m.cur], m'.gens[m.cur + 1]);
  }

  /** A claim in the pending successor, which gets no fuller than what it is carried from. */
  lemma CarryCounts(m: Memory, k: nat, h: nat)
    requires MemInv(m) && m.cur + 1 < |m.gens| && k < |m.gens[m.cur + 1].slots| && m.gens[m.cur + 1].slots[k].hw.hash == 0 && h != 0
    requires MemInv(WithClaim(m, m.cur + 1, k, h))
    ensures Carries(m.cur, Tallies(m), Tallies(WithClaim(m, m.cur + 1, k, h)))
  {
    ClaimCounts(m, m.cur + 1, k, h);
    CarriedCount(m, WithClaim(m, m.cur + 1, k, h));
  }

  lemma CarryLoses(m: Memory, op: Op, pc: Pc)
    requires Shaped(m) && PcOk(m, pc) && pc.CarryCas? && m.gens[pc.q].slots[Pos(m, pc.q, pc.h, pc.i)].hw != HashWord(0, false)
    ensures StepAccountsFor(m, op, pc)
  {
  }

  lemma CarryWins(m: Memory, op: Op, pc: Pc)
    requires Shaped(m) && PcOk(m, pc) && pc.CarryCas? && m.gens[pc.q].slots[Pos(m, pc.q, pc.h, pc.i)].hw == HashWord(0, false)
    requires pc.q == m.cur + 1 && Carries(m.cur, Tallies(m), Tallies(WithClaim(m, pc.q, Pos(m, pc.q, pc.h, pc.i), pc.h)))
    ensures StepAccountsFor(m, op, pc)
  {
  }

  lemma CarryAccounts(m: Memory, op: Op, pc: Pc, seen: set<Option<Value>>)
    requires MemInv(m) && Shaped(m) && LocalInv(m, op, pc, seen) && PcOk(m, pc) && pc.CarryCas?
    ensures StepAccountsFor(m, op, pc)
  {
    var k := Pos(m, pc.q, pc.h, pc.i);
    if m.gens[pc.q].slots[k].hw == HashWord(0, false) {
      CarryMeets(m, pc.g, pc.j, pc.h, pc.v, pc.q, pc.i);
      CarryCasWins(m, op, pc.g, pc.j, pc.h, pc.v, pc.q, pc.i, seen, k);
      CarryCounts(m, k, pc.h);
      CarryWins(m, op, pc);
    } else {
      CarryLoses(m, op, pc);
    }
  }

  lemma ValueAccounts(m: Memory, op: Op, pc: Pc)
    requires Shaped(m) && PcOk(m, pc) && (pc.ValueCas? || pc.RemoveCas? || pc.CarryInstall?)
    ensures StepAccountsFor(m, op, pc)
  {
    var g, h := if pc.CarryInstall? then pc.q else pc.g, if pc.CarryInstall? then pc.h else Hash(op);
    var k := Pos(m, g, h, pc.i);
    var p := if pc.ValueCas? then Val(op) else if pc.RemoveCas? then Tomb else Live(pc.v);
    SlotCountsNothing(m, g, k, m.gens[g].slots[k].(vw := ValueWord(p, false)));
  }

  lemma RetireAccounts(m: Memory, op: Op, pc: Pc)
    requires Shaped(m) && PcOk(m, pc) && (pc.FreezeCas? || pc.SealCas? || pc.NextCas?)
    ensures StepAccountsFor(m, op, pc)
  {
    if pc.NextCas? {
      PublishCountsNothing(m, pc.size);
    } else {
      var s := m.gens[pc.g].slots[pc.j];
      SlotCountsNothing(m, pc.g, pc.j, s.(hw := s.hw.(frozen := true)));
      SlotCountsNothing(m, pc.g, pc.j, s.(vw := s.vw.(sealed := true)));
    }
  }

  lemma CheckAccounts(m: Memory, op: Op, pc: Pc)
    requires MemInv(m) && Shaped(m) && PcOk(m, pc) && pc.ReadCount?
    ensures StepAccountsFor(m, op, pc)
  {
    assert GenOk(m.gens[pc.g]) && Tallies(m)[pc.g] == TallyOf(m.gens[pc.g]);
  }

  lemma OtherAccounts(m: Memory, op: Op, pc: Pc)
    requires Shaped(m) && PcOk(m, pc) && (pc.Swap? || pc.ClaimIncrement? || pc.CarryIncrement?)
    ensures StepAccountsFor(m, op, pc)
  {
    if pc.ClaimIncrement? {
      IncrementCounts(m, pc.g);
    } else if pc.CarryIncrement? {
      IncrementCounts(m, pc.q);
    }
  }

  /** Every step accounts for what it claims and counts. */
  lemma StepAccounts(m: Memory, op: Op, pc: Pc, seen: set<Option<Value>>)
    requires MemInv(m) && Shaped(m) && LocalInv(m, op, pc, seen) && PcOk(m, pc) && !pc.Idle?
    ensures StepAccountsFor(m, op, pc)
  {
    if pc.ClaimCas? {
      ClaimAccounts(m, op, pc);
    } else if pc.CarryCas? {
      CarryAccounts(m, op, pc, seen);
    } else if pc.ValueCas? || pc.RemoveCas? || pc.CarryInstall? {
      ValueAccounts(m, op, pc);
    } else if Compares(pc) {
      RetireAccounts(m, op, pc);
    } else if pc.ReadCount? {
      CheckAccounts(m, op, pc);
    } else if pc.Swap? || pc.ClaimIncrement? || pc.CarryIncrement? {
      OtherAccounts(m, op, pc);
    } else {
      ReadAccounts(m, op, pc);
    }
  }

  // ------------------------------------------------------- the counts along a run

  ghost predicate Occupied(s: State) {
    AllCount(Tallies(s.mem), Roles(s.threads))
  }

  /** Every step of a run keeps the counts of all generations. */
  lemma OccupancyStep(run: seq<State>, sched: seq<nat>, k: nat)
    requires IsRun(run, sched) && k < |sched| && Occupied(run[k])
    ensures Occupied(run[k + 1])
  {
    var s, s', t := run[k], run[k + 1], sched[k];
    assert StepAt(run, sched, k);
    RunsAreOk(run, sched, k);
    assert ThreadOk(run, t, k);
    RolesRange(run, k);
    var r' := RoleOf(s'.threads[t].pc);
    assert Roles(s'.threads) == Roles(s.threads)[t := r'];
    if Moves(s, s', t) {
      StepAccounts(s.mem, s.threads[t].op, s.threads[t].pc, Seen(run, CallStart(run, t, k), k, Hash(s.threads[t].op)));
    }
    StepCounts(s.mem.cur, Tallies(s.mem), Roles(s.threads), t, Tallies(s'.mem), r');
  }

  lemma RolesRange(run: seq<State>, k: nat)
    requires k < |run| && (forall i :: 0 <= i < |run| ==> |run[i].threads| == |run[0].threads|) && RunOk(run, k)
    ensures RolesInRange(run[k].mem.cur, Tallies(run[k].mem), Roles(run[k].threads))
  {
    forall t | 0 <= t < |run[k].threads|
      ensures RoleOf(run[k].threads[t].pc).Claiming? ==> RoleOf(run[k].threads[t].pc).g <= run[k].mem.cur
      ensures RoleOf(run[k].threads[t].pc).Counting? ==> RoleOf(run[k].threads[t].pc).g < |run[k].mem.gens|
    {
      assert ThreadOk(run, t, k);
    }
  }

  lemma FirstIsOccupied(s: State)
    requires Init(s)
    ensures Occupied(s)
  {
    var size: nat :| s.mem == Memory([Fresh(size)], 0);
    assert ClaimedSlots(Fresh(size)) == {};
    assert Where(Roles(s.threads), Claiming(0)) == {} && Where(Roles(s.threads), Counting(0)) == {};
  }

  lemma {:induction false} OccupancyAlways(run: seq<State>, sched: seq<nat>, k: nat)
    requires IsRun(run, sched) && k < |run|
    ensures Occupied(run[k])
  {
    if k == 0 {
      FirstIsOccupied(run[0]);
    } else {
      OccupancyAlways(run, sched, k - 1);
      OccupancyStep(run, sched, k - 1);
    }
  }

  // -------------------------------------------------------------- the theorems

  /** No generation ever has more than size / 2 - 1 + T claimed slots, T being the number of threads. */
  lemma OccupancyBound(run: seq<State>, sched: seq<nat>, k: nat, g: nat)
    requires IsRun(run, sched) && k < |run| && g < |run[k].mem.gens|
    ensures |ClaimedSlots(run[k].mem.gens[g])| <= |run[k].mem.gens[g].slots| / 2 - 1 + |run[k].threads|
  {
    OccupancyAlways(run, sched, k);
    RunsAreOk(run, sched, k);
    assert GenOk(run[k].mem.gens[g]);
    assert CountsOk(Tallies(run[k].mem), Roles(run[k].threads), g);
  }

  /**
   With at most size / 2 threads a probe never runs around the table: the asserts
   `index != sentinel` in lookup and in remove do not fire.
   */
  lemma ProbesEnd(run: seq<State>, sched: seq<nat>, k: nat, t: nat)
    requires IsRun(run, sched) && k < |run| && t < |run[k].threads|
    requires run[k].threads[t].pc.LookProbe? || run[k].threads[t].pc.RemoveProbe?
    ensures var pc := run[k].threads[t].pc;
            pc.g < |run[k].mem.gens| && (|run[k].threads| <= Size(run[k].mem, pc.g) / 2 ==> pc.i < Size(run[k].mem, pc.g))
  {
    RunsAreOk(run, sched, k);
    assert ThreadOk(run, t, k);
    var m, pc, h := run[k].mem, run[k].threads[t].pc, Hash(run[k].threads[t].op);
    OccupancyBound(run, sched, k, pc.g);
    if pc.i >= Size(m, pc.g) {
      FullRound(m.gens[pc.g], h, pc.i);
    }
  }

  /**
   Whatever the number of threads: a carry works in the immediate successor of its
   generation, stays within one round of probes, and never goes on to a later one.
   */
  lemma CarrySettlesAtOnce(run: seq<State>, sched: seq<nat>, k: nat, t: nat)
    requires IsRun(run, sched) && k < |run| && t < |run[k].threads|
    ensures var pc := run[k].threads[t].pc;
            && !pc.CarryNext?
            && (pc.CarryRead? || pc.CarryCas? || pc.CarryIncrement? || pc.CarryInstall? ==>
                  pc.q == pc.g + 1 < |run[k].mem.gens|)
            && (pc.CarryRead? || pc.CarryCas? ==> pc.i < Size(run[k].mem, pc.q))
  {
    RunsAreOk(run, sched, k);
    assert ThreadOk(run, t, k);
    var m, pc := run[k].mem, run[k].threads[t].pc;
    if pc.CarryRead? || pc.CarryCas? {
      CarryWithinSize(m, pc.g, pc.j, pc.h, pc.v, pc.q, pc.i);
    }
  }

  // ------------------------------------------------------------------------ growth

  /** A call that needs room asks for twice the slots, a migration at the same size for as many. */
  predicate AsksFor(m: Memory, op: Op, pc: Pc) {
    (pc.NextRead? || pc.NextCas?) && pc.g < |m.gens| ==>
      pc.size == if op.MigrateSameSize? then |m.gens[pc.g].slots| else 2 * |m.gens[pc.g].slots|
  }

  lemma CallAsks(m: Memory, op: Op, pc: Pc)
    requires Shaped(m) && PcOk(m, pc) && (pc.ReadStorage? || pc.ReadCount? || pc.ClaimRead? || pc.ClaimCas? || pc.ValueRead? || pc.ValueCas? || pc.RemoveProbe? || pc.RemoveCas?)
    requires !pc.ReadStorage? ==> !op.MigrateSameSize?
    ensures AsksFor(Step(m, op, pc).0, op, Step(m, op, pc).1)
  {
  }

  lemma OthersAsk(m: Memory, op: Op, pc: Pc)
    requires Shaped(m) && PcOk(m, pc) && !pc.Idle? && AsksFor(m, op, pc)
    requires !(pc.ReadStorage? || pc.ReadCount? || pc.ClaimRead? || pc.ClaimCas? || pc.ValueRead? || pc.ValueCas? || pc.RemoveProbe? || pc.RemoveCas?)
    ensures AsksFor(Step(m, op, pc).0, op, Step(m, op, pc).1)
  {
  }

  lemma AskingStays(run: seq<State>, sched: seq<nat>, k: nat, t: nat)
    requires IsRun(run, sched) && k < |sched| && t < |run[0].threads| && AsksFor(run[k].mem, run[k].threads[t].op, run[k].threads[t].pc)
    ensures AsksFor(run[k + 1].mem, run[k + 1].threads[t].op, run[k + 1].threads[t].pc)
  {
    var s, s', u := run[k], run[k + 1], sched[k];
    assert StepAt(run, sched, k);
    RunsAreOk(run, sched, k);
    assert ThreadOk(run, t, k);
    var op, pc := s.threads[t].op, s.threads[t].pc;
    if u == t && Moves(s, s', t) {
      if pc.ReadStorage? || pc.ReadCount? || pc.ClaimRead? || pc.ClaimCas? || pc.ValueRead? || pc.ValueCas? || pc.RemoveProbe? || pc.RemoveCas? {
        CallAsks(s.mem, op, pc);
      } else {
        OthersAsk(s.mem, op, pc);
      }
    } else {
      StepEvolves(run, sched, k);
      assert pc.NextRead? || pc.NextCas? ==> GenEvolves(s.mem.gens[pc.g], s'.mem.gens[pc.g]);
    }
  }

  lemma {:induction false} AlwaysAsks(run: seq<State>, sched: seq<nat>, k: nat, t: nat)
    requires IsRun(run, sched) && k < |run| && t < |run[0].threads|
    ensures AsksFor(run[k].mem, run[k].threads[t].op, run[k].threads[t].pc)
    decreases k
  {
    if k > 0 {
      AlwaysAsks(run, sched, k - 1, t);
      AskingStays(run, sched, k - 1, t);
    }
  }

  /** A new storage has twice the slots of the current one, or as many if it is made by a migration at the same size. */
  lemma SuccessorDoubles(run: seq<State>, sched: seq<nat>, k: nat)
    requires IsRun(run, sched) && k < |sched| && |run[k + 1].mem.gens| != |run[k].mem.gens|
    ensures var m, m' := run[k].mem, run[k + 1].mem;
            && |m'.gens| == |m.gens| + 1 == m.cur + 2 && m'.gens[..|m.gens|] == m.gens
            && sched[k] < |run[k].threads|
            && |m'.gens[m.cur + 1].slots| == (if run[k].threads[sched[k]].op.MigrateSameSize? then 1 else 2) * |m.gens[m.cur].slots|
  {
    var s, t := run[k], sched[k];
    assert StepAt(run, sched, k);
    AlwaysAsks(run, sched, k, t);
    RunsAreOk(run, sched, k);
    RunsAreOk(run, sched, k + 1);
    OnlyNextGrows(s.mem, s.threads[t].op, s.threads[t].pc);
    assert GenOk(s.mem.gens[s.mem.cur]);
    AllocDoubles(|s.mem.gens[s.mem.cur].slots|);
  }

  lemma OnlyNextGrows(m: Memory, op: Op, pc: Pc)
    requires Shaped(m) && PcOk(m, pc) && !pc.Idle? && |Step(m, op, pc).0.gens| != |m.gens|
    ensures pc.NextCas? && pc.g + 1 == |m.gens| && Step(m, op, pc).0 == m.(gens := m.gens + [Fresh(pc.size)])
  {
  }
}
