/**
 How full a storage of the hashmap can get: every step accounts for what it claims and
 counts, so that the bound of module Occupancy holds.
 */
module HashmapOccupancy {
  import opened MapSpec
  import opened Sizes
  import opened Counting
  import opened Occupancy
  import opened HashmapModel
  import opened HashmapInvariant
  import opened HashmapProof
  import opened HashmapRuns

  // -------------------------------------------------------------- counting slots

  /** The claimed slots, with the hashes that have claimed them. */
  ghost function Claims(gen: Generation): map<nat, nat> {
    map k: nat | k < |gen.slots| && gen.slots[k].hash != 0 :: gen.slots[k].hash
  }

  ghost function TallyOf(gen: Generation): Tally {
    Tally(|gen.slots|, |Claims(gen).Keys|, gen.nHashs)
  }

  ghost function Tallies(m: Memory): (tallies: seq<Tally>)
    ensures |tallies| == |m.gens|
    ensures forall g :: 0 <= g < |m.gens| ==> tallies[g] == TallyOf(m.gens[g])
  {
    seq(|m.gens|, g requires 0 <= g < |m.gens| => TallyOf(m.gens[g]))
  }

  lemma HashesAreDistinct(gen: Generation)
    requires GenOk(gen)
    ensures |Claims(gen).Values| == |Claims(gen).Keys| <= |gen.slots|
  {
    forall k, l | k in Claims(gen) && l in Claims(gen) && Claims(gen)[k] == Claims(gen)[l] ensures k == l {
      OneSlotPerHash(gen, k, l);
    }
    ValuesSize(Claims(gen));
    SubsetSize(Claims(gen).Keys, Counting.Below(|gen.slots|));
  }

  /** A pending storage is never fuller than the one that it is carried from. */
  lemma PendingNotFuller(src: Generation, dst: Generation)
    requires GenOk(src) && GenOk(dst) && OnlyCarried(src, dst)
    ensures |Claims(dst).Keys| <= |Claims(src).Keys|
  {
    HashesAreDistinct(src);
    HashesAreDistinct(dst);
    forall h | h in Claims(dst).Values ensures h in Claims(src).Values {
      var k :| k in Claims(dst) && Claims(dst)[k] == h;
      assert Has(src, dst.slots[k].hash);
      var l :| 0 <= l < |src.slots| && src.slots[l].hash == h;
      assert l in Claims(src) && Claims(src)[l] == h;
    }
    SubsetSize(Claims(dst).Values, Claims(src).Values);
  }

  // -------------------------------------------------------- what a step counts

  function RoleOf(pc: Pc): Role {
    match pc
    case ClaimRead(g, _) => Claiming(g)
    case ClaimCas(g, _) => Claiming(g)
    case ClaimIncrement(g, _) => Role.Counting(g)
    case PutIncrement(_, put) => Role.Counting(put.d)
    case _ => NoRole
  }

  function Roles(threads: seq<Thread>): (roles: seq<Role>)
    ensures |roles| == |threads|
    ensures forall t :: 0 <= t < |threads| ==> roles[t] == RoleOf(threads[t].pc)
  {
    seq(|threads|, t requires 0 <= t < |threads| => RoleOf(threads[t].pc))
  }

  lemma TalliesUpdate(m: Memory, g: nat, gen: Generation)
    requires g < |m.gens|
    ensures Tallies(m.(gens := m.gens[g := gen])) == Tallies(m)[g := TallyOf(gen)]
  {
  }

  lemma ClaimCounts(m: Memory, g: nat, k: nat, h: nat)
    requires g < |m.gens| && k < |m.gens[g].slots| && m.gens[g].slots[k].hash == 0 && h != 0
    ensures ClaimsOne(Tallies(m), Tallies(WithClaim(m, g, k, h)), g)
  {
    var gen := WithClaim(m, g, k, h).gens[g];
    assert Claims(gen).Keys == Claims(m.gens[g]).Keys + {k};
    TalliesUpdate(m, g, gen);
  }

  lemma WordCountsNothing(m: Memory, g: nat, k: nat, x: Word)
    requires g < |m.gens| && k < |m.gens[g].slots|
    ensures Tallies(WithWord(m, g, k, x)) == Tallies(m)
  {
    var gen := WithWord(m, g, k, x).gens[g];
    assert Claims(gen).Keys == Claims(m.gens[g]).Keys;
    TalliesUpdate(m, g, gen);
  }

  lemma PublishCountsNothing(m: Memory, size: nat)
    ensures CountsNothing(Tallies(m), Tallies(m.(gens := m.gens + [Fresh(size)])))
  {
    assert Claims(Fresh(size)).Keys == {};
  }

  lemma IncrementCounts(m: Memory, g: nat)
    requires g < |m.gens|
    ensures CountsOne(Tallies(m), Tallies(WithIncrement(m, g)), g)
  {
    var gen := WithIncrement(m, g).gens[g];
    assert Claims(gen).Keys == Claims(m.gens[g]).Keys;
    TalliesUpdate(m, g, gen);
  }

  /** The step of a thread at `pc` accounts for what it claims and counts. */
  ghost predicate StepAccountsFor(m: Memory, op: Op, pc: Pc)
    requires Shaped(m) && PcOk(m, pc)
  {
    Accounts(m.cur, Tallies(m), RoleOf(pc), Tallies(Step(m, op, pc).0), RoleOf(Step(m, op, pc).1))
  }

  /** The role of a thread whose step neither claims nor counts. */
  predicate RoleMayDrop(r: Role, r': Role) {
    r' == r || (r.Claiming? && r' == NoRole)
  }

  /** A step that writes no hash and no counter. */
  ghost predicate WritesNoCount(m: Memory, op: Op, pc: Pc)
    requires Shaped(m) && PcOk(m, pc)
  {
    Tallies(Step(m, op, pc).0) == Tallies(m) && RoleMayDrop(RoleOf(pc), RoleOf(Step(m, op, pc).1))
  }

  lemma CallReads(m: Memory, op: Op, pc: Pc)
    requires Shaped(m) && PcOk(m, pc) && InCall(pc) && !pc.ReadCount? && !pc.ClaimIncrement? && !pc.Fill?
    requires pc.ClaimCas? ==> SlotAt(m, pc.g, Hash(op), pc.i).hash != 0
    ensures WritesNoCount(m, op, pc)
  {
    assert Step(m, op, pc).0 == m;
  }

  lemma FillCounts(m: Memory, op: Op, pc: Pc)
    requires Shaped(m) && PcOk(m, pc) && pc.Fill?
    ensures WritesNoCount(m, op, pc)
  {
    WordCountsNothing(m, pc.g, Pos(m, pc.g, Hash(op), pc.i), Holding(Store(op)));
  }

  lemma ClaimWins(m: Memory, op: Op, pc: Pc)
    requires Shaped(m) && PcOk(m, pc) && pc.ClaimCas? && Hash(op) != 0 && SlotAt(m, pc.g, Hash(op), pc.i).hash == 0
    ensures StepAccountsFor(m, op, pc)
  {
    var k := Pos(m, pc.g, Hash(op), pc.i);
    ClaimCounts(m, pc.g, k, Hash(op));
    assert Step(m, op, pc) == (WithClaim(m, pc.g, k, Hash(op)), ClaimIncrement(pc.g, pc.i));
  }

  lemma IncrementAccounts(m: Memory, op: Op, pc: Pc)
    requires Shaped(m) && PcOk(m, pc) && (pc.ClaimIncrement? || pc.PutIncrement?)
    ensures StepAccountsFor(m, op, pc)
  {
    var g := if pc.ClaimIncrement? then pc.g else pc.put.d;
    IncrementCounts(m, g);
    assert Step(m, op, pc).0 == WithIncrement(m, g) && RoleOf(pc) == Role.Counting(g) && RoleOf(Step(m, op, pc).1) == NoRole;
  }

  lemma CheckAccounts(m: Memory, op: Op, pc: Pc)
    requires MemInv(m) && Shaped(m) && PcOk(m, pc) && pc.ReadCount?
    ensures StepAccountsFor(m, op, pc)
  {
    assert GenOk(m.gens[pc.g]) && Tallies(m)[pc.g] == TallyOf(m.gens[pc.g]);
  }

  lemma CallAccounts(m: Memory, op: Op, pc: Pc)
    requires Shaped(m) && PcOk(m, pc) && InCall(pc) && !pc.ReadCount? && (pc.ClaimCas? ==> Hash(op) != 0)
    ensures StepAccountsFor(m, op, pc)
  {
    if pc.ClaimCas? && SlotAt(m, pc.g, Hash(op), pc.i).hash == 0 {
      ClaimWins(m, op, pc);
    } else if pc.ClaimIncrement? {
      IncrementAccounts(m, op, pc);
    } else if pc.Fill? {
      FillCounts(m, op, pc);
    } else {
      CallReads(m, op, pc);
    }
  }

  lemma CopyReadsOnly(m: Memory, op: Op, pc: Pc)
    requires Shaped(m) && PcOk(m, pc) && !InCall(pc)
    requires !pc.NextCas? && !pc.FreezeVirgin? && !pc.FreezeVoid? && !pc.Retire? && !pc.PutCas? && !pc.PutIncrement? && !pc.PutInstall?
    ensures Step(m, op, pc).0.gens == m.gens && RoleOf(pc) == NoRole && RoleOf(Step(m, op, pc).1) == NoRole
  {
  }

  lemma RetireCounts(m: Memory, op: Op, pc: Pc)
    requires Shaped(m) && PcOk(m, pc) && (pc.FreezeVirgin? || pc.FreezeVoid? || pc.Retire?)
    ensures WritesNoCount(m, op, pc)
  {
    WordCountsNothing(m, pc.job.g, pc.job.j, Redirect);
    assert Step(m, op, pc).0 == m || Step(m, op, pc).0 == WithWord(m, pc.job.g, pc.job.j, Redirect);
  }

  lemma InstallCounts(m: Memory, op: Op, pc: Pc)
    requires Shaped(m) && PcOk(m, pc) && pc.PutInstall?
    ensures WritesNoCount(m, op, pc)
  {
    var k := Pos(m, pc.put.d, pc.put.h, pc.put.i);
    WordCountsNothing(m, pc.put.d, k, Holding(pc.put.v));
    assert Step(m, op, pc).0 == m || Step(m, op, pc).0 == WithWord(m, pc.put.d, k, Holding(pc.put.v));
  }

  lemma NextCounts(m: Memory, op: Op, pc: Pc)
    requires Shaped(m) && PcOk(m, pc) && pc.NextCas?
    ensures StepAccountsFor(m, op, pc)
  {
    PublishCountsNothing(m, 2 * Size(m, pc.g));
    assert RoleOf(Step(m, op, pc).1) == NoRole;
  }

  lemma CopyAccounts(m: Memory, op: Op, pc: Pc)
    requires Shaped(m) && PcOk(m, pc) && !InCall(pc) && !pc.PutCas?
    ensures StepAccountsFor(m, op, pc)
  {
    if pc.NextCas? {
      NextCounts(m, op, pc);
    } else if pc.PutIncrement? {
      IncrementAccounts(m, op, pc);
    } else if pc.PutInstall? {
      InstallCounts(m, op, pc);
    } else if pc.FreezeVirgin? || pc.FreezeVoid? || pc.Retire? {
      RetireCounts(m, op, pc);
    } else {
      CopyReadsOnly(m, op, pc);
      assert Tallies(Step(m, op, pc).0) == Tallies(m);
    }
  }

  lemma CarriedCount(m: Memory, m': Memory)
    requires MemInv(m) && MemInv(m') && m'.cur == m.cur && m.cur + 1 < |m.gens| == |m'.gens| && m'.gens[m.cur] == m.gens[m.cur]
    ensures Tallies(m')[m.cur + 1].taken <= Tallies(m)[m.cur].taken && Tallies(m)[m.cur].size <= Tallies(m)[m.cur + 1].size
  {
    assert SizeOk(m, m.cur + 1) && GenOk(m'.gens[m.cur]) && GenOk(m'.gens[m.cur + 1]);
    PendingNotFuller(m'.gens[m.cur], m'.gens[m.cur + 1]);
  }

  /** put claims in the pending successor only, which gets no fuller than what it is carried from. */
  lemma PutCounts(m: Memory, k: nat, h: nat)
    requires MemInv(m) && m.cur + 1 < |m.gens| && k < |m.gens[m.cur + 1].slots| && m.gens[m.cur + 1].slots[k].hash == 0 && h != 0
    requires MemInv(WithClaim(m, m.cur + 1, k, h))
    ensures Carries(m.cur, Tallies(m), Tallies(WithClaim(m, m.cur + 1, k, h)))
  {
    ClaimCounts(m, m.cur + 1, k, h);
    CarriedCount(m, WithClaim(m, m.cur + 1, k, h));
  }

  lemma PutLoses(m: Memory, op: Op, pc: Pc)
    requires Shaped(m) && PcOk(m, pc) && pc.PutCas? && SlotAt(m, pc.put.d, pc.put.h, pc.put.i).hash != 0
    ensures WritesNoCount(m, op, pc)
  {
    assert Step(m, op, pc).0 == m;
  }

  lemma PutWins(m: Memory, op: Op, pc: Pc)
    requires Shaped(m) && PcOk(m, pc) && pc.PutCas? && SlotAt(m, pc.put.d, pc.put.h, pc.put.i).hash == 0 && pc.put.d == m.cur + 1
    requires Carries(m.cur, Tallies(m), Tallies(WithClaim(m, pc.put.d, Pos(m, pc.put.d, pc.put.h, pc.put.i), pc.put.h)))
    ensures StepAccountsFor(m, op, pc)
  {
    assert RoleOf(Step(m, op, pc).1) == Role.Counting(m.cur + 1);
  }

  lemma PutAccounts(m: Memory, op: Op, pc: Pc)
    requires MemInv(m) && Shaped(m) && PcOk(m, pc) && pc.PutCas? && MigrationInv(m, pc)
    ensures StepAccountsFor(m, op, pc)
  {
    var put := pc.put;
    if SlotAt(m, put.d, put.h, put.i).hash == 0 {
      PutClaimStep(m, pc);
      FreeMeansNone(m, put.d, put.h, put.i);
      PutCounts(m, Pos(m, put.d, put.h, put.i), put.h);
      PutWins(m, op, pc);
    } else {
      PutLoses(m, op, pc);
    }
  }

  /** Every step accounts for what it claims and counts. */
  lemma StepAccounts(m: Memory, op: Op, pc: Pc, a: map<nat, Value>)
    requires MemInv(m) && Shaped(m) && LocalInv(m, op, pc, a) && PcOk(m, pc) && !pc.Idle?
    ensures StepAccountsFor(m, op, pc)
  {
    if pc.ReadCount? {
      CheckAccounts(m, op, pc);
    } else if InCall(pc) {
      CallAccounts(m, op, pc);
    } else if pc.PutCas? {
      PutAccounts(m, op, pc);
    } else {
      CopyAccounts(m, op, pc);
    }
  }

  // ------------------------------------------------------- the counts along a run

  ghost predicate Occupied(s: State) {
    AllCount(Tallies(s.mem), Roles(s.threads))
  }

  lemma RolesRange(run: seq<State>, k: nat)
    requires k < |run| && (forall i :: 0 <= i < |run| ==> |run[i].threads| == |run[0].threads|) && RunOk(run, k)
    ensures RolesInRange(run[k].mem.cur, Tallies(run[k].mem), Roles(run[k].threads))
  {
    forall t | 0 <= t < |run[k].threads|
      ensures RoleOf(run[k].threads[t].pc).Claiming? ==> RoleOf(run[k].threads[t].pc).g <= run[k].mem.cur
      ensures RoleOf(run[k].threads[t].pc).Counting? ==> RoleOf(run[k].threads[t].pc).g < |run[k].mem.gens|
    {
      assert ThreadOk(run, t, k);
    }
  }

  /** Every step of a run keeps the counts of all storages. */
  lemma OccupancyStep(run: seq<State>, sched: Schedule, k: nat)
    requires IsRun(run, sched) && k < |sched| && Occupied(run[k])
    ensures Occupied(run[k + 1])
  {
    var s, s', t := run[k], run[k + 1], sched[k];
    assert StepAt(run, sched, k);
    RunsAreOk(run, sched, k);
    StepKinds(s, s', t);
    assert ThreadOk(run, t, k);
    RolesRange(run, k);
    var r' := RoleOf(s'.threads[t].pc);
    assert Roles(s'.threads) == Roles(s.threads)[t := r'];
    if Moves(s, s', t) && !s.threads[t].pc.Done? {
      StepAccounts(s.mem, s.threads[t].op, s.threads[t].pc, Map(run[CallStart(run, t, k)]));
    }
    StepCounts(s.mem.cur, Tallies(s.mem), Roles(s.threads), t, Tallies(s'.mem), r');
  }

  lemma FirstIsOccupied(s: State)
    requires Init(s)
    ensures Occupied(s)
  {
    assert |s.mem.gens| == 1 && Claims(s.mem.gens[0]).Keys == {};
    assert Where(Roles(s.threads), Claiming(0)) == {} && Where(Roles(s.threads), Role.Counting(0)) == {};
  }

  lemma {:induction false} OccupancyAlways(run: seq<State>, sched: Schedule, k: nat)
    requires IsRun(run, sched) && k < |run|
    ensures Occupied(run[k])
  {
    if k == 0 {
      FirstIsOccupied(run[0]);
    } else {
      OccupancyAlways(run, sched, k - 1);
      OccupancyStep(run, sched, k - 1);
    }
  }

  /** No storage ever has more than size / 2 - 1 + T claimed slots, T being the number of threads. */
  lemma OccupancyBound(run: seq<State>, sched: Schedule, k: nat, g: nat)
    requires IsRun(run, sched) && k < |run| && g < |run[k].mem.gens| && !run[k].mem.gens[g].constant
    ensures |Claims(run[k].mem.gens[g]).Keys| <= |run[k].mem.gens[g].slots| / 2 - 1 + |run[k].threads|
  {
    OccupancyAlways(run, sched, k);
    RunsAreOk(run, sched, k);
    assert GenOk(run[k].mem.gens[g]);
    assert CountsOk(Tallies(run[k].mem), Roles(run[k].threads), g);
  }

  // ------------------------------------------------------------------------ growth

  lemma OnlyNextGrows(m: Memory, op: Op, pc: Pc)
    requires Shaped(m) && PcOk(m, pc) && |Step(m, op, pc).0.gens| != |m.gens|
    ensures pc.NextCas? && pc.g + 1 == |m.gens| && Step(m, op, pc).0 == m.(gens := m.gens + [Fresh(2 * Size(m, pc.g))])
  {
  }

  /** A new storage has twice the slots of the current one, and four after the empty one. */
  lemma SuccessorDoubles(run: seq<State>, sched: Schedule, k: nat)
    requires IsRun(run, sched) && k < |sched| && |run[k + 1].mem.gens| != |run[k].mem.gens|
    ensures var m, m' := run[k].mem, run[k + 1].mem;
            && |m'.gens| == |m.gens| + 1 == m.cur + 2 && m'.gens[..|m.gens|] == m.gens
            && |m'.gens[m.cur + 1].slots| == if m.gens[m.cur].constant then 4 else 2 * |m.gens[m.cur].slots|
  {
    var s, t := run[k], sched[k];
    assert StepAt(run, sched, k);
    RunsAreOk(run, sched, k);
    RunsAreOk(run, sched, k + 1);
    StepKinds(s, run[k + 1], t);
    OnlyNextGrows(s.mem, s.threads[t].op, s.threads[t].pc);
    var c := s.mem.gens[s.mem.cur];
    assert GenOk(c);
    EmptyIsOne(run, sched, k);
    if !c.constant { AllocDoubles(|c.slots|); }
  }

  lemma {:induction false} EmptyIsOne(run: seq<State>, sched: Schedule, k: nat)
    requires IsRun(run, sched) && k < |run|
    ensures forall g :: 0 <= g < |run[k].mem.gens| && run[k].mem.gens[g].constant ==> |run[k].mem.gens[g].slots| == 1
  {
    if k > 0 {
      EmptyIsOne(run, sched, k - 1);
      RunsAreOk(run, sched, k - 1);
      RunsAreOk(run, sched, k);
      OneMoreStep(run, sched, k - 1);
      var m, m' := run[k - 1].mem, run[k].mem;
      forall g | 0 <= g < |m'.gens| && m'.gens[g].constant ensures |m'.gens[g].slots| == 1 {
        assert SizeOk(m', g);
        assert GenLater(m.gens[g], m'.gens[g]);
      }
    }
  }
}
