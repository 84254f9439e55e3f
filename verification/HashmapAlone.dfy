/**
 A call on the hashmap that runs alone ends: from every state of every run, if only one
 thread goes on, it answers.
 */
module HashmapAlone {
  import opened MapSpec
  import opened Probing
  import opened Sizes
  import opened HashmapModel
  import opened HashmapInvariant
  import opened HashmapProof
  import opened HashmapRuns
  import opened Occupancy
  import opened HashmapOccupancy
  import opened Ranks

  // --------------------------------------------------------------------- ranks

  predicate Pending(m: Memory) {
    m.cur + 1 < |m.gens|
  }

  ghost function Taken(m: Memory, g: nat): nat
    requires g < |m.gens|
  {
    |Claims(m.gens[g]).Keys|
  }

  /** How full a storage is. The empty storage has to be left. */
  ghost function LevelAt(m: Memory, g: nat): nat
    requires g < |m.gens|
  {
    if m.gens[g].constant then 1 else Level(Taken(m, g), Size(m, g))
  }

  /** How often a call may still start over that tries storage `g`, given how full that is. */
  function TryNeed(m: Memory, g: nat, level: nat): nat {
    if g < m.cur then 4 else if Pending(m) then 3 else level
  }

  /** The same for one that migrates storage `g`. */
  ghost function MoveNeed(m: Memory, g: nat): nat
    requires g < |m.gens|
  {
    if g < m.cur then 3 else Level(Taken(m, g), if g + 1 < |m.gens| then Size(m, g + 1) else AllocSize(2 * Size(m, g)))
  }

  ghost function ReadNeed(m: Memory): nat
    requires m.cur < |m.gens|
  {
    if Pending(m) then 3 else LevelAt(m, m.cur)
  }

  /** What copy is to find in its slot before it retires it. */
  function Stale(m: Memory, job: Job, v: Value): nat {
    if JobInRange(m, job) && (m.gens[job.g].slots[job.j].word == Redirect || m.gens[job.g].slots[job.j].word == Holding(v)) then 0 else 10
  }

  /** put may have to go on to the last storage. */
  function Early(m: Memory, put: Put): nat {
    if put.d + 1 < |m.gens| then 4 else 0
  }

  ghost function MigrationRank(m: Memory, job: Job, stage: nat, probe: nat): Rank {
    if job.g < |m.gens| then Rank(MoveNeed(m, job.g), MIGRATES, Minus(Size(m, job.g), job.j), stage, probe) else Rank(0, 0, 0, 0, 0)
  }

  ghost function RankOf(m: Memory, pc: Pc): Rank
    requires Shaped(m) && PcOk(m, pc)
  {
    match pc
    case Idle => Rank(0, 0, 0, 0, 0)
    case Done(_) => Rank(0, 0, 0, 0, 0)
    case ReadStorage => Rank(ReadNeed(m), READS, 0, 0, 0)
    case LookProbe(g, i) => Rank(TryNeed(m, g, LevelAt(m, g)), TRIES, 0, 4, Minus(Size(m, g), i))
    case LookValue(g, i) => Rank(TryNeed(m, g, 0), TRIES, 0, 1, 0)
    case ReadCount(g) => Rank(TryNeed(m, g, LevelAt(m, g)), TRIES, 0, 5, 0)
    case ClaimRead(g, i) => Rank(TryNeed(m, g, LevelAt(m, g)), TRIES, 0, 4, 2 * Minus(Size(m, g), i) + 1)
    case ClaimCas(g, i) => Rank(TryNeed(m, g, LevelAt(m, g)), TRIES, 0, 4, 2 * Minus(Size(m, g), i))
    case ClaimIncrement(g, i) => Rank(TryNeed(m, g, 0), TRIES, 0, 2, 0)
    case Fill(g, i) => Rank(TryNeed(m, g, 0), TRIES, 0, 1, 0)
    case NextRead(g) => Rank(MoveNeed(m, g), MIGRATES, Size(m, g) + 2, 0, 0)
    case NextCas(g) => Rank(MoveNeed(m, g), MIGRATES, Size(m, g) + 1, 0, 0)
    case CopyHash(job) => MigrationRank(m, job, 29, 0)
    case FreezeVirgin(job) => MigrationRank(m, job, 28, 0)
    case CopyRehash(job, v) => MigrationRank(m, job, 27, 0)
    case CopyValue(job, h) => MigrationRank(m, job, 28, 0)
    case FreezeVoid(job, h) => MigrationRank(m, job, if m.gens[job.g].slots[job.j].word == Void then 1 else 25, 0)
    case PutRead(job, put) => MigrationRank(m, job, Stale(m, job, put.v) + Early(m, put) + 5, 2 * Minus(Size(m, put.d), put.i) + 1)
    case PutCas(job, put) => MigrationRank(m, job, Stale(m, job, put.v) + Early(m, put) + 5, 2 * Minus(Size(m, put.d), put.i))
    case PutIncrement(job, put) => MigrationRank(m, job, Stale(m, job, put.v) + Early(m, put) + 4, 0)
    case PutInstall(job, put) => MigrationRank(m, job, Stale(m, job, put.v) + Early(m, put) + 3, 0)
    case PutNext(job, put) => MigrationRank(m, job, Stale(m, job, put.v) + 6, 0)
    case PutBusy(job, put) => Rank(0, 0, 0, 0, 0)
    case Retire(job, put) => MigrationRank(m, job, Stale(m, job, put.v) + 2, 0)
    case Swap(job) => if job.g < |m.gens| then Rank(MoveNeed(m, job.g), MIGRATES, 0, 0, 0) else Rank(0, 0, 0, 0, 0)
  }

  /** What the descent of a step needs to know. */
  ghost predicate Ready(m: Memory, op: Op, pc: Pc, a: map<nat, Value>) {
    && MemInv(m) && Shaped(m) && PcOk(m, pc) && LocalInv(m, op, pc, a) && !pc.Idle? && !pc.Done?
    && m.gens[m.cur].nHashs <= Taken(m, m.cur)
  }

  ghost predicate Descends(m: Memory, op: Op, pc: Pc)
    requires Shaped(m) && PcOk(m, pc)
  {
    var (m', pc') := Step(m, op, pc);
    Shaped(m') && PcOk(m', pc') && (pc'.Done? || Lower(RankOf(m', pc'), RankOf(m, pc)))
  }

  // ------------------------------------------------------------------- attempts

  /** Who finds a storage busy starts over with a lower need. */
  lemma BusyIsLower(m: Memory, g: nat, level: nat)
    requires MemInv(m) && g <= m.cur
    requires g == m.cur && !Pending(m) ==> level == LevelAt(m, g) > 0
    ensures MoveNeed(m, g) < TryNeed(m, g, level)
  {
    if g == m.cur && !Pending(m) {
      HashesAreDistinct(m.gens[g]);
      if m.gens[g].constant {
        assert Claims(m.gens[g]).Keys == {};
      } else {
        DoublingHelps(Taken(m, g), Size(m, g), AllocSize(2 * Size(m, g)));
      }
    }
  }

  lemma ReadDescends(m: Memory, op: Op)
    requires Shaped(m)
    ensures Descends(m, op, ReadStorage)
  {
  }

  lemma CountDescends(m: Memory, op: Op, pc: Pc, a: map<nat, Value>)
    requires Ready(m, op, pc, a) && pc.ReadCount?
    ensures Descends(m, op, pc)
  {
    if MustMigrate(m.gens[pc.g]) { BusyIsLower(m, pc.g, LevelAt(m, pc.g)); }
  }

  /** A whole round of probes meets other hashes only: the storage is full. */
  lemma FullRound(gen: Generation, h: nat, i: nat)
    requires GenOk(gen) && Passed(gen, h, i) && i >= |gen.slots|
    ensures |Claims(gen).Keys| == |gen.slots| && !gen.constant
  {
    forall k: nat | k < |gen.slots| ensures k in Claims(gen).Keys {
      var i0 := ProbeCovers(h, k, |gen.slots|);
    }
    assert Claims(gen).Keys == Counting.Below(|gen.slots|);
    assert 0 in Claims(gen);
  }

  predicate RoundEnds(m: Memory, h: nat, g: nat, i: nat)
    requires Shaped(m) && g < |m.gens|
  {
    SlotAt(m, g, h, i).hash != 0 && SlotAt(m, g, h, i).hash != h && i + 1 == Size(m, g)
  }

  lemma RoundIsLower(m: Memory, h: nat, g: nat, i: nat)
    requires MemInv(m) && Shaped(m) && g <= m.cur && Seeking(m, g, h, i) && RoundEnds(m, h, g, i)
    ensures MoveNeed(m, g) < TryNeed(m, g, LevelAt(m, g))
  {
    PassOne(m, g, h, i);
    FullRound(m.gens[g], h, i + 1);
    BusyIsLower(m, g, LevelAt(m, g));
  }

  predicate Probes(pc: Pc) {
    pc.LookProbe? || pc.ClaimRead? || pc.ClaimCas?
  }

  lemma ProbeGoesOn(m: Memory, op: Op, pc: Pc)
    requires Shaped(m) && PcOk(m, pc) && Probes(pc) && pc.i < Size(m, pc.g) && !RoundEnds(m, Hash(op), pc.g, pc.i)
    requires pc.ClaimCas? ==> SlotAt(m, pc.g, Hash(op), pc.i).hash != 0
    ensures Descends(m, op, pc)
  {
    assert Step(m, op, pc).0 == m;
  }

  lemma ProbeGivesUp(m: Memory, op: Op, pc: Pc)
    requires Shaped(m) && PcOk(m, pc) && Probes(pc) && RoundEnds(m, Hash(op), pc.g, pc.i)
    requires MoveNeed(m, pc.g) < TryNeed(m, pc.g, LevelAt(m, pc.g))
    ensures Descends(m, op, pc)
  {
    assert Step(m, op, pc) == (m, NextRead(pc.g));
  }

  lemma ClaimWinsLower(m: Memory, op: Op, pc: Pc)
    requires Shaped(m) && PcOk(m, pc) && pc.ClaimCas? && SlotAt(m, pc.g, Hash(op), pc.i).hash == 0
    ensures Descends(m, op, pc)
  {
    var m' := Step(m, op, pc).0;
    assert Step(m, op, pc) == (WithClaim(m, pc.g, Pos(m, pc.g, Hash(op), pc.i), Hash(op)), ClaimIncrement(pc.g, pc.i));
    assert Shaped(m') && TryNeed(m', pc.g, 0) <= TryNeed(m, pc.g, LevelAt(m, pc.g));
  }

  lemma ProbeDescends(m: Memory, op: Op, pc: Pc, a: map<nat, Value>)
    requires Ready(m, op, pc, a) && Probes(pc)
    ensures Descends(m, op, pc)
  {
    if RoundEnds(m, Hash(op), pc.g, pc.i) {
      RoundIsLower(m, Hash(op), pc.g, pc.i);
      ProbeGivesUp(m, op, pc);
    } else if pc.ClaimCas? && SlotAt(m, pc.g, Hash(op), pc.i).hash == 0 {
      ClaimWinsLower(m, op, pc);
    } else {
      ProbeGoesOn(m, op, pc);
    }
  }

  lemma LookEnds(m: Memory, op: Op, pc: Pc)
    requires Shaped(m) && PcOk(m, pc) && pc.LookValue?
    requires SlotAt(m, pc.g, Hash(op), pc.i).word == Redirect ==> MoveNeed(m, pc.g) < TryNeed(m, pc.g, 0)
    ensures Descends(m, op, pc)
  {
    assert Step(m, op, pc).0 == m;
  }

  lemma FillEnds(m: Memory, op: Op, pc: Pc)
    requires Shaped(m) && PcOk(m, pc) && pc.Fill?
    requires SlotAt(m, pc.g, Hash(op), pc.i).word == Redirect ==> MoveNeed(m, pc.g) < TryNeed(m, pc.g, 0)
    ensures Descends(m, op, pc)
  {
    assert Step(m, op, pc).0 == m || Step(m, op, pc).1.Done?;
  }

  lemma IncrementLowers(m: Memory, op: Op, pc: Pc)
    requires Shaped(m) && PcOk(m, pc) && pc.ClaimIncrement?
    ensures Descends(m, op, pc)
  {
    assert Step(m, op, pc) == (WithIncrement(m, pc.g), Fill(pc.g, pc.i));
  }

  lemma ValueDescends(m: Memory, op: Op, pc: Pc, a: map<nat, Value>)
    requires Ready(m, op, pc, a) && (pc.LookValue? || pc.Fill?)
    ensures Descends(m, op, pc)
  {
    if pc.g < m.cur || Pending(m) { BusyIsLower(m, pc.g, 0); }
    if pc.LookValue? { LookEnds(m, op, pc); } else { FillEnds(m, op, pc); }
  }

  lemma CallDescends(m: Memory, op: Op, pc: Pc, a: map<nat, Value>)
    requires Ready(m, op, pc, a) && InCall(pc)
    ensures Descends(m, op, pc)
  {
    if pc.ReadStorage? {
      ReadDescends(m, op);
    } else if pc.ReadCount? {
      CountDescends(m, op, pc, a);
    } else if Probes(pc) {
      ProbeDescends(m, op, pc, a);
    } else if pc.ClaimIncrement? {
      IncrementLowers(m, op, pc);
    } else {
      ValueDescends(m, op, pc, a);
    }
  }

  // ------------------------------------------------------------------ migrations

  /** The memory means the same to the migration of storage `g`. */
  ghost predicate SameToCopy(m: Memory, m': Memory, g: nat) {
    && Shaped(m') && g < |m.gens| == |m'.gens| && m'.cur == m.cur
    && MoveNeed(m', g) == MoveNeed(m, g) && Size(m', g) == Size(m, g)
  }

  lemma WordIsSame(m: Memory, g: nat, k: nat, x: Word)
    requires Shaped(m) && g < |m.gens| && k < |m.gens[g].slots|
    ensures SameToCopy(m, WithWord(m, g, k, x), g)
  {
    var m' := WithWord(m, g, k, x);
    assert Claims(m'.gens[g]).Keys == Claims(m.gens[g]).Keys;
    assert Shaped(m') && (g + 1 < |m.gens| ==> m'.gens[g + 1] == m.gens[g + 1]);
  }

  lemma OtherIsSame(m: Memory, g: nat, d: nat, gen: Generation)
    requires Shaped(m) && g < |m.gens| && d < |m.gens| && d != g && |gen.slots| == |m.gens[d].slots|
    ensures SameToCopy(m, m.(gens := m.gens[d := gen]), g)
  {
    var m' := m.(gens := m.gens[d := gen]);
    assert m'.gens[g] == m.gens[g] && Shaped(m');
    assert g + 1 < |m.gens| ==> Size(m', g + 1) == Size(m, g + 1);
  }

  lemma NextGoesOn(m: Memory, op: Op, pc: Pc)
    requires Shaped(m) && PcOk(m, pc) && (pc.NextRead? || (pc.NextCas? && |m.gens| - 1 != pc.g))
    ensures Descends(m, op, pc)
  {
    assert Step(m, op, pc).0 == m;
  }

  lemma NextIsMade(m: Memory, op: Op, pc: Pc)
    requires Shaped(m) && PcOk(m, pc) && pc.NextCas? && |m.gens| - 1 == pc.g
    ensures Descends(m, op, pc)
  {
    var m' := Step(m, op, pc).0;
    assert m' == m.(gens := m.gens + [Fresh(2 * Size(m, pc.g))]);
    assert m'.gens[pc.g] == m.gens[pc.g] && Size(m', pc.g + 1) == AllocSize(2 * Size(m, pc.g)) && Shaped(m');
  }

  predicate OnSlot(pc: Pc) {
    pc.CopyHash? || pc.FreezeVirgin? || pc.CopyRehash? || pc.CopyValue? || pc.FreezeVoid? || pc.Retire?
  }

  /** copy redirects its slot and goes on to the next. */
  predicate Redirects(m: Memory, pc: Pc)
    requires PcOk(m, pc) && OnSlot(pc)
  {
    || ((pc.FreezeVirgin? || pc.FreezeVoid?) && m.gens[pc.job.g].slots[pc.job.j].word == Void)
    || (pc.Retire? && m.gens[pc.job.g].slots[pc.job.j].word == Holding(pc.put.v))
  }

  lemma RedirectDescends(m: Memory, op: Op, pc: Pc)
    requires Shaped(m) && PcOk(m, pc) && OnSlot(pc) && Redirects(m, pc)
    ensures Descends(m, op, pc)
  {
    WordIsSame(m, pc.job.g, pc.job.j, Redirect);
    assert Step(m, op, pc) == (WithWord(m, pc.job.g, pc.job.j, Redirect), NextSlot(pc.job));
  }

  lemma CopyGoesOn(m: Memory, op: Op, pc: Pc)
    requires Shaped(m) && PcOk(m, pc) && (pc.CopyHash? || pc.CopyRehash? || pc.CopyValue?) && pc.job.q < |m.gens|
    ensures Descends(m, op, pc)
  {
    assert Step(m, op, pc).0 == m;
  }

  lemma FreezeGoesOn(m: Memory, op: Op, pc: Pc)
    requires Shaped(m) && PcOk(m, pc) && (pc.FreezeVirgin? || pc.FreezeVoid?) && !Redirects(m, pc) && pc.job.q < |m.gens|
    ensures Descends(m, op, pc)
  {
    assert Step(m, op, pc).0 == m;
  }

  lemma RetireGoesOn(m: Memory, op: Op, pc: Pc)
    requires Shaped(m) && PcOk(m, pc) && pc.Retire? && !Redirects(m, pc) && pc.job.q < |m.gens|
    ensures Descends(m, op, pc)
  {
    assert Step(m, op, pc).0 == m;
  }

  predicate Puts(pc: Pc) {
    pc.PutRead? || pc.PutCas? || pc.PutIncrement? || pc.PutInstall? || pc.PutNext?
  }

  /** What a step of put leaves alone. */
  ghost predicate PutLeaves(m: Memory, m': Memory, job: Job, put: Put) {
    && SameToCopy(m, m', job.g) && Stale(m', job, put.v) == Stale(m, job, put.v) && put.d < |m.gens|
    && Size(m', put.d) == Size(m, put.d)
  }

  lemma PutChanges(m: Memory, job: Job, put: Put, gen: Generation)
    requires Shaped(m) && job.g < put.d < |m.gens| && |gen.slots| == |m.gens[put.d].slots|
    ensures PutLeaves(m, m.(gens := m.gens[put.d := gen]), job, put)
  {
    OtherIsSame(m, job.g, put.d, gen);
  }

  lemma PutMemory(m: Memory, op: Op, pc: Pc)
    requires Shaped(m) && PcOk(m, pc) && Puts(pc) && pc.job.g < pc.put.d < |m.gens|
    ensures PutLeaves(m, Step(m, op, pc).0, pc.job, pc.put)
  {
    var d, k := pc.put.d, Pos(m, pc.put.d, pc.put.h, pc.put.i);
    var m' := Step(m, op, pc).0;
    if pc.PutCas? && SlotAt(m, d, pc.put.h, pc.put.i).hash == 0 {
      PutChanges(m, pc.job, pc.put, WithClaim(m, d, k, pc.put.h).gens[d]);
    } else if pc.PutIncrement? {
      PutChanges(m, pc.job, pc.put, WithIncrement(m, d).gens[d]);
    } else if pc.PutInstall? && SlotAt(m, d, pc.put.h, pc.put.i).word == Void {
      PutChanges(m, pc.job, pc.put, WithWord(m, d, k, Holding(pc.put.v)).gens[d]);
    } else {
      assert m' == m;
    }
  }

  lemma PutGoesOn(m: Memory, op: Op, pc: Pc)
    requires Shaped(m) && PcOk(m, pc) && (pc.PutRead? || (pc.PutCas? && SlotAt(m, pc.put.d, pc.put.h, pc.put.i).hash != 0))
    requires pc.put.i < Size(m, pc.put.d) && !Step(m, op, pc).1.PutBusy? && pc.job.g < |m.gens|
    ensures Descends(m, op, pc)
  {
    assert Step(m, op, pc).0 == m;
  }

  lemma PutWinsLower(m: Memory, op: Op, pc: Pc)
    requires Shaped(m) && PcOk(m, pc) && pc.PutCas? && SlotAt(m, pc.put.d, pc.put.h, pc.put.i).hash == 0 && pc.job.g < |m.gens|
    requires PutLeaves(m, Step(m, op, pc).0, pc.job, pc.put)
    ensures Descends(m, op, pc)
  {
    assert Step(m, op, pc).1 == PutIncrement(pc.job, pc.put);
  }

  lemma PutProbes(m: Memory, op: Op, pc: Pc, a: map<nat, Value>)
    requires Ready(m, op, pc, a) && (pc.PutRead? || pc.PutCas?)
    ensures Descends(m, op, pc)
  {
    if pc.PutCas? && SlotAt(m, pc.put.d, pc.put.h, pc.put.i).hash == 0 {
      PutMemory(m, op, pc);
      PutWinsLower(m, op, pc);
    } else {
      PutClaimStep(m, pc);
      PutGoesOn(m, op, pc);
    }
  }

  lemma PutEnds(m: Memory, op: Op, pc: Pc)
    requires Shaped(m) && PcOk(m, pc) && (pc.PutIncrement? || pc.PutInstall? || pc.PutNext?) && pc.job.g < pc.put.d < |m.gens|
    requires PutLeaves(m, Step(m, op, pc).0, pc.job, pc.put) && JobInRange(m, pc.job)
    requires pc.PutInstall? && SlotAt(m, pc.put.d, pc.put.h, pc.put.i).word == Redirect ==> pc.put.d + 1 < |m.gens|
    ensures Descends(m, op, pc)
  {
  }

  /** The last storage has no redirected slot. */
  lemma LastIsOpen(m: Memory, k: nat)
    requires MemInv(m) && k < |m.gens[|m.gens| - 1].slots|
    ensures m.gens[|m.gens| - 1].slots[k].word != Redirect
  {
  }

  lemma PutDescends(m: Memory, op: Op, pc: Pc, a: map<nat, Value>)
    requires Ready(m, op, pc, a) && Puts(pc)
    ensures Descends(m, op, pc)
  {
    if pc.PutRead? || pc.PutCas? {
      PutProbes(m, op, pc, a);
    } else {
      PutMemory(m, op, pc);
      if pc.put.d + 1 == |m.gens| { LastIsOpen(m, Pos(m, pc.put.d, pc.put.h, pc.put.i)); }
      PutEnds(m, op, pc);
    }
  }

  /** The successor is no fuller than what was carried to it. */
  lemma SuccessorIsNoFuller(m: Memory)
    requires MemInv(m) && Pending(m)
    ensures LevelAt(m, m.cur + 1) <= MoveNeed(m, m.cur)
  {
    var g := m.cur;
    assert GenOk(m.gens[g]) && GenOk(m.gens[g + 1]) && SizeOk(m, g + 1);
    PendingNotFuller(m.gens[g], m.gens[g + 1]);
    LessIsLower(Taken(m, g + 1), Taken(m, g), Size(m, g + 1), Size(m, g + 1));
  }

  lemma SwapLowers(m: Memory, op: Op, pc: Pc)
    requires Shaped(m) && pc.Swap? && pc.job.g <= m.cur && pc.job.g < pc.job.q < |m.gens| <= m.cur + 2
    requires pc.job.g == m.cur ==> LevelAt(m, m.cur + 1) <= MoveNeed(m, m.cur)
    ensures Descends(m, op, pc)
  {
  }

  lemma SwapDescends(m: Memory, op: Op, pc: Pc, a: map<nat, Value>)
    requires Ready(m, op, pc, a) && pc.Swap?
    ensures Descends(m, op, pc)
  {
    if pc.job.g == m.cur { SuccessorIsNoFuller(m); }
    SwapLowers(m, op, pc);
  }

  lemma SlotDescends(m: Memory, op: Op, pc: Pc, a: map<nat, Value>)
    requires Ready(m, op, pc, a) && OnSlot(pc)
    ensures Descends(m, op, pc)
  {
    if Redirects(m, pc) {
      RedirectDescends(m, op, pc);
    } else if pc.Retire? {
      RetireGoesOn(m, op, pc);
    } else if pc.FreezeVirgin? || pc.FreezeVoid? {
      FreezeGoesOn(m, op, pc);
    } else {
      CopyGoesOn(m, op, pc);
    }
  }

  /** Every step of a call that runs alone ends it or brings it nearer to its end. */
  lemma StepDescends(m: Memory, op: Op, pc: Pc, a: map<nat, Value>)
    requires Ready(m, op, pc, a)
    ensures Descends(m, op, pc)
  {
    if InCall(pc) {
      CallDescends(m, op, pc, a);
    } else if OnSlot(pc) {
      SlotDescends(m, op, pc, a);
    } else if Puts(pc) {
      PutDescends(m, op, pc, a);
    } else if pc.Swap? {
      SwapDescends(m, op, pc, a);
    } else if pc.NextRead? || |m.gens| - 1 != pc.g {
      NextGoesOn(m, op, pc);
    } else {
      NextIsMade(m, op, pc);
    }
  }

  // ----------------------------------------------------------------------- runs

  predicate InProgress(s: State, t: nat) {
    t < |s.threads| && Shaped(s.mem) && PcOk(s.mem, s.threads[t].pc) && !s.threads[t].pc.Idle?
  }

  ghost function LastRank(run: seq<State>, t: nat): Rank
    requires run != [] && InProgress(run[|run| - 1], t)
  {
    RankOf(run[|run| - 1].mem, run[|run| - 1].threads[t].pc)
  }

  function Moved(s: State, t: nat): State
    requires InProgress(s, t)
  {
    var (m, pc) := Step(s.mem, s.threads[t].op, s.threads[t].pc);
    State(m, s.threads[t := s.threads[t].(pc := pc)])
  }

  lemma RunGoesOn(run: seq<State>, sched: Schedule, t: nat)
    requires IsRun(run, sched) && InProgress(run[|sched|], t)
    ensures IsRun(run + [Moved(run[|sched|], t)], sched + [t])
  {
    var s, s' := run[|sched|], Moved(run[|sched|], t);
    var run', sched' := run + [s'], sched + [t];
    assert Moves(s, s', t);
    forall i: nat | i < |sched'| ensures StepAt(run', sched', i) {
      if i < |sched| {
        assert StepAt(run, sched, i);
      }
    }
  }

  lemma LastDescends(run: seq<State>, sched: Schedule, t: nat)
    requires IsRun(run, sched) && InProgress(run[|run| - 1], t) && !run[|run| - 1].threads[t].pc.Done?
    ensures var s := run[|run| - 1]; Descends(s.mem, s.threads[t].op, s.threads[t].pc)
  {
    var k := |sched|;
    var s := run[k];
    RunsAreOk(run, sched, k);
    assert ThreadOk(run, t, k);
    OccupancyAlways(run, sched, k);
    assert CountsOk(Tallies(s.mem), Roles(s.threads), s.mem.cur);
    StepDescends(s.mem, s.threads[t].op, s.threads[t].pc, Map(run[CallStart(run, t, k)]));
  }

  lemma OneStepAlone(run: seq<State>, sched: Schedule, t: nat) returns (s': State)
    requires IsRun(run, sched) && InProgress(run[|run| - 1], t) && !run[|run| - 1].threads[t].pc.Done?
    ensures IsRun(run + [s'], sched + [t]) && InProgress(s', t) && s'.threads[t].op == run[|run| - 1].threads[t].op
    ensures s'.threads[t].pc.Done? || Lower(LastRank(run + [s'], t), LastRank(run, t))
  {
    LastDescends(run, sched, t);
    RunGoesOn(run, sched, t);
    s' := Moved(run[|sched|], t);
  }

  /** From every state of every run: if thread `t` goes on alone, its call ends. */
  lemma {:induction false} EndsAlone(run: seq<State>, sched: Schedule, t: nat) returns (more: seq<State>)
    requires IsRun(run, sched) && InProgress(run[|run| - 1], t)
    ensures IsRun(run + more, sched + seq(|more|, _ => t))
    ensures var s := (run + more)[|run + more| - 1];
            t < |s.threads| && s.threads[t].op == run[|run| - 1].threads[t].op && s.threads[t].pc.Done?
    decreases LastRank(run, t).need, LastRank(run, t).phase, LastRank(run, t).slot, LastRank(run, t).stage, LastRank(run, t).probe
  {
    if run[|run| - 1].threads[t].pc.Done? {
      more := [];
      assert run + more == run && sched + seq(|more|, _ => t) == sched;
    } else {
      var s' := OneStepAlone(run, sched, t);
      if s'.threads[t].pc.Done? {
        more := [s'];
        assert sched + seq(|more|, _ => t) == sched + [t];
      } else {
        var rest := EndsAlone(run + [s'], sched + [t], t);
        more := [s'] + rest;
        assert run + more == run + [s'] + rest;
        StepsOf(sched, t, |rest|);
      }
    }
  }
}
