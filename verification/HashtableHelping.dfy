/**
 Helping is bounded: how often a thread that freezes or seals a slot can lose its
 compare-and-swap, whatever the others do.
 */
module HashtableHelping {
  import opened Options
  import opened Probing
  import opened MapSpec
  import opened HashtableModel
  import opened HashtableInvariant
  import opened HashtableSteps
  import opened HashtableProof
  import opened HashtableRuns

  function HashWordAt(s: State, g: nat, j: nat): HashWord {
    if g < |s.mem.gens| && j < |s.mem.gens[g].slots| then s.mem.gens[g].slots[j].hw else HashWord(0, false)
  }

  function ValueWordAt(s: State, g: nat, j: nat): ValueWord {
    if g < |s.mem.gens| && j < |s.mem.gens[g].slots| then s.mem.gens[g].slots[j].vw else ValueWord(Empty, false)
  }

  function PcAt(s: State, t: nat): Pc {
    if t < |s.threads| then s.threads[t].pc else Idle
  }

  /** Thread `t` loses a compare-and-swap of freeze or seal with the step from state `k`. */
  predicate Loses(run: seq<State>, sched: seq<nat>, t: nat, k: nat)
    requires k < |sched| && k + 1 < |run|
  {
    && sched[k] == t
    && ((PcAt(run[k], t).FreezeCas? && PcAt(run[k + 1], t).FreezeRead?)
        || (PcAt(run[k], t).SealCas? && PcAt(run[k + 1], t).SealRead?))
  }

  /** How often it does so from state `b` to state `k`. */
  ghost function Losses(run: seq<State>, sched: seq<nat>, t: nat, b: nat, k: nat): nat
    requires b <= k <= |sched| && |run| == |sched| + 1
    decreases k
  {
    if k == b then 0 else Losses(run, sched, t, b, k - 1) + if Loses(run, sched, t, k - 1) then 1 else 0
  }

  lemma StepFrame(run: seq<State>, sched: seq<nat>, k: nat, t: nat)
    requires IsRun(run, sched) && k < |sched|
    ensures sched[k] != t ==> PcAt(run[k + 1], t) == PcAt(run[k], t)
    ensures sched[k] == t && !PcAt(run[k], t).Idle? && !PcAt(run[k], t).Done? ==>
              Moves(run[k], run[k + 1], t) && Sound(run[k])
  {
    assert StepAt(run, sched, k);
    RunsAreOk(run, sched, k);
  }

  // ------------------------------------------------------------------- freeze

  /** A hash word goes from unclaimed to claimed to frozen, and may skip the claim. */
  function Rank(w: HashWord): nat {
    if w.frozen then 2 else if w.hash != 0 then 1 else 0
  }

  lemma RankGrows(run: seq<State>, sched: seq<nat>, k: nat, g: nat, j: nat)
    requires IsRun(run, sched) && k < |sched| && g < |run[k].mem.gens| && j < |run[k].mem.gens[g].slots|
    ensures var w, w' := HashWordAt(run[k], g, j), HashWordAt(run[k + 1], g, j);
            Rank(w) <= Rank(w') && (Rank(w) == Rank(w') ==> w == w')
  {
    StepEvolves(run, sched, k);
    assert GenEvolves(run[k].mem.gens[g], run[k + 1].mem.gens[g]);
    assert SlotEvolves(run[k].mem.gens[g].slots[j], run[k + 1].mem.gens[g].slots[j]);
  }

  predicate Freezing(pc: Pc, g: nat, j: nat) {
    (pc.FreezeRead? || pc.FreezeCas?) && pc.g == g && pc.j == j
  }

  ghost predicate FreezesFrom(run: seq<State>, t: nat, g: nat, j: nat, b: nat, k: nat) {
    k < |run| && forall i: nat :: b <= i <= k ==> FreezesAt(run, t, g, j, i)
  }

  predicate FreezesAt(run: seq<State>, t: nat, g: nat, j: nat, i: nat) {
    i < |run| && Freezing(PcAt(run[i], t), g, j)
  }

  lemma FreezerIsInRange(run: seq<State>, sched: seq<nat>, t: nat, k: nat)
    requires IsRun(run, sched) && k < |run|
    requires PcAt(run[k], t).FreezeRead? || PcAt(run[k], t).FreezeCas? || PcAt(run[k], t).SealRead? || PcAt(run[k], t).SealCas?
    ensures var pc := PcAt(run[k], t);
            && pc.g < |run[k].mem.gens| && pc.j < |run[k].mem.gens[pc.g].slots|
            && (pc.SealRead? || pc.SealCas? ==> HashWordAt(run[k], pc.g, pc.j).frozen)
  {
    RunsAreOk(run, sched, k);
    assert ThreadOk(run, t, k);
  }

  /** The word that freeze has read, or would read now. */
  function LastRead(s: State, t: nat, g: nat, j: nat): HashWord {
    if PcAt(s, t).FreezeCas? then PcAt(s, t).seen else HashWordAt(s, g, j)
  }

  ghost predicate FreezeCount(run: seq<State>, sched: seq<nat>, t: nat, g: nat, j: nat, b: nat, k: nat)
    requires b <= k <= |sched| && |run| == |sched| + 1
  {
    var seen, w := LastRead(run[k], t, g, j), HashWordAt(run[k], g, j);
    && Losses(run, sched, t, b, k) + Rank(HashWordAt(run[b], g, j)) <= Rank(seen) <= Rank(w)
    && (Rank(seen) == Rank(w) ==> seen == w)
  }

  lemma FreezeMoves(s: State, s': State, t: nat, g: nat, j: nat)
    requires Moves(s, s', t) && Freezing(PcAt(s, t), g, j) && Freezing(PcAt(s', t), g, j) && t < |s.threads|
    requires g < |s.mem.gens| && j < |s.mem.gens[g].slots|
    ensures HashWordAt(s', g, j) == HashWordAt(s, g, j)
    ensures PcAt(s, t).FreezeRead? ==> PcAt(s', t) == FreezeCas(g, j, HashWordAt(s, g, j))
    ensures PcAt(s, t).FreezeCas? ==> PcAt(s', t).FreezeRead? && PcAt(s, t).seen != HashWordAt(s, g, j)
  {
  }

  lemma {:induction false} FreezeCounts(run: seq<State>, sched: seq<nat>, t: nat, g: nat, j: nat, b: nat, k: nat)
    requires IsRun(run, sched) && b <= k < |run| && FreezesFrom(run, t, g, j, b, k) && PcAt(run[b], t).FreezeRead?
    ensures FreezeCount(run, sched, t, g, j, b, k)
    decreases k
  {
    if b < k {
      var p := k - 1;
      FreezeCounts(run, sched, t, g, j, b, p);
      assert FreezesAt(run, t, g, j, p) && FreezesAt(run, t, g, j, k);
      FreezerIsInRange(run, sched, t, p);
      StepFrame(run, sched, p, t);
      RankGrows(run, sched, p, g, j);
      if sched[p] == t { FreezeMoves(run[p], run[k], t, g, j); }
    }
  }

  /** Freezing one slot loses at most two compare-and-swaps. */
  lemma FreezeLosesTwice(run: seq<State>, sched: seq<nat>, t: nat, g: nat, j: nat, b: nat, k: nat)
    requires IsRun(run, sched) && b <= k < |run| && FreezesFrom(run, t, g, j, b, k) && PcAt(run[b], t).FreezeRead?
    ensures Losses(run, sched, t, b, k) <= 2
  {
    FreezeCounts(run, sched, t, g, j, b, k);
  }

  // --------------------------------------------------------------------- seal

  /** Past the check of the hash word of slot `j`, and not done with its value word yet. */
  predicate PastCheck(op: Op, pc: Pc, g: nat, j: nat, size: nat) {
    && (pc.ClaimIncrement? || pc.ValueRead? || pc.ValueCas? || pc.RemoveCas?)
    && pc.g == g && size > 0 && Probe(Hash(op), pc.i, size) == j
  }

  ghost function InFlight(s: State, g: nat, j: nat): set<nat> {
    set t: nat | t < |s.threads| && g < |s.mem.gens|
                 && PastCheck(s.threads[t].op, s.threads[t].pc, g, j, |s.mem.gens[g].slots|)
  }

  /** What can still change the value word: the writers in flight, and the seal. */
  ghost function Pending(s: State, g: nat, j: nat): nat {
    |InFlight(s, g, j)| + if ValueWordAt(s, g, j).sealed then 0 else 1
  }

  predicate IsWriting(pc: Pc) {
    || pc.ClaimRead? || pc.ClaimCas? || pc.ClaimIncrement? || pc.ValueRead? || pc.ValueCas?
    || pc.RemoveProbe? || pc.RemoveCas?
  }

  lemma OthersDoNotWrite(m: Memory, op: Op, pc: Pc, g: nat, j: nat, size: nat)
    requires Shaped(m) && PcOk(m, pc) && !pc.Idle? && !IsWriting(pc)
    ensures !PastCheck(op, Step(m, op, pc).1, g, j, size)
  {
  }

  lemma WritersDoNotEnter(m: Memory, op: Op, pc: Pc, g: nat, j: nat)
    requires Shaped(m) && PcOk(m, pc) && IsWriting(pc) && g < |m.gens| && j < |m.gens[g].slots| && m.gens[g].slots[j].hw.frozen
    requires PastCheck(op, Step(m, op, pc).1, g, j, |m.gens[g].slots|)
    ensures PastCheck(op, pc, g, j, |m.gens[g].slots|)
  {
  }

  /** Nobody gets past the check of a frozen slot. */
  lemma NobodyEnters(m: Memory, op: Op, pc: Pc, g: nat, j: nat)
    requires Shaped(m) && PcOk(m, pc) && !pc.Idle? && g < |m.gens| && j < |m.gens[g].slots| && m.gens[g].slots[j].hw.frozen
    ensures PastCheck(op, Step(m, op, pc).1, g, j, |m.gens[g].slots|) ==> PastCheck(op, pc, g, j, |m.gens[g].slots|)
  {
    if !IsWriting(pc) {
      OthersDoNotWrite(m, op, pc, g, j, |m.gens[g].slots|);
    } else if PastCheck(op, Step(m, op, pc).1, g, j, |m.gens[g].slots|) {
      WritersDoNotEnter(m, op, pc, g, j);
    }
  }

  lemma InstallsUnfrozen(m: Memory, op: Op, pc: Pc, seen: set<Option<Value>>)
    requires MemInv(m) && Shaped(m) && pc.CarryInstall? && LocalInv(m, op, pc, seen)
    ensures var s := m.gens[pc.q].slots[Pos(m, pc.q, pc.h, pc.i)]; s.vw == ValueWord(Empty, false) ==> !s.hw.frozen
  {
    CarryFinds(m, pc.g, pc.j, pc.h, pc.v, pc.q, pc.i);
  }

  /** Who changes the value word of a frozen slot: a writer that is then done, or a sealer. */
  lemma WhoChanges(m: Memory, op: Op, pc: Pc, g: nat, j: nat)
    requires Shaped(m) && PcOk(m, pc) && !pc.Idle?
    requires pc.CarryInstall? ==>
               var s := m.gens[pc.q].slots[Pos(m, pc.q, pc.h, pc.i)]; s.vw == ValueWord(Empty, false) ==> !s.hw.frozen
    requires g < |m.gens| && j < |m.gens[g].slots| && m.gens[g].slots[j].hw.frozen
    ensures var (m', pc') := Step(m, op, pc);
            && g < |m'.gens| && |m'.gens[g].slots| == |m.gens[g].slots|
            && (m'.gens[g].slots[j].vw == m.gens[g].slots[j].vw
                || (PastCheck(op, pc, g, j, |m.gens[g].slots|) && !PastCheck(op, pc', g, j, |m.gens[g].slots|)
                    && !m'.gens[g].slots[j].vw.sealed && !m.gens[g].slots[j].vw.sealed)
                || (!m.gens[g].slots[j].vw.sealed && m'.gens[g].slots[j].vw.sealed))
  {
  }

  /** The writers in flight, without the thread that moves. */
  lemma OthersInFlight(s: State, s': State, t: nat, g: nat, j: nat)
    requires t < |s.threads| == |s'.threads| && g < |s.mem.gens| && g < |s'.mem.gens|
    requires |s'.mem.gens[g].slots| == |s.mem.gens[g].slots|
    requires forall u :: 0 <= u < |s.threads| && u != t ==> s'.threads[u] == s.threads[u]
    requires t in InFlight(s', g, j) ==> t in InFlight(s, g, j)
    ensures |InFlight(s', g, j)| <= |InFlight(s, g, j)|
    ensures t in InFlight(s, g, j) && t !in InFlight(s', g, j) ==> |InFlight(s', g, j)| < |InFlight(s, g, j)|
  {
    var a, b := InFlight(s, g, j), InFlight(s', g, j);
    assert b <= a;
    assert |a| == |b| + |a - b|;
    if t in a && t !in b { assert t in a - b; }
  }

  /** Every change of the value word of a frozen slot uses up one that can change it. */
  lemma PendingFalls(run: seq<State>, sched: seq<nat>, k: nat, g: nat, j: nat)
    requires IsRun(run, sched) && k < |sched| && g < |run[k].mem.gens| && j < |run[k].mem.gens[g].slots|
    requires HashWordAt(run[k], g, j).frozen
    ensures Pending(run[k + 1], g, j) <= Pending(run[k], g, j)
    ensures ValueWordAt(run[k + 1], g, j) != ValueWordAt(run[k], g, j) ==> Pending(run[k + 1], g, j) < Pending(run[k], g, j)
  {
    var s, s', t := run[k], run[k + 1], sched[k];
    RunsAreOk(run, sched, k);
    assert StepAt(run, sched, k);
    if Moves(s, s', t) && !s.threads[t].pc.Done? {
      MoveFalls(run, s, s', t, k, g, j);
    } else {
      OthersInFlight(s, s', t, g, j);
    }
  }

  lemma MoveFalls(run: seq<State>, s: State, s': State, t: nat, k: nat, g: nat, j: nat)
    requires k < |run| && s == run[k] && (forall i :: 0 <= i < |run| ==> |run[i].threads| == |run[0].threads|) && RunOk(run, k)
    requires Moves(s, s', t) && !s.threads[t].pc.Done? && g < |s.mem.gens| && j < |s.mem.gens[g].slots| && HashWordAt(s, g, j).frozen
    ensures Pending(s', g, j) <= Pending(s, g, j)
    ensures ValueWordAt(s', g, j) != ValueWordAt(s, g, j) ==> Pending(s', g, j) < Pending(s, g, j)
  {
    var th := s.threads[t];
    assert ThreadOk(run, t, k);
    if th.pc.CarryInstall? { InstallsUnfrozen(s.mem, th.op, th.pc, Seen(run, CallStart(run, t, k), k, Hash(th.op))); }
    WhoChanges(s.mem, th.op, th.pc, g, j);
    var pc' := s'.threads[t].pc;
    NobodyEnters(s.mem, th.op, th.pc, g, j);
    OthersInFlight(s, s', t, g, j);
  }

  predicate Sealing(pc: Pc, g: nat, j: nat) {
    (pc.SealRead? || pc.SealCas?) && pc.g == g && pc.j == j
  }

  predicate SealsAt(run: seq<State>, t: nat, g: nat, j: nat, i: nat) {
    i < |run| && Sealing(PcAt(run[i], t), g, j)
  }

  ghost predicate SealsFrom(run: seq<State>, t: nat, g: nat, j: nat, b: nat, k: nat) {
    k < |run| && forall i: nat :: b <= i <= k ==> SealsAt(run, t, g, j, i)
  }

  /** The value word is no longer what seal has read. */
  predicate Overtaken(s: State, t: nat, g: nat, j: nat) {
    PcAt(s, t).SealCas? && ValueWordAt(s, g, j) != ValueWord(PcAt(s, t).want, false)
  }

  lemma SealMoves(s: State, s': State, t: nat, g: nat, j: nat)
    requires Moves(s, s', t) && Sealing(PcAt(s, t), g, j) && Sealing(PcAt(s', t), g, j) && t < |s.threads|
    requires g < |s.mem.gens| && j < |s.mem.gens[g].slots|
    ensures !Overtaken(s', t, g, j)
    ensures PcAt(s, t).SealRead? ==> PcAt(s', t).SealCas?
    ensures PcAt(s, t).SealCas? ==> PcAt(s', t).SealRead? && Overtaken(s, t, g, j)
  {
  }

  lemma {:induction false} SealCounts(run: seq<State>, sched: seq<nat>, t: nat, g: nat, j: nat, b: nat, k: nat)
    requires IsRun(run, sched) && b <= k < |run| && SealsFrom(run, t, g, j, b, k) && PcAt(run[b], t).SealRead?
    ensures Losses(run, sched, t, b, k) + (if Overtaken(run[k], t, g, j) then 1 else 0) + Pending(run[k], g, j) <= Pending(run[b], g, j)
    decreases k
  {
    if b < k {
      var p := k - 1;
      SealCounts(run, sched, t, g, j, b, p);
      assert SealsAt(run, t, g, j, p) && SealsAt(run, t, g, j, k);
      FreezerIsInRange(run, sched, t, p);
      StepFrame(run, sched, p, t);
      PendingFalls(run, sched, p, g, j);
      if sched[p] == t { SealMoves(run[p], run[k], t, g, j); }
    }
  }

  /**
   Sealing one slot loses at most one compare-and-swap for each writer that was past
   the check of the hash word when sealing began, and one to another sealer.
   */
  lemma SealLosesToWriters(run: seq<State>, sched: seq<nat>, t: nat, g: nat, j: nat, b: nat, k: nat)
    requires IsRun(run, sched) && b <= k < |run| && SealsFrom(run, t, g, j, b, k) && PcAt(run[b], t).SealRead?
    ensures Losses(run, sched, t, b, k) <= |InFlight(run[b], g, j)| + 1
  {
    SealCounts(run, sched, t, g, j, b, k);
  }
}
