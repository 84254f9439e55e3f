/**
 Slots with no hash and yet a value word. The header of the hashmap calls them
 unreachable; they are not: a migration freezes virgin slots. Here is a run that reaches
 one, the exact condition under which a slot is one, and why nothing is lost by it.
 */
module HashmapFrozen {
  import opened MapSpec
  import opened Probing
  import opened HashmapModel
  import opened HashmapInvariant
  import opened HashmapProof
  import opened HashmapRuns

  predicate HasSlot(s: State, g: nat, j: nat) {
    g < |s.mem.gens| && j < |s.mem.gens[g].slots|
  }

  function SlotOf(s: State, g: nat, j: nat): Slot {
    if HasSlot(s, g, j) then s.mem.gens[g].slots[j] else Slot(0, Void)
  }

  // -------------------------------------------------------------------- a run that has one

  function Moved(s: State, t: nat): State
    requires Shaped(s.mem) && t < |s.threads| && PcOk(s.mem, s.threads[t].pc)
  {
    var (m, pc) := Step(s.mem, s.threads[t].op, s.threads[t].pc);
    State(m, s.threads[t := s.threads[t].(pc := pc)])
  }

  lemma Extend(run: seq<State>, sched: Schedule, s: State, t: nat) returns (run': seq<State>, sched': Schedule)
    requires IsRun(run, sched) && Next(run[|run| - 1], s, t) && |s.threads| == |run[0].threads|
    ensures run' == run + [s] && IsRun(run', sched')
  {
    run', sched' := run + [s], sched + [t];
    forall i: nat | i < |sched'| ensures StepAt(run', sched', i) {
      if i < |sched| { assert StepAt(run, sched, i); }
    }
  }

  lemma Move(run: seq<State>, sched: Schedule, t: nat) returns (run': seq<State>, sched': Schedule)
    requires IsRun(run, sched)
    requires var s := run[|run| - 1]; Shaped(s.mem) && t < |s.threads| && !s.threads[t].pc.Idle? && PcOk(s.mem, s.threads[t].pc)
    ensures IsRun(run', sched') && |run'| > 1 && run'[|run'| - 1] == Moved(run[|run| - 1], t) && run'[|run'| - 2] == run[|run| - 1]
  {
    var s := run[|run| - 1];
    assert Moves(s, Moved(s, t), t);
    run', sched' := Extend(run, sched, Moved(s, t), t);
  }

  function Inserts(h: nat): Op {
    Insert(HashWord(h, false), ValueWord(Live(h), false))
  }

  /** Four threads, which insert the hashes 1, 2, 3 and 4. */
  function Four(a: Pc, b: Pc, c: Pc, d: Pc): seq<Thread> {
    [Thread(Inserts(1), a), Thread(Inserts(2), b), Thread(Inserts(3), c), Thread(Inserts(4), d)]
  }

  function Table(a: Slot, b: Slot, c: Slot, d: Slot, n: nat): Generation {
    Generation([a, b, c, d], n, false)
  }

  const VIRGIN := Slot(0, Void)

  lemma Beginning() returns (run: seq<State>, sched: Schedule)
    ensures IsRun(run, sched)
    ensures run[|run| - 1] == State(Memory([Table(VIRGIN, VIRGIN, VIRGIN, VIRGIN, 0)], 0),
                                    Four(ReadStorage, ReadStorage, ReadStorage, ReadStorage))
  {
    var m := Memory([Table(VIRGIN, VIRGIN, VIRGIN, VIRGIN, 0)], 0);
    assert Fresh(0) == Table(VIRGIN, VIRGIN, VIRGIN, VIRGIN, 0);
    run, sched := [State(m, Four(Idle, Idle, Idle, Idle))], [];
    assert m == Memory([Fresh(0)], 0);
    var a, b := State(m, Four(ReadStorage, Idle, Idle, Idle)), State(m, Four(ReadStorage, ReadStorage, Idle, Idle));
    var c, d := State(m, Four(ReadStorage, ReadStorage, ReadStorage, Idle)), State(m, Four(ReadStorage, ReadStorage, ReadStorage, ReadStorage));
    assert Begins(run[0], a, 0, Inserts(1)) && Begins(a, b, 1, Inserts(2)) && Begins(b, c, 2, Inserts(3)) && Begins(c, d, 3, Inserts(4));
    run, sched := Extend(run, sched, a, 0);
    run, sched := Extend(run, sched, b, 1);
    run, sched := Extend(run, sched, c, 2);
    run, sched := Extend(run, sched, d, 3);
  }

  /** The insert of 4 gets as far as having seen slot 0 unclaimed. */
  lemma LateWriterWaits() returns (run: seq<State>, sched: Schedule)
    ensures IsRun(run, sched)
    ensures run[|run| - 1] == State(Memory([Table(VIRGIN, VIRGIN, VIRGIN, VIRGIN, 0)], 0),
                                    Four(ReadStorage, ReadStorage, ReadStorage, ClaimCas(0, 0)))
  {
    run, sched := Beginning();
    run, sched := Move(run, sched, 3);
    run, sched := Move(run, sched, 3);
    run, sched := Move(run, sched, 3);
  }

  lemma FirstClaims() returns (run: seq<State>, sched: Schedule)
    ensures IsRun(run, sched)
    ensures run[|run| - 1] == State(Memory([Table(VIRGIN, Slot(1, Void), VIRGIN, VIRGIN, 1)], 0),
                                    Four(Fill(0, 0), ReadStorage, ReadStorage, ClaimCas(0, 0)))
  {
    run, sched := LateWriterWaits();
    run, sched := Move(run, sched, 0);
    run, sched := Move(run, sched, 0);
    run, sched := Move(run, sched, 0);
    run, sched := Move(run, sched, 0);
    assert run[|run| - 1].mem.gens[0].slots == [VIRGIN, Slot(1, Void), VIRGIN, VIRGIN];
    run, sched := Move(run, sched, 0);
    assert run[|run| - 1].mem.gens == [Table(VIRGIN, Slot(1, Void), VIRGIN, VIRGIN, 1)];
  }

  lemma SecondClaims() returns (run: seq<State>, sched: Schedule)
    ensures IsRun(run, sched)
    ensures run[|run| - 1] == State(Memory([Table(VIRGIN, Slot(1, Void), Slot(2, Void), VIRGIN, 2)], 0),
                                    Four(Fill(0, 0), Fill(0, 0), ReadStorage, ClaimCas(0, 0)))
  {
    run, sched := FirstClaims();
    run, sched := Move(run, sched, 1);
    run, sched := Move(run, sched, 1);
    run, sched := Move(run, sched, 1);
    run, sched := Move(run, sched, 1);
    assert run[|run| - 1].mem.gens[0].slots == [VIRGIN, Slot(1, Void), Slot(2, Void), VIRGIN];
    run, sched := Move(run, sched, 1);
    assert run[|run| - 1].mem.gens == [Table(VIRGIN, Slot(1, Void), Slot(2, Void), VIRGIN, 2)];
  }

  /** The third insert finds the storage half full, and migrates. */
  lemma ThirdMigrates() returns (run: seq<State>, sched: Schedule)
    ensures IsRun(run, sched)
    ensures run[|run| - 1] == State(Memory([Table(VIRGIN, Slot(1, Void), Slot(2, Void), VIRGIN, 2), Fresh(8)], 0),
                                    Four(Fill(0, 0), Fill(0, 0), FreezeVirgin(Job(0, 1, 0)), ClaimCas(0, 0)))
  {
    run, sched := SecondClaims();
    run, sched := Move(run, sched, 2);
    run, sched := Move(run, sched, 2);
    run, sched := Move(run, sched, 2);
    run, sched := Move(run, sched, 2);
    run, sched := Move(run, sched, 2);
  }

  /** A run whose last state but one has a slot without a hash that is redirected, and whose last step claims it. */
  lemma FrozenVirginIsReachable() returns (run: seq<State>, sched: Schedule)
    ensures IsRun(run, sched) && |run| >= 2
    ensures HasSlot(run[|run| - 2], 0, 0) && SlotOf(run[|run| - 2], 0, 0) == Slot(0, Redirect)
    ensures HasSlot(run[|run| - 1], 0, 0) && SlotOf(run[|run| - 1], 0, 0) == Slot(4, Redirect)
  {
    run, sched := ThirdMigrates();
    run, sched := Move(run, sched, 2);
    run, sched := Move(run, sched, 3);
  }

  // -------------------------------------------------------------- when a slot is such a slot

  /** The step from state `i` freezes the virgin slot `j` of storage `g`. */
  predicate FreezesVirgin(run: seq<State>, sched: Schedule, g: nat, j: nat, i: nat) {
    && i < |sched| && i < |run| && sched[i] < |run[i].threads| && HasSlot(run[i], g, j)
    && run[i].threads[sched[i]].pc.FreezeVirgin?
    && run[i].threads[sched[i]].pc.job.g == g && run[i].threads[sched[i]].pc.job.j == j
    && SlotOf(run[i], g, j).word == Void
  }

  /**
   In every state of every run: a slot without a hash whose value word is not empty is
   redirected, and its storage has a successor. Unless the storage is just being migrated,
   it is so exactly if the storage has been left.
   */
  lemma FrozenVirgins(run: seq<State>, sched: Schedule, k: nat, g: nat, j: nat)
    requires IsRun(run, sched) && k < |run| && HasSlot(run[k], g, j) && SlotOf(run[k], g, j).hash == 0
    ensures var m, word := run[k].mem, SlotOf(run[k], g, j).word;
            && (word != Void ==> word == Redirect && g + 1 < |m.gens|)
            && (!m.gens[g].constant && !(g == m.cur && HasPending(m)) ==> (word != Void <==> g < m.cur))
            && (m.gens[g].constant ==> word == Void)
  {
    RunsAreOk(run, sched, k);
    var m := run[k].mem;
    assert GenOk(m.gens[g]);
    assert g < m.cur ==> AllFrozen(m.gens[g]);
  }

  lemma CallsFreezeNothing(m: Memory, op: Op, pc: Pc, a: map<nat, Value>, g: nat, j: nat)
    requires Shaped(m) && PcOk(m, pc) && InCall(pc) && LocalInv(m, op, pc, a)
    requires g < |m.gens| && j < |m.gens[g].slots| && m.gens[g].slots[j].word == Void
    requires var m' := CallStep(m, op, pc).0; g < |m'.gens| && j < |m'.gens[g].slots| && m'.gens[g].slots[j].hash == 0
    ensures CallStep(m, op, pc).0.gens[g].slots[j].word == Void
  {
  }

  lemma CopyFreezes(m: Memory, pc: Pc, g: nat, j: nat)
    requires Shaped(m) && PcOk(m, pc) && !pc.ReadStorage? && MigrationInv(m, pc)
    requires g < |m.gens| && j < |m.gens[g].slots| && m.gens[g].slots[j].word == Void
    requires var m' := MigrateStep(m, pc).0; g < |m'.gens| && j < |m'.gens[g].slots| && m'.gens[g].slots[j].hash == 0
    ensures MigrateStep(m, pc).0.gens[g].slots[j].word != Void <==> pc.FreezeVirgin? && pc.job.g == g && pc.job.j == j
  {
  }

  lemma WhoFreezes(m: Memory, op: Op, pc: Pc, a: map<nat, Value>, g: nat, j: nat)
    requires Shaped(m) && PcOk(m, pc) && !pc.Idle? && !pc.Done? && LocalInv(m, op, pc, a)
    requires g < |m.gens| && j < |m.gens[g].slots| && m.gens[g].slots[j].word == Void
    requires var m' := Step(m, op, pc).0; g < |m'.gens| && j < |m'.gens[g].slots| && m'.gens[g].slots[j].hash == 0
    ensures Step(m, op, pc).0.gens[g].slots[j].word != Void <==> pc.FreezeVirgin? && pc.job.g == g && pc.job.j == j
  {
    if InCall(pc) { CallsFreezeNothing(m, op, pc, a, g, j); } else { CopyFreezes(m, pc, g, j); }
  }

  lemma VirginStep(run: seq<State>, sched: Schedule, k: nat, g: nat, j: nat)
    requires IsRun(run, sched) && k < |sched| && HasSlot(run[k], g, j)
    ensures HasSlot(run[k + 1], g, j)
    ensures SlotOf(run[k + 1], g, j).hash == 0 ==> SlotOf(run[k], g, j).hash == 0
    ensures SlotOf(run[k + 1], g, j).hash == 0 ==>
              (SlotOf(run[k + 1], g, j).word != Void <==> SlotOf(run[k], g, j).word != Void || FreezesVirgin(run, sched, g, j, k))
  {
    RunsAreOk(run, sched, k);
    OneMoreStep(run, sched, k);
    var s, s', t := run[k], run[k + 1], sched[k];
    assert GenLater(s.mem.gens[g], s'.mem.gens[g]);
    assert SlotLater(s.mem.gens[g].slots[j], s'.mem.gens[g].slots[j]);
    assert StepAt(run, sched, k);
    StepKinds(s, s', t);
    assert ThreadOk(run, t, k);
    var th := s.threads[t];
    if Moves(s, s', t) && !th.pc.Done? && SlotOf(s, g, j).word == Void && SlotOf(s', g, j).hash == 0 {
      WhoFreezes(s.mem, th.op, th.pc, Map(run[CallStart(run, t, k)]), g, j);
    }
  }

  lemma {:induction false} StoragesOnlyGrow(run: seq<State>, sched: Schedule, i: nat, k: nat)
    requires IsRun(run, sched) && i <= k < |run|
    ensures |run[i].mem.gens| <= |run[k].mem.gens|
    decreases k
  {
    if i < k {
      StoragesOnlyGrow(run, sched, i, k - 1);
      RunsAreOk(run, sched, k - 1);
      OneMoreStep(run, sched, k - 1);
    }
  }

  lemma NewStorageIsVirgin(run: seq<State>, sched: Schedule, k: nat, g: nat, j: nat)
    requires IsRun(run, sched) && k < |sched| && HasSlot(run[k + 1], g, j) && g >= |run[k].mem.gens|
    ensures SlotOf(run[k + 1], g, j) == VIRGIN
  {
    RunsAreOk(run, sched, k);
    assert StepAt(run, sched, k);
    StepKinds(run[k], run[k + 1], sched[k]);
  }

  /** Exactly: a slot without a hash is redirected if and only if copy has frozen it. */
  lemma {:induction false} FrozenByCopyOnly(run: seq<State>, sched: Schedule, k: nat, g: nat, j: nat)
    requires IsRun(run, sched) && k < |run| && HasSlot(run[k], g, j) && SlotOf(run[k], g, j).hash == 0
    ensures SlotOf(run[k], g, j).word != Void <==> exists i: nat :: i < k && FreezesVirgin(run, sched, g, j, i)
    decreases k
  {
    if k == 0 {
      RunsAreOk(run, sched, 0);
    } else {
      var p := k - 1;
      if g < |run[p].mem.gens| {
        RunsAreOk(run, sched, p);
        OneMoreStep(run, sched, p);
        assert GenLater(run[p].mem.gens[g], run[k].mem.gens[g]);
        VirginStep(run, sched, p, g, j);
        FrozenByCopyOnly(run, sched, p, g, j);
      } else {
        NewStorageIsVirgin(run, sched, p, g, j);
        forall i: nat | i < k ensures !FreezesVirgin(run, sched, g, j, i) {
          StoragesOnlyGrow(run, sched, i, p);
        }
      }
    }
  }

  // --------------------------------------------------------------------- nothing is lost

  /** A redirected slot stays redirected: no value is ever stored in it. */
  lemma {:induction false} RedirectedForever(run: seq<State>, sched: Schedule, k: nat, l: nat, g: nat, j: nat)
    requires IsRun(run, sched) && k <= l < |run| && HasSlot(run[k], g, j) && SlotOf(run[k], g, j).word == Redirect
    ensures HasSlot(run[l], g, j) && SlotOf(run[l], g, j).word == Redirect
    decreases l
  {
    if k < l {
      var p := l - 1;
      RedirectedForever(run, sched, k, p, g, j);
      RunsAreOk(run, sched, p);
      OneMoreStep(run, sched, p);
      assert GenLater(run[p].mem.gens[g], run[l].mem.gens[g]);
      assert SlotLater(run[p].mem.gens[g].slots[j], run[l].mem.gens[g].slots[j]);
    }
  }

  /** A late claim of a frozen virgin leaves the map as it is, and the slot redirected forever. */
  lemma LateClaimIsHarmless(run: seq<State>, sched: Schedule, k: nat, l: nat)
    requires IsRun(run, sched) && k < l < |run| && sched[k] < |run[k].threads| && run[k].threads[sched[k]].pc.ClaimCas?
    requires var th := run[k].threads[sched[k]];
             && th.pc.g < |run[k].mem.gens| && |run[k].mem.gens[th.pc.g].slots| > 0
             && SlotOf(run[k], th.pc.g, Probe(Hash(th.op), th.pc.i, |run[k].mem.gens[th.pc.g].slots|)) == Slot(0, Redirect)
    ensures var th := run[k].threads[sched[k]];
            var j := Probe(Hash(th.op), th.pc.i, |run[k].mem.gens[th.pc.g].slots|);
            && SlotOf(run[k + 1], th.pc.g, j) == Slot(Hash(th.op), Redirect)
            && Map(run[k + 1]) == Map(run[k])
            && SlotOf(run[l], th.pc.g, j).word == Redirect
  {
    var s, s', t := run[k], run[k + 1], sched[k];
    var th := s.threads[t];
    RunsAreOk(run, sched, k);
    assert StepAt(run, sched, k);
    StepKinds(s, s', t);
    MoverOk(run, sched, k);
    SameMap(s.mem, s'.mem);
    RedirectedForever(run, sched, k, l, th.pc.g, Probe(Hash(th.op), th.pc.i, |s.mem.gens[th.pc.g].slots|));
  }
}
