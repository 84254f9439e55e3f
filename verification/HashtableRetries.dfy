/**
 The retries of a call on the hashtable: each is on a strictly newer storage, so that their
 number is bounded by how often the storage is replaced during the call.
 */
module HashtableRetries {
  import opened HashtableModel
  import opened MapSpec
  import opened HashtableRuns
  import opened Retries

  function PhaseOf(pc: Pc): Phase {
    match pc
    case Idle => Out
    case Done(_) => Out
    case ReadStorage => Reading
    case LookProbe(g, _) => Working(g)
    case LookValue(g, _) => Working(g)
    case ReadCount(g) => Working(g)
    case ClaimRead(g, _) => Working(g)
    case ClaimCas(g, _) => Working(g)
    case ClaimIncrement(g, _) => Working(g)
    case ValueRead(g, _) => Working(g)
    case ValueCas(g, _, _) => Working(g)
    case RemoveProbe(g, _) => Working(g)
    case RemoveCas(g, _) => Working(g)
    case NextRead(g, _) => Working(g)
    case NextCas(g, _) => Working(g)
    case FreezeRead(g, _) => Working(g)
    case FreezeCas(g, _, _) => Working(g)
    case SealRead(g, _, _) => Working(g)
    case SealCas(g, _, _, _) => Working(g)
    case CarryRead(g, _, _, _, _, _) => Working(g)
    case CarryCas(g, _, _, _, _, _) => Working(g)
    case CarryIncrement(g, _, _, _, _, _) => Working(g)
    case CarryInstall(g, _, _, _, _, _) => Working(g)
    case CarryNext(g, _, _, _, _) => Working(g)
    case Swap(g) => Working(g)
  }

  function CurOf(s: State): nat {
    s.mem.cur
  }

  function PhaseAt(s: State, t: nat): Phase {
    if t < |s.threads| then PhaseOf(s.threads[t].pc) else Out
  }

  ghost function Curs(run: seq<State>): (curs: seq<nat>)
    ensures |curs| == |run| && forall i :: 0 <= i < |run| ==> curs[i] == CurOf(run[i])
  {
    seq(|run|, i requires 0 <= i < |run| => CurOf(run[i]))
  }

  ghost function Phases(run: seq<State>, t: nat): (phases: seq<Phase>)
    ensures |phases| == |run| && forall i :: 0 <= i < |run| ==> phases[i] == PhaseAt(run[i], t)
  {
    seq(|run|, i requires 0 <= i < |run| => PhaseAt(run[i], t))
  }

  predicate IsCarrying(pc: Pc) {
    pc.CarryRead? || pc.CarryCas? || pc.CarryIncrement? || pc.CarryInstall? || pc.CarryNext?
  }

  lemma CarryGoes(m: Memory, op: Op, pc: Pc)
    requires Shaped(m) && PcOk(m, pc) && IsCarrying(pc)
    ensures Goes(m.cur, PhaseOf(pc), Step(m, op, pc).0.cur, PhaseOf(Step(m, op, pc).1))
  {
  }

  lemma OtherGoes(m: Memory, op: Op, pc: Pc)
    requires Shaped(m) && PcOk(m, pc) && !pc.Idle? && !IsCarrying(pc) && (PhaseOf(pc).Working? ==> PhaseOf(pc).g <= m.cur)
    ensures Goes(m.cur, PhaseOf(pc), Step(m, op, pc).0.cur, PhaseOf(Step(m, op, pc).1))
  {
  }

  /** A call starts over only after its storage has been left. */
  lemma MoveGoes(m: Memory, op: Op, pc: Pc)
    requires Shaped(m) && PcOk(m, pc) && !pc.Idle? && (PhaseOf(pc).Working? ==> PhaseOf(pc).g <= m.cur)
    ensures Goes(m.cur, PhaseOf(pc), Step(m, op, pc).0.cur, PhaseOf(Step(m, op, pc).1))
  {
    if IsCarrying(pc) { CarryGoes(m, op, pc); } else { OtherGoes(m, op, pc); }
  }

  lemma StepGoes(run: seq<State>, sched: seq<nat>, t: nat, k: nat)
    requires IsRun(run, sched) && k < |sched|
    ensures Goes(CurOf(run[k]), PhaseAt(run[k], t), CurOf(run[k + 1]), PhaseAt(run[k + 1], t))
  {
    var s, s', u := run[k], run[k + 1], sched[k];
    RunsAreOk(run, sched, k);
    assert StepAt(run, sched, k);
    StepEvolves(run, sched, k);
    if u == t && Moves(s, s', t) {
      assert ThreadOk(run, t, k);
      if PhaseAt(s, t).Working? { WorksOnOld(run, sched, t, k); }
      MoveGoes(s.mem, s.threads[t].op, s.threads[t].pc);
    }
  }


  /** From state `b` to state `k` thread `t` is in one call. */
  ghost predicate InOneCall(run: seq<State>, t: nat, b: nat, k: nat) {
    b <= k < |run| && forall i: nat :: b <= i <= k ==> InCallAt(Phases(run, t), i)
  }

  lemma CallIsAttempts(run: seq<State>, sched: seq<nat>, t: nat, b: nat, k: nat)
    requires IsRun(run, sched) && InOneCall(run, t, b, k)
    ensures IsAttempts(Curs(run), Phases(run, t), b, k)
  {
    forall i: nat | b <= i < k ensures GoesAt(Curs(run), Phases(run, t), i) {
      StepGoes(run, sched, t, i);
    }
  }

  /** A call that reads the current storage in state `i` and again in state `k` reads a strictly newer one. */
  lemma RetriesAreNewer(run: seq<State>, sched: seq<nat>, t: nat, i: nat, k: nat)
    requires IsRun(run, sched) && InOneCall(run, t, i, k) && i < k && k + 1 < |run|
    requires ReadsCurrentAt(Phases(run, t), i) && ReadsCurrentAt(Phases(run, t), k)
    ensures run[k].mem.cur > run[i].mem.cur
  {
    CallIsAttempts(run, sched, t, i, k);
    RetryIsNewer(Curs(run), Phases(run, t), i, k);
  }

  /** A call tries at most once more than the storage is replaced while it runs. */
  lemma AttemptsAreBounded(run: seq<State>, sched: seq<nat>, t: nat, b: nat, k: nat)
    requires IsRun(run, sched) && InOneCall(run, t, b, k) && PhaseAt(run[b], t).Reading?
    ensures ReadsOf(Phases(run, t), b, k) <= run[k].mem.cur - run[b].mem.cur + 1
  {
    CallIsAttempts(run, sched, t, b, k);
    ReadsAreBounded(Curs(run), Phases(run, t), b, k);
    assert InCallAt(Phases(run, t), k);
    if PhaseAt(run[k], t).Working? { WorksOnOld(run, sched, t, k); }
  }

  lemma WorksOnOld(run: seq<State>, sched: seq<nat>, t: nat, k: nat)
    requires IsRun(run, sched) && k < |run| && PhaseAt(run[k], t).Working?
    ensures PhaseAt(run[k], t).g <= run[k].mem.cur
  {
    RunsAreOk(run, sched, k);
    assert ThreadOk(run, t, k);
  }
}
