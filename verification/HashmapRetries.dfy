/**
 The retries of a call on the hashmap: each is on a strictly newer storage, so that their
 number is bounded by how often the storage is replaced during the call.
 */
module HashmapRetries {
  import opened HashmapModel
  import opened MapSpec
  import opened HashmapRuns
  import opened Retries

  function PhaseOf(pc: Pc): Phase {
    match pc
    case Idle => Out
    case Done(_) => Out
    case ReadStorage => Reading
    case LookProbe(g, _) => Working(g)
    case LookValue(g, _) => Working(g)
    case ReadCount(g) => Working(g)
    case ClaimRead(g, _) => Working(g)
    case ClaimCas(g, _) => Working(g)
    case ClaimIncrement(g, _) => Working(g)
    case Fill(g, _) => Working(g)
    case NextRead(g) => Working(g)
    case NextCas(g) => Working(g)
    case CopyHash(job) => Working(job.g)
    case FreezeVirgin(job) => Working(job.g)
    case CopyRehash(job, _) => Working(job.g)
    case CopyValue(job, _) => Working(job.g)
    case FreezeVoid(job, _) => Working(job.g)
    case PutRead(job, _) => Working(job.g)
    case PutCas(job, _) => Working(job.g)
    case PutIncrement(job, _) => Working(job.g)
    case PutInstall(job, _) => Working(job.g)
    case PutNext(job, _) => Working(job.g)
    case PutBusy(job, _) => Working(job.g)
    case Retire(job, _) => Working(job.g)
    case Swap(job) => Working(job.g)
  }

  function CurOf(s: State): nat {
    s.mem.cur
  }

  function PhaseAt(s: State, t: nat): Phase {
    if t < |s.threads| then PhaseOf(s.threads[t].pc) else Out
  }

  ghost function Curs(run: seq<State>): (curs: seq<nat>)
    ensures |curs| == |run| && forall i :: 0 <= i < |run| ==> curs[i] == CurOf(run[i])
  {
    seq(|run|, i requires 0 <= i < |run| => CurOf(run[i]))
  }

  ghost function Phases(run: seq<State>, t: nat): (phases: seq<Phase>)
    ensures |phases| == |run| && forall i :: 0 <= i < |run| ==> phases[i] == PhaseAt(run[i], t)
  {
    seq(|run|, i requires 0 <= i < |run| => PhaseAt(run[i], t))
  }

  lemma CallGoes(m: Memory, op: Op, pc: Pc)
    requires Shaped(m) && PcOk(m, pc) && InCall(pc)
    ensures Goes(m.cur, PhaseOf(pc), CallStep(m, op, pc).0.cur, PhaseOf(CallStep(m, op, pc).1))
  {
  }

  lemma MigrateGoes(m: Memory, pc: Pc)
    requires Shaped(m) && PcOk(m, pc) && !InCall(pc) && (PhaseOf(pc).Working? ==> PhaseOf(pc).g <= m.cur)
    requires pc.Swap? ==> pc.job.q > pc.job.g
    ensures Goes(m.cur, PhaseOf(pc), MigrateStep(m, pc).0.cur, PhaseOf(MigrateStep(m, pc).1))
  {
  }

  /** A call starts over only after its storage has been left. */
  lemma MoveGoes(m: Memory, op: Op, pc: Pc)
    requires Shaped(m) && PcOk(m, pc) && !pc.Idle? && (PhaseOf(pc).Working? ==> PhaseOf(pc).g <= m.cur)
    requires pc.Swap? ==> pc.job.q > pc.job.g
    ensures Goes(m.cur, PhaseOf(pc), Step(m, op, pc).0.cur, PhaseOf(Step(m, op, pc).1))
  {
    if InCall(pc) { CallGoes(m, op, pc); } else { MigrateGoes(m, pc); }
  }

  lemma StepGoes(run: seq<State>, sched: seq<nat>, t: nat, k: nat)
    requires IsRun(run, sched) && k < |sched|
    ensures Goes(CurOf(run[k]), PhaseAt(run[k], t), CurOf(run[k + 1]), PhaseAt(run[k + 1], t))
  {
    var s, s', u := run[k], run[k + 1], sched[k];
    RunsAreOk(run, sched, k);
    assert StepAt(run, sched, k);
    OneMoreStep(run, sched, k);
    StepKinds(s, s', u);
    if u == t && Moves(s, s', t) {
      assert ThreadOk(run, t, k);
      if PhaseAt(s, t).Working? { WorksOnOld(run, sched, t, k); }
      MoveGoes(s.mem, s.threads[t].op, s.threads[t].pc);
    }
  }


  /** From state `b` to state `k` thread `t` is in one call. */
  ghost predicate InOneCall(run: seq<State>, t: nat, b: nat, k: nat) {
    b <= k < |run| && forall i: nat :: b <= i <= k ==> InCallAt(Phases(run, t), i)
  }

  lemma CallIsAttempts(run: seq<State>, sched: seq<nat>, t: nat, b: nat, k: nat)
    requires IsRun(run, sched) && InOneCall(run, t, b, k)
    ensures IsAttempts(Curs(run), Phases(run, t), b, k)
  {
    forall i: nat | b <= i < k ensures GoesAt(Curs(run), Phases(run, t), i) {
      StepGoes(run, sched, t, i);
    }
  }

  /** A call that reads the current storage in state `i` and again in state `k` reads a strictly newer one. */
  lemma RetriesAreNewer(run: seq<State>, sched: seq<nat>, t: nat, i: nat, k: nat)
    requires IsRun(run, sched) && InOneCall(run, t, i, k) && i < k && k + 1 < |run|
    requires ReadsCurrentAt(Phases(run, t), i) && ReadsCurrentAt(Phases(run, t), k)
    ensures run[k].mem.cur > run[i].mem.cur
  {
    CallIsAttempts(run, sched, t, i, k);
    RetryIsNewer(Curs(run), Phases(run, t), i, k);
  }

  /** A call tries at most once more than the storage is replaced while it runs. */
  lemma AttemptsAreBounded(run: seq<State>, sched: seq<nat>, t: nat, b: nat, k: nat)
    requires IsRun(run, sched) && InOneCall(run, t, b, k) && PhaseAt(run[b], t).Reading?
    ensures ReadsOf(Phases(run, t), b, k) <= run[k].mem.cur - run[b].mem.cur + 1
  {
    CallIsAttempts(run, sched, t, b, k);
    ReadsAreBounded(Curs(run), Phases(run, t), b, k);
    assert InCallAt(Phases(run, t), k);
    if PhaseAt(run[k], t).Working? { WorksOnOld(run, sched, t, k); }
  }

  lemma WorksOnOld(run: seq<State>, sched: seq<nat>, t: nat, k: nat)
    requires IsRun(run, sched) && k < |run| && PhaseAt(run[k], t).Working?
    ensures PhaseAt(run[k], t).g <= run[k].mem.cur
  {
    RunsAreOk(run, sched, k);
    assert ThreadOk(run, t, k);
  }
}
