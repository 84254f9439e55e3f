/**
 The retries of a call on the pointer array: each is on a strictly newer storage, so that their
 number is bounded by how often the storage is replaced during the call.
 */
module PointerarrayRetries {
  import opened PointerarrayModel
  import opened PointerarrayProof
  import opened PointerarrayRuns
  import opened Retries

  function PhaseOf(pc: Pc): Phase {
    match pc
    case Idle => Out
    case Done(_, _) => Out
    case ReadStorage(_) => Reading
    case AddIndex(_, p) => Working(p)
    case AddSlot(_, p, _) => Working(p)
    case PubIndex(d, then_) => Working(Source(d, then_))
    case PubSlot(d, _, then_) => Working(Source(d, then_))
    case PubCas(d, _, then_) => Working(Source(d, then_))
    case GetCount(_, p) => Working(p)
    case GetSlot(_, p) => Working(p)
    case MigrateCheck(_, p) => Working(p)
    case MigrateNext(_, p) => Working(p)
    case MigrateAlloc(_, p) => Working(p)
    case CopySlot(job, _, _) => Working(job.p)
    case CopyFreeze(job, _, _) => Working(job.p)
    case PutCas(job, _, _, _) => Working(job.p)
    case PutNext(job, _, _, _) => Working(job.p)
    case CopyRetire(job, _, _, _) => Working(job.p)
    case Swap(job) => Working(job.p)
  }

  /** add publishes in its storage; a copier may publish in a later one. */
  function Source(d: nat, then_: Then): nat {
    match then_
    case AddTried(_, _, _) => d
    case PutTried(job, _, _) => job.p
    case CopyEnds(job) => job.p
  }

  function CurOf(s: State): nat {
    s.mem.cur
  }

  function PhaseAt(s: State, t: nat): Phase {
    if t < |s.threads| then PhaseOf(s.threads[t]) else Out
  }

  ghost function Curs(run: seq<State>): (curs: seq<nat>)
    ensures |curs| == |run| && forall i :: 0 <= i < |run| ==> curs[i] == CurOf(run[i])
  {
    seq(|run|, i requires 0 <= i < |run| => CurOf(run[i]))
  }

  ghost function Phases(run: seq<State>, t: nat): (phases: seq<Phase>)
    ensures |phases| == |run| && forall i :: 0 <= i < |run| ==> phases[i] == PhaseAt(run[i], t)
  {
    seq(|run|, i requires 0 <= i < |run| => PhaseAt(run[i], t))
  }

  /** A call starts over only after its storage has been left. */
  lemma MoveGoes(m: Memory, pc: Pc)
    requires |m.gens| > 0 && PcOk(m, pc) && !pc.Idle? && !pc.Done? && (PhaseOf(pc).Working? ==> PhaseOf(pc).g <= m.cur)
    requires pc.Swap? ==> pc.job.q > pc.job.p
    ensures Goes(m.cur, PhaseOf(pc), Step(m, pc).0.cur, PhaseOf(Step(m, pc).1))
  {
  }

  lemma StepGoes(run: seq<State>, sched: seq<nat>, t: nat, k: nat)
    requires IsRun(run, sched) && k < |sched|
    ensures Goes(CurOf(run[k]), PhaseAt(run[k], t), CurOf(run[k + 1]), PhaseAt(run[k + 1], t))
  {
    var s, s', u := run[k], run[k + 1], sched[k];
    RunsAreOk(run, sched, k);
    assert StepAt(run, sched, k);
    NextKeeps(s, s', u);
    if u == t && Moves(s, s', t) {
      assert LocalInv(s.mem, s.threads[t]);
      if PhaseAt(s, t).Working? { WorksOnOld(run, sched, t, k); }
      MoveGoes(s.mem, s.threads[t]);
    }
  }


  /** From state `b` to state `k` thread `t` is in one call. */
  ghost predicate InOneCall(run: seq<State>, t: nat, b: nat, k: nat) {
    b <= k < |run| && forall i: nat :: b <= i <= k ==> InCallAt(Phases(run, t), i)
  }

  lemma CallIsAttempts(run: seq<State>, sched: seq<nat>, t: nat, b: nat, k: nat)
    requires IsRun(run, sched) && InOneCall(run, t, b, k)
    ensures IsAttempts(Curs(run), Phases(run, t), b, k)
  {
    forall i: nat | b <= i < k ensures GoesAt(Curs(run), Phases(run, t), i) {
      StepGoes(run, sched, t, i);
    }
  }

  /** A call that reads the current storage in state `i` and again in state `k` reads a strictly newer one. */
  lemma RetriesAreNewer(run: seq<State>, sched: seq<nat>, t: nat, i: nat, k: nat)
    requires IsRun(run, sched) && InOneCall(run, t, i, k) && i < k && k + 1 < |run|
    requires ReadsCurrentAt(Phases(run, t), i) && ReadsCurrentAt(Phases(run, t), k)
    ensures run[k].mem.cur > run[i].mem.cur
  {
    CallIsAttempts(run, sched, t, i, k);
    RetryIsNewer(Curs(run), Phases(run, t), i, k);
  }

  /** A call tries at most once more than the storage is replaced while it runs. */
  lemma AttemptsAreBounded(run: seq<State>, sched: seq<nat>, t: nat, b: nat, k: nat)
    requires IsRun(run, sched) && InOneCall(run, t, b, k) && PhaseAt(run[b], t).Reading?
    ensures ReadsOf(Phases(run, t), b, k) <= run[k].mem.cur - run[b].mem.cur + 1
  {
    CallIsAttempts(run, sched, t, b, k);
    ReadsAreBounded(Curs(run), Phases(run, t), b, k);
    assert InCallAt(Phases(run, t), k);
    if PhaseAt(run[k], t).Working? { WorksOnOld(run, sched, t, k); }
  }

  lemma WorksOnOld(run: seq<State>, sched: seq<nat>, t: nat, k: nat)
    requires IsRun(run, sched) && k < |run| && PhaseAt(run[k], t).Working?
    ensures PhaseAt(run[k], t).g <= run[k].mem.cur
  {
    RunsAreOk(run, sched, k);
    assert LocalInv(run[k].mem, run[k].threads[t]);
  }
}
