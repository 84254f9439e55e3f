/**
 What a caller of the hashtable gets for what it asked: from the arguments that a call
 begins with to the answer that it ends with.
 */
module HashtableRequests {
  import opened Options
  import opened MapSpec
  import opened HashtableModel
  import opened HashtableSteps
  import opened HashtableRuns
  import opened HashtableRetries
  import opened HashtableLinearizability
  import opened Histories

  /** The call that thread `t` begins with the step from state b has its answer in state c, and not before. */
  ghost predicate Serves(run: seq<State>, t: nat, b: nat, c: nat)
    requires forall i :: 0 <= i < |run| ==> t < |run[i].threads|
  {
    && b < c < |run| && run[c].threads[t].pc.Done?
    && forall i :: b < i < c ==> !run[i].threads[t].pc.Idle? && !run[i].threads[t].pc.Done?
  }

  /** A request, the call that it begins, and the state in which the call has its answer. */
  ghost predicate Requested(run: seq<State>, sched: Schedule, t: nat, op: Op, b: nat, c: nat) {
    && IsRun(run, sched) && t < |run[0].threads|
    && Serves(run, t, b, c) && Begins(run[b], run[b + 1], t, op)
  }

  /** A call keeps its operation. */
  lemma OpStays(run: seq<State>, sched: Schedule, t: nat, k: nat)
    requires IsRun(run, sched) && k < |sched| && t < |run[0].threads| && !run[k].threads[t].pc.Idle?
    ensures run[k + 1].threads[t].op == run[k].threads[t].op
    ensures sched[k] != t ==> run[k + 1].threads[t] == run[k].threads[t]
  {
    assert StepAt(run, sched, k);
  }

  lemma {:induction false} OpIsKept(run: seq<State>, sched: Schedule, t: nat, op: Op, b: nat, c: nat, k: nat)
    requires Requested(run, sched, t, op, b, c) && b < k <= c
    ensures run[k].threads[t].op == op && CallStart(run, t, k) == b + 1
    decreases k
  {
    if k > b + 1 {
      OpIsKept(run, sched, t, op, b, c, k - 1);
      OpStays(run, sched, t, k - 1);
    }
  }

  /** The answer comes with a step of the thread itself. */
  lemma EndsItself(run: seq<State>, sched: Schedule, t: nat, op: Op, b: nat, c: nat)
    requires Requested(run, sched, t, op, b, c)
    ensures sched[c - 1] == t
  {
    assert StepAt(run, sched, c - 1);
  }

  /**
   The history records the request: the call is in it with the operation that the caller
   asked for, from the state after the request on. So what linearizability says of the
   recorded operation it says of the requested one.
   */
  lemma RecordsTheRequest(run: seq<State>, sched: Schedule, t: nat, op: Op, b: nat, c: nat)
    requires Requested(run, sched, t, op, b, c)
    ensures HistoryOf(run, sched)[c] == Some(Call(op, run[c].threads[t].pc.result, b + 1))
  {
    EndsItself(run, sched, t, op, b, c);
    OpIsKept(run, sched, t, op, b, c, c);
  }

  /** A legal call does not end with the step that begins it, and never with a refusal. */
  lemma LegalIsServed(run: seq<State>, sched: Schedule, t: nat, op: Op, b: nat, c: nat)
    requires Requested(run, sched, t, op, b, c) && Legal(op)
    ensures run[c].threads[t].pc.result != Invalid
  {
    RecordsTheRequest(run, sched, t, op, b, c);
    EveryCallLinearizes(run, sched, c);
    var call := CallEnding(run, sched, c).value;
    if Atomic(op, Map(run[c - 1])) != (Map(run[c]), call.result) {
      var j: nat :| AnsweredAt(Atomic, MapsOf(run), call, c, j);
    }
  }

  lemma IllegalIsRefused(run: seq<State>, sched: Schedule, t: nat, op: Op, b: nat, c: nat)
    requires Requested(run, sched, t, op, b, c) && !Legal(op)
    ensures c == b + 1 && run[c].threads[t].pc == Done(Refusal(op)) && run[c].mem == run[b].mem
  {
  }

  /**
   insert, register and remove answer EINVAL exactly if the hash is 0 or has the frozen
   bit, or the value is "never set", "removed" or has the sealed bit.
   */
  lemma RefusesExactly(run: seq<State>, sched: Schedule, t: nat, op: Op, b: nat, c: nat)
    requires Requested(run, sched, t, op, b, c) && (op.Insert? || op.Register? || op.Remove?)
    ensures run[c].threads[t].pc.result == Invalid <==>
              op.key.hash == 0 || op.key.frozen || !op.val.payload.Live? || op.val.sealed
    ensures run[c].threads[t].pc.result == Invalid ==> c == b + 1 && Map(run[c]) == Map(run[b])
  {
    if op.key.hash == 0 || op.key.frozen || !op.val.payload.Live? || op.val.sealed {
      IllegalIsRefused(run, sched, t, op, b, c);
    } else {
      LegalIsServed(run, sched, t, op, b, c);
    }
  }

  lemma LookupIsFound(run: seq<State>, sched: Schedule, key: HashWord, c: nat, j: nat)
    requires IsRun(run, sched) && c < |run| && CallEnding(run, sched, c).Some?
    requires key.hash != 0 && !key.frozen && CallEnding(run, sched, c).value.op == Lookup(key)
    requires AnsweredAt(Atomic, MapsOf(run), CallEnding(run, sched, c).value, c, j)
    ensures CallEnding(run, sched, c).value.result == Found(if key.hash in Map(run[j]) then Some(Map(run[j])[key.hash]) else None)
  {
  }

  /** The step from state k changes the map as the call says that it ends. */
  lemma ChangeIsPerformed(run: seq<State>, sched: Schedule, k: nat)
    requires IsRun(run, sched) && k < |sched| && Map(run[k + 1]) != Map(run[k])
    ensures CallEnding(run, sched, k + 1).Some?
    ensures var call := CallEnding(run, sched, k + 1).value; Changed(call.op, Map(run[k]), Map(run[k + 1]), call.result)
  {
    OnlyCallsChangeTheMap(run, sched, k);
    var call := CallEnding(run, sched, k + 1).value;
    AtomicChanges(call.op, Map(run[k]), Map(run[k + 1]), call.result);
  }

  lemma LookupIsSilent(run: seq<State>, sched: Schedule, k: nat)
    requires IsRun(run, sched) && k < |sched| && CallEnding(run, sched, k + 1).Some? && CallEnding(run, sched, k + 1).value.op.Lookup?
    ensures Map(run[k + 1]) == Map(run[k])
  {
    if Map(run[k + 1]) != Map(run[k]) { ChangeIsPerformed(run, sched, k); }
  }

  /** A lookup of no hash finds nothing, at once; any other finds what the map binds at an instant of the call. */
  lemma LooksUpTheRequest(run: seq<State>, sched: Schedule, t: nat, key: HashWord, b: nat, c: nat) returns (j: nat)
    requires Requested(run, sched, t, Lookup(key), b, c)
    ensures Map(run[c]) == Map(run[c - 1])
    ensures key.hash == 0 || key.frozen ==> c == b + 1 && run[c].threads[t].pc.result == Found(None)
    ensures key.hash != 0 && !key.frozen ==>
              b < j <= c && run[c].threads[t].pc.result == Found(if key.hash in Map(run[j]) then Some(Map(run[j])[key.hash]) else None)
  {
    var op := Lookup(key);
    j := c;
    RecordsTheRequest(run, sched, t, op, b, c);
    LookupIsSilent(run, sched, c - 1);
    if key.hash == 0 || key.frozen {
      IllegalIsRefused(run, sched, t, op, b, c);
    } else {
      j := InstantOf(run, sched, c);
      LookupIsFound(run, sched, key, c, j);
    }
  }

  /** The map changes only with the answer to a legal insert, register or remove of the hash that was asked for. */
  lemma ChangesAsRequested(run: seq<State>, sched: Schedule, t: nat, op: Op, b: nat, k: nat)
    requires Requested(run, sched, t, op, b, k + 1) && Map(run[k + 1]) != Map(run[k])
    ensures Changed(op, Map(run[k]), Map(run[k + 1]), run[k + 1].threads[t].pc.result)
  {
    RecordsTheRequest(run, sched, t, op, b, k + 1);
    ChangeIsPerformed(run, sched, k);
  }

  /** A call that reports success has changed the map with its last step. */
  lemma SuccessChanges(run: seq<State>, sched: Schedule, t: nat, op: Op, b: nat, c: nat)
    requires Requested(run, sched, t, op, b, c)
    requires ((op.Insert? || op.Remove?) && run[c].threads[t].pc.result == Ok)
             || (op.Register? && run[c].threads[t].pc.result == Registered(None))
    ensures Map(run[c]) != Map(run[c - 1])
  {
    RecordsTheRequest(run, sched, t, op, b, c);
    if Map(run[c]) == Map(run[c - 1]) {
      var j := InstantOf(run, sched, c);
    }
  }

  // ------------------------------------------------------------ migration on request

  /** The migration is still to read the current storage, or works on one that was not yet left at the request. */
  predicate Migrating(s: State, t: nat, cur: nat)
    requires t < |s.threads|
  {
    match PhaseOf(s.threads[t].pc)
    case Reading => cur <= s.mem.cur
    case Working(g) => cur <= g
    case Out => cur < s.mem.cur
  }

  lemma OnlySwapEnds(m: Memory, op: Op, pc: Pc, seen: set<Option<Value>>)
    requires Shaped(m) && PcOk(m, pc) && LocalInv(m, op, pc, seen) && op.MigrateSameSize? && !pc.Idle? && !pc.Done?
    ensures Step(m, op, pc).1.Done? ==> pc.Swap? && Step(m, op, pc).0.cur > pc.g
  {
  }

  lemma MigrationSteps(m: Memory, op: Op, pc: Pc, seen: set<Option<Value>>, cur: nat)
    requires Shaped(m) && PcOk(m, pc) && LocalInv(m, op, pc, seen) && op.MigrateSameSize? && !pc.Idle? && !pc.Done?
    requires (PhaseOf(pc).Reading? ==> cur <= m.cur) && (PhaseOf(pc).Working? ==> cur <= PhaseOf(pc).g <= m.cur)
    ensures var m', phase := Step(m, op, pc).0, PhaseOf(Step(m, op, pc).1);
            (phase.Reading? ==> cur <= m'.cur) && (phase.Working? ==> cur <= phase.g) && (phase.Out? ==> cur < m'.cur)
  {
    MoveGoes(m, op, pc);
    OnlySwapEnds(m, op, pc, seen);
  }

  lemma WorksOnOld(m: Memory, op: Op, pc: Pc, seen: set<Option<Value>>)
    requires Shaped(m) && LocalInv(m, op, pc, seen)
    ensures PhaseOf(pc).Working? ==> PhaseOf(pc).g <= m.cur
  {
  }

  lemma MigrationMoves(run: seq<State>, sched: Schedule, t: nat, k: nat, cur: nat)
    requires IsRun(run, sched) && k < |sched| && t < |run[0].threads| && Migrating(run[k], t, cur)
    requires var th := run[k].threads[t]; th.op.MigrateSameSize? && !th.pc.Idle? && !th.pc.Done?
    ensures Migrating(run[k + 1], t, cur)
  {
    var s, s', th := run[k], run[k + 1], run[k].threads[t];
    assert StepAt(run, sched, k);
    if sched[k] == t {
      RunsAreOk(run, sched, k);
      assert ThreadOk(run, t, k);
      var seen := Seen(run, CallStart(run, t, k), k, Hash(th.op));
      WorksOnOld(s.mem, th.op, th.pc, seen);
      MigrationSteps(s.mem, th.op, th.pc, seen, cur);
    } else {
      StepEvolves(run, sched, k);
    }
  }

  lemma {:induction false} MigratingAlong(run: seq<State>, sched: Schedule, t: nat, b: nat, c: nat, k: nat)
    requires Requested(run, sched, t, MigrateSameSize, b, c) && b < k <= c
    ensures Migrating(run[k], t, run[b].mem.cur)
    decreases k
  {
    if k > b + 1 {
      MigratingAlong(run, sched, t, b, c, k - 1);
      OpIsKept(run, sched, t, MigrateSameSize, b, c, k - 1);
      MigrationMoves(run, sched, t, k - 1, run[b].mem.cur);
    }
  }

  /** A migration on request has replaced the storage that was current at the request. */
  lemma MigrationReplaces(run: seq<State>, sched: Schedule, t: nat, b: nat, c: nat)
    requires Requested(run, sched, t, MigrateSameSize, b, c)
    ensures run[c].mem.cur > run[b].mem.cur && run[c].threads[t].pc.result == Ok
  {
    MigratingAlong(run, sched, t, b, c, c);
    RecordsTheRequest(run, sched, t, MigrateSameSize, b, c);
    EveryCallLinearizes(run, sched, c);
  }
}
