/**
 What a caller of the hashmap gets for what it asked: from the arguments that a call
 begins with to the answer that it ends with.
 */
module HashmapRequests {
  import opened Options
  import opened MapSpec
  import opened HashmapModel
  import opened HashmapInvariant
  import opened HashmapRuns
  import opened Histories

  /** The call that thread `t` begins with the step from state b has its answer in state c, and not before. */
  ghost predicate Serves(run: seq<State>, t: nat, b: nat, c: nat)
    requires forall i :: 0 <= i < |run| ==> t < |run[i].threads|
  {
    && b < c < |run| && run[c].threads[t].pc.Done?
    && forall i :: b < i < c ==> !run[i].threads[t].pc.Idle? && !run[i].threads[t].pc.Done?
  }

  /** A request, the call that it begins, and the state in which the call has its answer. */
  ghost predicate Requested(run: seq<State>, sched: Schedule, t: nat, op: Op, b: nat, c: nat) {
    && IsRun(run, sched) && t < |run[0].threads|
    && Serves(run, t, b, c) && Begins(run[b], run[b + 1], t, op)
  }

  /** A call keeps its operation. */
  lemma OpStays(run: seq<State>, sched: Schedule, t: nat, k: nat)
    requires IsRun(run, sched) && k < |sched| && t < |run[0].threads| && !run[k].threads[t].pc.Idle?
    ensures run[k + 1].threads[t].op == run[k].threads[t].op
    ensures sched[k] != t ==> run[k + 1].threads[t] == run[k].threads[t]
  {
    assert StepAt(run, sched, k);
  }

  lemma {:induction false} OpIsKept(run: seq<State>, sched: Schedule, t: nat, op: Op, b: nat, c: nat, k: nat)
    requires Requested(run, sched, t, op, b, c) && b < k <= c
    ensures run[k].threads[t].op == op && CallStart(run, t, k) == b + 1
    decreases k
  {
    if k > b + 1 {
      OpIsKept(run, sched, t, op, b, c, k - 1);
      OpStays(run, sched, t, k - 1);
    }
  }

  /** The answer comes with a step of the thread itself. */
  lemma EndsItself(run: seq<State>, sched: Schedule, t: nat, op: Op, b: nat, c: nat)
    requires Requested(run, sched, t, op, b, c)
    ensures sched[c - 1] == t
  {
    assert StepAt(run, sched, c - 1);
  }

  /**
   The history records the request: the call is in it with the operation that the caller
   asked for, from the state after the request on. So what linearizability says of the
   recorded operation it says of the requested one.
   */
  lemma RecordsTheRequest(run: seq<State>, sched: Schedule, t: nat, op: Op, b: nat, c: nat)
    requires Requested(run, sched, t, op, b, c)
    ensures HistoryOf(run, sched)[c] == Some(Call(op, run[c].threads[t].pc.result, b + 1))
  {
    EndsItself(run, sched, t, op, b, c);
    OpIsKept(run, sched, t, op, b, c, c);
  }

  /** insert and register answer EINVAL, at once, exactly if the hash is 0 or the value is none that can be stored. */
  lemma RefusesExactly(run: seq<State>, sched: Schedule, t: nat, op: Op, b: nat, c: nat)
    requires Requested(run, sched, t, op, b, c) && (op.Insert? || op.Register?)
    ensures run[c].threads[t].pc.result == Invalid <==> op.key.hash == 0 || !op.val.payload.Live?
    ensures run[c].threads[t].pc.result == Invalid ==> c == b + 1 && Map(run[c]) == Map(run[b])
  {
    if op.key.hash != 0 && op.val.payload.Live? {
      RecordsTheRequest(run, sched, t, op, b, c);
      var j := EveryCallLinearizes(run, sched, c);
    }
  }

  lemma LookupIsFound(run: seq<State>, sched: Schedule, key: HashWord, c: nat, j: nat)
    requires IsRun(run, sched) && c < |run| && CallEnding(run, sched, c).Some?
    requires j < |run| && !key.frozen && 0 !in Map(run[j]) && CallEnding(run, sched, c).value.op == Lookup(key)
    requires AnsweredAt(Atomic, MapsOf(run), CallEnding(run, sched, c).value, c, j)
    ensures CallEnding(run, sched, c).value.result == Found(if key.hash in Map(run[j]) then Some(Map(run[j])[key.hash]) else None)
  {
  }

  /** The step from state k changes the map as the call says that it ends. */
  lemma ChangeIsPerformed(run: seq<State>, sched: Schedule, k: nat)
    requires IsRun(run, sched) && k < |sched| && Map(run[k + 1]) != Map(run[k])
    ensures CallEnding(run, sched, k + 1).Some?
    ensures var call := CallEnding(run, sched, k + 1).value; Changed(call.op, Map(run[k]), Map(run[k + 1]), call.result)
  {
    OnlyCallsChangeTheMap(run, sched, k);
    var j := EveryCallLinearizes(run, sched, k + 1);
    var call := CallEnding(run, sched, k + 1).value;
    AtomicChanges(call.op, Map(run[k]), Map(run[k + 1]), call.result);
  }

  lemma LookupIsSilent(run: seq<State>, sched: Schedule, k: nat)
    requires IsRun(run, sched) && k < |sched| && CallEnding(run, sched, k + 1).Some? && CallEnding(run, sched, k + 1).value.op.Lookup?
    ensures Map(run[k + 1]) == Map(run[k])
  {
    if Map(run[k + 1]) != Map(run[k]) { ChangeIsPerformed(run, sched, k); }
  }

  /** A lookup finds what the map binds at an instant of the call; hash 0 is never bound. */
  lemma LooksUpTheRequest(run: seq<State>, sched: Schedule, t: nat, key: HashWord, b: nat, c: nat) returns (j: nat)
    requires Requested(run, sched, t, Lookup(key), b, c)
    ensures Map(run[c]) == Map(run[c - 1])
    ensures b < j <= c && run[c].threads[t].pc.result == Found(if key.hash in Map(run[j]) then Some(Map(run[j])[key.hash]) else None)
    ensures key.hash == 0 ==> run[c].threads[t].pc.result == Found(None)
  {
    RecordsTheRequest(run, sched, t, Lookup(key), b, c);
    LookupIsSilent(run, sched, c - 1);
    j := EveryCallLinearizes(run, sched, c);
    ZeroIsFree(run, sched, j);
    LookupIsFound(run, sched, key, c, j);
  }

  lemma ZeroIsFree(run: seq<State>, sched: Schedule, k: nat)
    requires IsRun(run, sched) && k < |run|
    ensures 0 !in Map(run[k])
  {
    RunsAreOk(run, sched, k);
    if 0 in Map(run[k]) { AbsMeaning(run[k].mem, 0, Map(run[k])[0]); }
  }

  /** The map changes only with the answer to a legal insert or register of the hash that was asked for. */
  lemma ChangesAsRequested(run: seq<State>, sched: Schedule, t: nat, op: Op, b: nat, k: nat)
    requires Requested(run, sched, t, op, b, k + 1) && Map(run[k + 1]) != Map(run[k])
    ensures Changed(op, Map(run[k]), Map(run[k + 1]), run[k + 1].threads[t].pc.result)
  {
    RecordsTheRequest(run, sched, t, op, b, k + 1);
    ChangeIsPerformed(run, sched, k);
  }

  /** A call that reports success has changed the map with its last step. */
  lemma SuccessChanges(run: seq<State>, sched: Schedule, t: nat, op: Op, b: nat, c: nat)
    requires Requested(run, sched, t, op, b, c)
    requires (op.Insert? && run[c].threads[t].pc.result == Ok)
             || (op.Register? && run[c].threads[t].pc.result == Registered(None))
    ensures Map(run[c]) != Map(run[c - 1])
  {
    RecordsTheRequest(run, sched, t, op, b, c);
    if Map(run[c]) == Map(run[c - 1]) {
      var j := EveryCallLinearizes(run, sched, c);
    }
  }
}
