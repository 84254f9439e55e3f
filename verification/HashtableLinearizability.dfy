/**
 Linearizability of the hashtable: the completed calls of a run, put in a suitable
 order that respects real time, are the calls of an atomic map with the same answers.
 */
module HashtableLinearizability {
  import opened Options
  import opened MapSpec
  import opened HashtableModel
  import opened HashtableSteps
  import opened HashtableRuns
  import opened Histories

  type Schedule = seq<nat>

  /** The call that ends with the step to state `c`, if one does. */
  ghost function CallEnding(run: seq<State>, sched: Schedule, c: nat): Option<Call<Op, Result>>
    requires IsRun(run, sched) && c < |run|
  {
    if c > 0 && sched[c - 1] < |run[0].threads| && run[c].threads[sched[c - 1]].pc.Done? then
      var t := sched[c - 1];
      Some(Call(run[c].threads[t].op, run[c].threads[t].pc.result, CallStart(run, t, c)))
    else None
  }

  ghost function HistoryOf(run: seq<State>, sched: Schedule): (calls: History<Op, Result>)
    requires IsRun(run, sched)
    ensures |calls| == |run|
    ensures forall c :: 0 <= c < |run| ==> calls[c] == CallEnding(run, sched, c)
  {
    seq(|run|, c requires 0 <= c < |run| && IsRun(run, sched) => CallEnding(run, sched, c))
  }

  ghost function MapsOf(run: seq<State>): (maps: seq<map<nat, Value>>)
    ensures |maps| == |run|
    ensures forall i :: 0 <= i < |run| ==> maps[i] == Map(run[i])
  {
    TraceOf(run, Map)
  }

  lemma AnswersMeansAtomic(op: Op, a: map<nat, Value>, r: Result)
    requires Answers(op, Get(a, Hash(op)), r)
    ensures Atomic(op, a) == (a, r)
  {
  }

  lemma WitnessedAt(run: seq<State>, call: Call<Op, Result>, c: nat, o: Option<Value>)
    requires c < |run|
    requires o in Seen(run, call.start, c, Hash(call.op)) && Answers(call.op, o, call.result)
    ensures exists j: nat :: AnsweredAt(Atomic, MapsOf(run), call, c, j)
  {
    var j: nat :| call.start <= j <= c && o == Get(Map(run[j]), Hash(call.op));
    AnswersMeansAtomic(call.op, Map(run[j]), call.result);
    assert AnsweredAt(Atomic, MapsOf(run), call, c, j);
  }

  /** Each call performs its operation in its last step, or has its answer at an instant between start and end. */
  lemma EveryCallLinearizes(run: seq<State>, sched: Schedule, c: nat)
    requires IsRun(run, sched) && c < |run| && CallEnding(run, sched, c).Some?
    ensures var call := CallEnding(run, sched, c).value;
            || (call.start < c && Atomic(call.op, Map(run[c - 1])) == (Map(run[c]), call.result))
            || (exists j: nat :: AnsweredAt(Atomic, MapsOf(run), call, c, j))
  {
    var k, t, call := c - 1, sched[c - 1], CallEnding(run, sched, c).value;
    assert StepAt(run, sched, k);
    RunsAreOk(run, sched, k);
    if run[k].threads[t].pc.Idle? {
      assert AnsweredAt(Atomic, MapsOf(run), call, c, c);
    } else {
      MoverOk(run, sched, k);
      SeenGrows(run, CallStart(run, t, k), k, Hash(call.op));
      if Atomic(call.op, Map(run[k])) != (Map(run[c]), call.result) {
        var o :| o in Seen(run, call.start, c, Hash(call.op)) && Answers(call.op, o, call.result);
        WitnessedAt(run, call, c, o);
      }
    }
  }

  /** The map changes only in a step that ends a call, and then as that call's operation says. */
  lemma OnlyCallsChangeTheMap(run: seq<State>, sched: Schedule, k: nat)
    requires IsRun(run, sched) && k < |sched| && Map(run[k + 1]) != Map(run[k])
    ensures CallEnding(run, sched, k + 1).Some?
    ensures var call := CallEnding(run, sched, k + 1).value;
            call.start <= k && Atomic(call.op, Map(run[k])) == (Map(run[k + 1]), call.result)
  {
    var t := sched[k];
    assert StepAt(run, sched, k);
    RunsAreOk(run, sched, k);
    MoverOk(run, sched, k);
  }

  /** An instant for the call that ends in state `c`, if one does. */
  lemma PlaceOf(run: seq<State>, sched: Schedule, c: nat) returns (j: nat)
    requires IsRun(run, sched) && c < |run|
    ensures PlacedAt(Atomic, MapsOf(run), HistoryOf(run, sched), c, j)
  {
    j := 0;
    if c > 0 && Map(run[c]) != Map(run[c - 1]) {
      OnlyCallsChangeTheMap(run, sched, c - 1);
      j := c - 1;
    } else if CallEnding(run, sched, c).Some? {
      j := InstantOf(run, sched, c);
    }
  }

  lemma InstantOf(run: seq<State>, sched: Schedule, c: nat) returns (j: nat)
    requires IsRun(run, sched) && c < |run| && CallEnding(run, sched, c).Some?
    requires c > 0 ==> Map(run[c]) == Map(run[c - 1])
    ensures AnsweredAt(Atomic, MapsOf(run), CallEnding(run, sched, c).value, c, j)
  {
    EveryCallLinearizes(run, sched, c);
    var call := CallEnding(run, sched, c).value;
    if call.start < c && Atomic(call.op, Map(run[c - 1])) == (Map(run[c]), call.result) {
      j := c - 1;
    } else {
      j :| AnsweredAt(Atomic, MapsOf(run), call, c, j);
    }
  }

  /** Every run of any number of threads is linearizable. */
  lemma Linearizable(run: seq<State>, sched: Schedule) returns (order: seq<nat>)
    requires IsRun(run, sched)
    ensures Linearization(Atomic, HistoryOf(run, sched), order, map[], Map(run[|run| - 1]))
  {
    FirstState(run, sched);
    var trace, calls := MapsOf(run), HistoryOf(run, sched);
    forall c: nat | c < |run| ensures HasPlace(Atomic, trace, calls, c) {
      var j := PlaceOf(run, sched, c);
    }
    order := LinearizableByInstants(Atomic, trace, calls);
  }
}
