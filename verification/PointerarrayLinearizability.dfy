/**
 Linearizability of the pointer array: all adds that have taken effect and all gets that
 have returned, in one order that respects real time, are the calls of a sequential log.
 An add is listed with the step that publishes its value, which is not after its return.
 */
module PointerarrayLinearizability {
  import opened Options
  import opened Histories
  import opened PointerarrayModel
  import opened PointerarrayInvariant
  import opened PointerarrayRuns

  type Schedule = seq<nat>

  /** A log that is changed atomically. */
  function LogSpec(op: Op, log: seq<Item>): (seq<Item>, Option<Item>) {
    match op
    case Add(item) => (log + [item], None)
    case Get(index) => (log, Lookup(log, index))
  }

  ghost function LogAt(s: State): seq<Item> {
    Log(s.mem)
  }

  /** The step to state `c` ends a get. */
  predicate EndsGet(run: seq<State>, sched: Schedule, c: nat) {
    && 0 < c < |run| && c <= |sched| && sched[c - 1] < |run[c].threads|
    && run[c].threads[sched[c - 1]].Done? && run[c].threads[sched[c - 1]].op.Get?
  }

  ghost predicate ThreadsConstant(run: seq<State>) {
    forall i :: 0 <= i < |run| ==> |run[i].threads| == |run[0].threads|
  }

  /** The call whose effect or end is the step to state `c`. */
  ghost function CallAt(run: seq<State>, sched: Schedule, c: nat): Option<Call<Op, Option<Item>>>
    requires c < |run| && ThreadsConstant(run)
  {
    var log := LogAt(run[c]);
    if c > 0 && log != LogAt(run[c - 1]) && log != [] then
      Some(Call(Add(log[|log| - 1]), None, log[|log| - 1].called))
    else if EndsGet(run, sched, c) then
      var t := sched[c - 1];
      Some(Call(run[c].threads[t].op, run[c].threads[t].result, CallStart(run, t, c)))
    else None
  }

  ghost function HistoryOf(run: seq<State>, sched: Schedule): (calls: History<Op, Option<Item>>)
    requires ThreadsConstant(run)
    ensures |calls| == |run|
    ensures forall c :: 0 <= c < |run| ==> calls[c] == CallAt(run, sched, c)
  {
    seq(|run|, c requires 0 <= c < |run| && ThreadsConstant(run) => CallAt(run, sched, c))
  }

  lemma RunIsConstant(run: seq<State>, sched: Schedule)
    requires IsRun(run, sched)
    ensures ThreadsConstant(run)
  {
    forall i | 0 <= i < |run| ensures |run[i].threads| == |run[0].threads| {
      RunsAreOk(run, sched, i);
    }
  }

  lemma AppendPlaced(run: seq<State>, sched: Schedule, c: nat)
    requires IsRun(run, sched) && ThreadsConstant(run) && 0 < c < |run| && LogAt(run[c]) != LogAt(run[c - 1])
    ensures CallAt(run, sched, c).Some?
    ensures var call := CallAt(run, sched, c).value;
            call.start <= c - 1 && LogSpec(call.op, LogAt(run[c - 1])) == (LogAt(run[c]), call.result)
  {
    var x := AppendsOneAtATime(run, sched, c - 1);
  }

  lemma GetPlaced(run: seq<State>, sched: Schedule, c: nat) returns (j: nat)
    requires IsRun(run, sched) && ThreadsConstant(run) && EndsGet(run, sched, c) && LogAt(run[c]) == LogAt(run[c - 1])
    ensures CallAt(run, sched, c).Some? && j < |run|
    ensures var call := CallAt(run, sched, c).value;
            call.start <= j <= c && LogSpec(call.op, LogAt(run[j])) == (LogAt(run[j]), call.result)
  {
    var t := sched[c - 1];
    GetIsCurrent(run, sched, c, t);
    j :| CallStart(run, t, c) <= j <= c && Lookup(Log(run[j].mem), run[c].threads[t].op.index) == run[c].threads[t].result;
  }

  lemma PlaceOf(run: seq<State>, sched: Schedule, c: nat) returns (j: nat)
    requires IsRun(run, sched) && ThreadsConstant(run) && c < |run|
    ensures PlacedAt(LogSpec, TraceOf(run, LogAt), HistoryOf(run, sched), c, j)
  {
    j := 0;
    if c > 0 && LogAt(run[c]) != LogAt(run[c - 1]) {
      AppendPlaced(run, sched, c);
      j := c - 1;
    } else if EndsGet(run, sched, c) {
      j := GetPlaced(run, sched, c);
    }
  }

  /** Every run of any number of threads is linearizable. */
  lemma Linearizable(run: seq<State>, sched: Schedule) returns (order: seq<nat>)
    requires IsRun(run, sched)
    ensures ThreadsConstant(run)
    ensures Linearization(LogSpec, HistoryOf(run, sched), order, [], LogAt(run[|run| - 1]))
  {
    RunIsConstant(run, sched);
    var size :| Init(run[0], size);
    InitOk(run[0], size);
    var trace, calls := TraceOf(run, LogAt), HistoryOf(run, sched);
    forall c: nat | c < |run| ensures HasPlace(LogSpec, trace, calls, c) {
      var j := PlaceOf(run, sched, c);
    }
    order := LinearizableByInstants(LogSpec, trace, calls);
  }

  // ------------------------------------------------------ the history is complete

  lemma {:induction false} FirstSeen(run: seq<State>, item: Item, b: nat, k: nat) returns (c: nat)
    requires b <= k < |run| && item !in LogAt(run[b]) && item in LogAt(run[k])
    ensures b < c <= k && item !in LogAt(run[c - 1]) && item in LogAt(run[c])
    decreases k
  {
    if item in LogAt(run[k - 1]) {
      c := FirstSeen(run, item, b, k - 1);
    } else {
      c := k;
    }
  }

  /** An add that has returned is in the history, once, with a step of its call. */
  lemma AddIsListed(run: seq<State>, sched: Schedule, k: nat, t: nat, item: Item) returns (c: nat)
    requires IsRun(run, sched) && k < |run| && t < |run[k].threads| && run[k].threads[t] == Done(Add(item), None)
    ensures ThreadsConstant(run) && item.called <= c <= k
    ensures HistoryOf(run, sched)[c] == Some(Call(Add(item), None, item.called))
    ensures forall d :: 0 <= d < |run| && HistoryOf(run, sched)[d] == HistoryOf(run, sched)[c] ==> d == c
  {
    RunIsConstant(run, sched);
    AddedOnce(run, sched, k, t, item);
    c := FirstSeen(run, item, item.called - 1, k);
    var x := AppendsOneAtATime(run, sched, c - 1);
    forall d | 0 <= d < |run| && HistoryOf(run, sched)[d] == HistoryOf(run, sched)[c] ensures d == c {
      ListedOnce(run, sched, c, d, item);
    }
  }

  lemma ListedOnce(run: seq<State>, sched: Schedule, c: nat, d: nat, item: Item)
    requires IsRun(run, sched) && ThreadsConstant(run) && 0 < c < |run| && d < |run|
    requires item !in LogAt(run[c - 1]) && item in LogAt(run[c]) && LogAt(run[c]) != []
    requires CallAt(run, sched, d) == Some(Call(Add(item), None, item.called))
    ensures d == c
  {
    var x := AppendsOneAtATime(run, sched, d - 1);
    AppendedFresh(run, sched, d);
    if d < c { AppendOnly(run, sched, d, c - 1); }
    if c < d { AppendOnly(run, sched, c, d - 1); }
  }

  /** What a step appends was not in the log. */
  lemma AppendedFresh(run: seq<State>, sched: Schedule, d: nat)
    requires IsRun(run, sched) && 0 < d < |run| && LogAt(run[d]) != LogAt(run[d - 1]) && LogAt(run[d]) != []
    ensures LogAt(run[d])[|LogAt(run[d])| - 1] !in LogAt(run[d - 1])
  {
    var x := AppendsOneAtATime(run, sched, d - 1);
    RunsAreOk(run, sched, d);
    LogHasNoDuplicates(run[d].mem);
    var log, before := LogAt(run[d]), LogAt(run[d - 1]);
    assert log == before + [x] && log[|before|] == x;
    forall i | 0 <= i < |before| ensures before[i] != x {
      assert log[i] == before[i];
    }
  }
}
