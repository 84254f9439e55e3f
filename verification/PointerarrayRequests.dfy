/**
 What a caller of the pointer array gets for what it asked: get answers for the index
 that it was called with, and add appends the value that it was called with.
 */
module PointerarrayRequests {
  import opened Options
  import opened PointerarrayModel
  import opened PointerarrayInvariant
  import opened PointerarrayProof
  import opened PointerarrayRuns
  import opened PointerarrayLinearizability

  /** The operation that thread `t` was called to do, in state i. */
  function OpAt(run: seq<State>, t: nat, i: nat): Option<Op> {
    if i < |run| && t < |run[i].threads| then OpOf(run[i].threads[t]) else None
  }

  /** The call that thread `t` begins with the step from state b, asking for `q`, has its answer in state c. */
  ghost predicate Requested(run: seq<State>, sched: Schedule, t: nat, q: Request, b: nat, c: nat) {
    && IsRun(run, sched) && b < c < |run|
    && Begins(run[b], run[b + 1], t, q)
    && (forall i {:trigger OpAt(run, t, i)} :: b < i <= c ==> OpAt(run, t, i).Some?)
    && t < |run[c].threads| && run[c].threads[t].Done?
  }

  lemma OpStays(run: seq<State>, sched: Schedule, t: nat, k: nat)
    requires IsRun(run, sched) && k < |sched| && OpAt(run, t, k).Some? && OpAt(run, t, k + 1).Some?
    ensures OpAt(run, t, k + 1) == OpAt(run, t, k)
  {
    assert StepAt(run, sched, k);
    var s, s', u := run[k], run[k + 1], sched[k];
    if Moves(s, s', u) && u == t { OpKept(s.mem, s.threads[t]); }
  }

  /** The call is the one that was asked for, from its first state on. */
  lemma {:induction false} OpIsKept(run: seq<State>, sched: Schedule, t: nat, q: Request, b: nat, c: nat, k: nat)
    requires Requested(run, sched, t, q, b, c) && b < k <= c
    ensures OpAt(run, t, k) == Some(match q case CallAdd(value) => Add(Item(value, t, b + 1)) case CallGet(index) => Get(index))
    decreases k
  {
    if k == b + 1 {
      RunsAreOk(run, sched, b);
    } else {
      OpIsKept(run, sched, t, q, b, c, k - 1);
      assert OpAt(run, t, k).Some?;
      OpStays(run, sched, t, k - 1);
    }
  }

  lemma {:induction false} StartsThere(run: seq<State>, sched: Schedule, t: nat, q: Request, b: nat, c: nat, k: nat)
    requires Requested(run, sched, t, q, b, c) && b < k <= c && forall i :: 0 <= i < |run| ==> t < |run[i].threads|
    ensures CallStart(run, t, k) == b + 1
    decreases k
  {
    if k > b + 1 {
      StartsThere(run, sched, t, q, b, c, k - 1);
      assert OpAt(run, t, k - 1).Some?;
    }
  }

  /** get(index) answers what the array holds at that index, at an instant of the call. */
  lemma AnswersGet(run: seq<State>, sched: Schedule, t: nat, index: nat, b: nat, c: nat) returns (j: nat)
    requires Requested(run, sched, t, CallGet(index), b, c)
    ensures b < j <= c && run[c].threads[t].result == Lookup(Log(run[j].mem), index)
  {
    OpIsKept(run, sched, t, CallGet(index), b, c, c);
    GetIsCurrent(run, sched, c, t);
    StartsThere(run, sched, t, CallGet(index), b, c, c);
    j :| CallStart(run, t, c) <= j <= c && Lookup(Log(run[j].mem), index) == run[c].threads[t].result;
  }

  /**
   add(value) appends that value with one step during the call; it is in the array once
   when the call ends and was not there when the call began.
   */
  lemma AppendsAdd(run: seq<State>, sched: Schedule, t: nat, value: nat, b: nat, c: nat) returns (k: nat)
    requires Requested(run, sched, t, CallAdd(value), b, c)
    ensures b < k <= c && Log(run[k].mem) == Log(run[k - 1].mem) + [Item(value, t, b + 1)]
    ensures multiset(Log(run[c].mem))[Item(value, t, b + 1)] == 1 && Item(value, t, b + 1) !in Log(run[b].mem)
    ensures run[c].threads[t].result == None
  {
    var item := Item(value, t, b + 1);
    OpIsKept(run, sched, t, CallAdd(value), b, c, c);
    RunsAreOk(run, sched, c);
    assert LocalInv(run[c].mem, run[c].threads[t]);
    AddedOnce(run, sched, c, t, item);
    k := FirstSeen(run, item, b, c);
    var x := AppendsOneAtATime(run, sched, k - 1);
  }

  // ------------------------------------------------------- nothing comes from nowhere

  /** The item was handed in by a caller of add: by that thread, in that state, with that value. */
  ghost predicate WasAdded(run: seq<State>, x: Item) {
    1 <= x.called < |run| && Begins(run[x.called - 1], run[x.called], x.thread, CallAdd(x.value))
  }

  lemma {:induction false} ItemWasAdded(run: seq<State>, sched: Schedule, k: nat, t: nat)
    requires IsRun(run, sched) && k < |run| && t < |run[k].threads| && ItemOf(run[k].threads[t]).Some?
    ensures WasAdded(run, ItemOf(run[k].threads[t]).value)
    decreases k
  {
    if k > 0 {
      assert StepAt(run, sched, k - 1);
      RunsAreOk(run, sched, k - 1);
      RunsAreOk(run, sched, k);
      var s, s', u := run[k - 1], run[k], sched[k - 1];
      if ItemOf(s.threads[t]) == ItemOf(s'.threads[t]) {
        ItemWasAdded(run, sched, k - 1, t);
      } else if Moves(s, s', u) {
        OpKept(s.mem, s.threads[u]);
      }
    }
  }

  lemma FirstIsEmpty(run: seq<State>, sched: Schedule)
    requires IsRun(run, sched)
    ensures Log(run[0].mem) == []
  {
    var size :| Init(run[0], size);
    InitOk(run[0], size);
  }

  /** Whatever the array holds, and so whatever get answers, some caller has passed to add. */
  lemma {:induction false} HoldsWhatWasAdded(run: seq<State>, sched: Schedule, k: nat, i: nat)
    requires IsRun(run, sched) && k < |run| && i < |Log(run[k].mem)|
    ensures WasAdded(run, Log(run[k].mem)[i])
    decreases k
  {
    if k == 0 {
      FirstIsEmpty(run, sched);
    } else if Log(run[k].mem) == Log(run[k - 1].mem) {
      HoldsWhatWasAdded(run, sched, k - 1, i);
    } else {
      var x := AppendsOneAtATime(run, sched, k - 1);
      if i < |Log(run[k - 1].mem)| {
        HoldsWhatWasAdded(run, sched, k - 1, i);
      } else {
        ItemWasAdded(run, sched, k - 1, x.thread);
      }
    }
  }
}
