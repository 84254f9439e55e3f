/**
 No pointer is lost and none is freed twice: what was handed to free is in the hands
 of a thread, on one list, or freed, exactly once; and when nobody is registered any
 more it has been freed.
 */
module AbaConservation {
  import opened AbaModel
  import opened AbaInvariant
  import opened AbaProof
  import opened AbaRuns

  /** How often a thread holds `item`. Until ClearList is done a taken list is still in its entry. */
  function Hand(pc: Pc, item: Item): nat {
    if InFree(pc) then (if pc.item == item then 1 else 0)
    else if pc.ClearUsage? || pc.RunFrees? then multiset(pc.taken)[item]
    else 0
  }

  ghost function Hands(threads: seq<Thread>, item: Item): nat {
    if threads == [] then 0 else Hand(threads[0].pc, item) + Hands(threads[1..], item)
  }

  /** How often `item` is on the lists of the timestamps 1 to `n`. */
  ghost function Listed(s: State, n: nat, item: Item): nat {
    if n == 0 then 0 else multiset(EntryOf(s, n).list)[item] + Listed(s, n - 1, item)
  }

  ghost function Total(s: State, item: Item): nat
    requires Shaped(s)
  {
    multiset(s.freed)[item] + Hands(s.threads, item) + Listed(s, Cur(s).ts, item)
  }

  // -------------------------------------------------------------------- sums

  lemma {:induction false} HandsMove(threads: seq<Thread>, t: nat, th: Thread, item: Item)
    requires t < |threads|
    ensures Hands(threads[t := th], item) + Hand(threads[t].pc, item) == Hands(threads, item) + Hand(th.pc, item)
  {
    if t == 0 {
      assert threads[t := th][1..] == threads[1..];
    } else {
      HandsMove(threads[1..], t - 1, th, item);
      assert threads[t := th][1..] == threads[1..][t - 1 := th];
    }
  }

  lemma {:induction false} HandsEmpty(threads: seq<Thread>, item: Item)
    requires forall t :: 0 <= t < |threads| ==> Hand(threads[t].pc, item) == 0
    ensures Hands(threads, item) == 0
  {
    if threads != [] {
      HandsEmpty(threads[1..], item);
    }
  }

  lemma {:induction false} ListedSame(s: State, s': State, n: nat, item: Item)
    requires forall ts: nat :: 1 <= ts <= n ==> EntryOf(s', ts).list == EntryOf(s, ts).list
    ensures Listed(s', n, item) == Listed(s, n, item)
  {
    if n > 0 { ListedSame(s, s', n - 1, item); }
  }

  lemma {:induction false} ListedMoves(s: State, s': State, x: nat, n: nat, item: Item)
    requires 1 <= x <= n && forall ts: nat :: 1 <= ts <= n && ts != x ==> EntryOf(s', ts).list == EntryOf(s, ts).list
    ensures Listed(s', n, item) + multiset(EntryOf(s, x).list)[item] == Listed(s, n, item) + multiset(EntryOf(s', x).list)[item]
  {
    if x == n { ListedSame(s, s', n - 1, item); } else { ListedMoves(s, s', x, n - 1, item); }
  }

  lemma {:induction false} ListedEmpty(s: State, n: nat, item: Item)
    requires forall ts: nat :: 1 <= ts <= n ==> EntryOf(s, ts).list == []
    ensures Listed(s, n, item) == 0
  {
    if n > 0 { ListedEmpty(s, n - 1, item); }
  }

  // ------------------------------------------------------------------- steps

  /** A step that leaves the lists, the timestamp and the freed alone. */
  lemma ListsAlone(s: State, s': State, t: nat, item: Item)
    requires Shaped(s) && Shaped(s') && t < |s.threads| == |s'.threads| && s'.threads == s.threads[t := s'.threads[t]]
    requires Cur(s').ts == Cur(s).ts && forall ts: nat :: EntryOf(s', ts).list == EntryOf(s, ts).list
    requires multiset(s'.freed)[item] + Hand(s'.threads[t].pc, item) == multiset(s.freed)[item] + Hand(s.threads[t].pc, item)
    ensures Total(s', item) == Total(s, item)
  {
    HandsMove(s.threads, t, s'.threads[t], item);
    ListedSame(s, s', Cur(s).ts, item);
  }

  /** A step between the hand of a thread and one list. */
  lemma HandToList(s: State, s': State, t: nat, x: nat, item: Item)
    requires Shaped(s) && Shaped(s') && t < |s.threads| == |s'.threads| && s'.threads == s.threads[t := s'.threads[t]]
    requires Cur(s').ts == Cur(s).ts && s'.freed == s.freed && 1 <= x <= Cur(s).ts
    requires forall ts: nat :: ts != x ==> EntryOf(s', ts) == EntryOf(s, ts)
    requires multiset(EntryOf(s', x).list)[item] + Hand(s'.threads[t].pc, item)
             == multiset(EntryOf(s, x).list)[item] + Hand(s.threads[t].pc, item)
    ensures Total(s', item) == Total(s, item)
  {
    HandsMove(s.threads, t, s'.threads[t], item);
    ListedMoves(s, s', x, Cur(s).ts, item);
  }

  lemma AddConserves(s: State, t: nat, r: nat, item: Item)
    requires Inv(s) && t < |s.threads| && s.threads[t].pc.FreeAdd?
    ensures Inv(Step(s, t, r)) && Total(Step(s, t, r), item) == Total(s, item)
  {
    FreeAddStep(s, t, r);
    assert ThreadOk(s, s.threads[t]);
    var pc := s.threads[t].pc;
    HandToList(s, Step(s, t, r), t, pc.ts, item);
  }

  lemma ClearConserves(s: State, t: nat, r: nat, item: Item)
    requires Inv(s) && t < |s.threads| && s.threads[t].pc.ClearList?
    ensures Inv(Step(s, t, r)) && Total(Step(s, t, r), item) == Total(s, item)
  {
    ClearListStep(s, t, r);
    assert ThreadOk(s, s.threads[t]);
    HandToList(s, Step(s, t, r), t, s.threads[t].pc.at, item);
  }

  /** A new timestamp starts with an empty list. */
  lemma NewTimestampConserves(s: State, t: nat, r: nat, item: Item)
    requires Inv(s) && t < |s.threads| && s.threads[t].pc.FreeCas? && s.wp == s.threads[t].pc.snap
    ensures PcOk(s, s.threads[t].pc) && Shaped(Step(s, t, r)) && Total(Step(s, t, r), item) == Total(s, item)
  {
    assert ThreadOk(s, s.threads[t]);
    var s' := Step(s, t, r);
    assert Cur(s').ts == Cur(s).ts + 1;
    assert EntryOf(s, Cur(s').ts).list == [];
    assert forall ts: nat :: EntryOf(s', ts) == EntryOf(s, ts);
    ListedSame(s, s', Cur(s).ts, item);
    HandsMove(s.threads, t, s'.threads[t], item);
  }

  /** The last thread that leaves throws away empty lists only. */
  lemma LeavingConserves(s: State, t: nat, r: nat, item: Item)
    requires Inv(s) && t < |s.threads| && s.threads[t].pc.LeaveSwap?
    ensures PcOk(s, s.threads[t].pc) && Shaped(Step(s, t, r)) && Total(Step(s, t, r), item) == Total(s, item)
  {
    assert ThreadOk(s, s.threads[t]);
    LeaveSwapStep(s, t, r);
    var s' := Step(s, t, r);
    if Cur(s').ts == Cur(s).ts && s'.entries == s.entries {
      ListsAlone(s, s', t, item);
    } else {
      forall ts: nat ensures EntryOf(s, ts).list == [] { ResetLosesNothing(s, t, ts); }
      ListedEmpty(s, Cur(s).ts, item);
      HandsMove(s.threads, t, s'.threads[t], item);
    }
  }

  lemma FreesConserve(s: State, t: nat, r: nat, item: Item)
    requires Inv(s) && t < |s.threads| && s.threads[t].pc.RunFrees? && s.threads[t].pc.taken != []
    ensures Shaped(Step(s, t, r)) && Total(Step(s, t, r), item) == Total(s, item)
  {
    var taken := s.threads[t].pc.taken;
    assert taken == [taken[0]] + taken[1..];
    ListsAlone(s, Step(s, t, r), t, item);
  }

  lemma FreeNowConserves(s: State, t: nat, r: nat, item: Item)
    requires Inv(s) && t < |s.threads| && s.threads[t].pc.FreeNow?
    ensures Shaped(Step(s, t, r)) && Total(Step(s, t, r), item) == Total(s, item)
  {
    ListsAlone(s, Step(s, t, r), t, item);
  }

  predicate Quietly(s: State, pc: Pc) {
    !pc.Idle? && !pc.FreeAdd? && !pc.FreeNow? && !pc.ClearList? && !pc.LeaveSwap? && !(pc.FreeCas? && s.wp == pc.snap) && !(pc.RunFrees? && pc.taken != [])
  }

  /** Every other step leaves the lists alone. */
  lemma OthersLeaveLists(s: State, t: nat, r: nat)
    requires Shaped(s) && t < |s.threads| && Quietly(s, s.threads[t].pc) && PcOk(s, s.threads[t].pc)
    ensures Shaped(Step(s, t, r)) && Cur(Step(s, t, r)).ts == Cur(s).ts
    ensures forall ts: nat :: EntryOf(Step(s, t, r), ts).list == EntryOf(s, ts).list
  {
  }

  lemma OthersFreeNothing(s: State, t: nat, r: nat)
    requires Shaped(s) && t < |s.threads| && Quietly(s, s.threads[t].pc) && PcOk(s, s.threads[t].pc)
    ensures var s' := Step(s, t, r); |s'.threads| == |s.threads| && s'.threads == s.threads[t := s'.threads[t]]
    ensures Step(s, t, r).freed == s.freed
  {
  }

  lemma FreeKeepsHand(s: State, t: nat, r: nat, item: Item)
    requires Shaped(s) && t < |s.threads| && Quietly(s, s.threads[t].pc) && PcOk(s, s.threads[t].pc) && InFree(s.threads[t].pc)
    ensures |Step(s, t, r).threads| == |s.threads| && Hand(Step(s, t, r).threads[t].pc, item) == Hand(s.threads[t].pc, item)
  {
    var pc, pc' := s.threads[t].pc, Step(s, t, r).threads[t].pc;
    assert InFree(pc') && pc'.item == pc.item;
  }

  lemma OthersLeaveHands(s: State, t: nat, r: nat, item: Item)
    requires Shaped(s) && t < |s.threads| && Quietly(s, s.threads[t].pc) && PcOk(s, s.threads[t].pc)
    ensures |Step(s, t, r).threads| == |s.threads| && Hand(Step(s, t, r).threads[t].pc, item) == Hand(s.threads[t].pc, item)
  {
    var pc := s.threads[t].pc;
    if InFree(pc) {
      FreeKeepsHand(s, t, r, item);
    } else if pc.ClearUsage? {
      assert Step(s, t, r).threads[t].pc == RunFrees(pc.leaving, pc.snap, pc.at, pc.upto, pc.taken);
    }
  }

  lemma OthersConserve(s: State, t: nat, r: nat, item: Item)
    requires Shaped(s) && t < |s.threads| && Quietly(s, s.threads[t].pc) && PcOk(s, s.threads[t].pc)
    ensures Shaped(Step(s, t, r)) && Total(Step(s, t, r), item) == Total(s, item)
  {
    OthersLeaveLists(s, t, r);
    OthersFreeNothing(s, t, r);
    OthersLeaveHands(s, t, r, item);
    ListsAlone(s, Step(s, t, r), t, item);
  }

  lemma StepConserves(s: State, t: nat, r: nat, item: Item)
    requires Inv(s) && t < |s.threads| && !s.threads[t].pc.Idle? && PcOk(s, s.threads[t].pc)
    ensures Shaped(Step(s, t, r)) && Total(Step(s, t, r), item) == Total(s, item)
  {
    var pc := s.threads[t].pc;
    if pc.FreeAdd? { AddConserves(s, t, r, item); }
    else if pc.ClearList? { ClearConserves(s, t, r, item); }
    else if pc.LeaveSwap? { LeavingConserves(s, t, r, item); }
    else if pc.FreeCas? && s.wp == pc.snap { NewTimestampConserves(s, t, r, item); }
    else if pc.RunFrees? && pc.taken != [] { FreesConserve(s, t, r, item); }
    else if pc.FreeNow? { FreeNowConserves(s, t, r, item); }
    else { OthersConserve(s, t, r, item); }
  }

  /** With the step from s to s' thread `t` calls free with the pointer of `item`. */
  ghost predicate HandsIn(s: State, s': State, t: nat, item: Item) {
    t == item.thread && item.called == s.now + 1 && Begins(s, s', t, Free(item.pointer))
  }

  lemma BeginConserves(s: State, s': State, t: nat, q: Request, item: Item)
    requires Inv(s) && Begins(s, s', t, q)
    ensures Shaped(s') && Total(s', item) == Total(s, item) + if HandsIn(s, s', t, item) then 1 else 0
  {
    HandsMove(s.threads, t, s'.threads[t], item);
    ListedSame(s, s', Cur(s).ts, item);
  }

  // -------------------------------------------------------------------- runs

  /** `item` was handed to free before state `k`. */
  ghost predicate HandedIn(run: seq<State>, sched: seq<nat>, item: Item, k: nat)
    requires k < |run| == |sched| + 1
  {
    1 <= item.called <= k && HandsIn(run[item.called - 1], run[item.called], sched[item.called - 1], item)
  }

  lemma NextConserves(s: State, s': State, t: nat, item: Item)
    requires Inv(s) && Next(s, s', t)
    ensures Shaped(s') && Total(s', item) == Total(s, item) + if HandsIn(s, s', t, item) then 1 else 0
  {
    if q :| Begins(s, s', t, q) {
      BeginConserves(s, s', t, q, item);
    } else {
      var r: nat :| Moves(s, s', t, r);
      StepConserves(s, t, r, item);
      ListedSame(Step(s, t, r), s', Cur(s').ts, item);
    }
  }

  /** Every pointer that was handed to free is in one place, and no other pointer is anywhere. */
  lemma {:induction false} InOnePlace(run: seq<State>, sched: seq<nat>, k: nat, item: Item)
    requires IsRun(run, sched) && k < |run|
    ensures Shaped(run[k]) && Total(run[k], item) == if HandedIn(run, sched, item, k) then 1 else 0
    decreases k
  {
    RunsAreOk(run, sched, k);
    if k == 0 {
      HandsEmpty(run[0].threads, item);
    } else {
      var p := k - 1;
      InOnePlace(run, sched, p, item);
      RunsAreOk(run, sched, p);
      var s, s', t := run[p], run[k], sched[p];
      assert StepAt(run, sched, p);
      NextConserves(s, s', t, item);
      OneMoreHandedIn(run, sched, k, item);
    }
  }

  lemma OneMoreHandedIn(run: seq<State>, sched: seq<nat>, k: nat, item: Item)
    requires IsRun(run, sched) && 1 <= k < |run|
    ensures HandedIn(run, sched, item, k)
            <==> HandedIn(run, sched, item, k - 1) || HandsIn(run[k - 1], run[k], sched[k - 1], item)
    ensures !(HandedIn(run, sched, item, k - 1) && HandsIn(run[k - 1], run[k], sched[k - 1], item))
  {
    HandedInAt(run, sched, k, item);
    if item.called == k {
      assert HandedIn(run, sched, item, k) <==> HandsIn(run[k - 1], run[k], sched[k - 1], item);
    } else {
      assert HandedIn(run, sched, item, k) <==> HandedIn(run, sched, item, k - 1);
    }
  }

  /** An item is stamped with the state in which its call begins. */
  lemma HandedInAt(run: seq<State>, sched: seq<nat>, k: nat, item: Item)
    requires IsRun(run, sched) && 1 <= k < |run|
    ensures HandsIn(run[k - 1], run[k], sched[k - 1], item) ==> item.called == k
  {
    var p := k - 1;
    var s, s', t := run[p], run[k], sched[p];
    RunsAreOk(run, sched, p);
    assert StepAt(run, sched, p);
  }

  /** No free callback runs twice, and none runs for a pointer that was not handed in. */
  lemma FreedAtMostOnce(run: seq<State>, sched: seq<nat>, k: nat, item: Item)
    requires IsRun(run, sched) && k < |run|
    ensures multiset(run[k].freed)[item] <= 1
    ensures item in run[k].freed ==> HandedIn(run, sched, item, k)
  {
    InOnePlace(run, sched, k, item);
    assert item in run[k].freed <==> multiset(run[k].freed)[item] > 0;
  }

  /** When every thread has unregistered, everything that was handed in has been freed, once. */
  lemma AllFreedInTheEnd(run: seq<State>, sched: seq<nat>, k: nat, item: Item)
    requires IsRun(run, sched) && k < |run|
    requires forall t :: 0 <= t < |run[k].threads| ==> !Registered(run[k].threads[t])
    ensures multiset(run[k].freed)[item] == if HandedIn(run, sched, item, k) then 1 else 0
  {
    var s := run[k];
    RunsAreOk(run, sched, k);
    InOnePlace(run, sched, k, item);
    forall t | 0 <= t < |s.threads| ensures Hand(s.threads[t].pc, item) == 0 {
      assert ThreadOk(s, s.threads[t]);
    }
    HandsEmpty(s.threads, item);
    forall ts: nat | 1 <= ts <= Cur(s).ts ensures EntryOf(s, ts).list == [] {
      assert EntryOk(EntryOf(s, ts), s.threads, ts);
      assert Owers(s.threads, ts) == {};
      forall t | 0 <= t < |s.threads| ensures !Releases(s.threads[t], ts) {
        assert ThreadOk(s, s.threads[t]);
      }
    }
    ListedEmpty(s, Cur(s).ts, item);
  }
}
