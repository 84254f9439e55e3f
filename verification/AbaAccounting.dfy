/**
 Epoch accounting over whole runs of mulle-aba: every thread that was counted when a
 timestamp was made decrements it exactly once, nobody else does, and exactly one of
 these decrements sees zero.
 */
module AbaAccounting {
  import opened AbaModel
  import opened AbaInvariant
  import opened AbaProof
  import opened AbaRuns

  function One(b: bool): nat {
    if b then 1 else 0
  }

  predicate OwesAt(s: State, u: nat, ts: nat) {
    u < |s.threads| && Owes(s.threads[u], ts)
  }

  /** The step of thread `t` from `s` decrements `ts`. */
  predicate Decrements(s: State, t: nat, ts: nat) {
    t < |s.threads| && s.threads[t].pc.Decrement? && s.threads[t].pc.at == ts
  }

  /** It sees zero. */
  predicate SeesZero(s: State, t: nat, ts: nat) {
    Decrements(s, t, ts) && EntryOf(s, ts).rc == 0
  }

  /** The step makes timestamp `ts`. */
  predicate Makes(s: State, s': State, ts: nat) {
    Shaped(s) && Shaped(s') && Cur(s').ts == Cur(s).ts + 1 == ts
  }

  /** From state `c` to state `k` the timestamp is in use: the last thread has not left and reset the world. */
  ghost predicate Stands(run: seq<State>, ts: nat, c: nat, k: nat)
    requires k < |run|
  {
    forall i: nat :: c <= i <= k ==> StandsAt(run[i], ts)
  }

  predicate StandsAt(s: State, ts: nat) {
    Shaped(s) && 1 <= ts <= Cur(s).ts
  }

  /** How often thread `u` decrements `ts` with the steps from state `c` to state `k`. */
  ghost function DecrementsOf(run: seq<State>, sched: seq<nat>, u: nat, ts: nat, c: nat, k: nat): nat
    requires c <= k <= |sched| && |run| == |sched| + 1
    decreases k
  {
    if k == c then 0
    else DecrementsOf(run, sched, u, ts, c, k - 1) + One(sched[k - 1] == u && Decrements(run[k - 1], u, ts))
  }

  /** How often a decrement of `ts` sees zero. */
  ghost function ZerosOf(run: seq<State>, sched: seq<nat>, ts: nat, c: nat, k: nat): nat
    requires c <= k <= |sched| && |run| == |sched| + 1
    decreases k
  {
    if k == c then 0
    else ZerosOf(run, sched, ts, c, k - 1) + One(SeesZero(run[k - 1], sched[k - 1], ts))
  }

  // ---------------------------------------------------------------------- one step

  lemma RangeOwes(s: State, t: nat, r: nat, ts: nat)
    requires Inv(s) && t < |s.threads| && InRange(s.threads[t].pc) && |Step(s, t, r).threads| == |s.threads|
    ensures One(Owes(s.threads[t], ts)) == One(Owes(Step(s, t, r).threads[t], ts)) + One(Decrements(s, t, ts))
  {
    assert ThreadOk(s, s.threads[t]);
  }

  lemma FreeOwes(s: State, t: nat, r: nat, ts: nat)
    requires t < |s.threads| && Shaped(s) && PcOk(s, s.threads[t].pc) && InFree(s.threads[t].pc)
    requires |Step(s, t, r).threads| == |s.threads|
    ensures Owes(s.threads[t], ts) == Owes(Step(s, t, r).threads[t], ts)
  {
  }

  lemma CheckinOwes(s: State, t: nat, r: nat, ts: nat)
    requires Inv(s) && t < |s.threads| && !s.threads[t].pc.Idle? && PcOk(s, s.threads[t].pc)
    requires !InRange(s.threads[t].pc) && !InFree(s.threads[t].pc)
    requires StandsAt(s, ts) && StandsAt(Step(s, t, r), ts) && |Step(s, t, r).threads| == |s.threads|
    ensures Owes(s.threads[t], ts) == Owes(Step(s, t, r).threads[t], ts)
  {
    assert ThreadOk(s, s.threads[t]);
  }

  /** What the thread that moves owes: less by a decrement, and else the same. */
  lemma MoverOwes(s: State, t: nat, r: nat, ts: nat)
    requires Inv(s) && t < |s.threads| && !s.threads[t].pc.Idle? && PcOk(s, s.threads[t].pc)
    requires StandsAt(s, ts) && StandsAt(Step(s, t, r), ts) && |Step(s, t, r).threads| == |s.threads|
    ensures One(Owes(s.threads[t], ts)) == One(Owes(Step(s, t, r).threads[t], ts)) + One(Decrements(s, t, ts))
  {
    if InRange(s.threads[t].pc) {
      RangeOwes(s, t, r, ts);
    } else if InFree(s.threads[t].pc) {
      FreeOwes(s, t, r, ts);
    } else {
      CheckinOwes(s, t, r, ts);
    }
  }

  /** A thread stops owing a timestamp by decrementing it, and in no other way; nobody starts to owe an old one. */
  lemma OwesUntilDecrement(s: State, s': State, t: nat, u: nat, ts: nat)
    requires Inv(s) && Next(s, s', t) && StandsAt(s, ts) && StandsAt(s', ts)
    ensures One(OwesAt(s, u, ts)) == One(OwesAt(s', u, ts)) + One(t == u && Decrements(s, u, ts))
  {
    StepFrame(s, s', t);
    if u == t {
      if q :| Begins(s, s', t, q) {
        assert From(s'.threads[t]) == From(s.threads[t]);
      } else {
        var r: nat :| Moves(s, s', t, r);
        MoverOwes(s, t, r, ts);
      }
    }
  }

  /** The decrement that sees zero is the one with which the last thread stops owing. */
  lemma ZeroEndsOwing(s: State, s': State, t: nat, ts: nat)
    requires Inv(s) && Next(s, s', t) && StandsAt(s, ts) && StandsAt(s', ts)
    ensures SeesZero(s, t, ts) <==> Owers(s.threads, ts) != {} && Owers(s'.threads, ts) == {}
    ensures Owers(s.threads, ts) == {} ==> Owers(s'.threads, ts) == {}
  {
    forall u: nat ensures u in Owers(s'.threads, ts) <==> u in Owers(s.threads, ts) && !(u == t && Decrements(s, t, ts)) {
      OwesUntilDecrement(s, s', t, u, ts);
    }
    if Decrements(s, t, ts) {
      LastDecrementSeesZero(s, t);
      DecrementOwes(s, t);
      assert Owers(s'.threads, ts) == Owers(s.threads, ts) - {t};
    } else {
      assert Owers(s'.threads, ts) == Owers(s.threads, ts);
    }
  }

  lemma DecrementOwes(s: State, t: nat)
    requires Inv(s) && t < |s.threads| && s.threads[t].pc.Decrement?
    ensures Owes(s.threads[t], s.threads[t].pc.at)
  {
    assert ThreadOk(s, s.threads[t]);
  }

  /** When a timestamp is made, exactly the registered threads owe it, and the count to be added is their number. */
  lemma MadeForMembers(s: State, s': State, t: nat, ts: nat)
    requires Inv(s) && Next(s, s', t) && Makes(s, s', ts)
    ensures Owers(s'.threads, ts) == Members(s.threads) != {} && Members(s'.threads) == Members(s.threads)
    ensures t < |s'.threads| && s'.threads[t].pc.FreeCount? && s'.threads[t].pc.ts == ts && s'.threads[t].pc.n == |Members(s.threads)|
  {
    StepFrame(s, s', t);
    var r: nat :| Moves(s, s', t, r);
    OnlyFreeMakes(s, t, r);
    var th := s.threads[t];
    assert ThreadOk(s, th);
    NewTimestamp(s, t, th.pc.next, s'.threads[t]);
    assert s'.threads == s.threads[t := s'.threads[t]];
    assert t in Members(s.threads);
    assert forall u: nat :: u < |s.threads| ==> Registered(s'.threads[u]) == Registered(s.threads[u]);
  }

  lemma OnlyFreeMakes(s: State, t: nat, r: nat)
    requires Inv(s) && t < |s.threads| && !s.threads[t].pc.Idle? && PcOk(s, s.threads[t].pc)
    requires Shaped(Step(s, t, r)) && Cur(Step(s, t, r)).ts > Cur(s).ts
    ensures s.threads[t].pc.FreeCas? && s.wp == s.threads[t].pc.snap
    ensures Step(s, t, r).threads[t] == s.threads[t].(pc := FreeCount(s.threads[t].pc.item, s.threads[t].pc.next.ts, s.threads[t].pc.next.n))
  {
  }

  // -------------------------------------------------------------------------- runs

  lemma {:induction false} DecrementsAre(run: seq<State>, sched: seq<nat>, u: nat, ts: nat, c: nat, k: nat)
    requires IsRun(run, sched) && c <= k < |run| && Stands(run, ts, c, k)
    ensures One(OwesAt(run[c], u, ts)) == One(OwesAt(run[k], u, ts)) + DecrementsOf(run, sched, u, ts, c, k)
    decreases k
  {
    if c < k {
      var p := k - 1;
      DecrementsAre(run, sched, u, ts, c, p);
      RunsAreOk(run, sched, p);
      assert StepAt(run, sched, p);
      assert StandsAt(run[p], ts) && StandsAt(run[k], ts);
      OwesUntilDecrement(run[p], run[k], sched[p], u, ts);
    }
  }

  lemma {:induction false} ZerosAre(run: seq<State>, sched: seq<nat>, ts: nat, c: nat, k: nat)
    requires IsRun(run, sched) && c <= k < |run| && Stands(run, ts, c, k)
    ensures Owers(run[c].threads, ts) == {} ==> Owers(run[k].threads, ts) == {}
    ensures ZerosOf(run, sched, ts, c, k) == One(Owers(run[c].threads, ts) != {} && Owers(run[k].threads, ts) == {})
    decreases k
  {
    if c < k {
      var p := k - 1;
      ZerosAre(run, sched, ts, c, p);
      RunsAreOk(run, sched, p);
      assert StepAt(run, sched, p);
      assert StandsAt(run[p], ts) && StandsAt(run[k], ts);
      ZeroEndsOwing(run[p], run[k], sched[p], ts);
    }
  }

  /**
   The step from state `b` makes `ts`. Up to state `k`, every thread that was registered
   then has decremented `ts` once if it does not owe it any more, and not at all if it
   does; no other thread has decremented it.
   */
  lemma DecrementedOnceEach(run: seq<State>, sched: seq<nat>, b: nat, k: nat, ts: nat, u: nat)
    requires IsRun(run, sched) && b < k < |run| && Makes(run[b], run[b + 1], ts) && Stands(run, ts, b + 1, k)
    ensures DecrementsOf(run, sched, u, ts, b + 1, k)
            == if u in Members(run[b].threads) && u !in Owers(run[k].threads, ts) then 1 else 0
    ensures Owers(run[k].threads, ts) <= Members(run[b].threads)
  {
    RunsAreOk(run, sched, b);
    assert StepAt(run, sched, b);
    MadeForMembers(run[b], run[b + 1], sched[b], ts);
    forall v: nat ensures v in Owers(run[k].threads, ts) ==> v in Members(run[b].threads) {
      DecrementsAre(run, sched, v, ts, b + 1, k);
      assert v in Owers(run[b + 1].threads, ts) <==> OwesAt(run[b + 1], v, ts);
    }
    DecrementsAre(run, sched, u, ts, b + 1, k);
    assert u in Owers(run[b + 1].threads, ts) <==> OwesAt(run[b + 1], u, ts);
  }

  /** At most one decrement of `ts` sees zero, and exactly one has once nobody owes it any more. */
  lemma OneSeesZero(run: seq<State>, sched: seq<nat>, b: nat, k: nat, ts: nat)
    requires IsRun(run, sched) && b < k < |run| && Makes(run[b], run[b + 1], ts) && Stands(run, ts, b + 1, k)
    ensures ZerosOf(run, sched, ts, b + 1, k) == if Owers(run[k].threads, ts) == {} then 1 else 0
  {
    RunsAreOk(run, sched, b);
    assert StepAt(run, sched, b);
    MadeForMembers(run[b], run[b + 1], sched[b], ts);
    ZerosAre(run, sched, ts, b + 1, k);
  }
}
