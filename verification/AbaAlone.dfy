/**
 A call of mulle-aba that runs alone can end: from every state of every run, if only one
 thread goes on, and finds no storage to reuse, it gets to the end of its call.
 */
module AbaAlone {
  import opened AbaModel
  import opened AbaInvariant
  import opened AbaProof
  import opened AbaRuns
  import opened Ranks

  // --------------------------------------------------------------------- ranks

  /** The world that the call looks at is current, and has settled all that is due. */
  predicate UpToDate(s: State, snap: WorldPointer, upto: nat)
    requires Shaped(s)
  {
    snap.id == s.wp.id && Cur(s).ts == upto
  }

  /** unregister goes round again if the world has moved on. */
  function Again(s: State, leaving: bool, current: bool): nat {
    if leaving && !current then 2 else 0
  }

  function RangeRank(s: State, pc: Pc, stage: nat, probe: nat): Rank
    requires Shaped(s) && InRange(pc)
  {
    Rank(Again(s, pc.leaving, UpToDate(s, pc.snap, pc.upto)), 3, Minus(pc.upto + 1, pc.at), stage, probe)
  }

  /** With this world and this mode free gets to its swap, or to free at once. */
  predicate Sure(s: State, mode: Mode)
    requires Shaped(s)
  {
    && !(mode.Grow? && Cur(s).size >= mode.target)
    && (Cur(s).n <= 1 || (s.wp.bit && NextWorld(Cur(s), mode, 0) != []))
  }

  function RankOf(s: State, th: Thread): Rank
    requires Shaped(s)
  {
    match th.pc
    case Idle => Rank(0, 0, 0, 0, 0)
    case RegisterRead => Rank(0, 0, 0, 3, 0)
    case RegisterCas(snap) => Rank(0, 0, 0, if snap == s.wp then 2 else 4, 0)
    case CheckinRead(leaving) => Rank(if leaving then 1 else 0, 6, 0, 0, 0)
    case SetBit(leaving, snap, upto) =>
      Rank(Again(s, leaving, UpToDate(s, snap, upto)), 5, 0, 0, if snap.bit || snap == s.wp then 1 else 3)
    case SetBitReread(leaving, upto) => Rank(Again(s, leaving, Cur(s).ts == upto), 5, 0, 0, 2)
    case RangeWorld(upto) => Rank(0, 4, 0, 0, 0)
    case Decrement(_, _, _, _) => RangeRank(s, th.pc, 5, 0)
    case TakeList(_, _, _, _) => RangeRank(s, th.pc, 4, 0)
    case ClearList(_, _, _, _, _) => RangeRank(s, th.pc, 3, 0)
    case ClearUsage(_, _, _, _, _) => RangeRank(s, th.pc, 2, 0)
    case RunFrees(_, _, _, _, taken) => RangeRank(s, th.pc, 1, |taken|)
    case LeaveSwap(snap, upto) => Rank(Again(s, true, UpToDate(s, snap, upto)), 2, 0, 0, 0)
    case FreeRead(_) => Rank(0, 0, 0, 6, 0)
    case FreeTry(_, snap, mode) => Rank(0, 0, 0, if snap != s.wp then 10 else if Sure(s, mode) then 4 else 7, 0)
    case FreeCas(_, snap, _, _) => Rank(0, 0, 0, if snap == s.wp then 3 else 9, 0)
    case FreeRetry(_, mode) => Rank(0, 0, 0, if Sure(s, mode) then 5 else 8, 0)
    case FreeReread(_) => Rank(0, 0, 0, 6, 0)
    case FreeCount(_, _, _) => Rank(0, 0, 0, 2, 0)
    case FreeAdd(_, _) => Rank(0, 0, 0, 1, 0)
    case FreeNow(_) => Rank(0, 0, 0, 1, 0)
  }

  predicate CanMove(s: State, t: nat) {
    Shaped(s) && t < |s.threads| && PcOk(s, s.threads[t].pc) && !s.threads[t].pc.Idle?
  }

  /** The step ends the call or brings it nearer to its end. */
  predicate Descends(s: State, t: nat)
    requires CanMove(s, t)
  {
    var s' := Step(s, t, 0);
    && Shaped(s') && t < |s'.threads|
    && (s'.threads[t].pc.Idle? || Lower(RankOf(s', s'.threads[t]), RankOf(s, s.threads[t])))
  }

  // ------------------------------------------------------------ register, checkin

  lemma RegisterDescends(s: State, t: nat)
    requires CanMove(s, t) && (s.threads[t].pc.RegisterRead? || s.threads[t].pc.RegisterCas?)
    ensures Descends(s, t)
  {
  }

  lemma CheckinDescends(s: State, t: nat)
    requires CanMove(s, t) && (s.threads[t].pc.CheckinRead? || s.threads[t].pc.SetBitReread? || s.threads[t].pc.RangeWorld?)
    ensures Descends(s, t)
  {
  }

  lemma SetBitDescends(s: State, t: nat)
    requires CanMove(s, t) && s.threads[t].pc.SetBit?
    ensures Descends(s, t)
  {
  }

  lemma ReleaseDescends(s: State, t: nat)
    requires CanMove(s, t) && Releasing(s.threads[t].pc)
    ensures Descends(s, t)
  {
  }

  lemma RangeDescends(s: State, t: nat)
    requires CanMove(s, t) && (s.threads[t].pc.Decrement? || s.threads[t].pc.RunFrees?)
    requires s.threads[t].pc.Decrement? ==> s.threads[t].pc.at <= s.threads[t].pc.upto
    ensures Descends(s, t)
  {
  }

  lemma LeaveDescends(s: State, t: nat)
    requires CanMove(s, t) && s.threads[t].pc.LeaveSwap?
    ensures Descends(s, t)
  {
  }

  // -------------------------------------------------------------------------- free

  /** What free decides, when it finds nothing to reuse, leads to the end. */
  predicate Decided(s: State, pc: Pc)
    requires Shaped(s)
  {
    || pc.FreeAdd? || pc.FreeNow?
    || (pc.FreeTry? && pc.snap == s.wp && Sure(s, pc.mode))
    || (pc.FreeRetry? && Sure(s, pc.mode))
  }

  /** There is room for one more timestamp in one more storage. */
  lemma OneMoreFits(w: World)
    requires WorldOk(w)
    ensures w.ts + 1 < w.offset + (w.stores + 1) * ENTRIES
  {
  }

  lemma DecideIsSure(s: State, t: nat, item: Item)
    requires Inv(s) && t < |s.threads| && Registered(s.threads[t])
    ensures Decided(s, Decide(item, Cur(s), s.wp, 0))
  {
    var w := Cur(s);
    assert WorldOk(w);
    OneMoreFits(w);
  }

  lemma LookDescends(s: State, t: nat)
    requires CanMove(s, t) && Inv(s) && (s.threads[t].pc.FreeRead? || s.threads[t].pc.FreeReread?)
    ensures Descends(s, t)
  {
    assert ThreadOk(s, s.threads[t]);
    DecideIsSure(s, t, s.threads[t].pc.item);
  }

  lemma TryDescends(s: State, t: nat)
    requires CanMove(s, t) && (s.threads[t].pc.FreeTry? || s.threads[t].pc.FreeRetry?)
    ensures Descends(s, t)
  {
  }

  lemma AddDescends(s: State, t: nat)
    requires CanMove(s, t)
    requires var pc := s.threads[t].pc; pc.FreeCas? || pc.FreeCount? || pc.FreeAdd? || pc.FreeNow?
    ensures Descends(s, t)
  {
  }

  /** Every step of a call that runs alone ends it or brings it nearer to its end. */
  lemma StepDescends(s: State, t: nat)
    requires CanMove(s, t) && Inv(s)
    ensures Descends(s, t)
  {
    var pc := s.threads[t].pc;
    if pc.RegisterRead? || pc.RegisterCas? {
      RegisterDescends(s, t);
    } else if pc.SetBit? {
      SetBitDescends(s, t);
    } else if Releasing(pc) {
      ReleaseDescends(s, t);
    } else if InRange(pc) {
      assert ThreadOk(s, s.threads[t]);
      RangeDescends(s, t);
    } else if pc.LeaveSwap? {
      LeaveDescends(s, t);
    } else if pc.FreeRead? || pc.FreeReread? {
      LookDescends(s, t);
    } else if pc.FreeTry? || pc.FreeRetry? {
      TryDescends(s, t);
    } else if InFree(pc) {
      AddDescends(s, t);
    } else {
      CheckinDescends(s, t);
    }
  }

  // ----------------------------------------------------------------------- runs

  lemma LastCanMove(run: seq<State>, sched: seq<nat>, t: nat)
    requires IsRun(run, sched) && t < |run[|run| - 1].threads| && !run[|run| - 1].threads[t].pc.Idle?
    ensures Inv(run[|run| - 1]) && CanMove(run[|run| - 1], t) && Finds(run[|run| - 1], t, 0)
  {
    var s := run[|sched|];
    RunsAreOk(run, sched, |sched|);
    InvMeansPcOk(s, t);
    var pc := s.threads[t].pc;
    if pc.FreeTry? { assert WorldOk(s.worlds[pc.snap.id]); }
  }

  lemma RunGoesOn(run: seq<State>, sched: seq<nat>, t: nat, s': State)
    requires IsRun(run, sched) && Moves(run[|sched|], s', t, 0)
    ensures IsRun(run + [s'], sched + [t])
  {
    var run', sched' := run + [s'], sched + [t];
    assert Next(run[|sched|], s', t);
    forall i: nat | i < |sched'| ensures StepAt(run', sched', i) {
      if i < |sched| {
        assert StepAt(run, sched, i);
      }
    }
  }

  function LastRank(run: seq<State>, t: nat): Rank
    requires run != [] && Shaped(run[|run| - 1]) && t < |run[|run| - 1].threads|
  {
    RankOf(run[|run| - 1], run[|run| - 1].threads[t])
  }

  lemma OneStepAlone(run: seq<State>, sched: seq<nat>, t: nat) returns (s': State)
    requires IsRun(run, sched) && CanMove(run[|run| - 1], t)
    ensures IsRun(run + [s'], sched + [t]) && Shaped(s') && t < |s'.threads|
    ensures s'.threads[t].pc.Idle? || Lower(LastRank(run + [s'], t), LastRank(run, t))
  {
    var s := run[|sched|];
    LastCanMove(run, sched, t);
    StepDescends(s, t);
    s' := Step(s, t, 0).(now := s.now + 1);
    assert Moves(s, s', t, 0);
    RunGoesOn(run, sched, t, s');
    RankIgnoresTime(Step(s, t, 0), s.now + 1, t);
  }

  lemma RankIgnoresTime(s: State, now: nat, t: nat)
    requires Shaped(s) && t < |s.threads|
    ensures RankOf(s.(now := now), s.threads[t]) == RankOf(s, s.threads[t])
  {
  }

  /** From every state of every run: thread `t`, going on alone, can end its call. */
  lemma {:induction false} EndsAlone(run: seq<State>, sched: seq<nat>, t: nat) returns (more: seq<State>)
    requires IsRun(run, sched) && Shaped(run[|run| - 1]) && t < |run[|run| - 1].threads|
    ensures IsRun(run + more, sched + seq(|more|, _ => t))
    ensures var s := (run + more)[|run + more| - 1]; t < |s.threads| && s.threads[t].pc.Idle?
    decreases LastRank(run, t).need, LastRank(run, t).phase, LastRank(run, t).slot, LastRank(run, t).stage, LastRank(run, t).probe
  {
    if run[|run| - 1].threads[t].pc.Idle? {
      more := [];
      assert run + more == run && sched + seq(|more|, _ => t) == sched;
    } else {
      LastCanMove(run, sched, t);
      var s' := OneStepAlone(run, sched, t);
      if s'.threads[t].pc.Idle? {
        more := [s'];
        assert sched + seq(|more|, _ => t) == sched + [t];
      } else {
        var rest := EndsAlone(run + [s'], sched + [t], t);
        more := [s'] + rest;
        assert run + more == run + [s'] + rest;
        StepsOf(sched, t, |rest|);
      }
    }
  }
}
