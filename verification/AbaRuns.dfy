/**
 Whole runs of mulle-aba: a pointer is freed only after every thread that was
 registered when free was called has left or has been inside a checkin.
 */
module AbaRuns {
  import opened AbaModel
  import opened AbaInvariant
  import opened AbaProof

  /** The step from state `i`. */
  ghost predicate StepAt(run: seq<State>, sched: seq<nat>, i: nat) {
    i < |sched| && i + 1 < |run| && Next(run[i], run[i + 1], sched[i])
  }

  /** `run` lists the states, `sched[i]` is the thread that moves from state i to state i + 1. */
  ghost predicate IsRun(run: seq<State>, sched: seq<nat>) {
    && |run| == |sched| + 1
    && Init(run[0])
    && (forall i: nat :: i < |sched| ==> StepAt(run, sched, i))
  }

  /** In checkin or unregister. */
  predicate CheckingIn(pc: Pc) {
    pc.CheckinRead? || pc.SetBit? || pc.SetBitReread? || pc.RangeWorld? || InRange(pc) || pc.LeaveSwap?
  }

  predicate QuietAt(s: State, u: nat) {
    u < |s.threads| && Registered(s.threads[u]) && !CheckingIn(s.threads[u].pc)
  }

  /** From state `c` to state `k` thread `u` was registered and never in checkin or unregister. */
  ghost predicate Quiet(run: seq<State>, u: nat, c: nat, k: nat)
    requires k < |run|
  {
    forall j :: c <= j <= k ==> QuietAt(run[j], u)
  }

  // ---------------------------------------------------------------- one step

  lemma RunsAreOk(run: seq<State>, sched: seq<nat>, k: nat)
    requires IsRun(run, sched) && k < |run|
    ensures Inv(run[k]) && run[k].now == k && |run[k].threads| == |run[0].threads|
    decreases k
  {
    if k == 0 {
      InitOk(run[0]);
    } else {
      RunsAreOk(run, sched, k - 1);
      assert StepAt(run, sched, k - 1);
      NextKeeps(run[k - 1], run[k], sched[k - 1]);
      StepFrame(run[k - 1], run[k], sched[k - 1]);
    }
  }

  lemma FreeFrame(s: State, t: nat, r: nat)
    requires Shaped(s) && t < |s.threads| && PcOk(s, s.threads[t].pc) && InFree(s.threads[t].pc)
    ensures |Step(s, t, r).threads| == |s.threads| && Step(s, t, r).threads == s.threads[t := Step(s, t, r).threads[t]]
  {
  }

  lemma OtherFrame(s: State, t: nat, r: nat)
    requires Shaped(s) && t < |s.threads| && PcOk(s, s.threads[t].pc) && !s.threads[t].pc.Idle? && !InFree(s.threads[t].pc)
    ensures |Step(s, t, r).threads| == |s.threads| && Step(s, t, r).threads == s.threads[t := Step(s, t, r).threads[t]]
  {
  }

  /** A step is of one thread and takes one tick. */
  lemma StepFrame(s: State, s': State, t: nat)
    requires Next(s, s', t)
    ensures t < |s.threads| == |s'.threads| && s'.now == s.now + 1
    ensures forall u :: 0 <= u < |s.threads| && u != t ==> s'.threads[u] == s.threads[u]
  {
    if r: nat :| Moves(s, s', t, r) {
      if InFree(s.threads[t].pc) { FreeFrame(s, t, r); } else { OtherFrame(s, t, r); }
    }
  }

  /** A thread that stays quiet keeps owing what it owed. */
  lemma QuietKeepsOwing(s: State, s': State, t: nat, u: nat, ts: nat)
    requires Inv(s) && Next(s, s', t) && QuietAt(s, u) && QuietAt(s', u) && Owes(s.threads[u], ts)
    ensures Owes(s'.threads[u], ts)
  {
    StepFrame(s, s', t);
    if u == t {
      assert ThreadOk(s, s.threads[u]);
      assert s'.threads[u].last == s.threads[u].last;
    }
  }

  // ------------------------------------------------------ what the items wait for

  /** Everybody who has been quiet since the item was handed in owes `ts`. */
  ghost predicate Waits(run: seq<State>, k: nat, item: Item, ts: nat)
    requires k < |run|
  {
    item.called <= k && forall u: nat :: Quiet(run, u, item.called, k) ==> Owes(run[k].threads[u], ts)
  }

  /** Nobody but `t` has been quiet since the item was handed in. */
  ghost predicate OnlyQuiet(run: seq<State>, k: nat, item: Item, t: nat)
    requires k < |run|
  {
    item.called <= k && forall u: nat :: Quiet(run, u, item.called, k) ==> u == t
  }

  /** Nobody has been quiet since the item was handed in. */
  ghost predicate NoneQuiet(run: seq<State>, k: nat, item: Item)
    requires k < |run|
  {
    item.called <= k && forall u: nat :: !Quiet(run, u, item.called, k)
  }

  predicate HasTaken(pc: Pc) {
    pc.ClearList? || pc.ClearUsage? || pc.RunFrees?
  }

  predicate InFree(pc: Pc) {
    pc.FreeRead? || pc.FreeTry? || pc.FreeCas? || pc.FreeRetry? || pc.FreeReread? || pc.FreeCount? || pc.FreeAdd? || pc.FreeNow?
  }

  ghost predicate HandOk(run: seq<State>, k: nat, t: nat)
    requires k < |run| && t < |run[k].threads|
  {
    var pc := run[k].threads[t].pc;
    && (InFree(pc) ==> pc.item.called <= k && pc.item.thread == t)
    && (pc.FreeCount? || pc.FreeAdd? ==> Waits(run, k, pc.item, pc.ts))
    && (pc.FreeTry? && pc.snap.id < |run[k].worlds| && run[k].worlds[pc.snap.id].n <= 1 ==> OnlyQuiet(run, k, pc.item, t))
    && (pc.FreeNow? ==> OnlyQuiet(run, k, pc.item, t))
    && (HasTaken(pc) ==> forall item :: item in pc.taken ==> NoneQuiet(run, k, item))
  }

  ghost predicate ListsOk(run: seq<State>, k: nat)
    requires k < |run|
  {
    forall ts: nat, item :: item in EntryOf(run[k], ts).list ==> Waits(run, k, item, ts)
  }

  ghost predicate Safe(run: seq<State>, k: nat)
    requires k < |run|
  {
    ListsOk(run, k) && forall t :: 0 <= t < |run[k].threads| ==> HandOk(run, k, t)
  }

  // --------------------------------------------------------- waiting is preserved

  lemma QuietBefore(run: seq<State>, u: nat, c: nat, k: nat)
    requires k + 1 < |run| && c <= k && Quiet(run, u, c, k + 1)
    ensures Quiet(run, u, c, k) && QuietAt(run[k], u) && QuietAt(run[k + 1], u)
  {
  }

  lemma StillWaits(run: seq<State>, k: nat, t: nat, item: Item, ts: nat)
    requires k + 1 < |run| && Inv(run[k]) && Next(run[k], run[k + 1], t) && Waits(run, k, item, ts)
    ensures Waits(run, k + 1, item, ts)
  {
    var k' := k + 1;
    forall u: nat | Quiet(run, u, item.called, k') ensures Owes(run[k'].threads[u], ts) {
      QuietBefore(run, u, item.called, k);
      QuietKeepsOwing(run[k], run[k + 1], t, u, ts);
    }
  }

  lemma StillOnly(run: seq<State>, k: nat, item: Item, t: nat)
    requires k + 1 < |run| && OnlyQuiet(run, k, item, t)
    ensures OnlyQuiet(run, k + 1, item, t)
  {
    var k' := k + 1;
    forall u: nat | Quiet(run, u, item.called, k') ensures u == t {
      QuietBefore(run, u, item.called, k);
    }
  }

  lemma StillNone(run: seq<State>, k: nat, item: Item)
    requires k + 1 < |run| && NoneQuiet(run, k, item)
    ensures NoneQuiet(run, k + 1, item)
  {
    var k' := k + 1;
    forall u: nat ensures !Quiet(run, u, item.called, k') {
      if Quiet(run, u, item.called, k') { QuietBefore(run, u, item.called, k); }
    }
  }

  /** Worlds are never changed once they are made. */
  lemma WorldsOnlyGrow(s: State, s': State, t: nat)
    requires Next(s, s', t)
    ensures |s.worlds| <= |s'.worlds| && s'.worlds[..|s.worlds|] == s.worlds
  {
  }

  lemma SameHandOk(run: seq<State>, k: nat, t: nat, u: nat)
    requires k + 1 < |run| && Next(run[k], run[k + 1], t) && Inv(run[k])
    requires u < |run[k].threads| && HandOk(run, k, u)
    requires u < |run[k + 1].threads| && run[k + 1].threads[u] == run[k].threads[u]
    ensures HandOk(run, k + 1, u)
  {
    var pc := run[k].threads[u].pc;
    if pc.FreeCount? || pc.FreeAdd? { StillWaits(run, k, t, pc.item, pc.ts); }
    if pc.FreeNow? { StillOnly(run, k, pc.item, u); }
    if pc.FreeTry? {
      InvMeansPcOk(run[k], u);
      WorldsOnlyGrow(run[k], run[k + 1], t);
      assert run[k + 1].worlds[pc.snap.id] == run[k].worlds[pc.snap.id];
      if run[k].worlds[pc.snap.id].n <= 1 { StillOnly(run, k, pc.item, u); }
    }
    if HasTaken(pc) {
      forall item | item in pc.taken ensures NoneQuiet(run, k + 1, item) { StillNone(run, k, item); }
    }
  }

  // ------------------------------------------------------------- the mover's items

  /** The current world has one thread: nobody else is quiet. */
  lemma AloneMeansOnly(run: seq<State>, k: nat, t: nat, item: Item)
    requires k < |run| && Inv(run[k]) && t < |run[k].threads| && Registered(run[k].threads[t])
    requires Cur(run[k]).n <= 1 && item.called <= k
    ensures OnlyQuiet(run, k, item, t)
  {
    LastIsAlone(run[k], t);
    forall u: nat | Quiet(run, u, item.called, k) ensures u == t {
      assert QuietAt(run[k], u);
    }
  }

  /** With the bit clear every quiet thread owes the current timestamp. */
  lemma ClearBitMeansWaits(run: seq<State>, k: nat, item: Item)
    requires k < |run| && Inv(run[k]) && !run[k].wp.bit && item.called <= k
    ensures Waits(run, k, item, Cur(run[k]).ts)
  {
    forall u: nat | Quiet(run, u, item.called, k) ensures Owes(run[k].threads[u], Cur(run[k]).ts) {
      assert QuietAt(run[k], u);
      ClearBitMeansAllOwe(run[k], u);
    }
  }

  /** Everybody else has decremented `ts`: nobody is quiet any more. */
  lemma ReleasingMeansNone(run: seq<State>, k: nat, t: nat, item: Item)
    requires k < |run| && Inv(run[k]) && t < |run[k].threads| && run[k].threads[t].pc.TakeList?
    requires Waits(run, k, item, run[k].threads[t].pc.at)
    ensures NoneQuiet(run, k, item)
  {
    var s, ts := run[k], run[k].threads[t].pc.at;
    assert ThreadOk(s, s.threads[t]);
    assert EntryOk(EntryOf(s, ts), s.threads, ts) && Releases(s.threads[t], ts);
    forall u: nat | Quiet(run, u, item.called, k) ensures u in Owers(s.threads, ts) {
      assert QuietAt(s, u);
    }
  }

  lemma LookOk(run: seq<State>, k: nat, t: nat, r: nat)
    requires k + 1 < |run| && Inv(run[k]) && Inv(run[k + 1]) && Moves(run[k], run[k + 1], t, r)
    requires t < |run[k].threads| == |run[k + 1].threads| && HandOk(run, k, t)
    requires var pc := run[k].threads[t].pc; pc.FreeRead? || pc.FreeReread? || pc.FreeRetry?
    ensures HandOk(run, k + 1, t)
  {
    var s, s' := run[k], run[k + 1];
    var item, pc' := s.threads[t].pc.item, s'.threads[t].pc;
    assert ThreadOk(s, s.threads[t]);
    if Cur(s).n <= 1 { AloneMeansOnly(run, k + 1, t, item); }
    if pc'.FreeAdd? { ClearBitMeansWaits(run, k + 1, item); }
  }

  lemma FreeOk(run: seq<State>, k: nat, t: nat, r: nat)
    requires k + 1 < |run| && Inv(run[k]) && Inv(run[k + 1]) && Moves(run[k], run[k + 1], t, r)
    requires t < |run[k].threads| == |run[k + 1].threads| && HandOk(run, k, t)
    requires var pc := run[k].threads[t].pc; pc.FreeTry? || pc.FreeCas? || pc.FreeCount? || pc.FreeAdd? || pc.FreeNow?
    ensures HandOk(run, k + 1, t)
  {
    var pc, pc' := run[k].threads[t].pc, run[k + 1].threads[t].pc;
    assert Next(run[k], run[k + 1], t);
    if pc.FreeTry? && pc'.FreeNow? { StillOnly(run, k, pc.item, t); }
    if pc.FreeCas? && pc'.FreeCount? { ClearBitMeansWaits(run, k + 1, pc.item); }
    if pc.FreeCount? { StillWaits(run, k, t, pc.item, pc.ts); }
  }

  /** Where a taken pointer comes from. */
  lemma TakenFrom(s: State, t: nat, r: nat)
    requires Shaped(s) && t < |s.threads| && CheckingIn(s.threads[t].pc) && PcOk(s, s.threads[t].pc)
    requires t < |Step(s, t, r).threads| && HasTaken(Step(s, t, r).threads[t].pc)
    ensures var pc, taken := s.threads[t].pc, Step(s, t, r).threads[t].pc.taken;
            if pc.TakeList? then taken == EntryOf(s, pc.at).list
            else HasTaken(pc) && (taken == pc.taken || (pc.taken != [] && taken == pc.taken[1..]))
  {
  }

  /** Only a call of free gets into free. */
  lemma OutsideStaysOutside(s: State, t: nat, r: nat)
    requires Shaped(s) && t < |s.threads| && !s.threads[t].pc.Idle? && PcOk(s, s.threads[t].pc) && !InFree(s.threads[t].pc)
    ensures t < |Step(s, t, r).threads| && !InFree(Step(s, t, r).threads[t].pc)
  {
  }

  lemma TakenOk(run: seq<State>, k: nat, t: nat, r: nat)
    requires k + 1 < |run| && Inv(run[k]) && Moves(run[k], run[k + 1], t, r)
    requires t < |run[k].threads| == |run[k + 1].threads| && HandOk(run, k, t) && ListsOk(run, k) && CheckingIn(run[k].threads[t].pc)
    ensures HandOk(run, k + 1, t)
  {
    var s, pc, pc' := run[k], run[k].threads[t].pc, run[k + 1].threads[t].pc;
    OutsideStaysOutside(s, t, r);
    if HasTaken(pc') {
      TakenFrom(s, t, r);
      forall item | item in pc'.taken ensures NoneQuiet(run, k + 1, item) {
        if pc.TakeList? {
          assert item in EntryOf(s, pc.at).list;
          ReleasingMeansNone(run, k, t, item);
        } else {
          assert item in pc.taken;
        }
        StillNone(run, k, item);
      }
    }
  }

  lemma MoverOk(run: seq<State>, k: nat, t: nat, r: nat)
    requires k + 1 < |run| && Inv(run[k]) && Inv(run[k + 1]) && Moves(run[k], run[k + 1], t, r)
    requires t < |run[k].threads| == |run[k + 1].threads| && HandOk(run, k, t) && ListsOk(run, k)
    ensures HandOk(run, k + 1, t)
  {
    var pc := run[k].threads[t].pc;
    if CheckingIn(pc) {
      TakenOk(run, k, t, r);
    } else if pc.FreeRead? || pc.FreeReread? || pc.FreeRetry? {
      LookOk(run, k, t, r);
    } else if InFree(pc) {
      FreeOk(run, k, t, r);
    }
  }

  // ------------------------------------------------------------------- the lists

  /** Where a pointer on a list comes from. */
  lemma ListedBefore(s: State, s': State, t: nat, ts: nat, item: Item)
    requires Next(s, s', t) && item in EntryOf(s', ts).list && t < |s.threads|
    ensures item in EntryOf(s, ts).list
            || (s.threads[t].pc.FreeAdd? && s.threads[t].pc.ts == ts && item == s.threads[t].pc.item)
  {
    if q :| Begins(s, s', t, q) {
      assert EntryOf(s', ts) == EntryOf(s, ts);
    } else {
      var r: nat :| Moves(s, s', t, r);
      var pc := s.threads[t].pc;
      if pc.FreeAdd? && pc.ts == ts {
        assert EntryOf(s', ts).list == [pc.item] + EntryOf(s, ts).list;
      } else {
        ListShrinks(s, t, r, ts);
      }
    }
  }

  lemma ListShrinks(s: State, t: nat, r: nat, ts: nat)
    requires Shaped(s) && t < |s.threads| && !s.threads[t].pc.Idle? && PcOk(s, s.threads[t].pc)
    requires !(s.threads[t].pc.FreeAdd? && s.threads[t].pc.ts == ts)
    ensures EntryOf(Step(s, t, r), ts).list == EntryOf(s, ts).list || EntryOf(Step(s, t, r), ts).list == []
  {
  }

  lemma ListsStay(run: seq<State>, k: nat, t: nat)
    requires k + 1 < |run| && Inv(run[k]) && Next(run[k], run[k + 1], t) && Safe(run, k) && t < |run[k].threads|
    ensures ListsOk(run, k + 1)
  {
    var k' := k + 1;
    forall ts: nat, item | item in EntryOf(run[k'], ts).list ensures Waits(run, k', item, ts) {
      ListedBefore(run[k], run[k + 1], t, ts, item);
      if item !in EntryOf(run[k], ts).list { assert HandOk(run, k, t); }
      StillWaits(run, k, t, item, ts);
    }
  }

  // ------------------------------------------------------------------ whole runs

  lemma StaysSafe(run: seq<State>, k: nat, t: nat)
    requires k + 1 < |run| && Next(run[k], run[k + 1], t) && Inv(run[k]) && Inv(run[k + 1]) && Safe(run, k) && run[k].now == k
    ensures Safe(run, k + 1)
  {
    var k' := k + 1;
    var s, s' := run[k], run[k'];
    StepFrame(s, s', t);
    ListsStay(run, k, t);
    forall u | 0 <= u < |s'.threads| ensures HandOk(run, k', u) {
      assert HandOk(run, k, u);
      if u != t {
        SameHandOk(run, k, t, u);
      } else if r: nat :| Moves(s, s', t, r) {
        MoverOk(run, k, t, r);
      }
    }
  }

  lemma RunsAreSafe(run: seq<State>, sched: seq<nat>, k: nat)
    requires IsRun(run, sched) && k < |run|
    ensures Safe(run, k)
    decreases k
  {
    if k > 0 {
      RunsAreSafe(run, sched, k - 1);
      RunsAreOk(run, sched, k - 1);
      RunsAreOk(run, sched, k);
      assert StepAt(run, sched, k - 1);
      StaysSafe(run, k - 1, sched[k - 1]);
    }
  }

  /** The step from state `k` runs the free callback of `item`. */
  predicate Frees(s: State, s': State, item: Item) {
    s'.freed == s.freed + [item]
  }

  /** A step frees at most one pointer, out of the hands of the thread that moves. */
  lemma FreedFrom(s: State, s': State, t: nat)
    requires Next(s, s', t) && t < |s.threads|
    ensures s'.freed == s.freed
            || (s.threads[t].pc.FreeNow? && Frees(s, s', s.threads[t].pc.item))
            || (s.threads[t].pc.RunFrees? && s.threads[t].pc.taken != [] && Frees(s, s', s.threads[t].pc.taken[0]))
  {
  }

  /**
   The promise of mulle-aba, in every run of any number of threads. When a pointer is
   freed, no thread but the one that called free has been registered, and outside
   checkin and unregister, all the time since the call. If that thread was not alone,
   the same holds of itself.
   */
  lemma FreedOnlyWhenUnseen(run: seq<State>, sched: seq<nat>, k: nat, item: Item, u: nat)
    requires IsRun(run, sched) && k < |sched| && Frees(run[k], run[k + 1], item)
    ensures item.called <= k
    ensures Quiet(run, u, item.called, k) ==> u == item.thread
    ensures Quiet(run, u, item.called, k) ==> sched[k] == u && run[k].threads[u].pc == FreeNow(item)
  {
    RunsAreSafe(run, sched, k);
    var t := sched[k];
    assert StepAt(run, sched, k);
    StepFrame(run[k], run[k + 1], t);
    FreedFrom(run[k], run[k + 1], t);
    assert HandOk(run, k, t);
    var pc, n := run[k].threads[t].pc, |run[k].freed|;
    assert item == run[k + 1].freed[n];
    if pc.RunFrees? {
      assert item == pc.taken[0] && NoneQuiet(run, k, pc.taken[0]);
    } else {
      assert item == pc.item;
    }
  }
}
