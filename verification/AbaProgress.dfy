/**
 What the calls of mulle-aba achieve, over whole runs: a thread that has registered is
 counted, one that has checked in owes nothing older than its call, one that has
 unregistered owes nothing at all; and so a pointer is freed as soon as everybody who
 was registered after the call of free has checked in or left.
 */
module AbaProgress {
  import opened AbaModel
  import opened AbaInvariant
  import opened AbaProof
  import opened AbaRuns
  import opened AbaConservation
  import opened AbaAccounting

  /** In state i thread `t` is in a call. */
  predicate BusyAt(s: State, t: nat) {
    t < |s.threads| && !s.threads[t].pc.Idle?
  }

  /** Thread `t` makes the call `q` with the step from state b, and is done with it in state k. */
  ghost predicate Performs(run: seq<State>, sched: seq<nat>, t: nat, q: Request, b: nat, k: nat) {
    && IsRun(run, sched) && b < k < |run| && Begins(run[b], run[b + 1], t, q)
    && (forall i :: b < i < k ==> BusyAt(run[i], t))
    && t < |run[k].threads| && run[k].threads[t].pc.Idle?
  }

  // -------------------------------------------------------- checkin and unregister

  /** Where a thread may be in the call, and up to which timestamp it will have settled then. */
  predicate Heading(th: Thread, leaving: bool, ts: nat) {
    match th.pc
    case CheckinRead(l) => l == leaving
    case SetBit(l, _, upto) => l == leaving && ts <= upto
    case SetBitReread(l, upto) => l == leaving && ts <= upto
    case RangeWorld(upto) => !leaving && ts <= upto
    case Decrement(l, _, _, upto) => l == leaving && ts <= upto
    case TakeList(l, _, _, upto) => l == leaving && ts <= upto
    case ClearList(l, _, _, upto, _) => l == leaving && ts <= upto
    case ClearUsage(l, _, _, upto, _) => l == leaving && ts <= upto
    case RunFrees(l, _, _, upto, _) => l == leaving && ts <= upto
    case LeaveSwap(_, _) => leaving
    case _ => false
  }

  /** In the call that checks in, or with `leaving` unregisters, and on the way to settle all up to `ts`. */
  predicate Settling(s: State, th: Thread, leaving: bool, ts: nat) {
    Shaped(s) && ts <= Cur(s).ts && Registered(th) && Heading(th, leaving, ts)
  }

  /** Done: after a checkin the thread owes nothing up to `ts`, after unregister it is gone. */
  predicate Settled(th: Thread, leaving: bool, ts: nat) {
    if leaving then !Registered(th) else Registered(th) && ts < From(th)
  }

  ghost predicate SettlesOn(s: State, th: Thread, leaving: bool, ts: nat) {
    if th.pc.Idle? then Settled(th, leaving, ts) else Settling(s, th, leaving, ts)
  }

  lemma SettlingInRange(s: State, t: nat, r: nat, leaving: bool, ts: nat)
    requires Shaped(s) && t < |s.threads| && InRange(s.threads[t].pc) && PcOk(s, s.threads[t].pc)
    requires Settling(s, s.threads[t], leaving, ts)
    requires Shaped(Step(s, t, r)) && t < |Step(s, t, r).threads|
    ensures SettlesOn(Step(s, t, r), Step(s, t, r).threads[t], leaving, ts)
  {
  }

  lemma SettlingOutside(s: State, t: nat, r: nat, leaving: bool, ts: nat)
    requires Inv(s) && t < |s.threads| && !InRange(s.threads[t].pc) && PcOk(s, s.threads[t].pc)
    requires Settling(s, s.threads[t], leaving, ts)
    requires Shaped(Step(s, t, r)) && t < |Step(s, t, r).threads|
    ensures SettlesOn(Step(s, t, r), Step(s, t, r).threads[t], leaving, ts)
  {
    assert ThreadOk(s, s.threads[t]);
  }

  /** Time goes back only when the last thread leaves. */
  lemma OnlyResetGoesBack(s: State, u: nat, r: nat)
    requires Inv(s) && u < |s.threads| && !s.threads[u].pc.Idle? && PcOk(s, s.threads[u].pc)
    requires Shaped(Step(s, u, r)) && Cur(Step(s, u, r)).ts < Cur(s).ts
    ensures s.threads[u].pc.LeaveSwap? && Cur(s).n <= 1 && Registered(s.threads[u])
  {
    assert ThreadOk(s, s.threads[u]);
  }

  /** While a thread is registered time does not go back. */
  lemma TimeGoesOn(s: State, s': State, u: nat, t: nat)
    requires Inv(s) && Shaped(s') && Next(s, s', u) && t < |s.threads| && u != t && Registered(s.threads[t])
    ensures Cur(s).ts <= Cur(s').ts
  {
    if r: nat :| Moves(s, s', u, r) {
      if Cur(s').ts < Cur(s).ts {
        OnlyResetGoesBack(s, u, r);
        LastIsAlone(s, u);
      }
    }
  }

  lemma SettlingStep(s: State, s': State, u: nat, t: nat, leaving: bool, ts: nat)
    requires Inv(s) && Shaped(s') && Next(s, s', u) && t < |s.threads| == |s'.threads| && Settling(s, s.threads[t], leaving, ts)
    ensures SettlesOn(s', s'.threads[t], leaving, ts)
  {
    StepFrame(s, s', u);
    if u != t {
      TimeGoesOn(s, s', u, t);
    } else {
      var r: nat :| Moves(s, s', u, r);
      if InRange(s.threads[t].pc) { SettlingInRange(s, t, r, leaving, ts); } else { SettlingOutside(s, t, r, leaving, ts); }
    }
  }

  lemma SettlingBegins(s: State, s': State, t: nat, q: Request)
    requires Shaped(s) && Begins(s, s', t, q) && (q.Checkin? || q.Unregister?) && Registered(s.threads[t])
    ensures t < |s'.threads| && !s'.threads[t].pc.Idle? && Settling(s', s'.threads[t], q.Unregister?, Cur(s).ts)
  {
  }

  lemma {:induction false} SettlesInTheEnd(run: seq<State>, sched: seq<nat>, t: nat, q: Request, b: nat, k: nat, i: nat)
    requires Performs(run, sched, t, q, b, k) && (q.Checkin? || q.Unregister?) && b < i <= k
    requires Shaped(run[b]) && Registered(run[b].threads[t])
    ensures t < |run[i].threads| && SettlesOn(run[i], run[i].threads[t], q.Unregister?, Cur(run[b]).ts)
    decreases i
  {
    if i == b + 1 {
      SettlingBegins(run[b], run[i], t, q);
    } else {
      var p := i - 1;
      SettlesInTheEnd(run, sched, t, q, b, k, p);
      RunsAreOk(run, sched, p);
      RunsAreOk(run, sched, i);
      assert StepAt(run, sched, p);
      assert BusyAt(run[p], t);
      SettlingStep(run[p], run[i], sched[p], t, q.Unregister?, Cur(run[b]).ts);
    }
  }

  /** A registered thread that has checked in owes nothing up to the timestamp at which it began to. */
  lemma CheckinSettles(run: seq<State>, sched: seq<nat>, t: nat, b: nat, k: nat, ts: nat)
    requires Performs(run, sched, t, Checkin, b, k) && Registered(run[b].threads[t])
    requires Shaped(run[b]) && ts <= Cur(run[b]).ts
    ensures Registered(run[k].threads[t]) && !Owes(run[k].threads[t], ts)
  {
    SettlesInTheEnd(run, sched, t, Checkin, b, k, k);
  }

  /** A thread that has unregistered is not registered, and owes nothing. */
  lemma UnregisterLeaves(run: seq<State>, sched: seq<nat>, t: nat, b: nat, k: nat)
    requires Performs(run, sched, t, Unregister, b, k)
    ensures !Registered(run[k].threads[t]) && forall ts :: !Owes(run[k].threads[t], ts)
  {
    RunsAreOk(run, sched, b);
    if Registered(run[b].threads[t]) {
      SettlesInTheEnd(run, sched, t, Unregister, b, k, k);
    } else {
      IdleCall(run, sched, t, Unregister, b, k);
    }
  }

  /** checkin and unregister of an unregistered thread do nothing. */
  lemma IdleCall(run: seq<State>, sched: seq<nat>, t: nat, q: Request, b: nat, k: nat)
    requires Performs(run, sched, t, q, b, k) && (q.Checkin? || q.Unregister?) && !Registered(run[b].threads[t])
    ensures k == b + 1 && run[k].threads == run[b].threads
  {
    assert !BusyAt(run[b + 1], t);
    assert run[b + 1].threads == run[b].threads;
  }

  // ---------------------------------------------------------------------- register

  /** An unregistered thread becomes registered by the swap that counts it, which ends the call. */
  lemma StrangerMoves(s: State, t: nat, r: nat)
    requires Inv(s) && t < |s.threads| && !s.threads[t].pc.Idle? && PcOk(s, s.threads[t].pc) && !Registered(s.threads[t])
    ensures t < |Step(s, t, r).threads|
    ensures var th := Step(s, t, r).threads[t]; if th.pc.Idle? then th.last == Cur(s).ts + 1 else !Registered(th)
  {
    assert ThreadOk(s, s.threads[t]);
  }

  lemma StrangerStep(s: State, s': State, u: nat, t: nat)
    requires Inv(s) && Next(s, s', u) && BusyAt(s, t) && !Registered(s.threads[t])
    ensures t < |s'.threads|
    ensures if s'.threads[t].pc.Idle? then s'.threads[t].last == Cur(s).ts + 1 else !Registered(s'.threads[t])
  {
    StepFrame(s, s', u);
    if u == t {
      var r: nat :| Moves(s, s', u, r);
      StrangerMoves(s, t, r);
    }
  }

  lemma {:induction false} NotYetRegistered(run: seq<State>, sched: seq<nat>, t: nat, b: nat, k: nat, i: nat)
    requires Performs(run, sched, t, Register, b, k) && b < i < k
    ensures BusyAt(run[i], t) && !Registered(run[i].threads[t])
    decreases i
  {
    assert BusyAt(run[i], t);
    if i > b + 1 {
      NotYetRegistered(run, sched, t, b, k, i - 1);
      RunsAreOk(run, sched, i - 1);
      assert StepAt(run, sched, i - 1);
      StrangerStep(run[i - 1], run[i], sched[i - 1], t);
    }
  }

  /** A thread that has registered is registered, and owes what comes after the timestamp at which it was counted. */
  lemma RegisterRegisters(run: seq<State>, sched: seq<nat>, t: nat, b: nat, k: nat)
    requires Performs(run, sched, t, Register, b, k)
    ensures Shaped(run[k - 1]) && run[k].threads[t].last == Cur(run[k - 1]).ts + 1
  {
    assert !run[b + 1].threads[t].pc.Idle?;
    NotYetRegistered(run, sched, t, b, k, k - 1);
    RunsAreOk(run, sched, k - 1);
    assert StepAt(run, sched, k - 1);
    StrangerStep(run[k - 1], run[k], sched[k - 1], t);
  }

  // ----------------------------------------------------------------- the last one

  /** As after init: no timestamps, no storages, no entries. */
  predicate Fresh(s: State) {
    Shaped(s) && Cur(s) == World(0, 0, 0, 0, Cur(s).size) && s.entries == map[] && !s.wp.bit
  }

  predicate NobodyRegistered(s: State) {
    forall u :: 0 <= u < |s.threads| ==> !Registered(s.threads[u])
  }

  /** A strangers' step leaves the world alone, unless it registers the stranger. */
  lemma StrangerLeavesWorld(s: State, t: nat, r: nat)
    requires Inv(s) && t < |s.threads| && !s.threads[t].pc.Idle? && PcOk(s, s.threads[t].pc) && !Registered(s.threads[t])
    requires t < |Step(s, t, r).threads| && !Registered(Step(s, t, r).threads[t])
    ensures Step(s, t, r) == WithThread(s, t, Step(s, t, r).threads[t])
  {
    assert ThreadOk(s, s.threads[t]);
  }

  /** The thread that leaves as the last one takes the timestamps, the storages and the entries with it. */
  lemma LastResets(s: State, t: nat, r: nat)
    requires Inv(s) && t < |s.threads| && !s.threads[t].pc.Idle? && PcOk(s, s.threads[t].pc) && Registered(s.threads[t])
    requires t < |Step(s, t, r).threads| && !Registered(Step(s, t, r).threads[t])
    requires forall u :: 0 <= u < |s.threads| && u != t ==> !Registered(s.threads[u])
    ensures Fresh(Step(s, t, r))
  {
    assert ThreadOk(s, s.threads[t]);
    assert Members(s.threads) == {t};
  }

  lemma FreshStays(s: State, s': State, t: nat)
    requires Inv(s) && Next(s, s', t) && (NobodyRegistered(s) ==> Fresh(s))
    ensures NobodyRegistered(s') ==> Fresh(s')
  {
    StepFrame(s, s', t);
    if NobodyRegistered(s') {
      assert !Registered(s'.threads[t]);
      if r: nat :| Moves(s, s', t, r) {
        if Registered(s.threads[t]) { LastResets(s, t, r); } else { StrangerLeavesWorld(s, t, r); }
      }
    }
  }

  /** Whenever nobody is registered, everything is as after init: nothing piles up over the generations of threads. */
  lemma {:induction false} FreshWhenEmpty(run: seq<State>, sched: seq<nat>, k: nat)
    requires IsRun(run, sched) && k < |run|
    ensures NobodyRegistered(run[k]) ==> Fresh(run[k])
    decreases k
  {
    if k > 0 {
      FreshWhenEmpty(run, sched, k - 1);
      RunsAreOk(run, sched, k - 1);
      assert StepAt(run, sched, k - 1);
      FreshStays(run[k - 1], run[k], sched[k - 1]);
    }
  }

  // -------------------------------------------------------------------------- free

  /** No call of free has the item in its hands. */
  predicate HandedOver(s: State, item: Item) {
    forall u :: 0 <= u < |s.threads| && InFree(s.threads[u].pc) ==> s.threads[u].pc.item != item
  }

  lemma FreeKeepsItem(s: State, t: nat, r: nat)
    requires Shaped(s) && t < |s.threads| && PcOk(s, s.threads[t].pc) && InFree(s.threads[t].pc)
    ensures t < |Step(s, t, r).threads|
    ensures InFree(Step(s, t, r).threads[t].pc) ==> s.threads[t].pc.item == Step(s, t, r).threads[t].pc.item
  {
  }

  lemma StaysHandedOver(s: State, s': State, t: nat, item: Item)
    requires Next(s, s', t) && HandedOver(s, item) && item.called <= s.now
    ensures HandedOver(s', item)
  {
    StepFrame(s, s', t);
    if r: nat :| Moves(s, s', t, r) {
      if InFree(s.threads[t].pc) { FreeKeepsItem(s, t, r); } else { OutsideStaysOutside(s, t, r); }
    }
  }

  /** When free has returned, no call of free has its pointer any more. */
  lemma {:induction false} HandedOverFrom(run: seq<State>, sched: seq<nat>, t: nat, pointer: nat, b: nat, d: nat, k: nat)
    requires Performs(run, sched, t, Free(pointer), b, d) && d <= k < |run|
    ensures HandedOver(run[k], Item(pointer, t, b + 1))
    decreases k
  {
    if k == d {
      RunsAreSafe(run, sched, d);
      forall u | 0 <= u < |run[d].threads| && InFree(run[d].threads[u].pc) ensures run[d].threads[u].pc.item != Item(pointer, t, b + 1) {
        assert HandOk(run, d, u);
      }
    } else {
      HandedOverFrom(run, sched, t, pointer, b, d, k - 1);
      RunsAreOk(run, sched, k - 1);
      assert StepAt(run, sched, k - 1);
      StaysHandedOver(run[k - 1], run[k], sched[k - 1], Item(pointer, t, b + 1));
    }
  }

  /** What is on a list and in no hand has been on it before. */
  lemma ListedJustBefore(s: State, s': State, t: nat, ts: nat, item: Item)
    requires Next(s, s', t) && HandedOver(s, item) && item in EntryOf(s', ts).list
    ensures item in EntryOf(s, ts).list
  {
    StepFrame(s, s', t);
    ListedBefore(s, s', t, ts, item);
  }

  lemma ListedStands(s: State, ts: nat, item: Item)
    requires Inv(s) && item in EntryOf(s, ts).list
    ensures StandsAt(s, ts)
  {
  }

  /** What is still on a list has been there since free returned, and its timestamp has stood. */
  lemma {:induction false} ListedSince(run: seq<State>, sched: seq<nat>, t: nat, pointer: nat, b: nat, d: nat, k: nat, ts: nat)
    requires Performs(run, sched, t, Free(pointer), b, d) && d <= k < |run| && Item(pointer, t, b + 1) in EntryOf(run[k], ts).list
    ensures Stands(run, ts, d, k)
    decreases k
  {
    var item := Item(pointer, t, b + 1);
    RunsAreOk(run, sched, k);
    ListedStands(run[k], ts, item);
    if d < k {
      var p := k - 1;
      HandedOverFrom(run, sched, t, pointer, b, d, p);
      assert StepAt(run, sched, p);
      ListedJustBefore(run[p], run[k], sched[p], ts, item);
      ListedSince(run, sched, t, pointer, b, d, p, ts);
    }
  }

  /** Between the states d and k thread `u` has made a whole checkin, or was not registered at some time. */
  ghost predicate CaughtUp(run: seq<State>, sched: seq<nat>, u: nat, d: nat, k: nat) {
    || (exists b: nat, e: nat :: d <= b && e <= k && Performs(run, sched, u, Checkin, b, e))
    || (exists j: nat :: d <= j <= k && UnregisteredAt(run, u, j))
  }

  predicate UnregisteredAt(run: seq<State>, u: nat, j: nat) {
    j < |run| && u < |run[j].threads| && !Registered(run[j].threads[u])
  }

  /** Who has not owed a timestamp at some time does not owe it later. */
  lemma OwesNotAgain(run: seq<State>, sched: seq<nat>, u: nat, ts: nat, d: nat, j: nat, k: nat)
    requires IsRun(run, sched) && d <= j <= k < |run| && Stands(run, ts, d, k) && !OwesAt(run[j], u, ts)
    ensures !OwesAt(run[k], u, ts)
  {
    assert Stands(run, ts, j, k);
    DecrementsAre(run, sched, u, ts, j, k);
  }

  lemma CaughtUpOwesNot(run: seq<State>, sched: seq<nat>, u: nat, ts: nat, d: nat, k: nat)
    requires IsRun(run, sched) && d <= k < |run| && Stands(run, ts, d, k) && CaughtUp(run, sched, u, d, k)
    ensures !OwesAt(run[k], u, ts)
  {
    if j: nat :| d <= j <= k && UnregisteredAt(run, u, j) {
      OwesNotAgain(run, sched, u, ts, d, j, k);
    } else {
      var b: nat, e: nat :| d <= b && e <= k && Performs(run, sched, u, Checkin, b, e);
      assert StandsAt(run[b], ts);
      if Registered(run[b].threads[u]) {
        CheckinSettles(run, sched, u, b, e, ts);
        OwesNotAgain(run, sched, u, ts, d, e, k);
      } else {
        OwesNotAgain(run, sched, u, ts, d, b, k);
      }
    }
  }

  /** Nobody is in the middle of releasing a list. */
  predicate NobodyReleases(s: State) {
    forall u :: 0 <= u < |s.threads| ==> !Releasing(s.threads[u].pc) && !s.threads[u].pc.RunFrees?
  }

  lemma UnowedIsEmpty(s: State, ts: nat)
    requires Inv(s) && StandsAt(s, ts) && NobodyReleases(s) && forall u: nat :: u < |s.threads| ==> !Owes(s.threads[u], ts)
    ensures EntryOf(s, ts).list == []
  {
    assert Owers(s.threads, ts) == {};
    assert EntryOk(EntryOf(s, ts), s.threads, ts);
  }

  lemma NotListedAnyMore(run: seq<State>, sched: seq<nat>, t: nat, pointer: nat, b: nat, d: nat, k: nat, ts: nat)
    requires Performs(run, sched, t, Free(pointer), b, d) && d <= k < |run| && NobodyReleases(run[k])
    requires forall u: nat :: u < |run[d].threads| && Registered(run[d].threads[u]) ==> CaughtUp(run, sched, u, d, k)
    ensures Item(pointer, t, b + 1) !in EntryOf(run[k], ts).list
  {
    var s := run[k];
    if Item(pointer, t, b + 1) in EntryOf(s, ts).list {
      RunsAreOk(run, sched, k);
      ListedSince(run, sched, t, pointer, b, d, k, ts);
      assert StandsAt(s, ts);
      forall u: nat | u < |s.threads| ensures !Owes(s.threads[u], ts) {
        RunsAreOk(run, sched, d);
        if Registered(run[d].threads[u]) {
          CaughtUpOwesNot(run, sched, u, ts, d, k);
        } else {
          OwesNotAgain(run, sched, u, ts, d, d, k);
        }
      }
      UnowedIsEmpty(s, ts);
    }
  }

  lemma {:induction false} ListedNowhere(s: State, n: nat, item: Item)
    requires forall ts: nat :: 1 <= ts <= n ==> item !in EntryOf(s, ts).list
    ensures Listed(s, n, item) == 0
  {
    if n > 0 {
      ListedNowhere(s, n - 1, item);
      assert item !in EntryOf(s, n).list;
    }
  }

  /** What is in one place, but in no hand and on no list, has been freed. */
  lemma NoOtherPlace(s: State, item: Item)
    requires Shaped(s) && Total(s, item) == 1 && HandedOver(s, item) && NobodyReleases(s)
    requires forall ts: nat :: item !in EntryOf(s, ts).list
    ensures multiset(s.freed)[item] == 1
  {
    HandsEmpty(s.threads, item);
    ListedNowhere(s, Cur(s).ts, item);
  }

  lemma IsHandedIn(run: seq<State>, sched: seq<nat>, t: nat, pointer: nat, b: nat, d: nat)
    requires Performs(run, sched, t, Free(pointer), b, d)
    ensures HandedIn(run, sched, Item(pointer, t, b + 1), d)
  {
    RunsAreOk(run, sched, b);
    assert StepAt(run, sched, b);
    BeginsItself(run[b], run[b + 1], sched[b], t, Free(pointer));
  }

  /**
   The point of checking in. A thread has called free and the call has returned in state
   d. Once every thread that was registered then has made a whole checkin, or has left,
   the pointer has been freed, unless somebody is just about to.
   */
  lemma FreedOnceAllCaughtUp(run: seq<State>, sched: seq<nat>, t: nat, pointer: nat, b: nat, d: nat, k: nat)
    requires Performs(run, sched, t, Free(pointer), b, d) && d <= k < |run| && NobodyReleases(run[k])
    requires forall u: nat :: u < |run[d].threads| && Registered(run[d].threads[u]) ==> CaughtUp(run, sched, u, d, k)
    ensures multiset(run[k].freed)[Item(pointer, t, b + 1)] == 1
  {
    var item := Item(pointer, t, b + 1);
    IsHandedIn(run, sched, t, pointer, b, d);
    InOnePlace(run, sched, k, item);
    HandedOverFrom(run, sched, t, pointer, b, d, k);
    forall ts: nat ensures item !in EntryOf(run[k], ts).list { NotListedAnyMore(run, sched, t, pointer, b, d, k, ts); }
    NoOtherPlace(run[k], item);
  }

  lemma BeginsItself(s: State, s': State, u: nat, t: nat, q: Request)
    requires Next(s, s', u) && Begins(s, s', t, q) && q.Free?
    ensures u == t
  {
    StepFrame(s, s', u);
  }
}
