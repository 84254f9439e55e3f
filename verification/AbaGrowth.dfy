/**
 When mulle-aba makes room: a new world gets one more storage, or rotated ones, or more
 room for storages, only after some world was found without a storage for its next
 timestamp; it rotates or grows only after one was found without room for another.
 */
module AbaGrowth {
  import opened AbaModel
  import opened AbaInvariant
  import opened AbaRuns
  import opened AbaAccounting

  /** The world has no storage for its next timestamp. */
  predicate Lacks(w: World) {
    !HasEntry(w, w.ts + 1)
  }

  /** It lacks one and has room for it. */
  predicate HasRoom(w: World) {
    Lacks(w) && w.stores < w.size
  }

  /** It lacks one and has no room for it. */
  predicate IsFull(w: World) {
    Lacks(w) && w.stores >= w.size
  }

  ghost predicate SeenFull(worlds: seq<World>, size: nat) {
    exists i :: 0 <= i < |worlds| && IsFull(worlds[i]) && worlds[i].size == size
  }

  /** Some world gave reason for this way to get a timestamp. */
  ghost predicate HasReason(worlds: seq<World>, mode: Mode) {
    match mode
    case Plain => true
    case AddStorage => exists i :: 0 <= i < |worlds| && HasRoom(worlds[i])
    case Rotate => exists size :: SeenFull(worlds, size)
    case Grow(target) => target > 0 && SeenFull(worlds, target - 1)
  }

  ghost predicate ReasonOk(s: State, pc: Pc) {
    && (pc.FreeTry? || pc.FreeRetry? || pc.FreeCas? ==> HasReason(s.worlds, pc.mode))
    && (pc.FreeCas? ==> pc.snap.id < |s.worlds| && exists r: nat :: NextWorld(s.worlds[pc.snap.id], pc.mode, r) == [pc.next])
    && (pc.FreeCas? && pc.mode.Grow? ==> s.worlds[pc.snap.id].size < pc.mode.target)
  }

  /** Worlds stay, and with them the reasons. */
  lemma ReasonStays(worlds: seq<World>, worlds': seq<World>, mode: Mode)
    requires |worlds| <= |worlds'| && worlds'[..|worlds|] == worlds && HasReason(worlds, mode)
    ensures HasReason(worlds', mode)
  {
    assert forall i :: 0 <= i < |worlds| ==> worlds'[i] == worlds[i];
    if mode.Rotate? {
      var size :| SeenFull(worlds, size);
      assert SeenFull(worlds', size);
    }
  }

  lemma ReasonOkStays(s: State, s': State, t: nat, pc: Pc)
    requires Next(s, s', t) && ReasonOk(s, pc)
    ensures ReasonOk(s', pc)
  {
    WorldsOnlyGrow(s, s', t);
    if pc.FreeTry? || pc.FreeRetry? || pc.FreeCas? { ReasonStays(s.worlds, s'.worlds, pc.mode); }
    if pc.FreeCas? { assert s'.worlds[pc.snap.id] == s.worlds[pc.snap.id]; }
  }

  /** What free decides on the current world has a reason there. */
  lemma DecideHasReason(s: State, t: nat, item: Item, r: nat)
    requires Inv(s) && t < |s.threads| && Registered(s.threads[t])
    ensures ReasonOk(s, Decide(item, Cur(s), s.wp, r))
  {
    var w, pc := Cur(s), Decide(item, Cur(s), s.wp, r);
    assert ThreadOk(s, s.threads[t]) && WorldOk(w);
    assert t in Members(s.threads);
    if (pc.FreeTry? && pc.mode.Rotate?) || pc.FreeRetry? { assert SeenFull(s.worlds, w.size); }
  }

  lemma MoverHasReason(s: State, t: nat, r: nat)
    requires Inv(s) && t < |s.threads| && !s.threads[t].pc.Idle? && PcOk(s, s.threads[t].pc) && ReasonOk(s, s.threads[t].pc)
    requires InFree(s.threads[t].pc) && t < |Step(s, t, r).threads|
    ensures ReasonOk(s, Step(s, t, r).threads[t].pc)
  {
    assert ThreadOk(s, s.threads[t]);
    var pc := s.threads[t].pc;
    if pc.FreeRead? || pc.FreeReread? { DecideHasReason(s, t, pc.item, r); }
  }

  lemma ReasonsGoOn(s: State, s': State, t: nat, u: nat)
    requires Inv(s) && Next(s, s', t) && u < |s.threads| == |s'.threads| && ReasonOk(s, s.threads[u].pc)
    ensures ReasonOk(s', s'.threads[u].pc)
  {
    StepFrame(s, s', t);
    if u != t {
      ReasonOkStays(s, s', t, s.threads[u].pc);
    } else if r: nat :| Moves(s, s', t, r) {
      if InFree(s.threads[t].pc) {
        MoverHasReason(s, t, r);
        ReasonOkStays(s, s', t, s'.threads[t].pc);
      } else {
        OutsideStaysOutside(s, t, r);
      }
    }
  }

  lemma {:induction false} ReasonsAlways(run: seq<State>, sched: seq<nat>, k: nat, u: nat)
    requires IsRun(run, sched) && k < |run| && u < |run[k].threads|
    ensures ReasonOk(run[k], run[k].threads[u].pc)
    decreases k
  {
    if k > 0 {
      RunsAreOk(run, sched, k - 1);
      RunsAreOk(run, sched, k);
      ReasonsAlways(run, sched, k - 1, u);
      assert StepAt(run, sched, k - 1);
      ReasonsGoOn(run[k - 1], run[k], sched[k - 1], u);
    }
  }

  /** The new world is as before, has one storage more, has rotated, or has one storage more and more room. */
  ghost predicate Enlarged(worlds: seq<World>, w: World, w': World) {
    || w' == w.(ts := w.ts + 1)
    || (w' == w.(ts := w.ts + 1, stores := w.stores + 1) && w'.stores <= w.size && HasReason(worlds, AddStorage))
    || (w' == w.(ts := w.ts + 1, offset := w'.offset) && w'.offset > w.offset && HasReason(worlds, Rotate))
    || (w' == w.(ts := w.ts + 1, stores := w.stores + 1, size := w'.size) && w'.size > w.size && SeenFull(worlds, w'.size - 1))
  }

  lemma EnlargedByMode(worlds: seq<World>, w: World, mode: Mode, r: nat, next: World)
    requires NextWorld(w, mode, r) == [next] && HasReason(worlds, mode) && (mode.Grow? ==> w.size < mode.target)
    ensures Enlarged(worlds, w, next)
  {
  }

  /** A step that makes a timestamp enlarges the world only if some world of the run has given a reason. */
  lemma GrowsForAReason(run: seq<State>, sched: seq<nat>, k: nat, ts: nat)
    requires IsRun(run, sched) && k < |sched| && Makes(run[k], run[k + 1], ts)
    ensures Enlarged(run[k].worlds, Cur(run[k]), Cur(run[k + 1]))
  {
    var s, s', t := run[k], run[k + 1], sched[k];
    RunsAreOk(run, sched, k);
    assert StepAt(run, sched, k);
    StepFrame(s, s', t);
    ReasonsAlways(run, sched, k, t);
    var r: nat :| Moves(s, s', t, r);
    OnlyFreeMakes(s, t, r);
    var pc := s.threads[t].pc;
    var r0: nat :| NextWorld(s.worlds[pc.snap.id], pc.mode, r0) == [pc.next];
    EnlargedByMode(s.worlds, Cur(s), pc.mode, r0, pc.next);
  }
}
