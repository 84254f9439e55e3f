/**
 Where the storages of mulle-aba are. The machine names an entry by its timestamp; a
 world finds it through the storage pointer at index (timestamp - offset) / ENTRIES. As
 long as anybody owes a timestamp, that is the same storage in every world.
 */
module AbaLayout {
  import opened AbaModel
  import opened AbaInvariant
  import opened AbaProof
  import opened AbaRuns
  import opened AbaRotation
  import opened AbaAccounting

  /** How many storages have been rotated from `w` to `w'`. */
  function Turns(w: World, w': World): nat {
    if w.offset <= w'.offset then (w'.offset - w.offset) / ENTRIES else 0
  }

  /** `w'` has the storages of `w`, rotated, or one more at the end. */
  predicate Follows(w: World, w': World) {
    || (w'.stores == w.stores + 1 && w'.offset == w.offset)
    || (w'.stores == w.stores && w'.offset == w.offset + Turns(w, w') * ENTRIES && Turns(w, w') <= w.stores)
  }

  /** The storage pointers that go with it: see PushStorage and ReuseStorages of AbaRotation.WorldStruct. */
  predicate Derives(w: World, p: seq<Pointer>, w': World, p': seq<Pointer>) {
    && |p| == w.stores && |p'| == w'.stores && Follows(w, w')
    && (if w'.stores == w.stores + 1 then p' == p + [p'[|p|]] else p' == Rotated(p, Turns(w, w')))
  }

  /** The storage of timestamp `ts`. */
  function StorageOf(w: World, p: seq<Pointer>, ts: nat): Pointer
    requires HasEntry(w, ts) && |p| == w.stores
  {
    p[(ts - w.offset) / ENTRIES]
  }

  /** A timestamp that is not rotated out keeps its storage. */
  lemma StaysPut(w: World, p: seq<Pointer>, w': World, p': seq<Pointer>, ts: nat)
    requires Derives(w, p, w', p') && HasEntry(w, ts) && w'.offset <= ts
    ensures HasEntry(w', ts) && StorageOf(w', p', ts) == StorageOf(w, p, ts)
  {
    var i, r := (ts - w.offset) / ENTRIES, Turns(w, w');
    if w'.stores == w.stores {
      assert (ts - w'.offset) / ENTRIES == i - r;
      assert p'[i - r] == p[i];
    }
  }

  // -------------------------------------------------------------- the worlds follow

  /** Every way in which free makes a world of `w`. */
  lemma NextFollows(s: State, w: World, mode: Mode, r: nat)
    requires WorldOk(w) && NextWorld(w, mode, r) != [] && (mode.Rotate? ==> MayRotate(s, w, r))
    ensures Follows(w, NextWorld(w, mode, r)[0])
  {
    if mode.Rotate? {
      var w' := NextWorld(w, mode, r)[0];
      assert w'.offset == w.offset + r * ENTRIES && Turns(w, w') == r;
    }
  }

  /** A free that is about to swap in a world has made it of the one that it looked at. */
  predicate SwapFollows(s: State, pc: Pc) {
    pc.FreeCas? ==> pc.snap.id < |s.worlds| && Follows(s.worlds[pc.snap.id], pc.next)
  }

  ghost predicate SwapsFollow(s: State) {
    forall t {:trigger s.threads[t]} :: 0 <= t < |s.threads| ==> SwapFollows(s, s.threads[t].pc)
  }

  lemma OnlyTriesSwap(s: State, t: nat, r: nat)
    requires Shaped(s) && t < |s.threads| && !s.threads[t].pc.Idle? && PcOk(s, s.threads[t].pc) && !s.threads[t].pc.FreeTry?
    requires t < |Step(s, t, r).threads|
    ensures !Step(s, t, r).threads[t].pc.FreeCas?
  {
  }

  lemma TrySwapFollows(s: State, t: nat, r: nat)
    requires Inv(s) && t < |s.threads| && s.threads[t].pc.FreeTry? && PcOk(s, s.threads[t].pc) && Finds(s, t, r)
    requires t < |Step(s, t, r).threads|
    ensures SwapFollows(Step(s, t, r), Step(s, t, r).threads[t].pc)
  {
    var pc := s.threads[t].pc;
    assert WorldOk(s.worlds[pc.snap.id]);
    if NextWorld(s.worlds[pc.snap.id], pc.mode, r) != [] { NextFollows(s, s.worlds[pc.snap.id], pc.mode, r); }
  }

  lemma MoverSwapFollows(s: State, t: nat, r: nat)
    requires Inv(s) && t < |s.threads| && !s.threads[t].pc.Idle? && PcOk(s, s.threads[t].pc) && Finds(s, t, r)
    requires t < |Step(s, t, r).threads|
    ensures SwapFollows(Step(s, t, r), Step(s, t, r).threads[t].pc)
  {
    if s.threads[t].pc.FreeTry? { TrySwapFollows(s, t, r); } else { OnlyTriesSwap(s, t, r); }
  }

  lemma SwapsStillFollow(s: State, s': State, t: nat)
    requires Inv(s) && Next(s, s', t) && SwapsFollow(s)
    ensures SwapsFollow(s')
  {
    StepFrame(s, s', t);
    WorldsOnlyGrow(s, s', t);
    forall u | 0 <= u < |s'.threads| ensures SwapFollows(s', s'.threads[u].pc) {
      if u == t {
        if r: nat :| Moves(s, s', t, r) { MoverSwapFollows(s, t, r); }
      } else {
        assert SwapFollows(s, s.threads[u].pc);
        if s.threads[u].pc.FreeCas? { assert s'.worlds[s.threads[u].pc.snap.id] == s.worlds[s.threads[u].pc.snap.id]; }
      }
    }
  }

  lemma {:induction false} SwapsAlwaysFollow(run: seq<State>, sched: seq<nat>, k: nat)
    requires IsRun(run, sched) && k < |run|
    ensures SwapsFollow(run[k])
    decreases k
  {
    if k > 0 {
      SwapsAlwaysFollow(run, sched, k - 1);
      RunsAreOk(run, sched, k - 1);
      assert StepAt(run, sched, k - 1);
      SwapsStillFollow(run[k - 1], run[k], sched[k - 1]);
    }
  }

  /** A step leaves the world, replaces it by one that follows it, or resets it because the last thread leaves. */
  lemma WorldFollows(s: State, s': State, t: nat)
    requires Inv(s) && Next(s, s', t) && SwapsFollow(s) && Shaped(s')
    ensures s'.wp.id == s.wp.id ==> Cur(s') == Cur(s)
    ensures s'.wp.id != s.wp.id && Cur(s').ts >= Cur(s).ts && Cur(s).ts > 0 ==> Follows(Cur(s), Cur(s'))
    ensures Cur(s').ts < Cur(s).ts ==> forall u :: 0 <= u < |s'.threads| ==> !Registered(s'.threads[u])
  {
    StepFrame(s, s', t);
    WorldsOnlyGrow(s, s', t);
    if r: nat :| Moves(s, s', t, r) {
      assert ThreadOk(s, s.threads[t]);
      assert SwapFollows(s, s.threads[t].pc);
      MoveFollows(s, t, r);
    }
  }

  lemma MoveFollows(s: State, t: nat, r: nat)
    requires Inv(s) && t < |s.threads| && !s.threads[t].pc.Idle? && PcOk(s, s.threads[t].pc) && SwapFollows(s, s.threads[t].pc)
    requires Shaped(Step(s, t, r))
    ensures var s' := Step(s, t, r);
            && (s'.wp.id == s.wp.id ==> Cur(s') == Cur(s))
            && (s'.wp.id != s.wp.id && Cur(s').ts >= Cur(s).ts && Cur(s).ts > 0 ==> Follows(Cur(s), Cur(s')))
            && (Cur(s').ts < Cur(s).ts ==> forall u :: 0 <= u < |s'.threads| ==> !Registered(s'.threads[u]))
  {
    assert ThreadOk(s, s.threads[t]);
    var pc := s.threads[t].pc;
    if pc.LeaveSwap? && s.wp.id == pc.snap.id && Cur(s).n <= 1 { LastIsAlone(s, t); }
  }

  // ----------------------------------------------------------------------- layouts

  /** `layouts[id]` are the storage pointers of world `id`, each world's derived from the one it replaces. */
  ghost predicate LaidOut(run: seq<State>, layouts: seq<seq<Pointer>>) {
    && (forall k: nat :: k < |run| ==> SizesFit(run[k], layouts))
    && (forall k: nat :: k + 1 < |run| ==> StepDerives(run, layouts, k))
  }

  ghost predicate SizesFit(s: State, layouts: seq<seq<Pointer>>) {
    |s.worlds| <= |layouts| && forall id :: 0 <= id < |s.worlds| ==> |layouts[id]| == s.worlds[id].stores
  }

  ghost predicate StepDerives(run: seq<State>, layouts: seq<seq<Pointer>>, k: nat) {
    k + 1 < |run| && Shaped(run[k]) && Shaped(run[k + 1]) && run[k].wp.id < |layouts| && run[k + 1].wp.id < |layouts|
    && (run[k].wp.id != run[k + 1].wp.id && 0 < Cur(run[k]).ts <= Cur(run[k + 1]).ts ==>
          Derives(Cur(run[k]), layouts[run[k].wp.id], Cur(run[k + 1]), layouts[run[k + 1].wp.id]))
  }

  /** Thread `u` owes `ts` from state `c` to state `k`. */
  ghost predicate OwesFrom(run: seq<State>, u: nat, ts: nat, c: nat, k: nat) {
    c <= k < |run| && forall i: nat :: c <= i <= k ==> OwesIn(run, u, ts, i)
  }

  predicate OwesIn(run: seq<State>, u: nat, ts: nat, i: nat) {
    i < |run| && OwesAt(run[i], u, ts)
  }

  /** As long as anybody owes a timestamp, every world finds its entry in the same storage. */
  lemma {:induction false} OwedStaysPut(run: seq<State>, sched: seq<nat>, layouts: seq<seq<Pointer>>, u: nat, ts: nat, c: nat, k: nat)
    requires IsRun(run, sched) && LaidOut(run, layouts) && OwesFrom(run, u, ts, c, k) && StandsAt(run[c], ts)
    ensures StandsAt(run[c], ts) && StandsAt(run[k], ts) && SizesFit(run[c], layouts) && SizesFit(run[k], layouts)
    ensures HasEntry(Cur(run[c]), ts) && HasEntry(Cur(run[k]), ts)
    ensures StorageOf(Cur(run[k]), layouts[run[k].wp.id], ts) == StorageOf(Cur(run[c]), layouts[run[c].wp.id], ts)
    decreases k
  {
    RunsAreOk(run, sched, k);
    assert SizesFit(run[k], layouts) && SizesFit(run[c], layouts) && OwesIn(run, u, ts, k) && OwesIn(run, u, ts, c);
    if c == k {
      OwedIsAddressable(run[k], u, ts);
    } else {
      var p := k - 1;
      OwedStaysPut(run, sched, layouts, u, ts, c, p);
      assert OwesIn(run, u, ts, p);
      OneMoreWorld(run, sched, layouts, u, ts, p);
    }
  }

  lemma OneMoreWorld(run: seq<State>, sched: seq<nat>, layouts: seq<seq<Pointer>>, u: nat, ts: nat, k: nat)
    requires IsRun(run, sched) && LaidOut(run, layouts) && k < |sched| && StandsAt(run[k], ts)
    requires OwesAt(run[k], u, ts) && OwesAt(run[k + 1], u, ts)
    requires SizesFit(run[k], layouts) && HasEntry(Cur(run[k]), ts)
    ensures StandsAt(run[k + 1], ts) && SizesFit(run[k + 1], layouts) && HasEntry(Cur(run[k + 1]), ts)
    ensures StorageOf(Cur(run[k + 1]), layouts[run[k + 1].wp.id], ts) == StorageOf(Cur(run[k]), layouts[run[k].wp.id], ts)
  {
    var s, s' := run[k], run[k + 1];
    RunsAreOk(run, sched, k);
    RunsAreOk(run, sched, k + 1);
    SwapsAlwaysFollow(run, sched, k);
    assert StepAt(run, sched, k) && StepDerives(run, layouts, k);
    var k' := k + 1;
    assert SizesFit(run[k'], layouts);
    WorldFollows(s, s', sched[k]);
    OwedIsAddressable(s', u, ts);
    if s.wp.id != s'.wp.id {
      StaysPut(Cur(s), layouts[s.wp.id], Cur(s'), layouts[s'.wp.id], ts);
    }
  }

  // -------------------------------------------------------- every run has a layout

  /** The pointers of a world give pointers for every world that follows it. */
  lemma LayoutGoesOn(w: World, p: seq<Pointer>, w': World) returns (p': seq<Pointer>)
    requires |p| == w.stores && Follows(w, w')
    ensures Derives(w, p, w', p')
  {
    p' := if w'.stores == w.stores + 1 then p + [0] else Rotated(p, Turns(w, w'));
  }

  lemma OneWorldMore(s: State, s': State, t: nat)
    requires Next(s, s', t) && Shaped(s) && Shaped(s')
    ensures s'.worlds == s.worlds || (|s'.worlds| == |s.worlds| + 1 && s'.wp.id == |s.worlds|)
  {
  }

  ghost predicate LaidOutTo(run: seq<State>, layouts: seq<seq<Pointer>>, k: nat) {
    && k < |run| && |layouts| == |run[k].worlds|
    && (forall j: nat :: j <= k ==> SizesFit(run[j], layouts))
    && (forall j: nat :: j < k ==> StepDerives(run, layouts, j))
  }

  lemma NewLayout(s: State, s': State, layouts: seq<seq<Pointer>>) returns (p: seq<Pointer>)
    requires Shaped(s) && Shaped(s') && |layouts| == |s.worlds| && SizesFit(s, layouts)
    requires |s'.worlds| == |s.worlds| + 1 && s'.worlds[..|s.worlds|] == s.worlds && s'.wp.id == |s.worlds|
    requires 0 < Cur(s).ts <= Cur(s').ts ==> Follows(Cur(s), Cur(s'))
    ensures SizesFit(s', layouts + [p])
    ensures 0 < Cur(s).ts <= Cur(s').ts ==> Derives(Cur(s), layouts[s.wp.id], Cur(s'), p)
  {
    if 0 < Cur(s).ts <= Cur(s').ts {
      p := LayoutGoesOn(Cur(s), layouts[s.wp.id], Cur(s'));
    } else {
      p := seq(Cur(s').stores, _ => 0);
    }
    forall id | 0 <= id < |s'.worlds| ensures |(layouts + [p])[id]| == s'.worlds[id].stores {
      if id < |s.worlds| { assert s'.worlds[..|s.worlds|][id] == s.worlds[id]; }
    }
  }

  lemma LayoutMore(run: seq<State>, sched: seq<nat>, layouts: seq<seq<Pointer>>, k: nat) returns (p: seq<Pointer>)
    requires IsRun(run, sched) && k < |sched| && LaidOutTo(run, layouts, k) && |run[k + 1].worlds| == |run[k].worlds| + 1
    ensures SizesFit(run[k + 1], layouts + [p]) && StepDerives(run, layouts + [p], k)
  {
    var s, s' := run[k], run[k + 1];
    RunsAreOk(run, sched, k);
    RunsAreOk(run, sched, k + 1);
    SwapsAlwaysFollow(run, sched, k);
    assert StepAt(run, sched, k) && SizesFit(s, layouts);
    OneWorldMore(s, s', sched[k]);
    WorldsOnlyGrow(s, s', sched[k]);
    WorldFollows(s, s', sched[k]);
    p := NewLayout(s, s', layouts);
  }

  /** Every run can be laid out. */
  lemma {:induction false} LayoutExists(run: seq<State>, sched: seq<nat>, k: nat) returns (layouts: seq<seq<Pointer>>)
    requires IsRun(run, sched) && k < |run|
    ensures LaidOutTo(run, layouts, k)
    decreases k
  {
    if k == 0 {
      layouts := [[]];
    } else {
      var j := k - 1;
      var front := LayoutExists(run, sched, j);
      RunsAreOk(run, sched, j);
      RunsAreOk(run, sched, k);
      assert StepAt(run, sched, j);
      OneWorldMore(run[j], run[k], sched[j]);
      layouts := front;
      if run[k].worlds != run[j].worlds {
        var p := LayoutMore(run, sched, front, j);
        layouts := front + [p];
      } else {
        SwapsAlwaysFollow(run, sched, j);
        assert SizesFit(run[j], front);
        WorldFollows(run[j], run[k], sched[j]);
        SameWorldDerives(run, sched, front, j);
      }
      forall i: nat | i < k ensures SizesFit(run[i], layouts) {
        assert SizesFit(run[i], front);
      }
      forall i: nat | i < j ensures StepDerives(run, layouts, i) {
        assert StepDerives(run, front, i) && SizesFit(run[i], front);
      }
    }
  }

  lemma SameWorldDerives(run: seq<State>, sched: seq<nat>, layouts: seq<seq<Pointer>>, k: nat)
    requires IsRun(run, sched) && k < |sched| && SizesFit(run[k], layouts) && run[k + 1].worlds == run[k].worlds
    ensures StepDerives(run, layouts, k) && SizesFit(run[k + 1], layouts)
  {
    RunsAreOk(run, sched, k);
    RunsAreOk(run, sched, k + 1);
    assert StepAt(run, sched, k);
    SameId(run[k], run[k + 1], sched[k]);
  }

  /** The world pointer moves to new worlds only. */
  lemma SameId(s: State, s': State, t: nat)
    requires Inv(s) && Next(s, s', t) && s'.worlds == s.worlds
    ensures s'.wp.id == s.wp.id
  {
    if r: nat :| Moves(s, s', t, r) {
      assert ThreadOk(s, s.threads[t]);
      assert |Step(s, t, r).worlds| == |s.worlds|;
    }
  }
}
