/**
 The reuse loop inside a run: while it reads the usage bits one by one, the other
 threads go on. Whatever it finds, the storages it rotates out are unused, as the
 step machine has it (AbaModel.MayRotate).
 */
module AbaReuse {
  import opened AbaModel
  import opened AbaInvariant
  import opened AbaProof
  import opened AbaRuns
  import opened AbaRotation

  /** The usage bits of the storage at index `p` of world `w` are all clear. */
  ghost predicate BlockUnused(s: State, w: World, p: nat) {
    forall x: nat :: 1 <= x && w.offset + p * ENTRIES <= x < w.offset + (p + 1) * ENTRIES ==> !EntryOf(s, x).used
  }

  /** A released timestamp is never used again. */
  lemma ReleasedStays(s: State, s': State, t: nat, ts: nat)
    requires Inv(s) && Next(s, s', t) && 1 <= ts <= Cur(s).ts && !EntryOf(s, ts).used
    ensures !EntryOf(s', ts).used
  {
    if q :| Begins(s, s', t, q) {
      assert EntryOf(s', ts) == EntryOf(s, ts);
    } else {
      var r: nat :| Moves(s, s', t, r);
      assert ThreadOk(s, s.threads[t]);
      ReleasedIsFresh(s, ts);
      assert t !in Owers(s.threads, ts);
      UsedBefore(s, t, r, ts);
    }
  }

  /** Only free marks a timestamp as used: the one after that of the world it looked at. */
  lemma UsedBefore(s: State, t: nat, r: nat, ts: nat)
    requires Shaped(s) && t < |s.threads| && !s.threads[t].pc.Idle? && PcOk(s, s.threads[t].pc)
    ensures EntryOf(Step(s, t, r), ts).used ==>
              EntryOf(s, ts).used || (s.threads[t].pc.FreeTry? && ts == s.worlds[s.threads[t].pc.snap.id].ts + 1)
  {
  }

  /** Thread `t` is looking for storages of world `w` to reuse, from state `b` to state `e`. */
  ghost predicate Looking(run: seq<State>, t: nat, w: World, b: nat, e: nat)
    requires e < |run|
  {
    forall k :: b <= k <= e ==> LooksAt(run[k], t, w)
  }

  ghost predicate LooksAt(s: State, t: nat, w: World) {
    && t < |s.threads| && s.threads[t].pc.FreeTry? && PcOk(s, s.threads[t].pc)
    && s.worlds[s.threads[t].pc.snap.id] == w
  }

  lemma LooksAtOld(s: State, t: nat, w: World)
    requires Inv(s) && LooksAt(s, t, w)
    ensures w.ts <= Cur(s).ts && WorldOk(w)
  {
    assert ThreadOk(s, s.threads[t]);
    assert WorldOk(s.worlds[s.threads[t].pc.snap.id]);
  }

  lemma {:induction false} UnusedStays(run: seq<State>, sched: seq<nat>, t: nat, w: World, k: nat, e: nat, ts: nat)
    requires IsRun(run, sched) && k <= e < |run| && Looking(run, t, w, k, e)
    requires 1 <= ts <= w.ts && !EntryOf(run[k], ts).used
    ensures !EntryOf(run[e], ts).used
    decreases e
  {
    if k < e {
      var j := e - 1;
      UnusedStays(run, sched, t, w, k, j, ts);
      RunsAreOk(run, sched, j);
      assert LooksAt(run[j], t, w);
      LooksAtOld(run[j], t, w);
      assert StepAt(run, sched, j);
      ReleasedStays(run[j], run[e], sched[j], ts);
    }
  }

  /** If one timestamp of `w` is found unused, the storages before its own can be reused ever after. */
  lemma UnusedMeansPrefix(run: seq<State>, sched: seq<nat>, t: nat, w: World, k: nat, e: nat, ts: nat, q: nat)
    requires IsRun(run, sched) && k <= e < |run| && Looking(run, t, w, k, e)
    requires 1 <= ts <= w.ts && !EntryOf(run[k], ts).used && w.offset + q * ENTRIES <= ts + 1 && w.offset + q * ENTRIES <= w.ts
    ensures MayRotate(run[e], w, q)
  {
    RunsAreOk(run, sched, k);
    assert LooksAt(run[k], t, w);
    LooksAtOld(run[k], t, w);
    forall x: nat | 1 <= x && w.offset <= x < w.offset + q * ENTRIES ensures !EntryOf(run[e], x).used {
      if x < ts { ReleasedInOrder(run[k], x, ts); }
      UnusedStays(run, sched, t, w, k, e, x);
    }
  }

  /** The largest number of storages, up to `m`, that can be reused. */
  ghost function Prefix(s: State, w: World, m: nat): (q: nat)
    ensures q <= m && (q == 0 || MayRotate(s, w, q))
    ensures forall p: nat :: p <= m && MayRotate(s, w, p) ==> p <= q
  {
    if m == 0 || MayRotate(s, w, m) then m else Prefix(s, w, m - 1)
  }

  /** What the loop reads: round `i` finds a storage unused only if it is, in state at[i]. */
  ghost predicate ReadsTruly(
    run: seq<State>, w: World, zero: (nat, Pointer) -> bool, storages: seq<Pointer>, at: seq<nat>, b: nat, e: nat)
    requires e < |run|
  {
    && (forall i :: 0 <= i < |at| ==> b <= at[i] <= e)
    && (forall i: nat, p: nat :: p < |storages| && w.offset + p * ENTRIES <= w.ts && zero(i, storages[p]) ==>
          i < |at| && BlockUnused(run[at[i]], w, p))
  }

  lemma ReadsArePrefix(
    run: seq<State>, sched: seq<nat>, t: nat, w: World, zero: (nat, Pointer) -> bool, storages: seq<Pointer>,
    at: seq<nat>, b: nat, e: nat, current: nat)
    requires IsRun(run, sched) && b <= e < |run| && Looking(run, t, w, b, e)
    requires ReadsTruly(run, w, zero, storages, at, b, e)
    requires w.ts != 0 && w.offset <= w.ts && current == (w.ts - w.offset) / ENTRIES
    ensures var q := Prefix(run[e], w, current); ReadsOk(zero, storages, current, if q == current then current + 1 else q)
  {
    var q := Prefix(run[e], w, current);
    forall i: nat, p: nat | p < |storages| && p <= current && zero(i, storages[p])
      ensures p < if q == current then current + 1 else q
    {
      assert w.offset + p * ENTRIES <= w.ts;
      assert i < |at| && BlockUnused(run[at[i]], w, p);
      assert LooksAt(run[at[i]], t, w);
      if p < current {
        UnusedMeansPrefix(run, sched, t, w, at[i], e, w.offset + (p + 1) * ENTRIES - 1, p + 1);
      } else {
        UnusedMeansPrefix(run, sched, t, w, at[i], e, w.ts, current);
      }
    }
  }

  lemma SmallerRotation(s: State, w: World, q: nat, r: nat)
    requires MayRotate(s, w, q) && r <= q
    ensures MayRotate(s, w, r)
  {
  }

  /**
   The loop, spread over the states `b` to `e` of a run, rotates out only what the
   machine allows: every storage it gives to later timestamps has been released.
   */
  lemma LoopMayRotate(
    run: seq<State>, sched: seq<nat>, t: nat, w: World, zero: (nat, Pointer) -> bool, storages: seq<Pointer>,
    at: seq<nat>, b: nat, e: nat)
    requires IsRun(run, sched) && b <= e < |run| && Looking(run, t, w, b, e)
    requires |storages| == w.stores && ReadsTruly(run, w, zero, storages, at, b, e) && w.ts != 0
    ensures var current := (w.ts - w.offset) / ENTRIES;
            && 0 <= current < |storages|
            && MayRotate(run[e], w, Reused(false, zero, storages, current))
  {
    RunsAreOk(run, sched, e);
    assert LooksAt(run[e], t, w);
    LooksAtOld(run[e], t, w);
    var current := (w.ts - w.offset) / ENTRIES;
    var q := Prefix(run[e], w, current);
    ReadsArePrefix(run, sched, t, w, zero, storages, at, b, e, current);
    RotatesOnlyUnused(zero, storages, current, if q == current then current + 1 else q);
    var r := Reused(false, zero, storages, current);
    assert r <= q;
    if r > 0 { SmallerRotation(run[e], w, q, r); }
  }
}
