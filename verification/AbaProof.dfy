/**
 Every step of every mulle-aba thread keeps the invariant of AbaInvariant.
 */
module AbaProof {
  import opened AbaModel
  import opened AbaInvariant

  // --------------------------------------------------- steps, by what they touch

  /** The current world has a storage for everything that anybody owes. */
  lemma OffsetIsBelow(s: State)
    requires Inv(s)
    ensures forall u :: 0 <= u < |s.threads| && Registered(s.threads[u]) ==> Cur(s).offset <= From(s.threads[u])
  {
    forall u | 0 <= u < |s.threads| && Registered(s.threads[u]) ensures Cur(s).offset <= From(s.threads[u]) {
      assert ThreadOk(s, s.threads[u]);
    }
  }

  /** A step that changes the thread only, and not what it owes. */
  lemma PrivateStep(s: State, t: nat, th: Thread)
    requires Inv(s) && t < |s.threads| && Registered(s.threads[t]) == Registered(th)
    requires From(th) == From(s.threads[t]) && forall ts :: 1 <= ts <= Cur(s).ts ==> SameTo(s.threads[t], th, ts)
    requires ThreadOk(WithThread(s, t, th), th)
    ensures Inv(WithThread(s, t, th))
  {
    var s' := WithThread(s, t, th);
    assert Members(s'.threads) == Members(s.threads);
    assert forall ts: nat :: EntryOf(s', ts) == EntryOf(s, ts);
    forall ts | 1 <= ts <= Cur(s').ts ensures EntryOk(EntryOf(s', ts), s'.threads, ts) {
      EntryFrame(EntryOf(s, ts), s.threads, t, th, ts);
    }
    OffsetIsBelow(s);
    ThreadsStay(s, t, s');
  }

  /** The threads that do not move know what they knew. */
  lemma ThreadsStay(s: State, t: nat, s': State)
    requires Inv(s) && t < |s.threads| == |s'.threads| && Rely(s, s') && RelyNext(s, s') && RelyFrom(s, s')
    requires forall u :: 0 <= u < |s.threads| && u != t ==> s'.threads[u] == s.threads[u]
    requires ThreadOk(s', s'.threads[t])
    ensures ThreadsOk(s')
  {
    forall u | 0 <= u < |s'.threads| ensures ThreadOk(s', s'.threads[u]) {
      if u != t {
        if Registered(s.threads[u]) { OtherStays(s, s', u); } else { StrangerStays(s, s', u); }
      }
    }
  }

  /** A step of a registered thread that changes one entry. */
  lemma EntryStep(s: State, t: nat, th: Thread, x: nat, e: Entry)
    requires Inv(s) && t < |s.threads| && Registered(s.threads[t]) && Registered(th)
    requires From(s.threads[t]) <= From(th) && x >= 1
    requires forall ts :: 1 <= ts <= Cur(s).ts && ts != x ==> SameTo(s.threads[t], th, ts)
    requires if x <= Cur(s).ts then EntryOk(e, s.threads[t := th], x)
             else e.rc == -1 && e.list == [] && (EntryOf(s, x).used ==> e.used)
    requires ThreadOk(WithThread(WithEntry(s, x, e), t, th), th)
    ensures Inv(WithThread(WithEntry(s, x, e), t, th))
  {
    var s' := WithThread(WithEntry(s, x, e), t, th);
    assert Members(s'.threads) == Members(s.threads);
    assert forall ts: nat :: EntryOf(s', ts) == if ts == x then e else EntryOf(s, ts);
    forall ts | 1 <= ts <= Cur(s').ts ensures EntryOk(EntryOf(s', ts), s'.threads, ts) {
      if ts != x { EntryFrame(EntryOf(s, ts), s.threads, t, th, ts); }
    }
    OffsetIsBelow(s);
    ThreadsStay(s, t, s');
  }

  // -------------------------------------------------------- checkin, unregister

  lemma CheckinReadStep(s: State, t: nat, r: nat)
    requires Inv(s) && t < |s.threads| && s.threads[t].pc.CheckinRead?
    ensures Inv(Step(s, t, r))
  {
    assert ThreadOk(s, s.threads[t]);
    PrivateStep(s, t, Step(s, t, r).threads[t]);
  }

  lemma BitIsSetOk(s: State, t: nat, snap: WorldPointer, upto: nat, leaving: bool)
    requires Inv(s) && t < |s.threads| && Registered(s.threads[t]) && s.threads[t].pc.SetBit?
    requires snap.bit && SnapGood(s, snap) && s.threads[t].last <= upto <= s.worlds[snap.id].ts
    requires Reaches(s, snap, s.threads[t].last, upto)
    ensures Inv(WithThread(s, t, BitIsSet(s.threads[t].last, leaving, snap, upto)))
  {
    assert ThreadOk(s, s.threads[t]);
    PrivateStep(s, t, BitIsSet(s.threads[t].last, leaving, snap, upto));
  }

  /** Setting the bit of the current world. */
  lemma SettingBit(s: State)
    requires Inv(s)
    ensures Inv(s.(wp := s.wp.(bit := true)))
  {
    var s' := s.(wp := s.wp.(bit := true));
    OffsetIsBelow(s);
    assert forall ts: nat :: EntryOf(s', ts) == EntryOf(s, ts);
    forall u | 0 <= u < |s'.threads| ensures ThreadOk(s', s'.threads[u]) {
      assert ThreadOk(s, s.threads[u]);
      if Registered(s.threads[u]) { OtherStays(s, s', u); } else { StrangerStays(s, s', u); }
    }
  }

  lemma SetBitStep(s: State, t: nat, r: nat)
    requires Inv(s) && t < |s.threads| && s.threads[t].pc.SetBit?
    ensures PcOk(s, s.threads[t].pc) && Inv(Step(s, t, r))
  {
    var th := s.threads[t];
    assert ThreadOk(s, th);
    var snap := th.pc.snap;
    if snap.bit {
      BitIsSetOk(s, t, snap, th.pc.upto, th.pc.leaving);
    } else if s.wp == snap {
      SettingBit(s);
      BitIsSetOk(s.(wp := snap.(bit := true)), t, snap.(bit := true), th.pc.upto, th.pc.leaving);
    } else {
      PrivateStep(s, t, th.(pc := SetBitReread(th.pc.leaving, th.pc.upto)));
    }
  }

  lemma RereadStep(s: State, t: nat, r: nat)
    requires Inv(s) && t < |s.threads| && (s.threads[t].pc.SetBitReread? || s.threads[t].pc.RangeWorld?)
    ensures Inv(Step(s, t, r)) && (s.threads[t].pc.RangeWorld? ==> Cur(s).ts != 0)
  {
    assert ThreadOk(s, s.threads[t]);
    PrivateStep(s, t, Step(s, t, r).threads[t]);
  }

  // ------------------------------------------------------------- the decrement

  lemma OwersLess(threads: seq<Thread>, t: nat, th: Thread, ts: nat)
    requires t < |threads| && Owes(threads[t], ts) && !Owes(th, ts)
    ensures t in Owers(threads, ts) && Owers(threads[t := th], ts) == Owers(threads, ts) - {t}
    ensures |Owers(threads[t := th], ts)| == |Owers(threads, ts)| - 1
  {
    assert Owers(threads[t := th], ts) == Owers(threads, ts) - {t};
  }

  /** While the count has not been added yet, no decrement sees zero. */
  lemma ZeroIsLast(e: Entry, threads: seq<Thread>, t: nat, ts: nat)
    requires EntryOk(e, threads, ts) && t < |threads| && Owes(threads[t], ts)
    ensures e.rc == 0 ==> NoneCounts(threads, ts) && Owers(threads, ts) == {t}
    ensures Owers(threads, ts) == {t} && NoneCounts(threads, ts) ==> e.rc == 0
    ensures NoneReleases(threads, ts)
  {
    assert t in Owers(threads, ts);
    if |Owers(threads, ts)| == 1 {
      assert |Owers(threads, ts) - {t}| == 0;
    }
    assert forall u :: 0 <= u < |threads| && Counts(threads[u], ts) ==> e.rc + 1 <= 0;
  }

  lemma DecrementKeepsCount(e: Entry, threads: seq<Thread>, t: nat, th: Thread, ts: nat)
    requires EntryOk(e, threads, ts) && t < |threads| && Owes(threads[t], ts) && !Owes(th, ts)
    requires !Counts(threads[t], ts) && !Counts(th, ts)
    ensures CountOk(e.(rc := e.rc - 1), threads[t := th], ts)
  {
    var threads' := threads[t := th];
    OwersLess(threads, t, th, ts);
    assert forall u :: 0 <= u < |threads| ==> (Counts(threads'[u], ts) <==> Counts(threads[u], ts));
    assert NoneCounts(threads', ts) <==> NoneCounts(threads, ts);
  }

  lemma DecrementKeepsRelease(e: Entry, threads: seq<Thread>, t: nat, th: Thread, ts: nat)
    requires EntryOk(e, threads, ts) && t < |threads| && Owes(threads[t], ts) && !Owes(th, ts)
    requires !Releases(threads[t], ts) && (Releases(th, ts) <==> e.rc == 0) && (Releases(th, ts) ==> th.pc.TakeList?)
    requires NoneCounts(threads, ts) || e.rc != 0
    requires forall u :: 0 <= u < |threads| && Counts(threads[u], ts) ==> u != t && Owes(threads[u], ts)
    ensures ReleaseOk(e.(rc := e.rc - 1), threads[t := th], ts)
  {
    var threads' := threads[t := th];
    OwersLess(threads, t, th, ts);
    ZeroIsLast(e, threads, t, ts);
    assert forall u :: 0 <= u < |threads| && u != t ==> (Releases(threads'[u], ts) <==> Releases(threads[u], ts));
    if e.rc == 0 {
      assert !NoneReleases(threads', ts) by { assert Releases(threads'[t], ts); }
    } else {
      if NoneCounts(threads, ts) {
        assert Owers(threads, ts) != {t};
        assert Owers(threads, ts) - {t} == {} ==> Owers(threads, ts) == {t};
      } else {
        var u :| 0 <= u < |threads| && Counts(threads[u], ts);
        assert u in Owers(threads', ts);
      }
    }
  }

  /** Who has yet to add the count of a timestamp owes it a decrement as well. */
  lemma CountersOwe(s: State, ts: nat)
    requires Inv(s)
    ensures forall u :: 0 <= u < |s.threads| && Counts(s.threads[u], ts) ==> Owes(s.threads[u], ts)
  {
    forall u | 0 <= u < |s.threads| && Counts(s.threads[u], ts) ensures Owes(s.threads[u], ts) {
      assert ThreadOk(s, s.threads[u]);
    }
  }

  lemma DecrementKeepsEntry(s: State, t: nat, th: Thread, at: nat)
    requires Inv(s) && t < |s.threads| && 1 <= at <= Cur(s).ts && s.threads[t].pc.Decrement?
    requires Owes(s.threads[t], at) && !Owes(th, at) && !Counts(th, at)
    requires (Releases(th, at) <==> EntryOf(s, at).rc == 0) && (Releases(th, at) ==> th.pc.TakeList?)
    ensures EntryOk(EntryOf(s, at).(rc := EntryOf(s, at).rc - 1), s.threads[t := th], at)
  {
    var e := EntryOf(s, at);
    assert EntryOk(e, s.threads, at);
    ZeroIsLast(e, s.threads, t, at);
    CountersOwe(s, at);
    DecrementKeepsCount(e, s.threads, t, th, at);
    DecrementKeepsRelease(e, s.threads, t, th, at);
  }

  /** The thread after a decrement of `at` that did not see zero, or after the release of `at`. */
  lemma RangeGoesOn(s: State, th: Thread)
    requires Shaped(s) && Registered(th) && InRange(th.pc) && ThreadOk(s, th)
    ensures var th' := RangeFrom(th.last, th.pc.leaving, th.pc.snap, th.pc.at + 1, th.pc.upto);
            ThreadOk(s, th') && Registered(th') && From(th') == th.pc.at + 1 && !th'.pc.FreeCas?
  {
  }

  /** What a thread knows outside free does not depend on the entries nor on the other threads. */
  lemma KnowsTheWorldsOnly(s: State, s': State, th: Thread)
    requires Shaped(s) && ThreadOk(s, th) && !th.pc.FreeCas? && s'.wp == s.wp && s'.worlds == s.worlds
    ensures ThreadOk(s', th)
  {
  }

  /** The decrement of `at` by `t`, which goes on as `th`. */
  lemma Decremented(s: State, t: nat, th: Thread)
    requires Inv(s) && t < |s.threads| && s.threads[t].pc.Decrement? && Registered(s.threads[t])
    requires Registered(th) && ThreadOk(s, th) && From(th) == s.threads[t].pc.at + 1 && !th.pc.FreeCas? && !th.pc.FreeCount?
    requires var at := s.threads[t].pc.at; 1 <= at <= Cur(s).ts && if EntryOf(s, at).rc == 0 then th.pc.TakeList? && th.pc.at == at else !Releasing(th.pc)
    ensures var e := EntryOf(s, s.threads[t].pc.at);
            Inv(WithThread(WithEntry(s, s.threads[t].pc.at, e.(rc := e.rc - 1)), t, th))
  {
    var at := s.threads[t].pc.at;
    var e := EntryOf(s, at).(rc := EntryOf(s, at).rc - 1);
    DecrementKeepsEntry(s, t, th, at);
    KnowsTheWorldsOnly(s, WithThread(WithEntry(s, at, e), t, th), th);
    EntryStep(s, t, th, at, e);
  }

  lemma DecrementToZero(s: State, t: nat)
    requires Inv(s) && t < |s.threads| && s.threads[t].pc.Decrement? && EntryOf(s, s.threads[t].pc.at).rc == 0
    ensures Inv(Step(s, t, 0))
  {
    var th, pc := s.threads[t], s.threads[t].pc;
    assert ThreadOk(s, th);
    Decremented(s, t, th.(pc := TakeList(pc.leaving, pc.snap, pc.at, pc.upto)));
  }

  lemma DecrementGoesOn(s: State, t: nat)
    requires Inv(s) && t < |s.threads| && s.threads[t].pc.Decrement? && EntryOf(s, s.threads[t].pc.at).rc != 0
    ensures Inv(Step(s, t, 0))
  {
    var th, pc := s.threads[t], s.threads[t].pc;
    assert ThreadOk(s, th);
    RangeGoesOn(s, th);
    Decremented(s, t, RangeFrom(th.last, pc.leaving, pc.snap, pc.at + 1, pc.upto));
  }

  lemma DecrementStep(s: State, t: nat, r: nat)
    requires Inv(s) && t < |s.threads| && s.threads[t].pc.Decrement?
    ensures Inv(Step(s, t, r))
  {
    assert Step(s, t, r) == Step(s, t, 0);
    if EntryOf(s, s.threads[t].pc.at).rc == 0 { DecrementToZero(s, t); } else { DecrementGoesOn(s, t); }
  }

  // --------------------------------------------------------------- the release

  /** Between two stages of releasing `ts`, by the one thread that does it. */
  lemma ReleaseMoves(e: Entry, e': Entry, threads: seq<Thread>, t: nat, th: Thread, ts: nat)
    requires EntryOk(e, threads, ts) && t < |threads| && Releases(threads[t], ts)
    requires !Owes(threads[t], ts) && !Owes(th, ts) && !Counts(th, ts) && e'.rc == e.rc
    requires th.pc.ClearList? || th.pc.ClearUsage? ==> Releases(th, ts) && e'.used == e.used
    requires th.pc.ClearList? ==> e'.list == e.list == th.pc.taken
    requires th.pc.ClearUsage? ==> e'.list == []
    requires !th.pc.ClearList? && !th.pc.ClearUsage? ==> !Releases(th, ts) && e'.list == [] && !e'.used
    ensures EntryOk(e', threads[t := th], ts)
  {
    var threads' := threads[t := th];
    OwersSame(threads, t, th, ts);
    assert forall u :: 0 <= u < |threads| ==> (Counts(threads'[u], ts) <==> Counts(threads[u], ts));
    assert NoneCounts(threads', ts) <==> NoneCounts(threads, ts);
    assert forall u :: 0 <= u < |threads| && u != t ==> !Releases(threads'[u], ts) by {
      assert forall u :: 0 <= u < |threads| && Releases(threads[u], ts) ==> u == t;
    }
    assert Releases(threads'[t], ts) <==> !NoneReleases(threads', ts);
    assert !NoneReleases(threads, ts);
  }

  lemma TakeListStep(s: State, t: nat, r: nat)
    requires Inv(s) && t < |s.threads| && s.threads[t].pc.TakeList?
    ensures Inv(Step(s, t, r))
  {
    var th, at := s.threads[t], s.threads[t].pc.at;
    assert ThreadOk(s, th);
    var e, th' := EntryOf(s, at), Step(s, t, r).threads[t];
    ReleaseMoves(e, e, s.threads, t, th', at);
    EntryStep(s, t, th', at, e);
    SameEntries(WithThread(WithEntry(s, at, e), t, th'), Step(s, t, r));
  }

  /** The invariant sees entries only through EntryOf. */
  lemma SameEntries(a: State, b: State)
    requires Inv(a) && b == a.(entries := b.entries) && forall ts: nat :: EntryOf(a, ts) == EntryOf(b, ts)
    ensures Inv(b)
  {
    forall u | 0 <= u < |b.threads| ensures ThreadOk(b, b.threads[u]) {
      assert ThreadOk(a, a.threads[u]);
    }
  }

  lemma ClearListStep(s: State, t: nat, r: nat)
    requires Inv(s) && t < |s.threads| && s.threads[t].pc.ClearList?
    ensures Inv(Step(s, t, r)) && EntryOf(s, s.threads[t].pc.at).list == s.threads[t].pc.taken
  {
    var th, at := s.threads[t], s.threads[t].pc.at;
    assert ThreadOk(s, th);
    var e, th' := EntryOf(s, at), Step(s, t, r).threads[t];
    assert EntryOk(e, s.threads, at) && Releases(th, at);
    ReleaseMoves(e, e.(list := []), s.threads, t, th', at);
    EntryStep(s, t, th', at, e.(list := []));
  }

  lemma ClearUsageStep(s: State, t: nat, r: nat)
    requires Inv(s) && t < |s.threads| && s.threads[t].pc.ClearUsage?
    ensures Inv(Step(s, t, r))
  {
    var th, at := s.threads[t], s.threads[t].pc.at;
    assert ThreadOk(s, th);
    var e, th' := EntryOf(s, at), Step(s, t, r).threads[t];
    assert EntryOk(e, s.threads, at) && Releases(th, at);
    ReleaseMoves(e, e.(used := false), s.threads, t, th', at);
    EntryStep(s, t, th', at, e.(used := false));
  }

  /** The invariant does not look at what has been freed, nor at the clock. */
  lemma FreedIsOutside(s: State, freed: seq<Item>, now: nat)
    requires Inv(s)
    ensures Inv(s.(freed := freed, now := now))
  {
    var s' := s.(freed := freed, now := now);
    assert forall ts: nat :: EntryOf(s', ts) == EntryOf(s, ts);
    forall u | 0 <= u < |s'.threads| ensures ThreadOk(s', s'.threads[u]) {
      assert ThreadOk(s, s.threads[u]);
    }
  }

  lemma RunFreesStep(s: State, t: nat, r: nat)
    requires Inv(s) && t < |s.threads| && s.threads[t].pc.RunFrees?
    ensures Inv(Step(s, t, r))
  {
    var th, pc := s.threads[t], s.threads[t].pc;
    assert ThreadOk(s, th);
    if pc.taken == [] {
      FreesAreRun(s, t);
    } else {
      FreedIsOutside(s, s.freed + [pc.taken[0]], s.now);
      PrivateStep(s.(freed := s.freed + [pc.taken[0]]), t, th.(pc := RunFrees(pc.leaving, pc.snap, pc.at, pc.upto, pc.taken[1..])));
    }
  }

  lemma FreesAreRun(s: State, t: nat)
    requires Inv(s) && t < |s.threads| && s.threads[t].pc.RunFrees?
    ensures var th, pc := s.threads[t], s.threads[t].pc;
            Inv(WithThread(s, t, RangeFrom(th.last, pc.leaving, pc.snap, pc.at + 1, pc.upto)))
  {
    var th, pc := s.threads[t], s.threads[t].pc;
    assert ThreadOk(s, th);
    RangeGoesOn(s, th);
    var th' := RangeFrom(th.last, pc.leaving, pc.snap, pc.at + 1, pc.upto);
    KnowsTheWorldsOnly(s, WithThread(s, t, th'), th');
    PrivateStep(s, t, th');
  }

  // -------------------------------------------------------- register, unregister

  /** A step that puts a new world in place and leaves the entries of the old timestamps alone. */
  lemma WorldStep(s: State, t: nat, w: World, bit: bool, th: Thread)
    requires Inv(s) && t < |s.threads| && WorldOk(w)
    requires w.ts == Cur(s).ts && w.offset == Cur(s).offset && bit
    requires w.n == |Members(s.threads[t := th])|
    requires forall ts :: 1 <= ts <= Cur(s).ts ==> SameTo(s.threads[t], th, ts)
    requires Registered(th) ==> !Registered(s.threads[t]) && From(th) == w.ts + 1
    requires ThreadOk(WithThread(WithWorld(s, w, bit), t, th), th)
    ensures Inv(WithThread(WithWorld(s, w, bit), t, th))
  {
    var s' := WithThread(WithWorld(s, w, bit), t, th);
    assert forall ts: nat :: EntryOf(s', ts) == EntryOf(s, ts);
    forall ts | 1 <= ts <= Cur(s').ts ensures EntryOk(EntryOf(s', ts), s'.threads, ts) {
      EntryFrame(EntryOf(s, ts), s.threads, t, th, ts);
    }
    OffsetIsBelow(s);
    ThreadsStay(s, t, s');
  }

  lemma RegisterStep(s: State, t: nat, r: nat)
    requires Inv(s) && t < |s.threads| && (s.threads[t].pc.RegisterRead? || s.threads[t].pc.RegisterCas?)
    ensures PcOk(s, s.threads[t].pc) && Inv(Step(s, t, r))
  {
    var th := s.threads[t];
    assert ThreadOk(s, th);
    if th.pc.RegisterCas? && s.wp == th.pc.snap {
      var w, th' := Cur(s), Thread(Cur(s).ts + 1, Idle);
      assert Members(s.threads[t := th']) == Members(s.threads) + {t};
      WorldStep(s, t, w.(n := w.n + 1), true, th');
    } else {
      PrivateStep(s, t, Step(s, t, r).threads[t]);
    }
  }

  /** The last thread is alone, and owes nothing. */
  lemma LastIsAlone(s: State, t: nat)
    requires Inv(s) && t < |s.threads| && Registered(s.threads[t]) && Cur(s).n <= 1
    ensures forall u :: 0 <= u < |s.threads| && u != t ==> !Registered(s.threads[u])
  {
    assert t in Members(s.threads);
    assert |Members(s.threads) - {t}| == 0;
    assert forall u: nat :: u < |s.threads| && u != t && Registered(s.threads[u]) ==> u in Members(s.threads) - {t};
  }

  /** When the last thread leaves, no pointer is left on any list: nothing is lost. */
  lemma ResetLosesNothing(s: State, t: nat, ts: nat)
    requires Inv(s) && t < |s.threads| && s.threads[t].pc.LeaveSwap? && Registered(s.threads[t])
    requires Cur(s).n <= 1 && s.threads[t].last == Cur(s).ts + 1
    ensures EntryOf(s, ts).list == []
  {
    LastIsAlone(s, t);
    if 1 <= ts <= Cur(s).ts {
      assert EntryOk(EntryOf(s, ts), s.threads, ts);
      forall u | 0 <= u < |s.threads| ensures !Owes(s.threads[u], ts) && !Releases(s.threads[u], ts) {
        assert ThreadOk(s, s.threads[u]);
      }
      assert Owers(s.threads, ts) == {};
    }
  }

  lemma ResetStep(s: State, t: nat)
    requires Inv(s) && t < |s.threads| && Registered(s.threads[t]) && Cur(s).n <= 1
    ensures Inv(WithThread(WithWorld(s, World(0, 0, 0, 0, Cur(s).size), false).(entries := map[]), t, Thread(0, Idle)))
  {
    var s' := WithThread(WithWorld(s, World(0, 0, 0, 0, Cur(s).size), false).(entries := map[]), t, Thread(0, Idle));
    LastIsAlone(s, t);
    assert Members(s'.threads) == {};
    forall u | 0 <= u < |s'.threads| ensures ThreadOk(s', s'.threads[u]) {
      if u != t {
        assert ThreadOk(s, s.threads[u]);
        StrangerStays(s, s', u);
      }
    }
  }

  lemma LeaveSwapStep(s: State, t: nat, r: nat)
    requires Inv(s) && t < |s.threads| && s.threads[t].pc.LeaveSwap?
    ensures PcOk(s, s.threads[t].pc) && Inv(Step(s, t, r))
  {
    var th := s.threads[t];
    assert ThreadOk(s, th);
    var w := s.worlds[th.pc.snap.id];
    if s.wp.id != th.pc.snap.id || w.ts != th.pc.upto {
      PrivateStep(s, t, th.(pc := CheckinRead(true)));
    } else if w.n <= 1 {
      ResetStep(s, t);
    } else {
      assert Members(s.threads[t := Thread(0, Idle)]) == Members(s.threads) - {t};
      WorldStep(s, t, w.(n := w.n - 1), true, Thread(0, Idle));
    }
  }

  // ------------------------------------------------------------------------ free

  /** The bit is clear only while every registered thread still owes the current timestamp. */
  lemma ClearBitMeansAllOwe(s: State, u: nat)
    requires Inv(s) && !s.wp.bit && u < |s.threads| && Registered(s.threads[u])
    ensures Owes(s.threads[u], Cur(s).ts)
  {
    assert ThreadOk(s, s.threads[u]);
  }

  lemma DecideStep(s: State, t: nat, item: Item, r: nat)
    requires Inv(s) && t < |s.threads| && Registered(s.threads[t])
    requires s.threads[t].pc.FreeRead? || s.threads[t].pc.FreeReread?
    ensures Inv(WithThread(s, t, s.threads[t].(pc := Decide(item, Cur(s), s.wp, r))))
  {
    assert ThreadOk(s, s.threads[t]);
    PrivateStep(s, t, s.threads[t].(pc := Decide(item, Cur(s), s.wp, r)));
  }

  lemma FreeLookStep(s: State, t: nat, r: nat)
    requires Inv(s) && t < |s.threads|
    requires s.threads[t].pc.FreeRead? || s.threads[t].pc.FreeReread? || s.threads[t].pc.FreeRetry?
    ensures Inv(Step(s, t, r))
  {
    var th := s.threads[t];
    assert ThreadOk(s, th);
    if th.pc.FreeRetry? {
      PrivateStep(s, t, th.(pc := FreeTry(th.pc.item, s.wp, th.pc.mode)));
    } else if th.pc.FreeRead? && Cur(s).n <= 1 {
      PrivateStep(s, t, th.(pc := FreeNow(th.pc.item)));
    } else {
      DecideStep(s, t, th.pc.item, r);
    }
  }

  lemma FreeNowStep(s: State, t: nat, r: nat)
    requires Inv(s) && t < |s.threads| && s.threads[t].pc.FreeNow?
    ensures Inv(Step(s, t, r))
  {
    assert ThreadOk(s, s.threads[t]);
    FreedIsOutside(s, s.freed + [s.threads[t].pc.item], s.now);
    PrivateStep(s.(freed := s.freed + [s.threads[t].pc.item]), t, s.threads[t].(pc := Idle));
  }

  /** Storages are given to new timestamps only when nobody owes their old ones. */
  lemma RotationIsSafe(s: State, w: World, r: nat, u: nat)
    requires Inv(s) && r > 0 && MayRotate(s, w, r) && w.ts <= Cur(s).ts
    requires u < |s.threads| && Registered(s.threads[u])
    ensures w.offset + r * ENTRIES <= From(s.threads[u])
  {
    var x := w.offset + r * ENTRIES - 1;
    assert EntryOk(EntryOf(s, x), s.threads, x);
    assert !EntryOf(s, x).used;
    assert u !in Owers(s.threads, x);
  }

  lemma NextWorldOk(s: State, t: nat, snap: WorldPointer, mode: Mode, r: nat)
    requires Inv(s) && t < |s.threads| && SnapGood(s, snap) && snap.bit
    requires mode.Rotate? ==> MayRotate(s, s.worlds[snap.id], r)
    requires NextWorld(s.worlds[snap.id], mode, r) != []
    ensures var w, next := s.worlds[snap.id], NextWorld(s.worlds[snap.id], mode, r)[0];
            && WorldOk(next) && next.ts == w.ts + 1 && next.n == w.n && w.offset <= next.offset <= w.ts
            && (forall u :: 0 <= u < |s.threads| && Registered(s.threads[u]) ==> next.offset <= From(s.threads[u]))
  {
    var w, next := s.worlds[snap.id], NextWorld(s.worlds[snap.id], mode, r)[0];
    assert WorldOk(w);
    forall u | 0 <= u < |s.threads| && Registered(s.threads[u]) ensures next.offset <= From(s.threads[u]) {
      assert ThreadOk(s, s.threads[u]);
      if mode.Rotate? { RotationIsSafe(s, w, r, u); }
    }
  }

  /** The entry of the new timestamp is marked as used before the swap. */
  lemma FreeTryMarks(s: State, t: nat, next: World)
    requires Inv(s) && t < |s.threads| && s.threads[t].pc.FreeTry? && PcOk(s, s.threads[t].pc) && s.threads[t].pc.snap.bit
    requires var w := s.worlds[s.threads[t].pc.snap.id];
             && WorldOk(next) && next.ts == w.ts + 1 && next.n == w.n && w.offset <= next.offset <= w.ts
             && (forall u :: 0 <= u < |s.threads| && Registered(s.threads[u]) ==> next.offset <= From(s.threads[u]))
    ensures var pc, ts := s.threads[t].pc, next.ts;
            Inv(WithThread(WithEntry(s, ts, EntryOf(s, ts).(used := true)), t, s.threads[t].(pc := FreeCas(pc.item, pc.snap, pc.mode, next))))
  {
    var th, ts := s.threads[t], next.ts;
    assert ThreadOk(s, th);
    var e := EntryOf(s, ts);
    var th' := th.(pc := FreeCas(th.pc.item, th.pc.snap, th.pc.mode, next));
    if ts <= Cur(s).ts {
      assert EntryOk(e, s.threads, ts) && t in Owers(s.threads, ts);
      EntryFrame(e, s.threads, t, th', ts);
      assert e.(used := true) == e;
    }
    var s' := WithThread(WithEntry(s, ts, e.(used := true)), t, th');
    assert EntryOf(s', ts).used;
    EntryStep(s, t, th', ts, e.(used := true));
  }

  lemma FreeTryWins(s: State, t: nat, r: nat)
    requires Inv(s) && t < |s.threads| && s.threads[t].pc.FreeTry? && PcOk(s, s.threads[t].pc) && Finds(s, t, r)
    requires var pc := s.threads[t].pc; pc.snap.bit && NextWorld(s.worlds[pc.snap.id], pc.mode, r) != []
    ensures var pc, w := s.threads[t].pc, s.worlds[s.threads[t].pc.snap.id];
            Inv(WithThread(WithEntry(s, w.ts + 1, EntryOf(s, w.ts + 1).(used := true)), t,
                           s.threads[t].(pc := FreeCas(pc.item, pc.snap, pc.mode, NextWorld(w, pc.mode, r)[0]))))
  {
    var pc := s.threads[t].pc;
    assert ThreadOk(s, s.threads[t]);
    NextWorldOk(s, t, pc.snap, pc.mode, r);
    FreeTryMarks(s, t, NextWorld(s.worlds[pc.snap.id], pc.mode, r)[0]);
  }

  /** Free starts over, or finds that it is alone. */
  lemma FreeBacksOff(s: State, t: nat, pc: Pc)
    requires Inv(s) && t < |s.threads| && Registered(s.threads[t])
    requires s.threads[t].pc.FreeTry? || s.threads[t].pc.FreeCas?
    requires pc.FreeReread? || pc.FreeRetry? || pc.FreeNow?
    ensures Inv(WithThread(s, t, s.threads[t].(pc := pc)))
  {
    assert ThreadOk(s, s.threads[t]);
    PrivateStep(s, t, s.threads[t].(pc := pc));
  }

  lemma FreeTryStep(s: State, t: nat, r: nat)
    requires Inv(s) && t < |s.threads| && s.threads[t].pc.FreeTry? && PcOk(s, s.threads[t].pc) && Finds(s, t, r)
    ensures Inv(Step(s, t, r))
  {
    var th := s.threads[t];
    assert Registered(th) by { assert ThreadOk(s, th); }
    var w := s.worlds[th.pc.snap.id];
    if th.pc.mode.Grow? && w.size >= th.pc.mode.target {
      FreeBacksOff(s, t, FreeReread(th.pc.item));
    } else if w.n <= 1 {
      FreeBacksOff(s, t, FreeNow(th.pc.item));
    } else if !th.pc.snap.bit || NextWorld(w, th.pc.mode, r) == [] {
      FreeBacksOff(s, t, FreeReread(th.pc.item));
    } else {
      FreeTryWins(s, t, r);
    }
  }

  /** A new timestamp is owed by every registered thread. */
  lemma NewTimestamp(s: State, t: nat, next: World, th: Thread)
    requires Inv(s) && t < |s.threads| && Registered(s.threads[t]) && s.threads[t].pc.FreeCas?
    requires s.threads[t].pc.snap == s.wp && s.threads[t].pc.next == next
    requires th.last == s.threads[t].last && th.pc.FreeCount? && th.pc.ts == next.ts && th.pc.n == next.n
    ensures EntryOk(EntryOf(s, next.ts), s.threads[t := th], next.ts)
    ensures Owers(s.threads[t := th], next.ts) == Members(s.threads) && next.n == |Members(s.threads)|
  {
    assert ThreadOk(s, s.threads[t]);
    var threads', ts := s.threads[t := th], next.ts;
    forall u | 0 <= u < |s.threads|
      ensures Registered(s.threads[u]) ==> Owes(threads'[u], ts)
      ensures Counts(threads'[u], ts) <==> u == t
      ensures !Releases(threads'[u], ts)
    {
      assert ThreadOk(s, s.threads[u]);
    }
    assert Owers(threads', ts) == Members(s.threads);
    assert t in Owers(threads', ts) && Counts(threads'[t], ts);
    assert !NoneCounts(threads', ts);
  }

  lemma FreeCasWins(s: State, t: nat, next: World)
    requires Inv(s) && t < |s.threads| && s.threads[t].pc.FreeCas? && s.wp == s.threads[t].pc.snap && next == s.threads[t].pc.next
    ensures Inv(WithThread(WithWorld(s, next, false), t,
                           s.threads[t].(pc := FreeCount(s.threads[t].pc.item, next.ts, next.n))))
  {
    var th := s.threads[t];
    assert ThreadOk(s, th);
    var th' := th.(pc := FreeCount(th.pc.item, next.ts, next.n));
    var s' := WithThread(WithWorld(s, next, false), t, th');
    NewTimestamp(s, t, next, th');
    assert Members(s'.threads) == Members(s.threads);
    assert forall ts: nat :: EntryOf(s', ts) == EntryOf(s, ts);
    forall ts | 1 <= ts <= Cur(s').ts ensures EntryOk(EntryOf(s', ts), s'.threads, ts) {
      if ts <= Cur(s).ts { EntryFrame(EntryOf(s, ts), s.threads, t, th', ts); }
    }
    ThreadsStay(s, t, s');
  }

  lemma FreeCasStep(s: State, t: nat, r: nat)
    requires Inv(s) && t < |s.threads| && s.threads[t].pc.FreeCas?
    ensures PcOk(s, s.threads[t].pc) && Inv(Step(s, t, r))
  {
    var th := s.threads[t];
    assert ThreadOk(s, th);
    if s.wp == th.pc.snap {
      FreeCasWins(s, t, th.pc.next);
    } else {
      FreeBacksOff(s, t, FreeRetry(th.pc.item, th.pc.mode));
    }
  }

  /** Adding the number of threads makes the retain count what it should be. */
  lemma CountIsAdded(e: Entry, threads: seq<Thread>, t: nat, th: Thread, ts: nat)
    requires EntryOk(e, threads, ts) && t < |threads| && Counts(threads[t], ts) && th.last == threads[t].last
    requires th.pc.FreeAdd?
    ensures EntryOk(e.(rc := e.rc + threads[t].pc.n), threads[t := th], ts)
  {
    var threads' := threads[t := th];
    OwersSame(threads, t, th, ts);
    assert NoneCounts(threads', ts);
    assert forall u :: 0 <= u < |threads| ==> (Releases(threads'[u], ts) <==> Releases(threads[u], ts));
    assert NoneReleases(threads', ts) <==> NoneReleases(threads, ts);
  }

  lemma Counted(s: State, t: nat, th: Thread)
    requires Inv(s) && t < |s.threads| && s.threads[t].pc.FreeCount? && ThreadOk(s, s.threads[t])
    requires th == s.threads[t].(pc := FreeAdd(s.threads[t].pc.item, s.threads[t].pc.ts))
    ensures var e := EntryOf(s, s.threads[t].pc.ts);
            Inv(WithThread(WithEntry(s, s.threads[t].pc.ts, e.(rc := e.rc + s.threads[t].pc.n)), t, th))
  {
    var x := s.threads[t].pc.ts;
    var e := EntryOf(s, x);
    var e' := e.(rc := e.rc + s.threads[t].pc.n);
    CountIsAdded(e, s.threads, t, th, x);
    assert ThreadOk(s, th);
    KnowsTheWorldsOnly(s, WithThread(WithEntry(s, x, e'), t, th), th);
    EntryStep(s, t, th, x, e');
  }

  lemma FreeCountStep(s: State, t: nat, r: nat)
    requires Inv(s) && t < |s.threads| && s.threads[t].pc.FreeCount?
    ensures Inv(Step(s, t, r))
  {
    assert ThreadOk(s, s.threads[t]);
    Counted(s, t, s.threads[t].(pc := FreeAdd(s.threads[t].pc.item, s.threads[t].pc.ts)));
  }

  lemma FreeAddStep(s: State, t: nat, r: nat)
    requires Inv(s) && t < |s.threads| && s.threads[t].pc.FreeAdd?
    ensures Inv(Step(s, t, r)) && Owes(s.threads[t], s.threads[t].pc.ts)
  {
    var th := s.threads[t];
    assert ThreadOk(s, th);
    var x := th.pc.ts;
    var e, th' := EntryOf(s, x), th.(pc := Idle);
    var e' := e.(list := [th.pc.item] + e.list);
    assert EntryOk(e, s.threads, x);
    EntryFrame(e, s.threads, t, th', x);
    assert t in Owers(s.threads[t := th'], x);
    assert EntryOk(e', s.threads[t := th'], x);
    EntryStep(s, t, th', x, e');
  }

  // -------------------------------------------------------------------- all steps

  lemma InvMeansPcOk(s: State, t: nat)
    requires Inv(s) && t < |s.threads|
    ensures PcOk(s, s.threads[t].pc)
  {
    assert ThreadOk(s, s.threads[t]);
  }

  lemma CheckinStep(s: State, t: nat, r: nat)
    requires Inv(s) && t < |s.threads| && PcOk(s, s.threads[t].pc)
    requires var pc := s.threads[t].pc;
             pc.CheckinRead? || pc.SetBit? || pc.SetBitReread? || pc.RangeWorld? || InRange(pc) || pc.LeaveSwap?
    ensures Inv(Step(s, t, r))
  {
    match s.threads[t].pc
    case CheckinRead(_) => CheckinReadStep(s, t, r);
    case SetBit(_, _, _) => SetBitStep(s, t, r);
    case SetBitReread(_, _) => RereadStep(s, t, r);
    case RangeWorld(_) => RereadStep(s, t, r);
    case Decrement(_, _, _, _) => DecrementStep(s, t, r);
    case TakeList(_, _, _, _) => TakeListStep(s, t, r);
    case ClearList(_, _, _, _, _) => ClearListStep(s, t, r);
    case ClearUsage(_, _, _, _, _) => ClearUsageStep(s, t, r);
    case RunFrees(_, _, _, _, _) => RunFreesStep(s, t, r);
    case LeaveSwap(_, _) => LeaveSwapStep(s, t, r);
  }

  /** Every step of every call, whatever the others are doing, keeps the invariant. */
  lemma EveryStep(s: State, t: nat, r: nat)
    requires Inv(s) && t < |s.threads| && !s.threads[t].pc.Idle? && PcOk(s, s.threads[t].pc) && Finds(s, t, r)
    ensures Inv(Step(s, t, r))
  {
    match s.threads[t].pc
    case RegisterRead => RegisterStep(s, t, r);
    case RegisterCas(_) => RegisterStep(s, t, r);
    case FreeRead(_) => FreeLookStep(s, t, r);
    case FreeRetry(_, _) => FreeLookStep(s, t, r);
    case FreeReread(_) => FreeLookStep(s, t, r);
    case FreeTry(_, _, _) => FreeTryStep(s, t, r);
    case FreeCas(_, _, _, _) => FreeCasStep(s, t, r);
    case FreeCount(_, _, _) => FreeCountStep(s, t, r);
    case FreeAdd(_, _) => FreeAddStep(s, t, r);
    case FreeNow(_) => FreeNowStep(s, t, r);
    case _ => CheckinStep(s, t, r);
  }

  lemma BeginKeeps(s: State, s': State, t: nat, q: Request)
    requires Inv(s) && Begins(s, s', t, q)
    ensures Inv(s')
  {
    assert ThreadOk(s, s.threads[t]);
    PrivateStep(s, t, s'.threads[t]);
    FreedIsOutside(s.(threads := s'.threads), s.freed, s'.now);
  }

  lemma NextKeeps(s: State, s': State, t: nat)
    requires Inv(s) && Next(s, s', t)
    ensures Inv(s')
  {
    if q :| Begins(s, s', t, q) {
      BeginKeeps(s, s', t, q);
    } else {
      var r: nat :| Moves(s, s', t, r);
      EveryStep(s, t, r);
      FreedIsOutside(Step(s, t, r), s'.freed, s'.now);
    }
  }

  lemma InitOk(s: State)
    requires Init(s)
    ensures Inv(s)
  {
    assert Members(s.threads) == {};
  }

  // ----------------------------------------------------------------- the timestamps

  /** Once a timestamp is released its entry is as it was before its first use. */
  lemma ReleasedIsFresh(s: State, ts: nat)
    requires Inv(s) && 1 <= ts <= Cur(s).ts
    ensures !EntryOf(s, ts).used <==> Owers(s.threads, ts) == {} && NoneReleases(s.threads, ts)
    ensures !EntryOf(s, ts).used ==> EntryOf(s, ts) == FRESH
  {
    assert EntryOk(EntryOf(s, ts), s.threads, ts);
    CountersOwe(s, ts);
    if Owers(s.threads, ts) == {} {
      forall u | 0 <= u < |s.threads| ensures !Counts(s.threads[u], ts) {
        assert u !in Owers(s.threads, ts);
      }
      assert NoneCounts(s.threads, ts);
    }
  }

  /** Of all the decrements of a timestamp exactly the last one sees zero, early or late as the count was added. */
  lemma LastDecrementSeesZero(s: State, t: nat)
    requires Inv(s) && t < |s.threads| && s.threads[t].pc.Decrement?
    ensures var at := s.threads[t].pc.at; EntryOf(s, at).rc == 0 <==> Owers(s.threads, at) == {t}
  {
    var at := s.threads[t].pc.at;
    assert ThreadOk(s, s.threads[t]);
    assert EntryOk(EntryOf(s, at), s.threads, at);
    ZeroIsLast(EntryOf(s, at), s.threads, t, at);
    CountersOwe(s, at);
    if Owers(s.threads, at) == {t} {
      forall u | 0 <= u < |s.threads| ensures !Counts(s.threads[u], at) {
        assert u != t ==> u !in Owers(s.threads, at);
      }
    }
  }

  /** A pointer is added to a list only while its timestamp is not being released. */
  lemma AddedBeforeTaken(s: State, t: nat)
    requires Inv(s) && t < |s.threads| && (s.threads[t].pc.FreeAdd? || s.threads[t].pc.FreeCount?)
    ensures var ts := s.threads[t].pc.ts; NoneReleases(s.threads, ts) && EntryOf(s, ts).used && HasEntry(Cur(s), ts)
  {
    var ts := s.threads[t].pc.ts;
    assert ThreadOk(s, s.threads[t]);
    assert EntryOk(EntryOf(s, ts), s.threads, ts);
    assert t in Owers(s.threads, ts);
    OwedIsAddressable(s, t, ts);
  }

  /** Timestamps are released in increasing order. */
  lemma ReleasedInOrder(s: State, ts: nat, later: nat)
    requires Inv(s) && 1 <= ts < later <= Cur(s).ts && !EntryOf(s, later).used
    ensures !EntryOf(s, ts).used
  {
    ReleasedIsFresh(s, later);
    forall u: nat | u < |s.threads| ensures !Owes(s.threads[u], ts) && !Releases(s.threads[u], ts) {
      assert ThreadOk(s, s.threads[u]);
      assert u !in Owers(s.threads, later);
    }
    assert Owers(s.threads, ts) == {};
    ReleasedIsFresh(s, ts);
  }

  /** A thread that is about to decrement a timestamp finds its entry in the world it looked at. */
  lemma DecrementFindsEntry(s: State, t: nat)
    requires Inv(s) && t < |s.threads| && s.threads[t].pc.Decrement?
    ensures var pc := s.threads[t].pc; SnapOk(s, pc.snap) && HasEntry(s.worlds[pc.snap.id], pc.at)
  {
    assert ThreadOk(s, s.threads[t]);
    var pc := s.threads[t].pc;
    assert WorldOk(s.worlds[pc.snap.id]);
  }

  /** Every timestamp that somebody has yet to decrement is in the current world. */
  lemma OwedIsAddressable(s: State, t: nat, ts: nat)
    requires Inv(s) && t < |s.threads| && Owes(s.threads[t], ts) && ts <= Cur(s).ts
    ensures HasEntry(Cur(s), ts)
  {
    assert ThreadOk(s, s.threads[t]);
    assert WorldOk(Cur(s));
  }
}
