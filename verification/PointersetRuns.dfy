/**
 Whole runs of the pointer set, with any number of threads: a set that only grows.
 Every run is linearizable, and at most one insert or register of a pointer succeeds.
 */
module PointersetRuns {
  import opened Options
  import opened MapSpec
  import opened PointersetModel
  import opened PointersetInvariant
  import opened PointersetProof
  import opened Histories

  type Schedule = seq<nat>

  ghost predicate StepAt(run: seq<State>, sched: Schedule, i: nat) {
    i < |sched| && i + 1 < |run| && Next(run[i], run[i + 1], sched[i])
  }

  /** `run` lists the states, `sched[i]` is the thread that moves from state i to state i + 1. */
  ghost predicate IsRun(run: seq<State>, sched: Schedule) {
    && |run| == |sched| + 1
    && Init(run[0])
    && (forall i: nat :: i < |sched| ==> StepAt(run, sched, i))
    && (forall i :: 0 <= i < |run| ==> |run[i].threads| == |run[0].threads|)
  }

  /** The state at which the call began that thread `t` runs in state `k`. */
  ghost function CallStart(run: seq<State>, t: nat, k: nat): (b: nat)
    requires k < |run| && forall i :: 0 <= i <= k ==> t < |run[i].threads|
    ensures b <= k
    ensures !run[k].threads[t].pc.Idle? ==> forall i :: b <= i <= k ==> !run[i].threads[t].pc.Idle?
  {
    if k == 0 || run[k - 1].threads[t].pc.Idle? then k else CallStart(run, t, k - 1)
  }

  /** The map that a state stands for. */
  ghost function Map(s: State): map<nat, Value> {
    if s.mem.cur < |s.mem.gens| then Abs(s.mem) else map[]
  }

  ghost predicate Sound(s: State) {
    MemInv(s.mem) && Shaped(s.mem)
  }

  ghost predicate ThreadOk(run: seq<State>, t: nat, k: nat)
    requires k < |run| && (forall i :: 0 <= i <= k ==> t < |run[i].threads|) && Sound(run[k])
  {
    var th := run[k].threads[t];
    LocalInv(run[k].mem, th.op, th.pc, Map(run[CallStart(run, t, k)]))
  }

  ghost predicate RunOk(run: seq<State>, k: nat)
    requires k < |run| && forall i :: 0 <= i < |run| ==> |run[i].threads| == |run[0].threads|
  {
    Sound(run[k]) && forall t {:trigger ThreadOk(run, t, k)} :: 0 <= t < |run[k].threads| ==> ThreadOk(run, t, k)
  }

  // ---------------------------------------------------------------- one more step

  lemma EvolvesSelf(m: Memory)
    requires m.cur < |m.gens|
    ensures Evolves(m, m)
  {
  }

  lemma MoverOk(run: seq<State>, sched: Schedule, k: nat)
    requires IsRun(run, sched) && k < |sched| && RunOk(run, k) && Moves(run[k], run[k + 1], sched[k])
    requires !run[k].threads[sched[k]].pc.Done?
    ensures Sound(run[k + 1]) && ThreadOk(run, sched[k], k + 1) && Evolves(run[k].mem, run[k + 1].mem)
    ensures var th, t := run[k].threads[sched[k]], sched[k];
            StepOk(run[k].mem, th.op, Map(run[CallStart(run, t, k)]), run[k + 1].mem, run[k + 1].threads[t].pc)
  {
    var t := sched[k];
    var th := run[k].threads[t];
    assert ThreadOk(run, t, k);
    EveryStep(run[k].mem, th.op, th.pc, Map(run[CallStart(run, t, k)]));
  }

  lemma OthersOk(run: seq<State>, k: nat, t: nat)
    requires k + 1 < |run| && (forall i :: 0 <= i < |run| ==> |run[i].threads| == |run[0].threads|)
    requires RunOk(run, k) && Sound(run[k + 1]) && Evolves(run[k].mem, run[k + 1].mem)
    requires t < |run[k].threads| && run[k + 1].threads[t] == run[k].threads[t]
    ensures ThreadOk(run, t, k + 1)
  {
    var th := run[k].threads[t];
    assert ThreadOk(run, t, k);
    if !th.pc.Idle? { Stable(run[k].mem, run[k + 1].mem, th.op, th.pc, Map(run[CallStart(run, t, k)])); }
  }

  /** Returning from a call may count the slot that it took. */
  lemma ReturnOk(run: seq<State>, k: nat, t: nat)
    requires k + 1 < |run| && (forall i :: 0 <= i < |run| ==> |run[i].threads| == |run[0].threads|) && RunOk(run, k)
    requires t < |run[k].threads| && Moves(run[k], run[k + 1], t) && run[k].threads[t].pc.Done?
    ensures Sound(run[k + 1]) && ThreadOk(run, t, k + 1) && Evolves(run[k].mem, run[k + 1].mem) && Same(run[k].mem, run[k + 1].mem)
  {
    var th := run[k].threads[t];
    assert ThreadOk(run, t, k);
    ReturnStep(run[k].mem, th.op, th.pc, Map(run[CallStart(run, t, k)]));
  }

  /** Starting a call leaves memory alone. */
  lemma BeginOk(run: seq<State>, k: nat, t: nat)
    requires k + 1 < |run| && (forall i :: 0 <= i < |run| ==> |run[i].threads| == |run[0].threads|) && RunOk(run, k)
    requires t < |run[k].threads| && Begins(run[k], run[k + 1], t, run[k + 1].threads[t].op)
    ensures Sound(run[k + 1]) && ThreadOk(run, t, k + 1)
  {
  }

  /** A step is the move of a call, its start or its return. */
  lemma StepKinds(s: State, s': State, t: nat)
    requires Next(s, s', t)
    ensures t < |s.threads| == |s'.threads| && forall u :: 0 <= u < |s.threads| && u != t ==> s'.threads[u] == s.threads[u]
    ensures Moves(s, s', t) || (s'.mem == s.mem && Begins(s, s', t, s'.threads[t].op))
  {
  }

  lemma OneMoreStep(run: seq<State>, sched: Schedule, k: nat)
    requires IsRun(run, sched) && k < |sched| && RunOk(run, k)
    ensures RunOk(run, k + 1) && Evolves(run[k].mem, run[k + 1].mem)
  {
    var t, k' := sched[k], k + 1;
    assert StepAt(run, sched, k);
    StepKinds(run[k], run[k'], t);
    if !Moves(run[k], run[k'], t) {
      BeginOk(run, k, t);
      EvolvesSelf(run[k].mem);
    } else if run[k].threads[t].pc.Done? {
      ReturnOk(run, k, t);
    } else {
      MoverOk(run, sched, k);
    }
    forall u | 0 <= u < |run[k'].threads| ensures ThreadOk(run, u, k') {
      if u != t { OthersOk(run, k, u); }
    }
  }

  lemma FirstState(run: seq<State>, sched: Schedule)
    requires IsRun(run, sched)
    ensures RunOk(run, 0) && Map(run[0]) == map[]
  {
    var m := run[0].mem;
    assert MemInv(m) && Shaped(m);
    assert forall p: nat :: !Contains(m, p);
  }

  lemma {:induction false} RunsAreOk(run: seq<State>, sched: Schedule, k: nat)
    requires IsRun(run, sched) && k < |run|
    ensures RunOk(run, k)
  {
    if k == 0 {
      FirstState(run, sched);
    } else {
      RunsAreOk(run, sched, k - 1);
      OneMoreStep(run, sched, k - 1);
    }
  }

  // ---------------------------------------------------------------- growing only

  lemma SameMap(m: Memory, m': Memory)
    requires m.cur < |m.gens| && m'.cur < |m'.gens| && Same(m, m')
    ensures Abs(m') == Abs(m)
  {
    assert forall p: nat :: p in Abs(m') <==> p in Abs(m);
  }

  lemma AddedMap(m: Memory, m': Memory, p: nat)
    requires m.cur < |m.gens| && m'.cur < |m'.gens| && Adds(m, p, m')
    ensures p !in Abs(m) && Abs(m') == Abs(m)[p := p]
  {
    assert forall q: nat :: q in Abs(m') <==> q in Abs(m)[p := p];
  }

  /** Once a pointer is in the set it stays there, through all migrations. */
  lemma {:induction false} MemberForever(run: seq<State>, sched: Schedule, k: nat, l: nat, p: nat)
    requires IsRun(run, sched) && k <= l < |run| && p in Map(run[k])
    ensures p in Map(run[l])
    decreases l
  {
    if k < l {
      MemberForever(run, sched, k, l - 1, p);
      RunsAreOk(run, sched, l - 1);
      OneMoreStep(run, sched, l - 1);
      assert Contains(run[l - 1].mem, p);
    }
  }

  /** When the storage is swapped, the storage that becomes current has every pointer of the set. */
  lemma NobodyLeftBehind(run: seq<State>, sched: Schedule, k: nat, p: nat) returns (i: nat)
    requires IsRun(run, sched) && k < |sched| && run[k + 1].mem.cur != run[k].mem.cur && p in Map(run[k])
    ensures run[k + 1].mem.cur == run[k].mem.cur + 1 < |run[k + 1].mem.gens|
    ensures var c := run[k + 1].mem.gens[run[k + 1].mem.cur]; i < |c.slots| && c.slots[i] == Slot(p, false)
  {
    RunsAreOk(run, sched, k);
    OneMoreStep(run, sched, k);
    var s, m, m' := run[k], run[k].mem, run[k + 1].mem;
    assert Contains(m, p) && Contains(m', p);
    assert StepAt(run, sched, k);
    StepKinds(s, run[k + 1], sched[k]);
    OnlySwapMoves(m, s.threads[sched[k]].op, s.threads[sched[k]].pc);
    assert ThreadOk(run, sched[k], k);
    assert !HasPending(m');
    var c := m'.gens[m'.cur];
    i :| 0 <= i < |c.slots| && c.slots[i].owner == p;
    assert !c.slots[i].redirected;
  }

  lemma OnlySwapMoves(m: Memory, op: Op, pc: Pc)
    requires Shaped(m) && PcOk(m, pc) && Step(m, op, pc).0.cur != m.cur
    ensures pc.Swap? && m.cur == pc.job.g && Step(m, op, pc).0 == m.(cur := pc.job.q)
  {
  }

  /** No thread is ever stuck. */
  lemma NeverStuck(run: seq<State>, sched: Schedule, k: nat, t: nat)
    requires IsRun(run, sched) && k < |run| && t < |run[k].threads|
    ensures Shaped(run[k].mem) && PcOk(run[k].mem, run[k].threads[t].pc)
  {
    RunsAreOk(run, sched, k);
    assert ThreadOk(run, t, k);
    var th := run[k].threads[t];
    if !th.pc.Idle? && !th.pc.Done? { EveryStep(run[k].mem, th.op, th.pc, Map(run[CallStart(run, t, k)])); }
  }

  // --------------------------------------------------------------- linearizability

  /** The call that ends with the step to state `c`, if one does. */
  ghost function CallEnding(run: seq<State>, sched: Schedule, c: nat): Option<Call<Op, Result>>
    requires IsRun(run, sched) && c < |run|
  {
    if c > 0 && sched[c - 1] < |run[0].threads| && run[c].threads[sched[c - 1]].pc.Done? then
      var t := sched[c - 1];
      Some(Call(run[c].threads[t].op, run[c].threads[t].pc.result, CallStart(run, t, c)))
    else None
  }

  ghost function HistoryOf(run: seq<State>, sched: Schedule): (calls: History<Op, Result>)
    requires IsRun(run, sched)
    ensures |calls| == |run|
    ensures forall c :: 0 <= c < |run| ==> calls[c] == CallEnding(run, sched, c)
  {
    seq(|run|, c requires 0 <= c < |run| && IsRun(run, sched) => CallEnding(run, sched, c))
  }

  ghost function MapsOf(run: seq<State>): (maps: seq<map<nat, Value>>)
    ensures |maps| == |run|
    ensures forall i :: 0 <= i < |run| ==> maps[i] == Map(run[i])
  {
    TraceOf(run, Map)
  }

  /** What the answer of a step means for the map. */
  lemma AnswerIsAtomic(m: Memory, op: Op, a: map<nat, Value>, m': Memory, r: Result)
    requires m.cur < |m.gens| && m'.cur < |m'.gens| && Legal(op) && OnPointer(op) && Answered(m, op, a, m', r)
    ensures || (r == Found(None) && Abs(m') == Abs(m) && Atomic(op, a) == (a, r))
            || (Abs(m') == Abs(m) && Atomic(op, Abs(m)) == (Abs(m), r))
            || (Abs(m') != Abs(m) && Atomic(op, Abs(m)) == (Abs(m'), r))
  {
    var h := Hash(op);
    match r
    case Found(None) => SameMap(m, m');
    case Found(Some(v)) => SameMap(m, m');
    case Exists => SameMap(m, m');
    case Registered(Some(v)) => SameMap(m, m');
    case Ok => AddedMap(m, m', h);
    case Registered(None) => AddedMap(m, m', h);
  }

  /** Every call performs its operation with its last step, or answers as the map does at an instant of the call. */
  lemma EveryCallLinearizes(run: seq<State>, sched: Schedule, c: nat) returns (j: nat)
    requires IsRun(run, sched) && c < |run| && CallEnding(run, sched, c).Some?
    ensures var call := CallEnding(run, sched, c).value;
            (PerformedAt(Atomic, MapsOf(run), call, c) && j == c - 1) || (Map(run[c]) == Map(run[c - 1]) && AnsweredAt(Atomic, MapsOf(run), call, c, j))
  {
    var k, t, call := c - 1, sched[c - 1], CallEnding(run, sched, c).value;
    assert StepAt(run, sched, k);
    RunsAreOk(run, sched, k);
    var s, s' := run[k], run[c];
    if s.threads[t].pc.Idle? {
      j := c;
    } else {
      MoverOk(run, sched, k);
      assert ThreadOk(run, t, k);
      var b := CallStart(run, t, k);
      AnswerIsAtomic(s.mem, call.op, Map(run[b]), s'.mem, call.result);
      j := if Map(s') == Map(s) && Atomic(call.op, Map(s)) != (Map(s), call.result) then b else k;
    }
  }

  /** The map changes only with a step that ends a call. */
  lemma OnlyCallsChangeTheMap(run: seq<State>, sched: Schedule, k: nat)
    requires IsRun(run, sched) && k < |sched| && Map(run[k + 1]) != Map(run[k])
    ensures CallEnding(run, sched, k + 1).Some?
  {
    assert StepAt(run, sched, k);
    RunsAreOk(run, sched, k);
    var t := sched[k];
    StepKinds(run[k], run[k + 1], t);
    if Moves(run[k], run[k + 1], t) {
      if run[k].threads[t].pc.Done? {
        ReturnOk(run, k, t);
        SameMap(run[k].mem, run[k + 1].mem);
      } else {
        MoverOk(run, sched, k);
        if !run[k + 1].threads[t].pc.Done? { SameMap(run[k].mem, run[k + 1].mem); }
      }
    }
  }

  lemma PlaceOf(run: seq<State>, sched: Schedule, c: nat) returns (j: nat)
    requires IsRun(run, sched) && c < |run|
    ensures PlacedAt(Atomic, MapsOf(run), HistoryOf(run, sched), c, j)
  {
    if CallEnding(run, sched, c).Some? {
      j := EveryCallLinearizes(run, sched, c);
    } else {
      j := 0;
      if c > 0 && Map(run[c]) != Map(run[c - 1]) { OnlyCallsChangeTheMap(run, sched, c - 1); }
    }
  }

  /** Every run of any number of threads is linearizable. */
  lemma Linearizable(run: seq<State>, sched: Schedule) returns (order: seq<nat>)
    requires IsRun(run, sched)
    ensures Linearization(Atomic, HistoryOf(run, sched), order, map[], Map(run[|run| - 1]))
  {
    FirstState(run, sched);
    var trace, calls := MapsOf(run), HistoryOf(run, sched);
    forall c: nat | c < |run| ensures HasPlace(Atomic, trace, calls, c) {
      var j := PlaceOf(run, sched, c);
    }
    order := LinearizableByInstants(Atomic, trace, calls);
  }

  // -------------------------------------------------------------------- one winner

  /** insert or register that reports that it did insert. */
  predicate DidInsert(call: Call<Op, Result>) {
    (call.op.Insert? && call.result == Ok) || (call.op.Register? && call.result == Registered(None))
  }

  lemma WinnerBinds(run: seq<State>, sched: Schedule, c: nat)
    requires IsRun(run, sched) && c < |run| && CallEnding(run, sched, c).Some? && DidInsert(CallEnding(run, sched, c).value)
    ensures var h := Hash(CallEnding(run, sched, c).value.op); c > 0 && h !in Map(run[c - 1]) && h in Map(run[c])
  {
    var j := EveryCallLinearizes(run, sched, c);
    var call := CallEnding(run, sched, c).value;
  }

  /** In a whole run at most one call reports that it inserted a given pointer. */
  lemma OneWinner(run: seq<State>, sched: Schedule, c: nat, d: nat)
    requires IsRun(run, sched) && c < |run| && d < |run|
    requires CallEnding(run, sched, c).Some? && CallEnding(run, sched, d).Some?
    requires DidInsert(CallEnding(run, sched, c).value) && DidInsert(CallEnding(run, sched, d).value)
    requires Hash(CallEnding(run, sched, c).value.op) == Hash(CallEnding(run, sched, d).value.op)
    ensures c == d
  {
    WinnerBinds(run, sched, c);
    WinnerBinds(run, sched, d);
    var h := Hash(CallEnding(run, sched, c).value.op);
    if c < d { MemberForever(run, sched, c, d - 1, h); }
    if d < c { MemberForever(run, sched, d, c - 1, h); }
  }
}
