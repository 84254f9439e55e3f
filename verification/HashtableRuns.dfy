/**
 Whole runs of the hashtable: in every run of any number of threads every call
 answers as an atomic map would at some instant of the call.
 */
module HashtableRuns {
  import opened Options
  import opened MapSpec
  import opened HashtableModel
  import opened HashtableInvariant
  import opened HashtableActions
  import opened HashtableSteps
  import opened HashtableProof

  /** The step from state `i`. */
  ghost predicate StepAt(run: seq<State>, sched: seq<nat>, i: nat) {
    i < |sched| && i + 1 < |run| && Next(run[i], run[i + 1], sched[i])
  }

  /** `run` lists the states, `sched[i]` is the thread that moves from state i to state i + 1. */
  ghost predicate IsRun(run: seq<State>, sched: seq<nat>) {
    && |run| == |sched| + 1
    && Init(run[0])
    && (forall i: nat :: i < |sched| ==> StepAt(run, sched, i))
    && (forall i :: 0 <= i < |run| ==> |run[i].threads| == |run[0].threads|)
  }

  /** The state at which the call began that thread `t` runs in state `k`. */
  ghost function CallStart(run: seq<State>, t: nat, k: nat): (b: nat)
    requires k < |run| && forall i :: 0 <= i <= k ==> t < |run[i].threads|
    ensures b <= k
    ensures !run[k].threads[t].pc.Idle? ==> forall i :: b <= i <= k ==> !run[i].threads[t].pc.Idle?
  {
    if k == 0 || run[k - 1].threads[t].pc.Idle? then k else CallStart(run, t, k - 1)
  }

  /** The map that a state stands for. */
  ghost function Map(s: State): map<nat, Value> {
    if s.mem.cur < |s.mem.gens| then Abs(s.mem) else map[]
  }

  ghost predicate Sound(s: State) {
    MemInv(s.mem) && Shaped(s.mem)
  }

  /** What the map bound `h` to at the states b to k. */
  ghost function Seen(run: seq<State>, b: nat, k: nat, h: nat): set<Option<Value>>
    requires k < |run|
  {
    set i | b <= i <= k :: Get(Map(run[i]), h)
  }

  ghost predicate ThreadOk(run: seq<State>, t: nat, k: nat)
    requires k < |run| && (forall i :: 0 <= i <= k ==> t < |run[i].threads|) && Sound(run[k])
  {
    var th := run[k].threads[t];
    LocalInv(run[k].mem, th.op, th.pc, Seen(run, CallStart(run, t, k), k, Hash(th.op)))
  }

  ghost predicate RunOk(run: seq<State>, k: nat)
    requires k < |run| && forall i :: 0 <= i < |run| ==> |run[i].threads| == |run[0].threads|
  {
    Sound(run[k]) && forall t :: 0 <= t < |run[k].threads| ==> ThreadOk(run, t, k)
  }

  // -------------------------------------------------------- one more step

  lemma SeenGrows(run: seq<State>, b: nat, k: nat, h: nat)
    requires b <= k && k + 1 < |run|
    ensures Seen(run, b, k + 1, h) == Seen(run, b, k, h) + {Get(Map(run[k + 1]), h)}
  {
    var k' := k + 1;
    assert forall o :: o in Seen(run, b, k', h) ==> o in Seen(run, b, k, h) + {Get(Map(run[k']), h)};
  }

  /** The thread that moves. */
  lemma MoverOk(run: seq<State>, sched: seq<nat>, k: nat)
    requires IsRun(run, sched) && k < |sched| && RunOk(run, k)
    requires Moves(run[k], run[k + 1], sched[k]) && !run[k].threads[sched[k]].pc.Done?
    ensures Sound(run[k + 1]) && ThreadOk(run, sched[k], k + 1) && Evolves(run[k].mem, run[k + 1].mem)
    ensures var th, t := run[k].threads[sched[k]], sched[k];
            StepOk(run[k].mem, th.op, Seen(run, CallStart(run, t, k), k, Hash(th.op)),
                   run[k + 1].mem, run[k + 1].threads[t].pc)
  {
    var t := sched[k];
    var th := run[k].threads[t];
    assert ThreadOk(run, t, k);
    var b := CallStart(run, t, k);
    EveryStep(run[k].mem, th.op, th.pc, Seen(run, b, k, Hash(th.op)));
    SeenGrows(run, b, k, Hash(th.op));
  }

  /** The threads that do not. */
  lemma OthersOk(run: seq<State>, k: nat, t: nat)
    requires k + 1 < |run| && (forall i :: 0 <= i < |run| ==> |run[i].threads| == |run[0].threads|)
    requires RunOk(run, k) && Sound(run[k + 1]) && Evolves(run[k].mem, run[k + 1].mem)
    requires t < |run[k].threads| && run[k + 1].threads[t] == run[k].threads[t]
    ensures ThreadOk(run, t, k + 1)
  {
    var th := run[k].threads[t];
    assert ThreadOk(run, t, k);
    if !th.pc.Idle? {
      var b := CallStart(run, t, k);
      Stable(run[k].mem, run[k + 1].mem, th.op, th.pc, Seen(run, b, k, Hash(th.op)));
      SeenGrows(run, b, k, Hash(th.op));
    }
  }

  lemma EvolvesSelf(m: Memory)
    ensures Evolves(m, m)
  {
  }

  /** Starting a call and returning from one leave memory alone. */
  lemma EdgeOk(run: seq<State>, sched: seq<nat>, k: nat)
    requires IsRun(run, sched) && k < |sched| && RunOk(run, k) && sched[k] < |run[k].threads|
    requires run[k + 1].mem == run[k].mem
    requires run[k + 1].threads[sched[k]].pc.Idle? || run[k].threads[sched[k]].pc.Idle?
    requires run[k + 1].threads[sched[k]].pc in {Idle, ReadStorage} || run[k + 1].threads[sched[k]].pc.Done?
    requires run[k + 1].threads[sched[k]].pc.ReadStorage? ==> Legal(run[k + 1].threads[sched[k]].op)
    ensures Sound(run[k + 1]) && ThreadOk(run, sched[k], k + 1)
  {
    var t := sched[k];
    if !run[k + 1].threads[t].pc.Idle? {
      assert CallStart(run, t, k + 1) == k + 1;
      var h := Hash(run[k + 1].threads[t].op);
      assert Get(Map(run[k + 1]), h) in Seen(run, k + 1, k + 1, h);
    }
  }

  lemma OneMoreStep(run: seq<State>, sched: seq<nat>, k: nat)
    requires IsRun(run, sched) && k < |sched| && RunOk(run, k)
    ensures RunOk(run, k + 1)
  {
    var t := sched[k];
    assert StepAt(run, sched, k);
    if Moves(run[k], run[k + 1], t) && !run[k].threads[t].pc.Done? {
      MoverOk(run, sched, k);
    } else {
      EdgeOk(run, sched, k);
      EvolvesSelf(run[k].mem);
    }
    var k' := k + 1;
    forall u | 0 <= u < |run[k'].threads| ensures ThreadOk(run, u, k') {
      if u != t {
        OthersOk(run, k, u);
      }
    }
  }

  lemma FirstState(run: seq<State>, sched: seq<nat>)
    requires IsRun(run, sched)
    ensures RunOk(run, 0) && Abs(run[0].mem) == map[]
  {
    var size: nat :| run[0].mem == Memory([Fresh(size)], 0);
    FreshIsOk(size);
  }

  /** Every state of every run satisfies the memory and the thread invariants. */
  lemma {:induction false} RunsAreOk(run: seq<State>, sched: seq<nat>, k: nat)
    requires IsRun(run, sched) && k < |run|
    ensures RunOk(run, k)
  {
    if k == 0 {
      FirstState(run, sched);
    } else {
      RunsAreOk(run, sched, k - 1);
      OneMoreStep(run, sched, k - 1);
    }
  }

  // ------------------------------------------------------ advancing storage

  lemma StepEvolves(run: seq<State>, sched: seq<nat>, k: nat)
    requires IsRun(run, sched) && k < |sched|
    ensures Sound(run[k]) && Sound(run[k + 1]) && Evolves(run[k].mem, run[k + 1].mem)
  {
    RunsAreOk(run, sched, k);
    RunsAreOk(run, sched, k + 1);
    assert StepAt(run, sched, k);
    if Moves(run[k], run[k + 1], sched[k]) && !run[k].threads[sched[k]].pc.Done? {
      MoverOk(run, sched, k);
    } else {
      EvolvesSelf(run[k].mem);
    }
  }

  /** No compare-and-swap ever succeeds again in a generation that `map->storage` has left. */
  lemma {:induction false} RetiredForever(run: seq<State>, sched: seq<nat>, k: nat, l: nat, g: nat)
    requires IsRun(run, sched) && k <= l < |run| && g < run[k].mem.cur
    ensures g < run[l].mem.cur < |run[l].mem.gens| && g < |run[k].mem.gens|
    ensures run[l].mem.gens[g].slots == run[k].mem.gens[g].slots
  {
    RunsAreOk(run, sched, k);
    if k < l {
      RetiredForever(run, sched, k, l - 1, g);
      StepEvolves(run, sched, l - 1);
      RetiredStays(run[l - 1].mem.gens[g], run[l].mem.gens[g]);
    }
  }

  /**
   When `map->storage` moves on, it moves to the immediate successor, every slot it
   leaves is frozen and every claimed one sealed, and the successor binds exactly
   what the generation it leaves bound.
   */
  lemma AdvanceIsInvisible(run: seq<State>, sched: seq<nat>, k: nat)
    requires IsRun(run, sched) && k < |sched| && run[k + 1].mem.cur != run[k].mem.cur
    ensures var m, m' := run[k].mem, run[k + 1].mem;
            && m'.cur == m.cur + 1 < |m.gens| && m'.gens == m.gens
            && AllRetired(m.gens[m.cur])
            && Contents(m.gens[m'.cur]) == Contents(m.gens[m.cur])
  {
    var m, m' := run[k].mem, run[k + 1].mem;
    StepEvolves(run, sched, k);
    assert PastRetired(m') && PastCarried(m');
    assert AllRetired(m'.gens[m.cur]) && CarriedOver(m'.gens[m.cur], m'.gens[m.cur + 1]);
    SuccessorEqual(m.gens[m.cur], m.gens[m.cur + 1]);
  }
}
