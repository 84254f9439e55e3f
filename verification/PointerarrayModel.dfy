/**
 mulle_concurrent_pointerarray as a step machine: an array that only grows. Every
 access to a shared word is one step. A generation is a storage; storages are numbered
 in the order in which they become `next_storage`, so that this is always the last.
 */
module PointerarrayModel {
  import opened Options

  /** A value that add was called with: by which thread, and in which state of the run. */
  datatype Item = Item(value: nat, thread: nat, called: nat)

  datatype Slot = Empty | Filled(item: Item) | Redirect

  /** `n` is the published count. */
  datatype Generation = Generation(slots: seq<Slot>, n: nat)

  /** `cur` is `storage`. */
  datatype Memory = Memory(gens: seq<Generation>, cur: nat)

  datatype Op = Add(item: Item) | Get(index: nat)

  /** A call that migrates generation `p` to generation `q`, and then starts over. */
  datatype Job = Job(op: Op, p: nat, q: nat)

  /** What follows publish. */
  datatype Then =
    | AddTried(item: Item, i: nat, won: bool)
    | PutTried(job: Job, j: nat, item: Item)
    | CopyEnds(job: Job)

  datatype Pc =
    | Idle
    | ReadStorage(op: Op)
    // add
    | AddIndex(item: Item, p: nat)
    | AddSlot(item: Item, p: nat, i: nat)
    // publish
    | PubIndex(d: nat, then_: Then)
    | PubSlot(d: nat, k: nat, then_: Then)
    | PubCas(d: nat, k: nat, then_: Then)
    // get
    | GetCount(index: nat, p: nat)
    | GetSlot(index: nat, p: nat)
    // migrate
    | MigrateCheck(op: Op, p: nat)
    | MigrateNext(op: Op, p: nat)
    | MigrateAlloc(op: Op, p: nat)
    | CopySlot(job: Job, dst: nat, j: nat)
    | CopyFreeze(job: Job, dst: nat, j: nat)
    | PutCas(job: Job, dst: nat, j: nat, item: Item)
    | PutNext(job: Job, dst: nat, j: nat, item: Item)
    | CopyRetire(job: Job, dst: nat, j: nat, item: Item)
    | Swap(job: Job)
    | Done(op: Op, result: Option<Item>)

  datatype State = State(mem: Memory, threads: seq<Pc>, now: nat)

  // ------------------------------------------------------------------ memory

  function Size(m: Memory, g: nat): nat {
    if g < |m.gens| then |m.gens[g].slots| else 0
  }

  function Count(m: Memory, g: nat): nat {
    if g < |m.gens| then m.gens[g].n else 0
  }

  /** The slot, or Redirect if there is none. */
  function SlotAt(m: Memory, g: nat, i: nat): Slot {
    if g < |m.gens| && i < |m.gens[g].slots| then m.gens[g].slots[i] else Redirect
  }

  function WithSlot(m: Memory, g: nat, i: nat, x: Slot): Memory
    requires g < |m.gens| && i < |m.gens[g].slots|
  {
    m.(gens := m.gens[g := m.gens[g].(slots := m.gens[g].slots[i := x])])
  }

  function WithCount(m: Memory, g: nat, n: nat): Memory
    requires g < |m.gens|
  {
    m.(gens := m.gens[g := m.gens[g].(n := n)])
  }

  function Fresh(size: nat): Generation {
    Generation(seq(size, _ => Empty), 0)
  }

  function AllocSize(n: nat): nat {
    if n < 8 then 8 else n
  }

  // ------------------------------------------------------------------- steps

  /** After publish. */
  function Continue(d: nat, then_: Then): Pc {
    match then_
    case AddTried(item, i, won) => if won then Done(Add(item), None) else AddIndex(item, d)
    case PutTried(job, j, item) => CopyRetire(job, d, j, item)
    case CopyEnds(job) => Swap(job)
  }

  /** copy looks at the value it has got of slot `j`. */
  function CopyValue(job: Job, dst: nat, j: nat, x: Slot): Pc {
    match x
    case Empty => CopyFreeze(job, dst, j)
    case Redirect => CopySlot(job, dst, j + 1)
    case Filled(item) => PutCas(job, dst, j, item)
  }

  /** The empty storage has no slots and is not written. */
  function CopyBegins(m: Memory, job: Job): Pc {
    if Size(m, job.p) == 0 then Swap(job) else CopySlot(job, job.q, 0)
  }

  predicate PcOk(m: Memory, pc: Pc) {
    match pc
    case AddIndex(_, p) => p < |m.gens|
    case AddSlot(_, p, i) => p < |m.gens| && i < Size(m, p)
    case PubIndex(d, _) => d < |m.gens|
    case PubSlot(d, k, _) => d < |m.gens| && k < Size(m, d)
    case PubCas(d, _, _) => d < |m.gens|
    case GetSlot(index, p) => index < Size(m, p)
    case CopyFreeze(job, _, j) => j < Size(m, job.p)
    case PutCas(_, dst, j, _) => j < Size(m, dst)
    case CopyRetire(job, _, j, _) => j < Size(m, job.p)
    case _ => true
  }

  /** One step of a call. */
  function Step(m: Memory, pc: Pc): (Memory, Pc)
    requires |m.gens| > 0 && PcOk(m, pc) && !pc.Idle? && !pc.Done?
  {
    match pc
    case ReadStorage(op) =>
      (m, match op case Add(item) => AddIndex(item, m.cur) case Get(index) => GetCount(index, m.cur))
    case AddIndex(item, p) =>
      (m, if Count(m, p) >= Size(m, p) then MigrateCheck(Add(item), p) else AddSlot(item, p, Count(m, p)))
    case AddSlot(item, p, i) =>
      (match SlotAt(m, p, i)
       case Redirect => (m, MigrateCheck(Add(item), p))
       case Empty => (WithSlot(m, p, i, Filled(item)), PubIndex(p, AddTried(item, i, true)))
       case Filled(_) => (m, PubIndex(p, AddTried(item, i, false))))
    case PubIndex(d, then_) =>
      (m, if Count(m, d) >= Size(m, d) then Continue(d, then_) else PubSlot(d, Count(m, d), then_))
    case PubSlot(d, k, then_) => (m, if SlotAt(m, d, k).Filled? then PubCas(d, k, then_) else Continue(d, then_))
    case PubCas(d, k, then_) =>
      (if Count(m, d) == k then WithCount(m, d, k + 1) else m, PubIndex(d, then_))
    case GetCount(index, p) =>
      (m, if index >= Count(m, p) then Done(Get(index), None) else GetSlot(index, p))
    case GetSlot(index, p) =>
      (m, match SlotAt(m, p, index)
          case Redirect => MigrateCheck(Get(index), p)
          case Empty => Done(Get(index), None)
          case Filled(item) => Done(Get(index), Some(item)))
    case MigrateCheck(op, p) => (m, if m.cur != p then ReadStorage(op) else MigrateNext(op, p))
    case MigrateNext(op, p) =>
      var q := |m.gens| - 1;
      (m, if q == p then MigrateAlloc(op, p) else CopyBegins(m, Job(op, p, q)))
    case MigrateAlloc(op, p) =>
      if |m.gens| - 1 == p then
        (m.(gens := m.gens + [Fresh(AllocSize(2 * Size(m, p)))]), CopyBegins(m, Job(op, p, |m.gens|)))
      else (m, CopyBegins(m, Job(op, p, |m.gens| - 1)))
    case CopySlot(job, dst, j) =>
      (m, if j >= Size(m, job.p) then PubIndex(dst, CopyEnds(job))
          else CopyValue(job, dst, j, SlotAt(m, job.p, j)))
    case CopyFreeze(job, dst, j) =>
      (match SlotAt(m, job.p, j)
       case Empty => (WithSlot(m, job.p, j, Redirect), CopySlot(job, dst, j + 1))
       case Redirect => (m, CopySlot(job, dst, j + 1))
       case Filled(item) => (m, PutCas(job, dst, j, item)))
    case PutCas(job, dst, j, item) =>
      (match SlotAt(m, dst, j)
       case Redirect => (m, PutNext(job, dst, j, item))
       case Empty => (WithSlot(m, dst, j, Filled(item)), PubIndex(dst, PutTried(job, j, item)))
       case Filled(_) => (m, PubIndex(dst, PutTried(job, j, item))))
    case PutNext(job, _, j, item) => (m, PutCas(job, |m.gens| - 1, j, item))
    case CopyRetire(job, dst, j, item) =>
      if SlotAt(m, job.p, j) == Filled(item) then (WithSlot(m, job.p, j, Redirect), CopySlot(job, dst, j + 1))
      else (m, CopyValue(job, dst, j, SlotAt(m, job.p, j)))
    case Swap(job) => (if m.cur == job.p then m.(cur := job.q) else m, ReadStorage(job.op))
  }

  // -------------------------------------------------------------------- runs

  /** An array made for `size` values; for 0 it is the shared empty storage. */
  predicate Init(s: State, size: nat) {
    && s.mem == Memory([Generation(if size == 0 then [] else seq(AllocSize(size), _ => Empty), 0)], 0)
    && s.now == 0
    && (forall t :: 0 <= t < |s.threads| ==> s.threads[t].Idle?)
  }

  datatype Request = CallAdd(value: nat) | CallGet(index: nat)

  predicate Begins(s: State, s': State, t: nat, q: Request) {
    && t < |s.threads| && s.threads[t].Idle?
    && var op := match q case CallAdd(value) => Add(Item(value, t, s.now + 1)) case CallGet(index) => Get(index);
       s' == s.(threads := s.threads[t := ReadStorage(op)], now := s.now + 1)
  }

  predicate Returns(s: State, s': State, t: nat) {
    t < |s.threads| && s.threads[t].Done? && s' == s.(threads := s.threads[t := Idle], now := s.now + 1)
  }

  predicate Moves(s: State, s': State, t: nat) {
    && t < |s.threads| && |s.mem.gens| > 0 && PcOk(s.mem, s.threads[t]) && !s.threads[t].Idle? && !s.threads[t].Done?
    && var (m, pc) := Step(s.mem, s.threads[t]);
       s' == State(m, s.threads[t := pc], s.now + 1)
  }

  ghost predicate Next(s: State, s': State, t: nat) {
    (exists q :: Begins(s, s', t, q)) || Returns(s, s', t) || Moves(s, s', t)
  }
}
