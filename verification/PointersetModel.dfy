/**
 `mulle_concurrent_pointerset` as a step machine: a set that only grows, one word per
 slot. Every access to a shared word is one step. Storages are numbered in the order
 in which they become `next_storage`, so that this is always the last.

 A set is the map that binds each of its pointers to itself: member is lookup.
 */
module PointersetModel {
  import opened Options
  import opened Probing
  import opened Sizes
  import opened MapSpec

  /** What a thread finds in a slot. */
  datatype Word = Vacant | Member(pointer: nat) | Redirect

  /** A redirected slot remembers its owner, for the proofs: no step looks at it (see Read). */
  datatype Slot = Slot(owner: nat, redirected: bool)

  function Read(s: Slot): Word {
    if s.redirected then Redirect else if s.owner == 0 then Vacant else Member(s.owner)
  }

  /** `constant` is the shared read-only storage of an empty set. */
  datatype Generation = Generation(slots: seq<Slot>, nUsed: nat, constant: bool)

  /** `cur` is `set->storage`. */
  datatype Memory = Memory(gens: seq<Generation>, cur: nat)

  /** copy of generation `g` to `q`, at slot `j`. */
  datatype Job = Job(g: nat, q: nat, j: nat)

  datatype Pc =
    | Idle
    | ReadStorage
    | MemberProbe(g: nat, i: nat)
    | ReadCount(g: nat)
    | RegisterRead(g: nat, i: nat)
    | RegisterCas(g: nat, i: nat)
    | MigrateCheck(g: nat)
    | NextRead(g: nat)
    | NextCas(g: nat)
    | CopyRead(job: Job)
    | CopyFreeze(job: Job)
    | PutRead(job: Job, p: nat, i: nat)
    | PutCas(job: Job, p: nat, i: nat)
    | PutIncrement(job: Job, p: nat)
    | Retire(job: Job, p: nat)
    | Swap(job: Job)
    // the answer is certain; a call that inserted has yet to count its slot
    | Done(result: Result, counts: Option<nat>)

  datatype Thread = Thread(op: Op, pc: Pc)

  datatype State = State(mem: Memory, threads: seq<Thread>)

  // ------------------------------------------------------------------ memory

  predicate Shaped(m: Memory) {
    m.cur < |m.gens| && forall g :: 0 <= g < |m.gens| ==> |m.gens[g].slots| > 0
  }

  function Size(m: Memory, g: nat): nat
    requires g < |m.gens|
  {
    |m.gens[g].slots|
  }

  function Pos(m: Memory, g: nat, p: nat, i: nat): (k: nat)
    requires Shaped(m) && g < |m.gens|
    ensures k < |m.gens[g].slots|
  {
    Probe(p, i, |m.gens[g].slots|)
  }

  function ReadAt(m: Memory, g: nat, p: nat, i: nat): Word
    requires Shaped(m) && g < |m.gens|
  {
    Read(m.gens[g].slots[Pos(m, g, p, i)])
  }

  function WithSlot(m: Memory, g: nat, k: nat, s: Slot): Memory
    requires g < |m.gens| && k < |m.gens[g].slots|
  {
    m.(gens := m.gens[g := m.gens[g].(slots := m.gens[g].slots[k := s])])
  }

  function WithMember(m: Memory, g: nat, k: nat, p: nat): Memory
    requires g < |m.gens| && k < |m.gens[g].slots|
  {
    WithSlot(m, g, k, Slot(p, false))
  }

  function WithRedirect(m: Memory, g: nat, k: nat): Memory
    requires g < |m.gens| && k < |m.gens[g].slots|
  {
    WithSlot(m, g, k, m.gens[g].slots[k].(redirected := true))
  }

  function WithIncrement(m: Memory, g: nat): Memory
    requires g < |m.gens|
  {
    m.(gens := m.gens[g := m.gens[g].(nUsed := m.gens[g].nUsed + 1)])
  }

  function Fresh(size: nat): Generation {
    Generation(seq(AllocSize(size), _ => Slot(0, false)), 0, false)
  }

  const EMPTY_STORAGE := Generation([Slot(0, false)], 0, true)

  predicate MustMigrate(gen: Generation) {
    gen.constant || gen.nUsed >= |gen.slots| - |gen.slots| / 2
  }

  // ------------------------------------------------------------------- steps

  function Present(op: Op): Result {
    if op.Insert? then Exists else Registered(Some(Hash(op)))
  }

  /** register has found `x`. */
  function Tried(m: Memory, op: Op, g: nat, i: nat, x: Word): Pc
    requires g < |m.gens|
  {
    if x == Member(Hash(op)) then Done(Present(op), None)
    else if x == Redirect || i + 1 >= Size(m, g) then MigrateCheck(g)
    else RegisterRead(g, i + 1)
  }

  /** The register of a copied pointer has found `x`; what it answers is ignored. */
  function PutTried(m: Memory, job: Job, p: nat, i: nat, x: Word): Pc
    requires job.q < |m.gens|
  {
    if x == Member(p) || x == Redirect || i + 1 >= Size(m, job.q) then Retire(job, p) else PutRead(job, p, i + 1)
  }

  function CopyBegins(m: Memory, g: nat, q: nat): Pc
    requires g < |m.gens|
  {
    if m.gens[g].constant then Swap(Job(g, q, 0)) else CopyRead(Job(g, q, 0))
  }

  function NextSlot(job: Job): Pc {
    CopyRead(job.(j := job.j + 1))
  }

  /** copy looks at what it has got of its slot. */
  function Inspect(job: Job, x: Word): Pc {
    match x
    case Vacant => CopyFreeze(job)
    case Redirect => NextSlot(job)
    case Member(p) => PutRead(job, p, 0)
  }

  predicate JobInRange(m: Memory, job: Job) {
    job.g < |m.gens| && job.j < |m.gens[job.g].slots|
  }

  predicate PcOk(m: Memory, pc: Pc) {
    match pc
    case MemberProbe(g, _) => g < |m.gens|
    case ReadCount(g) => g < |m.gens|
    case RegisterRead(g, _) => g < |m.gens|
    case RegisterCas(g, _) => g < |m.gens|
    case NextRead(g) => g < |m.gens|
    case NextCas(g) => g < |m.gens|
    case CopyRead(job) => job.g < |m.gens|
    case CopyFreeze(job) => JobInRange(m, job)
    case PutRead(job, _, _) => job.q < |m.gens|
    case PutCas(job, _, _) => job.q < |m.gens|
    case PutIncrement(job, _) => job.q < |m.gens|
    case Retire(job, _) => JobInRange(m, job)
    case Swap(job) => job.q < |m.gens|
    case Done(_, counts) => counts.Some? ==> counts.value < |m.gens|
    case _ => true
  }

  function Step(m: Memory, op: Op, pc: Pc): (Memory, Pc)
    requires Shaped(m) && PcOk(m, pc)
  {
    var p := Hash(op);
    match pc
    case Idle => (m, Idle)
    case ReadStorage => (m, if op.Lookup? then MemberProbe(m.cur, 0) else ReadCount(m.cur))
    case MemberProbe(g, i) =>
      var x := ReadAt(m, g, p, i);
      (m, if x == Vacant then Done(Found(None), None)
          else if x == Member(p) then Done(Found(Some(p)), None)
          else if x == Redirect then MigrateCheck(g)
          else if i + 1 >= Size(m, g) then Done(Found(None), None)
          else MemberProbe(g, i + 1))
    case ReadCount(g) => (m, if MustMigrate(m.gens[g]) then MigrateCheck(g) else RegisterRead(g, 0))
    case RegisterRead(g, i) =>
      var x := ReadAt(m, g, p, i);
      (m, if x == Vacant then RegisterCas(g, i) else Tried(m, op, g, i, x))
    case RegisterCas(g, i) =>
      var x := ReadAt(m, g, p, i);
      if x == Vacant then
        (WithMember(m, g, Pos(m, g, p, i), p), Done(if op.Insert? then Ok else Registered(None), Some(g)))
      else (m, Tried(m, op, g, i, x))
    case MigrateCheck(g) => (m, if m.cur != g then ReadStorage else NextRead(g))
    case NextRead(g) => (m, if |m.gens| - 1 == g then NextCas(g) else CopyBegins(m, g, |m.gens| - 1))
    case NextCas(g) =>
      if |m.gens| - 1 == g then (m.(gens := m.gens + [Fresh(2 * Size(m, g))]), CopyBegins(m, g, |m.gens|))
      else (m, CopyBegins(m, g, |m.gens| - 1))
    case CopyRead(job) =>
      (m, if job.j >= Size(m, job.g) then Swap(job) else Inspect(job, Read(m.gens[job.g].slots[job.j])))
    case CopyFreeze(job) =>
      var x := Read(m.gens[job.g].slots[job.j]);
      if x == Vacant then (WithRedirect(m, job.g, job.j), NextSlot(job)) else (m, Inspect(job, x))
    case PutRead(job, p, i) =>
      var x := ReadAt(m, job.q, p, i);
      (m, if x == Vacant then PutCas(job, p, i) else PutTried(m, job, p, i, x))
    case PutCas(job, p, i) =>
      var x := ReadAt(m, job.q, p, i);
      if x == Vacant then (WithMember(m, job.q, Pos(m, job.q, p, i), p), PutIncrement(job, p))
      else (m, PutTried(m, job, p, i, x))
    case PutIncrement(job, p) => (WithIncrement(m, job.q), Retire(job, p))
    case Retire(job, p) =>
      var x := Read(m.gens[job.g].slots[job.j]);
      if x == Member(p) then (WithRedirect(m, job.g, job.j), NextSlot(job)) else (m, Inspect(job, x))
    case Swap(job) => (if m.cur == job.g then m.(cur := job.q) else m, ReadStorage)
    case Done(_, counts) => (if counts.Some? then WithIncrement(m, counts.value) else m, Idle)
  }

  // -------------------------------------------------------------------- runs

  ghost predicate Init(s: State) {
    && (s.mem == Memory([EMPTY_STORAGE], 0) || exists size: nat :: IsPow2(size) && s.mem == Memory([Fresh(size)], 0))
    && (forall t :: 0 <= t < |s.threads| ==> s.threads[t].pc.Idle?)
  }

  /**
   member, insert and register of a pointer. `frozen` stands for the pointers that are
   reserved; member may not be called with one.
   */
  predicate OnPointer(op: Op) {
    (op.Lookup? && !op.key.frozen) || ((op.Insert? || op.Register?) && op.val == ValueWord(Live(op.key.hash), false))
  }

  /** Thread `t` starts a call. An illegal argument is answered at once. */
  predicate Begins(s: State, s': State, t: nat, op: Op) {
    && t < |s.threads| && s.threads[t].pc.Idle? && OnPointer(op)
    && s' == s.(threads := s.threads[t := Thread(op, if Legal(op) then ReadStorage else Done(Refusal(op), None))])
  }

  predicate Moves(s: State, s': State, t: nat) {
    && Shaped(s.mem)
    && t < |s.threads| && !s.threads[t].pc.Idle? && PcOk(s.mem, s.threads[t].pc)
    && var th := s.threads[t];
       var (m', pc') := Step(s.mem, th.op, th.pc);
       s' == State(m', s.threads[t := th.(pc := pc')])
  }

  ghost predicate Next(s: State, s': State, t: nat) {
    Moves(s, s', t) || exists op :: Begins(s, s', t, op)
  }
}
