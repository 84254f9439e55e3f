/**
 `mulle_concurrent_hashmap` as a step machine: the insert-only map. A migration puts
 the values into the successor first and redirects the old slots after. Every access
 to a shared word is one step. Storages are numbered in the order in which they become
 `next_storage`, so that this is always the last.
 */
module HashmapModel {
  import opened Options
  import opened Probing
  import opened Sizes
  import opened MapSpec

  /** The value word. */
  datatype Word = Void | Holding(value: Value) | Redirect

  /** Hash 0 is NO_HASH. */
  datatype Slot = Slot(hash: nat, word: Word)

  /** `constant` is the shared read-only storage of an empty map. */
  datatype Generation = Generation(slots: seq<Slot>, nHashs: nat, constant: bool)

  /** `cur` is `map->storage`. */
  datatype Memory = Memory(gens: seq<Generation>, cur: nat)

  /** copy of generation `g` to `q`, at slot `j`. */
  datatype Job = Job(g: nat, q: nat, j: nat)

  /** put of `v` under `h`, into generation `d`, after `i` probes. */
  datatype Put = Put(h: nat, v: Value, d: nat, i: nat)

  datatype Pc =
    | Idle
    | ReadStorage
    | LookProbe(g: nat, i: nat)
    | LookValue(g: nat, i: nat)
    | ReadCount(g: nat)
    | ClaimRead(g: nat, i: nat)
    | ClaimCas(g: nat, i: nat)
    | ClaimIncrement(g: nat, i: nat)
    | Fill(g: nat, i: nat)
    | NextRead(g: nat)
    | NextCas(g: nat)
    | CopyHash(job: Job)
    | FreezeVirgin(job: Job)
    | CopyRehash(job: Job, v: Value)
    | CopyValue(job: Job, h: nat)
    | FreezeVoid(job: Job, h: nat)
    | PutRead(job: Job, put: Put)
    | PutCas(job: Job, put: Put)
    | PutIncrement(job: Job, put: Put)
    | PutInstall(job: Job, put: Put)
    | PutNext(job: Job, put: Put)
    | PutBusy(job: Job, put: Put)
    | Retire(job: Job, put: Put)
    | Swap(job: Job)
    | Done(result: Result)

  datatype Thread = Thread(op: Op, pc: Pc)

  datatype State = State(mem: Memory, threads: seq<Thread>)

  // ------------------------------------------------------------------ memory

  predicate Shaped(m: Memory) {
    m.cur < |m.gens| && forall g :: 0 <= g < |m.gens| ==> |m.gens[g].slots| > 0
  }

  function Size(m: Memory, g: nat): nat
    requires g < |m.gens|
  {
    |m.gens[g].slots|
  }

  /** The slot of the i-th probe for `h`. */
  function Pos(m: Memory, g: nat, h: nat, i: nat): (k: nat)
    requires Shaped(m) && g < |m.gens|
    ensures k < |m.gens[g].slots|
  {
    Probe(h, i, |m.gens[g].slots|)
  }

  function SlotAt(m: Memory, g: nat, h: nat, i: nat): Slot
    requires Shaped(m) && g < |m.gens|
  {
    m.gens[g].slots[Pos(m, g, h, i)]
  }

  function WithSlot(m: Memory, g: nat, k: nat, s: Slot): Memory
    requires g < |m.gens| && k < |m.gens[g].slots|
  {
    m.(gens := m.gens[g := m.gens[g].(slots := m.gens[g].slots[k := s])])
  }

  function WithClaim(m: Memory, g: nat, k: nat, h: nat): Memory
    requires g < |m.gens| && k < |m.gens[g].slots|
  {
    WithSlot(m, g, k, m.gens[g].slots[k].(hash := h))
  }

  function WithWord(m: Memory, g: nat, k: nat, x: Word): Memory
    requires g < |m.gens| && k < |m.gens[g].slots|
  {
    WithSlot(m, g, k, m.gens[g].slots[k].(word := x))
  }

  function WithIncrement(m: Memory, g: nat): Memory
    requires g < |m.gens|
  {
    m.(gens := m.gens[g := m.gens[g].(nHashs := m.gens[g].nHashs + 1)])
  }

  function Fresh(size: nat): Generation {
    Generation(seq(AllocSize(size), _ => Slot(0, Void)), 0, false)
  }

  const EMPTY_STORAGE := Generation([Slot(0, Void)], 0, true)

  /** Half the slots are in use, or the storage must not be written. */
  predicate MustMigrate(gen: Generation) {
    gen.constant || gen.nHashs >= |gen.slots| - |gen.slots| / 2
  }

  // ------------------------------------------------------------------- steps

  function NextProbe(m: Memory, g: nat, i: nat, pc: Pc): Pc
    requires g < |m.gens|
  {
    if i + 1 == Size(m, g) then NextRead(g) else pc
  }

  /** claim finds that the slot belongs to hash `found`. */
  function Claimed(m: Memory, g: nat, i: nat, h: nat, found: nat): Pc
    requires g < |m.gens|
  {
    if found == h then Fill(g, i) else NextProbe(m, g, i, ClaimRead(g, i + 1))
  }

  function PutClaimed(m: Memory, job: Job, put: Put, found: nat): Pc
    requires put.d < |m.gens|
  {
    if found == put.h then PutInstall(job, put)
    else if put.i + 1 == Size(m, put.d) then PutBusy(job, put)
    else PutRead(job, put.(i := put.i + 1))
  }

  function CopyBegins(m: Memory, g: nat, q: nat): Pc
    requires g < |m.gens|
  {
    if m.gens[g].constant then Swap(Job(g, q, 0)) else CopyHash(Job(g, q, 0))
  }

  function NextSlot(job: Job): Pc {
    CopyHash(job.(j := job.j + 1))
  }

  /** copy looks at the value `x` that it has got of its slot. */
  function Inspect(job: Job, h: nat, x: Word): Pc {
    match x
    case Void => FreezeVoid(job, h)
    case Redirect => NextSlot(job)
    case Holding(v) => PutRead(job, Put(h, v, job.q, 0))
  }

  predicate JobInRange(m: Memory, job: Job) {
    job.g < |m.gens| && job.j < |m.gens[job.g].slots|
  }

  predicate PcOk(m: Memory, pc: Pc) {
    match pc
    case LookProbe(g, _) => g < |m.gens|
    case LookValue(g, _) => g < |m.gens|
    case ReadCount(g) => g < |m.gens|
    case ClaimRead(g, _) => g < |m.gens|
    case ClaimCas(g, _) => g < |m.gens|
    case ClaimIncrement(g, _) => g < |m.gens|
    case Fill(g, _) => g < |m.gens|
    case NextRead(g) => g < |m.gens|
    case NextCas(g) => g < |m.gens|
    case CopyHash(job) => job.g < |m.gens|
    case FreezeVirgin(job) => JobInRange(m, job)
    case CopyRehash(job, _) => JobInRange(m, job)
    case CopyValue(job, _) => JobInRange(m, job)
    case FreezeVoid(job, _) => JobInRange(m, job)
    case PutRead(_, put) => put.d < |m.gens|
    case PutCas(_, put) => put.d < |m.gens|
    case PutIncrement(_, put) => put.d < |m.gens|
    case PutInstall(_, put) => put.d < |m.gens|
    case Retire(job, _) => JobInRange(m, job)
    case Swap(job) => job.q < |m.gens|
    case _ => true
  }

  function Store(op: Op): Value {
    if Val(op).Live? then Val(op).value else 0
  }

  /** lookup, insert and register. */
  function CallStep(m: Memory, op: Op, pc: Pc): (Memory, Pc)
    requires Shaped(m) && PcOk(m, pc)
    requires pc.ReadStorage? || pc.LookProbe? || pc.LookValue? || pc.ReadCount? || pc.ClaimRead? || pc.ClaimCas? || pc.ClaimIncrement? || pc.Fill?
  {
    var h := Hash(op);
    match pc
    case ReadStorage => (m, if op.Lookup? then LookProbe(m.cur, 0) else ReadCount(m.cur))
    case LookProbe(g, i) =>
      var found := SlotAt(m, g, h, i).hash;
      (m, if found == 0 then Done(Found(None))
          else if found == h then LookValue(g, i)
          else NextProbe(m, g, i, LookProbe(g, i + 1)))
    case LookValue(g, i) =>
      (m, match SlotAt(m, g, h, i).word
          case Void => Done(Found(None))
          case Holding(v) => Done(Found(Some(v)))
          case Redirect => NextRead(g))
    case ReadCount(g) => (m, if MustMigrate(m.gens[g]) then NextRead(g) else ClaimRead(g, 0))
    case ClaimRead(g, i) =>
      var found := SlotAt(m, g, h, i).hash;
      (m, if found == 0 then ClaimCas(g, i) else Claimed(m, g, i, h, found))
    case ClaimCas(g, i) =>
      var found := SlotAt(m, g, h, i).hash;
      if found == 0 then (WithClaim(m, g, Pos(m, g, h, i), h), ClaimIncrement(g, i))
      else (m, Claimed(m, g, i, h, found))
    case ClaimIncrement(g, i) => (WithIncrement(m, g), Fill(g, i))
    case Fill(g, i) =>
      (match SlotAt(m, g, h, i).word
       case Void =>
         (WithWord(m, g, Pos(m, g, h, i), Holding(Store(op))), Done(if op.Insert? then Ok else Registered(None)))
       case Redirect => (m, NextRead(g))
       case Holding(v) => (m, Done(if op.Insert? then Exists else Registered(Some(v)))))
  }

  /** migrate_storage and put. */
  function MigrateStep(m: Memory, pc: Pc): (Memory, Pc)
    requires Shaped(m) && PcOk(m, pc)
  {
    match pc
    case NextRead(g) =>
      (m, if |m.gens| - 1 == g then NextCas(g) else CopyBegins(m, g, |m.gens| - 1))
    case NextCas(g) =>
      if |m.gens| - 1 == g then (m.(gens := m.gens + [Fresh(2 * Size(m, g))]), CopyBegins(m, g, |m.gens|))
      else (m, CopyBegins(m, g, |m.gens| - 1))
    case CopyHash(job) =>
      (m, if job.j >= Size(m, job.g) then Swap(job)
          else if m.gens[job.g].slots[job.j].hash == 0 then FreezeVirgin(job)
          else CopyValue(job, m.gens[job.g].slots[job.j].hash))
    case FreezeVirgin(job) =>
      (match m.gens[job.g].slots[job.j].word
       case Void => (WithWord(m, job.g, job.j, Redirect), NextSlot(job))
       case Redirect => (m, NextSlot(job))
       case Holding(v) => (m, CopyRehash(job, v)))
    case CopyRehash(job, v) => (m, PutRead(job, Put(m.gens[job.g].slots[job.j].hash, v, job.q, 0)))
    case CopyValue(job, h) => (m, Inspect(job, h, m.gens[job.g].slots[job.j].word))
    case FreezeVoid(job, h) =>
      var found := m.gens[job.g].slots[job.j].word;
      if found == Void then (WithWord(m, job.g, job.j, Redirect), NextSlot(job)) else (m, Inspect(job, h, found))
    case PutRead(job, put) =>
      var found := SlotAt(m, put.d, put.h, put.i).hash;
      (m, if found == 0 then PutCas(job, put) else PutClaimed(m, job, put, found))
    case PutCas(job, put) =>
      var found := SlotAt(m, put.d, put.h, put.i).hash;
      if found == 0 then (WithClaim(m, put.d, Pos(m, put.d, put.h, put.i), put.h), PutIncrement(job, put))
      else (m, PutClaimed(m, job, put, found))
    case PutIncrement(job, put) => (WithIncrement(m, put.d), PutInstall(job, put))
    case PutInstall(job, put) =>
      (match SlotAt(m, put.d, put.h, put.i).word
       case Void => (WithWord(m, put.d, Pos(m, put.d, put.h, put.i), Holding(put.v)), Retire(job, put))
       case Redirect => (m, PutNext(job, put))
       case Holding(_) => (m, Retire(job, put)))
    case PutNext(job, put) => (m, PutRead(job, put.(d := |m.gens| - 1, i := 0)))
    case PutBusy(job, put) => (m, Retire(job, put))
    case Retire(job, put) =>
      var found := m.gens[job.g].slots[job.j].word;
      if found == Holding(put.v) then (WithWord(m, job.g, job.j, Redirect), NextSlot(job))
      else (m, Inspect(job, put.h, found))
    case Swap(job) => (if m.cur == job.g then m.(cur := job.q) else m, ReadStorage)
    case Done(_) => (m, Idle)
    case _ => (m, pc)
  }

  predicate InCall(pc: Pc) {
    pc.ReadStorage? || pc.LookProbe? || pc.LookValue? || pc.ReadCount? || pc.ClaimRead? || pc.ClaimCas? || pc.ClaimIncrement? || pc.Fill?
  }

  function Step(m: Memory, op: Op, pc: Pc): (Memory, Pc)
    requires Shaped(m) && PcOk(m, pc)
  {
    if InCall(pc) then CallStep(m, op, pc) else MigrateStep(m, pc)
  }

  // -------------------------------------------------------------------- runs

  ghost predicate Init(s: State) {
    && (s.mem == Memory([EMPTY_STORAGE], 0) || exists size: nat :: s.mem == Memory([Fresh(size)], 0))
    && (forall t :: 0 <= t < |s.threads| ==> s.threads[t].pc.Idle?)
  }

  /**
   lookup, insert and register. Neither hashes nor values carry marks here; the values
   that cannot be stored are Empty (NULL) and Tomb (INTPTR_MIN).
   */
  predicate OfHashmap(op: Op) {
    || (op.Lookup? && !op.key.frozen)
    || ((op.Insert? || op.Register?) && !op.key.frozen && !op.val.sealed)
  }

  /** Thread `t` starts a call. insert and register answer an illegal argument at once; lookup does not check its own. */
  predicate Begins(s: State, s': State, t: nat, op: Op) {
    && t < |s.threads| && s.threads[t].pc.Idle? && OfHashmap(op)
    && s' == s.(threads := s.threads[t := Thread(op, if op.Lookup? || Legal(op) then ReadStorage else Done(Refusal(op)))])
  }

  predicate Moves(s: State, s': State, t: nat) {
    && Shaped(s.mem)
    && t < |s.threads| && !s.threads[t].pc.Idle? && PcOk(s.mem, s.threads[t].pc)
    && var th := s.threads[t];
       var (m', pc') := Step(s.mem, th.op, th.pc);
       s' == State(m', s.threads[t := th.(pc := pc')])
  }

  ghost predicate Next(s: State, s': State, t: nat) {
    Moves(s, s', t) || exists op :: Begins(s, s', t, op)
  }
}
