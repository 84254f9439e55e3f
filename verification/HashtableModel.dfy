/**
 `mulle_concurrent_hashtable` as a step machine. Any number of threads run the
 public operations; every read, compare-and-swap or increment of a shared word is
 one step. Generations are numbered in the order in which they are linked:
 generation g + 1 is the `next` of generation g.
 */
module HashtableModel {
  import opened Probing
  import opened Sizes
  import opened Options
  import opened MapSpec

  // ---------------------------------------------------------------- words

  datatype Slot = Slot(hw: HashWord, vw: ValueWord)

  datatype Generation = Generation(slots: seq<Slot>, nHashs: nat)

  /** `cur` is the generation that `map->storage` points to. */
  datatype Memory = Memory(gens: seq<Generation>, cur: nat)

  const VIRGIN := Slot(HashWord(0, false), ValueWord(Empty, false))

  // ------------------------------------------------------- thread locals

  /**
   Where a thread is, with its live locals: `g` is the generation `p`, `i` the
   number of probes made, `j` the slot that copy works on, `q` carry's destination.
   */
  datatype Pc =
    | Idle
    | ReadStorage
    | LookProbe(g: nat, i: nat)
    | LookValue(g: nat, i: nat)
    | ReadCount(g: nat)
    | ClaimRead(g: nat, i: nat)
    | ClaimCas(g: nat, i: nat)
    | ClaimIncrement(g: nat, i: nat)
    | ValueRead(g: nat, i: nat)
    | ValueCas(g: nat, i: nat, want: Payload)
    | RemoveProbe(g: nat, i: nat)
    | RemoveCas(g: nat, i: nat)
    | NextRead(g: nat, size: nat)
    | NextCas(g: nat, size: nat)
    | FreezeRead(g: nat, j: nat)
    | FreezeCas(g: nat, j: nat, seen: HashWord)
    | SealRead(g: nat, j: nat, h: nat)
    | SealCas(g: nat, j: nat, h: nat, want: Payload)
    | CarryRead(g: nat, j: nat, h: nat, v: Value, q: nat, i: nat)
    | CarryCas(g: nat, j: nat, h: nat, v: Value, q: nat, i: nat)
    | CarryIncrement(g: nat, j: nat, h: nat, v: Value, q: nat, i: nat)
    | CarryInstall(g: nat, j: nat, h: nat, v: Value, q: nat, i: nat)
    | CarryNext(g: nat, j: nat, h: nat, v: Value, q: nat)
    | Swap(g: nat)
    | Done(result: Result)

  datatype Thread = Thread(op: Op, pc: Pc)

  datatype State = State(mem: Memory, threads: seq<Thread>)

  // -------------------------------------------------------- memory access

  predicate Shaped(m: Memory) {
    && m.cur < |m.gens|
    && (forall g :: 0 <= g < |m.gens| ==> |m.gens[g].slots| > 0)
  }

  function Size(m: Memory, g: nat): nat
    requires g < |m.gens|
  {
    |m.gens[g].slots|
  }

  function Pos(m: Memory, g: nat, h: nat, i: nat): (k: nat)
    requires Shaped(m) && g < |m.gens|
    ensures k < |m.gens[g].slots|
  {
    Probe(h, i, |m.gens[g].slots|)
  }

  function WithSlot(m: Memory, g: nat, k: nat, s: Slot): (m': Memory)
    requires g < |m.gens| && k < |m.gens[g].slots|
    ensures |m'.gens| == |m.gens| && m'.cur == m.cur
    ensures |m'.gens[g].slots| == |m.gens[g].slots|
  {
    m.(gens := m.gens[g := m.gens[g].(slots := m.gens[g].slots[k := s])])
  }

  function WithClaim(m: Memory, g: nat, k: nat, h: nat): Memory
    requires g < |m.gens| && k < |m.gens[g].slots|
  {
    WithSlot(m, g, k, m.gens[g].slots[k].(hw := HashWord(h, false)))
  }

  function WithFreeze(m: Memory, g: nat, k: nat): Memory
    requires g < |m.gens| && k < |m.gens[g].slots|
  {
    WithSlot(m, g, k, m.gens[g].slots[k].(hw := m.gens[g].slots[k].hw.(frozen := true)))
  }

  function WithSeal(m: Memory, g: nat, k: nat): Memory
    requires g < |m.gens| && k < |m.gens[g].slots|
  {
    WithSlot(m, g, k, m.gens[g].slots[k].(vw := m.gens[g].slots[k].vw.(sealed := true)))
  }

  function WithValue(m: Memory, g: nat, k: nat, p: Payload): Memory
    requires g < |m.gens| && k < |m.gens[g].slots|
  {
    WithSlot(m, g, k, m.gens[g].slots[k].(vw := ValueWord(p, false)))
  }

  function WithIncrement(m: Memory, g: nat): Memory
    requires g < |m.gens|
  {
    m.(gens := m.gens[g := m.gens[g].(nHashs := m.gens[g].nHashs + 1)])
  }

  function Fresh(size: nat): Generation {
    Generation(seq(AllocSize(size), _ => VIRGIN), 0)
  }

  // ------------------------------------------------------------- the code

  /** The locals name memory that exists. */
  predicate PcOk(m: Memory, pc: Pc)
    requires Shaped(m)
  {
    match pc
    case Idle => true
    case ReadStorage => true
    case Done(_) => true
    case LookProbe(g, _) => g < |m.gens|
    case LookValue(g, _) => g < |m.gens|
    case ReadCount(g) => g < |m.gens|
    case ClaimRead(g, _) => g < |m.gens|
    case ClaimCas(g, _) => g < |m.gens|
    case ClaimIncrement(g, _) => g < |m.gens|
    case ValueRead(g, _) => g < |m.gens|
    case ValueCas(g, _, _) => g < |m.gens|
    case RemoveProbe(g, _) => g < |m.gens|
    case RemoveCas(g, _) => g < |m.gens|
    case NextRead(g, _) => g < |m.gens|
    case NextCas(g, _) => g < |m.gens|
    case FreezeRead(g, j) => g + 1 < |m.gens| && j < Size(m, g)
    case FreezeCas(g, j, _) => g + 1 < |m.gens| && j < Size(m, g)
    case SealRead(g, j, _) => g + 1 < |m.gens| && j < Size(m, g)
    case SealCas(g, j, _, _) => g + 1 < |m.gens| && j < Size(m, g)
    case CarryRead(g, j, _, _, q, _) => g < q < |m.gens| && j < Size(m, g)
    case CarryCas(g, j, _, _, q, _) => g < q < |m.gens| && j < Size(m, g)
    case CarryIncrement(g, j, _, _, q, _) => g < q < |m.gens| && j < Size(m, g)
    case CarryInstall(g, j, _, _, q, _) => g < q < |m.gens| && j < Size(m, g)
    case CarryNext(g, j, _, _, q) => g < q && q + 1 < |m.gens| && j < Size(m, g)
    case Swap(g) => g + 1 < |m.gens|
  }

  /** `EBUSY`: help migrate generation `g` into one of twice its size, then retry. */
  function Busy(m: Memory, g: nat): Pc
    requires g < |m.gens|
  {
    NextRead(g, 2 * Size(m, g))
  }

  /** After `map->storage` was read. */
  function Dispatch(m: Memory, op: Op): Pc
    requires Shaped(m)
  {
    match op
    case Lookup(_) => LookProbe(m.cur, 0)
    case Insert(_, _) => ReadCount(m.cur)
    case Register(_, _) => ReadCount(m.cur)
    case Remove(_, _) => RemoveProbe(m.cur, 0)
    case MigrateSameSize => NextRead(m.cur, Size(m, m.cur))
  }

  /** find_or_claim, once `claim` has answered `found` for the i-th probe. */
  function Claimed(m: Memory, op: Op, g: nat, i: nat, found: HashWord): Pc
    requires g < |m.gens|
  {
    if found.frozen then Busy(m, g)
    else if found.hash == Hash(op) then ValueRead(g, i)
    else if i + 1 == Size(m, g) then Busy(m, g)
    else ClaimRead(g, i + 1)
  }

  /** insert and register, once they have read `found` in the value word. */
  function Judged(m: Memory, op: Op, g: nat, i: nat, found: ValueWord): Pc
    requires g < |m.gens|
  {
    if found.sealed then Busy(m, g)
    else if found.payload.Live? then
      Done(if op.Insert? then Exists else Registered(Some(found.payload.value)))
    else ValueCas(g, i, found.payload)
  }

  /** insert and register, once their value CAS has failed with `found`. */
  function LostCas(m: Memory, op: Op, g: nat, i: nat, found: ValueWord): Pc
    requires g < |m.gens|
  {
    if op.Insert? && !found.sealed then Done(Exists) else Judged(m, op, g, i, found)
  }

  /** The head of copy's loop over the slots of `g`. */
  function CopyFrom(m: Memory, g: nat, j: nat): Pc
    requires g < |m.gens|
  {
    if j < Size(m, g) then FreezeRead(g, j) else Swap(g)
  }

  /** copy, once slot `j` is frozen with hash `h`. */
  function FrozenWith(m: Memory, g: nat, j: nat, h: nat): Pc
    requires g < |m.gens|
  {
    if h == 0 then CopyFrom(m, g, j + 1) else SealRead(g, j, h)
  }

  /** copy, once slot `j` is sealed with payload `p`. */
  function SealedWith(m: Memory, g: nat, j: nat, h: nat, p: Payload): Pc
    requires g < |m.gens|
  {
    if p.Live? then CarryRead(g, j, h, p.value, g + 1, 0) else CopyFrom(m, g, j + 1)
  }

  /** carry, once `claim` has answered `found` for the i-th probe in `q`. */
  function CarryClaimed(g: nat, j: nat, h: nat, v: Value, q: nat, i: nat, found: HashWord): Pc {
    if found.hash == h then CarryInstall(g, j, h, v, q, i)
    else if found.hash == 0 then CarryNext(g, j, h, v, q)
    else CarryRead(g, j, h, v, q, i + 1)
  }

  /** One atomic step of a thread that runs `op` and stands at `pc`. */
  function Step(m: Memory, op: Op, pc: Pc): (Memory, Pc)
    requires Shaped(m) && PcOk(m, pc) && !pc.Idle?
  {
    match pc
    case ReadStorage => (m, Dispatch(m, op))
    case LookProbe(g, i) =>
      var found := m.gens[g].slots[Pos(m, g, Hash(op), i)].hw.hash;
      (m, if found == Hash(op) then LookValue(g, i)
          else if found == 0 then Done(Found(None))
          else LookProbe(g, i + 1))
    case LookValue(g, i) =>
      var p := m.gens[g].slots[Pos(m, g, Hash(op), i)].vw.payload;
      (m, Done(Found(if p.Live? then Some(p.value) else None)))
    case ReadCount(g) =>
      (m, if m.gens[g].nHashs >= Size(m, g) - Size(m, g) / 2 then Busy(m, g) else ClaimRead(g, 0))
    case ClaimRead(g, i) =>
      var found := m.gens[g].slots[Pos(m, g, Hash(op), i)].hw;
      (m, if found == HashWord(0, false) then ClaimCas(g, i) else Claimed(m, op, g, i, found))
    case ClaimCas(g, i) =>
      var k := Pos(m, g, Hash(op), i);
      var found := m.gens[g].slots[k].hw;
      if found == HashWord(0, false)
      then (WithClaim(m, g, k, Hash(op)), ClaimIncrement(g, i))
      else (m, Claimed(m, op, g, i, found))
    case ClaimIncrement(g, i) => (WithIncrement(m, g), ValueRead(g, i))
    case ValueRead(g, i) =>
      (m, Judged(m, op, g, i, m.gens[g].slots[Pos(m, g, Hash(op), i)].vw))
    case ValueCas(g, i, want) =>
      var k := Pos(m, g, Hash(op), i);
      var found := m.gens[g].slots[k].vw;
      if found == ValueWord(want, false)
      then (WithValue(m, g, k, Val(op)), Done(if op.Insert? then Ok else Registered(None)))
      else (m, LostCas(m, op, g, i, found))
    case RemoveProbe(g, i) =>
      var found := m.gens[g].slots[Pos(m, g, Hash(op), i)].hw;
      (m, if found == HashWord(0, false) then Done(NoEntry)
          else if found.frozen then Busy(m, g)
          else if found.hash == Hash(op) then RemoveCas(g, i)
          else RemoveProbe(g, i + 1))
    case RemoveCas(g, i) =>
      var k := Pos(m, g, Hash(op), i);
      var found := m.gens[g].slots[k].vw;
      if found == ValueWord(Val(op), false) then (WithValue(m, g, k, Tomb), Done(Ok))
      else (m, if found.sealed then Busy(m, g) else Done(NoEntry))
    case NextRead(g, size) =>
      (m, if g + 1 < |m.gens| then CopyFrom(m, g, 0) else NextCas(g, size))
    case NextCas(g, size) =>
      if g + 1 < |m.gens| then (m, CopyFrom(m, g, 0))
      else (m.(gens := m.gens + [Fresh(size)]), CopyFrom(m, g, 0))
    case FreezeRead(g, j) =>
      var found := m.gens[g].slots[j].hw;
      (m, if found.frozen then FrozenWith(m, g, j, found.hash) else FreezeCas(g, j, found))
    case FreezeCas(g, j, seen) =>
      if m.gens[g].slots[j].hw == seen
      then (WithFreeze(m, g, j), FrozenWith(m, g, j, seen.hash))
      else (m, FreezeRead(g, j))
    case SealRead(g, j, h) =>
      var found := m.gens[g].slots[j].vw;
      (m, if found.sealed then SealedWith(m, g, j, h, found.payload) else SealCas(g, j, h, found.payload))
    case SealCas(g, j, h, want) =>
      if m.gens[g].slots[j].vw == ValueWord(want, false)
      then (WithSeal(m, g, j), SealedWith(m, g, j, h, want))
      else (m, SealRead(g, j, h))
    case CarryRead(g, j, h, v, q, i) =>
      var found := m.gens[q].slots[Pos(m, q, h, i)].hw;
      (m, if found == HashWord(0, false) then CarryCas(g, j, h, v, q, i)
          else CarryClaimed(g, j, h, v, q, i, found))
    case CarryCas(g, j, h, v, q, i) =>
      var k := Pos(m, q, h, i);
      var found := m.gens[q].slots[k].hw;
      if found == HashWord(0, false)
      then (WithClaim(m, q, k, h), CarryIncrement(g, j, h, v, q, i))
      else (m, CarryClaimed(g, j, h, v, q, i, found))
    case CarryIncrement(g, j, h, v, q, i) =>
      (WithIncrement(m, q), CarryInstall(g, j, h, v, q, i))
    case CarryInstall(g, j, h, v, q, i) =>
      var k := Pos(m, q, h, i);
      var found := m.gens[q].slots[k].vw;
      if found == ValueWord(Empty, false) then (WithValue(m, q, k, Live(v)), CopyFrom(m, g, j + 1))
      else (m, if found == ValueWord(Empty, true) then CarryNext(g, j, h, v, q) else CopyFrom(m, g, j + 1))
    case CarryNext(g, j, h, v, q) => (m, CarryRead(g, j, h, v, q + 1, 0))
    case Swap(g) =>
      (if m.cur == g then m.(cur := g + 1) else m,
       if op.MigrateSameSize? then Done(Ok) else ReadStorage)
    case Done(_) => (m, Idle)
  }

  // ------------------------------------------------------------ the runs

  ghost predicate Init(s: State) {
    && (exists size: nat :: s.mem == Memory([Fresh(size)], 0))
    && (forall t :: 0 <= t < |s.threads| ==> s.threads[t].pc.Idle?)
  }

  /** Thread `t` starts a call. An illegal argument is answered at once. */
  predicate Begins(s: State, s': State, t: nat, op: Op) {
    && t < |s.threads| && s.threads[t].pc.Idle?
    && s' == s.(threads := s.threads[t := Thread(op, if Legal(op) then ReadStorage else Done(Refusal(op)))])
  }

  /** Thread `t` makes the next step of its call. */
  predicate Moves(s: State, s': State, t: nat) {
    && Shaped(s.mem)
    && t < |s.threads| && !s.threads[t].pc.Idle? && PcOk(s.mem, s.threads[t].pc)
    && var th := s.threads[t];
       var (m', pc') := Step(s.mem, th.op, th.pc);
       s' == State(m', s.threads[t := th.(pc := pc')])
  }

  ghost predicate Next(s: State, s': State, t: nat) {
    Moves(s, s', t) || exists op :: Begins(s, s', t, op)
  }
}
