/**
 mulle-aba as a step machine: deferred freeing with timestamps. A world is an
 immutable record; the world pointer carries one bit and is swapped by
 compare-and-swap. Every access to a shared word is one step.

 A timestamp entry lives in a storage that serves a block of ENTRIES consecutive
 timestamps. Entries are named by their timestamp here; a released entry is as good
 as a fresh one (AbaProof.ReleasedIsFresh), which is what lets a storage serve a
 later block.
 */
module AbaModel {

  /** Timestamps per storage: the bits of a machine word. */
  const ENTRIES: nat := 64

  /** Storage pointers in a new world. */
  const INITIAL_SIZE: nat := 8

  /** A pointer handed to free: by which thread, and in which state of the run. */
  datatype Item = Item(pointer: nat, thread: nat, called: nat)

  /**
   Timestamp, registered threads, first timestamp that has a storage, storages in
   use, room for storages.
   */
  datatype World = World(ts: nat, n: nat, offset: nat, stores: nat, size: nat)

  /** The world pointer: which world, and its bit. */
  datatype WorldPointer = WorldPointer(id: nat, bit: bool)

  /** `rc` is `_retain_count_1`, which is one less than the count. */
  datatype Entry = Entry(rc: int, list: seq<Item>, used: bool)

  const FRESH := Entry(-1, [], false)

  /** How free means to get a timestamp: the four callbacks of free. */
  datatype Mode = Plain | AddStorage | Rotate | Grow(target: nat)

  datatype Pc =
    | Idle
    | RegisterRead
    | RegisterCas(snap: WorldPointer)
    // checkin, and the first half of unregister (leaving)
    | CheckinRead(leaving: bool)
    | SetBit(leaving: bool, snap: WorldPointer, upto: nat)
    | SetBitReread(leaving: bool, upto: nat)
    | RangeWorld(upto: nat)
    | Decrement(leaving: bool, snap: WorldPointer, at: nat, upto: nat)
    | TakeList(leaving: bool, snap: WorldPointer, at: nat, upto: nat)
    | ClearList(leaving: bool, snap: WorldPointer, at: nat, upto: nat, taken: seq<Item>)
    | ClearUsage(leaving: bool, snap: WorldPointer, at: nat, upto: nat, taken: seq<Item>)
    | RunFrees(leaving: bool, snap: WorldPointer, at: nat, upto: nat, taken: seq<Item>)
    | LeaveSwap(snap: WorldPointer, upto: nat)
    // free
    | FreeRead(item: Item)
    | FreeTry(item: Item, snap: WorldPointer, mode: Mode)
    | FreeCas(item: Item, snap: WorldPointer, mode: Mode, next: World)
    | FreeRetry(item: Item, mode: Mode)
    | FreeReread(item: Item)
    | FreeCount(item: Item, ts: nat, n: nat)
    | FreeAdd(item: Item, ts: nat)
    | FreeNow(item: Item)

  /** `last` is the thread's private timestamp, 0 when it is not registered. */
  datatype Thread = Thread(last: nat, pc: Pc)

  /** `now` numbers the states; `freed` lists the free callbacks that have run. */
  datatype State = State(
    worlds: seq<World>, wp: WorldPointer, entries: map<nat, Entry>, threads: seq<Thread>, freed: seq<Item>, now: nat)

  predicate Shaped(s: State) {
    s.wp.id < |s.worlds|
  }

  function Cur(s: State): World
    requires Shaped(s)
  {
    s.worlds[s.wp.id]
  }

  function EntryOf(s: State, ts: nat): Entry {
    if ts in s.entries then s.entries[ts] else FRESH
  }

  function WithEntry(s: State, ts: nat, e: Entry): State {
    s.(entries := s.entries[ts := e])
  }

  function WithThread(s: State, t: nat, th: Thread): State
    requires t < |s.threads|
  {
    s.(threads := s.threads[t := th])
  }

  /** A swap that won: the new world becomes current. */
  function WithWorld(s: State, w: World, bit: bool): State {
    s.(worlds := s.worlds + [w], wp := WorldPointer(|s.worlds|, bit))
  }

  /** The world has a storage for timestamp `ts`. */
  predicate HasEntry(w: World, ts: nat) {
    ts != 0 && w.offset <= ts && (ts - w.offset) / ENTRIES < w.stores
  }

  // ------------------------------------------------------------------- free

  /** size_check_world_for_timestamp_increment, then _increment_timestamp. */
  function Incremented(w: World): seq<World> {
    if w.ts + 1 >= w.offset + w.stores * ENTRIES then [] else [w.(ts := w.ts + 1)]
  }

  /** The world that a callback of free makes of `w`, or none: then free looks at the world anew. */
  function NextWorld(w: World, mode: Mode, r: nat): seq<World> {
    match mode
    case Plain => Incremented(w)
    case AddStorage => if w.stores >= w.size then [] else Incremented(w.(stores := w.stores + 1))
    case Rotate => if r == 0 then [] else Incremented(w.(offset := w.offset + r * ENTRIES))
    case Grow(target) =>
      if w.stores >= target then [] else Incremented(w.(stores := w.stores + 1, size := target))
  }

  /** free, looking at world `w` through `snap`; `r` > 0 if it finds storages to reuse. */
  function Decide(item: Item, w: World, snap: WorldPointer, r: nat): Pc {
    if HasEntry(w, if snap.bit then w.ts + 1 else w.ts) then
      if snap.bit then FreeTry(item, snap, Plain) else FreeAdd(item, w.ts)
    else if w.stores < w.size then FreeTry(item, snap, AddStorage)
    else if r > 0 then FreeTry(item, snap, Rotate)
    else FreeRetry(item, Grow(w.size + 1))
  }

  /** What reuse_storages may have found: `r` storages before the current one without a used timestamp. */
  predicate MayRotate(s: State, w: World, r: nat) {
    && w.offset + r * ENTRIES <= w.ts
    && (forall x: nat :: 1 <= x && w.offset <= x < w.offset + r * ENTRIES ==> !EntryOf(s, x).used)
  }

  // ---------------------------------------------------------------- checkin

  /** The loop of check_timerange, before timestamp `at`; at its end `last` is set. */
  function RangeFrom(last: nat, leaving: bool, snap: WorldPointer, at: nat, upto: nat): Thread {
    if at <= upto then Thread(last, Decrement(leaving, snap, at, upto))
    else Thread(upto + 1, if leaving then LeaveSwap(snap, upto) else Idle)
  }

  function BitIsSet(last: nat, leaving: bool, snap: WorldPointer, upto: nat): Thread {
    if leaving then RangeFrom(last, true, snap, last, upto) else Thread(last, RangeWorld(upto))
  }

  // --------------------------------------------------------------- the steps

  predicate SnapOk(s: State, snap: WorldPointer) {
    snap.id < |s.worlds|
  }

  predicate PcOk(s: State, pc: Pc) {
    match pc
    case RegisterCas(snap) => SnapOk(s, snap)
    case SetBit(_, snap, _) => SnapOk(s, snap)
    case LeaveSwap(snap, _) => SnapOk(s, snap)
    case FreeTry(_, snap, _) => SnapOk(s, snap)
    case FreeCas(_, snap, _, _) => SnapOk(s, snap)
    case _ => true
  }

  /** One step of thread `t`; `r` is what it finds if it looks for storages to reuse. */
  function Step(s: State, t: nat, r: nat): State
    requires Shaped(s) && t < |s.threads| && PcOk(s, s.threads[t].pc) && !s.threads[t].pc.Idle?
  {
    var th := s.threads[t];
    var last := th.last;
    match th.pc
    case RegisterRead => WithThread(s, t, th.(pc := RegisterCas(s.wp)))
    case RegisterCas(snap) =>
      if s.wp != snap then WithThread(s, t, th.(pc := RegisterRead))
      else
        var w := Cur(s);
        WithThread(WithWorld(s, w.(n := w.n + 1), true), t, Thread(w.ts + 1, Idle))
    case CheckinRead(leaving) =>
      var ts := Cur(s).ts;
      WithThread(s, t, th.(pc :=
        if last <= ts then SetBit(leaving, s.wp, ts)
        else if leaving then LeaveSwap(s.wp, ts)
        else Idle))
    case SetBit(leaving, snap, upto) =>
      if snap.bit then WithThread(s, t, BitIsSet(last, leaving, snap, upto))
      else if s.wp == snap then
        var snap' := snap.(bit := true);
        WithThread(s.(wp := snap'), t, BitIsSet(last, leaving, snap', upto))
      else WithThread(s, t, th.(pc := SetBitReread(leaving, upto)))
    case SetBitReread(leaving, upto) => WithThread(s, t, th.(pc := SetBit(leaving, s.wp, upto)))
    case RangeWorld(upto) =>
      if Cur(s).ts == 0 then WithThread(s, t, Thread(upto + 1, Idle))
      else WithThread(s, t, RangeFrom(last, false, s.wp, last, upto))
    case Decrement(leaving, snap, at, upto) =>
      var e := EntryOf(s, at);
      var s' := WithEntry(s, at, e.(rc := e.rc - 1));
      if e.rc == 0 then WithThread(s', t, th.(pc := TakeList(leaving, snap, at, upto)))
      else WithThread(s', t, RangeFrom(last, leaving, snap, at + 1, upto))
    case TakeList(leaving, snap, at, upto) =>
      WithThread(s, t, th.(pc := ClearList(leaving, snap, at, upto, EntryOf(s, at).list)))
    case ClearList(leaving, snap, at, upto, taken) =>
      WithThread(WithEntry(s, at, EntryOf(s, at).(list := [])), t,
                 th.(pc := ClearUsage(leaving, snap, at, upto, taken)))
    case ClearUsage(leaving, snap, at, upto, taken) =>
      WithThread(WithEntry(s, at, EntryOf(s, at).(used := false)), t,
                 th.(pc := RunFrees(leaving, snap, at, upto, taken)))
    case RunFrees(leaving, snap, at, upto, taken) =>
      if taken == [] then WithThread(s, t, RangeFrom(last, leaving, snap, at + 1, upto))
      else WithThread(s.(freed := s.freed + [taken[0]]), t,
                      th.(pc := RunFrees(leaving, snap, at, upto, taken[1..])))
    case LeaveSwap(snap, upto) =>
      var w := s.worlds[snap.id];
      if s.wp.id != snap.id || w.ts != upto then WithThread(s, t, th.(pc := CheckinRead(true)))
      else if w.n <= 1 then
        WithThread(WithWorld(s, World(0, 0, 0, 0, w.size), false).(entries := map[]), t, Thread(0, Idle))
      else WithThread(WithWorld(s, w.(n := w.n - 1), true), t, Thread(0, Idle))
    case FreeRead(item) =>
      WithThread(s, t, th.(pc := if Cur(s).n <= 1 then FreeNow(item) else Decide(item, Cur(s), s.wp, r)))
    case FreeTry(item, snap, mode) =>
      var w := s.worlds[snap.id];
      var next := NextWorld(w, mode, r);
      if mode.Grow? && w.size >= mode.target then WithThread(s, t, th.(pc := FreeReread(item)))
      else if w.n <= 1 then WithThread(s, t, th.(pc := FreeNow(item)))
      else if !snap.bit || next == [] then WithThread(s, t, th.(pc := FreeReread(item)))
      else WithThread(WithEntry(s, w.ts + 1, EntryOf(s, w.ts + 1).(used := true)), t,
                      th.(pc := FreeCas(item, snap, mode, next[0])))
    case FreeCas(item, snap, mode, next) =>
      if s.wp == snap then WithThread(WithWorld(s, next, false), t, th.(pc := FreeCount(item, next.ts, next.n)))
      else WithThread(s, t, th.(pc := FreeRetry(item, mode)))
    case FreeRetry(item, mode) => WithThread(s, t, th.(pc := FreeTry(item, s.wp, mode)))
    case FreeReread(item) => WithThread(s, t, th.(pc := Decide(item, Cur(s), s.wp, r)))
    case FreeCount(item, ts, n) =>
      var e := EntryOf(s, ts);
      WithThread(WithEntry(s, ts, e.(rc := e.rc + n)), t, th.(pc := FreeAdd(item, ts)))
    case FreeAdd(item, ts) =>
      var e := EntryOf(s, ts);
      WithThread(WithEntry(s, ts, e.(list := [item] + e.list)), t, th.(pc := Idle))
    case FreeNow(item) => WithThread(s.(freed := s.freed + [item]), t, th.(pc := Idle))
  }

  // ---------------------------------------------------------------- the runs

  predicate Init(s: State) {
    && s.worlds == [World(0, 0, 0, 0, INITIAL_SIZE)] && s.wp == WorldPointer(0, false)
    && s.entries == map[] && s.freed == [] && s.now == 0
    && (forall t :: 0 <= t < |s.threads| ==> s.threads[t] == Thread(0, Idle))
  }

  datatype Request = Register | Checkin | Unregister | Free(pointer: nat)

  /**
   An idle thread calls. Only an unregistered thread registers, only a registered
   one frees; checkin and unregister of an unregistered thread do nothing.
   */
  predicate Begins(s: State, s': State, t: nat, q: Request) {
    && t < |s.threads| && s.threads[t].pc.Idle?
    && (q.Register? ==> s.threads[t].last == 0) && (q.Free? ==> s.threads[t].last != 0)
    && var pc := match q
       case Register => RegisterRead
       case Checkin => if s.threads[t].last == 0 then Idle else CheckinRead(false)
       case Unregister => if s.threads[t].last == 0 then Idle else CheckinRead(true)
       case Free(pointer) => FreeRead(Item(pointer, t, s.now + 1));
    s' == WithThread(s, t, s.threads[t].(pc := pc)).(now := s.now + 1)
  }

  /** The look for reusable storages, if this step has one, finds `r` of them. */
  predicate Finds(s: State, t: nat, r: nat)
    requires Shaped(s) && t < |s.threads| && PcOk(s, s.threads[t].pc)
  {
    var pc := s.threads[t].pc;
    pc.FreeTry? && pc.mode.Rotate? ==> MayRotate(s, s.worlds[pc.snap.id], r)
  }

  predicate Moves(s: State, s': State, t: nat, r: nat) {
    && Shaped(s) && t < |s.threads| && !s.threads[t].pc.Idle? && PcOk(s, s.threads[t].pc)
    && Finds(s, t, r)
    && s' == Step(s, t, r).(now := s.now + 1)
  }

  ghost predicate Next(s: State, s': State, t: nat) {
    (exists q :: Begins(s, s', t, q)) || (exists r: nat :: Moves(s, s', t, r))
  }
}
