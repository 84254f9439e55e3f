/**
 What every reachable state of mulle-aba satisfies. The heart of it: a thread owes a
 decrement to every timestamp from `From` on, the retain count of a timestamp is the
 number of threads that owe it, and the bit is clear only as long as nobody has
 acknowledged the current timestamp.
 */
module AbaInvariant {
  import opened AbaModel

  // ---------------------------------------------------------------- threads

  predicate Releasing(pc: Pc) {
    pc.TakeList? || pc.ClearList? || pc.ClearUsage?
  }

  /** In the loop over a range of timestamps. */
  predicate InRange(pc: Pc) {
    pc.Decrement? || Releasing(pc) || pc.RunFrees?
  }

  /** The first timestamp that the thread has yet to decrement. */
  function From(th: Thread): nat {
    if th.pc.Decrement? then th.pc.at
    else if InRange(th.pc) then th.pc.at + 1
    else th.last
  }

  /** The first timestamp that the thread has not acknowledged by setting the bit. */
  function Ack(th: Thread): nat {
    if InRange(th.pc) || th.pc.RangeWorld? then th.pc.upto + 1 else th.last
  }

  predicate Registered(th: Thread) {
    th.last != 0
  }

  predicate Owes(th: Thread, ts: nat) {
    Registered(th) && From(th) <= ts
  }

  ghost function Members(threads: seq<Thread>): set<nat> {
    set t: nat | t < |threads| && Registered(threads[t])
  }

  ghost function Owers(threads: seq<Thread>, ts: nat): set<nat> {
    set t: nat | t < |threads| && Owes(threads[t], ts)
  }

  /** About to add the number of threads to the retain count of `ts`. */
  predicate Counts(th: Thread, ts: nat) {
    th.pc.FreeCount? && th.pc.ts == ts
  }

  /** Saw the retain count of `ts` reach zero, and has not cleared its usage bit yet. */
  predicate Releases(th: Thread, ts: nat) {
    Releasing(th.pc) && th.pc.at == ts
  }

  // ----------------------------------------------------------------- worlds

  predicate WorldOk(w: World) {
    && w.offset <= w.ts && w.stores <= w.size
    && (w.ts != 0 ==> w.ts < w.offset + w.stores * ENTRIES)
  }

  /** A world pointer that a registered thread has read. */
  predicate SnapGood(s: State, snap: WorldPointer)
    requires Shaped(s)
  {
    && snap.id < |s.worlds|
    && s.worlds[snap.id].ts <= Cur(s).ts && s.worlds[snap.id].offset <= Cur(s).offset
    && (snap.bit && s.worlds[snap.id].ts == Cur(s).ts ==> s.wp.bit)
  }

  /** The world found through `snap` has an entry for every timestamp from `at` to `upto`. */
  predicate Reaches(s: State, snap: WorldPointer, at: nat, upto: nat) {
    snap.id < |s.worlds| && s.worlds[snap.id].offset <= at && upto <= s.worlds[snap.id].ts
  }

  ghost predicate FreeNextOk(s: State, snap: WorldPointer, next: World)
    requires Shaped(s)
  {
    && SnapGood(s, snap) && snap.bit && WorldOk(next)
    && next.ts == s.worlds[snap.id].ts + 1 && next.n == s.worlds[snap.id].n
    && s.worlds[snap.id].offset <= next.offset <= s.worlds[snap.id].ts
    && (forall u :: 0 <= u < |s.threads| && Registered(s.threads[u]) ==> next.offset <= From(s.threads[u]))
    && (next.ts > Cur(s).ts ==> EntryOf(s, next.ts).used)
  }

  ghost predicate ThreadOk(s: State, th: Thread)
    requires Shaped(s)
  {
    var ts := Cur(s).ts;
    if th.last == 0 then
      th.pc.Idle? || th.pc.RegisterRead? || (th.pc.RegisterCas? && SnapOk(s, th.pc.snap))
    else
      && th.last <= From(th) <= Ack(th) <= ts + 1
      && (Ack(th) == ts + 1 ==> s.wp.bit)
      && Cur(s).offset <= From(th)
      && match th.pc
        case Idle => true
        case RegisterRead => false
        case RegisterCas(_) => false
        case CheckinRead(_) => true
        case SetBit(_, snap, upto) => SnapGood(s, snap) && th.last <= upto <= s.worlds[snap.id].ts && Reaches(s, snap, th.last, upto)
        case SetBitReread(_, upto) => th.last <= upto <= ts
        case RangeWorld(upto) => th.last <= upto
        case Decrement(_, snap, at, upto) => at <= upto && Reaches(s, snap, at, upto)
        case TakeList(_, snap, at, upto) => th.last <= at && Reaches(s, snap, at, upto)
        case ClearList(_, snap, at, upto, _) => th.last <= at && Reaches(s, snap, at, upto)
        case ClearUsage(_, snap, at, upto, _) => th.last <= at && Reaches(s, snap, at, upto)
        case RunFrees(_, snap, at, upto, _) => th.last <= at && Reaches(s, snap, at, upto)
        case LeaveSwap(snap, upto) => SnapOk(s, snap) && th.last == upto + 1
        case FreeRead(_) => true
        case FreeTry(_, snap, _) => SnapGood(s, snap) && th.last <= s.worlds[snap.id].ts + 1
        case FreeCas(_, snap, _, next) => FreeNextOk(s, snap, next) && th.last <= next.ts
        case FreeRetry(_, _) => true
        case FreeReread(_) => true
        case FreeCount(_, x, n) => th.last <= x <= ts
        case FreeAdd(_, x) => th.last <= x <= ts
        case FreeNow(_) => true
  }

  // ---------------------------------------------------------------- entries

  ghost predicate NoneCounts(threads: seq<Thread>, ts: nat) {
    forall t :: 0 <= t < |threads| ==> !Counts(threads[t], ts)
  }

  ghost predicate NoneReleases(threads: seq<Thread>, ts: nat) {
    forall t :: 0 <= t < |threads| ==> !Releases(threads[t], ts)
  }

  /** The retain count is the number of threads that owe a decrement, once it has been added. */
  ghost predicate CountOk(e: Entry, threads: seq<Thread>, ts: nat) {
    && (NoneCounts(threads, ts) ==> e.rc + 1 == |Owers(threads, ts)|)
    && (forall t :: 0 <= t < |threads| && Counts(threads[t], ts) ==>
          e.rc + 1 + threads[t].pc.n == |Owers(threads, ts)| <= threads[t].pc.n)
    && (forall t, u :: 0 <= t < |threads| && 0 <= u < |threads| && Counts(threads[t], ts) && Counts(threads[u], ts) ==> t == u)
  }

  /** The list is taken by one thread, after everybody has decremented. */
  ghost predicate ReleaseOk(e: Entry, threads: seq<Thread>, ts: nat) {
    && (forall t :: 0 <= t < |threads| && Releases(threads[t], ts) ==> Owers(threads, ts) == {})
    && (forall t :: 0 <= t < |threads| && Releases(threads[t], ts) && threads[t].pc.ClearList? ==> threads[t].pc.taken == e.list)
    && (forall t :: 0 <= t < |threads| && Releases(threads[t], ts) && threads[t].pc.ClearUsage? ==> e.list == [])
    && (forall t, u :: 0 <= t < |threads| && 0 <= u < |threads| && Releases(threads[t], ts) && Releases(threads[u], ts) ==> t == u)
    && (Owers(threads, ts) == {} && NoneReleases(threads, ts) ==> e.list == [] && !e.used)
    && (Owers(threads, ts) != {} || !NoneReleases(threads, ts) ==> e.used)
  }

  ghost predicate EntryOk(e: Entry, threads: seq<Thread>, ts: nat) {
    CountOk(e, threads, ts) && ReleaseOk(e, threads, ts)
  }

  ghost predicate EntriesOk(s: State)
    requires Shaped(s)
  {
    && (forall ts {:trigger EntryOk(EntryOf(s, ts), s.threads, ts)} :: 1 <= ts <= Cur(s).ts ==> EntryOk(EntryOf(s, ts), s.threads, ts))
    && (forall ts: nat {:trigger EntryOf(s, ts)} :: !(1 <= ts <= Cur(s).ts) ==> EntryOf(s, ts).rc == -1 && EntryOf(s, ts).list == [])
  }

  ghost predicate WorldsOk(s: State)
    requires Shaped(s)
  {
    && (forall i :: 0 <= i < |s.worlds| ==> WorldOk(s.worlds[i]))
    && Cur(s).n == |Members(s.threads)|
    && (!s.wp.bit && Cur(s).n > 0 ==> Cur(s).ts > 0)
  }

  ghost predicate ThreadsOk(s: State)
    requires Shaped(s)
  {
    forall t {:trigger ThreadOk(s, s.threads[t])} :: 0 <= t < |s.threads| ==> ThreadOk(s, s.threads[t])
  }

  ghost predicate Inv(s: State) {
    Shaped(s) && WorldsOk(s) && ThreadsOk(s) && EntriesOk(s)
  }

  // -------------------------------------------------------- how states change

  /** What the others may rely on while a thread is registered. */
  ghost predicate Rely(s: State, s': State)
    requires Shaped(s)
  {
    && Shaped(s') && |s.worlds| <= |s'.worlds| && s'.worlds[..|s.worlds|] == s.worlds
    && Cur(s).ts <= Cur(s').ts && Cur(s).offset <= Cur(s').offset
    && (Cur(s').ts == Cur(s).ts && s.wp.bit ==> s'.wp.bit)
  }

  /** The entry of the timestamp after the current one stays marked as used. */
  ghost predicate RelyNext(s: State, s': State)
    requires Shaped(s) && Shaped(s')
  {
    forall x {:trigger EntryOf(s', x)} :: x > Cur(s').ts && EntryOf(s, x).used ==> EntryOf(s', x).used
  }

  /** No registered thread but `t` changes where it has to decrement from. */
  ghost predicate RelyFrom(s: State, s': State)
    requires Shaped(s) && Shaped(s')
  {
    && |s.threads| == |s'.threads|
    && (forall u :: 0 <= u < |s.threads| && Registered(s'.threads[u]) ==>
          && Cur(s').offset <= From(s'.threads[u])
          && (if Registered(s.threads[u]) then From(s.threads[u]) <= From(s'.threads[u]) else From(s'.threads[u]) == Cur(s).ts + 1))
  }

  lemma SnapStaysGood(s: State, s': State, snap: WorldPointer)
    requires Shaped(s) && Rely(s, s') && SnapGood(s, snap)
    ensures SnapGood(s', snap) && s'.worlds[snap.id] == s.worlds[snap.id]
  {
    assert s'.worlds[..|s.worlds|][snap.id] == s.worlds[snap.id];
  }

  lemma NextStaysOk(s: State, s': State, snap: WorldPointer, next: World)
    requires Shaped(s) && Rely(s, s') && RelyNext(s, s') && RelyFrom(s, s') && FreeNextOk(s, snap, next)
    ensures FreeNextOk(s', snap, next)
  {
    SnapStaysGood(s, s', snap);
  }

  /** No step of another thread takes away what a registered thread knows. */
  lemma OtherStays(s: State, s': State, u: nat)
    requires Shaped(s) && u < |s.threads| && ThreadOk(s, s.threads[u]) && Registered(s.threads[u])
    requires Rely(s, s') && RelyNext(s, s') && RelyFrom(s, s') && s'.threads[u] == s.threads[u]
    ensures ThreadOk(s', s'.threads[u])
  {
    var th := s.threads[u];
    assert forall i :: 0 <= i < |s.worlds| ==> s'.worlds[i] == s.worlds[i];
    if th.pc.FreeCas? { NextStaysOk(s, s', th.pc.snap, th.pc.next); }
  }

  /** An unregistered thread only needs its world to exist. */
  lemma StrangerStays(s: State, s': State, u: nat)
    requires Shaped(s) && Shaped(s') && u < |s.threads| == |s'.threads| && ThreadOk(s, s.threads[u])
    requires !Registered(s.threads[u]) && |s.worlds| <= |s'.worlds| && s'.threads[u] == s.threads[u]
    ensures ThreadOk(s', s'.threads[u])
  {
  }

  // ---------------------------------------------------------- entries, framed

  /** The thread means the same to timestamp `ts` before and after. */
  predicate SameTo(a: Thread, b: Thread, ts: nat) {
    && (Owes(a, ts) <==> Owes(b, ts))
    && (Counts(a, ts) <==> Counts(b, ts))
    && (Releases(a, ts) <==> Releases(b, ts))
    && (Counts(a, ts) || Releases(a, ts) ==> a.pc == b.pc)
  }

  lemma OwersSame(threads: seq<Thread>, t: nat, th: Thread, ts: nat)
    requires t < |threads| && (Owes(threads[t], ts) <==> Owes(th, ts))
    ensures Owers(threads[t := th], ts) == Owers(threads, ts)
  {
  }

  lemma EntryFrame(e: Entry, threads: seq<Thread>, t: nat, th: Thread, ts: nat)
    requires EntryOk(e, threads, ts) && t < |threads| && SameTo(threads[t], th, ts)
    ensures EntryOk(e, threads[t := th], ts)
  {
    var threads' := threads[t := th];
    OwersSame(threads, t, th, ts);
    assert forall u :: 0 <= u < |threads| ==> (Counts(threads'[u], ts) <==> Counts(threads[u], ts));
    assert forall u :: 0 <= u < |threads| ==> (Releases(threads'[u], ts) <==> Releases(threads[u], ts));
    assert NoneCounts(threads', ts) <==> NoneCounts(threads, ts);
    assert NoneReleases(threads', ts) <==> NoneReleases(threads, ts);
  }
}
