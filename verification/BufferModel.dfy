/**
 What a mulle-buffer does, on values: bytes are appended one at a time or in blocks;
 a flexible buffer grows, an inflexible one overflows, a flushable one hands its
 bytes to a callback and starts over.
 */
module BufferModel {
  newtype Byte = x: int | 0 <= x < 256

  datatype Mode = Flexible | Inflexible | Flushable

  /** The least a flexible buffer grows by. */
  const MIN_GROW: nat := 64

  /** The least a flushable buffer can hold. */
  const MIN_FLUSHABLE: nat := 8

  /**
   `content` is what the buffer holds, `sink` what the flush callback has taken in
   `calls` calls, `hint` the size of the first allocation, `moved` the bytes that
   growing has moved from one storage to the next.
   */
  datatype View = View(
    mode: Mode, hasStorage: bool, capacity: nat, hint: nat, content: seq<Byte>, overflown: bool,
    sink: seq<Byte>, calls: nat, moved: nat)

  /** Whether the callback takes all bytes of its n-th call. */
  type Callback = nat -> bool

  predicate WellFormed(v: View) {
    && |v.content| <= v.capacity
    && (!v.hasStorage ==> v.capacity == 0)
    && (v.mode.Flushable? ==> v.hasStorage && v.capacity >= MIN_FLUSHABLE)
  }

  /** Everything that was ever appended and not dropped. */
  function Stream(v: View): seq<Byte> {
    v.sink + v.content
  }

  function Max(a: nat, b: nat): nat {
    if a < b then b else a
  }

  // -------------------------------------------------------------- operations

  /** The allocation after growing by `growth`: at least twice the old one. */
  function NewCapacity(v: View, growth: nat): nat {
    var plus := Max(MIN_GROW, growth);
    if !v.hasStorage then Max(plus, v.hint) else v.capacity + Max(plus, v.capacity)
  }

  function Overflow(v: View): View {
    v.(overflown := true, hint := 0)
  }

  function Flushed(v: View, takes: Callback): (View, bool) {
    if v.overflown then (v, false)
    else if v.content == [] then (v, true)
    else if takes(v.calls) then (v.(sink := v.sink + v.content, content := [], calls := v.calls + 1), true)
    else (Overflow(v).(calls := v.calls + 1), false)
  }

  /** Flushing any buffer: one that is not flushable is overflown by it. */
  function FlushedAny(v: View, takes: Callback): (View, bool) {
    if v.mode.Flushable? then Flushed(v, takes)
    else (if v.overflown then v else Overflow(v), false)
  }

  function Room(v: View): nat
    requires WellFormed(v)
  {
    v.capacity - |v.content|
  }

  function Grown(v: View, growth: nat, takes: Callback): (View, bool)
    requires WellFormed(v)
  {
    if v.overflown then (v, false)
    else match v.mode
      case Flexible =>
        (v.(hasStorage := true, capacity := NewCapacity(v, growth), hint := 0, moved := v.moved + |v.content|), true)
      case Inflexible => if growth == 0 then (v, true) else (Overflow(v), false)
      case Flushable =>
        if growth == 0 then (v, true)
        else if v.capacity < Room(v) + growth then (v, false)
        else Flushed(v, takes)
  }

  /** Make room for `length` bytes in a row. */
  function Guaranteed(v: View, length: nat, takes: Callback): (View, bool)
    requires WellFormed(v)
  {
    if v.overflown then (v, false)
    else if Room(v) < length then Grown(v, length - Room(v), takes)
    else (v, v.hasStorage)
  }

  function Put(v: View, c: Byte, takes: Callback): View
    requires WellFormed(v)
  {
    if !v.overflown && v.hasStorage && Room(v) > 0 then v.(content := v.content + [c])
    else
      var (g, ok) := Grown(v, 1, takes);
      if ok then g.(content := g.content + [c]) else g
  }

  lemma PutIsWellFormed(v: View, c: Byte, takes: Callback)
    requires WellFormed(v)
    ensures WellFormed(Put(v, c, takes)) && Put(v, c, takes).mode == v.mode
  {
  }

  /** One byte after the other. */
  ghost function PutAll(v: View, s: seq<Byte>, takes: Callback): (r: View)
    requires WellFormed(v)
    ensures WellFormed(r) && r.mode == v.mode
  {
    if s == [] then v
    else
      PutIsWellFormed(PutAll(v, s[..|s| - 1], takes), s[|s| - 1], takes);
      Put(PutAll(v, s[..|s| - 1], takes), s[|s| - 1], takes)
  }

  /** A block: in one piece if there can be room, else one byte after the other. */
  ghost function PutBlock(v: View, s: seq<Byte>, takes: Callback): View
    requires WellFormed(v)
  {
    if s == [] then v
    else
      GuaranteeMakesRoom(v, |s|, takes);
      var (g, ok) := Guaranteed(v, |s|, takes);
      if ok then g.(content := g.content + s) else PutAll(g, s, takes)
  }

  // ------------------------------------------------------------------ lemmas

  /** If the guarantee is given then there is room, and nothing is lost. */
  lemma GuaranteeMakesRoom(v: View, length: nat, takes: Callback)
    requires WellFormed(v)
    ensures var (g, ok) := Guaranteed(v, length, takes);
            && WellFormed(g) && g.mode == v.mode && Stream(g) == Stream(v) && (v.overflown ==> g == v)
            && (ok ==> g.hasStorage && Room(g) >= length && !g.overflown)
            && (v.mode.Flexible? && !v.overflown && length > 0 ==> ok)
            && (v.hasStorage && !v.overflown && length <= Room(v) ==> ok && g == v)
            && (v.mode.Inflexible? && v.hasStorage && !v.overflown ==> (ok <==> length <= Room(v)))
            && (v.mode.Flushable? && length > v.capacity ==> !ok && g == v)
            && (v.mode.Flushable? && !v.overflown && Room(v) < length <= v.capacity ==> (ok <==> takes(v.calls)))
  {
  }

  /**
   What a flush does. A flushable buffer delivers all it holds in one call, which it
   makes only if it holds something; if the call fails it is overflown and keeps its bytes.
   A buffer that cannot be flushed is overflown by it and keeps its bytes too.
   */
  lemma FlushDelivers(v: View, takes: Callback)
    ensures var (g, ok) := FlushedAny(v, takes);
            && (v.mode.Flushable? && !v.overflown ==>
                  && (ok <==> v.content == [] || takes(v.calls)) && g.calls == v.calls + (if v.content == [] then 0 else 1)
                  && (ok ==> g.content == [] && g.sink == v.sink + v.content && !g.overflown))
            && (!ok ==> g.overflown && g.content == v.content && g.sink == v.sink)
            && (v.overflown ==> !ok && g == v)
            && (!v.mode.Flushable? ==> !ok && g.calls == v.calls)
            && g.mode == v.mode && g.capacity == v.capacity && g.hasStorage == v.hasStorage && g.moved == v.moved
  {
  }

  /** Over whole runs: a flush that succeeds leaves everything that was appended with the callback. */
  lemma FlushedAtLast(v: View, ops: seq<Op>, takes: Callback)
    requires WellFormed(v) && v.mode.Flushable? && !Run(v, ops + [Flush], takes).overflown
    ensures var r := Run(v, ops + [Flush], takes);
            r.content == [] && r.sink == Stream(v) + AllAppended(ops)
  {
    var all := ops + [Flush];
    assert all[..|ops|] == ops;
    RunOneMore(v, all, |ops|, takes);
    assert all[..|ops| + 1] == all;
    FlushDelivers(Run(v, ops, takes), takes);
    Conservation(v, ops, takes);
  }

  lemma PutAllOneMore(v: View, s: seq<Byte>, c: Byte, takes: Callback)
    requires WellFormed(v)
    ensures PutAll(v, s + [c], takes) == Put(PutAll(v, s, takes), c, takes)
  {
    assert (s + [c])[..|s|] == s;
  }

  /** Bytes in two portions. */
  lemma {:induction false} PutAllSplits(v: View, s: seq<Byte>, u: seq<Byte>, takes: Callback)
    requires WellFormed(v)
    ensures PutAll(v, s + u, takes) == PutAll(PutAll(v, s, takes), u, takes)
    decreases |u|
  {
    if u == [] {
      assert s + u == s;
    } else {
      var front, c := u[..|u| - 1], u[|u| - 1];
      PutAllSplits(v, s, front, takes);
      PutAllOneMore(v, s + front, c, takes);
      assert s + front + [c] == s + u;
    }
  }

  /** As long as there is room the bytes are just stored. */
  lemma {:induction false} PutAllWithRoom(v: View, s: seq<Byte>, takes: Callback)
    requires WellFormed(v) && !v.overflown && v.hasStorage && |s| <= Room(v)
    ensures PutAll(v, s, takes) == v.(content := v.content + s)
  {
    if s == [] {
      assert v.content + s == v.content;
    } else {
      PutAllWithRoom(v, s[..|s| - 1], takes);
      assert v.content + s[..|s| - 1] + [s[|s| - 1]] == v.content + s;
    }
  }

  lemma PutAllGoesOn(v: View, piece: seq<Byte>, rest: seq<Byte>, takes: Callback)
    requires WellFormed(v) && !v.overflown && v.hasStorage && |piece| <= Room(v)
    ensures PutAll(v, piece + rest, takes) == PutAll(v.(content := v.content + piece), rest, takes)
  {
    PutAllSplits(v, piece, rest, takes);
    PutAllWithRoom(v, piece, takes);
  }

  /** Overflow is sticky: nothing is added, nothing is taken away. */
  lemma {:induction false} OverflowIsSticky(v: View, s: seq<Byte>, takes: Callback)
    requires WellFormed(v) && v.overflown
    ensures PutAll(v, s, takes) == v && PutBlock(v, s, takes) == v
  {
    if s != [] { OverflowIsSticky(v, s[..|s| - 1], takes); }
  }

  /** Unless the buffer overflows, appending appends: nothing lost, doubled or out of order. */
  lemma {:induction false} PutAllAppends(v: View, s: seq<Byte>, takes: Callback)
    requires WellFormed(v)
    ensures !PutAll(v, s, takes).overflown ==> Stream(PutAll(v, s, takes)) == Stream(v) + s
  {
    if s == [] {
      assert Stream(v) + s == Stream(v);
    } else {
      var front, c := s[..|s| - 1], s[|s| - 1];
      PutAllAppends(v, front, takes);
      PutAppends(PutAll(v, front, takes), c, takes);
      assert Stream(v) + front + [c] == Stream(v) + s;
    }
  }

  lemma PutAppends(v: View, c: Byte, takes: Callback)
    requires WellFormed(v)
    ensures !Put(v, c, takes).overflown ==> !v.overflown && Stream(Put(v, c, takes)) == Stream(v) + [c]
  {
    assert v.sink + v.content + [c] == v.sink + (v.content + [c]);
  }

  lemma BlockAppends(v: View, s: seq<Byte>, takes: Callback)
    requires WellFormed(v)
    ensures WellFormed(PutBlock(v, s, takes)) && PutBlock(v, s, takes).mode == v.mode
    ensures !PutBlock(v, s, takes).overflown ==> Stream(PutBlock(v, s, takes)) == Stream(v) + s
  {
    GuaranteeMakesRoom(v, |s|, takes);
    var (g, ok) := Guaranteed(v, |s|, takes);
    if s == [] {
      assert Stream(v) + s == Stream(v);
    } else if ok {
      assert g.sink + g.content + s == g.sink + (g.content + s);
    } else {
      PutAllAppends(g, s, takes);
    }
  }

  /** Who overflows: never a flexible buffer, and a flushable one only if its callback fails. */
  lemma {:induction false} PutAllOverflows(v: View, s: seq<Byte>, takes: Callback)
    requires WellFormed(v) && !v.overflown
    requires v.mode.Flexible? || (v.mode.Flushable? && forall i :: takes(i))
    ensures !PutAll(v, s, takes).overflown
  {
    if s != [] { PutAllOverflows(v, s[..|s| - 1], takes); }
  }

  lemma BlockOverflows(v: View, s: seq<Byte>, takes: Callback)
    requires WellFormed(v) && !v.overflown
    requires v.mode.Flexible? || (v.mode.Flushable? && forall i :: takes(i))
    ensures !PutBlock(v, s, takes).overflown
  {
    GuaranteeMakesRoom(v, |s|, takes);
    var (g, ok) := Guaranteed(v, |s|, takes);
    if s != [] && !ok { PutAllOverflows(g, s, takes); }
  }

  /** An inflexible buffer takes single bytes as long as there is room; a block it takes all or not at all. */
  lemma {:induction false} InflexibleKeepsPrefix(v: View, s: seq<Byte>, takes: Callback)
    requires WellFormed(v) && v.mode.Inflexible? && !v.overflown
    ensures var r := PutAll(v, s, takes);
            && (r.overflown <==> |s| > Room(v)) && r.capacity == v.capacity && r.hasStorage == v.hasStorage
            && r.content == v.content + s[..if |s| <= Room(v) then |s| else Room(v)]
  {
    if s == [] {
      assert v.content + s[..0] == v.content;
    } else {
      var front, c := s[..|s| - 1], s[|s| - 1];
      InflexibleKeepsPrefix(v, front, takes);
      if |s| <= Room(v) {
        assert front[..|front|] + [c] == s[..|s|];
      } else {
        var n := Room(v);
        assert front[..n] == s[..n];
      }
    }
  }

  lemma InflexibleBlock(v: View, s: seq<Byte>, takes: Callback)
    requires WellFormed(v) && v.mode.Inflexible? && !v.overflown
    ensures var r := PutBlock(v, s, takes);
            && (r.overflown <==> |s| > Room(v))
            && r.content == if |s| <= Room(v) then v.content + s else v.content
  {
    if s != [] && |s| > Room(v) { OverflowIsSticky(Overflow(v), s, takes); }
  }

  // ------------------------------------------------------------- amortisation

  /** Growing has moved no more bytes than the buffer can hold now. */
  predicate Amortised(v: View) {
    v.mode.Flexible? ==> v.moved <= v.capacity
  }

  /** The first allocation honours the capacity that was asked for; every other one at least doubles. */
  lemma CapacityGrows(v: View, growth: nat, takes: Callback)
    requires WellFormed(v) && v.mode.Flexible? && !v.overflown
    ensures var g := Grown(v, growth, takes).0;
            && Room(g) >= Room(v) + growth && g.capacity >= 2 * v.capacity && g.capacity >= v.capacity + MIN_GROW
            && (!v.hasStorage ==> g.capacity >= v.hint && (v.hint >= growth && v.hint >= MIN_GROW ==> g.capacity == v.hint))
            && g.content == v.content
  {
    assert WellFormed(Grown(v, growth, takes).0);
  }

  lemma GrowthIsAmortised(v: View, growth: nat, takes: Callback)
    requires WellFormed(v) && Amortised(v)
    ensures Amortised(Grown(v, growth, takes).0)
  {
  }

  lemma {:induction false} PutAllIsAmortised(v: View, s: seq<Byte>, takes: Callback)
    requires WellFormed(v) && Amortised(v)
    ensures Amortised(PutAll(v, s, takes))
  {
    if s != [] {
      PutAllIsAmortised(v, s[..|s| - 1], takes);
      GrowthIsAmortised(PutAll(v, s[..|s| - 1], takes), 1, takes);
    }
  }

  // --------------------------------------------------------------------- runs

  datatype Op = AddByte(c: Byte) | AddBytes(bytes: seq<Byte>) | AddString(bytes: seq<Byte>) | Memset(c: Byte, length: nat) | Flush

  /** The bytes of a C string: up to its first zero. */
  function CString(s: seq<Byte>): (r: seq<Byte>)
    ensures |r| <= |s| && r == s[..|r|] && 0 !in r && (|r| < |s| ==> s[|r|] == 0)
  {
    if s == [] || s[0] == 0 then [] else [s[0]] + CString(s[1..])
  }

  /** What an operation is meant to append. */
  function Appended(op: Op): seq<Byte> {
    match op
    case AddByte(c) => [c]
    case AddBytes(bytes) => bytes
    case AddString(bytes) => CString(bytes)
    case Memset(c, length) => seq(length, _ => c)
    case Flush => []
  }

  /** What it does. */
  ghost function After(v: View, op: Op, takes: Callback): View
    requires WellFormed(v)
  {
    match op
    case AddByte(c) => Put(v, c, takes)
    case AddBytes(bytes) => PutBlock(v, bytes, takes)
    case AddString(bytes) => PutAll(v, CString(bytes), takes)
    case Memset(c, length) => PutBlock(v, seq(length, _ => c), takes)
    case Flush => FlushedAny(v, takes).0
  }

  lemma AfterIsWellFormed(v: View, op: Op, takes: Callback)
    requires WellFormed(v)
    ensures WellFormed(After(v, op, takes)) && After(v, op, takes).mode == v.mode
  {
    BlockAppends(v, Appended(op), takes);
  }

  ghost function Run(v: View, ops: seq<Op>, takes: Callback): (r: View)
    requires WellFormed(v)
    ensures WellFormed(r) && r.mode == v.mode
  {
    if ops == [] then v
    else
      var before := Run(v, ops[..|ops| - 1], takes);
      AfterIsWellFormed(before, ops[|ops| - 1], takes);
      After(before, ops[|ops| - 1], takes)
  }

  lemma RunOneMore(v: View, ops: seq<Op>, i: nat, takes: Callback)
    requires WellFormed(v) && i < |ops|
    ensures Run(v, ops[..i + 1], takes) == After(Run(v, ops[..i], takes), ops[i], takes)
  {
    assert ops[..i + 1][..i] == ops[..i];
  }

  function AllAppended(ops: seq<Op>): seq<Byte> {
    if ops == [] then [] else AllAppended(ops[..|ops| - 1]) + Appended(ops[|ops| - 1])
  }

  lemma AfterAppends(v: View, op: Op, takes: Callback)
    requires WellFormed(v)
    ensures v.overflown ==> After(v, op, takes) == v
    ensures !After(v, op, takes).overflown ==> Stream(After(v, op, takes)) == Stream(v) + Appended(op)
  {
    if v.overflown {
      OverflowIsSticky(v, Appended(op), takes);
    } else {
      PutAppendsAny(v, op, takes);
    }
  }

  lemma PutAppendsAny(v: View, op: Op, takes: Callback)
    requires WellFormed(v)
    ensures !After(v, op, takes).overflown ==> Stream(After(v, op, takes)) == Stream(v) + Appended(op)
  {
    match op
    case AddByte(c) => PutAppends(v, c, takes);
    case AddBytes(bytes) => BlockAppends(v, bytes, takes);
    case AddString(bytes) => PutAllAppends(v, CString(bytes), takes);
    case Memset(c, length) => BlockAppends(v, seq(length, _ => c), takes);
    case Flush => assert Stream(v) + [] == Stream(v);
  }

  /**
   Over every sequence of operations that does not end in overflow, what was delivered
   followed by what is held is what was appended.
   */
  lemma {:induction false} Conservation(v: View, ops: seq<Op>, takes: Callback)
    requires WellFormed(v)
    ensures !Run(v, ops, takes).overflown ==> Stream(Run(v, ops, takes)) == Stream(v) + AllAppended(ops)
  {
    if ops == [] {
      assert Stream(v) + [] == Stream(v);
    } else {
      var front, op := ops[..|ops| - 1], ops[|ops| - 1];
      Conservation(v, front, takes);
      AfterAppends(Run(v, front, takes), op, takes);
    }
  }

  lemma AfterOverflows(v: View, op: Op, takes: Callback)
    requires WellFormed(v) && !v.overflown
    ensures v.mode.Flexible? ==> (After(v, op, takes).overflown <==> op.Flush?)
    ensures v.mode.Flushable? && (forall i :: takes(i)) ==> !After(v, op, takes).overflown
  {
    if v.mode.Flexible? || (v.mode.Flushable? && forall i :: takes(i)) {
      PutAllOverflows(v, Appended(op), takes);
      BlockOverflows(v, Appended(op), takes);
    }
  }

  /** A flushable buffer whose callback never fails never overflows. */
  lemma {:induction false} NoOverflow(v: View, ops: seq<Op>, takes: Callback)
    requires WellFormed(v) && !v.overflown && v.mode.Flushable? && forall i :: takes(i)
    ensures !Run(v, ops, takes).overflown
  {
    if ops != [] {
      NoOverflow(v, ops[..|ops| - 1], takes);
      AfterOverflows(Run(v, ops[..|ops| - 1], takes), ops[|ops| - 1], takes);
    }
  }

  /** From `v` to `r` the callback took every call but perhaps the last, and the last exactly if `r` is not overflown. */
  ghost predicate TookAllBut(v: View, r: View, takes: Callback) {
    && v.calls <= r.calls && (r.overflown ==> v.calls < r.calls && !takes(r.calls - 1))
    && (forall i :: v.calls <= i < r.calls && (!r.overflown || i < r.calls - 1) ==> takes(i))
  }

  lemma TookOnwards(v: View, r: View, z: View, takes: Callback)
    requires TookAllBut(v, r, takes) && (if r.overflown then z == r else TookAllBut(r, z, takes))
    ensures TookAllBut(v, z, takes)
  {
  }

  lemma {:induction false} PutAllTook(v: View, s: seq<Byte>, takes: Callback)
    requires WellFormed(v) && !v.overflown && v.mode.Flushable?
    ensures TookAllBut(v, PutAll(v, s, takes), takes)
  {
    if s != [] {
      var front := PutAll(v, s[..|s| - 1], takes);
      PutAllTook(v, s[..|s| - 1], takes);
      TookOnwards(v, front, Put(front, s[|s| - 1], takes), takes);
    }
  }

  lemma BlockTook(v: View, s: seq<Byte>, takes: Callback)
    requires WellFormed(v) && !v.overflown && v.mode.Flushable?
    ensures TookAllBut(v, PutBlock(v, s, takes), takes)
  {
    GuaranteeMakesRoom(v, |s|, takes);
    var (g, ok) := Guaranteed(v, |s|, takes);
    if s != [] && !ok {
      if g.overflown { OverflowIsSticky(g, s, takes); } else { PutAllTook(g, s, takes); }
    }
  }

  lemma AfterTook(v: View, op: Op, takes: Callback)
    requires WellFormed(v) && !v.overflown && v.mode.Flushable?
    ensures TookAllBut(v, After(v, op, takes), takes)
  {
    match op
    case AddByte(c) =>
    case AddBytes(bytes) => BlockTook(v, bytes, takes);
    case AddString(bytes) => PutAllTook(v, CString(bytes), takes);
    case Memset(c, length) => BlockTook(v, seq(length, _ => c), takes);
    case Flush =>
  }

  /** A flushable buffer overflows exactly if its callback fails, and then at once: it is not called again. */
  lemma {:induction false} FlushableOverflows(v: View, ops: seq<Op>, takes: Callback)
    requires WellFormed(v) && !v.overflown && v.mode.Flushable?
    ensures TookAllBut(v, Run(v, ops, takes), takes)
    ensures Run(v, ops, takes).overflown <==> exists i :: v.calls <= i < Run(v, ops, takes).calls && !takes(i)
  {
    if ops != [] {
      var front, op := ops[..|ops| - 1], ops[|ops| - 1];
      var r := Run(v, front, takes);
      FlushableOverflows(v, front, takes);
      if r.overflown { AfterAppends(r, op, takes); } else { AfterTook(r, op, takes); }
      TookOnwards(v, r, After(r, op, takes), takes);
    }
  }

  /** A flexible buffer overflows exactly if somebody flushes it. */
  lemma {:induction false} FlexibleOverflows(v: View, ops: seq<Op>, takes: Callback)
    requires WellFormed(v) && !v.overflown && v.mode.Flexible?
    ensures Run(v, ops, takes).overflown <==> Flush in ops
  {
    if ops != [] {
      var front, op := ops[..|ops| - 1], ops[|ops| - 1];
      FlexibleOverflows(v, front, takes);
      assert Flush in ops <==> Flush in front || op == Flush by {
        assert ops == front + [op];
      }
      if Flush in front {
        AfterAppends(Run(v, front, takes), op, takes);
      } else {
        AfterOverflows(Run(v, front, takes), op, takes);
      }
    }
  }

  lemma AfterIsAmortised(v: View, op: Op, takes: Callback)
    requires WellFormed(v) && Amortised(v)
    ensures Amortised(After(v, op, takes))
  {
    var s := Appended(op);
    PutAllIsAmortised(v, s, takes);
    GuaranteeMakesRoom(v, |s|, takes);
    if s != [] {
      var (g, ok) := Guaranteed(v, |s|, takes);
      if Room(v) < |s| { GrowthIsAmortised(v, |s| - Room(v), takes); }
      PutAllIsAmortised(g, s, takes);
    }
  }

  /** However a flexible buffer is filled, all its growths together move at most its capacity. */
  lemma {:induction false} GrowthIsLinear(v: View, ops: seq<Op>, takes: Callback)
    requires WellFormed(v) && Amortised(v)
    ensures Amortised(Run(v, ops, takes))
  {
    if ops != [] {
      GrowthIsLinear(v, ops[..|ops| - 1], takes);
      AfterIsAmortised(Run(v, ops[..|ops| - 1], takes), ops[|ops| - 1], takes);
    }
  }
}
