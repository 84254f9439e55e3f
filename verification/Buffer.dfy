/**
 The buffer itself: a storage, a cursor and flags that the operations update in place.
 Every operation is proved to do to the buffer what BufferModel does to its view.
 */
module Buffer {
  import opened Options
  import opened BufferModel
  import opened Escape

  class MulleBuffer {
    const mode: Mode
    const takes: Callback
    var storage: array?<Byte>
    var curr: nat
    /** The size of the first allocation; after an overflow the length before it. */
    var size: nat
    var overflown: bool
    var flushed: nat
    /** What the callback has taken, and how often it was called. */
    var sink: seq<Byte>
    var calls: nat
    /** How many bytes growing has moved. */
    var moved: nat

    ghost predicate Valid()
      reads this, storage
    {
      && (storage == null ==> curr == 0)
      && (storage != null ==> curr <= storage.Length)
      && (overflown ==> curr == Capacity() && size <= curr)
      && flushed == |sink| && (!mode.Flushable? ==> sink == [])
      && (mode.Flushable? ==> storage != null && storage.Length >= MIN_FLUSHABLE)
    }

    function Capacity(): nat
      reads this
    {
      if storage == null then 0 else storage.Length
    }

    function Length(): nat
      reads this
    {
      if overflown then size else curr
    }

    /** The buffer as BufferModel sees it. */
    ghost function Abs(): (v: View)
      reads this, storage
      requires Valid()
      ensures WellFormed(v)
    {
      View(mode, storage != null, Capacity(), if storage == null && !overflown then size else 0,
           if storage == null then [] else storage[..Length()], overflown, sink, calls, moved)
    }

    /** Init: an empty buffer, with its storage or without. */
    constructor (mode: Mode, takes: Callback, storage: array?<Byte>, capacity: nat)
      requires storage != null ==> capacity == storage.Length
      requires mode.Flushable? ==> storage != null && capacity >= MIN_FLUSHABLE
      ensures Valid() && this.storage == storage && this.mode == mode && this.takes == takes
      ensures Abs() == View(mode, storage != null, if storage == null then 0 else capacity,
                            if storage == null then capacity else 0, [], false, [], 0, 0)
    {
      this.mode, this.takes := mode, takes;
      this.storage, curr, size := storage, 0, capacity;
      overflown, flushed, sink, calls, moved := false, 0, [], 0, 0;
    }

    method SetOverflown()
      requires Valid() && !overflown
      modifies this
      ensures Valid() && Abs() == Overflow(old(Abs())) && storage == old(storage)
    {
      size := Length();
      curr := Capacity();
      overflown := true;
    }

    /** Flush of any buffer. Only a flushable one may be flushed after it has overflown. */
    method Flush() returns (ok: bool)
      requires Valid() && (mode.Flushable? || !overflown)
      modifies this
      ensures Valid() && (Abs(), ok) == FlushedAny(old(Abs()), takes) && storage == old(storage)
      ensures mode.Flushable? && !old(overflown) ==>
                && (ok <==> old(Length()) == 0 || takes(old(calls)))
                && calls == old(calls) + (if old(Length()) == 0 then 0 else 1)
      ensures ok ==> Abs().content == [] && sink == old(Stream(Abs())) && flushed == |sink| && !overflown
      ensures !ok ==> overflown && Abs().content == old(Abs()).content && sink == old(sink)
      ensures !mode.Flushable? ==> !ok && calls == old(calls)
    {
      if !mode.Flushable? {
        SetOverflown();
        return false;
      }
      ok := FlushToCallback();
    }

    method FlushToCallback() returns (ok: bool)
      requires Valid() && mode.Flushable?
      modifies this
      ensures Valid() && (Abs(), ok) == Flushed(old(Abs()), takes) && storage == old(storage)
      ensures !old(overflown) ==>
                && (ok <==> old(Length()) == 0 || takes(old(calls)))
                && calls == old(calls) + (if old(Length()) == 0 then 0 else 1)
      ensures ok ==> Abs().content == [] && sink == old(Stream(Abs())) && flushed == |sink| && !overflown
      ensures !ok ==> overflown && Abs().content == old(Abs()).content && sink == old(sink)
    {
      if overflown { return false; }
      if curr == 0 { return true; }
      calls := calls + 1;
      if !takes(calls - 1) {
        SetOverflown();
        return false;
      }
      sink := sink + storage[..curr];
      flushed := flushed + curr;
      curr := 0;
      return true;
    }

    method Grow(growth: nat) returns (ok: bool)
      requires Valid()
      modifies this
      ensures Valid() && (Abs(), ok) == Grown(old(Abs()), growth, takes)
      ensures storage == old(storage) || fresh(storage)
    {
      if overflown { return false; }
      match mode {
        case Flexible =>
          var plus := Max(MIN_GROW, growth);
          var newSize := if storage == null then Max(plus, size) else storage.Length + Max(plus, storage.Length);
          var p := new Byte[newSize];
          if storage != null {
            forall i | 0 <= i < curr { p[i] := storage[i]; }
          }
          assert p[..curr] == Abs().content;
          moved := moved + curr;
          storage := p;
          ok := true;
        case Inflexible =>
          ok := growth == 0;
          if !ok { SetOverflown(); }
        case Flushable =>
          if growth == 0 { return true; }
          if storage.Length < storage.Length - curr + growth { return false; }
          ok := FlushToCallback();
      }
    }

    method Guarantee(length: nat) returns (ok: bool)
      requires Valid()
      modifies this
      ensures Valid() && (Abs(), ok) == Guaranteed(old(Abs()), length, takes)
      ensures storage == old(storage) || fresh(storage)
    {
      if overflown { return false; }
      var missing := curr + length - Capacity();
      if missing > 0 {
        ok := Grow(missing);
      } else {
        ok := storage != null;
      }
    }

    method AddByte(c: Byte)
      requires Valid()
      modifies this, storage
      ensures Valid() && Abs() == Put(old(Abs()), c, takes)
      ensures storage == old(storage) || fresh(storage)
    {
      if overflown || storage == null || curr >= storage.Length {
        var ok := Grow(1);
        if !ok { return; }
      }
      Store(c);
    }

    /** The byte goes where the cursor is. */
    method Store(c: Byte)
      requires Valid() && !overflown && storage != null && curr < storage.Length
      modifies this`curr, storage
      ensures Valid() && Abs() == old(Abs()).(content := old(Abs()).content + [c])
    {
      storage[curr] := c;
      curr := curr + 1;
      assert storage[..curr] == old(storage[..curr]) + [c];
    }

    /** One byte after the other, which flushes as it goes. */
    method AddSingly(bytes: seq<Byte>)
      requires Valid()
      modifies this, storage
      ensures Valid() && Abs() == PutAll(old(Abs()), bytes, takes)
      ensures storage == old(storage) || fresh(storage)
    {
      var i := 0;
      assert bytes[..0] == [];
      while i < |bytes|
        invariant 0 <= i <= |bytes| && Valid()
        invariant Abs() == PutAll(old(Abs()), bytes[..i], takes)
        invariant storage == old(storage) || fresh(storage)
      {
        PutAllOneMore(old(Abs()), bytes[..i], bytes[i], takes);
        assert bytes[..i] + [bytes[i]] == bytes[..i + 1];
        AddByte(bytes[i]);
        i := i + 1;
      }
      assert bytes[..i] == bytes;
    }

    method AddBytes(bytes: seq<Byte>)
      requires Valid()
      modifies this, storage
      ensures Valid() && Abs() == PutBlock(old(Abs()), bytes, takes)
      ensures storage == old(storage) || fresh(storage)
    {
      if bytes == [] { return; }
      GuaranteeMakesRoom(Abs(), |bytes|, takes);
      var ok := Guarantee(|bytes|);
      if ok {
        StoreBlock(bytes);
      } else {
        AddSingly(bytes);
      }
    }

    method StoreBlock(bytes: seq<Byte>)
      requires Valid() && !overflown && storage != null && curr + |bytes| <= storage.Length
      modifies this`curr, storage
      ensures Valid() && Abs() == old(Abs()).(content := old(Abs()).content + bytes)
    {
      var start := curr;
      forall i | 0 <= i < |bytes| { storage[start + i] := bytes[i]; }
      curr := start + |bytes|;
      assert storage[..curr] == old(storage[..curr]) + bytes;
    }

    method Memset(c: Byte, length: nat)
      requires Valid()
      modifies this, storage
      ensures Valid() && Abs() == PutBlock(old(Abs()), seq(length, _ => c), takes)
      ensures storage == old(storage) || fresh(storage)
    {
      if length == 0 { return; }
      GuaranteeMakesRoom(Abs(), length, takes);
      var ok := Guarantee(length);
      if ok {
        StoreBlock(seq(length, _ => c));
      } else {
        AddSingly(seq(length, _ => c));
      }
    }

    /**
     The fast path copies eight bytes at a time while eight fit, straight to the
     storage; the rest goes byte by byte. The outcome is that of byte by byte.
     */
    method AddString(s: seq<Byte>)
      requires Valid()
      modifies this, storage
      ensures Valid() && Abs() == PutAll(old(Abs()), CString(s), takes)
      ensures storage == old(storage) || fresh(storage)
    {
      var bytes := CString(s);
      if overflown {
        OverflowIsSticky(Abs(), bytes, takes);
      } else {
        AddFast(bytes);
      }
    }

    method AddFast(bytes: seq<Byte>)
      requires Valid() && !overflown
      modifies this, storage
      ensures Valid() && Abs() == PutAll(old(Abs()), bytes, takes)
      ensures storage == old(storage) || fresh(storage)
    {
      var rest := bytes;
      ghost var end := PutAll(Abs(), bytes, takes);
      while storage != null && curr + 8 <= storage.Length
        invariant Valid() && !overflown && storage == old(storage)
        invariant end == PutAll(Abs(), rest, takes)
        decreases |rest|
      {
        ghost var v := Abs();
        var n := StoreEight(rest);
        PutAllGoesOn(v, rest[..n], rest[n..], takes);
        assert rest[..n] + rest[n..] == rest;
        rest := rest[n..];
        if n < 8 { return; }
      }
      AddSingly(rest);
    }

    /** Up to eight bytes, fewer only if the string ends. */
    method StoreEight(bytes: seq<Byte>) returns (n: nat)
      requires Valid() && !overflown && storage != null && curr + 8 <= storage.Length
      modifies this`curr, storage
      ensures Valid() && n == (if |bytes| < 8 then |bytes| else 8)
      ensures Abs() == old(Abs()).(content := old(Abs()).content + bytes[..n])
    {
      n := 0;
      while n < 8 && n < |bytes|
        invariant 0 <= n <= 8 && n <= |bytes| && Valid() && curr == old(curr) + n
        invariant Abs().content == old(Abs()).content + bytes[..n]
      {
        Store(bytes[n]);
        n := n + 1;
      }
    }

    method AddCChar(c: Byte)
      requires Valid()
      modifies this, storage
      ensures Valid() && Abs() == PutAll(old(Abs()), EscapeChar(c), takes)
      ensures storage == old(storage) || fresh(storage)
    {
      AddSingly(EscapeChar(c));
    }

    /** The escaped bytes, one after the other. */
    method AddCChars(s: seq<Byte>)
      requires Valid()
      modifies this, storage
      ensures Valid() && Abs() == PutAll(old(Abs()), EscapeAll(s), takes)
      ensures storage == old(storage) || fresh(storage)
      ensures !overflown ==> Stream(Abs()) == old(Stream(Abs())) + EscapeAll(s)
    {
      PutAllAppends(Abs(), EscapeAll(s), takes);
      var rest := s;
      ghost var end := PutAll(Abs(), EscapeAll(s), takes);
      while rest != []
        invariant Valid() && end == PutAll(Abs(), EscapeAll(rest), takes)
        invariant storage == old(storage) || fresh(storage)
        decreases |rest|
      {
        PutAllSplits(Abs(), EscapeChar(rest[0]), EscapeAll(rest[1..]), takes);
        AddCChar(rest[0]);
        rest := rest[1..];
      }
    }

    /** A C string literal, of which a compiler makes the string again. */
    method AddCString(s: seq<Byte>)
      requires Valid()
      modifies this, storage
      ensures Valid() && Abs() == PutAll(old(Abs()), Literal(CString(s)), takes)
      ensures storage == old(storage) || fresh(storage)
      ensures !overflown ==> Stream(Abs()) == old(Stream(Abs())) + Literal(CString(s))
      ensures Compiled(Literal(CString(s))) == Some(CString(s))
    {
      PutAllAppends(Abs(), Literal(CString(s)), takes);
      CompilesBack(CString(s));
      var bytes := CString(s);
      var body := EscapeAll(bytes);
      PutAllSplits(old(Abs()), [QUOTE], body, takes);
      PutAllOneMore(old(Abs()), [], QUOTE, takes);
      assert [] + [QUOTE] == [QUOTE];
      AddByte(QUOTE);
      AddCChars(bytes);
      PutAllOneMore(old(Abs()), [QUOTE] + body, QUOTE, takes);
      AddByte(QUOTE);
    }

    /** The position in everything that was appended. */
    method GetLseek() returns (position: nat)
      requires Valid()
      ensures position == |Stream(Abs())|
    {
      position := if mode.Flushable? then flushed + Length() else Length();
    }

    method PerformOne(op: Op)
      requires Valid()
      modifies this, storage
      ensures Valid() && Abs() == After(old(Abs()), op, takes)
      ensures storage == old(storage) || fresh(storage)
    {
      match op {
        case AddByte(c) => AddByte(c);
        case AddBytes(bytes) => AddBytes(bytes);
        case AddString(bytes) => AddString(bytes);
        case Memset(c, length) => Memset(c, length);
        case Flush => if mode.Flushable? || !overflown { var _ := Flush(); }
      }
    }

    /** Any sequence of operations. */
    method Perform(ops: seq<Op>)
      requires Valid()
      modifies this, storage
      ensures Valid() && Abs() == Run(old(Abs()), ops, takes)
      ensures storage == old(storage) || fresh(storage)
      ensures !overflown ==> Stream(Abs()) == old(Stream(Abs())) + AllAppended(ops)
    {
      var i := 0;
      ghost var v := Abs();
      assert ops[..0] == [];
      while i < |ops|
        invariant 0 <= i <= |ops| && Valid() && Abs() == Run(v, ops[..i], takes)
        invariant storage == old(storage) || fresh(storage)
      {
        RunOneMore(v, ops, i, takes);
        PerformOne(ops[i]);
        i := i + 1;
      }
      assert ops[..i] == ops;
      Conservation(v, ops, takes);
    }
  }
}
