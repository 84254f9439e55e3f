/**
 The storages of a world, which free edits in place in its own copy of the world: pop
 the first, push at the end, rotate, and the loop that looks for storages to reuse.
 */
module AbaRotation {
  import opened AbaModel

  /** A pointer to a storage; 0 is NULL. */
  type Pointer = nat

  /** `first` storages of `s` moved to its end. */
  function Rotated(s: seq<Pointer>, first: nat): (r: seq<Pointer>)
    requires first <= |s|
  {
    s[first..] + s[..first]
  }

  /** Where the storage at index `i` was before `r` rotations. */
  function Origin(i: nat, r: nat, n: nat): nat {
    if i + r < n then i + r else if i + r < 2 * n then i + r - n else 0
  }

  lemma OriginOf(s: seq<Pointer>, r: nat, i: nat)
    requires i < |s| && r <= |s|
    ensures Rotated(s, r)[i] == s[Origin(i, r, |s|)]
  {
  }

  lemma RotatedOnce(s: seq<Pointer>, r: nat)
    requires r < |s|
    ensures Rotated(s, r)[1..] + [Rotated(s, r)[0]] == Rotated(s, r + 1)
  {
    assert Rotated(s, r)[0] == s[r];
    assert s[..r + 1] == s[..r] + [s[r]];
  }

  /**
   The usage bits as the loop reads them: `zero(i, x)` is what the test in round `i`
   finds about storage `x`. Other threads go on releasing timestamps in the meantime.
   A storage at or before index `current` that is found unused is among the first `z`.
   */
  ghost predicate ReadsOk(zero: (nat, Pointer) -> bool, storages: seq<Pointer>, current: nat, z: nat) {
    forall i: nat, p: nat :: p < |storages| && p <= current && zero(i, storages[p]) ==> p < z
  }

  /** Nobody releases a timestamp while the loop runs: the first `z` storages and the unreached ones are unused. */
  ghost predicate ReadsExact(zero: (nat, Pointer) -> bool, storages: seq<Pointer>, current: nat, z: nat) {
    forall i: nat, p: nat :: p < |storages| ==> (zero(i, storages[p]) <==> p < z || p > current)
  }

  /** What the loop reuses of `z` unused storages, when nothing changes: all, or all but one. */
  function Reusable(current: nat, z: nat): nat {
    var k := if z % 2 == 1 || z == 0 then z else z - 1;
    if k <= current then k else current
  }

  /** What the loop knows before round `i`, with `r` rotations done. */
  ghost predicate Progress(i: nat, r: nat, current: nat, z: nat) {
    && r <= i <= current
    && (r > 0 ==> 2 * r - 1 <= z || i + r > current)
    && (i + r > current ==> r + (current - i) <= z)
  }

  /** The same, when nothing changes. */
  ghost predicate ExactProgress(i: nat, r: nat, current: nat, z: nat) {
    && Progress(i, r, current, z)
    && (i + r <= current ==> 2 * r <= z + 1 && (r == i || 2 * r >= z))
    && (i + r > current ==> r + (current - i) == Reusable(current, z))
  }

  /** Round `i`, which may find the storage unused (`hit`). */
  lemma Round(i: nat, r: nat, current: nat, n: nat, z: nat, hit: bool)
    requires i < current < n && Progress(i, r, current, z)
    requires hit && Origin(i, r, n) <= current && i + r < n ==> Origin(i, r, n) < z
    ensures Progress(i + 1, if hit then r + 1 else r, current, z)
  {
  }

  lemma ExactRound(i: nat, r: nat, current: nat, n: nat, z: nat, hit: bool)
    requires i < current < n && ExactProgress(i, r, current, z)
    requires hit <==> Origin(i, r, n) < z || Origin(i, r, n) > current
    ensures ExactProgress(i + 1, if hit then r + 1 else r, current, z)
  {
    Round(i, r, current, n, z, hit);
    if i + r > current {
      assert hit;
    } else {
      assert hit <==> i + r < z;
    }
  }

  /** How many storages rounds 0 to `i` - 1 of the loop reuse, one round after the other. */
  ghost function Reused(counting: bool, zero: (nat, Pointer) -> bool, storages: seq<Pointer>, i: nat): nat
    requires i < |storages|
  {
    if i == 0 then 0
    else
      var r := Reused(counting, zero, storages, i - 1);
      if zero(i - 1, storages[Origin(i - 1, if counting then 0 else r, |storages|)]) then r + 1 else r
  }

  lemma ReusedNext(counting: bool, zero: (nat, Pointer) -> bool, storages: seq<Pointer>, i: nat)
    requires i + 1 < |storages|
    ensures var r := Reused(counting, zero, storages, i);
            Reused(counting, zero, storages, i + 1)
            == if zero(i, storages[Origin(i, if counting then 0 else r, |storages|)]) then r + 1 else r
  {
  }

  lemma {:induction false} ReusedProgress(zero: (nat, Pointer) -> bool, storages: seq<Pointer>, i: nat, current: nat, z: nat)
    requires i <= current < |storages| && ReadsOk(zero, storages, current, z)
    ensures Progress(i, Reused(false, zero, storages, i), current, z)
    ensures ReadsExact(zero, storages, current, z) ==> ExactProgress(i, Reused(false, zero, storages, i), current, z)
  {
    if i > 0 {
      var j, n := i - 1, |storages|;
      var r := Reused(false, zero, storages, j);
      ReusedProgress(zero, storages, j, current, z);
      var hit := zero(j, storages[Origin(j, r, n)]);
      Round(j, r, current, n, z, hit);
      if ReadsExact(zero, storages, current, z) { ExactRound(j, r, current, n, z, hit); }
    }
  }

  /**
   The loop tests the storage at index i but rotates out the one at index 0. Still it
   rotates out unused storages only, and never the current one.
   */
  lemma RotatesOnlyUnused(zero: (nat, Pointer) -> bool, storages: seq<Pointer>, current: nat, z: nat)
    requires current < |storages| && ReadsOk(zero, storages, current, z)
    ensures var r := Reused(false, zero, storages, current); r <= z && r <= current
  {
    ReusedProgress(zero, storages, current, current, z);
  }

  /** If nothing changes meanwhile it rotates out all unused storages if their number is odd, else all but one. */
  lemma RotatesAllButOne(zero: (nat, Pointer) -> bool, storages: seq<Pointer>, current: nat, z: nat)
    requires current < |storages| && ReadsExact(zero, storages, current, z)
    ensures Reused(false, zero, storages, current) == Reusable(current, z)
  {
    ReusedProgress(zero, storages, current, current, z);
  }

  /** Counting finds all of them. */
  lemma {:induction false} CountsAllUnused(zero: (nat, Pointer) -> bool, storages: seq<Pointer>, i: nat, current: nat, z: nat)
    requires i <= current < |storages| && ReadsExact(zero, storages, current, z)
    ensures Reused(true, zero, storages, i) == if i < z then i else z
  {
    if i > 0 { CountsAllUnused(zero, storages, i - 1, current, z); }
  }

  /** If counting finds a storage then so does rotating, and the other way round. */
  lemma {:induction false} CountingAgrees(zero: (nat, Pointer) -> bool, storages: seq<Pointer>, i: nat)
    requires i < |storages|
    ensures Reused(true, zero, storages, i) == 0 <==> Reused(false, zero, storages, i) == 0
  {
    if i > 0 { CountingAgrees(zero, storages, i - 1); }
  }

  class WorldStruct {
    var storage: array<Pointer>
    var n: nat
    var offset: nat
    var timestamp: nat

    ghost predicate Valid()
      reads this, storage
    {
      && n <= storage.Length
      && (forall i :: 0 <= i < n ==> storage[i] != 0)
      && (forall i :: n <= i < storage.Length ==> storage[i] == 0)
    }

    ghost function Contents(): seq<Pointer>
      reads this, storage
      requires Valid()
    {
      storage[..n]
    }

    constructor (size: nat)
      ensures Valid() && fresh(storage) && storage.Length == size
      ensures Contents() == [] && offset == 0 && timestamp == 0
    {
      storage := new Pointer[size](_ => 0);
      n, offset, timestamp := 0, 0, 0;
    }

    /** Takes out the first storage; its timestamps leave the world. */
    method PopStorage() returns (first: Pointer)
      requires Valid()
      modifies this`n, this`offset, storage
      ensures Valid()
      ensures old(Contents()) == [] ==> first == 0 && Contents() == [] && offset == old(offset)
      ensures old(Contents()) != [] ==> [first] + Contents() == old(Contents()) && offset == old(offset) + ENTRIES
    {
      if n == 0 { return 0; }
      first := storage[0];
      var m := n - 1;
      var j := 0;
      while j < m
        modifies storage
        invariant 0 <= j <= m
        invariant forall i :: 0 <= i < j ==> storage[i] == old(storage[i + 1])
        invariant forall i :: j <= i < storage.Length ==> storage[i] == old(storage[i])
      {
        storage[j] := storage[j + 1];
        j := j + 1;
      }
      storage[m] := 0;
      n := m;
      offset := offset + ENTRIES;
      assert old(Contents()) == [first] + old(Contents())[1..];
      assert Contents() == old(Contents())[1..];
    }

    /** Adds a storage at the end, if the world has room. */
    method PushStorage(x: Pointer) returns (ok: bool)
      requires Valid() && x != 0
      modifies this`n, storage
      ensures Valid() && ok == (old(n) < storage.Length)
      ensures Contents() == if ok then old(Contents()) + [x] else old(Contents())
    {
      ok := n != storage.Length;
      if ok {
        storage[n] := x;
        n := n + 1;
      }
    }

    /** The first storage serves the timestamps after the last ones. */
    method RotateStorage()
      requires Valid() && n > 0
      modifies this`n, this`offset, storage
      ensures Valid() && n == old(n) && offset == old(offset) + ENTRIES
      ensures Contents() == old(Contents())[1..] + [old(Contents())[0]] && |Contents()| == n
    {
      var first := PopStorage();
      assert first == ([first] + Contents())[0] == old(Contents())[0];
      var _ := PushStorage(first);
    }

    /** The index of the storage that has the current timestamp. */
    ghost function Current(): nat
      reads this
    {
      if timestamp >= offset then (timestamp - offset) / ENTRIES else 0
    }

    /** One round of the loop of reuse_storages: `was` are the storages at its start, `rot` the rotations so far. */
    method ReuseOne(counting: bool, zero: (nat, Pointer) -> bool, i: nat, reused: nat, ghost was: seq<Pointer>, ghost rot: nat)
      returns (reused': nat, ghost rot': nat)
      requires Valid() && i + 1 < n == |was| && rot <= i && Contents() == Rotated(was, rot)
      requires rot == (if counting then 0 else reused) && reused == Reused(counting, zero, was, i)
      modifies this`n, this`offset, storage
      ensures Valid() && n == old(n) && rot <= rot' <= i + 1 && Contents() == Rotated(was, rot')
      ensures rot' == (if counting then 0 else reused') && reused' == Reused(counting, zero, was, i + 1)
      ensures offset - rot' * ENTRIES == old(offset) - rot * ENTRIES
    {
      reused', rot' := reused, rot;
      OriginOf(was, rot, i);
      assert storage[i] == Contents()[i];
      ReusedNext(counting, zero, was, i);
      if zero(i, storage[i]) {
        if !counting {
          RotatedOnce(was, rot);
          RotateStorage();
          rot' := rot + 1;
        }
        reused' := reused + 1;
      }
    }

    /** The loop of reuse_storages, up to the storage that has the current timestamp. */
    method ReuseUpTo(counting: bool, zero: (nat, Pointer) -> bool, current: nat) returns (reused: nat)
      requires Valid() && current < n
      modifies this`n, this`offset, storage
      ensures Valid() && n == old(n) && reused == Reused(counting, zero, old(Contents()), current)
      ensures var rotations := if counting then 0 else reused;
              rotations <= n && Contents() == Rotated(old(Contents()), rotations) && offset - rotations * ENTRIES == old(offset)
    {
      reused := 0;
      ghost var was, rot := Contents(), 0;
      var i := 0;
      while i < n && i != current
        invariant 0 <= rot <= i <= current < n == old(n) == |was| && Valid()
        invariant rot == (if counting then 0 else reused) && reused == Reused(counting, zero, was, i)
        invariant Contents() == Rotated(was, rot) && offset - rot * ENTRIES == old(offset)
      {
        reused, rot := ReuseOne(counting, zero, i, reused, was, rot);
        i := i + 1;
      }
    }

    /** reuse_storages; `counting` leaves the world as it is. */
    method ReuseStorages(counting: bool, zero: (nat, Pointer) -> bool) returns (reused: nat)
      requires Valid() && offset <= timestamp && (timestamp != 0 ==> Current() < n)
      modifies this`n, this`offset, storage
      ensures Valid() && n == old(n)
      ensures reused == if timestamp == 0 then 0 else Reused(counting, zero, old(Contents()), old(Current()))
      ensures var rotations := if counting then 0 else reused;
              rotations <= n && Contents() == Rotated(old(Contents()), rotations) && offset == old(offset) + rotations * ENTRIES
    {
      reused := 0;
      if timestamp == 0 { return; }
      reused := ReuseUpTo(counting, zero, (timestamp - offset) / ENTRIES);
    }
  }
}
