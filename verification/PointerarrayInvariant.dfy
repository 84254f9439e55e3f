/**
 What every reachable memory of the pointer array satisfies, what every step does to
 the log of published values, and what a thread knows at each point of its call.
 */
module PointerarrayInvariant {
  import opened PointerarrayModel

  // ------------------------------------------------------------------ memory

  /** A published slot is not empty. */
  predicate GenOk(g: Generation) {
    g.n <= |g.slots| && forall i :: 0 <= i < g.n ==> g.slots[i] != Empty
  }

  /** A retired generation was full, and everything has been carried out of it. */
  predicate Retired(g: Generation) {
    g.n == |g.slots| && forall i :: 0 <= i < |g.slots| ==> g.slots[i] == Redirect
  }

  /** A generation is at least twice as large as the one before. */
  predicate SizeOk(m: Memory, g: nat) {
    0 < g < |m.gens| ==> |m.gens[g].slots| >= 8 && |m.gens[g].slots| >= 2 * |m.gens[g - 1].slots|
  }

  ghost predicate SizesOk(m: Memory) {
    forall g: nat :: SizeOk(m, g)
  }

  lemma SizesStay(m: Memory, m': Memory)
    requires SizesOk(m) && |m'.gens| == |m.gens| && forall g :: 0 <= g < |m.gens| ==> |m'.gens[g].slots| == |m.gens[g].slots|
    ensures SizesOk(m')
  {
    forall g: nat ensures SizeOk(m', g) {
      assert SizeOk(m, g);
    }
  }

  predicate HasPending(m: Memory) {
    |m.gens| == m.cur + 2
  }

  /** The current generation is filled from the front, at most one ahead of the count. */
  predicate CurrentOk(m: Memory)
    requires m.cur < |m.gens|
  {
    var c := m.gens[m.cur];
    && (forall i :: c.n < i < |c.slots| ==> c.slots[i] == Empty)
    && (m.cur > 0 ==> |m.gens[m.cur - 1].slots| <= c.n)
    && (forall i :: 0 <= i < |c.slots| && c.slots[i] == Redirect ==> HasPending(m) && SlotAt(m, m.cur + 1, i).Filled?)
  }

  /** There is a successor only once the current generation is full; the successor has nothing but its values. */
  predicate PendingOk(m: Memory)
    requires m.cur < |m.gens|
  {
    HasPending(m) ==>
      var c, d := m.gens[m.cur], m.gens[m.cur + 1];
      && c.n == |c.slots|
      && (forall i :: 0 <= i < |d.slots| ==> d.slots[i] != Redirect)
      && (forall i :: 0 <= i < |d.slots| && d.slots[i].Filled? ==>
            i < |c.slots| && (c.slots[i] == Redirect || c.slots[i] == d.slots[i]))
  }

  ghost predicate MemInv(m: Memory) {
    && m.cur < |m.gens| <= m.cur + 2 && SizesOk(m)
    && (forall g :: 0 <= g < |m.gens| ==> GenOk(m.gens[g]))
    && (forall g :: 0 <= g < m.cur ==> Retired(m.gens[g]))
    && CurrentOk(m) && PendingOk(m)
  }

  lemma {:induction false} SizesGrow(m: Memory, p: nat, q: nat)
    requires SizesOk(m) && p <= q < |m.gens|
    ensures |m.gens[p].slots| <= |m.gens[q].slots| && (p < q ==> |m.gens[q].slots| > 0)
    decreases q - p
  {
    if p < q {
      SizesGrow(m, p, q - 1);
      assert SizeOk(m, q);
    }
  }

  // --------------------------------------------------------------------- log

  /** The value with index `i`, which may be on its way to the successor. */
  function ValueAt(m: Memory, i: nat): Item {
    match SlotAt(m, m.cur, i)
    case Filled(item) => item
    case _ => if SlotAt(m, m.cur + 1, i).Filled? then SlotAt(m, m.cur + 1, i).item else Item(0, 0, 0)
  }

  /** The published values: what the array contains. */
  function Log(m: Memory): (log: seq<Item>)
    ensures |log| == Count(m, m.cur)
    ensures forall i :: 0 <= i < |log| ==> log[i] == ValueAt(m, i)
  {
    seq(Count(m, m.cur), i requires 0 <= i => ValueAt(m, i))
  }

  /** Claimed by an add that has yet to publish it. */
  function Claimed(m: Memory): seq<Item> {
    var x := SlotAt(m, m.cur, Count(m, m.cur));
    if x.Filled? then [x.item] else []
  }

  function Placed(m: Memory): seq<Item> {
    Log(m) + Claimed(m)
  }

  predicate Prefix<T(==)>(a: seq<T>, b: seq<T>) {
    |a| <= |b| && a == b[..|a|]
  }

  // ------------------------------------------------------------ how it changes

  /** A slot is filled once and redirected once. */
  predicate SlotLater(x: Slot, y: Slot) {
    x == Empty || x == y || y == Redirect
  }

  predicate GenLater(a: Generation, b: Generation) {
    && |a.slots| == |b.slots| && a.n <= b.n
    && (forall i :: 0 <= i < |a.slots| ==> SlotLater(a.slots[i], b.slots[i]) && (b.slots[i] == Empty ==> a.slots[i] == Empty))
  }

  predicate Evolves(m: Memory, m': Memory) {
    && m.cur <= m'.cur && |m.gens| <= |m'.gens|
    && (forall g :: 0 <= g < |m.gens| ==> GenLater(m.gens[g], m'.gens[g]))
    && Prefix(Log(m), Log(m')) && Prefix(Placed(m), Placed(m'))
  }

  lemma EvolvesSelf(m: Memory)
    ensures Evolves(m, m)
  {
  }

  // ---------------------------------------------------------- memory actions

  predicate Full(m: Memory, p: nat) {
    p < |m.gens| && p <= m.cur && m.gens[p].n == |m.gens[p].slots|
  }

  /** An empty slot that add can reach is the first free one of the current generation, which has no successor. */
  lemma AddsAtCount(m: Memory, p: nat, i: nat)
    requires MemInv(m) && p <= m.cur && i <= Count(m, p) && SlotAt(m, p, i) == Empty
    ensures p == m.cur && i == Count(m, p) < Size(m, p) && Claimed(m) == [] && !HasPending(m)
  {
    assert GenOk(m.gens[p]);
    assert p < m.cur ==> Retired(m.gens[p]);
  }

  lemma AddKeeps(m: Memory, p: nat, i: nat, item: Item)
    requires MemInv(m) && p <= m.cur && i <= Count(m, p) && SlotAt(m, p, i) == Empty
    ensures p == m.cur && i == Count(m, p) && Claimed(m) == []
    ensures var m' := WithSlot(m, p, i, Filled(item)); MemInv(m') && Evolves(m, m') && Log(m') == Log(m) && Claimed(m') == [item]
  {
    AddsAtCount(m, p, i);
    var m' := WithSlot(m, p, i, Filled(item));
    assert GenLater(m.gens[p], m'.gens[p]) && GenOk(m'.gens[p]) by { assert GenOk(m.gens[p]); }
    assert CurrentOk(m');
    assert forall j :: 0 <= j < |Log(m)| ==> SlotAt(m', m.cur, j) == SlotAt(m, m.cur, j);
    LogSame(m, m');
    assert Placed(m') == Placed(m) + [item];
    ChangeKeeps(m, p, m'.gens[p]);
  }

  lemma LogSame(m: Memory, m': Memory)
    requires Count(m, m.cur) == Count(m', m'.cur) && forall i :: 0 <= i < Count(m, m.cur) ==> ValueAt(m', i) == ValueAt(m, i)
    ensures Log(m') == Log(m) && Prefix(Log(m), Log(m'))
  {
  }

  /** A change of generation `d`, which is not retired. */
  lemma ChangeKeeps(m: Memory, d: nat, g': Generation)
    requires MemInv(m) && m.cur <= d < |m.gens| && GenOk(g') && GenLater(m.gens[d], g')
    requires var m' := m.(gens := m.gens[d := g']);
             CurrentOk(m') && PendingOk(m') && Prefix(Log(m), Log(m')) && Prefix(Placed(m), Placed(m'))
    ensures var m' := m.(gens := m.gens[d := g']); MemInv(m') && Evolves(m, m')
  {
    var m' := m.(gens := m.gens[d := g']);
    assert forall g :: 0 <= g < |m.gens| && g != d ==> m'.gens[g] == m.gens[g];
    SizesStay(m, m');
  }

  /** Put fills a slot of the successor. */
  lemma PutKeeps(m: Memory, d: nat, j: nat, item: Item)
    requires MemInv(m) && SlotAt(m, d, j) == Empty && j < Count(m, m.cur) && ValueAt(m, j) == item
    ensures d == m.cur + 1 && HasPending(m)
    ensures var m' := WithSlot(m, d, j, Filled(item)); MemInv(m') && Evolves(m, m') && Log(m') == Log(m) && Claimed(m') == Claimed(m)
  {
    PutsInSuccessor(m, d, j);
    var m' := WithSlot(m, d, j, Filled(item));
    assert GenLater(m.gens[d], m'.gens[d]) && GenOk(m'.gens[d]) by { assert GenOk(m.gens[d]); }
    assert m'.gens[m.cur] == m.gens[m.cur];
    assert CurrentOk(m');
    PutKeepsPending(m, j, item);
    LogSame(m, m');
    ChangeKeeps(m, d, m'.gens[d]);
  }

  lemma PutsInSuccessor(m: Memory, d: nat, j: nat)
    requires MemInv(m) && SlotAt(m, d, j) == Empty && j < Count(m, m.cur)
    ensures d == m.cur + 1 && HasPending(m)
  {
    assert GenOk(m.gens[m.cur]);
    assert d < m.cur ==> Retired(m.gens[d]);
  }

  lemma PutKeepsPending(m: Memory, j: nat, item: Item)
    requires MemInv(m) && HasPending(m) && SlotAt(m, m.cur + 1, j) == Empty && j < Count(m, m.cur) && ValueAt(m, j) == item
    ensures PendingOk(WithSlot(m, m.cur + 1, j, Filled(item)))
  {
    assert GenOk(m.gens[m.cur]);
    assert SlotAt(m, m.cur, j) == Filled(item);
  }

  /** A slot that has been carried is redirected. */
  lemma RetireKeeps(m: Memory, p: nat, j: nat)
    requires MemInv(m) && p <= m.cur && SlotAt(m, p, j).Filled?
    requires p == m.cur ==> HasPending(m) && SlotAt(m, m.cur + 1, j).Filled?
    ensures p == m.cur
    ensures var m' := WithSlot(m, p, j, Redirect); MemInv(m') && Evolves(m, m') && Log(m') == Log(m) && Claimed(m') == Claimed(m)
  {
    assert p < m.cur ==> Retired(m.gens[p]);
    var m' := WithSlot(m, p, j, Redirect);
    assert GenLater(m.gens[p], m'.gens[p]) && GenOk(m'.gens[p]) by { assert GenOk(m.gens[p]); }
    assert m'.gens[p + 1] == m.gens[p + 1];
    assert CurrentOk(m');
    assert PendingOk(m');
    RetireKeepsValues(m, j);
    LogSame(m, m');
    ChangeKeeps(m, p, m'.gens[p]);
  }

  lemma RetireKeepsValues(m: Memory, j: nat)
    requires MemInv(m) && SlotAt(m, m.cur, j).Filled? && HasPending(m) && SlotAt(m, m.cur + 1, j).Filled?
    ensures forall i: nat :: ValueAt(WithSlot(m, m.cur, j, Redirect), i) == ValueAt(m, i)
  {
    var m' := WithSlot(m, m.cur, j, Redirect);
    assert m'.gens[m.cur + 1] == m.gens[m.cur + 1];
    assert m.gens[m.cur + 1].slots[j] == m.gens[m.cur].slots[j];
  }

  /** Publishing in the current generation appends the claimed value to the log. */
  lemma PublishKeeps(m: Memory, d: nat)
    requires MemInv(m) && d < |m.gens| && Count(m, d) < Size(m, d) && SlotAt(m, d, Count(m, d)) != Empty
    ensures var m' := WithCount(m, d, Count(m, d) + 1);
            && MemInv(m') && Evolves(m, m')
            && (if d == m.cur then |Claimed(m)| == 1 && Log(m') == Log(m) + Claimed(m) && Claimed(m') == []
                else Log(m') == Log(m) && Claimed(m') == Claimed(m))
  {
    assert d < m.cur ==> Retired(m.gens[d]);
    CountUp(m.gens[d]);
    if d == m.cur {
      PublishAppends(m);
    } else {
      PublishPending(m);
    }
    ChangeKeeps(m, d, m.gens[d].(n := m.gens[d].n + 1));
  }

  lemma CountUp(g: Generation)
    requires GenOk(g) && g.n < |g.slots| && g.slots[g.n] != Empty
    ensures GenOk(g.(n := g.n + 1)) && GenLater(g, g.(n := g.n + 1))
  {
  }

  lemma PublishPending(m: Memory)
    requires MemInv(m) && HasPending(m)
    ensures var m' := WithCount(m, m.cur + 1, Count(m, m.cur + 1) + 1);
            && CurrentOk(m') && PendingOk(m') && Log(m') == Log(m) && Claimed(m') == Claimed(m) && Prefix(Log(m), Log(m')) && Prefix(Placed(m), Placed(m'))
  {
    var m' := WithCount(m, m.cur + 1, Count(m, m.cur + 1) + 1);
    assert forall g, i: nat :: SlotAt(m', g, i) == SlotAt(m, g, i);
    LogSame(m, m');
  }

  lemma PublishAppends(m: Memory)
    requires MemInv(m) && Count(m, m.cur) < Size(m, m.cur) && SlotAt(m, m.cur, Count(m, m.cur)) != Empty
    ensures var m' := WithCount(m, m.cur, Count(m, m.cur) + 1);
            && CurrentOk(m') && PendingOk(m') && |Claimed(m)| == 1
            && Log(m') == Log(m) + Claimed(m) && Claimed(m') == [] && Prefix(Log(m), Log(m')) && Prefix(Placed(m), Placed(m'))
  {
    var m', k := WithCount(m, m.cur, Count(m, m.cur) + 1), Count(m, m.cur);
    assert !HasPending(m) && SlotAt(m, m.cur, k).Filled?;
    assert forall i: nat :: ValueAt(m', i) == ValueAt(m, i);
    assert Claimed(m) == [ValueAt(m, k)];
    assert Log(m') == Log(m) + [ValueAt(m, k)];
    assert Placed(m') == Placed(m);
  }

  /** A successor for a full generation. */
  lemma AllocKeeps(m: Memory)
    requires MemInv(m) && !HasPending(m) && m.gens[m.cur].n == |m.gens[m.cur].slots|
    ensures var m' := m.(gens := m.gens + [Fresh(AllocSize(2 * Size(m, m.cur)))]);
            MemInv(m') && Evolves(m, m') && Log(m') == Log(m) && Claimed(m') == Claimed(m)
  {
    AppendKeeps(m, Fresh(AllocSize(2 * Size(m, m.cur))));
  }

  lemma AppendKeeps(m: Memory, d: Generation)
    requires MemInv(m) && !HasPending(m) && m.gens[m.cur].n == |m.gens[m.cur].slots|
    requires d.n == 0 && |d.slots| >= 8 && |d.slots| >= 2 * Size(m, m.cur) && forall i :: 0 <= i < |d.slots| ==> d.slots[i] == Empty
    ensures var m' := m.(gens := m.gens + [d]); MemInv(m') && Evolves(m, m') && Log(m') == Log(m) && Claimed(m') == Claimed(m)
  {
    var m' := m.(gens := m.gens + [d]);
    assert forall g :: 0 <= g < |m.gens| ==> m'.gens[g] == m.gens[g];
    assert GenOk(m.gens[m.cur]);
    forall g: nat ensures SizeOk(m', g) {
      assert SizeOk(m, g);
    }
    LogSame(m, m');
  }

  /** The swap: the successor has the same published values, no more and no fewer. */
  lemma SwapKeeps(m: Memory)
    requires MemInv(m) && HasPending(m) && Retired(m.gens[m.cur]) && Count(m, m.cur + 1) >= Size(m, m.cur)
    ensures var m' := m.(cur := m.cur + 1); MemInv(m') && Evolves(m, m') && Log(m') == Log(m) && Claimed(m') == Claimed(m) == []
  {
    var m' := m.(cur := m.cur + 1);
    SizesStay(m, m');
    var c, d := m.gens[m.cur], m.gens[m.cur + 1];
    assert GenOk(d);
    assert d.n > 0 ==> d.slots[d.n - 1].Filled?;
    assert d.n == |c.slots|;
    assert forall i :: |c.slots| <= i < |d.slots| ==> d.slots[i] == Empty;
    assert forall i :: 0 <= i < |Log(m)| ==> ValueAt(m', i) == ValueAt(m, i);
  }
}
