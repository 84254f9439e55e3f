/**
 Counting arguments that the containers share.
 */
module Counting {

  lemma SubsetSize<T>(a: set<T>, b: set<T>)
    requires a <= b
    ensures |a| <= |b|
    ensures |a| == |b| ==> a == b
  {
    assert b == a + (b - a);
    assert |b| == |a| + |b - a|;
  }

  ghost function Elements(s: seq<nat>): set<nat> {
    set k | 0 <= k < |s| :: s[k]
  }

  lemma {:induction false} FewElements(s: seq<nat>)
    ensures |Elements(s)| <= |s|
    ensures (forall k, l :: 0 <= k < l < |s| ==> s[k] != s[l]) ==> |Elements(s)| == |s|
  {
    if s != [] {
      var front, last := s[..|s| - 1], s[|s| - 1];
      FewElements(front);
      assert Elements(s) == Elements(front) + {last};
    }
  }

  /** Different elements that all come from `c` are not more than `c` has. */
  lemma Pigeonhole(s: seq<nat>, c: seq<nat>)
    requires forall k, l :: 0 <= k < l < |s| ==> s[k] != s[l]
    requires forall k :: 0 <= k < |s| ==> s[k] in c
    ensures |s| <= |c|
  {
    FewElements(s);
    FewElements(c);
    SubsetSize(Elements(s), Elements(c));
  }

  /** The numbers below `n`. */
  ghost function Below(n: nat): (ks: set<nat>)
    ensures forall k: nat :: k in ks <==> k < n
    ensures |ks| == n
  {
    if n == 0 then {} else Below(n - 1) + {n - 1}
  }

  /** Different keys with different values: as many values as keys. */
  lemma {:induction false} ValuesSize(m: map<nat, nat>)
    requires forall k, l :: k in m && l in m && m[k] == m[l] ==> k == l
    ensures |m.Values| == |m.Keys|
  {
    if m.Keys != {} {
      var k :| k in m.Keys;
      ValuesSize(m - {k});
      assert m.Keys == (m - {k}).Keys + {k};
      assert m.Values == (m - {k}).Values + {m[k]};
    }
  }

  // -------------------------------------------------------- places in a sequence

  function One(b: bool): nat {
    if b then 1 else 0
  }

  /** Where `x` is in `s`. */
  ghost function Where<T>(s: seq<T>, x: T): set<nat> {
    set k: nat | k < |s| && s[k] == x
  }

  lemma WhereOthers<T>(s: seq<T>, k: nat, y: T, x: T)
    requires k < |s|
    ensures Where(s[k := y], x) - {k} == Where(s, x) - {k}
  {
    forall l: nat ensures l in Where(s[k := y], x) - {k} <==> l in Where(s, x) - {k} {
      assert l != k && l < |s| ==> s[k := y][l] == s[l];
    }
  }

  lemma WhereWithout<T>(s: seq<T>, k: nat, x: T)
    requires k < |s|
    ensures |Where(s, x)| == |Where(s, x) - {k}| + One(s[k] == x)
  {
    if s[k] != x { assert Where(s, x) - {k} == Where(s, x); }
  }

  /** A change at one place changes the number of places by one. */
  lemma WhereMoves<T>(s: seq<T>, k: nat, y: T, x: T)
    requires k < |s|
    ensures |Where(s[k := y], x)| == |Where(s, x)| - One(s[k] == x) + One(y == x)
  {
    WhereOthers(s, k, y, x);
    WhereWithout(s, k, x);
    WhereWithout(s[k := y], k, x);
  }
}
