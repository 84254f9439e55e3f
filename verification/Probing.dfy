/**
 Masked linear probing. A table size is always a power of two, so `index & mask`
 is the remainder by the size. The machine in HashtableModel probes with `Probe`.
 */
module Probing {

  /** The slot that the `i`-th probe for `hash` looks at in a table of `size` slots. */
  function Probe(hash: nat, i: nat, size: nat): (k: nat)
    requires size > 0
    ensures k < size
  {
    (hash + i) % size
  }

  lemma MultipleBounds(d: int, size: nat)
    ensures d >= 1 ==> d * size >= size
    ensures d <= -1 ==> d * size <= -(size as int)
  {
  }

  /** Dividing with remainder has one answer only. */
  lemma RemainderOf(q: int, k: nat, size: nat)
    requires k < size
    ensures (q * size + k) % size == k
  {
    var x := q * size + k;
    assert (q - x / size) * size == x % size - k;
    MultipleBounds(q - x / size, size);
  }

  /** One round of probing never looks at a slot twice. */
  lemma ProbeInjective(hash: nat, i: nat, j: nat, size: nat)
    requires size > 0
    requires i < j < i + size
    ensures Probe(hash, i, size) != Probe(hash, j, size)
  {
    var qi, qj := (hash + i) / size, (hash + j) / size;
    MultipleBounds(qj - qi, size);
    assert (qj - qi) * size + (Probe(hash, j, size) - Probe(hash, i, size)) == j - i;
  }

  /** One round of probing looks at every slot. */
  lemma ProbeCovers(hash: nat, k: nat, size: nat) returns (i: nat)
    requires k < size
    ensures i < size && Probe(hash, i, size) == k
  {
    var q, r := hash / size, hash % size;
    i := if r <= k then k - r else k + size - r;
    assert hash + i == (if r <= k then q else q + 1) * size + k;
    RemainderOf(if r <= k then q else q + 1, k, size);
  }
}
