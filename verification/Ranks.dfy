/**
 Ranks for calls that run alone: what may still be replaced, then where the call is, from
 the coarse to the fine.
 */
module Ranks {

  /**
   `need` bounds how often the call may still start over; `phase` orders migrating, reading
   the current storage, trying, and what is left after that; `slot` is what is left to copy, `stage` where in the
   treatment of a slot or of an attempt the call is, and `probe` what is left of that.
   */
  datatype Rank = Rank(need: nat, phase: nat, slot: nat, stage: nat, probe: nat)

  predicate Lower(a: Rank, b: Rank) {
    || a.need < b.need
    || (a.need == b.need && a.phase < b.phase)
    || (a.need == b.need && a.phase == b.phase && a.slot < b.slot)
    || (a.need == b.need && a.phase == b.phase && a.slot == b.slot && a.stage < b.stage)
    || (a.need == b.need && a.phase == b.phase && a.slot == b.slot && a.stage == b.stage && a.probe < b.probe)
  }

  /** How full a storage is: 0 with less than half of its slots taken, 1 with a slot left, 2 if it is full. */
  function Level(taken: nat, size: nat): nat {
    if 2 * taken < size then 0 else if taken < size then 1 else 2
  }

  /** In a storage of twice the size the same is a level less. */
  lemma DoublingHelps(taken: nat, size: nat, larger: nat)
    requires taken <= size && 0 < size && 2 * size <= larger
    ensures Level(taken, larger) == 0 || Level(taken, larger) < Level(taken, size)
  {
  }

  lemma LessIsLower(taken: nat, taken': nat, size: nat, larger: nat)
    requires taken <= taken' && size <= larger
    ensures Level(taken, larger) <= Level(taken', size)
  {
  }

  const MIGRATES: nat := 3
  const READS: nat := 2
  const TRIES: nat := 1
  const ENDS: nat := 0

  function Minus(a: nat, b: nat): nat {
    if b < a then a - b else 0
  }

  /** One step of thread `t`, and then `n` more. */
  lemma StepsOf(sched: seq<nat>, t: nat, n: nat)
    ensures sched + seq(n + 1, _ => t) == sched + [t] + seq(n, _ => t)
  {
  }
}
