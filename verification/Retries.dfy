/**
 The retry chain that the containers share. A call reads which storage is current, works
 on that storage, and starts over if it has to help with a migration. If it only ever
 starts over after its storage has been left, every attempt is on a newer storage.
 */
module Retries {

  /** What a thread is at: nothing, about to read the current storage, or work on storage `g`. */
  datatype Phase = Out | Reading | Working(g: nat)

  /** One step of a run, as a thread sees it that is at `a` before and at `b` after. */
  predicate Goes(cur: nat, a: Phase, cur': nat, b: Phase) {
    && cur <= cur'
    && (a.Reading? && b.Working? ==> b.g == cur)
    && (a.Working? && b.Working? ==> b.g == a.g)
    && (a.Working? && b.Reading? ==> cur' > a.g)
  }

  /** The states b to k of one call. */
  ghost predicate IsAttempts(curs: seq<nat>, phases: seq<Phase>, b: nat, k: nat) {
    && b <= k < |curs| == |phases|
    && (forall i: nat :: b <= i <= k ==> InCallAt(phases, i))
    && (forall i: nat :: b <= i < k ==> GoesAt(curs, phases, i))
  }

  predicate InCallAt(phases: seq<Phase>, i: nat) {
    i < |phases| && !phases[i].Out?
  }

  predicate GoesAt(curs: seq<nat>, phases: seq<Phase>, i: nat) {
    i + 1 < |curs| && i + 1 < |phases| && Goes(curs[i], phases[i], curs[i + 1], phases[i + 1])
  }

  /** The step from state `i` reads the current storage. */
  predicate ReadsCurrentAt(phases: seq<Phase>, i: nat) {
    i + 1 < |phases| && phases[i].Reading? && phases[i + 1].Working?
  }

  ghost function ReadsOf(phases: seq<Phase>, b: nat, k: nat): nat
    requires b <= k
    decreases k
  {
    if k == b then 0 else ReadsOf(phases, b, k - 1) + if ReadsCurrentAt(phases, k - 1) then 1 else 0
  }

  /** After a read of storage `curs[i]` the call works on that one or a later one, and reads a later one. */
  lemma {:induction false} AfterRead(curs: seq<nat>, phases: seq<Phase>, i: nat, k: nat)
    requires IsAttempts(curs, phases, i, k) && i < k && ReadsCurrentAt(phases, i)
    ensures phases[k].Working? ==> phases[k].g >= curs[i]
    ensures phases[k].Reading? ==> curs[k] > curs[i]
    decreases k
  {
    assert GoesAt(curs, phases, k - 1) && InCallAt(phases, k) && InCallAt(phases, k - 1);
    if i < k - 1 {
      AfterRead(curs, phases, i, k - 1);
    }
  }

  /** Every retry reads a strictly newer storage. */
  lemma RetryIsNewer(curs: seq<nat>, phases: seq<Phase>, i: nat, k: nat)
    requires IsAttempts(curs, phases, i, k) && i < k && ReadsCurrentAt(phases, i) && phases[k].Reading?
    ensures curs[k] > curs[i]
  {
    AfterRead(curs, phases, i, k);
  }

  lemma {:induction false} ReadsAreBounded(curs: seq<nat>, phases: seq<Phase>, b: nat, k: nat)
    requires IsAttempts(curs, phases, b, k) && phases[b].Reading?
    ensures curs[b] <= curs[k]
    ensures phases[k].Reading? ==> ReadsOf(phases, b, k) <= curs[k] - curs[b]
    ensures phases[k].Working? ==> curs[b] <= phases[k].g && ReadsOf(phases, b, k) <= phases[k].g - curs[b] + 1
    decreases k
  {
    if b < k {
      assert GoesAt(curs, phases, k - 1) && InCallAt(phases, k) && InCallAt(phases, k - 1);
      ReadsAreBounded(curs, phases, b, k - 1);
    }
  }
}
