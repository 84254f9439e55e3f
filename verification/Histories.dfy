/**
 Histories of calls on a shared value, and when such a history is linearizable: for any
 value of type A, operations O and answers R whose sequential meaning is a function. A
 completed call is named by the state in which it ended.
 */
module Histories {
  import opened Options

  /** What an operation does to, and answers from, a value that is changed atomically. */
  type Spec<!A, !O, R> = (O, A) -> (A, R)

  /** A completed call, and the state in which it began. */
  datatype Call<O, R> = Call(op: O, result: R, start: nat)

  /** `calls[c]` is the call that ended with the step to state c, if one did. */
  type History<O, R> = seq<Option<Call<O, R>>>

  /** What the states of a run stand for. */
  ghost function TraceOf<S, A>(run: seq<S>, value: S -> A): (trace: seq<A>)
    ensures |trace| == |run|
    ensures forall i :: 0 <= i < |run| ==> trace[i] == value(run[i])
  {
    seq(|run|, i requires 0 <= i < |run| => value(run[i]))
  }

  /** In state `j` the value would give the call's answer, and stay the same. */
  ghost predicate AnsweredAt<A, O, R>(spec: Spec<A, O, R>, trace: seq<A>, call: Call<O, R>, c: nat, j: nat)
    requires c < |trace|
  {
    call.start <= j <= c && spec(call.op, trace[j]) == (trace[j], call.result)
  }

  /** The step to state `c` performs the call's operation, and changes the value. */
  ghost predicate PerformedAt<A, O, R>(spec: Spec<A, O, R>, trace: seq<A>, call: Call<O, R>, c: nat)
    requires c < |trace|
  {
    call.start < c && spec(call.op, trace[c - 1]) == (trace[c], call.result) && trace[c] != trace[c - 1]
  }

  predicate Ended<O, R>(calls: History<O, R>, c: nat) {
    c < |calls| && calls[c].Some?
  }

  predicate AllEnded<O, R>(calls: History<O, R>, order: seq<nat>) {
    forall x :: 0 <= x < |order| ==> Ended(calls, order[x])
  }

  /** Runs the calls one after the other on a value of their own; None if an answer differs. */
  ghost function Replay<A, O, R>(spec: Spec<A, O, R>, calls: History<O, R>, order: seq<nat>, a: A): Option<A>
    requires AllEnded(calls, order)
  {
    if order == [] then Some(a)
    else
      var call := calls[order[|order| - 1]].value;
      match Replay(spec, calls, order[..|order| - 1], a)
      case None => None
      case Some(b) =>
        var (z, r) := spec(call.op, b);
        if r == call.result then Some(z) else None
  }

  /**
   `order` lists every completed call once; a call that ended before another began
   comes first; and a value that starts as `a` gives the same answers in this
   order and ends up as `z`.
   */
  ghost predicate Linearization<A, O, R>(spec: Spec<A, O, R>, calls: History<O, R>, order: seq<nat>, a: A, z: A) {
    && AllEnded(calls, order)
    && (forall c: nat :: Ended(calls, c) ==> c in order)
    && (forall x, y :: 0 <= x < y < |order| ==> order[x] != order[y])
    && (forall x, y :: 0 <= x < y < |order| ==> calls[order[x]].value.start <= order[y])
    && Replay(spec, calls, order, a) == Some(z)
  }

  // ------------------------------------- from instants to a sequential order

  /** The step to state c changes the value. */
  ghost predicate Changes<A>(trace: seq<A>, c: nat) {
    0 < c < |trace| && trace[c] != trace[c - 1]
  }

  /**
   `j` is an instant of the call that ends in state c: the step that performs it if
   that changes the value, and otherwise a state of the value that gives its answer.
   Nothing but such a call changes the value.
   */
  ghost predicate PlacedAt<A, O, R>(spec: Spec<A, O, R>, trace: seq<A>, calls: History<O, R>, c: nat, j: nat)
    requires c < |trace| == |calls|
  {
    && (Changes(trace, c) ==>
          calls[c].Some? && j == c - 1 && spec(calls[c].value.op, trace[c - 1]) == (trace[c], calls[c].value.result))
    && (calls[c].Some? ==> calls[c].value.start <= j <= c)
    && (calls[c].Some? && !Changes(trace, c) ==>
          spec(calls[c].value.op, trace[j]) == (trace[j], calls[c].value.result))
  }

  ghost predicate Placed<A, O, R>(spec: Spec<A, O, R>, trace: seq<A>, calls: History<O, R>, at: seq<nat>) {
    |trace| == |calls| == |at| && forall c {:trigger PlacedAt(spec, trace, calls, c, at[c])} :: 0 <= c < |at| ==> PlacedAt(spec, trace, calls, c, at[c])
  }

  /** The calls up to `c` that only read the value and do so in state `j`. */
  ghost function ReadersAt<A, O, R>(trace: seq<A>, calls: History<O, R>, at: seq<nat>, j: nat, c: nat): (cs: seq<nat>)
    requires |trace| == |calls| == |at| && c <= |calls|
    ensures forall d: nat :: d in cs <==> d < c && Ended(calls, d) && !Changes(trace, d) && at[d] == j
    ensures forall x, y :: 0 <= x < y < |cs| ==> cs[x] != cs[y]
  {
    if c == 0 then []
    else
      var before := ReadersAt(trace, calls, at, j, c - 1);
      if Ended(calls, c - 1) && !Changes(trace, c - 1) && at[c - 1] == j then before + [c - 1] else before
  }

  /** The calls whose instant is `j`: first those that read state j, then the one that changes it. */
  ghost function CallsAt<A, O, R>(trace: seq<A>, calls: History<O, R>, at: seq<nat>, j: nat): seq<nat>
    requires |trace| == |calls| == |at|
  {
    ReadersAt(trace, calls, at, j, |calls|) + (if Changes(trace, j + 1) then [j + 1] else [])
  }

  lemma CallsAtMeaning<A, O, R>(spec: Spec<A, O, R>, trace: seq<A>, calls: History<O, R>, at: seq<nat>, j: nat)
    requires Placed(spec, trace, calls, at)
    ensures forall d: nat :: d in CallsAt(trace, calls, at, j) <==> Ended(calls, d) && at[d] == j
    ensures forall x, y :: 0 <= x < y < |CallsAt(trace, calls, at, j)| ==>
              CallsAt(trace, calls, at, j)[x] != CallsAt(trace, calls, at, j)[y]
  {
    assert Changes(trace, j + 1) ==> PlacedAt(spec, trace, calls, j + 1, at[j + 1]);
    forall d: nat | Ended(calls, d) && Changes(trace, d) ensures at[d] == d - 1 {
      assert PlacedAt(spec, trace, calls, d, at[d]);
    }
  }

  ghost function CallsBefore<A, O, R>(trace: seq<A>, calls: History<O, R>, at: seq<nat>, n: nat): seq<nat>
    requires |trace| == |calls| == |at|
  {
    if n == 0 then [] else CallsBefore(trace, calls, at, n - 1) + CallsAt(trace, calls, at, n - 1)
  }

  ghost predicate Arranged<O, R>(calls: History<O, R>, at: seq<nat>, cs: seq<nat>, n: nat)
    requires |calls| == |at|
  {
    && (forall d: nat :: d in cs <==> Ended(calls, d) && at[d] < n)
    && (forall x, y :: 0 <= x < y < |cs| ==> cs[x] != cs[y])
    && (forall x :: 0 <= x < |cs| ==> Ended(calls, cs[x]))
    && (forall x, y :: 0 <= x < y < |cs| ==> at[cs[x]] <= at[cs[y]])
  }

  lemma ArrangedConcat<O, R>(calls: History<O, R>, at: seq<nat>, before: seq<nat>, now: seq<nat>, n: nat)
    requires |calls| == |at| && Arranged(calls, at, before, n)
    requires forall d: nat :: d in now <==> Ended(calls, d) && at[d] == n
    requires forall x, y :: 0 <= x < y < |now| ==> now[x] != now[y]
    ensures Arranged(calls, at, before + now, n + 1)
  {
    var cs := before + now;
    forall x | 0 <= x < |cs| ensures Ended(calls, cs[x]) {
      assert x >= |before| ==> cs[x] in now;
    }
    forall x, y | 0 <= x < y < |cs| ensures cs[x] != cs[y] && at[cs[x]] <= at[cs[y]] {
      assert y >= |before| ==> cs[y] in now;
      assert x < |before| ==> cs[x] in before;
      assert x >= |before| ==> cs[x] in now;
    }
  }

  lemma {:induction false} CallsBeforeArranged<A, O, R>(spec: Spec<A, O, R>, trace: seq<A>, calls: History<O, R>, at: seq<nat>, n: nat)
    requires Placed(spec, trace, calls, at)
    ensures Arranged(calls, at, CallsBefore(trace, calls, at, n), n)
  {
    if n > 0 {
      var j := n - 1;
      var before, now := CallsBefore(trace, calls, at, j), CallsAt(trace, calls, at, j);
      CallsBeforeArranged(spec, trace, calls, at, j);
      CallsAtMeaning(spec, trace, calls, at, j);
      ArrangedConcat(calls, at, before, now, j);
      assert CallsBefore(trace, calls, at, n) == before + now;
    }
  }

  lemma ReplayOneMore<A, O, R>(spec: Spec<A, O, R>, calls: History<O, R>, cs: seq<nat>, c: nat, a: A)
    requires AllEnded(calls, cs) && Ended(calls, c)
    ensures AllEnded(calls, cs + [c])
    ensures Replay(spec, calls, cs, a).Some? && spec(calls[c].value.op, Replay(spec, calls, cs, a).value).1 == calls[c].value.result ==>
              Replay(spec, calls, cs + [c], a) == Some(spec(calls[c].value.op, Replay(spec, calls, cs, a).value).0)
  {
    assert (cs + [c])[..|cs + [c]| - 1] == cs;
  }

  lemma {:induction false} ReplayReaders<A, O, R>(spec: Spec<A, O, R>, calls: History<O, R>, before: seq<nat>, rs: seq<nat>, a: A, b: A)
    requires AllEnded(calls, before) && Replay(spec, calls, before, a) == Some(b)
    requires forall d: nat :: d in rs ==> Ended(calls, d) && spec(calls[d].value.op, b) == (b, calls[d].value.result)
    ensures AllEnded(calls, before + rs) && Replay(spec, calls, before + rs, a) == Some(b)
  {
    if rs == [] {
      assert before + rs == before;
    } else {
      var front, last := rs[..|rs| - 1], rs[|rs| - 1];
      ReplayReaders(spec, calls, before, front, a, b);
      ReplayOneMore(spec, calls, before + front, last, a);
      assert before + rs == before + front + [last];
    }
  }

  /** Who only reads the value in state `j` finds its answer there. */
  lemma ReadersAnswer<A, O, R>(spec: Spec<A, O, R>, trace: seq<A>, calls: History<O, R>, at: seq<nat>, j: nat)
    requires Placed(spec, trace, calls, at) && j < |trace|
    ensures forall d: nat :: d in ReadersAt(trace, calls, at, j, |calls|) ==>
              Ended(calls, d) && spec(calls[d].value.op, trace[j]) == (trace[j], calls[d].value.result)
  {
    forall d: nat | d in ReadersAt(trace, calls, at, j, |calls|)
      ensures Ended(calls, d) && spec(calls[d].value.op, trace[j]) == (trace[j], calls[d].value.result)
    {
      assert PlacedAt(spec, trace, calls, d, at[d]);
    }
  }

  lemma ReplayInstant<A, O, R>(spec: Spec<A, O, R>, trace: seq<A>, calls: History<O, R>, at: seq<nat>, before: seq<nat>, j: nat, a: A)
    requires Placed(spec, trace, calls, at) && j + 1 < |trace|
    requires AllEnded(calls, before) && Replay(spec, calls, before, a) == Some(trace[j])
    ensures AllEnded(calls, before + CallsAt(trace, calls, at, j))
    ensures Replay(spec, calls, before + CallsAt(trace, calls, at, j), a) == Some(trace[j + 1])
  {
    var readers := ReadersAt(trace, calls, at, j, |calls|);
    ReadersAnswer(spec, trace, calls, at, j);
    ReplayReaders(spec, calls, before, readers, a, trace[j]);
    assert PlacedAt(spec, trace, calls, j + 1, at[j + 1]);
    if Changes(trace, j + 1) {
      ReplayOneMore(spec, calls, before + readers, j + 1, a);
      assert before + CallsAt(trace, calls, at, j) == before + readers + [j + 1];
    } else {
      assert CallsAt(trace, calls, at, j) == readers;
    }
  }

  lemma {:induction false} ReplayBefore<A, O, R>(spec: Spec<A, O, R>, trace: seq<A>, calls: History<O, R>, at: seq<nat>, n: nat)
    requires Placed(spec, trace, calls, at) && n < |trace|
    ensures AllEnded(calls, CallsBefore(trace, calls, at, n))
    ensures Replay(spec, calls, CallsBefore(trace, calls, at, n), trace[0]) == Some(trace[n])
  {
    if n > 0 {
      var j := n - 1;
      var before := CallsBefore(trace, calls, at, j);
      ReplayBefore(spec, trace, calls, at, j);
      ReplayInstant(spec, trace, calls, at, before, j, trace[0]);
      assert CallsBefore(trace, calls, at, n) == before + CallsAt(trace, calls, at, j);
    }
  }

  /** Ordering by instants respects real time. */
  lemma RealTime<A, O, R>(spec: Spec<A, O, R>, trace: seq<A>, calls: History<O, R>, at: seq<nat>, cs: seq<nat>, n: nat, x: nat, y: nat)
    requires Placed(spec, trace, calls, at) && Arranged(calls, at, cs, n) && x < y < |cs|
    ensures calls[cs[x]].value.start <= cs[y]
  {
    assert PlacedAt(spec, trace, calls, cs[x], at[cs[x]]) && PlacedAt(spec, trace, calls, cs[y], at[cs[y]]);
  }

  /** In the last state there are only readers. */
  lemma CallsBeforeLast<A, O, R>(trace: seq<A>, calls: History<O, R>, at: seq<nat>, n: nat)
    requires |trace| == |calls| == |at| == n + 1
    ensures CallsBefore(trace, calls, at, n + 1) == CallsBefore(trace, calls, at, n) + ReadersAt(trace, calls, at, n, |calls|)
  {
  }

  lemma {:induction false} ReplayAll<A, O, R>(spec: Spec<A, O, R>, trace: seq<A>, calls: History<O, R>, at: seq<nat>)
    requires Placed(spec, trace, calls, at) && |trace| > 0
    ensures AllEnded(calls, CallsBefore(trace, calls, at, |trace|))
    ensures Replay(spec, calls, CallsBefore(trace, calls, at, |trace|), trace[0]) == Some(trace[|trace| - 1])
  {
    var n := |trace| - 1;
    ReplayBefore(spec, trace, calls, at, n);
    var before, readers := CallsBefore(trace, calls, at, n), ReadersAt(trace, calls, at, n, |calls|);
    ReadersAnswer(spec, trace, calls, at, n);
    ReplayReaders(spec, calls, before, readers, trace[0], trace[n]);
    CallsBeforeLast(trace, calls, at, n);
  }

  /** Calls that each have an instant can be put in a sequential order. */
  lemma OrderByInstant<A, O, R>(spec: Spec<A, O, R>, trace: seq<A>, calls: History<O, R>, at: seq<nat>) returns (order: seq<nat>)
    requires Placed(spec, trace, calls, at) && |trace| > 0
    ensures Linearization(spec, calls, order, trace[0], trace[|trace| - 1])
  {
    order := CallsBefore(trace, calls, at, |trace|);
    ReplayAll(spec, trace, calls, at);
    CallsBeforeArranged(spec, trace, calls, at, |trace|);
    forall c: nat | Ended(calls, c) ensures c in order {
      assert PlacedAt(spec, trace, calls, c, at[c]);
    }
    forall x, y | 0 <= x < y < |order| ensures calls[order[x]].value.start <= order[y] {
      RealTime(spec, trace, calls, at, order, |trace|, x, y);
    }
  }

  ghost predicate HasPlace<A, O, R>(spec: Spec<A, O, R>, trace: seq<A>, calls: History<O, R>, c: nat)
    requires c < |trace| == |calls|
  {
    exists j: nat :: PlacedAt(spec, trace, calls, c, j)
  }

  lemma {:induction false} ChoosePlaces<A, O, R>(spec: Spec<A, O, R>, trace: seq<A>, calls: History<O, R>, n: nat) returns (at: seq<nat>)
    requires n <= |trace| == |calls| && forall c: nat :: c < n ==> HasPlace(spec, trace, calls, c)
    ensures |at| == n && forall c {:trigger PlacedAt(spec, trace, calls, c, at[c])} :: 0 <= c < n ==> PlacedAt(spec, trace, calls, c, at[c])
  {
    if n == 0 {
      at := [];
    } else {
      var front := ChoosePlaces(spec, trace, calls, n - 1);
      assert HasPlace(spec, trace, calls, n - 1);
      var j: nat :| PlacedAt(spec, trace, calls, n - 1, j);
      at := front + [j];
    }
  }

  /** A history in which every call has an instant is linearizable. */
  lemma LinearizableByInstants<A, O, R>(spec: Spec<A, O, R>, trace: seq<A>, calls: History<O, R>) returns (order: seq<nat>)
    requires |trace| == |calls| > 0 && forall c: nat :: c < |trace| ==> HasPlace(spec, trace, calls, c)
    ensures Linearization(spec, calls, order, trace[0], trace[|trace| - 1])
  {
    var at := ChoosePlaces(spec, trace, calls, |trace|);
    order := OrderByInstant(spec, trace, calls, at);
  }
}
