/**
 What the maps of mulle-concurrent are for, without concurrency: the operations and
 what they do to a map that is changed atomically.
 */
module MapSpec {
  import opened Options

  type Value = nat

  /** The hash word: hash 0 is NO_HASH, `frozen` is the FROZEN bit. */
  datatype HashWord = HashWord(hash: nat, frozen: bool)

  datatype Payload = Empty | Tomb | Live(value: Value)

  /** The value word: what it carries, and the SEALED bit. */
  datatype ValueWord = ValueWord(payload: Payload, sealed: bool)

  // ----------------------------------------------------------- operations

  datatype Op =
    | Lookup(key: HashWord)
    | Insert(key: HashWord, val: ValueWord)
    | Register(key: HashWord, val: ValueWord)
    | Remove(key: HashWord, val: ValueWord)
    | MigrateSameSize

  datatype Result =
    | Found(value: Option<Value>)     // lookup
    | Ok                              // 0
    | Exists                          // EEXIST
    | NoEntry                         // ENOENT
    | Registered(prior: Option<Value>)  // register's 0 with *p_old
    | Invalid                         // EINVAL

  predicate Legal(op: Op) {
    && (!op.MigrateSameSize? ==> op.key.hash != 0 && !op.key.frozen)
    && (op.Insert? || op.Register? || op.Remove? ==> op.val.payload.Live? && !op.val.sealed)
  }

  /** What an operation with an illegal hash or value answers, without touching the map. */
  function Refusal(op: Op): Result {
    if op.Lookup? then Found(None) else Invalid
  }

  function Hash(op: Op): nat {
    if op.MigrateSameSize? then 0 else op.key.hash
  }

  function Val(op: Op): Payload {
    if op.Lookup? || op.MigrateSameSize? then Empty else op.val.payload
  }

  // ------------------------------------------------------ the atomic map

  function Get(a: map<nat, Value>, h: nat): Option<Value> {
    if h in a then Some(a[h]) else None
  }

  /** What an operation does to, and answers from, a map that is changed atomically. */
  function Atomic(op: Op, a: map<nat, Value>): (map<nat, Value>, Result) {
    if !Legal(op) then (a, Refusal(op))
    else match op
      case Lookup(key) => (a, Found(Get(a, key.hash)))
      case Insert(key, val) =>
        if key.hash in a then (a, Exists) else (a[key.hash := val.payload.value], Ok)
      case Register(key, val) =>
        if key.hash in a then (a, Registered(Some(a[key.hash])))
        else (a[key.hash := val.payload.value], Registered(None))
      case Remove(key, val) =>
        if Get(a, key.hash) == Some(val.payload.value) then (a - {key.hash}, Ok) else (a, NoEntry)
      case MigrateSameSize => (a, Ok)
  }

  /** What may change a map, and how: an insert or register of a hash that is free, or a remove of a pair that is there. */
  predicate Changed(op: Op, a: map<nat, Value>, z: map<nat, Value>, r: Result) {
    || (op.Insert? && r == Ok && op.val.payload.Live? && op.key.hash !in a && z == a[op.key.hash := op.val.payload.value])
    || (op.Register? && r == Registered(None) && op.val.payload.Live? && op.key.hash !in a
        && z == a[op.key.hash := op.val.payload.value])
    || (op.Remove? && r == Ok && op.val.payload.Live? && op.key.hash in a && a[op.key.hash] == op.val.payload.value
        && z == a - {op.key.hash})
  }

  lemma AtomicChanges(op: Op, a: map<nat, Value>, z: map<nat, Value>, r: Result)
    requires Atomic(op, a) == (z, r) && z != a
    ensures Changed(op, a, z, r)
  {
  }
}
