/** Failure-carrying wrappers and the error taxonomy shared by every layer of the ledger.

    The services signal business-rule violations by throwing a terminal
    (non-retriable) exception; here each such exception is an `Err` carrying the
    kind of violation.  The one non-terminal failure of the core (the drain
    remainder check) is kept apart so that the saga can tell the two apart.
 */
module Common {

  type AccountId = string
  type HoldId = string
  type TransactionId = string

  /** Why an operation failed. */
  datatype ErrorKind =
    | CurrencyMismatch
    | InsufficientBalance
    | NonPositiveAmount
    | OptionsAlreadyExist
    | OptionsNotPresent
    | BalancesAlreadyPresent
    | BalancesNotPresent
    | HoldAlreadyPresent
    | HoldNotPresent
    | HoldTypeMismatch
    | CannotHold
    | FlushInSharedContext
    | BatchStateNotFound
    | DrainRemainderNotZero  // an internal-consistency violation, not a business error

  /** Only terminal errors make a saga compensate. */
  predicate IsTerminal(e: ErrorKind) {
    !e.DrainRemainderNotZero?
  }

  datatype Option<+T> = None | Some(value: T)

  datatype Result<+T> = Ok(value: T) | Err(error: ErrorKind) {
    predicate IsFailure() {
      Err?
    }

    function PropagateFailure<U>(): Result<U>
      requires Err?
    {
      Err(error)
    }

    function Extract(): T
      requires Ok?
    {
      value
    }
  }

  /** The outcome of a check that yields no value. */
  datatype Outcome = Pass | Fail(error: ErrorKind) {
    predicate IsFailure() {
      Fail?
    }

    function PropagateFailure<U>(): Result<U>
      requires Fail?
    {
      Err(error)
    }
  }

  /** The two kinds of handler context of the durable runtime: an exclusive
      handler may write the object's state, a shared handler may only read it. */
  datatype Context = Exclusive | Shared

  /** Closing a state object: a pending change may be written only from an exclusive
      context; from a shared one the close fails. */
  function GuardedWrite<T>(flushNeeded: bool, ctx: Context, written: T): (r: Result<T>)
    ensures r.Err? <==> flushNeeded && ctx.Shared?
    ensures r.Err? ==> r.error == FlushInSharedContext
    ensures r.Ok? ==> r.value == written
  {
    if flushNeeded && ctx.Shared? then Err(FlushInSharedContext) else Ok(written)
  }

  /** The value stored under `k`, or `absent` when nothing is. */
  function Lookup<K, V>(m: map<K, V>, k: K, absent: V): V {
    if k in m then m[k] else absent
  }

  /** Stores `v` under `k`, where an unstored key reads as `absent`: every other key reads as
      before, and storing what `k` already reads as leaves the map as it is. */
  function Store<K(!new), V(==)>(m: map<K, V>, k: K, v: V, absent: V): (r: map<K, V>)
    ensures Lookup(r, k, absent) == v
    ensures forall other | other != k :: Lookup(r, other, absent) == Lookup(m, other, absent)
    ensures v == Lookup(m, k, absent) ==> r == m
  {
    if v == Lookup(m, k, absent) then m else m[k := v]
  }

  /** The sequence read back to front. */
  function Reverse<T>(s: seq<T>): (r: seq<T>)
    ensures |r| == |s|
    ensures forall i :: 0 <= i < |s| ==> r[i] == s[|s| - 1 - i]
  {
    if s == [] then [] else Reverse(s[1..]) + [s[0]]
  }
}
