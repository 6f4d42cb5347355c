/** The batcher of the ledger module (ledger/src/main/java/com/lekha/utils/Batcher.java):
    items appended to a per-name batch kept in the state of a virtual object, and a
    batch execution that hands the items to a consumer and clears the batch.

    The object's state is a map from state key to batch state.  The scheduler is
    abstract: a request it receives is recorded as a `Scheduled` value, and the
    invocation id it returns is a parameter.  What the scheduled execution later does
    to the state is up to `ExecuteBatch`, called separately.
 */
module Batchers {
  import opened Common

  datatype State<T> = State(items: seq<T>, expireInvocationId: string)

  type Store<T> = map<string, State<T>>

  /** A request to execute the batch `batchName`, after `delay` milliseconds or, with no
      delay, at once. */
  datatype Scheduled = Scheduled(batchName: string, delay: Option<nat>)

  datatype Appender<T> = Appender(name: string, maxBatchSize: int, state: State<T>)

  datatype Opened<T> = Opened(appender: Appender<T>, scheduled: seq<Scheduled>)

  datatype Added<T> = Added(appender: Appender<T>, store: Store<T>, scheduled: seq<Scheduled>)

  datatype Flushed<T> = Flushed(items: seq<T>, store: Store<T>)

  const KeyPrefix: string := "batcher_"

  /** The state key of the batcher called `name`. */
  function StateKey(name: string): (k: string)
    ensures |k| == |KeyPrefix| + |name| && k[..|KeyPrefix|] == KeyPrefix && k[|KeyPrefix|..] == name
  {
    KeyPrefix + name
  }

  /** Batchers with different names use different keys. */
  lemma StateKeyInjective(a: string, b: string)
    ensures StateKey(a) == StateKey(b) <==> a == b
  {
    if StateKey(a) == StateKey(b) {
      assert a == StateKey(a)[|KeyPrefix|..] == StateKey(b)[|KeyPrefix|..] == b;
    }
  }

  /** Opening an appender: a stored batch is taken over as it is and nothing is scheduled;
      otherwise one execution is scheduled after the maximum wait, and an empty batch is
      started, tagged with the id of that scheduled invocation.  Nothing is written yet. */
  function NewAppender<T>(store: Store<T>, name: string, maxBatchSize: int, maxBatchWait: nat,
                          scheduledInvocationId: string): (r: Opened<T>)
    ensures r.appender.name == name && r.appender.maxBatchSize == maxBatchSize
    ensures StateKey(name) in store ==> r.appender.state == store[StateKey(name)] && r.scheduled == []
    ensures StateKey(name) !in store ==>
      r.appender.state == State([], scheduledInvocationId) && r.scheduled == [Scheduled(name, Some(maxBatchWait))]
  {
    var key := StateKey(name);
    if key in store then Opened(Appender(name, maxBatchSize, store[key]), [])
    else Opened(Appender(name, maxBatchSize, State([], scheduledInvocationId)), [Scheduled(name, Some(maxBatchWait))])
  }

  /** Appends `value` to the batch and stores the batch; once the batch holds at least the
      maximum number of items, an immediate execution is scheduled (and awaited). */
  function AddToBatch<T>(store: Store<T>, a: Appender<T>, value: T): (r: Added<T>)
    ensures r.appender == a.(state := a.state.(items := a.state.items + [value]))
    ensures StateKey(a.name) in r.store && r.store[StateKey(a.name)] == r.appender.state
    ensures forall k | k != StateKey(a.name) :: (k in r.store <==> k in store) && (k in store ==> r.store[k] == store[k])
    ensures r.scheduled == if |a.state.items| + 1 >= a.maxBatchSize then [Scheduled(a.name, None)] else []
  {
    var state := a.state.(items := a.state.items + [value]);
    var scheduled := if |state.items| >= a.maxBatchSize then [Scheduled(a.name, None)] else [];
    Added(a.(state := state), store[StateKey(a.name) := state], scheduled)
  }

  /** Executes the batch `name`: fails when no batch is stored; otherwise hands over the
      stored items and clears the batch. */
  function ExecuteBatch<T>(store: Store<T>, name: string): (r: Result<Flushed<T>>)
    ensures r.Err? <==> StateKey(name) !in store
    ensures r.Err? ==> r.error == BatchStateNotFound
    ensures r.Ok? ==> r.value.items == store[StateKey(name)].items
    ensures r.Ok? ==> StateKey(name) !in r.value.store
    ensures r.Ok? ==> forall k | k != StateKey(name) :: (k in r.value.store <==> k in store) && (k in store ==> r.value.store[k] == store[k])
  {
    var key := StateKey(name);
    if key !in store then Err(BatchStateNotFound)
    else Ok(Flushed(store[key].items, store - {key}))
  }

  /** `values` added one by one through the same appender. */
  function AddAll<T>(store: Store<T>, a: Appender<T>, values: seq<T>): Added<T>
    decreases |values|
  {
    if values == [] then Added(a, store, [])
    else
      var first := AddToBatch(store, a, values[0]);
      var rest := AddAll(first.store, first.appender, values[1..]);
      rest.(scheduled := first.scheduled + rest.scheduled)
  }

  /** After a non-empty series of additions, the batch stored under the appender's key holds
      the items it started with followed by every added value in order, so executing it
      hands exactly those over; the batches of other names are untouched; and every request
      scheduled on the way is an immediate execution of this batch. */
  lemma {:induction false} AddAllThenExecute<T>(store: Store<T>, a: Appender<T>, values: seq<T>)
    requires values != []
    ensures var r := AddAll(store, a, values);
      && ExecuteBatch(r.store, a.name) == Ok(Flushed(a.state.items + values, r.store - {StateKey(a.name)}))
      && (forall k | k != StateKey(a.name) :: (k in r.store <==> k in store) && (k in store ==> r.store[k] == store[k]))
      && (forall s | s in r.scheduled :: s == Scheduled(a.name, None))
      && r.appender.name == a.name
    decreases |values|
  {
    var first := AddToBatch(store, a, values[0]);
    if |values| == 1 {
      assert values == [values[0]];
    } else {
      AddAllThenExecute(first.store, first.appender, values[1..]);
      assert a.state.items + values == first.appender.state.items + values[1..];
    }
  }

  /** A batch execution flushes the batch of one name only: executing `other` afterwards
      fails or hands over items exactly as it would have before. */
  lemma ExecutionsIndependent<T>(store: Store<T>, name: string, other: string)
    requires name != other && ExecuteBatch(store, name).Ok?
    ensures var after := ExecuteBatch(store, name).value.store;
      && (ExecuteBatch(after, other).Ok? <==> ExecuteBatch(store, other).Ok?)
      && (ExecuteBatch(store, other).Ok? ==> ExecuteBatch(after, other).value.items == ExecuteBatch(store, other).value.items)
  {
    StateKeyInjective(name, other);
  }
}
