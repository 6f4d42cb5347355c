/** Per-hold records of the service generation: each hold has an id, a type and a balance.

    Stored holds are a map from hold id to record.  A hold view is loaded or
    created unmarked, mutators mark it, and the flush deletes the record when its
    balance is zero and stores it otherwise.
 */
module HoldBalances {
  import opened Common
  import opened Monetary
  import opened BalanceChecks

  /** Who placed the hold: a user, or a transfer's transaction. */
  datatype HoldType = User | Transaction

  datatype HoldDetails = HoldDetails(holdId: HoldId, holdType: HoldType)

  datatype HoldState = HoldState(details: HoldDetails, balance: Money)

  type HoldStore = map<HoldId, HoldState>

  datatype HoldView = HoldView(holdId: HoldId, state: HoldState, flushNeeded: bool)

  datatype HoldSummary = HoldSummary(holdId: HoldId, holdType: HoldType, balance: Money)

  predicate Exists(store: HoldStore, id: HoldId) {
    id in store
  }

  /** Fails when the id is taken; otherwise a zero-balance hold with the given id and
      type, not marked for flushing. */
  function Create(store: HoldStore, id: HoldId, t: HoldType, c: Currency): (r: Result<HoldView>)
    ensures r.Ok? <==> !Exists(store, id)
    ensures r.Err? ==> r.error == HoldAlreadyPresent
    ensures r.Ok? ==> r.value.holdId == id && r.value.state.details == HoldDetails(id, t)
    ensures r.Ok? ==> r.value.state.balance == Zero(c) && !r.value.flushNeeded
  {
    if Exists(store, id) then Err(HoldAlreadyPresent)
    else Ok(HoldView(id, HoldState(HoldDetails(id, t), Zero(c)), false))
  }

  /** Fails when no hold is stored under the id. */
  function GetExisting(store: HoldStore, id: HoldId): (r: Result<HoldView>)
    ensures r.Ok? <==> Exists(store, id)
    ensures r.Err? ==> r.error == HoldNotPresent
    ensures r.Ok? ==> r.value == HoldView(id, store[id], false)
  {
    if id in store then Ok(HoldView(id, store[id], false)) else Err(HoldNotPresent)
  }

  /** Never fails: the stored hold (whatever its type) or a fresh one. */
  function GetExistingOrCreate(store: HoldStore, id: HoldId, t: HoldType, c: Currency): (r: Result<HoldView>)
    ensures r.Ok?
    ensures r.value.holdId == id && !r.value.flushNeeded
    ensures Exists(store, id) ==> r.value.state == store[id]
    ensures !Exists(store, id) ==> r.value.state == HoldState(HoldDetails(id, t), Zero(c))
  {
    if Exists(store, id) then GetExisting(store, id) else Create(store, id, t, c)
  }

  function AddAvailable(v: HoldView, amount: Money): (r: Result<HoldView>)
    ensures r.Ok? <==> v.state.balance.currency == amount.currency
    ensures r.Ok? ==> r.value.flushNeeded && r.value.holdId == v.holdId
    ensures r.Ok? ==> r.value.state.details == v.state.details
    ensures r.Ok? ==> r.value.state.balance == Money(amount.currency, v.state.balance.amount + amount.amount)
  {
    var balance :- Add(v.state.balance, amount);
    Ok(HoldView(v.holdId, HoldState(v.state.details, balance), true))
  }

  function SubtractAvailable(v: HoldView, amount: Money): (r: Result<HoldView>)
    ensures r.Ok? <==> v.state.balance.currency == amount.currency && v.state.balance.amount >= amount.amount
    ensures r.Err? && v.state.balance.currency == amount.currency ==> r.error == InsufficientBalance
    ensures r.Ok? ==> r.value.flushNeeded && r.value.holdId == v.holdId
    ensures r.Ok? ==> r.value.state.details == v.state.details
    ensures r.Ok? ==> r.value.state.balance == Money(amount.currency, v.state.balance.amount - amount.amount)
  {
    match CheckEnoughBalance(v.state.balance, amount)
    case Fail(e) => Err(e)
    case Pass =>
      var balance := Subtract(v.state.balance, amount).value;
      Ok(HoldView(v.holdId, HoldState(v.state.details, balance), true))
  }

  /** Fails exactly when the hold has a different type. */
  function EnsureHoldType(v: HoldView, t: HoldType): (r: Outcome)
    ensures r.Pass? <==> v.state.details.holdType == t
    ensures r.Fail? ==> r.error == HoldTypeMismatch
  {
    if v.state.details.holdType == t then Pass else Fail(HoldTypeMismatch)
  }

  /** The lookup by id followed by the type check. */
  function GetExistingOfType(store: HoldStore, id: HoldId, t: HoldType): (r: Result<HoldView>)
    ensures r.Ok? <==> Exists(store, id) && store[id].details.holdType == t
    ensures !Exists(store, id) ==> r == Err(HoldNotPresent)
    ensures Exists(store, id) && r.Err? ==> r.error == HoldTypeMismatch
    ensures r.Ok? ==> r.value == HoldView(id, store[id], false)
  {
    var v :- GetExisting(store, id);
    match EnsureHoldType(v, t)
    case Fail(e) => Err(e)
    case Pass =>
      Ok(v)
  }

  function Summary(v: HoldView): (r: HoldSummary)
    ensures r.holdId == v.holdId && r.holdType == v.state.details.holdType && r.balance == v.state.balance
  {
    HoldSummary(v.holdId, v.state.details.holdType, v.state.balance)
  }

  /** What an exclusive-context flush leaves in storage. */
  function Written(v: HoldView, store: HoldStore): (r: HoldStore)
    ensures !v.flushNeeded ==> r == store
    ensures v.flushNeeded && IsZero(v.state.balance) ==> r == store - {v.holdId}
    ensures IsZero(v.state.balance) && v.holdId !in store ==> r == store
    ensures v.flushNeeded && !IsZero(v.state.balance) ==> r == store[v.holdId := v.state]
  {
    if !v.flushNeeded then store
    else if IsZero(v.state.balance) then store - {v.holdId}
    else store[v.holdId := v.state]
  }

  function Flush(v: HoldView, ctx: Context, store: HoldStore): (r: Result<HoldStore>)
    ensures r.Err? <==> v.flushNeeded && ctx.Shared?
    ensures r.Err? ==> r.error == FlushInSharedContext
    ensures r.Ok? ==> r.value == Written(v, store)
  {
    GuardedWrite(v.flushNeeded, ctx, Written(v, store))
  }

  // ---- Properties ----

  predicate NoZeroHolds(store: HoldStore) {
    forall id | id in store :: !IsZero(store[id].balance)
  }

  /** A flush touches only its own hold's record. */
  lemma WrittenTouchesOnlyItsHold(v: HoldView, store: HoldStore, id: HoldId)
    requires id != v.holdId
    ensures id in Written(v, store) <==> id in store
    ensures id in store ==> Written(v, store)[id] == store[id]
  {
  }

  /** No flush ever persists a zero-balance hold. */
  lemma FlushKeepsNoZeroHolds(v: HoldView, store: HoldStore)
    requires NoZeroHolds(store)
    ensures NoZeroHolds(Written(v, store))
  {
  }

  /** A hold that is created or loaded and never mutated writes nothing. */
  lemma UnmutatedHoldWritesNothing(store: HoldStore, id: HoldId, t: HoldType, c: Currency, ctx: Context)
    ensures Flush(GetExistingOrCreate(store, id, t, c).value, ctx, store) == Ok(store)
  {
  }

  /** Crediting then debiting the same amount gives back the loaded hold. */
  lemma AddThenSubtract(v: HoldView, amount: Money)
    requires v.state.balance.amount >= 0 && AddAvailable(v, amount).Ok?
    ensures SubtractAvailable(AddAvailable(v, amount).value, amount).Ok?
    ensures SubtractAvailable(AddAvailable(v, amount).value, amount).value.state == v.state
  {
  }
}
