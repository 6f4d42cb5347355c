/** Per-hold records of the oldest generation: a hold is just a balance under an id.

    Unlike the later record, a freshly created hold is already marked for
    flushing.
 */
module LegacyHoldBalances {
  import opened Common
  import opened Monetary
  import opened BalanceChecks

  type LegacyHoldStore = map<HoldId, Money>

  datatype LegacyHoldView = LegacyHoldView(holdId: HoldId, balance: Money, flushNeeded: bool)

  predicate Exists(store: LegacyHoldStore, id: HoldId) {
    id in store
  }

  /** Fails when the id is taken; otherwise a zero hold already marked for flushing. */
  function Create(store: LegacyHoldStore, id: HoldId, c: Currency): (r: Result<LegacyHoldView>)
    ensures r.Ok? <==> !Exists(store, id)
    ensures r.Err? ==> r.error == HoldAlreadyPresent
    ensures r.Ok? ==> r.value == LegacyHoldView(id, Zero(c), true)
  {
    if Exists(store, id) then Err(HoldAlreadyPresent) else Ok(LegacyHoldView(id, Zero(c), true))
  }

  function GetExisting(store: LegacyHoldStore, id: HoldId): (r: Result<LegacyHoldView>)
    ensures r.Ok? <==> Exists(store, id)
    ensures r.Err? ==> r.error == HoldNotPresent
    ensures r.Ok? ==> r.value == LegacyHoldView(id, store[id], false)
  {
    if id in store then Ok(LegacyHoldView(id, store[id], false)) else Err(HoldNotPresent)
  }

  function AddAvailable(v: LegacyHoldView, amount: Money): (r: Result<LegacyHoldView>)
    ensures r.Ok? <==> v.balance.currency == amount.currency
    ensures r.Ok? ==> r.value == LegacyHoldView(v.holdId, Money(amount.currency, v.balance.amount + amount.amount), true)
  {
    var balance :- Add(v.balance, amount);
    Ok(LegacyHoldView(v.holdId, balance, true))
  }

  function SubtractAvailable(v: LegacyHoldView, amount: Money): (r: Result<LegacyHoldView>)
    ensures r.Ok? <==> v.balance.currency == amount.currency && v.balance.amount >= amount.amount
    ensures r.Err? && v.balance.currency == amount.currency ==> r.error == InsufficientBalance
    ensures r.Ok? ==> r.value == LegacyHoldView(v.holdId, Money(amount.currency, v.balance.amount - amount.amount), true)
  {
    match CheckEnoughBalance(v.balance, amount)
    case Fail(e) => Err(e)
    case Pass =>
      var balance := Subtract(v.balance, amount).value;
      Ok(LegacyHoldView(v.holdId, balance, true))
  }

  /** What an exclusive-context flush leaves in storage: delete at zero, store otherwise. */
  function Written(v: LegacyHoldView, store: LegacyHoldStore): (r: LegacyHoldStore)
    ensures !v.flushNeeded ==> r == store
    ensures v.flushNeeded && IsZero(v.balance) ==> r == store - {v.holdId}
    ensures v.flushNeeded && !IsZero(v.balance) ==> r == store[v.holdId := v.balance]
    ensures IsZero(v.balance) && v.holdId !in store ==> r == store
  {
    if !v.flushNeeded then store
    else if IsZero(v.balance) then store - {v.holdId}
    else store[v.holdId := v.balance]
  }

  function Flush(v: LegacyHoldView, ctx: Context, store: LegacyHoldStore): (r: Result<LegacyHoldStore>)
    ensures r.Err? <==> v.flushNeeded && ctx.Shared?
    ensures r.Err? ==> r.error == FlushInSharedContext
    ensures r.Ok? ==> r.value == Written(v, store)
  {
    GuardedWrite(v.flushNeeded, ctx, Written(v, store))
  }

  /** A flush touches only its own hold's record. */
  lemma WrittenTouchesOnlyItsHold(v: LegacyHoldView, store: LegacyHoldStore, id: HoldId)
    requires id != v.holdId
    ensures id in Written(v, store) <==> id in store
    ensures id in store ==> Written(v, store)[id] == store[id]
  {
  }

  /** Creating a hold and closing it untouched clears a key that was absent: storage is unchanged. */
  lemma CreateThenCloseWritesNothing(store: LegacyHoldStore, id: HoldId, c: Currency)
    requires !Exists(store, id)
    ensures Written(Create(store, id, c).value, store) == store
  {
  }
}
