/** The account's two balances and the staged view a handler works on.

    A handler loads the stored balances into a view, applies mutators to it and,
    when its try-with-resources block ends (on every exit path), flushes the view.
    A mutator either succeeds, producing a view marked for flushing, or fails
    before assigning anything, so the caller keeps the view it had.
 */
module AccountBalances {
  import opened Common
  import opened Monetary
  import opened BalanceChecks

  datatype Balances = Balances(available: Money, hold: Money)

  /** Both balances zero in the given currency. */
  function Empty(c: Currency): (r: Balances)
    ensures IsZero(r.available) && IsZero(r.hold)
    ensures r.available.currency == c && r.hold.currency == c
  {
    Balances(Zero(c), Zero(c))
  }

  /** The staged copy of the balances held by one handler invocation. */
  datatype BalancesView = BalancesView(state: Balances, flushNeeded: bool)

  /** Fails when balances are already stored; otherwise a zero view marked for flushing. */
  function Create(stored: Option<Balances>, c: Currency): (r: Result<BalancesView>)
    ensures r.Ok? <==> stored.None?
    ensures r.Err? ==> r.error == BalancesAlreadyPresent
    ensures r.Ok? ==> r.value.state == Empty(c) && r.value.flushNeeded
  {
    if stored.Some? then Err(BalancesAlreadyPresent) else Ok(BalancesView(Empty(c), true))
  }

  /** Fails when nothing is stored; otherwise the stored balances, not marked for flushing. */
  function GetExisting(stored: Option<Balances>): (r: Result<BalancesView>)
    ensures r.Ok? <==> stored.Some?
    ensures r.Err? ==> r.error == BalancesNotPresent
    ensures r.Ok? ==> r.value.state == stored.value && !r.value.flushNeeded
  {
    match stored
    case None => Err(BalancesNotPresent)
    case Some(b) => Ok(BalancesView(b, false))
  }

  /** The read-only summary handler shared by both account generations: the stored balances,
      or `BalancesNotPresent` when none are stored. */
  function StoredSummary(stored: Option<Balances>): (r: Result<Balances>)
    ensures r.Ok? <==> stored.Some?
    ensures r.Ok? ==> r.value == stored.value
    ensures r.Err? ==> r.error == BalancesNotPresent
  {
    var v :- GetExisting(stored);
    Ok(v.state)
  }

  function AddAvailable(v: BalancesView, amount: Money): (r: Result<BalancesView>)
    ensures r.Ok? <==> v.state.available.currency == amount.currency
    ensures r.Ok? ==> r.value.flushNeeded && r.value.state.hold == v.state.hold
    ensures r.Ok? ==> r.value.state.available == Money(amount.currency, v.state.available.amount + amount.amount)
  {
    var available :- Add(v.state.available, amount);
    Ok(BalancesView(Balances(available, v.state.hold), true))
  }

  function SubtractAvailable(v: BalancesView, amount: Money): (r: Result<BalancesView>)
    ensures r.Ok? <==> v.state.available.currency == amount.currency && v.state.available.amount >= amount.amount
    ensures r.Err? && v.state.available.currency == amount.currency ==> r.error == InsufficientBalance
    ensures r.Ok? ==> r.value.flushNeeded && r.value.state.hold == v.state.hold
    ensures r.Ok? ==> r.value.state.available == Money(amount.currency, v.state.available.amount - amount.amount)
  {
    match CheckEnoughBalance(v.state.available, amount)
    case Fail(e) => Err(e)
    case Pass =>
      var available := Subtract(v.state.available, amount).value;
      Ok(BalancesView(Balances(available, v.state.hold), true))
  }

  /** Moves `amount` from available to hold. */
  function Hold(v: BalancesView, amount: Money): (r: Result<BalancesView>)
    ensures r.Ok? <==>
      v.state.available.currency == amount.currency && v.state.hold.currency == amount.currency &&
      v.state.available.amount >= amount.amount
    ensures r.Ok? ==> r.value.flushNeeded
    ensures r.Ok? ==>
      r.value.state == Balances(Money(amount.currency, v.state.available.amount - amount.amount),
                                Money(amount.currency, v.state.hold.amount + amount.amount))
  {
    match CheckEnoughBalance(v.state.available, amount)
    case Fail(e) => Err(e)
    case Pass =>
      var available := Subtract(v.state.available, amount).value;
      var hold :- Add(v.state.hold, amount);
      Ok(BalancesView(Balances(available, hold), true))
  }

  /** Moves `amount` from hold back to available. */
  function ReleaseHold(v: BalancesView, amount: Money): (r: Result<BalancesView>)
    ensures r.Ok? <==>
      v.state.available.currency == amount.currency && v.state.hold.currency == amount.currency &&
      v.state.hold.amount >= amount.amount
    ensures r.Ok? ==> r.value.flushNeeded
    ensures r.Ok? ==>
      r.value.state == Balances(Money(amount.currency, v.state.available.amount + amount.amount),
                                Money(amount.currency, v.state.hold.amount - amount.amount))
  {
    match CheckEnoughBalance(v.state.hold, amount)
    case Fail(e) => Err(e)
    case Pass =>
      var available :- Add(v.state.available, amount);
      var hold := Subtract(v.state.hold, amount).value;
      Ok(BalancesView(Balances(available, hold), true))
  }

  function SubtractHold(v: BalancesView, amount: Money): (r: Result<BalancesView>)
    ensures r.Ok? <==> v.state.hold.currency == amount.currency && v.state.hold.amount >= amount.amount
    ensures r.Err? && v.state.hold.currency == amount.currency ==> r.error == InsufficientBalance
    ensures r.Ok? ==> r.value.flushNeeded && r.value.state.available == v.state.available
    ensures r.Ok? ==> r.value.state.hold == Money(amount.currency, v.state.hold.amount - amount.amount)
  {
    match CheckEnoughBalance(v.state.hold, amount)
    case Fail(e) => Err(e)
    case Pass =>
      var hold := Subtract(v.state.hold, amount).value;
      Ok(BalancesView(Balances(v.state.available, hold), true))
  }

  /** Adds to the hold balance only. */
  function AddHold(v: BalancesView, amount: Money): (r: Result<BalancesView>)
    ensures r.Ok? <==> v.state.hold.currency == amount.currency
    ensures r.Ok? ==> r.value.flushNeeded && r.value.state.available == v.state.available
    ensures r.Ok? ==> r.value.state.hold == Money(amount.currency, v.state.hold.amount + amount.amount)
  {
    var hold :- Add(v.state.hold, amount);
    Ok(BalancesView(Balances(v.state.available, hold), true))
  }

  /** What an exclusive-context flush leaves in storage. */
  function Written(v: BalancesView, stored: Option<Balances>): (r: Option<Balances>)
    ensures v.flushNeeded ==> r == Some(v.state)
    ensures !v.flushNeeded ==> r == stored
  {
    if v.flushNeeded then Some(v.state) else stored
  }

  /** Flushing a pending change from a shared (read-only) context fails. */
  function Flush(v: BalancesView, ctx: Context, stored: Option<Balances>): (r: Result<Option<Balances>>)
    ensures r.Err? <==> v.flushNeeded && ctx.Shared?
    ensures r.Err? ==> r.error == FlushInSharedContext
    ensures r.Ok? ==> r.value == Written(v, stored)
  {
    GuardedWrite(v.flushNeeded, ctx, Written(v, stored))
  }

  // ---- Properties ----

  /** Holding and releasing move money between the two balances without creating any. */
  lemma HoldMovesWithinAccount(v: BalancesView, amount: Money)
    ensures Hold(v, amount).Ok? ==>
      Hold(v, amount).value.state.available.amount + Hold(v, amount).value.state.hold.amount ==
      v.state.available.amount + v.state.hold.amount
    ensures ReleaseHold(v, amount).Ok? ==>
      ReleaseHold(v, amount).value.state.available.amount + ReleaseHold(v, amount).value.state.hold.amount ==
      v.state.available.amount + v.state.hold.amount
  {
  }

  /** Releasing what was just held restores the balances. */
  lemma HoldThenRelease(v: BalancesView, amount: Money)
    requires v.state.hold.amount >= 0 && Hold(v, amount).Ok?
    ensures ReleaseHold(Hold(v, amount).value, amount).Ok?
    ensures ReleaseHold(Hold(v, amount).value, amount).value.state == v.state
  {
  }

  /** A loaded view that is never mutated writes nothing, in either context. */
  lemma UntouchedViewWritesNothing(stored: Option<Balances>, ctx: Context)
    requires stored.Some?
    ensures Flush(GetExisting(stored).value, ctx, stored) == Ok(stored)
  {
  }
}
