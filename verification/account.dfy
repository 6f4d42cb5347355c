/** The account virtual object of the service generation (src/main/java/com/lekha/account).

    The stored state of one account is its options, its balances and its holds.
    Every handler is a pure transition: it returns the stored state as its
    try-with-resources blocks leave it (views are flushed on every exit path,
    also when the handler fails) together with the handler's result or error.
    The object key (the account id) and the ledger postings are not modelled.
 */
module Accounts {
  import opened Common
  import opened Monetary
  import opened AccountTypes
  import opened AccountOptionsStates
  import opened AccountBalances
  import opened HoldBalances
  import opened HoldTotals
  import opened Draining

  datatype Account = Account(options: Option<Options>, balances: Option<Balances>, holds: HoldStore)

  /** An account nobody has initialised yet. */
  const Uninitialised := Account(None, None, map[])

  /** The stored state after a handler, and what the handler returned or threw. */
  datatype Step<R> = Step(account: Account, result: Result<R>)

  datatype HoldResult = HoldResult(summary: Balances, holdSummary: HoldSummary)

  datatype ReleaseHoldResult = ReleaseHoldResult(summary: Balances, holdSummary: HoldSummary, releasedAmount: Money)

  /** Closing a balances view. */
  function CloseBalances(a: Account, v: BalancesView): Account {
    a.(balances := AccountBalances.Written(v, a.balances))
  }

  /** Closing a hold view. */
  function CloseHold(a: Account, v: HoldView): Account {
    a.(holds := HoldBalances.Written(v, a.holds))
  }

  /** Balances after `available` changes by `delta`, hold unchanged. */
  function WithAvailable(b: Balances, delta: int): Balances {
    Balances(Money(b.available.currency, b.available.amount + delta), b.hold)
  }

  // ---- Handlers ----

  /** Creates options and zero balances on first use; afterwards returns the current balances. */
  function Init(a: Account, o: Options): (r: Step<Balances>)
    ensures a.options.None? && a.balances.None? ==>
      r == Step(Account(Some(o), Some(Empty(o.nativeCurrency)), a.holds), Ok(Empty(o.nativeCurrency)))
    ensures a.options.Some? ==> r.account == a
    ensures a.options.Some? ==> (r.result.Ok? <==> a.balances.Some?)
    ensures a.options.Some? && a.balances.Some? ==> r.result == Ok(a.balances.value)
  {
    if !AccountOptionsStates.Exists(a.options) then
      var options := AccountOptionsStates.Create(a.options, o).value;
      match AccountBalances.Create(a.balances, o.nativeCurrency)
      case Err(e) => Step(a.(options := options), Err(e))
      case Ok(v) => Step(CloseBalances(a.(options := options), v), Ok(v.state))
    else
      match GetSummary(a)
      case Err(e) => Step(a, Err(e))
      case Ok(b) => Step(a, Ok(b))
  }

  /** The shared (read-only) summary handler. */
  function GetSummary(a: Account): Result<Balances> {
    StoredSummary(a.balances)
  }

  /** Debits decrease the available balance (checked) where the type says so, else increase it. */
  function Debit(a: Account, amount: Money): (r: Step<Balances>)
    ensures r.result.Err? ==> r.account == a
    ensures r.result.Ok? <==>
      && a.balances.Some? && a.options.Some?
      && a.balances.value.available.currency == amount.currency
      && (DebitsDecreaseBalance(a.options.value.accountType) ==> a.balances.value.available.amount >= amount.amount)
    ensures r.result.Ok? ==>
      var delta := if DebitsDecreaseBalance(a.options.value.accountType) then -amount.amount else amount.amount;
      && r.result.value == WithAvailable(a.balances.value, delta)
      && r.account == a.(balances := Some(r.result.value))
  {
    match AccountBalances.GetExisting(a.balances)
    case Err(e) => Step(a, Err(e))
    case Ok(v) =>
      match AccountOptionsStates.GetExisting(a.options)
      case Err(e) => Step(CloseBalances(a, v), Err(e))
      case Ok(o) =>
        var updated :=
          if DebitsDecreaseBalance(o.accountType) then AccountBalances.SubtractAvailable(v, amount)
          else AccountBalances.AddAvailable(v, amount);
        match updated
        case Err(e) => Step(CloseBalances(a, v), Err(e))
        case Ok(v2) => Step(CloseBalances(a, v2), Ok(v2.state))
  }

  /** Credits decrease the available balance (checked) where the type says so, else increase it. */
  function Credit(a: Account, amount: Money): (r: Step<Balances>)
    ensures r.result.Err? ==> r.account == a
    ensures r.result.Ok? <==>
      && a.balances.Some? && a.options.Some?
      && a.balances.value.available.currency == amount.currency
      && (CreditsDecreaseBalance(a.options.value.accountType) ==> a.balances.value.available.amount >= amount.amount)
    ensures r.result.Ok? ==>
      var delta := if CreditsDecreaseBalance(a.options.value.accountType) then -amount.amount else amount.amount;
      && r.result.value == WithAvailable(a.balances.value, delta)
      && r.account == a.(balances := Some(r.result.value))
  {
    match AccountBalances.GetExisting(a.balances)
    case Err(e) => Step(a, Err(e))
    case Ok(v) =>
      match AccountOptionsStates.GetExisting(a.options)
      case Err(e) => Step(CloseBalances(a, v), Err(e))
      case Ok(o) =>
        var updated :=
          if CreditsDecreaseBalance(o.accountType) then AccountBalances.SubtractAvailable(v, amount)
          else AccountBalances.AddAvailable(v, amount);
        match updated
        case Err(e) => Step(CloseBalances(a, v), Err(e))
        case Ok(v2) => Step(CloseBalances(a, v2), Ok(v2.state))
  }

  /** Moves `amount` from available into a new hold `id` of type `t`. */
  function Hold(a: Account, t: HoldType, id: HoldId, amount: Money): (r: Step<HoldResult>)
    ensures r.result.Err? ==> r.account == a
    ensures r.result.Ok? <==>
      && a.balances.Some? && a.options.Some?
      && DebitsDecreaseBalance(a.options.value.accountType)
      && id !in a.holds
      && a.balances.value.available.currency == amount.currency
      && a.balances.value.hold.currency == amount.currency
      && a.balances.value.available.amount >= amount.amount
    ensures a.balances.Some? && a.options.Some? && !DebitsDecreaseBalance(a.options.value.accountType) ==>
      r.result == Err(CannotHold)
    ensures r.result.Ok? ==>
      var b := a.balances.value;
      && r.result.value.summary ==
         Balances(Money(amount.currency, b.available.amount - amount.amount),
                  Money(amount.currency, b.hold.amount + amount.amount))
      && r.result.value.holdSummary == HoldSummary(id, t, amount)
      && r.account.balances == Some(r.result.value.summary)
      && r.account.options == a.options
      && r.account.holds == (if amount.amount == 0 then a.holds
                             else a.holds[id := HoldState(HoldDetails(id, t), amount)])
  {
    match AccountBalances.GetExisting(a.balances)
    case Err(e) => Step(a, Err(e))
    case Ok(v) =>
      match AccountOptionsStates.GetExisting(a.options)
      case Err(e) => Step(CloseBalances(a, v), Err(e))
      case Ok(o) =>
        if !DebitsDecreaseBalance(o.accountType) then Step(CloseBalances(a, v), Err(CannotHold))
        else
          match HoldBalances.Create(a.holds, id, t, amount.currency)
          case Err(e) => Step(CloseBalances(a, v), Err(e))
          case Ok(h) => MoveIntoHold(a, v, h, amount)
  }

  /** The mutating part of `Hold`: the balances move `amount` into hold, then the new hold
      record takes it. */
  function MoveIntoHold(a: Account, v: BalancesView, h: HoldView, amount: Money): (r: Step<HoldResult>)
    requires !v.flushNeeded && Some(v.state) == a.balances
    requires !h.flushNeeded && h.holdId !in a.holds && h.state.balance == Zero(amount.currency)
    ensures r.result.Err? ==> r.account == a
    ensures r.result.Ok? <==>
      && v.state.available.currency == amount.currency
      && v.state.hold.currency == amount.currency
      && v.state.available.amount >= amount.amount
    ensures r.result.Ok? ==>
      && r.result.value.summary ==
         Balances(Money(amount.currency, v.state.available.amount - amount.amount),
                  Money(amount.currency, v.state.hold.amount + amount.amount))
      && r.result.value.holdSummary == HoldSummary(h.holdId, h.state.details.holdType, amount)
      && r.account.balances == Some(r.result.value.summary)
      && r.account.options == a.options
      && r.account.holds == (if amount.amount == 0 then a.holds else a.holds[h.holdId := HoldState(h.state.details, amount)])
  {
    match AccountBalances.Hold(v, amount)
    case Err(e) => Step(CloseBalances(CloseHold(a, h), v), Err(e))
    case Ok(v2) =>
      match HoldBalances.AddAvailable(h, amount)
      case Err(e) => Step(CloseBalances(CloseHold(a, h), v2), Err(e))
      case Ok(h2) => Step(CloseBalances(CloseHold(a, h2), v2), Ok(HoldResult(v2.state, Summary(h2))))
  }

  /** Returns the whole balance of hold `id` to available and deletes the hold; an absent
      hold releases nothing. */
  function ReleaseHold(a: Account, t: HoldType, id: HoldId): (r: Step<ReleaseHoldResult>)
    ensures a.balances.Some? && id !in a.holds ==>
      var zero := Zero(a.balances.value.hold.currency);
      r == Step(a, Ok(ReleaseHoldResult(a.balances.value, HoldSummary(id, t, zero), zero)))
    ensures a.balances.None? ==> r == Step(a, Err(BalancesNotPresent))
    ensures a.balances.Some? && id in a.holds && a.holds[id].details.holdType != t ==>
      r == Step(a, Err(HoldTypeMismatch))
    ensures r.result.Ok? <==>
      a.balances.Some? &&
      (id in a.holds ==>
         var h := a.holds[id].balance;
         && a.holds[id].details.holdType == t && h.amount > 0
         && a.balances.value.available.currency == h.currency && a.balances.value.hold.currency == h.currency
         && a.balances.value.hold.amount >= h.amount)
    ensures r.result.Ok? && id in a.holds ==>
      var h := a.holds[id].balance;
      var b := a.balances.value;
      && h.amount > 0
      && r.result.value.releasedAmount == h
      && r.result.value.summary ==
         Balances(Money(b.available.currency, b.available.amount + h.amount),
                  Money(b.hold.currency, b.hold.amount - h.amount))
      && r.result.value.holdSummary == HoldSummary(id, t, Money(h.currency, 0))
      && r.account == Account(a.options, Some(r.result.value.summary), a.holds - {id})
  {
    match AccountBalances.GetExisting(a.balances)
    case Err(e) => Step(a, Err(e))
    case Ok(v) =>
      if !HoldBalances.Exists(a.holds, id) then
        var zero := Zero(v.state.hold.currency);
        Step(CloseBalances(a, v), Ok(ReleaseHoldResult(v.state, HoldSummary(id, t, zero), zero)))
      else
        match GetExistingOfType(a.holds, id, t)
        case Err(e) => Step(CloseBalances(a, v), Err(e))
        case Ok(h) =>
          var amount := h.state.balance;
          match EnsurePositive(amount)
          case Fail(e) => Step(CloseBalances(CloseHold(a, h), v), Err(e))
          case Pass =>
            match HoldBalances.SubtractAvailable(h, amount)
            case Err(e) => Step(CloseBalances(CloseHold(a, h), v), Err(e))
            case Ok(h2) =>
              match AccountBalances.ReleaseHold(v, amount)
              case Err(e) => Step(CloseBalances(CloseHold(a, h2), v), Err(e))
              case Ok(v2) =>
                Step(CloseBalances(CloseHold(a, h2), v2), Ok(ReleaseHoldResult(v2.state, Summary(h2), amount)))
  }

  /** The shared hold-summary handlers: the hold must exist with the expected type. */
  function GetHoldSummary(a: Account, t: HoldType, id: HoldId): (r: Result<HoldSummary>)
    ensures r.Ok? <==> id in a.holds && a.holds[id].details.holdType == t
    ensures r.Ok? ==> r.value == HoldSummary(id, t, a.holds[id].balance)
  {
    var h :- GetExistingOfType(a.holds, id, t);
    Ok(Summary(h))
  }

  /** Takes `amount` out of user hold `id` and out of the aggregate hold balance. */
  function DebitHold(a: Account, id: HoldId, amount: Money): (r: Step<HoldResult>)
    ensures a.balances.None? ==> r == Step(a, Err(BalancesNotPresent))
    ensures a.balances.Some? && id !in a.holds ==> r == Step(a, Err(HoldNotPresent))
    ensures a.balances.Some? && id in a.holds && a.holds[id].details.holdType == User ==>
      (a.holds[id].balance.amount < amount.amount && a.holds[id].balance.currency == amount.currency ==>
         r == Step(a, Err(InsufficientBalance)))
    ensures r.result.Ok? <==>
      && a.balances.Some? && id in a.holds && a.holds[id].details.holdType == User
      && a.holds[id].balance.currency == amount.currency && a.holds[id].balance.amount >= amount.amount
      && a.balances.value.hold.currency == amount.currency && a.balances.value.hold.amount >= amount.amount
    ensures r.result.Ok? ==>
      var b := a.balances.value;
      var h := a.holds[id];
      var left := Money(amount.currency, h.balance.amount - amount.amount);
      && id in a.holds && h.details.holdType == User
      && r.result.value.summary == Balances(b.available, Money(amount.currency, b.hold.amount - amount.amount))
      && r.result.value.holdSummary == HoldSummary(id, User, left)
      && r.account.options == a.options
      && r.account.balances == Some(r.result.value.summary)
      && r.account.holds == (if left.amount == 0 then a.holds - {id} else a.holds[id := HoldState(h.details, left)])
  {
    match AccountBalances.GetExisting(a.balances)
    case Err(e) => Step(a, Err(e))
    case Ok(v) =>
      match GetExistingOfType(a.holds, id, User)
      case Err(e) => Step(CloseBalances(a, v), Err(e))
      case Ok(h) =>
        match HoldBalances.SubtractAvailable(h, amount)
        case Err(e) => Step(CloseBalances(CloseHold(a, h), v), Err(e))
        case Ok(h2) =>
          match SubtractHold(v, amount)
          case Err(e) => Step(CloseBalances(CloseHold(a, h2), v), Err(e))
          case Ok(v2) => Step(CloseBalances(CloseHold(a, h2), v2), Ok(HoldResult(v2.state, Summary(h2))))
  }

  /** Adds `amount` to hold `id` (created with type `t` if absent, kept with its own type
      otherwise) and to the aggregate hold balance. */
  function CreditHold(a: Account, t: HoldType, id: HoldId, amount: Money): (r: Step<HoldResult>)
    ensures a.balances.None? ==> r == Step(a, Err(BalancesNotPresent))
    ensures a.balances.Some? && a.balances.value.hold.currency != amount.currency ==>
      r == Step(a, Err(CurrencyMismatch))
    ensures r.result.Ok? <==>
      && a.balances.Some? && a.balances.value.hold.currency == amount.currency
      && (id in a.holds ==> a.holds[id].balance.currency == amount.currency)
    ensures r.result.Ok? ==>
      var b := a.balances.value;
      var details := if id in a.holds then a.holds[id].details else HoldDetails(id, t);
      var before := if id in a.holds then a.holds[id].balance.amount else 0;
      var after := Money(amount.currency, before + amount.amount);
      && r.result.value.summary == Balances(b.available, Money(amount.currency, b.hold.amount + amount.amount))
      && r.result.value.holdSummary == HoldSummary(id, details.holdType, after)
      && r.account.options == a.options
      && r.account.balances == Some(r.result.value.summary)
      && r.account.holds == (if after.amount == 0 then a.holds - {id} else a.holds[id := HoldState(details, after)])
  {
    match AccountBalances.GetExisting(a.balances)
    case Err(e) => Step(a, Err(e))
    case Ok(v) => AddToHold(a, v, GetExistingOrCreate(a.holds, id, t, amount.currency).value, amount)
  }

  /** The mutating part of `CreditHold`: the aggregate hold balance grows, then the hold record. */
  function AddToHold(a: Account, v: BalancesView, h: HoldView, amount: Money): (r: Step<HoldResult>)
    requires !v.flushNeeded && Some(v.state) == a.balances && !h.flushNeeded
    ensures v.state.hold.currency != amount.currency ==> r == Step(CloseHold(a, h), Err(CurrencyMismatch))
    ensures r.result.Ok? <==> v.state.hold.currency == amount.currency && h.state.balance.currency == amount.currency
    ensures r.result.Ok? ==>
      var after := Money(amount.currency, h.state.balance.amount + amount.amount);
      && r.result.value.summary == Balances(v.state.available, Money(amount.currency, v.state.hold.amount + amount.amount))
      && r.result.value.holdSummary == HoldSummary(h.holdId, h.state.details.holdType, after)
      && r.account.options == a.options
      && r.account.balances == Some(r.result.value.summary)
      && r.account.holds ==
         (if after.amount == 0 then a.holds - {h.holdId} else a.holds[h.holdId := HoldState(h.state.details, after)])
  {
    match AddHold(v, amount)
    case Err(e) => Step(CloseBalances(CloseHold(a, h), v), Err(e))
    case Ok(v2) =>
      match HoldBalances.AddAvailable(h, amount)
      case Err(e) => Step(CloseBalances(CloseHold(a, h), v2), Err(e))
      case Ok(h2) => Step(CloseBalances(CloseHold(a, h2), v2), Ok(HoldResult(v2.state, Summary(h2))))
  }

  /** On types whose debits decrease the balance, drains the transaction's hold first and
      available after it; on the others, a plain debit with an empty transaction hold summary. */
  function TransactionalDebit(a: Account, tx: TransactionId, amount: Money): (r: Step<HoldResult>)
    ensures a.options.None? ==> r == Step(a, Err(OptionsNotPresent))
    ensures a.options.Some? && !DebitsDecreaseBalance(a.options.value.accountType) ==>
      var plain := Debit(a, amount);
      && r.account == plain.account
      && r.result.Ok? == plain.result.Ok?
      && (r.result.Ok? ==> r.result.value == HoldResult(plain.result.value, HoldSummary(tx, Transaction, Zero(amount.currency))))
  {
    match AccountOptionsStates.GetExisting(a.options)
    case Err(e) => Step(a, Err(e))
    case Ok(o) =>
      if DebitsDecreaseBalance(o.accountType) then
        match AccountBalances.GetExisting(a.balances)
        case Err(e) => Step(a, Err(e))
        case Ok(v) =>
          var h := GetExistingOrCreate(a.holds, tx, Transaction, amount.currency).value;
          var d := Drain([h], v, amount);
          var closed := CloseBalances(CloseHold(a, d.holds[0]), d.account);
          match d.outcome
          case Fail(e) => Step(closed, Err(e))
          case Pass => Step(closed, Ok(HoldResult(d.account.state, Summary(d.holds[0]))))
      else
        var plain := Debit(a, amount);
        match plain.result
        case Err(e) => Step(plain.account, Err(e))
        case Ok(b) => Step(plain.account, Ok(HoldResult(b, HoldSummary(tx, Transaction, Zero(amount.currency)))))
  }

  /** On types whose credits decrease the balance, a plain credit with an empty transaction
      hold summary; on the others, a credit into the transaction's hold. */
  function TransactionalCredit(a: Account, tx: TransactionId, amount: Money): (r: Step<HoldResult>)
    ensures a.options.None? ==> r == Step(a, Err(OptionsNotPresent))
    ensures a.options.Some? && CreditsDecreaseBalance(a.options.value.accountType) ==>
      var plain := Credit(a, amount);
      && r.account == plain.account
      && r.result.Ok? == plain.result.Ok?
      && (r.result.Ok? ==> r.result.value == HoldResult(plain.result.value, HoldSummary(tx, Transaction, Zero(amount.currency))))
    ensures a.options.Some? && !CreditsDecreaseBalance(a.options.value.accountType) ==>
      r == CreditHold(a, Transaction, tx, amount)
  {
    match AccountOptionsStates.GetExisting(a.options)
    case Err(e) => Step(a, Err(e))
    case Ok(o) =>
      if CreditsDecreaseBalance(o.accountType) then
        var plain := Credit(a, amount);
        match plain.result
        case Err(e) => Step(plain.account, Err(e))
        case Ok(b) => Step(plain.account, Ok(HoldResult(b, HoldSummary(tx, Transaction, Zero(amount.currency)))))
      else
        CreditHold(a, Transaction, tx, amount)
  }

  /** Releases the transaction's hold. */
  function TransactionReleaseHold(a: Account, tx: TransactionId): (r: Step<ReleaseHoldResult>)
    ensures a.balances.Some? && tx in a.holds && a.holds[tx].details.holdType == User ==>
      r == Step(a, Err(HoldTypeMismatch))
    ensures r.result.Ok? ==> r.result.value.holdSummary.holdType == Transaction && r.result.value.holdSummary.holdId == tx
    ensures r.result.Ok? && tx in a.holds ==>
      r.result.value.releasedAmount == a.holds[tx].balance && tx !in r.account.holds
  {
    ReleaseHold(a, Transaction, tx)
  }

  /** Places a hold keyed by the transaction id. */
  function TransactionalHold(a: Account, tx: TransactionId, amount: Money): (r: Step<HoldResult>)
    ensures r.result.Ok? <==> Hold(a, User, tx, amount).result.Ok?
    ensures r.result.Ok? ==>
      && r.result.value.holdSummary == HoldSummary(tx, Transaction, amount)
      && (amount.amount != 0 ==> tx in r.account.holds && r.account.holds[tx].details == HoldDetails(tx, Transaction))
  {
    Hold(a, Transaction, tx, amount)
  }
}
