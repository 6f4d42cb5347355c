/** The account virtual object of the oldest generation (src/main/java/com/lekha/accounts).

    Same stored shape as the later account, except that holds are bare balances
    under ids the handler draws at random (here: passed in), a debit may name a
    hold to take from, and releasing an absent hold is an error.
 */
module LegacyAccounts {
  import opened Common
  import opened Monetary
  import opened AccountTypes
  import opened AccountOptionsStates
  import opened AccountBalances
  import opened LegacyHoldBalances

  datatype LegacyAccount = LegacyAccount(options: Option<Options>, balances: Option<Balances>, holds: LegacyHoldStore)

  const Uninitialised := LegacyAccount(None, None, map[])

  datatype Step<R> = Step(account: LegacyAccount, result: Result<R>)

  datatype HoldSummary = HoldSummary(holdId: HoldId, balance: Money)

  datatype DebitResult = DebitResult(summary: Balances, holdSummary: Option<HoldSummary>)

  datatype HoldResult = HoldResult(summary: Balances, holdSummary: HoldSummary)

  datatype ReleaseHoldResult = ReleaseHoldResult(summary: Balances, holdSummary: HoldSummary, releasedAmount: Money)

  function CloseBalances(a: LegacyAccount, v: BalancesView): LegacyAccount {
    a.(balances := AccountBalances.Written(v, a.balances))
  }

  function CloseHold(a: LegacyAccount, v: LegacyHoldView): LegacyAccount {
    a.(holds := LegacyHoldBalances.Written(v, a.holds))
  }

  // ---- Handlers ----

  function Init(a: LegacyAccount, o: Options): (r: Step<Balances>)
    ensures a.options.None? && a.balances.None? ==>
      r == Step(LegacyAccount(Some(o), Some(Empty(o.nativeCurrency)), a.holds), Ok(Empty(o.nativeCurrency)))
    ensures a.options.Some? ==> r.account == a
    ensures a.options.Some? ==> (r.result.Ok? <==> a.balances.Some?)
    ensures a.options.Some? && a.balances.Some? ==> r.result == Ok(a.balances.value)
  {
    if !AccountOptionsStates.Exists(a.options) then
      var options := AccountOptionsStates.Create(a.options, o).value;
      match AccountBalances.Create(a.balances, o.nativeCurrency)
      case Err(e) => Step(a.(options := options), Err(e))
      case Ok(v) => Step(CloseBalances(a.(options := options), v), Ok(v.state))
    else
      match GetSummary(a)
      case Err(e) => Step(a, Err(e))
      case Ok(b) => Step(a, Ok(b))
  }

  function GetSummary(a: LegacyAccount): Result<Balances> {
    StoredSummary(a.balances)
  }

  /** On types whose debits decrease the balance, a debit naming a hold takes from that hold
      and the aggregate hold balance, and one naming no hold takes from available; on the
      other types it adds to available and the hold id is ignored. */
  function Debit(a: LegacyAccount, amount: Money, holdId: Option<HoldId>): (r: Step<DebitResult>)
    ensures a.balances.None? ==> r == Step(a, Err(BalancesNotPresent))
    ensures a.balances.Some? && a.options.None? ==> r == Step(a, Err(OptionsNotPresent))
    ensures a.options.Some? && !DebitsDecreaseBalance(a.options.value.accountType) ==>
      r == DebitAvailable(a, amount, false)
    ensures a.options.Some? && DebitsDecreaseBalance(a.options.value.accountType) && holdId.None? ==>
      r == DebitAvailable(a, amount, true)
    ensures a.balances.Some? && a.options.Some? && DebitsDecreaseBalance(a.options.value.accountType) ==>
      (holdId.Some? && holdId.value !in a.holds ==> r == Step(a, Err(HoldNotPresent)))
    ensures r.result.Ok? && holdId.Some? && DebitsDecreaseBalance(a.options.value.accountType) ==>
      var id := holdId.value;
      var b := a.balances.value;
      var left := Money(amount.currency, a.holds[id].amount - amount.amount);
      && id in a.holds
      && r.result.value == DebitResult(Balances(b.available, Money(amount.currency, b.hold.amount - amount.amount)),
                                       Some(HoldSummary(id, left)))
      && r.account.options == a.options
      && r.account.balances == Some(r.result.value.summary)
      && r.account.holds == (if left.amount == 0 then a.holds - {id} else a.holds[id := left])
  {
    match AccountBalances.GetExisting(a.balances)
    case Err(e) => Step(a, Err(e))
    case Ok(v) =>
      match AccountOptionsStates.GetExisting(a.options)
      case Err(e) => Step(CloseBalances(a, v), Err(e))
      case Ok(o) =>
        if DebitsDecreaseBalance(o.accountType) then
          if holdId.Some? then
            match LegacyHoldBalances.GetExisting(a.holds, holdId.value)
            case Err(e) => Step(CloseBalances(a, v), Err(e))
            case Ok(h) => DebitFromHold(a, v, h, amount)
          else DebitAvailable(a, amount, true)
        else DebitAvailable(a, amount, false)
  }

  /** The available-balance branches of `Debit`: subtract (checked) or add. */
  function DebitAvailable(a: LegacyAccount, amount: Money, decrease: bool): (r: Step<DebitResult>)
    ensures r.result.Err? ==> r.account == a
    ensures r.result.Ok? <==>
      a.balances.Some? && a.balances.value.available.currency == amount.currency &&
      (decrease ==> a.balances.value.available.amount >= amount.amount)
    ensures r.result.Ok? ==>
      var b := a.balances.value;
      var delta := if decrease then -amount.amount else amount.amount;
      && r.result.value == DebitResult(Balances(Money(amount.currency, b.available.amount + delta), b.hold), None)
      && r.account == a.(balances := Some(r.result.value.summary))
  {
    match AccountBalances.GetExisting(a.balances)
    case Err(e) => Step(a, Err(e))
    case Ok(v) =>
      var updated := if decrease then AccountBalances.SubtractAvailable(v, amount) else AccountBalances.AddAvailable(v, amount);
      match updated
      case Err(e) => Step(CloseBalances(a, v), Err(e))
      case Ok(v2) => Step(CloseBalances(a, v2), Ok(DebitResult(v2.state, None)))
  }

  /** The hold branch of `Debit`: the hold gives `amount`, then the aggregate hold balance. */
  function DebitFromHold(a: LegacyAccount, v: BalancesView, h: LegacyHoldView, amount: Money): (r: Step<DebitResult>)
    requires !v.flushNeeded && Some(v.state) == a.balances
    requires !h.flushNeeded && h.holdId in a.holds && a.holds[h.holdId] == h.balance
    ensures r.result.Ok? <==>
      && h.balance.currency == amount.currency && h.balance.amount >= amount.amount
      && v.state.hold.currency == amount.currency && v.state.hold.amount >= amount.amount
    ensures h.balance.currency == amount.currency && h.balance.amount < amount.amount ==>
      r == Step(a, Err(InsufficientBalance))
    ensures r.result.Ok? ==>
      var left := Money(amount.currency, h.balance.amount - amount.amount);
      && r.result.value ==
         DebitResult(Balances(v.state.available, Money(amount.currency, v.state.hold.amount - amount.amount)),
                     Some(HoldSummary(h.holdId, left)))
      && r.account.options == a.options
      && r.account.balances == Some(r.result.value.summary)
      && r.account.holds == (if left.amount == 0 then a.holds - {h.holdId} else a.holds[h.holdId := left])
  {
    match LegacyHoldBalances.SubtractAvailable(h, amount)
    case Err(e) => Step(CloseBalances(CloseHold(a, h), v), Err(e))
    case Ok(h2) =>
      match SubtractHold(v, amount)
      case Err(e) => Step(CloseBalances(CloseHold(a, h2), v), Err(e))
      case Ok(v2) =>
        Step(CloseBalances(CloseHold(a, h2), v2), Ok(DebitResult(v2.state, Some(HoldSummary(h.holdId, h2.balance)))))
  }

  /** Credits decrease the available balance (checked) where the type says so, else increase it. */
  function Credit(a: LegacyAccount, amount: Money): (r: Step<Balances>)
    ensures r.result.Err? ==> r.account == a
    ensures r.result.Ok? <==>
      && a.balances.Some? && a.options.Some?
      && a.balances.value.available.currency == amount.currency
      && (CreditsDecreaseBalance(a.options.value.accountType) ==> a.balances.value.available.amount >= amount.amount)
    ensures r.result.Ok? ==>
      var b := a.balances.value;
      var delta := if CreditsDecreaseBalance(a.options.value.accountType) then -amount.amount else amount.amount;
      && r.result.value == Balances(Money(amount.currency, b.available.amount + delta), b.hold)
      && r.account == a.(balances := Some(r.result.value))
  {
    match AccountBalances.GetExisting(a.balances)
    case Err(e) => Step(a, Err(e))
    case Ok(v) =>
      match AccountOptionsStates.GetExisting(a.options)
      case Err(e) => Step(CloseBalances(a, v), Err(e))
      case Ok(o) =>
        var updated :=
          if CreditsDecreaseBalance(o.accountType) then AccountBalances.SubtractAvailable(v, amount)
          else AccountBalances.AddAvailable(v, amount);
        match updated
        case Err(e) => Step(CloseBalances(a, v), Err(e))
        case Ok(v2) => Step(CloseBalances(a, v2), Ok(v2.state))
  }

  /** The outcome of a successful hold: `amount` has moved from available to the hold
      balance, and a hold of `amount` is recorded under `freshId` (a zero hold is not
      stored). */
  predicate HoldPlaced(a: LegacyAccount, freshId: HoldId, amount: Money, r: Step<HoldResult>)
    requires a.balances.Some? && r.result.Ok?
  {
    var b := a.balances.value;
    && r.result.value.summary ==
       Balances(Money(amount.currency, b.available.amount - amount.amount),
                Money(amount.currency, b.hold.amount + amount.amount))
    && r.result.value.holdSummary == HoldSummary(freshId, amount)
    && r.account.options == a.options
    && r.account.balances == Some(r.result.value.summary)
    && r.account.holds == (if amount.amount == 0 then a.holds else a.holds[freshId := amount])
  }

  /** Moves `amount` from available into a new hold stored under `freshId` (the source
      draws it at random). */
  function Hold(a: LegacyAccount, freshId: HoldId, amount: Money): (r: Step<HoldResult>)
    ensures a.balances.Some? && a.options.Some? && !DebitsDecreaseBalance(a.options.value.accountType) ==>
      r == Step(a, Err(CannotHold))
    ensures freshId !in a.holds ==> (r.result.Err? ==> r.account == a)
    ensures r.result.Ok? <==>
      && a.balances.Some? && a.options.Some?
      && DebitsDecreaseBalance(a.options.value.accountType)
      && a.balances.value.available.currency == amount.currency
      && a.balances.value.hold.currency == amount.currency
      && a.balances.value.available.amount >= amount.amount
      && freshId !in a.holds
    ensures r.result.Ok? ==> HoldPlaced(a, freshId, amount, r)
  {
    match AccountBalances.GetExisting(a.balances)
    case Err(e) => Step(a, Err(e))
    case Ok(v) =>
      match AccountOptionsStates.GetExisting(a.options)
      case Err(e) => Step(CloseBalances(a, v), Err(e))
      case Ok(o) =>
        if !DebitsDecreaseBalance(o.accountType) then Step(CloseBalances(a, v), Err(CannotHold))
        else HoldFrom(a, v, freshId, amount)
  }

  /** The part of `Hold` after the account has been found to be a debit-normal one: moves the
      balances, then records the hold. */
  function HoldFrom(a: LegacyAccount, v: BalancesView, freshId: HoldId, amount: Money): (r: Step<HoldResult>)
    requires a.balances == Some(v.state) && !v.flushNeeded
    ensures freshId !in a.holds ==> (r.result.Err? ==> r.account == a)
    ensures r.result.Ok? <==>
      && v.state.available.currency == amount.currency
      && v.state.hold.currency == amount.currency
      && v.state.available.amount >= amount.amount
      && freshId !in a.holds
    ensures r.result.Ok? ==> HoldPlaced(a, freshId, amount, r)
  {
    match AccountBalances.Hold(v, amount)
    case Err(e) => Step(CloseBalances(a, v), Err(e))
    case Ok(v2) => StoreNewHold(a, v2, freshId, amount)
  }

  /** The second half of `Hold`: the balances have already moved when the hold record is
      created, so an id collision still writes them. */
  function StoreNewHold(a: LegacyAccount, v: BalancesView, freshId: HoldId, amount: Money): (r: Step<HoldResult>)
    ensures freshId in a.holds ==> r == Step(CloseBalances(a, v), Err(HoldAlreadyPresent))
    ensures freshId !in a.holds ==>
      && r.result == Ok(HoldResult(v.state, HoldSummary(freshId, amount)))
      && r.account == CloseBalances(a, v).(holds := if amount.amount == 0 then a.holds else a.holds[freshId := amount])
  {
    match LegacyHoldBalances.Create(a.holds, freshId, amount.currency)
    case Err(e) => Step(CloseBalances(a, v), Err(e))
    case Ok(h) =>
      match LegacyHoldBalances.AddAvailable(h, amount)
      case Err(e) => Step(CloseBalances(CloseHold(a, h), v), Err(e))
      case Ok(h2) => Step(CloseBalances(CloseHold(a, h2), v), Ok(HoldResult(v.state, HoldSummary(freshId, h2.balance))))
  }

  /** Returns the whole balance of hold `id` to available and deletes the hold; the summary
      names the released hold with a zero balance. */
  function ReleaseHold(a: LegacyAccount, id: HoldId): (r: Step<ReleaseHoldResult>)
    ensures a.balances.None? ==> r == Step(a, Err(BalancesNotPresent))
    ensures a.balances.Some? && id !in a.holds ==> r == Step(a, Err(HoldNotPresent))
    ensures r.result.Ok? <==>
      && a.balances.Some? && id in a.holds && a.holds[id].amount > 0
      && a.balances.value.available.currency == a.holds[id].currency
      && a.balances.value.hold.currency == a.holds[id].currency
      && a.balances.value.hold.amount >= a.holds[id].amount
    ensures r.result.Ok? ==>
      var h := a.holds[id];
      var b := a.balances.value;
      && r.result.value == ReleaseHoldResult(
           Balances(Money(h.currency, b.available.amount + h.amount), Money(h.currency, b.hold.amount - h.amount)),
           HoldSummary(id, Zero(h.currency)), h)
      && r.account == LegacyAccount(a.options, Some(r.result.value.summary), a.holds - {id})
  {
    match AccountBalances.GetExisting(a.balances)
    case Err(e) => Step(a, Err(e))
    case Ok(v) =>
      match LegacyHoldBalances.GetExisting(a.holds, id)
      case Err(e) => Step(CloseBalances(a, v), Err(e))
      case Ok(h) => ReleaseWholeHold(a, v, h)
  }

  /** The mutating part of `ReleaseHold`. */
  function ReleaseWholeHold(a: LegacyAccount, v: BalancesView, h: LegacyHoldView): (r: Step<ReleaseHoldResult>)
    requires !v.flushNeeded && Some(v.state) == a.balances
    requires !h.flushNeeded && h.holdId in a.holds && a.holds[h.holdId] == h.balance
    ensures h.balance.amount <= 0 ==> r == Step(a, Err(NonPositiveAmount))
    ensures r.result.Ok? <==>
      && h.balance.amount > 0
      && v.state.available.currency == h.balance.currency && v.state.hold.currency == h.balance.currency
      && v.state.hold.amount >= h.balance.amount
    ensures r.result.Ok? ==>
      var m := h.balance;
      && r.result.value == ReleaseHoldResult(
           Balances(Money(m.currency, v.state.available.amount + m.amount), Money(m.currency, v.state.hold.amount - m.amount)),
           HoldSummary(h.holdId, Zero(m.currency)), m)
      && r.account == LegacyAccount(a.options, Some(r.result.value.summary), a.holds - {h.holdId})
  {
    var amount := h.balance;
    match EnsurePositive(amount)
    case Fail(e) => Step(CloseBalances(CloseHold(a, h), v), Err(e))
    case Pass =>
      match LegacyHoldBalances.SubtractAvailable(h, amount)
      case Err(e) => Step(CloseBalances(CloseHold(a, h), v), Err(e))
      case Ok(h2) =>
        match AccountBalances.ReleaseHold(v, amount)
        case Err(e) => Step(CloseBalances(CloseHold(a, h2), v), Err(e))
        case Ok(v2) =>
          Step(CloseBalances(CloseHold(a, h2), v2),
               Ok(ReleaseHoldResult(v2.state, HoldSummary(h.holdId, Zero(amount.currency)), amount)))
  }

  /** `ReleaseHold` as the source writes it: the returned summary carries the account id
      where the released hold's id belongs. */
  function ReleaseHoldAsWritten(a: LegacyAccount, accountId: AccountId, id: HoldId): (r: Step<ReleaseHoldResult>)
    ensures r.account == ReleaseHold(a, id).account
    ensures r.result.Ok? <==> ReleaseHold(a, id).result.Ok?
    ensures r.result.Ok? ==> r.result.value.holdSummary.holdId == accountId
  {
    var s := ReleaseHold(a, id);
    match s.result
    case Err(e) => Step(s.account, Err(e))
    case Ok(res) => Step(s.account, Ok(res.(holdSummary := res.holdSummary.(holdId := accountId))))
  }

  /** The shared hold-summary handler: the hold must exist. */
  function GetHoldSummary(a: LegacyAccount, id: HoldId): (r: Result<HoldSummary>)
    ensures r.Ok? <==> id in a.holds
    ensures r.Err? ==> r.error == HoldNotPresent
    ensures r.Ok? ==> r.value == HoldSummary(id, a.holds[id])
  {
    var h :- LegacyHoldBalances.GetExisting(a.holds, id);
    Ok(HoldSummary(id, h.balance))
  }
}
