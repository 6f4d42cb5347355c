/** The invariant of the oldest generation's accounts, and the handlers that keep it.

    As for the later account: balances in the native currency, a non-negative
    available balance, positive holds in that currency, and an aggregate hold
    balance equal to the sum of the hold balances.
 */
module LegacyAccountInvariant {
  import opened Common
  import opened Monetary
  import opened AccountTypes
  import opened AccountOptionsStates
  import opened AccountBalances
  import opened LegacyHoldBalances
  import opened HoldTotals
  import opened LegacyAccounts

  function Amount(m: Money): int {
    m.amount
  }

  predicate HoldsWellFormed(holds: LegacyHoldStore, c: Currency) {
    forall id | id in holds :: holds[id].currency == c && holds[id].amount > 0
  }

  ghost predicate Valid(a: LegacyAccount) {
    match a.options
    case None => a.balances.None? && a.holds == map[]
    case Some(o) =>
      && a.balances.Some?
      && a.balances.value.available.currency == o.nativeCurrency
      && a.balances.value.hold.currency == o.nativeCurrency
      && a.balances.value.available.amount >= 0
      && HoldsWellFormed(a.holds, o.nativeCurrency)
      && a.balances.value.hold.amount == Total(a.holds, Amount)
  }

  ghost predicate Keeps<R>(a: LegacyAccount, s: Step<R>) {
    Valid(s.account) && (s.result.Err? ==> s.account == a)
  }

  lemma ValidBalancesNonNegative(a: LegacyAccount)
    requires Valid(a) && a.balances.Some?
    ensures a.balances.value.available.amount >= 0
    ensures a.balances.value.hold.amount >= 0
    ensures forall id | id in a.holds :: a.holds[id].amount <= a.balances.value.hold.amount
  {
    TotalOfPositives(a.holds, Amount);
  }

  /** The first init leaves a valid account at zero; a repeated init changes nothing. */
  lemma InitIdempotent(a: LegacyAccount, o: Options, o2: Options)
    requires Valid(a)
    ensures var first := Init(a, o);
      && Keeps(a, first) && first.result.Ok?
      && Init(first.account, o2) == Step(first.account, first.result)
  {
    if a.options.None? {
      assert a.holds == map[];
    }
  }

  lemma DebitKeepsValid(a: LegacyAccount, amount: Money, holdId: Option<HoldId>)
    requires Valid(a) && amount.amount >= 0
    ensures Keeps(a, Debit(a, amount, holdId))
  {
    var r := Debit(a, amount, holdId);
    if a.balances.Some? && a.options.Some? && DebitsDecreaseBalance(a.options.value.accountType) &&
       holdId.Some? && holdId.value in a.holds {
      var id := holdId.value;
      ValidBalancesNonNegative(a);
      if r.result.Ok? {
        var left := Money(amount.currency, a.holds[id].amount - amount.amount);
        if left.amount == 0 {
          TotalDelete(a.holds, Amount, id);
        } else {
          TotalUpdate(a.holds, Amount, id, left);
        }
      }
    }
  }

  lemma CreditKeepsValid(a: LegacyAccount, amount: Money)
    requires Valid(a) && amount.amount >= 0
    ensures Keeps(a, Credit(a, amount))
  {
  }

  /** Placing a hold keeps the invariant when the drawn id is fresh (the source draws a
      random one). */
  lemma HoldKeepsValid(a: LegacyAccount, freshId: HoldId, amount: Money)
    requires Valid(a) && amount.amount >= 0 && freshId !in a.holds
    ensures Keeps(a, LegacyAccounts.Hold(a, freshId, amount))
  {
    var r := LegacyAccounts.Hold(a, freshId, amount);
    if r.result.Ok? && amount.amount != 0 {
      TotalUpdate(a.holds, Amount, freshId, amount);
    }
  }

  /** A hold whose id collides with an existing one fails, but only after the balances have
      moved: the holds are untouched, the aggregate hold has grown by the amount, and the
      account no longer satisfies the invariant. */
  lemma HoldCollisionBreaksHoldTotal(a: LegacyAccount, freshId: HoldId, amount: Money)
    requires Valid(a) && a.balances.Some? && freshId in a.holds && amount.amount > 0
    requires DebitsDecreaseBalance(a.options.value.accountType)
    requires amount.currency == a.options.value.nativeCurrency
    requires a.balances.value.available.amount >= amount.amount
    ensures var r := LegacyAccounts.Hold(a, freshId, amount);
      var b := a.balances.value;
      && r.result == Err(HoldAlreadyPresent)
      && r.account.holds == a.holds
      && r.account.balances == Some(Balances(Money(amount.currency, b.available.amount - amount.amount),
                                             Money(amount.currency, b.hold.amount + amount.amount)))
      && !Valid(r.account)
  {
    var v := AccountBalances.GetExisting(a.balances).value;
    var v2 := AccountBalances.Hold(v, amount).value;
    assert LegacyAccounts.Hold(a, freshId, amount) == Step(CloseBalances(a, v2), Err(HoldAlreadyPresent));
  }

  lemma ReleaseHoldKeepsValid(a: LegacyAccount, id: HoldId)
    requires Valid(a)
    ensures Keeps(a, LegacyAccounts.ReleaseHold(a, id))
    ensures a.balances.Some? && id in a.holds ==> LegacyAccounts.ReleaseHold(a, id).result.Ok?
  {
    if a.balances.Some? && id in a.holds {
      ValidBalancesNonNegative(a);
      TotalDelete(a.holds, Amount, id);
    }
  }

  /** Releasing a hold that was just placed returns its amount and restores the account. */
  lemma HoldThenRelease(a: LegacyAccount, freshId: HoldId, amount: Money)
    requires Valid(a) && amount.amount > 0 && LegacyAccounts.Hold(a, freshId, amount).result.Ok?
    ensures var placed := LegacyAccounts.Hold(a, freshId, amount).account;
      var released := LegacyAccounts.ReleaseHold(placed, freshId);
      && released.result.Ok?
      && released.result.value.releasedAmount == amount
      && released.account == a
  {
    var placed := LegacyAccounts.Hold(a, freshId, amount).account;
    HoldKeepsValid(a, freshId, amount);
    ReleaseHoldKeepsValid(placed, freshId);
    assert placed.holds - {freshId} == a.holds;
  }

  /** Debiting through one hold leaves every other hold as it was. */
  lemma DebitLeavesOtherHolds(a: LegacyAccount, amount: Money, id: HoldId, other: HoldId)
    requires other != id && other in a.holds
    requires Debit(a, amount, Some(id)).result.Ok?
    ensures var after := Debit(a, amount, Some(id)).account.holds;
      other in after && after[other] == a.holds[other]
  {
  }

  /** The released-hold summary of the code as written names the account, so it differs from
      the released hold whenever the two ids differ. */
  lemma ReleaseSummaryNamesAccount(a: LegacyAccount, accountId: AccountId, id: HoldId)
    requires Valid(a) && a.balances.Some? && id in a.holds && accountId != id
    ensures ReleaseHoldAsWritten(a, accountId, id).result.Ok?
    ensures ReleaseHoldAsWritten(a, accountId, id).result.value.holdSummary.holdId != id
    ensures LegacyAccounts.ReleaseHold(a, id).result.value.holdSummary.holdId == id
  {
    ReleaseHoldKeepsValid(a, id);
  }
}
