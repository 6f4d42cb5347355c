/** The invariant every account of the service generation keeps, and the handlers that keep it.

    An initialised account has balances in its native currency, a non-negative
    available balance, only positive holds in that currency (a hold that reaches
    zero is deleted), and an aggregate hold balance equal to the sum of the
    per-hold balances.  Under the invariant a handler that fails leaves the
    stored state exactly as it was.
 */
module AccountInvariant {
  import opened Common
  import opened Monetary
  import opened BalanceChecks
  import opened AccountTypes
  import opened AccountOptionsStates
  import opened AccountBalances
  import opened HoldBalances
  import opened HoldTotals
  import opened Draining
  import opened Accounts

  function HoldWeight(h: HoldState): int {
    h.balance.amount
  }

  /** Every stored hold sits under its own id, in currency `c`, with a positive balance. */
  predicate HoldsWellFormed(holds: HoldStore, c: Currency) {
    forall id | id in holds ::
      holds[id].details.holdId == id && holds[id].balance.currency == c && holds[id].balance.amount > 0
  }

  ghost predicate Valid(a: Account) {
    match a.options
    case None => a.balances.None? && a.holds == map[]
    case Some(o) =>
      && a.balances.Some?
      && a.balances.value.available.currency == o.nativeCurrency
      && a.balances.value.hold.currency == o.nativeCurrency
      && a.balances.value.available.amount >= 0
      && HoldsWellFormed(a.holds, o.nativeCurrency)
      && a.balances.value.hold.amount == Total(a.holds, HoldWeight)
  }

  /** A handler's step keeps the invariant, and changes nothing when it fails. */
  ghost predicate Keeps<R>(a: Account, s: Step<R>) {
    Valid(s.account) && (s.result.Err? ==> s.account == a)
  }

  // ---- Consequences of the invariant ----

  /** Balances never go negative, and no single hold exceeds the aggregate hold balance. */
  lemma ValidBalancesNonNegative(a: Account)
    requires Valid(a) && a.balances.Some?
    ensures a.balances.value.available.amount >= 0
    ensures a.balances.value.hold.amount >= 0
    ensures forall id | id in a.holds :: a.holds[id].balance.amount <= a.balances.value.hold.amount
    ensures a.balances.value.hold.amount == 0 <==> a.holds == map[]
  {
    TotalOfPositives(a.holds, HoldWeight);
  }

  lemma UninitialisedIsValid()
    ensures Valid(Uninitialised)
  {
  }

  // ---- Init ----

  /** The first init leaves a valid account at zero; a repeated init returns the same
      summary and writes nothing. */
  lemma InitIdempotent(a: Account, o: Options, o2: Options)
    requires Valid(a)
    ensures var first := Init(a, o);
      && Keeps(a, first) && first.result.Ok?
      && Init(first.account, o2) == Step(first.account, first.result)
  {
    if a.options.None? {
      assert a.holds == map[];
    }
  }

  // ---- Debit and credit ----

  lemma DebitKeepsValid(a: Account, amount: Money)
    requires Valid(a) && amount.amount >= 0
    ensures Keeps(a, Debit(a, amount))
  {
  }

  lemma CreditKeepsValid(a: Account, amount: Money)
    requires Valid(a) && amount.amount >= 0
    ensures Keeps(a, Credit(a, amount))
  {
  }

  // ---- Holds ----

  lemma HoldKeepsValid(a: Account, t: HoldType, id: HoldId, amount: Money)
    requires Valid(a) && amount.amount >= 0
    ensures Keeps(a, Accounts.Hold(a, t, id, amount))
  {
    var r := Accounts.Hold(a, t, id, amount);
    if r.result.Ok? && amount.amount != 0 {
      TotalUpdate(a.holds, HoldWeight, id, HoldState(HoldDetails(id, t), amount));
    }
  }

  lemma ReleaseHoldKeepsValid(a: Account, t: HoldType, id: HoldId)
    requires Valid(a)
    ensures Keeps(a, Accounts.ReleaseHold(a, t, id))
    ensures a.balances.Some? && id in a.holds && a.holds[id].details.holdType == t ==>
      Accounts.ReleaseHold(a, t, id).result.Ok?
  {
    if a.balances.Some? && id in a.holds {
      ValidBalancesNonNegative(a);
      TotalDelete(a.holds, HoldWeight, id);
    }
  }

  /** Any amount, even a negative one, keeps the invariant: the hold and the aggregate
      move together. */
  lemma DebitHoldKeepsValid(a: Account, id: HoldId, amount: Money)
    requires Valid(a)
    ensures Keeps(a, DebitHold(a, id, amount))
  {
    var r := DebitHold(a, id, amount);
    if r.result.Ok? {
      ValidBalancesNonNegative(a);
      var left := Money(amount.currency, a.holds[id].balance.amount - amount.amount);
      if left.amount == 0 {
        TotalDelete(a.holds, HoldWeight, id);
      } else {
        TotalUpdate(a.holds, HoldWeight, id, HoldState(a.holds[id].details, left));
      }
    } else if a.balances.Some? && id in a.holds && a.holds[id].details.holdType == User {
      ValidBalancesNonNegative(a);
    }
  }

  lemma CreditHoldKeepsValid(a: Account, t: HoldType, id: HoldId, amount: Money)
    requires Valid(a) && amount.amount >= 0
    ensures Keeps(a, CreditHold(a, t, id, amount))
  {
    var r := CreditHold(a, t, id, amount);
    if r.result.Ok? {
      var details := if id in a.holds then a.holds[id].details else HoldDetails(id, t);
      var before := if id in a.holds then a.holds[id].balance.amount else 0;
      var after := Money(amount.currency, before + amount.amount);
      if after.amount == 0 {
        TotalDelete(a.holds, HoldWeight, id);
      } else {
        TotalUpdate(a.holds, HoldWeight, id, HoldState(details, after));
      }
    }
  }

  // ---- Transactional handlers ----

  /** The transaction's hold balance: zero when no hold is stored under the id. */
  function TxHoldBalance(a: Account, tx: TransactionId): int {
    if tx in a.holds then a.holds[tx].balance.amount else 0
  }

  /** On a type whose debits decrease the balance, a transactional debit in the native
      currency succeeds exactly when the transaction's hold plus available cover it; it then
      takes `min(hold, amount)` from the hold (deleting it at zero) and the rest from
      available.  It fails with an insufficient-balance error, changing nothing, otherwise. */
  lemma TransactionalDebitDrains(a: Account, tx: TransactionId, amount: Money)
    requires Valid(a) && a.options.Some? && DebitsDecreaseBalance(a.options.value.accountType)
    requires amount.currency == a.options.value.nativeCurrency && amount.amount >= 0
    ensures var r := TransactionalDebit(a, tx, amount);
      var b := a.balances.value;
      var h := TxHoldBalance(a, tx);
      var fromHold := MinInt(h, amount.amount);
      var fromAvailable := amount.amount - fromHold;
      && (r.result.Ok? <==> amount.amount <= b.available.amount + h)
      && (r.result.Err? ==> r == Step(a, Err(InsufficientBalance)))
      && (r.result.Ok? ==>
           && r.account.balances == Some(Balances(Money(amount.currency, b.available.amount - fromAvailable),
                                                  Money(amount.currency, b.hold.amount - fromHold)))
           && r.account.options == a.options
           && r.account.holds ==
              (if h - fromHold == 0 then a.holds - {tx}
               else a.holds[tx := HoldState(a.holds[tx].details, Money(amount.currency, h - fromHold))]))
  {
    ValidBalancesNonNegative(a);
    var v := AccountBalances.GetExisting(a.balances).value;
    var hv := GetExistingOrCreate(a.holds, tx, Transaction, amount.currency).value;
    assert BalanceSum([hv]) == TxHoldBalance(a, tx) by {
      assert [hv][1..] == [];
    }
    assert Drainable([hv], v, amount);
    DrainIsGreedy([hv], v, amount);
    var d := Drain([hv], v, amount);
    assert [hv][..0] == [];
    if d.outcome.Pass? {
      assert d.holds[0] == Reduced(hv, Drawn([hv], amount.amount, 0));
    }
  }

  lemma TransactionalDebitKeepsValid(a: Account, tx: TransactionId, amount: Money)
    requires Valid(a) && amount.amount >= 0
    ensures Keeps(a, TransactionalDebit(a, tx, amount))
  {
    if a.options.Some? && DebitsDecreaseBalance(a.options.value.accountType) {
      if amount.currency == a.options.value.nativeCurrency {
        TransactionalDebitDrains(a, tx, amount);
        var r := TransactionalDebit(a, tx, amount);
        if r.result.Ok? {
          var h := TxHoldBalance(a, tx);
          var fromHold := MinInt(h, amount.amount);
          if tx in a.holds {
            if h - fromHold == 0 {
              TotalDelete(a.holds, HoldWeight, tx);
            } else {
              TotalUpdate(a.holds, HoldWeight, tx, HoldState(a.holds[tx].details, Money(amount.currency, h - fromHold)));
            }
          }
        }
      } else {
        TransactionalDebitMismatch(a, tx, amount);
      }
    } else {
      DebitKeepsValid(a, amount);
    }
  }

  /** A transactional debit in a foreign currency fails before anything is taken. */
  lemma TransactionalDebitMismatch(a: Account, tx: TransactionId, amount: Money)
    requires Valid(a) && a.options.Some? && DebitsDecreaseBalance(a.options.value.accountType)
    requires amount.currency != a.options.value.nativeCurrency
    ensures TransactionalDebit(a, tx, amount) == Step(a, Err(CurrencyMismatch))
  {
    var v := AccountBalances.GetExisting(a.balances).value;
    var hv := GetExistingOrCreate(a.holds, tx, Transaction, amount.currency).value;
    if tx in a.holds {
      assert SumOnto(v.state.available, [hv]).Ok?;
      assert CheckEnoughBalance(SumOnto(v.state.available, [hv]).value, amount) == Fail(CurrencyMismatch);
    } else {
      assert SumOnto(v.state.available, [hv]) == Err(CurrencyMismatch);
    }
  }

  lemma TransactionalCreditKeepsValid(a: Account, tx: TransactionId, amount: Money)
    requires Valid(a) && amount.amount >= 0
    ensures Keeps(a, TransactionalCredit(a, tx, amount))
  {
    if a.options.Some? {
      if CreditsDecreaseBalance(a.options.value.accountType) {
        CreditKeepsValid(a, amount);
      } else {
        CreditHoldKeepsValid(a, Transaction, tx, amount);
      }
    }
  }

  // ---- Round trips and frames ----

  /** Releasing a hold that was just placed returns its amount and restores the account. */
  lemma HoldThenRelease(a: Account, t: HoldType, id: HoldId, amount: Money)
    requires Valid(a) && amount.amount > 0 && Accounts.Hold(a, t, id, amount).result.Ok?
    ensures var placed := Accounts.Hold(a, t, id, amount).account;
      var released := Accounts.ReleaseHold(placed, t, id);
      && released.result.Ok?
      && released.result.value.releasedAmount == amount
      && released.account == a
  {
    var placed := Accounts.Hold(a, t, id, amount).account;
    HoldKeepsValid(a, t, id, amount);
    ReleaseHoldKeepsValid(placed, t, id);
    assert placed.holds - {id} == a.holds;
  }

  /** Debiting one user hold leaves every other hold as it was. */
  lemma DebitHoldLeavesOtherHolds(a: Account, id: HoldId, other: HoldId, amount: Money)
    requires other != id && other in a.holds
    requires DebitHold(a, id, amount).result.Ok?
    ensures var after := DebitHold(a, id, amount).account.holds;
      other in after && after[other] == a.holds[other]
  {
  }

  /** A debit is undone by a credit of the same amount: the credit succeeds and the account
      is back where it was. */
  lemma DebitThenCredit(a: Account, amount: Money)
    requires Valid(a) && amount.amount >= 0 && Debit(a, amount).result.Ok?
    ensures var back := Credit(Debit(a, amount).account, amount);
      back.result.Ok? && back.account == a
  {
    PolarityIsExclusive(a.options.value.accountType);
    var b := a.balances.value;
    var after := Debit(a, amount).account;
    var back := Credit(after, amount);
    var delta := if DebitsDecreaseBalance(a.options.value.accountType) then -amount.amount else amount.amount;
    assert WithAvailable(WithAvailable(b, delta), -delta) == b;
  }

  /** A credit is undone by a debit of the same amount. */
  lemma CreditThenDebit(a: Account, amount: Money)
    requires Valid(a) && amount.amount >= 0 && Credit(a, amount).result.Ok?
    ensures var back := Debit(Credit(a, amount).account, amount);
      back.result.Ok? && back.account == a
  {
    PolarityIsExclusive(a.options.value.accountType);
    var b := a.balances.value;
    var delta := if CreditsDecreaseBalance(a.options.value.accountType) then -amount.amount else amount.amount;
    assert WithAvailable(WithAvailable(b, delta), -delta) == b;
  }

  /** Debiting a user hold is undone by crediting the same amount back to it as a user hold,
      even when the debit emptied (and so deleted) the hold. */
  lemma DebitHoldThenCreditHold(a: Account, id: HoldId, amount: Money)
    requires Valid(a) && amount.amount >= 0 && DebitHold(a, id, amount).result.Ok?
    ensures var back := CreditHold(DebitHold(a, id, amount).account, User, id, amount);
      back.result.Ok? && back.account == a
  {
    var b := a.balances.value;
    var h := a.holds[id];
    var after := DebitHold(a, id, amount).account;
    var left := Money(amount.currency, h.balance.amount - amount.amount);
    assert h.details == HoldDetails(id, User);
    assert h.balance == Money(amount.currency, left.amount + amount.amount);
    if left.amount == 0 {
      assert (a.holds - {id})[id := h] == a.holds;
    } else {
      assert a.holds[id := HoldState(h.details, left)][id := h] == a.holds;
    }
    assert Balances(b.available, Money(amount.currency, b.hold.amount - amount.amount + amount.amount)) == b;
  }

  // ---- Transactional round trips ----

  /** The transaction's hold is absent or of the transaction type. */
  predicate TxHoldTyped(a: Account, tx: TransactionId) {
    tx !in a.holds || a.holds[tx].details.holdType == Transaction
  }

  /** On a type whose debits decrease the balance, the transaction's hold alone covers `amount`. */
  predicate CoveredByTxHold(a: Account, tx: TransactionId, amount: Money) {
    a.options.Some? && DebitsDecreaseBalance(a.options.value.accountType) ==> amount.amount <= TxHoldBalance(a, tx)
  }

  /** A transactional credit is undone by a transactional debit of the same amount: on the
      types that credit into the transaction's hold, the debit drains exactly that. */
  lemma TransactionalCreditThenDebit(a: Account, tx: TransactionId, amount: Money)
    requires Valid(a) && amount.amount >= 0 && TxHoldTyped(a, tx)
    requires TransactionalCredit(a, tx, amount).result.Ok?
    ensures var back := TransactionalDebit(TransactionalCredit(a, tx, amount).account, tx, amount);
      back.result.Ok? && back.account == a
  {
    PolarityIsExclusive(a.options.value.accountType);
    if CreditsDecreaseBalance(a.options.value.accountType) {
      CreditThenDebit(a, amount);
    } else {
      HoldCreditUndone(a, tx, amount);
    }
  }

  /** The hold case of the above: the credit goes into the transaction's hold, and the debit
      drains exactly it. */
  lemma HoldCreditUndone(a: Account, tx: TransactionId, amount: Money)
    requires Valid(a) && amount.amount >= 0 && TxHoldTyped(a, tx)
    requires a.options.Some? && !CreditsDecreaseBalance(a.options.value.accountType)
    requires TransactionalCredit(a, tx, amount).result.Ok?
    ensures var back := TransactionalDebit(TransactionalCredit(a, tx, amount).account, tx, amount);
      back.result.Ok? && back.account == a
  {
    PolarityIsExclusive(a.options.value.accountType);
    var after := TransactionalCredit(a, tx, amount).account;
    TransactionalCreditKeepsValid(a, tx, amount);
    var b := a.balances.value;
    var before := TxHoldBalance(a, tx);
    var details := if tx in a.holds then a.holds[tx].details else HoldDetails(tx, Transaction);
    assert after.balances == Some(Balances(b.available, Money(amount.currency, b.hold.amount + amount.amount)));
    assert TxHoldBalance(after, tx) == before + amount.amount;
    TransactionalDebitDrains(after, tx, amount);
    var back := TransactionalDebit(after, tx, amount);
    assert back.account.balances == a.balances;
    if tx in a.holds {
      assert a.holds[tx] == HoldState(details, Money(amount.currency, before));
      assert after.holds == a.holds[tx := HoldState(details, Money(amount.currency, before + amount.amount))];
      assert back.account.holds == a.holds;
    } else if amount.amount == 0 {
      assert after.holds == a.holds;
    } else {
      assert after.holds == a.holds[tx := HoldState(details, amount)];
      assert back.account.holds == a.holds;
    }
  }

  /** A transactional debit covered by the transaction's hold is undone by a transactional
      credit of the same amount. */
  lemma TransactionalDebitThenCredit(a: Account, tx: TransactionId, amount: Money)
    requires Valid(a) && amount.amount >= 0 && TxHoldTyped(a, tx) && CoveredByTxHold(a, tx, amount)
    requires TransactionalDebit(a, tx, amount).result.Ok?
    ensures var back := TransactionalCredit(TransactionalDebit(a, tx, amount).account, tx, amount);
      back.result.Ok? && back.account == a
  {
    var o := a.options.value;
    PolarityIsExclusive(o.accountType);
    if !DebitsDecreaseBalance(o.accountType) {
      DebitThenCredit(a, amount);
    } else if amount.currency != o.nativeCurrency {
      TransactionalDebitMismatch(a, tx, amount);
    } else {
      CoveredDrainUndone(a, tx, amount);
    }
  }

  /** The draining case of the above: the debit takes the whole amount from the hold, and the
      credit puts it back there. */
  lemma CoveredDrainUndone(a: Account, tx: TransactionId, amount: Money)
    requires Valid(a) && amount.amount >= 0 && TxHoldTyped(a, tx) && CoveredByTxHold(a, tx, amount)
    requires a.options.Some? && DebitsDecreaseBalance(a.options.value.accountType)
    requires amount.currency == a.options.value.nativeCurrency
    ensures var back := TransactionalCredit(TransactionalDebit(a, tx, amount).account, tx, amount);
      back.result.Ok? && back.account == a
  {
    PolarityIsExclusive(a.options.value.accountType);
    TransactionalDebitDrains(a, tx, amount);
    var b := a.balances.value;
    var h := TxHoldBalance(a, tx);
    var after := TransactionalDebit(a, tx, amount).account;
    assert after.balances == Some(Balances(b.available, Money(amount.currency, b.hold.amount - amount.amount)));
    var restored := if tx in a.holds then a.holds else a.holds - {tx};
    if tx in a.holds {
      var hs := a.holds[tx];
      assert hs == HoldState(HoldDetails(tx, Transaction), Money(amount.currency, h));
      if h - amount.amount == 0 {
        assert after.holds == a.holds - {tx};
        assert (a.holds - {tx})[tx := hs] == a.holds;
      } else {
        assert after.holds == a.holds[tx := HoldState(hs.details, Money(amount.currency, h - amount.amount))];
        assert after.holds[tx := hs] == a.holds;
      }
    } else {
      assert after.holds == a.holds;
    }
  }

  /** The converse: a transactional debit that draws on available beyond the transaction's
      hold is not undone by the transactional credit, which puts the whole amount into the
      hold.  Available stays short by the overdraw, and the hold is left holding it. */
  lemma TransactionalDebitBeyondHoldStrands(a: Account, tx: TransactionId, amount: Money)
    requires Valid(a) && a.options.Some? && DebitsDecreaseBalance(a.options.value.accountType)
    requires amount.currency == a.options.value.nativeCurrency && TxHoldTyped(a, tx)
    requires TxHoldBalance(a, tx) < amount.amount <= a.balances.value.available.amount + TxHoldBalance(a, tx)
    ensures var back := TransactionalCredit(TransactionalDebit(a, tx, amount).account, tx, amount);
      var overdraw := amount.amount - TxHoldBalance(a, tx);
      && TransactionalDebit(a, tx, amount).result.Ok?
      && back.result.Ok? && back.account != a
      && back.account.balances.value.available.amount == a.balances.value.available.amount - overdraw
      && back.account.balances.value.hold.amount == a.balances.value.hold.amount + overdraw
      && TxHoldBalance(back.account, tx) == TxHoldBalance(a, tx) + overdraw
  {
    ValidBalancesNonNegative(a);
    PolarityIsExclusive(a.options.value.accountType);
    TransactionalDebitDrains(a, tx, amount);
    var after := TransactionalDebit(a, tx, amount).account;
    assert tx !in after.holds;
  }

  /** Releasing a transaction hold that is absent or of the transaction type always
      succeeds: the whole hold moves to available and the hold record is gone. */
  lemma TransactionReleaseMovesHold(a: Account, tx: TransactionId)
    requires Valid(a) && a.balances.Some? && TxHoldTyped(a, tx)
    ensures var r := TransactionReleaseHold(a, tx);
      var b := a.balances.value;
      && r.result.Ok?
      && r.result.value.releasedAmount.amount == TxHoldBalance(a, tx)
      && r.account.balances == Some(Balances(Money(b.available.currency, b.available.amount + TxHoldBalance(a, tx)),
                                             Money(b.hold.currency, b.hold.amount - TxHoldBalance(a, tx))))
      && r.account.options == a.options
      && tx !in r.account.holds
      && (forall id | id != tx && id in a.holds :: id in r.account.holds && r.account.holds[id] == a.holds[id])
  {
    ReleaseHoldKeepsValid(a, Transaction, tx);
    if tx in a.holds {
      ValidBalancesNonNegative(a);
    }
  }
}
