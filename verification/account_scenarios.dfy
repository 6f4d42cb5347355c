/** The account scenarios of the service generation's tests
    (src/test/java/com/lekha/account/AccountTest.java), stated with their numbers.  Each
    starts from a freshly initialised account in the test currency; hold and transaction
    ids, which the tests draw at random, are parameters. */
module AccountScenarios {
  import opened Common
  import opened Monetary
  import opened AccountTypes
  import opened AccountOptionsStates
  import opened AccountBalances
  import opened HoldBalances
  import opened Accounts
  import opened HoldTotals
  import opened AccountInvariant

  function M(n: int): Money {
    Money(USD, n)
  }

  function Fresh(t: AccountType): Account {
    Init(Uninitialised, Options(t, USD)).account
  }

  /** A fresh account has zero available and zero on hold. */
  lemma InitStartsAtZero(t: AccountType)
    ensures Init(Uninitialised, Options(t, USD)).result == Ok(Balances(M(0), M(0)))
    ensures GetSummary(Fresh(t)) == Ok(Balances(M(0), M(0)))
  {
  }

  /** A liability credited 1000 and debited 750 holds 250. */
  lemma LiabilityCreditThenDebit()
    ensures var s1 := Credit(Fresh(Liability), M(1000));
      var s2 := Debit(s1.account, M(750));
      && s1.result == Ok(Balances(M(1000), M(0)))
      && s2.result == Ok(Balances(M(250), M(0)))
      && GetSummary(s2.account) == Ok(Balances(M(250), M(0)))
  {
  }

  /** An asset debited 1000 and credited 750 holds 250. */
  lemma AssetDebitThenCredit()
    ensures var s1 := Debit(Fresh(Asset), M(1000));
      var s2 := Credit(s1.account, M(750));
      && s1.result == Ok(Balances(M(1000), M(0)))
      && s2.result == Ok(Balances(M(250), M(0)))
      && GetSummary(s2.account) == Ok(Balances(M(250), M(0)))
  {
  }

  /** A liability holding 1000 places a hold of 750 and then debits 525 from it: available
      stays at 250, and the hold and the hold total drop to 225. */
  lemma HoldThenDebitHold(h: HoldId)
    ensures var s1 := Accounts.Hold(Credit(Fresh(Liability), M(1000)).account, User, h, M(750));
      var s2 := DebitHold(s1.account, h, M(525));
      && s1.result == Ok(HoldResult(Balances(M(250), M(750)), HoldSummary(h, User, M(750))))
      && s2.result == Ok(HoldResult(Balances(M(250), M(225)), HoldSummary(h, User, M(225))))
  {
    var o := Some(Options(Liability, USD));
    var a0 := Credit(Fresh(Liability), M(1000)).account;
    assert a0 == Account(o, Some(Balances(M(1000), M(0))), map[]);
    var a1 := Accounts.Hold(a0, User, h, M(750)).account;
    assert a1 == Account(o, Some(Balances(M(250), M(750))), map[h := HoldState(HoldDetails(h, User), M(750))]);
  }

  /** Two holds of 750 and 75 on 1000; debiting 525 from the first leaves the second alone,
      and releasing the first returns its 225 to available. */
  lemma MultipleHoldsDebitAndRelease(h1: HoldId, h2: HoldId)
    requires h1 != h2
    ensures var s1 := Accounts.Hold(Credit(Fresh(Liability), M(1000)).account, User, h1, M(750));
      var s2 := Accounts.Hold(s1.account, User, h2, M(75));
      var s3 := DebitHold(s2.account, h1, M(525));
      var s4 := Accounts.ReleaseHold(s3.account, User, h1);
      && s2.result == Ok(HoldResult(Balances(M(175), M(825)), HoldSummary(h2, User, M(75))))
      && s3.result == Ok(HoldResult(Balances(M(175), M(300)), HoldSummary(h1, User, M(225))))
      && h2 in s3.account.holds && s3.account.holds[h2].balance == M(75)
      && s4.result.Ok? && s4.result.value.releasedAmount == M(225)
      && s4.result.value.summary == Balances(M(400), M(75))
  {
    var o := Some(Options(Liability, USD));
    var a0 := Credit(Fresh(Liability), M(1000)).account;
    assert a0 == Account(o, Some(Balances(M(1000), M(0))), map[]);
    var a1 := Accounts.Hold(a0, User, h1, M(750)).account;
    assert a1 == Account(o, Some(Balances(M(250), M(750))), map[h1 := HoldState(HoldDetails(h1, User), M(750))]);
    var a2 := Accounts.Hold(a1, User, h2, M(75)).account;
    assert a2 == Account(o, Some(Balances(M(175), M(825))), a1.holds[h2 := HoldState(HoldDetails(h2, User), M(75))]);
    var a3 := DebitHold(a2, h1, M(525)).account;
    assert a3 == Account(o, Some(Balances(M(175), M(300))), a2.holds[h1 := HoldState(HoldDetails(h1, User), M(225))]);
  }

  /** A transactional credit of 563 on a liability lands in the transaction's hold;
      releasing the hold moves it to available and removes the hold. */
  lemma TransactionalCreditThenRelease(tx: TransactionId)
    ensures var s1 := TransactionalCredit(Fresh(Liability), tx, M(563));
      var s2 := TransactionReleaseHold(s1.account, tx);
      && s1.result == Ok(HoldResult(Balances(M(0), M(563)), HoldSummary(tx, Transaction, M(563))))
      && s2.result.Ok? && s2.result.value.summary == Balances(M(563), M(0))
      && s2.result.value.releasedAmount == M(563)
      && s2.result.value.holdSummary.balance == M(0)
      && tx !in s2.account.holds
  {
  }

  /** A transactional debit of 563 with no transaction hold comes out of available, and no
      hold record is left behind. */
  lemma TransactionalDebitWithoutHold(tx: TransactionId)
    ensures var s := TransactionalDebit(Credit(Fresh(Liability), M(1000)).account, tx, M(563));
      && s.result.Ok? && GetSummary(s.account) == Ok(Balances(M(437), M(0)))
      && tx !in s.account.holds
  {
    var a := Credit(Fresh(Liability), M(1000)).account;
    assert a == Account(Some(Options(Liability, USD)), Some(Balances(M(1000), M(0))), map[]);
    TransactionalDebitDrains(a, tx, M(563));
  }

  /** Liability credited 1000 with a transaction hold of 750 credited on top. */
  function WithTransactionHold(tx: TransactionId): (a: Account)
    ensures Valid(a)
    ensures a.options == Some(Options(Liability, USD))
    ensures a.balances == Some(Balances(M(1000), M(750)))
    ensures tx in a.holds && a.holds[tx] == HoldState(HoldDetails(tx, Transaction), M(750))
  {
    TransactionHoldOnCredit(tx);
    TransactionHoldValid(tx);
    TransactionalCredit(Credit(Fresh(Liability), M(1000)).account, tx, M(750)).account
  }

  function TransactionHeld(tx: TransactionId): Account {
    Account(Some(Options(Liability, USD)), Some(Balances(M(1000), M(750))),
            map[tx := HoldState(HoldDetails(tx, Transaction), M(750))])
  }

  lemma TransactionHoldOnCredit(tx: TransactionId)
    ensures TransactionalCredit(Credit(Fresh(Liability), M(1000)).account, tx, M(750)).account == TransactionHeld(tx)
  {
    var a0 := Credit(Fresh(Liability), M(1000)).account;
    assert a0 == Account(Some(Options(Liability, USD)), Some(Balances(M(1000), M(0))), map[]);
  }

  lemma TransactionHoldValid(tx: TransactionId)
    ensures Valid(TransactionHeld(tx))
  {
    var empty: HoldStore := map[];
    TotalUpdate(empty, HoldWeight, tx, HoldState(HoldDetails(tx, Transaction), M(750)));
    assert empty[tx := HoldState(HoldDetails(tx, Transaction), M(750))] == TransactionHeld(tx).holds;
  }

  /** A transactional debit of 350 against a transaction hold of 750 comes out of the hold
      only. */
  lemma TransactionalDebitCoveredByHold(tx: TransactionId)
    ensures var s := TransactionalDebit(WithTransactionHold(tx), tx, M(350));
      && s.result.Ok? && GetSummary(s.account) == Ok(Balances(M(1000), M(400)))
      && tx in s.account.holds && s.account.holds[tx].balance == M(400)
  {
    CoveredByHoldStep(tx);
  }

  /** The account after the debit of 350, field by field. */
  lemma CoveredByHoldStep(tx: TransactionId)
    ensures var a := WithTransactionHold(tx);
      var s := TransactionalDebit(a, tx, M(350));
      && s.result.Ok?
      && s.account.balances == Some(Balances(M(1000), M(400)))
      && s.account.holds == a.holds[tx := HoldState(HoldDetails(tx, Transaction), M(400))]
  {
    var a := WithTransactionHold(tx);
    assert TxHoldBalance(a, tx) == 750;
    TransactionalDebitDrains(a, tx, M(350));
  }

  /** A transactional debit of 853 against a transaction hold of 750 empties the hold,
      removes it, and takes the remaining 103 from available. */
  lemma TransactionalDebitBeyondHold(tx: TransactionId)
    ensures var s := TransactionalDebit(WithTransactionHold(tx), tx, M(853));
      && s.result.Ok? && GetSummary(s.account) == Ok(Balances(M(897), M(0)))
      && tx !in s.account.holds
  {
    var a := WithTransactionHold(tx);
    assert TxHoldBalance(a, tx) == 750;
    TransactionalDebitDrains(a, tx, M(853));
    var s := TransactionalDebit(a, tx, M(853));
    assert s.account.balances == Some(Balances(M(897), M(0)));
  }
}
