/** Debit/credit polarity of the five account types.

    Two generations of the table exist.  `DebitsDecreaseBalance` is the table of
    the service generation (src/main/java/com/lekha/account/AccountType.java),
    `LedgerDebitsDecreaseBalance` the later one of the ledger module.  In both,
    credits decrease the balance exactly when debits do not.
 */
module AccountTypes {

  datatype AccountType = Asset | Liability | Equity | Revenue | Expense

  /** Service-generation table. */
  predicate DebitsDecreaseBalance(t: AccountType) {
    match t
    case Asset => false
    case Liability => true
    case Equity => false
    case Revenue => false
    case Expense => true
  }

  predicate CreditsDecreaseBalance(t: AccountType) {
    !DebitsDecreaseBalance(t)
  }

  /** Ledger-module table. */
  predicate LedgerDebitsDecreaseBalance(t: AccountType) {
    match t
    case Asset => false
    case Liability => true
    case Equity => true
    case Revenue => true
    case Expense => false
  }

  predicate LedgerCreditsDecreaseBalance(t: AccountType) {
    !LedgerDebitsDecreaseBalance(t)
  }

  /** Exactly one of debits and credits decreases the balance, in both tables. */
  lemma PolarityIsExclusive(t: AccountType)
    ensures CreditsDecreaseBalance(t) <==> !DebitsDecreaseBalance(t)
    ensures LedgerCreditsDecreaseBalance(t) <==> !LedgerDebitsDecreaseBalance(t)
  {
  }

  /** The service-generation table, read by account type. */
  lemma ServiceTable()
    ensures !DebitsDecreaseBalance(Asset) && CreditsDecreaseBalance(Asset)
    ensures DebitsDecreaseBalance(Liability) && DebitsDecreaseBalance(Expense)
    ensures !DebitsDecreaseBalance(Equity) && !DebitsDecreaseBalance(Revenue)
    ensures forall t :: DebitsDecreaseBalance(t) <==> t in {Liability, Expense}
  {
  }

  /** The ledger-module table, read by account type. */
  lemma LedgerTable()
    ensures !LedgerDebitsDecreaseBalance(Asset) && !LedgerDebitsDecreaseBalance(Expense)
    ensures LedgerDebitsDecreaseBalance(Liability) && LedgerDebitsDecreaseBalance(Equity)
    ensures LedgerDebitsDecreaseBalance(Revenue)
    ensures forall t :: LedgerDebitsDecreaseBalance(t) <==> t in {Liability, Equity, Revenue}
  {
  }

  /** The two generations agree on assets and liabilities only. */
  lemma TablesAgreeOnlyOnAssetAndLiability(t: AccountType)
    ensures DebitsDecreaseBalance(t) == LedgerDebitsDecreaseBalance(t) <==> t == Asset || t == Liability
  {
  }
}
