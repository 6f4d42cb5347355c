/** The sufficiency check applied before every balance is reduced. */
module BalanceChecks {
  import opened Common
  import opened Monetary

  /** Fails with a terminal error when `current` is strictly below `amount`
      (or, through the comparison, when their currencies differ). */
  function CheckEnoughBalance(current: Money, amount: Money): (r: Outcome)
    ensures r.Pass? <==> current.currency == amount.currency && current.amount >= amount.amount
    ensures r.Fail? && current.currency != amount.currency ==> r.error == CurrencyMismatch
    ensures r.Fail? && current.currency == amount.currency ==> r.error == InsufficientBalance
  {
    match IsLessThan(current, amount)
    case Err(e) => Fail(e)
    case Ok(less) => if less then Fail(InsufficientBalance) else Pass
  }

  /** Taking exactly the whole balance is allowed. */
  lemma ExactAmountPasses(current: Money)
    ensures CheckEnoughBalance(current, current) == Pass
  {
  }

  /** Passing the check is what makes the subsequent subtraction non-negative. */
  lemma PassingCheckKeepsNonNegative(current: Money, amount: Money)
    requires CheckEnoughBalance(current, amount).Pass?
    ensures Subtract(current, amount).Ok? && Subtract(current, amount).value.amount >= 0
  {
  }
}
