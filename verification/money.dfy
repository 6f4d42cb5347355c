/** Currency-tagged amounts in minor units with checked arithmetic.

    Every binary operation first checks that both operands carry the same
    currency and fails with a terminal `CurrencyMismatch` otherwise.  The amount
    is an unbounded integer, like the big integer it models; nothing stops it
    from going negative.
 */
module Monetary {
  import opened Common

  /** All supported currencies have two minor units. */
  datatype Currency = USD | EUR | CHF | GBP

  datatype Money = Money(currency: Currency, amount: int)

  function Zero(c: Currency): (r: Money)
    ensures r.currency == c && r.amount == 0
  {
    Money(c, 0)
  }

  /** Fails unless `a` and `b` share a currency. */
  function EnsureCurrencyMatches(a: Money, b: Money): (r: Outcome)
    ensures r.Pass? <==> a.currency == b.currency
    ensures r.Fail? ==> r.error == CurrencyMismatch
  {
    if a.currency == b.currency then Pass else Fail(CurrencyMismatch)
  }

  /** Strict comparison of `a` with `b`. */
  function IsLessThan(a: Money, b: Money): (r: Result<bool>)
    ensures r.Ok? <==> a.currency == b.currency
    ensures r.Err? ==> r.error == CurrencyMismatch
    ensures r.Ok? ==> (r.value <==> a.amount < b.amount)
  {
    match EnsureCurrencyMatches(a, b)
    case Fail(e) => Err(e)
    case Pass =>
      Ok(a.amount < b.amount)
  }

  function IsGreaterThan(a: Money, b: Money): (r: Result<bool>)
    ensures r.Ok? <==> a.currency == b.currency
    ensures r.Err? ==> r.error == CurrencyMismatch
    ensures r.Ok? ==> (r.value <==> b.amount < a.amount)
  {
    match EnsureCurrencyMatches(a, b)
    case Fail(e) => Err(e)
    case Pass =>
      Ok(a.amount > b.amount)
  }

  /** The sum keeps the receiver's currency. */
  function Add(a: Money, b: Money): (r: Result<Money>)
    ensures r.Ok? <==> a.currency == b.currency
    ensures r.Err? ==> r.error == CurrencyMismatch
    ensures r.Ok? ==> r.value.currency == a.currency && r.value.amount == a.amount + b.amount
  {
    match EnsureCurrencyMatches(a, b)
    case Fail(e) => Err(e)
    case Pass =>
      Ok(Money(a.currency, a.amount + b.amount))
  }

  /** The difference keeps the receiver's currency and may be negative. */
  function Subtract(a: Money, b: Money): (r: Result<Money>)
    ensures r.Ok? <==> a.currency == b.currency
    ensures r.Err? ==> r.error == CurrencyMismatch
    ensures r.Ok? ==> r.value.currency == a.currency && r.value.amount == a.amount - b.amount
  {
    match EnsureCurrencyMatches(a, b)
    case Fail(e) => Err(e)
    case Pass =>
      Ok(Money(a.currency, a.amount - b.amount))
  }

  /** Fails unless the amount is strictly positive. */
  function EnsurePositive(a: Money): (r: Outcome)
    ensures r.Fail? <==> a.amount <= 0
    ensures r.Fail? ==> r.error == NonPositiveAmount
  {
    if a.amount <= 0 then Fail(NonPositiveAmount) else Pass
  }

  /** Zero test on the amount alone; the currency plays no part. */
  predicate IsZero(a: Money) {
    a.amount == 0
  }

  /** The smaller of the two; on a tie the argument `b` is returned. */
  function Min(a: Money, b: Money): (r: Result<Money>)
    ensures r.Ok? <==> a.currency == b.currency
    ensures r.Err? ==> r.error == CurrencyMismatch
    ensures r.Ok? ==> (r.value == a || r.value == b)
    ensures r.Ok? ==> r.value.amount <= a.amount && r.value.amount <= b.amount
    ensures r.Ok? && a.amount == b.amount ==> r.value == b
  {
    var less :- IsLessThan(a, b);
    if less then Ok(a) else Ok(b)
  }

  // ---- Properties relating the operations ----

  lemma ZeroIsIdentity(a: Money)
    ensures Add(a, Zero(a.currency)) == Ok(a)
    ensures Subtract(a, Zero(a.currency)) == Ok(a)
    ensures Add(Zero(a.currency), a) == Ok(a)
  {
  }

  lemma AddThenSubtract(a: Money, b: Money)
    requires a.currency == b.currency
    ensures Add(a, b).Ok? && Subtract(Add(a, b).value, b) == Ok(a)
  {
  }

  lemma SubtractThenAdd(a: Money, b: Money)
    requires a.currency == b.currency
    ensures Subtract(a, b).Ok? && Add(Subtract(a, b).value, b) == Ok(a)
  {
  }

  lemma ComparisonsExclusive(a: Money, b: Money)
    requires a.currency == b.currency
    ensures !(IsLessThan(a, b).value && IsGreaterThan(a, b).value)
    ensures !IsLessThan(a, a).value && !IsGreaterThan(a, a).value
    ensures IsLessThan(a, b).value <==> IsGreaterThan(b, a).value
  {
  }

  lemma MismatchFailsEverywhere(a: Money, b: Money)
    requires a.currency != b.currency
    ensures Add(a, b) == Err(CurrencyMismatch) && Subtract(a, b) == Err(CurrencyMismatch)
    ensures IsLessThan(a, b) == Err(CurrencyMismatch) && IsGreaterThan(a, b) == Err(CurrencyMismatch)
    ensures Min(a, b) == Err(CurrencyMismatch)
  {
  }
}
