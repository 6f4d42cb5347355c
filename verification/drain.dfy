/** The drain used by a transactional debit: take an amount from a list of holds
    first, in list order, and the rest from the account's available balance.

    The views passed in are the very objects the handler later flushes, so the
    drain returns them in whatever state they reached, also when it fails.
 */
module Draining {
  import opened Common
  import opened Monetary
  import opened BalanceChecks
  import opened AccountBalances
  import opened HoldBalances

  function MinInt(a: int, b: int): int {
    if a <= b then a else b
  }

  function MaxInt(a: int, b: int): int {
    if a >= b then a else b
  }

  /** Sum of the hold balances, ignoring currencies. */
  function BalanceSum(holds: seq<HoldView>): int {
    if holds == [] then 0 else holds[0].state.balance.amount + BalanceSum(holds[1..])
  }

  /** Reference definition of the greedy split: hold `i` gives what is still owed
      after the holds before it, capped by its own balance. */
  function Drawn(holds: seq<HoldView>, amount: int, i: nat): int
    requires i < |holds|
  {
    MinInt(holds[i].state.balance.amount, MaxInt(0, amount - BalanceSum(holds[..i])))
  }

  /** The hold view after `d` has been taken from it. */
  function Reduced(v: HoldView, d: int): HoldView {
    HoldView(v.holdId, HoldState(v.state.details, Money(v.state.balance.currency, v.state.balance.amount - d)),
             v.flushNeeded || d != 0)
  }

  /** The views (and the amount still owed) as they stand when the drain stops. */
  datatype Drained = Drained(holds: seq<HoldView>, account: BalancesView, remaining: Money, outcome: Outcome)

  /** The situation in which a drain cannot trip over a currency or a short hold balance:
      non-negative holds in one currency, all of them reflected in the account's hold balance. */
  predicate Drainable(holds: seq<HoldView>, account: BalancesView, remaining: Money) {
    && (forall i :: 0 <= i < |holds| ==> holds[i].state.balance.currency == remaining.currency)
    && (forall i :: 0 <= i < |holds| ==> holds[i].state.balance.amount >= 0)
    && account.state.hold.currency == remaining.currency
    && account.state.hold.amount >= BalanceSum(holds)
  }

  lemma {:induction false} BalanceSumNonNegative(holds: seq<HoldView>)
    requires forall i :: 0 <= i < |holds| ==> holds[i].state.balance.amount >= 0
    ensures BalanceSum(holds) >= 0
    decreases |holds|
  {
    if holds != [] {
      BalanceSumNonNegative(holds[1..]);
    }
  }

  /** When nothing is owed, no hold gives anything. */
  lemma NothingOwedDrawsNothing(holds: seq<HoldView>)
    ensures (forall i :: 0 <= i < |holds| ==> holds[i].state.balance.amount >= 0) ==>
      BalanceSum(holds) >= 0 && forall i :: 0 <= i < |holds| ==> Drawn(holds, 0, i) == 0
  {
    if forall i :: 0 <= i < |holds| ==> holds[i].state.balance.amount >= 0 {
      BalanceSumNonNegative(holds);
      forall i | 0 <= i < |holds|
        ensures Drawn(holds, 0, i) == 0
      {
        BalanceSumNonNegative(holds[..i]);
      }
    }
  }

  /** Moving past the first hold shifts the reference split by one position. */
  lemma DrawnShift(holds: seq<HoldView>, amount: int, i: nat)
    requires 0 < i < |holds|
    requires forall j :: 0 <= j < |holds| ==> holds[j].state.balance.amount >= 0
    requires amount >= 0
    ensures Drawn(holds, amount, i) == Drawn(holds[1..], amount - Drawn(holds, amount, 0), i - 1)
  {
    assert holds[..i][1..] == holds[1..][..i - 1];
    assert holds[..0] == [];
    BalanceSumNonNegative(holds[1..][..i - 1]);
  }

  /** The loop over the holds.  It stops early once nothing is owed, and fails on a
      non-positive amount owed or a currency mismatch. */
  function DrainHolds(holds: seq<HoldView>, account: BalancesView, remaining: Money): (r: Drained)
    ensures |r.holds| == |holds|
    ensures holds != [] && remaining.amount < 0 ==> r == Drained(holds, account, remaining, Fail(NonPositiveAmount))
    ensures remaining.amount == 0 ==> r == Drained(holds, account, remaining, Pass)
    decreases |holds|
  {
    if holds == [] then Drained([], account, remaining, Pass)
    else if IsZero(remaining) then Drained(holds, account, remaining, Pass)
    else
      match EnsurePositive(remaining)
      case Fail(e) => Drained(holds, account, remaining, Fail(e))
      case Pass =>
        match Min(holds[0].state.balance, remaining)
        case Err(e) => Drained(holds, account, remaining, Fail(e))
        case Ok(m) =>
          if IsZero(m) then
            var rest := DrainHolds(holds[1..], account, remaining);
            Drained([holds[0]] + rest.holds, rest.account, rest.remaining, rest.outcome)
          else
            match HoldBalances.SubtractAvailable(holds[0], m)
            case Err(e) => Drained(holds, account, remaining, Fail(e))
            case Ok(h) =>
              match SubtractHold(account, m)
              case Err(e) => Drained([h] + holds[1..], account, remaining, Fail(e))
              case Ok(a) =>
                var rest := DrainHolds(holds[1..], a, Subtract(remaining, m).value);
                Drained([h] + rest.holds, rest.account, rest.remaining, rest.outcome)
  }

  /** Each hold reduced by its share of the reference split of `amount`. */
  predicate GreedyHolds(holds: seq<HoldView>, amount: int, out: seq<HoldView>) {
    && |out| == |holds|
    && forall i :: 0 <= i < |holds| ==> out[i] == Reduced(holds[i], Drawn(holds, amount, i))
  }

  /** What the loop should leave behind, by the reference split. */
  predicate IsGreedyDrain(holds: seq<HoldView>, account: BalancesView, remaining: Money, r: Drained) {
    && r.outcome == Pass
    && remaining.amount >= 0
    && GreedyHolds(holds, remaining.amount, r.holds)
    && r.remaining == Money(remaining.currency, MaxInt(0, remaining.amount - BalanceSum(holds)))
    && r.account.state.available == account.state.available
    && r.account.state.hold ==
       Money(remaining.currency, account.state.hold.amount - MinInt(remaining.amount, BalanceSum(holds)))
    && (r.account.flushNeeded <==> account.flushNeeded || MinInt(remaining.amount, BalanceSum(holds)) > 0)
  }

  /** One step of the loop: the first hold gives `d`, and the greedy shape of the rest
      carries over to the whole. */
  lemma GreedyStep(holds: seq<HoldView>, account: BalancesView, remaining: Money, d: int,
                   next: BalancesView, rest: Drained)
    requires holds != [] && Drainable(holds, account, remaining) && remaining.amount > 0
    requires d == Drawn(holds, remaining.amount, 0)
    requires next.state.available == account.state.available
    requires next.state.hold == Money(remaining.currency, account.state.hold.amount - d)
    requires next.flushNeeded == (account.flushNeeded || d > 0)
    requires IsGreedyDrain(holds[1..], next, Money(remaining.currency, remaining.amount - d), rest)
    ensures IsGreedyDrain(holds, account, remaining,
                          Drained([Reduced(holds[0], d)] + rest.holds, rest.account, rest.remaining, rest.outcome))
  {
    var r := Drained([Reduced(holds[0], d)] + rest.holds, rest.account, rest.remaining, rest.outcome);
    assert holds[..0] == [];
    BalanceSumNonNegative(holds[1..]);
    forall i | 0 < i < |holds|
      ensures r.holds[i] == Reduced(holds[i], Drawn(holds, remaining.amount, i))
    {
      DrawnShift(holds, remaining.amount, i);
    }
  }

  /** The first hold has nothing to give (or nothing is taken from it). */
  lemma SkipCase(holds: seq<HoldView>, account: BalancesView, remaining: Money)
    requires holds != [] && Drainable(holds, account, remaining) && remaining.amount > 0
    requires holds[0].state.balance.amount == 0
    requires IsGreedyDrain(holds[1..], account, remaining, DrainHolds(holds[1..], account, remaining))
    ensures IsGreedyDrain(holds, account, remaining, DrainHolds(holds, account, remaining))
  {
    var rest := DrainHolds(holds[1..], account, remaining);
    assert holds[..0] == [];
    assert Drawn(holds, remaining.amount, 0) == 0;
    assert DrainHolds(holds, account, remaining) ==
      Drained([holds[0]] + rest.holds, rest.account, rest.remaining, rest.outcome);
    assert Reduced(holds[0], 0) == holds[0];
    GreedyStep(holds, account, remaining, 0, account, rest);
  }

  /** The first hold gives `min(balance, remaining)`, a non-zero amount. */
  lemma TakeCase(holds: seq<HoldView>, account: BalancesView, remaining: Money)
    requires holds != [] && Drainable(holds, account, remaining) && remaining.amount > 0
    requires holds[0].state.balance.amount > 0
    ensures var d := MinInt(holds[0].state.balance.amount, remaining.amount);
      var a := BalancesView(Balances(account.state.available, Money(remaining.currency, account.state.hold.amount - d)), true);
      var next := Money(remaining.currency, remaining.amount - d);
      Drainable(holds[1..], a, next) && next.amount >= 0 &&
      (IsGreedyDrain(holds[1..], a, next, DrainHolds(holds[1..], a, next)) ==>
       IsGreedyDrain(holds, account, remaining, DrainHolds(holds, account, remaining)))
  {
    var d := MinInt(holds[0].state.balance.amount, remaining.amount);
    var a := BalancesView(Balances(account.state.available, Money(remaining.currency, account.state.hold.amount - d)), true);
    var next := Money(remaining.currency, remaining.amount - d);
    BalanceSumNonNegative(holds[1..]);
    var m := Min(holds[0].state.balance, remaining).value;
    assert m.amount == d;
    assert SubtractHold(account, m) == Ok(a);
    assert Subtract(remaining, m) == Ok(next);
    var h := HoldBalances.SubtractAvailable(holds[0], m).value;
    assert h == Reduced(holds[0], d);
    var rest := DrainHolds(holds[1..], a, next);
    assert DrainHolds(holds, account, remaining) ==
      Drained([h] + rest.holds, rest.account, rest.remaining, rest.outcome);
    assert holds[..0] == [];
    if IsGreedyDrain(holds[1..], a, next, rest) {
      GreedyStep(holds, account, remaining, d, a, rest);
    }
  }

  /** The loop takes from each hold exactly what the reference split says, and from
      the account's hold balance the total of it. */
  lemma {:induction false} DrainHoldsIsGreedy(holds: seq<HoldView>, account: BalancesView, remaining: Money)
    requires Drainable(holds, account, remaining) && remaining.amount >= 0
    ensures IsGreedyDrain(holds, account, remaining, DrainHolds(holds, account, remaining))
    decreases |holds|
  {
    if holds == [] {
    } else if remaining.amount == 0 {
      NothingOwedDrawsNothing(holds);
    } else if holds[0].state.balance.amount == 0 {
      DrainHoldsIsGreedy(holds[1..], account, remaining);
      SkipCase(holds, account, remaining);
    } else {
      var d := MinInt(holds[0].state.balance.amount, remaining.amount);
      var a := BalancesView(Balances(account.state.available, Money(remaining.currency, account.state.hold.amount - d)), true);
      var next := Money(remaining.currency, remaining.amount - d);
      TakeCase(holds, account, remaining);
      DrainHoldsIsGreedy(holds[1..], a, next);
    }
  }

  /** The sum of the hold balances added onto `acc`, left to right. */
  function SumOnto(acc: Money, holds: seq<HoldView>): (r: Result<Money>)
    ensures r.Ok? <==> forall i :: 0 <= i < |holds| ==> holds[i].state.balance.currency == acc.currency
    ensures r.Ok? ==> r.value == Money(acc.currency, acc.amount + BalanceSum(holds))
    decreases |holds|
  {
    if holds == [] then Ok(acc)
    else
      var next :- Add(acc, holds[0].state.balance);
      SumOnto(next, holds[1..])
  }

  /** The whole drain: a sufficiency check over holds plus available, the loop over the
      holds, then the rest from available, and finally the internal check that nothing
      is left owed (the one non-terminal failure). */
  function Drain(holds: seq<HoldView>, account: BalancesView, amount: Money): (r: Drained)
    ensures |r.holds| == |holds|
    ensures (forall i :: 0 <= i < |holds| ==> holds[i].state.balance.currency == amount.currency) &&
            account.state.available.currency == amount.currency &&
            amount.amount > account.state.available.amount + BalanceSum(holds) ==>
            r == Drained(holds, account, amount, Fail(InsufficientBalance))
  {
    match SumOnto(account.state.available, holds)
    case Err(e) => Drained(holds, account, amount, Fail(e))
    case Ok(total) =>
      match CheckEnoughBalance(total, amount)
      case Fail(e) => Drained(holds, account, amount, Fail(e))
      case Pass =>
        var loop := DrainHolds(holds, account, amount);
        if loop.outcome.Fail? then loop
        else
          var remaining := loop.remaining;
          if IsGreaterThan(remaining, Zero(remaining.currency)).value then
            match AccountBalances.SubtractAvailable(loop.account, remaining)
            case Err(e) => Drained(loop.holds, loop.account, remaining, Fail(e))
            case Ok(a) =>
              var left := Subtract(remaining, remaining).value;
              if !IsZero(left) then Drained(loop.holds, a, left, Fail(DrainRemainderNotZero))
              else Drained(loop.holds, a, left, Pass)
          else if !IsZero(remaining) then Drained(loop.holds, loop.account, remaining, Fail(DrainRemainderNotZero))
          else Drained(loop.holds, loop.account, remaining, Pass)
  }

  /** Under the account's invariants the drain succeeds exactly for amounts between zero
      and holds plus available; it then takes the greedy split from the holds and the
      rest from available, and on failure every view is left as it was. */
  lemma DrainIsGreedy(holds: seq<HoldView>, account: BalancesView, amount: Money)
    requires Drainable(holds, account, amount)
    requires account.state.available.currency == amount.currency && account.state.available.amount >= 0
    ensures var r := Drain(holds, account, amount);
      && (r.outcome == Pass <==> 0 <= amount.amount <= account.state.available.amount + BalanceSum(holds))
      && (r.outcome.Fail? ==> r.holds == holds && r.account == account)
      && (r.outcome == Fail(DrainRemainderNotZero) <==> holds == [] && amount.amount < 0)
      && (r.outcome.Fail? && holds != [] && amount.amount < 0 ==> r.outcome.error == NonPositiveAmount)
      && (r.outcome.Pass? ==>
           && GreedyHolds(holds, amount.amount, r.holds)
           && r.account.state.available ==
              Money(amount.currency, account.state.available.amount - MaxInt(0, amount.amount - BalanceSum(holds)))
           && r.account.state.hold ==
              Money(amount.currency, account.state.hold.amount - MinInt(amount.amount, BalanceSum(holds)))
           && (r.account.flushNeeded <==> account.flushNeeded || amount.amount > 0))
  {
    var total := Money(amount.currency, account.state.available.amount + BalanceSum(holds));
    assert SumOnto(account.state.available, holds) == Ok(total);
    if amount.amount > total.amount {
    } else if amount.amount < 0 {
      DrainNegative(holds, account, amount);
    } else {
      DrainInRange(holds, account, amount);
    }
  }

  lemma DrainNegative(holds: seq<HoldView>, account: BalancesView, amount: Money)
    requires Drainable(holds, account, amount)
    requires account.state.available.currency == amount.currency
    requires amount.amount < 0 && amount.amount <= account.state.available.amount + BalanceSum(holds)
    ensures holds != [] ==> Drain(holds, account, amount) == Drained(holds, account, amount, Fail(NonPositiveAmount))
    ensures holds == [] ==> Drain(holds, account, amount) == Drained(holds, account, amount, Fail(DrainRemainderNotZero))
  {
    var total := Money(amount.currency, account.state.available.amount + BalanceSum(holds));
    assert SumOnto(account.state.available, holds) == Ok(total);
    assert CheckEnoughBalance(total, amount) == Pass;
  }

  lemma DrainInRange(holds: seq<HoldView>, account: BalancesView, amount: Money)
    requires Drainable(holds, account, amount)
    requires account.state.available.currency == amount.currency
    requires 0 <= amount.amount <= account.state.available.amount + BalanceSum(holds)
    ensures var r := Drain(holds, account, amount);
      && r.outcome == Pass
      && GreedyHolds(holds, amount.amount, r.holds)
      && r.account.state.available ==
         Money(amount.currency, account.state.available.amount - MaxInt(0, amount.amount - BalanceSum(holds)))
      && r.account.state.hold ==
         Money(amount.currency, account.state.hold.amount - MinInt(amount.amount, BalanceSum(holds)))
      && (r.account.flushNeeded <==> account.flushNeeded || amount.amount > 0)
  {
    var total := Money(amount.currency, account.state.available.amount + BalanceSum(holds));
    assert SumOnto(account.state.available, holds) == Ok(total);
    assert CheckEnoughBalance(total, amount) == Pass;
    var loop := DrainHolds(holds, account, amount);
    DrainHoldsIsGreedy(holds, account, amount);
    var remaining := loop.remaining;
    var fromAvailable := MaxInt(0, amount.amount - BalanceSum(holds));
    assert remaining == Money(amount.currency, fromAvailable);
    assert loop.account.state.available == account.state.available;
    if remaining.amount > 0 {
      var a := AccountBalances.SubtractAvailable(loop.account, remaining);
      assert a.Ok?;
      assert a.value.state.available == Money(amount.currency, account.state.available.amount - fromAvailable);
      assert a.value.state.hold == loop.account.state.hold;
      var r := Drain(holds, account, amount);
      assert r == Drained(loop.holds, a.value, Zero(amount.currency), Pass);
      assert r.account.state.available == Money(amount.currency, account.state.available.amount - fromAvailable);
    } else {
      assert fromAvailable == 0;
      var r := Drain(holds, account, amount);
      assert r == Drained(loop.holds, loop.account, remaining, Pass);
      assert r.account.state.available == Money(amount.currency, account.state.available.amount - fromAvailable);
    }
  }
}
