/** The accounts an executor talks to, as a map from account id to stored account state,
    and the dispatch of one operation to the handler of the account it names
    (src/main/java/com/lekha/transfer/Executor.java, ledger/src/main/java/com/lekha/transfer/Executor.java).

    An id with no entry is an account nobody has initialised.  A remote call becomes a
    plain call of the handler; whatever the handler writes is stored back, on success
    and on failure alike.
 */
module Worlds {
  import opened Common
  import opened Monetary
  import opened AccountBalances
  import opened HoldBalances
  import opened Accounts
  import opened AccountInvariant
  import opened AccountTypes
  import opened AccountOptionsStates
  import Op = Operations

  type World = map<AccountId, Account>

  datatype Exec = Exec(world: World, result: Result<Op.OperationResult>)

  /** An account never written reads as uninitialised. */
  function Get(w: World, id: AccountId): Account {
    if id in w then w[id] else Uninitialised
  }

  function Put(w: World, id: AccountId, a: Account): (r: World)
    ensures Get(r, id) == a
    ensures forall other | other != id :: Get(r, other) == Get(w, other)
  {
    Store(w, id, a, Uninitialised)
  }

  /** The handlers behind the world take their polarity from the service-generation table: a
      debit of an empty expense account is refused for want of balance, although the ledger
      module's table would have it raise the balance. */
  lemma ExpenseDebitFollowsServiceTable(id: AccountId)
    ensures var a := Account(Some(Options(Expense, USD)), Some(Empty(USD)), map[]);
      var r := Execute(map[id := a], Op.Debit(id, Money(USD, 5)));
      && r.result.Err?
      && Get(r.world, id) == a
      && DebitsDecreaseBalance(Expense) && !LedgerDebitsDecreaseBalance(Expense)
  {
    var a := Account(Some(Options(Expense, USD)), Some(Empty(USD)), map[]);
    assert Accounts.Debit(a, Money(USD, 5)).result.Err?;
  }

  function BalancesResult(r: Result<Balances>, debit: bool): (res: Result<Op.OperationResult>)
    ensures res.Ok? == r.Ok?
  {
    match r
    case Err(e) => Err(e)
    case Ok(b) => Ok(if debit then Op.DebitResult(b) else Op.CreditResult(b))
  }

  /** Runs `op` on the account it names. */
  function Execute(w: World, op: Op.AccountOperation): (r: Exec)
    ensures r.result.Ok? ==> Op.Matches(op, r.result.value)
    ensures forall other | other != op.accountId :: Get(r.world, other) == Get(w, other)
  {
    var id := op.accountId;
    var a := Get(w, id);
    match op
    case Debit(_, amount) =>
      var s := Accounts.Debit(a, amount);
      Exec(Put(w, id, s.account), BalancesResult(s.result, true))
    case AsyncDebit(_, amount) =>
      var s := Accounts.Debit(a, amount);
      Exec(Put(w, id, s.account), BalancesResult(s.result, true))
    case Credit(_, amount) =>
      var s := Accounts.Credit(a, amount);
      Exec(Put(w, id, s.account), BalancesResult(s.result, false))
    case Hold(_, holdId, amount) =>
      var s := Accounts.Hold(a, User, holdId, amount);
      Exec(Put(w, id, s.account),
           if s.result.Ok? then Ok(Op.HoldResult(s.result.value.summary, s.result.value.holdSummary))
           else Err(s.result.error))
    case ReleaseHold(_, holdId) =>
      var s := Accounts.ReleaseHold(a, User, holdId);
      Exec(Put(w, id, s.account),
           if s.result.Ok?
           then Ok(Op.ReleaseHoldResult(s.result.value.summary, s.result.value.holdSummary, s.result.value.releasedAmount))
           else Err(s.result.error))
    case DebitHold(_, holdId, amount) =>
      var s := Accounts.DebitHold(a, holdId, amount);
      Exec(Put(w, id, s.account),
           if s.result.Ok? then Ok(Op.DebitHoldResult(s.result.value.summary, s.result.value.holdSummary))
           else Err(s.result.error))
    case CreditHold(_, holdId, amount) =>
      var s := Accounts.CreditHold(a, User, holdId, amount);
      Exec(Put(w, id, s.account),
           if s.result.Ok? then Ok(Op.CreditHoldResult(s.result.value.summary, s.result.value.holdSummary))
           else Err(s.result.error))
    case TransactionalDebit(_, tx, amount) =>
      var s := Accounts.TransactionalDebit(a, tx, amount);
      Exec(Put(w, id, s.account),
           if s.result.Ok? then Ok(Op.TransactionalDebitResult(s.result.value.summary, s.result.value.holdSummary))
           else Err(s.result.error))
    case TransactionalCredit(_, tx, amount) =>
      var s := Accounts.TransactionalCredit(a, tx, amount);
      Exec(Put(w, id, s.account),
           if s.result.Ok? then Ok(Op.TransactionalCreditResult(s.result.value.summary, s.result.value.holdSummary))
           else Err(s.result.error))
    case TransactionalHold(_, tx, amount) =>
      var s := Accounts.TransactionalHold(a, tx, amount);
      Exec(Put(w, id, s.account),
           if s.result.Ok? then Ok(Op.TransactionalHoldResult(s.result.value.summary, s.result.value.holdSummary))
           else Err(s.result.error))
    case TransactionalReleaseHold(_, tx) =>
      var s := Accounts.TransactionReleaseHold(a, tx);
      Exec(Put(w, id, s.account),
           if s.result.Ok?
           then Ok(Op.TransactionalReleaseHoldResult(s.result.value.summary, s.result.value.holdSummary, s.result.value.releasedAmount))
           else Err(s.result.error))
  }

  // ---- The invariant over a world ----

  ghost predicate ValidWorld(w: World) {
    forall id | id in w :: Valid(w[id])
  }

  lemma ValidGet(w: World, id: AccountId)
    requires ValidWorld(w)
    ensures Valid(Get(w, id))
  {
    if id !in w {
      UninitialisedIsValid();
    }
  }

  /** The amount an operation carries is not negative (operations without one qualify). */
  predicate NonNegative(op: Op.AccountOperation) {
    op.ReleaseHold? || op.TransactionalReleaseHold? || op.amount.amount >= 0
  }

  /** Storing a valid account keeps every account valid, and storing back the account
      already there changes nothing. */
  lemma PutKeepsValid(w: World, id: AccountId, b: Account)
    requires ValidWorld(w) && Valid(b)
    ensures ValidWorld(Put(w, id, b))
    ensures b == Get(w, id) ==> Put(w, id, b) == w
  {
    var r := Put(w, id, b);
    forall other | other in r
      ensures Valid(r[other])
    {
      assert r[other] == Get(r, other);
      if other != id {
        ValidGet(w, other);
      }
    }
  }

  /** Every operation with a non-negative amount keeps every account valid, and one that
      fails leaves the world exactly as it was. */
  lemma ExecuteKeepsValid(w: World, op: Op.AccountOperation)
    requires ValidWorld(w) && NonNegative(op)
    ensures ValidWorld(Execute(w, op).world)
    ensures Execute(w, op).result.Err? ==> Execute(w, op).world == w
  {
    var id := op.accountId;
    var a := Get(w, id);
    ValidGet(w, id);
    match op
    case Debit(_, amount) =>
      DebitKeepsValid(a, amount);
      PutKeepsValid(w, id, Accounts.Debit(a, amount).account);
    case AsyncDebit(_, amount) =>
      DebitKeepsValid(a, amount);
      PutKeepsValid(w, id, Accounts.Debit(a, amount).account);
    case Credit(_, amount) =>
      CreditKeepsValid(a, amount);
      PutKeepsValid(w, id, Accounts.Credit(a, amount).account);
    case Hold(_, holdId, amount) =>
      HoldKeepsValid(a, User, holdId, amount);
      PutKeepsValid(w, id, Accounts.Hold(a, User, holdId, amount).account);
    case ReleaseHold(_, holdId) =>
      ReleaseHoldKeepsValid(a, User, holdId);
      PutKeepsValid(w, id, Accounts.ReleaseHold(a, User, holdId).account);
    case DebitHold(_, holdId, amount) =>
      DebitHoldKeepsValid(a, holdId, amount);
      PutKeepsValid(w, id, Accounts.DebitHold(a, holdId, amount).account);
    case CreditHold(_, holdId, amount) =>
      CreditHoldKeepsValid(a, User, holdId, amount);
      PutKeepsValid(w, id, Accounts.CreditHold(a, User, holdId, amount).account);
    case TransactionalDebit(_, tx, amount) =>
      TransactionalDebitKeepsValid(a, tx, amount);
      PutKeepsValid(w, id, Accounts.TransactionalDebit(a, tx, amount).account);
    case TransactionalCredit(_, tx, amount) =>
      TransactionalCreditKeepsValid(a, tx, amount);
      PutKeepsValid(w, id, Accounts.TransactionalCredit(a, tx, amount).account);
    case TransactionalHold(_, tx, amount) =>
      HoldKeepsValid(a, Transaction, tx, amount);
      PutKeepsValid(w, id, Accounts.TransactionalHold(a, tx, amount).account);
    case TransactionalReleaseHold(_, tx) =>
      ReleaseHoldKeepsValid(a, Transaction, tx);
      PutKeepsValid(w, id, Accounts.TransactionReleaseHold(a, tx).account);
  }

  /** The operations a non-transactional plan is made of, when the async debit is undone by
      a credit: each is undone exactly by its reversal. */
  predicate Restorable(op: Op.AccountOperation, asyncReversal: (AccountId, Money) -> Op.AccountOperation) {
    && NonNegative(op)
    && (op.Debit? || op.Credit? || op.DebitHold? ||
        (op.AsyncDebit? && asyncReversal(op.accountId, op.amount) == Op.Credit(op.accountId, op.amount)))
  }

  /** Running a restorable operation and then its reversal succeeds and gives back the world. */
  lemma ReversalRestores(w: World, op: Op.AccountOperation,
                         asyncReversal: (AccountId, Money) -> Op.AccountOperation)
    requires ValidWorld(w) && Restorable(op, asyncReversal) && Execute(w, op).result.Ok?
    ensures var e := Execute(w, op);
      var back := Execute(e.world, Op.Reversed(op, e.result.value, asyncReversal));
      back.result.Ok? && back.world == w
  {
    var id := op.accountId;
    var a := Get(w, id);
    ValidGet(w, id);
    var e := Execute(w, op);
    var rev := Op.Reversed(op, e.result.value, asyncReversal);
    assert rev.accountId == id;
    match op
    case Debit(_, amount) => DebitThenCredit(a, amount);
    case AsyncDebit(_, amount) => DebitThenCredit(a, amount);
    case Credit(_, amount) => CreditThenDebit(a, amount);
    case DebitHold(_, holdId, amount) => DebitHoldThenCreditHold(a, holdId, amount);
    var back := Execute(e.world, rev);
    assert Get(back.world, id) == a;
    assert back.world == w;
  }

  /** An operation that its reversal undoes when it runs on `w`: a restorable one, or a
      non-negative transactional credit or debit on an account whose transaction hold is
      absent or of the transaction type, the debit only when that hold covers it. */
  predicate RestorableAt(w: World, op: Op.AccountOperation, asyncReversal: (AccountId, Money) -> Op.AccountOperation) {
    || Restorable(op, asyncReversal)
    || (&& NonNegative(op)
        && (op.TransactionalCredit? || op.TransactionalDebit?)
        && TxHoldTyped(Get(w, op.accountId), op.transactionId)
        && (op.TransactionalDebit? ==> CoveredByTxHold(Get(w, op.accountId), op.transactionId, op.amount)))
  }

  /** Running an operation that is restorable where it runs, and then its reversal, succeeds
      and gives back the world. */
  lemma ReversalRestoresAt(w: World, op: Op.AccountOperation,
                           asyncReversal: (AccountId, Money) -> Op.AccountOperation)
    requires ValidWorld(w) && RestorableAt(w, op, asyncReversal) && Execute(w, op).result.Ok?
    ensures var e := Execute(w, op);
      var back := Execute(e.world, Op.Reversed(op, e.result.value, asyncReversal));
      back.result.Ok? && back.world == w
  {
    if Restorable(op, asyncReversal) {
      ReversalRestores(w, op, asyncReversal);
    } else {
      var id := op.accountId;
      var a := Get(w, id);
      ValidGet(w, id);
      var e := Execute(w, op);
      var rev := Op.Reversed(op, e.result.value, asyncReversal);
      assert rev.accountId == id;
      match op
      case TransactionalCredit(_, tx, amount) => TransactionalCreditThenDebit(a, tx, amount);
      case TransactionalDebit(_, tx, amount) => TransactionalDebitThenCredit(a, tx, amount);
      var back := Execute(e.world, rev);
      assert Get(back.world, id) == a;
      assert back.world == w;
    }
  }

  /** An operation sees only the account it names: two worlds that agree on it give the same
      result and the same new state for it. */
  lemma ExecuteLocal(w1: World, w2: World, op: Op.AccountOperation)
    requires Get(w1, op.accountId) == Get(w2, op.accountId)
    ensures Execute(w1, op).result == Execute(w2, op).result
    ensures Get(Execute(w1, op).world, op.accountId) == Get(Execute(w2, op).world, op.accountId)
  {
  }
}
