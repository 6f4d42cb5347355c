/** Account operations of the transfer layer (src/main/java/com/lekha/transfer) and their
    compensation table.

    An operation names the account it runs on and carries what the handler needs;
    `Reversed` builds, from an operation and the result it produced, the operation
    that undoes it.  The ledger generation adds `AsyncDebit`, whose definition is
    not part of this model: it runs as a debit and its reversal is supplied by the
    caller.
 */
module Operations {
  import opened Common
  import opened Monetary
  import opened AccountBalances
  import opened HoldBalances

  /** A request to move `amount` from `source` to `destination`, optionally out of a hold
      already placed on the source. */
  datatype MoveMoneyInstruction = MoveMoneyInstruction(
    source: AccountId, destination: AccountId, amount: Money, sourceHoldId: Option<HoldId>)

  datatype AccountOperation =
    | Debit(accountId: AccountId, amount: Money)
    | Credit(accountId: AccountId, amount: Money)
    | Hold(accountId: AccountId, holdId: HoldId, amount: Money)
    | ReleaseHold(accountId: AccountId, holdId: HoldId)
    | DebitHold(accountId: AccountId, holdId: HoldId, amount: Money)
    | CreditHold(accountId: AccountId, holdId: HoldId, amount: Money)
    | TransactionalDebit(accountId: AccountId, transactionId: TransactionId, amount: Money)
    | TransactionalCredit(accountId: AccountId, transactionId: TransactionId, amount: Money)
    | TransactionalHold(accountId: AccountId, transactionId: TransactionId, amount: Money)
    | TransactionalReleaseHold(accountId: AccountId, transactionId: TransactionId)
    | AsyncDebit(accountId: AccountId, amount: Money)

  /** What each operation hands back (an async debit answers with a debit result). */
  datatype OperationResult =
    | DebitResult(summary: Balances)
    | CreditResult(summary: Balances)
    | HoldResult(summary: Balances, holdSummary: HoldSummary)
    | ReleaseHoldResult(summary: Balances, holdSummary: HoldSummary, releasedAmount: Money)
    | DebitHoldResult(summary: Balances, holdSummary: HoldSummary)
    | CreditHoldResult(summary: Balances, holdSummary: HoldSummary)
    | TransactionalDebitResult(summary: Balances, holdSummary: HoldSummary)
    | TransactionalCreditResult(summary: Balances, holdSummary: HoldSummary)
    | TransactionalReleaseHoldResult(summary: Balances, holdSummary: HoldSummary, releasedAmount: Money)
    | TransactionalHoldResult(summary: Balances, holdSummary: HoldSummary)

  /** The result type each operation's `reversed` accepts. */
  predicate Matches(op: AccountOperation, res: OperationResult) {
    match op
    case Debit(_, _) => res.DebitResult?
    case Credit(_, _) => res.CreditResult?
    case Hold(_, _, _) => res.HoldResult?
    case ReleaseHold(_, _) => res.ReleaseHoldResult?
    case DebitHold(_, _, _) => res.DebitHoldResult?
    case CreditHold(_, _, _) => res.CreditHoldResult?
    case TransactionalDebit(_, _, _) => res.TransactionalDebitResult?
    case TransactionalCredit(_, _, _) => res.TransactionalCreditResult?
    case TransactionalHold(_, _, _) => res.TransactionalHoldResult?
    case TransactionalReleaseHold(_, _) => res.TransactionalReleaseHoldResult?
    case AsyncDebit(_, _) => res.DebitResult?
  }

  /** The compensation table.  `asyncReversal` stands for the reversal of an async debit. */
  function Reversed(op: AccountOperation, res: OperationResult,
                    asyncReversal: (AccountId, Money) -> AccountOperation): (r: AccountOperation)
    requires Matches(op, res)
    ensures !op.AsyncDebit? ==> r.accountId == op.accountId
    ensures Independent(op) ==> r == Inverse(op)
    ensures op.ReleaseHold? ==> r == Hold(op.accountId, op.holdId, res.releasedAmount)
    ensures op.TransactionalReleaseHold? ==> r == TransactionalHold(op.accountId, op.transactionId, res.releasedAmount)
  {
    match op
    case Debit(id, amount) => Credit(id, amount)
    case Credit(id, amount) => Debit(id, amount)
    case Hold(id, holdId, _) => ReleaseHold(id, holdId)
    case ReleaseHold(id, holdId) => Hold(id, holdId, res.releasedAmount)
    case DebitHold(id, holdId, amount) => CreditHold(id, holdId, amount)
    case CreditHold(id, holdId, amount) => DebitHold(id, holdId, amount)
    case TransactionalDebit(id, tx, amount) => TransactionalCredit(id, tx, amount)
    case TransactionalCredit(id, tx, amount) => TransactionalDebit(id, tx, amount)
    case TransactionalHold(id, tx, _) => TransactionalReleaseHold(id, tx)
    case TransactionalReleaseHold(id, tx) => TransactionalHold(id, tx, res.releasedAmount)
    case AsyncDebit(id, amount) => asyncReversal(id, amount)
  }

  /** The six operations whose reversal does not depend on the result they produced. */
  predicate Independent(op: AccountOperation) {
    op.Debit? || op.Credit? || op.DebitHold? || op.CreditHold? ||
    op.TransactionalDebit? || op.TransactionalCredit?
  }

  /** The inverse pairs among those six: debit and credit, hold debit and hold credit,
      transactional debit and transactional credit. */
  function Inverse(op: AccountOperation): (r: AccountOperation)
    requires Independent(op)
    ensures Independent(r) && r.accountId == op.accountId && r.amount == op.amount
  {
    match op
    case Debit(id, amount) => Credit(id, amount)
    case Credit(id, amount) => Debit(id, amount)
    case DebitHold(id, holdId, amount) => CreditHold(id, holdId, amount)
    case CreditHold(id, holdId, amount) => DebitHold(id, holdId, amount)
    case TransactionalDebit(id, tx, amount) => TransactionalCredit(id, tx, amount)
    case TransactionalCredit(id, tx, amount) => TransactionalDebit(id, tx, amount)
  }

  /** Reversing a result-independent operation twice gives back the operation, whatever
      results the two runs produced. */
  lemma ReversedTwice(op: AccountOperation, first: OperationResult, second: OperationResult,
                      asyncReversal: (AccountId, Money) -> AccountOperation)
    requires Independent(op) && Matches(op, first)
    requires Matches(Reversed(op, first, asyncReversal), second)
    ensures Reversed(Reversed(op, first, asyncReversal), second, asyncReversal) == op
  {
  }

  /** A hold is undone by releasing it, and the release is undone by holding again exactly
      the amount the release reported. */
  lemma HoldReversalCycle(op: AccountOperation, placed: OperationResult, released: OperationResult,
                          asyncReversal: (AccountId, Money) -> AccountOperation)
    requires (op.Hold? || op.TransactionalHold?) && Matches(op, placed)
    requires Matches(Reversed(op, placed, asyncReversal), released)
    ensures var back := Reversed(Reversed(op, placed, asyncReversal), released, asyncReversal);
      && back.accountId == op.accountId
      && (op.Hold? ==> back == Hold(op.accountId, op.holdId, released.releasedAmount))
      && (op.TransactionalHold? ==>
            back == TransactionalHold(op.accountId, op.transactionId, released.releasedAmount))
  {
  }

  /** The type tag each operation serialises under. */
  function TypeName(op: AccountOperation): (r: string)
    requires !op.AsyncDebit?
    ensures |r| > 0
  {
    match op
    case Debit(_, _) => "debit"
    case Credit(_, _) => "credit"
    case Hold(_, _, _) => "hold"
    case ReleaseHold(_, _) => "releaseHold"
    case DebitHold(_, _, _) => "debitHold"
    case CreditHold(_, _, _) => "creditHold"
    case TransactionalDebit(_, _, _) => "transactionalDebit"
    case TransactionalCredit(_, _, _) => "transactionalCredit"
    case TransactionalReleaseHold(_, _) => "transactionalReleaseHold"
    case TransactionalHold(_, _, _) => "transactionalHold"
  }

  /** Two operations of the same kind. */
  predicate SameKind(a: AccountOperation, b: AccountOperation) {
    || (a.Debit? && b.Debit?) || (a.Credit? && b.Credit?)
    || (a.Hold? && b.Hold?) || (a.ReleaseHold? && b.ReleaseHold?)
    || (a.DebitHold? && b.DebitHold?) || (a.CreditHold? && b.CreditHold?)
    || (a.TransactionalDebit? && b.TransactionalDebit?)
    || (a.TransactionalCredit? && b.TransactionalCredit?)
    || (a.TransactionalHold? && b.TransactionalHold?)
    || (a.TransactionalReleaseHold? && b.TransactionalReleaseHold?)
    || (a.AsyncDebit? && b.AsyncDebit?)
  }

  /** The tag identifies the kind: a serialised operation can be told apart by its tag. */
  lemma TypeNameIdentifiesKind(a: AccountOperation, b: AccountOperation)
    requires !a.AsyncDebit? && !b.AsyncDebit?
    ensures TypeName(a) == TypeName(b) <==> SameKind(a, b)
  {
  }
}
