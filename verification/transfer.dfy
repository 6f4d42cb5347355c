/** The transfer services of the two later generations: plan the instructions, then run
    the plan (ledger/src/main/java/com/lekha/transfer/Transfer.java,
    src/main/java/com/lekha/transfer/Transfer.java).

    A plan is a pure function of the instructions, so computing it once inside a
    journaled step, as the ledger service does, is the same value here.
 */
module LedgerTransfer {
  import opened Common
  import opened Monetary
  import opened Worlds
  import opened LedgerPlanners
  import opened LedgerExecutor
  import Accounts
  import AccountInvariant
  import Op = Operations

  /** `move`: a bulk move of the one instruction. */
  function Move(w: World, instruction: Op.MoveMoneyInstruction, asyncReversal: AsyncReversal): Run {
    BulkMove(w, [instruction], asyncReversal)
  }

  /** `bulkMove`: the non-transactional plan of the instructions, run by the executor. */
  function BulkMove(w: World, instructions: seq<Op.MoveMoneyInstruction>, asyncReversal: AsyncReversal): Run {
    ExecutePlan(w, NonTransactionalPlan(instructions), asyncReversal)
  }

  /** `transactionalBulkMove`: the transactional plan keyed by the invocation id. */
  function TransactionalBulkMove(w: World, invocationId: TransactionId, instructions: seq<Op.MoveMoneyInstruction>,
                                 asyncReversal: AsyncReversal): Run {
    ExecutePlan(w, TransactionalPlan(invocationId, instructions), asyncReversal)
  }

  /** The serial phase of a bulk move. */
  function Serial(w: World, instructions: seq<Op.MoveMoneyInstruction>, asyncReversal: AsyncReversal): SerialRun {
    RunSerial(Execute, w, NonTransactionalPlan(instructions).serialOperations, Sagas.NewSaga(), asyncReversal)
  }

  /** Non-negative amounts, and an async debit undone by a credit of the same amount on the
      same account. */
  predicate Undoable(instructions: seq<Op.MoveMoneyInstruction>, asyncReversal: AsyncReversal) {
    && (forall i | i in instructions :: i.amount.amount >= 0)
    && (forall i | i in instructions && i.sourceHoldId.None? ::
          asyncReversal(i.source, i.amount) == Op.Credit(i.source, i.amount))
  }

  /** Every operation of such a plan is undone exactly by its reversal. */
  lemma PlanRestorable(instructions: seq<Op.MoveMoneyInstruction>, asyncReversal: AsyncReversal)
    requires Undoable(instructions, asyncReversal)
    ensures forall op | op in NonTransactionalPlan(instructions).serialOperations :: Restorable(op, asyncReversal)
  {
    var ops := NonTransactionalPlan(instructions).serialOperations;
    forall op | op in ops
      ensures Restorable(op, asyncReversal)
    {
      var j :| 0 <= j < |ops| && ops[j] == op;
      var k := j / 2;
      assert instructions[k] in instructions;
      if j % 2 == 0 {
        assert op == DebitOperation(instructions[k]);
      } else {
        assert op == Op.Credit(instructions[k].destination, instructions[k].amount);
      }
    }
  }

  /** A bulk move whose serial phase fails terminally leaves every account as it was, and the
      failure surfaces. */
  lemma BulkMoveRollsBack(w: World, instructions: seq<Op.MoveMoneyInstruction>, asyncReversal: AsyncReversal)
    requires ValidWorld(w) && Undoable(instructions, asyncReversal)
    requires Serial(w, instructions, asyncReversal).failure.Some?
    requires IsTerminal(Serial(w, instructions, asyncReversal).failure.value)
    ensures BulkMove(w, instructions, asyncReversal).world == w
    ensures BulkMove(w, instructions, asyncReversal).failure == Serial(w, instructions, asyncReversal).failure
  {
    PlanRestorable(instructions, asyncReversal);
    Rollback(w, NonTransactionalPlan(instructions), asyncReversal);
  }

  /** A bulk move whose serial phase succeeds runs exactly its planned operations, in plan
      order, and reports no error. */
  lemma BulkMoveCompletes(w: World, instructions: seq<Op.MoveMoneyInstruction>, asyncReversal: AsyncReversal)
    requires Serial(w, instructions, asyncReversal).failure.None?
    ensures BulkMove(w, instructions, asyncReversal).trace == NonTransactionalPlan(instructions).serialOperations
    ensures BulkMove(w, instructions, asyncReversal).world == Serial(w, instructions, asyncReversal).world
    ensures BulkMove(w, instructions, asyncReversal).failure.None?
  {
    ExecuteMatching();
    CompletesWith(Execute, w, NonTransactionalPlan(instructions), asyncReversal);
  }

  /** The serial phase of a transactional bulk move. */
  function TransactionalSerial(w: World, invocationId: TransactionId, instructions: seq<Op.MoveMoneyInstruction>,
                               asyncReversal: AsyncReversal): SerialRun {
    RunSerial(Execute, w, TransactionalPlan(invocationId, instructions).serialOperations, Sagas.NewSaga(), asyncReversal)
  }

  /** A transactional bulk move whose serial phase fails terminally leaves every account as it
      was, and the failure surfaces, provided the run is undoable: every operation that
      succeeds is non-negative and undone by its reversal where it ran, which for a
      transactional debit means the transaction's hold covered it. */
  lemma TransactionalBulkMoveRollsBack(w: World, invocationId: TransactionId, instructions: seq<Op.MoveMoneyInstruction>,
                                       asyncReversal: AsyncReversal)
    requires ValidWorld(w)
    requires UndoableRun(Execute, w, TransactionalPlan(invocationId, instructions).serialOperations, asyncReversal)
    requires TransactionalSerial(w, invocationId, instructions, asyncReversal).failure.Some?
    requires IsTerminal(TransactionalSerial(w, invocationId, instructions, asyncReversal).failure.value)
    ensures TransactionalBulkMove(w, invocationId, instructions, asyncReversal).world == w
    ensures TransactionalBulkMove(w, invocationId, instructions, asyncReversal).failure ==
            TransactionalSerial(w, invocationId, instructions, asyncReversal).failure
  {
    RollbackUndoable(w, TransactionalPlan(invocationId, instructions), asyncReversal);
  }

  /** A transactional bulk move whose serial phase succeeds runs its serial operations and
      then one release per destination; each destination ends as releasing its transaction
      hold leaves it, every other account as the serial phase left it, and the move reports
      an error exactly when one of the releases fails. */
  lemma TransactionalBulkMoveCompletes(w: World, invocationId: TransactionId, instructions: seq<Op.MoveMoneyInstruction>,
                                       asyncReversal: AsyncReversal)
    requires TransactionalSerial(w, invocationId, instructions, asyncReversal).failure.None?
    ensures var plan := TransactionalPlan(invocationId, instructions);
      var serial := TransactionalSerial(w, invocationId, instructions, asyncReversal);
      var r := TransactionalBulkMove(w, invocationId, instructions, asyncReversal);
      var ds := Destinations(instructions);
      && r.trace == plan.serialOperations + plan.parallelCleanupOperations
      && (forall d | d in ds :: Get(r.world, d) == Accounts.TransactionReleaseHold(Get(serial.world, d), invocationId).account)
      && (forall id | id !in ds :: Get(r.world, id) == Get(serial.world, id))
      && (r.failure.None? <==> forall d | d in ds :: Accounts.TransactionReleaseHold(Get(serial.world, d), invocationId).result.Ok?)
  {
    var plan := TransactionalPlan(invocationId, instructions);
    var serial := TransactionalSerial(w, invocationId, instructions, asyncReversal);
    var cs := plan.parallelCleanupOperations;
    var ds := Destinations(instructions);
    ExecuteMatching();
    ExecutionOrder(Execute, w, plan, asyncReversal);
    SerialShape(Execute, w, plan.serialOperations, Sagas.NewSaga(), asyncReversal);
    assert Sagas.OnClose(serial.saga) == [];
    TransactionalCleanups(invocationId, instructions);
    CleanupsLocal(serial.world, cs);
    assert forall k | 0 <= k < |cs| :: AccountIds(cs)[k] == cs[k].accountId;
    forall d | d in ds
      ensures exists k :: 0 <= k < |cs| && cs[k] == Op.TransactionalReleaseHold(d, invocationId)
    {
      var k :| 0 <= k < |cs| && AccountIds(cs)[k] == d;
      assert cs[k] in cs;
    }
    forall k | 0 <= k < |cs|
      ensures var e := Execute(serial.world, cs[k]);
        var s := Accounts.TransactionReleaseHold(Get(serial.world, cs[k].accountId), invocationId);
        Get(e.world, cs[k].accountId) == s.account && (e.result.Ok? <==> s.result.Ok?)
    {
      assert cs[k] in cs;
    }
  }

  /** When a transactional bulk move completes and a destination was valid with a transaction
      hold of the transaction type, that hold has moved into its available balance: the hold
      is gone, available has grown and the total held has shrunk by its amount. */
  lemma TransactionalBulkMoveSettles(w: World, invocationId: TransactionId, instructions: seq<Op.MoveMoneyInstruction>,
                                     asyncReversal: AsyncReversal, d: AccountId)
    requires TransactionalSerial(w, invocationId, instructions, asyncReversal).failure.None?
    requires d in Destinations(instructions)
    requires var a := Get(TransactionalSerial(w, invocationId, instructions, asyncReversal).world, d);
      AccountInvariant.Valid(a) && a.balances.Some? && AccountInvariant.TxHoldTyped(a, invocationId)
    ensures var a := Get(TransactionalSerial(w, invocationId, instructions, asyncReversal).world, d);
      var b := Get(TransactionalBulkMove(w, invocationId, instructions, asyncReversal).world, d);
      var h := AccountInvariant.TxHoldBalance(a, invocationId);
      && invocationId !in b.holds
      && b.balances.Some?
      && b.balances.value.available.amount == a.balances.value.available.amount + h
      && b.balances.value.hold.amount == a.balances.value.hold.amount - h
  {
    var a := Get(TransactionalSerial(w, invocationId, instructions, asyncReversal).world, d);
    TransactionalBulkMoveCompletes(w, invocationId, instructions, asyncReversal);
    AccountInvariant.TransactionReleaseMovesHold(a, invocationId);
  }

  /** A move is rolled back under the same conditions as a bulk move of one instruction. */
  lemma MoveRollsBack(w: World, instruction: Op.MoveMoneyInstruction, asyncReversal: AsyncReversal)
    requires ValidWorld(w) && Undoable([instruction], asyncReversal)
    requires Serial(w, [instruction], asyncReversal).failure.Some?
    requires IsTerminal(Serial(w, [instruction], asyncReversal).failure.value)
    ensures Move(w, instruction, asyncReversal).world == w
    ensures Move(w, instruction, asyncReversal).failure == Serial(w, [instruction], asyncReversal).failure
  {
    BulkMoveRollsBack(w, [instruction], asyncReversal);
  }
}

module ServiceTransfer {
  import opened Common
  import opened Monetary
  import opened Worlds
  import opened ServicePlanners
  import opened LedgerExecutor
  import opened ServiceExecutor
  import Op = Operations

  /** `move`: the plan of the one instruction, run by a fresh executor. */
  function Move(w: World, instruction: Op.MoveMoneyInstruction, asyncReversal: AsyncReversal): Run {
    ExecuteOperations(w, NonTransactionalPlan([instruction]), asyncReversal)
  }

  /** `bulkMove`: the plan of the instructions, run by a fresh executor. */
  function BulkMove(w: World, instructions: seq<Op.MoveMoneyInstruction>, asyncReversal: AsyncReversal): Run {
    ExecuteOperations(w, NonTransactionalPlan(instructions), asyncReversal)
  }

  /** A move is a bulk move of the one instruction. */
  lemma MoveIsBulkMove(w: World, instruction: Op.MoveMoneyInstruction, asyncReversal: AsyncReversal)
    ensures Move(w, instruction, asyncReversal) == BulkMove(w, [instruction], asyncReversal)
  {
  }

  /** Every operation of the plan of instructions with non-negative amounts is undone
      exactly by its reversal. */
  lemma PlanRestorable(instructions: seq<Op.MoveMoneyInstruction>, asyncReversal: AsyncReversal)
    requires forall i | i in instructions :: i.amount.amount >= 0
    ensures forall op | op in NonTransactionalPlan(instructions) :: Restorable(op, asyncReversal)
  {
    var ops := NonTransactionalPlan(instructions);
    forall op | op in ops
      ensures Restorable(op, asyncReversal)
    {
      var j :| 0 <= j < |ops| && ops[j] == op;
      var k := j / 2;
      assert instructions[k] in instructions;
      if j % 2 == 0 {
        assert op == DebitOperation(instructions[k]);
      } else {
        assert op == Op.Credit(instructions[k].destination, instructions[k].amount);
      }
    }
  }

  /** A bulk move whose operations fail terminally part-way leaves every account as it was,
      and the failure surfaces. */
  lemma BulkMoveRollsBack(w: World, instructions: seq<Op.MoveMoneyInstruction>, asyncReversal: AsyncReversal)
    requires ValidWorld(w)
    requires forall i | i in instructions :: i.amount.amount >= 0
    requires RunSerial(Execute, w, NonTransactionalPlan(instructions), Sagas.NewSaga(), asyncReversal).failure.Some?
    requires IsTerminal(RunSerial(Execute, w, NonTransactionalPlan(instructions), Sagas.NewSaga(), asyncReversal).failure.value)
    ensures BulkMove(w, instructions, asyncReversal).world == w
    ensures BulkMove(w, instructions, asyncReversal).failure ==
            RunSerial(Execute, w, NonTransactionalPlan(instructions), Sagas.NewSaga(), asyncReversal).failure
  {
    PlanRestorable(instructions, asyncReversal);
    ServiceExecutor.Rollback(w, NonTransactionalPlan(instructions), asyncReversal);
  }
}
