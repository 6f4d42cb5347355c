/** The executors: folds of a plan over the world of accounts, with a saga recording the
    reversal of every operation that succeeded.

    `LedgerExecutor` follows ledger/src/main/java/com/lekha/transfer/Executor.java: serial
    operations under the scoped saga, compensation when the scope closes after a
    terminal failure, then the cleanup operations (run one after another here).
    `ServiceExecutor` follows src/main/java/com/lekha/transfer/Executor.java, whose saga
    compensates inside the failing `run`.

    A run reports the world it leaves, every operation it executed in execution order
    (the failing one included), and the error that surfaces, if any.
 */
module LedgerExecutor {
  import opened Common
  import opened Monetary
  import opened Worlds
  import opened Sagas
  import opened PlanShapes
  import opened LedgerPlanners
  import Op = Operations

  type AsyncReversal = (AccountId, Money) -> Op.AccountOperation

  datatype Run = Run(world: World, trace: seq<Op.AccountOperation>, failure: Option<ErrorKind>)

  datatype SerialRun = SerialRun(world: World, saga: Saga<Op.AccountOperation>,
                                 trace: seq<Op.AccountOperation>, failure: Option<ErrorKind>)

  /** How one operation runs against the world.  The folds below take it as a parameter;
      the executors of the system instantiate it with `Execute`. */
  type Step = (World, Op.AccountOperation) -> Exec

  /** Every successful result is of the kind its operation produces, as `Execute` ensures. */
  ghost predicate Matching(exec: Step) {
    forall w, op :: exec(w, op).result.Ok? ==> Op.Matches(op, exec(w, op).result.value)
  }

  /** What `ExecuteKeepsValid` states about `Execute`. */
  ghost predicate KeepsValid(exec: Step) {
    forall w, op | ValidWorld(w) && NonNegative(op) ::
      ValidWorld(exec(w, op).world) && (exec(w, op).result.Err? ==> exec(w, op).world == w)
  }

  /** What `ReversalRestoresAt` states about `Execute`. */
  ghost predicate Restores(exec: Step, asyncReversal: AsyncReversal)
    requires Matching(exec)
  {
    forall w, op | ValidWorld(w) && RestorableAt(w, op, asyncReversal) && exec(w, op).result.Ok? ::
      var back := exec(exec(w, op).world, Op.Reversed(op, exec(w, op).result.value, asyncReversal));
      back.result.Ok? && back.world == w
  }

  lemma ExecuteMatching()
    ensures Matching(Execute)
  {
  }

  lemma ExecuteRestores(asyncReversal: AsyncReversal)
    ensures Matching(Execute) && KeepsValid(Execute) && Restores(Execute, asyncReversal)
  {
    forall w, op | ValidWorld(w) && NonNegative(op)
      ensures ValidWorld(Execute(w, op).world) && (Execute(w, op).result.Err? ==> Execute(w, op).world == w)
    {
      ExecuteKeepsValid(w, op);
    }
    forall w, op | ValidWorld(w) && RestorableAt(w, op, asyncReversal) && Execute(w, op).result.Ok?
      ensures var back := Execute(Execute(w, op).world, Op.Reversed(op, Execute(w, op).result.value, asyncReversal));
        back.result.Ok? && back.world == w
    {
      ReversalRestoresAt(w, op, asyncReversal);
    }
  }

  /** The compensation registered for `op`: run the reversal built from its result. */
  function Compensation(op: Op.AccountOperation, asyncReversal: AsyncReversal): Op.OperationResult --> Op.AccountOperation {
    (res: Op.OperationResult) requires Op.Matches(op, res) => Op.Reversed(op, res, asyncReversal)
  }

  /** One compensation per successful operation, each the reversal of that operation. */
  predicate Compensates(comps: seq<Op.AccountOperation>, ops: seq<Op.AccountOperation>, asyncReversal: AsyncReversal)
    requires |comps| <= |ops|
  {
    forall i | 0 <= i < |comps| ::
      && (!ops[i].AsyncDebit? ==> comps[i].accountId == ops[i].accountId)
      && (Op.Independent(ops[i]) ==> comps[i] == Op.Inverse(ops[i]))
      && (ops[i].AsyncDebit? ==> comps[i] == asyncReversal(ops[i].accountId, ops[i].amount))
  }

  /** The serial phase: operations run in order through the saga until the first failure. */
  function RunSerial(exec: Step, w: World, ops: seq<Op.AccountOperation>, saga: Saga<Op.AccountOperation>,
                     asyncReversal: AsyncReversal): SerialRun
    requires Matching(exec)
    decreases |ops|
  {
    if ops == [] then SerialRun(w, saga, [], None)
    else
      var e := exec(w, ops[0]);
      var s := Sagas.Run(saga, e.result, Compensation(ops[0], asyncReversal));
      if e.result.Err? then SerialRun(e.world, s, [ops[0]], Some(e.result.error))
      else
        var rest := RunSerial(exec, e.world, ops[1..], s, asyncReversal);
        rest.(trace := [ops[0]] + rest.trace)
  }

  /** The serial phase runs a prefix of the operations, all of them when none fails, and
      stops at the first failure; it records one compensation per success; it raises the
      compensation flag exactly on a terminal failure. */
  lemma {:induction false} SerialTrace(exec: Step, w: World, ops: seq<Op.AccountOperation>, saga: Saga<Op.AccountOperation>,
                                       asyncReversal: AsyncReversal)
    requires Matching(exec)
    ensures var r := RunSerial(exec, w, ops, saga, asyncReversal);
      && (r.failure.None? ==>
            && r.trace == ops && r.saga.needsCompensation == saga.needsCompensation
            && |r.saga.compensations| == |saga.compensations| + |ops|)
      && (r.failure.Some? ==>
            && 0 < |r.trace| <= |ops| && r.trace == ops[..|r.trace|]
            && |r.saga.compensations| == |saga.compensations| + |r.trace| - 1
            && (r.saga.needsCompensation <==> saga.needsCompensation || IsTerminal(r.failure.value)))
    decreases |ops|
  {
    if ops != [] {
      var e := exec(w, ops[0]);
      var s := Sagas.Run(saga, e.result, Compensation(ops[0], asyncReversal));
      if e.result.Ok? {
        assert |s.compensations| == |saga.compensations| + 1 && s.needsCompensation == saga.needsCompensation;
        SerialTrace(exec, e.world, ops[1..], s, asyncReversal);
        var rest := RunSerial(exec, e.world, ops[1..], s, asyncReversal);
        if rest.failure.Some? {
          assert ops[..|rest.trace| + 1] == [ops[0]] + ops[1..][..|rest.trace|];
        }
      }
    }
  }

  /** A compensation for the first operation followed by compensations for the rest
      compensates the whole sequence. */
  lemma CompensatesCons(comp: Op.AccountOperation, rest: seq<Op.AccountOperation>, ops: seq<Op.AccountOperation>,
                        asyncReversal: AsyncReversal)
    requires |rest| < |ops|
    requires Compensates([comp], ops[..1], asyncReversal) && Compensates(rest, ops[1..], asyncReversal)
    ensures Compensates([comp] + rest, ops, asyncReversal)
  {
    var all := [comp] + rest;
    forall i | 0 < i < |all|
      ensures && (!ops[i].AsyncDebit? ==> all[i].accountId == ops[i].accountId)
              && (Op.Independent(ops[i]) ==> all[i] == Op.Inverse(ops[i]))
              && (ops[i].AsyncDebit? ==> all[i] == asyncReversal(ops[i].accountId, ops[i].amount))
    {
      assert all[i] == rest[i - 1] && ops[i] == ops[1..][i - 1];
    }
    assert all[0] == comp && ops[0] == ops[..1][0];
  }

  /** The serial phase keeps what the saga held and adds, after it, one compensation per
      success, each the reversal of its operation. */
  lemma {:induction false} SerialRecords(exec: Step, w: World, ops: seq<Op.AccountOperation>, saga: Saga<Op.AccountOperation>,
                                         asyncReversal: AsyncReversal)
    requires Matching(exec)
    ensures var r := RunSerial(exec, w, ops, saga, asyncReversal);
      && |saga.compensations| <= |r.saga.compensations| <= |saga.compensations| + |ops|
      && r.saga.compensations[..|saga.compensations|] == saga.compensations
      && Compensates(r.saga.compensations[|saga.compensations|..], ops, asyncReversal)
    decreases |ops|
  {
    SerialTrace(exec, w, ops, saga, asyncReversal);
    if ops != [] {
      var e := exec(w, ops[0]);
      var s := Sagas.Run(saga, e.result, Compensation(ops[0], asyncReversal));
      if e.result.Ok? {
        var comp := Op.Reversed(ops[0], e.result.value, asyncReversal);
        assert s.compensations == saga.compensations + [comp];
        SerialRecords(exec, e.world, ops[1..], s, asyncReversal);
        var rc := RunSerial(exec, e.world, ops[1..], s, asyncReversal).saga.compensations;
        var tail := rc[|s.compensations|..];
        assert rc == s.compensations + tail;
        assert rc == saga.compensations + ([comp] + tail);
        assert rc[|saga.compensations|..] == [comp] + tail;
        assert rc[..|saga.compensations|] == saga.compensations;
        CompensatesCons(comp, tail, ops, asyncReversal);
      } else {
        assert RunSerial(exec, w, ops, saga, asyncReversal).saga.compensations == saga.compensations;
      }
    }
  }

  /** Both halves of the serial phase's shape. */
  lemma SerialShape(exec: Step, w: World, ops: seq<Op.AccountOperation>, saga: Saga<Op.AccountOperation>,
                    asyncReversal: AsyncReversal)
    requires Matching(exec)
    ensures var r := RunSerial(exec, w, ops, saga, asyncReversal);
      && |r.saga.compensations| >= |saga.compensations|
      && r.saga.compensations[..|saga.compensations|] == saga.compensations
      && (r.failure.None? ==>
            && r.trace == ops && r.saga.needsCompensation == saga.needsCompensation
            && |r.saga.compensations| == |saga.compensations| + |ops|)
      && (r.failure.Some? ==>
            && 0 < |r.trace| <= |ops| && r.trace == ops[..|r.trace|]
            && |r.saga.compensations| == |saga.compensations| + |r.trace| - 1
            && (r.saga.needsCompensation <==> saga.needsCompensation || IsTerminal(r.failure.value)))
      && Compensates(r.saga.compensations[|saga.compensations|..], ops, asyncReversal)
  {
    SerialTrace(exec, w, ops, saga, asyncReversal);
    SerialRecords(exec, w, ops, saga, asyncReversal);
  }

  /** Compensations run in the order given; the first one that fails stops the rest. */
  function RunCompensations(exec: Step, w: World, comps: seq<Op.AccountOperation>): (r: Run)
    ensures |r.trace| <= |comps| && r.trace == comps[..|r.trace|]
    ensures r.failure.None? ==> r.trace == comps
    ensures r.failure.Some? ==> |r.trace| > 0
    decreases |comps|
  {
    if comps == [] then Run(w, [], None)
    else
      var e := exec(w, comps[0]);
      if e.result.Err? then Run(e.world, [comps[0]], Some(e.result.error))
      else
        var rest := RunCompensations(exec, e.world, comps[1..]);
        Run(rest.world, [comps[0]] + rest.trace, rest.failure)
  }

  /** Cleanups are all sent; the first failure among them, in plan order, surfaces. */
  function RunCleanups(exec: Step, w: World, ops: seq<Op.AccountOperation>): (r: Run)
    ensures r.trace == ops
    decreases |ops|
  {
    if ops == [] then Run(w, [], None)
    else
      var e := exec(w, ops[0]);
      var rest := RunCleanups(exec, e.world, ops[1..]);
      Run(rest.world, [ops[0]] + rest.trace, if e.result.Err? then Some(e.result.error) else rest.failure)
  }

  /** Runs a plan: the serial phase inside the saga's scope, whose closing compensates after a
      terminal failure; the cleanups only when the serial phase succeeded.  The serial
      failure is the error that surfaces even when a compensation fails too (the scope's
      closing error is suppressed). */
  function ExecutePlanWith(exec: Step, w: World, plan: Plan, asyncReversal: AsyncReversal): Run
    requires Matching(exec)
  {
    var serial := RunSerial(exec, w, plan.serialOperations, NewSaga(), asyncReversal);
    var closing := RunCompensations(exec, serial.world, OnClose(serial.saga));
    if serial.failure.Some? then
      Run(closing.world, serial.trace + closing.trace, serial.failure)
    else
      var cleanup := RunCleanups(exec, closing.world, plan.parallelCleanupOperations);
      Run(cleanup.world, serial.trace + closing.trace + cleanup.trace,
          if closing.failure.Some? then closing.failure else cleanup.failure)
  }

  /** The order of execution.  When every serial operation succeeds, the serial operations
      run in plan order followed by every cleanup, and no compensation runs.  When serial
      operation `k` fails, the operations up to it have run, no cleanup runs, the failure
      surfaces, and then: after a terminal failure the reversals of operations `0..k-1` run
      last first (up to the first compensation that fails); after any other failure nothing
      is compensated. */
  lemma ExecutionOrder(exec: Step, w: World, plan: Plan, asyncReversal: AsyncReversal)
    requires Matching(exec)
    ensures var serial := RunSerial(exec, w, plan.serialOperations, NewSaga(), asyncReversal);
      var r := ExecutePlanWith(exec, w, plan, asyncReversal);
      && (serial.failure.None? ==>
            && r.trace == plan.serialOperations + plan.parallelCleanupOperations
            && r.failure == RunCleanups(exec, serial.world, plan.parallelCleanupOperations).failure)
      && (serial.failure.Some? ==>
            var k := |serial.trace| - 1;
            var undo := if IsTerminal(serial.failure.value) then Reverse(serial.saga.compensations) else [];
            && k < |plan.serialOperations|
            && r.failure == serial.failure
            && |serial.saga.compensations| == k
            && Compensates(serial.saga.compensations, plan.serialOperations, asyncReversal)
            && r.trace[..k + 1] == plan.serialOperations[..k + 1]
            && k + 1 <= |r.trace| <= k + 1 + |undo|
            && r.trace[k + 1..] == undo[..|r.trace| - (k + 1)])
  {
    var serial := RunSerial(exec, w, plan.serialOperations, NewSaga(), asyncReversal);
    var r := ExecutePlanWith(exec, w, plan, asyncReversal);
    SerialShape(exec, w, plan.serialOperations, NewSaga(), asyncReversal);
    if serial.failure.Some? {
      assert serial.saga.compensations[0..] == serial.saga.compensations;
      var closing := RunCompensations(exec, serial.world, OnClose(serial.saga));
      assert r.trace == serial.trace + closing.trace;
      assert r.trace[|serial.trace|..] == closing.trace;
    } else {
      assert OnClose(serial.saga) == [];
    }
  }

  /** A plan without cleanups whose serial phase succeeds runs exactly its serial operations,
      leaves the world that phase leaves, and reports no error. */
  lemma CompletesWith(exec: Step, w: World, plan: Plan, asyncReversal: AsyncReversal)
    requires Matching(exec) && plan.parallelCleanupOperations == []
    requires RunSerial(exec, w, plan.serialOperations, NewSaga(), asyncReversal).failure.None?
    ensures ExecutePlanWith(exec, w, plan, asyncReversal) ==
            Run(RunSerial(exec, w, plan.serialOperations, NewSaga(), asyncReversal).world, plan.serialOperations, None)
  {
    SerialShape(exec, w, plan.serialOperations, NewSaga(), asyncReversal);
    var serial := RunSerial(exec, w, plan.serialOperations, NewSaga(), asyncReversal);
    assert OnClose(serial.saga) == [];
    assert serial.trace + [] + [] == plan.serialOperations;
  }

  lemma ReverseSnoc<T>(s: seq<T>, x: T)
    ensures Reverse(s + [x]) == [x] + Reverse(s)
  {
    var a := Reverse(s + [x]);
    var b := [x] + Reverse(s);
    assert forall i | 0 < i < |a| :: a[i] == (s + [x])[|s| - i] == s[|s| - i] == b[i];
  }

  /** A run whose operations are all non-negative and whose every successful operation is
      undone by its reversal in the world it ran in: the condition under which compensating
      gives the world back. */
  ghost predicate UndoableRun(exec: Step, w: World, ops: seq<Op.AccountOperation>, asyncReversal: AsyncReversal)
    decreases |ops|
  {
    ops != [] ==>
      && NonNegative(ops[0])
      && (exec(w, ops[0]).result.Ok? ==>
            && RestorableAt(w, ops[0], asyncReversal)
            && UndoableRun(exec, exec(w, ops[0]).world, ops[1..], asyncReversal))
  }

  /** Operations that are restorable wherever they run make every run undoable. */
  lemma {:induction false} RestorableRunIsUndoable(exec: Step, w: World, ops: seq<Op.AccountOperation>,
                                                   asyncReversal: AsyncReversal)
    requires forall op | op in ops :: Restorable(op, asyncReversal)
    ensures UndoableRun(exec, w, ops, asyncReversal)
    decreases |ops|
  {
    if ops != [] {
      assert ops[0] in ops;
      assert forall op | op in ops[1..] :: op in ops;
      RestorableRunIsUndoable(exec, exec(w, ops[0]).world, ops[1..], asyncReversal);
    }
  }

  /** A serial phase in which step `i` succeeds and takes world `ws[i]` to `ws[i + 1]` ends in
      the last of those worlds with no failure. */
  lemma {:induction false} SerialSucceeds(exec: Step, ws: seq<World>, ops: seq<Op.AccountOperation>,
                                          saga: Saga<Op.AccountOperation>, asyncReversal: AsyncReversal)
    requires Matching(exec) && |ws| == |ops| + 1
    requires forall i | 0 <= i < |ops| :: exec(ws[i], ops[i]).result.Ok? && exec(ws[i], ops[i]).world == ws[i + 1]
    ensures RunSerial(exec, ws[0], ops, saga, asyncReversal).failure.None?
    ensures RunSerial(exec, ws[0], ops, saga, asyncReversal).world == ws[|ops|]
    decreases |ops|
  {
    if ops != [] {
      var s := Sagas.Run(saga, exec(ws[0], ops[0]).result, Compensation(ops[0], asyncReversal));
      SerialSucceeds(exec, ws[1..], ops[1..], s, asyncReversal);
    }
  }

  /** A serial phase in which steps before `k` succeed, each restorable where it runs, and
      step `k` fails, is an undoable run that surfaces the failure of step `k`. */
  lemma {:induction false} SerialFailsAt(exec: Step, ws: seq<World>, ops: seq<Op.AccountOperation>,
                                         saga: Saga<Op.AccountOperation>, asyncReversal: AsyncReversal, k: nat)
    requires Matching(exec) && k < |ops| && |ws| == k + 1
    requires forall i | 0 <= i < k ::
      && exec(ws[i], ops[i]).result.Ok? && exec(ws[i], ops[i]).world == ws[i + 1]
      && RestorableAt(ws[i], ops[i], asyncReversal)
    requires forall i | 0 <= i <= k :: NonNegative(ops[i])
    requires exec(ws[k], ops[k]).result.Err?
    ensures UndoableRun(exec, ws[0], ops, asyncReversal)
    ensures RunSerial(exec, ws[0], ops, saga, asyncReversal).failure == Some(exec(ws[k], ops[k]).result.error)
    decreases k
  {
    if k > 0 {
      var s := Sagas.Run(saga, exec(ws[0], ops[0]).result, Compensation(ops[0], asyncReversal));
      SerialFailsAt(exec, ws[1..], ops[1..], s, asyncReversal, k - 1);
    }
  }

  /** Undoing after a failure: the compensations recorded in the serial phase, run last first,
      take the world back to where the phase started and then go on with the compensations
      recorded before it. */
  lemma {:induction false} SerialUndo(exec: Step, w: World, ops: seq<Op.AccountOperation>, saga: Saga<Op.AccountOperation>,
                                      asyncReversal: AsyncReversal)
    requires Matching(exec) && KeepsValid(exec) && Restores(exec, asyncReversal)
    requires ValidWorld(w)
    requires UndoableRun(exec, w, ops, asyncReversal)
    requires RunSerial(exec, w, ops, saga, asyncReversal).failure.Some?
    ensures var s := RunSerial(exec, w, ops, saga, asyncReversal);
      var undone := RunCompensations(exec, s.world, Reverse(s.saga.compensations));
      var before := RunCompensations(exec, w, Reverse(saga.compensations));
      undone.world == before.world && undone.failure == before.failure
    decreases |ops|
  {
    var op := ops[0];
    var e := exec(w, op);
    if e.result.Ok? {
      var comp := Op.Reversed(op, e.result.value, asyncReversal);
      var s1 := Sagas.Run(saga, e.result, Compensation(op, asyncReversal));
      assert s1.compensations == saga.compensations + [comp];
      SerialUndo(exec, e.world, ops[1..], s1, asyncReversal);
      ReverseSnoc(saga.compensations, comp);
    }
  }

  /** The rollback argument for any step function that behaves as `Execute` does. */
  lemma RollbackWith(exec: Step, w: World, plan: Plan, asyncReversal: AsyncReversal)
    requires Matching(exec) && KeepsValid(exec) && Restores(exec, asyncReversal)
    requires ValidWorld(w)
    requires UndoableRun(exec, w, plan.serialOperations, asyncReversal)
    requires RunSerial(exec, w, plan.serialOperations, NewSaga(), asyncReversal).failure.Some?
    requires IsTerminal(RunSerial(exec, w, plan.serialOperations, NewSaga(), asyncReversal).failure.value)
    ensures ExecutePlanWith(exec, w, plan, asyncReversal).world == w
    ensures ExecutePlanWith(exec, w, plan, asyncReversal).failure == RunSerial(exec, w, plan.serialOperations, NewSaga(), asyncReversal).failure
  {
    SerialShape(exec, w, plan.serialOperations, NewSaga(), asyncReversal);
    SerialUndo(exec, w, plan.serialOperations, NewSaga(), asyncReversal);
    var empty: seq<Op.AccountOperation> := [];
    assert Reverse(empty) == [];
  }

  /** Cleanups touch only the accounts they name. */
  lemma {:induction false} CleanupsFrame(w: World, ops: seq<Op.AccountOperation>, id: AccountId)
    requires id !in AccountIds(ops)
    ensures Get(RunCleanups(Execute, w, ops).world, id) == Get(w, id)
    decreases |ops|
  {
    if ops != [] {
      assert AccountIds(ops)[0] == ops[0].accountId;
      assert AccountIds(ops[1..]) == AccountIds(ops)[1..];
      CleanupsFrame(Execute(w, ops[0]).world, ops[1..], id);
    }
  }

  /** With one cleanup per account, each cleanup sees its account as it was before the
      cleanups ran. */
  lemma {:induction false} CleanupsSeeStart(w: World, ops: seq<Op.AccountOperation>)
    requires Distinct(AccountIds(ops))
    ensures ops != [] ==> var e := Execute(w, ops[0]);
      forall k | 0 < k < |ops| ::
        && Execute(e.world, ops[k]).result == Execute(w, ops[k]).result
        && Get(Execute(e.world, ops[k]).world, ops[k].accountId) == Get(Execute(w, ops[k]).world, ops[k].accountId)
    ensures ops != [] ==> ops[0].accountId !in AccountIds(ops[1..])
  {
    if ops != [] {
      var e := Execute(w, ops[0]);
      forall k | 0 < k < |ops|
        ensures Execute(e.world, ops[k]).result == Execute(w, ops[k]).result
        ensures Get(Execute(e.world, ops[k]).world, ops[k].accountId) == Get(Execute(w, ops[k]).world, ops[k].accountId)
      {
        assert AccountIds(ops)[0] != AccountIds(ops)[k];
        ExecuteLocal(e.world, w, ops[k]);
      }
      var rest := ops[1..];
      forall k | 0 <= k < |rest| ensures AccountIds(rest)[k] != ops[0].accountId {
        assert AccountIds(ops)[0] != AccountIds(ops)[k + 1];
      }
    }
  }

  /** With one cleanup per account, a cleanup's account ends as that cleanup alone leaves
      it. */
  lemma {:induction false} CleanupsOwn(w: World, ops: seq<Op.AccountOperation>)
    requires Distinct(AccountIds(ops))
    ensures forall k | 0 <= k < |ops| ::
      Get(RunCleanups(Execute, w, ops).world, ops[k].accountId) == Get(Execute(w, ops[k]).world, ops[k].accountId)
    decreases |ops|
  {
    if ops != [] {
      var e := Execute(w, ops[0]);
      var rest := ops[1..];
      assert AccountIds(rest) == AccountIds(ops)[1..];
      CleanupsOwn(e.world, rest);
      CleanupsSeeStart(w, ops);
      CleanupsFrame(e.world, rest, ops[0].accountId);
      assert forall k | 0 <= k < |rest| :: rest[k] == ops[k + 1];
    }
  }

  /** With one cleanup per account, the cleanups after the first all succeed after it
      exactly when they all succeed on the accounts as they were before it. */
  lemma CleanupsRestSucceed(w: World, ops: seq<Op.AccountOperation>)
    requires Distinct(AccountIds(ops)) && ops != []
    ensures var e := Execute(w, ops[0]);
      (forall k | 0 <= k < |ops[1..]| :: Execute(e.world, ops[1..][k]).result.Ok?)
      <==> (forall k | 0 < k < |ops| :: Execute(w, ops[k]).result.Ok?)
  {
    var e := Execute(w, ops[0]);
    var rest := ops[1..];
    CleanupsSeeStart(w, ops);
    assert forall k | 0 <= k < |rest| :: rest[k] == ops[k + 1];
    forall k | 0 < k < |ops| ensures Execute(e.world, rest[k - 1]).result == Execute(w, ops[k]).result {
      assert rest[k - 1] == ops[k];
    }
  }

  /** With one cleanup per account, the cleanups report a failure exactly when one of them
      fails on its own. */
  lemma {:induction false} CleanupsFailure(w: World, ops: seq<Op.AccountOperation>)
    requires Distinct(AccountIds(ops))
    ensures RunCleanups(Execute, w, ops).failure.None? <==> forall k | 0 <= k < |ops| :: Execute(w, ops[k]).result.Ok?
    decreases |ops|
  {
    if ops != [] {
      var e := Execute(w, ops[0]);
      var rest := ops[1..];
      assert AccountIds(rest) == AccountIds(ops)[1..];
      CleanupsFailure(e.world, rest);
      CleanupsRestSucceed(w, ops);
      var r := RunCleanups(Execute, w, ops);
      assert r.failure.None? <==> e.result.Ok? && RunCleanups(Execute, e.world, rest).failure.None?;
    }
  }

  /** Cleanups on distinct accounts do not interfere: each account a cleanup names ends as
      that cleanup alone would leave it, every other account is untouched, and the run
      reports a failure exactly when one of them fails on its own. */
  lemma CleanupsLocal(w: World, ops: seq<Op.AccountOperation>)
    requires Distinct(AccountIds(ops))
    ensures var r := RunCleanups(Execute, w, ops);
      && (forall k | 0 <= k < |ops| :: Get(r.world, ops[k].accountId) == Get(Execute(w, ops[k]).world, ops[k].accountId))
      && (forall id | id !in AccountIds(ops) :: Get(r.world, id) == Get(w, id))
      && (r.failure.None? <==> forall k | 0 <= k < |ops| :: Execute(w, ops[k]).result.Ok?)
  {
    CleanupsOwn(w, ops);
    CleanupsFailure(w, ops);
    forall id | id !in AccountIds(ops)
      ensures Get(RunCleanups(Execute, w, ops).world, id) == Get(w, id)
    {
      CleanupsFrame(w, ops, id);
    }
  }

  /** Runs a plan against the accounts. */
  function ExecutePlan(w: World, plan: Plan, asyncReversal: AsyncReversal): Run {
    ExecutePlanWith(Execute, w, plan, asyncReversal)
  }

  /** Rollback of an undoable run: when every serial operation that succeeds is undone by its
      reversal in the world it ran in, a terminal failure in the serial phase leaves every
      account exactly as it was before the plan ran, and the failure surfaces. */
  lemma RollbackUndoable(w: World, plan: Plan, asyncReversal: AsyncReversal)
    requires ValidWorld(w)
    requires UndoableRun(Execute, w, plan.serialOperations, asyncReversal)
    requires RunSerial(Execute, w, plan.serialOperations, NewSaga(), asyncReversal).failure.Some?
    requires IsTerminal(RunSerial(Execute, w, plan.serialOperations, NewSaga(), asyncReversal).failure.value)
    ensures ExecutePlan(w, plan, asyncReversal).world == w
    ensures ExecutePlan(w, plan, asyncReversal).failure == RunSerial(Execute, w, plan.serialOperations, NewSaga(), asyncReversal).failure
  {
    ExecuteRestores(asyncReversal);
    RollbackWith(Execute, w, plan, asyncReversal);
  }

  /** Rollback: when every serial operation of the plan is one of the debits, credits and hold
      debits a non-transactional plan is made of, with non-negative amounts, and an async debit
      is undone by a credit, a terminal failure in the serial phase leaves every account
      exactly as it was before the plan ran, and the failure surfaces. */
  lemma Rollback(w: World, plan: Plan, asyncReversal: AsyncReversal)
    requires ValidWorld(w)
    requires forall op | op in plan.serialOperations :: Restorable(op, asyncReversal)
    requires RunSerial(Execute, w, plan.serialOperations, NewSaga(), asyncReversal).failure.Some?
    requires IsTerminal(RunSerial(Execute, w, plan.serialOperations, NewSaga(), asyncReversal).failure.value)
    ensures ExecutePlan(w, plan, asyncReversal).world == w
    ensures ExecutePlan(w, plan, asyncReversal).failure == RunSerial(Execute, w, plan.serialOperations, NewSaga(), asyncReversal).failure
  {
    RestorableRunIsUndoable(Execute, w, plan.serialOperations, asyncReversal);
    RollbackUndoable(w, plan, asyncReversal);
  }
}

module ServiceExecutor {
  import opened Common
  import opened Monetary
  import opened Worlds
  import opened Sagas
  import opened LedgerExecutor
  import Op = Operations

  /** Operations run in order; each `run` records the reversal of a success, and on a terminal
      failure replays the recorded reversals, last first, before the failure propagates.  A
      compensation that fails stops the replay and its error propagates instead. */
  function RunOperations(exec: Step, w: World, ops: seq<Op.AccountOperation>, saga: LegacySaga<Op.AccountOperation>,
                         asyncReversal: AsyncReversal): Run
    requires Matching(exec)
    decreases |ops|
  {
    if ops == [] then Run(w, [], None)
    else
      var e := exec(w, ops[0]);
      var step := LegacyRun(saga, e.result, Compensation(ops[0], asyncReversal));
      if e.result.Err? then
        var c := RunCompensations(exec, e.world, step.compensateNow);
        Run(c.world, [ops[0]] + c.trace, if c.failure.Some? then c.failure else Some(e.result.error))
      else
        var rest := RunOperations(exec, e.world, ops[1..], step.saga, asyncReversal);
        Run(rest.world, [ops[0]] + rest.trace, rest.failure)
  }

  /** The operations of a plan through a fresh saga.  The service generation never plans an
      async debit, so `asyncReversal` is not consulted for its plans. */
  function ExecuteOperations(w: World, ops: seq<Op.AccountOperation>, asyncReversal: AsyncReversal): Run {
    RunOperations(Execute, w, ops, LegacySaga([]), asyncReversal)
  }

  /** What the scoped executor reports for the serial phase started from the compensations
      `saga` holds: the serial run, then, if it failed, the replay its saga asks for on close.
      A failing compensation's error replaces the operation's. */
  function ScopedOutcome(exec: Step, w: World, ops: seq<Op.AccountOperation>, saga: LegacySaga<Op.AccountOperation>,
                         asyncReversal: AsyncReversal): Run
    requires Matching(exec)
  {
    var s := RunSerial(exec, w, ops, Saga(saga.compensations, false), asyncReversal);
    if s.failure.None? then Run(s.world, s.trace, None)
    else
      var undo := RunCompensations(exec, s.world, OnClose(s.saga));
      Run(undo.world, s.trace + undo.trace, if undo.failure.Some? then undo.failure else s.failure)
  }

  /** A first success adds its operation to the trace and its reversal to the saga. */
  lemma ScopedStep(exec: Step, w: World, ops: seq<Op.AccountOperation>, saga: LegacySaga<Op.AccountOperation>,
                   asyncReversal: AsyncReversal)
    requires Matching(exec) && ops != [] && exec(w, ops[0]).result.Ok?
    ensures var e := exec(w, ops[0]);
      var next := LegacySaga(saga.compensations + [Op.Reversed(ops[0], e.result.value, asyncReversal)]);
      var o := ScopedOutcome(exec, e.world, ops[1..], next, asyncReversal);
      ScopedOutcome(exec, w, ops, saga, asyncReversal) == o.(trace := [ops[0]] + o.trace)
  {
    var e := exec(w, ops[0]);
    var next := LegacySaga(saga.compensations + [Op.Reversed(ops[0], e.result.value, asyncReversal)]);
    var scoped := Sagas.Run(Saga(saga.compensations, false), e.result, Compensation(ops[0], asyncReversal));
    assert scoped == Saga(next.compensations, false);
    var rest := RunSerial(exec, e.world, ops[1..], scoped, asyncReversal);
    if rest.failure.Some? {
      var undo := RunCompensations(exec, rest.world, OnClose(rest.saga));
      assert [ops[0]] + (rest.trace + undo.trace) == ([ops[0]] + rest.trace) + undo.trace;
    }
  }

  /** The earlier executor's run equals the scoped executor's outcome. */
  lemma {:induction false} ScopedAgrees(exec: Step, w: World, ops: seq<Op.AccountOperation>, saga: LegacySaga<Op.AccountOperation>,
                                        asyncReversal: AsyncReversal)
    requires Matching(exec)
    ensures RunOperations(exec, w, ops, saga, asyncReversal) == ScopedOutcome(exec, w, ops, saga, asyncReversal)
    decreases |ops|
  {
    if ops != [] {
      var e := exec(w, ops[0]);
      var comp := Compensation(ops[0], asyncReversal);
      var step := LegacyRun(saga, e.result, comp);
      if e.result.Ok? {
        ScopedAgrees(exec, e.world, ops[1..], step.saga, asyncReversal);
        ScopedStep(exec, w, ops, saga, asyncReversal);
      } else {
        var scoped := Sagas.Run(Saga(saga.compensations, false), e.result, comp);
        assert OnClose(scoped) == step.compensateNow;
      }
    }
  }

  /** The earlier executor does what the scoped one does, except for whose error surfaces when
      a compensation fails: the serial phase is the same fold, and compensation is the same
      replay of the recorded reversals after a terminal failure. */
  lemma SameAsScoped(exec: Step, w: World, ops: seq<Op.AccountOperation>, saga: LegacySaga<Op.AccountOperation>,
                     asyncReversal: AsyncReversal)
    requires Matching(exec)
    ensures var s := RunSerial(exec, w, ops, Saga(saga.compensations, false), asyncReversal);
      var r := RunOperations(exec, w, ops, saga, asyncReversal);
      var undo := RunCompensations(exec, s.world, OnClose(s.saga));
      && (s.failure.None? ==> r == Run(s.world, s.trace, None))
      && (s.failure.Some? ==>
            && r.world == undo.world
            && r.trace == s.trace + undo.trace
            && r.failure == if undo.failure.Some? then undo.failure else s.failure)
  {
    ScopedAgrees(exec, w, ops, saga, asyncReversal);
  }

  /** The rollback argument for any step function that behaves as `Execute` does. */
  lemma RollbackWith(exec: Step, w: World, ops: seq<Op.AccountOperation>, asyncReversal: AsyncReversal)
    requires Matching(exec) && KeepsValid(exec) && Restores(exec, asyncReversal)
    requires ValidWorld(w)
    requires UndoableRun(exec, w, ops, asyncReversal)
    requires RunSerial(exec, w, ops, NewSaga(), asyncReversal).failure.Some?
    requires IsTerminal(RunSerial(exec, w, ops, NewSaga(), asyncReversal).failure.value)
    ensures RunOperations(exec, w, ops, LegacySaga([]), asyncReversal).world == w
    ensures RunOperations(exec, w, ops, LegacySaga([]), asyncReversal).failure == RunSerial(exec, w, ops, NewSaga(), asyncReversal).failure
  {
    SameAsScoped(exec, w, ops, LegacySaga([]), asyncReversal);
    SerialShape(exec, w, ops, NewSaga(), asyncReversal);
    SerialUndo(exec, w, ops, NewSaga(), asyncReversal);
    var empty: seq<Op.AccountOperation> := [];
    assert Reverse(empty) == [];
  }

  /** Rollback for the earlier executor: under the conditions of the scoped executor's
      rollback, a terminal failure leaves every account as it was and surfaces. */
  lemma Rollback(w: World, ops: seq<Op.AccountOperation>, asyncReversal: AsyncReversal)
    requires ValidWorld(w)
    requires forall op | op in ops :: Restorable(op, asyncReversal)
    requires RunSerial(Execute, w, ops, NewSaga(), asyncReversal).failure.Some?
    requires IsTerminal(RunSerial(Execute, w, ops, NewSaga(), asyncReversal).failure.value)
    ensures ExecuteOperations(w, ops, asyncReversal).world == w
    ensures ExecuteOperations(w, ops, asyncReversal).failure == RunSerial(Execute, w, ops, NewSaga(), asyncReversal).failure
  {
    ExecuteRestores(asyncReversal);
    RestorableRunIsUndoable(Execute, w, ops, asyncReversal);
    RollbackWith(Execute, w, ops, asyncReversal);
  }
}
