/** The transfer service of the oldest generation (src/main/java/com/lekha/transactions):
    its operations, its planner, and `move`/`bulkMove`, which run the planned operations
    one by one through the earlier saga against the accounts of src/main/java/com/lekha/accounts.

    The operation records and their `reversed` methods (AccountOperation.java of that
    package) are not part of this model: the reversal is a parameter.  The account calls
    the service makes (a debit from a named hold, a hold under a caller-chosen id) are
    mapped onto the account handlers that are modelled, as `ExecuteOperation` says.
 */
module LegacyOperations {
  import opened Common
  import opened Monetary
  import opened AccountBalances
  import LegacyAccounts

  datatype Operation =
    | DebitOperation(accountId: AccountId, amount: Money)
    | CreditOperation(accountId: AccountId, amount: Money)
    | HoldOperation(accountId: AccountId, holdId: HoldId, amount: Money)
    | ReleaseHoldOperation(accountId: AccountId, holdId: HoldId)
    | DebitFromHoldIdOperation(accountId: AccountId, holdId: HoldId, amount: Money)

  datatype OperationResult =
    | DebitResult(summary: Balances)
    | CreditResult(summary: Balances)
    | HoldResult(summary: Balances, holdSummary: LegacyAccounts.HoldSummary)
    | ReleaseHoldHoldResult(summary: Balances, holdSummary: LegacyAccounts.HoldSummary, releasedAmount: Money)
    | DebitFromHoldResult(summary: Balances, heldSummary: Option<LegacyAccounts.HoldSummary>)

  /** The result record each operation yields. */
  predicate Matches(op: Operation, res: OperationResult) {
    match op
    case DebitOperation(_, _) => res.DebitResult?
    case CreditOperation(_, _) => res.CreditResult?
    case HoldOperation(_, _, _) => res.HoldResult?
    case ReleaseHoldOperation(_, _) => res.ReleaseHoldHoldResult?
    case DebitFromHoldIdOperation(_, _, _) => res.DebitFromHoldResult?
  }

  /** How an operation is undone, given the result it produced. */
  type Reversal = (Operation, OperationResult) -> Operation
}

module LegacyPlanner {
  import opened Common
  import opened PlanShapes
  import opened LegacyOperations
  import Operations

  /** The debit side: from the instruction's hold when it names one, otherwise a plain debit. */
  function DebitSide(i: Operations.MoveMoneyInstruction): (r: Operation)
    ensures i.sourceHoldId.Some? ==> r == DebitFromHoldIdOperation(i.source, i.sourceHoldId.value, i.amount)
    ensures i.sourceHoldId.None? ==> r == DebitOperation(i.source, i.amount)
  {
    if i.sourceHoldId.Some? then DebitFromHoldIdOperation(i.source, i.sourceHoldId.value, i.amount)
    else DebitOperation(i.source, i.amount)
  }

  function CreditSide(i: Operations.MoveMoneyInstruction): Operation {
    CreditOperation(i.destination, i.amount)
  }

  /** Two operations per instruction, in instruction order: the debit side on the source, then a
      credit of the same amount on the destination. */
  function Plan(instructions: seq<Operations.MoveMoneyInstruction>): (r: seq<Operation>)
    ensures |r| == 2 * |instructions|
    ensures forall k | 0 <= k < |instructions| ::
      && r[2 * k] == DebitSide(instructions[k])
      && r[2 * k + 1] == CreditOperation(instructions[k].destination, instructions[k].amount)
  {
    FlatPairs(instructions, DebitSide, CreditSide)
  }
}

module LegacyTransfer {
  import opened Common
  import opened Monetary
  import opened Sagas
  import opened LegacyOperations
  import opened LegacyPlanner
  import opened LegacyAccounts
  import opened LegacyAccountInvariant
  import Operations

  type LegacyWorld = map<AccountId, LegacyAccount>

  datatype Exec = Exec(world: LegacyWorld, result: Result<OperationResult>)

  /** A run reports the world it leaves, the operations it executed in execution order
      (compensations included), and the error that propagates, if any. */
  datatype Outcome = Outcome(world: LegacyWorld, trace: seq<Operation>, failure: Option<ErrorKind>)

  type Step = (LegacyWorld, Operation) -> Exec

  function Get(w: LegacyWorld, id: AccountId): LegacyAccount {
    if id in w then w[id] else Uninitialised
  }

  function Put(w: LegacyWorld, id: AccountId, a: LegacyAccount): (r: LegacyWorld)
    ensures Get(r, id) == a
    ensures forall other | other != id :: Get(r, other) == Get(w, other)
  {
    Store(w, id, a, Uninitialised)
  }

  /** Runs `op` on the account it names: a plain debit names no hold, a debit from a hold
      names it, and a hold is stored under the operation's hold id. */
  function ExecuteOperation(w: LegacyWorld, op: Operation): (r: Exec)
    ensures r.result.Ok? ==> Matches(op, r.result.value)
    ensures forall other | other != op.accountId :: Get(r.world, other) == Get(w, other)
  {
    var id := op.accountId;
    var a := Get(w, id);
    match op
    case DebitOperation(_, amount) =>
      var s := Debit(a, amount, None);
      Exec(Put(w, id, s.account), if s.result.Ok? then Ok(OperationResult.DebitResult(s.result.value.summary)) else Err(s.result.error))
    case CreditOperation(_, amount) =>
      var s := Credit(a, amount);
      Exec(Put(w, id, s.account), if s.result.Ok? then Ok(CreditResult(s.result.value)) else Err(s.result.error))
    case HoldOperation(_, holdId, amount) =>
      var s := LegacyAccounts.Hold(a, holdId, amount);
      Exec(Put(w, id, s.account),
           if s.result.Ok? then Ok(OperationResult.HoldResult(s.result.value.summary, s.result.value.holdSummary))
           else Err(s.result.error))
    case ReleaseHoldOperation(_, holdId) =>
      var s := LegacyAccounts.ReleaseHold(a, holdId);
      Exec(Put(w, id, s.account),
           if s.result.Ok?
           then Ok(ReleaseHoldHoldResult(s.result.value.summary, s.result.value.holdSummary, s.result.value.releasedAmount))
           else Err(s.result.error))
    case DebitFromHoldIdOperation(_, holdId, amount) =>
      var s := Debit(a, amount, Some(holdId));
      Exec(Put(w, id, s.account),
           if s.result.Ok? then Ok(DebitFromHoldResult(s.result.value.summary, s.result.value.holdSummary))
           else Err(s.result.error))
  }

  ghost predicate ValidWorld(w: LegacyWorld) {
    forall id | id in w :: Valid(w[id])
  }

  /** The amount is not negative, and a hold goes under an id the account does not use yet. */
  predicate Admissible(w: LegacyWorld, op: Operation) {
    && (op.ReleaseHoldOperation? || op.amount.amount >= 0)
    && (op.HoldOperation? ==> op.holdId !in Get(w, op.accountId).holds)
  }

  /** Storing a valid account keeps every account valid, and storing back the account
      already there changes nothing. */
  lemma PutKeepsValid(w: LegacyWorld, id: AccountId, b: LegacyAccount)
    requires ValidWorld(w) && Valid(b)
    ensures ValidWorld(Put(w, id, b))
    ensures b == Get(w, id) ==> Put(w, id, b) == w
  {
    var r := Put(w, id, b);
    forall other | other in r
      ensures Valid(r[other])
    {
      assert r[other] == Get(r, other);
    }
  }

  /** An admissible operation keeps every account valid, and one that fails leaves the world
      exactly as it was. */
  lemma ExecuteKeepsValid(w: LegacyWorld, op: Operation)
    requires ValidWorld(w) && Admissible(w, op)
    ensures ValidWorld(ExecuteOperation(w, op).world)
    ensures ExecuteOperation(w, op).result.Err? ==> ExecuteOperation(w, op).world == w
  {
    var id := op.accountId;
    var a := Get(w, id);
    if id !in w {
      assert Valid(a);
    }
    match op
    case DebitOperation(_, amount) =>
      DebitKeepsValid(a, amount, None);
      PutKeepsValid(w, id, Debit(a, amount, None).account);
    case CreditOperation(_, amount) =>
      CreditKeepsValid(a, amount);
      PutKeepsValid(w, id, Credit(a, amount).account);
    case HoldOperation(_, holdId, amount) =>
      HoldKeepsValid(a, holdId, amount);
      PutKeepsValid(w, id, LegacyAccounts.Hold(a, holdId, amount).account);
    case ReleaseHoldOperation(_, holdId) =>
      ReleaseHoldKeepsValid(a, holdId);
      PutKeepsValid(w, id, LegacyAccounts.ReleaseHold(a, holdId).account);
    case DebitFromHoldIdOperation(_, holdId, amount) =>
      DebitKeepsValid(a, amount, Some(holdId));
      PutKeepsValid(w, id, Debit(a, amount, Some(holdId)).account);
  }

  // ---- Running operations ----

  /** Compensations run in the order given; the first one that fails stops the rest and its
      error propagates. */
  function RunCompensations(exec: Step, w: LegacyWorld, comps: seq<Operation>): (r: Outcome)
    ensures |r.trace| <= |comps| && r.trace == comps[..|r.trace|]
    ensures r.failure.None? ==> r.trace == comps
    ensures r.failure.Some? ==> |r.trace| > 0
    decreases |comps|
  {
    if comps == [] then Outcome(w, [], None)
    else
      var e := exec(w, comps[0]);
      if e.result.Err? then Outcome(e.world, [comps[0]], Some(e.result.error))
      else
        var rest := RunCompensations(exec, e.world, comps[1..]);
        Outcome(rest.world, [comps[0]] + rest.trace, rest.failure)
  }

  /** The loop of `executeOperations`: each operation goes through the saga's `run`, which
      records the reversal bound to its result, and on a terminal failure replays the
      recorded reversals, last first, before the failure propagates. */
  function RunOperations(exec: Step, w: LegacyWorld, ops: seq<Operation>, saga: LegacySaga<Operation>,
                         reversal: Reversal): Outcome
    decreases |ops|
  {
    if ops == [] then Outcome(w, [], None)
    else
      var e := exec(w, ops[0]);
      var step := LegacyRun(saga, e.result, (res: OperationResult) => reversal(ops[0], res));
      if e.result.Err? then
        var c := RunCompensations(exec, e.world, step.compensateNow);
        Outcome(c.world, [ops[0]] + c.trace, if c.failure.Some? then c.failure else Some(e.result.error))
      else
        var rest := RunOperations(exec, e.world, ops[1..], step.saga, reversal);
        Outcome(rest.world, [ops[0]] + rest.trace, rest.failure)
  }

  /** `move`: the plan of the one instruction through a fresh saga. */
  function Move(w: LegacyWorld, instruction: Operations.MoveMoneyInstruction, reversal: Reversal): Outcome {
    BulkMove(w, [instruction], reversal)
  }

  /** `bulkMove`: the plan of the instructions through a fresh saga. */
  function BulkMove(w: LegacyWorld, instructions: seq<Operations.MoveMoneyInstruction>, reversal: Reversal): Outcome {
    RunOperations(ExecuteOperation, w, Plan(instructions), LegacySaga([]), reversal)
  }

  // ---- A reference without the saga ----

  datatype Forward = Forward(world: LegacyWorld, results: seq<OperationResult>, failure: Option<ErrorKind>)

  /** The operations run in order until the first failure, collecting the results of those
      that succeeded. */
  function RunForward(exec: Step, w: LegacyWorld, ops: seq<Operation>): (r: Forward)
    ensures r.failure.None? ==> |r.results| == |ops|
    ensures r.failure.Some? ==> |r.results| < |ops|
    decreases |ops|
  {
    if ops == [] then Forward(w, [], None)
    else
      var e := exec(w, ops[0]);
      if e.result.Err? then Forward(e.world, [], Some(e.result.error))
      else
        var rest := RunForward(exec, e.world, ops[1..]);
        rest.(results := [e.result.value] + rest.results)
  }

  /** The reversal of each operation, bound to its result. */
  function Reversals(ops: seq<Operation>, results: seq<OperationResult>, reversal: Reversal): (r: seq<Operation>)
    requires |results| <= |ops|
    ensures |r| == |results|
    decreases |results|
  {
    if results == [] then [] else [reversal(ops[0], results[0])] + Reversals(ops[1..], results[1..], reversal)
  }

  /** Entry `i` is the reversal of operation `i` bound to result `i`. */
  lemma {:induction false} ReversalsAt(ops: seq<Operation>, results: seq<OperationResult>, reversal: Reversal)
    requires |results| <= |ops|
    ensures forall i | 0 <= i < |results| :: Reversals(ops, results, reversal)[i] == reversal(ops[i], results[i])
    decreases |results|
  {
    if results != [] {
      ReversalsAt(ops[1..], results[1..], reversal);
      forall i | 0 < i < |results|
        ensures Reversals(ops, results, reversal)[i] == reversal(ops[i], results[i])
      {
        assert Reversals(ops, results, reversal)[i] == Reversals(ops[1..], results[1..], reversal)[i - 1];
      }
    }
  }

  /** What a run through the saga amounts to: without a failure, every operation ran and the
      world is the one the operations leave; after the first failure, the operations up to
      it ran, and then, exactly when the failure is terminal, the reversals of everything the
      saga holds (those recorded earlier, then those of this run's successes), last first,
      until one fails.  A failing compensation's error replaces the operation's. */
  ghost predicate AgreesWithForward(exec: Step, w: LegacyWorld, ops: seq<Operation>,
                                    saga: LegacySaga<Operation>, reversal: Reversal)
  {
    var f := RunForward(exec, w, ops);
    var r := RunOperations(exec, w, ops, saga, reversal);
    && (f.failure.None? ==> r == Outcome(f.world, ops, None))
    && (f.failure.Some? ==> r == FailedOutcome(exec, f, ops, saga, reversal))
  }

  /** The outcome after the reference run `f` failed: the operations up to the failing one,
      then, for a terminal failure, the compensations the saga holds followed by the
      reversals of `f`'s successes, all replayed last first. */
  function FailedOutcome(exec: Step, f: Forward, ops: seq<Operation>, saga: LegacySaga<Operation>,
                         reversal: Reversal): Outcome
    requires f.failure.Some? && |f.results| < |ops|
  {
    var undo := if IsTerminal(f.failure.value)
                then Reverse(saga.compensations + Reversals(ops, f.results, reversal)) else [];
    var c := RunCompensations(exec, f.world, undo);
    Outcome(c.world, ops[..|f.results| + 1] + c.trace, if c.failure.Some? then c.failure else f.failure)
  }

  /** A success in front of a failing reference run adds its operation to the trace and its
      reversal to the saga, and changes nothing else. */
  lemma FailedOutcomeStep(exec: Step, rest: Forward, v: OperationResult, ops: seq<Operation>,
                          saga: LegacySaga<Operation>, reversal: Reversal)
    requires ops != [] && rest.failure.Some? && |rest.results| < |ops| - 1
    ensures var o := FailedOutcome(exec, rest, ops[1..], LegacySaga(saga.compensations + [reversal(ops[0], v)]), reversal);
      FailedOutcome(exec, rest.(results := [v] + rest.results), ops, saga, reversal) == o.(trace := [ops[0]] + o.trace)
  {
    var f := rest.(results := [v] + rest.results);
    assert f.results[1..] == rest.results;
    var tail := Reversals(ops[1..], rest.results, reversal);
    assert Reversals(ops, f.results, reversal) == [reversal(ops[0], v)] + tail;
    assert saga.compensations + ([reversal(ops[0], v)] + tail) == (saga.compensations + [reversal(ops[0], v)]) + tail;
    assert ops[..|f.results| + 1] == [ops[0]] + ops[1..][..|rest.results| + 1];
  }

  lemma FirstFails(exec: Step, w: LegacyWorld, ops: seq<Operation>, saga: LegacySaga<Operation>, reversal: Reversal)
    requires ops != [] && exec(w, ops[0]).result.Err?
    ensures AgreesWithForward(exec, w, ops, saga, reversal)
  {
    var e := exec(w, ops[0]);
    assert RunForward(exec, w, ops) == Forward(e.world, [], Some(e.result.error));
    assert saga.compensations + Reversals(ops, [], reversal) == saga.compensations;
    assert ops[..1] == [ops[0]];
  }

  /** The saga after the first operation of `ops` succeeded. */
  function After(exec: Step, w: LegacyWorld, ops: seq<Operation>, saga: LegacySaga<Operation>, reversal: Reversal): LegacySaga<Operation>
    requires ops != [] && exec(w, ops[0]).result.Ok?
  {
    LegacySaga(saga.compensations + [reversal(ops[0], exec(w, ops[0]).result.value)])
  }

  lemma StepOk(exec: Step, w: LegacyWorld, ops: seq<Operation>, saga: LegacySaga<Operation>, reversal: Reversal)
    requires ops != [] && exec(w, ops[0]).result.Ok?
    ensures var e := exec(w, ops[0]);
      var rest := RunForward(exec, e.world, ops[1..]);
      var restRun := RunOperations(exec, e.world, ops[1..], After(exec, w, ops, saga, reversal), reversal);
      && RunForward(exec, w, ops) == rest.(results := [e.result.value] + rest.results)
      && RunOperations(exec, w, ops, saga, reversal) == restRun.(trace := [ops[0]] + restRun.trace)
  {
    var e := exec(w, ops[0]);
    var step := LegacyRun(saga, e.result, (res: OperationResult) => reversal(ops[0], res));
    assert step.saga == After(exec, w, ops, saga, reversal);
  }

  lemma FirstSucceeds(exec: Step, w: LegacyWorld, ops: seq<Operation>, saga: LegacySaga<Operation>, reversal: Reversal)
    requires ops != [] && exec(w, ops[0]).result.Ok?
    requires AgreesWithForward(exec, exec(w, ops[0]).world, ops[1..], After(exec, w, ops, saga, reversal), reversal)
    ensures AgreesWithForward(exec, w, ops, saga, reversal)
  {
    StepOk(exec, w, ops, saga, reversal);
    if RunForward(exec, exec(w, ops[0]).world, ops[1..]).failure.Some? {
      LaterFailure(exec, w, ops, saga, reversal);
    }
  }

  lemma LaterFailure(exec: Step, w: LegacyWorld, ops: seq<Operation>, saga: LegacySaga<Operation>, reversal: Reversal)
    requires ops != [] && exec(w, ops[0]).result.Ok?
    requires RunForward(exec, exec(w, ops[0]).world, ops[1..]).failure.Some?
    requires AgreesWithForward(exec, exec(w, ops[0]).world, ops[1..], After(exec, w, ops, saga, reversal), reversal)
    ensures AgreesWithForward(exec, w, ops, saga, reversal)
  {
    var e := exec(w, ops[0]);
    StepOk(exec, w, ops, saga, reversal);
    FailedOutcomeStep(exec, RunForward(exec, e.world, ops[1..]), e.result.value, ops, saga, reversal);
  }

  lemma {:induction false} RunMatchesForward(exec: Step, w: LegacyWorld, ops: seq<Operation>,
                                             saga: LegacySaga<Operation>, reversal: Reversal)
    ensures AgreesWithForward(exec, w, ops, saga, reversal)
    decreases |ops|
  {
    if ops == [] {
    } else if exec(w, ops[0]).result.Err? {
      FirstFails(exec, w, ops, saga, reversal);
    } else {
      RunMatchesForward(exec, exec(w, ops[0]).world, ops[1..], After(exec, w, ops, saga, reversal), reversal);
      FirstSucceeds(exec, w, ops, saga, reversal);
    }
  }

  /** Replayed last first, the reversals pair operation `k-1-j` with result `k-1-j`. */
  lemma UndoOrder(ops: seq<Operation>, results: seq<OperationResult>, reversal: Reversal)
    requires |results| <= |ops|
    ensures var undo := Reverse(Reversals(ops, results, reversal));
      forall j | 0 <= j < |undo| :: undo[j] == reversal(ops[|results| - 1 - j], results[|results| - 1 - j])
  {
    var k := |results|;
    var rs := Reversals(ops, results, reversal);
    ReversalsAt(ops, results, reversal);
    forall j | 0 <= j < k
      ensures Reverse(rs)[j] == reversal(ops[k - 1 - j], results[k - 1 - j])
    {
      assert Reverse(rs)[j] == rs[k - 1 - j];
    }
  }

  /** After a failure, a run through a fresh saga replays the reversals of this run's
      successes only, last first, each bound to its own result. */
  lemma FreshFailure(exec: Step, w: LegacyWorld, ops: seq<Operation>, reversal: Reversal)
    requires RunForward(exec, w, ops).failure.Some?
    ensures var f := RunForward(exec, w, ops);
      var r := RunOperations(exec, w, ops, LegacySaga([]), reversal);
      var k := |f.results|;
      var undo := if IsTerminal(f.failure.value) then Reverse(Reversals(ops, f.results, reversal)) else [];
      var c := RunCompensations(exec, f.world, undo);
      && r.trace == ops[..k + 1] + c.trace
      && (forall j | 0 <= j < |undo| :: undo[j] == reversal(ops[k - 1 - j], f.results[k - 1 - j]))
      && r.world == c.world
      && r.failure == if c.failure.Some? then c.failure else f.failure
  {
    FreshAgrees(exec, w, ops, reversal);
    FailedOutcomeFresh(exec, RunForward(exec, w, ops), ops, reversal);
  }

  /** After a failure, a run through a fresh saga has the outcome `FailedOutcome` names. */
  lemma FreshAgrees(exec: Step, w: LegacyWorld, ops: seq<Operation>, reversal: Reversal)
    requires RunForward(exec, w, ops).failure.Some?
    ensures RunOperations(exec, w, ops, LegacySaga([]), reversal) ==
            FailedOutcome(exec, RunForward(exec, w, ops), ops, LegacySaga([]), reversal)
  {
    RunMatchesForward(exec, w, ops, LegacySaga([]), reversal);
  }

  /** With a fresh saga, the replay after a terminal failure holds only the reversals of the
      successes, last first. */
  lemma FailedOutcomeFresh(exec: Step, f: Forward, ops: seq<Operation>, reversal: Reversal)
    requires f.failure.Some? && |f.results| < |ops|
    ensures var o := FailedOutcome(exec, f, ops, LegacySaga([]), reversal);
      var k := |f.results|;
      var undo := if IsTerminal(f.failure.value) then Reverse(Reversals(ops, f.results, reversal)) else [];
      var c := RunCompensations(exec, f.world, undo);
      && o.trace == ops[..k + 1] + c.trace
      && (forall j | 0 <= j < |undo| :: undo[j] == reversal(ops[k - 1 - j], f.results[k - 1 - j]))
      && o.world == c.world
      && o.failure == if c.failure.Some? then c.failure else f.failure
  {
    var empty: seq<Operation> := [];
    var rs := Reversals(ops, f.results, reversal);
    assert empty + rs == rs;
    UndoOrder(ops, f.results, reversal);
  }

  /** A run through a fresh saga in terms of the reference: every operation runs when none
      fails; a terminal failure of operation `k` replays the reversals of operations `k-1`
      down to `0`, each bound to its own result, until one fails; any other failure replays
      nothing. */
  lemma FreshRunOutcome(exec: Step, w: LegacyWorld, ops: seq<Operation>, reversal: Reversal)
    ensures var f := RunForward(exec, w, ops);
      var r := RunOperations(exec, w, ops, LegacySaga([]), reversal);
      && (f.failure.None? ==> r == Outcome(f.world, ops, None))
      && (f.failure.Some? ==>
            var k := |f.results|;
            var undo := if IsTerminal(f.failure.value) then Reverse(Reversals(ops, f.results, reversal)) else [];
            var c := RunCompensations(exec, f.world, undo);
            && r.trace == ops[..k + 1] + c.trace
            && (forall j | 0 <= j < |undo| :: undo[j] == reversal(ops[k - 1 - j], f.results[k - 1 - j]))
            && r.world == c.world
            && r.failure == if c.failure.Some? then c.failure else f.failure)
  {
    if RunForward(exec, w, ops).failure.None? {
      RunMatchesForward(exec, w, ops, LegacySaga([]), reversal);
    } else {
      FreshFailure(exec, w, ops, reversal);
    }
  }

  /** `bulkMove` runs its plan as `FreshRunOutcome` describes. */
  lemma BulkMoveOutcome(w: LegacyWorld, instructions: seq<Operations.MoveMoneyInstruction>, reversal: Reversal)
    ensures var ops := Plan(instructions);
      var f := RunForward(ExecuteOperation, w, ops);
      var r := BulkMove(w, instructions, reversal);
      && (f.failure.None? ==> r == Outcome(f.world, ops, None))
      && (f.failure.Some? ==>
            var k := |f.results|;
            var undo := if IsTerminal(f.failure.value) then Reverse(Reversals(ops, f.results, reversal)) else [];
            var c := RunCompensations(ExecuteOperation, f.world, undo);
            && r.trace == ops[..k + 1] + c.trace
            && (forall j | 0 <= j < |undo| :: undo[j] == reversal(ops[k - 1 - j], f.results[k - 1 - j]))
            && r.world == c.world
            && r.failure == if c.failure.Some? then c.failure else f.failure)
  {
    FreshRunOutcome(ExecuteOperation, w, Plan(instructions), reversal);
  }
}
