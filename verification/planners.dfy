/** Planners: pure functions from a list of move instructions to the operations that carry
    them out.  `PlanShapes` holds the two list constructions the planners share: the
    flat list of per-instruction pairs, and the insertion-ordered set of ids a
    `LinkedHashSet` builds.
 */
module PlanShapes {

  /** Each element contributes `first(x)` then `second(x)`, in order. */
  function FlatPairs<T, O>(xs: seq<T>, first: T -> O, second: T -> O): (r: seq<O>)
    ensures |r| == 2 * |xs|
    ensures forall k | 0 <= k < |xs| :: r[2 * k] == first(xs[k]) && r[2 * k + 1] == second(xs[k])
    decreases |xs|
  {
    if xs == [] then []
    else
      var init := FlatPairs(xs[..|xs| - 1], first, second);
      init + [first(xs[|xs| - 1]), second(xs[|xs| - 1])]
  }

  /** The contents of an insertion-ordered set after adding `ds` one by one. */
  function FirstSeen<T(==)>(ds: seq<T>): seq<T>
    decreases |ds|
  {
    if ds == [] then []
    else
      var s := FirstSeen(ds[..|ds| - 1]);
      if ds[|ds| - 1] in s then s else s + [ds[|ds| - 1]]
  }

  /** Index of the first occurrence of `x` in `ds`. */
  function FirstIndex<T(==)>(ds: seq<T>, x: T): (i: nat)
    requires x in ds
    ensures i < |ds| && ds[i] == x && x !in ds[..i]
  {
    if ds[0] == x then 0
    else
      assert x in ds[1..];
      var j := FirstIndex(ds[1..], x);
      assert ds[..j + 1] == [ds[0]] + ds[1..][..j];
      j + 1
  }

  predicate Distinct<T(==)>(s: seq<T>) {
    forall i, j | 0 <= i < j < |s| :: s[i] != s[j]
  }

  /** The set holds exactly the added ids, each once, ordered by first addition. */
  lemma {:induction false} FirstSeenIsOrderedSet<T>(ds: seq<T>)
    ensures forall x :: x in FirstSeen(ds) <==> x in ds
    ensures Distinct(FirstSeen(ds))
    ensures forall i, j | 0 <= i < j < |FirstSeen(ds)| ::
      FirstIndex(ds, FirstSeen(ds)[i]) < FirstIndex(ds, FirstSeen(ds)[j])
    decreases |ds|
  {
    if ds != [] {
      var n := |ds| - 1;
      var init := ds[..n];
      FirstSeenIsOrderedSet(init);
      var s := FirstSeen(init);
      assert ds == init + [ds[n]];
      forall x | x in init
        ensures FirstIndex(ds, x) == FirstIndex(init, x)
      {
        FirstIndexOfPrefix(init, ds[n], x);
      }
      if ds[n] !in s {
        assert ds[n] !in init;
        assert FirstIndex(ds, ds[n]) == n by {
          FirstIndexOfNew(init, ds[n]);
        }
      }
    }
  }

  lemma FirstIndexOfPrefix<T>(init: seq<T>, last: T, x: T)
    requires x in init
    ensures FirstIndex(init + [last], x) == FirstIndex(init, x)
  {
    var ds := init + [last];
    var i := FirstIndex(init, x);
    assert ds[..i] == init[..i];
    assert ds[..i + 1] == init[..i + 1];
  }

  lemma FirstIndexOfNew<T>(init: seq<T>, last: T)
    requires last !in init
    ensures FirstIndex(init + [last], last) == |init|
  {
    var ds := init + [last];
    assert ds[..|init|] == init;
  }
}

/** The ledger generation's planners (ledger/src/main/java/com/lekha/transfer/Planner.java). */
module LedgerPlanners {
  import opened Common
  import opened PlanShapes
  import opened Operations

  /** Operations run one after another under a saga, then cleanups run with no compensation. */
  datatype Plan = Plan(serialOperations: seq<AccountOperation>, parallelCleanupOperations: seq<AccountOperation>)

  predicate ContainsHold(i: MoveMoneyInstruction) {
    i.sourceHoldId.Some?
  }

  /** The debit side of an instruction: from its hold when it names one, otherwise an async
      debit of the source. */
  function DebitOperation(i: MoveMoneyInstruction): (r: AccountOperation)
    ensures ContainsHold(i) ==> r == DebitHold(i.source, i.sourceHoldId.value, i.amount)
    ensures !ContainsHold(i) ==> r == AsyncDebit(i.source, i.amount)
  {
    if ContainsHold(i) then DebitHold(i.source, i.sourceHoldId.value, i.amount)
    else AsyncDebit(i.source, i.amount)
  }

  function CreditOperation(i: MoveMoneyInstruction): AccountOperation {
    Credit(i.destination, i.amount)
  }

  /** Two serial operations per instruction, in instruction order: the debit side on the
      source, then a credit of the same amount on the destination; no cleanups. */
  function NonTransactionalPlan(instructions: seq<MoveMoneyInstruction>): (r: Plan)
    ensures |r.serialOperations| == 2 * |instructions| && r.parallelCleanupOperations == []
    ensures forall k | 0 <= k < |instructions| ::
      && r.serialOperations[2 * k] == DebitOperation(instructions[k])
      && r.serialOperations[2 * k + 1] == Credit(instructions[k].destination, instructions[k].amount)
  {
    Plan(FlatPairs(instructions, DebitOperation, CreditOperation), [])
  }

  function Destinations(instructions: seq<MoveMoneyInstruction>): (r: seq<AccountId>)
    ensures |r| == |instructions|
    ensures forall k | 0 <= k < |instructions| :: r[k] == instructions[k].destination
  {
    seq(|instructions|, k requires 0 <= k < |instructions| => instructions[k].destination)
  }

  /** The debit side of the last instruction of a transactional plan: a transactional debit
      when it names no hold and its source already received money earlier in the plan. */
  function TransactionalDebitSide(transactionId: TransactionId, i: MoveMoneyInstruction,
                                  seen: seq<AccountId>): AccountOperation {
    if !ContainsHold(i) && i.source in seen then TransactionalDebit(i.source, transactionId, i.amount)
    else DebitOperation(i)
  }

  function TransactionalOperations(transactionId: TransactionId, instructions: seq<MoveMoneyInstruction>): seq<AccountOperation>
    decreases |instructions|
  {
    if instructions == [] then []
    else
      var k := |instructions| - 1;
      var i := instructions[k];
      TransactionalOperations(transactionId, instructions[..k]) +
      [TransactionalDebitSide(transactionId, i, FirstSeen(Destinations(instructions[..k]))),
       TransactionalCredit(i.destination, transactionId, i.amount)]
  }

  function ReleaseOperations(transactionId: TransactionId, ids: seq<AccountId>): (r: seq<AccountOperation>)
    ensures |r| == |ids|
    ensures forall k | 0 <= k < |ids| :: r[k] == TransactionalReleaseHold(ids[k], transactionId)
  {
    seq(|ids|, k requires 0 <= k < |ids| => TransactionalReleaseHold(ids[k], transactionId))
  }

  /** Serial operations as for the non-transactional plan, except that money leaves an account
      that received money earlier in the plan through a transactional debit, and money arrives
      through transactional credits; cleanups release the transaction's hold on each
      destination once, in the order the destinations first appear. */
  function TransactionalPlan(transactionId: TransactionId, instructions: seq<MoveMoneyInstruction>): Plan {
    Plan(TransactionalOperations(transactionId, instructions),
         ReleaseOperations(transactionId, FirstSeen(Destinations(instructions))))
  }

  /** Money has reached `instructions[k].source` through an earlier instruction. */
  predicate EarlierDestination(instructions: seq<MoveMoneyInstruction>, k: nat)
    requires k < |instructions|
  {
    exists j | 0 <= j < k :: instructions[j].destination == instructions[k].source
  }

  /** What the planner emits on the debit side of instruction `k`, stated without the set. */
  function ExpectedDebitSide(transactionId: TransactionId, instructions: seq<MoveMoneyInstruction>, k: nat): AccountOperation
    requires k < |instructions|
  {
    if !ContainsHold(instructions[k]) && EarlierDestination(instructions, k)
    then TransactionalDebit(instructions[k].source, transactionId, instructions[k].amount)
    else DebitOperation(instructions[k])
  }

  lemma SeenMeansEarlier(instructions: seq<MoveMoneyInstruction>, n: nat)
    requires n < |instructions|
    ensures instructions[n].source in FirstSeen(Destinations(instructions[..n])) <==> EarlierDestination(instructions, n)
  {
    var init := instructions[..n];
    var src := instructions[n].source;
    FirstSeenIsOrderedSet(Destinations(init));
    if EarlierDestination(instructions, n) {
      var j :| 0 <= j < n && instructions[j].destination == src;
      assert Destinations(init)[j] == src;
    }
    if src in Destinations(init) {
      var j :| 0 <= j < n && Destinations(init)[j] == src;
      assert instructions[j].destination == src;
    }
  }

  lemma EarlierInPrefix(instructions: seq<MoveMoneyInstruction>, n: nat, k: nat)
    requires k < n <= |instructions|
    ensures EarlierDestination(instructions, k) == EarlierDestination(instructions[..n], k)
  {
    assert forall j | 0 <= j <= k :: instructions[j] == instructions[..n][j];
  }

  /** Operation pair `k` of the plan is the expected debit side and the credit, given that
      this holds for the plan of all but the last instruction. */
  lemma ShapeAt(transactionId: TransactionId, instructions: seq<MoveMoneyInstruction>, k: nat)
    requires k < |instructions|
    requires |TransactionalOperations(transactionId, instructions[..|instructions| - 1])| == 2 * (|instructions| - 1)
    requires k < |instructions| - 1 ==>
      var init := instructions[..|instructions| - 1];
      && TransactionalOperations(transactionId, init)[2 * k] == ExpectedDebitSide(transactionId, init, k)
      && TransactionalOperations(transactionId, init)[2 * k + 1] ==
         TransactionalCredit(init[k].destination, transactionId, init[k].amount)
    ensures TransactionalOperations(transactionId, instructions)[2 * k] == ExpectedDebitSide(transactionId, instructions, k)
    ensures TransactionalOperations(transactionId, instructions)[2 * k + 1] ==
            TransactionalCredit(instructions[k].destination, transactionId, instructions[k].amount)
  {
    var n := |instructions| - 1;
    var init := instructions[..n];
    var ops := TransactionalOperations(transactionId, instructions);
    var head := TransactionalOperations(transactionId, init);
    var i := instructions[n];
    var last := [TransactionalDebitSide(transactionId, i, FirstSeen(Destinations(init))),
                 TransactionalCredit(i.destination, transactionId, i.amount)];
    assert ops == head + last;
    if k < n {
      assert ops[2 * k] == head[2 * k] && ops[2 * k + 1] == head[2 * k + 1];
      assert instructions[k] == init[k];
      EarlierInPrefix(instructions, n, k);
    } else {
      SeenMeansEarlier(instructions, n);
      assert ops[2 * k] == last[0] && ops[2 * k + 1] == last[1];
    }
  }

  lemma {:induction false} TransactionalOperationsShape(transactionId: TransactionId, instructions: seq<MoveMoneyInstruction>)
    ensures |TransactionalOperations(transactionId, instructions)| == 2 * |instructions|
    ensures forall k | 0 <= k < |instructions| ::
      && TransactionalOperations(transactionId, instructions)[2 * k] == ExpectedDebitSide(transactionId, instructions, k)
      && TransactionalOperations(transactionId, instructions)[2 * k + 1] ==
         TransactionalCredit(instructions[k].destination, transactionId, instructions[k].amount)
    decreases |instructions|
  {
    if instructions != [] {
      var n := |instructions| - 1;
      TransactionalOperationsShape(transactionId, instructions[..n]);
      forall k | 0 <= k < |instructions|
        ensures TransactionalOperations(transactionId, instructions)[2 * k] == ExpectedDebitSide(transactionId, instructions, k)
        ensures TransactionalOperations(transactionId, instructions)[2 * k + 1] ==
                TransactionalCredit(instructions[k].destination, transactionId, instructions[k].amount)
      {
        ShapeAt(transactionId, instructions, k);
      }
    }
  }

  /** The serial half of the transactional plan: two operations per instruction, a
      transactional credit of the same amount on every destination, and on the source a
      transactional debit exactly where no hold is named and the source received money
      earlier in the plan; so a named hold always wins, and the first instruction never
      debits transactionally. */
  lemma TransactionalSerialOperations(transactionId: TransactionId, instructions: seq<MoveMoneyInstruction>)
    ensures var ops := TransactionalPlan(transactionId, instructions).serialOperations;
      && |ops| == 2 * |instructions|
      && (forall k | 0 <= k < |instructions| ::
            ops[2 * k + 1] == TransactionalCredit(instructions[k].destination, transactionId, instructions[k].amount))
      && (forall k | 0 <= k < |instructions| ::
            (ops[2 * k].TransactionalDebit? <==> !ContainsHold(instructions[k]) && EarlierDestination(instructions, k)))
      && (forall k | 0 <= k < |instructions| ::
            && (ops[2 * k].DebitHold? || ops[2 * k].AsyncDebit? || ops[2 * k].TransactionalDebit?)
            && ops[2 * k].accountId == instructions[k].source && ops[2 * k].amount == instructions[k].amount)
      && (forall k | 0 <= k < |instructions| && ContainsHold(instructions[k]) ::
            ops[2 * k] == DebitHold(instructions[k].source, instructions[k].sourceHoldId.value, instructions[k].amount))
      && (|instructions| > 0 ==> !ops[0].TransactionalDebit?)
      && (forall m | 0 <= m < |ops| && (ops[m].TransactionalDebit? || ops[m].TransactionalCredit?) ::
            ops[m].transactionId == transactionId)
  {
    TransactionalOperationsShape(transactionId, instructions);
    var ops := TransactionalPlan(transactionId, instructions).serialOperations;
    forall k | 0 <= k < |instructions|
      ensures (ops[2 * k].TransactionalDebit? <==> !ContainsHold(instructions[k]) && EarlierDestination(instructions, k))
      ensures && (ops[2 * k].DebitHold? || ops[2 * k].AsyncDebit? || ops[2 * k].TransactionalDebit?)
              && ops[2 * k].accountId == instructions[k].source && ops[2 * k].amount == instructions[k].amount
      ensures ContainsHold(instructions[k]) ==>
        ops[2 * k] == DebitHold(instructions[k].source, instructions[k].sourceHoldId.value, instructions[k].amount)
      ensures ops[2 * k].TransactionalDebit? ==> ops[2 * k].transactionId == transactionId
    {
      DebitSideShape(transactionId, instructions, k);
    }
    forall m | 0 <= m < |ops| && (ops[m].TransactionalDebit? || ops[m].TransactionalCredit?)
      ensures ops[m].transactionId == transactionId
    {
      var k := m / 2;
      if m == 2 * k {
        assert ops[m] == ops[2 * k];
      } else {
        assert ops[m] == ops[2 * k + 1] == TransactionalCredit(instructions[k].destination, transactionId, instructions[k].amount);
      }
    }
    if |instructions| > 0 {
      assert !EarlierDestination(instructions, 0);
    }
  }

  /** The debit side of instruction `k` draws the instruction's amount from its source:
      from the named hold when there is one, else transactionally exactly when the source
      received money earlier, else asynchronously. */
  lemma DebitSideShape(transactionId: TransactionId, instructions: seq<MoveMoneyInstruction>, k: nat)
    requires k < |instructions|
    ensures var d := ExpectedDebitSide(transactionId, instructions, k);
      && (d.TransactionalDebit? <==> !ContainsHold(instructions[k]) && EarlierDestination(instructions, k))
      && (d.DebitHold? || d.AsyncDebit? || d.TransactionalDebit?)
      && d.accountId == instructions[k].source && d.amount == instructions[k].amount
      && (ContainsHold(instructions[k]) ==> d == DebitHold(instructions[k].source, instructions[k].sourceHoldId.value, instructions[k].amount))
      && (d.TransactionalDebit? ==> d.transactionId == transactionId)
  {
  }

  /** The cleanup half: one release of the transaction's hold per distinct destination, each
      destination once, in the order destinations first appear. */
  lemma TransactionalCleanups(transactionId: TransactionId, instructions: seq<MoveMoneyInstruction>)
    ensures var cs := TransactionalPlan(transactionId, instructions).parallelCleanupOperations;
      var ds := Destinations(instructions);
      && (forall c | c in cs :: c == TransactionalReleaseHold(c.accountId, transactionId))
      && (forall d :: d in AccountIds(cs) <==> d in ds)
      && Distinct(AccountIds(cs))
      && (forall i, j | 0 <= i < j < |cs| :: FirstIndex(ds, cs[i].accountId) < FirstIndex(ds, cs[j].accountId))
  {
    var ds := Destinations(instructions);
    FirstSeenIsOrderedSet(ds);
    assert AccountIds(TransactionalPlan(transactionId, instructions).parallelCleanupOperations) == FirstSeen(ds);
  }

  function AccountIds(ops: seq<AccountOperation>): (r: seq<AccountId>)
    ensures |r| == |ops|
    ensures forall k | 0 <= k < |ops| :: r[k] == ops[k].accountId
  {
    seq(|ops|, k requires 0 <= k < |ops| => ops[k].accountId)
  }
}

/** The service generation's planners (src/main/java/com/lekha/transfer/Planner.java). */
module ServicePlanners {
  import opened Common
  import opened PlanShapes
  import opened Operations

  /** The debit side: from the instruction's hold when it names one, otherwise a plain debit. */
  function DebitOperation(i: MoveMoneyInstruction): (r: AccountOperation)
    ensures i.sourceHoldId.Some? ==> r == DebitHold(i.source, i.sourceHoldId.value, i.amount)
    ensures i.sourceHoldId.None? ==> r == Debit(i.source, i.amount)
  {
    if i.sourceHoldId.Some? then DebitHold(i.source, i.sourceHoldId.value, i.amount)
    else Debit(i.source, i.amount)
  }

  function CreditOperation(i: MoveMoneyInstruction): AccountOperation {
    Credit(i.destination, i.amount)
  }

  /** Two operations per instruction, in instruction order: the debit side on the source, then a
      credit of the same amount on the destination. */
  function NonTransactionalPlan(instructions: seq<MoveMoneyInstruction>): (r: seq<AccountOperation>)
    ensures |r| == 2 * |instructions|
    ensures forall k | 0 <= k < |instructions| ::
      && r[2 * k] == DebitOperation(instructions[k])
      && r[2 * k + 1] == Credit(instructions[k].destination, instructions[k].amount)
  {
    FlatPairs(instructions, DebitOperation, CreditOperation)
  }

  /** Not implemented in this generation: no operations, whatever the instructions. */
  function TransactionalPlan(transactionId: TransactionId, instructions: seq<MoveMoneyInstruction>): (r: seq<AccountOperation>)
    ensures |r| == 0
  {
    []
  }
}
