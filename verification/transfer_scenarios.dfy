/** The bulk-move scenarios of the transfer tests
    (src/test/java/com/lekha/transfer/TransferTest.java), run through the ledger service's
    transactional bulk move (ledger/src/main/java/com/lekha/transfer/Transfer.java) and
    through its non-transactional one.  One USD asset account and three USD liability
    accounts start initialised and empty; the tests prefix their ids with a random UUID,
    here they are fixed distinct names, and the invocation id is a parameter. */
module TransferScenarios {
  import opened Common
  import opened Monetary
  import opened AccountTypes
  import opened AccountOptionsStates
  import opened AccountBalances
  import opened HoldBalances
  import opened HoldTotals
  import opened Draining
  import opened Accounts
  import opened AccountInvariant
  import opened AccountScenarios
  import opened Worlds
  import opened LedgerExecutor
  import opened LedgerTransfer
  import LP = LedgerPlanners
  import Op = Operations

  /** A USD account of type `t` with `available` available and `held` on hold, all of it in
      the transaction's hold, its only hold. */
  function Acct(t: AccountType, available: int, held: int, tx: TransactionId): Account {
    Account(Some(Options(t, USD)), Some(Balances(M(available), M(held))),
            if held == 0 then map[] else map[tx := HoldState(HoldDetails(tx, Transaction), M(held))])
  }

  lemma AcctValid(t: AccountType, available: int, held: int, tx: TransactionId)
    requires available >= 0 && held >= 0
    ensures Valid(Acct(t, available, held, tx))
    ensures TxHoldTyped(Acct(t, available, held, tx), tx)
    ensures TxHoldBalance(Acct(t, available, held, tx), tx) == held
  {
    var empty: HoldStore := map[];
    if held != 0 {
      TotalUpdate(empty, HoldWeight, tx, HoldState(HoldDetails(tx, Transaction), M(held)));
      assert empty[tx := HoldState(HoldDetails(tx, Transaction), M(held))] == Acct(t, available, held, tx).holds;
    }
  }

  /** A transactional credit to a liability adds to the transaction's hold. */
  lemma LiabilityTransactionalCredit(available: int, held: int, x: int, tx: TransactionId)
    requires available >= 0 && held >= 0 && x > 0
    ensures var s := TransactionalCredit(Acct(Liability, available, held, tx), tx, M(x));
      s.result.Ok? && s.account == Acct(Liability, available, held + x, tx)
  {
  }

  /** A transactional debit of a liability drains the transaction's hold first, then
      available, and fails with nothing changed when both together fall short. */
  lemma LiabilityTransactionalDebit(available: int, held: int, x: int, tx: TransactionId)
    requires available >= 0 && held >= 0 && x >= 0
    ensures var a := Acct(Liability, available, held, tx);
      var s := TransactionalDebit(a, tx, M(x));
      var fromHold := MinInt(held, x);
      && (s.result.Ok? <==> x <= available + held)
      && (s.result.Err? ==> s == Step(a, Err(InsufficientBalance)))
      && (s.result.Ok? ==> s.account == Acct(Liability, available - (x - fromHold), held - fromHold, tx))
  {
    AcctValid(Liability, available, held, tx);
    TransactionalDebitDrains(Acct(Liability, available, held, tx), tx, M(x));
  }

  /** A transactional credit to an asset is a plain credit: available drops. */
  lemma AssetTransactionalCredit(available: int, x: int, tx: TransactionId)
    requires 0 <= x <= available
    ensures var s := TransactionalCredit(Acct(Asset, available, 0, tx), tx, M(x));
      s.result.Ok? && s.account == Acct(Asset, available - x, 0, tx)
  {
  }

  /** A debit of an asset raises available. */
  lemma AssetDebit(available: int, x: int, tx: TransactionId)
    requires x >= 0
    ensures var s := Debit(Acct(Asset, available, 0, tx), M(x));
      s.result.Ok? && s.account == Acct(Asset, available + x, 0, tx)
  {
  }

  /** Releasing the transaction's hold moves it all to available. */
  lemma ReleaseTransactionHold(t: AccountType, available: int, held: int, tx: TransactionId)
    requires available >= 0 && held >= 0
    ensures var s := TransactionReleaseHold(Acct(t, available, held, tx), tx);
      s.result.Ok? && s.account == Acct(t, available + held, 0, tx)
  {
  }

  /** Liability 1's share of a rollback that does not restore: it starts with 100 available,
      receives 50 transactionally, then pays out 120 transactionally (the 50 of the hold and
      70 of available) before a later leg fails.  The compensations, last first, credit the
      120 into the transaction's hold and debit 50 from it: available ends at 30 and 70 stay
      on the hold. */
  lemma OverdrawStrandedOnRollback(tx: TransactionId)
    ensures var a := Acct(Liability, 100, 0, tx);
      var s1 := TransactionalCredit(a, tx, M(50));
      var s2 := TransactionalDebit(s1.account, tx, M(120));
      var c1 := TransactionalCredit(s2.account, tx, M(120));
      var c2 := TransactionalDebit(c1.account, tx, M(50));
      && s1.result.Ok? && s2.result.Ok? && c1.result.Ok? && c2.result.Ok?
      && c2.account == Acct(Liability, 30, 70, tx)
      && c2.account != a
  {
    LiabilityTransactionalCredit(100, 0, 50, tx);
    LiabilityTransactionalDebit(100, 50, 120, tx);
    LiabilityTransactionalCredit(30, 0, 120, tx);
    LiabilityTransactionalDebit(30, 120, 50, tx);
    assert Acct(Liability, 30, 70, tx).balances != Acct(Liability, 100, 0, tx).balances;
  }

  /** The ids of the asset account and of the three liability accounts. */
  datatype Names = Names(asset: AccountId, l1: AccountId, l2: AccountId, l3: AccountId)

  predicate Apart(n: Names) {
    && n.asset != n.l1 && n.asset != n.l2 && n.asset != n.l3
    && n.l1 != n.l2 && n.l1 != n.l3 && n.l2 != n.l3
  }

  /** The four accounts of a scenario; no other account exists. */
  function Ledger(n: Names, asset: Account, l1: Account, l2: Account, l3: Account): World {
    map[n.asset := asset, n.l1 := l1, n.l2 := l2, n.l3 := l3]
  }

  /** Reading one of the four accounts. */
  lemma LedgerGet(n: Names, asset: Account, l1: Account, l2: Account, l3: Account)
    requires Apart(n)
    ensures var w := Ledger(n, asset, l1, l2, l3);
      Get(w, n.asset) == asset && Get(w, n.l1) == l1 && Get(w, n.l2) == l2 && Get(w, n.l3) == l3
  {
  }

  /** Replacing one of the four accounts. */
  lemma UpdateAsset(n: Names, asset: Account, l1: Account, l2: Account, l3: Account, x: Account)
    requires Apart(n)
    ensures Ledger(n, asset, l1, l2, l3)[n.asset := x] == Ledger(n, x, l1, l2, l3)
  {
  }

  lemma UpdateL1(n: Names, asset: Account, l1: Account, l2: Account, l3: Account, x: Account)
    requires Apart(n)
    ensures Ledger(n, asset, l1, l2, l3)[n.l1 := x] == Ledger(n, asset, x, l2, l3)
  {
  }

  lemma UpdateL2(n: Names, asset: Account, l1: Account, l2: Account, l3: Account, x: Account)
    requires Apart(n)
    ensures Ledger(n, asset, l1, l2, l3)[n.l2 := x] == Ledger(n, asset, l1, x, l3)
  {
  }

  lemma UpdateL3(n: Names, asset: Account, l1: Account, l2: Account, l3: Account, x: Account)
    requires Apart(n)
    ensures Ledger(n, asset, l1, l2, l3)[n.l3 := x] == Ledger(n, asset, l1, l2, x)
  {
  }

  /** All four accounts initialised in USD and empty. */
  function Start(n: Names, tx: TransactionId): World {
    Ledger(n, Acct(Asset, 0, 0, tx), Acct(Liability, 0, 0, tx), Acct(Liability, 0, 0, tx), Acct(Liability, 0, 0, tx))
  }

  /** A freshly initialised account is the empty account of its type. */
  lemma FreshIsEmpty(t: AccountType, tx: TransactionId)
    ensures Fresh(t) == Acct(t, 0, 0, tx)
  {
  }

  function Move(source: AccountId, destination: AccountId, n: int): Op.MoveMoneyInstruction {
    Op.MoveMoneyInstruction(source, destination, M(n), None)
  }

  /** asset to liability 1, 1000; liability 1 to 2, 750; 2 to 3, 50; 3 back to the asset, 15. */
  function ChainMoves(n: Names): seq<Op.MoveMoneyInstruction> {
    [Move(n.asset, n.l1, 1000), Move(n.l1, n.l2, 750), Move(n.l2, n.l3, 50), Move(n.l3, n.asset, 15)]
  }

  lemma LiabilityPlainCreditStep(w: World, id: AccountId, available: int, x: int, tx: TransactionId)
    requires id in w && w[id] == Acct(Liability, available, 0, tx) && x >= 0
    ensures Execute(w, Op.Credit(id, M(x))).result.Ok?
    ensures Execute(w, Op.Credit(id, M(x))).world == w[id := Acct(Liability, available + x, 0, tx)]
  {
  }

  lemma LiabilityPlainDebitStep(w: World, id: AccountId, available: int, x: int, tx: TransactionId)
    requires id in w && w[id] == Acct(Liability, available, 0, tx) && 0 <= x <= available
    ensures Execute(w, Op.AsyncDebit(id, M(x))).result.Ok?
    ensures Execute(w, Op.AsyncDebit(id, M(x))).world == w[id := Acct(Liability, available - x, 0, tx)]
  {
  }

  lemma AssetPlainCreditStep(w: World, id: AccountId, available: int, x: int, tx: TransactionId)
    requires id in w && w[id] == Acct(Asset, available, 0, tx) && 0 <= x <= available
    ensures Execute(w, Op.Credit(id, M(x))).result.Ok?
    ensures Execute(w, Op.Credit(id, M(x))).world == w[id := Acct(Asset, available - x, 0, tx)]
  {
  }

  /** The chain's transactional serial operations: the first source is debited
      asynchronously, every later source received money earlier and is debited
      transactionally. */
  function ChainOps(n: Names, tx: TransactionId): seq<Op.AccountOperation> {
    [Op.AsyncDebit(n.asset, M(1000)), Op.TransactionalCredit(n.l1, tx, M(1000)),
     Op.TransactionalDebit(n.l1, tx, M(750)), Op.TransactionalCredit(n.l2, tx, M(750)),
     Op.TransactionalDebit(n.l2, tx, M(50)), Op.TransactionalCredit(n.l3, tx, M(50)),
     Op.TransactionalDebit(n.l3, tx, M(15)), Op.TransactionalCredit(n.asset, tx, M(15))]
  }

  lemma ChainPlan(n: Names, tx: TransactionId)
    ensures LP.TransactionalPlan(tx, ChainMoves(n)).serialOperations == ChainOps(n, tx)
  {
    var ms := ChainMoves(n);
    var ops := LP.TransactionalPlan(tx, ms).serialOperations;
    LP.TransactionalOperationsShape(tx, ms);
    assert |ops| == 8;
    assert ops[0] == LP.ExpectedDebitSide(tx, ms, 0) == Op.AsyncDebit(n.asset, M(1000));
    assert ms[0].destination == ms[1].source;
    assert ops[2] == LP.ExpectedDebitSide(tx, ms, 1) == Op.TransactionalDebit(n.l1, tx, M(750));
    assert ms[1].destination == ms[2].source;
    assert ops[4] == LP.ExpectedDebitSide(tx, ms, 2) == Op.TransactionalDebit(n.l2, tx, M(50));
    assert ms[2].destination == ms[3].source;
    assert ops[6] == LP.ExpectedDebitSide(tx, ms, 3) == Op.TransactionalDebit(n.l3, tx, M(15));
    assert ops[1] == Op.TransactionalCredit(n.l1, tx, M(1000));
    assert ops[3] == Op.TransactionalCredit(n.l2, tx, M(750));
    assert ops[5] == Op.TransactionalCredit(n.l3, tx, M(50));
    assert ops[7] == Op.TransactionalCredit(n.asset, tx, M(15));
  }

  // ---- One operation on a stored account ----

  lemma AssetDebitStep(w: World, id: AccountId, available: int, x: int, tx: TransactionId)
    requires id in w && w[id] == Acct(Asset, available, 0, tx) && x >= 0
    ensures Execute(w, Op.AsyncDebit(id, M(x))).result.Ok?
    ensures Execute(w, Op.AsyncDebit(id, M(x))).world == w[id := Acct(Asset, available + x, 0, tx)]
  {
    AssetDebit(available, x, tx);
  }

  lemma AssetCreditStep(w: World, id: AccountId, available: int, x: int, tx: TransactionId)
    requires id in w && w[id] == Acct(Asset, available, 0, tx) && 0 < x <= available
    ensures Execute(w, Op.TransactionalCredit(id, tx, M(x))).result.Ok?
    ensures Execute(w, Op.TransactionalCredit(id, tx, M(x))).world == w[id := Acct(Asset, available - x, 0, tx)]
  {
    AssetTransactionalCredit(available, x, tx);
  }

  lemma LiabilityCreditStep(w: World, id: AccountId, available: int, held: int, x: int, tx: TransactionId)
    requires id in w && w[id] == Acct(Liability, available, held, tx) && available >= 0 && held >= 0 && x > 0
    ensures Execute(w, Op.TransactionalCredit(id, tx, M(x))).result.Ok?
    ensures Execute(w, Op.TransactionalCredit(id, tx, M(x))).world == w[id := Acct(Liability, available, held + x, tx)]
  {
    LiabilityTransactionalCredit(available, held, x, tx);
  }

  /** A transactional debit the transaction's hold covers. */
  lemma LiabilityDebitStep(w: World, id: AccountId, available: int, held: int, x: int, tx: TransactionId)
    requires id in w && w[id] == Acct(Liability, available, held, tx) && available >= 0 && 0 <= x <= held
    ensures Execute(w, Op.TransactionalDebit(id, tx, M(x))).result.Ok?
    ensures Execute(w, Op.TransactionalDebit(id, tx, M(x))).world == w[id := Acct(Liability, available, held - x, tx)]
  {
    LiabilityTransactionalDebit(available, held, x, tx);
  }

  /** The chain's accounts before serial operation `i` runs, and after the last one. */
  function ChainWorld(n: Names, tx: TransactionId, i: nat): World
    requires i <= 8
  {
    var l0 := Acct(Liability, 0, 0, tx);
    var a1 := Acct(Asset, 1000, 0, tx);
    var h250 := Acct(Liability, 0, 250, tx);
    var h700 := Acct(Liability, 0, 700, tx);
    match i
    case 0 => Start(n, tx)
    case 1 => Ledger(n, a1, l0, l0, l0)
    case 2 => Ledger(n, a1, Acct(Liability, 0, 1000, tx), l0, l0)
    case 3 => Ledger(n, a1, h250, l0, l0)
    case 4 => Ledger(n, a1, h250, Acct(Liability, 0, 750, tx), l0)
    case 5 => Ledger(n, a1, h250, h700, l0)
    case 6 => Ledger(n, a1, h250, h700, Acct(Liability, 0, 50, tx))
    case 7 => Ledger(n, a1, h250, h700, Acct(Liability, 0, 35, tx))
    case _ => Ledger(n, Acct(Asset, 985, 0, tx), h250, h700, Acct(Liability, 0, 35, tx))
  }

  /** Serial operation `i` of the chain succeeds and takes the accounts from
      `ChainWorld(i)` to `ChainWorld(i + 1)`. */
  lemma ChainStep(n: Names, tx: TransactionId, i: nat)
    requires Apart(n) && i < 8
    ensures Execute(ChainWorld(n, tx, i), ChainOps(n, tx)[i]).result.Ok?
    ensures Execute(ChainWorld(n, tx, i), ChainOps(n, tx)[i]).world == ChainWorld(n, tx, i + 1)
  {
    match i
    case 0 => ChainStep0(n, tx);
    case 1 => ChainStep1(n, tx);
    case 2 => ChainStep2(n, tx);
    case 3 => ChainStep3(n, tx);
    case 4 => ChainStep4(n, tx);
    case 5 => ChainStep5(n, tx);
    case 6 => ChainStep6(n, tx);
    case _ => ChainStep7(n, tx);
  }

  lemma ChainStep0(n: Names, tx: TransactionId)
    requires Apart(n)
    ensures Execute(ChainWorld(n, tx, 0), ChainOps(n, tx)[0]).result.Ok?
    ensures Execute(ChainWorld(n, tx, 0), ChainOps(n, tx)[0]).world == ChainWorld(n, tx, 1)
  {
    assert ChainOps(n, tx)[0] == Op.AsyncDebit(n.asset, M(1000));
    AssetDebitStep(ChainWorld(n, tx, 0), n.asset, 0, 1000, tx);
    UpdateAsset(n, Acct(Asset, 0, 0, tx), Acct(Liability, 0, 0, tx), Acct(Liability, 0, 0, tx), Acct(Liability, 0, 0, tx), Acct(Asset, 1000, 0, tx));
  }

  lemma ChainStep1(n: Names, tx: TransactionId)
    requires Apart(n)
    ensures Execute(ChainWorld(n, tx, 1), ChainOps(n, tx)[1]).result.Ok?
    ensures Execute(ChainWorld(n, tx, 1), ChainOps(n, tx)[1]).world == ChainWorld(n, tx, 2)
  {
    assert ChainOps(n, tx)[1] == Op.TransactionalCredit(n.l1, tx, M(1000));
    LiabilityCreditStep(ChainWorld(n, tx, 1), n.l1, 0, 0, 1000, tx);
    UpdateL1(n, Acct(Asset, 1000, 0, tx), Acct(Liability, 0, 0, tx), Acct(Liability, 0, 0, tx), Acct(Liability, 0, 0, tx), Acct(Liability, 0, 1000, tx));
  }

  lemma ChainStep2(n: Names, tx: TransactionId)
    requires Apart(n)
    ensures Execute(ChainWorld(n, tx, 2), ChainOps(n, tx)[2]).result.Ok?
    ensures Execute(ChainWorld(n, tx, 2), ChainOps(n, tx)[2]).world == ChainWorld(n, tx, 3)
  {
    assert ChainOps(n, tx)[2] == Op.TransactionalDebit(n.l1, tx, M(750));
    LiabilityDebitStep(ChainWorld(n, tx, 2), n.l1, 0, 1000, 750, tx);
    UpdateL1(n, Acct(Asset, 1000, 0, tx), Acct(Liability, 0, 1000, tx), Acct(Liability, 0, 0, tx), Acct(Liability, 0, 0, tx), Acct(Liability, 0, 250, tx));
  }

  lemma ChainStep3(n: Names, tx: TransactionId)
    requires Apart(n)
    ensures Execute(ChainWorld(n, tx, 3), ChainOps(n, tx)[3]).result.Ok?
    ensures Execute(ChainWorld(n, tx, 3), ChainOps(n, tx)[3]).world == ChainWorld(n, tx, 4)
  {
    assert ChainOps(n, tx)[3] == Op.TransactionalCredit(n.l2, tx, M(750));
    LiabilityCreditStep(ChainWorld(n, tx, 3), n.l2, 0, 0, 750, tx);
    UpdateL2(n, Acct(Asset, 1000, 0, tx), Acct(Liability, 0, 250, tx), Acct(Liability, 0, 0, tx), Acct(Liability, 0, 0, tx), Acct(Liability, 0, 750, tx));
  }

  lemma ChainStep4(n: Names, tx: TransactionId)
    requires Apart(n)
    ensures Execute(ChainWorld(n, tx, 4), ChainOps(n, tx)[4]).result.Ok?
    ensures Execute(ChainWorld(n, tx, 4), ChainOps(n, tx)[4]).world == ChainWorld(n, tx, 5)
  {
    assert ChainOps(n, tx)[4] == Op.TransactionalDebit(n.l2, tx, M(50));
    LiabilityDebitStep(ChainWorld(n, tx, 4), n.l2, 0, 750, 50, tx);
    UpdateL2(n, Acct(Asset, 1000, 0, tx), Acct(Liability, 0, 250, tx), Acct(Liability, 0, 750, tx), Acct(Liability, 0, 0, tx), Acct(Liability, 0, 700, tx));
  }

  lemma ChainStep5(n: Names, tx: TransactionId)
    requires Apart(n)
    ensures Execute(ChainWorld(n, tx, 5), ChainOps(n, tx)[5]).result.Ok?
    ensures Execute(ChainWorld(n, tx, 5), ChainOps(n, tx)[5]).world == ChainWorld(n, tx, 6)
  {
    assert ChainOps(n, tx)[5] == Op.TransactionalCredit(n.l3, tx, M(50));
    LiabilityCreditStep(ChainWorld(n, tx, 5), n.l3, 0, 0, 50, tx);
    UpdateL3(n, Acct(Asset, 1000, 0, tx), Acct(Liability, 0, 250, tx), Acct(Liability, 0, 700, tx), Acct(Liability, 0, 0, tx), Acct(Liability, 0, 50, tx));
  }

  lemma ChainStep6(n: Names, tx: TransactionId)
    requires Apart(n)
    ensures Execute(ChainWorld(n, tx, 6), ChainOps(n, tx)[6]).result.Ok?
    ensures Execute(ChainWorld(n, tx, 6), ChainOps(n, tx)[6]).world == ChainWorld(n, tx, 7)
  {
    assert ChainOps(n, tx)[6] == Op.TransactionalDebit(n.l3, tx, M(15));
    LiabilityDebitStep(ChainWorld(n, tx, 6), n.l3, 0, 50, 15, tx);
    UpdateL3(n, Acct(Asset, 1000, 0, tx), Acct(Liability, 0, 250, tx), Acct(Liability, 0, 700, tx), Acct(Liability, 0, 50, tx), Acct(Liability, 0, 35, tx));
  }

  lemma ChainStep7(n: Names, tx: TransactionId)
    requires Apart(n)
    ensures Execute(ChainWorld(n, tx, 7), ChainOps(n, tx)[7]).result.Ok?
    ensures Execute(ChainWorld(n, tx, 7), ChainOps(n, tx)[7]).world == ChainWorld(n, tx, 8)
  {
    assert ChainOps(n, tx)[7] == Op.TransactionalCredit(n.asset, tx, M(15));
    AssetCreditStep(ChainWorld(n, tx, 7), n.asset, 1000, 15, tx);
    UpdateAsset(n, Acct(Asset, 1000, 0, tx), Acct(Liability, 0, 250, tx), Acct(Liability, 0, 700, tx), Acct(Liability, 0, 35, tx), Acct(Asset, 985, 0, tx));
  }

  /** Each serial operation of the chain succeeds; the money moves through the liabilities'
      transaction holds, and the phase ends with 985 on the asset and each liability's
      balance still held for the transaction. */
  lemma ChainSerial(n: Names, tx: TransactionId, asyncReversal: AsyncReversal)
    requires Apart(n)
    ensures TransactionalSerial(Start(n, tx), tx, ChainMoves(n), asyncReversal).failure.None?
    ensures TransactionalSerial(Start(n, tx), tx, ChainMoves(n), asyncReversal).world == ChainWorld(n, tx, 8)
  {
    var ops := LP.TransactionalPlan(tx, ChainMoves(n)).serialOperations;
    ChainPlan(n, tx);
    var ws := seq(9, i requires 0 <= i < 9 => ChainWorld(n, tx, i));
    forall i | 0 <= i < |ops|
      ensures Execute(ws[i], ops[i]).result.Ok? && Execute(ws[i], ops[i]).world == ws[i + 1]
    {
      ChainStep(n, tx, i);
    }
    ExecuteMatching();
    SerialSucceeds(Execute, ws, ops, Sagas.NewSaga(), asyncReversal);
  }

  /** The chain run transactionally: the serial phase succeeds, the releases move each
      liability's transaction hold to available, and the accounts end at 985, 250, 700 and
      35 available with nothing on hold; the move reports no error. */
  lemma TransactionalChain(n: Names, tx: TransactionId, asyncReversal: AsyncReversal)
    requires Apart(n)
    ensures var r := TransactionalBulkMove(Start(n, tx), tx, ChainMoves(n), asyncReversal);
      && r.failure.None?
      && Get(r.world, n.asset) == Acct(Asset, 985, 0, tx)
      && Get(r.world, n.l1) == Acct(Liability, 250, 0, tx)
      && Get(r.world, n.l2) == Acct(Liability, 700, 0, tx)
      && Get(r.world, n.l3) == Acct(Liability, 35, 0, tx)
  {
    var r := TransactionalBulkMove(Start(n, tx), tx, ChainMoves(n), asyncReversal);
    var end := ChainWorld(n, tx, 8);
    ChainEndReleases(n, tx);
    ChainReleases(n, tx, asyncReversal);
    assert Get(r.world, n.asset) == Accounts.TransactionReleaseHold(Get(end, n.asset), tx).account;
    assert Get(r.world, n.l1) == Accounts.TransactionReleaseHold(Get(end, n.l1), tx).account;
    assert Get(r.world, n.l2) == Accounts.TransactionReleaseHold(Get(end, n.l2), tx).account;
    assert Get(r.world, n.l3) == Accounts.TransactionReleaseHold(Get(end, n.l3), tx).account;
  }

  /** Releasing the transaction hold of each account at the end of the chain's serial phase
      succeeds and moves the hold to available. */
  lemma ChainEndReleases(n: Names, tx: TransactionId)
    requires Apart(n)
    ensures var end := ChainWorld(n, tx, 8);
      && Accounts.TransactionReleaseHold(Get(end, n.asset), tx).result.Ok?
      && Accounts.TransactionReleaseHold(Get(end, n.asset), tx).account == Acct(Asset, 985, 0, tx)
      && Accounts.TransactionReleaseHold(Get(end, n.l1), tx).result.Ok?
      && Accounts.TransactionReleaseHold(Get(end, n.l1), tx).account == Acct(Liability, 250, 0, tx)
      && Accounts.TransactionReleaseHold(Get(end, n.l2), tx).result.Ok?
      && Accounts.TransactionReleaseHold(Get(end, n.l2), tx).account == Acct(Liability, 700, 0, tx)
      && Accounts.TransactionReleaseHold(Get(end, n.l3), tx).result.Ok?
      && Accounts.TransactionReleaseHold(Get(end, n.l3), tx).account == Acct(Liability, 35, 0, tx)
    ensures var end := ChainWorld(n, tx, 8);
      forall d | d in [n.l1, n.l2, n.l3, n.asset] :: Accounts.TransactionReleaseHold(Get(end, d), tx).result.Ok?
  {
    assert ChainWorld(n, tx, 8) == Ledger(n, Acct(Asset, 985, 0, tx), Acct(Liability, 0, 250, tx), Acct(Liability, 0, 700, tx), Acct(Liability, 0, 35, tx));
    LedgerGet(n, Acct(Asset, 985, 0, tx), Acct(Liability, 0, 250, tx), Acct(Liability, 0, 700, tx), Acct(Liability, 0, 35, tx));
    ReleaseTransactionHold(Asset, 985, 0, tx);
    ReleaseTransactionHold(Liability, 0, 250, tx);
    ReleaseTransactionHold(Liability, 0, 700, tx);
    ReleaseTransactionHold(Liability, 0, 35, tx);
  }

  /** The chain's releases: each destination ends as releasing its transaction hold leaves
      it, and the move reports no error exactly when every release succeeds. */
  lemma ChainReleases(n: Names, tx: TransactionId, asyncReversal: AsyncReversal)
    requires Apart(n)
    ensures var r := TransactionalBulkMove(Start(n, tx), tx, ChainMoves(n), asyncReversal);
      var end := ChainWorld(n, tx, 8);
      && (forall d | d in [n.l1, n.l2, n.l3, n.asset] :: Get(r.world, d) == Accounts.TransactionReleaseHold(Get(end, d), tx).account)
      && (r.failure.None? <==> forall d | d in [n.l1, n.l2, n.l3, n.asset] :: Accounts.TransactionReleaseHold(Get(end, d), tx).result.Ok?)
  {
    ChainSerial(n, tx, asyncReversal);
    TransactionalBulkMoveCompletes(Start(n, tx), tx, ChainMoves(n), asyncReversal);
    ChainDestinations(n);
  }

  lemma ChainDestinations(n: Names)
    ensures LP.Destinations(ChainMoves(n)) == [n.l1, n.l2, n.l3, n.asset]
  {
    var ds := LP.Destinations(ChainMoves(n));
    assert ds[0] == n.l1 && ds[1] == n.l2 && ds[2] == n.l3 && ds[3] == n.asset;
  }

  /** asset to liability 1, 1000; liability 1 to 2, 750; 2 to the asset, 180; then 2 to 3,
      800, more than liability 2 holds. */
  function RollbackMoves(n: Names): seq<Op.MoveMoneyInstruction> {
    [Move(n.asset, n.l1, 1000), Move(n.l1, n.l2, 750), Move(n.l2, n.asset, 180), Move(n.l2, n.l3, 800)]
  }

  function RollbackOps(n: Names, tx: TransactionId): seq<Op.AccountOperation> {
    [Op.AsyncDebit(n.asset, M(1000)), Op.TransactionalCredit(n.l1, tx, M(1000)),
     Op.TransactionalDebit(n.l1, tx, M(750)), Op.TransactionalCredit(n.l2, tx, M(750)),
     Op.TransactionalDebit(n.l2, tx, M(180)), Op.TransactionalCredit(n.asset, tx, M(180)),
     Op.TransactionalDebit(n.l2, tx, M(800)), Op.TransactionalCredit(n.l3, tx, M(800))]
  }

  lemma RollbackPlan(n: Names, tx: TransactionId)
    ensures LP.TransactionalPlan(tx, RollbackMoves(n)).serialOperations == RollbackOps(n, tx)
  {
    var ms := RollbackMoves(n);
    var ops := LP.TransactionalPlan(tx, ms).serialOperations;
    LP.TransactionalOperationsShape(tx, ms);
    assert |ops| == 8;
    assert ops[0] == LP.ExpectedDebitSide(tx, ms, 0) == Op.AsyncDebit(n.asset, M(1000));
    assert ms[0].destination == ms[1].source;
    assert ops[2] == LP.ExpectedDebitSide(tx, ms, 1) == Op.TransactionalDebit(n.l1, tx, M(750));
    assert ms[1].destination == ms[2].source;
    assert ops[4] == LP.ExpectedDebitSide(tx, ms, 2) == Op.TransactionalDebit(n.l2, tx, M(180));
    assert ms[1].destination == ms[3].source;
    assert ops[6] == LP.ExpectedDebitSide(tx, ms, 3) == Op.TransactionalDebit(n.l2, tx, M(800));
    assert ops[1] == Op.TransactionalCredit(n.l1, tx, M(1000));
    assert ops[3] == Op.TransactionalCredit(n.l2, tx, M(750));
    assert ops[5] == Op.TransactionalCredit(n.asset, tx, M(180));
    assert ops[7] == Op.TransactionalCredit(n.l3, tx, M(800));
  }

  /** The accounts before serial operation `i` of the failing run; the first four steps are
      those of the chain. */
  function RollbackWorld(n: Names, tx: TransactionId, i: nat): World
    requires i <= 6
  {
    if i <= 4 then ChainWorld(n, tx, i)
    else
      var asset := if i == 5 then Acct(Asset, 1000, 0, tx) else Acct(Asset, 820, 0, tx);
      Ledger(n, asset, Acct(Liability, 0, 250, tx), Acct(Liability, 0, 570, tx), Acct(Liability, 0, 0, tx))
  }

  /** The fourth debit asks liability 2 for 800 when its hold is 570 and nothing is
      available: it fails with an insufficient balance. */
  lemma RollbackStep6(n: Names, tx: TransactionId)
    requires Apart(n)
    ensures Execute(RollbackWorld(n, tx, 6), RollbackOps(n, tx)[6]).result == Err(InsufficientBalance)
  {
    assert RollbackOps(n, tx)[6] == Op.TransactionalDebit(n.l2, tx, M(800));
    LiabilityTransactionalDebit(0, 570, 800, tx);
  }

  /** Operations `0..5` of the failing run succeed, each undone by its reversal where it ran:
      the async debit because its reversal is a credit, the transactional credits because
      the holds they add to are transaction holds, and the transactional debits because the
      transaction's hold covers them. */
  lemma RollbackStep(n: Names, tx: TransactionId, asyncReversal: AsyncReversal, i: nat)
    requires Apart(n) && i < 6
    requires asyncReversal(n.asset, M(1000)) == Op.Credit(n.asset, M(1000))
    ensures Execute(RollbackWorld(n, tx, i), RollbackOps(n, tx)[i]).result.Ok?
    ensures Execute(RollbackWorld(n, tx, i), RollbackOps(n, tx)[i]).world == RollbackWorld(n, tx, i + 1)
    ensures RestorableAt(RollbackWorld(n, tx, i), RollbackOps(n, tx)[i], asyncReversal)
  {
    match i
    case 0 => RollbackStep0(n, tx, asyncReversal);
    case 1 => RollbackStep1(n, tx, asyncReversal);
    case 2 => RollbackStep2(n, tx, asyncReversal);
    case 3 => RollbackStep3(n, tx, asyncReversal);
    case 4 => RollbackStep4(n, tx, asyncReversal);
    case _ => RollbackStep5(n, tx, asyncReversal);
  }

  lemma RollbackStep0(n: Names, tx: TransactionId, asyncReversal: AsyncReversal)
    requires Apart(n)
    requires asyncReversal(n.asset, M(1000)) == Op.Credit(n.asset, M(1000))
    ensures Execute(RollbackWorld(n, tx, 0), RollbackOps(n, tx)[0]).result.Ok?
    ensures Execute(RollbackWorld(n, tx, 0), RollbackOps(n, tx)[0]).world == RollbackWorld(n, tx, 1)
    ensures RestorableAt(RollbackWorld(n, tx, 0), RollbackOps(n, tx)[0], asyncReversal)
  {
    assert RollbackOps(n, tx)[0] == Op.AsyncDebit(n.asset, M(1000));
    ChainStep0(n, tx);
  }

  lemma RollbackStep1(n: Names, tx: TransactionId, asyncReversal: AsyncReversal)
    requires Apart(n)
    requires asyncReversal(n.asset, M(1000)) == Op.Credit(n.asset, M(1000))
    ensures Execute(RollbackWorld(n, tx, 1), RollbackOps(n, tx)[1]).result.Ok?
    ensures Execute(RollbackWorld(n, tx, 1), RollbackOps(n, tx)[1]).world == RollbackWorld(n, tx, 2)
    ensures RestorableAt(RollbackWorld(n, tx, 1), RollbackOps(n, tx)[1], asyncReversal)
  {
    assert RollbackOps(n, tx)[1] == Op.TransactionalCredit(n.l1, tx, M(1000));
    ChainStep1(n, tx);
    AcctValid(Liability, 0, 0, tx);
  }

  lemma RollbackStep2(n: Names, tx: TransactionId, asyncReversal: AsyncReversal)
    requires Apart(n)
    requires asyncReversal(n.asset, M(1000)) == Op.Credit(n.asset, M(1000))
    ensures Execute(RollbackWorld(n, tx, 2), RollbackOps(n, tx)[2]).result.Ok?
    ensures Execute(RollbackWorld(n, tx, 2), RollbackOps(n, tx)[2]).world == RollbackWorld(n, tx, 3)
    ensures RestorableAt(RollbackWorld(n, tx, 2), RollbackOps(n, tx)[2], asyncReversal)
  {
    assert RollbackOps(n, tx)[2] == Op.TransactionalDebit(n.l1, tx, M(750));
    ChainStep2(n, tx);
    AcctValid(Liability, 0, 1000, tx);
  }

  lemma RollbackStep3(n: Names, tx: TransactionId, asyncReversal: AsyncReversal)
    requires Apart(n)
    requires asyncReversal(n.asset, M(1000)) == Op.Credit(n.asset, M(1000))
    ensures Execute(RollbackWorld(n, tx, 3), RollbackOps(n, tx)[3]).result.Ok?
    ensures Execute(RollbackWorld(n, tx, 3), RollbackOps(n, tx)[3]).world == RollbackWorld(n, tx, 4)
    ensures RestorableAt(RollbackWorld(n, tx, 3), RollbackOps(n, tx)[3], asyncReversal)
  {
    assert RollbackOps(n, tx)[3] == Op.TransactionalCredit(n.l2, tx, M(750));
    ChainStep3(n, tx);
    AcctValid(Liability, 0, 0, tx);
  }

  lemma RollbackStep4(n: Names, tx: TransactionId, asyncReversal: AsyncReversal)
    requires Apart(n)
    requires asyncReversal(n.asset, M(1000)) == Op.Credit(n.asset, M(1000))
    ensures Execute(RollbackWorld(n, tx, 4), RollbackOps(n, tx)[4]).result.Ok?
    ensures Execute(RollbackWorld(n, tx, 4), RollbackOps(n, tx)[4]).world == RollbackWorld(n, tx, 5)
    ensures RestorableAt(RollbackWorld(n, tx, 4), RollbackOps(n, tx)[4], asyncReversal)
  {
    assert RollbackOps(n, tx)[4] == Op.TransactionalDebit(n.l2, tx, M(180));
    LiabilityDebitStep(RollbackWorld(n, tx, 4), n.l2, 0, 750, 180, tx);
    UpdateL2(n, Acct(Asset, 1000, 0, tx), Acct(Liability, 0, 250, tx), Acct(Liability, 0, 750, tx),
             Acct(Liability, 0, 0, tx), Acct(Liability, 0, 570, tx));
    AcctValid(Liability, 0, 750, tx);
  }

  lemma RollbackStep5(n: Names, tx: TransactionId, asyncReversal: AsyncReversal)
    requires Apart(n)
    requires asyncReversal(n.asset, M(1000)) == Op.Credit(n.asset, M(1000))
    ensures Execute(RollbackWorld(n, tx, 5), RollbackOps(n, tx)[5]).result.Ok?
    ensures Execute(RollbackWorld(n, tx, 5), RollbackOps(n, tx)[5]).world == RollbackWorld(n, tx, 6)
    ensures RestorableAt(RollbackWorld(n, tx, 5), RollbackOps(n, tx)[5], asyncReversal)
  {
    assert RollbackOps(n, tx)[5] == Op.TransactionalCredit(n.asset, tx, M(180));
    AssetCreditStep(RollbackWorld(n, tx, 5), n.asset, 1000, 180, tx);
    UpdateAsset(n, Acct(Asset, 1000, 0, tx), Acct(Liability, 0, 250, tx), Acct(Liability, 0, 570, tx),
                Acct(Liability, 0, 0, tx), Acct(Asset, 820, 0, tx));
    AcctValid(Asset, 1000, 0, tx);
  }

  lemma StartValid(n: Names, tx: TransactionId)
    ensures ValidWorld(Start(n, tx))
  {
    AcctValid(Asset, 0, 0, tx);
    AcctValid(Liability, 0, 0, tx);
  }

  /** The serial phase of the failing run stops at the fourth debit with an insufficient
      balance, and every operation before it can be undone where it ran. */
  lemma RollbackSerial(n: Names, tx: TransactionId, asyncReversal: AsyncReversal)
    requires Apart(n)
    requires asyncReversal(n.asset, M(1000)) == Op.Credit(n.asset, M(1000))
    ensures UndoableRun(Execute, Start(n, tx), LP.TransactionalPlan(tx, RollbackMoves(n)).serialOperations, asyncReversal)
    ensures TransactionalSerial(Start(n, tx), tx, RollbackMoves(n), asyncReversal).failure == Some(InsufficientBalance)
  {
    var ops := LP.TransactionalPlan(tx, RollbackMoves(n)).serialOperations;
    RollbackPlan(n, tx);
    var ws := seq(7, i requires 0 <= i < 7 => RollbackWorld(n, tx, i));
    forall i | 0 <= i < 6
      ensures Execute(ws[i], ops[i]).result.Ok? && Execute(ws[i], ops[i]).world == ws[i + 1]
      ensures RestorableAt(ws[i], ops[i], asyncReversal)
    {
      RollbackStep(n, tx, asyncReversal, i);
    }
    assert forall i | 0 <= i <= 6 :: NonNegative(ops[i]);
    RollbackStep6(n, tx);
    ExecuteMatching();
    SerialFailsAt(Execute, ws, ops, Sagas.NewSaga(), asyncReversal, 6);
  }

  /** The failing run done transactionally: the fourth debit fails, the compensations undo
      the six operations before it, every account is back at zero, and the insufficient
      balance surfaces, provided an async debit is reversed by a credit. */
  lemma TransactionalRollback(n: Names, tx: TransactionId, asyncReversal: AsyncReversal)
    requires Apart(n)
    requires asyncReversal(n.asset, M(1000)) == Op.Credit(n.asset, M(1000))
    ensures var r := TransactionalBulkMove(Start(n, tx), tx, RollbackMoves(n), asyncReversal);
      && r.failure == Some(InsufficientBalance)
      && r.world == Start(n, tx)
      && Get(r.world, n.asset) == Acct(Asset, 0, 0, tx)
      && Get(r.world, n.l1) == Acct(Liability, 0, 0, tx)
      && Get(r.world, n.l2) == Acct(Liability, 0, 0, tx)
      && Get(r.world, n.l3) == Acct(Liability, 0, 0, tx)
  {
    RollbackSerial(n, tx, asyncReversal);
    StartValid(n, tx);
    TransactionalBulkMoveRollsBack(Start(n, tx), tx, RollbackMoves(n), asyncReversal);
  }


  // ---- The same two runs, non-transactionally ----

  /** The chain's non-transactional serial operations: an async debit of every source and a
      credit of every destination. */
  function PlainChainOps(n: Names): seq<Op.AccountOperation> {
    [Op.AsyncDebit(n.asset, M(1000)), Op.Credit(n.l1, M(1000)),
     Op.AsyncDebit(n.l1, M(750)), Op.Credit(n.l2, M(750)),
     Op.AsyncDebit(n.l2, M(50)), Op.Credit(n.l3, M(50)),
     Op.AsyncDebit(n.l3, M(15)), Op.Credit(n.asset, M(15))]
  }

  /** The chain's accounts before non-transactional operation `i` runs, and after the last. */
  function PlainChainWorld(n: Names, tx: TransactionId, i: nat): World
    requires i <= 8
  {
    var l0 := Acct(Liability, 0, 0, tx);
    var a1 := Acct(Asset, 1000, 0, tx);
    match i
    case 0 => Start(n, tx)
    case 1 => Ledger(n, a1, l0, l0, l0)
    case 2 => Ledger(n, a1, Acct(Liability, 1000, 0, tx), l0, l0)
    case 3 => Ledger(n, a1, Acct(Liability, 250, 0, tx), l0, l0)
    case 4 => Ledger(n, a1, Acct(Liability, 250, 0, tx), Acct(Liability, 750, 0, tx), l0)
    case 5 => Ledger(n, a1, Acct(Liability, 250, 0, tx), Acct(Liability, 700, 0, tx), l0)
    case 6 => Ledger(n, a1, Acct(Liability, 250, 0, tx), Acct(Liability, 700, 0, tx), Acct(Liability, 50, 0, tx))
    case 7 => Ledger(n, a1, Acct(Liability, 250, 0, tx), Acct(Liability, 700, 0, tx), Acct(Liability, 35, 0, tx))
    case _ => Ledger(n, Acct(Asset, 985, 0, tx), Acct(Liability, 250, 0, tx), Acct(Liability, 700, 0, tx), Acct(Liability, 35, 0, tx))
  }

  lemma PlainChainStep(n: Names, tx: TransactionId, i: nat)
    requires Apart(n) && i < 8
    ensures Execute(PlainChainWorld(n, tx, i), PlainChainOps(n)[i]).result.Ok?
    ensures Execute(PlainChainWorld(n, tx, i), PlainChainOps(n)[i]).world == PlainChainWorld(n, tx, i + 1)
  {
    match i
    case 0 => PlainChainStep0(n, tx);
    case 1 => PlainChainStep1(n, tx);
    case 2 => PlainChainStep2(n, tx);
    case 3 => PlainChainStep3(n, tx);
    case 4 => PlainChainStep4(n, tx);
    case 5 => PlainChainStep5(n, tx);
    case 6 => PlainChainStep6(n, tx);
    case _ => PlainChainStep7(n, tx);
  }

  lemma PlainChainStep0(n: Names, tx: TransactionId)
    requires Apart(n)
    ensures Execute(PlainChainWorld(n, tx, 0), PlainChainOps(n)[0]).result.Ok?
    ensures Execute(PlainChainWorld(n, tx, 0), PlainChainOps(n)[0]).world == PlainChainWorld(n, tx, 1)
  {
    assert PlainChainOps(n)[0] == Op.AsyncDebit(n.asset, M(1000));
    AssetDebitStep(PlainChainWorld(n, tx, 0), n.asset, 0, 1000, tx);
    UpdateAsset(n, Acct(Asset, 0, 0, tx), Acct(Liability, 0, 0, tx), Acct(Liability, 0, 0, tx), Acct(Liability, 0, 0, tx), Acct(Asset, 1000, 0, tx));
  }

  lemma PlainChainStep1(n: Names, tx: TransactionId)
    requires Apart(n)
    ensures Execute(PlainChainWorld(n, tx, 1), PlainChainOps(n)[1]).result.Ok?
    ensures Execute(PlainChainWorld(n, tx, 1), PlainChainOps(n)[1]).world == PlainChainWorld(n, tx, 2)
  {
    assert PlainChainOps(n)[1] == Op.Credit(n.l1, M(1000));
    LiabilityPlainCreditStep(PlainChainWorld(n, tx, 1), n.l1, 0, 1000, tx);
    UpdateL1(n, Acct(Asset, 1000, 0, tx), Acct(Liability, 0, 0, tx), Acct(Liability, 0, 0, tx), Acct(Liability, 0, 0, tx), Acct(Liability, 1000, 0, tx));
  }

  lemma PlainChainStep2(n: Names, tx: TransactionId)
    requires Apart(n)
    ensures Execute(PlainChainWorld(n, tx, 2), PlainChainOps(n)[2]).result.Ok?
    ensures Execute(PlainChainWorld(n, tx, 2), PlainChainOps(n)[2]).world == PlainChainWorld(n, tx, 3)
  {
    assert PlainChainOps(n)[2] == Op.AsyncDebit(n.l1, M(750));
    LiabilityPlainDebitStep(PlainChainWorld(n, tx, 2), n.l1, 1000, 750, tx);
    UpdateL1(n, Acct(Asset, 1000, 0, tx), Acct(Liability, 1000, 0, tx), Acct(Liability, 0, 0, tx), Acct(Liability, 0, 0, tx), Acct(Liability, 250, 0, tx));
  }

  lemma PlainChainStep3(n: Names, tx: TransactionId)
    requires Apart(n)
    ensures Execute(PlainChainWorld(n, tx, 3), PlainChainOps(n)[3]).result.Ok?
    ensures Execute(PlainChainWorld(n, tx, 3), PlainChainOps(n)[3]).world == PlainChainWorld(n, tx, 4)
  {
    assert PlainChainOps(n)[3] == Op.Credit(n.l2, M(750));
    LiabilityPlainCreditStep(PlainChainWorld(n, tx, 3), n.l2, 0, 750, tx);
    UpdateL2(n, Acct(Asset, 1000, 0, tx), Acct(Liability, 250, 0, tx), Acct(Liability, 0, 0, tx), Acct(Liability, 0, 0, tx), Acct(Liability, 750, 0, tx));
  }

  lemma PlainChainStep4(n: Names, tx: TransactionId)
    requires Apart(n)
    ensures Execute(PlainChainWorld(n, tx, 4), PlainChainOps(n)[4]).result.Ok?
    ensures Execute(PlainChainWorld(n, tx, 4), PlainChainOps(n)[4]).world == PlainChainWorld(n, tx, 5)
  {
    assert PlainChainOps(n)[4] == Op.AsyncDebit(n.l2, M(50));
    LiabilityPlainDebitStep(PlainChainWorld(n, tx, 4), n.l2, 750, 50, tx);
    UpdateL2(n, Acct(Asset, 1000, 0, tx), Acct(Liability, 250, 0, tx), Acct(Liability, 750, 0, tx), Acct(Liability, 0, 0, tx), Acct(Liability, 700, 0, tx));
  }

  lemma PlainChainStep5(n: Names, tx: TransactionId)
    requires Apart(n)
    ensures Execute(PlainChainWorld(n, tx, 5), PlainChainOps(n)[5]).result.Ok?
    ensures Execute(PlainChainWorld(n, tx, 5), PlainChainOps(n)[5]).world == PlainChainWorld(n, tx, 6)
  {
    assert PlainChainOps(n)[5] == Op.Credit(n.l3, M(50));
    LiabilityPlainCreditStep(PlainChainWorld(n, tx, 5), n.l3, 0, 50, tx);
    UpdateL3(n, Acct(Asset, 1000, 0, tx), Acct(Liability, 250, 0, tx), Acct(Liability, 700, 0, tx), Acct(Liability, 0, 0, tx), Acct(Liability, 50, 0, tx));
  }

  lemma PlainChainStep6(n: Names, tx: TransactionId)
    requires Apart(n)
    ensures Execute(PlainChainWorld(n, tx, 6), PlainChainOps(n)[6]).result.Ok?
    ensures Execute(PlainChainWorld(n, tx, 6), PlainChainOps(n)[6]).world == PlainChainWorld(n, tx, 7)
  {
    assert PlainChainOps(n)[6] == Op.AsyncDebit(n.l3, M(15));
    LiabilityPlainDebitStep(PlainChainWorld(n, tx, 6), n.l3, 50, 15, tx);
    UpdateL3(n, Acct(Asset, 1000, 0, tx), Acct(Liability, 250, 0, tx), Acct(Liability, 700, 0, tx), Acct(Liability, 50, 0, tx), Acct(Liability, 35, 0, tx));
  }

  lemma PlainChainStep7(n: Names, tx: TransactionId)
    requires Apart(n)
    ensures Execute(PlainChainWorld(n, tx, 7), PlainChainOps(n)[7]).result.Ok?
    ensures Execute(PlainChainWorld(n, tx, 7), PlainChainOps(n)[7]).world == PlainChainWorld(n, tx, 8)
  {
    assert PlainChainOps(n)[7] == Op.Credit(n.asset, M(15));
    AssetPlainCreditStep(PlainChainWorld(n, tx, 7), n.asset, 1000, 15, tx);
    UpdateAsset(n, Acct(Asset, 1000, 0, tx), Acct(Liability, 250, 0, tx), Acct(Liability, 700, 0, tx), Acct(Liability, 35, 0, tx), Acct(Asset, 985, 0, tx));
  }

  lemma PlainChainPlan(n: Names)
    ensures LP.NonTransactionalPlan(ChainMoves(n)).serialOperations == PlainChainOps(n)
  {
    var ops := LP.NonTransactionalPlan(ChainMoves(n)).serialOperations;
    var ms := ChainMoves(n);
    assert ops[2 * 0] == LP.DebitOperation(ms[0]) && ops[2 * 0 + 1] == Op.Credit(ms[0].destination, ms[0].amount);
    assert ops[2 * 1] == LP.DebitOperation(ms[1]) && ops[2 * 1 + 1] == Op.Credit(ms[1].destination, ms[1].amount);
    assert ops[2 * 2] == LP.DebitOperation(ms[2]) && ops[2 * 2 + 1] == Op.Credit(ms[2].destination, ms[2].amount);
    assert ops[2 * 3] == LP.DebitOperation(ms[3]) && ops[2 * 3 + 1] == Op.Credit(ms[3].destination, ms[3].amount);
  }

  lemma PlainChainSerial(n: Names, tx: TransactionId, asyncReversal: AsyncReversal)
    requires Apart(n)
    ensures Serial(Start(n, tx), ChainMoves(n), asyncReversal).failure.None?
    ensures Serial(Start(n, tx), ChainMoves(n), asyncReversal).world == PlainChainWorld(n, tx, 8)
  {
    var ops := LP.NonTransactionalPlan(ChainMoves(n)).serialOperations;
    PlainChainPlan(n);
    var ws := seq(9, i requires 0 <= i < 9 => PlainChainWorld(n, tx, i));
    forall i | 0 <= i < |ops|
      ensures Execute(ws[i], ops[i]).result.Ok? && Execute(ws[i], ops[i]).world == ws[i + 1]
    {
      PlainChainStep(n, tx, i);
    }
    ExecuteMatching();
    SerialSucceeds(Execute, ws, ops, Sagas.NewSaga(), asyncReversal);
  }

  /** The chain run non-transactionally ends at the same balances as the transactional run:
      985, 250, 700 and 35 available, nothing on hold, and no error. */
  lemma PlainChain(n: Names, tx: TransactionId, asyncReversal: AsyncReversal)
    requires Apart(n)
    ensures var r := BulkMove(Start(n, tx), ChainMoves(n), asyncReversal);
      && r.failure.None?
      && Get(r.world, n.asset) == Acct(Asset, 985, 0, tx)
      && Get(r.world, n.l1) == Acct(Liability, 250, 0, tx)
      && Get(r.world, n.l2) == Acct(Liability, 700, 0, tx)
      && Get(r.world, n.l3) == Acct(Liability, 35, 0, tx)
  {
    PlainChainSerial(n, tx, asyncReversal);
    BulkMoveCompletes(Start(n, tx), ChainMoves(n), asyncReversal);
    assert PlainChainWorld(n, tx, 8) == Ledger(n, Acct(Asset, 985, 0, tx), Acct(Liability, 250, 0, tx), Acct(Liability, 700, 0, tx), Acct(Liability, 35, 0, tx));
    LedgerGet(n, Acct(Asset, 985, 0, tx), Acct(Liability, 250, 0, tx), Acct(Liability, 700, 0, tx), Acct(Liability, 35, 0, tx));
  }

  /** The failing run's non-transactional serial operations. */
  function PlainRollbackOps(n: Names): seq<Op.AccountOperation> {
    [Op.AsyncDebit(n.asset, M(1000)), Op.Credit(n.l1, M(1000)),
     Op.AsyncDebit(n.l1, M(750)), Op.Credit(n.l2, M(750)),
     Op.AsyncDebit(n.l2, M(180)), Op.Credit(n.asset, M(180)),
     Op.AsyncDebit(n.l2, M(800)), Op.Credit(n.l3, M(800))]
  }

  function PlainRollbackWorld(n: Names, tx: TransactionId, i: nat): World
    requires i <= 6
  {
    if i <= 4 then PlainChainWorld(n, tx, i)
    else
      var asset := if i == 5 then Acct(Asset, 1000, 0, tx) else Acct(Asset, 820, 0, tx);
      Ledger(n, asset, Acct(Liability, 250, 0, tx), Acct(Liability, 570, 0, tx), Acct(Liability, 0, 0, tx))
  }

  lemma PlainRollbackStep(n: Names, tx: TransactionId, i: nat)
    requires Apart(n) && i < 6
    ensures Execute(PlainRollbackWorld(n, tx, i), PlainRollbackOps(n)[i]).result.Ok?
    ensures Execute(PlainRollbackWorld(n, tx, i), PlainRollbackOps(n)[i]).world == PlainRollbackWorld(n, tx, i + 1)
  {
    if i < 4 {
      PlainRollbackPrefix(n, tx, i);
    }
    match i
    case 0 => PlainChainStep0(n, tx);
    case 1 => PlainChainStep1(n, tx);
    case 2 => PlainChainStep2(n, tx);
    case 3 => PlainChainStep3(n, tx);
    case 4 => PlainRollbackStep4(n, tx);
    case _ => PlainRollbackStep5(n, tx);
  }

  /** The failing run's first four operations, and the accounts around them, are the chain's. */
  lemma PlainRollbackPrefix(n: Names, tx: TransactionId, i: nat)
    requires i < 4
    ensures PlainRollbackOps(n)[i] == PlainChainOps(n)[i]
    ensures PlainRollbackWorld(n, tx, i) == PlainChainWorld(n, tx, i)
    ensures PlainRollbackWorld(n, tx, i + 1) == PlainChainWorld(n, tx, i + 1)
  {
  }

  lemma PlainRollbackStep4(n: Names, tx: TransactionId)
    requires Apart(n)
    ensures Execute(PlainRollbackWorld(n, tx, 4), PlainRollbackOps(n)[4]).result.Ok?
    ensures Execute(PlainRollbackWorld(n, tx, 4), PlainRollbackOps(n)[4]).world == PlainRollbackWorld(n, tx, 5)
  {
    assert PlainRollbackOps(n)[4] == Op.AsyncDebit(n.l2, M(180));
    LiabilityPlainDebitStep(PlainRollbackWorld(n, tx, 4), n.l2, 750, 180, tx);
    UpdateL2(n, Acct(Asset, 1000, 0, tx), Acct(Liability, 250, 0, tx), Acct(Liability, 750, 0, tx), Acct(Liability, 0, 0, tx), Acct(Liability, 570, 0, tx));
  }

  lemma PlainRollbackStep5(n: Names, tx: TransactionId)
    requires Apart(n)
    ensures Execute(PlainRollbackWorld(n, tx, 5), PlainRollbackOps(n)[5]).result.Ok?
    ensures Execute(PlainRollbackWorld(n, tx, 5), PlainRollbackOps(n)[5]).world == PlainRollbackWorld(n, tx, 6)
  {
    assert PlainRollbackOps(n)[5] == Op.Credit(n.asset, M(180));
    AssetPlainCreditStep(PlainRollbackWorld(n, tx, 5), n.asset, 1000, 180, tx);
    UpdateAsset(n, Acct(Asset, 1000, 0, tx), Acct(Liability, 250, 0, tx), Acct(Liability, 570, 0, tx), Acct(Liability, 0, 0, tx), Acct(Asset, 820, 0, tx));
  }

  /** Liability 2 has 570 available when asked for 800: the debit fails. */
  lemma PlainRollbackStep6(n: Names, tx: TransactionId)
    requires Apart(n)
    ensures Execute(PlainRollbackWorld(n, tx, 6), PlainRollbackOps(n)[6]).result == Err(InsufficientBalance)
  {
    assert PlainRollbackOps(n)[6] == Op.AsyncDebit(n.l2, M(800));
  }

  lemma PlainRollbackPlan(n: Names)
    ensures LP.NonTransactionalPlan(RollbackMoves(n)).serialOperations == PlainRollbackOps(n)
  {
    var ops := LP.NonTransactionalPlan(RollbackMoves(n)).serialOperations;
    var ms := RollbackMoves(n);
    assert ops[2 * 0] == LP.DebitOperation(ms[0]) && ops[2 * 0 + 1] == Op.Credit(ms[0].destination, ms[0].amount);
    assert ops[2 * 1] == LP.DebitOperation(ms[1]) && ops[2 * 1 + 1] == Op.Credit(ms[1].destination, ms[1].amount);
    assert ops[2 * 2] == LP.DebitOperation(ms[2]) && ops[2 * 2 + 1] == Op.Credit(ms[2].destination, ms[2].amount);
    assert ops[2 * 3] == LP.DebitOperation(ms[3]) && ops[2 * 3 + 1] == Op.Credit(ms[3].destination, ms[3].amount);
  }

  /** Every operation of the failing run can be reversed when an async debit is reversed by a
      credit of the same amount on the same account. */
  lemma PlainRollbackRestorable(n: Names, asyncReversal: AsyncReversal)
    requires forall id, m :: asyncReversal(id, m) == Op.Credit(id, m)
    ensures forall i | 0 <= i < |PlainRollbackOps(n)| :: Restorable(PlainRollbackOps(n)[i], asyncReversal)
  {
  }

  /** The serial phase of the failing run stops at the fourth debit with an insufficient
      balance. */
  lemma PlainRollbackSerial(n: Names, tx: TransactionId, asyncReversal: AsyncReversal)
    requires Apart(n)
    requires forall id, m :: asyncReversal(id, m) == Op.Credit(id, m)
    ensures Serial(Start(n, tx), RollbackMoves(n), asyncReversal).failure == Some(InsufficientBalance)
  {
    var ops := LP.NonTransactionalPlan(RollbackMoves(n)).serialOperations;
    PlainRollbackPlan(n);
    PlainRollbackRestorable(n, asyncReversal);
    var ws := seq(7, i requires 0 <= i < 7 => PlainRollbackWorld(n, tx, i));
    forall i | 0 <= i < 6
      ensures Execute(ws[i], ops[i]).result.Ok? && Execute(ws[i], ops[i]).world == ws[i + 1]
      ensures RestorableAt(ws[i], ops[i], asyncReversal)
    {
      PlainRollbackStep(n, tx, i);
    }
    assert forall i | 0 <= i <= 6 :: NonNegative(ops[i]);
    PlainRollbackStep6(n, tx);
    ExecuteMatching();
    SerialFailsAt(Execute, ws, ops, Sagas.NewSaga(), asyncReversal, 6);
  }

  /** The failing run done non-transactionally: every account is back at zero and the
      insufficient balance surfaces, provided an async debit is reversed by a credit of the
      same amount on the same account. */
  lemma PlainRollback(n: Names, tx: TransactionId, asyncReversal: AsyncReversal)
    requires Apart(n)
    requires forall id, m :: asyncReversal(id, m) == Op.Credit(id, m)
    ensures var r := BulkMove(Start(n, tx), RollbackMoves(n), asyncReversal);
      && r.failure == Some(InsufficientBalance)
      && r.world == Start(n, tx)
  {
    PlainRollbackSerial(n, tx, asyncReversal);
    StartValid(n, tx);
    BulkMoveRollsBack(Start(n, tx), RollbackMoves(n), asyncReversal);
  }
}
