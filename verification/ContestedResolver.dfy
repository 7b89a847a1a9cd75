/** Why a producer's ordering refines validation only when its kept resolutions
    spend coins still unspent in the block (sidestr-core/src/overlays.rs): a
    mempool in which two transactions spend the resolver's one coin. The
    producer finds the coin's script by lookup and keeps both; validation
    resolves the second spend to nothing and refuses the block. */
module ContestedResolver {
  import opened Prelude
  import opened Transactions
  import opened Assets
  import opened CollateralCoins
  import opened Overlays
  import opened Sequencing
  import opened OverlayRuns
  import Ledger
  import Markets
  import Pools

  const RESOLVER: seq<byte> := seq(32, _ => 7)
  const RESOLVER_SCRIPT: Script := [0x51, 0x20] + RESOLVER

  const MARKET_ID: Txid := Hash(1)
  const MARKET_COIN := OutPoint(MARKET_ID, 0)
  const MARKET := Markets.Market(MARKET_ID, MARKET_COIN, 10, RESOLVER, 100, 1, "", Markets.Open, None, 1)
  const RESOLVER_COIN := OutPoint(Hash(2), 0)

  const COINS: Ledger.Utxo :=
    map[MARKET_COIN := Ledger.Coin(TxOut(10, OP_TRUE), 1, false),
        RESOLVER_COIN := Ledger.Coin(TxOut(5, RESOLVER_SCRIPT), 1, false)]

  const APPLIED := Views(EMPTY_VIEW, Pools.PoolBook(map[], map[]),
                         Markets.MarketBook(map[MARKET_ID := MARKET], map[MARKET_COIN := MARKET_ID]))
  const RULES := Rules(false, Some(0))
  const HEIGHT: u32 := 5

  const NO_RECORDS := Classified([], [], [], [], [], [])
  const COINBASE := Transaction(Hash(9), 2, 0, [TxIn(NULL_OUTPOINT, [1, 5], 0, [])], [TxOut(0, [0x6a])], NO_RECORDS)

  /** A plain payment of the resolver's coin. */
  const PAYMENT := Transaction(Hash(3), 2, 0, [TxIn(RESOLVER_COIN, [], 0, [])], [TxOut(4, [])], NO_RECORDS)

  /** The resolver's answer, spending the same coin beside the market's. */
  const ANSWER := Transaction(Hash(4), 2, 0, [TxIn(MARKET_COIN, [], 0, []), TxIn(RESOLVER_COIN, [], 0, [])],
                              [TxOut(10, OP_TRUE)],
                              NO_RECORDS.(markets := [Resolve(MARKET_ID, Yes)]))

  const MEMPOOL := [PAYMENT, ANSWER]

  lemma Unrecorded(carried: map<OutPoint, Carry>, tx: Transaction, policy: Policy)
    requires |tx.records.bad| == |tx.records.issues| == |tx.records.tallies| == |tx.records.pools| == 0
    ensures Check(carried, tx, policy) == Ok(map[])
  {
  }

  lemma NothingCarried(tx: Transaction, height: u32, policy: Policy)
    requires |tx.records.bad| == |tx.records.issues| == |tx.records.tallies| == |tx.records.pools| == 0
    ensures JudgeAssets(EMPTY_VIEW, tx, height, policy) == Some((EMPTY_VIEW, Trace(map[], map[])))
  {
    Unrecorded(map[], tx, policy);
    assert Placed(tx.txid, map[]) == map[];
    assert InputCarries(map[], tx) == map[];
  }

  lemma PaymentSpendsNoMarket()
    ensures Spent(APPLIED.markets.byOutpoint, PAYMENT) == []
  {
    assert SpentUpTo(APPLIED.markets.byOutpoint, PAYMENT, 0) == [];
    assert PAYMENT.inputs[0].prev !in APPLIED.markets.byOutpoint;
  }

  lemma AnswerSpendsTheMarket()
    ensures Spent(APPLIED.markets.byOutpoint, ANSWER) == [MARKET_ID]
  {
    assert SpentUpTo(APPLIED.markets.byOutpoint, ANSWER, 0) == [];
    assert SpentUpTo(APPLIED.markets.byOutpoint, ANSWER, 1) == [MARKET_ID];
    assert ANSWER.inputs[1].prev !in APPLIED.markets.byOutpoint;
  }

  lemma AnswerTrueOutputs()
    ensures Markets.TrueOutputsUpTo(ANSWER, 1) == [0]
  {
    assert Markets.TrueOutputsUpTo(ANSWER, 0) == [];
  }

  /** The payment touches no market and is kept. */
  lemma PaymentKept(policy: Policy, scripts: map<nat, Script>)
    ensures Step(RULES, policy, APPLIED, PAYMENT, HEIGHT, scripts) == Some(APPLIED)
  {
    NothingCarried(PAYMENT, HEIGHT, policy);
    PaymentSpendsNoMarket();
    hide JudgeAssets, Spent;
  }

  /** The market rule passes the answer wherever the resolver's script is found. */
  lemma AnswerResolves(scripts: map<nat, Script>)
    requires HasScript(scripts, RESOLVER_SCRIPT)
    ensures Markets.CheckMarket(APPLIED.markets, ANSWER, Trace(map[], map[]), HEIGHT, false, scripts).Ok?
  {
    AnswerSpendsTheMarket();
    AnswerTrueOutputs();
    hide Spent, Markets.TrueOutputsUpTo, Markets.CheckSettle, Markets.CheckOpen;
    var k :| k in scripts && scripts[k] == RESOLVER_SCRIPT;
  }

  lemma AnswerKept(policy: Policy, scripts: map<nat, Script>)
    requires HasScript(scripts, RESOLVER_SCRIPT)
    ensures Step(RULES, policy, APPLIED, ANSWER, HEIGHT, scripts).Some?
  {
    hide JudgeAssets, HasScript, Markets.CheckMarket, Pools.CheckPool;
    NothingCarried(ANSWER, HEIGHT, policy);
    AnswerResolves(scripts);
  }

  lemma ResolverFound(created: map<OutPoint, Script>)
    requires RESOLVER_COIN !in created
    ensures HasScript(FoundScripts(created, COINS, ANSWER), RESOLVER_SCRIPT)
  {
    assert 1 in FoundScripts(created, COINS, ANSWER);
    assert FoundScripts(created, COINS, ANSWER)[1] == RESOLVER_SCRIPT;
  }

  /** The producer keeps both. */
  lemma BothKept()
    ensures Sequenced(RULES, APPLIED, COINS, MEMPOOL, 1, HEIGHT).kept == [0]
    ensures Sequenced(RULES, APPLIED, COINS, MEMPOOL, 1, HEIGHT).v == APPLIED
    ensures Sequenced(RULES, APPLIED, COINS, MEMPOOL, 2, HEIGHT).kept == [0, 1]
    ensures Sequenced(RULES, APPLIED, COINS, MEMPOOL, 2, HEIGHT).dropped == []
  {
    hide Step, Refusal, FoundScripts, OutputScripts, PolicyOf;
    var policy := PolicyOf(RULES, APPLIED);
    var q0 := Sequenced(RULES, APPLIED, COINS, MEMPOOL, 0, HEIGHT);
    var found := FoundScripts(q0.created, COINS, PAYMENT);
    PaymentKept(policy, found);
    RefusalIsNoStep(RULES, policy, APPLIED, PAYMENT, HEIGHT, found);
    var q1 := Sequenced(RULES, APPLIED, COINS, MEMPOOL, 1, HEIGHT);
    OutputScriptsAre(PAYMENT, 1);
    ResolverFound(q1.created);
    var found1 := FoundScripts(q1.created, COINS, ANSWER);
    AnswerKept(policy, found1);
    RefusalIsNoStep(RULES, policy, APPLIED, ANSWER, HEIGHT, found1);
  }

  lemma NoUnspentResolver(created: map<OutPoint, Script>)
    ensures !UnspentInputWith(ANSWER, {RESOLVER_COIN}, created, COINS, RESOLVER_SCRIPT)
            || (MARKET_COIN in created && created[MARKET_COIN] == RESOLVER_SCRIPT)
  {
    assert OP_TRUE != RESOLVER_SCRIPT;
  }

  /** The block it makes of them is refused: two kept transactions, each passing
      the three rules as the producer ran them, do not validate together. */
  lemma KeptTogetherRefused()
    ensures Mempool(COINS, COINBASE, MEMPOOL) && RecordFree(RULES, COINBASE, HEIGHT)
    ensures Sequenced(RULES, APPLIED, COINS, MEMPOOL, 2, HEIGHT).kept == [0, 1]
    ensures var b := BlockOf(RULES, APPLIED, COINS, COINBASE, MEMPOOL, 2, HEIGHT);
            && b == [COINBASE, PAYMENT, ANSWER]
            && |BlockScripts(COINS, b, HEIGHT)| == 3
            && Validated(RULES, APPLIED, b, 3, HEIGHT, BlockScripts(COINS, b, HEIGHT)).None?
  {
    BothKept();
    hide Sequenced, Validated, Stepped, BlockScripts, UnspentInputWith, Enqueue;
    SequencingRefines(RULES, APPLIED, COINS, COINBASE, MEMPOOL, 2, HEIGHT);
    var b1 := BlockOf(RULES, APPLIED, COINS, COINBASE, MEMPOOL, 1, HEIGHT);
    assert b1 == [COINBASE, PAYMENT];
    SpentByPayment();
    var q := Sequenced(RULES, APPLIED, COINS, MEMPOOL, 1, HEIGHT);
    CreatedByPayment();
    NoUnspentResolver(q.created);
  }

  lemma SpentByPayment()
    ensures SpentBefore([COINBASE, PAYMENT], 2) == {RESOLVER_COIN}
  {
    assert SpentBefore([COINBASE, PAYMENT], 1) == {};
    assert SpentInTx(PAYMENT, 1) == {PAYMENT.inputs[0].prev};
  }

  lemma CreatedByPayment()
    ensures MARKET_COIN !in Sequenced(RULES, APPLIED, COINS, MEMPOOL, 1, HEIGHT).created
  {
    hide Step, Refusal, PolicyOf;
    assert Sequenced(RULES, APPLIED, COINS, MEMPOOL, 0, HEIGHT).created == map[];
    OutputScriptsAre(PAYMENT, 1);
  }
}
