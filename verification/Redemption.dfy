/** Why a holder of a market's units is always paid (sidestr-core/src/markets.rs):
    in every state of every run the transaction that redeems them passes the
    three rules and leaves the market a coin that is still worth something. */
module Redemption {
  import opened Prelude
  import opened Transactions
  import opened Assets
  import opened CollateralCoins
  import opened Overlays
  import opened OverlayRuns
  import opened Solvency
  import Markets
  import Freshness
  import Pools
  import Runs
  import Chain

  /** What a transaction that assigns nothing takes in of a market's two sides. */
  ghost function TakenIn(v: Views, tx: Transaction, id: Txid): Markets.Flow
  {
    Markets.FlowOf(TraceOf(v, tx, map[]), id)
  }

  /** What the units it takes in are worth. */
  ghost function WorthIn(v: Views, tx: Transaction, id: Txid): nat
    requires id in v.markets.markets
  {
    Markets.Worth(v.markets.markets[id], TakenIn(v, tx, id).yesIn, TakenIn(v, tx, id).noIn)
  }

  /** A redemption of market `id`: its one record says so; it spends that market's
      coin and no other market's or pool's; and the coin it recreates is smaller by
      what the units it takes in are worth. */
  ghost predicate Redeems(v: Views, tx: Transaction, id: Txid)
  {
    && id in v.markets.markets
    && |tx.records.markets| == 1 && tx.records.markets[0].Redeem? && tx.records.markets[0].market == id
    && tx.records == Classified([], [], [], tx.records.markets, [], [])
    && Spent(v.markets.byOutpoint, tx) == [id]
    && Spent(v.pools.byOutpoint, tx) == []
    && WorthIn(v, tx, id) > 0
    && var coin := TrueCoin(tx, tx.records.markets[0].vout);
       coin.Some? && coin.value + WorthIn(v, tx, id) == v.markets.markets[id].collateral
  }

  lemma NothingAssigned(carried: map<OutPoint, Carry>, tx: Transaction, policy: Policy)
    requires |tx.records.bad| == |tx.records.issues| == |tx.records.tallies| == |tx.records.pools| == 0
    ensures Check(carried, tx, policy) == Ok(map[])
  {
  }

  /** What a transaction takes in is within what is carried. */
  lemma TakenWithin(v: Views, tx: Transaction, id: Txid)
    ensures TakenIn(v, tx, id).yesIn <= Total(v.assets.carried, id)
    ensures TakenIn(v, tx, id).noIn <= Total(v.assets.carried, No(id))
    ensures TakenIn(v, tx, id).yesOut == TakenIn(v, tx, id).noOut == 0
  {
    hide Total;
    TotalSplit(v.assets.carried, tx, id);
    TotalSplit(v.assets.carried, tx, No(id));
    TotalEmpty<nat>(id);
    TotalEmpty<nat>(No(id));
  }

  /** The market rule passes a redemption from a market that keeps its deposit. */
  lemma RedemptionJudged(rules: Rules, v: Views, history: seq<Transaction>, tx: Transaction, id: Txid, height: u32, scripts: map<nat, Script>)
    requires Redeems(v, tx, id) && KeepsDeposit(v, history, id) && Markets.Indexed(v.markets) && MarketsActive(rules, height)
    requires v.markets.markets[id].status != Markets.Resolved ==> height > v.markets.markets[id].expiry + v.markets.markets[id].grace
    ensures var before, r := v.markets.markets[id], tx.records.markets[0];
            var after := Markets.Settled(before, tx, TraceOf(v, tx, map[]), r);
            && after.Some? && after.value.collateral + WorthIn(v, tx, id) == before.collateral && after.value.collateral > 0
            && JudgeMarket(rules, v.markets, tx, TraceOf(v, tx, map[]), height, false, scripts)
               == Some(Markets.ApplyMarket(v.markets, after.value))
  {
    hide Total, Markets.FlowOf, Markets.CheckSettle, Spent, DepositOf, Markets.Solvent, Markets.Worth;
    TakenWithin(v, tx, id);
    Markets.RedemptionPasses(v.markets.markets[id], Total(v.assets.carried, id), Total(v.assets.carried, No(id)), DepositOf(history, id),
                             tx, TraceOf(v, tx, map[]), tx.records.markets[0], height);
  }

  /** So do the other two. */
  lemma RedemptionSteps(rules: Rules, v: Views, history: seq<Transaction>, tx: Transaction, id: Txid, height: u32, scripts: map<nat, Script>)
    requires Redeems(v, tx, id) && KeepsDeposit(v, history, id) && Markets.Indexed(v.markets) && MarketsActive(rules, height)
    requires v.markets.markets[id].status != Markets.Resolved ==> height > v.markets.markets[id].expiry + v.markets.markets[id].grace
    ensures var step := Step(rules, PolicyOf(rules, v), v, tx, height, scripts);
            && step.Some? && id in step.value.markets.markets
            && var before, after := v.markets.markets[id], step.value.markets.markets[id];
               && after.collateral + WorthIn(v, tx, id) == before.collateral
               && after == before.(coin := OutPoint(tx.txid, tx.records.markets[0].vout), collateral := after.collateral,
                                   status := if before.status == Markets.Resolved then Markets.Resolved else Markets.Refunding)
  {
    hide Check, ApplyTx, Spent, JudgeMarket, WorthIn, KeepsDeposit, TrueCoin;
    NothingAssigned(v.assets.carried, tx, PolicyOf(rules, v));
    RedemptionJudged(rules, v, history, tx, id, height, scripts);
  }

  /** A redemption always passes: in every state of every run, of a resolved market
      or one past its grace, for whatever units are taken in, the three rules pass
      it, and the market keeps the rest of its collateral on the new coin. */
  lemma HoldersArePaid(terms: Chain.Terms, rules: Rules, g: Transaction, blocks: seq<Chain.Block>, n: nat, id: Txid,
                       tx: Transaction, height: u32, scripts: map<nat, Script>)
    requires OverlayRun(terms, rules, g, blocks) && n <= |blocks| && n <= height
    requires Redeems(ViewsAfter(rules, g, blocks, n), tx, id)
    requires var m := ViewsAfter(rules, g, blocks, n).markets.markets[id];
             m.status != Markets.Resolved ==> height > m.expiry + m.grace
    ensures var v := ViewsAfter(rules, g, blocks, n);
            var step := Step(rules, PolicyOf(rules, v), v, tx, height, scripts);
            && step.Some? && id in step.value.markets.markets
            && var before, after := v.markets.markets[id], step.value.markets.markets[id];
               && after.collateral + WorthIn(v, tx, id) == before.collateral
               && after == before.(coin := OutPoint(tx.txid, tx.records.markets[0].vout), collateral := after.collateral,
                                   status := if before.status == Markets.Resolved then Markets.Resolved else Markets.Refunding)
  {
    hide OverlayRun, ViewsAfter, Redeems, AssetsRide, PoolsStand, MarketStands, KeepsDeposit, Freshness.History, PolicyOf, Step;
    RunGood(terms, rules, g, blocks, n);
    MarketThere(rules, g, blocks, n, tx, id);
    RedemptionSteps(rules, ViewsAfter(rules, g, blocks, n), Freshness.History(g, blocks, |blocks|), tx, id, height, scripts);
  }

  lemma MarketThere(rules: Rules, g: Transaction, blocks: seq<Chain.Block>, n: nat, tx: Transaction, id: Txid)
    requires n <= |blocks| && Redeems(ViewsAfter(rules, g, blocks, n), tx, id)
    ensures id in ViewsAfter(rules, g, blocks, n).markets.markets
  {
    hide ViewsAfter;
  }

  // --- and there always is one -----------------------------------------------------------------

  /** The transaction that redeems what one coin carries: the market's coin and the
      holder's in, the market's smaller coin and the holder's sats out. */
  function RedemptionOf(m: Markets.Market, o: OutPoint, worth: nat, payee: Script, txid: Txid): Transaction
    requires worth < m.collateral
  {
    Transaction(txid, 2, 0, [TxIn(m.coin, [], U32_MAX, []), TxIn(o, [], U32_MAX, [])],
                [TxOut(m.collateral - worth, OP_TRUE), TxOut(worth, payee)],
                Classified([], [], [], [Redeem(m.id, 0)], [], []))
  }

  /** What the units on one coin are worth. */
  ghost function WorthOn(v: Views, o: OutPoint, id: Txid): nat
    requires id in v.markets.markets
  {
    var c := if o in v.assets.carried then v.assets.carried[o] else map[];
    Markets.Worth(v.markets.markets[id], AmountOf(c, id), AmountOf(c, No(id)))
  }

  lemma TotalOfOne(o: OutPoint, c: Carry, a: Txid)
    ensures Total(map[o := c], a) == AmountOf(c, a)
  {
    TotalUpdate(map[o := c], o, c, a);
    assert map[o := c] - {o} == map[];
    TotalEmpty<OutPoint>(a);
  }

  /** Of its two inputs only the holder's coin carries anything. */
  lemma TakenFromOne(v: Views, o: OutPoint, tx: Transaction, id: Txid)
    requires |tx.inputs| == 2 && tx.inputs[0].prev !in v.assets.carried && tx.inputs[1].prev == o && o in v.assets.carried
    ensures TakenIn(v, tx, id).yesIn == AmountOf(v.assets.carried[o], id)
    ensures TakenIn(v, tx, id).noIn == AmountOf(v.assets.carried[o], No(id))
  {
    hide Total;
    var inputs := InputCarries(v.assets.carried, tx);
    assert o in Spends(tx);
    assert inputs == map[o := v.assets.carried[o]];
    TotalOfOne(o, v.assets.carried[o], id);
    TotalOfOne(o, v.assets.carried[o], No(id));
  }

  lemma SpendsTheTwo(byOutpoint: map<OutPoint, Txid>, tx: Transaction)
    requires |tx.inputs| == 2 && tx.inputs[1].prev !in byOutpoint
    ensures Spent(byOutpoint, tx) == if tx.inputs[0].prev in byOutpoint then [byOutpoint[tx.inputs[0].prev]] else []
  {
    assert SpentUpTo(byOutpoint, tx, 0) == [];
    assert SpentUpTo(byOutpoint, tx, 2) == SpentUpTo(byOutpoint, tx, 1);
  }

  lemma MarketCoinsCarryNothing(v: Views, coins: Utxo, past: set<Txid>, o: OutPoint)
    requires MarketsStand(v, coins, past) && o in v.assets.carried
    ensures o !in v.markets.byOutpoint
  {
    forall p | p in v.markets.byOutpoint
      ensures p !in v.assets.carried
    {
      assert MarketStands(v.markets.markets[v.markets.byOutpoint[p]], v, coins);
    }
  }

  /** A holder's coin is worth something, and within the collateral less the deposit. */
  lemma CoinWorth(v: Views, history: seq<Transaction>, id: Txid, o: OutPoint)
    requires id in v.markets.markets && KeepsDeposit(v, history, id) && WorthOn(v, o, id) > 0
    ensures o in v.assets.carried
    ensures WorthOn(v, o, id) + DepositOf(history, id) <= v.markets.markets[id].collateral && DepositOf(history, id) > 0
  {
    hide Total, DepositOf, Markets.Solvent;
    if o in v.assets.carried {
      HeldWithinTotal(v.assets.carried, o, id);
      HeldWithinTotal(v.assets.carried, o, No(id));
      WorthWithinMarket(v.markets.markets[id], AmountOf(v.assets.carried[o], id), AmountOf(v.assets.carried[o], No(id)),
                        Total(v.assets.carried, id), Total(v.assets.carried, No(id)), DepositOf(history, id));
    }
  }

  /** The transaction that redeems it is a redemption. */
  lemma CoinRedeems(v: Views, coins: Utxo, past: set<Txid>, history: seq<Transaction>, id: Txid, o: OutPoint, payee: Script, txid: Txid)
    requires id in v.markets.markets && KeepsDeposit(v, history, id) && WorthOn(v, o, id) > 0
    requires MarketsStand(v, coins, past) && v.pools.byOutpoint.Keys !! v.markets.byOutpoint.Keys && o !in v.pools.byOutpoint
    ensures WorthOn(v, o, id) < v.markets.markets[id].collateral
    ensures var tx := RedemptionOf(v.markets.markets[id], o, WorthOn(v, o, id), payee, txid);
            Redeems(v, tx, id) && WorthIn(v, tx, id) == WorthOn(v, o, id)
  {
    hide KeepsDeposit, Spent, TakenIn, Markets.Worth;
    CoinWorth(v, history, id, o);
    assert MarketStands(v.markets.markets[id], v, coins);
    var tx := RedemptionOf(v.markets.markets[id], o, WorthOn(v, o, id), payee, txid);
    TakenFromOne(v, o, tx, id);
    MarketCoinsCarryNothing(v, coins, past, o);
    SpendsTheTwo(v.markets.byOutpoint, tx);
    SpendsTheTwo(v.pools.byOutpoint, tx);
  }

  /** Every coin outside the pools whose units are worth something is redeemed by
      that transaction, and what all of it is worth is within the collateral, the
      opening deposit always left over. */
  lemma EveryCoinRedeems(terms: Chain.Terms, rules: Rules, g: Transaction, blocks: seq<Chain.Block>, n: nat, id: Txid,
                         o: OutPoint, payee: Script, txid: Txid)
    requires OverlayRun(terms, rules, g, blocks) && n <= |blocks|
    requires var v := ViewsAfter(rules, g, blocks, n);
             && id in v.markets.markets && o !in v.pools.byOutpoint && WorthOn(v, o, id) > 0
    ensures var v := ViewsAfter(rules, g, blocks, n);
            && WorthOn(v, o, id) + Deposit(g, blocks, id) <= v.markets.markets[id].collateral && Deposit(g, blocks, id) > 0
            && var tx := RedemptionOf(v.markets.markets[id], o, WorthOn(v, o, id), payee, txid);
               Redeems(v, tx, id) && WorthIn(v, tx, id) == WorthOn(v, o, id)
  {
    hide OverlayRun, ViewsAfter, AssetsRide, PoolsStand, MarketsStand, KeepsDeposit, DepositOf, Freshness.History, Redeems, WorthOn, WorthIn,
      PoolStands, MarketStands, Pools.Indexed, Markets.Indexed, RedemptionOf, PastHolds, IdleEmpty;
    RunGood(terms, rules, g, blocks, n);
    ViewsAgreeWithCoins(terms, rules, g, blocks, n);
    var v, history := ViewsAfter(rules, g, blocks, n), Freshness.History(g, blocks, |blocks|);
    assert KeepsDeposit(v, history, id);
    CoinWorth(v, history, id, o);
    CoinRedeems(v, Runs.StateAfter(g, blocks, n).coins, Freshness.Ids(Freshness.History(g, blocks, n)), history, id, o, payee, txid);
  }

  lemma WorthWithinMarket(m: Markets.Market, yes: nat, no: nat, allYes: nat, allNo: nat, spare: nat)
    requires Markets.Solvent(m, allYes, allNo, spare) && yes <= allYes && no <= allNo
    ensures Markets.Worth(m, yes, no) + spare <= m.collateral
  {
    Markets.SolventLess(m, allYes, allNo, yes, no, spare);
    Markets.WorthWithin(m, yes, no, spare);
  }
}
