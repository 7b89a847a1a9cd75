/** The overlay rules as a node holds them (sidestr-core/src/overlays.rs): the
    three applied views, and a producer's ordering pass over copies of them. */
module OverlayRules {
  import opened Prelude
  import opened Transactions
  import opened Assets
  import opened AssetViews
  import opened CollateralCoins
  import opened Overlays
  import opened Sequencing
  import Pools
  import Markets

  /** What a transaction checked against the views found: the first rule that
      refuses it, a check that panics, or what each rule would do. */
  datatype Finding = Refused(rule: Rule) | Panics | Passes(out: map<nat, Carry>, pool: Option<Pools.Pool>, market: Option<Markets.Market>)

  /** Copies of the three views, changed as a producer keeps transactions. */
  class Candidate {
    const rules: Rules
    const policy: Policy
    const assets: AssetView
    const pools: Pools.PoolView
    const markets: Markets.MarketView

    ghost function State(): Views
      reads assets, pools, markets
    {
      Views(assets.State(), pools.Book(), markets.Book())
    }

    constructor (rules: Rules, assets: AssetView, pools: Pools.PoolView, markets: Markets.MarketView)
      ensures fresh(this.assets) && fresh(this.pools) && fresh(this.markets)
      ensures this.rules == rules
      ensures State() == Views(assets.State(), pools.Book(), markets.Book())
      ensures policy == PolicyOf(rules, State())
    {
      var a := new AssetView.Clone(assets);
      var p := new Pools.PoolView.Clone(pools);
      var m := new Markets.MarketView.Clone(markets);
      this.rules := rules;
      this.policy := Collateral(if rules.pool then Some(pools.pools.Keys) else None,
                                if rules.markets.Some? then Some(markets.markets.Keys) else None);
      this.assets, this.pools, this.markets := a, p, m;
    }

    /** Run the three rules on one transaction, in order, changing nothing. */
    method Judge(tx: Transaction, height: u32, scripts: map<nat, Script>) returns (f: Finding)
      ensures f.Panics? <==> PoolHalts(rules, policy, State(), tx, height)
      ensures f.Refused? ==> Refusal(rules, policy, State(), tx, height, scripts) == Some(f.rule)
      ensures f.Passes? ==>
                && Refusal(rules, policy, State(), tx, height, scripts).None?
                && Check(assets.carried, tx, policy) == Ok(f.out)
                && var trace := Trace(InputCarries(assets.carried, tx), f.out);
                   && JudgePool(rules, pools.Book(), tx, trace, height, false) == Some(Pools.ApplyEffect(pools.Book(), f.pool))
                   && JudgeMarket(rules, markets.Book(), tx, trace, height, false, scripts)
                      == Some(Markets.ApplyMarketEffect(markets.Book(), f.market))
    {
      hide Check, ApplyTx, Pools.CheckPool, Markets.CheckMarket;
      var _, r := assets.CheckInner(tx, policy);
      if r.Err? { return Refused(AssetsRule); }
      var trace := Trace(InputCarries(assets.carried, tx), r.value);
      var pool: Option<Pools.Pool> := None;
      if rules.pool {
        var p := pools.Check(tx, trace, height, false);
        if p.Err? { return if Pools.Halting(p.error) then Panics else Refused(PoolRule); }
        pool := p.value;
      }
      var market: Option<Markets.Market> := None;
      if MarketsActive(rules, height) {
        var m := markets.Check(tx, trace, height, false, scripts);
        if m.Err? { return Refused(MarketsRule); }
        market := m.value;
      }
      f := Passes(r.value, pool, market);
    }

    /** Commit a transaction that passed to the candidate views: to the assets as a
        list of one, whose front is skipped when it has a coinbase's shape. */
    method Keep(tx: Transaction, height: u32, f: Finding)
      requires f.Passes?
      modifies assets, pools, markets
      ensures assets.State() == if IsCoinbase(tx) then old(assets.State()) else ApplyTx(old(assets.State()), tx, height, policy)
      ensures pools.Book() == Pools.ApplyEffect(old(pools.Book()), f.pool)
      ensures markets.Book() == Markets.ApplyMarketEffect(old(markets.Book()), f.market)
    {
      hide ApplyTx;
      var _ := assets.ApplyTransactions([tx], height, policy);
      assert ApplyTxs(old(assets.State()), [tx], 0, height, policy) == old(assets.State());
      if f.pool.Some? { pools.Apply(f.pool.value); }
      if f.market.Some? { markets.Apply(f.market.value); }
    }
  }

  /** A node's rules: the applied views. */
  class Applied {
    const rules: Rules
    const assets: AssetView
    const pools: Pools.PoolView
    const markets: Markets.MarketView

    ghost function State(): Views
      reads assets, pools, markets
    {
      Views(assets.State(), pools.Book(), markets.Book())
    }

    constructor (rules: Rules)
      ensures this.rules == rules && State() == NO_VIEWS
      ensures fresh(assets) && fresh(pools) && fresh(markets)
    {
      var a := new AssetView();
      var p := new Pools.PoolView();
      var m := new Markets.MarketView();
      this.rules := rules;
      this.assets, this.pools, this.markets := a, p, m;
    }

    /** Order a mempool through the three rules, committing each kept
        transaction only to copies of the views. */
    method Sequence(txs: seq<Transaction>, height: u32, coins: Utxo)
      returns (halted: bool, kept: seq<nat>, dropped: seq<(nat, Rule)>, ghost left: Views)
      ensures halted == Sequenced(rules, State(), coins, txs, |txs|, height).halted
      ensures kept == Sequenced(rules, State(), coins, txs, |txs|, height).kept
      ensures dropped == Sequenced(rules, State(), coins, txs, |txs|, height).dropped
      ensures left == Sequenced(rules, State(), coins, txs, |txs|, height).v
    {
      hide Refusal, Step, PolicyOf, OutputScripts, FoundScripts, ApplyTx, JudgePool, JudgeMarket, Check, PoolHalts, IsCoinbase;
      var candidate := new Candidate(rules, assets, pools, markets);
      var created: map<OutPoint, Script> := map[];
      halted, kept, dropped := false, [], [];
      ghost var start := State();
      for i := 0 to |txs|
        invariant candidate.rules == rules && candidate.policy == PolicyOf(rules, start)
        invariant fresh(candidate.assets) && fresh(candidate.pools) && fresh(candidate.markets)
        invariant State() == start && !halted
        invariant Queue(candidate.State(), created, kept, dropped, halted) == Sequenced(rules, start, coins, txs, i, height)
      {
        var scripts := FoundScripts(created, coins, txs[i]);
        var f := candidate.Judge(txs[i], height, scripts);
        if f.Panics? {
          HaltedStays(rules, start, coins, txs, i + 1, |txs|, height);
          return true, kept, dropped, candidate.State();
        } else if f.Refused? {
          dropped := dropped + [(i, f.rule)];
        } else {
          StepFromParts(rules, candidate.policy, candidate.State(), txs[i], height, scripts, f.out);
          candidate.Keep(txs[i], height, f);
          var outputs := ScriptsOfOutputs(txs[i]);
          created := created + outputs;
          kept := kept + [i];
        }
      }
      left := candidate.State();
    }
  }

  method ScriptsOfOutputs(tx: Transaction) returns (m: map<OutPoint, Script>)
    ensures m == OutputScripts(tx, |tx.outputs|)
  {
    m := map[];
    for v := 0 to |tx.outputs|
      invariant m == OutputScripts(tx, v)
    {
      m := m[OutPoint(tx.txid, v) := tx.outputs[v].script];
    }
  }

  lemma StepFromParts(rules: Rules, policy: Policy, v: Views, tx: Transaction, height: u32, scripts: map<nat, Script>, out: map<nat, Carry>)
    requires Refusal(rules, policy, v, tx, height, scripts).None?
    requires Check(v.assets.carried, tx, policy) == Ok(out)
    ensures var trace := Trace(InputCarries(v.assets.carried, tx), out);
            && JudgePool(rules, v.pools, tx, trace, height, false).Some?
            && JudgeMarket(rules, v.markets, tx, trace, height, false, scripts).Some?
            && Step(rules, policy, v, tx, height, scripts)
               == Some(Views(ApplyTx(v.assets, tx, height, policy),
                             JudgePool(rules, v.pools, tx, trace, height, false).value,
                             JudgeMarket(rules, v.markets, tx, trace, height, false, scripts).value))
  {
    hide Check, ApplyTx, JudgePool, JudgeMarket;
  }
}
