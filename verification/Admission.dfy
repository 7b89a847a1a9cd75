/** What the three rules let through (sidestr-core/src/overlays.rs, assets.rs, pool.rs,
    markets.rs): exactly which transactions pass, and that every honest split, pool
    step and pool opening does, in every state of every run. */
module Admission {
  import opened Prelude
  import opened Transactions
  import opened Assets
  import opened AssetsExact
  import opened CollateralCoins
  import opened Overlays
  import opened OverlayRuns
  import opened Solvency
  import Pools
  import Markets
  import Freshness
  import Runs
  import Chain
  import opened PoolArithmetic

  // --- one transaction, exactly ------------------------------------------------------------------

  /** What each output would carry, and what each input does. */
  function TraceWith(v: Views, tx: Transaction, out: map<nat, Carry>): Trace
  {
    Trace(InputCarries(v.assets.carried, tx), out)
  }

  ghost predicate PoolsAdmit(rules: Rules, v: Views, tx: Transaction, out: map<nat, Carry>, height: u32)
  {
    || !rules.pool
    || (|tx.records.pools| == 0 && SpendsNone(v.pools.byOutpoint, tx))
    || exists p :: Pools.Touches(v.pools, tx, TraceWith(v, tx, out), height, p)
  }

  ghost predicate MarketsAdmit(rules: Rules, v: Views, tx: Transaction, out: map<nat, Carry>, height: u32, scripts: map<nat, Script>)
  {
    || rules.markets.None? || height < rules.markets.value
    || (|tx.records.markets| == 0 && |tx.records.questions| == 0 && SpendsNone(v.markets.byOutpoint, tx))
    || exists m :: Markets.Touches(v.markets, tx, TraceWith(v, tx, out), height, scripts, m)
  }

  /** The mints the views' collateral rules account for. */
  function Mints(rules: Rules, v: Views): Policy
  {
    Collateral(if rules.pool then Some(v.pools.pools.Keys) else None,
               if rules.markets.Some? then Some(v.markets.markets.Keys) else None)
  }

  /** A transaction passes the three rules if and only if it keeps the assets rule, with
      the views' mints, and the pool and the market rule each admit what it touches. */
  lemma StepExact(rules: Rules, v: Views, tx: Transaction, out: map<nat, Carry>, height: u32, scripts: map<nat, Script>)
    requires UniqueInputs(tx) && Carries(tx, out)
    ensures Step(rules, PolicyOf(rules, v), v, tx, height, scripts).Some?
            <==> && KeepsRule(v.assets.carried, tx, Mints(rules, v))
                 && PoolsAdmit(rules, v, tx, out, height)
                 && MarketsAdmit(rules, v, tx, out, height, scripts)
  {
    hide Check, KeepsRule, ApplyTx, Carries, Pools.CheckPool, Markets.CheckMarket, Pools.Touches, Markets.Touches, SpendsNone;
    CheckCarries(v.assets.carried, tx, PolicyOf(rules, v), out);
    Pools.RuleExact(v.pools, tx, TraceWith(v, tx, out), height);
    Markets.RuleExact(v.markets, tx, TraceWith(v, tx, out), height, scripts);
    PoolPasses(rules, v, tx, out, height);
    MarketPasses(rules, v, tx, out, height, scripts);
  }

  lemma PoolPasses(rules: Rules, v: Views, tx: Transaction, out: map<nat, Carry>, height: u32)
    ensures JudgePool(rules, v.pools, tx, TraceWith(v, tx, out), height, false).Some? <==> PoolsAdmit(rules, v, tx, out, height)
    ensures forall p :: rules.pool && Pools.Touches(v.pools, tx, TraceWith(v, tx, out), height, p) ==>
              JudgePool(rules, v.pools, tx, TraceWith(v, tx, out), height, false) == Some(Pools.ApplyPool(v.pools, p))
  {
    hide Pools.CheckPool, Pools.Touches, SpendsNone;
    Pools.RuleExact(v.pools, tx, TraceWith(v, tx, out), height);
    var r := Pools.CheckPool(v.pools, tx, TraceWith(v, tx, out), height, false);
    if r.Ok? && r.value.Some? {
      assert Pools.Touches(v.pools, tx, TraceWith(v, tx, out), height, r.value.value);
    }
  }

  lemma MarketPasses(rules: Rules, v: Views, tx: Transaction, out: map<nat, Carry>, height: u32, scripts: map<nat, Script>)
    ensures JudgeMarket(rules, v.markets, tx, TraceWith(v, tx, out), height, false, scripts).Some?
            <==> MarketsAdmit(rules, v, tx, out, height, scripts)
    ensures forall m :: rules.markets.Some? && height >= rules.markets.value
                        && Markets.Touches(v.markets, tx, TraceWith(v, tx, out), height, scripts, m) ==>
              JudgeMarket(rules, v.markets, tx, TraceWith(v, tx, out), height, false, scripts) == Some(Markets.ApplyMarket(v.markets, m))
  {
    hide Markets.CheckMarket, Markets.Touches, SpendsNone;
    Markets.RuleExact(v.markets, tx, TraceWith(v, tx, out), height, scripts);
    var r := Markets.CheckMarket(v.markets, tx, TraceWith(v, tx, out), height, false, scripts);
    if r.Ok? && r.value.Some? {
      assert Markets.Touches(v.markets, tx, TraceWith(v, tx, out), height, scripts, r.value.value);
    }
  }

  /** A block, exactly: its coinbase has no record of a rule that runs and changes nothing;
      and each later transaction, not coinbase-shaped, passes on what the ones before it
      leave, under the mints of the views the block started from. */
  lemma BlockExact(rules: Rules, v: Views, txs: seq<Transaction>, n: nat, height: u32, scripts: seq<map<nat, Script>>)
    requires 1 <= n <= |txs| == |scripts| && |txs[0].inputs| == 1 && txs[0].inputs[0].prev == OutPoint(Hash(0), 0xffff_ffff)
    ensures n == 1 ==> Validated(rules, v, txs, n, height, scripts) == if Recordless(rules, txs[0].records, height) then Some(v) else None
    ensures n > 1 ==>
              var before := Validated(rules, v, txs, n - 1, height, scripts);
              Validated(rules, v, txs, n, height, scripts)
              == if before.None? || (|txs[n - 1].inputs| == 1 && txs[n - 1].inputs[0].prev == OutPoint(Hash(0), 0xffff_ffff)) then None
                 else Step(rules, Mints(rules, v), before.value, txs[n - 1], height, scripts[n - 1])
  {
    hide Validated, Step, JudgeAssets;
    ValidatedIsStepped(rules, v, txs, n, height, scripts);
    if n > 1 {
      ValidatedIsStepped(rules, v, txs, n - 1, height, scripts);
    }
  }

  /** No issue, tally or malformed record; no pool record where pools run; no market record
      or question where markets do. */
  predicate Recordless(rules: Rules, cls: Classified, height: u32)
  {
    && cls.issues == [] && cls.tallies == [] && cls.bad == []
    && (rules.pool ==> cls.pools == [])
    && (rules.markets.Some? && height >= rules.markets.value ==> cls.markets == [] && cls.questions == [])
  }

  // --- what it spends ----------------------------------------------------------------------------

  /** An outpoint that is no pool's coin and no market's. */
  predicate Plain(v: Views, o: OutPoint)
  {
    && (forall id :: id in v.pools.pools ==> v.pools.pools[id].outpoint != o)
    && (forall id :: id in v.markets.markets ==> v.markets.markets[id].coin != o)
  }

  /** One input spends this coin; the others spend no pool's or market's. */
  predicate TakesOnlyAt(v: Views, tx: Transaction, k: nat, coin: OutPoint)
  {
    k < |tx.inputs| && tx.inputs[k].prev == coin && forall j :: 0 <= j < |tx.inputs| && j != k ==> Plain(v, tx.inputs[j].prev)
  }

  ghost predicate TakesOnly(v: Views, tx: Transaction, coin: OutPoint)
  {
    exists k: nat :: TakesOnlyAt(v, tx, k, coin)
  }

  predicate TakesNone(v: Views, tx: Transaction)
  {
    forall j :: 0 <= j < |tx.inputs| ==> Plain(v, tx.inputs[j].prev)
  }

  lemma PlainIndexed(v: Views, o: OutPoint)
    requires Pools.Indexed(v.pools) && Markets.Indexed(v.markets)
    ensures Plain(v, o) <==> o !in v.pools.byOutpoint && o !in v.markets.byOutpoint
  {
  }

  lemma TakesMarket(v: Views, tx: Transaction, id: Txid)
    requires Pools.Indexed(v.pools) && Markets.Indexed(v.markets) && v.pools.byOutpoint.Keys !! v.markets.byOutpoint.Keys
    requires id in v.markets.markets && TakesOnly(v, tx, v.markets.markets[id].coin)
    ensures SpendsOne(v.markets.byOutpoint, tx, id) && SpendsNone(v.pools.byOutpoint, tx)
  {
    hide Plain, Pools.Indexed;
    var k: nat :| TakesOnlyAt(v, tx, k, v.markets.markets[id].coin);
    forall j | 0 <= j < |tx.inputs|
      ensures Plain(v, tx.inputs[j].prev) <==> tx.inputs[j].prev !in v.pools.byOutpoint && tx.inputs[j].prev !in v.markets.byOutpoint
    {
      PlainIndexed(v, tx.inputs[j].prev);
    }
    assert SpendsOneAt(v.markets.byOutpoint, tx, k, id);
  }

  lemma TakesPool(v: Views, tx: Transaction, id: Txid)
    requires Pools.Indexed(v.pools) && Markets.Indexed(v.markets) && v.pools.byOutpoint.Keys !! v.markets.byOutpoint.Keys
    requires id in v.pools.pools && TakesOnly(v, tx, v.pools.pools[id].outpoint)
    ensures SpendsOne(v.pools.byOutpoint, tx, id) && SpendsNone(v.markets.byOutpoint, tx)
  {
    hide Plain, Markets.Indexed;
    var k: nat :| TakesOnlyAt(v, tx, k, v.pools.pools[id].outpoint);
    forall j | 0 <= j < |tx.inputs|
      ensures Plain(v, tx.inputs[j].prev) <==> tx.inputs[j].prev !in v.pools.byOutpoint && tx.inputs[j].prev !in v.markets.byOutpoint
    {
      PlainIndexed(v, tx.inputs[j].prev);
    }
    assert SpendsOneAt(v.pools.byOutpoint, tx, k, id);
  }

  lemma TakesNothing(v: Views, tx: Transaction)
    requires Pools.Indexed(v.pools) && Markets.Indexed(v.markets) && TakesNone(v, tx)
    ensures SpendsNone(v.pools.byOutpoint, tx) && SpendsNone(v.markets.byOutpoint, tx)
  {
    hide Plain, Pools.Indexed, Markets.Indexed;
    forall j | 0 <= j < |tx.inputs|
      ensures tx.inputs[j].prev !in v.pools.byOutpoint && tx.inputs[j].prev !in v.markets.byOutpoint
    {
      PlainIndexed(v, tx.inputs[j].prev);
    }
  }

  // --- honest transactions -------------------------------------------------------------------------

  /** What the inputs carry of an asset. */
  ghost function In(v: Views, tx: Transaction, a: Txid): nat { Total(InputCarries(v.assets.carried, tx), a) }

  /** What tally `t` assigns in all. */
  function Out(tx: Transaction, t: nat): nat
    requires t < |tx.records.tallies|
  {
    Assigned(tx.records.tallies[t].assigns, |tx.records.tallies[t].assigns|)
  }

  predicate Tallies(tx: Transaction, a: Txid)
  {
    exists t :: 0 <= t < |tx.records.tallies| && Named(tx.records.tallies[t], tx) == a
  }

  /** Well-formed tallies that leave output `vout` alone, and every asset but those the
      caller names covered by what comes in. */
  ghost predicate Honest(v: Views, tx: Transaction, free: set<Txid>)
  {
    && TalliesKeep(tx, |tx.records.tallies|)
    && forall t :: 0 <= t < |tx.records.tallies| ==>
         Named(tx.records.tallies[t], tx) in free || Out(tx, t) <= In(v, tx, Named(tx.records.tallies[t], tx))
  }

  /** A split by `more`: the market's coin taken and recreated larger, and each side
      tallied in full plus `more`, away from the new coin. */
  ghost predicate SplitsBy(v: Views, tx: Transaction, id: Txid, vout: nat, more: nat)
    requires id in v.markets.markets
  {
    && more >= 1
    && tx.records == Classified([], tx.records.tallies, [], [Split(id, vout)], [], [])
    && TakesOnly(v, tx, v.markets.markets[id].coin)
    && vout < |tx.outputs| && tx.outputs[vout].script == [0x51]
    && tx.outputs[vout].value == v.markets.markets[id].collateral + more
    && (forall t, i :: 0 <= t < |tx.records.tallies| && 0 <= i < |tx.records.tallies[t].assigns| ==>
          tx.records.tallies[t].assigns[i].0 != vout)
    && Honest(v, tx, {id, No(id)})
    && Tallies(tx, id) && Tallies(tx, No(id))
    && (forall t :: 0 <= t < |tx.records.tallies| && Named(tx.records.tallies[t], tx) in {id, No(id)} ==>
          Out(tx, t) == In(v, tx, Named(tx.records.tallies[t], tx)) + more)
  }

  lemma HonestKeeps(rules: Rules, v: Views, tx: Transaction, free: set<Txid>)
    requires Honest(v, tx, free) && |tx.records.bad| == 0 && |tx.records.issues| == 0
    requires forall a :: a in free ==> Exempted(Mints(rules, v), a, tx)
    ensures KeepsRule(v.assets.carried, tx, Mints(rules, v))
  {
    hide TalliesKeep, Named, Exempted, Total, Assigned;
  }

  /** Nothing lands on an output no tally names. */
  lemma NothingAt(tx: Transaction, out: map<nat, Carry>, vout: nat)
    requires Carries(tx, out)
    requires forall t, i :: 0 <= t < |tx.records.tallies| && 0 <= i < |tx.records.tallies[t].assigns| ==>
               tx.records.tallies[t].assigns[i].0 != vout
    ensures vout !in out
  {
    hide Named, AmountAt;
    forall a: Txid, k: nat
      ensures AmountAt(out, vout, a) != Some(k)
    {
      assert !TallyGives(tx, |tx.records.tallies|, vout, a, k);
    }
    EmptyAt(out, vout);
  }

  lemma EmptyAt(out: map<nat, Carry>, vout: nat)
    requires forall a: Txid, k: nat :: AmountAt(out, vout, a) != Some(k)
    ensures vout in out ==> out[vout] == map[]
  {
    if vout in out {
      forall a: Txid
        ensures a !in out[vout]
      {
        var k: nat := if a in out[vout] then out[vout][a] else 0;
        assert AmountAt(out, vout, a) != Some(k);
      }
    }
  }

  /** The flow of a split: each side's outputs are its inputs plus what is added. */
  lemma SplitFlow(rules: Rules, v: Views, tx: Transaction, out: map<nat, Carry>, id: Txid, vout: nat, more: nat)
    requires id in v.markets.markets && SplitsBy(v, tx, id, vout, more)
    requires Check(v.assets.carried, tx, Mints(rules, v)) == Ok(out)
    ensures var f := Markets.FlowOf(TraceWith(v, tx, out), id);
            f.yesOut == f.yesIn + more && f.noOut == f.noIn + more
  {
    hide Check, Total, Named, Assigned, TalliesKeep, TakesOnly;
    SideFlow(rules, v, tx, out, id, vout, more, id);
    SideFlow(rules, v, tx, out, id, vout, more, No(id));
  }

  lemma SideFlow(rules: Rules, v: Views, tx: Transaction, out: map<nat, Carry>, id: Txid, vout: nat, more: nat, side: Txid)
    requires id in v.markets.markets && SplitsBy(v, tx, id, vout, more) && side in {id, No(id)}
    requires Check(v.assets.carried, tx, Mints(rules, v)) == Ok(out)
    ensures Total(out, side) == In(v, tx, side) + more <= U64_MAX
  {
    hide Check, Total, Named, Assigned, TakesOnly, AllLand, MayName;
    assert Tallies(tx, side);
    var t :| 0 <= t < |tx.records.tallies| && Named(tx.records.tallies[t], tx) == side;
    TalliedTotal(v.assets.carried, tx, Mints(rules, v), t);
    assert TallyKeeps(tx.records.tallies[t], tx);
  }

  /** The market a split leaves. */
  lemma SplitTouches(rules: Rules, v: Views, tx: Transaction, out: map<nat, Carry>, id: Txid, vout: nat, more: nat, height: u32,
                     scripts: map<nat, Script>)
    requires Pools.Indexed(v.pools) && Markets.Indexed(v.markets) && v.pools.byOutpoint.Keys !! v.markets.byOutpoint.Keys
    requires id in v.markets.markets && SplitsBy(v, tx, id, vout, more)
    requires Carries(tx, out) && Check(v.assets.carried, tx, Mints(rules, v)) == Ok(out)
    ensures SpendsNone(v.pools.byOutpoint, tx)
    ensures v.markets.markets[id].collateral + more <= U64_MAX
    ensures var m := v.markets.markets[id];
            Markets.Touches(v.markets, tx, TraceWith(v, tx, out), height, scripts,
                            m.(coin := OutPoint(tx.txid, vout), collateral := m.collateral + more))
  {
    hide Check, Honest, Carries, Tallies, Markets.FlowOf, SpendsOne, SpendsNone, TakesOnly, Pools.Indexed;
    TakesMarket(v, tx, id);
    NothingAt(tx, out, vout);
    SplitFlow(rules, v, tx, out, id, vout, more);
  }

  /** Every honest split passes: in every state of every run, for every market there is,
      whatever it adds; and the market keeps everything but its coin and its collateral. */
  lemma SplitPasses(terms: Chain.Terms, rules: Rules, g: Transaction, blocks: seq<Chain.Block>, n: nat, id: Txid,
                    tx: Transaction, vout: nat, more: nat, height: u32, scripts: map<nat, Script>)
    requires OverlayRun(terms, rules, g, blocks) && n <= |blocks| && n <= height
    requires id in ViewsAfter(rules, g, blocks, n).markets.markets && UniqueInputs(tx)
    requires SplitsBy(ViewsAfter(rules, g, blocks, n), tx, id, vout, more)
    ensures var v := ViewsAfter(rules, g, blocks, n);
            var step := Step(rules, PolicyOf(rules, v), v, tx, height, scripts);
            && step.Some? && id in step.value.markets.markets
            && step.value.markets.markets[id]
               == v.markets.markets[id].(coin := OutPoint(tx.txid, vout), collateral := v.markets.markets[id].collateral + more)
  {
    hide OverlayRun, ViewsAfter, AssetsRide, PoolStands, MarketStands, AllSolvent, Freshness.History, Step, Carries, SplitsBy,
      Runs.StateAfter;
    RunGood(terms, rules, g, blocks, n);
    ViewsAgreeWithCoins(terms, rules, g, blocks, n);
    SplitWellFormed(ViewsAfter(rules, g, blocks, n), tx, id, vout, more);
    CarriesExist(tx);
    var out :| Carries(tx, out);
    SplitSteps(rules, ViewsAfter(rules, g, blocks, n), tx, out, id, vout, more, height, scripts);
  }

  lemma SplitWellFormed(v: Views, tx: Transaction, id: Txid, vout: nat, more: nat)
    requires id in v.markets.markets && SplitsBy(v, tx, id, vout, more)
    ensures TalliesKeep(tx, |tx.records.tallies|)
  {
    hide TalliesKeep;
  }

  lemma SplitSteps(rules: Rules, v: Views, tx: Transaction, out: map<nat, Carry>, id: Txid, vout: nat, more: nat, height: u32,
                   scripts: map<nat, Script>)
    requires Pools.Indexed(v.pools) && Markets.Indexed(v.markets) && v.pools.byOutpoint.Keys !! v.markets.byOutpoint.Keys
    requires id in v.markets.markets && SplitsBy(v, tx, id, vout, more) && UniqueInputs(tx) && Carries(tx, out)
    requires rules.markets.Some? && height >= rules.markets.value
    ensures var step := Step(rules, PolicyOf(rules, v), v, tx, height, scripts);
            && step.Some? && id in step.value.markets.markets
            && step.value.markets.markets[id]
               == v.markets.markets[id].(coin := OutPoint(tx.txid, vout), collateral := v.markets.markets[id].collateral + more)
  {
    hide Check, ApplyTx, Carries, Pools.CheckPool, Markets.CheckMarket, Pools.Touches, Markets.Touches, SpendsNone, KeepsRule,
      Pools.Indexed, Markets.Indexed, SplitsBy, JudgePool, JudgeMarket;
    SplitKeeps(rules, v, tx, id, vout, more);
    CheckCarries(v.assets.carried, tx, PolicyOf(rules, v), out);
    SplitTouches(rules, v, tx, out, id, vout, more, height, scripts);
    StepExact(rules, v, tx, out, height, scripts);
    PoolPasses(rules, v, tx, out, height);
    MarketPasses(rules, v, tx, out, height, scripts);
    MarketIndexedId(v, id);
    SplitRecords(v, tx, id, vout, more);
    var m := v.markets.markets[id];
    assert Markets.Touches(v.markets, tx, TraceWith(v, tx, out), height, scripts,
                           m.(coin := OutPoint(tx.txid, vout), collateral := m.collateral + more));
  }

  lemma SplitRecords(v: Views, tx: Transaction, id: Txid, vout: nat, more: nat)
    requires id in v.markets.markets && SplitsBy(v, tx, id, vout, more)
    ensures |tx.records.pools| == 0
  {
  }

  lemma MarketIndexedId(v: Views, id: Txid)
    requires Markets.Indexed(v.markets) && id in v.markets.markets
    ensures v.markets.markets[id].id == id
  {
  }

  lemma SplitKeeps(rules: Rules, v: Views, tx: Transaction, id: Txid, vout: nat, more: nat)
    requires id in v.markets.markets && SplitsBy(v, tx, id, vout, more) && rules.markets.Some?
    ensures KeepsRule(v.assets.carried, tx, Mints(rules, v))
  {
    hide Honest, Tallies, Named, TakesOnly, KeepsRule;
    forall a | a in {id, No(id)}
      ensures Exempted(Mints(rules, v), a, tx)
    {
      assert SplitOf(tx.records.markets[0], v.markets.markets.Keys, a);
    }
    HonestKeeps(rules, v, tx, {id, No(id)});
  }

  /** A step of pool `id` to `p`: the pool's coin taken and recreated, the step one the
      arithmetic admits, and only the pool's own shares not covered by the inputs. */
  ghost predicate PoolSteps(v: Views, tx: Transaction, out: map<nat, Carry>, id: Txid, vout: nat, p: Pools.Pool)
    requires id in v.pools.pools
  {
    && tx.records == Classified([], tx.records.tallies, [PoolRecord(Id(id), vout)], [], [], [])
    && TakesOnly(v, tx, v.pools.pools[id].outpoint)
    && Pools.ContinuesAs(p, v.pools.pools[id], tx, TraceWith(v, tx, out), vout)
    && Honest(v, tx, {id})
  }

  /** Every honest step of a pool passes, be it a swap, an add that mints shares or a
      remove that burns them. */
  lemma PoolStepPasses(terms: Chain.Terms, rules: Rules, g: Transaction, blocks: seq<Chain.Block>, n: nat, id: Txid,
                       tx: Transaction, out: map<nat, Carry>, vout: nat, p: Pools.Pool, height: u32, scripts: map<nat, Script>)
    requires OverlayRun(terms, rules, g, blocks) && n <= |blocks|
    requires id in ViewsAfter(rules, g, blocks, n).pools.pools && UniqueInputs(tx) && Carries(tx, out)
    requires PoolSteps(ViewsAfter(rules, g, blocks, n), tx, out, id, vout, p)
    ensures var v := ViewsAfter(rules, g, blocks, n);
            var step := Step(rules, PolicyOf(rules, v), v, tx, height, scripts);
            step.Some? && id in step.value.pools.pools && step.value.pools.pools[id] == p
  {
    hide OverlayRun, ViewsAfter, AssetsRide, PoolStands, MarketStands, AllSolvent, Freshness.History, Step, Carries, PoolSteps,
      Runs.StateAfter;
    RunGood(terms, rules, g, blocks, n);
    ViewsAgreeWithCoins(terms, rules, g, blocks, n);
    PoolStepSteps(rules, ViewsAfter(rules, g, blocks, n), tx, out, id, vout, p, height, scripts);
  }

  lemma PoolStepSteps(rules: Rules, v: Views, tx: Transaction, out: map<nat, Carry>, id: Txid, vout: nat, p: Pools.Pool, height: u32,
                      scripts: map<nat, Script>)
    requires Pools.Indexed(v.pools) && Markets.Indexed(v.markets) && v.pools.byOutpoint.Keys !! v.markets.byOutpoint.Keys
    requires id in v.pools.pools && PoolSteps(v, tx, out, id, vout, p) && UniqueInputs(tx) && Carries(tx, out) && rules.pool
    ensures var step := Step(rules, PolicyOf(rules, v), v, tx, height, scripts);
            step.Some? && id in step.value.pools.pools && step.value.pools.pools[id] == p
  {
    hide Check, ApplyTx, Carries, Pools.CheckPool, Markets.CheckMarket, Markets.Touches, SpendsNone, SpendsOne, KeepsRule, Honest,
      Markets.Indexed, JudgePool, JudgeMarket, TakesOnly, Transition;
    HonestKeeps(rules, v, tx, {id});
    CheckCarries(v.assets.carried, tx, PolicyOf(rules, v), out);
    TakesPool(v, tx, id);
    assert Pools.Touches(v.pools, tx, TraceWith(v, tx, out), height, p);
    StepExact(rules, v, tx, out, height, scripts);
    PoolPasses(rules, v, tx, out, height);
    MarketPasses(rules, v, tx, out, height, scripts);
  }

  /** An opening of a pool `p`: nothing of a pool or market taken, and only the new
      pool's shares not covered by the inputs. */
  ghost predicate PoolOpens(v: Views, tx: Transaction, out: map<nat, Carry>, vout: nat, height: u32, p: Pools.Pool)
  {
    && tx.records == Classified([], tx.records.tallies, [PoolRecord(SelfTx, vout)], [], [], [])
    && TakesNone(v, tx)
    && Pools.OpensAs(p, tx, TraceWith(v, tx, out), vout, height)
    && Honest(v, tx, {tx.txid})
  }

  /** Every honest opening of a pool passes, and the pool is there. */
  lemma PoolOpeningPasses(terms: Chain.Terms, rules: Rules, g: Transaction, blocks: seq<Chain.Block>, n: nat,
                          tx: Transaction, out: map<nat, Carry>, vout: nat, p: Pools.Pool, height: u32, scripts: map<nat, Script>)
    requires OverlayRun(terms, rules, g, blocks) && n <= |blocks| && rules.pool
    requires UniqueInputs(tx) && Carries(tx, out) && PoolOpens(ViewsAfter(rules, g, blocks, n), tx, out, vout, height, p)
    ensures var v := ViewsAfter(rules, g, blocks, n);
            var step := Step(rules, PolicyOf(rules, v), v, tx, height, scripts);
            step.Some? && tx.txid in step.value.pools.pools && step.value.pools.pools[tx.txid] == p
  {
    hide OverlayRun, ViewsAfter, AssetsRide, PoolStands, MarketStands, AllSolvent, Freshness.History, Step, Carries, PoolOpens,
      Runs.StateAfter;
    RunGood(terms, rules, g, blocks, n);
    PoolOpenSteps(rules, ViewsAfter(rules, g, blocks, n), tx, out, vout, p, height, scripts);
  }

  lemma PoolOpenSteps(rules: Rules, v: Views, tx: Transaction, out: map<nat, Carry>, vout: nat, p: Pools.Pool, height: u32,
                      scripts: map<nat, Script>)
    requires Pools.Indexed(v.pools) && Markets.Indexed(v.markets) && rules.pool
    requires UniqueInputs(tx) && Carries(tx, out) && PoolOpens(v, tx, out, vout, height, p)
    ensures var step := Step(rules, PolicyOf(rules, v), v, tx, height, scripts);
            step.Some? && tx.txid in step.value.pools.pools && step.value.pools.pools[tx.txid] == p
  {
    hide Check, ApplyTx, Carries, Pools.CheckPool, Markets.CheckMarket, Markets.Touches, SpendsNone, KeepsRule, Honest,
      Pools.Indexed, Markets.Indexed, JudgePool, JudgeMarket, TakesNone, ISqrt;
    assert tx.records.pools[0].pool == SelfTx;
    HonestKeeps(rules, v, tx, {tx.txid});
    CheckCarries(v.assets.carried, tx, PolicyOf(rules, v), out);
    TakesNothing(v, tx);
    assert Pools.Touches(v.pools, tx, TraceWith(v, tx, out), height, p);
    StepExact(rules, v, tx, out, height, scripts);
    PoolPasses(rules, v, tx, out, height);
    MarketPasses(rules, v, tx, out, height, scripts);
  }
}
