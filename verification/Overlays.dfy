/** The asset, pool and market rules together (sidestr-core/src/overlays.rs).

    Validation runs each rule over the whole block, in that order; a producer
    runs all three transaction by transaction. Both are defined here, over the
    same three checks, and proved to agree. */
module Overlays {
  import opened Prelude
  import opened Transactions
  import opened Assets
  import opened CollateralCoins
  import Pools
  import Markets

  /** Which collateral rules a document names; markets from an activation height. */
  datatype Rules = Rules(pool: bool, markets: Option<u32>)

  /** The three views, as applied blocks (or a candidate's transactions) leave them. */
  datatype Views = Views(assets: View, pools: Pools.PoolBook, markets: Markets.MarketBook)

  const NO_VIEWS := Views(EMPTY_VIEW, Pools.PoolBook(map[], map[]), Markets.MarketBook(map[], map[]))

  /** The mint policy reads the applied views, so it is fixed for a whole block. */
  function PolicyOf(rules: Rules, v: Views): Policy
  {
    Collateral(if rules.pool then Some(v.pools.pools.Keys) else None,
               if rules.markets.Some? then Some(v.markets.markets.Keys) else None)
  }

  predicate MarketsActive(rules: Rules, height: u32)
  {
    rules.markets.Some? && height >= rules.markets.value
  }

  /** What running a rule over a block comes to: what it leaves, a refusal, or a
      halt, where the code panics and neither answers nor keeps anything. */
  datatype Walk<T> = Leaves(left: T) | Refuses | Halts

  ghost function WalkPool(rules: Rules, book: Pools.PoolBook, tx: Transaction, trace: Trace, height: u32, coinbase: bool): Walk<Pools.PoolBook>
  {
    if !rules.pool then Leaves(book)
    else
      var r := Pools.CheckPool(book, tx, trace, height, coinbase);
      if r.Ok? then Leaves(Pools.ApplyEffect(book, r.value)) else if Pools.Halting(r.error) then Halts else Refuses
  }

  ghost function JudgePool(rules: Rules, book: Pools.PoolBook, tx: Transaction, trace: Trace, height: u32, coinbase: bool)
    : Option<Pools.PoolBook>
  {
    var w := WalkPool(rules, book, tx, trace, height, coinbase);
    if w.Leaves? then Some(w.left) else None
  }

  ghost function JudgeMarket(rules: Rules, book: Markets.MarketBook, tx: Transaction, trace: Trace, height: u32,
                             coinbase: bool, scripts: map<nat, Script>): Option<Markets.MarketBook>
  {
    if !MarketsActive(rules, height) then Some(book)
    else
      var r := Markets.CheckMarket(book, tx, trace, height, coinbase, scripts);
      if r.Err? then None else Some(Markets.ApplyMarketEffect(book, r.value))
  }

  /** What the assets rule finds of a transaction: the view after and its trace. */
  ghost function JudgeAssets(view: View, tx: Transaction, height: u32, policy: Policy): Option<(View, Trace)>
  {
    var r := Check(view.carried, tx, policy);
    if r.Err? then None
    else Some((ApplyTx(view, tx, height, policy), Trace(InputCarries(view.carried, tx), r.value)))
  }

  // --- the validator's order: rule by rule -----------------------------------------------

  /** A coinbase carries no issue, tally or malformed record. */
  predicate NoAssetRecords(coinbase: Transaction)
  {
    |coinbase.records.issues| == 0 && |coinbase.records.tallies| == 0 && |coinbase.records.bad| == 0
  }

  /** The first transaction: no asset record, and one that is not a coinbase is
      read like any other. */
  ghost function JudgeFirst(view: View, tx: Transaction, height: u32, policy: Policy): Option<(View, Trace)>
  {
    if !NoAssetRecords(tx) then None
    else if IsCoinbase(tx) then Some((view, Trace(InputCarries(view.carried, tx), map[])))
    else JudgeAssets(view, tx, height, policy)
  }

  /** The assets rule over the first `n` transactions: the candidate view and a
      trace of each transaction. A coinbase-shaped transaction after the first has
      no outcome to read, and the walk halts there. */
  ghost function AssetsOver(view: View, txs: seq<Transaction>, n: nat, height: u32, policy: Policy): Walk<(View, seq<Trace>)>
    requires n <= |txs|
  {
    if n == 0 then Leaves((view, []))
    else if n == 1 then
      var r := JudgeFirst(view, txs[0], height, policy);
      if r.None? then Refuses else Leaves((r.value.0, [r.value.1]))
    else
      var before := AssetsOver(view, txs, n - 1, height, policy);
      if !before.Leaves? then before
      else if IsCoinbase(txs[n - 1]) then Halts
      else
        var r := JudgeAssets(before.left.0, txs[n - 1], height, policy);
        if r.None? then Refuses else Leaves((r.value.0, before.left.1 + [r.value.1]))
  }

  /** The pool rule over a block, transaction `i` with trace `i`. */
  ghost function PoolsOver(rules: Rules, book: Pools.PoolBook, txs: seq<Transaction>, traces: seq<Trace>, height: u32): Walk<Pools.PoolBook>
    requires |traces| <= |txs|
  {
    if |traces| == 0 then Leaves(book)
    else
      var n := |traces| - 1;
      var before := PoolsOver(rules, book, txs, traces[..n], height);
      if !before.Leaves? then before else WalkPool(rules, before.left, txs[n], traces[n], height, n == 0)
  }

  ghost function MarketsOver(rules: Rules, book: Markets.MarketBook, txs: seq<Transaction>, traces: seq<Trace>, height: u32,
                             scripts: seq<map<nat, Script>>): Option<Markets.MarketBook>
    requires |traces| <= |txs| == |scripts|
  {
    if |traces| == 0 then Some(book)
    else
      var n := |traces| - 1;
      var before := MarketsOver(rules, book, txs, traces[..n], height, scripts);
      if before.None? then None
      else JudgeMarket(rules, before.value, txs[n], traces[n], height, n == 0, scripts[n])
  }

  /** The verdict on the first `n` transactions of a block: the views it leaves,
      or nothing when any rule does not pass it. */
  ghost function Validated(rules: Rules, v: Views, txs: seq<Transaction>, n: nat, height: u32,
                           scripts: seq<map<nat, Script>>): Option<Views>
    requires n <= |txs| == |scripts|
  {
    var assets := AssetsOver(v.assets, txs, n, height, PolicyOf(rules, v));
    if !assets.Leaves? then None
    else
      TracesLength(v.assets, txs, n, height, PolicyOf(rules, v));
      var pools := PoolsOver(rules, v.pools, txs, assets.left.1, height);
      var markets := MarketsOver(rules, v.markets, txs, assets.left.1, height, scripts);
      if !pools.Leaves? || markets.None? then None
      else Some(Views(assets.left.0, pools.left, markets.value))
  }

  lemma {:induction false} TracesLength(view: View, txs: seq<Transaction>, n: nat, height: u32, policy: Policy)
    requires n <= |txs|
    ensures AssetsOver(view, txs, n, height, policy).Leaves? ==> |AssetsOver(view, txs, n, height, policy).left.1| == n
  {
    hide JudgeAssets, JudgeFirst;
    if n > 1 {
      TracesLength(view, txs, n - 1, height, policy);
    }
  }

  // --- the producer's order: transaction by transaction -------------------------------------

  /** One transaction that is not a coinbase, through assets, pools and markets. */
  ghost function Step(rules: Rules, policy: Policy, v: Views, tx: Transaction, height: u32, scripts: map<nat, Script>): Option<Views>
  {
    var assets := JudgeAssets(v.assets, tx, height, policy);
    if assets.None? then None
    else
      var pools := JudgePool(rules, v.pools, tx, assets.value.1, height, false);
      var markets := JudgeMarket(rules, v.markets, tx, assets.value.1, height, false, scripts);
      if pools.None? || markets.None? then None
      else Some(Views(assets.value.0, pools.value, markets.value))
  }

  /** A coinbase no rule objects to. */
  predicate RecordFree(rules: Rules, coinbase: Transaction, height: u32)
  {
    && NoAssetRecords(coinbase)
    && (rules.pool ==> |coinbase.records.pools| == 0)
    && (MarketsActive(rules, height) ==> |coinbase.records.markets| == 0 && |coinbase.records.questions| == 0)
  }

  /** The first `n` transactions of a block, one at a time. */
  ghost function Stepped(rules: Rules, policy: Policy, v: Views, txs: seq<Transaction>, n: nat, height: u32,
                         scripts: seq<map<nat, Script>>): Option<Views>
    requires n <= |txs| == |scripts|
  {
    if n == 0 then Some(v)
    else if n == 1 then
      var first := JudgeFirst(v.assets, txs[0], height, policy);
      if first.Some? && RecordFree(rules, txs[0], height) then Some(v.(assets := first.value.0)) else None
    else
      var before := Stepped(rules, policy, v, txs, n - 1, height, scripts);
      if before.None? || IsCoinbase(txs[n - 1]) then None
      else Step(rules, policy, before.value, txs[n - 1], height, scripts[n - 1])
  }

  lemma FirstAgrees(rules: Rules, v: Views, txs: seq<Transaction>, height: u32, scripts: seq<map<nat, Script>>)
    requires 1 <= |txs| == |scripts|
    ensures Validated(rules, v, txs, 1, height, scripts) == Stepped(rules, PolicyOf(rules, v), v, txs, 1, height, scripts)
  {
    hide JudgeAssets;
    var assets := AssetsOver(v.assets, txs, 1, height, PolicyOf(rules, v));
    if assets.Leaves? {
      var t := assets.left.1;
      assert |t| == 1 && t[..0] == [];
      assert PoolsOver(rules, v.pools, txs, t[..0], height) == Leaves(v.pools);
      assert MarketsOver(rules, v.markets, txs, t[..0], height, scripts) == Some(v.markets);
    }
  }

  /** Rule by rule and transaction by transaction are the same judgement, with
      the same views left behind, whatever the block. */
  lemma {:induction false} ValidatedIsStepped(rules: Rules, v: Views, txs: seq<Transaction>, n: nat, height: u32,
                                              scripts: seq<map<nat, Script>>)
    requires n <= |txs| == |scripts|
    ensures Validated(rules, v, txs, n, height, scripts) == Stepped(rules, PolicyOf(rules, v), v, txs, n, height, scripts)
  {
    hide JudgeAssets, WalkPool, JudgeMarket, RecordFree, JudgeFirst;
    if n == 1 {
      FirstAgrees(rules, v, txs, height, scripts);
    } else if n > 1 {
      ValidatedIsStepped(rules, v, txs, n - 1, height, scripts);
      var policy := PolicyOf(rules, v);
      var assets, before := AssetsOver(v.assets, txs, n, height, policy), AssetsOver(v.assets, txs, n - 1, height, policy);
      if assets.Leaves? {
        TracesLength(v.assets, txs, n - 1, height, policy);
        var t := assets.left.1;
        assert t[..n - 1] == before.left.1;
      }
    }
  }
}
