/** What every transaction keeps, across the three views and the coin set: the
    assets ride on live coins, every pool and market coin stands behind its
    book, and every market can pay what it owes. */
module Solvency {
  import opened Prelude
  import opened Transactions
  import opened Assets
  import opened CollateralCoins
  import opened Overlays
  import Pools
  import Markets
  import Ledger

  type Utxo = Ledger.Utxo

  /** An asset that can exist: a past transaction's id, or a known market's NO. */
  predicate Born(v: Views, past: set<Txid>, a: Txid)
  {
    a in past || (a.No? && a.market in v.markets.markets)
  }

  ghost predicate BornCarry(v: Views, past: set<Txid>, c: Carry)
  {
    RecordableCarry(c) && forall a :: a in c ==> Born(v, past, a)
  }

  /** Every id of the past is a transaction's, and every coin is the past's. */
  ghost predicate PastHolds(coins: Utxo, past: set<Txid>)
  {
    && (forall id :: id in past ==> id.Hash?)
    && (forall o :: o in coins ==> o.txid in past)
  }

  /** Assets ride on unspent coins, and only assets that can exist do. */
  ghost predicate AssetsRide(v: Views, coins: Utxo, past: set<Txid>)
  {
    forall o :: o in v.assets.carried ==> o in coins && BornCarry(v, past, v.assets.carried[o])
  }

  /** A pool's coin is unspent, worth exactly its sats, locked by `OP_TRUE`, and
      carries exactly its asset in the recorded amount. */
  ghost predicate PoolStands(p: Pools.Pool, v: Views, coins: Utxo)
  {
    && p.outpoint in coins && coins[p.outpoint].output == TxOut(p.sats, OP_TRUE)
    && p.outpoint in v.assets.carried && v.assets.carried[p.outpoint] == map[p.asset := p.assets]
  }

  ghost predicate PoolsStand(v: Views, coins: Utxo, past: set<Txid>)
  {
    && Pools.Indexed(v.pools)
    && Pools.SoundBook(v.pools)
    && v.pools.pools.Keys <= past
    && (forall id :: id in v.pools.pools ==> PoolStands(v.pools.pools[id], v, coins))
  }

  /** A market's coin is unspent, worth exactly its collateral, locked by
      `OP_TRUE`, and carries nothing. */
  ghost predicate MarketStands(m: Markets.Market, v: Views, coins: Utxo)
  {
    && m.coin in coins && coins[m.coin].output == TxOut(m.collateral, OP_TRUE)
    && m.coin !in v.assets.carried
  }

  ghost predicate MarketsStand(v: Views, coins: Utxo, past: set<Txid>)
  {
    && Markets.Indexed(v.markets)
    && v.markets.markets.Keys <= past
    && v.markets.markets.Keys !! v.pools.pools.Keys
    && (forall id :: id in v.markets.markets ==> MarketStands(v.markets.markets[id], v, coins))
  }

  /** What the transaction with an id, among these, put into a market it opens. */
  function DepositOf(history: seq<Transaction>, id: Txid): nat
  {
    if |history| == 0 then 0
    else
      var last := history[|history| - 1];
      if last.txid == id then Markets.Deposited(last) else DepositOf(history[..|history| - 1], id)
  }

  /** A history with distinct ids recalls each of its transactions' deposits. */
  lemma {:induction false} DepositRecalled(history: seq<Transaction>, i: nat)
    requires i < |history| && forall a, b :: 0 <= a < b < |history| ==> history[a].txid != history[b].txid
    ensures DepositOf(history, history[i].txid) == Markets.Deposited(history[i])
  {
    var n := |history| - 1;
    if i < n {
      assert history[..n][i] == history[i];
      DepositRecalled(history[..n], i);
    }
  }

  /** Every market can pay: its two assets' carried totals are within what its
      phase owes them, and what its opening put in is there besides. */
  ghost predicate AllSolvent(v: Views, history: seq<Transaction>)
  {
    forall id :: id in v.markets.markets ==> KeepsDeposit(v, history, id)
  }

  ghost predicate KeepsDeposit(v: Views, history: seq<Transaction>, id: Txid)
    requires id in v.markets.markets
  {
    && DepositOf(history, id) > 0
    && Markets.Solvent(v.markets.markets[id], Total(v.assets.carried, id), Total(v.assets.carried, No(id)), DepositOf(history, id))
  }

  /** A rule that is not named, or not active by the tip, has an empty book. */
  predicate IdleEmpty(rules: Rules, v: Views, tip: nat)
  {
    && (!rules.pool ==> v.pools == Pools.PoolBook(map[], map[]))
    && (rules.markets.None? || tip < rules.markets.value ==> v.markets == Markets.MarketBook(map[], map[]))
  }

  ghost predicate Good(rules: Rules, v: Views, coins: Utxo, past: set<Txid>, tip: nat, history: seq<Transaction>)
  {
    && PastHolds(coins, past)
    && AssetsRide(v, coins, past)
    && PoolsStand(v, coins, past)
    && MarketsStand(v, coins, past)
    && AllSolvent(v, history)
    && IdleEmpty(rules, v, tip)
  }

  /** The policy exempts only pools and markets the views know: what holds of
      the applied views' policy all through the next block. */
  predicate PolicyWithin(policy: Policy, v: Views)
  {
    && policy.Collateral?
    && (policy.pools.Some? ==> policy.pools.value <= v.pools.pools.Keys)
    && (policy.markets.Some? ==> policy.markets.value <= v.markets.markets.Keys)
  }

  /** A transaction the earlier phases pass: no input twice, amounts in range,
      an id that is new and a transaction's. */
  predicate Fit(tx: Transaction, past: set<Txid>)
  {
    && UniqueInputs(tx)
    && Pools.MoneyInRange(tx)
    && tx.txid.Hash?
    && tx.txid !in past
  }

  // --- a transaction's parts ----------------------------------------------------------------

  function AfterCoins(coins: Utxo, tx: Transaction, height: u32): Utxo { Ledger.ApplyTx(coins, tx, height, false) }

  /** What spending and creating leaves of the coins. */
  lemma CoinsAfter(coins: Utxo, tx: Transaction, height: u32)
    requires forall o :: o in coins ==> o.txid != tx.txid
    ensures forall o :: o in coins && o !in Spends(tx) ==>
              o in AfterCoins(coins, tx, height) && AfterCoins(coins, tx, height)[o] == coins[o]
    ensures forall v: nat :: v < |tx.outputs| && !IsOpReturn(tx.outputs[v].script) ==>
              OutPoint(tx.txid, v) in AfterCoins(coins, tx, height)
              && AfterCoins(coins, tx, height)[OutPoint(tx.txid, v)].output == tx.outputs[v]
    ensures forall o :: o in AfterCoins(coins, tx, height) ==> (o in coins && o !in Spends(tx)) || o.txid == tx.txid
  {
    Ledger.CoinsAre(tx, |tx.outputs|, height, false);
    SpendAll(coins, tx, |tx.inputs|);
  }

  lemma {:induction false} SpendAll(coins: Utxo, tx: Transaction, n: nat)
    requires n <= |tx.inputs|
    ensures forall o :: o in Ledger.SpendUpTo(coins, tx, n) <==> o in coins && forall i :: 0 <= i < n ==> tx.inputs[i].prev != o
    ensures forall o :: o in Ledger.SpendUpTo(coins, tx, n) ==> Ledger.SpendUpTo(coins, tx, n)[o] == coins[o]
  {
    if n > 0 {
      SpendAll(coins, tx, n - 1);
    }
  }

  /** What a passed transaction leaves on each outpoint. */
  lemma CarriedAfter(view: View, tx: Transaction, height: u32, policy: Policy)
    requires Check(view.carried, tx, policy).Ok?
    requires forall o :: o in view.carried ==> o.txid != tx.txid
    ensures var next, out := ApplyTx(view, tx, height, policy).carried, Check(view.carried, tx, policy).value;
            && (forall o :: o in view.carried && o !in Spends(tx) ==> o in next && next[o] == view.carried[o])
            && (forall v: nat :: v in out ==> OutPoint(tx.txid, v) in next && next[OutPoint(tx.txid, v)] == out[v])
            && (forall o :: o in next ==> (o in view.carried && o !in Spends(tx)) || (o.txid == tx.txid && o.vout in out))
  {
    hide Check;
    PlacedIs(tx.txid, Check(view.carried, tx, policy).value);
  }

  /** Whether a transaction may put out more of an asset than it takes in. */
  predicate Exempt(policy: Policy, tx: Transaction, a: Txid)
  {
    (a == tx.txid && |tx.records.issues| > 0) || Allows(policy, a, tx)
  }

  // --- minting ----------------------------------------------------------------------------------

  /** Some split record of the transaction names market `id`. */
  predicate Splits(tx: Transaction, id: Txid)
  {
    exists i :: 0 <= i < |tx.records.markets| && tx.records.markets[i].Split? && tx.records.markets[i].market == id
  }

  /** Neither side of a known market is exempt unless a split names the market. */
  lemma OnlySplitsMint(v: Views, past: set<Txid>, policy: Policy, tx: Transaction, id: Txid)
    requires PolicyWithin(policy, v) && Fit(tx, past)
    requires v.pools.pools.Keys <= past && v.markets.markets.Keys <= past
    requires v.markets.markets.Keys !! v.pools.pools.Keys
    requires forall p :: p in past ==> p.Hash?
    requires id in v.markets.markets && !Splits(tx, id)
    ensures !Exempt(policy, tx, id) && !Exempt(policy, tx, No(id))
  {
    assert id in past;
  }

  /** A transaction that opens a market mints neither of its sides. */
  lemma OpeningMintsNothing(v: Views, past: set<Txid>, policy: Policy, tx: Transaction)
    requires PolicyWithin(policy, v) && Fit(tx, past)
    requires v.pools.pools.Keys <= past && v.markets.markets.Keys <= past
    requires forall p :: p in past ==> p.Hash?
    requires |tx.records.issues| == 0 && !OpensPool(tx.records)
    requires forall i :: 0 <= i < |tx.records.markets| ==> !tx.records.markets[i].Split?
    ensures !Exempt(policy, tx, tx.txid) && !Exempt(policy, tx, No(tx.txid))
  {
  }

  /** An asset that is exempt exists, or is the transaction's own. */
  lemma ExemptIsBorn(v: Views, past: set<Txid>, policy: Policy, tx: Transaction, a: Txid)
    requires PolicyWithin(policy, v) && Exempt(policy, tx, a)
    requires v.pools.pools.Keys <= past && v.markets.markets.Keys <= past
    ensures Born(v, past + {tx.txid}, a)
  {
  }

  /** How one transaction moves the total of an asset it may not mint. */
  lemma TotalNotMinted(view: View, tx: Transaction, height: u32, policy: Policy, a: Txid)
    requires UniqueInputs(tx) && Check(view.carried, tx, policy).Ok? && !Exempt(policy, tx, a)
    requires forall o :: o in view.carried ==> o.txid != tx.txid
    ensures Total(Check(view.carried, tx, policy).value, a) <= Total(InputCarries(view.carried, tx), a)
    ensures Total(ApplyTx(view, tx, height, policy).carried, a) <= Total(view.carried, a)
  {
    hide Check, Allows, Total;
    CheckedAssigns(view.carried, tx, policy);
    TotalAfter(view, tx, height, policy, a);
    TotalSplit(view.carried, tx, a);
  }

  // --- the steps -----------------------------------------------------------------------------------

  /** The candidate views after a passed step, rule by rule. */
  lemma StepParts(rules: Rules, policy: Policy, v: Views, tx: Transaction, height: u32, scripts: map<nat, Script>)
    requires Step(rules, policy, v, tx, height, scripts).Some?
    ensures Check(v.assets.carried, tx, policy).Ok?
    ensures var next := Step(rules, policy, v, tx, height, scripts).value;
            var trace := Trace(InputCarries(v.assets.carried, tx), Check(v.assets.carried, tx, policy).value);
            && next.assets == ApplyTx(v.assets, tx, height, policy)
            && JudgePool(rules, v.pools, tx, trace, height, false) == Some(next.pools)
            && JudgeMarket(rules, v.markets, tx, trace, height, false, scripts) == Some(next.markets)
  {
    hide Check, ApplyTx, JudgePool, JudgeMarket;
  }

  function TraceOf(v: Views, tx: Transaction, out: map<nat, Carry>): Trace
  {
    Trace(InputCarries(v.assets.carried, tx), out)
  }

  /** No pool disappears or loses value per share from one book to the next. */
  ghost predicate PoolsKeepValue(book: Pools.PoolBook, next: Pools.PoolBook)
  {
    forall id :: id in book.pools ==>
      id in next.pools && (next.pools[id] == book.pools[id] || Pools.KeepsValue(book.pools[id], next.pools[id]))
  }

  /** The pools after a passed step: the others untouched, the touched one on a
      coin of this transaction. */
  lemma PoolsAfter(rules: Rules, v: Views, past: set<Txid>, tx: Transaction, trace: Trace, height: u32, next: Pools.PoolBook)
    requires Fit(tx, past)
    requires Pools.Indexed(v.pools) && Pools.SoundBook(v.pools) && v.pools.pools.Keys <= past
    requires forall o :: o in v.pools.byOutpoint ==> o.txid in past
    requires forall k :: k in trace.outputs ==> RecordableCarry(trace.outputs[k])
    requires JudgePool(rules, v.pools, tx, trace, height, false) == Some(next)
    requires !rules.pool ==> v.pools == Pools.PoolBook(map[], map[])
    ensures Pools.Indexed(next) && Pools.SoundBook(next)
    ensures v.pools.pools.Keys <= next.pools.Keys <= v.pools.pools.Keys + {tx.txid}
    ensures tx.txid in next.pools ==> OpensPool(tx.records)
    ensures !rules.pool ==> next == v.pools
    ensures forall id :: id in next.pools ==>
              || (id in v.pools.pools && next.pools[id] == v.pools.pools[id] && next.pools[id].outpoint !in Spends(tx))
              || (var p := next.pools[id];
                  p.outpoint.txid == tx.txid && TrueCoin(tx, p.outpoint.vout) == Some(p.sats)
                  && p.outpoint.vout in trace.outputs && trace.outputs[p.outpoint.vout] == map[p.asset := p.assets])
    ensures PoolsKeepValue(v.pools, next)
  {
    hide Pools.CheckPool, Pools.Sound, TrueCoin, Pools.Held, Pools.KeepsValue;
    if rules.pool {
      Pools.CheckedPool(v.pools, tx, trace, height);
      var effect := Pools.CheckPool(v.pools, tx, trace, height, false).value;
      if effect.Some? {
        Pools.ApplyIndexed(v.pools, effect.value);
      }
    }
  }

  /** The markets after a passed step: the others untouched, the touched one on
      a coin of this transaction that carries nothing. */
  lemma MarketsAfter(rules: Rules, v: Views, past: set<Txid>, tx: Transaction, trace: Trace, height: u32,
                     scripts: map<nat, Script>, next: Markets.MarketBook)
    requires Fit(tx, past)
    requires Markets.Indexed(v.markets) && v.markets.markets.Keys <= past
    requires forall o :: o in v.markets.byOutpoint ==> o.txid in past
    requires forall a :: Total(trace.outputs, a) <= U64_MAX
    requires JudgeMarket(rules, v.markets, tx, trace, height, false, scripts) == Some(next)
    requires !MarketsActive(rules, height) ==> v.markets == Markets.MarketBook(map[], map[])
    ensures Markets.Indexed(next)
    ensures v.markets.markets.Keys <= next.markets.Keys <= v.markets.markets.Keys + {tx.txid}
    ensures !MarketsActive(rules, height) ==> next == v.markets
    ensures tx.txid in next.markets ==>
              && next.markets[tx.txid].status == Markets.Open
              && next.markets[tx.txid].collateral == Markets.Deposited(tx) > 0
              && |tx.records.issues| == 0 && !OpensPool(tx.records)
              && |tx.records.markets| == 1 && tx.records.markets[0].OpenMarket?
    ensures forall id :: id in next.markets ==>
              || (id in v.markets.markets && next.markets[id] == v.markets.markets[id]
                  && next.markets[id].coin !in Spends(tx) && !Splits(tx, id))
              || (var m := next.markets[id];
                  && m.coin.txid == tx.txid && m.coin.vout !in trace.outputs
                  && TrueCoin(tx, m.coin.vout) == Some(m.collateral)
                  && (id in v.markets.markets ==>
                        && |tx.records.markets| == 1
                        && Markets.Named(tx.records.markets[0]) == Some(id)
                        && Markets.Moves(v.markets.markets[id], m, tx.records.markets[0], Markets.TrueFlow(trace, id))))
  {
    hide Markets.CheckMarket, Markets.Moves, Markets.TrueFlow, TrueCoin, Total, OpensPool;
    if MarketsActive(rules, height) {
      Markets.CheckedMarket(v.markets, tx, trace, height, scripts);
      var effect := Markets.CheckMarket(v.markets, tx, trace, height, false, scripts).value;
      if effect.Some? {
        Markets.ApplyIndexed(v.markets, effect.value);
      }
    }
  }

  /** What a passed step is, with its parts named: the outputs assigned, and the
      three views after. */
  ghost predicate Passed(rules: Rules, policy: Policy, v: Views, tx: Transaction, height: u32, scripts: map<nat, Script>,
                         out: map<nat, Carry>, next: Views)
  {
    && Check(v.assets.carried, tx, policy) == Ok(out)
    && next.assets == ApplyTx(v.assets, tx, height, policy)
    && JudgePool(rules, v.pools, tx, TraceOf(v, tx, out), height, false) == Some(next.pools)
    && JudgeMarket(rules, v.markets, tx, TraceOf(v, tx, out), height, false, scripts) == Some(next.markets)
  }

  /** Carried assets keep riding on live coins. */
  lemma RideAfter(rules: Rules, policy: Policy, v: Views, coins: Utxo, past: set<Txid>, tx: Transaction, height: u32,
                  scripts: map<nat, Script>, out: map<nat, Carry>, next: Views)
    requires Passed(rules, policy, v, tx, height, scripts, out, next)
    requires PastHolds(coins, past) && AssetsRide(v, coins, past) && Fit(tx, past) && PolicyWithin(policy, v)
    requires v.pools.pools.Keys <= past && v.markets.markets.Keys <= past
    requires v.markets.markets.Keys <= next.markets.markets.Keys
    ensures AssetsRide(next, AfterCoins(coins, tx, height), past + {tx.txid})
  {
    hide Check, JudgePool, JudgeMarket, Ledger.ApplyTx, ApplyTx, Exempt, RecordableCarry, Total;
    CoinsAfter(coins, tx, height);
    CarriedAfter(v.assets, tx, height, policy);
    CheckedAssigns(v.assets.carried, tx, policy);
    var carried := next.assets.carried;
    forall o | o in carried
      ensures o in AfterCoins(coins, tx, height) && BornCarry(next, past + {tx.txid}, carried[o])
    {
      if o in v.assets.carried && o !in Spends(tx) {
        assert BornCarry(v, past, v.assets.carried[o]);
      } else {
        assert o == OutPoint(tx.txid, o.vout);
        assert RecordableCarry(out[o.vout]);
        forall a | a in out[o.vout]
          ensures Born(next, past + {tx.txid}, a)
        {
          AssignedIsBorn(policy, v, coins, past, tx, out, o.vout, a);
        }
        GatherBorn(next, past + {tx.txid}, out[o.vout]);
      }
    }
  }

  lemma GatherBorn(v: Views, past: set<Txid>, c: Carry)
    requires RecordableCarry(c) && forall a :: a in c ==> Born(v, past, a)
    ensures BornCarry(v, past, c)
  {
  }

  /** An asset a passed transaction assigns exists already, or is its own. */
  lemma AssignedIsBorn(policy: Policy, v: Views, coins: Utxo, past: set<Txid>, tx: Transaction, out: map<nat, Carry>, k: nat, a: Txid)
    requires Check(v.assets.carried, tx, policy) == Ok(out)
    requires AssetsRide(v, coins, past) && Fit(tx, past) && PolicyWithin(policy, v)
    requires v.pools.pools.Keys <= past && v.markets.markets.Keys <= past
    requires k in out && a in out[k]
    ensures Born(v, past + {tx.txid}, a)
  {
    hide Check, Allows, Total;
    CheckedAssigns(v.assets.carried, tx, policy);
    assert RecordableCarry(out[k]);
    if Exempt(policy, tx, a) {
      ExemptIsBorn(v, past, policy, tx, a);
    } else {
      HeldWithinTotal(out, k, a);
      var o := HolderOf(InputCarries(v.assets.carried, tx), a);
      assert BornCarry(v, past, v.assets.carried[o]);
    }
  }

  lemma HolderOf(m: map<OutPoint, Carry>, a: Txid) returns (o: OutPoint)
    requires Total(m, a) > 0
    ensures o in m && a in m[o]
  {
    o := MapSumPositive(Column(m, a));
  }

  lemma PoolsStandAfter(rules: Rules, policy: Policy, v: Views, coins: Utxo, past: set<Txid>, tx: Transaction, height: u32,
                        scripts: map<nat, Script>, out: map<nat, Carry>, next: Views)
    requires Passed(rules, policy, v, tx, height, scripts, out, next)
    requires PastHolds(coins, past) && AssetsRide(v, coins, past) && PoolsStand(v, coins, past) && Fit(tx, past)
    requires !rules.pool ==> v.pools == Pools.PoolBook(map[], map[])
    ensures PoolsStand(next, AfterCoins(coins, tx, height), past + {tx.txid})
    ensures tx.txid in next.pools.pools ==> OpensPool(tx.records)
    ensures v.pools.pools.Keys <= next.pools.pools.Keys <= v.pools.pools.Keys + {tx.txid}
    ensures !rules.pool ==> next.pools == v.pools
    ensures PoolsKeepValue(v.pools, next.pools)
  {
    hide PoolsKeepValue, Check, JudgePool, JudgeMarket, Ledger.ApplyTx, ApplyTx, BornCarry, Pools.SoundBook, Pools.KeepsValue, RecordableCarry;
    CoinsAfter(coins, tx, height);
    CarriedAfter(v.assets, tx, height, policy);
    CheckedAssigns(v.assets.carried, tx, policy);
    forall o | o in v.pools.byOutpoint
      ensures o.txid in past
    {
      assert PoolStands(v.pools.pools[v.pools.byOutpoint[o]], v, coins);
    }
    PoolsAfter(rules, v, past, tx, TraceOf(v, tx, out), height, next.pools);
    forall id | id in next.pools.pools
      ensures PoolStands(next.pools.pools[id], next, AfterCoins(coins, tx, height))
    {
      var p := next.pools.pools[id];
      if id in v.pools.pools && p == v.pools.pools[id] && p.outpoint !in Spends(tx) {
        assert PoolStands(p, v, coins);
      } else {
        assert p.outpoint == OutPoint(tx.txid, p.outpoint.vout);
      }
    }
  }

  lemma MarketsStandAfter(rules: Rules, policy: Policy, v: Views, coins: Utxo, past: set<Txid>, tx: Transaction, height: u32,
                          scripts: map<nat, Script>, out: map<nat, Carry>, next: Views)
    requires Passed(rules, policy, v, tx, height, scripts, out, next)
    requires PastHolds(coins, past) && AssetsRide(v, coins, past) && MarketsStand(v, coins, past) && Fit(tx, past)
    requires !MarketsActive(rules, height) ==> v.markets == Markets.MarketBook(map[], map[])
    requires tx.txid in next.pools.pools ==> OpensPool(tx.records)
    requires v.pools.pools.Keys <= past
    requires next.pools.pools.Keys <= v.pools.pools.Keys + {tx.txid}
    ensures MarketsStand(next, AfterCoins(coins, tx, height), past + {tx.txid})
    ensures v.markets.markets.Keys <= next.markets.markets.Keys
    ensures !MarketsActive(rules, height) ==> next.markets == v.markets
  {
    hide Check, JudgePool, JudgeMarket, Ledger.ApplyTx, ApplyTx, BornCarry, Total, OpensPool, RecordableCarry,
      Markets.Moves, Markets.TrueFlow, Splits;
    CoinsAfter(coins, tx, height);
    CarriedAfter(v.assets, tx, height, policy);
    CheckedAssigns(v.assets.carried, tx, policy);
    CoinsOfThePast(v, coins, past);
    MarketsAfter(rules, v, past, tx, TraceOf(v, tx, out), height, scripts, next.markets);
    forall id | id in next.markets.markets
      ensures MarketStands(next.markets.markets[id], next, AfterCoins(coins, tx, height))
    {
      var m := next.markets.markets[id];
      if id in v.markets.markets && m == v.markets.markets[id] && m.coin !in Spends(tx) {
        assert MarketStands(m, v, coins);
      } else {
        assert m.coin == OutPoint(tx.txid, m.coin.vout);
      }
    }
  }

  /** An asset that cannot exist yet is carried nowhere. */
  lemma UnbornIsZero(v: Views, coins: Utxo, past: set<Txid>, a: Txid)
    requires AssetsRide(v, coins, past) && !Born(v, past, a)
    ensures Total(v.assets.carried, a) == 0
  {
    forall o | o in v.assets.carried
      ensures a !in v.assets.carried[o]
    {
      assert BornCarry(v, past, v.assets.carried[o]);
    }
    TotalZero(v.assets.carried, a);
  }

  /** How a passed transaction may have left a known market: as it was, with no
      split naming it, or moved by the transaction's one record. */
  ghost predicate Fate(v: Views, tx: Transaction, out: map<nat, Carry>, id: Txid, m: Markets.Market)
    requires id in v.markets.markets
  {
    || (m == v.markets.markets[id] && !Splits(tx, id))
    || (|tx.records.markets| == 1
        && Markets.Moves(v.markets.markets[id], m, tx.records.markets[0], Markets.TrueFlow(TraceOf(v, tx, out), id)))
  }

  /** A known market stays solvent through a passed step. */
  lemma KnownMarketSolvent(policy: Policy, v: Views, coins: Utxo, past: set<Txid>, tx: Transaction, height: u32,
                           out: map<nat, Carry>, id: Txid, m: Markets.Market, spare: nat)
    requires Check(v.assets.carried, tx, policy) == Ok(out)
    requires PastHolds(coins, past) && AssetsRide(v, coins, past) && Fit(tx, past) && PolicyWithin(policy, v)
    requires v.markets.markets.Keys !! v.pools.pools.Keys
    requires v.pools.pools.Keys <= past && v.markets.markets.Keys <= past
    requires id in v.markets.markets && Fate(v, tx, out, id, m)
    requires Markets.Solvent(v.markets.markets[id], Total(v.assets.carried, id), Total(v.assets.carried, No(id)), spare)
    ensures Markets.Solvent(m, Total(ApplyTx(v.assets, tx, height, policy).carried, id),
                            Total(ApplyTx(v.assets, tx, height, policy).carried, No(id)), spare)
  {
    hide Check, ApplyTx, BornCarry, Total, Markets.Moves, Markets.Solvent, Exempt, Splits;
    var before, no, after := v.markets.markets[id], No(id), ApplyTx(v.assets, tx, height, policy).carried;
    TotalAfter(v.assets, tx, height, policy, id);
    TotalAfter(v.assets, tx, height, policy, no);
    TotalSplit(v.assets.carried, tx, id);
    TotalSplit(v.assets.carried, tx, no);
    if !Splits(tx, id) {
      OnlySplitsMint(v, past, policy, tx, id);
      TotalNotMinted(v.assets, tx, height, policy, id);
      TotalNotMinted(v.assets, tx, height, policy, no);
    }
    if m == before && !Splits(tx, id) {
      Markets.SolventLess(m, Total(v.assets.carried, id), Total(v.assets.carried, no), Total(after, id), Total(after, no), spare);
    } else {
      if Splits(tx, id) {
        SplitIsTheRecord(tx, id);
      }
      Markets.SolventStep(before, m, tx.records.markets[0], Markets.TrueFlow(TraceOf(v, tx, out), id),
                          Total(v.assets.carried, id), Total(v.assets.carried, no), spare);
    }
  }

  /** One market stays solvent through a passed step: untouched, moved by its
      record, or newly opened. */
  lemma MarketSolventAfter(rules: Rules, policy: Policy, v: Views, coins: Utxo, past: set<Txid>, tx: Transaction, height: u32,
                           scripts: map<nat, Script>, out: map<nat, Carry>, next: Views, id: Txid,
                           history: seq<Transaction>)
    requires Passed(rules, policy, v, tx, height, scripts, out, next)
    requires PastHolds(coins, past) && AssetsRide(v, coins, past) && Fit(tx, past) && PolicyWithin(policy, v)
    requires MarketsStand(v, coins, past) && v.pools.pools.Keys <= past && AllSolvent(v, history)
    requires DepositOf(history, tx.txid) == Markets.Deposited(tx)
    requires !MarketsActive(rules, height) ==> v.markets == Markets.MarketBook(map[], map[])
    requires id in next.markets.markets
    ensures KeepsDeposit(next, history, id)
    ensures id in v.markets.markets ==> Fate(v, tx, out, id, next.markets.markets[id])
  {
    hide Check, JudgePool, JudgeMarket, ApplyTx, AssetsRide, Total, OpensPool, TrueCoin, RecordableCarry,
      Markets.Moves, Markets.Solvent, Markets.TrueFlow, Markets.Deposited, DepositOf, Splits, PolicyWithin, UniqueInputs;
    CheckedAssigns(v.assets.carried, tx, policy);
    CoinsOfThePast(v, coins, past);
    MarketsAfter(rules, v, past, tx, TraceOf(v, tx, out), height, scripts, next.markets);
    if id in v.markets.markets {
      assert KeepsDeposit(v, history, id);
      KnownMarketSolvent(policy, v, coins, past, tx, height, out, id, next.markets.markets[id], DepositOf(history, id));
    } else {
      NewMarketSolvent(policy, v, coins, past, tx, height, out, next.markets.markets[id]);
    }
  }

  lemma CoinsOfThePast(v: Views, coins: Utxo, past: set<Txid>)
    requires PastHolds(coins, past) && MarketsStand(v, coins, past)
    ensures forall o :: o in v.markets.byOutpoint ==> o.txid in past
  {
    forall o | o in v.markets.byOutpoint
      ensures o.txid in past
    {
      assert MarketStands(v.markets.markets[v.markets.byOutpoint[o]], v, coins);
    }
  }

  lemma SplitIsTheRecord(tx: Transaction, id: Txid)
    requires Splits(tx, id) && |tx.records.markets| == 1
    ensures !tx.records.markets[0].Resolve?
  {
  }

  lemma NewMarketSolvent(policy: Policy, v: Views, coins: Utxo, past: set<Txid>, tx: Transaction, height: u32,
                         out: map<nat, Carry>, m: Markets.Market)
    requires Check(v.assets.carried, tx, policy) == Ok(out)
    requires PastHolds(coins, past) && AssetsRide(v, coins, past) && Fit(tx, past) && PolicyWithin(policy, v)
    requires v.pools.pools.Keys <= past && v.markets.markets.Keys <= past
    requires |tx.records.issues| == 0 && !OpensPool(tx.records)
    requires |tx.records.markets| == 1 && tx.records.markets[0].OpenMarket?
    requires m.status == Markets.Open
    ensures Markets.Solvent(m, Total(ApplyTx(v.assets, tx, height, policy).carried, tx.txid),
                            Total(ApplyTx(v.assets, tx, height, policy).carried, No(tx.txid)), m.collateral)
  {
    hide Check, ApplyTx, Total, Exempt, BornCarry, OpensPool;
    OpeningMintsNothing(v, past, policy, tx);
    UnbornIsZero(v, coins, past, tx.txid);
    UnbornIsZero(v, coins, past, No(tx.txid));
    TotalNotMinted(v.assets, tx, height, policy, tx.txid);
    TotalNotMinted(v.assets, tx, height, policy, No(tx.txid));
  }

  /** How the views change over time: no pool or market disappears, no pool loses
      value per share, and no market takes back its answer or its refund. */
  ghost predicate Evolves(v: Views, w: Views)
  {
    && PoolsKeepValue(v.pools, w.pools)
    && (forall id :: id in v.markets.markets ==>
          id in w.markets.markets && Markets.Advances(v.markets.markets[id], w.markets.markets[id]))
  }

  lemma EvolvesStays(v: Views)
    ensures Evolves(v, v)
  {
  }

  lemma EvolvesChains(u: Views, v: Views, w: Views)
    requires Evolves(u, v) && Evolves(v, w)
    ensures Evolves(u, w)
  {
    hide Pools.KeepsValue;
    forall id | id in u.pools.pools
      ensures id in w.pools.pools && (w.pools.pools[id] == u.pools.pools[id] || Pools.KeepsValue(u.pools.pools[id], w.pools.pools[id]))
    {
      var p, q, r := u.pools.pools[id], v.pools.pools[id], w.pools.pools[id];
      if p != q && q != r {
        Pools.KeepsValueChains(p, q, r);
      }
    }
  }

  lemma FateAdvances(v: Views, tx: Transaction, out: map<nat, Carry>, id: Txid, m: Markets.Market)
    requires id in v.markets.markets && Fate(v, tx, out, id, m)
    ensures Markets.Advances(v.markets.markets[id], m)
  {
    hide Markets.Moves, Markets.TrueFlow, Splits;
    if m != v.markets.markets[id] || Splits(tx, id) {
      Markets.MovesAdvances(v.markets.markets[id], m, tx.records.markets[0], Markets.TrueFlow(TraceOf(v, tx, out), id));
    }
  }

  /** The main step: a transaction that passes the three rules keeps every
      invariant, and the policy of the applied views stays within the views. */
  lemma GoodAfter(rules: Rules, policy: Policy, v: Views, coins: Utxo, past: set<Txid>, tip: nat, tx: Transaction, height: u32,
                  scripts: map<nat, Script>, history: seq<Transaction>)
    requires Step(rules, policy, v, tx, height, scripts).Some?
    requires Good(rules, v, coins, past, tip, history) && Fit(tx, past) && PolicyWithin(policy, v) && tip <= height
    requires DepositOf(history, tx.txid) == Markets.Deposited(tx)
    ensures Good(rules, Step(rules, policy, v, tx, height, scripts).value, AfterCoins(coins, tx, height), past + {tx.txid}, height, history)
    ensures PolicyWithin(policy, Step(rules, policy, v, tx, height, scripts).value)
    ensures Evolves(v, Step(rules, policy, v, tx, height, scripts).value)
  {
    hide PoolsKeepValue, Markets.Advances, Fate, Check, JudgePool, JudgeMarket, Ledger.ApplyTx, ApplyTx, Step, AssetsRide,
      PoolStands, MarketStands, Pools.Indexed, Markets.Indexed, Pools.SoundBook, KeepsDeposit, DepositOf, Markets.Deposited;
    StepParts(rules, policy, v, tx, height, scripts);
    var next, out := Step(rules, policy, v, tx, height, scripts).value, Check(v.assets.carried, tx, policy).value;
    CoinsAfter(coins, tx, height);
    PoolsStandAfter(rules, policy, v, coins, past, tx, height, scripts, out, next);
    MarketsStandAfter(rules, policy, v, coins, past, tx, height, scripts, out, next);
    RideAfter(rules, policy, v, coins, past, tx, height, scripts, out, next);
    forall id | id in next.markets.markets
      ensures KeepsDeposit(next, history, id)
    {
      MarketSolventAfter(rules, policy, v, coins, past, tx, height, scripts, out, next, id, history);
    }
    forall id | id in v.markets.markets
      ensures Markets.Advances(v.markets.markets[id], next.markets.markets[id])
    {
      MarketSolventAfter(rules, policy, v, coins, past, tx, height, scripts, out, next, id, history);
      FateAdvances(v, tx, out, id, next.markets.markets[id]);
    }
  }

  /** A coinbase no rule objects to only adds coins of its own. */
  lemma GoodCoinbase(rules: Rules, v: Views, coins: Utxo, past: set<Txid>, tip: nat, coinbase: Transaction, height: u32,
                     history: seq<Transaction>)
    requires Good(rules, v, coins, past, tip, history) && tip <= height
    requires coinbase.txid.Hash? && coinbase.txid !in past
    ensures Good(rules, v, Ledger.ApplyTx(coins, coinbase, height, true), past + {coinbase.txid}, height, history)
  {
    hide Pools.Indexed, Markets.Indexed, Pools.SoundBook, KeepsDeposit, RecordableCarry;
    Ledger.CoinsAre(coinbase, |coinbase.outputs|, height, true);
    var after := Ledger.ApplyTx(coins, coinbase, height, true);
    forall o | o in coins
      ensures o in after && after[o] == coins[o]
    {
      assert o.txid in past;
    }
    forall o | o in v.assets.carried
      ensures o in after && BornCarry(v, past + {coinbase.txid}, v.assets.carried[o])
    {
      assert BornCarry(v, past, v.assets.carried[o]);
    }
    forall id | id in v.pools.pools
      ensures PoolStands(v.pools.pools[id], v, after)
    {
      assert PoolStands(v.pools.pools[id], v, coins);
    }
    forall id | id in v.markets.markets
      ensures MarketStands(v.markets.markets[id], v, after)
    {
      assert MarketStands(v.markets.markets[id], v, coins);
    }
  }

  lemma NothingYet(rules: Rules, coins: Utxo, past: set<Txid>, tip: nat, history: seq<Transaction>)
    requires PastHolds(coins, past)
    ensures Good(rules, NO_VIEWS, coins, past, tip, history)
  {
  }
}
