/** Whole runs of a chain that names the asset, pool and market rules: the
    ledger's run, and at each block the three rules on the applied views. */
module OverlayRuns {
  import opened Prelude
  import opened Transactions
  import opened Assets
  import opened Overlays
  import opened Solvency
  import opened CollateralCoins
  import Pools
  import Markets
  import Ledger
  import Chain
  import Runs
  import Freshness

  /** What the resolved spending says of transaction `ti`'s inputs: the script
      each input's coin is locked by. */
  function ScriptsOf(resolved: seq<(nat, nat, TxOut)>, ti: nat): map<nat, Script>
  {
    if |resolved| == 0 then map[]
    else
      var before, last := ScriptsOf(resolved[..|resolved| - 1], ti), resolved[|resolved| - 1];
      if last.0 == ti then before[last.1 := last.2.script] else before
  }

  function BlockScripts(coins: Utxo, txs: seq<Transaction>, height: u32): seq<map<nat, Script>>
  {
    var resolved := Ledger.Resolution(coins, txs, height).resolved;
    seq(|txs|, i requires 0 <= i < |txs| => ScriptsOf(resolved, i))
  }

  /** The three rules' verdict on a block extending a chain. */
  ghost function Verdict(rules: Rules, v: Views, s: Chain.State, b: Chain.Block): Option<Views>
    requires s.tip + 1 <= U32_MAX
  {
    Validated(rules, v, b.txs, |b.txs|, s.tip + 1, BlockScripts(s.coins, b.txs, s.tip + 1))
  }

  /** The applied views after the first `n` blocks. */
  ghost function ViewsAfter(rules: Rules, g: Transaction, blocks: seq<Chain.Block>, n: nat): Views
    requires n <= |blocks|
  {
    if n == 0 then NO_VIEWS
    else
      var before, s := ViewsAfter(rules, g, blocks, n - 1), Runs.StateAfter(g, blocks, n - 1);
      if s.tip + 1 > U32_MAX then before
      else
        var verdict := Verdict(rules, before, s, blocks[n - 1]);
        if verdict.None? then before else verdict.value
  }

  /** A run the ledger's rules and the three overlay rules all accept, whose ids
      are transactions' ids and commit to their inputs. */
  ghost predicate OverlayRun(terms: Chain.Terms, rules: Rules, g: Transaction, blocks: seq<Chain.Block>)
  {
    && Runs.ValidRun(terms, g, blocks)
    && Freshness.Committing(Freshness.History(g, blocks, |blocks|))
    && (forall i :: 0 <= i < |Freshness.History(g, blocks, |blocks|)| ==> Freshness.History(g, blocks, |blocks|)[i].txid.Hash?)
    && (forall n :: 0 <= n < |blocks| && Runs.StateAfter(g, blocks, n).tip + 1 <= U32_MAX ==>
          Verdict(rules, ViewsAfter(rules, g, blocks, n), Runs.StateAfter(g, blocks, n), blocks[n]).Some?)
  }

  // --- one block ---------------------------------------------------------------------------

  lemma AmountsInRange(tx: Transaction, coinbase: bool)
    requires Chain.ValidTx(tx, coinbase)
    ensures Pools.MoneyInRange(tx)
  {
    forall v | 0 <= v < |tx.outputs|
      ensures tx.outputs[v].value <= Chain.MAX_MONEY
    {
      OneOfTotal(tx.outputs, |tx.outputs|, v);
    }
  }

  lemma {:induction false} OneOfTotal(outputs: seq<TxOut>, n: nat, v: nat)
    requires v < n <= |outputs|
    ensures outputs[v].value <= Ledger.OutTotal(outputs, n)
  {
    if v < n - 1 {
      OneOfTotal(outputs, n - 1, v);
    }
  }

  lemma {:induction false} PrefixStepped(rules: Rules, policy: Policy, v: Views, txs: seq<Transaction>, m: nat, n: nat, height: u32,
                                         scripts: seq<map<nat, Script>>)
    requires 1 <= m <= n <= |txs| == |scripts|
    requires Stepped(rules, policy, v, txs, n, height, scripts).Some?
    ensures Stepped(rules, policy, v, txs, m, height, scripts).Some?
  {
    hide Step, RecordFree, JudgeFirst, IsCoinbase;
    if m < n {
      PrefixStepped(rules, policy, v, txs, m, n - 1, height, scripts);
    }
  }

  function PastAfter(past: set<Txid>, txs: seq<Transaction>, n: nat): set<Txid>
    requires n <= |txs|
  {
    if n == 0 then past else PastAfter(past, txs, n - 1) + {txs[n - 1].txid}
  }

  lemma {:induction false} PastAfterIs(past: set<Txid>, txs: seq<Transaction>, n: nat)
    requires n <= |txs|
    ensures forall id :: id in PastAfter(past, txs, n) <==> id in past || exists i :: 0 <= i < n && txs[i].txid == id
  {
    if n > 0 {
      PastAfterIs(past, txs, n - 1);
    }
  }

  lemma PolicyStartsWithin(rules: Rules, v: Views)
    ensures PolicyWithin(PolicyOf(rules, v), v)
  {
  }

  /** A coinbase first; fresh ids, unique inputs and amounts in range at every
      position; and every deposit as the history recalls it. */
  ghost predicate FitBlock(txs: seq<Transaction>, past: set<Txid>, history: seq<Transaction>)
  {
    && |txs| > 0 && IsCoinbase(txs[0])
    && (forall i :: 0 <= i < |txs| ==> DepositOf(history, txs[i].txid) == Markets.Deposited(txs[i]))
    && (forall i :: 0 <= i < |txs| ==> UniqueInputs(txs[i]) && Pools.MoneyInRange(txs[i]) && txs[i].txid.Hash? && txs[i].txid !in past)
    && (forall i, j :: 0 <= i < j < |txs| ==> txs[i].txid != txs[j].txid)
  }

  lemma FitAt(txs: seq<Transaction>, past: set<Txid>, history: seq<Transaction>, n: nat)
    requires FitBlock(txs, past, history) && n < |txs|
    ensures Fit(txs[n], PastAfter(past, txs, n)) && DepositOf(history, txs[n].txid) == Markets.Deposited(txs[n])
    ensures IsCoinbase(txs[0])
  {
    PastAfterIs(past, txs, n);
  }

  /** Every prefix of an accepted block keeps every invariant. */
  lemma {:induction false} BlockGood(rules: Rules, v: Views, coins: Utxo, past: set<Txid>, tip: nat, txs: seq<Transaction>,
                                     n: nat, height: u32, scripts: seq<map<nat, Script>>, history: seq<Transaction>)
    requires 1 <= n <= |txs| == |scripts|
    requires Good(rules, v, coins, past, tip, history) && tip <= height && FitBlock(txs, past, history)
    requires Stepped(rules, PolicyOf(rules, v), v, txs, n, height, scripts).Some?
    ensures var w := Stepped(rules, PolicyOf(rules, v), v, txs, n, height, scripts).value;
            && Good(rules, w, Ledger.ApplyTxs(coins, txs, n, height), PastAfter(past, txs, n), height, history)
            && PolicyWithin(PolicyOf(rules, v), w)
            && Evolves(v, w)
  {
    hide Good, Fit, FitBlock, PolicyWithin, PolicyOf, Step, RecordFree, Ledger.ApplyTx, Evolves, DepositOf, Markets.Deposited,
      JudgeFirst, IsCoinbase;
    FitAt(txs, past, history, n - 1);
    if n == 1 {
      BlockStart(rules, v, coins, past, tip, txs, height, scripts, history);
    } else {
      PrefixStepped(rules, PolicyOf(rules, v), v, txs, n - 1, n, height, scripts);
      BlockGood(rules, v, coins, past, tip, txs, n - 1, height, scripts, history);
      var w := Stepped(rules, PolicyOf(rules, v), v, txs, n - 1, height, scripts).value;
      GoodAfter(rules, PolicyOf(rules, v), w, Ledger.ApplyTxs(coins, txs, n - 1, height), PastAfter(past, txs, n - 1), height,
                txs[n - 1], height, scripts[n - 1], history);
      EvolvesChains(v, w, Stepped(rules, PolicyOf(rules, v), v, txs, n, height, scripts).value);
    }
  }

  lemma BlockStart(rules: Rules, v: Views, coins: Utxo, past: set<Txid>, tip: nat, txs: seq<Transaction>, height: u32,
                   scripts: seq<map<nat, Script>>, history: seq<Transaction>)
    requires |txs| > 0 && |scripts| == |txs| && Good(rules, v, coins, past, tip, history) && tip <= height && Fit(txs[0], past)
    requires IsCoinbase(txs[0]) && Stepped(rules, PolicyOf(rules, v), v, txs, 1, height, scripts).Some?
    ensures Stepped(rules, PolicyOf(rules, v), v, txs, 1, height, scripts) == Some(v)
    ensures Good(rules, v, Ledger.ApplyTxs(coins, txs, 1, height), PastAfter(past, txs, 1), height, history)
    ensures PolicyWithin(PolicyOf(rules, v), v)
    ensures Evolves(v, v)
  {
    hide Good, PolicyWithin, PolicyOf, Ledger.ApplyTx, JudgeAssets;
    assert Ledger.ApplyTxs(coins, txs, 0, height) == coins;
    assert PastAfter(past, txs, 0) == past;
    GoodCoinbase(rules, v, coins, past, tip, txs[0], height, history);
    PolicyStartsWithin(rules, v);
  }

  // --- whole runs ----------------------------------------------------------------------------

  /** The ids of a run's first `n` blocks are the past the next block extends. */
  lemma RunFit(terms: Chain.Terms, rules: Rules, g: Transaction, blocks: seq<Chain.Block>, n: nat)
    requires OverlayRun(terms, rules, g, blocks) && n < |blocks|
    ensures FitBlock(blocks[n].txs, Freshness.Ids(Freshness.History(g, blocks, n)), Freshness.History(g, blocks, |blocks|))
    ensures PastAfter(Freshness.Ids(Freshness.History(g, blocks, n)), blocks[n].txs, |blocks[n].txs|)
            == Freshness.Ids(Freshness.History(g, blocks, n + 1))
  {
    hide Chain.Accepts, Runs.ValidRun, Runs.StateAfter, Freshness.Committing, Pools.MoneyInRange, UniqueInputs, Verdict, ViewsAfter,
      DepositOf, Markets.Deposited, IsCoinbase;
    var past, txs := Freshness.History(g, blocks, n), blocks[n].txs;
    Runs.RunStep(terms, g, blocks, n);
    Freshness.AcceptedShape(terms, Runs.StateAfter(g, blocks, n), blocks[n]);
    AcceptedAmounts(terms, Runs.StateAfter(g, blocks, n), blocks[n]);
    Freshness.TxidsNeverRepeat(terms, g, blocks);
    HistoryExtends(g, blocks, n + 1, |blocks|);
    NewToThePast(past, txs, Freshness.History(g, blocks, |blocks|));
    DepositsRecalled(past, txs, Freshness.History(g, blocks, |blocks|));
    PastAfterIs(Freshness.Ids(past), txs, |txs|);
    IdsConcat(past, txs);
  }

  /** A history recalls the deposits of every part of it. */
  lemma DepositsRecalled(past: seq<Transaction>, txs: seq<Transaction>, all: seq<Transaction>)
    requires |past| + |txs| <= |all| && past + txs == all[..|past| + |txs|] && Freshness.Distinct(all)
    ensures forall i :: 0 <= i < |txs| ==> DepositOf(all, txs[i].txid) == Markets.Deposited(txs[i])
  {
    hide DepositOf, Markets.Deposited, Freshness.Distinct;
    forall i | 0 <= i < |txs|
      ensures DepositOf(all, txs[i].txid) == Markets.Deposited(txs[i])
    {
      assert (past + txs)[|past| + i] == txs[i];
      DepositAt(all, |past| + i);
    }
  }

  lemma DepositAt(all: seq<Transaction>, k: nat)
    requires k < |all| && Freshness.Distinct(all)
    ensures DepositOf(all, all[k].txid) == Markets.Deposited(all[k])
  {
    hide DepositOf, Markets.Deposited;
    DepositRecalled(all, k);
  }

  /** In a history of distinct ids, a part's ids are new to what came before it. */
  lemma NewToThePast(past: seq<Transaction>, txs: seq<Transaction>, all: seq<Transaction>)
    requires |past| + |txs| <= |all| && past + txs == all[..|past| + |txs|]
    requires forall i, j :: 0 <= i < j < |all| ==> all[i].txid != all[j].txid
    requires forall i :: 0 <= i < |all| ==> all[i].txid.Hash?
    ensures forall i :: 0 <= i < |txs| ==> txs[i].txid.Hash? && txs[i].txid !in Freshness.Ids(past)
    ensures forall i, j :: 0 <= i < j < |txs| ==> txs[i].txid != txs[j].txid
  {
    assert forall k :: 0 <= k < |past| ==> (past + txs)[k] == past[k] == all[k];
    assert forall i :: 0 <= i < |txs| ==> (past + txs)[|past| + i] == txs[i] == all[|past| + i];
  }

  lemma IdsConcat(a: seq<Transaction>, b: seq<Transaction>)
    ensures forall id :: id in Freshness.Ids(a + b) <==> id in Freshness.Ids(a) || exists i :: 0 <= i < |b| && b[i].txid == id
  {
    var c := a + b;
    forall id | id in Freshness.Ids(c)
      ensures id in Freshness.Ids(a) || exists i :: 0 <= i < |b| && b[i].txid == id
    {
      var k :| 0 <= k < |c| && c[k].txid == id;
      if k < |a| {
        assert a[k].txid == id;
      } else {
        assert b[k - |a|].txid == id;
      }
    }
    forall i | 0 <= i < |b|
      ensures b[i].txid in Freshness.Ids(c)
    {
      assert c[|a| + i] == b[i];
    }
    forall id | id in Freshness.Ids(a)
      ensures id in Freshness.Ids(c)
    {
      var k :| 0 <= k < |a| && a[k].txid == id;
      assert c[k] == a[k];
    }
  }

  lemma {:induction false} HistoryExtends(g: Transaction, blocks: seq<Chain.Block>, m: nat, n: nat)
    requires m <= n <= |blocks|
    ensures Freshness.History(g, blocks, m) <= Freshness.History(g, blocks, n)
  {
    if m < n {
      HistoryExtends(g, blocks, m, n - 1);
    }
  }

  lemma AcceptedAmounts(terms: Chain.Terms, s: Chain.State, b: Chain.Block)
    requires Chain.Accepts(terms, s, b)
    ensures forall i :: 0 <= i < |b.txs| ==> Pools.MoneyInRange(b.txs[i])
  {
    hide Chain.ContextOk, Chain.ValidTx, Pools.MoneyInRange;
    forall i | 0 <= i < |b.txs|
      ensures Pools.MoneyInRange(b.txs[i])
    {
      AmountsInRange(b.txs[i], i == 0);
    }
  }

  /** In every state an accepted run reaches, every invariant across the three
      views and the coin set holds. */
  lemma {:induction false} RunGood(terms: Chain.Terms, rules: Rules, g: Transaction, blocks: seq<Chain.Block>, n: nat)
    requires OverlayRun(terms, rules, g, blocks) && n <= |blocks|
    ensures Good(rules, ViewsAfter(rules, g, blocks, n), Runs.StateAfter(g, blocks, n).coins,
                 Freshness.Ids(Freshness.History(g, blocks, n)), n, Freshness.History(g, blocks, |blocks|))
    ensures n > 0 ==> Evolves(ViewsAfter(rules, g, blocks, n - 1), ViewsAfter(rules, g, blocks, n))
  {
    hide Good, OverlayRun, Freshness.History, ViewsAfter, Runs.StateAfter, Evolves, Freshness.Ids;
    if n == 0 {
      RunStart(terms, rules, g, blocks);
    } else {
      RunGood(terms, rules, g, blocks, n - 1);
      RunStepGood(terms, rules, g, blocks, n - 1);
    }
  }

  lemma RunStepGood(terms: Chain.Terms, rules: Rules, g: Transaction, blocks: seq<Chain.Block>, n: nat)
    requires OverlayRun(terms, rules, g, blocks) && n < |blocks|
    requires Good(rules, ViewsAfter(rules, g, blocks, n), Runs.StateAfter(g, blocks, n).coins,
                  Freshness.Ids(Freshness.History(g, blocks, n)), n, Freshness.History(g, blocks, |blocks|))
    ensures Good(rules, ViewsAfter(rules, g, blocks, n + 1), Runs.StateAfter(g, blocks, n + 1).coins,
                 Freshness.Ids(Freshness.History(g, blocks, n + 1)), n + 1, Freshness.History(g, blocks, |blocks|))
    ensures Evolves(ViewsAfter(rules, g, blocks, n), ViewsAfter(rules, g, blocks, n + 1))
  {
    hide Good, Chain.Accepts, Chain.Extend, Runs.ValidRun, Runs.StateAfter, Freshness.Committing, FitBlock, Validated, Stepped,
      Freshness.History, BlockScripts, PolicyOf, Evolves, Freshness.Ids, PastAfter, Ledger.ApplyTxs;
    var s, b, v := Runs.StateAfter(g, blocks, n), blocks[n], ViewsAfter(rules, g, blocks, n);
    Runs.RunStep(terms, g, blocks, n);
    Runs.ClaimsStayBelowTip(terms, g, blocks, n);
    Freshness.AcceptedShape(terms, s, b);
    RunFit(terms, rules, g, blocks, n);
    var scripts := BlockScripts(s.coins, b.txs, n + 1);
    ScriptsLength(s.coins, b.txs, n + 1);
    ValidatedIsStepped(rules, v, b.txs, |b.txs|, n + 1, scripts);
    BlockGood(rules, v, s.coins, Freshness.Ids(Freshness.History(g, blocks, n)), n, b.txs, |b.txs|, n + 1, scripts,
              Freshness.History(g, blocks, |blocks|));
  }

  lemma ScriptsLength(coins: Utxo, txs: seq<Transaction>, height: u32)
    ensures |BlockScripts(coins, txs, height)| == |txs|
  {
  }

  lemma RunStart(terms: Chain.Terms, rules: Rules, g: Transaction, blocks: seq<Chain.Block>)
    requires OverlayRun(terms, rules, g, blocks)
    ensures Good(rules, ViewsAfter(rules, g, blocks, 0), Runs.StateAfter(g, blocks, 0).coins, Freshness.Ids(Freshness.History(g, blocks, 0)), 0,
                 Freshness.History(g, blocks, |blocks|))
  {
    hide Chain.Accepts, Runs.ValidRun, Freshness.Committing, Verdict, Good, DepositOf;
    HistoryExtends(g, blocks, 0, |blocks|);
    assert Freshness.History(g, blocks, |blocks|)[0] == g;
    Ledger.CoinsAre(g, |g.outputs|, 0, true);
    assert [g][0] == g;
    assert PastHolds(Runs.Origin(g).coins, Freshness.Ids([g]));
    NothingYet(rules, Runs.Origin(g).coins, Freshness.Ids([g]), 0, Freshness.History(g, blocks, |blocks|));
  }

  // --- the main results ------------------------------------------------------------------------

  /** What the transaction that opened a market put into it. */
  ghost function Deposit(g: Transaction, blocks: seq<Chain.Block>, id: Txid): nat
  {
    DepositOf(Freshness.History(g, blocks, |blocks|), id)
  }

  /** Market solvency over every run, with the opening deposit always left over.
      While a market is open its carried YES and its carried NO are each within its
      collateral less the deposit; once it is resolved the winner's total is; while
      it refunds, both together are within twice that. The deposit is never nothing,
      and no market is both resolved and refunding. */
  lemma MarketsAlwaysSolvent(terms: Chain.Terms, rules: Rules, g: Transaction, blocks: seq<Chain.Block>, n: nat, id: Txid)
    requires OverlayRun(terms, rules, g, blocks) && n <= |blocks|
    requires id in ViewsAfter(rules, g, blocks, n).markets.markets
    ensures var v, spare := ViewsAfter(rules, g, blocks, n), Deposit(g, blocks, id);
            var m, yes, no := v.markets.markets[id], Total(v.assets.carried, id), Total(v.assets.carried, No(id));
            && 0 < spare <= m.collateral
            && (m.status == Markets.Open ==> yes <= m.collateral - spare && no <= m.collateral - spare)
            && (m.status == Markets.Resolved ==> m.winner == Some(Yes) || m.winner == Some(NoWins))
            && (m.winner == Some(Yes) ==> m.status == Markets.Resolved && yes <= m.collateral - spare)
            && (m.winner == Some(NoWins) ==> m.status == Markets.Resolved && no <= m.collateral - spare)
            && (m.status == Markets.Refunding ==> m.winner == None && yes + no <= 2 * (m.collateral - spare))
  {
    hide OverlayRun, ViewsAfter, Total, MarketStands, PoolsStand, AssetsRide, DepositOf, Freshness.History;
    RunGood(terms, rules, g, blocks, n);
    var v := ViewsAfter(rules, g, blocks, n);
    assert KeepsDeposit(v, Freshness.History(g, blocks, |blocks|), id);
  }

  /** The views agree with each other and with the coin set, in every state of
      every run: each index is the exact inverse of its book; a pool's coin is
      unspent, worth its sats, and carries exactly its asset in its amount; a
      market's is unspent, worth its collateral, and carries nothing; what is
      carried rides on unspent coins; and no coin is both kinds. */
  lemma ViewsAgreeWithCoins(terms: Chain.Terms, rules: Rules, g: Transaction, blocks: seq<Chain.Block>, n: nat)
    requires OverlayRun(terms, rules, g, blocks) && n <= |blocks|
    ensures var v, coins := ViewsAfter(rules, g, blocks, n), Runs.StateAfter(g, blocks, n).coins;
            && Pools.Indexed(v.pools) && Markets.Indexed(v.markets)
            && (forall id :: id in v.pools.pools ==> PoolStands(v.pools.pools[id], v, coins))
            && (forall id :: id in v.markets.markets ==> MarketStands(v.markets.markets[id], v, coins))
            && v.assets.carried.Keys <= coins.Keys
            && v.pools.byOutpoint.Keys !! v.markets.byOutpoint.Keys
            && v.pools.pools.Keys !! v.markets.markets.Keys
  {
    hide OverlayRun, ViewsAfter, Runs.StateAfter, BornCarry, AllSolvent, DepositOf, Pools.SoundBook;
    RunGood(terms, rules, g, blocks, n);
    var v, coins := ViewsAfter(rules, g, blocks, n), Runs.StateAfter(g, blocks, n).coins;
    forall o | o in v.pools.byOutpoint
      ensures o in v.assets.carried
    {
      assert PoolStands(v.pools.pools[v.pools.byOutpoint[o]], v, coins);
    }
    forall o | o in v.markets.byOutpoint
      ensures o !in v.assets.carried
    {
      assert MarketStands(v.markets.markets[v.markets.byOutpoint[o]], v, coins);
    }
  }

  /** In every reachable pool the squared shares are within the product of its
      sides, and each side is within what the arithmetic was proved exact for. */
  lemma PoolsAlwaysSound(terms: Chain.Terms, rules: Rules, g: Transaction, blocks: seq<Chain.Block>, n: nat, id: Txid)
    requires OverlayRun(terms, rules, g, blocks) && n <= |blocks|
    requires id in ViewsAfter(rules, g, blocks, n).pools.pools
    ensures var p := ViewsAfter(rules, g, blocks, n).pools.pools[id];
            && p.shares * p.shares <= p.sats * p.assets
            && 0 < p.sats <= Chain.MAX_MONEY && 0 < p.assets <= MAX_AMOUNT
  {
    hide OverlayRun, ViewsAfter, PoolStands, MarketsStand, AssetsRide, AllSolvent;
    RunGood(terms, rules, g, blocks, n);
    assert Pools.Sound(ViewsAfter(rules, g, blocks, n).pools.pools[id]);
  }

  lemma {:induction false} RunEvolves(terms: Chain.Terms, rules: Rules, g: Transaction, blocks: seq<Chain.Block>, m: nat, n: nat)
    requires OverlayRun(terms, rules, g, blocks) && m <= n <= |blocks|
    ensures Evolves(ViewsAfter(rules, g, blocks, m), ViewsAfter(rules, g, blocks, n))
  {
    hide OverlayRun, ViewsAfter, Good, Evolves;
    if m == n {
      EvolvesStays(ViewsAfter(rules, g, blocks, m));
    } else {
      RunEvolves(terms, rules, g, blocks, m, n - 1);
      RunGood(terms, rules, g, blocks, n);
      EvolvesChains(ViewsAfter(rules, g, blocks, m), ViewsAfter(rules, g, blocks, n - 1), ViewsAfter(rules, g, blocks, n));
    }
  }

  /** Between any two states of a run a pool loses no value per share, and a pool
      without shares never has any again. */
  lemma PoolValueNeverFalls(terms: Chain.Terms, rules: Rules, g: Transaction, blocks: seq<Chain.Block>, m: nat, n: nat, id: Txid)
    requires OverlayRun(terms, rules, g, blocks) && m <= n <= |blocks|
    requires id in ViewsAfter(rules, g, blocks, m).pools.pools
    ensures id in ViewsAfter(rules, g, blocks, n).pools.pools
    ensures var p, q := ViewsAfter(rules, g, blocks, m).pools.pools[id], ViewsAfter(rules, g, blocks, n).pools.pools[id];
            && p.asset == q.asset
            && p.sats * p.assets * (q.shares * q.shares) <= q.sats * q.assets * (p.shares * p.shares)
            && (p.shares == 0 ==> q.shares == 0)
  {
    hide OverlayRun, ViewsAfter, Markets.Advances;
    RunEvolves(terms, rules, g, blocks, m, n);
  }

  /** A resolved market stays resolved with the same winner, and a refunding one
      keeps refunding, for the rest of every run. */
  lemma MarketsSettleForGood(terms: Chain.Terms, rules: Rules, g: Transaction, blocks: seq<Chain.Block>, m: nat, n: nat, id: Txid)
    requires OverlayRun(terms, rules, g, blocks) && m <= n <= |blocks|
    requires id in ViewsAfter(rules, g, blocks, m).markets.markets
    ensures id in ViewsAfter(rules, g, blocks, n).markets.markets
    ensures var a, b := ViewsAfter(rules, g, blocks, m).markets.markets[id], ViewsAfter(rules, g, blocks, n).markets.markets[id];
            && (a.status == Markets.Resolved ==> b.status == Markets.Resolved && b.winner == a.winner)
            && (a.status == Markets.Refunding ==> b.status == Markets.Refunding && b.winner == None)
  {
    hide OverlayRun, ViewsAfter, Pools.KeepsValue, Total, PoolsStand, AssetsRide, AllSolvent, MarketStands;
    RunEvolves(terms, rules, g, blocks, m, n);
    RunGood(terms, rules, g, blocks, m);
  }
}
