/** A producer orders its mempool through the three rules, one transaction at a
    time (sidestr-core/src/overlays.rs `sequence`); validation judges the block
    it makes. The two read an input's script differently: the producer looks
    the outpoint up, validation looks at what the block's spending resolved,
    where an outpoint already spent in the block resolves to nothing. */
module Sequencing {
  import opened Prelude
  import opened Transactions
  import opened Assets
  import opened Overlays
  import opened CollateralCoins
  import opened OverlayRuns
  import Pools
  import Markets
  import Ledger

  type Utxo = Ledger.Utxo

  // --- what the producer sees ------------------------------------------------------------

  /** Every output of a transaction, by outpoint. */
  function OutputScripts(tx: Transaction, n: nat): map<OutPoint, Script>
    requires n <= |tx.outputs|
  {
    if n == 0 then map[] else OutputScripts(tx, n - 1)[OutPoint(tx.txid, n - 1) := tx.outputs[n - 1].script]
  }

  /** The script the producer finds for an outpoint: an earlier kept output's,
      or the coin set's. */
  function FindScript(created: map<OutPoint, Script>, coins: Utxo, o: OutPoint): Option<Script>
  {
    if o in created then Some(created[o])
    else if o in coins then Some(coins[o].output.script)
    else None
  }

  function FoundScripts(created: map<OutPoint, Script>, coins: Utxo, tx: Transaction): map<nat, Script>
  {
    map k | 0 <= k < |tx.inputs| && FindScript(created, coins, tx.inputs[k].prev).Some?
      :: FindScript(created, coins, tx.inputs[k].prev).value
  }

  datatype Rule = AssetsRule | PoolRule | MarketsRule

  /** The producer's state: the temporary views, the outputs kept transactions
      created, which transactions were kept and dropped, and whether a check panicked,
      after which the pass goes no further. */
  datatype Queue = Queue(v: Views, created: map<OutPoint, Script>, kept: seq<nat>, dropped: seq<(nat, Rule)>, halted: bool)

  /** The first rule that refuses a transaction, if any does. */
  ghost function Refusal(rules: Rules, policy: Policy, v: Views, tx: Transaction, height: u32, scripts: map<nat, Script>): Option<Rule>
  {
    var assets := JudgeAssets(v.assets, tx, height, policy);
    if assets.None? then Some(AssetsRule)
    else if JudgePool(rules, v.pools, tx, assets.value.1, height, false).None? then Some(PoolRule)
    else if JudgeMarket(rules, v.markets, tx, assets.value.1, height, false, scripts).None? then Some(MarketsRule)
    else None
  }

  lemma RefusalIsNoStep(rules: Rules, policy: Policy, v: Views, tx: Transaction, height: u32, scripts: map<nat, Script>)
    ensures Refusal(rules, policy, v, tx, height, scripts).None? <==> Step(rules, policy, v, tx, height, scripts).Some?
  {
    hide JudgeAssets, JudgePool, JudgeMarket;
  }

  /** Whether the pool check panics on a transaction the assets rule passes. */
  ghost predicate PoolHalts(rules: Rules, policy: Policy, v: Views, tx: Transaction, height: u32)
  {
    var assets := JudgeAssets(v.assets, tx, height, policy);
    assets.Some? && WalkPool(rules, v.pools, tx, assets.value.1, height, false).Halts?
  }

  lemma HaltIsNoStep(rules: Rules, policy: Policy, v: Views, tx: Transaction, height: u32, scripts: map<nat, Script>)
    requires PoolHalts(rules, policy, v, tx, height)
    ensures Step(rules, policy, v, tx, height, scripts).None?
  {
    hide JudgeAssets, WalkPool, JudgeMarket;
  }

  /** The temporary views after a kept transaction. A coinbase-shaped one is checked
      like any other, but applying it alone leaves the assets as they were. */
  function KeptViews(v: Views, step: Views, tx: Transaction): Views
  {
    if IsCoinbase(tx) then step.(assets := v.assets) else step
  }

  ghost function Enqueue(rules: Rules, policy: Policy, coins: Utxo, q: Queue, tx: Transaction, i: nat, height: u32): Queue
  {
    var scripts := FoundScripts(q.created, coins, tx);
    var refusal := Refusal(rules, policy, q.v, tx, height, scripts);
    if q.halted then q
    else if PoolHalts(rules, policy, q.v, tx, height) then q.(halted := true)
    else if refusal.Some? then q.(dropped := q.dropped + [(i, refusal.value)])
    else
      RefusalIsNoStep(rules, policy, q.v, tx, height, scripts);
      Queue(KeptViews(q.v, Step(rules, policy, q.v, tx, height, scripts).value, tx),
            q.created + OutputScripts(tx, |tx.outputs|), q.kept + [i], q.dropped, false)
  }

  /** The producer's state after the first `n` transactions of its mempool. */
  ghost function Sequenced(rules: Rules, v: Views, coins: Utxo, txs: seq<Transaction>, n: nat, height: u32): Queue
    requires n <= |txs|
  {
    if n == 0 then Queue(v, map[], [], [], false)
    else Enqueue(rules, PolicyOf(rules, v), coins, Sequenced(rules, v, coins, txs, n - 1, height), txs[n - 1], n - 1, height)
  }

  /** One transaction more: kept, with the views and the outputs that gives, or not,
      with both as they were. */
  lemma KeptOrNot(rules: Rules, v: Views, coins: Utxo, txs: seq<Transaction>, n: nat, height: u32)
    requires n < |txs|
    ensures var q, next, tx := Sequenced(rules, v, coins, txs, n, height), Sequenced(rules, v, coins, txs, n + 1, height), txs[n];
            var found := FoundScripts(q.created, coins, tx);
            if next.kept == q.kept then next.v == q.v && next.created == q.created
            else
              var step := Step(rules, PolicyOf(rules, v), q.v, tx, height, found);
              && Refusal(rules, PolicyOf(rules, v), q.v, tx, height, found).None? && step.Some?
              && next.v == KeptViews(q.v, step.value, tx)
              && next.v.assets == (if |tx.inputs| == 1 && tx.inputs[0].prev == NULL_OUTPOINT then q.v.assets else step.value.assets)
              && next.v.pools == step.value.pools && next.v.markets == step.value.markets
              && next.created == q.created + OutputScripts(tx, |tx.outputs|)
  {
    hide Refusal, Step, PolicyOf, PoolHalts, OutputScripts, FoundScripts;
    var q, tx := Sequenced(rules, v, coins, txs, n, height), txs[n];
    RefusalIsNoStep(rules, PolicyOf(rules, v), q.v, tx, height, FoundScripts(q.created, coins, tx));
  }

  /** A pass that has halted goes no further. */
  lemma {:induction false} HaltedStays(rules: Rules, v: Views, coins: Utxo, txs: seq<Transaction>, m: nat, n: nat, height: u32)
    requires m <= n <= |txs| && Sequenced(rules, v, coins, txs, m, height).halted
    ensures Sequenced(rules, v, coins, txs, n, height) == Sequenced(rules, v, coins, txs, m, height)
  {
    hide Refusal, Step, PolicyOf, PoolHalts;
    if m < n {
      HaltedStays(rules, v, coins, txs, m, n - 1, height);
    }
  }

  lemma {:induction false} KeptBelow(rules: Rules, v: Views, coins: Utxo, txs: seq<Transaction>, n: nat, height: u32)
    requires n <= |txs|
    ensures forall j :: 0 <= j < |Sequenced(rules, v, coins, txs, n, height).kept| ==> Sequenced(rules, v, coins, txs, n, height).kept[j] < n
  {
    hide Refusal, Step, PolicyOf, PoolHalts;
    if n > 0 {
      KeptBelow(rules, v, coins, txs, n - 1, height);
    }
  }

  /** The kept transactions, in order. */
  ghost function Chosen(rules: Rules, v: Views, coins: Utxo, txs: seq<Transaction>, n: nat, height: u32): seq<Transaction>
    requires n <= |txs|
  {
    KeptBelow(rules, v, coins, txs, n, height);
    var kept := Sequenced(rules, v, coins, txs, n, height).kept;
    seq(|kept|, i requires 0 <= i < |kept| => txs[kept[i]])
  }

  /** With every amount in the mempool in range, and the applied pools sound, the
      pass never halts. */
  lemma {:induction false} InRangeSequences(rules: Rules, v: Views, coins: Utxo, txs: seq<Transaction>, n: nat, height: u32)
    requires n <= |txs| && Pools.SoundBook(v.pools) && forall i :: 0 <= i < |txs| ==> Pools.MoneyInRange(txs[i])
    ensures !Sequenced(rules, v, coins, txs, n, height).halted
    ensures Pools.SoundBook(Sequenced(rules, v, coins, txs, n, height).v.pools)
  {
    hide PolicyOf, Step, Refusal, FoundScripts, OutputScripts, Pools.SoundBook, Pools.MoneyInRange, PoolHalts;
    if n > 0 {
      InRangeSequences(rules, v, coins, txs, n - 1, height);
      var q, tx := Sequenced(rules, v, coins, txs, n - 1, height), txs[n - 1];
      InRangeStep(rules, PolicyOf(rules, v), q.v, tx, height, FoundScripts(q.created, coins, tx));
      KeptOrNot(rules, v, coins, txs, n - 1, height);
    }
  }

  lemma InRangeStep(rules: Rules, policy: Policy, v: Views, tx: Transaction, height: u32, scripts: map<nat, Script>)
    requires Pools.SoundBook(v.pools) && Pools.MoneyInRange(tx)
    ensures !PoolHalts(rules, policy, v, tx, height)
    ensures Step(rules, policy, v, tx, height, scripts).Some? ==> Pools.SoundBook(Step(rules, policy, v, tx, height, scripts).value.pools)
  {
    hide Check, ApplyTx, Pools.CheckPool, JudgeMarket, Pools.SoundBook, Pools.MoneyInRange, Pools.Halting, RecordableCarry;
    var r := Check(v.assets.carried, tx, policy);
    if r.Ok? {
      CheckedRecordable(v.assets.carried, tx, policy);
      Pools.InRangeNeverHalts(v.pools, tx, Trace(InputCarries(v.assets.carried, tx), r.value), height, false);
    }
  }

  // --- what validation sees ----------------------------------------------------------------

  /** The outpoints spent by the block's inputs before input `k` of transaction `i`. */
  function SpentInTx(tx: Transaction, k: nat): set<OutPoint>
    requires k <= |tx.inputs|
  {
    set j | 0 <= j < k :: tx.inputs[j].prev
  }

  function SpentBefore(block: seq<Transaction>, i: nat): set<OutPoint>
    requires i <= |block|
  {
    if i <= 1 then {} else SpentBefore(block, i - 1) + SpentInTx(block[i - 1], |block[i - 1].inputs|)
  }

  lemma {:induction false} WalkInputs(w: Ledger.Walk, u: Utxo, tx: Transaction, ti: nat, n: nat, height: u32)
    requires n <= |tx.inputs|
    ensures Ledger.ResolveInputs(w, u, tx, ti, n, height).w.spentHere == w.spentHere + SpentInTx(tx, n)
    ensures Ledger.ResolveInputs(w, u, tx, ti, n, height).w.createdHere == w.createdHere
  {
    hide Ledger.SequenceLock, Ledger.Premature, Ledger.Lookup;
    if n > 0 {
      WalkInputs(w, u, tx, ti, n - 1, height);
    }
  }

  lemma {:induction false} WalkSpent(u: Utxo, block: seq<Transaction>, i: nat, height: u32)
    requires i <= |block|
    ensures Ledger.ResolveTxs(u, block, i, height).spentHere == SpentBefore(block, i)
  {
    hide Ledger.ResolveInputs, Ledger.Settle, Ledger.CoinsOf;
    if i > 0 {
      WalkSpent(u, block, i - 1, height);
      if i > 1 {
        WalkInputs(Ledger.ResolveTxs(u, block, i - 1, height), u, block[i - 1], i - 1, |block[i - 1].inputs|, height);
      }
    }
  }

  /** Whether a transaction creates outpoint `o` as a coin. */
  predicate Makes(tx: Transaction, o: OutPoint)
  {
    o.txid == tx.txid && o.vout < |tx.outputs| && !IsOpReturn(tx.outputs[o.vout].script)
  }

  /** These coins are exactly those the block's first `n` transactions make. */
  ghost predicate MadeBy(created: Utxo, block: seq<Transaction>, n: nat)
    requires n <= |block|
  {
    && (forall o :: o in created ==> exists j: nat :: j < n && Makes(block[j], o))
    && (forall o, j: nat :: j < n && Makes(block[j], o) ==> o in created && created[o].output == block[j].outputs[o.vout])
  }

  /** With distinct ids, the block's own coins are exactly what it made. */
  lemma {:induction false} WalkCreated(u: Utxo, block: seq<Transaction>, i: nat, height: u32)
    requires i <= |block|
    requires forall a, b :: 0 <= a < b < i ==> block[a].txid != block[b].txid
    ensures MadeBy(Ledger.ResolveTxs(u, block, i, height).createdHere, block, i)
  {
    hide Ledger.ResolveTx, MadeBy;
    if i == 0 {
      MadeByNone(block);
    } else {
      WalkCreated(u, block, i - 1, height);
      TxCreates(Ledger.ResolveTxs(u, block, i - 1, height), u, block[i - 1], i - 1, height);
      MadeByMore(Ledger.ResolveTxs(u, block, i - 1, height).createdHere, block, i, height);
    }
  }

  lemma MadeByNone(block: seq<Transaction>)
    ensures MadeBy(map[], block, 0)
  {
  }

  lemma MadeByMore(created: Utxo, block: seq<Transaction>, i: nat, height: u32)
    requires 0 < i <= |block| && MadeBy(created, block, i - 1)
    requires forall a, b :: 0 <= a < b < i ==> block[a].txid != block[b].txid
    ensures MadeBy(created + Ledger.CoinsOf(block[i - 1], height, i == 1), block, i)
  {
    hide IsOpReturn, Ledger.CoinsOf;
    MadeCoins(block[i - 1], height, i == 1);
    var next := created + Ledger.CoinsOf(block[i - 1], height, i == 1);
    forall o | o in next
      ensures exists j: nat :: j < i && Makes(block[j], o)
    {
      if o in Ledger.CoinsOf(block[i - 1], height, i == 1) {
        assert Makes(block[i - 1], o);
      } else {
        var j: nat :| j < i - 1 && Makes(block[j], o);
      }
    }
    forall o, j: nat | j < i && Makes(block[j], o)
      ensures o in next && next[o].output == block[j].outputs[o.vout]
    {
      if j < i - 1 {
        assert block[j].txid != block[i - 1].txid;
      }
    }
  }

  lemma TxCreates(w: Ledger.Walk, u: Utxo, tx: Transaction, ti: nat, height: u32)
    ensures Ledger.ResolveTx(w, u, tx, ti, height).createdHere == w.createdHere + Ledger.CoinsOf(tx, height, ti == 0)
  {
    hide Ledger.ResolveInputs, Ledger.Settle, Ledger.CoinsOf;
    if ti > 0 {
      WalkInputs(w, u, tx, ti, |tx.inputs|, height);
    }
  }

  lemma MadeCoins(tx: Transaction, height: u32, coinbase: bool)
    ensures forall o :: o in Ledger.CoinsOf(tx, height, coinbase) <==> Makes(tx, o)
    ensures forall o :: Makes(tx, o) ==> Ledger.CoinsOf(tx, height, coinbase)[o].output == tx.outputs[o.vout]
  {
    Ledger.CoinsAre(tx, |tx.outputs|, height, coinbase);
    forall o | Makes(tx, o)
      ensures o in Ledger.CoinsOf(tx, height, coinbase)
    {
      assert o == OutPoint(tx.txid, o.vout);
    }
  }

  // --- the scripts the block's resolution yields ----------------------------------------------

  lemma ScriptsAppend(resolved: seq<(nat, nat, TxOut)>, e: (nat, nat, TxOut), ti: nat)
    ensures ScriptsOf(resolved + [e], ti) == if e.0 == ti then ScriptsOf(resolved, ti)[e.1 := e.2.script] else ScriptsOf(resolved, ti)
  {
    var r := resolved + [e];
    assert r[..|r| - 1] == resolved;
  }

  /** The scripts are those of the first `n` inputs whose outpoints are not yet
      spent in the block and resolve to a coin. */
  ghost predicate Shows(scripts: map<nat, Script>, w: Ledger.Walk, u: Utxo, tx: Transaction, spent: set<OutPoint>, n: nat)
    requires n <= |tx.inputs|
  {
    && (forall k :: k in scripts <==>
          0 <= k < n && tx.inputs[k].prev !in spent + SpentInTx(tx, k) && Ledger.Lookup(w, u, tx.inputs[k].prev).Some?)
    && (forall k :: k in scripts ==> scripts[k] == Ledger.Lookup(w, u, tx.inputs[k].prev).value.output.script)
  }

  lemma ShowsOneMore(scripts: map<nat, Script>, w: Ledger.Walk, u: Utxo, tx: Transaction, spent: set<OutPoint>, n: nat)
    requires 0 < n <= |tx.inputs| && Shows(scripts, w, u, tx, spent, n - 1)
    ensures var coin := Ledger.Lookup(w, u, tx.inputs[n - 1].prev);
            Shows(if tx.inputs[n - 1].prev !in spent + SpentInTx(tx, n - 1) && coin.Some?
                  then scripts[n - 1 := coin.value.output.script] else scripts, w, u, tx, spent, n)
  {
    hide Ledger.Lookup, SpentInTx;
  }

  lemma {:induction false} InputScriptsAre(w: Ledger.Walk, u: Utxo, tx: Transaction, ti: nat, n: nat, height: u32)
    requires n <= |tx.inputs|
    requires ScriptsOf(w.s.resolved, ti) == map[]
    ensures Shows(ScriptsOf(Ledger.ResolveInputs(w, u, tx, ti, n, height).w.s.resolved, ti), w, u, tx, w.spentHere, n)
  {
    hide Ledger.ResolveInput, ScriptsOf, Shows, SpentInTx;
    if n == 0 {
      ShowsNone(w, u, tx, w.spentHere);
    } else {
      InputScriptsAre(w, u, tx, ti, n - 1, height);
      WalkInputs(w, u, tx, ti, n - 1, height);
      var iw := Ledger.ResolveInputs(w, u, tx, ti, n - 1, height);
      OneMoreResolved(iw, u, tx, ti, n - 1, height);
      ShowsOneMore(ScriptsOf(iw.w.s.resolved, ti), w, u, tx, w.spentHere, n);
      var coin := Ledger.Lookup(w, u, tx.inputs[n - 1].prev);
      if coin.Some? {
        ScriptsAppend(iw.w.s.resolved, (ti, n - 1, coin.value.output), ti);
      }
    }
  }

  lemma ShowsNone(w: Ledger.Walk, u: Utxo, tx: Transaction, spent: set<OutPoint>)
    ensures Shows(map[], w, u, tx, spent, 0)
  {
  }

  lemma OneMoreResolved(iw: Ledger.InputWalk, u: Utxo, tx: Transaction, ti: nat, k: nat, height: u32)
    requires k < |tx.inputs|
    ensures var key, next := tx.inputs[k].prev, Ledger.ResolveInput(iw, u, tx, ti, k, height).w.s.resolved;
            next == if key !in iw.w.spentHere && Ledger.Lookup(iw.w, u, key).Some?
                    then iw.w.s.resolved + [(ti, k, Ledger.Lookup(iw.w, u, key).value.output)] else iw.w.s.resolved
  {
    hide Ledger.SequenceLock, Ledger.Premature, Ledger.Lookup;
  }

  /** Resolving another transaction's inputs adds no script of this one's. */
  lemma {:induction false} OtherInputs(w: Ledger.Walk, u: Utxo, tx: Transaction, ti: nat, other: nat, n: nat, height: u32)
    requires n <= |tx.inputs| && other != ti
    ensures ScriptsOf(Ledger.ResolveInputs(w, u, tx, ti, n, height).w.s.resolved, other) == ScriptsOf(w.s.resolved, other)
  {
    hide Ledger.ResolveInput, ScriptsOf;
    if n > 0 {
      OtherInputs(w, u, tx, ti, other, n - 1, height);
      var iw := Ledger.ResolveInputs(w, u, tx, ti, n - 1, height);
      OneMoreResolved(iw, u, tx, ti, n - 1, height);
      var coin := Ledger.Lookup(iw.w, u, tx.inputs[n - 1].prev);
      if coin.Some? {
        ScriptsAppend(iw.w.s.resolved, (ti, n - 1, coin.value.output), other);
      }
    }
  }

  lemma TxResolved(w: Ledger.Walk, u: Utxo, tx: Transaction, ti: nat, height: u32)
    ensures Ledger.ResolveTx(w, u, tx, ti, height).s.resolved
            == if ti == 0 then w.s.resolved else Ledger.ResolveInputs(w, u, tx, ti, |tx.inputs|, height).w.s.resolved
  {
    hide Ledger.ResolveInputs, Ledger.CoinsOf;
  }

  lemma {:induction false} NoScriptsYet(u: Utxo, block: seq<Transaction>, n: nat, i: nat, height: u32)
    requires n <= i && n <= |block|
    ensures ScriptsOf(Ledger.ResolveTxs(u, block, n, height).s.resolved, i) == map[]
  {
    hide Ledger.ResolveTx;
    if n > 0 {
      NoScriptsYet(u, block, n - 1, i, height);
      TxResolved(Ledger.ResolveTxs(u, block, n - 1, height), u, block[n - 1], n - 1, height);
      if n > 1 {
        OtherInputs(Ledger.ResolveTxs(u, block, n - 1, height), u, block[n - 1], n - 1, i, |block[n - 1].inputs|, height);
      }
    }
  }

  lemma {:induction false} ScriptsSettled(u: Utxo, block: seq<Transaction>, n: nat, i: nat, height: u32)
    requires i < n <= |block|
    ensures ScriptsOf(Ledger.ResolveTxs(u, block, n, height).s.resolved, i)
            == ScriptsOf(Ledger.ResolveTxs(u, block, i + 1, height).s.resolved, i)
  {
    hide Ledger.ResolveTx, ScriptsOf;
    if i + 1 < n {
      ScriptsSettled(u, block, n - 1, i, height);
      TxResolved(Ledger.ResolveTxs(u, block, n - 1, height), u, block[n - 1], n - 1, height);
      OtherInputs(Ledger.ResolveTxs(u, block, n - 1, height), u, block[n - 1], n - 1, i, |block[n - 1].inputs|, height);
    }
  }

  lemma {:induction false} SamePrefixSameWalk(u: Utxo, a: seq<Transaction>, b: seq<Transaction>, n: nat, height: u32)
    requires n <= |a| && n <= |b| && a[..n] == b[..n]
    ensures Ledger.ResolveTxs(u, a, n, height) == Ledger.ResolveTxs(u, b, n, height)
  {
    hide Ledger.ResolveTx;
    if n > 0 {
      assert a[..n][..n - 1] == b[..n][..n - 1];
      assert a[..n - 1] == b[..n - 1];
      assert a[n - 1] == a[..n][n - 1] == b[n - 1];
      SamePrefixSameWalk(u, a, b, n - 1, height);
    }
  }

  /** A block's scripts at a position depend on the transactions up to it only. */
  lemma SamePrefixSameScripts(u: Utxo, a: seq<Transaction>, b: seq<Transaction>, i: nat, height: u32)
    requires i < |a| && i < |b| && a[..i + 1] == b[..i + 1]
    ensures BlockScripts(u, a, height)[i] == BlockScripts(u, b, height)[i]
  {
    hide Ledger.ResolveTxs, ScriptsOf;
    ScriptsSettled(u, a, |a|, i, height);
    ScriptsSettled(u, b, |b|, i, height);
    SamePrefixSameWalk(u, a, b, i + 1, height);
  }

  /** What validation finds for the inputs of transaction `i > 0`. */
  lemma BlockScriptsAre(u: Utxo, block: seq<Transaction>, i: nat, height: u32)
    requires 0 < i < |block|
    ensures Shows(BlockScripts(u, block, height)[i], Ledger.ResolveTxs(u, block, i, height), u, block[i],
                  SpentBefore(block, i), |block[i].inputs|)
  {
    hide Ledger.ResolveTx, ScriptsOf, Shows, Ledger.ResolveInputs, SpentBefore, SpentInTx;
    var w := Ledger.ResolveTxs(u, block, i, height);
    ScriptsSettled(u, block, |block|, i, height);
    NoScriptsYet(u, block, i, i, height);
    TxResolved(w, u, block[i], i, height);
    InputScriptsAre(w, u, block[i], i, |block[i].inputs|, height);
    WalkSpent(u, block, i, height);
  }

  // --- comparing the two ---------------------------------------------------------------------

  ghost predicate HasScript(scripts: map<nat, Script>, s: Script)
  {
    exists k :: k in scripts && scripts[k] == s
  }

  function ResolverScript(m: Markets.Market): Script { [0x51, 0x20] + m.resolver }

  /** The market a transaction's one record resolves, if it resolves a known one. */
  function Resolving(book: Markets.MarketBook, tx: Transaction): Option<Markets.Market>
  {
    if |tx.records.markets| == 1 && tx.records.markets[0].Resolve? && tx.records.markets[0].market in book.markets
    then Some(book.markets[tx.records.markets[0].market]) else None
  }

  /** Scripts matter to the market rule only when a market is being resolved. */
  lemma ScriptsMatter(book: Markets.MarketBook, tx: Transaction, trace: Trace, height: u32,
                      a: map<nat, Script>, b: map<nat, Script>)
    requires Resolving(book, tx).Some? && HasScript(b, ResolverScript(Resolving(book, tx).value))
             ==> HasScript(a, ResolverScript(Resolving(book, tx).value))
    ensures Markets.CheckMarket(book, tx, trace, height, false, a).Err? ==> Markets.CheckMarket(book, tx, trace, height, false, b).Err?
    ensures Markets.CheckMarket(book, tx, trace, height, false, a).Ok? ==>
              if Resolving(book, tx).None? || HasScript(b, ResolverScript(Resolving(book, tx).value))
              then Markets.CheckMarket(book, tx, trace, height, false, b) == Markets.CheckMarket(book, tx, trace, height, false, a)
              else Markets.CheckMarket(book, tx, trace, height, false, b).Err?
  {
    hide Markets.CheckSettle, Markets.CheckOpen, Spent, Markets.TrueOutputsUpTo, Markets.Deadline;
  }

  /** Whether, in the block, some input not already spent there carries the
      resolver's script, when the transaction resolves a market. */
  ghost predicate ResolverUnspent(rules: Rules, book: Markets.MarketBook, tx: Transaction, height: u32, scripts: map<nat, Script>)
  {
    MarketsActive(rules, height) && Resolving(book, tx).Some? ==> HasScript(scripts, ResolverScript(Resolving(book, tx).value))
  }

  lemma StepsCompared(rules: Rules, policy: Policy, v: Views, tx: Transaction, height: u32, a: map<nat, Script>, b: map<nat, Script>)
    requires forall m: Markets.Market :: HasScript(b, ResolverScript(m)) ==> HasScript(a, ResolverScript(m))
    ensures Step(rules, policy, v, tx, height, a).None? ==> Step(rules, policy, v, tx, height, b).None?
    ensures Step(rules, policy, v, tx, height, a).Some? ==>
              Step(rules, policy, v, tx, height, b)
              == if ResolverUnspent(rules, v.markets, tx, height, b) then Step(rules, policy, v, tx, height, a) else None
  {
    hide JudgeAssets, JudgePool, Markets.CheckMarket, HasScript, ResolverScript;
    var assets := JudgeAssets(v.assets, tx, height, policy);
    if assets.Some? && MarketsActive(rules, height) {
      ScriptsMatter(v.markets, tx, assets.value.1, height, a, b);
    }
  }

  /** A mempool a producer can build on, beside the coinbase it will add: ids new to
      the coins and different from each other, and no input that spends the coinbase
      about to be made. */
  ghost predicate Mempool(coins: Utxo, coinbase: Transaction, txs: seq<Transaction>)
  {
    && IsCoinbase(coinbase)
    && (forall i, j :: 0 <= i < j < |txs| ==> txs[i].txid != txs[j].txid)
    && (forall i :: 0 <= i < |txs| ==> txs[i].txid != coinbase.txid && NoCoinOf(coins, txs[i].txid))
    && (forall i, k :: 0 <= i < |txs| && 0 <= k < |txs[i].inputs| ==> txs[i].inputs[k].prev.txid != coinbase.txid)
  }

  predicate NoCoinOf(coins: Utxo, id: Txid) { forall o :: o in coins ==> o.txid != id }

  /** The block a producer makes: its coinbase, then what it kept. */
  ghost function BlockOf(rules: Rules, v: Views, coins: Utxo, coinbase: Transaction, txs: seq<Transaction>, n: nat, height: u32)
    : seq<Transaction>
    requires n <= |txs|
  {
    [coinbase] + Chosen(rules, v, coins, txs, n, height)
  }

  /** One transaction more: the block grows by it exactly when it is kept. */
  lemma BlockGrows(rules: Rules, v: Views, coins: Utxo, coinbase: Transaction, txs: seq<Transaction>, n: nat, height: u32)
    requires n < |txs|
    ensures var q, next := Sequenced(rules, v, coins, txs, n, height), Sequenced(rules, v, coins, txs, n + 1, height);
            BlockOf(rules, v, coins, coinbase, txs, n + 1, height)
            == if next.kept == q.kept then BlockOf(rules, v, coins, coinbase, txs, n, height)
               else BlockOf(rules, v, coins, coinbase, txs, n, height) + [txs[n]]
  {
    hide Refusal, Step, PolicyOf, PoolHalts;
  }

  predicate AmongFirst(txs: seq<Transaction>, n: nat, tx: Transaction)
    requires n <= |txs|
  {
    exists j :: 0 <= j < n && tx == txs[j]
  }

  lemma AmongMore(txs: seq<Transaction>, n: nat, tx: Transaction)
    requires n < |txs|
    ensures AmongFirst(txs, n, tx) || tx == txs[n] ==> AmongFirst(txs, n + 1, tx)
  {
  }

  /** What stands before a mempool transaction in the block has another id. */
  lemma EarlierDiffers(coins: Utxo, coinbase: Transaction, txs: seq<Transaction>, n: nat, tx: Transaction)
    requires n < |txs| && Mempool(coins, coinbase, txs) && (tx == coinbase || AmongFirst(txs, n, tx))
    ensures tx.txid != txs[n].txid
  {
    if AmongFirst(txs, n, tx) {
      var j :| 0 <= j < n && tx == txs[j];
    }
  }

  lemma DistinctMore(b: seq<Transaction>, tx: Transaction)
    requires DistinctIds(b) && forall i :: 0 <= i < |b| ==> b[i].txid != tx.txid
    ensures DistinctIds(b + [tx])
  {
  }

  /** Every transaction of the block under construction, after the coinbase, is
      one of the mempool's first `n`; ids stay distinct. */
  lemma {:induction false} BlockFrom(rules: Rules, v: Views, coins: Utxo, coinbase: Transaction, txs: seq<Transaction>, n: nat, height: u32)
    requires n <= |txs| && Mempool(coins, coinbase, txs)
    ensures var b := BlockOf(rules, v, coins, coinbase, txs, n, height);
            && |b| > 0 && b[0] == coinbase
            && (forall i :: 0 < i < |b| ==> AmongFirst(txs, n, b[i]))
            && DistinctIds(b)
  {
    if n == 0 {
      hide Sequenced, BlockOf, Mempool;
      EmptyBlock(rules, v, coins, coinbase, txs, height);
    } else {
      hide Sequenced, BlockOf, Mempool, AmongFirst, DistinctIds;
      BlockFrom(rules, v, coins, coinbase, txs, n - 1, height);
      BlockGrows(rules, v, coins, coinbase, txs, n - 1, height);
      var before, b := BlockOf(rules, v, coins, coinbase, txs, n - 1, height), BlockOf(rules, v, coins, coinbase, txs, n, height);
      forall i | 0 < i < |b|
        ensures AmongFirst(txs, n, b[i])
      {
        AmongMore(txs, n - 1, b[i]);
      }
      if b != before {
        forall i | 0 <= i < |before|
          ensures before[i].txid != txs[n - 1].txid
        {
          EarlierDiffers(coins, coinbase, txs, n - 1, before[i]);
        }
        DistinctMore(before, txs[n - 1]);
      }
    }
  }

  lemma EmptyBlock(rules: Rules, v: Views, coins: Utxo, coinbase: Transaction, txs: seq<Transaction>, height: u32)
    ensures BlockOf(rules, v, coins, coinbase, txs, 0, height) == [coinbase]
  {
  }

  /** Transaction `j` has output `o`, spendable or not. */
  predicate HasOutput(tx: Transaction, o: OutPoint) { o.txid == tx.txid && o.vout < |tx.outputs| }

  lemma {:induction false} OutputScriptsAre(tx: Transaction, n: nat)
    requires n <= |tx.outputs|
    ensures forall o :: o in OutputScripts(tx, n) <==> o.txid == tx.txid && o.vout < n
    ensures forall o :: o in OutputScripts(tx, n) ==> OutputScripts(tx, n)[o] == tx.outputs[o.vout].script
  {
    if n > 0 {
      OutputScriptsAre(tx, n - 1);
    }
  }

  /** Some transaction of the block after the coinbase has output `o`. */
  predicate OutputIn(b: seq<Transaction>, o: OutPoint)
  {
    exists i :: 0 < i < |b| && HasOutput(b[i], o)
  }

  /** What is remembered is every output of the block after the coinbase, with its script. */
  ghost predicate Remembers(created: map<OutPoint, Script>, b: seq<Transaction>)
  {
    && (forall o :: o in created ==> OutputIn(b, o))
    && (forall i, o :: 0 < i < |b| && HasOutput(b[i], o) ==> o in created && created[o] == ScriptAt(b[i], o))
  }

  function ScriptAt(tx: Transaction, o: OutPoint): Script
  {
    if o.vout < |tx.outputs| then tx.outputs[o.vout].script else []
  }

  ghost predicate DistinctIds(b: seq<Transaction>)
  {
    forall i, j :: 0 <= i < j < |b| ==> b[i].txid != b[j].txid
  }

  lemma OutputsHeld(tx: Transaction)
    ensures forall o :: o in OutputScripts(tx, |tx.outputs|) <==> HasOutput(tx, o)
    ensures forall o :: HasOutput(tx, o) ==> OutputScripts(tx, |tx.outputs|)[o] == ScriptAt(tx, o)
  {
    OutputScriptsAre(tx, |tx.outputs|);
  }

  lemma OneOwner(a: Transaction, b: Transaction, o: OutPoint)
    requires HasOutput(a, o) && HasOutput(b, o)
    ensures a.txid == b.txid
  {
  }

  lemma RemembersGrow(created: map<OutPoint, Script>, b: seq<Transaction>, tx: Transaction)
    requires |b| > 0 && DistinctIds(b + [tx]) && Remembers(created, b)
    ensures Remembers(created + OutputScripts(tx, |tx.outputs|), b + [tx])
  {
    hide HasOutput, ScriptAt, OutputScripts, OutputIn, DistinctIds;
    OutputsHeld(tx);
    var c, next := b + [tx], created + OutputScripts(tx, |tx.outputs|);
    assert c[|b|] == tx;
    forall o | o in next
      ensures OutputIn(c, o)
    {
      OutputInMore(b, tx, o);
    }
    forall i, o | 0 < i < |c| && HasOutput(c[i], o)
      ensures o in next && next[o] == ScriptAt(c[i], o)
    {
      RemembersOne(created, b, tx, i, o);
    }
  }

  lemma RemembersOne(created: map<OutPoint, Script>, b: seq<Transaction>, tx: Transaction, i: nat, o: OutPoint)
    requires |b| > 0 && DistinctIds(b + [tx]) && Remembers(created, b)
    requires 0 < i <= |b| && HasOutput((b + [tx])[i], o)
    ensures var next := created + OutputScripts(tx, |tx.outputs|);
            o in next && next[o] == ScriptAt((b + [tx])[i], o)
  {
    hide HasOutput, ScriptAt, OutputScripts, Remembers, DistinctIds;
    OutputsHeld(tx);
    var c := b + [tx];
    assert c[|b|] == tx;
    if i < |b| {
      assert c[i] == b[i];
      DistinctAt(c, i, |b|);
      RemembersOld(created, b, tx, i, o);
    }
  }

  lemma DistinctAt(b: seq<Transaction>, i: nat, j: nat)
    requires DistinctIds(b) && i < j < |b|
    ensures b[i].txid != b[j].txid
  {
  }

  lemma RemembersOld(created: map<OutPoint, Script>, b: seq<Transaction>, tx: Transaction, i: nat, o: OutPoint)
    requires Remembers(created, b) && 0 < i < |b| && HasOutput(b[i], o) && b[i].txid != tx.txid
    ensures var next := created + OutputScripts(tx, |tx.outputs|);
            o in next && next[o] == ScriptAt(b[i], o)
  {
    hide HasOutput, ScriptAt, OutputScripts, OutputIn;
    OutputsHeld(tx);
    if HasOutput(tx, o) {
      OneOwner(b[i], tx, o);
    }
  }

  lemma OutputInMore(b: seq<Transaction>, tx: Transaction, o: OutPoint)
    requires |b| > 0
    ensures HasOutput(tx, o) || OutputIn(b, o) ==> OutputIn(b + [tx], o)
  {
    hide HasOutput;
    var c := b + [tx];
    assert c[|b|] == tx;
    if OutputIn(b, o) {
      var i :| 0 < i < |b| && HasOutput(b[i], o);
      assert HasOutput(c[i], o);
    }
  }

  /** What the producer remembers creating is what its block's transactions output. */
  lemma {:induction false} CreatedAre(rules: Rules, v: Views, coins: Utxo, coinbase: Transaction, txs: seq<Transaction>, n: nat, height: u32)
    requires n <= |txs| && Mempool(coins, coinbase, txs)
    ensures Remembers(Sequenced(rules, v, coins, txs, n, height).created, BlockOf(rules, v, coins, coinbase, txs, n, height))
  {
    hide Sequenced, Mempool, Refusal, Step, PolicyOf, Remembers, BlockOf, AmongFirst, DistinctIds, FoundScripts, OutputScripts, KeptViews;
    if n == 0 {
      EmptyBlock(rules, v, coins, coinbase, txs, height);
      NothingCreated(rules, v, coins, txs, height);
      RemembersNothing(coinbase);
    } else {
      CreatedAre(rules, v, coins, coinbase, txs, n - 1, height);
      BlockGrows(rules, v, coins, coinbase, txs, n - 1, height);
      BlockFrom(rules, v, coins, coinbase, txs, n, height);
      BlockFrom(rules, v, coins, coinbase, txs, n - 1, height);
      KeptOrNot(rules, v, coins, txs, n - 1, height);
      var q, next := Sequenced(rules, v, coins, txs, n - 1, height), Sequenced(rules, v, coins, txs, n, height);
      if next.kept != q.kept {
        RemembersGrow(q.created, BlockOf(rules, v, coins, coinbase, txs, n - 1, height), txs[n - 1]);
      }
    }
  }

  lemma NothingCreated(rules: Rules, v: Views, coins: Utxo, txs: seq<Transaction>, height: u32)
    ensures Sequenced(rules, v, coins, txs, 0, height).created == map[]
  {
  }

  lemma RemembersNothing(coinbase: Transaction)
    ensures Remembers(map[], [coinbase])
  {
  }

  /** The producer's test that matters: some input of the transaction, not spent
      earlier in the block, is locked by this script. */
  ghost predicate UnspentInputWith(tx: Transaction, spent: set<OutPoint>, created: map<OutPoint, Script>, coins: Utxo, s: Script)
  {
    exists k :: 0 <= k < |tx.inputs| && tx.inputs[k].prev !in spent + SpentInTx(tx, k)
                && FindScript(created, coins, tx.inputs[k].prev) == Some(s)
  }

  /** An output of the block is a coin of the walk exactly when it is spendable. */
  lemma BlockOutputFound(b: seq<Transaction>, created: Utxo, i: nat, o: OutPoint)
    requires DistinctIds(b) && MadeBy(created, b, |b|) && i < |b| && HasOutput(b[i], o)
    ensures o in created <==> !IsOpReturn(b[i].outputs[o.vout].script)
    ensures o in created ==> created[o].output == b[i].outputs[o.vout]
  {
    hide IsOpReturn;
    if o in created {
      var k: nat :| k < |b| && Makes(b[k], o);
      assert b[k].txid == b[i].txid;
      assert k == i;
    }
    if !IsOpReturn(b[i].outputs[o.vout].script) {
      assert Makes(b[i], o);
    }
  }

  lemma RememberedAt(created: map<OutPoint, Script>, b: seq<Transaction>, o: OutPoint) returns (i: nat)
    requires Remembers(created, b) && o in created
    ensures 0 < i < |b| && HasOutput(b[i], o) && created[o] == b[i].outputs[o.vout].script
  {
    hide HasOutput, ScriptAt;
    assert OutputIn(b, o);
    i :| 0 < i < |b| && HasOutput(b[i], o);
    OutputHas(b[i], o);
  }

  lemma OutputHas(tx: Transaction, o: OutPoint)
    requires HasOutput(tx, o)
    ensures o.txid == tx.txid && o.vout < |tx.outputs| && ScriptAt(tx, o) == tx.outputs[o.vout].script
  {
  }

  lemma NotRemembered(created: map<OutPoint, Script>, b: seq<Transaction>, made: Utxo, o: OutPoint)
    requires |b| > 0 && Remembers(created, b) && MadeBy(made, b, |b|) && o !in created && o.txid != b[0].txid
    ensures o !in made
  {
    hide IsOpReturn, ScriptAt;
    forall k: nat | k < |b|
      ensures !Makes(b[k], o)
    {
      MakesHas(b[k], o);
    }
  }

  lemma MakesHas(tx: Transaction, o: OutPoint)
    ensures Makes(tx, o) ==> HasOutput(tx, o)
  {
    hide IsOpReturn;
  }

  /** For scripts that are not `OP_RETURN`s, remembering every output and keeping
      only the spendable ones find the same script at an outpoint. */
  lemma SameFound(coins: Utxo, b: seq<Transaction>, created: map<OutPoint, Script>, w: Ledger.Walk, o: OutPoint, s: Script)
    requires |b| > 0 && DistinctIds(b) && Remembers(created, b) && MadeBy(w.createdHere, b, |b|)
    requires forall i :: 0 < i < |b| ==> NoCoinOf(coins, b[i].txid)
    requires o.txid != b[0].txid && !IsOpReturn(s)
    ensures var coin := Ledger.Lookup(w, coins, o);
            FindScript(created, coins, o) == Some(s) <==> coin.Some? && coin.value.output.script == s
  {
    hide IsOpReturn, DistinctIds, Remembers, MadeBy;
    if o in created {
      var i := RememberedAt(created, b, o);
      assert NoCoinOf(coins, b[i].txid);
      BlockOutputFound(b, w.createdHere, i, o);
    } else {
      NotRemembered(created, b, w.createdHere, o);
    }
  }

  lemma SameScriptFound(rules: Rules, v: Views, coins: Utxo, coinbase: Transaction, txs: seq<Transaction>, n: nat, height: u32,
                        o: OutPoint, s: Script)
    requires n <= |txs| && Mempool(coins, coinbase, txs)
    requires o.txid != coinbase.txid && !IsOpReturn(s)
    ensures var b, created := BlockOf(rules, v, coins, coinbase, txs, n, height), Sequenced(rules, v, coins, txs, n, height).created;
            var coin := Ledger.Lookup(Ledger.ResolveTxs(coins, b, |b|, height), coins, o);
            FindScript(created, coins, o) == Some(s) <==> coin.Some? && coin.value.output.script == s
  {
    hide Sequenced, Chosen, Ledger.ResolveTxs, IsOpReturn, BlockOf, FindScript, Ledger.Lookup, Remembers, NoCoinOf, Makes, MadeBy;
    var b := BlockOf(rules, v, coins, coinbase, txs, n, height);
    BlockFrom(rules, v, coins, coinbase, txs, n, height);
    CreatedAre(rules, v, coins, coinbase, txs, n, height);
    WalkCreated(coins, b, |b|, height);
    forall i | 0 < i < |b|
      ensures NoCoinOf(coins, b[i].txid)
    {
      assert AmongFirst(txs, n, b[i]);
    }
    SameFound(coins, b, Sequenced(rules, v, coins, txs, n, height).created, Ledger.ResolveTxs(coins, b, |b|, height), o, s);
  }

  /** Whether a transaction that resolves a market has, in the block, an input
      not yet spent there that the resolver's script locks. */
  ghost predicate ResolverFree(rules: Rules, book: Markets.MarketBook, tx: Transaction, height: u32, spent: set<OutPoint>,
                               created: map<OutPoint, Script>, coins: Utxo)
  {
    MarketsActive(rules, height) && Resolving(book, tx).Some? ==>
      UnspentInputWith(tx, spent, created, coins, ResolverScript(Resolving(book, tx).value))
  }

  /** Every kept transaction's resolver input is still unspent where it stands in the
      block, and none is shaped like a coinbase: what a producer can check as it goes. */
  ghost predicate ResolversFree(rules: Rules, v: Views, coins: Utxo, coinbase: Transaction, txs: seq<Transaction>, n: nat, height: u32)
    requires n <= |txs|
  {
    n == 0 ||
    (var q := Sequenced(rules, v, coins, txs, n - 1, height);
     var b := BlockOf(rules, v, coins, coinbase, txs, n - 1, height);
     && ResolversFree(rules, v, coins, coinbase, txs, n - 1, height)
     && (Sequenced(rules, v, coins, txs, n, height).kept != q.kept ==>
           !IsCoinbase(txs[n - 1]) && ResolverFree(rules, q.v.markets, txs[n - 1], height, SpentBefore(b, |b|), q.created, coins)))
  }

  /** At the end of a block under construction, what validation would find of a
      transaction's inputs: each script it finds the producer found, and it finds
      a resolver's script exactly when an unspent input has it. */
  lemma ScriptsAtTheEnd(rules: Rules, v: Views, coins: Utxo, coinbase: Transaction, txs: seq<Transaction>, n: nat, height: u32,
                        m: Markets.Market)
    requires n < |txs| && Mempool(coins, coinbase, txs)
    ensures var b, q := BlockOf(rules, v, coins, coinbase, txs, n, height), Sequenced(rules, v, coins, txs, n, height);
            var scripts := BlockScripts(coins, b + [txs[n]], height)[|b|];
            && (HasScript(scripts, ResolverScript(m)) <==>
                  UnspentInputWith(txs[n], SpentBefore(b, |b|), q.created, coins, ResolverScript(m)))
            && (HasScript(scripts, ResolverScript(m)) ==> HasScript(FoundScripts(q.created, coins, txs[n]), ResolverScript(m)))
  {
    hide Sequenced, BlockOf, SpentBefore, SpentInTx, FindScript, Ledger.Lookup, Ledger.ResolveTxs, BlockScripts, Mempool;
    var b, q, tx, s := BlockOf(rules, v, coins, coinbase, txs, n, height), Sequenced(rules, v, coins, txs, n, height), txs[n], ResolverScript(m);
    BlockFrom(rules, v, coins, coinbase, txs, n, height);
    var c := b + [tx];
    ScriptsLength(coins, c, height);
    BlockScriptsAre(coins, c, |b|, height);
    SamePrefixSameWalk(coins, c, b, |b|, height);
    SpentPrefix(c, b, |b|);
    InputsAvoidCoinbase(coins, coinbase, txs, n);
    var scripts := BlockScripts(coins, c, height)[|b|];
    forall k | 0 <= k < |tx.inputs|
      ensures FindScript(q.created, coins, tx.inputs[k].prev) == Some(s) <==>
              Ledger.Lookup(Ledger.ResolveTxs(coins, b, |b|, height), coins, tx.inputs[k].prev).Some?
              && Ledger.Lookup(Ledger.ResolveTxs(coins, b, |b|, height), coins, tx.inputs[k].prev).value.output.script == s
    {
      SameScriptFound(rules, v, coins, coinbase, txs, n, height, tx.inputs[k].prev, s);
    }
    SameScripts(scripts, Ledger.ResolveTxs(coins, b, |b|, height), coins, tx, SpentBefore(b, |b|), q.created, s);
  }

  lemma InputsAvoidCoinbase(coins: Utxo, coinbase: Transaction, txs: seq<Transaction>, n: nat)
    requires n < |txs| && Mempool(coins, coinbase, txs)
    ensures forall k :: 0 <= k < |txs[n].inputs| ==> txs[n].inputs[k].prev.txid != coinbase.txid
  {
  }

  lemma {:induction false} SpentPrefix(a: seq<Transaction>, b: seq<Transaction>, n: nat)
    requires n <= |a| && n <= |b| && a[..n] == b[..n]
    ensures SpentBefore(a, n) == SpentBefore(b, n)
  {
    if n > 1 {
      assert a[..n][..n - 1] == b[..n][..n - 1];
      assert a[..n - 1] == b[..n - 1];
      assert a[n - 1] == a[..n][n - 1] == b[n - 1];
      SpentPrefix(a, b, n - 1);
    }
  }

  lemma SameScripts(scripts: map<nat, Script>, w: Ledger.Walk, coins: Utxo, tx: Transaction, spent: set<OutPoint>,
                    created: map<OutPoint, Script>, s: Script)
    requires Shows(scripts, w, coins, tx, spent, |tx.inputs|)
    requires forall k :: 0 <= k < |tx.inputs| ==>
               (FindScript(created, coins, tx.inputs[k].prev) == Some(s) <==>
                Ledger.Lookup(w, coins, tx.inputs[k].prev).Some? && Ledger.Lookup(w, coins, tx.inputs[k].prev).value.output.script == s)
    ensures HasScript(scripts, s) <==> UnspentInputWith(tx, spent, created, coins, s)
    ensures HasScript(scripts, s) ==> HasScript(FoundScripts(created, coins, tx), s)
  {
    hide SpentInTx, FindScript, Ledger.Lookup;
    if HasScript(scripts, s) {
      var k :| k in scripts && scripts[k] == s;
      assert FindScript(created, coins, tx.inputs[k].prev) == Some(s);
      assert k in FoundScripts(created, coins, tx);
    }
    if UnspentInputWith(tx, spent, created, coins, s) {
      var k :| 0 <= k < |tx.inputs| && tx.inputs[k].prev !in spent + SpentInTx(tx, k)
               && FindScript(created, coins, tx.inputs[k].prev) == Some(s);
      assert k in scripts;
    }
  }

  // --- the main result ------------------------------------------------------------------------

  lemma {:induction false} SteppedPrefix(rules: Rules, policy: Policy, v: Views, a: seq<Transaction>, b: seq<Transaction>, n: nat,
                                         height: u32, sa: seq<map<nat, Script>>, sb: seq<map<nat, Script>>)
    requires n <= |a| == |sa| && n <= |b| == |sb|
    requires forall i :: 0 <= i < n ==> a[i] == b[i] && sa[i] == sb[i]
    ensures Stepped(rules, policy, v, a, n, height, sa) == Stepped(rules, policy, v, b, n, height, sb)
  {
    hide Step, RecordFree, JudgeFirst, IsCoinbase;
    if n > 0 {
      SteppedPrefix(rules, policy, v, a, b, n - 1, height, sa, sb);
    }
  }

  /** Judging a block with one transaction more is judging the block, then the
      transaction with the scripts found for it. */
  lemma SteppedExtends(rules: Rules, v: Views, coins: Utxo, b: seq<Transaction>, tx: Transaction, height: u32)
    requires |b| > 0
    ensures var c := b + [tx];
            var before := Stepped(rules, PolicyOf(rules, v), v, b, |b|, height, BlockScripts(coins, b, height));
            Stepped(rules, PolicyOf(rules, v), v, c, |c|, height, BlockScripts(coins, c, height))
            == if before.None? || IsCoinbase(tx) then None
               else Step(rules, PolicyOf(rules, v), before.value, tx, height, BlockScripts(coins, c, height)[|b|])
  {
    hide Step, RecordFree, JudgeFirst, IsCoinbase, BlockScripts, PolicyOf;
    var c := b + [tx];
    ScriptsLength(coins, b, height);
    ScriptsLength(coins, c, height);
    forall i | 0 <= i < |b|
      ensures BlockScripts(coins, b, height)[i] == BlockScripts(coins, c, height)[i]
    {
      assert b[..i + 1] == c[..i + 1];
      SamePrefixSameScripts(coins, b, c, i, height);
    }
    SteppedPrefix(rules, PolicyOf(rules, v), v, b, c, |b|, height, BlockScripts(coins, b, height), BlockScripts(coins, c, height));
  }

  /** What an accepted-or-refused mempool transaction becomes at the end of the
      block under construction. */
  lemma StepAtTheEnd(rules: Rules, v: Views, coins: Utxo, coinbase: Transaction, txs: seq<Transaction>, n: nat, height: u32)
    requires n < |txs| && Mempool(coins, coinbase, txs)
    ensures var b, q := BlockOf(rules, v, coins, coinbase, txs, n, height), Sequenced(rules, v, coins, txs, n, height);
            var step := Step(rules, PolicyOf(rules, v), q.v, txs[n], height, FoundScripts(q.created, coins, txs[n]));
            |BlockScripts(coins, b + [txs[n]], height)| == |b| + 1
            && Step(rules, PolicyOf(rules, v), q.v, txs[n], height, BlockScripts(coins, b + [txs[n]], height)[|b|])
               == if step.Some? && ResolverFree(rules, q.v.markets, txs[n], height, SpentBefore(b, |b|), q.created, coins) then step
                  else None
  {
    hide Sequenced, BlockOf, SpentBefore, SpentInTx, FindScript, BlockScripts, Mempool, Step, PolicyOf, HasScript, UnspentInputWith,
      ResolverScript, FoundScripts, Resolving;
    var b, q := BlockOf(rules, v, coins, coinbase, txs, n, height), Sequenced(rules, v, coins, txs, n, height);
    ScriptsLength(coins, b + [txs[n]], height);
    forall m: Markets.Market
      ensures HasScript(BlockScripts(coins, b + [txs[n]], height)[|b|], ResolverScript(m)) <==>
                UnspentInputWith(txs[n], SpentBefore(b, |b|), q.created, coins, ResolverScript(m))
      ensures HasScript(BlockScripts(coins, b + [txs[n]], height)[|b|], ResolverScript(m)) ==>
                HasScript(FoundScripts(q.created, coins, txs[n]), ResolverScript(m))
    {
      ScriptsAtTheEnd(rules, v, coins, coinbase, txs, n, height, m);
    }
    StepsCompared(rules, PolicyOf(rules, v), q.v, txs[n], height, FoundScripts(q.created, coins, txs[n]),
                  BlockScripts(coins, b + [txs[n]], height)[|b|]);
  }

  /** Producer sequencing against validation, exactly. The block of the kept
      transactions, behind a coinbase no rule objects to, is accepted and leaves
      precisely the views sequencing ended with if every kept resolution has a
      resolver input still unspent where it stands, and nothing kept is shaped like a
      coinbase; otherwise it is refused. */
  lemma {:induction false} SequencingRefines(rules: Rules, v: Views, coins: Utxo, coinbase: Transaction, txs: seq<Transaction>,
                                             n: nat, height: u32)
    requires n <= |txs| && Mempool(coins, coinbase, txs)
    requires RecordFree(rules, coinbase, height)
    ensures var b := BlockOf(rules, v, coins, coinbase, txs, n, height);
            |BlockScripts(coins, b, height)| == |b|
            && Validated(rules, v, b, |b|, height, BlockScripts(coins, b, height))
               == if ResolversFree(rules, v, coins, coinbase, txs, n, height)
                  then Some(Sequenced(rules, v, coins, txs, n, height).v) else None
  {
    hide BlockScripts, Validated, Stepped, PolicyOf, BlockOf;
    var b := BlockOf(rules, v, coins, coinbase, txs, n, height);
    ScriptsLength(coins, b, height);
    ValidatedIsStepped(rules, v, b, |b|, height, BlockScripts(coins, b, height));
    SequencingSteps(rules, v, coins, coinbase, txs, n, height);
  }

  lemma {:induction false} SequencingSteps(rules: Rules, v: Views, coins: Utxo, coinbase: Transaction, txs: seq<Transaction>,
                                           n: nat, height: u32)
    requires n <= |txs| && Mempool(coins, coinbase, txs)
    requires RecordFree(rules, coinbase, height)
    ensures var b := BlockOf(rules, v, coins, coinbase, txs, n, height);
            |BlockScripts(coins, b, height)| == |b|
            && Stepped(rules, PolicyOf(rules, v), v, b, |b|, height, BlockScripts(coins, b, height))
               == if ResolversFree(rules, v, coins, coinbase, txs, n, height)
                  then Some(Sequenced(rules, v, coins, txs, n, height).v) else None
  {
    hide BlockScripts, PolicyOf, BlockOf, Step, ResolverFree, Refusal, RecordFree, Mempool, SpentBefore, JudgeFirst, IsCoinbase,
      Enqueue, Stepped;
    var b := BlockOf(rules, v, coins, coinbase, txs, n, height);
    ScriptsLength(coins, b, height);
    BlockFrom(rules, v, coins, coinbase, txs, n, height);
    if n == 0 {
      EmptyBlock(rules, v, coins, coinbase, txs, height);
      CoinbaseSteps(rules, v, coins, coinbase, txs, height, BlockScripts(coins, b, height));
    } else {
      var before := BlockOf(rules, v, coins, coinbase, txs, n - 1, height);
      BlockFrom(rules, v, coins, coinbase, txs, n - 1, height);
      SequencingSteps(rules, v, coins, coinbase, txs, n - 1, height);
      BlockGrows(rules, v, coins, coinbase, txs, n - 1, height);
      var q := Sequenced(rules, v, coins, txs, n - 1, height);
      KeptOrNot(rules, v, coins, txs, n - 1, height);
      if Sequenced(rules, v, coins, txs, n, height).kept != q.kept {
        SteppedExtends(rules, v, coins, before, txs[n - 1], height);
        StepAtTheEnd(rules, v, coins, coinbase, txs, n - 1, height);
      }
    }
  }

  lemma CoinbaseSteps(rules: Rules, v: Views, coins: Utxo, coinbase: Transaction, txs: seq<Transaction>, height: u32,
                      scripts: seq<map<nat, Script>>)
    requires Mempool(coins, coinbase, txs) && RecordFree(rules, coinbase, height) && |scripts| == 1
    ensures Stepped(rules, PolicyOf(rules, v), v, [coinbase], 1, height, scripts) == Some(v)
  {
    hide PolicyOf, JudgeAssets;
  }

  /** Each transaction the producer drops would be refused at its position, and so
      would one it halts on: the block kept so far, with it at the end, does not
      validate. */
  lemma DroppedWouldBeRefused(rules: Rules, v: Views, coins: Utxo, coinbase: Transaction, txs: seq<Transaction>, n: nat, height: u32)
    requires n < |txs| && Mempool(coins, coinbase, txs)
    requires RecordFree(rules, coinbase, height)
    requires !Sequenced(rules, v, coins, txs, n, height).halted
    requires Sequenced(rules, v, coins, txs, n + 1, height).kept == Sequenced(rules, v, coins, txs, n, height).kept
    ensures var c := BlockOf(rules, v, coins, coinbase, txs, n, height) + [txs[n]];
            |BlockScripts(coins, c, height)| == |c|
            && Validated(rules, v, c, |c|, height, BlockScripts(coins, c, height)).None?
  {
    hide BlockScripts, PolicyOf, BlockOf, Step, ResolverFree, Refusal, RecordFree, Mempool, Validated, Stepped, SpentBefore, PoolHalts, IsCoinbase;
    var b, q := BlockOf(rules, v, coins, coinbase, txs, n, height), Sequenced(rules, v, coins, txs, n, height);
    var c := b + [txs[n]];
    ScriptsLength(coins, c, height);
    BlockFrom(rules, v, coins, coinbase, txs, n, height);
    ValidatedIsStepped(rules, v, c, |c|, height, BlockScripts(coins, c, height));
    SequencingSteps(rules, v, coins, coinbase, txs, n, height);
    SteppedExtends(rules, v, coins, b, txs[n], height);
    StepAtTheEnd(rules, v, coins, coinbase, txs, n, height);
    RefusalIsNoStep(rules, PolicyOf(rules, v), q.v, txs[n], height, FoundScripts(q.created, coins, txs[n]));
    if PoolHalts(rules, PolicyOf(rules, v), q.v, txs[n], height) {
      HaltIsNoStep(rules, PolicyOf(rules, v), q.v, txs[n], height, FoundScripts(q.created, coins, txs[n]));
    }
  }

  // --- a mempool without conflicts --------------------------------------------------------------

  /** No outpoint is spent twice in the mempool, and nothing in it is shaped like a
      coinbase: what submission enforces, since the null outpoint is no coin. */
  ghost predicate NoConflicts(txs: seq<Transaction>)
  {
    && (forall i :: 0 <= i < |txs| ==> !IsCoinbase(txs[i]))
    && (forall i :: 0 <= i < |txs| ==> UniqueInputs(txs[i]))
    && (forall i, j :: 0 <= i < j < |txs| ==> Spends(txs[i]) !! Spends(txs[j]))
  }

  lemma {:induction false} SpentByPool(b: seq<Transaction>, i: nat, txs: seq<Transaction>, n: nat)
    requires 1 <= i <= |b| && n <= |txs|
    requires forall j :: 0 < j < |b| ==> AmongFirst(txs, n, b[j])
    ensures forall o :: o in SpentBefore(b, i) ==> exists j :: 0 <= j < n && o in Spends(txs[j])
  {
    if i > 1 {
      SpentByPool(b, i - 1, txs, n);
      assert AmongFirst(txs, n, b[i - 1]);
      forall o | o in SpentBefore(b, i)
        ensures exists j :: 0 <= j < n && o in Spends(txs[j])
      {
        if o !in SpentBefore(b, i - 1) {
          var j :| 0 <= j < n && b[i - 1] == txs[j];
          assert o in Spends(txs[j]);
        }
      }
    }
  }

  lemma NotCoinbase(txs: seq<Transaction>, n: nat)
    requires NoConflicts(txs) && n < |txs|
    ensures !IsCoinbase(txs[n])
  {
  }

  /** In a mempool without conflicts every kept resolution's input is unspent. */
  lemma {:induction false} NoConflictsFree(rules: Rules, v: Views, coins: Utxo, coinbase: Transaction, txs: seq<Transaction>, n: nat, height: u32)
    requires n <= |txs| && Mempool(coins, coinbase, txs) && NoConflicts(txs)
    ensures ResolversFree(rules, v, coins, coinbase, txs, n, height)
  {
    hide Sequenced, BlockOf, Mempool, NoConflicts, ResolverFree, SpentBefore, IsCoinbase;
    if n > 0 {
      NoConflictsFree(rules, v, coins, coinbase, txs, n - 1, height);
      NotCoinbase(txs, n - 1);
      if Sequenced(rules, v, coins, txs, n, height).kept != Sequenced(rules, v, coins, txs, n - 1, height).kept {
        KeptIsFree(rules, v, coins, coinbase, txs, n - 1, height);
      }
    }
  }

  lemma KeptIsFree(rules: Rules, v: Views, coins: Utxo, coinbase: Transaction, txs: seq<Transaction>, n: nat, height: u32)
    requires n < |txs| && Mempool(coins, coinbase, txs) && NoConflicts(txs)
    requires Sequenced(rules, v, coins, txs, n + 1, height).kept != Sequenced(rules, v, coins, txs, n, height).kept
    ensures var q, b := Sequenced(rules, v, coins, txs, n, height), BlockOf(rules, v, coins, coinbase, txs, n, height);
            ResolverFree(rules, q.v.markets, txs[n], height, SpentBefore(b, |b|), q.created, coins)
  {
    hide Sequenced, BlockOf, Step, PolicyOf, Mempool, NoConflicts, Resolving, UnspentInputWith, SpentBefore, Refusal, KeptViews,
      OutputScripts, FoundScripts, HasScript, ResolverScript;
    var b, q, tx := BlockOf(rules, v, coins, coinbase, txs, n, height), Sequenced(rules, v, coins, txs, n, height), txs[n];
    if MarketsActive(rules, height) && Resolving(q.v.markets, tx).Some? {
      KeptOrNot(rules, v, coins, txs, n, height);
      KeptHasResolver(rules, PolicyOf(rules, v), q.v, tx, height, FoundScripts(q.created, coins, tx));
      BlockFrom(rules, v, coins, coinbase, txs, n, height);
      SpentByPool(b, |b|, txs, n);
      ConflictFreeInput(txs, n, SpentBefore(b, |b|), q.created, coins, ResolverScript(Resolving(q.v.markets, tx).value));
    }
  }

  lemma ConflictFreeInput(txs: seq<Transaction>, n: nat, spent: set<OutPoint>, created: map<OutPoint, Script>, coins: Utxo, s: Script)
    requires n < |txs| && NoConflicts(txs)
    requires forall o :: o in spent ==> exists j :: 0 <= j < n && o in Spends(txs[j])
    requires HasScript(FoundScripts(created, coins, txs[n]), s)
    ensures UnspentInputWith(txs[n], spent, created, coins, s)
  {
    hide FindScript;
    var tx := txs[n];
    var k :| k in FoundScripts(created, coins, tx) && FoundScripts(created, coins, tx)[k] == s;
    var o := tx.inputs[k].prev;
    assert o in Spends(tx);
    forall j | 0 <= j < n
      ensures o !in Spends(txs[j])
    {
      assert Spends(txs[j]) !! Spends(txs[n]);
    }
    assert o !in spent;
    assert o !in SpentInTx(tx, k);
  }

  /** A kept transaction that resolves a market has an input the resolver locks. */
  lemma KeptHasResolver(rules: Rules, policy: Policy, v: Views, tx: Transaction, height: u32, scripts: map<nat, Script>)
    requires Refusal(rules, policy, v, tx, height, scripts).None?
    requires MarketsActive(rules, height) && Resolving(v.markets, tx).Some?
    ensures HasScript(scripts, ResolverScript(Resolving(v.markets, tx).value))
  {
    hide JudgeAssets, JudgePool, Markets.CheckMarket, Resolving, HasScript, ResolverScript;
    var assets := JudgeAssets(v.assets, tx, height, policy);
    ResolvedHasScript(v.markets, tx, assets.value.1, height, scripts);
  }

  lemma ResolvedHasScript(book: Markets.MarketBook, tx: Transaction, trace: Trace, height: u32, scripts: map<nat, Script>)
    requires Resolving(book, tx).Some? && Markets.CheckMarket(book, tx, trace, height, false, scripts).Ok?
    ensures HasScript(scripts, ResolverScript(Resolving(book, tx).value))
  {
    hide Markets.CheckSettle, Markets.CheckOpen, Spent, Markets.TrueOutputsUpTo, Markets.Deadline;
  }

  /** Producer sequencing refines validation: from a mempool without conflicts,
      the kept transactions, in order behind a record-free coinbase, are accepted
      by the assets, pool and markets rules from the same applied views, and
      leave exactly the views sequencing ended with. */
  lemma SequencingRefinesValidation(rules: Rules, v: Views, coins: Utxo, coinbase: Transaction, txs: seq<Transaction>, height: u32)
    requires Mempool(coins, coinbase, txs) && NoConflicts(txs)
    requires RecordFree(rules, coinbase, height)
    ensures var b := BlockOf(rules, v, coins, coinbase, txs, |txs|, height);
            |BlockScripts(coins, b, height)| == |b|
            && Validated(rules, v, b, |b|, height, BlockScripts(coins, b, height))
               == Some(Sequenced(rules, v, coins, txs, |txs|, height).v)
  {
    hide Mempool, NoConflicts, RecordFree, Validated, BlockOf, Sequenced, BlockScripts, ResolversFree;
    NoConflictsFree(rules, v, coins, coinbase, txs, |txs|, height);
    SequencingRefines(rules, v, coins, coinbase, txs, |txs|, height);
  }
}
