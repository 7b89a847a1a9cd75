/** The coin set over a whole chain (sidestr-core/src/rules.rs `apply_block`): in every
    state of every accepted run, exactly the outputs the chain has created and not spent. */
module CoinHistory {
  import opened Prelude
  import opened Transactions
  import opened Ledger
  import opened SpendingExact
  import opened Chain
  import opened Runs
  import Freshness

  /** A coin set holds this coin at this outpoint. */
  predicate Holds(u: Utxo, o: OutPoint, c: Coin) { o in u && u[o] == c }

  /** A transaction creates the coin: its output of that number, which does not open with
      `OP_RETURN`, at this height. */
  predicate CreatedBy(tx: Transaction, height: nat, first: bool, o: OutPoint, c: Coin)
  {
    && o.txid == tx.txid && o.vout < |tx.outputs|
    && (|tx.outputs[o.vout].script| > 0 ==> tx.outputs[o.vout].script[0] != 0x6a)
    && c.output == tx.outputs[o.vout] && c.height == height && c.coinbase == first
  }

  predicate SpentBy(tx: Transaction, o: OutPoint) { exists k :: 0 <= k < |tx.inputs| && tx.inputs[k].prev == o }

  // --- one block ---------------------------------------------------------------------------------

  ghost predicate CreatedAmong(txs: seq<Transaction>, n: nat, height: nat, o: OutPoint, c: Coin)
    requires n <= |txs|
  {
    exists t :: 0 <= t < n && CreatedBy(txs[t], height, t == 0, o, c)
  }

  predicate SpentAmong(txs: seq<Transaction>, n: nat, o: OutPoint)
    requires n <= |txs|
  {
    exists t :: 0 < t < n && SpentBy(txs[t], o)
  }

  lemma CoinsHold(tx: Transaction, height: u32, first: bool, o: OutPoint, c: Coin)
    ensures Holds(CoinsOf(tx, height, first), o, c) <==> CreatedBy(tx, height, first, o, c)
    ensures o in CoinsOf(tx, height, first) ==> o.txid == tx.txid
  {
    CoinsAre(tx, |tx.outputs|, height, first);
    if o.txid == tx.txid && o.vout < |tx.outputs| {
      assert o == OutPoint(tx.txid, o.vout);
    }
  }

  lemma LeftHold(u: Utxo, tx: Transaction, o: OutPoint, c: Coin)
    ensures Holds(SpendUpTo(u, tx, |tx.inputs|), o, c) <==> Holds(u, o, c) && !SpentBy(tx, o)
  {
    Freshness.SpendUpToIs(u, tx, |tx.inputs|);
  }

  /** What a block spends was there, or was made earlier in it. */
  lemma SpentWasThere(u: Utxo, txs: seq<Transaction>, t: nat, height: u32, o: OutPoint)
    requires 0 < t < |txs| && Takes(u, txs, t, height) && SpentBy(txs[t], o)
    ensures o in u || exists j :: 0 <= j < t && txs[j].txid == o.txid
  {
    var k :| 0 <= k < |txs[t].inputs| && txs[t].inputs[k].prev == o;
    var live := ApplyTxs(u, txs, t, height);
    SpendingOnlyRemoves(live, txs[t], k);
    assert o in live.Keys;
    LiveFrom(u, txs, t, height);
  }

  /** The coins after the first `n` transactions of a block, exactly. */
  lemma {:induction false} BlockCoins(u: Utxo, txs: seq<Transaction>, n: nat, height: u32, o: OutPoint, c: Coin)
    requires n <= |txs| && NewIds(u, txs) && AllTake(u, txs, n, height)
    ensures Holds(ApplyTxs(u, txs, n, height), o, c)
            <==> (Holds(u, o, c) || CreatedAmong(txs, n, height, o, c)) && !SpentAmong(txs, n, o)
  {
    hide CreatedBy, SpentBy, CoinsOf, SpendUpTo, Holds, Takes, NewIds;
    if n > 0 {
      BlockCoins(u, txs, n - 1, height, o, c);
      OneMoreTx(u, txs, n, height, o, c);
    }
  }

  lemma OneMoreTx(u: Utxo, txs: seq<Transaction>, n: nat, height: u32, o: OutPoint, c: Coin)
    requires 0 < n <= |txs| && NewIds(u, txs) && AllTake(u, txs, n, height)
    requires Holds(ApplyTxs(u, txs, n - 1, height), o, c)
             <==> (Holds(u, o, c) || CreatedAmong(txs, n - 1, height, o, c)) && !SpentAmong(txs, n - 1, o)
    ensures Holds(ApplyTxs(u, txs, n, height), o, c)
            <==> (Holds(u, o, c) || CreatedAmong(txs, n, height, o, c)) && !SpentAmong(txs, n, o)
  {
    hide SpentBy, CoinsOf, SpendUpTo, ApplyTxs, CreatedBy;
    var live, tx := ApplyTxs(u, txs, n - 1, height), txs[n - 1];
    BlockApplied(u, txs, n, height);
    CoinsHold(tx, height, n == 1, o, c);
    LeftHold(live, tx, o, c);
    CreatedMore(txs, n, height, o, c);
    SpentMore(txs, n, o);
    if o.txid == tx.txid {
      NotYet(u, txs, n, height, o, c);
    }
    if CreatedBy(tx, height, n == 1, o, c) {
      CreatedId(tx, height, n == 1, o, c);
    }
  }

  lemma CreatedId(tx: Transaction, height: nat, first: bool, o: OutPoint, c: Coin)
    requires CreatedBy(tx, height, first, o, c)
    ensures o.txid == tx.txid
  {
  }

  lemma BlockApplied(u: Utxo, txs: seq<Transaction>, n: nat, height: u32)
    requires 0 < n <= |txs|
    ensures var live, tx := ApplyTxs(u, txs, n - 1, height), txs[n - 1];
            ApplyTxs(u, txs, n, height)
            == (if n == 1 then live else SpendUpTo(live, tx, |tx.inputs|)) + CoinsOf(tx, height, n == 1)
  {
    hide CoinsOf, SpendUpTo;
  }

  lemma CreatedMore(txs: seq<Transaction>, n: nat, height: nat, o: OutPoint, c: Coin)
    requires 0 < n <= |txs|
    ensures CreatedAmong(txs, n, height, o, c)
            <==> CreatedAmong(txs, n - 1, height, o, c) || CreatedBy(txs[n - 1], height, n == 1, o, c)
  {
    hide CreatedBy;
  }

  lemma SpentMore(txs: seq<Transaction>, n: nat, o: OutPoint)
    requires 0 < n <= |txs|
    ensures SpentAmong(txs, n, o) <==> SpentAmong(txs, n - 1, o) || (n > 1 && SpentBy(txs[n - 1], o))
  {
    hide SpentBy;
  }

  /** Nothing of a transaction's own id is there, made or spent before it. */
  lemma NotYet(u: Utxo, txs: seq<Transaction>, n: nat, height: u32, o: OutPoint, c: Coin)
    requires 0 < n <= |txs| && NewIds(u, txs) && AllTake(u, txs, n, height) && o.txid == txs[n - 1].txid
    ensures !Holds(u, o, c) && !CreatedAmong(txs, n - 1, height, o, c) && !SpentAmong(txs, n, o)
    ensures o !in ApplyTxs(u, txs, n - 1, height)
  {
    hide SpentBy, Takes, ApplyTxs;
    LiveFrom(u, txs, n - 1, height);
    assert forall j :: 0 <= j < n - 1 ==> txs[j].txid != txs[n - 1].txid;
    if SpentAmong(txs, n, o) {
      var t :| 0 < t < n && SpentBy(txs[t], o);
      SpentWasThere(u, txs, t, height, o);
    }
  }

  // --- whole runs ----------------------------------------------------------------------------------

  /** The genesis or a transaction of the first `n` blocks creates the coin. */
  ghost predicate Created(g: Transaction, blocks: seq<Block>, n: nat, o: OutPoint, c: Coin)
    requires n <= |blocks|
  {
    || CreatedBy(g, 0, true, o, c)
    || exists i :: 0 <= i < n && CreatedAmong(blocks[i].txs, |blocks[i].txs|, i + 1, o, c)
  }

  /** A transaction of the first `n` blocks, not a coinbase, spends it. */
  ghost predicate Spent(blocks: seq<Block>, n: nat, o: OutPoint)
    requires n <= |blocks|
  {
    exists i :: 0 <= i < n && SpentAmong(blocks[i].txs, |blocks[i].txs|, o)
  }

  /** The coin set, exactly: a coin is there if and only if the chain has created it and
      never spent it, with the output, the height and the kind it was created with. */
  lemma {:induction false} CoinsExact(terms: Terms, g: Transaction, blocks: seq<Block>, n: nat, o: OutPoint, c: Coin)
    requires ValidRun(terms, g, blocks) && n <= |blocks| && Freshness.Committing(Freshness.History(g, blocks, |blocks|))
    ensures Holds(StateAfter(g, blocks, n).coins, o, c) <==> Created(g, blocks, n, o, c) && !Spent(blocks, n, o)
  {
    hide Accepts, Extend, ValidRun, Freshness.Committing, CreatedBy, Created, Spent, Holds, Freshness.History;
    if n == 0 {
      GenesisCoins(g, blocks, o, c);
    } else {
      CoinsExact(terms, g, blocks, n - 1, o, c);
      BlockMakes(terms, g, blocks, n, o, c);
    }
  }

  lemma GenesisCoins(g: Transaction, blocks: seq<Block>, o: OutPoint, c: Coin)
    ensures Holds(StateAfter(g, blocks, 0).coins, o, c) <==> Created(g, blocks, 0, o, c) && !Spent(blocks, 0, o)
  {
    hide CreatedBy, CoinsOf;
    CoinsHold(g, 0, true, o, c);
    assert map[] + CoinsOf(g, 0, true) == CoinsOf(g, 0, true);
  }

  lemma BlockMakes(terms: Terms, g: Transaction, blocks: seq<Block>, n: nat, o: OutPoint, c: Coin)
    requires ValidRun(terms, g, blocks) && 0 < n <= |blocks| && Freshness.Committing(Freshness.History(g, blocks, |blocks|))
    requires Holds(StateAfter(g, blocks, n - 1).coins, o, c) <==> Created(g, blocks, n - 1, o, c) && !Spent(blocks, n - 1, o)
    ensures Holds(StateAfter(g, blocks, n).coins, o, c) <==> Created(g, blocks, n, o, c) && !Spent(blocks, n, o)
  {
    hide Accepts, Extend, ValidRun, Freshness.Committing, CreatedBy, CreatedAmong, SpentAmong, Holds, Freshness.History, AllTake, NewIds,
      StateAfter;
    var s, b := StateAfter(g, blocks, n - 1), blocks[n - 1];
    StepFacts(terms, g, blocks, n);
    BlockCoins(s.coins, b.txs, |b.txs|, n, o, c);
    if CreatedAmong(b.txs, |b.txs|, n, o, c) {
      NeverBefore(terms, g, blocks, n, o, c);
    }
  }

  /** What an accepted block is on the state it extends. */
  lemma StepFacts(terms: Terms, g: Transaction, blocks: seq<Block>, n: nat)
    requires ValidRun(terms, g, blocks) && 0 < n <= |blocks| && Freshness.Committing(Freshness.History(g, blocks, |blocks|))
    ensures n <= U32_MAX
    ensures var s, b := StateAfter(g, blocks, n - 1), blocks[n - 1];
            && |b.txs| > 0 && NewIds(s.coins, b.txs) && AllTake(s.coins, b.txs, |b.txs|, n)
            && StateAfter(g, blocks, n).coins == ApplyTxs(s.coins, b.txs, |b.txs|, n)
  {
    hide Accepts, ValidRun, Freshness.Committing, StateAfter, AllTake, ResolveTxs, Freshness.Settled, Clean, ApplyTxs;
    RunStep(terms, g, blocks, n - 1);
    ClaimsStayBelowTip(terms, g, blocks, n - 1);
    var s, b := StateAfter(g, blocks, n - 1), blocks[n - 1];
    Freshness.AcceptedShape(terms, s, b);
    IdsAreNew(terms, g, blocks, n);
    SpendingIsExact(s.coins, b.txs, |b.txs|, n);
  }

  predicate AllNew(txs: seq<Transaction>, past: set<Txid>) { forall i :: 0 <= i < |txs| ==> txs[i].txid !in past }

  /** A block's ids are new to the coins and to everything before it. */
  lemma IdsAreNew(terms: Terms, g: Transaction, blocks: seq<Block>, n: nat)
    requires ValidRun(terms, g, blocks) && 0 < n <= |blocks| && Freshness.Committing(Freshness.History(g, blocks, |blocks|))
    ensures NewIds(StateAfter(g, blocks, n - 1).coins, blocks[n - 1].txs)
    ensures AllNew(blocks[n - 1].txs, Freshness.Ids(Freshness.History(g, blocks, n - 1)))
  {
    hide Accepts, ValidRun, Freshness.Committing, Freshness.Settled, Freshness.Distinct, StateAfter, NewIds, AllNew;
    var past, all := Freshness.History(g, blocks, n - 1), Freshness.History(g, blocks, |blocks|);
    Freshness.TxidsNeverRepeat(terms, g, blocks);
    Extends(g, blocks, n, |blocks|);
    Extends(g, blocks, n - 1, |blocks|);
    Freshness.CommittingPrefix(all, |past|);
    assert all[..|past|] == past;
    Freshness.RunSettled(terms, g, blocks, n - 1);
    PrefixDistinct(Freshness.History(g, blocks, n), all);
    TailNew(past, blocks[n - 1].txs, StateAfter(g, blocks, n - 1).coins, n - 1);
  }

  lemma PrefixDistinct(some: seq<Transaction>, all: seq<Transaction>)
    requires some <= all && Freshness.Distinct(all)
    ensures Freshness.Distinct(some)
  {
  }

  lemma TailNew(past: seq<Transaction>, txs: seq<Transaction>, u: Utxo, tip: nat)
    requires Freshness.Distinct(past + txs) && Freshness.Settled(past, u, tip)
    ensures NewIds(u, txs) && AllNew(txs, Freshness.Ids(past))
  {
    hide IsCoinbase, Bip34Height;
    var all := past + txs;
    assert forall k :: 0 <= k < |past| ==> all[k] == past[k];
    assert forall i :: 0 <= i < |txs| ==> all[|past| + i] == txs[i];
  }

  lemma {:induction false} Extends(g: Transaction, blocks: seq<Block>, m: nat, n: nat)
    requires m <= n <= |blocks|
    ensures Freshness.History(g, blocks, m) <= Freshness.History(g, blocks, n)
  {
    if m < n {
      Extends(g, blocks, m, n - 1);
    }
  }

  /** What a block creates was neither created nor spent before it. */
  lemma NeverBefore(terms: Terms, g: Transaction, blocks: seq<Block>, n: nat, o: OutPoint, c: Coin)
    requires ValidRun(terms, g, blocks) && 0 < n <= |blocks| && Freshness.Committing(Freshness.History(g, blocks, |blocks|))
    requires CreatedAmong(blocks[n - 1].txs, |blocks[n - 1].txs|, n, o, c)
    ensures !Spent(blocks, n - 1, o)
  {
    hide Accepts, ValidRun, Freshness.Committing, StateAfter, NewIds, Freshness.Ids, SpentBy;
    IdsAreNew(terms, g, blocks, n);
    if Spent(blocks, n - 1, o) {
      var i :| 0 <= i < n - 1 && SpentAmong(blocks[i].txs, |blocks[i].txs|, o);
      SpentIsPast(terms, g, blocks, i, n - 1, o);
    }
  }

  /** What a past block spent has a past id. */
  lemma SpentIsPast(terms: Terms, g: Transaction, blocks: seq<Block>, i: nat, n: nat, o: OutPoint)
    requires ValidRun(terms, g, blocks) && i < n <= |blocks| && Freshness.Committing(Freshness.History(g, blocks, |blocks|))
    requires SpentAmong(blocks[i].txs, |blocks[i].txs|, o)
    ensures o.txid in Freshness.Ids(Freshness.History(g, blocks, n))
  {
    hide Accepts, ValidRun, Freshness.Committing, StateAfter, Freshness.History, Freshness.Ids;
    var past, all := Freshness.History(g, blocks, n), Freshness.History(g, blocks, |blocks|);
    Extends(g, blocks, n, |blocks|);
    Freshness.CommittingPrefix(all, |past|);
    assert all[..|past|] == past;
    Freshness.RunSettled(terms, g, blocks, n);
    var t :| 0 < t < |blocks[i].txs| && SpentBy(blocks[i].txs[t], o);
    RunStep(terms, g, blocks, i);
    Freshness.AcceptedShape(terms, StateAfter(g, blocks, i), blocks[i]);
    var k := Position(g, blocks, i, n, t);
    assert past[k] == blocks[i].txs[t];
  }

  /** Where a transaction stands in the history. */
  lemma Position(g: Transaction, blocks: seq<Block>, i: nat, n: nat, t: nat) returns (k: nat)
    requires i < n <= |blocks| && t < |blocks[i].txs|
    ensures k < |Freshness.History(g, blocks, n)| && Freshness.History(g, blocks, n)[k] == blocks[i].txs[t]
  {
    var before := Freshness.History(g, blocks, i);
    k := |before| + t;
    Extends(g, blocks, i + 1, n);
    assert Freshness.History(g, blocks, i + 1)[k] == blocks[i].txs[t];
  }
}
