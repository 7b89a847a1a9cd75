/** Along an accepted run no transaction id repeats. The only assumption is
    that an id commits to its transaction: two transactions of the run with one
    id spend the same outpoints with the same scripts. */
module Freshness {
  import opened Prelude
  import opened Transactions
  import opened Markers
  import opened Ledger
  import opened SpendingProofs
  import opened Chain
  import opened Runs

  /** What an id commits to, of a transaction's inputs: all but the witnesses. */
  predicate SameInputs(t: Transaction, u: Transaction)
  {
    && |t.inputs| == |u.inputs|
    && (forall i :: 0 <= i < |t.inputs| ==>
          t.inputs[i].prev == u.inputs[i].prev && t.inputs[i].scriptSig == u.inputs[i].scriptSig)
  }

  ghost predicate Committing(history: seq<Transaction>)
  {
    forall i, j :: 0 <= i < |history| && 0 <= j < |history| && history[i].txid == history[j].txid ==>
      SameInputs(history[i], history[j])
  }

  /** Every transaction of the genesis and the first `n` blocks, in order. */
  function History(g: Transaction, blocks: seq<Block>, n: nat): seq<Transaction>
    requires n <= |blocks|
  {
    if n == 0 then [g] else History(g, blocks, n - 1) + blocks[n - 1].txs
  }

  function Ids(history: seq<Transaction>): set<Txid>
  {
    set i | 0 <= i < |history| :: history[i].txid
  }

  predicate Distinct(history: seq<Transaction>)
  {
    forall i, j :: 0 <= i < j < |history| ==> history[i].txid != history[j].txid
  }

  /** How a chain's past stands to its live coins: coins come from the past,
      what a past transaction spent stays spent, no id repeats, and each past
      coinbase pushed a height at most `tip` (or none). */
  ghost predicate Settled(history: seq<Transaction>, live: Utxo, tip: nat)
  {
    && (forall o :: o in live ==> o.txid in Ids(history))
    && (forall k, i :: 0 <= k < |history| && !IsCoinbase(history[k]) && 0 <= i < |history[k].inputs| ==>
          history[k].inputs[i].prev !in live && history[k].inputs[i].prev.txid in Ids(history))
    && Distinct(history)
    && (forall k :: 0 <= k < |history| && IsCoinbase(history[k]) ==>
          Bip34Height(history[k]).None? || Bip34Height(history[k]).value <= tip)
  }

  lemma {:induction false} SpendUpToIs(u: Utxo, tx: Transaction, n: nat)
    requires n <= |tx.inputs|
    ensures forall o :: o in SpendUpTo(u, tx, n) <==> o in u && forall i :: 0 <= i < n ==> tx.inputs[i].prev != o
    ensures forall o :: o in SpendUpTo(u, tx, n) ==> SpendUpTo(u, tx, n)[o] == u[o]
  {
    if n > 0 {
      SpendUpToIs(u, tx, n - 1);
    }
  }

  /** If each input really takes a coin, each names a coin of the set. */
  lemma {:induction false} TakenMeansPresent(u: Utxo, tx: Transaction, ti: nat, n: nat)
    requires n <= |tx.inputs|
    ensures |TakenByInputs(u, tx, ti, n)| <= n
    ensures |TakenByInputs(u, tx, ti, n)| == n ==> forall i :: 0 <= i < n ==> tx.inputs[i].prev in u
  {
    if n > 0 {
      TakenMeansPresent(u, tx, ti, n - 1);
      SpendUpToIs(u, tx, n - 1);
    }
  }

  lemma IdsAppend(history: seq<Transaction>, tx: Transaction)
    ensures Ids(history + [tx]) == Ids(history) + {tx.txid}
  {
    var next := history + [tx];
    assert next[|history|] == tx;
    forall id | id in Ids(history)
      ensures id in Ids(next)
    {
      var i :| 0 <= i < |history| && history[i].txid == id;
      assert next[i].txid == id;
    }
  }

  /** A later transaction's id is new: one that spends a live coin cannot have
      been seen, since what the past spent is gone; nor can a coinbase that
      pushes a height above the tip. */
  lemma NewId(history: seq<Transaction>, live: Utxo, tip: nat, tx: Transaction)
    requires Settled(history, live, tip)
    requires Committing(history + [tx])
    requires if IsCoinbase(tx) then Bip34Height(tx).Some? && Bip34Height(tx).value > tip
             else |tx.inputs| > 0 && tx.inputs[0].prev in live
    ensures tx.txid !in Ids(history)
  {
    hide Bip34Height;
    var next := history + [tx];
    if tx.txid in Ids(history) {
      var k :| 0 <= k < |history| && history[k].txid == tx.txid;
      assert next[k] == history[k] && next[|history|] == tx;
      assert SameInputs(history[k], tx);
      assert IsCoinbase(history[k]) == IsCoinbase(tx);
      SameScriptSameHeight(history[k], tx);
    }
  }

  lemma SameScriptSameHeight(t: Transaction, u: Transaction)
    requires SameInputs(t, u)
    ensures Bip34Height(t) == Bip34Height(u)
  {
  }

  /** Extending the past by a transaction with a new id keeps it settled. */
  lemma StaysSettled(history: seq<Transaction>, live: Utxo, tip: nat, tx: Transaction, height: u32)
    requires Settled(history, live, tip) && tip <= height
    requires tx.txid !in Ids(history)
    requires IsCoinbase(tx) ==> Bip34Height(tx).None? || Bip34Height(tx).value <= height
    requires !IsCoinbase(tx) ==> forall i :: 0 <= i < |tx.inputs| ==> tx.inputs[i].prev in live
    ensures Settled(history + [tx], ApplyTx(live, tx, height, IsCoinbase(tx)), height)
  {
    hide Bip34Height;
    var next, after := history + [tx], ApplyTx(live, tx, height, IsCoinbase(tx));
    IdsAppend(history, tx);
    CoinsAre(tx, |tx.outputs|, height, IsCoinbase(tx));
    SpendUpToIs(live, tx, |tx.inputs|);
    forall k, i | 0 <= k < |next| && !IsCoinbase(next[k]) && 0 <= i < |next[k].inputs|
      ensures next[k].inputs[i].prev !in after && next[k].inputs[i].prev.txid in Ids(next)
    {
      if k < |history| {
        assert next[k] == history[k];
        assert history[k].inputs[i].prev !in live;
      } else {
        assert tx.inputs[i].prev in live;
      }
    }
    forall i, j | 0 <= i < j < |next|
      ensures next[i].txid != next[j].txid
    {
      assert next[i] == history[i];
      assert history[i].txid in Ids(history);
    }
  }

  lemma CommittingPrefix(history: seq<Transaction>, n: nat)
    requires Committing(history) && n <= |history|
    ensures Committing(history[..n])
  {
  }

  /** Every transaction of a block that misses no coin takes live coins. */
  lemma BlockInputsLive(s: State, b: Block, i: nat, height: u32)
    requires 0 < i < |b.txs|
    requires Resolution(s.coins, b.txs, height).missing == []
    ensures forall k :: 0 <= k < |b.txs[i].inputs| ==>
              b.txs[i].inputs[k].prev in ApplyTxs(s.coins, b.txs, i, height)
  {
    hide ResolveTx, ApplyTx;
    TxsOnlyAdd(s.coins, b.txs, i, |b.txs|, height);
    TxsOnlyAdd(s.coins, b.txs, i + 1, |b.txs|, height);
    TxsAgree(s.coins, b.txs, i, height);
    var w, live := ResolveTxs(s.coins, b.txs, i, height), ApplyTxs(s.coins, b.txs, i, height);
    TxAgrees(w, s.coins, live, b.txs[i], i, height);
    TakenMeansPresent(live, b.txs[i], i, |b.txs[i].inputs|);
  }

  /** What acceptance says that freshness needs. */
  lemma AcceptedShape(terms: Terms, s: State, b: Block)
    requires Accepts(terms, s, b)
    ensures |b.txs| > 0 && s.tip + 1 <= U32_MAX
    ensures Resolution(s.coins, b.txs, s.tip + 1).missing == []
    ensures Bip34Height(b.txs[0]) == Some(s.tip + 1)
    ensures forall i :: 0 <= i < |b.txs| ==> (IsCoinbase(b.txs[i]) <==> i == 0) && |b.txs[i].inputs| > 0
    ensures forall i :: 0 <= i < |b.txs| ==> UniqueInputs(b.txs[i])
    ensures Extend(s, b).coins == ApplyTxs(s.coins, b.txs, |b.txs|, s.tip + 1)
    ensures Extend(s, b).tip == s.tip + 1
  {
    hide Resolution, Bip34Height, PegoutsOk, ClaimsOk, CoinbaseAmountOk, Finality, ApplyTxs, BlockBurns, ClaimKeys, Claims;
    assert forall i :: 0 <= i < |b.txs| ==> ValidTx(b.txs[i], i == 0);
  }

  /** Within an accepted block, position by position. */
  lemma {:induction false} BlockSettles(terms: Terms, history: seq<Transaction>, s: State, b: Block, n: nat)
    requires Accepts(terms, s, b) && n <= |b.txs|
    requires Settled(history, s.coins, s.tip)
    requires Committing(history + b.txs)
    ensures s.tip + 1 <= U32_MAX
    ensures Settled(history + b.txs[..n], ApplyTxs(s.coins, b.txs, n, s.tip + 1), if n == 0 then s.tip else s.tip + 1)
  {
    hide Accepts, Settled, Committing, ApplyTx, Bip34Height;
    AcceptedShape(terms, s, b);
    if n == 0 {
      assert history + b.txs[..0] == history;
    } else {
      var h, i := s.tip + 1, n - 1;
      BlockSettles(terms, history, s, b, i);
      var past, tx, live := history + b.txs[..i], b.txs[i], ApplyTxs(s.coins, b.txs, i, h);
      assert past + [tx] == history + b.txs[..n] == (history + b.txs)[..|history| + n];
      CommittingPrefix(history + b.txs, |history| + n);
      if i > 0 {
        BlockInputsLive(s, b, i, h);
      }
      NewId(past, live, if i == 0 then s.tip else h, tx);
      StaysSettled(past, live, if i == 0 then s.tip else h, tx, h);
    }
  }

  lemma GenesisSettled(terms: Terms, g: Transaction)
    requires ValidGenesis(terms, g)
    ensures Settled([g], Origin(g).coins, 0)
  {
    CoinsAre(g, |g.outputs|, 0, true);
    assert [g][0] == g;
    assert g.txid in Ids([g]);
  }

  /** Along every accepted run whose ids commit to their inputs, no id repeats
      and coins spent stay spent. */
  lemma {:induction false} RunSettled(terms: Terms, g: Transaction, blocks: seq<Block>, n: nat)
    requires ValidRun(terms, g, blocks) && n <= |blocks|
    requires Committing(History(g, blocks, n))
    ensures Settled(History(g, blocks, n), StateAfter(g, blocks, n).coins, n)
  {
    hide Accepts, Settled, Committing, Extend, Origin, ValidRun, ValidGenesis;
    if n == 0 {
      RunOrigin(terms, g, blocks);
      GenesisSettled(terms, g);
    } else {
      var past, b := History(g, blocks, n - 1), blocks[n - 1];
      assert History(g, blocks, n)[..|past|] == past;
      CommittingPrefix(History(g, blocks, n), |past|);
      RunSettled(terms, g, blocks, n - 1);
      RunStep(terms, g, blocks, n - 1);
      ClaimsStayBelowTip(terms, g, blocks, n - 1);
      var s := StateAfter(g, blocks, n - 1);
      AcceptedShape(terms, s, b);
      BlockSettles(terms, past, s, b, |b.txs|);
      assert b.txs[..|b.txs|] == b.txs;
    }
  }

  /** No transaction id repeats along an accepted run. */
  lemma TxidsNeverRepeat(terms: Terms, g: Transaction, blocks: seq<Block>)
    requires ValidRun(terms, g, blocks)
    requires Committing(History(g, blocks, |blocks|))
    ensures Distinct(History(g, blocks, |blocks|))
  {
    hide ValidRun, Committing;
    RunSettled(terms, g, blocks, |blocks|);
  }
}
