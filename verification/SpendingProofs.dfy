/** Read-only resolution and in-place application speak of the same coins, and
    what a block leaves is worth no more than what it found. */
module SpendingProofs {
  import opened Prelude
  import opened Transactions
  import opened Markers
  import opened Ledger

  /** Off the outpoints already spent in the block, the walk's view of the
      coins is the live set. */
  ghost predicate Agrees(w: Walk, u: Utxo, live: Utxo)
  {
    forall k :: k !in w.spentHere ==> Lookup(w, u, k) == if k in live then Some(live[k]) else None
  }

  /** A taken coin as the walk reports it. */
  function Shown(takes: seq<Take>): seq<(nat, nat, TxOut)>
  {
    seq(|takes|, i requires 0 <= i < |takes| => (takes[i].tx, takes[i].input, takes[i].coin.output))
  }

  /** One input. */
  lemma InputAgrees(iw: InputWalk, u: Utxo, live: Utxo, tx: Transaction, ti: nat, ii: nat, height: u32)
    requires ii < |tx.inputs|
    requires Agrees(iw.w, u, live)
    requires iw.valuesOk
    requires ResolveInput(iw, u, tx, ti, ii, height).w.s.missing == []
    ensures var next := ResolveInput(iw, u, tx, ti, ii, height);
            var key := tx.inputs[ii].prev;
            && key in live
            && Agrees(next.w, u, live - {key})
            && iw.w.s.missing == []
            && next.valuesOk
            && next.w.createdHere == iw.w.createdHere
            && next.w.s.fees == iw.w.s.fees
            && next.w.s.deficits == iw.w.s.deficits
            && next.w.s.resolved == iw.w.s.resolved + [(ti, ii, live[key].output)]
            && next.inSum <= iw.inSum + live[key].output.value
            && Premature(live[key], height) == (next.w.s.premature != iw.w.s.premature)
            && (SequenceLock(tx.version, tx.inputs[ii].sequence, Some(live[key].height), height).LockViolated?
                == (next.w.s.lockViolations != iw.w.s.lockViolations))
  {
    assert tx.inputs[ii].prev !in iw.w.spentHere;
  }

  /** The missing, premature and violating inputs only accumulate. */
  lemma InputOnlyAdds(iw: InputWalk, u: Utxo, tx: Transaction, ti: nat, ii: nat, height: u32)
    requires ii < |tx.inputs|
    ensures var s, t := iw.w.s, ResolveInput(iw, u, tx, ti, ii, height).w.s;
            s.missing <= t.missing && s.premature <= t.premature && s.lockViolations <= t.lockViolations
  {
  }

  lemma {:induction false} InputsOnlyAdd(w: Walk, u: Utxo, tx: Transaction, ti: nat, m: nat, n: nat, height: u32)
    requires m <= n <= |tx.inputs|
    ensures var s := ResolveInputs(w, u, tx, ti, m, height).w.s;
            var t := ResolveInputs(w, u, tx, ti, n, height).w.s;
            s.missing <= t.missing && s.premature <= t.premature && s.lockViolations <= t.lockViolations
  {
    hide ResolveInput;
    if m < n {
      InputsOnlyAdd(w, u, tx, ti, m, n - 1, height);
      InputOnlyAdds(ResolveInputs(w, u, tx, ti, n - 1, height), u, tx, ti, n - 1, height);
    }
  }

  /** All of a transaction's inputs. */
  lemma {:induction false} InputsAgree(w: Walk, u: Utxo, live: Utxo, tx: Transaction, ti: nat, n: nat, height: u32)
    requires n <= |tx.inputs|
    requires Agrees(w, u, live)
    requires ResolveInputs(w, u, tx, ti, n, height).w.s.missing == []
    ensures var iw := ResolveInputs(w, u, tx, ti, n, height);
            && Agrees(iw.w, u, SpendUpTo(live, tx, n))
            && iw.valuesOk
            && iw.w.createdHere == w.createdHere
            && iw.w.s.fees == w.s.fees
            && iw.w.s.deficits == w.s.deficits
            && |TakenByInputs(live, tx, ti, n)| == n
            && iw.w.s.resolved == w.s.resolved + Shown(TakenByInputs(live, tx, ti, n))
            && iw.inSum + Worth(SpendUpTo(live, tx, n)) <= Worth(live)
  {
    hide ResolveInput, Lookup, SequenceLock, Premature;
    if n > 0 {
      InputsOnlyAdd(w, u, tx, ti, n - 1, n, height);
      InputsAgree(w, u, live, tx, ti, n - 1, height);
      var iw := ResolveInputs(w, u, tx, ti, n - 1, height);
      var mid := SpendUpTo(live, tx, n - 1);
      InputAgrees(iw, u, mid, tx, ti, n - 1, height);
      WorthWithout(mid, tx.inputs[n - 1].prev);
      var before, now := TakenByInputs(live, tx, ti, n - 1), TakenByInputs(live, tx, ti, n);
      assert Shown(now) == Shown(before) + [(ti, n - 1, mid[tx.inputs[n - 1].prev].output)];
    }
  }

  /** Settling a fee books at most what the inputs hold over the outputs. */
  lemma SettleBooks(iw: InputWalk, tx: Transaction)
    ensures var s := Settle(iw, tx);
            && s.missing == iw.w.s.missing && s.premature == iw.w.s.premature
            && s.lockViolations == iw.w.s.lockViolations && s.resolved == iw.w.s.resolved
            && (iw.valuesOk && s.deficits == [] ==>
                  && iw.w.s.deficits == []
                  && s.fees + OutTotal(tx.outputs, |tx.outputs|) <= iw.w.s.fees + iw.inSum)
  {
  }

  /** The walk after a transaction whose inputs have been resolved. */
  function Finish(iw: InputWalk, tx: Transaction, height: u32): Walk
  {
    Walk(Settle(iw, tx), iw.w.spentHere, iw.w.createdHere + CoinsOf(tx, height, false))
  }

  lemma TxIsInputsThenFinish(w: Walk, u: Utxo, tx: Transaction, ti: nat, height: u32)
    requires ti > 0
    ensures ResolveTx(w, u, tx, ti, height) == Finish(ResolveInputs(w, u, tx, ti, |tx.inputs|, height), tx, height)
  {
  }

  lemma FinishAgrees(iw: InputWalk, u: Utxo, spent: Utxo, tx: Transaction, height: u32)
    requires Agrees(iw.w, u, spent)
    ensures Agrees(Finish(iw, tx, height), u, spent + CoinsOf(tx, height, false))
  {
  }

  lemma FinishConserves(iw: InputWalk, spent: Utxo, tx: Transaction, height: u32)
    requires iw.valuesOk && Settle(iw, tx).deficits == []
    ensures iw.w.s.deficits == []
    ensures Settle(iw, tx).fees + Worth(spent + CoinsOf(tx, height, false)) + OpReturnTotal(tx.outputs, |tx.outputs|)
            <= iw.w.s.fees + iw.inSum + Worth(spent)
  {
    SettleBooks(iw, tx);
    WorthOfUnion(spent, CoinsOf(tx, height, false));
    CoinsWorth(tx, |tx.outputs|, height, false);
    OutTotalSplits(tx.outputs, |tx.outputs|);
  }

  /** A transaction of the block, at any position after the coinbase. */
  lemma TxAgrees(w: Walk, u: Utxo, live: Utxo, tx: Transaction, ti: nat, height: u32)
    requires ti > 0
    requires Agrees(w, u, live)
    requires ResolveTx(w, u, tx, ti, height).s.missing == []
    ensures var next := ResolveTx(w, u, tx, ti, height);
            && Agrees(next, u, ApplyTx(live, tx, height, false))
            && |TakenByInputs(live, tx, ti, |tx.inputs|)| == |tx.inputs|
            && next.s.resolved == w.s.resolved + Shown(TakenByInputs(live, tx, ti, |tx.inputs|))
            && (next.s.deficits == [] ==>
                  && w.s.deficits == []
                  && next.s.fees + Worth(ApplyTx(live, tx, height, false)) + OpReturnTotal(tx.outputs, |tx.outputs|)
                     <= w.s.fees + Worth(live))
  {
    hide Settle, Lookup;
    var n := |tx.inputs|;
    TxIsInputsThenFinish(w, u, tx, ti, height);
    var iw := ResolveInputs(w, u, tx, ti, n, height);
    SettleBooks(iw, tx);
    InputsAgree(w, u, live, tx, ti, n, height);
    FinishAgrees(iw, u, SpendUpTo(live, tx, n), tx, height);
    if Settle(iw, tx).deficits == [] {
      FinishConserves(iw, SpendUpTo(live, tx, n), tx, height);
    }
  }

  /** Resolving more of the block only adds to what is missing, premature or
      in violation. */
  lemma {:induction false} TxsOnlyAdd(u: Utxo, txs: seq<Transaction>, m: nat, n: nat, height: u32)
    requires m <= n <= |txs|
    ensures var s, t := ResolveTxs(u, txs, m, height).s, ResolveTxs(u, txs, n, height).s;
            s.missing <= t.missing && s.premature <= t.premature && s.lockViolations <= t.lockViolations
  {
    hide Settle;
    if m < n {
      TxsOnlyAdd(u, txs, m, n - 1, height);
      var w, tx := ResolveTxs(u, txs, n - 1, height), txs[n - 1];
      if n - 1 > 0 {
        TxIsInputsThenFinish(w, u, tx, n - 1, height);
        SettleBooks(ResolveInputs(w, u, tx, n - 1, |tx.inputs|, height), tx);
        InputsOnlyAdd(w, u, tx, n - 1, 0, |tx.inputs|, height);
      }
    }
  }

  lemma {:induction false} ShownConcat(a: seq<Take>, b: seq<Take>)
    ensures Shown(a + b) == Shown(a) + Shown(b)
  {
  }

  lemma CoinbaseAgrees(u: Utxo, txs: seq<Transaction>, height: u32)
    requires 1 <= |txs|
    ensures ResolveTxs(u, txs, 1, height).s == NOTHING_SPENT
    ensures Agrees(ResolveTxs(u, txs, 1, height), u, ApplyTxs(u, txs, 1, height))
  {
    assert ResolveTxs(u, txs, 0, height) == Walk(NOTHING_SPENT, {}, map[]);
    assert ApplyTxs(u, txs, 0, height) == u;
  }

  /** Every prefix of the block: the walk agrees with the live set. */
  lemma {:induction false} TxsAgree(u: Utxo, txs: seq<Transaction>, n: nat, height: u32)
    requires n <= |txs|
    requires ResolveTxs(u, txs, n, height).s.missing == []
    ensures Agrees(ResolveTxs(u, txs, n, height), u, ApplyTxs(u, txs, n, height))
    ensures |Taken(u, txs, n, height)| == InputCount(txs, n)
    ensures ResolveTxs(u, txs, n, height).s.resolved == Shown(Taken(u, txs, n, height))
  {
    hide ResolveTx, ApplyTx;
    if n > 0 {
      TxsOnlyAdd(u, txs, n - 1, n, height);
      TxsAgree(u, txs, n - 1, height);
      var w, live := ResolveTxs(u, txs, n - 1, height), ApplyTxs(u, txs, n - 1, height);
      var tx := txs[n - 1];
      if n == 1 {
        CoinbaseAgrees(u, txs, height);
      } else {
        TxAgrees(w, u, live, tx, n - 1, height);
        ShownConcat(Taken(u, txs, n - 1, height), TakenByInputs(live, tx, n - 1, |tx.inputs|));
      }
    }
  }

  /** Read-only resolution agrees with mutation. When nothing is missing, the
      coins validation attributes to the block's inputs are, one for one and in
      order, the coins applying the block removes at that moment, in-block
      chains included; and every input after the coinbase removes one. */
  lemma ResolutionAgreesWithApplication(u: Utxo, txs: seq<Transaction>, height: u32)
    requires Resolution(u, txs, height).missing == []
    ensures Resolution(u, txs, height).resolved == Shown(Taken(u, txs, |txs|, height))
    ensures |Taken(u, txs, |txs|, height)| == InputCount(txs, |txs|)
  {
    TxsAgree(u, txs, |txs|, height);
  }

  /** The total of the outputs after the coinbase that are not coins. */
  function Destroyed(txs: seq<Transaction>, n: nat): nat
    requires n <= |txs|
  {
    if n <= 1 then 0 else Destroyed(txs, n - 1) + OpReturnTotal(txs[n - 1].outputs, |txs[n - 1].outputs|)
  }

  lemma CoinbaseConserves(u: Utxo, txs: seq<Transaction>, height: u32)
    requires 1 <= |txs|
    ensures ResolveTxs(u, txs, 1, height).s == NOTHING_SPENT
    ensures Worth(ApplyTxs(u, txs, 1, height)) <= Worth(u) + CoinTotal(txs[0].outputs, |txs[0].outputs|)
  {
    assert ResolveTxs(u, txs, 0, height).s == NOTHING_SPENT;
    assert ApplyTxs(u, txs, 0, height) == u;
    WorthOfUnion(u, CoinsOf(txs[0], height, true));
    CoinsWorth(txs[0], |txs[0].outputs|, height, true);
  }

  /** A block that misses no coin and overspends nowhere leaves at most what it
      found, plus the coinbase's coins, less its fees and what it destroys. */
  lemma {:induction false} BlockConserves(u: Utxo, txs: seq<Transaction>, n: nat, height: u32)
    requires 1 <= n <= |txs|
    requires ResolveTxs(u, txs, n, height).s.missing == []
    requires ResolveTxs(u, txs, n, height).s.deficits == []
    ensures Worth(ApplyTxs(u, txs, n, height)) + ResolveTxs(u, txs, n, height).s.fees + Destroyed(txs, n)
            <= Worth(u) + CoinTotal(txs[0].outputs, |txs[0].outputs|)
  {
    hide ResolveTx, ApplyTx;
    if n == 1 {
      CoinbaseConserves(u, txs, height);
    } else {
      TxsOnlyAdd(u, txs, n - 1, n, height);
      TxsAgree(u, txs, n - 1, height);
      TxAgrees(ResolveTxs(u, txs, n - 1, height), u, ApplyTxs(u, txs, n - 1, height), txs[n - 1], n - 1, height);
      BlockConserves(u, txs, n - 1, height);
    }
  }

  /** The coin input `ii` of transaction `ti` removes when the block is applied. */
  function TakenAt(u: Utxo, txs: seq<Transaction>, ti: nat, ii: nat, height: u32): Option<Coin>
    requires ti < |txs| && ii < |txs[ti].inputs|
  {
    var live := SpendUpTo(ApplyTxs(u, txs, ti, height), txs[ti], ii);
    var key := txs[ti].inputs[ii].prev;
    if key in live then Some(live[key]) else None
  }

  /** In a block that misses nothing and violates no relative lock, each input
      removes a coin that its sequence allows at this height. */
  lemma EachInputUnlocked(u: Utxo, txs: seq<Transaction>, ti: nat, ii: nat, height: u32)
    requires 0 < ti < |txs| && ii < |txs[ti].inputs|
    requires Resolution(u, txs, height).missing == []
    requires Resolution(u, txs, height).lockViolations == []
    requires Resolution(u, txs, height).premature == []
    ensures TakenAt(u, txs, ti, ii, height).Some?
    ensures var c := TakenAt(u, txs, ti, ii, height).value;
            && !SequenceLock(txs[ti].version, txs[ti].inputs[ii].sequence, Some(c.height), height).LockViolated?
            && !Premature(c, height)
  {
    hide ResolveInput, Lookup, SequenceLock, Premature;
    var tx := txs[ti];
    TxsOnlyAdd(u, txs, ti, |txs|, height);
    TxsOnlyAdd(u, txs, ti + 1, |txs|, height);
    TxsAgree(u, txs, ti, height);
    var w, live := ResolveTxs(u, txs, ti, height), ApplyTxs(u, txs, ti, height);
    InputsOnlyAdd(w, u, tx, ti, ii, |tx.inputs|, height);
    InputsOnlyAdd(w, u, tx, ti, ii + 1, |tx.inputs|, height);
    InputsAgree(w, u, live, tx, ti, ii, height);
    InputAgrees(ResolveInputs(w, u, tx, ti, ii, height), u, SpendUpTo(live, tx, ii), tx, ti, ii, height);
  }
}
