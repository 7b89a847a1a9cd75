/** The burns a chain has recorded (sidestr-core/src/rules.rs, state.rs): over every
    accepted run, exactly the burn outputs of its transactions, each with its script,
    its value and the height of its block, from that block on. */
module Burns {
  import opened Prelude
  import opened Transactions
  import opened Markers
  import opened Ledger
  import opened Chain
  import opened Runs

  /** Output `v` of transaction `t` of block `i`, not a coinbase, is a burn. */
  predicate BurnAt(blocks: seq<Block>, i: nat, t: nat, v: nat, o: OutPoint, burn: Burn)
  {
    && i < |blocks| && 0 < t < |blocks[i].txs| && v < |blocks[i].txs[t].outputs|
    && o == OutPoint(blocks[i].txs[t].txid, v)
    && BurnOf(blocks[i].txs[t].outputs[v], burn)
    && burn.height == i + 1
  }

  /** The output's script reads as a burn of `burn`'s script, and it is worth its value. */
  predicate BurnOf(o: TxOut, burn: Burn)
  {
    ParsePegout(o.script) == Some(burn.script) && burn.value == o.value
  }

  ghost predicate BurnBy(blocks: seq<Block>, n: nat, o: OutPoint, burn: Burn)
  {
    exists i: nat, t: nat, v: nat :: i < n && BurnAt(blocks, i, t, v, o, burn)
  }

  /** A map of burns holds this one at this outpoint. */
  predicate Has(burns: map<OutPoint, Burn>, o: OutPoint, burn: Burn) { o in burns && burns[o] == burn }

  // --- one block ---------------------------------------------------------------------------------

  lemma {:induction false} TxBurnsAre(tx: Transaction, n: nat, height: u32, o: OutPoint, burn: Burn)
    requires n <= |tx.outputs|
    ensures Has(BurnsUpTo(tx, n, height), o, burn) <==>
              o.txid == tx.txid && o.vout < n && BurnOf(tx.outputs[o.vout], burn) && burn.height == height
    ensures o in BurnsUpTo(tx, n, height) ==> o.txid == tx.txid
  {
    hide ParsePegout;
    if n > 0 {
      TxBurnsAre(tx, n - 1, height, o, burn);
    }
  }

  /** Transaction `t` of the first `n`, not the coinbase, makes this burn. */
  predicate BurnIn(txs: seq<Transaction>, n: nat, t: nat, o: OutPoint, burn: Burn)
    requires n <= |txs|
  {
    0 < t < n && o.txid == txs[t].txid && o.vout < |txs[t].outputs| && BurnOf(txs[t].outputs[o.vout], burn)
  }

  ghost predicate BurnInAny(txs: seq<Transaction>, n: nat, o: OutPoint, burn: Burn)
    requires n <= |txs|
  {
    exists t: nat :: BurnIn(txs, n, t, o, burn)
  }

  predicate DistinctIds(txs: seq<Transaction>) { forall i, j :: 0 <= i < j < |txs| ==> txs[i].txid != txs[j].txid }

  lemma {:induction false} BlockBurnsAre(txs: seq<Transaction>, n: nat, height: u32, o: OutPoint, burn: Burn)
    requires n <= |txs| && DistinctIds(txs)
    ensures Has(BlockBurns(txs, n, height), o, burn) <==> BurnInAny(txs, n, o, burn) && burn.height == height
    ensures o in BlockBurns(txs, n, height) ==> exists t :: 0 < t < n && txs[t].txid == o.txid
  {
    hide BurnOf, BurnsUpTo;
    if n > 1 {
      BlockBurnsAre(txs, n - 1, height, o, burn);
      TxBurnsAre(txs[n - 1], |txs[n - 1].outputs|, height, o, burn);
      if BurnInAny(txs, n - 1, o, burn) {
        var t: nat :| BurnIn(txs, n - 1, t, o, burn);
        assert BurnIn(txs, n, t, o, burn);
      }
      if BurnInAny(txs, n, o, burn) {
        var t: nat :| BurnIn(txs, n, t, o, burn);
        if t < n - 1 {
          assert BurnIn(txs, n - 1, t, o, burn);
          assert txs[t].txid != txs[n - 1].txid;
        }
      }
      if Has(BurnsUpTo(txs[n - 1], |txs[n - 1].outputs|, height), o, burn) {
        assert BurnIn(txs, n, n - 1, o, burn);
      }
    }
  }

  /** What an accepted block records of its burns. */
  lemma BurnStep(terms: Terms, s: State, b: Block)
    requires Accepts(terms, s, b)
    ensures |b.txs| > 0 && s.tip + 1 <= U32_MAX && DistinctIds(b.txs)
    ensures Extend(s, b).records.pegouts == s.records.pegouts + BlockBurns(b.txs, |b.txs|, s.tip + 1)
  {
    hide ApplyTxs, BlockBurns, ContextOk, ValidTx;
  }

  /** None of them was recorded at another height. */
  lemma BurnNew(terms: Terms, s: State, b: Block, o: OutPoint, burn: Burn)
    requires Accepts(terms, s, b) && |b.txs| > 0 && BurnInAny(b.txs, |b.txs|, o, burn) && o in s.records.pegouts
    ensures s.records.pegouts[o].height == s.tip + 1
  {
    hide Resolution, Finality, Bip34Height, CoinbaseAmountOk, ClaimsOk, LooksLikePegout, ParsePegout, ValidTx;
    var t: nat :| BurnIn(b.txs, |b.txs|, t, o, burn);
    MarkersAreOpReturns(b.txs[t].outputs[o.vout].script);
    assert BurnOk(terms, s.records, b.txs[t], o.vout, s.tip + 1);
    assert o == OutPoint(b.txs[t].txid, o.vout);
  }

  // --- whole runs ----------------------------------------------------------------------------------

  /** Recorded burns are those of the first `n` blocks, none above the tip. */
  ghost predicate RecordsAre(r: Records, blocks: seq<Block>, n: nat)
  {
    && (forall o, burn :: Has(r.pegouts, o, burn) <==> BurnBy(blocks, n, o, burn))
    && forall o :: o in r.pegouts ==> r.pegouts[o].height <= n
  }

  /** The recorded burns, exactly, in every state of every run: an outpoint is recorded
      as a burn if and only if it is an output of a transaction of an earlier block, not
      a coinbase, that reads as that burn; with that output's value and that block's
      height. So a burn once recorded stays, unchanged. */
  lemma {:induction false} BurnsRecorded(terms: Terms, g: Transaction, blocks: seq<Block>, n: nat)
    requires ValidRun(terms, g, blocks) && n <= |blocks|
    ensures RecordsAre(StateAfter(g, blocks, n).records, blocks, n)
  {
    hide Accepts, Extend, ValidRun, BlockBurns, BurnBy, Has, DistinctIds;
    if n == 0 {
      NothingBurned(g, blocks);
    } else {
      BurnsRecorded(terms, g, blocks, n - 1);
      var next := StateAfter(g, blocks, n).records;
      forall o, burn
        ensures Has(next.pegouts, o, burn) <==> BurnBy(blocks, n, o, burn)
      {
        OneMoreBlock(terms, g, blocks, n, o, burn);
      }
      forall o | o in next.pegouts
        ensures next.pegouts[o].height <= n
      {
        assert Has(next.pegouts, o, next.pegouts[o]) by { HasIts(next.pegouts, o); }
        BurnHeight(blocks, n, o, next.pegouts[o]);
      }
    }
  }

  lemma HasIts(burns: map<OutPoint, Burn>, o: OutPoint)
    requires o in burns
    ensures Has(burns, o, burns[o])
  {
  }

  lemma NothingBurned(g: Transaction, blocks: seq<Block>)
    ensures StateAfter(g, blocks, 0).records.pegouts == map[]
    ensures forall o, burn :: !Has(map[], o, burn) && !BurnBy(blocks, 0, o, burn)
  {
  }

  lemma BurnHeight(blocks: seq<Block>, n: nat, o: OutPoint, burn: Burn)
    requires BurnBy(blocks, n, o, burn)
    ensures burn.height <= n
  {
    hide BurnOf;
  }

  /** A block's burns, as places of the run. */
  lemma BurnPlaces(blocks: seq<Block>, n: nat, o: OutPoint, burn: Burn)
    requires 0 < n <= |blocks|
    ensures BurnBy(blocks, n, o, burn) <==>
              || BurnBy(blocks, n - 1, o, burn)
              || (BurnInAny(blocks[n - 1].txs, |blocks[n - 1].txs|, o, burn) && burn.height == n)
  {
    hide BurnOf;
    var txs := blocks[n - 1].txs;
    if BurnInAny(txs, |txs|, o, burn) && burn.height == n {
      var t: nat :| BurnIn(txs, |txs|, t, o, burn);
      assert BurnAt(blocks, n - 1, t, o.vout, o, burn);
    }
    if BurnBy(blocks, n - 1, o, burn) {
      var i: nat, t: nat, v: nat :| i < n - 1 && BurnAt(blocks, i, t, v, o, burn);
      assert i < n && BurnAt(blocks, i, t, v, o, burn);
    }
    if BurnBy(blocks, n, o, burn) {
      var i: nat, t: nat, v: nat :| i < n && BurnAt(blocks, i, t, v, o, burn);
      if i == n - 1 {
        assert BurnIn(txs, |txs|, t, o, burn);
      } else {
        assert i < n - 1 && BurnAt(blocks, i, t, v, o, burn);
      }
    }
  }

  lemma OneMoreBlock(terms: Terms, g: Transaction, blocks: seq<Block>, n: nat, o: OutPoint, burn: Burn)
    requires ValidRun(terms, g, blocks) && 0 < n <= |blocks|
    requires RecordsAre(StateAfter(g, blocks, n - 1).records, blocks, n - 1)
    ensures Has(StateAfter(g, blocks, n).records.pegouts, o, burn) <==> BurnBy(blocks, n, o, burn)
  {
    hide Accepts, Extend, ValidRun, BlockBurns, BurnBy, BurnInAny, DistinctIds;
    ClaimsStayBelowTip(terms, g, blocks, n - 1);
    RunStep(terms, g, blocks, n - 1);
    var s, b := StateAfter(g, blocks, n - 1), blocks[n - 1];
    BurnStep(terms, s, b);
    BlockBurnsAre(b.txs, |b.txs|, n, o, burn);
    BurnPlaces(blocks, n, o, burn);
    var last := BlockBurns(b.txs, |b.txs|, n);
    if o in last {
      BlockBurnsAre(b.txs, |b.txs|, n, o, last[o]);
      if o in s.records.pegouts {
        BurnNew(terms, s, b, o, last[o]);
      }
    }
  }
}
