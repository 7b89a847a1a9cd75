/** The rules a block must meet, each said as what it asks (sidestr-core/src/rules.rs):
    a block extends a chain exactly when it meets them all. */
module BlockRules {
  import opened Prelude
  import opened Transactions
  import opened Markers
  import opened Ledger
  import opened SpendingExact
  import opened Chain

  // --- transactions ---------------------------------------------------------------------------------

  predicate NullInput(i: TxIn) { i.prev.txid == Hash(0) }

  /** Exactly one input, the null outpoint. */
  predicate CoinbaseShaped(tx: Transaction) { |tx.inputs| == 1 && tx.inputs[0].prev == OutPoint(Hash(0), 0xffff_ffff) }

  /** Inputs and outputs, no outpoint spent twice, at most 21 million coins out; a coinbase
      has one null input whose script has 2 to 100 bytes, another spends no null id. */
  predicate Shaped(tx: Transaction, first: bool)
  {
    && |tx.inputs| > 0 && |tx.outputs| > 0
    && OutTotal(tx.outputs, |tx.outputs|) <= 21_000_000 * 100_000_000
    && (forall i, j :: 0 <= i < j < |tx.inputs| ==> tx.inputs[i].prev != tx.inputs[j].prev)
    && (if first then CoinbaseShaped(tx) && 2 <= |tx.inputs[0].scriptSig| <= 100
        else forall i :: 0 <= i < |tx.inputs| ==> !NullInput(tx.inputs[i]))
  }

  predicate WellFormed(txs: seq<Transaction>)
  {
    && |txs| > 0
    && (forall i, j :: 0 <= i < j < |txs| ==> txs[i].txid != txs[j].txid)
    && (forall i :: 0 <= i < |txs| ==> Shaped(txs[i], i == 0))
  }

  lemma ShapedIs(tx: Transaction, first: bool)
    ensures ValidTx(tx, first) == Shaped(tx, first)
    ensures IsCoinbase(tx) == CoinbaseShaped(tx)
    ensures Shaped(tx, first) ==> CoinbaseShaped(tx) == first
  {
  }

  lemma StructureIs(txs: seq<Transaction>)
    ensures ValidStructure(txs) == WellFormed(txs)
  {
    hide ValidTx, Shaped, IsCoinbase, CoinbaseShaped;
    forall i | 0 <= i < |txs|
      ensures ValidTx(txs[i], i == 0) == Shaped(txs[i], i == 0)
      ensures Shaped(txs[i], i == 0) ==> IsCoinbase(txs[i]) == (i == 0)
    {
      ShapedIs(txs[i], i == 0);
    }
  }

  // --- when -------------------------------------------------------------------------------------------

  /** `nLockTime`: nothing, or every sequence final, or a height below the block's, or,
      from 500 million on, a time below the median when one is known. */
  predicate Timely(tx: Transaction, height: u32, mtp: Option<u32>)
  {
    || tx.lockTime == 0
    || (forall i :: 0 <= i < |tx.inputs| ==> tx.inputs[i].sequence == 0xffff_ffff)
    || (tx.lockTime < 500_000_000 && tx.lockTime < height)
    || (tx.lockTime >= 500_000_000 && (mtp.None? || tx.lockTime < mtp.value))
  }

  lemma TimelyIs(tx: Transaction, height: u32, mtp: Option<u32>)
    ensures !Finality(tx, height, mtp).LockViolated? <==> Timely(tx, height, mtp)
    ensures Finality(tx, height, mtp).LockUnknown? <==>
              && tx.lockTime >= 500_000_000 && mtp.None?
              && exists i :: 0 <= i < |tx.inputs| && tx.inputs[i].sequence != 0xffff_ffff
  {
  }

  // --- what the coinbase may pay ------------------------------------------------------------------------

  /** Every claim marker follows its payout, and the outputs are worth at most the subsidy,
      the fees and what the claims pay, without a cap on any sum. */
  ghost predicate PaysWithin(coinbase: Transaction, subsidy: nat, fees: nat)
  {
    && (forall i: nat :: !StrayAt(coinbase.outputs, |coinbase.outputs|, i))
    && OutTotal(coinbase.outputs, |coinbase.outputs|) <= subsidy + fees + PaidOut(Claims(coinbase))
  }

  /** The amount rule, exactly, for a coinbase whose outputs sum to 64 bits: saturating
      the fees refuses nothing more. */
  lemma CoinbaseAmountExact(coinbase: Transaction, subsidy: u64, fees: nat)
    requires OutTotal(coinbase.outputs, |coinbase.outputs|) <= U64_MAX
    ensures CoinbaseAmountOk(coinbase, subsidy, Saturate(fees)) <==> PaysWithin(coinbase, subsidy, fees)
  {
    hide ClaimsUpTo, PaidOut, StrayAt, CoinTotal;
    var n := |coinbase.outputs|;
    NoStrays(coinbase);
    PayoutsWithinCoins(coinbase.outputs, n);
    OutTotalSplits(coinbase.outputs, n);
    if n > 0 {
      CoinsGrow(coinbase.outputs, n - 1, n);
    }
  }

  lemma NoStrays(coinbase: Transaction)
    ensures StrayMarkers(coinbase) == [] <==> forall i: nat :: !StrayAt(coinbase.outputs, |coinbase.outputs|, i)
  {
    hide StrayAt;
    StraysExact(coinbase.outputs, |coinbase.outputs|);
    if StrayMarkers(coinbase) != [] {
      assert StrayMarkers(coinbase)[0] in StrayMarkers(coinbase);
    }
  }

  lemma {:induction false} CoinsGrow(outputs: seq<TxOut>, m: nat, n: nat)
    requires m <= n <= |outputs|
    ensures CoinTotal(outputs, m) <= CoinTotal(outputs, n)
  {
    if m < n {
      CoinsGrow(outputs, m, n - 1);
    }
  }

  // --- burns and claims -----------------------------------------------------------------------------------

  /** An output whose marker starts `pegout:` is a burn of at least the least amount, and
      is not recorded at another height. */
  predicate BurnAllowed(terms: Terms, r: Records, tx: Transaction, v: nat, height: u32)
    requires v < |tx.outputs|
  {
    PegoutPrefixed(tx.outputs[v].script) ==>
      && ParsePegout(tx.outputs[v].script).Some? && tx.outputs[v].value >= terms.pegoutMin
      && (OutPoint(tx.txid, v) in r.pegouts ==> r.pegouts[OutPoint(tx.txid, v)].height == height)
  }

  /** A marker whose text, a byte-order mark aside, starts `pegout:`. */
  predicate PegoutPrefixed(spk: Script)
  {
    var d := OpReturnData(spk);
    && d.Some?
    && (|| [112, 101, 103, 111, 117, 116, 58] <= d.value
        || [0xef, 0xbb, 0xbf, 112, 101, 103, 111, 117, 116, 58] <= d.value)
  }

  lemma PrefixedIs(spk: Script)
    ensures LooksLikePegout(spk) == PegoutPrefixed(spk)
  {
    hide OpReturnData;
    var d := OpReturnData(spk);
    if d.Some? {
      if BOM <= d.value {
        assert d.value == BOM + d.value[3..];
        assert d.value[0] == 0xef;
        assert PEGOUT <= d.value[3..] <==> BOM + PEGOUT <= d.value;
      }
      assert BOM + PEGOUT == [0xef, 0xbb, 0xbf, 112, 101, 103, 111, 117, 116, 58];
      assert BOM + PEGOUT <= d.value ==> BOM <= d.value;
    }
  }

  /** No burn in the coinbase, and every other one allowed. */
  predicate BurnsAllowed(terms: Terms, r: Records, txs: seq<Transaction>, height: u32)
    requires |txs| > 0
  {
    && (forall v :: 0 <= v < |txs[0].outputs| ==> ParsePegout(txs[0].outputs[v].script) == None)
    && (forall i, v :: 0 < i < |txs| && 0 <= v < |txs[i].outputs| ==> BurnAllowed(terms, r, txs[i], v, height))
  }

  lemma BurnIs(terms: Terms, r: Records, tx: Transaction, v: nat, height: u32)
    requires v < |tx.outputs|
    ensures BurnOk(terms, r, tx, v, height) == BurnAllowed(terms, r, tx, v, height)
  {
    hide LooksLikePegout, ParsePegout, PegoutPrefixed;
    PrefixedIs(tx.outputs[v].script);
  }

  lemma BurnsAre(terms: Terms, r: Records, txs: seq<Transaction>, height: u32)
    requires |txs| > 0
    ensures PegoutsOk(terms, r, txs, height) == BurnsAllowed(terms, r, txs, height)
  {
    hide BurnOk, BurnAllowed, ParsePegout;
    forall i, v | 0 < i < |txs| && 0 <= v < |txs[i].outputs|
      ensures BurnOk(terms, r, txs[i], v, height) == BurnAllowed(terms, r, txs[i], v, height)
    {
      BurnIs(terms, r, txs[i], v, height);
    }
  }

  /** The claims name different parent outputs, none recorded at another height. */
  predicate ClaimsAllowed(r: Records, coinbase: Transaction, height: u32)
  {
    && (forall i, j :: 0 <= i < j < |Claims(coinbase)| ==> Claims(coinbase)[i].parent != Claims(coinbase)[j].parent)
    && (forall i :: 0 <= i < |Claims(coinbase)| && Claims(coinbase)[i].parent in r.claims ==>
          r.claims[Claims(coinbase)[i].parent] == height)
  }

  lemma ClaimsIs(r: Records, coinbase: Transaction, height: u32)
    ensures ClaimsOk(r, coinbase, height)
            <==> (forall i: nat :: !StrayAt(coinbase.outputs, |coinbase.outputs|, i)) && ClaimsAllowed(r, coinbase, height)
  {
    hide StrayAt, ClaimsUpTo;
    NoStrays(coinbase);
    var claims := Claims(coinbase);
    if ClaimsAllowed(r, coinbase, height) {
      forall c | c in claims && c.parent in r.claims
        ensures r.claims[c.parent] == height
      {
        var i :| 0 <= i < |claims| && claims[i] == c;
      }
    }
    if forall c :: c in claims && c.parent in r.claims ==> r.claims[c.parent] == height {
      forall i | 0 <= i < |claims| && claims[i].parent in r.claims
        ensures r.claims[claims[i].parent] == height
      {
        assert claims[i] in claims;
      }
    }
  }

  // --- the whole block ---------------------------------------------------------------------------------------

  /** Every modelled rule at this height, as what it asks: shape, height, locks, every
      input's coin live, old enough and unlocked, every transaction paid for, the
      coinbase within fees and claims, the burns and the claims. */
  ghost predicate Meets(terms: Terms, s: State, b: Block, height: u32)
  {
    && WellFormed(b.txs)
    && Bip34Height(b.txs[0]) == Some(height)
    && (forall i :: 0 <= i < |b.txs| ==> Timely(b.txs[i], height, b.mtp))
    && AllTake(s.coins, b.txs, |b.txs|, height)
    && AllMature(s.coins, b.txs, |b.txs|, height)
    && AllUnlocked(s.coins, b.txs, |b.txs|, height)
    && AllPay(s.coins, b.txs, |b.txs|, height)
    && PaysWithin(b.txs[0], 0, FeeTotal(s.coins, b.txs, |b.txs|, height))
    && BurnsAllowed(terms, s.records, b.txs, height)
    && ClaimsAllowed(s.records, b.txs[0], height)
  }

  /** A block whose ids are new extends a chain if and only if it meets every rule. */
  lemma AcceptsExact(terms: Terms, s: State, b: Block)
    requires NewIds(s.coins, b.txs)
    ensures Accepts(terms, s, b) <==> s.tip + 1 <= U32_MAX && Meets(terms, s, b, s.tip + 1)
  {
    hide ValidStructure, WellFormed, Bip34Height, Finality, Timely, AllTake, AllMature, AllUnlocked, AllPay, FeeTotal, CoinbaseAmountOk,
      PaysWithin, PegoutsOk, BurnsAllowed, ClaimsOk, ClaimsAllowed, ResolveTxs, Clean, NewIds, StrayAt;
    StructureIs(b.txs);
    if s.tip + 1 <= U32_MAX && WellFormed(b.txs) {
      NotEmpty(b.txs);
      var h := s.tip + 1;
      SpendingIsExact(s.coins, b.txs, |b.txs|, h);
      forall i | 0 <= i < |b.txs|
        ensures !Finality(b.txs[i], h, b.mtp).LockViolated? <==> Timely(b.txs[i], h, b.mtp)
      {
        TimelyIs(b.txs[i], h, b.mtp);
      }
      CoinbaseSums(b.txs);
      CoinbaseAmountExact(b.txs[0], 0, FeeTotal(s.coins, b.txs, |b.txs|, h));
      NoStraysEither(b.txs[0], FeeTotal(s.coins, b.txs, |b.txs|, h));
      BurnsAre(terms, s.records, b.txs, h);
      ClaimsIs(s.records, b.txs[0], h);
    }
  }

  lemma NotEmpty(txs: seq<Transaction>)
    requires WellFormed(txs)
    ensures |txs| > 0
  {
  }

  lemma CoinbaseSums(txs: seq<Transaction>)
    requires WellFormed(txs)
    ensures |txs| > 0 && OutTotal(txs[0].outputs, |txs[0].outputs|) <= U64_MAX
  {
    assert Shaped(txs[0], true);
  }

  lemma NoStraysEither(coinbase: Transaction, fees: nat)
    ensures PaysWithin(coinbase, 0, fees) ==> forall i: nat :: !StrayAt(coinbase.outputs, |coinbase.outputs|, i)
  {
    hide StrayAt;
  }
}
