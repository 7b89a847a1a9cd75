/** Whole runs: a genesis and blocks at consecutive heights, each accepted on
    the state the ones before it left. */
module Runs {
  import opened Prelude
  import opened Transactions
  import opened Markers
  import opened Ledger
  import opened SpendingProofs
  import opened Chain

  /** Block 0 mints the document's pegs in its coinbase, whose script pushes
      height 0 as `OP_0`; it has no other transaction. */
  predicate ValidGenesis(terms: Terms, g: Transaction)
  {
    && ValidTx(g, true)
    && OutTotal(g.outputs, |g.outputs|) == terms.pegs
    && g.inputs[0].scriptSig[0] == 0
  }

  /** The state after the genesis; its records are not kept. */
  function Origin(g: Transaction): State
  {
    State(ApplyTx(map[], g, 0, true), Records(map[], map[]), 0)
  }

  function Next(s: State, b: Block): State
  {
    if |b.txs| > 0 && s.tip + 1 <= U32_MAX then Extend(s, b) else s
  }

  function StateAfter(g: Transaction, blocks: seq<Block>, n: nat): State
    requires n <= |blocks|
  {
    if n == 0 then Origin(g) else Next(StateAfter(g, blocks, n - 1), blocks[n - 1])
  }

  ghost predicate ValidRun(terms: Terms, g: Transaction, blocks: seq<Block>)
  {
    && ValidGenesis(terms, g)
    && (forall n :: 0 <= n < |blocks| ==> Accepts(terms, StateAfter(g, blocks, n), blocks[n]))
  }

  lemma RunOrigin(terms: Terms, g: Transaction, blocks: seq<Block>)
    requires ValidRun(terms, g, blocks)
    ensures ValidGenesis(terms, g)
  {
  }

  /** One step of a run, in terms of what the claim rule sees. */
  lemma RunStep(terms: Terms, g: Transaction, blocks: seq<Block>, n: nat)
    requires ValidRun(terms, g, blocks) && n < |blocks|
    ensures Accepts(terms, StateAfter(g, blocks, n), blocks[n])
    ensures |blocks[n].txs| > 0
    ensures StateAfter(g, blocks, n).tip + 1 <= U32_MAX
    ensures StateAfter(g, blocks, n + 1) == Extend(StateAfter(g, blocks, n), blocks[n])
  {
    hide Extend, ContextOk;
  }

  lemma ClaimStep(terms: Terms, s: State, b: Block)
    requires Accepts(terms, s, b)
    ensures |b.txs| > 0 && s.tip + 1 <= U32_MAX
    ensures Extend(s, b).tip == s.tip + 1
    ensures Extend(s, b).records.claims == s.records.claims + ClaimKeys(Claims(b.txs[0]), s.tip + 1)
    ensures DistinctParents(Claims(b.txs[0]))
    ensures forall i :: 0 <= i < |Claims(b.txs[0])| && Claims(b.txs[0])[i].parent in s.records.claims ==>
              s.records.claims[Claims(b.txs[0])[i].parent] == s.tip + 1
  {
    hide Claims, ClaimKeys, ApplyTxs, BlockBurns, Resolution, PegoutsOk, Finality, Bip34Height, CoinbaseAmountOk, StrayMarkers;
    forall i | 0 <= i < |Claims(b.txs[0])| && Claims(b.txs[0])[i].parent in s.records.claims
      ensures s.records.claims[Claims(b.txs[0])[i].parent] == s.tip + 1
    {
      assert Claims(b.txs[0])[i] in Claims(b.txs[0]);
    }
  }

  // --- supply --------------------------------------------------------------------------

  ghost function BurnValues(burns: map<OutPoint, Burn>): map<OutPoint, nat>
  {
    map o | o in burns :: burns[o].value
  }

  /** What the recorded burns are worth. */
  ghost function Burned(r: Records): nat { MapSum(BurnValues(r.pegouts)) }

  lemma {:induction false} BurnsWithinOpReturns(tx: Transaction, n: nat, height: u32)
    requires n <= |tx.outputs|
    ensures MapSum(BurnValues(BurnsUpTo(tx, n, height))) <= OpReturnTotal(tx.outputs, n)
    ensures forall o :: o in BurnsUpTo(tx, n, height) ==> o.txid == tx.txid && o.vout < n
  {
    hide ParsePegout, IsOpReturn;
    if n == 0 {
      assert BurnValues(BurnsUpTo(tx, n, height)) == map[];
    } else {
      BurnsWithinOpReturns(tx, n - 1, height);
      var o := tx.outputs[n - 1];
      MarkersAreOpReturns(o.script);
      var script := ParsePegout(o.script);
      if script.Some? {
        var before, key := BurnsUpTo(tx, n - 1, height), OutPoint(tx.txid, n - 1);
        var after := before[key := Burn(script.value, o.value, height)];
        MapSumUpdate(BurnValues(before), key, o.value);
        assert key !in BurnValues(before);
        assert BurnValues(before) - {key} == BurnValues(before);
        assert BurnValues(after) == BurnValues(before)[key := o.value];
      }
    }
  }

  lemma MergedBurns(a: map<OutPoint, Burn>, b: map<OutPoint, Burn>)
    ensures MapSum(BurnValues(a + b)) <= MapSum(BurnValues(a)) + MapSum(BurnValues(b))
  {
    assert BurnValues(a + b) == BurnValues(a) + BurnValues(b);
    MapSumMerge(BurnValues(a), BurnValues(b));
  }

  lemma {:induction false} BlockBurnsWithinDestroyed(txs: seq<Transaction>, n: nat, height: u32)
    requires n <= |txs|
    ensures MapSum(BurnValues(BlockBurns(txs, n, height))) <= Destroyed(txs, n)
  {
    if n <= 1 {
      assert BurnValues(BlockBurns(txs, n, height)) == map[];
    } else {
      BlockBurnsWithinDestroyed(txs, n - 1, height);
      BurnsWithinOpReturns(txs[n - 1], |txs[n - 1].outputs|, height);
      MergedBurns(BlockBurns(txs, n - 1, height), BurnsUpTo(txs[n - 1], |txs[n - 1].outputs|, height));
    }
  }

  /** What acceptance says of a block's amounts, freed of its saturating sums. */
  lemma CoinbaseWithinFees(terms: Terms, s: State, b: Block)
    requires Accepts(terms, s, b)
    ensures |b.txs| > 0 && s.tip + 1 <= U32_MAX
    ensures var spending := Resolution(s.coins, b.txs, s.tip + 1);
            && spending.missing == [] && spending.deficits == []
            && CoinTotal(b.txs[0].outputs, |b.txs[0].outputs|) <= spending.fees + PaidOut(Claims(b.txs[0]))
  {
    hide PegoutsOk, ClaimsOk, Finality, Bip34Height, Claims, ValidTx, ResolveTxs, StrayMarkers, PaidOut;
    OutTotalSplits(b.txs[0].outputs, |b.txs[0].outputs|);
  }

  /** One accepted block adds at most its claims' payouts to coins and burns
      together, whatever its fees and however its sums saturate. */
  lemma BlockSupply(terms: Terms, s: State, b: Block)
    requires Accepts(terms, s, b)
    ensures Worth(Extend(s, b).coins) + Burned(Extend(s, b).records)
            <= Worth(s.coins) + Burned(s.records) + PaidOut(Claims(b.txs[0]))
  {
    hide Accepts, ResolveTxs, BlockBurns, Destroyed, ApplyTxs, Claims, ClaimKeys, CoinTotal, OpReturnTotal, Worth;
    CoinbaseWithinFees(terms, s, b);
    var txs, h := b.txs, s.tip + 1;
    BlockConserves(s.coins, txs, |txs|, h);
    BlockBurnsWithinDestroyed(txs, |txs|, h);
    MergedBurns(s.records.pegouts, BlockBurns(txs, |txs|, h));
  }

  /** What each claimed parent output was paid, by the first `n` blocks. */
  function ClaimValues(claims: seq<Claim>): map<ParentPoint, nat>
  {
    if |claims| == 0 then map[]
    else ClaimValues(claims[..|claims| - 1])[claims[|claims| - 1].parent := claims[|claims| - 1].value]
  }

  function PaidFor(blocks: seq<Block>, n: nat): map<ParentPoint, nat>
    requires n <= |blocks|
  {
    if n == 0 then map[]
    else
      var b := blocks[n - 1];
      PaidFor(blocks, n - 1) + if |b.txs| > 0 then ClaimValues(Claims(b.txs[0])) else map[]
  }

  lemma {:induction false} ClaimValuesSum(claims: seq<Claim>, height: u32)
    requires DistinctParents(claims)
    ensures MapSum(ClaimValues(claims)) == PaidOut(claims)
    ensures ClaimValues(claims).Keys == ClaimKeys(claims, height).Keys
  {
    if |claims| > 0 {
      var before, last := claims[..|claims| - 1], claims[|claims| - 1];
      ClaimValuesSum(before, height);
      ClaimKeysAre(before, height);
      assert last.parent !in ClaimValues(before);
      MapSumUpdate(ClaimValues(before), last.parent, last.value);
      assert ClaimValues(before) - {last.parent} == ClaimValues(before);
    }
  }

  /** Every recorded claim was made at or below the tip. */
  ghost predicate ClaimsBelowTip(s: State)
  {
    forall p :: p in s.records.claims ==> s.records.claims[p] <= s.tip
  }

  lemma {:induction false} ClaimsStayBelowTip(terms: Terms, g: Transaction, blocks: seq<Block>, n: nat)
    requires ValidRun(terms, g, blocks) && n <= |blocks|
    ensures ClaimsBelowTip(StateAfter(g, blocks, n))
    ensures StateAfter(g, blocks, n).tip == n
  {
    hide Extend, Accepts, ValidRun, Claims, ClaimKeys;
    if n > 0 {
      ClaimsStayBelowTip(terms, g, blocks, n - 1);
      RunStep(terms, g, blocks, n - 1);
      ClaimStep(terms, StateAfter(g, blocks, n - 1), blocks[n - 1]);
      ClaimKeysAre(Claims(blocks[n - 1].txs[0]), n);
    }
  }

  lemma StepPaid(terms: Terms, s: State, b: Block, paid: map<ParentPoint, nat>)
    requires Accepts(terms, s, b) && ClaimsBelowTip(s)
    requires paid.Keys == s.records.claims.Keys
    ensures MapSum(paid + ClaimValues(Claims(b.txs[0]))) == MapSum(paid) + PaidOut(Claims(b.txs[0]))
    ensures (paid + ClaimValues(Claims(b.txs[0]))).Keys == Extend(s, b).records.claims.Keys
  {
    hide Accepts, Extend, Claims;
    ClaimStep(terms, s, b);
    var claims, h := Claims(b.txs[0]), s.tip + 1;
    ClaimValuesSum(claims, h);
    ClaimKeysAre(claims, h);
    assert paid.Keys !! ClaimValues(claims).Keys;
    MapSumUnion(paid, ClaimValues(claims));
  }

  /** Supply conservation: over every accepted run, the coins and the recorded
      burns together are worth at most the pegs plus one payout for each parent
      output the chain has recorded as claimed. */
  lemma {:induction false} SupplyConservation(terms: Terms, g: Transaction, blocks: seq<Block>, n: nat)
    requires ValidRun(terms, g, blocks) && n <= |blocks|
    ensures Worth(StateAfter(g, blocks, n).coins) + Burned(StateAfter(g, blocks, n).records)
            <= terms.pegs + MapSum(PaidFor(blocks, n))
    ensures PaidFor(blocks, n).Keys == StateAfter(g, blocks, n).records.claims.Keys
  {
    hide Extend, Origin, Accepts, ValidRun, Claims, ClaimValues, Worth, Burned, PaidOut;
    if n == 0 {
      RunOrigin(terms, g, blocks);
      GenesisSupply(terms, g);
    } else {
      var s := StateAfter(g, blocks, n - 1);
      SupplyConservation(terms, g, blocks, n - 1);
      ClaimsStayBelowTip(terms, g, blocks, n - 1);
      RunStep(terms, g, blocks, n - 1);
      BlockSupply(terms, s, blocks[n - 1]);
      StepPaid(terms, s, blocks[n - 1], PaidFor(blocks, n - 1));
    }
  }

  lemma GenesisSupply(terms: Terms, g: Transaction)
    requires ValidGenesis(terms, g)
    ensures Worth(Origin(g).coins) <= terms.pegs && Burned(Origin(g).records) == 0
    ensures Origin(g).records.claims == map[]
  {
    CoinsWorth(g, |g.outputs|, 0, true);
    OutTotalSplits(g.outputs, |g.outputs|);
    assert map[] + CoinsOf(g, 0, true) == CoinsOf(g, 0, true);
    assert BurnValues(Origin(g).records.pegouts) == map[];
  }

  // --- claims pay once ------------------------------------------------------------------

  /** A claim made in block `i` stays recorded at that block's height. */
  lemma {:induction false} ClaimStays(terms: Terms, g: Transaction, blocks: seq<Block>, i: nat, j: nat, c: Claim)
    requires ValidRun(terms, g, blocks) && i < j <= |blocks|
    requires |blocks[i].txs| > 0 && c in Claims(blocks[i].txs[0])
    ensures c.parent in StateAfter(g, blocks, j).records.claims
    ensures StateAfter(g, blocks, j).records.claims[c.parent] == i + 1
  {
    hide Accepts, Extend, Claims, ClaimKeys, ValidRun;
    var s, b := StateAfter(g, blocks, j - 1), blocks[j - 1];
    ClaimsStayBelowTip(terms, g, blocks, j - 1);
    RunStep(terms, g, blocks, j - 1);
    ClaimStep(terms, s, b);
    ClaimKeysAre(Claims(b.txs[0]), j);
    if i < j - 1 {
      ClaimStays(terms, g, blocks, i, j - 1, c);
    }
  }

  /** The coinbase of the block at height `h`, among the first `n`, claims `p`. */
  predicate ClaimedAt(blocks: seq<Block>, n: nat, p: ParentPoint, h: nat)
    requires n <= |blocks|
  {
    1 <= h <= n && |blocks[h - 1].txs| > 0 && ClaimedBy(blocks[h - 1].txs[0], p)
  }

  predicate ClaimedBy(coinbase: Transaction, p: ParentPoint) { exists c :: c in Claims(coinbase) && c.parent == p }

  predicate ClaimRecorded(claims: map<ParentPoint, u32>, p: ParentPoint, h: nat) { p in claims && claims[p] == h }

  /** The recorded claims, exactly, in every state of every run: those the coinbases
      so far have made, each at its block's height. */
  lemma {:induction false} ClaimsRecorded(terms: Terms, g: Transaction, blocks: seq<Block>, n: nat, p: ParentPoint, h: nat)
    requires ValidRun(terms, g, blocks) && n <= |blocks|
    ensures ClaimRecorded(StateAfter(g, blocks, n).records.claims, p, h) <==> ClaimedAt(blocks, n, p, h)
  {
    hide Accepts, Extend, Claims, ClaimKeys, ValidRun;
    if n > 0 {
      ClaimsRecorded(terms, g, blocks, n - 1, p, h);
      ClaimsStayBelowTip(terms, g, blocks, n - 1);
      RunStep(terms, g, blocks, n - 1);
      ClaimStep(terms, StateAfter(g, blocks, n - 1), blocks[n - 1]);
      ClaimKeysAre(Claims(blocks[n - 1].txs[0]), n);
      if ClaimedAt(blocks, n, p, h) {
        var c :| c in Claims(blocks[h - 1].txs[0]) && c.parent == p;
        ClaimStays(terms, g, blocks, h - 1, n, c);
      }
    }
  }

  /** No parent output is ever paid twice: claims at two different places of an
      accepted run name different parent outputs. */
  lemma NoParentOutputPaidTwice(terms: Terms, g: Transaction, blocks: seq<Block>, i: nat, a: nat, j: nat, b: nat)
    requires ValidRun(terms, g, blocks)
    requires i < |blocks| && j < |blocks| && |blocks[i].txs| > 0 && |blocks[j].txs| > 0
    requires a < |Claims(blocks[i].txs[0])| && b < |Claims(blocks[j].txs[0])|
    requires (i, a) != (j, b)
    ensures Claims(blocks[i].txs[0])[a].parent != Claims(blocks[j].txs[0])[b].parent
  {
    hide Accepts, Extend, Claims, StateAfter, ValidRun;
    if j < i {
      NoParentOutputPaidTwice(terms, g, blocks, j, b, i, a);
    } else {
      RunStep(terms, g, blocks, j);
      ClaimStep(terms, StateAfter(g, blocks, j), blocks[j]);
      if i < j {
        ClaimStays(terms, g, blocks, i, j, Claims(blocks[i].txs[0])[a]);
        ClaimsStayBelowTip(terms, g, blocks, j);
      }
    }
  }

  /** Within an accepted coinbase every claim owns its own payout, so together
      they pay at most the coins the coinbase creates. */
  lemma ClaimsPaidFromTheirCoinbase(terms: Terms, s: State, b: Block)
    requires Accepts(terms, s, b)
    ensures var cb := b.txs[0];
            && PaidOut(Claims(cb)) <= CoinTotal(cb.outputs, |cb.outputs| - 1)
            && (forall i :: 0 <= i < |Claims(cb)| ==> PairsPayout(cb.outputs, Claims(cb)[i]))
            && (forall i, j :: 0 <= i < j < |Claims(cb)| ==> Claims(cb)[i].payout != Claims(cb)[j].payout)
  {
    hide ClaimsUpTo, ContextOk;
    var outputs := b.txs[0].outputs;
    assert ValidTx(b.txs[0], true);
    PayoutsWithinCoins(outputs, |outputs|);
    ClaimsOwnDistinctPayouts(outputs, |outputs|);
  }
}
