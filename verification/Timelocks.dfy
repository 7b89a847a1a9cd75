/** What the script's locks and the block's locks together enforce, and the
    height from which a transaction may be admitted
    (sidestr-core/src/channel.rs against sidestr-core/src/rules.rs). */
module Timelocks {
  import opened Prelude
  import opened Transactions
  import opened Ledger
  import opened SpendingProofs
  import SpendingExact
  import opened Chain
  import opened Runs
  import Channel
  import Tapscript
  import ChannelSpending
  import ScriptPath

  // --- no coin is younger than the chain -------------------------------------------------------

  ghost predicate CoinsBelow(u: Utxo, height: nat)
  {
    forall o :: o in u ==> u[o].height <= height
  }

  lemma {:induction false} SpendingKeepsBelow(u: Utxo, tx: Transaction, n: nat, height: nat)
    requires n <= |tx.inputs| && CoinsBelow(u, height)
    ensures CoinsBelow(SpendUpTo(u, tx, n), height)
  {
    if n > 0 {
      SpendingKeepsBelow(u, tx, n - 1, height);
    }
  }

  lemma {:induction false} BlockKeepsBelow(u: Utxo, txs: seq<Transaction>, n: nat, height: u32)
    requires n <= |txs| && CoinsBelow(u, height)
    ensures CoinsBelow(ApplyTxs(u, txs, n, height), height)
  {
    if n > 0 {
      BlockKeepsBelow(u, txs, n - 1, height);
      var live, tx := ApplyTxs(u, txs, n - 1, height), txs[n - 1];
      SpendingKeepsBelow(live, tx, |tx.inputs|, height);
      CoinsAre(tx, |tx.outputs|, height, n == 1);
    }
  }

  /** In every reachable state no coin is younger than the tip. */
  lemma {:induction false} CoinsStayBelowTip(terms: Terms, g: Transaction, blocks: seq<Block>, n: nat)
    requires ValidRun(terms, g, blocks) && n <= |blocks|
    ensures CoinsBelow(StateAfter(g, blocks, n).coins, n)
    ensures StateAfter(g, blocks, n).tip == n
  {
    hide ValidRun, Accepts, ApplyTxs, ApplyTx, CoinsBelow;
    if n == 0 {
      GenesisBelow(g);
    } else {
      CoinsStayBelowTip(terms, g, blocks, n - 1);
      RunStep(terms, g, blocks, n - 1);
      var s, b := StateAfter(g, blocks, n - 1), blocks[n - 1];
      BelowMore(s.coins, n - 1, n);
      BlockKeepsBelow(s.coins, b.txs, |b.txs|, n);
    }
  }

  lemma BelowMore(u: Utxo, a: nat, b: nat)
    requires CoinsBelow(u, a) && a <= b
    ensures CoinsBelow(u, b)
  {
  }

  lemma GenesisBelow(g: Transaction)
    ensures CoinsBelow(Origin(g).coins, 0)
  {
    CoinsAre(g, |g.outputs|, 0, true);
  }

  // --- delays and expiries are really waited for ------------------------------------------------------

  /** The script check binds the leaf's delay to the input's sequence and its
      expiry to the transaction's `nLockTime`. */
  lemma ScriptBindsLocks(c: ScriptPath.Crypto, tx: RawTx, index: nat, prevouts: seq<TxOut>, l: Channel.Leaf)
    requires ScriptPath.ScriptPathSpend(c, tx, index, prevouts)
    requires Channel.WellFormed(c.validKey, l)
    requires Channel.ToScript(c.validKey, l) == ScriptPath.SigningOf(tx, index, prevouts).script
    ensures Tapscript.DelayOf(l).Some? ==> ChannelSpending.CheckSequence(tx, index, Tapscript.DelayOf(l).value)
    ensures Tapscript.ExpiryOf(l).Some? ==> ChannelSpending.CheckLockTime(tx, index, Tapscript.ExpiryOf(l).value)
  {
    hide Tapscript.Succeeds, Channel.ToScript, Tapscript.SequenceReached, Tapscript.LockTimeReached, ChannelSpending.CheckSequence,
      ChannelSpending.CheckLockTime, ScriptPath.WitnessSize;
    var s := ScriptPath.SigningOf(tx, index, prevouts);
    var core := ScriptPath.Unannexed(tx.inputs[index].stack);
    Tapscript.LeafMeans(c.validKey, ScriptPath.ContextOf(c, s), l, core[..|core| - 2],
                        50 + ScriptPath.WitnessSize(tx.inputs[index].stack));
    if Tapscript.DelayOf(l).Some? {
      ChannelSpending.LocksAreTheOpcodes(c, s, Tapscript.DelayOf(l).value);
    }
    if Tapscript.ExpiryOf(l).Some? {
      ChannelSpending.LocksAreTheOpcodes(c, s, Tapscript.ExpiryOf(l).value);
    }
  }

  /** A relative lock the script checked, once the block's rule passes, puts the
      delay between the coin and the block. */
  lemma DelayIsWaited(tx: Transaction, index: nat, delay: nat, coinHeight: u32, height: u32)
    requires index < |tx.inputs| && ChannelSpending.CheckSequence(Contents(tx), index, delay)
    requires coinHeight <= height
    requires !SequenceLock(tx.version, tx.inputs[index].sequence, Some(coinHeight), height).LockViolated?
    ensures height >= coinHeight + delay
  {
  }

  lemma ExpiryIsWaited(tx: Transaction, index: nat, expiry: nat, height: u32, mtp: Option<u32>)
    requires index < |tx.inputs| && ChannelSpending.CheckLockTime(Contents(tx), index, expiry)
    requires height >= 1 && !Finality(tx, height, mtp).LockViolated?
    ensures height > expiry
  {
  }

  /** The coin an accepted block's input removes is no younger than the block. */
  lemma TakenCoinBelow(u: Utxo, txs: seq<Transaction>, ti: nat, ii: nat, height: u32)
    requires ti < |txs| && ii < |txs[ti].inputs| && CoinsBelow(u, height)
    requires TakenAt(u, txs, ti, ii, height).Some?
    ensures TakenAt(u, txs, ti, ii, height).value.height <= height
  {
    BlockKeepsBelow(u, txs, ti, height);
    SpendingKeepsBelow(ApplyTxs(u, txs, ti, height), txs[ti], ii, height);
  }

  lemma BlockLocks(terms: Terms, s: State, b: Block, ti: nat, ii: nat)
    requires Accepts(terms, s, b) && 0 < ti < |b.txs| && ii < |b.txs[ti].inputs|
    ensures s.tip + 1 <= U32_MAX
    ensures !Finality(b.txs[ti], s.tip + 1, b.mtp).LockViolated?
    ensures var taken := TakenAt(s.coins, b.txs, ti, ii, s.tip + 1);
            && taken.Some?
            && !SequenceLock(b.txs[ti].version, b.txs[ti].inputs[ii].sequence, Some(taken.value.height), s.tip + 1).LockViolated?
  {
    hide Resolution, Finality, SequenceLock, Premature, PegoutsOk, ClaimsOk, CoinbaseAmountOk, Bip34Height, TakenAt, ValidStructure;
    EachInputUnlocked(s.coins, b.txs, ti, ii, s.tip + 1);
  }

  /** Timelocks hold end to end: along every accepted run, an input whose
      script check passed on a channel leaf is in a block at least the leaf's
      delay above the coin it spends, and above the leaf's expiry. */
  lemma TimelocksEnforced(terms: Terms, g: Transaction, blocks: seq<Block>, n: nat, ti: nat, ii: nat,
                          c: ScriptPath.Crypto, prevouts: seq<TxOut>, l: Channel.Leaf)
    requires ValidRun(terms, g, blocks) && n < |blocks|
    requires 0 < ti < |blocks[n].txs| && ii < |blocks[n].txs[ti].inputs|
    requires ScriptPath.ScriptPathSpend(c, Contents(blocks[n].txs[ti]), ii, prevouts)
    requires Channel.WellFormed(c.validKey, l)
    requires Channel.ToScript(c.validKey, l) == ScriptPath.SigningOf(Contents(blocks[n].txs[ti]), ii, prevouts).script
    ensures n + 1 <= U32_MAX
    ensures var taken := TakenAt(StateAfter(g, blocks, n).coins, blocks[n].txs, ti, ii, n + 1);
            && taken.Some?
            && (Tapscript.DelayOf(l).Some? ==> n + 1 >= taken.value.height + Tapscript.DelayOf(l).value)
    ensures Tapscript.ExpiryOf(l).Some? ==> n + 1 > Tapscript.ExpiryOf(l).value
  {
    hide ValidRun, Accepts, StateAfter, ScriptPath.ScriptPathSpend, Channel.ToScript, Channel.WellFormed, CoinsBelow, TakenAt,
      SequenceLock, Finality, ChannelSpending.CheckSequence, ChannelSpending.CheckLockTime, ScriptPath.SigningOf;
    var s, b := StateAfter(g, blocks, n), blocks[n];
    var tx := b.txs[ti];
    RunStep(terms, g, blocks, n);
    CoinsStayBelowTip(terms, g, blocks, n);
    BelowMore(s.coins, n, n + 1);
    BlockLocks(terms, s, b, ti, ii);
    TakenCoinBelow(s.coins, b.txs, ti, ii, n + 1);
    ScriptBindsLocks(c, Contents(tx), ii, prevouts, l);
    if Tapscript.DelayOf(l).Some? {
      DelayIsWaited(tx, ii, Tapscript.DelayOf(l).value, TakenAt(s.coins, b.txs, ti, ii, n + 1).value.height, n + 1);
    }
    if Tapscript.ExpiryOf(l).Some? {
      ExpiryIsWaited(tx, ii, Tapscript.ExpiryOf(l).value, n + 1, b.mtp);
    }
  }

  // --- the admission height ----------------------------------------------------------------------------

  function SaturateHeight(n: nat): u32 { if n <= U32_MAX then n else U32_MAX }

  /** The height from which input `index` and `nLockTime` allow a transaction,
      or nothing when a lock counts time. */
  function EarliestHeight(tx: Transaction, index: nat, coinHeight: u32): Option<u32>
  {
    if index >= |tx.inputs| then None
    else
      var sequence := tx.inputs[index].sequence;
      var relative := tx.version >= 2 && !SequenceDisabled(sequence) && SequenceValue(sequence) > 0;
      if relative && SequenceTimed(sequence) then None
      else
        var from := if relative then SaturateHeight(coinHeight + SequenceValue(sequence)) else 0;
        if tx.lockTime != 0 && !AllFinal(tx) then
          if tx.lockTime >= LOCKTIME_THRESHOLD then None
          else Some(Max(from, SaturateHeight(tx.lockTime + 1)))
        else Some(from)
  }

  /** BIP 68 and BIP 113, in numbers: the input's relative lock, or the transaction's
      absolute one, is in force and counts time. */
  predicate CountsTime(tx: Transaction, index: nat)
    requires index < |tx.inputs|
  {
    var s := tx.inputs[index].sequence;
    || (tx.version >= 2 && s < 0x8000_0000 && s % 0x80_0000 >= 0x40_0000 && s % 0x1_0000 > 0)
    || (tx.lockTime >= 500_000_000 && exists k :: 0 <= k < |tx.inputs| && tx.inputs[k].sequence != 0xffff_ffff)
  }

  /** There is an earliest height exactly when no lock in force counts time; and without
      a lock of either kind it is the first height. */
  lemma EarliestExact(tx: Transaction, index: nat, coinHeight: u32)
    ensures EarliestHeight(tx, index, coinHeight).None? <==> index >= |tx.inputs| || CountsTime(tx, index)
    ensures index < |tx.inputs| && tx.lockTime == 0 && (tx.version < 2 || tx.inputs[index].sequence >= 0x8000_0000) ==>
              EarliestHeight(tx, index, coinHeight) == Some(0)
  {
    if index < |tx.inputs| {
      SpendingExact.BitTwentyTwo(tx.inputs[index].sequence);
    }
  }

  /** Every lock of the transaction counts blocks. */
  predicate HeightLocked(tx: Transaction, coins: seq<u32>)
    requires |coins| == |tx.inputs|
  {
    forall i :: 0 <= i < |tx.inputs| ==> EarliestHeight(tx, i, coins[i]).Some?
  }

  /** The greatest of the inputs' heights. */
  function Threshold(tx: Transaction, coins: seq<u32>, n: nat): u32
    requires |coins| == |tx.inputs| && n <= |coins| && HeightLocked(tx, coins)
  {
    if n == 0 then 0
    else Max(Threshold(tx, coins, n - 1), EarliestHeight(tx, n - 1, coins[n - 1]).value)
  }

  lemma {:induction false} ThresholdIsMax(tx: Transaction, coins: seq<u32>, n: nat, h: nat)
    requires |coins| == |tx.inputs| && n <= |coins| && HeightLocked(tx, coins)
    ensures h >= Threshold(tx, coins, n) <==> forall i :: 0 <= i < n ==> h >= EarliestHeight(tx, i, coins[i]).value
  {
    hide EarliestHeight;
    if n > 0 {
      ThresholdIsMax(tx, coins, n - 1, h);
    }
  }

  /** The block's finality and sequence-lock rules on one transaction whose
      coins are at these heights. */
  predicate LocksAdmit(tx: Transaction, coins: seq<u32>, h: u32, mtp: Option<u32>)
    requires |coins| == |tx.inputs|
  {
    && Finality(tx, h, mtp).LockPasses?
    && (forall i :: 0 <= i < |tx.inputs| ==> SequenceLock(tx.version, tx.inputs[i].sequence, Some(coins[i]), h).LockPasses?)
  }

  /** A relative lock in force whose end does not fit a height. */
  predicate LockOverflows(tx: Transaction, i: nat, coinHeight: u32)
    requires i < |tx.inputs|
  {
    && tx.version >= 2 && !SequenceDisabled(tx.inputs[i].sequence) && SequenceValue(tx.inputs[i].sequence) > 0
    && coinHeight + SequenceValue(tx.inputs[i].sequence) > U32_MAX
  }

  /** One input: past its height exactly when both rules pass on it. */
  lemma InputThreshold(tx: Transaction, i: nat, coinHeight: u32, h: u32, mtp: Option<u32>)
    requires i < |tx.inputs| && EarliestHeight(tx, i, coinHeight).Some? && !LockOverflows(tx, i, coinHeight)
    ensures h >= EarliestHeight(tx, i, coinHeight).value <==>
              && Finality(tx, h, mtp).LockPasses?
              && SequenceLock(tx.version, tx.inputs[i].sequence, Some(coinHeight), h).LockPasses?
  {
    hide AllFinal;
  }

  /** Without an overflowing lock, the block rules admit a transaction at a
      height exactly when that height is at least every input's earliest. */
  lemma AdmittedFromThreshold(tx: Transaction, coins: seq<u32>, h: u32, mtp: Option<u32>)
    requires |tx.inputs| > 0 && |coins| == |tx.inputs| && HeightLocked(tx, coins)
    requires forall i :: 0 <= i < |coins| ==> !LockOverflows(tx, i, coins[i])
    ensures LocksAdmit(tx, coins, h, mtp) <==> h >= Threshold(tx, coins, |coins|)
  {
    hide EarliestHeight, Finality, SequenceLock, LockOverflows;
    ThresholdIsMax(tx, coins, |coins|, h);
    forall i | 0 <= i < |coins|
      ensures h >= EarliestHeight(tx, i, coins[i]).value <==>
                Finality(tx, h, mtp).LockPasses? && SequenceLock(tx.version, tx.inputs[i].sequence, Some(coins[i]), h).LockPasses?
    {
      InputThreshold(tx, i, coins[i], h, mtp);
    }
    assert h >= EarliestHeight(tx, 0, coins[0]).value || !LocksAdmit(tx, coins, h, mtp);
  }

  predicate IsThreshold(tx: Transaction, coins: seq<u32>, mtp: Option<u32>)
    requires |coins| == |tx.inputs| && HeightLocked(tx, coins)
  {
    forall h: u32 :: LocksAdmit(tx, coins, h, mtp) <==> h >= Threshold(tx, coins, |coins|)
  }

  /** The admission height is exact, at every height, if and only if no relative
      lock in force ends beyond the last height; an overflowing lock saturates
      to a height the block rules still refuse. */
  lemma ThresholdIsExact(tx: Transaction, coins: seq<u32>, mtp: Option<u32>)
    requires |tx.inputs| > 0 && |coins| == |tx.inputs| && HeightLocked(tx, coins)
    ensures IsThreshold(tx, coins, mtp) <==> forall i :: 0 <= i < |coins| ==> !LockOverflows(tx, i, coins[i])
  {
    hide EarliestHeight, LocksAdmit, Threshold, LockOverflows;
    if forall i :: 0 <= i < |coins| ==> !LockOverflows(tx, i, coins[i]) {
      forall h: u32
        ensures LocksAdmit(tx, coins, h, mtp) <==> h >= Threshold(tx, coins, |coins|)
      {
        AdmittedFromThreshold(tx, coins, h, mtp);
      }
    } else {
      var i :| 0 <= i < |coins| && LockOverflows(tx, i, coins[i]);
      OverflowNeverAdmitted(tx, coins, i, mtp);
    }
  }

  lemma OverflowNeverAdmitted(tx: Transaction, coins: seq<u32>, i: nat, mtp: Option<u32>)
    requires |coins| == |tx.inputs| && i < |coins| && EarliestHeight(tx, i, coins[i]).Some? && LockOverflows(tx, i, coins[i])
    ensures !LocksAdmit(tx, coins, U32_MAX, mtp)
  {
    assert SequenceLock(tx.version, tx.inputs[i].sequence, Some(coins[i]), U32_MAX).LockViolated?;
  }

  /** Coins at least 65535 below the last height never overflow. */
  lemma LowCoinsNeverOverflow(tx: Transaction, coins: seq<u32>)
    requires |coins| == |tx.inputs|
    requires forall i :: 0 <= i < |coins| ==> coins[i] <= U32_MAX - U16_MAX
    ensures forall i :: 0 <= i < |coins| ==> !LockOverflows(tx, i, coins[i])
  {
  }

  /** The mempool's loop over the inputs: admitted when every earliest height
      has come; an input with a time lock is not judged. */
  method LocksMatured(tx: Transaction, coins: seq<u32>, next: u32) returns (ok: bool)
    requires |coins| == |tx.inputs|
    ensures ok <==> forall i :: 0 <= i < |coins| && EarliestHeight(tx, i, coins[i]).Some? ==>
                      EarliestHeight(tx, i, coins[i]).value <= next
    ensures HeightLocked(tx, coins) ==> (ok <==> next >= Threshold(tx, coins, |coins|))
  {
    hide EarliestHeight;
    if HeightLocked(tx, coins) {
      ThresholdIsMax(tx, coins, |coins|, next);
    }
    for i := 0 to |coins|
      invariant forall k :: 0 <= k < i && EarliestHeight(tx, k, coins[k]).Some? ==>
                  EarliestHeight(tx, k, coins[k]).value <= next
    {
      var from := EarliestHeight(tx, i, coins[i]);
      if from.Some? && next < from.value { return false; }
    }
    return true;
  }
}
