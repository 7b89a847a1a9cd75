/** What a block's spending must be, input by input, for the walk to report
    nothing (sidestr-core/src/rules.rs): the coins each input finds at its moment,
    their maturity and locks, and what each transaction's inputs hold over its
    outputs. The walk's four lists are empty exactly when these hold. */
module SpendingExact {
  import opened Prelude
  import opened Transactions
  import opened Ledger
  import opened SpendingProofs

  // --- one transaction ------------------------------------------------------------------------

  /** Each of the first `n` inputs finds its coin among those still live. */
  predicate InputsTake(live: Utxo, tx: Transaction, n: nat)
    requires n <= |tx.inputs|
  {
    forall ii :: 0 <= ii < n ==> tx.inputs[ii].prev in SpendUpTo(live, tx, ii)
  }

  /** The coin input `ii` takes. */
  function CoinOf(live: Utxo, tx: Transaction, ii: nat): Option<Coin>
    requires ii < |tx.inputs|
  {
    var left, key := SpendUpTo(live, tx, ii), tx.inputs[ii].prev;
    if key in left then Some(left[key]) else None
  }

  /** A coinbase's coin before its hundredth block after. */
  predicate Young(c: Coin, height: u32) { c.coinbase && height < c.height + 100 }

  /** BIP 68: from version 2 on, a sequence with its top bit clear and bit 22 clear, whose
      low 16 bits are not zero, locks its coin for that many blocks. */
  predicate Locked(version: int, sequence: u32, coinHeight: u32, height: u32)
  {
    && version >= 2 && sequence < 0x8000_0000 && sequence % 0x80_0000 < 0x40_0000 && sequence % 0x1_0000 > 0
    && height < coinHeight + sequence % 0x1_0000
  }

  lemma RulesAre(c: Coin, version: int, sequence: u32, height: u32)
    ensures Premature(c, height) == Young(c, height)
    ensures SequenceLock(version, sequence, Some(c.height), height).LockViolated? == Locked(version, sequence, c.height, height)
  {
    BitTwentyTwo(sequence);
  }

  lemma BitTwentyTwo(sequence: u32)
    ensures sequence / 0x40_0000 % 2 == 1 <==> sequence % 0x80_0000 >= 0x40_0000
    ensures sequence / 0x8000_0000 % 2 == 1 <==> sequence >= 0x8000_0000
  {
    var q, r := sequence / 0x80_0000, sequence % 0x80_0000;
    assert sequence == 0x80_0000 * q + r;
    assert sequence / 0x40_0000 == 2 * q + r / 0x40_0000;
  }

  /** A lock the walk cannot judge: one that counts time, or on a coin it did not find. */
  predicate Unjudged(version: int, sequence: u32, found: bool)
  {
    && version >= 2 && sequence < 0x8000_0000 && sequence % 0x1_0000 > 0
    && (sequence % 0x80_0000 >= 0x40_0000 || !found)
  }

  /** The walk counts exactly those, of the inputs whose outpoints the block has not spent. */
  lemma UnjudgedCounted(iw: InputWalk, u: Utxo, tx: Transaction, ti: nat, ii: nat, height: u32)
    requires ii < |tx.inputs|
    ensures ResolveInput(iw, u, tx, ti, ii, height).w.s.lockUnknown
            == iw.w.s.lockUnknown
               + if tx.inputs[ii].prev !in iw.w.spentHere
                    && Unjudged(tx.version, tx.inputs[ii].sequence, Lookup(iw.w, u, tx.inputs[ii].prev).Some?) then 1 else 0
  {
    hide Lookup, Premature;
    BitTwentyTwo(tx.inputs[ii].sequence);
  }

  /** No input among the first `n` takes a coin too young, or one its sequence locks. */
  predicate InputsMature(live: Utxo, tx: Transaction, n: nat, height: u32)
    requires n <= |tx.inputs|
  {
    forall ii :: 0 <= ii < n && CoinOf(live, tx, ii).Some? ==> !Young(CoinOf(live, tx, ii).value, height)
  }

  predicate InputsUnlocked(live: Utxo, tx: Transaction, n: nat, height: u32)
    requires n <= |tx.inputs|
  {
    forall ii :: 0 <= ii < n && CoinOf(live, tx, ii).Some? ==>
      !Locked(tx.version, tx.inputs[ii].sequence, CoinOf(live, tx, ii).value.height, height)
  }

  /** What the first `n` inputs hold. */
  function InTotal(live: Utxo, tx: Transaction, n: nat): nat
    requires n <= |tx.inputs|
  {
    if n == 0 then 0
    else
      var coin := CoinOf(live, tx, n - 1);
      InTotal(live, tx, n - 1) + if coin.Some? then coin.value.output.value else 0
  }

  /** Nothing spent in the block is live again. */
  ghost predicate Gone(w: Walk, live: Utxo) { forall o :: o in w.spentHere ==> o !in live }

  lemma InputStep(iw: InputWalk, u: Utxo, live: Utxo, tx: Transaction, ti: nat, ii: nat, height: u32)
    requires ii < |tx.inputs| && Agrees(iw.w, u, live) && Gone(iw.w, live) && iw.w.s.missing == []
    ensures var next, key := ResolveInput(iw, u, tx, ti, ii, height), tx.inputs[ii].prev;
            && (next.w.s.missing == [] <==> key in live)
            && next.w.spentHere == iw.w.spentHere + {key}
            && (key in live ==> next.inSum == Saturate(iw.inSum + live[key].output.value))
  {
    hide SequenceLock, Premature;
  }

  lemma SaturateTwice(a: nat, b: nat)
    ensures Saturate(Saturate(a) + b) == Saturate(a + b)
  {
  }

  /** The walk over one transaction's inputs, exactly. */
  lemma {:induction false} InputsExact(w: Walk, u: Utxo, live: Utxo, tx: Transaction, ti: nat, n: nat, height: u32)
    requires n <= |tx.inputs| && Agrees(w, u, live) && Gone(w, live) && w.s.missing == []
    ensures var t := ResolveInputs(w, u, tx, ti, n, height);
            && (t.w.s.missing == [] <==> InputsTake(live, tx, n))
            && (t.w.s.missing == [] ==>
                  && Gone(t.w, SpendUpTo(live, tx, n))
                  && t.inSum == Saturate(InTotal(live, tx, n))
                  && (t.w.s.premature == w.s.premature <==> InputsMature(live, tx, n, height))
                  && (t.w.s.lockViolations == w.s.lockViolations <==> InputsUnlocked(live, tx, n, height)))
  {
    hide ResolveInput, Agrees, Premature, SequenceLock, InputsTake, InputsMature, InputsUnlocked, Gone, Young, Locked;
    InputsNone(live, tx, height);
    if n == 0 {
      assert SpendUpTo(live, tx, 0) == live;
    } else {
      InputsExact(w, u, live, tx, ti, n - 1, height);
      TakeMore(live, tx, n);
      MatureMore(live, tx, n, height);
      UnlockedMore(live, tx, n, height);
      var iw, t := ResolveInputs(w, u, tx, ti, n - 1, height), ResolveInputs(w, u, tx, ti, n, height);
      InputsOnlyAdd(w, u, tx, ti, n - 1, n, height);
      InputsOnlyAdd(w, u, tx, ti, 0, n - 1, height);
      if iw.w.s.missing == [] {
        InputsAgree(w, u, live, tx, ti, n - 1, height);
        var mid := SpendUpTo(live, tx, n - 1);
        InputStep(iw, u, mid, tx, ti, n - 1, height);
        if tx.inputs[n - 1].prev in mid {
          RulesAre(mid[tx.inputs[n - 1].prev], tx.version, tx.inputs[n - 1].sequence, height);
        }
        if t.w.s.missing == [] {
          InputAgrees(iw, u, mid, tx, ti, n - 1, height);
          GoneMore(iw.w, t.w, mid, tx.inputs[n - 1].prev);
          SaturateTwice(InTotal(live, tx, n - 1), mid[tx.inputs[n - 1].prev].output.value);
          PrefixSame(w.s.premature, iw.w.s.premature, t.w.s.premature);
          PrefixSame(w.s.lockViolations, iw.w.s.lockViolations, t.w.s.lockViolations);
        }
      }
    }
  }

  lemma PrefixSame<T>(a: seq<T>, b: seq<T>, c: seq<T>)
    requires a <= b <= c
    ensures a == c <==> a == b && b == c
  {
  }

  lemma GoneMore(w: Walk, next: Walk, live: Utxo, key: OutPoint)
    requires Gone(w, live) && next.spentHere == w.spentHere + {key}
    ensures Gone(next, live - {key})
  {
  }

  lemma InputsNone(live: Utxo, tx: Transaction, height: u32)
    ensures InputsTake(live, tx, 0) && InputsMature(live, tx, 0, height) && InputsUnlocked(live, tx, 0, height)
  {
  }

  lemma TakeMore(live: Utxo, tx: Transaction, n: nat)
    requires 0 < n <= |tx.inputs|
    ensures InputsTake(live, tx, n) <==> InputsTake(live, tx, n - 1) && CoinOf(live, tx, n - 1).Some?
  {
    hide SpendUpTo;
  }

  lemma MatureMore(live: Utxo, tx: Transaction, n: nat, height: u32)
    requires 0 < n <= |tx.inputs|
    ensures InputsMature(live, tx, n, height) <==>
              InputsMature(live, tx, n - 1, height)
              && (CoinOf(live, tx, n - 1).Some? ==> !Young(CoinOf(live, tx, n - 1).value, height))
  {
    hide Young, CoinOf;
  }

  lemma UnlockedMore(live: Utxo, tx: Transaction, n: nat, height: u32)
    requires 0 < n <= |tx.inputs|
    ensures InputsUnlocked(live, tx, n, height) <==>
              InputsUnlocked(live, tx, n - 1, height)
              && (CoinOf(live, tx, n - 1).Some? ==>
                    !Locked(tx.version, tx.inputs[n - 1].sequence, CoinOf(live, tx, n - 1).value.height, height))
  {
    hide Locked, CoinOf;
  }

  // --- the block ------------------------------------------------------------------------------------

  /** What one transaction after the coinbase must be, where it stands. */
  predicate Takes(u: Utxo, txs: seq<Transaction>, ti: nat, height: u32)
    requires ti < |txs|
  {
    InputsTake(ApplyTxs(u, txs, ti, height), txs[ti], |txs[ti].inputs|)
  }

  predicate Mature(u: Utxo, txs: seq<Transaction>, ti: nat, height: u32)
    requires ti < |txs|
  {
    InputsMature(ApplyTxs(u, txs, ti, height), txs[ti], |txs[ti].inputs|, height)
  }

  predicate Unlocked(u: Utxo, txs: seq<Transaction>, ti: nat, height: u32)
    requires ti < |txs|
  {
    InputsUnlocked(ApplyTxs(u, txs, ti, height), txs[ti], |txs[ti].inputs|, height)
  }

  /** Its inputs hold at least its outputs, counted in 64 bits. */
  predicate Pays(u: Utxo, txs: seq<Transaction>, ti: nat, height: u32)
    requires ti < |txs|
  {
    var out := OutTotal(txs[ti].outputs, |txs[ti].outputs|);
    out <= U64_MAX && out <= InTotal(ApplyTxs(u, txs, ti, height), txs[ti], |txs[ti].inputs|)
  }

  /** The block's ids are new to the coins and to each other. */
  predicate NewIds(u: Utxo, txs: seq<Transaction>)
  {
    && (forall i, j :: 0 <= i < j < |txs| ==> txs[i].txid != txs[j].txid)
    && (forall i, o :: 0 <= i < |txs| && o in u ==> o.txid != txs[i].txid)
  }

  /** Every outpoint comes from the coins or from the block's first `n`. */
  ghost predicate FromBefore(os: set<OutPoint>, u: Utxo, txs: seq<Transaction>, n: nat)
    requires n <= |txs|
  {
    forall o :: o in os ==> o in u || exists j :: 0 <= j < n && txs[j].txid == o.txid
  }

  lemma {:induction false} SpendingOnlyRemoves(u: Utxo, tx: Transaction, n: nat)
    requires n <= |tx.inputs|
    ensures SpendUpTo(u, tx, n).Keys <= u.Keys
  {
    if n > 0 {
      SpendingOnlyRemoves(u, tx, n - 1);
    }
  }

  /** Coins of a new id revive nothing that was spent. */
  lemma StaysGone(w: Walk, left: Utxo, tx: Transaction, height: u32, u: Utxo, txs: seq<Transaction>, n: nat)
    requires 0 < n <= |txs| && tx == txs[n - 1] && NewIds(u, txs)
    requires Gone(w, left) && FromBefore(w.spentHere, u, txs, n - 1)
    ensures Gone(w, left + CoinsOf(tx, height, n == 1))
  {
    hide CoinsOf;
    CoinsAre(tx, |tx.outputs|, height, n == 1);
    forall o | o in w.spentHere
      ensures o !in left + CoinsOf(tx, height, n == 1)
    {
      if o !in u {
        var j :| 0 <= j < n - 1 && txs[j].txid == o.txid;
        assert txs[j].txid != txs[n - 1].txid;
      }
      NotOf(tx, height, n == 1, o);
    }
  }

  lemma NotOf(tx: Transaction, height: u32, coinbase: bool, o: OutPoint)
    ensures o.txid != tx.txid ==> o !in CoinsOf(tx, height, coinbase)
  {
    CoinsAre(tx, |tx.outputs|, height, coinbase);
  }

  /** Where live coins and spent outpoints come from. */
  lemma {:induction false} LiveFrom(u: Utxo, txs: seq<Transaction>, n: nat, height: u32)
    requires n <= |txs|
    ensures FromBefore(ApplyTxs(u, txs, n, height).Keys, u, txs, n)
  {
    hide CoinsOf;
    if n > 0 {
      LiveFrom(u, txs, n - 1, height);
      var tx := txs[n - 1];
      SpendingOnlyRemoves(ApplyTxs(u, txs, n - 1, height), tx, |tx.inputs|);
      forall o | o in ApplyTxs(u, txs, n, height)
        ensures o in u || exists j :: 0 <= j < n && txs[j].txid == o.txid
      {
        NotOf(tx, height, n == 1, o);
        if o.txid == tx.txid {
          assert txs[n - 1].txid == o.txid;
        }
      }
    }
  }

  lemma {:induction false} SpentAre(w: Walk, u: Utxo, tx: Transaction, ti: nat, n: nat, height: u32)
    requires n <= |tx.inputs|
    ensures forall o :: o in ResolveInputs(w, u, tx, ti, n, height).w.spentHere ==>
              o in w.spentHere || exists k :: 0 <= k < n && tx.inputs[k].prev == o
  {
    hide Lookup, SequenceLock, Premature;
    if n > 0 {
      SpentAre(w, u, tx, ti, n - 1, height);
    }
  }

  lemma SpentFrom(w: Walk, u: Utxo, live: Utxo, txs: seq<Transaction>, n: nat, height: u32)
    requires 1 < n <= |txs| && live == ApplyTxs(u, txs, n - 1, height)
    requires FromBefore(w.spentHere, u, txs, n - 1) && Takes(u, txs, n - 1, height)
    ensures FromBefore(ResolveInputs(w, u, txs[n - 1], n - 1, |txs[n - 1].inputs|, height).w.spentHere, u, txs, n - 1)
  {
    hide ResolveInputs;
    var tx := txs[n - 1];
    SpentAre(w, u, tx, n - 1, |tx.inputs|, height);
    LiveFrom(u, txs, n - 1, height);
    forall o | o in ResolveInputs(w, u, tx, n - 1, |tx.inputs|, height).w.spentHere && o !in w.spentHere
      ensures o in u || exists j :: 0 <= j < n - 1 && txs[j].txid == o.txid
    {
      var k :| 0 <= k < |tx.inputs| && tx.inputs[k].prev == o;
      SpendingOnlyRemoves(live, tx, k);
      assert o in live.Keys;
    }
  }

  lemma WiderFrom(os: set<OutPoint>, u: Utxo, txs: seq<Transaction>, n: nat)
    requires 0 < n <= |txs| && FromBefore(os, u, txs, n - 1)
    ensures FromBefore(os, u, txs, n)
  {
  }

  /** What holds of the walk after `n` transactions that miss nothing. */
  ghost predicate Clean(u: Utxo, txs: seq<Transaction>, n: nat, height: u32)
    requires n <= |txs|
  {
    var w := ResolveTxs(u, txs, n, height);
    && Gone(w, ApplyTxs(u, txs, n, height))
    && FromBefore(w.spentHere, u, txs, n)
  }

  predicate AllTake(u: Utxo, txs: seq<Transaction>, n: nat, height: u32)
    requires n <= |txs|
  {
    forall ti :: 0 < ti < n ==> Takes(u, txs, ti, height)
  }

  predicate AllMature(u: Utxo, txs: seq<Transaction>, n: nat, height: u32)
    requires n <= |txs|
  {
    forall ti :: 0 < ti < n ==> Mature(u, txs, ti, height)
  }

  predicate AllUnlocked(u: Utxo, txs: seq<Transaction>, n: nat, height: u32)
    requires n <= |txs|
  {
    forall ti :: 0 < ti < n ==> Unlocked(u, txs, ti, height)
  }

  predicate AllPay(u: Utxo, txs: seq<Transaction>, n: nat, height: u32)
    requires n <= |txs|
  {
    forall ti :: 0 < ti < n ==> Pays(u, txs, ti, height)
  }

  /** What one transaction leaves over, counted in 64 bits. */
  function FeeOf(u: Utxo, txs: seq<Transaction>, ti: nat, height: u32): nat
    requires ti < |txs|
  {
    if Pays(u, txs, ti, height)
    then Saturate(InTotal(ApplyTxs(u, txs, ti, height), txs[ti], |txs[ti].inputs|)) - OutTotal(txs[ti].outputs, |txs[ti].outputs|)
    else 0
  }

  function FeeTotal(u: Utxo, txs: seq<Transaction>, n: nat, height: u32): nat
    requires n <= |txs|
  {
    if n <= 1 then 0 else FeeTotal(u, txs, n - 1, height) + FeeOf(u, txs, n - 1, height)
  }

  /** One transaction after the coinbase, exactly. */
  lemma TxExact(u: Utxo, txs: seq<Transaction>, n: nat, height: u32)
    requires 1 < n <= |txs| && NewIds(u, txs)
    requires ResolveTxs(u, txs, n - 1, height).s.missing == [] && Clean(u, txs, n - 1, height)
    ensures var s, t := ResolveTxs(u, txs, n - 1, height).s, ResolveTxs(u, txs, n, height).s;
            && (t.missing == [] <==> Takes(u, txs, n - 1, height))
            && (t.missing == [] ==>
                  && Clean(u, txs, n, height)
                  && (t.premature == s.premature <==> Mature(u, txs, n - 1, height))
                  && (t.lockViolations == s.lockViolations <==> Unlocked(u, txs, n - 1, height))
                  && (t.deficits == s.deficits <==> Pays(u, txs, n - 1, height))
                  && t.fees == Saturate(s.fees + FeeOf(u, txs, n - 1, height)))
  {
    hide InputsTake, InputsMature, InputsUnlocked, Agrees, Gone, FromBefore, NewIds, CoinsOf, ResolveTxs, ApplyTxs, ResolveInputs, InTotal;
    var w, live, tx := ResolveTxs(u, txs, n - 1, height), ApplyTxs(u, txs, n - 1, height), txs[n - 1];
    var m := |tx.inputs|;
    BlockStep(u, txs, n, height);
    TxsAgree(u, txs, n - 1, height);
    TxIsInputsThenFinish(w, u, tx, n - 1, height);
    InputsExact(w, u, live, tx, n - 1, m, height);
    var iw := ResolveInputs(w, u, tx, n - 1, m, height);
    if iw.w.s.missing == [] {
      InputsAgree(w, u, live, tx, n - 1, m, height);
      SpentFrom(w, u, live, txs, n, height);
      StaysGone(iw.w, SpendUpTo(live, tx, m), tx, height, u, txs, n);
      WiderFrom(iw.w.spentHere, u, txs, n);
      GoneAlike(iw.w, Finish(iw, tx, height), SpendUpTo(live, tx, m) + CoinsOf(tx, height, false));
    }
  }

  lemma GoneAlike(w: Walk, next: Walk, live: Utxo)
    requires Gone(w, live) && next.spentHere == w.spentHere
    ensures Gone(next, live)
  {
  }

  lemma BlockStep(u: Utxo, txs: seq<Transaction>, n: nat, height: u32)
    requires 1 < n <= |txs|
    ensures ResolveTxs(u, txs, n, height) == ResolveTx(ResolveTxs(u, txs, n - 1, height), u, txs[n - 1], n - 1, height)
    ensures ApplyTxs(u, txs, n, height)
            == SpendUpTo(ApplyTxs(u, txs, n - 1, height), txs[n - 1], |txs[n - 1].inputs|) + CoinsOf(txs[n - 1], height, false)
  {
    hide ResolveTx, SpendUpTo, CoinsOf;
  }

  lemma DeficitsOnlyAdd(u: Utxo, txs: seq<Transaction>, n: nat, height: u32)
    requires 1 < n <= |txs|
    ensures ResolveTxs(u, txs, n - 1, height).s.deficits <= ResolveTxs(u, txs, n, height).s.deficits
  {
    hide ResolveInput;
    var w, tx := ResolveTxs(u, txs, n - 1, height), txs[n - 1];
    SameDeficits(w, u, tx, n - 1, |tx.inputs|, height);
  }

  lemma {:induction false} SameDeficits(w: Walk, u: Utxo, tx: Transaction, ti: nat, n: nat, height: u32)
    requires n <= |tx.inputs|
    ensures ResolveInputs(w, u, tx, ti, n, height).w.s.deficits == w.s.deficits
  {
    hide Lookup, SequenceLock, Premature;
    if n > 0 {
      SameDeficits(w, u, tx, ti, n - 1, height);
    }
  }

  lemma StartClean(u: Utxo, txs: seq<Transaction>, height: u32)
    requires |txs| > 0
    ensures Clean(u, txs, 1, height) && ResolveTxs(u, txs, 1, height).s == NOTHING_SPENT
  {
    assert ResolveTxs(u, txs, 0, height) == Walk(NOTHING_SPENT, {}, map[]);
  }

  /** A block's spending, exactly. With new ids, the walk misses nothing if and
      only if every input after the coinbase finds its coin at its moment; and then
      it reports no young coin, no broken lock and no overspending if and only if
      there is none, and its fee is what the transactions leave over. */
  lemma {:induction false} SpendingIsExact(u: Utxo, txs: seq<Transaction>, n: nat, height: u32)
    requires 1 <= n <= |txs| && NewIds(u, txs)
    ensures var s := ResolveTxs(u, txs, n, height).s;
            && (s.missing == [] <==> AllTake(u, txs, n, height))
            && (s.missing == [] ==>
                  && Clean(u, txs, n, height)
                  && (s.premature == [] <==> AllMature(u, txs, n, height))
                  && (s.lockViolations == [] <==> AllUnlocked(u, txs, n, height))
                  && (s.deficits == [] <==> AllPay(u, txs, n, height))
                  && s.fees == Saturate(FeeTotal(u, txs, n, height)))
  {
    hide ResolveTx, Clean, Takes, Mature, Unlocked, Pays, NewIds, FeeOf;
    if n == 1 {
      StartClean(u, txs, height);
    } else {
      SpendingIsExact(u, txs, n - 1, height);
      TxsOnlyAdd(u, txs, n - 1, n, height);
      DeficitsOnlyAdd(u, txs, n, height);
      SaturateTwice(FeeTotal(u, txs, n - 1, height), FeeOf(u, txs, n - 1, height));
      if ResolveTxs(u, txs, n - 1, height).s.missing == [] {
        TxExact(u, txs, n, height);
      }
    }
  }
}
