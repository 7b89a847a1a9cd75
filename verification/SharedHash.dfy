/** Blocks that show where the limits of `HeldViews` lie (sidestr-core/src/assets.rs,
    pool.rs, markets.rs): a second body under a checked block's header hash, an
    entry that outlives a block, and blocks whose checks panic. */
module SharedHash {
  import opened Prelude
  import opened Transactions
  import opened Assets
  import opened CollateralCoins
  import opened Overlays
  import opened HeldViews
  import opened PoolArithmetic
  import Pools
  import Markets

  const NO_RECORDS := Classified([], [], [], [], [], [])
  const COINBASE := Transaction(Hash(1), 2, 0, [TxIn(NULL_OUTPOINT, [], 0, [])], [], NO_RECORDS)
  const ISSUE := Transaction(Hash(2), 2, 0, [], [], NO_RECORDS.(issues := [Issue("A", 0)]))

  /** No rule beyond the assets, and nothing held. */
  const PLAIN := Rules(false, None)
  const EMPTY := Held(NO_VIEWS, [], [], [])

  // --- two bodies under one hash ----------------------------------------------------------------

  /** A block of a coinbase alone, and the same header over one transaction more. */
  const BLOCK: Candidate := Body(7, [COINBASE], 1, [map[]])
  const OTHER: Candidate := Body(7, [COINBASE, ISSUE], 1, [map[], map[]])

  lemma CoinbaseAlone(view: View, txs: seq<Transaction>, height: u32, policy: Policy)
    requires |txs| > 0 && txs[0] == COINBASE && COINBASE.inputs[0].prev !in view.carried
    ensures AssetsOver(view, txs, 1, height, policy) == Leaves((view, [Trace(map[], map[])]))
  {
    assert InputCarries(view.carried, COINBASE) == map[];
  }

  lemma IssueRegisters(height: u32, policy: Policy)
    ensures JudgeAssets(EMPTY_VIEW, ISSUE, height, policy).Some?
    ensures Hash(2) in JudgeAssets(EMPTY_VIEW, ISSUE, height, policy).value.0.issued
  {
  }

  /** Between a block's check and its application other bodies must have other
      hashes: one under the same hash takes the block's place, and the views left
      are the other body's. */
  lemma HashesMustDiffer()
    ensures VerdictOn(PLAIN, NO_VIEWS, BLOCK) == Some(NO_VIEWS)
    ensures AfterCheck(PLAIN, EMPTY, BLOCK).1 == Passed
    ensures OTHER.hash == BLOCK.hash
    ensures Hash(2) in AfterApply(PLAIN, AfterCheck(PLAIN, AfterCheck(PLAIN, EMPTY, BLOCK).0, OTHER).0, BLOCK).views.assets.issued
  {
    hide AfterCheck, AfterApply, PoolsOver, MarketsOver, JudgeAssets;
    var policy := PolicyOf(PLAIN, NO_VIEWS);
    CoinbaseAlone(EMPTY_VIEW, BLOCK.txs, 1, policy);
    CoinbaseAlone(EMPTY_VIEW, OTHER.txs, 1, policy);
    IssueRegisters(1, policy);
    PlainVerdict(NO_VIEWS, BLOCK);
    PlainVerdict(NO_VIEWS, OTHER);
    var h := AfterCheck(PLAIN, EMPTY, BLOCK).0;
    CheckedIsVerdict(PLAIN, EMPTY, BLOCK);
    CheckedIsVerdict(PLAIN, h, OTHER);
    AppliedFound(AfterCheck(PLAIN, h, OTHER).0, BLOCK);
  }

  /** With no collateral rule the verdict is the assets rule's. */
  lemma PlainVerdict(v: Views, b: Candidate)
    ensures var w := AssetsOf(PLAIN, v, b);
            VerdictOn(PLAIN, v, b) == if w.Leaves? then Some(v.(assets := w.left.0)) else None
  {
    hide AssetsOver, PoolsOver, MarketsOver, PolicyOf;
    var w := AssetsOf(PLAIN, v, b);
    if w.Leaves? {
      TracesLength(v.assets, b.txs, |b.txs|, b.height, PolicyOf(PLAIN, v));
      NoPoolRule(PLAIN, v.pools, b.txs, w.left.1, b.height);
      MarketsIdle(PLAIN, v.markets, b.txs, w.left.1, b.height, b.scripts);
    }
  }

  lemma AppliedFound(h: Held, b: Candidate)
    ensures Found(h.assets, b.hash).Some? ==> AfterApply(PLAIN, h, b).views.assets == Found(h.assets, b.hash).value.0
  {
    hide Found, ApplyTxs, PolicyOf;
  }

  // --- an entry that outlives a block -----------------------------------------------------------

  /** Markets from height 10; the block above judged at that height. */
  const LATER := Rules(false, Some(10))
  const EARLY: Candidate := Body(8, [COINBASE], 5, [map[]])
  const LATE: Candidate := Body(7, [COINBASE], 10, [map[]])

  /** What a candidate judged at a later height left for the markets is still there
      after a block below their first height is applied; the other rules forget. */
  lemma EntryOutlivesBlock()
    ensures var h := AfterCall(LATER, AfterCall(LATER, EMPTY, Judge(LATE)).0, Apply(EARLY, true)).0;
            h.assets == [] && |h.markets| == 1
  {
    hide AssetsOver, MarketsOver;
    var policy := PolicyOf(LATER, NO_VIEWS);
    CoinbaseAlone(EMPTY_VIEW, LATE.txs, 10, policy);
    CoinbaseAlone(EMPTY_VIEW, EARLY.txs, 5, policy);
    NoMarketTouched();
    hide PolicyOf;
  }

  lemma NoMarketTouched()
    ensures MarketsOver(LATER, NO_VIEWS.markets, [COINBASE], [Trace(map[], map[])], 10, [map[]]) == Some(NO_VIEWS.markets)
  {
    hide Spent;
    assert [Trace(map[], map[])][..0] == [];
    assert MarketsOver(LATER, NO_VIEWS.markets, [COINBASE], [], 10, [map[]]) == Some(NO_VIEWS.markets);
  }

  // --- a block held nowhere ----------------------------------------------------------------------

  /** A block applied that no check left anything of: its assets are read all the same. */
  lemma UnheldIsRead()
    ensures Hash(2) in AfterApply(PLAIN, EMPTY, OTHER).views.assets.issued
  {
    hide PolicyOf;
    var policy := PolicyOf(PLAIN, NO_VIEWS);
    assert ApplyTxs(EMPTY_VIEW, OTHER.txs, 0, 1, policy) == EMPTY_VIEW;
    assert ApplyTxs(EMPTY_VIEW, OTHER.txs, 1, 1, policy) == EMPTY_VIEW;
    IssueRegisters(1, policy);
  }

  /** Applying a block forgets every entry of the rules that run at its height, and keeps
      those of the others. */
  lemma AppliedForgets(rules: Rules, h: Held, b: Candidate)
    ensures var next := AfterApply(rules, h, b);
            && next.assets == []
            && next.pools == (if rules.pool then [] else h.pools)
            && next.markets == if rules.markets.Some? && b.height >= rules.markets.value then [] else h.markets
  {
    hide Found, PolicyOf, ApplyTxs;
  }

  // --- checks that panic ---------------------------------------------------------------------------

  const SECOND_COINBASE := Transaction(Hash(3), 2, 0, [TxIn(NULL_OUTPOINT, [], 0, [])], [], NO_RECORDS)
  const TWO_COINBASES: Candidate := Body(9, [COINBASE, SECOND_COINBASE], 1, [map[], map[]])

  /** A second coinbase-shaped transaction has no outcome for the walk to read. */
  lemma SecondCoinbaseHalts()
    ensures AssetsOver(EMPTY_VIEW, TWO_COINBASES.txs, 2, 1, PolicyOf(PLAIN, NO_VIEWS)) == Halts
    ensures AfterCheck(PLAIN, EMPTY, TWO_COINBASES) == (EMPTY, Panicked)
  {
    hide PolicyOf;
    CoinbaseAlone(EMPTY_VIEW, TWO_COINBASES.txs, 1, PolicyOf(PLAIN, NO_VIEWS));
  }

  /** A pool of one sat and one unit, recreated with the largest 64-bit value beside
      twenty million million units. */
  const POOL := Pools.Pool(Hash(4), Hash(5), 1, 1, 1, OutPoint(Hash(4), 0), 1)
  const BOOK := Pools.PoolBook(map[Hash(4) := POOL], map[POOL.outpoint := Hash(4)])
  const SWAP := Transaction(Hash(6), 2, 0, [TxIn(POOL.outpoint, [], 0, [])], [TxOut(U64_MAX, OP_TRUE)],
                            NO_RECORDS.(pools := [PoolRecord(Id(Hash(4)), 0)]))
  const SWAPPED := Trace(map[], map[0 := map[Hash(5) := 20_000_000_000_000]])

  lemma SwapCheckHalts(height: u32)
    ensures Pools.CheckPool(BOOK, SWAP, SWAPPED, height, false) == Err(Pools.BadTransition(Stops))
    ensures Pools.SoundBook(BOOK)
  {
    hide Transition;
    SwapThatStops();
    assert SpentUpTo(BOOK.byOutpoint, SWAP, 0) == [];
    TotalEmpty<OutPoint>(Hash(4));
    NoShares();
    hide Total;
  }

  lemma NoShares()
    ensures Total(SWAPPED.outputs, Hash(4)) == 0
  {
    TotalZero(SWAPPED.outputs, Hash(4));
  }

  // --- and when none does --------------------------------------------------------------------------

  lemma {:induction false} TracesRecordable(view: View, txs: seq<Transaction>, n: nat, height: u32, policy: Policy)
    requires n <= |txs|
    ensures AssetsOver(view, txs, n, height, policy).Leaves? ==>
              && |AssetsOver(view, txs, n, height, policy).left.1| == n
              && RecordableTraces(AssetsOver(view, txs, n, height, policy).left.1)
  {
    hide Check, ApplyTx, RecordableCarry;
    TracesLength(view, txs, n, height, policy);
    if !AssetsOver(view, txs, n, height, policy).Leaves? {
    } else if n == 1 && !IsCoinbase(txs[0]) {
      CheckedRecordable(view.carried, txs[0], policy);
    } else if n > 1 {
      TracesRecordable(view, txs, n - 1, height, policy);
      CheckedRecordable(AssetsOver(view, txs, n - 1, height, policy).left.0.carried, txs[n - 1], policy);
    }
  }

  ghost predicate RecordableTraces(traces: seq<Trace>)
  {
    forall i, v :: 0 <= i < |traces| && v in traces[i].outputs ==> RecordableCarry(traces[i].outputs[v])
  }

  lemma {:induction false} PoolsNeverHalt(rules: Rules, book: Pools.PoolBook, txs: seq<Transaction>, traces: seq<Trace>, height: u32)
    requires |traces| <= |txs| && Pools.SoundBook(book) && RecordableTraces(traces)
    requires forall i :: 0 <= i < |txs| ==> Pools.MoneyInRange(txs[i])
    ensures !PoolsOver(rules, book, txs, traces, height).Halts?
    ensures PoolsOver(rules, book, txs, traces, height).Leaves? ==> Pools.SoundBook(PoolsOver(rules, book, txs, traces, height).left)
    decreases |traces|
  {
    hide Pools.CheckPool, Pools.SoundBook, Pools.MoneyInRange, RecordableCarry, Pools.Halting;
    if |traces| > 0 {
      var n := |traces| - 1;
      PoolsNeverHalt(rules, book, txs, traces[..n], height);
      var before := PoolsOver(rules, book, txs, traces[..n], height);
      if before.Leaves? {
        Pools.InRangeNeverHalts(before.left, txs[n], traces[n], height, n == 0);
      }
    }
  }

  /** The traces held under any hash are the assets rule's, so recordable. */
  ghost predicate HeldRecordable(h: Held)
  {
    forall hash :: HeldUnder(h, hash)
  }

  ghost predicate HeldUnder(h: Held, hash: nat)
  {
    Found(h.assets, hash).Some? ==> RecordableTraces(Found(h.assets, hash).value.1)
  }

  lemma CheckKeepsRecordable(rules: Rules, h: Held, b: Candidate)
    requires HeldRecordable(h)
    ensures HeldRecordable(AfterAssets(rules, h, b).0) && HeldRecordable(AfterCheck(rules, h, b).0)
  {
    hide AssetsOver, PoolsOver, MarketsOver, PolicyOf, Offered, RecordableTraces, Found, TracesFor;
    var w := AssetsOf(rules, h.views, b);
    if w.Leaves? {
      TracesRecordable(h.views.assets, b.txs, |b.txs|, b.height, PolicyOf(rules, h.views));
      forall hash
        ensures HeldUnder(AfterAssets(rules, h, b).0, hash)
      {
        FoundOffered(h.assets, b.hash, w.left, hash);
        assert HeldUnder(h, hash);
      }
    }
    assert AfterCheck(rules, h, b).0.assets == AfterAssets(rules, h, b).0.assets;
    forall hash
      ensures HeldUnder(AfterCheck(rules, h, b).0, hash)
    {
      assert HeldUnder(AfterAssets(rules, h, b).0, hash);
    }
  }

  /** A body with no coinbase-shaped transaction after the first and every amount in
      range panics no rule, from any sound pools, whatever other bodies left held. */
  lemma InRangeBlockAnswers(rules: Rules, h: Held, b: Candidate)
    requires Pools.SoundBook(h.views.pools) && HeldRecordable(h)
    requires forall i :: 0 <= i < |b.txs| ==> Pools.MoneyInRange(b.txs[i]) && (i > 0 ==> !IsCoinbase(b.txs[i]))
    ensures AfterCheck(rules, h, b).1 != Panicked
  {
    hide AssetsOver, PoolsOver, MarketsOver, PolicyOf, Offered, Pools.SoundBook, Pools.MoneyInRange, RecordableTraces, HeldRecordable,
      IsCoinbase, Found;
    AssetsHaltExactly(h.views.assets, b.txs, |b.txs|, b.height, PolicyOf(rules, h.views));
    CheckKeepsRecordable(rules, h, b);
    var h1 := AfterAssets(rules, h, b).0;
    UnderHash(h1, b.hash);
    if TracesFor(h1, b).Some? {
      PoolsNeverHalt(rules, h.views.pools, b.txs, TracesFor(h1, b).value, b.height);
    }
  }

  lemma UnderHash(h: Held, hash: nat)
    requires HeldRecordable(h)
    ensures HeldUnder(h, hash)
  {
  }
}
