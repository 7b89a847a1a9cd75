/** Where each transaction of a mempool ends up (sidestr-core/src/overlays.rs
    `sequence`): every one the pass reaches is kept or dropped, never both, in
    mempool order, and a dropped one is named with the first rule that refuses it. */
module Placement {
  import opened Prelude
  import opened Transactions
  import opened Assets
  import opened Overlays
  import opened Sequencing

  predicate Increasing(s: seq<nat>) { forall i, j :: 0 <= i < j < |s| ==> s[i] < s[j] }

  predicate DropsIncrease(s: seq<(nat, Rule)>) { forall i, j :: 0 <= i < j < |s| ==> s[i].0 < s[j].0 }

  predicate DroppedAt(dropped: seq<(nat, Rule)>, i: nat) { exists r :: (i, r) in dropped }

  /** The transaction is refused by `r` and by no rule before it, as the assets, the
      pools and the markets rule judge it one after another. */
  ghost predicate FirstRefusedBy(rules: Rules, policy: Policy, v: Views, tx: Transaction, height: u32, scripts: map<nat, Script>, r: Rule)
  {
    var assets := JudgeAssets(v.assets, tx, height, policy);
    match r
    case AssetsRule => assets.None?
    case PoolRule => assets.Some? && JudgePool(rules, v.pools, tx, assets.value.1, height, false).None?
    case MarketsRule =>
      && assets.Some? && JudgePool(rules, v.pools, tx, assets.value.1, height, false).Some?
      && JudgeMarket(rules, v.markets, tx, assets.value.1, height, false, scripts).None?
  }

  /** The pool check panics on a transaction the assets rule passes. */
  ghost predicate PanicsOn(rules: Rules, policy: Policy, v: Views, tx: Transaction, height: u32)
  {
    var assets := JudgeAssets(v.assets, tx, height, policy);
    assets.Some? && WalkPool(rules, v.pools, tx, assets.value.1, height, false) == Halts
  }

  /** What the pass makes of transaction `i`, from the queue before it to a later one:
      nothing once a check has panicked; otherwise it is kept or dropped, not both, and
      dropped under exactly the first rule that refuses it. */
  ghost predicate Placed(rules: Rules, policy: Policy, coins: Utxo, tx: Transaction, i: nat, height: u32, before: Queue, later: Queue)
  {
    if before.halted || PanicsOn(rules, policy, before.v, tx, height) then i !in later.kept && !DroppedAt(later.dropped, i)
    else
      && (i in later.kept <==> !DroppedAt(later.dropped, i))
      && forall r :: (i, r) in later.dropped <==>
           FirstRefusedBy(rules, policy, before.v, tx, height, FoundScripts(before.created, coins, tx), r)
  }

  /** The pass reaches transaction `i`, and its pool check panics. */
  ghost predicate PanicsAt(rules: Rules, v: Views, coins: Utxo, txs: seq<Transaction>, i: nat, height: u32)
    requires i < |txs|
  {
    var before := Sequenced(rules, v, coins, txs, i, height);
    !before.halted && PanicsOn(rules, PolicyOf(rules, v), before.v, txs[i], height)
  }

  lemma RefusalIsFirst(rules: Rules, policy: Policy, v: Views, tx: Transaction, height: u32, scripts: map<nat, Script>)
    ensures forall r :: Refusal(rules, policy, v, tx, height, scripts) == Some(r) <==> FirstRefusedBy(rules, policy, v, tx, height, scripts, r)
    ensures PoolHalts(rules, policy, v, tx, height) == PanicsOn(rules, policy, v, tx, height)
  {
    hide JudgeAssets, WalkPool, JudgeMarket;
  }

  /** The lists name only transactions the pass has reached. */
  ghost predicate Reached(q: Queue, n: nat)
  {
    && (forall i :: i in q.kept ==> i < n)
    && (forall d :: d in q.dropped ==> d.0 < n)
  }

  lemma OneStep(rules: Rules, policy: Policy, coins: Utxo, q: Queue, tx: Transaction, i: nat, height: u32)
    requires Increasing(q.kept) && DropsIncrease(q.dropped) && Reached(q, i)
    ensures var next := Enqueue(rules, policy, coins, q, tx, i, height);
            && Increasing(next.kept) && DropsIncrease(next.dropped) && Reached(next, i + 1)
            && Placed(rules, policy, coins, tx, i, height, q, next)
            && (next.halted <==> q.halted || PanicsOn(rules, policy, q.v, tx, height))
            && (forall j :: j < i ==> (j in next.kept <==> j in q.kept))
            && (forall j, r :: j < i ==> ((j, r) in next.dropped <==> (j, r) in q.dropped))
  {
    hide Refusal, PoolHalts, Step, OutputScripts, FoundScripts, KeptViews, FirstRefusedBy, PanicsOn, Increasing, DropsIncrease;
    RefusalIsFirst(rules, policy, q.v, tx, height, FoundScripts(q.created, coins, tx));
    KeepOne(q.kept, i);
    forall r | Refusal(rules, policy, q.v, tx, height, FoundScripts(q.created, coins, tx)) == Some(r)
      ensures DropsIncrease(q.dropped + [(i, r)]) && DroppedAt(q.dropped + [(i, r)], i)
    {
      DropOne(q.dropped, i, r);
    }
    assert i !in q.kept && !DroppedAt(q.dropped, i);
  }

  lemma KeepOne(kept: seq<nat>, i: nat)
    requires Increasing(kept) && forall j :: j in kept ==> j < i
    ensures Increasing(kept + [i])
  {
    assert forall k :: 0 <= k < |kept| ==> kept[k] in kept;
  }

  lemma DropOne(dropped: seq<(nat, Rule)>, i: nat, r: Rule)
    requires DropsIncrease(dropped) && forall d :: d in dropped ==> d.0 < i
    ensures DropsIncrease(dropped + [(i, r)]) && DroppedAt(dropped + [(i, r)], i)
  {
    var next := dropped + [(i, r)];
    assert next[|dropped|] == (i, r);
  }

  /** Sequencing places every transaction: after `n`, the kept and the dropped are in
      mempool order, and each of the first `n` is placed as the views before it say. */
  lemma {:induction false} EveryTransactionPlaced(rules: Rules, v: Views, coins: Utxo, txs: seq<Transaction>, n: nat, height: u32)
    requires n <= |txs|
    ensures var q := Sequenced(rules, v, coins, txs, n, height);
            && Increasing(q.kept) && DropsIncrease(q.dropped) && Reached(q, n)
            && (forall i: nat :: i < n ==>
                  Placed(rules, PolicyOf(rules, v), coins, txs[i], i, height, Sequenced(rules, v, coins, txs, i, height), q))
            && (q.halted <==> exists i: nat :: i < n && PanicsAt(rules, v, coins, txs, i, height))
  {
    hide Enqueue, Placed, PanicsOn, PolicyOf, Increasing, DropsIncrease;
    if n == 0 {
      NothingPlaced();
    } else {
      EveryTransactionPlaced(rules, v, coins, txs, n - 1, height);
      var q, next := Sequenced(rules, v, coins, txs, n - 1, height), Sequenced(rules, v, coins, txs, n, height);
      OneStep(rules, PolicyOf(rules, v), coins, q, txs[n - 1], n - 1, height);
      if next.halted && !q.halted {
        assert PanicsAt(rules, v, coins, txs, n - 1, height);
      }
      forall i: nat | i < n - 1
        ensures Placed(rules, PolicyOf(rules, v), coins, txs[i], i, height, Sequenced(rules, v, coins, txs, i, height), next)
      {
        StaysPlaced(rules, PolicyOf(rules, v), coins, txs[i], i, height, Sequenced(rules, v, coins, txs, i, height), q, next);
      }
    }
  }

  lemma NothingPlaced()
    ensures Increasing([]) && DropsIncrease([])
  {
  }

  lemma StaysPlaced(rules: Rules, policy: Policy, coins: Utxo, tx: Transaction, i: nat, height: u32, before: Queue, q: Queue, next: Queue)
    requires Placed(rules, policy, coins, tx, i, height, before, q)
    requires i in next.kept <==> i in q.kept
    requires forall r :: (i, r) in next.dropped <==> (i, r) in q.dropped
    ensures Placed(rules, policy, coins, tx, i, height, before, next)
  {
    hide PanicsOn, FirstRefusedBy, FoundScripts;
  }
}
