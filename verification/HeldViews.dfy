/** The three overlay rules as a node holds them between blocks
    (sidestr-core/src/assets.rs, pool.rs, markets.rs): the applied views, and the
    views that checked candidates would leave, kept by header hash until a block
    is applied. A header hash does not name a body, and every rule runs on every
    candidate, whatever the structure rules found of it; so entries of other bodies
    under the same hash are there. They are proved never to matter: judging and
    applying blocks leaves exactly what judging each applied block alone leaves. */
module HeldViews {
  import opened Prelude
  import opened Transactions
  import opened Assets
  import opened AssetViews
  import opened CollateralCoins
  import opened Overlays
  import Pools
  import Markets

  // --- pending entries ---------------------------------------------------------------------------

  datatype Pending<T> = Pending(hash: nat, left: T)

  /** The first entry for a hash. */
  function Found<T>(pending: seq<Pending<T>>, hash: nat): Option<T>
  {
    if |pending| == 0 then None
    else if pending[0].hash == hash then Some(pending[0].left)
    else Found(pending[1..], hash)
  }

  /** The entries of other hashes, in order. */
  function Without<T>(pending: seq<Pending<T>>, hash: nat): seq<Pending<T>>
  {
    if |pending| == 0 then []
    else (if pending[0].hash == hash then [] else [pending[0]]) + Without(pending[1..], hash)
  }

  function Offered<T>(pending: seq<Pending<T>>, hash: nat, left: T): seq<Pending<T>>
  {
    Without(pending, hash) + [Pending(hash, left)]
  }

  /** After an offer its hash finds it, whatever was held before, and every other
      hash finds what it did. */
  lemma {:induction false} FoundOffered<T>(pending: seq<Pending<T>>, hash: nat, left: T, other: nat)
    ensures Found(Offered(pending, hash, left), other) == if other == hash then Some(left) else Found(pending, other)
  {
    if |pending| > 0 {
      FoundOffered(pending[1..], hash, left, other);
      var rest := Offered(pending[1..], hash, left);
      if pending[0].hash != hash {
        assert Offered(pending, hash, left) == [pending[0]] + rest;
        assert ([pending[0]] + rest)[1..] == rest;
      } else {
        assert Offered(pending, hash, left) == rest;
      }
    }
  }

  lemma {:induction false} WithoutMore<T>(pending: seq<Pending<T>>, n: nat, hash: nat)
    requires n < |pending|
    ensures Without(pending[..n + 1], hash)
            == Without(pending[..n], hash) + if pending[n].hash == hash then [] else [pending[n]]
  {
    if n == 0 {
      assert pending[..1][1..] == [];
      assert pending[..0] == [];
    } else {
      WithoutMore(pending[1..], n - 1, hash);
      assert pending[..n + 1][1..] == pending[1..][..n];
      assert pending[..n][1..] == pending[1..][..n - 1];
    }
  }

  /** Drop every entry under a hash and push a new one. */
  method Offer<T>(pending: seq<Pending<T>>, hash: nat, left: T) returns (next: seq<Pending<T>>)
    ensures next == Offered(pending, hash, left)
  {
    next := [];
    for i := 0 to |pending|
      invariant next == Without(pending[..i], hash)
    {
      WithoutMore(pending, i, hash);
      if pending[i].hash != hash { next := next + [pending[i]]; }
    }
    assert pending[..|pending|] == pending;
    next := next + [Pending(hash, left)];
  }

  // --- a candidate, rule by rule ----------------------------------------------------------------

  /** A candidate as the rules see it: the hash of its header, its transactions, the
      height it is judged at, and the scripts its resolved spending shows. Nothing
      ties the transactions to the hash. */
  datatype Body = Body(hash: nat, txs: seq<Transaction>, height: u32, scripts: seq<map<nat, Script>>)

  type Candidate = b: Body | |b.scripts| == |b.txs| witness Body(0, [], 0, [])

  lemma {:induction false} AssetsStick(view: View, txs: seq<Transaction>, m: nat, n: nat, height: u32, policy: Policy)
    requires 1 <= m <= n <= |txs|
    ensures !AssetsOver(view, txs, m, height, policy).Leaves? ==>
              AssetsOver(view, txs, n, height, policy) == AssetsOver(view, txs, m, height, policy)
  {
    hide JudgeAssets, JudgeFirst, IsCoinbase;
    if m < n {
      AssetsStick(view, txs, m, n - 1, height, policy);
    }
  }

  lemma OneRead(view: View, tx: Transaction, height: u32, policy: Policy)
    ensures ApplyTxs(view, [tx], 1, height, policy) == if IsCoinbase(tx) then view else ApplyTx(view, tx, height, policy)
    ensures OutcomesUpTo(view, [tx], 1, height, policy) == if IsCoinbase(tx) then [] else [OutcomeOf(view.carried, tx, policy)]
  {
    hide ApplyTx, OutcomeOf;
    assert ApplyTxs(view, [tx], 0, height, policy) == view;
    assert OutcomesUpTo(view, [tx], 0, height, policy) == [];
  }

  /** The assets rule over a block: a copy of the view, changed one transaction at a
      time, each as a list of one that has an outcome unless it is coinbase-shaped. */
  method AssetsCandidate(view: View, txs: seq<Transaction>, height: u32, policy: Policy) returns (w: Walk<(View, seq<Trace>)>)
    ensures w == AssetsOver(view, txs, |txs|, height, policy)
  {
    hide Check, ApplyTx, InputCarries, ApplyTxs, OutcomesUpTo, NoAssetRecords, IsCoinbase, SummedIn, RefusedUnread;
    if |txs| > 0 && !NoAssetRecords(txs[0]) {
      AssetsStick(view, txs, 1, |txs|, height, policy);
      return Refuses;
    }
    var next := new AssetView.Of(view);
    var traces: seq<Trace> := [];
    for i := 0 to |txs|
      invariant fresh(next)
      invariant AssetsOver(view, txs, i, height, policy) == Leaves((next.State(), traces))
    {
      var inputs := InputCarries(next.carried, txs[i]);
      if i == 0 && IsCoinbase(txs[0]) {
        traces := traces + [Trace(inputs, map[])];
        assert traces == [Trace(inputs, map[])];
        continue;
      }
      OneRead(next.State(), txs[i], height, policy);
      var outcomes := next.ApplyTransactions([txs[i]], height, policy);
      if |outcomes| == 0 {
        AssetsStick(view, txs, i + 1, |txs|, height, policy);
        return Halts;
      }
      if outcomes[0].result.Err? {
        AssetsStick(view, txs, i + 1, |txs|, height, policy);
        return Refuses;
      }
      traces := traces + [Trace(inputs, outcomes[0].result.value)];
      assert i == 0 ==> traces == [Trace(inputs, outcomes[0].result.value)];
    }
    return Leaves((View(next.carried, next.issued), traces));
  }

  /** The walk halts exactly at a coinbase-shaped transaction after the first, when
      everything before it passes. */
  lemma {:induction false} AssetsHaltExactly(view: View, txs: seq<Transaction>, n: nat, height: u32, policy: Policy)
    requires n <= |txs|
    ensures AssetsOver(view, txs, n, height, policy).Halts?
            <==> exists i: nat :: 0 < i < n && IsCoinbase(txs[i]) && AssetsOver(view, txs, i, height, policy).Leaves?
    ensures AssetsOver(view, txs, n, height, policy).Leaves? ==> forall i :: 0 < i < n ==> !IsCoinbase(txs[i])
  {
    hide JudgeAssets, JudgeFirst, IsCoinbase;
    if n > 1 {
      AssetsHaltExactly(view, txs, n - 1, height, policy);
    }
  }

  lemma {:induction false} PoolsStick(rules: Rules, book: Pools.PoolBook, txs: seq<Transaction>, traces: seq<Trace>, m: nat, height: u32)
    requires m <= |traces| <= |txs|
    ensures !PoolsOver(rules, book, txs, traces[..m], height).Leaves? ==>
              PoolsOver(rules, book, txs, traces, height) == PoolsOver(rules, book, txs, traces[..m], height)
    decreases |traces|
  {
    hide WalkPool;
    if m == |traces| {
      assert traces[..m] == traces;
    } else {
      assert traces[..|traces| - 1][..m] == traces[..m];
      PoolsStick(rules, book, txs, traces[..|traces| - 1], m, height);
    }
  }

  method PoolsCandidate(rules: Rules, book: Pools.PoolBook, txs: seq<Transaction>, traces: seq<Trace>, height: u32)
    returns (w: Walk<Pools.PoolBook>)
    requires rules.pool && |traces| == |txs|
    ensures w == PoolsOver(rules, book, txs, traces, height)
  {
    hide Pools.CheckPool;
    var next := new Pools.PoolView.Of(book);
    assert traces[..0] == [];
    for i := 0 to |txs|
      invariant fresh(next)
      invariant PoolsOver(rules, book, txs, traces[..i], height) == Leaves(next.Book())
    {
      assert traces[..i + 1][..i] == traces[..i];
      var effect := next.Check(txs[i], traces[i], height, i == 0);
      if effect.Err? {
        PoolsStick(rules, book, txs, traces, i + 1, height);
        return if Pools.Halting(effect.error) then Halts else Refuses;
      }
      if effect.value.Some? { next.Apply(effect.value.value); }
    }
    assert traces[..|txs|] == traces;
    return Leaves(Pools.PoolBook(next.pools, next.byOutpoint));
  }

  lemma {:induction false} MarketsStick(rules: Rules, book: Markets.MarketBook, txs: seq<Transaction>, traces: seq<Trace>,
                                        m: nat, height: u32, scripts: seq<map<nat, Script>>)
    requires m <= |traces| <= |txs| == |scripts|
    ensures MarketsOver(rules, book, txs, traces[..m], height, scripts).None? ==>
              MarketsOver(rules, book, txs, traces, height, scripts).None?
    decreases |traces|
  {
    hide JudgeMarket;
    if m == |traces| {
      assert traces[..m] == traces;
    } else {
      assert traces[..|traces| - 1][..m] == traces[..m];
      MarketsStick(rules, book, txs, traces[..|traces| - 1], m, height, scripts);
    }
  }

  method MarketsCandidate(rules: Rules, book: Markets.MarketBook, txs: seq<Transaction>, traces: seq<Trace>, height: u32,
                          scripts: seq<map<nat, Script>>)
    returns (r: Option<Markets.MarketBook>)
    requires MarketsActive(rules, height) && |traces| == |txs| == |scripts|
    ensures r == MarketsOver(rules, book, txs, traces, height, scripts)
  {
    hide Markets.CheckMarket;
    var next := new Markets.MarketView.Of(book);
    assert traces[..0] == [];
    for i := 0 to |txs|
      invariant fresh(next)
      invariant MarketsOver(rules, book, txs, traces[..i], height, scripts) == Some(next.Book())
    {
      assert traces[..i + 1][..i] == traces[..i];
      var effect := next.Check(txs[i], traces[i], height, i == 0, scripts[i]);
      if effect.Err? {
        MarketsStick(rules, book, txs, traces, i + 1, height, scripts);
        return None;
      }
      if effect.value.Some? { next.Apply(effect.value.value); }
    }
    assert traces[..|txs|] == traces;
    return Some(Markets.MarketBook(next.markets, next.byOutpoint));
  }

  // --- what a node holds, as a value ------------------------------------------------------------

  /** The applied views and each rule's pending entries. */
  datatype Held = Held(
    views: Views,
    assets: seq<Pending<(View, seq<Trace>)>>,
    pools: seq<Pending<Pools.PoolBook>>,
    markets: seq<Pending<Markets.MarketBook>>)

  /** How a check ends. */
  datatype Answer = Passed | Failed | Panicked

  ghost function AssetsOf(rules: Rules, v: Views, b: Candidate): Walk<(View, seq<Trace>)>
  {
    AssetsOver(v.assets, b.txs, |b.txs|, b.height, PolicyOf(rules, v))
  }

  /** The assets rule offers what a passing candidate leaves; otherwise whatever is
      held under the hash stays. */
  ghost function AfterAssets(rules: Rules, h: Held, b: Candidate): (Held, Answer)
  {
    var w := AssetsOf(rules, h.views, b);
    if w.Leaves? then (h.(assets := Offered(h.assets, b.hash, w.left)), Passed)
    else (h, if w.Halts? then Panicked else Failed)
  }

  /** The other two rules run on the traces held under the hash, this body's or
      not, as long as they are as many as its transactions. */
  ghost function TracesFor(h: Held, b: Candidate): Option<seq<Trace>>
  {
    var held := Found(h.assets, b.hash);
    if held.Some? && |held.value.1| == |b.txs| then Some(held.value.1) else None
  }

  ghost function AfterPools(rules: Rules, h: Held, b: Candidate): (Held, Answer)
  {
    var traces := TracesFor(h, b);
    if !rules.pool then (h, Passed)
    else if traces.None? then (h, Failed)
    else
      var w := PoolsOver(rules, h.views.pools, b.txs, traces.value, b.height);
      if w.Leaves? then (h.(pools := Offered(h.pools, b.hash, w.left)), Passed)
      else (h, if w.Halts? then Panicked else Failed)
  }

  ghost function AfterMarkets(rules: Rules, h: Held, b: Candidate): (Held, Answer)
  {
    var traces := TracesFor(h, b);
    if !MarketsActive(rules, b.height) then (h, Passed)
    else if traces.None? then (h, Failed)
    else
      var r := MarketsOver(rules, h.views.markets, b.txs, traces.value, b.height, b.scripts);
      if r.Some? then (h.(markets := Offered(h.markets, b.hash, r.value)), Passed) else (h, Failed)
  }

  /** Every rule runs, whatever the ones before it answered, unless one panics. */
  ghost function AfterCheck(rules: Rules, h: Held, b: Candidate): (Held, Answer)
  {
    var (h1, a1) := AfterAssets(rules, h, b);
    if a1 == Panicked then (h1, Panicked)
    else
      var (h2, a2) := AfterPools(rules, h1, b);
      if a2 == Panicked then (h2, Panicked)
      else
        var (h3, a3) := AfterMarkets(rules, h2, b);
        (h3, if a1 == a2 == a3 == Passed then Passed else Failed)
  }

  /** Apply a block: what is held under its hash becomes the applied view of each
      rule that runs at its height, and every entry of such a rule is forgotten. The
      assets of a block held nowhere are read as any block's. */
  ghost function AfterApply(rules: Rules, h: Held, b: Candidate): Held
  {
    var asset, pool, market := Found(h.assets, b.hash), Found(h.pools, b.hash), Found(h.markets, b.hash);
    var active := MarketsActive(rules, b.height);
    Held(Views(if asset.Some? then asset.value.0
               else ApplyTxs(h.views.assets, b.txs, |b.txs|, b.height, PolicyOf(rules, h.views)),
               if rules.pool && pool.Some? then pool.value else h.views.pools,
               if active && market.Some? then market.value else h.views.markets),
         [],
         if rules.pool then [] else h.pools,
         if active then [] else h.markets)
  }

  // --- one candidate ------------------------------------------------------------------------------

  /** What the three rules say of a candidate on some views, each from scratch. */
  ghost function VerdictOn(rules: Rules, v: Views, b: Candidate): Option<Views>
  {
    Validated(rules, v, b.txs, |b.txs|, b.height, b.scripts)
  }

  lemma {:induction false} NoPoolRule(rules: Rules, book: Pools.PoolBook, txs: seq<Transaction>, traces: seq<Trace>, height: u32)
    requires !rules.pool && |traces| <= |txs|
    ensures PoolsOver(rules, book, txs, traces, height) == Leaves(book)
    decreases |traces|
  {
    if |traces| > 0 {
      NoPoolRule(rules, book, txs, traces[..|traces| - 1], height);
    }
  }

  lemma {:induction false} MarketsIdle(rules: Rules, book: Markets.MarketBook, txs: seq<Transaction>, traces: seq<Trace>, height: u32,
                                       scripts: seq<map<nat, Script>>)
    requires !MarketsActive(rules, height) && |traces| <= |txs| == |scripts|
    ensures MarketsOver(rules, book, txs, traces, height, scripts) == Some(book)
    decreases |traces|
  {
    if |traces| > 0 {
      MarketsIdle(rules, book, txs, traces[..|traces| - 1], height, scripts);
    }
  }

  /** Whether what is held under a candidate's hash is what these views' verdict
      would leave, for every rule that runs at its height. */
  ghost predicate Ready(rules: Rules, h: Held, b: Candidate, v: Views)
  {
    && Found(h.assets, b.hash).Some? && Found(h.assets, b.hash).value.0 == v.assets
    && (if rules.pool then Found(h.pools, b.hash) == Some(v.pools) else h.views.pools == v.pools)
    && (if MarketsActive(rules, b.height) then Found(h.markets, b.hash) == Some(v.markets) else h.views.markets == v.markets)
  }

  /** A check passes exactly when the verdict from scratch does, whatever is held;
      and then the verdict is what is held under the hash. */
  lemma CheckedIsVerdict(rules: Rules, h: Held, b: Candidate)
    ensures AfterCheck(rules, h, b).0.views == h.views
    ensures AfterCheck(rules, h, b).1 == Passed <==> VerdictOn(rules, h.views, b).Some?
    ensures AfterCheck(rules, h, b).1 == Passed ==> Ready(rules, AfterCheck(rules, h, b).0, b, VerdictOn(rules, h.views, b).value)
  {
    hide AssetsOver, PoolsOver, MarketsOver, PolicyOf, MarketsActive, Offered, Found;
    var w := AssetsOf(rules, h.views, b);
    if w.Leaves? {
      TracesLength(h.views.assets, b.txs, |b.txs|, b.height, PolicyOf(rules, h.views));
      FoundOffered(h.assets, b.hash, w.left, b.hash);
      var p, m := PoolsOver(rules, h.views.pools, b.txs, w.left.1, b.height),
                  MarketsOver(rules, h.views.markets, b.txs, w.left.1, b.height, b.scripts);
      if !rules.pool {
        NoPoolRule(rules, h.views.pools, b.txs, w.left.1, b.height);
      } else if p.Leaves? {
        FoundOffered(h.pools, b.hash, p.left, b.hash);
      }
      if !MarketsActive(rules, b.height) {
        MarketsIdle(rules, h.views.markets, b.txs, w.left.1, b.height, b.scripts);
      } else if m.Some? {
        FoundOffered(h.markets, b.hash, m.value, b.hash);
      }
    }
  }

  /** The traces the pool and the market rule find under a candidate's hash: those of the
      last body that kept the assets rule, when they are as many as its transactions. */
  ghost predicate Traced(h: Held, b: Candidate, traces: seq<Trace>)
  {
    && |traces| == |b.txs|
    && Found(h.assets, b.hash).Some? && Found(h.assets, b.hash).value.1 == traces
  }

  /** What a check moves: each rule offers what it leaves, the pools and the markets over
      the traces held once the assets rule has run, whether or not that passed; a panic
      ends the check, and what the rules before it offered stays. */
  lemma CheckedMoves(rules: Rules, h: Held, b: Candidate, traces: seq<Trace>)
    ensures var (next, answer) := AfterCheck(rules, h, b);
            var w := AssetsOver(h.views.assets, b.txs, |b.txs|, b.height, PolicyOf(rules, h.views));
            && next.assets == (if w.Leaves? then Offered(h.assets, b.hash, w.left) else h.assets)
            && (w.Halts? ==> next == h && answer == Panicked)
            && (!w.Halts? && Traced(next, b, traces) ==>
                  var p := PoolsOver(rules, h.views.pools, b.txs, traces, b.height);
                  var m := MarketsOver(rules, h.views.markets, b.txs, traces, b.height, b.scripts);
                  && next.pools == (if rules.pool && p.Leaves? then Offered(h.pools, b.hash, p.left) else h.pools)
                  && (answer == Panicked <==> rules.pool && p.Halts?)
                  && next.markets == if answer != Panicked && MarketsActive(rules, b.height) && m.Some?
                                     then Offered(h.markets, b.hash, m.value) else h.markets)
    ensures !AssetsOf(rules, h.views, b).Halts? && (forall t :: !Traced(AfterCheck(rules, h, b).0, b, t)) ==>
              AfterCheck(rules, h, b).0 == h && AfterCheck(rules, h, b).1 != Panicked
  {
    hide AssetsOver, PoolsOver, MarketsOver, PolicyOf, MarketsActive, Offered, Found;
    var w := AssetsOf(rules, h.views, b);
    var h1 := AfterAssets(rules, h, b).0;
    if w.Leaves? {
      TracesLength(h.views.assets, b.txs, |b.txs|, b.height, PolicyOf(rules, h.views));
      FoundOffered(h.assets, b.hash, w.left, b.hash);
      assert Traced(h1, b, w.left.1);
    }
    var t := TracesFor(h1, b);
    if t.Some? {
      assert Traced(AfterCheck(rules, h, b).0, b, t.value) || w.Halts?;
    }
  }

  /** Checking a candidate touches nothing held under another hash. */
  lemma OthersKept(rules: Rules, h: Held, other: Candidate, hash: nat)
    requires other.hash != hash
    ensures var next := AfterCheck(rules, h, other).0;
            && next.views == h.views
            && Found(next.assets, hash) == Found(h.assets, hash)
            && Found(next.pools, hash) == Found(h.pools, hash)
            && Found(next.markets, hash) == Found(h.markets, hash)
  {
    hide AssetsOver, PoolsOver, MarketsOver, PolicyOf, MarketsActive, Offered, Found, TracesFor;
    var (h1, _) := AfterAssets(rules, h, other);
    if AssetsOf(rules, h.views, other).Leaves? {
      FoundOffered(h.assets, other.hash, AssetsOf(rules, h.views, other).left, hash);
    }
    var traces := TracesFor(h1, other);
    if traces.Some? {
      TracesForLength(h1, other);
      var p, m := PoolsOver(rules, h.views.pools, other.txs, traces.value, other.height),
                  MarketsOver(rules, h.views.markets, other.txs, traces.value, other.height, other.scripts);
      if p.Leaves? {
        FoundOffered(h.pools, other.hash, p.left, hash);
      }
      if m.Some? {
        FoundOffered(h.markets, other.hash, m.value, hash);
      }
    }
    TracesForSame(rules, h1, other);
  }

  lemma TracesForLength(h: Held, b: Candidate)
    ensures TracesFor(h, b).Some? ==> |TracesFor(h, b).value| == |b.txs|
  {
  }

  /** The pool rule does not change the traces the market rule reads. */
  lemma TracesForSame(rules: Rules, h: Held, b: Candidate)
    ensures TracesFor(AfterPools(rules, h, b).0, b) == TracesFor(h, b)
  {
    hide PoolsOver, Found, Offered;
  }

  // --- any number of candidates ------------------------------------------------------------------

  ghost function AfterChecks(rules: Rules, h: Held, bs: seq<Candidate>): Held
  {
    if |bs| == 0 then h else AfterCheck(rules, AfterChecks(rules, h, bs[..|bs| - 1]), bs[|bs| - 1]).0
  }

  lemma {:induction false} ChecksMoveNoView(rules: Rules, h: Held, bs: seq<Candidate>)
    ensures AfterChecks(rules, h, bs).views == h.views
  {
    hide AfterCheck;
    if |bs| > 0 {
      ChecksMoveNoView(rules, h, bs[..|bs| - 1]);
      CheckedIsVerdict(rules, AfterChecks(rules, h, bs[..|bs| - 1]), bs[|bs| - 1]);
    }
  }

  lemma {:induction false} StaysReady(rules: Rules, h: Held, b: Candidate, bs: seq<Candidate>, v: Views)
    requires forall o :: o in bs ==> o.hash != b.hash
    ensures Ready(rules, h, b, v) ==> Ready(rules, AfterChecks(rules, h, bs), b, v)
  {
    hide AfterCheck, Found, MarketsActive;
    if |bs| > 0 {
      var last := bs[|bs| - 1];
      assert forall o :: o in bs[..|bs| - 1] ==> o in bs;
      StaysReady(rules, h, b, bs[..|bs| - 1], v);
      OthersKept(rules, AfterChecks(rules, h, bs[..|bs| - 1]), last, b.hash);
    }
  }

  /** Whatever is held, and whatever bodies are checked before a block, under its own
      hash or any other, well structured or not: a check of the block passes exactly
      when its own verdict does, and applying it then leaves exactly that verdict,
      as long as what is checked in between has other hashes. */
  lemma AppliedIsVerdict(rules: Rules, h: Held, before: seq<Candidate>, b: Candidate, between: seq<Candidate>)
    requires forall o :: o in between ==> o.hash != b.hash
    ensures var (held, answer) := AfterCheck(rules, AfterChecks(rules, h, before), b);
            var verdict := VerdictOn(rules, h.views, b);
            && (answer == Passed <==> verdict.Some?)
            && (answer == Passed ==> AfterApply(rules, AfterChecks(rules, held, between), b).views == verdict.value)
  {
    hide AfterCheck, AfterChecks, VerdictOn, Found, MarketsActive;
    var h1 := AfterChecks(rules, h, before);
    ChecksMoveNoView(rules, h, before);
    CheckedIsVerdict(rules, h1, b);
    var held := AfterCheck(rules, h1, b).0;
    if VerdictOn(rules, h.views, b).Some? {
      StaysReady(rules, held, b, between, VerdictOn(rules, h.views, b).value);
    }
  }

  // --- a node's calls ------------------------------------------------------------------------------

  /** What a node is asked: to judge a candidate, at whatever height, or to apply a
      block, whose other rules may or may not pass. */
  datatype Call = Judge(b: Candidate) | Apply(b: Candidate, others: bool)

  ghost function AfterCall(rules: Rules, h: Held, c: Call): (Held, Answer)
  {
    var (held, answer) := AfterCheck(rules, h, c.b);
    if c.Apply? && answer == Passed && c.others then (AfterApply(rules, held, c.b), Passed)
    else (held, if c.Apply? && !c.others && answer == Passed then Failed else answer)
  }

  ghost function AfterCalls(rules: Rules, h: Held, calls: seq<Call>): Held
  {
    if |calls| == 0 then h else AfterCall(rules, AfterCalls(rules, h, calls[..|calls| - 1]), calls[|calls| - 1]).0
  }

  /** The same calls with nothing held: judging does nothing, applying judges. */
  ghost function PlainViews(rules: Rules, v: Views, calls: seq<Call>): Views
  {
    if |calls| == 0 then v
    else
      var before, c := PlainViews(rules, v, calls[..|calls| - 1]), calls[|calls| - 1];
      var verdict := VerdictOn(rules, before, c.b);
      if c.Apply? && c.others && verdict.Some? then verdict.value else before
  }

  /** Holding what candidates leave is invisible. However a node is called, and
      whatever it held at first, its applied views are those of judging each applied
      block from scratch, and each call passes exactly when that does. */
  lemma {:induction false} HoldingIsInvisible(rules: Rules, h: Held, calls: seq<Call>)
    ensures AfterCalls(rules, h, calls).views == PlainViews(rules, h.views, calls)
    ensures |calls| > 0 ==>
              var c, before := calls[|calls| - 1], calls[..|calls| - 1];
              AfterCall(rules, AfterCalls(rules, h, before), c).1 == Passed
              <==> VerdictOn(rules, PlainViews(rules, h.views, before), c.b).Some? && (c.Apply? ==> c.others)
  {
    hide AfterCheck, VerdictOn, Found, MarketsActive;
    if |calls| > 0 {
      HoldingIsInvisible(rules, h, calls[..|calls| - 1]);
      CheckedIsVerdict(rules, AfterCalls(rules, h, calls[..|calls| - 1]), calls[|calls| - 1].b);
    }
  }

  // --- the node ------------------------------------------------------------------------------------

  /** A node's overlay rules. */
  class OverlayNode {
    const rules: Rules
    var views: Views
    var assets: seq<Pending<(View, seq<Trace>)>>
    var pools: seq<Pending<Pools.PoolBook>>
    var markets: seq<Pending<Markets.MarketBook>>

    ghost function State(): Held
      reads this
    {
      Held(views, assets, pools, markets)
    }

    constructor (rules: Rules)
      ensures this.rules == rules && State() == Held(NO_VIEWS, [], [], [])
    {
      this.rules := rules;
      views := NO_VIEWS;
      assets, pools, markets := [], [], [];
    }

    method CheckAssets(b: Candidate) returns (answer: Answer)
      modifies this`assets
      ensures (State(), answer) == AfterAssets(rules, old(State()), b)
    {
      hide AssetsOver, PolicyOf, Offered;
      var w := AssetsCandidate(views.assets, b.txs, b.height, PolicyOf(rules, views));
      if !w.Leaves? { return if w.Halts? then Panicked else Failed; }
      assets := Offer(assets, b.hash, w.left);
      answer := Passed;
    }

    method CheckPools(b: Candidate) returns (answer: Answer)
      modifies this`pools
      ensures (State(), answer) == AfterPools(rules, old(State()), b)
    {
      hide PoolsOver, Offered;
      if !rules.pool { return Passed; }
      var traced := Found(assets, b.hash);
      if traced.None? { return Failed; }
      if |traced.value.1| != |b.txs| { return Failed; }
      var w := PoolsCandidate(rules, views.pools, b.txs, traced.value.1, b.height);
      if !w.Leaves? { return if w.Halts? then Panicked else Failed; }
      pools := Offer(pools, b.hash, w.left);
      answer := Passed;
    }

    method CheckMarkets(b: Candidate) returns (answer: Answer)
      modifies this`markets
      ensures (State(), answer) == AfterMarkets(rules, old(State()), b)
    {
      hide MarketsOver, Offered;
      if !MarketsActive(rules, b.height) { return Passed; }
      var traced := Found(assets, b.hash);
      if traced.None? { return Failed; }
      if |traced.value.1| != |b.txs| { return Failed; }
      var r := MarketsCandidate(rules, views.markets, b.txs, traced.value.1, b.height, b.scripts);
      if r.None? { return Failed; }
      markets := Offer(markets, b.hash, r.value);
      answer := Passed;
    }

    /** Run the three rules on a candidate. */
    method CheckBlock(b: Candidate) returns (answer: Answer)
      modifies this`assets, this`pools, this`markets
      ensures (State(), answer) == AfterCheck(rules, old(State()), b)
      ensures views == old(views)
      ensures answer == Passed <==> VerdictOn(rules, views, b).Some?
    {
      hide AfterAssets, AfterPools, AfterMarkets, VerdictOn;
      CheckedIsVerdict(rules, State(), b);
      var first := CheckAssets(b);
      if first == Panicked { return Panicked; }
      var second := CheckPools(b);
      if second == Panicked { return Panicked; }
      var third := CheckMarkets(b);
      answer := if first == second == third == Passed then Passed else Failed;
    }

    /** Tell the three rules a block is applied. */
    method ApplyBlock(b: Candidate)
      modifies this
      ensures State() == AfterApply(rules, old(State()), b)
    {
      hide PolicyOf, ApplyTxs;
      var asset, pool, market := Found(assets, b.hash), Found(pools, b.hash), Found(markets, b.hash);
      var policy := PolicyOf(rules, views);
      var next := views;
      assets := [];
      if asset.Some? {
        next := next.(assets := asset.value.0);
      } else {
        var view := new AssetView.Of(views.assets);
        var _ := view.ApplyTransactions(b.txs, b.height, policy);
        next := next.(assets := View(view.carried, view.issued));
      }
      if rules.pool {
        pools := [];
        if pool.Some? { next := next.(pools := pool.value); }
      }
      if MarketsActive(rules, b.height) {
        markets := [];
        if market.Some? { next := next.(markets := market.value); }
      }
      views := next;
    }

    /** Answer one call. Applying a block that passes leaves exactly its verdict on
        the views the node had; nothing else moves them. */
    method Answering(c: Call) returns (answer: Answer)
      modifies this
      ensures (State(), answer) == AfterCall(rules, old(State()), c)
      ensures views == PlainViews(rules, old(views), [c])
      ensures answer == Passed <==> VerdictOn(rules, old(views), c.b).Some? && (c.Apply? ==> c.others)
    {
      hide AfterCheck, AfterApply, VerdictOn;
      OneCall(rules, State(), c);
      answer := CheckBlock(c.b);
      if c.Apply? && answer == Passed {
        if c.others {
          ApplyBlock(c.b);
        } else {
          answer := Failed;
        }
      }
    }
  }

  lemma OneCall(rules: Rules, h: Held, c: Call)
    ensures AfterCall(rules, h, c).0.views == PlainViews(rules, h.views, [c])
    ensures AfterCall(rules, h, c).1 == Passed <==> VerdictOn(rules, h.views, c.b).Some? && (c.Apply? ==> c.others)
  {
    hide AfterCall, VerdictOn;
    HoldingIsInvisible(rules, h, [c]);
    assert [c][..0] == [];
    assert AfterCalls(rules, h, []) == h && PlainViews(rules, h.views, []) == h.views;
  }
}
