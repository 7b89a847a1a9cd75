/** The assets rule as a view (sidestr-core/src/assets.rs): what each unspent
    output carries, and which assets exist. */
module Assets {
  import opened Prelude
  import opened Transactions

  /** What one output carries: asset id to amount. */
  type Carry = map<Txid, u64>

  datatype Issued = Issued(ticker: string, decimals: nat, height: u32, supply: nat, market: Option<Txid>)

  datatype View = View(carried: map<OutPoint, Carry>, issued: map<Txid, Issued>)

  const EMPTY_VIEW := View(map[], map[])

  /** Why a transaction breaks the rule. */
  datatype AssetError =
    | Malformed
    | TwoIssues
    | IssuesAndOpens
    | SelfWithoutIssue
    | TalliedTwice
    | NoSuchOutput
    | OpReturnOutput
    | NoValue
    | SumOverflows
    | OverAssigned

  /** The exceptions to conservation: none, or those the pool and market rules
      account for, as the applied views stand. */
  datatype Policy = NoPolicy | Collateral(pools: Option<set<Txid>>, markets: Option<set<Txid>>)

  predicate Opening(asset: Txid, tx: Transaction) { asset == tx.txid && OpensPool(tx.records) }

  /** Whether a `split:` record of a known market mints `asset`. */
  predicate SplitMints(markets: set<Txid>, asset: Txid, cls: Classified)
  {
    exists i :: 0 <= i < |cls.markets| && cls.markets[i].Split? && cls.markets[i].market in markets
                && (asset == cls.markets[i].market || asset == No(cls.markets[i].market))
  }

  predicate Allows(p: Policy, asset: Txid, tx: Transaction)
  {
    match p
    case NoPolicy => false
    case Collateral(pools, markets) =>
      || (pools.Some? && (Opening(asset, tx) || asset in pools.value))
      || (markets.Some? && SplitMints(markets.value, asset, tx.records))
  }

  // --- amounts -----------------------------------------------------------------------

  function AmountOf(c: Carry, asset: Txid): u64 { if asset in c then c[asset] else 0 }

  ghost function Column<K>(m: map<K, Carry>, asset: Txid): map<K, nat>
  {
    map k | k in m :: AmountOf(m[k], asset)
  }

  /** How much of an asset a set of carries holds. */
  ghost function Total<K>(m: map<K, Carry>, asset: Txid): nat { MapSum(Column(m, asset)) }

  /** The carries a transaction's inputs hold: what a trace records. */
  function InputCarries(carried: map<OutPoint, Carry>, tx: Transaction): map<OutPoint, Carry>
  {
    map o | o in carried && o in Spends(tx) :: carried[o]
  }

  // --- the check -----------------------------------------------------------------------

  /** The check's running state: what each output would carry, what each asset
      is assigned in all, and which assets have been tallied. */
  datatype Draft = Draft(out: map<nat, Carry>, totals: Carry, seen: set<Txid>)

  const NO_DRAFT := Draft(map[], map[], {})

  function CarryAt(out: map<nat, Carry>, v: nat): Carry { if v in out then out[v] else map[] }

  function AssignOne(d: Draft, tx: Transaction, asset: Txid, vout: nat, amount: nat): Result<Draft, AssetError>
    requires amount <= MAX_AMOUNT
  {
    if vout >= |tx.outputs| then Err(NoSuchOutput)
    else if IsOpReturn(tx.outputs[vout].script) then Err(OpReturnOutput)
    else if tx.outputs[vout].value < 1 then Err(NoValue)
    else
      var sum := AmountOf(d.totals, asset) + amount;
      if sum > U64_MAX then Err(SumOverflows)
      else Ok(Draft(d.out[vout := CarryAt(d.out, vout)[asset := amount]], d.totals[asset := sum], d.seen))
  }

  function AssignUpTo(d: Draft, tx: Transaction, asset: Txid, assigns: seq<(nat, nat)>, n: nat): Result<Draft, AssetError>
    requires GoodAssigns(assigns) && n <= |assigns|
  {
    if n == 0 then Ok(d)
    else
      var before := AssignUpTo(d, tx, asset, assigns, n - 1);
      if before.Err? then before
      else AssignOne(before.value, tx, asset, assigns[n - 1].0, assigns[n - 1].1)
  }

  function TallyAsset(t: Tally, tx: Transaction): Result<Txid, AssetError>
  {
    if t.asset.Id? then Ok(t.asset.id)
    else if |tx.records.issues| == 0 && !OpensPool(tx.records) then Err(SelfWithoutIssue)
    else Ok(tx.txid)
  }

  function TallyOne(d: Draft, tx: Transaction, t: Tally): Result<Draft, AssetError>
  {
    var asset := TallyAsset(t, tx);
    if asset.Err? then Err(asset.error)
    else if asset.value in d.seen then Err(TalliedTwice)
    else AssignUpTo(d.(seen := d.seen + {asset.value}), tx, asset.value, t.assigns, |t.assigns|)
  }

  function TallyUpTo(tx: Transaction, n: nat): Result<Draft, AssetError>
    requires n <= |tx.records.tallies|
  {
    if n == 0 then Ok(NO_DRAFT)
    else
      var before := TallyUpTo(tx, n - 1);
      if before.Err? then before else TallyOne(before.value, tx, tx.records.tallies[n - 1])
  }

  /** The saturating sum of what the first `n` inputs carry of an asset. */
  function CarriedIn(carried: map<OutPoint, Carry>, tx: Transaction, n: nat, asset: Txid): u64
    requires n <= |tx.inputs|
  {
    if n == 0 then 0
    else
      var before := CarriedIn(carried, tx, n - 1, asset);
      var key := tx.inputs[n - 1].prev;
      if key in carried then Saturate(before + AmountOf(carried[key], asset)) else before
  }

  predicate Covered(carried: map<OutPoint, Carry>, tx: Transaction, policy: Policy, asset: Txid, n: u64)
  {
    || (asset == tx.txid && |tx.records.issues| > 0)
    || Allows(policy, asset, tx)
    || n <= CarriedIn(carried, tx, |tx.inputs|, asset)
  }

  /** What each output would carry, or why the rule is broken. */
  function Check(carried: map<OutPoint, Carry>, tx: Transaction, policy: Policy): Result<map<nat, Carry>, AssetError>
  {
    var cls := tx.records;
    if |cls.bad| > 0 then Err(Malformed)
    else if |cls.issues| > 1 then Err(TwoIssues)
    else if |cls.issues| > 0 && OpensPool(cls) then Err(IssuesAndOpens)
    else
      var d := TallyUpTo(tx, |cls.tallies|);
      if d.Err? then Err(d.error)
      else if exists a :: a in d.value.totals && !Covered(carried, tx, policy, a, d.value.totals[a]) then Err(OverAssigned)
      else Ok(d.value.out)
  }

  /** A transaction's outputs as outpoints. */
  function Placed(txid: Txid, out: map<nat, Carry>): map<OutPoint, Carry>
  {
    map o: OutPoint | o in set v | v in out :: OutPoint(txid, v) :: out[o.vout]
  }

  /** The view after one transaction that is not a coinbase: its inputs spent
      either way, its outputs carrying what it assigns if it keeps the rule and
      nothing if it breaks it. */
  ghost function ApplyTx(view: View, tx: Transaction, height: u32, policy: Policy): View
  {
    var r := Check(view.carried, tx, policy);
    var left := view.carried - Spends(tx);
    if r.Err? then View(left, view.issued)
    else View(left + Placed(tx.txid, r.value), Register(view.issued, tx, height, Total(r.value, tx.txid)))
  }

  /** The issued assets with a transaction's issue, if it makes one. */
  function Register(issued: map<Txid, Issued>, tx: Transaction, height: u32, supply: nat): map<Txid, Issued>
  {
    if |tx.records.issues| == 0 then issued
    else
      var i := tx.records.issues[0];
      issued[tx.txid := Issued(i.ticker, i.decimals, height, supply, None)]
  }

  /** The view after the first `n` transactions; a coinbase in front is skipped. */
  ghost function ApplyTxs(view: View, txs: seq<Transaction>, n: nat, height: u32, policy: Policy): View
    requires n <= |txs|
  {
    if n == 0 then view
    else
      var before := ApplyTxs(view, txs, n - 1, height, policy);
      if n == 1 && IsCoinbase(txs[0]) then before else ApplyTx(before, txs[n - 1], height, policy)
  }

  // --- totals ---------------------------------------------------------------------------

  lemma TotalUpdate<K>(m: map<K, Carry>, k: K, c: Carry, asset: Txid)
    ensures Total(m[k := c], asset) == Total(m - {k}, asset) + AmountOf(c, asset)
    ensures Total(m, asset) == Total(m - {k}, asset) + if k in m then AmountOf(m[k], asset) else 0
  {
    var col := Column(m, asset);
    assert Column(m[k := c], asset) == col[k := AmountOf(c, asset)];
    assert Column(m - {k}, asset) == col - {k};
    MapSumUpdate(col, k, AmountOf(c, asset));
    if k in m {
      MapSumRemove(col, k);
    } else {
      assert m - {k} == m;
    }
  }

  lemma TotalUnion<K>(m: map<K, Carry>, n: map<K, Carry>, asset: Txid)
    requires m.Keys !! n.Keys
    ensures Total(m + n, asset) == Total(m, asset) + Total(n, asset)
  {
    assert Column(m + n, asset) == Column(m, asset) + Column(n, asset);
    MapSumUnion(Column(m, asset), Column(n, asset));
  }

  lemma TotalSplit(carried: map<OutPoint, Carry>, tx: Transaction, asset: Txid)
    ensures Total(carried, asset) == Total(InputCarries(carried, tx), asset) + Total(carried - Spends(tx), asset)
  {
    var inputs, left := InputCarries(carried, tx), carried - Spends(tx);
    assert left + inputs == carried;
    TotalUnion(left, inputs, asset);
  }

  lemma TotalEmpty<K>(asset: Txid)
    ensures Total<K>(map[], asset) == 0
  {
    assert Column<K>(map[], asset) == map[];
  }

  /** Something holds an asset exactly when its total is not zero. */
  lemma TotalZero<K>(m: map<K, Carry>, asset: Txid)
    requires forall k :: k in m ==> asset !in m[k]
    ensures Total(m, asset) == 0
  {
    MapSumZero(Column(m, asset));
  }

  lemma HeldWithinTotal<K>(m: map<K, Carry>, k: K, asset: Txid)
    requires k in m
    ensures AmountOf(m[k], asset) <= Total(m, asset)
  {
    MapSumBound(Column(m, asset), k);
  }

  lemma PlacedWithout(txid: Txid, out: map<nat, Carry>, v: nat)
    requires v in out
    ensures OutPoint(txid, v) in Placed(txid, out) && Placed(txid, out)[OutPoint(txid, v)] == out[v]
    ensures Placed(txid, out) - {OutPoint(txid, v)} == Placed(txid, out - {v})
  {
    PlacedIs(txid, out);
    PlacedIs(txid, out - {v});
  }

  lemma {:induction false} TotalPlaced(txid: Txid, out: map<nat, Carry>, asset: Txid)
    ensures Total(Placed(txid, out), asset) == Total(out, asset)
    decreases |out|
  {
    if out == map[] {
      assert Placed(txid, out) == map[];
      TotalEmpty<nat>(asset);
      TotalEmpty<OutPoint>(asset);
    } else {
      var v :| v in out;
      var rest := out - {v};
      assert rest.Keys == out.Keys - {v};
      assert |rest.Keys| < |out.Keys|;
      TotalPlaced(txid, rest, asset);
      TotalUpdate(out, v, out[v], asset);
      PlacedWithout(txid, out, v);
      TotalUpdate(Placed(txid, out), OutPoint(txid, v), out[v], asset);
    }
  }

  lemma PlacedIs(txid: Txid, out: map<nat, Carry>)
    ensures forall o :: o in Placed(txid, out) <==> o.txid == txid && o.vout in out
    ensures forall o :: o in Placed(txid, out) ==> Placed(txid, out)[o] == out[o.vout]
  {
    forall o: OutPoint | o.txid == txid && o.vout in out
      ensures o in Placed(txid, out)
    {
      assert o == OutPoint(txid, o.vout);
    }
  }

  // --- what a checked transaction assigns -----------------------------------------------

  /** A carry's amounts are recordable amounts of the assets in `seen`. */
  ghost predicate GoodCarry(c: Carry, seen: set<Txid>)
  {
    c != map[] && forall a :: a in c ==> a in seen && 1 <= c[a] <= MAX_AMOUNT
  }

  /** A carry's amounts are between 1 and 2^53 - 1, and there is one. */
  ghost predicate RecordableCarry(c: Carry)
  {
    c != map[] && forall a :: a in c ==> 1 <= c[a] <= MAX_AMOUNT
  }

  /** A draft's outputs exist, are worth something and are not `OP_RETURN`s; its
      amounts come from tallied assets; and per asset they sum to its total. */
  ghost predicate GoodDraft(d: Draft, tx: Transaction)
  {
    && (forall v :: v in d.out ==>
          v < |tx.outputs| && !IsOpReturn(tx.outputs[v].script) && tx.outputs[v].value >= 1)
    && (forall v :: v in d.out ==> GoodCarry(d.out[v], d.seen))
    && (forall a :: a in d.totals ==> a in d.seen)
    && (forall a :: Total(d.out, a) == AmountOf(d.totals, a))
  }

  lemma AssignOneGood(d: Draft, tx: Transaction, asset: Txid, vout: nat, amount: nat)
    requires GoodDraft(d, tx) && asset in d.seen && asset !in CarryAt(d.out, vout)
    requires 1 <= amount <= MAX_AMOUNT
    requires AssignOne(d, tx, asset, vout, amount).Ok?
    ensures GoodDraft(AssignOne(d, tx, asset, vout, amount).value, tx)
  {
    hide Total;
    var next := AssignOne(d, tx, asset, vout, amount).value;
    forall a
      ensures Total(next.out, a) == AmountOf(next.totals, a)
    {
      TotalUpdate(d.out, vout, CarryAt(d.out, vout)[asset := amount], a);
      assert Total(d.out, a) == AmountOf(d.totals, a);
    }
  }

  lemma {:induction false} AssignUpToGood(d: Draft, tx: Transaction, asset: Txid, assigns: seq<(nat, nat)>, n: nat)
    requires GoodAssigns(assigns) && n <= |assigns|
    requires GoodDraft(d, tx) && asset in d.seen
    requires forall v :: v in d.out ==> asset !in d.out[v]
    requires AssignUpTo(d, tx, asset, assigns, n).Ok?
    ensures GoodDraft(AssignUpTo(d, tx, asset, assigns, n).value, tx)
    ensures AssignUpTo(d, tx, asset, assigns, n).value.seen == d.seen
    ensures var next := AssignUpTo(d, tx, asset, assigns, n).value;
            forall v :: v in next.out && asset in next.out[v] ==> exists i :: 0 <= i < n && assigns[i].0 == v
  {
    if n > 0 {
      AssignUpToGood(d, tx, asset, assigns, n - 1);
      var before := AssignUpTo(d, tx, asset, assigns, n - 1).value;
      assert asset !in CarryAt(before.out, assigns[n - 1].0);
      AssignOneGood(before, tx, asset, assigns[n - 1].0, assigns[n - 1].1);
    }
  }

  lemma TallyOneGood(d: Draft, tx: Transaction, t: Tally)
    requires GoodDraft(d, tx) && TallyOne(d, tx, t).Ok?
    ensures GoodDraft(TallyOne(d, tx, t).value, tx)
  {
    var asset := TallyAsset(t, tx).value;
    var started := d.(seen := d.seen + {asset});
    forall v | v in d.out
      ensures GoodCarry(d.out[v], started.seen) && asset !in d.out[v]
    {
      assert GoodCarry(d.out[v], d.seen);
    }
    AssignUpToGood(started, tx, asset, t.assigns, |t.assigns|);
  }

  lemma {:induction false} TallyUpToGood(tx: Transaction, n: nat)
    requires n <= |tx.records.tallies| && TallyUpTo(tx, n).Ok?
    ensures GoodDraft(TallyUpTo(tx, n).value, tx)
  {
    hide TallyOne, GoodDraft;
    if n == 0 {
      EmptyDraftGood(tx);
    } else {
      TallyUpToGood(tx, n - 1);
      TallyOneGood(TallyUpTo(tx, n - 1).value, tx, tx.records.tallies[n - 1]);
    }
  }

  lemma EmptyDraftGood(tx: Transaction)
    ensures GoodDraft(NO_DRAFT, tx)
  {
    forall a
      ensures Total(NO_DRAFT.out, a) == 0
    {
      TotalEmpty<nat>(a);
    }
  }

  /** The inputs of a transaction that are among its first `n`. */
  ghost function CarriesUpTo(carried: map<OutPoint, Carry>, tx: Transaction, n: nat): map<OutPoint, Carry>
    requires n <= |tx.inputs|
  {
    map o | o in carried && (exists i :: 0 <= i < n && tx.inputs[i].prev == o) :: carried[o]
  }

  /** With no input named twice, the saturating sum over inputs is the true sum
      saturated once. */
  lemma {:induction false} CarriedInIs(carried: map<OutPoint, Carry>, tx: Transaction, n: nat, asset: Txid)
    requires n <= |tx.inputs| && UniqueInputs(tx)
    ensures CarriedIn(carried, tx, n, asset) == Saturate(Total(CarriesUpTo(carried, tx, n), asset))
  {
    hide Total;
    var now := CarriesUpTo(carried, tx, n);
    if n == 0 {
      assert now == map[];
      TotalEmpty<OutPoint>(asset);
    } else {
      CarriedInIs(carried, tx, n - 1, asset);
      var before, key := CarriesUpTo(carried, tx, n - 1), tx.inputs[n - 1].prev;
      CarriesStep(carried, tx, n);
      if key in carried {
        TotalUpdate(before, key, carried[key], asset);
        assert before - {key} == before;
      }
    }
  }

  lemma CarriesStep(carried: map<OutPoint, Carry>, tx: Transaction, n: nat)
    requires 0 < n <= |tx.inputs| && UniqueInputs(tx)
    ensures var key, before := tx.inputs[n - 1].prev, CarriesUpTo(carried, tx, n - 1);
            key !in before && CarriesUpTo(carried, tx, n) == if key in carried then before[key := carried[key]] else before
  {
  }

  lemma AllCarries(carried: map<OutPoint, Carry>, tx: Transaction)
    ensures CarriesUpTo(carried, tx, |tx.inputs|) == InputCarries(carried, tx)
  {
  }

  /** A transaction that keeps the rule assigns of each asset at most what its
      inputs carry, unless it issues the asset or the policy exempts it; and it
      assigns only to real, valued outputs. */
  lemma CheckedAssigns(carried: map<OutPoint, Carry>, tx: Transaction, policy: Policy)
    requires UniqueInputs(tx)
    requires Check(carried, tx, policy).Ok?
    ensures var out := Check(carried, tx, policy).value;
            && (forall v :: v in out ==>
                  v < |tx.outputs| && !IsOpReturn(tx.outputs[v].script) && tx.outputs[v].value >= 1)
            && (forall v :: v in out ==> RecordableCarry(out[v]))
            && (forall a :: Total(out, a) <= U64_MAX)
            && (forall a :: Total(out, a) <= Total(InputCarries(carried, tx), a)
                  || (a == tx.txid && |tx.records.issues| > 0) || Allows(policy, a, tx))
  {
    hide AssignUpTo, TallyOne, Allows;
    TallyUpToGood(tx, |tx.records.tallies|);
    var d := TallyUpTo(tx, |tx.records.tallies|).value;
    var out := Check(carried, tx, policy).value;
    AllCarries(carried, tx);
    forall v | v in out
      ensures RecordableCarry(out[v])
    {
      assert GoodCarry(d.out[v], d.seen);
    }
    forall a
      ensures Total(out, a) <= U64_MAX
      ensures Total(out, a) <= Total(InputCarries(carried, tx), a)
                  || (a == tx.txid && |tx.records.issues| > 0) || Allows(policy, a, tx)
    {
      CarriedInIs(carried, tx, |tx.inputs|, a);
      assert Total(out, a) == AmountOf(d.totals, a);
    }
  }

  /** What a passed transaction assigns is recordable, whatever its inputs. */
  lemma CheckedRecordable(carried: map<OutPoint, Carry>, tx: Transaction, policy: Policy)
    requires Check(carried, tx, policy).Ok?
    ensures forall v :: v in Check(carried, tx, policy).value ==> RecordableCarry(Check(carried, tx, policy).value[v])
  {
    hide AssignUpTo, TallyOne, Allows;
    TallyUpToGood(tx, |tx.records.tallies|);
    var d := TallyUpTo(tx, |tx.records.tallies|).value;
    forall v | v in d.out
      ensures RecordableCarry(d.out[v])
    {
      assert GoodCarry(d.out[v], d.seen);
    }
  }

  /** How one transaction moves the total carried of an asset. */
  lemma TotalAfter(view: View, tx: Transaction, height: u32, policy: Policy, asset: Txid)
    requires forall o :: o in view.carried ==> o.txid != tx.txid
    ensures var next := ApplyTx(view, tx, height, policy);
            var r := Check(view.carried, tx, policy);
            Total(next.carried, asset) + Total(InputCarries(view.carried, tx), asset)
            == Total(view.carried, asset) + if r.Ok? then Total(r.value, asset) else 0
  {
    hide Check;
    var r := Check(view.carried, tx, policy);
    TotalSplit(view.carried, tx, asset);
    if r.Ok? {
      PlacedIs(tx.txid, r.value);
      TotalPlaced(tx.txid, r.value, asset);
      TotalUnion(view.carried - Spends(tx), Placed(tx.txid, r.value), asset);
    }
  }

  // --- conservation without a policy ------------------------------------------------------

  /** Every asset's total is within its recorded supply, and zero when no issue
      is recorded; everything carried or issued comes from a past id. */
  ghost predicate Backed(view: View, past: set<Txid>)
  {
    && (forall a :: Total(view.carried, a) <= if a in view.issued then view.issued[a].supply else 0)
    && (forall o :: o in view.carried ==> o.txid in past)
    && view.issued.Keys <= past
  }

  /** One transaction, rule-breaking or not, and one asset. */
  lemma BackedAsset(view: View, tx: Transaction, height: u32, past: set<Txid>, a: Txid)
    requires Backed(view, past) && UniqueInputs(tx) && tx.txid !in past
    ensures var next := ApplyTx(view, tx, height, NoPolicy);
            && Total(next.carried, a) <= (if a in next.issued then next.issued[a].supply else 0)
            && (a in past ==> Total(next.carried, a) <= Total(view.carried, a))
  {
    hide Check, Total, Placed;
    var r := Check(view.carried, tx, NoPolicy);
    if r.Ok? {
      CheckedAssigns(view.carried, tx, NoPolicy);
    }
    TotalAfter(view, tx, height, NoPolicy, a);
    TotalSplit(view.carried, tx, a);
    assert Total(view.carried, a) <= if a in view.issued then view.issued[a].supply else 0;
  }

  /** From one view to a later one, no asset of the past grew and no recorded
      issue changed. */
  ghost predicate OnlyShrinks(view: View, next: View, past: set<Txid>)
  {
    && (forall a :: a in past ==> Total(next.carried, a) <= Total(view.carried, a))
    && (forall a :: a in view.issued ==> a in next.issued && next.issued[a] == view.issued[a])
  }

  /** What one transaction adds: carries on its own outputs, an issue under its own id. */
  lemma StepKeys(view: View, tx: Transaction, height: u32)
    ensures var next := ApplyTx(view, tx, height, NoPolicy);
            && (forall o :: o in next.carried ==> o in view.carried || o.txid == tx.txid)
            && next.issued.Keys <= view.issued.Keys + {tx.txid}
            && (forall a :: a in view.issued && a != tx.txid ==> a in next.issued && next.issued[a] == view.issued[a])
  {
    hide Check, Total, Placed;
    var r := Check(view.carried, tx, NoPolicy);
    if r.Ok? {
      PlacedIs(tx.txid, r.value);
    }
  }

  /** One transaction, rule-breaking or not. */
  lemma BackedStep(view: View, tx: Transaction, height: u32, past: set<Txid>)
    requires Backed(view, past) && UniqueInputs(tx) && tx.txid !in past
    ensures Backed(ApplyTx(view, tx, height, NoPolicy), past + {tx.txid})
    ensures OnlyShrinks(view, ApplyTx(view, tx, height, NoPolicy), past)
  {
    hide ApplyTx, Total;
    StepKeys(view, tx, height);
    var next := ApplyTx(view, tx, height, NoPolicy);
    forall a
      ensures Total(next.carried, a) <= if a in next.issued then next.issued[a].supply else 0
      ensures a in past ==> Total(next.carried, a) <= Total(view.carried, a)
    {
      BackedAsset(view, tx, height, past, a);
    }
  }

  /** Whether transactions have ids new to `past` and different from each other,
      and name no input twice. */
  predicate FreshTxs(txs: seq<Transaction>, past: set<Txid>)
  {
    && (forall i :: 0 <= i < |txs| ==> txs[i].txid !in past && UniqueInputs(txs[i]))
    && (forall i, j :: 0 <= i < j < |txs| ==> txs[i].txid != txs[j].txid)
  }

  function IdsUpTo(txs: seq<Transaction>, n: nat): set<Txid>
    requires n <= |txs|
  {
    set i | 0 <= i < n :: txs[i].txid
  }

  /** Asset conservation without a collateral rule, for any transactions with
      new ids and unique inputs, the rule-breaking included: no asset's total
      exceeds its recorded supply, it is zero before issuance, no recorded
      supply changes, and what was issued before never grows. */
  lemma {:induction false} AssetsConserved(view: View, txs: seq<Transaction>, n: nat, height: u32, past: set<Txid>)
    requires n <= |txs| && Backed(view, past) && FreshTxs(txs, past)
    ensures Backed(ApplyTxs(view, txs, n, height, NoPolicy), past + IdsUpTo(txs, n))
    ensures OnlyShrinks(view, ApplyTxs(view, txs, n, height, NoPolicy), past)
  {
    hide ApplyTx, Backed, Total;
    if n == 0 {
      assert past + IdsUpTo(txs, 0) == past;
    } else {
      AssetsConserved(view, txs, n - 1, height, past);
      var before := ApplyTxs(view, txs, n - 1, height, NoPolicy);
      IdsStep(txs, n);
      assert past + IdsUpTo(txs, n) == past + IdsUpTo(txs, n - 1) + {txs[n - 1].txid};
      if n == 1 && IsCoinbase(txs[0]) {
        BackedWider(before, past + IdsUpTo(txs, n - 1), past + IdsUpTo(txs, n));
      } else {
        BackedStep(before, txs[n - 1], height, past + IdsUpTo(txs, n - 1));
      }
    }
  }

  lemma IdsStep(txs: seq<Transaction>, n: nat)
    requires 0 < n <= |txs|
    ensures IdsUpTo(txs, n) == IdsUpTo(txs, n - 1) + {txs[n - 1].txid}
  {
  }

  lemma BackedWider(view: View, past: set<Txid>, wider: set<Txid>)
    requires Backed(view, past) && past <= wider
    ensures Backed(view, wider)
  {
  }

  lemma EmptyBacked()
    ensures Backed(EMPTY_VIEW, {})
  {
    forall a
      ensures Total(EMPTY_VIEW.carried, a) == 0
    {
      TotalEmpty<OutPoint>(a);
    }
  }

  /** A reader's view of a chain that names no rules, block by block. */
  ghost function ViewAfter(blocks: seq<seq<Transaction>>, n: nat): View
    requires n <= |blocks| <= U32_MAX
  {
    if n == 0 then EMPTY_VIEW
    else ApplyTxs(ViewAfter(blocks, n - 1), blocks[n - 1], |blocks[n - 1]|, n - 1, NoPolicy)
  }

  function PastIds(blocks: seq<seq<Transaction>>, n: nat): set<Txid>
    requires n <= |blocks|
  {
    if n == 0 then {} else PastIds(blocks, n - 1) + IdsUpTo(blocks[n - 1], |blocks[n - 1]|)
  }

  predicate FreshBlocks(blocks: seq<seq<Transaction>>)
  {
    forall n :: 0 <= n < |blocks| ==> FreshTxs(blocks[n], PastIds(blocks, n))
  }

  /** Over a whole chain read from its genesis: the carried total of each asset
      stays within its recorded supply, and is zero while none is recorded. */
  lemma {:induction false} ChainBacked(blocks: seq<seq<Transaction>>, n: nat)
    requires n <= |blocks| <= U32_MAX && FreshBlocks(blocks)
    ensures Backed(ViewAfter(blocks, n), PastIds(blocks, n))
  {
    hide Backed, ApplyTxs, FreshTxs, OnlyShrinks, IdsUpTo;
    if n == 0 {
      EmptyBacked();
    } else {
      ChainBacked(blocks, n - 1);
      AssetsConserved(ViewAfter(blocks, n - 1), blocks[n - 1], |blocks[n - 1]|, n - 1, PastIds(blocks, n - 1));
    }
  }

  lemma ChainStep(blocks: seq<seq<Transaction>>, n: nat)
    requires n < |blocks| <= U32_MAX && FreshBlocks(blocks)
    ensures OnlyShrinks(ViewAfter(blocks, n), ViewAfter(blocks, n + 1), PastIds(blocks, n))
    ensures PastIds(blocks, n) <= PastIds(blocks, n + 1)
  {
    hide Backed, ApplyTxs, FreshTxs, OnlyShrinks, IdsUpTo;
    ChainBacked(blocks, n);
    AssetsConserved(ViewAfter(blocks, n), blocks[n], |blocks[n]|, n, PastIds(blocks, n));
  }

  /** Once an asset's issuing transaction is past, its total never grows again
      and its recorded supply never changes. */
  lemma {:induction false} NeverGrows(blocks: seq<seq<Transaction>>, m: nat, n: nat, asset: Txid)
    requires m <= n <= |blocks| <= U32_MAX && FreshBlocks(blocks)
    requires asset in PastIds(blocks, m)
    ensures asset in PastIds(blocks, n)
    ensures OnlyShrinks(ViewAfter(blocks, m), ViewAfter(blocks, n), {asset})
  {
    hide ViewAfter, FreshBlocks, Total, PastIds;
    if m < n {
      NeverGrows(blocks, m, n - 1, asset);
      ChainStep(blocks, n - 1);
    }
  }
}
