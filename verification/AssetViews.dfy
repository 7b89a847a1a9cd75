/** The assets view as a node holds it: maps changed in place, and candidate
    views kept until a block is applied (sidestr-core/src/assets.rs). */
module AssetViews {
  import opened Prelude
  import opened Transactions
  import opened Assets

  /** A refusal sticks: no later tally undoes it. */
  lemma {:induction false} TallyErrorSticks(tx: Transaction, m: nat, n: nat)
    requires m <= n <= |tx.records.tallies| && TallyUpTo(tx, m).Err?
    ensures TallyUpTo(tx, n) == TallyUpTo(tx, m)
  {
    if m < n {
      TallyErrorSticks(tx, m, n - 1);
    }
  }

  lemma {:induction false} AssignErrorSticks(d: Draft, tx: Transaction, asset: Txid, assigns: seq<(nat, nat)>, m: nat, n: nat)
    requires GoodAssigns(assigns) && m <= n <= |assigns| && AssignUpTo(d, tx, asset, assigns, m).Err?
    ensures AssignUpTo(d, tx, asset, assigns, n) == AssignUpTo(d, tx, asset, assigns, m)
  {
    if m < n {
      AssignErrorSticks(d, tx, asset, assigns, m, n - 1);
    }
  }

  /** Running totals with some of a carry's assets added. */
  function Added(total: Carry, c: Carry, done: set<Txid>): Carry
    requires done <= c.Keys
  {
    map a | a in total.Keys + done :: if a in done then Saturate(AmountOf(total, a) + c[a]) else total[a]
  }

  lemma AddedOne(total: Carry, c: Carry, done: set<Txid>, a: Txid)
    requires done <= c.Keys && a in c && a !in done
    ensures Added(total, c, done)[a := Saturate(AmountOf(Added(total, c, done), a) + c[a])] == Added(total, c, done + {a})
  {
  }

  /** Add one carry into running saturating totals, asset by asset. */
  method SumInto(total: Carry, c: Carry) returns (next: Carry)
    ensures forall a :: AmountOf(next, a) == Saturate(AmountOf(total, a) + AmountOf(c, a))
    ensures next.Keys == total.Keys + c.Keys
  {
    hide Added;
    next := total;
    var left := c.Keys;
    AddedNone(total, c);
    assert c.Keys - left == {};
    while left != {}
      invariant left <= c.Keys && next == Added(total, c, c.Keys - left)
      decreases |left|
    {
      var a :| a in left;
      AddedOne(total, c, c.Keys - left, a);
      assert c.Keys - left + {a} == c.Keys - (left - {a});
      next := next[a := Saturate(AmountOf(next, a) + c[a])];
      left := left - {a};
    }
    assert c.Keys - left == c.Keys;
    AddedAll(total, c);
  }

  lemma AddedNone(total: Carry, c: Carry)
    ensures Added(total, c, {}) == total
  {
  }

  lemma AddedAll(total: Carry, c: Carry)
    ensures forall a :: AmountOf(Added(total, c, c.Keys), a) == Saturate(AmountOf(total, a) + AmountOf(c, a))
    ensures Added(total, c, c.Keys).Keys == total.Keys + c.Keys
  {
  }

  lemma NothingPlaced(txid: Txid)
    ensures Placed(txid, map[]) == map[]
  {
  }

  lemma PlacedMore(base: map<OutPoint, Carry>, txid: Txid, placed: map<nat, Carry>, v: nat, c: Carry)
    ensures (base + Placed(txid, placed))[OutPoint(txid, v) := c] == base + Placed(txid, placed[v := c])
  {
    hide Placed;
    PlacedIs(txid, placed);
    PlacedIs(txid, placed[v := c]);
  }

  /** Read one tally onto the draft. */
  method ReadTally(d: Draft, tx: Transaction, t: Tally) returns (r: Result<Draft, AssetError>)
    ensures r == TallyOne(d, tx, t)
  {
    hide AssignOne, OpensPool;
    var asset := TallyAsset(t, tx);
    if asset.Err? { return Err(asset.error); }
    if asset.value in d.seen { return Err(TalliedTwice); }
    ghost var started := d.(seen := d.seen + {asset.value});
    var draft := d.(seen := d.seen + {asset.value});
    for n := 0 to |t.assigns|
      invariant AssignUpTo(started, tx, asset.value, t.assigns, n) == Ok(draft)
    {
      var next := AssignOne(draft, tx, asset.value, t.assigns[n].0, t.assigns[n].1);
      if next.Err? {
        AssignErrorSticks(started, tx, asset.value, t.assigns, n + 1, |t.assigns|);
        return next;
      }
      draft := next.value;
    }
    return Ok(draft);
  }

  /** Read every tally of a transaction, in order. */
  method ReadTallies(tx: Transaction) returns (r: Result<Draft, AssetError>)
    ensures r == TallyUpTo(tx, |tx.records.tallies|)
  {
    hide TallyOne;
    var draft := NO_DRAFT;
    for n := 0 to |tx.records.tallies|
      invariant TallyUpTo(tx, n) == Ok(draft)
    {
      var next := ReadTally(draft, tx, tx.records.tallies[n]);
      if next.Err? {
        TallyErrorSticks(tx, n + 1, |tx.records.tallies|);
        return next;
      }
      draft := next.value;
    }
    return Ok(draft);
  }

  /** The assets some of a transaction's first `n` inputs carry. */
  function AssetsIn(carried: map<OutPoint, Carry>, tx: Transaction, n: nat): set<Txid>
    requires n <= |tx.inputs|
  {
    if n == 0 then {}
    else
      var key := tx.inputs[n - 1].prev;
      AssetsIn(carried, tx, n - 1) + if key in carried then carried[key].Keys else {}
  }

  /** Each asset the first `n` inputs carry, with its saturating sum. */
  function SummedIn(carried: map<OutPoint, Carry>, tx: Transaction, n: nat): Carry
    requires n <= |tx.inputs|
  {
    map a | a in AssetsIn(carried, tx, n) :: CarriedIn(carried, tx, n, a)
  }

  lemma {:induction false} NotIn(carried: map<OutPoint, Carry>, tx: Transaction, n: nat, a: Txid)
    requires n <= |tx.inputs| && a !in AssetsIn(carried, tx, n)
    ensures CarriedIn(carried, tx, n, a) == 0
  {
    if n > 0 {
      NotIn(carried, tx, n - 1, a);
    }
  }

  /** Refused before its inputs are read: malformed, two issues, or an issue beside
      a pool opening. */
  predicate RefusedUnread(tx: Transaction)
  {
    |tx.records.bad| > 0 || |tx.records.issues| > 1 || (|tx.records.issues| > 0 && OpensPool(tx.records))
  }

  /** How one transaction is read: what its inputs were found to carry, and what it
      assigns or why it breaks the rule. */
  datatype Outcome = Outcome(carriedIn: Carry, result: Result<map<nat, Carry>, AssetError>)

  function OutcomeOf(carried: map<OutPoint, Carry>, tx: Transaction, policy: Policy): Outcome
  {
    Outcome(if RefusedUnread(tx) then map[] else SummedIn(carried, tx, |tx.inputs|), Check(carried, tx, policy))
  }

  /** What an outcome says was carried in, exactly: nothing when the records are malformed,
      issue twice or issue beside a pool opening; otherwise each asset's true total over
      the inputs, counted up to 64 bits. */
  lemma OutcomeExact(carried: map<OutPoint, Carry>, tx: Transaction, policy: Policy, a: Txid)
    requires UniqueInputs(tx)
    ensures AmountOf(OutcomeOf(carried, tx, policy).carriedIn, a)
            == if || |tx.records.bad| > 0 || |tx.records.issues| > 1
                  || (|tx.records.issues| > 0 && exists i :: 0 <= i < |tx.records.pools| && tx.records.pools[i].pool == SelfTx)
               then 0 else Saturate(Total(InputCarries(carried, tx), a))
  {
    hide Total, Check;
    CarriedInIs(carried, tx, |tx.inputs|, a);
    AllCarries(carried, tx);
    if a !in AssetsIn(carried, tx, |tx.inputs|) {
      NotIn(carried, tx, |tx.inputs|, a);
    }
  }

  /** How each of the first `n` transactions is read, the front coinbase left out. */
  ghost function OutcomesUpTo(view: View, txs: seq<Transaction>, n: nat, height: u32, policy: Policy): seq<Outcome>
    requires n <= |txs|
  {
    if n == 0 || (n == 1 && IsCoinbase(txs[0])) then []
    else OutcomesUpTo(view, txs, n - 1, height, policy)
         + [OutcomeOf(ApplyTxs(view, txs, n - 1, height, policy).carried, txs[n - 1], policy)]
  }

  class AssetView {
    var carried: map<OutPoint, Carry>
    var issued: map<Txid, Issued>

    ghost function State(): View
      reads this
    {
      View(carried, issued)
    }

    constructor ()
      ensures State() == EMPTY_VIEW
    {
      carried, issued := map[], map[];
    }

    /** An independent copy, for a candidate. */
    constructor Clone(v: AssetView)
      ensures State() == v.State()
    {
      carried, issued := v.carried, v.issued;
    }

    constructor Of(v: View)
      ensures State() == v
    {
      carried, issued := v.carried, v.issued;
    }

    method CarriedInOf(tx: Transaction) returns (total: Carry)
      ensures total == SummedIn(carried, tx, |tx.inputs|)
    {
      total := map[];
      for n := 0 to |tx.inputs|
        invariant total == SummedIn(carried, tx, n)
      {
        forall a | a !in AssetsIn(carried, tx, n)
          ensures CarriedIn(carried, tx, n, a) == 0
        {
          NotIn(carried, tx, n, a);
        }
        var key := tx.inputs[n].prev;
        if key in carried {
          total := SumInto(total, carried[key]);
        }
      }
    }

    /** Every assigned asset must be issued here, exempt, or carried in. */
    method AllCovered(tx: Transaction, policy: Policy, totals: Carry, have: Carry) returns (ok: bool)
      requires have == SummedIn(carried, tx, |tx.inputs|)
      ensures ok <==> forall a :: a in totals ==> Covered(carried, tx, policy, a, totals[a])
    {
      hide Allows, CarriedIn, AssetsIn;
      var left := totals.Keys;
      while left != {}
        invariant left <= totals.Keys
        invariant forall a :: a in totals && a !in left ==> Covered(carried, tx, policy, a, totals[a])
        decreases |left|
      {
        var a :| a in left;
        left := left - {a};
        if a == tx.txid && |tx.records.issues| > 0 { continue; }
        if Allows(policy, a, tx) { continue; }
        if a !in have {
          NotIn(carried, tx, |tx.inputs|, a);
        }
        if totals[a] > AmountOf(have, a) {
          assert !Covered(carried, tx, policy, a, totals[a]);
          return false;
        }
      }
      ok := true;
    }

    /** Check one transaction against the view as it stands, without changing it. */
    method CheckInner(tx: Transaction, policy: Policy) returns (carriedIn: Carry, r: Result<map<nat, Carry>, AssetError>)
      ensures Outcome(carriedIn, r) == OutcomeOf(carried, tx, policy)
    {
      hide Covered, TallyUpTo, OpensPool, SummedIn;
      var cls := tx.records;
      carriedIn := map[];
      if |cls.bad| > 0 { return carriedIn, Err(Malformed); }
      if |cls.issues| > 1 { return carriedIn, Err(TwoIssues); }
      if |cls.issues| > 0 && OpensPool(cls) { return carriedIn, Err(IssuesAndOpens); }
      carriedIn := CarriedInOf(tx);
      var d := ReadTallies(tx);
      if d.Err? { return carriedIn, Err(d.error); }
      var ok := AllCovered(tx, policy, d.value.totals, carriedIn);
      if !ok { return carriedIn, Err(OverAssigned); }
      r := Ok(d.value.out);
    }

    /** Read one transaction and write the outcome: its inputs are spent even when the
        rule is broken, and outputs carry something only when it is not. */
    method ApplyOne(tx: Transaction, height: u32, policy: Policy) returns (o: Outcome)
      modifies this
      ensures State() == ApplyTx(old(State()), tx, height, policy)
      ensures o == OutcomeOf(old(carried), tx, policy)
    {
      hide Check, Total, TallyUpTo, SummedIn, RefusedUnread;
      var carriedIn, r := CheckInner(tx, policy);
      o := Outcome(carriedIn, r);
      for n := 0 to |tx.inputs|
        invariant carried == old(carried) - (set i | 0 <= i < n :: tx.inputs[i].prev)
        invariant issued == old(issued)
      {
        carried := carried - {tx.inputs[n].prev};
      }
      if r.Ok? {
        Place(tx.txid, r.value);
        if |tx.records.issues| > 0 {
          var supply := SumOf(r.value, tx.txid);
          issued := issued[tx.txid :=
            Issued(tx.records.issues[0].ticker, tx.records.issues[0].decimals, height, supply, None)];
        }
      }
    }

    /** Index the assigned carries under this transaction's outpoints. */
    method Place(txid: Txid, out: map<nat, Carry>)
      modifies this
      ensures carried == old(carried) + Placed(txid, out)
      ensures issued == old(issued)
    {
      hide Placed;
      var left := out.Keys;
      ghost var placed: map<nat, Carry> := map[];
      NothingPlaced(txid);
      assert carried + map[] == carried;
      while left != {}
        invariant left <= out.Keys && placed.Keys == out.Keys - left
        invariant forall v :: v in placed ==> placed[v] == out[v]
        invariant carried == old(carried) + Placed(txid, placed) && issued == old(issued)
        decreases |left|
      {
        var v :| v in left;
        PlacedMore(old(carried), txid, placed, v, out[v]);
        placed := placed[v := out[v]];
        carried := carried[OutPoint(txid, v) := out[v]];
        left := left - {v};
      }
      assert placed == out;
    }

    /** Read a list of transactions one after another; only a front one shaped like a
        coinbase is passed over, and has no outcome. */
    method ApplyTransactions(txs: seq<Transaction>, height: u32, policy: Policy) returns (outcomes: seq<Outcome>)
      modifies this
      ensures State() == ApplyTxs(old(State()), txs, |txs|, height, policy)
      ensures outcomes == OutcomesUpTo(old(State()), txs, |txs|, height, policy)
    {
      hide ApplyTx, OutcomeOf;
      outcomes := [];
      for i := 0 to |txs|
        invariant State() == ApplyTxs(old(State()), txs, i, height, policy)
        invariant outcomes == OutcomesUpTo(old(State()), txs, i, height, policy)
      {
        if i == 0 && IsCoinbase(txs[0]) { continue; }
        var r := ApplyOne(txs[i], height, policy);
        outcomes := outcomes + [r];
      }
    }
  }

  /** The sum of one asset over what the outputs carry, in any order. */
  method SumOf(out: map<nat, Carry>, asset: Txid) returns (sum: nat)
    ensures sum == Total(out, asset)
  {
    sum := 0;
    var left := out;
    TotalEmpty<nat>(asset);
    while left != map[]
      invariant sum + Total(left, asset) == Total(out, asset)
      decreases |left.Keys|
    {
      var v :| v in left;
      TotalUpdate(left, v, left[v], asset);
      sum := sum + AmountOf(left[v], asset);
      assert (left - {v}).Keys == left.Keys - {v};
      left := left - {v};
    }
  }
}
