/** The assets rule stated without its loops (sidestr-core/src/assets.rs): what a
    transaction must be to keep it, and what its outputs then carry. */
module AssetsExact {
  import opened Prelude
  import opened Transactions
  import opened Assets

  /** The asset a tally assigns. */
  function Named(t: Tally, tx: Transaction): Txid { if t.asset.Id? then t.asset.id else tx.txid }

  /** Only a transaction that issues or opens a pool tallies itself. */
  predicate MayName(t: Tally, tx: Transaction)
  {
    t.asset.SelfTx? ==> |tx.records.issues| > 0 || OpensPool(tx.records)
  }

  /** An output worth something whose script does not open with `OP_RETURN`. */
  predicate Lands(tx: Transaction, vout: nat)
  {
    && vout < |tx.outputs| && tx.outputs[vout].value >= 1
    && (|tx.outputs[vout].script| > 0 ==> tx.outputs[vout].script[0] != 0x6a)
  }

  predicate AllLand(tx: Transaction, assigns: seq<(nat, nat)>, n: nat)
    requires n <= |assigns|
  {
    forall i :: 0 <= i < n ==> Lands(tx, assigns[i].0)
  }

  function Assigned(assigns: seq<(nat, nat)>, n: nat): nat
    requires n <= |assigns|
  {
    if n == 0 then 0 else Assigned(assigns, n - 1) + assigns[n - 1].1
  }

  predicate TallyKeeps(t: Tally, tx: Transaction)
  {
    MayName(t, tx) && AllLand(tx, t.assigns, |t.assigns|) && Assigned(t.assigns, |t.assigns|) <= U64_MAX
  }

  /** The first `n` tallies each stand alone and name different assets. */
  predicate TalliesKeep(tx: Transaction, n: nat)
    requires n <= |tx.records.tallies|
  {
    && (forall t :: 0 <= t < n ==> TallyKeeps(tx.records.tallies[t], tx))
    && (forall t, u :: 0 <= t < u < n ==> Named(tx.records.tallies[t], tx) != Named(tx.records.tallies[u], tx))
  }

  /** What output `v` carries of an asset. */
  function AmountAt(out: map<nat, Carry>, v: nat, a: Txid): Option<nat>
  {
    if v in out && a in out[v] then Some(out[v][a]) else None
  }

  /** The first `n` assignments give output `v` exactly `k`. */
  predicate Gives(assigns: seq<(nat, nat)>, n: nat, v: nat, k: nat)
    requires n <= |assigns|
  {
    exists i :: 0 <= i < n && assigns[i] == (v, k)
  }

  lemma {:induction false} GivesOnce(assigns: seq<(nat, nat)>, n: nat, v: nat, j: nat, k: nat)
    requires GoodAssigns(assigns) && n <= |assigns| && Gives(assigns, n, v, j) && Gives(assigns, n, v, k)
    ensures j == k
  {
    var a :| 0 <= a < n && assigns[a] == (v, j);
    var b :| 0 <= b < n && assigns[b] == (v, k);
    assert a == b;
  }

  /** One tally's assignments land on a draft that has none of its asset exactly
      when each output stands and their sum fits; then the draft gains them. */
  lemma {:induction false} AssignsExact(d: Draft, tx: Transaction, asset: Txid, assigns: seq<(nat, nat)>, n: nat)
    requires GoodAssigns(assigns) && n <= |assigns|
    requires asset !in d.totals && forall v: nat :: AmountAt(d.out, v, asset) == None
    ensures AssignUpTo(d, tx, asset, assigns, n).Ok? <==> AllLand(tx, assigns, n) && Assigned(assigns, n) <= U64_MAX
    ensures AssignUpTo(d, tx, asset, assigns, n).Ok? ==>
              var e := AssignUpTo(d, tx, asset, assigns, n).value;
              && e.seen == d.seen
              && e.totals == (if n == 0 then d.totals else d.totals[asset := Assigned(assigns, n)])
              && (forall v: nat, a: Txid :: a != asset ==> AmountAt(e.out, v, a) == AmountAt(d.out, v, a))
              && (forall v: nat, k: nat :: AmountAt(e.out, v, asset) == Some(k) <==> Gives(assigns, n, v, k))
  {
    hide Lands;
    if n > 0 {
      AssignsExact(d, tx, asset, assigns, n - 1);
      var before := AssignUpTo(d, tx, asset, assigns, n - 1);
      if before.Ok? {
        AssignOneExact(before.value, tx, asset, assigns[n - 1].0, assigns[n - 1].1);
        if AssignUpTo(d, tx, asset, assigns, n).Ok? {
          OneMoreGiven(before.value, AssignUpTo(d, tx, asset, assigns, n).value, asset, assigns, n);
        }
      }
    }
  }

  lemma AssignOneExact(d: Draft, tx: Transaction, asset: Txid, vout: nat, amount: nat)
    requires amount <= MAX_AMOUNT
    ensures AssignOne(d, tx, asset, vout, amount).Ok? <==> Lands(tx, vout) && AmountOf(d.totals, asset) + amount <= U64_MAX
    ensures AssignOne(d, tx, asset, vout, amount).Ok? ==>
              var e := AssignOne(d, tx, asset, vout, amount).value;
              && e.seen == d.seen && e.totals == d.totals[asset := AmountOf(d.totals, asset) + amount]
              && forall v: nat, a: Txid :: AmountAt(e.out, v, a) == if v == vout && a == asset then Some(amount) else AmountAt(d.out, v, a)
  {
  }

  lemma OneMoreGiven(d: Draft, e: Draft, asset: Txid, assigns: seq<(nat, nat)>, n: nat)
    requires GoodAssigns(assigns) && 0 < n <= |assigns|
    requires forall v: nat, k: nat :: AmountAt(d.out, v, asset) == Some(k) <==> Gives(assigns, n - 1, v, k)
    requires forall v: nat :: AmountAt(e.out, v, asset)
                         == if v == assigns[n - 1].0 then Some(assigns[n - 1].1) else AmountAt(d.out, v, asset)
    ensures forall v: nat, k: nat :: AmountAt(e.out, v, asset) == Some(k) <==> Gives(assigns, n, v, k)
  {
    hide AmountAt;
    forall v: nat, k: nat
      ensures AmountAt(e.out, v, asset) == Some(k) <==> Gives(assigns, n, v, k)
    {
      if v == assigns[n - 1].0 {
        assert Gives(assigns, n, v, assigns[n - 1].1);
        if Gives(assigns, n, v, k) {
          GivesOnce(assigns, n, v, k, assigns[n - 1].1);
        }
      } else if Gives(assigns, n, v, k) {
        var i :| 0 <= i < n && assigns[i] == (v, k);
        assert i < n - 1;
      }
    }
  }

  /** The assets the first `n` tallies name. */
  function NamedBy(tx: Transaction, n: nat): set<Txid>
    requires n <= |tx.records.tallies|
  {
    set t | 0 <= t < n :: Named(tx.records.tallies[t], tx)
  }

  /** Some tally of the first `n` gives output `v` exactly `k` of an asset. */
  predicate TallyGives(tx: Transaction, n: nat, v: nat, a: Txid, k: nat)
    requires n <= |tx.records.tallies|
  {
    exists t :: 0 <= t < n && Named(tx.records.tallies[t], tx) == a
                && Gives(tx.records.tallies[t].assigns, |tx.records.tallies[t].assigns|, v, k)
  }

  /** What a draft holds after the first `n` tallies. */
  ghost predicate Drafted(d: Draft, tx: Transaction, n: nat)
    requires n <= |tx.records.tallies|
  {
    && d.seen == NamedBy(tx, n) && d.totals.Keys == NamedBy(tx, n)
    && (forall t :: 0 <= t < n ==>
          && Named(tx.records.tallies[t], tx) in d.totals
          && d.totals[Named(tx.records.tallies[t], tx)] == Assigned(tx.records.tallies[t].assigns, |tx.records.tallies[t].assigns|))
    && (forall v: nat, a: Txid, k: nat :: AmountAt(d.out, v, a) == Some(k) <==> TallyGives(tx, n, v, a, k))
  }

  lemma NamedByMore(tx: Transaction, n: nat)
    requires 0 < n <= |tx.records.tallies|
    ensures NamedBy(tx, n) == NamedBy(tx, n - 1) + {Named(tx.records.tallies[n - 1], tx)}
  {
  }

  lemma TallyGivesMore(tx: Transaction, n: nat, v: nat, a: Txid, k: nat)
    requires 0 < n <= |tx.records.tallies|
    ensures TallyGives(tx, n, v, a, k) <==>
              || TallyGives(tx, n - 1, v, a, k)
              || (a == Named(tx.records.tallies[n - 1], tx)
                  && Gives(tx.records.tallies[n - 1].assigns, |tx.records.tallies[n - 1].assigns|, v, k))
  {
    hide Gives, Named;
  }

  /** One more tally, on a draft of the ones before it. */
  lemma TallyExact(d: Draft, tx: Transaction, n: nat)
    requires 0 < n <= |tx.records.tallies| && Drafted(d, tx, n - 1)
    ensures var t := tx.records.tallies[n - 1];
            && (TallyOne(d, tx, t).Ok? <==> TallyKeeps(t, tx) && Named(t, tx) !in NamedBy(tx, n - 1))
            && (TallyOne(d, tx, t).Ok? ==> Drafted(TallyOne(d, tx, t).value, tx, n))
  {
    hide Gives, Assigned, AllLand, AmountAt;
    var t := tx.records.tallies[n - 1];
    var asset := Named(t, tx);
    if MayName(t, tx) && asset !in d.seen {
      forall v: nat
        ensures AmountAt(d.out, v, asset) == None
      {
        NotGiven(d, tx, n - 1, asset, v);
      }
      var started := d.(seen := d.seen + {asset});
      AssignsExact(started, tx, asset, t.assigns, |t.assigns|);
      if TallyOne(d, tx, t).Ok? {
        NamedByMore(tx, n);
        TallyDrafted(d, TallyOne(d, tx, t).value, tx, n);
      }
    }
  }

  lemma NotGiven(d: Draft, tx: Transaction, n: nat, asset: Txid, v: nat)
    requires n <= |tx.records.tallies| && Drafted(d, tx, n) && asset !in NamedBy(tx, n)
    ensures AmountAt(d.out, v, asset) == None
  {
    hide Gives, AmountAt, Named;
    forall t | 0 <= t < n
      ensures Named(tx.records.tallies[t], tx) != asset
    {
      assert Named(tx.records.tallies[t], tx) in NamedBy(tx, n);
    }
    assert forall k: nat :: AmountAt(d.out, v, asset) != Some(k);
  }

  lemma TallyDrafted(d: Draft, e: Draft, tx: Transaction, n: nat)
    requires 0 < n <= |tx.records.tallies| && Drafted(d, tx, n - 1)
    requires var t := tx.records.tallies[n - 1];
             var asset := Named(t, tx);
             && asset !in NamedBy(tx, n - 1)
             && Assigned(t.assigns, |t.assigns|) <= U64_MAX
             && e.seen == d.seen + {asset}
             && e.totals == d.totals[asset := Assigned(t.assigns, |t.assigns|)]
             && (forall v: nat, a: Txid :: a != asset ==> AmountAt(e.out, v, a) == AmountAt(d.out, v, a))
             && (forall v: nat, k: nat :: AmountAt(e.out, v, asset) == Some(k) <==> Gives(t.assigns, |t.assigns|, v, k))
    ensures Drafted(e, tx, n)
  {
    hide Gives, Assigned, AmountAt, Named;
    NamedByMore(tx, n);
    var asset := Named(tx.records.tallies[n - 1], tx);
    forall t | 0 <= t < n - 1
      ensures Named(tx.records.tallies[t], tx) != asset
    {
      assert Named(tx.records.tallies[t], tx) in NamedBy(tx, n - 1);
    }
    forall v: nat, a: Txid, k: nat
      ensures AmountAt(e.out, v, a) == Some(k) <==> TallyGives(tx, n, v, a, k)
    {
      TallyGivesMore(tx, n, v, a, k);
    }
  }

  lemma {:induction false} TalliesExact(tx: Transaction, n: nat)
    requires n <= |tx.records.tallies|
    ensures TallyUpTo(tx, n).Ok? <==> TalliesKeep(tx, n)
    ensures TallyUpTo(tx, n).Ok? ==> Drafted(TallyUpTo(tx, n).value, tx, n)
  {
    hide TallyOne, TallyKeeps, Drafted, Named;
    if n == 0 {
      NothingDrafted(tx);
    } else {
      TalliesExact(tx, n - 1);
      if TallyUpTo(tx, n - 1).Ok? {
        TallyExact(TallyUpTo(tx, n - 1).value, tx, n);
      }
    }
  }

  lemma NothingDrafted(tx: Transaction)
    ensures Drafted(NO_DRAFT, tx, 0)
  {
  }

  /** The mints a collateral rule accounts for: the shares of a pool the transaction
      opens or of one there is, and either side of a market there is that a split
      record names. */
  predicate Exempted(policy: Policy, a: Txid, tx: Transaction)
  {
    && policy.Collateral?
    && (|| (policy.pools.Some? && a in policy.pools.value)
        || (policy.pools.Some? && a == tx.txid && exists i :: 0 <= i < |tx.records.pools| && tx.records.pools[i].pool == SelfTx)
        || (policy.markets.Some? && SplitNames(tx, policy.markets.value, a)))
  }

  predicate SplitNames(tx: Transaction, markets: set<Txid>, a: Txid)
  {
    exists i :: 0 <= i < |tx.records.markets| && SplitOf(tx.records.markets[i], markets, a)
  }

  predicate SplitOf(r: MarketRecord, markets: set<Txid>, a: Txid)
  {
    r.Split? && r.market in markets && (a == r.market || a == No(r.market))
  }

  lemma ExemptedIs(policy: Policy, a: Txid, tx: Transaction)
    ensures Allows(policy, a, tx) <==> Exempted(policy, a, tx)
  {
    if SplitNames(tx, if policy.Collateral? && policy.markets.Some? then policy.markets.value else {}, a) {
      var i :| 0 <= i < |tx.records.markets| && SplitOf(tx.records.markets[i], policy.markets.value, a);
    }
    if policy.Collateral? && policy.markets.Some? && SplitMints(policy.markets.value, a, tx.records) {
      var i :| 0 <= i < |tx.records.markets| && tx.records.markets[i].Split? && tx.records.markets[i].market in policy.markets.value
               && (a == tx.records.markets[i].market || a == No(tx.records.markets[i].market));
      assert SplitOf(tx.records.markets[i], policy.markets.value, a);
    }
  }

  /** What keeping the rule is: well-formed records, at most one issue and not
      beside a pool opening, different assets tallied onto outputs that stand, and
      each asset's sum covered by what the inputs carry unless it is issued here
      or exempt. */
  ghost predicate KeepsRule(carried: map<OutPoint, Carry>, tx: Transaction, policy: Policy)
  {
    var cls := tx.records;
    && |cls.bad| == 0 && |cls.issues| <= 1
    && (|cls.issues| == 0 || !OpensPool(cls))
    && TalliesKeep(tx, |cls.tallies|)
    && forall t :: 0 <= t < |cls.tallies| ==>
         var a := Named(cls.tallies[t], tx);
         || (a == tx.txid && |cls.issues| > 0)
         || Exempted(policy, a, tx)
         || Assigned(cls.tallies[t].assigns, |cls.tallies[t].assigns|) <= Total(InputCarries(carried, tx), a)
  }

  /** The assets rule, exactly: a transaction passes if and only if it keeps the
      rule, and then each output carries exactly what some tally gives it. */
  lemma CheckExact(carried: map<OutPoint, Carry>, tx: Transaction, policy: Policy)
    requires UniqueInputs(tx)
    ensures Check(carried, tx, policy).Ok? <==> KeepsRule(carried, tx, policy)
    ensures Check(carried, tx, policy).Ok? ==>
              forall v: nat, a: Txid, k: nat :: AmountAt(Check(carried, tx, policy).value, v, a) == Some(k)
                                <==> TallyGives(tx, |tx.records.tallies|, v, a, k)
  {
    hide TallyUpTo, TallyKeeps, TallyGives, AmountAt, Named, Allows, Exempted, Total, Assigned;
    var n := |tx.records.tallies|;
    TalliesExact(tx, n);
    forall a
      ensures Allows(policy, a, tx) <==> Exempted(policy, a, tx)
    {
      ExemptedIs(policy, a, tx);
    }
    if TallyUpTo(tx, n).Ok? {
      var d := TallyUpTo(tx, n).value;
      CoveredExact(carried, tx, policy, d);
    }
  }

  lemma CoveredExact(carried: map<OutPoint, Carry>, tx: Transaction, policy: Policy, d: Draft)
    requires UniqueInputs(tx) && Drafted(d, tx, |tx.records.tallies|)
    ensures (exists a :: a in d.totals && !Covered(carried, tx, policy, a, d.totals[a])) <==>
              exists t :: 0 <= t < |tx.records.tallies| &&
                var a := Named(tx.records.tallies[t], tx);
                && !(a == tx.txid && |tx.records.issues| > 0)
                && !Allows(policy, a, tx)
                && Assigned(tx.records.tallies[t].assigns, |tx.records.tallies[t].assigns|) > Total(InputCarries(carried, tx), a)
  {
    hide TallyGives, AmountAt, Named, Allows, Total, Assigned, CarriedIn;
    AllCarries(carried, tx);
    forall t | 0 <= t < |tx.records.tallies|
      ensures Named(tx.records.tallies[t], tx) in d.totals
      ensures var a := Named(tx.records.tallies[t], tx);
              !Covered(carried, tx, policy, a, d.totals[a]) <==>
                && !(a == tx.txid && |tx.records.issues| > 0)
                && !Allows(policy, a, tx)
                && Assigned(tx.records.tallies[t].assigns, |tx.records.tallies[t].assigns|) > Total(InputCarries(carried, tx), a)
    {
      CarriedInIs(carried, tx, |tx.inputs|, Named(tx.records.tallies[t], tx));
    }
    forall a | a in d.totals
      ensures exists t :: 0 <= t < |tx.records.tallies| && Named(tx.records.tallies[t], tx) == a
    {
      assert a in NamedBy(tx, |tx.records.tallies|);
    }
  }

  /** What each output carries once every tally is read: exactly what they give it. */
  ghost predicate Carries(tx: Transaction, out: map<nat, Carry>)
  {
    && (forall v: nat, a: Txid, k: nat :: AmountAt(out, v, a) == Some(k) <==> TallyGives(tx, |tx.records.tallies|, v, a, k))
    && forall v :: v in out ==> out[v] != map[]
  }

  /** No two assignments of carries give every output the same. */
  lemma CarriesOnce(tx: Transaction, out: map<nat, Carry>, other: map<nat, Carry>)
    requires Carries(tx, out) && Carries(tx, other)
    ensures out == other
  {
    hide TallyGives;
    forall v: nat, a: Txid
      ensures AmountAt(out, v, a) == AmountAt(other, v, a)
    {
      if AmountAt(out, v, a).Some? {
        assert TallyGives(tx, |tx.records.tallies|, v, a, AmountAt(out, v, a).value);
      }
      if AmountAt(other, v, a).Some? {
        assert TallyGives(tx, |tx.records.tallies|, v, a, AmountAt(other, v, a).value);
      }
    }
    SameAmounts(out, other);
  }

  lemma SameAmounts(out: map<nat, Carry>, other: map<nat, Carry>)
    requires forall v: nat, a: Txid :: AmountAt(out, v, a) == AmountAt(other, v, a)
    requires (forall v :: v in out ==> out[v] != map[]) && (forall v :: v in other ==> other[v] != map[])
    ensures out == other
  {
    forall v | v in out
      ensures v in other
    {
      var a :| a in out[v];
      assert AmountAt(other, v, a) == AmountAt(out, v, a);
    }
    forall v | v in other
      ensures v in out
    {
      var a :| a in other[v];
      assert AmountAt(out, v, a) == AmountAt(other, v, a);
    }
    forall v | v in out
      ensures out[v] == other[v]
    {
      forall a: Txid
        ensures (a in out[v] <==> a in other[v]) && (a in out[v] ==> out[v][a] == other[v][a])
      {
        assert AmountAt(out, v, a) == AmountAt(other, v, a);
      }
    }
  }

  /** Well-formed tallies give every output some carry or none. */
  lemma CarriesExist(tx: Transaction)
    requires TalliesKeep(tx, |tx.records.tallies|)
    ensures exists out :: Carries(tx, out)
  {
    hide TalliesKeep, TallyGives, AmountAt, TallyOne;
    TalliesExact(tx, |tx.records.tallies|);
    TallyUpToGood(tx, |tx.records.tallies|);
    var out := TallyUpTo(tx, |tx.records.tallies|).value.out;
    forall v | v in out
      ensures out[v] != map[]
    {
      assert GoodCarry(out[v], TallyUpTo(tx, |tx.records.tallies|).value.seen);
    }
    assert Carries(tx, out);
  }

  /** What a transaction that keeps the rule assigns. */
  lemma CheckCarries(carried: map<OutPoint, Carry>, tx: Transaction, policy: Policy, out: map<nat, Carry>)
    requires UniqueInputs(tx) && Carries(tx, out)
    ensures Check(carried, tx, policy) == Ok(out) <==> KeepsRule(carried, tx, policy)
    ensures Check(carried, tx, policy).Ok? <==> KeepsRule(carried, tx, policy)
  {
    hide Check, KeepsRule, TallyGives, AmountAt;
    CheckExact(carried, tx, policy);
    if Check(carried, tx, policy).Ok? {
      CheckedRecordable(carried, tx, policy);
      CarriesOnce(tx, out, Check(carried, tx, policy).value);
    }
  }

  /** Per asset, what the outputs carry is what its tally assigns. */
  lemma TalliedTotal(carried: map<OutPoint, Carry>, tx: Transaction, policy: Policy, t: nat)
    requires Check(carried, tx, policy).Ok? && t < |tx.records.tallies|
    ensures Total(Check(carried, tx, policy).value, Named(tx.records.tallies[t], tx))
            == Assigned(tx.records.tallies[t].assigns, |tx.records.tallies[t].assigns|)
  {
    hide TallyOne, Total, Assigned, TallyGives, Named;
    TalliesExact(tx, |tx.records.tallies|);
    TallyUpToGood(tx, |tx.records.tallies|);
  }

  /** An asset no tally names is carried by no output. */
  lemma UntalliedTotal(carried: map<OutPoint, Carry>, tx: Transaction, policy: Policy, a: Txid)
    requires Check(carried, tx, policy).Ok?
    requires forall t :: 0 <= t < |tx.records.tallies| ==> Named(tx.records.tallies[t], tx) != a
    ensures Total(Check(carried, tx, policy).value, a) == 0
  {
    hide TallyOne, Total, Assigned, TallyGives, Named;
    TalliesExact(tx, |tx.records.tallies|);
    TallyUpToGood(tx, |tx.records.tallies|);
    assert a !in NamedBy(tx, |tx.records.tallies|);
  }

  // --- what applying a transaction leaves --------------------------------------------------------

  predicate HoldsCarry(carried: map<OutPoint, Carry>, o: OutPoint, c: Carry) { o in carried && carried[o] == c }

  /** A transaction that keeps the rule gives outpoint `o` this carry. */
  ghost predicate Gained(view: View, tx: Transaction, policy: Policy, o: OutPoint)
  {
    Check(view.carried, tx, policy).Ok? && o.txid == tx.txid && o.vout in Check(view.carried, tx, policy).value
  }

  /** What is carried after a transaction, exactly: what it gives its outputs if it keeps
      the rule, and elsewhere what was carried and is not spent by it, kept or broken. */
  lemma AppliedExact(view: View, tx: Transaction, height: u32, policy: Policy, o: OutPoint, c: Carry)
    ensures HoldsCarry(ApplyTx(view, tx, height, policy).carried, o, c) <==>
              if Gained(view, tx, policy, o) then c == Check(view.carried, tx, policy).value[o.vout]
              else HoldsCarry(view.carried, o, c) && forall k :: 0 <= k < |tx.inputs| ==> tx.inputs[k].prev != o
  {
    hide Check, Placed;
    if Check(view.carried, tx, policy).Ok? {
      PlacedIs(tx.txid, Check(view.carried, tx, policy).value);
    }
  }

  /** What an issue registers, exactly: for a new id, the ticker and the decimals of its
      one issue record, the height, and as supply all its outputs then carry of it. A
      transaction that breaks the rule, or issues nothing, registers nothing. */
  lemma IssueExact(view: View, tx: Transaction, height: u32, policy: Policy)
    requires forall o :: o in view.carried ==> o.txid != tx.txid && tx.txid !in view.carried[o]
    ensures var next := ApplyTx(view, tx, height, policy);
            if Check(view.carried, tx, policy).Ok? && |tx.records.issues| > 0
            then
              && next.issued == view.issued[tx.txid := next.issued[tx.txid]]
              && var i := next.issued[tx.txid];
                 && i.ticker == tx.records.issues[0].ticker && i.decimals == tx.records.issues[0].decimals
                 && i.height == height && i.market == None
                 && i.supply == Total(next.carried, tx.txid)
            else next.issued == view.issued
    ensures Check(view.carried, tx, policy).Ok? ==>
              forall t :: 0 <= t < |tx.records.tallies| && Named(tx.records.tallies[t], tx) == tx.txid ==>
                Total(ApplyTx(view, tx, height, policy).carried, tx.txid)
                == Assigned(tx.records.tallies[t].assigns, |tx.records.tallies[t].assigns|)
  {
    hide Check, Total, Named, Assigned;
    TotalAfter(view, tx, height, policy, tx.txid);
    TotalZero(view.carried, tx.txid);
    TotalZero(InputCarries(view.carried, tx), tx.txid);
    if Check(view.carried, tx, policy).Ok? {
      forall t | 0 <= t < |tx.records.tallies| && Named(tx.records.tallies[t], tx) == tx.txid
        ensures Total(Check(view.carried, tx, policy).value, tx.txid)
                == Assigned(tx.records.tallies[t].assigns, |tx.records.tallies[t].assigns|)
      {
        TalliedTotal(view.carried, tx, policy, t);
      }
    }
  }
}
