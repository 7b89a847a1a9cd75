/** What pools and markets share: an `OP_TRUE` coin indexed by its outpoint,
    and the asset flows the assets rule found (sidestr-core/src/pool.rs,
    sidestr-core/src/markets.rs). */
module CollateralCoins {
  import opened Prelude
  import opened Transactions
  import opened Assets

  const OP_TRUE: Script := [0x51]

  /** What the assets rule found a transaction's inputs and outputs to carry. */
  datatype Trace = Trace(inputs: map<OutPoint, Carry>, outputs: map<nat, Carry>)

  /** The total of an asset over some carries, as a saturating sum. */
  ghost function SumCarry<K>(m: map<K, Carry>, asset: Txid): u64 { Saturate(Total(m, asset)) }

  /** The ids of the coins of a book that the first `n` inputs spend, in order. */
  function SpentUpTo(byOutpoint: map<OutPoint, Txid>, tx: Transaction, n: nat): seq<Txid>
    requires n <= |tx.inputs|
  {
    if n == 0 then []
    else
      var before := SpentUpTo(byOutpoint, tx, n - 1);
      var key := tx.inputs[n - 1].prev;
      if key in byOutpoint then before + [byOutpoint[key]] else before
  }

  function Spent(byOutpoint: map<OutPoint, Txid>, tx: Transaction): seq<Txid>
  {
    SpentUpTo(byOutpoint, tx, |tx.inputs|)
  }

  /** The value of an output that is `OP_TRUE` and worth something. */
  function TrueCoin(tx: Transaction, vout: nat): Option<u64>
  {
    if vout < |tx.outputs| && tx.outputs[vout].script == OP_TRUE && tx.outputs[vout].value >= 1
    then Some(tx.outputs[vout].value) else None
  }

  /** A collateral coin, exactly: an output of at least a sat whose script is the one
      byte 0x51. */
  lemma TrueCoinExact(tx: Transaction, vout: nat, value: u64)
    ensures TrueCoin(tx, vout) == Some(value) <==>
              vout < |tx.outputs| && tx.outputs[vout].script == [0x51] && tx.outputs[vout].value == value && value >= 1
  {
  }

  /** Some input among the first `n` spends the coin of `id`. */
  predicate SpendsCoinOf(byOutpoint: map<OutPoint, Txid>, tx: Transaction, n: nat, id: Txid)
    requires n <= |tx.inputs|
  {
    exists k :: 0 <= k < n && tx.inputs[k].prev in byOutpoint && byOutpoint[tx.inputs[k].prev] == id
  }

  lemma {:induction false} SpentIs(byOutpoint: map<OutPoint, Txid>, tx: Transaction, n: nat)
    requires n <= |tx.inputs|
    ensures forall id :: id in SpentUpTo(byOutpoint, tx, n) ==> SpendsCoinOf(byOutpoint, tx, n, id)
    ensures forall k :: 0 <= k < n && tx.inputs[k].prev in byOutpoint ==>
              byOutpoint[tx.inputs[k].prev] in SpentUpTo(byOutpoint, tx, n)
  {
    if n > 0 {
      SpentIs(byOutpoint, tx, n - 1);
      forall id | id in SpentUpTo(byOutpoint, tx, n)
        ensures SpendsCoinOf(byOutpoint, tx, n, id)
      {
        if id in SpentUpTo(byOutpoint, tx, n - 1) {
          assert SpendsCoinOf(byOutpoint, tx, n - 1, id);
        }
      }
    }
  }

  /** No input spends a coin of the book. */
  predicate SpendsNone(byOutpoint: map<OutPoint, Txid>, tx: Transaction)
  {
    forall k :: 0 <= k < |tx.inputs| ==> tx.inputs[k].prev !in byOutpoint
  }

  /** Input `k` spends the coin of `id`, and no other input spends one of the book's. */
  predicate SpendsOneAt(byOutpoint: map<OutPoint, Txid>, tx: Transaction, k: nat, id: Txid)
  {
    && k < |tx.inputs| && tx.inputs[k].prev in byOutpoint && byOutpoint[tx.inputs[k].prev] == id
    && forall j :: 0 <= j < |tx.inputs| && j != k ==> tx.inputs[j].prev !in byOutpoint
  }

  ghost predicate SpendsOne(byOutpoint: map<OutPoint, Txid>, tx: Transaction, id: Txid)
  {
    exists k: nat :: SpendsOneAt(byOutpoint, tx, k, id)
  }

  lemma {:induction false} SpentCounts(byOutpoint: map<OutPoint, Txid>, tx: Transaction, n: nat, k: nat)
    requires n <= |tx.inputs|
    requires forall j :: 0 <= j < n && j != k ==> tx.inputs[j].prev !in byOutpoint
    ensures SpentUpTo(byOutpoint, tx, n)
            == if k < n && tx.inputs[k].prev in byOutpoint then [byOutpoint[tx.inputs[k].prev]] else []
  {
    if n > 0 {
      SpentCounts(byOutpoint, tx, n - 1, k);
    }
  }

  lemma {:induction false} SpentSome(byOutpoint: map<OutPoint, Txid>, tx: Transaction, n: nat)
    requires n <= |tx.inputs|
    ensures |SpentUpTo(byOutpoint, tx, n)| == 0 ==> forall j :: 0 <= j < n ==> tx.inputs[j].prev !in byOutpoint
    ensures |SpentUpTo(byOutpoint, tx, n)| == 1 ==> exists k: nat ::
              && k < n && tx.inputs[k].prev in byOutpoint && SpentUpTo(byOutpoint, tx, n) == [byOutpoint[tx.inputs[k].prev]]
              && forall j :: 0 <= j < n && j != k ==> tx.inputs[j].prev !in byOutpoint
  {
    if n > 0 {
      SpentSome(byOutpoint, tx, n - 1);
      if |SpentUpTo(byOutpoint, tx, n)| == 1 {
        if tx.inputs[n - 1].prev in byOutpoint {
          assert forall j :: 0 <= j < n && j != n - 1 ==> tx.inputs[j].prev !in byOutpoint;
        } else {
          var k: nat :| && k < n - 1 && tx.inputs[k].prev in byOutpoint
                        && SpentUpTo(byOutpoint, tx, n - 1) == [byOutpoint[tx.inputs[k].prev]]
                        && forall j :: 0 <= j < n - 1 && j != k ==> tx.inputs[j].prev !in byOutpoint;
        }
      }
    }
  }

  /** What a transaction spends of a book, exactly: nothing, or one coin once. */
  lemma SpentExact(byOutpoint: map<OutPoint, Txid>, tx: Transaction)
    ensures Spent(byOutpoint, tx) == [] <==> SpendsNone(byOutpoint, tx)
    ensures forall id :: Spent(byOutpoint, tx) == [id] <==> SpendsOne(byOutpoint, tx, id)
  {
    SpentSome(byOutpoint, tx, |tx.inputs|);
    if SpendsNone(byOutpoint, tx) {
      SpentCounts(byOutpoint, tx, |tx.inputs|, |tx.inputs|);
    }
    forall id
      ensures Spent(byOutpoint, tx) == [id] <==> SpendsOne(byOutpoint, tx, id)
    {
      if SpendsOne(byOutpoint, tx, id) {
        var k: nat :| SpendsOneAt(byOutpoint, tx, k, id);
        SpentCounts(byOutpoint, tx, |tx.inputs|, k);
      }
      if Spent(byOutpoint, tx) == [id] {
        var k: nat :| && k < |tx.inputs| && tx.inputs[k].prev in byOutpoint
                      && Spent(byOutpoint, tx) == [byOutpoint[tx.inputs[k].prev]]
                      && forall j :: 0 <= j < |tx.inputs| && j != k ==> tx.inputs[j].prev !in byOutpoint;
        assert SpendsOneAt(byOutpoint, tx, k, id);
      }
    }
  }

  method SpentBy(byOutpoint: map<OutPoint, Txid>, tx: Transaction) returns (spent: seq<Txid>)
    ensures spent == Spent(byOutpoint, tx)
  {
    spent := [];
    for n := 0 to |tx.inputs|
      invariant spent == SpentUpTo(byOutpoint, tx, n)
    {
      if tx.inputs[n].prev in byOutpoint {
        spent := spent + [byOutpoint[tx.inputs[n].prev]];
      }
    }
  }

  /** Saturating addition over carries in whatever order they come: the true
      total, saturated once. */
  method SumCarries<K(==)>(m: map<K, Carry>, asset: Txid) returns (sum: u64)
    ensures sum == SumCarry(m, asset)
  {
    sum := 0;
    var left := m;
    TotalEmpty<K>(asset);
    while left != map[]
      invariant SumCarry(m, asset) == Saturate(sum + Total(left, asset))
      decreases |left.Keys|
    {
      var k :| k in left;
      TotalUpdate(left, k, left[k], asset);
      sum := Saturate(sum + AmountOf(left[k], asset));
      assert (left - {k}).Keys == left.Keys - {k};
      left := left - {k};
    }
  }
}
