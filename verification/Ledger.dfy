/** The coin set and a block's spending (sidestr-core/src/rules.rs).

    `Resolution` walks a block without touching the coin set, the way
    validation does; `ApplyTxs` changes the set, the way a validated block
    does. The two are proved to speak of the same coins. */
module Ledger {
  import opened Prelude
  import opened Transactions
  import opened Markers

  datatype Coin = Coin(output: TxOut, height: u32, coinbase: bool)

  type Utxo = map<OutPoint, Coin>

  const COINBASE_MATURITY := 100

  // --- values --------------------------------------------------------------------

  function OutTotal(outputs: seq<TxOut>, n: nat): nat
    requires n <= |outputs|
  {
    if n == 0 then 0 else OutTotal(outputs, n - 1) + outputs[n - 1].value
  }

  /** The checked sum of a transaction's outputs: nothing when it overflows. */
  function SumOut(tx: Transaction): Option<u64>
  {
    var total := OutTotal(tx.outputs, |tx.outputs|);
    if total <= U64_MAX then Some(total) else None
  }

  lemma {:induction false} OutTotalSplits(outputs: seq<TxOut>, n: nat)
    requires n <= |outputs|
    ensures OutTotal(outputs, n) == CoinTotal(outputs, n) + OpReturnTotal(outputs, n)
  {
    if n > 0 {
      OutTotalSplits(outputs, n - 1);
    }
  }

  ghost function Values(u: Utxo): map<OutPoint, nat>
  {
    map o | o in u :: u[o].output.value
  }

  /** What all the coins are worth. */
  ghost function Worth(u: Utxo): nat { MapSum(Values(u)) }

  // --- creating and spending -------------------------------------------------------

  /** The coins the first `n` outputs of a transaction create. */
  function CoinsUpTo(tx: Transaction, n: nat, height: u32, coinbase: bool): Utxo
    requires n <= |tx.outputs|
  {
    if n == 0 then map[]
    else
      var before := CoinsUpTo(tx, n - 1, height, coinbase);
      var o := tx.outputs[n - 1];
      if IsOpReturn(o.script) then before
      else before[OutPoint(tx.txid, n - 1) := Coin(o, height, coinbase)]
  }

  function CoinsOf(tx: Transaction, height: u32, coinbase: bool): Utxo
  {
    CoinsUpTo(tx, |tx.outputs|, height, coinbase)
  }

  /** A transaction's coins are exactly its outputs that are not `OP_RETURN`. */
  lemma {:induction false} CoinsAre(tx: Transaction, n: nat, height: u32, coinbase: bool)
    requires n <= |tx.outputs|
    ensures forall v: nat :: OutPoint(tx.txid, v) in CoinsUpTo(tx, n, height, coinbase)
                        <==> v < n && (|tx.outputs[v].script| > 0 ==> tx.outputs[v].script[0] != 0x6a)
    ensures forall o :: o in CoinsUpTo(tx, n, height, coinbase) ==>
              o.txid == tx.txid && o.vout < n
              && CoinsUpTo(tx, n, height, coinbase)[o] == Coin(tx.outputs[o.vout], height, coinbase)
  {
    if n > 0 {
      CoinsAre(tx, n - 1, height, coinbase);
    }
  }

  lemma AddCoinWorth(u: Utxo, key: OutPoint, c: Coin)
    requires key !in u
    ensures Worth(u[key := c]) == Worth(u) + c.output.value
  {
    MapSumUpdate(Values(u), key, c.output.value);
    assert Values(u) - {key} == Values(u);
    assert Values(u[key := c]) == Values(u)[key := c.output.value];
  }

  lemma {:induction false} CoinsWorth(tx: Transaction, n: nat, height: u32, coinbase: bool)
    requires n <= |tx.outputs|
    ensures Worth(CoinsUpTo(tx, n, height, coinbase)) == CoinTotal(tx.outputs, n)
  {
    if n == 0 {
      assert Values(CoinsUpTo(tx, n, height, coinbase)) == map[];
    } else {
      CoinsWorth(tx, n - 1, height, coinbase);
      CoinsAre(tx, n - 1, height, coinbase);
      var o := tx.outputs[n - 1];
      if !IsOpReturn(o.script) {
        AddCoinWorth(CoinsUpTo(tx, n - 1, height, coinbase), OutPoint(tx.txid, n - 1), Coin(o, height, coinbase));
      }
    }
  }

  /** Adding coins, over whatever they replace, adds at most their worth. */
  lemma WorthOfUnion(u: Utxo, v: Utxo)
    ensures Worth(u + v) <= Worth(u) + Worth(v)
  {
    assert Values(u + v) == Values(u) + Values(v);
    MapSumMerge(Values(u), Values(v));
  }

  lemma WorthWithout(u: Utxo, o: OutPoint)
    ensures o in u ==> Worth(u) == Worth(u - {o}) + u[o].output.value
    ensures o !in u ==> u - {o} == u
  {
    if o in u {
      MapSumRemove(Values(u), o);
      assert Values(u - {o}) == Values(u) - {o};
    }
  }

  /** The coin set after the first `n` inputs of a transaction are spent. */
  function SpendUpTo(u: Utxo, tx: Transaction, n: nat): Utxo
    requires n <= |tx.inputs|
  {
    if n == 0 then u else SpendUpTo(u, tx, n - 1) - {tx.inputs[n - 1].prev}
  }

  function ApplyTx(u: Utxo, tx: Transaction, height: u32, coinbase: bool): Utxo
  {
    (if coinbase then u else SpendUpTo(u, tx, |tx.inputs|)) + CoinsOf(tx, height, coinbase)
  }

  /** The coin set after the first `n` transactions of a block. */
  function ApplyTxs(u: Utxo, txs: seq<Transaction>, n: nat, height: u32): Utxo
    requires n <= |txs|
  {
    if n == 0 then u else ApplyTx(ApplyTxs(u, txs, n - 1, height), txs[n - 1], height, n == 1)
  }

  /** A coin taken by a block: by which transaction and input, and the coin. */
  datatype Take = Take(tx: nat, input: nat, coin: Coin)

  /** The coins the first `n` inputs of `tx` really remove from `u`, in order. */
  function TakenByInputs(u: Utxo, tx: Transaction, ti: nat, n: nat): seq<Take>
    requires n <= |tx.inputs|
  {
    if n == 0 then []
    else
      var before := TakenByInputs(u, tx, ti, n - 1);
      var live := SpendUpTo(u, tx, n - 1);
      var key := tx.inputs[n - 1].prev;
      if key in live then before + [Take(ti, n - 1, live[key])] else before
  }

  /** The coins the first `n` transactions really remove, in order. */
  function Taken(u: Utxo, txs: seq<Transaction>, n: nat, height: u32): seq<Take>
    requires n <= |txs|
  {
    if n <= 1 then []
    else Taken(u, txs, n - 1, height)
         + TakenByInputs(ApplyTxs(u, txs, n - 1, height), txs[n - 1], n - 1, |txs[n - 1].inputs|)
  }

  /** The number of inputs after the coinbase. */
  function InputCount(txs: seq<Transaction>, n: nat): nat
    requires n <= |txs|
  {
    if n <= 1 then 0 else InputCount(txs, n - 1) + |txs[n - 1].inputs|
  }

  /** How many of the first `n` outputs are coins. */
  function CoinCount(outputs: seq<TxOut>, n: nat): nat
    requires n <= |outputs|
  {
    if n == 0 then 0 else CoinCount(outputs, n - 1) + if IsOpReturn(outputs[n - 1].script) then 0 else 1
  }

  /** The count is of the outputs whose script does not open with 0x6a. */
  lemma {:induction false} CoinCountIs(outputs: seq<TxOut>, n: nat)
    requires n <= |outputs|
    ensures CoinCount(outputs, n) == |set v | 0 <= v < n && (|outputs[v].script| > 0 ==> outputs[v].script[0] != 0x6a)|
  {
    var coins := set v | 0 <= v < n && (|outputs[v].script| > 0 ==> outputs[v].script[0] != 0x6a);
    if n > 0 {
      CoinCountIs(outputs, n - 1);
      var before := set v | 0 <= v < n - 1 && (|outputs[v].script| > 0 ==> outputs[v].script[0] != 0x6a);
      assert coins == before + if IsOpReturn(outputs[n - 1].script) then {} else {n - 1};
    }
  }

  function CreatedCount(txs: seq<Transaction>, n: nat): nat
    requires n <= |txs|
  {
    if n == 0 then 0 else CreatedCount(txs, n - 1) + CoinCount(txs[n - 1].outputs, |txs[n - 1].outputs|)
  }

  /** The coin set held by a node, changed in place as blocks are applied. */
  class CoinSet {
    var coins: Utxo

    constructor ()
      ensures coins == map[]
    {
      coins := map[];
    }

    /** Remove each input's coin; an input with no coin removes nothing. */
    method SpendInputs(tx: Transaction, ghost ti: nat) returns (spent: nat)
      modifies this
      ensures coins == SpendUpTo(old(coins), tx, |tx.inputs|)
      ensures spent == |TakenByInputs(old(coins), tx, ti, |tx.inputs|)|
    {
      spent := 0;
      for n := 0 to |tx.inputs|
        invariant coins == SpendUpTo(old(coins), tx, n)
        invariant spent == |TakenByInputs(old(coins), tx, ti, n)|
      {
        if tx.inputs[n].prev in coins {
          spent := spent + 1;
        }
        coins := coins - {tx.inputs[n].prev};
      }
    }

    /** Insert a coin for each output that is not an `OP_RETURN`. */
    method CreateCoins(tx: Transaction, height: u32, coinbase: bool) returns (created: nat)
      modifies this
      ensures coins == old(coins) + CoinsOf(tx, height, coinbase)
      ensures created == CoinCount(tx.outputs, |tx.outputs|)
    {
      created := 0;
      for v := 0 to |tx.outputs|
        invariant coins == old(coins) + CoinsUpTo(tx, v, height, coinbase)
        invariant created == CoinCount(tx.outputs, v)
      {
        if !IsOpReturn(tx.outputs[v].script) {
          coins := coins[OutPoint(tx.txid, v) := Coin(tx.outputs[v], height, coinbase)];
          created := created + 1;
        }
      }
    }

    /** Spend a validated block's inputs and create its coins. Reports how many
        coins were created and how many inputs found a coin to spend. */
    method ApplyBlock(txs: seq<Transaction>, height: u32) returns (created: nat, spent: nat)
      modifies this
      ensures coins == ApplyTxs(old(coins), txs, |txs|, height)
      ensures spent == |Taken(old(coins), txs, |txs|, height)|
      ensures created == CreatedCount(txs, |txs|)
    {
      created, spent := 0, 0;
      for i := 0 to |txs|
        invariant coins == ApplyTxs(old(coins), txs, i, height)
        invariant spent == |Taken(old(coins), txs, i, height)|
        invariant created == CreatedCount(txs, i)
      {
        if i > 0 {
          var s := SpendInputs(txs[i], i);
          spent := spent + s;
        }
        var c := CreateCoins(txs[i], height, i == 0);
        created := created + c;
      }
    }
  }

  // --- resolving without mutation ----------------------------------------------------

  const LOCKTIME_THRESHOLD := 500_000_000

  /** BIP 68's flags and value in an input's sequence. */
  predicate SequenceDisabled(seq_: u32) { seq_ / 0x8000_0000 % 2 == 1 }
  predicate SequenceTimed(seq_: u32) { seq_ / 0x40_0000 % 2 == 1 }
  function SequenceValue(seq_: u32): nat { seq_ % 0x1_0000 }

  datatype Spending = Spending(
    fees: u64,
    missing: seq<OutPoint>,
    deficits: seq<Txid>,
    premature: seq<OutPoint>,
    lockViolations: seq<OutPoint>,
    lockUnknown: nat,
    resolved: seq<(nat, nat, TxOut)>)

  /** The walk's state between transactions. */
  datatype Walk = Walk(s: Spending, spentHere: set<OutPoint>, createdHere: Utxo)

  /** The walk's state between the inputs of one transaction. */
  datatype InputWalk = InputWalk(w: Walk, inSum: u64, valuesOk: bool)

  const NOTHING_SPENT := Spending(0, [], [], [], [], 0, [])

  function Lookup(w: Walk, u: Utxo, key: OutPoint): Option<Coin>
  {
    if key in w.createdHere then Some(w.createdHere[key])
    else if key in u then Some(u[key])
    else None
  }

  /** What BIP 68 says of one input whose coin (if any) is at `coinHeight`. */
  datatype LockVerdict = LockPasses | LockViolated | LockUnknown

  function SequenceLock(version: int, seq_: u32, coinHeight: Option<u32>, height: u32): LockVerdict
  {
    if version < 2 || SequenceDisabled(seq_) || SequenceValue(seq_) == 0 then LockPasses
    else if SequenceTimed(seq_) || coinHeight.None? then LockUnknown
    else if height < coinHeight.value + SequenceValue(seq_) then LockViolated
    else LockPasses
  }

  predicate Premature(c: Coin, height: u32)
  {
    c.coinbase && Max(height - c.height, 0) < COINBASE_MATURITY
  }

  /** One input: already spent in the block, or looked up, counted and judged. */
  function ResolveInput(iw: InputWalk, u: Utxo, tx: Transaction, ti: nat, ii: nat, height: u32): InputWalk
    requires ii < |tx.inputs|
  {
    var key := tx.inputs[ii].prev;
    var spentHere := iw.w.spentHere + {key};
    if key in iw.w.spentHere then
      InputWalk(iw.w.(s := iw.w.s.(missing := iw.w.s.missing + [key]), spentHere := spentHere), iw.inSum, false)
    else
      var coin := Lookup(iw.w, u, key);
      var s1 :=
        if coin.Some? then
          iw.w.s.(resolved := iw.w.s.resolved + [(ti, ii, coin.value.output)],
                  premature := if Premature(coin.value, height) then iw.w.s.premature + [key] else iw.w.s.premature)
        else iw.w.s.(missing := iw.w.s.missing + [key]);
      var lock := SequenceLock(tx.version, tx.inputs[ii].sequence,
                               if coin.Some? then Some(coin.value.height) else None, height);
      var s2 :=
        match lock
        case LockPasses => s1
        case LockViolated => s1.(lockViolations := s1.lockViolations + [key])
        case LockUnknown => s1.(lockUnknown := s1.lockUnknown + 1);
      InputWalk(iw.w.(s := s2, spentHere := spentHere),
                if coin.Some? then Saturate(iw.inSum + coin.value.output.value) else iw.inSum,
                iw.valuesOk && coin.Some?)
  }

  function ResolveInputs(w: Walk, u: Utxo, tx: Transaction, ti: nat, n: nat, height: u32): InputWalk
    requires n <= |tx.inputs|
  {
    if n == 0 then InputWalk(w, 0, true)
    else ResolveInput(ResolveInputs(w, u, tx, ti, n - 1, height), u, tx, ti, n - 1, height)
  }

  /** Settle a transaction's fee, or record that its outputs exceed its inputs. */
  function Settle(iw: InputWalk, tx: Transaction): Spending
  {
    var s := iw.w.s;
    var out := SumOut(tx);
    if !iw.valuesOk then s
    else if out.Some? && iw.inSum >= out.value then s.(fees := Saturate(s.fees + (iw.inSum - out.value)))
    else s.(deficits := s.deficits + [tx.txid])
  }

  function ResolveTx(w: Walk, u: Utxo, tx: Transaction, ti: nat, height: u32): Walk
  {
    var spent :=
      if ti == 0 then w
      else
        var iw := ResolveInputs(w, u, tx, ti, |tx.inputs|, height);
        iw.w.(s := Settle(iw, tx));
    spent.(createdHere := spent.createdHere + CoinsOf(tx, height, ti == 0))
  }

  /** The walk over the first `n` transactions of a block. */
  function ResolveTxs(u: Utxo, txs: seq<Transaction>, n: nat, height: u32): Walk
    requires n <= |txs|
  {
    if n == 0 then Walk(NOTHING_SPENT, {}, map[])
    else ResolveTx(ResolveTxs(u, txs, n - 1, height), u, txs[n - 1], n - 1, height)
  }

  function Resolution(u: Utxo, txs: seq<Transaction>, height: u32): Spending
  {
    ResolveTxs(u, txs, |txs|, height).s
  }

  /** The block's own coins so far, with one more transaction's added. */
  method CreateHere(created: Utxo, tx: Transaction, height: u32, coinbase: bool) returns (next: Utxo)
    ensures next == created + CoinsOf(tx, height, coinbase)
  {
    next := created;
    for v := 0 to |tx.outputs|
      invariant next == created + CoinsUpTo(tx, v, height, coinbase)
    {
      if !IsOpReturn(tx.outputs[v].script) {
        next := next[OutPoint(tx.txid, v) := Coin(tx.outputs[v], height, coinbase)];
      }
    }
  }

  /** Resolve one transaction: its inputs in order, its fee, then its outputs. */
  method ResolveOne(w: Walk, u: Utxo, tx: Transaction, ti: nat, height: u32) returns (next: Walk)
    ensures next == ResolveTx(w, u, tx, ti, height)
  {
    next := w;
    if ti > 0 {
      var iw := InputWalk(w, 0, true);
      for ii := 0 to |tx.inputs|
        invariant iw == ResolveInputs(w, u, tx, ti, ii, height)
      {
        iw := ResolveInput(iw, u, tx, ti, ii, height);
      }
      next := iw.w.(s := Settle(iw, tx));
    }
    var created := CreateHere(next.createdHere, tx, height, ti == 0);
    next := next.(createdHere := created);
  }

  /** Resolve a block's inputs against the coin set and the block's own earlier
      outputs, in order; the set is only read. */
  method ResolveSpending(u: Utxo, txs: seq<Transaction>, height: u32) returns (s: Spending)
    ensures s == Resolution(u, txs, height)
  {
    var w := Walk(NOTHING_SPENT, {}, map[]);
    for ti := 0 to |txs|
      invariant w == ResolveTxs(u, txs, ti, height)
    {
      w := ResolveOne(w, u, txs[ti], ti, height);
    }
    s := w.s;
  }
}
