/** The constant-product pool rule (sidestr-core/src/pool.rs): one coin per
    pool, recreated by every transaction that spends it. */
module Pools {
  import opened Prelude
  import opened Transactions
  import opened Assets
  import opened PoolArithmetic
  import opened CollateralCoins

  datatype Pool = Pool(id: Txid, asset: Txid, sats: u64, assets: u64, shares: u64, outpoint: OutPoint, since: u32)

  /** Pools by id, and the ids of their coins. */
  datatype PoolBook = PoolBook(pools: map<Txid, Pool>, byOutpoint: map<OutPoint, Txid>)

  datatype PoolError =
    | CoinbaseRecords
    | TwoSpent
    | TwoRecords
    | OpensAndSpends
    | NotAPoolCoin
    | NotOneAsset
    | HoldsOwnShares
    | WrongShares
    | NotSpent
    | UnknownPool
    | NotRecreated
    | Emptied
    | ShareCount
    | BadTransition(error: TransitionError)

  /** Not a refusal but arithmetic that cannot go on. */
  predicate Halting(e: PoolError) { e == BadTransition(Stops) }

  /** Opening a pool on output `vout`: the coin holds one asset not its own, and
      the shares tallied are exactly the root of its product. */
  ghost function CheckOpening(tx: Transaction, trace: Trace, vout: nat, height: u32): Result<Option<Pool>, PoolError>
  {
    var sats := TrueCoin(tx, vout);
    var held := CarryAt(trace.outputs, vout);
    if sats.None? then Err(NotAPoolCoin)
    else if |held| != 1 then Err(NotOneAsset)
    else
      var asset :| asset in held;
      if asset == tx.txid then Err(HoldsOwnShares)
      else
        var shares := ISqrt(sats.value * held[asset]);
        if SumCarry(trace.outputs, tx.txid) != shares then Err(WrongShares)
        else Ok(Some(Pool(tx.txid, asset, sats.value, held[asset], shares, OutPoint(tx.txid, vout), height)))
  }

  /** Recreating a spent pool's coin on output `vout`. */
  ghost function CheckContinuing(before: Pool, tx: Transaction, trace: Trace, vout: nat): Result<Option<Pool>, PoolError>
  {
    var sats := TrueCoin(tx, vout);
    var held := CarryAt(trace.outputs, vout);
    if sats.None? then Err(NotAPoolCoin)
    else if |held| != 1 || before.asset !in held then Err(NotOneAsset)
    else
      var assets := held[before.asset];
      var sharesIn, sharesOut := SumCarry(trace.inputs, before.id), SumCarry(trace.outputs, before.id);
      if assets == 0 then Err(Emptied)
      else if before.shares < sharesIn || before.shares - sharesIn + sharesOut > U64_MAX then Err(ShareCount)
      else
        var shares := before.shares - sharesIn + sharesOut;
        var t := Transition(before.sats, before.assets, before.shares, sats.value, assets, shares);
        if t.Some? then Err(BadTransition(t.value))
        else Ok(Some(Pool(before.id, before.asset, sats.value, assets, shares, OutPoint(tx.txid, vout), before.since)))
  }

  /** A pool holds something on each side, within what a coin and a record can hold. */
  predicate Held(p: Pool) { 0 < p.sats <= MAX_SATS && 0 < p.assets <= MAX_AMOUNT }

  /** Every output is within the money limit: true of every accepted transaction,
      though a block the transaction phase refuses is still judged here. */
  predicate MoneyInRange(tx: Transaction)
  {
    forall v :: 0 <= v < |tx.outputs| ==> tx.outputs[v].value <= MAX_SATS
  }

  /** The rule for one transaction: the pool as it leaves it, if it touches one. */
  ghost function CheckPool(book: PoolBook, tx: Transaction, trace: Trace, height: u32, coinbase: bool): Result<Option<Pool>, PoolError>
  {
    var records := tx.records.pools;
    var spent := Spent(book.byOutpoint, tx);
    if coinbase then (if |records| == 0 then Ok(None) else Err(CoinbaseRecords))
    else if |spent| > 1 then Err(TwoSpent)
    else if |records| > 1 then Err(TwoRecords)
    else if |spent| == 0 && |records| == 0 then Ok(None)
    else if |records| == 1 && records[0].pool.SelfTx? then
      if |spent| > 0 then Err(OpensAndSpends) else CheckOpening(tx, trace, records[0].vout, height)
    else if |spent| == 0 then Err(NotSpent)
    else if spent[0] !in book.pools then Err(UnknownPool)
    else if |records| == 0 || records[0].pool != Id(spent[0]) then Err(NotRecreated)
    else CheckContinuing(book.pools[spent[0]], tx, trace, records[0].vout)
  }

  /** The book with a pool's new state: its old coin forgotten, its new one indexed. */
  function ApplyPool(book: PoolBook, pool: Pool): PoolBook
  {
    var left := if pool.id in book.pools then book.byOutpoint - {book.pools[pool.id].outpoint} else book.byOutpoint;
    PoolBook(book.pools[pool.id := pool], left[pool.outpoint := pool.id])
  }

  ghost function ApplyEffect(book: PoolBook, effect: Option<Pool>): PoolBook
  {
    if effect.Some? then ApplyPool(book, effect.value) else book
  }

  // --- what every book keeps ------------------------------------------------------------

  /** The coin index is the exact inverse of the pools' coins. */
  ghost predicate Indexed(book: PoolBook)
  {
    && (forall id :: id in book.pools ==>
          book.pools[id].id == id && book.pools[id].outpoint in book.byOutpoint
          && book.byOutpoint[book.pools[id].outpoint] == id)
    && (forall o :: o in book.byOutpoint ==>
          book.byOutpoint[o] in book.pools && book.pools[book.byOutpoint[o]].outpoint == o)
  }

  /** A pool holds something and its shares are within its value. */
  ghost predicate Sound(p: Pool)
  {
    && Held(p)
    && p.shares * p.shares <= p.sats * p.assets
  }

  ghost predicate SoundBook(book: PoolBook)
  {
    forall id :: id in book.pools ==> Sound(book.pools[id])
  }

  lemma ApplyIndexed(book: PoolBook, pool: Pool)
    requires Indexed(book)
    requires pool.outpoint !in book.byOutpoint
    ensures Indexed(ApplyPool(book, pool))
  {
  }

  /** A pool as an opening transaction must make it: an `OP_TRUE` coin carrying
      one asset that is not its own, and as many shares tallied as the whole root
      of its two sides' product. */
  ghost predicate OpensAs(p: Pool, tx: Transaction, trace: Trace, vout: nat, height: u32)
  {
    && p.id == tx.txid && p.outpoint == OutPoint(tx.txid, vout) && p.since == height
    && TrueCoin(tx, vout) == Some(p.sats)
    && CarryAt(trace.outputs, vout) == map[p.asset := p.assets] && p.asset != tx.txid
    && p.shares == Saturate(Total(trace.outputs, tx.txid))
    && IsRoot(p.shares, p.sats * p.assets)
  }

  /** Opening, exactly. */
  lemma OpeningExact(tx: Transaction, trace: Trace, vout: nat, height: u32)
    ensures forall p :: CheckOpening(tx, trace, vout, height) == Ok(Some(p)) <==> OpensAs(p, tx, trace, vout, height)
    ensures CheckOpening(tx, trace, vout, height).Ok? ==> CheckOpening(tx, trace, vout, height).value.Some?
  {
    hide ISqrt, IsRoot, Total;
    var held := CarryAt(trace.outputs, vout);
    forall p
      ensures CheckOpening(tx, trace, vout, height) == Ok(Some(p)) <==> OpensAs(p, tx, trace, vout, height)
    {
      if CheckOpening(tx, trace, vout, height) == Ok(Some(p)) {
        OneKey(held, p.asset);
      }
      if OpensAs(p, tx, trace, vout, height) {
        RootUnique(p.shares, ISqrt(p.sats * p.assets), p.sats * p.assets);
        assert held.Keys == {p.asset};
      }
    }
  }

  /** A pool as a continuing transaction must make it: its coin recreated with its
      asset, the shares moved by the share units taken in and put out, each counted
      up to 64 bits, and a step the arithmetic admits. */
  ghost predicate ContinuesAs(p: Pool, before: Pool, tx: Transaction, trace: Trace, vout: nat)
  {
    && p == before.(sats := p.sats, assets := p.assets, shares := p.shares, outpoint := OutPoint(tx.txid, vout))
    && TrueCoin(tx, vout) == Some(p.sats)
    && CarryAt(trace.outputs, vout) == map[before.asset := p.assets] && p.assets > 0
    && Saturate(Total(trace.inputs, before.id)) <= before.shares
    && p.shares + Saturate(Total(trace.inputs, before.id)) == before.shares + Saturate(Total(trace.outputs, before.id))
    && Transition(before.sats, before.assets, before.shares, p.sats, p.assets, p.shares) == None
  }

  /** Continuing, exactly. */
  lemma ContinuingExact(before: Pool, tx: Transaction, trace: Trace, vout: nat)
    ensures forall p :: CheckContinuing(before, tx, trace, vout) == Ok(Some(p)) <==> ContinuesAs(p, before, tx, trace, vout)
    ensures CheckContinuing(before, tx, trace, vout).Ok? ==> CheckContinuing(before, tx, trace, vout).value.Some?
  {
    hide Transition, Total;
    var held := CarryAt(trace.outputs, vout);
    if |held| == 1 && before.asset in held {
      OneKey(held, before.asset);
    }
    forall p | ContinuesAs(p, before, tx, trace, vout)
      ensures CheckContinuing(before, tx, trace, vout) == Ok(Some(p))
    {
      assert held.Keys == {before.asset};
    }
  }

  /** An opening pool is sound, new to the chain, and sits on this transaction. */
  lemma OpeningSound(tx: Transaction, trace: Trace, vout: nat, height: u32)
    requires MoneyInRange(tx) && forall v :: v in trace.outputs ==> RecordableCarry(trace.outputs[v])
    requires CheckOpening(tx, trace, vout, height).Ok?
    ensures CheckOpening(tx, trace, vout, height).value.Some?
    ensures var p := CheckOpening(tx, trace, vout, height).value.value;
            && Sound(p) && p.id == tx.txid && p.outpoint == OutPoint(tx.txid, vout)
            && TrueCoin(tx, vout) == Some(p.sats)
            && vout in trace.outputs && trace.outputs[vout] == map[p.asset := p.assets]
            && p.asset != tx.txid
  {
    var held := CarryAt(trace.outputs, vout);
    assert vout in trace.outputs;
    assert RecordableCarry(held);
    var p := CheckOpening(tx, trace, vout, height).value.value;
    OneKey(held, p.asset);
  }

  lemma OneKey(held: Carry, asset: Txid)
    requires |held| == 1 && asset in held
    ensures held == map[asset := held[asset]]
  {
    assert |held.Keys| == 1;
    assert |held.Keys - {asset}| == 0;
    assert held.Keys == {asset};
  }

  /** From one state of a pool to a later one: the product of its sides has grown
      at least as the square of its shares, and no shares came from none. */
  predicate KeepsValue(p: Pool, q: Pool)
  {
    && q.id == p.id && q.asset == p.asset && q.since == p.since
    && p.sats * p.assets * (q.shares * q.shares) <= q.sats * q.assets * (p.shares * p.shares)
    && (p.shares == 0 ==> q.shares == 0)
  }

  lemma KeepsValueChains(p: Pool, q: Pool, r: Pool)
    requires KeepsValue(p, q) && KeepsValue(q, r)
    ensures KeepsValue(p, r)
  {
    var a, b, c := p.sats * p.assets, q.sats * q.assets, r.sats * r.assets;
    var s, t, u := p.shares * p.shares, q.shares * q.shares, r.shares * r.shares;
    if q.shares == 0 {
      assert u == 0;
    } else {
      MulAtLeast(q.shares, 1, q.shares, 1);
      ChainProducts(a, b, c, s, t, u);
    }
  }

  lemma ChainProducts(a: nat, b: nat, c: nat, s: nat, t: nat, u: nat)
    requires a * t <= b * s && b * u <= c * t && t > 0
    ensures a * u <= c * s
  {
    if a * u > c * s {
      MulAtLeast(b * s, a * t, u, u);
      MulAtLeast(c * t, b * u, s, s);
      Reorder(a, t, u);
      Reorder(b, s, u);
      Reorder(b, u, s);
      Reorder(c, t, s);
      assert (c * s + 1) * t == c * s * t + t;
      MulAtLeast(a * u, c * s + 1, t, t);
    }
  }

  lemma Reorder(x: nat, y: nat, z: nat)
    ensures x * y * z == x * z * y
  {
  }

  /** A continued pool stays sound and loses no value per share. */
  lemma ContinuingSound(before: Pool, tx: Transaction, trace: Trace, vout: nat)
    requires Sound(before) && MoneyInRange(tx)
    requires forall v :: v in trace.outputs ==> RecordableCarry(trace.outputs[v])
    requires CheckContinuing(before, tx, trace, vout).Ok?
    ensures CheckContinuing(before, tx, trace, vout).value.Some?
    ensures var p := CheckContinuing(before, tx, trace, vout).value.value;
            && Sound(p) && KeepsValue(before, p)
            && p.outpoint == OutPoint(tx.txid, vout)
            && TrueCoin(tx, vout) == Some(p.sats)
            && vout in trace.outputs && trace.outputs[vout] == map[p.asset := p.assets]
  {
    hide Transition, SumCarry, KeepsValue;
    var p := CheckContinuing(before, tx, trace, vout).value.value;
    OneKey(CarryAt(trace.outputs, vout), before.asset);
    assert RecordableCarry(trace.outputs[vout]);
    TransitionKeeps(before, p);
  }

  lemma TransitionKeeps(before: Pool, p: Pool)
    requires Sound(before) && Held(p)
    requires p.id == before.id && p.asset == before.asset && p.since == before.since
    requires Transition(before.sats, before.assets, before.shares, p.sats, p.assets, p.shares) == None
    ensures Sound(p) && KeepsValue(before, p)
  {
    hide Transition;
    ValuePerShareNeverFalls(before.sats, before.assets, before.shares, p.sats, p.assets, p.shares);
    SharesWithinValue(before.sats, before.assets, before.shares, p.sats, p.assets, p.shares);
    if before.shares == 0 {
      ZeroStaysZero(before.sats, before.assets, p.sats, p.assets, p.shares);
    }
  }

  /** What the rule guarantees of a transaction it passes: either it touches no
      pool and spends no pool coin, or it opens one pool, or it recreates the
      one pool whose coin it spends. */
  lemma CheckedPool(book: PoolBook, tx: Transaction, trace: Trace, height: u32)
    requires SoundBook(book) && Indexed(book)
    requires MoneyInRange(tx) && forall v :: v in trace.outputs ==> RecordableCarry(trace.outputs[v])
    requires CheckPool(book, tx, trace, height, false).Ok?
    ensures var effect := CheckPool(book, tx, trace, height, false).value;
            match effect
            case None =>
              && |tx.records.pools| == 0
              && (forall k :: 0 <= k < |tx.inputs| ==> tx.inputs[k].prev !in book.byOutpoint)
            case Some(p) =>
              && Sound(p)
              && |tx.records.pools| == 1
              && p.outpoint == OutPoint(tx.txid, tx.records.pools[0].vout)
              && TrueCoin(tx, p.outpoint.vout) == Some(p.sats)
              && p.outpoint.vout in trace.outputs && trace.outputs[p.outpoint.vout] == map[p.asset := p.assets]
              && (if tx.records.pools[0].pool.SelfTx? then
                    && p.id == tx.txid
                    && (forall k :: 0 <= k < |tx.inputs| ==> tx.inputs[k].prev !in book.byOutpoint)
                  else
                    && p.id in book.pools
                    && tx.records.pools[0].pool == Id(p.id)
                    && book.pools[p.id].outpoint in Spends(tx)
                    && (forall k :: 0 <= k < |tx.inputs| && tx.inputs[k].prev in book.byOutpoint ==>
                          tx.inputs[k].prev == book.pools[p.id].outpoint)
                    && KeepsValue(book.pools[p.id], p))
  {
    hide Sound, CheckOpening, CheckContinuing, TrueCoin, RecordableCarry, SpentUpTo;
    var spent, records := Spent(book.byOutpoint, tx), tx.records.pools;
    SpentIs(book.byOutpoint, tx, |tx.inputs|);
    if |spent| == 0 && |records| == 0 {
    } else if |records| == 1 && records[0].pool.SelfTx? {
      OpeningSound(tx, trace, records[0].vout, height);
    } else {
      ContinuingSound(book.pools[spent[0]], tx, trace, records[0].vout);
      assert SpendsCoinOf(book.byOutpoint, tx, |tx.inputs|, spent[0]);
      forall k | 0 <= k < |tx.inputs| && tx.inputs[k].prev in book.byOutpoint
        ensures book.byOutpoint[tx.inputs[k].prev] == spent[0]
      {
        assert book.byOutpoint[tx.inputs[k].prev] in spent;
      }
    }
  }

  /** What a transaction does to a book, as the rule has it: opens a pool with its one
      record, spending none; or recreates the one pool whose coin it spends once, with
      its one record naming that pool. */
  ghost predicate Touches(book: PoolBook, tx: Transaction, trace: Trace, height: u32, p: Pool)
  {
    && |tx.records.pools| == 1
    && var r := tx.records.pools[0];
       match r.pool
       case SelfTx => SpendsNone(book.byOutpoint, tx) && OpensAs(p, tx, trace, r.vout, height)
       case Id(id) => SpendsOne(book.byOutpoint, tx, id) && id in book.pools && ContinuesAs(p, book.pools[id], tx, trace, r.vout)
  }

  /** The pool rule, exactly: it passes a transaction that spends no pool coin and has
      no record, or one that opens or recreates one pool; and a coinbase only without
      a record. */
  lemma RuleExact(book: PoolBook, tx: Transaction, trace: Trace, height: u32)
    ensures CheckPool(book, tx, trace, height, false) == Ok(None)
            <==> |tx.records.pools| == 0 && SpendsNone(book.byOutpoint, tx)
    ensures forall p :: CheckPool(book, tx, trace, height, false) == Ok(Some(p)) <==> Touches(book, tx, trace, height, p)
    ensures CheckPool(book, tx, trace, height, true) == Ok(None) <==> |tx.records.pools| == 0
    ensures CheckPool(book, tx, trace, height, true).Ok? ==> CheckPool(book, tx, trace, height, true).value == None
  {
    hide Spent, SpendsNone, SpendsOne, CheckOpening, CheckContinuing, OpensAs, ContinuesAs;
    SpentExact(book.byOutpoint, tx);
    var spent := Spent(book.byOutpoint, tx);
    if |tx.records.pools| == 1 {
      var r := tx.records.pools[0];
      OpeningExact(tx, trace, r.vout, height);
      if |spent| == 1 {
        assert spent == [spent[0]];
        if spent[0] in book.pools {
          ContinuingExact(book.pools[spent[0]], tx, trace, r.vout);
        }
      }
    }
  }

  /** With every amount in range and every pool sound no check halts, and what one
      passes leaves every pool sound. */
  lemma InRangeNeverHalts(book: PoolBook, tx: Transaction, trace: Trace, height: u32, coinbase: bool)
    requires SoundBook(book) && MoneyInRange(tx)
    requires forall v :: v in trace.outputs ==> RecordableCarry(trace.outputs[v])
    ensures CheckPool(book, tx, trace, height, coinbase).Err? ==> !Halting(CheckPool(book, tx, trace, height, coinbase).error)
    ensures CheckPool(book, tx, trace, height, coinbase).Ok? ==> SoundBook(ApplyEffect(book, CheckPool(book, tx, trace, height, coinbase).value))
  {
    hide CheckOpening, CheckContinuing, Sound, SpentUpTo, RecordableCarry, MoneyInRange;
    var records, spent := tx.records.pools, Spent(book.byOutpoint, tx);
    if |records| == 1 {
      OpeningNeverHalts(tx, trace, records[0].vout, height);
      if CheckOpening(tx, trace, records[0].vout, height).Ok? {
        OpeningSound(tx, trace, records[0].vout, height);
      }
      if |spent| == 1 && spent[0] in book.pools {
        ContinuingNeverHalts(book.pools[spent[0]], tx, trace, records[0].vout);
        if CheckContinuing(book.pools[spent[0]], tx, trace, records[0].vout).Ok? {
          ContinuingSound(book.pools[spent[0]], tx, trace, records[0].vout);
        }
      }
    }
  }

  lemma OpeningNeverHalts(tx: Transaction, trace: Trace, vout: nat, height: u32)
    ensures CheckOpening(tx, trace, vout, height).Err? ==> !Halting(CheckOpening(tx, trace, vout, height).error)
  {
    hide ISqrt, SumCarry;
  }

  lemma ContinuingNeverHalts(before: Pool, tx: Transaction, trace: Trace, vout: nat)
    requires Sound(before) && MoneyInRange(tx)
    requires forall v :: v in trace.outputs ==> RecordableCarry(trace.outputs[v])
    ensures CheckContinuing(before, tx, trace, vout).Err? ==> !Halting(CheckContinuing(before, tx, trace, vout).error)
  {
    hide Transition, SumCarry;
    var r := CheckContinuing(before, tx, trace, vout);
    if r.Err? && r.error.BadTransition? {
      var sats, assets := TrueCoin(tx, vout).value, CarryAt(trace.outputs, vout)[before.asset];
      var shares := before.shares - SumCarry(trace.inputs, before.id) + SumCarry(trace.outputs, before.id);
      assert vout in trace.outputs;
      StopsOnlyOutOfRange(before.sats, before.assets, before.shares, sats, assets, shares);
    }
  }

  /** The pools a node holds, changed in place. */
  class PoolView {
    var pools: map<Txid, Pool>
    var byOutpoint: map<OutPoint, Txid>

    ghost function Book(): PoolBook
      reads this
    {
      PoolBook(pools, byOutpoint)
    }

    constructor ()
      ensures Book() == PoolBook(map[], map[])
    {
      pools, byOutpoint := map[], map[];
    }

    /** An independent copy, for a candidate. */
    constructor Clone(v: PoolView)
      ensures Book() == v.Book()
    {
      pools, byOutpoint := v.pools, v.byOutpoint;
    }

    constructor Of(book: PoolBook)
      ensures Book() == book
    {
      pools, byOutpoint := book.pools, book.byOutpoint;
    }

    /** Insert a pool's new state, forgetting the coin it had. */
    method Apply(pool: Pool)
      modifies this
      ensures Book() == ApplyPool(old(Book()), pool)
    {
      if pool.id in pools {
        byOutpoint := byOutpoint - {pools[pool.id].outpoint};
      }
      pools := pools[pool.id := pool];
      byOutpoint := byOutpoint[pool.outpoint := pool.id];
    }

    /** Judge one transaction against the pools as they stand. */
    method Check(tx: Transaction, trace: Trace, height: u32, coinbase: bool) returns (r: Result<Option<Pool>, PoolError>)
      ensures r == CheckPool(Book(), tx, trace, height, coinbase)
    {
      hide SpentUpTo, CheckOpening, CheckContinuing;
      var records := tx.records.pools;
      if coinbase { return if |records| == 0 then Ok(None) else Err(CoinbaseRecords); }
      var spent := SpentBy(byOutpoint, tx);
      if |spent| > 1 { return Err(TwoSpent); }
      if |records| > 1 { return Err(TwoRecords); }
      if |spent| == 0 && |records| == 0 { return Ok(None); }
      if |records| == 1 && records[0].pool.SelfTx? {
        if |spent| > 0 { return Err(OpensAndSpends); }
        r := Open(tx, trace, records[0].vout, height);
        return;
      }
      if |spent| == 0 { return Err(NotSpent); }
      if spent[0] !in pools { return Err(UnknownPool); }
      if |records| == 0 || records[0].pool != Id(spent[0]) { return Err(NotRecreated); }
      r := Continue(pools[spent[0]], tx, trace, records[0].vout);
    }
  }

  method Open(tx: Transaction, trace: Trace, vout: nat, height: u32) returns (r: Result<Option<Pool>, PoolError>)
    ensures r == CheckOpening(tx, trace, vout, height)
  {
    hide ISqrt, IsRoot, SumCarry;
    var sats := TrueCoin(tx, vout);
    if sats.None? { return Err(NotAPoolCoin); }
    var held := CarryAt(trace.outputs, vout);
    if |held| != 1 { return Err(NotOneAsset); }
    var asset :| asset in held;
    OneKey(held, asset);
    if asset == tx.txid { return Err(HoldsOwnShares); }
    OpeningSharesFit(sats.value, held[asset]);
    var a: nat, b: nat := sats.value, held[asset];
    var product: nat := a * b;
    var root := Isqrt(product as u128);
    RootUnique(root as int, ISqrt(product), product);
    var shares: u64 := root as int;
    var tallied := SumCarries(trace.outputs, tx.txid);
    if tallied != shares { return Err(WrongShares); }
    return Ok(Some(Pool(tx.txid, asset, sats.value, held[asset], shares, OutPoint(tx.txid, vout), height)));
  }

  method Continue(before: Pool, tx: Transaction, trace: Trace, vout: nat) returns (r: Result<Option<Pool>, PoolError>)
    ensures r == CheckContinuing(before, tx, trace, vout)
  {
    hide Transition;
    var sats := TrueCoin(tx, vout);
    if sats.None? { return Err(NotAPoolCoin); }
    var held := CarryAt(trace.outputs, vout);
    if |held| != 1 || before.asset !in held { return Err(NotOneAsset); }
    var assets := held[before.asset];
    if assets == 0 { return Err(Emptied); }
    var sharesIn := SumCarries(trace.inputs, before.id);
    var sharesOut := SumCarries(trace.outputs, before.id);
    if before.shares < sharesIn || before.shares - sharesIn + sharesOut > U64_MAX { return Err(ShareCount); }
    var shares := before.shares - sharesIn + sharesOut;
    var t := CheckTransition(before.sats as u128, before.assets as u128, before.shares as u128,
                             sats.value as u128, assets as u128, shares as u128);
    if t.Some? { return Err(BadTransition(t.value)); }
    return Ok(Some(Pool(before.id, before.asset, sats.value, assets, shares, OutPoint(tx.txid, vout), before.since)));
  }
}
