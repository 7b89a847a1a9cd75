/** Binary prediction markets (sidestr-core/src/markets.rs): a coin of sats
    backs two assets, YES (the market's id) and NO, minted and burned in pairs
    until a resolver answers or the grace period lapses. */
module Markets {
  import opened Prelude
  import opened Transactions
  import opened Assets
  import opened CollateralCoins

  datatype Status = Open | Resolved | Refunding

  datatype Market = Market(
    id: Txid,
    coin: OutPoint,
    collateral: u64,
    resolver: seq<byte>,
    expiry: u32,
    grace: u32,
    question: string,
    status: Status,
    winner: Option<MarketOutcome>,
    since: u32)

  datatype MarketBook = MarketBook(markets: map<Txid, Market>, byOutpoint: map<OutPoint, Txid>)

  datatype MarketError =
    | CoinbaseRecords
    | TwoSpent
    | TwoRecords
    | StrayQuestion
    | NotRecreated
    | OpensAndSpends
    | NotAMarketCoin
    | OneQuestion
    | ExpiryPast
    | NoGrace
    | OpensAndIssues
    | NotSpent
    | OtherMarket
    | UnknownMarket
    | NotOpen
    | GracePassed
    | NoResolverInput
    | CoinChanged
    | CollateralDirection
    | SplitAmounts
    | MergeAmounts
    | RedeemAmounts
    | NoWinner
    | StillOpen
    | RefundAmounts

  /** The existing market an action names; an opening names none. */
  function Named(r: MarketRecord): Option<Txid>
  {
    match r
    case OpenMarket(_, _, _, _) => None
    case Split(m, _) => Some(m)
    case Merge(m, _) => Some(m)
    case Redeem(m, _) => Some(m)
    case Resolve(m, _) => Some(m)
  }

  /** The value of an output that is `OP_TRUE`, worth something and carries nothing. */
  function MarketCoin(tx: Transaction, trace: Trace, vout: nat): Option<u64>
  {
    if vout in trace.outputs then None else TrueCoin(tx, vout)
  }

  /** A market's coin, exactly. */
  lemma MarketCoinExact(tx: Transaction, trace: Trace, vout: nat, value: u64)
    ensures MarketCoin(tx, trace, vout) == Some(value) <==>
              && vout < |tx.outputs| && tx.outputs[vout].script == [0x51] && tx.outputs[vout].value == value && value >= 1
              && vout !in trace.outputs
  {
  }

  /** The last height at which the resolver may answer. */
  function Deadline(m: Market): u32 { Min(m.expiry + m.grace, U32_MAX) }

  /** The `OP_TRUE` outputs among the first `n`. */
  function TrueOutputsUpTo(tx: Transaction, n: nat): seq<nat>
    requires n <= |tx.outputs|
  {
    if n == 0 then []
    else
      var before := TrueOutputsUpTo(tx, n - 1);
      if tx.outputs[n - 1].script == OP_TRUE then before + [n - 1] else before
  }

  function CheckOpen(tx: Transaction, trace: Trace, r: MarketRecord, height: u32): Result<Option<Market>, MarketError>
    requires r.OpenMarket?
  {
    var coin := MarketCoin(tx, trace, r.vout);
    if coin.None? then Err(NotAMarketCoin)
    else if |tx.records.questions| != 1 then Err(OneQuestion)
    else if r.expiry <= height then Err(ExpiryPast)
    else if r.grace < 1 then Err(NoGrace)
    else if |tx.records.issues| > 0 || OpensPool(tx.records) then Err(OpensAndIssues)
    else Ok(Some(Market(tx.txid, OutPoint(tx.txid, r.vout), coin.value, r.resolver, r.expiry, r.grace,
                        tx.records.questions[0], Open, None, height)))
  }

  function CheckResolve(before: Market, tx: Transaction, trace: Trace, outcome: MarketOutcome, height: u32,
                        scripts: map<nat, Script>): Result<Option<Market>, MarketError>
  {
    var coins := TrueOutputsUpTo(tx, |tx.outputs|);
    if before.status != Open then Err(NotOpen)
    else if height > Deadline(before) then Err(GracePassed)
    else if !exists k :: k in scripts && scripts[k] == [0x51, 0x20] + before.resolver then Err(NoResolverInput)
    else if |coins| != 1 || coins[0] >= |tx.outputs| || tx.outputs[coins[0]].value != before.collateral
         || coins[0] in trace.outputs then Err(CoinChanged)
    else Ok(Some(before.(coin := OutPoint(tx.txid, coins[0]), status := Resolved, winner := Some(outcome))))
  }

  /** How much of YES and NO a transaction carries in and out, as the rule sums them. */
  datatype Flow = Flow(yesIn: nat, noIn: nat, yesOut: nat, noOut: nat)

  ghost function FlowOf(trace: Trace, id: Txid): Flow
  {
    Flow(SumCarry(trace.inputs, id), SumCarry(trace.inputs, No(id)),
         SumCarry(trace.outputs, id), SumCarry(trace.outputs, No(id)))
  }

  function SettleSplit(before: Market, coin: OutPoint, collateral: u64, f: Flow): Result<Option<Market>, MarketError>
  {
    if collateral <= before.collateral then Err(CollateralDirection)
    else
      var amount := collateral - before.collateral;
      if f.yesOut != f.yesIn + amount || f.noOut != f.noIn + amount then Err(SplitAmounts)
      else Ok(Some(before.(coin := coin, collateral := collateral)))
  }

  function SettleMerge(before: Market, coin: OutPoint, collateral: u64, f: Flow): Result<Option<Market>, MarketError>
  {
    if before.collateral <= collateral then Err(CollateralDirection)
    else
      var amount := before.collateral - collateral;
      if f.yesIn < amount || f.noIn < amount then Err(MergeAmounts)
      else if f.yesOut > f.yesIn - amount || f.noOut > f.noIn - amount then Err(MergeAmounts)
      else Ok(Some(before.(coin := coin, collateral := collateral)))
  }

  function SettleRedeem(before: Market, coin: OutPoint, collateral: u64, f: Flow, height: u32): Result<Option<Market>, MarketError>
  {
    if before.collateral <= collateral then Err(CollateralDirection)
    else
      var amount := before.collateral - collateral;
      if before.status == Resolved then
        if before.winner.None? then Err(NoWinner)
        else
          var winnerIn := if before.winner.value == Yes then f.yesIn else f.noIn;
          var winnerOut := if before.winner.value == Yes then f.yesOut else f.noOut;
          if winnerIn < amount || winnerOut > winnerIn - amount then Err(RedeemAmounts)
          else Ok(Some(before.(coin := coin, collateral := collateral)))
      else if height <= Deadline(before) then Err(StillOpen)
      else if f.yesIn < f.yesOut || f.noIn < f.noOut
           || (f.yesIn - f.yesOut) + (f.noIn - f.noOut) < 2 * amount then Err(RefundAmounts)
      else Ok(Some(before.(coin := coin, collateral := collateral, status := Refunding)))
  }

  ghost function CheckSettle(before: Market, tx: Transaction, trace: Trace, r: MarketRecord, height: u32): Result<Option<Market>, MarketError>
    requires r.Split? || r.Merge? || r.Redeem?
  {
    var collateral := MarketCoin(tx, trace, r.vout);
    if collateral.None? then Err(NotAMarketCoin)
    else
      var coin, f := OutPoint(tx.txid, r.vout), FlowOf(trace, before.id);
      match r
      case Split(_, _) => SettleSplit(before, coin, collateral.value, f)
      case Merge(_, _) => SettleMerge(before, coin, collateral.value, f)
      case Redeem(_, _) => SettleRedeem(before, coin, collateral.value, f, height)
  }

  /** The rule for one transaction: the market as it leaves it, if it touches one. */
  ghost function CheckMarket(book: MarketBook, tx: Transaction, trace: Trace, height: u32, coinbase: bool,
                             scripts: map<nat, Script>): Result<Option<Market>, MarketError>
  {
    var cls := tx.records;
    var spent := Spent(book.byOutpoint, tx);
    if coinbase then (if |cls.markets| == 0 && |cls.questions| == 0 then Ok(None) else Err(CoinbaseRecords))
    else if |spent| > 1 then Err(TwoSpent)
    else if |cls.markets| > 1 then Err(TwoRecords)
    else if |spent| == 0 && |cls.markets| == 0 then
      if |cls.questions| == 0 then Ok(None) else Err(StrayQuestion)
    else if |cls.markets| == 0 then Err(NotRecreated)
    else
      var r := cls.markets[0];
      if r.OpenMarket? then
        if |spent| > 0 then Err(OpensAndSpends) else CheckOpen(tx, trace, r, height)
      else if |spent| == 0 then Err(NotSpent)
      else if Named(r) != Some(spent[0]) then Err(OtherMarket)
      else if |cls.questions| > 0 then Err(StrayQuestion)
      else if spent[0] !in book.markets then Err(UnknownMarket)
      else if r.Resolve? then CheckResolve(book.markets[spent[0]], tx, trace, r.outcome, height, scripts)
      else CheckSettle(book.markets[spent[0]], tx, trace, r, height)
  }

  /** The book with a market's new state: its old coin forgotten, its new one indexed. */
  function ApplyMarket(book: MarketBook, m: Market): MarketBook
  {
    var left := if m.id in book.markets then book.byOutpoint - {book.markets[m.id].coin} else book.byOutpoint;
    MarketBook(book.markets[m.id := m], left[m.coin := m.id])
  }

  ghost function ApplyMarketEffect(book: MarketBook, effect: Option<Market>): MarketBook
  {
    if effect.Some? then ApplyMarket(book, effect.value) else book
  }

  // --- what every book keeps ---------------------------------------------------------------

  /** The coin index is the exact inverse of the markets' coins; only a resolved
      market has a winner; each holds collateral. */
  ghost predicate Indexed(book: MarketBook)
  {
    && (forall id :: id in book.markets ==>
          && book.markets[id].id == id
          && book.markets[id].coin in book.byOutpoint
          && book.byOutpoint[book.markets[id].coin] == id
          && book.markets[id].collateral > 0
          && (book.markets[id].winner.Some? <==> book.markets[id].status == Resolved))
    && (forall o :: o in book.byOutpoint ==>
          book.byOutpoint[o] in book.markets && book.markets[book.byOutpoint[o]].coin == o)
  }

  lemma ApplyIndexed(book: MarketBook, m: Market)
    requires Indexed(book) && m.coin !in book.byOutpoint
    requires m.collateral > 0 && (m.winner.Some? <==> m.status == Resolved)
    ensures Indexed(ApplyMarket(book, m))
  {
  }

  // --- opening ---------------------------------------------------------------------------

  /** A market as an opening transaction must make it: on an `OP_TRUE` coin that
      carries nothing, with one question, an expiry still to come and some grace, in
      a transaction that issues nothing and opens no pool. */
  predicate OpensAs(m: Market, tx: Transaction, trace: Trace, r: MarketRecord, height: u32)
  {
    && r.OpenMarket?
    && m.id == tx.txid && m.coin == OutPoint(tx.txid, r.vout) && m.since == height
    && r == OpenMarket(m.coin.vout, m.resolver, m.expiry, m.grace)
    && m.status == Open && m.winner == None
    && MarketCoin(tx, trace, m.coin.vout) == Some(m.collateral)
    && tx.records.questions == [m.question]
    && height < m.expiry && m.grace >= 1
    && |tx.records.issues| == 0 && !OpensPool(tx.records)
  }

  /** Opening, exactly. */
  lemma OpeningExact(tx: Transaction, trace: Trace, r: MarketRecord, height: u32)
    requires r.OpenMarket?
    ensures forall m :: CheckOpen(tx, trace, r, height) == Ok(Some(m)) <==> OpensAs(m, tx, trace, r, height)
    ensures CheckOpen(tx, trace, r, height).Ok? ==> CheckOpen(tx, trace, r, height).value.Some?
  {
    hide MarketCoin, OpensPool;
    forall m
      ensures CheckOpen(tx, trace, r, height) == Ok(Some(m)) <==> OpensAs(m, tx, trace, r, height)
    {
      if CheckOpen(tx, trace, r, height) == Ok(Some(m)) {
        assert tx.records.questions == [m.question];
      }
    }
  }

  /** What a transaction that opens a market puts into it. */
  function Deposited(tx: Transaction): nat
  {
    if |tx.records.markets| == 1 && tx.records.markets[0].OpenMarket? && tx.records.markets[0].vout < |tx.outputs|
    then tx.outputs[tx.records.markets[0].vout].value else 0
  }

  // --- solvency --------------------------------------------------------------------------

  /** What a market owes is within what it holds, with `spare` sats left over:
      while open, either side could win; once resolved, only the winner is owed;
      while refunding, each unit of either side is owed half a sat. */
  predicate Solvent(m: Market, yes: nat, no: nat, spare: nat)
  {
    match m.status
    case Open => yes + spare <= m.collateral && no + spare <= m.collateral
    case Resolved => m.winner.Some? && (if m.winner.value == Yes then yes else no) + spare <= m.collateral
    case Refunding => yes + no + 2 * spare <= 2 * m.collateral
  }

  /** How a passed action moves a market and its two assets. */
  predicate Moves(before: Market, after: Market, r: MarketRecord, f: Flow)
  {
    && after.id == before.id
    && match r
       case OpenMarket(_, _, _, _) => false
       case Split(_, _) =>
         && after.collateral > before.collateral
         && after.status == before.status && after.winner == before.winner
         && f.yesOut == f.yesIn + (after.collateral - before.collateral)
         && f.noOut == f.noIn + (after.collateral - before.collateral)
       case Merge(_, _) =>
         && after.collateral < before.collateral
         && after.status == before.status && after.winner == before.winner
         && f.yesOut + (before.collateral - after.collateral) <= f.yesIn
         && f.noOut + (before.collateral - after.collateral) <= f.noIn
       case Redeem(_, _) =>
         && after.collateral < before.collateral
         && after.winner == before.winner
         && (if before.status == Resolved then
               && after.status == Resolved
               && before.winner.Some?
               && (if before.winner.value == Yes
                   then f.yesOut + (before.collateral - after.collateral) <= f.yesIn
                   else f.noOut + (before.collateral - after.collateral) <= f.noIn)
             else
               && after.status == Refunding
               && f.yesOut <= f.yesIn && f.noOut <= f.noIn
               && f.yesOut + f.noOut + 2 * (before.collateral - after.collateral) <= f.yesIn + f.noIn)
       case Resolve(_, outcome) =>
         && after.collateral == before.collateral
         && before.status == Open && after.status == Resolved && after.winner == Some(outcome)
  }

  /** A passed action keeps the market solvent, and what it has to spare: the
      totals after are what was carried, less what the transaction took in, plus
      what it put out. */
  lemma SolventStep(before: Market, after: Market, r: MarketRecord, f: Flow, yes: nat, no: nat, spare: nat)
    requires Solvent(before, yes, no, spare) && Moves(before, after, r, f)
    requires f.yesIn <= yes && f.noIn <= no
    requires r.Resolve? ==> f.yesOut <= f.yesIn && f.noOut <= f.noIn
    ensures Solvent(after, yes - f.yesIn + f.yesOut, no - f.noIn + f.noOut, spare)
  {
  }

  /** A transaction that mints neither side keeps the market solvent. */
  lemma SolventLess(m: Market, yes: nat, no: nat, yes2: nat, no2: nat, spare: nat)
    requires Solvent(m, yes, no, spare) && yes2 <= yes && no2 <= no
    ensures Solvent(m, yes2, no2, spare)
  {
  }

  /** What some units of the two sides are worth to their holder: one sat for a
      winning unit, nothing for a losing one, half a sat for either in a refund. */
  function Worth(m: Market, yes: nat, no: nat): nat
  {
    if m.status != Resolved then (yes + no) / 2
    else if m.winner == Some(Yes) then yes
    else no
  }

  /** A solvent market can pay for all the units there are, and keep what it has
      to spare. */
  lemma WorthWithin(m: Market, yes: nat, no: nat, spare: nat)
    requires Solvent(m, yes, no, spare)
    ensures Worth(m, yes, no) + spare <= m.collateral
  {
  }

  /** A settled market never changes its answer, and never starts refunding;
      one that refunds never resolves. */
  predicate Advances(before: Market, after: Market)
  {
    && (before.status == Resolved ==> after.status == Resolved && after.winner == before.winner)
    && (before.status == Refunding ==> after.status == Refunding && after.winner == before.winner)
  }

  lemma MovesAdvances(before: Market, after: Market, r: MarketRecord, f: Flow)
    requires Moves(before, after, r, f)
    ensures Advances(before, after)
  {
  }

  /** The flow of a transaction's true totals, not saturated. */
  ghost function TrueFlow(trace: Trace, id: Txid): Flow
  {
    Flow(Total(trace.inputs, id), Total(trace.inputs, No(id)), Total(trace.outputs, id), Total(trace.outputs, No(id)))
  }

  /** The sums the rule takes are the true totals, each saturated once. */
  lemma FlowSaturates(trace: Trace, id: Txid)
    ensures var t, f := TrueFlow(trace, id), FlowOf(trace, id);
            && f == Flow(Saturate(t.yesIn), Saturate(t.noIn), Saturate(t.yesOut), Saturate(t.noOut))
            && (t.yesIn <= U64_MAX && t.noIn <= U64_MAX && t.yesOut <= U64_MAX && t.noOut <= U64_MAX ==> f == t)
  {
    hide Total;
  }

  /** When outputs' totals fit 64 bits, what the rule concludes from saturated
      sums holds of the true ones: a saturated input sum can only understate. */
  lemma SettleMoves(before: Market, tx: Transaction, trace: Trace, r: MarketRecord, height: u32)
    requires r.Split? || r.Merge? || r.Redeem?
    requires Total(trace.outputs, before.id) <= U64_MAX && Total(trace.outputs, No(before.id)) <= U64_MAX
    requires CheckSettle(before, tx, trace, r, height).Ok?
    ensures CheckSettle(before, tx, trace, r, height).value.Some?
    ensures var m := CheckSettle(before, tx, trace, r, height).value.value;
            && Moves(before, m, r, TrueFlow(trace, before.id))
            && m == before.(coin := OutPoint(tx.txid, r.vout), collateral := m.collateral, status := m.status)
            && MarketCoin(tx, trace, r.vout) == Some(m.collateral)
  {
    hide Total, TrueCoin;
  }

  /** What a settling action that passes leaves: the market on its new coin, and
      refunding once an unresolved market is redeemed. */
  function Settled(before: Market, tx: Transaction, trace: Trace, r: MarketRecord): Option<Market>
    requires r.Split? || r.Merge? || r.Redeem?
  {
    var collateral :- MarketCoin(tx, trace, r.vout);
    Some(before.(coin := OutPoint(tx.txid, r.vout), collateral := collateral,
                 status := if r.Redeem? && before.status != Resolved then Refunding else before.status))
  }

  /** Splits, merges and redemptions, exactly: one passes if and only if it
      recreates a market coin, moves the collateral and the two sides, each counted
      up to 64 bits, as its kind must, and, to refund, comes after the deadline. */
  lemma SettleExact(before: Market, tx: Transaction, trace: Trace, r: MarketRecord, height: u32)
    requires r.Split? || r.Merge? || r.Redeem?
    ensures CheckSettle(before, tx, trace, r, height).Ok? <==>
              var m := Settled(before, tx, trace, r);
              && m.Some?
              && Moves(before, m.value, r, FlowOf(trace, before.id))
              && (r.Redeem? && before.status != Resolved ==> height > before.expiry + before.grace)
    ensures CheckSettle(before, tx, trace, r, height).Ok? ==>
              CheckSettle(before, tx, trace, r, height).value == Settled(before, tx, trace, r)
  {
    hide SumCarry, TrueCoin;
  }

  /** A holder is always paid: from a market with something to spare, a redemption
      that takes in some of the units outstanding, puts out none, and leaves the
      market a coin smaller by what they are worth passes. */
  lemma RedemptionPasses(before: Market, yes: nat, no: nat, spare: nat, tx: Transaction, trace: Trace, r: MarketRecord, height: u32)
    requires r.Redeem? && Solvent(before, yes, no, spare) && spare > 0
    requires var f := FlowOf(trace, before.id);
             && f.yesIn <= yes && f.noIn <= no && f.yesOut == f.noOut == 0
             && Worth(before, f.yesIn, f.noIn) > 0
             && MarketCoin(tx, trace, r.vout).Some?
             && MarketCoin(tx, trace, r.vout).value + Worth(before, f.yesIn, f.noIn) == before.collateral
    requires before.status != Resolved ==> height > before.expiry + before.grace
    ensures CheckSettle(before, tx, trace, r, height) == Ok(Settled(before, tx, trace, r))
  {
    hide FlowOf, MarketCoin;
    SettleExact(before, tx, trace, r, height);
  }

  /** At no height can a market both be answered and start refunding. */
  lemma OneWindow(before: Market, answer: Transaction, answerTrace: Trace, outcome: MarketOutcome, scripts: map<nat, Script>,
                  refund: Transaction, refundTrace: Trace, r: MarketRecord, height: u32)
    requires r.Redeem?
    requires CheckResolve(before, answer, answerTrace, outcome, height, scripts).Ok?
    ensures CheckSettle(before, refund, refundTrace, r, height).Err?
  {
    hide Total, TrueCoin, Deadline, TrueOutputsUpTo;
  }

  lemma {:induction false} TrueOutputsAre(tx: Transaction, n: nat)
    requires n <= |tx.outputs|
    ensures forall v :: v in TrueOutputsUpTo(tx, n) ==> v < n && tx.outputs[v].script == OP_TRUE
  {
    if n > 0 {
      TrueOutputsAre(tx, n - 1);
    }
  }

  /** Output `v` is the only `OP_TRUE` output among the first `n`. */
  predicate OnlyTrue(tx: Transaction, n: nat, v: nat)
    requires n <= |tx.outputs|
  {
    v < n && forall w :: 0 <= w < n ==> (tx.outputs[w].script == OP_TRUE <==> w == v)
  }

  lemma {:induction false} OnlyTrueIs(tx: Transaction, n: nat)
    requires n <= |tx.outputs|
    ensures TrueOutputsUpTo(tx, n) == [] <==> forall w :: 0 <= w < n ==> tx.outputs[w].script != OP_TRUE
    ensures |TrueOutputsUpTo(tx, n)| == 1 ==> OnlyTrue(tx, n, TrueOutputsUpTo(tx, n)[0])
    ensures forall v: nat :: OnlyTrue(tx, n, v) ==> TrueOutputsUpTo(tx, n) == [v]
  {
    if n > 0 {
      OnlyTrueIs(tx, n - 1);
      forall v: nat | OnlyTrue(tx, n, v)
        ensures TrueOutputsUpTo(tx, n) == [v]
      {
        if v < n - 1 {
          assert OnlyTrue(tx, n - 1, v);
        }
      }
    }
  }

  /** Resolving, exactly: an open market, not past its deadline, an input locked
      to its resolver, and one `OP_TRUE` output of the same value that carries
      nothing; then that output is the resolved market's coin. */
  lemma ResolveExact(before: Market, tx: Transaction, trace: Trace, outcome: MarketOutcome, height: u32, scripts: map<nat, Script>)
    ensures CheckResolve(before, tx, trace, outcome, height, scripts).Ok? <==>
              && before.status == Open && height <= before.expiry + before.grace
              && (exists k :: k in scripts && scripts[k] == [0x51, 0x20] + before.resolver)
              && (exists v: nat :: OnlyTrue(tx, |tx.outputs|, v) && tx.outputs[v].value == before.collateral && v !in trace.outputs)
    ensures forall v: nat :: CheckResolve(before, tx, trace, outcome, height, scripts).Ok? && OnlyTrue(tx, |tx.outputs|, v) ==>
              CheckResolve(before, tx, trace, outcome, height, scripts).value
              == Some(before.(coin := OutPoint(tx.txid, v), status := Resolved, winner := Some(outcome)))
  {
    hide OnlyTrue, TrueOutputsUpTo;
    OnlyTrueIs(tx, |tx.outputs|);
    var coins := TrueOutputsUpTo(tx, |tx.outputs|);
    if |coins| == 1 {
      OnlyTrueIn(tx, |tx.outputs|, coins[0]);
    }
  }

  lemma OnlyTrueIn(tx: Transaction, n: nat, v: nat)
    requires n <= |tx.outputs|
    ensures OnlyTrue(tx, n, v) ==> v < n
  {
  }

  /** Resolving keeps the coin's value and takes an input locked to the resolver. */
  lemma ResolveMoves(before: Market, tx: Transaction, trace: Trace, r: MarketRecord, height: u32, scripts: map<nat, Script>)
    requires r.Resolve? && before.collateral > 0
    requires CheckResolve(before, tx, trace, r.outcome, height, scripts).Ok?
    ensures CheckResolve(before, tx, trace, r.outcome, height, scripts).value.Some?
    ensures var m := CheckResolve(before, tx, trace, r.outcome, height, scripts).value.value;
            && Moves(before, m, r, TrueFlow(trace, before.id))
            && m.coin.txid == tx.txid
            && MarketCoin(tx, trace, m.coin.vout) == Some(m.collateral)
            && (exists k :: k in scripts && scripts[k] == [0x51, 0x20] + before.resolver)
            && height <= before.expiry + before.grace
  {
    TrueOutputsAre(tx, |tx.outputs|);
    var coins := TrueOutputsUpTo(tx, |tx.outputs|);
    assert coins[0] in coins;
  }

  /** What the rule guarantees of a transaction it passes: either it touches no
      market and spends no market coin, or it opens one on a coin of its own, or
      it recreates the one market whose coin it spends and moves it as its
      single record says. */
  lemma CheckedMarket(book: MarketBook, tx: Transaction, trace: Trace, height: u32, scripts: map<nat, Script>)
    requires Indexed(book)
    requires forall a :: Total(trace.outputs, a) <= U64_MAX
    requires CheckMarket(book, tx, trace, height, false, scripts).Ok?
    ensures var effect := CheckMarket(book, tx, trace, height, false, scripts).value;
            match effect
            case None =>
              && |tx.records.markets| == 0
              && (forall k :: 0 <= k < |tx.inputs| ==> tx.inputs[k].prev !in book.byOutpoint)
            case Some(m) =>
              && |tx.records.markets| == 1
              && m.coin.txid == tx.txid
              && MarketCoin(tx, trace, m.coin.vout) == Some(m.collateral)
              && m.collateral > 0
              && (m.winner.Some? <==> m.status == Resolved)
              && var r := tx.records.markets[0];
                 if r.OpenMarket? then
                   && m.id == tx.txid && m.status == Open && m.collateral == Deposited(tx)
                   && |tx.records.issues| == 0 && !OpensPool(tx.records)
                   && (forall k :: 0 <= k < |tx.inputs| ==> tx.inputs[k].prev !in book.byOutpoint)
                 else
                   && m.id in book.markets
                   && Named(r) == Some(m.id)
                   && book.markets[m.id].coin in Spends(tx)
                   && (forall k :: 0 <= k < |tx.inputs| && tx.inputs[k].prev in book.byOutpoint ==>
                         tx.inputs[k].prev == book.markets[m.id].coin)
                   && Moves(book.markets[m.id], m, r, TrueFlow(trace, m.id))
  {
    hide CheckOpen, CheckResolve, CheckSettle, Moves, TrueFlow, Total, SpentUpTo, MarketCoin, OpensPool;
    var spent, records := Spent(book.byOutpoint, tx), tx.records.markets;
    SpentIs(book.byOutpoint, tx, |tx.inputs|);
    if |spent| == 0 && |records| == 0 {
    } else {
      var r := records[0];
      if r.OpenMarket? {
        OpeningExact(tx, trace, r, height);
        OpenedMarket(CheckOpen(tx, trace, r, height).value.value, tx, trace, r, height);
      } else {
        var before := book.markets[spent[0]];
        assert SpendsCoinOf(book.byOutpoint, tx, |tx.inputs|, spent[0]);
        forall k | 0 <= k < |tx.inputs| && tx.inputs[k].prev in book.byOutpoint
          ensures book.byOutpoint[tx.inputs[k].prev] == spent[0]
        {
          assert book.byOutpoint[tx.inputs[k].prev] in spent;
        }
        if r.Resolve? {
          ResolveMoves(before, tx, trace, r, height, scripts);
          MovesKeep(before, CheckResolve(before, tx, trace, r.outcome, height, scripts).value.value, r, TrueFlow(trace, before.id));
          CoinPositive(tx, trace, CheckResolve(before, tx, trace, r.outcome, height, scripts).value.value.coin.vout);
        } else {
          SettleMoves(before, tx, trace, r, height);
          MovesKeep(before, CheckSettle(before, tx, trace, r, height).value.value, r, TrueFlow(trace, before.id));
          CoinPositive(tx, trace, r.vout);
        }
      }
    }
  }

  lemma CoinPositive(tx: Transaction, trace: Trace, vout: nat)
    ensures MarketCoin(tx, trace, vout).Some? ==> MarketCoin(tx, trace, vout).value > 0
  {
  }

  lemma MovesKeep(before: Market, after: Market, r: MarketRecord, f: Flow)
    requires Moves(before, after, r, f)
    requires before.winner.Some? <==> before.status == Resolved
    ensures after.winner.Some? <==> after.status == Resolved
    ensures after.id == before.id
  {
  }

  lemma OpenedMarket(m: Market, tx: Transaction, trace: Trace, r: MarketRecord, height: u32)
    requires tx.records.markets == [r] && OpensAs(m, tx, trace, r, height)
    ensures m.collateral == Deposited(tx) > 0
  {
  }

  /** A market as resolving it leaves it: open before, within its expiry and grace, an
      input locked to its resolver, and the one `OP_TRUE` output worth as much as its
      coin and carrying nothing. */
  ghost predicate ResolvesAs(m: Market, before: Market, tx: Transaction, trace: Trace, outcome: MarketOutcome, height: u32,
                             scripts: map<nat, Script>)
  {
    && m == before.(coin := OutPoint(tx.txid, m.coin.vout), status := Resolved, winner := Some(outcome))
    && before.status == Open && height <= before.expiry + before.grace
    && (exists k :: k in scripts && scripts[k] == [0x51, 0x20] + before.resolver)
    && OnlyTrue(tx, |tx.outputs|, m.coin.vout)
    && tx.outputs[m.coin.vout].value == before.collateral && m.coin.vout !in trace.outputs
  }

  /** A market as a split, merge or redemption leaves it. */
  ghost predicate SettlesAs(m: Market, before: Market, tx: Transaction, trace: Trace, r: MarketRecord, height: u32)
    requires r.Split? || r.Merge? || r.Redeem?
  {
    && Settled(before, tx, trace, r) == Some(m)
    && Moves(before, m, r, FlowOf(trace, before.id))
    && (r.Redeem? && before.status != Resolved ==> height > before.expiry + before.grace)
  }

  /** What a transaction does to a book, as the rule has it: opens a market with its one
      record, spending none; or moves the one market whose coin it spends once, with its
      one record naming that market and no question. */
  ghost predicate Touches(book: MarketBook, tx: Transaction, trace: Trace, height: u32, scripts: map<nat, Script>, m: Market)
  {
    && |tx.records.markets| == 1
    && var r := tx.records.markets[0];
       if r.OpenMarket? then SpendsNone(book.byOutpoint, tx) && OpensAs(m, tx, trace, r, height)
       else
         && |tx.records.questions| == 0
         && SpendsOne(book.byOutpoint, tx, r.market) && r.market in book.markets
         && if r.Resolve? then ResolvesAs(m, book.markets[r.market], tx, trace, r.outcome, height, scripts)
            else SettlesAs(m, book.markets[r.market], tx, trace, r, height)
  }

  lemma ResolveMarketExact(before: Market, tx: Transaction, trace: Trace, outcome: MarketOutcome, height: u32, scripts: map<nat, Script>)
    ensures forall m :: CheckResolve(before, tx, trace, outcome, height, scripts) == Ok(Some(m))
                        <==> ResolvesAs(m, before, tx, trace, outcome, height, scripts)
    ensures CheckResolve(before, tx, trace, outcome, height, scripts).Ok? ==>
              CheckResolve(before, tx, trace, outcome, height, scripts).value.Some?
  {
    hide CheckResolve, OnlyTrue;
    ResolveExact(before, tx, trace, outcome, height, scripts);
    forall v: nat | OnlyTrue(tx, |tx.outputs|, v)
      ensures v < |tx.outputs| && forall w: nat :: OnlyTrue(tx, |tx.outputs|, w) ==> w == v
    {
      OnlyOne(tx, v);
    }
  }

  lemma OnlyOne(tx: Transaction, v: nat)
    requires OnlyTrue(tx, |tx.outputs|, v)
    ensures v < |tx.outputs| && forall w: nat :: OnlyTrue(tx, |tx.outputs|, w) ==> w == v
  {
    assert tx.outputs[v].script == OP_TRUE;
    forall w: nat | OnlyTrue(tx, |tx.outputs|, w)
      ensures w == v
    {
      assert tx.outputs[w].script == OP_TRUE;
    }
  }

  /** The market rule, exactly. */
  lemma RuleExact(book: MarketBook, tx: Transaction, trace: Trace, height: u32, scripts: map<nat, Script>)
    ensures CheckMarket(book, tx, trace, height, false, scripts) == Ok(None)
            <==> |tx.records.markets| == 0 && |tx.records.questions| == 0 && SpendsNone(book.byOutpoint, tx)
    ensures forall m :: CheckMarket(book, tx, trace, height, false, scripts) == Ok(Some(m))
                        <==> Touches(book, tx, trace, height, scripts, m)
    ensures CheckMarket(book, tx, trace, height, true, scripts) == Ok(None)
            <==> |tx.records.markets| == 0 && |tx.records.questions| == 0
    ensures CheckMarket(book, tx, trace, height, true, scripts).Ok? ==> CheckMarket(book, tx, trace, height, true, scripts).value == None
  {
    hide Spent, SpendsNone, SpendsOne, CheckOpen, CheckResolve, CheckSettle, OpensAs, ResolvesAs, Settled, Moves, FlowOf;
    SpentExact(book.byOutpoint, tx);
    var spent := Spent(book.byOutpoint, tx);
    if |tx.records.markets| == 1 {
      var r := tx.records.markets[0];
      if r.OpenMarket? {
        OpeningExact(tx, trace, r, height);
      } else if |spent| == 1 && spent[0] in book.markets {
        assert spent == [spent[0]];
        if r.Resolve? {
          ResolveMarketExact(book.markets[spent[0]], tx, trace, r.outcome, height, scripts);
        } else {
          SettleExact(book.markets[spent[0]], tx, trace, r, height);
        }
      }
    }
  }

  /** The markets a node holds, changed in place. */
  class MarketView {
    var markets: map<Txid, Market>
    var byOutpoint: map<OutPoint, Txid>

    ghost function Book(): MarketBook
      reads this
    {
      MarketBook(markets, byOutpoint)
    }

    constructor ()
      ensures Book() == MarketBook(map[], map[])
    {
      markets, byOutpoint := map[], map[];
    }

    /** An independent copy, for a candidate. */
    constructor Clone(v: MarketView)
      ensures Book() == v.Book()
    {
      markets, byOutpoint := v.markets, v.byOutpoint;
    }

    constructor Of(book: MarketBook)
      ensures Book() == book
    {
      markets, byOutpoint := book.markets, book.byOutpoint;
    }

    /** Insert a market's new state, forgetting the coin it had. */
    method Apply(m: Market)
      modifies this
      ensures Book() == ApplyMarket(old(Book()), m)
    {
      if m.id in markets {
        byOutpoint := byOutpoint - {markets[m.id].coin};
      }
      markets := markets[m.id := m];
      byOutpoint := byOutpoint[m.coin := m.id];
    }

    /** Judge one transaction against the markets as they stand. */
    method Check(tx: Transaction, trace: Trace, height: u32, coinbase: bool, scripts: map<nat, Script>)
      returns (r: Result<Option<Market>, MarketError>)
      ensures r == CheckMarket(Book(), tx, trace, height, coinbase, scripts)
    {
      hide CheckOpen, CheckResolve, CheckSettle, SpentUpTo;
      var cls := tx.records;
      if coinbase {
        return if |cls.markets| == 0 && |cls.questions| == 0 then Ok(None) else Err(CoinbaseRecords);
      }
      var spent := SpentBy(byOutpoint, tx);
      if |spent| > 1 { return Err(TwoSpent); }
      if |cls.markets| > 1 { return Err(TwoRecords); }
      if |spent| == 0 && |cls.markets| == 0 {
        return if |cls.questions| == 0 then Ok(None) else Err(StrayQuestion);
      }
      if |cls.markets| == 0 { return Err(NotRecreated); }
      var record := cls.markets[0];
      if record.OpenMarket? {
        return if |spent| > 0 then Err(OpensAndSpends) else CheckOpen(tx, trace, record, height);
      }
      if |spent| == 0 { return Err(NotSpent); }
      if Named(record) != Some(spent[0]) { return Err(OtherMarket); }
      if |cls.questions| > 0 { return Err(StrayQuestion); }
      if spent[0] !in markets { return Err(UnknownMarket); }
      var before := markets[spent[0]];
      if record.Resolve? {
        return CheckResolve(before, tx, trace, record.outcome, height, scripts);
      }
      r := Settle(before, tx, trace, record, height);
    }
  }

  method Settle(before: Market, tx: Transaction, trace: Trace, r: MarketRecord, height: u32)
    returns (effect: Result<Option<Market>, MarketError>)
    requires r.Split? || r.Merge? || r.Redeem?
    ensures effect == CheckSettle(before, tx, trace, r, height)
  {
    hide SettleSplit, SettleMerge, SettleRedeem, SumCarry, MarketCoin;
    var collateral := MarketCoin(tx, trace, r.vout);
    if collateral.None? { return Err(NotAMarketCoin); }
    var coin, no := OutPoint(tx.txid, r.vout), No(before.id);
    var yesIn := SumCarries(trace.inputs, before.id);
    var noIn := SumCarries(trace.inputs, no);
    var yesOut := SumCarries(trace.outputs, before.id);
    var noOut := SumCarries(trace.outputs, no);
    var f := Flow(yesIn, noIn, yesOut, noOut);
    match r
    case Split(_, _) => effect := SettleSplit(before, coin, collateral.value, f);
    case Merge(_, _) => effect := SettleMerge(before, coin, collateral.value, f);
    case Redeem(_, _) => effect := SettleRedeem(before, coin, collateral.value, f, height);
  }
}
