/** The rules a block is judged by (sidestr-core/src/rules.rs), the records a
    chain keeps, and the node that applies accepted blocks
    (sidestr-core/src/state.rs). Rules that only refuse more blocks and touch
    neither coins nor records (proof of work, merkle root, weight, signature
    operations, scripts, the witness commitment, the block signature) are not
    part of acceptance here, so every theorem over accepted runs holds of the
    runs the full rules accept. */
module Chain {
  import opened Prelude
  import opened Transactions
  import opened Markers
  import opened Ledger

  const MAX_MONEY := 2_100_000_000_000_000

  /** What a chain's document fixes: the least burn and the pegs it mints. */
  datatype Terms = Terms(pegoutMin: u64, pegs: u64)

  datatype Burn = Burn(script: seq<byte>, value: u64, height: u32)

  /** Parent outputs claimed, by the height that claimed them; burns, by their output. */
  datatype Records = Records(claims: map<ParentPoint, u32>, pegouts: map<OutPoint, Burn>)

  datatype Block = Block(txs: seq<Transaction>, mtp: Option<u32>)

  datatype State = State(coins: Utxo, records: Records, tip: nat)

  // --- the transaction and block phases ---------------------------------------------

  predicate ValidTx(tx: Transaction, coinbase: bool)
  {
    && |tx.inputs| > 0
    && |tx.outputs| > 0
    && OutTotal(tx.outputs, |tx.outputs|) <= MAX_MONEY
    && UniqueInputs(tx)
    && (if coinbase then IsCoinbase(tx) && 2 <= |tx.inputs[0].scriptSig| <= 100
        else forall i :: 0 <= i < |tx.inputs| ==> tx.inputs[i].prev.txid != NULL_TXID)
  }

  predicate ValidStructure(txs: seq<Transaction>)
  {
    && |txs| > 0
    && (forall i :: 0 <= i < |txs| ==> (IsCoinbase(txs[i]) <==> i == 0))
    && (forall i, j :: 0 <= i < j < |txs| ==> txs[i].txid != txs[j].txid)
    && (forall i :: 0 <= i < |txs| ==> ValidTx(txs[i], i == 0))
  }

  // --- the block-context phase --------------------------------------------------------

  /** The height a coinbase pushes, read without a minimality check. */
  function Bip34Height(coinbase: Transaction): Option<u32>
  {
    if |coinbase.inputs| == 0 || |coinbase.inputs[0].scriptSig| == 0 then None
    else
      var script := coinbase.inputs[0].scriptSig;
      var op := script[0];
      if 0x51 <= op <= 0x60 then Some(op - 0x50)
      else if !(1 <= op <= 5) || |script| < 1 + op then None
      else
        var n := LittleEndian(script[1..1 + op]);
        if n <= U32_MAX then Some(n) else None
  }

  predicate AllFinal(tx: Transaction)
  {
    forall i :: 0 <= i < |tx.inputs| ==> tx.inputs[i].sequence == 0xffff_ffff
  }

  /** Whether `nLockTime` admits the transaction at this height. */
  function Finality(tx: Transaction, height: u32, mtp: Option<u32>): LockVerdict
  {
    if tx.lockTime == 0 || AllFinal(tx) then LockPasses
    else if tx.lockTime < LOCKTIME_THRESHOLD then
      if tx.lockTime >= height then LockViolated else LockPasses
    else if mtp.None? then LockUnknown
    else if tx.lockTime >= mtp.value then LockViolated
    else LockPasses
  }

  /** A transaction's burns among its first `n` outputs. */
  function BurnsUpTo(tx: Transaction, n: nat, height: u32): map<OutPoint, Burn>
    requires n <= |tx.outputs|
  {
    if n == 0 then map[]
    else
      var before := BurnsUpTo(tx, n - 1, height);
      var o := tx.outputs[n - 1];
      var script := ParsePegout(o.script);
      if script.None? then before
      else before[OutPoint(tx.txid, n - 1) := Burn(script.value, o.value, height)]
  }

  /** The burns of the first `n` transactions, the coinbase's left out. */
  function BlockBurns(txs: seq<Transaction>, n: nat, height: u32): map<OutPoint, Burn>
    requires n <= |txs|
  {
    if n <= 1 then map[]
    else BlockBurns(txs, n - 1, height) + BurnsUpTo(txs[n - 1], |txs[n - 1].outputs|, height)
  }

  predicate BurnOk(terms: Terms, records: Records, tx: Transaction, v: nat, height: u32)
    requires v < |tx.outputs|
  {
    LooksLikePegout(tx.outputs[v].script) ==>
      && ParsePegout(tx.outputs[v].script).Some?
      && tx.outputs[v].value >= terms.pegoutMin
      && (OutPoint(tx.txid, v) in records.pegouts ==> records.pegouts[OutPoint(tx.txid, v)].height == height)
  }

  predicate PegoutsOk(terms: Terms, records: Records, txs: seq<Transaction>, height: u32)
    requires |txs| > 0
  {
    && (forall v :: 0 <= v < |txs[0].outputs| ==> ParsePegout(txs[0].outputs[v].script).None?)
    && (forall i :: 0 < i < |txs| ==> forall v :: 0 <= v < |txs[i].outputs| ==> BurnOk(terms, records, txs[i], v, height))
  }

  predicate DistinctParents(claims: seq<Claim>)
  {
    forall i, j :: 0 <= i < j < |claims| ==> claims[i].parent != claims[j].parent
  }

  predicate ClaimsOk(records: Records, coinbase: Transaction, height: u32)
  {
    && StrayMarkers(coinbase) == []
    && DistinctParents(Claims(coinbase))
    && (forall c :: c in Claims(coinbase) && c.parent in records.claims ==> records.claims[c.parent] == height)
  }

  /** The coinbase pays at most the subsidy, the fees and its claims. */
  predicate CoinbaseAmountOk(coinbase: Transaction, subsidy: u64, fees: u64)
  {
    && StrayMarkers(coinbase) == []
    && PaidOut(Claims(coinbase)) <= U64_MAX
    && SumOut(coinbase).Some?
    && SumOut(coinbase).value <= Saturate(Saturate(subsidy + fees) + PaidOut(Claims(coinbase)))
  }

  /** Every modelled block-context rule, at a height after the genesis. */
  predicate ContextOk(terms: Terms, s: State, b: Block, height: u32)
    requires |b.txs| > 0
  {
    var spending := Resolution(s.coins, b.txs, height);
    && Bip34Height(b.txs[0]) == Some(height)
    && (forall i :: 0 <= i < |b.txs| ==> !Finality(b.txs[i], height, b.mtp).LockViolated?)
    && spending.lockViolations == []
    && spending.missing == []
    && spending.premature == []
    && spending.deficits == []
    && CoinbaseAmountOk(b.txs[0], 0, spending.fees)
    && PegoutsOk(terms, s.records, b.txs, height)
    && ClaimsOk(s.records, b.txs[0], height)
  }

  /** Whether a block extends the chain: the next height, and every rule. */
  predicate Accepts(terms: Terms, s: State, b: Block)
  {
    && s.tip + 1 <= U32_MAX
    && ValidStructure(b.txs)
    && ContextOk(terms, s, b, s.tip + 1)
  }

  /** The parent outputs a list of claims records, at this height. */
  function ClaimKeys(claims: seq<Claim>, height: u32): map<ParentPoint, u32>
  {
    if |claims| == 0 then map[]
    else ClaimKeys(claims[..|claims| - 1], height)[claims[|claims| - 1].parent := height]
  }

  lemma {:induction false} ClaimKeysAre(claims: seq<Claim>, height: u32)
    ensures forall p :: p in ClaimKeys(claims, height) <==> exists i :: 0 <= i < |claims| && claims[i].parent == p
    ensures forall p :: p in ClaimKeys(claims, height) ==> ClaimKeys(claims, height)[p] == height
  {
    if |claims| > 0 {
      ClaimKeysAre(claims[..|claims| - 1], height);
    }
  }

  /** The state an accepted block leaves. */
  function Extend(s: State, b: Block): State
    requires |b.txs| > 0 && s.tip + 1 <= U32_MAX
  {
    var h := s.tip + 1;
    State(ApplyTxs(s.coins, b.txs, |b.txs|, h),
          Records(s.records.claims + ClaimKeys(Claims(b.txs[0]), h),
                  s.records.pegouts + BlockBurns(b.txs, |b.txs|, h)),
          h)
  }

  // --- the judges, as the node runs them --------------------------------------------

  /** Three-valued: failed, skipped for want of context, or passed. */
  method JudgeFinality(txs: seq<Transaction>, height: u32, mtp: Option<u32>) returns (r: Option<bool>)
    ensures r == Some(false) <==> exists i :: 0 <= i < |txs| && Finality(txs[i], height, mtp).LockViolated?
    ensures r == None <==> (forall i :: 0 <= i < |txs| ==> !Finality(txs[i], height, mtp).LockViolated?)
                           && exists i :: 0 <= i < |txs| && Finality(txs[i], height, mtp).LockUnknown?
  {
    var unknown, finalOk := false, true;
    for n := 0 to |txs|
      invariant finalOk <==> forall i :: 0 <= i < n ==> !Finality(txs[i], height, mtp).LockViolated?
      invariant unknown <==> exists i :: 0 <= i < n && Finality(txs[i], height, mtp).LockUnknown?
    {
      var lt := txs[n].lockTime;
      if lt == 0 || AllFinal(txs[n]) { continue; }
      if lt < LOCKTIME_THRESHOLD {
        if lt >= height { finalOk := false; }
      } else if mtp.Some? {
        if lt >= mtp.value { finalOk := false; }
      } else {
        unknown := true;
      }
    }
    r := if !finalOk then Some(false) else if unknown then None else Some(true);
  }

  /** One transaction's burns: refuse a burn-shaped output that is not a burn, a
      small one, and one another height recorded. */
  method JudgeBurns(terms: Terms, records: Records, tx: Transaction, height: u32)
    returns (ok: bool, burns: map<OutPoint, Burn>)
    ensures ok <==> forall v :: 0 <= v < |tx.outputs| ==> BurnOk(terms, records, tx, v, height)
    ensures ok ==> burns == BurnsUpTo(tx, |tx.outputs|, height)
  {
    hide LooksLikePegout, ParsePegout;
    burns := map[];
    for v := 0 to |tx.outputs|
      invariant forall j :: 0 <= j < v ==> BurnOk(terms, records, tx, j, height)
      invariant burns == BurnsUpTo(tx, v, height)
    {
      var o := tx.outputs[v];
      MarkersAreOpReturns(o.script);
      if !LooksLikePegout(o.script) { continue; }
      var script := ParsePegout(o.script);
      var key := OutPoint(tx.txid, v);
      if script.None? || o.value < terms.pegoutMin || (key in records.pegouts && records.pegouts[key].height != height) {
        assert !BurnOk(terms, records, tx, v, height);
        return false, burns;
      }
      burns := burns[key := Burn(script.value, o.value, height)];
    }
    ok := true;
  }

  method JudgePegouts(terms: Terms, records: Records, txs: seq<Transaction>, height: u32)
    returns (ok: bool, burns: map<OutPoint, Burn>)
    requires |txs| > 0
    ensures ok <==> PegoutsOk(terms, records, txs, height)
    ensures ok ==> burns == BlockBurns(txs, |txs|, height)
  {
    hide BurnOk;
    burns := map[];
    if v :| 0 <= v < |txs[0].outputs| && ParsePegout(txs[0].outputs[v].script).Some? {
      return false, burns;
    }
    for i := 1 to |txs|
      invariant forall k :: 0 < k < i ==> forall v :: 0 <= v < |txs[k].outputs| ==> BurnOk(terms, records, txs[k], v, height)
      invariant burns == BlockBurns(txs, i, height)
    {
      var good, more := JudgeBurns(terms, records, txs[i], height);
      if !good { return false, burns; }
      burns := burns + more;
    }
    ok := true;
  }

  /** Refuse a parent output claimed twice in the block, or by another height. */
  method CollectClaims(records: Records, claims: seq<Claim>, height: u32)
    returns (ok: bool, claimed: map<ParentPoint, u32>)
    ensures ok <==> DistinctParents(claims)
                    && forall c :: c in claims && c.parent in records.claims ==> records.claims[c.parent] == height
    ensures ok ==> claimed == ClaimKeys(claims, height)
  {
    claimed := map[];
    for n := 0 to |claims|
      invariant DistinctParents(claims[..n])
      invariant forall i :: 0 <= i < n && claims[i].parent in records.claims ==> records.claims[claims[i].parent] == height
      invariant claimed == ClaimKeys(claims[..n], height)
    {
      var p := claims[n].parent;
      assert claims[..n + 1][..n] == claims[..n];
      ClaimKeysAre(claims[..n], height);
      if p in claimed || (p in records.claims && records.claims[p] != height) {
        assert claims[n] in claims;
        return false, claimed;
      }
      claimed := claimed[p := height];
    }
    assert claims[..|claims|] == claims;
    ok := true;
  }

  method JudgeClaims(records: Records, coinbase: Transaction, height: u32)
    returns (ok: bool, claimed: map<ParentPoint, u32>)
    ensures ok <==> ClaimsOk(records, coinbase, height)
    ensures ok ==> claimed == ClaimKeys(Claims(coinbase), height)
  {
    var claims, errors := ParseClaims(coinbase);
    if |errors| > 0 { return false, map[]; }
    ok, claimed := CollectClaims(records, claims, height);
  }

  /** A node following the chain: coins, records and the tip's height. */
  class Node {
    const terms: Terms
    var coins: CoinSet
    var records: Records
    var tip: nat

    ghost function View(): State
      reads this, coins
    {
      State(coins.coins, records, tip)
    }

    constructor (terms: Terms)
      ensures fresh(coins)
      ensures this.terms == terms
      ensures View() == State(map[], Records(map[], map[]), 0)
    {
      this.terms := terms;
      coins := new CoinSet();
      records := Records(map[], map[]);
      tip := 0;
    }

    /** Every rule, without applying anything; and the records the block would leave. */
    method Judge(b: Block) returns (ok: bool, next: Records)
      ensures ok <==> Accepts(terms, View(), b)
      ensures ok ==> next == Records(ClaimKeys(Claims(b.txs[0]), tip + 1), BlockBurns(b.txs, |b.txs|, tip + 1))
    {
      hide Resolution, CoinbaseAmountOk, PegoutsOk, ClaimsOk, ClaimKeys, BlockBurns, Bip34Height, Finality, ValidTx;
      next := Records(map[], map[]);
      if tip + 1 > U32_MAX || !ValidStructure(b.txs) { return false, next; }
      var height := tip + 1;
      var spending := ResolveSpending(coins.coins, b.txs, height);
      var finality := JudgeFinality(b.txs, height, b.mtp);
      var burnsOk, burns := JudgePegouts(terms, records, b.txs, height);
      var claimsOk, claims := JudgeClaims(records, b.txs[0], height);
      ok := && Bip34Height(b.txs[0]) == Some(height)
            && finality != Some(false)
            && spending.lockViolations == []
            && spending.missing == []
            && spending.premature == []
            && spending.deficits == []
            && CoinbaseAmountOk(b.txs[0], 0, spending.fees)
            && burnsOk
            && claimsOk;
      next := Records(claims, burns);
    }

    /** Apply a block if every rule passes; otherwise nothing changes. Records
        are committed only here. */
    method Apply(b: Block) returns (ok: bool)
      modifies this, coins
      ensures coins == old(coins)
      ensures ok <==> Accepts(terms, old(View()), b)
      ensures ok ==> View() == Extend(old(View()), b)
      ensures !ok ==> View() == old(View())
    {
      hide ContextOk, ValidStructure, ApplyTxs, ClaimKeys, BlockBurns, Claims, CreatedCount, Taken;
      var next;
      ok, next := Judge(b);
      if ok {
        var _, _ := coins.ApplyBlock(b.txs, tip + 1);
        records := Records(records.claims + next.claims, records.pegouts + next.pegouts);
        tip := tip + 1;
      }
    }
  }
}
