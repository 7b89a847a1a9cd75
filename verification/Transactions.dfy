/** Transactions and the records they carry, as the rules read them.

    A transaction id is an ideal hash: `Hash(n)` stands for the id of some
    transaction and `No(m)` for the NO-asset id derived from market `m`, so
    the two families never meet and `No` is injective. */
module Transactions {
  import opened Prelude

  datatype Txid = Hash(n: nat) | No(market: Txid)

  type Script = seq<byte>

  datatype OutPoint = OutPoint(txid: Txid, vout: nat)

  datatype TxIn = TxIn(prev: OutPoint, scriptSig: Script, sequence: u32, stack: seq<seq<byte>>)

  datatype TxOut = TxOut(value: u64, script: Script)

  /** The all-zero id and the null outpoint a coinbase spends. */
  const NULL_TXID := Hash(0)
  const NULL_OUTPOINT := OutPoint(NULL_TXID, 0xffff_ffff)

  // --- records ---------------------------------------------------------------

  datatype AssetRef = SelfTx | Id(id: Txid)

  datatype Issue = Issue(ticker: string, decimals: nat)

  datatype TallyFields = TallyFields(asset: AssetRef, assigns: seq<(nat, nat)>)

  const MAX_AMOUNT := 0x1f_ffff_ffff_ffff

  /** What the tally grammar guarantees: at least one assignment, no output
      named twice, every amount between 1 and 2^53 - 1. */
  predicate GoodAssigns(assigns: seq<(nat, nat)>)
  {
    && |assigns| > 0
    && (forall i :: 0 <= i < |assigns| ==> 1 <= assigns[i].1 <= MAX_AMOUNT)
    && (forall i, j :: 0 <= i < j < |assigns| ==> assigns[i].0 != assigns[j].0)
  }

  type Tally = t: TallyFields | GoodAssigns(t.assigns)
    witness TallyFields(SelfTx, [(0, 1)])

  datatype PoolRecord = PoolRecord(pool: AssetRef, vout: nat)

  datatype MarketOutcome = Yes | NoWins

  datatype MarketRecord =
    | OpenMarket(vout: nat, resolver: seq<byte>, expiry: u32, grace: u32)
    | Split(market: Txid, vout: nat)
    | Merge(market: Txid, vout: nat)
    | Redeem(market: Txid, vout: nat)
    | Resolve(market: Txid, outcome: MarketOutcome)

  datatype Classified = Classified(
    issues: seq<Issue>,
    tallies: seq<Tally>,
    pools: seq<PoolRecord>,
    markets: seq<MarketRecord>,
    questions: seq<string>,
    bad: seq<string>)

  /** The pieces a `tally:` list splits into: each an output and an amount, or
      text that is neither. */
  datatype Part = Assign(vout: nat, amount: nat) | Unreadable

  /** Collect a tally's assignments: refuse an unreadable piece, an amount
      outside 1..=2^53 - 1 and a repeated output. */
  method ParseAssigns(parts: seq<Part>) returns (r: Option<seq<(nat, nat)>>)
    requires |parts| > 0
    ensures r.Some? ==>
              && GoodAssigns(r.value)
              && |r.value| == |parts|
              && (forall i :: 0 <= i < |parts| ==> parts[i] == Assign(r.value[i].0, r.value[i].1))
    ensures r.None? <==>
              || (exists i :: 0 <= i < |parts| && (parts[i].Unreadable? || !(1 <= parts[i].amount <= MAX_AMOUNT)))
              || (exists i, j :: 0 <= i < j < |parts| && parts[i].Assign? && parts[j].Assign? && parts[i].vout == parts[j].vout)
  {
    var assigns: seq<(nat, nat)> := [];
    for n := 0 to |parts|
      invariant |assigns| == n
      invariant forall i :: 0 <= i < n ==> parts[i] == Assign(assigns[i].0, assigns[i].1)
      invariant forall i :: 0 <= i < n ==> 1 <= assigns[i].1 <= MAX_AMOUNT
      invariant forall i, j :: 0 <= i < j < n ==> assigns[i].0 != assigns[j].0
    {
      if parts[n].Unreadable? || !(1 <= parts[n].amount <= MAX_AMOUNT) {
        return None;
      }
      if i :| 0 <= i < |assigns| && assigns[i].0 == parts[n].vout {
        assert parts[i].Assign? && parts[i].vout == parts[n].vout;
        return None;
      }
      assigns := assigns + [(parts[n].vout, parts[n].amount)];
    }
    return Some(assigns);
  }

  // --- transactions ----------------------------------------------------------

  datatype Transaction = Transaction(
    txid: Txid,
    version: int,
    lockTime: u32,
    inputs: seq<TxIn>,
    outputs: seq<TxOut>,
    records: Classified)

  /** A transaction's contents, as signatures and ids are computed over them. */
  datatype RawTx = RawTx(version: int, lockTime: u32, inputs: seq<TxIn>, outputs: seq<TxOut>)

  function Contents(tx: Transaction): RawTx { RawTx(tx.version, tx.lockTime, tx.inputs, tx.outputs) }

  predicate IsCoinbase(tx: Transaction)
  {
    |tx.inputs| == 1 && tx.inputs[0].prev == NULL_OUTPOINT
  }

  predicate IsOpReturn(script: Script) { |script| > 0 && script[0] == 0x6a }

  /** The outpoints a transaction spends. */
  function Spends(tx: Transaction): set<OutPoint>
  {
    set i | 0 <= i < |tx.inputs| :: tx.inputs[i].prev
  }

  predicate UniqueInputs(tx: Transaction)
  {
    forall i, j :: 0 <= i < j < |tx.inputs| ==> tx.inputs[i].prev != tx.inputs[j].prev
  }

  predicate OpensPool(cls: Classified)
  {
    exists i :: 0 <= i < |cls.pools| && cls.pools[i].pool == SelfTx
  }
}
