/** A block's solution, what a signer signs, and what sealing may change
    (sidestr-core/src/block.rs). Hashes, the merkle root, the proof of work and
    the wire encoding are parameters; everything the solution push, the stripped
    coinbase and the two block identities are made of is bytes. */
module Sealing {
  import opened Prelude
  import opened Transactions
  import opened WitnessCodec

  type Hash32 = h: seq<byte> | |h| == 32 witness seq(32, _ => 0)

  /** The two header families: the first 80 bytes alike; the second also commits
      to a height, a transaction count and more. */
  datatype Header =
    | Stock(version: u32, prev: Hash32, root: Hash32, time: u32, bits: u32, nonce: u32)
    | Knots(version: u32, prev: Hash32, root: Hash32, time: u32, bits: u32, nonce: u32, txCount: nat, height: u32, tail: seq<byte>)

  datatype Block = Block(header: Header, txs: seq<RawTx>)

  datatype Hashing = Hashing(
    txid: RawTx -> Hash32,
    merkle: seq<Hash32> -> Hash32,
    sha256: seq<byte> -> Hash32,
    encode: Block -> seq<byte>,
    meetsTarget: Header -> bool)

  const SIGNET_HEADER: seq<byte> := [0xec, 0xc7, 0xda, 0xa2]
  const COMMITMENT_PREFIX: seq<byte> := [0x6a, 0x24, 0xaa, 0x21, 0xa9, 0xed]
  const COMMITMENT_LEN := 38
  const ZERO_HASH: Hash32 := seq(32, _ => 0)

  // --- the commitment output -----------------------------------------------------------------

  predicate IsCommitment(script: Script)
  {
    |script| >= COMMITMENT_LEN && script[..6] == COMMITMENT_PREFIX
  }

  /** The last of the first `n` outputs that carries a witness commitment. */
  function CommitmentIndex(outputs: seq<TxOut>, n: nat): (r: Option<nat>)
    requires n <= |outputs|
    ensures r.Some? ==> r.value < n && IsCommitment(outputs[r.value].script)
    ensures forall k :: (if r.Some? then r.value + 1 else 0) <= k < n ==> !IsCommitment(outputs[k].script)
  {
    if n == 0 then None
    else if IsCommitment(outputs[n - 1].script) then Some(n - 1)
    else CommitmentIndex(outputs, n - 1)
  }

  function CommitmentOf(txs: seq<RawTx>): (r: Option<nat>)
    ensures r.Some? ==> |txs| > 0 && r.value < |txs[0].outputs| && IsCommitment(txs[0].outputs[r.value].script)
  {
    if |txs| == 0 then None else CommitmentIndex(txs[0].outputs, |txs[0].outputs|)
  }

  /** The transactions with one of the coinbase's scripts replaced. */
  function WithScript(txs: seq<RawTx>, i: nat, script: Script): seq<RawTx>
    requires |txs| > 0 && i < |txs[0].outputs|
  {
    var cb := txs[0];
    txs[0 := cb.(outputs := cb.outputs[i := cb.outputs[i].(script := script)])]
  }

  /** Writing a commitment over the commitment leaves it the commitment. */
  lemma CommitmentStays(txs: seq<RawTx>, script: Script)
    requires CommitmentOf(txs).Some? && IsCommitment(script)
    ensures CommitmentOf(WithScript(txs, CommitmentOf(txs).value, script)) == CommitmentOf(txs)
  {
    hide IsCommitment;
    var i, outputs := CommitmentOf(txs).value, txs[0].outputs;
    var after := WithScript(txs, i, script)[0].outputs;
    var j := CommitmentIndex(after, |after|);
    assert after[i].script == script;
    assert forall k :: i < k < |after| ==> after[k] == outputs[k];
  }

  lemma ScriptOverScript(txs: seq<RawTx>, i: nat, a: Script, b: Script)
    requires |txs| > 0 && i < |txs[0].outputs|
    ensures WithScript(WithScript(txs, i, a), i, b) == WithScript(txs, i, b)
    ensures WithScript(txs, i, txs[0].outputs[i].script) == txs
  {
    var outputs := txs[0].outputs;
    assert outputs[i := outputs[i].(script := a)][i := outputs[i].(script := b)] == outputs[i := outputs[i].(script := b)];
    assert outputs[i := outputs[i].(script := outputs[i].script)] == outputs;
  }

  // --- the solution push --------------------------------------------------------------------------

  datatype Solution = Solution(items: Items, index: nat)

  /** What follows the commitment, read as one push of at least one byte. */
  function ReadPush(rest: seq<byte>): Option<seq<byte>>
  {
    if |rest| == 0 then None
    else
      var head :-
        if 1 <= rest[0] <= 75 then Some((rest[0], 1))
        else if rest[0] == 0x4c && |rest| >= 2 then Some((rest[1], 2))
        else if rest[0] == 0x4d && |rest| >= 3 then Some((Word(rest[1], rest[2], 0, 0), 3))
        else None;
      if head.0 == 0 || |rest| != head.1 + head.0 then None else Some(rest[head.1..])
  }

  /** One push in the smallest form that fits, up to 65535 bytes. */
  function WritePush(data: seq<byte>): Option<seq<byte>>
  {
    var n := |data|;
    if n <= 75 then Some([n] + data)
    else if n <= 255 then Some([0x4c, n] + data)
    else if n <= 65535 then Some([0x4d, n % 0x100, n / 0x100] + data)
    else None
  }

  /** Whether a push uses the smallest form that fits. */
  predicate SmallestForm(rest: seq<byte>)
  {
    && |rest| >= 3
    && (rest[0] == 0x4c ==> rest[1] > 75)
    && (rest[0] == 0x4d ==> Word(rest[1], rest[2], 0, 0) > 255)
  }

  lemma PushReads(data: seq<byte>)
    requires |data| > 0 && WritePush(data).Some?
    ensures ReadPush(WritePush(data).value) == Some(data)
    ensures |data| >= 2 ==> SmallestForm(WritePush(data).value)
  {
    var p := WritePush(data).value;
    if |data| <= 75 {
      assert p[1..] == data;
    } else if |data| <= 255 {
      assert p[2..] == data;
    } else {
      assert p[3..] == data;
    }
  }

  /** A push that reads was written so exactly when it has the smallest form. */
  lemma PushRewrites(rest: seq<byte>)
    requires ReadPush(rest).Some? && |ReadPush(rest).value| >= 2
    ensures WritePush(ReadPush(rest).value) == Some(rest) <==> SmallestForm(rest)
  {
    var data := ReadPush(rest).value;
    if 1 <= rest[0] <= 75 {
      assert rest == [rest[0]] + data;
    } else if rest[0] == 0x4c {
      assert rest == [0x4c, rest[1]] + data;
      if |data| <= 75 {
        assert WritePush(data).value[0] == |data|;
      }
    } else {
      WordBytes(rest[1], rest[2], 0, 0);
      assert rest == [0x4d, rest[1], rest[2]] + data;
      if |data| <= 75 {
        assert WritePush(data).value[0] == |data|;
      } else if |data| <= 255 {
        assert WritePush(data).value[0] == 0x4c;
      }
    }
  }

  /** The solution a block carries, and where. */
  function SolutionOf(txs: seq<RawTx>): Option<Solution>
  {
    var index :- CommitmentOf(txs);
    var push :- ReadPush(txs[0].outputs[index].script[COMMITMENT_LEN..]);
    if |push| < 4 || push[..4] != SIGNET_HEADER then None
    else
      var items :- Decode(push[4..]);
      Some(Solution(items, index))
  }

  /** The solution script for a commitment, or nothing when too long for a push. */
  function SolutionScript(commitment: Script, items: Items): Option<Script>
    requires |commitment| >= COMMITMENT_LEN
  {
    var push :- WritePush(SIGNET_HEADER + Encode(items));
    Some(commitment[..COMMITMENT_LEN] + push)
  }

  function WithSolution(txs: seq<RawTx>, items: Items): Option<seq<RawTx>>
  {
    var index :- CommitmentOf(txs);
    var script :- SolutionScript(txs[0].outputs[index].script, items);
    Some(WithScript(txs, index, script))
  }

  lemma {:induction false} EncodingCovers(items: Items, k: nat)
    requires k < |items|
    ensures |EncodeItems(items)| >= |items[k]|
  {
    if k > 0 {
      EncodingCovers(items[1..], k - 1);
    }
  }

  lemma ShortFits(items: Items)
    requires |Encode(items)| <= 65535
    ensures ItemsFit(items)
  {
    forall k | 0 <= k < |items|
      ensures |items[k]| <= U32_MAX
    {
      EncodingCovers(items, k);
    }
  }

  /** The witness read back from the block it was put in is that witness,
      exactly when it has at most 256 items; with more, the block reads as
      carrying no solution. */
  lemma SolutionReadBack(txs: seq<RawTx>, items: Items)
    requires WithSolution(txs, items).Some?
    ensures CommitmentOf(WithSolution(txs, items).value) == CommitmentOf(txs)
    ensures SolutionOf(WithSolution(txs, items).value) == Some(Solution(items, CommitmentOf(txs).value))
            <==> |items| <= MAX_WITNESS_ITEMS
    ensures |items| > MAX_WITNESS_ITEMS ==> SolutionOf(WithSolution(txs, items).value) == None
  {
    hide CommitmentIndex, Encode, Decode, ReadPush, WritePush, CommitmentOf;
    var index := CommitmentOf(txs).value;
    var before := txs[0].outputs[index].script;
    var data := SIGNET_HEADER + Encode(items);
    var script := SolutionScript(before, items).value;
    PushReads(data);
    assert script[COMMITMENT_LEN..] == WritePush(data).value;
    assert script[..6] == before[..6];
    CommitmentStays(txs, script);
    assert data[..4] == SIGNET_HEADER && data[4..] == Encode(items);
    PushBound(data);
    ShortFits(items);
    WitnessCodecExact(Encode(items), items);
    if |items| > MAX_WITNESS_ITEMS && Decode(Encode(items)).Some? {
      LongRefused(items);
    }
  }

  lemma PushBound(data: seq<byte>)
    requires WritePush(data).Some?
    ensures |data| <= 65535
  {
  }

  lemma LongRefused(items: Items)
    requires MAX_WITNESS_ITEMS < |items| && |Encode(items)| <= 65535
    ensures Decode(Encode(items)).None?
  {
    hide ReadCompact, CompactSize, Holds;
    var b := Encode(items);
    CountBound(items);
    HoldsAll(b);
    HoldsParts(b, 0, CompactSize(|items|), EncodeItems(items));
    CompactReads(b, 0, |items|);
  }

  lemma {:induction false} CountBound(items: Items)
    ensures |EncodeItems(items)| >= |items|
  {
    if |items| > 0 {
      CountBound(items[1..]);
    }
  }

  /** Putting a block's own solution back gives the same block exactly when its
      push has the smallest form that fits. The reader accepts longer forms too. */
  lemma SolutionReinserted(txs: seq<RawTx>)
    requires SolutionOf(txs).Some?
    ensures var index := CommitmentOf(txs).value;
            WithSolution(txs, SolutionOf(txs).value.items) == Some(txs)
            <==> SmallestForm(txs[0].outputs[index].script[COMMITMENT_LEN..])
  {
    hide CommitmentIndex, Encode, Decode, ReadPush, WritePush, CommitmentOf, SmallestForm, IsCommitment;
    var index := CommitmentOf(txs).value;
    CommitmentLong(txs);
    var script := txs[0].outputs[index].script;
    var rest := script[COMMITMENT_LEN..];
    var push := ReadPush(rest).value;
    var items := SolutionOf(txs).value.items;
    DecodedWasEncoded(push[4..]);
    assert push == SIGNET_HEADER + Encode(items);
    PushRewrites(rest);
    PushReadBound(rest);
    ScriptOverScript(txs, index, script, script);
    assert script == script[..COMMITMENT_LEN] + rest;
    if WritePush(push).Some? {
      var other := script[..COMMITMENT_LEN] + WritePush(push).value;
      assert other[COMMITMENT_LEN..] == WritePush(push).value;
      assert WithScript(txs, index, other)[0].outputs[index].script == other;
    }
  }

  lemma CommitmentLong(txs: seq<RawTx>)
    requires CommitmentOf(txs).Some?
    ensures |txs[0].outputs[CommitmentOf(txs).value].script| >= COMMITMENT_LEN
  {
  }

  lemma PushReadBound(rest: seq<byte>)
    requires ReadPush(rest).Some?
    ensures |ReadPush(rest).value| <= 65535 && WritePush(ReadPush(rest).value).Some?
  {
  }

  // --- what a signer signs, and the template's identity -------------------------------------------------

  /** The transactions with the commitment cut back to its 38 bytes. */
  function Stripped(txs: seq<RawTx>): seq<RawTx>
  {
    var index := CommitmentOf(txs);
    if index.None? then txs
    else WithScript(txs, index.value, txs[0].outputs[index.value].script[..COMMITMENT_LEN])
  }

  function Txids(hs: Hashing, txs: seq<RawTx>): seq<Hash32>
  {
    seq<Hash32>(|txs|, i requires 0 <= i < |txs| => hs.txid(txs[i]))
  }

  function MerkleRoot(hs: Hashing, txs: seq<RawTx>): Hash32 { hs.merkle(Txids(hs, txs)) }

  function FourBytes(n: u32): seq<byte>
  {
    [n % 0x100, n / 0x100 % 0x100, n / 0x100 / 0x100 % 0x100, n / 0x100 / 0x100 / 0x100]
  }

  /** The header's first 72 bytes: version, previous hash, merkle root, time. */
  function SignedPrefix(h: Header): seq<byte>
  {
    FourBytes(h.version) + h.prev + h.root + FourBytes(h.time)
  }

  function BlockData(hs: Hashing, b: Block): Hash32
    requires |b.txs| > 0
  {
    hs.sha256(SignedPrefix(b.header.(root := MerkleRoot(hs, Stripped(b.txs)))))
  }

  /** The template: the block without its solution and its nonce. */
  function TemplateOf(hs: Hashing, b: Block): Block
  {
    Block(b.header.(root := MerkleRoot(hs, Stripped(b.txs)), nonce := 0), Stripped(b.txs))
  }

  /** The height the header carries, or the coinbase's; nothing when neither says. */
  function BlockHeight(b: Block): Option<u32>
  {
    if b.header.Knots? then Some(b.header.height)
    else if |b.txs| == 0 then None
    else CoinbaseHeight(b.txs[0])
  }

  /** The height a coinbase pushes, strictly. */
  function CoinbaseHeight(coinbase: RawTx): Option<u32>
  {
    var script := if |coinbase.inputs| == 0 then [] else coinbase.inputs[0].scriptSig;
    if |script| == 0 then None
    else
      var n := script[0];
      if n == 0 then Some(0)
      else if 0x51 <= n <= 0x60 then Some(n - 0x50)
      else if n > 75 || |script| < 1 + n then None
      else if n > 1 && script[n] == 0 && script[n - 1] < 0x80 then None
      else if script[n] >= 0x80 || n > 5 then None
      else
        var h := LittleEndian(script[1..1 + n]);
        if h <= U32_MAX then Some(h) else None
  }

  /** What the template id hashes: the chain's scope, the height, the previous
      hash and the template's own hash. */
  function TemplatePreimage(tag: Hash32, chain: seq<byte>, genesis: Hash32, height: u32, prev: Hash32, body: Hash32): seq<byte>
  {
    tag + tag + CompactSize(|chain|) + chain + genesis + FourBytes(height) + prev + body
  }

  function TemplateId(hs: Hashing, b: Block, tag: Hash32, chain: seq<byte>, genesis: Option<Hash32>): Option<Hash32>
  {
    var height :- BlockHeight(b);
    Some(hs.sha256(TemplatePreimage(tag, chain, if genesis.Some? then genesis.value else ZERO_HASH, height, b.header.prev,
                                    hs.sha256(hs.encode(TemplateOf(hs, b))))))
  }

  lemma FourBytesDistinct(a: u32, b: u32)
    requires FourBytes(a) == FourBytes(b)
    ensures a == b
  {
    assert FourBytes(a)[0] == FourBytes(b)[0] && FourBytes(a)[1] == FourBytes(b)[1];
    assert FourBytes(a)[2] == FourBytes(b)[2] && FourBytes(a)[3] == FourBytes(b)[3];
  }

  lemma SplitAt<T>(a: seq<T>, b: seq<T>, x: seq<T>, y: seq<T>)
    requires a + x == b + y && |a| == |b|
    ensures a == b && x == y
  {
    assert a == (a + x)[..|a|] && x == (a + x)[|a|..];
    assert b == (b + y)[..|b|] && y == (b + y)[|b|..];
  }

  /** The preimage says all its parts: two templates with one preimage agree on
      the chain, the genesis, the height, the previous hash and the body. */
  lemma PreimageNames(tag: Hash32, chain: seq<byte>, genesis: Hash32, height: u32, prev: Hash32, body: Hash32,
                      chain2: seq<byte>, genesis2: Hash32, height2: u32, prev2: Hash32, body2: Hash32)
    requires |chain| <= U32_MAX && |chain2| <= U32_MAX
    requires TemplatePreimage(tag, chain, genesis, height, prev, body)
             == TemplatePreimage(tag, chain2, genesis2, height2, prev2, body2)
    ensures chain == chain2 && genesis == genesis2 && height == height2 && prev == prev2 && body == body2
  {
    hide CompactSize, FourBytes, ReadCompact;
    var p := TemplatePreimage(tag, chain, genesis, height, prev, body);
    PreimageParts(tag, chain, genesis, height, prev, body);
    PreimageParts(tag, chain2, genesis2, height2, prev2, body2);
    var t, t2 := chain + Fixed(genesis, height, prev, body), chain2 + Fixed(genesis2, height2, prev2, body2);
    SplitAt(tag + tag, tag + tag, CompactSize(|chain|) + t, CompactSize(|chain2|) + t2);
    var q := CompactSize(|chain|) + t;
    HoldsAll(q);
    HoldsParts(q, 0, CompactSize(|chain|), t);
    HoldsParts(q, 0, CompactSize(|chain2|), t2);
    CompactReads(q, 0, |chain|);
    CompactReads(q, 0, |chain2|);
    SplitAt(CompactSize(|chain|), CompactSize(|chain2|), t, t2);
    SplitAt(chain, chain2, Fixed(genesis, height, prev, body), Fixed(genesis2, height2, prev2, body2));
    FixedNames(genesis, height, prev, body, genesis2, height2, prev2, body2);
  }

  /** The preimage's fixed-size end. */
  function Fixed(genesis: Hash32, height: u32, prev: Hash32, body: Hash32): seq<byte>
  {
    genesis + (FourBytes(height) + (prev + body))
  }

  lemma PreimageParts(tag: Hash32, chain: seq<byte>, genesis: Hash32, height: u32, prev: Hash32, body: Hash32)
    ensures TemplatePreimage(tag, chain, genesis, height, prev, body)
            == (tag + tag) + (CompactSize(|chain|) + (chain + Fixed(genesis, height, prev, body)))
  {
    hide CompactSize, FourBytes;
  }

  lemma FixedNames(genesis: Hash32, height: u32, prev: Hash32, body: Hash32, genesis2: Hash32, height2: u32, prev2: Hash32, body2: Hash32)
    requires Fixed(genesis, height, prev, body) == Fixed(genesis2, height2, prev2, body2)
    ensures genesis == genesis2 && height == height2 && prev == prev2 && body == body2
  {
    var t, t2 := prev + body, prev2 + body2;
    SplitAt(genesis, genesis2, FourBytes(height) + t, FourBytes(height2) + t2);
    SplitAt(FourBytes(height), FourBytes(height2), t, t2);
    SplitAt(prev, prev2, body, body2);
    FourBytesDistinct(height, height2);
  }

  // --- sealing ----------------------------------------------------------------------------------------------

  /** The block with these transactions, their root, and a nonce. */
  function Ground(hs: Hashing, b: Block, txs: seq<RawTx>, nonce: u32): Block
  {
    Block(b.header.(root := MerkleRoot(hs, txs), nonce := nonce), txs)
  }

  /** `sealed` is `b` with this witness in place, some nonce, and work enough. */
  ghost predicate Seals(hs: Hashing, b: Block, items: Items, sealed: Block)
  {
    && WithSolution(b.txs, items).Some?
    && sealed == Ground(hs, b, WithSolution(b.txs, items).value, sealed.header.nonce)
    && hs.meetsTarget(sealed.header)
  }

  /** Seal a block: the solution, the merkle root, then the least nonce that
      meets the target; nothing when the witness does not fit or none does. */
  method SealBlock(hs: Hashing, b: Block, items: Items) returns (r: Option<Block>)
    ensures r.Some? ==>
              && Seals(hs, b, items, r.value)
              && forall n :: 0 <= n < r.value.header.nonce ==> !Seals(hs, b, items, Ground(hs, b, r.value.txs, n))
    ensures r.None? ==> forall sealed :: !Seals(hs, b, items, sealed)
  {
    hide WithSolution, MerkleRoot;
    var txs := WithSolution(b.txs, items);
    if txs.None? { return None; }
    var sealed := Block(b.header.(root := MerkleRoot(hs, txs.value)), txs.value);
    var nonce := 0;
    while nonce <= U32_MAX
      invariant 0 <= nonce <= U32_MAX + 1
      invariant sealed == Ground(hs, b, txs.value, sealed.header.nonce)
      invariant forall n :: 0 <= n < nonce ==> !hs.meetsTarget(Ground(hs, b, txs.value, n).header)
    {
      sealed := sealed.(header := sealed.header.(nonce := nonce));
      if hs.meetsTarget(sealed.header) { return Some(sealed); }
      nonce := nonce + 1;
    }
    return None;
  }

  /** Stripping forgets the solution. */
  lemma StrippedAlike(txs: seq<RawTx>, items: Items)
    requires WithSolution(txs, items).Some?
    ensures Stripped(WithSolution(txs, items).value) == Stripped(txs)
  {
    hide CommitmentIndex, Encode, WritePush, CommitmentOf;
    var index := CommitmentOf(txs).value;
    var script := txs[0].outputs[index].script;
    var after := SolutionScript(script, items).value;
    assert after[..COMMITMENT_LEN] == script[..COMMITMENT_LEN];
    assert after[..6] == script[..6];
    CommitmentStays(txs, after);
    ScriptOverScript(txs, index, after, script[..COMMITMENT_LEN]);
  }

  /** Sealing keeps what was signed. Whatever witness goes in and whatever nonce
      is found, the block data and the template id are those of the unsealed
      block; the sealed block's root is its own transactions'; the witness reads
      back exactly when it has at most 256 items. */
  lemma SealingKeepsTheSigned(hs: Hashing, b: Block, items: Items, sealed: Block,
                              tag: Hash32, chain: seq<byte>, genesis: Option<Hash32>)
    requires Seals(hs, b, items, sealed)
    ensures |b.txs| > 0 && |sealed.txs| == |b.txs|
    ensures BlockData(hs, sealed) == BlockData(hs, b)
    ensures TemplateId(hs, sealed, tag, chain, genesis) == TemplateId(hs, b, tag, chain, genesis)
    ensures sealed.header.root == MerkleRoot(hs, sealed.txs)
    ensures SolutionOf(sealed.txs) == Some(Solution(items, CommitmentOf(b.txs).value)) <==> |items| <= MAX_WITNESS_ITEMS
  {
    hide CommitmentOf, Stripped, SolutionOf, TemplatePreimage, SolutionScript, CoinbaseHeight, MerkleRoot;
    SolutionReadBack(b.txs, items);
    StrippedAlike(b.txs, items);
    SameHeight(b, sealed, items);
  }

  lemma SameHeight(b: Block, sealed: Block, items: Items)
    requires WithSolution(b.txs, items).Some? && sealed.txs == WithSolution(b.txs, items).value
    requires sealed.header == b.header.(root := sealed.header.root, nonce := sealed.header.nonce)
    ensures |b.txs| > 0 && |sealed.txs| == |b.txs|
    ensures BlockHeight(sealed) == BlockHeight(b)
  {
    hide CommitmentIndex, SolutionScript, LittleEndian;
  }

  /** Two witnesses for one block, or a second witness for a block already
      sealed, give one template: any two sealings of it share their block data
      and their template id. */
  lemma ResealedAlike(hs: Hashing, b: Block, items: Items, sealed: Block, more: Items, resealed: Block,
                      tag: Hash32, chain: seq<byte>, genesis: Option<Hash32>)
    requires Seals(hs, b, items, sealed)
    requires Seals(hs, b, more, resealed) || Seals(hs, sealed, more, resealed)
    ensures |resealed.txs| > 0 && |sealed.txs| > 0
    ensures BlockData(hs, resealed) == BlockData(hs, sealed)
    ensures TemplateId(hs, resealed, tag, chain, genesis) == TemplateId(hs, sealed, tag, chain, genesis)
  {
    hide BlockData, TemplateId, Seals;
    SealingKeepsTheSigned(hs, b, items, sealed, tag, chain, genesis);
    if Seals(hs, b, more, resealed) {
      SealingKeepsTheSigned(hs, b, more, resealed, tag, chain, genesis);
    } else {
      SealingKeepsTheSigned(hs, sealed, more, resealed, tag, chain, genesis);
    }
  }
}
