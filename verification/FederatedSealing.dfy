/** Sealing a block with a federation's signatures and judging the result
    (sidestr-core/src/block.rs, sidestr-core/src/federation.rs): what the signers
    signed is what the sealed block is judged by. */
module FederatedSealing {
  import opened Prelude
  import opened Transactions
  import opened WitnessCodec
  import opened Channel
  import opened Tapscript
  import opened ScriptPath
  import opened MultiALeaf
  import opened Federation
  import opened Sealing

  // --- the virtual transactions -----------------------------------------------------------------

  /** The output a block signature spends: value 0, paying the challenge. */
  function VirtualPrevout(challenge: Script): TxOut { TxOut(0, challenge) }

  function ToSpend(data: Hash32, challenge: Script): RawTx
  {
    RawTx(0, 0, [TxIn(NULL_OUTPOINT, [0x00, 0x20] + data, 0, [])], [VirtualPrevout(challenge)])
  }

  /** The transaction whose one input carries the solution. */
  function ToSign(hs: Hashing, data: Hash32, challenge: Script, items: Items): RawTx
  {
    var id := Txid.Hash(LittleEndian(hs.txid(ToSpend(data, challenge))));
    RawTx(0, 0, [TxIn(OutPoint(id, 0), [], 0, items)], [TxOut(0, [0x6a])])
  }

  // --- what is signed names the block ----------------------------------------------------------

  /** A transaction without its witnesses: what its id is computed over. */
  function Unwitnessed(tx: RawTx): RawTx
  {
    tx.(inputs := seq(|tx.inputs|, i requires 0 <= i < |tx.inputs| => tx.inputs[i].(stack := [])))
  }

  /** Two different contents with one hash: for each hash, the very pair. */
  predicate TxidCollision(hs: Hashing, a: RawTx, b: RawTx) { hs.txid(a) == hs.txid(b) && Unwitnessed(a) != Unwitnessed(b) }

  predicate HashCollision(hs: Hashing, a: seq<byte>, b: seq<byte>) { hs.sha256(a) == hs.sha256(b) && a != b }

  predicate RootCollision(hs: Hashing, a: seq<Hash32>, b: seq<Hash32>) { hs.merkle(a) == hs.merkle(b) && a != b }

  /** The outpoint the signature spends names the block data and the challenge, unless
      the two transactions that hold them collide. */
  lemma SpentNames(hs: Hashing, data: Hash32, challenge: Script, items: Items, data2: Hash32, challenge2: Script, items2: Items)
    requires ToSign(hs, data, challenge, items).inputs[0].prev == ToSign(hs, data2, challenge2, items2).inputs[0].prev
    requires !TxidCollision(hs, ToSpend(data, challenge), ToSpend(data2, challenge2))
    ensures data == data2 && challenge == challenge2
  {
    var a, b := ToSpend(data, challenge), ToSpend(data2, challenge2);
    LittleEndianNames(hs.txid(a), hs.txid(b));
    assert Unwitnessed(a).inputs[0].scriptSig == Unwitnessed(b).inputs[0].scriptSig;
    assert a.inputs[0].scriptSig[2..] == data && b.inputs[0].scriptSig[2..] == data2;
    assert Unwitnessed(a).outputs == Unwitnessed(b).outputs;
    assert a.outputs[0] == b.outputs[0];
  }

  /** What a block's header and transactions are to the signers: the version, the
      previous hash, the time, and the transactions, their witnesses and the solution
      aside. */
  predicate SignsAlike(b: Block, b2: Block)
  {
    && b.header.version == b2.header.version && b.header.prev == b2.header.prev && b.header.time == b2.header.time
    && |b.txs| == |b2.txs|
    && forall i :: 0 <= i < |b.txs| ==> Unwitnessed(Stripped(b.txs)[i]) == Unwitnessed(Stripped(b2.txs)[i])
  }

  /** None of the hashes that lead from a block to what is signed collides on these two. */
  predicate Apart(hs: Hashing, b: Block, b2: Block)
    requires |b.txs| > 0 && |b2.txs| > 0
  {
    && !HashCollision(hs, SignedPrefix(b.header.(root := MerkleRoot(hs, Stripped(b.txs)))),
                      SignedPrefix(b2.header.(root := MerkleRoot(hs, Stripped(b2.txs)))))
    && !RootCollision(hs, Txids(hs, Stripped(b.txs)), Txids(hs, Stripped(b2.txs)))
    && forall i :: 0 <= i < |b.txs| && i < |b2.txs| ==> !TxidCollision(hs, Stripped(b.txs)[i], Stripped(b2.txs)[i])
  }

  lemma StrippedLength(txs: seq<RawTx>)
    ensures |Stripped(txs)| == |txs|
  {
    hide CommitmentOf;
  }

  /** Equal block data is the same block to the signers. */
  lemma DataNames(hs: Hashing, b: Block, b2: Block)
    requires |b.txs| > 0 && |b2.txs| > 0 && BlockData(hs, b) == BlockData(hs, b2) && Apart(hs, b, b2)
    ensures SignsAlike(b, b2)
  {
    hide Stripped, Unwitnessed, FourBytes, MerkleRoot;
    StrippedLength(b.txs);
    StrippedLength(b2.txs);
    var h, h2 := b.header.(root := MerkleRoot(hs, Stripped(b.txs))), b2.header.(root := MerkleRoot(hs, Stripped(b2.txs)));
    PrefixNames(h, h2);
    SameRoot(hs, b, b2);
  }

  /** The signed prefix names the four header fields it holds. */
  lemma PrefixNames(h: Header, h2: Header)
    requires SignedPrefix(h) == SignedPrefix(h2)
    ensures h.version == h2.version && h.prev == h2.prev && h.root == h2.root && h.time == h2.time
  {
    hide FourBytes;
    FourLong(h.version);
    FourLong(h2.version);
    SplitAt(FourBytes(h.version) + h.prev + h.root, FourBytes(h2.version) + h2.prev + h2.root, FourBytes(h.time), FourBytes(h2.time));
    SplitAt(FourBytes(h.version) + h.prev, FourBytes(h2.version) + h2.prev, h.root, h2.root);
    SplitAt(FourBytes(h.version), FourBytes(h2.version), h.prev, h2.prev);
    FourBytesDistinct(h.version, h2.version);
    FourBytesDistinct(h.time, h2.time);
  }

  lemma FourLong(n: u32)
    ensures |FourBytes(n)| == 4
  {
  }

  lemma SameRoot(hs: Hashing, b: Block, b2: Block)
    requires |b.txs| > 0 && |b2.txs| > 0 && Apart(hs, b, b2)
    requires MerkleRoot(hs, Stripped(b.txs)) == MerkleRoot(hs, Stripped(b2.txs))
    ensures |b.txs| == |b2.txs|
    ensures |Stripped(b.txs)| == |b.txs| && |Stripped(b2.txs)| == |b2.txs|
    ensures forall i :: 0 <= i < |b.txs| ==> Unwitnessed(Stripped(b.txs)[i]) == Unwitnessed(Stripped(b2.txs)[i])
  {
    hide Stripped, Unwitnessed, SignedPrefix;
    StrippedLength(b.txs);
    StrippedLength(b2.txs);
    var ids, ids2 := Txids(hs, Stripped(b.txs)), Txids(hs, Stripped(b2.txs));
    assert ids == ids2;
    forall i | 0 <= i < |b.txs|
      ensures Unwitnessed(Stripped(b.txs)[i]) == Unwitnessed(Stripped(b2.txs)[i])
    {
      assert ids[i] == ids2[i];
    }
  }

  /** What a block's signature spends is spent by no other block's: only by one that is
      the same to the signers, under the same challenge. */
  lemma SpentByOneBlock(hs: Hashing, b: Block, challenge: Script, items: Items, b2: Block, challenge2: Script, items2: Items)
    requires |b.txs| > 0 && |b2.txs| > 0
    requires ToSign(hs, BlockData(hs, b), challenge, items).inputs[0].prev == ToSign(hs, BlockData(hs, b2), challenge2, items2).inputs[0].prev
    requires !TxidCollision(hs, ToSpend(BlockData(hs, b), challenge), ToSpend(BlockData(hs, b2), challenge2)) && Apart(hs, b, b2)
    ensures SignsAlike(b, b2) && challenge == challenge2
  {
    hide BlockData, TxidCollision, Apart, SignsAlike, ToSpend;
    SpentNames(hs, BlockData(hs, b), challenge, items, BlockData(hs, b2), challenge2, items2);
    DataNames(hs, b, b2);
  }

  function Challenge(fed: Federation): Script { [0x51, 0x20] + fed.outputKey }

  /** What a signer of the federation's leaf signs, for block data `data`. */
  function LeafSigning(hs: Hashing, data: Hash32, fed: Federation, items: Items): Signing
  {
    Signing(ToSign(hs, data, Challenge(fed), items), 0, [VirtualPrevout(Challenge(fed))], None, fed.script)
  }

  /** A signature message never depends on the witness it will sit in. */
  ghost predicate WitnessBlind(c: Crypto)
  {
    forall s: Signing, inputs: seq<TxIn>, hashType: byte ::
      |inputs| == |s.tx.inputs|
      && (forall i :: 0 <= i < |inputs| ==> inputs[i].(stack := []) == s.tx.inputs[i].(stack := []))
      ==> c.digest(s.(tx := s.tx.(inputs := inputs)), hashType) == c.digest(s, hashType)
  }

  /** `sig` is `key`'s partial signature over the block: 64 bytes, over the block
      with no witness in place. */
  predicate ValidPartial(hs: Hashing, c: Crypto, b: Block, fed: Federation, key: Key, sig: seq<byte>)
    requires |b.txs| > 0
  {
    && |sig| == 64
    && JudgeSignature(c, LeafSigning(hs, BlockData(hs, b), fed, []), sig, key).Verified?
  }

  // --- judging a block's solution ------------------------------------------------------------------

  datatype BlockSolution = KeyPath | ScriptSolution(spend: MultiASpend)

  datatype SolutionError = NoSolution | KeyPathRefused | ScriptPathRefused(error: Refusal)

  type KeyPathCheck = (RawTx, TxOut) -> bool

  /** One item, an annex aside: a key-path signature. */
  predicate OneItem(items: Items)
  {
    |items| - (if HasAnnex(items) then 1 else 0) <= 1
  }

  /** The block's solution satisfies the challenge for its block data. */
  ghost predicate Solved(hs: Hashing, c: Crypto, keyPath: KeyPathCheck, b: Block, challenge: Script)
  {
    && SolutionOf(b.txs).Some?
    && |b.txs| > 0
    && var items := SolutionOf(b.txs).value.items;
       var tx := ToSign(hs, BlockData(hs, b), challenge, items);
       if OneItem(items) then keyPath(tx, VirtualPrevout(challenge))
       else FederatedSpend(c, tx, 0, [VirtualPrevout(challenge)])
  }

  method VerifyBlockSolution(hs: Hashing, c: Crypto, keyPath: KeyPathCheck, b: Block, challenge: Script)
    returns (r: Result<BlockSolution, SolutionError>)
    ensures r.Ok? <==> Solved(hs, c, keyPath, b, challenge)
    ensures r.Ok? && r.value.ScriptSolution? ==>
              && !OneItem(SolutionOf(b.txs).value.items)
              && var tx := ToSign(hs, BlockData(hs, b), challenge, SolutionOf(b.txs).value.items);
                 var items := ScriptItems(tx, 0);
                 && |items| == |r.value.spend.signed|
                 && (forall i :: 0 <= i < |items| ==> (r.value.spend.signed[i] <==> |Slot(items, i)| > 0))
                 && Filled(items, |items|) == r.value.spend.threshold
    ensures r != Err(ScriptPathRefused(Budget))
  {
    hide FederatedSpend, BlockData;
    var solution := SolutionOf(b.txs);
    if solution.None? { return Err(NoSolution); }
    var items := solution.value.items;
    var data := BlockData(hs, b);
    var tx := ToSign(hs, data, challenge, items);
    var hasAnnex := |items| >= 2 && |items[|items| - 1]| > 0 && items[|items| - 1][0] == 0x50;
    if |items| - (if hasAnnex then 1 else 0) <= 1 {
      return if keyPath(tx, VirtualPrevout(challenge)) then Ok(KeyPath) else Err(KeyPathRefused);
    }
    var v := VerifyMultiAInput(c, tx, 0, [VirtualPrevout(challenge)]);
    return if v.Ok? then Ok(ScriptSolution(v.value)) else Err(ScriptPathRefused(v.error));
  }

  // --- k valid signatures seal a block -----------------------------------------------------------------

  lemma PartialSurvives(hs: Hashing, c: Crypto, data: Hash32, fed: Federation, items: Items, key: Key, sig: seq<byte>)
    requires WitnessBlind(c)
    ensures JudgeSignature(c, LeafSigning(hs, data, fed, items), sig, key)
            == JudgeSignature(c, LeafSigning(hs, data, fed, []), sig, key)
  {
    var bare := LeafSigning(hs, data, fed, []);
    var inputs := LeafSigning(hs, data, fed, items).tx.inputs;
    assert LeafSigning(hs, data, fed, items) == bare.(tx := bare.tx.(inputs := inputs));
    if Encoding(sig).Some? {
      assert c.digest(bare.(tx := bare.tx.(inputs := inputs)), Encoding(sig).value.1) == c.digest(bare, Encoding(sig).value.1);
    }
  }

  /** How the assembled witness splits: no annex, the control block, the leaf. */
  lemma AssembledSplits(fed: Federation, sigs: Signatures)
    requires Assembled(fed, sigs).Some?
    requires |fed.control| > 0 && fed.control[0] != 0x50
    ensures var items := Assembled(fed, sigs).value;
            && !HasAnnex(items) && Unannexed(items) == items && |items| == |fed.signers| + 2
            && items[|items| - 1] == fed.control && items[|items| - 2] == fed.script
            && items[..|items| - 2] == items[..|fed.signers|]
  {
    hide Have;
    var items := Assembled(fed, sigs).value;
    assert items[|items| - 1] == fed.control;
  }

  ghost predicate AllPartialsValid(hs: Hashing, c: Crypto, b: Block, fed: Federation, sigs: Signatures)
    requires |b.txs| > 0
  {
    forall i :: 0 <= i < |fed.signers| && fed.signers[i] in sigs ==>
      ValidPartial(hs, c, b, fed, fed.signers[i], sigs[fed.signers[i]])
  }

  /** Every slot of the assembled witness checks out against its signer. */
  lemma AssembledVerifies(hs: Hashing, c: Crypto, b: Block, fed: Federation, sigs: Signatures, items: Items)
    requires |b.txs| > 0 && WitnessBlind(c) && Distinct(fed.signers)
    requires Assembled(fed, sigs) == Some(items) && AllPartialsValid(hs, c, b, fed, sigs)
    ensures |items| == |fed.signers| + 2
    ensures SlotsVerified(c, LeafSigning(hs, BlockData(hs, b), fed, items), fed.signers, items[..|fed.signers|], |fed.signers|)
    ensures Filled(items[..|fed.signers|], |fed.signers|) == fed.threshold
  {
    hide Assembled, Slot, BlockData, JudgeSignature, LeafSigning, WitnessBlind;
    AssembledLength(fed, sigs);
    FilledIsRank(fed, sigs, |fed.signers|);
    forall i | 0 <= i < |fed.signers|
      ensures var raw := Slot(items[..|fed.signers|], i);
              |raw| == 0 || JudgeSignature(c, LeafSigning(hs, BlockData(hs, b), fed, items), raw, fed.signers[i]).Verified?
    {
      SlotsAre(fed, sigs, i);
      PartialSurvives(hs, c, BlockData(hs, b), fed, items, fed.signers[i], Slot(items[..|fed.signers|], i));
    }
  }

  /** The assembled witness spends the virtual output. */
  lemma AssembledSpends(hs: Hashing, c: Crypto, curve: Curve, chain: seq<byte>, fed: Federation, b: Block,
                        sigs: Signatures, items: Items)
    requires |b.txs| > 0 && WitnessBlind(c) && TweakCommits(c, curve) && Derived(c, curve, chain, fed)
    requires Assembled(fed, sigs) == Some(items) && AllPartialsValid(hs, c, b, fed, sigs)
    ensures FederatedSpend(c, ToSign(hs, BlockData(hs, b), Challenge(fed), items), 0, [VirtualPrevout(Challenge(fed))])
    ensures !OneItem(items)
  {
    hide Assembled, BlockData, MultiA, Succeeds, JudgeSignature, SlotsVerified, WitnessSize, AllPartialsValid, WitnessBlind, TweakCommits,
      ContextOf;
    TweakedKey(c, curve, chain, fed);
    AssembledSplits(fed, sigs);
    AssembledVerifies(hs, c, b, fed, sigs, items);
    var tx := ToSign(hs, BlockData(hs, b), Challenge(fed), items);
    var prevouts := [VirtualPrevout(Challenge(fed))];
    var s := LeafSigning(hs, BlockData(hs, b), fed, items);
    assert SigningOf(tx, 0, prevouts) == s;
    assert Challenge(fed)[2..] == fed.outputKey;
    WitnessCovers(items, |fed.signers|);
    SpendIsSlots(c, s, fed.signers, fed.threshold, items[..|fed.signers|], WitnessSize(items));
    VerifiedFit(c, s, fed.signers, items[..|fed.signers|]);
  }

  lemma WitnessCovers(items: Items, n: nat)
    requires n <= |items|
    ensures WitnessSize(items) >= ItemsSize(items[..n], n)
  {
    SizeOfPrefix(items, n, |items|);
  }

  lemma TweakedKey(c: Crypto, curve: Curve, chain: seq<byte>, fed: Federation)
    requires TweakCommits(c, curve) && Derived(c, curve, chain, fed)
    ensures ValidKey(c.validKey, fed.outputKey) && c.leafVersion(fed.control) == Some(TAPSCRIPT)
    ensures c.commits(fed.control, fed.outputKey, fed.script)
    ensures |fed.control| > 0 && fed.control[0] != 0x50
  {
    hide MultiA;
    assert ValidKey(c.validKey, curve.tweak(fed.internalKey, fed.script).0);
  }

  /** Completeness: when every signature held for a signer is valid for the
      unsealed block, the block sealed with the assembled witness satisfies the
      federation's challenge, with exactly the first `k` present signers' slots
      filled. A witness is assembled whenever `k` signatures are here. */
  lemma FederationSeals(hs: Hashing, c: Crypto, curve: Curve, keyPath: KeyPathCheck, chain: seq<byte>, fed: Federation,
                        b: Block, sigs: Signatures, items: Items, sealed: Block)
    requires |b.txs| > 0 && WitnessBlind(c) && TweakCommits(c, curve) && Derived(c, curve, chain, fed)
    requires AllPartialsValid(hs, c, b, fed, sigs)
    requires Assembled(fed, sigs) == Some(items) && Seals(hs, b, items, sealed)
    ensures Solved(hs, c, keyPath, sealed, Challenge(fed))
    ensures SolutionOf(sealed.txs).value.items == items && |items| == |fed.signers| + 2
    ensures forall i :: 0 <= i < |fed.signers| ==>
              (|Slot(items[..|fed.signers|], i)| > 0 <==> Chosen(fed.signers, sigs, fed.threshold, i))
  {
    hide Assembled, BlockData, TemplateId, Seals, SolutionOf, FederatedSpend, WitnessBlind, TweakCommits, AllPartialsValid, OneItem,
      MultiA, Slot, Chosen;
    AssembledLength(fed, sigs);
    SealingKeepsTheSigned(hs, b, items, sealed, ZERO_HASH, [], None);
    AssembledSpends(hs, c, curve, chain, fed, b, sigs, items);
    forall i | 0 <= i < |fed.signers|
      ensures |Slot(items[..|fed.signers|], i)| > 0 <==> Chosen(fed.signers, sigs, fed.threshold, i)
    {
      SlotsAre(fed, sigs, i);
      SignaturesFilled(hs, c, b, fed, sigs, i);
    }
  }

  lemma SignaturesFilled(hs: Hashing, c: Crypto, b: Block, fed: Federation, sigs: Signatures, i: nat)
    requires |b.txs| > 0 && AllPartialsValid(hs, c, b, fed, sigs) && i < |fed.signers|
    ensures Chosen(fed.signers, sigs, fed.threshold, i) ==> fed.signers[i] in sigs && |sigs[fed.signers[i]]| == 64
  {
    hide BlockData, JudgeSignature;
  }

  // --- only k signers can ---------------------------------------------------------------------------------

  /** An ideal commitment: the output key commits the federation's leaf alone. */
  ghost predicate OnlyCommits(c: Crypto, outputKey: Key, script: seq<byte>)
  {
    forall control, other :: c.commits(control, outputKey, other) ==> other == script
  }

  /** Soundness: when the challenge commits only the federation's leaf and its
      key path cannot be spent, a block whose solution satisfies it carries
      exactly `k` signatures, each by a different signer of the federation and
      valid over this block's data. */
  lemma OnlyTheFederationSeals(hs: Hashing, c: Crypto, keyPath: KeyPathCheck, curve: Curve, chain: seq<byte>,
                               fed: Federation, b: Block)
    requires Derived(c, curve, chain, fed) && ValidKey(c.validKey, fed.outputKey)
    requires OnlyCommits(c, fed.outputKey, fed.script)
    requires forall tx :: !keyPath(tx, VirtualPrevout(Challenge(fed)))
    requires Solved(hs, c, keyPath, b, Challenge(fed))
    ensures var tx := ToSign(hs, BlockData(hs, b), Challenge(fed), SolutionOf(b.txs).value.items);
            && |Unannexed(tx.inputs[0].stack)| >= 2
            && var s, items := SigningOf(tx, 0, [VirtualPrevout(Challenge(fed))]), ScriptItems(tx, 0);
               && s.script == fed.script
               && |items| == |fed.signers|
               && SlotsVerified(c, s, fed.signers, items, |items|)
               && Filled(items, |items|) == fed.threshold
    ensures Distinct(fed.signers)
    ensures forall b2: Block, challenge: Script, items2: Items ::
              && |b2.txs| > 0
              && ToSign(hs, BlockData(hs, b2), challenge, items2).inputs[0].prev
                 == ToSign(hs, BlockData(hs, b), Challenge(fed), SolutionOf(b.txs).value.items).inputs[0].prev
              && !TxidCollision(hs, ToSpend(BlockData(hs, b), Challenge(fed)), ToSpend(BlockData(hs, b2), challenge))
              && Apart(hs, b, b2)
              ==> SignsAlike(b, b2) && challenge == Challenge(fed)
  {
    hide BlockData, MultiA, Succeeds, ContextOf, WitnessSize, SlotsVerified, SolutionOf, OneItem;
    var tx := ToSign(hs, BlockData(hs, b), Challenge(fed), SolutionOf(b.txs).value.items);
    var prevouts := [VirtualPrevout(Challenge(fed))];
    assert !keyPath(tx, VirtualPrevout(Challenge(fed)));
    assert FederatedSpend(c, tx, 0, prevouts);
    assert Challenge(fed)[2..] == fed.outputKey;
    var stack := tx.inputs[0].stack;
    var items := ScriptItems(tx, 0);
    assert items == stack[..|items|];
    WitnessCovers(stack, |items|);
    SpendIsSlots(c, SigningOf(tx, 0, prevouts), fed.signers, fed.threshold, items, WitnessSize(stack));
    OnlyThisBlock(hs, b, Challenge(fed), SolutionOf(b.txs).value.items);
  }

  lemma OnlyThisBlock(hs: Hashing, b: Block, challenge: Script, items: Items)
    requires |b.txs| > 0
    ensures forall b2: Block, challenge2: Script, items2: Items ::
              && |b2.txs| > 0
              && ToSign(hs, BlockData(hs, b2), challenge2, items2).inputs[0].prev
                 == ToSign(hs, BlockData(hs, b), challenge, items).inputs[0].prev
              && !TxidCollision(hs, ToSpend(BlockData(hs, b), challenge), ToSpend(BlockData(hs, b2), challenge2))
              && Apart(hs, b, b2)
              ==> SignsAlike(b, b2) && challenge2 == challenge
  {
    hide BlockData, TxidCollision, Apart, SignsAlike, ToSpend;
    forall b2: Block, challenge2: Script, items2: Items |
        && |b2.txs| > 0
        && ToSign(hs, BlockData(hs, b2), challenge2, items2).inputs[0].prev
           == ToSign(hs, BlockData(hs, b), challenge, items).inputs[0].prev
        && !TxidCollision(hs, ToSpend(BlockData(hs, b), challenge), ToSpend(BlockData(hs, b2), challenge2))
        && Apart(hs, b, b2)
      ensures SignsAlike(b, b2) && challenge2 == challenge
    {
      SpentByOneBlock(hs, b, challenge, items, b2, challenge2, items2);
    }
  }

  /** Two signings with one message that spend different outpoints. */
  predicate MessageCollision(c: Crypto, s: Signing, hashType: byte, s2: Signing, hashType2: byte)
    requires s.index < |s.tx.inputs| && s2.index < |s2.tx.inputs|
  {
    && c.digest(s, hashType).Digest? && c.digest(s, hashType) == c.digest(s2, hashType2)
    && s.tx.inputs[s.index].prev != s2.tx.inputs[s2.index].prev
  }

  /** A signer's signature is for this block and no other: one message signed over two
      blocks' leaves is over the same block and challenge, unless something collides. */
  lemma SignedForOneBlock(hs: Hashing, c: Crypto, b: Block, fed: Federation, items: Items, hashType: byte,
                          b2: Block, fed2: Federation, items2: Items, hashType2: byte)
    requires |b.txs| > 0 && |b2.txs| > 0
    requires var s, s2 := LeafSigning(hs, BlockData(hs, b), fed, items), LeafSigning(hs, BlockData(hs, b2), fed2, items2);
             && c.digest(s, hashType).Digest? && c.digest(s, hashType) == c.digest(s2, hashType2)
             && !MessageCollision(c, s, hashType, s2, hashType2)
    requires !TxidCollision(hs, ToSpend(BlockData(hs, b), Challenge(fed)), ToSpend(BlockData(hs, b2), Challenge(fed2))) && Apart(hs, b, b2)
    ensures SignsAlike(b, b2) && fed.outputKey == fed2.outputKey
  {
    hide BlockData, TxidCollision, Apart, SignsAlike, ToSpend;
    SpentByOneBlock(hs, b, Challenge(fed), items, b2, Challenge(fed2), items2);
    assert Challenge(fed)[2..] == fed.outputKey && Challenge(fed2)[2..] == fed2.outputKey;
  }
}
