/** The formats the chain fixes, byte by byte: the leaves' scripts, the commitment and its
    solution, the virtual transactions of BIP 325, the signed header, and how BIP 341 and
    BIP 342 read a witness. The numbers here are those of the standards and of
    sidestr-core/src/channel.rs, federation.rs and block.rs, not the model's names. */
module Formats {
  import opened Prelude
  import opened Transactions
  import opened WitnessCodec
  import opened Channel
  import opened ScriptPath
  import opened MultiALeaf
  import opened Federation
  import opened Sealing
  import opened FederatedSealing
  import Tapscript

  // --- the leaves -----------------------------------------------------------------------------

  /** The one minimal push of a number: a small one as its opcode, another as its length and
      its bytes, least first, the last below 0x80 and none to spare. */
  predicate IsNum(p: seq<byte>, n: nat)
  {
    if n == 0 then p == [0x00]
    else if n <= 16 then p == [0x50 + n]
    else
      && 2 <= |p| <= 6 && p[0] == |p| - 1 && LittleEndian(p[1..]) == n
      && p[|p| - 1] < 0x80 && (p[|p| - 1] == 0 ==> p[|p| - 2] >= 0x80)
  }

  lemma NumBytes(n: nat)
    requires n <= U32_MAX
    ensures IsNum(PushNum(n), n)
  {
    hide MinimalBytes, LittleEndian;
    if n > 16 {
      assert n < Pow256(4) by { assert Pow256(4) == 0x1_0000_0000; }
      BytesOf(n, 4);
      TrailingZero(MinimalBytes(n));
      var b := MinimalBytes(n);
      var signed := if b[|b| - 1] >= 0x80 then b + [0] else b;
      assert PushNum(n)[1..] == signed;
    }
  }

  /** The seven channel leaves in bytes. */
  lemma LeafBytes(valid: KeyCheck, l: Leaf)
    requires WellFormed(valid, l)
    ensures match l
            case Funding(a, b) => ToScript(valid, l) == [0x20] + a + [0xac, 0x20] + b + [0xba, 0x52, 0x9c]
            case KeyOnly(k) => ToScript(valid, l) == [0x20] + k + [0xac]
            case Delayed(d, k) =>
              exists n :: IsNum(n, d) && ToScript(valid, l) == n + [0xb2, 0x75, 0x20] + k + [0xac]
            case HashLock(h, k) => ToScript(valid, l) == [0xa8, 0x20] + h + [0x88, 0x20] + k + [0xac]
            case HashLockDelayed(h, d, k) =>
              exists n :: IsNum(n, d) && ToScript(valid, l) == [0xa8, 0x20] + h + [0x88] + n + [0xb2, 0x75, 0x20] + k + [0xac]
            case Timeout(e, k) =>
              exists n :: IsNum(n, e) && ToScript(valid, l) == n + [0xb1, 0x75, 0x20] + k + [0xac]
            case TimeoutDelayed(e, d, k) =>
              exists n, m :: IsNum(n, e) && IsNum(m, d)
                             && ToScript(valid, l) == n + [0xb1, 0x75] + m + [0xb2, 0x75, 0x20] + k + [0xac]
  {
    hide PushNum, IsNum;
    match l
    case Funding(a, b) =>
      assert ToScript(valid, l) == [0x20] + a + [0xac, 0x20] + b + [0xba, 0x52, 0x9c];
    case KeyOnly(k) =>
    case Delayed(d, k) =>
      NumBytes(d);
      assert ToScript(valid, l) == PushNum(d) + [0xb2, 0x75, 0x20] + k + [0xac];
    case HashLock(h, k) =>
      assert ToScript(valid, l) == [0xa8, 0x20] + h + [0x88, 0x20] + k + [0xac];
    case HashLockDelayed(h, d, k) =>
      NumBytes(d);
      assert ToScript(valid, l) == [0xa8, 0x20] + h + [0x88] + PushNum(d) + [0xb2, 0x75, 0x20] + k + [0xac];
    case Timeout(e, k) =>
      NumBytes(e);
      assert ToScript(valid, l) == PushNum(e) + [0xb1, 0x75, 0x20] + k + [0xac];
    case TimeoutDelayed(e, d, k) =>
      NumBytes(e);
      NumBytes(d);
      assert ToScript(valid, l) == PushNum(e) + [0xb1, 0x75] + PushNum(d) + [0xb2, 0x75, 0x20] + k + [0xac];
  }

  /** What a leaf may carry, in numbers. */
  lemma LeafValues(valid: KeyCheck, l: Leaf)
    ensures WellFormed(valid, l) <==>
              match l
              case Funding(a, b) => |a| == 32 && valid(a) && |b| == 32 && valid(b)
              case KeyOnly(k) => |k| == 32 && valid(k)
              case Delayed(d, k) => d <= 65_535 && |k| == 32 && valid(k)
              case HashLock(h, k) => |h| == 32 && |k| == 32 && valid(k)
              case HashLockDelayed(h, d, k) => |h| == 32 && d <= 65_535 && |k| == 32 && valid(k)
              case Timeout(e, k) => e < 500_000_000 && |k| == 32 && valid(k)
              case TimeoutDelayed(e, d, k) => e < 500_000_000 && d <= 65_535 && |k| == 32 && valid(k)
  {
  }

  /** The federation's leaf in bytes: each key behind its length and before its opcode, then
      the threshold and `OP_NUMEQUAL`. */
  lemma FederationLeafBytes(valid: KeyCheck, signers: seq<Key>, k: nat)
    requires ValidMultiA(valid, signers, k)
    ensures var s, n := MultiA(signers, k), |signers|;
            && |s| == 34 * n + 2 && s[34 * n] == 0x50 + k && s[34 * n + 1] == 0x9c
            && forall i :: 0 <= i < n ==>
                 s[34 * i] == 0x20 && s[34 * i + 1..34 * i + 33] == signers[i] && s[34 * i + 33] == if i == 0 then 0xac else 0xba
  {
    var s, n := MultiA(signers, k), |signers|;
    KeysLength(valid, signers, k, n);
    assert s[..34 * n] == KeysPart(signers, n);
    assert s[34 * n..] == ThresholdPart(k);
    assert s[34 * n] == s[34 * n..][0] && s[34 * n + 1] == s[34 * n..][1];
    forall i | 0 <= i < n
      ensures s[34 * i] == 0x20 && s[34 * i + 1..34 * i + 33] == signers[i] && s[34 * i + 33] == if i == 0 then 0xac else 0xba
    {
      KeyPlaces(valid, signers, k, n, i, s);
      var key := PushKey(signers[i]);
      assert s[34 * i..34 * i + 33] == key;
      assert s[34 * i] == key[0];
      assert s[34 * i + 1..34 * i + 33] == key[1..];
      assert s[34 * i + 33..34 * i + 34][0] == KeyOp(i);
    }
  }

  /** 1 to 16 signers, a threshold between 1 and their number, 32-byte keys on the curve. */
  lemma FederationNumbers(valid: KeyCheck, signers: seq<Key>, k: nat)
    ensures ValidMultiA(valid, signers, k) <==>
              && 1 <= k <= |signers| <= 16
              && forall i :: 0 <= i < |signers| ==> |signers[i]| == 32 && valid(signers[i])
  {
  }

  // --- reading a witness ------------------------------------------------------------------------

  /** BIP 341: the annex is a last item of two or more that starts with 0x50. */
  lemma AnnexIs(stack: seq<seq<byte>>)
    ensures Unannexed(stack)
            == if |stack| >= 2 && |stack[|stack| - 1]| > 0 && stack[|stack| - 1][0] == 0x50 then stack[..|stack| - 1] else stack
  {
  }

  /** BIP 341: a signature is 64 bytes over the default message, or 65 whose last, not
      zero, is the hash type. */
  lemma SignatureIs(c: Crypto, s: Signing, raw: seq<byte>, key: seq<byte>)
    ensures JudgeSignature(c, s, raw, key) == Verified <==>
              || (|raw| == 64 && c.digest(s, 0).Digest? && c.schnorr(c.digest(s, 0).message, raw, key))
              || (|raw| == 65 && raw[64] != 0 && c.digest(s, raw[64]).Digest?
                  && c.schnorr(c.digest(s, raw[64]).message, raw[..64], key))
  {
  }

  /** BIP 341 and BIP 342 on one input, in numbers: a 34-byte version 1 output, no script,
      a control block of leaf version 0xc0 that commits the script to the output's key, items
      of at most 520 bytes, and the script run with 50 more than the witness's size. */
  lemma ScriptPathIs(c: Crypto, tx: RawTx, index: nat, prevouts: seq<TxOut>)
    ensures ScriptPathSpend(c, tx, index, prevouts) <==>
              && index < |prevouts| && index < |tx.inputs| && tx.inputs[index].scriptSig == []
              && var out, stack := prevouts[index].script, tx.inputs[index].stack;
                 && |out| == 34 && out[..2] == [0x51, 0x20] && c.validKey(out[2..])
                 && |Unannexed(stack)| >= 2
                 && var core := Unannexed(stack);
                    var items, script, control := core[..|core| - 2], core[|core| - 2], core[|core| - 1];
                    && c.leafVersion(control) == Some(0xc0) && c.commits(control, out[2..], script)
                    && (forall i :: 0 <= i < |items| ==> |items[i]| <= 520)
                    && Tapscript.Succeeds(ContextOf(c, SigningOf(tx, index, prevouts)), script, items, 50 + WitnessSize(stack))
  {
    hide Tapscript.Succeeds, ContextOf, SigningOf, WitnessSize, Unannexed;
    if index < |prevouts| && |prevouts[index].script| >= 2 {
      var out := prevouts[index].script;
      assert out[..2] == [out[0], out[1]];
    }
  }

  /** The size the signature budget counts is the serialised witness's. */
  lemma WitnessSizeIs(stack: Items)
    requires |stack| <= U32_MAX
    ensures WitnessSize(stack) == |Encode(stack)|
  {
    ItemsSizeIs(stack);
  }

  lemma {:induction false} ItemsSizeIs(stack: Items)
    ensures ItemsSize(stack, |stack|) == |EncodeItems(stack)|
  {
    if |stack| > 0 {
      ItemsSizeIs(stack[1..]);
      FirstItem(stack, |stack|);
    }
  }

  lemma {:induction false} FirstItem(stack: Items, n: nat)
    requires 0 < n <= |stack|
    ensures ItemsSize(stack, n) == |stack[0]| + CompactLength(|stack[0]|) + ItemsSize(stack[1..], n - 1)
  {
    if n > 1 {
      FirstItem(stack, n - 1);
      assert stack[1..][n - 2] == stack[n - 1];
    }
  }

  // --- sealing --------------------------------------------------------------------------------------

  /** BIP 141: a commitment is an output of 38 bytes or more that starts so. */
  lemma CommitmentBytes(script: Script)
    ensures IsCommitment(script) <==> |script| >= 38 && script[..6] == [0x6a, 0x24, 0xaa, 0x21, 0xa9, 0xed]
  {
  }

  /** BIP 325: what the push behind a block's commitment holds, the header and the witness. */
  lemma SolutionBytes(txs: seq<RawTx>)
    requires SolutionOf(txs).Some?
    ensures var s := SolutionOf(txs).value;
            && CommitmentOf(txs) == Some(s.index)
            && ReadPush(txs[0].outputs[s.index].script[38..]) == Some([0xec, 0xc7, 0xda, 0xa2] + Encode(s.items))
  {
    hide CommitmentOf, Encode, Decode, ReadPush;
    var index := CommitmentOf(txs).value;
    CommitmentLong(txs);
    var push := ReadPush(txs[0].outputs[index].script[COMMITMENT_LEN..]).value;
    DecodedWasEncoded(push[4..]);
    assert push == push[..4] + push[4..];
  }

  /** A 32-bit number in a header: four bytes, least first. */
  lemma FourBytesAre(n: u32)
    ensures |FourBytes(n)| == 4 && LittleEndian(FourBytes(n)) == n
  {
    var b := FourBytes(n);
    assert LittleEndian(b) == b[0] + 256 * LittleEndian(b[1..]);
    assert LittleEndian(b[1..]) == b[1] + 256 * LittleEndian(b[1..][1..]);
    assert b[1..][1..] == b[2..] && b[2..] == [b[2], b[3]];
    assert LittleEndian(b[2..]) == b[2] + 256 * LittleEndian(b[2..][1..]);
    assert b[2..][1..] == [b[3]];
    assert LittleEndian([b[3]]) == b[3] + 256 * LittleEndian([b[3]][1..]);
  }

  /** The signed prefix is the first 72 bytes of a Bitcoin header. */
  lemma SignedPrefixBytes(h: Header)
    ensures var p := SignedPrefix(h);
            && |p| == 72 && LittleEndian(p[..4]) == h.version && p[4..36] == h.prev && p[36..68] == h.root
            && LittleEndian(p[68..]) == h.time
  {
    hide FourBytes, LittleEndian;
    FourBytesAre(h.version);
    FourBytesAre(h.time);
    var p := SignedPrefix(h);
    assert p[..4] == FourBytes(h.version) && p[68..] == FourBytes(h.time);
    assert p[4..36] == h.prev && p[36..68] == h.root;
  }

  /** BIP 325's virtual transactions: both of version 0 and lock time 0, one input and one
      output each; the first holds the block data behind `OP_0` and pays the challenge, the
      second spends it with the solution and returns nothing. */
  lemma VirtualTransactions(hs: Hashing, data: Hash32, challenge: Script, items: Items)
    ensures var spend, sign := ToSpend(data, challenge), ToSign(hs, data, challenge, items);
            && spend.version == sign.version == 0 && spend.lockTime == sign.lockTime == 0
            && |spend.inputs| == |sign.inputs| == |spend.outputs| == |sign.outputs| == 1
            && spend.inputs[0].prev == OutPoint(Hash(0), 0xffff_ffff)
            && spend.inputs[0].scriptSig[..2] == [0x00, 0x20] && spend.inputs[0].scriptSig[2..] == data
            && spend.inputs[0].sequence == sign.inputs[0].sequence == 0
            && spend.inputs[0].stack == [] && spend.outputs[0] == TxOut(0, challenge)
            && sign.inputs[0].prev.txid == Hash(LittleEndian(hs.txid(spend))) && sign.inputs[0].prev.vout == 0
            && sign.inputs[0].scriptSig == [] && sign.inputs[0].stack == items && sign.outputs[0] == TxOut(0, [0x6a])
  {
  }

  /** A federation's challenge is the taproot output of its key, and its control block is the
      leaf version with the key's parity, then the internal key. */
  lemma FederationOutput(c: Crypto, curve: Curve, chain: seq<byte>, fed: Federation)
    requires Derived(c, curve, chain, fed)
    ensures Challenge(fed)[..2] == [0x51, 0x20] && Challenge(fed)[2..] == curve.tweak(fed.internalKey, fed.script).0
    ensures |fed.control| == 1 + |fed.internalKey| && fed.control[1..] == fed.internalKey
    ensures fed.control[0] == if curve.tweak(fed.internalKey, fed.script).1 then 0xc1 else 0xc0
  {
    hide MultiA;
  }

  /** A length on the wire: one byte to 252, or 0xfd and two bytes, or 0xfe and four, least
      first. */
  lemma CompactBytes(n: nat)
    requires n <= U32_MAX
    ensures var b := CompactSize(n);
            if n <= 252 then b == [n]
            else |b| == (if n <= 65_535 then 3 else 5) && b[0] == (if n <= 65_535 then 0xfd else 0xfe) && LittleEndian(b[1..]) == n
  {
    var b := CompactSize(n);
    if 252 < n <= 65_535 {
      TwoBytes(b[1], b[2]);
      assert b[1..] == [b[1], b[2]];
    } else if n > 65_535 {
      assert b[1..] == FourBytes(n);
      FourBytesAre(n);
    }
  }

  lemma TwoBytes(a: byte, b: byte)
    ensures LittleEndian([a, b]) == a + 256 * b
  {
    assert [a, b][1..] == [b];
    assert LittleEndian([b]) == b + 256 * LittleEndian([b][1..]);
  }

  /** A witness of two items on the wire. */
  lemma TwoItems(a: seq<byte>, b: seq<byte>)
    ensures Encode([a, b]) == [2] + (CompactSize(|a|) + a) + (CompactSize(|b|) + b)
  {
    hide CompactSize;
    CompactBytes(2);
    assert [a, b][1..] == [b] && [b][1..] == [];
    assert EncodeItems([b]) == CompactSize(|b|) + (b + EncodeItems([b][1..]));
    assert EncodeItems([a, b]) == CompactSize(|a|) + (a + EncodeItems([a, b][1..]));
  }

  /** Which bytes are a witness: the encoding of at most 256 items, each below 2^32 bytes. */
  lemma WitnessBytes(b: seq<byte>, items: Items)
    ensures Decode(b) == Some(items) <==>
              b == Encode(items) && |items| <= 256 && forall i :: 0 <= i < |items| ==> |items[i]| < 0x1_0000_0000
  {
    hide Decode, Encode;
    WitnessCodecExact(b, items);
  }

  /** One push: its length up to 75, `OP_PUSHDATA1` and a byte to 255, `OP_PUSHDATA2` and two
      bytes, least first, to 65535. */
  lemma PushBytes(data: seq<byte>)
    ensures var p := WritePush(data);
            if |data| <= 75 then p == Some([|data|] + data)
            else if |data| <= 255 then p == Some([0x4c, |data|] + data)
            else if |data| <= 65_535 then
              p.Some? && |p.value| == 3 + |data| && p.value[0] == 0x4d && LittleEndian(p.value[1..3]) == |data| && p.value[3..] == data
            else p == None
  {
    if 255 < |data| <= 65_535 {
      var p := WritePush(data).value;
      assert p[3..] == data;
      TwoBytes(p[1], p[2]);
      assert p[1..3] == [p[1], p[2]];
    }
  }

  /** A template's id, part by part: the tag twice, the chain behind its length, the genesis
      or zeros, the height the header or the coinbase says, the previous hash, and the hash of
      the block stripped of its solution, its root its own and its nonce 0. */
  lemma TemplateIdIs(hs: Hashing, b: Block, tag: Hash32, chain: seq<byte>, genesis: Option<Hash32>, h: u32)
    requires |b.txs| > 0 && if b.header.Knots? then h == b.header.height else CoinbaseHeight(b.txs[0]) == Some(h)
    ensures var root := hs.merkle(seq<Hash32>(|Stripped(b.txs)|, i requires 0 <= i < |Stripped(b.txs)| => hs.txid(Stripped(b.txs)[i])));
            var body := hs.sha256(hs.encode(Block(b.header.(root := root, nonce := 0), Stripped(b.txs))));
            var scope := tag + tag + CompactSize(|chain|) + chain + if genesis.Some? then genesis.value else seq(32, _ => 0);
            TemplateId(hs, b, tag, chain, genesis) == Some(hs.sha256(scope + FourBytes(h) + b.header.prev + body))
  {
    hide CompactSize, FourBytes, Stripped, CoinbaseHeight;
    var ids := seq<Hash32>(|Stripped(b.txs)|, i requires 0 <= i < |Stripped(b.txs)| => hs.txid(Stripped(b.txs)[i]));
    assert ids == Txids(hs, Stripped(b.txs));
  }

  /** The signed transactions: the coinbase's last commitment cut to 38 bytes, nothing else
      changed. */
  lemma StrippedBytes(txs: seq<RawTx>)
    requires CommitmentOf(txs).Some?
    ensures var s, i := Stripped(txs), CommitmentOf(txs).value;
            && |s| == |txs| && s[1..] == txs[1..] && |s[0].outputs| == |txs[0].outputs|
            && s[0] == txs[0].(outputs := s[0].outputs)
            && s[0].outputs[i] == txs[0].outputs[i].(script := txs[0].outputs[i].script[..38])
            && forall k :: 0 <= k < |txs[0].outputs| && k != i ==> s[0].outputs[k] == txs[0].outputs[k]
  {
    hide CommitmentIndex;
  }

  /** The key path is for a witness of one item or none, its annex aside. */
  lemma KeyPathIs(items: Items)
    ensures OneItem(items) <==> |items| == 0 || |items| == 1 || (|items| == 2 && |items[1]| > 0 && items[1][0] == 0x50)
  {
  }
}
