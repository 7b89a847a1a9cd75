/** Verifying a taproot script-path spend of a channel leaf
    (sidestr-core/src/channel.rs). The verifier recognises the leaf's template
    and checks what it demands; it is proved to accept exactly the inputs whose
    script the interpreter runs to success. */
module ChannelSpending {
  import opened Prelude
  import opened Transactions
  import opened Channel
  import opened Tapscript
  import opened ScriptPath

  datatype Refusal =
    | ScriptType
    | ScriptSig
    | TooFewItems
    | ControlBlock
    | Commitment
    | LeafVersion(version: byte)
    | NotATemplate
    | WrongItems(have: nat, need: nat)
    | ItemSize
    | WrongPreimage
    | LockTime
    | Sequence
    | BadSignatureEncoding(slot: nat)
    | Budget
    | InvalidSignature(slot: nat)
    | MissingSignature(slot: nat)

  datatype ChannelSpend = ChannelSpend(leaf: Leaf, preimage: Option<seq<byte>>)

  /** A script-path spend whose script is one of the seven templates. */
  ghost predicate LeafSpend(c: Crypto, tx: RawTx, index: nat, prevouts: seq<TxOut>)
  {
    && ScriptPathSpend(c, tx, index, prevouts)
    && exists l :: WellFormed(c.validKey, l) && ToScript(c.validKey, l) == SigningOf(tx, index, prevouts).script
  }

  // --- the two lock checks ------------------------------------------------------------------------

  /** `CHECKSEQUENCEVERIFY` for a delay that is a block count. */
  predicate CheckSequence(tx: RawTx, index: nat, delay: nat)
    requires index < |tx.inputs|
  {
    var sequence := tx.inputs[index].sequence;
    !(tx.version < 2 || Disabled(sequence) || Timed(sequence) || sequence % 0x1_0000 < delay)
  }

  /** `CHECKLOCKTIMEVERIFY` for an expiry that is a height. */
  predicate CheckLockTime(tx: RawTx, index: nat, expiry: nat)
    requires index < |tx.inputs|
  {
    !(tx.lockTime >= LOCKTIME_THRESHOLD || expiry > tx.lockTime || tx.inputs[index].sequence == 0xffff_ffff)
  }

  /** For the operands a template can carry, the two checks are the opcodes'. */
  lemma LocksAreTheOpcodes(c: Crypto, s: Signing, n: nat)
    requires s.index < |s.tx.inputs|
    ensures n <= U16_MAX ==> (CheckSequence(s.tx, s.index, n) <==> SequenceReached(ContextOf(c, s), n))
    ensures n < LOCKTIME_THRESHOLD ==> (CheckLockTime(s.tx, s.index, n) <==> LockTimeReached(ContextOf(c, s), n))
  {
    if n <= U16_MAX {
      assert !Disabled(n) && !Timed(n) && n % 0x1_0000 == n;
    }
  }

  // --- the verifier ---------------------------------------------------------------------------------

  /** Pay for one signature and check it. */
  method TakeSignature(c: Crypto, s: Signing, raw: seq<byte>, key: seq<byte>, slot: nat, budget: int)
    returns (r: Result<int, Refusal>)
    requires s.index < |s.tx.inputs|
    ensures r.Ok? <==> SignedBy(ContextOf(c, s), raw, key) && budget >= 50
    ensures r.Ok? ==> r.value == budget - 50
    ensures r == Err(Budget) ==> |raw| > 0 && budget < 50
  {
    if |raw| == 0 { return Err(MissingSignature(slot)); }
    var left := budget - 50;
    if left < 0 { return Err(Budget); }
    match JudgeSignature(c, s, raw, key) {
      case BadEncoding => return Err(BadSignatureEncoding(slot));
      case BadPrevouts => return Err(ScriptType);
      case Invalid => return Err(InvalidSignature(slot));
      case Verified => return Ok(left);
    }
  }

  /** The two signatures of the funding leaf, each in its own slot. */
  method RunFundingLeaf(c: Crypto, s: Signing, k1: seq<byte>, k2: seq<byte>, items: seq<seq<byte>>, budget: int)
    returns (r: Option<Refusal>)
    requires s.index < |s.tx.inputs| && |items| == 2 && budget >= 50 + |items[0]| + |items[1]|
    ensures r.None? <==> SignedBy(ContextOf(c, s), items[1], k1) && SignedBy(ContextOf(c, s), items[0], k2)
    ensures r != Some(Budget)
  {
    var top, under := items[1], items[0];
    if |top| > 0 && Encoding(top).None? { return Some(BadSignatureEncoding(0)); }
    if |under| > 0 && Encoding(under).None? { return Some(BadSignatureEncoding(1)); }
    var first := TakeSignature(c, s, top, k1, 0, budget);
    if first.Err? { return Some(first.error); }
    var second := TakeSignature(c, s, under, k2, 1, first.value);
    if second.Err? { return Some(second.error); }
    return None;
  }

  /** A single-key leaf: preimage, expiry, delay, signature, in that order. */
  method RunKeyLeaf(c: Crypto, s: Signing, l: Leaf, items: seq<seq<byte>>, budget: int)
    returns (r: Result<Option<seq<byte>>, Refusal>)
    requires s.index < |s.tx.inputs| && !l.Funding? && |items| == StackItems(l) && budget >= 50
    ensures r.Ok? <==>
              && (HashOf(l).Some? ==> c.sha256(items[1]) == HashOf(l).value)
              && (ExpiryOf(l).Some? ==> CheckLockTime(s.tx, s.index, ExpiryOf(l).value))
              && (DelayOf(l).Some? ==> CheckSequence(s.tx, s.index, DelayOf(l).value))
              && SignedBy(ContextOf(c, s), items[0], l.key)
    ensures r.Ok? ==> r.value == if HashOf(l).Some? then Some(items[1]) else None
    ensures r != Err(Budget)
  {
    var preimage: Option<seq<byte>> := None;
    var hash := HashOf(l);
    if hash.Some? {
      if c.sha256(items[1]) != hash.value { return Err(WrongPreimage); }
      preimage := Some(items[1]);
    }
    var expiry := ExpiryOf(l);
    if expiry.Some? && !CheckLockTime(s.tx, s.index, expiry.value) { return Err(LockTime); }
    var delay := DelayOf(l);
    if delay.Some? && !CheckSequence(s.tx, s.index, delay.value) { return Err(Sequence); }
    var taken := TakeSignature(c, s, items[0], l.key, 0, budget);
    if taken.Err? { return Err(taken.error); }
    return Ok(preimage);
  }

  /** Run the leaf on its items: success is the script's success, and the
      signature budget never runs out. */
  method RunLeaf(c: Crypto, s: Signing, l: Leaf, items: seq<seq<byte>>, budget: int)
    returns (r: Result<Option<seq<byte>>, Refusal>)
    requires s.index < |s.tx.inputs| && WellFormed(c.validKey, l)
    requires |items| == StackItems(l)
    requires budget >= 50 + (if |items| == 2 then |items[0]| + |items[1]| else 0)
    ensures r.Ok? <==> Succeeds(ContextOf(c, s), ToScript(c.validKey, l), items, budget)
    ensures r.Ok? && HashOf(l).Some? ==> r.value.Some? && c.sha256(r.value.value) == HashOf(l).value
    ensures r != Err(Budget)
  {
    hide ToScript, Succeeds, CheckSequence, CheckLockTime, SequenceReached, LockTimeReached;
    LeafMeans(c.validKey, ContextOf(c, s), l, items, budget);
    if l.Funding? {
      SignaturesPay(c, s, items, l.k1, l.k2);
      var refusal := RunFundingLeaf(c, s, l.k1, l.k2, items, budget);
      return if refusal.Some? then Err(refusal.value) else Ok(None);
    }
    if ExpiryOf(l).Some? { LocksAreTheOpcodes(c, s, ExpiryOf(l).value); }
    if DelayOf(l).Some? { LocksAreTheOpcodes(c, s, DelayOf(l).value); }
    r := RunKeyLeaf(c, s, l, items, budget);
  }

  /** A signature that checks is at least 64 bytes, so two of them pay their own
      way: the witness that carries them adds more to the budget than they use. */
  lemma SignaturesPay(c: Crypto, s: Signing, items: seq<seq<byte>>, k1: seq<byte>, k2: seq<byte>)
    requires s.index < |s.tx.inputs| && |items| == 2
    ensures SignedBy(ContextOf(c, s), items[1], k1) && SignedBy(ContextOf(c, s), items[0], k2) ==>
              |items[0]| + |items[1]| >= 128
  {
  }

  /** Two items at the foot of a witness are within its size. */
  lemma WitnessPays(stack: seq<seq<byte>>, items: seq<seq<byte>>)
    requires items <= stack
    ensures |items| == 2 ==> WitnessSize(stack) >= |items[0]| + |items[1]|
  {
    if |items| == 2 {
      SizeCovers(stack, |stack|, 1);
    }
  }

  /** Verify input `index` as a script-path spend of a channel leaf. */
  method VerifyChannelInput(c: Crypto, tx: RawTx, index: nat, prevouts: seq<TxOut>)
    returns (r: Result<ChannelSpend, Refusal>)
    ensures r.Ok? <==> LeafSpend(c, tx, index, prevouts)
    ensures r.Ok? ==>
              && WellFormed(c.validKey, r.value.leaf)
              && ToScript(c.validKey, r.value.leaf) == SigningOf(tx, index, prevouts).script
              && (HashOf(r.value.leaf).Some? ==>
                    r.value.preimage.Some? && c.sha256(r.value.preimage.value) == HashOf(r.value.leaf).value)
    ensures r != Err(Budget)
  {
    hide ToScript, WellFormed, Succeeds, Parse, ContextOf, WitnessSize;
    if index >= |prevouts| || index >= |tx.inputs| { return Err(ScriptType); }
    if !IsTaproot(prevouts[index].script) { return Err(ScriptType); }
    if |tx.inputs[index].scriptSig| > 0 { return Err(ScriptSig); }
    var items := tx.inputs[index].stack;
    var budget := 50 + WitnessSize(items);
    var annex: Option<seq<byte>> := None;
    if |items| >= 2 && |items[|items| - 1]| > 0 && items[|items| - 1][0] == 0x50 {
      annex := Some(items[|items| - 1]);
      items := items[..|items| - 1];
    }
    if |items| < 2 { return Err(TooFewItems); }
    var control, script := items[|items| - 1], items[|items| - 2];
    items := items[..|items| - 2];
    var version := c.leafVersion(control);
    if version.None? { return Err(ControlBlock); }
    var program := prevouts[index].script[2..];
    if !c.validKey(program) { return Err(ScriptType); }
    if !c.commits(control, program, script) { return Err(Commitment); }
    if version.value != TAPSCRIPT { return Err(LeafVersion(version.value)); }
    var leaf := Run(c.validKey, script);
    if leaf.None? { return Err(NotATemplate); }
    var l := leaf.value;
    ghost var s := SigningOf(tx, index, prevouts);
    assert s == Signing(tx, index, prevouts, annex, script);
    if |items| != StackItems(l) {
      LeafMeans(c.validKey, ContextOf(c, s), l, items, budget);
      return Err(WrongItems(|items|, StackItems(l)));
    }
    if i :| 0 <= i < |items| && |items[i]| > MAX_STACK_ELEMENT { return Err(ItemSize); }
    WitnessPays(tx.inputs[index].stack, items);
    var ran := RunLeaf(c, Signing(tx, index, prevouts, annex, script), l, items, budget);
    if ran.Err? { return Err(ran.error); }
    return Ok(ChannelSpend(l, ran.value));
  }
}
