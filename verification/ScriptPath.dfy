/** Taproot script-path spends (BIP 341 and BIP 342), as both verifiers of this
    chain see them: how a witness splits, what a signature check is, and what it
    means for an input to be a script-path spend. The curve, SHA-256, the control
    block's commitment and the signature messages are parameters. */
module ScriptPath {
  import opened Prelude
  import opened Transactions
  import opened Channel
  import opened Tapscript

  /** What a signature signs: the input, all prevouts, the annex and the leaf. */
  datatype Signing = Signing(tx: RawTx, index: nat, prevouts: seq<TxOut>, annex: Option<seq<byte>>, script: seq<byte>)

  datatype Digest = Digest(message: seq<byte>) | NoSuchType | WrongPrevouts

  /** The cryptography: which 32 bytes are a key, a control block's leaf version
      and what it commits, the hash, the message of a hash type, and Schnorr. */
  datatype Crypto = Crypto(
    validKey: KeyCheck,
    leafVersion: seq<byte> -> Option<byte>,
    commits: (seq<byte>, seq<byte>, seq<byte>) -> bool,
    sha256: seq<byte> -> seq<byte>,
    digest: (Signing, byte) -> Digest,
    schnorr: (seq<byte>, seq<byte>, seq<byte>) -> bool)

  const TAPSCRIPT: byte := 0xc0
  const MAX_STACK_ELEMENT := 520

  predicate IsTaproot(script: seq<byte>)
  {
    |script| == 34 && script[0] == 0x51 && script[1] == 0x20
  }

  function CompactLength(n: nat): nat { if n <= 0xfc then 1 else if n <= 0xffff then 3 else 5 }

  function ItemsSize(stack: seq<seq<byte>>, n: nat): nat
    requires n <= |stack|
  {
    if n == 0 then 0 else ItemsSize(stack, n - 1) + |stack[n - 1]| + CompactLength(|stack[n - 1]|)
  }

  /** The serialised witness's size, annex included. */
  function WitnessSize(stack: seq<seq<byte>>): nat
  {
    ItemsSize(stack, |stack|) + CompactLength(|stack|)
  }

  lemma {:induction false} SizeCovers(stack: seq<seq<byte>>, n: nat, i: nat)
    requires i < n <= |stack|
    ensures ItemsSize(stack, n) >= |stack[i]|
    ensures forall j :: 0 <= j < i ==> ItemsSize(stack, n) >= |stack[i]| + |stack[j]|
  {
    if i < n - 1 {
      SizeCovers(stack, n - 1, i);
    } else {
      forall j | 0 <= j < i
        ensures ItemsSize(stack, i) >= |stack[j]|
      {
        SizeCovers(stack, i, j);
      }
    }
  }

  predicate HasAnnex(stack: seq<seq<byte>>)
  {
    |stack| >= 2 && |stack[|stack| - 1]| > 0 && stack[|stack| - 1][0] == 0x50
  }

  /** The witness without its annex. */
  function Unannexed(stack: seq<seq<byte>>): seq<seq<byte>>
  {
    if HasAnnex(stack) then stack[..|stack| - 1] else stack
  }

  /** How a hash type is read off a signature, when its length is allowed. */
  function Encoding(raw: seq<byte>): Option<(seq<byte>, byte)>
  {
    if |raw| == 64 then Some((raw, 0))
    else if |raw| == 65 && raw[64] != 0 then Some((raw[..64], raw[64]))
    else None
  }

  /** What one check of a non-empty signature finds. */
  datatype Verdict = Verified | BadEncoding | BadPrevouts | Invalid

  function JudgeSignature(c: Crypto, s: Signing, raw: seq<byte>, key: seq<byte>): Verdict
  {
    var e := Encoding(raw);
    if e.None? then BadEncoding
    else
      match c.digest(s, e.value.1)
      case NoSuchType => BadEncoding
      case WrongPrevouts => BadPrevouts
      case Digest(message) => if c.schnorr(message, e.value.0, key) then Verified else Invalid
  }

  /** A signature that checks is at least 64 bytes. */
  lemma VerifiedIsLong(c: Crypto, s: Signing, raw: seq<byte>, key: seq<byte>)
    requires JudgeSignature(c, s, raw, key).Verified?
    ensures |raw| >= 64
  {
  }

  /** The script's surroundings for one input. */
  function ContextOf(c: Crypto, s: Signing): Context
    requires s.index < |s.tx.inputs|
  {
    Context(s.tx.version, s.tx.lockTime, s.tx.inputs[s.index].sequence, c.sha256,
            (raw: seq<byte>, key: seq<byte>) => JudgeSignature(c, s, raw, key).Verified?)
  }

  /** The items under the script and its control block. */
  function ScriptItems(tx: RawTx, index: nat): seq<seq<byte>>
    requires index < |tx.inputs| && |Unannexed(tx.inputs[index].stack)| >= 2
  {
    var core := Unannexed(tx.inputs[index].stack);
    core[..|core| - 2]
  }

  function SigningOf(tx: RawTx, index: nat, prevouts: seq<TxOut>): Signing
    requires index < |tx.inputs| && |Unannexed(tx.inputs[index].stack)| >= 2
  {
    var stack := tx.inputs[index].stack;
    var core := Unannexed(stack);
    Signing(tx, index, prevouts, if HasAnnex(stack) then Some(stack[|stack| - 1]) else None, core[|core| - 2])
  }

  /** BIP 341 and BIP 342 on one input: the control block commits the script to
      the output's key, and the script, run on what the witness leaves under it
      with the budget its size buys, succeeds. */
  predicate ScriptPathSpend(c: Crypto, tx: RawTx, index: nat, prevouts: seq<TxOut>)
  {
    && index < |prevouts| && index < |tx.inputs|
    && IsTaproot(prevouts[index].script)
    && tx.inputs[index].scriptSig == []
    && var stack := tx.inputs[index].stack;
       var core := Unannexed(stack);
       && |core| >= 2
       && var program, control, script := prevouts[index].script[2..], core[|core| - 1], core[|core| - 2];
          var items := core[..|core| - 2];
          && c.validKey(program)
          && c.leafVersion(control) == Some(TAPSCRIPT)
          && c.commits(control, program, script)
          && (forall i :: 0 <= i < |items| ==> |items[i]| <= MAX_STACK_ELEMENT)
          && Succeeds(ContextOf(c, SigningOf(tx, index, prevouts)), script, items, 50 + WitnessSize(stack))
  }
}
