/** A federation: derived from its signers and threshold, the witness assembled
    from the signatures that arrived, and the verifier for exactly its leaf
    (sidestr-core/src/federation.rs). */
module Federation {
  import opened Prelude
  import opened Transactions
  import opened Channel
  import opened Tapscript
  import opened ScriptPath
  import opened MultiALeaf

  datatype Federation = Federation(
    signers: seq<Key>,
    threshold: nat,
    script: seq<byte>,
    internalKey: Key,
    outputKey: Key,
    control: seq<byte>)

  /** The chain's unspendable key, and a key tweaked by a leaf with its parity. */
  datatype Curve = Curve(nums: seq<byte> -> Option<Key>, tweak: (Key, seq<byte>) -> (Key, bool))

  function ControlBlock(internalKey: Key, odd: bool): seq<byte>
  {
    [if odd then 0xc1 else 0xc0] + internalKey
  }

  /** What tweaking is for: the control block commits the leaf to the output key. */
  ghost predicate TweakCommits(c: Crypto, curve: Curve)
  {
    forall internalKey, script ::
      var out := curve.tweak(internalKey, script);
      && ValidKey(c.validKey, out.0)
      && c.leafVersion(ControlBlock(internalKey, out.1)) == Some(TAPSCRIPT)
      && c.commits(ControlBlock(internalKey, out.1), out.0, script)
  }

  predicate Distinct(signers: seq<Key>)
  {
    forall i, j :: 0 <= i < j < |signers| ==> signers[i] != signers[j]
  }

  /** A federation as its chain, signers and threshold imply it. */
  predicate Derived(c: Crypto, curve: Curve, chain: seq<byte>, fed: Federation)
  {
    && ValidMultiA(c.validKey, fed.signers, fed.threshold)
    && Distinct(fed.signers)
    && fed.script == MultiA(fed.signers, fed.threshold)
    && curve.nums(chain) == Some(fed.internalKey)
    && fed.outputKey == curve.tweak(fed.internalKey, fed.script).0
    && fed.control == ControlBlock(fed.internalKey, curve.tweak(fed.internalKey, fed.script).1)
  }

  /** Derive a federation, refusing bad numbers and a signer listed twice. */
  method NewFederation(c: Crypto, curve: Curve, chain: seq<byte>, signers: seq<Key>, threshold: nat)
    returns (r: Option<Federation>)
    requires forall i :: 0 <= i < |signers| ==> ValidKey(c.validKey, signers[i])
    ensures r.Some? <==> ValidMultiA(c.validKey, signers, threshold) && Distinct(signers) && curve.nums(chain).Some?
    ensures r.Some? ==> r.value.signers == signers && r.value.threshold == threshold && Derived(c, curve, chain, r.value)
  {
    hide MultiA;
    var script := LeafScript(c.validKey, signers, threshold);
    if script.None? { return None; }
    for i := 0 to |signers|
      invariant Distinct(signers[..i])
    {
      if signers[i] in signers[..i] {
        var j :| 0 <= j < i && signers[j] == signers[i];
        return None;
      }
      assert signers[..i + 1] == signers[..i] + [signers[i]];
    }
    assert signers[..|signers|] == signers;
    var internalKey := curve.nums(chain);
    if internalKey.None? { return None; }
    var out := curve.tweak(internalKey.value, script.value);
    return Some(Federation(signers, threshold, script.value, internalKey.value, out.0, ControlBlock(internalKey.value, out.1)));
  }

  // --- the witness ------------------------------------------------------------------------------

  type Signatures = map<Key, seq<byte>>

  /** Those of the first `n` signers whose signatures are here, in leaf order. */
  function Have(signers: seq<Key>, sigs: Signatures, n: nat): seq<Key>
    requires n <= |signers|
  {
    if n == 0 then []
    else Have(signers, sigs, n - 1) + if signers[n - 1] in sigs then [signers[n - 1]] else []
  }

  function SlotItem(chosen: seq<Key>, sigs: Signatures, key: Key): seq<byte>
  {
    if key in chosen && key in sigs then sigs[key] else []
  }

  /** The slots in leaf order, then last signer first. */
  function Slots(signers: seq<Key>, chosen: seq<Key>, sigs: Signatures): seq<seq<byte>>
  {
    seq<seq<byte>>(|signers|, i requires 0 <= i < |signers| => SlotItem(chosen, sigs, signers[i]))
  }

  function Reversed(items: seq<seq<byte>>): seq<seq<byte>>
  {
    seq<seq<byte>>(|items|, i requires 0 <= i < |items| => items[|items| - 1 - i])
  }

  /** The witness of the first `k` present signers, or nothing when too few. */
  function Assembled(fed: Federation, sigs: Signatures): Option<seq<seq<byte>>>
  {
    var have := Have(fed.signers, sigs, |fed.signers|);
    if |have| < fed.threshold then None
    else Some(Reversed(Slots(fed.signers, have[..fed.threshold], sigs)) + [fed.script, fed.control])
  }

  method AssembleWitness(fed: Federation, sigs: Signatures) returns (r: Option<seq<seq<byte>>>)
    ensures r == Assembled(fed, sigs)
  {
    var have: seq<Key> := [];
    for n := 0 to |fed.signers|
      invariant have == Have(fed.signers, sigs, n)
    {
      if fed.signers[n] in sigs { have := have + [fed.signers[n]]; }
    }
    if |have| < fed.threshold { return None; }
    var chosen := have[..fed.threshold];
    var slots: seq<seq<byte>> := [];
    for n := 0 to |fed.signers|
      invariant |slots| == n
      invariant forall i :: 0 <= i < n ==> slots[i] == SlotItem(chosen, sigs, fed.signers[i])
    {
      slots := slots + [SlotItem(chosen, sigs, fed.signers[n])];
    }
    assert slots == Slots(fed.signers, chosen, sigs);
    var items: seq<seq<byte>> := [];
    for n := 0 to |slots|
      invariant |items| == n
      invariant forall i :: 0 <= i < n ==> items[i] == slots[|slots| - 1 - i]
    {
      items := items + [slots[|slots| - 1 - n]];
    }
    assert items == Reversed(slots);
    items := items + [fed.script];
    items := items + [fed.control];
    assert items == Reversed(slots) + [fed.script, fed.control];
    return Some(items);
  }

  /** Signer `i` is among the first `k` whose signatures are here. */
  predicate Chosen(signers: seq<Key>, sigs: Signatures, k: nat, i: nat)
    requires i < |signers|
  {
    signers[i] in sigs && |Have(signers, sigs, i)| < k
  }

  lemma {:induction false} HaveGrows(signers: seq<Key>, sigs: Signatures, m: nat, n: nat)
    requires m <= n <= |signers|
    ensures Have(signers, sigs, m) <= Have(signers, sigs, n)
  {
    if m < n {
      HaveGrows(signers, sigs, m, n - 1);
    }
  }

  /** Each present signer sits at its rank. */
  lemma {:induction false} HaveComesFrom(signers: seq<Key>, sigs: Signatures, n: nat, j: nat) returns (i: nat)
    requires n <= |signers| && j < |Have(signers, sigs, n)|
    ensures i < n && signers[i] in sigs && |Have(signers, sigs, i)| == j && Have(signers, sigs, n)[j] == signers[i]
  {
    if j == |Have(signers, sigs, n - 1)| {
      i := n - 1;
    } else {
      i := HaveComesFrom(signers, sigs, n - 1, j);
    }
  }

  /** With distinct signers, being chosen is having a rank below `k`. */
  lemma ChosenByRank(signers: seq<Key>, sigs: Signatures, k: nat, i: nat)
    requires Distinct(signers) && i < |signers| && k <= |Have(signers, sigs, |signers|)|
    ensures signers[i] in Have(signers, sigs, |signers|)[..k] <==> Chosen(signers, sigs, k, i)
  {
    var have := Have(signers, sigs, |signers|);
    if signers[i] in have[..k] {
      var j :| 0 <= j < k && have[j] == signers[i];
      var from := HaveComesFrom(signers, sigs, |signers|, j);
      assert from == i;
    }
    if Chosen(signers, sigs, k, i) {
      HaveGrows(signers, sigs, i + 1, |signers|);
      assert have[|Have(signers, sigs, i)|] == signers[i];
    }
  }

  /** The slots of an assembled witness: the first `k` present signers'
      signatures, in their own slots, and nothing in the others. */
  lemma SlotsAre(fed: Federation, sigs: Signatures, i: nat)
    requires Distinct(fed.signers) && Assembled(fed, sigs).Some? && i < |fed.signers|
    ensures |Assembled(fed, sigs).value| == |fed.signers| + 2
    ensures Slot(Assembled(fed, sigs).value[..|fed.signers|], i)
            == if Chosen(fed.signers, sigs, fed.threshold, i) then sigs[fed.signers[i]] else []
  {
    hide Have;
    ChosenByRank(fed.signers, sigs, fed.threshold, i);
  }

  /** Exactly `k` slots are filled. */
  lemma {:induction false} FilledIsRank(fed: Federation, sigs: Signatures, n: nat)
    requires Distinct(fed.signers) && Assembled(fed, sigs).Some? && n <= |fed.signers|
    requires forall i :: 0 <= i < |fed.signers| && fed.signers[i] in sigs ==> |sigs[fed.signers[i]]| > 0
    ensures |Assembled(fed, sigs).value| == |fed.signers| + 2
    ensures Filled(Assembled(fed, sigs).value[..|fed.signers|], n) == Min(fed.threshold, |Have(fed.signers, sigs, n)|)
  {
    hide Assembled, Slot;
    AssembledLength(fed, sigs);
    if n > 0 {
      FilledIsRank(fed, sigs, n - 1);
      SlotsAre(fed, sigs, n - 1);
    }
  }

  /** A witness is assembled exactly when at least `k` signers' signatures are here. */
  lemma EnoughAssemble(fed: Federation, sigs: Signatures)
    ensures Assembled(fed, sigs).Some? <==> |set i | 0 <= i < |fed.signers| && fed.signers[i] in sigs| >= fed.threshold
  {
    HaveCounts(fed.signers, sigs, |fed.signers|);
  }

  lemma {:induction false} HaveCounts(signers: seq<Key>, sigs: Signatures, n: nat)
    requires n <= |signers|
    ensures |Have(signers, sigs, n)| == |set i | 0 <= i < n && signers[i] in sigs|
  {
    if n > 0 {
      HaveCounts(signers, sigs, n - 1);
      var before, now := set i | 0 <= i < n - 1 && signers[i] in sigs, set i | 0 <= i < n && signers[i] in sigs;
      assert now == before + if signers[n - 1] in sigs then {n - 1} else {};
    }
  }

  lemma AssembledLength(fed: Federation, sigs: Signatures)
    requires Assembled(fed, sigs).Some?
    ensures |Assembled(fed, sigs).value| == |fed.signers| + 2
    ensures |Have(fed.signers, sigs, |fed.signers|)| >= fed.threshold
  {
  }

  // --- the verifier ------------------------------------------------------------------------------------

  datatype Refusal =
    | ScriptType
    | ScriptSig
    | TooFewItems
    | BadControlBlock
    | Commitment
    | LeafVersion(version: byte)
    | NotMultiA
    | SlotCount(have: nat, need: nat)
    | BadSignatureEncoding(slot: nat)
    | Budget
    | InvalidSignature(slot: nat)
    | SignatureCount(have: nat, need: nat)

  datatype MultiASpend = MultiASpend(signers: seq<Key>, threshold: nat, signed: seq<bool>)

  /** A script-path spend whose script is a `multi_a` leaf. */
  ghost predicate FederatedSpend(c: Crypto, tx: RawTx, index: nat, prevouts: seq<TxOut>)
  {
    && ScriptPathSpend(c, tx, index, prevouts)
    && exists signers: seq<Key>, k: nat ::
         ValidMultiA(c.validKey, signers, k) && MultiA(signers, k) == SigningOf(tx, index, prevouts).script
  }

  lemma {:induction false} SizeOfPrefix(stack: seq<seq<byte>>, m: nat, n: nat)
    requires m <= n <= |stack|
    ensures ItemsSize(stack[..m], m) == ItemsSize(stack, m) <= ItemsSize(stack, n)
    decreases n
  {
    if m < n {
      SizeOfPrefix(stack, m, n - 1);
    } else if m > 0 {
      SizeOfPrefix(stack, m - 1, m - 1);
      assert stack[..m][..m - 1] == stack[..m - 1];
      SizeOfPrefix(stack[..m], m - 1, m - 1);
    }
  }

  /** Filled slots pay for themselves: 64 bytes each, 50 off the budget each. */
  lemma {:induction false} SlotsPay(items: seq<seq<byte>>, n: nat)
    requires n <= |items|
    requires forall i :: 0 <= i < n ==> |Slot(items, i)| == 0 || |Slot(items, i)| >= 64
    ensures ItemsSize(items, |items|) >= ItemsSize(items, |items| - n) + 64 * Filled(items, n)
  {
    if n > 0 {
      SlotsPay(items, n - 1);
      assert Slot(items, n - 1) == items[|items| - n];
    }
  }

  /** The first `n` slots check out: each empty or verified. */
  predicate SlotsVerified(c: Crypto, s: Signing, signers: seq<Key>, items: seq<seq<byte>>, n: nat)
    requires n <= |signers| && n <= |items|
  {
    forall i :: 0 <= i < n ==> |Slot(items, i)| == 0 || JudgeSignature(c, s, Slot(items, i), signers[i]).Verified?
  }

  lemma VerifiedPay(c: Crypto, s: Signing, signers: seq<Key>, items: seq<seq<byte>>, n: nat)
    requires n <= |signers| && n <= |items| && SlotsVerified(c, s, signers, items, n)
    ensures ItemsSize(items, |items|) >= 64 * Filled(items, n)
  {
    hide JudgeSignature;
    forall i | 0 <= i < n
      ensures |Slot(items, i)| == 0 || |Slot(items, i)| >= 64
    {
      if |Slot(items, i)| > 0 {
        VerifiedIsLong(c, s, Slot(items, i), signers[i]);
      }
    }
    SlotsPay(items, n);
  }

  lemma NoSlots(c: Crypto, s: Signing, signers: seq<Key>, items: seq<seq<byte>>)
    ensures SlotsVerified(c, s, signers, items, 0)
  {
  }

  /** The slots so far, with one more. */
  lemma OneMoreSlot(c: Crypto, s: Signing, signers: seq<Key>, items: seq<seq<byte>>, n: nat)
    requires n < |signers| == |items| && SlotsVerified(c, s, signers, items, n)
    ensures var good := |Slot(items, n)| == 0 || JudgeSignature(c, s, Slot(items, n), signers[n]).Verified?;
            && (good ==> SlotsVerified(c, s, signers, items, n + 1))
            && (!good ==> !SlotsVerified(c, s, signers, items, |signers|))
  {
    hide JudgeSignature, Slot;
  }

  /** Check every slot against its signer, count the filled ones, and take each
      off the budget; the budget never runs out. */
  method CheckSlots(c: Crypto, s: Signing, signers: seq<Key>, items: seq<seq<byte>>, size: nat)
    returns (r: Result<(seq<bool>, nat), Refusal>)
    requires |items| == |signers| && size >= ItemsSize(items, |items|)
    ensures r.Ok? <==> SlotsVerified(c, s, signers, items, |signers|)
    ensures r.Ok? ==>
              && |r.value.0| == |signers|
              && (forall i :: 0 <= i < |signers| ==> (r.value.0[i] <==> |Slot(items, i)| > 0))
              && r.value.1 == Filled(items, |signers|)
    ensures r != Err(Budget)
  {
    hide ItemsSize, SlotsVerified;
    NoSlots(c, s, signers, items);
    var budget := 50 + size;
    var signed: seq<bool> := [];
    var count := 0;
    for slot := 0 to |signers|
      invariant |signed| == slot
      invariant forall i :: 0 <= i < slot ==> (signed[i] <==> |Slot(items, i)| > 0)
      invariant count == Filled(items, slot)
      invariant budget == 50 + size - 50 * count
      invariant SlotsVerified(c, s, signers, items, slot)
    {
      VerifiedPay(c, s, signers, items, slot);
      OneMoreSlot(c, s, signers, items, slot);
      var raw := items[|items| - 1 - slot];
      if |raw| == 0 {
        signed := signed + [false];
        continue;
      }
      var e := Encoding(raw);
      if e.None? || c.digest(s, e.value.1).NoSuchType? { return Err(BadSignatureEncoding(slot)); }
      budget := budget - 50;
      if budget < 0 { return Err(Budget); }
      if c.digest(s, e.value.1).WrongPrevouts? { return Err(BadSignatureEncoding(slot)); }
      if !c.schnorr(c.digest(s, e.value.1).message, e.value.0, signers[slot]) { return Err(InvalidSignature(slot)); }
      signed := signed + [true];
      count := count + 1;
    }
    return Ok((signed, count));
  }

  /** The interpreter's view of a `multi_a` spend is the verifier's. */
  lemma SpendIsSlots(c: Crypto, s: Signing, signers: seq<Key>, k: nat, items: seq<seq<byte>>, size: nat)
    requires s.index < |s.tx.inputs| && ValidMultiA(c.validKey, signers, k) && size >= ItemsSize(items, |items|)
    ensures Succeeds(ContextOf(c, s), MultiA(signers, k), items, 50 + size)
            <==> |items| == |signers| && SlotsVerified(c, s, signers, items, |signers|) && Filled(items, |signers|) == k
  {
    hide Succeeds, MultiA, JudgeSignature;
    MultiAMeans(c.validKey, ContextOf(c, s), signers, k, items, 50 + size);
    if |items| == |signers| && SlotsVerified(c, s, signers, items, |signers|) {
      VerifiedPay(c, s, signers, items, |signers|);
    }
  }

  /** Slots that check out are never larger than a stack item may be. */
  lemma VerifiedFit(c: Crypto, s: Signing, signers: seq<Key>, items: seq<seq<byte>>)
    requires |items| == |signers| && SlotsVerified(c, s, signers, items, |signers|)
    ensures forall i :: 0 <= i < |items| ==> |items[i]| <= MAX_STACK_ELEMENT
  {
    forall i | 0 <= i < |items|
      ensures |items[i]| <= MAX_STACK_ELEMENT
    {
      assert Slot(items, |items| - 1 - i) == items[i];
    }
  }

  /** Verify input `index` as a script-path spend of a `multi_a` leaf. */
  method VerifyMultiAInput(c: Crypto, tx: RawTx, index: nat, prevouts: seq<TxOut>)
    returns (r: Result<MultiASpend, Refusal>)
    ensures r.Ok? <==> FederatedSpend(c, tx, index, prevouts)
    ensures r.Ok? ==>
              && ValidMultiA(c.validKey, r.value.signers, r.value.threshold)
              && MultiA(r.value.signers, r.value.threshold) == SigningOf(tx, index, prevouts).script
              && var items := ScriptItems(tx, index);
                 && |items| == |r.value.signers| == |r.value.signed|
                 && (forall i :: 0 <= i < |items| ==> (r.value.signed[i] <==> |Slot(items, i)| > 0))
                 && SlotsVerified(c, SigningOf(tx, index, prevouts), r.value.signers, items, |items|)
                 && Filled(items, |items|) == r.value.threshold
    ensures r != Err(Budget)
  {
    hide MultiA, Succeeds, ContextOf, ItemsSize, SlotsVerified, ValidMultiA;
    if index >= |prevouts| || index >= |tx.inputs| { return Err(ScriptType); }
    if !IsTaproot(prevouts[index].script) { return Err(ScriptType); }
    if |tx.inputs[index].scriptSig| > 0 { return Err(ScriptSig); }
    var items := tx.inputs[index].stack;
    var size := ItemsSize(items, |items|) + 1;
    var annex: Option<seq<byte>> := None;
    if |items| >= 2 && |items[|items| - 1]| > 0 && items[|items| - 1][0] == 0x50 {
      annex := Some(items[|items| - 1]);
      items := items[..|items| - 1];
    }
    if |items| < 2 { return Err(TooFewItems); }
    var control, script := items[|items| - 1], items[|items| - 2];
    items := items[..|items| - 2];
    var version := c.leafVersion(control);
    if version.None? { return Err(BadControlBlock); }
    var program := prevouts[index].script[2..];
    if !c.validKey(program) { return Err(ScriptType); }
    if !c.commits(control, program, script) { return Err(Commitment); }
    if version.value != TAPSCRIPT { return Err(LeafVersion(version.value)); }
    var parsed := ParseMultiA(c.validKey, script);
    if parsed.None? { return Err(NotMultiA); }
    var signers, k := parsed.value.0, parsed.value.1;
    var s := Signing(tx, index, prevouts, annex, script);
    ghost var stack := tx.inputs[index].stack;
    SizeOfPrefix(stack, |items|, |stack|);
    assert items == stack[..|items|];
    SpendIsSlots(c, s, signers, k, items, WitnessSize(stack));
    if |items| != |signers| { return Err(SlotCount(|items|, |signers|)); }
    var checked := CheckSlots(c, s, signers, items, size);
    if checked.Err? { return Err(checked.error); }
    VerifiedFit(c, s, signers, items);
    if checked.value.1 != k { return Err(SignatureCount(checked.value.1, k)); }
    return Ok(MultiASpend(signers, k, checked.value.0));
  }
}
