/** A federation's `multi_a` leaf: its script, its parser, and what its bytes
    mean to the script interpreter
    (sidestr-core/src/federation.rs). */
module MultiALeaf {
  import opened Prelude
  import opened Transactions
  import opened Channel
  import opened Tapscript
  import opened ScriptPath

  type Key = seq<byte>

  const MAX_SIGNERS := 16

  // --- the leaf -------------------------------------------------------------------------------

  function KeyOp(i: nat): byte { if i == 0 then OP_CHECKSIG else OP_CHECKSIGADD }

  /** The first `n` keys of the leaf, each behind its opcode. */
  function KeysPart(signers: seq<Key>, n: nat): seq<byte>
    requires n <= |signers|
  {
    if n == 0 then [] else KeysPart(signers, n - 1) + (PushKey(signers[n - 1]) + [KeyOp(n - 1)])
  }

  function ThresholdPart(k: nat): seq<byte>
    requires 1 <= k <= MAX_SIGNERS
  {
    [0x50 + k, OP_NUMEQUAL]
  }

  /** 1 to 16 signers, a threshold between 1 and their number, keys on the curve. */
  predicate ValidMultiA(valid: KeyCheck, signers: seq<Key>, k: nat)
  {
    && 1 <= |signers| <= MAX_SIGNERS && 1 <= k <= |signers|
    && forall i :: 0 <= i < |signers| ==> ValidKey(valid, signers[i])
  }

  function MultiA(signers: seq<Key>, k: nat): seq<byte>
    requires 1 <= k <= MAX_SIGNERS
  {
    KeysPart(signers, |signers|) + ThresholdPart(k)
  }

  lemma {:induction false} KeysLength(valid: KeyCheck, signers: seq<Key>, k: nat, n: nat)
    requires ValidMultiA(valid, signers, k) && n <= |signers|
    ensures |KeysPart(signers, n)| == 34 * n
  {
    if n > 0 {
      KeysLength(valid, signers, k, n - 1);
    }
  }

  /** Where each key and opcode of the leaf lie. */
  lemma {:induction false} KeyPlaces(valid: KeyCheck, signers: seq<Key>, k: nat, n: nat, i: nat, s: seq<byte>)
    requires ValidMultiA(valid, signers, k) && i < n <= |signers| && Holds(s, 0, KeysPart(signers, n))
    ensures Holds(s, 34 * i, PushKey(signers[i])) && Holds(s, 34 * i + 33, [KeyOp(i)])
    ensures 34 * n <= |s|
  {
    hide Holds, PushKey;
    KeysLength(valid, signers, k, n);
    KeysLength(valid, signers, k, n - 1);
    PushLength(signers[n - 1]);
    HoldsParts(s, 0, KeysPart(signers, n - 1), PushKey(signers[n - 1]) + [KeyOp(n - 1)]);
    HoldsParts(s, 34 * (n - 1), PushKey(signers[n - 1]), [KeyOp(n - 1)]);
    HoldsReach(s, 0, KeysPart(signers, n));
    if i < n - 1 {
      KeyPlaces(valid, signers, k, n - 1, i, s);
    }
  }

  lemma PushLength(key: Key)
    ensures |PushKey(key)| == |key| + 1
  {
  }

  lemma HoldsReach(s: seq<byte>, at: nat, piece: seq<byte>)
    requires Holds(s, at, piece)
    ensures at + |piece| <= |s|
  {
  }

  /** The leaf's bytes, place by place. */
  lemma LeafPlaces(valid: KeyCheck, signers: seq<Key>, k: nat)
    requires ValidMultiA(valid, signers, k)
    ensures var s := MultiA(signers, k);
            && |s| == 34 * |signers| + 2
            && Holds(s, 0, KeysPart(signers, |signers|)) && Holds(s, 34 * |signers|, ThresholdPart(k))
  {
    hide Holds;
    var s := MultiA(signers, k);
    HoldsAll(s);
    HoldsParts(s, 0, KeysPart(signers, |signers|), ThresholdPart(k));
    KeysLength(valid, signers, k, |signers|);
  }

  /** Byte `34 i` opens key `i`, or the threshold after the last. */
  lemma LeafReads(valid: KeyCheck, signers: seq<Key>, k: nat, i: nat)
    requires ValidMultiA(valid, signers, k) && i <= |signers|
    ensures var s := MultiA(signers, k);
            && |s| == 34 * |signers| + 2
            && (i < |signers| ==>
                  && s[34 * i] == 0x20 && s[34 * i + 1..34 * i + 33] == signers[i] && s[34 * i + 33] == KeyOp(i))
            && (i == |signers| ==> s[34 * i] == 0x50 + k && s[34 * i + 1] == OP_NUMEQUAL)
  {
    hide KeysPart, MultiA;
    var s := MultiA(signers, k);
    LeafPlaces(valid, signers, k);
    if i < |signers| {
      KeyPlaces(valid, signers, k, |signers|, i, s);
      assert s[34 * i..34 * i + 33][0] == 0x20;
      assert s[34 * i + 1..34 * i + 33] == s[34 * i..34 * i + 33][1..];
      assert s[34 * i + 33..34 * i + 34][0] == s[34 * i + 33];
    } else {
      assert s[34 * i..34 * i + 2][0] == s[34 * i] && s[34 * i..34 * i + 2][1] == s[34 * i + 1];
    }
  }

  /** No script is two federations' leaf. */
  lemma LeavesDistinct(valid: KeyCheck, a: seq<Key>, k: nat, b: seq<Key>, m: nat)
    requires ValidMultiA(valid, a, k) && ValidMultiA(valid, b, m) && MultiA(a, k) == MultiA(b, m)
    ensures a == b && k == m
  {
    hide MultiA;
    LeafReads(valid, a, k, |a|);
    LeafReads(valid, b, m, |b|);
    forall i | 0 <= i < |a|
      ensures a[i] == b[i]
    {
      LeafReads(valid, a, k, i);
      LeafReads(valid, b, m, i);
    }
  }

  /** Write the leaf, or refuse the numbers. */
  method LeafScript(valid: KeyCheck, signers: seq<Key>, threshold: nat) returns (r: Option<seq<byte>>)
    requires forall i :: 0 <= i < |signers| ==> ValidKey(valid, signers[i])
    ensures r.Some? <==> ValidMultiA(valid, signers, threshold)
    ensures r.Some? ==> r.value == MultiA(signers, threshold)
  {
    if |signers| == 0 || |signers| > MAX_SIGNERS { return None; }
    if threshold == 0 || threshold > |signers| { return None; }
    var s: seq<byte> := [];
    for i := 0 to |signers|
      invariant s == KeysPart(signers, i)
    {
      s := s + ([0x20] + signers[i] + [if i == 0 then OP_CHECKSIG else OP_CHECKSIGADD]);
    }
    var op: byte := 0x50 + threshold;
    s := s + [op, OP_NUMEQUAL];
    return Some(s);
  }

  /** Recover the signers and how many must sign, by cutting the script at every
      signer's key and opcode and the count that closes it. */
  method ParseMultiA(valid: KeyCheck, b: seq<byte>) returns (r: Option<(seq<Key>, nat)>)
    ensures r.Some? ==> ValidMultiA(valid, r.value.0, r.value.1) && MultiA(r.value.0, r.value.1) == b
    ensures forall signers: seq<Key>, k: nat :: ValidMultiA(valid, signers, k) && MultiA(signers, k) == b ==> r == Some((signers, k))
  {
    hide KeysPart, MultiA;
    ghost var fits := exists signers: seq<Key>, k: nat :: ValidMultiA(valid, signers, k) && MultiA(signers, k) == b;
    ghost var all: seq<Key>, threshold: nat := [], 0;
    if fits {
      all, threshold :| ValidMultiA(valid, all, threshold) && MultiA(all, threshold) == b;
      LeafReads(valid, all, threshold, |all|);
    }
    forall signers: seq<Key>, k: nat | ValidMultiA(valid, signers, k) && MultiA(signers, k) == b
      ensures fits && signers == all && k == threshold
    {
      LeavesDistinct(valid, signers, k, all, threshold);
    }
    var keys: seq<Key> := [];
    var i := 0;
    KeysNone(keys);
    while i + 34 <= |b| && b[i] == 0x20
      invariant i == 34 * |keys| <= |b| && |keys| <= MAX_SIGNERS
      invariant b[..i] == KeysPart(keys, |keys|)
      invariant forall j :: 0 <= j < |keys| ==> ValidKey(valid, keys[j])
      invariant fits ==> |keys| <= |all| && keys == all[..|keys|]
      decreases |b| - i
    {
      if fits {
        LeafReads(valid, all, threshold, |keys|);
      }
      var pk := b[i + 1..i + 33];
      if !valid(pk) { return None; }
      var op := b[i + 33];
      if (|keys| == 0 && op != OP_CHECKSIG) || (|keys| > 0 && op != OP_CHECKSIGADD) { return None; }
      KeysGrow(keys, pk, b, i);
      keys := keys + [pk];
      i := i + 34;
      if |keys| > MAX_SIGNERS { return None; }
    }
    if fits {
      LeafReads(valid, all, threshold, |keys|);
    }
    if |keys| == 0 || |b| != i + 2 || !(0x51 <= b[i] <= 0x60) || b[i + 1] != OP_NUMEQUAL { return None; }
    var k := b[i] - 0x50;
    if k > |keys| { return None; }
    MultiAJoins(keys, k, b, i);
    return Some((keys, k));
  }

  lemma KeysNone(keys: seq<Key>)
    requires keys == []
    ensures KeysPart(keys, 0) == []
  {
  }

  lemma {:induction false} KeysPrefix(a: seq<Key>, b: seq<Key>, n: nat)
    requires n <= |a| && n <= |b| && a[..n] == b[..n]
    ensures KeysPart(a, n) == KeysPart(b, n)
  {
    if n > 0 {
      assert a[..n - 1] == a[..n][..n - 1] && b[..n - 1] == b[..n][..n - 1];
      assert a[n - 1] == a[..n][n - 1] && b[n - 1] == b[..n][n - 1];
      KeysPrefix(a, b, n - 1);
    }
  }

  lemma KeyBytes(pk: Key, op: byte, b: seq<byte>, i: nat)
    requires i + 34 <= |b| && b[i] == 0x20 && pk == b[i + 1..i + 33] && b[i + 33] == op
    ensures b[i..i + 34] == PushKey(pk) + [op]
  {
  }

  lemma JoinAt(b: seq<byte>, i: nat, j: nat)
    requires i <= j <= |b|
    ensures b[..j] == b[..i] + b[i..j]
  {
  }

  lemma KeysGrow(keys: seq<Key>, pk: Key, b: seq<byte>, i: nat)
    requires i + 34 <= |b| && b[..i] == KeysPart(keys, |keys|)
    requires b[i] == 0x20 && pk == b[i + 1..i + 33] && b[i + 33] == KeyOp(|keys|)
    ensures b[..i + 34] == KeysPart(keys + [pk], |keys| + 1)
  {
    hide PushKey, KeyOp;
    var more := keys + [pk];
    assert more[..|keys|] == keys[..|keys|];
    KeysPrefix(keys, more, |keys|);
    KeyBytes(pk, KeyOp(|keys|), b, i);
    JoinAt(b, i, i + 34);
  }

  lemma MultiAJoins(keys: seq<Key>, k: nat, b: seq<byte>, i: nat)
    requires |b| == i + 2 && 1 <= k <= MAX_SIGNERS
    requires b[..i] == KeysPart(keys, |keys|) && b[i] == 0x50 + k && b[i + 1] == OP_NUMEQUAL
    ensures MultiA(keys, k) == b
  {
    hide KeysPart;
    var end := ThresholdPart(k);
    assert b[i..] == end;
    JoinAt(b, i, |b|);
    assert b[..|b|] == b && b[i..|b|] == b[i..];
  }

  // --- what the leaf means ----------------------------------------------------------------------

  /** Signer `i`'s slot: the first key checks the top of the stack. */
  function Slot(items: seq<seq<byte>>, i: nat): seq<byte>
    requires i < |items|
  {
    items[|items| - 1 - i]
  }

  /** How many of the first `n` slots carry something. */
  function Filled(items: seq<seq<byte>>, n: nat): nat
    requires n <= |items|
  {
    if n == 0 then 0 else Filled(items, n - 1) + if |Slot(items, n - 1)| > 0 then 1 else 0
  }

  lemma {:induction false} FilledBound(items: seq<seq<byte>>, n: nat)
    requires n <= |items|
    ensures Filled(items, n) <= n
  {
    if n > 0 {
      FilledBound(items, n - 1);
    }
  }

  /** The first `n` keys run: a slot each, empty or signed, all paid for. */
  predicate KeysRun(c: Context, signers: seq<Key>, items: seq<seq<byte>>, n: nat, budget: int)
    requires n <= |signers|
  {
    && n <= |items|
    && (forall i :: 0 <= i < n ==> |Slot(items, i)| == 0 || c.signed(Slot(items, i), signers[i]))
    && budget >= 50 * Filled(items, n)
  }

  /** The machine after the first `n > 0` keys. */
  function AfterKeys(items: seq<seq<byte>>, n: nat, budget: int): Machine
    requires n <= |items|
  {
    Machine(34 * n, items[..|items| - n] + [EncodeNumber(Filled(items, n))], budget - 50 * Filled(items, n))
  }

  lemma SmallCount(n: nat)
    requires n <= 17
    ensures Number(EncodeNumber(n), 4) == Some(n as int)
    ensures n == 0 ==> EncodeNumber(n) == []
    ensures n == 1 ==> EncodeNumber(n) == TRUE
    ensures n > 0 ==> EncodeNumber(n) == [n]
  {
    SmallNumbers(n, 4);
  }

  lemma FirstKeyRuns(c: Context, s: seq<byte>, signers: seq<Key>, items: seq<seq<byte>>, budget: int)
    requires |signers| >= 1 && |signers[0]| == 32 && Holds(s, 0, KeyPart(signers[0])) && budget >= 0
    ensures KeysRun(c, signers, items, 1, budget) ==>
              Exec(c, s, Machine(0, items, budget)) == Exec(c, s, AfterKeys(items, 1, budget))
    ensures !KeysRun(c, signers, items, 1, budget) ==> Exec(c, s, Machine(0, items, budget)) == None
  {
    hide Holds, Exec, EncodeNumber, Number, KeyPart;
    RunsKey(c, s, Machine(0, items, budget), signers[0]);
    SmallCount(0);
    SmallCount(1);
    if |items| > 0 {
      assert Filled(items, 0) == 0;
    }
  }

  lemma NextKeyRuns(c: Context, s: seq<byte>, signers: seq<Key>, items: seq<seq<byte>>, n: nat, budget: int)
    requires 1 <= n < |signers| <= MAX_SIGNERS && |signers[n]| == 32
    requires KeysRun(c, signers, items, n, budget)
    requires Holds(s, 34 * n, PushKey(signers[n])) && Holds(s, 34 * n + 33, [OP_CHECKSIGADD])
    ensures KeysRun(c, signers, items, n + 1, budget) ==>
              Exec(c, s, AfterKeys(items, n, budget)) == Exec(c, s, AfterKeys(items, n + 1, budget))
    ensures !KeysRun(c, signers, items, n + 1, budget) ==> Exec(c, s, AfterKeys(items, n, budget)) == None
  {
    hide Holds, Exec, EncodeNumber, Number, PushKey;
    var m := AfterKeys(items, n, budget);
    ExecKey(c, s, m, signers[n]);
    var m1 := Push(m, m.at + 33, m.stack, signers[n]);
    ExecOne(c, s, m1, OP_CHECKSIGADD);
    FilledBound(items, n);
    SmallCount(Filled(items, n));
    if n < |items| {
      assert Top(m1.stack, 2) == Slot(items, n);
      assert Below(m1.stack, 3) == items[..|items| - (n + 1)];
    }
  }

  /** The keys run one after another, or the script fails. */
  lemma {:induction false} KeysExec(valid: KeyCheck, c: Context, s: seq<byte>, signers: seq<Key>, k: nat,
                                    items: seq<seq<byte>>, n: nat, budget: int)
    requires ValidMultiA(valid, signers, k) && s == MultiA(signers, k) && 1 <= n <= |signers| && budget >= 0
    ensures KeysRun(c, signers, items, n, budget) ==>
              Exec(c, s, Machine(0, items, budget)) == Exec(c, s, AfterKeys(items, n, budget))
    ensures !KeysRun(c, signers, items, n, budget) ==> Exec(c, s, Machine(0, items, budget)) == None
  {
    hide Holds, Exec, AfterKeys, MultiA, PushKey, KeysPart;
    LeafPlaces(valid, signers, k);
    KeyPlaces(valid, signers, k, |signers|, n - 1, s);
    if n == 1 {
      HoldsParts(s, 0, PushKey(signers[0]), [OP_CHECKSIG]);
      PushLength(signers[0]);
      FirstKeyRuns(c, s, signers, items, budget);
    } else {
      KeysExec(valid, c, s, signers, k, items, n - 1, budget);
      if KeysRun(c, signers, items, n - 1, budget) {
        NextKeyRuns(c, s, signers, items, n - 1, budget);
      }
    }
  }

  /** The count is compared with the threshold. */
  lemma ThresholdExec(c: Context, s: seq<byte>, m: Machine, k: nat, count: nat)
    requires 1 <= k <= MAX_SIGNERS && count <= MAX_SIGNERS
    requires Holds(s, m.at, ThresholdPart(k)) && m.at + 2 == |s|
    requires |m.stack| >= 1 && m.stack[|m.stack| - 1] == EncodeNumber(count)
    ensures Done(Exec(c, s, m)) <==> |m.stack| == 1 && count == k
  {
    hide Holds, Exec, EncodeNumber, Number, Truth;
    assert ThresholdPart(k) == [0x50 + k] + [OP_NUMEQUAL];
    HoldsParts(s, m.at, [0x50 + k], [OP_NUMEQUAL]);
    ExecOne(c, s, m, 0x50 + k);
    var m1 := Push(m, m.at + 1, m.stack, [k]);
    ExecOne(c, s, m1, OP_NUMEQUAL);
    SmallCount(count);
    SmallNumbers(k, 4);
    SmallNumbers(1, 4);
    var m2 := Push(m1, m.at + 2, Below(m1.stack, 2), if k == count then TRUE else []);
    AtTheEnd(c, s, m2);
  }

  /** The `multi_a` leaf's bytes mean: one slot per signer, each empty or a valid
      signature of its own key, and exactly `k` of them filled. */
  lemma MultiAMeans(valid: KeyCheck, c: Context, signers: seq<Key>, k: nat, items: seq<seq<byte>>, budget: int)
    requires ValidMultiA(valid, signers, k) && budget >= 0
    ensures Succeeds(c, MultiA(signers, k), items, budget) <==>
              && |items| == |signers|
              && KeysRun(c, signers, items, |signers|, budget)
              && Filled(items, |signers|) == k
  {
    hide Holds, Exec, MultiA, KeysPart, Truth, EncodeNumber, ThresholdPart;
    var s, n := MultiA(signers, k), |signers|;
    LeafPlaces(valid, signers, k);
    KeysExec(valid, c, s, signers, k, items, n, budget);
    if KeysRun(c, signers, items, n, budget) {
      FilledBound(items, n);
      ThresholdExec(c, s, AfterKeys(items, n, budget), k, Filled(items, n));
    }
  }
}
