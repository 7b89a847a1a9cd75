/** What the channel leaves' bytes mean: an interpreter for their opcodes by
    Bitcoin's own rules (BIP 342 for signatures and the clean stack, BIP 65 and
    BIP 112 for the locks). The leaf verifier never runs a script; here its
    template-by-template answer is proved to be the interpreter's. */
module Tapscript {
  import opened Prelude
  import opened Channel

  /** The transaction and input a script runs in. */
  datatype Context = Context(
    version: int,
    lockTime: u32,
    sequence: u32,
    sha256: seq<byte> -> seq<byte>,
    signed: (seq<byte>, seq<byte>) -> bool)

  datatype Machine = Machine(at: nat, stack: seq<seq<byte>>, budget: int)

  // --- numbers and truth -------------------------------------------------------------------

  /** A stack item read as a number: little-endian, the top bit its sign. */
  function Number(b: seq<byte>, most: nat): Option<int>
  {
    if |b| > most then None
    else if |b| == 0 then Some(0)
    else
      var last := |b| - 1;
      if b[last] < 0x80 then Some(LittleEndian(b))
      else
        var size: int := LittleEndian(b[..last] + [b[last] - 0x80]);
        Some(-size)
  }

  function EncodeNumber(n: int): seq<byte>
  {
    if n == 0 then []
    else
      var b := MinimalBytes(if n < 0 then -n else n);
      if |b| == 0 || b[|b| - 1] >= 0x80 then b + [if n < 0 then 0x80 else 0]
      else if n < 0 then b[|b| - 1 := b[|b| - 1] + 0x80]
      else b
  }

  /** False is any zero, negative zero included. */
  predicate Truth(b: seq<byte>)
  {
    exists i :: 0 <= i < |b| && b[i] != 0 && !(i == |b| - 1 && b[i] == 0x80)
  }

  const TRUE: seq<byte> := [1]

  lemma SmallNumbers(n: byte, most: nat)
    requires n < 0x80 && most >= 1
    ensures Number([], most) == Some(0) && Number([n], most) == Some(n as int)
    ensures EncodeNumber(0) == [] && (n > 0 ==> EncodeNumber(n) == [n])
    ensures Truth([n]) <==> n != 0
    ensures !Truth([])
  {
    assert [n][1..] == [];
    assert LittleEndian([n]) == n;
    if n > 0 {
      assert MinimalBytes(n / 256) == [];
      assert MinimalBytes(n) == [n];
      assert [n][0] == n;
    }
  }

  // --- one opcode -----------------------------------------------------------------------------

  /** BIP 65: the operand is a lock of the transaction's kind, already reached,
      and the input is not final. */
  predicate LockTimeReached(c: Context, operand: int)
  {
    && operand >= 0
    && (operand < LOCKTIME_THRESHOLD <==> c.lockTime < LOCKTIME_THRESHOLD)
    && operand <= c.lockTime
    && c.sequence != 0xffff_ffff
  }

  predicate Disabled(n: int) { n / 0x8000_0000 % 2 == 1 }
  predicate Timed(n: int) { n / 0x40_0000 % 2 == 1 }

  /** BIP 112: a disabled operand asks nothing; otherwise the input's sequence
      is a relative lock of the same kind and at least as long. */
  predicate SequenceReached(c: Context, operand: int)
  {
    && operand >= 0
    && (Disabled(operand) ||
        (&& c.version >= 2
         && !Disabled(c.sequence)
         && (Timed(operand) <==> Timed(c.sequence))
         && operand % 0x1_0000 <= c.sequence % 0x1_0000))
  }

  /** BIP 342's signature check: nothing for an empty signature; otherwise 50
      off the budget and, for a 32-byte key, a signature that must verify. */
  datatype Checked = Fails | Unsigned | Signed(budget: int)

  function CheckSignature(c: Context, sig: seq<byte>, key: seq<byte>, budget: int): Checked
  {
    if |key| == 0 then Fails
    else if |sig| == 0 then Unsigned
    else if budget < 50 then Fails
    else if |key| == 32 && !c.signed(sig, key) then Fails
    else Signed(budget - 50)
  }

  /** The stack less its top `k` items, and the item `k` from the top. */
  function Below(stack: seq<seq<byte>>, k: nat): seq<seq<byte>>
    requires k <= |stack|
  {
    stack[..|stack| - k]
  }

  function Top(stack: seq<seq<byte>>, k: nat): seq<byte>
    requires k < |stack|
  {
    stack[|stack| - 1 - k]
  }

  function Push(m: Machine, at: nat, stack: seq<seq<byte>>, item: seq<byte>): Machine
  {
    m.(at := at, stack := stack + [item])
  }

  /** One opcode, or failure. */
  function Step(c: Context, s: seq<byte>, m: Machine): (r: Option<Machine>)
    requires m.at < |s|
    ensures r.Some? ==> r.value.at > m.at
  {
    var op, st, next := s[m.at], m.stack, m.at + 1;
    if op <= 0x4b then
      if next + op <= |s| then Some(Push(m, next + op, st, s[next..next + op])) else None
    else if 0x51 <= op <= 0x60 then Some(Push(m, next, st, [op - 0x50]))
    else if op == OP_DROP then
      if |st| >= 1 then Some(m.(at := next, stack := Below(st, 1))) else None
    else if op == OP_EQUALVERIFY then
      if |st| >= 2 && Top(st, 0) == Top(st, 1) then Some(m.(at := next, stack := Below(st, 2))) else None
    else if op == OP_NUMEQUAL then
      if |st| < 2 then None
      else
        var a :- Number(Top(st, 0), 4);
        var b :- Number(Top(st, 1), 4);
        Some(Push(m, next, Below(st, 2), if a == b then TRUE else []))
    else if op == OP_SHA256 then
      if |st| >= 1 then Some(Push(m, next, Below(st, 1), c.sha256(Top(st, 0)))) else None
    else if op == OP_CHECKSIG then
      if |st| < 2 then None
      else
        match CheckSignature(c, Top(st, 1), Top(st, 0), m.budget)
        case Fails => None
        case Unsigned => Some(Push(m, next, Below(st, 2), []))
        case Signed(left) => Some(Push(m.(budget := left), next, Below(st, 2), TRUE))
    else if op == OP_CHECKSIGADD then
      if |st| < 3 then None
      else
        var n :- Number(Top(st, 1), 4);
        match CheckSignature(c, Top(st, 2), Top(st, 0), m.budget)
        case Fails => None
        case Unsigned => Some(Push(m, next, Below(st, 3), EncodeNumber(n)))
        case Signed(left) => Some(Push(m.(budget := left), next, Below(st, 3), EncodeNumber(n + 1)))
    else if op == OP_CLTV then
      if |st| < 1 then None
      else
        var n :- Number(Top(st, 0), 5);
        if LockTimeReached(c, n) then Some(m.(at := next)) else None
    else if op == OP_CSV then
      if |st| < 1 then None
      else
        var n :- Number(Top(st, 0), 5);
        if SequenceReached(c, n) then Some(m.(at := next)) else None
    else None
  }

  /** Run to the end of the script. */
  function Exec(c: Context, s: seq<byte>, m: Machine): Option<Machine>
    decreases |s| - m.at
  {
    if m.at >= |s| then Some(m)
    else
      var next :- Step(c, s, m);
      Exec(c, s, next)
  }

  /** A script succeeds when it leaves exactly one item and that item is true. */
  predicate Succeeds(c: Context, s: seq<byte>, items: seq<seq<byte>>, budget: int)
  {
    var end := Exec(c, s, Machine(0, items, budget));
    end.Some? && |end.value.stack| == 1 && Truth(end.value.stack[0])
  }

  // --- the pieces of a leaf -----------------------------------------------------------------------

  lemma ExecOne(c: Context, s: seq<byte>, m: Machine, op: byte)
    requires Holds(s, m.at, [op])
    ensures m.at < |s| && s[m.at] == op
    ensures Exec(c, s, m) == var next := Step(c, s, m); if next.Some? then Exec(c, s, next.value) else None
  {
    hide Step;
    assert s[m.at..m.at + 1][0] == s[m.at];
  }

  lemma ExecKey(c: Context, s: seq<byte>, m: Machine, k: seq<byte>)
    requires |k| == 32 && Holds(s, m.at, PushKey(k))
    ensures Exec(c, s, m) == Exec(c, s, Push(m, m.at + 33, m.stack, k))
  {
    HoldsParts(s, m.at, [0x20], k);
    ExecOne(c, s, m, 0x20);
  }

  /** What pushing a number leaves on the stack. */
  function Pushed(n: nat): seq<byte>
    requires n <= U32_MAX
  {
    PushNumShape(n);
    if n == 0 then [] else if n <= 16 then [n] else PushNum(n)[1..]
  }

  lemma ExecNum(c: Context, s: seq<byte>, m: Machine, n: nat)
    requires n <= U32_MAX && Holds(s, m.at, PushNum(n))
    ensures Exec(c, s, m) == Exec(c, s, Push(m, m.at + |PushNum(n)|, m.stack, Pushed(n)))
  {
    hide PushNum, LittleEndian, Number, Exec;
    PushNumShape(n);
    var p := PushNum(n);
    assert p == [p[0]] + p[1..];
    HoldsParts(s, m.at, [p[0]], p[1..]);
    ExecOne(c, s, m, p[0]);
  }

  lemma PushedReads(n: nat)
    requires n <= U32_MAX
    ensures Number(Pushed(n), 5) == Some(n)
  {
    hide PushNum;
    PushNumShape(n);
    if n <= 16 {
      SmallNumbers(n, 5);
    }
  }

  /** A machine resumed at a place with a stack and a budget, or failed. */
  function Resume(c: Context, s: seq<byte>, ok: bool, m: Machine): Option<Machine>
  {
    if ok then Exec(c, s, m) else None
  }

  /** `hash`: consumes the top item, whose hash it must be. */
  lemma RunsHash(c: Context, s: seq<byte>, m: Machine, h: seq<byte>)
    requires |h| == 32 && Holds(s, m.at, HashPart(h))
    ensures |m.stack| == 0 ==> Exec(c, s, m) == None
    ensures |m.stack| > 0 ==>
              Exec(c, s, m)
              == Resume(c, s, c.sha256(Top(m.stack, 0)) == h, m.(at := m.at + 35, stack := Below(m.stack, 1)))
  {
    hide Holds, Exec;
    assert HashPart(h) == [OP_SHA256] + (PushKey(h) + [OP_EQUALVERIFY]);
    HoldsParts(s, m.at, [OP_SHA256], PushKey(h) + [OP_EQUALVERIFY]);
    HoldsParts(s, m.at + 1, PushKey(h), [OP_EQUALVERIFY]);
    ExecOne(c, s, m, OP_SHA256);
    if |m.stack| > 0 {
      var image := c.sha256(Top(m.stack, 0));
      var m1 := Push(m, m.at + 1, Below(m.stack, 1), image);
      ExecKey(c, s, m1, h);
      var m2 := Push(m1, m.at + 34, m1.stack, h);
      ExecOne(c, s, m2, OP_EQUALVERIFY);
      assert Below(m2.stack, 2) == Below(m.stack, 1);
    }
  }

  lemma StepLock(c: Context, s: seq<byte>, m: Machine, n: int)
    requires m.at < |s| && (s[m.at] == OP_CLTV || s[m.at] == OP_CSV)
    requires |m.stack| >= 1 && Number(Top(m.stack, 0), 5) == Some(n)
    ensures Step(c, s, m)
            == if (if s[m.at] == OP_CLTV then LockTimeReached(c, n) else SequenceReached(c, n)) then Some(m.(at := m.at + 1)) else None
  {
    hide LockTimeReached, SequenceReached, Number, CheckSignature, EncodeNumber;
  }

  lemma StepDrop(c: Context, s: seq<byte>, m: Machine)
    requires m.at < |s| && s[m.at] == OP_DROP && |m.stack| >= 1
    ensures Step(c, s, m) == Some(m.(at := m.at + 1, stack := Below(m.stack, 1)))
  {
    hide LockTimeReached, SequenceReached, Number, CheckSignature, EncodeNumber;
  }

  /** A number and a lock opcode and `DROP`: asks, and leaves the stack alone. */
  lemma RunsLock(c: Context, s: seq<byte>, m: Machine, n: nat, op: byte)
    requires n <= U32_MAX && (op == OP_CLTV || op == OP_CSV) && Holds(s, m.at, PushNum(n) + [op, OP_DROP])
    ensures Exec(c, s, m)
            == Resume(c, s, if op == OP_CLTV then LockTimeReached(c, n) else SequenceReached(c, n),
                      m.(at := m.at + |PushNum(n)| + 2))
  {
    hide Holds, Exec, PushNum, LockTimeReached, SequenceReached, Number, Pushed, Step;
    assert [op, OP_DROP] == [op] + [OP_DROP];
    HoldsParts(s, m.at, PushNum(n), [op, OP_DROP]);
    HoldsParts(s, m.at + |PushNum(n)|, [op], [OP_DROP]);
    ExecNum(c, s, m, n);
    PushedReads(n);
    var m1 := Push(m, m.at + |PushNum(n)|, m.stack, Pushed(n));
    ExecOne(c, s, m1, op);
    StepLock(c, s, m1, n);
    var m2 := m1.(at := m1.at + 1);
    ExecOne(c, s, m2, OP_DROP);
    StepDrop(c, s, m2);
    assert Below(m2.stack, 1) == m.stack;
  }

  /** What `CHECKSIG` makes of the top item. */
  function AfterKey(c: Context, m: Machine, k: seq<byte>, at: nat): Option<Machine>
  {
    if |m.stack| == 0 then None
    else
      match CheckSignature(c, Top(m.stack, 0), k, m.budget)
      case Fails => None
      case Unsigned => Some(Push(m, at, Below(m.stack, 1), []))
      case Signed(left) => Some(Push(m.(budget := left), at, Below(m.stack, 1), TRUE))
  }

  lemma RunsKey(c: Context, s: seq<byte>, m: Machine, k: seq<byte>)
    requires |k| == 32 && Holds(s, m.at, KeyPart(k))
    ensures Exec(c, s, m) == var r := AfterKey(c, m, k, m.at + 34); if r.Some? then Exec(c, s, r.value) else None
  {
    hide Holds, Exec, CheckSignature;
    HoldsParts(s, m.at, PushKey(k), [OP_CHECKSIG]);
    ExecKey(c, s, m, k);
    var m1 := Push(m, m.at + 33, m.stack, k);
    ExecOne(c, s, m1, OP_CHECKSIG);
    if |m.stack| > 0 {
      assert Below(m1.stack, 2) == Below(m.stack, 1);
    }
  }

  lemma AtTheEnd(c: Context, s: seq<byte>, m: Machine)
    requires m.at == |s|
    ensures Exec(c, s, m) == Some(m)
  {
  }

  /** A leaf's last key: the script succeeds exactly when it runs on one item, a
      signature of that key the budget can pay for. */
  lemma LastKey(c: Context, s: seq<byte>, m: Machine, k: seq<byte>)
    requires |k| == 32 && Holds(s, m.at, KeyPart(k)) && m.at + 34 == |s|
    ensures (Exec(c, s, m).Some? && |Exec(c, s, m).value.stack| == 1 && Truth(Exec(c, s, m).value.stack[0]))
            <==> |m.stack| == 1 && |m.stack[0]| > 0 && m.budget >= 50 && c.signed(m.stack[0], k)
  {
    hide Holds, Exec, Truth;
    RunsKey(c, s, m, k);
    SmallNumbers(1, 4);
    var r := AfterKey(c, m, k, m.at + 34);
    if r.Some? {
      AtTheEnd(c, s, r.value);
    }
  }

  // --- the seven leaves ------------------------------------------------------------------------------

  function HashOf(l: Leaf): Option<seq<byte>>
  {
    match l
    case HashLock(h, _) => Some(h)
    case HashLockDelayed(h, _, _) => Some(h)
    case _ => None
  }

  function ExpiryOf(l: Leaf): Option<nat>
  {
    match l
    case Timeout(e, _) => Some(e)
    case TimeoutDelayed(e, _, _) => Some(e)
    case _ => None
  }

  function DelayOf(l: Leaf): Option<nat>
  {
    match l
    case Delayed(d, _) => Some(d)
    case HashLockDelayed(_, d, _) => Some(d)
    case TimeoutDelayed(_, d, _) => Some(d)
    case _ => None
  }

  /** The witness items a leaf consumes. */
  function StackItems(l: Leaf): nat
  {
    if l.Funding? || HashOf(l).Some? then 2 else 1
  }

  predicate SignedBy(c: Context, sig: seq<byte>, key: seq<byte>)
  {
    |sig| > 0 && c.signed(sig, key)
  }

  /** What a leaf demands, in its own terms. */
  predicate Demands(c: Context, l: Leaf, items: seq<seq<byte>>, budget: int)
  {
    && |items| == StackItems(l)
    && (l.Funding? ==> SignedBy(c, items[1], l.k1) && SignedBy(c, items[0], l.k2) && budget >= 100)
    && (!l.Funding? ==>
          && (HashOf(l).Some? ==> c.sha256(items[1]) == HashOf(l).value)
          && (ExpiryOf(l).Some? ==> LockTimeReached(c, ExpiryOf(l).value))
          && (DelayOf(l).Some? ==> SequenceReached(c, DelayOf(l).value))
          && SignedBy(c, items[0], l.key) && budget >= 50)
  }

  /** Each part of a single-key script, held in order. */
  lemma SinglePlaces(s: seq<byte>, hash: Option<seq<byte>>, expiry: Option<nat>, delay: Option<nat>, key: seq<byte>)
    requires LocksFit(expiry, delay) && |key| == 32 && (hash.Some? ==> |hash.value| == 32)
    requires s == SingleScript(hash, expiry, delay, key)
    ensures var a: nat := if hash.Some? then 35 else 0;
            var b: nat := a + if expiry.Some? then |PushNum(expiry.value)| + 2 else 0;
            var d: nat := b + if delay.Some? then |PushNum(delay.value)| + 2 else 0;
            && (hash.Some? ==> Holds(s, 0, HashPart(hash.value)))
            && (expiry.Some? ==> Holds(s, a, PushNum(expiry.value) + [OP_CLTV, OP_DROP]))
            && (delay.Some? ==> Holds(s, b, PushNum(delay.value) + [OP_CSV, OP_DROP]))
            && Holds(s, d, KeyPart(key)) && d + 34 == |s|
  {
    hide Holds, HashPart, KeyPart, PushNum;
    PartLengths(hash, key);
    var head := if hash.Some? then HashPart(hash.value) else [];
    var middle := if expiry.Some? then ExpiryPart(expiry.value) else [];
    var last := if delay.Some? then DelayPart(delay.value) else [];
    HoldsAll(s);
    HoldsParts(s, 0, head, LockPart(expiry, delay) + KeyPart(key));
    HoldsParts(s, |head|, LockPart(expiry, delay), KeyPart(key));
    HoldsParts(s, |head|, middle, last);
  }

  predicate Done(end: Option<Machine>)
  {
    end.Some? && |end.value.stack| == 1 && Truth(end.value.stack[0])
  }

  /** A single-key script runs: hash, expiry, delay, signature. */
  lemma SingleMeans(c: Context, hash: Option<seq<byte>>, expiry: Option<nat>, delay: Option<nat>, key: seq<byte>,
                    items: seq<seq<byte>>, budget: int)
    requires LocksFit(expiry, delay) && |key| == 32 && (hash.Some? ==> |hash.value| == 32)
    ensures Succeeds(c, SingleScript(hash, expiry, delay, key), items, budget) <==>
              && |items| == (if hash.Some? then 2 else 1)
              && (hash.Some? ==> c.sha256(items[1]) == hash.value)
              && (expiry.Some? ==> LockTimeReached(c, expiry.value))
              && (delay.Some? ==> SequenceReached(c, delay.value))
              && SignedBy(c, items[0], key) && budget >= 50
  {
    hide Holds, Exec, HashPart, KeyPart, PushNum, SingleScript, LockTimeReached, SequenceReached, Truth;
    var s := SingleScript(hash, expiry, delay, key);
    SinglePlaces(s, hash, expiry, delay, key);
    var m := Machine(0, items, budget);
    if hash.Some? {
      RunsHash(c, s, m, hash.value);
      if |items| == 0 || c.sha256(Top(items, 0)) != hash.value { return; }
      m := m.(at := 35, stack := Below(items, 1));
    }
    if expiry.Some? {
      RunsLock(c, s, m, expiry.value, OP_CLTV);
      if !LockTimeReached(c, expiry.value) { return; }
      m := m.(at := m.at + |PushNum(expiry.value)| + 2);
    }
    if delay.Some? {
      RunsLock(c, s, m, delay.value, OP_CSV);
      if !SequenceReached(c, delay.value) { return; }
      m := m.(at := m.at + |PushNum(delay.value)| + 2);
    }
    LastKey(c, s, m, key);
  }

  /** The funding leaf runs: two signatures, each in its own slot. */
  lemma FundingMeans(c: Context, s: seq<byte>, a: seq<byte>, b: seq<byte>, items: seq<seq<byte>>, budget: int)
    requires |a| == 32 && |b| == 32
    requires s == KeyPart(a) + (PushKey(b) + [OP_CHECKSIGADD, OP_2, OP_NUMEQUAL])
    ensures Succeeds(c, s, items, budget) <==>
              && |items| == 2 && budget >= 100
              && SignedBy(c, items[1], a) && SignedBy(c, items[0], b)
  {
    hide Holds, Exec, KeyPart, PushKey, Truth, EncodeNumber, Number;
    FundingPlaces(s, a, b);
    var m := Machine(0, items, budget);
    RunsKey(c, s, m, a);
    var r := AfterKey(c, m, a, 34);
    if r.None? { return; }
    ExecKey(c, s, r.value, b);
    var m1 := Push(r.value, 67, r.value.stack, b);
    SmallNumbers(1, 4);
    SmallNumbers(2, 4);
    FundingTail(c, s, m1);
  }

  lemma FundingPlaces(s: seq<byte>, a: seq<byte>, b: seq<byte>)
    requires |a| == 32 && |b| == 32
    requires s == KeyPart(a) + (PushKey(b) + [OP_CHECKSIGADD, OP_2, OP_NUMEQUAL])
    ensures |s| == 70 && Holds(s, 0, KeyPart(a)) && Holds(s, 34, PushKey(b))
    ensures s[67] == OP_CHECKSIGADD && s[68] == OP_2 && s[69] == OP_NUMEQUAL
  {
    var tail: seq<byte> := [OP_CHECKSIGADD, OP_2, OP_NUMEQUAL];
    HoldsAll(s);
    HoldsParts(s, 0, KeyPart(a), PushKey(b) + tail);
    HoldsParts(s, 34, PushKey(b), tail);
  }

  /** The count after two keys is compared with two. */
  lemma FundingTail(c: Context, s: seq<byte>, m: Machine)
    requires |s| == 70 && m.at == 67
    requires s[67] == OP_CHECKSIGADD && s[68] == OP_2 && s[69] == OP_NUMEQUAL
    requires |m.stack| >= 2 && |Top(m.stack, 0)| == 32 && (Top(m.stack, 1) == [] || Top(m.stack, 1) == TRUE)
    ensures Done(Exec(c, s, m)) <==>
              && |m.stack| == 3 && m.budget >= 50
              && Top(m.stack, 1) == TRUE && SignedBy(c, m.stack[0], Top(m.stack, 0))
  {
    hide Exec, Truth, EncodeNumber, Number, Holds;
    SmallNumbers(1, 4);
    SmallNumbers(2, 4);
    ExecHere(c, s, m);
    if |m.stack| < 3 || CheckSignature(c, Top(m.stack, 2), Top(m.stack, 0), m.budget).Fails? { return; }
    var m1 := Step(c, s, m).value;
    ExecHere(c, s, m1);
    var m2 := Step(c, s, m1).value;
    ExecHere(c, s, m2);
    var m3 := Step(c, s, m2).value;
    AtTheEnd(c, s, m3);
  }

  lemma ExecHere(c: Context, s: seq<byte>, m: Machine)
    requires m.at < |s|
    ensures Exec(c, s, m) == var next := Step(c, s, m); if next.Some? then Exec(c, s, next.value) else None
  {
    hide Step;
  }

  /** A leaf's bytes mean exactly what the leaf demands: for every witness and
      every budget, running the script succeeds if and only if the items are the
      ones the template consumes and meet its conditions. */
  lemma LeafMeans(valid: KeyCheck, c: Context, l: Leaf, items: seq<seq<byte>>, budget: int)
    requires WellFormed(valid, l)
    ensures Succeeds(c, ToScript(valid, l), items, budget) <==> Demands(c, l, items, budget)
  {
    if l.Funding? {
      hide Succeeds, SignedBy;
      FundingMeans(c, ToScript(valid, l), l.k1, l.k2, items, budget);
    } else {
      hide Succeeds, LockTimeReached, SequenceReached, SingleScript, ToScript, Assemble, SignedBy;
      var hash, expiry, delay, key := LeafParts(valid, l);
      PartsOf(l, hash, expiry, delay, key);
      SingleMeans(c, hash, expiry, delay, key, items, budget);
    }
  }

  lemma PartsOf(l: Leaf, hash: Option<seq<byte>>, expiry: Option<nat>, delay: Option<nat>, key: seq<byte>)
    requires Assemble(hash, expiry, delay, key) == Some(l)
    ensures !l.Funding? && l.key == key && HashOf(l) == hash && ExpiryOf(l) == expiry && DelayOf(l) == delay
  {
  }
}
