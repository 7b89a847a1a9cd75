/** The seven tapscript leaves of a payment channel, as bytes
    (sidestr-core/src/channel.rs): a printer, a parser that accepts exactly what
    the printer writes, and the cursor the parser reads with. Whether 32 bytes
    are a point's x coordinate is the curve's business, a parameter here. */
module Channel {
  import opened Prelude

  type KeyCheck = seq<byte> -> bool

  datatype Leaf =
    | Funding(k1: seq<byte>, k2: seq<byte>)
    | KeyOnly(key: seq<byte>)
    | Delayed(delay: nat, key: seq<byte>)
    | HashLock(hash: seq<byte>, key: seq<byte>)
    | HashLockDelayed(hash: seq<byte>, delay: nat, key: seq<byte>)
    | Timeout(expiry: nat, key: seq<byte>)
    | TimeoutDelayed(expiry: nat, delay: nat, key: seq<byte>)

  const LOCKTIME_THRESHOLD := 500_000_000

  const OP_0: byte := 0x00
  const OP_2: byte := 0x52
  const OP_DROP: byte := 0x75
  const OP_EQUALVERIFY: byte := 0x88
  const OP_NUMEQUAL: byte := 0x9c
  const OP_SHA256: byte := 0xa8
  const OP_CHECKSIG: byte := 0xac
  const OP_CLTV: byte := 0xb1
  const OP_CSV: byte := 0xb2
  const OP_CHECKSIGADD: byte := 0xba

  predicate ValidKey(valid: KeyCheck, k: seq<byte>) { |k| == 32 && valid(k) }

  /** The values a leaf may carry: valid keys, a 32-byte hash, a delay that is a
      16-bit block count, an expiry that is a height. */
  predicate WellFormed(valid: KeyCheck, l: Leaf)
  {
    match l
    case Funding(a, b) => ValidKey(valid, a) && ValidKey(valid, b)
    case KeyOnly(k) => ValidKey(valid, k)
    case Delayed(d, k) => d <= U16_MAX && ValidKey(valid, k)
    case HashLock(h, k) => |h| == 32 && ValidKey(valid, k)
    case HashLockDelayed(h, d, k) => |h| == 32 && d <= U16_MAX && ValidKey(valid, k)
    case Timeout(e, k) => e < LOCKTIME_THRESHOLD && ValidKey(valid, k)
    case TimeoutDelayed(e, d, k) => e < LOCKTIME_THRESHOLD && d <= U16_MAX && ValidKey(valid, k)
  }

  // --- printing -------------------------------------------------------------------------------

  function MinimalBytes(n: nat): seq<byte>
  {
    if n == 0 then [] else [n % 256] + MinimalBytes(n / 256)
  }

  /** The minimal script push of a number. */
  function PushNum(n: nat): seq<byte>
    requires n <= U32_MAX
  {
    if n == 0 then [OP_0]
    else if n <= 16 then [0x50 + n]
    else
      BytesOf(n, 4);
      var b := MinimalBytes(n);
      var signed := if b[|b| - 1] >= 0x80 then b + [0] else b;
      [|signed|] + signed
  }

  function PushKey(k: seq<byte>): seq<byte> { [0x20] + k }

  function HashPart(h: seq<byte>): seq<byte> { [OP_SHA256, 0x20] + h + [OP_EQUALVERIFY] }
  function ExpiryPart(e: nat): seq<byte>
    requires e <= U32_MAX
  {
    PushNum(e) + [OP_CLTV, OP_DROP]
  }
  function DelayPart(d: nat): seq<byte>
    requires d <= U32_MAX
  {
    PushNum(d) + [OP_CSV, OP_DROP]
  }
  function KeyPart(k: seq<byte>): seq<byte> { PushKey(k) + [OP_CHECKSIG] }

  /** The leaf's script. */
  function ToScript(valid: KeyCheck, l: Leaf): seq<byte>
    requires WellFormed(valid, l)
  {
    match l
    case Funding(a, b) => KeyPart(a) + (PushKey(b) + [OP_CHECKSIGADD, OP_2, OP_NUMEQUAL])
    case KeyOnly(k) => KeyPart(k)
    case Delayed(d, k) => DelayPart(d) + KeyPart(k)
    case HashLock(h, k) => HashPart(h) + KeyPart(k)
    case HashLockDelayed(h, d, k) => HashPart(h) + (DelayPart(d) + KeyPart(k))
    case Timeout(e, k) => ExpiryPart(e) + KeyPart(k)
    case TimeoutDelayed(e, d, k) => ExpiryPart(e) + (DelayPart(d) + KeyPart(k))
  }

  // --- numbers --------------------------------------------------------------------------------

  function Pow256(k: nat): nat { if k == 0 then 1 else 256 * Pow256(k - 1) }

  lemma {:induction false} BytesOf(n: nat, k: nat)
    requires n < Pow256(k)
    ensures |MinimalBytes(n)| <= k
    ensures n > 0 ==> |MinimalBytes(n)| > 0 && MinimalBytes(n)[|MinimalBytes(n)| - 1] > 0
    ensures LittleEndian(MinimalBytes(n)) == n
  {
    if n > 0 {
      BytesOf(n / 256, k - 1);
      assert MinimalBytes(n)[1..] == MinimalBytes(n / 256);
    }
  }

  lemma {:induction false} TrailingZero(b: seq<byte>)
    ensures LittleEndian(b + [0]) == LittleEndian(b)
  {
    if |b| > 0 {
      TrailingZero(b[1..]);
      assert (b + [0])[1..] == b[1..] + [0];
    } else {
      assert (b + [0])[1..] == [];
    }
  }

  /** What a number's push looks like from its first byte. */
  lemma PushNumShape(n: nat)
    requires n <= U32_MAX
    ensures 1 <= |PushNum(n)| <= 6
    ensures n == 0 ==> PushNum(n) == [OP_0]
    ensures 1 <= n <= 16 ==> PushNum(n) == [0x50 + n]
    ensures n > 16 ==>
              var b := PushNum(n)[1..];
              && PushNum(n)[0] == |b| && 1 <= |b| <= 5 && b[|b| - 1] < 0x80 && LittleEndian(b) == n
    ensures PushNum(n)[0] != 0x20
  {
    if n > 16 {
      assert n < Pow256(4);
      BytesOf(n, 4);
      TrailingZero(MinimalBytes(n));
      var b := MinimalBytes(n);
      var signed := if b[|b| - 1] >= 0x80 then b + [0] else b;
      assert PushNum(n)[1..] == signed;
    }
  }

  // --- reading --------------------------------------------------------------------------------

  function ReadOp(s: seq<byte>, at: nat, op: byte): Option<nat>
  {
    if at < |s| && s[at] == op then Some(at + 1) else None
  }

  function Peek(s: seq<byte>, at: nat): Option<byte> { if at < |s| then Some(s[at]) else None }

  function ReadPush32(s: seq<byte>, at: nat): Option<(seq<byte>, nat)>
  {
    var a :- ReadOp(s, at, 0x20);
    if a + 32 <= |s| then Some((s[a..a + 32], a + 32)) else None
  }

  function ReadKey(valid: KeyCheck, s: seq<byte>, at: nat): Option<(seq<byte>, nat)>
  {
    var r :- ReadPush32(s, at);
    if valid(r.0) then Some(r) else None
  }

  /** A number in exactly the printer's encoding. */
  function ReadNum(s: seq<byte>, at: nat): Option<(nat, nat)>
  {
    var first :- Peek(s, at);
    if first == OP_0 then Some((0, at + 1))
    else if 0x51 <= first <= 0x60 then Some((first - 0x50, at + 1))
    else if !(1 <= first <= 5) || at + 1 + first > |s| then None
    else
      var b := s[at + 1..at + 1 + first];
      if b[|b| - 1] >= 0x80 then None
      else
        var n := LittleEndian(b);
        if n > U32_MAX || !Holds(s, at, PushNum(n)) then None
        else Some((n, at + |PushNum(n)|))
  }

  function ReadHash(s: seq<byte>): Option<(Option<seq<byte>>, nat)>
  {
    var a := ReadOp(s, 0, OP_SHA256);
    if a.None? then Some((None, 0))
    else
      var h :- ReadPush32(s, a.value);
      var c :- ReadOp(s, h.1, OP_EQUALVERIFY);
      Some((Some(h.0), c))
  }

  datatype Locks = Locks(expiry: Option<nat>, delay: Option<nat>, at: nat)

  function ReadDelay(s: seq<byte>, expiry: Option<nat>, n: nat, at: nat): Option<Locks>
  {
    var a :- ReadOp(s, at, OP_CSV);
    var c :- ReadOp(s, a, OP_DROP);
    Some(Locks(expiry, Some(n), c))
  }

  /** The numbers between the hash and the key; the opcode behind each tells whether it
      is an absolute height or a relative one, and both may stand, in that order. */
  function ReadLocks(s: seq<byte>, at: nat): Option<Locks>
  {
    if Peek(s, at) == Some(0x20) then Some(Locks(None, None, at))
    else
      var n :- ReadNum(s, at);
      var a := ReadOp(s, n.1, OP_CLTV);
      if a.None? then ReadDelay(s, None, n.0, n.1)
      else
        var c :- ReadOp(s, a.value, OP_DROP);
        if Peek(s, c) == Some(0x20) then Some(Locks(Some(n.0), None, c))
        else
          var d :- ReadNum(s, c);
          ReadDelay(s, Some(n.0), d.0, d.1)
  }

  function ReadFunding(valid: KeyCheck, s: seq<byte>): Option<Leaf>
  {
    var a :- ReadKey(valid, s, 0);
    var p :- ReadOp(s, a.1, OP_CHECKSIG);
    var b :- ReadKey(valid, s, p);
    var q :- ReadOp(s, b.1, OP_CHECKSIGADD);
    var t :- ReadOp(s, q, OP_2);
    var u :- ReadOp(s, t, OP_NUMEQUAL);
    if u == |s| then Some(Funding(a.0, b.0)) else None
  }

  /** Six of the seven leaves are told apart by which of the three parts they have;
      one combination is no leaf, and neither is a lock out of its range. */
  function Assemble(hash: Option<seq<byte>>, expiry: Option<nat>, delay: Option<nat>, key: seq<byte>): Option<Leaf>
  {
    if expiry.Some? && expiry.value >= LOCKTIME_THRESHOLD then None
    else if delay.Some? && delay.value > U16_MAX then None
    else
      match (hash, expiry, delay)
      case (None, None, None) => Some(KeyOnly(key))
      case (None, None, Some(d)) => Some(Delayed(d, key))
      case (Some(h), None, None) => Some(HashLock(h, key))
      case (Some(h), None, Some(d)) => Some(HashLockDelayed(h, d, key))
      case (None, Some(e), None) => Some(Timeout(e, key))
      case (None, Some(e), Some(d)) => Some(TimeoutDelayed(e, d, key))
      case (Some(_), Some(_), _) => None
  }

  function ReadSingle(valid: KeyCheck, s: seq<byte>): Option<Leaf>
  {
    var h :- ReadHash(s);
    var l :- ReadLocks(s, h.1);
    var k :- ReadKey(valid, s, l.at);
    var end :- ReadOp(s, k.1, OP_CHECKSIG);
    if end != |s| then None else Assemble(h.0, l.expiry, l.delay, k.0)
  }

  predicate FundingShape(s: seq<byte>) { |s| == 70 && s[0] == 0x20 && s[33] == OP_CHECKSIG }

  /** Read a script as a leaf: the funding leaf has a length and a shape of its own. */
  function Parse(valid: KeyCheck, s: seq<byte>): Option<Leaf>
  {
    if FundingShape(s) then ReadFunding(valid, s) else ReadSingle(valid, s)
  }

  // --- reading back what was printed -------------------------------------------------------------

  lemma HoldsOne(s: seq<byte>, at: nat, op: byte)
    ensures Holds(s, at, [op]) <==> ReadOp(s, at, op) == Some(at + 1)
  {
    if at < |s| {
      assert s[at..at + 1] == [s[at]];
    }
  }

  lemma ReadsPush32(s: seq<byte>, at: nat, k: seq<byte>)
    requires |k| == 32
    ensures Holds(s, at, PushKey(k)) <==> ReadPush32(s, at) == Some((k, at + 33))
  {
    HoldsParts(s, at, [0x20], k);
    HoldsOne(s, at, 0x20);
  }

  lemma ReadsKeyPart(valid: KeyCheck, s: seq<byte>, at: nat, k: seq<byte>)
    requires ValidKey(valid, k)
    ensures Holds(s, at, KeyPart(k)) <==>
              ReadKey(valid, s, at) == Some((k, at + 33)) && ReadOp(s, at + 33, OP_CHECKSIG) == Some(at + 34)
  {
    HoldsParts(s, at, PushKey(k), [OP_CHECKSIG]);
    HoldsOne(s, at + 33, OP_CHECKSIG);
    ReadsPush32(s, at, k);
  }

  /** A printed number reads back as itself, whatever follows it. */
  lemma ReadsNum(s: seq<byte>, at: nat, n: nat)
    requires n <= U32_MAX && Holds(s, at, PushNum(n))
    ensures ReadNum(s, at) == Some((n, at + |PushNum(n)|))
    ensures Peek(s, at) != Some(0x20)
  {
    hide PushNum;
    PushNumShape(n);
    var p := PushNum(n);
    assert s[at] == s[at..at + |p|][0] == p[0];
    if n > 16 {
      assert s[at + 1..at + 1 + p[0]] == s[at..at + |p|][1..] == p[1..];
    }
  }

  /** A number that reads is in exactly the printed form. */
  lemma NumWasPrinted(s: seq<byte>, at: nat)
    requires ReadNum(s, at).Some?
    ensures ReadNum(s, at).value.0 <= U32_MAX
    ensures Holds(s, at, PushNum(ReadNum(s, at).value.0))
    ensures ReadNum(s, at).value.1 == at + |PushNum(ReadNum(s, at).value.0)|
  {
    hide PushNum;
    var n := ReadNum(s, at).value.0;
    if s[at] == OP_0 || 0x51 <= s[at] <= 0x60 {
      PushNumShape(n);
      HoldsOne(s, at, s[at]);
    }
  }

  lemma HoldsTwo(s: seq<byte>, at: nat, a: seq<byte>, op: byte, op2: byte)
    ensures Holds(s, at, a + [op, op2]) <==>
              Holds(s, at, a) && ReadOp(s, at + |a|, op) == Some(at + |a| + 1)
              && ReadOp(s, at + |a| + 1, op2) == Some(at + |a| + 2)
  {
    assert [op, op2] == [op] + [op2];
    HoldsParts(s, at, a, [op, op2]);
    HoldsParts(s, at + |a|, [op], [op2]);
    HoldsOne(s, at + |a|, op);
    HoldsOne(s, at + |a| + 1, op2);
  }

  lemma ReadsHashPart(s: seq<byte>, h: seq<byte>)
    requires |h| == 32
    ensures Holds(s, 0, HashPart(h)) <==> ReadHash(s) == Some((Some(h), 35))
  {
    assert HashPart(h) == ([OP_SHA256] + PushKey(h)) + [OP_EQUALVERIFY];
    HoldsParts(s, 0, [OP_SHA256] + PushKey(h), [OP_EQUALVERIFY]);
    HoldsParts(s, 0, [OP_SHA256], PushKey(h));
    HoldsOne(s, 0, OP_SHA256);
    ReadsPush32(s, 1, h);
    HoldsOne(s, 34, OP_EQUALVERIFY);
  }

  /** No hash part is read where a number or a key starts the script. */
  lemma NoHashPart(s: seq<byte>)
    requires |s| > 0 && s[0] != OP_SHA256
    ensures ReadHash(s) == Some((None, 0))
  {
  }

  lemma ReadsDelayPart(s: seq<byte>, at: nat, expiry: Option<nat>, d: nat)
    requires d <= U32_MAX && Holds(s, at, DelayPart(d))
    ensures Peek(s, at) != Some(0x20)
    ensures ReadNum(s, at) == Some((d, at + |PushNum(d)|))
    ensures ReadOp(s, at + |PushNum(d)|, OP_CLTV).None?
    ensures ReadDelay(s, expiry, d, at + |PushNum(d)|) == Some(Locks(expiry, Some(d), at + |DelayPart(d)|))
  {
    hide PushNum, ReadNum, Holds;
    HoldsTwo(s, at, PushNum(d), OP_CSV, OP_DROP);
    ReadsNum(s, at, d);
  }

  lemma ReadsExpiryPart(s: seq<byte>, at: nat, e: nat)
    requires e <= U32_MAX && Holds(s, at, ExpiryPart(e))
    ensures Peek(s, at) != Some(0x20)
    ensures ReadNum(s, at) == Some((e, at + |PushNum(e)|))
    ensures ReadOp(s, at + |PushNum(e)|, OP_CLTV) == Some(at + |PushNum(e)| + 1)
    ensures ReadOp(s, at + |PushNum(e)| + 1, OP_DROP) == Some(at + |ExpiryPart(e)|)
  {
    hide PushNum, ReadNum, Holds;
    HoldsTwo(s, at, PushNum(e), OP_CLTV, OP_DROP);
    ReadsNum(s, at, e);
  }

  lemma KeyPartStarts(s: seq<byte>, at: nat, k: seq<byte>)
    requires Holds(s, at, KeyPart(k))
    ensures Peek(s, at) == Some(0x20)
  {
    HoldsParts(s, at, PushKey(k), [OP_CHECKSIG]);
    HoldsParts(s, at, [0x20], k);
    HoldsOne(s, at, 0x20);
  }

  predicate LocksFit(expiry: Option<nat>, delay: Option<nat>)
  {
    (expiry.Some? ==> expiry.value <= U32_MAX) && (delay.Some? ==> delay.value <= U32_MAX)
  }

  /** The locks of a leaf, as the printer lays them out. */
  function LockPart(expiry: Option<nat>, delay: Option<nat>): seq<byte>
    requires LocksFit(expiry, delay)
  {
    (if expiry.Some? then ExpiryPart(expiry.value) else []) + (if delay.Some? then DelayPart(delay.value) else [])
  }

  /** Locks laid out before a key read back as themselves. */
  lemma ReadsLocks(s: seq<byte>, at: nat, expiry: Option<nat>, delay: Option<nat>, k: seq<byte>)
    requires LocksFit(expiry, delay)
    requires Holds(s, at, LockPart(expiry, delay) + KeyPart(k))
    ensures ReadLocks(s, at) == Some(Locks(expiry, delay, at + |LockPart(expiry, delay)|))
    ensures Holds(s, at + |LockPart(expiry, delay)|, KeyPart(k))
    ensures expiry.Some? || delay.Some? ==> Peek(s, at) != Some(0x20)
  {
    hide PushNum, ReadNum, Holds, KeyPart, ExpiryPart, DelayPart, Peek, ReadOp, ReadDelay;
    var parts := LockPart(expiry, delay);
    HoldsParts(s, at, parts, KeyPart(k));
    KeyPartStarts(s, at + |parts|, k);
    HoldsParts(s, at, if expiry.Some? then ExpiryPart(expiry.value) else [], if delay.Some? then DelayPart(delay.value) else []);
    if expiry.Some? {
      ReadsExpiryPart(s, at, expiry.value);
      ExpiryLength(expiry.value);
      if delay.Some? {
        ReadsDelayPart(s, at + |ExpiryPart(expiry.value)|, expiry, delay.value);
        DelayLength(delay.value);
      }
    } else if delay.Some? {
      ReadsDelayPart(s, at, None, delay.value);
      DelayLength(delay.value);
    }
  }

  lemma ExpiryLength(e: nat)
    requires e <= U32_MAX
    ensures |ExpiryPart(e)| == |PushNum(e)| + 2
  {
  }

  lemma DelayLength(d: nat)
    requires d <= U32_MAX
    ensures |DelayPart(d)| == |PushNum(d)| + 2
  {
  }

  /** A single-key leaf: an optional hash, its locks, its key. */
  function SingleScript(hash: Option<seq<byte>>, expiry: Option<nat>, delay: Option<nat>, key: seq<byte>): seq<byte>
    requires LocksFit(expiry, delay)
  {
    (if hash.Some? then HashPart(hash.value) else []) + (LockPart(expiry, delay) + KeyPart(key))
  }

  /** Every leaf but the funding one is such a script with parts that assemble to it. */
  lemma LeafParts(valid: KeyCheck, l: Leaf) returns (hash: Option<seq<byte>>, expiry: Option<nat>, delay: Option<nat>, key: seq<byte>)
    requires WellFormed(valid, l) && !l.Funding?
    ensures LocksFit(expiry, delay) && ValidKey(valid, key) && (hash.Some? ==> |hash.value| == 32)
    ensures ToScript(valid, l) == SingleScript(hash, expiry, delay, key)
    ensures Assemble(hash, expiry, delay, key) == Some(l)
  {
    hide KeyPart, HashPart, ExpiryPart, DelayPart;
    match l
    case KeyOnly(k) =>
      hash, expiry, delay, key := None, None, None, k;
    case Delayed(d, k) =>
      hash, expiry, delay, key := None, None, Some(d), k;
    case HashLock(h, k) =>
      hash, expiry, delay, key := Some(h), None, None, k;
    case HashLockDelayed(h, d, k) =>
      hash, expiry, delay, key := Some(h), None, Some(d), k;
    case Timeout(e, k) =>
      hash, expiry, delay, key := None, Some(e), None, k;
    case TimeoutDelayed(e, d, k) =>
      hash, expiry, delay, key := None, Some(e), Some(d), k;
      assert ExpiryPart(e) + (DelayPart(d) + KeyPart(k)) == ExpiryPart(e) + DelayPart(d) + KeyPart(k);
  }

  /** Parsing a single-key script gives back its parts' leaf. */
  lemma ReadsSingle(valid: KeyCheck, hash: Option<seq<byte>>, expiry: Option<nat>, delay: Option<nat>, key: seq<byte>)
    requires LocksFit(expiry, delay) && ValidKey(valid, key) && (hash.Some? ==> |hash.value| == 32)
    ensures Parse(valid, SingleScript(hash, expiry, delay, key)) == Assemble(hash, expiry, delay, key)
  {
    hide PushNum, ReadNum, Holds, KeyPart, ExpiryPart, DelayPart, HashPart, LockPart, ReadDelay, ReadFunding, Assemble, ReadLocks, ReadHash,
      ReadKey, LocksFit, FundingShape;
    var s := SingleScript(hash, expiry, delay, key);
    var head := if hash.Some? then HashPart(hash.value) else [];
    var tail := LockPart(expiry, delay) + KeyPart(key);
    HoldsAll(s);
    HoldsParts(s, 0, head, tail);
    ReadsLocks(s, |head|, expiry, delay, key);
    ReadsKeyPart(valid, s, |head| + |LockPart(expiry, delay)|, key);
    PartLengths(hash, key);
    if hash.Some? {
      ReadsHashPart(s, hash.value);
      StartsWithHash(s, hash.value);
    } else {
      StartsWithNoHash(s, expiry, delay, key);
      NoHashPart(s);
    }
  }

  lemma PartLengths(hash: Option<seq<byte>>, key: seq<byte>)
    ensures |KeyPart(key)| == |key| + 2
    ensures hash.Some? ==> |HashPart(hash.value)| == |hash.value| + 3
  {
  }

  lemma StartsWithHash(s: seq<byte>, h: seq<byte>)
    requires Holds(s, 0, HashPart(h))
    ensures !FundingShape(s)
  {
    FirstByte(s, HashPart(h));
  }

  /** A script without a hash part starts with a number or a key, never with the
      hash opcode, and never has the funding leaf's shape. */
  lemma StartsWithNoHash(s: seq<byte>, expiry: Option<nat>, delay: Option<nat>, key: seq<byte>)
    requires LocksFit(expiry, delay) && |key| == 32
    requires s == SingleScript(None, expiry, delay, key)
    ensures |s| > 0 && s[0] != OP_SHA256 && !FundingShape(s)
  {
    hide PushNum;
    if expiry.Some? {
      PushNumShape(expiry.value);
      assert s[0] == PushNum(expiry.value)[0];
    } else if delay.Some? {
      PushNumShape(delay.value);
      assert s[0] == PushNum(delay.value)[0];
    }
  }

  /** Every well-formed leaf's script parses to that leaf. */
  lemma ParsePrinted(valid: KeyCheck, l: Leaf)
    requires WellFormed(valid, l)
    ensures Parse(valid, ToScript(valid, l)) == Some(l)
  {
    if l.Funding? {
      PrintedFunding(valid, l.k1, l.k2);
    } else {
      hide Parse, ToScript, SingleScript, Assemble, WellFormed;
      var hash, expiry, delay, key := LeafParts(valid, l);
      ReadsSingle(valid, hash, expiry, delay, key);
    }
  }

  lemma PrintedFunding(valid: KeyCheck, a: seq<byte>, b: seq<byte>)
    requires ValidKey(valid, a) && ValidKey(valid, b)
    ensures Parse(valid, ToScript(valid, Funding(a, b))) == Some(Funding(a, b))
  {
    hide Holds, ReadKey;
    var s := ToScript(valid, Funding(a, b));
    HoldsAll(s);
    FundingHolds(valid, s, a, b);
  }

  /** A script holds the funding leaf's bytes exactly when they read so. */
  lemma FundingHolds(valid: KeyCheck, s: seq<byte>, a: seq<byte>, b: seq<byte>)
    requires ValidKey(valid, a) && ValidKey(valid, b)
    ensures Holds(s, 0, ToScript(valid, Funding(a, b))) <==>
              && ReadKey(valid, s, 0) == Some((a, 33)) && ReadOp(s, 33, OP_CHECKSIG) == Some(34)
              && ReadKey(valid, s, 34) == Some((b, 67)) && ReadOp(s, 67, OP_CHECKSIGADD) == Some(68)
              && ReadOp(s, 68, OP_2) == Some(69) && ReadOp(s, 69, OP_NUMEQUAL) == Some(70)
  {
    hide Holds;
    var tail: seq<byte> := [OP_CHECKSIGADD, OP_2, OP_NUMEQUAL];
    assert tail == [OP_CHECKSIGADD] + [OP_2, OP_NUMEQUAL];
    HoldsParts(s, 0, KeyPart(a), PushKey(b) + tail);
    HoldsParts(s, 34, PushKey(b), tail);
    HoldsParts(s, 67, [OP_CHECKSIGADD], [OP_2, OP_NUMEQUAL]);
    assert [OP_2, OP_NUMEQUAL] == [OP_2] + [OP_NUMEQUAL];
    HoldsParts(s, 68, [OP_2], [OP_NUMEQUAL]);
    HoldsOne(s, 67, OP_CHECKSIGADD);
    HoldsOne(s, 68, OP_2);
    HoldsOne(s, 69, OP_NUMEQUAL);
    ReadsKeyPart(valid, s, 0, a);
    ReadsPush32(s, 34, b);
  }

  // --- only printed scripts parse ------------------------------------------------------------------

  lemma HashWasPrinted(s: seq<byte>)
    requires ReadHash(s).Some?
    ensures var h := ReadHash(s).value;
            && (h.0.Some? ==> |h.0.value| == 32)
            && Holds(s, 0, if h.0.Some? then HashPart(h.0.value) else [])
            && h.1 == |if h.0.Some? then HashPart(h.0.value) else []|
  {
    hide Holds;
    if ReadHash(s).value.0.Some? {
      ReadsHashPart(s, ReadHash(s).value.0.value);
    } else {
      HoldsNothing(s, 0);
    }
  }

  lemma DelayWasPrinted(s: seq<byte>, at: nat, expiry: Option<nat>)
    requires ReadNum(s, at).Some?
    requires ReadDelay(s, expiry, ReadNum(s, at).value.0, ReadNum(s, at).value.1).Some?
    ensures var n, l := ReadNum(s, at).value, ReadDelay(s, expiry, ReadNum(s, at).value.0, ReadNum(s, at).value.1).value;
            n.0 <= U32_MAX && l == Locks(expiry, Some(n.0), at + |DelayPart(n.0)|) && Holds(s, at, DelayPart(n.0))
  {
    hide PushNum, ReadNum, Holds;
    NumWasPrinted(s, at);
    var n := ReadNum(s, at).value.0;
    HoldsTwo(s, at, PushNum(n), OP_CSV, OP_DROP);
  }

  lemma LocksWerePrinted(s: seq<byte>, at: nat)
    requires at <= |s| && ReadLocks(s, at).Some?
    ensures var l := ReadLocks(s, at).value;
            && LocksFit(l.expiry, l.delay)
            && l.at == at + |LockPart(l.expiry, l.delay)|
            && Holds(s, at, LockPart(l.expiry, l.delay))
  {
    hide PushNum, ReadNum, Holds, Peek, DelayPart, ReadDelay;
    if Peek(s, at) == Some(0x20) {
      HoldsNothing(s, at);
    } else {
      NumWasPrinted(s, at);
      var n := ReadNum(s, at).value;
      if ReadOp(s, n.1, OP_CLTV).Some? {
        HoldsTwo(s, at, PushNum(n.0), OP_CLTV, OP_DROP);
        var c := at + |ExpiryPart(n.0)|;
        if Peek(s, c) == Some(0x20) {
          assert LockPart(Some(n.0), None) == ExpiryPart(n.0);
        } else {
          DelayWasPrinted(s, c, Some(n.0));
          HoldsParts(s, at, ExpiryPart(n.0), DelayPart(ReadNum(s, c).value.0));
        }
      } else {
        DelayWasPrinted(s, at, None);
        assert LockPart(None, Some(n.0)) == DelayPart(n.0);
      }
    }
  }

  lemma AssembledParts(valid: KeyCheck, hash: Option<seq<byte>>, expiry: Option<nat>, delay: Option<nat>, key: seq<byte>)
    requires LocksFit(expiry, delay) && ValidKey(valid, key) && (hash.Some? ==> |hash.value| == 32)
    requires Assemble(hash, expiry, delay, key).Some?
    ensures WellFormed(valid, Assemble(hash, expiry, delay, key).value)
    ensures ToScript(valid, Assemble(hash, expiry, delay, key).value) == SingleScript(hash, expiry, delay, key)
  {
    hide KeyPart, HashPart, ExpiryPart, DelayPart;
    if expiry.Some? && delay.Some? {
      var e, d := expiry.value, delay.value;
      assert ExpiryPart(e) + (DelayPart(d) + KeyPart(key)) == ExpiryPart(e) + DelayPart(d) + KeyPart(key);
    }
  }

  /** A script that parses is the parsed leaf's script, byte for byte. */
  lemma ParsedWasPrinted(valid: KeyCheck, s: seq<byte>)
    requires Parse(valid, s).Some?
    ensures WellFormed(valid, Parse(valid, s).value)
    ensures ToScript(valid, Parse(valid, s).value) == s
  {
    if FundingShape(s) {
      FundingWasPrinted(valid, s);
    } else {
      SingleWasPrinted(valid, s);
    }
  }

  lemma FundingWasPrinted(valid: KeyCheck, s: seq<byte>)
    requires ReadFunding(valid, s).Some?
    ensures WellFormed(valid, ReadFunding(valid, s).value)
    ensures ToScript(valid, ReadFunding(valid, s).value) == s
  {
    hide Holds;
    var l := ReadFunding(valid, s).value;
    FundingHolds(valid, s, l.k1, l.k2);
    HoldsWhole(s, ToScript(valid, l));
  }

  lemma SingleWasPrinted(valid: KeyCheck, s: seq<byte>)
    requires ReadSingle(valid, s).Some?
    ensures WellFormed(valid, ReadSingle(valid, s).value)
    ensures ToScript(valid, ReadSingle(valid, s).value) == s
  {
    hide PushNum, ReadNum, Holds, KeyPart, HashPart, LockPart, Assemble, ReadLocks, ReadHash, LocksFit, WellFormed, ToScript;
    var h := ReadHash(s).value;
    HashWasPrinted(s);
    var l := ReadLocks(s, h.1).value;
    HashWithin(s);
    LocksWerePrinted(s, h.1);
    var k := ReadKey(valid, s, l.at).value;
    ReadsKeyPart(valid, s, l.at, k.0);
    PartLengths(None, k.0);
    var head := if h.0.Some? then HashPart(h.0.value) else [];
    HoldsParts(s, h.1, LockPart(l.expiry, l.delay), KeyPart(k.0));
    HoldsParts(s, 0, head, LockPart(l.expiry, l.delay) + KeyPart(k.0));
    HoldsWhole(s, SingleScript(h.0, l.expiry, l.delay, k.0));
    AssembledParts(valid, h.0, l.expiry, l.delay, k.0);
  }

  lemma HashWithin(s: seq<byte>)
    requires ReadHash(s).Some?
    ensures ReadHash(s).value.1 <= |s|
  {
  }

  /** The codec is exact both ways: a script parses to a leaf exactly when it is
      that leaf's script. */
  lemma CodecExact(valid: KeyCheck, s: seq<byte>, l: Leaf)
    ensures Parse(valid, s) == Some(l) <==> WellFormed(valid, l) && ToScript(valid, l) == s
  {
    hide Parse, ToScript, WellFormed;
    if Parse(valid, s) == Some(l) {
      ParsedWasPrinted(valid, s);
    }
    if WellFormed(valid, l) && ToScript(valid, l) == s {
      ParsePrinted(valid, l);
    }
  }

  /** No script reads as two templates. */
  lemma ScriptsDistinct(valid: KeyCheck, l: Leaf, m: Leaf)
    requires WellFormed(valid, l) && WellFormed(valid, m) && ToScript(valid, l) == ToScript(valid, m)
    ensures l == m
  {
    hide Parse, ToScript, WellFormed;
    ParsePrinted(valid, l);
    ParsePrinted(valid, m);
  }

  lemma PushNumBytes(n: nat)
    requires 16 < n <= U32_MAX
    ensures 1 <= |MinimalBytes(n)| <= 4
    ensures MinimalBytes(0) == []
  {
    assert n < Pow256(4);
    BytesOf(n, 4);
  }

  lemma MinimalStep(n: nat, v: nat, done: seq<byte>)
    requires v > 0 && done + MinimalBytes(v) == MinimalBytes(n)
    ensures done + [v % 256] + MinimalBytes(v / 256) == MinimalBytes(n)
  {
  }

  // --- the printer and the parser as they run -------------------------------------------------------

  /** Append a number's push to a buffer, byte by byte. */
  method AppendNum(out: seq<byte>, n: nat) returns (next: seq<byte>)
    requires n <= U32_MAX
    ensures next == out + PushNum(n)
  {
    hide MinimalBytes;
    if n == 0 { return out + [OP_0]; }
    if n <= 16 { return out + [0x50 + n]; }
    var signed: seq<byte> := [];
    var v: nat := n;
    while v > 0
      invariant signed + MinimalBytes(v) == MinimalBytes(n)
    {
      MinimalStep(n, v, signed);
      signed := signed + [v % 256];
      v := v / 256;
    }
    PushNumBytes(n);
    assert signed == MinimalBytes(n);
    if signed[|signed| - 1] >= 0x80 {
      signed := signed + [0];
    }
    var length: byte := |signed|;
    next := out + [length] + signed;
    assert next == out + ([length] + signed);
  }

  /** A script, piece after piece in the order they are appended. */
  lemma ScriptParts(valid: KeyCheck, l: Leaf)
    requires WellFormed(valid, l)
    ensures l.Funding? ==>
              ToScript(valid, l) == KeyPart(l.k1) + PushKey(l.k2) + [OP_CHECKSIGADD, OP_2, OP_NUMEQUAL]
    ensures l.KeyOnly? ==> ToScript(valid, l) == [] + KeyPart(l.key)
    ensures l.Delayed? ==> ToScript(valid, l) == [] + PushNum(l.delay) + [OP_CSV, OP_DROP] + KeyPart(l.key)
    ensures l.HashLock? ==> ToScript(valid, l) == [] + HashPart(l.hash) + KeyPart(l.key)
    ensures l.HashLockDelayed? ==>
              ToScript(valid, l) == [] + HashPart(l.hash) + PushNum(l.delay) + [OP_CSV, OP_DROP] + KeyPart(l.key)
    ensures l.Timeout? ==> ToScript(valid, l) == [] + PushNum(l.expiry) + [OP_CLTV, OP_DROP] + KeyPart(l.key)
    ensures l.TimeoutDelayed? ==>
              ToScript(valid, l)
              == [] + PushNum(l.expiry) + [OP_CLTV, OP_DROP] + PushNum(l.delay) + [OP_CSV, OP_DROP] + KeyPart(l.key)
  {
    hide PushNum, KeyPart, HashPart;
  }

  /** Write a leaf's script. */
  method Write(valid: KeyCheck, l: Leaf) returns (s: seq<byte>)
    requires WellFormed(valid, l)
    ensures s == ToScript(valid, l)
    ensures Parse(valid, s) == Some(l)
  {
    hide PushNum, Parse, KeyPart, HashPart, ToScript;
    ParsePrinted(valid, l);
    ScriptParts(valid, l);
    if l.Funding? {
      return KeyPart(l.k1) + PushKey(l.k2) + [OP_CHECKSIGADD, OP_2, OP_NUMEQUAL];
    }
    s := [];
    if l.HashLock? || l.HashLockDelayed? {
      s := s + HashPart(l.hash);
    }
    if l.Timeout? || l.TimeoutDelayed? {
      s := AppendNum(s, l.expiry);
      s := s + [OP_CLTV, OP_DROP];
    }
    if l.Delayed? || l.HashLockDelayed? || l.TimeoutDelayed? {
      s := AppendNum(s, l.delay);
      s := s + [OP_CSV, OP_DROP];
    }
    s := s + KeyPart(l.key);
  }

  /** A cursor over a leaf's bytes. */
  class Reader {
    const bytes: seq<byte>
    var at: nat

    constructor (bytes: seq<byte>)
      ensures this.bytes == bytes && at == 0
    {
      this.bytes, at := bytes, 0;
    }

    method Op(op: byte) returns (ok: bool)
      modifies this
      ensures ok <==> ReadOp(bytes, old(at), op).Some?
      ensures at == if ok then ReadOp(bytes, old(at), op).value else old(at)
    {
      ok := at < |bytes| && bytes[at] == op;
      if ok { at := at + 1; }
    }

    method Push32() returns (r: Option<seq<byte>>)
      modifies this
      ensures r.Some? <==> ReadPush32(bytes, old(at)).Some?
      ensures r.Some? ==> ReadPush32(bytes, old(at)) == Some((r.value, at))
    {
      var ok := Op(0x20);
      if !ok || at + 32 > |bytes| { return None; }
      r := Some(bytes[at..at + 32]);
      at := at + 32;
    }

    method Key(valid: KeyCheck) returns (r: Option<seq<byte>>)
      modifies this
      ensures r.Some? <==> ReadKey(valid, bytes, old(at)).Some?
      ensures r.Some? ==> ReadKey(valid, bytes, old(at)) == Some((r.value, at))
    {
      r := Push32();
      if r.Some? && !valid(r.value) { r := None; }
    }

    /** A number, by decoding it and comparing with how it would be printed. */
    method Num() returns (r: Option<nat>)
      modifies this
      ensures r.Some? <==> ReadNum(bytes, old(at)).Some?
      ensures r.Some? ==> ReadNum(bytes, old(at)) == Some((r.value, at))
    {
      hide PushNum, LittleEndian;
      if at >= |bytes| { return None; }
      var first := bytes[at];
      if first == OP_0 || 0x51 <= first <= 0x60 {
        at := at + 1;
        return Some(if first == OP_0 then 0 else first - 0x50);
      }
      if !(1 <= first <= 5) || at + 1 + first > |bytes| { return None; }
      var b := bytes[at + 1..at + 1 + first];
      if b[|b| - 1] >= 0x80 { return None; }
      var n := LittleEndian(b);
      if n > U32_MAX { return None; }
      var canon := AppendNum([], n);
      assert canon == PushNum(n);
      if at + |canon| > |bytes| || bytes[at..at + |canon|] != canon { return None; }
      at := at + |canon|;
      return Some(n);
    }
  }

  /** Read the funding leaf's six pieces, in order. */
  method RunFunding(valid: KeyCheck, s: seq<byte>) returns (l: Option<Leaf>)
    ensures l == ReadFunding(valid, s)
  {
    var r := new Reader(s);
    var k1 := r.Key(valid);
    if k1.None? { return None; }
    var ok := r.Op(OP_CHECKSIG);
    if !ok { return None; }
    var k2 := r.Key(valid);
    if k2.None? { return None; }
    ok := r.Op(OP_CHECKSIGADD);
    if !ok { return None; }
    ok := r.Op(OP_2);
    if !ok { return None; }
    ok := r.Op(OP_NUMEQUAL);
    if !ok || r.at != |s| { return None; }
    return Some(Funding(k1.value, k2.value));
  }

  /** Read a number that `CSV DROP` must follow. */
  method RunDelayTail(r: Reader, ghost expiry: Option<nat>, n: nat) returns (ok: bool)
    modifies r
    ensures ok <==> ReadDelay(r.bytes, expiry, n, old(r.at)).Some?
    ensures ok ==> ReadDelay(r.bytes, expiry, n, old(r.at)) == Some(Locks(expiry, Some(n), r.at))
  {
    ok := r.Op(OP_CSV);
    if ok { ok := r.Op(OP_DROP); }
  }

  method RunLocks(r: Reader) returns (l: Option<Locks>)
    modifies r
    ensures l == ReadLocks(r.bytes, old(r.at))
    ensures l.Some? ==> r.at == l.value.at
  {
    hide ReadNum, ReadDelay;
    if Peek(r.bytes, r.at) == Some(0x20) { return Some(Locks(None, None, r.at)); }
    var n := r.Num();
    if n.None? { return None; }
    var cltv := r.Op(OP_CLTV);
    if !cltv {
      var ok := RunDelayTail(r, None, n.value);
      return if ok then Some(Locks(None, n, r.at)) else None;
    }
    var dropped := r.Op(OP_DROP);
    if !dropped { return None; }
    if Peek(r.bytes, r.at) == Some(0x20) { return Some(Locks(n, None, r.at)); }
    var d := r.Num();
    if d.None? { return None; }
    var ok := RunDelayTail(r, n, d.value);
    return if ok then Some(Locks(n, d, r.at)) else None;
  }

  /** The template `s` is, with its values, or nothing: what it returns is the
      one leaf whose script is `s`. */
  method Run(valid: KeyCheck, s: seq<byte>) returns (l: Option<Leaf>)
    ensures l == Parse(valid, s)
    ensures l.Some? ==> WellFormed(valid, l.value) && ToScript(valid, l.value) == s
    ensures l.None? ==> forall m :: WellFormed(valid, m) ==> ToScript(valid, m) != s
  {
    hide ReadNum, ReadLocks, ReadFunding, Assemble, ToScript, WellFormed, ReadPush32, ReadKey;
    forall m | WellFormed(valid, m) && ToScript(valid, m) == s
      ensures Parse(valid, s) == Some(m)
    {
      ParsePrinted(valid, m);
    }
    if Parse(valid, s).Some? {
      ParsedWasPrinted(valid, s);
    }
    if FundingShape(s) {
      l := RunFunding(valid, s);
      return;
    }
    var r := new Reader(s);
    var hash: Option<seq<byte>> := None;
    var hashed := r.Op(OP_SHA256);
    if hashed {
      hash := r.Push32();
      if hash.None? { return None; }
      var verified := r.Op(OP_EQUALVERIFY);
      if !verified { return None; }
    }
    var locks := RunLocks(r);
    if locks.None? { return None; }
    var key := r.Key(valid);
    if key.None? { return None; }
    var signed := r.Op(OP_CHECKSIG);
    if !signed || r.at != |s| { return None; }
    return Assemble(hash, locks.value.expiry, locks.value.delay, key.value);
  }
}
