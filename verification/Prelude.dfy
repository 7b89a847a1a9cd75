/** Shared vocabulary: optional values and results, the machine widths the
    chain computes with, and sums over finite maps. */
module Prelude {

  datatype Option<+T> = None | Some(value: T) {
    predicate IsFailure() { None? }

    function PropagateFailure<U>(): Option<U>
      requires None?
    {
      None
    }

    function Extract(): T
      requires Some?
    {
      value
    }
  }

  datatype Result<+T, +E> = Ok(value: T) | Err(error: E)

  const U16_MAX := 0xffff
  const U32_MAX := 0xffff_ffff
  const U64_MAX := 0xffff_ffff_ffff_ffff

  type byte = b: int | 0 <= b < 256
  type u32 = n: nat | n <= U32_MAX
  type u64 = n: nat | n <= U64_MAX

  function Min(a: int, b: int): int { if a <= b then a else b }
  function Max(a: int, b: int): int { if a <= b then b else a }

  /** What a saturating `u64` addition chain leaves of a true sum. */
  function Saturate(n: nat): u64 { if n <= U64_MAX then n else U64_MAX }

  /** The number `b` writes, least significant byte first. */
  function LittleEndian(b: seq<byte>): nat
  {
    if |b| == 0 then 0 else b[0] + 256 * LittleEndian(b[1..])
  }

  /** Bytes of one length are named by the number they write. */
  lemma {:induction false} LittleEndianNames(a: seq<byte>, b: seq<byte>)
    requires |a| == |b| && LittleEndian(a) == LittleEndian(b)
    ensures a == b
  {
    if |a| > 0 {
      assert a[0] == LittleEndian(a) % 256 && b[0] == LittleEndian(b) % 256;
      LittleEndianNames(a[1..], b[1..]);
      assert a == [a[0]] + a[1..] && b == [b[0]] + b[1..];
    }
  }

  /** `s` holds `piece` from `at`. */
  predicate Holds(s: seq<byte>, at: nat, piece: seq<byte>)
  {
    at + |piece| <= |s| && s[at..at + |piece|] == piece
  }

  /** What bytes hold at a place, they hold piece after piece. */
  lemma HoldsParts(s: seq<byte>, at: nat, a: seq<byte>, b: seq<byte>)
    ensures Holds(s, at, a + b) <==> Holds(s, at, a) && Holds(s, at + |a|, b)
  {
    if Holds(s, at, a + b) {
      assert s[at..at + |a|] == s[at..at + |a + b|][..|a|] == a;
      assert s[at + |a|..at + |a| + |b|] == s[at..at + |a + b|][|a|..] == b;
    }
    if Holds(s, at, a) && Holds(s, at + |a|, b) {
      assert s[at..at + |a + b|] == s[at..at + |a|] + s[at + |a|..at + |a| + |b|];
    }
  }

  lemma HoldsAll(s: seq<byte>)
    ensures Holds(s, 0, s)
  {
  }

  lemma HoldsNothing(s: seq<byte>, at: nat)
    requires at <= |s|
    ensures Holds(s, at, [])
  {
  }

  lemma HoldsWhole(s: seq<byte>, piece: seq<byte>)
    requires Holds(s, 0, piece) && |piece| == |s|
    ensures s == piece
  {
  }

  lemma FirstByte(s: seq<byte>, piece: seq<byte>)
    requires Holds(s, 0, piece) && |piece| > 0
    ensures |s| > 0 && s[0] == piece[0]
  {
    assert s[0..|piece|][0] == piece[0];
  }

  /** The sum of a finite map's values. */
  ghost function MapSum<K>(m: map<K, nat>): nat
  {
    if m == map[] then 0
    else
      var k :| k in m;
      m[k] + MapSum(m - {k})
  }

  lemma {:induction false} MapSumRemove<K>(m: map<K, nat>, k: K)
    requires k in m
    ensures MapSum(m) == m[k] + MapSum(m - {k})
    decreases |m|
  {
    var j :| j in m && MapSum(m) == m[j] + MapSum(m - {j});
    if j != k {
      MapSumRemove(m - {j}, k);
      MapSumRemove(m - {k}, j);
      assert m - {j} - {k} == m - {k} - {j};
    }
  }

  /** Writing a key adds its value to what the other keys hold. */
  lemma MapSumUpdate<K>(m: map<K, nat>, k: K, v: nat)
    ensures MapSum(m[k := v]) == MapSum(m - {k}) + v
  {
    MapSumRemove(m[k := v], k);
    assert m[k := v] - {k} == m - {k};
  }

  lemma UnionRemove<K>(m: map<K, nat>, n: map<K, nat>, k: K)
    requires k in n && k !in m
    ensures (m + n) - {k} == m + (n - {k})
    ensures (m + n)[k] == n[k]
    ensures |n - {k}| < |n|
  {
    assert (n - {k}).Keys == n.Keys - {k};
    assert |n.Keys| == |n|;
    assert |(n - {k}).Keys| == |n - {k}|;
  }

  /** A map and another over disjoint keys sum to the sum of their union. */
  lemma {:induction false} MapSumUnion<K>(m: map<K, nat>, n: map<K, nat>)
    requires m.Keys !! n.Keys
    ensures MapSum(m + n) == MapSum(m) + MapSum(n)
    decreases |n|
  {
    if n == map[] {
      assert m + n == m;
    } else {
      var k :| k in n;
      assert k in n.Keys;
      UnionRemove(m, n, k);
      MapSumUnion(m, n - {k});
      MapSumRemove(n, k);
      MapSumRemove(m + n, k);
    }
  }

  /** Setting a set of keys aside splits the sum. */
  lemma MapSumSplit<K>(m: map<K, nat>, s: set<K>)
    ensures MapSum(m) == MapSum(map k | k in m && k in s :: m[k]) + MapSum(m - s)
  {
    var inside := map k | k in m && k in s :: m[k];
    assert m == (m - s) + inside;
    MapSumUnion(m - s, inside);
  }

  lemma {:induction false} MapSumBound<K>(m: map<K, nat>, k: K)
    requires k in m
    ensures m[k] <= MapSum(m)
  {
    MapSumRemove(m, k);
  }

  /** Overwriting one map with another never sums to more than both. */
  lemma MapSumMerge<K>(m: map<K, nat>, n: map<K, nat>)
    ensures MapSum(m + n) <= MapSum(m) + MapSum(n)
  {
    assert m + n == (m - n.Keys) + n;
    MapSumUnion(m - n.Keys, n);
    MapSumSplit(m, n.Keys);
  }

  lemma {:induction false} MapSumZero<K>(m: map<K, nat>)
    requires forall k :: k in m ==> m[k] == 0
    ensures MapSum(m) == 0
    decreases |m|
  {
    if m != map[] {
      var k :| k in m;
      MapSumRemove(m, k);
      MapSumZero(m - {k});
    }
  }

  lemma {:induction false} MapSumPositive<K>(m: map<K, nat>) returns (k: K)
    requires MapSum(m) > 0
    ensures k in m && m[k] > 0
  {
    if forall j :: j in m ==> m[j] == 0 {
      MapSumZero(m);
      assert false;
    }
    k :| k in m && m[k] > 0;
  }
}
