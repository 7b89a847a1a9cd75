/** The strict witness codec of a block's solution (sidestr-core/src/block.rs):
    a count, then each item behind its length, lengths in their one minimal
    form. Decoding is proved to be the exact inverse of encoding. */
module WitnessCodec {
  import opened Prelude

  type Items = seq<seq<byte>>

  const MAX_WITNESS_ITEMS := 256

  /** A number from its bytes, least significant first. */
  function Word(a: nat, b: nat, c: nat, d: nat): nat { a + 0x100 * (b + 0x100 * (c + 0x100 * d)) }

  /** A length, in one, three or five bytes; more than 32 bits are cut off. */
  function CompactSize(n: nat): seq<byte>
  {
    if n <= 0xfc then [n]
    else if n <= 0xffff then [0xfd, n % 0x100, n / 0x100]
    else [0xfe, n % 0x100, n / 0x100 % 0x100, n / 0x100 / 0x100 % 0x100, n / 0x100 / 0x100 / 0x100 % 0x100]
  }

  /** A length at `i` and where it ends: minimal, and not the eight-byte form. */
  function ReadCompact(b: seq<byte>, i: nat): Option<(nat, nat)>
  {
    if i >= |b| then None
    else if b[i] <= 0xfc then Some((b[i], i + 1))
    else if b[i] == 0xfd then
      if i + 3 > |b| then None
      else
        var n := Word(b[i + 1], b[i + 2], 0, 0);
        if n >= 0xfd then Some((n, i + 3)) else None
    else if b[i] == 0xfe then
      if i + 5 > |b| then None
      else
        var n := Word(b[i + 1], b[i + 2], b[i + 3], b[i + 4]);
        if n >= 0x1_0000 then Some((n, i + 5)) else None
    else None
  }

  /** Splitting a number into bytes and joining them again. */
  lemma LowByte(a: byte, rest: nat)
    ensures (a + 0x100 * rest) % 0x100 == a && (a + 0x100 * rest) / 0x100 == rest
  {
  }

  lemma WordBytes(a: byte, b: byte, c: byte, d: byte)
    ensures var n := Word(a, b, c, d);
            && n <= U32_MAX && n % 0x100 == a && n / 0x100 % 0x100 == b && n / 0x100 / 0x100 % 0x100 == c
            && n / 0x100 / 0x100 / 0x100 % 0x100 == d
            && (c == 0 && d == 0 ==> n <= 0xffff && n / 0x100 == b)
  {
    LowByte(a, b + 0x100 * (c + 0x100 * d));
    LowByte(b, c + 0x100 * d);
    LowByte(c, d);
  }

  /** A length's encoding reads back as that length. */
  lemma CompactReads(b: seq<byte>, i: nat, n: nat)
    requires n <= U32_MAX && Holds(b, i, CompactSize(n))
    ensures ReadCompact(b, i) == Some((n, i + |CompactSize(n)|))
  {
    var piece := CompactSize(n);
    forall k | 0 <= k < |piece|
      ensures b[i + k] == piece[k]
    {
      assert b[i..i + |piece|][k] == piece[k];
    }
    assert b[i + 0] == piece[0];
    if n > 0xfc {
      assert b[i + 1] == piece[1] && b[i + 2] == piece[2];
    }
    if n > 0xffff {
      assert b[i + 3] == piece[3] && b[i + 4] == piece[4];
    }
  }

  /** What reads as a length is that length's encoding. */
  lemma CompactRead(b: seq<byte>, i: nat)
    requires ReadCompact(b, i).Some?
    ensures var r := ReadCompact(b, i).value;
            && r.0 <= U32_MAX && Holds(b, i, CompactSize(r.0)) && r.1 == i + |CompactSize(r.0)|
  {
    hide Word;
    var n := ReadCompact(b, i).value.0;
    if b[i] <= 0xfc {
      assert b[i..i + 1] == CompactSize(n);
    } else if b[i] == 0xfd {
      WordBytes(b[i + 1], b[i + 2], 0, 0);
      assert b[i..i + 3] == CompactSize(n);
    } else {
      WordBytes(b[i + 1], b[i + 2], b[i + 3], b[i + 4]);
      assert b[i..i + 5] == CompactSize(n);
    }
  }

  // --- the items ------------------------------------------------------------------------------

  function EncodeItems(items: Items): seq<byte>
  {
    if |items| == 0 then [] else CompactSize(|items[0]|) + (items[0] + EncodeItems(items[1..]))
  }

  function Encode(items: Items): seq<byte>
  {
    CompactSize(|items|) + EncodeItems(items)
  }

  /** `n` items read from `i`, and where they end. */
  function DecodeItems(b: seq<byte>, i: nat, n: nat): Option<(Items, nat)>
    decreases n
  {
    if n == 0 then Some(([], i))
    else
      var size :- ReadCompact(b, i);
      var end := size.1 + size.0;
      if end > |b| then None
      else
        var rest :- DecodeItems(b, end, n - 1);
        Some(([b[size.1..end]] + rest.0, rest.1))
  }

  /** The items of a serialised witness, or nothing. */
  function Decode(b: seq<byte>): Option<Items>
  {
    var count :- ReadCompact(b, 0);
    if count.0 > MAX_WITNESS_ITEMS then None
    else
      var r :- DecodeItems(b, count.1, count.0);
      if r.1 == |b| then Some(r.0) else None
  }

  /** Whether every item's length fits its encoding. */
  predicate ItemsFit(items: Items)
  {
    forall k :: 0 <= k < |items| ==> |items[k]| <= U32_MAX
  }

  lemma {:induction false} ItemsReadBack(b: seq<byte>, i: nat, items: Items)
    requires i <= |b| && ItemsFit(items) && Holds(b, i, EncodeItems(items))
    ensures DecodeItems(b, i, |items|) == Some((items, i + |EncodeItems(items)|))
    decreases |items|
  {
    hide ReadCompact, CompactSize;
    if |items| > 0 {
      var size, first, rest := CompactSize(|items[0]|), items[0], EncodeItems(items[1..]);
      HoldsParts(b, i, size, first + rest);
      HoldsParts(b, i + |size|, first, rest);
      CompactReads(b, i, |first|);
      ItemsReadBack(b, i + |size| + |first|, items[1..]);
      assert items == [first] + items[1..];
    }
  }

  lemma {:induction false} ItemsWereEncoded(b: seq<byte>, i: nat, n: nat)
    requires i <= |b| && DecodeItems(b, i, n).Some?
    ensures var r := DecodeItems(b, i, n).value;
            && |r.0| == n && ItemsFit(r.0) && r.1 == i + |EncodeItems(r.0)| && Holds(b, i, EncodeItems(r.0))
    decreases n
  {
    hide ReadCompact, CompactSize, Holds;
    var items := DecodeItems(b, i, n).value.0;
    if n == 0 {
      HoldsNothing(b, i);
    } else {
      var size := ReadCompact(b, i).value;
      var end := size.1 + size.0;
      CompactRead(b, i);
      ItemsWereEncoded(b, end, n - 1);
      assert items[1..] == DecodeItems(b, end, n - 1).value.0;
      SliceHolds(b, size.1, end);
      HoldsParts(b, size.1, items[0], EncodeItems(items[1..]));
      HoldsParts(b, i, CompactSize(|items[0]|), items[0] + EncodeItems(items[1..]));
    }
  }

  lemma SliceHolds(b: seq<byte>, i: nat, end: nat)
    requires i <= end <= |b|
    ensures Holds(b, i, b[i..end])
  {
  }

  /** Bytes that decode re-encode to exactly those bytes. */
  lemma DecodedWasEncoded(b: seq<byte>)
    requires Decode(b).Some?
    ensures Encode(Decode(b).value) == b
    ensures |Decode(b).value| <= MAX_WITNESS_ITEMS && ItemsFit(Decode(b).value)
  {
    hide ReadCompact, CompactSize, Holds;
    var count := ReadCompact(b, 0).value;
    CompactRead(b, 0);
    CompactWithin(b, 0);
    ItemsWereEncoded(b, count.1, count.0);
    var items := Decode(b).value;
    HoldsParts(b, 0, CompactSize(|items|), EncodeItems(items));
    HoldsWhole(b, Encode(items));
  }

  lemma CompactWithin(b: seq<byte>, i: nat)
    requires ReadCompact(b, i).Some?
    ensures ReadCompact(b, i).value.1 <= |b|
  {
  }

  lemma EncodedDecodes(items: Items)
    requires |items| <= MAX_WITNESS_ITEMS && ItemsFit(items)
    ensures Decode(Encode(items)) == Some(items)
  {
    hide ReadCompact, CompactSize, Holds;
    var b := Encode(items);
    HoldsAll(b);
    HoldsParts(b, 0, CompactSize(|items|), EncodeItems(items));
    CompactReads(b, 0, |items|);
    ItemsReadBack(b, |CompactSize(|items|)|, items);
  }

  /** The codec is a bijection: bytes decode to some items exactly when they are
      those items' encoding and the items are within the two limits. */
  lemma WitnessCodecExact(b: seq<byte>, items: Items)
    ensures Decode(b) == Some(items) <==> b == Encode(items) && |items| <= MAX_WITNESS_ITEMS && ItemsFit(items)
  {
    hide Decode, Encode;
    if Decode(b).Some? {
      DecodedWasEncoded(b);
    }
    if |items| <= MAX_WITNESS_ITEMS && ItemsFit(items) {
      EncodedDecodes(items);
    }
  }

  /** No two witnesses within the limits share their bytes. */
  lemma EncodingsDistinct(a: Items, b: Items)
    requires |a| <= MAX_WITNESS_ITEMS && ItemsFit(a) && |b| <= MAX_WITNESS_ITEMS && ItemsFit(b)
    requires Encode(a) == Encode(b)
    ensures a == b
  {
    hide Encode;
    EncodedDecodes(a);
    EncodedDecodes(b);
  }

  // --- the codec as it runs ---------------------------------------------------------------------

  method EncodeWitness(items: Items) returns (out: seq<byte>)
    ensures out == Encode(items)
  {
    hide CompactSize;
    out := CompactSize(|items|);
    for k := 0 to |items|
      invariant out + EncodeItems(items[k..]) == Encode(items)
    {
      assert items[k..][1..] == items[k + 1..];
      out := out + CompactSize(|items[k]|) + items[k];
      assert out + EncodeItems(items[k + 1..]) == Encode(items);
    }
  }

  /** Decode strictly; whatever it returns is the one witness these bytes encode. */
  method DecodeWitness(b: seq<byte>) returns (r: Option<Items>)
    ensures r == Decode(b)
    ensures r.Some? <==> exists items :: |items| <= MAX_WITNESS_ITEMS && ItemsFit(items) && Encode(items) == b
    ensures r.Some? ==> Encode(r.value) == b
  {
    hide ReadCompact, Encode;
    if items :| |items| <= MAX_WITNESS_ITEMS && ItemsFit(items) && Encode(items) == b {
      EncodedDecodes(items);
    }
    if Decode(b).Some? {
      DecodedWasEncoded(b);
    }
    var count := ReadCompact(b, 0);
    if count.None? { return None; }
    var n: nat, i: nat := count.value.0, count.value.1;
    if n > MAX_WITNESS_ITEMS { return None; }
    var items: Items := [];
    ghost var whole := DecodeItems(b, i, n);
    assert whole.Some? ==> items + whole.value.0 == whole.value.0;
    while n > 0
      invariant whole == Prepended(items, DecodeItems(b, i, n))
    {
      var size := ReadCompact(b, i);
      if size.None? { return None; }
      var end := size.value.1 + size.value.0;
      if end > |b| { return None; }
      PrependedStep(b, i, n, items);
      items := items + [b[size.value.1..end]];
      i, n := end, n - 1;
    }
    assert items + [] == items;
    return if i == |b| then Some(items) else None;
  }

  function Prepended(items: Items, r: Option<(Items, nat)>): Option<(Items, nat)>
  {
    if r.Some? then Some((items + r.value.0, r.value.1)) else None
  }

  lemma PrependedStep(b: seq<byte>, i: nat, n: nat, items: Items)
    requires n > 0 && ReadCompact(b, i).Some? && ReadCompact(b, i).value.1 + ReadCompact(b, i).value.0 <= |b|
    ensures var size := ReadCompact(b, i).value;
            Prepended(items, DecodeItems(b, i, n))
            == Prepended(items + [b[size.1..size.1 + size.0]], DecodeItems(b, size.1 + size.0, n - 1))
  {
    hide ReadCompact;
    var size := ReadCompact(b, i).value;
    var end := size.1 + size.0;
    var rest := DecodeItems(b, end, n - 1);
    if rest.Some? {
      assert items + ([b[size.1..end]] + rest.value.0) == items + [b[size.1..end]] + rest.value.0;
    }
  }
}
