/** The height a coinbase pushes: written by the builder, read strictly by the
    node and leniently by the height rule (sidestr-core/src/block.rs,
    sidestr-core/src/rules.rs). */
module Heights {
  import opened Prelude
  import opened Transactions
  import opened Channel
  import Chain
  import Sealing

  /** The height's bytes as one length-prefixed push, or `OP_0` for height 0. */
  function HeightPush(height: u32): seq<byte>
  {
    if height == 0 then [0]
    else
      BytesOf(height, 4);
      var b := MinimalBytes(height);
      var signed := if b[|b| - 1] >= 0x80 then b + [0] else b;
      [|signed|] + signed
  }

  /** The builder's loop over the height's bytes. */
  method PushHeight(height: u32) returns (push: seq<byte>)
    ensures push == HeightPush(height)
  {
    hide MinimalBytes;
    if height == 0 { return [0]; }
    var signed: seq<byte> := [];
    var n: nat := height;
    while n > 0
      invariant signed + MinimalBytes(n) == MinimalBytes(height)
    {
      MinimalStep(height, n, signed);
      signed := signed + [n % 256];
      n := n / 256;
    }
    HeightBytes(height);
    assert signed == MinimalBytes(height);
    if signed[|signed| - 1] >= 0x80 { signed := signed + [0]; }
    var length: byte := |signed|;
    return [length] + signed;
  }

  lemma HeightBytes(height: u32)
    requires height > 0
    ensures 1 <= |MinimalBytes(height)| <= 4 && MinimalBytes(height)[|MinimalBytes(height)| - 1] > 0
    ensures LittleEndian(MinimalBytes(height)) == height
    ensures MinimalBytes(0) == []
  {
    assert height < Pow256(4);
    BytesOf(height, 4);
  }

  /** What the push is made of: a length, then that many bytes, minimal and
      non-negative. */
  lemma HeightPushShape(height: u32)
    requires height > 0
    ensures var p := HeightPush(height);
            && 2 <= |p| <= 6 && p[0] == |p| - 1
            && p[|p| - 1] < 0x80 && (|p| > 2 && p[|p| - 1] == 0 ==> p[|p| - 2] >= 0x80)
            && LittleEndian(p[1..]) == height
  {
    hide MinimalBytes, LittleEndian;
    HeightBytes(height);
    TrailingZero(MinimalBytes(height));
    var b := MinimalBytes(height);
    var signed := if b[|b| - 1] >= 0x80 then b + [0] else b;
    assert HeightPush(height)[1..] == signed;
  }

  /** Every height a builder pushes, before any marker, is read back by the node;
      and, from height 1, by the height rule. Height 0 is read by the node alone. */
  lemma HeightReadsBack(coinbase: Transaction, height: u32, marker: seq<byte>)
    requires |coinbase.inputs| > 0 && coinbase.inputs[0].scriptSig == HeightPush(height) + marker
    ensures Sealing.CoinbaseHeight(Contents(coinbase)) == Some(height)
    ensures height > 0 ==> Chain.Bip34Height(coinbase) == Some(height)
    ensures height == 0 ==> Chain.Bip34Height(coinbase) == None
  {
    hide HeightPush, LittleEndian;
    var script, p := coinbase.inputs[0].scriptSig, HeightPush(height);
    if height > 0 {
      HeightPushShape(height);
      assert script[1..1 + p[0]] == p[1..];
    } else {
      ZeroPush();
    }
  }

  lemma ZeroPush()
    ensures HeightPush(0) == [0]
  {
  }

  /** The two readers agree: a coinbase height the node accepts is the height the
      rule reads, except exactly where the script opens with `OP_0`, which the
      node reads as height 0 and the rule does not read at all. */
  lemma HeightReadersAgree(coinbase: Transaction)
    requires Sealing.CoinbaseHeight(Contents(coinbase)).Some?
    ensures Chain.Bip34Height(coinbase) == Sealing.CoinbaseHeight(Contents(coinbase))
            <==> coinbase.inputs[0].scriptSig[0] != 0
  {
    hide LittleEndian;
  }
}
