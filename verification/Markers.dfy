/** The `OP_RETURN` markers the chain ledger reads: burns in any transaction
    and claims in a coinbase (sidestr-core/src/marker.rs). All grammars here
    are ASCII, so they are stated on bytes. */
module Markers {
  import opened Prelude
  import opened Transactions

  /** `OP_RETURN` with one push of `data`, the length prefix as short as it can be. */
  function OpReturn(data: seq<byte>): Script
  {
    var n := |data|;
    if n <= 75 then [0x6a, n] + data
    else if n <= 255 then [0x6a, 0x4c, n] + data
    else if n <= 65535 then [0x6a, 0x4d, n % 256, n / 256] + data
    else
      [0x6a, 0x4e, n % 256, n / 256 % 256, n / 0x1_0000 % 256, n / 0x100_0000 % 256] + data
  }

  /** The data of an output that is `OP_RETURN` and exactly one push. */
  function OpReturnData(spk: Script): Option<seq<byte>>
  {
    if |spk| < 2 || spk[0] != 0x6a then None
    else if spk[1] == 0x4c then
      if |spk| < 3 || spk[2] != |spk| - 3 then None else Some(spk[3..])
    else if spk[1] != |spk| - 2 then None
    else Some(spk[2..])
  }

  /** Writer and reader agree up to the one length byte: data of 255 bytes or fewer
      comes back, and what the wider pushes hold is never read. */
  lemma OpReturnRoundTrip(data: seq<byte>)
    ensures OpReturnData(OpReturn(data)) == if |data| <= 255 then Some(data) else None
  {
    var s := OpReturn(data);
    if |data| <= 75 {
      assert s[2..] == data;
    } else if |data| <= 255 {
      assert s[3..] == data;
    }
  }

  /** What is read as a marker, exactly: `OP_RETURN`, then the length in one byte, a
      `OP_PUSHDATA1` before it or not, then that many bytes; 76 bytes only behind it. */
  lemma OpReturnDataExact(spk: Script, data: seq<byte>)
    ensures OpReturnData(spk) == Some(data) <==>
              && |data| <= 255
              && (spk == [0x6a, 0x4c, |data|] + data || (|data| != 76 && spk == [0x6a, |data|] + data))
  {
    if OpReturnData(spk) == Some(data) {
      if spk[1] == 0x4c {
        assert spk == [0x6a, 0x4c, |data|] + data;
      } else {
        assert spk == [0x6a, |data|] + data;
      }
    }
    if |data| <= 255 {
      assert ([0x6a, 0x4c, |data|] + data)[3..] == data;
      assert ([0x6a, |data|] + data)[2..] == data;
    }
  }

  const BOM: seq<byte> := [0xef, 0xbb, 0xbf]

  function WithoutBom(d: seq<byte>): seq<byte>
  {
    if BOM <= d then d[3..] else d
  }

  predicate LowerHex(s: seq<byte>)
  {
    forall i :: 0 <= i < |s| ==> 48 <= s[i] <= 57 || 97 <= s[i] <= 102
  }

  predicate Digits(s: seq<byte>)
  {
    forall i :: 0 <= i < |s| ==> 48 <= s[i] <= 57
  }

  function DecimalValue(s: seq<byte>): nat
    requires Digits(s)
  {
    if |s| == 0 then 0 else DecimalValue(s[..|s| - 1]) * 10 + (s[|s| - 1] - 48)
  }

  // --- burns -------------------------------------------------------------------

  /** `pegout:` */
  const PEGOUT: seq<byte> := [112, 101, 103, 111, 117, 116, 58]

  predicate LooksLikePegout(spk: Script)
  {
    var d := OpReturnData(spk);
    d.Some? && PEGOUT <= WithoutBom(d.value)
  }

  /** The parent script a burn names: 2 to 40 bytes of lower hex. */
  function ParsePegout(spk: Script): Option<seq<byte>>
  {
    if !LooksLikePegout(spk) then None
    else
      var s := WithoutBom(OpReturnData(spk).value)[|PEGOUT|..];
      if |s| % 2 == 0 && 4 <= |s| <= 80 && LowerHex(s) then Some(s) else None
  }

  /** ASCII capitals brought down; every other byte as it is. */
  function Lower(s: seq<byte>): seq<byte>
  {
    seq<byte>(|s|, i requires 0 <= i < |s| => if 65 <= s[i] <= 90 then s[i] + 32 else s[i])
  }

  /** Hex digits of either case. */
  predicate Hex(s: seq<byte>)
  {
    forall i :: 0 <= i < |s| ==> 48 <= s[i] <= 57 || 97 <= s[i] <= 102 || 65 <= s[i] <= 70
  }

  lemma LowerOfHex(s: seq<byte>)
    ensures LowerHex(Lower(s)) <==> Hex(s)
  {
    if LowerHex(Lower(s)) {
      forall i | 0 <= i < |s|
        ensures 48 <= s[i] <= 57 || 97 <= s[i] <= 102 || 65 <= s[i] <= 70
      {
        assert 48 <= Lower(s)[i] <= 57 || 97 <= Lower(s)[i] <= 102;
      }
    }
  }

  function PegoutMarker(hex: seq<byte>): Script { OpReturn(PEGOUT + Lower(hex)) }

  /** What a burn names is read back, in lower case, exactly when it is the hex of
      2 to 40 bytes in either case. Anything else no longer than a marker can be
      still looks like a burn, so the burn rule refuses its block. */
  lemma PegoutRoundTrip(hex: seq<byte>)
    ensures ParsePegout(PegoutMarker(hex))
         == if |hex| % 2 == 0 && 4 <= |hex| <= 80 && Hex(hex) then Some(Lower(hex)) else None
    ensures LooksLikePegout(PegoutMarker(hex)) <==> |hex| <= 248
  {
    var d := PEGOUT + Lower(hex);
    OpReturnRoundTrip(d);
    LowerOfHex(hex);
    assert d[0] == 112 != BOM[0];
    assert d[|PEGOUT|..] == Lower(hex);
  }

  /** A burn, exactly: a marker of `pegout:` and an even number of lower hex digits,
      4 to 80, a byte-order mark in front or not. */
  lemma PegoutExact(spk: Script, hex: seq<byte>)
    ensures ParsePegout(spk) == Some(hex) <==>
              && |hex| % 2 == 0 && 4 <= |hex| <= 80
              && (forall i :: 0 <= i < |hex| ==> 48 <= hex[i] <= 57 || 97 <= hex[i] <= 102)
              && (|| OpReturnData(spk) == Some([112, 101, 103, 111, 117, 116, 58] + hex)
                  || OpReturnData(spk) == Some([0xef, 0xbb, 0xbf] + ([112, 101, 103, 111, 117, 116, 58] + hex)))
  {
    hide OpReturnData;
    var plain, marked := PEGOUT + hex, BOM + (PEGOUT + hex);
    assert plain[0] != BOM[0] && plain[|PEGOUT|..] == hex;
    assert marked[3..] == plain;
    var d := OpReturnData(spk);
    if d.Some? && PEGOUT <= WithoutBom(d.value) {
      assert WithoutBom(d.value) == PEGOUT + WithoutBom(d.value)[|PEGOUT|..];
      assert BOM <= d.value ==> d.value == BOM + d.value[3..];
    }
  }

  // --- claims ------------------------------------------------------------------

  /** `claim:` */
  const CLAIM: seq<byte> := [99, 108, 97, 105, 109, 58]

  /** An output of the parent chain: its txid as hex text, and its index. */
  datatype ParentPoint = ParentPoint(txid: seq<byte>, vout: nat)

  /** A claim: the marker's index in the coinbase, the parent output it names,
      and the payout right before it. */
  datatype Claim = Claim(index: nat, parent: ParentPoint, payout: nat, value: u64, script: Script)

  /** `claim:<64 lower hex>:<1 to 5 digits>`. */
  function ParseClaimText(t: seq<byte>): Option<ParentPoint>
  {
    if !(CLAIM <= t) then None
    else
      var rest := t[|CLAIM|..];
      if |rest| < 66 || |rest| > 70 || rest[64] != 58 || !LowerHex(rest[..64]) || !Digits(rest[65..]) then None
      else Some(ParentPoint(rest[..64], DecimalValue(rest[65..])))
  }

  /** A number in decimal, without leading zeros. */
  function Decimal(n: nat): (s: seq<byte>)
    ensures |s| > 0 && Digits(s) && DecimalValue(s) == n
    ensures forall k :: |s| > k >= 1 ==> n >= Pow10(k)
    ensures n < Pow10(|s|)
  {
    if n < 10 then [48 + n]
    else
      var s := Decimal(n / 10) + [48 + n % 10];
      assert s[..|s| - 1] == Decimal(n / 10);
      s
  }

  function Pow10(k: nat): nat { if k == 0 then 1 else 10 * Pow10(k - 1) }

  /** The parent output an output's script claims, if it is a claim marker. */
  function ClaimOf(spk: Script): Option<ParentPoint>
  {
    var d := OpReturnData(spk);
    if d.None? then None else ParseClaimText(WithoutBom(d.value))
  }

  /** The text of a claim on this output of the parent chain, unchecked. */
  function ClaimText(txid: seq<byte>, vout: nat): seq<byte> { CLAIM + txid + [58] + Decimal(vout) }

  function ClaimMarker(txid: seq<byte>, vout: nat): Script { OpReturn(ClaimText(txid, vout)) }

  /** A claim's text, exactly: `claim:`, 64 lower hex digits, a colon, and one to five
      decimal digits, which may lead with zeros. */
  lemma ClaimTextExact(t: seq<byte>, p: ParentPoint)
    ensures ParseClaimText(t) == Some(p) <==>
              && |p.txid| == 64 && (forall i :: 0 <= i < 64 ==> 48 <= p.txid[i] <= 57 || 97 <= p.txid[i] <= 102)
              && exists d: seq<byte> :: IsVout(d, p.vout) && t == [99, 108, 97, 105, 109, 58] + p.txid + [58] + d
  {
    if ParseClaimText(t) == Some(p) {
      var rest := t[|CLAIM|..];
      assert IsVout(rest[65..], p.vout);
      assert t == CLAIM + rest && rest == rest[..64] + [58] + rest[65..];
      assert t == [99, 108, 97, 105, 109, 58] + p.txid + [58] + rest[65..];
    }
    if d: seq<byte> :| IsVout(d, p.vout) && t == [99, 108, 97, 105, 109, 58] + p.txid + [58] + d {
      if |p.txid| == 64 {
        var rest := t[|CLAIM|..];
        assert t[..|CLAIM|] == CLAIM;
        assert rest == p.txid + [58] + d;
        assert rest[..64] == p.txid && rest[64] == 58 && rest[65..] == d;
      }
    }
  }

  /** A claim marker, exactly: a marker of such a text, a byte-order mark in front or not. */
  lemma ClaimOfExact(spk: Script, p: ParentPoint)
    ensures ClaimOf(spk) == Some(p) <==>
              exists t: seq<byte> :: ParseClaimText(t) == Some(p)
                && (OpReturnData(spk) == Some(t) || OpReturnData(spk) == Some([0xef, 0xbb, 0xbf] + t))
  {
    hide OpReturnData;
    if t: seq<byte> :| ParseClaimText(t) == Some(p) && (OpReturnData(spk) == Some(t) || OpReturnData(spk) == Some([0xef, 0xbb, 0xbf] + t)) {
      assert CLAIM <= t && t[0] == 99 != BOM[0];
      assert ([0xef, 0xbb, 0xbf] + t)[3..] == t;
    }
    if ClaimOf(spk) == Some(p) {
      var d := OpReturnData(spk).value;
      assert ParseClaimText(WithoutBom(d)) == Some(p);
      assert BOM <= d ==> d == [0xef, 0xbb, 0xbf] + d[3..];
    }
  }

  predicate IsVout(d: seq<byte>, vout: nat) { 1 <= |d| <= 5 && Digits(d) && DecimalValue(d) == vout }

  /** A claim marker reads back exactly for 64 lower hex digits and an output index of at
      most five digits; any other reads as no claim. */
  lemma ClaimRoundTrip(txid: seq<byte>, vout: nat)
    ensures ClaimOf(ClaimMarker(txid, vout))
            == if |txid| == 64 && LowerHex(txid) && vout <= 99_999 then Some(ParentPoint(txid, vout)) else None
  {
    hide Decimal;
    var t := ClaimText(txid, vout);
    OpReturnRoundTrip(t);
    assert t[0] == 99 != BOM[0];
    ClaimTextRead(txid, vout);
  }

  lemma ClaimTextRead(txid: seq<byte>, vout: nat)
    ensures ParseClaimText(ClaimText(txid, vout))
            == if |txid| == 64 && LowerHex(txid) && vout <= 99_999 then Some(ParentPoint(txid, vout)) else None
  {
    hide Decimal;
    var d := Decimal(vout);
    var t := ClaimText(txid, vout);
    var rest := t[|CLAIM|..];
    assert t[..|CLAIM|] == CLAIM;
    assert rest == txid + [58] + d;
    assert rest[|txid|] == 58;
    assert Pow10(5) == 100_000;
    if |txid| == 64 {
      assert rest[..64] == txid && rest[65..] == d;
      if |d| > 5 {
        assert vout >= Pow10(5);
      } else {
        PowersGrow(|d|, 5);
      }
    } else if |txid| < 64 {
      assert |rest| >= 66 ==> rest[..64][|txid|] == 58;
    } else {
      assert rest[64] == 58 ==> rest[65..][|txid| - 65] == 58;
    }
  }

  lemma {:induction false} PowersGrow(a: nat, b: nat)
    requires a <= b
    ensures Pow10(a) <= Pow10(b)
  {
    if a < b {
      PowersGrow(a, b - 1);
    }
  }

  /** Whether output `i` is a positive, spendable payout for a marker after it. */
  predicate IsPayout(o: TxOut) { !IsOpReturn(o.script) && o.value > 0 }

  /** The well-formed claims among the first `n` outputs, in order. */
  function ClaimsUpTo(outputs: seq<TxOut>, n: nat): seq<Claim>
    requires n <= |outputs|
  {
    if n == 0 then []
    else
      var before := ClaimsUpTo(outputs, n - 1);
      var p := ClaimOf(outputs[n - 1].script);
      if p.Some? && n >= 2 && IsPayout(outputs[n - 2])
      then before + [Claim(n - 1, p.value, n - 2, outputs[n - 2].value, outputs[n - 2].script)]
      else before
  }

  /** The markers among the first `n` outputs with no payout before them. */
  function StrayMarkersUpTo(outputs: seq<TxOut>, n: nat): seq<nat>
    requires n <= |outputs|
  {
    if n == 0 then []
    else
      var before := StrayMarkersUpTo(outputs, n - 1);
      if ClaimOf(outputs[n - 1].script).Some? && !(n >= 2 && IsPayout(outputs[n - 2]))
      then before + [n - 1]
      else before
  }

  function Claims(coinbase: Transaction): seq<Claim>
  {
    ClaimsUpTo(coinbase.outputs, |coinbase.outputs|)
  }

  function StrayMarkers(coinbase: Transaction): seq<nat>
  {
    StrayMarkersUpTo(coinbase.outputs, |coinbase.outputs|)
  }

  method ParseClaims(coinbase: Transaction) returns (claims: seq<Claim>, errors: seq<nat>)
    ensures claims == Claims(coinbase)
    ensures errors == StrayMarkers(coinbase)
  {
    hide ClaimOf, IsPayout;
    claims, errors := [], [];
    for i := 0 to |coinbase.outputs|
      invariant claims == ClaimsUpTo(coinbase.outputs, i)
      invariant errors == StrayMarkersUpTo(coinbase.outputs, i)
    {
      var parent := ClaimOf(coinbase.outputs[i].script);
      if parent.None? { continue; }
      if i >= 1 && IsPayout(coinbase.outputs[i - 1]) {
        var p := coinbase.outputs[i - 1];
        claims := claims + [Claim(i, parent.value, i - 1, p.value, p.script)];
      } else {
        errors := errors + [i];
      }
    }
  }

  /** Claim `c` pairs a marker with the payout output right before it. */
  predicate PairsPayout(outputs: seq<TxOut>, c: Claim)
  {
    && c.payout + 1 == c.index < |outputs|
    && IsPayout(outputs[c.payout])
    && c.value == outputs[c.payout].value
    && c.script == outputs[c.payout].script
    && ClaimOf(outputs[c.index].script) == Some(c.parent)
  }

  /** Each claim owns the spendable output before its marker, and no two claims
      share a payout: their payout positions strictly increase. */
  lemma {:induction false} ClaimsOwnDistinctPayouts(outputs: seq<TxOut>, n: nat)
    requires n <= |outputs|
    ensures forall i :: 0 <= i < |ClaimsUpTo(outputs, n)| ==>
              PairsPayout(outputs, ClaimsUpTo(outputs, n)[i]) && ClaimsUpTo(outputs, n)[i].index < n
    ensures forall i, j :: 0 <= i < j < |ClaimsUpTo(outputs, n)| ==>
              ClaimsUpTo(outputs, n)[i].payout < ClaimsUpTo(outputs, n)[j].payout
  {
    hide ClaimOf, IsPayout;
    if n > 0 {
      ClaimsOwnDistinctPayouts(outputs, n - 1);
    }
  }

  /** An output worth something that is no `OP_RETURN`. */
  predicate Pays(o: TxOut) { o.value >= 1 && (|o.script| > 0 ==> o.script[0] != 0x6a) }

  /** A claim among the first `n` outputs: a marker right behind an output that pays. */
  predicate ClaimAt(outputs: seq<TxOut>, n: nat, c: Claim)
    requires n <= |outputs|
  {
    && 1 <= c.index < n && c.payout == c.index - 1
    && ClaimOf(outputs[c.index].script) == Some(c.parent)
    && Pays(outputs[c.index - 1]) && c.value == outputs[c.index - 1].value && c.script == outputs[c.index - 1].script
  }

  /** A marker among the first `n` outputs with no output that pays right before it. */
  predicate StrayAt(outputs: seq<TxOut>, n: nat, i: nat)
    requires n <= |outputs|
  {
    i < n && ClaimOf(outputs[i].script).Some? && (i == 0 || !Pays(outputs[i - 1]))
  }

  lemma PayoutPays(o: TxOut)
    ensures IsPayout(o) == Pays(o)
  {
  }

  /** The claims, exactly: every marker right behind an output that pays, once, in order. */
  lemma {:induction false} ClaimsExact(outputs: seq<TxOut>, n: nat)
    requires n <= |outputs|
    ensures forall c :: c in ClaimsUpTo(outputs, n) <==> ClaimAt(outputs, n, c)
    ensures forall i, j :: 0 <= i < j < |ClaimsUpTo(outputs, n)| ==> ClaimsUpTo(outputs, n)[i].index < ClaimsUpTo(outputs, n)[j].index
  {
    hide ClaimOf, IsPayout, Pays;
    if n > 0 {
      ClaimsExact(outputs, n - 1);
      if n >= 2 {
        PayoutPays(outputs[n - 2]);
      }
      var before := ClaimsUpTo(outputs, n - 1);
      assert forall i :: 0 <= i < |before| ==> before[i] in before;
    }
  }

  /** The stray markers, exactly: every other marker, in order. */
  lemma {:induction false} StraysExact(outputs: seq<TxOut>, n: nat)
    requires n <= |outputs|
    ensures forall i: nat :: i in StrayMarkersUpTo(outputs, n) <==> StrayAt(outputs, n, i)
    ensures forall i, j :: 0 <= i < j < |StrayMarkersUpTo(outputs, n)| ==> StrayMarkersUpTo(outputs, n)[i] < StrayMarkersUpTo(outputs, n)[j]
  {
    hide ClaimOf, IsPayout, Pays;
    if n > 0 {
      StraysExact(outputs, n - 1);
      if n >= 2 {
        PayoutPays(outputs[n - 2]);
      }
      var before, now := StrayMarkersUpTo(outputs, n - 1), StrayMarkersUpTo(outputs, n);
      forall i: nat
        ensures i in now <==> StrayAt(outputs, n, i)
      {
        assert i in before <==> StrayAt(outputs, n - 1, i);
      }
      forall i, j | 0 <= i < j < |now|
        ensures now[i] < now[j]
      {
        if j == |before| {
          assert before[i] in before;
          assert StrayAt(outputs, n - 1, before[i]);
        }
      }
    }
  }

  /** No marker is overlooked: each is a claim or an error. */
  lemma {:induction false} NoMarkerOverlooked(outputs: seq<TxOut>, n: nat, i: nat)
    requires i < n <= |outputs| && ClaimOf(outputs[i].script).Some?
    ensures i in StrayMarkersUpTo(outputs, n) || exists c :: c in ClaimsUpTo(outputs, n) && c.index == i
  {
    hide ClaimOf, IsPayout;
    if i < n - 1 {
      NoMarkerOverlooked(outputs, n - 1, i);
      if c :| c in ClaimsUpTo(outputs, n - 1) && c.index == i {
        assert c in ClaimsUpTo(outputs, n);
      }
    } else if !(i in StrayMarkersUpTo(outputs, n)) {
      var now := ClaimsUpTo(outputs, n);
      assert now[|now| - 1] in now;
    }
  }

  /** The sum of a sequence of claims' payouts. */
  function PaidOut(claims: seq<Claim>): nat
  {
    if |claims| == 0 then 0 else PaidOut(claims[..|claims| - 1]) + claims[|claims| - 1].value
  }

  /** The total of the first `n` outputs that are coins, and of those that are not. */
  function CoinTotal(outputs: seq<TxOut>, n: nat): nat
    requires n <= |outputs|
  {
    if n == 0 then 0
    else CoinTotal(outputs, n - 1) + if IsOpReturn(outputs[n - 1].script) then 0 else outputs[n - 1].value
  }

  function OpReturnTotal(outputs: seq<TxOut>, n: nat): nat
    requires n <= |outputs|
  {
    if n == 0 then 0
    else OpReturnTotal(outputs, n - 1) + if IsOpReturn(outputs[n - 1].script) then outputs[n - 1].value else 0
  }

  /** The payouts a coinbase claims never exceed the coins it creates. */
  lemma {:induction false} PayoutsWithinCoins(outputs: seq<TxOut>, n: nat)
    requires n <= |outputs|
    ensures PaidOut(ClaimsUpTo(outputs, n)) <= CoinTotal(outputs, if n == 0 then 0 else n - 1)
  {
    if n > 0 {
      PayoutsWithinCoins(outputs, n - 1);
      var before := ClaimsUpTo(outputs, n - 1);
      var now := ClaimsUpTo(outputs, n);
      if now != before {
        assert now[..|now| - 1] == before;
      }
    }
  }

  lemma MarkersAreOpReturns(spk: Script)
    ensures LooksLikePegout(spk) ==> IsOpReturn(spk)
    ensures ClaimOf(spk).Some? ==> IsOpReturn(spk)
    ensures ParsePegout(spk).Some? ==> LooksLikePegout(spk)
  {
  }
}
