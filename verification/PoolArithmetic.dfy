/** The arithmetic of a constant-product pool (sidestr-core/src/pool.rs):
    what a swap, an add and a remove must keep, that the machine arithmetic is
    exact, and that value per share never falls. */
module PoolArithmetic {
  import opened Prelude
  import opened Transactions

  const U128_LIMIT := 0x1_0000_0000_0000_0000_0000_0000_0000_0000

  /** Machine arithmetic: every intermediate result must fit. */
  newtype u128 = n: int | 0 <= n < U128_LIMIT

  const MAX_SATS := 2_100_000_000_000_000

  /** Why a step is refused; `Stops` is no answer at all, where 128-bit arithmetic
      ends the process: a product that does not fit, or a division by zero. */
  datatype TransitionError =
    | SwapBreaksProduct
    | AddShrinks
    | AddTooManyShares
    | RemoveGrows
    | RemoveTooMuch
    | Stops

  // --- the integer square root ----------------------------------------------------------

  predicate IsRoot(r: nat, n: nat) { r * r <= n < (r + 1) * (r + 1) }

  function ISqrt(n: nat): (r: nat)
    ensures IsRoot(r, n)
  {
    if n == 0 then 0
    else
      var r := ISqrt(n - 1);
      if (r + 1) * (r + 1) <= n then r + 1 else r
  }

  lemma MulAtLeast(a: nat, b: nat, c: nat, d: nat)
    requires a >= b && c >= d
    ensures a * c >= b * d
  {
    assert a * c - b * d == (a - b) * c + b * (c - d);
  }

  lemma SquareMono(a: nat, b: nat)
    requires a < b
    ensures a * a < b * b && (a + 1) * (a + 1) <= b * b
  {
    MulAtLeast(b, a + 1, b, a + 1);
    assert (a + 1) * (a + 1) == a * a + 2 * a + 1;
  }

  lemma RootUnique(r: nat, q: nat, n: nat)
    requires IsRoot(r, n) && IsRoot(q, n)
    ensures r == q
  {
    if r < q { SquareMono(r, q); }
    if q < r { SquareMono(q, r); }
  }

  /** One Newton step never falls below the root: the square of the next guess
      plus one exceeds `n`. */
  lemma NewtonAbove(x: nat, n: nat)
    requires x > 0
    ensures Above((x + n / x) / 2, n)
  {
    var q := n / x;
    var y := (x + q) / 2;
    assert n < x * (q + 1) by {
      assert n == x * q + n % x;
    }
    var s, d := x + q + 1, x - q - 1;
    assert 4 * x * (q + 1) == s * s - d * d;
    assert 2 * (y + 1) >= s;
    MulAtLeast(2 * (y + 1), s, 2 * (y + 1), s);
    assert d * d >= 0;
  }

  /** The guess is not below the root. */
  predicate Above(y: nat, n: nat) { n < (y + 1) * (y + 1) }

  lemma HalfAbove(n: nat)
    requires n >= 2
    ensures Above(n / 2 + n % 2, n) && 0 < n / 2 + n % 2 < n
  {
    var y := n / 2 + n % 2;
    assert (y + 1) * (y + 1) == y * y + 2 * y + 1;
    MulAtLeast(y, 1, y, 1);
  }

  lemma RootBelow(x: nat, n: nat)
    requires x > 0 && (x + n / x) / 2 >= x && Above(x, n)
    ensures IsRoot(x, n)
  {
    var q := n / x;
    assert q >= x;
    assert n == x * q + n % x;
    MulAtLeast(q, x, x, x);
  }

  /** The sum of a guess and its quotient stays within 128 bits. */
  lemma QuotientSmall(x: nat, n: nat)
    requires 0 < x < n && Above(x, n)
    ensures n / x >= 1 && (x + n / x <= n || n < 4)
    ensures n < 4 ==> x + n / x <= n + 1
  {
    var q := n / x;
    assert n == x * q + n % x;
    assert q >= 1 by {
      assert x * q > 0;
    }
    if x == 1 {
      assert n < 4;
    } else if q >= 2 {
      MulAtLeast(x - 1, 1, q - 1, 1);
      assert (x - 1) * (q - 1) == x * q - x - q + 1;
    }
  }

  /** Newton's loop, in 128-bit arithmetic: the exact root of every value. */
  method Isqrt(n: u128) returns (x: u128)
    ensures IsRoot(x as int, n as int)
  {
    hide Above, IsRoot;
    if n < 2 {
      SmallRoot(n as int);
      return n;
    }
    x := n;
    var y := n / 2 + n % 2;
    HalfAbove(n as int);
    ghost var started := false;
    while y < x
      invariant 0 < y && 0 < x <= n
      invariant Above(y as int, n as int)
      invariant !started ==> y < x
      invariant started ==> Above(x as int, n as int) && y as int == (x as int + n as int / x as int) / 2
      decreases x
    {
      x, started := y, true;
      QuotientSmall(x as int, n as int);
      NewtonAbove(x as int, n as int);
      var q := n / x;
      y := (x + q) / 2;
    }
    RootBelow(x as int, n as int);
  }

  lemma SmallRoot(n: nat)
    requires n < 2
    ensures IsRoot(n, n)
  {
  }

  /** Two 64-bit amounts never make an opening share supply that overflows. */
  lemma OpeningSharesFit(a: u64, b: u64)
    ensures a * b < U128_LIMIT
    ensures ISqrt(a * b) <= U64_MAX
  {
    hide ISqrt;
    var m: nat := U64_MAX;
    WidestProduct();
    MulAtLeast(m, a, m, b);
    RootFits(a * b, m);
  }

  lemma WidestProduct()
    ensures U64_MAX * U64_MAX < U128_LIMIT
  {
  }

  lemma RootFits(n: nat, m: nat)
    requires n <= m * m
    ensures ISqrt(n) <= m
  {
    hide ISqrt;
    if ISqrt(n) > m {
      SquareMono(m, ISqrt(n));
    }
  }

  // --- transitions -------------------------------------------------------------------------

  /** The fee-adjusted product holds: 0.3% of what comes in is set aside. */
  predicate SwapHolds(x: nat, y: nat, x2: nat, y2: nat)
  {
    var dx := if x2 > x then x2 - x else 0;
    var dy := if y2 > y then y2 - y else 0;
    (1000 * x2 - 3 * dx) * (1000 * y2 - 3 * dy) >= 1_000_000 * x * y
  }

  /** Both sides of the swap's comparison fit 128 bits. */
  predicate SwapFits(x: nat, y: nat, x2: nat, y2: nat)
  {
    AfterFeeOf(x, x2) * AfterFeeOf(y, y2) < U128_LIMIT && 1_000_000 * x * y < U128_LIMIT
  }

  /** A side as the swap counts it: 0.3% of what came in is set aside. */
  function AfterFeeOf(x: nat, x2: nat): nat { if x2 > x then 997 * x2 + 3 * x else 1000 * x2 }

  /** The shares minted are within the pro-rata part of one added side. */
  predicate MintWithin(x: nat, s: nat, x2: nat, minted: nat)
    requires 0 < x <= x2
  {
    minted <= (x2 - x) * s / x
  }

  /** What leaves a side is within the pro-rata part of the shares destroyed. */
  predicate LeaveWithin(x: nat, s: nat, x2: nat, destroyed: nat)
    requires 0 < s && x2 <= x
  {
    x - x2 <= x * destroyed / s
  }

  /** What the rule demands when a pool of `x` sats, `y` assets and `s` shares
      becomes one of `x2`, `y2` and `s2`. */
  function Transition(x: nat, y: nat, s: nat, x2: nat, y2: nat, s2: nat): Option<TransitionError>
  {
    if s2 == s then
      if !SwapFits(x, y, x2, y2) then Some(Stops)
      else if SwapHolds(x, y, x2, y2) then None
      else Some(SwapBreaksProduct)
    else if s2 > s then
      if x2 < x || y2 < y then Some(AddShrinks)
      else if x == 0 || y == 0 then Some(Stops)
      else if MintWithin(x, s, x2, s2 - s) && MintWithin(y, s, y2, s2 - s) then None
      else Some(AddTooManyShares)
    else if x2 > x || y2 > y then Some(RemoveGrows)
    else if LeaveWithin(x, s, x2, s - s2) && LeaveWithin(y, s, y2, s - s2) then None
    else Some(RemoveTooMuch)
  }

  lemma DivBound(a: nat, b: nat, d: nat)
    requires d > 0 && b <= a / d
    ensures b * d <= a
  {
    assert a == d * (a / d) + a % d;
    MulAtLeast(a / d, b, d, d);
  }

  lemma DivWithin(a: nat, b: nat, d: nat)
    requires d > 0
    ensures b <= a / d <==> b * d <= a
  {
    if b <= a / d {
      DivBound(a, b, d);
    } else {
      assert a == d * (a / d) + a % d;
      assert d * (a / d + 1) == d * (a / d) + d;
      MulAtLeast(b, a / d + 1, d, d);
    }
  }

  lemma SwapExact(x: nat, y: nat, x2: nat, y2: nat)
    ensures SwapHolds(x, y, x2, y2) <==> AfterFeeOf(x, x2) * AfterFeeOf(y, y2) >= 1_000_000 * x * y
  {
    var dx, dy := if x2 > x then x2 - x else 0, if y2 > y then y2 - y else 0;
    assert 1000 * x2 - 3 * dx == AfterFeeOf(x, x2);
    assert 1000 * y2 - 3 * dy == AfterFeeOf(y, y2);
  }

  /** A side that grows counts in full for what it held and 997 parts in 1000 for what came
      in; one that shrinks counts for what it holds. The products are compared as numbers of
      128 bits. */
  lemma FeeIs(x: nat, x2: nat)
    ensures x2 >= x ==> AfterFeeOf(x, x2) == 1000 * x + 997 * (x2 - x)
    ensures x2 <= x ==> AfterFeeOf(x, x2) == 1000 * x2
    ensures U128_LIMIT == 0x1_0000_0000_0000_0000 * 0x1_0000_0000_0000_0000
  {
  }

  /** The rule without its divisions, exactly: a swap keeps the product after the
      fee, an add shrinks no side and mints on each at most its share of what was
      added, a remove grows no side and takes of each at most its share of what
      was destroyed; and nothing else passes. */
  lemma TransitionExact(x: nat, y: nat, s: nat, x2: nat, y2: nat, s2: nat)
    requires x > 0 && y > 0
    ensures Transition(x, y, s, x2, y2, s2) == None <==>
              && (s2 == s ==> U128_LIMIT > AfterFeeOf(x, x2) * AfterFeeOf(y, y2) >= 1_000_000 * x * y)
              && (s2 > s ==> x2 >= x && y2 >= y && (s2 - s) * x <= (x2 - x) * s && (s2 - s) * y <= (y2 - y) * s)
              && (s2 < s ==> x2 <= x && y2 <= y && (x - x2) * s <= x * (s - s2) && (y - y2) * s <= y * (s - s2))
  {
    hide SwapHolds, MintWithin, LeaveWithin, AfterFeeOf;
    if s2 == s {
      SwapExact(x, y, x2, y2);
    } else if s2 > s && x2 >= x && y2 >= y {
      MintExact(x, s, x2, s2 - s);
      MintExact(y, s, y2, s2 - s);
    } else if s2 < s && x2 <= x && y2 <= y {
      LeaveExact(x, s, x2, s - s2);
      LeaveExact(y, s, y2, s - s2);
    }
  }

  lemma MintExact(x: nat, s: nat, x2: nat, minted: nat)
    requires 0 < x <= x2
    ensures MintWithin(x, s, x2, minted) <==> minted * x <= (x2 - x) * s
  {
    DivWithin((x2 - x) * s, minted, x);
  }

  lemma LeaveExact(x: nat, s: nat, x2: nat, destroyed: nat)
    requires 0 < s && x2 <= x
    ensures LeaveWithin(x, s, x2, destroyed) <==> (x - x2) * s <= x * destroyed
  {
    DivWithin(x * destroyed, x - x2, s);
  }

  /** An add or a remove keeps each side's amount per share. */
  lemma SidePerShare(x: nat, s: nat, x2: nat, s2: nat)
    requires x > 0
    requires (s2 > s && x2 >= x && s2 - s <= (x2 - x) * s / x) || (s2 < s && x2 <= x && x - x2 <= x * (s - s2) / s)
    ensures x * s2 <= x2 * s
  {
    if s2 > s {
      DivBound((x2 - x) * s, s2 - s, x);
      assert (s2 - s) * x == s2 * x - s * x;
      assert (x2 - x) * s == x2 * s - x * s;
    } else {
      DivBound(x * (s - s2), x - x2, s);
      assert (x - x2) * s == x * s - x2 * s;
      assert x * (s - s2) == x * s - x * s2;
    }
  }

  /** A swap keeps the product. */
  lemma SwapKeepsProduct(x: nat, y: nat, x2: nat, y2: nat, dx: nat, dy: nat)
    requires 3 * dx <= 1000 * x2 && 3 * dy <= 1000 * y2
    requires (1000 * x2 - 3 * dx) * (1000 * y2 - 3 * dy) >= 1_000_000 * x * y
    ensures x * y <= x2 * y2
  {
    MulAtLeast(1000 * x2, 1000 * x2 - 3 * dx, 1000 * y2, 1000 * y2 - 3 * dy);
    assert (1000 * x2) * (1000 * y2) == 1_000_000 * (x2 * y2);
    assert 1_000_000 * x * y == 1_000_000 * (x * y);
  }

  /** Value per share never falls: over any admitted swap, add or remove, the
      product of the two sides grows at least as the square of the shares. */
  lemma ValuePerShareNeverFalls(x: nat, y: nat, s: nat, x2: nat, y2: nat, s2: nat)
    requires x > 0 && y > 0
    requires Transition(x, y, s, x2, y2, s2) == None
    ensures x * y * (s2 * s2) <= x2 * y2 * (s * s)
  {
    if s2 == s {
      SwapKeepsProduct(x, y, x2, y2, if x2 > x then x2 - x else 0, if y2 > y then y2 - y else 0);
      MulAtLeast(x2 * y2, x * y, s * s, s * s);
    } else {
      SidePerShare(x, s, x2, s2);
      SidePerShare(y, s, y2, s2);
      MulAtLeast(x2 * s, x * s2, y2 * s, y * s2);
      Regroup(x, y, s2);
      Regroup(x2, y2, s);
    }
  }

  lemma Regroup(a: nat, b: nat, c: nat)
    ensures (a * c) * (b * c) == a * b * (c * c)
  {
  }

  /** The shares of a pool never outgrow its value: what held before a step
      holds after it. */
  lemma SharesWithinValue(x: nat, y: nat, s: nat, x2: nat, y2: nat, s2: nat)
    requires x > 0 && y > 0
    requires Transition(x, y, s, x2, y2, s2) == None
    requires s * s <= x * y
    ensures s2 * s2 <= x2 * y2
  {
    ValuePerShareNeverFalls(x, y, s, x2, y2, s2);
    hide Transition;
    if s == 0 {
      ZeroStaysZero(x, y, x2, y2, s2);
    } else {
      MulAtLeast(s, 1, s, 1);
      Cancel(x * y, x2 * y2, s * s, s2 * s2);
    }
  }

  lemma Cancel(p: nat, q: nat, a: nat, b: nat)
    requires 0 < a <= p && p * b <= q * a
    ensures b <= q
  {
    if b > q {
      assert a * (q + 1) == q * a + a;
      MulAtLeast(p, a, b, q + 1);
    }
  }

  /** A pool whose shares reach zero stays at zero. */
  lemma ZeroStaysZero(x: nat, y: nat, x2: nat, y2: nat, s2: nat)
    requires x > 0 && y > 0
    requires Transition(x, y, 0, x2, y2, s2) == None
    ensures s2 == 0
  {
  }

  // --- the machine's arithmetic ----------------------------------------------------------------

  /** For a pool that holds both sides no step overflows or divides by zero, except
      a swap exactly when one of its two products does not fit 128 bits. */
  lemma StopsExactly(x: nat, y: nat, s: nat, x2: nat, y2: nat, s2: nat)
    requires x > 0 && y > 0
    ensures Transition(x, y, s, x2, y2, s2) == Some(Stops)
            <==> s2 == s && (AfterFeeOf(x, x2) * AfterFeeOf(y, y2) >= U128_LIMIT || 1_000_000 * x * y >= U128_LIMIT)
  {
    hide MintWithin, LeaveWithin, SwapHolds, AfterFeeOf;
  }

  /** From a pool within the money limit and the largest amount, a step stops
      exactly when it is a swap whose new product does not fit; and no step to such
      a pool does. */
  lemma StopsOnlyOutOfRange(x: nat, y: nat, s: nat, x2: nat, y2: nat, s2: nat)
    requires 0 < x <= MAX_SATS && 0 < y <= MAX_AMOUNT
    ensures Transition(x, y, s, x2, y2, s2) == Some(Stops) <==> s2 == s && AfterFeeOf(x, x2) * AfterFeeOf(y, y2) >= U128_LIMIT
    ensures x2 <= MAX_SATS && y2 <= MAX_AMOUNT ==> Transition(x, y, s, x2, y2, s2) != Some(Stops)
  {
    hide Transition, AfterFeeOf;
    StopsExactly(x, y, s, x2, y2, s2);
    MulAtLeast(1_000_000 * MAX_SATS, 1_000_000 * x, MAX_AMOUNT, y);
    if x2 <= MAX_SATS && y2 <= MAX_AMOUNT {
      SideWithin(x, x2, MAX_SATS);
      SideWithin(y, y2, MAX_AMOUNT);
      MulAtLeast(1000 * MAX_SATS, AfterFeeOf(x, x2), 1000 * MAX_AMOUNT, AfterFeeOf(y, y2));
    }
  }

  lemma SideWithin(x: nat, x2: nat, most: nat)
    requires x2 <= most
    ensures AfterFeeOf(x, x2) <= 1000 * most
  {
  }

  /** Such a swap: a coin of the largest 64-bit value beside twenty million million
      units, both far below what their types hold, from the smallest pool. */
  lemma SwapThatStops()
    ensures Transition(1, 1, 1, U64_MAX, 20_000_000_000_000, 1) == Some(Stops)
    ensures 20_000_000_000_000 <= MAX_AMOUNT
  {
  }

  /** A product, or nothing when it does not fit. */
  method Times(a: u128, b: u128) returns (c: Option<u128>)
    ensures c.Some? <==> a as int * b as int < U128_LIMIT
    ensures c.Some? ==> c.value as int == a as int * b as int
  {
    var product: nat := a as int * b as int;
    c := if product < U128_LIMIT then Some(product as u128) else None;
  }

  /** A side of the swap's product after the fee: `1000` times the amount less
      `3` times what was added. */
  method AfterFee(x: u128, x2: u128) returns (c: u128)
    requires x2 <= U64_MAX as u128
    ensures c as int == AfterFeeOf(x as int, x2 as int)
  {
    var dx := if x2 > x then x2 - x else 0;
    c := 1000 * x2 - 3 * dx;
  }

  method SwapCheck(x: u128, y: u128, x2: u128, y2: u128) returns (r: Option<TransitionError>)
    requires x <= U64_MAX as u128 && y <= U64_MAX as u128 && x2 <= U64_MAX as u128 && y2 <= U64_MAX as u128
    ensures r == (if !SwapFits(x as int, y as int, x2 as int, y2 as int) then Some(Stops)
                  else if SwapHolds(x as int, y as int, x2 as int, y2 as int) then None
                  else Some(SwapBreaksProduct))
  {
    hide AfterFeeOf, SwapHolds;
    SwapExact(x as int, y as int, x2 as int, y2 as int);
    var a := AfterFee(x, x2);
    var b := AfterFee(y, y2);
    var left := Times(a, b);
    if left.None? { return Some(Stops); }
    var right := Times(1_000_000 * x, y);
    if right.None? { return Some(Stops); }
    return if left.value < right.value then Some(SwapBreaksProduct) else None;
  }

  /** `floor(a * b / c)` of 64-bit amounts: the product always fits. */
  method Portion(a: u128, b: u128, c: u128) returns (q: u128)
    requires c > 0 && a <= U64_MAX as u128 && b <= U64_MAX as u128
    ensures q as int == a as int * b as int / c as int
  {
    MulAtLeast(U64_MAX, a as int, U64_MAX, b as int);
    WidestProduct();
    q := a * b / c;
  }

  /** The transition check in the node's 128-bit arithmetic, for any 64-bit pool and
      any 64-bit step. */
  method CheckTransition(x: u128, y: u128, s: u128, x2: u128, y2: u128, s2: u128) returns (r: Option<TransitionError>)
    requires x <= U64_MAX as u128 && y <= U64_MAX as u128 && s <= U64_MAX as u128
    requires x2 <= U64_MAX as u128 && y2 <= U64_MAX as u128 && s2 <= U64_MAX as u128
    ensures r == Transition(x as int, y as int, s as int, x2 as int, y2 as int, s2 as int)
  {
    hide SwapHolds, SwapFits;
    if s2 == s {
      r := SwapCheck(x, y, x2, y2);
    } else if s2 > s {
      if x2 < x || y2 < y { return Some(AddShrinks); }
      if x == 0 || y == 0 { return Some(Stops); }
      var a := Portion(x2 - x, s, x);
      var b := Portion(y2 - y, s, y);
      var cap := if a <= b then a else b;
      r := if s2 - s > cap then Some(AddTooManyShares) else None;
    } else {
      if x2 > x || y2 > y { return Some(RemoveGrows); }
      var destroyed := s - s2;
      var a := Portion(x, destroyed, s);
      var b := Portion(y, destroyed, s);
      r := if x - x2 > a || y - y2 > b then Some(RemoveTooMuch) else None;
    }
  }
}
