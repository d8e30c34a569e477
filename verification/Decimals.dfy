/** The decimal arithmetic of the market-buy branch and of order entry. */
module Decimals {
  /** Rounds n/d half away from zero, as the decimal library's division does at its last digit. */
  function RoundDiv(n: int, d: int): int
    requires d > 0
  {
    if n >= 0 then (2 * n + d) / (2 * d) else -((2 * -n + d) / (2 * d))
  }

  /** Drops the fraction of n/d, towards zero. */
  function TruncDiv(n: int, d: int): int
    requires d > 0
  {
    if n >= 0 then n / d else -(-n / d)
  }

  /** Funds.Div(price).Truncate(baseScale) in base ticks, with `grain` = 10^(16-baseScale). */
  function BuyableSize(funds: int, price: int, grain: int): int
    requires price > 0 && grain > 0
  {
    TruncDiv(RoundDiv(funds * grain, price), grain)
  }

  lemma {:induction false} MulMono(a: int, b: int, c: int)
    requires a <= b && c >= 0
    ensures a * c <= b * c
  {
  }

  lemma {:induction false} MulCancel(a: int, b: int, c: int)
    requires a * c < b * c && c > 0
    ensures a < b
  {
    if b <= a {
      MulMono(b, a, c);
    }
  }

  lemma {:induction false} FloorBounds(x: int, d: int)
    requires d > 0
    ensures x / d * d <= x < (x / d + 1) * d
  {
    assert x == x / d * d + x % d;
  }

  /** The floor is the only integer q with q <= x/d < q+1. */
  lemma {:induction false} FloorUnique(x: int, d: int, q: int)
    requires d > 0 && q * d <= x < (q + 1) * d
    ensures x / d == q
  {
    FloorBounds(x, d);
    MulCancel(x / d, q + 1, d);
    MulCancel(q, x / d + 1, d);
  }

  /** Rounding to the nearest: the rounded quotient is at most half a unit off. */
  lemma {:induction false} RoundDivBounds(n: int, d: int)
    requires n >= 0 && d > 0
    ensures var r := RoundDiv(n, d); r >= 0 && r * (2 * d) <= 2 * n + d < (r + 1) * (2 * d)
  {
    FloorBounds(2 * n + d, 2 * d);
    if RoundDiv(n, d) < 0 {
      MulMono(RoundDiv(n, d) + 1, 0, 2 * d);
    }
  }

  /** What the rounded quotient guarantees: the size costs at most price/(2*grain) more than the
      funds, and one more tick would cost more than that. Everything else follows from this. */
  lemma {:induction false} BuyableBounds(funds: int, price: int, grain: int)
    requires funds >= 0 && price > 0 && grain > 0
    ensures var s := BuyableSize(funds, price, grain);
            s >= 0
            && 2 * grain * (s * price - funds) <= price
            && price < 2 * grain * ((s + 1) * price - funds)
  {
    var n := funds * grain;
    var r := RoundDiv(n, price);
    RoundDivBounds(n, price);
    FloorBounds(r, grain);
    BuyableArithmetic(funds, price, grain, n, r, BuyableSize(funds, price, grain));
  }

  lemma {:induction false} BuyableArithmetic(funds: int, price: int, grain: int, n: int, r: int, s: int)
    requires price > 0 && grain > 0 && n == funds * grain
    requires r * (2 * price) <= 2 * n + price < (r + 1) * (2 * price)
    requires s * grain <= r < (s + 1) * grain
    ensures 2 * grain * (s * price - funds) <= price < 2 * grain * ((s + 1) * price - funds)
  {
    MulMono(s * grain, r, 2 * price);
    MulMono(r + 1, (s + 1) * grain, 2 * price);
    Regroup(s, grain, price, funds);
    Regroup(s + 1, grain, price, funds);
  }

  lemma {:induction false} Regroup(s: int, grain: int, price: int, funds: int)
    ensures 2 * grain * (s * price - funds) == s * grain * (2 * price) - 2 * (funds * grain)
  {
    assert 2 * grain * (s * price) == s * grain * (2 * price);
  }

  /** The two inequalities of BuyableBounds leave one candidate. */
  lemma {:induction false} BuyableUnique(funds: int, price: int, grain: int, s: int)
    requires funds >= 0 && price > 0 && grain > 0
    requires 2 * grain * (s * price - funds) <= price < 2 * grain * ((s + 1) * price - funds)
    ensures s == BuyableSize(funds, price, grain)
  {
    BuyableBounds(funds, price, grain);
    var t := BuyableSize(funds, price, grain);
    NoSmaller(funds, price, grain, s, t);
    NoSmaller(funds, price, grain, t, s);
  }

  lemma {:induction false} NoSmaller(funds: int, price: int, grain: int, s: int, t: int)
    requires price > 0 && grain > 0
    requires 2 * grain * (t * price - funds) <= price < 2 * grain * ((s + 1) * price - funds)
    ensures t <= s
  {
    MulCancel(t * price - funds, (s + 1) * price - funds, 2 * grain) by {
      assert (t * price - funds) * (2 * grain) == 2 * grain * (t * price - funds);
      assert ((s + 1) * price - funds) * (2 * grain) == 2 * grain * ((s + 1) * price - funds);
    }
    MulCancel(t, s + 1, price);
  }

  /** Funds left after a step: never a debt larger than the rounding error at the price paid. */
  ghost predicate Payable(funds: int, price: int, grain: int)
    requires grain > 0
  {
    funds >= 0 || 2 * grain * -funds <= price
  }

  /** Buying any part of the affordable size leaves at most a rounding debt at this price or a higher one. */
  lemma {:induction false} SpendKeepsPayable(funds: int, price: int, grain: int, size: int, next: int)
    requires funds >= 0 && 0 < price <= next && grain > 0
    requires 0 <= size <= BuyableSize(funds, price, grain)
    ensures Payable(funds - size * price, next, grain)
  {
    BuyableBounds(funds, price, grain);
    var s := BuyableSize(funds, price, grain);
    MulMono(size, s, price);
    MulMono(size * price - funds, s * price - funds, 2 * grain);
    assert 2 * grain * (size * price - funds) <= 2 * grain * (s * price - funds);
  }

  lemma {:induction false} HalfOrLess(n: int, d: int)
    requires 0 <= n && 2 * n <= d && d > 0
    ensures 0 <= (2 * n + d) / (2 * d) <= 1
  {
    FloorBounds(2 * n + d, 2 * d);
    var r := (2 * n + d) / (2 * d);
    if r >= 2 {
      MulMono(2, r, 2 * d);
    } else if r < 0 {
      MulMono(r + 1, 0, 2 * d);
    }
  }

  lemma {:induction false} OneOfMany(r: int, grain: int)
    requires 0 <= r <= 1 && grain >= 2
    ensures TruncDiv(-r, grain) == 0
  {
    FloorUnique(r, grain, 0);
    FloorUnique(0, grain, 0);
  }

  lemma {:induction false} DebtInDigits(funds: int, price: int, grain: int)
    requires funds <= 0 && price > 0 && grain >= 2 && Payable(funds, price, grain)
    ensures funds * grain <= 0 && 2 * -(funds * grain) <= price
  {
    MulMono(funds, 0, grain);
    if funds < 0 {
      assert 2 * -(funds * grain) == 2 * grain * -funds;
    }
  }

  /** A rounding debt buys nothing, provided rounding has a guard digit (grain at least 2). */
  lemma {:induction false} DebtBuysNothing(funds: int, price: int, grain: int)
    requires funds <= 0 && price > 0 && grain >= 2 && Payable(funds, price, grain)
    ensures BuyableSize(funds, price, grain) == 0
  {
    hide TruncDiv, Payable;
    DebtInDigits(funds, price, grain);
    var n := -(funds * grain);
    HalfOrLess(n, price);
    var r := (2 * n + price) / (2 * price);
    assert RoundDiv(funds * grain, price) == -r by {
      if n == 0 {
        assert price / (2 * price) == r;
        NothingRounds(price);
      }
    }
    OneOfMany(r, grain);
  }

  lemma {:induction false} NothingRounds(d: int)
    requires d > 0
    ensures d / (2 * d) == 0
  {
    FloorUnique(d, 2 * d, 0);
  }

  /** After the whole affordable size is bought, nothing more is affordable at the same or a higher price. */
  lemma {:induction false} SpentBuysNothing(funds: int, price: int, grain: int, next: int)
    requires funds >= 0 && 0 < price <= next && grain >= 2
    ensures BuyableSize(funds - BuyableSize(funds, price, grain) * price, next, grain) == 0
  {
    BuyableBounds(funds, price, grain);
    var s := BuyableSize(funds, price, grain);
    var left := funds - s * price;
    SpendKeepsPayable(funds, price, grain, s, next);
    if left < 0 {
      DebtBuysNothing(left, next, grain);
    } else {
      assert (s + 1) * price - funds == price - left;
      assert price < 2 * grain * (price - left);
      assert next < 2 * grain * (next - left) by {
        MulMono(price, next, 2 * grain - 1);
        assert 2 * grain * (next - left) == next * (2 * grain - 1) + next - 2 * grain * left;
        assert 2 * grain * (price - left) == price * (2 * grain - 1) + price - 2 * grain * left;
      }
      MulMono(0, left, 2 * grain);
      assert 2 * grain * (0 * next - left) <= 0;
      BuyableUnique(left, next, grain, 0);
    }
  }

  lemma {:induction false} SmallProduct(c: int, x: int, p: int)
    requires c * x <= p < c && c > 0
    ensures x <= 0
  {
    if x >= 1 { MulMono(1, x, c); }
  }

  lemma {:induction false} PositiveProduct(c: int, x: int, p: int)
    requires 0 <= p < c * x && c > 0
    ensures x > 0
  {
    if x <= 0 { MulMono(x, 0, c); }
  }

  lemma {:induction false} LargeProduct(c: int, x: int, p: int)
    requires c <= p < c * x && c > 0
    ensures x > 1
  {
    if x <= 1 { MulMono(x, 1, c); }
  }

  lemma {:induction false} PositiveFactor(s: int, p: int)
    requires (s + 1) * p - (p - 1) > 1 && p > 0
    ensures s >= 1
  {
    if s <= 0 { MulMono(s + 1, 1, p); }
  }

  /** Below the bound 2*grain the rounded size is the exact floor of funds/price. */
  lemma {:induction false} BelowBoundIsFloor(funds: int, price: int, grain: int)
    requires funds >= 0 && 0 < price < 2 * grain
    ensures BuyableSize(funds, price, grain) == funds / price
    ensures BuyableSize(funds, price, grain) * price <= funds
  {
    BuyableBounds(funds, price, grain);
    var s := BuyableSize(funds, price, grain);
    SmallProduct(2 * grain, s * price - funds, price);
    PositiveProduct(2 * grain, (s + 1) * price - funds, price);
    FloorUnique(funds, price, s);
  }

  /** At a price of 2*grain or more, funds one unit short of one tick are rounded up to it. */
  lemma {:induction false} AtBoundOverspends(price: int, grain: int)
    requires grain >= 1 && price >= 2 * grain
    ensures BuyableSize(price - 1, price, grain) >= 1
  {
    BuyableBounds(price - 1, price, grain);
    var s := BuyableSize(price - 1, price, grain);
    LargeProduct(2 * grain, (s + 1) * price - (price - 1), price);
    PositiveFactor(s, price);
  }

  /** The rounding bound, exactly: the rounded size never costs more than the funds
      if and only if the price is below 2*10^(16-baseScale) ticks. */
  lemma {:induction false} NeverOverspendsExactly(price: int, grain: int)
    requires price > 0 && grain >= 1
    ensures (forall funds :: funds >= 0 ==> BuyableSize(funds, price, grain) * price <= funds) <==> price < 2 * grain
  {
    if price < 2 * grain {
      forall funds | funds >= 0
        ensures BuyableSize(funds, price, grain) * price <= funds
      {
        BelowBoundIsFloor(funds, price, grain);
      }
    } else {
      AtBoundOverspends(price, grain);
      var s := BuyableSize(price - 1, price, grain);
      MulMono(1, s, price);
      assert !(s * price <= price - 1);
    }
  }

  /** Without the bound one step overshoots by at most price/(2*grain) funds units, and no more than
      one tick is missed either way. */
  lemma {:induction false} OvershootBound(funds: int, price: int, grain: int)
    requires funds >= 0 && price > 0 && grain >= 1
    ensures 2 * grain * (BuyableSize(funds, price, grain) * price - funds) <= price
    ensures funds / price <= BuyableSize(funds, price, grain) <= funds / price + 1
  {
    BuyableBounds(funds, price, grain);
    FloorBounds(funds, price);
    OffByOne(funds, price, 2 * grain, BuyableSize(funds, price, grain), funds / price);
  }

  lemma {:induction false} OffByOne(funds: int, price: int, c: int, s: int, q: int)
    requires price > 0 && c >= 1
    requires c * (s * price - funds) <= price < c * ((s + 1) * price - funds)
    requires q * price <= funds < (q + 1) * price
    ensures q <= s <= q + 1
  {
    PositiveProduct(c, (s + 1) * price - funds, price);
    MulCancel(q, s + 1, price);
    Capped(s * price - funds, price, c);
    MulCancel(s, q + 2, price);
  }

  lemma {:induction false} Capped(x: int, price: int, c: int)
    requires c >= 1 && price >= 0 && c * x <= price
    ensures x <= price
  {
    if x > price {
      MulMono(1, c, x);
    }
  }
}
