/** Entities shared by the matching engine, the pushed view and settlement.

    Decimals are integers in fixed units. With the product's `baseScale` B and
    `quoteScale` Q, a size counts 10^-B, a price counts 10^-Q and funds (size
    times price) count 10^-(B+Q). */
module Types {
  datatype Option<+T> = None | Some(value: T)

  datatype Side = Buy | Sell {
    function Opposite(): Side {
      if Buy? then Sell else Buy
    }
  }

  datatype OrderType = Limit | Market

  datatype DoneReason = Filled | Cancelled

  /** An order as the matching book holds it. */
  datatype BookOrder = BookOrder(id: int, size: int, funds: int, price: int, side: Side, kind: OrderType) {
    predicate MarketBuy() {
      kind == Market && side == Buy
    }

    /** What the order service lets through (see OrderService.PlaceOrder), zero amounts included. */
    predicate Sane() {
      size >= 0 && funds >= 0 && price >= 0
    }
  }

  /** A message of the order topic: status Cancelling asks for a cancel. */
  datatype Command = Place(order: BookOrder) | Cancel(order: BookOrder)

  /** An entry of the matching log, without timestamps and product id. */
  datatype Log =
    | OpenLog(sequence: int, orderId: int, remainingSize: int, price: int, side: Side)
    | MatchLog(sequence: int, tradeId: int, takerId: int, makerId: int, side: Side, price: int, size: int)
    | DoneLog(sequence: int, orderId: int, price: int, remainingSize: int, reason: DoneReason, side: Side)

  datatype Product = Product(baseScale: nat, quoteScale: nat)

  function Pow10(n: nat): (r: nat)
    ensures r >= 1
  {
    if n == 0 then 1 else 10 * Pow10(n - 1)
  }

  /** Decimal columns keep 16 digits; a scale of 16 leaves no guard digit to rounding. */
  predicate ScaleOk(p: Product) {
    p.baseScale <= 15
  }

  /** 10^(16-B): how many of the division's last digits make one base tick. */
  function Grain(p: Product): (g: nat)
    requires ScaleOk(p)
    ensures g >= 10
  {
    Pow10(16 - p.baseScale)
  }

  lemma {:induction false} PowAdds(a: nat, b: nat)
    ensures Pow10(a + b) == Pow10(a) * Pow10(b)
  {
    if a > 0 {
      PowAdds(a - 1, b);
      assert 10 * (Pow10(a - 1) * Pow10(b)) == 10 * Pow10(a - 1) * Pow10(b);
    }
  }

  /** A base tick and the grain make up the sixteen digits of a division. */
  lemma {:induction false} GrainSplits(p: Product)
    requires ScaleOk(p)
    ensures Grain(p) * Pow10(p.baseScale) == 10000000000000000
  {
    PowAdds(16 - p.baseScale, p.baseScale);
    PowAdds(8, 8);
    PowAdds(4, 4);
    assert Pow10(4) == 10 * Pow10(3) == 100 * Pow10(2) == 1000 * Pow10(1) == 10000;
  }

  /** The largest 32-bit float, the taker price of a market buy, in price units. */
  function MarketBuyPrice(p: Product): (r: nat)
  {
    34028234663852886 * Pow10(22 + p.quoteScale)
  }

  /** It is 3.4028234663852886e38. */
  lemma {:induction false} MarketBuyPriceIs(p: Product)
    ensures MarketBuyPrice(p) == 340282346638528860000000000000000000000 * Pow10(p.quoteScale)
  {
    PowAdds(22, p.quoteScale);
    PowAdds(16, 6);
    PowAdds(8, 8);
    PowAdds(4, 4);
    PowAdds(4, 2);
    assert Pow10(4) == 10 * Pow10(3) == 100 * Pow10(2) == 1000 * Pow10(1) == 10000;
    assert Pow10(22) == 10000000000000000000000;
    assert 34028234663852886 * (10000000000000000000000 * Pow10(p.quoteScale))
           == 340282346638528860000000000000000000000 * Pow10(p.quoteScale);
  }

  /** A decimal price level: one side at one price. */
  datatype LevelKey = LevelKey(side: Side, price: int)
}
