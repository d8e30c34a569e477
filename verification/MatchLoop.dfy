/** What the match loop guarantees: price-time priority, and where and why it stops. */
module MatchLoop {
  import opened Types
  import opened PriceTime
  import opened Decimals
  import opened Matching

  ghost predicate Resting(side: Side, q: seq<BookOrder>) {
    Sorted(side, q) && forall m :: m in q ==> m.side == side && m.size > 0 && m.price >= 0 && m.kind.Limit?
  }

  /** A taker in mid-walk: a market buy may carry a rounding debt, too small to buy anything. */
  ghost predicate Walking(grain: int, taker: BookOrder, makers: seq<BookOrder>) {
    && grain >= 2
    && Resting(taker.side.Opposite(), makers)
    && Priced(taker, makers)
    && (if taker.MarketBuy() then makers == [] || Payable(taker.funds, makers[0].price, grain) else taker.size >= 0)
  }

  /** One visit: a positive trade, then a state the walk can go on from; a maker left with size stops the taker
      there and at every later maker. */
  lemma {:induction false} WalkStep(grain: int, taker: BookOrder, makers: seq<BookOrder>)
    requires Walking(grain, taker, makers) && makers != [] && !Stops(grain, taker, makers[0])
    ensures var size := TradeSize(grain, taker, makers[0]);
            var next := Pay(taker, size, makers[0].price);
            && 0 < size <= makers[0].size
            && Walking(grain, next, makers[1..])
            && (size < makers[0].size ==> Stops(grain, next, makers[0]))
            && (size < makers[0].size && |makers| > 1 ==> Stops(grain, next, makers[1]))
  {
    var m := makers[0];
    assert m in makers;
    assert forall x :: x in makers[1..] ==> x in makers;
    if taker.MarketBuy() {
      var funds, price := taker.funds, m.price;
      if funds < 0 {
        DebtBuysNothing(funds, price, grain);
      }
      BuyableBounds(funds, price, grain);
      var size := TradeSize(grain, taker, m);
      SpentBuysNothing(funds, price, grain, price);
      if |makers| > 1 {
        assert makers[1] in makers && Before(Sell, makers[0], makers[1]);
        SpendKeepsPayable(funds, price, grain, size, makers[1].price);
        SpentBuysNothing(funds, price, grain, makers[1].price);
      }
    }
  }

  /** Where the walk ends: no maker left, or the taker stops at the first one. */
  lemma {:induction false} WalkEnd(grain: int, taker: BookOrder, makers: seq<BookOrder>)
    requires Walking(grain, taker, makers)
    ensures var r := Walk(grain, taker, makers);
            && (r.taker.MarketBuy() == taker.MarketBuy())
            && Priced(r.taker, r.makers)
            && (r.makers == [] || Stops(grain, r.taker, r.makers[0]))
    decreases |makers|
  {
    if makers != [] && !Stops(grain, taker, makers[0]) {
      WalkStep(grain, taker, makers);
      var size := TradeSize(grain, taker, makers[0]);
      var next := Pay(taker, size, makers[0].price);
      WalkEnd(grain, next, makers[1..]);
      assert makers[0] in makers;
      var r := Walk(grain, next, makers[1..]);
      if size < makers[0].size {
        assert r == Walked(next, makers[1..], []);
        assert Walk(grain, taker, makers).makers == [makers[0].(size := makers[0].size - size)] + makers[1..];
        assert forall m :: m in makers[1..] ==> m in makers;
      } else {
        assert Walk(grain, taker, makers).makers == r.makers;
      }
    }
  }

  // ------------------------------------------------------- price-time priority

  function Emptied(q: seq<BookOrder>): (r: seq<Trade>)
    ensures |r| == |q|
  {
    if q == [] then [] else [Trade(q[0].(size := 0), q[0].size)] + Emptied(q[1..])
  }

  /** The walk emptied the first k makers and took `part` of the next one, and touched nothing else. */
  ghost predicate Prefix(makers: seq<BookOrder>, r: Walked, k: nat, part: nat) {
    k <= |makers| &&
    if part == 0 then r.trades == Emptied(makers[..k]) && r.makers == makers[k..]
    else
      k < |makers| && part < makers[k].size &&
      var cut := makers[k].(size := makers[k].size - part);
      r.trades == Emptied(makers[..k]) + [Trade(cut, part)] && r.makers == [cut] + makers[k + 1..]
  }

  lemma {:induction false} CutFirst(makers: seq<BookOrder>, r: Walked, part: nat)
    requires makers != [] && 0 < part < makers[0].size
    requires var cut := makers[0].(size := makers[0].size - part);
             r.trades == [Trade(cut, part)] && r.makers == [cut] + makers[1..]
    ensures Prefix(makers, r, 0, part)
  {
    assert makers[..0] == [] && Emptied(makers[..0]) == [];
  }

  /** The makers traded with are a prefix of the queue, all but possibly the last fully filled. */
  lemma {:induction false} WalkIsPrefix(grain: int, taker: BookOrder, makers: seq<BookOrder>) returns (k: nat, part: nat)
    requires Walking(grain, taker, makers)
    ensures Prefix(makers, Walk(grain, taker, makers), k, part)
    decreases |makers|
  {
    if makers == [] || Stops(grain, taker, makers[0]) {
      k, part := 0, 0;
      assert makers[..0] == [];
    } else {
      WalkStep(grain, taker, makers);
      var size := TradeSize(grain, taker, makers[0]);
      var next := Pay(taker, size, makers[0].price);
      if size < makers[0].size {
        k, part := 0, size;
        assert |makers| > 1 ==> makers[1..][0] == makers[1];
        assert Walk(grain, next, makers[1..]) == Walked(next, makers[1..], []);
        var cut := [Trade(makers[0].(size := makers[0].size - size), size)];
        assert cut + [] == cut;
        CutFirst(makers, Walk(grain, taker, makers), size);
      } else {
        k, part := WalkIsPrefix(grain, next, makers[1..]);
        PrefixGrows(makers, Walk(grain, next, makers[1..]), Walk(grain, taker, makers), k, part);
        k := k + 1;
      }
    }
  }

  lemma {:induction false} PrefixGrows(makers: seq<BookOrder>, rest: Walked, r: Walked, k: nat, part: nat)
    requires makers != [] && Prefix(makers[1..], rest, k, part)
    requires r == Walked(rest.taker, rest.makers, [Trade(makers[0].(size := 0), makers[0].size)] + rest.trades)
    ensures Prefix(makers, r, k + 1, part)
  {
    assert makers[..k + 1][1..] == makers[1..][..k];
    assert makers[1..][k..] == makers[k + 1..];
    if part > 0 {
      assert makers[1..][k] == makers[k + 1];
      assert makers[1..][k + 1..] == makers[k + 2..];
    }
  }

  function TotalSize(q: seq<BookOrder>): int {
    if q == [] then 0 else q[0].size + TotalSize(q[1..])
  }

  lemma {:induction false} TotalSizeNonNegative(q: seq<BookOrder>)
    requires forall m :: m in q ==> m.size > 0
    ensures TotalSize(q) >= 0
  {
    if q != [] {
      assert forall m :: m in q[1..] ==> m in q;
      TotalSizeNonNegative(q[1..]);
      assert q[0] in q;
    }
  }

  lemma {:induction false} ShrinkHead(grain: int, taker: BookOrder, makers: seq<BookOrder>)
    requires Walking(grain, taker, makers) && makers != [] && !Stops(grain, taker, makers[0])
    requires TradeSize(grain, taker, makers[0]) < makers[0].size
    ensures var size := TradeSize(grain, taker, makers[0]);
            var shrunk := [makers[0].(size := makers[0].size - size)] + makers[1..];
            var next := Pay(taker, size, makers[0].price);
            && Walking(grain, next, shrunk)
            && Stops(grain, next, shrunk[0])
            && 0 <= TotalSize(shrunk) < TotalSize(makers)
  {
    WalkStep(grain, taker, makers);
    var size := TradeSize(grain, taker, makers[0]);
    var m' := makers[0].(size := makers[0].size - size);
    var shrunk := [m'] + makers[1..];
    assert makers[0] in makers;
    assert shrunk[1..] == makers[1..];
    forall m | m in shrunk
      ensures m == m' || m in makers
    {
      assert m == m' || m in makers[1..];
    }
    forall i, j | 0 <= i < j < |shrunk|
      ensures Before(taker.side.Opposite(), shrunk[i], shrunk[j])
    {
      assert Before(taker.side.Opposite(), makers[i], makers[j]);
    }
    if taker.MarketBuy() {
      BuyableBoundsOfTaker(grain, taker, makers);
      SpendKeepsPayable(taker.funds, m'.price, grain, size, m'.price);
    }
    TotalSizeNonNegative(shrunk);
  }

  lemma {:induction false} BuyableBoundsOfTaker(grain: int, taker: BookOrder, makers: seq<BookOrder>)
    requires Walking(grain, taker, makers) && makers != [] && !Stops(grain, taker, makers[0])
    requires taker.MarketBuy()
    ensures taker.funds > 0 && makers[0].price > 0
    ensures 0 < BuyableSize(taker.funds, makers[0].price, grain)
  {
    assert makers[0] in makers;
    if taker.funds < 0 {
      DebtBuysNothing(taker.funds, makers[0].price, grain);
    }
    BuyableBounds(taker.funds, makers[0].price, grain);
  }

  /** The reference: as long as the taker can trade with the best order on the other side, it does. */
  ghost function TakeBest(grain: int, taker: BookOrder, makers: seq<BookOrder>): Walked
    requires Walking(grain, taker, makers)
    decreases TotalSize(makers), |makers|
  {
    if makers == [] || Stops(grain, taker, makers[0]) then Walked(taker, makers, [])
    else
      var size := TradeSize(grain, taker, makers[0]);
      var best := makers[0].(size := makers[0].size - size);
      var next := Pay(taker, size, best.price);
      WalkStep(grain, taker, makers);
      if best.size == 0 then
        TailIsSmaller(makers);
        var r := TakeBest(grain, next, makers[1..]);
        Walked(r.taker, r.makers, [Trade(best, size)] + r.trades)
      else
        ShrinkHead(grain, taker, makers);
        var r := TakeBest(grain, next, [best] + makers[1..]);
        Walked(r.taker, r.makers, [Trade(best, size)] + r.trades)
  }

  lemma {:induction false} TailIsSmaller(makers: seq<BookOrder>)
    requires makers != [] && forall m :: m in makers ==> m.size > 0
    ensures 0 <= TotalSize(makers[1..]) < TotalSize(makers)
  {
    assert makers[0] in makers;
    assert forall m :: m in makers[1..] ==> m in makers;
    TotalSizeNonNegative(makers[1..]);
  }

  /** The iterator walk over a changing queue does exactly what repeatedly taking the best order would. */
  lemma {:induction false} WalkTakesBest(grain: int, taker: BookOrder, makers: seq<BookOrder>)
    requires Walking(grain, taker, makers)
    ensures Walk(grain, taker, makers) == TakeBest(grain, taker, makers)
    decreases |makers|
  {
    if makers != [] && !Stops(grain, taker, makers[0]) {
      WalkStep(grain, taker, makers);
      var size := TradeSize(grain, taker, makers[0]);
      var next := Pay(taker, size, makers[0].price);
      if size < makers[0].size {
        ShrinkHead(grain, taker, makers);
        assert Walk(grain, next, makers[1..]) == Walked(next, makers[1..], []);
      } else {
        WalkTakesBest(grain, next, makers[1..]);
      }
    }
  }

  // ------------------------------------------------------- amounts

  function TradedSize(trades: seq<Trade>): int {
    if trades == [] then 0 else trades[0].size + TradedSize(trades[1..])
  }

  function TradedValue(trades: seq<Trade>): int {
    if trades == [] then 0 else trades[0].size * trades[0].maker.price + TradedValue(trades[1..])
  }

  /** The taker's books balance: what it gave up is what the trades say, at prices it accepted, to makers
      of the other side that shrank by the traded size. */
  lemma {:induction false} WalkBalances(grain: int, taker: BookOrder, makers: seq<BookOrder>)
    requires Walking(grain, taker, makers)
    ensures var r := Walk(grain, taker, makers);
            && (if taker.MarketBuy()
                then r.taker == taker.(funds := r.taker.funds) && taker.funds - r.taker.funds == TradedValue(r.trades)
                else r.taker == taker.(size := r.taker.size) && taker.size - r.taker.size == TradedSize(r.trades)
                     && r.taker.size >= 0)
            && (forall t :: t in r.trades ==>
                  (Crosses(taker, t.maker) && t.size > 0 && t.maker.size >= 0
                   && t.maker.side == taker.side.Opposite() && t.maker.price >= 0))
    decreases |makers|
  {
    if makers != [] && !Stops(grain, taker, makers[0]) {
      WalkStep(grain, taker, makers);
      var size := TradeSize(grain, taker, makers[0]);
      var next := Pay(taker, size, makers[0].price);
      WalkBalances(grain, next, makers[1..]);
      assert makers[0] in makers;
    }
  }
}
