/** How much an order trades and where it stops, said through the book and the log alone. */
module TakerTheorems {
  import opened Types
  import opened PriceTime
  import opened DedupWindow
  import opened Decimals
  import opened Matching
  import opened MatchLoop
  import opened MarketBuy
  import opened BookInvariant
  import opened LogGrammar
  import opened OrderLives

  /** A market order accepts any price, a limit order its own or a better one. */
  predicate Acceptable(o: BookOrder, m: BookOrder) {
    o.kind.Market? || (if o.side.Buy? then m.price <= o.price else o.price <= m.price)
  }

  /** The size of the makers an order accepts. */
  function OnOffer(o: BookOrder, makers: seq<BookOrder>): int {
    if makers == [] then 0 else (if Acceptable(o, makers[0]) then makers[0].size else 0) + OnOffer(o, makers[1..])
  }

  lemma {:induction false} NothingOnOffer(o: BookOrder, makers: seq<BookOrder>)
    requires forall m :: m in makers ==> !Acceptable(o, m)
    ensures OnOffer(o, makers) == 0
  {
    if makers != [] {
      assert forall m :: m in makers[1..] ==> m in makers;
      NothingOnOffer(o, makers[1..]);
      assert makers[0] in makers;
    }
  }

  lemma {:induction false} OnOfferNotNegative(o: BookOrder, makers: seq<BookOrder>)
    requires forall m :: m in makers ==> m.size > 0
    ensures OnOffer(o, makers) >= 0
  {
    if makers != [] {
      assert forall m :: m in makers[1..] ==> m in makers;
      OnOfferNotNegative(o, makers[1..]);
      assert makers[0] in makers;
    }
  }

  /** The walk crosses exactly what the order accepts. */
  ghost predicate Stands(o: BookOrder, taker: BookOrder) {
    forall m: BookOrder :: m.price >= 0 && m.side == taker.side.Opposite() ==> (Crosses(taker, m) <==> Acceptable(o, m))
  }

  lemma {:induction false} WalkTakesAll(grain: int, o: BookOrder, taker: BookOrder, makers: seq<BookOrder>)
    requires Walking(grain, taker, makers) && !taker.MarketBuy() && Stands(o, taker)
    ensures TradedSize(Walk(grain, taker, makers).trades) == Min(taker.size, OnOffer(o, makers))
    ensures TotalSize(Walk(grain, taker, makers).makers) == TotalSize(makers) - TradedSize(Walk(grain, taker, makers).trades)
    decreases |makers|
  {
    OnOfferNotNegative(o, makers);
    if makers != [] {
      var m := makers[0];
      assert m in makers;
      if !Crosses(taker, m) {
        NoneCrosses(o, taker, makers);
      } else if taker.size > 0 {
        WalkStep(grain, taker, makers);
        WalkTakesAll(grain, o, Pay(taker, TradeSize(grain, taker, m), m.price), makers[1..]);
        assert forall x :: x in makers[1..] ==> x in makers;
        OnOfferNotNegative(o, makers[1..]);
        OneTaken(grain, o, taker, makers);
      }
    }
  }

  lemma {:induction false} NoneCrosses(o: BookOrder, taker: BookOrder, makers: seq<BookOrder>)
    requires Resting(taker.side.Opposite(), makers) && Stands(o, taker) && makers != [] && !Crosses(taker, makers[0])
    ensures OnOffer(o, makers) == 0
  {
    forall x | x in makers
      ensures !Acceptable(o, x)
    {
      var i :| 0 <= i < |makers| && makers[i] == x;
      assert makers[0] in makers;
      assert i > 0 ==> Before(taker.side.Opposite(), makers[0], x);
      assert !Crosses(taker, x);
    }
    NothingOnOffer(o, makers);
  }

  lemma {:induction false} OneTaken(grain: int, o: BookOrder, taker: BookOrder, makers: seq<BookOrder>)
    requires grain > 0 && Priced(taker, makers) && !taker.MarketBuy() && makers != [] && !Stops(grain, taker, makers[0])
    requires Acceptable(o, makers[0]) && taker.size > 0 && makers[0].size > 0 && OnOffer(o, makers[1..]) >= 0
    requires var size := Min(taker.size, makers[0].size);
             var rest := Walk(grain, Pay(taker, size, makers[0].price), makers[1..]);
             && TradedSize(rest.trades) == Min(taker.size - size, OnOffer(o, makers[1..]))
             && TotalSize(rest.makers) == TotalSize(makers[1..]) - TradedSize(rest.trades)
    ensures var r := Walk(grain, taker, makers);
            && TradedSize(r.trades) == Min(taker.size, OnOffer(o, makers))
            && TotalSize(r.makers) == TotalSize(makers) - TradedSize(r.trades)
  {
    var m, size := makers[0], Min(taker.size, makers[0].size);
    var left := m.(size := m.size - size);
    var rest := Walk(grain, Pay(taker, size, m.price), makers[1..]);
    var r := Walk(grain, taker, makers);
    assert r.trades == [Trade(left, size)] + rest.trades && r.trades[1..] == rest.trades;
    assert ([left] + rest.makers)[1..] == rest.makers && [] + rest.makers == rest.makers;
    if size < m.size {
      assert rest.trades == [] || TradedSize(rest.trades) == 0;
    }
  }

  lemma {:induction false} AggressorStands(b: Book, o: BookOrder)
    requires ScaleOk(b.product) && !o.MarketBuy()
    ensures Stands(o, Aggressor(b.product, o))
  {
  }

  /** A limit order or a market sell trades exactly what is on offer to it, up to its size, and leaves the rest of the
      other side as it is: it stops only when it is filled or nothing acceptable is left. */
  lemma {:induction false} TradesAllOnOffer(b: Book, o: BookOrder)
    requires ValidBook(b) && o.Sane() && CanApply(b, o) && Accepts(b.window, o.id) && o.id !in RestingIds(b) && !o.MarketBuy()
    ensures var a, q := ApplyOrder(b, o), Depth(b, o.side.Opposite());
            var filled := LifeOf(a.logs, o.id).filled;
            && filled == (if o.size <= OnOffer(o, q) then o.size else OnOffer(o, q))
            && TotalSize(Depth(a.book, o.side.Opposite())) == TotalSize(q) - filled
            && (o.kind.Market? ==> OnOffer(o, q) == TotalSize(q))
            && (o.kind.Market? && filled < o.size ==> Depth(a.book, o.side.Opposite()) == [])
  {
    hide Walk;
    var trades := TakerLife(b, o);
    AggressorWalks(b, o);
    AggressorStands(b, o);
    var q, taker := Depth(b, o.side.Opposite()), Aggressor(b.product, o);
    WalkTakesAll(Grain(b.product), o, taker, q);
    OtherSide(b, o);
    if o.kind.Market? {
      AllOnOffer(o, q);
      ApplyKeepsValid(b, o);
      EmptyIfNothingLeft(Depth(ApplyOrder(b, o).book, o.side.Opposite()));
    }
  }

  lemma {:induction false} OtherSide(b: Book, o: BookOrder)
    requires ValidBook(b) && o.Sane() && CanApply(b, o) && Accepts(b.window, o.id)
    ensures Depth(ApplyOrder(b, o).book, o.side.Opposite()) ==
            Walk(Grain(b.product), Aggressor(b.product, o), Depth(b, o.side.Opposite())).makers
  {
    hide Walk, TradeLogs;
    RemainderFacts(b, o);
  }

  lemma {:induction false} AllOnOffer(o: BookOrder, q: seq<BookOrder>)
    requires o.kind.Market?
    ensures OnOffer(o, q) == TotalSize(q)
  {
    if q != [] {
      AllOnOffer(o, q[1..]);
    }
  }

  lemma {:induction false} EmptyIfNothingLeft(q: seq<BookOrder>)
    requires (forall m :: m in q ==> m.size > 0)
    ensures TotalSize(q) == 0 ==> q == []
  {
    if q != [] {
      assert q[0] in q;
      assert forall m :: m in q[1..] ==> m in q;
      TotalSizeNonNegative(q[1..]);
    }
  }

  // ------------------------------------------------------- market buys, at any prices

  /** Funds that round to less than one base tick at a price: less than the price by more than the rounding error. */
  ghost predicate TooLittle(funds: int, price: int, grain: int) {
    price < 2 * grain * (price - funds)
  }

  lemma {:induction false} StopMeansTooLittle(grain: int, taker: BookOrder, m: BookOrder)
    requires grain >= 2 && taker.MarketBuy() && m.price > 0 && Crosses(taker, m) && Stops(grain, taker, m)
    ensures TooLittle(taker.funds, m.price, grain)
  {
    if taker.funds <= 0 {
      MulMono(m.price, m.price - taker.funds, 2 * grain);
    } else {
      BuyableBounds(taker.funds, m.price, grain);
    }
  }

  lemma {:induction false} DearerIsTooLittle(funds: int, price: int, dearer: int, grain: int)
    requires grain >= 1 && TooLittle(funds, price, grain) && price <= dearer
    ensures TooLittle(funds, dearer, grain)
  {
    MulMono(price, dearer, 2 * grain - 1);
    assert 2 * grain * (dearer - funds) - dearer == (2 * grain - 1) * dearer - 2 * grain * funds;
    assert 2 * grain * (price - funds) - price == (2 * grain - 1) * price - 2 * grain * funds;
  }

  lemma {:induction false} BuyStopsLate(grain: int, taker: BookOrder, asks: seq<BookOrder>)
    requires Walking(grain, taker, asks) && taker.MarketBuy() && forall m :: m in asks ==> m.price > 0
    ensures var r := Walk(grain, taker, asks);
            r.makers != [] && r.makers[0].price <= taker.price ==> TooLittle(r.taker.funds, r.makers[0].price, grain)
    ensures Walk(grain, taker, asks).taker.price == taker.price
  {
    var r := Walk(grain, taker, asks);
    WalkEnd(grain, taker, asks);
    WalkBalances(grain, taker, asks);
    if r.makers != [] && r.makers[0].price <= taker.price {
      var k, part := WalkIsPrefix(grain, taker, asks);
      assert asks[k] in asks && r.makers[0].price == asks[k].price;
      StopMeansTooLittle(grain, r.taker, r.makers[0]);
    }
  }

  /** At any prices, a market buy stops only for good reason: the funds it has left are too little for one base tick at
      every ask that remains, up to the largest 32-bit float. */
  lemma {:induction false} BuysWhileItCan(b: Book, o: BookOrder, m: BookOrder)
    requires ValidBook(b) && o.Sane() && CanApply(b, o) && Accepts(b.window, o.id) && o.id !in RestingIds(b) && o.MarketBuy()
    requires forall x :: x in b.asks ==> x.price > 0
    requires m in ApplyOrder(b, o).book.asks && m.price <= MarketBuyPrice(b.product)
    ensures TooLittle(o.funds - LifeOf(ApplyOrder(b, o).logs, o.id).value, m.price, Grain(b.product))
  {
    hide Walk, ApplyOrder;
    var trades := TakerLife(b, o);
    TakerAmounts(b, o, trades);
    AggressorWalks(b, o);
    OtherSide(b, o);
    ApplyKeepsValid(b, o);
    BuyStopsLate(Grain(b.product), Aggressor(b.product, o), b.asks);
    var after := ApplyOrder(b, o).book.asks;
    SortedIsDearer(after);
    DearerIsTooLittle(o.funds - TradedValue(trades), after[0].price, m.price, Grain(b.product));
  }
}
