/** The log explains the book: at any moment each order's log entries account for exactly what became of it. */
module OrderLives {
  import opened Types
  import opened PriceTime
  import opened DedupWindow
  import opened Decimals
  import opened Matching
  import opened MatchLoop
  import opened MarketBuy
  import opened BookInvariant
  import opened LogGrammar

  function RestingOrders(b: Book): map<int, BookOrder> {
    OrderMap(b.asks) + OrderMap(b.bids)
  }

  lemma {:induction false} RestingOrdersKeys(b: Book)
    ensures RestingOrders(b).Keys == RestingIds(b)
  {
    OrderMapKeys(b.asks);
    OrderMapKeys(b.bids);
  }

  /** Prices a division can take without rounding up: the bound of Decimals.NeverOverspendsExactly. */
  ghost predicate PricesBounded(p: Product, placed: map<int, BookOrder>)
    requires ScaleOk(p)
  {
    forall id :: id in placed && placed[id].kind.Limit? ==> placed[id].price < 2 * Grain(p)
  }

  /** Matched amounts within what the order allows: its size, at its price or better. */
  ghost predicate WithinLimit(o: BookOrder, l: Life) {
    && 0 <= l.filled <= o.size && l.value >= 0
    && (if o.side.Buy? then l.value <= l.filled * o.price else l.filled * o.price <= l.value)
  }

  /** The amounts of a finished order: a limit order's matches and its Done make up its size; a market sell
      stays within its size, and a market buy within its funds when prices are bounded. */
  ghost predicate Ended(o: BookOrder, l: Life, bounded: bool) {
    && l.phase.Finished?
    && (o.kind.Limit? ==> WithinLimit(o, l) && l.filled + l.returned == o.size)
    && (o.kind.Market? ==> l.returned == 0 && l.filled >= 0 && l.value >= 0)
    && (o.kind.Market? && o.side.Sell? ==> l.filled <= o.size)
    && (o.MarketBuy() && bounded ==> l.value <= o.funds)
  }

  ghost predicate Explained(l: Life, id: int, resting: map<int, BookOrder>, placed: map<int, BookOrder>, bounded: bool) {
    if id in resting then
      && id in placed && placed[id].kind.Limit?
      && resting[id] == placed[id].(size := resting[id].size) && resting[id].size > 0
      && l.phase.Standing? && l.filled == placed[id].size - resting[id].size && WithinLimit(placed[id], l)
    else if id in placed then l == NO_LIFE || Ended(placed[id], l, bounded)
    else l == NO_LIFE
  }

  ghost predicate LogExplainsBook(b: Book, logs: seq<Log>, placed: map<int, BookOrder>)
    requires ScaleOk(b.product)
  {
    forall id :: Explained(LifeOf(logs, id), id, RestingOrders(b), placed, PricesBounded(b.product, placed))
  }

  lemma {:induction false} ValueWithin(taker: BookOrder, trades: seq<Trade>)
    requires forall t :: t in trades ==> Crosses(taker, t.maker) && t.size > 0 && t.maker.price >= 0
    ensures TradedSize(trades) >= 0 && TradedValue(trades) >= 0
    ensures if taker.side.Buy? then TradedValue(trades) <= TradedSize(trades) * taker.price
            else TradedSize(trades) * taker.price <= TradedValue(trades)
  {
    if trades != [] {
      assert forall t :: t in trades[1..] ==> t in trades;
      ValueWithin(taker, trades[1..]);
      var t := trades[0];
      assert t in trades;
      MulMono(0, t.size, t.maker.price);
      if taker.side.Buy? {
        ValueStep(t.size, t.maker.price, taker.price, TradedSize(trades[1..]), TradedValue(trades[1..]));
      } else {
        ValueStep(t.size, taker.price, t.maker.price, TradedSize(trades[1..]), TradedValue(trades[1..]));
      }
    }
  }

  lemma {:induction false} ValueStep(size: int, low: int, high: int, total: int, value: int)
    requires size > 0 && low <= high && high >= 0
    ensures size * high >= 0
    ensures value <= total * high ==> size * low + value <= (size + total) * high
    ensures total * low <= value ==> (size + total) * low <= size * high + value
  {
    MulMono(low, high, size);
    MulMono(0, high, size);
    assert (size + total) * high == size * high + total * high;
    assert (size + total) * low == size * low + total * low;
  }

  /** Below the bound the match loop never takes a market buy into debt. */
  lemma {:induction false} BoundedFundsSuffice(b: Book, o: BookOrder)
    requires ValidBook(b) && o.Sane() && CanApply(b, o) && Accepts(b.window, o.id) && o.MarketBuy()
    requires forall m :: m in b.asks ==> m.price < 2 * Grain(b.product)
    ensures Remainder(b, o).funds >= 0
  {
    AggressorWalks(b, o);
    var grain, taker := Grain(b.product), Aggressor(b.product, o);
    if o.funds == 0 {
      assert Walk(grain, taker, b.asks).taker == taker;
    } else {
      BoundBelowMarketPrice(b.product);
      var none: seq<nat> := seq(|b.asks|, _ => 0);
      CostOfNothing(b.asks, none);
      GreedyIsOptimal(grain, taker, b.asks, none);
    }
  }

  lemma {:induction false} BoundBelowMarketPrice(p: Product)
    requires ScaleOk(p)
    ensures 2 * Grain(p) <= MarketBuyPrice(p)
  {
    var g, h := Pow10(16 - p.baseScale), Pow10(22 + p.quoteScale);
    assert g <= h by { PowMonotone(16 - p.baseScale, 22 + p.quoteScale); }
    assert Grain(p) == g && MarketBuyPrice(p) == 34028234663852886 * h;
    LargeFactor(g, h);
  }

  lemma {:induction false} LargeFactor(g: int, h: int)
    requires 0 <= g <= h
    ensures 2 * g <= 34028234663852886 * h
  {
  }

  lemma {:induction false} PowMonotone(a: nat, b: nat)
    requires a <= b
    ensures Pow10(a) <= Pow10(b)
    decreases b
  {
    if a < b {
      PowMonotone(a, b - 1);
    }
  }

  /** The entries of one accepted order, and the depths it leaves, in the terms the proofs need. */
  lemma {:induction false} AcceptedShape(b: Book, o: BookOrder) returns (trades: seq<Trade>, tail: Log)
    requires ValidBook(b) && o.Sane() && CanApply(b, o) && Accepts(b.window, o.id) && o.id !in RestingIds(b)
    ensures var taker := Aggressor(b.product, o);
            var r := Walk(Grain(b.product), taker, Depth(b, o.side.Opposite()));
            var a := ApplyOrder(b, o);
            && trades == r.trades
            && a.logs == TradeLogs(o.id, trades, b.logSeq, b.tradeSeq) + [tail]
            && OrderMap(Depth(a.book, o.side.Opposite())) == OrderMap(r.makers)
            && (if r.taker.kind.Limit? && r.taker.size > 0 then
                  tail.OpenLog? && tail.orderId == o.id && tail.remainingSize == r.taker.size
                  && OrderMap(Depth(a.book, o.side)) == OrderMap(Depth(b, o.side))[o.id := r.taker]
                else
                  tail.DoneLog? && tail.orderId == o.id && tail.remainingSize == (if o.kind.Limit? then r.taker.size else 0)
                  && OrderMap(Depth(a.book, o.side)) == OrderMap(Depth(b, o.side)))
  {
    hide Walk, TradeLogs, OrderMap, Sorted, Uncrossed, DistinctIds, Grain;
    AggressorWalks(b, o);
    var taker := Aggressor(b.product, o);
    var q := Depth(b, o.side.Opposite());
    var r := Walk(Grain(b.product), taker, q);
    WalkBalances(Grain(b.product), taker, q);
    trades := r.trades;
    var f := Finish(Traded(b, o), r.taker);
    tail := f.logs[0];
    if r.taker.kind.Limit? && r.taker.size > 0 {
      OrderMapOfInsert(o.side, Depth(b, o.side), r.taker);
    }
  }

  lemma {:induction false} LifeOfTail(l: Life, logs: seq<Log>, tail: Log, id: int)
    ensures LifeFrom(l, logs + [tail], id) == Advance(LifeFrom(l, logs, id), tail, id)
  {
    LifeConcat(l, logs, [tail], id);
    assert LifeFrom(LifeFrom(l, logs, id), [tail], id) == LifeFrom(Advance(LifeFrom(l, logs, id), tail, id), [], id);
  }

  /** An order rests on one side only, so looking it up by side loses nothing. */
  lemma {:induction false} RestingLookup(b: Book, side: Side, id: int)
    requires Ids(b.asks) !! Ids(b.bids)
    ensures var own, other := OrderMap(Depth(b, side)), OrderMap(Depth(b, side.Opposite()));
            && (id in RestingOrders(b) <==> id in own || id in other)
            && (id in own ==> id !in other && RestingOrders(b)[id] == own[id])
            && (id in other ==> id !in own && RestingOrders(b)[id] == other[id])
  {
    OrderMapKeys(b.asks);
    OrderMapKeys(b.bids);
  }

  lemma {:induction false} LifeOfEntries(id: int, trades: seq<Trade>, logSeq: int, tradeSeq: int, tail: Log)
    requires forall t :: t in trades ==> t.maker.id != id
    requires !tail.MatchLog? && tail.orderId == id
    ensures LifeOf(TradeLogs(id, trades, logSeq, tradeSeq) + [tail], id) ==
            Life(if tail.OpenLog? then Standing else Finished, TradedSize(trades), TradedValue(trades),
                 if tail.OpenLog? then 0 else tail.remainingSize)
  {
    LifeOfTaker(NO_LIFE, id, trades, logSeq, tradeSeq);
    LifeOfTail(NO_LIFE, TradeLogs(id, trades, logSeq, tradeSeq), tail, id);
  }

  /** The makers of the trades rest on the other side, so none of them is the taker. */
  lemma {:induction false} NoSelfTrade(b: Book, o: BookOrder)
    requires ValidBook(b) && o.Sane() && CanApply(b, o) && Accepts(b.window, o.id) && o.id !in RestingIds(b)
    ensures var q := Depth(b, o.side.Opposite());
            var r := Walk(Grain(b.product), Aggressor(b.product, o), q);
            && (forall t :: t in r.trades ==> t.maker.id != o.id && t.maker.id in Ids(q))
            && OrderMap(r.makers).Keys <= Ids(q)
            && o.id !in OrderMap(r.makers) && o.id !in OrderMap(Depth(b, o.side))
  {
    var q := Depth(b, o.side.Opposite());
    var taker := Aggressor(b.product, o);
    TradePartners(Grain(b.product), taker, q);
    OrderMapKeys(Walk(Grain(b.product), taker, q).makers);
    OrderMapKeys(Depth(b, o.side));
  }

  /** The taker's life, as its own entries tell it. */
  lemma {:induction false} TakerLife(b: Book, o: BookOrder) returns (trades: seq<Trade>)
    requires ValidBook(b) && o.Sane() && CanApply(b, o) && Accepts(b.window, o.id) && o.id !in RestingIds(b)
    ensures trades == Walk(Grain(b.product), Aggressor(b.product, o), Depth(b, o.side.Opposite())).trades
    ensures var a, left := ApplyOrder(b, o), Remainder(b, o);
            var rests := o.kind.Limit? && left.size > 0;
            && (o.id in RestingOrders(a.book) <==> rests)
            && (rests ==> RestingOrders(a.book)[o.id] == left)
            && LifeOf(a.logs, o.id) == Life(if rests then Standing else Finished, TradedSize(trades), TradedValue(trades),
                                            if rests || o.kind.Market? then 0 else left.size)
  {
    var tail;
    trades, tail := AcceptedShape(b, o);
    NoSelfTrade(b, o);
    LifeOfEntries(o.id, trades, b.logSeq, b.tradeSeq, tail);
    ApplyKeepsValid(b, o);
    RestingLookup(ApplyOrder(b, o).book, o.side, o.id);
    RemainderFacts(b, o);
  }

  /** The amounts an accepted order trades. */
  lemma {:induction false} TakerAmounts(b: Book, o: BookOrder, trades: seq<Trade>)
    requires ValidBook(b) && o.Sane() && CanApply(b, o) && Accepts(b.window, o.id)
    requires trades == Walk(Grain(b.product), Aggressor(b.product, o), Depth(b, o.side.Opposite())).trades
    ensures var left := Remainder(b, o);
            && 0 <= TradedSize(trades) && 0 <= TradedValue(trades)
            && (if o.MarketBuy() then left.size == o.size && TradedValue(trades) == o.funds - left.funds
                else left.size == o.size - TradedSize(trades) && left.size >= 0 && left.funds == o.funds)
            && (o.kind.Limit? ==> WithinLimit(o, Life(Taking, TradedSize(trades), TradedValue(trades), 0)))
  {
    AggressorWalks(b, o);
    var taker := Aggressor(b.product, o);
    WalkBalances(Grain(b.product), taker, Depth(b, o.side.Opposite()));
    ValueWithin(taker, trades);
  }

  /** An accepted order explains itself. */
  lemma {:induction false} TakerExplained(b: Book, o: BookOrder, placed: map<int, BookOrder>)
    requires ValidBook(b) && o.Sane() && CanApply(b, o) && Accepts(b.window, o.id) && o.id !in RestingIds(b)
    requires PricesBounded(b.product, placed) ==> forall m :: m in b.asks ==> m.price < 2 * Grain(b.product)
    requires o.id in placed && placed[o.id] == o
    ensures var a := ApplyOrder(b, o);
            Explained(LifeOf(a.logs, o.id), o.id, RestingOrders(a.book), placed, PricesBounded(b.product, placed))
  {
    var trades := TakerLife(b, o);
    TakerAmounts(b, o, trades);
    RemainderFacts(b, o);
    if o.MarketBuy() && PricesBounded(b.product, placed) {
      BoundedFundsSuffice(b, o);
    }
  }

  /** A maker that one walk reached, or did not: its record stays right. */
  lemma {:induction false} MakerStaysExplained(m: BookOrder, after: map<int, BookOrder>, l: Life, l': Life, o: BookOrder, bounded: bool)
    requires MakerLived(m, after, l, l') && l.phase.Standing?
    requires m == o.(size := m.size) && o.kind.Limit? && m.size > 0 && m.price >= 0
    requires l.filled == o.size - m.size && WithinLimit(o, l)
    requires m.id in after ==> 0 < after[m.id].size <= m.size
    ensures if m.id in after then
              var m' := after[m.id];
              m' == o.(size := m'.size) && l'.phase.Standing? && l'.filled == o.size - m'.size && WithinLimit(o, l')
            else Ended(o, l', bounded)
  {
    var traded := if m.id in after then m.size - after[m.id].size else m.size;
    MulMono(0, traded, m.price);
    assert l'.filled * o.price == l.filled * o.price + traded * m.price;
  }

  lemma {:induction false} SizesShrink(q: seq<BookOrder>, r: Walked, k: nat, part: nat, i: nat)
    requires DistinctIds(q) && (forall m :: m in q ==> m.size > 0) && Prefix(q, r, k, part) && i < |q|
    ensures q[i].id in OrderMap(r.makers) ==> 0 < OrderMap(r.makers)[q[i].id].size <= q[i].size
  {
    OrderMapKeys(r.makers);
    if q[i].id in OrderMap(r.makers) {
      var x :| x in r.makers && x.id == q[i].id;
      var j :| 0 <= j < |r.makers| && r.makers[j] == x;
      SurvivorAt(q, r, k, part, j);
      DistinctIndex(q, k + j, i);
      SurvivorsDistinct(q, r, k, part);
      OrderMapAt(r.makers, j);
    }
  }

  lemma {:induction false} SurvivorsDistinct(q: seq<BookOrder>, r: Walked, k: nat, part: nat)
    requires DistinctIds(q) && (forall m :: m in q ==> m.size > 0) && Prefix(q, r, k, part)
    ensures DistinctIds(r.makers)
  {
    forall i, j | 0 <= i < j < |r.makers|
      ensures r.makers[i].id != r.makers[j].id
    {
      SurvivorAt(q, r, k, part, i);
      SurvivorAt(q, r, k, part, j);
    }
  }

  /** A maker's record stays right through an accepted order of the other side. */
  lemma {:induction false} MakerExplained(b: Book, o: BookOrder, l: Life, placed: BookOrder, i: nat, bounded: bool)
    requires ValidBook(b) && o.Sane() && CanApply(b, o) && Accepts(b.window, o.id) && o.id !in RestingIds(b)
    requires i < |Depth(b, o.side.Opposite())|
    requires var m := Depth(b, o.side.Opposite())[i];
             m == placed.(size := m.size) && l.phase.Standing? && l.filled == placed.size - m.size && WithinLimit(placed, l)
    ensures var q := Depth(b, o.side.Opposite());
            var r := Walk(Grain(b.product), Aggressor(b.product, o), q);
            var after := OrderMap(r.makers);
            var l' := LifeFrom(l, TradeLogs(o.id, r.trades, b.logSeq, b.tradeSeq), q[i].id);
            if q[i].id in after then
              var m' := after[q[i].id];
              m' == placed.(size := m'.size) && m'.size > 0
              && l'.phase.Standing? && l'.filled == placed.size - m'.size && WithinLimit(placed, l')
            else Ended(placed, l', bounded)
  {
    AggressorWalks(b, o);
    var grain, taker := Grain(b.product), Aggressor(b.product, o);
    var q := Depth(b, o.side.Opposite());
    assert q[i] in q;
    var r := Walk(grain, taker, q);
    LifeOfMaker(grain, taker, q, i, l, b.logSeq, b.tradeSeq);
    var k, part := WalkIsPrefix(grain, taker, q);
    SizesShrink(q, r, k, part, i);
    MakerStaysExplained(q[i], OrderMap(r.makers), l, LifeFrom(l, TradeLogs(o.id, r.trades, b.logSeq, b.tradeSeq), q[i].id),
                        placed, bounded);
  }

  /** How an accepted order's entries and the depths after it look to another order. */
  lemma {:induction false} OthersSee(b: Book, logs: seq<Log>, o: BookOrder, id: int)
    requires ValidBook(b) && o.Sane() && CanApply(b, o) && Accepts(b.window, o.id) && o.id !in RestingIds(b)
    requires id != o.id
    ensures var a := ApplyOrder(b, o);
            var q := Depth(b, o.side.Opposite());
            var r := Walk(Grain(b.product), Aggressor(b.product, o), q);
            var l := LifeOf(logs, id);
            && LifeOf(logs + a.logs, id) == LifeFrom(l, TradeLogs(o.id, r.trades, b.logSeq, b.tradeSeq), id)
            && (id !in Ids(q) ==> LifeOf(logs + a.logs, id) == l)
            && (id in Ids(q) ==> (id in RestingOrders(a.book) <==> id in OrderMap(r.makers)))
            && (id in OrderMap(r.makers) ==> id in RestingOrders(a.book) && RestingOrders(a.book)[id] == OrderMap(r.makers)[id])
            && (id !in Ids(q) ==> (id in RestingOrders(a.book) <==> id in RestingOrders(b)))
            && (id !in Ids(q) && id in RestingOrders(b) ==> RestingOrders(a.book)[id] == RestingOrders(b)[id])
  {
    var trades, tail := AcceptedShape(b, o);
    NoSelfTrade(b, o);
    var q := Depth(b, o.side.Opposite());
    var l := LifeOf(logs, id);
    var entries := TradeLogs(o.id, trades, b.logSeq, b.tradeSeq);
    LifeConcat(NO_LIFE, logs, entries + [tail], id);
    LifeOfTail(l, entries, tail, id);
    if id !in Ids(q) {
      LifeOfBystander(l, o.id, trades, b.logSeq, b.tradeSeq, id);
    }
    ApplyKeepsValid(b, o);
    RestingLookup(ApplyOrder(b, o).book, o.side, id);
    RestingLookup(b, o.side, id);
    OrderMapKeys(q);
    OrderMapKeys(Depth(b, o.side));
  }

  /** Every other order's record stays right through an accepted order. */
  lemma {:induction false} OthersExplained(b: Book, logs: seq<Log>, placed: map<int, BookOrder>, o: BookOrder, id: int, bounded: bool)
    requires ValidBook(b) && o.Sane() && CanApply(b, o) && Accepts(b.window, o.id) && o.id !in RestingIds(b)
    requires o.id !in placed && id != o.id
    requires Explained(LifeOf(logs, id), id, RestingOrders(b), placed, bounded)
    ensures var a := ApplyOrder(b, o);
            Explained(LifeOf(logs + a.logs, id), id, RestingOrders(a.book), placed[o.id := o], bounded)
  {
    OthersSee(b, logs, o, id);
    var q := Depth(b, o.side.Opposite());
    if id in Ids(q) {
      var x :| x in q && x.id == id;
      var i :| 0 <= i < |q| && q[i] == x;
      OrderMapAt(q, i);
      RestingLookup(b, o.side, id);
      MakerExplained(b, o, LifeOf(logs, id), placed[id], i, bounded);
    }
  }

  // ------------------------------------------------------- every step, every run

  /** The invariant of the matching side: a valid book, a gapless log, and the one explaining the other. */
  ghost predicate Sound(b: Book, logs: seq<Log>, placed: map<int, BookOrder>) {
    && ValidBook(b)
    && NumberedFrom(logs, 0, 0) && b.logSeq == |logs| && b.tradeSeq == Matches(logs)
    && LogExplainsBook(b, logs, placed)
  }

  lemma {:induction false} RestingArePlaced(b: Book, logs: seq<Log>, placed: map<int, BookOrder>)
    requires Sound(b, logs, placed)
    ensures RestingIds(b) <= placed.Keys
    ensures PricesBounded(b.product, placed) ==> forall m :: m in b.asks ==> m.price < 2 * Grain(b.product)
  {
    RestingOrdersKeys(b);
    forall id | id in RestingIds(b)
      ensures id in placed
    {
      assert Explained(LifeOf(logs, id), id, RestingOrders(b), placed, PricesBounded(b.product, placed));
    }
    if PricesBounded(b.product, placed) {
      forall m | m in b.asks
        ensures m.price < 2 * Grain(b.product)
      {
        var i :| 0 <= i < |b.asks| && b.asks[i] == m;
        OrderMapAt(b.asks, i);
        RestingLookup(b, Sell, m.id);
        assert Explained(LifeOf(logs, m.id), m.id, RestingOrders(b), placed, PricesBounded(b.product, placed));
      }
    }
  }

  lemma {:induction false} ApplyNumbers(b: Book, o: BookOrder)
    requires CanApply(b, o)
    ensures var a := ApplyOrder(b, o);
            && NumberedFrom(a.logs, b.logSeq, b.tradeSeq)
            && a.book.logSeq == b.logSeq + |a.logs| && a.book.tradeSeq == b.tradeSeq + Matches(a.logs)
            && a.book.product == b.product
  {
    if Accepts(b.window, o.id) {
      var taker := Aggressor(b.product, o);
      var r := Walk(Grain(b.product), taker, Depth(b, taker.side.Opposite()));
      var entries := TradeLogs(taker.id, r.trades, b.logSeq, b.tradeSeq);
      TradesNumbered(taker.id, r.trades, b.logSeq, b.tradeSeq);
      var f := Finish(Traded(b, o), r.taker);
      assert f.logs == [f.logs[0]] && f.logs[1..] == [];
      assert NumberedFrom(f.logs, b.logSeq + |entries|, b.tradeSeq + |r.trades|);
      NumberedConcat(entries, f.logs, b.logSeq, b.tradeSeq);
      assert ApplyOrder(b, o).logs == entries + f.logs;
    }
  }

  lemma {:induction false} BoundShrinks(p: Product, placed: map<int, BookOrder>, o: BookOrder)
    requires ScaleOk(p) && o.id !in placed && PricesBounded(p, placed[o.id := o])
    ensures PricesBounded(p, placed)
  {
    forall id | id in placed && placed[id].kind.Limit?
      ensures placed[id].price < 2 * Grain(p)
    {
      assert placed[o.id := o][id] == placed[id];
    }
  }

  lemma {:induction false} PlaceExplains(b: Book, logs: seq<Log>, placed: map<int, BookOrder>, o: BookOrder, id: int)
    requires Sound(b, logs, placed) && o.Sane() && CanApply(b, o) && o.id !in placed
    ensures var a := ApplyOrder(b, o);
            Explained(LifeOf(logs + a.logs, id), id, RestingOrders(a.book), placed[o.id := o],
                      PricesBounded(b.product, placed[o.id := o]))
  {
    RestingArePlaced(b, logs, placed);
    RestingOrdersKeys(b);
    var a := ApplyOrder(b, o);
    var after := placed[o.id := o];
    var was, bounded := PricesBounded(b.product, placed), PricesBounded(b.product, after);
    if bounded {
      BoundShrinks(b.product, placed, o);
    }
    assert Explained(LifeOf(logs, id), id, RestingOrders(b), placed, was);
    if !Accepts(b.window, o.id) {
      assert logs + a.logs == logs;
    } else if id == o.id {
      TakerExplained(b, o, after);
      LifeConcat(NO_LIFE, logs, a.logs, id);
    } else {
      OthersExplained(b, logs, placed, o, id, was);
    }
  }

  /** Placing a fresh order keeps everything sound. */
  lemma {:induction false} PlaceSound(b: Book, logs: seq<Log>, placed: map<int, BookOrder>, o: BookOrder)
    requires Sound(b, logs, placed) && o.Sane() && CanApply(b, o) && o.id !in placed
    ensures var a := ApplyOrder(b, o); Sound(a.book, logs + a.logs, placed[o.id := o])
  {
    RestingArePlaced(b, logs, placed);
    ApplyKeepsValid(b, o);
    PlaceNumbers(b, logs, o);
    PlaceExplainsAll(b, logs, placed, o);
  }

  lemma {:induction false} PlaceNumbers(b: Book, logs: seq<Log>, o: BookOrder)
    requires CanApply(b, o)
    requires NumberedFrom(logs, 0, 0) && b.logSeq == |logs| && b.tradeSeq == Matches(logs)
    ensures var a := ApplyOrder(b, o);
            && NumberedFrom(logs + a.logs, 0, 0)
            && a.book.logSeq == |logs + a.logs| && a.book.tradeSeq == Matches(logs + a.logs)
  {
    ApplyNumbers(b, o);
    NumberedConcat(logs, ApplyOrder(b, o).logs, 0, 0);
  }

  lemma {:induction false} PlaceExplainsAll(b: Book, logs: seq<Log>, placed: map<int, BookOrder>, o: BookOrder)
    requires Sound(b, logs, placed) && o.Sane() && CanApply(b, o) && o.id !in placed
    ensures var a := ApplyOrder(b, o); a.book.product == b.product && LogExplainsBook(a.book, logs + a.logs, placed[o.id := o])
  {
    ApplyNumbers(b, o);
    var a := ApplyOrder(b, o);
    forall id
      ensures Explained(LifeOf(logs + a.logs, id), id, RestingOrders(a.book), placed[o.id := o],
                        PricesBounded(b.product, placed[o.id := o]))
    {
      PlaceExplains(b, logs, placed, o, id);
    }
  }

  lemma {:induction false} SumRemove(x: map<int, BookOrder>, y: map<int, BookOrder>, k: int)
    ensures k !in x ==> x + (y - {k}) == (x + y) - {k}
    ensures k !in y ==> (x - {k}) + y == (x + y) - {k}
  {
  }

  lemma {:induction false} CancelShape(b: Book, o: BookOrder, i: nat)
    requires ValidBook(b) && i == IndexOf(Depth(b, o.side), o.id) < |Depth(b, o.side)|
    ensures RestingOrders(CancelOrder(b, o).book) == RestingOrders(b) - {o.id}
    ensures o.id in RestingOrders(b) && RestingOrders(b)[o.id] == Depth(b, o.side)[i]
  {
    var q := Depth(b, o.side);
    OrderMapAt(q, i);
    RestingLookup(b, o.side, o.id);
    CancelledDepth(b, o, i);
  }

  lemma {:induction false} CancelledDepth(b: Book, o: BookOrder, i: nat)
    requires DistinctIds(Depth(b, o.side)) && i == IndexOf(Depth(b, o.side), o.id) < |Depth(b, o.side)|
    requires b.window.cap > 0
    requires o.id !in OrderMap(Depth(b, o.side.Opposite()))
    ensures RestingOrders(CancelOrder(b, o).book) == RestingOrders(b) - {o.id}
  {
    OrderMapOfRemoval(Depth(b, o.side), i);
    SumRemove(OrderMap(b.asks), OrderMap(b.bids), o.id);
  }

  lemma {:induction false} CancelExplains(b: Book, logs: seq<Log>, placed: map<int, BookOrder>, o: BookOrder, i: nat, id: int)
    requires Sound(b, logs, placed) && i == IndexOf(Depth(b, o.side), o.id) < |Depth(b, o.side)|
    ensures var a := CancelOrder(b, o);
            Explained(LifeOf(logs + a.logs, id), id, RestingOrders(a.book), placed, PricesBounded(b.product, placed))
  {
    CancelShape(b, o, i);
    var a := CancelOrder(b, o);
    assert Explained(LifeOf(logs, id), id, RestingOrders(b), placed, PricesBounded(b.product, placed));
    assert a.logs == [a.logs[0]];
    LifeOfTail(NO_LIFE, logs, a.logs[0], id);
  }

  lemma {:induction false} CancelNumbers(b: Book, o: BookOrder)
    requires b.window.cap > 0
    ensures var a := CancelOrder(b, o);
            && NumberedFrom(a.logs, b.logSeq, b.tradeSeq)
            && a.book.logSeq == b.logSeq + |a.logs| && a.book.tradeSeq == b.tradeSeq + Matches(a.logs)
            && a.book.product == b.product
  {
    var a := CancelOrder(b, o);
    if a.logs != [] {
      assert a.logs[1..] == [];
    }
  }

  /** So does any cancel, of a resting order or not. */
  lemma {:induction false} CancelSound(b: Book, logs: seq<Log>, placed: map<int, BookOrder>, o: BookOrder)
    requires Sound(b, logs, placed)
    ensures var a := CancelOrder(b, o); Sound(a.book, logs + a.logs, placed)
  {
    CancelKeepsValid(b, o);
    CancelNumbers(b, o);
    var i := IndexOf(Depth(b, o.side), o.id);
    var a := CancelOrder(b, o);
    NumberedConcat(logs, a.logs, 0, 0);
    if i == |Depth(b, o.side)| {
      assert logs + a.logs == logs;
      assert RestingOrders(a.book) == RestingOrders(b);
    } else {
      forall id
        ensures Explained(LifeOf(logs + a.logs, id), id, RestingOrders(a.book), placed, PricesBounded(b.product, placed))
      {
        CancelExplains(b, logs, placed, o, i, id);
      }
    }
  }

  /** The orders placed by a list of commands, by id. */
  function PlacedOrders(cmds: seq<Command>): map<int, BookOrder> {
    if cmds == [] then map[]
    else
      var c := cmds[|cmds| - 1];
      var before := PlacedOrders(cmds[..|cmds| - 1]);
      if c.Place? then before[c.order.id := c.order] else before
  }

  lemma {:induction false} PlacedEarlier(cmds: seq<Command>, id: int)
    requires id in PlacedOrders(cmds)
    ensures exists i :: 0 <= i < |cmds| && cmds[i].Place? && cmds[i].order.id == id && PlacedOrders(cmds)[id] == cmds[i].order
  {
    var n := |cmds| - 1;
    if cmds[n].Place? && cmds[n].order.id == id {
    } else {
      PlacedEarlier(cmds[..n], id);
      var i :| 0 <= i < n && cmds[..n][i].Place? && cmds[..n][i].order.id == id && PlacedOrders(cmds[..n])[id] == cmds[..n][i].order;
      assert cmds[i] == cmds[..n][i];
    }
  }

  lemma {:induction false} FreshIsNotPlaced(cmds: seq<Command>, id: int)
    requires forall i :: 0 <= i < |cmds| && cmds[i].Place? ==> cmds[i].order.id != id
    ensures id !in PlacedOrders(cmds)
  {
    if cmds != [] {
      FreshIsNotPlaced(cmds[..|cmds| - 1], id);
    }
  }

  lemma {:induction false} NewSound(p: Product)
    requires ScaleOk(p)
    ensures Sound(NewBook(p), [], map[])
  {
    forall id
      ensures Explained(LifeOf([], id), id, RestingOrders(NewBook(p)), map[], PricesBounded(p, map[]))
    {
    }
  }

  /** Every run of sane orders with distinct ids that does not panic ends sound: the book is sorted, consistent and
      uncrossed, the log is gapless, and for each order the log tells its whole story. */
  lemma {:induction false} RunSound(p: Product, cmds: seq<Command>)
    requires ScaleOk(p) && DistinctPlaces(cmds) && SanePlaces(cmds) && Run(p, cmds).Some?
    ensures var a := Run(p, cmds).value; a.book.product == p && Sound(a.book, a.logs, PlacedOrders(cmds))
  {
    if cmds == [] {
      NewSound(p);
    } else {
      var n := |cmds| - 1;
      var front, c := cmds[..n], cmds[n];
      RunSound(p, front);
      var a := Run(p, front).value;
      match c {
        case Cancel(o) =>
          CancelSound(a.book, a.logs, PlacedOrders(front), o);
        case Place(o) =>
          assert forall i :: 0 <= i < n ==> front[i] == cmds[i];
          FreshIsNotPlaced(front, o.id);
          ApplyNumbers(a.book, o);
          PlaceSound(a.book, a.logs, PlacedOrders(front), o);
      }
    }
  }
}
