/** The matching book in memory: two depths changed in place, proved against the book as a value. */
module OrderBooks {
  import opened Types
  import opened PriceTime
  import opened DedupWindow
  import opened Decimals
  import M = Matching
  import opened MatchLoop
  import opened BookInvariant
  import opened OrderDepths
  import R = Recovery

  /** In mid-loop: the queue before position i is settled, and walking on from there completes the walk. */
  ghost predicate Midway(grain: int, taker0: BookOrder, q0: seq<BookOrder>,
                         taker: BookOrder, q: seq<BookOrder>, i: nat, trades: seq<M.Trade>)
  {
    && i <= |q| && Walking(grain, taker, q[i..]) && Walking(grain, taker0, q0)
    && var w := M.Walk(grain, taker, q[i..]);
       M.Walk(grain, taker0, q0) == M.Walked(w.taker, q[..i] + w.makers, trades + w.trades)
  }

  lemma {:induction false} MidwayStart(grain: int, taker: BookOrder, q: seq<BookOrder>)
    requires Walking(grain, taker, q)
    ensures Midway(grain, taker, q, taker, q, 0, [])
  {
    assert q[0..] == q && q[..0] == [];
    var w := M.Walk(grain, taker, q);
    assert [] + w.makers == w.makers && [] + w.trades == w.trades;
  }

  /** A maker the walk reaches has a price a market buy can divide by. */
  lemma {:induction false} MidwayMaker(grain: int, taker0: BookOrder, q0: seq<BookOrder>,
                    taker: BookOrder, q: seq<BookOrder>, i: nat, trades: seq<M.Trade>)
    requires Midway(grain, taker0, q0, taker, q, i, trades) && i < |q|
    ensures Walking(grain, taker0, q0)
    ensures q[i].price >= 0 && (taker.MarketBuy() && taker.funds != 0 ==> q[i].price > 0)
  {
    assert q[i..][0] in q[i..];
  }

  lemma {:induction false} NoTradesNoLogs(takerId: int, logSeq: int, tradeSeq: int)
    ensures M.TradeLogs(takerId, [], logSeq, tradeSeq) == []
  {
  }

  lemma {:induction false} MidwayStep(grain: int, taker0: BookOrder, q0: seq<BookOrder>,
                   taker: BookOrder, q: seq<BookOrder>, i: nat, trades: seq<M.Trade>)
    requires Midway(grain, taker0, q0, taker, q, i, trades) && i < |q| && !M.Stops(grain, taker, q[i])
    ensures var size := M.TradeSize(grain, taker, q[i]);
            var next := M.Pay(taker, size, q[i].price);
            var t := M.Trade(q[i].(size := q[i].size - size), size);
            && 0 < size <= q[i].size
            && Midway(grain, taker0, q0, next, Decreased(q, i, size), if size == q[i].size then i else i + 1, trades + [t])
  {
    hide Walking, M.TradeSize, M.Pay;
    MidwayMaker(grain, taker0, q0, taker, q, i, trades);
    var rest := q[i..];
    WalkStep(grain, taker, rest);
    var size := M.TradeSize(grain, taker, q[i]);
    var next := M.Pay(taker, size, q[i].price);
    var m := q[i].(size := q[i].size - size);
    var w := M.Walk(grain, next, rest[1..]);
    var q' := Decreased(q, i, size);
    if size == q[i].size {
      assert q'[i..] == rest[1..] && q'[..i] == q[..i];
      assert [] + w.makers == w.makers;
    } else {
      assert q'[i + 1..] == rest[1..] && q'[..i + 1] == q[..i] + [m];
      assert q[..i] + ([m] + w.makers) == q'[..i + 1] + w.makers;
    }
    assert trades + ([M.Trade(m, size)] + w.trades) == trades + [M.Trade(m, size)] + w.trades;
  }

  lemma {:induction false} MidwayEnd(grain: int, taker0: BookOrder, q0: seq<BookOrder>,
                  taker: BookOrder, q: seq<BookOrder>, i: nat, trades: seq<M.Trade>)
    requires Midway(grain, taker0, q0, taker, q, i, trades) && (i == |q| || M.Stops(grain, taker, q[i]))
    ensures M.Walk(grain, taker0, q0) == M.Walked(taker, q, trades)
  {
    assert M.Walk(grain, taker, q[i..]) == M.Walked(taker, q[i..], []);
    assert q[..i] + q[i..] == q && trades + [] == trades;
  }

  lemma {:induction false} TradeLogsAppend(takerId: int, trades: seq<M.Trade>, t: M.Trade, logSeq: int, tradeSeq: int)
    ensures var logs := M.TradeLogs(takerId, trades, logSeq, tradeSeq);
            M.TradeLogs(takerId, trades + [t], logSeq, tradeSeq)
            == logs + M.TradeLog(takerId, t, logSeq + |logs|, tradeSeq + |trades|)
    decreases |trades|
  {
    if trades == [] {
      assert ([t])[1..] == [];
      assert trades + [t] == [t];
      assert M.TradeLogs(takerId, [t], logSeq, tradeSeq) == M.TradeLog(takerId, t, logSeq, tradeSeq) + [];
    } else {
      var first := M.TradeLog(takerId, trades[0], logSeq, tradeSeq);
      assert (trades + [t])[1..] == trades[1..] + [t];
      TradeLogsAppend(takerId, trades[1..], t, logSeq + |first|, tradeSeq + 1);
    }
  }

  class OrderBook {
    const product: Product
    const bids: OrderDepth
    const asks: OrderDepth
    var tradeSeq: int
    var logSeq: int
    var window: BitWindow

    ghost predicate Valid()
      reads this, bids, asks, window.bitmap
    {
      && ScaleOk(product) && bids != asks && bids.side.Buy? && asks.side.Sell?
      && bids.Valid() && asks.Valid() && window.Valid()
    }

    ghost function Model(): M.Book
      requires Valid()
      reads this, bids, asks, window.bitmap
    {
      M.Book(product, asks.contents, bids.contents, tradeSeq, logSeq, window.Model())
    }

    constructor (product: Product)
      requires ScaleOk(product)
      ensures Valid() && fresh(bids) && fresh(asks) && fresh(window.bitmap)
      ensures Model() == M.NewBook(product)
    {
      this.product := product;
      this.bids := new OrderDepth(Buy);
      this.asks := new OrderDepth(Sell);
      this.tradeSeq, this.logSeq := 0, 0;
      this.window := new BitWindow(0, M.ORDER_ID_WINDOW_CAP);
    }

    function DepthOf(side: Side): OrderDepth {
      if side.Buy? then bids else asks
    }

    method NextLogSeq() returns (s: int)
      modifies this`logSeq
      ensures s == logSeq == old(logSeq) + 1
    {
      logSeq := logSeq + 1;
      return logSeq;
    }

    method NextTradeSeq() returns (s: int)
      modifies this`tradeSeq
      ensures s == tradeSeq == old(tradeSeq) + 1
    {
      tradeSeq := tradeSeq + 1;
      return tradeSeq;
    }

    /** The end of one round of the match loop: shrink the maker and log the match, and Done if it is filled. */
    method Match(makers: OrderDepth, taker: BookOrder, maker: BookOrder, size: int) returns (logs: seq<Log>)
      requires makers.Valid() && maker.id in makers.orders && makers.orders[maker.id] == maker && size <= maker.size
      modifies makers, this`logSeq, this`tradeSeq
      ensures makers.Valid() && makers.contents == Decreased(old(makers.contents), old(makers.At(maker.id)), size)
      ensures logs == M.TradeLog(taker.id, M.Trade(maker.(size := maker.size - size), size), old(logSeq), old(tradeSeq))
      ensures logSeq == old(logSeq) + |logs| && tradeSeq == old(tradeSeq) + 1
    {
      var err := makers.DecrSize(maker.id, size);
      assert !err;
      var left := maker.size - size;
      var s := NextLogSeq();
      var t := NextTradeSeq();
      logs := [MatchLog(s, t, taker.id, maker.id, maker.side, maker.price, size)];
      if left == 0 {
        var d := NextLogSeq();
        logs := logs + [DoneLog(d, maker.id, maker.price, left, Filled, maker.side)];
      }
    }

    /** After the loop: rest what is left of a limit order, or report the taker done. */
    method Finish(taker: BookOrder) returns (logs: seq<Log>)
      requires Valid() && (taker.kind.Limit? && taker.size > 0 ==> taker.id !in Ids(M.Depth(Model(), taker.side)))
      modifies DepthOf(taker.side), this`logSeq
      ensures Valid() && M.Applied(Model(), logs) == M.Finish(old(Model()), taker)
    {
      OrderMapKeys(DepthOf(taker.side).contents);
      if taker.kind.Limit? && taker.size > 0 {
        DepthOf(taker.side).Add(taker);
        var s := NextLogSeq();
        return [OpenLog(s, taker.id, taker.size, taker.price, taker.side)];
      } else {
        var price, remainingSize, reason := taker.price, taker.size, Filled;
        if taker.kind.Market? {
          price, remainingSize := 0, 0;
          if (taker.side.Sell? && taker.size > 0) || (taker.side.Buy? && taker.funds > 0) {
            reason := Cancelled;
          }
        }
        var s := NextLogSeq();
        return [DoneLog(s, taker.id, price, remainingSize, reason, taker.side)];
      }
    }

    /** The start of one round: stop here, or the traded size and the taker after paying for it. */
    method Meet(taker: BookOrder, maker: BookOrder) returns (stop: bool, panicked: bool, size: int, next: BookOrder)
      requires ScaleOk(product) && maker.price >= 0
      ensures panicked <==> taker.MarketBuy() && M.Crosses(taker, maker) && taker.funds != 0 && maker.price == 0
      ensures taker.MarketBuy() && taker.funds != 0 && maker.price == 0 && !panicked ==> stop
      ensures !panicked && !(taker.MarketBuy() && taker.funds != 0 && maker.price == 0) ==>
                (stop <==> M.Stops(Grain(product), taker, maker))
      ensures !panicked && !stop ==>
                (taker.MarketBuy() ==> maker.price > 0)
                && size == M.TradeSize(Grain(product), taker, maker) && next == M.Pay(taker, size, maker.price)
    {
      stop, panicked, size, next := false, false, 0, taker;
      if (taker.side.Buy? && taker.price < maker.price) || (taker.side.Sell? && taker.price > maker.price) {
        return true, false, 0, taker;
      }
      var price := maker.price;
      if taker.kind.Limit? || taker.side.Sell? {
        if taker.size == 0 {
          return true, false, 0, taker;
        }
        size := M.Min(taker.size, maker.size);
        next := taker.(size := taker.size - size);
      } else {
        if taker.funds == 0 {
          return true, false, 0, taker;
        }
        if price == 0 {
          return false, true, 0, taker;
        }
        var takerSize := BuyableSize(taker.funds, price, Grain(product));
        if takerSize == 0 {
          return true, false, 0, taker;
        }
        size := M.Min(takerSize, maker.size);
        var funds := size * price;
        next := taker.(funds := taker.funds - funds);
      }
    }

    /** A maker priced at zero at the head of the queue makes a market buy panic at once. */
    ghost predicate Hopeless(taker: BookOrder, makers: seq<BookOrder>) {
      taker.MarketBuy() && taker.funds != 0 && makers != [] && makers[0].price == 0 && M.Crosses(taker, makers[0])
    }

    /** The loop over the other side's queue. A filled maker leaves the queue, so the position stays; a maker
        left with size stays, so the position moves on. */
    method MatchLoop(makers: OrderDepth, order: BookOrder) returns (taker: BookOrder, logs: seq<Log>, panicked: bool, ghost w: M.Walked)
      requires ScaleOk(product) && makers.Valid()
      requires Hopeless(order, makers.contents) || Walking(Grain(product), order, makers.contents)
      modifies makers, this`logSeq, this`tradeSeq
      ensures makers.Valid()
      ensures panicked <==> Hopeless(order, old(makers.contents))
      ensures !panicked ==> Walking(Grain(product), order, old(makers.contents))
      ensures !panicked ==> w == M.Walk(Grain(product), order, old(makers.contents))
      ensures !panicked ==> taker == w.taker && makers.contents == w.makers
      ensures !panicked ==> logs == M.TradeLogs(order.id, w.trades, old(logSeq), old(tradeSeq))
      ensures !panicked ==> logSeq == old(logSeq) + |logs| && tradeSeq == old(tradeSeq) + |w.trades|
    {
      hide Midway, M.Walk, M.TradeLogs, M.TradeLog, M.Stops, Decreased, Walking;
      var grain := Grain(product);
      ghost var q := makers.contents;
      taker, logs, panicked := order, [], false;
      w := M.Walked(order, [], []);
      ghost var trades: seq<M.Trade> := [];
      ghost var s0, t0 := logSeq, tradeSeq;
      ghost var hopeless := Hopeless(order, q);
      NoTradesNoLogs(order.id, s0, t0);
      if !hopeless {
        MidwayStart(grain, order, q);
      }
      var i := 0;
      while i < |makers.queue|
        invariant makers.Valid() && 0 <= i <= |makers.queue|
        invariant hopeless ==> taker == order && i == 0 && makers.contents == q
        invariant !hopeless ==> Midway(grain, order, q, taker, makers.contents, i, trades)
        invariant taker.id == order.id
        invariant logs == M.TradeLogs(order.id, trades, s0, t0) && logSeq == s0 + |logs| && tradeSeq == t0 + |trades|
        decreases |makers.queue| - i
      {
        ghost var before := makers.contents;
        ghost var was := taker;
        OrderMapAt(before, i);
        var maker := makers.orders[makers.queue[i].orderId];
        assert maker == before[i];
        if !hopeless {
          MidwayMaker(grain, order, q, taker, before, i, trades);
        }
        var stop, panic, size, next := Meet(taker, maker);
        if panic {
          return taker, logs, true, w;
        }
        if stop {
          break;
        }
        ghost var t := M.Trade(maker.(size := maker.size - size), size);
        MidwayStep(grain, order, q, was, before, i, trades);
        TradeLogsAppend(order.id, trades, t, s0, t0);
        DistinctIndex(before, makers.At(maker.id), i);
        var matched := Match(makers, next, maker, size);
        assert makers.contents == Decreased(before, i, size);
        logs := logs + matched;
        trades := trades + [t];
        taker := next;
        if size < maker.size {
          i := i + 1;
        }
      }
      MidwayEnd(grain, order, q, taker, makers.contents, i, trades);
      w := M.Walked(taker, makers.contents, trades);
    }

    /** Matches an order against the other side, rests or finishes it, and returns the log entries.
        `panicked` stands for the division by a zero price. */
    method ApplyOrder(order: BookOrder) returns (logs: seq<Log>, panicked: bool)
      requires Valid() && ValidBook(Model()) && order.Sane() && order.id !in RestingIds(Model())
      modifies this`logSeq, this`tradeSeq, bids, asks, window.bitmap
      ensures panicked <==> !M.CanApply(old(Model()), order)
      ensures !panicked ==> Valid() && M.Applied(Model(), logs) == M.ApplyOrder(old(Model()), order)
    {
      hide M.Walk, M.TradeLogs, M.Finish, M.CanApply, ValidBook, Walking, Sorted, DistinctIds;
      ghost var b := Model();
      logs, panicked := [], false;
      PanicsExactly(b, order);
      var ok := window.PutId(order.id);
      if !ok {
        assert Model() == b;
        return;
      }
      var taker := order;
      if taker.kind.Market? {
        taker := taker.(price := if taker.side.Buy? then MarketBuyPrice(product) else 0);
      }
      assert taker == M.Aggressor(product, order);
      if M.CanApply(b, order) {
        AggressorWalks(b, order);
      }
      var makers := DepthOf(order.side.Opposite());
      ghost var w;
      taker, logs, panicked, w := MatchLoop(makers, taker);
      if panicked {
        return;
      }
      RemainderFacts(b, order);
      assert Model() == Traded(b, order);
      var tail := Finish(taker);
      logs := logs + tail;
    }

    /** Removes a resting order, wherever it stands in its queue; an unknown one is ignored. */
    method CancelOrder(order: BookOrder) returns (logs: seq<Log>)
      requires Valid() && ValidBook(Model())
      modifies this`logSeq, bids, asks, window.bitmap
      ensures Valid() && M.Applied(Model(), logs) == M.CancelOrder(old(Model()), order)
    {
      hide ValidBook, Sorted, DistinctIds, Put;
      ghost var b := Model();
      var _ := window.PutId(order.id);
      var depth := DepthOf(order.side);
      OrderMapKeys(depth.contents);
      IndexOfIn(depth.contents, order.id);
      if order.id !in depth.orders {
        return [];
      }
      var bookOrder := depth.orders[order.id];
      ghost var i := depth.At(order.id);
      assert i == IndexOf(M.Depth(b, order.side), order.id);
      var remainingSize := bookOrder.size;
      var err := depth.DecrSize(order.id, bookOrder.size);
      assert !err;
      var s := NextLogSeq();
      return [DoneLog(s, bookOrder.id, bookOrder.price, remainingSize, Cancelled, bookOrder.side)];
    }

    /** Lists one depth's map in whatever order it iterates. */
    method ListOrders(depth: OrderDepth) returns (list: seq<BookOrder>)
      requires depth.Valid()
      ensures DistinctIds(list) && forall o :: o in list <==> o in depth.contents
    {
      list := [];
      OrderMapKeys(depth.contents);
      forall id | id in depth.orders
        ensures depth.orders[id].id == id
      {
        InOrderMap(depth.contents, id);
      }
      var left := depth.orders.Keys;
      while left != {}
        invariant left <= depth.orders.Keys
        invariant DistinctIds(list)
        invariant forall id :: id in depth.orders ==> depth.orders[id].id == id
        invariant forall o :: o in list <==> o.id in depth.orders && o.id !in left && depth.orders[o.id] == o
        decreases left
      {
        var id :| id in left;
        forall i | 0 <= i < |list|
          ensures list[i].id != id
        {
          assert list[i] in list;
        }
        list := list + [depth.orders[id]];
        left := left - {id};
      }
      forall o
        ensures o in list <==> o in depth.contents
      {
        if o in depth.contents {
          var i :| 0 <= i < |depth.contents| && depth.contents[i] == o;
          OrderMapAt(depth.contents, i);
        }
        if o in list {
          InOrderMap(depth.contents, o.id);
        }
      }
    }

    method Snapshot() returns (s: R.BookSnapshot)
      requires Valid() && ValidBook(Model())
      ensures R.IsSnapshotOf(s, Model())
    {
      var sells := ListOrders(asks);
      var buys := ListOrders(bids);
      forall i, j | 0 <= i < |sells| && 0 <= j < |buys|
        ensures sells[i].id != buys[j].id
      {
        assert sells[i] in sells && buys[j] in buys;
        assert sells[i].id in Ids(asks.contents) && buys[j].id in Ids(bids.contents);
      }
      s := R.BookSnapshot(sells + buys, tradeSeq, logSeq, window.Model());
    }

    /** Fills an empty book from a snapshot. */
    method Restore(s: R.BookSnapshot)
      requires Valid() && Model().asks == [] && Model().bids == []
      requires DistinctIds(s.orders)
      requires s.window.cap != 0 ==> 0 <= s.window.min < s.window.max && s.window.cap == s.window.max - s.window.min
                                     && forall j :: j in s.window.taken ==> 0 <= j < s.window.cap
      modifies this, bids, asks
      ensures Valid() && Model() == R.Restore(old(Model()), s) && fresh(window.bitmap)
    {
      hide Sorted, DistinctIds, R.AddAll;
      ghost var b := Model();
      logSeq := s.logSeq;
      tradeSeq := s.tradeSeq;
      if s.window.cap == 0 {
        window := new BitWindow(0, M.ORDER_ID_WINDOW_CAP);
      } else {
        window := new BitWindow.From(s.window);
      }
      ghost var b0 := Model();
      NothingAdded(b0, s.orders);
      var i := 0;
      while i < |s.orders|
        invariant 0 <= i <= |s.orders| && Valid() && fresh(window.bitmap)
        invariant Model() == R.AddAll(b0, s.orders[..i])
      {
        var order := s.orders[i];
        NextIsFresh(b0, s.orders, i);
        OrderMapKeys(DepthOf(order.side).contents);
        DepthOf(order.side).Add(order);
        i := i + 1;
      }
      assert s.orders[..|s.orders|] == s.orders;
    }
  }

  lemma {:induction false} NothingAdded(b: M.Book, orders: seq<BookOrder>)
    ensures R.AddAll(b, orders[..0]) == b
  {
  }

  lemma {:induction false} NextIsFresh(b: M.Book, orders: seq<BookOrder>, i: nat)
    requires b.asks == [] && b.bids == [] && DistinctIds(orders) && i < |orders|
    ensures var before := R.AddAll(b, orders[..i]);
            && orders[i].id !in Ids(M.Depth(before, orders[i].side))
            && R.AddAll(b, orders[..i + 1]) == R.Add(before, orders[i])
  {
    R.AddAllSorts(b, orders[..i]);
    assert orders[..i + 1][..i] == orders[..i];
    forall o | o in M.Depth(R.AddAll(b, orders[..i]), orders[i].side)
      ensures o.id != orders[i].id
    {
      assert o in orders[..i];
    }
  }

  lemma {:induction false} InOrderMap(q: seq<BookOrder>, id: int)
    requires id in OrderMap(q)
    ensures OrderMap(q)[id] in q && OrderMap(q)[id].id == id
  {
    if q[0].id != id {
      InOrderMap(q[1..], id);
    }
  }
}
