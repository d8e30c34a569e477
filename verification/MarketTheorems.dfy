/** The matching side's promises, stated for one order on any valid book and for whole runs. */
module MarketTheorems {
  import opened Types
  import opened PriceTime
  import opened DedupWindow
  import opened Decimals
  import opened Matching
  import opened MatchLoop
  import opened MarketBuy
  import opened BookInvariant
  import opened LogGrammar
  import opened OrderLives

  /** After any run the best bid is strictly below the best ask, and a queue and its ids correspond. */
  lemma {:induction false} NeverCrossed(p: Product, cmds: seq<Command>)
    requires ScaleOk(p) && DistinctPlaces(cmds) && SanePlaces(cmds) && Run(p, cmds).Some?
    ensures var b := Run(p, cmds).value.book;
            && (b.bids != [] && b.asks != [] ==> b.bids[0].price < b.asks[0].price)
            && Sorted(Sell, b.asks) && Sorted(Buy, b.bids)
            && DistinctIds(b.asks) && DistinctIds(b.bids) && Ids(b.asks) !! Ids(b.bids)
            && (forall m :: m in b.asks + b.bids ==> m.size > 0)
  {
    RunSound(p, cmds);
  }

  /** Over any run, log sequences count 1, 2, 3, ... and so do trade ids. */
  lemma {:induction false} GaplessLog(p: Product, cmds: seq<Command>, i: nat)
    requires ScaleOk(p) && DistinctPlaces(cmds) && SanePlaces(cmds) && Run(p, cmds).Some?
    requires i < |Run(p, cmds).value.logs|
    ensures var logs := Run(p, cmds).value.logs;
            logs[i].sequence == i + 1 && (logs[i].MatchLog? ==> logs[i].tradeId == Matches(logs[..i]) + 1)
  {
    RunSound(p, cmds);
    NumberedAt(Run(p, cmds).value.logs, 0, 0, i);
  }

  predicate Mentions(log: Log, id: int) {
    if log.MatchLog? then log.takerId == id || log.makerId == id else log.orderId == id
  }

  lemma {:induction false} BrokenStays(l: Life, logs: seq<Log>, id: int)
    requires l.phase.Broken?
    ensures LifeFrom(l, logs, id).phase.Broken?
    decreases |logs|
  {
    if logs != [] {
      BrokenStays(Advance(l, logs[0], id), logs[1..], id);
    }
  }

  lemma {:induction false} FinishedIsSilent(l: Life, logs: seq<Log>, id: int, j: nat)
    requires l.phase.Finished? && j < |logs| && Mentions(logs[j], id)
    ensures LifeFrom(l, logs, id).phase.Broken?
    decreases j
  {
    var l1 := Advance(l, logs[0], id);
    if j == 0 || l1.phase.Broken? {
      BrokenStays(l1, logs[1..], id);
    } else {
      FinishedIsSilent(l1, logs[1..], id, j - 1);
    }
  }

  /** The i-th command places an order that the deduplication window lets through. */
  ghost predicate AcceptedPlace(p: Product, cmds: seq<Command>, i: int) {
    && 0 <= i < |cmds| && cmds[i].Place? && Run(p, cmds[..i]).Some?
    && var w := Run(p, cmds[..i]).value.book.window; w.cap > 0 && Accepts(w, cmds[i].order.id)
  }

  ghost predicate AcceptedIn(p: Product, cmds: seq<Command>, id: int) {
    exists i :: AcceptedPlace(p, cmds, i) && cmds[i].order.id == id
  }

  lemma {:induction false} SeenStays(l: Life, logs: seq<Log>, id: int)
    requires !l.phase.Unseen?
    ensures !LifeFrom(l, logs, id).phase.Unseen?
    decreases |logs|
  {
    if logs != [] {
      SeenStays(Advance(l, logs[0], id), logs[1..], id);
    }
  }

  lemma {:induction false} AcceptedInPrefix(p: Product, cmds: seq<Command>, n: nat, i: nat)
    requires i < n <= |cmds|
    ensures cmds[..n][i] == cmds[i] && (AcceptedPlace(p, cmds[..n], i) <==> AcceptedPlace(p, cmds, i))
  {
    hide Run, Accepts;
    assert cmds[..n][..i] == cmds[..i];
  }

  lemma {:induction false} AcceptedNext(p: Product, cmds: seq<Command>, id: int)
    requires cmds != []
    ensures var n := |cmds| - 1;
            AcceptedIn(p, cmds, id) <==>
              AcceptedIn(p, cmds[..n], id) || (AcceptedPlace(p, cmds, n) && cmds[n].order.id == id)
  {
    var n := |cmds| - 1;
    if AcceptedIn(p, cmds[..n], id) {
      var i :| AcceptedPlace(p, cmds[..n], i) && cmds[..n][i].order.id == id;
      AcceptedInPrefix(p, cmds, n, i);
    }
    if AcceptedIn(p, cmds, id) {
      var i :| AcceptedPlace(p, cmds, i) && cmds[i].order.id == id;
      if i < n {
        AcceptedInPrefix(p, cmds, n, i);
      }
    }
  }

  /** A command that is not an accepted placing of the order tells nothing about an unseen order. */
  lemma {:induction false} UnseenStays(b: Book, logs: seq<Log>, placed: map<int, BookOrder>, c: Command, id: int)
    requires Sound(b, logs, placed) && CanExecute(b, c) && (c.Place? ==> c.order.Sane() && c.order.id !in placed)
    requires LifeOf(logs, id).phase.Unseen?
    requires c.Place? && c.order.id == id ==> !Accepts(b.window, id)
    ensures LifeOf(logs + Execute(b, c).logs, id) == LifeOf(logs, id)
  {
    assert Explained(LifeOf(logs, id), id, RestingOrders(b), placed, PricesBounded(b.product, placed));
    var r := Execute(b, c);
    if r.logs == [] {
      assert logs + r.logs == logs;
    } else if c.Cancel? {
      var i := IndexOf(Depth(b, c.order.side), c.order.id);
      CancelShape(b, c.order, i);
      assert r.logs == [r.logs[0]];
      LifeOfTail(NO_LIFE, logs, r.logs[0], id);
    } else {
      RestingArePlaced(b, logs, placed);
      OthersSee(b, logs, c.order, id);
      RestingLookup(b, c.order.side, id);
      OrderMapKeys(Depth(b, c.order.side.Opposite()));
    }
  }

  lemma {:induction false} AcceptedIsSeen(b: Book, logs: seq<Log>, placed: map<int, BookOrder>, o: BookOrder)
    requires Sound(b, logs, placed) && CanApply(b, o) && o.Sane() && o.id !in placed && Accepts(b.window, o.id)
    ensures !LifeOf(logs + ApplyOrder(b, o).logs, o.id).phase.Unseen?
  {
    hide ApplyOrder;
    RestingArePlaced(b, logs, placed);
    RestingOrdersKeys(b);
    assert Explained(LifeOf(logs, o.id), o.id, RestingOrders(b), placed, PricesBounded(b.product, placed));
    var trades := TakerLife(b, o);
    LifeConcat(NO_LIFE, logs, ApplyOrder(b, o).logs, o.id);
  }

  /** Over any run an order is unseen exactly when it was not placed or the window refused it. */
  lemma {:induction false} UnseenExactly(p: Product, cmds: seq<Command>, id: int)
    requires ScaleOk(p) && DistinctPlaces(cmds) && SanePlaces(cmds) && Run(p, cmds).Some?
    ensures LifeOf(Run(p, cmds).value.logs, id).phase.Unseen? <==> !AcceptedIn(p, cmds, id)
    decreases |cmds|
  {
    if cmds != [] {
      hide ApplyOrder, CancelOrder, CanApply, AcceptedIn;
      var n := |cmds| - 1;
      var front, c := cmds[..n], cmds[n];
      UnseenExactly(p, front, id);
      AcceptedNext(p, cmds, id);
      RunSound(p, front);
      var a := Run(p, front).value;
      assert forall i :: 0 <= i < n ==> front[i] == cmds[i];
      if c.Place? {
        FreshIsNotPlaced(front, c.order.id);
      }
      var r := Execute(a.book, c);
      if !LifeOf(a.logs, id).phase.Unseen? {
        LifeConcat(NO_LIFE, a.logs, r.logs, id);
        SeenStays(LifeOf(a.logs, id), r.logs, id);
      } else if c.Place? && c.order.id == id && Accepts(a.book.window, id) {
        AcceptedIsSeen(a.book, a.logs, PlacedOrders(front), c.order);
      } else {
        UnseenStays(a.book, a.logs, PlacedOrders(front), c, id);
      }
    }
  }

  /** Over any run nothing about an order follows its Done, and its entries follow the grammar: between orders each
      one is unseen, because it was not placed or the window refused it, standing on the book with exactly its unmatched
      size, or finished with its amounts made up. */
  lemma {:induction false} GrammarHolds(p: Product, cmds: seq<Command>, id: int)
    requires ScaleOk(p) && DistinctPlaces(cmds) && SanePlaces(cmds) && Run(p, cmds).Some?
    ensures var a := Run(p, cmds).value;
            var l := LifeOf(a.logs, id);
            && (l.phase.Unseen? || l.phase.Standing? || l.phase.Finished?)
            && (l.phase.Standing? <==> id in RestingOrders(a.book))
            && (l.phase.Unseen? <==> !AcceptedIn(p, cmds, id))
            && (!l.phase.Unseen? ==> id in PlacedOrders(cmds))
            && (l.phase.Standing? ==> l.filled + RestingOrders(a.book)[id].size == PlacedOrders(cmds)[id].size)
            && (l.phase.Finished? && PlacedOrders(cmds)[id].kind.Limit? ==> l.filled + l.returned == PlacedOrders(cmds)[id].size)
            && (forall i, j :: 0 <= i < j < |a.logs| && a.logs[i].DoneLog? && a.logs[i].orderId == id ==> !Mentions(a.logs[j], id))
  {
    hide AcceptedIn;
    RunSound(p, cmds);
    UnseenExactly(p, cmds, id);
    var a := Run(p, cmds).value;
    assert Explained(LifeOf(a.logs, id), id, RestingOrders(a.book), PlacedOrders(cmds), PricesBounded(p, PlacedOrders(cmds)));
    forall i, j | 0 <= i < j < |a.logs| && a.logs[i].DoneLog? && a.logs[i].orderId == id
      ensures !Mentions(a.logs[j], id)
    {
      if Mentions(a.logs[j], id) {
        DoneTwice(a.logs, id, i, j);
      }
    }
  }

  lemma {:induction false} DoneTwice(logs: seq<Log>, id: int, i: nat, j: nat)
    requires i < j < |logs| && logs[i].DoneLog? && logs[i].orderId == id && Mentions(logs[j], id)
    ensures LifeOf(logs, id).phase.Broken?
  {
    var upTo, later := logs[..i + 1], logs[i + 1..];
    assert logs == upTo + later && upTo == logs[..i] + [logs[i]];
    LifeConcat(NO_LIFE, upTo, later, id);
    LifeOfTail(NO_LIFE, logs[..i], logs[i], id);
    var l := LifeOf(upTo, id);
    if l.phase.Broken? {
      BrokenStays(l, later, id);
    } else {
      FinishedIsSilent(l, later, id, j - i - 1);
    }
  }

  /** Price-time priority: an accepted order trades with the front of the other queue, each maker in full except
      possibly the last one, at the maker's price; the rest of that queue is untouched. */
  lemma {:induction false} PriceTimePriority(b: Book, o: BookOrder) returns (k: nat, part: nat, trades: seq<Trade>)
    requires ValidBook(b) && o.Sane() && CanApply(b, o) && Accepts(b.window, o.id)
    ensures var q := Depth(b, o.side.Opposite());
            var a := ApplyOrder(b, o);
            && k <= |q| && (part > 0 ==> k < |q| && part < q[k].size)
            && trades == Emptied(q[..k]) + (if part > 0 then [Trade(q[k].(size := q[k].size - part), part)] else [])
            && |a.logs| > 0
            && a.logs[..|a.logs| - 1] == TradeLogs(o.id, trades, b.logSeq, b.tradeSeq)
            && Depth(a.book, o.side.Opposite()) == (if part > 0 then [q[k].(size := q[k].size - part)] + q[k + 1..] else q[k..])
  {
    AggressorWalks(b, o);
    var taker := Aggressor(b.product, o);
    var q := Depth(b, o.side.Opposite());
    k, part := WalkIsPrefix(Grain(b.product), taker, q);
    trades := Walk(Grain(b.product), taker, q).trades;
    WalkBalances(Grain(b.product), taker, q);
    var f := Finish(Traded(b, o), Remainder(b, o));
    assert ApplyOrder(b, o).logs == TradeLogs(o.id, trades, b.logSeq, b.tradeSeq) + f.logs;
    if part == 0 {
      assert trades == Emptied(q[..k]) + [];
    }
  }

  /** At any prices a market buy overspends, if at all, by no more than p/(2g) funds units for some price p it paid. */
  lemma {:induction false} DebtIsBounded(b: Book, o: BookOrder) returns (trades: seq<Trade>)
    requires ValidBook(b) && o.Sane() && CanApply(b, o) && Accepts(b.window, o.id) && o.id !in RestingIds(b) && o.MarketBuy()
    ensures ApplyOrder(b, o).logs[..|ApplyOrder(b, o).logs| - 1] == TradeLogs(o.id, trades, b.logSeq, b.tradeSeq)
    ensures var spent := LifeOf(ApplyOrder(b, o).logs, o.id).value;
            && spent == TradedValue(trades)
            && (spent <= o.funds || exists t :: t in trades && 2 * Grain(b.product) * (spent - o.funds) <= t.maker.price)
  {
    hide Walk, ApplyOrder;
    trades := TakerLife(b, o);
    TakerAmounts(b, o, trades);
    AggressorWalks(b, o);
    DebtIsSmall(Grain(b.product), Aggressor(b.product, o), b.asks);
    LogsAreTrades(b, o);
    var left := Remainder(b, o);
    if left.funds < 0 {
      var t :| t in trades && Payable(left.funds, t.maker.price, Grain(b.product));
      assert -left.funds == TradedValue(trades) - o.funds;
    }
  }

  lemma {:induction false} LogsAreTrades(b: Book, o: BookOrder)
    requires CanApply(b, o) && Accepts(b.window, o.id)
    ensures var logs := ApplyOrder(b, o).logs;
            var trades := Walk(Grain(b.product), Aggressor(b.product, o), Depth(b, o.side.Opposite())).trades;
            |logs| > 0 && logs[..|logs| - 1] == TradeLogs(o.id, trades, b.logSeq, b.tradeSeq)
  {
  }

  /** A market buy is optimal: with asks below the rounding bound no purchase within their sizes and its funds gets
      more base, it spends no more than its funds, and what is left cannot buy one tick at the best ask. */
  lemma {:induction false} MarketBuyIsOptimal(b: Book, o: BookOrder, wish: seq<nat>)
    requires ValidBook(b) && o.Sane() && CanApply(b, o) && Accepts(b.window, o.id) && o.id !in RestingIds(b)
    requires o.MarketBuy() && forall m :: m in b.asks ==> 0 < m.price < 2 * Grain(b.product)
    requires Allocation(b.asks, wish) && Cost(b.asks, wish) <= o.funds
    ensures var a := ApplyOrder(b, o);
            var l := LifeOf(a.logs, o.id);
            && Units(wish) <= l.filled
            && l.value <= o.funds
            && (a.book.asks != [] ==> o.funds - l.value < a.book.asks[0].price)
  {
    MarketBuyWalk(b, o, wish);
    var trades := TakerLife(b, o);
    TakerAmounts(b, o, trades);
  }

  lemma {:induction false} MarketBuyWalk(b: Book, o: BookOrder, wish: seq<nat>)
    requires ValidBook(b) && o.Sane() && CanApply(b, o) && Accepts(b.window, o.id)
    requires o.MarketBuy() && forall m :: m in b.asks ==> 0 < m.price < 2 * Grain(b.product)
    requires Allocation(b.asks, wish) && Cost(b.asks, wish) <= o.funds
    ensures var trades := Walk(Grain(b.product), Aggressor(b.product, o), b.asks).trades;
            var left, after := Remainder(b, o), ApplyOrder(b, o).book.asks;
            && Units(wish) <= TradedSize(trades)
            && 0 <= left.funds && (after != [] ==> left.funds < after[0].price)
  {
    AggressorWalks(b, o);
    BoundBelowMarketPrice(b.product);
    var grain, taker := Grain(b.product), Aggressor(b.product, o);
    GreedyIsOptimal(grain, taker, b.asks, wish);
    LeftoverBuysNothing(grain, taker, b.asks);
    WalkBalances(grain, taker, b.asks);
    assert ApplyOrder(b, o).book.asks == Walk(grain, taker, b.asks).makers;
  }
}
