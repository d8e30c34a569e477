/** What every step of the matching book keeps, and the market-level theorems on one order. */
module BookInvariant {
  import opened Types
  import opened PriceTime
  import opened DedupWindow
  import opened Decimals
  import opened Matching
  import opened MatchLoop
  import opened MarketBuy

  /** Queues sorted and one entry per id, sizes positive, the spread open. */
  ghost predicate ValidBook(b: Book) {
    && ScaleOk(b.product) && b.window.cap > 0
    && Resting(Sell, b.asks) && Resting(Buy, b.bids)
    && DistinctIds(b.asks) && DistinctIds(b.bids) && Ids(b.asks) !! Ids(b.bids)
    && Uncrossed(b)
  }

  ghost predicate Uncrossed(b: Book) {
    forall x, y :: x in b.bids && y in b.asks ==> x.price < y.price
  }

  function RestingIds(b: Book): set<int> {
    Ids(b.asks) + Ids(b.bids)
  }

  lemma {:induction false} NewBookValid(p: Product)
    requires ScaleOk(p)
    ensures ValidBook(NewBook(p))
  {
  }

  /** The panic, exactly: applying an order divides by zero if and only if it is an accepted market buy
      with funds and the best ask is priced at zero. */
  lemma {:induction false} PanicsExactly(b: Book, o: BookOrder)
    requires ValidBook(b)
    ensures !CanApply(b, o) <==>
              Accepts(b.window, o.id) && o.MarketBuy() && o.funds != 0 && b.asks != [] && b.asks[0].price == 0
  {
    if b.asks != [] {
      SortedIsDearer(b.asks);
      assert b.asks[0] in b.asks;
      forall m | m in b.asks
        ensures m.price >= b.asks[0].price
      {
        var i :| 0 <= i < |b.asks| && b.asks[i] == m;
      }
    }
  }

  /** A limit sell at price zero can rest, and then a market buy with one quote tick panics. */
  lemma {:induction false} ZeroPriceAskPanics(p: Product)
    requires ScaleOk(p)
    ensures var sell := BookOrder(1, 1, 0, 0, Sell, Limit);
            var buy := BookOrder(2, 0, Pow10(p.baseScale), 0, Buy, Market);
            sell.Sane() && buy.Sane() && Run(p, [Place(sell)]).Some? && Run(p, [Place(sell), Place(buy)]).None?
  {
    var sell := BookOrder(1, 1, 0, 0, Sell, Limit);
    var buy := BookOrder(2, 0, Pow10(p.baseScale), 0, Buy, Market);
    var cmds := [Place(sell), Place(buy)];
    assert cmds[..1] == [Place(sell)] && [Place(sell)][..0] == [];
    assert Run(p, []) == Some(Applied(NewBook(p), []));
    var b := ApplyOrder(NewBook(p), sell).book;
    assert b.asks == [sell];
    assert Run(p, [Place(sell)]).value.book == b;
    assert sell in b.asks;
  }

  /** A taker about to walk the other side. */
  lemma {:induction false} AggressorWalks(b: Book, o: BookOrder)
    requires ValidBook(b) && o.Sane() && CanApply(b, o) && Accepts(b.window, o.id)
    ensures var taker := Aggressor(b.product, o);
            && Walking(Grain(b.product), taker, Depth(b, o.side.Opposite()))
            && taker.id == o.id && taker.side == o.side && taker.kind == o.kind && taker.size == o.size && taker.funds == o.funds
  {
  }

  /** Makers that survive a walk: a suffix of the queue, the first one possibly smaller. */
  lemma {:induction false} SurvivorAt(q: seq<BookOrder>, r: Walked, k: nat, part: nat, j: nat)
    requires (forall m :: m in q ==> m.size > 0) && Prefix(q, r, k, part) && j < |r.makers|
    ensures k + j < |q| && q[k + j] in q
    ensures r.makers[j] == q[k + j].(size := r.makers[j].size) && 0 < r.makers[j].size <= q[k + j].size
  {
  }

  lemma {:induction false} SurvivorsRest(side: Side, q: seq<BookOrder>, r: Walked, k: nat, part: nat)
    requires Resting(side, q) && DistinctIds(q) && Prefix(q, r, k, part)
    ensures Resting(side, r.makers) && DistinctIds(r.makers) && Ids(r.makers) <= Ids(q)
    ensures forall m :: m in r.makers ==> exists m0 :: m0 in q && m0.price == m.price
  {
    forall i, j | 0 <= i < j < |r.makers|
      ensures Before(side, r.makers[i], r.makers[j]) && r.makers[i].id != r.makers[j].id
    {
      SurvivorAt(q, r, k, part, i);
      SurvivorAt(q, r, k, part, j);
      assert Before(side, q[k + i], q[k + j]);
    }
    forall m | m in r.makers
      ensures exists m0 :: m0 in q && m0.price == m.price && m0.id == m.id
      ensures m.side == side && m.size > 0 && m.price >= 0 && m.kind.Limit?
    {
      var i :| 0 <= i < |r.makers| && r.makers[i] == m;
      SurvivorAt(q, r, k, part, i);
      assert q[k + i].id == m.id;
    }
  }

  /** If the taker still has size, every maker left is beyond its price. */
  lemma {:induction false} UnfilledMeansUncrossed(grain: int, taker: BookOrder, makers: seq<BookOrder>)
    requires Walking(grain, taker, makers) && taker.kind.Limit?
    ensures var r := Walk(grain, taker, makers);
            r.taker.size > 0 ==> forall m :: m in r.makers ==> !Crosses(taker, m)
  {
    WalkEnd(grain, taker, makers);
    WalkBalances(grain, taker, makers);
    var k, part := WalkIsPrefix(grain, taker, makers);
    var r := Walk(grain, taker, makers);
    if r.taker.size > 0 && r.makers != [] {
      assert !Crosses(taker, r.makers[0]);
      forall m | m in r.makers
        ensures !Crosses(taker, m)
      {
        var i :| 0 <= i < |r.makers| && r.makers[i] == m;
        if i > 0 {
          assert Before(taker.side.Opposite(), makers[k], makers[k + i]);
        }
      }
    }
  }

  /** Fewer or smaller orders on one side keep a book valid. */
  lemma {:induction false} ShrunkSideValid(b: Book, side: Side, q: seq<BookOrder>)
    requires ValidBook(b)
    requires Resting(side, q) && DistinctIds(q) && Ids(q) <= Ids(Depth(b, side))
    requires forall m :: m in q ==> exists m0 :: m0 in Depth(b, side) && m0.price == m.price
    ensures ValidBook(WithDepth(b, side, q)) && RestingIds(WithDepth(b, side, q)) <= RestingIds(b)
  {
    var b' := WithDepth(b, side, q);
    forall x, y | x in b'.bids && y in b'.asks
      ensures x.price < y.price
    {
      if side.Buy? {
        var x0 :| x0 in b.bids && x0.price == x.price;
      } else {
        var y0 :| y0 in b.asks && y0.price == y.price;
      }
    }
  }

  /** A new order that nothing on the other side crosses keeps a book valid. */
  lemma {:induction false} InsertValid(b: Book, o: BookOrder)
    requires ValidBook(b) && o.id !in RestingIds(b)
    requires o.kind.Limit? && o.size > 0 && o.price >= 0
    requires forall m :: m in Depth(b, o.side.Opposite()) ==> !Crosses(o, m)
    ensures var b' := WithDepth(b, o.side, Insert(o.side, Depth(b, o.side), o));
            ValidBook(b') && RestingIds(b') == RestingIds(b) + {o.id}
  {
    var q := Depth(b, o.side);
    InsertSorted(o.side, q, o);
    InsertDistinct(o.side, q, o);
    InsertIds(o.side, q, o);
    var b' := WithDepth(b, o.side, Insert(o.side, q, o));
    forall x, y | x in b'.bids && y in b'.asks
      ensures x.price < y.price
    {
      if o.side.Buy? {
        assert !Crosses(o, y);
        assert x == o || x in b.bids;
      } else {
        assert !Crosses(o, x);
        assert y == o || y in b.asks;
      }
    }
  }

  /** The book after the match loop, before the rest of the taker is dealt with. */
  function Traded(b: Book, o: BookOrder): Book
    requires CanApply(b, o) && Accepts(b.window, o.id)
  {
    var taker := Aggressor(b.product, o);
    var r := Walk(Grain(b.product), taker, Depth(b, taker.side.Opposite()));
    WithDepth(b, taker.side.Opposite(), r.makers)
      .(logSeq := b.logSeq + |TradeLogs(taker.id, r.trades, b.logSeq, b.tradeSeq)|,
        tradeSeq := b.tradeSeq + |r.trades|, window := Put(b.window, o.id))
  }

  function Remainder(b: Book, o: BookOrder): BookOrder
    requires CanApply(b, o) && Accepts(b.window, o.id)
  {
    var taker := Aggressor(b.product, o);
    Walk(Grain(b.product), taker, Depth(b, taker.side.Opposite())).taker
  }

  lemma {:induction false} TradedValid(b: Book, o: BookOrder)
    requires ValidBook(b) && o.Sane() && CanApply(b, o) && Accepts(b.window, o.id)
    ensures ValidBook(Traded(b, o)) && RestingIds(Traded(b, o)) <= RestingIds(b)
  {
    AggressorWalks(b, o);
    var grain, other := Grain(b.product), o.side.Opposite();
    var taker := Aggressor(b.product, o);
    var r := Walk(grain, taker, Depth(b, other));
    var k, part := WalkIsPrefix(grain, taker, Depth(b, other));
    SurvivorsRest(other, Depth(b, other), r, k, part);
    ShrunkSideValid(b, other, r.makers);
  }

  lemma {:induction false} RemainderFacts(b: Book, o: BookOrder)
    requires ValidBook(b) && o.Sane() && CanApply(b, o) && Accepts(b.window, o.id)
    ensures var taker := Remainder(b, o);
            && taker.(size := o.size, funds := o.funds, price := o.price) == o
            && (o.kind.Limit? ==> taker.price == o.price)
            && (o.kind.Limit? && taker.size > 0 ==>
                  forall m :: m in Depth(Traded(b, o), o.side.Opposite()) ==> !Crosses(taker, m))
  {
    AggressorWalks(b, o);
    var taker := Aggressor(b.product, o);
    WalkBalances(Grain(b.product), taker, Depth(b, o.side.Opposite()));
    if o.kind.Limit? {
      UnfilledMeansUncrossed(Grain(b.product), taker, Depth(b, o.side.Opposite()));
    }
  }

  /** A fresh, sane order keeps the book valid: sorted, one entry per id, positive sizes, best bid below best ask. */
  lemma {:induction false} ApplyKeepsValid(b: Book, o: BookOrder)
    requires ValidBook(b) && o.Sane() && CanApply(b, o) && o.id !in RestingIds(b)
    ensures ValidBook(ApplyOrder(b, o).book)
    ensures RestingIds(ApplyOrder(b, o).book) <= RestingIds(b) + {o.id}
  {
    if Accepts(b.window, o.id) {
      TradedValid(b, o);
      RemainderFacts(b, o);
      var traded, taker := Traded(b, o), Remainder(b, o);
      if taker.kind.Limit? && taker.size > 0 {
        InsertValid(traded, taker);
      }
      assert ApplyOrder(b, o).book == Finish(traded, taker).book;
    }
  }

  lemma {:induction false} CancelKeepsValid(b: Book, o: BookOrder)
    requires ValidBook(b)
    ensures ValidBook(CancelOrder(b, o).book)
    ensures RestingIds(CancelOrder(b, o).book) == RestingIds(b) - (if o.id in Ids(Depth(b, o.side)) then {o.id} else {})
  {
    var q := Depth(b, o.side);
    var i := IndexOf(q, o.id);
    IndexOfIn(q, o.id);
    if i < |q| {
      RemovalRests(o.side, q, i);
      RemoveAtElements(q, i);
      ShrunkSideValid(b, o.side, RemoveAt(q, i));
    }
  }

  lemma {:induction false} RemovalRests(side: Side, q: seq<BookOrder>, i: nat)
    requires i < |q| && Resting(side, q) && DistinctIds(q)
    ensures Resting(side, RemoveAt(q, i)) && DistinctIds(RemoveAt(q, i))
  {
    RemoveAtElements(q, i);
  }
}
