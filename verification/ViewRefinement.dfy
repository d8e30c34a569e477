/** The pushed book, rebuilt from the log alone, equals the matching book it never sees. */
module ViewRefinement {
  import opened Types
  import opened PriceTime
  import opened DedupWindow
  import opened Matching
  import opened MatchLoop
  import opened BookInvariant
  import opened OrderLives
  import opened LogGrammar
  import V = View
  import opened Stream

  /** The resting orders as the pushed book keeps them: id, side, price and size. */
  function Entries(m: map<int, BookOrder>): map<int, V.Entry> {
    map id | id in m :: V.Order(m[id])
  }

  ghost predicate Mirrors(s: Feed, m: map<int, BookOrder>) {
    ValidFeed(s) && s.book.orders == Entries(m)
  }

  /** One message about a mirrored order, with its own price and side, sets its size. */
  lemma {:induction false} ResizeMirrored(s: Feed, m: map<int, BookOrder>, o: BookOrder, offset: int, sequence: int, size: int)
    requires Mirrors(s, m) && o.id in m && m[o.id] == o && size >= 0
    ensures var r := Publish(s, V.SaveOrder(s.book, offset, sequence, o.id, size, o.price, o.side));
            r.Some? && Mirrors(r.value, if size == 0 then m - {o.id} else m[o.id := o.(size := size)])
  {
    assert s.book.orders[o.id] == V.Order(o);
    PublishValid(s, offset, sequence, o.id, size, o.price, o.side);
    V.SaveKnownOrder(s.book, offset, sequence, o.id, size);
    assert Entries(m - {o.id}) == Entries(m) - {o.id};
    assert Entries(m[o.id := o.(size := size)]) == Entries(m)[o.id := V.Order(o.(size := size))];
  }

  lemma {:induction false} FeedTrade(s: Feed, ms: seq<Message>, m: map<int, BookOrder>, takerId: int, t: Trade, logSeq: int, tradeSeq: int)
    requires Mirrors(s, m) && Logs(ms) == TradeLog(takerId, t, logSeq, tradeSeq)
    requires t.maker.id in m && m[t.maker.id] == t.maker.(size := t.maker.size + t.size)
    requires t.size > 0 && t.maker.size >= 0
    ensures FeedAll(s, ms).Some?
    ensures Mirrors(FeedAll(s, ms).value, if t.maker.size == 0 then m - {t.maker.id} else m[t.maker.id := t.maker])
  {
    var o := m[t.maker.id];
    var first, rest := ms[0], ms[1..];
    assert ms == [first] + rest;
    assert s.book.orders[o.id] == V.Order(o);
    ResizeMirrored(s, m, o, first.offset, first.log.sequence, t.maker.size);
    FeedOne(s, first);
    var s1 := Step(s, first).value;
    FeedConcat(s, [first], rest);
    assert o.(size := t.maker.size) == t.maker;
    if t.maker.size == 0 {
      FeedOne(s1, rest[0]);
      assert rest == [rest[0]];
      assert rest[0].log == ms[1].log;
      assert Step(s1, rest[0]) == Some(s1);
    } else {
      assert rest == [];
    }
  }

  lemma {:induction false} LogsSplit(ms: seq<Message>, a: seq<Log>, b: seq<Log>)
    requires Logs(ms) == a + b
    ensures |a| <= |ms| && Logs(ms[..|a|]) == a && Logs(ms[|a|..]) == b && ms == ms[..|a|] + ms[|a|..]
  {
    hide Logs;
    assert |ms| == |a| + |b|;
    forall i | 0 <= i < |ms|
      ensures ms[i].log == if i < |a| then a[i] else b[i - |a|]
    {
      assert Logs(ms)[i] == ms[i].log;
    }
    assert Logs(ms[..|a|]) == a;
    assert Logs(ms[|a|..]) == b;
  }

  /** The first round of a walk, apart. */
  lemma {:induction false} WalkHead(grain: int, taker: BookOrder, makers: seq<BookOrder>) returns (next: BookOrder, t: Trade)
    requires Walking(grain, taker, makers) && makers != [] && !Stops(grain, taker, makers[0])
    ensures next.id == taker.id && Walking(grain, next, makers[1..])
    ensures t.maker == makers[0].(size := t.maker.size) && t.maker.size + t.size == makers[0].size
    ensures t.size > 0 && t.maker.size >= 0
    ensures var r, rest := Walk(grain, taker, makers), Walk(grain, next, makers[1..]);
            && r.trades == [t] + rest.trades
            && r.makers == (if t.maker.size == 0 then [] else [t.maker]) + rest.makers
            && Ids(rest.makers) <= Ids(makers[1..])
  {
    WalkStep(grain, taker, makers);
    var size := TradeSize(grain, taker, makers[0]);
    next := Pay(taker, size, makers[0].price);
    t := Trade(makers[0].(size := makers[0].size - size), size);
    TradePartners(grain, next, makers[1..]);
  }

  lemma {:induction false} TradeLogsHead(takerId: int, t: Trade, rest: seq<Trade>, logSeq: int, tradeSeq: int)
    ensures var first := TradeLog(takerId, t, logSeq, tradeSeq);
            TradeLogs(takerId, [t] + rest, logSeq, tradeSeq)
            == first + TradeLogs(takerId, rest, logSeq + |first|, tradeSeq + 1)
  {
    assert ([t] + rest)[1..] == rest;
  }

  /** Feeding the entries of one walk leaves the view with the makers the walk leaves. */
  lemma {:induction false} FeedWalk(grain: int, taker: BookOrder, makers: seq<BookOrder>, base: map<int, BookOrder>,
                                    s: Feed, ms: seq<Message>, logSeq: int, tradeSeq: int)
    requires Walking(grain, taker, makers) && DistinctIds(makers) && base.Keys !! Ids(makers)
    requires Mirrors(s, base + OrderMap(makers))
    requires Logs(ms) == TradeLogs(taker.id, Walk(grain, taker, makers).trades, logSeq, tradeSeq)
    ensures FeedAll(s, ms).Some? && Mirrors(FeedAll(s, ms).value, base + OrderMap(Walk(grain, taker, makers).makers))
    decreases |makers|
  {
    hide Mirrors, TradeLogs, TradeLog, FeedAll, OrderMap, Logs;
    if makers == [] || Stops(grain, taker, makers[0]) {
      FeedNothing(taker.id, s, ms, logSeq, tradeSeq);
    } else {
      var next, t := WalkHead(grain, taker, makers);
      var rest := Walk(grain, next, makers[1..]).trades;
      FeedRound(taker.id, makers, t, rest, base, s, ms, logSeq, tradeSeq);
      var first := TradeLog(taker.id, t, logSeq, tradeSeq);
      var base' := if t.maker.size == 0 then base else base[t.maker.id := t.maker];
      FeedWalk(grain, next, makers[1..], base', FeedAll(s, ms[..|first|]).value, ms[|first|..], logSeq + |first|, tradeSeq + 1);
      assert t.maker.id !in Ids(makers[1..]) by { IdIsGone(makers); }
      LeftInMap(base, t.maker, Walk(grain, next, makers[1..]).makers, makers[1..]);
    }
  }

  lemma {:induction false} FeedNothing(takerId: int, s: Feed, ms: seq<Message>, logSeq: int, tradeSeq: int)
    requires Logs(ms) == TradeLogs(takerId, [], logSeq, tradeSeq)
    ensures FeedAll(s, ms) == Some(s)
  {
  }

  lemma {:induction false} IdIsGone(makers: seq<BookOrder>)
    requires makers != [] && DistinctIds(makers)
    ensures makers[0].id !in Ids(makers[1..])
  {
  }

  /** The messages of the first round, fed. */
  lemma {:induction false} FeedRound(takerId: int, makers: seq<BookOrder>, t: Trade, rest: seq<Trade>, base: map<int, BookOrder>,
                  s: Feed, ms: seq<Message>, logSeq: int, tradeSeq: int)
    requires makers != [] && DistinctIds(makers) && base.Keys !! Ids(makers) && Mirrors(s, base + OrderMap(makers))
    requires t.maker == makers[0].(size := t.maker.size) && t.maker.size + t.size == makers[0].size
    requires t.size > 0 && t.maker.size >= 0
    requires Logs(ms) == TradeLogs(takerId, [t] + rest, logSeq, tradeSeq)
    ensures var first := TradeLog(takerId, t, logSeq, tradeSeq);
            var base' := if t.maker.size == 0 then base else base[t.maker.id := t.maker];
            && |first| <= |ms| && FeedAll(s, ms[..|first|]).Some?
            && FeedAll(s, ms) == FeedAll(FeedAll(s, ms[..|first|]).value, ms[|first|..])
            && Mirrors(FeedAll(s, ms[..|first|]).value, base' + OrderMap(makers[1..]))
            && Logs(ms[|first|..]) == TradeLogs(takerId, rest, logSeq + |first|, tradeSeq + 1)
            && base'.Keys !! Ids(makers[1..])
  {
    hide Mirrors, TradeLogs, TradeLog, FeedAll, OrderMap, Logs;
    var first := TradeLog(takerId, t, logSeq, tradeSeq);
    TradeLogsHead(takerId, t, rest, logSeq, tradeSeq);
    LogsSplit(ms, first, TradeLogs(takerId, rest, logSeq + |first|, tradeSeq + 1));
    var m := base + OrderMap(makers);
    HeadInMap(base, makers, t.maker);
    assert m[t.maker.id] == t.maker.(size := t.maker.size + t.size);
    FeedTrade(s, ms[..|first|], m, takerId, t, logSeq, tradeSeq);
    FeedConcat(s, ms[..|first|], ms[|first|..]);
  }

  /** The head of a queue in the map of the whole book. */
  lemma {:induction false} HeadInMap(base: map<int, BookOrder>, makers: seq<BookOrder>, left: BookOrder)
    requires makers != [] && DistinctIds(makers) && base.Keys !! Ids(makers) && left.id == makers[0].id
    ensures var m, tail := base + OrderMap(makers), OrderMap(makers[1..]);
            && left.id in m && m[left.id] == makers[0]
            && m - {left.id} == base + tail
            && m[left.id := left] == base[left.id := left] + tail
            && base[left.id := left].Keys !! Ids(makers[1..]) && base.Keys !! Ids(makers[1..])
  {
    OrderMapKeys(makers[1..]);
    IdsTail(makers);
    assert makers[0].id !in Ids(makers[1..]);
  }

  lemma {:induction false} LeftInMap(base: map<int, BookOrder>, left: BookOrder, rest: seq<BookOrder>, tail: seq<BookOrder>)
    requires left.id !in Ids(tail)
    ensures Ids(rest) <= Ids(tail) ==>
              base + OrderMap((if left.size == 0 then [] else [left]) + rest)
              == (if left.size == 0 then base else base[left.id := left]) + OrderMap(rest)
  {
    OrderMapKeys(rest);
    assert ([left] + rest)[1..] == rest && [] + rest == rest;
  }

  // ------------------------------------------------------- commands and runs

  /** The other side's queue on top of the own side's. */
  lemma {:induction false} RestingAsSum(b: Book, side: Side)
    requires Ids(b.asks) !! Ids(b.bids)
    ensures RestingOrders(b) == OrderMap(Depth(b, side)) + OrderMap(Depth(b, side.Opposite()))
    ensures OrderMap(Depth(b, side)).Keys !! Ids(Depth(b, side.Opposite()))
  {
    OrderMapKeys(b.asks);
    OrderMapKeys(b.bids);
  }

  lemma {:induction false} FeedTail(s: Feed, m: Message, resting: map<int, BookOrder>, o: BookOrder)
    requires Mirrors(s, resting) && o.id !in resting && o.size >= 0
    requires !m.log.MatchLog? && m.log.orderId == o.id
    requires m.log.OpenLog? ==> o.size > 0 && m.log.remainingSize == o.size && m.log.price == o.price && m.log.side == o.side
    ensures Step(s, m).Some?
    ensures Mirrors(Step(s, m).value, if m.log.OpenLog? then resting[o.id := o] else resting)
  {
    assert o.id !in s.book.orders;
    if m.log.OpenLog? {
      PublishValid(s, m.offset, m.log.sequence, o.id, o.size, o.price, o.side);
      V.SaveNewOrder(s.book, m.offset, m.log.sequence, o.id, o.size, o.price, o.side);
      assert Entries(resting[o.id := o]) == Entries(resting)[o.id := V.Order(o)];
    }
  }

  /** An accepted order's whole walk, fed: the view then mirrors the book between walk and tail. */
  lemma {:induction false} FeedEntries(b: Book, o: BookOrder, s: Feed, ms: seq<Message>)
    requires ValidBook(b) && o.Sane() && CanApply(b, o) && Accepts(b.window, o.id)
    requires Mirrors(s, RestingOrders(b))
    requires var r := Walk(Grain(b.product), Aggressor(b.product, o), Depth(b, o.side.Opposite()));
             Logs(ms) == TradeLogs(o.id, r.trades, b.logSeq, b.tradeSeq)
    ensures FeedAll(s, ms).Some? && Mirrors(FeedAll(s, ms).value, RestingOrders(Traded(b, o)))
  {
    hide Mirrors, FeedAll, Logs, Walk, TradeLogs;
    var grain, taker := Grain(b.product), Aggressor(b.product, o);
    AggressorWalks(b, o);
    RestingAsSum(b, o.side);
    FeedWalk(grain, taker, Depth(b, o.side.Opposite()), OrderMap(Depth(b, o.side)), s, ms, b.logSeq, b.tradeSeq);
    TradedValid(b, o);
    RestingAsSum(Traded(b, o), o.side);
  }

  lemma {:induction false} FeedPlace(b: Book, o: BookOrder, s: Feed, ms: seq<Message>)
    requires ValidBook(b) && o.Sane() && CanApply(b, o) && o.id !in RestingIds(b)
    requires Mirrors(s, RestingOrders(b)) && Logs(ms) == ApplyOrder(b, o).logs
    ensures FeedAll(s, ms).Some? && Mirrors(FeedAll(s, ms).value, RestingOrders(ApplyOrder(b, o).book))
  {
    if Accepts(b.window, o.id) {
      FeedAccepted(b, o, s, ms);
    } else {
      assert ms == [];
    }
  }

  lemma {:induction false} PlacedMap(b: Book, o: BookOrder, tail: Log)
    requires ValidBook(b) && o.Sane() && CanApply(b, o) && Accepts(b.window, o.id) && o.id !in RestingIds(b)
    requires Finish(Traded(b, o), Remainder(b, o)).logs == [tail]
    ensures var left := Remainder(b, o);
            && left.id == o.id && left.size >= 0 && o.id !in RestingOrders(Traded(b, o))
            && !tail.MatchLog? && tail.orderId == o.id
            && (tail.OpenLog? ==> left.size > 0 && tail.remainingSize == left.size && tail.price == left.price && tail.side == left.side)
            && RestingOrders(ApplyOrder(b, o).book) ==
               if tail.OpenLog? then RestingOrders(Traded(b, o))[o.id := left] else RestingOrders(Traded(b, o))
  {
    hide Walk, TradeLogs, Walking;
    RemainderFacts(b, o);
    RemainderSize(b, o);
    TradedValid(b, o);
    RestingOrdersKeys(Traded(b, o));
    FinishMap(Traded(b, o), Remainder(b, o));
  }

  lemma {:induction false} FinishMap(t: Book, left: BookOrder)
    requires ValidBook(t) && left.id !in RestingIds(t)
    ensures RestingOrders(Finish(t, left).book) ==
            if left.kind.Limit? && left.size > 0 then RestingOrders(t)[left.id := left] else RestingOrders(t)
  {
    hide ValidBook;
    if left.kind.Limit? && left.size > 0 {
      OrderMapOfInsert(left.side, Depth(t, left.side), left);
      OrderMapKeys(t.bids);
      SumPut(OrderMap(t.asks), OrderMap(t.bids), left);
    }
  }

  lemma {:induction false} SumPut(x: map<int, BookOrder>, y: map<int, BookOrder>, o: BookOrder)
    ensures x + y[o.id := o] == (x + y)[o.id := o]
    ensures o.id !in y ==> x[o.id := o] + y == (x + y)[o.id := o]
  {
  }

  lemma {:induction false} RemainderSize(b: Book, o: BookOrder)
    requires ValidBook(b) && o.Sane() && CanApply(b, o) && Accepts(b.window, o.id)
    ensures Remainder(b, o).size >= 0
  {
    AggressorWalks(b, o);
    WalkBalances(Grain(b.product), Aggressor(b.product, o), Depth(b, o.side.Opposite()));
  }

  lemma {:induction false} FeedAccepted(b: Book, o: BookOrder, s: Feed, ms: seq<Message>)
    requires ValidBook(b) && o.Sane() && CanApply(b, o) && Accepts(b.window, o.id) && o.id !in RestingIds(b)
    requires Mirrors(s, RestingOrders(b)) && Logs(ms) == ApplyOrder(b, o).logs
    ensures FeedAll(s, ms).Some? && Mirrors(FeedAll(s, ms).value, RestingOrders(ApplyOrder(b, o).book))
  {
    var r := Walk(Grain(b.product), Aggressor(b.product, o), Depth(b, o.side.Opposite()));
    var entries := TradeLogs(o.id, r.trades, b.logSeq, b.tradeSeq);
    var tail := Finish(Traded(b, o), Remainder(b, o)).logs[0];
    assert ApplyOrder(b, o).logs == entries + [tail];
    hide Mirrors, FeedAll, Logs, Walk, TradeLogs, ApplyOrder, Traded, Remainder, ValidBook, CanApply, Step;
    LogsSplit(ms, entries, [tail]);
    FeedEntries(b, o, s, ms[..|entries|]);
    var s1 := FeedAll(s, ms[..|entries|]).value;
    PlacedMap(b, o, tail);
    var last := ms[|entries|..];
    assert |Logs(last)| == |last| && Logs(last)[0] == last[0].log;
    assert last == [last[0]];
    FeedTail(s1, last[0], RestingOrders(Traded(b, o)), Remainder(b, o));
    FeedOne(s1, last[0]);
    FeedConcat(s, ms[..|entries|], last);
  }

  lemma {:induction false} FeedCancel(b: Book, o: BookOrder, s: Feed, ms: seq<Message>)
    requires ValidBook(b)
    requires Mirrors(s, RestingOrders(b)) && Logs(ms) == CancelOrder(b, o).logs
    ensures FeedAll(s, ms).Some? && Mirrors(FeedAll(s, ms).value, RestingOrders(CancelOrder(b, o).book))
  {
    var q := Depth(b, o.side);
    var i := IndexOf(q, o.id);
    if i < |q| {
      CancelShape(b, o, i);
      var m := ms[0];
      assert ms == [m] && Logs(ms)[0] == m.log;
      assert q[i] in q;
      assert s.book.orders[o.id] == V.Order(q[i]);
      ResizeMirrored(s, RestingOrders(b), q[i], m.offset, m.log.sequence, 0);
      FeedOne(s, m);
    } else {
      assert ms == [];
      assert RestingOrders(CancelOrder(b, o).book) == RestingOrders(b);
    }
  }

  /** The view follows the book: over every run of sane orders with distinct ids, feeding the emitted log to the
      stream, at any offsets, never panics, and the view then holds exactly the book's resting orders, with exact
      levels. Every prefix of a run is a run, so this holds after each order. */
  lemma {:induction false} ViewFollowsBook(p: Product, cmds: seq<Command>, ms: seq<Message>)
    requires ScaleOk(p) && DistinctPlaces(cmds) && SanePlaces(cmds) && Run(p, cmds).Some?
    requires Logs(ms) == Run(p, cmds).value.logs
    ensures FeedAll(START, ms).Some?
    ensures ValidFeed(FeedAll(START, ms).value)
    ensures FeedAll(START, ms).value.book.orders == Entries(RestingOrders(Run(p, cmds).value.book))
  {
    if cmds == [] {
      StartValid();
      assert ms == [];
    } else {
      var n := |cmds| - 1;
      var front, c := cmds[..n], cmds[n];
      var a := Run(p, front).value;
      var r := Execute(a.book, c);
      RunSound(p, front);
      LogsSplit(ms, a.logs, r.logs);
      ViewFollowsBook(p, front, ms[..|a.logs|]);
      var s := FeedAll(START, ms[..|a.logs|]).value;
      FeedConcat(START, ms[..|a.logs|], ms[|a.logs|..]);
      if c.Place? {
        FreshToBook(p, cmds);
        FeedPlace(a.book, c.order, s, ms[|a.logs|..]);
      } else {
        FeedCancel(a.book, c.order, s, ms[|a.logs|..]);
      }
    }
  }

  lemma {:induction false} FreshToBook(p: Product, cmds: seq<Command>)
    requires ScaleOk(p) && DistinctPlaces(cmds) && SanePlaces(cmds) && Run(p, cmds).Some?
    requires cmds != [] && cmds[|cmds| - 1].Place?
    ensures var n := |cmds| - 1; Run(p, cmds[..n]).Some? && cmds[n].order.id !in RestingIds(Run(p, cmds[..n]).value.book)
  {
    var n := |cmds| - 1;
    RunSound(p, cmds[..n]);
    var a := Run(p, cmds[..n]).value;
    RestingArePlaced(a.book, a.logs, PlacedOrders(cmds[..n]));
    assert forall i :: 0 <= i < n ==> cmds[..n][i] == cmds[i];
    FreshIsNotPlaced(cmds[..n], cmds[n].order.id);
  }
}
