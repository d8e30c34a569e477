/** What settlement relies on: every logged trade is between two placed orders of opposite sides. */
module FairTrades {
  import opened Types
  import opened PriceTime
  import opened DedupWindow
  import opened Matching
  import opened MatchLoop
  import opened BookInvariant
  import opened LogGrammar
  import opened OrderLives

  /** An entry quotes its orders as they were placed: only limit orders rest, at their own price and side; a limit order
      is done cancelled exactly when some of it remains. */
  ghost predicate FairEntry(log: Log, placed: map<int, BookOrder>) {
    match log
    case OpenLog(_, id, size, price, side) =>
      id in placed && placed[id].kind.Limit? && price == placed[id].price && side == placed[id].side
    case DoneLog(_, id, price, size, reason, side) =>
      && id in placed && side == placed[id].side
      && (placed[id].kind.Limit? ==> price == placed[id].price && size >= 0 && (reason.Cancelled? <==> size > 0))
      && (placed[id].kind.Market? ==> price == 0 && size == 0)
    case MatchLog(_, _, taker, maker, side, price, size) =>
      && size > 0 && price >= 0 && taker != maker && taker in placed && maker in placed
      && placed[maker].side == side && placed[taker].side == side.Opposite()
      && placed[maker].kind.Limit? && price == placed[maker].price
  }

  ghost predicate Fair(logs: seq<Log>, placed: map<int, BookOrder>) {
    forall i :: 0 <= i < |logs| ==> FairEntry(logs[i], placed)
  }

  lemma {:induction false} FairGrows(logs: seq<Log>, placed: map<int, BookOrder>, more: map<int, BookOrder>)
    requires Fair(logs, placed) && forall id :: id in placed ==> id in more && more[id] == placed[id]
    ensures Fair(logs, more)
  {
  }

  lemma {:induction false} FairConcat(a: seq<Log>, b: seq<Log>, placed: map<int, BookOrder>)
    requires Fair(a, placed) && Fair(b, placed)
    ensures Fair(a + b, placed)
  {
  }

  ghost predicate FairTrade(t: Trade, takerId: int, placed: map<int, BookOrder>) {
    && t.size > 0 && t.maker.price >= 0 && t.maker.id != takerId && takerId in placed && t.maker.id in placed
    && placed[t.maker.id] == t.maker.(size := placed[t.maker.id].size) && t.maker.kind.Limit?
    && placed[takerId].side == t.maker.side.Opposite()
  }

  lemma {:induction false} TradesAreFair(takerId: int, trades: seq<Trade>, logSeq: int, tradeSeq: int, placed: map<int, BookOrder>)
    requires forall t :: t in trades ==> FairTrade(t, takerId, placed)
    ensures Fair(TradeLogs(takerId, trades, logSeq, tradeSeq), placed)
    decreases |trades|
  {
    if trades != [] {
      var first := TradeLog(takerId, trades[0], logSeq, tradeSeq);
      assert trades[0] in trades;
      TradesAreFair(takerId, trades[1..], logSeq + |first|, tradeSeq + 1, placed);
      FairConcat(first, TradeLogs(takerId, trades[1..], logSeq + |first|, tradeSeq + 1), placed);
    }
  }

  /** A resting order is the placed one, but for its size. */
  lemma {:induction false} RestingIsPlaced(b: Book, logs: seq<Log>, placed: map<int, BookOrder>, side: Side, i: nat)
    requires Sound(b, logs, placed) && i < |Depth(b, side)|
    ensures var m := Depth(b, side)[i];
            m.id in placed && placed[m.id] == m.(size := placed[m.id].size) && m.side == side && m.kind.Limit?
  {
    var q := Depth(b, side);
    var id := q[i].id;
    assert q[i] in q;
    OrderMapAt(q, i);
    RestingLookup(b, side, id);
    assert Explained(LifeOf(logs, id), id, RestingOrders(b), placed, PricesBounded(b.product, placed));
  }

  lemma {:induction false} TradesAreOfMakers(grain: int, taker: BookOrder, makers: seq<BookOrder>, t: Trade)
    requires grain > 0 && Priced(taker, makers) && t in Walk(grain, taker, makers).trades
    ensures exists i :: 0 <= i < |makers| && t.maker == makers[i].(size := t.maker.size)
    decreases |makers|
  {
    var size := TradeSize(grain, taker, makers[0]);
    var first := Trade(makers[0].(size := makers[0].size - size), size);
    if t == first {
      assert t.maker == makers[0].(size := t.maker.size);
    } else {
      TradesAreOfMakers(grain, Pay(taker, size, makers[0].price), makers[1..], t);
      var i :| 0 <= i < |makers[1..]| && t.maker == makers[1..][i].(size := t.maker.size);
      assert t.maker == makers[i + 1].(size := t.maker.size);
    }
  }

  lemma {:induction false} PlaceFair(b: Book, logs: seq<Log>, placed: map<int, BookOrder>, o: BookOrder)
    requires Sound(b, logs, placed) && o.Sane() && CanApply(b, o) && o.id !in placed
    ensures Fair(ApplyOrder(b, o).logs, placed[o.id := o])
  {
    if Accepts(b.window, o.id) {
      hide Walk, Aggressor, TradeLogs, ApplyOrder, Fair, Sound, FairTrade;
      RestingArePlaced(b, logs, placed);
      SoundIsValid(b, logs, placed);
      hide ValidBook;
      AggressorWalks(b, o);
      var trades := Walk(Grain(b.product), Aggressor(b.product, o), Depth(b, o.side.Opposite())).trades;
      forall t | t in trades
        ensures FairTrade(t, o.id, placed[o.id := o])
      {
        TradeIsFair(b, logs, placed, o, t);
      }
      TradesAreFair(o.id, trades, b.logSeq, b.tradeSeq, placed[o.id := o]);
      var tail := TailIsFair(b, o, placed[o.id := o]);
      FairConcat(TradeLogs(o.id, trades, b.logSeq, b.tradeSeq), [tail], placed[o.id := o]);
    }
  }

  lemma {:induction false} SoundIsValid(b: Book, logs: seq<Log>, placed: map<int, BookOrder>)
    requires Sound(b, logs, placed)
    ensures ValidBook(b)
  {
  }

  lemma {:induction false} TradeIsFair(b: Book, logs: seq<Log>, placed: map<int, BookOrder>, o: BookOrder, t: Trade)
    requires Sound(b, logs, placed) && o.Sane() && CanApply(b, o) && Accepts(b.window, o.id) && o.id !in placed
    requires t in Walk(Grain(b.product), Aggressor(b.product, o), Depth(b, o.side.Opposite())).trades
    ensures FairTrade(t, o.id, placed[o.id := o])
  {
    hide Walk, Aggressor, ApplyOrder, TradeSize, Pay, Resting, LogExplainsBook;
    RestingArePlaced(b, logs, placed);
    NoSelfTrade(b, o);
    TakersTrades(b, o);
    AggressorWalks(b, o);
    var q := Depth(b, o.side.Opposite());
    TradesAreOfMakers(Grain(b.product), Aggressor(b.product, o), q, t);
    var i :| 0 <= i < |q| && t.maker == q[i].(size := t.maker.size);
    RestingIsPlaced(b, logs, placed, o.side.Opposite(), i);
  }

  lemma {:induction false} TailIsFair(b: Book, o: BookOrder, placed: map<int, BookOrder>) returns (tail: Log)
    requires ValidBook(b) && o.Sane() && CanApply(b, o) && Accepts(b.window, o.id) && o.id in placed && placed[o.id] == o
    ensures Fair([tail], placed)
    ensures var trades := Walk(Grain(b.product), Aggressor(b.product, o), Depth(b, o.side.Opposite())).trades;
            ApplyOrder(b, o).logs == TradeLogs(o.id, trades, b.logSeq, b.tradeSeq) + [tail]
  {
    hide Walk, TradeLogs;
    AggressorWalks(b, o);
    WalkBalances(Grain(b.product), Aggressor(b.product, o), Depth(b, o.side.Opposite()));
    tail := Finish(Traded(b, o), Remainder(b, o)).logs[0];
  }

  lemma {:induction false} TakersTrades(b: Book, o: BookOrder)
    requires ValidBook(b) && o.Sane() && CanApply(b, o) && Accepts(b.window, o.id)
    ensures forall t :: t in Walk(Grain(b.product), Aggressor(b.product, o), Depth(b, o.side.Opposite())).trades ==>
              t.size > 0 && t.maker.price >= 0 && t.maker.side == o.side.Opposite()
  {
    AggressorWalks(b, o);
    WalkBalances(Grain(b.product), Aggressor(b.product, o), Depth(b, o.side.Opposite()));
  }

  lemma {:induction false} CancelFair(b: Book, logs: seq<Log>, placed: map<int, BookOrder>, o: BookOrder)
    requires Sound(b, logs, placed)
    ensures Fair(CancelOrder(b, o).logs, placed)
  {
    var i := IndexOf(Depth(b, o.side), o.id);
    if i < |Depth(b, o.side)| {
      IndexOfIn(Depth(b, o.side), o.id);
      RestingIsPlaced(b, logs, placed, o.side, i);
    }
  }

  /** Every trade a run logs has positive size, a price not below zero, and two placed orders of opposite sides,
      the maker's being the one logged, at the price the maker was placed with; so do all other entries quote their orders. */
  lemma {:induction false} RunFair(p: Product, cmds: seq<Command>)
    requires ScaleOk(p) && DistinctPlaces(cmds) && SanePlaces(cmds) && Run(p, cmds).Some?
    ensures Fair(Run(p, cmds).value.logs, PlacedOrders(cmds))
    decreases |cmds|
  {
    if cmds != [] {
      hide ApplyOrder, CancelOrder, CanApply, FairEntry;
      var n := |cmds| - 1;
      var front, c := cmds[..n], cmds[n];
      RunSound(p, front);
      RunFair(p, front);
      var a := Run(p, front).value;
      match c {
        case Cancel(o) =>
          CancelFair(a.book, a.logs, PlacedOrders(front), o);
          FairConcat(a.logs, CancelOrder(a.book, o).logs, PlacedOrders(front));
        case Place(o) =>
          assert forall i :: 0 <= i < n ==> front[i] == cmds[i];
          FreshIsNotPlaced(front, o.id);
          PlaceFair(a.book, a.logs, PlacedOrders(front), o);
          FairGrows(a.logs, PlacedOrders(front), PlacedOrders(cmds));
          FairConcat(a.logs, ApplyOrder(a.book, o).logs, PlacedOrders(cmds));
      }
    }
  }
}
