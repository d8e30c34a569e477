/** What the matching log says about each order, read as an automaton. */
module LogGrammar {
  import opened Types
  import opened PriceTime
  import opened Matching
  import opened MatchLoop

  /** Taker matches, then Done, or Open, maker matches and at most one Done; anything else is Broken. */
  datatype Phase = Unseen | Taking | Standing | Finished | Broken

  /** Phase, matched size and value so far, and the remaining size its Done reported. */
  datatype Life = Life(phase: Phase, filled: int, value: int, returned: int)

  const NO_LIFE := Life(Unseen, 0, 0, 0)

  function Advance(l: Life, log: Log, id: int): Life {
    match log
    case OpenLog(_, orderId, _, _, _) =>
      if orderId != id then l
      else if l.phase.Unseen? || l.phase.Taking? then l.(phase := Standing)
      else l.(phase := Broken)
    case MatchLog(_, _, takerId, makerId, _, price, size) =>
      if takerId == id && makerId == id then l.(phase := Broken)
      else if takerId == id then
        Life(if l.phase.Unseen? || l.phase.Taking? then Taking else Broken, l.filled + size, l.value + size * price, l.returned)
      else if makerId == id then
        Life(if l.phase.Standing? then Standing else Broken, l.filled + size, l.value + size * price, l.returned)
      else l
    case DoneLog(_, orderId, _, remainingSize, _, _) =>
      if orderId != id then l
      else if l.phase.Finished? || l.phase.Broken? then l.(phase := Broken)
      else l.(phase := Finished, returned := remainingSize)
  }

  function LifeFrom(l: Life, logs: seq<Log>, id: int): Life
    decreases |logs|
  {
    if logs == [] then l else LifeFrom(Advance(l, logs[0], id), logs[1..], id)
  }

  function LifeOf(logs: seq<Log>, id: int): Life {
    LifeFrom(NO_LIFE, logs, id)
  }

  lemma {:induction false} LifeConcat(l: Life, a: seq<Log>, b: seq<Log>, id: int)
    ensures LifeFrom(l, a + b, id) == LifeFrom(LifeFrom(l, a, id), b, id)
    decreases |a|
  {
    if a == [] {
      assert a + b == b;
    } else {
      assert (a + b)[1..] == a[1..] + b;
      LifeConcat(Advance(l, a[0], id), a[1..], b, id);
    }
  }

  /** A standing maker's life after one trade. */
  function Made(l: Life, t: Trade): Life {
    Life(if t.maker.size == 0 then Finished else Standing, l.filled + t.size, l.value + t.size * t.maker.price,
         if t.maker.size == 0 then 0 else l.returned)
  }

  /** The log entries of one trade, as the automaton of one order reads them. */
  lemma {:induction false} LifeOfOneTrade(l: Life, takerId: int, t: Trade, logSeq: int, tradeSeq: int, id: int)
    requires takerId != t.maker.id
    ensures var l' := LifeFrom(l, TradeLog(takerId, t, logSeq, tradeSeq), id);
            && (id != takerId && id != t.maker.id ==> l' == l)
            && (id == takerId && (l.phase.Unseen? || l.phase.Taking?) ==>
                  l' == Life(Taking, l.filled + t.size, l.value + t.size * t.maker.price, l.returned))
            && (id == t.maker.id && l.phase.Standing? ==> l' == Made(l, t))
  {
    var logs := TradeLog(takerId, t, logSeq, tradeSeq);
    assert LifeFrom(l, logs, id) == LifeFrom(Advance(l, logs[0], id), logs[1..], id);
    if t.maker.size == 0 {
      assert logs[1..] == [logs[1]];
    } else {
      assert logs[1..] == [];
    }
  }

  lemma {:induction false} LifeOfTaker(l: Life, takerId: int, trades: seq<Trade>, logSeq: int, tradeSeq: int)
    requires l.phase.Unseen? || l.phase.Taking?
    requires forall t :: t in trades ==> t.maker.id != takerId
    ensures LifeFrom(l, TradeLogs(takerId, trades, logSeq, tradeSeq), takerId)
            == Life(if trades == [] then l.phase else Taking, l.filled + TradedSize(trades), l.value + TradedValue(trades), l.returned)
    decreases |trades|
  {
    if trades != [] {
      var first := TradeLog(takerId, trades[0], logSeq, tradeSeq);
      assert trades[0] in trades;
      LifeOfOneTrade(l, takerId, trades[0], logSeq, tradeSeq, takerId);
      LifeConcat(l, first, TradeLogs(takerId, trades[1..], logSeq + |first|, tradeSeq + 1), takerId);
      LifeOfTaker(LifeFrom(l, first, takerId), takerId, trades[1..], logSeq + |first|, tradeSeq + 1);
    }
  }

  lemma {:induction false} LifeOfBystander(l: Life, takerId: int, trades: seq<Trade>, logSeq: int, tradeSeq: int, id: int)
    requires id != takerId && forall t :: t in trades ==> t.maker.id != takerId && t.maker.id != id
    ensures LifeFrom(l, TradeLogs(takerId, trades, logSeq, tradeSeq), id) == l
    decreases |trades|
  {
    if trades != [] {
      var first := TradeLog(takerId, trades[0], logSeq, tradeSeq);
      assert trades[0] in trades;
      LifeOfOneTrade(l, takerId, trades[0], logSeq, tradeSeq, id);
      LifeConcat(l, first, TradeLogs(takerId, trades[1..], logSeq + |first|, tradeSeq + 1), id);
      LifeOfBystander(l, takerId, trades[1..], logSeq + |first|, tradeSeq + 1, id);
    }
  }

  lemma {:induction false} TradePartners(grain: int, taker: BookOrder, makers: seq<BookOrder>)
    requires grain > 0 && Priced(taker, makers)
    ensures forall t :: t in Walk(grain, taker, makers).trades ==> t.maker.id in Ids(makers)
    ensures Ids(Walk(grain, taker, makers).makers) <= Ids(makers)
    decreases |makers|
  {
    if makers != [] && !Stops(grain, taker, makers[0]) {
      var size := TradeSize(grain, taker, makers[0]);
      TradePartners(grain, Pay(taker, size, makers[0].price), makers[1..]);
      IdsTail(makers);
    }
  }

  /** A maker's life after trading down to `left`. */
  function TradedDown(m: BookOrder, l: Life, left: int): Life {
    Life(if left == 0 then Finished else Standing, l.filled + m.size - left, l.value + (m.size - left) * m.price,
         if left == 0 then 0 else l.returned)
  }

  lemma {:induction false} Untouched(m: BookOrder, l: Life)
    requires m.size > 0 && l.phase.Standing?
    ensures TradedDown(m, l, m.size) == l
  {
  }

  /** What one walk does to a resting maker: it keeps standing with what is left of it, or it is finished exactly. */
  ghost predicate MakerLived(m: BookOrder, after: map<int, BookOrder>, l: Life, l': Life) {
    if m.id in after then after[m.id] == m.(size := after[m.id].size) && after[m.id].size > 0 && l' == TradedDown(m, l, after[m.id].size)
    else l' == TradedDown(m, l, 0)
  }

  lemma {:induction false} WalkUnfolds(grain: int, taker: BookOrder, makers: seq<BookOrder>, l: Life, logSeq: int, tradeSeq: int, id: int)
    returns (next: BookOrder, size: int, logSeq': int, l1: Life)
    requires Walking(grain, taker, makers) && DistinctIds(makers) && taker.id !in Ids(makers)
    requires makers != [] && !Stops(grain, taker, makers[0])
    ensures next.id == taker.id && next.id !in Ids(makers) && Walking(grain, next, makers[1..]) && DistinctIds(makers[1..]) && taker.id !in Ids(makers[1..])
    ensures size == TradeSize(grain, taker, makers[0]) && 0 < size <= makers[0].size
    ensures var m' := makers[0].(size := makers[0].size - size);
            var r, rest := Walk(grain, taker, makers), Walk(grain, next, makers[1..]);
            && r.makers == (if m'.size == 0 then [] else [m']) + rest.makers
            && l1 == LifeFrom(l, TradeLog(taker.id, Trade(m', size), logSeq, tradeSeq), id)
            && LifeFrom(l, TradeLogs(taker.id, r.trades, logSeq, tradeSeq), id)
               == LifeFrom(l1, TradeLogs(taker.id, rest.trades, logSeq', tradeSeq + 1), id)
  {
    WalkStep(grain, taker, makers);
    IdsTail(makers);
    size := TradeSize(grain, taker, makers[0]);
    next := Pay(taker, size, makers[0].price);
    var r, rest := Walk(grain, taker, makers), Walk(grain, next, makers[1..]);
    var first := TradeLog(taker.id, r.trades[0], logSeq, tradeSeq);
    logSeq' := logSeq + |first|;
    l1 := LifeFrom(l, first, id);
    assert r.trades[1..] == rest.trades;
    LifeConcat(l, first, TradeLogs(taker.id, rest.trades, logSeq', tradeSeq + 1), id);
  }

  lemma {:induction false} LifeOfBest(grain: int, taker: BookOrder, makers: seq<BookOrder>, l: Life, logSeq: int, tradeSeq: int)
    requires Walking(grain, taker, makers) && DistinctIds(makers) && taker.id !in Ids(makers)
    requires makers != [] && l.phase.Standing?
    ensures var r := Walk(grain, taker, makers);
            MakerLived(makers[0], OrderMap(r.makers), l,
                       LifeFrom(l, TradeLogs(taker.id, r.trades, logSeq, tradeSeq), makers[0].id))
  {
    var m := makers[0];
    assert m in makers;
    if Stops(grain, taker, m) {
      OrderMapAt(makers, 0);
      Untouched(m, l);
    } else {
      var next, size, logSeq', l1 := WalkUnfolds(grain, taker, makers, l, logSeq, tradeSeq, m.id);
      var rest := Walk(grain, next, makers[1..]);
      var m' := m.(size := m.size - size);
      LifeOfOneTrade(l, taker.id, Trade(m', size), logSeq, tradeSeq, m.id);
      BestLeavesTheRest(grain, next, makers);
      LifeOfBystander(l1, taker.id, rest.trades, logSeq', tradeSeq + 1, m.id);
      BestLived(m, size, rest.makers, l, l1);
    }
  }

  lemma {:induction false} BestLived(m: BookOrder, size: int, rest: seq<BookOrder>, l: Life, l': Life)
    requires 0 < size <= m.size && m.id !in OrderMap(rest)
    requires l' == Made(l, Trade(m.(size := m.size - size), size))
    ensures var m' := m.(size := m.size - size);
            MakerLived(m, OrderMap((if m'.size == 0 then [] else [m']) + rest), l, l')
  {
    var m' := m.(size := m.size - size);
    assert ([m'] + rest)[1..] == rest;
    assert [] + rest == rest;
    assert l' == TradedDown(m, l, m'.size);
  }

  lemma {:induction false} BestLeavesTheRest(grain: int, next: BookOrder, makers: seq<BookOrder>)
    requires grain > 0 && makers != [] && Priced(next, makers[1..])
    requires DistinctIds(makers) && next.id !in Ids(makers)
    ensures var rest := Walk(grain, next, makers[1..]);
            && makers[0].id !in OrderMap(rest.makers)
            && forall t :: t in rest.trades ==> t.maker.id != next.id && t.maker.id != makers[0].id
  {
    var rest := Walk(grain, next, makers[1..]);
    IdsTail(makers);
    TradePartners(grain, next, makers[1..]);
    OrderMapKeys(rest.makers);
    assert makers[0].id !in Ids(makers[1..]);
  }

  lemma {:induction false} LifeOfMaker(grain: int, taker: BookOrder, makers: seq<BookOrder>, i: nat, l: Life, logSeq: int, tradeSeq: int)
    requires Walking(grain, taker, makers) && DistinctIds(makers) && taker.id !in Ids(makers)
    requires i < |makers| && l.phase.Standing?
    ensures var r := Walk(grain, taker, makers);
            MakerLived(makers[i], OrderMap(r.makers), l,
                       LifeFrom(l, TradeLogs(taker.id, r.trades, logSeq, tradeSeq), makers[i].id))
    decreases |makers|
  {
    var m := makers[i];
    if i == 0 {
      LifeOfBest(grain, taker, makers, l, logSeq, tradeSeq);
    } else if Stops(grain, taker, makers[0]) {
      OrderMapAt(makers, i);
      assert m in makers;
      Untouched(m, l);
    } else {
      var next, size, logSeq', l1 := WalkUnfolds(grain, taker, makers, l, logSeq, tradeSeq, m.id);
      var rest := Walk(grain, next, makers[1..]);
      var m' := makers[0].(size := makers[0].size - size);
      assert m'.id != m.id && m in makers;
      LifeOfOneTrade(l, taker.id, Trade(m', size), logSeq, tradeSeq, m.id);
      LifeOfMaker(grain, next, makers[1..], i - 1, l, logSeq', tradeSeq + 1);
      CarryOver(m', m, rest.makers, l, LifeFrom(l, TradeLogs(taker.id, rest.trades, logSeq', tradeSeq + 1), m.id));
    }
  }

  lemma {:induction false} CarryOver(front: BookOrder, m: BookOrder, rest: seq<BookOrder>, l: Life, l': Life)
    requires front.id != m.id && MakerLived(m, OrderMap(rest), l, l')
    ensures MakerLived(m, OrderMap((if front.size == 0 then [] else [front]) + rest), l, l')
  {
    MapBehind(front, rest, m.id);
  }

  /** Another order in front of a queue changes nothing about one behind it. */
  lemma {:induction false} MapBehind(m: BookOrder, rest: seq<BookOrder>, id: int)
    requires m.id != id
    ensures var after := OrderMap((if m.size == 0 then [] else [m]) + rest);
            && (id in after <==> id in OrderMap(rest))
            && (id in OrderMap(rest) ==> after[id] == OrderMap(rest)[id])
  {
    assert ([m] + rest)[1..] == rest;
    assert [] + rest == rest;
  }

  // ------------------------------------------------------- numbering

  function Matches(logs: seq<Log>): (n: nat)
    ensures n <= |logs|
  {
    if logs == [] then 0 else (if logs[0].MatchLog? then 1 else 0) + Matches(logs[1..])
  }

  /** Sequences and trade ids continue without a gap from the given counters. */
  predicate NumberedFrom(logs: seq<Log>, logSeq: int, tradeSeq: int) {
    logs == [] ||
    (logs[0].sequence == logSeq + 1
     && (logs[0].MatchLog? ==> logs[0].tradeId == tradeSeq + 1)
     && NumberedFrom(logs[1..], logSeq + 1, if logs[0].MatchLog? then tradeSeq + 1 else tradeSeq))
  }

  lemma {:induction false} NumberedConcat(a: seq<Log>, b: seq<Log>, logSeq: int, tradeSeq: int)
    ensures Matches(a + b) == Matches(a) + Matches(b)
    ensures NumberedFrom(a, logSeq, tradeSeq) && NumberedFrom(b, logSeq + |a|, tradeSeq + Matches(a)) ==>
              NumberedFrom(a + b, logSeq, tradeSeq)
  {
    if a == [] {
      assert a + b == b;
    } else {
      assert (a + b)[1..] == a[1..] + b;
      NumberedConcat(a[1..], b, logSeq + 1, if a[0].MatchLog? then tradeSeq + 1 else tradeSeq);
    }
  }

  lemma {:induction false} OneTradeNumbered(takerId: int, t: Trade, logSeq: int, tradeSeq: int)
    ensures var logs := TradeLog(takerId, t, logSeq, tradeSeq);
            NumberedFrom(logs, logSeq, tradeSeq) && Matches(logs) == 1
  {
    var logs := TradeLog(takerId, t, logSeq, tradeSeq);
    if t.maker.size == 0 {
      assert logs[1..] == [logs[1]] && logs[1..][1..] == [];
    } else {
      assert logs[1..] == [];
    }
  }

  lemma {:induction false} TradesNumbered(takerId: int, trades: seq<Trade>, logSeq: int, tradeSeq: int)
    ensures NumberedFrom(TradeLogs(takerId, trades, logSeq, tradeSeq), logSeq, tradeSeq)
    ensures Matches(TradeLogs(takerId, trades, logSeq, tradeSeq)) == |trades|
    decreases |trades|
  {
    if trades != [] {
      var first := TradeLog(takerId, trades[0], logSeq, tradeSeq);
      OneTradeNumbered(takerId, trades[0], logSeq, tradeSeq);
      TradesNumbered(takerId, trades[1..], logSeq + |first|, tradeSeq + 1);
      NumberedConcat(first, TradeLogs(takerId, trades[1..], logSeq + |first|, tradeSeq + 1), logSeq, tradeSeq);
    }
  }

  /** Numbering, entry by entry. */
  lemma {:induction false} NumberedAt(logs: seq<Log>, logSeq: int, tradeSeq: int, i: nat)
    requires NumberedFrom(logs, logSeq, tradeSeq) && i < |logs|
    ensures logs[i].sequence == logSeq + 1 + i
    ensures logs[i].MatchLog? ==> logs[i].tradeId == tradeSeq + 1 + Matches(logs[..i])
    decreases i
  {
    if i > 0 {
      NumberedAt(logs[1..], logSeq + 1, if logs[0].MatchLog? then tradeSeq + 1 else tradeSeq, i - 1);
      assert logs[..i][1..] == logs[1..][..i - 1];
    }
  }
}
