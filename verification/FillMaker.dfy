/** From matching log to fill table. */
module FillMakers {
  import opened Types
  import opened Sums
  import opened Tables
  import M = Matching
  import opened LogGrammar
  import opened OrderLives
  import opened MarketTheorems
  import opened FairTrades
  import opened Accounts
  import opened Orders

  /** A trade makes two fills, taker's first; the taker's carries the logged side, which is the maker's. */
  function FillsOfLog(log: Log): seq<Fill> {
    match log
    case MatchLog(sequence, tradeId, taker, maker, side, price, size) =>
      [TradeFill(sequence, taker, false, tradeId, size, price, side, true),
       TradeFill(sequence, maker, false, tradeId, size, price, side.Opposite(), false)]
    case DoneLog(sequence, id, _, remainingSize, reason, _) => [DoneFill(sequence, id, false, remainingSize, reason)]
    case OpenLog(_, _, _, _, _) => []
  }

  function FillsOf(logs: seq<Log>): seq<Fill> {
    if logs == [] then [] else FillsOf(logs[..|logs| - 1]) + FillsOfLog(logs[|logs| - 1])
  }

  lemma {:induction false} FillsConcat(a: seq<Log>, b: seq<Log>)
    ensures FillsOf(a + b) == FillsOf(a) + FillsOf(b)
    decreases |b|
  {
    if b == [] {
      assert a + b == a;
    } else {
      var n := |b| - 1;
      assert (a + b)[..|a + b| - 1] == a + b[..n];
      FillsConcat(a, b[..n]);
      assert FillsOf(a) + (FillsOf(b[..n]) + FillsOfLog(b[n])) == FillsOf(a) + FillsOf(b[..n]) + FillsOfLog(b[n]);
    }
  }

  lemma {:induction false} FillsOfOne(log: Log)
    ensures FillsOf([log]) == FillsOfLog(log)
  {
    assert [log][..0] == [];
    assert FillsOf([log]) == FillsOf([log][..0]) + FillsOfLog([log][0]);
  }

  // ------------------------------------------------------- fills are fair

  /** A trade's fill moves positive size at a price not below zero, for a placed order of the side opposite to the one
      the fill is stamped with. */
  ghost predicate FairFill(f: Fill, placed: map<int, BookOrder>) {
    && f.orderId in placed
    && (f.TradeFill? ==> f.size > 0 && f.price >= 0 && placed[f.orderId].side == f.side.Opposite())
  }

  ghost predicate FairFills(fills: seq<Fill>, placed: map<int, BookOrder>) {
    forall i :: 0 <= i < |fills| ==> FairFill(fills[i], placed) && !fills[i].settled
  }

  lemma {:induction false} FillsAreFair(logs: seq<Log>, placed: map<int, BookOrder>)
    requires Fair(logs, placed)
    ensures FairFills(FillsOf(logs), placed)
    decreases |logs|
  {
    if logs != [] {
      var n := |logs| - 1;
      FillsAreFair(logs[..n], placed);
      assert FairEntry(logs[n], placed);
    }
  }

  // ------------------------------------------------------- fills carry the orders' lives

  function ValueFor(id: int): Fill -> int {
    (f: Fill) => if f.orderId == id then Value(f) else 0
  }

  function SizeFor(id: int): Fill -> int {
    (f: Fill) => if f.orderId == id then Size(f) else 0
  }

  lemma {:induction false} LogAmounts(log: Log, placed: map<int, BookOrder>, l: Life, id: int)
    requires FairEntry(log, placed)
    ensures Advance(l, log, id).value == l.value + SumSeq(FillsOfLog(log), ValueFor(id))
    ensures Advance(l, log, id).filled == l.filled + SumSeq(FillsOfLog(log), SizeFor(id))
  {
    var fills := FillsOfLog(log);
    match log {
      case OpenLog(_, _, _, _, _) =>
      case DoneLog(_, _, _, _, _, _) =>
        SumOne(fills[0], ValueFor(id));
        SumOne(fills[0], SizeFor(id));
      case MatchLog(_, _, _, _, _, _, _) =>
        SumTwo(fills[0], fills[1], ValueFor(id));
        SumTwo(fills[0], fills[1], SizeFor(id));
    }
  }

  /** What an order traded by its log is what its fills add up to. */
  lemma {:induction false} LifeIsFills(logs: seq<Log>, placed: map<int, BookOrder>, id: int)
    requires Fair(logs, placed)
    ensures LifeOf(logs, id).value == SumSeq(FillsOf(logs), ValueFor(id))
    ensures LifeOf(logs, id).filled == SumSeq(FillsOf(logs), SizeFor(id))
    decreases |logs|
  {
    if logs != [] {
      hide FillsOfLog, Advance, FairEntry;
      var n := |logs| - 1;
      assert logs == logs[..n] + [logs[n]];
      LifeIsFills(logs[..n], placed, id);
      LifeOfTail(NO_LIFE, logs[..n], logs[n], id);
      assert FairEntry(logs[n], placed);
      LogAmounts(logs[n], placed, LifeOf(logs[..n], id), id);
      SumSeqConcat(FillsOf(logs[..n]), FillsOfLog(logs[n]), ValueFor(id));
      SumSeqConcat(FillsOf(logs[..n]), FillsOfLog(logs[n]), SizeFor(id));
    }
  }

  // ------------------------------------------------------- fills cancel out

  /** The money an unsettled fill will move, for its order's side as the stamp tells it. */
  function Stamped(currency: Currency): Fill -> int {
    (f: Fill) => if f.TradeFill? && !f.settled then EffectOn(f.side.Opposite(), f, currency) else 0
  }

  /** The two fills of a trade cancel in each currency. */
  lemma {:induction false} TradeCancels(log: Log, currency: Currency)
    ensures SumSeq(FillsOfLog(log), Stamped(currency)) == 0
  {
    var fills := FillsOfLog(log);
    match log {
      case OpenLog(_, _, _, _, _) =>
      case DoneLog(_, _, _, _, _, _) =>
        SumOne(fills[0], Stamped(currency));
      case MatchLog(_, _, _, _, _, _, _) =>
        SumTwo(fills[0], fills[1], Stamped(currency));
    }
  }

  lemma {:induction false} FillsCancel(logs: seq<Log>, currency: Currency)
    ensures SumSeq(FillsOf(logs), Stamped(currency)) == 0
    decreases |logs|
  {
    if logs != [] {
      var n := |logs| - 1;
      FillsCancel(logs[..n], currency);
      TradeCancels(logs[n], currency);
      SumSeqConcat(FillsOf(logs[..n]), FillsOfLog(logs[n]), Stamped(currency));
    }
  }

  // ------------------------------------------------------- two fills a trade, every fill once

  /** The fill of a trade for its taker or its maker, as the log tells the trade. */
  ghost predicate FillOfTrade(f: Fill, m: Log, taker: bool)
    requires m.MatchLog?
  {
    && f.TradeFill? && f.tradeId == m.tradeId && f.messageSeq == m.sequence && f.size == m.size && f.price == m.price
    && f.taker == taker && f.orderId == (if taker then m.takerId else m.makerId)
  }

  function TradeCount(tradeId: int, taker: bool): Fill -> int {
    (f: Fill) => if f.TradeFill? && f.tradeId == tradeId && f.taker == taker then 1 else 0
  }

  lemma {:induction false} CountOfOther(logs: seq<Log>, tradeId: int, taker: bool)
    requires forall i :: 0 <= i < |logs| && logs[i].MatchLog? ==> logs[i].tradeId != tradeId
    ensures SumSeq(FillsOf(logs), TradeCount(tradeId, taker)) == 0
    decreases |logs|
  {
    if logs != [] {
      var n := |logs| - 1;
      CountOfOther(logs[..n], tradeId, taker);
      SumSeqConcat(FillsOf(logs[..n]), FillsOfLog(logs[n]), TradeCount(tradeId, taker));
      CountInLog(logs[n], tradeId, taker);
    }
  }

  lemma {:induction false} CountInLog(log: Log, tradeId: int, taker: bool)
    ensures SumSeq(FillsOfLog(log), TradeCount(tradeId, taker)) == (if log.MatchLog? && log.tradeId == tradeId then 1 else 0)
  {
    var fills := FillsOfLog(log);
    if log.MatchLog? {
      SumTwo(fills[0], fills[1], TradeCount(tradeId, taker));
    } else if log.DoneLog? {
      SumOne(fills[0], TradeCount(tradeId, taker));
    }
  }

  /** Over any run each trade has exactly one taker fill, of the taker order, and one maker fill, of the maker order, with
      the trade's size and price. */
  lemma {:induction false} TwoFillsATrade(p: Product, cmds: seq<Command>, i: nat, taker: bool)
    requires ScaleOk(p) && M.DistinctPlaces(cmds) && M.SanePlaces(cmds) && M.Run(p, cmds).Some?
    requires i < |M.Run(p, cmds).value.logs| && M.Run(p, cmds).value.logs[i].MatchLog?
    ensures var logs := M.Run(p, cmds).value.logs;
            && SumSeq(FillsOf(logs), TradeCount(logs[i].tradeId, taker)) == 1
            && exists f :: f in FillsOf(logs) && FillOfTrade(f, logs[i], taker)
  {
    hide M.Run;
    var logs := M.Run(p, cmds).value.logs;
    var m := logs[i];
    forall j | 0 <= j < |logs| && j != i && logs[j].MatchLog?
      ensures logs[j].tradeId != m.tradeId
    {
      GaplessLog(p, cmds, i);
      GaplessLog(p, cmds, j);
      MatchesGrow(logs, if i < j then i else j, if i < j then j else i);
    }
    var before, after := logs[..i], logs[i + 1..];
    assert logs == before + [m] + after;
    CountOfOther(before, m.tradeId, taker);
    CountOfOther(after, m.tradeId, taker);
    CountInLog(m, m.tradeId, taker);
    FillsConcat(before, [m]);
    FillsConcat(before + [m], after);
    FillsOfOne(m);
    SumSeqConcat(FillsOf(before), FillsOfLog(m), TradeCount(m.tradeId, taker));
    SumSeqConcat(FillsOf(before) + FillsOfLog(m), FillsOf(after), TradeCount(m.tradeId, taker));
    var f := FillsOfLog(m)[if taker then 0 else 1];
    assert f in FillsOfLog(m) && FillOfTrade(f, m, taker);
    assert f in FillsOf(logs);
  }

  /** Every Done makes one fill, with what it says. */
  lemma {:induction false} DoneHasItsFill(logs: seq<Log>, i: nat)
    requires i < |logs| && logs[i].DoneLog?
    ensures exists f :: f in FillsOf(logs) && f.DoneFill? && f.messageSeq == logs[i].sequence && f.orderId == logs[i].orderId
                        && f.remainingSize == logs[i].remainingSize && f.reason == logs[i].reason && !f.settled
  {
    var before, after := logs[..i], logs[i + 1..];
    assert logs == before + [logs[i]] + after;
    FillsConcat(before, [logs[i]]);
    FillsConcat(before + [logs[i]], after);
    FillsOfOne(logs[i]);
    var f := FillsOfLog(logs[i])[0];
    assert f in FillsOfLog(logs[i]) && f in FillsOf(logs);
  }

  /** Trade ids grow from match to match. */
  lemma {:induction false} MatchesGrow(logs: seq<Log>, i: nat, j: nat)
    requires i < j <= |logs| && logs[i].MatchLog?
    ensures Matches(logs[..i]) < Matches(logs[..j])
  {
    assert logs[..j] == logs[..i] + logs[i..j];
    NumberedConcat(logs[..i], logs[i..j], 0, 0);
    assert logs[i..j][0] == logs[i];
  }

  /** No two fills have the same order and sequence, so that the table's unique key never turns one away. */
  lemma {:induction false} FillKeysDistinct(logs: seq<Log>, placed: map<int, BookOrder>, i: nat, j: nat)
    requires Fair(logs, placed) && (forall k :: 0 <= k < |logs| ==> logs[k].sequence == k + 1)
    requires i < j < |FillsOf(logs)|
    ensures FillsOf(logs)[i].orderId != FillsOf(logs)[j].orderId || FillsOf(logs)[i].messageSeq != FillsOf(logs)[j].messageSeq
    decreases |logs|
  {
    var n := |logs| - 1;
    var before, last := FillsOf(logs[..n]), FillsOfLog(logs[n]);
    assert FairEntry(logs[n], placed);
    if j < |before| {
      FillKeysDistinct(logs[..n], placed, i, j);
    } else if i < |before| {
      var k := FillComesFromLog(logs[..n], i);
      assert FillsOf(logs)[j] == last[j - |before|];
    } else {
      assert FillsOf(logs)[i] == last[i - |before|] && FillsOf(logs)[j] == last[j - |before|];
    }
  }

  // ------------------------------------------------------- nothing follows an order's end

  ghost predicate EndsLast(fills: seq<Fill>) {
    forall i, j :: 0 <= i < j < |fills| && fills[i].DoneFill? ==> fills[j].orderId != fills[i].orderId
  }

  ghost predicate SilentAfterDone(logs: seq<Log>) {
    forall i, j :: 0 <= i < j < |logs| && logs[i].DoneLog? ==> !Mentions(logs[j], logs[i].orderId)
  }

  lemma {:induction false} FillComesFromLog(logs: seq<Log>, i: nat) returns (k: nat)
    requires i < |FillsOf(logs)|
    ensures k < |logs| && FillsOf(logs)[i] in FillsOfLog(logs[k])
    decreases |logs|
  {
    var n := |logs| - 1;
    var before := FillsOf(logs[..n]);
    if i < |before| {
      k := FillComesFromLog(logs[..n], i);
    } else {
      k := n;
      assert FillsOf(logs)[i] == FillsOfLog(logs[n])[i - |before|];
    }
  }

  lemma {:induction false} EndsAreLast(logs: seq<Log>)
    requires SilentAfterDone(logs)
    ensures EndsLast(FillsOf(logs))
    decreases |logs|
  {
    if logs != [] {
      var n := |logs| - 1;
      assert forall i :: 0 <= i < n ==> logs[..n][i] == logs[i];
      EndsAreLast(logs[..n]);
      var before, last := FillsOf(logs[..n]), FillsOfLog(logs[n]);
      var all: seq<Fill> := before + last;
      forall i, j | 0 <= i < j < |all| && all[i].DoneFill?
        ensures all[j].orderId != all[i].orderId
      {
        if i < |before| && j >= |before| {
          var k := FillComesFromLog(logs[..n], i);
          assert all[j] == last[j - |before|];
        }
      }
    }
  }

  /** One entry for the observer. */
  function AfterLog(orders: map<int, Order>, log: Log): map<int, Order> {
    if log.OpenLog? && log.orderId in orders && orders[log.orderId].status.StatusNew? then
      orders[log.orderId := orders[log.orderId].(status := StatusOpen)]
    else orders
  }

  const FLUSH := 1000

  /** The flusher's buffer and the fills it stores when it receives one with `waiting` more behind it. */
  datatype Flushed = Flushed(buffer: seq<Fill>, stored: seq<Fill>)

  function Flush(buffer: seq<Fill>, fill: Fill, waiting: nat): Flushed {
    var fills := buffer + [fill];
    if waiting > 0 && |fills| < FLUSH then Flushed(fills, []) else Flushed([], fills)
  }

  /** The flusher stores everything it has once nothing waits or a thousand are buffered, and not before. */
  lemma {:induction false} FlushesInTime(buffer: seq<Fill>, fill: Fill, waiting: nat)
    ensures var r := Flush(buffer, fill, waiting);
            && r.stored + r.buffer == buffer + [fill]
            && (r.buffer == [] <==> waiting == 0 || |buffer| >= 999) && (r.stored == [] <==> r.buffer != [])
  {
  }

  class FillMaker {
    var fillCh: seq<Fill>
    var buffer: seq<Fill>
    var stored: seq<Fill>
    var orders: map<int, Order>

    constructor (orders: map<int, Order>)
      ensures fillCh == buffer == stored == [] && this.orders == orders
    {
      fillCh, buffer, stored, this.orders := [], [], [], orders;
    }

    method OnMatchLog(log: Log)
      requires log.MatchLog?
      modifies this`fillCh
      ensures fillCh == old(fillCh) + FillsOfLog(log)
    {
      fillCh := fillCh + [TradeFill(log.sequence, log.takerId, false, log.tradeId, log.size, log.price, log.side, true)];
      fillCh := fillCh + [TradeFill(log.sequence, log.makerId, false, log.tradeId, log.size, log.price, log.side.Opposite(), false)];
    }

    method OnOpenLog(log: Log)
      requires log.OpenLog?
      modifies this`orders
      ensures orders == AfterLog(old(orders), log)
    {
      if log.orderId in orders && orders[log.orderId].status == StatusNew {
        orders := orders[log.orderId := orders[log.orderId].(status := StatusOpen)];
      }
    }

    method OnDoneLog(log: Log)
      requires log.DoneLog?
      modifies this`fillCh
      ensures fillCh == old(fillCh) + FillsOfLog(log)
    {
      fillCh := fillCh + [DoneFill(log.sequence, log.orderId, false, log.remainingSize, log.reason)];
    }

    /** The flusher: nothing is lost or reordered on the way to the table. */
    method FlushNext()
      requires fillCh != []
      modifies this`fillCh, this`buffer, this`stored
      ensures stored + buffer + fillCh == old(stored + buffer + fillCh)
      ensures var r := Flush(old(buffer), old(fillCh)[0], |old(fillCh)| - 1);
              buffer == r.buffer && stored == old(stored) + r.stored && fillCh == old(fillCh)[1..]
    {
      var fill := fillCh[0];
      assert fillCh == [fill] + fillCh[1..];
      fillCh := fillCh[1..];
      buffer := buffer + [fill];
      if |fillCh| > 0 && |buffer| < FLUSH {
        return;
      }
      stored := stored + buffer;
      buffer := [];
    }
  }
}
