/** Why orders are done: cancelled exactly when something was left of them. */
module Reasons {
  import opened Types
  import opened PriceTime
  import opened DedupWindow
  import opened Matching
  import opened MatchLoop
  import opened BookInvariant
  import opened LogGrammar
  import opened OrderLives
  import opened MarketTheorems
  import opened FairTrades

  /** The reason of an order's last Done. */
  function ReasonOf(logs: seq<Log>, id: int): Option<DoneReason> {
    if logs == [] then None
    else
      var last := logs[|logs| - 1];
      if last.DoneLog? && last.orderId == id then Some(last.reason) else ReasonOf(logs[..|logs| - 1], id)
  }

  /** What a market buy has of its funds, any other order of its size, after what it traded. */
  function Left(o: BookOrder, l: Life): int {
    if o.MarketBuy() then o.funds - l.value else o.size - l.filled
  }

  lemma {:induction false} ReasonConcat(a: seq<Log>, b: seq<Log>, id: int)
    ensures ReasonOf(a + b, id) == if ReasonOf(b, id).Some? then ReasonOf(b, id) else ReasonOf(a, id)
    decreases |b|
  {
    if b == [] {
      assert a + b == a;
    } else {
      assert (a + b)[..|a + b| - 1] == a + b[..|b| - 1];
      ReasonConcat(a, b[..|b| - 1], id);
    }
  }

  lemma {:induction false} ReasonIsMention(logs: seq<Log>, id: int)
    requires ReasonOf(logs, id).Some?
    ensures exists j :: 0 <= j < |logs| && Mentions(logs[j], id)
  {
    var n := |logs| - 1;
    if logs[n].DoneLog? && logs[n].orderId == id {
      assert Mentions(logs[n], id);
    } else {
      ReasonIsMention(logs[..n], id);
      var j :| 0 <= j < n && Mentions(logs[..n][j], id);
      assert Mentions(logs[j], id);
    }
  }

  /** A finished limit order: its one Done says what remained, and why. */
  lemma {:induction false} FinishedLimit(logs: seq<Log>, placed: map<int, BookOrder>, id: int)
    requires Fair(logs, placed) && id in placed && placed[id].kind.Limit? && LifeOf(logs, id).phase.Finished?
    ensures ReasonOf(logs, id).Some? && (ReasonOf(logs, id).value.Cancelled? <==> LifeOf(logs, id).returned > 0)
    decreases |logs|
  {
    var n := |logs| - 1;
    assert logs == logs[..n] + [logs[n]];
    LifeOfTail(NO_LIFE, logs[..n], logs[n], id);
    assert FairEntry(logs[n], placed);
    if !(logs[n].DoneLog? && logs[n].orderId == id) {
      FinishedLimit(logs[..n], placed, id);
    }
  }

  /** The reason a market order is done with. */
  lemma {:induction false} MarketTail(b: Book, o: BookOrder)
    requires ValidBook(b) && o.Sane() && CanApply(b, o) && Accepts(b.window, o.id) && o.id !in RestingIds(b) && o.kind.Market?
    ensures var a := ApplyOrder(b, o);
            && LifeOf(a.logs, o.id).phase.Finished? && ReasonOf(a.logs, o.id).Some?
            && (ReasonOf(a.logs, o.id).value.Cancelled? <==> Left(o, LifeOf(a.logs, o.id)) > 0)
  {
    hide Walk, TradeLogs;
    var trades := TakerLife(b, o);
    TakerAmounts(b, o, trades);
    RemainderFacts(b, o);
    var f := Finish(Traded(b, o), Remainder(b, o));
    assert ApplyOrder(b, o).logs == TradeLogs(o.id, trades, b.logSeq, b.tradeSeq) + f.logs;
    ReasonConcat(TradeLogs(o.id, trades, b.logSeq, b.tradeSeq), f.logs, o.id);
    assert f.logs == [f.logs[0]] && ReasonOf(f.logs, o.id) == Some(f.logs[0].reason);
  }

  ghost predicate MarketReason(logs: seq<Log>, placed: map<int, BookOrder>, id: int) {
    id in placed && placed[id].kind.Market? && LifeOf(logs, id).phase.Finished? ==>
      ReasonOf(logs, id).Some? && (ReasonOf(logs, id).value.Cancelled? <==> Left(placed[id], LifeOf(logs, id)) > 0)
  }

  /** Entries that leave an order's finished life as it is do not mention it. */
  lemma {:induction false} SilentReason(logs: seq<Log>, more: seq<Log>, id: int)
    requires LifeOf(logs, id).phase.Finished? && LifeOf(logs + more, id) == LifeOf(logs, id)
    ensures ReasonOf(logs + more, id) == ReasonOf(logs, id)
  {
    ReasonConcat(logs, more, id);
    LifeConcat(NO_LIFE, logs, more, id);
    if ReasonOf(more, id).Some? {
      ReasonIsMention(more, id);
      var j :| 0 <= j < |more| && Mentions(more[j], id);
      FinishedIsSilent(LifeOf(logs, id), more, id, j);
    }
  }

  /** A market order never rests, so later commands tell nothing about it. */
  lemma {:induction false} MarketUntouched(b: Book, logs: seq<Log>, placed: map<int, BookOrder>, c: Command, id: int)
    requires Sound(b, logs, placed) && CanExecute(b, c) && (c.Place? ==> c.order.Sane() && c.order.id !in placed && c.order.id != id)
    requires id in placed && placed[id].kind.Market?
    ensures LifeOf(logs + Execute(b, c).logs, id) == LifeOf(logs, id)
  {
    assert Explained(LifeOf(logs, id), id, RestingOrders(b), placed, PricesBounded(b.product, placed));
    var r := Execute(b, c);
    if r.logs == [] {
      assert logs + r.logs == logs;
    } else if c.Cancel? {
      CancelShape(b, c.order, IndexOf(Depth(b, c.order.side), c.order.id));
      assert r.logs == [r.logs[0]];
      LifeOfTail(NO_LIFE, logs, r.logs[0], id);
    } else {
      RestingArePlaced(b, logs, placed);
      OthersSee(b, logs, c.order, id);
      RestingLookup(b, c.order.side, id);
      OrderMapKeys(Depth(b, c.order.side.Opposite()));
    }
  }

  lemma {:induction false} MarketPlaced(b: Book, logs: seq<Log>, placed: map<int, BookOrder>, o: BookOrder)
    requires Sound(b, logs, placed) && CanApply(b, o) && o.Sane() && o.id !in placed && o.kind.Market?
    ensures MarketReason(logs + ApplyOrder(b, o).logs, placed[o.id := o], o.id)
  {
    hide ApplyOrder, CanApply;
    RestingArePlaced(b, logs, placed);
    RestingOrdersKeys(b);
    assert Explained(LifeOf(logs, o.id), o.id, RestingOrders(b), placed, PricesBounded(b.product, placed));
    if Accepts(b.window, o.id) {
      MarketTail(b, o);
      LifeConcat(NO_LIFE, logs, ApplyOrder(b, o).logs, o.id);
      ReasonConcat(logs, ApplyOrder(b, o).logs, o.id);
    } else {
      UnseenStays(b, logs, placed, Place(o), o.id);
    }
  }

  lemma {:induction false} MarketReasons(p: Product, cmds: seq<Command>, id: int)
    requires ScaleOk(p) && DistinctPlaces(cmds) && SanePlaces(cmds) && Run(p, cmds).Some?
    ensures MarketReason(Run(p, cmds).value.logs, PlacedOrders(cmds), id)
    decreases |cmds|
  {
    if cmds != [] {
      hide ApplyOrder, CancelOrder, CanApply, ReasonOf, Left;
      var n := |cmds| - 1;
      var front, c := cmds[..n], cmds[n];
      MarketReasons(p, front, id);
      RunSound(p, front);
      var a := Run(p, front).value;
      assert forall i :: 0 <= i < n ==> front[i] == cmds[i];
      if c.Place? {
        FreshIsNotPlaced(front, c.order.id);
      }
      if c.Place? && c.order.id == id {
        if c.order.kind.Market? {
          MarketPlaced(a.book, a.logs, PlacedOrders(front), c.order);
        }
      } else if id in PlacedOrders(front) && PlacedOrders(front)[id].kind.Market? {
        MarketUntouched(a.book, a.logs, PlacedOrders(front), c, id);
        if LifeOf(a.logs, id).phase.Finished? {
          SilentReason(a.logs, Execute(a.book, c).logs, id);
        }
      }
    }
  }

  /** Over any run a finished order is done Cancelled exactly when something is left of it, of a market buy's funds or of
      any other order's size, and Filled otherwise. */
  lemma {:induction false} CancelledExactly(p: Product, cmds: seq<Command>, id: int)
    requires ScaleOk(p) && DistinctPlaces(cmds) && SanePlaces(cmds) && Run(p, cmds).Some?
    requires LifeOf(Run(p, cmds).value.logs, id).phase.Finished?
    ensures var logs := Run(p, cmds).value.logs;
            && id in PlacedOrders(cmds) && ReasonOf(logs, id).Some?
            && (ReasonOf(logs, id).value.Cancelled? <==> Left(PlacedOrders(cmds)[id], LifeOf(logs, id)) > 0)
  {
    hide AcceptedIn, ReasonOf;
    GrammarHolds(p, cmds, id);
    if PlacedOrders(cmds)[id].kind.Limit? {
      RunFair(p, cmds);
      FinishedLimit(Run(p, cmds).value.logs, PlacedOrders(cmds), id);
    } else {
      MarketReasons(p, cmds, id);
    }
  }
}
