/** A limit sell at price zero and a market buy, both placed by the order service, stop the matching engine for good. */
module ZeroPrice {
  import opened Types
  import opened PriceTime
  import opened DedupWindow
  import opened BookInvariant
  import M = Matching
  import opened Accounts
  import opened Orders
  import opened Settlement
  import opened SettlementRuns
  import opened Overspending

  function Paid(p: Product): Books {
    Books(map[SELLER := Account(SELLER, 1, 0), BUYER := Account(BUYER, Pow10(p.baseScale), 0)], [])
  }

  const GIFT := Order(1, 7, Sell, Limit, 1, 0, 0, StatusNew, 0, 0)

  /** The smallest market buy: one quote tick. */
  function Tick(p: Product): Order {
    Order(2, 8, Buy, Market, 0, Pow10(p.baseScale), 0, StatusNew, 0, 0)
  }

  lemma {:induction false} GiftIsPlaced(p: Product, b: Books)
    requires SELLER in b.accounts && b.accounts[SELLER].available >= 1
    ensures var sell := Request(7, RequestLimit, Sell, 1.0, 0.0, 0.0);
            HoldBalance(b, SELLER, 1).Held? && PlaceOrder(b, p, LIMITS, sell, 1) == Placed(GIFT, HoldBalance(b, SELLER, 1).books)
  {
    RoundWhole(1);
    RoundWhole(0);
  }

  lemma {:induction false} TickIsPlaced(p: Product, b: Books)
    requires BUYER in b.accounts && b.accounts[BUYER].available >= Pow10(p.baseScale)
    ensures var buy := Request(8, RequestMarket, Buy, 0.0, 0.0, 1.0);
            var held := HoldBalance(b, BUYER, Pow10(p.baseScale));
            held.Held? && PlaceOrder(b, p, LIMITS, buy, 2) == Placed(Tick(p), held.books)
  {
    RoundWhole(1);
  }

  /** The next order of the topic is one the engine cannot process. */
  ghost predicate Stuck(w: World) {
    w.applied < |w.topic| && !M.CanExecute(w.market.book, w.topic[w.applied])
  }

  lemma {:induction false} StaysStuck(p: Product, limits: Limits, w: World, w': World)
    requires Stuck(w) && Steps(p, limits, w, w')
    ensures Stuck(w') && w'.applied == w.applied && w'.market == w.market
  {
    hide M.CanExecute, PlaceOrder, ExecuteFill, ExecuteBill, FillMakers.FillsOfLog, FillMakers.AfterLog, FillMakers.Flush;
  }

  /** Nothing ever gets matched again, whatever is placed, cancelled or settled. */
  lemma {:induction false} StuckForGood(p: Product, limits: Limits, run: seq<World>, i: nat, j: nat)
    requires Connected(p, limits, run) && i <= j < |run| && Stuck(run[i])
    ensures Stuck(run[j]) && run[j].applied == run[i].applied && run[j].market == run[i].market
    decreases j
  {
    hide Steps, Stuck;
    if i < j {
      StuckForGood(p, limits, run, i, j - 1);
      StaysStuck(p, limits, run[j - 1], run[j]);
    }
  }

  lemma {:induction false} GiftRests(p: Product)
    requires ScaleOk(p)
    ensures M.CanApply(M.NewBook(p), ToBook(GIFT))
    ensures var b := M.ApplyOrder(M.NewBook(p), ToBook(GIFT)).book;
            b.asks == [ToBook(GIFT)] && !M.CanApply(b, ToBook(Tick(p)))
  {
    SellRests(M.NewBook(p), ToBook(GIFT));
    var b := M.ApplyOrder(M.NewBook(p), ToBook(GIFT)).book;
    assert Insert(Sell, [], ToBook(GIFT)) == [ToBook(GIFT)];
    assert b.window.taken == {1} && 2 % M.ORDER_ID_WINDOW_CAP == 2;
    assert ToBook(GIFT) in b.asks;
  }

  /** Such a run, from deposits on. */
  lemma {:induction false} EngineStops(p: Product) returns (run: seq<World>)
    requires ScaleOk(p)
    ensures Deposits(Paid(p)) && run != [] && Execution(p, LIMITS, Paid(p), run)
    ensures Stuck(run[|run| - 1])
  {
    hide PlaceOrder, HoldBalance, M.ApplyOrder, M.CanApply;
    var w0 := Start(p, Paid(p));
    var sell, buy := Request(7, RequestLimit, Sell, 1.0, 0.0, 0.0), Request(8, RequestMarket, Buy, 0.0, 0.0, 1.0);
    GiftIsPlaced(p, w0.ledger.books);
    var w1 := PlaceStep(w0, p, LIMITS, sell, 1, true);
    HeldLeaves(w0.ledger.books, SELLER, 1, BUYER);
    TickIsPlaced(p, w1.ledger.books);
    var w2 := PlaceStep(w1, p, LIMITS, buy, 2, true);
    GiftRests(p);
    assert w2.topic == [Place(ToBook(GIFT)), Place(ToBook(Tick(p)))];
    var w3 := MatchStep(w2);
    run := [w0, w1, w2, w3];
    assert Steps(p, LIMITS, w0, w1) && Steps(p, LIMITS, w1, w2) && Steps(p, LIMITS, w2, w3);
  }
}
