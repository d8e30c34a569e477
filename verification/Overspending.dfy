/** Limit prices at which holds go wrong, exactly: a run of placed orders that ends with a hold of minus one, and the cap
    on limit prices that rules every such run out. */
module Overspending {
  import opened Types
  import opened Sums
  import opened PriceTime
  import opened DedupWindow
  import opened Decimals
  import opened LogGrammar
  import opened BookInvariant
  import M = Matching
  import L = OrderLives
  import opened Accounts
  import opened Orders
  import opened Settlement
  import opened SettlementTheorems
  import opened SettlementRuns

  // ------------------------------------------------------- two asks and a market buy

  /** The lowest price that is not below the bound. */
  function Price(p: Product): (q: int)
    requires ScaleOk(p)
    ensures q == 2 * Grain(p) && q >= 20
  {
    2 * Grain(p)
  }

  /** Funds the order service can make of a request: a whole number of quote ticks. */
  function Funds(p: Product): (f: int)
    requires ScaleOk(p)
    ensures f >= Price(p)
  {
    Whole(Price(p), Pow10(p.baseScale));
    Price(p) * Pow10(p.baseScale)
  }

  lemma {:induction false} Whole(q: int, n: int)
    requires q >= 0 && n >= 1
    ensures q * n >= q
  {
  }

  /** The size of the cheap ask: buying it leaves the buyer one unit less than the dear one costs. */
  function Cheap(p: Product): (k: int)
    requires ScaleOk(p)
    ensures k >= 1 && Funds(p) - k == Price(p) - 1
  {
    Funds(p) - Price(p) + 1
  }

  const SELLER := Owner(7, Base)
  const BUYER := Owner(8, Quote)
  const LIMITS := Limits(1.0, 1.0)

  function Deposited(p: Product): Books
    requires ScaleOk(p)
  {
    Books(map[SELLER := Account(SELLER, Cheap(p) + 1, 0), BUYER := Account(BUYER, Funds(p), 0)], [])
  }

  function CheapAsk(p: Product): Order
    requires ScaleOk(p)
  {
    Order(1, 7, Sell, Limit, Cheap(p), Cheap(p) * 1, 1, StatusNew, 0, 0)
  }

  function DearAsk(p: Product): Order
    requires ScaleOk(p)
  {
    Order(2, 7, Sell, Limit, 1, 1 * Price(p), Price(p), StatusNew, 0, 0)
  }

  function Purchase(p: Product): Order
    requires ScaleOk(p)
  {
    Order(3, 8, Buy, Market, 0, Funds(p), 0, StatusNew, 0, 0)
  }

  function Topic(p: Product): seq<Command>
    requires ScaleOk(p)
  {
    [Place(ToBook(CheapAsk(p))), Place(ToBook(DearAsk(p))), Place(ToBook(Purchase(p)))]
  }

  lemma {:induction false} RoundWhole(n: int)
    ensures Round(n as real) == n
  {
  }

  lemma {:induction false} CheapIsPlaced(p: Product, b: Books)
    requires ScaleOk(p) && SELLER in b.accounts && b.accounts[SELLER].available >= Cheap(p)
    ensures var r := Request(7, RequestLimit, Sell, Cheap(p) as real, 1.0, 0.0);
            PlaceOrder(b, p, LIMITS, r, 1) == Placed(CheapAsk(p), HoldBalance(b, SELLER, Cheap(p)).books)
            && HoldBalance(b, SELLER, Cheap(p)).Held?
  {
    RoundWhole(Cheap(p));
    RoundWhole(1);
  }

  lemma {:induction false} DearIsPlaced(p: Product, b: Books)
    requires ScaleOk(p) && SELLER in b.accounts && b.accounts[SELLER].available >= 1
    ensures var r := Request(7, RequestLimit, Sell, 1.0, Price(p) as real, 0.0);
            PlaceOrder(b, p, LIMITS, r, 2) == Placed(DearAsk(p), HoldBalance(b, SELLER, 1).books)
            && HoldBalance(b, SELLER, 1).Held?
  {
    RoundWhole(Price(p));
    RoundWhole(1);
  }

  lemma {:induction false} PurchaseIsPlaced(p: Product, b: Books)
    requires ScaleOk(p) && BUYER in b.accounts && b.accounts[BUYER].available >= Funds(p)
    ensures var r := Request(8, RequestMarket, Buy, 0.0, 0.0, Price(p) as real);
            PlaceOrder(b, p, LIMITS, r, 3) == Placed(Purchase(p), HoldBalance(b, BUYER, Funds(p)).books)
            && HoldBalance(b, BUYER, Funds(p)).Held?
  {
    RoundWhole(Price(p));
  }

  /** All three are placed and submitted. */
  lemma {:induction false} PlacedRun(p: Product) returns (run: seq<World>)
    requires ScaleOk(p)
    ensures |run| == 4 && Execution(p, LIMITS, Deposited(p), run)
    ensures var w := run[3];
            && w.topic == Topic(p) && w.applied == 0 && w.market == M.Applied(M.NewBook(p), [])
            && w.ledger.orders == map[1 := CheapAsk(p), 2 := DearAsk(p), 3 := Purchase(p)]
  {
    hide PlaceOrder, HoldBalance, CheapAsk, DearAsk, Purchase, ToBook;
    var w0 := Start(p, Deposited(p));
    var r1 := Request(7, RequestLimit, Sell, Cheap(p) as real, 1.0, 0.0);
    var r2 := Request(7, RequestLimit, Sell, 1.0, Price(p) as real, 0.0);
    var r3 := Request(8, RequestMarket, Buy, 0.0, 0.0, Price(p) as real);
    CheapIsPlaced(p, w0.ledger.books);
    var w1 := PlaceStep(w0, p, LIMITS, r1, 1, true);
    HeldLeaves(w0.ledger.books, SELLER, Cheap(p), BUYER);
    DearIsPlaced(p, w1.ledger.books);
    var w2 := PlaceStep(w1, p, LIMITS, r2, 2, true);
    HeldLeaves(w1.ledger.books, SELLER, 1, BUYER);
    PurchaseIsPlaced(p, w2.ledger.books);
    var w3 := PlaceStep(w2, p, LIMITS, r3, 3, true);
    run := [w0, w1, w2, w3];
    assert Steps(p, LIMITS, w0, w1) && Steps(p, LIMITS, w1, w2) && Steps(p, LIMITS, w2, w3);
  }

  lemma {:induction false} HeldLeaves(b: Books, owner: Owner, size: int, other: Owner)
    requires HoldBalance(b, owner, size).Held? && other in b.accounts && other != owner
    ensures var b' := HoldBalance(b, owner, size).books;
            && owner in b'.accounts && b'.accounts[owner].available == b.accounts[owner].available - size
            && other in b'.accounts && b'.accounts[other] == b.accounts[other]
  {
  }

  // ------------------------------------------------------- matching them

  /** A limit sell on a book without bids rests. */
  lemma {:induction false} SellRests(b: M.Book, o: BookOrder)
    requires ScaleOk(b.product) && b.window.cap > 0 && Accepts(b.window, o.id)
    requires b.bids == [] && o.kind.Limit? && o.side.Sell? && o.size > 0
    ensures M.CanApply(b, o)
    ensures M.ApplyOrder(b, o) ==
            M.Applied(b.(asks := Insert(Sell, b.asks, o), logSeq := b.logSeq + 1, window := Put(b.window, o.id)),
                      [OpenLog(b.logSeq + 1, o.id, o.size, o.price, Sell)])
  {
    assert M.Walk(Grain(b.product), o, []) == M.Walked(o, [], []);
    assert M.TradeLogs(o.id, [], b.logSeq, b.tradeSeq) == [];
  }

  function Asks(p: Product): seq<BookOrder>
    requires ScaleOk(p)
  {
    [ToBook(CheapAsk(p)), ToBook(DearAsk(p))]
  }

  function Resting(p: Product): M.Book
    requires ScaleOk(p)
  {
    M.NewBook(p).(asks := Asks(p), logSeq := 2, window := Put(Put(NewWindow(0, M.ORDER_ID_WINDOW_CAP), 1), 2))
  }

  lemma {:induction false} AsksRest(p: Product)
    requires ScaleOk(p)
    ensures M.Run(p, Topic(p)[..2]).Some? && M.Run(p, Topic(p)[..2]).value.book == Resting(p)
    ensures M.Run(p, Topic(p)[..1]).Some?
    ensures forall id :: id != 1 && id != 2 ==> LifeOf(M.Run(p, Topic(p)[..2]).value.logs, id) == NO_LIFE
  {
    var a, b := ToBook(CheapAsk(p)), ToBook(DearAsk(p));
    var none: seq<Command> := [];
    assert Topic(p)[..1] == [Place(a)] && Topic(p)[..2] == [Place(a), Place(b)];
    assert [Place(a), Place(b)][..1] == [Place(a)] && [Place(a)][..0] == none;
    SellRests(M.NewBook(p), a);
    assert Insert(Sell, [], a) == [a];
    var first := M.ApplyOrder(M.NewBook(p), a);
    assert Put(NewWindow(0, M.ORDER_ID_WINDOW_CAP), 1).taken == {1} && 2 % M.ORDER_ID_WINDOW_CAP == 2;
    SellRests(first.book, b);
    InsertBehind(a, b);
    assert M.Run(p, none) == Some(M.Applied(M.NewBook(p), []));
    assert M.Run(p, [Place(a)]) == Some(M.Applied(first.book, [] + first.logs));
    TwoOpens(OpenLog(1, 1, a.size, a.price, Sell), OpenLog(2, 2, b.size, b.price, Sell));
  }

  lemma {:induction false} InsertBehind(a: BookOrder, b: BookOrder)
    requires a.price < b.price
    ensures Insert(Sell, [a], b) == [a, b]
  {
    assert [a][1..] == [] && Insert(Sell, [], b) == [b];
  }

  lemma {:induction false} TwoOpens(x: Log, y: Log)
    requires x.OpenLog? && y.OpenLog?
    ensures forall id :: id != x.orderId && id != y.orderId ==> LifeOf([] + [x] + [y], id) == NO_LIFE
  {
    forall id | id != x.orderId && id != y.orderId
      ensures LifeOf([] + [x] + [y], id) == NO_LIFE
    {
      L.LifeOfTail(NO_LIFE, [], x, id);
      L.LifeOfTail(NO_LIFE, [] + [x], y, id);
    }
  }

  /** The walk of the purchase: the cheap ask, then one unit of the dear one for one more than is left. */
  lemma {:induction false} PurchaseWalks(p: Product)
    requires ScaleOk(p)
    ensures var taker := M.Aggressor(p, ToBook(Purchase(p)));
            M.Priced(taker, Asks(p)) && M.Walk(Grain(p), taker, Asks(p)).taker == taker.(funds := -1)
  {
    hide Grain, MarketBuyPrice;
    var g, q, taker := Grain(p), Price(p), M.Aggressor(p, ToBook(Purchase(p)));
    var a, b := ToBook(CheapAsk(p)), ToBook(DearAsk(p));
    var asks := Asks(p);
    L.BoundBelowMarketPrice(p);
    BelowBoundIsFloor(taker.funds, 1, g);
    assert M.TradeSize(g, taker, a) == Cheap(p);
    var next := M.Pay(taker, Cheap(p), 1);
    assert next == taker.(funds := q - 1);
    AtBoundOverspends(q, g);
    assert M.TradeSize(g, next, b) == 1;
    assert M.Pay(next, 1, q) == taker.(funds := -1);
    assert asks[1..] == [b] && [b][1..] == [];
    OneLeft(g, next, b);
  }

  lemma {:induction false} OneLeft(grain: int, taker: BookOrder, b: BookOrder)
    requires grain > 0 && M.Priced(taker, [b]) && !M.Stops(grain, taker, b)
    requires taker.MarketBuy() ==> b.price > 0
    ensures M.Walk(grain, taker, [b]).taker == M.Pay(taker, M.TradeSize(grain, taker, b), b.price)
  {
    var none: seq<BookOrder> := [];
    assert [b][1..] == none;
    var next := M.Pay(taker, M.TradeSize(grain, taker, b), b.price);
    assert M.Walk(grain, next, none) == M.Walked(next, none, []);
  }

  lemma {:induction false} PurchaseAccepted(p: Product)
    requires ScaleOk(p)
    ensures var b, o := Resting(p), ToBook(Purchase(p));
            && b.product == p && b.window.cap > 0 && Accepts(b.window, 3) && 3 !in RestingIds(b)
            && o.Sane() && o.id == 3 && o.MarketBuy() && M.CanApply(b, o) && Remainder(b, o).funds == -1
  {
    hide M.Walk;
    PurchaseWalks(p);
    assert Resting(p).window.taken == {1, 2} && 3 % M.ORDER_ID_WINDOW_CAP == 3;
  }

  /** What the log says of a market buy that traded and is left with one unit of debt. */
  lemma {:induction false} DebtInLog(b: M.Book, logs: seq<Log>, o: BookOrder)
    requires ValidBook(b) && o.Sane() && M.CanApply(b, o) && Accepts(b.window, o.id) && o.id !in RestingIds(b)
    requires o.MarketBuy() && Remainder(b, o).funds == -1 && LifeOf(logs, o.id) == NO_LIFE
    ensures var l := LifeOf(logs + M.ApplyOrder(b, o).logs, o.id); l.phase.Finished? && l.value == o.funds + 1
  {
    hide M.Walk, M.ApplyOrder, ValidBook, M.CanApply, RestingIds;
    var trades := L.TakerLife(b, o);
    L.TakerAmounts(b, o, trades);
    LifeConcat(NO_LIFE, logs, M.ApplyOrder(b, o).logs, o.id);
  }

  /** After matching, the purchase is finished with one unit more spent than it had. */
  lemma {:induction false} PurchaseOverspends(p: Product)
    requires ScaleOk(p)
    ensures M.Run(p, Topic(p)[..1]).Some? && M.Run(p, Topic(p)[..2]).Some? && M.Run(p, Topic(p)).Some?
    ensures var l := LifeOf(M.Run(p, Topic(p)).value.logs, 3); l.phase.Finished? && l.value == Funds(p) + 1
  {
    hide M.ApplyOrder, ValidBook, Resting, M.CanApply, L.LogExplainsBook, RestingIds, Purchase;
    var o, topic := ToBook(Purchase(p)), Topic(p);
    AsksRest(p);
    assert topic[..3] == topic && topic[..2] == topic[..|topic| - 1];
    var before := M.Run(p, topic[..2]).value;
    AsksAreSane(p);
    L.RunSound(p, topic[..2]);
    PurchaseAccepted(p);
    DebtInLog(before.book, before.logs, o);
    PurchaseFunds(p);
  }

  lemma {:induction false} PurchaseFunds(p: Product)
    requires ScaleOk(p)
    ensures ToBook(Purchase(p)).funds == Funds(p)
  {
  }

  lemma {:induction false} AsksAreSane(p: Product)
    requires ScaleOk(p)
    ensures M.DistinctPlaces(Topic(p)[..2]) && M.SanePlaces(Topic(p)[..2])
  {
  }

  // ------------------------------------------------------- a hold below zero

  /** The three are matched one by one. */
  lemma {:induction false} MatchedRun(p: Product) returns (run: seq<World>)
    requires ScaleOk(p)
    ensures run != [] && Execution(p, LIMITS, Deposited(p), run)
    ensures var w := run[|run| - 1];
            && w.ledger.orders == map[1 := CheapAsk(p), 2 := DearAsk(p), 3 := Purchase(p)]
            && M.Run(p, Topic(p)).Some? && w.market.logs == M.Run(p, Topic(p)).value.logs
  {
    hide M.Run, M.Execute, M.CanExecute, CheapAsk, DearAsk, Purchase;
    run := PlacedRun(p);
    PurchaseOverspends(p);
    var w := run[3];
    NothingRun(p, w.topic);
    assert w.topic[..3] == w.topic;
    Matches(p, w.topic, 0);
    Matches(p, w.topic, 1);
    Matches(p, w.topic, 2);
    var w1 := MatchStep(w);
    var w2 := MatchStep(w1);
    var w3 := MatchStep(w2);
    assert Steps(p, LIMITS, w, w1) && Steps(p, LIMITS, w1, w2) && Steps(p, LIMITS, w2, w3);
    run := run + [w1, w2, w3];
  }

  lemma {:induction false} NothingRun(p: Product, topic: seq<Command>)
    ensures M.Run(p, topic[..0]) == Some(M.Applied(M.NewBook(p), []))
  {
  }

  /** Matching one more command of the topic. */
  lemma {:induction false} Matches(p: Product, topic: seq<Command>, n: nat)
    requires n < |topic| && M.Run(p, topic[..n]).Some? && M.Run(p, topic[..n + 1]).Some?
    ensures var a := M.Run(p, topic[..n]).value;
            && M.CanExecute(a.book, topic[n])
            && var r := M.Execute(a.book, topic[n]);
               M.Run(p, topic[..n + 1]).value == M.Applied(r.book, a.logs + r.logs)
  {
    assert topic[..n + 1][..n] == topic[..n];
  }

  lemma {:induction false} Join(p: Product, books: Books, run: seq<World>, rest: seq<World>) returns (all: seq<World>)
    requires Execution(p, LIMITS, books, run) && Connected(p, LIMITS, rest) && rest[0] == run[|run| - 1]
    ensures all != [] && Execution(p, LIMITS, books, all) && all[|all| - 1] == rest[|rest| - 1]
  {
    hide Steps;
    all := run + rest[1..];
    forall i | 0 <= i < |all| - 1
      ensures Steps(p, LIMITS, all[i], all[i + 1])
    {
      if i >= |run| - 1 {
        var j := i - (|run| - 1);
        assert all[i] == rest[j] && all[i + 1] == rest[j + 1];
      }
    }
  }

  lemma {:induction false} DepositsAreGood(p: Product)
    requires ScaleOk(p)
    ensures Deposits(Deposited(p))
  {
  }

  /** The counterexample at the first price that is not below the bound: placed by the order service, matched, settled
      and booked to the end, the buyer's hold is minus one, with nothing left to correct it. */
  lemma {:induction false} HoldEndsBelowZero(p: Product) returns (run: seq<World>)
    requires ScaleOk(p)
    ensures Deposits(Deposited(p)) && run != [] && Execution(p, LIMITS, Deposited(p), run)
    ensures var w := run[|run| - 1];
            && AtRest(w) && BUYER in w.ledger.books.accounts && w.ledger.books.accounts[BUYER].hold == -1
            && (forall id :: id in w.ledger.orders ==> w.ledger.orders[id].price <= Price(p))
  {
    hide Execution, Deposits, Connected, AtRest, Inv, Topic, CheapAsk, DearAsk, Purchase, Funds, Settles, M.Run, LifeOf;
    var matched := MatchedRun(p);
    var w := matched[|matched| - 1];
    DepositsAreGood(p);
    AlwaysBalanced(p, LIMITS, Deposited(p), matched, |matched| - 1);
    var rest := CanSettle(p, LIMITS, Deposited(p), w);
    run := Join(p, Deposited(p), matched, rest);
    var last := run[|run| - 1];
    PurchaseSettled(p, w, last);
    AtRestAccountsBalance(p, LIMITS, Deposited(p), run, |run| - 1, BUYER, Quote);
  }

  lemma {:induction false} PurchaseSettled(p: Product, w: World, last: World)
    requires ScaleOk(p) && Inv(p, Deposited(p), last) && AtRest(last) && Settles(w, last)
    requires w.ledger.orders == map[1 := CheapAsk(p), 2 := DearAsk(p), 3 := Purchase(p)]
    requires M.Run(p, Topic(p)).Some? && w.market.logs == M.Run(p, Topic(p)).value.logs
    ensures Sum(last.ledger.orders, ReservedBy(BUYER)) - Sum(last.ledger.orders, ExcessOf(BUYER)) == -1
    ensures forall id :: id in last.ledger.orders ==> last.ledger.orders[id].price <= Price(p)
  {
    hide AtRest, Inv, M.Run, Topic, CheapAsk, DearAsk, Purchase, Funds, SameOrder, ReservedBy, ExcessOf;
    AtRestOrdersAreExact(p, Deposited(p), last, 3);
    PurchaseOverspends(p);
    OnlyPurchase(p, last.ledger.orders);
  }

  /** Of the three orders only the purchase is the buyer's, finished with an excess of one. */
  lemma {:induction false} OnlyPurchase(p: Product, orders: map<int, Order>)
    requires ScaleOk(p) && orders.Keys == {1, 2, 3}
    requires SameOrder(CheapAsk(p), orders[1]) && SameOrder(DearAsk(p), orders[2]) && SameOrder(Purchase(p), orders[3])
    requires Ended(orders[3]) && orders[3].executedValue == Funds(p) + 1
    ensures Sum(orders, ReservedBy(BUYER)) - Sum(orders, ExcessOf(BUYER)) == -1
    ensures forall id :: id in orders ==> orders[id].price <= Price(p)
  {
    SumOfClaims(orders, BUYER);
    SumSplit(orders, ClaimOf(BUYER), 3);
    SumSplit(orders - {3}, ClaimOf(BUYER), 2);
    SumSplit(orders - {3} - {2}, ClaimOf(BUYER), 1);
    assert (orders - {3} - {2} - {1}).Keys == {};
    assert orders - {3} - {2} - {1} == map[];
  }

  // ------------------------------------------------------- the exact cap

  /** One world of one run in which no limit price is above the cap. */
  ghost predicate Capped(p: Product, limits: Limits, deposits: Books, run: seq<World>, i: nat, cap: int) {
    && Deposits(deposits) && Execution(p, limits, deposits, run) && i < |run|
    && forall id :: id in run[i].ledger.orders && run[i].ledger.orders[id].kind.Limit? ==> run[i].ledger.orders[id].price <= cap
  }

  /** Holds are right in every world of every run with limit prices up to a cap if and only if the cap is below twice
      the grain. */
  lemma {:induction false} HoldsAreRightExactly(p: Product, cap: int)
    requires ScaleOk(p)
    ensures (forall limits: Limits, deposits: Books, run: seq<World>, i: nat, owner: Owner ::
               Capped(p, limits, deposits, run, i, cap) ==> HoldIsRight(run[i].ledger, owner))
            <==> cap < 2 * Grain(p)
  {
    if cap < 2 * Grain(p) {
      forall limits: Limits, deposits: Books, run: seq<World>, i: nat, owner: Owner | Capped(p, limits, deposits, run, i, cap)
        ensures HoldIsRight(run[i].ledger, owner)
      {
        HoldIsExplained(p, limits, deposits, run, i, owner);
      }
    } else {
      var run := HoldEndsBelowZero(p);
      assert Capped(p, LIMITS, Deposited(p), run, |run| - 1, cap);
      assert !HoldIsRight(run[|run| - 1].ledger, BUYER);
    }
  }
}
