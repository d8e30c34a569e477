/** The matching book as a value: what applying or cancelling one order does, and runs of orders. */
module Matching {
  import opened Types
  import opened PriceTime
  import opened DedupWindow
  import opened Decimals

  const ORDER_ID_WINDOW_CAP := 10000

  /** Each depth is its orders in queue order. */
  datatype Book = Book(product: Product, asks: seq<BookOrder>, bids: seq<BookOrder>,
                       tradeSeq: int, logSeq: int, window: Window)

  function NewBook(p: Product): Book {
    Book(p, [], [], 0, 0, NewWindow(0, ORDER_ID_WINDOW_CAP))
  }

  function Depth(b: Book, side: Side): seq<BookOrder> {
    if side.Buy? then b.bids else b.asks
  }

  function WithDepth(b: Book, side: Side, q: seq<BookOrder>): Book {
    if side.Buy? then b.(bids := q) else b.(asks := q)
  }

  /** One match: the maker as the trade leaves it, and the traded size. */
  datatype Trade = Trade(maker: BookOrder, size: int)

  datatype Walked = Walked(taker: BookOrder, makers: seq<BookOrder>, trades: seq<Trade>)

  datatype Applied = Applied(book: Book, logs: seq<Log>)

  // ------------------------------------------------------- the match loop

  predicate Crosses(taker: BookOrder, maker: BookOrder) {
    if taker.side.Buy? then maker.price <= taker.price else taker.price <= maker.price
  }

  function Min(a: int, b: int): int {
    if a <= b then a else b
  }

  /** A market buy with funds divides by every maker price it reaches. */
  predicate Priced(taker: BookOrder, makers: seq<BookOrder>) {
    taker.MarketBuy() && taker.funds != 0 ==> forall m :: m in makers ==> m.price > 0
  }

  function TradeSize(grain: int, taker: BookOrder, maker: BookOrder): int
    requires grain > 0 && (taker.MarketBuy() ==> maker.price > 0)
  {
    if taker.MarketBuy() then Min(BuyableSize(taker.funds, maker.price, grain), maker.size)
    else Min(taker.size, maker.size)
  }

  /** The break conditions of the loop at one maker. */
  predicate Stops(grain: int, taker: BookOrder, maker: BookOrder)
    requires grain > 0 && (taker.MarketBuy() && taker.funds != 0 ==> maker.price > 0)
  {
    || !Crosses(taker, maker)
    || (if taker.MarketBuy() then taker.funds == 0 || BuyableSize(taker.funds, maker.price, grain) == 0
        else taker.size == 0)
  }

  function Pay(taker: BookOrder, size: int, price: int): BookOrder {
    if taker.MarketBuy() then taker.(funds := taker.funds - size * price) else taker.(size := taker.size - size)
  }

  /** The iterator walk: every maker is visited once, in queue order, whether or not the one before it was filled. */
  function Walk(grain: int, taker: BookOrder, makers: seq<BookOrder>): Walked
    requires grain > 0 && Priced(taker, makers)
    decreases |makers|
  {
    if makers == [] || Stops(grain, taker, makers[0]) then Walked(taker, makers, [])
    else
      var size := TradeSize(grain, taker, makers[0]);
      var maker := makers[0].(size := makers[0].size - size);
      var r := Walk(grain, Pay(taker, size, maker.price), makers[1..]);
      Walked(r.taker, (if maker.size == 0 then [] else [maker]) + r.makers, [Trade(maker, size)] + r.trades)
  }

  /** The log of one match: the match, and Done for a maker it fills. */
  function TradeLog(takerId: int, t: Trade, logSeq: int, tradeSeq: int): seq<Log> {
    [MatchLog(logSeq + 1, tradeSeq + 1, takerId, t.maker.id, t.maker.side, t.maker.price, t.size)] +
    if t.maker.size == 0 then [DoneLog(logSeq + 2, t.maker.id, t.maker.price, 0, Filled, t.maker.side)] else []
  }

  function TradeLogs(takerId: int, trades: seq<Trade>, logSeq: int, tradeSeq: int): seq<Log> {
    if trades == [] then []
    else
      var first := TradeLog(takerId, trades[0], logSeq, tradeSeq);
      first + TradeLogs(takerId, trades[1..], logSeq + |first|, tradeSeq + 1)
  }

  // ------------------------------------------------------- one order

  /** A market order crosses any price: its own price becomes the extreme one. */
  function Aggressor(p: Product, o: BookOrder): BookOrder {
    if o.kind.Limit? then o
    else if o.side.Buy? then o.(price := MarketBuyPrice(p))
    else o.(price := 0)
  }

  /** After the loop: rest the unfilled part of a limit order, or report the taker done. */
  function Finish(b: Book, taker: BookOrder): Applied {
    if taker.kind.Limit? && taker.size > 0 then
      Applied(WithDepth(b, taker.side, Insert(taker.side, Depth(b, taker.side), taker)).(logSeq := b.logSeq + 1),
              [OpenLog(b.logSeq + 1, taker.id, taker.size, taker.price, taker.side)])
    else
      var market := taker.kind.Market?;
      var left := if taker.side.Sell? then taker.size else taker.funds;
      Applied(b.(logSeq := b.logSeq + 1),
              [DoneLog(b.logSeq + 1, taker.id, if market then 0 else taker.price, if market then 0 else taker.size,
                       if market && left > 0 then Cancelled else Filled, taker.side)])
  }

  /** Accepted orders the loop can process without dividing by a zero price. */
  predicate CanApply(b: Book, o: BookOrder) {
    && ScaleOk(b.product) && b.window.cap > 0
    && (Accepts(b.window, o.id) ==> Priced(o, Depth(b, o.side.Opposite())))
  }

  function ApplyOrder(b: Book, o: BookOrder): Applied
    requires CanApply(b, o)
  {
    if !Accepts(b.window, o.id) then Applied(b, [])
    else
      var taker := Aggressor(b.product, o);
      var r := Walk(Grain(b.product), taker, Depth(b, taker.side.Opposite()));
      var logs := TradeLogs(taker.id, r.trades, b.logSeq, b.tradeSeq);
      var traded := WithDepth(b, taker.side.Opposite(), r.makers)
                    .(logSeq := b.logSeq + |logs|, tradeSeq := b.tradeSeq + |r.trades|,
                      window := Put(b.window, o.id));
      var f := Finish(traded, r.taker);
      Applied(f.book, logs + f.logs)
  }

  function CancelOrder(b: Book, o: BookOrder): Applied
    requires b.window.cap > 0
  {
    var marked := b.(window := Put(b.window, o.id));
    var q := Depth(b, o.side);
    var i := IndexOf(q, o.id);
    if i == |q| then Applied(marked, [])
    else
      Applied(WithDepth(marked, o.side, RemoveAt(q, i)).(logSeq := b.logSeq + 1),
              [DoneLog(b.logSeq + 1, o.id, q[i].price, q[i].size, Cancelled, q[i].side)])
  }

  // ------------------------------------------------------- runs

  predicate CanExecute(b: Book, c: Command) {
    b.window.cap > 0 && (c.Place? ==> CanApply(b, c.order))
  }

  function Execute(b: Book, c: Command): Applied
    requires CanExecute(b, c)
  {
    match c
    case Place(o) => ApplyOrder(b, o)
    case Cancel(o) => CancelOrder(b, o)
  }

  /** One more command after a run so far. */
  function Then(a: Option<Applied>, c: Command): Option<Applied> {
    if a.None? || !CanExecute(a.value.book, c) then None
    else
      var r := Execute(a.value.book, c);
      Some(Applied(r.book, a.value.logs + r.logs))
  }

  /** The book after the commands and every log they emitted; None once an order makes the engine panic. */
  function RunFrom(b: Book, cmds: seq<Command>): Option<Applied> {
    if cmds == [] then Some(Applied(b, []))
    else Then(RunFrom(b, cmds[..|cmds| - 1]), cmds[|cmds| - 1])
  }

  function Run(p: Product, cmds: seq<Command>): Option<Applied> {
    RunFrom(NewBook(p), cmds)
  }

  /** Order ids are database keys: no two placed orders share one. */
  ghost predicate DistinctPlaces(cmds: seq<Command>) {
    forall i, j :: 0 <= i < j < |cmds| && cmds[i].Place? && cmds[j].Place? ==> cmds[i].order.id != cmds[j].order.id
  }

  /** What the order service admits to the topic. */
  ghost predicate SanePlaces(cmds: seq<Command>) {
    forall i :: 0 <= i < |cmds| && cmds[i].Place? ==> cmds[i].order.Sane()
  }
}
