/** From placing to booking: the services, the matching engine and the fill maker as one system, and what every step keeps. */
module Settlement {
  import opened Types
  import opened Sums
  import opened Tables
  import opened Decimals
  import M = Matching
  import opened PriceTime
  import opened LogGrammar
  import L = OrderLives
  import opened MarketTheorems
  import opened FairTrades
  import opened Accounts
  import opened Orders
  import opened FillMakers

  /** The ledger in the database; the order topic and how much of it was matched; the matching log and how much of it
      the fill maker took; and the fills on their way to the table. */
  datatype World = World(ledger: Ledger, topic: seq<Command>, applied: nat, market: M.Applied, consumed: nat,
                         fillCh: seq<Fill>, buffer: seq<Fill>)

  function Start(p: Product, books: Books): World {
    World(Ledger(books, map[], []), [], 0, M.Applied(M.NewBook(p), []), 0, [], [])
  }

  /** Placing an order; its submission to the topic may get lost. */
  function PlaceStep(w: World, p: Product, limits: Limits, r: Request, id: int, submitted: bool): World {
    var placed := PlaceOrder(w.ledger.books, p, limits, r, id);
    if !placed.Placed? then w
    else
      w.(ledger := Ledger(placed.books, w.ledger.orders[id := placed.order], w.ledger.fills),
         topic := if submitted then w.topic + [Place(ToBook(placed.order))] else w.topic)
  }

  function CancelStep(w: World, id: int): World {
    if id in w.ledger.orders then w.(topic := w.topic + [Cancel(ToBook(w.ledger.orders[id]))]) else w
  }

  function MatchStep(w: World): World
    requires w.applied < |w.topic| && M.CanExecute(w.market.book, w.topic[w.applied])
  {
    var r := M.Execute(w.market.book, w.topic[w.applied]);
    w.(applied := w.applied + 1, market := M.Applied(r.book, w.market.logs + r.logs))
  }

  function ConsumeStep(w: World): World
    requires w.consumed < |w.market.logs|
  {
    var log := w.market.logs[w.consumed];
    w.(consumed := w.consumed + 1, fillCh := w.fillCh + FillsOfLog(log),
       ledger := w.ledger.(orders := AfterLog(w.ledger.orders, log)))
  }

  function FlushStep(w: World): World
    requires w.fillCh != []
  {
    var r := Flush(w.buffer, w.fillCh[0], |w.fillCh| - 1);
    w.(fillCh := w.fillCh[1..], buffer := r.buffer, ledger := w.ledger.(fills := w.ledger.fills + r.stored))
  }

  function FillStep(w: World, id: int): World {
    var r := ExecuteFill(w.ledger, id);
    if r.Executed? then w.(ledger := r.ledger) else w
  }

  function BillStep(w: World, owner: Owner): World {
    w.(ledger := w.ledger.(books := ExecuteBill(w.ledger.books, owner)))
  }

  ghost predicate Steps(p: Product, limits: Limits, w: World, w': World) {
    || (exists r, id, submitted :: id !in w.ledger.orders && w' == PlaceStep(w, p, limits, r, id, submitted))
    || (exists id :: w' == CancelStep(w, id))
    || (w.applied < |w.topic| && M.CanExecute(w.market.book, w.topic[w.applied]) && w' == MatchStep(w))
    || (w.consumed < |w.market.logs| && w' == ConsumeStep(w))
    || (w.fillCh != [] && w' == FlushStep(w))
    || (exists id :: w' == FillStep(w, id))
    || (exists owner :: w' == BillStep(w, owner))
  }

  // ------------------------------------------------------- the invariant

  /** The matching engine's part: what was matched is a run of the topic. */
  ghost predicate Matched(p: Product, topic: seq<Command>, applied: nat, market: M.Applied) {
    && ScaleOk(p) && M.DistinctPlaces(topic) && M.SanePlaces(topic) && applied <= |topic|
    && M.Run(p, topic[..applied]) == Some(market)
  }

  /** Every order on the topic is the ledger's, and every order of the ledger was admitted. */
  ghost predicate Known(topic: seq<Command>, orders: map<int, Order>) {
    && (forall i :: 0 <= i < |topic| && topic[i].Place? ==>
          topic[i].order.id in orders && ToBook(orders[topic[i].order.id]) == topic[i].order)
    && (forall id :: id in orders ==> orders[id].id == id && Admitted(orders[id]))
  }

  function Unmarked(fills: seq<Fill>): (r: seq<Fill>)
    ensures |r| == |fills| && forall i :: 0 <= i < |r| ==> r[i] == fills[i].(settled := false)
  {
    if fills == [] then [] else Unmarked(fills[..|fills| - 1]) + [fills[|fills| - 1].(settled := false)]
  }

  /** Stored, buffered and queued fills are those of the consumed log, once each and in order; the flusher buffers only
      while more is queued. */
  ghost predicate Piped(fills: seq<Fill>, buffer: seq<Fill>, fillCh: seq<Fill>, logs: seq<Log>, consumed: nat) {
    && consumed <= |logs| && Unmarked(fills) + buffer + fillCh == FillsOf(logs[..consumed])
    && (buffer != [] ==> fillCh != [])
  }

  function SettledValue(id: int): Fill -> int {
    (f: Fill) => if f.settled && f.orderId == id then Value(f) else 0
  }

  function SettledSize(id: int): Fill -> int {
    (f: Fill) => if f.settled && f.orderId == id then Size(f) else 0
  }

  function SettledEnd(id: int): Fill -> int {
    (f: Fill) => if f.settled && f.orderId == id && f.DoneFill? then 1 else 0
  }

  function SettledCancel(id: int): Fill -> int {
    (f: Fill) => if f.settled && f.orderId == id && f.DoneFill? && f.reason.Cancelled? then 1 else 0
  }

  /** An order's amounts are those of its settled fills, and it has ended, cancelled or filled, as its settled end says. */
  ghost predicate Tallied(o: Order, fills: seq<Fill>, bills: seq<Bill>) {
    && o.executedValue == SumSeq(fills, SettledValue(o.id))
    && o.filledSize == SumSeq(fills, SettledSize(o.id))
    && SumSeq(fills, SettledEnd(o.id)) == (if Ended(o) then 1 else 0)
    && SumSeq(fills, SettledCancel(o.id)) == (if o.status.StatusCancelled? then 1 else 0)
    && SumSeq(bills, NoteHold(o.id)) == -Taken(o)
  }

  ghost predicate AllTallied(orders: map<int, Order>, fills: seq<Fill>, bills: seq<Bill>) {
    forall id :: id in orders ==> Tallied(orders[id], fills, bills)
  }

  /** Fills of an order are settled in order. */
  ghost predicate InOrder(fills: seq<Fill>) {
    forall i, j :: 0 <= i < j < |fills| && fills[i].orderId == fills[j].orderId && fills[j].settled ==> fills[i].settled
  }

  /** For every owner: hold, after what unsettled bills will take, is what the orders claim; and what can be used, after
      what unsettled bills will add, is what was deposited and what the orders changed in it. */
  ghost predicate Decomposed(deposits: Books, books: Books, orders: map<int, Order>) {
    && (forall owner :: HoldAfterBills(books, owner) == Sum(orders, ClaimOf(owner)))
    && (forall owner :: AvailableAfterBills(books, owner) == AvailableOf(deposits.accounts, owner) + Sum(orders, CreditOf(owner)))
  }

  ghost predicate OpenedIn(logs: seq<Log>, id: int) {
    exists i :: 0 <= i < |logs| && logs[i].OpenLog? && logs[i].orderId == id
  }

  /** Until it ends, an order is Open exactly when its Open entry was consumed. */
  ghost predicate Opened(orders: map<int, Order>, logs: seq<Log>) {
    forall id :: id in orders && !Ended(orders[id]) ==> (orders[id].status.StatusOpen? <==> OpenedIn(logs, id))
  }

  /** The fills not in the accounts' books yet. */
  function Pipeline(w: World): seq<Fill> {
    w.ledger.fills + w.buffer + w.fillCh + (if w.consumed <= |w.market.logs| then FillsOf(w.market.logs[w.consumed..]) else [])
  }

  /** Money on accounts, in unsettled bills and in unsettled fills. */
  ghost predicate Conserved(w: World, deposits: Books) {
    forall currency :: Money(w.ledger.books, currency) + SumSeq(Pipeline(w), Stamped(currency)) == Money(deposits, currency)
  }

  /** A bill's note names an order of the ledger. */
  ghost predicate Noted(bills: seq<Bill>, orders: map<int, Order>) {
    forall i :: 0 <= i < |bills| && bills[i].note.Some? ==> bills[i].note.value in orders
  }

  ghost predicate Inv(p: Product, deposits: Books, w: World) {
    && Matched(p, w.topic, w.applied, w.market)
    && Known(w.topic, w.ledger.orders)
    && Piped(w.ledger.fills, w.buffer, w.fillCh, w.market.logs, w.consumed)
    && AllTallied(w.ledger.orders, w.ledger.fills, w.ledger.books.bills)
    && InOrder(w.ledger.fills) && Noted(w.ledger.books.bills, w.ledger.orders)
    && ValidBooks(w.ledger.books) && Audited(deposits, w.ledger.books)
    && Decomposed(deposits, w.ledger.books, w.ledger.orders) && Opened(w.ledger.orders, w.market.logs[..w.consumed])
    && Conserved(w, deposits)
  }

  // ------------------------------------------------------- what the matching engine guarantees

  /** Limit prices low enough for the matching engine's division, see Decimals.NeverOverspendsExactly. */
  ghost predicate Bounded(p: Product, orders: map<int, Order>)
    requires ScaleOk(p)
  {
    forall id :: id in orders && orders[id].kind.Limit? ==> orders[id].price < 2 * Grain(p)
  }

  lemma {:induction false} PlacedAreKnown(cmds: seq<Command>, orders: map<int, Order>)
    requires Known(cmds, orders)
    ensures forall id :: id in L.PlacedOrders(cmds) ==> id in orders && ToBook(orders[id]) == L.PlacedOrders(cmds)[id]
  {
    forall id | id in L.PlacedOrders(cmds)
      ensures id in orders && ToBook(orders[id]) == L.PlacedOrders(cmds)[id]
    {
      L.PlacedEarlier(cmds, id);
    }
  }

  lemma {:induction false} KnownPrefix(topic: seq<Command>, orders: map<int, Order>, n: nat)
    requires Known(topic, orders) && n <= |topic| && M.DistinctPlaces(topic) && M.SanePlaces(topic)
    ensures Known(topic[..n], orders) && M.DistinctPlaces(topic[..n]) && M.SanePlaces(topic[..n])
  {
  }

  /** What one order traded stays within what was held for it. */
  lemma {:induction false} LifeWithinReserve(o: Order, l: Life, resting: map<int, BookOrder>, placed: map<int, BookOrder>)
    requires Admitted(o) && L.Explained(l, o.id, resting, placed, true) && o.id in placed && placed[o.id] == ToBook(o)
    ensures (if o.side.Buy? then l.value else l.filled) <= Reserve(o)
  {
    if l != NO_LIFE && o.kind.Limit? && o.side.Buy? {
      MulMono(l.filled, o.size, o.price);
      assert l.filled * o.price <= o.size * o.price;
    }
  }

  /** The facts about the matched log that settlement rests on. */
  lemma {:induction false} MarketFacts(p: Product, topic: seq<Command>, applied: nat, market: M.Applied, orders: map<int, Order>)
    requires Matched(p, topic, applied, market) && Known(topic, orders)
    ensures var placed := L.PlacedOrders(topic[..applied]);
            && Fair(market.logs, placed) && SilentAfterDone(market.logs)
            && (forall id :: id in placed ==> id in orders && ToBook(orders[id]) == placed[id])
  {
    var cmds := topic[..applied];
    KnownPrefix(topic, orders, applied);
    RunFair(p, cmds);
    PlacedAreKnown(cmds, orders);
    forall i, j | 0 <= i < j < |market.logs| && market.logs[i].DoneLog?
      ensures !Mentions(market.logs[j], market.logs[i].orderId)
    {
      GrammarHolds(p, cmds, market.logs[i].orderId);
    }
  }

  lemma {:induction false} TradedWithinReserve(p: Product, topic: seq<Command>, applied: nat, market: M.Applied,
                                               orders: map<int, Order>, id: int)
    requires Matched(p, topic, applied, market) && Known(topic, orders) && Bounded(p, orders) && id in orders
    ensures var l := LifeOf(market.logs, id); (if orders[id].side.Buy? then l.value else l.filled) <= Reserve(orders[id])
  {
    hide Known, M.Run, Admitted, L.Explained;
    var cmds := topic[..applied];
    KnownPrefix(topic, orders, applied);
    PlacedAreKnown(cmds, orders);
    var placed := L.PlacedOrders(cmds);
    L.RunSound(p, cmds);
    IsAdmitted(topic, orders, id);
    assert L.PricesBounded(p, placed) by {
      forall i | i in placed && placed[i].kind.Limit?
        ensures placed[i].price < 2 * Grain(p)
      {
        assert ToBook(orders[i]) == placed[i];
      }
    }
    var l := LifeOf(market.logs, id);
    var resting := L.RestingOrders(market.book);
    assert L.Explained(l, id, resting, placed, true);
    if id in placed {
      LifeWithinReserve(orders[id], l, resting, placed);
    } else {
      NeverPlaced(l, id, resting, placed, orders[id]);
    }
  }

  lemma {:induction false} IsAdmitted(topic: seq<Command>, orders: map<int, Order>, id: int)
    requires Known(topic, orders) && id in orders
    ensures Admitted(orders[id]) && orders[id].id == id
  {
  }

  lemma {:induction false} NeverPlaced(l: Life, id: int, resting: map<int, BookOrder>, placed: map<int, BookOrder>, o: Order)
    requires L.Explained(l, id, resting, placed, true) && id !in placed && Admitted(o)
    ensures l == NO_LIFE && Reserve(o) > 0
  {
  }

  // ------------------------------------------------------- what was settled was traded

  lemma {:induction false} FairAmounts(f: Fill, placed: map<int, BookOrder>)
    requires FairFill(f, placed)
    ensures Value(f) >= 0 && Size(f) >= 0
  {
    if f.TradeFill? {
      SignOfFactor(f.size, f.price);
    }
  }

  lemma {:induction false} SettledWithinUnmarked(fills: seq<Fill>, id: int, placed: map<int, BookOrder>)
    requires FairFills(Unmarked(fills), placed)
    ensures SumSeq(fills, SettledValue(id)) <= SumSeq(Unmarked(fills), ValueFor(id))
    ensures SumSeq(fills, SettledSize(id)) <= SumSeq(Unmarked(fills), SizeFor(id))
  {
    if fills != [] {
      var n := |fills| - 1;
      assert Unmarked(fills)[..n] == Unmarked(fills[..n]);
      SettledWithinUnmarked(fills[..n], id, placed);
      FairAmounts(Unmarked(fills)[n], placed);
    }
  }

  lemma {:induction false} FairSums(fills: seq<Fill>, id: int, placed: map<int, BookOrder>)
    requires FairFills(fills, placed)
    ensures SumSeq(fills, ValueFor(id)) >= 0 && SumSeq(fills, SizeFor(id)) >= 0
  {
    forall i | 0 <= i < |fills|
      ensures ValueFor(id)(fills[i]) >= 0 && SizeFor(id)(fills[i]) >= 0
    {
      FairAmounts(fills[i], placed);
    }
    SumSeqNonNegative(fills, ValueFor(id));
    SumSeqNonNegative(fills, SizeFor(id));
  }

  lemma {:induction false} FairParts(a: seq<Fill>, b: seq<Fill>, placed: map<int, BookOrder>)
    requires FairFills(a + b, placed)
    ensures FairFills(a, placed) && FairFills(b, placed)
  {
    assert forall i :: 0 <= i < |a| ==> (a + b)[i] == a[i];
    assert forall i :: 0 <= i < |b| ==> (a + b)[|a| + i] == b[i];
  }

  /** All fills of the log, in the pipeline's order. */
  lemma {:induction false} PipelineIsLog(fills: seq<Fill>, buffer: seq<Fill>, fillCh: seq<Fill>, logs: seq<Log>, consumed: nat)
    requires Piped(fills, buffer, fillCh, logs, consumed)
    ensures consumed <= |logs| && Unmarked(fills) + (buffer + fillCh + FillsOf(logs[consumed..])) == FillsOf(logs)
  {
    hide FillsOf, Unmarked;
    assert logs == logs[..consumed] + logs[consumed..];
    FillsConcat(logs[..consumed], logs[consumed..]);
    JoinFills(Unmarked(fills), buffer, fillCh);
    JoinFills(Unmarked(fills), buffer + fillCh, FillsOf(logs[consumed..]));
  }

  /** No order has settled more than it traded. */
  lemma {:induction false} SettledWithinTraded(fills: seq<Fill>, buffer: seq<Fill>, fillCh: seq<Fill>, logs: seq<Log>, consumed: nat,
                                               placed: map<int, BookOrder>, id: int)
    requires Piped(fills, buffer, fillCh, logs, consumed) && Fair(logs, placed)
    ensures FairFills(Unmarked(fills), placed)
    ensures SumSeq(fills, SettledValue(id)) <= LifeOf(logs, id).value
    ensures SumSeq(fills, SettledSize(id)) <= LifeOf(logs, id).filled
  {
    hide Piped, Fair, FairFill;
    PipelineIsLog(fills, buffer, fillCh, logs, consumed);
    var rest := buffer + fillCh + FillsOf(logs[consumed..]);
    FillsAreFair(logs, placed);
    FairParts(Unmarked(fills), rest, placed);
    SettledWithinUnmarked(fills, id, placed);
    FairSums(rest, id, placed);
    SumSeqConcat(Unmarked(fills), rest, ValueFor(id));
    SumSeqConcat(Unmarked(fills), rest, SizeFor(id));
    LifeIsFills(logs, placed, id);
  }

  // ------------------------------------------------------- executing fills

  lemma {:induction false} MarkUnmarked(fills: seq<Fill>, id: int, k: nat)
    ensures Unmarked(Mark(fills, Pending(id), Settling(), k)) == Unmarked(fills)
  {
    var marked := Mark(fills, Pending(id), Settling(), k);
    forall i | 0 <= i < |fills|
      ensures marked[i].(settled := false) == fills[i].(settled := false)
    {
      MarkAt(fills, Pending(id), Settling(), k, i);
    }
  }

  lemma {:induction false} MarkKeepsOrder(fills: seq<Fill>, id: int, k: nat)
    requires InOrder(fills)
    ensures InOrder(Mark(fills, Pending(id), Settling(), k))
  {
    var marked := Mark(fills, Pending(id), Settling(), k);
    forall i, j | 0 <= i < j < |marked| && marked[i].orderId == marked[j].orderId && marked[j].settled
      ensures marked[i].settled
    {
      MarkAt(fills, Pending(id), Settling(), k, i);
      MarkAt(fills, Pending(id), Settling(), k, j);
      if !fills[j].settled && !fills[i].settled {
        MarkInOrder(fills, Pending(id), Settling(), k, i, j);
      }
    }
  }

  function Nothing(): Fill -> int {
    (f: Fill) => 0
  }

  lemma {:induction false} SumNothing(fills: seq<Fill>)
    ensures SumSeq(fills, Nothing()) == 0
  {
    if fills != [] {
      SumNothing(fills[..|fills| - 1]);
    }
  }

  /** Settling an order's fills adds them to its own tallies and to nobody else's. */
  lemma {:induction false} MarkTallies(fills: seq<Fill>, id: int, k: nat, other: int)
    requires k <= |Select(fills, Pending(id))|
    ensures var due, marked := Select(fills, Pending(id))[..k], Mark(fills, Pending(id), Settling(), k);
            && SumSeq(marked, SettledValue(id)) == SumSeq(fills, SettledValue(id)) + SumSeq(due, ValueOf())
            && SumSeq(marked, SettledSize(id)) == SumSeq(fills, SettledSize(id)) + SumSeq(due, SizeOf())
            && SumSeq(marked, SettledEnd(id)) == SumSeq(fills, SettledEnd(id)) + SumSeq(due, Ends())
            && SumSeq(marked, SettledCancel(id)) == SumSeq(fills, SettledCancel(id)) + SumSeq(due, Cancels())
    ensures var marked := Mark(fills, Pending(id), Settling(), k);
            other != id ==>
              SumSeq(marked, SettledValue(other)) == SumSeq(fills, SettledValue(other))
              && SumSeq(marked, SettledSize(other)) == SumSeq(fills, SettledSize(other))
              && SumSeq(marked, SettledEnd(other)) == SumSeq(fills, SettledEnd(other))
              && SumSeq(marked, SettledCancel(other)) == SumSeq(fills, SettledCancel(other))
  {
    MarkSum(fills, Pending(id), Settling(), k, SettledValue(id), ValueOf());
    MarkSum(fills, Pending(id), Settling(), k, SettledSize(id), SizeOf());
    MarkSum(fills, Pending(id), Settling(), k, SettledEnd(id), Ends());
    MarkSum(fills, Pending(id), Settling(), k, SettledCancel(id), Cancels());
    if other != id {
      SumNothing(Select(fills, Pending(id))[..k]);
      MarkSum(fills, Pending(id), Settling(), k, SettledValue(other), Nothing());
      MarkSum(fills, Pending(id), Settling(), k, SettledSize(other), Nothing());
      MarkSum(fills, Pending(id), Settling(), k, SettledEnd(other), Nothing());
      MarkSum(fills, Pending(id), Settling(), k, SettledCancel(other), Nothing());
    }
  }

  function MinusStamped(currency: Currency): Fill -> int {
    (f: Fill) => if f.TradeFill? && !f.settled then -EffectOn(f.side.Opposite(), f, currency) else 0
  }

  /** The due fills of an order are stamped with the other side, so that the stamp tells their effect. */
  ghost predicate StampedFor(due: seq<Fill>, side: Side) {
    forall i :: 0 <= i < |due| ==> !due[i].settled && (due[i].TradeFill? ==> due[i].side.Opposite() == side)
  }

  lemma {:induction false} StampTellsEffect(due: seq<Fill>, side: Side, currency: Currency)
    requires StampedFor(due, side)
    ensures SumSeq(due, MinusStamped(currency)) == -SumSeq(due, Effect(side, currency))
  {
    if due != [] {
      var n := |due| - 1;
      StampTellsEffect(due[..n], side, currency);
      assert !due[n].settled;
    }
  }

  lemma {:induction false} MarkStamped(fills: seq<Fill>, id: int, k: nat, side: Side, currency: Currency)
    requires k <= |Select(fills, Pending(id))| && StampedFor(Select(fills, Pending(id))[..k], side)
    ensures var due, marked := Select(fills, Pending(id))[..k], Mark(fills, Pending(id), Settling(), k);
            SumSeq(marked, Stamped(currency)) == SumSeq(fills, Stamped(currency)) - SumSeq(due, Effect(side, currency))
  {
    MarkSum(fills, Pending(id), Settling(), k, Stamped(currency), MinusStamped(currency));
    StampTellsEffect(Select(fills, Pending(id))[..k], side, currency);
  }

  lemma {:induction false} DueIsFair(l: Ledger, id: int, placed: map<int, BookOrder>, side: Side)
    requires FairFills(Unmarked(l.fills), placed) && (id in placed ==> placed[id].side == side)
    ensures Orderly(DueFills(l, id)) && StampedFor(DueFills(l, id), side)
  {
    var due := DueFills(l, id);
    forall i | 0 <= i < |due|
      ensures !due[i].settled && due[i].orderId == id
      ensures due[i].TradeFill? ==> due[i].size > 0 && due[i].price >= 0 && due[i].side.Opposite() == side
    {
      var f := Select(l.fills, Pending(id))[i];
      assert f == due[i] && f in Select(l.fills, Pending(id));
      var j :| 0 <= j < |l.fills| && l.fills[j] == f;
      assert FairFill(Unmarked(l.fills)[j], placed);
    }
  }

  /** The order after a call of ExecuteFill, with its bills. */
  function Outcome(l: Ledger, id: int): Settled
    requires id in l.orders
  {
    SettleAll(l.orders[id], DueFills(l, id))
  }

  function FillsAfter(l: Ledger, id: int): seq<Fill> {
    Mark(l.fills, Pending(id), Settling(), |DueFills(l, id)|)
  }

  /** A ledger whose fills come from a fair log, for an order that may settle. */
  ghost predicate Settleable(l: Ledger, id: int, placed: map<int, BookOrder>) {
    && id in l.orders && !Ended(l.orders[id]) && l.orders[id].id == id
    && FairFills(Unmarked(l.fills), placed) && (id in placed ==> placed[id] == ToBook(l.orders[id]))
    && Tallied(l.orders[id], l.fills, l.books.bills)
  }

  lemma {:induction false} OutcomeAmounts(l: Ledger, id: int, placed: map<int, BookOrder>)
    requires Settleable(l, id, placed)
    ensures var o, s := l.orders[id], Outcome(l, id);
            && SameOrder(o, s.order) && GoodBills(s.bills)
            && s.order.executedValue == SumSeq(FillsAfter(l, id), SettledValue(id))
            && s.order.filledSize == SumSeq(FillsAfter(l, id), SettledSize(id))
            && SumSeq(FillsAfter(l, id), SettledEnd(id)) == (if Ended(s.order) then 1 else 0)
            && SumSeq(FillsAfter(l, id), SettledCancel(id)) == (if s.order.status.StatusCancelled? then 1 else 0)
            && (!Ended(s.order) ==> s.order.status == o.status)
  {
    hide FairFill;
    DueIsFair(l, id, placed, l.orders[id].side);
    AllAmounts(l.orders[id], DueFills(l, id));
    MarkTallies(l.fills, id, |DueFills(l, id)|, id);
  }

  /** What a call of ExecuteFill changes, in every sum over the ledger's tables. */
  lemma {:induction false} OutcomeMoves(l: Ledger, id: int, placed: map<int, BookOrder>, owner: Owner, currency: Currency)
    requires Settleable(l, id, placed)
    ensures var o, s := l.orders[id], Outcome(l, id);
            var bills, orders := l.books.bills + s.bills, l.orders[id := s.order];
            && SumSeq(bills, HoldTo(owner)) - SumSeq(l.books.bills, HoldTo(owner))
               == Sum(orders, ClaimOf(owner)) - Sum(l.orders, ClaimOf(owner))
            && SumSeq(bills, AvailableTo(owner)) - SumSeq(l.books.bills, AvailableTo(owner))
               == Sum(orders, CreditOf(owner)) - Sum(l.orders, CreditOf(owner))
            && SumSeq(bills, MoneyTo(currency)) - SumSeq(l.books.bills, MoneyTo(currency))
               == SumSeq(l.fills, Stamped(currency)) - SumSeq(FillsAfter(l, id), Stamped(currency))
            && SumSeq(bills, NoteHold(id)) == -Taken(s.order)
  {
    var o, s, due := l.orders[id], Outcome(l, id), DueFills(l, id);
    hide FairFill, SettleAll, ClaimOf, CreditOf, AvailableTo, HoldTo, MoneyTo, NoteHold, Stamped, Effect;
    DueIsFair(l, id, placed, o.side);
    AllAmounts(o, due);
    AllMove(o, due, owner, currency);
    SumSeqConcat(l.books.bills, s.bills, HoldTo(owner));
    SumSeqConcat(l.books.bills, s.bills, AvailableTo(owner));
    SumSeqConcat(l.books.bills, s.bills, MoneyTo(currency));
    SumSeqConcat(l.books.bills, s.bills, NoteHold(id));
    SumPut(l.orders, ClaimOf(owner), id, s.order);
    SumPut(l.orders, CreditOf(owner), id, s.order);
    MarkStamped(l.fills, id, |due|, o.side, currency);
  }

  lemma {:induction false} OthersTallied(l: Ledger, id: int, other: int)
    requires id in l.orders && l.orders[id].id == id && other in l.orders && other != id && l.orders[other].id == other
    requires Tallied(l.orders[other], l.fills, l.books.bills)
    ensures Tallied(l.orders[other], FillsAfter(l, id), l.books.bills + Outcome(l, id).bills)
  {
    hide SettleAll;
    MarkTallies(l.fills, id, |DueFills(l, id)|, other);
    AllNotes(l.orders[id], DueFills(l, id), other);
    SumSeqConcat(l.books.bills, Outcome(l, id).bills, NoteHold(other));
  }

  lemma {:induction false} FillStepShape(w: World, id: int)
    ensures var l, l' := w.ledger, FillStep(w, id).ledger;
            l' == l || (id in l.orders && !Ended(l.orders[id])
                        && l' == Ledger(l.books.(bills := l.books.bills + Outcome(l, id).bills),
                                        l.orders[id := Outcome(l, id).order], FillsAfter(l, id)))
    ensures FillStep(w, id) == w.(ledger := FillStep(w, id).ledger)
  {
  }

  lemma {:induction false} IsSettleable(p: Product, deposits: Books, w: World, id: int)
    requires Inv(p, deposits, w) && id in w.ledger.orders && !Ended(w.ledger.orders[id])
    ensures Settleable(w.ledger, id, L.PlacedOrders(w.topic[..w.applied]))
  {
    hide M.Run, Admitted, InOrder, Decomposed, Conserved, ValidBooks, Fair, FairFills, SilentAfterDone, Tallied;
    var l := w.ledger;
    var placed := L.PlacedOrders(w.topic[..w.applied]);
    MarketFacts(p, w.topic, w.applied, w.market, l.orders);
    SettledWithinTraded(l.fills, w.buffer, w.fillCh, w.market.logs, w.consumed, placed, id);
    assert Tallied(l.orders[id], l.fills, l.books.bills);
  }

  lemma {:induction false} AfterIsPiped(l: Ledger, id: int, buffer: seq<Fill>, fillCh: seq<Fill>, logs: seq<Log>, consumed: nat)
    requires Piped(l.fills, buffer, fillCh, logs, consumed)
    ensures Piped(FillsAfter(l, id), buffer, fillCh, logs, consumed)
  {
    MarkUnmarked(l.fills, id, |DueFills(l, id)|);
  }

  lemma {:induction false} KnownAfter(topic: seq<Command>, orders: map<int, Order>, o: Order)
    requires Known(topic, orders) && o.id in orders && SameOrder(orders[o.id], o)
    ensures Known(topic, orders[o.id := o])
  {
    assert ToBook(o) == ToBook(orders[o.id]);
  }

  lemma {:induction false} GoodBillsConcat(a: seq<Bill>, b: seq<Bill>)
    requires GoodBills(a) && GoodBills(b)
    ensures GoodBills(a + b)
  {
  }

  lemma {:induction false} FillKeepsTallies(w: World, id: int, placed: map<int, BookOrder>)
    requires var l := w.ledger; Settleable(l, id, placed) && AllTallied(l.orders, l.fills, l.books.bills)
    requires forall i :: i in w.ledger.orders ==> w.ledger.orders[i].id == i
    ensures var l, s := w.ledger, Outcome(w.ledger, id);
            AllTallied(l.orders[id := s.order], FillsAfter(l, id), l.books.bills + s.bills)
  {
    hide Tallied, Outcome, FillsAfter, FairFills;
    var l, s := w.ledger, Outcome(w.ledger, id);
    forall other | other in l.orders && other != id
      ensures Tallied(l.orders[other], FillsAfter(l, id), l.books.bills + s.bills)
    {
      OthersTallied(l, id, other);
    }
    OwnTallied(l, id, placed);
  }

  lemma {:induction false} OwnTallied(l: Ledger, id: int, placed: map<int, BookOrder>)
    requires Settleable(l, id, placed)
    ensures Tallied(Outcome(l, id).order, FillsAfter(l, id), l.books.bills + Outcome(l, id).bills)
  {
    hide Outcome, FillsAfter, FairFills;
    OutcomeAmounts(l, id, placed);
    OutcomeMoves(l, id, placed, Payer(l.orders[id]), Base);
  }

  /** Executing fills keeps everything. */
  lemma {:induction false} FillStepKeeps(p: Product, deposits: Books, w: World, id: int)
    requires Inv(p, deposits, w)
    ensures Inv(p, deposits, FillStep(w, id))
  {
    var l, l' := w.ledger, FillStep(w, id).ledger;
    FillStepShape(w, id);
    if l' != l {
      hide FillStep, Outcome, FillsAfter, Tallied, Admitted, Matched, Piped, InOrder, HoldTo, MoneyTo, Stamped, SumSeq, Sum, Settleable;
      var placed := L.PlacedOrders(w.topic[..w.applied]);
      IsSettleable(p, deposits, w, id);
      FillKeepsAll(p, deposits, w, id, placed);
    }
  }

  lemma {:induction false} FillKeepsAll(p: Product, deposits: Books, w: World, id: int, placed: map<int, BookOrder>)
    requires Inv(p, deposits, w) && Settleable(w.ledger, id, placed)
    ensures var l, s := w.ledger, Outcome(w.ledger, id);
            Inv(p, deposits, w.(ledger := Ledger(l.books.(bills := l.books.bills + s.bills), l.orders[id := s.order], FillsAfter(l, id))))
  {
    hide Outcome, FillsAfter, Tallied, Admitted, Matched, Piped, InOrder, Opened, Audited, HoldTo, MoneyTo, Stamped, Settleable, FillsOf;
    SettleableParts(w.ledger, id, placed);
    var l, s := w.ledger, Outcome(w.ledger, id);
    OutcomeAmounts(l, id, placed);
    KnownAfter(w.topic, l.orders, s.order);
    AfterIsPiped(l, id, w.buffer, w.fillCh, w.market.logs, w.consumed);
    FillKeepsTallies(w, id, placed);
    AfterInOrder(l, id);
    GoodBillsConcat(l.books.bills, s.bills);
    NotedAfter(l, id);
    OpenedAfter(l.orders, w.market.logs[..w.consumed], s.order);
    FillAudits(deposits, l, id);
    FillMovesHold(deposits, l, id, placed);
    FillMovesMoney(w, id, placed, deposits);
  }

  lemma {:induction false} NotedAfter(l: Ledger, id: int)
    requires Noted(l.books.bills, l.orders) && id in l.orders && l.orders[id].id == id
    ensures Noted(l.books.bills + Outcome(l, id).bills, l.orders[id := Outcome(l, id).order])
  {
    NotesOf(l.orders[id], DueFills(l, id));
  }

  lemma {:induction false} OpenedAfter(orders: map<int, Order>, logs: seq<Log>, o: Order)
    requires Opened(orders, logs) && o.id in orders && !Ended(orders[o.id]) && (!Ended(o) ==> o.status == orders[o.id].status)
    ensures Opened(orders[o.id := o], logs)
  {
  }

  lemma {:induction false} SettleableParts(l: Ledger, id: int, placed: map<int, BookOrder>)
    requires Settleable(l, id, placed)
    ensures id in l.orders && l.orders[id].id == id && !Ended(l.orders[id])
  {
  }

  lemma {:induction false} AfterInOrder(l: Ledger, id: int)
    requires InOrder(l.fills)
    ensures InOrder(FillsAfter(l, id))
  {
    MarkKeepsOrder(l.fills, id, |DueFills(l, id)|);
  }

  lemma {:induction false} FillAudits(deposits: Books, l: Ledger, id: int)
    requires Audited(deposits, l.books) && id in l.orders
    ensures Audited(deposits, l.books.(bills := l.books.bills + Outcome(l, id).bills))
  {
    hide SettleAll, DueFills, Audited;
    NotesOf(l.orders[id], DueFills(l, id));
    var more := Outcome(l, id).bills;
    assert forall i :: 0 <= i < |more| ==> more[i] in more;
    UnsettledAudit(deposits, l.books, more);
  }

  lemma {:induction false} FillMovesHold(deposits: Books, l: Ledger, id: int, placed: map<int, BookOrder>)
    requires Settleable(l, id, placed) && Decomposed(deposits, l.books, l.orders)
    ensures var s := Outcome(l, id);
            Decomposed(deposits, l.books.(bills := l.books.bills + s.bills), l.orders[id := s.order])
  {
    hide Settleable, Outcome, FillsAfter, HoldTo, AvailableTo, MoneyTo, Stamped, ClaimOf, CreditOf;
    SettleableParts(l, id, placed);
    var s := Outcome(l, id);
    var books := l.books.(bills := l.books.bills + s.bills);
    forall owner
      ensures HoldAfterBills(books, owner) == Sum(l.orders[id := s.order], ClaimOf(owner))
      ensures AvailableAfterBills(books, owner) == AvailableOf(deposits.accounts, owner) + Sum(l.orders[id := s.order], CreditOf(owner))
    {
      OutcomeMoves(l, id, placed, owner, Base);
    }
  }

  lemma {:induction false} FillMovesMoney(w: World, id: int, placed: map<int, BookOrder>, deposits: Books)
    requires Settleable(w.ledger, id, placed) && Conserved(w, deposits)
    ensures var l, s := w.ledger, Outcome(w.ledger, id);
            Conserved(w.(ledger := Ledger(l.books.(bills := l.books.bills + s.bills), l.orders[id := s.order], FillsAfter(l, id))), deposits)
  {
    hide Settleable, Outcome, FillsAfter, HoldTo, MoneyTo, Stamped, ClaimOf, FillsOf;
    SettleableParts(w.ledger, id, placed);
    var l, s := w.ledger, Outcome(w.ledger, id);
    var w' := w.(ledger := Ledger(l.books.(bills := l.books.bills + s.bills), l.orders[id := s.order], FillsAfter(l, id)));
    forall currency
      ensures Money(w'.ledger.books, currency) + SumSeq(Pipeline(w'), Stamped(currency)) == Money(deposits, currency)
    {
      OutcomeMoves(l, id, placed, Owner(0, Base), currency);
      PipelineSum(w, currency);
      PipelineSum(w', currency);
    }
  }

  function OnTheWay(w: World): seq<Fill> {
    w.buffer + w.fillCh + (if w.consumed <= |w.market.logs| then FillsOf(w.market.logs[w.consumed..]) else [])
  }

  lemma {:induction false} PipelineSum(w: World, currency: Currency)
    ensures SumSeq(Pipeline(w), Stamped(currency)) == SumSeq(w.ledger.fills, Stamped(currency)) + SumSeq(OnTheWay(w), Stamped(currency))
  {
    hide FillsOf, Stamped;
    var rest := if w.consumed <= |w.market.logs| then FillsOf(w.market.logs[w.consumed..]) else [];
    assert w.ledger.fills + w.buffer + w.fillCh + rest == w.ledger.fills + (w.buffer + w.fillCh + rest);
    SumSeqConcat(w.ledger.fills, OnTheWay(w), Stamped(currency));
  }

  // ------------------------------------------------------- placing and cancelling

  lemma {:induction false} NoFillsYet(fills: seq<Fill>, id: int)
    requires forall i :: 0 <= i < |fills| ==> fills[i].orderId != id || !fills[i].settled
    ensures SumSeq(fills, SettledValue(id)) == 0 && SumSeq(fills, SettledSize(id)) == 0
    ensures SumSeq(fills, SettledEnd(id)) == 0 && SumSeq(fills, SettledCancel(id)) == 0
  {
    if fills != [] {
      var n := |fills| - 1;
      NoFillsYet(fills[..n], id);
      assert fills[n].orderId != id || !fills[n].settled;
    }
  }

  lemma {:induction false} NoBillsYet(bills: seq<Bill>, id: int)
    requires forall i :: 0 <= i < |bills| ==> bills[i].note != Some(id)
    ensures SumSeq(bills, NoteHold(id)) == 0
  {
    if bills != [] {
      var n := |bills| - 1;
      NoBillsYet(bills[..n], id);
      assert bills[n].note != Some(id);
    }
  }

  /** Fills in the table belong to orders of the ledger. */
  lemma {:induction false} FillsHaveOrders(p: Product, deposits: Books, w: World)
    requires Inv(p, deposits, w)
    ensures forall i :: 0 <= i < |w.ledger.fills| ==> w.ledger.fills[i].orderId in w.ledger.orders
    ensures FairFills(Unmarked(w.ledger.fills), L.PlacedOrders(w.topic[..w.applied]))
  {
    hide M.Run, Admitted, InOrder, Decomposed, Conserved, ValidBooks, Fair, SilentAfterDone, AllTallied;
    var placed := L.PlacedOrders(w.topic[..w.applied]);
    MarketFacts(p, w.topic, w.applied, w.market, w.ledger.orders);
    SettledWithinTraded(w.ledger.fills, w.buffer, w.fillCh, w.market.logs, w.consumed, placed, 0);
    forall i | 0 <= i < |w.ledger.fills|
      ensures w.ledger.fills[i].orderId in w.ledger.orders
    {
      assert FairFill(Unmarked(w.ledger.fills)[i], placed);
    }
  }

  lemma {:induction false} TopicGrows(p: Product, topic: seq<Command>, applied: nat, market: M.Applied, orders: map<int, Order>, o: Order)
    requires Matched(p, topic, applied, market) && Known(topic, orders) && o.id !in orders && Admitted(o)
    ensures Known(topic, orders[o.id := o])
    ensures var more := topic + [Place(ToBook(o))];
            Matched(p, more, applied, market) && Known(more, orders[o.id := o])
  {
    hide M.Run, Admitted;
    OneIsAdmitted(o);
    var more := topic + [Place(ToBook(o))];
    assert more[..applied] == topic[..applied];
    forall i | 0 <= i < |more| && more[i].Place?
      ensures more[i].order.id == o.id <==> i == |topic|
      ensures more[i].order.id in orders[o.id := o] && ToBook(orders[o.id := o][more[i].order.id]) == more[i].order
    {
      if i < |topic| {
        assert topic[i].order.id in orders;
      }
    }
    forall i, j | 0 <= i < j < |more| && more[i].Place? && more[j].Place?
      ensures more[i].order.id != more[j].order.id
    {
    }
  }

  lemma {:induction false} OneIsAdmitted(o: Order)
    requires Admitted(o)
    ensures ToBook(o).Sane()
  {
  }

  lemma {:induction false} HoldTallies(orders: map<int, Order>, fills: seq<Fill>, bills: seq<Bill>, bill: Bill, o: Order)
    requires AllTallied(orders, fills, bills) && (forall id :: id in orders ==> orders[id].id == id) && bill.note == None
    requires o.id !in orders && !Ended(o) && o.filledSize == 0 && o.executedValue == 0
    requires Noted(bills, orders) && forall i :: 0 <= i < |fills| ==> fills[i].orderId in orders
    ensures AllTallied(orders[o.id := o], fills, bills + [bill]) && Noted(bills + [bill], orders[o.id := o])
  {
    NoFillsYet(fills, o.id);
    NoBillsYet(bills, o.id);
    SumSeqAppend(bills, bill, NoteHold(o.id));
    forall id | id in orders
      ensures Tallied(orders[id], fills, bills + [bill])
    {
      SumSeqAppend(bills, bill, NoteHold(id));
    }
  }

  lemma {:induction false} HoldDecomposes(deposits: Books, books: Books, orders: map<int, Order>, o: Order)
    requires ValidBooks(books) && Decomposed(deposits, books, orders) && o.id !in orders
    requires !Ended(o) && o.filledSize == 0 && o.executedValue == 0
    requires HoldBalance(books, Payer(o), Reserve(o)).Held?
    ensures var books' := HoldBalance(books, Payer(o), Reserve(o)).books;
            ValidBooks(books') && Decomposed(deposits, books', orders[o.id := o])
  {
    hide HoldBalance, ValidBooks, Sum, SumSeq, HoldAfterBills, AvailableAfterBills, AvailableOf;
    var books' := HoldBalance(books, Payer(o), Reserve(o)).books;
    forall owner
      ensures ValidBooks(books') && HoldAfterBills(books', owner) == Sum(orders[o.id := o], ClaimOf(owner))
      ensures AvailableAfterBills(books', owner) == AvailableOf(deposits.accounts, owner) + Sum(orders[o.id := o], CreditOf(owner))
    {
      HoldMoves(books, Payer(o), Reserve(o), owner, Base);
      SumPut(orders, ClaimOf(owner), o.id, o);
      SumPut(orders, CreditOf(owner), o.id, o);
    }
    HoldMoves(books, Payer(o), Reserve(o), Payer(o), Base);
  }

  /** Placing an order keeps everything. */
  lemma {:induction false} PlaceStepKeeps(p: Product, deposits: Books, w: World, limits: Limits, r: Request, id: int, submitted: bool)
    requires Inv(p, deposits, w) && id !in w.ledger.orders
    ensures Inv(p, deposits, PlaceStep(w, p, limits, r, id, submitted))
  {
    var l := w.ledger;
    var placed := PlaceOrder(l.books, p, limits, r, id);
    if placed.Placed? {
      hide PlaceOrder, M.Run, Admitted, FairFill, Tallied, Matched, Known, Decomposed, AllTallied, Noted, InOrder, ValidBooks, Opened, Audited;
      var o := placed.order;
      PlacedIsAdmitted(l.books, p, limits, r, id);
      FillsHaveOrders(p, deposits, w);
      TopicGrows(p, w.topic, w.applied, w.market, l.orders, o);
      IdsMatch(w.topic, l.orders);
      HoldAppends(l.books, Payer(o), Reserve(o));
      ConservedHold(w, deposits, o, submitted);
      FreshAmounts(o, l.books, p, limits, r, id);
      HoldTallies(l.orders, l.fills, l.books.bills, placed.books.bills[|l.books.bills|], o);
      HoldDecomposes(deposits, l.books, l.orders, o);
      HoldAudits(deposits, l.books, Payer(o), Reserve(o));
      NotOpenedYet(p, w.topic, w.applied, w.market, l.orders, id, w.consumed);
      OpenedMore(l.orders, w.market.logs[..w.consumed], o);
    }
  }

  /** An order that was not placed has no entries. */
  lemma {:induction false} NotOpenedYet(p: Product, topic: seq<Command>, applied: nat, market: M.Applied, orders: map<int, Order>,
                                        id: int, consumed: nat)
    requires Matched(p, topic, applied, market) && Known(topic, orders) && id !in orders && consumed <= |market.logs|
    ensures !OpenedIn(market.logs[..consumed], id)
  {
    hide M.Run;
    MarketFacts(p, topic, applied, market, orders);
    forall i | 0 <= i < consumed && market.logs[i].OpenLog?
      ensures market.logs[i].orderId in orders
    {
      assert FairEntry(market.logs[i], L.PlacedOrders(topic[..applied]));
    }
  }

  lemma {:induction false} OpenedMore(orders: map<int, Order>, logs: seq<Log>, o: Order)
    requires Opened(orders, logs) && o.status.StatusNew? && !OpenedIn(logs, o.id)
    ensures Opened(orders[o.id := o], logs)
  {
  }

  lemma {:induction false} FreshAmounts(o: Order, b: Books, p: Product, limits: Limits, r: Request, id: int)
    requires PlaceOrder(b, p, limits, r, id).Placed? && o == PlaceOrder(b, p, limits, r, id).order
    ensures o.filledSize == 0 && o.executedValue == 0 && o.status.StatusNew?
  {
  }

  lemma {:induction false} HoldAppends(b: Books, owner: Owner, size: int)
    requires HoldBalance(b, owner, size).Held?
    ensures var bills := HoldBalance(b, owner, size).books.bills;
            |bills| == |b.bills| + 1 && bills == b.bills + [bills[|b.bills|]] && bills[|b.bills|].note == None
  {
  }

  lemma {:induction false} IdsMatch(topic: seq<Command>, orders: map<int, Order>)
    requires Known(topic, orders)
    ensures forall id :: id in orders ==> orders[id].id == id
  {
  }

  lemma {:induction false} ConservedHold(w: World, deposits: Books, o: Order, submitted: bool)
    requires Conserved(w, deposits) && ValidBooks(w.ledger.books)
    requires HoldBalance(w.ledger.books, Payer(o), Reserve(o)).Held?
    ensures var w' := w.(ledger := Ledger(HoldBalance(w.ledger.books, Payer(o), Reserve(o)).books, w.ledger.orders[o.id := o], w.ledger.fills));
            Conserved(w', deposits)
            && Conserved(w'.(topic := if submitted then w.topic + [Place(ToBook(o))] else w.topic), deposits)
  {
    hide HoldBalance, ValidBooks, FillsOf, Stamped, SumSeq, Money;
    forall currency
      ensures Money(HoldBalance(w.ledger.books, Payer(o), Reserve(o)).books, currency) == Money(w.ledger.books, currency)
    {
      HoldMoves(w.ledger.books, Payer(o), Reserve(o), Payer(o), currency);
    }
  }

  /** So does asking for a cancel. */
  lemma {:induction false} CancelStepKeeps(p: Product, deposits: Books, w: World, id: int)
    requires Inv(p, deposits, w)
    ensures Inv(p, deposits, CancelStep(w, id))
  {
    hide M.Run, Admitted, InOrder, Decomposed, ValidBooks, AllTallied, Piped, Noted, FillsOf, Stamped;
    var more := CancelStep(w, id).topic;
    assert more[..w.applied] == w.topic[..w.applied];
  }

  // ------------------------------------------------------- matching, consuming, flushing

  lemma {:induction false} MatchStepKeeps(p: Product, deposits: Books, w: World)
    requires Inv(p, deposits, w) && w.applied < |w.topic| && M.CanExecute(w.market.book, w.topic[w.applied])
    ensures Inv(p, deposits, MatchStep(w))
  {
    hide Admitted, InOrder, Decomposed, ValidBooks, AllTallied, Noted, Stamped, M.Execute, M.CanExecute, Known, Unmarked, FillsOf;
    var logs, more := w.market.logs, M.Execute(w.market.book, w.topic[w.applied]).logs;
    assert w.topic[..w.applied + 1][..w.applied] == w.topic[..w.applied];
    assert (logs + more)[..w.consumed] == logs[..w.consumed];
    assert (logs + more)[w.consumed..] == logs[w.consumed..] + more;
    FillsConcat(logs[w.consumed..], more);
    forall currency
      ensures SumSeq(Pipeline(MatchStep(w)), Stamped(currency)) == SumSeq(Pipeline(w), Stamped(currency))
    {
      FillsCancel(more, currency);
      assert Pipeline(MatchStep(w)) == Pipeline(w) + FillsOf(more);
      SumSeqConcat(Pipeline(w), FillsOf(more), Stamped(currency));
    }
  }

  lemma {:induction false} AfterLogKeeps(deposits: Books, orders: map<int, Order>, log: Log, topic: seq<Command>, fills: seq<Fill>, books: Books)
    requires Known(topic, orders) && AllTallied(orders, fills, books.bills) && Decomposed(deposits, books, orders) && Noted(books.bills, orders)
    ensures var orders' := AfterLog(orders, log);
            Known(topic, orders') && AllTallied(orders', fills, books.bills) && Decomposed(deposits, books, orders') && Noted(books.bills, orders')
  {
    var orders' := AfterLog(orders, log);
    if orders' != orders {
      var o := orders'[log.orderId];
      KnownAfter(topic, orders, o);
      assert Tallied(orders[log.orderId], fills, books.bills);
      forall owner
        ensures Sum(orders', ClaimOf(owner)) == Sum(orders, ClaimOf(owner)) && Sum(orders', CreditOf(owner)) == Sum(orders, CreditOf(owner))
      {
        SumPut(orders, ClaimOf(owner), log.orderId, o);
        SumPut(orders, CreditOf(owner), log.orderId, o);
      }
    }
  }

  lemma {:induction false} OpenedByLog(orders: map<int, Order>, logs: seq<Log>, consumed: nat)
    requires consumed < |logs| && Opened(orders, logs[..consumed])
    ensures Opened(AfterLog(orders, logs[consumed]), logs[..consumed + 1])
  {
    var before, after := logs[..consumed], logs[..consumed + 1];
    assert after == before + [logs[consumed]];
    forall id
      ensures OpenedIn(after, id) <==> OpenedIn(before, id) || (logs[consumed].OpenLog? && logs[consumed].orderId == id)
    {
      if OpenedIn(before, id) {
        var i :| 0 <= i < |before| && before[i].OpenLog? && before[i].orderId == id;
        assert after[i] == before[i];
      }
      assert after[consumed] == logs[consumed];
      if OpenedIn(after, id) {
        var i :| 0 <= i < |after| && after[i].OpenLog? && after[i].orderId == id;
        assert i < consumed ==> before[i] == after[i];
      }
    }
  }

  lemma {:induction false} ConsumeMoves(fills: seq<Fill>, buffer: seq<Fill>, fillCh: seq<Fill>, logs: seq<Log>, consumed: nat)
    requires Piped(fills, buffer, fillCh, logs, consumed) && consumed < |logs|
    ensures Piped(fills, buffer, fillCh + FillsOfLog(logs[consumed]), logs, consumed + 1)
    ensures fills + buffer + fillCh + FillsOf(logs[consumed..])
            == fills + buffer + (fillCh + FillsOfLog(logs[consumed])) + FillsOf(logs[consumed + 1..])
  {
    hide FillsOfLog;
    var log := logs[consumed];
    assert logs[..consumed + 1] == logs[..consumed] + [log];
    FillsConcat(logs[..consumed], [log]);
    assert logs[consumed..] == [log] + logs[consumed + 1..];
    FillsConcat([log], logs[consumed + 1..]);
    FillsOfOne(log);
    JoinFills(Unmarked(fills) + buffer, fillCh, FillsOfLog(log));
    JoinFills(fills + buffer + fillCh, FillsOfLog(log), FillsOf(logs[consumed + 1..]));
    JoinFills(fills + buffer, fillCh, FillsOfLog(log));
  }

  lemma {:induction false} JoinFills(a: seq<Fill>, b: seq<Fill>, c: seq<Fill>)
    ensures a + b + c == a + (b + c)
  {
  }

  lemma {:induction false} ConsumeStepKeeps(p: Product, deposits: Books, w: World)
    requires Inv(p, deposits, w) && w.consumed < |w.market.logs|
    ensures Inv(p, deposits, ConsumeStep(w))
  {
    hide Matched, Known, AllTallied, Decomposed, InOrder, ValidBooks, Noted, AfterLog, FillsOfLog, FillsOf, Stamped, Piped;
    OpenedByLog(w.ledger.orders, w.market.logs, w.consumed);
    AfterLogKeeps(deposits, w.ledger.orders, w.market.logs[w.consumed], w.topic, w.ledger.fills, w.ledger.books);
    ConsumeMoves(w.ledger.fills, w.buffer, w.fillCh, w.market.logs, w.consumed);
  }

  lemma {:induction false} FillsUnsettled(logs: seq<Log>)
    ensures forall i :: 0 <= i < |FillsOf(logs)| ==> !FillsOf(logs)[i].settled
    decreases |logs|
  {
    if logs != [] {
      FillsUnsettled(logs[..|logs| - 1]);
    }
  }

  lemma {:induction false} UnmarkedConcat(a: seq<Fill>, b: seq<Fill>)
    requires forall i :: 0 <= i < |b| ==> !b[i].settled
    ensures Unmarked(a + b) == Unmarked(a) + b
  {
    forall i | 0 <= i < |a + b|
      ensures Unmarked(a + b)[i] == (Unmarked(a) + b)[i]
    {
    }
  }

  /** Storing new fills, none settled. */
  lemma {:induction false} StoreKeeps(orders: map<int, Order>, fills: seq<Fill>, bills: seq<Bill>, more: seq<Fill>)
    requires AllTallied(orders, fills, bills) && InOrder(fills) && forall i :: 0 <= i < |more| ==> !more[i].settled
    ensures AllTallied(orders, fills + more, bills) && InOrder(fills + more)
  {
    forall id | id in orders
      ensures Tallied(orders[id], fills + more, bills)
    {
      NoFillsYet(more, orders[id].id);
      SumSeqConcat(fills, more, SettledValue(orders[id].id));
      SumSeqConcat(fills, more, SettledSize(orders[id].id));
      SumSeqConcat(fills, more, SettledEnd(orders[id].id));
      SumSeqConcat(fills, more, SettledCancel(orders[id].id));
    }
  }

  lemma {:induction false} FlushMoves(fills: seq<Fill>, buffer: seq<Fill>, fillCh: seq<Fill>, logs: seq<Log>, consumed: nat)
    requires Piped(fills, buffer, fillCh, logs, consumed) && fillCh != []
    ensures var r := Flush(buffer, fillCh[0], |fillCh| - 1);
            && Piped(fills + r.stored, r.buffer, fillCh[1..], logs, consumed)
            && (forall i :: 0 <= i < |r.stored| ==> !r.stored[i].settled)
            && fills + r.stored + r.buffer + fillCh[1..] == fills + buffer + fillCh
  {
    hide FillsOf;
    var r := Flush(buffer, fillCh[0], |fillCh| - 1);
    var head, rest := [fillCh[0]], fillCh[1..];
    assert fillCh == head + rest;
    FillsUnsettled(logs[..consumed]);
    var all := Unmarked(fills) + buffer + fillCh;
    forall i | 0 <= i < |buffer + head|
      ensures !(buffer + head)[i].settled
    {
      assert (buffer + head)[i] == all[|fills| + i];
    }
    UnmarkedConcat(fills, r.stored);
    JoinFills(Unmarked(fills) + buffer, head, rest);
    JoinFills(Unmarked(fills), buffer, head);
    JoinFills(fills + buffer, head, rest);
    JoinFills(fills, buffer, head);
    NoneRight(Unmarked(fills) + (buffer + head));
    NoneRight(fills);
    NoneRight(fills + (buffer + head));
  }

  lemma {:induction false} NoneRight(a: seq<Fill>)
    ensures a + [] == a
  {
  }

  lemma {:induction false} FlushStepKeeps(p: Product, deposits: Books, w: World)
    requires Inv(p, deposits, w) && w.fillCh != []
    ensures Inv(p, deposits, FlushStep(w))
  {
    hide Matched, Known, AllTallied, Decomposed, InOrder, ValidBooks, Noted, Flush, FillsOf, Stamped, Piped;
    var r := Flush(w.buffer, w.fillCh[0], |w.fillCh| - 1);
    FlushMoves(w.ledger.fills, w.buffer, w.fillCh, w.market.logs, w.consumed);
    StoreKeeps(w.ledger.orders, w.ledger.fills, w.ledger.books.bills, r.stored);
    assert Pipeline(FlushStep(w)) == Pipeline(w);
  }

  // ------------------------------------------------------- booking bills

  function NoHold(): Bill -> int {
    (b: Bill) => 0
  }

  lemma {:induction false} SumNoHold(bills: seq<Bill>)
    ensures SumSeq(bills, NoHold()) == 0
  {
    if bills != [] {
      SumNoHold(bills[..|bills| - 1]);
    }
  }

  lemma {:induction false} BookingKeepsNotes(b: Books, owner: Owner, orders: map<int, Order>, fills: seq<Fill>)
    requires AllTallied(orders, fills, b.bills) && Noted(b.bills, orders)
    ensures AllTallied(orders, fills, ExecuteBill(b, owner).bills) && Noted(ExecuteBill(b, owner).bills, orders)
  {
    var due := DueBills(b, owner);
    if due != [] {
      DueIsPrefix(b, owner);
      var bills := ExecuteBill(b, owner).bills;
      forall id | id in orders
        ensures Tallied(orders[id], fills, bills)
      {
        MarkSum(b.bills, Unsettled(owner), Settle(), |due|, NoteHold(orders[id].id), NoHold());
        SumNoHold(Select(b.bills, Unsettled(owner))[..|due|]);
      }
      forall i | 0 <= i < |bills|
        ensures bills[i].note == b.bills[i].note
      {
        MarkAt(b.bills, Unsettled(owner), Settle(), |due|, i);
      }
    }
  }

  lemma {:induction false} BillStepKeeps(p: Product, deposits: Books, w: World, owner: Owner)
    requires Inv(p, deposits, w)
    ensures Inv(p, deposits, BillStep(w, owner))
  {
    hide Matched, Known, AllTallied, InOrder, ValidBooks, Noted, ExecuteBill, FillsOf, Stamped, Piped, Opened, Audited, Money, HoldAfterBills, AvailableAfterBills, AvailableOf, Sum, SumSeq;
    var b := w.ledger.books;
    BookingKeepsNotes(b, owner, w.ledger.orders, w.ledger.fills);
    forall other
      ensures HoldAfterBills(ExecuteBill(b, owner), other) == HoldAfterBills(b, other)
      ensures AvailableAfterBills(ExecuteBill(b, owner), other) == AvailableAfterBills(b, other)
    {
      BookingMoves(b, owner, other, Base);
    }
    forall currency
      ensures Money(ExecuteBill(b, owner), currency) == Money(b, currency)
    {
      BookingMoves(b, owner, owner, currency);
    }
    BookingMoves(b, owner, owner, Base);
    BookingAudits(deposits, b, owner);
  }

  // ------------------------------------------------------- every run

  ghost predicate Execution(p: Product, limits: Limits, books: Books, run: seq<World>) {
    run != [] && run[0] == Start(p, books) && forall i :: 0 <= i < |run| - 1 ==> Steps(p, limits, run[i], run[i + 1])
  }

  /** Deposits: accounts with nothing held and no bills. */
  ghost predicate Deposits(books: Books) {
    ValidBooks(books) && books.bills == [] && forall o :: o in books.accounts ==> books.accounts[o].hold == 0
  }

  lemma {:induction false} StartBalances(books: Books)
    requires Deposits(books)
    ensures Decomposed(books, books, map[]) && Audited(books, books)
  {
    var none: map<int, Order> := map[];
    forall owner
      ensures Sum(none, ClaimOf(owner)) == 0 && Sum(none, CreditOf(owner)) == 0 && HoldOf(books.accounts, owner) == 0
    {
    }
  }

  lemma {:induction false} StartKeeps(p: Product, books: Books)
    requires ScaleOk(p) && Deposits(books)
    ensures Inv(p, books, Start(p, books))
  {
    hide Sum, Money, HoldAfterBills, AvailableAfterBills, Stamped, HoldTo, AvailableTo, BookedHold, BookedAvailable;
    StartBalances(books);
    var w := Start(p, books);
    assert Pipeline(w) == [];
  }

  lemma {:induction false} StepKeeps(p: Product, limits: Limits, deposits: Books, w: World, w': World)
    requires Inv(p, deposits, w) && Steps(p, limits, w, w')
    ensures Inv(p, deposits, w')
  {
    hide Inv, PlaceStep, CancelStep, MatchStep, ConsumeStep, FlushStep, FillStep, BillStep, M.CanExecute;
    if r, id, submitted :| id !in w.ledger.orders && w' == PlaceStep(w, p, limits, r, id, submitted) {
      PlaceStepKeeps(p, deposits, w, limits, r, id, submitted);
    } else if id :| w' == CancelStep(w, id) {
      CancelStepKeeps(p, deposits, w, id);
    } else if w.applied < |w.topic| && M.CanExecute(w.market.book, w.topic[w.applied]) && w' == MatchStep(w) {
      MatchStepKeeps(p, deposits, w);
    } else if w.consumed < |w.market.logs| && w' == ConsumeStep(w) {
      ConsumeStepKeeps(p, deposits, w);
    } else if w.fillCh != [] && w' == FlushStep(w) {
      FlushStepKeeps(p, deposits, w);
    } else if id :| w' == FillStep(w, id) {
      FillStepKeeps(p, deposits, w, id);
    } else {
      var owner :| w' == BillStep(w, owner);
      BillStepKeeps(p, deposits, w, owner);
    }
  }

  /** Whatever is placed, cancelled, matched, settled and booked, in any order and at any prices, every world of every
      run satisfies the invariant. */
  lemma {:induction false} AlwaysBalanced(p: Product, limits: Limits, deposits: Books, run: seq<World>, i: nat)
    requires ScaleOk(p) && Deposits(deposits) && Execution(p, limits, deposits, run) && i < |run|
    ensures Inv(p, deposits, run[i])
  {
    hide Inv, Steps, Deposits;
    if i == 0 {
      StartKeeps(p, deposits);
    } else {
      AlwaysBalanced(p, limits, deposits, run, i - 1);
      StepKeeps(p, limits, deposits, run[i - 1], run[i]);
    }
  }
}
