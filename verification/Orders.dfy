/** The order service: placing an order holds its amount, executing its fills turns the hold into bills. */
module Orders {
  import opened Types
  import opened Sums
  import opened Tables
  import opened Accounts

  datatype Status = StatusNew | StatusOpen | StatusFilled | StatusCancelled

  datatype Order = Order(id: int, user: int, side: Side, kind: OrderType, size: int, funds: int, price: int,
                         status: Status, filledSize: int, executedValue: int)

  /** A row of the fill table: one side of a trade, or the end of an order. */
  datatype Fill =
    | TradeFill(messageSeq: int, orderId: int, settled: bool, tradeId: int, size: int, price: int, side: Side, taker: bool)
    | DoneFill(messageSeq: int, orderId: int, settled: bool, remainingSize: int, reason: DoneReason)

  datatype Ledger = Ledger(books: Books, orders: map<int, Order>, fills: seq<Fill>)

  // ------------------------------------------------------- placing

  datatype RequestedType = RequestLimit | RequestMarket | RequestOther

  /** Amounts as the user gives them, any real number of ticks: base ticks, price ticks and quote ticks. */
  datatype Request = Request(user: int, kind: RequestedType, side: Side, size: real, price: real, funds: real)

  /** The product's smallest size and smallest funds, in base and quote ticks. */
  datatype Limits = Limits(baseMin: real, quoteMin: real)

  datatype Shaped = Shaped(kind: OrderType, size: int, price: int, funds: int) | UnknownType | SizeTooSmall | NegativePrice | FundsTooSmall

  datatype Placed = Placed(order: Order, books: Books) | Malformed(reason: Shaped) | Refused(reply: Held)

  /** decimal.Round to whole ticks: to the nearest, a half away from zero. */
  function Round(x: real): (r: int)
    ensures -0.5 <= r as real - x <= 0.5
    ensures r as real - x == 0.5 ==> x > 0.0
    ensures r as real - x == -0.5 ==> x < 0.0
  {
    if x >= 0.0 then (x + 0.5).Floor else -((0.5 - x).Floor)
  }

  /** The rounded amounts of a request, or why it is malformed. */
  function Shape(p: Product, limits: Limits, r: Request): Shaped {
    var size := Round(r.size);
    match r.kind
    case RequestLimit =>
      var price := Round(r.price);
      if size as real < limits.baseMin then SizeTooSmall
      else if price < 0 then NegativePrice
      else Shaped(Limit, size, price, size * price)
    case RequestMarket =>
      if r.side.Buy? then
        var funds := Round(r.funds);
        if funds as real < limits.quoteMin then FundsTooSmall else Shaped(Market, 0, 0, funds * Pow10(p.baseScale))
      else if size as real < limits.baseMin then SizeTooSmall
      else Shaped(Market, size, 0, 0)
    case RequestOther => UnknownType
  }

  function HoldCurrency(o: Order): Currency {
    if o.side.Buy? then Quote else Base
  }

  function Payer(o: Order): Owner {
    Owner(o.user, HoldCurrency(o))
  }

  /** What placing holds, and how much of it settled fills used. */
  function Reserve(o: Order): int {
    if o.side.Buy? then o.funds else o.size
  }

  function Used(o: Order): int {
    if o.side.Buy? then o.executedValue else o.filledSize
  }

  predicate Ended(o: Order) {
    o.status.StatusFilled? || o.status.StatusCancelled?
  }

  function PlaceOrder(b: Books, p: Product, limits: Limits, r: Request, id: int): Placed {
    var s := Shape(p, limits, r);
    if !s.Shaped? then Malformed(s)
    else
      var order := Order(id, r.user, r.side, s.kind, s.size, s.funds, s.price, StatusNew, 0, 0);
      var held := HoldBalance(b, Payer(order), Reserve(order));
      if held.Held? then Placed(order, held.books) else Refused(held)
  }

  /** The order as it goes to the matching engine. */
  function ToBook(o: Order): BookOrder {
    BookOrder(o.id, o.size, o.funds, o.price, o.side, o.kind)
  }

  /** An admitted order: nothing negative, something to hold, funds that cover a limit order exactly. */
  ghost predicate Admitted(o: Order) {
    && ToBook(o).Sane() && Reserve(o) > 0
    && (o.kind.Limit? ==> o.size > 0 && o.funds == o.size * o.price)
    && (o.kind.Market? && o.side.Buy? ==> o.size == 0 && o.price == 0 && o.funds > 0)
    && (o.kind.Market? && o.side.Sell? ==> o.size > 0 && o.funds == 0 && o.price == 0)
  }

  lemma {:induction false} SignOfProduct(a: int, b: int)
    requires a * b > 0 && b >= 0
    ensures a > 0 && b > 0
  {
    if a <= 0 {
      NonPositive(a, b);
    }
  }

  lemma {:induction false} NonPositive(a: int, b: int)
    requires a <= 0 <= b
    ensures a * b <= 0
  {
  }

  lemma {:induction false} SignOfFactor(a: int, b: int)
    requires a >= 0 && b >= 0
    ensures a * b >= 0
  {
  }

  /** Whatever the configured limits are, an order that is placed is one the matching engine takes; its hold comes out
      of money the user has. */
  lemma {:induction false} PlacedIsAdmitted(b: Books, p: Product, limits: Limits, r: Request, id: int)
    requires ValidBooks(b) && PlaceOrder(b, p, limits, r, id).Placed?
    ensures var placed := PlaceOrder(b, p, limits, r, id);
            && Admitted(placed.order) && placed.order.id == id && placed.order.user == r.user && placed.order.side == r.side
            && !Ended(placed.order) && Used(placed.order) == 0
            && HoldBalance(b, Payer(placed.order), Reserve(placed.order)) == Held(placed.books)
            && Reserve(placed.order) <= b.accounts[Payer(placed.order)].available
  {
    var o := PlaceOrder(b, p, limits, r, id).order;
    if o.kind.Limit? {
      if o.side.Buy? {
        SignOfProduct(o.size, o.price);
      } else {
        SignOfFactor(o.size, o.price);
      }
    } else if o.side.Buy? {
      SignOfProduct(Round(r.funds), Pow10(p.baseScale));
    }
  }

  /** The whole number of ticks nearest to an amount, a half away from zero. */
  ghost predicate Nearest(x: real, n: int) {
    && -0.5 <= n as real - x <= 0.5
    && (n as real - x == 0.5 ==> x > 0.0) && (n as real - x == -0.5 ==> x < 0.0)
  }

  lemma {:induction false} OneNearest(x: real, n: int)
    ensures Nearest(x, n) <==> n == Round(x)
  {
  }

  /** Why a request is turned away before money is looked at, the checks in their order. */
  ghost predicate TurnedAway(limits: Limits, r: Request, why: Shaped) {
    match why
    case UnknownType => r.kind.RequestOther?
    case SizeTooSmall =>
      (r.kind.RequestLimit? || (r.kind.RequestMarket? && r.side.Sell?)) && exists n: int :: Nearest(r.size, n) && n as real < limits.baseMin
    case NegativePrice =>
      && r.kind.RequestLimit? && (exists n: int :: Nearest(r.size, n) && n as real >= limits.baseMin)
      && exists n: int :: Nearest(r.price, n) && n < 0
    case FundsTooSmall =>
      r.kind.RequestMarket? && r.side.Buy? && exists n: int :: Nearest(r.funds, n) && n as real < limits.quoteMin
    case Shaped(_, _, _, _) => false
  }

  /** The amounts a user asked for, as far as the kind of order takes them. */
  ghost predicate AsRequested(p: Product, r: Request, o: Order) {
    && o.user == r.user && o.side == r.side
    && (o.kind.Limit? <==> r.kind.RequestLimit?) && (o.kind.Market? <==> r.kind.RequestMarket?)
    && (if o.kind.Market? && o.side.Buy? then o.size == 0 else Nearest(r.size, o.size))
    && (if o.kind.Limit? then Nearest(r.price, o.price) else o.price == 0)
    && (if o.kind.Limit? then o.funds == o.size * o.price
        else if o.side.Sell? then o.funds == 0
        else exists n: int :: Nearest(r.funds, n) && o.funds == n * Pow10(p.baseScale))
  }

  /** A request ends in exactly one of three ways, told by the request, the limits and the payer's available money:
      turned away for the first check that fails; refused, because its amounts hold nothing or more than there is; or
      placed, as requested. */
  lemma {:induction false} PlacedAsRequested(b: Books, p: Product, limits: Limits, r: Request, id: int)
    ensures var placed := PlaceOrder(b, p, limits, r, id);
            && (placed.Malformed? <==> exists why :: TurnedAway(limits, r, why))
            && (placed.Malformed? ==> TurnedAway(limits, r, placed.reason))
            && (placed.Placed? ==> AsRequested(p, r, placed.order) && placed.order.id == id && placed.order.status.StatusNew?
                                   && placed.order.filledSize == 0 && placed.order.executedValue == 0)
    ensures var placed := PlaceOrder(b, p, limits, r, id);
            placed.Refused? <==>
              (forall why :: !TurnedAway(limits, r, why))
              && exists o :: AsRequested(p, r, o) && (Reserve(o) <= 0 || Payer(o) !in b.accounts
                                                      || b.accounts[Payer(o)].available < Reserve(o))
    ensures var placed := PlaceOrder(b, p, limits, r, id);
            placed.Refused? ==>
              exists o :: AsRequested(p, r, o) && placed.reply == if Reserve(o) <= 0 then NotPositive else NotEnough
  {
    OneNearest(r.size, Round(r.size));
    OneNearest(r.price, Round(r.price));
    OneNearest(r.funds, Round(r.funds));
    forall n: int | Nearest(r.size, n) ensures n == Round(r.size) { OneNearest(r.size, n); }
    forall n: int | Nearest(r.price, n) ensures n == Round(r.price) { OneNearest(r.price, n); }
    forall n: int | Nearest(r.funds, n) ensures n == Round(r.funds) { OneNearest(r.funds, n); }
    hide Nearest, Round;
    var s := Shape(p, limits, r);
    if !s.Shaped? {
      assert TurnedAway(limits, r, s);
    } else {
      var o := Order(id, r.user, r.side, s.kind, s.size, s.funds, s.price, StatusNew, 0, 0);
      assert AsRequested(p, r, o);
      forall o' | AsRequested(p, r, o')
        ensures Reserve(o') == Reserve(o) && Payer(o') == Payer(o)
      {
      }
    }
  }

  /** A limit order to sell for nothing is placed like any other. */
  lemma {:induction false} SellForNothingIsPlaced(user: int, id: int, p: Product)
    ensures var b := Books(map[Owner(user, Base) := Account(Owner(user, Base), 1, 0)], []);
            var r := Request(user, RequestLimit, Sell, 1.0, 0.0, 0.0);
            var placed := PlaceOrder(b, p, Limits(1.0, 1.0), r, id);
            placed.Placed? && placed.order.price == 0 && placed.order.kind.Limit?
  {
    assert Round(1.0) == 1 && Round(0.0) == 0;
  }

  // ------------------------------------------------------- executing fills

  const FILL_LIMIT := 100

  function Value(f: Fill): int {
    if f.TradeFill? then f.size * f.price else 0
  }

  function Size(f: Fill): int {
    if f.TradeFill? then f.size else 0
  }

  datatype Settled = Settled(order: Order, bills: seq<Bill>)

  function Delayed(user: int, currency: Currency, available: int, hold: int, id: int): Bill {
    Bill(Owner(user, currency), available, hold, false, Some(id))
  }

  function SettleOne(o: Order, f: Fill): Settled {
    if f.TradeFill? then
      var o' := o.(executedValue := o.executedValue + Value(f), filledSize := o.filledSize + f.size);
      if o.side.Buy? then
        Settled(o', [Delayed(o.user, Base, f.size, 0, o.id), Delayed(o.user, Quote, 0, -Value(f), o.id)])
      else
        Settled(o', [Delayed(o.user, Base, 0, -f.size, o.id), Delayed(o.user, Quote, Value(f), 0, o.id)])
    else
      var left := Reserve(o) - Used(o);
      Settled(o.(status := if f.reason.Cancelled? then StatusCancelled else StatusFilled),
              if left > 0 then [Delayed(o.user, HoldCurrency(o), left, -left, o.id)] else [])
  }

  function SettleAll(o: Order, fills: seq<Fill>): Settled {
    if fills == [] then Settled(o, [])
    else
      var before := SettleAll(o, fills[..|fills| - 1]);
      var last := SettleOne(before.order, fills[|fills| - 1]);
      Settled(last.order, before.bills + last.bills)
  }

  /** How many fills the loop visits: it stops after the one that ends the order. */
  function Visited(fills: seq<Fill>): (k: nat)
    ensures k <= |fills|
    ensures forall i :: 0 <= i < k - 1 ==> fills[i].TradeFill?
    ensures k < |fills| ==> k > 0 && fills[k - 1].DoneFill?
  {
    if fills == [] then 0
    else if fills[0].DoneFill? then 1
    else 1 + Visited(fills[1..])
  }

  function Pending(id: int): Fill -> bool {
    (f: Fill) => !f.settled && f.orderId == id
  }

  function Settling(): Fill -> Fill {
    (f: Fill) => f.(settled := true)
  }

  /** The order's first hundred unsettled fills, up to the one that ends it. */
  function DueFills(l: Ledger, id: int): (r: seq<Fill>)
    ensures |r| <= |Select(l.fills, Pending(id))|
    ensures r == Select(l.fills, Pending(id))[..|r|]
    ensures forall i :: 0 <= i < |r| - 1 ==> r[i].TradeFill?
    ensures |r| < |Select(l.fills, Pending(id))| ==> |r| == FILL_LIMIT || (|r| > 0 && r[|r| - 1].DoneFill?)
  {
    var all := Select(l.fills, Pending(id));
    var read := if |all| <= FILL_LIMIT then all else all[..FILL_LIMIT];
    read[..Visited(read)]
  }

  datatype Executed = Executed(ledger: Ledger) | NotFound | AlreadyEnded

  function ExecuteFill(l: Ledger, id: int): Executed {
    if id !in l.orders then NotFound
    else if Ended(l.orders[id]) then AlreadyEnded
    else
      var due := DueFills(l, id);
      if due == [] then Executed(l)
      else
        var s := SettleAll(l.orders[id], due);
        Executed(Ledger(l.books.(bills := l.books.bills + s.bills), l.orders[id := s.order],
                        Mark(l.fills, Pending(id), Settling(), |due|)))
  }

  // ------------------------------------------------------- what settling moves

  /** What an order's bills take from hold: what it used and, once it has ended, the unused rest. */
  function Taken(o: Order): int {
    if Ended(o) && Used(o) < Reserve(o) then Reserve(o) else Used(o)
  }

  /** What an order leaves in its payer's hold, less what it takes beyond its reserve. */
  function ClaimOf(owner: Owner): Order -> int {
    (o: Order) => if Payer(o) == owner then Reserve(o) - Taken(o) else 0
  }

  /** What an order has brought an owner: a buyer the base bought, a seller the quote sold for. */
  function Earned(o: Order, owner: Owner): int {
    if o.side.Buy? && owner == Owner(o.user, Base) then o.filledSize
    else if o.side.Sell? && owner == Owner(o.user, Quote) then o.executedValue
    else 0
  }

  /** What goes back to the payer when an order has ended. */
  function Released(o: Order): int {
    if Ended(o) && Used(o) < Reserve(o) then Reserve(o) - Used(o) else 0
  }

  /** What an order changes in what an owner can use: the reserve goes, earnings come, the rest comes back. */
  function CreditOf(owner: Owner): Order -> int {
    (o: Order) => Earned(o, owner) + (if Payer(o) == owner then Released(o) - Reserve(o) else 0)
  }

  /** What an unsettled fill will change in the money of a currency, for an order of the given side. */
  function EffectOn(side: Side, f: Fill, currency: Currency): int {
    if f.DoneFill? then 0
    else
      match currency
      case Base => if side.Buy? then f.size else -f.size
      case Quote => if side.Buy? then -Value(f) else Value(f)
  }

  ghost predicate SameOrder(o: Order, o': Order) {
    o' == o.(status := o'.status, filledSize := o'.filledSize, executedValue := o'.executedValue)
  }

  ghost predicate GoodBills(bills: seq<Bill>) {
    forall i :: 0 <= i < |bills| && !bills[i].settled ==> bills[i].available >= 0 && bills[i].hold <= 0
  }

  function NoteHold(id: int): Bill -> int {
    (b: Bill) => if b.note == Some(id) then b.hold else 0
  }

  lemma {:induction false} SumOne<T>(x: T, f: T -> int)
    ensures SumSeq([x], f) == f(x)
  {
    assert [x][..0] == [];
    assert SumSeq([x], f) == SumSeq([x][..0], f) + f([x][0]);
  }

  lemma {:induction false} SumTwo<T>(x: T, y: T, f: T -> int)
    ensures SumSeq([x, y], f) == f(x) + f(y)
  {
    assert [x, y] == [x] + [y];
    SumSeqAppend([x], y, f);
    SumOne(x, f);
  }

  lemma {:induction false} OneAmounts(o: Order, f: Fill)
    requires !Ended(o) && (f.TradeFill? ==> f.size >= 0 && f.price >= 0)
    ensures var s := SettleOne(o, f);
            && SameOrder(o, s.order) && GoodBills(s.bills) && (Ended(s.order) <==> f.DoneFill?)
            && s.order.executedValue == o.executedValue + Value(f) && s.order.filledSize == o.filledSize + Size(f)
            && (f.TradeFill? ==> s.order.status == o.status)
            && (f.DoneFill? ==> (s.order.status.StatusCancelled? <==> f.reason.Cancelled?))
  {
    if f.TradeFill? {
      SignOfFactor(f.size, f.price);
    }
  }

  /** One fill, of an order that keeps within its reserve or not: its bills take from hold exactly what the order
      takes, and change the money of each currency by the fill's effect. */
  lemma {:induction false} OneMoves(o: Order, f: Fill, owner: Owner, currency: Currency)
    requires !Ended(o)
    ensures var s := SettleOne(o, f);
            && SumSeq(s.bills, MoneyTo(currency)) == EffectOn(o.side, f, currency)
            && SumSeq(s.bills, HoldTo(owner)) == ClaimOf(owner)(s.order) - ClaimOf(owner)(o)
            && SumSeq(s.bills, AvailableTo(owner)) == CreditOf(owner)(s.order) - CreditOf(owner)(o)
            && SumSeq(s.bills, NoteHold(o.id)) == Taken(o) - Taken(s.order)
  {
    if f.TradeFill? {
      TradeMoves(o, f, owner, currency);
    } else {
      EndMoves(o, f, owner, currency);
    }
  }

  lemma {:induction false} TradeMoves(o: Order, f: Fill, owner: Owner, currency: Currency)
    requires !Ended(o) && f.TradeFill?
    ensures var s := SettleOne(o, f);
            && SumSeq(s.bills, MoneyTo(currency)) == EffectOn(o.side, f, currency)
            && SumSeq(s.bills, HoldTo(owner)) == ClaimOf(owner)(s.order) - ClaimOf(owner)(o)
            && SumSeq(s.bills, AvailableTo(owner)) == CreditOf(owner)(s.order) - CreditOf(owner)(o)
            && SumSeq(s.bills, NoteHold(o.id)) == Taken(o) - Taken(s.order)
  {
    hide Value, SumSeq;
    var bills := SettleOne(o, f).bills;
    assert bills == [bills[0], bills[1]];
    SumTwo(bills[0], bills[1], HoldTo(owner));
    SumTwo(bills[0], bills[1], AvailableTo(owner));
    SumTwo(bills[0], bills[1], MoneyTo(currency));
    SumTwo(bills[0], bills[1], NoteHold(o.id));
  }

  lemma {:induction false} EndMoves(o: Order, f: Fill, owner: Owner, currency: Currency)
    requires !Ended(o) && f.DoneFill?
    ensures var s := SettleOne(o, f);
            && SumSeq(s.bills, MoneyTo(currency)) == EffectOn(o.side, f, currency)
            && SumSeq(s.bills, HoldTo(owner)) == ClaimOf(owner)(s.order) - ClaimOf(owner)(o)
            && SumSeq(s.bills, AvailableTo(owner)) == CreditOf(owner)(s.order) - CreditOf(owner)(o)
            && SumSeq(s.bills, NoteHold(o.id)) == Taken(o) - Taken(s.order)
  {
    var bills := SettleOne(o, f).bills;
    if bills != [] {
      SumOne(bills[0], HoldTo(owner));
      SumOne(bills[0], AvailableTo(owner));
      SumOne(bills[0], MoneyTo(currency));
      SumOne(bills[0], NoteHold(o.id));
    }
  }

  function Effect(side: Side, currency: Currency): Fill -> int {
    (f: Fill) => EffectOn(side, f, currency)
  }

  function ValueOf(): Fill -> int {
    (f: Fill) => Value(f)
  }

  function SizeOf(): Fill -> int {
    (f: Fill) => Size(f)
  }

  function Ends(): Fill -> int {
    (f: Fill) => if f.DoneFill? then 1 else 0
  }

  function Cancels(): Fill -> int {
    (f: Fill) => if f.DoneFill? && f.reason.Cancelled? then 1 else 0
  }

  /** What fills a call may be given: trades of no negative amount, and at most one end, at the end. */
  ghost predicate Orderly(fills: seq<Fill>) {
    && (forall i :: 0 <= i < |fills| && fills[i].TradeFill? ==> fills[i].size >= 0 && fills[i].price >= 0)
    && (forall i :: 0 <= i < |fills| - 1 ==> fills[i].TradeFill?)
  }

  /** The amounts and the status after some fills. */
  lemma {:induction false} AllAmounts(o: Order, fills: seq<Fill>)
    requires !Ended(o) && Orderly(fills)
    ensures var s := SettleAll(o, fills);
            && SameOrder(o, s.order) && GoodBills(s.bills)
            && s.order.executedValue == o.executedValue + SumSeq(fills, ValueOf())
            && s.order.filledSize == o.filledSize + SumSeq(fills, SizeOf())
            && (Ended(s.order) <==> fills != [] && fills[|fills| - 1].DoneFill?)
            && SumSeq(fills, Ends()) == (if Ended(s.order) then 1 else 0)
            && SumSeq(fills, Cancels()) == (if s.order.status.StatusCancelled? then 1 else 0)
            && (!Ended(s.order) ==> s.order.status == o.status)
  {
    if fills != [] {
      var n := |fills| - 1;
      AllAmounts(o, fills[..n]);
      OneAmounts(SettleAll(o, fills[..n]).order, fills[n]);
    }
  }

  /** The bills of some fills: they take from hold what the order takes, and change each currency's money by the fills'
      effect. */
  lemma {:induction false} AllMove(o: Order, fills: seq<Fill>, owner: Owner, currency: Currency)
    requires !Ended(o) && Orderly(fills)
    ensures var s := SettleAll(o, fills);
            && SumSeq(s.bills, MoneyTo(currency)) == SumSeq(fills, Effect(o.side, currency))
            && SumSeq(s.bills, HoldTo(owner)) == ClaimOf(owner)(s.order) - ClaimOf(owner)(o)
            && SumSeq(s.bills, AvailableTo(owner)) == CreditOf(owner)(s.order) - CreditOf(owner)(o)
            && SumSeq(s.bills, NoteHold(o.id)) == Taken(o) - Taken(s.order)
  {
    if fills != [] {
      hide SettleOne, EffectOn, Orderly, ClaimOf, CreditOf, AvailableTo, Taken, HoldTo, MoneyTo, NoteHold;
      var n := |fills| - 1;
      OrderlyFront(fills);
      AllAmounts(o, fills[..n]);
      AllAmounts(o, fills);
      var before := SettleAll(o, fills[..n]);
      AllMove(o, fills[..n], owner, currency);
      OneMoves(before.order, fills[n], owner, currency);
      var last := SettleOne(before.order, fills[n]);
      SumSeqConcat(before.bills, last.bills, MoneyTo(currency));
      SumSeqConcat(before.bills, last.bills, HoldTo(owner));
      SumSeqConcat(before.bills, last.bills, AvailableTo(owner));
      SumSeqConcat(before.bills, last.bills, NoteHold(o.id));
    }
  }

  lemma {:induction false} OrderlyFront(fills: seq<Fill>)
    requires Orderly(fills) && fills != []
    ensures Orderly(fills[..|fills| - 1]) && (fills[|fills| - 1].TradeFill? ==> fills[|fills| - 1].size >= 0 && fills[|fills| - 1].price >= 0)
    ensures forall i :: 0 <= i < |fills| - 1 ==> fills[i].TradeFill?
  {
  }

  /** A call settles what it can: the order's unsettled fills up to its end, a hundred at most. */
  lemma {:induction false} SettlesAHundred(l: Ledger, id: int)
    requires ExecuteFill(l, id).Executed?
    ensures var pending, settled := Select(l.fills, Pending(id)), |DueFills(l, id)|;
            && Select(ExecuteFill(l, id).ledger.fills, Pending(id)) == pending[settled..]
            && settled <= 100 && (forall i :: 0 <= i < settled - 1 ==> pending[i].TradeFill?)
            && (settled == |pending| || settled == 100 || (settled > 0 && pending[settled - 1].DoneFill?))
  {
    if DueFills(l, id) != [] {
      MarkDeselects(l.fills, Pending(id), Settling(), |DueFills(l, id)|);
    } else {
      assert Select(l.fills, Pending(id))[0..] == Select(l.fills, Pending(id));
    }
  }

  /** Every bill of a call names the order. */
  lemma {:induction false} AllNotes(o: Order, fills: seq<Fill>, other: int)
    requires other != o.id
    ensures SumSeq(SettleAll(o, fills).bills, NoteHold(other)) == 0 && SettleAll(o, fills).order.id == o.id
  {
    if fills != [] {
      var n := |fills| - 1;
      AllNotes(o, fills[..n], other);
      var before := SettleAll(o, fills[..n]);
      var last := SettleOne(before.order, fills[n]);
      SumSeqConcat(before.bills, last.bills, NoteHold(other));
      if |last.bills| == 2 {
        SumTwo(last.bills[0], last.bills[1], NoteHold(other));
      } else if |last.bills| == 1 {
        SumOne(last.bills[0], NoteHold(other));
      }
    }
  }

  lemma {:induction false} NotesOf(o: Order, fills: seq<Fill>)
    ensures forall b :: b in SettleAll(o, fills).bills ==> b.note == Some(o.id) && !b.settled
    ensures SettleAll(o, fills).order.id == o.id
  {
    if fills != [] {
      NotesOf(o, fills[..|fills| - 1]);
    }
  }
}
