/** What the settlement invariant means for users: holds, ends of orders, and money. */
module SettlementTheorems {
  import opened Types
  import opened Sums
  import opened Tables
  import opened LogGrammar
  import M = Matching
  import L = OrderLives
  import opened MarketTheorems
  import opened FairTrades
  import opened Reasons
  import opened Accounts
  import opened Orders
  import opened FillMakers
  import opened Settlement

  /** What is still reserved for an unfinished order, to its payer. */
  function ReservedBy(owner: Owner): Order -> int {
    (o: Order) => if Payer(o) == owner && !Ended(o) then Reserve(o) - Used(o) else 0
  }

  /** What a finished order used beyond its reserve. */
  function ExcessOf(owner: Owner): Order -> int {
    (o: Order) => if Payer(o) == owner && Ended(o) && Used(o) > Reserve(o) then Used(o) - Reserve(o) else 0
  }

  lemma {:induction false} SumOfClaims(orders: map<int, Order>, owner: Owner)
    ensures Sum(orders, ClaimOf(owner)) == Sum(orders, ReservedBy(owner)) - Sum(orders, ExcessOf(owner))
    ensures Sum(orders, ExcessOf(owner)) >= 0
    ensures forall id :: id in orders ==> ExcessOf(owner)(orders[id]) <= Sum(orders, ExcessOf(owner))
  {
    SumMinus(orders, ClaimOf(owner), ReservedBy(owner), ExcessOf(owner));
    SumNonNegative(orders, ExcessOf(owner));
  }

  lemma {:induction false} TakenIsNotPositive(bills: seq<Bill>, owner: Owner)
    requires forall i :: 0 <= i < |bills| && !bills[i].settled ==> bills[i].hold <= 0
    ensures SumSeq(bills, HoldTo(owner)) <= 0
  {
    if bills != [] {
      var n := |bills| - 1;
      TakenIsNotPositive(bills[..n], owner);
      assert !bills[n].settled ==> bills[n].hold <= 0;
    }
  }

  /** At any prices, in every world of every run: a user's hold is what their unfinished orders still reserve, plus what
      unsettled bills will still take, less what their finished orders used beyond their reserve; and available money
      is never negative. */
  lemma {:induction false} HoldIsExactly(p: Product, limits: Limits, deposits: Books, run: seq<World>, i: nat, owner: Owner)
    requires ScaleOk(p) && Deposits(deposits) && Execution(p, limits, deposits, run) && i < |run|
    ensures var l := run[i].ledger;
            var reserved, excess := Sum(l.orders, ReservedBy(owner)), Sum(l.orders, ExcessOf(owner));
            var taken := SumSeq(l.books.bills, HoldTo(owner));
            && HoldOf(l.books.accounts, owner) == reserved - taken - excess
            && taken <= 0 && excess >= 0
            && (owner in l.books.accounts ==> l.books.accounts[owner].available >= 0)
  {
    AlwaysBalanced(p, limits, deposits, run, i);
    var l := run[i].ledger;
    hide Execution, Matched, Known, Piped, AllTallied, InOrder, Noted, Conserved, Deposits;
    assert HoldAfterBills(l.books, owner) == Sum(l.orders, ClaimOf(owner));
    SumOfClaims(l.orders, owner);
    TakenIsNotPositive(l.books.bills, owner);
  }

  // ------------------------------------------------------- what each user can use

  function EarnedBy(owner: Owner): Order -> int {
    (o: Order) => Earned(o, owner)
  }

  /** What placing an order took from its payer. */
  function ReserveOf(owner: Owner): Order -> int {
    (o: Order) => if Payer(o) == owner then Reserve(o) else 0
  }

  function ReleasedTo(owner: Owner): Order -> int {
    (o: Order) => if Payer(o) == owner then Released(o) else 0
  }

  function KeptFrom(owner: Owner): Order -> int {
    (o: Order) => if Payer(o) == owner then Reserve(o) - Released(o) else 0
  }

  lemma {:induction false} SumOfCredits(orders: map<int, Order>, owner: Owner)
    ensures Sum(orders, CreditOf(owner)) == Sum(orders, EarnedBy(owner)) - Sum(orders, ReserveOf(owner)) + Sum(orders, ReleasedTo(owner))
  {
    SumMinus(orders, CreditOf(owner), EarnedBy(owner), KeptFrom(owner));
    SumMinus(orders, KeptFrom(owner), ReserveOf(owner), ReleasedTo(owner));
  }

  /** At any prices, in every world of every run and for every user: what they can use, with what unsettled bills will add,
      is what they deposited, less what placing their orders took, plus what their orders brought, a buyer the size of
      the settled fills in base, a seller their value in quote, plus what their ended orders did not use. */
  lemma {:induction false} AvailableIsExactly(p: Product, limits: Limits, deposits: Books, run: seq<World>, i: nat, owner: Owner)
    requires ScaleOk(p) && Deposits(deposits) && Execution(p, limits, deposits, run) && i < |run|
    ensures var l := run[i].ledger;
            && AvailableOf(l.books.accounts, owner) + SumSeq(l.books.bills, AvailableTo(owner))
               == AvailableOf(deposits.accounts, owner) - Sum(l.orders, ReserveOf(owner)) + Sum(l.orders, EarnedBy(owner))
                  + Sum(l.orders, ReleasedTo(owner))
            && forall id :: id in l.orders ==>
                 l.orders[id].filledSize == SumSeq(l.fills, SettledSize(id)) && l.orders[id].executedValue == SumSeq(l.fills, SettledValue(id))
  {
    hide Execution, Deposits, Matched, Piped, InOrder, Noted, Conserved, Opened, ValidBooks;
    AlwaysBalanced(p, limits, deposits, run, i);
    var l := run[i].ledger;
    SumOfCredits(l.orders, owner);
    assert AvailableAfterBills(l.books, owner) == AvailableOf(deposits.accounts, owner) + Sum(l.orders, CreditOf(owner));
    IdsMatch(run[i].topic, l.orders);
    forall id | id in l.orders
      ensures l.orders[id].filledSize == SumSeq(l.fills, SettledSize(id)) && l.orders[id].executedValue == SumSeq(l.fills, SettledValue(id))
    {
      assert Tallied(l.orders[id], l.fills, l.books.bills);
    }
  }

  /** At every moment an account is what was deposited and what its settled bills say. */
  lemma {:induction false} BillsExplainAccounts(p: Product, limits: Limits, deposits: Books, run: seq<World>, i: nat, owner: Owner)
    requires ScaleOk(p) && Deposits(deposits) && Execution(p, limits, deposits, run) && i < |run|
    ensures var b := run[i].ledger.books;
            && AvailableOf(b.accounts, owner) == AvailableOf(deposits.accounts, owner) + SumSeq(b.bills, BookedAvailable(owner))
            && HoldOf(b.accounts, owner) == SumSeq(b.bills, BookedHold(owner))
  {
    hide Execution, Matched, Known, Piped, AllTallied, InOrder, Noted, Conserved, Opened, ValidBooks, Decomposed;
    AlwaysBalanced(p, limits, deposits, run, i);
    assert HoldOf(deposits.accounts, owner) == 0;
  }

  /** No order has used more than what was held for it, below the price bound. */
  lemma {:induction false} UsedWithinReserve(p: Product, deposits: Books, w: World, id: int)
    requires Inv(p, deposits, w) && Bounded(p, w.ledger.orders) && id in w.ledger.orders
    ensures Used(w.ledger.orders[id]) <= Reserve(w.ledger.orders[id])
  {
    hide Admitted, InOrder, Decomposed, Conserved, ValidBooks, Fair, FairFills, SilentAfterDone, M.Run, Known, Piped, Bounded;
    var l := w.ledger;
    var placed := L.PlacedOrders(w.topic[..w.applied]);
    MarketFacts(p, w.topic, w.applied, w.market, l.orders);
    SettledWithinTraded(l.fills, w.buffer, w.fillCh, w.market.logs, w.consumed, placed, id);
    TradedWithinReserve(p, w.topic, w.applied, w.market, l.orders, id);
    IdsMatch(w.topic, l.orders);
    assert Tallied(l.orders[id], l.fills, l.books.bills);
  }

  /** A hold is right: what unfinished orders reserve plus what bills will take, and not negative. */
  ghost predicate HoldIsRight(l: Ledger, owner: Owner) {
    && HoldOf(l.books.accounts, owner) == Sum(l.orders, ReservedBy(owner)) - SumSeq(l.books.bills, HoldTo(owner))
    && Sum(l.orders, ReservedBy(owner)) >= 0 && HoldOf(l.books.accounts, owner) >= 0
  }

  /** With limit prices below the bound every hold is right. */
  lemma {:induction false} HoldIsExplained(p: Product, limits: Limits, deposits: Books, run: seq<World>, i: nat, owner: Owner)
    requires ScaleOk(p) && Deposits(deposits) && Execution(p, limits, deposits, run) && i < |run|
    requires Bounded(p, run[i].ledger.orders)
    ensures HoldIsRight(run[i].ledger, owner)
  {
    hide Execution, Bounded, Deposits, Inv, HoldTo;
    AlwaysBalanced(p, limits, deposits, run, i);
    HoldIsExactly(p, limits, deposits, run, i, owner);
    var orders := run[i].ledger.orders;
    forall id | id in orders
      ensures ReservedBy(owner)(orders[id]) >= 0 && ExcessOf(owner)(orders[id]) <= 0
    {
      UsedWithinReserve(p, deposits, run[i], id);
    }
    SumNonNegative(orders, ReservedBy(owner));
    NoExcess(orders, owner);
  }

  lemma {:induction false} NoExcess(orders: map<int, Order>, owner: Owner)
    requires forall id :: id in orders ==> ExcessOf(owner)(orders[id]) <= 0
    ensures Sum(orders, ExcessOf(owner)) == 0
    decreases |orders|
  {
    if orders != map[] {
      var k := Pick(orders);
      RemovalShrinks(orders, k);
      NoExcess(orders - {k}, owner);
    }
  }

  // ------------------------------------------------------- the end of an order

  lemma {:induction false} NoneOf(fills: seq<Fill>, id: int)
    requires forall i :: 0 <= i < |fills| ==> fills[i].orderId != id
    ensures SumSeq(fills, ValueFor(id)) == 0 && SumSeq(fills, SizeFor(id)) == 0
  {
    if fills != [] {
      var n := |fills| - 1;
      NoneOf(fills[..n], id);
      assert fills[n].orderId != id;
    }
  }

  lemma {:induction false} AllOfItSettled(fills: seq<Fill>, id: int)
    requires forall i :: 0 <= i < |fills| && fills[i].orderId == id ==> fills[i].settled
    ensures SumSeq(fills, SettledValue(id)) == SumSeq(Unmarked(fills), ValueFor(id))
    ensures SumSeq(fills, SettledSize(id)) == SumSeq(Unmarked(fills), SizeFor(id))
  {
    if fills != [] {
      var n := |fills| - 1;
      assert Unmarked(fills)[..n] == Unmarked(fills[..n]);
      AllOfItSettled(fills[..n], id);
      assert fills[n].orderId == id ==> fills[n].settled;
    }
  }

  /** A settled end means that every fill of the order is settled and none is on the way. */
  lemma {:induction false} EndIsLast(fills: seq<Fill>, rest: seq<Fill>, id: int)
    requires EndsLast(Unmarked(fills) + rest) && InOrder(fills) && SumSeq(fills, SettledEnd(id)) == 1
    ensures forall j :: 0 <= j < |fills| && fills[j].orderId == id ==> fills[j].settled
    ensures forall j :: 0 <= j < |rest| ==> rest[j].orderId != id
  {
    SumHasTerm(fills, SettledEnd(id));
    var i :| 0 <= i < |fills| && SettledEnd(id)(fills[i]) > 0;
    var all := Unmarked(fills) + rest;
    assert all[i].DoneFill? && all[i].orderId == id;
    forall j | 0 <= j < |fills| && fills[j].orderId == id
      ensures fills[j].settled
    {
      assert all[j].orderId == id;
    }
    forall j | 0 <= j < |rest|
      ensures rest[j].orderId != id
    {
      assert all[|fills| + j] == rest[j];
    }
  }

  /** A finished order settled exactly what it traded, nothing of it is left to settle, and its bills take exactly what
      was held for it, or what it used where that is more; below the price bound it is what was held. */
  lemma {:induction false} EndIsExact(p: Product, limits: Limits, deposits: Books, run: seq<World>, i: nat, id: int)
    requires ScaleOk(p) && Deposits(deposits) && Execution(p, limits, deposits, run) && i < |run|
    requires id in run[i].ledger.orders && Ended(run[i].ledger.orders[id])
    ensures var w, o := run[i], run[i].ledger.orders[id];
            && o.executedValue == LifeOf(w.market.logs, id).value && o.filledSize == LifeOf(w.market.logs, id).filled
            && (forall j :: 0 <= j < |w.ledger.fills| && w.ledger.fills[j].orderId == id ==> w.ledger.fills[j].settled)
            && (forall j :: 0 <= j < |OnTheWay(w)| ==> OnTheWay(w)[j].orderId != id)
            && SumSeq(w.ledger.books.bills, NoteHold(id)) == -(if Used(o) <= Reserve(o) then Reserve(o) else Used(o))
            && (Bounded(p, w.ledger.orders) ==> SumSeq(w.ledger.books.bills, NoteHold(id)) == -Reserve(o))
  {
    hide Execution, Bounded, Deposits, Inv;
    AlwaysBalanced(p, limits, deposits, run, i);
    EndedIsExact(p, deposits, run[i], id);
    if Bounded(p, run[i].ledger.orders) {
      UsedWithinReserve(p, deposits, run[i], id);
    }
  }

  lemma {:induction false} EndedIsExact(p: Product, deposits: Books, w: World, id: int)
    requires Inv(p, deposits, w) && id in w.ledger.orders && Ended(w.ledger.orders[id])
    ensures var o := w.ledger.orders[id];
            && o.executedValue == LifeOf(w.market.logs, id).value && o.filledSize == LifeOf(w.market.logs, id).filled
            && (forall j :: 0 <= j < |w.ledger.fills| && w.ledger.fills[j].orderId == id ==> w.ledger.fills[j].settled)
            && (forall j :: 0 <= j < |OnTheWay(w)| ==> OnTheWay(w)[j].orderId != id)
            && SumSeq(w.ledger.books.bills, NoteHold(id)) == -Taken(o)
  {
    hide M.Run, Known, InOrder, Decomposed, ValidBooks, Noted, Conserved, Fair, SilentAfterDone, EndsLast, FillsOf;
    var l, logs := w.ledger, w.market.logs;
    var placed := L.PlacedOrders(w.topic[..w.applied]);
    MarketFacts(p, w.topic, w.applied, w.market, l.orders);
    IdsMatch(w.topic, l.orders);
    EndsAreLast(logs);
    PipelineIsLog(l.fills, w.buffer, w.fillCh, logs, w.consumed);
    assert Tallied(l.orders[id], l.fills, l.books.bills);
    var rest := OnTheWay(w);
    EndIsLast(l.fills, rest, id);
    AllOfItSettled(l.fills, id);
    NoneOf(rest, id);
    SumSeqConcat(Unmarked(l.fills), rest, ValueFor(id));
    SumSeqConcat(Unmarked(l.fills), rest, SizeFor(id));
    LifeIsFills(logs, placed, id);
  }

  // ------------------------------------------------------- money

  /** Money on accounts, in unsettled bills and in fills not yet settled is what was deposited, at every moment. */
  lemma {:induction false} MoneyIsConserved(p: Product, limits: Limits, deposits: Books, run: seq<World>, i: nat, currency: Currency)
    requires ScaleOk(p) && Deposits(deposits) && Execution(p, limits, deposits, run) && i < |run|
    ensures Money(run[i].ledger.books, currency) + SumSeq(Pipeline(run[i]), Stamped(currency)) == Money(deposits, currency)
  {
    hide Execution, Deposits, Matched, Known, AllTallied, Decomposed;
    AlwaysBalanced(p, limits, deposits, run, i);
    assert Conserved(run[i], deposits);
  }

  /** Everything logged is consumed and stored, unfinished orders have nothing to settle, and every bill is booked. */
  ghost predicate AtRest(w: World) {
    && w.consumed == |w.market.logs| && w.fillCh == [] && w.buffer == []
    && (forall id :: id in w.ledger.orders && !Ended(w.ledger.orders[id]) ==> DueFills(w.ledger, id) == [])
    && (forall i :: 0 <= i < |w.ledger.books.bills| ==> w.ledger.books.bills[i].settled)
  }

  lemma {:induction false} PendingIsSelected(fills: seq<Fill>, id: int, j: nat)
    requires j < |fills| && fills[j].orderId == id && !fills[j].settled
    ensures Select(fills, Pending(id)) != []
  {
    assert fills == fills[..j] + fills[j..];
    SelectConcat(fills[..j], fills[j..], Pending(id));
    assert Select(fills[j..], Pending(id))[0] == fills[j];
  }

  lemma {:induction false} NothingDue(l: Ledger, id: int, j: nat)
    requires DueFills(l, id) == [] && j < |l.fills| && l.fills[j].orderId == id
    ensures l.fills[j].settled
  {
    if !l.fills[j].settled {
      PendingIsSelected(l.fills, id, j);
    }
  }

  lemma {:induction false} NothingUnsettled(fills: seq<Fill>, currency: Currency)
    requires forall i :: 0 <= i < |fills| ==> fills[i].settled
    ensures SumSeq(fills, Stamped(currency)) == 0
  {
    if fills != [] {
      var n := |fills| - 1;
      NothingUnsettled(fills[..n], currency);
      assert fills[n].settled;
    }
  }

  lemma {:induction false} NothingToBook(bills: seq<Bill>, owner: Owner, currency: Currency)
    requires forall i :: 0 <= i < |bills| ==> bills[i].settled
    ensures SumSeq(bills, HoldTo(owner)) == 0 && SumSeq(bills, MoneyTo(currency)) == 0
  {
    if bills != [] {
      var n := |bills| - 1;
      NothingToBook(bills[..n], owner, currency);
      assert bills[n].settled;
    }
  }

  /** Once everything is settled, the accounts hold exactly the deposited money, and a hold is exactly what the owner's
      unfinished orders reserve, less what finished ones used beyond their reserve. */
  lemma {:induction false} AtRestAccountsBalance(p: Product, limits: Limits, deposits: Books, run: seq<World>, i: nat,
                                                 owner: Owner, currency: Currency)
    requires ScaleOk(p) && Deposits(deposits) && Execution(p, limits, deposits, run) && i < |run|
    requires AtRest(run[i])
    ensures Sum(run[i].ledger.books.accounts, MoneyOf(currency)) == Sum(deposits.accounts, MoneyOf(currency))
    ensures HoldOf(run[i].ledger.books.accounts, owner)
            == Sum(run[i].ledger.orders, ReservedBy(owner)) - Sum(run[i].ledger.orders, ExcessOf(owner))
  {
    hide Execution, Inv, ValidBooks;
    AlwaysBalanced(p, limits, deposits, run, i);
    RestIsSettled(p, deposits, run[i]);
    NothingToBook(run[i].ledger.books.bills, owner, currency);
    NothingUnsettled(run[i].ledger.fills, currency);
    RestBalances(p, deposits, run[i], owner, currency);
    SumOfClaims(run[i].ledger.orders, owner);
  }

  lemma {:induction false} RestIsSettled(p: Product, deposits: Books, w: World)
    requires Inv(p, deposits, w) && AtRest(w)
    ensures forall j :: 0 <= j < |w.ledger.fills| ==> w.ledger.fills[j].settled
  {
    hide Inv;
    FillsHaveOrders(p, deposits, w);
    forall j | 0 <= j < |w.ledger.fills|
      ensures w.ledger.fills[j].settled
    {
      var id := w.ledger.fills[j].orderId;
      if Ended(w.ledger.orders[id]) {
        EndedIsExact(p, deposits, w, id);
      } else {
        NothingDue(w.ledger, id, j);
      }
    }
  }

  lemma {:induction false} RestBalances(p: Product, deposits: Books, w: World, owner: Owner, currency: Currency)
    requires Inv(p, deposits, w) && w.consumed == |w.market.logs| && w.fillCh == [] && w.buffer == [] && deposits.bills == []
    requires SumSeq(w.ledger.fills, Stamped(currency)) == 0
    requires SumSeq(w.ledger.books.bills, HoldTo(owner)) == 0 && SumSeq(w.ledger.books.bills, MoneyTo(currency)) == 0
    ensures Sum(w.ledger.books.accounts, MoneyOf(currency)) == Sum(deposits.accounts, MoneyOf(currency))
    ensures HoldOf(w.ledger.books.accounts, owner) == Sum(w.ledger.orders, ClaimOf(owner))
  {
    hide Matched, Known, AllTallied, InOrder, Noted, ValidBooks, Piped, Stamped, ClaimOf, HoldTo, MoneyTo, MoneyOf;
    assert w.market.logs[w.consumed..] == [];
    assert Pipeline(w) == w.ledger.fills;
    assert HoldAfterBills(w.ledger.books, owner) == Sum(w.ledger.orders, ClaimOf(owner));
    assert Money(w.ledger.books, currency) + SumSeq(Pipeline(w), Stamped(currency)) == Money(deposits, currency);
  }

  // ------------------------------------------------------- at rest, the ledger tells the log

  function EndFor(id: int): Fill -> int {
    (f: Fill) => if f.orderId == id && f.DoneFill? then 1 else 0
  }

  lemma {:induction false} EndsNotNegative(fills: seq<Fill>, id: int)
    ensures SumSeq(fills, EndFor(id)) >= 0
  {
    SumSeqNonNegative(fills, EndFor(id));
  }

  /** A finished order has an end among its fills. */
  lemma {:induction false} FinishedHasEnd(logs: seq<Log>, id: int)
    ensures LifeOf(logs, id).phase.Finished? ==> SumSeq(FillsOf(logs), EndFor(id)) > 0
  {
    if logs != [] {
      var n := |logs| - 1;
      FinishedHasEnd(logs[..n], id);
      assert logs == logs[..n] + [logs[n]];
      L.LifeOfTail(NO_LIFE, logs[..n], logs[n], id);
      SumSeqConcat(FillsOf(logs[..n]), FillsOfLog(logs[n]), EndFor(id));
      EndsNotNegative(FillsOf(logs[..n]), id);
      EndsNotNegative(FillsOfLog(logs[n]), id);
      if logs[n].DoneLog? {
        SumOne(FillsOfLog(logs[n])[0], EndFor(id));
      }
    }
  }

  /** An end among an order's fills means that the log has a Done of the order. */
  lemma {:induction false} EndIsFinished(logs: seq<Log>, id: int)
    requires SumSeq(FillsOf(logs), EndFor(id)) > 0
    ensures LifeOf(logs, id).phase.Finished? || LifeOf(logs, id).phase.Broken?
  {
    var n := |logs| - 1;
    assert logs == logs[..n] + [logs[n]];
    L.LifeOfTail(NO_LIFE, logs[..n], logs[n], id);
    SumSeqConcat(FillsOf(logs[..n]), FillsOfLog(logs[n]), EndFor(id));
    if SumSeq(FillsOf(logs[..n]), EndFor(id)) > 0 {
      EndIsFinished(logs[..n], id);
    } else {
      SumHasTerm(FillsOfLog(logs[n]), EndFor(id));
    }
  }

  lemma {:induction false} EndsAllSettled(fills: seq<Fill>, id: int)
    requires forall i :: 0 <= i < |fills| ==> fills[i].settled
    ensures SumSeq(fills, SettledEnd(id)) == SumSeq(Unmarked(fills), EndFor(id))
  {
    if fills != [] {
      var n := |fills| - 1;
      assert Unmarked(fills)[..n] == Unmarked(fills[..n]);
      EndsAllSettled(fills[..n], id);
      assert fills[n].settled;
    }
  }

  /** Once everything is settled, an order has ended exactly when matching finished it, and its amounts are exactly those
      it traded, at any prices. */
  lemma {:induction false} AtRestOrdersAreExact(p: Product, deposits: Books, w: World, id: int)
    requires Inv(p, deposits, w) && AtRest(w) && id in w.ledger.orders
    ensures var o, l := w.ledger.orders[id], LifeOf(w.market.logs, id);
            (Ended(o) <==> l.phase.Finished?) && o.executedValue == l.value && o.filledSize == l.filled
  {
    hide M.Run, Known, InOrder, Decomposed, ValidBooks, Noted, Conserved, Fair, SilentAfterDone, FillsOf, AllTallied;
    RestIsSettled(p, deposits, w);
    var l, logs := w.ledger, w.market.logs;
    MarketFacts(p, w.topic, w.applied, w.market, l.orders);
    IdsMatch(w.topic, l.orders);
    PipelineIsLog(l.fills, w.buffer, w.fillCh, logs, w.consumed);
    NothingLeft(w);
    TalliedAt(l, id);
    AllOfItSettled(l.fills, id);
    EndsAllSettled(l.fills, id);
    LifeIsFills(logs, L.PlacedOrders(w.topic[..w.applied]), id);
    FinishedHasEnd(logs, id);
    NeverBroken(p, w, id);
    if Ended(l.orders[id]) {
      EndIsFinished(logs, id);
    }
  }

  lemma {:induction false} TalliedAt(l: Ledger, id: int)
    requires AllTallied(l.orders, l.fills, l.books.bills) && id in l.orders
    ensures Tallied(l.orders[id], l.fills, l.books.bills)
  {
  }

  lemma {:induction false} NothingLeft(w: World)
    requires AtRest(w)
    ensures w.buffer + w.fillCh + FillsOf(w.market.logs[w.consumed..]) == []
    ensures Unmarked(w.ledger.fills) + [] == Unmarked(w.ledger.fills)
  {
    assert w.market.logs[w.consumed..] == [];
  }

  lemma {:induction false} NeverBroken(p: Product, w: World, id: int)
    requires Matched(p, w.topic, w.applied, w.market) && Known(w.topic, w.ledger.orders)
    ensures !LifeOf(w.market.logs, id).phase.Broken?
  {
    var cmds := w.topic[..w.applied];
    KnownPrefix(w.topic, w.ledger.orders, w.applied);
    GrammarHolds(p, cmds, id);
  }

  // ------------------------------------------------------- statuses

  function CancelFor(id: int): Fill -> int {
    (f: Fill) => if f.orderId == id && f.DoneFill? && f.reason.Cancelled? then 1 else 0
  }

  lemma {:induction false} CancelsAllSettled(fills: seq<Fill>, id: int)
    requires forall i :: 0 <= i < |fills| && fills[i].orderId == id ==> fills[i].settled
    ensures SumSeq(fills, SettledCancel(id)) == SumSeq(Unmarked(fills), CancelFor(id))
  {
    if fills != [] {
      var n := |fills| - 1;
      assert Unmarked(fills)[..n] == Unmarked(fills[..n]);
      CancelsAllSettled(fills[..n], id);
      assert fills[n].orderId == id ==> fills[n].settled;
    }
  }

  lemma {:induction false} NoCancelOf(fills: seq<Fill>, id: int)
    requires forall i :: 0 <= i < |fills| ==> fills[i].orderId != id
    ensures SumSeq(fills, CancelFor(id)) == 0
  {
    if fills != [] {
      var n := |fills| - 1;
      NoCancelOf(fills[..n], id);
      assert fills[n].orderId != id;
    }
  }

  /** A log tells an order's one end, with its reason, to the fills. */
  lemma {:induction false} CancelInFills(logs: seq<Log>, id: int)
    requires !LifeOf(logs, id).phase.Broken?
    ensures SumSeq(FillsOf(logs), CancelFor(id)) == (if LifeOf(logs, id).phase.Finished? && ReasonOf(logs, id) == Some(Cancelled) then 1 else 0)
    ensures ReasonOf(logs, id).Some? ==> LifeOf(logs, id).phase.Finished?
    decreases |logs|
  {
    if logs != [] {
      var n := |logs| - 1;
      assert logs == logs[..n] + [logs[n]];
      L.LifeOfTail(NO_LIFE, logs[..n], logs[n], id);
      if LifeOf(logs[..n], id).phase.Broken? {
        BrokenStays(LifeOf(logs[..n], id), [logs[n]], id);
      }
      CancelInFills(logs[..n], id);
      SumSeqConcat(FillsOf(logs[..n]), FillsOfLog(logs[n]), CancelFor(id));
      CancelInLog(logs[n], id);
    }
  }

  lemma {:induction false} CancelInLog(log: Log, id: int)
    ensures SumSeq(FillsOfLog(log), CancelFor(id)) == (if log.DoneLog? && log.orderId == id && log.reason.Cancelled? then 1 else 0)
  {
    var fills := FillsOfLog(log);
    if log.MatchLog? {
      SumTwo(fills[0], fills[1], CancelFor(id));
    } else if log.DoneLog? {
      SumOne(fills[0], CancelFor(id));
    }
  }

  /** An order ends Cancelled exactly when something was left of it, and Filled otherwise. */
  lemma {:induction false} EndStatusIsExact(p: Product, deposits: Books, w: World, id: int)
    requires Inv(p, deposits, w) && id in w.ledger.orders && Ended(w.ledger.orders[id])
    ensures LifeOf(w.market.logs, id).phase.Finished?
    ensures w.ledger.orders[id].status.StatusCancelled? <==> Left(ToBook(w.ledger.orders[id]), LifeOf(w.market.logs, id)) > 0
  {
    hide M.Run, Known, InOrder, Decomposed, ValidBooks, Noted, Conserved, Opened, Fair, SilentAfterDone, EndsLast, FillsOf, Left, AllTallied;
    var l, logs := w.ledger, w.market.logs;
    var cmds := w.topic[..w.applied];
    EndedIsExact(p, deposits, w, id);
    MarketFacts(p, w.topic, w.applied, w.market, l.orders);
    IdsMatch(w.topic, l.orders);
    PipelineIsLog(l.fills, w.buffer, w.fillCh, logs, w.consumed);
    TalliedAt(l, id);
    var rest := OnTheWay(w);
    CancelsAllSettled(l.fills, id);
    NoCancelOf(rest, id);
    SumSeqConcat(Unmarked(l.fills), rest, CancelFor(id));
    NeverBroken(p, w, id);
    CancelInFills(logs, id);
    EndsOfOrder(l.fills, rest, id);
    EndIsFinished(logs, id);
    KnownPrefix(w.topic, l.orders, w.applied);
    CancelledExactly(p, cmds, id);
  }

  lemma {:induction false} EndsOfOrder(fills: seq<Fill>, rest: seq<Fill>, id: int)
    requires SumSeq(fills, SettledEnd(id)) > 0
    ensures SumSeq(Unmarked(fills) + rest, EndFor(id)) > 0
  {
    SettledEndsCount(fills, id);
    EndsNotNegative(rest, id);
    SumSeqConcat(Unmarked(fills), rest, EndFor(id));
  }

  lemma {:induction false} SettledEndsCount(fills: seq<Fill>, id: int)
    ensures SumSeq(fills, SettledEnd(id)) <= SumSeq(Unmarked(fills), EndFor(id))
  {
    if fills != [] {
      var n := |fills| - 1;
      assert Unmarked(fills)[..n] == Unmarked(fills[..n]);
      SettledEndsCount(fills[..n], id);
    }
  }

  /** An order with an Open entry stands or has finished, and no other stands. */
  lemma {:induction false} OpenedMeansStanding(logs: seq<Log>, id: int)
    requires !LifeOf(logs, id).phase.Broken?
    ensures OpenedIn(logs, id) ==> LifeOf(logs, id).phase.Standing? || LifeOf(logs, id).phase.Finished?
    ensures LifeOf(logs, id).phase.Standing? ==> OpenedIn(logs, id)
    decreases |logs|
  {
    if logs != [] {
      var n := |logs| - 1;
      assert logs == logs[..n] + [logs[n]];
      L.LifeOfTail(NO_LIFE, logs[..n], logs[n], id);
      if LifeOf(logs[..n], id).phase.Broken? {
        BrokenStays(LifeOf(logs[..n], id), [logs[n]], id);
      }
      OpenedMeansStanding(logs[..n], id);
      if OpenedIn(logs[..n], id) {
        var i :| 0 <= i < n && logs[..n][i].OpenLog? && logs[..n][i].orderId == id;
        assert logs[i].OpenLog? && logs[i].orderId == id;
      }
      if OpenedIn(logs, id) {
        var i :| 0 <= i < |logs| && logs[i].OpenLog? && logs[i].orderId == id;
        assert i < n ==> logs[..n][i].OpenLog?;
      }
    }
  }

  /** Once everything is settled an order's status says what became of it: Open exactly when it rests on the book,
      Cancelled or Filled when matching finished it with or without something left, New when matching never saw it. */
  lemma {:induction false} AtRestStatusIsExact(p: Product, deposits: Books, w: World, id: int)
    requires Inv(p, deposits, w) && AtRest(w) && id in w.ledger.orders
    ensures var o, l := w.ledger.orders[id], LifeOf(w.market.logs, id);
            match o.status
            case StatusOpen => id in L.RestingOrders(w.market.book)
            case StatusCancelled => l.phase.Finished? && Left(ToBook(o), l) > 0
            case StatusFilled => l.phase.Finished? && Left(ToBook(o), l) <= 0
            case StatusNew => l.phase.Unseen?
    ensures w.ledger.orders[id].status.StatusOpen? <==> id in L.RestingOrders(w.market.book)
  {
    hide M.Run, InOrder, Decomposed, ValidBooks, Noted, Conserved, Known, AllTallied, Piped, Left, AcceptedIn;
    var o, logs := w.ledger.orders[id], w.market.logs;
    AtRestOrdersAreExact(p, deposits, w, id);
    NeverBroken(p, w, id);
    OpenedMeansStanding(logs, id);
    assert logs[..w.consumed] == logs;
    KnownPrefix(w.topic, w.ledger.orders, w.applied);
    GrammarHolds(p, w.topic[..w.applied], id);
    if Ended(o) {
      EndStatusIsExact(p, deposits, w, id);
    }
  }
}
