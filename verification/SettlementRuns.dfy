/** Settlement comes to rest: from any world the services can settle and book everything that was matched. */
module SettlementRuns {
  import opened Types
  import opened Sums
  import opened Tables
  import opened Accounts
  import opened Orders
  import opened FillMakers
  import opened Settlement
  import opened SettlementTheorems

  ghost predicate Connected(p: Product, limits: Limits, run: seq<World>) {
    run != [] && forall i :: 0 <= i < |run| - 1 ==> Steps(p, limits, run[i], run[i + 1])
  }

  /** Settling leaves the topic, the matching engine and the orders' own terms as they are. */
  ghost predicate Settles(w: World, w': World) {
    && w'.topic == w.topic && w'.applied == w.applied && w'.market == w.market
    && w'.ledger.orders.Keys == w.ledger.orders.Keys
    && forall id :: id in w.ledger.orders ==> SameOrder(w.ledger.orders[id], w'.ledger.orders[id])
  }

  lemma {:induction false} SettlesOn(a: World, b: World, c: World)
    requires Settles(a, b) && Settles(b, c)
    ensures Settles(a, c)
  {
  }

  // ------------------------------------------------------- what is left to do

  function OpenFill(): Fill -> int {
    (f: Fill) => if f.settled then 0 else 1
  }

  function Closing(): Fill -> int {
    (f: Fill) => if f.settled then 0 else -1
  }

  function OpenBill(): Bill -> int {
    (b: Bill) => if b.settled then 0 else 1
  }

  function Booking(): Bill -> int {
    (b: Bill) => if b.settled then 0 else -1
  }

  lemma {:induction false} ClosingCounts(fills: seq<Fill>)
    requires forall i :: 0 <= i < |fills| ==> !fills[i].settled
    ensures SumSeq(fills, Closing()) == -|fills|
  {
    if fills != [] {
      ClosingCounts(fills[..|fills| - 1]);
      assert !fills[|fills| - 1].settled;
    }
  }

  lemma {:induction false} BookingCounts(bills: seq<Bill>)
    requires forall i :: 0 <= i < |bills| ==> !bills[i].settled
    ensures SumSeq(bills, Booking()) == -|bills|
  {
    if bills != [] {
      BookingCounts(bills[..|bills| - 1]);
      assert !bills[|bills| - 1].settled;
    }
  }

  function LeftFills(w: World): (n: nat) {
    OpenFillsCount(w.ledger.fills);
    SumSeq(w.ledger.fills, OpenFill())
  }

  function LeftBills(w: World): (n: nat) {
    OpenBillsCount(w.ledger.books.bills);
    SumSeq(w.ledger.books.bills, OpenBill())
  }

  lemma {:induction false} OpenFillsCount(fills: seq<Fill>)
    ensures SumSeq(fills, OpenFill()) >= 0
  {
    SumSeqNonNegative(fills, OpenFill());
  }

  lemma {:induction false} OpenBillsCount(bills: seq<Bill>)
    ensures SumSeq(bills, OpenBill()) >= 0
  {
    SumSeqNonNegative(bills, OpenBill());
  }

  // ------------------------------------------------------- every step gets closer

  /** Less is left: to consume, to flush, to settle, to book, in this order. */
  ghost predicate Closer(w: World, w': World) {
    var a, b := |w.market.logs| - w.consumed, |w'.market.logs| - w'.consumed;
    || b < a
    || (b == a && |w'.fillCh| < |w.fillCh|)
    || (b == a && |w'.fillCh| == |w.fillCh| && LeftFills(w') < LeftFills(w))
    || (b == a && |w'.fillCh| == |w.fillCh| && LeftFills(w') == LeftFills(w) && LeftBills(w') < LeftBills(w))
  }

  lemma {:induction false} ConsumeSettles(w: World)
    requires w.consumed < |w.market.logs|
    ensures Settles(w, ConsumeStep(w)) && Closer(w, ConsumeStep(w))
  {
    hide LeftFills, LeftBills;
  }

  lemma {:induction false} FlushSettles(w: World)
    requires w.fillCh != []
    ensures Settles(w, FlushStep(w)) && Closer(w, FlushStep(w))
  {
    hide LeftFills, LeftBills;
  }

  lemma {:induction false} TermsStay(o: Order, fills: seq<Fill>)
    ensures SameOrder(o, SettleAll(o, fills).order)
  {
    if fills != [] {
      TermsStay(o, fills[..|fills| - 1]);
    }
  }

  lemma {:induction false} FillSettles(w: World, id: int)
    requires id in w.ledger.orders && !Ended(w.ledger.orders[id]) && DueFills(w.ledger, id) != []
    ensures Settles(w, FillStep(w, id)) && Closer(w, FillStep(w, id))
  {
    var l, due := w.ledger, DueFills(w.ledger, id);
    MarkSum(l.fills, Pending(id), Orders.Settling(), |due|, OpenFill(), Closing());
    forall i | 0 <= i < |due|
      ensures !due[i].settled
    {
      assert due[i] == Select(l.fills, Pending(id))[i] && Select(l.fills, Pending(id))[i] in Select(l.fills, Pending(id));
    }
    ClosingCounts(due);
    TermsStay(l.orders[id], due);
  }

  lemma {:induction false} BillSettles(w: World, i: nat)
    requires i < |w.ledger.books.bills| && !w.ledger.books.bills[i].settled
    ensures var w' := BillStep(w, w.ledger.books.bills[i].owner); Settles(w, w') && Closer(w, w')
  {
    var b, owner := w.ledger.books, w.ledger.books.bills[i].owner;
    var due := DueBills(b, owner);
    DueIsPrefix(b, owner);
    assert b.bills == b.bills[..i] + b.bills[i..];
    SelectConcat(b.bills[..i], b.bills[i..], Unsettled(owner));
    assert Select(b.bills[i..], Unsettled(owner))[0] == b.bills[i];
    MarkSum(b.bills, Unsettled(owner), Settle(), |due|, OpenBill(), Booking());
    BookingCounts(due);
  }

  lemma {:induction false} Prepend(p: Product, limits: Limits, w: World, rest: seq<World>) returns (run: seq<World>)
    requires Connected(p, limits, rest) && Steps(p, limits, w, rest[0])
    ensures Connected(p, limits, run) && run[0] == w && run[|run| - 1] == rest[|rest| - 1]
  {
    hide Steps;
    run := [w] + rest;
  }

  /** A step nearer to rest, unless the world is at rest. */
  lemma {:induction false} NextStep(p: Product, limits: Limits, deposits: Books, w: World) returns (w': World)
    requires Inv(p, deposits, w) && !AtRest(w)
    ensures Steps(p, limits, w, w') && Inv(p, deposits, w') && Settles(w, w') && Closer(w, w')
  {
    hide Inv, ConsumeStep, FlushStep, FillStep, BillStep, DueFills, Settles, Closer;
    if w.consumed < |w.market.logs| {
      w' := ConsumeStep(w);
      ConsumeSettles(w);
      ConsumeStepKeeps(p, deposits, w);
    } else if w.fillCh != [] {
      w' := FlushStep(w);
      FlushSettles(w);
      FlushStepKeeps(p, deposits, w);
    } else if id :| id in w.ledger.orders && !Ended(w.ledger.orders[id]) && DueFills(w.ledger, id) != [] {
      w' := FillStep(w, id);
      FillSettles(w, id);
      FillStepKeeps(p, deposits, w, id);
    } else {
      EmptyPipe(p, deposits, w);
      var i :| 0 <= i < |w.ledger.books.bills| && !w.ledger.books.bills[i].settled;
      w' := BillStep(w, w.ledger.books.bills[i].owner);
      BillSettles(w, i);
      BillStepKeeps(p, deposits, w, w.ledger.books.bills[i].owner);
    }
  }

  lemma {:induction false} EmptyPipe(p: Product, deposits: Books, w: World)
    requires Inv(p, deposits, w) && w.consumed >= |w.market.logs| && w.fillCh == []
    ensures w.consumed == |w.market.logs| && w.buffer == []
  {
  }

  /** From any world settlement can come to rest, with nothing new placed or matched. */
  lemma {:induction false} CanSettle(p: Product, limits: Limits, deposits: Books, w: World) returns (run: seq<World>)
    requires Inv(p, deposits, w)
    ensures run != [] && Connected(p, limits, run) && run[0] == w
    ensures AtRest(run[|run| - 1]) && Inv(p, deposits, run[|run| - 1]) && Settles(w, run[|run| - 1])
    decreases |w.market.logs| - w.consumed, |w.fillCh|, LeftFills(w), LeftBills(w)
  {
    hide Inv, LeftFills, LeftBills, AtRest, Steps;
    if AtRest(w) {
      run := [w];
    } else {
      var w' := NextStep(p, limits, deposits, w);
      Consumed(p, deposits, w);
      Consumed(p, deposits, w');
      var rest := CanSettle(p, limits, deposits, w');
      run := Prepend(p, limits, w, rest);
      SettlesOn(w, w', rest[|rest| - 1]);
    }
  }

  lemma {:induction false} Consumed(p: Product, deposits: Books, w: World)
    requires Inv(p, deposits, w)
    ensures w.consumed <= |w.market.logs|
  {
  }
}
