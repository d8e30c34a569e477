/** A market buy spends its funds optimally. */
module MarketBuy {
  import opened Types
  import opened PriceTime
  import opened Decimals
  import opened Matching
  import opened MatchLoop

  /** A wish list: how much to buy from each ask. */
  ghost predicate Allocation(asks: seq<BookOrder>, a: seq<nat>) {
    |a| == |asks| && forall i :: 0 <= i < |a| ==> a[i] <= asks[i].size
  }

  function Units(a: seq<nat>): nat {
    if a == [] then 0 else a[0] + Units(a[1..])
  }

  function Cost(asks: seq<BookOrder>, a: seq<nat>): int
    requires |a| == |asks|
  {
    if a == [] then 0 else a[0] * asks[0].price + Cost(asks[1..], a[1..])
  }

  ghost predicate Dearer(asks: seq<BookOrder>, price: int) {
    forall i :: 0 <= i < |asks| ==> asks[i].price >= price
  }

  lemma {:induction false} CostAtLeast(asks: seq<BookOrder>, a: seq<nat>, price: int)
    requires |a| == |asks| && Dearer(asks, price)
    ensures Cost(asks, a) >= Units(a) * price
  {
    if a != [] {
      CostAtLeast(asks[1..], a[1..], price);
      MulMono(price, asks[0].price, a[0]);
    }
  }

  /** Giving up d units saves at least d times the lowest price. */
  lemma {:induction false} GiveUp(asks: seq<BookOrder>, a: seq<nat>, price: int, d: nat) returns (b: seq<nat>)
    requires Allocation(asks, a) && Dearer(asks, price) && price >= 0 && d <= Units(a)
    ensures Allocation(asks, b) && Units(b) == Units(a) - d
    ensures Cost(asks, b) <= Cost(asks, a) - d * price
    decreases |a|
  {
    if a == [] {
      b := a;
    } else {
      var here: nat := if d <= a[0] then d else a[0];
      var rest := GiveUp(asks[1..], a[1..], price, d - here);
      var left: nat := a[0] - here;
      b := [left] + rest;
      assert b[1..] == rest;
      MulMono(price, asks[0].price, here);
      assert left * asks[0].price == a[0] * asks[0].price - here * asks[0].price;
      assert (d - here) * price == d * price - here * price;
    }
  }

  /** Moving units from the rest to the head, until the head is bought out, keeps an allocation affordable. */
  lemma {:induction false} BuyHeadOut(asks: seq<BookOrder>, a: seq<nat>, funds: int) returns (b: seq<nat>)
    requires asks != [] && Allocation(asks, a) && Cost(asks, a) <= funds
    requires asks[0].price >= 0 && Dearer(asks, asks[0].price)
    requires funds - asks[0].size * asks[0].price >= 0
    ensures Allocation(asks[1..], b) && Cost(asks[1..], b) <= funds - asks[0].size * asks[0].price
    ensures Units(a) <= asks[0].size + Units(b)
  {
    var p := asks[0].price;
    var missing: nat := asks[0].size - a[0];
    var rest := Units(a[1..]);
    if missing <= rest {
      b := GiveUp(asks[1..], a[1..], p, missing);
      assert missing * p == asks[0].size * p - a[0] * p;
    } else {
      b := seq(|asks| - 1, _ => 0);
      CostOfNothing(asks[1..], b);
    }
  }

  lemma {:induction false} CostOfNothing(asks: seq<BookOrder>, b: seq<nat>)
    requires |b| == |asks| && forall i :: 0 <= i < |b| ==> b[i] == 0
    ensures Cost(asks, b) == 0 && Units(b) == 0
  {
    if b != [] {
      CostOfNothing(asks[1..], b[1..]);
    }
  }

  /** Asks a market buy can price exactly: below the rounding bound, and within its extreme price. */
  ghost predicate Affordable(grain: int, taker: BookOrder, asks: seq<BookOrder>) {
    forall m :: m in asks ==> 0 < m.price < 2 * grain && m.price <= taker.price
  }

  lemma {:induction false} SortedIsDearer(asks: seq<BookOrder>)
    requires asks != [] && Sorted(Sell, asks)
    ensures Dearer(asks, asks[0].price)
  {
    forall i | 0 <= i < |asks|
      ensures asks[i].price >= asks[0].price
    {
      if i > 0 { assert Before(Sell, asks[0], asks[i]); }
    }
  }

  lemma {:induction false} UnitsWithin(units: nat, price: int, funds: int, cost: int)
    requires price > 0 && units * price <= cost <= funds
    ensures units <= funds / price
  {
    FloorBounds(funds, price);
    MulCancel(units, funds / price + 1, price);
  }

  lemma {:induction false} GreedyIsOptimal(grain: int, taker: BookOrder, asks: seq<BookOrder>, a: seq<nat>)
    requires Walking(grain, taker, asks) && taker.MarketBuy() && taker.funds >= 0
    requires Affordable(grain, taker, asks)
    requires Allocation(asks, a) && Cost(asks, a) <= taker.funds
    ensures Units(a) <= TradedSize(Walk(grain, taker, asks).trades)
    ensures Walk(grain, taker, asks).taker.funds >= 0
    decreases |asks|
  {
    var r := Walk(grain, taker, asks);
    if asks != [] {
      var m := asks[0];
      assert m in asks;
      SortedIsDearer(asks);
      CostAtLeast(asks, a, m.price);
      BelowBoundIsFloor(taker.funds, m.price, grain);
      UnitsWithin(Units(a), m.price, taker.funds, Cost(asks, a));
      if Stops(grain, taker, m) {
        assert r.trades == [];
        if taker.funds == 0 { assert 0 / m.price == 0; }
      } else {
        WalkStep(grain, taker, asks);
        var size := TradeSize(grain, taker, m);
        var next := Pay(taker, size, m.price);
        assert forall x :: x in asks[1..] ==> x in asks;
        MulMono(size, taker.funds / m.price, m.price);
        if size < m.size {
          assert Walk(grain, next, asks[1..]) == Walked(next, asks[1..], []);
          assert r.trades == [Trade(m.(size := m.size - size), size)];
          assert TradedSize(r.trades) == size + TradedSize(r.trades[1..]);
        } else {
          var b := BuyHeadOut(asks, a, taker.funds);
          GreedyIsOptimal(grain, next, asks[1..], b);
          assert r.trades[1..] == Walk(grain, next, asks[1..]).trades;
        }
      }
    }
  }

  /** What is left cannot buy one base tick at the best ask still there. */
  lemma {:induction false} LeftoverBuysNothing(grain: int, taker: BookOrder, asks: seq<BookOrder>)
    requires Walking(grain, taker, asks) && taker.MarketBuy() && taker.funds >= 0
    requires Affordable(grain, taker, asks)
    ensures var r := Walk(grain, taker, asks);
            r.makers != [] ==> 0 <= r.taker.funds < r.makers[0].price
  {
    var none: seq<nat> := seq(|asks|, _ => 0);
    CostOfNothing(asks, none);
    GreedyIsOptimal(grain, taker, asks, none);
    WalkEnd(grain, taker, asks);
    WalkBalances(grain, taker, asks);
    var k, part := WalkIsPrefix(grain, taker, asks);
    var r := Walk(grain, taker, asks);
    if r.makers != [] {
      assert asks[k] in asks && r.makers[0].price == asks[k].price;
      StoppedBuyer(grain, r.taker, r.makers[0]);
    }
  }

  /** At any prices the walk ends with no debt, or with one within the rounding error at a price it paid. */
  lemma {:induction false} DebtIsSmall(grain: int, taker: BookOrder, asks: seq<BookOrder>)
    requires Walking(grain, taker, asks) && taker.MarketBuy() && taker.funds >= 0
    ensures var r := Walk(grain, taker, asks);
            r.taker.funds >= 0 || exists t :: t in r.trades && Payable(r.taker.funds, t.maker.price, grain)
    decreases |asks|
  {
    if asks != [] && !Stops(grain, taker, asks[0]) {
      WalkStep(grain, taker, asks);
      var m := asks[0];
      assert m in asks;
      var size := TradeSize(grain, taker, m);
      var next := Pay(taker, size, m.price);
      var rest := Walk(grain, next, asks[1..]);
      var trade := Trade(m.(size := m.size - size), size);
      var r := Walk(grain, taker, asks);
      assert r.trades == [trade] + rest.trades && trade in r.trades;
      if next.funds >= 0 {
        DebtIsSmall(grain, next, asks[1..]);
        assert forall t :: t in rest.trades ==> t in r.trades;
      } else {
        SpendKeepsPayable(taker.funds, m.price, grain, size, m.price);
        if asks[1..] != [] {
          assert asks[1..][0] in asks[1..];
          DebtBuysNothing(next.funds, asks[1..][0].price, grain);
        }
        assert rest == Walked(next, asks[1..], []);
      }
    }
  }

  lemma {:induction false} StoppedBuyer(grain: int, taker: BookOrder, best: BookOrder)
    requires grain >= 1 && taker.MarketBuy() && taker.funds >= 0
    requires 0 < best.price < 2 * grain && best.price <= taker.price
    requires Stops(grain, taker, best)
    ensures taker.funds < best.price
  {
    BelowBoundIsFloor(taker.funds, best.price, grain);
    FloorBounds(taker.funds, best.price);
  }
}
