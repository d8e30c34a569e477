/** The services over the database: the loops that execute fills and bills, proved against their effect on the ledger. */
module OrderServices {
  import opened Types
  import opened Sums
  import opened Tables
  import opened Accounts
  import opened Orders

  /** The loop stops where Visited says. */
  lemma {:induction false} VisitedIs(fills: seq<Fill>, k: nat)
    requires k <= |fills| && forall i :: 0 <= i < k - 1 ==> fills[i].TradeFill?
    requires k == |fills| || (k > 0 && fills[k - 1].DoneFill?)
    ensures Visited(fills) == k
    decreases |fills|
  {
    if k > 1 {
      assert fills[0].TradeFill?;
      VisitedIs(fills[1..], k - 1);
    } else if k == 1 && fills[0].TradeFill? {
      assert fills[1..] == [];
    }
  }

  datatype Reply = Done | OrderNotFound | OrderStatusInvalid

  /** The account, bill, order and fill tables; a method is one transaction. */
  class OrderService {
    const product: Product
    const limits: Limits
    var accounts: map<Owner, Account>
    var bills: seq<Bill>
    var orders: map<int, Order>
    var fills: seq<Fill>

    ghost function Model(): Ledger
      reads this
    {
      Ledger(Books(accounts, bills), orders, fills)
    }

    constructor (product: Product, limits: Limits, accounts: map<Owner, Account>)
      ensures Model() == Ledger(Books(accounts, []), map[], [])
      ensures this.product == product && this.limits == limits
    {
      this.product, this.limits, this.accounts := product, limits, accounts;
      bills, orders, fills := [], map[], [];
    }

    method HoldBalance(owner: Owner, size: int) returns (r: Held)
      modifies this`accounts, this`bills
      ensures var held := Accounts.HoldBalance(old(Books(accounts, bills)), owner, size);
              r == held && Books(accounts, bills) == if held.Held? then held.books else old(Books(accounts, bills))
    {
      if size <= 0 {
        return NotPositive;
      }
      if owner !in accounts || accounts[owner].available < size {
        return NotEnough;
      }
      var account := accounts[owner];
      account := account.(available := account.available - size, hold := account.hold + size);
      bills := bills + [Bill(owner, -size, size, true, None)];
      accounts := accounts[owner := account];
      return Held(Books(accounts, bills));
    }

    /** `id` is the key the database gives the new row. */
    method PlaceOrder(request: Request, id: int) returns (r: Placed)
      modifies this`accounts, this`bills, this`orders
      ensures r == Orders.PlaceOrder(old(Books(accounts, bills)), product, limits, request, id)
      ensures r.Placed? ==> Books(accounts, bills) == r.books && orders == old(orders)[id := r.order]
      ensures !r.Placed? ==> Model() == old(Model())
    {
      var size, price, funds := request.size, request.price, request.funds;
      var s, q, f: int := 0, 0, 0;
      var kind: OrderType;
      match request.kind {
        case RequestLimit =>
          kind := Limit;
          s := Round(size);
          if s as real < limits.baseMin {
            return Malformed(SizeTooSmall);
          }
          q := Round(price);
          if q < 0 {
            return Malformed(NegativePrice);
          }
          f := s * q;
        case RequestMarket =>
          kind := Market;
          if request.side == Buy {
            f := Round(funds);
            if f as real < limits.quoteMin {
              return Malformed(FundsTooSmall);
            }
            f := f * Pow10(product.baseScale);
          } else {
            s := Round(size);
            if s as real < limits.baseMin {
              return Malformed(SizeTooSmall);
            }
          }
        case RequestOther =>
          return Malformed(UnknownType);
      }
      var order := Order(id, request.user, request.side, kind, s, f, q, StatusNew, 0, 0);
      var owner, amount;
      if request.side == Buy {
        owner, amount := Owner(request.user, Quote), f;
      } else {
        owner, amount := Owner(request.user, Base), s;
      }
      var held := HoldBalance(owner, amount);
      if !held.Held? {
        return Refused(held);
      }
      orders := orders[id := order];
      return Orders.Placed.Placed(order, held.books);
    }

    method UpdateOrderStatus(id: int, was: Status, status: Status)
      modifies this`orders
      ensures orders == if id in old(orders) && old(orders)[id].status == was then old(orders)[id := old(orders)[id].(status := status)]
                        else old(orders)
    {
      if id in orders && orders[id].status == was {
        orders := orders[id := orders[id].(status := status)];
      }
    }

    /** One fill: the order's new amounts or status, and the bills to add. */
    method SettleFill(order: Order, fill: Fill) returns (after: Order, added: seq<Bill>)
      ensures Settled(after, added) == SettleOne(order, fill)
    {
      after, added := order, [];
      if fill.TradeFill? {
        var executedValue := fill.size * fill.price;
        after := order.(executedValue := order.executedValue + executedValue, filledSize := order.filledSize + fill.size);
        if order.side == Buy {
          added := [Delayed(order.user, Base, fill.size, 0, order.id), Delayed(order.user, Quote, 0, -executedValue, order.id)];
        } else {
          added := [Delayed(order.user, Base, 0, -fill.size, order.id), Delayed(order.user, Quote, executedValue, 0, order.id)];
        }
      } else {
        after := order.(status := if fill.reason == Cancelled then StatusCancelled else StatusFilled);
        if order.side == Buy {
          var remainingFunds := order.funds - order.executedValue;
          if remainingFunds > 0 {
            added := [Delayed(order.user, Quote, remainingFunds, -remainingFunds, order.id)];
          }
        } else {
          var remainingSize := order.size - order.filledSize;
          if remainingSize > 0 {
            added := [Delayed(order.user, Base, remainingSize, -remainingSize, order.id)];
          }
        }
      }
    }

    /** The loop over the order's fills: which it marks, what becomes of the order, and the bills to add. */
    method SettleFills(order: Order, table: seq<Fill>, id: int, found: seq<nat>) returns (after: Order, added: seq<Bill>, rows: seq<Fill>)
      requires Found(table, Pending(id), FILL_LIMIT, found)
      ensures |found| <= |Select(table, Pending(id))|
      ensures var due := Select(table, Pending(id))[..|found|];
              && Settled(after, added) == SettleAll(order, due[..Visited(due)])
              && rows == Mark(table, Pending(id), Settling(), Visited(due))
    {
      hide SettleOne, Select, Visited;
      after, added, rows := order, [], table;
      ghost var due := Select(table, Pending(id))[..|found|];
      var i := 0;
      while i < |found|
        invariant i <= |found| && forall k :: 0 <= k < i ==> due[k].TradeFill?
        invariant Settled(after, added) == SettleAll(order, due[..i])
        invariant rows == Mark(table, Pending(id), Settling(), i)
      {
        FoundRow(table, Pending(id), FILL_LIMIT, found, i);
        MarkNext(table, Pending(id), Settling(), i, found[i]);
        assert due[..i + 1][..i] == due[..i];
        var fill := rows[found[i]];
        assert fill == due[i];
        rows := rows[found[i] := fill.(settled := true)];
        i := i + 1;
        var more;
        after, more := SettleFill(after, fill);
        added := added + more;
        if fill.DoneFill? {
          break;
        }
      }
      VisitedIs(due, i);
    }

    method ExecuteFill(id: int) returns (reply: Reply)
      modifies this`bills, this`orders, this`fills
      ensures match Orders.ExecuteFill(old(Model()), id)
              case Executed(l) => reply.Done? && Model() == l
              case NotFound => reply.OrderNotFound? && Model() == old(Model())
              case AlreadyEnded => reply.OrderStatusInvalid? && Model() == old(Model())
    {
      hide SettleAll, Select, Mark, Visited;
      reply := Done;
      if id !in orders {
        return OrderNotFound;
      }
      var order := orders[id];
      if order.status == StatusFilled || order.status == StatusCancelled {
        return OrderStatusInvalid;
      }
      ghost var l := Model();
      var found := Query(fills, Pending(id), FILL_LIMIT);
      if |found| == 0 {
        return;
      }
      var after, added, rows := SettleFills(order, fills, id, found);
      DueIsVisited(l, id, |found|);
      bills := bills + added;
      orders := orders[id := after];
      fills := rows;
    }

    method BookBills(account: Account, table: seq<Bill>, owner: Owner, found: seq<nat>) returns (after: Account, rows: seq<Bill>)
      requires Found(table, Unsettled(owner), BILL_LIMIT, found)
      ensures |found| <= |Select(table, Unsettled(owner))|
      ensures after == Booked(account, Select(table, Unsettled(owner))[..|found|])
      ensures rows == Mark(table, Unsettled(owner), Settle(), |found|)
    {
      after, rows := account, table;
      ghost var due := Select(table, Unsettled(owner))[..|found|];
      var i := 0;
      while i < |found|
        invariant i <= |found| && after == Booked(account, due[..i])
        invariant rows == Mark(table, Unsettled(owner), Settle(), i)
      {
        FoundRow(table, Unsettled(owner), BILL_LIMIT, found, i);
        MarkNext(table, Unsettled(owner), Settle(), i, found[i]);
        assert due[..i + 1][..i] == due[..i];
        var bill := rows[found[i]];
        assert bill == due[i];
        after := after.(available := after.available + bill.available, hold := after.hold + bill.hold);
        rows := rows[found[i] := bill.(settled := true)];
        i := i + 1;
      }
      assert due[..i] == due;
    }

    method ExecuteBill(owner: Owner)
      modifies this`accounts, this`bills
      ensures Books(accounts, bills) == Accounts.ExecuteBill(old(Books(accounts, bills)), owner)
    {
      hide Select, Mark, Booked;
      ghost var books := Books(accounts, bills);
      DueIsPrefix(books, owner);
      var account := if owner in accounts then accounts[owner] else Account(owner, 0, 0);
      var found := Query(bills, Unsettled(owner), BILL_LIMIT);
      if |found| == 0 {
        return;
      }
      var after, rows := BookBills(account, bills, owner, found);
      accounts := accounts[owner := after];
      bills := rows;
    }
  }

  /** The rows the loop settled are the due fills. */
  lemma {:induction false} DueIsVisited(l: Ledger, id: int, n: nat)
    requires n == (if |Select(l.fills, Pending(id))| <= FILL_LIMIT then |Select(l.fills, Pending(id))| else FILL_LIMIT)
    ensures var due := Select(l.fills, Pending(id))[..n];
            DueFills(l, id) == due[..Visited(due)] && Visited(due) == |DueFills(l, id)|
  {
    var all := Select(l.fills, Pending(id));
    assert n == |all| ==> all[..n] == all;
  }
}
