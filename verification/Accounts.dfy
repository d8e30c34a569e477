/** Balances and bills: what a user owns, what is held for orders, and the changes still to be booked. */
module Accounts {
  import opened Types
  import opened Sums
  import opened Tables

  /** The product's two currencies. Base amounts count 10^-B, quote amounts 10^-(B+Q). */
  datatype Currency = Base | Quote

  datatype Owner = Owner(user: int, currency: Currency)

  datatype Account = Account(owner: Owner, available: int, hold: int)

  /** A change to an account; unsettled until ExecuteBill books it. `note` names the order it is for. */
  datatype Bill = Bill(owner: Owner, available: int, hold: int, settled: bool, note: Option<int>)

  datatype Books = Books(accounts: map<Owner, Account>, bills: seq<Bill>)

  datatype Held = Held(books: Books) | NotPositive | NotEnough

  const BILL_LIMIT := 100

  function HoldBalance(b: Books, owner: Owner, size: int): Held {
    if size <= 0 then NotPositive
    else if owner !in b.accounts || b.accounts[owner].available < size then NotEnough
    else
      var a := b.accounts[owner];
      Held(Books(b.accounts[owner := a.(available := a.available - size, hold := a.hold + size)],
                 b.bills + [Bill(owner, -size, size, true, None)]))
  }

  function Unsettled(owner: Owner): Bill -> bool {
    (b: Bill) => !b.settled && b.owner == owner
  }

  function Settle(): Bill -> Bill {
    (b: Bill) => b.(settled := true)
  }

  function Available(): Bill -> int {
    (b: Bill) => b.available
  }

  function Hold(): Bill -> int {
    (b: Bill) => b.hold
  }

  function Booked(a: Account, bills: seq<Bill>): Account {
    a.(available := a.available + SumSeq(bills, Available()), hold := a.hold + SumSeq(bills, Hold()))
  }

  /** The bills one ExecuteBill books: the first hundred of the owner. */
  function DueBills(b: Books, owner: Owner): seq<Bill> {
    var all := Select(b.bills, Unsettled(owner));
    if |all| <= BILL_LIMIT then all else all[..BILL_LIMIT]
  }

  /** Books the due bills; without any, also the creation of a missing account is rolled back. */
  function ExecuteBill(b: Books, owner: Owner): Books {
    var due := DueBills(b, owner);
    if due == [] then b
    else
      var a := if owner in b.accounts then b.accounts[owner] else Account(owner, 0, 0);
      Books(b.accounts[owner := Booked(a, due)], Mark(b.bills, Unsettled(owner), Settle(), |due|))
  }

  // ------------------------------------------------------- what is kept

  /** Sums over a table, by owner or by currency. */
  function HoldTo(owner: Owner): Bill -> int {
    (b: Bill) => if !b.settled && b.owner == owner then b.hold else 0
  }

  function MoneyTo(currency: Currency): Bill -> int {
    (b: Bill) => if !b.settled && b.owner.currency == currency then b.available + b.hold else 0
  }

  function MoneyOf(currency: Currency): Account -> int {
    (a: Account) => if a.owner.currency == currency then a.available + a.hold else 0
  }

  function AvailableTo(owner: Owner): Bill -> int {
    (b: Bill) => if !b.settled && b.owner == owner then b.available else 0
  }

  function AvailableOf(accounts: map<Owner, Account>, owner: Owner): int {
    if owner in accounts then accounts[owner].available else 0
  }

  /** What an owner can use, with what unsettled bills will add. */
  ghost function AvailableAfterBills(b: Books, owner: Owner): int {
    AvailableOf(b.accounts, owner) + SumSeq(b.bills, AvailableTo(owner))
  }

  function HoldOf(accounts: map<Owner, Account>, owner: Owner): int {
    if owner in accounts then accounts[owner].hold else 0
  }

  /** Hold with what unsettled bills will still take from it. */
  ghost function HoldAfterBills(b: Books, owner: Owner): int {
    HoldOf(b.accounts, owner) + SumSeq(b.bills, HoldTo(owner))
  }

  /** All money of a currency: on accounts and in unsettled bills. */
  ghost function Money(b: Books, currency: Currency): int {
    Sum(b.accounts, MoneyOf(currency)) + SumSeq(b.bills, MoneyTo(currency))
  }

  /** Accounts sit under their owner; available money is not negative; a bill gives money and takes hold. */
  ghost predicate ValidBooks(b: Books) {
    && (forall o :: o in b.accounts ==> b.accounts[o].owner == o && b.accounts[o].available >= 0)
    && (forall i :: 0 <= i < |b.bills| && !b.bills[i].settled ==> b.bills[i].available >= 0 && b.bills[i].hold <= 0)
  }

  function BookedAvailable(owner: Owner): Bill -> int {
    (b: Bill) => if b.settled && b.owner == owner then b.available else 0
  }

  function BookedHold(owner: Owner): Bill -> int {
    (b: Bill) => if b.settled && b.owner == owner then b.hold else 0
  }

  /** The settled bills tell every account: what was deposited and what they say since. */
  ghost predicate Audited(deposits: Books, b: Books) {
    && (forall owner :: AvailableOf(b.accounts, owner)
                        == AvailableOf(deposits.accounts, owner) + SumSeq(b.bills, BookedAvailable(owner)))
    && (forall owner :: HoldOf(b.accounts, owner) == HoldOf(deposits.accounts, owner) + SumSeq(b.bills, BookedHold(owner)))
  }

  // ------------------------------------------------------- holding

  lemma {:induction false} SumSeqAppend<T>(s: seq<T>, x: T, f: T -> int)
    ensures SumSeq(s + [x], f) == SumSeq(s, f) + f(x)
  {
    assert (s + [x])[..|s + [x]| - 1] == s;
  }

  /** Holding moves the amount from available to hold, within what is available, and makes or loses nothing. */
  lemma {:induction false} HoldMoves(b: Books, owner: Owner, size: int, other: Owner, currency: Currency)
    requires ValidBooks(b) && HoldBalance(b, owner, size).Held?
    ensures var b' := HoldBalance(b, owner, size).books;
            && ValidBooks(b') && size > 0
            && Money(b', currency) == Money(b, currency)
            && HoldAfterBills(b', other) == HoldAfterBills(b, other) + (if other == owner then size else 0)
            && AvailableAfterBills(b', other) == AvailableAfterBills(b, other) - (if other == owner then size else 0)
  {
    var bill := Bill(owner, -size, size, true, None);
    SumSeqAppend(b.bills, bill, HoldTo(other));
    SumSeqAppend(b.bills, bill, AvailableTo(other));
    SumSeqAppend(b.bills, bill, MoneyTo(currency));
    SumPut(b.accounts, MoneyOf(currency), owner, HoldBalance(b, owner, size).books.accounts[owner]);
  }

  /** Holding writes the bill that explains it. */
  lemma {:induction false} HoldAudits(deposits: Books, b: Books, owner: Owner, size: int)
    requires Audited(deposits, b) && HoldBalance(b, owner, size).Held?
    ensures Audited(deposits, HoldBalance(b, owner, size).books)
  {
    hide SumSeq;
    forall other
      ensures AvailableOf(HoldBalance(b, owner, size).books.accounts, other)
              == AvailableOf(deposits.accounts, other) + SumSeq(HoldBalance(b, owner, size).books.bills, BookedAvailable(other))
      ensures HoldOf(HoldBalance(b, owner, size).books.accounts, other)
              == HoldOf(deposits.accounts, other) + SumSeq(HoldBalance(b, owner, size).books.bills, BookedHold(other))
    {
      HoldAuditsOne(b, owner, size, other);
    }
  }

  lemma {:induction false} HoldAuditsOne(b: Books, owner: Owner, size: int, other: Owner)
    requires HoldBalance(b, owner, size).Held?
    ensures var b' := HoldBalance(b, owner, size).books;
            var gain := if other == owner then size else 0;
            && AvailableOf(b'.accounts, other) == AvailableOf(b.accounts, other) - gain
            && SumSeq(b'.bills, BookedAvailable(other)) == SumSeq(b.bills, BookedAvailable(other)) - gain
            && HoldOf(b'.accounts, other) == HoldOf(b.accounts, other) + gain
            && SumSeq(b'.bills, BookedHold(other)) == SumSeq(b.bills, BookedHold(other)) + gain
  {
    hide SumSeq;
    var bill := Bill(owner, -size, size, true, None);
    SumSeqAppend(b.bills, bill, BookedAvailable(other));
    SumSeqAppend(b.bills, bill, BookedHold(other));
  }

  lemma {:induction false} UnsettledAudit(deposits: Books, b: Books, more: seq<Bill>)
    requires Audited(deposits, b) && forall i :: 0 <= i < |more| ==> !more[i].settled
    ensures Audited(deposits, b.(bills := b.bills + more))
  {
    forall owner
      ensures SumSeq(b.bills + more, BookedAvailable(owner)) == SumSeq(b.bills, BookedAvailable(owner))
      ensures SumSeq(b.bills + more, BookedHold(owner)) == SumSeq(b.bills, BookedHold(owner))
    {
      SumSeqConcat(b.bills, more, BookedAvailable(owner));
      SumSeqConcat(b.bills, more, BookedHold(owner));
      NothingBooked(more, owner);
    }
  }

  lemma {:induction false} NothingBooked(bills: seq<Bill>, owner: Owner)
    requires forall i :: 0 <= i < |bills| ==> !bills[i].settled
    ensures SumSeq(bills, BookedAvailable(owner)) == 0 && SumSeq(bills, BookedHold(owner)) == 0
  {
    if bills != [] {
      NothingBooked(bills[..|bills| - 1], owner);
      assert !bills[|bills| - 1].settled;
    }
  }

  function GainAvailable(owner: Owner): Bill -> int {
    (b: Bill) => if b.owner == owner then b.available else 0
  }

  function GainHold(owner: Owner): Bill -> int {
    (b: Bill) => if b.owner == owner then b.hold else 0
  }

  lemma {:induction false} DueGains(due: seq<Bill>, owner: Owner, other: Owner)
    requires forall i :: 0 <= i < |due| ==> due[i].owner == owner
    ensures SumSeq(due, GainAvailable(other)) == if other == owner then SumSeq(due, Available()) else 0
    ensures SumSeq(due, GainHold(other)) == if other == owner then SumSeq(due, Hold()) else 0
  {
    if due != [] {
      DueGains(due[..|due| - 1], owner, other);
      assert due[|due| - 1].owner == owner;
    }
  }

  /** Booking settles exactly the bills it adds to the account. */
  lemma {:induction false} BookingAudits(deposits: Books, b: Books, owner: Owner)
    requires Audited(deposits, b)
    ensures Audited(deposits, ExecuteBill(b, owner))
  {
    var due, b' := DueBills(b, owner), ExecuteBill(b, owner);
    if due != [] {
      DueIsPrefix(b, owner);
      forall other
        ensures AvailableOf(b'.accounts, other) == AvailableOf(deposits.accounts, other) + SumSeq(b'.bills, BookedAvailable(other))
        ensures HoldOf(b'.accounts, other) == HoldOf(deposits.accounts, other) + SumSeq(b'.bills, BookedHold(other))
      {
        MarkSum(b.bills, Unsettled(owner), Settle(), |due|, BookedAvailable(other), GainAvailable(other));
        MarkSum(b.bills, Unsettled(owner), Settle(), |due|, BookedHold(other), GainHold(other));
        DueGains(due, owner, other);
      }
    }
  }

  // ------------------------------------------------------- booking

  function MinusHoldTo(owner: Owner): Bill -> int {
    (b: Bill) => if !b.settled && b.owner == owner then -b.hold else 0
  }

  function MinusAvailableTo(owner: Owner): Bill -> int {
    (b: Bill) => if !b.settled && b.owner == owner then -b.available else 0
  }

  function MinusMoneyTo(currency: Currency): Bill -> int {
    (b: Bill) => if !b.settled && b.owner.currency == currency then -b.available - b.hold else 0
  }

  lemma {:induction false} DueIsPrefix(b: Books, owner: Owner)
    ensures var due := DueBills(b, owner);
            && |due| <= |Select(b.bills, Unsettled(owner))| && due == Select(b.bills, Unsettled(owner))[..|due|]
            && forall i :: 0 <= i < |due| ==> !due[i].settled && due[i].owner == owner && due[i] in b.bills
  {
    var all := Select(b.bills, Unsettled(owner));
    var due := DueBills(b, owner);
    assert all[..|all|] == all;
    assert forall i :: 0 <= i < |due| ==> due[i] == all[i] && all[i] in all;
  }

  /** Sums over the due bills, all of one owner. */
  lemma {:induction false} DueSums(due: seq<Bill>, owner: Owner, other: Owner, currency: Currency)
    requires forall i :: 0 <= i < |due| ==> !due[i].settled && due[i].owner == owner
    ensures SumSeq(due, MinusHoldTo(other)) == if other == owner then -SumSeq(due, Hold()) else 0
    ensures SumSeq(due, MinusAvailableTo(other)) == if other == owner then -SumSeq(due, Available()) else 0
    ensures SumSeq(due, MinusMoneyTo(currency)) ==
            if owner.currency == currency then -SumSeq(due, Available()) - SumSeq(due, Hold()) else 0
  {
    if due != [] {
      var n := |due| - 1;
      DueSums(due[..n], owner, other, currency);
      assert !due[n].settled && due[n].owner == owner;
    }
  }

  lemma {:induction false} SumOfBills(due: seq<Bill>)
    requires forall i :: 0 <= i < |due| ==> due[i].available >= 0 && due[i].hold <= 0
    ensures SumSeq(due, Available()) >= 0 && SumSeq(due, Hold()) <= 0
  {
    if due != [] {
      SumOfBills(due[..|due| - 1]);
    }
  }

  lemma {:induction false} BookingMarks(b: Books, owner: Owner, other: Owner, currency: Currency)
    ensures var due := DueBills(b, owner);
            var bills := Mark(b.bills, Unsettled(owner), Settle(), |due|);
            && SumSeq(bills, HoldTo(other)) == SumSeq(b.bills, HoldTo(other)) - (if other == owner then SumSeq(due, Hold()) else 0)
            && SumSeq(bills, AvailableTo(other))
               == SumSeq(b.bills, AvailableTo(other)) - (if other == owner then SumSeq(due, Available()) else 0)
            && SumSeq(bills, MoneyTo(currency)) == SumSeq(b.bills, MoneyTo(currency))
               - (if owner.currency == currency then SumSeq(due, Available()) + SumSeq(due, Hold()) else 0)
  {
    DueIsPrefix(b, owner);
    var due := DueBills(b, owner);
    MarkSum(b.bills, Unsettled(owner), Settle(), |due|, HoldTo(other), MinusHoldTo(other));
    MarkSum(b.bills, Unsettled(owner), Settle(), |due|, AvailableTo(other), MinusAvailableTo(other));
    MarkSum(b.bills, Unsettled(owner), Settle(), |due|, MoneyTo(currency), MinusMoneyTo(currency));
    DueSums(due, owner, other, currency);
  }

  /** Booking bills moves money from the bills to the account: nothing is made or lost, and hold ends where the
      unsettled bills said. */
  lemma {:induction false} BookingMoves(b: Books, owner: Owner, other: Owner, currency: Currency)
    requires ValidBooks(b)
    ensures var b' := ExecuteBill(b, owner);
            && ValidBooks(b')
            && Money(b', currency) == Money(b, currency)
            && HoldAfterBills(b', other) == HoldAfterBills(b, other)
            && AvailableAfterBills(b', other) == AvailableAfterBills(b, other)
  {
    var due := DueBills(b, owner);
    if due != [] {
      BookingMarks(b, owner, other, currency);
      DueIsPrefix(b, owner);
      SumOfBills(due);
      var b' := ExecuteBill(b, owner);
      SumPut(b.accounts, MoneyOf(currency), owner, b'.accounts[owner]);
      forall i | 0 <= i < |b'.bills| && !b'.bills[i].settled
        ensures b'.bills[i].available >= 0 && b'.bills[i].hold <= 0
      {
        MarkAt(b.bills, Unsettled(owner), Settle(), |due|, i);
      }
    }
  }

  /** A call with nothing to book leaves everything as it is, and a missing account is made by the first bill. */
  lemma {:induction false} BookingMakesAccounts(b: Books, owner: Owner)
    ensures Select(b.bills, Unsettled(owner)) == [] ==> ExecuteBill(b, owner) == b
    ensures Select(b.bills, Unsettled(owner)) != [] ==> ExecuteBill(b, owner).accounts.Keys == b.accounts.Keys + {owner}
    ensures forall other :: other in b.accounts && other != owner ==>
              other in ExecuteBill(b, owner).accounts && ExecuteBill(b, owner).accounts[other] == b.accounts[other]
  {
  }

  /** Every call books the oldest hundred, so repeated calls book everything. */
  lemma {:induction false} BookingProgresses(b: Books, owner: Owner)
    ensures var left := |Select(b.bills, Unsettled(owner))|;
            |Select(ExecuteBill(b, owner).bills, Unsettled(owner))| == if left <= 100 then 0 else left - 100
  {
    DueIsPrefix(b, owner);
    if DueBills(b, owner) != [] {
      MarkDeselects(b.bills, Unsettled(owner), Settle(), |DueBills(b, owner)|);
    }
  }
}
