/** Price-time priority: the comparators of a depth and sequences sorted by them. */
module PriceTime {
  import opened Types

  datatype QueueKey = QueueKey(price: int, orderId: int)

  function KeyOf(o: BookOrder): QueueKey {
    QueueKey(o.price, o.id)
  }

  function Sign(x: int): int {
    if x == 0 then 0 else if x > 0 then 1 else -1
  }

  /** priceOrderIdKeyAscComparator: cheapest first, then the older id. */
  function AscCompare(a: QueueKey, b: QueueKey): int {
    var x := Sign(a.price - b.price);
    if x != 0 then x else Sign(a.orderId - b.orderId)
  }

  /** priceOrderIdKeyDescComparator: dearest first, then the older id. */
  function DescCompare(a: QueueKey, b: QueueKey): int {
    var x := Sign(a.price - b.price);
    if x != 0 then -x else Sign(a.orderId - b.orderId)
  }

  /** Asks are queued ascending, bids descending. */
  function Compare(side: Side, a: QueueKey, b: QueueKey): int {
    if side.Sell? then AscCompare(a, b) else DescCompare(a, b)
  }

  /** Both comparators are total orders whose only ties are equal keys, as the treemap needs. */
  lemma {:induction false} CompareIsTotalOrder(side: Side, a: QueueKey, b: QueueKey, c: QueueKey)
    ensures Compare(side, a, b) == 0 <==> a == b
    ensures Compare(side, a, b) == -Compare(side, b, a)
    ensures Compare(side, a, b) < 0 && Compare(side, b, c) < 0 ==> Compare(side, a, c) < 0
    ensures a.price == b.price ==> (Compare(side, a, b) < 0 <==> a.orderId < b.orderId)
    ensures Compare(side, a, b) < 0 && a.price != b.price <==> (if side.Sell? then a.price < b.price else a.price > b.price)
  {
  }

  predicate Before(side: Side, a: BookOrder, b: BookOrder) {
    Compare(side, KeyOf(a), KeyOf(b)) < 0
  }

  ghost predicate Sorted(side: Side, q: seq<BookOrder>) {
    forall i, j :: 0 <= i < j < |q| ==> Before(side, q[i], q[j])
  }

  ghost predicate DistinctIds(q: seq<BookOrder>) {
    forall i, j :: 0 <= i < j < |q| ==> q[i].id != q[j].id
  }

  function Ids(q: seq<BookOrder>): set<int> {
    set o | o in q :: o.id
  }

  function Insert(side: Side, q: seq<BookOrder>, o: BookOrder): (r: seq<BookOrder>)
    ensures |r| == |q| + 1
    ensures forall x :: x in r <==> x == o || x in q
  {
    if q == [] || Before(side, o, q[0]) then [o] + q else [q[0]] + Insert(side, q[1..], o)
  }

  lemma {:induction false} InsertSorted(side: Side, q: seq<BookOrder>, o: BookOrder)
    requires Sorted(side, q) && o.id !in Ids(q)
    ensures Sorted(side, Insert(side, q, o))
  {
    if q != [] && !Before(side, o, q[0]) {
      assert q[0].id != o.id by { assert q[0] in q; }
      assert Before(side, q[0], o);
      InsertSorted(side, q[1..], o) by { IdsTail(q); }
      var r := Insert(side, q[1..], o);
      forall x | x in r
        ensures Before(side, q[0], x)
      {
        if x != o {
          assert x in q[1..];
        }
      }
    }
  }

  lemma {:induction false} IdsTail(q: seq<BookOrder>)
    requires q != []
    ensures Ids(q) == {q[0].id} + Ids(q[1..])
  {
    forall x | x in Ids(q)
      ensures x == q[0].id || x in Ids(q[1..])
    {
      var o :| o in q && o.id == x;
      assert o == q[0] || o in q[1..];
    }
  }

  lemma {:induction false} InsertIds(side: Side, q: seq<BookOrder>, o: BookOrder)
    ensures Ids(Insert(side, q, o)) == Ids(q) + {o.id}
  {
    assert forall x :: x in q ==> x in Insert(side, q, o);
    assert o in Insert(side, q, o);
  }

  lemma {:induction false} InsertDistinct(side: Side, q: seq<BookOrder>, o: BookOrder)
    requires DistinctIds(q) && o.id !in Ids(q)
    ensures DistinctIds(Insert(side, q, o))
  {
    if q != [] && !Before(side, o, q[0]) {
      IdsTail(q);
      InsertDistinct(side, q[1..], o);
      InsertIds(side, q[1..], o);
      var r := Insert(side, q[1..], o);
      forall k | 0 <= k < |r|
        ensures r[k].id != q[0].id
      {
        assert r[k] in r;
        if r[k] != o {
          var j :| 0 <= j < |q[1..]| && q[1..][j] == r[k];
        } else {
          assert q[0] in q;
        }
      }
    } else {
      forall k | 0 <= k < |q|
        ensures q[k].id != o.id
      {
        assert q[k] in q;
      }
    }
  }

  /** A sorted sequence is determined by its elements. */
  lemma {:induction false} SortedUnique(side: Side, a: seq<BookOrder>, b: seq<BookOrder>)
    requires Sorted(side, a) && Sorted(side, b)
    requires forall x :: x in a <==> x in b
    ensures a == b
  {
    if |b| > 0 {
      assert b[0] in a;
    }
    if |a| > 0 {
      assert a[0] in b && b != [];
      assert b[0] in a;
      assert a[0] == b[0];
      forall x
        ensures x in a[1..] <==> x in b[1..]
      {
        if x in a[1..] { assert x in b; }
        if x in b[1..] { assert x in a; }
      }
      SortedUnique(side, a[1..], b[1..]);
    }
  }

  /** Distinct ids: the index of an order is determined by its id. */
  lemma {:induction false} DistinctIndex(q: seq<BookOrder>, i: int, j: int)
    requires DistinctIds(q) && 0 <= i < |q| && 0 <= j < |q| && q[i].id == q[j].id
    ensures i == j
  {
  }

  /** The position of an id, or |q| when it does not rest there. */
  function IndexOf(q: seq<BookOrder>, id: int): (i: nat)
    ensures i <= |q|
    ensures i < |q| ==> q[i].id == id
    ensures forall j :: 0 <= j < i ==> q[j].id != id
  {
    if q == [] || q[0].id == id then 0 else 1 + IndexOf(q[1..], id)
  }

  lemma {:induction false} IndexOfIn(q: seq<BookOrder>, id: int)
    ensures IndexOf(q, id) < |q| <==> id in Ids(q)
  {
    var i := IndexOf(q, id);
    if i < |q| {
      assert q[i] in q;
    } else {
      forall o | o in q
        ensures o.id != id
      {
        var j :| 0 <= j < |q| && q[j] == o;
      }
    }
  }

  function RemoveAt(q: seq<BookOrder>, i: nat): (r: seq<BookOrder>)
    requires i < |q|
    ensures |r| == |q| - 1
  {
    q[..i] + q[i + 1..]
  }

  lemma {:induction false} RemoveAtElements(q: seq<BookOrder>, i: nat)
    requires i < |q| && DistinctIds(q)
    ensures forall x :: x in RemoveAt(q, i) <==> x in q && x.id != q[i].id
    ensures Ids(RemoveAt(q, i)) == Ids(q) - {q[i].id}
  {
    var r := RemoveAt(q, i);
    forall x
      ensures x in r <==> x in q && x.id != q[i].id
    {
      if x in q && x.id != q[i].id {
        var j :| 0 <= j < |q| && q[j] == x;
        if j < i { assert r[j] == x; } else { assert r[j - 1] == x; }
      }
      if x in r {
        var j :| 0 <= j < |r| && r[j] == x;
        if j < i { assert q[j] == x; } else { assert q[j + 1] == x; }
      }
    }
    assert Ids(r) == Ids(q) - {q[i].id} by {
      forall id | id in Ids(q) && id != q[i].id
        ensures id in Ids(r)
      {
        var o :| o in q && o.id == id;
        assert o in r;
      }
    }
  }

  /** The orders of a queue by id, as the depth's order map holds them. */
  function OrderMap(q: seq<BookOrder>): map<int, BookOrder> {
    if q == [] then map[] else OrderMap(q[1..])[q[0].id := q[0]]
  }

  lemma {:induction false} OrderMapKeys(q: seq<BookOrder>)
    ensures OrderMap(q).Keys == Ids(q)
  {
    if q != [] {
      OrderMapKeys(q[1..]);
      IdsTail(q);
    }
  }

  lemma {:induction false} OrderMapAt(q: seq<BookOrder>, i: nat)
    requires DistinctIds(q) && i < |q|
    ensures q[i].id in OrderMap(q) && OrderMap(q)[q[i].id] == q[i]
  {
    if i > 0 {
      OrderMapAt(q[1..], i - 1);
      assert q[0].id != q[i].id;
    }
  }

  lemma {:induction false} OrderMapOfInsert(side: Side, q: seq<BookOrder>, o: BookOrder)
    requires o.id !in Ids(q)
    ensures OrderMap(Insert(side, q, o)) == OrderMap(q)[o.id := o]
  {
    if q != [] && !Before(side, o, q[0]) {
      IdsTail(q);
      OrderMapOfInsert(side, q[1..], o);
      assert Insert(side, q, o)[1..] == Insert(side, q[1..], o);
      assert q[0] in q;
    } else {
      assert Insert(side, q, o)[1..] == q;
    }
  }

  lemma {:induction false} UpdateRemoveCommute(m: map<int, BookOrder>, k: int, o: BookOrder, x: int)
    requires k != x
    ensures m[k := o] - {x} == (m - {x})[k := o]
  {
  }

  lemma {:induction false} UpdateRemove(m: map<int, BookOrder>, k: int, o: BookOrder)
    requires k !in m
    ensures m[k := o] - {k} == m
  {
  }

  lemma {:induction false} OrderMapOfRemoval(q: seq<BookOrder>, i: nat)
    requires DistinctIds(q) && i < |q|
    ensures OrderMap(RemoveAt(q, i)) == OrderMap(q) - {q[i].id}
  {
    var tail := q[1..];
    if i == 0 {
      assert RemoveAt(q, 0) == tail;
      OrderMapKeys(tail);
      assert q[0].id !in Ids(tail);
      UpdateRemove(OrderMap(tail), q[0].id, q[0]);
    } else {
      OrderMapOfRemoval(tail, i - 1);
      assert RemoveAt(q, i) == [q[0]] + RemoveAt(tail, i - 1);
      assert RemoveAt(q, i)[1..] == RemoveAt(tail, i - 1);
      UpdateRemoveCommute(OrderMap(tail), q[0].id, q[0], q[i].id);
    }
  }
}
