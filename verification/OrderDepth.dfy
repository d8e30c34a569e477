/** One side of the book in memory: an id map and the sorted queue of its keys. */
module OrderDepths {
  import opened Types
  import opened PriceTime

  /** The treemap's Put: keys stay sorted and an equal key is not added twice. */
  function PutKey(side: Side, queue: seq<QueueKey>, k: QueueKey): seq<QueueKey> {
    if queue == [] || Compare(side, k, queue[0]) < 0 then [k] + queue
    else if k == queue[0] then queue
    else [queue[0]] + PutKey(side, queue[1..], k)
  }

  function KeyIndex(queue: seq<QueueKey>, k: QueueKey): (i: nat)
    ensures i <= |queue| && (i < |queue| ==> queue[i] == k)
    ensures forall j :: 0 <= j < i ==> queue[j] != k
  {
    if queue == [] || queue[0] == k then 0 else 1 + KeyIndex(queue[1..], k)
  }

  /** The treemap's Remove. */
  function RemoveKey(queue: seq<QueueKey>, k: QueueKey): seq<QueueKey> {
    var i := KeyIndex(queue, k);
    if i == |queue| then queue else queue[..i] + queue[i + 1..]
  }

  function KeysOf(q: seq<BookOrder>): (keys: seq<QueueKey>)
    ensures |keys| == |q|
    ensures forall i :: 0 <= i < |q| ==> keys[i] == KeyOf(q[i])
  {
    if q == [] then [] else [KeyOf(q[0])] + KeysOf(q[1..])
  }

  /** Putting the key of a fresh order is inserting the order. */
  lemma {:induction false} PutIsInsert(side: Side, q: seq<BookOrder>, o: BookOrder)
    requires o.id !in Ids(q)
    ensures PutKey(side, KeysOf(q), KeyOf(o)) == KeysOf(Insert(side, q, o))
  {
    if q != [] {
      IdsTail(q);
      PutIsInsert(side, q[1..], o);
      assert KeysOf(q)[1..] == KeysOf(q[1..]);
    }
  }

  /** Removing a key is removing the order it belongs to. */
  lemma {:induction false} RemoveIsRemoveAt(q: seq<BookOrder>, i: nat)
    requires DistinctIds(q) && i < |q|
    ensures RemoveKey(KeysOf(q), KeyOf(q[i])) == KeysOf(RemoveAt(q, i))
  {
    var j := KeyIndex(KeysOf(q), KeyOf(q[i]));
    assert KeysOf(q)[i] == KeyOf(q[i]);
    assert j <= i;
    DistinctIndex(q, i, j);
  }

  lemma {:induction false} OrderMapOfUpdate(q: seq<BookOrder>, i: nat, o: BookOrder)
    requires DistinctIds(q) && i < |q| && o.id == q[i].id
    ensures OrderMap(q[i := o]) == OrderMap(q)[o.id := o]
  {
    if i > 0 {
      assert q[i := o][1..] == q[1..][i - 1 := o];
      OrderMapOfUpdate(q[1..], i - 1, o);
      assert q[0].id != q[i].id;
    } else {
      assert q[i := o][1..] == q[1..];
    }
  }

  /** What decrSize leaves of a queue: the i-th order smaller, or gone when nothing is left of it. */
  function Decreased(q: seq<BookOrder>, i: nat, size: int): (r: seq<BookOrder>)
    requires i < |q|
    ensures |r| == if q[i].size == size then |q| - 1 else |q|
  {
    if q[i].size == size then RemoveAt(q, i) else q[i := q[i].(size := q[i].size - size)]
  }

  /** Map and queue after decrSize describe the decreased queue. */
  lemma {:induction false} DecreasedFacts(side: Side, q: seq<BookOrder>, i: nat, size: int)
    requires Sorted(side, q) && DistinctIds(q) && i < |q|
    ensures var q', o := Decreased(q, i, size), q[i].(size := q[i].size - size);
            && Sorted(side, q') && DistinctIds(q')
            && (if o.size == 0 then OrderMap(q') == OrderMap(q)[o.id := o] - {o.id} && KeysOf(q') == RemoveKey(KeysOf(q), KeyOf(o))
                else OrderMap(q') == OrderMap(q)[o.id := o] && KeysOf(q') == KeysOf(q))
  {
    var o := q[i].(size := q[i].size - size);
    if o.size == 0 {
      OrderMapOfRemoval(q, i);
      RemoveIsRemoveAt(q, i);
      RemovedStaysSorted(side, q, i);
      UpdateThenRemove(OrderMap(q), o);
    } else {
      OrderMapOfUpdate(q, i, o);
      ResizedStaysSorted(side, q, i, o);
    }
  }

  lemma {:induction false} UpdateThenRemove(m: map<int, BookOrder>, o: BookOrder)
    ensures m[o.id := o] - {o.id} == m - {o.id}
  {
  }

  lemma {:induction false} RemovedStaysSorted(side: Side, q: seq<BookOrder>, i: nat)
    requires Sorted(side, q) && DistinctIds(q) && i < |q|
    ensures Sorted(side, RemoveAt(q, i)) && DistinctIds(RemoveAt(q, i))
  {
  }

  lemma {:induction false} ResizedStaysSorted(side: Side, q: seq<BookOrder>, i: nat, o: BookOrder)
    requires Sorted(side, q) && DistinctIds(q) && i < |q| && KeyOf(o) == KeyOf(q[i])
    ensures Sorted(side, q[i := o]) && DistinctIds(q[i := o]) && KeysOf(q[i := o]) == KeysOf(q)
  {
  }

  class OrderDepth {
    const side: Side
    var orders: map<int, BookOrder>
    var queue: seq<QueueKey>

    /** The abstract value: the orders in queue order. */
    ghost var contents: seq<BookOrder>

    ghost predicate Valid()
      reads this
    {
      Sorted(side, contents) && DistinctIds(contents) && orders == OrderMap(contents) && queue == KeysOf(contents)
    }

    constructor (side: Side)
      ensures Valid() && contents == [] && this.side == side
    {
      this.side := side;
      orders, queue, contents := map[], [], [];
    }

    method Add(order: BookOrder)
      requires Valid() && order.id !in orders
      modifies this
      ensures Valid() && contents == Insert(side, old(contents), order)
    {
      OrderMapKeys(contents);
      OrderMapOfInsert(side, contents, order);
      PutIsInsert(side, contents, order);
      InsertSorted(side, contents, order);
      InsertDistinct(side, contents, order);
      orders := orders[order.id := order];
      queue := PutKey(side, queue, KeyOf(order));
      contents := Insert(side, contents, order);
    }

    /** The queue position of a resting order. */
    ghost function At(orderId: int): (i: nat)
      requires Valid() && orderId in orders
      reads this
      ensures i < |contents| && contents[i].id == orderId && orders[orderId] == contents[i]
    {
      OrderMapKeys(contents);
      IndexOfIn(contents, orderId);
      OrderMapAt(contents, IndexOf(contents, orderId));
      IndexOf(contents, orderId)
    }

    /** Fails for an unknown order or too large a size; an order without size left is removed. */
    method DecrSize(orderId: int, size: int) returns (err: bool)
      requires Valid()
      modifies this
      ensures Valid()
      ensures err <==> orderId !in old(orders) || old(orders)[orderId].size < size
      ensures err ==> contents == old(contents)
      ensures !err ==> contents == Decreased(old(contents), old(At(orderId)), size)
    {
      if orderId !in orders {
        return true;
      }
      var order := orders[orderId];
      if order.size < size {
        return true;
      }
      ghost var i := At(orderId);
      DecreasedFacts(side, contents, i, size);
      order := order.(size := order.size - size);
      orders := orders[orderId := order];
      contents := Decreased(contents, i, size);
      if order.size == 0 {
        orders := orders - {orderId};
        queue := RemoveKey(queue, KeyOf(order));
      }
      return false;
    }
  }
}
