/** The pushed order book as a value: orders rebuilt from the log alone, and per-price totals kept beside them. */
module View {
  import opened Types
  import opened Sums

  datatype Entry = Entry(id: int, size: int, price: int, side: Side)

  datatype Level = Level(size: int, count: int)

  /** A Level2Change: the new total of one price level, zero when it is gone. */
  datatype Change = Change(sequence: int, key: LevelKey, size: int)

  datatype Book = Book(sequence: int, logOffset: int, logSeq: int, orders: map<int, Entry>, levels: map<LevelKey, Level>)

  const EMPTY := Book(0, 0, 0, map[], map[])

  datatype Saved = Panicked | Ignored | Saved(book: Book, change: Change)

  function Order(o: BookOrder): Entry {
    Entry(o.id, o.size, o.price, o.side)
  }

  /** The price level a new or changed order leaves, and the map with it. */
  function AddToLevel(levels: map<LevelKey, Level>, key: LevelKey, size: int): Level {
    if key in levels then Level(levels[key].size + size, levels[key].count + 1) else Level(size, 1)
  }

  function SaveOrder(v: Book, logOffset: int, logSeq: int, id: int, newSize: int, price: int, side: Side): Saved {
    var key := LevelKey(side, price);
    if newSize < 0 then Panicked
    else if id !in v.orders then
      if newSize == 0 then Ignored
      else
        var level := AddToLevel(v.levels, key, newSize);
        Saved(Book(v.sequence + 1, logOffset, logSeq, v.orders[id := Entry(id, newSize, price, side)], v.levels[key := level]),
              Change(v.sequence + 1, key, level.size))
    else if key !in v.levels then Panicked
    else
      var was := v.orders[id];
      var orders := if newSize == 0 then v.orders - {id} else v.orders[id := was.(size := newSize)];
      var size := v.levels[key].size - (was.size - newSize);
      var count := if newSize == 0 then v.levels[key].count - 1 else v.levels[key].count;
      var levels := if size == 0 then v.levels - {key} else v.levels[key := Level(size, count)];
      Saved(Book(v.sequence + 1, logOffset, logSeq, orders, levels), Change(v.sequence + 1, key, size))
  }

  // ------------------------------------------------------- the level index

  function SizeAt(key: LevelKey): Entry -> int {
    (e: Entry) => if e.side == key.side && e.price == key.price then e.size else 0
  }

  function CountAt(key: LevelKey): Entry -> int {
    (e: Entry) => if e.side == key.side && e.price == key.price then 1 else 0
  }

  ghost predicate WellSized(orders: map<int, Entry>) {
    forall id :: id in orders ==> orders[id].size > 0 && orders[id].id == id
  }

  /** Each level's size and count are the sum and number of the orders at that side and price, and a level
      exists exactly when it has an order. */
  ghost predicate Indexed(orders: map<int, Entry>, levels: map<LevelKey, Level>) {
    forall key :: IndexedAt(orders, levels, key)
  }

  ghost predicate ValidView(v: Book) {
    WellSized(v.orders) && Indexed(v.orders, v.levels)
  }

  /** A level has size exactly when it has orders. */
  lemma {:induction false} SizeMeansCount(orders: map<int, Entry>, key: LevelKey)
    requires WellSized(orders)
    ensures Sum(orders, SizeAt(key)) >= Sum(orders, CountAt(key)) >= 0
    ensures Sum(orders, CountAt(key)) == 0 ==> Sum(orders, SizeAt(key)) == 0
  {
    forall id | id in orders
      ensures 0 <= CountAt(key)(orders[id]) <= SizeAt(key)(orders[id])
    {
      assert orders[id].size > 0;
    }
    SumLe(orders, CountAt(key), SizeAt(key));
    SumNonNegative(orders, CountAt(key));
    if Sum(orders, CountAt(key)) == 0 {
      forall id | id in orders
        ensures SizeAt(key)(orders[id]) <= CountAt(key)(orders[id])
      {
        assert CountAt(key)(orders[id]) <= Sum(orders, CountAt(key));
      }
      SumLe(orders, SizeAt(key), CountAt(key));
    }
  }

  lemma {:induction false} CountsItself(orders: map<int, Entry>, id: int)
    requires WellSized(orders) && id in orders
    ensures var key := LevelKey(orders[id].side, orders[id].price);
            Sum(orders, CountAt(key)) >= 1 && Sum(orders, SizeAt(key)) >= orders[id].size
  {
    var key := LevelKey(orders[id].side, orders[id].price);
    forall i | i in orders
      ensures CountAt(key)(orders[i]) >= 0 && SizeAt(key)(orders[i]) >= 0
    {
      assert orders[i].size > 0;
    }
    SumNonNegative(orders, CountAt(key));
    SumNonNegative(orders, SizeAt(key));
    assert CountAt(key)(orders[id]) == 1 && SizeAt(key)(orders[id]) == orders[id].size;
  }

  /** What the level map says to a client: the size of every level. */
  ghost function Sizes(levels: map<LevelKey, Level>): map<LevelKey, int> {
    map key | key in levels :: levels[key].size
  }

  ghost function SetLevel(m: map<LevelKey, int>, key: LevelKey, size: int): map<LevelKey, int> {
    if size == 0 then m - {key} else m[key := size]
  }

  /** Aggregates of one level after an order is put or removed. */
  lemma {:induction false} PutAggregates(orders: map<int, Entry>, id: int, e: Entry, key: LevelKey)
    ensures Sum(orders[id := e], CountAt(key)) ==
              Sum(orders, CountAt(key)) + CountAt(key)(e) - (if id in orders then CountAt(key)(orders[id]) else 0)
    ensures Sum(orders[id := e], SizeAt(key)) ==
              Sum(orders, SizeAt(key)) + SizeAt(key)(e) - (if id in orders then SizeAt(key)(orders[id]) else 0)
  {
    SumPut(orders, CountAt(key), id, e);
    SumPut(orders, SizeAt(key), id, e);
  }

  lemma {:induction false} RemoveAggregates(orders: map<int, Entry>, id: int, key: LevelKey)
    requires id in orders
    ensures Sum(orders - {id}, CountAt(key)) == Sum(orders, CountAt(key)) - CountAt(key)(orders[id])
    ensures Sum(orders - {id}, SizeAt(key)) == Sum(orders, SizeAt(key)) - SizeAt(key)(orders[id])
  {
    SumRemove(orders, CountAt(key), id);
    SumRemove(orders, SizeAt(key), id);
  }

  ghost predicate IndexedAt(orders: map<int, Entry>, levels: map<LevelKey, Level>, key: LevelKey) {
    && (key in levels <==> Sum(orders, CountAt(key)) > 0)
    && (key in levels ==> levels[key] == Level(Sum(orders, SizeAt(key)), Sum(orders, CountAt(key))))
  }

  lemma {:induction false} SaveNewOrder(v: Book, logOffset: int, logSeq: int, id: int, size: int, price: int, side: Side)
    requires ValidView(v) && id !in v.orders && size > 0
    ensures var r := SaveOrder(v, logOffset, logSeq, id, size, price, side);
            r.Saved? && ValidView(r.book) && r.book.orders == v.orders[id := Entry(id, size, price, side)]
  {
    var r := SaveOrder(v, logOffset, logSeq, id, size, price, side);
    forall key
      ensures IndexedAt(r.book.orders, r.book.levels, key)
    {
      assert IndexedAt(v.orders, v.levels, key);
      PutAggregates(v.orders, id, Entry(id, size, price, side), key);
      SizeMeansCount(v.orders, key);
    }
  }

  /** saveOrder called with the order's own price and side never panics and keeps the index exact. */
  lemma {:induction false} SaveKnownOrder(v: Book, logOffset: int, logSeq: int, id: int, size: int)
    requires ValidView(v) && id in v.orders && size >= 0
    ensures var r := SaveOrder(v, logOffset, logSeq, id, size, v.orders[id].price, v.orders[id].side);
            r.Saved? && ValidView(r.book)
            && r.book.orders == if size == 0 then v.orders - {id} else v.orders[id := v.orders[id].(size := size)]
  {
    var was := v.orders[id];
    var own := LevelKey(was.side, was.price);
    assert IndexedAt(v.orders, v.levels, own);
    CountsItself(v.orders, id);
    var r := SaveOrder(v, logOffset, logSeq, id, size, was.price, was.side);
    forall key
      ensures IndexedAt(r.book.orders, r.book.levels, key)
    {
      SaveKnownAt(v, r.book, id, size, key);
    }
  }

  lemma {:induction false} SaveKnownAt(v: Book, v': Book, id: int, size: int, key: LevelKey)
    requires ValidView(v) && id in v.orders && size >= 0 && WellSized(v'.orders)
    requires var was := v.orders[id];
             var own := LevelKey(was.side, was.price);
             var level := if own in v.levels then v.levels[own] else Level(0, 0);
             var total := level.size - (was.size - size);
             && v'.orders == (if size == 0 then v.orders - {id} else v.orders[id := was.(size := size)])
             && v'.levels == if total == 0 then v.levels - {own}
                             else v.levels[own := Level(total, if size == 0 then level.count - 1 else level.count)]
    ensures IndexedAt(v'.orders, v'.levels, key)
  {
    assert IndexedAt(v.orders, v.levels, key);
    assert IndexedAt(v.orders, v.levels, LevelKey(v.orders[id].side, v.orders[id].price));
    CountsItself(v.orders, id);
    if size == 0 {
      RemoveAggregates(v.orders, id, key);
    } else {
      PutAggregates(v.orders, id, v.orders[id].(size := size), key);
    }
    SizeMeansCount(v'.orders, key);
  }

  /** Setting the emitted change on the old level map gives the new one. */
  lemma {:induction false} ChangeTellsAll(v: Book, logOffset: int, logSeq: int, id: int, newSize: int, price: int, side: Side)
    requires ValidView(v)
    requires id in v.orders ==> v.orders[id].price == price && v.orders[id].side == side
    ensures var r := SaveOrder(v, logOffset, logSeq, id, newSize, price, side);
            r.Saved? ==>
              r.change.sequence == r.book.sequence == v.sequence + 1
              && Sizes(r.book.levels) == SetLevel(Sizes(v.levels), r.change.key, r.change.size)
  {
    var r := SaveOrder(v, logOffset, logSeq, id, newSize, price, side);
    if r.Saved? && id !in v.orders {
      assert IndexedAt(v.orders, v.levels, r.change.key);
      SizeMeansCount(v.orders, r.change.key);
    }
  }
}
