/** The pushed order book in memory, its snapshots, and the stream applier that drives it. */
module PushedBooks {
  import opened Types
  import V = View
  import S = Stream
  import R = ViewRestart
  import opened Sums

  /** One side of a level-2 snapshot: price, size and order count, best price first. */
  datatype LevelRow = LevelRow(price: int, size: int, count: int)

  datatype Level2Snapshot = Level2Snapshot(sequence: int, asks: seq<LevelRow>, bids: seq<LevelRow>)

  predicate Better(side: Side, a: int, b: int) {
    if side.Sell? then a < b else a > b
  }

  function Prices(levels: map<LevelKey, V.Level>, side: Side): set<int> {
    set key | key in levels && key.side == side :: key.price
  }

  /** The best `n` levels of a side, best first: as many rows as there are levels, up to n, each as the map has it,
      and every level left out is worse than every row. */
  ghost predicate Top(rows: seq<LevelRow>, levels: map<LevelKey, V.Level>, side: Side, n: nat) {
    && |rows| == (if |Prices(levels, side)| <= n then |Prices(levels, side)| else n)
    && (forall i, j :: 0 <= i < j < |rows| ==> Better(side, rows[i].price, rows[j].price))
    && (forall r :: r in rows ==> LevelKey(side, r.price) in levels && levels[LevelKey(side, r.price)] == V.Level(r.size, r.count))
    && (forall r, p :: r in rows && p in Prices(levels, side) && (forall x :: x in rows ==> x.price != p) ==> Better(side, r.price, p))
  }

  /** A side with at most n levels is listed completely. */
  lemma {:induction false} TopIsComplete(rows: seq<LevelRow>, levels: map<LevelKey, V.Level>, side: Side, n: nat, p: int)
    requires Top(rows, levels, side, n) && |Prices(levels, side)| <= n
    ensures LevelKey(side, p) in levels <==> exists r :: r in rows && r.price == p
  {
    var listed := set r | r in rows :: r.price;
    RowPrices(rows);
    forall x | x in listed
      ensures x in Prices(levels, side)
    {
      var r :| r in rows && r.price == x;
      assert LevelKey(side, x) in levels;
    }
    assert |listed| == |Prices(levels, side)|;
    SubsetOfSameSize(listed, Prices(levels, side));
    if LevelKey(side, p) in levels {
      assert p in Prices(levels, side);
    }
  }

  /** Best first, in plain prices: asks from the cheapest on, bids from the dearest on, and what is left out is worse. */
  lemma {:induction false} TopIsBest(rows: seq<LevelRow>, levels: map<LevelKey, V.Level>, side: Side, n: nat)
    requires Top(rows, levels, side, n)
    ensures forall i, j :: 0 <= i < j < |rows| ==> if side.Sell? then rows[i].price < rows[j].price else rows[i].price > rows[j].price
    ensures forall i, key :: 0 <= i < |rows| && key in levels && key.side == side && (forall x :: x in rows ==> x.price != key.price) ==>
              if side.Sell? then rows[i].price < key.price else rows[i].price > key.price
  {
    forall key | key in levels && key.side == side
      ensures key.price in Prices(levels, side)
    {
    }
  }

  lemma {:induction false} RowPrices(rows: seq<LevelRow>)
    requires forall i, j :: 0 <= i < j < |rows| ==> rows[i].price != rows[j].price
    ensures |set r | r in rows :: r.price| == |rows|
  {
    if rows != [] {
      var n := |rows| - 1;
      RowPrices(rows[..n]);
      var before, all := set r | r in rows[..n] :: r.price, set r | r in rows :: r.price;
      assert all == before + {rows[n].price} by {
        assert rows == rows[..n] + [rows[n]];
      }
      forall r | r in rows[..n]
        ensures r.price != rows[n].price
      {
        var i :| 0 <= i < n && rows[..n][i] == r;
      }
    }
  }

  lemma {:induction false} SubsetOfSameSize(a: set<int>, b: set<int>)
    requires a <= b && |a| == |b|
    ensures a == b
  {
    assert |b - a| == |b| - |a|;
    assert b == a + (b - a);
  }

  lemma {:induction false} BestExists(side: Side, left: set<int>)
    requires left != {}
    ensures exists p :: p in left && forall x :: x in left && x != p ==> Better(side, p, x)
    decreases |left|
  {
    var a := AnyOf(left);
    var rest := left - {a};
    if rest == {} {
      assert left == {a};
    } else {
      BestExists(side, rest);
      var b :| b in rest && forall x :: x in rest && x != b ==> Better(side, b, x);
      var p := if Better(side, a, b) then a else b;
      forall x | x in left && x != p
        ensures Better(side, p, x)
      {
        if x != a && x != b { assert x in rest; }
      }
    }
  }

  class PushedBook {
    var sequence: int
    var logOffset: int
    var logSeq: int
    var orders: map<int, V.Entry>
    var levels: map<LevelKey, V.Level>

    function Model(): V.Book
      reads this
    {
      V.Book(sequence, logOffset, logSeq, orders, levels)
    }

    constructor ()
      ensures Model() == V.EMPTY
    {
      sequence, logOffset, logSeq, orders, levels := 0, 0, 0, map[], map[];
    }

    /** Sets an order's size and keeps its price level; a negative size or a missing level panics. */
    method SaveOrder(logOffset: int, logSeq: int, orderId: int, newSize: int, price: int, side: Side)
      returns (panicked: bool, change: Option<V.Change>)
      modifies this
      ensures match V.SaveOrder(old(Model()), logOffset, logSeq, orderId, newSize, price, side)
              case Panicked => panicked
              case Ignored => !panicked && change.None? && Model() == old(Model())
              case Saved(book, c) => !panicked && change == Some(c) && Model() == book
    {
      panicked, change := false, None;
      if newSize < 0 {
        return true, None;
      }
      var key := LevelKey(side, price);
      var changedLevel: V.Level;
      if orderId !in orders {
        if newSize == 0 {
          return;
        }
        orders := orders[orderId := V.Entry(orderId, newSize, price, side)];
        if key !in levels {
          changedLevel := V.Level(newSize, 1);
        } else {
          changedLevel := V.Level(levels[key].size + newSize, levels[key].count + 1);
        }
        levels := levels[key := changedLevel];
      } else {
        var order := orders[orderId];
        var decrSize := order.size - newSize;
        var removed := newSize == 0;
        orders := if removed then orders - {orderId} else orders[orderId := order.(size := newSize)];
        if key !in levels {
          return true, None;
        }
        changedLevel := levels[key].(size := levels[key].size - decrSize);
        if changedLevel.size == 0 {
          levels := levels - {key};
        } else {
          if removed {
            changedLevel := changedLevel.(count := changedLevel.count - 1);
          }
          levels := levels[key := changedLevel];
        }
      }
      this.logOffset := logOffset;
      this.logSeq := logSeq;
      sequence := sequence + 1;
      return false, Some(V.Change(sequence, key, changedLevel.size));
    }

    /** Walks one side's levels, best first, up to n of them. */
    method ListLevels(side: Side, n: nat) returns (rows: seq<LevelRow>)
      ensures Top(rows, levels, side, n)
    {
      rows := [];
      var left := Prices(levels, side);
      ghost var all := left;
      while left != {} && |rows| < n
        invariant left <= all && |rows| + |left| == |all| && |rows| <= n
        invariant forall i, j :: 0 <= i < j < |rows| ==> Better(side, rows[i].price, rows[j].price)
        invariant forall r :: r in rows ==> LevelKey(side, r.price) in levels && levels[LevelKey(side, r.price)] == V.Level(r.size, r.count)
        invariant forall r, p :: r in rows && p in left ==> Better(side, r.price, p)
        invariant forall p :: p in all && p !in left ==> exists r :: r in rows && r.price == p
      {
        BestExists(side, left);
        var p :| p in left && forall x :: x in left && x != p ==> Better(side, p, x);
        assert LevelKey(side, p) in levels;
        var v := levels[LevelKey(side, p)];
        forall i | 0 <= i < |rows|
          ensures Better(side, rows[i].price, p)
        {
          assert rows[i] in rows;
        }
        ghost var before, row := rows, LevelRow(p, v.size, v.count);
        rows := rows + [LevelRow(p, v.size, v.count)];
        assert row in rows && forall r :: r in before ==> r in rows;
        left := left - {p};
      }
    }

    method SnapshotLevel2(n: nat) returns (s: Level2Snapshot)
      ensures s.sequence == sequence && Top(s.asks, levels, Sell, n) && Top(s.bids, levels, Buy, n)
    {
      var bids := ListLevels(Buy, n);
      var asks := ListLevels(Sell, n);
      s := Level2Snapshot(sequence, asks, bids);
    }

    method SnapshotFull() returns (s: R.FullSnapshot)
      requires forall id :: id in orders ==> orders[id].id == id
      ensures R.IsFullSnapshotOf(s, Model())
    {
      var list: seq<V.Entry> := [];
      var left := orders.Keys;
      while left != {}
        invariant left <= orders.Keys
        invariant forall i, j :: 0 <= i < j < |list| ==> list[i].id != list[j].id
        invariant forall e :: e in list <==> e.id in orders && e.id !in left && orders[e.id] == e
        decreases left
      {
        ghost var any := AnyOf(left);
        var id :| id in left;
        forall i | 0 <= i < |list|
          ensures list[i].id != id
        {
          assert list[i] in list;
        }
        list := list + [orders[id]];
        left := left - {id};
      }
      s := R.FullSnapshot(sequence, logOffset, logSeq, list);
    }

    method Restore(s: R.FullSnapshot) returns (panicked: bool)
      modifies this
      ensures panicked <==> R.Restore(old(Model()), s).None?
      ensures !panicked ==> Some(Model()) == R.Restore(old(Model()), s)
    {
      ghost var start := Model();
      var i := 0;
      while i < |s.orders|
        invariant 0 <= i <= |s.orders|
        invariant R.SaveAll(start, s.orders[..i]) == Some(Model())
      {
        var e := s.orders[i];
        assert s.orders[..i + 1][..i] == s.orders[..i];
        var failed, _ := SaveOrder(0, 0, e.id, e.size, e.price, e.side);
        i := i + 1;
        if failed {
          StaysPanicked(start, s.orders, i);
          return true;
        }
      }
      assert s.orders[..i] == s.orders;
      sequence := s.sequence;
      logOffset := s.logOffset;
      logSeq := s.logSeq;
      return false;
    }
  }

  lemma {:induction false} StaysPanicked(v: V.Book, orders: seq<V.Entry>, i: nat)
    requires i <= |orders| && R.SaveAll(v, orders[..i]).None?
    ensures R.SaveAll(v, orders).None?
    decreases |orders|
  {
    if i == |orders| {
      assert orders[..i] == orders;
    } else {
      var front := orders[..|orders| - 1];
      assert front[..i] == orders[..i];
      StaysPanicked(v, front, i);
    }
  }

  // ------------------------------------------------------- the stream applier

  /** A level-2 snapshot is genuine: it lists what replaying the changes up to its own sequence gives. */
  ghost predicate Genuine(s: Level2Snapshot, changes: seq<V.Change>) {
    0 <= s.sequence <= |changes| &&
    exists levels: map<LevelKey, V.Level> ::
      V.Sizes(levels) == S.Replay(changes[..s.sequence]) && Top(s.asks, levels, Sell, 1000) && Top(s.bids, levels, Buy, 1000)
  }

  lemma {:induction false} StaysGenuine(s: Option<Level2Snapshot>, a: seq<V.Change>, b: seq<V.Change>)
    requires a <= b && (s.Some? ==> Genuine(s.value, a))
    ensures s.Some? ==> Genuine(s.value, b)
  {
    if s.Some? {
      assert b[..s.value.sequence] == a[..s.value.sequence];
    }
  }

  lemma {:induction false} FreshIsGenuine(s: Level2Snapshot, f: S.Feed)
    requires S.ValidFeed(f) && s.sequence == f.book.sequence
    requires Top(s.asks, f.book.levels, Sell, 1000) && Top(s.bids, f.book.levels, Buy, 1000)
    ensures Genuine(s, f.changes)
  {
    assert f.changes[..s.sequence] == f.changes;
  }

  /** The level-2 snapshot is genuine and no full snapshot is ahead of the book. */
  ghost predicate SnapshotsOk(level2: Option<Level2Snapshot>, full: Option<R.FullSnapshot>, queued: seq<R.FullSnapshot>,
                              changes: seq<V.Change>, sequence: int)
  {
    && (level2.Some? ==> Genuine(level2.value, changes))
    && (full.Some? ==> full.value.sequence <= sequence)
    && (forall s :: s in queued ==> s.sequence <= sequence)
  }

  lemma {:induction false} SnapshotsStayOk(level2: Option<Level2Snapshot>, full: Option<R.FullSnapshot>, queued: seq<R.FullSnapshot>,
                                           changes: seq<V.Change>, sequence: int, f: S.Feed,
                                           level2': Option<Level2Snapshot>, full': Option<R.FullSnapshot>, queued': seq<R.FullSnapshot>)
    requires SnapshotsOk(level2, full, queued, changes, sequence)
    requires S.ValidFeed(f) && changes <= f.changes && sequence <= f.book.sequence
    requires level2' == level2
             || (level2'.Some? && level2'.value.sequence == f.book.sequence && Top(level2'.value.asks, f.book.levels, Sell, 1000)
                 && Top(level2'.value.bids, f.book.levels, Buy, 1000))
    requires (full' == full && queued' == queued)
             || (full'.Some? && full'.value.sequence == f.book.sequence && queued' == queued + [full'.value])
    ensures SnapshotsOk(level2', full', queued', f.changes, f.book.sequence)
  {
    hide S.Replay, Top;
    if level2' == level2 {
      StaysGenuine(level2, changes, f.changes);
    } else {
      FreshIsGenuine(level2'.value, f);
    }
  }

  lemma {:induction false} FullIsAtBook(s: Option<R.FullSnapshot>, v: V.Book)
    ensures s.Some? && R.IsFullSnapshotOf(s.value, v) ==> s.value.sequence == v.sequence
  {
  }

  lemma {:induction false} StepGoesOn(f: S.Feed, m: S.Message)
    requires S.Step(f, m).Some?
    ensures var f' := S.Step(f, m).value; f.changes <= f'.changes && f.book.sequence <= f'.book.sequence
    ensures S.ValidFeed(f) ==> forall id :: id in f.book.orders ==> f.book.orders[id].id == id
  {
  }

  class OrderBookStream {
    const book: PushedBook
    var lastLevel2: Option<Level2Snapshot>
    var lastFull: Option<R.FullSnapshot>
    var snapshotCh: seq<R.FullSnapshot>
    var published: seq<V.Change>

    /** What was published for this product before a restart. */
    ghost const earlier: seq<V.Change>

    ghost function Model(): S.Feed
      reads this, book
    {
      S.Feed(book.Model(), earlier + published)
    }

    ghost predicate Valid()
      reads this, book
    {
      S.ValidFeed(Model()) && SnapshotsOk(lastLevel2, lastFull, snapshotCh, earlier + published, book.sequence)
    }

    constructor ()
      ensures Valid() && Model() == S.START && fresh(book)
    {
      book := new PushedBook();
      lastLevel2, lastFull, snapshotCh, published, earlier := None, None, [], [], [];
      new;
      S.StartValid();
      assert earlier + published == [];
    }

    /** The entry's effect on the book: which saveOrder call it makes, if any. */
    method Dispatch(m: S.Message) returns (panicked: bool, skipped: bool, change: Option<V.Change>)
      requires forall id :: id in book.orders ==> book.orders[id].id == id
      modifies book
      ensures panicked <==> S.Step(old(Model()), m).None?
      ensures skipped <==> m.log.DoneLog? && m.log.orderId !in old(book.orders)
      ensures !panicked ==>
                S.Step(old(Model()), m) ==
                Some(S.Feed(book.Model(), if change.Some? then earlier + published + [change.value] else earlier + published))
      ensures skipped ==> change.None? && book.Model() == old(book.Model())
      ensures forall id :: id in book.orders && !panicked ==> book.orders[id].id == id
    {
      match m.log {
        case DoneLog(sequence, id, price, remainingSize, _, side) =>
          if id !in book.orders {
            return false, true, None;
          }
          var newSize := book.orders[id].size - remainingSize;
          panicked, change := book.SaveOrder(m.offset, sequence, id, newSize, price, side);
        case OpenLog(sequence, id, remainingSize, price, side) =>
          panicked, change := book.SaveOrder(m.offset, sequence, id, remainingSize, price, side);
        case MatchLog(sequence, _, _, id, side, price, size) =>
          if id !in book.orders {
            return true, false, None;
          }
          var newSize := book.orders[id].size - size;
          panicked, change := book.SaveOrder(m.offset, sequence, id, newSize, price, side);
      }
      skipped := false;
    }

    /** Refreshes the snapshots that lag behind the book: by more than ten changes, or ten thousand for the full one. */
    method Refresh()
      requires forall id :: id in book.orders ==> book.orders[id].id == id
      modifies this`lastLevel2, this`lastFull, this`snapshotCh
      ensures lastLevel2.Some? && book.sequence - lastLevel2.value.sequence <= 10
      ensures lastFull.Some? && book.sequence - lastFull.value.sequence <= 10000
      ensures lastLevel2 == old(lastLevel2)
              || (lastLevel2.value.sequence == book.sequence && Top(lastLevel2.value.asks, book.levels, Sell, 1000)
                  && Top(lastLevel2.value.bids, book.levels, Buy, 1000))
      ensures (lastFull == old(lastFull) && snapshotCh == old(snapshotCh))
              || (R.IsFullSnapshotOf(lastFull.value, book.Model()) && snapshotCh == old(snapshotCh) + [lastFull.value])
    {
      if lastLevel2.None? || book.sequence - lastLevel2.value.sequence > 10 {
        var s := book.SnapshotLevel2(1000);
        lastLevel2 := Some(s);
      }
      if lastFull.None? || book.sequence - lastFull.value.sequence > 10000 {
        var s := book.SnapshotFull();
        lastFull := Some(s);
        snapshotCh := snapshotCh + [s];
      }
    }

    /** One message from the reader: update the book, refresh snapshots that lag, publish the change. */
    method OnMessage(m: S.Message) returns (panicked: bool)
      requires Valid()
      modifies this, book
      ensures panicked <==> S.Step(old(Model()), m).None?
      ensures !panicked ==> Some(Model()) == S.Step(old(Model()), m)
      ensures !panicked && S.ValidFeed(Model()) ==> Valid()
      ensures !panicked && !(m.log.DoneLog? && m.log.orderId !in old(book.orders)) ==>
                lastLevel2.Some? && book.sequence - lastLevel2.value.sequence <= 10
                && lastFull.Some? && book.sequence - lastFull.value.sequence <= 10000
    {
      assert forall id :: id in book.orders ==> book.orders[id].id == id;
      hide S.Step, Top, S.ValidFeed, R.IsFullSnapshotOf, SnapshotsOk;
      var skipped, change;
      panicked, skipped, change := Dispatch(m);
      if panicked || skipped {
        return;
      }
      StepGoesOn(old(Model()), m);
      Refresh();
      if change.Some? {
        published := published + [change.value];
        assert earlier + published == earlier + old(published) + [change.value];
      }
      if S.ValidFeed(Model()) {
        FullIsAtBook(lastFull, book.Model());
        SnapshotsStayOk(old(lastLevel2), old(lastFull), old(snapshotCh), old(earlier + published), old(book.sequence), Model(),
                        lastLevel2, lastFull, snapshotCh);
      }
    }

    /** The timer: refresh the level-2 snapshot if the book moved on. */
    method OnTick()
      requires Valid()
      modifies this`lastLevel2
      ensures Valid() && lastLevel2.Some? && book.sequence <= lastLevel2.value.sequence
    {
      if lastLevel2.None? || book.sequence > lastLevel2.value.sequence {
        var s := book.SnapshotLevel2(1000);
        lastLevel2 := Some(s);
        FreshIsGenuine(s, Model());
      }
    }
  }
}
