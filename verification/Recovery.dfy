/** Snapshots of the matching book and recovery from them. */
module Recovery {
  import opened Types
  import opened PriceTime
  import opened DedupWindow
  import opened Matching
  import opened MatchLoop
  import opened BookInvariant
  import opened OrderLives

  /** All resting orders, in whatever order the maps list them, with the counters and the window. */
  datatype BookSnapshot = BookSnapshot(orders: seq<BookOrder>, tradeSeq: int, logSeq: int, window: Window)

  ghost predicate IsSnapshotOf(s: BookSnapshot, b: Book) {
    && (s.tradeSeq, s.logSeq, s.window) == (b.tradeSeq, b.logSeq, b.window)
    && DistinctIds(s.orders)
    && forall o :: o in s.orders <==> o in b.asks || o in b.bids
  }

  function Add(b: Book, o: BookOrder): Book {
    WithDepth(b, o.side, Insert(o.side, Depth(b, o.side), o))
  }

  function AddAll(b: Book, orders: seq<BookOrder>): Book {
    if orders == [] then b else Add(AddAll(b, orders[..|orders| - 1]), orders[|orders| - 1])
  }

  /** Restoring fills the given book's depths and replaces its counters and window. */
  function Restore(b: Book, s: BookSnapshot): Book {
    var window := if s.window.cap == 0 then NewWindow(0, ORDER_ID_WINDOW_CAP) else s.window;
    AddAll(b.(logSeq := s.logSeq, tradeSeq := s.tradeSeq, window := window), s.orders)
  }

  /** A book whose depths are sorted and hold exactly the given orders. */
  ghost predicate Holds(b: Book, orders: seq<BookOrder>) {
    && Sorted(Sell, b.asks) && Sorted(Buy, b.bids)
    && (forall o :: o in b.asks <==> o in orders && o.side.Sell?)
    && (forall o :: o in b.bids <==> o in orders && o.side.Buy?)
  }

  lemma {:induction false} AddHolds(b: Book, orders: seq<BookOrder>, last: BookOrder)
    requires Holds(b, orders) && forall o :: o in orders ==> o.id != last.id
    ensures Holds(Add(b, last), orders + [last])
  {
    var q := Depth(b, last.side);
    assert forall o :: o in q ==> o in orders;
    InsertSorted(last.side, q, last);
    assert forall o :: o in orders + [last] <==> o in orders || o == last;
  }

  /** Adding orders with distinct ids to an empty book sorts each of them into its side. */
  lemma {:induction false} AddAllSorts(b: Book, orders: seq<BookOrder>)
    requires b.asks == [] && b.bids == [] && DistinctIds(orders)
    ensures var r := AddAll(b, orders);
            && Holds(r, orders)
            && (r.product, r.logSeq, r.tradeSeq, r.window) == (b.product, b.logSeq, b.tradeSeq, b.window)
  {
    if orders != [] {
      hide Holds, Insert;
      var n := |orders| - 1;
      AddAllSorts(b, orders[..n]);
      AddHolds(AddAll(b, orders[..n]), orders[..n], orders[n]);
      assert orders == orders[..n] + [orders[n]];
    }
  }

  /** Restoring any listing of a snapshot into a fresh book gives the very book it was taken from. */
  lemma {:induction false} RestoreIsExact(b: Book, s: BookSnapshot)
    requires ValidBook(b) && IsSnapshotOf(s, b)
    ensures Restore(NewBook(b.product), s) == b
  {
    var r := Restore(NewBook(b.product), s);
    AddAllSorts(NewBook(b.product).(logSeq := s.logSeq, tradeSeq := s.tradeSeq, window := s.window), s.orders);
    SortedUnique(Sell, r.asks, b.asks);
    SortedUnique(Buy, r.bids, b.bids);
  }

  /** A snapshot without a window restores with an empty one of the book's range. */
  lemma {:induction false} RestoreWithoutWindow(p: Product, s: BookSnapshot, id: int)
    requires s.window.cap == 0 && DistinctIds(s.orders)
    ensures var w := Restore(NewBook(p), s).window;
            w.cap == 10000 && w.max == 10000 && (Accepts(w, id) <==> id > 0)
  {
    AddAllSorts(NewBook(p).(logSeq := s.logSeq, tradeSeq := s.tradeSeq, window := NewWindow(0, ORDER_ID_WINDOW_CAP)), s.orders);
  }

  /** A run's result with earlier logs put in front. */
  function Preceded(logs: seq<Log>, a: Option<Applied>): Option<Applied> {
    if a.None? then None else Some(Applied(a.value.book, logs + a.value.logs))
  }

  lemma {:induction false} ThenPreceded(logs: seq<Log>, a: Option<Applied>, c: Command)
    ensures Then(Preceded(logs, a), c) == Preceded(logs, Then(a, c))
  {
    if a.Some? && CanExecute(a.value.book, c) {
      var r := Execute(a.value.book, c);
      assert logs + a.value.logs + r.logs == logs + (a.value.logs + r.logs);
    }
  }

  /** Runs compose. */
  lemma {:induction false} RunSplits(b: Book, x: seq<Command>, y: seq<Command>)
    ensures RunFrom(b, x).None? ==> RunFrom(b, x + y).None?
    ensures RunFrom(b, x).Some? ==>
              RunFrom(b, x + y) == Preceded(RunFrom(b, x).value.logs, RunFrom(RunFrom(b, x).value.book, y))
  {
    if y == [] {
      assert x + y == x;
      if RunFrom(b, x).Some? {
        assert RunFrom(b, x).value.logs + [] == RunFrom(b, x).value.logs;
      }
    } else {
      var n := |y| - 1;
      RunSplits(b, x, y[..n]);
      assert (x + y)[..|x + y| - 1] == x + y[..n];
      if RunFrom(b, x).Some? {
        var a := RunFrom(b, x).value;
        ThenPreceded(a.logs, RunFrom(a.book, y[..n]), y[n]);
      }
    }
  }

  /** Crash recovery: cut a run anywhere, snapshot the book there in any listing, restore it into a fresh book and
      replay the rest: the book, its counters and the logs are those of the uninterrupted run. */
  lemma {:induction false} CrashRecovery(p: Product, cmds: seq<Command>, cut: nat, s: BookSnapshot)
    requires ScaleOk(p) && DistinctPlaces(cmds) && SanePlaces(cmds) && Run(p, cmds).Some? && cut <= |cmds|
    requires Run(p, cmds[..cut]).Some? ==> IsSnapshotOf(s, Run(p, cmds[..cut]).value.book)
    ensures Run(p, cmds[..cut]).Some?
    ensures var replay := RunFrom(Restore(NewBook(p), s), cmds[cut..]);
            && replay.Some?
            && replay.value.book == Run(p, cmds).value.book
            && Run(p, cmds[..cut]).value.logs + replay.value.logs == Run(p, cmds).value.logs
  {
    assert cmds == cmds[..cut] + cmds[cut..];
    RunSplits(NewBook(p), cmds[..cut], cmds[cut..]);
    PrefixOfRun(cmds, cut);
    RunSound(p, cmds[..cut]);
    RestoreIsExact(Run(p, cmds[..cut]).value.book, s);
  }

  lemma {:induction false} PrefixOfRun(cmds: seq<Command>, cut: nat)
    requires DistinctPlaces(cmds) && SanePlaces(cmds) && cut <= |cmds|
    ensures DistinctPlaces(cmds[..cut]) && SanePlaces(cmds[..cut])
  {
  }
}
