/** A snapshot shares its window's bits with the live book, so what gets stored may be the window of a later moment. */
module SharedWindow {
  import opened Types
  import opened PriceTime
  import opened DedupWindow
  import opened Matching
  import opened BookInvariant
  import opened LogGrammar
  import opened OrderLives
  import opened MarketTheorems
  import opened Recovery

  /** The same window but for bits set later. */
  ghost predicate Later(w: Window, v: Window) {
    (w.min, w.max, w.cap) == (v.min, v.max, v.cap) && w.cap > 0 && w.taken <= v.taken
  }

  function Union(w: Window, v: Window): Window {
    w.(taken := w.taken + v.taken)
  }

  lemma {:induction false} PutJoins(w: Window, late: Window, id: int)
    requires (w.min, w.max, w.cap) == (late.min, late.max, late.cap) && w.cap > 0
    ensures Put(Union(w, late), id) == Union(Put(w, id), late)
  {
  }

  // ------------------------------------------------------- books that differ in their window

  lemma {:induction false} SameButWindow(b: Book, v: Window, o: BookOrder)
    requires CanApply(b, o) && v.cap > 0 && (Accepts(v, o.id) <==> Accepts(b.window, o.id))
    ensures CanApply(b.(window := v), o)
    ensures var r := ApplyOrder(b, o);
            ApplyOrder(b.(window := v), o) == Applied(r.book.(window := Put(v, o.id)), r.logs)
    ensures ApplyOrder(b, o).book.window == Put(b.window, o.id)
  {
    hide Walk, TradeLogs;
  }

  lemma {:induction false} CancelButWindow(b: Book, v: Window, o: BookOrder)
    requires b.window.cap > 0 && v.cap > 0
    ensures var r := CancelOrder(b, o);
            CancelOrder(b.(window := v), o) == Applied(r.book.(window := Put(v, o.id)), r.logs)
    ensures CancelOrder(b, o).book.window == Put(b.window, o.id)
  {
  }

  /** An order placed within the window's range, which the window lets through: it marks a bit. */
  ghost predicate Marks(p: Product, cmds: seq<Command>, i: int) {
    AcceptedPlace(p, cmds, i) && cmds[i].order.id <= Run(p, cmds[..i]).value.book.window.max
  }

  function WindowAt(p: Product, cmds: seq<Command>, n: nat): Window
    requires n <= |cmds| && Run(p, cmds[..n]).Some?
  {
    Run(p, cmds[..n]).value.book.window
  }

  lemma {:induction false} PrefixRuns(p: Product, cmds: seq<Command>, n: nat)
    requires Run(p, cmds).Some? && n <= |cmds|
    ensures Run(p, cmds[..n]).Some?
  {
    assert cmds == cmds[..n] + cmds[n..];
    RunSplits(NewBook(p), cmds[..n], cmds[n..]);
  }

  lemma {:induction false} NextRun(p: Product, cmds: seq<Command>, n: nat)
    requires Run(p, cmds).Some? && n < |cmds|
    ensures Run(p, cmds[..n]).Some? && Run(p, cmds[..n + 1]).Some?
    ensures var a := Run(p, cmds[..n]).value;
            && CanExecute(a.book, cmds[n])
            && var r := Execute(a.book, cmds[n]);
               && Run(p, cmds[..n + 1]).value == Applied(r.book, a.logs + r.logs)
               && r.book.window == Put(a.book.window, cmds[n].order.id)
  {
    PrefixRuns(p, cmds, n);
    PrefixRuns(p, cmds, n + 1);
    assert cmds[..n + 1][..n] == cmds[..n];
    var a := Run(p, cmds[..n]).value;
    if cmds[n].Place? {
      SameButWindow(a.book, a.book.window, cmds[n].order);
    } else {
      CancelButWindow(a.book, a.book.window, cmds[n].order);
    }
  }

  lemma {:induction false} PutGrows(w: Window, id: int)
    requires w.cap > 0
    ensures Later(w, Put(w, id))
  {
  }

  lemma {:induction false} WindowGrows(p: Product, cmds: seq<Command>, n: nat, m: nat)
    requires Run(p, cmds).Some? && n <= m <= |cmds|
    ensures Run(p, cmds[..n]).Some? && Run(p, cmds[..m]).Some? && Later(WindowAt(p, cmds, n), WindowAt(p, cmds, m))
    decreases m
  {
    hide Execute, CanExecute, Run, Put;
    PrefixRuns(p, cmds, n);
    PrefixRuns(p, cmds, m);
    if n < m {
      WindowGrows(p, cmds, n, m - 1);
      NextRun(p, cmds, m - 1);
      PutGrows(WindowAt(p, cmds, m - 1), cmds[m - 1].order.id);
    } else {
      CapStays(p, cmds[..n]);
    }
  }

  lemma {:induction false} CapStays(p: Product, cmds: seq<Command>)
    requires Run(p, cmds).Some?
    ensures Run(p, cmds).value.book.window.cap > 0
    decreases |cmds|
  {
    if cmds != [] {
      hide Execute, CanExecute;
      var n := |cmds| - 1;
      assert cmds[..n + 1] == cmds;
      NextRun(p, cmds, n);
      CapStays(p, cmds[..n]);
    }
  }

  // ------------------------------------------------------- replaying from a late window

  /** The snapshot after n commands as it is stored when m commands have been applied, restored. */
  function Restarted(p: Product, cmds: seq<Command>, n: nat, m: nat): Book
    requires n <= |cmds| && m <= |cmds| && Run(p, cmds[..n]).Some? && Run(p, cmds[..m]).Some?
  {
    Run(p, cmds[..n]).value.book.(window := WindowAt(p, cmds, m))
  }

  lemma {:induction false} ReplayNext(b: Book, cmds: seq<Command>, n: nat, j: nat)
    requires n <= j < |cmds|
    ensures RunFrom(b, cmds[n..j + 1]) == Then(RunFrom(b, cmds[n..j]), cmds[j])
  {
    var part := cmds[n..j + 1];
    assert part[..|part| - 1] == cmds[n..j] && part[|part| - 1] == cmds[j];
  }

  /** If no order marked a bit between taking and storing, the replay is the uninterrupted run, with at most bits more. */
  lemma {:induction false} ReplayFollows(p: Product, cmds: seq<Command>, n: nat, m: nat, j: nat)
    requires Run(p, cmds).Some? && n <= m <= |cmds| && n <= j <= |cmds|
    requires forall i :: n <= i < m ==> !Marks(p, cmds, i)
    ensures Run(p, cmds[..n]).Some? && Run(p, cmds[..m]).Some? && Run(p, cmds[..j]).Some?
    ensures var replay := RunFrom(Restarted(p, cmds, n, m), cmds[n..j]);
            && replay.Some?
            && replay.value.book == Run(p, cmds[..j]).value.book.(window := Union(WindowAt(p, cmds, j), WindowAt(p, cmds, m)))
            && Run(p, cmds[..n]).value.logs + replay.value.logs == Run(p, cmds[..j]).value.logs
    decreases j
  {
    hide Execute, CanExecute, Run, RunFrom, Restarted, Union, Marks;
    WindowGrows(p, cmds, n, m);
    PrefixRuns(p, cmds, j);
    var start, late := Restarted(p, cmds, n, m), WindowAt(p, cmds, m);
    if j == n {
      NothingYet(p, cmds, n, m);
    } else {
      ReplayFollows(p, cmds, n, m, j - 1);
      NextRun(p, cmds, j - 1);
      ReplayNext(start, cmds, n, j - 1);
      var a, c := Run(p, cmds[..j - 1]).value, cmds[j - 1];
      if j - 1 <= m {
        WindowGrows(p, cmds, j - 1, m);
      } else {
        WindowGrows(p, cmds, m, j - 1);
      }
      if c.Place? {
        SameVerdict(p, cmds, m, j - 1, n);
      }
      FollowOne(a.book, late, c);
      JoinLogs(Run(p, cmds[..n]).value.logs, RunFrom(start, cmds[n..j - 1]).value.logs, Execute(a.book, c).logs);
    }
  }

  lemma {:induction false} NothingYet(p: Product, cmds: seq<Command>, n: nat, m: nat)
    requires n <= m <= |cmds| && Run(p, cmds[..n]).Some? && Run(p, cmds[..m]).Some?
    requires Later(WindowAt(p, cmds, n), WindowAt(p, cmds, m))
    ensures var replay := RunFrom(Restarted(p, cmds, n, m), cmds[n..n]);
            && replay.Some?
            && replay.value.book == Run(p, cmds[..n]).value.book.(window := Union(WindowAt(p, cmds, n), WindowAt(p, cmds, m)))
            && Run(p, cmds[..n]).value.logs + replay.value.logs == Run(p, cmds[..n]).value.logs
  {
    hide Run;
    assert cmds[n..n] == [];
    assert Run(p, cmds[..n]).value.logs + [] == Run(p, cmds[..n]).value.logs;
    assert Union(WindowAt(p, cmds, n), WindowAt(p, cmds, m)) == WindowAt(p, cmds, m);
  }

  /** One command on a book with more bits, of the same verdict. */
  lemma {:induction false} FollowOne(b: Book, late: Window, c: Command)
    requires CanExecute(b, c) && (b.window.min, b.window.max, b.window.cap) == (late.min, late.max, late.cap)
    requires c.Place? ==> (Accepts(Union(b.window, late), c.order.id) <==> Accepts(b.window, c.order.id))
    ensures CanExecute(b.(window := Union(b.window, late)), c)
    ensures var r := Execute(b, c);
            Execute(b.(window := Union(b.window, late)), c) == Applied(r.book.(window := Union(r.book.window, late)), r.logs)
  {
    hide ApplyOrder, CancelOrder, CanApply, Put, Accepts;
    PutJoins(b.window, late, c.order.id);
    if c.Place? {
      SameButWindow(b, Union(b.window, late), c.order);
    } else {
      CancelButWindow(b, Union(b.window, late), c.order);
    }
  }

  lemma {:induction false} JoinLogs(a: seq<Log>, b: seq<Log>, c: seq<Log>)
    ensures a + (b + c) == a + b + c
  {
  }

  /** The late window accepts what the window of the moment accepts. */
  lemma {:induction false} SameVerdict(p: Product, cmds: seq<Command>, m: nat, i: nat, n: nat)
    requires Run(p, cmds).Some? && n <= i < |cmds| && m <= |cmds| && cmds[i].Place?
    requires forall k :: n <= k < m ==> !Marks(p, cmds, k)
    ensures Run(p, cmds[..i]).Some? && Run(p, cmds[..m]).Some?
    ensures var w, late := WindowAt(p, cmds, i), WindowAt(p, cmds, m);
            && w.cap > 0 && Union(w, late).cap > 0
            && (Accepts(Union(w, late), cmds[i].order.id) <==> Accepts(w, cmds[i].order.id))
  {
    hide Run;
    if i < m {
      WindowGrows(p, cmds, i, m);
      assert !Marks(p, cmds, i);
    } else {
      WindowGrows(p, cmds, m, i);
      var w, late := WindowAt(p, cmds, i), WindowAt(p, cmds, m);
      assert Union(w, late) == w;
    }
  }

  /** An order that marked a bit in between is refused by the replay and leaves no trace in its log. */
  lemma {:induction false} ReplayForgets(p: Product, cmds: seq<Command>, n: nat, m: nat, i: nat, j: nat)
    requires ScaleOk(p) && DistinctPlaces(cmds) && SanePlaces(cmds) && Run(p, cmds).Some?
    requires n <= i < m <= |cmds| && n <= j <= |cmds| && Marks(p, cmds, i)
    requires Run(p, cmds[..n]).Some? && Run(p, cmds[..m]).Some?
    requires RunFrom(Restarted(p, cmds, n, m), cmds[n..j]).Some?
    ensures var replay := RunFrom(Restarted(p, cmds, n, m), cmds[n..j]).value;
            var logs := Run(p, cmds[..n]).value.logs + replay.logs;
            && Sound(replay.book, logs, PlacedOrders(cmds[..j])) && replay.book.product == p
            && Later(WindowAt(p, cmds, m), replay.book.window)
            && LifeOf(logs, cmds[i].order.id).phase.Unseen?
    decreases j
  {
    hide Execute, CanExecute, Run, RunFrom, Sound, Marks, Restarted, DistinctPlaces, SanePlaces, Later, WindowAt;
    var logs0 := Run(p, cmds[..n]).value.logs;
    if j == n {
      NothingReplayed(p, cmds, n, m, i);
    } else {
      ReplayStep(Restarted(p, cmds, n, m), cmds, n, j - 1);
      ReplayForgets(p, cmds, n, m, i, j - 1);
      var before, c := RunFrom(Restarted(p, cmds, n, m), cmds[n..j - 1]).value, cmds[j - 1];
      ForgetsOne(p, cmds, m, i, j - 1, before.book, logs0 + before.logs);
      JoinLogs(logs0, before.logs, Execute(before.book, c).logs);
    }
  }

  lemma {:induction false} ReplayStep(b: Book, cmds: seq<Command>, n: nat, j: nat)
    requires n <= j < |cmds| && RunFrom(b, cmds[n..j + 1]).Some?
    ensures RunFrom(b, cmds[n..j]).Some?
    ensures var before := RunFrom(b, cmds[n..j]).value;
            && CanExecute(before.book, cmds[j])
            && var r := Execute(before.book, cmds[j]);
               RunFrom(b, cmds[n..j + 1]).value == Applied(r.book, before.logs + r.logs)
  {
    hide Execute, CanExecute, RunFrom;
    ReplayNext(b, cmds, n, j);
  }

  lemma {:induction false} NothingReplayed(p: Product, cmds: seq<Command>, n: nat, m: nat, i: nat)
    requires ScaleOk(p) && DistinctPlaces(cmds) && SanePlaces(cmds) && Run(p, cmds).Some?
    requires n <= i < m <= |cmds| && Marks(p, cmds, i)
    requires Run(p, cmds[..n]).Some? && Run(p, cmds[..m]).Some?
    ensures RunFrom(Restarted(p, cmds, n, m), cmds[n..n]).Some?
    ensures var replay := RunFrom(Restarted(p, cmds, n, m), cmds[n..n]).value;
            var logs := Run(p, cmds[..n]).value.logs + replay.logs;
            && Sound(replay.book, logs, PlacedOrders(cmds[..n])) && replay.book.product == p
            && Later(WindowAt(p, cmds, m), replay.book.window)
            && LifeOf(logs, cmds[i].order.id).phase.Unseen?
  {
    hide Run, Sound;
    var logs0 := Run(p, cmds[..n]).value.logs;
    WindowGrows(p, cmds, n, m);
    PrefixFacts(p, cmds, n);
    assert cmds[n..n] == [] && logs0 + [] == logs0;
    BeforePlaced(p, cmds, n, i);
    SoundButWindow(Run(p, cmds[..n]).value.book, WindowAt(p, cmds, m), logs0, PlacedOrders(cmds[..n]));
  }

  lemma {:induction false} SoundButWindow(b: Book, v: Window, logs: seq<Log>, placed: map<int, BookOrder>)
    requires Sound(b, logs, placed) && v.cap > 0
    ensures Sound(b.(window := v), logs, placed)
  {
    assert RestingOrders(b.(window := v)) == RestingOrders(b);
  }

  lemma {:induction false} PrefixFacts(p: Product, cmds: seq<Command>, n: nat)
    requires ScaleOk(p) && DistinctPlaces(cmds) && SanePlaces(cmds) && Run(p, cmds).Some? && n <= |cmds|
    ensures DistinctPlaces(cmds[..n]) && SanePlaces(cmds[..n]) && Run(p, cmds[..n]).Some?
    ensures var a := Run(p, cmds[..n]).value; a.book.product == p && Sound(a.book, a.logs, PlacedOrders(cmds[..n]))
  {
    PrefixOfRun(cmds, n);
    PrefixRuns(p, cmds, n);
    RunSound(p, cmds[..n]);
  }

  lemma {:induction false} BeforePlaced(p: Product, cmds: seq<Command>, n: nat, i: nat)
    requires ScaleOk(p) && DistinctPlaces(cmds) && SanePlaces(cmds) && Run(p, cmds).Some?
    requires n <= i < |cmds| && cmds[i].Place?
    ensures Run(p, cmds[..n]).Some? && LifeOf(Run(p, cmds[..n]).value.logs, cmds[i].order.id).phase.Unseen?
  {
    PrefixFacts(p, cmds, n);
    UnseenExactly(p, cmds[..n], cmds[i].order.id);
  }

  lemma {:induction false} ForgetsOne(p: Product, cmds: seq<Command>, m: nat, i: nat, j: nat, b: Book, logs: seq<Log>)
    requires ScaleOk(p) && DistinctPlaces(cmds) && SanePlaces(cmds) && Run(p, cmds).Some?
    requires i < m <= |cmds| && j < |cmds| && Marks(p, cmds, i) && Run(p, cmds[..m]).Some?
    requires Sound(b, logs, PlacedOrders(cmds[..j])) && b.product == p && Later(WindowAt(p, cmds, m), b.window)
    requires CanExecute(b, cmds[j]) && LifeOf(logs, cmds[i].order.id).phase.Unseen?
    ensures var r := Execute(b, cmds[j]);
            && Sound(r.book, logs + r.logs, PlacedOrders(cmds[..j + 1])) && r.book.product == p
            && Later(WindowAt(p, cmds, m), r.book.window)
            && LifeOf(logs + r.logs, cmds[i].order.id).phase.Unseen?
  {
    hide ApplyOrder, CancelOrder, CanApply, Run, Sound;
    var c, id := cmds[j], cmds[i].order.id;
    MarkedIsTaken(p, cmds, i, m);
    assert cmds[..j + 1][..j] == cmds[..j];
    if c.Place? {
      FreshIsNotPlaced(cmds[..j], c.order.id);
      ApplyNumbers(b, c.order);
      PlaceSound(b, logs, PlacedOrders(cmds[..j]), c.order);
      SameButWindow(b, b.window, c.order);
    } else {
      CancelNumbers(b, c.order);
      CancelSound(b, logs, PlacedOrders(cmds[..j]), c.order);
      CancelButWindow(b, b.window, c.order);
    }
    UnseenStays(b, logs, PlacedOrders(cmds[..j]), c, id);
  }

  /** The bit an order marked is set in every later window. */
  lemma {:induction false} MarkedIsTaken(p: Product, cmds: seq<Command>, i: nat, m: nat)
    requires Run(p, cmds).Some? && i < m <= |cmds| && Marks(p, cmds, i)
    ensures Run(p, cmds[..m]).Some?
    ensures var w := WindowAt(p, cmds, m); w.cap > 0 && cmds[i].order.id <= w.max && cmds[i].order.id % w.cap in w.taken
  {
    hide Execute, CanExecute, Run;
    NextRun(p, cmds, i);
    WindowGrows(p, cmds, i, i + 1);
    WindowGrows(p, cmds, i + 1, m);
  }

  /** A snapshot after n orders whose bits are stored as they are after m: replaying the rest gives the log of the
      uninterrupted run if and only if no order in between was let through within the window's range. */
  lemma {:induction false} LateWindowExactly(p: Product, cmds: seq<Command>, n: nat, m: nat)
    requires ScaleOk(p) && DistinctPlaces(cmds) && SanePlaces(cmds) && Run(p, cmds).Some? && n <= m <= |cmds|
    ensures Run(p, cmds[..n]).Some? && Run(p, cmds[..m]).Some?
    ensures var replay := RunFrom(Restarted(p, cmds, n, m), cmds[n..]);
            (replay.Some? && Run(p, cmds[..n]).value.logs + replay.value.logs == Run(p, cmds).value.logs)
            <==> forall i :: n <= i < m ==> !Marks(p, cmds, i)
  {
    hide RunFrom, Run, Sound, Marks;
    WindowGrows(p, cmds, n, m);
    assert cmds[n..|cmds|] == cmds[n..] && cmds[..|cmds|] == cmds;
    var start := Restarted(p, cmds, n, m);
    if i :| n <= i < m && Marks(p, cmds, i) {
      if RunFrom(start, cmds[n..]).Some? {
        ReplayForgets(p, cmds, n, m, i, |cmds|);
        MarkedIsSeen(p, cmds, i);
      }
    } else {
      ReplayFollows(p, cmds, n, m, |cmds|);
    }
  }

  lemma {:induction false} MarkedIsSeen(p: Product, cmds: seq<Command>, i: nat)
    requires ScaleOk(p) && DistinctPlaces(cmds) && SanePlaces(cmds) && Run(p, cmds).Some? && i < |cmds| && Marks(p, cmds, i)
    ensures !LifeOf(Run(p, cmds).value.logs, cmds[i].order.id).phase.Unseen?
  {
    UnseenExactly(p, cmds, cmds[i].order.id);
    assert AcceptedPlace(p, cmds, i);
  }
}
