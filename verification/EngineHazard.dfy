/** The snapshot released on approval need not be durable: a reachable engine state where a crash would lose a log. */
module EngineHazard {
  import opened Types
  import opened PriceTime
  import opened DedupWindow
  import opened Matching
  import opened BookInvariant
  import opened OrderLives
  import opened Recovery
  import opened LogReader
  import opened EngineSteps
  import opened EngineInvariant
  import opened EngineRuns
  import opened EngineCrashes

  const QUIET: nat := 1001
  const NOTHING := BookOrder(0, 0, 0, 0, Buy, Limit)
  const FIRST := BookOrder(1, 1, 0, 1, Buy, Limit)
  const SECOND := BookOrder(2, 1, 0, 1, Buy, Limit)

  /** Cancels of an unknown order, then two limit orders. */
  function Orders(): (input: seq<Command>)
    ensures |input| == QUIET + 2 && input[QUIET] == Place(FIRST) && input[QUIET + 1] == Place(SECOND)
    ensures forall i :: 0 <= i < QUIET ==> input[i] == Cancel(NOTHING)
  {
    seq(QUIET, i => Cancel(NOTHING)) + [Place(FIRST), Place(SECOND)]
  }

  function Opened(p: Product): Book {
    NewBook(p).(bids := [FIRST], logSeq := 1, window := Put(NewWindow(0, ORDER_ID_WINDOW_CAP), 1))
  }

  lemma {:induction false} CancelIsQuiet(p: Product)
    ensures CanExecute(NewBook(p), Cancel(NOTHING))
    ensures Execute(NewBook(p), Cancel(NOTHING)) == Applied(NewBook(p), [])
  {
  }

  lemma {:induction false} FirstOpens(p: Product)
    requires ScaleOk(p)
    ensures CanExecute(NewBook(p), Place(FIRST))
    ensures Execute(NewBook(p), Place(FIRST)) == Applied(Opened(p), [OpenLog(1, 1, 1, 1, Buy)])
  {
    assert Walk(Grain(p), FIRST, []) == Walked(FIRST, [], []);
    assert TradeLogs(1, [], 0, 0) == [];
    assert Insert(Buy, [], FIRST) == [FIRST];
  }

  lemma {:induction false} SecondOpens(p: Product)
    requires ScaleOk(p)
    ensures CanExecute(Opened(p), Place(SECOND))
    ensures var r := Execute(Opened(p), Place(SECOND)); r.logs == [OpenLog(2, 2, 1, 1, Buy)]
  {
    assert Put(NewWindow(0, ORDER_ID_WINDOW_CAP), 1).taken == {1};
    assert 1 % ORDER_ID_WINDOW_CAP == 1 && 2 % ORDER_ID_WINDOW_CAP == 2;
    assert Walk(Grain(p), SECOND, []) == Walked(SECOND, [], []);
    assert TradeLogs(2, [], 1, 0) == [];
  }

  lemma {:induction false} QuietRun(p: Product, input: seq<Command>)
    requires forall i :: 0 <= i < |input| ==> input[i] == Cancel(NOTHING)
    ensures Run(p, input) == Some(Applied(NewBook(p), []))
    decreases |input|
  {
    hide Execute, CanExecute, NewWindow;
    if input != [] {
      QuietRun(p, input[..|input| - 1]);
      CancelIsQuiet(p);
      var none: seq<Log> := [];
      assert none + none == none;
      assert Then(Some(Applied(NewBook(p), none)), Cancel(NOTHING)) == Some(Applied(NewBook(p), none));
    }
  }

  lemma {:induction false} OrdersAreClean(p: Product)
    requires ScaleOk(p)
    ensures Clean(p, Orders())
  {
    hide Execute, CanExecute;
    var input := Orders();
    QuietRun(p, input[..QUIET]);
    FirstOpens(p);
    SecondOpens(p);
    assert input[..QUIET + 1][..QUIET] == input[..QUIET];
    assert input[..QUIET + 2][..QUIET + 1] == input[..QUIET + 1] && input[..QUIET + 2] == input;
    assert Run(p, input[..QUIET + 1]).Some? && Run(p, input[..QUIET + 1]).value.book == Opened(p);
  }

  /** The world after k cancels, one by one. */
  function Quiet(p: Product, k: nat): World {
    World(Engine(k, [], NewBook(p), if k == 0 then 0 else k - 1, [], [], Committer(0, None, []), [], [], [], 0), [], None)
  }

  lemma {:induction false} Extend(p: Product, input: seq<Command>, run: seq<World>, w: World) returns (longer: seq<World>)
    requires Execution(p, input, run) && Runs(input, run[|run| - 1], w)
    ensures longer != [] && Execution(p, input, longer) && longer[|longer| - 1] == w
  {
    hide Runs, Crashes, Durable;
    longer := run + [w];
  }

  lemma {:induction false} QuietPath(p: Product, k: nat) returns (run: seq<World>)
    requires k <= QUIET
    ensures Execution(p, Orders(), run) && run[|run| - 1] == Quiet(p, k)
  {
    if k == 0 {
      run := [Start(p)];
    } else {
      hide Execution, Execute, Orders;
      run := QuietPath(p, k - 1);
      CancelIsQuiet(p);
      var w := Quiet(p, k - 1);
      var fetched := w.(engine := FetchStep(w.engine, Orders()));
      run := Extend(p, Orders(), run, fetched);
      assert fetched.engine.orderCh == [OffsetOrder(k - 1, Cancel(NOTHING))];
      assert ApplyEnabled(fetched.engine);
      run := Extend(p, Orders(), run, fetched.(engine := ApplyStep(fetched.engine)));
    }
  }

  const L1 := OpenLog(1, 1, 1, 1, Buy)
  const L2 := OpenLog(2, 2, 1, 1, Buy)

  /** The snapshot after the first order. */
  function Taken(p: Product): Snapshot {
    Snapshot(BookSnapshot([FIRST], 0, 1, Opened(p).window), QUIET)
  }

  /** The first order is applied, its entry queued, and the snapshot after it waits for approval. */
  function Asked(p: Product): World {
    World(Engine(QUIET + 1, [], Opened(p), QUIET, [], [L1], Committer(0, None, []), [], [Taken(p)], [], 0), [], None)
  }

  lemma {:induction false} AskedIsReached(p: Product) returns (run: seq<World>)
    requires ScaleOk(p)
    ensures Execution(p, Orders(), run) && run[|run| - 1] == Asked(p)
  {
    hide Execution, Execute, Orders, CanExecute;
    run := QuietPath(p, QUIET);
    FirstOpens(p);
    var w := Quiet(p, QUIET);
    var w1 := w.(engine := FetchStep(w.engine, Orders()));
    run := Extend(p, Orders(), run, w1);
    assert w1.engine.orderCh == [OffsetOrder(QUIET, Place(FIRST))] && ApplyEnabled(w1.engine);
    var w2 := w1.(engine := ApplyStep(w1.engine));
    run := Extend(p, Orders(), run, w2);
    var w3 := w2.(engine := PushStep(w2.engine));
    run := Extend(p, Orders(), run, w3);
    var w4 := w3.(engine := TickStep(w3.engine));
    run := Extend(p, Orders(), run, w4);
    var w5 := w4.(engine := RequestStep(w4.engine, Taken(p).book));
    assert IsSnapshotOf(Taken(p).book, w4.engine.book);
    run := Extend(p, Orders(), run, w5);
    assert w5 == Asked(p);
  }

  /** The second order's entry queues behind the first's; the committer receives the first and only buffers it. */
  function Buffering(p: Product): World
    requires ScaleOk(p)
  {
    SecondOpens(p);
    var book := Execute(Opened(p), Place(SECOND)).book;
    World(Engine(QUIET + 2, [], book, QUIET + 1, [], [L2], Committer(1, None, [L1]), [], [Taken(p)], [], 0), [], None)
  }

  lemma {:induction false} BufferingIsReached(p: Product) returns (run: seq<World>)
    requires ScaleOk(p)
    ensures Execution(p, Orders(), run) && run[|run| - 1] == Buffering(p)
  {
    hide Execution, Execute, Orders, CanExecute;
    run := AskedIsReached(p);
    SecondOpens(p);
    var w := Asked(p);
    var w1 := w.(engine := FetchStep(w.engine, Orders()));
    run := Extend(p, Orders(), run, w1);
    assert w1.engine.orderCh == [OffsetOrder(QUIET + 1, Place(SECOND))] && ApplyEnabled(w1.engine);
    var w2 := w1.(engine := ApplyStep(w1.engine));
    run := Extend(p, Orders(), run, w2);
    var w3 := w2.(engine := PushStep(w2.engine));
    run := Extend(p, Orders(), run, w3);
    assert w3.engine.logCh == [L1, L2];
    var w4 := CommitStep(w3);
    run := Extend(p, Orders(), run, w4);
    assert w4 == Buffering(p);
  }

  /** Not every stored snapshot is durable: it is approved because its entry was received, while the entry is only
      buffered. After a crash here the restarted engine skips that entry, and by `CrashFreeExactly` no reader can get it. */
  lemma {:induction false} ApprovalIsNotDurable(p: Product) returns (run: seq<World>)
    requires ScaleOk(p)
    ensures Clean(p, Orders()) && run != [] && Execution(p, Orders(), run)
    ensures var w := run[|run| - 1];
            && w.store == Some(Taken(p)) && w.topic == [] && !Durable(w.topic, w.store)
            && Boot(p, w.store).next == QUIET + 1 && Boot(p, w.store).committer.seqNo == 1
  {
    hide Execution, Execute, Orders, CanExecute;
    OrdersAreClean(p);
    run := BufferingIsReached(p);
    var w := Buffering(p);
    var w1 := w.(engine := ApproveStep(w.engine));
    run := Extend(p, Orders(), run, w1);
    assert w1.engine.snapshotCh == [Taken(p)];
    var w2 := PersistStep(w1, true);
    run := Extend(p, Orders(), run, w2);
    AddsOne(p);
  }

  lemma {:induction false} AddsOne(p: Product)
    ensures Restore(NewBook(p), Taken(p).book).logSeq == 1
  {
    var s := Taken(p).book;
    var b := NewBook(p).(logSeq := 1, tradeSeq := 0, window := s.window);
    assert s.orders[..0] == [] && AddAll(b, []) == b;
    assert AddAll(b, s.orders) == Add(b, FIRST);
  }

  lemma {:induction false} Free(p: Product, input: seq<Command>, run: seq<World>)
    requires Execution(p, input, run)
    ensures FreeExecution(p, input, run)
  {
    hide Runs, Crashes, Durable;
  }

  lemma {:induction false} FreeOn(p: Product, input: seq<Command>, run: seq<World>, w: World) returns (longer: seq<World>)
    requires FreeExecution(p, input, run) && (Runs(input, run[|run| - 1], w) || Crashes(p, run[|run| - 1], w))
    ensures longer != [] && FreeExecution(p, input, longer) && longer[|longer| - 1] == w
  {
    hide Runs, Crashes;
    longer := run + [w];
  }

  /** The engine that restarts after the hazard. */
  function Restarted(p: Product): World {
    World(Engine(QUIET + 1, [], Opened(p), 0, [], [], Committer(1, None, []), [], [], [], QUIET), [], Some(Taken(p)))
  }

  lemma {:induction false} Restarts(p: Product, w: World)
    requires ScaleOk(p) && w.store == Some(Taken(p)) && w.topic == []
    ensures Crashes(p, w, Restarted(p))
  {
    hide Execute, CanExecute;
    RestoresOpened(p);
    assert w.engine.committer.buffer[..0] == [];
    assert CrashStep(p, w, 0) == Restarted(p);
  }

  lemma {:induction false} RestoresOpened(p: Product)
    ensures Restore(NewBook(p), Taken(p).book) == Opened(p)
  {
    var s := Taken(p).book;
    var b := NewBook(p).(logSeq := 1, tradeSeq := 0, window := s.window);
    assert s.orders[..0] == [] && AddAll(b, []) == b;
    assert AddAll(b, s.orders) == Add(b, FIRST);
    assert Insert(Buy, [], FIRST) == [FIRST];
  }

  /** So a reader that starts with the topic can get the second entry without the first, and nothing tells it: before
      its first delivery it takes any sequence. */
  lemma {:induction false} ReadersMissTheFirst(p: Product) returns (run: seq<World>)
    requires ScaleOk(p)
    ensures Clean(p, Orders()) && run != [] && FreeExecution(p, Orders(), run) && run[|run| - 1].topic == [L2]
  {
    hide Execution, FreeExecution, Execute, Orders, CanExecute, Boot;
    var hazard := ApprovalIsNotDurable(p);
    Free(p, Orders(), hazard);
    var w0 := Restarted(p);
    Restarts(p, hazard[|hazard| - 1]);
    run := FreeOn(p, Orders(), hazard, w0);
    SecondOpens(p);
    var w1 := w0.(engine := FetchStep(w0.engine, Orders()));
    run := FreeOn(p, Orders(), run, w1);
    assert w1.engine.orderCh == [OffsetOrder(QUIET + 1, Place(SECOND))] && ApplyEnabled(w1.engine);
    var w2 := w1.(engine := ApplyStep(w1.engine));
    run := FreeOn(p, Orders(), run, w2);
    var w3 := w2.(engine := PushStep(w2.engine));
    run := FreeOn(p, Orders(), run, w3);
    assert w3.engine.logCh == [L2];
    var w4 := CommitStep(w3);
    run := FreeOn(p, Orders(), run, w4);
    assert w4.topic == [L2];
  }
}
