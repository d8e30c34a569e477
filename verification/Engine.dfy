/** The engine object: what each pass of its goroutines' loops does to its queues, proved against the step machine. */
module Engines {
  import opened Types
  import opened PriceTime
  import opened DedupWindow
  import M = Matching
  import opened BookInvariant
  import R = Recovery
  import opened OrderBooks
  import E = EngineSteps
  import opened EngineInvariant
  import EngineRuns

  /** The applier pushes all entries of an order before it looks at its queues again. */
  function PushAll(e: E.Engine): E.Engine {
    e.(outbox := [], logCh := e.logCh + e.outbox)
  }

  /** Pushing all is pushing one by one. */
  lemma {:induction false} PushAllRuns(input: seq<Command>, w: E.World) returns (run: seq<E.World>)
    ensures run != [] && run[0] == w && run[|run| - 1] == w.(engine := PushAll(w.engine))
    ensures forall i :: 0 <= i < |run| - 1 ==> E.Runs(input, run[i], run[i + 1])
    decreases |w.engine.outbox|
  {
    var e := w.engine;
    if e.outbox == [] {
      assert e.logCh + e.outbox == e.logCh;
      run := [w];
    } else {
      var e' := E.PushStep(e);
      var w' := w.(engine := e');
      var rest := PushAllRuns(input, w');
      assert e'.logCh + e'.outbox == e.logCh + e.outbox;
      assert E.Runs(input, w, w');
      run := [w] + rest;
    }
  }

  /** The applier's order arm is a run of the step machine: apply, then push every entry. */
  lemma {:induction false} ApplyArmRuns(input: seq<Command>, w: E.World) returns (run: seq<E.World>)
    requires E.ApplyEnabled(w.engine)
    ensures run != [] && run[0] == w && run[|run| - 1] == w.(engine := PushAll(E.ApplyStep(w.engine)))
    ensures forall i :: 0 <= i < |run| - 1 ==> E.Runs(input, run[i], run[i + 1])
  {
    hide E.ApplyEnabled, E.ApplyStep;
    var w' := w.(engine := E.ApplyStep(w.engine));
    assert E.Runs(input, w, w');
    var rest := PushAllRuns(input, w');
    run := [w] + rest;
  }

  /** A window as the constructor makes it and `put` keeps it. */
  ghost predicate GoodWindow(w: Window) {
    0 <= w.min < w.max && w.cap == w.max - w.min && forall j :: j in w.taken ==> 0 <= j < w.cap
  }

  ghost predicate Restorable(p: Product, s: R.BookSnapshot) {
    exists b :: ValidBook(b) && b.product == p && R.IsSnapshotOf(s, b)
  }

  lemma {:induction false} RestoresToValid(p: Product, s: R.BookSnapshot)
    requires Restorable(p, s)
    ensures DistinctIds(s.orders) && ValidBook(R.Restore(M.NewBook(p), s))
  {
    hide ValidBook, R.Restore;
    var b :| ValidBook(b) && b.product == p && R.IsSnapshotOf(s, b);
    R.RestoreIsExact(b, s);
  }

  /** What the applier's order arm amounts to, its entries pushed. */
  lemma {:induction false} ApplyAmounts(e: E.Engine, after: M.Book, logs: seq<Log>)
    requires E.ApplyEnabled(e) && M.Applied(after, logs) == M.Execute(e.book, e.orderCh[0].command)
    ensures PushAll(E.ApplyStep(e)) ==
            e.(orderCh := e.orderCh[1..], book := after, logCh := e.logCh + logs, orderOffset := e.orderCh[0].offset, outbox := [])
  {
  }

  class Engine {
    const product: Product
    const book: OrderBook
    var next: nat
    var orderCh: seq<E.OffsetOrder>
    var orderOffset: int
    var logCh: seq<Log>
    var seqNo: int
    var pending: Option<E.Snapshot>
    var buffer: seq<Log>
    var reqCh: seq<int>
    var approveCh: seq<E.Snapshot>
    var snapshotCh: seq<E.Snapshot>
    var lastOffset: int
    var topic: seq<Log>
    var store: Option<E.Snapshot>

    ghost predicate Valid()
      reads this, book, book.bids, book.asks, book.window.bitmap
    {
      book.Valid() && ValidBook(book.Model())
    }

    ghost function Model(): E.World
      requires Valid()
      reads this, book, book.bids, book.asks, book.window.bitmap
    {
      E.World(E.Engine(next, orderCh, book.Model(), orderOffset, [], logCh, E.Committer(seqNo, pending, buffer),
                       reqCh, approveCh, snapshotCh, lastOffset), topic, store)
    }

    /** NewEngine: restore the latest stored snapshot. */
    constructor (product: Product, topic: seq<Log>, store: Option<E.Snapshot>)
      requires ScaleOk(product)
      requires store.Some? ==> store.value.orderOffset >= 0
      requires store.Some? ==> Restorable(product, store.value.book)
      requires store.Some? ==> GoodWindow(store.value.book.window)
      ensures Valid() && Model() == E.World(E.Boot(product, store), topic, store)
    {
      hide ValidBook, Restorable, R.Restore, DistinctIds;
      this.product := product;
      book := new OrderBook(product);
      this.topic, this.store := topic, store;
      orderOffset, lastOffset, next := 0, 0, 0;
      orderCh, logCh, buffer, reqCh, approveCh, snapshotCh, pending := [], [], [], [], [], [], None;
      new;
      if store.Some? {
        lastOffset := store.value.orderOffset;
        RestoresToValid(product, store.value.book);
        book.Restore(store.value.book);
      } else {
        NewBookValid(product);
      }
      seqNo := book.logSeq;
      next := if lastOffset > 0 then lastOffset + 1 else lastOffset;
    }

    method FetchOrder(input: seq<Command>)
      requires Valid() && next < |input|
      modifies this`next, this`orderCh
      ensures Valid() && Model() == old(Model()).(engine := E.FetchStep(old(Model().engine), input))
    {
      orderCh := orderCh + [E.OffsetOrder(next, input[next])];
      next := next + 1;
    }

    method Execute(c: Command) returns (logs: seq<Log>, panicked: bool)
      requires book.Valid() && ValidBook(book.Model())
      requires c.Place? ==> c.order.Sane() && c.order.id !in RestingIds(book.Model())
      modifies book`logSeq, book`tradeSeq, book.bids, book.asks, book.window.bitmap
      ensures panicked <==> !M.CanExecute(old(book.Model()), c)
      ensures !panicked ==> book.Valid() && ValidBook(book.Model())
      ensures !panicked ==> M.Applied(book.Model(), logs) == M.Execute(old(book.Model()), c)
    {
      hide ValidBook, M.ApplyOrder, M.CancelOrder, M.CanApply, RestingIds;
      ghost var b := book.Model();
      if c.Cancel? {
        CancelKeepsValid(b, c.order);
        logs := book.CancelOrder(c.order);
        panicked := false;
      } else {
        logs, panicked := book.ApplyOrder(c.order);
        if !panicked {
          ApplyKeepsValid(b, c.order);
        }
      }
    }

    /** The applier's order arm: apply or cancel, push every entry, remember the offset; by `ApplyArmRuns` a run of the
        step machine. */
    method ApplyNext() returns (panicked: bool)
      requires Valid() && orderCh != []
      requires var c := orderCh[0].command; c.Place? ==> c.order.Sane() && c.order.id !in RestingIds(book.Model())
      modifies this`orderCh, this`logCh, this`orderOffset
      modifies book`logSeq, book`tradeSeq, book.bids, book.asks, book.window.bitmap
      ensures panicked <==> !E.ApplyEnabled(old(Model()).engine)
      ensures !panicked ==> Valid() && Model() == old(Model()).(engine := PushAll(E.ApplyStep(old(Model()).engine)))
    {
      hide ValidBook, M.Execute, M.CanExecute, RestingIds, PushAll, E.ApplyStep, OrderBook.Valid, OrderBook.Model;
      ghost var before := Model().engine;
      var first := orderCh[0];
      orderCh := orderCh[1..];
      var logs;
      logs, panicked := Execute(first.command);
      if !panicked {
        PushLogs(logs);
        orderOffset := first.offset;
        ApplyAmounts(before, book.Model(), logs);
      }
    }

    method PushLogs(logs: seq<Log>)
      modifies this`logCh
      ensures logCh == old(logCh) + logs
    {
      var i := 0;
      while i < |logs|
        invariant i <= |logs| && logCh == old(logCh) + logs[..i]
      {
        logCh := logCh + [logs[i]];
        i := i + 1;
      }
      assert logs[..i] == logs;
    }

    /** The applier's request arm. */
    method AnswerRequest() returns (listing: Option<R.BookSnapshot>)
      requires Valid() && reqCh != []
      modifies this`reqCh, this`approveCh
      ensures listing.Some? <==> old(orderOffset - reqCh[0]) > E.SNAPSHOT_EVERY
      ensures listing.Some? ==> R.IsSnapshotOf(listing.value, book.Model())
      ensures Valid()
      ensures forall s :: listing == None || listing == Some(s) ==>
                Model() == old(Model()).(engine := E.RequestStep(old(Model().engine), s))
    {
      var offset := reqCh[0];
      reqCh := reqCh[1..];
      var delta := orderOffset - offset;
      if delta <= 1000 {
        return None;
      }
      var s := book.Snapshot();
      approveCh := approveCh + [E.Snapshot(s, orderOffset)];
      listing := Some(s);
    }

    /** The committer's log arm. */
    method ReceiveLog()
      requires Valid() && logCh != []
      modifies this`logCh, this`seqNo, this`pending, this`buffer, this`snapshotCh, this`topic
      ensures Valid() && Model() == E.CommitStep(old(Model()))
    {
      hide ValidBook, OrderBook.Valid, OrderBook.Model, E.OnLog;
      var log := logCh[0];
      logCh := logCh[1..];
      Commit(log);
    }

    /** Receives one entry: buffers it, or stores the buffer and releases the pending snapshot. */
    method Commit(log: Log)
      modifies this`seqNo, this`pending, this`buffer, this`snapshotCh, this`topic
      ensures var c := E.OnLog(old(E.Committer(seqNo, pending, buffer)), log, |logCh|);
              && E.Committer(seqNo, pending, buffer) == c.committer
              && topic == old(topic) + c.stored && snapshotCh == old(snapshotCh) + c.released
    {
      if log.sequence <= seqNo {
        return;
      }
      seqNo := log.sequence;
      buffer := buffer + [log];
      if |logCh| > 0 && |buffer| < E.BATCH {
        return;
      }
      topic := topic + buffer;
      buffer := [];
      if pending.Some? && seqNo >= pending.value.book.logSeq {
        snapshotCh := snapshotCh + [pending.value];
        pending := None;
      }
    }

    /** The committer's approval arm. */
    method ReceiveApproval()
      requires Valid() && approveCh != []
      modifies this`approveCh, this`pending, this`snapshotCh
      ensures Valid() && Model() == old(Model()).(engine := E.ApproveStep(old(Model().engine)))
    {
      var snapshot := approveCh[0];
      approveCh := approveCh[1..];
      if seqNo >= snapshot.book.logSeq {
        snapshotCh := snapshotCh + [snapshot];
        pending := None;
        return;
      }
      pending := Some(snapshot);
    }

    method Tick()
      requires Valid()
      modifies this`reqCh
      ensures Valid() && Model() == old(Model()).(engine := E.TickStep(old(Model().engine)))
    {
      reqCh := reqCh + [lastOffset];
    }

    /** The snapshotter's storing arm; `ok` is whether the store succeeds. */
    method PersistNext(ok: bool)
      requires Valid() && snapshotCh != []
      modifies this`snapshotCh, this`lastOffset, this`store
      ensures Valid() && Model() == E.PersistStep(old(Model()), ok)
    {
      var snapshot := snapshotCh[0];
      snapshotCh := snapshotCh[1..];
      if !ok {
        return;
      }
      store := Some(snapshot);
      lastOffset := snapshot.orderOffset;
    }
  }

  /** Every window a run reaches is one the constructor can rebuild. */
  lemma {:induction false} WindowStaysGood(p: Product, cmds: seq<Command>)
    requires M.Run(p, cmds).Some?
    ensures GoodWindow(M.Run(p, cmds).value.book.window)
    decreases |cmds|
  {
    if cmds != [] {
      WindowStaysGood(p, cmds[..|cmds| - 1]);
      hide M.Walk, M.TradeLogs, M.Priced;
    }
  }

  /** Whatever snapshot an execution has stored, a new engine can be made from it. */
  lemma {:induction false} StoredRestores(p: Product, input: seq<Command>, run: seq<E.World>, i: nat)
    requires Clean(p, input) && EngineRuns.Execution(p, input, run) && i < |run| && run[i].store.Some?
    ensures var s := run[i].store.value; s.orderOffset >= 0 && Restorable(p, s.book) && GoodWindow(s.book.window)
  {
    hide EngineRuns.Execution, GoodWindow, ValidBook;
    EngineRuns.SnapshotsAreExact(p, input, run, i, i);
    var s := run[i].store.value;
    AtFacts(p, input, s.orderOffset + 1);
    PrefixRuns(p, input, s.orderOffset + 1);
    WindowStaysGood(p, input[..s.orderOffset + 1]);
    var b := At(p, input, s.orderOffset + 1).book;
    assert R.IsSnapshotOf(s.book, b);
  }
}
