/** Whole executions of the engine: what its readers get, what it persists, and when a crash is harmless. */
module EngineRuns {
  import opened Types
  import opened Matching
  import opened PriceTime
  import opened BookInvariant
  import opened LogGrammar
  import opened OrderLives
  import opened Recovery
  import opened Stream
  import opened LogReader
  import opened EngineSteps
  import opened EngineInvariant

  ghost predicate Crashes(p: Product, w: World, w': World) {
    exists written: nat ::
      written <= |w.engine.committer.buffer| && (w.store.Some? ==> w.store.value.orderOffset >= 0) && w' == CrashStep(p, w, written)
  }

  /** A step of the running engine, or a crash that leaves the stored snapshot covered by the stored log. */
  ghost predicate Steps(p: Product, input: seq<Command>, w: World, w': World) {
    Runs(input, w, w') || (Crashes(p, w, w') && Durable(w'.topic, w'.store))
  }

  ghost predicate Connected(p: Product, input: seq<Command>, run: seq<World>) {
    run != [] && forall i :: 0 <= i < |run| - 1 ==> Steps(p, input, run[i], run[i + 1])
  }

  ghost predicate Execution(p: Product, input: seq<Command>, run: seq<World>) {
    Connected(p, input, run) && run[0] == Start(p)
  }

  lemma {:induction false} StartInv(p: Product, input: seq<Command>)
    requires Clean(p, input)
    ensures Inv(p, input, Start(p))
  {
    hide Clean, At;
    StartsEmpty(p, input);
    EmptyTopicDelivers(WholeLog(p, input));
    assert Opt(None) + [] + [] + [] == [];
  }

  /** Neither the log that readers get nor the stored snapshot goes back. */
  ghost predicate Forward(w: World, w': World) {
    && High(w.topic) <= High(w'.topic)
    && (w.store.Some? ==> w'.store.Some? && w.store.value.orderOffset <= w'.store.value.orderOffset)
  }

  /** A step of the running engine keeps what every engine keeps, and a stored snapshot is never replaced by an older one. */
  lemma {:induction false} RunsOn(p: Product, input: seq<Command>, w: World, w': World)
    requires Clean(p, input) && Running(p, input, w) && Runs(input, w, w')
    ensures Running(p, input, w')
    ensures w.store.Some? ==> w'.store.Some? && w.store.value.orderOffset <= w'.store.value.orderOffset
  {
    hide Running, Clean, FetchStep, ApplyStep, PushStep, RequestStep, CommitStep, ApproveStep, TickStep, PersistStep, IsSnapshotOf;
    if w.engine.next < |input| {
      FetchKeeps(p, input, w);
    }
    if ApplyEnabled(w.engine) {
      ApplyKeeps(p, input, w);
    }
    if w.engine.outbox != [] {
      PushKeeps(p, input, w);
    }
    if w.engine.reqCh != [] {
      forall s | IsSnapshotOf(s, w.engine.book)
        ensures Running(p, input, w.(engine := RequestStep(w.engine, s)))
      {
        RequestKeeps(p, input, w, s);
      }
    }
    if w.engine.logCh != [] {
      CommitRuns(p, input, w);
    }
    if w.engine.approveCh != [] {
      ApproveKeeps(p, input, w);
    }
    TickKeeps(p, input, w);
    if w.engine.snapshotCh != [] {
      PersistKeeps(p, input, w, true);
      PersistKeeps(p, input, w, false);
    }
  }

  /** Only the committer's log arm writes to the log topic. */
  lemma {:induction false} OnlyCommitWrites(input: seq<Command>, w: World, w': World)
    requires Runs(input, w, w')
    ensures (w.engine.logCh != [] && w' == CommitStep(w))
            || (w'.topic == w.topic && StoredSeq(w'.engine.committer) == StoredSeq(w.engine.committer))
  {
    hide CommitStep, IsSnapshotOf, Execute, CanExecute;
  }

  lemma {:induction false} RunsKeeps(p: Product, input: seq<Command>, w: World, w': World)
    requires Clean(p, input) && Inv(p, input, w) && Runs(input, w, w')
    ensures Inv(p, input, w') && Forward(w, w')
  {
    hide Running, Runs, Clean, High, Delivers, CommitStep;
    RunsOn(p, input, w, w');
    OnlyCommitWrites(input, w, w');
    if w.engine.logCh != [] && w' == CommitStep(w) {
      CommitKeeps(p, input, w);
    } else {
      InvStays(p, input, w, w');
    }
  }

  lemma {:induction false} StepKeeps(p: Product, input: seq<Command>, w: World, w': World)
    requires Clean(p, input) && Inv(p, input, w) && Steps(p, input, w, w')
    ensures Inv(p, input, w') && Forward(w, w')
  {
    hide Inv, Clean, High, Runs, CrashStep, Durable;
    if Runs(input, w, w') {
      RunsKeeps(p, input, w, w');
    } else {
      var written: nat :| written <= |w.engine.committer.buffer| && w' == CrashStep(p, w, written);
      CrashKeeps(p, input, w, written);
      CrashKeepsStore(p, w, written);
    }
  }

  lemma {:induction false} CrashKeepsStore(p: Product, w: World, written: nat)
    requires written <= |w.engine.committer.buffer| && (w.store.Some? ==> w.store.value.orderOffset >= 0)
    ensures CrashStep(p, w, written).store == w.store
  {
  }

  /** Every reachable world satisfies the engine's invariant, and later worlds never go back. */
  lemma {:induction false} Reachable(p: Product, input: seq<Command>, run: seq<World>, i: nat, j: nat)
    requires Clean(p, input) && Execution(p, input, run) && i <= j < |run|
    ensures Inv(p, input, run[i]) && Inv(p, input, run[j]) && Forward(run[i], run[j])
    decreases j
  {
    hide Inv, Clean, Steps, High;
    if j == 0 {
      StartInv(p, input);
    } else if i == j {
      Reachable(p, input, run, j - 1, j - 1);
      StepKeeps(p, input, run[j - 1], run[j]);
    } else {
      Reachable(p, input, run, i, j - 1);
      StepKeeps(p, input, run[j - 1], run[j]);
    }
  }

  /** Over every execution with crashes: a reader of the log topic gets exactly the crash-free log up to some entry, each
      entry once and no gap; what is not stored yet is buffered or queued, in one contiguous stretch. */
  lemma {:induction false} NothingLostOrRepeated(p: Product, input: seq<Command>, run: seq<World>, i: nat)
    requires Clean(p, input) && Execution(p, input, run) && i < |run|
    ensures 0 <= Done(run[i].engine) <= |input|
    ensures var e, logs := run[i].engine, At(p, input, Done(run[i].engine)).logs;
            && Delivers(run[i].topic, WholeLog(p, input), High(run[i].topic))
            && StoredSeq(e.committer) <= High(run[i].topic)
            && 0 <= StoredSeq(e.committer) <= |logs| && e.committer.buffer + e.logCh + e.outbox == logs[StoredSeq(e.committer)..]
            && (e.committer.buffer != [] ==> e.logCh != [])
            && (e.committer.pending.Some? ==> e.committer.pending.value.book.logSeq > StoredSeq(e.committer))
  {
    hide Clean, Steps, Delivers, High, Linked, At;
    Reachable(p, input, run, i, i);
    var e, logs := run[i].engine, At(p, input, Done(run[i].engine)).logs;
    var a, b := StoredSeq(e.committer), e.committer.seqNo;
    assert e.committer.buffer + e.logCh + e.outbox == logs[a..b] + (e.logCh + e.outbox);
    assert logs[a..b] + logs[b..] == logs[a..];
  }

  /** A stored snapshot is exactly the book after its order, and stored snapshots never go back in offset or sequence. */
  lemma {:induction false} SnapshotsAreExact(p: Product, input: seq<Command>, run: seq<World>, i: nat, j: nat)
    requires Clean(p, input) && Execution(p, input, run) && i <= j < |run| && run[i].store.Some?
    ensures run[j].store.Some?
    ensures var s, t := run[i].store.value, run[j].store.value;
            && 0 <= s.orderOffset <= t.orderOffset < |input| && s.book.logSeq <= t.book.logSeq
            && IsSnapshotOf(s.book, At(p, input, s.orderOffset + 1).book)
  {
    hide Running, Delivers, Clean, Steps, High, IsSnapshotOf, At;
    Reachable(p, input, run, i, j);
    StoredIsGood(p, input, run[i]);
    StoredIsGood(p, input, run[j]);
    var s, t := run[i].store.value, run[j].store.value;
    SnapshotCovers(p, input, s, Done(run[i].engine));
    SnapshotCovers(p, input, t, Done(run[j].engine));
    AtPrefix(p, input, s.orderOffset + 1, t.orderOffset + 1);
  }

  lemma {:induction false} StoredIsGood(p: Product, input: seq<Command>, w: World)
    requires Clean(p, input) && Running(p, input, w) && w.store.Some?
    ensures GoodSnapshot(p, input, w.store.value, Done(w.engine))
  {
    hide Clean, IsSnapshotOf, Committing, Delivers, Applying, High;
    var e := w.engine;
    LinkedBoot(p, input, Done(e), w.store, e.snapshotCh, e.committer.pending, e.approveCh);
    assert w.store.value in Opt(w.store);
  }

  /** While the committer's buffer is empty, every released snapshot is fully stored, so a crash is harmless. */
  lemma {:induction false} EmptyBufferIsDurable(p: Product, input: seq<Command>, run: seq<World>, i: nat)
    requires Clean(p, input) && Execution(p, input, run) && i < |run| && run[i].engine.committer.buffer == []
    ensures Durable(run[i].topic, run[i].store)
    ensures forall s :: s in run[i].engine.snapshotCh ==> s.book.logSeq <= High(run[i].topic)
  {
    hide Clean, Steps, Delivers, High, Linked, Committing, Applying, At;
    Reachable(p, input, run, i, i);
    var w := run[i];
    assert w.store.Some? ==> w.store.value in Opt(w.store);
  }

  /** Everything was fetched, applied, pushed and received. */
  predicate Quiescent(input: seq<Command>, e: Engine) {
    e.next == |input| && e.orderCh == [] && e.outbox == [] && e.logCh == []
  }

  /** At quiescence the whole crash-free log is stored and delivered, and no snapshot is pending. */
  lemma {:induction false} QuiescenceIsComplete(p: Product, input: seq<Command>, run: seq<World>, i: nat)
    requires Clean(p, input) && Execution(p, input, run) && i < |run| && Quiescent(input, run[i].engine)
    ensures Delivers(run[i].topic, WholeLog(p, input), |WholeLog(p, input)|)
    ensures run[i].engine.committer.pending.None? && run[i].engine.committer.buffer == []
    ensures run[i].engine.book == Run(p, input).value.book
  {
    hide Clean, Steps, High, At;
    Reachable(p, input, run, i, i);
    var w := run[i];
    var e := w.engine;
    if e.committer.pending.Some? {
      PendingIsCovered(p, input, w);
    }
    WholeIsRun(p, input);
  }

  lemma {:induction false} WholeIsRun(p: Product, input: seq<Command>)
    requires Clean(p, input)
    ensures At(p, input, |input|) == Run(p, input).value
  {
    assert input[..|input|] == input;
  }

  lemma {:induction false} PendingIsCovered(p: Product, input: seq<Command>, w: World)
    requires Clean(p, input) && Inv(p, input, w) && w.engine.committer.pending.Some?
    ensures w.engine.committer.pending.value.book.logSeq <= |At(p, input, Done(w.engine)).logs|
  {
    hide Clean, IsSnapshotOf, Committing, Delivers, Applying, High, At;
    var e := w.engine;
    var s := e.committer.pending.value;
    var chain := Opt(w.store) + e.snapshotCh + Opt(e.committer.pending) + e.approveCh;
    assert chain[|Opt(w.store)| + |e.snapshotCh|] == s;
    SnapshotCovers(p, input, s, Done(e));
  }

  /** From any world the engine can go on to quiescence: it never stops on an order, a gap or a full queue. */
  lemma {:induction false} CanFinish(p: Product, input: seq<Command>, w: World) returns (run: seq<World>)
    requires Clean(p, input) && Inv(p, input, w)
    ensures Connected(p, input, run) && run[0] == w && Quiescent(input, run[|run| - 1].engine)
    ensures forall i :: 0 <= i < |run| - 1 ==> Runs(input, run[i], run[i + 1])
    decreases |input| - w.engine.next, |w.engine.orderCh|, |w.engine.outbox|, |w.engine.logCh|
  {
    hide Running, Clean, Execute, CanExecute, OnLog, Delivers, High;
    var e := w.engine;
    var w';
    Bounds(p, input, w);
    if e.outbox != [] {
      w' := w.(engine := PushStep(e));
    } else if e.logCh != [] {
      w' := CommitStep(w);
    } else if e.orderCh != [] {
      ApplyKeeps(p, input, w);
      w' := w.(engine := ApplyStep(e));
    } else if e.next < |input| {
      w' := w.(engine := FetchStep(e, input));
    } else {
      return [w];
    }
    assert Runs(input, w, w');
    RunsKeeps(p, input, w, w');
    var rest := CanFinish(p, input, w');
    run := [w] + rest;
  }

  lemma {:induction false} Bounds(p: Product, input: seq<Command>, w: World)
    requires Clean(p, input) && Inv(p, input, w)
    ensures w.engine.next <= |input|
  {
    hide Clean, Linked, Delivers, Committing, At, High;
  }
}
