/** Crashes at any moment: which executions lose a log entry, exactly. */
module EngineCrashes {
  import opened Types
  import opened Matching
  import opened BookInvariant
  import opened Recovery
  import opened Stream
  import opened LogReader
  import opened EngineSteps
  import opened EngineInvariant
  import opened EngineRuns

  /** An execution in which the engine may crash at any moment, its stored snapshot covered by the stored log or not. */
  ghost predicate FreeExecution(p: Product, input: seq<Command>, run: seq<World>) {
    && run != [] && run[0] == Start(p)
    && forall i :: 0 <= i < |run| - 1 ==> Runs(input, run[i], run[i + 1]) || Crashes(p, run[i], run[i + 1])
  }

  /** Entry d of the log is lost: not stored, and the stored snapshot and the running engine are past it. */
  ghost predicate Lost(w: World, d: nat) {
    && w.store.Some? && w.store.value.book.logSeq > d && StoredSeq(w.engine.committer) > d
    && forall i :: 0 <= i < |w.topic| ==> w.topic[i].sequence != d + 1
  }

  lemma {:induction false} StretchSkips(topic: seq<Log>, logs: seq<Log>, a: nat, b: nat, d: nat)
    requires Contiguous(logs) && d < a <= b <= |logs|
    requires forall i :: 0 <= i < |topic| ==> topic[i].sequence != d + 1
    ensures forall i :: 0 <= i < |topic + logs[a..b]| ==> (topic + logs[a..b])[i].sequence != d + 1
  {
  }

  /** Stored snapshots never go back in sequence. */
  lemma {:induction false} SequencesGrow(p: Product, input: seq<Command>, w: World, w': World)
    requires Clean(p, input) && Running(p, input, w) && Running(p, input, w') && w.store.Some? && w'.store.Some?
    requires w.store.value.orderOffset <= w'.store.value.orderOffset
    ensures w.store.value.book.logSeq <= w'.store.value.book.logSeq
  {
    hide Running, Clean, At, IsSnapshotOf;
    StoredIsGood(p, input, w);
    StoredIsGood(p, input, w');
    SnapshotCovers(p, input, w.store.value, Done(w.engine));
    SnapshotCovers(p, input, w'.store.value, Done(w'.engine));
    AtPrefix(p, input, w.store.value.orderOffset + 1, w'.store.value.orderOffset + 1);
  }

  /** What is lost stays lost through every step and every crash. */
  lemma {:induction false} LostStays(p: Product, input: seq<Command>, w: World, w': World, d: nat)
    requires Clean(p, input) && Running(p, input, w) && Lost(w, d)
    requires Runs(input, w, w') || Crashes(p, w, w')
    ensures Running(p, input, w') && Lost(w', d)
  {
    hide Running, Clean, Runs, CommitStep, CrashStep, At, Contiguous;
    if Runs(input, w, w') {
      RunsOn(p, input, w, w');
      SequencesGrow(p, input, w, w');
      OnlyCommitWrites(input, w, w');
      if w.engine.logCh != [] && w' == CommitStep(w) {
        CommitRuns(p, input, w);
        AtFacts(p, input, Done(w.engine));
        StretchSkips(w.topic, At(p, input, Done(w.engine)).logs, StoredSeq(w.engine.committer), StoredSeq(w'.engine.committer), d);
      }
    } else {
      var written: nat :| written <= |w.engine.committer.buffer| && w' == CrashStep(p, w, written);
      CrashRuns(p, input, w, written);
      BufferIsStretch(p, input, w);
      AtFacts(p, input, Done(w.engine));
      var a, c := StoredSeq(w.engine.committer), w.engine.committer;
      var logs := At(p, input, Done(w.engine)).logs;
      Slice(logs, a, c.seqNo, written);
      CrashWrites(p, w, written);
      StretchSkips(w.topic, logs, a, a + written, d);
    }
  }

  lemma {:induction false} Slice(logs: seq<Log>, a: nat, b: nat, n: nat)
    requires a <= b <= |logs| && n <= b - a
    ensures logs[a..b][..n] == logs[a..a + n]
  {
  }

  lemma {:induction false} CrashWrites(p: Product, w: World, written: nat)
    requires written <= |w.engine.committer.buffer| && (w.store.Some? ==> w.store.value.orderOffset >= 0)
    ensures CrashStep(p, w, written).topic == w.topic + w.engine.committer.buffer[..written]
  {
  }

  lemma {:induction false} BufferIsStretch(p: Product, input: seq<Command>, w: World)
    requires Clean(p, input) && Running(p, input, w)
    ensures 0 <= Done(w.engine) <= |input|
    ensures var c, logs := w.engine.committer, At(p, input, Done(w.engine)).logs;
            0 <= StoredSeq(c) <= c.seqNo <= |logs| && c.buffer == logs[StoredSeq(c)..c.seqNo]
  {
    hide Clean, At, Linked;
  }

  /** A crash whose stored snapshot is not covered loses the next entry. */
  lemma {:induction false} UncoveredLoses(p: Product, input: seq<Command>, w: World, w': World) returns (d: nat)
    requires Clean(p, input) && Inv(p, input, w) && Crashes(p, w, w') && !Durable(w'.topic, w'.store)
    ensures Running(p, input, w') && Lost(w', d) && d < |WholeLog(p, input)|
  {
    hide Running, Clean, CrashStep, At, High, Contiguous, Delivers;
    var written: nat :| written <= |w.engine.committer.buffer| && w' == CrashStep(p, w, written);
    CrashRuns(p, input, w, written);
    CrashStores(p, input, w, written);
    CrashWrites(p, w, written);
    d := High(w'.topic);
    NoneAboveHigh(w'.topic, WholeLog(p, input), d);
    StoredIsGood(p, input, w');
    BufferIsStretch(p, input, w');
    SnapshotCovers(p, input, w'.store.value, Done(w'.engine));
    AtPrefix(p, input, Done(w'.engine), |input|);
  }

  lemma {:induction false} NoneAboveHigh(topic: seq<Log>, log: seq<Log>, d: nat)
    requires Delivers(topic, log, d)
    ensures forall i :: 0 <= i < |topic| ==> topic[i].sequence != d + 1
  {
    NoneAbove(0, topic, |topic|);
  }

  /** Either every crash was covered, or at the end some entry is lost. */
  lemma {:induction false} CoveredOrLost(p: Product, input: seq<Command>, run: seq<World>, n: nat) returns (d: nat)
    requires Clean(p, input) && FreeExecution(p, input, run) && n < |run|
    ensures Execution(p, input, run[..n + 1]) || (Running(p, input, run[n]) && Lost(run[n], d) && d < |WholeLog(p, input)|)
  {
    hide Running, Clean, Lost, Runs, Crashes, Durable, WholeLog;
    if n == 0 {
      d := 0;
      assert run[..1] == [run[0]];
    } else {
      d := CoveredOrLost(p, input, run, n - 1);
      if Execution(p, input, run[..n]) {
        if Steps(p, input, run[n - 1], run[n]) {
          assert forall i :: 0 <= i < n - 1 ==> Steps(p, input, run[..n][i], run[..n][i + 1]);
        } else {
          Reachable(p, input, run[..n], n - 1, n - 1);
          assert run[..n][n - 1] == run[n - 1];
          d := UncoveredLoses(p, input, run[n - 1], run[n]);
        }
      } else {
        LostStays(p, input, run[n - 1], run[n], d);
      }
    }
  }

  /** Over every execution with crashes at any moments that comes to quiescence: readers get the whole crash-free log if
      and only if at every crash the stored snapshot was covered by the stored log. */
  lemma {:induction false} WholeLogExactly(p: Product, input: seq<Command>, run: seq<World>)
    requires Clean(p, input) && FreeExecution(p, input, run) && Quiescent(input, run[|run| - 1].engine)
    ensures Delivers(run[|run| - 1].topic, WholeLog(p, input), |WholeLog(p, input)|)
            <==> forall i :: 0 <= i < |run| - 1 ==> Steps(p, input, run[i], run[i + 1])
  {
    hide Running, Clean, Runs, Crashes, Durable, WholeLog, Quiescent, Delivers, Steps;
    var n := |run| - 1;
    if forall i :: 0 <= i < n ==> Steps(p, input, run[i], run[i + 1]) {
      QuiescenceIsComplete(p, input, run, n);
    } else {
      var d := CoveredOrLost(p, input, run, n);
      NotCovered(p, input, run);
      WholeIsContiguous(p, input);
      LostIsNotDelivered(run[n], WholeLog(p, input), d);
    }
  }

  lemma {:induction false} NotCovered(p: Product, input: seq<Command>, run: seq<World>)
    requires run != [] && !forall i :: 0 <= i < |run| - 1 ==> Steps(p, input, run[i], run[i + 1])
    ensures !Execution(p, input, run[..|run|])
  {
    assert run[..|run|] == run;
  }

  lemma {:induction false} WholeIsContiguous(p: Product, input: seq<Command>)
    requires Clean(p, input)
    ensures Contiguous(WholeLog(p, input))
  {
    AtFacts(p, input, |input|);
  }

  lemma {:induction false} LostIsNotDelivered(w: World, log: seq<Log>, d: nat)
    requires Lost(w, d) && d < |log| && Contiguous(log)
    ensures !Delivers(w.topic, log, |log|)
  {
    assert log[d].sequence == d + 1 && log[d] !in w.topic;
    if Delivers(w.topic, log, |log|) {
      DeliveredIsStored(w.topic, log, |log|);
    }
  }

  // ------------------------------------------------------- what readers get after any crashes

  /** Whatever is stored is an entry of the crash-free log. */
  ghost predicate FromWhole(topic: seq<Log>, whole: seq<Log>) {
    forall i :: 0 <= i < |topic| ==> 1 <= topic[i].sequence <= |whole| && topic[i] == whole[topic[i].sequence - 1]
  }

  lemma {:induction false} StretchFromWhole(topic: seq<Log>, whole: seq<Log>, logs: seq<Log>, a: nat, b: nat)
    requires Contiguous(whole) && logs <= whole && a <= b <= |logs| && FromWhole(topic, whole)
    ensures FromWhole(topic + logs[a..b], whole)
  {
  }

  /** What one step writes is the next stretch of the log. */
  lemma {:induction false} StepWrites(p: Product, input: seq<Command>, w: World, w': World) returns (b: nat)
    requires Clean(p, input) && Running(p, input, w) && (Runs(input, w, w') || Crashes(p, w, w'))
    ensures Running(p, input, w') && 0 <= Done(w.engine) <= |input|
    ensures var logs, a := At(p, input, Done(w.engine)).logs, StoredSeq(w.engine.committer);
            0 <= a <= b <= |logs| && w'.topic == w.topic + logs[a..b]
  {
    hide Running, Clean, Runs, CommitStep, CrashStep, At;
    BufferIsStretch(p, input, w);
    var a, logs := StoredSeq(w.engine.committer), At(p, input, Done(w.engine)).logs;
    if Runs(input, w, w') {
      RunsOn(p, input, w, w');
      OnlyCommitWrites(input, w, w');
      if w.engine.logCh != [] && w' == CommitStep(w) {
        CommitRuns(p, input, w);
        b := StoredSeq(w'.engine.committer);
      } else {
        b := a;
        assert w.topic + logs[a..a] == w.topic;
      }
    } else {
      var written: nat :| written <= |w.engine.committer.buffer| && w' == CrashStep(p, w, written);
      CrashRuns(p, input, w, written);
      CrashWrites(p, w, written);
      b := a + written;
      Slice(logs, a, w.engine.committer.seqNo, written);
    }
  }

  lemma {:induction false} AlwaysFromWhole(p: Product, input: seq<Command>, run: seq<World>, i: nat)
    requires Clean(p, input) && FreeExecution(p, input, run) && i < |run|
    ensures Running(p, input, run[i]) && FromWhole(run[i].topic, WholeLog(p, input))
  {
    hide Running, Clean, Runs, Crashes, At, FromWhole;
    if i == 0 {
      StartRuns(p, input);
      NothingFromWhole(WholeLog(p, input));
    } else {
      AlwaysFromWhole(p, input, run, i - 1);
      var w := run[i - 1];
      var b := StepWrites(p, input, w, run[i]);
      WholeIsContiguous(p, input);
      AtPrefix(p, input, Done(w.engine), |input|);
      StretchFromWhole(w.topic, WholeLog(p, input), At(p, input, Done(w.engine)).logs, StoredSeq(w.engine.committer), b);
    }
  }

  lemma {:induction false} StartRuns(p: Product, input: seq<Command>)
    requires Clean(p, input)
    ensures Running(p, input, Start(p))
  {
    hide Running;
    StartInv(p, input);
  }

  lemma {:induction false} NothingFromWhole(whole: seq<Log>)
    ensures FromWhole([], whole)
  {
  }

  /** Over every execution with crashes at any moments, whatever a reader delivered is one stretch of the crash-free log,
      each entry once and in order, starting with the first entry stored. A lost entry ends the reading. */
  lemma {:induction false} ReadersGetAStretch(p: Product, input: seq<Command>, run: seq<World>, i: nat, k: nat, ms: seq<Message>)
    requires Clean(p, input) && FreeExecution(p, input, run) && i < |run|
    requires k <= |run[i].topic| && Reads(0, run[i].topic, 0, k, ms) && ms != []
    ensures run[i].topic != []
    ensures var s, whole := run[i].topic[0].sequence - 1, WholeLog(p, input);
            0 <= s && s + |ms| <= |whole| && Logs(ms) == whole[s..s + |ms|]
  {
    hide FreeExecution, Clean, Running;
    AlwaysFromWhole(p, input, run, i);
    StretchOf(run[i].topic, WholeLog(p, input), k, ms);
  }

  lemma {:induction false} StretchOf(topic: seq<Log>, whole: seq<Log>, k: nat, ms: seq<Message>)
    requires FromWhole(topic, whole) && k <= |topic| && Reads(0, topic, 0, k, ms) && ms != []
    ensures var s := topic[0].sequence - 1; 0 <= s && s + |ms| <= |whole| && Logs(ms) == whole[s..s + |ms|]
  {
    assert FirstAbove(0, topic, 0, ms) && InPlace(topic, 0, k, ms) && Consecutive(0, ms);
    hide Reads, Consecutive, FromWhole, FirstAbove, InPlace;
    StartsAtFirst(topic, whole, k, ms);
    EachFromWhole(topic, whole, k, ms);
    OneStretch(whole, ms);
  }

  lemma {:induction false} EachFromWhole(topic: seq<Log>, whole: seq<Log>, k: nat, ms: seq<Message>)
    requires FromWhole(topic, whole) && k <= |topic| && InPlace(topic, 0, k, ms)
    ensures forall j :: 0 <= j < |ms| ==> 1 <= ms[j].log.sequence <= |whole| && ms[j].log == whole[ms[j].log.sequence - 1]
  {
    forall j | 0 <= j < |ms|
      ensures 1 <= ms[j].log.sequence <= |whole| && ms[j].log == whole[ms[j].log.sequence - 1]
    {
      assert topic[ms[j].offset] == ms[j].log;
    }
  }

  lemma {:induction false} SequencesArePositive(topic: seq<Log>, whole: seq<Log>)
    requires FromWhole(topic, whole) && topic != []
    ensures topic[0].sequence >= 1
  {
    var i := 0;
    assert 0 <= i < |topic| && 1 <= topic[i].sequence;
  }

  lemma {:induction false} SkippedFirst(topic: seq<Log>, ms: seq<Message>)
    requires ms != [] && topic != [] && ms[0].offset > 0 && FirstAbove(0, topic, 0, ms)
    ensures topic[0].sequence <= 0
  {
    assert LastOf(0, ms[..0]) == 0;
  }

  lemma {:induction false} StartsAtFirst(topic: seq<Log>, whole: seq<Log>, k: nat, ms: seq<Message>)
    requires FromWhole(topic, whole) && k <= |topic| && ms != [] && InPlace(topic, 0, k, ms) && FirstAbove(0, topic, 0, ms)
    ensures topic != [] && ms[0].log == topic[0]
  {
    hide FirstAbove;
    assert 0 <= ms[0].offset < k;
    assert topic[ms[0].offset] == ms[0].log;
    SequencesArePositive(topic, whole);
    if ms[0].offset > 0 {
      SkippedFirst(topic, ms);
    }
  }

  lemma {:induction false} OneStretch(whole: seq<Log>, ms: seq<Message>)
    requires Consecutive(0, ms) && ms != []
    requires forall j :: 0 <= j < |ms| ==> 1 <= ms[j].log.sequence <= |whole| && ms[j].log == whole[ms[j].log.sequence - 1]
    ensures var s := ms[0].log.sequence - 1; 0 <= s && s + |ms| <= |whole| && Logs(ms) == whole[s..s + |ms|]
  {
    assert ms[|ms| - 1].log.sequence == ms[0].log.sequence + |ms| - 1;
  }

  /** At no crash while nothing was stored yet was a snapshot stored already. */
  ghost predicate StartedCovered(p: Product, input: seq<Command>, run: seq<World>, n: nat)
    requires n < |run|
  {
    forall i :: 0 <= i < n && run[i + 1].topic == [] ==> Steps(p, input, run[i], run[i + 1])
  }

  lemma {:induction false} TopicGrows(p: Product, input: seq<Command>, run: seq<World>, i: nat, j: nat)
    requires Clean(p, input) && FreeExecution(p, input, run) && i <= j < |run|
    ensures run[i].topic <= run[j].topic
    decreases j
  {
    hide Clean, Running, Runs, Crashes, At;
    if i < j {
      TopicGrows(p, input, run, i, j - 1);
      AlwaysFromWhole(p, input, run, j - 1);
      var b := StepWrites(p, input, run[j - 1], run[j]);
    }
  }

  /** While nothing is stored, an execution whose crashes were covered so far has the invariant. */
  lemma {:induction false} EmptyIsCovered(p: Product, input: seq<Command>, run: seq<World>, n: nat)
    requires Clean(p, input) && FreeExecution(p, input, run) && n < |run| && run[n].topic == [] && StartedCovered(p, input, run, n)
    ensures Inv(p, input, run[n])
  {
    hide Clean, Inv, Runs, Crashes, Steps;
    forall i | 0 <= i <= n
      ensures run[i].topic == []
    {
      TopicGrows(p, input, run, i, n);
    }
    var covered := run[..n + 1];
    assert forall i :: 0 <= i < n ==> Steps(p, input, covered[i], covered[i + 1]);
    Reachable(p, input, covered, n, n);
  }

  lemma {:induction false} FirstEntry(p: Product, input: seq<Command>, run: seq<World>, n: nat)
    requires Clean(p, input) && FreeExecution(p, input, run) && n < |run| && run[n].topic != [] && StartedCovered(p, input, run, n)
    ensures run[n].topic[0].sequence == 1
    decreases n
  {
    hide Clean, Inv, Runs, Crashes, Steps, At, Running;
    StartIsEmpty(p);
    if run[n - 1].topic != [] {
      FirstEntry(p, input, run, n - 1);
      TopicGrows(p, input, run, n - 1, n);
    } else {
      EmptyIsCovered(p, input, run, n - 1);
      EmptyStoresFromStart(p, input, run[n - 1]);
      AlwaysFromWhole(p, input, run, n - 1);
      var b := StepWrites(p, input, run[n - 1], run[n]);
      AtFacts(p, input, Done(run[n - 1].engine));
    }
  }

  lemma {:induction false} StartIsEmpty(p: Product)
    ensures Start(p).topic == []
  {
  }

  lemma {:induction false} EmptyStoresFromStart(p: Product, input: seq<Command>, w: World)
    requires Clean(p, input) && Inv(p, input, w) && w.topic == []
    ensures StoredSeq(w.engine.committer) <= 0
  {
    hide Running, Clean, At, Delivers;
  }

  /** An uncovered crash with nothing stored: the first entry is never stored. */
  lemma {:induction false} NeverFirst(p: Product, input: seq<Command>, run: seq<World>, k: nat, n: nat)
    requires Clean(p, input) && FreeExecution(p, input, run) && k < n < |run|
    requires run[k + 1].topic == [] && !Steps(p, input, run[k], run[k + 1]) && StartedCovered(p, input, run, k)
    ensures Running(p, input, run[n]) && Lost(run[n], 0)
    decreases n
  {
    hide Clean, Inv, Runs, Crashes, At, Running, Lost, Durable;
    if n == k + 1 {
      TopicGrows(p, input, run, k, k + 1);
      EmptyIsCovered(p, input, run, k);
      var d := UncoveredLoses(p, input, run[k], run[k + 1]);
      EmptyLosesFirst(p, input, run[k], run[k + 1]);
    } else {
      NeverFirst(p, input, run, k, n - 1);
      LostStays(p, input, run[n - 1], run[n], 0);
    }
  }

  lemma {:induction false} EmptyLosesFirst(p: Product, input: seq<Command>, w: World, w': World)
    requires Clean(p, input) && Inv(p, input, w) && Crashes(p, w, w') && !Durable(w'.topic, w'.store) && w'.topic == []
    ensures Running(p, input, w') && Lost(w', 0)
  {
    hide Running, Clean, CrashStep, Delivers, At;
    var written: nat :| written <= |w.engine.committer.buffer| && w' == CrashStep(p, w, written);
    CrashRuns(p, input, w, written);
  }

  /** Over every execution with crashes at any moments: once something is stored, what readers get is a beginning of the
      crash-free log if and only if no crash found a snapshot stored and the log store still empty. */
  lemma {:induction false} BeginningExactly(p: Product, input: seq<Command>, run: seq<World>, n: nat, k: nat, ms: seq<Message>)
    requires Clean(p, input) && FreeExecution(p, input, run) && n < |run|
    requires k <= |run[n].topic| && Reads(0, run[n].topic, 0, k, ms) && ms != []
    ensures Logs(ms) <= WholeLog(p, input) <==> StartedCovered(p, input, run, n)
  {
    hide Clean, Reads, Runs, Crashes, Steps, Running, Lost;
    ReadersGetAStretch(p, input, run, n, k, ms);
    WholeIsContiguous(p, input);
    var s, whole := run[n].topic[0].sequence - 1, WholeLog(p, input);
    assert Logs(ms)[0] == whole[s];
    if StartedCovered(p, input, run, n) {
      FirstEntry(p, input, run, n);
    } else {
      var j := FirstUncovered(p, input, run, n);
      NeverFirst(p, input, run, j, n);
      LostIsNotFirst(run[n]);
    }
  }

  lemma {:induction false} LostIsNotFirst(w: World)
    requires Lost(w, 0) && w.topic != []
    ensures w.topic[0].sequence != 1
  {
  }

  lemma {:induction false} FirstUncovered(p: Product, input: seq<Command>, run: seq<World>, n: nat) returns (k: nat)
    requires n < |run| && !StartedCovered(p, input, run, n)
    ensures k < n && run[k + 1].topic == [] && !Steps(p, input, run[k], run[k + 1]) && StartedCovered(p, input, run, k)
    decreases n
  {
    hide Steps;
    if n > 0 && !StartedCovered(p, input, run, n - 1) {
      k := FirstUncovered(p, input, run, n - 1);
    } else {
      k := n - 1;
    }
  }
}
