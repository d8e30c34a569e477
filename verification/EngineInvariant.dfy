/** What every engine step keeps, over whole runs with crashes. */
module EngineInvariant {
  import opened Types
  import opened Matching
  import opened BookInvariant
  import opened LogGrammar
  import opened OrderLives
  import opened Recovery
  import opened LogReader
  import opened EngineSteps

  /** An order topic the engine can process: distinct sane orders, and no market buy that divides by zero. */
  ghost predicate Clean(p: Product, input: seq<Command>) {
    ScaleOk(p) && DistinctPlaces(input) && SanePlaces(input) && Run(p, input).Some?
  }

  lemma {:induction false} PrefixRuns(p: Product, input: seq<Command>, n: nat)
    requires Clean(p, input) && n <= |input|
    ensures Clean(p, input[..n])
  {
    assert input == input[..n] + input[n..];
    RunSplits(NewBook(p), input[..n], input[n..]);
  }

  /** The crash-free book and log after the first n orders. */
  ghost function At(p: Product, input: seq<Command>, n: nat): Applied
    requires Clean(p, input) && n <= |input|
  {
    PrefixRuns(p, input, n);
    Run(p, input[..n]).value
  }

  lemma {:induction false} AtFacts(p: Product, input: seq<Command>, n: nat)
    requires Clean(p, input) && n <= |input|
    ensures var a := At(p, input, n);
            ValidBook(a.book) && a.book.product == p && Contiguous(a.logs) && a.book.logSeq == |a.logs|
  {
    PrefixRuns(p, input, n);
    RunSound(p, input[..n]);
    var logs := At(p, input, n).logs;
    forall i | 0 <= i < |logs|
      ensures logs[i].sequence == i + 1
    {
      NumberedAt(logs, 0, 0, i);
    }
  }

  lemma {:induction false} AtNext(p: Product, input: seq<Command>, n: nat)
    requires Clean(p, input) && n < |input|
    ensures CanExecute(At(p, input, n).book, input[n])
    ensures var r := Execute(At(p, input, n).book, input[n]);
            At(p, input, n + 1) == Applied(r.book, At(p, input, n).logs + r.logs)
  {
    PrefixRuns(p, input, n + 1);
    assert input[..n + 1][..n] == input[..n];
  }

  lemma {:induction false} AtPrefix(p: Product, input: seq<Command>, n: nat, m: nat)
    requires Clean(p, input) && n <= m <= |input|
    ensures At(p, input, n).logs <= At(p, input, m).logs
    decreases m
  {
    hide Execute, CanExecute, At, Clean;
    if n < m {
      AtPrefix(p, input, n, m - 1);
      AtNext(p, input, m - 1);
      var r := Execute(At(p, input, m - 1).book, input[m - 1]);
      var before := At(p, input, m - 1).logs;
      assert At(p, input, m).logs == before + r.logs;
    }
  }

  /** The crash-free log of the whole topic. */
  ghost function WholeLog(p: Product, input: seq<Command>): seq<Log>
    requires Clean(p, input)
  {
    At(p, input, |input|).logs
  }

  /** The number of orders the book has processed. */
  function Done(e: Engine): int {
    e.next - |e.orderCh|
  }

  /** Entries of this run known to be in the log store. */
  function StoredSeq(c: Committer): int {
    c.seqNo - |c.buffer|
  }

  /** The last sequence a reader of the topic gets. */
  function High(topic: seq<Log>): nat {
    var r := ReadAll(topic);
    if r.Some? && r.value.lastSeq >= 0 then r.value.lastSeq else 0
  }

  ghost predicate Applying(p: Product, input: seq<Command>, next: int, orderCh: seq<OffsetOrder>, book: Book, offset: int)
    requires Clean(p, input)
  {
    var n := next - |orderCh|;
    && 0 <= n <= next <= |input|
    && (forall i :: 0 <= i < |orderCh| ==> orderCh[i] == OffsetOrder(n + i, input[n + i]))
    && book == At(p, input, n).book
    && (offset == 0 || offset == n - 1)
  }

  /** Stored, buffered and queued entries are one contiguous stretch of the crash-free log; a nonempty buffer
      implies a nonempty queue; a pending snapshot is newer than what is stored. */
  ghost predicate Committing(c: Committer, logCh: seq<Log>, outbox: seq<Log>, logs: seq<Log>) {
    && 0 <= StoredSeq(c) <= c.seqNo <= |logs|
    && c.buffer == logs[StoredSeq(c)..c.seqNo] && |c.buffer| < BATCH
    && logCh + outbox == logs[c.seqNo..]
    && (c.buffer != [] ==> logCh != [])
    && (c.pending.Some? ==> c.pending.value.book.logSeq > StoredSeq(c))
  }

  ghost predicate GoodSnapshot(p: Product, input: seq<Command>, s: Snapshot, n: int)
    requires Clean(p, input)
  {
    SNAPSHOT_EVERY < s.orderOffset < n <= |input| && IsSnapshotOf(s.book, At(p, input, s.orderOffset + 1).book)
  }

  function Opt(s: Option<Snapshot>): seq<Snapshot> {
    if s.Some? then [s.value] else []
  }

  ghost predicate Ascending(chain: seq<Snapshot>) {
    forall i, j :: 0 <= i < j < |chain| ==> chain[i].orderOffset <= chain[j].orderOffset
  }

  /** Every snapshot pairs its offset with exactly the book after that order. */
  ghost predicate AllGood(p: Product, input: seq<Command>, chain: seq<Snapshot>, n: int)
    requires Clean(p, input)
  {
    forall s :: s in chain ==> GoodSnapshot(p, input, s, n)
  }

  /** All snapshots are good and in order: the stored one, the released ones, the pending one, those to be approved. */
  ghost predicate Linked(p: Product, input: seq<Command>, n: int, stored: Option<Snapshot>, released: seq<Snapshot>,
                         pending: Option<Snapshot>, waiting: seq<Snapshot>)
    requires Clean(p, input)
  {
    var chain := Opt(stored) + released + Opt(pending) + waiting;
    AllGood(p, input, chain, n) && Ascending(chain)
  }

  ghost predicate Snapshots(p: Product, input: seq<Command>, w: World)
    requires Clean(p, input)
  {
    var e := w.engine;
    && Linked(p, input, Done(e), w.store, e.snapshotCh, e.committer.pending, e.approveCh)
    && (forall r :: r in e.reqCh ==> r >= 0)
    && e.lastOffset == (if w.store.Some? then w.store.value.orderOffset else 0)
  }

  /** The committer has received everything that a released or stored snapshot contains. */
  ghost predicate Received(w: World) {
    forall s :: s in Opt(w.store) + w.engine.snapshotCh ==> s.book.logSeq <= w.engine.committer.seqNo
  }

  /** What every engine keeps, whatever earlier engines stored. */
  ghost predicate Running(p: Product, input: seq<Command>, w: World)
    requires Clean(p, input)
  {
    && Applying(p, input, w.engine.next, w.engine.orderCh, w.engine.book, w.engine.orderOffset)
    && Committing(w.engine.committer, w.engine.logCh, w.engine.outbox, At(p, input, Done(w.engine)).logs)
    && Snapshots(p, input, w) && Received(w)
  }

  /** Readers get the crash-free log as far as it is stored, and this engine stores on from there. */
  ghost predicate Inv(p: Product, input: seq<Command>, w: World)
    requires Clean(p, input)
  {
    Running(p, input, w) && Delivers(w.topic, WholeLog(p, input), High(w.topic)) && StoredSeq(w.engine.committer) <= High(w.topic)
  }

  lemma {:induction false} InvStays(p: Product, input: seq<Command>, w: World, w': World)
    requires Clean(p, input) && Inv(p, input, w) && Running(p, input, w')
    requires w'.topic == w.topic && StoredSeq(w'.engine.committer) == StoredSeq(w.engine.committer)
    ensures Inv(p, input, w')
  {
    hide Running, Clean, High, Delivers;
  }

  // ------------------------------------------------------- snapshots in order

  /** Links taken out of an ordered chain, the rest in the same order. */
  lemma {:induction false} SubChain(p: Product, input: seq<Command>, n: int, a: seq<Snapshot>, mid: seq<Snapshot>,
                                    b: seq<Snapshot>)
    requires Clean(p, input) && AllGood(p, input, a + mid + b, n) && Ascending(a + mid + b)
    ensures AllGood(p, input, a + b, n) && Ascending(a + b)
  {
    hide GoodSnapshot, Clean;
    var whole, rest := a + mid + b, a + b;
    assert forall s :: s in rest ==> s in whole;
    forall i, j | 0 <= i < j < |rest|
      ensures rest[i].orderOffset <= rest[j].orderOffset
    {
      var i' := if i < |a| then i else i + |mid|;
      var j' := if j < |a| then j else j + |mid|;
      assert whole[i'] == rest[i] && whole[j'] == rest[j];
    }
  }

  lemma {:induction false} LinkedLater(p: Product, input: seq<Command>, n: int, m: int, stored: Option<Snapshot>,
                                       released: seq<Snapshot>, pending: Option<Snapshot>, waiting: seq<Snapshot>)
    requires Clean(p, input) && Linked(p, input, n, stored, released, pending, waiting) && n <= m <= |input|
    ensures Linked(p, input, m, stored, released, pending, waiting)
  {
    hide Clean, IsSnapshotOf;
  }

  lemma {:induction false} LinkedRequest(p: Product, input: seq<Command>, n: int, stored: Option<Snapshot>,
                                         released: seq<Snapshot>, pending: Option<Snapshot>, waiting: seq<Snapshot>, s: Snapshot)
    requires Clean(p, input) && Linked(p, input, n, stored, released, pending, waiting)
    requires GoodSnapshot(p, input, s, n) && s.orderOffset == n - 1
    ensures Linked(p, input, n, stored, released, pending, waiting + [s])
  {
    hide Clean, IsSnapshotOf;
    var chain := Opt(stored) + released + Opt(pending) + waiting;
    assert Opt(stored) + released + Opt(pending) + (waiting + [s]) == chain + [s];
    assert forall i :: 0 <= i < |chain| ==> chain[i] in chain;
  }

  lemma {:induction false} LinkedCommit(p: Product, input: seq<Command>, n: int, stored: Option<Snapshot>,
                                        released: seq<Snapshot>, pending: Option<Snapshot>, waiting: seq<Snapshot>)
    requires Clean(p, input) && Linked(p, input, n, stored, released, pending, waiting)
    ensures Linked(p, input, n, stored, released + Opt(pending), None, waiting)
    ensures Linked(p, input, n, stored, released + [], pending, waiting)
  {
    hide Clean, AllGood, Ascending;
    assert Opt(stored) + (released + Opt(pending)) + [] + waiting == Opt(stored) + released + Opt(pending) + waiting;
    assert released + [] == released;
  }

  /** The first waiting snapshot moves on and the older pending one is dropped. */
  lemma {:induction false} LinkedApprove(p: Product, input: seq<Command>, n: int, stored: Option<Snapshot>,
                                         released: seq<Snapshot>, pending: Option<Snapshot>, waiting: seq<Snapshot>)
    requires Clean(p, input) && Linked(p, input, n, stored, released, pending, waiting) && waiting != []
    ensures Linked(p, input, n, stored, released + [waiting[0]], None, waiting[1..])
    ensures Linked(p, input, n, stored, released + [], Some(waiting[0]), waiting[1..])
  {
    hide Clean, AllGood, Ascending;
    var a, s, rest := Opt(stored) + released, [waiting[0]], waiting[1..];
    assert s + rest == waiting;
    SubChain(p, input, n, a, Opt(pending), waiting);
    assert a + waiting == Opt(stored) + (released + s) + [] + rest;
    assert a + waiting == Opt(stored) + (released + []) + s + rest;
  }

  /** Persisting drops the older stored snapshot, failing to persist drops the one at hand. */
  lemma {:induction false} LinkedPersist(p: Product, input: seq<Command>, n: int, stored: Option<Snapshot>,
                                         released: seq<Snapshot>, pending: Option<Snapshot>, waiting: seq<Snapshot>)
    requires Clean(p, input) && Linked(p, input, n, stored, released, pending, waiting) && released != []
    ensures Linked(p, input, n, Some(released[0]), released[1..], pending, waiting)
    ensures Linked(p, input, n, stored, released[1..], pending, waiting)
    ensures 0 < released[0].orderOffset < n <= |input|
    ensures stored.Some? ==> stored.value.orderOffset <= released[0].orderOffset
  {
    hide Clean, IsSnapshotOf;
    var chain := Opt(stored) + released + Opt(pending) + waiting;
    assert chain[|Opt(stored)|] == released[0] && released[0] in chain;
    assert stored.Some? ==> chain[0] == stored.value;
    LinkedDropStored(p, input, n, stored, released, pending, waiting);
    LinkedDropReleased(p, input, n, stored, released, pending, waiting);
  }

  lemma {:induction false} LinkedDropStored(p: Product, input: seq<Command>, n: int, stored: Option<Snapshot>,
                                            released: seq<Snapshot>, pending: Option<Snapshot>, waiting: seq<Snapshot>)
    requires Clean(p, input) && Linked(p, input, n, stored, released, pending, waiting) && released != []
    ensures Linked(p, input, n, Some(released[0]), released[1..], pending, waiting)
  {
    hide Clean, AllGood, Ascending;
    var rest := released + Opt(pending) + waiting;
    assert [] + Opt(stored) + rest == Opt(stored) + released + Opt(pending) + waiting;
    SubChain(p, input, n, [], Opt(stored), rest);
    assert released == [released[0]] + released[1..];
    assert [] + rest == rest;
  }

  lemma {:induction false} LinkedDropReleased(p: Product, input: seq<Command>, n: int, stored: Option<Snapshot>,
                                              released: seq<Snapshot>, pending: Option<Snapshot>, waiting: seq<Snapshot>)
    requires Clean(p, input) && Linked(p, input, n, stored, released, pending, waiting) && released != []
    ensures Linked(p, input, n, stored, released[1..], pending, waiting)
  {
    hide Clean, AllGood, Ascending;
    var rest := released[1..] + Opt(pending) + waiting;
    assert released == [released[0]] + released[1..];
    assert Opt(stored) + [released[0]] + rest == Opt(stored) + released + Opt(pending) + waiting;
    SubChain(p, input, n, Opt(stored), [released[0]], rest);
    assert Opt(stored) + rest == Opt(stored) + released[1..] + Opt(pending) + waiting;
  }

  /** What a restart keeps of the snapshots. */
  lemma {:induction false} LinkedBoot(p: Product, input: seq<Command>, n: int, stored: Option<Snapshot>,
                                      released: seq<Snapshot>, pending: Option<Snapshot>, waiting: seq<Snapshot>)
    requires Clean(p, input) && Linked(p, input, n, stored, released, pending, waiting)
    ensures AllGood(p, input, Opt(stored), n)
    ensures stored.Some? ==> Linked(p, input, stored.value.orderOffset + 1, stored, [], None, [])
    ensures stored.None? ==> Linked(p, input, 0, stored, [], None, [])
  {
    hide Clean, IsSnapshotOf;
    var chain := Opt(stored) + released + Opt(pending) + waiting;
    if stored.Some? {
      assert chain[0] == stored.value && stored.value in chain;
      Alone(p, input, n, stored.value);
    }
  }

  lemma {:induction false} Alone(p: Product, input: seq<Command>, n: int, s: Snapshot)
    requires Clean(p, input) && GoodSnapshot(p, input, s, n)
    ensures AllGood(p, input, [s], n) && Linked(p, input, s.orderOffset + 1, Some(s), [], None, [])
  {
    hide Clean, IsSnapshotOf;
    assert Opt(Some(s)) + [] + [] + [] == [s];
  }

  // ------------------------------------------------------- applier

  lemma {:induction false} ApplyingBounds(p: Product, input: seq<Command>, e: Engine)
    requires Clean(p, input) && Applying(p, input, e.next, e.orderCh, e.book, e.orderOffset)
    ensures 0 <= Done(e) <= |input|
  {
  }

  lemma {:induction false} FetchKeeps(p: Product, input: seq<Command>, w: World)
    requires Clean(p, input) && Running(p, input, w) && w.engine.next < |input|
    ensures Running(p, input, w.(engine := FetchStep(w.engine, input)))
  {
    hide Committing, Linked, Delivers, Clean, At;
    var w' := w.(engine := FetchStep(w.engine, input));
  }

  lemma {:induction false} CommittingGrows(c: Committer, logCh: seq<Log>, logs: seq<Log>, more: seq<Log>)
    requires Committing(c, logCh, [], logs)
    ensures Committing(c, logCh, more, logs + more)
  {
    var all := logs + more;
    assert all[StoredSeq(c)..c.seqNo] == logs[StoredSeq(c)..c.seqNo];
    assert logCh == logs[c.seqNo..];
    assert all[c.seqNo..] == logs[c.seqNo..] + more;
  }

  lemma {:induction false} ApplyKeeps(p: Product, input: seq<Command>, w: World)
    requires Clean(p, input) && Running(p, input, w) && w.engine.orderCh != [] && w.engine.outbox == []
    ensures ApplyEnabled(w.engine) && Running(p, input, w.(engine := ApplyStep(w.engine)))
    ensures ApplyStep(w.engine).orderOffset == Done(ApplyStep(w.engine)) - 1
  {
    hide Linked, Delivers, Committing, Execute, CanExecute, Clean, At;
    var e := w.engine;
    var n := Done(e);
    assert e.orderCh[0] == OffsetOrder(n, input[n]);
    AtNext(p, input, n);
    var e' := ApplyStep(e);
    var w' := w.(engine := e');
    CommittingGrows(e.committer, e.logCh, At(p, input, n).logs, e'.outbox);
    LinkedLater(p, input, n, n + 1, w.store, e.snapshotCh, e.committer.pending, e.approveCh);
  }

  lemma {:induction false} PushKeeps(p: Product, input: seq<Command>, w: World)
    requires Clean(p, input) && Running(p, input, w) && w.engine.outbox != []
    ensures Running(p, input, w.(engine := PushStep(w.engine)))
  {
    hide Linked, Delivers, Clean, At, Applying;
    var e := w.engine;
    var w' := w.(engine := PushStep(e));
    assert e.logCh + [e.outbox[0]] + e.outbox[1..] == e.logCh + e.outbox;
  }

  lemma {:induction false} RequestKeeps(p: Product, input: seq<Command>, w: World, listing: BookSnapshot)
    requires Clean(p, input) && Running(p, input, w) && w.engine.reqCh != [] && IsSnapshotOf(listing, w.engine.book)
    ensures var e, e' := w.engine, RequestStep(w.engine, listing);
            && Running(p, input, w.(engine := e'))
            && e'.approveCh == e.approveCh + if e.orderOffset - e.reqCh[0] > 1000 then [Snapshot(listing, e.orderOffset)] else []
  {
    hide Committing, Delivers, Linked, Clean, At;
    var e := w.engine;
    var w' := w.(engine := RequestStep(e, listing));
    assert e.reqCh[0] in e.reqCh;
    assert forall r :: r in e.reqCh[1..] ==> r in e.reqCh;
    if e.orderOffset - e.reqCh[0] > SNAPSHOT_EVERY {
      var s := Snapshot(listing, e.orderOffset);
      assert GoodSnapshot(p, input, s, Done(e));
      LinkedRequest(p, input, Done(e), w.store, e.snapshotCh, e.committer.pending, e.approveCh, s);
    }
  }

  // ------------------------------------------------------- committer

  /** Receiving an entry keeps the stretch contiguous; what is stored starts right after what was stored before. */
  lemma {:induction false} OnLogKeeps(c: Committer, logCh: seq<Log>, outbox: seq<Log>, logs: seq<Log>)
    requires Contiguous(logs) && Committing(c, logCh, outbox, logs) && logCh != []
    ensures var r := OnLog(c, logCh[0], |logCh| - 1);
            && Committing(r.committer, logCh[1..], outbox, logs)
            && r.stored == logs[StoredSeq(c)..StoredSeq(r.committer)]
            && (forall s :: s in r.released ==> s.book.logSeq <= StoredSeq(r.committer)) && c.seqNo <= r.committer.seqNo
            && ((r.released == [] && r.committer.pending == c.pending) || (r.released == Opt(c.pending) && r.committer.pending.None?))
            && (r.stored != [] <==> |logCh| == 1 || |c.buffer| == 99)
  {
    var rest := logs[c.seqNo..];
    assert (logCh + outbox)[0] == logCh[0] && rest[0] == logs[c.seqNo];
    assert logCh[0] == logs[c.seqNo];
    assert logCh[1..] + outbox == (logCh + outbox)[1..];
    assert rest[1..] == logs[c.seqNo + 1..];
    assert c.buffer + [logs[c.seqNo]] == logs[StoredSeq(c)..c.seqNo + 1];
  }

  /** The step writes the next stretch of the log, and a snapshot it releases is contained in what is written. */
  lemma {:induction false} CommitRuns(p: Product, input: seq<Command>, w: World)
    requires Clean(p, input) && Running(p, input, w) && w.engine.logCh != []
    ensures Running(p, input, CommitStep(w)) && CommitStep(w).store == w.store
    ensures 0 <= Done(w.engine) <= |input|
    ensures var logs, a, b := At(p, input, Done(w.engine)).logs, StoredSeq(w.engine.committer), StoredSeq(CommitStep(w).engine.committer);
            0 <= a <= b <= |logs| && CommitStep(w).topic == w.topic + logs[a..b]
    ensures var released := CommitStep(w).engine.snapshotCh[|w.engine.snapshotCh|..];
            forall s :: s in released ==> s.book.logSeq <= StoredSeq(CommitStep(w).engine.committer)
  {
    hide Linked, Contiguous, Clean, At, Applying, ValidBook;
    var e := w.engine;
    ApplyingBounds(p, input, e);
    var n := Done(e);
    var logs := At(p, input, n).logs;
    AtFacts(p, input, n);
    OnLogKeeps(e.committer, e.logCh, e.outbox, logs);
    var c := OnLog(e.committer, e.logCh[0], |e.logCh| - 1);
    hide OnLog, Committing;
    var w' := CommitStep(w);
    CommittingBounds(e.committer, e.logCh, e.outbox, logs);
    CommittingBounds(c.committer, e.logCh[1..], e.outbox, logs);
    LinkedCommit(p, input, n, w.store, e.snapshotCh, e.committer.pending, e.approveCh);
    assert w'.engine.snapshotCh[|e.snapshotCh|..] == c.released;
  }

  lemma {:induction false} CommitKeeps(p: Product, input: seq<Command>, w: World)
    requires Clean(p, input) && Inv(p, input, w) && w.engine.logCh != []
    ensures Inv(p, input, CommitStep(w)) && High(w.topic) <= High(CommitStep(w).topic) && CommitStep(w).store == w.store
    ensures var released := CommitStep(w).engine.snapshotCh[|w.engine.snapshotCh|..];
            forall s :: s in released ==> s.book.logSeq <= High(CommitStep(w).topic)
  {
    hide Running, CommitStep, Delivers, Contiguous, Clean, At, High;
    CommitRuns(p, input, w);
    var n := Done(w.engine);
    var logs, whole := At(p, input, n).logs, WholeLog(p, input);
    AtFacts(p, input, |input|);
    AtPrefix(p, input, n, |input|);
    StoreStretch(w.topic, whole, logs, StoredSeq(w.engine.committer), StoredSeq(CommitStep(w).engine.committer));
  }

  lemma {:induction false} CommittingBounds(c: Committer, logCh: seq<Log>, outbox: seq<Log>, logs: seq<Log>)
    requires Committing(c, logCh, outbox, logs)
    ensures 0 <= StoredSeq(c) <= c.seqNo <= |logs|
  {
  }

  /** Storing the next stretch of this run, whatever earlier runs stored already. */
  lemma {:induction false} StoreStretch(topic: seq<Log>, whole: seq<Log>, logs: seq<Log>, a: nat, b: nat)
    requires Contiguous(whole) && logs <= whole && a <= b <= |logs|
    requires Delivers(topic, whole, High(topic)) && a <= High(topic)
    ensures logs[a..b] == whole[a..b]
    ensures var topic' := topic + whole[a..b];
            Delivers(topic', whole, High(topic')) && b <= High(topic') && High(topic) <= High(topic')
  {
    AppendStretch(topic, whole, High(topic), a, b);
  }

  /** Whatever arrives: a new entry is buffered or stored, once and after what was buffered; a repeated one is dropped. */
  lemma {:induction false} OnLogTakesNewOnly(c: Committer, log: Log, queued: nat)
    ensures var r := OnLog(c, log, queued);
            && r.stored + r.committer.buffer == c.buffer + (if log.sequence > c.seqNo then [log] else [])
            && r.committer.seqNo == (if log.sequence > c.seqNo then log.sequence else c.seqNo)
            && (log.sequence <= c.seqNo ==> r.stored == [] && r.released == [] && r.committer == c)
  {
  }

  /** A snapshot is kept back only if it contains something not yet received; the older pending one is dropped. */
  lemma {:induction false} OnApproveKeeps(c: Committer, s: Snapshot, logCh: seq<Log>, outbox: seq<Log>, logs: seq<Log>)
    requires Committing(c, logCh, outbox, logs)
    ensures var r := OnApprove(c, s);
            && Committing(r.committer, logCh, outbox, logs) && r.stored == [] && r.committer.seqNo == c.seqNo
            && StoredSeq(r.committer) == StoredSeq(c)
            && r.released + Opt(r.committer.pending) == [s]
            && (r.released == [s] <==> s.book.logSeq <= c.seqNo)
  {
  }

  lemma {:induction false} ApproveKeeps(p: Product, input: seq<Command>, w: World)
    requires Clean(p, input) && Running(p, input, w) && w.engine.approveCh != []
    ensures Running(p, input, w.(engine := ApproveStep(w.engine)))
  {
    hide Linked, Delivers, Committing, Clean, At, Applying;
    var e := w.engine;
    ApplyingBounds(p, input, e);
    OnApproveKeeps(e.committer, e.approveCh[0], e.logCh, e.outbox, At(p, input, Done(e)).logs);
    LinkedApprove(p, input, Done(e), w.store, e.snapshotCh, e.committer.pending, e.approveCh);
    var e' := ApproveStep(e);
    assert Linked(p, input, Done(e'), w.store, e'.snapshotCh, e'.committer.pending, e'.approveCh);
    assert e'.committer.seqNo == e.committer.seqNo;
    hide OnApprove;
  }

  // ------------------------------------------------------- snapshotter

  lemma {:induction false} StoredOffset(p: Product, input: seq<Command>, w: World)
    requires Clean(p, input) && Running(p, input, w)
    ensures w.engine.lastOffset >= 0
  {
    hide Committing, Clean, At, Applying, Linked, IsSnapshotOf;
    var e := w.engine;
    LinkedBoot(p, input, Done(e), w.store, e.snapshotCh, e.committer.pending, e.approveCh);
    assert w.store.Some? ==> w.store.value in Opt(w.store);
  }

  lemma {:induction false} TickKeeps(p: Product, input: seq<Command>, w: World)
    requires Clean(p, input) && Running(p, input, w)
    ensures Running(p, input, w.(engine := TickStep(w.engine)))
  {
    StoredOffset(p, input, w);
    hide Committing, Linked, Delivers, Clean, At, Applying;
  }

  lemma {:induction false} PersistKeeps(p: Product, input: seq<Command>, w: World, ok: bool)
    requires Clean(p, input) && Running(p, input, w) && w.engine.snapshotCh != []
    ensures var w' := PersistStep(w, ok);
            && Running(p, input, w') && w'.topic == w.topic
            && (w.store.Some? ==> w'.store.Some? && w.store.value.orderOffset <= w'.store.value.orderOffset)
  {
    hide Committing, Delivers, Linked, Clean, At, Applying;
    var e := w.engine;
    LinkedPersist(p, input, Done(e), w.store, e.snapshotCh, e.committer.pending, e.approveCh);
  }

  // ------------------------------------------------------- crash

  /** What is stored covers the stored snapshot. */
  ghost predicate Durable(topic: seq<Log>, store: Option<Snapshot>) {
    store.Some? ==> store.value.book.logSeq <= High(topic)
  }

  lemma {:induction false} SnapshotCovers(p: Product, input: seq<Command>, s: Snapshot, n: int)
    requires Clean(p, input) && GoodSnapshot(p, input, s, n)
    ensures s.book.logSeq == |At(p, input, s.orderOffset + 1).logs|
    ensures s.book.logSeq <= |At(p, input, n).logs|
  {
    hide Clean, At, Contiguous, ValidBook;
    AtFacts(p, input, s.orderOffset + 1);
    AtFacts(p, input, n);
    AtPrefix(p, input, s.orderOffset + 1, n);
  }

  /** An engine restarted from a stored snapshot stands exactly where the crash-free run stood after that order. */
  lemma {:induction false} BootStandsThere(p: Product, input: seq<Command>, store: Option<Snapshot>, n: int)
    requires Clean(p, input) && AllGood(p, input, Opt(store), n)
    ensures store.Some? ==> store.value.orderOffset > 0
    ensures var e := Boot(p, store);
            && Applying(p, input, e.next, e.orderCh, e.book, e.orderOffset)
            && e.lastOffset == (if store.Some? then store.value.orderOffset else 0)
            && (e.orderCh, e.logCh, e.outbox, e.reqCh, e.approveCh, e.snapshotCh) == ([], [], [], [], [], [])
            && e.committer == Committer(if store.Some? then store.value.book.logSeq else 0, None, [])
            && e.committer.seqNo == |At(p, input, Done(e)).logs|
            && Done(e) == if store.Some? then store.value.orderOffset + 1 else 0
  {
    hide ValidBook, Contiguous, At, Clean, IsSnapshotOf, Restore;
    if store.Some? {
      var s := store.value;
      assert s in Opt(store);
      SnapshotCovers(p, input, s, n);
      RestoreThere(p, input, s, n);
    } else {
      StartsEmpty(p, input);
    }
  }

  lemma {:induction false} StartsEmpty(p: Product, input: seq<Command>)
    requires Clean(p, input)
    ensures At(p, input, 0) == Applied(NewBook(p), [])
  {
    assert input[..0] == [];
  }

  lemma {:induction false} RestoreThere(p: Product, input: seq<Command>, s: Snapshot, n: int)
    requires Clean(p, input) && GoodSnapshot(p, input, s, n)
    ensures Restore(NewBook(p), s.book) == At(p, input, s.orderOffset + 1).book
    ensures Restore(NewBook(p), s.book).logSeq == s.book.logSeq
  {
    hide ValidBook, Contiguous, At, Clean, IsSnapshotOf;
    AtFacts(p, input, s.orderOffset + 1);
    RestoreIsExact(At(p, input, s.orderOffset + 1).book, s.book);
    SnapshotCovers(p, input, s, n);
  }

  /** A restarted engine runs on from its snapshot, covered by the stored log or not. */
  lemma {:induction false} CrashRuns(p: Product, input: seq<Command>, w: World, written: nat)
    requires Clean(p, input) && Running(p, input, w) && written <= |w.engine.committer.buffer|
    ensures w.store.Some? ==> w.store.value.orderOffset >= 0
    ensures var w' := CrashStep(p, w, written);
            && Running(p, input, w') && w'.store == w.store
            && StoredSeq(w'.engine.committer) == (if w.store.Some? then w.store.value.book.logSeq else 0)
  {
    hide AllGood, Linked, Boot, Applying, Committing, Clean, At, IsSnapshotOf;
    var e, n := w.engine, Done(w.engine);
    ApplyingBounds(p, input, e);
    LinkedBoot(p, input, n, w.store, e.snapshotCh, e.committer.pending, e.approveCh);
    BootStandsThere(p, input, w.store, n);
    var w' := CrashStep(p, w, written);
    ApplyingBounds(p, input, w'.engine);
    CommittingNothing(w'.engine.committer, At(p, input, Done(w'.engine)).logs);
  }

  lemma {:induction false} CrashKeeps(p: Product, input: seq<Command>, w: World, written: nat)
    requires Clean(p, input) && Inv(p, input, w) && written <= |w.engine.committer.buffer|
    ensures w.store.Some? ==> w.store.value.orderOffset >= 0
    ensures var w' := CrashStep(p, w, written);
            High(w.topic) <= High(w'.topic) && (Durable(w'.topic, w'.store) ==> Inv(p, input, w'))
  {
    hide Running, Delivers, Clean, High, At;
    CrashRuns(p, input, w, written);
    CrashStores(p, input, w, written);
  }

  lemma {:induction false} CommittingNothing(c: Committer, logs: seq<Log>)
    requires c.seqNo == |logs| && c.buffer == [] && c.pending.None?
    ensures Committing(c, [], [], logs)
  {
  }

  lemma {:induction false} CrashStores(p: Product, input: seq<Command>, w: World, written: nat)
    requires Clean(p, input) && Inv(p, input, w) && written <= |w.engine.committer.buffer|
    ensures var topic' := w.topic + w.engine.committer.buffer[..written];
            High(w.topic) <= High(topic') && Delivers(topic', WholeLog(p, input), High(topic'))
  {
    hide Delivers, Contiguous, Clean, At, High, Snapshots, Received;
    var c, n := w.engine.committer, Done(w.engine);
    var logs, whole := At(p, input, n).logs, WholeLog(p, input);
    AtFacts(p, input, |input|);
    AtPrefix(p, input, n, |input|);
    var a := StoredSeq(c);
    StoreStretch(w.topic, whole, logs, a, a + written);
    assert c.buffer[..written] == logs[a..a + written];
  }
}
