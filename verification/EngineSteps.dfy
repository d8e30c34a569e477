/** The engine as a step machine: fetcher, applier, committer and snapshotter over queues, with crash and replay. */
module EngineSteps {
  import opened Types
  import opened Matching
  import opened Recovery

  datatype OffsetOrder = OffsetOrder(offset: int, command: Command)

  /** A book snapshot with the offset of the last order it contains. */
  datatype Snapshot = Snapshot(book: BookSnapshot, orderOffset: int)

  /** The committer's variables. `seqNo` counts received entries, also those still in `buffer`. */
  datatype Committer = Committer(seqNo: int, pending: Option<Snapshot>, buffer: seq<Log>)

  /** What one committer step writes to the log store and hands to the snapshotter. */
  datatype Commit = Commit(committer: Committer, stored: seq<Log>, released: seq<Snapshot>)

  const BATCH := 100
  const SNAPSHOT_EVERY := 1000

  /** Receives one entry; `queued` entries are still waiting behind it. */
  function OnLog(c: Committer, log: Log, queued: nat): Commit {
    if log.sequence <= c.seqNo then Commit(c, [], [])
    else
      var buffer := c.buffer + [log];
      if queued > 0 && |buffer| < BATCH then Commit(Committer(log.sequence, c.pending, buffer), [], [])
      else if c.pending.Some? && log.sequence >= c.pending.value.book.logSeq then
        Commit(Committer(log.sequence, None, []), buffer, [c.pending.value])
      else Commit(Committer(log.sequence, c.pending, []), buffer, [])
  }

  /** Receives a snapshot to approve: released at once if everything in it was received, else kept pending. */
  function OnApprove(c: Committer, s: Snapshot): Commit {
    if c.seqNo >= s.book.logSeq then Commit(c.(pending := None), [], [s])
    else Commit(c.(pending := Some(s)), [], [])
  }

  /** One engine process: the queues between its goroutines and their variables. `outbox` holds the entries of the
      last order that the applier has yet to push. */
  datatype Engine = Engine(next: nat, orderCh: seq<OffsetOrder>, book: Book, orderOffset: int, outbox: seq<Log>,
                           logCh: seq<Log>, committer: Committer, reqCh: seq<int>, approveCh: seq<Snapshot>,
                           snapshotCh: seq<Snapshot>, lastOffset: int)

  /** The engine with what outlives it: the log topic and the snapshot store. */
  datatype World = World(engine: Engine, topic: seq<Log>, store: Option<Snapshot>)

  /** NewEngine and Start: restore the latest snapshot and resume reading after its offset. */
  function Boot(p: Product, store: Option<Snapshot>): Engine
    requires store.Some? ==> store.value.orderOffset >= 0
  {
    var book := if store.Some? then Restore(NewBook(p), store.value.book) else NewBook(p);
    var offset := if store.Some? then store.value.orderOffset else 0;
    Engine(if offset > 0 then offset + 1 else offset, [], book, 0, [], [], Committer(book.logSeq, None, []),
           [], [], [], offset)
  }

  function Start(p: Product): World {
    World(Boot(p, None), [], None)
  }

  function FetchStep(e: Engine, input: seq<Command>): Engine
    requires e.next < |input|
  {
    e.(next := e.next + 1, orderCh := e.orderCh + [OffsetOrder(e.next, input[e.next])])
  }

  predicate ApplyEnabled(e: Engine) {
    e.orderCh != [] && e.outbox == [] && CanExecute(e.book, e.orderCh[0].command)
  }

  function ApplyStep(e: Engine): Engine
    requires ApplyEnabled(e)
  {
    var r := Execute(e.book, e.orderCh[0].command);
    e.(orderCh := e.orderCh[1..], book := r.book, outbox := r.logs, orderOffset := e.orderCh[0].offset)
  }

  function PushStep(e: Engine): Engine
    requires e.outbox != []
  {
    e.(outbox := e.outbox[1..], logCh := e.logCh + [e.outbox[0]])
  }

  /** The applier takes a snapshot only when more than 1000 offsets passed since the requester's last one. */
  function RequestStep(e: Engine, listing: BookSnapshot): Engine
    requires e.reqCh != []
  {
    if e.orderOffset - e.reqCh[0] <= SNAPSHOT_EVERY then e.(reqCh := e.reqCh[1..])
    else e.(reqCh := e.reqCh[1..], approveCh := e.approveCh + [Snapshot(listing, e.orderOffset)])
  }

  function CommitStep(w: World): World
    requires w.engine.logCh != []
  {
    var e := w.engine;
    var c := OnLog(e.committer, e.logCh[0], |e.logCh| - 1);
    World(e.(logCh := e.logCh[1..], committer := c.committer, snapshotCh := e.snapshotCh + c.released),
          w.topic + c.stored, w.store)
  }

  function ApproveStep(e: Engine): Engine
    requires e.approveCh != []
  {
    var c := OnApprove(e.committer, e.approveCh[0]);
    e.(approveCh := e.approveCh[1..], committer := c.committer, snapshotCh := e.snapshotCh + c.released)
  }

  function TickStep(e: Engine): Engine {
    e.(reqCh := e.reqCh + [e.lastOffset])
  }

  /** The snapshot store may fail; then the snapshot is dropped and the offset stays. */
  function PersistStep(w: World, ok: bool): World
    requires w.engine.snapshotCh != []
  {
    var e, s := w.engine, w.engine.snapshotCh[0];
    if ok then World(e.(snapshotCh := e.snapshotCh[1..], lastOffset := s.orderOffset), w.topic, Some(s))
    else World(e.(snapshotCh := e.snapshotCh[1..]), w.topic, w.store)
  }

  /** A crash loses the engine; a store call in flight may have written any part of the buffer. */
  function CrashStep(p: Product, w: World, written: nat): World
    requires written <= |w.engine.committer.buffer|
    requires w.store.Some? ==> w.store.value.orderOffset >= 0
  {
    World(Boot(p, w.store), w.topic + w.engine.committer.buffer[..written], w.store)
  }

  /** One step of a running engine, without crashes. */
  ghost predicate Runs(input: seq<Command>, w: World, w': World) {
    var e, e' := w.engine, w'.engine;
    var same := w'.topic == w.topic && w'.store == w.store;
    || (e.next < |input| && e' == FetchStep(e, input) && same)
    || (ApplyEnabled(e) && e' == ApplyStep(e) && same)
    || (e.outbox != [] && e' == PushStep(e) && same)
    || (e.reqCh != [] && e.outbox == [] && same && exists s :: IsSnapshotOf(s, e.book) && e' == RequestStep(e, s))
    || (e.logCh != [] && w' == CommitStep(w))
    || (e.approveCh != [] && e' == ApproveStep(e) && same)
    || (e' == TickStep(e) && same)
    || (e.snapshotCh != [] && exists ok :: w' == PersistStep(w, ok))
  }
}
