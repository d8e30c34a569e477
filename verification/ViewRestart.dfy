/** Restarting the pushed book from a full snapshot and the position it carries. */
module ViewRestart {
  import opened Types
  import V = View
  import opened Stream
  import opened LogReader

  /** All entries, in whatever order the map lists them, with the counters. */
  datatype FullSnapshot = FullSnapshot(sequence: int, logOffset: int, logSeq: int, orders: seq<V.Entry>)

  ghost predicate IsFullSnapshotOf(s: FullSnapshot, v: V.Book) {
    && (s.sequence, s.logOffset, s.logSeq) == (v.sequence, v.logOffset, v.logSeq)
    && (forall i, j :: 0 <= i < j < |s.orders| ==> s.orders[i].id != s.orders[j].id)
    && (forall e :: e in s.orders <==> e.id in v.orders && v.orders[e.id] == e)
  }

  /** Restoring saves every listed order with zero counters; None is a panic. */
  function SaveAll(v: V.Book, orders: seq<V.Entry>): Option<V.Book> {
    if orders == [] then Some(v)
    else
      var e := orders[|orders| - 1];
      var before := SaveAll(v, orders[..|orders| - 1]);
      if before.None? then None
      else
        match V.SaveOrder(before.value, 0, 0, e.id, e.size, e.price, e.side)
        case Panicked => None
        case Ignored => before
        case Saved(book, _) => Some(book)
  }

  function Restore(v: V.Book, s: FullSnapshot): Option<V.Book> {
    var r := SaveAll(v, s.orders);
    if r.None? then None
    else Some(r.value.(sequence := s.sequence, logOffset := s.logOffset, logSeq := s.logSeq))
  }

  /** The orders determine the index. */
  lemma {:induction false} IndexUnique(orders: map<int, V.Entry>, a: map<LevelKey, V.Level>, b: map<LevelKey, V.Level>)
    requires V.Indexed(orders, a) && V.Indexed(orders, b)
    ensures a == b
  {
    forall key
      ensures key in a <==> key in b
      ensures key in a ==> a[key] == b[key]
    {
      assert V.IndexedAt(orders, a, key) && V.IndexedAt(orders, b, key);
    }
  }

  lemma {:induction false} SaveAllRebuilds(orders: seq<V.Entry>)
    requires forall i, j :: 0 <= i < j < |orders| ==> orders[i].id != orders[j].id
    requires forall e :: e in orders ==> e.size > 0
    ensures var r := SaveAll(V.EMPTY, orders);
            && r.Some? && V.ValidView(r.value)
            && (forall e :: e in orders ==> e.id in r.value.orders && r.value.orders[e.id] == e)
            && (forall id :: id in r.value.orders ==> r.value.orders[id] in orders)
  {
    if orders == [] {
      StartValid();
    } else {
      var n := |orders| - 1;
      var front, e := orders[..n], orders[n];
      assert orders == front + [e];
      SaveAllRebuilds(front);
      var v := SaveAll(V.EMPTY, front).value;
      forall id | id in v.orders
        ensures id != e.id
      {
        assert v.orders[id] in front && v.orders[id].id == id;
      }
      V.SaveNewOrder(v, 0, 0, e.id, e.size, e.price, e.side);
    }
  }

  /** Restoring any listing of a full snapshot rebuilds orders, levels and counters exactly. */
  lemma {:induction false} RestoreIsExact(v: V.Book, s: FullSnapshot)
    requires V.ValidView(v) && IsFullSnapshotOf(s, v)
    ensures Restore(V.EMPTY, s) == Some(v)
  {
    SaveAllRebuilds(s.orders);
    var r := SaveAll(V.EMPTY, s.orders).value;
    forall id
      ensures id in r.orders <==> id in v.orders
      ensures id in r.orders ==> r.orders[id] == v.orders[id]
    {
      if id in v.orders {
        assert v.orders[id] in s.orders;
      }
    }
    assert r.orders == v.orders;
    IndexUnique(v.orders, r.levels, v.levels);
  }

  // ------------------------------------------------------- resuming

  /** Where the log reader resumes: after the last offset, except at offset zero, which is read again. */
  function ResumeOffset(v: V.Book): int {
    if v.logOffset > 0 then v.logOffset + 1 else v.logOffset
  }

  /** The changes published so far do not influence what a message does to the book. */
  /** The reader resumes with the entry right after the last one the view saved. */
  lemma {:induction false} ResumesJustAfter(v: V.Book, logOffset: int, logSeq: int, id: int, newSize: int, price: int, side: Side)
    requires logOffset > 0 && V.SaveOrder(v, logOffset, logSeq, id, newSize, price, side).Saved?
    ensures ResumeOffset(V.SaveOrder(v, logOffset, logSeq, id, newSize, price, side).book) == logOffset + 1
    ensures ResumeOffset(V.EMPTY) == 0
  {
  }

  lemma {:induction false} FeedForgets(v: V.Book, x: seq<V.Change>, y: seq<V.Change>, ms: seq<Message>)
    ensures FeedAll(Feed(v, x), ms).Some? <==> FeedAll(Feed(v, y), ms).Some?
    ensures FeedAll(Feed(v, x), ms).Some? ==> FeedAll(Feed(v, x), ms).value.book == FeedAll(Feed(v, y), ms).value.book
    decreases |ms|
  {
    if ms != [] {
      FeedForgets(v, x, y, ms[..|ms| - 1]);
    }
  }

  /** The view after reading the topic up to n, started from nothing. */
  ghost predicate Reached(topic: seq<Log>, n: nat, r: Read, s: Feed) {
    n <= |topic| && ReadTopic(0, topic, 0, n) == Some(r) && FeedAll(START, r.delivered) == Some(s)
  }

  /** A reader that resumes at the view's own position has, by n, read nothing the view would act on. */
  ghost predicate Caught(topic: seq<Log>, n: nat, lastSeq: int, v: V.Book) {
    n <= |topic| && 0 <= ResumeOffset(v) <= n &&
    var r := ReadTopic(v.logSeq, topic, ResumeOffset(v), n);
    r.Some? && r.value.lastSeq == lastSeq
    && FeedAll(Feed(v, []), r.value.delivered) == Some(Feed(v, []))
  }

  lemma {:induction false} StepOutcome(s: Feed, m: Message)
    ensures Step(s, m).Some? && Step(s, m).value.book != s.book ==>
              var v := Step(s, m).value.book;
              v.logOffset == m.offset && v.logSeq == m.log.sequence
    ensures Step(s, m).Some? && Step(s, m).value.book == s.book ==> Step(Feed(s.book, []), m) == Some(Feed(s.book, []))
  {
  }

  lemma {:induction false} ResumeCatchesUp(topic: seq<Log>, n: nat, r: Read, s: Feed)
    requires Reached(topic, n, r, s) && forall i :: 0 <= i < |topic| ==> topic[i].sequence > 0
    ensures Caught(topic, n, r.lastSeq, s.book)
    decreases n
  {
    if n > 0 {
      var r0 := ReadTopic(0, topic, 0, n - 1).value;
      var log := topic[n - 1];
      if log.sequence <= r0.lastSeq {
        ResumeCatchesUp(topic, n - 1, r0, s);
      } else {
        var m := Message(log, n - 1);
        assert r.delivered == r0.delivered + [m];
        assert r.delivered[..|r.delivered| - 1] == r0.delivered;
        var s0 := FeedAll(START, r0.delivered).value;
        ResumeCatchesUp(topic, n - 1, r0, s0);
        StepOutcome(s0, m);
        if s.book == s0.book {
          var c := ReadTopic(s.book.logSeq, topic, ResumeOffset(s.book), n - 1).value;
          FeedConcat(Feed(s.book, []), c.delivered, [m]);
          FeedOne(Feed(s.book, []), m);
        }
      }
    }
  }

  /** Restart: restore any listing of a full snapshot taken after reading the topic up to n, resume at the offset and
      sequence it carries, and read on to any later point. The view is the one that never restarted, even though log
      entries it had skipped are read a second time. */
  lemma {:induction false} RestartIsInvisible(topic: seq<Log>, n: nat, stop: nat, r: Read, s: Feed, snapshot: FullSnapshot)
    requires Reached(topic, n, r, s) && n <= stop <= |topic| && forall i :: 0 <= i < |topic| ==> topic[i].sequence > 0
    requires V.ValidView(s.book) && IsFullSnapshotOf(snapshot, s.book)
    requires ReadTopic(0, topic, 0, stop).Some? && FeedAll(START, ReadTopic(0, topic, 0, stop).value.delivered).Some?
    ensures Restore(V.EMPTY, snapshot).Some? && ResumeOffset(Restore(V.EMPTY, snapshot).value) >= 0
    ensures var v := Restore(V.EMPTY, snapshot).value;
            var resumed := ReadTopic(v.logSeq, topic, ResumeOffset(v), stop);
            && resumed.Some?
            && FeedAll(Feed(v, []), resumed.value.delivered).Some?
            && FeedAll(Feed(v, []), resumed.value.delivered).value.book
               == FeedAll(START, ReadTopic(0, topic, 0, stop).value.delivered).value.book
  {
    RestoreIsExact(s.book, snapshot);
    var v := s.book;
    ResumeCatchesUp(topic, n, r, s);
    var c := ReadTopic(v.logSeq, topic, ResumeOffset(v), n).value;
    ReadOn(0, topic, 0, n, stop);
    ReadOn(v.logSeq, topic, ResumeOffset(v), n, stop);
    var rest := ReadTopic(r.lastSeq, topic, n, stop).value;
    FeedConcat(START, r.delivered, rest.delivered);
    FeedConcat(Feed(v, []), c.delivered, rest.delivered);
    FeedForgets(v, [], s.changes, rest.delivered);
  }
}
