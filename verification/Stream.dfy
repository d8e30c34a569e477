/** Feeding the matching log to the pushed book. */
module Stream {
  import opened Types
  import V = View

  /** A log entry with its offset in the topic. */
  datatype Message = Message(log: Log, offset: int)

  /** The pushed book and every change published so far. */
  datatype Feed = Feed(book: V.Book, changes: seq<V.Change>)

  const START := Feed(V.EMPTY, [])

  /** runApplier on one entry; None is a panic. */
  function Step(s: Feed, m: Message): Option<Feed> {
    match m.log
    case DoneLog(sequence, id, price, remainingSize, _, side) =>
      if id !in s.book.orders then Some(s)
      else Publish(s, V.SaveOrder(s.book, m.offset, sequence, id, s.book.orders[id].size - remainingSize, price, side))
    case OpenLog(sequence, id, remainingSize, price, side) =>
      Publish(s, V.SaveOrder(s.book, m.offset, sequence, id, remainingSize, price, side))
    case MatchLog(sequence, _, _, id, side, price, size) =>
      if id !in s.book.orders then None
      else Publish(s, V.SaveOrder(s.book, m.offset, sequence, id, s.book.orders[id].size - size, price, side))
  }

  function Publish(s: Feed, r: V.Saved): Option<Feed> {
    match r
    case Panicked => None
    case Ignored => Some(s)
    case Saved(book, change) => Some(Feed(book, s.changes + [change]))
  }

  function FeedAll(s: Feed, ms: seq<Message>): Option<Feed> {
    if ms == [] then Some(s)
    else
      var before := FeedAll(s, ms[..|ms| - 1]);
      if before.None? then None else Step(before.value, ms[|ms| - 1])
  }

  lemma {:induction false} FeedConcat(s: Feed, a: seq<Message>, b: seq<Message>)
    ensures FeedAll(s, a).None? ==> FeedAll(s, a + b).None?
    ensures FeedAll(s, a).Some? ==> FeedAll(s, a + b) == FeedAll(FeedAll(s, a).value, b)
    decreases |b|
  {
    if b == [] {
      assert a + b == a;
    } else {
      assert (a + b)[..|a + b| - 1] == a + b[..|b| - 1];
      FeedConcat(s, a, b[..|b| - 1]);
    }
  }

  lemma {:induction false} FeedOne(s: Feed, m: Message)
    ensures FeedAll(s, [m]) == Step(s, m)
  {
    assert [m][..0] == [];
    assert FeedAll(s, []) == Some(s);
  }

  function Logs(ms: seq<Message>): (logs: seq<Log>)
    ensures |logs| == |ms| && forall i :: 0 <= i < |ms| ==> logs[i] == ms[i].log
  {
    if ms == [] then [] else [ms[0].log] + Logs(ms[1..])
  }

  // ------------------------------------------------------- what the changes say

  /** The level map a client gets by setting every change in turn. */
  ghost function Replay(changes: seq<V.Change>): map<LevelKey, int> {
    if changes == [] then map[]
    else
      var last := changes[|changes| - 1];
      V.SetLevel(Replay(changes[..|changes| - 1]), last.key, last.size)
  }

  /** The view is indexed, changes count up from one, and replaying them gives the levels. */
  ghost predicate ValidFeed(s: Feed) {
    && V.ValidView(s.book)
    && s.book.sequence == |s.changes|
    && (forall i :: 0 <= i < |s.changes| ==> s.changes[i].sequence == i + 1)
    && Replay(s.changes) == V.Sizes(s.book.levels)
  }

  lemma {:induction false} StartValid()
    ensures ValidFeed(START)
  {
    forall key
      ensures V.IndexedAt(START.book.orders, START.book.levels, key)
    {
    }
  }

  lemma {:induction false} PublishValid(s: Feed, logOffset: int, logSeq: int, id: int, newSize: int, price: int, side: Side)
    requires ValidFeed(s)
    requires id in s.book.orders ==> s.book.orders[id].price == price && s.book.orders[id].side == side
    ensures var r := Publish(s, V.SaveOrder(s.book, logOffset, logSeq, id, newSize, price, side));
            r.Some? <==> newSize >= 0
    ensures var r := Publish(s, V.SaveOrder(s.book, logOffset, logSeq, id, newSize, price, side));
            r.Some? ==> ValidFeed(r.value)
  {
    var saved := V.SaveOrder(s.book, logOffset, logSeq, id, newSize, price, side);
    if newSize >= 0 {
      if id in s.book.orders {
        V.SaveKnownOrder(s.book, logOffset, logSeq, id, newSize);
      } else if newSize > 0 {
        V.SaveNewOrder(s.book, logOffset, logSeq, id, newSize, price, side);
      }
      V.ChangeTellsAll(s.book, logOffset, logSeq, id, newSize, price, side);
      if saved.Saved? {
        var changes := s.changes + [saved.change];
        assert changes[..|changes| - 1] == s.changes;
      }
    }
  }

  /** The order an entry is about, as the pushed book sees it. */
  function Subject(log: Log): int {
    if log.MatchLog? then log.makerId else log.orderId
  }

  /** The size the order has after the entry. */
  function SizeAfter(s: Feed, log: Log): int
    requires !log.OpenLog? ==> Subject(log) in s.book.orders
  {
    match log
    case OpenLog(_, _, remainingSize, _, _) => remainingSize
    case MatchLog(_, _, _, makerId, _, _, size) => s.book.orders[makerId].size - size
    case DoneLog(_, id, _, remainingSize, _, _) => s.book.orders[id].size - remainingSize
  }

  /** An entry that quotes a known order's price and side panics exactly if it is a match of an unknown order or takes an
      order below zero; a Done of an unknown order changes nothing. */
  lemma {:induction false} StepPanicsExactly(s: Feed, m: Message)
    requires ValidFeed(s)
    requires Subject(m.log) in s.book.orders ==>
               s.book.orders[Subject(m.log)].price == m.log.price && s.book.orders[Subject(m.log)].side == m.log.side
    ensures Step(s, m).None? <==> if m.log.OpenLog? || Subject(m.log) in s.book.orders then SizeAfter(s, m.log) < 0 else m.log.MatchLog?
    ensures m.log.DoneLog? && m.log.orderId !in s.book.orders ==> Step(s, m) == Some(s)
  {
    hide ValidFeed, V.SaveOrder;
    if m.log.OpenLog? || Subject(m.log) in s.book.orders {
      PublishValid(s, m.offset, m.log.sequence, Subject(m.log), SizeAfter(s, m.log), m.log.price, m.log.side);
    }
  }
}
