/** The loop of a websocket client that writes level-2 messages, proved against the protocol's steps, and the run in
    which an unguarded request makes a client show a stale level. */
module L2ChangeWriters {
  import opened Types
  import V = View
  import S = Stream
  import opened PushedBooks
  import P = L2Client

  class L2ChangeWriter {
    var states: map<string, P.State>
    var l2ChangeCh: seq<P.Incoming>
    var writeCh: seq<P.Outgoing>

    ghost function Model(): P.Client
      reads this
    {
      P.Client(states, l2ChangeCh, writeCh)
    }

    constructor ()
      ensures Model() == P.Client(map[], [], [])
    {
      states, l2ChangeCh, writeCh := map[], [], [];
    }

    /** The triples of an update message. */
    method Triples(changes: seq<V.Change>) returns (update: seq<P.Setting>)
      ensures update == P.Settings(changes)
    {
      update := [];
      var i := 0;
      while i < |changes|
        invariant i <= |changes| == |P.Settings(changes)| && update == P.Settings(changes)[..i]
      {
        update := update + [P.Setting(changes[i].key, changes[i].size)];
        i := i + 1;
      }
    }

    /** The queue's head; `lookup` holds the last level-2 snapshot of each product. */
    method HandleNext(lookup: map<string, Level2Snapshot>)
      requires l2ChangeCh != []
      modifies this
      ensures var product := old(l2ChangeCh)[0].product;
              Model() == P.Handle(old(Model()), if product in lookup then Some(lookup[product]) else None)
    {
      var m := l2ChangeCh[0];
      l2ChangeCh := l2ChangeCh[1..];
      if m.product !in states {
        states := states[m.product := P.State(true, [], 0)];
      }
      var s, change := states[m.product], m.change;
      assert s == P.StateOf(old(Model()), m.product);
      ghost var was, s0 := old(states), s;
      ghost var r := P.React(s, m.product, change, if m.product in lookup then Some(lookup[m.product]) else None, |l2ChangeCh|);
      PutTwice(was, m.product, s0, s0);
      PutTwice(was, m.product, s0, r.state);
      assert states == was[m.product := s0];

      if s.resendSnapshot || change.sequence == 0 {
        if m.product !in lookup {
          return;
        }
        var snapshot := lookup[m.product];
        if s.lastSeq > snapshot.sequence {
          return;
        }
        states := states[m.product := s.(lastSeq := snapshot.sequence, resendSnapshot := false)];
        writeCh := writeCh + [P.SnapshotMessage(m.product, snapshot.asks, snapshot.bids)];
        return;
      }
      if change.sequence <= s.lastSeq {
        return;
      }
      if change.sequence != s.lastSeq + 1 {
        states := states[m.product := P.State(true, [], change.sequence)];
        if |l2ChangeCh| == 0 {
          l2ChangeCh := l2ChangeCh + [P.Request(m.product)];
        }
        return;
      }
      s := s.(lastSeq := change.sequence, changes := s.changes + [change]);
      states := states[m.product := s];
      PutTwice(was, m.product, s0, s);
      PutTwice(was, m.product, s, r.state);
      if |l2ChangeCh| > 0 && |s.changes| < 10 {
        return;
      }
      var update := Triples(s.changes);
      writeCh := writeCh + [P.UpdateMessage(m.product, update)];
      states := states[m.product := s.(changes := [])];
    }
  }

  lemma {:induction false} PutTwice(m: map<string, P.State>, product: string, s: P.State, t: P.State)
    ensures m[product := s][product := t] == m[product := t]
    ensures product in m && m[product] == s ==> m == m[product := s]
  {
  }

  // ------------------------------------------------------- a request the writer should have guarded

  const KEY := LevelKey(Buy, 10)
  const ONE := V.Change(1, KEY, 1)
  const TWO := V.Change(2, KEY, 2)
  const PRODUCT := "BTC-USDT"

  /** One bid level grows from size 1 to size 2. */
  function History(): string -> seq<V.Change> {
    product => [ONE, TWO]
  }

  const EMPTY_BOOK := Level2Snapshot(0, [], [])
  const GROWN_BOOK := Level2Snapshot(2, [], [LevelRow(10, 2, 1)])

  lemma {:induction false} EmptyIsGenuine()
    ensures P.ShownByAll(Some(EMPTY_BOOK), [ONE, TWO])
  {
    var levels: map<LevelKey, V.Level> := map[];
    assert [ONE, TWO][..0] == [];
    assert V.Sizes(levels) == S.Replay([ONE, TWO][..0]);
    assert Prices(levels, Buy) == {} && Prices(levels, Sell) == {};
    assert P.PricesOf(map[], Buy) == {} && P.PricesOf(map[], Sell) == {};
  }

  lemma {:induction false} Replayed()
    ensures S.Replay([]) == map[] && S.Replay([ONE]) == map[KEY := 1] && S.Replay([ONE, TWO]) == map[KEY := 2]
  {
    assert [ONE, TWO][..1] == [ONE] && [ONE][..0] == [];
  }

  lemma {:induction false} GrownIsGenuine()
    ensures P.ShownByAll(Some(GROWN_BOOK), [ONE, TWO])
  {
    hide S.Replay;
    Replayed();
    assert [ONE, TWO][..2] == [ONE, TWO];
    var levels := map[KEY := V.Level(2, 1)];
    assert V.Sizes(levels) == S.Replay([ONE, TWO]);
    assert Prices(levels, Buy) == {10} && Prices(levels, Sell) == {};
    var m := map[KEY := 2];
    assert P.PricesOf(m, Buy) == {10} && P.PricesOf(m, Sell) == {};
    assert Genuine(GROWN_BOOK, [ONE, TWO]);
  }

  const REQUEST := P.Request(PRODUCT)
  const FIRST := P.Incoming(PRODUCT, ONE)
  const SYNCED := P.SnapshotMessage(PRODUCT, [], [])

  /** Waiting for its first snapshot; synced at sequence 0; and with the first change buffered. */
  const NEW := P.Client(map[], [], [])
  const ASKED := P.Client(map[], [REQUEST], [])
  const READY := P.Client(map[PRODUCT := P.State(false, [], 0)], [], [SYNCED])
  const BUFFERED := P.Client(map[PRODUCT := P.State(false, [ONE], 1)], [REQUEST], [SYNCED])

  lemma {:induction false} BuffersOne()
    ensures P.Handle(ASKED, Some(EMPTY_BOOK)) == READY
    ensures P.Handle(READY.(l2ChangeCh := [FIRST, REQUEST]), None) == BUFFERED
  {
    var entries := [FIRST, REQUEST];
    assert entries[1..] == [REQUEST];
    assert map[PRODUCT := P.State(false, [], 0)][PRODUCT := P.State(false, [ONE], 1)] == map[PRODUCT := P.State(false, [ONE], 1)];
    var none: seq<V.Change> := [];
    assert none + [ONE] == [ONE];
    var one := [REQUEST];
    assert one[1..] == [];
    assert READY.states[PRODUCT] == P.State(false, [], 0);
  }

  lemma {:induction false} Arrives(history: string -> seq<V.Change>, c: P.Client, m: P.Incoming)
    requires P.FromServer(m.change, history(m.product))
    ensures P.Steps(history, c, c.(l2ChangeCh := c.l2ChangeCh + [m]))
  {
  }

  /** A client synced at sequence 0 has buffered the first change when a second request brings the snapshot at 2. */
  lemma {:induction false} StaleBuffer() returns (run: seq<P.Client>)
    ensures P.Run(History(), run)
    ensures var c := run[|run| - 1];
            && c.l2ChangeCh == [P.Request(PRODUCT)] && P.AllInSync(History(), c)
            && P.ShownByAll(Some(GROWN_BOOK), [ONE, TWO])
            && !P.AllInSync(History(), P.Handle(c, Some(GROWN_BOOK)))
  {
    hide P.Steps, P.Handle, P.InSync, P.ShownByAll;
    var h := History();
    run := [NEW, ASKED, READY, READY.(l2ChangeCh := [FIRST]), READY.(l2ChangeCh := [FIRST, REQUEST]), BUFFERED];
    Arrives(h, NEW, REQUEST);
    assert NEW.l2ChangeCh + [REQUEST] == [REQUEST];
    Arrives(h, READY, FIRST);
    assert READY.l2ChangeCh + [FIRST] == [FIRST];
    Arrives(h, run[3], REQUEST);
    assert [FIRST] + [REQUEST] == [FIRST, REQUEST];
    SyncsAndBuffers(h);
    P.AlwaysInSync(h, run, 5);
    GrownIsGenuine();
    ShowsStale(h);
  }

  lemma {:induction false} SyncsAndBuffers(h: string -> seq<V.Change>)
    requires h == History()
    ensures P.Steps(h, ASKED, READY) && P.Steps(h, READY.(l2ChangeCh := [FIRST, REQUEST]), BUFFERED)
  {
    hide P.Handle, P.ShownByAll;
    BuffersOne();
    EmptyIsGenuine();
    assert P.ShownByAll(None, h(PRODUCT)) && P.ShownByAll(Some(EMPTY_BOOK), h(PRODUCT)) by {
      NoneIsGenuine(h(PRODUCT));
    }
    assert P.Harmless(P.StateOf(ASKED, PRODUCT), REQUEST.change, Some(EMPTY_BOOK), h(PRODUCT));
    assert P.Harmless(P.FRESH, FIRST.change, None, h(PRODUCT));
  }

  lemma {:induction false} NoneIsGenuine(history: seq<V.Change>)
    ensures P.ShownByAll(None, history)
  {
  }

  /** The snapshot says 2, the buffered change sets the level back to 1. */
  lemma {:induction false} ShowsStale(h: string -> seq<V.Change>)
    requires h == History() && P.AllInSync(h, BUFFERED) && P.ShownByAll(Some(GROWN_BOOK), [ONE, TWO])
    ensures !P.AllInSync(h, P.Handle(BUFFERED, Some(GROWN_BOOK)))
  {
    hide P.ShownByAll, P.InSync, S.Replay, P.Shown;
    var c := P.Handle(BUFFERED, Some(GROWN_BOOK));
    var s := P.State(false, [ONE], 1);
    var shown := P.Shown(PRODUCT, BUFFERED.writeCh);
    assert P.StateOf(BUFFERED, PRODUCT) == s && P.InSync(s, shown, h(PRODUCT));
    P.ReactExactly(s, PRODUCT, REQUEST.change, Some(GROWN_BOOK), 0, shown, h(PRODUCT));
    Contradicts();
    var r := P.React(s, PRODUCT, REQUEST.change, Some(GROWN_BOOK), 0);
    P.ShownOneMore(PRODUCT, BUFFERED.writeCh, r.sent);
    assert P.StateOf(c, PRODUCT) == r.state && c.writeCh == BUFFERED.writeCh + [r.sent.value];
  }

  lemma {:induction false} Contradicts()
    requires P.ShownByAll(Some(GROWN_BOOK), [ONE, TWO])
    ensures !P.Harmless(P.State(false, [ONE], 1), REQUEST.change, Some(GROWN_BOOK), [ONE, TWO])
  {
    hide S.Replay;
    Replayed();
    assert [ONE, TWO][..2] == [ONE, TWO];
    var settings := P.Settings([ONE]);
    assert settings[0].key == KEY;
    assert P.Touches(settings, KEY) && P.LastSize(settings, KEY) == 1;
  }
}
