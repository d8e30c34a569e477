/** The level-2 protocol of one websocket client: a snapshot, then changes, over a lossy stream. */
module L2Client {
  import opened Types
  import V = View
  import S = Stream
  import opened PushedBooks

  // ------------------------------------------------------- what a client shows

  /** One triple of an update message. */
  datatype Setting = Setting(key: LevelKey, size: int)

  datatype Outgoing =
    | SnapshotMessage(product: string, asks: seq<LevelRow>, bids: seq<LevelRow>)
    | UpdateMessage(product: string, settings: seq<Setting>)

  function Settings(changes: seq<V.Change>): (r: seq<Setting>)
    ensures |r| == |changes| && forall i :: 0 <= i < |r| ==> r[i] == Setting(changes[i].key, changes[i].size)
  {
    if changes == [] then []
    else
      var last := changes[|changes| - 1];
      Settings(changes[..|changes| - 1]) + [Setting(last.key, last.size)]
  }

  ghost function Apply(m: map<LevelKey, int>, settings: seq<Setting>): map<LevelKey, int> {
    if settings == [] then m
    else
      var last := settings[|settings| - 1];
      V.SetLevel(Apply(m, settings[..|settings| - 1]), last.key, last.size)
  }

  ghost function Listing(side: Side, rows: seq<LevelRow>): map<LevelKey, int> {
    map r | r in rows :: LevelKey(side, r.price) := SizeOf(rows, r.price)
  }

  /** The size the rows give a price. */
  ghost function SizeOf(rows: seq<LevelRow>, price: int): int
    requires exists r :: r in rows && r.price == price
  {
    if rows[|rows| - 1].price == price then rows[|rows| - 1].size else SizeOf(rows[..|rows| - 1], price)
  }

  /** The level map a client holds after the messages sent to it: since its last snapshot, every setting in turn. */
  ghost function Shown(product: string, sent: seq<Outgoing>): map<LevelKey, int> {
    if sent == [] then map[]
    else
      var before := Shown(product, sent[..|sent| - 1]);
      match sent[|sent| - 1]
      case SnapshotMessage(p, asks, bids) => if p == product then Listing(Sell, asks) + Listing(Buy, bids) else before
      case UpdateMessage(p, settings) => if p == product then Apply(before, settings) else before
  }

  // ------------------------------------------------------- the writer

  datatype State = State(resendSnapshot: bool, changes: seq<V.Change>, lastSeq: int)

  const FRESH := State(true, [], 0)

  /** How the writer reacts to one entry of its queue; `request` is a snapshot request it puts in the empty queue. */
  datatype Reaction = Reaction(state: State, sent: Option<Outgoing>, request: bool)

  function React(s: State, product: string, change: V.Change, snapshot: Option<Level2Snapshot>, waiting: nat): Reaction {
    if s.resendSnapshot || change.sequence == 0 then
      if snapshot.None? || s.lastSeq > snapshot.value.sequence then Reaction(s, None, false)
      else
        Reaction(State(false, s.changes, snapshot.value.sequence),
                 Some(SnapshotMessage(product, snapshot.value.asks, snapshot.value.bids)), false)
    else if change.sequence <= s.lastSeq then Reaction(s, None, false)
    else if change.sequence != s.lastSeq + 1 then Reaction(State(true, [], change.sequence), None, waiting == 0)
    else
      var changes := s.changes + [change];
      if waiting > 0 && |changes| < 10 then Reaction(State(false, changes, change.sequence), None, false)
      else Reaction(State(false, [], change.sequence), Some(UpdateMessage(product, Settings(changes))), false)
  }

  datatype Incoming = Incoming(product: string, change: V.Change)

  datatype Client = Client(states: map<string, State>, l2ChangeCh: seq<Incoming>, writeCh: seq<Outgoing>)

  function Request(product: string): Incoming {
    Incoming(product, V.Change(0, LevelKey(Buy, 0), 0))
  }

  function StateOf(c: Client, product: string): State {
    if product in c.states then c.states[product] else FRESH
  }

  /** One pass of the writer's loop; `snapshot` is what the snapshot lookup finds now. */
  function Handle(c: Client, snapshot: Option<Level2Snapshot>): Client
    requires c.l2ChangeCh != []
  {
    var m, rest := c.l2ChangeCh[0], c.l2ChangeCh[1..];
    var r := React(StateOf(c, m.product), m.product, m.change, snapshot, |rest|);
    Client(c.states[m.product := r.state], if r.request then rest + [Request(m.product)] else rest,
           if r.sent.Some? then c.writeCh + [r.sent.value] else c.writeCh)
  }

  // ------------------------------------------------------- level maps, level by level

  ghost function SizeAt(m: map<LevelKey, int>, key: LevelKey): int {
    if key in m then m[key] else 0
  }

  ghost predicate NoZeros(m: map<LevelKey, int>) {
    forall key :: key in m ==> m[key] != 0
  }

  ghost predicate Touches(settings: seq<Setting>, key: LevelKey) {
    exists i :: 0 <= i < |settings| && settings[i].key == key
  }

  /** The last size the settings give a level they touch. */
  ghost function LastSize(settings: seq<Setting>, key: LevelKey): int
    requires Touches(settings, key)
  {
    var n := |settings| - 1;
    if settings[n].key == key then settings[n].size else LastSize(settings[..n], key)
  }

  lemma {:induction false} ApplyAt(m: map<LevelKey, int>, settings: seq<Setting>, key: LevelKey)
    ensures SizeAt(Apply(m, settings), key) == if Touches(settings, key) then LastSize(settings, key) else SizeAt(m, key)
    ensures NoZeros(m) ==> NoZeros(Apply(m, settings))
    decreases |settings|
  {
    if settings != [] {
      var n := |settings| - 1;
      ApplyAt(m, settings[..n], key);
      if settings[n].key != key && Touches(settings, key) {
        var i :| 0 <= i < |settings| && settings[i].key == key;
        assert settings[..n][i].key == key;
      }
      if Touches(settings[..n], key) {
        var i :| 0 <= i < n && settings[..n][i].key == key;
        assert settings[i].key == key;
      }
    }
  }

  lemma {:induction false} SameLevels(a: map<LevelKey, int>, b: map<LevelKey, int>)
    requires NoZeros(a) && NoZeros(b) && forall key :: SizeAt(a, key) == SizeAt(b, key)
    ensures a == b
  {
    forall key
      ensures key in a <==> key in b
      ensures key in a ==> a[key] == b[key]
    {
      assert SizeAt(a, key) == SizeAt(b, key);
    }
  }

  lemma {:induction false} ApplyConcat(m: map<LevelKey, int>, a: seq<Setting>, b: seq<Setting>)
    ensures Apply(m, a + b) == Apply(Apply(m, a), b)
    decreases |b|
  {
    if b == [] {
      assert a + b == a;
    } else {
      assert (a + b)[..|a + b| - 1] == a + b[..|b| - 1];
      ApplyConcat(m, a, b[..|b| - 1]);
    }
  }

  /** Replaying is setting from nothing. */
  lemma {:induction false} ReplayIsApply(changes: seq<V.Change>)
    ensures S.Replay(changes) == Apply(map[], Settings(changes)) && NoZeros(S.Replay(changes))
    decreases |changes|
  {
    if changes != [] {
      var n := |changes| - 1;
      ReplayIsApply(changes[..n]);
      assert Settings(changes)[..n] == Settings(changes[..n]);
    }
  }

  /** Whether applying the settings again leaves the level map as it is. */
  ghost predicate Agrees(settings: seq<Setting>, m: map<LevelKey, int>) {
    forall key :: Touches(settings, key) ==> LastSize(settings, key) == SizeAt(m, key)
  }

  lemma {:induction false} NoEffectExactly(m: map<LevelKey, int>, settings: seq<Setting>)
    requires NoZeros(m)
    ensures Apply(m, settings) == m <==> Agrees(settings, m)
  {
    if Apply(m, settings) == m {
      forall key | Touches(settings, key)
        ensures LastSize(settings, key) == SizeAt(m, key)
      {
        ApplyAt(m, settings, key);
      }
    }
    if Agrees(settings, m) {
      forall key
        ensures SizeAt(Apply(m, settings), key) == SizeAt(m, key)
      {
        ApplyAt(m, settings, key);
      }
      ApplyAt(m, settings, LevelKey(Buy, 0));
      SameLevels(Apply(m, settings), m);
    }
  }

  // ------------------------------------------------------- snapshots

  ghost function PricesOf(m: map<LevelKey, int>, side: Side): set<int> {
    set key | key in m && key.side == side :: key.price
  }

  /** At most 1000 levels a side, so that a snapshot lists them all. */
  ghost predicate Fits(m: map<LevelKey, int>) {
    |PricesOf(m, Sell)| <= 1000 && |PricesOf(m, Buy)| <= 1000
  }

  lemma {:induction false} SizeOfRow(rows: seq<LevelRow>, levels: map<LevelKey, V.Level>, side: Side, price: int)
    requires exists r :: r in rows && r.price == price
    requires forall r :: r in rows ==> LevelKey(side, r.price) in levels && levels[LevelKey(side, r.price)].size == r.size
    ensures LevelKey(side, price) in levels && SizeOf(rows, price) == levels[LevelKey(side, price)].size
    decreases |rows|
  {
    var n := |rows| - 1;
    assert rows == rows[..n] + [rows[n]];
    if rows[n].price != price {
      var r :| r in rows && r.price == price;
      assert r in rows[..n];
      SizeOfRow(rows[..n], levels, side, price);
    }
  }

  lemma {:induction false} ListingOfTop(rows: seq<LevelRow>, levels: map<LevelKey, V.Level>, side: Side)
    requires Top(rows, levels, side, 1000) && |Prices(levels, side)| <= 1000
    ensures forall key :: key in Listing(side, rows) <==> key in levels && key.side == side
    ensures forall key :: key in Listing(side, rows) ==> Listing(side, rows)[key] == levels[key].size
  {
    forall key
      ensures key in Listing(side, rows) <==> key in levels && key.side == side
    {
      TopIsComplete(rows, levels, side, 1000, key.price);
      if key.side == side && exists r :: r in rows && r.price == key.price {
        var r :| r in rows && r.price == key.price;
        assert key == LevelKey(side, r.price);
      }
    }
    forall key | key in Listing(side, rows)
      ensures Listing(side, rows)[key] == levels[key].size
    {
      SizeOfRow(rows, levels, side, key.price);
    }
  }

  /** A client that receives a genuine snapshot of at most 1000 levels a side shows exactly the server's levels. */
  lemma {:induction false} SnapshotShowsAll(s: Level2Snapshot, history: seq<V.Change>)
    requires Genuine(s, history) && Fits(S.Replay(history[..s.sequence]))
    ensures Listing(Sell, s.asks) + Listing(Buy, s.bids) == S.Replay(history[..s.sequence])
  {
    hide S.Replay, Top, V.Sizes, Listing, PricesOf;
    var m := S.Replay(history[..s.sequence]);
    var levels: map<LevelKey, V.Level> :|
      V.Sizes(levels) == m && Top(s.asks, levels, Sell, 1000) && Top(s.bids, levels, Buy, 1000);
    SamePrices(levels, Sell);
    SamePrices(levels, Buy);
    ListingOfTop(s.asks, levels, Sell);
    ListingOfTop(s.bids, levels, Buy);
    JoinSides(Listing(Sell, s.asks), Listing(Buy, s.bids), levels);
  }

  lemma {:induction false} SamePrices(levels: map<LevelKey, V.Level>, side: Side)
    ensures PricesOf(V.Sizes(levels), side) == Prices(levels, side)
  {
  }

  lemma {:induction false} JoinSides(asks: map<LevelKey, int>, bids: map<LevelKey, int>, levels: map<LevelKey, V.Level>)
    requires forall key :: key in asks <==> key in levels && key.side == Sell
    requires forall key :: key in bids <==> key in levels && key.side == Buy
    requires forall key :: key in asks ==> asks[key] == levels[key].size
    requires forall key :: key in bids ==> bids[key] == levels[key].size
    ensures asks + bids == V.Sizes(levels)
  {
    forall key | key in levels
      ensures key in asks + bids && (asks + bids)[key] == levels[key].size
    {
      assert key.side == Sell || key.side == Buy;
    }
  }

  // ------------------------------------------------------- safety of one product

  /** Buffered changes on top of what the client shows give the server's levels at lastSeq, whenever the product is
      synced; before that nothing is buffered. */
  ghost predicate InSync(s: State, shown: map<LevelKey, int>, history: seq<V.Change>) {
    && 0 <= s.lastSeq <= |history| && |s.changes| < 10
    && (s.resendSnapshot ==> s.changes == [])
    && (!s.resendSnapshot ==> Apply(shown, Settings(s.changes)) == S.Replay(history[..s.lastSeq]))
  }

  /** A snapshot request, or a change the server published; perhaps repeated, late or out of order. */
  ghost predicate FromServer(change: V.Change, history: seq<V.Change>) {
    change.sequence == 0 || (1 <= change.sequence <= |history| && history[change.sequence - 1] == change)
  }

  ghost predicate ShownByAll(snapshot: Option<Level2Snapshot>, history: seq<V.Change>) {
    snapshot.Some? ==> Genuine(snapshot.value, history) && Fits(S.Replay(history[..snapshot.value.sequence]))
  }

  /** The case the writer does not guard: a request reaches a synced product, so the snapshot must not contradict
      the last buffered size of any level. It holds of an empty buffer. */
  ghost predicate Harmless(s: State, change: V.Change, snapshot: Option<Level2Snapshot>, history: seq<V.Change>)
    requires ShownByAll(snapshot, history)
  {
    !s.resendSnapshot && change.sequence == 0 && snapshot.Some? && s.lastSeq <= snapshot.value.sequence ==>
      Agrees(Settings(s.changes), S.Replay(history[..snapshot.value.sequence]))
  }

  ghost function ShownAfter(product: string, shown: map<LevelKey, int>, sent: Option<Outgoing>): map<LevelKey, int> {
    if sent.None? then shown
    else
      match sent.value
      case SnapshotMessage(p, asks, bids) => if p == product then Listing(Sell, asks) + Listing(Buy, bids) else shown
      case UpdateMessage(p, settings) => if p == product then Apply(shown, settings) else shown
  }

  lemma {:induction false} TakesChange(s: State, change: V.Change, shown: map<LevelKey, int>, history: seq<V.Change>)
    requires InSync(s, shown, history) && !s.resendSnapshot && FromServer(change, history) && change.sequence == s.lastSeq + 1
    ensures Apply(shown, Settings(s.changes + [change])) == S.Replay(history[..change.sequence])
  {
    var changes := s.changes + [change];
    assert changes[..|changes| - 1] == s.changes;
    var settings := Settings(changes);
    assert settings[..|settings| - 1] == Settings(s.changes);
    assert history[..change.sequence] == history[..s.lastSeq] + [change];
  }

  /** The writer keeps a product in sync exactly when the request case is harmless. */
  lemma {:induction false} ReactExactly(s: State, product: string, change: V.Change, snapshot: Option<Level2Snapshot>,
                                        waiting: nat, shown: map<LevelKey, int>, history: seq<V.Change>)
    requires InSync(s, shown, history) && FromServer(change, history) && ShownByAll(snapshot, history)
    ensures var r := React(s, product, change, snapshot, waiting);
            InSync(r.state, ShownAfter(product, shown, r.sent), history) <==> Harmless(s, change, snapshot, history)
  {
    hide Apply, Genuine, Fits, S.Replay, Listing, Agrees, NoZeros;
    if s.resendSnapshot || change.sequence == 0 {
      if snapshot.Some? && s.lastSeq <= snapshot.value.sequence {
        GenuineBound(snapshot.value, history);
        SnapshotShowsAll(snapshot.value, history);
        var m := S.Replay(history[..snapshot.value.sequence]);
        ReplayIsApply(history[..snapshot.value.sequence]);
        NoEffectExactly(m, Settings(s.changes));
        if s.resendSnapshot {
          NothingToApply(m);
        }
      }
    } else if change.sequence == s.lastSeq + 1 {
      TakesChange(s, change, shown, history);
      NothingToApply(Apply(shown, Settings(s.changes + [change])));
    }
  }

  lemma {:induction false} NothingToApply(m: map<LevelKey, int>)
    ensures Apply(m, Settings([])) == m
  {
  }

  lemma {:induction false} GenuineBound(s: Level2Snapshot, history: seq<V.Change>)
    requires Genuine(s, history)
    ensures 0 <= s.sequence <= |history|
  {
  }

  /** An empty buffer is always harmless, and so is a snapshot at the very sequence the buffer ends with. */
  lemma {:induction false} HarmlessRequests(s: State, change: V.Change, snapshot: Level2Snapshot, history: seq<V.Change>, k: nat)
    requires ShownByAll(Some(snapshot), history)
    requires s.changes == [] || (k <= s.lastSeq == snapshot.sequence <= |history| && s.changes == history[k..s.lastSeq])
    ensures Harmless(s, change, Some(snapshot), history)
  {
    var m := S.Replay(history[..snapshot.sequence]);
    if s.changes != [] {
      assert history[..s.lastSeq] == history[..k] + s.changes;
      ReplayIsApply(history[..s.lastSeq]);
      ReplayIsApply(history[..k]);
      SettingsConcat(history[..k], s.changes);
      ApplyConcat(map[], Settings(history[..k]), Settings(s.changes));
      forall key | Touches(Settings(s.changes), key)
        ensures LastSize(Settings(s.changes), key) == SizeAt(m, key)
      {
        ApplyAt(S.Replay(history[..k]), Settings(s.changes), key);
      }
    }
  }

  lemma {:induction false} SettingsConcat(a: seq<V.Change>, b: seq<V.Change>)
    ensures Settings(a + b) == Settings(a) + Settings(b)
  {
  }

  /** Any entry for a product that waits for a snapshot syncs it, once the snapshot has caught up with what was lost. */
  lemma {:induction false} AnyEntryResyncs(s: State, product: string, change: V.Change, snapshot: Level2Snapshot,
                                           waiting: nat, shown: map<LevelKey, int>, history: seq<V.Change>)
    requires InSync(s, shown, history) && s.resendSnapshot && s.lastSeq <= snapshot.sequence
    requires ShownByAll(Some(snapshot), history)
    ensures var r := React(s, product, change, Some(snapshot), waiting);
            !r.state.resendSnapshot && ShownAfter(product, shown, r.sent) == S.Replay(history[..r.state.lastSeq])
  {
    hide Apply, Genuine, Fits, S.Replay, Listing;
    SnapshotShowsAll(snapshot, history);
  }

  /** Whenever an update is sent, the client shows the server's levels at lastSeq. */
  lemma {:induction false} UpdateIsExact(s: State, product: string, change: V.Change, snapshot: Option<Level2Snapshot>,
                                         waiting: nat, shown: map<LevelKey, int>, history: seq<V.Change>)
    requires InSync(s, shown, history) && FromServer(change, history)
    requires var sent := React(s, product, change, snapshot, waiting).sent; sent.Some? && sent.value.UpdateMessage?
    ensures var r := React(s, product, change, snapshot, waiting);
            r.state.changes == [] && ShownAfter(product, shown, r.sent) == S.Replay(history[..change.sequence])
  {
    TakesChange(s, change, shown, history);
  }

  // ------------------------------------------------------- safety over runs of all products

  /** A step of the client: the stream delivers anything the server published or a request is made, in any order and
      any number of times, or the writer handles the head of its queue. */
  ghost predicate Steps(history: string -> seq<V.Change>, c: Client, c': Client) {
    || (exists m: Incoming :: FromServer(m.change, history(m.product)) && c' == c.(l2ChangeCh := c.l2ChangeCh + [m]))
    || (c.l2ChangeCh != [] &&
        var m := c.l2ChangeCh[0];
        exists snapshot :: ShownByAll(snapshot, history(m.product))
                           && Harmless(StateOf(c, m.product), m.change, snapshot, history(m.product))
                           && c' == Handle(c, snapshot))
  }

  ghost predicate Run(history: string -> seq<V.Change>, run: seq<Client>) {
    run != [] && run[0] == Client(map[], [], []) && forall i :: 0 <= i < |run| - 1 ==> Steps(history, run[i], run[i + 1])
  }

  ghost predicate AllInSync(history: string -> seq<V.Change>, c: Client) {
    && (forall m :: m in c.l2ChangeCh ==> FromServer(m.change, history(m.product)))
    && forall product :: InSync(StateOf(c, product), Shown(product, c.writeCh), history(product))
  }

  lemma {:induction false} ShownOneMore(product: string, sent: seq<Outgoing>, more: Option<Outgoing>)
    ensures Shown(product, if more.Some? then sent + [more.value] else sent) == ShownAfter(product, Shown(product, sent), more)
  {
    if more.Some? {
      assert (sent + [more.value])[..|sent + [more.value]| - 1] == sent;
    }
  }

  lemma {:induction false} HandleKeeps(history: string -> seq<V.Change>, c: Client, snapshot: Option<Level2Snapshot>)
    requires AllInSync(history, c) && c.l2ChangeCh != []
    requires var m := c.l2ChangeCh[0];
             ShownByAll(snapshot, history(m.product))
             && Harmless(StateOf(c, m.product), m.change, snapshot, history(m.product))
    ensures AllInSync(history, Handle(c, snapshot))
  {
    hide InSync, Shown, ShownAfter, Harmless, ShownByAll;
    var c' := Handle(c, snapshot);
    var m, rest := c.l2ChangeCh[0], c.l2ChangeCh[1..];
    assert m in c.l2ChangeCh;
    assert forall x :: x in rest ==> x in c.l2ChangeCh;
    var r := React(StateOf(c, m.product), m.product, m.change, snapshot, |rest|);
    SentIsMine(StateOf(c, m.product), m.product, m.change, snapshot, |rest|);
    hide React;
    forall product
      ensures InSync(StateOf(c', product), Shown(product, c'.writeCh), history(product))
    {
      ShownOneMore(product, c.writeCh, r.sent);
      assert InSync(StateOf(c, product), Shown(product, c.writeCh), history(product));
      if product == m.product {
        ReactExactly(StateOf(c, product), product, m.change, snapshot, |rest|, Shown(product, c.writeCh), history(product));
      } else {
        OthersSee(product, Shown(product, c.writeCh), r.sent);
      }
    }
  }

  predicate Mine(sent: Option<Outgoing>, product: string) {
    sent.Some? ==> sent.value.product == product
  }

  lemma {:induction false} SentIsMine(s: State, product: string, change: V.Change, snapshot: Option<Level2Snapshot>, waiting: nat)
    ensures Mine(React(s, product, change, snapshot, waiting).sent, product)
  {
  }

  lemma {:induction false} OthersSee(product: string, shown: map<LevelKey, int>, sent: Option<Outgoing>)
    requires sent.Some? ==> sent.value.product != product
    ensures ShownAfter(product, shown, sent) == shown
  {
  }

  /** Safety: under any loss, repetition or reordering of genuine changes, at every moment of every run and for every
      synced product, what the client was sent followed by what is buffered is the server's level map at lastSeq. */
  lemma {:induction false} AlwaysInSync(history: string -> seq<V.Change>, run: seq<Client>, i: nat)
    requires Run(history, run) && i < |run|
    ensures AllInSync(history, run[i])
  {
    hide InSync, Handle, Harmless, ShownByAll, FromServer;
    if i == 0 {
      StartInSync(history);
    } else {
      AlwaysInSync(history, run, i - 1);
      var c, c' := run[i - 1], run[i];
      assert Steps(history, c, c');
      if c.l2ChangeCh != [] {
        forall snapshot | ShownByAll(snapshot, history(c.l2ChangeCh[0].product))
                          && Harmless(StateOf(c, c.l2ChangeCh[0].product), c.l2ChangeCh[0].change, snapshot, history(c.l2ChangeCh[0].product))
          ensures AllInSync(history, Handle(c, snapshot))
        {
          HandleKeeps(history, c, snapshot);
        }
      }
    }
  }

  lemma {:induction false} StartInSync(history: string -> seq<V.Change>)
    ensures AllInSync(history, Client(map[], [], []))
  {
  }

  // ------------------------------------------------------- promptness over runs

  /** The step from c to c' took the head of the queue, rather than adding to its end. */
  ghost predicate TookHead(c: Client, c': Client) {
    c.l2ChangeCh != [] && !(c.l2ChangeCh <= c'.l2ChangeCh)
  }

  /** In a run, the next change in sequence of a synced product is shown at once when nothing waits behind it. */
  lemma {:induction false} PromptUpdate(history: string -> seq<V.Change>, run: seq<Client>, i: nat)
    requires Run(history, run) && i < |run| - 1 && |run[i].l2ChangeCh| == 1 && TookHead(run[i], run[i + 1])
    requires var m := run[i].l2ChangeCh[0];
             !StateOf(run[i], m.product).resendSnapshot && m.change.sequence == StateOf(run[i], m.product).lastSeq + 1
    ensures var m, c := run[i].l2ChangeCh[0], run[i + 1];
            && c.l2ChangeCh == [] && !StateOf(c, m.product).resendSnapshot
            && StateOf(c, m.product).changes == [] && StateOf(c, m.product).lastSeq == m.change.sequence
            && 0 <= m.change.sequence <= |history(m.product)|
            && Shown(m.product, c.writeCh) == S.Replay(history(m.product)[..m.change.sequence])
  {
    hide Shown, ShownByAll, Harmless, S.Replay, Apply;
    var c, c' := run[i], run[i + 1];
    assert Steps(history, c, c');
    var m := c.l2ChangeCh[0];
    AlwaysInSync(history, run, i);
    assert m in c.l2ChangeCh;
    var s, shown := StateOf(c, m.product), Shown(m.product, c.writeCh);
    assert InSync(s, shown, history(m.product));
    var snapshot :| ShownByAll(snapshot, history(m.product)) && c' == Handle(c, snapshot);
    var r := React(s, m.product, m.change, snapshot, 0);
    UpdateIsExact(s, m.product, m.change, snapshot, 0, shown, history(m.product));
    ShownOneMore(m.product, c.writeCh, r.sent);
  }

  /** A gap with nothing waiting behind it leaves a request for the product in the queue, and the product waits for a
      snapshot as new as what it missed. */
  lemma {:induction false} GapAsksAgain(history: string -> seq<V.Change>, run: seq<Client>, i: nat)
    requires Run(history, run) && i < |run| - 1 && TookHead(run[i], run[i + 1])
    requires var m := run[i].l2ChangeCh[0];
             !StateOf(run[i], m.product).resendSnapshot && m.change.sequence > StateOf(run[i], m.product).lastSeq + 1
    ensures var m, c := run[i].l2ChangeCh[0], run[i + 1];
            && StateOf(c, m.product) == State(true, [], m.change.sequence) && c.writeCh == run[i].writeCh
            && c.l2ChangeCh == if |run[i].l2ChangeCh| == 1 then [Request(m.product)] else run[i].l2ChangeCh[1..]
  {
    hide Shown, ShownByAll, Harmless, S.Replay, Apply;
    var c, c' := run[i], run[i + 1];
    assert Steps(history, c, c');
    AlwaysInSync(history, run, i);
    var m := c.l2ChangeCh[0];
    assert m in c.l2ChangeCh && InSync(StateOf(c, m.product), Shown(m.product, c.writeCh), history(m.product));
  }

  /** A queue never runs empty on a loss: the product of its last entry is synced afterwards, unless no snapshot as new
      as what it missed could be had; and it buffers nothing, unless the entry told nothing new. */
  lemma {:induction false} RunsEmptySynced(history: string -> seq<V.Change>, c: Client, c': Client)
    requires AllInSync(history, c) && Steps(history, c, c') && TookHead(c, c') && c'.l2ChangeCh == []
    ensures |c.l2ChangeCh| == 1
    ensures var m := c.l2ChangeCh[0];
            var s, s' := StateOf(c, m.product), StateOf(c', m.product);
            && (s'.resendSnapshot ==> s' == s && c'.writeCh == c.writeCh && exists snapshot: Option<Level2Snapshot> ::
                  ShownByAll(snapshot, history(m.product)) && (snapshot.Some? ==> snapshot.value.sequence < s.lastSeq))
            && (s'.changes != [] ==> s'.changes == s.changes && (m.change.sequence == 0 || m.change.sequence <= s.lastSeq))
  {
    hide Shown, Harmless, S.Replay, Apply, ShownByAll;
    var m := c.l2ChangeCh[0];
    assert m in c.l2ChangeCh && InSync(StateOf(c, m.product), Shown(m.product, c.writeCh), history(m.product));
    var snapshot :| ShownByAll(snapshot, history(m.product)) && c' == Handle(c, snapshot);
  }

  /** A product never goes back: its lastSeq only grows, and a repeated or late change of a synced product changes nothing. */
  lemma {:induction false} NeverGoesBack(history: string -> seq<V.Change>, c: Client, c': Client, product: string)
    requires AllInSync(history, c) && Steps(history, c, c')
    ensures StateOf(c, product).lastSeq <= StateOf(c', product).lastSeq
    ensures TookHead(c, c') && c.l2ChangeCh[0].product == product && !StateOf(c, product).resendSnapshot
            && 0 < c.l2ChangeCh[0].change.sequence <= StateOf(c, product).lastSeq
            ==> StateOf(c', product) == StateOf(c, product) && c'.writeCh == c.writeCh && c'.l2ChangeCh == c.l2ChangeCh[1..]
  {
    hide Shown, Harmless, S.Replay, Apply, ShownByAll, InSync;
  }

  /** With something waiting, changes are held back until there are ten, and then sent together in their order. */
  lemma {:induction false} BuffersWhileBusy(history: string -> seq<V.Change>, c: Client, c': Client)
    requires AllInSync(history, c) && Steps(history, c, c') && TookHead(c, c') && |c.l2ChangeCh| > 1
    requires var m := c.l2ChangeCh[0];
             !StateOf(c, m.product).resendSnapshot && m.change.sequence == StateOf(c, m.product).lastSeq + 1
    ensures var m := c.l2ChangeCh[0];
            var changes := StateOf(c, m.product).changes + [m.change];
            if |changes| < 10 then StateOf(c', m.product).changes == changes && c'.writeCh == c.writeCh
            else StateOf(c', m.product).changes == [] && c'.writeCh == c.writeCh + [UpdateMessage(m.product, Settings(changes))]
  {
    hide Shown, Harmless, S.Replay, Apply, ShownByAll;
    var m := c.l2ChangeCh[0];
    assert InSync(StateOf(c, m.product), Shown(m.product, c.writeCh), history(m.product));
  }
}
