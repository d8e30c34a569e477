/** The parts joined by their log: what a crashing engine stores keeps the view in step and settles like the crash-free run. */
module Exchange {
  import opened Types
  import opened Matching
  import opened OrderLives
  import opened FairTrades
  import V = View
  import opened Stream
  import opened ViewRefinement
  import opened LogReader
  import opened EngineSteps
  import opened EngineInvariant
  import opened EngineRuns
  import T = Settlement

  /** The view's orders are limit orders at the price and side they were placed with. */
  ghost predicate Quoted(orders: map<int, V.Entry>, placed: map<int, BookOrder>) {
    forall id :: id in orders ==>
      id in placed && placed[id].kind.Limit? && orders[id].price == placed[id].price && orders[id].side == placed[id].side
  }

  lemma {:induction false} PublishQuoted(s: Feed, offset: int, sequence: int, id: int, size: int, placed: map<int, BookOrder>)
    requires ValidFeed(s) && Quoted(s.book.orders, placed) && id in placed && placed[id].kind.Limit?
    ensures var r := Publish(s, V.SaveOrder(s.book, offset, sequence, id, size, placed[id].price, placed[id].side));
            r.Some? ==> ValidFeed(r.value) && Quoted(r.value.book.orders, placed)
  {
    hide ValidFeed;
    PublishValid(s, offset, sequence, id, size, placed[id].price, placed[id].side);
  }

  lemma {:induction false} StepQuoted(s: Feed, m: Message, placed: map<int, BookOrder>)
    requires ValidFeed(s) && Quoted(s.book.orders, placed) && FairEntry(m.log, placed) && Step(s, m).Some?
    ensures ValidFeed(Step(s, m).value) && Quoted(Step(s, m).value.book.orders, placed)
  {
    hide ValidFeed, V.SaveOrder, Publish;
    match m.log {
      case DoneLog(sequence, id, _, remainingSize, _, _) =>
        if id in s.book.orders {
          PublishQuoted(s, m.offset, sequence, id, s.book.orders[id].size - remainingSize, placed);
        }
      case OpenLog(sequence, id, remainingSize, _, _) =>
        PublishQuoted(s, m.offset, sequence, id, remainingSize, placed);
      case MatchLog(sequence, _, _, id, _, _, size) =>
        PublishQuoted(s, m.offset, sequence, id, s.book.orders[id].size - size, placed);
    }
  }

  lemma {:induction false} FeedStaysValid(ms: seq<Message>, placed: map<int, BookOrder>)
    requires Fair(Logs(ms), placed) && FeedAll(START, ms).Some?
    ensures ValidFeed(FeedAll(START, ms).value) && Quoted(FeedAll(START, ms).value.book.orders, placed)
  {
    if ms == [] {
      StartValid();
    } else {
      hide ValidFeed, Quoted, Step, FairEntry;
      var n := |ms| - 1;
      assert forall i :: 0 <= i < n ==> Logs(ms[..n])[i] == Logs(ms)[i];
      FeedStaysValid(ms[..n], placed);
      assert FairEntry(Logs(ms)[n], placed);
      StepQuoted(FeedAll(START, ms[..n]).value, ms[n], placed);
    }
  }

  /** After every single entry, also between the entries of one order, the view has not panicked and its level index
      and published changes are exact. */
  lemma {:induction false} ViewAlwaysValid(p: Product, cmds: seq<Command>, ms: seq<Message>, k: nat)
    requires ScaleOk(p) && DistinctPlaces(cmds) && SanePlaces(cmds) && Run(p, cmds).Some?
    requires Logs(ms) == Run(p, cmds).value.logs && k <= |ms|
    ensures FeedAll(START, ms[..k]).Some? && ValidFeed(FeedAll(START, ms[..k]).value)
  {
    hide ValidFeed, Fair;
    ViewFollowsBook(p, cmds, ms);
    assert ms == ms[..k] + ms[k..];
    FeedConcat(START, ms[..k], ms[k..]);
    RunFair(p, cmds);
    FairPrefix(Logs(ms), Logs(ms[..k]), PlacedOrders(cmds));
    FeedStaysValid(ms[..k], PlacedOrders(cmds));
  }

  lemma {:induction false} FairPrefix(all: seq<Log>, part: seq<Log>, placed: map<int, BookOrder>)
    requires Fair(all, placed) && part <= all
    ensures Fair(part, placed)
  {
  }

  function Messages(logs: seq<Log>): (ms: seq<Message>)
    ensures Logs(ms) == logs
  {
    if logs == [] then [] else [Message(logs[0], 0)] + Messages(logs[1..])
  }

  lemma {:induction false} LogsConcat(a: seq<Message>, b: seq<Message>)
    ensures Logs(a + b) == Logs(a) + Logs(b)
  {
  }

  /** Over every execution of the engine, crashes included: a view fed by what readers get never panics and stays exact,
      and at quiescence it holds exactly the orders resting in the engine's book. */
  lemma {:induction false} EngineFeedsView(p: Product, input: seq<Command>, run: seq<World>, i: nat)
    requires Clean(p, input) && Execution(p, input, run) && i < |run|
    ensures ReadAll(run[i].topic).Some?
    ensures var s := FeedAll(START, ReadAll(run[i].topic).value.delivered);
            && s.Some? && ValidFeed(s.value)
            && (Quiescent(input, run[i].engine) ==> s.value.book.orders == Entries(RestingOrders(run[i].engine.book)))
  {
    hide Execution, Inv, ValidFeed, FeedAll, Quiescent, High;
    NothingLostOrRepeated(p, input, run, i);
    WholeIsRun(p, input);
    var log, d := WholeLog(p, input), High(run[i].topic);
    var ms := ReadAll(run[i].topic).value.delivered;
    var rest := Messages(log[d..]);
    LogsConcat(ms, rest);
    assert log[..d] + log[d..] == log;
    assert (ms + rest)[..|ms|] == ms;
    ViewAlwaysValid(p, input, ms + rest, |ms|);
    if Quiescent(input, run[i].engine) {
      QuiescenceIsComplete(p, input, run, i);
      assert log[..|log|] == log;
      ViewFollowsBook(p, input, ms);
    }
  }

  /** One of two logs is the beginning of the other. */
  ghost predicate Agree(a: seq<Log>, b: seq<Log>) {
    a <= b || b <= a
  }

  lemma {:induction false} PrefixesAgree(a: seq<Log>, b: seq<Log>, whole: seq<Log>)
    requires a <= whole && b <= whole
    ensures Agree(a, b)
  {
    if |a| <= |b| {
      assert a == whole[..|a|] == b[..|a|];
    } else {
      assert b == whole[..|b|] == a[..|b|];
    }
  }

  lemma {:induction false} MatchedIsPrefix(p: Product, input: seq<Command>, n: nat, w: T.World)
    requires Clean(p, input) && n <= |input|
    requires T.Matched(p, w.topic, w.applied, w.market) && w.topic[..w.applied] == input[..n]
    ensures w.market.logs <= WholeLog(p, input)
  {
    hide Run;
    AtPrefix(p, input, n, |input|);
  }

  /** At every moment of every execution, what readers of a crashing engine get and the log settlement was proved about,
      matched without crashes as far as any order of the same topic, agree; once settlement matched the whole topic,
      readers get a beginning of its log, and at quiescence all of it. */
  lemma {:induction false} EngineFeedsSettlement(p: Product, input: seq<Command>, run: seq<World>, i: nat, n: nat, w: T.World)
    requires Clean(p, input) && Execution(p, input, run) && i < |run| && n <= |input|
    requires T.Matched(p, w.topic, w.applied, w.market) && w.topic[..w.applied] == input[..n]
    ensures ReadAll(run[i].topic).Some?
    ensures var got := Logs(ReadAll(run[i].topic).value.delivered);
            && Agree(got, w.market.logs)
            && (n == |input| ==> got <= w.market.logs)
            && (n == |input| && Quiescent(input, run[i].engine) ==> got == w.market.logs)
  {
    hide Execution, Quiescent, Run, High, Inv;
    NothingLostOrRepeated(p, input, run, i);
    MatchedIsPrefix(p, input, n, w);
    var log := WholeLog(p, input);
    PrefixesAgree(Logs(ReadAll(run[i].topic).value.delivered), w.market.logs, log);
    if n == |input| {
      WholeIsRun(p, input);
      assert input[..n] == input;
      if Quiescent(input, run[i].engine) {
        QuiescenceIsComplete(p, input, run, i);
        assert log[..|log|] == log;
      }
    }
  }
}
