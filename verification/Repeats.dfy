/** Orders placed more than once: what the deduplication window does over whole runs. */
module Repeats {
  import opened Types
  import opened DedupWindow
  import opened Matching
  import opened MarketTheorems
  import opened SharedWindow

  /** The window's range is that of its creation. */
  lemma {:induction false} RangeStays(p: Product, cmds: seq<Command>)
    requires Run(p, cmds).Some?
    ensures var w := Run(p, cmds).value.book.window; w.min == 0 && w.max == 10000 && w.cap == 10000
    decreases |cmds|
  {
    if cmds != [] {
      hide Execute, CanExecute;
      var n := |cmds| - 1;
      assert cmds[..n + 1] == cmds;
      NextRun(p, cmds, n);
      RangeStays(p, cmds[..n]);
    }
  }

  /** A placing in the range, let through or not, marks its id for good. */
  lemma {:induction false} PlacedIsMarked(p: Product, cmds: seq<Command>, i: nat, m: nat)
    requires Run(p, cmds).Some? && i < m <= |cmds| && cmds[i].Place? && 0 < cmds[i].order.id <= 10000
    ensures Run(p, cmds[..m]).Some?
    ensures var w := WindowAt(p, cmds, m); w.cap > 0 && !Accepts(w, cmds[i].order.id)
  {
    hide Execute, CanExecute, Run;
    NextRun(p, cmds, i);
    RangeStays(p, cmds[..i]);
    RangeStays(p, cmds[..i + 1]);
    WindowGrows(p, cmds, i + 1, m);
    RangeStays(p, cmds[..m]);
  }

  /** Over any run, ids repeated or not: an order with an id in (0, 10000] is executed at most once. Its first placing
      decides; any later one is refused, and book and log stay as they are. */
  lemma {:induction false} ExecutedOnce(p: Product, cmds: seq<Command>, i: nat, j: nat)
    requires Run(p, cmds).Some? && i < j < |cmds| && cmds[i].Place? && cmds[j].Place?
    requires cmds[i].order.id == cmds[j].order.id && 0 < cmds[i].order.id <= 10000
    ensures !AcceptedPlace(p, cmds, j)
    ensures Run(p, cmds[..j]).Some? && Run(p, cmds[..j + 1]) == Run(p, cmds[..j])
  {
    hide Run;
    PlacedIsMarked(p, cmds, i, j);
    NextRun(p, cmds, j);
    var a := Run(p, cmds[..j]).value;
    assert a.logs + [] == a.logs;
  }

  /** An id above the range is let through every time. */
  lemma {:induction false} AboveIsAlwaysExecuted(p: Product, cmds: seq<Command>, i: nat)
    requires Run(p, cmds).Some? && i < |cmds| && cmds[i].Place? && cmds[i].order.id > 10000
    ensures AcceptedPlace(p, cmds, i)
  {
    hide Run;
    NextRun(p, cmds, i);
    RangeStays(p, cmds[..i]);
  }

  // ------------------------------------------------------- repeated placings can be left out

  ghost predicate PlacedIn(cmds: seq<Command>, id: int) {
    exists i :: 0 <= i < |cmds| && cmds[i].Place? && cmds[i].order.id == id
  }

  /** The commands without any placing of an id placed before. */
  ghost function FirstPlacings(cmds: seq<Command>): seq<Command> {
    if cmds == [] then []
    else
      var front, last := cmds[..|cmds| - 1], cmds[|cmds| - 1];
      FirstPlacings(front) + if last.Place? && PlacedIn(front, last.order.id) then [] else [last]
  }

  lemma {:induction false} FirstPlacingsPlace(cmds: seq<Command>, id: int)
    ensures PlacedIn(FirstPlacings(cmds), id) <==> PlacedIn(cmds, id)
    decreases |cmds|
  {
    if cmds != [] {
      var n := |cmds| - 1;
      FirstPlacingsPlace(cmds[..n], id);
      assert cmds == cmds[..n] + [cmds[n]];
      PlacedAppend(cmds[..n], cmds[n], id);
      PlacedAppend(FirstPlacings(cmds[..n]), cmds[n], id);
      assert FirstPlacings(cmds[..n]) + [] == FirstPlacings(cmds[..n]);
    }
  }

  lemma {:induction false} PlacedAppend(cmds: seq<Command>, c: Command, id: int)
    ensures PlacedIn(cmds + [c], id) <==> PlacedIn(cmds, id) || (c.Place? && c.order.id == id)
  {
    var all := cmds + [c];
    assert all[|cmds|] == c;
    if PlacedIn(cmds, id) {
      var i :| 0 <= i < |cmds| && cmds[i].Place? && cmds[i].order.id == id;
      assert all[i].Place? && all[i].order.id == id;
    }
  }

  lemma {:induction false} FirstPlacingsDistinct(cmds: seq<Command>)
    ensures DistinctPlaces(FirstPlacings(cmds))
    ensures SanePlaces(cmds) ==> SanePlaces(FirstPlacings(cmds))
    decreases |cmds|
  {
    if cmds != [] {
      var n := |cmds| - 1;
      FirstPlacingsDistinct(cmds[..n]);
      var c := cmds[n];
      if c.Place? {
        FirstPlacingsPlace(cmds[..n], c.order.id);
      }
      var before := FirstPlacings(cmds[..n]);
      forall i | 0 <= i < |before| && before[i].Place? && c.Place? && !PlacedIn(cmds[..n], c.order.id)
        ensures before[i].order.id != c.order.id
      {
      }
    }
  }

  /** A run whose ids are all in (0, 10000], repeated as they may be, is the run of the first placings alone: so every
      theorem about runs with distinct ids is about its book and log. */
  lemma {:induction false} RepeatsChangeNothing(p: Product, cmds: seq<Command>)
    requires Run(p, cmds).Some? && forall i :: 0 <= i < |cmds| && cmds[i].Place? ==> 0 < cmds[i].order.id <= 10000
    ensures Run(p, FirstPlacings(cmds)) == Run(p, cmds) && DistinctPlaces(FirstPlacings(cmds))
    decreases |cmds|
  {
    FirstPlacingsDistinct(cmds);
    if cmds != [] {
      hide Execute, CanExecute, DistinctPlaces;
      var n := |cmds| - 1;
      var front, c := cmds[..n], cmds[n];
      PrefixRuns(p, cmds, n);
      RepeatsChangeNothing(p, front);
      assert cmds[..n + 1] == cmds;
      if c.Place? && PlacedIn(front, c.order.id) {
        var i :| 0 <= i < n && front[i].Place? && front[i].order.id == c.order.id;
        ExecutedOnce(p, cmds, i, n);
        assert FirstPlacings(front) + [] == FirstPlacings(front);
      } else {
        var firsts := FirstPlacings(cmds);
        assert firsts[..|firsts| - 1] == FirstPlacings(front);
      }
    }
  }
}
