/** Reading the log topic: duplicates are dropped and gaps are fatal. */
module LogReader {
  import opened Types
  import opened Stream

  /** What a reader has delivered, and the last sequence it delivered. */
  datatype Read = Read(delivered: seq<Message>, lastSeq: int)

  /** One fetched entry; None is the fatal exit on a gap. A reader that has nothing yet takes any first sequence. */
  function Fetch(r: Read, log: Log, offset: int): Option<Read> {
    if log.sequence <= r.lastSeq then Some(r)
    else if r.lastSeq > 0 && log.sequence != r.lastSeq + 1 then None
    else Some(Read(r.delivered + [Message(log, offset)], log.sequence))
  }

  /** Reading the topic from one offset up to another, starting after sequence `lastSeq`. */
  function ReadTopic(lastSeq: int, topic: seq<Log>, from: nat, end: nat): Option<Read>
    requires end <= |topic|
    decreases end
  {
    if end <= from then Some(Read([], lastSeq))
    else
      var before := ReadTopic(lastSeq, topic, from, end - 1);
      if before.None? then None else Fetch(before.value, topic[end - 1], end - 1)
  }

  function ReadAll(topic: seq<Log>): Option<Read> {
    ReadTopic(0, topic, 0, |topic|)
  }

  // ------------------------------------------------------- what reading is, said without the reader

  /** The last sequence delivered. */
  function LastOf(lastSeq: int, ms: seq<Message>): int {
    if ms == [] then lastSeq else ms[|ms| - 1].log.sequence
  }

  /** Delivered entries count up one by one, from the next sequence on if the reader has one to go on from. */
  ghost predicate Consecutive(lastSeq: int, ms: seq<Message>) {
    && (forall i :: 0 <= i < |ms| ==> ms[i].log.sequence == ms[0].log.sequence + i)
    && (ms != [] ==> ms[0].log.sequence > lastSeq && (lastSeq > 0 ==> ms[0].log.sequence == lastSeq + 1))
  }

  ghost predicate InPlace(topic: seq<Log>, from: nat, end: nat, ms: seq<Message>)
    requires end <= |topic|
  {
    forall i :: 0 <= i < |ms| ==> from <= ms[i].offset < end && topic[ms[i].offset] == ms[i].log
  }

  /** Each message is the first one above what was delivered before it. */
  ghost predicate FirstAbove(lastSeq: int, topic: seq<Log>, from: nat, ms: seq<Message>) {
    forall i, k :: 0 <= i < |ms| && from <= k < ms[i].offset && k < |topic| ==> topic[k].sequence <= LastOf(lastSeq, ms[..i])
  }

  ghost predicate NoneLeft(lastSeq: int, topic: seq<Log>, from: nat, end: nat, ms: seq<Message>)
    requires end <= |topic|
  {
    forall k :: from <= k < end ==> topic[k].sequence <= LastOf(lastSeq, ms)
  }

  /** The messages are the topic's entries from `from` up to `end`, each the first one above what was delivered before,
      and nothing above is left out. */
  ghost predicate Reads(lastSeq: int, topic: seq<Log>, from: nat, end: nat, ms: seq<Message>)
    requires end <= |topic|
  {
    Consecutive(lastSeq, ms) && InPlace(topic, from, end, ms) && FirstAbove(lastSeq, topic, from, ms) && NoneLeft(lastSeq, topic, from, end, ms)
  }

  /** The next entry is neither delivered before nor the successor of what was. */
  ghost predicate Gap(lastSeq: int, topic: seq<Log>, ms: seq<Message>, k: nat)
    requires k < |topic|
  {
    LastOf(lastSeq, ms) > 0 && topic[k].sequence > LastOf(lastSeq, ms) + 1
  }

  /** Two readings of the same entries end at the same sequence. */
  lemma {:induction false} ReadsAgree(lastSeq: int, topic: seq<Log>, from: nat, end: nat, a: seq<Message>, b: seq<Message>)
    requires end <= |topic| && Reads(lastSeq, topic, from, end, a) && Reads(lastSeq, topic, from, end, b)
    ensures LastOf(lastSeq, a) == LastOf(lastSeq, b)
  {
    if a != [] { assert topic[a[|a| - 1].offset].sequence == LastOf(lastSeq, a); }
    if b != [] { assert topic[b[|b| - 1].offset].sequence == LastOf(lastSeq, b); }
  }

  lemma {:induction false} ReadsStale(lastSeq: int, topic: seq<Log>, from: nat, end: nat, ms: seq<Message>)
    requires from <= end < |topic| && Reads(lastSeq, topic, from, end, ms) && topic[end].sequence <= LastOf(lastSeq, ms)
    ensures Reads(lastSeq, topic, from, end + 1, ms)
  {
    hide Consecutive, FirstAbove;
  }

  lemma {:induction false} ConsecutiveMore(lastSeq: int, ms: seq<Message>, m: Message)
    requires Consecutive(lastSeq, ms) && m.log.sequence > LastOf(lastSeq, ms)
    requires (LastOf(lastSeq, ms) <= 0 && ms == []) || m.log.sequence == LastOf(lastSeq, ms) + 1
    ensures Consecutive(lastSeq, ms + [m])
  {
    var more := ms + [m];
    assert forall i :: 0 <= i < |ms| ==> more[i] == ms[i];
  }

  lemma {:induction false} FirstAboveMore(lastSeq: int, topic: seq<Log>, from: nat, ms: seq<Message>, m: Message)
    requires FirstAbove(lastSeq, topic, from, ms)
    requires forall k :: from <= k < m.offset && k < |topic| ==> topic[k].sequence <= LastOf(lastSeq, ms)
    ensures FirstAbove(lastSeq, topic, from, ms + [m])
  {
    var more := ms + [m];
    forall i, k | 0 <= i < |more| && from <= k < more[i].offset && k < |topic|
      ensures topic[k].sequence <= LastOf(lastSeq, more[..i])
    {
      assert more[..i] == ms[..i];
      assert i == |ms| ==> ms[..i] == ms;
    }
  }

  lemma {:induction false} ReadsNew(lastSeq: int, topic: seq<Log>, from: nat, end: nat, ms: seq<Message>)
    requires from <= end < |topic| && Reads(lastSeq, topic, from, end, ms) && topic[end].sequence > LastOf(lastSeq, ms)
    requires (LastOf(lastSeq, ms) <= 0 && ms == []) || topic[end].sequence == LastOf(lastSeq, ms) + 1
    ensures Reads(lastSeq, topic, from, end + 1, ms + [Message(topic[end], end)])
  {
    hide Consecutive, FirstAbove;
    var m := Message(topic[end], end);
    ConsecutiveMore(lastSeq, ms, m);
    FirstAboveMore(lastSeq, topic, from, ms, m);
    assert LastOf(lastSeq, ms + [m]) == topic[end].sequence;
  }

  lemma {:induction false} FirstIsPositive(lastSeq: int, ms: seq<Message>)
    requires lastSeq >= 0 && Consecutive(lastSeq, ms)
    ensures LastOf(lastSeq, ms) >= 0 && (LastOf(lastSeq, ms) == 0 ==> ms == [])
  {
  }

  lemma {:induction false} OneStep(lastSeq: int, topic: seq<Log>, from: nat, end: nat, ms: seq<Message>)
    requires lastSeq >= 0 && from <= end < |topic| && Reads(lastSeq, topic, from, end, ms)
    ensures var r := Fetch(Read(ms, LastOf(lastSeq, ms)), topic[end], end);
            && (r.None? <==> Gap(lastSeq, topic, ms, end))
            && (r.Some? ==> Reads(lastSeq, topic, from, end + 1, r.value.delivered)
                            && r.value.lastSeq == LastOf(lastSeq, r.value.delivered))
  {
    assert Consecutive(lastSeq, ms);
    FirstIsPositive(lastSeq, ms);
    hide Reads, Consecutive;
    if topic[end].sequence <= LastOf(lastSeq, ms) {
      ReadsStale(lastSeq, topic, from, end, ms);
    } else if LastOf(lastSeq, ms) <= 0 || topic[end].sequence == LastOf(lastSeq, ms) + 1 {
      ReadsNew(lastSeq, topic, from, end, ms);
    }
  }

  /** What was read before a gap, or everything read. */
  ghost predicate GapBefore(lastSeq: int, topic: seq<Log>, from: nat, end: nat)
    requires end <= |topic|
  {
    exists k, ms :: from <= k < end && Reads(lastSeq, topic, from, k, ms) && Gap(lastSeq, topic, ms, k)
  }

  lemma {:induction false} GapNext(lastSeq: int, topic: seq<Log>, from: nat, end: nat, ms: seq<Message>)
    requires from <= end < |topic| && Reads(lastSeq, topic, from, end, ms)
    ensures GapBefore(lastSeq, topic, from, end + 1) <==> GapBefore(lastSeq, topic, from, end) || Gap(lastSeq, topic, ms, end)
  {
    hide Reads;
    forall other | Reads(lastSeq, topic, from, end, other)
      ensures LastOf(lastSeq, other) == LastOf(lastSeq, ms)
    {
      ReadsAgree(lastSeq, topic, from, end, other, ms);
    }
  }

  lemma {:induction false} GapStays(lastSeq: int, topic: seq<Log>, from: nat, end: nat)
    requires from <= end < |topic| && GapBefore(lastSeq, topic, from, end)
    ensures GapBefore(lastSeq, topic, from, end + 1)
  {
    hide Reads, Gap;
  }

  /** The reader does that: it delivers exactly such a reading, and it stops exactly at a gap. */
  lemma {:induction false} ReadsExactly(lastSeq: int, topic: seq<Log>, from: nat, end: nat)
    requires lastSeq >= 0 && from <= end <= |topic|
    ensures var r := ReadTopic(lastSeq, topic, from, end);
            && (r.Some? ==> Reads(lastSeq, topic, from, end, r.value.delivered) && r.value.lastSeq == LastOf(lastSeq, r.value.delivered))
            && (r.None? <==> GapBefore(lastSeq, topic, from, end))
    decreases end
  {
    if from < end {
      hide Reads, Gap, GapBefore, Fetch;
      ReadsExactly(lastSeq, topic, from, end - 1);
      var before := ReadTopic(lastSeq, topic, from, end - 1);
      if before.Some? {
        OneStep(lastSeq, topic, from, end - 1, before.value.delivered);
        GapNext(lastSeq, topic, from, end - 1, before.value.delivered);
      } else {
        GapStays(lastSeq, topic, from, end - 1);
      }
    }
  }

  /** Run(seq, offset) over the messages the topic holds. */
  class KafkaLogReader {
    const topic: seq<Log>
    var delivered: seq<Message>

    constructor (topic: seq<Log>)
      ensures this.topic == topic && delivered == []
    {
      this.topic := topic;
      delivered := [];
    }

    /** Delivers to the observer until the end of the topic or a gap, and then everything up to the gap. */
    method Run(lastSeq0: int, offset: nat) returns (fatal: bool)
      requires delivered == [] && offset <= |topic|
      modifies this`delivered
      ensures fatal <==> ReadTopic(lastSeq0, topic, offset, |topic|).None?
      ensures !fatal ==> delivered == ReadTopic(lastSeq0, topic, offset, |topic|).value.delivered
      ensures fatal ==> exists gap :: offset <= gap < |topic| && ReadTopic(lastSeq0, topic, offset, gap).Some?
                                      && ReadTopic(lastSeq0, topic, offset, gap + 1).None?
                                      && delivered == ReadTopic(lastSeq0, topic, offset, gap).value.delivered
      ensures lastSeq0 >= 0 && !fatal ==> Reads(lastSeq0, topic, offset, |topic|, delivered)
      ensures lastSeq0 >= 0 ==>
                (fatal <==> exists k :: offset <= k < |topic| && Reads(lastSeq0, topic, offset, k, delivered)
                                        && Gap(lastSeq0, topic, delivered, k))
    {
      if lastSeq0 >= 0 {
        ReadsExactly(lastSeq0, topic, offset, |topic|);
        forall k | offset <= k <= |topic|
          ensures ReadTopic(lastSeq0, topic, offset, k).Some? ==>
                    Reads(lastSeq0, topic, offset, k, ReadTopic(lastSeq0, topic, offset, k).value.delivered)
                    && ReadTopic(lastSeq0, topic, offset, k).value.lastSeq == LastOf(lastSeq0, ReadTopic(lastSeq0, topic, offset, k).value.delivered)
        {
          ReadsExactly(lastSeq0, topic, offset, k);
        }
      }
      hide Reads;
      var lastSeq := lastSeq0;
      var i := offset;
      while i < |topic|
        invariant offset <= i <= |topic|
        invariant ReadTopic(lastSeq0, topic, offset, i) == Some(Read(delivered, lastSeq))
      {
        var base := topic[i];
        i := i + 1;
        if base.sequence <= lastSeq {
          continue;
        } else if lastSeq > 0 && base.sequence != lastSeq + 1 {
          GapIsFinal(lastSeq0, topic, offset, i, |topic|);
          assert ReadTopic(lastSeq0, topic, offset, (i - 1) + 1).None?;
          return true;
        }
        lastSeq := base.sequence;
        delivered := delivered + [Message(base, i - 1)];
      }
      return false;
    }
  }

  lemma {:induction false} GapIsFinal(lastSeq: int, topic: seq<Log>, from: nat, end: nat, stop: nat)
    requires from <= end <= stop <= |topic| && ReadTopic(lastSeq, topic, from, end).None?
    ensures ReadTopic(lastSeq, topic, from, stop).None?
    decreases stop
  {
    if end < stop {
      GapIsFinal(lastSeq, topic, from, end, stop - 1);
    }
  }

  /** Reading on from a position is reading on with what is left to read. */
  lemma {:induction false} ReadOn(lastSeq: int, topic: seq<Log>, from: nat, mid: nat, end: nat)
    requires from <= mid <= end <= |topic| && ReadTopic(lastSeq, topic, from, mid).Some?
    ensures var r := ReadTopic(lastSeq, topic, from, mid).value;
            var rest := ReadTopic(r.lastSeq, topic, mid, end);
            ReadTopic(lastSeq, topic, from, end) ==
              if rest.None? then None else Some(Read(r.delivered + rest.value.delivered, rest.value.lastSeq))
    decreases end
  {
    var r := ReadTopic(lastSeq, topic, from, mid).value;
    if end == mid {
      assert r.delivered + [] == r.delivered;
    } else {
      ReadOn(lastSeq, topic, from, mid, end - 1);
      var rest := ReadTopic(r.lastSeq, topic, mid, end - 1);
      if rest.Some? {
        var m := [Message(topic[end - 1], end - 1)];
        assert r.delivered + (rest.value.delivered + m) == r.delivered + rest.value.delivered + m;
      }
    }
  }

  lemma {:induction false} ReadPrefix(lastSeq: int, topic: seq<Log>, more: seq<Log>, from: nat, end: nat)
    requires end <= |topic|
    ensures ReadTopic(lastSeq, topic + more, from, end) == ReadTopic(lastSeq, topic, from, end)
    decreases end
  {
    if from < end {
      ReadPrefix(lastSeq, topic, more, from, end - 1);
    }
  }

  /** A gapless log counts 1, 2, 3, ... */
  ghost predicate Contiguous(log: seq<Log>) {
    forall i :: 0 <= i < |log| ==> log[i].sequence == i + 1
  }

  /** The topic delivers exactly the first d entries of the log, each once and in order. */
  ghost predicate Delivers(topic: seq<Log>, log: seq<Log>, d: nat) {
    d <= |log| && ReadAll(topic).Some? && Logs(ReadAll(topic).value.delivered) == log[..d] && ReadAll(topic).value.lastSeq == d
  }

  lemma {:induction false} LogsAppend(a: seq<Message>, m: Message)
    ensures Logs(a + [m]) == Logs(a) + [m.log]
  {
    assert forall i :: 0 <= i < |a| ==> Logs(a + [m])[i] == (a + [m])[i].log == a[i].log;
  }

  lemma {:induction false} FetchNext(topic: seq<Log>, log: seq<Log>, d: nat, i: nat)
    requires Contiguous(log) && Delivers(topic, log, d) && i <= d && i < |log|
    ensures Delivers(topic + [log[i]], log, if i == d then d + 1 else d)
  {
    var t := topic + [log[i]];
    ReadPrefix(0, topic, [log[i]], 0, |topic|);
    var r := ReadAll(topic).value;
    assert ReadAll(t) == Fetch(r, log[i], |topic|);
    LogsAppend(r.delivered, Message(log[i], |topic|));
    if i == d {
      assert log[..d + 1] == log[..d] + [log[d]];
    }
  }

  /** Appending a stretch of the log that starts no later than what is delivered delivers the rest of it once. */
  lemma {:induction false} AppendStretch(topic: seq<Log>, log: seq<Log>, d: nat, a: nat, b: nat)
    requires Contiguous(log) && Delivers(topic, log, d) && a <= d && a <= b <= |log| && d <= |log|
    ensures Delivers(topic + log[a..b], log, if b > d then b else d)
    decreases b
  {
    hide Delivers, Contiguous;
    if a == b {
      assert topic + log[a..b] == topic;
    } else {
      AppendStretch(topic, log, d, a, b - 1);
      var before := topic + log[a..b - 1];
      assert topic + log[a..b] == before + [log[b - 1]];
      FetchNext(before, log, if b - 1 > d then b - 1 else d, b - 1);
    }
  }

  lemma {:induction false} EmptyTopicDelivers(log: seq<Log>)
    ensures Delivers([], log, 0)
  {
  }

  /** A reader delivers only what is stored. */
  lemma {:induction false} NeverMakesUp(lastSeq: int, topic: seq<Log>, from: nat, end: nat)
    requires from <= end <= |topic|
    ensures ReadTopic(lastSeq, topic, from, end).Some? ==>
              forall m :: m in ReadTopic(lastSeq, topic, from, end).value.delivered ==> m.log in topic[from..end]
    decreases end
  {
    if from < end {
      NeverMakesUp(lastSeq, topic, from, end - 1);
      assert topic[from..end] == topic[from..end - 1] + [topic[end - 1]];
    }
  }

  lemma {:induction false} DeliveredIsStored(topic: seq<Log>, log: seq<Log>, d: nat)
    requires Delivers(topic, log, d)
    ensures forall i :: 0 <= i < d ==> log[i] in topic
  {
    var ms := ReadAll(topic).value.delivered;
    NeverMakesUp(0, topic, 0, |topic|);
    assert topic[0..|topic|] == topic;
    forall i | 0 <= i < d
      ensures log[i] in topic
    {
      assert log[..d][i] == log[i] && Logs(ms)[i] == ms[i].log && ms[i] in ms;
    }
  }

  lemma {:induction false} NoneAbove(lastSeq: int, topic: seq<Log>, end: nat)
    requires end <= |topic| && ReadTopic(lastSeq, topic, 0, end).Some?
    ensures lastSeq <= ReadTopic(lastSeq, topic, 0, end).value.lastSeq
    ensures forall i :: 0 <= i < end ==> topic[i].sequence <= ReadTopic(lastSeq, topic, 0, end).value.lastSeq
    decreases end
  {
    if end > 0 {
      NoneAbove(lastSeq, topic, end - 1);
    }
  }

  lemma {:induction false} SkippedIsNotStored(topic: seq<Log>, log: seq<Log>, d: nat, s: nat, e: nat)
    requires Contiguous(log) && Delivers(topic, log, d) && d < s <= e <= |log|
    ensures log[d] !in topic + log[s..e]
  {
    NoneAbove(0, topic, |topic|);
    assert forall i :: 0 <= i < e - s ==> log[s..e][i].sequence == s + i + 1;
  }

  /** A restart, exactly: readers have got d entries, and the engine restarted from a snapshot at sequence s stores the
      entries after s up to e. The reader goes on along the crash-free log if and only if what the snapshot contains was
      stored, s <= d. */
  lemma {:induction false} CrashFreeExactly(topic: seq<Log>, log: seq<Log>, d: nat, s: nat, e: nat)
    requires Contiguous(log) && Delivers(topic, log, d) && s <= e <= |log|
    ensures Delivers(topic + log[s..e], log, if e > d then e else d) <==> s <= d
  {
    var t := topic + log[s..e];
    if s <= d {
      AppendStretch(topic, log, d, s, e);
    } else {
      SkippedIsNotStored(topic, log, d, s, e);
      if Delivers(t, log, e) {
        DeliveredIsStored(t, log, e);
      }
    }
  }
}
