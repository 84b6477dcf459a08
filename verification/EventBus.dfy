/** Publish and subscribe with bounded replay (backend/app/modules/notification/event_bus.py). */
module EventBus {
  import opened Common

  type Topic = string

  /** Numbered events; the number 0 marks the one notice that is made up when a topic is dropped. */
  datatype Event = Event(number: nat, topic: Topic, kind: string, body: string)

  type Rings = map<Topic, seq<Event>>

  /** What waits for one subscriber. `gap` counts the waiting events that precede the first one refused. */
  datatype Mailbox = Mailbox(queue: seq<Event>, overrun: bool, gap: Option<nat>)

  const REPLAY_BUFFER: nat := 200
  const SUBSCRIBER_QUEUE_SIZE: nat := 100

  // ------------------------------------------------------------------ subscribers

  /** A full queue refuses the event and remembers that it did. */
  function Offered(m: Mailbox, e: Event): Mailbox {
    if |m.queue| < SUBSCRIBER_QUEUE_SIZE then m.(queue := m.queue + [e])
    else m.(overrun := true, gap := if m.gap == None then Some(|m.queue|) else m.gap)
  }

  /** Taking the head; what precedes the gap is one fewer. */
  function Taken(m: Mailbox): Mailbox
    requires m.queue != []
  {
    m.(queue := m.queue[1..],
       gap := if m.gap.Some? && m.gap.value > 0 then Some(m.gap.value - 1) else m.gap)
  }

  /** The waiting events that are certain to be a gap-free continuation of what was delivered. */
  function GapFree(m: Mailbox): seq<Event> {
    if m.gap.Some? && m.gap.value <= |m.queue| then m.queue[..m.gap.value] else m.queue
  }

  ghost predicate MailboxOk(m: Mailbox) {
    && |m.queue| <= SUBSCRIBER_QUEUE_SIZE
    && (m.overrun <==> m.gap.Some?)
    && (m.gap.Some? ==> m.gap.value <= |m.queue|)
  }

  // ------------------------------------------------------------------ rings

  function LastOf(s: seq<Event>, n: nat): seq<Event> {
    if |s| <= n then s else s[|s| - n..]
  }

  function RingFor(rings: Rings, t: Topic): seq<Event> { if t in rings then rings[t] else [] }

  function Appended(rings: Rings, e: Event, replay: nat): Rings {
    rings[e.topic := LastOf(RingFor(rings, e.topic) + [e], replay)]
  }

  /** The event goes to the end of its own topic's ring, whose oldest make room for it; no other ring changes. */
  lemma AppendedExactly(rings: Rings, e: Event, replay: nat)
    ensures var after := Appended(rings, e, replay);
            var ring, all := RingFor(after, e.topic), RingFor(rings, e.topic) + [e];
            && |ring| == Min(|all|, replay) && IsTail(all, ring)
            && forall t :: t != e.topic ==> RingFor(after, t) == RingFor(rings, t)
  {
  }

  function Newer(ring: seq<Event>, last: nat): seq<Event> {
    if ring == [] then [] else (if ring[0].number > last then [ring[0]] else []) + Newer(ring[1..], last)
  }

  function Missed(rings: Rings, topics: seq<Topic>, last: nat): seq<Event> {
    if topics == [] then [] else Newer(RingFor(rings, topics[0]), last) + Missed(rings, topics[1..], last)
  }

  function Insert(e: Event, s: seq<Event>): (r: seq<Event>)
    ensures multiset(r) == multiset([e]) + multiset(s)
  {
    if s == [] || e.number <= s[0].number then [e] + s
    else
      assert s == [s[0]] + s[1..];
      [s[0]] + Insert(e, s[1..])
  }

  function SortBySeq(s: seq<Event>): (r: seq<Event>)
    ensures multiset(r) == multiset(s)
  {
    if s == [] then []
    else
      assert s == [s[0]] + s[1..];
      Insert(s[0], SortBySeq(s[1..]))
  }

  /** Everything after `last` that is still in the rings, in global order. */
  function ReplayOf(rings: Rings, topics: seq<Topic>, last: nat): seq<Event> {
    SortBySeq(Missed(rings, topics, last))
  }

  /** The least first number over the topics that hold anything; 0 when none does. */
  function OldestOf(rings: Rings, topics: seq<Topic>): nat {
    if topics == [] then 0
    else
      var ring, rest := RingFor(rings, topics[0]), OldestOf(rings, topics[1..]);
      if ring == [] then rest
      else if rest == 0 then ring[0].number
      else Min(ring[0].number, rest)
  }

  // ------------------------------------------------------------------ what replay means

  ghost predicate Ascending(s: seq<Event>) {
    forall i, j :: 0 <= i < j < |s| ==> s[i].number < s[j].number
  }

  ghost predicate NeverDescending(s: seq<Event>) {
    forall i, j :: 0 <= i < j < |s| ==> s[i].number <= s[j].number
  }

  /** Everything ever published, in order: the n-th event has number n. */
  ghost predicate IsLog(log: seq<Event>) {
    forall i :: 0 <= i < |log| ==> log[i].number == i + 1
  }

  /** Each ring holds the latest logged events of its own topic, in order. */
  ghost predicate RingsOk(rings: Rings, log: seq<Event>) {
    forall t :: t in rings ==> RingOk(rings[t], t, log)
  }

  ghost predicate RingOk(ring: seq<Event>, t: Topic, log: seq<Event>) {
    && Ascending(ring)
    && (forall i :: 0 <= i < |ring| ==> ring[i] in log && ring[i].topic == t)
    && IsTail(OfTopic(log, t), ring)
  }

  predicate IsTail(s: seq<Event>, t: seq<Event>) { |t| <= |s| && s[|s| - |t|..] == t }

  ghost predicate NoRepeats(topics: seq<Topic>) {
    forall i, j :: 0 <= i < j < |topics| ==> topics[i] != topics[j]
  }

  lemma {:induction false} NewerContains(ring: seq<Event>, last: nat, e: Event)
    ensures e in Newer(ring, last) <==> e in ring && e.number > last
  {
    if ring != [] {
      NewerContains(ring[1..], last, e);
      assert e in ring <==> e == ring[0] || e in ring[1..];
    }
  }

  lemma {:induction false} MissedContains(rings: Rings, topics: seq<Topic>, last: nat, e: Event)
    requires forall t :: t in rings ==> forall i :: 0 <= i < |rings[t]| ==> rings[t][i].topic == t
    ensures e in Missed(rings, topics, last) <==> e.topic in topics && e in RingFor(rings, e.topic) && e.number > last
  {
    if topics != [] {
      NewerContains(RingFor(rings, topics[0]), last, e);
      MissedContains(rings, topics[1..], last, e);
      assert e.topic in topics <==> e.topic == topics[0] || e.topic in topics[1..];
    }
  }

  lemma {:induction false} SortedInsert(e: Event, s: seq<Event>)
    requires NeverDescending(s)
    ensures NeverDescending(Insert(e, s))
  {
    if s != [] && e.number > s[0].number {
      SortedInsert(e, s[1..]);
      var r := Insert(e, s[1..]);
      forall k | 0 <= k < |r|
        ensures s[0].number <= r[k].number
      {
        assert r[k] in multiset(r);
        if r[k] != e { assert r[k] in multiset(s[1..]); }
      }
    }
  }

  lemma {:induction false} SortSorts(s: seq<Event>)
    ensures NeverDescending(SortBySeq(s))
  {
    if s != [] {
      SortSorts(s[1..]);
      SortedInsert(s[0], SortBySeq(s[1..]));
    }
  }

  lemma SameElements(s: seq<Event>, e: Event)
    ensures e in SortBySeq(s) <==> e in s
  {
    assert e in SortBySeq(s) <==> e in multiset(SortBySeq(s));
  }

  lemma LoggedOnce(log: seq<Event>, d: Event, e: Event)
    requires IsLog(log) && d in log && e in log && d.number == e.number
    ensures d == e
  {
  }

  lemma {:induction false} NewerOnce(ring: seq<Event>, last: nat, e: Event)
    requires Ascending(ring)
    ensures multiset(Newer(ring, last))[e] <= 1
  {
    if ring != [] {
      NewerOnce(ring[1..], last, e);
      NewerContains(ring[1..], last, e);
      assert e in ring[1..] ==> e.number > ring[0].number;
    }
  }

  lemma {:induction false} MissedOnce(rings: Rings, topics: seq<Topic>, last: nat, log: seq<Event>, e: Event)
    requires RingsOk(rings, log) && NoRepeats(topics)
    ensures multiset(Missed(rings, topics, last))[e] <= 1
  {
    if topics != [] {
      var head := Newer(RingFor(rings, topics[0]), last);
      NewerOnce(RingFor(rings, topics[0]), last, e);
      MissedOnce(rings, topics[1..], last, log, e);
      NewerContains(RingFor(rings, topics[0]), last, e);
      MissedContains(rings, topics[1..], last, e);
      assert multiset(Missed(rings, topics, last)) == multiset(head) + multiset(Missed(rings, topics[1..], last));
    }
  }

  lemma {:induction false} NewerAppend(ring: seq<Event>, e: Event, last: nat)
    ensures Newer(ring + [e], last) == Newer(ring, last) + (if e.number > last then [e] else [])
  {
    var tail := if e.number > last then [e] else [];
    if ring == [] {
      assert [e][1..] == [] && ring + [e] == [e] && tail + [] == [] + tail;
    } else {
      NewerAppend(ring[1..], e, last);
      assert (ring + [e])[1..] == ring[1..] + [e];
      var head := if ring[0].number > last then [ring[0]] else [];
      assert head + (Newer(ring[1..], last) + tail) == (head + Newer(ring[1..], last)) + tail;
    }
  }

  lemma {:induction false} MissedAppend(rings: Rings, topics: seq<Topic>, t: Topic, last: nat)
    ensures Missed(rings, topics + [t], last) == Missed(rings, topics, last) + Newer(RingFor(rings, t), last)
  {
    var tail := Newer(RingFor(rings, t), last);
    if topics == [] {
      assert [t][1..] == [] && topics + [t] == [t];
      assert tail + [] == [] + tail;
    } else {
      MissedAppend(rings, topics[1..], t, last);
      assert (topics + [t])[1..] == topics[1..] + [t];
      var head := Newer(RingFor(rings, topics[0]), last);
      assert head + (Missed(rings, topics[1..], last) + tail) == (head + Missed(rings, topics[1..], last)) + tail;
    }
  }

  /** Even when a topic is listed twice. */
  lemma ReplayIsThere(rings: Rings, topics: seq<Topic>, last: nat, log: seq<Event>)
    requires RingsOk(rings, log)
    ensures NeverDescending(ReplayOf(rings, topics, last))
    ensures forall e :: e in ReplayOf(rings, topics, last) <==>
              e.topic in topics && e in RingFor(rings, e.topic) && e.number > last
  {
    var missed := Missed(rings, topics, last);
    SortSorts(missed);
    forall e
      ensures e in ReplayOf(rings, topics, last) <==>
              e.topic in topics && e in RingFor(rings, e.topic) && e.number > last
    {
      SameElements(missed, e);
      MissedContains(rings, topics, last, e);
    }
  }

  /** Replay is strictly in order and is exactly what the rings of the topics still hold after the cursor. */
  lemma ReplayIsExact(rings: Rings, topics: seq<Topic>, last: nat, log: seq<Event>)
    requires IsLog(log) && RingsOk(rings, log) && NoRepeats(topics)
    ensures Ascending(ReplayOf(rings, topics, last))
    ensures forall e :: e in ReplayOf(rings, topics, last) <==>
              e.topic in topics && e in RingFor(rings, e.topic) && e.number > last
  {
    var r := ReplayOf(rings, topics, last);
    ReplayIsThere(rings, topics, last, log);
    forall i, j | 0 <= i < j < |r|
      ensures r[i].number < r[j].number
    {
      if r[i].number == r[j].number {
        assert r[i] in r && r[j] in r;
        LoggedOnce(log, r[i], r[j]);
        MissedOnce(rings, topics, last, log, r[i]);
        TwicePresent(r, i, j);
        assert false;
      }
    }
  }

  lemma TwicePresent(s: seq<Event>, i: nat, j: nat)
    requires i < j < |s| && s[i] == s[j]
    ensures multiset(s)[s[i]] >= 2
  {
    assert s == s[..j] + s[j..];
    assert s[i] == s[..j][i];
    assert s[j] == s[j..][0];
    assert multiset(s) == multiset(s[..j]) + multiset(s[j..]);
    assert s[i] in multiset(s[..j]) && s[j] in multiset(s[j..]);
  }

  lemma {:induction false} OldestIsLeast(rings: Rings, topics: seq<Topic>, log: seq<Event>, t: Topic)
    requires IsLog(log) && RingsOk(rings, log)
    requires t in topics && RingFor(rings, t) != []
    ensures 0 < OldestOf(rings, topics) <= RingFor(rings, t)[0].number
  {
    hide Ascending;
    assert RingFor(rings, t)[0] in log;
    if t != topics[0] { OldestIsLeast(rings, topics[1..], log, t); }
    if RingFor(rings, topics[0]) != [] { assert RingFor(rings, topics[0])[0] in log; }
  }

  lemma {:induction false} OldestIsSomeones(rings: Rings, topics: seq<Topic>) returns (t: Topic)
    requires OldestOf(rings, topics) != 0
    ensures t in topics && RingFor(rings, t) != [] && OldestOf(rings, topics) == RingFor(rings, t)[0].number
  {
    var ring, rest := RingFor(rings, topics[0]), OldestOf(rings, topics[1..]);
    if ring == [] || (rest != 0 && rest < ring[0].number) {
      t := OldestIsSomeones(rings, topics[1..]);
    } else {
      t := topics[0];
    }
  }

  lemma HeadIsNumbered(rings: Rings, t: Topic, log: seq<Event>)
    requires IsLog(log) && RingsOk(rings, log) && RingFor(rings, t) != []
    ensures RingFor(rings, t)[0].number > 0
  {
    hide OfTopic, IsTail, Ascending;
    assert RingOk(rings[t], t, log);
    assert rings[t][0] in log;
  }

  /** Being least and being somebody's determine the oldest. */
  lemma OldestIsUnique(rings: Rings, topics: seq<Topic>, log: seq<Event>, oldest: nat)
    requires IsLog(log) && RingsOk(rings, log)
    requires forall t :: t in topics && RingFor(rings, t) != [] ==> oldest <= RingFor(rings, t)[0].number
    requires if oldest == 0 then forall t :: t in topics ==> RingFor(rings, t) == []
             else exists t :: t in topics && RingFor(rings, t) != [] && RingFor(rings, t)[0].number == oldest
    ensures oldest == OldestOf(rings, topics)
  {
    hide RingsOk, IsLog, OldestOf;
    if oldest != 0 {
      var t :| t in topics && RingFor(rings, t) != [] && RingFor(rings, t)[0].number == oldest;
      OldestIsLeast(rings, topics, log, t);
    }
    if OldestOf(rings, topics) != 0 {
      var t := OldestIsSomeones(rings, topics);
    }
  }

  // ------------------------------------------------------------------ how far a ring reaches

  function OfTopic(log: seq<Event>, t: Topic): seq<Event> {
    if log == [] then []
    else
      var rest := OfTopic(log[..|log| - 1], t);
      if log[|log| - 1].topic == t then rest + [log[|log| - 1]] else rest
  }

  /** The rings after everything in the log has been published and no topic dropped. */
  function RingsAfter(log: seq<Event>, replay: nat): Rings {
    if log == [] then map[] else Appended(RingsAfter(log[..|log| - 1], replay), log[|log| - 1], replay)
  }

  /** A ring is exactly the last `replay` events of its topic. */
  lemma {:induction false} RingsHoldTheLatest(log: seq<Event>, replay: nat, t: Topic)
    ensures RingFor(RingsAfter(log, replay), t) == LastOf(OfTopic(log, t), replay)
    decreases |log|
  {
    hide LastOf;
    if log != [] {
      var front, e := log[..|log| - 1], log[|log| - 1];
      RingsHoldTheLatest(front, replay, t);
      KeepingTheLatest(OfTopic(front, t), e, replay);
    } else {
      KeepingNothing(replay);
    }
  }

  lemma KeepingTheLatest(s: seq<Event>, e: Event, n: nat)
    ensures LastOf(LastOf(s, n) + [e], n) == LastOf(s + [e], n)
  {
  }

  lemma KeepingNothing(n: nat)
    ensures LastOf([], n) == []
  {
  }

  lemma {:induction false} OfTopicContains(log: seq<Event>, t: Topic, e: Event)
    ensures e in OfTopic(log, t) <==> e in log && e.topic == t
    decreases |log|
  {
    if log != [] {
      var front := log[..|log| - 1];
      OfTopicContains(front, t, e);
      assert log == front + [log[|log| - 1]];
    }
  }

  /** The ring of t still holds everything published on t after the cursor. */
  ghost predicate Reaches(rings: Rings, log: seq<Event>, t: Topic, cursor: nat) {
    forall e :: e in log && e.topic == t && e.number > cursor ==> e in RingFor(rings, t)
  }

  /** The number before the first event a ring holds; everything is missing from an empty one. */
  function HeldFrom(ring: seq<Event>, latest: nat): nat {
    if ring == [] then latest else if ring[0].number == 0 then 0 else ring[0].number - 1
  }

  /** From there on a ring holds everything published on its topic. */
  lemma HeldAbove(log: seq<Event>, ring: seq<Event>, t: Topic, e: Event)
    requires IsLog(log) && RingOk(ring, t, log)
    requires e in log && e.topic == t && e.number > HeldFrom(ring, |log|)
    ensures e in ring
  {
    var all := OfTopic(log, t);
    OfTopicContains(log, t, e);
    assert log[0..] == log;
    SuffixAscends(log, t, 0);
    hide OfTopic;
    var k :| 0 <= k < |all| && all[k] == e;
    var from := |all| - |ring|;
    assert forall i :: 0 <= i < |ring| ==> ring[i] == all[from + i];
    assert ring != [] by { Numbered(log, e); }
    assert forall i :: 0 <= i < from ==> all[i].number < all[from].number;
    assert k >= from;
    assert ring[k - from] == e;
  }

  lemma Numbered(log: seq<Event>, e: Event)
    requires IsLog(log) && e in log
    ensures 0 < e.number <= |log| && log[e.number - 1] == e
  {
  }

  lemma RingsStayOk(rings: Rings, log: seq<Event>, e: Event, replay: nat)
    requires IsLog(log) && RingsOk(rings, log) && e.number == |log| + 1
    ensures IsLog(log + [e]) && RingsOk(Appended(rings, e, replay), log + [e])
  {
    hide OfTopic;
    var after := Appended(rings, e, replay);
    forall t | t in after
      ensures RingOk(after[t], t, log + [e])
    {
      OneMoreOfTopic(log, e, t);
      if t == e.topic {
        RingGrows(RingFor(rings, t), t, log, e, replay);
      } else {
        RingStays(rings[t], t, log, e);
      }
    }
  }

  lemma OneMoreOfTopic(log: seq<Event>, e: Event, t: Topic)
    ensures OfTopic(log + [e], t) == if e.topic == t then OfTopic(log, t) + [e] else OfTopic(log, t)
  {
    assert (log + [e])[..|log|] == log;
  }

  lemma RingStays(ring: seq<Event>, t: Topic, log: seq<Event>, e: Event)
    requires RingOk(ring, t, log) && OfTopic(log + [e], t) == OfTopic(log, t)
    ensures RingOk(ring, t, log + [e])
  {
  }

  lemma RingGrows(ring: seq<Event>, t: Topic, log: seq<Event>, e: Event, replay: nat)
    requires IsLog(log) && (ring == [] || RingOk(ring, t, log)) && e.number == |log| + 1 && e.topic == t
    requires OfTopic(log + [e], t) == OfTopic(log, t) + [e]
    ensures RingOk(LastOf(ring + [e], replay), t, log + [e])
  {
    hide OfTopic, LastOf, IsTail;
    TailGrows(OfTopic(log, t), ring, e) by { if ring == [] { NothingIsATail(OfTopic(log, t)); } }
    forall i | 0 <= i < |ring|
      ensures ring[i].number < e.number && ring[i] in log + [e]
    {
      assert ring[i] in log;
    }
    RingIsTrimmed(ring + [e], t, log + [e], replay);
  }

  lemma NothingIsATail(s: seq<Event>)
    ensures IsTail(s, [])
  {
  }

  lemma TailGrows(s: seq<Event>, t: seq<Event>, e: Event)
    requires IsTail(s, t)
    ensures IsTail(s + [e], t + [e])
  {
  }

  lemma RingIsTrimmed(ring: seq<Event>, t: Topic, log: seq<Event>, replay: nat)
    requires RingOk(ring, t, log)
    ensures RingOk(LastOf(ring, replay), t, log)
  {
    hide OfTopic, IsTail;
    var kept := LastOf(ring, replay);
    var k := |ring| - |kept|;
    assert kept == ring[k..];
    assert forall i :: 0 <= i < |kept| ==> kept[i] == ring[k + i];
    TailOfTail(OfTopic(log, t), ring, k);
  }

  lemma TailOfTail(s: seq<Event>, t: seq<Event>, k: nat)
    requires IsTail(s, t) && k <= |t|
    ensures IsTail(s, t[k..])
  {
    assert s[|s| - |t|..][k..] == s[|s| - |t| + k..];
  }

  lemma {:induction false} OfTopicSplits(a: seq<Event>, b: seq<Event>, t: Topic)
    ensures OfTopic(a + b, t) == OfTopic(a, t) + OfTopic(b, t)
    decreases |b|
  {
    if b == [] {
      assert a + b == a;
    } else {
      OfTopicSplits(a, b[..|b| - 1], t);
      assert (a + b)[..|a + b| - 1] == a + b[..|b| - 1];
    }
  }

  /** Of a sorted sequence, the last `n` include everything beyond a cut exactly when that is at most `n`. */
  lemma LastOfReaches(a: seq<Event>, b: seq<Event>, n: nat, cursor: nat)
    requires forall i :: 0 <= i < |a| ==> a[i].number <= cursor
    requires Ascending(b) && forall i :: 0 <= i < |b| ==> b[i].number > cursor
    ensures (forall e :: e in a + b && e.number > cursor ==> e in LastOf(a + b, n)) <==> |b| <= n
  {
    var s, r := a + b, LastOf(a + b, n);
    if |b| <= n {
      forall e | e in s && e.number > cursor
        ensures e in r
      {
        var k :| 0 <= k < |s| && s[k] == e;
        assert k >= |a|;
        assert r[|r| - |s| + k] == e;
      }
    } else {
      assert s[|a|] == b[0];
      forall i | 0 <= i < |r|
        ensures r[i] != b[0]
      {
        assert r[i] == b[|b| - n + i];
      }
    }
  }

  /** A ring that was never dropped reaches the cursor exactly when no more than its capacity was published since. */
  lemma RingReach(log: seq<Event>, replay: nat, t: Topic, cursor: nat)
    requires IsLog(log) && cursor <= |log|
    ensures Reaches(RingsAfter(log, replay), log, t, cursor) <==> |OfTopic(log[cursor..], t)| <= replay
  {
    hide Ascending, LastOf, OfTopic, RingsAfter;
    var before, since := OfTopic(log[..cursor], t), OfTopic(log[cursor..], t);
    RingsHoldTheLatest(log, replay, t);
    OfTopicSplits(log[..cursor], log[cursor..], t);
    assert log == log[..cursor] + log[cursor..];
    SuffixAscends(log, t, cursor);
    forall i | 0 <= i < |before|
      ensures before[i].number <= cursor
    {
      OfTopicContains(log[..cursor], t, before[i]);
    }
    LastOfReaches(before, since, replay, cursor);
    forall e
      ensures e in before + since <==> e in log && e.topic == t
    {
      OfTopicContains(log, t, e);
    }
  }

  lemma {:induction false} SuffixAscends(log: seq<Event>, t: Topic, cursor: nat)
    requires IsLog(log) && cursor <= |log|
    ensures var since := OfTopic(log[cursor..], t);
            Ascending(since) && forall i :: 0 <= i < |since| ==> since[i].number > cursor
    decreases |log|
  {
    var since := OfTopic(log[cursor..], t);
    if cursor < |log| {
      var front := log[..|log| - 1];
      SuffixAscends(front, t, cursor);
      assert log[cursor..][..|log| - 1 - cursor] == front[cursor..];
      forall i | 0 <= i < |OfTopic(front[cursor..], t)|
        ensures OfTopic(front[cursor..], t)[i].number < |log|
      {
        OfTopicContains(front[cursor..], t, OfTopic(front[cursor..], t)[i]);
      }
    }
  }

  // ------------------------------------------------------------------ the bus

  class Subscriber {
    const topics: set<Topic>
    var queue: seq<Event>
    var overrun: bool
    ghost var gap: Option<nat>

    ghost function View(): Mailbox
      reads this
    {
      Mailbox(queue, overrun, gap)
    }

    constructor (topics: set<Topic>)
      ensures this.topics == topics && View() == Mailbox([], false, None)
    {
      this.topics := topics;
      queue, overrun, gap := [], false, None;
    }

    /** Never waits: the publisher must not be held up by a slow reader. */
    method Offer(e: Event)
      modifies this
      ensures View() == Offered(old(View()), e)
      ensures if |old(queue)| < 100 then queue == old(queue) + [e] && overrun == old(overrun)
              else queue == old(queue) && overrun
    {
      if |queue| < SUBSCRIBER_QUEUE_SIZE {
        queue := queue + [e];
      } else {
        overrun := true;
        if gap == None { gap := Some(|queue|); }
      }
    }

    /** The first half of `next`: an overrun reader is turned away before it waits. */
    method BeginNext() returns (raised: bool)
      ensures raised == overrun
    {
      raised := overrun;
    }

    /** The second half, after whatever happened during the wait: the head, or nothing when the wait timed out. */
    method FinishNext() returns (e: Option<Event>)
      modifies this
      ensures if old(queue) == [] then e == None && View() == old(View())
              else e == Some(old(queue)[0]) && View() == Taken(old(View()))
      ensures old(queue) == (if e == None then [] else [e.value]) + queue && overrun == old(overrun)
    {
      if queue == [] { return None; }
      e := Some(queue[0]);
      queue := queue[1..];
      if gap.Some? && gap.value > 0 { gap := Some(gap.value - 1); }
    }
  }

  function SubsOf(subs: map<Topic, set<Subscriber>>, t: Topic): set<Subscriber> {
    if t in subs then subs[t] else {}
  }

  class Bus {
    const replay: nat
    var published: nat
    var rings: Rings
    var subs: map<Topic, set<Subscriber>>
    ghost var log: seq<Event>

    /** Every event has its number, and every ring holds the latest of its topic. */
    ghost predicate Valid()
      reads this
    {
      published == |log| && IsLog(log) && RingsOk(rings, log)
    }

    constructor (replay: nat)
      ensures Valid() && this.replay == replay && log == [] && rings == map[] && subs == map[]
    {
      this.replay := replay;
      published, rings, subs, log := 0, map[], map[], [];
    }

    /** Number the event, keep it for replay, and offer it to exactly the topic's subscribers. */
    method Publish(topic: Topic, kind: string, body: string) returns (e: Event)
      requires Valid()
      modifies this`published, this`rings, this`log, SubsOf(subs, topic)
      ensures Valid() && log == old(log) + [e] && e == Event(published, topic, kind, body)
      ensures e.number == old(published) + 1
      ensures rings == Appended(old(rings), e, replay)
      ensures forall sub :: sub in SubsOf(subs, topic) ==> sub.View() == Offered(old(sub.View()), e)
    {
      published := published + 1;
      e := Event(published, topic, kind, body);
      RingsStayOk(rings, log, e, replay);
      rings := Appended(rings, e, replay);
      log := log + [e];
      OfferAll(SubsOf(subs, topic), e);
    }

    method OfferAll(to: set<Subscriber>, e: Event)
      modifies to
      ensures forall sub :: sub in to ==> sub.View() == Offered(old(sub.View()), e)
    {
      var left := to;
      while left != {}
        invariant left <= to
        invariant forall sub :: sub in left ==> sub.View() == old(sub.View())
        invariant forall sub :: sub in to && sub !in left ==> sub.View() == Offered(old(sub.View()), e)
        decreases left
      {
        var sub :| sub in left;
        sub.Offer(e);
        left := left - {sub};
      }
    }

    method Subscribe(topics: set<Topic>) returns (sub: Subscriber)
      modifies this`subs
      ensures fresh(sub) && sub.topics == topics && sub.View() == Mailbox([], false, None)
      ensures forall t :: SubsOf(subs, t) == SubsOf(old(subs), t) + (if t in topics then {sub} else {})
    {
      sub := new Subscriber(topics);
      var left := topics;
      while left != {}
        invariant left <= topics && sub.View() == Mailbox([], false, None)
        invariant forall t ::
          SubsOf(subs, t) == SubsOf(old(subs), t) + (if t in topics && t !in left then {sub} else {})
        decreases left
      {
        var t :| t in left;
        subs := subs[t := SubsOf(subs, t) + {sub}];
        left := left - {t};
      }
    }

    method Unsubscribe(sub: Subscriber)
      modifies this`subs
      ensures forall t :: SubsOf(subs, t) == SubsOf(old(subs), t) - (if t in sub.topics then {sub} else {})
    {
      var left := sub.topics;
      while left != {}
        invariant left <= sub.topics
        invariant forall t ::
          SubsOf(subs, t) == SubsOf(old(subs), t) - (if t in sub.topics && t !in left then {sub} else {})
        decreases left
      {
        var t :| t in left;
        var others := SubsOf(subs, t) - {sub};
        subs := if others == {} then subs - {t} else subs[t := others];
        left := left - {t};
      }
    }

    /**
     * Everything the client missed, as far as the rings still hold it: nothing else, nothing twice, and in the order it
     * was published.
     */
    method ReplaySince(topics: seq<Topic>, last: nat) returns (missed: seq<Event>)
      requires Valid()
      ensures forall e :: e in missed <==> e.topic in topics && e in RingFor(rings, e.topic) && e.number > last
      ensures NeverDescending(missed) && (NoRepeats(topics) ==> Ascending(missed))
      ensures missed == ReplayOf(rings, topics, last)
    {
      hide RingsOk, IsLog, Ascending, NeverDescending, SortBySeq, NoRepeats;
      missed := [];
      for k := 0 to |topics|
        invariant missed == Missed(rings, topics[..k], last)
      {
        var ring := RingFor(rings, topics[k]);
        ghost var before := missed;
        assert before + [] == before;
        for i := 0 to |ring|
          invariant missed == before + Newer(ring[..i], last)
        {
          assert ring[..i + 1] == ring[..i] + [ring[i]];
          NewerAppend(ring[..i], ring[i], last);
          assert (before + Newer(ring[..i], last)) + [ring[i]] == before + (Newer(ring[..i], last) + [ring[i]]);
          if ring[i].number > last { missed := missed + [ring[i]]; }
        }
        assert ring[..|ring|] == ring && topics[..k + 1] == topics[..k] + [topics[k]];
        MissedAppend(rings, topics[..k], topics[k], last);
      }
      assert topics[..|topics|] == topics;
      ReplayIsThere(rings, topics, last, log);
      if NoRepeats(topics) { ReplayIsExact(rings, topics, last, log); }
      missed := SortBySeq(missed);
    }

    /** The lowest number that can still be replayed; 0 when nothing can. */
    method OldestAvailable(topics: seq<Topic>) returns (oldest: nat)
      requires Valid()
      ensures oldest == 0 <==> forall t :: t in topics ==> RingFor(rings, t) == []
      ensures forall t :: t in topics && RingFor(rings, t) != [] ==> oldest <= RingFor(rings, t)[0].number
      ensures oldest != 0 ==>
                exists t :: t in topics && RingFor(rings, t) != [] && RingFor(rings, t)[0].number == oldest
      ensures oldest == OldestOf(rings, topics)
    {
      oldest := 0;
      for k := 0 to |topics|
        invariant oldest == 0 <==> forall t :: t in topics[..k] ==> RingFor(rings, t) == []
        invariant forall t :: t in topics[..k] && RingFor(rings, t) != [] ==> oldest <= RingFor(rings, t)[0].number
        invariant oldest != 0 ==>
                    exists t :: t in topics[..k] && RingFor(rings, t) != [] && RingFor(rings, t)[0].number == oldest
      {
        assert topics[..k + 1] == topics[..k] + [topics[k]];
        var ring := RingFor(rings, topics[k]);
        if ring != [] {
          HeadIsNumbered(rings, topics[k], log);
          if oldest == 0 || ring[0].number < oldest { oldest := ring[0].number; }
        }
      }
      assert topics[..|topics|] == topics;
      OldestIsUnique(rings, topics, log, oldest);
    }

    /** The ring goes, the subscribers get a made-up last notice, and the topic forgets them. */
    method DropTopic(topic: Topic)
      requires Valid()
      modifies this`rings, this`subs, SubsOf(subs, topic)
      ensures Valid()
      ensures rings == old(rings) - {topic} && subs == old(subs) - {topic}
      ensures forall sub :: sub in SubsOf(old(subs), topic) ==> sub.View() == Offered(old(sub.View()), Cleanup(topic))
    {
      rings := rings - {topic};
      OfferAll(SubsOf(subs, topic), Cleanup(topic));
      subs := subs - {topic};
    }
  }

  function Cleanup(topic: Topic): Event { Event(0, topic, "session.ended", "CLEANUP") }
}
