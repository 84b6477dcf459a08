/** Exactly what a reconnection costs the client: event by event, on one topic, and on two. */
module Reconnection {
  import opened Common
  import opened EventBus
  import opened EventStream
  import opened Delivery

  predicate NoDrops(steps: seq<Step>) { forall i :: 0 <= i < |steps| ==> !steps[i].Drop? }

  lemma {:induction false} RingsFollowTheLog(cfg: Config, steps: seq<Step>)
    requires NoDrops(steps)
    ensures var w := After(cfg, steps); w.rings == RingsAfter(w.log, cfg.replay)
    decreases |steps|
  {
    hide Next, RingsAfter;
    if steps == [] {
      assert RingsAfter([], cfg.replay) == map[] by { NothingPublished(cfg.replay); }
    } else {
      var front, step := steps[..|steps| - 1], steps[|steps| - 1];
      RingsFollowTheLog(cfg, front);
      StepFollowsTheLog(cfg, After(cfg, front), step);
    }
  }

  lemma NothingPublished(replay: nat)
    ensures RingsAfter([], replay) == map[]
  {
  }

  lemma StepFollowsTheLog(cfg: Config, w: World, step: Step)
    requires w.rings == RingsAfter(w.log, cfg.replay) && !step.Drop?
    ensures var v := Next(cfg, w, step); v.rings == RingsAfter(v.log, cfg.replay)
  {
    hide Opening, Served, Read, Appended, OfferedTo;
    if step.Publish? { assert Next(cfg, w, step).log[..|w.log|] == w.log; }
  }

  /** The events of its topic from this one on: how many a ring must hold for it to be there still. */
  function From(log: seq<Event>, e: Event): seq<Event> {
    if 0 < e.number <= |log| then OfTopic(log[e.number - 1..], e.topic) else []
  }

  /** A topic's events are those before this one and those from it on. */
  lemma TopicSplitsAt(log: seq<Event>, e: Event) returns (before: seq<Event>)
    requires IsLog(log) && e in log
    ensures OfTopic(log, e.topic) == before + From(log, e)
    ensures forall i :: 0 <= i < |before| ==> before[i].number < e.number
    ensures From(log, e) != [] && From(log, e)[0] == e && Ascending(From(log, e))
  {
    Numbered(log, e);
    var n := e.number - 1;
    before := OfTopic(log[..n], e.topic);
    assert log == log[..n] + log[n..];
    OfTopicSplits(log[..n], log[n..], e.topic);
    assert log[n..] == [e] + log[n + 1..];
    OfTopicSplits([e], log[n + 1..], e.topic);
    assert OfTopic([e], e.topic) == [e] by { assert [e][..0] == []; }
    EventBus.SuffixAscends(log, e.topic, n);
    hide OfTopic, Ascending;
    forall i | 0 <= i < |before|
      ensures before[i].number < e.number
    {
      OfTopicContains(log[..n], e.topic, before[i]);
    }
  }

  /** An event is still held exactly when it and what followed on its topic fit in the ring. */
  lemma HeldExactly(log: seq<Event>, replay: nat, e: Event)
    requires IsLog(log) && e in log
    ensures e in RingFor(RingsAfter(log, replay), e.topic) <==> |From(log, e)| <= replay
  {
    hide From, OfTopic, RingsAfter, LastOf, Ascending;
    RingsHoldTheLatest(log, replay, e.topic);
    var before := TopicSplitsAt(log, e);
    LastOfHas(before, From(log, e), replay);
  }

  lemma LastOfHas(a: seq<Event>, b: seq<Event>, n: nat)
    requires b != [] && Ascending(b) && forall i :: 0 <= i < |a| ==> a[i].number < b[0].number
    ensures b[0] in LastOf(a + b, n) <==> |b| <= n
  {
    var s, r := a + b, LastOf(a + b, n);
    if |b| <= n {
      assert r[|r| - |b|] == s[|a|] == b[0];
    } else {
      forall i | 0 <= i < |r|
        ensures r[i] != b[0]
      {
        assert r[i] == b[|b| - n + i];
      }
    }
  }

  /** Later events of a topic have fewer after them. */
  lemma FewerLater(log: seq<Event>, d: Event, e: Event)
    requires IsLog(log) && d in log && e in log && d.topic == e.topic && d.number <= e.number
    ensures |From(log, e)| <= |From(log, d)|
  {
    Numbered(log, d);
    Numbered(log, e);
    var a, b := log[d.number - 1..e.number - 1], log[e.number - 1..];
    assert log[d.number - 1..] == a + b;
    OfTopicSplits(a, b, e.topic);
  }

  lemma {:induction false} RingsAfterAreOk(log: seq<Event>, replay: nat)
    requires IsLog(log)
    ensures RingsOk(RingsAfter(log, replay), log)
    decreases |log|
  {
    hide RingOk;
    if log != [] {
      var front, e := log[..|log| - 1], log[|log| - 1];
      RingsAfterAreOk(front, replay);
      RingsStayOk(RingsAfter(front, replay), front, e, replay);
      assert log == front + [e];
    }
  }

  /** The first event the client would want on t after its cursor. */
  ghost predicate FirstWanted(e: Event, log: seq<Event>, t: Topic, cursor: nat) {
    && e in log && e.kind in REGISTERED && e.topic == t && e.number > cursor
    && forall d :: d in log && d.kind in REGISTERED && d.topic == t && d.number > cursor ==> e.number <= d.number
  }

  /**
   * A reconnection that is not told to resync replays everything the client wants on a topic exactly when the first
   * such event and all that followed on the topic fit in the ring.
   */
  lemma ReconnectingMissesNothingExactly(cfg: Config, steps: seq<Step>, t: Topic, first: Event)
    requires NoRepeats(cfg.topics) && NoDrops(steps) && t in cfg.topics
    requires var w := After(cfg, steps);
             && w.conn == None && w.reader.lastSeq != 0
             && !MustResync(w.rings, cfg.topics, w.reader.lastSeq)
             && FirstWanted(first, w.log, t, w.reader.lastSeq)
    ensures var w := After(cfg, steps); var c := Next(cfg, w, Connect).conn.value;
            (forall e :: e in w.log && e.kind in REGISTERED && e.topic == t && e.number > w.reader.lastSeq ==>
              e in Ahead(c))
            <==> |From(w.log, first)| <= cfg.replay
  {
    var w := After(cfg, steps);
    RunKeeps(cfg, steps);
    hide After, Next, MustResync;
    forall e | e in w.log && e.kind in REGISTERED && e.topic == t && e.number > w.reader.lastSeq
      ensures e in Ahead(Next(cfg, w, Connect).conn.value) <==> |From(w.log, e)| <= cfg.replay
      ensures |From(w.log, e)| <= |From(w.log, first)|
    {
      OkLog(cfg, w);
      ReplayedExactly(cfg, steps, e);
      FewerLater(w.log, first, e);
    }
  }

  lemma OkLog(cfg: Config, w: World)
    requires Ok(cfg, w)
    ensures IsLog(w.log) && RingsOk(w.rings, w.log)
  {
  }

  /** Event by event. */
  lemma ReplayedExactly(cfg: Config, steps: seq<Step>, e: Event)
    requires NoRepeats(cfg.topics) && NoDrops(steps)
    requires var w := After(cfg, steps);
             && w.conn == None && w.reader.lastSeq != 0
             && !MustResync(w.rings, cfg.topics, w.reader.lastSeq)
             && e in w.log && e.topic in cfg.topics && e.number > w.reader.lastSeq
    ensures var w := After(cfg, steps);
            && (e in Ahead(Next(cfg, w, Connect).conn.value) <==> |From(w.log, e)| <= cfg.replay)
            && (e in RingFor(w.rings, e.topic) <==> |From(w.log, e)| <= cfg.replay)
            && Behind(Next(cfg, w, Connect).conn.value) == []
  {
    var w := After(cfg, steps);
    RunKeeps(cfg, steps);
    RingsFollowTheLog(cfg, steps);
    hide After, MustResync, RingsAfter, Ahead, Behind, From, Opening;
    OkLog(cfg, w);
    HeldExactly(w.log, cfg.replay, e);
    OpeningReplaysHeld(cfg, w, e);
  }

  /** Opening without a resync replays what is held, and nothing else is on its way. */
  lemma OpeningReplaysHeld(cfg: Config, w: World, e: Event)
    requires IsLog(w.log) && RingsOk(w.rings, w.log) && NoRepeats(cfg.topics)
    requires w.reader.lastSeq != 0 && !MustResync(w.rings, cfg.topics, w.reader.lastSeq)
    requires e.topic in cfg.topics && e.number > w.reader.lastSeq
    ensures var c := Opening(cfg, w);
            && (e in Ahead(c) <==> e in RingFor(w.rings, e.topic))
            && c.phase != Suspended && Behind(c) == [] && FreshIn(c.wire) == [] && c.box.queue == []
  {
    hide MustResync, Ahead, Behind, ReplayOf, Based, RingsOk;
    OpeningSuspends(cfg, w);
    OpeningHolds(cfg, w);
    OpeningUnfolds(cfg, w);
    ReplayIsExact(w.rings, cfg.topics, w.reader.lastSeq, w.log);
  }

  /** Wanted, on its way as long as the connection lives, and not yet passed; or handled. */
  ghost predicate Promised(w: World, e: Event) {
    e in w.reader.accepted || (w.conn.Some? && HighWater(w.reader) < e.number && e in Ahead(w.conn.value))
  }

  predicate Undisturbed(steps: seq<Step>) {
    forall i :: 0 <= i < |steps| ==> steps[i] != Connect && steps[i] != Disconnect && !steps[i].Drop?
  }

  lemma PromiseIsKept(cfg: Config, w: World, step: Step, e: Event)
    requires Ok(cfg, w) && NoRepeats(cfg.topics) && w.conn.Some? && w.conn.value.phase != Suspended
    requires Promised(w, e) && e.kind in REGISTERED
    requires step != Connect && step != Disconnect && !step.Drop?
    ensures var v := Next(cfg, w, step); v.conn.Some? && v.conn.value.phase != Suspended && Promised(v, e)
  {
    hide RingsOk, AcceptedOk, Complete, ReplayComplete, LiveComplete, MailKept, MailboxOk, NothingAgain, IsLog;
    var c := w.conn.value;
    hide Ahead, Behind, Ascending, AscendingNumbers, Staged, HighWater;
    if step.Publish? {
      OfferedBehind(c, Event(|w.log| + 1, step.topic, step.kind, step.body)) by { ConnectionMailbox(cfg, w, c); }
    } else if step == Receive {
      if c.wire != [] && e !in w.reader.accepted { PromisedIsRead(cfg, w, c, e); }
    } else if step == EmitReplay && c.phase.Replaying? {
      EmittingMoves(c);
    } else if step == BeginNext && c.phase == Live {
      FreshAppend(c.wire, Overrun);
      AheadByWire(c, Begun(c));
    } else if step == FinishNext && c.phase == Waiting {
      if c.box.queue != [] { FreshAppend(c.wire, Fresh(c.box.queue[0])); }
      AheadByWire(c, Finished(c));
    }
  }

  lemma AheadByWire(c: Connection, d: Connection)
    requires !c.phase.Replaying? && !d.phase.Replaying?
    requires d.wire == c.wire || ReplayedIn(d.wire) == ReplayedIn(c.wire) + []
    ensures Ahead(d) == Ahead(c)
  {
  }

  lemma PromisedIsRead(cfg: Config, w: World, c: Connection, e: Event)
    requires Ok(cfg, w) && w.conn == Some(c) && c.wire != []
    requires e.kind in REGISTERED && HighWater(w.reader) < e.number && e in Ahead(c)
    ensures Promised(Received(w, c), e)
  {
    hide RingsOk, Complete, ReplayComplete, LiveComplete, MailKept, MailboxOk, NothingAgain, IsLog, Ahead, Behind;
    hide AscendingNumbers;
    assert w.reader.lastSeq == 0 || w.reader.lastSeq == HighWater(w.reader);
    var f, d := c.wire[0], c.(wire := c.wire[1..]);
    assert Staged(c) && Ascending(Ahead(c));
    hide ConnectionOk, AcceptedOk, Staged, Ascending;
    ReadingShortens(c);
    if f.Fresh? {
      FreshMeansReplayed(c);
    } else if f.Replayed? {
      HeadOrLater(Ahead(c), f.event, Ahead(d), e);
    }
  }

  lemma HeadOrLater(s: seq<Event>, x: Event, rest: seq<Event>, e: Event)
    requires Ascending(s) && s == [x] + rest && e in s
    ensures e == x || (e in rest && x.number < e.number)
  {
    var k :| 0 <= k < |s| && s[k] == e;
    assert s[0] == x;
    if k > 0 { assert rest[k - 1] == e && s[0].number < s[k].number; }
  }

  /** Logged, no longer held, not handled, and not on its way. */
  ghost predicate Gone(w: World, e: Event) {
    && e in w.log && e !in RingFor(w.rings, e.topic) && e !in w.reader.accepted
    && (w.conn.Some? ==> e !in Ahead(w.conn.value) && e !in FreshIn(w.conn.value.wire) && e !in w.conn.value.box.queue)
  }

  lemma GoneStaysGone(cfg: Config, w: World, step: Step, e: Event)
    requires Ok(cfg, w) && NoRepeats(cfg.topics) && Gone(w, e)
    ensures Gone(Next(cfg, w, step), e)
  {
    hide AcceptedOk, Complete, ReplayComplete, LiveComplete, MailKept, MailboxOk, NothingAgain, Ascending;
    hide AscendingNumbers, Staged, HighWater, RingOk, ReplayOf, Based, ConnectionOk;
    Numbered(w.log, e);
    match step
    case Publish(topic, kind, body) =>
      var x := Event(|w.log| + 1, topic, kind, body);
      LastOfIsIn(RingFor(w.rings, topic) + [x], cfg.replay);
      if w.conn.Some? { OfferedAheadSame(w.conn.value, x); }
    case Drop(t) => if w.conn.Some? { OfferedAheadSame(w.conn.value, Cleanup(t)); }
    case Connect =>
      if w.conn == None {
        OpeningHolds(cfg, w);
        ReplayIsExact(w.rings, cfg.topics, w.reader.lastSeq, w.log);
      }
    case Disconnect =>
    case Receive =>
      if w.conn.Some? && w.conn.value.wire != [] { GoneIsNotRead(w, w.conn.value, e); }
    case _ =>
      ReplayIsExact(w.rings, cfg.topics, 0, w.log);
      if w.conn.Some? { GoneIsNotServed(cfg, w, w.conn.value, step, e); }
  }

  lemma OfferedAheadSame(c: Connection, x: Event)
    ensures var d := OfferedTo(c, x);
            && Ahead(d) == Ahead(c) && d.wire == c.wire
            && forall e :: e in d.box.queue ==> e in c.box.queue || e == x
  {
  }

  lemma GoneIsNotRead(w: World, c: Connection, e: Event)
    requires w.conn == Some(c) && c.wire != [] && Gone(w, e)
    ensures Gone(Received(w, c), e)
  {
    ReadingShortens(c);
    assert FreshIn(c.wire) == (if c.wire[0].Fresh? then [c.wire[0].event] else []) + FreshIn(c.wire[1..]);
    hide Behind, FreshIn;
    if c.wire[0].Replayed? { assert Ahead(c)[0] in Ahead(c); }
    if c.wire[0].Fresh? { assert FreshIn(c.wire)[0] in FreshIn(c.wire); }
  }

  lemma GoneIsNotServed(cfg: Config, w: World, c: Connection, step: Step, e: Event)
    requires w.conn == Some(c) && Gone(w, e)
    requires forall cursor | cursor == 0 :: e !in ReplayOf(w.rings, cfg.topics, cursor)
    ensures Gone(w.(conn := Some(Served(cfg, w, c, step))), e)
  {
    hide ReplayOf, Based, FreshIn, ReplayedIn;
    if step == EmitReplay && c.phase.Replaying? {
      EmittingMoves(c);
      FreshAppend(c.wire, Emitted(c).wire[|c.wire|]);
    } else if step == BeginNext && c.phase == Live {
      FreshAppend(c.wire, Overrun);
    } else if step == FinishNext && c.phase == Waiting && c.box.queue != [] {
      FreshAppend(c.wire, Fresh(c.box.queue[0]));
      assert c.box.queue[0] in c.box.queue;
    }
  }

  lemma {:induction false} GoneForGood(cfg: Config, steps: seq<Step>, more: seq<Step>, e: Event)
    requires NoRepeats(cfg.topics) && Gone(After(cfg, steps), e)
    ensures Gone(After(cfg, steps + more), e)
    decreases |more|
  {
    hide Next, Gone;
    if more == [] {
      assert steps + more == steps;
    } else {
      var front := more[..|more| - 1];
      GoneForGood(cfg, steps, front, e);
      assert (steps + more)[..|steps + more| - 1] == steps + front;
      RunKeeps(cfg, steps + front);
      GoneStaysGone(cfg, After(cfg, steps + front), more[|more| - 1], e);
    }
  }

  lemma {:induction false} PromiseIsKeptThrough(cfg: Config, steps: seq<Step>, more: seq<Step>, e: Event)
    requires NoRepeats(cfg.topics) && Undisturbed(more) && e.kind in REGISTERED
    requires var w := After(cfg, steps); w.conn.Some? && w.conn.value.phase != Suspended && Promised(w, e)
    ensures var w := After(cfg, steps + more); w.conn.Some? && w.conn.value.phase != Suspended && Promised(w, e)
    decreases |more|
  {
    hide Next, Promised;
    if more == [] {
      assert steps + more == steps;
    } else {
      var front := more[..|more| - 1];
      PromiseIsKeptThrough(cfg, steps, front, e);
      assert (steps + more)[..|steps + more| - 1] == steps + front;
      RunKeeps(cfg, steps + front);
      PromiseIsKept(cfg, After(cfg, steps + front), more[|more| - 1], e);
    }
  }

  /**
   * What a reconnection costs the client, event by event: once it has got past an event that was published while it was
   * away, it has handled that event exactly when the event and all that had followed on its topic fit in the ring. What
   * did not fit it never handles, however the run goes on.
   */
  lemma HandledExactly(cfg: Config, steps: seq<Step>, more: seq<Step>, e: Event)
    requires NoRepeats(cfg.topics) && NoDrops(steps)
    requires var w := After(cfg, steps);
             && w.conn == None && w.reader.lastSeq != 0
             && !MustResync(w.rings, cfg.topics, w.reader.lastSeq)
             && e in w.log && e.kind in REGISTERED && e.topic in cfg.topics && e.number > w.reader.lastSeq
    ensures var w, v := After(cfg, steps), After(cfg, steps + [Connect] + more);
            && (|From(w.log, e)| > cfg.replay ==> e !in v.reader.accepted)
            && (Undisturbed(more) && HighWater(v.reader) >= e.number ==>
                  (e in v.reader.accepted <==> |From(w.log, e)| <= cfg.replay))
  {
    var w, on := After(cfg, steps), steps + [Connect];
    RunKeeps(cfg, steps);
    assert on[..|on| - 1] == steps;
    assert After(cfg, on) == Connected(cfg, w);
    hide After, Next, From, MustResync, Opening;
    ReconnectingDecides(cfg, steps, e);
    hide Gone, Promised, Connected;
    if |From(w.log, e)| > cfg.replay {
      GoneForGood(cfg, on, more, e);
      assert e !in After(cfg, on + more).reader.accepted by { GoneIsNotHandled(After(cfg, on + more), e); }
    } else if Undisturbed(more) {
      PromiseIsKeptThrough(cfg, on, more, e);
      if HighWater(After(cfg, on + more).reader) >= e.number { PromiseIsHandled(After(cfg, on + more), e); }
    }
  }

  lemma GoneIsNotHandled(w: World, e: Event)
    requires Gone(w, e)
    ensures e !in w.reader.accepted
  {
  }

  lemma PromiseIsHandled(w: World, e: Event)
    requires Promised(w, e) && HighWater(w.reader) >= e.number
    ensures e in w.reader.accepted
  {
  }

  /** At the moment of reconnecting an event is either promised or gone. */
  lemma ReconnectingDecides(cfg: Config, steps: seq<Step>, e: Event)
    requires NoRepeats(cfg.topics) && NoDrops(steps)
    requires var w := After(cfg, steps);
             && w.conn == None && w.reader.lastSeq != 0
             && !MustResync(w.rings, cfg.topics, w.reader.lastSeq)
             && e in w.log && e.topic in cfg.topics && e.number > w.reader.lastSeq
    ensures var w := After(cfg, steps); var v := Connected(cfg, w);
            && v.conn.value.phase != Suspended
            && if |From(w.log, e)| <= cfg.replay then Promised(v, e) else Gone(v, e)
  {
    var w := After(cfg, steps);
    RunKeeps(cfg, steps);
    RingsFollowTheLog(cfg, steps);
    OkLog(cfg, w);
    NotYetHandled(cfg, w, e);
    hide After, MustResync, RingsAfter, Ahead, Behind, From, Opening, Ok;
    HeldExactly(w.log, cfg.replay, e);
    OpeningReplaysHeld(cfg, w, e);
  }

  lemma NotYetHandled(cfg: Config, w: World, e: Event)
    requires Ok(cfg, w) && w.reader.lastSeq != 0 && e.number > w.reader.lastSeq
    ensures e !in w.reader.accepted && HighWater(w.reader) < e.number
  {
    hide RingsOk, ConnectionOk, ReplayComplete, LiveComplete, MailKept, Complete, NothingAgain;
    var r := w.reader;
    assert forall i :: 0 <= i < |r.accepted| ==> r.accepted[i].number <= HighWater(r);
  }

  /**
   * With a single topic the resync check is enough: whoever is not told to resync is replayed all that was published.
   */
  lemma OneTopicMissesNothing(cfg: Config, steps: seq<Step>, t: Topic, e: Event)
    requires cfg.topics == [t] && cfg.replay > 0 && NoDrops(steps)
    requires var w := After(cfg, steps);
             && w.conn == None && w.reader.lastSeq != 0
             && !MustResync(w.rings, cfg.topics, w.reader.lastSeq)
             && e in w.log && e.topic == t && e.number > w.reader.lastSeq
    ensures var w := After(cfg, steps); e in Ahead(Next(cfg, w, Connect).conn.value)
  {
    var w := After(cfg, steps);
    RunKeeps(cfg, steps);
    RingsFollowTheLog(cfg, steps);
    hide After, Ok, MustResync, Connected, RingsAfter;
    OkLog(cfg, w);
    OneTopicIsReplayed(cfg, w, t, e);
    ConnectingConnects(cfg, w);
  }

  lemma ConnectingConnects(cfg: Config, w: World)
    requires w.conn == None
    ensures Next(cfg, w, Connect).conn == Some(Opening(cfg, w))
  {
  }

  lemma OneTopicIsReplayed(cfg: Config, w: World, t: Topic, e: Event)
    requires cfg.topics == [t] && cfg.replay > 0 && IsLog(w.log) && RingsOk(w.rings, w.log)
    requires w.rings == RingsAfter(w.log, cfg.replay) && w.reader.lastSeq != 0
    requires !MustResync(w.rings, cfg.topics, w.reader.lastSeq)
    requires e in w.log && e.topic == t && e.number > w.reader.lastSeq
    ensures e in Ahead(Opening(cfg, w))
  {
    hide RingsAfter, Opening, Ahead, MustResync, RingsOk, IsLog;
    OneTopicHolds(w.log, cfg.replay, t, w.reader.lastSeq, e);
    OpeningReplaysHeld(cfg, w, e);
  }

  lemma OneTopicHolds(log: seq<Event>, replay: nat, t: Topic, cursor: nat, e: Event)
    requires IsLog(log) && RingsOk(RingsAfter(log, replay), log) && replay > 0 && cursor != 0
    requires !MustResync(RingsAfter(log, replay), [t], cursor)
    requires e in log && e.topic == t && e.number > cursor
    ensures e in RingFor(RingsAfter(log, replay), t)
  {
    var rings := RingsAfter(log, replay);
    RingsHoldTheLatest(log, replay, t);
    OfTopicContains(log, t, e);
    OneTopicOldest(rings, t);
    hide RingsAfter, OfTopic, OldestOf;
    assert t in rings;
    assert RingOk(rings[t], t, log);
    HeldAbove(log, rings[t], t, e);
  }

  lemma OneTopicOldest(rings: Rings, t: Topic)
    ensures OldestOf(rings, [t]) == if RingFor(rings, t) == [] then 0 else RingFor(rings, t)[0].number
  {
    assert OldestOf(rings, [t][1..]) == 0;
  }

  const QUIET: Topic := "quiet"
  const BUSY: Topic := "busy"
  const KIND: string := "session.state"

  /** A client sees an event on one topic, is away while two come on the other, and reconnects. */
  const TWO_TOPICS: seq<Step> := [
    Connect, EmitReplay, Publish(QUIET, KIND, ""), BeginNext, FinishNext, Receive, Receive, Disconnect,
    Publish(BUSY, KIND, ""), Publish(BUSY, KIND, ""),
    Connect, EmitReplay, Receive]

  /** What there is to see of a world, leaving its history aside. */
  ghost predicate Shows(w: World, log: seq<Event>, rings: Rings, lastSeq: nat, accepted: seq<Event>) {
    w.log == log && w.rings == rings && w.reader.lastSeq == lastSeq && w.reader.accepted == accepted
  }

  ghost predicate Online(w: World, phase: Phase, queue: seq<Event>, wire: seq<Frame>) {
    && w.conn.Some? && w.conn.value.phase == phase && w.conn.value.wire == wire
    && w.conn.value.box == Mailbox(queue, false, None) && w.conn.value.on == {QUIET, BUSY}
  }

  lemma OneMoreStep(cfg: Config, k: nat)
    requires k < |TWO_TOPICS|
    ensures After(cfg, TWO_TOPICS[..k + 1]) == Next(cfg, After(cfg, TWO_TOPICS[..k]), TWO_TOPICS[k])
  {
    assert TWO_TOPICS[..k + 1][..k] == TWO_TOPICS[..k];
  }

  /** Connecting before anything was published: nothing to replay, and the stream goes live. */
  lemma GoingLive(cfg: Config, w: World)
    requires cfg == Config([QUIET, BUSY], 1, true) && Shows(w, [], map[], 0, []) && w.conn == None
    ensures var v := Next(cfg, Next(cfg, w, Connect), EmitReplay);
            Shows(v, [], map[], 0, []) && Online(v, Live, [], [Opened])
  {
    hide Based;
    assert [QUIET, BUSY][1..] == [BUSY] && [BUSY][1..] == [];
    assert Missed(map[], [BUSY], 0) == [] + [];
    assert Missed(map[], [QUIET, BUSY], 0) == [] + [];
    assert OldestOf(map[], [BUSY]) == 0 && OldestOf(map[], [QUIET, BUSY]) == 0;
    assert TopicSet(cfg) == {QUIET, BUSY};
    var v := Next(cfg, w, Connect);
    assert Online(v, Replaying([]), [], []);
  }

  /** One event arrives and is taken, */
  lemma OneEventTaken(cfg: Config, w: World, e1: Event)
    requires cfg == Config([QUIET, BUSY], 1, true) && e1 == Event(1, QUIET, KIND, "")
    requires Shows(w, [], map[], 0, []) && Online(w, Live, [], [Opened])
    ensures var v := Next(cfg, Next(cfg, Next(cfg, w, Publish(QUIET, KIND, "")), BeginNext), FinishNext);
            Shows(v, [e1], map[QUIET := [e1]], 0, []) && Online(v, Live, [], [Opened, Fresh(e1)])
  {
    var b := Next(cfg, w, Publish(QUIET, KIND, ""));
    assert Shows(b, [e1], map[QUIET := [e1]], 0, []) && Online(b, Live, [e1], [Opened]);
    var c := Next(cfg, b, BeginNext);
    assert Online(c, Waiting, [e1], [Opened]);
    assert [e1][1..] == [];
  }

  /** and then handled. */
  lemma OneEventHandled(cfg: Config, w: World, e1: Event)
    requires e1 == Event(1, QUIET, KIND, "")
    requires Shows(w, [e1], map[QUIET := [e1]], 0, []) && Online(w, Live, [], [Opened, Fresh(e1)])
    ensures var v := Next(cfg, Next(cfg, Next(cfg, w, Receive), Receive), Disconnect);
            Shows(v, [e1], map[QUIET := [e1]], 1, [e1]) && v.conn == None
  {
    var d := Next(cfg, w, Receive);
    assert [Opened, Fresh(e1)][1..] == [Fresh(e1)];
    assert Shows(d, [e1], map[QUIET := [e1]], 0, []) && Online(d, Live, [], [Fresh(e1)]);
    assert KIND in REGISTERED;
  }

  lemma FirstVisit(cfg: Config, e1: Event)
    requires cfg == Config([QUIET, BUSY], 1, true) && e1 == Event(1, QUIET, KIND, "")
    ensures var w := After(cfg, TWO_TOPICS[..8]); Shows(w, [e1], map[QUIET := [e1]], 1, [e1]) && w.conn == None
  {
    var start := After(cfg, TWO_TOPICS[..0]);
    assert Shows(start, [], map[], 0, []) && start.conn == None;
    hide After, Next, Shows, Online;
    OneMoreStep(cfg, 0);
    OneMoreStep(cfg, 1);
    GoingLive(cfg, start);
    OneMoreStep(cfg, 2);
    OneMoreStep(cfg, 3);
    OneMoreStep(cfg, 4);
    OneMoreStep(cfg, 5);
    OneMoreStep(cfg, 6);
    OneMoreStep(cfg, 7);
    OneEventTaken(cfg, After(cfg, TWO_TOPICS[..2]), e1);
    OneEventHandled(cfg, After(cfg, TWO_TOPICS[..5]), e1);
  }

  /** Two events on the other topic while nobody listens; the first is evicted. */
  lemma MeanwhileBusy(cfg: Config, w: World, e1: Event, e2: Event, e3: Event)
    requires cfg == Config([QUIET, BUSY], 1, true) && e2 == Event(2, BUSY, KIND, "") && e3 == Event(3, BUSY, KIND, "")
    requires Shows(w, [e1], map[QUIET := [e1]], 1, [e1]) && w.conn == None
    ensures var v := Next(cfg, Next(cfg, w, Publish(BUSY, KIND, "")), Publish(BUSY, KIND, ""));
            Shows(v, [e1, e2, e3], map[QUIET := [e1], BUSY := [e3]], 1, [e1]) && v.conn == None
  {
    assert QUIET[0] != BUSY[0];
    var a := Next(cfg, w, Publish(BUSY, KIND, ""));
    assert [e1] + [e2] == [e1, e2] && [] + [e2] == [e2];
    assert a.rings == map[QUIET := [e1], BUSY := [e2]];
    assert Shows(a, [e1, e2], map[QUIET := [e1], BUSY := [e2]], 1, [e1]);
    assert ([e2] + [e3])[1..] == [e3] && [e1, e2] + [e3] == [e1, e2, e3];
  }

  /** Back again: no resync, and the third event is the next one handled. */
  lemma BackAgain(cfg: Config, w: World, e1: Event, e2: Event, e3: Event)
    requires cfg == Config([QUIET, BUSY], 1, true) && e1.number == 1 && e3 == Event(3, BUSY, KIND, "")
    requires Shows(w, [e1, e2, e3], map[QUIET := [e1], BUSY := [e3]], 1, [e1]) && w.conn == None
    ensures var a := Next(cfg, w, Connect); var v := Next(cfg, Next(cfg, a, EmitReplay), Receive);
            && Online(a, Replaying([e3]), [], [])
            && Shows(v, [e1, e2, e3], map[QUIET := [e1], BUSY := [e3]], 3, [e1, e3])
  {
    hide Based, ReplayOf, MustResync;
    TwoRings(w.rings, e1, e3);
    assert TopicSet(cfg) == {QUIET, BUSY};
    var a := Next(cfg, w, Connect);
    assert Online(a, Replaying([e3]), [], []);
    var b := Next(cfg, a, EmitReplay);
    assert Online(b, Replaying([]), [], [Replayed(e3)]) by { assert [e3][1..] == []; }
    assert KIND in REGISTERED;
    assert [e1] + [e3] == [e1, e3];
  }

  lemma TwoRings(rings: Rings, e1: Event, e3: Event)
    requires rings == map[QUIET := [e1], BUSY := [e3]] && e1.number == 1 && e3.number == 3
    ensures ReplayOf(rings, [QUIET, BUSY], 1) == [e3] && !MustResync(rings, [QUIET, BUSY], 1)
  {
    assert QUIET[0] != BUSY[0];
    assert [QUIET, BUSY][1..] == [BUSY] && [BUSY][1..] == [];
    assert Newer([e1], 1) == [] by { assert [e1][1..] == []; }
    assert Newer([e3], 1) == [e3] by { assert [e3][1..] == []; }
    assert Missed(rings, [BUSY], 1) == [e3] + [];
    assert SortBySeq([e3]) == [e3] by { assert [e3][1..] == []; }
    OneTopicOldest(rings, BUSY);
  }

  /**
   * With two topics it is not: the check looks at the topic that reaches furthest back. Here a quiet topic hides that
   * the busy one has lost an event; the client is never told to resync, and handles the third event without the second.
   */
  lemma TwoTopicsCanHideAGap(cfg: Config, e1: Event, e2: Event, e3: Event)
    requires cfg == Config([QUIET, BUSY], 1, true)
    requires e1 == Event(1, QUIET, KIND, "") && e2 == Event(2, BUSY, KIND, "") && e3 == Event(3, BUSY, KIND, "")
    ensures Shows(After(cfg, TWO_TOPICS), [e1, e2, e3], map[QUIET := [e1], BUSY := [e3]], 3, [e1, e3])
    ensures Online(After(cfg, TWO_TOPICS[..11]), Replaying([e3]), [], [])
    ensures KIND in REGISTERED
  {
    hide After, Next, Online, Shows;
    FirstVisit(cfg, e1);
    SecondVisit(cfg, After(cfg, TWO_TOPICS[..8]), e1, e2, e3);
    assert TWO_TOPICS[..13] == TWO_TOPICS;
  }

  lemma SecondVisit(cfg: Config, w: World, e1: Event, e2: Event, e3: Event)
    requires cfg == Config([QUIET, BUSY], 1, true) && w == After(cfg, TWO_TOPICS[..8])
    requires e1 == Event(1, QUIET, KIND, "") && e2 == Event(2, BUSY, KIND, "") && e3 == Event(3, BUSY, KIND, "")
    requires Shows(w, [e1], map[QUIET := [e1]], 1, [e1]) && w.conn == None
    ensures Shows(After(cfg, TWO_TOPICS[..13]), [e1, e2, e3], map[QUIET := [e1], BUSY := [e3]], 3, [e1, e3])
    ensures Online(After(cfg, TWO_TOPICS[..11]), Replaying([e3]), [], [])
  {
    hide After, Next, Online, Shows;
    OneMoreStep(cfg, 8);
    OneMoreStep(cfg, 9);
    MeanwhileBusy(cfg, w, e1, e2, e3);
    OneMoreStep(cfg, 10);
    OneMoreStep(cfg, 11);
    OneMoreStep(cfg, 12);
    BackAgain(cfg, After(cfg, TWO_TOPICS[..10]), e1, e2, e3);
  }
}
