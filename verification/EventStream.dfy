/**
 * The two ends of one connection: the server's frame generator (backend/app/modules/notification/sse.py) and the
 * client's cursor (frontend/src/hooks/useEventStream.ts).
 */
module EventStream {
  import opened Common
  import opened EventBus

  /** `Replayed` and `Fresh` are one kind of frame on the wire; the distinction is only where the event came from. */
  datatype Frame = Resync | Opened | Replayed(event: Event) | Fresh(event: Event) | Overrun

  /**
   * Where the generator is. It can be suspended at any frame, so other tasks publish between any two of these:
   * after the resync frame and before the replay is taken, at each replayed frame, before asking for the next live
   * event, inside that wait, and at the end.
   */
  datatype Phase = Suspended | Replaying(rest: seq<Event>) | Live | Waiting | Over

  /** The types the client listens for; frames of any other type never reach it. */
  const REGISTERED: set<string> := {
    "classroom.updated", "invitation.sent", "invitation.responded", "session.ready", "session.state",
    "participant.connected", "participant.disconnected", "moderator.speaking", "moderator.interrupted",
    "floor.granted", "floor.released", "transcript.partial", "transcript.final", "speaking_time.updated",
    "session.summary_ready", "session.ended"}

  predicate MustResync(rings: Rings, topics: seq<Topic>, cursor: nat) {
    var oldest := OldestOf(rings, topics);
    cursor != 0 && oldest != 0 && cursor < oldest - 1
  }

  function FirstPhase(rings: Rings, topics: seq<Topic>, cursor: nat, replayOnOpen: bool): Phase {
    if MustResync(rings, topics, cursor) then Suspended
    else AfterResync(rings, topics, cursor, replayOnOpen)
  }

  function AfterResync(rings: Rings, topics: seq<Topic>, cursor: nat, replayOnOpen: bool): Phase {
    Replaying(if cursor != 0 || replayOnOpen then ReplayOf(rings, topics, cursor) else [])
  }

  /**
   * Which streams begin with a resync: those of a returning client for whom everything still held begins beyond the
   * event it expects next. The others replay exactly what is held after the cursor, and a first connection replays only
   * when it asked to.
   */
  lemma OpensExactly(rings: Rings, topics: seq<Topic>, cursor: nat, replayOnOpen: bool, log: seq<Event>)
    requires IsLog(log) && RingsOk(rings, log) && NoRepeats(topics)
    ensures var phase := FirstPhase(rings, topics, cursor, replayOnOpen);
            && (phase == Suspended <==>
                  && cursor > 0
                  && (exists t :: t in topics && RingFor(rings, t) != [])
                  && forall t :: t in topics && RingFor(rings, t) != [] ==> RingFor(rings, t)[0].number > cursor + 1)
            && (phase != Suspended ==> phase == AfterResync(rings, topics, cursor, replayOnOpen))
    ensures var phase := AfterResync(rings, topics, cursor, replayOnOpen);
            && phase.Replaying? && Ascending(phase.rest)
            && forall e :: e in phase.rest <==>
                             && (cursor > 0 || replayOnOpen)
                             && e.topic in topics && e in RingFor(rings, e.topic) && e.number > cursor
  {
    hide RingsOk, IsLog, OldestOf, ReplayOf;
    ReplayIsExact(rings, topics, cursor, log);
    assert Ascending([]);
    var oldest := OldestOf(rings, topics);
    if oldest != 0 { var t := OldestIsSomeones(rings, topics); }
    forall t | t in topics && RingFor(rings, t) != []
      ensures 0 < oldest <= RingFor(rings, t)[0].number
    {
      OldestIsLeast(rings, topics, log, t);
    }
  }

  class Stream {
    const bus: Bus
    const topics: seq<Topic>
    const replayOnOpen: bool
    const sub: Subscriber
    var lastEventId: nat
    var phase: Phase

    /** Subscribing comes first, so nothing published from here on can slip past; then the cursor is judged. */
    constructor (bus: Bus, topics: seq<Topic>, lastEventId: nat, replayOnOpen: bool)
      requires bus.Valid()
      modifies bus`subs
      ensures this.bus == bus && this.topics == topics && this.replayOnOpen == replayOnOpen
      ensures fresh(sub) && sub.View() == Mailbox([], false, None)
      ensures forall t :: SubsOf(bus.subs, t) == SubsOf(old(bus.subs), t) + (if t in topics then {sub} else {})
      ensures phase == FirstPhase(bus.rings, topics, lastEventId, replayOnOpen)
      ensures this.lastEventId == if phase.Suspended? then 0 else lastEventId
    {
      this.bus, this.topics, this.replayOnOpen := bus, topics, replayOnOpen;
      var s := bus.Subscribe(set t | t in topics);
      this.sub := s;
      var oldest := bus.OldestAvailable(topics);
      if lastEventId != 0 && oldest != 0 && lastEventId < oldest - 1 {
        phase := Suspended;
        this.lastEventId := 0;
      } else {
        var missed := [];
        if lastEventId != 0 || replayOnOpen { missed := bus.ReplaySince(topics, lastEventId); }
        phase := Replaying(missed);
        this.lastEventId := lastEventId;
      }
    }

    /** Woken after the resync frame: the replay is taken only now. */
    method Resume()
      requires phase.Suspended? && bus.Valid()
      modifies this`phase
      ensures phase == AfterResync(bus.rings, topics, lastEventId, replayOnOpen)
    {
      var missed := [];
      if lastEventId != 0 || replayOnOpen { missed := bus.ReplaySince(topics, lastEventId); }
      phase := Replaying(missed);
    }

    method Replay() returns (f: Frame)
      requires phase.Replaying?
      modifies this`phase
      ensures var rest := old(phase).rest;
              if rest == [] then f == Opened && phase == Live
              else f == Replayed(rest[0]) && phase == Replaying(rest[1..])
    {
      if phase.rest == [] {
        f, phase := Opened, Live;
      } else {
        f := Replayed(phase.rest[0]);
        phase := Replaying(phase.rest[1..]);
      }
    }

    method BeginNext() returns (f: Option<Frame>)
      requires phase.Live?
      modifies this`phase
      ensures if sub.overrun then f == Some(Overrun) && phase == Over else f == None && phase == Waiting
    {
      var raised := sub.BeginNext();
      if raised { f, phase := Some(Overrun), Over; } else { f, phase := None, Waiting; }
    }

    method FinishNext() returns (f: Option<Frame>)
      requires phase.Waiting?
      modifies this`phase, sub
      ensures phase == Live
      ensures if old(sub.queue) == [] then f == None && sub.View() == old(sub.View())
              else f == Some(Fresh(old(sub.queue)[0])) && sub.View() == Taken(old(sub.View()))
    {
      var e := sub.FinishNext();
      phase := Live;
      f := if e == None then None else Some(Fresh(e.value));
    }

    /** However the generator ends, the subscription goes with it. */
    method Close()
      modifies this`phase, bus`subs
      ensures phase == Over
      ensures forall t :: SubsOf(bus.subs, t) == SubsOf(old(bus.subs), t) - (if t in sub.topics then {sub} else {})
    {
      phase := Over;
      bus.Unsubscribe(sub);
    }
  }

  // ------------------------------------------------------------------ the client

  /** The new cursor, and whether the frame reaches the handler. */
  function Dispatched(lastSeq: nat, f: Frame): (nat, bool) {
    match f
    case Resync => (0, true)
    case Opened => (lastSeq, true)
    case Overrun => (lastSeq, true)
    case _ =>
      if f.event.kind !in REGISTERED then (lastSeq, false)
      else if f.event.number == 0 then (lastSeq, true)
      else if f.event.number <= lastSeq then (lastSeq, false)
      else (f.event.number, true)
  }

  class Client {
    var lastSeq: nat

    constructor ()
      ensures lastSeq == 0
    {
      lastSeq := 0;
    }

    method Dispatch(f: Frame) returns (handled: bool)
      modifies this
      ensures (lastSeq, handled) == Dispatched(old(lastSeq), f)
      ensures f == Resync ==> handled && lastSeq == 0
      ensures f == Opened || f == Overrun ==> handled && lastSeq == old(lastSeq)
      ensures f.Replayed? || f.Fresh? ==>
                var e := f.event;
                && (handled <==> e.kind in REGISTERED && (e.number == 0 || old(lastSeq) < e.number))
                && lastSeq == if handled && e.number > 0 then e.number else old(lastSeq)
    {
      match f
      case Resync =>
        lastSeq := 0;
        return true;
      case Opened => return true;
      case Overrun => return true;
      case _ =>
        if f.event.kind !in REGISTERED { return false; }
        if f.event.number > 0 {
          if f.event.number <= lastSeq { return false; }
          lastSeq := f.event.number;
        }
        return true;
    }
  }
}
