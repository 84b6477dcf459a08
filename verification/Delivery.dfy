/**
 * Resumable delivery: a publisher, one subscribed generator and one client that may lose its connection at any moment,
 * as interleaved steps, with the log of everything published as history. The functions of EventBus and EventStream do
 * the work; this module says what arrives.
 */
module Delivery {
  import opened Common
  import opened EventBus
  import opened EventStream

  datatype Config = Config(topics: seq<Topic>, replay: nat, replayOnOpen: bool)

  /**
   * One connection. `on` is where the subscription still stands, `wire` what is in transit. The rest is history: of
   * each topic in `base`, everything after that number and up to `upTo` was replayed, and what is later was offered;
   * `offered` and `taken` are what the mailbox has been given and has given out.
   */
  datatype Connection = Connection(
    phase: Phase,
    box: Mailbox,
    on: set<Topic>,
    wire: seq<Frame>,
    base: map<Topic, nat>,
    upTo: nat,
    offered: seq<Event>,
    taken: seq<Event>)

  /**
   * The client's cursor, and as history every numbered event it has handled in its life, and for each topic not dropped
   * since the last connection the number from which on nothing has been missed.
   */
  datatype Reader = Reader(lastSeq: nat, accepted: seq<Event>, base: map<Topic, nat>)

  datatype World = World(log: seq<Event>, rings: Rings, reader: Reader, conn: Option<Connection>)

  datatype Step =
    | Publish(topic: Topic, kind: string, body: string)
    | Drop(topic: Topic)
    | Connect
    | Resume
    | EmitReplay
    | BeginNext
    | FinishNext
    | Receive
    | Disconnect

  ghost function Start(cfg: Config): World {
    World([], map[], Reader(0, [], map t | t in cfg.topics :: 0), None)
  }

  function TopicSet(cfg: Config): set<Topic> { set t | t in cfg.topics }

  /** How far the client has ever got; a resync takes its cursor back, but not this. */
  function HighWater(r: Reader): nat { if r.accepted == [] then 0 else r.accepted[|r.accepted| - 1].number }

  /** Everything logged on t after a number is in the ring. */
  ghost predicate Covers(log: seq<Event>, t: Topic, after: nat, ring: seq<Event>) {
    forall e :: e in log && e.topic == t && e.number > after ==> e in ring
  }

  /**
   * Where each topic is whole from once the rings in `held` are replayed to a client that got as far as `reached`:
   * where it was before, unless something after `reached` is no longer held, and then just before the first that is.
   */
  ghost function Based(log: seq<Event>, held: Rings, topics: set<Topic>, reached: nat, base: map<Topic, nat>)
    : map<Topic, nat>
  {
    map t | t in topics ::
      var from := HeldFrom(RingFor(held, t), |log|);
      if t in base && Covers(log, t, reached, RingFor(held, t)) then base[t]
      else if from < reached then reached
      else from
  }

  function OfferedTo(c: Connection, e: Event): Connection {
    if e.topic in c.on then c.(box := Offered(c.box, e), offered := c.offered + [e]) else c
  }

  function Published(cfg: Config, w: World, topic: Topic, kind: string, body: string): World {
    var e := Event(|w.log| + 1, topic, kind, body);
    w.(log := w.log + [e],
       rings := Appended(w.rings, e, cfg.replay),
       conn := if w.conn.Some? then Some(OfferedTo(w.conn.value, e)) else None)
  }

  function Dropped(w: World, t: Topic): World {
    w.(rings := w.rings - {t},
       reader := w.reader.(base := w.reader.base - {t}),
       conn := if w.conn == None then None
               else
                 var c := w.conn.value;
                 Some(OfferedTo(c, Cleanup(t)).(on := c.on - {t}, base := c.base - {t})))
  }

  ghost function Opening(cfg: Config, w: World): Connection {
    var r, all := w.reader, TopicSet(cfg);
    var phase := FirstPhase(w.rings, cfg.topics, r.lastSeq, cfg.replayOnOpen);
    var held := if r.lastSeq != 0 || cfg.replayOnOpen then w.rings else map[];
    Connection(
      phase,
      Mailbox([], false, None),
      all,
      if phase == Suspended then [Resync] else [],
      if phase == Suspended then r.base else Based(w.log, held, all, HighWater(r), r.base),
      |w.log|,
      [],
      [])
  }

  ghost function Connected(cfg: Config, w: World): World { w.(conn := Some(Opening(cfg, w))) }

  /** A stream that does not replay has missed what was published before it subscribed, and nothing since. */
  ghost function Resumed(cfg: Config, w: World, c: Connection): Connection {
    var phase, reached := AfterResync(w.rings, cfg.topics, 0, cfg.replayOnOpen), HighWater(w.reader);
    if cfg.replayOnOpen then
      c.(phase := phase, upTo := |w.log|, base := Based(w.log, w.rings, c.on, reached, c.base))
    else
      c.(phase := phase, base := Based(UpTo(w.log, c.upTo), map[], c.on, reached, c.base))
  }

  function UpTo(log: seq<Event>, n: nat): seq<Event> { if n <= |log| then log[..n] else log }

  function Emitted(c: Connection): Connection
    requires c.phase.Replaying?
  {
    if c.phase.rest == [] then c.(phase := Live, wire := c.wire + [Opened])
    else c.(phase := Replaying(c.phase.rest[1..]), wire := c.wire + [Replayed(c.phase.rest[0])])
  }

  function Begun(c: Connection): Connection {
    if c.box.overrun then c.(phase := Over, wire := c.wire + [Overrun]) else c.(phase := Waiting)
  }

  function Finished(c: Connection): Connection {
    if c.box.queue == [] then c.(phase := Live)
    else
      var e := c.box.queue[0];
      c.(phase := Live, box := Taken(c.box), wire := c.wire + [Fresh(e)], taken := c.taken + [e])
  }

  function Read(r: Reader, f: Frame): Reader {
    var (lastSeq, handled) := Dispatched(r.lastSeq, f);
    if handled && (f.Replayed? || f.Fresh?) && f.event.number > 0 then
      r.(lastSeq := lastSeq, accepted := r.accepted + [f.event])
    else r.(lastSeq := lastSeq)
  }

  /** The client has still to learn that its cursor is worthless. */
  predicate Pending(c: Connection) { c.wire != [] && c.wire[0] == Resync }

  /** Where each topic is whole from: what the connection says, once the client knows where it stands. */
  function BaseNow(w: World): map<Topic, nat> {
    if w.conn == None || Pending(w.conn.value) then w.reader.base else w.conn.value.base
  }

  function Disconnected(w: World): World { w.(conn := None, reader := w.reader.(base := BaseNow(w))) }

  ghost function Next(cfg: Config, w: World, step: Step): World {
    match step
    case Publish(topic, kind, body) => Published(cfg, w, topic, kind, body)
    case Drop(topic) => Dropped(w, topic)
    case Connect => if w.conn == None then Connected(cfg, w) else w
    case Disconnect => Disconnected(w)
    case Receive => if w.conn.Some? && w.conn.value.wire != [] then Received(w, w.conn.value) else w
    case _ => if w.conn.Some? then w.(conn := Some(Served(cfg, w, w.conn.value, step))) else w
  }

  /** The generator runs to its next suspension point, if it is waiting for this. */
  ghost function Served(cfg: Config, w: World, c: Connection, step: Step): Connection {
    if step == Resume && c.phase == Suspended then Resumed(cfg, w, c)
    else if step == EmitReplay && c.phase.Replaying? then Emitted(c)
    else if step == BeginNext && c.phase == Live then Begun(c)
    else if step == FinishNext && c.phase == Waiting then Finished(c)
    else c
  }

  function Received(w: World, c: Connection): World
    requires c.wire != []
  {
    w.(conn := Some(c.(wire := c.wire[1..])), reader := Read(w.reader, c.wire[0]))
  }

  ghost function After(cfg: Config, steps: seq<Step>): World
    decreases |steps|
  {
    if steps == [] then Start(cfg) else Next(cfg, After(cfg, steps[..|steps| - 1]), steps[|steps| - 1])
  }

  // ------------------------------------------------------------------ what is in transit

  function ReplayedIn(wire: seq<Frame>): seq<Event> {
    if wire == [] then []
    else (if wire[0].Replayed? then [wire[0].event] else []) + ReplayedIn(wire[1..])
  }

  function FreshIn(wire: seq<Frame>): seq<Event> {
    if wire == [] then []
    else (if wire[0].Fresh? then [wire[0].event] else []) + FreshIn(wire[1..])
  }

  /** What the client will still get of the replay. */
  function Ahead(c: Connection): seq<Event> {
    ReplayedIn(c.wire) + (if c.phase.Replaying? then c.phase.rest else [])
  }

  /** What it is certain to get after that, as long as the connection lives. */
  function Behind(c: Connection): seq<Event> { FreshIn(c.wire) + GapFree(c.box) }

  /** In order, leaving aside the notice that carries no number. */
  ghost predicate AscendingNumbers(s: seq<Event>) {
    forall i, j :: 0 <= i < j < |s| && s[i].number > 0 && s[j].number > 0 ==> s[i].number < s[j].number
  }

  /** Replayed frames come before fresh ones, and Resync before everything. */
  ghost predicate Staged(c: Connection) { StagedWire(c.wire, c.phase) }

  ghost predicate StagedWire(wire: seq<Frame>, phase: Phase) {
    && (forall i, j :: 0 <= i < j < |wire| ==> !(wire[i].Fresh? && wire[j].Replayed?) && wire[j] != Resync)
    && (phase == Suspended ==> wire == [] || wire == [Resync])
    && ((phase.Replaying? || phase == Suspended) ==> FreshIn(wire) == [])
  }

  /** Of a type the client listens for, on a topic it can be whole on, and after where it is whole from. */
  ghost predicate Wanted(e: Event, log: seq<Event>, base: map<Topic, nat>) {
    e in log && e.kind in REGISTERED && e.topic in base && e.number > base[e.topic]
  }

  ghost predicate ConnectionOk(cfg: Config, w: World, c: Connection) {
    && MailboxOk(c.box)
    && (c.phase == Waiting && c.box.gap.Some? ==> c.box.gap.value > 0)
    && c.base.Keys <= c.on <= TopicSet(cfg)
    && c.upTo <= |w.log|
    && (c.phase == Suspended ==> HighWater(w.reader) <= c.upTo)
    && Staged(c)
    && Ascending(Ahead(c))
    && (forall e :: e in Ahead(c) ==> e in w.log && e.topic in cfg.topics && 0 < e.number <= c.upTo)
    && AscendingNumbers(Behind(c))
    && (forall e :: e in Behind(c) && e.number > 0 ==> e in w.log && e.topic in cfg.topics)
  }

  /** Nothing wanted is missing from the replay. */
  ghost predicate ReplayComplete(w: World, c: Connection) {
    c.phase != Suspended ==>
      forall e :: Wanted(e, w.log, c.base) && HighWater(w.reader) < e.number <= c.upTo ==> e in Ahead(c)
  }

  /** What is published later is waiting, or comes after everything that will still be delivered. */
  ghost predicate LiveComplete(w: World, c: Connection) {
    forall e :: e in w.log && e.kind in REGISTERED && e.topic in c.on && e.number > Max(HighWater(w.reader), c.upTo) ==>
      e in Behind(c) || (c.box.gap.Some? && forall d :: d in Behind(c) ==> d.number < e.number)
  }

  ghost predicate MailKept(c: Connection) {
    && c.taken + GapFree(c.box) <= c.offered
    && (c.box.gap == None ==> c.taken + c.box.queue == c.offered)
  }

  ghost predicate AcceptedOk(cfg: Config, log: seq<Event>, r: Reader) {
    && Ascending(r.accepted)
    && (r.lastSeq == 0 || r.lastSeq == HighWater(r))
    && r.base.Keys <= TopicSet(cfg)
    && (forall e :: e in r.accepted ==> e in log && e.kind in REGISTERED && e.topic in cfg.topics && e.number > 0)
  }

  /** Everything wanted up to where the client has got has been handled. */
  ghost predicate Complete(log: seq<Event>, r: Reader, base: map<Topic, nat>) {
    forall e :: Wanted(e, log, base) && e.number <= HighWater(r) ==> e in r.accepted
  }

  /** The client's cursor is, or is about to be, behind where it has got. */
  ghost predicate Rewound(w: World) {
    w.reader.lastSeq < HighWater(w.reader) || (w.conn.Some? && Pending(w.conn.value))
  }

  ghost predicate AllPast(s: seq<Event>, n: nat) { forall e :: e in s && e.number > 0 ==> e.number > n }

  ghost predicate RingsPast(rings: Rings, topics: seq<Topic>, n: nat) {
    forall t :: t in topics ==> AllPast(RingFor(rings, t), n)
  }

  /** Then nothing it has handled can come again. */
  ghost predicate NothingAgain(cfg: Config, w: World) {
    Rewound(w) ==>
      && RingsPast(w.rings, cfg.topics, HighWater(w.reader))
      && (w.conn.Some? ==>
            AllPast(Ahead(w.conn.value), HighWater(w.reader)) && AllPast(Behind(w.conn.value), HighWater(w.reader)))
  }

  ghost predicate Ok(cfg: Config, w: World) {
    && IsLog(w.log)
    && RingsOk(w.rings, w.log)
    && AcceptedOk(cfg, w.log, w.reader)
    && Complete(w.log, w.reader, BaseNow(w))
    && NothingAgain(cfg, w)
    && (w.conn.Some? ==>
          var c := w.conn.value;
          && ConnectionOk(cfg, w, c)
          && Complete(w.log, w.reader, c.base)
          && ReplayComplete(w, c)
          && LiveComplete(w, c)
          && MailKept(c))
  }

  // ------------------------------------------------------------------ publishing

  lemma {:induction false} FreshAppend(wire: seq<Frame>, f: Frame)
    ensures FreshIn(wire + [f]) == FreshIn(wire) + (if f.Fresh? then [f.event] else [])
    ensures ReplayedIn(wire + [f]) == ReplayedIn(wire) + (if f.Replayed? then [f.event] else [])
  {
    if wire == [] {
      assert wire + [f] == [f];
    } else {
      FreshAppend(wire[1..], f);
      assert (wire + [f])[0] == wire[0] && (wire + [f])[1..] == wire[1..] + [f];
      var head := if wire[0].Fresh? then [wire[0].event] else [];
      var late := if f.Fresh? then [f.event] else [];
      assert head + (FreshIn(wire[1..]) + late) == (head + FreshIn(wire[1..])) + late;
      var first := if wire[0].Replayed? then [wire[0].event] else [];
      var last := if f.Replayed? then [f.event] else [];
      assert first + (ReplayedIn(wire[1..]) + last) == (first + ReplayedIn(wire[1..])) + last;
    }
  }

  lemma LogGrows(cfg: Config, log: seq<Event>, r: Reader, base: map<Topic, nat>, e: Event)
    requires IsLog(log) && AcceptedOk(cfg, log, r) && Complete(log, r, base) && e.number == |log| + 1
    ensures AcceptedOk(cfg, log + [e], r) && Complete(log + [e], r, base)
    ensures HighWater(r) <= |log|
  {
    if r.accepted != [] {
      assert r.accepted[|r.accepted| - 1] in r.accepted;
      Numbered(log, r.accepted[|r.accepted| - 1]);
    }
    forall d | Wanted(d, log + [e], base) && d.number <= HighWater(r)
      ensures d in r.accepted
    {
      assert Wanted(d, log, base);
    }
  }

  /** An offer adds the event to what is on its way, or leaves that alone and there is a gap after it. */
  lemma OfferedBehind(c: Connection, e: Event)
    requires MailboxOk(c.box) && MailKept(c) && (c.phase == Waiting && c.box.gap.Some? ==> c.box.gap.value > 0)
    ensures var d := OfferedTo(c, e);
            && MailboxOk(d.box) && MailKept(d) && Ahead(d) == Ahead(c)
            && d == c.(box := d.box, offered := d.offered)
            && (Behind(d) == Behind(c) + [e] || (Behind(d) == Behind(c) && (d.box.gap.Some? || e.topic !in c.on)))
            && (c.box.gap.Some? ==> d.box.gap == c.box.gap && Behind(d) == Behind(c))
            && (d.phase == Waiting && d.box.gap.Some? ==> d.box.gap.value > 0)
  {
  }

  lemma SameWireStaysStaged(c: Connection, d: Connection)
    requires Staged(c) && d.wire == c.wire && d.phase == c.phase
    ensures Staged(d)
  {
  }

  lemma PublishedConnection(cfg: Config, w: World, c: Connection, t: World, d: Connection, e: Event)
    requires ConnectionOk(cfg, w, c) && t.log == w.log + [e] && e.number == |w.log| + 1 && IsLog(w.log)
    requires t.reader == w.reader
    requires d == c.(box := d.box, offered := d.offered) && Ahead(d) == Ahead(c) && MailboxOk(d.box)
    requires Behind(d) == Behind(c) + [e] || Behind(d) == Behind(c)
    requires Behind(d) == Behind(c) + [e] ==> e.topic in cfg.topics
    requires d.phase == Waiting && d.box.gap.Some? ==> d.box.gap.value > 0
    ensures ConnectionOk(cfg, t, d)
  {
    hide MailboxOk, Ahead, Behind, Ascending, FreshIn, Staged;
    forall x | x in w.log ensures x in t.log && x.number <= |w.log| {}
    assert Staged(d) by { SameWireStaysStaged(c, d); }
    assert AscendingNumbers(Behind(d)) by {
      forall i | 0 <= i < |Behind(c)| && Behind(c)[i].number > 0
        ensures Behind(c)[i].number < e.number
      {
        assert Behind(c)[i] in Behind(c);
      }
    }
  }

  lemma PublishedCompletely(w: World, c: Connection, t: World, d: Connection, e: Event)
    requires ReplayComplete(w, c) && LiveComplete(w, c) && c.base.Keys <= c.on && c.upTo <= |w.log| && IsLog(w.log)
    requires forall x :: x in Behind(c) && x.number > 0 ==> x in w.log
    requires t.log == w.log + [e] && e.number == |w.log| + 1 && t.reader == w.reader
    requires d == c.(box := d.box, offered := d.offered) && Ahead(d) == Ahead(c)
    requires Behind(d) == Behind(c) + [e] || (Behind(d) == Behind(c) && (d.box.gap.Some? || e.topic !in c.on))
    requires c.box.gap.Some? ==> d.box.gap == c.box.gap && Behind(d) == Behind(c)
    ensures ReplayComplete(t, d) && LiveComplete(t, d)
  {
  }

  lemma PublishedOnWire(cfg: Config, w: World, c: Connection, topic: Topic, kind: string, body: string)
    requires Ok(cfg, w) && w.conn == Some(c)
    ensures var t := Published(cfg, w, topic, kind, body); var d := t.conn.value;
            ConnectionOk(cfg, t, d) && ReplayComplete(t, d) && LiveComplete(t, d) && MailKept(d)
  {
    hide RingsOk, AcceptedOk, Complete, ReplayComplete, LiveComplete, MailKept, Staged, Behind, Ahead, Ascending,
      MailboxOk;
    var t := Published(cfg, w, topic, kind, body);
    var e := Event(|w.log| + 1, topic, kind, body);
    OfferedBehind(c, e);
    var d := OfferedTo(c, e);
    assert e.topic in c.on ==> e.topic in cfg.topics;
    assert e.topic !in c.on ==> Behind(d) == Behind(c) && |Behind(d)| != |Behind(c) + [e]|;
    PublishedCompletely(w, c, t, d, e);
    PublishedConnection(cfg, w, c, t, d, e);
  }

  lemma PublishKeeps(cfg: Config, w: World, topic: Topic, kind: string, body: string)
    requires Ok(cfg, w)
    ensures Ok(cfg, Published(cfg, w, topic, kind, body))
  {
    hide ConnectionOk, ReplayComplete, LiveComplete, MailKept, RingsOk, AcceptedOk, Complete, IsLog, NothingAgain;
    var v, e := Published(cfg, w, topic, kind, body), Event(|w.log| + 1, topic, kind, body);
    RingsStayOk(w.rings, w.log, e, cfg.replay);
    LogGrows(cfg, w.log, w.reader, BaseNow(w), e);
    if w.conn.Some? {
      LogGrows(cfg, w.log, w.reader, w.conn.value.base, e);
      PublishedOnWire(cfg, w, w.conn.value, topic, kind, body);
    }
    PublishedPast(cfg, w, topic, kind, body);
  }

  lemma PublishedPast(cfg: Config, w: World, topic: Topic, kind: string, body: string)
    requires Ok(cfg, w)
    ensures NothingAgain(cfg, Published(cfg, w, topic, kind, body))
  {
    hide ConnectionOk, ReplayComplete, LiveComplete, MailKept, RingsOk, Complete, IsLog, Ahead, Behind, MailboxOk,
      AcceptedOk;
    var v, e := Published(cfg, w, topic, kind, body), Event(|w.log| + 1, topic, kind, body);
    LogGrows(cfg, w.log, w.reader, BaseNow(w), e);
    if Rewound(w) {
      forall t | t in cfg.topics
        ensures AllPast(RingFor(v.rings, t), HighWater(w.reader))
      {
        assert AllPast(RingFor(w.rings, t), HighWater(w.reader));
        LastOfIsIn(RingFor(w.rings, topic) + [e], cfg.replay);
      }
      if w.conn.Some? { OfferedBehind(w.conn.value, e) by { ConnectionMailbox(cfg, w, w.conn.value); } }
    }
  }

  lemma LastOfIsIn(s: seq<Event>, n: nat)
    ensures forall e :: e in LastOf(s, n) ==> e in s
  {
  }

  // ------------------------------------------------------------------ the other steps of the bus and the server

  lemma DropKeeps(cfg: Config, w: World, t: Topic)
    requires Ok(cfg, w)
    ensures Ok(cfg, Dropped(w, t))
  {
    hide ConnectionOk, ReplayComplete, LiveComplete, MailKept, IsLog, Ascending, RingOk, Ahead, Behind, MailboxOk;
    var v := Dropped(w, t);
    assert RingsOk(v.rings, v.log);
    if w.conn.Some? {
      DroppedOnWire(cfg, w, w.conn.value, t);
    }
    assert AcceptedOk(cfg, v.log, v.reader) && Complete(v.log, v.reader, BaseNow(v));
    hide AcceptedOk, Complete, RingsOk;
    assert NothingAgain(cfg, v) by {
      if Rewound(w) {
        forall u | u in cfg.topics
          ensures AllPast(RingFor(v.rings, u), HighWater(w.reader))
        {
          assert AllPast(RingFor(w.rings, u), HighWater(w.reader));
        }
      }
    }
  }

  lemma DroppedOnWire(cfg: Config, w: World, c: Connection, t: Topic)
    requires Ok(cfg, w) && w.conn == Some(c)
    ensures var v := Dropped(w, t); var d := v.conn.value;
            && ConnectionOk(cfg, v, d) && ReplayComplete(v, d) && LiveComplete(v, d) && MailKept(d)
            && d.base == c.base - {t} && Pending(d) == Pending(c)
            && Ahead(d) == Ahead(c) && (Behind(d) == Behind(c) + [Cleanup(t)] || Behind(d) == Behind(c))
  {
    hide RingsOk, AcceptedOk, Complete, ReplayComplete, LiveComplete, MailKept, Staged, Behind, Ahead, Ascending,
      MailboxOk;
    hide NothingAgain;
    var v := Dropped(w, t);
    var e, d := Cleanup(t), v.conn.value;
    OfferedBehind(c, e);
    var o := OfferedTo(c, e);
    assert d == o.(on := d.on, base := d.base);
    MailIsUnchanged(o, d);
    assert Staged(d) by { SameWireStaysStaged(c, d); }
    assert AscendingNumbers(Behind(d));
    DroppedCompletely(w, c, v, d, e);
  }

  lemma MailIsUnchanged(o: Connection, d: Connection)
    requires d == o.(on := d.on, base := d.base)
    ensures Ahead(d) == Ahead(o) && Behind(d) == Behind(o) && (MailKept(d) <==> MailKept(o))
        && (Staged(d) <==> Staged(o))
  {
  }

  lemma DroppedCompletely(w: World, c: Connection, v: World, d: Connection, e: Event)
    requires ReplayComplete(w, c) && LiveComplete(w, c)
    requires v.log == w.log && v.reader.accepted == w.reader.accepted
    requires d == c.(box := d.box, offered := d.offered, on := d.on, base := d.base)
    requires forall t :: t in d.base ==> t in c.base && c.base[t] == d.base[t]
    requires d.on <= c.on
    requires Ahead(d) == Ahead(c) && e.number == 0
    requires Behind(d) == Behind(c) + [e] || Behind(d) == Behind(c)
    requires c.box.gap.Some? ==> d.box.gap == c.box.gap
    ensures ReplayComplete(v, d) && LiveComplete(v, d)
  {
  }

  lemma {:induction false} FreshNone(wire: seq<Frame>)
    ensures FreshIn(wire) == [] <==> forall i :: 0 <= i < |wire| ==> !wire[i].Fresh?
  {
    if wire != [] {
      FreshNone(wire[1..]);
      assert forall i :: 1 <= i < |wire| ==> wire[i] == wire[1..][i - 1];
    }
  }

  /** A step of the generator that leaves what is on its way as it was. */
  lemma ServedAlike(cfg: Config, w: World, c: Connection, d: Connection)
    requires Ok(cfg, w) && w.conn == Some(c)
    requires Ahead(d) == Ahead(c) && Behind(d) == Behind(c)
    requires Staged(d) && MailboxOk(d.box) && MailKept(d)
    requires d.phase == Waiting && d.box.gap.Some? ==> d.box.gap.value > 0
    requires c.phase == Suspended <==> d.phase == Suspended
    requires Pending(d) == Pending(c) && (d.box.gap.Some? <==> c.box.gap.Some?)
    requires d.on == c.on && d.base == c.base && d.upTo == c.upTo
    ensures Ok(cfg, w.(conn := Some(d)))
  {
  }

  lemma EmittingStages(c: Connection)
    requires Staged(c) && c.phase.Replaying?
    ensures Staged(Emitted(c)) && Pending(Emitted(c)) == Pending(c)
  {
    hide FreshIn;
    FreshAppend(c.wire, Emitted(c).wire[|c.wire|]);
    FreshNone(c.wire);
  }

  /** Moving the replay onto the wire, event by event, leaves what is ahead as it was. */
  lemma EmittingMoves(c: Connection)
    requires c.phase.Replaying?
    ensures var d := Emitted(c); Ahead(d) == Ahead(c) && Behind(d) == Behind(c)
  {
    hide GapFree, FreshIn, ReplayedIn;
    var d := Emitted(c);
    FreshAppend(c.wire, d.wire[|c.wire|]);
    assert FreshIn(c.wire) + [] == FreshIn(c.wire) && ReplayedIn(c.wire) + [] == ReplayedIn(c.wire);
    if c.phase.rest != [] {
      var h, rest := c.phase.rest[0], c.phase.rest[1..];
      assert (ReplayedIn(c.wire) + [h]) + rest == ReplayedIn(c.wire) + c.phase.rest;
    }
  }

  lemma EmitKeeps(cfg: Config, w: World, c: Connection)
    requires Ok(cfg, w) && w.conn == Some(c) && c.phase.Replaying?
    ensures Ok(cfg, w.(conn := Some(Emitted(c))))
  {
    var d := Emitted(c);
    hide RingsOk, AcceptedOk, Complete, ReplayComplete, LiveComplete, Ascending, AscendingNumbers, IsLog;
    hide MailKept, MailboxOk, Staged, Ahead, Behind, Pending;
    SameMailboxKeepsMail(c, d);
    EmittingStages(c);
    EmittingMoves(c);
    ServedAlike(cfg, w, c, d);
  }

  lemma BeginKeeps(cfg: Config, w: World, c: Connection)
    requires Ok(cfg, w) && w.conn == Some(c) && c.phase == Live
    ensures Ok(cfg, w.(conn := Some(Begun(c))))
  {
    var d := Begun(c);
    hide RingsOk, AcceptedOk, Complete, ReplayComplete, LiveComplete, Ascending, AscendingNumbers, IsLog, GapFree;
    hide MailKept, FreshIn, ReplayedIn;
    assert MailKept(d) by { SameMailboxKeepsMail(c, d); }
    FreshAppend(c.wire, Overrun);
    assert FreshIn(c.wire) + [] == FreshIn(c.wire) && ReplayedIn(c.wire) + [] == ReplayedIn(c.wire);
    assert Ahead(d) == Ahead(c) && Behind(d) == Behind(c);
    hide Ahead, Behind;
    ServedAlike(cfg, w, c, d);
  }

  /** Taking the head moves it from the mailbox to what was taken, and the gap stays where it was. */
  lemma TakingKeeps(c: Connection)
    requires MailboxOk(c.box) && MailKept(c) && c.box.queue != [] && (c.box.gap.Some? ==> c.box.gap.value > 0)
    ensures var d := Finished(c);
            && MailboxOk(d.box) && MailKept(d) && GapFree(c.box) == [c.box.queue[0]] + GapFree(d.box)
  {
  }

  lemma FinishKeeps(cfg: Config, w: World, c: Connection)
    requires Ok(cfg, w) && w.conn == Some(c) && c.phase == Waiting
    ensures Ok(cfg, w.(conn := Some(Finished(c))))
  {
    var d := Finished(c);
    hide RingsOk, AcceptedOk, Complete, ReplayComplete, LiveComplete, Ascending, AscendingNumbers, IsLog;
    hide MailKept, GapFree, FreshIn, ReplayedIn;
    if c.box.queue == [] {
      assert MailKept(d) by { SameMailboxKeepsMail(c, d); }
    } else {
      var h := c.box.queue[0];
      TakingKeeps(c);
      FreshAppend(c.wire, Fresh(h));
      assert ReplayedIn(c.wire) + [] == ReplayedIn(c.wire);
      assert FreshIn(c.wire) + ([h] + GapFree(d.box)) == (FreshIn(c.wire) + [h]) + GapFree(d.box);
    }
    ServedAlike(cfg, w, c, d);
  }

  /** Every topic's base lies where the topic is whole from. */
  lemma BasedIsSound(log: seq<Event>, held: Rings, topics: set<Topic>, reached: nat, base: map<Topic, nat>, e: Event)
    requires IsLog(log) && RingsOk(held, log)
    requires var b := Based(log, held, topics, reached, base);
             e in log && e.topic in b && e.number > b[e.topic]
    ensures e.number > reached ==> e in RingFor(held, e.topic)
    ensures e.number <= reached ==> e.topic in base && e.number > base[e.topic]
  {
    hide Based.requires, OfTopic;
    var ring := RingFor(held, e.topic);
    if !(e.topic in base && Covers(log, e.topic, reached, ring)) {
      if ring == [] { Numbered(log, e); } else { HeldAbove(log, ring, e.topic, e); }
    }
  }

  /** Nothing has been put on the wire yet but the resync, and what is replayed is ahead of everything live. */
  lemma ResumedStages(cfg: Config, w: World, c: Connection)
    requires c.phase == Suspended && Staged(c)
    ensures var d := Resumed(cfg, w, c);
            Staged(d) && Ahead(d) == d.phase.rest && Ahead(c) == [] && Behind(d) == Behind(c)
  {
    hide Based, ReplayOf;
    assert ReplayedIn(c.wire) == [];
  }

  lemma ResumedReplay(cfg: Config, w: World, c: Connection)
    requires IsLog(w.log) && RingsOk(w.rings, w.log) && NoRepeats(cfg.topics)
    ensures var d := Resumed(cfg, w, c);
            && Ascending(d.phase.rest)
            && forall e :: e in d.phase.rest ==> e in w.log && e.topic in cfg.topics && 0 < e.number <= d.upTo
  {
    hide RingsOk, Based, ReplayOf;
    ReplayIsExact(w.rings, cfg.topics, 0, w.log);
    var d := Resumed(cfg, w, c);
    hide IsLog, Ascending;
    forall e | e in d.phase.rest
      ensures e in w.log && e.topic in cfg.topics && 0 < e.number <= d.upTo
    {
      InRingInLog(w.rings, w.log, e);
    }
  }

  lemma ResumeKeeps(cfg: Config, w: World, c: Connection)
    requires Ok(cfg, w) && w.conn == Some(c) && c.phase == Suspended && NoRepeats(cfg.topics)
    ensures Ok(cfg, w.(conn := Some(Resumed(cfg, w, c))))
  {
    var d := Resumed(cfg, w, c);
    hide RingsOk, AcceptedOk, MailKept, MailboxOk, AscendingNumbers, ReplayOf, Based, Staged, Ahead, Behind, Ascending;
    hide IsLog, Complete, ReplayComplete, LiveComplete, NothingAgain;
    ResumedStages(cfg, w, c);
    ResumedReplay(cfg, w, c);
    SameMailboxKeepsMail(c, d);
    ResumedKeys(cfg, w, c);
    assert ConnectionOk(cfg, w.(conn := Some(d)), d);
    ResumedIsPast(cfg, w, c);
    ResumedCompletely(cfg, w, c);
  }

  lemma ResumedKeys(cfg: Config, w: World, c: Connection)
    ensures Resumed(cfg, w, c).base.Keys <= c.on
  {
  }

  lemma ResumedIsPast(cfg: Config, w: World, c: Connection)
    requires Ok(cfg, w) && w.conn == Some(c) && c.phase == Suspended && NoRepeats(cfg.topics)
    requires Behind(Resumed(cfg, w, c)) == Behind(c) && Ahead(Resumed(cfg, w, c)) == Resumed(cfg, w, c).phase.rest
    ensures NothingAgain(cfg, w.(conn := Some(Resumed(cfg, w, c))))
  {
    hide RingsOk, AcceptedOk, MailKept, MailboxOk, AscendingNumbers, GapFree, ReplayOf, Based, Complete, ReplayComplete;
    hide LiveComplete, Ahead, Behind, ConnectionOk, IsLog, Ascending;
    var d := Resumed(cfg, w, c);
    ReplayIsExact(w.rings, cfg.topics, 0, w.log);
    if Rewound(w) {
      forall e | e in d.phase.rest
        ensures e.number > HighWater(w.reader)
      {
        assert AllPast(RingFor(w.rings, e.topic), HighWater(w.reader));
      }
    }
  }

  lemma ResumedCompletely(cfg: Config, w: World, c: Connection)
    requires Ok(cfg, w) && w.conn == Some(c) && c.phase == Suspended && NoRepeats(cfg.topics)
    requires Behind(Resumed(cfg, w, c)) == Behind(c) && Ahead(Resumed(cfg, w, c)) == Resumed(cfg, w, c).phase.rest
    ensures var d := Resumed(cfg, w, c); var v := w.(conn := Some(d));
            Complete(v.log, v.reader, d.base) && ReplayComplete(v, d) && LiveComplete(v, d)
  {
    hide RingsOk, AcceptedOk, MailKept, MailboxOk, AscendingNumbers, GapFree, ReplayOf, Based, Ahead, Behind, Ascending;
    hide NothingAgain, Staged, IsLog;
    var d := Resumed(cfg, w, c);
    var v := w.(conn := Some(d));
    var reached := HighWater(w.reader);
    ReplayIsExact(w.rings, cfg.topics, 0, w.log);
    forall e | Wanted(e, w.log, d.base) && e.number <= d.upTo
      ensures e.number > reached ==> e in d.phase.rest
      ensures e.number <= reached ==> Wanted(e, w.log, c.base)
    {
      ResumedBase(cfg, w, c, e);
    }
    assert LiveComplete(v, d) by {
      forall e | e in w.log ensures e.number <= |w.log| { Numbered(w.log, e); }
    }
  }

  lemma ResumedBase(cfg: Config, w: World, c: Connection, e: Event)
    requires IsLog(w.log) && RingsOk(w.rings, w.log) && c.upTo <= |w.log| && c.on <= TopicSet(cfg)
        && NoRepeats(cfg.topics)
    requires var d := Resumed(cfg, w, c); Wanted(e, w.log, d.base) && e.number <= d.upTo
    ensures e.number > HighWater(w.reader) ==> e in Resumed(cfg, w, c).phase.rest
    ensures e.number <= HighWater(w.reader) ==> Wanted(e, w.log, c.base)
  {
    hide RingOk, Ascending, ReplayOf, Covers;
    var d := Resumed(cfg, w, c);
    Numbered(w.log, e);
    ReplayIsExact(w.rings, cfg.topics, 0, w.log);
    if cfg.replayOnOpen {
      BasedIsSound(w.log, w.rings, c.on, HighWater(w.reader), c.base, e);
    } else {
      var log := UpTo(w.log, c.upTo);
      assert log[e.number - 1] == e;
      BasedIsSound(log, map[], c.on, HighWater(w.reader), c.base, e);
    }
  }

  lemma SameMailboxKeepsMail(c: Connection, d: Connection)
    requires MailKept(c) && d.box == c.box && d.taken == c.taken && d.offered == c.offered
    ensures MailKept(d)
  {
  }

  lemma InRingInLog(rings: Rings, log: seq<Event>, e: Event)
    requires IsLog(log) && RingsOk(rings, log) && e in RingFor(rings, e.topic)
    ensures e in log && 0 < e.number <= |log|
  {
  }

  // ------------------------------------------------------------------ connecting and reading

  /** What a new connection starts with. */
  lemma OpeningUnfolds(cfg: Config, w: World)
    requires IsLog(w.log) && RingsOk(w.rings, w.log) && NoRepeats(cfg.topics)
    ensures var c := Opening(cfg, w);
            && Behind(c) == [] && Staged(c) && Ascending(Ahead(c))
            && (forall e :: e in Ahead(c) ==> e in w.log && e.topic in cfg.topics && 0 < e.number <= |w.log|)
            && MailboxOk(c.box) && MailKept(c)
            && (c.phase == Suspended || c.phase.Replaying?)
            && (Pending(c) <==> c.phase == Suspended)
            && (c.phase == Suspended ==> w.reader.lastSeq != 0)
            && (c.phase.Replaying? && (w.reader.lastSeq != 0 || cfg.replayOnOpen) ==>
                  Ahead(c) == ReplayOf(w.rings, cfg.topics, w.reader.lastSeq))
  {
    hide RingsOk, ReplayOf, OldestOf, Ascending, IsLog, Based;
    var c := Opening(cfg, w);
    OpeningHolds(cfg, w);
    ReplayIsExact(w.rings, cfg.topics, w.reader.lastSeq, w.log);
    NothingAscends();
    forall e | e in Ahead(c)
      ensures e in w.log && e.topic in cfg.topics && 0 < e.number <= |w.log|
    {
      InRingInLog(w.rings, w.log, e);
    }
  }

  lemma OpeningHolds(cfg: Config, w: World)
    ensures var c := Opening(cfg, w);
            && Behind(c) == [] && Staged(c) && MailKept(c)
            && (Pending(c) <==> c.phase == Suspended)
            && Ahead(c) == if c.phase.Replaying? then c.phase.rest else []
  {
    hide ReplayOf, OldestOf, Based;
    var c := Opening(cfg, w);
    assert c.wire == [] || c.wire[1..] == [];
    assert GapFree(c.box) == [] && FreshIn(c.wire) == [] && ReplayedIn(c.wire) == [];
    assert Behind(c) == [] + [];
  }

  lemma ConnectKeeps(cfg: Config, w: World)
    requires Ok(cfg, w) && w.conn == None && NoRepeats(cfg.topics)
    ensures Ok(cfg, Connected(cfg, w))
  {
    hide RingsOk, ReplayOf, FirstPhase, Ahead, Behind, Staged, MailboxOk, MailKept, Ascending, Based, AllPast,
      RingsPast;
    hide ReplayComplete, LiveComplete;
    var v := Connected(cfg, w);
    var c := v.conn.value;
    OpeningUnfolds(cfg, w);
    LogReached(cfg, w);
    assert c.base.Keys <= c.on == TopicSet(cfg) by { hide NothingAgain, Complete; OpeningKeys(cfg, w); }
    assert ConnectionOk(cfg, v, c) by { hide Complete, AcceptedOk, NothingAgain; NothingAscends(); }
    hide ConnectionOk;
    OpeningCompletely(cfg, w);
    OpeningIsPast(cfg, w);
  }

  lemma LogReached(cfg: Config, w: World)
    requires Ok(cfg, w)
    ensures HighWater(w.reader) <= |w.log| && w.reader.lastSeq <= HighWater(w.reader)
  {
    hide RingsOk, ConnectionOk, ReplayComplete, LiveComplete, MailKept, Complete, NothingAgain;
    var r := w.reader;
    if r.accepted != [] {
      assert r.accepted[|r.accepted| - 1] in r.accepted;
      Numbered(w.log, r.accepted[|r.accepted| - 1]);
    }
  }

  lemma OpeningKeys(cfg: Config, w: World)
    ensures w.reader.base.Keys <= TopicSet(cfg) ==> Opening(cfg, w).base.Keys <= TopicSet(cfg)
  {
    hide Covers, HeldFrom, FirstPhase;
  }

  /** What is replayed on opening leaves nothing out that is wanted. */
  lemma OpeningCompletely(cfg: Config, w: World)
    requires Ok(cfg, w) && w.conn == None && NoRepeats(cfg.topics)
    ensures var v := Connected(cfg, w); var c := v.conn.value;
            Complete(v.log, v.reader, c.base) && ReplayComplete(v, c) && LiveComplete(v, c)
  {
    hide RingsOk, ReplayOf, FirstPhase, Ahead, Behind, Staged, MailboxOk, MailKept, Ascending, Based, NothingAgain;
    var v := Connected(cfg, w);
    var c := v.conn.value;
    OpeningUnfolds(cfg, w);
    LogReached(cfg, w);
    hide AcceptedOk;
    forall e | Wanted(e, w.log, c.base) && c.phase != Suspended
      ensures e.number > HighWater(w.reader) ==> e in Ahead(c)
      ensures e.number <= HighWater(w.reader) ==> Wanted(e, w.log, w.reader.base)
    {
      OpeningBase(cfg, w, e);
    }
    assert LiveComplete(v, c) by {
      forall e | e in w.log ensures e.number <= |w.log| { Numbered(w.log, e); }
    }
  }

  lemma OpeningBase(cfg: Config, w: World, e: Event)
    requires IsLog(w.log) && RingsOk(w.rings, w.log) && NoRepeats(cfg.topics) && w.reader.lastSeq <= HighWater(w.reader)
    requires Opening(cfg, w).phase != Suspended && Wanted(e, w.log, Opening(cfg, w).base)
    ensures e.number > HighWater(w.reader) ==> e in Ahead(Opening(cfg, w))
    ensures e.number <= HighWater(w.reader) ==> Wanted(e, w.log, w.reader.base)
  {
    hide RingOk, Ascending, ReplayOf, Covers, Ahead;
    OpeningHolds(cfg, w);
    ReplayIsExact(w.rings, cfg.topics, w.reader.lastSeq, w.log);
    var held := if w.reader.lastSeq != 0 || cfg.replayOnOpen then w.rings else map[];
    BasedIsSound(w.log, held, TopicSet(cfg), HighWater(w.reader), w.reader.base, e);
  }

  lemma OpeningIsPast(cfg: Config, w: World)
    requires Ok(cfg, w) && w.conn == None && NoRepeats(cfg.topics)
    ensures NothingAgain(cfg, Connected(cfg, w))
  {
    hide RingsOk, ReplayOf, Ahead, Behind, Staged, MailboxOk, MailKept, Ascending, Based, Complete, MustResync;
    var v := Connected(cfg, w);
    var c, n := v.conn.value, HighWater(w.reader);
    OpeningHolds(cfg, w);
    OpeningUnfolds(cfg, w);
    LogReached(cfg, w);
    if Rewound(v) {
      if c.phase == Suspended {
        assert MustResync(w.rings, cfg.topics, w.reader.lastSeq) by { OpeningSuspends(cfg, w); }
        ResyncMeansPast(w.rings, cfg.topics, w.reader.lastSeq, w.log);
      }
      forall e | e in Ahead(c)
        ensures e.number > n
      {
        ReplayIsExact(w.rings, cfg.topics, w.reader.lastSeq, w.log);
        assert AllPast(RingFor(w.rings, e.topic), n);
      }
    }
  }

  lemma OpeningSuspends(cfg: Config, w: World)
    ensures Opening(cfg, w).phase == Suspended <==> MustResync(w.rings, cfg.topics, w.reader.lastSeq)
  {
  }

  /** A resync replays only numbers beyond the cursor it takes back. */
  lemma ResyncMeansPast(rings: Rings, topics: seq<Topic>, cursor: nat, log: seq<Event>)
    requires IsLog(log) && RingsOk(rings, log) && MustResync(rings, topics, cursor)
    ensures RingsPast(rings, topics, cursor)
  {
    hide RingsOk, AllPast, IsLog, OldestOf;
    forall t | t in topics
      ensures AllPast(RingFor(rings, t), cursor)
    {
      if RingFor(rings, t) != [] { OldestIsLeast(rings, topics, log, t); }
      RingIsPast(rings, t, log, cursor);
    }
  }

  lemma RingIsPast(rings: Rings, t: Topic, log: seq<Event>, cursor: nat)
    requires RingsOk(rings, log) && (RingFor(rings, t) != [] ==> RingFor(rings, t)[0].number > cursor)
    ensures AllPast(RingFor(rings, t), cursor)
  {
    hide IsTail, OfTopic;
    var ring := RingFor(rings, t);
    assert t in rings ==> RingOk(ring, t, log);
  }

  lemma NothingAscends()
    ensures AscendingNumbers([]) && Ascending([])
  {
  }

  lemma DisconnectKeeps(cfg: Config, w: World)
    requires Ok(cfg, w)
    ensures Ok(cfg, Disconnected(w))
  {
    hide RingsOk, ReplayComplete, LiveComplete, MailKept, IsLog, Ascending, Staged, Ahead, Behind;
    assert BaseNow(Disconnected(w)) == BaseNow(w);
  }

  /** What reading a frame leaves on its way. */
  lemma ReadingShortens(c: Connection)
    requires c.wire != []
    ensures var d, f := c.(wire := c.wire[1..]), c.wire[0];
            && Ahead(c) == (if f.Replayed? then [f.event] else []) + Ahead(d)
            && Behind(c) == (if f.Fresh? then [f.event] else []) + Behind(d)
  {
  }

  lemma ReadingStages(c: Connection)
    requires Staged(c) && c.wire != []
    ensures var d := c.(wire := c.wire[1..]); Staged(d) && !Pending(d)
  {
    var d := c.(wire := c.wire[1..]);
    assert forall i :: 0 <= i < |d.wire| ==> d.wire[i] == c.wire[i + 1];
    FreshNone(c.wire);
    FreshNone(d.wire);
  }

  predicate Suffix(s: seq<Event>, t: seq<Event>) { |t| <= |s| && s[|s| - |t|..] == t }

  lemma SuffixKeeps(s: seq<Event>, t: seq<Event>)
    requires Suffix(s, t)
    ensures Ascending(s) ==> Ascending(t)
    ensures AscendingNumbers(s) ==> AscendingNumbers(t)
    ensures forall e :: e in t ==> e in s
  {
  }

  lemma ReadingIsSuffix(c: Connection)
    requires c.wire != []
    ensures var d := c.(wire := c.wire[1..]); Suffix(Ahead(c), Ahead(d)) && Suffix(Behind(c), Behind(d))
  {
    hide Ahead, Behind;
    ReadingShortens(c);
  }

  lemma ReadingKeepsConnection(cfg: Config, w: World, c: Connection, v: World)
    requires ConnectionOk(cfg, w, c) && MailKept(c) && c.wire != [] && v.log == w.log
    requires c.wire[0] == Resync ==> HighWater(v.reader) == HighWater(w.reader)
    ensures var d := c.(wire := c.wire[1..]); ConnectionOk(cfg, v, d) && MailKept(d) && !Pending(d)
  {
    hide MailboxOk, MailKept, Ahead, Behind, Suffix, Ascending, AscendingNumbers, Pending, HighWater, FreshIn;
    var d := c.(wire := c.wire[1..]);
    assert c.phase == Suspended ==> c.wire[0] == Resync;
    hide Staged;
    SameMailboxKeepsMail(c, d);
    ReadingStages(c);
    ReadingIsSuffix(c);
    SuffixKeeps(Ahead(c), Ahead(d));
    SuffixKeeps(Behind(c), Behind(d));
  }

  /** Nothing replayed is left once a fresh event is at the head. */
  lemma FreshMeansReplayed(c: Connection)
    requires Staged(c) && c.wire != [] && c.wire[0].Fresh?
    ensures Ahead(c) == []
  {
    NoReplayed(c.wire);
    assert FreshIn(c.wire) != [];
  }

  lemma {:induction false} NoReplayed(wire: seq<Frame>)
    requires forall i :: 0 <= i < |wire| ==> !wire[i].Replayed?
    ensures ReplayedIn(wire) == []
  {
    if wire != [] { NoReplayed(wire[1..]); }
  }

  /** The heart of it: when the client handles an event, nothing wanted lies between where it has got and that event. */
  lemma NothingSkipped(cfg: Config, w: World, c: Connection, e: Event)
    requires Ok(cfg, w) && w.conn == Some(c) && c.wire != []
    requires c.wire[0].Replayed? || c.wire[0].Fresh?
    requires Wanted(e, w.log, c.base) && HighWater(w.reader) < e.number <= c.wire[0].event.number
    ensures e == c.wire[0].event
  {
    hide RingsOk, AcceptedOk, Complete, MailKept, MailboxOk, Ahead, Behind, NothingAgain, HighWater;
    var x := c.wire[0].event;
    ReadingShortens(c);
    assert c.phase != Suspended;
    if c.wire[0].Replayed? {
      assert Ahead(c)[0] == x && x in Ahead(c);
      assert e in Ahead(c);
      var k :| 0 <= k < |Ahead(c)| && Ahead(c)[k] == e;
    } else {
      FreshMeansReplayed(c);
      assert e !in Ahead(c);
      assert Behind(c)[0] == x && x in Behind(c);
      assert e in Behind(c);
      var k :| 0 <= k < |Behind(c)| && Behind(c)[k] == e;
    }
  }

  /** An event that reaches the handler is logged, is new to the client, and is beyond all it has handled. */
  lemma HandledIsNew(cfg: Config, w: World, c: Connection)
    requires Ok(cfg, w) && w.conn == Some(c) && c.wire != []
    requires Read(w.reader, c.wire[0]).accepted != w.reader.accepted
    ensures var x := c.wire[0].event;
            && (c.wire[0].Replayed? || c.wire[0].Fresh?)
            && x in w.log && x.kind in REGISTERED && x.topic in cfg.topics && x.number > HighWater(w.reader)
            && Read(w.reader, c.wire[0]) == w.reader.(lastSeq := x.number, accepted := w.reader.accepted + [x])
  {
    hide RingsOk, Complete, MailKept, MailboxOk, Ahead, Behind, Staged, ReplayComplete, LiveComplete, Ascending;
    hide AscendingNumbers, IsLog, RingsPast;
    var x := c.wire[0].event;
    HeadIsLogged(cfg, w, c);
    ReadingShortens(c);
    LogReached(cfg, w);
    if c.wire[0].Replayed? { assert Ahead(c)[0] in Ahead(c); } else { assert Behind(c)[0] in Behind(c); }
  }

  lemma ReadKeepsReader(cfg: Config, w: World, c: Connection)
    requires Ok(cfg, w) && w.conn == Some(c) && c.wire != []
    ensures var v := Received(w, c);
            && AcceptedOk(cfg, v.log, v.reader) && Complete(v.log, v.reader, BaseNow(v))
            && HighWater(w.reader) <= HighWater(v.reader)
            && (c.wire[0] == Resync ==> HighWater(v.reader) == HighWater(w.reader))
  {
    hide RingsOk, ReplayComplete, LiveComplete, MailKept, MailboxOk, Ahead, Behind, Staged, IsLog, NothingAgain;
    var v := Received(w, c);
    var f := c.wire[0];
    assert !Pending(v.conn.value) by { hide Complete, AcceptedOk; ReadingStages(c); }
    if v.reader.accepted == w.reader.accepted {
      assert f != Resync ==> v.reader == w.reader;
      assert HighWater(v.reader) == HighWater(w.reader);
    } else {
      var x := f.event;
      HandledIsNew(cfg, w, c);
      AcceptedGrows(cfg, w.log, w.reader, x);
      forall e | Wanted(e, v.log, c.base) && e.number <= x.number
        ensures e in v.reader.accepted
      {
        if e.number <= HighWater(w.reader) {
          assert e in w.reader.accepted;
        } else {
          NothingSkipped(cfg, w, c, e);
        }
      }
    }
  }

  lemma HeadIsLogged(cfg: Config, w: World, c: Connection)
    requires ConnectionOk(cfg, w, c) && c.wire != [] && (c.wire[0].Replayed? || c.wire[0].Fresh?)
        && c.wire[0].event.number > 0
    ensures c.wire[0].event in w.log && c.wire[0].event.topic in cfg.topics
  {
    hide Ahead, Behind, Staged, MailboxOk, Ascending, AscendingNumbers;
    ReadingShortens(c);
    if c.wire[0].Replayed? { assert Ahead(c)[0] in Ahead(c); } else { assert Behind(c)[0] in Behind(c); }
  }

  lemma AcceptedGrows(cfg: Config, log: seq<Event>, r: Reader, x: Event)
    requires AcceptedOk(cfg, log, r) && x in log && IsLog(log)
    requires x.kind in REGISTERED && x.topic in cfg.topics && x.number > HighWater(r)
    ensures AcceptedOk(cfg, log, r.(lastSeq := x.number, accepted := r.accepted + [x]))
  {
  }

  lemma ReceiveKeeps(cfg: Config, w: World, c: Connection)
    requires Ok(cfg, w) && w.conn == Some(c) && c.wire != []
    ensures Ok(cfg, Received(w, c))
  {
    hide RingsOk, MailKept, ConnectionOk, AcceptedOk, Complete, IsLog, NothingAgain, ReplayComplete, LiveComplete,
      HighWater;
    hide Read;
    var v := Received(w, c);
    ReadKeepsReader(cfg, w, c);
    ReadingKeepsConnection(cfg, w, c, v);
    ReadingKeepsPromises(cfg, w, c);
    ReadingKeepsPast(cfg, w, c);
  }

  lemma ReadingKeepsPast(cfg: Config, w: World, c: Connection)
    requires Ok(cfg, w) && w.conn == Some(c) && c.wire != []
    ensures NothingAgain(cfg, Received(w, c))
  {
    hide RingsOk, MailKept, Complete, IsLog, MailboxOk, Ahead, Behind, Staged, Ascending, AscendingNumbers,
      ReplayComplete;
    hide LiveComplete, RingsPast;
    var v := Received(w, c);
    var d := v.conn.value;
    assert !Pending(d) by { hide AcceptedOk, NothingAgain; assert Staged(c); ReadingStages(c); }
    ReadingIsSuffix(c);
    SuffixKeeps(Ahead(c), Ahead(d));
    SuffixKeeps(Behind(c), Behind(d));
    if v.reader.accepted != w.reader.accepted { HandledIsNew(cfg, w, c); }
  }

  lemma ReadingKeepsPromises(cfg: Config, w: World, c: Connection)
    requires Ok(cfg, w) && w.conn == Some(c) && c.wire != []
    ensures var v := Received(w, c); ReplayComplete(v, v.conn.value) && LiveComplete(v, v.conn.value)
  {
    hide RingsOk, MailKept, Complete, IsLog, MailboxOk, Ahead, Behind, Staged, Ascending, AscendingNumbers;
    hide NothingAgain, HighWater, Read;
    var v := Received(w, c);
    var d, f := v.conn.value, c.wire[0];
    ReadingShortens(c);
    ReadKeepsReader(cfg, w, c);
    forall e: Event | e.kind in REGISTERED && e.number > HighWater(v.reader)
      ensures e in Ahead(c) ==> e in Ahead(d)
      ensures e in Behind(c) ==> e in Behind(d)
    {
      HandledOrBehind(w.reader, f, e);
    }
    assert forall e :: e in Behind(d) ==> e in Behind(c);
  }

  /** What is in a frame and listened for is behind the client once the frame is read. */
  lemma HandledOrBehind(r: Reader, f: Frame, e: Event)
    requires e.kind in REGISTERED && e.number > HighWater(Read(r, f)) && (r.lastSeq == 0 || r.lastSeq == HighWater(r))
    ensures (f.Replayed? || f.Fresh?) ==> f.event != e
  {
  }

  // ------------------------------------------------------------------ whole runs

  lemma StepKeeps(cfg: Config, w: World, step: Step)
    requires Ok(cfg, w) && NoRepeats(cfg.topics)
    ensures Ok(cfg, Next(cfg, w, step))
  {
    hide Ok, Published, Dropped, Connected, Disconnected, Received, Resumed, Emitted, Begun, Finished;
    match step
    case Publish(topic, kind, body) => PublishKeeps(cfg, w, topic, kind, body);
    case Drop(t) => DropKeeps(cfg, w, t);
    case Connect => if w.conn == None { ConnectKeeps(cfg, w); }
    case Disconnect => DisconnectKeeps(cfg, w);
    case Receive => if w.conn.Some? && w.conn.value.wire != [] { ReceiveKeeps(cfg, w, w.conn.value); }
    case _ =>
      if w.conn.Some? {
        var c := w.conn.value;
        if step == Resume && c.phase == Suspended { ResumeKeeps(cfg, w, c); }
        else if step == EmitReplay && c.phase.Replaying? { EmitKeeps(cfg, w, c); }
        else if step == BeginNext && c.phase == Live { BeginKeeps(cfg, w, c); }
        else if step == FinishNext && c.phase == Waiting { FinishKeeps(cfg, w, c); }
        else { assert Next(cfg, w, step) == w; }
      }
  }

  lemma {:induction false} RunKeeps(cfg: Config, steps: seq<Step>)
    requires NoRepeats(cfg.topics)
    ensures Ok(cfg, After(cfg, steps))
    decreases |steps|
  {
    hide Next;
    if steps == [] {
      StartIsOk(cfg);
    } else {
      RunKeeps(cfg, steps[..|steps| - 1]);
      StepKeeps(cfg, After(cfg, steps[..|steps| - 1]), steps[|steps| - 1]);
    }
  }

  lemma StartIsOk(cfg: Config)
    ensures Ok(cfg, Start(cfg))
  {
  }

  lemma SomeElement(s: seq<Event>)
    ensures s == [] || exists e :: e in s
  {
    if s != [] { assert s[0] in s; }
  }

  lemma {:induction false} AscendingSame(a: seq<Event>, b: seq<Event>)
    requires Ascending(a) && Ascending(b) && forall e :: e in a <==> e in b
    ensures a == b
    decreases |a|
  {
    if a == [] {
      SomeElement(b);
    } else {
      assert a[0] in b && b != [];
      assert b[0] in a;
      var i :| 0 <= i < |b| && b[i] == a[0];
      var j :| 0 <= j < |a| && a[j] == b[0];
      assert a[0] == b[0];
      forall e
        ensures e in a[1..] <==> e in b[1..]
      {
        if e in a[1..] { assert e in b; assert e != b[0]; }
        if e in b[1..] { assert e in a; assert e != a[0]; }
      }
      AscendingSame(a[1..], b[1..]);
    }
  }

  /** The registered events of one topic with numbers in (base, upTo], in order. */
  function Between(log: seq<Event>, t: Topic, base: nat, upTo: nat): seq<Event> {
    if log == [] then []
    else
      var rest, e := Between(log[..|log| - 1], t, base, upTo), log[|log| - 1];
      if e.topic == t && e.kind in REGISTERED && base < e.number <= upTo then rest + [e] else rest
  }

  lemma {:induction false} BetweenContains(log: seq<Event>, t: Topic, base: nat, upTo: nat, e: Event)
    ensures e in Between(log, t, base, upTo) <==>
              e in log && e.topic == t && e.kind in REGISTERED && base < e.number <= upTo
    decreases |log|
  {
    if log != [] {
      BetweenContains(log[..|log| - 1], t, base, upTo, e);
      assert log == log[..|log| - 1] + [log[|log| - 1]];
    }
  }

  lemma {:induction false} BetweenAscends(s: seq<Event>, t: Topic, base: nat, upTo: nat)
    requires Ascending(s)
    ensures Ascending(Between(s, t, base, upTo))
    decreases |s|
  {
    if s != [] {
      var front := s[..|s| - 1];
      BetweenAscends(front, t, base, upTo);
      var rest := Between(front, t, base, upTo);
      forall i | 0 <= i < |rest|
        ensures rest[i].number < s[|s| - 1].number
      {
        BetweenContains(front, t, base, upTo, rest[i]);
      }
    }
  }

  /**
   * Through every interleaving of publishing, dropping, connecting, suspending, replaying, live reading, overrunning
   * and losing the connection, and across every resync, what the client handles in its whole life is strictly in order
   * and without repeats.
   */
  lemma HandledInOrder(cfg: Config, steps: seq<Step>)
    requires NoRepeats(cfg.topics)
    ensures var w := After(cfg, steps);
            && Ascending(w.reader.accepted)
            && forall e :: e in w.reader.accepted ==> e in w.log && e.kind in REGISTERED && e.topic in cfg.topics
  {
    RunKeeps(cfg, steps);
  }

  /**
   * And on every topic it is exactly what was published there, of the types the client listens for, from the topic's
   * base to where the client has got.
   */
  lemma HandledCompletely(cfg: Config, steps: seq<Step>, t: Topic)
    requires NoRepeats(cfg.topics) && t in BaseNow(After(cfg, steps))
    ensures var w := After(cfg, steps); var base, reached := BaseNow(w)[t], HighWater(w.reader);
            Between(w.reader.accepted, t, base, reached) == Between(w.log, t, base, reached)
  {
    RunKeeps(cfg, steps);
    var w := After(cfg, steps);
    var base, reached := BaseNow(w)[t], HighWater(w.reader);
    hide RingsOk, ConnectionOk, ReplayComplete, LiveComplete, MailKept, Ascending, BaseNow, After, NothingAgain,
      HighWater;
    var a, b := Between(w.reader.accepted, t, base, reached), Between(w.log, t, base, reached);
    assert Ascending(w.log) by { LogAscends(w.log); }
    BetweenAscends(w.reader.accepted, t, base, reached);
    BetweenAscends(w.log, t, base, reached);
    forall e
      ensures e in a <==> e in b
    {
      BetweenContains(w.reader.accepted, t, base, reached, e);
      BetweenContains(w.log, t, base, reached, e);
      if e in b { assert Wanted(e, w.log, BaseNow(w)); }
    }
    AscendingSame(a, b);
  }

  predicate NoDropOf(steps: seq<Step>, t: Topic) { forall i :: 0 <= i < |steps| ==> steps[i] != Drop(t) }

  /** Every topic that was never dropped has a base. */
  lemma {:induction false} EveryTopicHasABase(cfg: Config, steps: seq<Step>, t: Topic)
    requires t in cfg.topics && NoDropOf(steps, t)
    ensures HasBase(After(cfg, steps), t) && t in BaseNow(After(cfg, steps))
    decreases |steps|
  {
    hide Next;
    if steps != [] {
      var front := steps[..|steps| - 1];
      EveryTopicHasABase(cfg, front, t);
      BaseSurvives(cfg, After(cfg, front), steps[|steps| - 1], t);
    }
  }

  ghost predicate HasBase(w: World, t: Topic) {
    t in w.reader.base && (w.conn.Some? ==> t in w.conn.value.on && t in w.conn.value.base)
  }

  lemma BaseSurvives(cfg: Config, w: World, step: Step, t: Topic)
    requires t in cfg.topics && HasBase(w, t) && step != Drop(t)
    ensures HasBase(Next(cfg, w, step), t)
  {
    hide FirstPhase, Covers, HeldFrom, Offered, Taken, ReplayOf;
    if step == Connect {
      assert t in TopicSet(cfg);
    } else if step.Receive? && w.conn.Some? && w.conn.value.wire != [] {
      assert Next(cfg, w, step).reader.base == w.reader.base;
    } else if step.Drop? {
      assert Next(cfg, w, step) == Dropped(w, step.topic);
    }
  }

  lemma LogAscends(log: seq<Event>)
    requires IsLog(log)
    ensures Ascending(log)
  {
  }

  /** Overrun or not, what a subscriber has been given is a gap-free prefix of what it was offered. */
  lemma OnlyAPrefixIsGiven(cfg: Config, steps: seq<Step>)
    requires NoRepeats(cfg.topics)
    ensures var w := After(cfg, steps);
            w.conn.Some? ==>
              && w.conn.value.taken <= w.conn.value.offered
              && (!w.conn.value.box.overrun ==> w.conn.value.taken + w.conn.value.box.queue == w.conn.value.offered)
  {
    RunKeeps(cfg, steps);
    var w := After(cfg, steps);
    hide RingsOk, ConnectionOk, ReplayComplete, LiveComplete, AcceptedOk, Complete, After;
    if w.conn.Some? {
      var c := w.conn.value;
      assert MailboxOk(c.box) by { ConnectionMailbox(cfg, w, c); }
      assert c.taken == (c.taken + GapFree(c.box))[..|c.taken|];
    }
  }

  lemma ConnectionMailbox(cfg: Config, w: World, c: Connection)
    requires ConnectionOk(cfg, w, c)
    ensures MailboxOk(c.box) && (c.phase == Waiting && c.box.gap.Some? ==> c.box.gap.value > 0)
  {
  }

  /** A connection that is not told to resync gives every topic a base, dropped before or not. */
  lemma ConnectingGivesBases(cfg: Config, w: World)
    requires !MustResync(w.rings, cfg.topics, w.reader.lastSeq)
    ensures BaseNow(Connected(cfg, w)).Keys == TopicSet(cfg)
  {
    hide MustResync, ReplayOf, Covers, HeldFrom;
  }

  /**
   * What a base is. It stays where it was unless an event after what the client had reached is no longer held; then it
   * lies just before the first event that is, so no lower number would do, and everything above it is held.
   */
  lemma TheBaseMovesOverAGap(log: seq<Event>, held: Rings, topics: set<Topic>, reached: nat, base: map<Topic, nat>,
                             t: Topic)
    returns (missed: Option<Event>)
    requires IsLog(log) && RingsOk(held, log) && t in topics && t in base
    ensures var b, ring := Based(log, held, topics, reached, base)[t], RingFor(held, t);
            && (missed == None ==> b == base[t] && Covers(log, t, reached, ring))
            && (missed.Some? ==>
                  && missed.value in log && missed.value.topic == t && missed.value !in ring
                  && reached < missed.value.number <= b
                  && b == HeldFrom(ring, |log|)
                  && forall e :: e in log && e.topic == t && e.number > b ==> e in ring)
  {
    hide OfTopic;
    var ring := RingFor(held, t);
    if Covers(log, t, reached, ring) {
      missed := None;
    } else {
      var e :| e in log && e.topic == t && e.number > reached && e !in ring;
      missed := Some(e);
      forall d | d in log && d.topic == t && d.number > HeldFrom(ring, |log|)
        ensures d in ring
      {
        if ring == [] { Numbered(log, d); } else { HeldAbove(log, ring, t, d); }
      }
    }
  }
}
