/**
 * Delivery gets somewhere: when a queue overruns, and that a connection whose queue has not overrun delivers everything
 * once the generator and the client are left to run (backend/app/modules/notification/sse.py,
 * backend/app/modules/notification/event_bus.py).
 */
module DeliveryProgress {
  import opened Common
  import opened EventBus
  import opened EventStream
  import opened Delivery

  /**
   * A queue overruns exactly when one more event is offered on a topic of its own while a hundred are waiting; nothing
   * takes that back as long as the connection lives, and the stream ends exactly when it asks for more after that.
   */
  lemma OverrunsExactly(cfg: Config, w: World, step: Step)
    requires w.conn.Some? && step != Disconnect
    ensures Next(cfg, w, step).conn.Some?
    ensures var c, d := w.conn.value, Next(cfg, w, step).conn.value;
            && (d.box.overrun <==>
                  || c.box.overrun
                  || (step.Publish? && step.topic in c.on && |c.box.queue| >= 100)
                  || (step.Drop? && step.topic in c.on && |c.box.queue| >= 100))
            && (d.phase == Over <==> c.phase == Over || (c.phase == Live && step == BeginNext && c.box.overrun))
  {
  }

  /** The steps of the two ends of the connection; nothing is published, dropped, opened or lost. */
  predicate Runs(step: Step) {
    step == Step.Resume || step == EmitReplay || step == BeginNext || step == FinishNext || step == Receive
  }

  ghost predicate CaughtUp(c: Connection) {
    c.wire == [] && c.box.queue == [] && (c.phase == Live || c.phase == Waiting)
  }

  /** What has to run next. */
  function Turn(c: Connection): Step {
    if c.wire != [] then Receive
    else if c.phase == Suspended then Step.Resume
    else if c.phase.Replaying? then EmitReplay
    else if c.phase == Live then BeginNext
    else FinishNext
  }

  lemma TurnShrinks(cfg: Config, w: World)
    requires w.conn.Some? && !w.conn.value.box.overrun && w.conn.value.box.gap == None
    requires w.conn.value.phase != Over && !CaughtUp(w.conn.value)
    ensures var v := Next(cfg, w, Turn(w.conn.value));
            && v.conn.Some? && !v.conn.value.box.overrun && v.conn.value.box.gap == None
            && v.conn.value.phase != Over && v.log == w.log && v.rings == w.rings
            && Smaller(v, w)
  {
    hide Based, ReplayOf, Dispatched;
  }

  function Stage(w: World): nat { if w.conn.Some? && w.conn.value.phase == Suspended then 1 else 0 }

  function ToReplay(w: World): nat {
    if w.conn.Some? && w.conn.value.phase.Replaying? then |w.conn.value.phase.rest| + 1 else 0
  }

  function Queued(w: World): nat { if w.conn.Some? then |w.conn.value.box.queue| else 0 }

  function Asking(w: World): nat { if w.conn.Some? && w.conn.value.phase == Live then 1 else 0 }

  function InTransit(w: World): nat { if w.conn.Some? then |w.conn.value.wire| else 0 }

  /** Each turn takes something off what is left to do. */
  ghost predicate Smaller(v: World, w: World) {
    (Stage(w), ToReplay(w), Queued(w), Asking(w), InTransit(w)
     decreases to Stage(v), ToReplay(v), Queued(v), Asking(v), InTransit(v))
  }

  /** Once nothing is on its way, everything published has been handled. */
  lemma CaughtUpIsComplete(cfg: Config, w: World, t: Topic)
    requires Ok(cfg, w) && w.conn.Some? && w.conn.value.box.gap == None && CaughtUp(w.conn.value)
    requires t in BaseNow(w)
    ensures var base := BaseNow(w)[t];
            Between(w.reader.accepted, t, base, |w.log|) == Between(w.log, t, base, |w.log|)
  {
    hide RingsOk, MailKept, NothingAgain, Ascending, HighWater;
    var c, base := w.conn.value, BaseNow(w)[t];
    assert Ahead(c) == [] && Behind(c) == [];
    var a, b := Between(w.reader.accepted, t, base, |w.log|), Between(w.log, t, base, |w.log|);
    assert Ascending(w.log) by { LogAscends(w.log); }
    BetweenAscends(w.reader.accepted, t, base, |w.log|);
    BetweenAscends(w.log, t, base, |w.log|);
    forall e
      ensures e in a <==> e in b
    {
      BetweenContains(w.reader.accepted, t, base, |w.log|, e);
      BetweenContains(w.log, t, base, |w.log|, e);
      if e in b {
        assert Wanted(e, w.log, c.base);
        assert e.number <= HighWater(w.reader);
      }
    }
    AscendingSame(a, b);
  }

  /**
   * From every reachable state in which the queue has not overrun, the two ends alone can bring the client up to date:
   * after finitely many of their steps, and nothing published meanwhile, it has handled on every topic exactly what was
   * published after the topic's base, to the last event.
   */
  lemma {:induction false} CatchesUp(cfg: Config, steps: seq<Step>) returns (more: seq<Step>)
    requires NoRepeats(cfg.topics)
    requires var w := After(cfg, steps); w.conn.Some? && w.conn.value.phase != Over && !w.conn.value.box.overrun
    ensures forall i :: 0 <= i < |more| ==> Runs(more[i])
    ensures var w, v := After(cfg, steps), After(cfg, steps + more);
            && v.log == w.log && v.conn.Some? && CaughtUp(v.conn.value)
            && forall t :: t in BaseNow(v) ==>
                 Between(v.reader.accepted, t, BaseNow(v)[t], |v.log|) == Between(w.log, t, BaseNow(v)[t], |w.log|)
    decreases Stage(After(cfg, steps)), ToReplay(After(cfg, steps)), Queued(After(cfg, steps)),
              Asking(After(cfg, steps)), InTransit(After(cfg, steps))
  {
    hide Ok, Next, After, Between, BaseNow;
    var w := After(cfg, steps);
    var c := w.conn.value;
    RunKeeps(cfg, steps);
    NoGap(cfg, w);
    if CaughtUp(c) {
      more := [];
      assert steps + more == steps;
      forall t | t in BaseNow(w)
        ensures Between(w.reader.accepted, t, BaseNow(w)[t], |w.log|) == Between(w.log, t, BaseNow(w)[t], |w.log|)
      {
        CaughtUpIsComplete(cfg, w, t);
      }
    } else {
      var step := Turn(c);
      TurnShrinks(cfg, w);
      OneMore(cfg, steps, step);
      var rest := CatchesUp(cfg, steps + [step]);
      more := [step] + rest;
      assert steps + more == steps + [step] + rest;
    }
  }

  lemma NoGap(cfg: Config, w: World)
    requires Ok(cfg, w) && w.conn.Some? && !w.conn.value.box.overrun
    ensures w.conn.value.box.gap == None
  {
    hide RingsOk, AcceptedOk, Complete, NothingAgain, ReplayComplete, LiveComplete, MailKept;
    ConnectionMailbox(cfg, w, w.conn.value);
  }

  lemma OneMore(cfg: Config, steps: seq<Step>, step: Step)
    ensures After(cfg, steps + [step]) == Next(cfg, After(cfg, steps), step)
  {
    assert (steps + [step])[..|steps|] == steps;
  }
}
