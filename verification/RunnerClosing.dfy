/**
 * Closing is not irrevocable: exactly which commands leave it, exactly which override a request to end that came before
 * the discussion began, and runs in which that happens (backend/app/modules/moderation/runner.py).
 */
module RunnerClosing {
  import opened Common
  import opened Ledger
  import opened Session
  import opened Runner
  import opened TurnPolicy
  import opened RunnerSafety
  import Progress = RunnerProgress
  import Text

  /** The policy would let the discussion go on, with this many silent turns in a row. */
  predicate GoesOn(cfg: Settings, s: Runner.State, silentTurns: nat, a: Around) {
    && s.talk.status == Active
    && ShouldClose(s.talk.tallies, cfg.budget, ElapsedSeconds(s.talk, a.turnAt), silentTurns) == None
  }

  /** Reports that an utterance is over are acted on in any state. */
  predicate ReportLeavesClosing(cfg: Settings, s: Runner.State, kind: TurnKind, a: Around) {
    match kind
    case Intro => true
    case Rules => GoesOn(cfg, s, s.talk.silentTurns, a)
    case Question => s.pending.Some?
    case FollowUp => s.pending.Some?
    case Nudge => s.pending.Some? || GoesOn(cfg, s, s.talk.silentTurns, a)
    case _ => false
  }

  /** A last word on behalf of nobody, as the hard cap may ask for when the floor is free. */
  predicate NobodysAnswerLeavesClosing(cfg: Settings, s: Runner.State, text: string, forced: bool, a: Around) {
    var said := Text.Strip(text) != "";
    && (said || forced)
    && if cfg.removeOnPersonalInformation && cfg.personal(text) then s.talk.status == Active
       else s.talk.status == Active ==> GoesOn(cfg, s, if said then 0 else s.talk.silentTurns + 1, a)
  }

  /** The commands that leave closing, with what each of them depends on. */
  predicate LeavesClosing(cfg: Settings, s: Runner.State, c: Command, a: Around) {
    match c
    case ParticipantConnected(u) =>
      var roster := MarkConnected(s.talk, u).roster;
      s.talk.status == Connecting && ConnectedCount(roster) >= |roster|
    case JoinWindowExpired => s.talk.status == Connecting && ConnectedCount(s.talk.roster) >= 2
    case SpeechStarted(u) => s.pending == Some(u)
    case UtteranceFinal(speaker, text, forced) => speaker == None && NobodysAnswerLeavesClosing(cfg, s, text, forced, a)
    case ModeratorFinishedSpeaking(kind, _, _) => ReportLeavesClosing(cfg, s, kind, a)
    case ModeratorSpeechFailed(kind) => ReportLeavesClosing(cfg, s, kind, a)
    case _ => false
  }

  lemma NextLeavesClosing(cfg: Settings, s: Runner.State, a: Around)
    requires s.talk.moderatorState in {Closing, Evaluating}
    ensures var t := NextAsked(cfg, s, a);
            && (GoesOn(cfg, s, s.talk.silentTurns, a) ==> t.talk.moderatorState == Questioning)
            && (!GoesOn(cfg, s, s.talk.silentTurns, a) && s.talk.status == Active ==> t.talk.moderatorState == Closing)
            && (s.talk.status != Active ==> t == s)
            && t.finished == s.finished
  {
    if GoesOn(cfg, s, s.talk.silentTurns, a) {
      var elapsed := ElapsedSeconds(s.talk, a.turnAt);
      NotClosingMeansSomebody(s.talk.tallies, cfg.budget, elapsed, s.talk.silentTurns, s.talk.lastSpeaker);
    }
  }

  lemma NobodysAnswerLeavesExactly(cfg: Settings, s: Runner.State, text: string, forced: bool, a: Around)
    requires s.talk.moderatorState == Closing && s.talk.floorHolder == None && !s.finished
    ensures var t := AfterAnswer(cfg, s, None, text, forced, a);
            !t.finished && (t.talk.moderatorState == Closing <==> !NobodysAnswerLeavesClosing(cfg, s, text, forced, a))
  {
    hide Text.Strip, NextAsked, TurnClosed, ShouldClose, ElapsedSeconds;
    NobodysTurnIsClosed(s, text, a);
    NextLeavesClosing(cfg, Folded(TurnClosed(s, None, text, a)), a);
    SameStartSameElapsed(s.talk, TurnClosed(s, None, text, a).talk, a.turnAt);
  }

  lemma NobodysTurnIsClosed(s: Runner.State, text: string, a: Around)
    ensures var t := TurnClosed(s, None, text, a);
            && t.talk.moderatorState == Evaluating && t.talk.status == s.talk.status && t.talk.tallies == s.talk.tallies
            && t.talk.startedAt == s.talk.startedAt && t.finished == s.finished
            && t.talk.silentTurns == if Text.Strip(text) != "" then 0 else s.talk.silentTurns + 1
  {
    hide Text.Strip;
  }

  lemma ReportLeavesExactly(cfg: Settings, s: Runner.State, kind: TurnKind, text: string, ms: int, a: Around)
    requires s.talk.moderatorState == Closing && !s.finished
    ensures var t := AfterSpoke(cfg, s, kind, text, ms, a);
            (t.finished || t.talk.moderatorState == Closing) <==> !ReportLeavesClosing(cfg, s, kind, a)
  {
    hide NextAsked, RecordTurn, ShouldClose, ElapsedSeconds;
    var t := Spoken(s, kind, text, ms);
    Progress.SpokenIsOtherwiseAlike(s, kind, text, ms);
    SameStartSameElapsed(s.talk, t.talk, a.turnAt);
    NextLeavesClosing(cfg, t, a);
  }

  /**
   * From closing, whatever command comes next, the session is still closing or has finished exactly when the command is
   * none of those above.
   */
  lemma ClosingStandsExactly(cfg: Settings, s: Runner.State, c: Command, a: Around)
    requires s.talk.moderatorState == Closing && s.talk.floorHolder == None && !s.finished
    ensures var t := Handled(cfg, s, c, a);
            (t.finished || t.talk.moderatorState == Closing) <==> !LeavesClosing(cfg, s, c, a)
  {
    hide AfterAnswer, AfterSpoke, Marked, ReportLeavesClosing, NobodysAnswerLeavesClosing;
    match c
    case ParticipantConnected(u) => Progress.MarkIsOtherwiseAlike(s.talk, u, Connected);
    case ParticipantDisconnected(u) => Progress.MarkIsOtherwiseAlike(s.talk, u, Disconnected);
    case UtteranceFinal(speaker, text, forced) =>
      if speaker == None {
        NobodysAnswerLeavesExactly(cfg, s, text, forced, a);
      } else {
        LateAnswerIsIgnored(cfg, s, speaker, text, forced, a);
      }
    case ModeratorFinishedSpeaking(kind, text, ms) => ReportLeavesExactly(cfg, s, kind, text, ms, a);
    case ModeratorSpeechFailed(kind) => ReportLeavesExactly(cfg, s, kind, ScriptedFallback(kind), 0, a);
    case _ =>
  }

  lemma LateAnswerIsIgnored(
    cfg: Settings, s: Runner.State, speaker: Option<UserId>, text: string, forced: bool, a: Around)
    requires speaker != s.talk.floorHolder
    ensures AfterAnswer(cfg, s, speaker, text, forced, a) == s
  {
  }

  // ------------------------------------------------------------------ the floor is free while closing

  ghost predicate FloorFreeInClosing(s: Runner.State) {
    s.talk.moderatorState == Closing ==> s.talk.floorHolder == None
  }

  lemma NextFreesTheFloor(cfg: Settings, s: Runner.State, a: Around)
    requires FloorFreeInClosing(s)
    ensures FloorFreeInClosing(NextAsked(cfg, s, a))
  {
    hide ShouldClose, SelectNextSpeaker, ElapsedSeconds;
  }

  lemma AnswerFreesTheFloor(cfg: Settings, s: Runner.State, speaker: Option<UserId>, text: string, forced: bool,
                            a: Around)
    requires FloorFreeInClosing(s)
    ensures FloorFreeInClosing(AfterAnswer(cfg, s, speaker, text, forced, a))
  {
    hide NextAsked, Text.Strip, FollowsUp, WithFollowUp, RecordTurn, WithSpeech, Marked;
    var t := TurnClosed(s, speaker, text, a);
    assert t.talk.floorHolder == None by { ClosedTurnFreesTheFloor(s, speaker, text, a); }
    NextFreesTheFloor(cfg, Folded(t), a);
    if speaker.Some? { Progress.MarkIsOtherwiseAlike(Released(s).talk, speaker.value, Removed); }
  }

  lemma ClosedTurnFreesTheFloor(s: Runner.State, speaker: Option<UserId>, text: string, a: Around)
    ensures TurnClosed(s, speaker, text, a).talk.floorHolder == None
  {
  }

  lemma DisconnectFreesTheFloor(cfg: Settings, s: Runner.State, u: UserId, a: Around)
    requires FloorFreeInClosing(s)
    ensures FloorFreeInClosing(AfterDisconnected(cfg, s, u, a))
  {
    hide NextAsked, Marked, TurnClosed, ConnectedCount;
    Progress.MarkIsOtherwiseAlike(s.talk, u, Disconnected);
    var t := s.(talk := MarkDisconnected(s.talk, u));
    ClosedTurnFreesTheFloor(t, Some(u), "", a);
    NextFreesTheFloor(cfg, TurnClosed(t, Some(u), "", a), a);
  }

  lemma SilenceFreesTheFloor(cfg: Settings, s: Runner.State, index: nat, a: Around)
    requires FloorFreeInClosing(s)
    ensures FloorFreeInClosing(AfterSilence(cfg, s, index, a))
  {
    hide NextAsked, WithSpeech;
    if s.talk.floorHolder.Some? { NextFreesTheFloor(cfg, SilenceSpent(Released(s), s.talk.floorHolder.value), a); }
  }

  lemma ReportFreesTheFloor(cfg: Settings, s: Runner.State, kind: TurnKind, text: string, ms: int, a: Around)
    requires FloorFreeInClosing(s)
    ensures FloorFreeInClosing(AfterSpoke(cfg, s, kind, text, ms, a))
  {
    hide NextAsked, RecordTurn;
    Progress.SpokenIsOtherwiseAlike(s, kind, text, ms);
    NextFreesTheFloor(cfg, Spoken(s, kind, text, ms), a);
  }

  lemma CommandFreesTheFloor(cfg: Settings, s: Runner.State, c: Command, a: Around)
    requires FloorFreeInClosing(s)
    ensures FloorFreeInClosing(Handled(cfg, s, c, a))
  {
    hide AfterAnswer, AfterDisconnected, AfterSilence, AfterSpoke, Marked;
    match c
    case UtteranceFinal(speaker, text, forced) => AnswerFreesTheFloor(cfg, s, speaker, text, forced, a);
    case ParticipantConnected(u) => Progress.MarkIsOtherwiseAlike(s.talk, u, Connected);
    case ParticipantDisconnected(u) => DisconnectFreesTheFloor(cfg, s, u, a);
    case SilenceTimeout(index) => SilenceFreesTheFloor(cfg, s, index, a);
    case ModeratorFinishedSpeaking(kind, text, ms) => ReportFreesTheFloor(cfg, s, kind, text, ms, a);
    case ModeratorSpeechFailed(kind) => ReportFreesTheFloor(cfg, s, kind, ScriptedFallback(kind), 0, a);
    case _ =>
  }

  /** In every run, so the condition of the result above always holds. */
  lemma {:induction false} RunsFreeTheFloor(cfg: Settings, s: Runner.State, steps: seq<Step>)
    requires FloorFreeInClosing(s)
    ensures FloorFreeInClosing(RunOf(cfg, s, steps))
    decreases |steps|
  {
    hide Handled;
    if steps != [] {
      if steps[0].Command? && !s.finished { CommandFreesTheFloor(cfg, s, steps[0].c, steps[0].a); }
      RunsFreeTheFloor(cfg, Stepped(cfg, s, steps[0]), steps[1..]);
    }
  }

  // ------------------------------------------------------------------ an end asked for too early

  /** The commands that override a request to end made while people are still awaited. */
  predicate OverridesTheEnd(cfg: Settings, s: Runner.State, c: Command) {
    match c
    case ParticipantConnected(u) =>
      var roster := MarkConnected(s.talk, u).roster;
      ConnectedCount(roster) >= |roster|
    case JoinWindowExpired => ConnectedCount(s.talk.roster) >= 2
    case ModeratorFinishedSpeaking(kind, _, _) => kind == Intro
    case ModeratorSpeechFailed(kind) => kind == Intro
    case UtteranceFinal(speaker, text, forced) =>
      && speaker == None && (Text.Strip(text) != "" || forced)
      && !(cfg.removeOnPersonalInformation && cfg.personal(text))
    case _ => false
  }

  /**
   * A request to end before the discussion has begun stands through the next command exactly when it is none of those.
   */
  lemma EarlyEndStandsExactly(cfg: Settings, s: Runner.State, reason: EndReason, a: Around, c: Command, b: Around)
    requires s.talk.status == Connecting && s.talk.moderatorState == Idle && !s.finished
    requires s.pending == None && s.talk.floorHolder == None
    ensures var t := Handled(cfg, Handled(cfg, s, EndSessionRequested(reason), a), c, b);
            (t.finished || t.talk.moderatorState == Closing) <==> !OverridesTheEnd(cfg, s, c)
  {
    EarlyEndCloses(cfg, s, reason, a);
    hide Text.Strip, Seat, WithConnection, Handled;
    var e := Handled(cfg, s, EndSessionRequested(reason), a);
    ClosingStandsExactly(cfg, e, c, b);
    hide AfterAnswer, FollowsUp, ShouldClose, ElapsedSeconds;
  }

  lemma EarlyEndCloses(cfg: Settings, s: Runner.State, reason: EndReason, a: Around)
    requires s.talk.moderatorState == Idle && s.pending == None && !s.finished
    ensures var e := Handled(cfg, s, EndSessionRequested(reason), a);
            && e.talk == s.talk.(floorHolder := None, floorGrantedAt := None, moderatorState := Closing)
            && !e.finished && e.pending == None
  {
  }

  // ------------------------------------------------------------------ runs in which it happens

  lemma {:induction false} AfterAppend(cfg: Settings, w: Progress.World, events: seq<Progress.Event>,
                                        e: Progress.Event)
    ensures var v := Progress.After(cfg, w, events);
            Progress.After(cfg, w, events + [e]) == if Progress.Enabled(v, e) then Progress.Next(cfg, v, e) else v
    decreases |events|
  {
    hide Progress.Enabled, Progress.Next;
    if events == [] {
      assert events + [e] == [e] && [e][1..] == [];
    } else {
      var v := if Progress.Enabled(w, events[0]) then Progress.Next(cfg, w, events[0]) else w;
      AfterAppend(cfg, v, events[1..], e);
      assert (events + [e])[1..] == events[1..] + [e] && (events + [e])[0] == events[0];
    }
  }

  /** A command arrives and is handled at once. */
  lemma ArrivesAndIsHandled(cfg: Settings, start: Progress.World, events: seq<Progress.Event>, c: Command, a: Around)
    returns (more: seq<Progress.Event>)
    requires Progress.External(c) && !Progress.After(cfg, start, events).s.finished
    ensures var w := Progress.After(cfg, start, events);
            Progress.After(cfg, start, more) == Progress.World(Handled(cfg, w.s, c, a), w.queued)
  {
    hide Handled, Progress.After;
    var w := Progress.After(cfg, start, events);
    var arrived := events + [Progress.Arrives(c)];
    AfterAppend(cfg, start, events, Progress.Arrives(c));
    more := arrived + [Progress.Deliver(c, a)];
    AfterAppend(cfg, start, arrived, Progress.Deliver(c, a));
    assert w.queued + multiset{c} - multiset{c} == w.queued;
  }

  const TWO: seq<(UserId, string, nat)> := [(1, "Ada", 1), (2, "Ben", 2)]
  const THREE: seq<(UserId, string, nat)> := [(1, "Ada", 1), (2, "Ben", 2), (3, "Cy", 3)]

  /** Who is on the roster, and how. */
  ghost predicate Room(t: Session.State, people: seq<(UserId, Connection)>) {
    && |t.roster| == |people|
    && forall i :: 0 <= i < |people| ==> t.roster[i].user == people[i].0 && t.roster[i].connection == people[i].1
  }

  lemma SeatedRooms()
    ensures Room(Seated(TWO), [(1, Invited), (2, Invited)])
    ensures Room(Seated(THREE), [(1, Invited), (2, Invited), (3, Invited)])
  {
    assert TWO[..1][..0] == [] && TWO[..1][0] == TWO[0];
    assert THREE[..2] == [THREE[0], THREE[1]];
    assert THREE[..2][..1] == [THREE[0]] && THREE[..2][..1][..0] == [];
    assert Room(Seated(TWO[..1]), [(1, Invited)]);
    assert Room(Seated(THREE[..2][..1]), [(1, Invited)]);
    assert Room(Seated(THREE[..2]), [(1, Invited), (2, Invited)]);
  }

  /** Nobody has been marked yet: how marking one person changes who is on the roster. */
  lemma RoomConnects(s: Runner.State, people: seq<(UserId, Connection)>, i: nat, a: Around)
    requires Room(s.talk, people) && i < |people| && people[i].1 != Removed
    requires forall k :: 0 <= k < i ==> people[k].0 != people[i].0
    requires s.talk.status == Connecting
    ensures var t := s.(talk := MarkConnected(s.talk, people[i].0));
            && Room(t.talk, people[i := (people[i].0, Connected)])
            && AfterConnected(s, people[i].0, a) ==
                 (if ConnectedCount(t.talk.roster) >= |people| then DiscussionBegun(t, a) else t)
  {
    Progress.MarkIsOtherwiseAlike(s.talk, people[i].0, Connected);
    assert Seat(s.talk.roster, people[i].0) == i;
    hide Seat, ConnectedCount, WithConnection;
  }

  lemma CountTwo(r: Roster)
    requires |r| == 2
    ensures ConnectedCount(r) == (if r[0].connection == Connected then 1 else 0)
        + (if r[1].connection == Connected then 1 else 0)
  {
    assert r[1..][1..] == [] && r[1..][0] == r[1];
    assert ConnectedCount(r[1..]) == (if r[1].connection == Connected then 1 else 0) + ConnectedCount([]);
  }

  lemma CountThree(r: Roster)
    requires |r| == 3
    ensures ConnectedCount(r) ==
              (if r[0].connection == Connected then 1 else 0) + (if r[1].connection == Connected then 1 else 0)
              + (if r[2].connection == Connected then 1 else 0)
  {
    CountTwo(r[1..]);
  }

  /** Two people connect and the introduction begins. */
  lemma IntroductionBegins(cfg: Settings, a: Around) returns (events: seq<Progress.Event>)
    ensures var w := Progress.After(cfg, Progress.World(Bootstrapped(TWO), multiset{}), events);
            && w.s.talk.status == Active && w.s.talk.moderatorState == Introducing && w.s.speech == Some(Intro)
            && !w.s.finished && w.queued == multiset{}
  {
    events := OneOfTwoCame(cfg, a);
    var start := Progress.World(Bootstrapped(TWO), multiset{});
    hide Bootstrapped, Progress.After, AfterConnected, Room, ConnectedCount, Marked;
    var one := Progress.After(cfg, start, events).s;
    events := ArrivesAndIsHandled(cfg, start, events, ParticipantConnected(2), a);
    RoomConnects(one, [(1, Connected), (2, Invited)], 1, a);
    assert [(1, Connected), (2, Invited)][1 := (2, Connected)] == [(1, Connected), (2, Connected)];
    RoomOfTwo(MarkConnected(one.talk, 2), Connected, Connected);
    Progress.MarkIsOtherwiseAlike(one.talk, 2, Connected);
  }

  lemma OneOfTwoCame(cfg: Settings, a: Around) returns (events: seq<Progress.Event>)
    ensures var w := Progress.After(cfg, Progress.World(Bootstrapped(TWO), multiset{}), events);
            && Room(w.s.talk, [(1, Connected), (2, Invited)])
            && w.s.talk.status == Connecting && !w.s.finished && w.queued == multiset{}
  {
    SeatedRooms();
    Progress.SeatedIsIdle(TWO);
    var start := Progress.World(Bootstrapped(TWO), multiset{});
    assert start.s.talk == Seated(TWO).(status := Connecting) && !start.s.finished;
    hide Bootstrapped, Seated, Progress.After, AfterConnected, Room, ConnectedCount, Marked;
    AfterNothing(cfg, start);
    events := ArrivesAndIsHandled(cfg, start, [], ParticipantConnected(1), a);
    RoomSurvives(Seated(TWO), start.s.talk, [(1, Invited), (2, Invited)]);
    RoomConnects(start.s, [(1, Invited), (2, Invited)], 0, a);
    assert [(1, Invited), (2, Invited)][0 := (1, Connected)] == [(1, Connected), (2, Invited)];
    RoomOfTwo(MarkConnected(start.s.talk, 1), Connected, Invited);
    Progress.MarkIsOtherwiseAlike(start.s.talk, 1, Connected);
  }

  lemma RoomOfThree(t: Session.State, first: Connection, second: Connection)
    requires Room(t, [(1, first), (2, second), (3, Invited)])
    ensures |t.roster| == 3
    ensures ConnectedCount(t.roster) == (if first == Connected then 1 else 0) + (if second == Connected then 1 else 0)
  {
    CountThree(t.roster);
  }

  /** Three are awaited and two have come. */
  lemma TwoOfThreeCame(cfg: Settings, a: Around) returns (events: seq<Progress.Event>)
    ensures var w := Progress.After(cfg, Progress.World(Bootstrapped(THREE), multiset{}), events);
            && w.s.talk.status == Connecting && w.s.talk.moderatorState == Idle && !w.s.finished
            && w.queued == multiset{}
            && w.s.timers == map[Join := JoinWindowExpired] && ConnectedCount(w.s.talk.roster) == 2
  {
    SeatedRooms();
    Progress.SeatedIsIdle(THREE);
    var start := Progress.World(Bootstrapped(THREE), multiset{});
    assert start.s.talk == Seated(THREE).(status := Connecting) && !start.s.finished;
    assert start.s.timers == map[Join := JoinWindowExpired];
    hide Bootstrapped, Seated, Progress.After, AfterConnected, Room, ConnectedCount, Marked;
    AfterNothing(cfg, start);
    events := ArrivesAndIsHandled(cfg, start, [], ParticipantConnected(1), a);
    var people := [(1, Invited), (2, Invited), (3, Invited)];
    assert Room(start.s.talk, people) by { RoomSurvives(Seated(THREE), start.s.talk, people); }
    RoomConnects(start.s, people, 0, a);
    assert people[0 := (1, Connected)] == [(1, Connected), (2, Invited), (3, Invited)];
    var one := start.s.(talk := MarkConnected(start.s.talk, 1));
    RoomOfThree(one.talk, Connected, Invited);
    Progress.MarkIsOtherwiseAlike(start.s.talk, 1, Connected);
    assert Progress.After(cfg, start, events).s == one;
    events := ArrivesAndIsHandled(cfg, start, events, ParticipantConnected(2), a);
    RoomConnects(one, [(1, Connected), (2, Invited), (3, Invited)], 1, a);
    assert [(1, Connected), (2, Invited), (3, Invited)][1 := (2, Connected)]
      == [(1, Connected), (2, Connected), (3, Invited)];
    RoomOfThree(MarkConnected(one.talk, 2), Connected, Connected);
    Progress.MarkIsOtherwiseAlike(one.talk, 2, Connected);
  }

  /**
   * Three are awaited and two have come; the join window runs out, and before that is handled the host's request to end
   * is: the discussion begins all the same, although one person is still missing.
   */
  lemma EndIsOverriddenByTheJoinWindow(cfg: Settings, a: Around) returns (events: seq<Progress.Event>)
    ensures var w := Progress.After(cfg, Progress.World(Bootstrapped(THREE), multiset{}), events);
            && Progress.Deliver(EndSessionRequested(HostEnded), a) in events && w.s.endReason == Some(HostEnded)
            && w.s.talk.status == Active && w.s.talk.moderatorState == Introducing && w.s.speech == Some(Intro)
            && !w.s.finished && w.queued == multiset{}
  {
    var start := Progress.World(Bootstrapped(THREE), multiset{});
    var end := EndSessionRequested(HostEnded);
    events := TwoOfThreeCame(cfg, a);
    hide Bootstrapped, Progress.After;
    var w := Progress.After(cfg, start, events);
    events := RunExtends(cfg, start, events, Progress.Fires(Join));
    events := RunExtends(cfg, start, events, Progress.Arrives(end));
    var x := Progress.After(cfg, start, events);
    assert x == Progress.World(w.s.(timers := w.s.timers - {Join}), multiset{JoinWindowExpired, end});
    events := RunExtends(cfg, start, events, Progress.Deliver(end, a));
    var y := Progress.After(cfg, start, events);
    assert y.s == ClosingBegun(x.s, HostEnded) && y.queued == multiset{JoinWindowExpired};
    events := RunExtends(cfg, start, events, Progress.Deliver(JoinWindowExpired, a));
  }

  lemma AfterNothing(cfg: Settings, w: Progress.World)
    ensures Progress.After(cfg, w, []) == w
  {
  }

  lemma RoomSurvives(t: Session.State, r: Session.State, people: seq<(UserId, Connection)>)
    requires Room(t, people) && r.roster == t.roster
    ensures Room(r, people)
  {
  }

  lemma RoomOfTwo(t: Session.State, first: Connection, second: Connection)
    requires Room(t, [(1, first), (2, second)])
    ensures |t.roster| == 2
    ensures ConnectedCount(t.roster) == (if first == Connected then 1 else 0) + (if second == Connected then 1 else 0)
  {
    CountTwo(t.roster);
  }

  /**
   * Two people connect, the introduction ends, the host's request to end is handled first and the report of the
   * introduction next: the closing words are cut off and the discussion goes on with its rules.
   */
  lemma EndIsOverriddenByTheIntroduction(cfg: Settings, a: Around) returns (events: seq<Progress.Event>)
    ensures var w := Progress.After(cfg, Progress.World(Bootstrapped(TWO), multiset{}), events);
            && Progress.Deliver(EndSessionRequested(HostEnded), a) in events && w.s.endReason == Some(HostEnded)
            && w.s.talk.status == Active && w.s.talk.moderatorState == ExplainingRules && w.s.speech == Some(Rules)
            && !w.s.finished && w.queued == multiset{}
  {
    var start := Progress.World(Bootstrapped(TWO), multiset{});
    var end, report := EndSessionRequested(HostEnded), ModeratorFinishedSpeaking(Intro, "Welcome.", 1000);
    events := IntroductionBegins(cfg, a);
    hide Bootstrapped, Progress.After;
    var w := Progress.After(cfg, start, events);
    IntroductionGoesOn(cfg, w.s, a);
    events := RunExtends(cfg, start, events, Progress.Arrives(end));
    events := RunExtends(cfg, start, events, Progress.SpeechEnds("Welcome.", 1000));
    var x := Progress.After(cfg, start, events);
    hide Handled;
    assert x == Progress.World(w.s.(speech := None), multiset{end, report});
    events := RunExtends(cfg, start, events, Progress.Deliver(end, a));
    var y := Progress.After(cfg, start, events);
    assert y.queued == multiset{report};
    events := RunExtends(cfg, start, events, Progress.Deliver(report, a));
  }

  /** Once the introduction has been spoken: its report, handled after a request to end, takes over from the closing. */
  lemma IntroductionGoesOn(cfg: Settings, s: Runner.State, a: Around)
    requires s.talk.status == Active && s.talk.moderatorState == Introducing && !s.finished
    ensures var y := Handled(cfg, s.(speech := None), EndSessionRequested(HostEnded), a);
            var t := Handled(cfg, y, ModeratorFinishedSpeaking(Intro, "Welcome.", 1000), a);
            && !y.finished && !t.finished && t.endReason == Some(HostEnded)
            && t.talk.status == Active && t.talk.moderatorState == ExplainingRules && t.speech == Some(Rules)
  {
    var y := Handled(cfg, s.(speech := None), EndSessionRequested(HostEnded), a);
    Progress.SpokenIsOtherwiseAlike(y, Intro, "Welcome.", 1000);
  }

  lemma RunExtends(cfg: Settings, start: Progress.World, events: seq<Progress.Event>, e: Progress.Event)
    returns (more: seq<Progress.Event>)
    requires Progress.Enabled(Progress.After(cfg, start, events), e)
    ensures more == events + [e]
    ensures Progress.After(cfg, start, more) == Progress.Next(cfg, Progress.After(cfg, start, events), e)
  {
    more := events + [e];
    AfterAppend(cfg, start, events, e);
  }
}
