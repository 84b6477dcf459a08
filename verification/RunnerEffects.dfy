/**
 * Who gets and who loses the floor, who is called on, what is written down, which timers run and how a discussion ends:
 * each for every command, from what the command meets (backend/app/modules/moderation/runner.py).
 */
module RunnerEffects {
  import opened Common
  import opened Ledger
  import opened Session
  import opened Runner
  import opened RunnerSafety
  import opened RunnerAccounts
  import opened TurnPolicy
  import Text
  import VoicePlane

  // ------------------------------------------------------------------ which command brings what

  function Words(c: Command): string
    requires c.ModeratorFinishedSpeaking? || c.ModeratorSpeechFailed?
  {
    if c.ModeratorFinishedSpeaking? then c.text else ScriptedFallback(c.kind)
  }

  /** Each thing that may happen comes with one kind of command. */
  lemma KindsOfEvents(cfg: Settings, s: Runner.State, c: Command, t: Runner.State)
    ensures Answers(cfg, s, c) || Expels(cfg, s, c) ==> c.UtteranceFinal? && c.speaker == s.talk.floorHolder
    ensures IsAskedAgain(s, c, t) ==> c.UtteranceFinal?
    ensures Departs(s, c, t) || Empties(s, c, t) ==> c.ParticipantDisconnected?
    ensures FallsSilent(s, c) ==> c.SilenceTimeout? && s.talk.floorHolder.Some?
    ensures SpendsTurn(s, c) ==> FallsSilent(s, c)
    ensures Begins(s, c, t) ==> c.ParticipantConnected? || c.JoinWindowExpired?
    ensures TimesOut(s, c) ==> c.JoinWindowExpired?
    ensures forall kind :: Reports(c, kind) ==>
              (c.ModeratorFinishedSpeaking? || c.ModeratorSpeechFailed?) && c.kind == kind
    ensures FloorGoesTo(s, c).Some? ==> c.ModeratorFinishedSpeaking? || c.ModeratorSpeechFailed? || c.SpeechStarted?
    ensures EndsTurn(cfg, s, c, t) <==> Answers(cfg, s, c) || Departs(s, c, t) || SpendsTurn(s, c)
  {
    hide Text.Strip, ConnectedCount, IsPrivate;
  }

  predicate SearchesNext(s: Runner.State, kind: TurnKind) {
    s.talk.status == Active && (kind == Rules || (kind == Nudge && s.pending == None))
  }

  /** A report is nothing but a report, and is handled by what it reports. */
  lemma ReportIsHandled(cfg: Settings, s: Runner.State, c: Command, a: Around, t: Runner.State)
    requires c.ModeratorFinishedSpeaking? || c.ModeratorSpeechFailed?
    ensures Handled(cfg, s, c, a) == AfterSpoke(cfg, s, c.kind, Words(c), MsOf(c), a)
    ensures LooksForNext(cfg, s, c, t) <==> SearchesNext(s, c.kind)
    ensures FloorGoesTo(s, c) == if c.kind in {Question, FollowUp, Nudge} then s.pending else None
    ensures Reports(c, Intro) <==> c.kind == Intro
    ensures Reports(c, ClosingWords) <==> c.kind == ClosingWords
    ensures !Answers(cfg, s, c) && !Expels(cfg, s, c) && !FallsSilent(s, c) && !SpendsTurn(s, c)
    ensures !EndsTurn(cfg, s, c, t)
    ensures !Begins(s, c, t) && !TimesOut(s, c) && !Empties(s, c, t) && !IsAskedAgain(s, c, t) && !Departs(s, c, t)
  {
    hide ConnectedCount, Text.Strip, AfterSpoke;
  }

  /** An answer closes the turn, and then its speaker is asked again or the next one is looked for. */
  lemma AnswerIsHandled(cfg: Settings, s: Runner.State, c: Command, a: Around) returns (closed: Runner.State)
    requires Answers(cfg, s, c)
    ensures c.UtteranceFinal? && c.speaker == s.talk.floorHolder && closed == TurnClosed(s, c.speaker, c.text, a)
    ensures var t := Handled(cfg, s, c, a);
            && (if IsAskedAgain(s, c, t) then c.speaker.Some? && t == FollowUpAsked(closed, c.speaker.value, a)
                else t == NextAsked(cfg, Folded(closed), a))
            && (LooksForNext(cfg, s, c, t) <==> s.talk.status == Active && !IsAskedAgain(s, c, t))
            && !Begins(s, c, t) && !TimesOut(s, c) && !Empties(s, c, t) && !Expels(cfg, s, c) && !FallsSilent(s, c)
            && !Departs(s, c, t) && !SpendsTurn(s, c) && EndsTurn(cfg, s, c, t) && FloorGoesTo(s, c) == None
            && (forall kind :: !Reports(c, kind))
  {
    closed := TurnClosed(s, c.speaker, c.text, a);
    ClosedTurnIs(s, c.speaker, c.text, a);
    NextIs(cfg, Folded(closed), a);
    hide TurnClosed, NextAsked, Text.Strip, WithFollowUp, DecideFollowUp, ConnectedCount, Folded;
  }

  /** A departure marks the person, and may close the discussion or their turn. */
  lemma DepartureIsHandled(cfg: Settings, s: Runner.State, c: Command, a: Around) returns (m: Runner.State)
    requires c.ParticipantDisconnected?
    ensures m == s.(talk := MarkDisconnected(s.talk, c.user))
    ensures m.talk == s.talk.(roster := m.talk.roster, tallies := m.talk.tallies)
    ensures var t := Handled(cfg, s, c, a);
            && t.talk.roster == m.talk.roster
            && t == (if Empties(s, c, t) then ClosingBegun(m, NotEnoughParticipants)
                     else if Departs(s, c, t) then NextAsked(cfg, TurnClosed(m, Some(c.user), "", a), a) else m)
            && (LooksForNext(cfg, s, c, t) <==> Departs(s, c, t)) && (EndsTurn(cfg, s, c, t) <==> Departs(s, c, t))
            && (Departs(s, c, t) ==> !Empties(s, c, t) && s.talk.status == Active && s.talk.floorHolder == Some(c.user))
            && !Begins(s, c, t) && !TimesOut(s, c) && !Expels(cfg, s, c) && !FallsSilent(s, c) && !Answers(cfg, s, c)
            && !SpendsTurn(s, c) && !IsAskedAgain(s, c, t) && FloorGoesTo(s, c) == None
            && (forall kind :: !Reports(c, kind))
  {
    m := s.(talk := MarkDisconnected(s.talk, c.user));
    MarkingTouchesPeopleOnly(s.talk, c.user, Disconnected);
    ClosedTurnIs(m, Some(c.user), "", a);
    NextRecordsNothing(cfg, TurnClosed(m, Some(c.user), "", a), a);
    ClosingTouchesNoTally(m, NotEnoughParticipants);
    hide TurnClosed, NextAsked, Text.Strip, ConnectedCount, Marked, IsRemoved, ClosingBegun;
  }

  function MsOf(c: Command): int { if c.ModeratorFinishedSpeaking? then c.durationMs else 0 }

  // ------------------------------------------------------------------ the floor

  /** The report that the moderator has said something of this kind, in its own words or the scripted ones. */
  predicate Reports(c: Command, kind: TurnKind) {
    (c.ModeratorFinishedSpeaking? && c.kind == kind) || (c.ModeratorSpeechFailed? && c.kind == kind)
  }

  /** Who gets the floor: whoever is addressed, once spoken to, or on speaking up while they are being spoken to. */
  function FloorGoesTo(s: Runner.State, c: Command): Option<UserId> {
    if Reports(c, Question) || Reports(c, FollowUp) || Reports(c, Nudge) then s.pending
    else if c.SpeechStarted? && s.pending == Some(c.user) && Speaking(s.talk.moderatorState) then s.pending
    else None
  }

  /** The session starts to close with this command. */
  predicate TurnsToClosing(s: Runner.State, t: Runner.State) {
    t.talk.moderatorState == Closing && s.talk.moderatorState != Closing
  }

  predicate LosesFloor(cfg: Settings, s: Runner.State, c: Command, t: Runner.State) {
    EndsTurn(cfg, s, c, t) || Expels(cfg, s, c) || FallsSilent(s, c) || TurnsToClosing(s, t)
  }

  /** Who has the floor after a command, and since when; nobody gets or loses it any other way. */
  ghost predicate FloorMoves(cfg: Settings, s: Runner.State, c: Command, a: Around, t: Runner.State) {
    match FloorGoesTo(s, c)
    case Some(u) => t.talk.floorHolder == Some(u) && t.talk.floorGrantedAt == Some(a.grantedAt)
    case None =>
      if LosesFloor(cfg, s, c, t) then t.talk.floorHolder == None && t.talk.floorGrantedAt == None
      else t.talk.floorHolder == s.talk.floorHolder && t.talk.floorGrantedAt == s.talk.floorGrantedAt
  }

  /** What is kept and what may change when the discussion looks for its next speaker. */
  lemma NextMoves(cfg: Settings, s: Runner.State, a: Around)
    ensures var t := NextAsked(cfg, s, a);
            && (t.talk.floorHolder == s.talk.floorHolder || t.talk.floorHolder == None)
            && (t.talk.floorGrantedAt == s.talk.floorGrantedAt || t.talk.floorGrantedAt == None)
            && (t.talk.moderatorState != Closing ==>
                  t.talk.floorHolder == s.talk.floorHolder && t.talk.floorGrantedAt == s.talk.floorGrantedAt)
            && (t.talk.moderatorState == Closing && s.talk.moderatorState != Closing ==>
                  t.talk.floorHolder == None && t.talk.floorGrantedAt == None)
            && (s.talk.moderatorState == Closing && t.talk.moderatorState == Closing ==> t == s)
            && t.talk.roster == s.talk.roster
  {
    var closes, asks := NextCases(cfg, s, a);
    hide NextAsked;
  }

  lemma AnswerMovesFloor(cfg: Settings, s: Runner.State, c: Command, a: Around)
    requires c.UtteranceFinal?
    ensures FloorMoves(cfg, s, c, a, Handled(cfg, s, c, a))
  {
    hide Text.Strip, NextAsked, TurnClosed, Marked, WithFollowUp, DecideFollowUp;
    if Answers(cfg, s, c) {
      var closed := TurnClosed(s, c.speaker, c.text, a);
      ClosedTurnIs(s, c.speaker, c.text, a);
      ClosedTurnForgetsSince(s, c.speaker, c.text, a);
      NextMoves(cfg, Folded(closed), a);
    } else if Expels(cfg, s, c) && c.speaker.Some? {
      MarkingTouchesPeopleOnly(Released(s).talk, c.speaker.value, Removed);
    }
  }

  lemma ClosedTurnForgetsSince(s: Runner.State, speaker: Option<UserId>, text: string, a: Around)
    ensures TurnClosed(s, speaker, text, a).talk.floorGrantedAt == None
  {
    hide Text.Strip;
  }

  lemma DepartureMovesFloor(cfg: Settings, s: Runner.State, c: Command, a: Around)
    requires c.ParticipantDisconnected?
    ensures FloorMoves(cfg, s, c, a, Handled(cfg, s, c, a))
  {
    hide Answers, Expels, FallsSilent, SpendsTurn, Departs, Begins, TimesOut, Empties, IsAskedAgain;
    hide LooksForNext, FloorGoesTo, Reports, Handled, EndsTurn, Text.Strip, TurnClosed, NextAsked, MarkDisconnected,
      ConnectedCount;
    var m := DepartureIsHandled(cfg, s, c, a);
    var closed := TurnClosed(m, Some(c.user), "", a);
    ClosedTurnIs(m, Some(c.user), "", a);
    ClosedTurnForgetsSince(m, Some(c.user), "", a);
    NextMoves(cfg, closed, a);
  }

  lemma SilenceMovesFloor(cfg: Settings, s: Runner.State, c: Command, a: Around)
    requires c.SilenceTimeout?
    ensures FloorMoves(cfg, s, c, a, Handled(cfg, s, c, a))
  {
    hide NextAsked, WithSpeech;
    if SpendsTurn(s, c) { NextMoves(cfg, SilenceSpent(Released(s), s.talk.floorHolder.value), a); }
  }

  lemma ReportMovesFloor(cfg: Settings, s: Runner.State, kind: TurnKind, text: string, ms: int, a: Around)
    ensures var t := AfterSpoke(cfg, s, kind, text, ms, a);
            if kind in {Question, FollowUp, Nudge} && s.pending.Some?
            then t.talk.floorHolder == s.pending && t.talk.floorGrantedAt == Some(a.grantedAt)
            else if TurnsToClosing(s, t) then t.talk.floorHolder == None && t.talk.floorGrantedAt == None
            else t.talk.floorHolder == s.talk.floorHolder && t.talk.floorGrantedAt == s.talk.floorGrantedAt
  {
    hide NextAsked, RecordTurn;
    RecordingOnlyWrites(s.talk, kind, text, None, ms);
    NextMoves(cfg, Spoken(s, kind, text, ms), a);
  }

  lemma RecordingOnlyWrites(t: Session.State, kind: TurnKind, text: string, speaker: Option<UserId>, ms: int)
    ensures var r := RecordTurn(t, kind, text, speaker, ms);
            r == t.(turnIndex := r.turnIndex, buffered := r.buffered, recent := r.recent)
  {
  }

  lemma SaidMovesFloor(cfg: Settings, s: Runner.State, c: Command, a: Around)
    requires c.ModeratorFinishedSpeaking? || c.ModeratorSpeechFailed?
    ensures FloorMoves(cfg, s, c, a, Handled(cfg, s, c, a))
  {
    hide Answers, Expels, FallsSilent, SpendsTurn, Departs, Begins, TimesOut, Empties, IsAskedAgain, LooksForNext;
    hide SearchesNext, FloorGoesTo, Reports, Handled, Words, MsOf, AfterSpoke, EndsTurn;
    ReportIsHandled(cfg, s, c, a, Handled(cfg, s, c, a));
    ReportMovesFloor(cfg, s, c.kind, Words(c), MsOf(c), a);
  }

  lemma RequestMovesFloor(cfg: Settings, s: Runner.State, c: Command, a: Around)
    requires !c.UtteranceFinal? && !c.ParticipantDisconnected? && !c.SilenceTimeout?
    requires !c.ModeratorFinishedSpeaking? && !c.ModeratorSpeechFailed?
    ensures FloorMoves(cfg, s, c, a, Handled(cfg, s, c, a))
  {
    hide Answers, Expels, FallsSilent, SpendsTurn, Departs, IsAskedAgain, Text.Strip, AfterAnswer, AfterDisconnected;
    hide AfterSilence, AfterSpoke, EndsTurn, ConnectedCount, Marked, IsRemoved;
    KindsOfEvents(cfg, s, c, Handled(cfg, s, c, a));
    if c.ParticipantConnected? { MarkingTouchesPeopleOnly(s.talk, c.user, Connected); }
  }

  /** For every command: who has the floor afterwards, and since when. */
  lemma FloorExactly(cfg: Settings, s: Runner.State, c: Command, a: Around)
    ensures FloorMoves(cfg, s, c, a, Handled(cfg, s, c, a))
  {
    hide Handled, FloorMoves;
    match c
    case UtteranceFinal(_, _, _) => AnswerMovesFloor(cfg, s, c, a);
    case ParticipantDisconnected(_) => DepartureMovesFloor(cfg, s, c, a);
    case SilenceTimeout(_) => SilenceMovesFloor(cfg, s, c, a);
    case ModeratorFinishedSpeaking(_, _, _) => SaidMovesFloor(cfg, s, c, a);
    case ModeratorSpeechFailed(_) => SaidMovesFloor(cfg, s, c, a);
    case _ => RequestMovesFloor(cfg, s, c, a);
  }

  // ------------------------------------------------------------------ the next speaker

  /** Heard less: in time, then in turns, and by name when both are equal. */
  ghost predicate HeardLess(a: Tally, b: Tally) {
    || a.spokenMs < b.spokenMs
    || (a.spokenMs == b.spokenMs && a.turnsTaken < b.turnsTaken)
    || (a.spokenMs == b.spokenMs && a.turnsTaken == b.turnsTaken && NameLeq(a.name, b.name))
  }

  /** Somebody connected; not the last speaker while anybody else is; and of those the one heard least. */
  ghost predicate FairChoice(ts: Tallies, last: Option<UserId>, u: UserId) {
    exists i :: 0 <= i < |ts| && ts[i].user == u && ts[i].connected && IsLeastHeard(ts, last, i)
  }

  ghost predicate IsLeastHeard(ts: Tallies, last: Option<UserId>, i: nat)
    requires i < |ts|
  {
    forall k :: 0 <= k < |ts| && ts[k].connected && Some(ts[k].user) != last ==>
      Some(ts[i].user) != last && HeardLess(ts[i], ts[k])
  }

  /** Why a discussion that looks for its next speaker ends instead, by what the ledger and the clock say. */
  ghost predicate EndsFor(cfg: Settings, ts: Tallies, elapsed: int, silentTurns: int, reason: EndReason) {
    match reason
    case TimeLimit => elapsed >= cfg.budget.maxSeconds
    case NotEnoughParticipants => elapsed < cfg.budget.maxSeconds && AtMostOneConnected(ts)
    case NobodySpoke =>
      elapsed < cfg.budget.maxSeconds && !AtMostOneConnected(ts) && silentTurns >= cfg.budget.maxSilentTurns
    case Completed =>
      && elapsed < cfg.budget.maxSeconds && !AtMostOneConnected(ts) && silentTurns < cfg.budget.maxSilentTurns
      && AllHaveHad(ts, cfg.budget.minTurnsPerParticipant) && elapsed >= cfg.budget.targetSeconds
    case _ => false
  }

  ghost predicate MustEnd(cfg: Settings, ts: Tallies, elapsed: int, silentTurns: int) {
    || EndsFor(cfg, ts, elapsed, silentTurns, TimeLimit)
    || EndsFor(cfg, ts, elapsed, silentTurns, NotEnoughParticipants)
    || EndsFor(cfg, ts, elapsed, silentTurns, NobodySpoke) || EndsFor(cfg, ts, elapsed, silentTurns, Completed)
  }

  /** The floor is free and nobody is being spoken to: after a turn, the rules, or a notice to everybody. */
  predicate LooksForNext(cfg: Settings, s: Runner.State, c: Command, t: Runner.State) {
    && s.talk.status == Active
    && (|| (Answers(cfg, s, c) && !(s.talk.floorHolder.Some? && AsksAgain(s, c, t, s.talk.floorHolder.value)))
        || Departs(s, c, t) || SpendsTurn(s, c)
        || Reports(c, Rules) || (Reports(c, Nudge) && s.pending == None))
  }

  ghost predicate Directs(cfg: Settings, s: Runner.State, a: Around, t: Runner.State) {
    var ts, elapsed, silent := t.talk.tallies, ElapsedSeconds(s.talk, a.turnAt), t.talk.silentTurns;
    if MustEnd(cfg, ts, elapsed, silent) then
      && t.talk.moderatorState in {Closing, Reporting}
      && (TurnsToClosing(s, t) ==>
            && t.endReason.Some? && EndsFor(cfg, ts, elapsed, silent, t.endReason.value)
            && t.speech == Some(ClosingWords) && t.timers == map[])
    else
      && t.talk.moderatorState == Questioning && t.speech == Some(Question)
      && t.pending.Some? && FairChoice(ts, t.talk.lastSpeaker, t.pending.value)
  }

  lemma NextIsDirected(cfg: Settings, s: Runner.State, p: Runner.State, a: Around)
    requires Distinct(p.talk.tallies) && p.talk.status == Active && p.talk.startedAt == s.talk.startedAt
    requires p.talk.moderatorState in {Closing, Reporting} ==> s.talk.moderatorState == p.talk.moderatorState
    ensures Directs(cfg, s, a, NextAsked(cfg, p, a))
  {
    hide ShouldClose, SelectNextSpeaker, AtMostOneConnected, AllHaveHad, FairChoice, Distinct, ElapsedSeconds;
    var ts, last := p.talk.tallies, p.talk.lastSpeaker;
    var elapsed := ElapsedSeconds(s.talk, a.turnAt);
    SameStartSameElapsed(s.talk, p.talk, a.turnAt);
    ClosesExactly(ts, cfg.budget, elapsed, p.talk.silentTurns);
    if ShouldClose(ts, cfg.budget, elapsed, p.talk.silentTurns) == None {
      SelectedIsFair(ts, last);
      NotClosingMeansSomebody(ts, cfg.budget, elapsed, p.talk.silentTurns, last);
    }
  }

  lemma SelectedIsFair(ts: Tallies, last: Option<UserId>)
    requires Distinct(ts)
    ensures SelectNextSpeaker(ts, last).Some? ==> FairChoice(ts, last, SelectNextSpeaker(ts, last).value)
  {
    SelectionIsFair(ts, last);
    hide SelectNextSpeaker;
    if SelectNextSpeaker(ts, last).Some? {
      var i := IndexOf(ts, SelectNextSpeaker(ts, last).value);
      forall k | 0 <= k < |ts| && ts[k].connected && Some(ts[k].user) != last
        ensures Some(ts[i].user) != last && HeardLess(ts[i], ts[k])
      {
        assert KeyLeq(ts[i], ts[k]);
      }
      assert IsLeastHeard(ts, last, i);
    }
  }

  lemma AnswerIsDirected(cfg: Settings, s: Runner.State, c: Command, a: Around)
    requires Distinct(s.talk.tallies) && c.UtteranceFinal? && LooksForNext(cfg, s, c, Handled(cfg, s, c, a))
    ensures Directs(cfg, s, a, Handled(cfg, s, c, a))
  {
    hide Text.Strip, NextAsked, TurnClosed, WithFollowUp, DecideFollowUp, Directs, Distinct, WithSpeech;
    var closed := TurnClosed(s, c.speaker, c.text, a);
    ClosedTurnIs(s, c.speaker, c.text, a);
    if c.speaker.Some? { SpeechKeepsUsers(s.talk.tallies, c.speaker.value, FloorHeldMs(s.talk, a.heldAt)); }
    NextIsDirected(cfg, s, Folded(closed), a);
  }

  lemma DepartureIsDirected(cfg: Settings, s: Runner.State, c: Command, a: Around)
    requires Distinct(s.talk.tallies) && c.ParticipantDisconnected? && LooksForNext(cfg, s, c, Handled(cfg, s, c, a))
    ensures Directs(cfg, s, a, Handled(cfg, s, c, a))
  {
    hide Answers, Expels, FallsSilent, SpendsTurn, Begins, TimesOut, IsAskedAgain, FloorGoesTo, Reports, EndsTurn;
    hide NextAsked, TurnClosed, Marked, IsRemoved, ConnectedCount, Text.Strip, ClosingBegun, Directs, Distinct,
      WithSpeech;
    KindsOfEvents(cfg, s, c, Handled(cfg, s, c, a));
    var m := s.(talk := MarkDisconnected(s.talk, c.user));
    MarkingTouchesPeopleOnly(s.talk, c.user, Disconnected);
    MarkingKeepsPeople(s.talk, c.user, Disconnected);
    var closed := TurnClosed(m, Some(c.user), "", a);
    ClosedTurnIs(m, Some(c.user), "", a);
    SpeechKeepsUsers(m.talk.tallies, c.user, FloorHeldMs(m.talk, a.heldAt));
    NextMoves(cfg, closed, a);
    ClosingTouchesNoTally(m, NotEnoughParticipants);
    NextIsDirected(cfg, s, closed, a);
  }

  lemma SilenceIsDirected(cfg: Settings, s: Runner.State, c: Command, a: Around)
    requires Distinct(s.talk.tallies) && c.SilenceTimeout? && LooksForNext(cfg, s, c, Handled(cfg, s, c, a))
    ensures Directs(cfg, s, a, Handled(cfg, s, c, a))
  {
    hide NextAsked, Directs, Distinct, WithSpeech;
    var u := s.talk.floorHolder.value;
    SpeechKeepsUsers(s.talk.tallies, u, 0);
    NextIsDirected(cfg, s, SilenceSpent(Released(s), u), a);
  }

  lemma ReportIsDirected(cfg: Settings, s: Runner.State, kind: TurnKind, text: string, ms: int, a: Around)
    requires Distinct(s.talk.tallies) && s.talk.status == Active
    requires kind == Rules || (kind == Nudge && s.pending == None)
    ensures Directs(cfg, s, a, AfterSpoke(cfg, s, kind, text, ms, a))
  {
    hide NextAsked, Directs, Distinct, RecordTurn;
    RecordingOnlyWrites(s.talk, kind, text, None, ms);
    NextIsDirected(cfg, s, Spoken(s, kind, text, ms), a);
  }

  lemma SaidIsDirected(cfg: Settings, s: Runner.State, c: Command, a: Around)
    requires c.ModeratorFinishedSpeaking? || c.ModeratorSpeechFailed?
    requires Distinct(s.talk.tallies) && LooksForNext(cfg, s, c, Handled(cfg, s, c, a))
    ensures Directs(cfg, s, a, Handled(cfg, s, c, a))
  {
    hide Answers, Expels, FallsSilent, SpendsTurn, Departs, Begins, TimesOut, Empties, IsAskedAgain;
    hide LooksForNext, FloorGoesTo, Reports, Handled, Words, MsOf, AfterSpoke, EndsTurn, Directs, Distinct;
    ReportIsHandled(cfg, s, c, a, Handled(cfg, s, c, a));
    ReportIsDirected(cfg, s, c.kind, Words(c), MsOf(c), a);
  }

  /** Nothing else makes the discussion look for its next speaker. */
  lemma OnlyTheseLook(cfg: Settings, s: Runner.State, c: Command, t: Runner.State)
    requires LooksForNext(cfg, s, c, t)
    ensures c.UtteranceFinal? || c.ParticipantDisconnected? || c.SilenceTimeout? || c.ModeratorFinishedSpeaking?
         || c.ModeratorSpeechFailed?
  {
    hide Text.Strip, ConnectedCount, IsPrivate;
  }

  /**
   * Whenever the discussion looks for its next speaker it either ends, for the first reason that applies, or asks
   * somebody connected who has been heard least and was not the last to speak, unless nobody else is there.
   */
  lemma NextSpeakerExactly(cfg: Settings, s: Runner.State, c: Command, a: Around)
    requires Distinct(s.talk.tallies) && LooksForNext(cfg, s, c, Handled(cfg, s, c, a))
    ensures Directs(cfg, s, a, Handled(cfg, s, c, a))
  {
    hide Handled, LooksForNext, Directs, Distinct;
    OnlyTheseLook(cfg, s, c, Handled(cfg, s, c, a));
    match c
    case UtteranceFinal(_, _, _) => AnswerIsDirected(cfg, s, c, a);
    case ParticipantDisconnected(_) => DepartureIsDirected(cfg, s, c, a);
    case SilenceTimeout(_) => SilenceIsDirected(cfg, s, c, a);
    case ModeratorFinishedSpeaking(_, _, _) => SaidIsDirected(cfg, s, c, a);
    case ModeratorSpeechFailed(_) => SaidIsDirected(cfg, s, c, a);
  }

  // ------------------------------------------------------------------ what is written down

  /** The turn is the next one, says this, and is under the name the roster has for its speaker. */
  ghost predicate IsTurn(s: Runner.State, turn: BufferedTurn, kind: TurnKind, speaker: Option<UserId>, text: string,
                         ms: int) {
    && turn.index == s.talk.turnIndex + 1 && turn.kind == kind && turn.speaker == speaker
    && turn.text == text && turn.durationMs == ms
    && turn.speakerName == (if speaker == None then "Moderator" else RosterName(s.talk.roster, speaker.value))
  }

  function RosterName(roster: Roster, u: UserId): string {
    if roster == [] then "Someone" else if roster[0].user == u then roster[0].name else RosterName(roster[1..], u)
  }

  lemma {:induction false} RosterNameIsTheSeats(roster: Roster, u: UserId)
    ensures RosterName(roster, u) ==
            if Seat(roster, u) < |roster| then roster[Seat(roster, u)].name else "Someone"
  {
    if roster != [] { RosterNameIsTheSeats(roster[1..], u); }
  }

  /** The transcript gains what the moderator said or the floor holder answered, if anything, and nothing else. */
  ghost predicate Writes(cfg: Settings, s: Runner.State, c: Command, a: Around, t: Runner.State) {
    if (c.ModeratorFinishedSpeaking? || c.ModeratorSpeechFailed?) && Words(c) != "" then
      && |t.talk.buffered| == |s.talk.buffered| + 1 && t.talk.buffered[..|s.talk.buffered|] == s.talk.buffered
      && IsTurn(s, t.talk.buffered[|s.talk.buffered|], c.kind, None, Words(c),
                MsOf(c))
    else if Answers(cfg, s, c) && Text.Strip(c.text) != "" then
      && |t.talk.buffered| == |s.talk.buffered| + 1 && t.talk.buffered[..|s.talk.buffered|] == s.talk.buffered
      && IsTurn(s, t.talk.buffered[|s.talk.buffered|], Answer, c.speaker, Text.Strip(c.text),
                if s.talk.floorGrantedAt == None then 0 else a.heldAt - s.talk.floorGrantedAt.value)
    else t.talk.buffered == s.talk.buffered
  }

  /** A turn that ends without words is one more silent one in a row; words end the row. */
  function SilentTurnsAfter(cfg: Settings, s: Runner.State, c: Command, t: Runner.State): nat {
    if Answers(cfg, s, c) && Text.Strip(c.text) != "" then 0
    else if EndsTurn(cfg, s, c, t) then s.talk.silentTurns + 1
    else s.talk.silentTurns
  }

  /** Whoever was taken off the floor, by their answer, their departure, their silence or for what they said. */
  function LastSpeakerAfter(cfg: Settings, s: Runner.State, c: Command, t: Runner.State): Option<UserId> {
    if EndsTurn(cfg, s, c, t) || Expels(cfg, s, c) then s.talk.floorHolder else s.talk.lastSpeaker
  }

  ghost predicate Records(cfg: Settings, s: Runner.State, c: Command, a: Around, t: Runner.State) {
    && Writes(cfg, s, c, a, t)
    && t.talk.silentTurns == SilentTurnsAfter(cfg, s, c, t)
    && t.talk.lastSpeaker == LastSpeakerAfter(cfg, s, c, t)
  }

  lemma NextRecordsNothing(cfg: Settings, s: Runner.State, a: Around)
    ensures var t := NextAsked(cfg, s, a);
            && t.talk.buffered == s.talk.buffered && t.talk.silentTurns == s.talk.silentTurns
            && t.talk.lastSpeaker == s.talk.lastSpeaker && t.folds == s.folds && t.folded == s.folded
            && t.talk.roster == s.talk.roster && t.voice.peers == s.voice.peers && t.finished == s.finished
            && t.talk.status == s.talk.status && t.talk.startedAt == s.talk.startedAt && t.nudged == s.nudged
  {
    var closes, asks := NextCases(cfg, s, a);
    hide NextAsked;
  }

  lemma TurnForIs(s: Runner.State, kind: TurnKind, text: string, speaker: Option<UserId>, ms: int)
    ensures IsTurn(s, TurnFor(s.talk, kind, text, speaker, ms), kind, speaker, text, ms)
  {
    if speaker.Some? { RosterNameIsTheSeats(s.talk.roster, speaker.value); }
  }

  lemma AnswerIsRecorded(cfg: Settings, s: Runner.State, c: Command, a: Around)
    requires Answers(cfg, s, c)
    ensures Records(cfg, s, c, a, Handled(cfg, s, c, a))
  {
    hide Expels, SpendsTurn, Departs, IsAskedAgain, LooksForNext, Handled, EndsTurn, Text.Strip, TurnClosed, NextAsked;
    hide WithFollowUp, TurnFor, IsTurn;
    var closed := AnswerIsHandled(cfg, s, c, a);
    ClosedTurnIs(s, c.speaker, c.text, a);
    TurnForIs(s, Answer, Text.Strip(c.text), c.speaker, FloorHeldMs(s.talk, a.heldAt));
    NextRecordsNothing(cfg, Folded(closed), a);
  }

  lemma OtherUtteranceIsRecorded(cfg: Settings, s: Runner.State, c: Command, a: Around)
    requires c.UtteranceFinal? && !Answers(cfg, s, c)
    ensures Records(cfg, s, c, a, Handled(cfg, s, c, a))
  {
    hide Text.Strip, Marked;
    if Expels(cfg, s, c) && c.speaker.Some? {
      MarkingTouchesPeopleOnly(Released(s).talk, c.speaker.value, Removed);
    }
  }

  lemma DepartureIsRecorded(cfg: Settings, s: Runner.State, c: Command, a: Around)
    requires c.ParticipantDisconnected?
    ensures Records(cfg, s, c, a, Handled(cfg, s, c, a))
  {
    hide Answers, Expels, FallsSilent, SpendsTurn, Begins, TimesOut, IsAskedAgain, FloorGoesTo, Reports, EndsTurn;
    hide NextAsked, TurnClosed, Marked, IsRemoved, ConnectedCount, Text.Strip;
    KindsOfEvents(cfg, s, c, Handled(cfg, s, c, a));
    var m := s.(talk := MarkDisconnected(s.talk, c.user));
    MarkingTouchesPeopleOnly(s.talk, c.user, Disconnected);
    var closed := TurnClosed(m, Some(c.user), "", a);
    ClosedTurnIs(m, Some(c.user), "", a);
    NextRecordsNothing(cfg, closed, a);
    ClosingRecordsNothing(m, NotEnoughParticipants);
    EmptyStrips();
  }

  lemma ClosingRecordsNothing(s: Runner.State, reason: EndReason)
    ensures var t := ClosingBegun(s, reason);
            && t.talk.buffered == s.talk.buffered && t.talk.silentTurns == s.talk.silentTurns
            && t.talk.lastSpeaker == s.talk.lastSpeaker && t.folds == s.folds && t.folded == s.folded
            && t.talk.roster == s.talk.roster && t.voice.peers == s.voice.peers && t.finished == s.finished
            && t.talk.status == s.talk.status && t.talk.startedAt == s.talk.startedAt && t.nudged == s.nudged
  {
  }

  lemma SilenceIsRecorded(cfg: Settings, s: Runner.State, c: Command, a: Around)
    requires c.SilenceTimeout?
    ensures Records(cfg, s, c, a, Handled(cfg, s, c, a))
  {
    hide NextAsked, WithSpeech;
    if SpendsTurn(s, c) { NextRecordsNothing(cfg, SilenceSpent(Released(s), s.talk.floorHolder.value), a); }
  }

  lemma AfterAReport(cfg: Settings, s: Runner.State, kind: TurnKind, text: string, ms: int, a: Around)
    ensures var t := AfterSpoke(cfg, s, kind, text, ms, a);
            && t.talk.buffered == s.talk.buffered + (if text == "" then [] else [TurnFor(s.talk, kind, text, None, ms)])
            && t.talk.silentTurns == s.talk.silentTurns && t.talk.lastSpeaker == s.talk.lastSpeaker
  {
    hide NextAsked, TurnFor, Push;
    NextRecordsNothing(cfg, Spoken(s, kind, text, ms), a);
  }

  lemma ReportIsRecorded(cfg: Settings, s: Runner.State, c: Command, a: Around)
    requires c.ModeratorFinishedSpeaking? || c.ModeratorSpeechFailed?
    ensures Records(cfg, s, c, a, Handled(cfg, s, c, a))
  {
    hide Answers, Expels, FallsSilent, SpendsTurn, Departs, Begins, TimesOut, Empties, IsAskedAgain;
    hide LooksForNext, SearchesNext, FloorGoesTo, Reports, Handled, Words, MsOf, AfterSpoke, EndsTurn, TurnFor, IsTurn;
    ReportIsHandled(cfg, s, c, a, Handled(cfg, s, c, a));
    TurnForIs(s, c.kind, Words(c), None, MsOf(c));
    AfterAReport(cfg, s, c.kind, Words(c), MsOf(c), a);
  }

  /** For every command: what the transcript gains, who spoke last, and how many turns in a row have been silent. */
  lemma RecordsExactly(cfg: Settings, s: Runner.State, c: Command, a: Around)
    ensures Records(cfg, s, c, a, Handled(cfg, s, c, a))
  {
    hide Text.Strip, AfterAnswer, AfterDisconnected, AfterSilence, AfterSpoke, Marked, IsRemoved, ConnectedCount;
    match c
    case UtteranceFinal(_, _, _) =>
      if Answers(cfg, s, c) { AnswerIsRecorded(cfg, s, c, a); } else { OtherUtteranceIsRecorded(cfg, s, c, a); }
    case ParticipantDisconnected(_) => DepartureIsRecorded(cfg, s, c, a);
    case SilenceTimeout(_) => SilenceIsRecorded(cfg, s, c, a);
    case ModeratorFinishedSpeaking(_, _, _) => ReportIsRecorded(cfg, s, c, a);
    case ModeratorSpeechFailed(_) => ReportIsRecorded(cfg, s, c, a);
    case ParticipantConnected(u) => MarkingTouchesPeopleOnly(s.talk, u, Connected);
    case _ =>
  }

  // ------------------------------------------------------------------ timers

  /** Everybody who is awaited has come, or the wait is over and two have. */
  predicate Begins(s: Runner.State, c: Command, t: Runner.State) {
    && s.talk.status == Connecting
    && (|| (c.ParticipantConnected? && ConnectedCount(t.talk.roster) >= |t.talk.roster|)
        || (c.JoinWindowExpired? && ConnectedCount(s.talk.roster) >= 2))
  }

  /** The closing words are started. */
  predicate Closes(cfg: Settings, s: Runner.State, c: Command, t: Runner.State) {
    TurnsToClosing(s, t) || (EndsTurn(cfg, s, c, t) && t.talk.moderatorState == Closing)
  }

  /** Which timers run after a command, and with what they will say. */
  function TimersAfter(cfg: Settings, s: Runner.State, c: Command, t: Runner.State): map<Timer, Command> {
    if FloorGoesTo(s, c).Some? then
      s.timers[Silence := SilenceTimeout(t.talk.turnIndex)][Cap := TurnHardCap(t.talk.turnIndex)]
    else if Closes(cfg, s, c, t) then map[]
    else if Answers(cfg, s, c) || Expels(cfg, s, c) || Departs(s, c, t) then s.timers - {Silence, Cap, CapGrace}
    else if Begins(s, c, t) then s.timers - {Join}
    else if c.SpeechStarted? && s.talk.moderatorState == Listening && s.talk.floorHolder == Some(c.user) then
      s.timers - {Silence}
    else if c.UtteranceFinal? && c.speaker == s.talk.floorHolder then
      s.timers[Silence := SilenceTimeout(s.talk.turnIndex)]
    else if c.TurnHardCap? && c.index == s.talk.turnIndex && s.talk.moderatorState == Listening then
      s.timers[CapGrace := UtteranceFinal(s.talk.floorHolder, "", true)]
    else if c.FloorReleased? && s.talk.floorHolder == Some(c.user) then
      s.timers[CapGrace := UtteranceFinal(Some(c.user), "", true)]
    else s.timers
  }

  lemma NextTimes(cfg: Settings, s: Runner.State, a: Around)
    ensures var t := NextAsked(cfg, s, a);
            && (t.talk.moderatorState != Closing || s.talk.moderatorState == Closing ==> t.timers == s.timers)
            && (t.talk.moderatorState == Closing && s.talk.moderatorState != Closing ==> t.timers == map[])
            && t.talk.turnIndex == s.talk.turnIndex
  {
    var closes, asks := NextCases(cfg, s, a);
    hide NextAsked;
  }

  lemma AnswerTimes(cfg: Settings, s: Runner.State, c: Command, a: Around)
    requires c.UtteranceFinal?
    ensures var t := Handled(cfg, s, c, a); t.timers == TimersAfter(cfg, s, c, t)
  {
    hide Text.Strip, NextAsked, TurnClosed, Marked, WithFollowUp, DecideFollowUp;
    if Answers(cfg, s, c) {
      var closed := TurnClosed(s, c.speaker, c.text, a);
      ClosedTurnIs(s, c.speaker, c.text, a);
      NextTimes(cfg, Folded(closed), a);
    } else if Expels(cfg, s, c) && c.speaker.Some? {
      MarkingTouchesPeopleOnly(Released(s).talk, c.speaker.value, Removed);
    }
  }

  lemma DepartureTimes(cfg: Settings, s: Runner.State, c: Command, a: Around)
    requires c.ParticipantDisconnected?
    ensures var t := Handled(cfg, s, c, a); t.timers == TimersAfter(cfg, s, c, t)
  {
    hide Answers, Expels, FallsSilent, SpendsTurn, Departs, Begins, TimesOut, Empties, IsAskedAgain;
    hide LooksForNext, FloorGoesTo, Reports, Handled, EndsTurn, Text.Strip, TurnClosed, NextAsked, MarkDisconnected,
      ConnectedCount;
    var m := DepartureIsHandled(cfg, s, c, a);
    var closed := TurnClosed(m, Some(c.user), "", a);
    ClosedTurnIs(m, Some(c.user), "", a);
    NextRecordsNothing(cfg, closed, a);
    NextTimes(cfg, closed, a);
  }

  lemma SilenceTimes(cfg: Settings, s: Runner.State, c: Command, a: Around)
    requires c.SilenceTimeout?
    ensures var t := Handled(cfg, s, c, a); t.timers == TimersAfter(cfg, s, c, t)
  {
    hide NextAsked, WithSpeech;
    if SpendsTurn(s, c) { NextTimes(cfg, SilenceSpent(Released(s), s.talk.floorHolder.value), a); }
  }

  lemma ReportTimes(cfg: Settings, s: Runner.State, kind: TurnKind, text: string, ms: int, a: Around)
    ensures var t := AfterSpoke(cfg, s, kind, text, ms, a);
            t.timers ==
              if kind in {Question, FollowUp, Nudge} && s.pending.Some?
              then s.timers[Silence := SilenceTimeout(t.talk.turnIndex)][Cap := TurnHardCap(t.talk.turnIndex)]
              else if TurnsToClosing(s, t) then map[] else s.timers
  {
    hide NextAsked, RecordTurn;
    RecordingOnlyWrites(s.talk, kind, text, None, ms);
    NextTimes(cfg, Spoken(s, kind, text, ms), a);
  }

  lemma SaidTimes(cfg: Settings, s: Runner.State, c: Command, a: Around)
    requires c.ModeratorFinishedSpeaking? || c.ModeratorSpeechFailed?
    ensures var t := Handled(cfg, s, c, a); t.timers == TimersAfter(cfg, s, c, t)
  {
    hide Answers, Expels, FallsSilent, SpendsTurn, Departs, Begins, TimesOut, Empties, IsAskedAgain;
    hide LooksForNext, SearchesNext, FloorGoesTo, Reports, Handled, Words, MsOf, AfterSpoke, EndsTurn;
    ReportIsHandled(cfg, s, c, a, Handled(cfg, s, c, a));
    ReportTimes(cfg, s, c.kind, Words(c), MsOf(c), a);
  }

  lemma CapTimes(cfg: Settings, s: Runner.State, c: Command, a: Around)
    requires c.TurnHardCap? || c.FloorReleased?
    ensures var t := Handled(cfg, s, c, a); t.timers == TimersAfter(cfg, s, c, t)
  {
  }

  lemma ArrivalTimes(cfg: Settings, s: Runner.State, c: Command, a: Around)
    requires c.ParticipantConnected?
    ensures var t := Handled(cfg, s, c, a); t.timers == TimersAfter(cfg, s, c, t)
  {
    hide Marked, IsRemoved, ConnectedCount;
    MarkingTouchesPeopleOnly(s.talk, c.user, Connected);
  }

  lemma RequestTimes(cfg: Settings, s: Runner.State, c: Command, a: Around)
    requires c.JoinWindowExpired? || c.SpeechStarted? || c.TranscriptPartial? || c.EndSessionRequested?
    ensures var t := Handled(cfg, s, c, a); t.timers == TimersAfter(cfg, s, c, t)
  {
    hide Answers, Expels, FallsSilent, SpendsTurn, Departs, IsAskedAgain, Text.Strip, AfterAnswer, AfterDisconnected;
    hide AfterSilence, AfterSpoke, EndsTurn, ConnectedCount;
    KindsOfEvents(cfg, s, c, Handled(cfg, s, c, a));
  }

  /** For every command: exactly these timers run afterwards. */
  lemma TimersExactly(cfg: Settings, s: Runner.State, c: Command, a: Around)
    ensures var t := Handled(cfg, s, c, a); t.timers == TimersAfter(cfg, s, c, t)
  {
    hide Handled, TimersAfter;
    match c
    case UtteranceFinal(_, _, _) => AnswerTimes(cfg, s, c, a);
    case ParticipantDisconnected(_) => DepartureTimes(cfg, s, c, a);
    case SilenceTimeout(_) => SilenceTimes(cfg, s, c, a);
    case ModeratorFinishedSpeaking(_, _, _) => SaidTimes(cfg, s, c, a);
    case ModeratorSpeechFailed(_) => SaidTimes(cfg, s, c, a);
    case ParticipantConnected(_) => ArrivalTimes(cfg, s, c, a);
    case TurnHardCap(_) => CapTimes(cfg, s, c, a);
    case FloorReleased(_) => CapTimes(cfg, s, c, a);
    case _ => RequestTimes(cfg, s, c, a);
  }

  // ------------------------------------------------------------------ people, and what is remembered of them

  /** How somebody in the room is connected after a command; being removed is for good. */
  function ConnectionAfter(cfg: Settings, s: Runner.State, c: Command, p: Participant): Connection {
    if Expels(cfg, s, c) && s.talk.floorHolder == Some(p.user) then Removed
    else if p.connection == Removed then Removed
    else if c.ParticipantConnected? && c.user == p.user then Connected
    else if c.ParticipantDisconnected? && c.user == p.user then Disconnected
    else p.connection
  }

  /** Who has been asked whether they are still there. */
  function NudgedAfter(cfg: Settings, s: Runner.State, c: Command): Option<UserId> {
    if FallsSilent(s, c) && !SpendsTurn(s, c) then s.talk.floorHolder
    else if SpendsTurn(s, c) || Expels(cfg, s, c) || (Answers(cfg, s, c) && Text.Strip(c.text) != "") then None
    else s.nudged
  }

  /** An answer that is not followed up folds the three oldest turns away, once more than six are unfolded. */
  predicate Folds(cfg: Settings, s: Runner.State, c: Command, t: Runner.State) {
    && Answers(cfg, s, c) && !(s.talk.floorHolder.Some? && AsksAgain(s, c, t, s.talk.floorHolder.value))
    && |t.talk.buffered| - s.folded > 6
  }

  /** Whose stream is transcribed: the floor holder's, from when the floor is theirs, if it opens. */
  function StreamAfter(cfg: Settings, s: Runner.State, c: Command, a: Around, t: Runner.State): Option<UserId> {
    if FloorGoesTo(s, c).Some? then (if a.sttOpens then FloorGoesTo(s, c) else None)
    else if LosesFloor(cfg, s, c, t) || Closes(cfg, s, c, t) then None
    else s.voice.sttOwner
  }

  ghost predicate Remembers(cfg: Settings, s: Runner.State, c: Command, a: Around, t: Runner.State) {
    && |t.talk.roster| == |s.talk.roster|
    && (forall i :: 0 <= i < |s.talk.roster| ==>
          t.talk.roster[i] == s.talk.roster[i].(connection := ConnectionAfter(cfg, s, c, s.talk.roster[i])))
    && t.voice.peers ==
         s.voice.peers - (if Expels(cfg, s, c) && s.talk.floorHolder.Some? then {s.talk.floorHolder.value} else {})
    && t.voice.sttOwner == StreamAfter(cfg, s, c, a, t)
    && t.nudged == NudgedAfter(cfg, s, c)
    && t.folded == s.folded + (if Folds(cfg, s, c, t) then 3 else 0)
    && (Folds(cfg, s, c, t) ==> t.folds == s.folds + [t.talk.buffered[s.folded..s.folded + 3]])
    && (!Folds(cfg, s, c, t) ==> t.folds == s.folds)
  }

  ghost predicate DistinctRoster(r: Roster) { forall i, j :: 0 <= i < j < |r| ==> r[i].user != r[j].user }

  /** In every run the roster has nobody twice. */
  lemma AlignedIsDistinct(t: Session.State)
    requires Aligned(t)
    ensures DistinctRoster(t.roster)
  {
    assert forall i :: 0 <= i < |t.roster| ==> t.roster[i].user == t.tallies[i].user;
  }

  lemma MarkedRow(t: Session.State, u: UserId, connection: Connection, i: nat)
    requires DistinctRoster(t.roster) && i < |t.roster|
    ensures var r := Marked(t, u, connection).roster;
            && |r| == |t.roster|
            && r[i] == if t.roster[i].user == u then t.roster[i].(connection := connection) else t.roster[i]
  {
  }

  lemma RemovedRow(t: Session.State, i: nat)
    requires DistinctRoster(t.roster) && i < |t.roster|
    ensures IsRemoved(t, t.roster[i].user) <==> t.roster[i].connection == Removed
  {
  }

  lemma NextHears(cfg: Settings, s: Runner.State, a: Around)
    ensures var t := NextAsked(cfg, s, a);
            && (t.voice.sttOwner == s.voice.sttOwner || t.voice.sttOwner == None)
            && (t.talk.moderatorState != Closing || s.talk.moderatorState == Closing ==>
                  t.voice.sttOwner == s.voice.sttOwner)
            && (t.talk.moderatorState == Closing && s.talk.moderatorState != Closing ==> t.voice.sttOwner == None)
  {
    var closes, asks := NextCases(cfg, s, a);
    hide NextAsked;
  }

  lemma ClosedTurnHears(s: Runner.State, speaker: Option<UserId>, text: string, a: Around)
    ensures var c := TurnClosed(s, speaker, text, a);
            && c.voice.sttOwner == None && c.voice.peers == s.voice.peers
            && c.nudged == if Text.Strip(text) != "" then None else s.nudged
  {
    hide Text.Strip;
  }

  lemma AnswerIsRemembered(cfg: Settings, s: Runner.State, c: Command, a: Around)
    requires Answers(cfg, s, c)
    ensures Remembers(cfg, s, c, a, Handled(cfg, s, c, a))
  {
    hide Answers, Expels, FallsSilent, SpendsTurn, Departs, Begins, TimesOut, Empties, IsAskedAgain;
    hide LooksForNext, FloorGoesTo, Reports, Handled, EndsTurn, Text.Strip, TurnClosed, NextAsked, WithFollowUp;
    var closed := AnswerIsHandled(cfg, s, c, a);
    ClosedTurnIs(s, c.speaker, c.text, a);
    ClosedTurnHears(s, c.speaker, c.text, a);
    NextRecordsNothing(cfg, Folded(closed), a);
    NextHears(cfg, Folded(closed), a);
    NextIs(cfg, Folded(closed), a);
  }

  lemma ExpulsionIsRemembered(cfg: Settings, s: Runner.State, c: Command, a: Around)
    requires DistinctRoster(s.talk.roster) && Expels(cfg, s, c)
    ensures Remembers(cfg, s, c, a, Handled(cfg, s, c, a))
  {
    hide Text.Strip, Marked, DistinctRoster;
    var t := Handled(cfg, s, c, a);
    if c.speaker.Some? {
      var r := Released(s.(timers := s.timers - {Silence, Cap, CapGrace}));
      MarkingTouchesPeopleOnly(r.talk, c.speaker.value, Removed);
      assert t.talk.roster == Marked(r.talk, c.speaker.value, Removed).roster;
      MarkingKeepsRoster(r.talk, c.speaker.value, Removed);
      forall i | 0 <= i < |s.talk.roster|
        ensures t.talk.roster[i] == s.talk.roster[i].(connection := ConnectionAfter(cfg, s, c, s.talk.roster[i]))
      {
        MarkedRow(r.talk, c.speaker.value, Removed, i);
      }
    }
  }

  lemma MarkingKeepsRoster(t: Session.State, u: UserId, connection: Connection)
    ensures |Marked(t, u, connection).roster| == |t.roster|
  {
  }

  lemma BlankIsRemembered(cfg: Settings, s: Runner.State, c: Command, a: Around)
    requires c.UtteranceFinal? && !Finishes(s, c)
    ensures Remembers(cfg, s, c, a, Handled(cfg, s, c, a))
  {
    hide Text.Strip;
  }

  /** Marking somebody, unless they have been removed, is what a connection coming or going does to the roster. */
  lemma MarkingIsRemembered(cfg: Settings, s: Runner.State, c: Command)
    requires DistinctRoster(s.talk.roster) && (c.ParticipantConnected? || c.ParticipantDisconnected?)
    ensures var connection := if c.ParticipantConnected? then Connected else Disconnected;
            var r := (if IsRemoved(s.talk, c.user) then s.talk else Marked(s.talk, c.user, connection)).roster;
            |r| == |s.talk.roster| && forall i :: 0 <= i < |r| ==>
              r[i] == s.talk.roster[i].(connection := ConnectionAfter(cfg, s, c, s.talk.roster[i]))
  {
    hide Marked, IsRemoved, DistinctRoster, Text.Strip;
    var connection := if c.ParticipantConnected? then Connected else Disconnected;
    var r := (if IsRemoved(s.talk, c.user) then s.talk else Marked(s.talk, c.user, connection)).roster;
    MarkingKeepsRoster(s.talk, c.user, connection);
    forall i | 0 <= i < |r|
      ensures r[i] == s.talk.roster[i].(connection := ConnectionAfter(cfg, s, c, s.talk.roster[i]))
    {
      MarkedRow(s.talk, c.user, connection, i);
      if s.talk.roster[i].user == c.user { RemovedRow(s.talk, i); }
    }
  }

  lemma ArrivalIsRemembered(cfg: Settings, s: Runner.State, c: Command, a: Around)
    requires DistinctRoster(s.talk.roster) && c.ParticipantConnected?
    ensures Remembers(cfg, s, c, a, Handled(cfg, s, c, a))
  {
    MarkingIsRemembered(cfg, s, c);
    MarkingTouchesPeopleOnly(s.talk, c.user, Connected);
    hide Marked, IsRemoved, ConnectedCount, DistinctRoster, ConnectionAfter;
  }

  lemma DepartureIsRemembered(cfg: Settings, s: Runner.State, c: Command, a: Around)
    requires DistinctRoster(s.talk.roster) && c.ParticipantDisconnected?
    ensures Remembers(cfg, s, c, a, Handled(cfg, s, c, a))
  {
    MarkingIsRemembered(cfg, s, c);
    MarkingTouchesPeopleOnly(s.talk, c.user, Disconnected);
    hide Marked, IsRemoved, DistinctRoster, ConnectionAfter, Text.Strip;
    var m := s.(talk := MarkDisconnected(s.talk, c.user));
    DepartureHears(cfg, s, m, c, a);
    hide ConnectedCount, NextAsked, TurnClosed, StreamAfter;
  }

  lemma DepartureHears(cfg: Settings, s: Runner.State, m: Runner.State, c: Command, a: Around)
    requires c.ParticipantDisconnected? && m == s.(talk := MarkDisconnected(s.talk, c.user))
    ensures var t := Handled(cfg, s, c, a);
            && t.talk.roster == m.talk.roster && t.voice.peers == s.voice.peers && t.nudged == s.nudged
            && t.folded == s.folded && t.folds == s.folds
            && t.voice.sttOwner == StreamAfter(cfg, s, c, a, t)
  {
    hide Answers, Expels, FallsSilent, SpendsTurn, Departs, Begins, TimesOut, Empties, IsAskedAgain;
    hide LooksForNext, FloorGoesTo, Reports, Handled, EndsTurn, Text.Strip, TurnClosed, NextAsked, MarkDisconnected,
      ConnectedCount;
    var _ := DepartureIsHandled(cfg, s, c, a);
    var closed := TurnClosed(m, Some(c.user), "", a);
    ClosedTurnIs(m, Some(c.user), "", a);
    ClosedTurnHears(m, Some(c.user), "", a);
    NextRecordsNothing(cfg, closed, a);
    NextHears(cfg, closed, a);
    EmptyStrips();
  }

  lemma EmptyStrips()
    ensures Text.Strip("") == ""
  {
  }

  lemma SilenceIsRemembered(cfg: Settings, s: Runner.State, c: Command, a: Around)
    requires c.SilenceTimeout?
    ensures Remembers(cfg, s, c, a, Handled(cfg, s, c, a))
  {
    hide NextAsked, WithSpeech;
    if SpendsTurn(s, c) {
      NextRecordsNothing(cfg, SilenceSpent(Released(s), s.talk.floorHolder.value), a);
      NextHears(cfg, SilenceSpent(Released(s), s.talk.floorHolder.value), a);
    }
  }

  lemma AReportLeaves(cfg: Settings, s: Runner.State, kind: TurnKind, text: string, ms: int, a: Around)
    ensures var t := AfterSpoke(cfg, s, kind, text, ms, a);
            && t.talk.roster == s.talk.roster && t.voice.peers == s.voice.peers && t.nudged == s.nudged
            && t.folded == s.folded && t.folds == s.folds
  {
    hide NextAsked, RecordTurn;
    RecordingOnlyWrites(s.talk, kind, text, None, ms);
    NextRecordsNothing(cfg, Spoken(s, kind, text, ms), a);
  }

  lemma AReportHears(cfg: Settings, s: Runner.State, kind: TurnKind, text: string, ms: int, a: Around)
    ensures var t := AfterSpoke(cfg, s, kind, text, ms, a);
            t.voice.sttOwner ==
              if kind in {Question, FollowUp, Nudge} && s.pending.Some? then (if a.sttOpens then s.pending else None)
              else if TurnsToClosing(s, t) then None else s.voice.sttOwner
  {
    hide NextAsked, RecordTurn;
    RecordingOnlyWrites(s.talk, kind, text, None, ms);
    NextHears(cfg, Spoken(s, kind, text, ms), a);
  }

  lemma ReportIsRemembered(cfg: Settings, s: Runner.State, c: Command, a: Around)
    requires c.ModeratorFinishedSpeaking? || c.ModeratorSpeechFailed?
    ensures Remembers(cfg, s, c, a, Handled(cfg, s, c, a))
  {
    hide Answers, Expels, FallsSilent, SpendsTurn, Departs, Begins, TimesOut, Empties, IsAskedAgain;
    hide LooksForNext, SearchesNext, FloorGoesTo, Reports, Handled, Words, MsOf, AfterSpoke, EndsTurn;
    ReportIsHandled(cfg, s, c, a, Handled(cfg, s, c, a));
    AReportLeaves(cfg, s, c.kind, Words(c), MsOf(c), a);
    AReportHears(cfg, s, c.kind, Words(c), MsOf(c), a);
  }

  lemma RequestIsRemembered(cfg: Settings, s: Runner.State, c: Command, a: Around)
    requires !c.UtteranceFinal? && !c.ParticipantConnected? && !c.ParticipantDisconnected? && !c.SilenceTimeout?
    requires !c.ModeratorFinishedSpeaking? && !c.ModeratorSpeechFailed?
    ensures Remembers(cfg, s, c, a, Handled(cfg, s, c, a))
  {
    hide Answers, Expels, FallsSilent, SpendsTurn, Departs, IsAskedAgain, Text.Strip, AfterAnswer, AfterDisconnected;
    hide AfterSilence, AfterSpoke, EndsTurn, ConnectedCount;
    KindsOfEvents(cfg, s, c, Handled(cfg, s, c, a));
  }

  /** For every command: how everybody is connected, who is transcribed, who has been nudged, and what is folded. */
  lemma RemembersExactly(cfg: Settings, s: Runner.State, c: Command, a: Around)
    requires DistinctRoster(s.talk.roster)
    ensures Remembers(cfg, s, c, a, Handled(cfg, s, c, a))
  {
    hide Handled, Remembers, DistinctRoster, Text.Strip;
    match c
    case UtteranceFinal(_, _, _) =>
      if Answers(cfg, s, c) { AnswerIsRemembered(cfg, s, c, a); }
      else if Expels(cfg, s, c) { ExpulsionIsRemembered(cfg, s, c, a); }
      else { BlankIsRemembered(cfg, s, c, a); }
    case ParticipantDisconnected(_) => DepartureIsRemembered(cfg, s, c, a);
    case SilenceTimeout(_) => SilenceIsRemembered(cfg, s, c, a);
    case ModeratorFinishedSpeaking(_, _, _) => ReportIsRemembered(cfg, s, c, a);
    case ModeratorSpeechFailed(_) => ReportIsRemembered(cfg, s, c, a);
    case ParticipantConnected(_) => ArrivalIsRemembered(cfg, s, c, a);
    case _ => RequestIsRemembered(cfg, s, c, a);
  }

  // ------------------------------------------------------------------ the course of the discussion

  /** Fewer than two have come by the end of the wait. */
  predicate TimesOut(s: Runner.State, c: Command) {
    c.JoinWindowExpired? && s.talk.status == Connecting && ConnectedCount(s.talk.roster) < 2
  }

  /** Fewer than two are left in a running discussion. */
  predicate Empties(s: Runner.State, c: Command, t: Runner.State) {
    c.ParticipantDisconnected? && s.talk.status == Active && ConnectedCount(t.talk.roster) < 2
  }

  predicate Winding(s: Runner.State) { s.talk.moderatorState == Closing || s.talk.moderatorState == Reporting }

  predicate IsAskedAgain(s: Runner.State, c: Command, t: Runner.State) {
    s.talk.floorHolder.Some? && AsksAgain(s, c, t, s.talk.floorHolder.value)
  }

  /** Whether the discussion runs, since when, and what it has ended for, unless the search for a speaker ends it. */
  ghost predicate RunsOn(cfg: Settings, s: Runner.State, c: Command, a: Around, t: Runner.State) {
    && t.talk.status == (if Begins(s, c, t) then Active else if TimesOut(s, c) then Aborted
                         else if Reports(c, ClosingWords) then Ended else s.talk.status)
    && t.talk.startedAt == (if Begins(s, c, t) then Some(a.startedAt) else s.talk.startedAt)
    && (t.finished <==> s.finished || TimesOut(s, c) || Reports(c, ClosingWords))
    && (!LooksForNext(cfg, s, c, t) ==>
          t.endReason == if TimesOut(s, c) then Some(JoinTimeout)
                         else if c.EndSessionRequested? && !Winding(s) then Some(c.reason)
                         else if Empties(s, c, t) && !Winding(s) then Some(NotEnoughParticipants)
                         else s.endReason)
  }

  /** What the moderator is doing and saying next, unless it is looking for the next speaker. */
  function SaysNext(cfg: Settings, s: Runner.State, c: Command, t: Runner.State): (ModeratorState, Option<TurnKind>) {
    if Begins(s, c, t) then (Introducing, Some(Intro))
    else if Reports(c, Intro) then (ExplainingRules, Some(Rules))
    else if Reports(c, ClosingWords) then (Reporting, s.speech)
    else if IsAskedAgain(s, c, t) then (FollowingUp, Some(FollowUp))
    else if FallsSilent(s, c) && !SpendsTurn(s, c) then (FollowingUp, Some(Nudge))
    else if Expels(cfg, s, c) && s.talk.status == Active then (FollowingUp, Some(Nudge))
    else if (c.EndSessionRequested? || Empties(s, c, t)) && !Winding(s) then (Closing, Some(ClosingWords))
    else if FloorGoesTo(s, c).Some? then (Listening, if c.SpeechStarted? then None else s.speech)
    else if Answers(cfg, s, c) then (Evaluating, s.speech)
    else (s.talk.moderatorState, s.speech)
  }

  /** Who is to be heard next, unless a new speaker is being looked for. */
  function PendingAfter(cfg: Settings, s: Runner.State, c: Command, t: Runner.State): Option<UserId> {
    if IsAskedAgain(s, c, t) || (FallsSilent(s, c) && !SpendsTurn(s, c)) then s.talk.floorHolder
    else if Expels(cfg, s, c) || SpendsTurn(s, c) then None
    else s.pending
  }

  ghost predicate Conducts(cfg: Settings, s: Runner.State, c: Command, a: Around, t: Runner.State) {
    && RunsOn(cfg, s, c, a, t)
    && (!LooksForNext(cfg, s, c, t) ==>
          (t.talk.moderatorState, t.speech) == SaysNext(cfg, s, c, t) && t.pending == PendingAfter(cfg, s, c, t))
    && (LooksForNext(cfg, s, c, t) && t.talk.moderatorState != Questioning ==>
          t.pending == PendingAfter(cfg, s, c, t))
  }

  lemma NextConducts(cfg: Settings, s: Runner.State, a: Around)
    ensures var t := NextAsked(cfg, s, a);
            && t.talk.status == s.talk.status && t.talk.startedAt == s.talk.startedAt && t.finished == s.finished
            && (s.talk.status != Active ==> t == s)
            && (t.talk.moderatorState != Questioning ==> t.pending == s.pending)
  {
    var closes, asks := NextCases(cfg, s, a);
    hide NextAsked;
  }

  lemma AnswerConducts(cfg: Settings, s: Runner.State, c: Command, a: Around)
    requires Answers(cfg, s, c)
    ensures Conducts(cfg, s, c, a, Handled(cfg, s, c, a))
  {
    hide Answers, Expels, FallsSilent, SpendsTurn, Departs, Begins, TimesOut, Empties, IsAskedAgain;
    hide LooksForNext, FloorGoesTo, Reports, Handled, EndsTurn, Text.Strip, TurnClosed, NextAsked, WithFollowUp,
      Winding;
    var closed := AnswerIsHandled(cfg, s, c, a);
    ClosedTurnIs(s, c.speaker, c.text, a);
    NextConducts(cfg, Folded(closed), a);
    NextIs(cfg, Folded(closed), a);
  }

  lemma OtherUtteranceConducts(cfg: Settings, s: Runner.State, c: Command, a: Around)
    requires c.UtteranceFinal? && !Answers(cfg, s, c)
    ensures Conducts(cfg, s, c, a, Handled(cfg, s, c, a))
  {
    hide Text.Strip, Marked;
    if Expels(cfg, s, c) && c.speaker.Some? {
      MarkingTouchesPeopleOnly(Released(s).talk, c.speaker.value, Removed);
    }
  }

  lemma DepartureConducts(cfg: Settings, s: Runner.State, c: Command, a: Around)
    requires c.ParticipantDisconnected?
    ensures Conducts(cfg, s, c, a, Handled(cfg, s, c, a))
  {
    hide Answers, Expels, FallsSilent, SpendsTurn, Departs, Begins, TimesOut, Empties, IsAskedAgain;
    hide LooksForNext, FloorGoesTo, Reports, Handled, EndsTurn, Text.Strip, TurnClosed, NextAsked, MarkDisconnected,
      ConnectedCount;
    var m := DepartureIsHandled(cfg, s, c, a);
    var closed := TurnClosed(m, Some(c.user), "", a);
    ClosedTurnIs(m, Some(c.user), "", a);
    NextRecordsNothing(cfg, closed, a);
    NextConducts(cfg, closed, a);
  }

  lemma SilenceConducts(cfg: Settings, s: Runner.State, c: Command, a: Around)
    requires c.SilenceTimeout?
    ensures Conducts(cfg, s, c, a, Handled(cfg, s, c, a))
  {
    hide NextAsked, WithSpeech;
    if SpendsTurn(s, c) { NextConducts(cfg, SilenceSpent(Released(s), s.talk.floorHolder.value), a); }
  }

  lemma AReportConducts(cfg: Settings, s: Runner.State, kind: TurnKind, text: string, ms: int, a: Around)
    ensures var t := AfterSpoke(cfg, s, kind, text, ms, a);
            && t.talk.status == (if kind == ClosingWords then Ended else s.talk.status)
            && t.talk.startedAt == s.talk.startedAt && (t.finished <==> s.finished || kind == ClosingWords)
            && (t.talk.moderatorState != Questioning || !SearchesNext(s, kind) ==> t.pending == s.pending)
            && (!SearchesNext(s, kind) ==>
                  && t.endReason == s.endReason
                  && (t.talk.moderatorState, t.speech) ==
                     if kind == Intro then (ExplainingRules, Some(Rules))
                     else if kind == ClosingWords then (Reporting, s.speech)
                     else if kind in {Question, FollowUp, Nudge} && s.pending.Some? then (Listening, s.speech)
                     else (s.talk.moderatorState, s.speech))
  {
    hide NextAsked, RecordTurn;
    RecordingOnlyWrites(s.talk, kind, text, None, ms);
    NextConducts(cfg, Spoken(s, kind, text, ms), a);
  }

  lemma ReportConducts(cfg: Settings, s: Runner.State, c: Command, a: Around)
    requires c.ModeratorFinishedSpeaking? || c.ModeratorSpeechFailed?
    ensures Conducts(cfg, s, c, a, Handled(cfg, s, c, a))
  {
    hide Answers, Expels, FallsSilent, SpendsTurn, Departs, Begins, TimesOut, Empties, IsAskedAgain;
    hide LooksForNext, SearchesNext, FloorGoesTo, Reports, Handled, Words, MsOf, AfterSpoke, EndsTurn, Winding;
    ReportIsHandled(cfg, s, c, a, Handled(cfg, s, c, a));
    AReportConducts(cfg, s, c.kind, Words(c), MsOf(c), a);
  }

  lemma RequestConducts(cfg: Settings, s: Runner.State, c: Command, a: Around)
    requires !c.UtteranceFinal? && !c.ParticipantDisconnected? && !c.SilenceTimeout?
    requires !c.ModeratorFinishedSpeaking? && !c.ModeratorSpeechFailed?
    ensures Conducts(cfg, s, c, a, Handled(cfg, s, c, a))
  {
    hide Answers, Expels, FallsSilent, SpendsTurn, Departs, IsAskedAgain, Text.Strip, AfterAnswer, AfterDisconnected;
    hide AfterSilence, AfterSpoke, EndsTurn, ConnectedCount, Marked, IsRemoved;
    KindsOfEvents(cfg, s, c, Handled(cfg, s, c, a));
    if c.ParticipantConnected? { MarkingTouchesPeopleOnly(s.talk, c.user, Connected); }
  }

  /** For every command: how the discussion runs on, what is said next, and to whom. */
  lemma ConductExactly(cfg: Settings, s: Runner.State, c: Command, a: Around)
    ensures Conducts(cfg, s, c, a, Handled(cfg, s, c, a))
  {
    hide Handled, Conducts, Text.Strip;
    match c
    case UtteranceFinal(_, _, _) =>
      if Answers(cfg, s, c) { AnswerConducts(cfg, s, c, a); } else { OtherUtteranceConducts(cfg, s, c, a); }
    case ParticipantDisconnected(_) => DepartureConducts(cfg, s, c, a);
    case SilenceTimeout(_) => SilenceConducts(cfg, s, c, a);
    case ModeratorFinishedSpeaking(_, _, _) => ReportConducts(cfg, s, c, a);
    case ModeratorSpeechFailed(_) => ReportConducts(cfg, s, c, a);
    case _ => RequestConducts(cfg, s, c, a);
  }

  // ------------------------------------------------------------------ whose silence it is

  /**
   * Which object each kept id is. The floor passes with the object that was pending, or with the one its holder spoke
   * up with; a silence check notes the floor's; a new question asks by the ledger's, and a follow-up by the answer's.
   */
  ghost predicate Refers(cfg: Settings, s: Runner.State, c: Command, a: Around, t: Runner.State) {
    && t.refs.floor == (if FloorGoesTo(s, c) == None then s.refs.floor
                        else if c.SpeechStarted? then Came(a.idObject) else s.refs.pending)
    && t.refs.nudged == (if FallsSilent(s, c) && !SpendsTurn(s, c) then s.refs.floor else s.refs.nudged)
    && t.refs.pending == (if FallsSilent(s, c) && !SpendsTurn(s, c) then s.refs.floor
                          else if IsAskedAgain(s, c, t) then Came(a.idObject)
                          else if LooksForNext(cfg, s, c, t) && t.talk.moderatorState == Questioning then Kept
                          else s.refs.pending)
  }

  lemma NextRefers(cfg: Settings, s: Runner.State, a: Around)
    ensures var t := NextAsked(cfg, s, a);
            t.refs == if s.talk.status == Active && t.talk.moderatorState == Questioning then s.refs.(pending := Kept)
                      else s.refs
  {
    var closes, asks := NextCases(cfg, s, a);
    hide NextAsked;
  }

  lemma ClosedTurnRefers(s: Runner.State, speaker: Option<UserId>, text: string, a: Around)
    ensures var t := TurnClosed(s, speaker, text, a); t.refs == s.refs && t.talk.status == s.talk.status
  {
    hide Text.Strip, WithSpeech, Push, NameOf;
  }

  lemma AnswerRefers(cfg: Settings, s: Runner.State, c: Command, a: Around)
    requires Answers(cfg, s, c)
    ensures Refers(cfg, s, c, a, Handled(cfg, s, c, a))
  {
    hide Answers, Expels, FallsSilent, SpendsTurn, Departs, Begins, TimesOut, Empties, IsAskedAgain;
    hide LooksForNext, FloorGoesTo, Reports, Handled, EndsTurn, Text.Strip, TurnClosed, NextAsked, WithFollowUp;
    var closed := AnswerIsHandled(cfg, s, c, a);
    ClosedTurnRefers(s, c.speaker, c.text, a);
    NextRefers(cfg, Folded(closed), a);
  }

  lemma DepartureRefers(cfg: Settings, s: Runner.State, c: Command, a: Around)
    requires c.ParticipantDisconnected?
    ensures Refers(cfg, s, c, a, Handled(cfg, s, c, a))
  {
    hide Answers, Expels, FallsSilent, SpendsTurn, Departs, Begins, TimesOut, Empties, IsAskedAgain;
    hide LooksForNext, FloorGoesTo, Reports, Handled, EndsTurn, Text.Strip, TurnClosed, NextAsked, MarkDisconnected;
    hide ConnectedCount;
    var m := DepartureIsHandled(cfg, s, c, a);
    var closed := TurnClosed(m, Some(c.user), "", a);
    ClosedTurnRefers(m, Some(c.user), "", a);
    NextRefers(cfg, closed, a);
  }

  lemma SilenceRefers(cfg: Settings, s: Runner.State, c: Command, a: Around)
    requires c.SilenceTimeout?
    ensures Refers(cfg, s, c, a, Handled(cfg, s, c, a))
  {
    hide NextAsked, WithSpeech;
    if SpendsTurn(s, c) { NextRefers(cfg, SilenceSpent(Released(s), s.talk.floorHolder.value), a); }
  }

  lemma AReportRefers(cfg: Settings, s: Runner.State, kind: TurnKind, text: string, ms: int, a: Around)
    ensures var t := AfterSpoke(cfg, s, kind, text, ms, a);
            && t.refs.nudged == s.refs.nudged
            && t.refs.floor ==
                 (if kind in {Question, FollowUp, Nudge} && s.pending.Some? then s.refs.pending else s.refs.floor)
            && t.refs.pending ==
                 if SearchesNext(s, kind) && t.talk.moderatorState == Questioning then Kept else s.refs.pending
  {
    hide NextAsked, RecordTurn;
    RecordingOnlyWrites(s.talk, kind, text, None, ms);
    NextRefers(cfg, Spoken(s, kind, text, ms), a);
  }

  lemma ReportRefers(cfg: Settings, s: Runner.State, c: Command, a: Around)
    requires c.ModeratorFinishedSpeaking? || c.ModeratorSpeechFailed?
    ensures Refers(cfg, s, c, a, Handled(cfg, s, c, a))
  {
    hide Answers, Expels, FallsSilent, SpendsTurn, Departs, Begins, TimesOut, Empties, IsAskedAgain;
    hide LooksForNext, SearchesNext, FloorGoesTo, Reports, Handled, Words, MsOf, AfterSpoke, EndsTurn;
    ReportIsHandled(cfg, s, c, a, Handled(cfg, s, c, a));
    AReportRefers(cfg, s, c.kind, Words(c), MsOf(c), a);
  }

  lemma RequestRefers(cfg: Settings, s: Runner.State, c: Command, a: Around)
    requires !Answers(cfg, s, c) && !c.ParticipantDisconnected? && !c.SilenceTimeout?
    requires !c.ModeratorFinishedSpeaking? && !c.ModeratorSpeechFailed?
    ensures Refers(cfg, s, c, a, Handled(cfg, s, c, a))
  {
    hide FallsSilent, SpendsTurn, Departs, Text.Strip, AfterDisconnected, AfterSilence, AfterSpoke, EndsTurn;
    hide ConnectedCount, Marked, IsRemoved;
    KindsOfEvents(cfg, s, c, Handled(cfg, s, c, a));
  }

  /** For every command: whether the next silence counts as the second of one person. */
  lemma ReferencesExactly(cfg: Settings, s: Runner.State, c: Command, a: Around)
    ensures Refers(cfg, s, c, a, Handled(cfg, s, c, a))
  {
    hide Handled, Refers, Text.Strip;
    match c
    case UtteranceFinal(_, _, _) =>
      if Answers(cfg, s, c) { AnswerRefers(cfg, s, c, a); } else { RequestRefers(cfg, s, c, a); }
    case ParticipantDisconnected(_) => DepartureRefers(cfg, s, c, a);
    case SilenceTimeout(_) => SilenceRefers(cfg, s, c, a);
    case ModeratorFinishedSpeaking(_, _, _) => ReportRefers(cfg, s, c, a);
    case ModeratorSpeechFailed(_) => ReportRefers(cfg, s, c, a);
    case _ => RequestRefers(cfg, s, c, a);
  }
}
