/**
 * What each command does to each part of the state, said field by field and for every command, and what that adds up to
 * over whole runs (backend/app/modules/moderation/runner.py).
 */
module RunnerAccounts {
  import opened Common
  import opened Ledger
  import opened Session
  import opened Runner
  import opened RunnerSafety
  import opened TurnPolicy
  import Text

  // ------------------------------------------------------------------ what may happen to the floor holder

  /** The floor holder, or nobody when nobody is, is done speaking. */
  predicate Finishes(s: Runner.State, c: Command) {
    c.UtteranceFinal? && c.speaker == s.talk.floorHolder && (Text.Strip(c.text) != "" || c.forced)
  }

  predicate IsPrivate(cfg: Settings, c: Command)
    requires c.UtteranceFinal?
  {
    cfg.removeOnPersonalInformation && cfg.personal(c.text)
  }

  predicate Answers(cfg: Settings, s: Runner.State, c: Command) { Finishes(s, c) && !IsPrivate(cfg, c) }

  predicate Expels(cfg: Settings, s: Runner.State, c: Command) { Finishes(s, c) && IsPrivate(cfg, c) }

  /** The floor holder leaves a discussion that goes on without them. */
  predicate Departs(s: Runner.State, c: Command, t: Runner.State) {
    && c.ParticipantDisconnected? && s.talk.floorHolder == Some(c.user)
    && s.talk.status == Active && ConnectedCount(t.talk.roster) >= 2
  }

  /** The floor holder has said nothing for this whole turn's silence window. */
  predicate FallsSilent(s: Runner.State, c: Command) {
    && c.SilenceTimeout? && c.index == s.talk.turnIndex
    && s.talk.moderatorState == Listening && s.talk.floorHolder.Some?
  }

  /** And has already been asked about it. */
  predicate SpendsTurn(s: Runner.State, c: Command) {
    FallsSilent(s, c) && s.nudged == s.talk.floorHolder && s.refs.nudged == s.refs.floor
  }

  predicate EndsTurn(cfg: Settings, s: Runner.State, c: Command, t: Runner.State) {
    Answers(cfg, s, c) || Departs(s, c, t) || SpendsTurn(s, c)
  }

  /** How long the turn that ends here has lasted; a turn spent in silence counts no time. */
  function HeldMs(s: Runner.State, c: Command, a: Around): nat {
    if c.SilenceTimeout? || s.talk.floorGrantedAt == None then 0 else Max(0, a.heldAt - s.talk.floorGrantedAt.value)
  }

  /** The person who has just answered is asked to say more. */
  predicate AsksAgain(s: Runner.State, c: Command, t: Runner.State, u: UserId) {
    && c.UtteranceFinal? && s.talk.floorHolder == Some(u)
    && t.talk.floorHolder == None && t.talk.moderatorState == FollowingUp && t.pending == Some(u)
  }

  // ------------------------------------------------------------------ the ledger

  /** One person's tally after a command, from what happened to them. */
  ghost predicate Accounted(cfg: Settings, s: Runner.State, c: Command, a: Around, t: Runner.State, i: nat)
    requires i < |s.talk.tallies| == |t.talk.tallies|
  {
    var x, y := s.talk.tallies[i], t.talk.tallies[i];
    var ends := s.talk.floorHolder == Some(x.user) && EndsTurn(cfg, s, c, t);
    && y.user == x.user && y.name == x.name
    && y.turnsTaken == x.turnsTaken + (if ends then 1 else 0)
    && y.spokenMs == x.spokenMs + (if ends then HeldMs(s, c, a) else 0)
    && y.followUps == x.followUps + (if AsksAgain(s, c, t, x.user) then 1 else 0)
  }

  ghost predicate AllAccounted(cfg: Settings, s: Runner.State, c: Command, a: Around, t: Runner.State) {
    && |t.talk.tallies| == |s.talk.tallies|
    && forall i :: 0 <= i < |s.talk.tallies| ==> Accounted(cfg, s, c, a, t, i)
  }

  lemma AccountedWhenUntouched(cfg: Settings, s: Runner.State, c: Command, a: Around, t: Runner.State)
    requires t.talk.tallies == s.talk.tallies && !EndsTurn(cfg, s, c, t)
    requires forall u :: !AsksAgain(s, c, t, u)
    ensures AllAccounted(cfg, s, c, a, t)
  {
  }

  lemma SpeechIsAccounted(ts: Tallies, u: UserId, ms: int, i: nat)
    requires Distinct(ts) && i < |ts|
    ensures var r := WithSpeech(ts, u, ms);
            && |r| == |ts|
            && r[i] == if ts[i].user == u
                       then ts[i].(spokenMs := ts[i].spokenMs + Max(0, ms), turnsTaken := ts[i].turnsTaken + 1)
                       else ts[i]
  {
  }

  lemma SpeechKeepsUsers(ts: Tallies, u: UserId, ms: int)
    requires Distinct(ts)
    ensures Distinct(WithSpeech(ts, u, ms)) && |WithSpeech(ts, u, ms)| == |ts|
  {
  }

  lemma FollowUpIsAccounted(ts: Tallies, u: UserId, i: nat)
    requires Distinct(ts) && i < |ts|
    ensures var r := WithFollowUp(ts, u);
            && |r| == |ts|
            && r[i] == if ts[i].user == u then ts[i].(followUps := ts[i].followUps + 1) else ts[i]
  {
  }

  lemma MarkingIsAccounted(t: Session.State, u: UserId, connection: Connection, i: nat)
    requires i < |t.tallies|
    ensures var r := Marked(t, u, connection);
            && |r.tallies| == |t.tallies| && r.tallies[i] == t.tallies[i].(connected := r.tallies[i].connected)
            && r.floorHolder == t.floorHolder && r.status == t.status && r.moderatorState == t.moderatorState
            && r.floorGrantedAt == t.floorGrantedAt && r.silentTurns == t.silentTurns && r.buffered == t.buffered
  {
  }

  /** What the ledger and the floor look like once a turn has been closed. */
  lemma ClosedTurnIs(s: Runner.State, speaker: Option<UserId>, text: string, a: Around)
    ensures var c := TurnClosed(s, speaker, text, a);
            && c.talk.tallies ==
                 (if speaker.Some? then WithSpeech(s.talk.tallies, speaker.value, FloorHeldMs(s.talk, a.heldAt))
                  else s.talk.tallies)
            && c.talk.floorHolder == None && c.talk.moderatorState == Evaluating && c.talk.lastSpeaker == speaker
            && c.talk.status == s.talk.status && c.talk.roster == s.talk.roster && c.talk.startedAt == s.talk.startedAt
            && c.talk.silentTurns == (if Text.Strip(text) != "" then 0 else s.talk.silentTurns + 1)
            && c.pending == s.pending && c.folded == s.folded && c.folds == s.folds
            && c.endReason == s.endReason && c.finished == s.finished && c.speech == s.speech
            && c.timers == s.timers - {Silence, Cap, CapGrace}
            && c.talk.buffered == s.talk.buffered +
                 (if Text.Strip(text) == "" then []
                  else [TurnFor(s.talk, Answer, Text.Strip(text), speaker, FloorHeldMs(s.talk, a.heldAt))])
  {
    hide Text.Strip, WithSpeech;
  }

  /** Looking for the next speaker closes or asks somebody; in a discussion that is not running it does nothing. */
  lemma NextCases(cfg: Settings, s: Runner.State, a: Around) returns (closes: Option<EndReason>, asks: Option<UserId>)
    ensures NextAsked(cfg, s, a) == if closes.Some? then ClosingBegun(s, closes.value)
                                    else if asks.Some? then Questioned(s, asks.value) else s
    ensures closes == None && asks == None <==> s.talk.status != Active
  {
    hide ShouldClose, SelectNextSpeaker, ElapsedSeconds, ClosingBegun, Questioned;
    closes, asks := None, None;
    if s.talk.status == Active {
      closes := ShouldClose(s.talk.tallies, cfg.budget, ElapsedSeconds(s.talk, a.turnAt), s.talk.silentTurns);
      if closes == None {
        asks := SelectNextSpeaker(s.talk.tallies, s.talk.lastSpeaker);
        if asks == None { closes := Some(NotEnoughParticipants); }
      }
    }
  }

  lemma NextIs(cfg: Settings, s: Runner.State, a: Around)
    ensures var t := NextAsked(cfg, s, a);
            && t.talk.tallies == s.talk.tallies && t.talk.roster == s.talk.roster
            && (s.talk.moderatorState == Evaluating ==> t.talk.moderatorState in {Evaluating, Closing, Questioning})
            && (s.talk.floorHolder == None ==> t.talk.floorHolder == None)
  {
    var closes, asks := NextCases(cfg, s, a);
    hide NextAsked;
  }

  lemma AnswerIsAccounted(cfg: Settings, s: Runner.State, c: Command, a: Around)
    requires Distinct(s.talk.tallies) && c.UtteranceFinal?
    ensures AllAccounted(cfg, s, c, a, Handled(cfg, s, c, a))
  {
    var t := Handled(cfg, s, c, a);
    hide Text.Strip, WithSpeech, WithFollowUp, NextAsked, TurnClosed, Marked, FollowsUp, Distinct;
    if !Finishes(s, c) {
      AccountedWhenUntouched(cfg, s, c, a, t);
    } else if IsPrivate(cfg, c) {
      ExpulsionIsAccounted(cfg, s, c, a);
    } else {
      var closed := TurnClosed(s, c.speaker, c.text, a);
      ClosedTurnIs(s, c.speaker, c.text, a);
      var ms := FloorHeldMs(s.talk, a.heldAt);
      if c.speaker.Some? { SpeechKeepsUsers(s.talk.tallies, c.speaker.value, ms); }
      var again := FollowsUp(cfg, closed, c.speaker, Text.Strip(c.text), a);
      if again {
        NoSpeakerNoFollowUp(cfg, closed, c.speaker, Text.Strip(c.text), a);
        FollowUpKeepsCount(closed.talk.tallies, c.speaker.value);
      } else {
        NextIs(cfg, Folded(closed), a);
      }
      forall i | 0 <= i < |s.talk.tallies|
        ensures Accounted(cfg, s, c, a, t, i)
      {
        if c.speaker.Some? { SpeechIsAccounted(s.talk.tallies, c.speaker.value, ms, i); }
        if again { FollowUpIsAccounted(closed.talk.tallies, c.speaker.value, i); }
      }
    }
  }

  lemma FollowUpKeepsCount(ts: Tallies, u: UserId)
    ensures |WithFollowUp(ts, u)| == |ts|
  {
  }

  lemma ExpulsionIsAccounted(cfg: Settings, s: Runner.State, c: Command, a: Around)
    requires c.UtteranceFinal? && Expels(cfg, s, c)
    ensures AllAccounted(cfg, s, c, a, Handled(cfg, s, c, a))
  {
    hide Text.Strip, Marked;
    var t := Handled(cfg, s, c, a);
    if c.speaker.Some? {
      var r := Released(s.(timers := s.timers - {Silence, Cap, CapGrace}));
      assert t.talk.tallies == Marked(r.talk, c.speaker.value, Removed).tallies;
      MarkingKeepsCount(r.talk, c.speaker.value, Removed);
      forall i | 0 <= i < |s.talk.tallies|
        ensures |t.talk.tallies| == |s.talk.tallies| && Accounted(cfg, s, c, a, t, i)
      {
        MarkingIsAccounted(r.talk, c.speaker.value, Removed, i);
      }
    }
  }

  lemma MarkingKeepsCount(t: Session.State, u: UserId, connection: Connection)
    ensures |Marked(t, u, connection).tallies| == |t.tallies|
  {
  }

  lemma ClosingTouchesNoTally(s: Runner.State, reason: EndReason)
    ensures ClosingBegun(s, reason).talk.tallies == s.talk.tallies
    ensures ClosingBegun(s, reason).talk.roster == s.talk.roster
  {
  }

  lemma DepartureIsAccounted(cfg: Settings, s: Runner.State, c: Command, a: Around)
    requires Distinct(s.talk.tallies) && c.ParticipantDisconnected?
    ensures AllAccounted(cfg, s, c, a, Handled(cfg, s, c, a))
  {
    hide Text.Strip, WithSpeech, NextAsked, TurnClosed, Marked, IsRemoved, Distinct, ClosingBegun, ConnectedCount;
    var t := Handled(cfg, s, c, a);
    var m := s.(talk := MarkDisconnected(s.talk, c.user));
    ClosingTouchesNoTally(m, NotEnoughParticipants);
    MarkingKeepsCount(s.talk, c.user, Disconnected);
    MarkingKeepsPeople(s.talk, c.user, Disconnected);
    var ms := FloorHeldMs(m.talk, a.heldAt);
    SpeechKeepsUsers(m.talk.tallies, c.user, ms);
    var closed := TurnClosed(m, Some(c.user), "", a);
    ClosedTurnIs(m, Some(c.user), "", a);
    NextIs(cfg, closed, a);
    if |s.talk.tallies| > 0 { MarkingIsAccounted(s.talk, c.user, Disconnected, 0); }
    MarkingTouchesPeopleOnly(s.talk, c.user, Disconnected);
    forall i | 0 <= i < |s.talk.tallies|
      ensures Accounted(cfg, s, c, a, t, i)
    {
      MarkingIsAccounted(s.talk, c.user, Disconnected, i);
      SpeechIsAccounted(m.talk.tallies, c.user, ms, i);
    }
  }

  lemma MarkingTouchesPeopleOnly(t: Session.State, u: UserId, connection: Connection)
    ensures var r := Marked(t, u, connection); r == t.(roster := r.roster, tallies := r.tallies)
  {
  }

  lemma MarkingKeepsPeople(t: Session.State, u: UserId, connection: Connection)
    requires Distinct(t.tallies)
    ensures Distinct(Marked(t, u, connection).tallies)
  {
  }

  lemma SilenceIsAccounted(cfg: Settings, s: Runner.State, c: Command, a: Around)
    requires Distinct(s.talk.tallies) && c.SilenceTimeout?
    ensures AllAccounted(cfg, s, c, a, Handled(cfg, s, c, a))
  {
    hide WithSpeech, NextAsked, Distinct;
    var t := Handled(cfg, s, c, a);
    if SpendsTurn(s, c) {
      var u := s.talk.floorHolder.value;
      SpeechKeepsUsers(s.talk.tallies, u, 0);
      NextIs(cfg, SilenceSpent(Released(s), u), a);
      forall i | 0 <= i < |s.talk.tallies|
        ensures Accounted(cfg, s, c, a, t, i)
      {
        SpeechIsAccounted(s.talk.tallies, u, 0, i);
      }
    } else {
      AccountedWhenUntouched(cfg, s, c, a, t);
    }
  }

  lemma ReportTouchesNoTally(cfg: Settings, s: Runner.State, kind: TurnKind, text: string, ms: int, a: Around)
    ensures AfterSpoke(cfg, s, kind, text, ms, a).talk.tallies == s.talk.tallies
  {
    hide NextAsked;
    NextIs(cfg, Spoken(s, kind, text, ms), a);
  }

  /**
   * Whatever the command: a turn is counted for the floor holder exactly when it ends their turn, with the time they
   * held the floor; a follow-up is counted for exactly the person who is asked one; and nobody else's tally moves.
   */
  lemma CommandIsAccounted(cfg: Settings, s: Runner.State, c: Command, a: Around)
    requires Distinct(s.talk.tallies)
    ensures AllAccounted(cfg, s, c, a, Handled(cfg, s, c, a))
  {
    hide Text.Strip, AfterAnswer, AfterDisconnected, AfterSilence, AfterSpoke, Marked, IsRemoved, Distinct,
      ConnectedCount;
    var t := Handled(cfg, s, c, a);
    match c
    case UtteranceFinal(_, _, _) => AnswerIsAccounted(cfg, s, c, a);
    case ParticipantDisconnected(_) => DepartureIsAccounted(cfg, s, c, a);
    case SilenceTimeout(_) => SilenceIsAccounted(cfg, s, c, a);
    case ParticipantConnected(u) =>
      MarkingKeepsCount(s.talk, u, Connected);
      forall i | 0 <= i < |s.talk.tallies|
        ensures Accounted(cfg, s, c, a, t, i)
      {
        MarkingIsAccounted(s.talk, u, Connected, i);
      }
    case ModeratorFinishedSpeaking(kind, text, ms) =>
      ReportTouchesNoTally(cfg, s, kind, text, ms, a);
      AccountedWhenUntouched(cfg, s, c, a, t);
    case ModeratorSpeechFailed(kind) =>
      ReportTouchesNoTally(cfg, s, kind, ScriptedFallback(kind), 0, a);
      AccountedWhenUntouched(cfg, s, c, a, t);
    case _ => AccountedWhenUntouched(cfg, s, c, a, t);
  }

  // ------------------------------------------------------------------ over whole runs

  predicate AskedIn(cfg: Settings, s: Runner.State, step: Step, u: UserId) {
    step.Command? && !s.finished && AsksAgain(s, step.c, Handled(cfg, s, step.c, step.a), u)
  }

  predicate EndedIn(cfg: Settings, s: Runner.State, step: Step, u: UserId) {
    && step.Command? && !s.finished && s.talk.floorHolder == Some(u)
    && EndsTurn(cfg, s, step.c, Handled(cfg, s, step.c, step.a))
  }

  /** How often a run asks somebody a follow-up. */
  function FollowUpsAsked(cfg: Settings, s: Runner.State, steps: seq<Step>, u: UserId): nat
    decreases |steps|
  {
    if steps == [] then 0
    else (if AskedIn(cfg, s, steps[0], u) then 1 else 0) + FollowUpsAsked(cfg, Stepped(cfg, s, steps[0]), steps[1..], u)
  }

  /** How many turns of theirs it ends. */
  function TurnsEnded(cfg: Settings, s: Runner.State, steps: seq<Step>, u: UserId): nat
    decreases |steps|
  {
    if steps == [] then 0
    else (if EndedIn(cfg, s, steps[0], u) then 1 else 0) + TurnsEnded(cfg, Stepped(cfg, s, steps[0]), steps[1..], u)
  }

  /** And how long those turns have lasted together. */
  function TimeHeld(cfg: Settings, s: Runner.State, steps: seq<Step>, u: UserId): nat
    decreases |steps|
  {
    if steps == [] then 0
    else
      (if EndedIn(cfg, s, steps[0], u) then HeldMs(s, steps[0].c, steps[0].a) else 0)
      + TimeHeld(cfg, Stepped(cfg, s, steps[0]), steps[1..], u)
  }

  lemma StepIsAccounted(cfg: Settings, s: Runner.State, step: Step, i: nat)
    requires Distinct(s.talk.tallies) && i < |s.talk.tallies|
    ensures var t := Stepped(cfg, s, step).talk.tallies; var x := s.talk.tallies[i];
            && Distinct(t) && |t| == |s.talk.tallies| && t[i].user == x.user
            && t[i].followUps == x.followUps + (if AskedIn(cfg, s, step, x.user) then 1 else 0)
            && t[i].turnsTaken == x.turnsTaken + (if EndedIn(cfg, s, step, x.user) then 1 else 0)
            && t[i].spokenMs == x.spokenMs + (if EndedIn(cfg, s, step, x.user) then HeldMs(s, step.c, step.a) else 0)
  {
    hide Handled, EndsTurn, AsksAgain, HeldMs;
    if step.Command? && !s.finished {
      CommandIsAccounted(cfg, s, step.c, step.a);
      var t := Handled(cfg, s, step.c, step.a);
      assert Stepped(cfg, s, step) == t;
      assert Accounted(cfg, s, step.c, step.a, t, i);
      forall k, l | 0 <= k < l < |s.talk.tallies|
        ensures t.talk.tallies[k].user != t.talk.tallies[l].user
      {
        assert Accounted(cfg, s, step.c, step.a, t, k) && Accounted(cfg, s, step.c, step.a, t, l);
      }
    }
  }

  lemma {:induction false} RunIsAccounted(cfg: Settings, s: Runner.State, steps: seq<Step>, i: nat)
    requires Distinct(s.talk.tallies) && i < |s.talk.tallies|
    ensures var t := RunOf(cfg, s, steps).talk.tallies; var x := s.talk.tallies[i];
            && |t| == |s.talk.tallies| && t[i].user == x.user
            && t[i].followUps == x.followUps + FollowUpsAsked(cfg, s, steps, x.user)
            && t[i].turnsTaken == x.turnsTaken + TurnsEnded(cfg, s, steps, x.user)
            && t[i].spokenMs == x.spokenMs + TimeHeld(cfg, s, steps, x.user)
    decreases |steps|
  {
    hide Stepped, AskedIn, EndedIn, HeldMs, Distinct;
    if steps != [] {
      StepIsAccounted(cfg, s, steps[0], i);
      RunIsAccounted(cfg, Stepped(cfg, s, steps[0]), steps[1..], i);
    }
  }

  /**
   * From the start and through every run, each person's tally is exactly what happened to them: the follow-ups they
   * were asked, which stay within the quota, the turns of theirs that ended, and the time they held the floor in those.
   */
  lemma TalliesAreHistory(cfg: Settings, people: seq<(UserId, string, nat)>, steps: seq<Step>, i: nat)
    requires i < |Bootstrapped(people).talk.tallies|
    ensures var s := Bootstrapped(people); var t := RunOf(cfg, s, steps).talk.tallies; var u := s.talk.tallies[i].user;
            && |t| == |s.talk.tallies| && t[i].user == u
            && t[i].followUps == FollowUpsAsked(cfg, s, steps, u) <= Max(0, cfg.budget.maxFollowUps)
            && t[i].turnsTaken == TurnsEnded(cfg, s, steps, u)
            && t[i].spokenMs == TimeHeld(cfg, s, steps, u)
  {
    hide Seated, RunOf, FollowUpsAsked, TurnsEnded, TimeHeld, Sound;
    SeatedIsFresh(people);
    RunIsAccounted(cfg, Bootstrapped(people), steps, i);
    EveryRunIsSound(cfg, people, steps);
    SoundIsWithinQuota(cfg, RunOf(cfg, Bootstrapped(people), steps), 0, i);
  }

  lemma SoundIsWithinQuota(cfg: Settings, s: Runner.State, x: UserId, i: nat)
    requires Sound(cfg, s, x) && i < |s.talk.tallies|
    ensures s.talk.tallies[i].followUps <= Max(0, cfg.budget.maxFollowUps)
  {
  }

  // ------------------------------------------------------------------ who is asked again

  /**
   * The floor holder's answer leads to a follow-up exactly when they said something, have a follow-up left and time
   * allows, and the answer invites one; and then they are who will be heard next.
   */
  lemma AskedAgainExactly(cfg: Settings, s: Runner.State, c: Command, a: Around, i: nat)
    requires Distinct(s.talk.tallies) && i < |s.talk.tallies|
    requires Answers(cfg, s, c) && c.speaker == Some(s.talk.tallies[i].user)
    ensures var t := Handled(cfg, s, c, a);
            && (AsksAgain(s, c, t, s.talk.tallies[i].user) <==>
                  && Text.Strip(c.text) != ""
                  && s.talk.tallies[i].followUps < cfg.budget.maxFollowUps
                  && ElapsedSeconds(s.talk, a.judgedAt) <= cfg.budget.targetSeconds
                  && InvitesMore(Text.Strip(c.text), a.verdict))
            && (AsksAgain(s, c, t, s.talk.tallies[i].user) ==> t.speech == Some(FollowUp))
  {
    var closed, u := TurnClosed(s, c.speaker, c.text, a), s.talk.tallies[i].user;
    ClosedTurnIs(s, c.speaker, c.text, a);
    SpeechIsAccounted(s.talk.tallies, u, FloorHeldMs(s.talk, a.heldAt), i);
    SpeechKeepsUsers(s.talk.tallies, u, FloorHeldMs(s.talk, a.heldAt));
    var elapsed := ElapsedSeconds(s.talk, a.judgedAt);
    FollowsUpExactly(Text.Strip(c.text), closed.talk.tallies, i, cfg.budget, elapsed, a.verdict);
    NextIs(cfg, Folded(closed), a);
    hide Text.Strip, WithSpeech, WithFollowUp, NextAsked, TurnClosed, DecideFollowUp, InvitesMore;
  }

  /** Nobody is asked again who is not in the ledger, and nobody but the one who has just answered. */
  lemma OnlyTheKnownAreAsked(cfg: Settings, s: Runner.State, c: Command, a: Around, u: UserId)
    requires AsksAgain(s, c, Handled(cfg, s, c, a), u)
    ensures Answers(cfg, s, c) && c.speaker == Some(u) && IndexOf(s.talk.tallies, u) < |s.talk.tallies|
  {
    hide Text.Strip, NextAsked, TurnClosed, Marked, WithFollowUp, ShouldClose, IndexOf;
    if Answers(cfg, s, c) {
      var closed := TurnClosed(s, c.speaker, c.text, a);
      ClosedTurnIs(s, c.speaker, c.text, a);
      NextIs(cfg, Folded(closed), a);
      SpeechKeepsIndex(s.talk.tallies, u, FloorHeldMs(s.talk, a.heldAt));
    }
  }

  lemma SpeechKeepsIndex(ts: Tallies, u: UserId, ms: int)
    ensures IndexOf(WithSpeech(ts, u, ms), u) == IndexOf(ts, u) && |WithSpeech(ts, u, ms)| == |ts|
  {
    SameUsersSameIndex(ts, WithSpeech(ts, u, ms), u);
  }
}
