/**
 * The session runner: one task that handles one command at a time and is the only writer of session state
 * (backend/app/modules/moderation/runner.py). Each handler is a function from a state to the next, and the class at
 * the end does the same by updating the session, the plane and its own fields in place.
 */
module Runner {
  import opened Common
  import opened Ledger
  import opened Session
  import opened Text
  import opened TurnPolicy
  import VoicePlane

  /** An utterance or command may name nobody: the hard cap quotes the floor holder as it is then. */
  datatype Command =
    | ParticipantConnected(user: UserId)
    | ParticipantDisconnected(user: UserId)
    | JoinWindowExpired
    | SpeechStarted(user: UserId)
    | TranscriptPartial(user: UserId, text: string)
    | UtteranceFinal(speaker: Option<UserId>, text: string, forced: bool)
    | FloorReleased(user: UserId)
    | SilenceTimeout(index: nat)
    | TurnHardCap(index: nat)
    | ModeratorFinishedSpeaking(kind: TurnKind, text: string, durationMs: int)
    | ModeratorSpeechFailed(kind: TurnKind)
    | EndSessionRequested(reason: EndReason)

  datatype Timer = Join | Silence | Cap | CapGrace

  /** `personal` stands for the pattern search that finds contact details in an utterance. */
  datatype Settings = Settings(budget: Budget, removeOnPersonalInformation: bool, personal: string -> bool)

  /**
   * What a command finds outside the session: clock readings in milliseconds, whether the transcription stream opens,
   * the judge's verdict, and which object the command's own user id is.
   */
  datatype Around = Around(
    heldAt: int,
    judgedAt: int,
    turnAt: int,
    grantedAt: int,
    startedAt: int,
    sttOpens: bool,
    verdict: Option<bool>,
    idObject: nat)

  /**
   * Ids that are equal need not be one object, and the silence check asks for one object. An id is the one the ledger
   * keeps, or one that came with a command; these are the objects of the pending, the floor-holding and the nudged id.
   */
  datatype Ref = Kept | Came(n: nat)

  datatype Refs = Refs(pending: Ref, floor: Ref, nudged: Ref)

  /** `folds` is the history of what went into the rolling summary; `speech` is the utterance being spoken, if any. */
  datatype State = State(
    talk: Session.State,
    voice: VoicePlane.State,
    pending: Option<UserId>,
    nudged: Option<UserId>,
    refs: Refs,
    folded: nat,
    folds: seq<seq<BufferedTurn>>,
    timers: map<Timer, Command>,
    speech: Option<TurnKind>,
    endReason: Option<EndReason>,
    finished: bool)

  const FOLD_AFTER_TURNS := 6
  const FOLD_BATCH := 3

  predicate Speaking(m: ModeratorState) {
    m in {Introducing, ExplainingRules, Questioning, FollowingUp, Closing}
  }

  function ScriptedFallback(kind: TurnKind): string {
    match kind
    case Intro => "Welcome everyone. Let's begin today's discussion."
    case Rules => "One person speaks at a time and I will say whose turn it is. Everyone will get an equal share."
    case Question => "Over to you — what is your take on this?"
    case FollowUp => "Could you say a little more about that?"
    case Nudge => "Would you like a moment, or shall I move on?"
    case ClosingWords => "That is where we will stop. Thank you all for taking part."
    case Answer => ""
  }

  // ------------------------------------------------------------------ shared steps

  function Released(s: State): State {
    s.(talk := s.talk.(floorHolder := None, floorGrantedAt := None), voice := VoicePlane.Released(s.voice))
  }

  function Granted(s: State, u: UserId, ref: Ref, a: Around): State {
    s.(refs := s.refs.(floor := ref),
       talk := s.talk.(floorHolder := Some(u), floorGrantedAt := Some(a.grantedAt), moderatorState := Listening),
       voice := VoicePlane.Granted(s.voice, u, a.sttOpens),
       timers := s.timers[Silence := SilenceTimeout(s.talk.turnIndex)][Cap := TurnHardCap(s.talk.turnIndex)])
  }

  /** Count a silent turn, or record the words and forget that a check was needed. */
  function TakenDown(s: State, speaker: Option<UserId>, clean: string, held: int): State {
    var t := s.talk.(
      lastSpeaker := speaker,
      moderatorState := Evaluating,
      silentTurns := if clean != "" then 0 else s.talk.silentTurns + 1);
    if clean == "" then s.(talk := t)
    else s.(talk := RecordTurn(t, Answer, clean, speaker, held), nudged := None)
  }

  /** Bank the time, write down the words, and take the floor back. */
  function TurnClosed(s: State, speaker: Option<UserId>, text: string, a: Around): State {
    var held := FloorHeldMs(s.talk, a.heldAt);
    var banked := if speaker.Some? then WithSpeech(s.talk.tallies, speaker.value, held) else s.talk.tallies;
    Released(TakenDown(
      s.(talk := s.talk.(tallies := banked), timers := s.timers - {Silence, Cap, CapGrace}),
      speaker, Strip(text), held))
  }

  function ClosingBegun(s: State, reason: EndReason): State {
    if s.talk.moderatorState in {Closing, Reporting} then s
    else
      var t := Released(s.(endReason := Some(reason), timers := map[]));
      t.(talk := t.talk.(moderatorState := Closing), speech := Some(ClosingWords))
  }

  /** The moderator turns to somebody with a question. */
  function Questioned(s: State, u: UserId): State {
    s.(talk := s.talk.(moderatorState := Questioning), pending := Some(u), refs := s.refs.(pending := Kept),
       speech := Some(Question))
  }

  function NextAsked(cfg: Settings, s: State, a: Around): State {
    if s.talk.status != Active then s
    else
      var close := ShouldClose(s.talk.tallies, cfg.budget, ElapsedSeconds(s.talk, a.turnAt), s.talk.silentTurns);
      if close.Some? then ClosingBegun(s, close.value)
      else
        match SelectNextSpeaker(s.talk.tallies, s.talk.lastSpeaker)
        case None => ClosingBegun(s, NotEnoughParticipants)
        case Some(u) => Questioned(s, u)
  }

  function DiscussionBegun(s: State, a: Around): State {
    s.(talk := s.talk.(status := Active, startedAt := Some(a.startedAt), moderatorState := Introducing),
       timers := s.timers - {Join},
       speech := Some(Intro))
  }

  /** Fold the oldest unfolded turns into the rolling summary once enough of them have gathered. */
  function Folded(s: State): State {
    if |s.talk.buffered| - s.folded <= FOLD_AFTER_TURNS then s
    else s.(folded := s.folded + FOLD_BATCH, folds := s.folds + [s.talk.buffered[s.folded..s.folded + FOLD_BATCH]])
  }

  function Summarized(s: State): State {
    s.(talk := s.talk.(moderatorState := Reporting, status := Ended), finished := true)
  }

  // ------------------------------------------------------------------ handlers

  function AfterConnected(s: State, u: UserId, a: Around): State {
    var t := s.(talk := MarkConnected(s.talk, u));
    if t.talk.status == Connecting && ConnectedCount(t.talk.roster) >= |t.talk.roster| then DiscussionBegun(t, a) else t
  }

  function AfterDisconnected(cfg: Settings, s: State, u: UserId, a: Around): State {
    var t := s.(talk := MarkDisconnected(s.talk, u));
    if t.talk.status != Active then t
    else if ConnectedCount(t.talk.roster) < 2 then ClosingBegun(t, NotEnoughParticipants)
    else if t.talk.floorHolder == Some(u) then NextAsked(cfg, TurnClosed(t, Some(u), "", a), a)
    else t
  }

  function AfterJoinExpired(s: State, a: Around): State {
    if s.talk.status != Connecting then s
    else if ConnectedCount(s.talk.roster) >= 2 then DiscussionBegun(s, a)
    else s.(talk := s.talk.(status := Aborted), endReason := Some(JoinTimeout), finished := true)
  }

  function AfterSpeechStarted(s: State, u: UserId, a: Around): State {
    if s.talk.moderatorState == Listening then
      if s.talk.floorHolder == Some(u) then s.(timers := s.timers - {Silence}) else s
    else if Speaking(s.talk.moderatorState) && s.pending == Some(u) then
      Granted(s.(speech := None), u, Came(a.idObject), a)
    else s
  }

  /** Asked directly and still nothing: an empty turn is banked, so that the rotation moves on. */
  function SilenceSpent(s: State, u: UserId): State {
    s.(nudged := None,
       pending := None,
       talk := s.talk.(
         silentTurns := s.talk.silentTurns + 1,
         tallies := WithSpeech(s.talk.tallies, u, 0),
         lastSpeaker := Some(u)))
  }

  function AfterSilence(cfg: Settings, s: State, index: nat, a: Around): State {
    if index != s.talk.turnIndex || s.talk.moderatorState != Listening || s.talk.floorHolder == None then s
    else
      var target := s.talk.floorHolder;
      var t := Released(s);
      if s.nudged != target || s.refs.nudged != s.refs.floor then
        t.(nudged := target, pending := target, refs := s.refs.(nudged := s.refs.floor, pending := s.refs.floor),
           talk := t.talk.(moderatorState := FollowingUp), speech := Some(Nudge))
      else
        NextAsked(cfg, SilenceSpent(t, target.value), a)
  }

  function AfterHardCap(s: State, index: nat): State {
    if index != s.talk.turnIndex || s.talk.moderatorState != Listening then s
    else s.(timers := s.timers[CapGrace := UtteranceFinal(s.talk.floorHolder, "", true)])
  }

  function AfterRelease(s: State, u: UserId): State {
    if s.talk.floorHolder != Some(u) then s
    else s.(timers := s.timers[CapGrace := UtteranceFinal(Some(u), "", true)])
  }

  function SeatClosed(s: State, speaker: Option<UserId>): State {
    if speaker == None then s
    else s.(talk := MarkRemoved(s.talk, speaker.value), voice := VoicePlane.PeerRemoved(s.voice, speaker.value))
  }

  /** The words are dropped, the floor is taken back and the seat is closed. */
  function Expelled(s: State, speaker: Option<UserId>): State {
    var t := SeatClosed(Released(s.(timers := s.timers - {Silence, Cap, CapGrace})), speaker);
    t.(talk := t.talk.(lastSpeaker := speaker), nudged := None, pending := None)
  }

  /** Then the room is told. */
  function RemovedForPrivacy(s: State, speaker: Option<UserId>): State {
    var t := Expelled(s, speaker);
    if t.talk.status != Active then t
    else t.(talk := t.talk.(moderatorState := FollowingUp), speech := Some(Nudge))
  }

  predicate FollowsUp(cfg: Settings, s: State, speaker: Option<UserId>, clean: string, a: Around) {
    && clean != ""
    && speaker.Some?
    && DecideFollowUp(clean, s.talk.tallies, speaker.value, cfg.budget, ElapsedSeconds(s.talk, a.judgedAt), a.verdict)
  }

  function FollowUpAsked(s: State, u: UserId, a: Around): State {
    s.(talk := s.talk.(tallies := WithFollowUp(s.talk.tallies, u), moderatorState := FollowingUp),
       pending := Some(u),
       refs := s.refs.(pending := Came(a.idObject)),
       speech := Some(FollowUp))
  }

  function AfterAnswer(cfg: Settings, s: State, speaker: Option<UserId>, text: string, forced: bool, a: Around): State {
    if speaker != s.talk.floorHolder then s
    else if Strip(text) == "" && !forced then
      s.(timers := s.timers[Silence := SilenceTimeout(s.talk.turnIndex)])
    else if cfg.removeOnPersonalInformation && cfg.personal(text) then RemovedForPrivacy(s, speaker)
    else
      var t := TurnClosed(s, speaker, text, a);
      if FollowsUp(cfg, t, speaker, Strip(text), a) then FollowUpAsked(t, speaker.value, a)
      else NextAsked(cfg, Folded(t), a)
  }

  function Spoken(s: State, kind: TurnKind, text: string, durationMs: int): State {
    if text == "" then s else s.(talk := RecordTurn(s.talk, kind, text, None, durationMs))
  }

  function AfterSpoke(cfg: Settings, s: State, kind: TurnKind, text: string, durationMs: int, a: Around): State {
    var t := Spoken(s, kind, text, durationMs);
    match kind
    case Intro => t.(talk := t.talk.(moderatorState := ExplainingRules), speech := Some(Rules))
    case Rules => NextAsked(cfg, t, a)
    case Question => if t.pending.Some? then Granted(t, t.pending.value, t.refs.pending, a) else t
    case FollowUp => if t.pending.Some? then Granted(t, t.pending.value, t.refs.pending, a) else t
    case Nudge => if t.pending.Some? then Granted(t, t.pending.value, t.refs.pending, a) else NextAsked(cfg, t, a)
    case ClosingWords => Summarized(t)
    case Answer => t
  }

  function Handled(cfg: Settings, s: State, c: Command, a: Around): State {
    match c
    case ParticipantConnected(u) => AfterConnected(s, u, a)
    case ParticipantDisconnected(u) => AfterDisconnected(cfg, s, u, a)
    case JoinWindowExpired => AfterJoinExpired(s, a)
    case SpeechStarted(u) => AfterSpeechStarted(s, u, a)
    case TranscriptPartial(_, _) => s
    case UtteranceFinal(speaker, text, forced) => AfterAnswer(cfg, s, speaker, text, forced, a)
    case FloorReleased(u) => AfterRelease(s, u)
    case SilenceTimeout(index) => AfterSilence(cfg, s, index, a)
    case TurnHardCap(index) => AfterHardCap(s, index)
    case ModeratorFinishedSpeaking(kind, text, durationMs) => AfterSpoke(cfg, s, kind, text, durationMs, a)
    case ModeratorSpeechFailed(kind) => AfterSpoke(cfg, s, kind, ScriptedFallback(kind), 0, a)
    case EndSessionRequested(reason) => ClosingBegun(s, reason)
  }

  /** The end of the runner: timers and connections go, and so does everything that was said. */
  function TornDown(s: State): State {
    s.(timers := map[], speech := None, voice := VoicePlane.Closed(s.voice), talk := Wiped(s.talk), finished := true)
  }

  // ------------------------------------------------------------------ the runner object

  class SessionRunner {
    const settings: Settings
    const session: DiscussionSession
    const plane: VoicePlane.Plane
    var pendingTarget: Option<UserId>
    var nudged: Option<UserId>
    var refs: Refs
    var foldedUpto: nat
    ghost var folds: seq<seq<BufferedTurn>>
    var timers: map<Timer, Command>
    var speech: Option<TurnKind>
    var endReason: Option<EndReason>
    var finished: bool

    ghost predicate Valid()
      reads this, plane, plane.mixer
    {
      plane.Valid()
    }

    ghost function View(): State
      reads this, session, session.ledger, plane, plane.mixer
    {
      State.State(session.View(), plane.View(), pendingTarget, nudged, refs, foldedUpto, folds, timers, speech,
                  endReason, finished)
    }

    /** The runner starts: people are awaited, and the wait is bounded. */
    constructor (settings: Settings, session: DiscussionSession, plane: VoicePlane.Plane)
      requires plane.Valid()
      modifies session`status
      ensures Valid() && this.session == session && this.plane == plane && this.settings == settings
      ensures View() == Started(old(session.View()), old(plane.View()))
    {
      this.settings, this.session, this.plane := settings, session, plane;
      pendingTarget, nudged, speech, endReason := None, None, None, None;
      foldedUpto, folds, finished := 0, [], false;
      refs := Refs(Kept, Kept, Kept);
      timers := map[Join := JoinWindowExpired];
      new;
      session.status := Connecting;
    }

    method Handle(c: Command, a: Around)
      requires Valid()
      modifies this, session, session.ledger, plane, plane.mixer
      ensures Valid() && View() == Handled(settings, old(View()), c, a)
    {
      match c
      case ParticipantConnected(u) => OnConnected(u, a);
      case ParticipantDisconnected(u) => OnDisconnected(u, a);
      case JoinWindowExpired => OnJoinExpired(a);
      case SpeechStarted(u) => OnSpeechStarted(u, a);
      case TranscriptPartial(_, _) =>
      case UtteranceFinal(speaker, text, forced) => OnAnswer(speaker, text, forced, a);
      case FloorReleased(u) => OnRelease(u);
      case SilenceTimeout(index) => OnSilence(index, a);
      case TurnHardCap(index) => OnHardCap(index);
      case ModeratorFinishedSpeaking(kind, text, durationMs) => OnSpoke(kind, text, durationMs, a);
      case ModeratorSpeechFailed(kind) => OnSpoke(kind, ScriptedFallback(kind), 0, a);
      case EndSessionRequested(reason) => BeginClosing(reason);
    }

    method OnConnected(u: UserId, a: Around)
      requires Valid()
      modifies this, session, session.ledger, plane.mixer
      ensures Valid() && View() == AfterConnected(old(View()), u, a)
    {
      session.NoteConnected(u);
      if session.status == Connecting && ConnectedCount(session.roster) >= |session.roster| {
        BeginDiscussion(a);
      }
    }

    method OnDisconnected(u: UserId, a: Around)
      requires Valid()
      modifies this, session, session.ledger, plane, plane.mixer
      ensures Valid() && View() == AfterDisconnected(settings, old(View()), u, a)
    {
      session.NoteDisconnected(u);
      if session.status != Active { return; }
      if ConnectedCount(session.roster) < 2 {
        BeginClosing(NotEnoughParticipants);
      } else if session.floorHolder == Some(u) {
        CloseTurn(Some(u), "", a);
        NextTurn(a);
      }
    }

    method OnJoinExpired(a: Around)
      requires Valid()
      modifies this, session, plane.mixer
      ensures Valid() && View() == AfterJoinExpired(old(View()), a)
    {
      if session.status != Connecting { return; }
      if ConnectedCount(session.roster) >= 2 {
        BeginDiscussion(a);
      } else {
        endReason := Some(JoinTimeout);
        session.status := Aborted;
        finished := true;
      }
    }

    method BeginDiscussion(a: Around)
      requires Valid()
      modifies this, session, plane.mixer
      ensures Valid() && View() == DiscussionBegun(old(View()), a)
    {
      CancelTimer(Join);
      session.status := Active;
      session.startedAt := Some(a.startedAt);
      session.moderatorState := Introducing;
      Speak(Intro);
    }

    method OnSpoke(kind: TurnKind, text: string, durationMs: int, a: Around)
      requires Valid()
      modifies this, session, plane, plane.mixer
      ensures Valid() && View() == AfterSpoke(settings, old(View()), kind, text, durationMs, a)
    {
      if text != "" {
        var _ := session.Record(kind, text, None, durationMs);
      }
      match kind
      case Intro =>
        session.moderatorState := ExplainingRules;
        Speak(Rules);
      case Rules => NextTurn(a);
      case Question => if pendingTarget.Some? { GrantFloor(pendingTarget.value, refs.pending, a); }
      case FollowUp => if pendingTarget.Some? { GrantFloor(pendingTarget.value, refs.pending, a); }
      case Nudge => if pendingTarget.Some? { GrantFloor(pendingTarget.value, refs.pending, a); } else { NextTurn(a); }
      case ClosingWords => Summarize();
      case Answer =>
    }

    method NextTurn(a: Around)
      requires Valid()
      modifies this, session, plane, plane.mixer
      ensures Valid() && View() == NextAsked(settings, old(View()), a)
    {
      if session.status != Active { return; }
      var tallies := session.ledger.tallies;
      var elapsed := ElapsedNow(a.turnAt);
      var close := ShouldClose(tallies, settings.budget, elapsed, session.silentTurns);
      if close.Some? {
        BeginClosing(close.value);
        return;
      }
      var target := SelectNextSpeaker(tallies, session.lastSpeaker);
      if target == None {
        BeginClosing(NotEnoughParticipants);
        return;
      }
      pendingTarget, refs := target, refs.(pending := Kept);
      session.moderatorState := Questioning;
      Speak(Question);
    }

    method ElapsedNow(now: int) returns (seconds: int)
      ensures seconds == ElapsedSeconds(session.View(), now)
    {
      seconds := if session.startedAt == None then 0 else TruncDiv(now - session.startedAt.value, 1000);
    }

    method GrantFloor(u: UserId, ref: Ref, a: Around)
      requires Valid()
      modifies this, session, plane, plane.mixer
      ensures Valid() && View() == Granted(old(View()), u, ref, a)
    {
      session.floorHolder := Some(u);
      refs := refs.(floor := ref);
      session.floorGrantedAt := Some(a.grantedAt);
      session.moderatorState := Listening;
      plane.GrantFloor(u, a.sttOpens);
      Arm(Silence, SilenceTimeout(session.turnIndex));
      Arm(Cap, TurnHardCap(session.turnIndex));
    }

    method OnSpeechStarted(u: UserId, a: Around)
      requires Valid()
      modifies this, session, plane, plane.mixer
      ensures Valid() && View() == AfterSpeechStarted(old(View()), u, a)
    {
      if session.moderatorState == Listening {
        if session.floorHolder == Some(u) { CancelTimer(Silence); }
        return;
      }
      if Speaking(session.moderatorState) && pendingTarget == Some(u) {
        Interrupt();
        GrantFloor(u, Came(a.idObject), a);
      }
    }

    method OnSilence(index: nat, a: Around)
      requires Valid()
      modifies this, session, session.ledger, plane, plane.mixer
      ensures Valid() && View() == AfterSilence(settings, old(View()), index, a)
    {
      hide VoicePlane.Plane.Valid, SilenceSpent, NextAsked;
      if index != session.turnIndex || session.moderatorState != Listening { return; }
      var target := session.floorHolder;
      if target == None { return; }
      ReleaseFloor();
      if nudged != target || refs.nudged != refs.floor {
        nudged := target;
        pendingTarget := target;
        refs := refs.(nudged := refs.floor, pending := refs.floor);
        session.moderatorState := FollowingUp;
        Speak(Nudge);
        return;
      }
      SpendSilence(target.value);
      NextTurn(a);
    }

    method SpendSilence(target: UserId)
      requires Valid()
      modifies this`nudged, this`pendingTarget, session, session.ledger
      ensures Valid() && View() == SilenceSpent(old(View()), target)
    {
      hide VoicePlane.Plane.Valid, WithSpeech;
      nudged := None;
      pendingTarget := None;
      session.silentTurns := session.silentTurns + 1;
      session.ledger.AddSpeech(target, 0);
      session.lastSpeaker := Some(target);
    }

    method OnHardCap(index: nat)
      requires Valid()
      modifies this`timers
      ensures Valid() && View() == AfterHardCap(old(View()), index)
    {
      if index != session.turnIndex || session.moderatorState != Listening { return; }
      Arm(CapGrace, UtteranceFinal(session.floorHolder, "", true));
    }

    method OnRelease(u: UserId)
      requires Valid()
      modifies this`timers
      ensures Valid() && View() == AfterRelease(old(View()), u)
    {
      if session.floorHolder != Some(u) { return; }
      Arm(CapGrace, UtteranceFinal(Some(u), "", true));
    }

    method OnAnswer(speaker: Option<UserId>, text: string, forced: bool, a: Around)
      requires Valid()
      modifies this, session, session.ledger, plane, plane.mixer
      ensures Valid() && View() == AfterAnswer(settings, old(View()), speaker, text, forced, a)
    {
      hide VoicePlane.Plane.Valid, WithSpeech, NextAsked, TurnClosed, Folded, RemovedForPrivacy, FollowUpAsked,
        DecideFollowUp, Strip;
      if speaker != session.floorHolder { return; }
      var clean := Strip(text);
      if clean == "" && !forced {
        Arm(Silence, SilenceTimeout(session.turnIndex));
        return;
      }
      if settings.removeOnPersonalInformation && settings.personal(text) {
        RemoveForPrivacy(speaker);
        return;
      }
      CloseTurn(speaker, text, a);
      if clean != "" && speaker.Some? {
        var elapsed := ElapsedNow(a.judgedAt);
        if DecideFollowUp(clean, session.ledger.tallies, speaker.value, settings.budget, elapsed, a.verdict) {
          AskFollowUp(speaker.value, a);
          return;
        }
      }
      MaybeFoldSummary();
      NextTurn(a);
    }

    method AskFollowUp(u: UserId, a: Around)
      requires Valid()
      modifies this, session, session.ledger, plane.mixer
      ensures Valid() && View() == FollowUpAsked(old(View()), u, a)
    {
      hide VoicePlane.Plane.Valid, WithFollowUp;
      session.ledger.AddFollowUp(u);
      pendingTarget := Some(u);
      refs := refs.(pending := Came(a.idObject));
      session.moderatorState := FollowingUp;
      Speak(FollowUp);
    }

    method RemoveForPrivacy(speaker: Option<UserId>)
      requires Valid()
      modifies this, session, session.ledger, plane, plane.mixer
      ensures Valid() && View() == RemovedForPrivacy(old(View()), speaker)
    {
      hide VoicePlane.Plane.Valid, Expelled;
      Expel(speaker);
      if session.status != Active { return; }
      session.moderatorState := FollowingUp;
      Speak(Nudge);
    }

    method Expel(speaker: Option<UserId>)
      requires Valid()
      modifies this, session, session.ledger, plane, plane.mixer
      ensures Valid() && View() == Expelled(old(View()), speaker)
    {
      hide VoicePlane.Plane.Valid, SeatClosed;
      CancelTurnTimers();
      ReleaseFloor();
      CloseSeat(speaker);
      nudged := None;
      pendingTarget := None;
      session.lastSpeaker := speaker;
    }

    /** The seat cannot be taken again, and the connection goes with it. */
    method CloseSeat(speaker: Option<UserId>)
      requires Valid()
      modifies session`roster, session.ledger, plane, plane.mixer
      ensures Valid() && View() == SeatClosed(old(View()), speaker)
    {
      hide VoicePlane.Plane.Valid, MarkRemoved;
      if speaker.Some? {
        session.NoteRemoved(speaker.value);
        plane.RemovePeer(speaker.value);
      }
    }

    method CloseTurn(speaker: Option<UserId>, text: string, a: Around)
      requires Valid()
      modifies this, session, session.ledger, plane, plane.mixer
      ensures Valid() && View() == TurnClosed(old(View()), speaker, text, a)
    {
      hide VoicePlane.Plane.Valid, WithSpeech, TakenDown, Strip;
      CancelTurnTimers();
      var held := if session.floorGrantedAt == None then 0 else a.heldAt - session.floorGrantedAt.value;
      Bank(speaker, held);
      TakeDown(speaker, Strip(text), held);
      ReleaseFloor();
    }

    method Bank(speaker: Option<UserId>, held: int)
      modifies session.ledger
      ensures session.ledger.tallies ==
              if speaker.Some? then WithSpeech(old(session.ledger.tallies), speaker.value, held)
              else old(session.ledger.tallies)
    {
      if speaker.Some? { session.ledger.AddSpeech(speaker.value, held); }
    }

    method TakeDown(speaker: Option<UserId>, clean: string, held: int)
      requires Valid()
      modifies this`nudged, session
      ensures Valid() && View() == TakenDown(old(View()), speaker, clean, held)
    {
      hide VoicePlane.Plane.Valid, RecordTurn;
      session.lastSpeaker := speaker;
      session.moderatorState := Evaluating;
      session.silentTurns := if clean != "" then 0 else session.silentTurns + 1;
      if clean != "" {
        nudged := None;
        var _ := session.Record(Answer, clean, speaker, held);
      }
    }

    method ReleaseFloor()
      requires Valid()
      modifies session`floorHolder, session`floorGrantedAt, plane`sttOwner, plane.mixer
      ensures Valid() && View() == Released(old(View()))
    {
      session.floorHolder := None;
      session.floorGrantedAt := None;
      plane.ReleaseFloor();
    }

    method BeginClosing(reason: EndReason)
      requires Valid()
      modifies this, session, plane, plane.mixer
      ensures Valid() && View() == ClosingBegun(old(View()), reason)
    {
      hide VoicePlane.Plane.Valid;
      if session.moderatorState in {Closing, Reporting} { return; }
      endReason := Some(reason);
      timers := map[];
      Interrupt();
      ReleaseFloor();
      session.moderatorState := Closing;
      Speak(ClosingWords);
    }

    method Summarize()
      requires Valid()
      modifies this, session
      ensures Valid() && View() == Summarized(old(View()))
    {
      session.moderatorState := Reporting;
      session.status := Summarizing;
      session.status := Ended;
      finished := true;
    }

    method MaybeFoldSummary()
      requires Valid()
      modifies this`foldedUpto, this`folds
      ensures Valid() && View() == Folded(old(View()))
    {
      if |session.buffered| - foldedUpto <= FOLD_AFTER_TURNS { return; }
      folds := folds + [session.buffered[foldedUpto..foldedUpto + FOLD_BATCH]];
      foldedUpto := foldedUpto + FOLD_BATCH;
    }

    method Speak(kind: TurnKind)
      requires Valid()
      modifies this`speech, plane.mixer
      ensures Valid() && View() == old(View()).(speech := Some(kind))
    {
      Interrupt();
      speech := Some(kind);
    }

    method Interrupt()
      requires Valid()
      modifies this`speech, plane.mixer
      ensures Valid() && View() == old(View()).(speech := None)
    {
      speech := None;
      plane.Interrupt();
    }

    /** The utterance has played out: its task says so on the queue. */
    method FinishSpeaking(text: string, durationMs: int) returns (c: Command)
      requires Valid() && speech.Some?
      modifies this`speech
      ensures Valid() && View() == old(View()).(speech := None)
      ensures c == ModeratorFinishedSpeaking(old(speech).value, text, durationMs)
    {
      c := ModeratorFinishedSpeaking(speech.value, text, durationMs);
      speech := None;
    }

    /** A timer runs out: it disarms itself and puts its command on the queue. */
    method Fire(t: Timer) returns (c: Command)
      requires Valid() && t in timers
      modifies this`timers
      ensures Valid() && View() == old(View()).(timers := old(timers) - {t}) && c == old(timers)[t]
    {
      c := timers[t];
      timers := timers - {t};
    }

    method Arm(t: Timer, c: Command)
      modifies this`timers
      ensures timers == old(timers)[t := c]
    {
      CancelTimer(t);
      timers := timers[t := c];
    }

    method CancelTimer(t: Timer)
      modifies this`timers
      ensures timers == old(timers) - {t}
    {
      timers := timers - {t};
    }

    method CancelTurnTimers()
      modifies this`timers
      ensures timers == old(timers) - {Silence, Cap, CapGrace}
    {
      CancelTimer(Silence);
      CancelTimer(Cap);
      CancelTimer(CapGrace);
    }

    method Teardown()
      requires Valid()
      modifies this, session, session.ledger, plane, plane.mixer
      ensures Valid() && View() == TornDown(old(View()))
    {
      timers := map[];
      Interrupt();
      plane.Close();
      session.Wipe();
      finished := true;
    }
  }

  /** The runner's first act, before any command. */
  function Started(talk: Session.State, voice: VoicePlane.State): State {
    State.State(talk.(status := Connecting), voice, None, None, Refs(Kept, Kept, Kept), 0, [],
      map[Join := JoinWindowExpired], None, None, false)
  }
}
