/**
 * The discussion never stalls: as long as it has not finished, something that will move it on is being spoken, is armed
 * as a timer or is waiting on the queue, whatever else arrives and in whatever order.
 */
module RunnerProgress {
  import opened Common
  import opened Ledger
  import opened Session
  import opened Runner
  import opened TurnPolicy
  import RunnerSafety
  import Text

  /** The runner with what has been submitted to it and not yet handled. */
  datatype World = World(s: Runner.State, queued: multiset<Command>)

  datatype Event =
    | Deliver(c: Command, a: Around)
    | Fires(t: Timer)
    | SpeechEnds(text: string, durationMs: int)
    | Arrives(c: Command)

  /** What connections, transcription and requests may submit at any time. */
  predicate External(c: Command) {
    match c
    case ParticipantConnected(_) => true
    case ParticipantDisconnected(_) => true
    case SpeechStarted(_) => true
    case TranscriptPartial(_, _) => true
    case UtteranceFinal(speaker, _, _) => speaker.Some?
    case FloorReleased(_) => true
    case EndSessionRequested(_) => true
    case _ => false
  }

  predicate Enabled(w: World, e: Event) {
    match e
    case Deliver(c, _) => c in w.queued && !w.s.finished
    case Fires(t) => t in w.s.timers
    case SpeechEnds(_, _) => w.s.speech.Some?
    case Arrives(c) => External(c)
  }

  function Next(cfg: Settings, w: World, e: Event): World
    requires Enabled(w, e)
  {
    match e
    case Deliver(c, a) => World(Handled(cfg, w.s, c, a), w.queued - multiset{c})
    case Fires(t) => World(w.s.(timers := w.s.timers - {t}), w.queued + multiset{w.s.timers[t]})
    case SpeechEnds(text, ms) =>
      World(w.s.(speech := None), w.queued + multiset{ModeratorFinishedSpeaking(w.s.speech.value, text, ms)})
    case Arrives(c) => World(w.s, w.queued + multiset{c})
  }

  /** An utterance of this kind is being spoken, or the report that it was is queued. */
  ghost predicate Coming(w: World, kind: TurnKind) {
    w.s.speech == Some(kind) || exists text, ms :: ModeratorFinishedSpeaking(kind, text, ms) in w.queued
  }

  /** The turn will be cut off: the cap, or the grace period after it, is armed or queued for this very turn. */
  ghost predicate Watched(w: World) {
    var cap, final := TurnHardCap(w.s.talk.turnIndex), UtteranceFinal(w.s.talk.floorHolder, "", true);
    || (Cap in w.s.timers && w.s.timers[Cap] == cap)
    || cap in w.queued
    || (CapGrace in w.s.timers && w.s.timers[CapGrace] == final)
    || final in w.queued
  }

  ghost predicate Moving(w: World) {
    match w.s.talk.moderatorState
    case Introducing => Coming(w, Intro)
    case ExplainingRules => Coming(w, Rules)
    case Questioning => w.s.pending.Some? && Coming(w, Question)
    case FollowingUp => (w.s.pending.Some? && Coming(w, FollowUp)) || Coming(w, Nudge)
    case Listening => w.s.talk.floorHolder.Some? && w.s.pending == w.s.talk.floorHolder && Watched(w)
    case Closing => Coming(w, ClosingWords)
    case _ => false
  }

  /** Before the discussion begins, the join window is running out, or an early end is being announced. */
  ghost predicate Waiting(w: World) {
    && w.s.pending == None && w.s.talk.floorHolder == None
    && (w.s.speech == None || w.s.speech == Some(ClosingWords))
    && (forall c :: c in w.queued ==>
          && (c.ModeratorFinishedSpeaking? ==> c.kind == ClosingWords)
          && (c.UtteranceFinal? ==> c.speaker.Some?))
    && (forall t :: t in w.s.timers ==> t == Join && w.s.timers[t] == JoinWindowExpired)
    && (if w.s.talk.moderatorState == Closing then Coming(w, ClosingWords)
        else w.s.talk.moderatorState == Idle && (Join in w.s.timers || JoinWindowExpired in w.queued))
  }

  /** The moderator's own utterances are never filed as answers. */
  ghost predicate OwnWords(w: World) {
    && w.s.speech != Some(Answer)
    && (forall c :: c in w.queued ==> !c.ModeratorSpeechFailed? && (c.ModeratorFinishedSpeaking? ==> c.kind != Answer))
    && (forall t :: t in w.s.timers ==>
          !w.s.timers[t].ModeratorSpeechFailed? && !w.s.timers[t].ModeratorFinishedSpeaking?)
  }

  ghost predicate Lively(w: World) {
    && OwnWords(w)
    && (!w.s.finished ==>
          if w.s.talk.status == Connecting then Waiting(w) else w.s.talk.status == Active && Moving(w))
  }

  // ------------------------------------------------------------------ what the steps leave behind

  /** States in which the next thing to happen has just been set going, whatever the queue holds. */
  ghost predicate UnderWay(s: Runner.State) {
    && s.talk.status == Active
    && match s.talk.moderatorState
       case Introducing => s.speech == Some(Intro)
       case ExplainingRules => s.speech == Some(Rules)
       case Questioning => s.pending.Some? && s.speech == Some(Question)
       case FollowingUp => (s.pending.Some? && s.speech == Some(FollowUp)) || s.speech == Some(Nudge)
       case Listening =>
         && s.talk.floorHolder.Some? && s.pending == s.talk.floorHolder
         && Cap in s.timers && s.timers[Cap] == TurnHardCap(s.talk.turnIndex)
       case Closing => s.speech == Some(ClosingWords)
       case _ => false
  }

  lemma UnderWayMoves(s: Runner.State, queued: multiset<Command>)
    requires UnderWay(s)
    ensures Moving(World(s, queued))
  {
  }

  lemma NextIsUnderWay(cfg: Settings, s: Runner.State, a: Around)
    requires s.talk.status == Active
    ensures var t := NextAsked(cfg, s, a);
            UnderWay(t) || (t == s && s.talk.moderatorState in {Closing, Reporting})
  {
  }

  lemma ClosingIsUnderWay(s: Runner.State, reason: EndReason)
    requires s.talk.status == Active && s.talk.moderatorState !in {Closing, Reporting}
    ensures UnderWay(ClosingBegun(s, reason))
  {
  }

  lemma GrantIsUnderWay(s: Runner.State, u: UserId, ref: Ref, a: Around)
    requires s.talk.status == Active && s.pending == Some(u)
    ensures UnderWay(Granted(s, u, ref, a))
  {
  }

  /** The command is one that does not bear on what is being waited for. */
  ghost predicate IsUnrelated(s: Runner.State, c: Command) {
    match c
    case ModeratorFinishedSpeaking(kind, _, _) =>
      match s.talk.moderatorState {
        case Introducing => kind != Intro
        case ExplainingRules => kind != Rules
        case Questioning => kind != Question
        case FollowingUp => kind != Nudge && (s.pending.Some? ==> kind != FollowUp)
        case Closing => kind != ClosingWords
        case _ => true
      }
    case TurnHardCap(index) => s.talk.moderatorState == Listening ==> index != s.talk.turnIndex
    case UtteranceFinal(speaker, text, forced) =>
      s.talk.moderatorState == Listening ==> speaker != s.talk.floorHolder || text != "" || !forced
    case _ => true
  }

  /** Taking such a command off the queue, with nothing that matters changed, leaves the discussion moving. */
  lemma UnrelatedKeepsMoving(w: World, c: Command, t: Runner.State)
    requires Moving(w) && c in w.queued && IsUnrelated(w.s, c)
    requires t.talk.moderatorState == w.s.talk.moderatorState && t.talk.floorHolder == w.s.talk.floorHolder
    requires t.pending == w.s.pending && t.speech == w.s.speech
    requires w.s.talk.moderatorState == Listening ==>
               && t.talk.turnIndex == w.s.talk.turnIndex
               && (Cap in w.s.timers ==> Cap in t.timers && t.timers[Cap] == w.s.timers[Cap])
               && (CapGrace in w.s.timers ==> CapGrace in t.timers && t.timers[CapGrace] == w.s.timers[CapGrace])
    ensures Moving(World(t, w.queued - multiset{c}))
  {
  }

  lemma TakingKeepsOwnWords(w: World, c: Command, t: Runner.State)
    requires c in w.queued && OwnWords(w) && t.speech != Some(Answer)
    requires forall k :: k in t.timers ==>
        !t.timers[k].ModeratorSpeechFailed? && !t.timers[k].ModeratorFinishedSpeaking?
    ensures OwnWords(World(t, w.queued - multiset{c}))
  {
  }

  // ------------------------------------------------------------------ one step

  lemma AnswerMoves(cfg: Settings, w: World, c: Command, a: Around)
    requires w.s.talk.status == Active && Moving(w) && c in w.queued && c.UtteranceFinal?
    ensures var t := Handled(cfg, w.s, c, a);
            t.talk.status == Active && Moving(World(t, w.queued - multiset{c}))
  {
    hide Moving, NextAsked, Text.Strip, FollowsUp, TurnClosed, WithFollowUp, MarkRemoved;
    var t := Handled(cfg, w.s, c, a);
    if c.speaker != w.s.talk.floorHolder || (Text.Strip(c.text) == "" && !c.forced) {
      UnrelatedKeepsMoving(w, c, t);
    } else if cfg.removeOnPersonalInformation && cfg.personal(c.text) {
      MarkedIsOtherwiseAlike(Released(w.s).talk, c.speaker);
      UnderWayMoves(t, w.queued - multiset{c});
    } else {
      var r := TurnClosed(w.s, c.speaker, c.text, a);
      RecordedIsOtherwiseAlike(w.s, c.speaker, c.text, a);
      if FollowsUp(cfg, r, c.speaker, Text.Strip(c.text), a) {
        UnderWayMoves(t, w.queued - multiset{c});
      } else {
        NextIsUnderWay(cfg, Folded(r), a);
        assert t == NextAsked(cfg, Folded(r), a);
        UnderWayMoves(t, w.queued - multiset{c});
      }
    }
  }

  lemma MarkedIsOtherwiseAlike(t: Session.State, speaker: Option<UserId>)
    ensures speaker.Some? ==>
              var r := MarkRemoved(t, speaker.value);
              r.status == t.status && r.moderatorState == t.moderatorState && r.floorHolder == t.floorHolder
  {
  }

  lemma RecordedIsOtherwiseAlike(s: Runner.State, speaker: Option<UserId>, text: string, a: Around)
    ensures var r := TurnClosed(s, speaker, text, a);
            r.talk.status == s.talk.status && r.talk.moderatorState == Evaluating && r.pending == s.pending
  {
  }

  lemma SpokeMoves(cfg: Settings, w: World, c: Command, kind: TurnKind, text: string, ms: int, a: Around)
    requires w.s.talk.status == Active && Moving(w) && c in w.queued
    requires c == ModeratorFinishedSpeaking(kind, text, ms) && kind != Answer
    ensures var t := Handled(cfg, w.s, c, a);
            t.finished || (t.talk.status == Active && Moving(World(t, w.queued - multiset{c})))
  {
    hide NextAsked, Granted, RecordTurn, Coming, Watched;
    var r := Spoken(w.s, kind, text, ms);
    SpokenIsOtherwiseAlike(w.s, kind, text, ms);
    var t := Handled(cfg, w.s, c, a);
    if kind == ClosingWords {
    } else if kind == Intro {
      UnderWayMoves(t, w.queued - multiset{c});
    } else if kind != Rules && r.pending.Some? {
      GrantIsUnderWay(r, r.pending.value, r.refs.pending, a);
      UnderWayMoves(t, w.queued - multiset{c});
    } else if kind in {Rules, Nudge} {
      NextIsUnderWay(cfg, r, a);
      if UnderWay(t) { UnderWayMoves(t, w.queued - multiset{c}); } else { UnrelatedKeepsMoving(w, c, t); }
    } else {
      UnrelatedKeepsMoving(w, c, t);
    }
  }

  lemma SpokenIsOtherwiseAlike(s: Runner.State, kind: TurnKind, text: string, ms: int)
    ensures var r := Spoken(s, kind, text, ms);
            r == s.(talk := s.talk.(turnIndex := r.talk.turnIndex,
                                    buffered := r.talk.buffered,
                                    recent := r.talk.recent))
  {
  }

  lemma DisconnectMoves(cfg: Settings, w: World, c: Command, a: Around)
    requires w.s.talk.status == Active && Moving(w) && c in w.queued && c.ParticipantDisconnected?
    ensures var t := Handled(cfg, w.s, c, a);
            t.talk.status == Active && Moving(World(t, w.queued - multiset{c}))
  {
    hide NextAsked, Coming, Watched, TurnClosed, Marked, ClosingBegun;
    var r := w.s.(talk := MarkDisconnected(w.s.talk, c.user));
    var t := Handled(cfg, w.s, c, a);
    MarkIsOtherwiseAlike(w.s.talk, c.user, Disconnected);
    if r.talk.moderatorState == Closing { AlreadyClosing(r, NotEnoughParticipants); }
    if t == r {
      UnrelatedKeepsMoving(w, c, t);
    } else if t == ClosingBegun(r, NotEnoughParticipants) {
      ClosingIsUnderWay(r, NotEnoughParticipants);
      UnderWayMoves(t, w.queued - multiset{c});
    } else {
      RecordedIsOtherwiseAlike(r, Some(c.user), "", a);
      NextIsUnderWay(cfg, TurnClosed(r, Some(c.user), "", a), a);
      UnderWayMoves(t, w.queued - multiset{c});
    }
  }

  lemma AlreadyClosing(s: Runner.State, reason: EndReason)
    requires s.talk.moderatorState in {Closing, Reporting}
    ensures ClosingBegun(s, reason) == s
  {
  }

  lemma MarkIsOtherwiseAlike(t: Session.State, u: UserId, connection: Connection)
    ensures var r := Marked(t, u, connection); r == t.(roster := r.roster, tallies := r.tallies)
  {
  }

  lemma SilenceMoves(cfg: Settings, w: World, c: Command, a: Around)
    requires w.s.talk.status == Active && Moving(w) && c in w.queued && c.SilenceTimeout?
    ensures var t := Handled(cfg, w.s, c, a);
            t.talk.status == Active && Moving(World(t, w.queued - multiset{c}))
  {
    hide NextAsked, Coming, Watched, WithSpeech;
    var t := Handled(cfg, w.s, c, a);
    if c.index != w.s.talk.turnIndex || w.s.talk.moderatorState != Listening {
      UnrelatedKeepsMoving(w, c, t);
    } else {
      if w.s.nudged == w.s.talk.floorHolder && w.s.refs.nudged == w.s.refs.floor {
        NextIsUnderWay(cfg, SilenceSpent(Released(w.s), w.s.talk.floorHolder.value), a);
      }
      UnderWayMoves(t, w.queued - multiset{c});
    }
  }

  lemma CapMoves(cfg: Settings, w: World, c: Command, a: Around)
    requires w.s.talk.status == Active && Moving(w) && c in w.queued && (c.TurnHardCap? || c.FloorReleased?)
    ensures var t := Handled(cfg, w.s, c, a);
            t.talk.status == Active && Moving(World(t, w.queued - multiset{c}))
  {
  }

  lemma OtherMoves(cfg: Settings, w: World, c: Command, a: Around)
    requires w.s.talk.status == Active && Moving(w) && c in w.queued
    requires
      || c.ParticipantConnected? || c.JoinWindowExpired? || c.TranscriptPartial? || c.SpeechStarted?
      || c.EndSessionRequested?
    ensures var t := Handled(cfg, w.s, c, a);
            t.talk.status == Active && Moving(World(t, w.queued - multiset{c}))
  {
    hide Coming, Watched, Granted, ClosingBegun, Marked;
    var t := Handled(cfg, w.s, c, a);
    if c.ParticipantConnected? {
      MarkIsOtherwiseAlike(w.s.talk, c.user, Connected);
      UnrelatedKeepsMoving(w, c, t);
    } else if c.SpeechStarted? && w.s.pending == Some(c.user)
              && t == Granted(w.s.(speech := None), c.user, Came(a.idObject), a) {
      GrantIsUnderWay(w.s.(speech := None), c.user, Came(a.idObject), a);
      UnderWayMoves(t, w.queued - multiset{c});
    } else if c.EndSessionRequested? && w.s.talk.moderatorState != Closing {
      ClosingIsUnderWay(w.s, c.reason);
      UnderWayMoves(t, w.queued - multiset{c});
    } else {
      if c.EndSessionRequested? { AlreadyClosing(w.s, c.reason); }
      UnrelatedKeepsMoving(w, c, t);
    }
  }

  lemma ActiveMoves(cfg: Settings, w: World, c: Command, a: Around)
    requires w.s.talk.status == Active && Moving(w) && OwnWords(w) && c in w.queued
    ensures var t := Handled(cfg, w.s, c, a);
            t.finished || (t.talk.status == Active && Moving(World(t, w.queued - multiset{c})))
  {
    hide Moving, Handled;
    match c
    case UtteranceFinal(_, _, _) => AnswerMoves(cfg, w, c, a);
    case ModeratorFinishedSpeaking(kind, text, ms) => SpokeMoves(cfg, w, c, kind, text, ms, a);
    case ParticipantDisconnected(_) => DisconnectMoves(cfg, w, c, a);
    case SilenceTimeout(_) => SilenceMoves(cfg, w, c, a);
    case TurnHardCap(_) => CapMoves(cfg, w, c, a);
    case FloorReleased(_) => CapMoves(cfg, w, c, a);
    case _ => OtherMoves(cfg, w, c, a);
  }

  /** What can be handled while people are awaited: most of it changes nothing but who is connected. */
  lemma WaitingHandles(cfg: Settings, s: Runner.State, c: Command, a: Around)
    requires s.talk.status == Connecting && s.talk.moderatorState in {Idle, Closing}
    requires s.pending == None && s.talk.floorHolder == None
    requires (c.ModeratorFinishedSpeaking? ==> c.kind == ClosingWords) && (c.UtteranceFinal? ==> c.speaker.Some?)
    requires !c.ModeratorSpeechFailed?
    ensures var t := Handled(cfg, s, c, a);
            || t.finished
            || UnderWay(t)
            || (t == s.(talk := s.talk.(roster := t.talk.roster, tallies := t.talk.tallies)) && c != JoinWindowExpired)
            || (t.talk.status == Connecting && t.talk.moderatorState == Closing && t.speech == Some(ClosingWords)
                && t.pending == None && t.talk.floorHolder == None && t.timers == map[])
  {
  }

  lemma WaitingMoves(cfg: Settings, w: World, c: Command, a: Around)
    requires w.s.talk.status == Connecting && Waiting(w) && OwnWords(w) && c in w.queued
    ensures var t := Handled(cfg, w.s, c, a);
            || t.finished
            || (t.talk.status == Connecting && Waiting(World(t, w.queued - multiset{c})))
            || UnderWay(t)
  {
    hide Handled, UnderWay;
    WaitingHandles(cfg, w.s, c, a);
    var t := Handled(cfg, w.s, c, a);
    var v := World(t, w.queued - multiset{c});
    if !t.finished && !UnderWay(t) {
      forall d | d in v.queued ensures d in w.queued {}
      if w.s.talk.moderatorState == Closing && w.s.speech != Some(ClosingWords) {
        var text, ms :| ModeratorFinishedSpeaking(ClosingWords, text, ms) in w.queued;
        if c.ModeratorFinishedSpeaking? { ClosingWordsEnd(cfg, w.s, c.text, c.durationMs, a); }
        assert ModeratorFinishedSpeaking(ClosingWords, text, ms) in v.queued;
      }
    }
  }

  lemma ClosingWordsEnd(cfg: Settings, s: Runner.State, text: string, ms: int, a: Around)
    ensures Handled(cfg, s, ModeratorFinishedSpeaking(ClosingWords, text, ms), a).finished
  {
  }

  /** Nothing said or armed speaks for the moderator under somebody else's heading. */
  ghost predicate SpeaksOwnWords(s: Runner.State) {
    && s.speech != Some(Answer)
    && forall k :: k in s.timers ==> !s.timers[k].ModeratorSpeechFailed? && !s.timers[k].ModeratorFinishedSpeaking?
  }

  lemma NextSpeaksOwnWords(cfg: Settings, s: Runner.State, a: Around)
    requires SpeaksOwnWords(s)
    ensures SpeaksOwnWords(NextAsked(cfg, s, a))
  {
  }

  lemma ClosedTurnSpeaksOwnWords(s: Runner.State, speaker: Option<UserId>, text: string, a: Around)
    requires SpeaksOwnWords(s)
    ensures SpeaksOwnWords(TurnClosed(s, speaker, text, a))
  {
  }

  lemma AnswerSpeaksOwnWords(
    cfg: Settings, s: Runner.State, speaker: Option<UserId>, text: string, forced: bool, a: Around)
    requires SpeaksOwnWords(s)
    ensures SpeaksOwnWords(AfterAnswer(cfg, s, speaker, text, forced, a))
  {
    hide NextAsked, TurnClosed, WithFollowUp, FollowsUp, Marked, Text.Strip;
    var t := TurnClosed(s, speaker, text, a);
    ClosedTurnSpeaksOwnWords(s, speaker, text, a);
    NextSpeaksOwnWords(cfg, Folded(t), a);
  }

  lemma DisconnectSpeaksOwnWords(cfg: Settings, s: Runner.State, u: UserId, a: Around)
    requires SpeaksOwnWords(s)
    ensures SpeaksOwnWords(AfterDisconnected(cfg, s, u, a))
  {
    hide NextAsked, RecordTurn, WithSpeech, Marked, Text.Strip, ConnectedCount;
    NextSpeaksOwnWords(cfg, TurnClosed(s.(talk := MarkDisconnected(s.talk, u)), Some(u), "", a), a);
  }

  lemma SilenceSpeaksOwnWords(cfg: Settings, s: Runner.State, index: nat, a: Around)
    requires SpeaksOwnWords(s)
    ensures SpeaksOwnWords(AfterSilence(cfg, s, index, a))
  {
    hide NextAsked, WithSpeech;
    if s.talk.floorHolder.Some? { NextSpeaksOwnWords(cfg, SilenceSpent(Released(s), s.talk.floorHolder.value), a); }
  }

  lemma ReportSpeaksOwnWords(cfg: Settings, s: Runner.State, kind: TurnKind, text: string, ms: int, a: Around)
    requires SpeaksOwnWords(s)
    ensures SpeaksOwnWords(AfterSpoke(cfg, s, kind, text, ms, a))
  {
    hide NextAsked, RecordTurn;
    NextSpeaksOwnWords(cfg, Spoken(s, kind, text, ms), a);
  }

  lemma CommandSpeaksOwnWords(cfg: Settings, s: Runner.State, c: Command, a: Around)
    requires SpeaksOwnWords(s)
    ensures SpeaksOwnWords(Handled(cfg, s, c, a))
  {
    hide AfterDisconnected, AfterSilence, AfterSpoke, AfterAnswer, Marked;
    match c
    case UtteranceFinal(speaker, text, forced) => AnswerSpeaksOwnWords(cfg, s, speaker, text, forced, a);
    case ParticipantDisconnected(u) => DisconnectSpeaksOwnWords(cfg, s, u, a);
    case SilenceTimeout(index) => SilenceSpeaksOwnWords(cfg, s, index, a);
    case ModeratorFinishedSpeaking(kind, text, ms) => ReportSpeaksOwnWords(cfg, s, kind, text, ms, a);
    case ModeratorSpeechFailed(kind) => ReportSpeaksOwnWords(cfg, s, kind, ScriptedFallback(kind), 0, a);
    case _ =>
  }

  lemma UnderWayIsActive(s: Runner.State)
    requires UnderWay(s)
    ensures s.talk.status == Active
  {
  }

  lemma FiringIsLively(cfg: Settings, w: World, t: Timer)
    requires Lively(w) && t in w.s.timers
    ensures Lively(Next(cfg, w, Fires(t)))
  {
    var v := Next(cfg, w, Fires(t));
    forall kind | Coming(w, kind) ensures Coming(v, kind) { QueueingKeepsComing(w, v, kind); }
  }

  lemma ArrivalIsLively(cfg: Settings, w: World, c: Command)
    requires Lively(w) && External(c)
    ensures Lively(Next(cfg, w, Arrives(c)))
  {
  }

  lemma SpeechEndIsLively(cfg: Settings, w: World, text: string, ms: int)
    requires Lively(w) && w.s.speech.Some?
    ensures Lively(Next(cfg, w, SpeechEnds(text, ms)))
  {
  }

  lemma StepIsLively(cfg: Settings, w: World, e: Event)
    requires Lively(w) && Enabled(w, e)
    ensures Lively(Next(cfg, w, e))
  {
    hide Handled, UnderWay;
    match e
    case Deliver(c, a) =>
      var t := Handled(cfg, w.s, c, a);
      CommandSpeaksOwnWords(cfg, w.s, c, a);
      TakingKeepsOwnWords(w, c, t);
      hide Moving, Waiting, OwnWords;
      if w.s.talk.status == Active {
        ActiveMoves(cfg, w, c, a);
      } else {
        WaitingMoves(cfg, w, c, a);
        if UnderWay(t) {
          UnderWayMoves(t, w.queued - multiset{c});
          UnderWayIsActive(t);
        }
      }
    case Fires(t) => FiringIsLively(cfg, w, t);
    case SpeechEnds(text, ms) => SpeechEndIsLively(cfg, w, text, ms);
    case Arrives(c) => ArrivalIsLively(cfg, w, c);
  }

  lemma QueueingKeepsComing(w: World, v: World, kind: TurnKind)
    requires Coming(w, kind) && (forall c :: c in w.queued ==> c in v.queued)
    requires w.s.speech == v.s.speech
    ensures Coming(v, kind)
  {
  }

  // ------------------------------------------------------------------ whole runs

  /** What becomes of the world through a run; events that cannot happen do not. */
  function After(cfg: Settings, w: World, events: seq<Event>): World
    decreases |events|
  {
    if events == [] then w
    else After(cfg, if Enabled(w, events[0]) then Next(cfg, w, events[0]) else w, events[1..])
  }

  lemma {:induction false} RunsStayLively(cfg: Settings, w: World, events: seq<Event>)
    requires Lively(w)
    ensures Lively(After(cfg, w, events))
    decreases |events|
  {
    hide Lively, Next, Enabled;
    if events != [] {
      if Enabled(w, events[0]) { StepIsLively(cfg, w, events[0]); }
      RunsStayLively(cfg, if Enabled(w, events[0]) then Next(cfg, w, events[0]) else w, events[1..]);
    }
  }

  /** The command that is on its way: queued already, armed, or about to be reported by the utterance being spoken. */
  ghost predicate OnItsWay(w: World, c: Command) {
    || c in w.queued
    || (exists t :: t in w.s.timers && w.s.timers[t] == c)
    || (c.ModeratorFinishedSpeaking? && w.s.speech == Some(c.kind))
  }

  /** Handling the command finishes the session or changes what the moderator is doing. */
  ghost predicate MovesOn(cfg: Settings, s: Runner.State, c: Command) {
    forall a :: var t := Handled(cfg, s, c, a); t.finished || t.talk.moderatorState != s.talk.moderatorState
  }

  /** The hard cap moves on in two steps: it arms the grace period, and the grace period ends the turn. */
  ghost predicate MovesOnSoon(cfg: Settings, s: Runner.State, c: Command) {
    || MovesOn(cfg, s, c)
    || (c.TurnHardCap? && forall a ::
          var t := Handled(cfg, s, c, a);
          CapGrace in t.timers && MovesOn(cfg, t, t.timers[CapGrace]))
  }

  lemma FinishedSpeakingMovesOn(cfg: Settings, s: Runner.State, kind: TurnKind, text: string, ms: int)
    requires s.talk.status == Active
    requires match s.talk.moderatorState
             case Introducing => kind == Intro
             case ExplainingRules => kind == Rules
             case Questioning => kind == Question && s.pending.Some?
             case FollowingUp => kind == Nudge || (kind == FollowUp && s.pending.Some?)
             case Closing => kind == ClosingWords
             case _ => false
    ensures MovesOn(cfg, s, ModeratorFinishedSpeaking(kind, text, ms))
  {
    hide RecordTurn, ShouldClose, SelectNextSpeaker;
    forall a
      ensures var t := Handled(cfg, s, ModeratorFinishedSpeaking(kind, text, ms), a);
              t.finished || t.talk.moderatorState != s.talk.moderatorState
    {
      SpokenIsOtherwiseAlike(s, kind, text, ms);
    }
  }

  lemma GraceMovesOn(cfg: Settings, s: Runner.State)
    requires s.talk.status == Active && s.talk.moderatorState == Listening
    ensures MovesOn(cfg, s, UtteranceFinal(s.talk.floorHolder, "", true))
  {
    hide Handled;
    forall a
      ensures Handled(cfg, s, UtteranceFinal(s.talk.floorHolder, "", true), a).talk.moderatorState != Listening
    {
      GraceEndsTheTurn(cfg, s, a);
    }
  }

  lemma GraceEndsTheTurn(cfg: Settings, s: Runner.State, a: Around)
    requires s.talk.status == Active && s.talk.moderatorState == Listening
    ensures Handled(cfg, s, UtteranceFinal(s.talk.floorHolder, "", true), a).talk.moderatorState != Listening
  {
    hide NextAsked, TurnClosed, Marked, Text.Strip, FollowsUp, WithFollowUp;
    var t := TurnClosed(s, s.talk.floorHolder, "", a);
    MarkedIsOtherwiseAlike(Released(s).talk, s.talk.floorHolder);
    RecordedIsOtherwiseAlike(s, s.talk.floorHolder, "", a);
    NextIsUnderWay(cfg, Folded(t), a);
    NextListensToNobody(cfg, Folded(t), a);
  }

  lemma NextListensToNobody(cfg: Settings, s: Runner.State, a: Around)
    requires s.talk.moderatorState != Listening
    ensures NextAsked(cfg, s, a).talk.moderatorState != Listening
  {
  }

  /** While it has not finished, a lively world always has a command on its way that moves the discussion on. */
  lemma SomethingIsComing(cfg: Settings, w: World) returns (c: Command)
    requires Lively(w) && !w.s.finished
    ensures OnItsWay(w, c) && MovesOnSoon(cfg, w.s, c)
  {
    hide Handled, MovesOn;
    var kind := match w.s.talk.moderatorState {
      case Introducing => Intro
      case ExplainingRules => Rules
      case Questioning => Question
      case FollowingUp => if w.s.pending.Some? && Coming(w, FollowUp) then FollowUp else Nudge
      case _ => ClosingWords
    };
    if w.s.talk.moderatorState == Idle {
      c := JoinWindowExpired;
      JoinMovesOn(cfg, w.s);
    } else if w.s.talk.moderatorState == Listening {
      GraceMovesOn(cfg, w.s);
      c := UtteranceFinal(w.s.talk.floorHolder, "", true);
      if !OnItsWay(w, c) {
        c := TurnHardCap(w.s.talk.turnIndex);
        forall a
          ensures var t := Handled(cfg, w.s, c, a); CapGrace in t.timers && MovesOn(cfg, t, t.timers[CapGrace])
        {
          CapArmsGrace(cfg, w.s, a);
          GraceMovesOn(cfg, Handled(cfg, w.s, c, a));
        }
      }
    } else {
      assert Coming(w, kind);
      if w.s.speech == Some(kind) {
        c := ModeratorFinishedSpeaking(kind, "", 0);
      } else {
        var text, ms :| ModeratorFinishedSpeaking(kind, text, ms) in w.queued;
        c := ModeratorFinishedSpeaking(kind, text, ms);
      }
      if w.s.talk.status == Active {
        FinishedSpeakingMovesOn(cfg, w.s, kind, c.text, c.durationMs);
      } else {
        ClosingWordsFinish(cfg, w.s, c.text, c.durationMs);
      }
    }
  }

  lemma CapArmsGrace(cfg: Settings, s: Runner.State, a: Around)
    requires s.talk.moderatorState == Listening
    ensures var t := Handled(cfg, s, TurnHardCap(s.talk.turnIndex), a);
            t == s.(timers := s.timers[CapGrace := UtteranceFinal(s.talk.floorHolder, "", true)])
  {
  }

  lemma JoinMovesOn(cfg: Settings, s: Runner.State)
    requires s.talk.status == Connecting && s.talk.moderatorState == Idle
    ensures MovesOn(cfg, s, JoinWindowExpired)
  {
  }

  lemma ClosingWordsFinish(cfg: Settings, s: Runner.State, text: string, ms: int)
    ensures MovesOn(cfg, s, ModeratorFinishedSpeaking(ClosingWords, text, ms))
  {
  }

  /**
   * From the start and through every run - commands delivered in any order, late timers, utterances ending just as
   * somebody talks over them - an unfinished discussion has something coming that moves it on.
   */
  lemma NeverStalls(cfg: Settings, people: seq<(UserId, string, nat)>, events: seq<Event>) returns (c: Command)
    ensures var w := After(cfg, World(RunnerSafety.Bootstrapped(people), multiset{}), events);
            w.s.finished || (OnItsWay(w, c) && MovesOnSoon(cfg, w.s, c))
  {
    hide MovesOnSoon, Lively, OnItsWay, RunnerSafety.Bootstrapped, MovesOn;
    var start := World(RunnerSafety.Bootstrapped(people), multiset{});
    StartsLively(people);
    RunsStayLively(cfg, start, events);
    var w := After(cfg, start, events);
    if w.s.finished {
      c := JoinWindowExpired;
    } else {
      c := SomethingIsComing(cfg, w);
    }
  }

  lemma StartsLively(people: seq<(UserId, string, nat)>)
    ensures Lively(World(RunnerSafety.Bootstrapped(people), multiset{}))
  {
    hide RunnerSafety.Seated;
    SeatedIsIdle(people);
  }

  lemma {:induction false} SeatedIsIdle(people: seq<(UserId, string, nat)>)
    ensures var t := RunnerSafety.Seated(people); t.moderatorState == Idle && t.floorHolder == None
    decreases |people|
  {
    if people != [] { SeatedIsIdle(people[..|people| - 1]); }
  }
}
