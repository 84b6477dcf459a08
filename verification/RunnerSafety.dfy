/** What every command keeps, over whole runs of the session runner. */
module RunnerSafety {
  import opened Common
  import opened Ledger
  import opened Session
  import opened Runner
  import Text
  import opened TurnPolicy
  import VoicePlane

  // ------------------------------------------------------------------ what is kept

  /** Roster and ledger hold the same people in the same order, and exactly the connected ones are eligible. */
  ghost predicate Aligned(t: Session.State) {
    && Distinct(t.tallies)
    && |t.roster| == |t.tallies|
    && forall i :: 0 <= i < |t.roster| ==>
         && t.roster[i].user == t.tallies[i].user
         && (t.tallies[i].connected <==> t.roster[i].connection == Connected)
  }

  ghost predicate WithinQuota(ts: Tallies, quota: int) {
    forall i :: 0 <= i < |ts| ==> ts[i].followUps <= Max(0, quota)
  }

  /** The session, the mixer and the transcription stream name one floor holder. */
  ghost predicate FloorsAgree(s: Runner.State) {
    && s.talk.floorHolder == s.voice.floorHolder
    && (s.voice.sttOwner == None || s.voice.sttOwner == s.talk.floorHolder)
  }

  /** If x has been removed, x neither holds the floor nor is about to be called on. */
  ghost predicate OutOfPlay(s: Runner.State, x: UserId) {
    IsRemoved(s.talk, x) ==>
      s.talk.floorHolder != Some(x) && s.pending != Some(x) && s.nudged != Some(x)
  }

  function Flatten(batches: seq<seq<BufferedTurn>>): seq<BufferedTurn> {
    if batches == [] then [] else Flatten(batches[..|batches| - 1]) + batches[|batches| - 1]
  }

  /** The folded batches are exactly the first turns, in order, and none of them is still shown verbatim. */
  ghost predicate Books(s: Runner.State) {
    && WellKept(s.talk)
    && s.folded <= |s.talk.buffered|
    && Flatten(s.folds) == s.talk.buffered[..s.folded]
    && (s.folded == 0 || s.folded + RECENT_TURNS_KEPT <= |s.talk.buffered|)
  }

  /** Everything that holds between commands, as far as x is concerned. */
  ghost predicate Sound(cfg: Settings, s: Runner.State, x: UserId) {
    && Aligned(s.talk)
    && WithinQuota(s.talk.tallies, cfg.budget.maxFollowUps)
    && FloorsAgree(s)
    && OutOfPlay(s, x)
    && Books(s)
  }

  function TallyOf(t: Session.State, x: UserId): Option<Tally> {
    var i := IndexOf(t.tallies, x);
    if i < |t.tallies| then Some(t.tallies[i]) else None
  }

  /** Once removed, x stays removed, x's tally never changes, and no later turn is x's. */
  ghost predicate Frozen(x: UserId, before: Session.State, after: Session.State) {
    && before.buffered <= after.buffered
    && (IsRemoved(before, x) ==>
          && IsRemoved(after, x)
          && TallyOf(after, x) == TallyOf(before, x)
          && forall i :: |before.buffered| <= i < |after.buffered| ==> after.buffered[i].speaker != Some(x))
  }

  ghost predicate Keeps(cfg: Settings, x: UserId, s: Runner.State, t: Runner.State) {
    Sound(cfg, t, x) && Frozen(x, s.talk, t.talk)
  }

  lemma FrozenChains(x: UserId, a: Session.State, b: Session.State, c: Session.State)
    requires Frozen(x, a, b) && Frozen(x, b, c)
    ensures Frozen(x, a, c)
  {
  }

  // ------------------------------------------------------------------ the books of the session

  lemma SeatIsIndex(t: Session.State, u: UserId)
    requires Aligned(t)
    ensures Seat(t.roster, u) == IndexOf(t.tallies, u)
  {
  }

  lemma SameUsersSameIndex(ts: Tallies, rs: Tallies, x: UserId)
    requires |ts| == |rs| && forall k :: 0 <= k < |ts| ==> ts[k].user == rs[k].user
    ensures IndexOf(ts, x) == IndexOf(rs, x)
  {
  }

  /** Changing one tally other than a removed x's. */
  lemma TallyUpdateKeeps(t: Session.State, i: nat, tally: Tally, quota: int, x: UserId)
    requires Aligned(t) && WithinQuota(t.tallies, quota)
    requires i < |t.tallies| && tally.user == t.tallies[i].user && tally.connected == t.tallies[i].connected
    requires tally.followUps <= Max(0, quota)
    requires IsRemoved(t, x) ==> tally.user != x
    ensures var r := t.(tallies := t.tallies[i := tally]);
            Aligned(r) && WithinQuota(r.tallies, quota) && Frozen(x, t, r)
            && (IsRemoved(r, x) <==> IsRemoved(t, x))
  {
  }

  lemma SpeechKeeps(t: Session.State, u: UserId, durationMs: int, quota: int, x: UserId)
    requires Aligned(t) && WithinQuota(t.tallies, quota)
    requires IsRemoved(t, x) ==> u != x
    ensures var r := t.(tallies := WithSpeech(t.tallies, u, durationMs));
            Aligned(r) && WithinQuota(r.tallies, quota) && Frozen(x, t, r)
            && (IsRemoved(r, x) <==> IsRemoved(t, x))
  {
  }

  /** A change that touches neither the roster, the tallies nor the transcript. */
  lemma UnchangedIsFrozen(x: UserId, t: Session.State, r: Session.State)
    requires r.roster == t.roster && r.tallies == t.tallies && r.buffered == t.buffered
    ensures Frozen(x, t, r)
    ensures IsRemoved(r, x) <==> IsRemoved(t, x)
  {
  }

  lemma RecordKeeps(t: Session.State, kind: TurnKind, text: string, speaker: Option<UserId>, ms: int, x: UserId)
    requires IsRemoved(t, x) ==> speaker != Some(x)
    ensures var r := RecordTurn(t, kind, text, speaker, ms);
            Frozen(x, t, r) && (IsRemoved(r, x) <==> IsRemoved(t, x))
            && (Aligned(r) <==> Aligned(t)) && r.tallies == t.tallies
  {
  }

  /** A change of connection that does not bring a removed x back. */
  lemma MarkKeeps(t: Session.State, u: UserId, connection: Connection, quota: int, x: UserId)
    requires Aligned(t) && WithinQuota(t.tallies, quota)
    requires connection == Removed || !IsRemoved(t, u)
    ensures var r := Marked(t, u, connection);
            Aligned(r) && WithinQuota(r.tallies, quota) && Frozen(x, t, r) && r.buffered == t.buffered
            && (IsRemoved(r, x) <==>
                  IsRemoved(t, x) || (x == u && connection == Removed && Seat(t.roster, u) < |t.roster|))
  {
    var r := Marked(t, u, connection);
    SeatIsIndex(t, u);
    var i := Seat(t.roster, u);
    if i < |t.roster| {
      assert r.roster == t.roster[i := t.roster[i].(connection := connection)];
      assert r.tallies == t.tallies[i := t.tallies[i].(connected := connection == Connected)];
      assert Aligned(r);
      SeatIsIndex(t, x);
      SeatIsIndex(r, x);
      SameUsersSameIndex(t.tallies, r.tallies, x);
    }
  }

  // ------------------------------------------------------------------ shared steps

  /** A step that leaves people, tallies and transcript alone only has the floor and the targets to answer for. */
  lemma ControlKeeps(cfg: Settings, x: UserId, s: Runner.State, t: Runner.State)
    requires Sound(cfg, s, x)
    requires t.talk.roster == s.talk.roster && t.talk.tallies == s.talk.tallies && t.talk.buffered == s.talk.buffered
    requires t.talk.recent == s.talk.recent && t.talk.turnIndex == s.talk.turnIndex
    requires t.folded == s.folded && t.folds == s.folds
    requires FloorsAgree(t) && OutOfPlay(t, x)
    ensures Keeps(cfg, x, s, t)
  {
  }

  lemma RecordingKeeps(cfg: Settings, x: UserId, s: Runner.State, kind: TurnKind, text: string,
                       speaker: Option<UserId>, ms: int)
    requires Sound(cfg, s, x) && (IsRemoved(s.talk, x) ==> speaker != Some(x))
    ensures Keeps(cfg, x, s, s.(talk := RecordTurn(s.talk, kind, text, speaker, ms)))
  {
    hide Distinct;
    hide WithinQuota;
    var t := s.(talk := RecordTurn(s.talk, kind, text, speaker, ms));
    RecordKeeps(s.talk, kind, text, speaker, ms, x);
    assert Books(t) by {
      RecordTurnKeepsBooks(s.talk, kind, text, speaker, ms);
      assert t.talk.buffered[..s.folded] == s.talk.buffered[..s.folded];
    }
  }

  /** Banking speech for somebody who is not a removed x. */
  lemma BankingKeeps(cfg: Settings, x: UserId, s: Runner.State, u: UserId, ms: int)
    requires Sound(cfg, s, x) && (IsRemoved(s.talk, x) ==> u != x)
    ensures Keeps(cfg, x, s, s.(talk := s.talk.(tallies := WithSpeech(s.talk.tallies, u, ms))))
  {
    hide Aligned;
    hide Frozen;
    hide LastRecords;
    hide WithSpeech;
    hide WithinQuota;
    SpeechKeeps(s.talk, u, ms, cfg.budget.maxFollowUps, x);
  }

  lemma MarkingKeeps(cfg: Settings, x: UserId, s: Runner.State, u: UserId, connection: Connection)
    requires Sound(cfg, s, x)
    requires connection != Removed ==> !IsRemoved(s.talk, u)
    requires connection == Removed && u == x ==>
        s.talk.floorHolder != Some(x) && s.pending != Some(x) && s.nudged != Some(x)
    ensures Keeps(cfg, x, s, s.(talk := Marked(s.talk, u, connection)))
  {
    hide Aligned;
    hide Frozen;
    hide LastRecords;
    hide WithinQuota;
    MarkKeeps(s.talk, u, connection, cfg.budget.maxFollowUps, x);
  }

  lemma ReleasedKeeps(cfg: Settings, x: UserId, s: Runner.State)
    requires Sound(cfg, s, x)
    ensures Keeps(cfg, x, s, Released(s))
  {
  }

  lemma GrantedKeeps(cfg: Settings, x: UserId, s: Runner.State, u: UserId, ref: Ref, a: Around)
    requires Sound(cfg, s, x) && s.pending == Some(u)
    ensures Keeps(cfg, x, s, Granted(s, u, ref, a))
  {
  }

  lemma ClosingKeeps(cfg: Settings, x: UserId, s: Runner.State, reason: EndReason)
    requires Sound(cfg, s, x)
    ensures Keeps(cfg, x, s, ClosingBegun(s, reason))
  {
    ControlKeeps(cfg, x, s, ClosingBegun(s, reason)) by { hide Aligned; hide Books; }
  }

  /** A removed participant is not connected, so selection never names them. */
  lemma RemovedIsNeverSelected(t: Session.State, last: Option<UserId>, x: UserId)
    requires Aligned(t) && IsRemoved(t, x)
    ensures SelectNextSpeaker(t.tallies, last) != Some(x)
  {
    hide SelectNextSpeaker;
    hide KeyLeq;
    SeatIsIndex(t, x);
    SelectionIsFair(t.tallies, last);
  }

  lemma NextKeeps(cfg: Settings, x: UserId, s: Runner.State, a: Around)
    requires Sound(cfg, s, x)
    ensures Keeps(cfg, x, s, NextAsked(cfg, s, a))
  {
    var t := NextAsked(cfg, s, a);
    var target := SelectNextSpeaker(s.talk.tallies, s.talk.lastSpeaker);
    if t == s || (t.speech == Some(Question) && t.talk.moderatorState == Questioning) {
      if IsRemoved(s.talk, x) { RemovedIsNeverSelected(s.talk, s.talk.lastSpeaker, x); }
      ControlKeeps(cfg, x, s, t) by { hide Aligned; hide Books; }
    } else if t == ClosingBegun(s, NotEnoughParticipants) {
      ClosingKeeps(cfg, x, s, NotEnoughParticipants);
    } else {
      var elapsed := ElapsedSeconds(s.talk, a.turnAt);
      ClosingKeeps(cfg, x, s, ShouldClose(s.talk.tallies, cfg.budget, elapsed, s.talk.silentTurns).value);
    }
  }

  lemma FoldedKeeps(cfg: Settings, x: UserId, s: Runner.State)
    requires Sound(cfg, s, x)
    ensures Keeps(cfg, x, s, Folded(s))
  {
  }

  lemma TakenDownKeeps(cfg: Settings, x: UserId, s: Runner.State, speaker: Option<UserId>, clean: string, held: int)
    requires Sound(cfg, s, x) && (IsRemoved(s.talk, x) ==> speaker != Some(x))
    ensures Keeps(cfg, x, s, TakenDown(s, speaker, clean, held))
  {
    hide Aligned;
    hide WithinQuota;
    hide Books;
    hide RecordTurn;
    var u := s.(talk := s.talk.(
      lastSpeaker := speaker,
      moderatorState := Evaluating,
      silentTurns := if clean != "" then 0 else s.talk.silentTurns + 1));
    ControlKeeps(cfg, x, s, u);
    if clean != "" {
      RecordingKeeps(cfg, x, u, Answer, clean, speaker, held);
      var v := u.(talk := RecordTurn(u.talk, Answer, clean, speaker, held));
      FrozenChains(x, s.talk, u.talk, v.talk);
      ControlKeeps(cfg, x, v, v.(nudged := None));
      FrozenChains(x, s.talk, v.talk, v.talk);
    }
  }

  /** `s` to `t` to `u` keeps what each step keeps. */
  lemma KeepsIsTransitive(cfg: Settings, x: UserId, s: Runner.State, t: Runner.State, u: Runner.State)
    requires Keeps(cfg, x, s, t) && Keeps(cfg, x, t, u)
    ensures Keeps(cfg, x, s, u)
  {
    hide Sound;
    hide Frozen;
    FrozenChains(x, s.talk, t.talk, u.talk);
  }

  lemma ClosedTurnKeeps(cfg: Settings, x: UserId, s: Runner.State, speaker: Option<UserId>, text: string, a: Around)
    requires Sound(cfg, s, x) && (IsRemoved(s.talk, x) ==> speaker != Some(x))
    ensures Keeps(cfg, x, s, TurnClosed(s, speaker, text, a))
  {
    hide Aligned, WithinQuota, Books, TakenDown, Frozen, IsRemoved, WithSpeech, Text.Strip;
    var held := FloorHeldMs(s.talk, a.heldAt);
    var s0 := s.(timers := s.timers - {Silence, Cap, CapGrace});
    ControlKeeps(cfg, x, s, s0);
    var s1 := s0;
    if speaker.Some? {
      BankingKeeps(cfg, x, s0, speaker.value, held) by { SameRosterSameRemoved(x, s.talk, s0.talk); }
      s1 := s0.(talk := s0.talk.(tallies := WithSpeech(s.talk.tallies, speaker.value, held)));
      KeepsIsTransitive(cfg, x, s, s0, s1);
    }
    var s2 := TakenDown(s1, speaker, Text.Strip(text), held);
    TakenDownKeeps(cfg, x, s1, speaker, Text.Strip(text), held) by { SameRosterSameRemoved(x, s.talk, s1.talk); }
    KeepsIsTransitive(cfg, x, s, s1, s2);
    ReleasedKeeps(cfg, x, s2);
    KeepsIsTransitive(cfg, x, s, s2, Released(s2));
  }

  lemma SameRosterSameRemoved(x: UserId, t: Session.State, r: Session.State)
    requires t.roster == r.roster
    ensures IsRemoved(t, x) <==> IsRemoved(r, x)
  {
  }

  lemma SilenceSpentKeeps(cfg: Settings, x: UserId, s: Runner.State, u: UserId)
    requires Sound(cfg, s, x) && (IsRemoved(s.talk, x) ==> u != x)
    ensures Keeps(cfg, x, s, SilenceSpent(s, u))
  {
    hide Aligned, WithinQuota, Books, Frozen, WithSpeech;
    BankingKeeps(cfg, x, s, u, 0);
    var t := s.(talk := s.talk.(tallies := WithSpeech(s.talk.tallies, u, 0)));
    SameRosterSameRemoved(x, s.talk, t.talk);
    ControlKeeps(cfg, x, t, SilenceSpent(s, u));
    KeepsIsTransitive(cfg, x, s, t, SilenceSpent(s, u));
  }

  lemma ExpelledKeeps(cfg: Settings, x: UserId, s: Runner.State, speaker: Option<UserId>)
    requires Sound(cfg, s, x)
    ensures Keeps(cfg, x, s, Expelled(s, speaker))
  {
    hide Aligned, WithinQuota, Books, Frozen, Marked;
    var s0 := Released(s.(timers := s.timers - {Silence, Cap, CapGrace})).(pending := None, nudged := None);
    ControlKeeps(cfg, x, s, s0);
    var s1 := s0;
    if speaker.Some? {
      s1 := s0.(talk := Marked(s0.talk, speaker.value, Removed));
      MarkingKeeps(cfg, x, s0, speaker.value, Removed);
      KeepsIsTransitive(cfg, x, s, s0, s1);
    }
    ControlKeeps(cfg, x, s1, Expelled(s, speaker)) by { hide IsRemoved; MarkedFloor(s0.talk, speaker); }
    KeepsIsTransitive(cfg, x, s, s1, Expelled(s, speaker));
  }

  lemma MarkedFloor(t: Session.State, speaker: Option<UserId>)
    ensures speaker.Some? ==> Marked(t, speaker.value, Removed).floorHolder == t.floorHolder
  {
  }

  /** A follow-up is asked only of somebody who still has one to give. */
  lemma FollowUpKeeps(cfg: Settings, x: UserId, s: Runner.State, u: UserId, clean: string, a: Around)
    requires Sound(cfg, s, x) && (IsRemoved(s.talk, x) ==> u != x)
    requires FollowsUp(cfg, s, Some(u), clean, a)
    ensures Keeps(cfg, x, s, FollowUpAsked(s, u, a))
  {
    hide Frozen, Books, DecideFollowUp;
    var elapsed := ElapsedSeconds(s.talk, a.judgedAt);
    NoVerdictOverrulesTheRules(clean, s.talk.tallies, u, cfg.budget, elapsed, a.verdict);
    var i := IndexOf(s.talk.tallies, u);
    var t := s.(talk := s.talk.(tallies := WithFollowUp(s.talk.tallies, u)));
    TallyUpdateKeeps(s.talk, i, s.talk.tallies[i].(followUps := s.talk.tallies[i].followUps + 1),
                     cfg.budget.maxFollowUps, x) by { hide Aligned; hide IsRemoved; }
    assert Keeps(cfg, x, s, t) by { hide Aligned; hide WithinQuota; hide IsRemoved; UnchangedKeepsBooks(s, t); }
    hide Aligned;
    hide WithinQuota;
    SameRosterSameRemoved(x, s.talk, t.talk);
    ControlKeeps(cfg, x, t, FollowUpAsked(s, u, a));
    KeepsIsTransitive(cfg, x, s, t, FollowUpAsked(s, u, a));
  }

  lemma UnchangedKeepsBooks(s: Runner.State, t: Runner.State)
    requires Books(s) && t.folded == s.folded && t.folds == s.folds
    requires t.talk.buffered == s.talk.buffered && t.talk.recent == s.talk.recent
        && t.talk.turnIndex == s.talk.turnIndex
    ensures Books(t)
  {
  }

  // ------------------------------------------------------------------ handlers

  lemma ConnectedKeeps(cfg: Settings, x: UserId, s: Runner.State, u: UserId, a: Around)
    requires Sound(cfg, s, x)
    ensures Keeps(cfg, x, s, AfterConnected(s, u, a))
  {
    hide Aligned, WithinQuota, Books, Frozen, Marked, IsRemoved;
    var t := s.(talk := MarkConnected(s.talk, u));
    if IsRemoved(s.talk, u) {
      ControlKeeps(cfg, x, s, s);
    } else {
      MarkingKeeps(cfg, x, s, u, Connected);
    }
    SameRosterSameRemoved(x, t.talk, AfterConnected(s, u, a).talk);
    ControlKeeps(cfg, x, t, AfterConnected(s, u, a));
    KeepsIsTransitive(cfg, x, s, t, AfterConnected(s, u, a));
  }

  lemma DisconnectedKeeps(cfg: Settings, x: UserId, s: Runner.State, u: UserId, a: Around)
    requires Sound(cfg, s, x)
    ensures Keeps(cfg, x, s, AfterDisconnected(cfg, s, u, a))
  {
    hide Aligned, WithinQuota, Books, Frozen, Marked, IsRemoved, TurnClosed, NextAsked, ClosingBegun;
    var t := s.(talk := MarkDisconnected(s.talk, u));
    if IsRemoved(s.talk, u) {
      ControlKeeps(cfg, x, s, s);
    } else {
      MarkingKeeps(cfg, x, s, u, Disconnected);
    }
    if AfterDisconnected(cfg, s, u, a) == ClosingBegun(t, NotEnoughParticipants) {
      ClosingKeeps(cfg, x, t, NotEnoughParticipants);
      KeepsIsTransitive(cfg, x, s, t, ClosingBegun(t, NotEnoughParticipants));
    } else if AfterDisconnected(cfg, s, u, a) != t {
      var r := TurnClosed(t, Some(u), "", a);
      ClosedTurnKeeps(cfg, x, t, Some(u), "", a);
      NextKeeps(cfg, x, r, a);
      KeepsIsTransitive(cfg, x, t, r, NextAsked(cfg, r, a));
      KeepsIsTransitive(cfg, x, s, t, NextAsked(cfg, r, a));
    }
  }

  lemma SilenceKeeps(cfg: Settings, x: UserId, s: Runner.State, index: nat, a: Around)
    requires Sound(cfg, s, x)
    ensures Keeps(cfg, x, s, AfterSilence(cfg, s, index, a))
  {
    hide Aligned, WithinQuota, Books, Frozen, IsRemoved, NextAsked, SilenceSpent;
    var t := Released(s);
    var r := AfterSilence(cfg, s, index, a);
    SameRosterSameRemoved(x, s.talk, t.talk);
    ReleasedKeeps(cfg, x, s);
    if s.talk.floorHolder.Some? && r == NextAsked(cfg, SilenceSpent(t, s.talk.floorHolder.value), a) {
      var q := SilenceSpent(t, s.talk.floorHolder.value);
      SilenceSpentKeeps(cfg, x, t, s.talk.floorHolder.value);
      NextKeeps(cfg, x, q, a);
      KeepsIsTransitive(cfg, x, t, q, r);
      KeepsIsTransitive(cfg, x, s, t, r);
    } else {
      SameRosterSameRemoved(x, s.talk, r.talk);
      ControlKeeps(cfg, x, s, r);
    }
  }

  lemma AnswerKeeps(cfg: Settings, x: UserId, s: Runner.State, speaker: Option<UserId>, text: string, forced: bool,
                    a: Around)
    requires Sound(cfg, s, x)
    ensures Keeps(cfg, x, s, AfterAnswer(cfg, s, speaker, text, forced, a))
  {
    hide Aligned, WithinQuota, Books, Frozen, IsRemoved, NextAsked, TurnClosed, Folded, Expelled, FollowUpAsked;
    hide FollowsUp, Text.Strip;
    var r := AfterAnswer(cfg, s, speaker, text, forced, a);
    if speaker != s.talk.floorHolder || (Text.Strip(text) == "" && !forced) {
      ControlKeeps(cfg, x, s, r);
    } else if r == RemovedForPrivacy(s, speaker) {
      ExpelledKeeps(cfg, x, s, speaker);
      SameRosterSameRemoved(x, Expelled(s, speaker).talk, r.talk);
      ControlKeeps(cfg, x, Expelled(s, speaker), r);
      KeepsIsTransitive(cfg, x, s, Expelled(s, speaker), r);
    } else {
      var t := TurnClosed(s, speaker, text, a);
      ClosedTurnKeeps(cfg, x, s, speaker, text, a);
      SameRosterSameRemoved(x, s.talk, t.talk) by { ClosedTurnRoster(s, speaker, text, a); }
      if r == NextAsked(cfg, Folded(t), a) {
        FoldedKeeps(cfg, x, t);
        KeepsIsTransitive(cfg, x, s, t, Folded(t));
        NextKeeps(cfg, x, Folded(t), a);
        KeepsIsTransitive(cfg, x, s, Folded(t), r);
      } else {
        assert speaker.Some? by { NoSpeakerNoFollowUp(cfg, t, speaker, Text.Strip(text), a); }
        FollowUpKeeps(cfg, x, t, speaker.value, Text.Strip(text), a);
        KeepsIsTransitive(cfg, x, s, t, r);
      }
    }
  }

  lemma ClosedTurnRoster(s: Runner.State, speaker: Option<UserId>, text: string, a: Around)
    ensures TurnClosed(s, speaker, text, a).talk.roster == s.talk.roster
  {
  }

  lemma NoSpeakerNoFollowUp(cfg: Settings, s: Runner.State, speaker: Option<UserId>, clean: string, a: Around)
    ensures FollowsUp(cfg, s, speaker, clean, a) ==> speaker.Some?
  {
  }

  lemma SpokeKeeps(cfg: Settings, x: UserId, s: Runner.State, kind: TurnKind, text: string, ms: int, a: Around)
    requires Sound(cfg, s, x)
    ensures Keeps(cfg, x, s, AfterSpoke(cfg, s, kind, text, ms, a))
  {
    hide Aligned, WithinQuota, Books, Frozen, IsRemoved, NextAsked, Granted, RecordTurn;
    var t := Spoken(s, kind, text, ms);
    var r := AfterSpoke(cfg, s, kind, text, ms, a);
    if text == "" { ControlKeeps(cfg, x, s, t); } else { RecordingKeeps(cfg, x, s, kind, text, None, ms); }
    if t.pending.Some? && r == Granted(t, t.pending.value, t.refs.pending, a) {
      GrantedKeeps(cfg, x, t, t.pending.value, t.refs.pending, a);
    } else if r == NextAsked(cfg, t, a) {
      NextKeeps(cfg, x, t, a);
    } else {
      SameRosterSameRemoved(x, t.talk, r.talk);
      ControlKeeps(cfg, x, t, r);
    }
    KeepsIsTransitive(cfg, x, s, t, r);
  }

  lemma SpeechStartedKeeps(cfg: Settings, x: UserId, s: Runner.State, u: UserId, a: Around)
    requires Sound(cfg, s, x)
    ensures Keeps(cfg, x, s, AfterSpeechStarted(s, u, a))
  {
    hide Aligned, WithinQuota, Books, Frozen, IsRemoved, Granted;
    var t := s.(speech := None);
    var r := AfterSpeechStarted(s, u, a);
    ControlKeeps(cfg, x, s, t);
    if r == Granted(t, u, Came(a.idObject), a) && t.pending == Some(u) {
      GrantedKeeps(cfg, x, t, u, Came(a.idObject), a);
      KeepsIsTransitive(cfg, x, s, t, r);
    } else {
      ControlKeeps(cfg, x, s, r);
    }
  }

  /** Every command, at any moment, keeps the whole invariant. */
  lemma CommandKeeps(cfg: Settings, x: UserId, s: Runner.State, c: Command, a: Around)
    requires Sound(cfg, s, x)
    ensures Keeps(cfg, x, s, Handled(cfg, s, c, a))
  {
    hide Aligned, WithinQuota, Books, Frozen, IsRemoved;
    hide AfterConnected, AfterDisconnected, AfterSilence, AfterAnswer, AfterSpoke, AfterSpeechStarted, ClosingBegun;
    match c
    case ParticipantConnected(u) => ConnectedKeeps(cfg, x, s, u, a);
    case ParticipantDisconnected(u) => DisconnectedKeeps(cfg, x, s, u, a);
    case SpeechStarted(u) => SpeechStartedKeeps(cfg, x, s, u, a);
    case UtteranceFinal(speaker, text, forced) => AnswerKeeps(cfg, x, s, speaker, text, forced, a);
    case SilenceTimeout(index) => SilenceKeeps(cfg, x, s, index, a);
    case ModeratorFinishedSpeaking(kind, text, ms) => SpokeKeeps(cfg, x, s, kind, text, ms, a);
    case ModeratorSpeechFailed(kind) => SpokeKeeps(cfg, x, s, kind, ScriptedFallback(kind), 0, a);
    case EndSessionRequested(reason) => ClosingKeeps(cfg, x, s, reason);
    case _ =>
      SameRosterSameRemoved(x, s.talk, Handled(cfg, s, c, a).talk);
      ControlKeeps(cfg, x, s, Handled(cfg, s, c, a));
  }

  // ------------------------------------------------------------------ whole runs

  /** Between commands, connections come and go on the voice plane. */
  datatype Step = Command(c: Runner.Command, a: Around) | PeerJoins(u: UserId) | PeerLeaves(u: UserId)

  function Stepped(cfg: Settings, s: Runner.State, step: Step): Runner.State {
    match step
    case Command(c, a) => if s.finished then s else Handled(cfg, s, c, a)
    case PeerJoins(u) => s.(voice := VoicePlane.PeerAdded(s.voice, u))
    case PeerLeaves(u) => s.(voice := VoicePlane.PeerRemoved(s.voice, u))
  }

  function RunOf(cfg: Settings, s: Runner.State, steps: seq<Step>): Runner.State
    decreases |steps|
  {
    if steps == [] then s else RunOf(cfg, Stepped(cfg, s, steps[0]), steps[1..])
  }

  lemma StepKeeps(cfg: Settings, x: UserId, s: Runner.State, step: Step)
    requires Sound(cfg, s, x)
    ensures Keeps(cfg, x, s, Stepped(cfg, s, step))
  {
    hide Aligned, WithinQuota, Books, Frozen, IsRemoved, Handled;
    if step.Command? && !s.finished {
      CommandKeeps(cfg, x, s, step.c, step.a);
    } else {
      ControlKeeps(cfg, x, s, Stepped(cfg, s, step));
    }
  }

  lemma {:induction false} RunKeeps(cfg: Settings, x: UserId, s: Runner.State, steps: seq<Step>)
    requires Sound(cfg, s, x)
    ensures Keeps(cfg, x, s, RunOf(cfg, s, steps))
    decreases |steps|
  {
    hide Sound, Frozen, Stepped;
    if steps == [] {
      assert Frozen(x, s.talk, s.talk) by { UnchangedIsFrozen(x, s.talk, s.talk); }
    } else {
      StepKeeps(cfg, x, s, steps[0]);
      RunKeeps(cfg, x, Stepped(cfg, s, steps[0]), steps[1..]);
      KeepsIsTransitive(cfg, x, s, Stepped(cfg, s, steps[0]), RunOf(cfg, s, steps));
    }
  }

  /** Whoever is in the room when the runner starts, in roster order. */
  function Seated(people: seq<(UserId, string, nat)>): Session.State {
    if people == [] then Session.EMPTY
    else
      var p := people[|people| - 1];
      WithParticipant(Seated(people[..|people| - 1]), p.0, p.1, p.2)
  }

  function Bootstrapped(people: seq<(UserId, string, nat)>): Runner.State {
    Started(Seated(people), VoicePlane.State(None, None, {}))
  }

  predicate Untouched(tally: Tally) { tally.followUps == 0 && tally.turnsTaken == 0 && tally.spokenMs == 0 }

  /** Nobody has connected, spoken or been asked anything. */
  ghost predicate Fresh(t: Session.State) {
    && Aligned(t) && t.floorHolder == None && t.buffered == [] && t.recent == [] && t.turnIndex == 0
    && (forall i :: 0 <= i < |t.tallies| ==> Untouched(t.tallies[i]))
    && (forall i :: 0 <= i < |t.roster| ==> t.roster[i].connection != Removed)
  }

  lemma SeatingOneMore(t: Session.State, u: UserId, name: string, seatNo: nat)
    requires Fresh(t)
    ensures Fresh(WithParticipant(t, u, name, seatNo))
  {
    hide Fresh, WithParticipant;
    var i, p := Seat(t.roster, u), Participant(u, name, seatNo, Invited);
    assert Aligned(t) by { FreshIsAligned(t, u); }
    SeatIsIndex(t, u);
    hide Aligned, Seat, IndexOf;
    var tally := if i < |t.tallies| then t.tallies[i].(connected := false) else Tally(u, name, 0, 0, 0, false);
    SeatingChangesOneRow(t, u, name, seatNo, i);
    FreshTalliesAreEmpty(t, i);
    OneMoreRowIsFresh(t, i, p, tally, WithParticipant(t, u, name, seatNo));
  }

  lemma FreshTalliesAreEmpty(t: Session.State, i: nat)
    requires Fresh(t)
    ensures |t.tallies| == |t.roster| && (i < |t.tallies| ==> Untouched(t.tallies[i]))
  {
  }

  lemma SeatingChangesOneRow(t: Session.State, u: UserId, name: string, seatNo: nat, i: nat)
    requires i == Seat(t.roster, u) == IndexOf(t.tallies, u) && |t.roster| == |t.tallies|
    ensures var p := Participant(u, name, seatNo, Invited);
            var tally := if i < |t.tallies| then t.tallies[i].(connected := false) else Tally(u, name, 0, 0, 0, false);
            WithParticipant(t, u, name, seatNo) ==
            t.(roster := t.roster[..i] + [p] + t.roster[Min(i + 1, |t.roster|)..],
               tallies := t.tallies[..i] + [tally] + t.tallies[Min(i + 1, |t.roster|)..])
  {
    if i == |t.tallies| { SameTallyAfter(t.tallies, Tally(u, name, 0, 0, 0, true)); }
    hide Seat, IndexOf;
  }

  lemma OneMoreRowIsFresh(t: Session.State, i: nat, p: Participant, tally: Tally, r: Session.State)
    requires Fresh(t) && i <= |t.roster| && p.user == tally.user && !tally.connected && p.connection == Invited
    requires Untouched(tally)
    requires i < |t.roster| ==> t.roster[i].user == p.user
    requires i == |t.roster| ==> forall k :: 0 <= k < i ==> t.tallies[k].user != tally.user
    requires r == t.(roster := t.roster[..i] + [p] + t.roster[Min(i + 1, |t.roster|)..],
                     tallies := t.tallies[..i] + [tally] + t.tallies[Min(i + 1, |t.roster|)..])
    ensures Fresh(r)
  {
  }

  lemma {:induction false} SameTallyAfter(ts: Tallies, tally: Tally)
    requires IndexOf(ts, tally.user) == |ts|
    ensures IndexOf(ts + [tally], tally.user) == |ts|
  {
    if ts != [] { assert (ts + [tally])[1..] == ts[1..] + [tally]; SameTallyAfter(ts[1..], tally); }
  }

  lemma {:induction false} SeatedIsFresh(people: seq<(UserId, string, nat)>)
    ensures Fresh(Seated(people))
    decreases |people|
  {
    hide Fresh, WithParticipant;
    if people == [] {
      EmptyIsFresh();
    } else {
      var p := people[|people| - 1];
      SeatedIsFresh(people[..|people| - 1]);
      SeatingOneMore(Seated(people[..|people| - 1]), p.0, p.1, p.2);
    }
  }

  lemma EmptyIsFresh()
    ensures Fresh(Session.EMPTY)
  {
  }

  /**
   * Whatever commands arrive, in whatever order, late or early: the roster and the ledger hold the same people and the
   * connected ones are exactly the eligible ones; session, mixer and transcription agree about the floor; nobody is
   * followed up beyond the quota; the transcript is numbered without gaps, its window is its latest turns, and the
   * folded batches are its beginning; and nobody removed is in play.
   */
  lemma EveryRunIsSound(cfg: Settings, people: seq<(UserId, string, nat)>, steps: seq<Step>)
    ensures forall x :: Sound(cfg, RunOf(cfg, Bootstrapped(people), steps), x)
  {
    hide Sound, Bootstrapped, RunOf;
    var s := Bootstrapped(people);
    forall x
      ensures Sound(cfg, RunOf(cfg, s, steps), x)
    {
      BootstrappedIsSound(cfg, people, x);
      RunKeeps(cfg, x, s, steps);
    }
  }

  lemma BootstrappedIsSound(cfg: Settings, people: seq<(UserId, string, nat)>, x: UserId)
    ensures Sound(cfg, Bootstrapped(people), x)
  {
    hide Seated, Aligned;
    SeatedIsFresh(people);
    FreshIsAligned(Seated(people), x);
    assert Seated(people).recent == LastRecords(Seated(people).buffered);
  }

  lemma FreshIsAligned(t: Session.State, x: UserId)
    requires Fresh(t)
    ensures var r := t.(status := Connecting); Aligned(t) && Aligned(r) && !IsRemoved(r, x)
  {
  }

  /**
   * Removal is for good: through any further run the removed person stays removed, never holds the floor, is never the
   * next to be called on, is never selected, speaks in no later turn, and their tally does not move.
   */
  lemma RemovedForGood(cfg: Settings, s: Runner.State, steps: seq<Step>, x: UserId)
    requires Sound(cfg, s, x) && IsRemoved(s.talk, x)
    ensures var t := RunOf(cfg, s, steps);
            && IsRemoved(t.talk, x)
            && t.talk.floorHolder != Some(x) && t.pending != Some(x)
            && SelectNextSpeaker(t.talk.tallies, t.talk.lastSpeaker) != Some(x)
            && TallyOf(t.talk, x) == TallyOf(s.talk, x)
            && forall i :: |s.talk.buffered| <= i < |t.talk.buffered| ==> t.talk.buffered[i].speaker != Some(x)
  {
    hide Aligned, WithinQuota, Books, IsRemoved;
    RunKeeps(cfg, x, s, steps);
    var t := RunOf(cfg, s, steps);
    RemovedIsNeverSelected(t.talk, t.talk.lastSpeaker, x);
  }

  /**
   * Reading out contact details with the floor in hand: the words reach neither the transcript nor the ledger, the
   * floor is free, the connection is gone, and the speaker is removed.
   */
  lemma WordsAreDropped(cfg: Settings, s: Runner.State, u: UserId, text: string, forced: bool, a: Around)
    requires Sound(cfg, s, u) && s.talk.floorHolder == Some(u) && Seat(s.talk.roster, u) < |s.talk.roster|
    requires cfg.removeOnPersonalInformation && cfg.personal(text) && (Text.Strip(text) != "" || forced)
    ensures var t := Handled(cfg, s, UtteranceFinal(Some(u), text, forced), a);
            && IsRemoved(t.talk, u) && t.talk.floorHolder == None && t.voice.floorHolder == None && u !in t.voice.peers
            && t.talk.buffered == s.talk.buffered && t.folds == s.folds
            && forall i :: 0 <= i < |s.talk.tallies| ==>
                 t.talk.tallies[i] == if i == Seat(s.talk.roster, u) then s.talk.tallies[i].(connected := false)
                                      else s.talk.tallies[i]
  {
    hide Text.Strip, WithinQuota, Books, Distinct, Marked, IsRemoved;
    SeatIsIndex(s.talk, u);
    MarkedLeavesTheRest(Released(s).talk, u);
    var r := MarkRemoved(Released(s).talk, u);
    var t := Handled(cfg, s, UtteranceFinal(Some(u), text, forced), a);
    assert t.talk.roster == r.roster && t.talk.tallies == r.tallies;
    SameRosterSameRemoved(u, r, t.talk);
  }

  lemma MarkedLeavesTheRest(t: Session.State, u: UserId)
    requires Seat(t.roster, u) == IndexOf(t.tallies, u) < |t.tallies| == |t.roster|
    ensures var i, r := Seat(t.roster, u), MarkRemoved(t, u);
            && IsRemoved(r, u)
            && r.tallies == t.tallies[i := t.tallies[i].(connected := false)]
            && r == t.(roster := r.roster, tallies := r.tallies)
  {
    var r := MarkRemoved(t, u);
    assert forall k :: 0 <= k < |t.roster| ==> r.roster[k].user == t.roster[k].user;
    SameUsersSameSeat(t.roster, r.roster, u);
  }

  lemma SameUsersSameSeat(r: Roster, q: Roster, u: UserId)
    requires |r| == |q| && forall k :: 0 <= k < |r| ==> r[k].user == q[k].user
    ensures Seat(r, u) == Seat(q, u)
  {
  }

  // ------------------------------------------------------------------ the end of the runner

  /** Teardown takes the floor from the session but not from the mixer: the two agree afterwards only if it was free. */
  lemma TeardownForgetsTheFloor(cfg: Settings, s: Runner.State, x: UserId)
    requires Sound(cfg, s, x)
    ensures FloorsAgree(TornDown(s)) <==> s.talk.floorHolder == None
    ensures TornDown(s).talk.roster == [] && TornDown(s).talk.buffered == [] && TornDown(s).talk.recent == []
    ensures TornDown(s).timers == map[] && TornDown(s).voice.peers == {} && TornDown(s).voice.sttOwner == None
  {
  }

  /**
   * That can happen: closing does not forget who was to be called on, and exactly they may talk over the closing words
   * and get the floor. When the report that the words were spoken is already queued, the runner then ends with the
   * mixer still routing to them.
   */
  lemma ClosingCanBeTalkedOver(cfg: Settings, s: Runner.State, u: UserId, a: Around, b: Around, ms: int)
    requires s.talk.moderatorState == Closing && s.talk.floorHolder == None && FloorsAgree(s)
    ensures var t := Handled(cfg, s, SpeechStarted(u), a);
            var e := Handled(cfg, t, ModeratorFinishedSpeaking(ClosingWords, "", ms), b);
            && (t.talk.moderatorState == Closing <==> s.pending != Some(u))
            && e.finished
            && (FloorsAgree(TornDown(e)) <==> s.pending != Some(u))
  {
  }

  /**
   * A request to end while people are still awaited survives the next arrival exactly when somebody else is still
   * missing; otherwise the discussion begins, and its opening words cut the closing words off.
   */
  lemma EndRequestSurvivesArrival(cfg: Settings, s: Runner.State, reason: EndReason, u: UserId, a: Around, b: Around)
    requires s.talk.status == Connecting && s.talk.moderatorState == Idle
    ensures var t := Handled(cfg, Handled(cfg, s, EndSessionRequested(reason), a), ParticipantConnected(u), b);
            && (t.talk.moderatorState == Closing <==>
                  ConnectedCount(MarkConnected(s.talk, u).roster) < |MarkConnected(s.talk, u).roster|)
            && (t.talk.moderatorState != Closing ==>
                  t.talk.status == Active && t.talk.moderatorState == Introducing && t.speech == Some(Intro))
  {
  }

  // ------------------------------------------------------------------ what a turn comes to

  /** When the policy does not close, two people are connected, so somebody can be called on. */
  lemma NotClosingMeansSomebody(ts: Tallies, budget: Budget, elapsed: int, silentTurns: int, last: Option<UserId>)
    requires ShouldClose(ts, budget, elapsed, silentTurns) == None
    ensures SelectNextSpeaker(ts, last).Some?
  {
  }

  lemma NextOnlyDirects(cfg: Settings, s: Runner.State, a: Around)
    ensures var t := NextAsked(cfg, s, a);
            && t.talk.tallies == s.talk.tallies && t.talk.buffered == s.talk.buffered
            && t.talk.lastSpeaker == s.talk.lastSpeaker
            && t.talk.silentTurns == s.talk.silentTurns && t.talk.roster == s.talk.roster
            && (s.talk.floorHolder == None ==> t.talk.floorHolder == None)
            && (s.voice.floorHolder == None ==> t.voice.floorHolder == None)
  {
    hide ShouldClose, SelectNextSpeaker, ElapsedSeconds;
  }

  /**
   * One whole turn: the question is asked, the floor is granted, and the answer comes. Exactly the speaker's tally
   * moves, by the time the floor was held and by one turn; exactly the words, stripped, are recorded with that
   * duration; and the floor is free again.
   */
  lemma OneWholeTurn(cfg: Settings, s: Runner.State, u: UserId, i: nat, asked: string, askedMs: int, a: Around,
                     text: string, b: Around)
    requires s.pending == Some(u) && i == IndexOf(s.talk.tallies, u) < |s.talk.tallies|
    requires Text.Strip(text) != "" && !(cfg.removeOnPersonalInformation && cfg.personal(text))
    ensures var g := Handled(cfg, s, ModeratorFinishedSpeaking(Question, asked, askedMs), a);
            var t := Handled(cfg, g, UtteranceFinal(Some(u), text, false), b);
            var held := b.heldAt - a.grantedAt;
            && g.talk.floorHolder == g.voice.floorHolder == Some(u) && g.talk.moderatorState == Listening
            && t.talk.floorHolder == t.voice.floorHolder == None
            && t.talk.lastSpeaker == Some(u) && t.talk.silentTurns == 0
            && |t.talk.tallies| == |s.talk.tallies|
            && t.talk.tallies[i].spokenMs == s.talk.tallies[i].spokenMs + Max(0, held)
            && t.talk.tallies[i].turnsTaken == s.talk.tallies[i].turnsTaken + 1
            && (forall k :: 0 <= k < |s.talk.tallies| && k != i ==> t.talk.tallies[k] == s.talk.tallies[k])
            && |t.talk.buffered| == |s.talk.buffered| + (if asked == "" then 1 else 2)
            && s.talk.buffered <= t.talk.buffered
            && var turn := t.talk.buffered[|t.talk.buffered| - 1];
               turn.kind == Answer && turn.speaker == Some(u) && turn.text == Text.Strip(text)
                 && turn.durationMs == held
  {
    hide Handled, Text.Strip, IndexOf;
    AskingGrants(cfg, s, u, Question, asked, askedMs, a);
    var granted := Handled(cfg, s, ModeratorFinishedSpeaking(Question, asked, askedMs), a);
    AnswerLands(cfg, granted, u, i, a.grantedAt, text, b);
  }

  /** The moderator's words addressed to somebody end in that person's floor. */
  lemma AskingGrants(cfg: Settings, s: Runner.State, u: UserId, kind: TurnKind, asked: string, ms: int, a: Around)
    requires s.pending == Some(u) && kind in {Question, FollowUp, Nudge}
    ensures var g := Handled(cfg, s, ModeratorFinishedSpeaking(kind, asked, ms), a);
            && g.talk.floorHolder == g.voice.floorHolder == Some(u) && g.talk.moderatorState == Listening
            && g.talk.floorGrantedAt == Some(a.grantedAt)
            && g.talk.tallies == s.talk.tallies && g.talk.roster == s.talk.roster && g.talk.status == s.talk.status
            && g.talk.silentTurns == s.talk.silentTurns && g.nudged == s.nudged
            && g.refs == s.refs.(floor := s.refs.pending)
            && s.talk.buffered <= g.talk.buffered
            && |g.talk.buffered| == |s.talk.buffered| + (if asked == "" then 0 else 1)
  {
  }

  lemma AnswerLands(cfg: Settings, g: Runner.State, u: UserId, i: nat, since: int, text: string, b: Around)
    requires g.talk.floorHolder == Some(u) && g.talk.floorGrantedAt == Some(since)
    requires i == IndexOf(g.talk.tallies, u) < |g.talk.tallies|
    requires Text.Strip(text) != "" && !(cfg.removeOnPersonalInformation && cfg.personal(text))
    ensures var t := Handled(cfg, g, UtteranceFinal(Some(u), text, false), b);
            && t.talk.floorHolder == t.voice.floorHolder == None
            && t.talk.lastSpeaker == Some(u) && t.talk.silentTurns == 0
            && |t.talk.tallies| == |g.talk.tallies|
            && t.talk.tallies[i].spokenMs == g.talk.tallies[i].spokenMs + Max(0, b.heldAt - since)
            && t.talk.tallies[i].turnsTaken == g.talk.tallies[i].turnsTaken + 1
            && (forall k :: 0 <= k < |g.talk.tallies| && k != i ==> t.talk.tallies[k] == g.talk.tallies[k])
            && |t.talk.buffered| == |g.talk.buffered| + 1 && g.talk.buffered <= t.talk.buffered
            && var turn := t.talk.buffered[|t.talk.buffered| - 1];
               turn.kind == Answer && turn.speaker == Some(u) && turn.text == Text.Strip(text)
               && turn.durationMs == b.heldAt - since
  {
    hide NextAsked, TurnClosed, Text.Strip, FollowsUp, WithFollowUp, IndexOf;
    var c := TurnClosed(g, Some(u), text, b);
    ClosedTurnLands(g, u, i, since, text, b);
    if FollowsUp(cfg, c, Some(u), Text.Strip(text), b) {
      FollowUpLands(c.talk.tallies, u, i);
    } else {
      NextOnlyDirects(cfg, Folded(c), b);
    }
  }

  lemma ClosedTurnLands(g: Runner.State, u: UserId, i: nat, since: int, text: string, b: Around)
    requires g.talk.floorGrantedAt == Some(since) && i == IndexOf(g.talk.tallies, u) < |g.talk.tallies|
    requires Text.Strip(text) != ""
    ensures var c := TurnClosed(g, Some(u), text, b);
            && c.talk.floorHolder == c.voice.floorHolder == None
            && c.talk.lastSpeaker == Some(u) && c.talk.silentTurns == 0
            && IndexOf(c.talk.tallies, u) == i && |c.talk.tallies| == |g.talk.tallies|
            && c.talk.tallies[i].spokenMs == g.talk.tallies[i].spokenMs + Max(0, b.heldAt - since)
            && c.talk.tallies[i].turnsTaken == g.talk.tallies[i].turnsTaken + 1
            && (forall k :: 0 <= k < |g.talk.tallies| && k != i ==> c.talk.tallies[k] == g.talk.tallies[k])
            && |c.talk.buffered| == |g.talk.buffered| + 1 && g.talk.buffered <= c.talk.buffered
            && var turn := c.talk.buffered[|c.talk.buffered| - 1];
               turn.kind == Answer && turn.speaker == Some(u) && turn.text == Text.Strip(text)
               && turn.durationMs == b.heldAt - since
  {
  }

  lemma SpeechLands(ts: Tallies, u: UserId, ms: int, i: nat)
    requires i == IndexOf(ts, u) < |ts|
    ensures var r := WithSpeech(ts, u, ms);
            && |r| == |ts| && IndexOf(r, u) == i
            && r[i] == ts[i].(spokenMs := ts[i].spokenMs + Max(0, ms), turnsTaken := ts[i].turnsTaken + 1)
            && forall k :: 0 <= k < |ts| && k != i ==> r[k] == ts[k]
  {
  }

  lemma FollowUpLands(ts: Tallies, u: UserId, i: nat)
    requires i == IndexOf(ts, u) < |ts|
    ensures var r := WithFollowUp(ts, u);
            && |r| == |ts| && r[i] == ts[i].(followUps := ts[i].followUps + 1)
            && forall k :: 0 <= k < |ts| && k != i ==> r[k] == ts[k]
  {
  }

  /**
   * Two silences spend a turn: after the first the same person is asked and gets the floor back; after the second they
   * have had an empty turn, and either the session is closing or somebody else is called on.
   */
  lemma TwoSilencesSpendATurn(cfg: Settings, s: Runner.State, u: UserId, i: nat, a: Around, words: string, ms: int,
                              b: Around, c: Around)
    requires Aligned(s.talk) && s.talk.status == Active
    requires s.talk.moderatorState == Listening && s.talk.floorHolder == Some(u)
    requires s.nudged != Some(u) || s.refs.nudged != s.refs.floor
    requires i == IndexOf(s.talk.tallies, u) < |s.talk.tallies|
    ensures var checked := Handled(cfg, s, SilenceTimeout(s.talk.turnIndex), a);
            var again := Handled(cfg, checked, ModeratorFinishedSpeaking(Nudge, words, ms), b);
            var spent := Handled(cfg, again, SilenceTimeout(again.talk.turnIndex), c);
            && checked.talk.floorHolder == None && checked.talk.tallies == s.talk.tallies
            && checked.speech == Some(Nudge)
            && again.talk.floorHolder == Some(u) && again.talk.moderatorState == Listening
            && spent.talk.floorHolder == None && spent.talk.silentTurns == s.talk.silentTurns + 1
            && spent.talk.tallies ==
                 s.talk.tallies[i := s.talk.tallies[i].(turnsTaken := s.talk.tallies[i].turnsTaken + 1)]
            && (spent.talk.moderatorState == Closing || (spent.pending.Some? && spent.pending != Some(u)))
  {
    hide Handled, IndexOf;
    FirstSilenceChecks(cfg, s, u, a);
    var checked := Handled(cfg, s, SilenceTimeout(s.talk.turnIndex), a);
    AskingGrants(cfg, checked, u, Nudge, words, ms, b);
    var again := Handled(cfg, checked, ModeratorFinishedSpeaking(Nudge, words, ms), b);
    SecondSilenceSpends(cfg, again, u, i, c) by { hide SelectNextSpeaker; }
  }

  lemma FirstSilenceChecks(cfg: Settings, s: Runner.State, u: UserId, a: Around)
    requires s.talk.moderatorState == Listening && s.talk.floorHolder == Some(u)
    requires s.nudged != Some(u) || s.refs.nudged != s.refs.floor
    ensures var checked := Handled(cfg, s, SilenceTimeout(s.talk.turnIndex), a);
            && checked.talk.floorHolder == None && checked.talk.tallies == s.talk.tallies
            && checked.talk.roster == s.talk.roster && checked.talk.status == s.talk.status
            && checked.talk.silentTurns == s.talk.silentTurns
            && checked.speech == Some(Nudge) && checked.pending == checked.nudged == Some(u)
            && checked.refs.pending == checked.refs.nudged
  {
  }

  lemma SecondSilenceSpends(cfg: Settings, s: Runner.State, u: UserId, i: nat, c: Around)
    requires Aligned(s.talk) && s.talk.status == Active && s.refs.nudged == s.refs.floor
    requires s.talk.moderatorState == Listening && s.talk.floorHolder == Some(u) && s.nudged == Some(u)
    requires i == IndexOf(s.talk.tallies, u) < |s.talk.tallies|
    ensures var spent := Handled(cfg, s, SilenceTimeout(s.talk.turnIndex), c);
            && spent.talk.floorHolder == None && spent.talk.silentTurns == s.talk.silentTurns + 1
            && spent.talk.tallies ==
                 s.talk.tallies[i := s.talk.tallies[i].(turnsTaken := s.talk.tallies[i].turnsTaken + 1)]
            && (spent.talk.moderatorState == Closing || (spent.pending.Some? && spent.pending != Some(u)))
  {
    hide NextAsked, WithSpeech, IndexOf, Distinct;
    var before := SilenceSpent(Released(s), u);
    SpeechLands(s.talk.tallies, u, 0, i);
    NextOnlyDirects(cfg, before, c);
    assert Distinct(before.talk.tallies) by { DistinctLands(s.talk.tallies, u, i); }
    NextIsAnother(cfg, before, u, c);
  }

  /** Of two people connected, one is not u. */
  lemma {:induction false} AnotherIsConnected(ts: Tallies, u: UserId) returns (k: nat)
    requires Distinct(ts) && |Eligible(ts)| >= (if exists i :: 0 <= i < |ts| && ts[i].user == u then 2 else 1)
    ensures k < |ts| && ts[k].connected && ts[k].user != u
  {
    if ts[0].connected && ts[0].user != u {
      k := 0;
    } else {
      var rest := ts[1..];
      assert forall i :: 0 <= i < |rest| ==> rest[i] == ts[i + 1];
      var j := AnotherIsConnected(rest, u);
      k := j + 1;
    }
  }

  lemma DistinctLands(ts: Tallies, u: UserId, i: nat)
    requires Distinct(ts) && i == IndexOf(ts, u) < |ts|
    ensures Distinct(WithSpeech(ts, u, 0))
  {
  }

  lemma NextIsAnother(cfg: Settings, s: Runner.State, u: UserId, a: Around)
    requires Aligned(s.talk) && s.talk.status == Active && s.talk.moderatorState !in {Closing, Reporting}
    requires s.talk.lastSpeaker == Some(u)
    ensures var t := NextAsked(cfg, s, a);
            t.talk.moderatorState == Closing || (t.pending.Some? && t.pending != Some(u))
  {
    hide SelectNextSpeaker, KeyLeq;
    SelectionIsFair(s.talk.tallies, s.talk.lastSpeaker);
    if |Eligible(s.talk.tallies)| >= 2 {
      var k := AnotherIsConnected(s.talk.tallies, u);
      assert Some(s.talk.tallies[k].user) != s.talk.lastSpeaker;
    }
  }
}
