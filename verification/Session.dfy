/** The live discussion aggregate (backend/app/domain/session.py). */
module Session {
  import opened Common
  import opened Ledger

  datatype Connection = Invited | Connected | Disconnected | Removed

  datatype Participant = Participant(user: UserId, name: string, seatNo: nat, connection: Connection)

  datatype SessionStatus = Pending | Connecting | Active | Summarizing | Ended | Aborted

  datatype ModeratorState =
    | Idle | Introducing | ExplainingRules | Questioning | Listening | Evaluating | FollowingUp | Closing | Reporting

  datatype TurnKind = Intro | Rules | Question | FollowUp | Answer | Nudge | ClosingWords

  datatype BufferedTurn = BufferedTurn(
    index: nat, kind: TurnKind, speaker: Option<UserId>, speakerName: string, text: string, durationMs: int)

  /** What a prompt is shown of a turn. */
  datatype TurnRecord = TurnRecord(index: nat, speakerName: string, text: string, isModerator: bool)

  const RECENT_TURNS_KEPT: nat := 4

  /** Participants in roster order, with distinct ids. */
  type Roster = seq<Participant>

  datatype State = State(
    roster: Roster,
    status: SessionStatus,
    moderatorState: ModeratorState,
    floorHolder: Option<UserId>,
    floorGrantedAt: Option<int>,
    lastSpeaker: Option<UserId>,
    turnIndex: nat,
    silentTurns: nat,
    tallies: Tallies,
    recent: seq<TurnRecord>,
    buffered: seq<BufferedTurn>,
    startedAt: Option<int>)

  function Seat(roster: Roster, u: UserId): (i: nat)
    ensures i <= |roster|
    ensures i < |roster| ==> roster[i].user == u
    ensures forall j :: 0 <= j < i ==> roster[j].user != u
  {
    if roster == [] then 0
    else if roster[0].user == u then 0
    else 1 + Seat(roster[1..], u)
  }

  function ConnectedCount(roster: Roster): nat {
    if roster == [] then 0 else (if roster[0].connection == Connected then 1 else 0) + ConnectedCount(roster[1..])
  }

  /** What the count is asked for: whether everybody is connected, whether anybody is, and whether two are. */
  lemma {:induction false} ConnectedCounts(roster: Roster)
    ensures ConnectedCount(roster) <= |roster|
    ensures ConnectedCount(roster) == |roster| <==> forall i :: 0 <= i < |roster| ==> roster[i].connection == Connected
    ensures ConnectedCount(roster) == 0 <==> forall i :: 0 <= i < |roster| ==> roster[i].connection != Connected
    ensures ConnectedCount(roster) < 2 <==>
              forall i, j :: 0 <= i < j < |roster| ==> !(roster[i].connection == Connected == roster[j].connection)
  {
    if roster != [] {
      var rest := roster[1..];
      ConnectedCounts(rest);
      assert forall i :: 1 <= i < |roster| ==> roster[i] == rest[i - 1];
      assert forall i :: 0 <= i < |rest| ==> rest[i] == roster[i + 1];
      if ConnectedCount(roster) >= 2 {
        if roster[0].connection == Connected {
          var j :| 0 <= j < |rest| && rest[j].connection == Connected;
          assert roster[j + 1].connection == Connected;
        } else {
          var i, j :| 0 <= i < j < |rest| && rest[i].connection == Connected == rest[j].connection;
          assert roster[i + 1].connection == Connected == roster[j + 1].connection;
        }
      } else {
        forall i, j | 0 <= i < j < |roster|
          ensures !(roster[i].connection == Connected == roster[j].connection)
        {
          assert roster[j] == rest[j - 1];
          if i > 0 { assert roster[i] == rest[i - 1]; }
        }
      }
    }
  }

  function NameOf(s: State, u: Option<UserId>): string {
    if u == None then "Moderator"
    else
      var i := Seat(s.roster, u.value);
      if i < |s.roster| then s.roster[i].name else "Someone"
  }

  /** Move a participant and their eligibility together. */
  function Marked(s: State, u: UserId, connection: Connection): State {
    var i := Seat(s.roster, u);
    if i == |s.roster| then s
    else s.(roster := s.roster[i := s.roster[i].(connection := connection)],
            tallies := WithConnection(s.tallies, u, connection == Connected))
  }

  /** Seated at bootstrap, and not eligible until they actually connect. */
  function WithParticipant(s: State, u: UserId, name: string, seatNo: nat): State {
    var i := Seat(s.roster, u);
    var p := Participant(u, name, seatNo, Invited);
    s.(roster := if i < |s.roster| then s.roster[i := p] else s.roster + [p],
       tallies := WithConnection(Registered(s.tallies, u, name), u, false))
  }

  predicate IsRemoved(s: State, u: UserId) {
    var i := Seat(s.roster, u);
    i < |s.roster| && s.roster[i].connection == Removed
  }

  function MarkConnected(s: State, u: UserId): State { if IsRemoved(s, u) then s else Marked(s, u, Connected) }

  function MarkDisconnected(s: State, u: UserId): State { if IsRemoved(s, u) then s else Marked(s, u, Disconnected) }

  function MarkRemoved(s: State, u: UserId): State { Marked(s, u, Removed) }

  function ElapsedSeconds(s: State, now: int): int {
    if s.startedAt == None then 0 else TruncDiv(now - s.startedAt.value, 1000)
  }

  lemma SameStartSameElapsed(s: State, t: State, now: int)
    requires s.startedAt == t.startedAt
    ensures ElapsedSeconds(s, now) == ElapsedSeconds(t, now)
  {
  }

  /** Whole seconds since the start, cut off towards zero; none before it. */
  lemma ElapsedExactly(s: State, now: int, limit: nat)
    ensures ElapsedSeconds(s, now) <= limit <==> s.startedAt == None || now - s.startedAt.value < (limit + 1) * 1000
    ensures ElapsedSeconds(s, now) >= limit <==>
              if s.startedAt == None then limit == 0
              else now - s.startedAt.value >= if limit == 0 then -999 else limit * 1000
  {
  }

  function FloorHeldMs(s: State, now: int): int {
    if s.floorGrantedAt == None then 0 else now - s.floorGrantedAt.value
  }

  function AsRecord(t: BufferedTurn): TurnRecord {
    TurnRecord(t.index, t.speakerName, t.text, t.speaker == None)
  }

  function LastRecords(turns: seq<BufferedTurn>): seq<TurnRecord> {
    var from := if |turns| <= RECENT_TURNS_KEPT then 0 else |turns| - RECENT_TURNS_KEPT;
    seq(|turns| - from, i requires 0 <= i < |turns| - from => AsRecord(turns[from + i]))
  }

  /** Appending to a deque that keeps the last few. */
  function Push(recent: seq<TurnRecord>, r: TurnRecord): seq<TurnRecord> {
    if |recent| < RECENT_TURNS_KEPT then recent + [r] else recent[|recent| + 1 - RECENT_TURNS_KEPT..] + [r]
  }

  lemma PushExactly(recent: seq<TurnRecord>, r: TurnRecord)
    requires |recent| <= 4
    ensures |Push(recent, r)| == Min(4, |recent| + 1)
    ensures Push(recent, r) == recent[|recent| + 1 - |Push(recent, r)|..] + [r]
  {
  }

  function TurnFor(s: State, kind: TurnKind, text: string, speaker: Option<UserId>, durationMs: int): BufferedTurn {
    BufferedTurn(s.turnIndex + 1, kind, speaker, NameOf(s, speaker), text, durationMs)
  }

  function RecordTurn(s: State, kind: TurnKind, text: string, speaker: Option<UserId>, durationMs: int): State {
    var turn := TurnFor(s, kind, text, speaker, durationMs);
    s.(turnIndex := s.turnIndex + 1, buffered := s.buffered + [turn], recent := Push(s.recent, AsRecord(turn)))
  }

  /** A turn gets the next number and its speaker's name; the transcript and the window of what is shown grow by it. */
  lemma RecordingExactly(s: State, kind: TurnKind, text: string, speaker: Option<UserId>, durationMs: int)
    ensures var t, turn := RecordTurn(s, kind, text, speaker, durationMs), TurnFor(s, kind, text, speaker, durationMs);
            && turn == BufferedTurn(s.turnIndex + 1, kind, speaker, turn.speakerName, text, durationMs)
            && (speaker == None ==> turn.speakerName == "Moderator")
            && (speaker.Some? ==>
                  var i := Seat(s.roster, speaker.value);
                  turn.speakerName == if i < |s.roster| then s.roster[i].name else "Someone")
            && t == s.(turnIndex := turn.index, buffered := s.buffered + [turn], recent := t.recent)
            && (|s.recent| <= 4 ==>
                  && |t.recent| == Min(4, |s.recent| + 1)
                  && t.recent == s.recent[|s.recent| + 1 - |t.recent|..]
                                 + [TurnRecord(turn.index, turn.speakerName, text, speaker == None)])
  {
    hide Push;
    var turn := TurnFor(s, kind, text, speaker, durationMs);
    if |s.recent| <= 4 { PushExactly(s.recent, AsRecord(turn)); }
  }

  /** A newcomer takes a place on the roster and in the ledger, invited and not yet eligible; nobody else is touched. */
  lemma AddingExactly(s: State, u: UserId, name: string, seatNo: nat)
    ensures var t, i, j := WithParticipant(s, u, name, seatNo), Seat(s.roster, u), IndexOf(s.tallies, u);
            && t == s.(roster := t.roster, tallies := t.tallies)
            && t.roster == (if i < |s.roster| then s.roster[i := Participant(u, name, seatNo, Invited)]
                            else s.roster + [Participant(u, name, seatNo, Invited)])
            && t.tallies == (if j < |s.tallies| then s.tallies[j := s.tallies[j].(connected := false)]
                             else s.tallies + [Tally(u, name, 0, 0, 0, false)])
  {
    var j := IndexOf(s.tallies, u);
    var r := Registered(s.tallies, u, name);
    AppendedIsFound(s.tallies, Tally(u, name, 0, 0, 0, true));
  }

  lemma {:induction false} AppendedIsFound(ts: Tallies, t: Tally)
    ensures IndexOf(ts, t.user) == |ts| ==> IndexOf(ts + [t], t.user) == |ts|
  {
    if ts != [] {
      AppendedIsFound(ts[1..], t);
      assert (ts + [t])[1..] == ts[1..] + [t];
    }
  }

  function Wiped(s: State): State {
    s.(roster := [], tallies := [], recent := [], buffered := [], floorHolder := None)
  }

  /** Turn numbers are 1, 2, 3, ... with none missing, and the window shown to prompts is always the latest turns. */
  ghost predicate WellKept(s: State) {
    && |s.buffered| == s.turnIndex
    && (forall i :: 0 <= i < |s.buffered| ==> s.buffered[i].index == i + 1)
    && s.recent == LastRecords(s.buffered)
  }

  lemma RecordTurnKeepsBooks(s: State, kind: TurnKind, text: string, speaker: Option<UserId>, durationMs: int)
    requires WellKept(s)
    ensures WellKept(RecordTurn(s, kind, text, speaker, durationMs))
  {
  }

  /** Whoever is at the seat of `u` has this connection, and nobody else is touched. */
  ghost predicate Moves(before: Roster, after: Roster, u: UserId, connection: Connection) {
    && |after| == |before|
    && forall i :: 0 <= i < |before| ==>
         after[i] == if i == Seat(before, u) then before[i].(connection := connection) else before[i]
  }

  class DiscussionSession {
    var roster: Roster
    var status: SessionStatus
    var moderatorState: ModeratorState
    var floorHolder: Option<UserId>
    var floorGrantedAt: Option<int>
    var lastSpeaker: Option<UserId>
    var turnIndex: nat
    var silentTurns: nat
    var recent: seq<TurnRecord>
    var buffered: seq<BufferedTurn>
    var startedAt: Option<int>
    const ledger: SpeakingTimeLedger

    ghost function View(): State
      reads this, ledger
    {
      State(roster, status, moderatorState, floorHolder, floorGrantedAt, lastSpeaker, turnIndex, silentTurns,
            ledger.tallies, recent, buffered, startedAt)
    }

    constructor ()
      ensures View() == EMPTY && fresh(ledger)
    {
      roster, status, moderatorState := [], Pending, Idle;
      floorHolder, floorGrantedAt, lastSpeaker, startedAt := None, None, None, None;
      turnIndex, silentTurns, recent, buffered := 0, 0, [], [];
      ledger := new SpeakingTimeLedger();
    }

    method AddParticipant(u: UserId, name: string, seatNo: nat)
      modifies this, ledger
      ensures View() == WithParticipant(old(View()), u, name, seatNo)
    {
      var i := Seat(roster, u);
      var p := Participant(u, name, seatNo, Invited);
      roster := if i < |roster| then roster[i := p] else roster + [p];
      ledger.Register(u, name);
      ledger.SetConnected(u, false);
    }

    method NoteConnected(u: UserId)
      modifies this`roster, ledger
      ensures View() == MarkConnected(old(View()), u)
      ensures Moves(old(roster), roster, u, if IsRemoved(old(View()), u) then Removed else Connected)
    {
      var i := Seat(roster, u);
      if i == |roster| || roster[i].connection == Removed { return; }
      roster := roster[i := roster[i].(connection := Connected)];
      ledger.SetConnected(u, true);
    }

    method NoteDisconnected(u: UserId)
      modifies this`roster, ledger
      ensures View() == MarkDisconnected(old(View()), u)
      ensures Moves(old(roster), roster, u, if IsRemoved(old(View()), u) then Removed else Disconnected)
    {
      var i := Seat(roster, u);
      if i == |roster| || roster[i].connection == Removed { return; }
      roster := roster[i := roster[i].(connection := Disconnected)];
      ledger.SetConnected(u, false);
    }

    method NoteRemoved(u: UserId)
      modifies this`roster, ledger
      ensures View() == MarkRemoved(old(View()), u)
      ensures Moves(old(roster), roster, u, Removed)
    {
      var i := Seat(roster, u);
      if i == |roster| { return; }
      roster := roster[i := roster[i].(connection := Removed)];
      ledger.SetConnected(u, false);
    }

    method Record(kind: TurnKind, text: string, speaker: Option<UserId>, durationMs: int) returns (turn: BufferedTurn)
      modifies this`turnIndex, this`buffered, this`recent
      ensures View() == RecordTurn(old(View()), kind, text, speaker, durationMs)
      ensures turn == TurnFor(old(View()), kind, text, speaker, durationMs)
    {
      hide Seat, Push;
      var name := "Moderator";
      if speaker.Some? {
        var i := Seat(roster, speaker.value);
        name := if i < |roster| then roster[i].name else "Someone";
      }
      turnIndex := turnIndex + 1;
      turn := BufferedTurn(turnIndex, kind, speaker, name, text, durationMs);
      buffered := buffered + [turn];
      recent := Push(recent, AsRecord(turn));
    }

    method Wipe()
      modifies this, ledger
      ensures View() == Wiped(old(View()))
      ensures roster == [] && recent == [] && buffered == [] && ledger.tallies == [] && floorHolder == None
    {
      recent, buffered, roster, floorHolder := [], [], [], None;
      ledger.tallies := [];
    }
  }

  const EMPTY: State := State([], Pending, Idle, None, None, None, 0, 0, [], [], [], None)
}
