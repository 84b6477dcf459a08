/** What every request, sweep and late write keeps, over any serial history. */
module EnrollmentSafety {
  import opened Common
  import opened Records
  import opened Invitations
  import opened Rooms
  import opened Discussions
  import opened Enrollment

  // ------------------------------------------------------------------ what is kept

  /** Of each person in each classroom: as many seats as acceptances, and at most one invitation open or accepted. */
  ghost predicate Matched(db: Db, room: nat, u: UserId) {
    && Count(db.seats, SeatOf(room, u)) == Count(db.invitations, AcceptedFor(room, u))
    && Count(db.invitations, HeldFor(room, u)) <= 1
  }

  /** Seat numbers are 1 to 4 and no two people in a classroom share one. */
  ghost predicate Numbered(db: Db, room: nat, n: nat) {
    Count(db.seats, SeatAt(room, n)) <= if 1 <= n <= SEATS then 1 else 0
  }

  /** Nobody holds a place in two discussions. */
  ghost predicate OnePlace(db: Db, u: UserId) { Count(db.places, Sitting(u)) <= 1 }

  /** A discussion that is over holds nobody. */
  ghost predicate Freed(db: Db, session: nat) {
    session < |db.sessions| && Terminal(db.sessions[session].status) ==> Count(db.places, SittingIn(session)) == 0
  }

  /** Whoever has a place in a discussion has a seat in its classroom, and has only that one place there. */
  ghost predicate FromSeats(db: Db, session: nat, u: UserId) {
    Count(db.places, PlaceOf(session, u)) <=
      if session < |db.sessions| then Count(db.seats, SeatOf(db.sessions[session].room, u)) else 0
  }

  ghost predicate OneSession(db: Db, room: nat) { Count(db.sessions, SessionOf(room)) <= 1 }

  ghost predicate Sound(db: Db) {
    && (forall room, u :: Matched(db, room, u))
    && (forall room, n :: Numbered(db, room, n))
    && (forall u :: OnePlace(db, u))
    && (forall session :: Freed(db, session))
    && (forall session, u :: FromSeats(db, session, u))
    && (forall room :: OneSession(db, room))
  }

  // ------------------------------------------------------------------ invitations

  lemma {:induction false} AcceptedIsHeld(invitations: seq<Invitation>, room: nat, u: UserId)
    ensures Count(invitations, HeldFor(room, u)) ==
            Count(invitations, AcceptedFor(room, u)) + Count(invitations, PendingFor(room, u))
    decreases |invitations|
  {
    if invitations != [] { AcceptedIsHeld(invitations[..|invitations| - 1], room, u); }
  }

  /** Issuing accepts nothing, and opens nothing for anyone who holds an open or accepted invitation. */
  lemma {:induction false} IssuingMatches(invitations: seq<Invitation>, room: nat, people: seq<Invitee>, expiresAt: int,
                                          r: nat, u: UserId)
    requires forall k :: 0 <= k < |people| ==> Count(invitations, AcceptedFor(room, people[k].user)) == 0
    requires Count(invitations, HeldFor(r, u)) <= 1
    ensures var t := Issued(invitations, room, people, expiresAt);
            && Count(t, AcceptedFor(r, u)) == Count(invitations, AcceptedFor(r, u))
            && Count(t, HeldFor(r, u)) <= 1
    decreases |people|
  {
    if people != [] {
      var last := |people| - 1;
      var before := Issued(invitations, room, people[..last], expiresAt);
      var p := people[last];
      IssuingMatches(invitations, room, people[..last], expiresAt, r, u);
      var t := IssuedOne(before, room, p, expiresAt);
      if t != before {
        CountAppend(before, t[|before|], AcceptedFor(r, u));
        CountAppend(before, t[|before|], HeldFor(r, u));
        CountZero(before, PendingFor(room, p.user));
        AcceptedIsHeld(before, r, u);
        assert r == room && u == p.user ==> Count(before, HeldFor(r, u)) == 0;
      }
    }
  }

  lemma {:induction false} WantedAreFree(invitations: seq<Invitation>, room: nat, people: seq<Invitee>)
    ensures var w := StillWanted(invitations, room, people);
            |w| <= |people| && forall k :: 0 <= k < |w| ==> Count(invitations, AcceptedFor(room, w[k].user)) == 0
    decreases |people|
  {
    if people != [] {
      WantedAreFree(invitations, room, people[..|people| - 1]);
      CountZero(invitations, AcceptedFor(room, people[|people| - 1].user));
    }
  }

  /** Only the invitations change, and for each person in each classroom as the rows demand. */
  lemma InvitationsMayChange(db: Db, t: Db)
    requires Sound(db) && t == db.(invitations := t.invitations, classrooms := t.classrooms)
    requires forall room, u :: Matched(t, room, u)
    ensures Sound(t)
  {
    forall room, n ensures Numbered(t, room, n) { assert Numbered(db, room, n); }
    forall u ensures OnePlace(t, u) { assert OnePlace(db, u); }
    forall session: nat ensures Freed(t, session) { assert Freed(db, session); }
    forall session: nat, u ensures FromSeats(t, session, u) { assert FromSeats(db, session, u); }
    forall room ensures OneSession(t, room) { assert OneSession(db, room); }
  }

  lemma InvitingKeeps(db: Db, dir: Directory, room: nat, emails: seq<string>, expiresAt: int)
    requires Sound(db) && Invited(db, dir, room, emails, expiresAt).Ok?
    ensures Sound(Invited(db, dir, room, emails, expiresAt).value)
  {
    hide Sound, Count, Issued, StillWanted, Resolved;
    var people := Resolved(dir, emails).value;
    var t := Invited(db, dir, room, emails, expiresAt).value;
    WantedAreFree(db.invitations, room, people);
    forall r, u
      ensures Matched(t, r, u)
    {
      SoundMatches(db, r, u);
      IssuingMatches(db.invitations, room, StillWanted(db.invitations, room, people), expiresAt, r, u);
    }
    InvitationsMayChange(db, t);
  }

  lemma SoundMatches(db: Db, room: nat, u: UserId)
    requires Sound(db)
    ensures Matched(db, room, u)
  {
  }

  /** Closing invitations that were still open. */
  lemma ClosingKeeps(db: Db, t: Db)
    requires Sound(db) && t == db.(invitations := t.invitations, classrooms := t.classrooms)
    requires |t.invitations| == |db.invitations|
    requires forall i :: 0 <= i < |db.invitations| ==>
               || t.invitations[i] == db.invitations[i]
               || (db.invitations[i].status !in {Accepted} && t.invitations[i].status !in {Accepted, Pending})
    ensures Sound(t)
  {
    forall room, u
      ensures Matched(t, room, u)
    {
      SoundMatches(db, room, u);
      CountSame(db.invitations, t.invitations, AcceptedFor(room, u), AcceptedFor(room, u));
      CountLeq(db.invitations, t.invitations, HeldFor(room, u), HeldFor(room, u));
    }
    InvitationsMayChange(db, t);
  }

  // ------------------------------------------------------------------ seats

  /** An open invitation becomes an acceptance and a seat in the same stroke. */
  lemma AcceptingKeeps(db: Db, i: nat, seats: seq<Seat>)
    requires Sound(db) && i < |db.invitations| && db.invitations[i].status == Pending
    requires Seated(db.seats, db.invitations[i].room, db.invitations[i].user) == Ok(seats)
    ensures Sound(db.(invitations := Marked(db.invitations, i, Accepted), seats := seats))
  {
    var inv := db.invitations[i];
    var t := db.(invitations := Marked(db.invitations, i, Accepted), seats := seats);
    SoundMatches(db, inv.room, inv.user);
    CountZero(db.invitations, HeldFor(inv.room, inv.user));
    AcceptedIsHeld(db.invitations, inv.room, inv.user);
    CountZero(db.invitations, PendingFor(inv.room, inv.user));
    CountZero(db.seats, SeatOf(inv.room, inv.user));
    var n := NextFreeSeat(db.seats, inv.room);
    assert n.Some? && seats == db.seats + [Seat(inv.room, inv.user, n.value)];
    hide Count, Seated, NextFreeSeat;
    SeatAdded(db, t, Seat(inv.room, inv.user, n.value), i);
  }

  lemma SeatAdded(db: Db, t: Db, seat: Seat, i: nat)
    requires Sound(db) && i < |db.invitations| && db.invitations[i].status == Pending
    requires seat.room == db.invitations[i].room && seat.user == db.invitations[i].user
    requires 1 <= seat.seatNo <= SEATS && Count(db.seats, SeatAt(seat.room, seat.seatNo)) == 0
    requires t == db.(invitations := Marked(db.invitations, i, Accepted), seats := db.seats + [seat])
    ensures Sound(t)
  {
    hide Count;
    forall room, u
      ensures Matched(t, room, u)
    {
      SoundMatches(db, room, u);
      CountUpdate(db.invitations, i, t.invitations[i], AcceptedFor(room, u));
      CountUpdate(db.invitations, i, t.invitations[i], HeldFor(room, u));
      CountAppend(db.seats, seat, SeatOf(room, u));
    }
    forall room, n
      ensures Numbered(t, room, n)
    {
      assert Numbered(db, room, n);
      CountAppend(db.seats, seat, SeatAt(room, n));
    }
    forall u ensures OnePlace(t, u) { assert OnePlace(db, u); }
    forall session: nat ensures Freed(t, session) { assert Freed(db, session); }
    forall session: nat, u
      ensures FromSeats(t, session, u)
    {
      assert FromSeats(db, session, u);
      if session < |db.sessions| { CountAppend(db.seats, seat, SeatOf(db.sessions[session].room, u)); }
    }
    forall room ensures OneSession(t, room) { assert OneSession(db, room); }
  }

  // ------------------------------------------------------------------ places

  lemma RosterCounts(seats: seq<Seat>, room: nat, u: UserId, session: nat)
    ensures Count(PlacesFor(session, Roster(seats, room)), Sitting(u)) == Count(seats, SeatOf(room, u))
    ensures Count(PlacesFor(session, Roster(seats, room)), PlaceOf(session, u)) == Count(seats, SeatOf(room, u))
  {
    var roster := Roster(seats, room);
    var places := PlacesFor(session, roster);
    SelectIs(seats, SeatIn(room));
    CountSelected(seats, SeatIn(room), SeatOf(room, u));
    CountSame(roster, places, SeatOf(room, u), Sitting(u));
    CountSame(roster, places, SeatOf(room, u), PlaceOf(session, u));
  }

  lemma NobodyElses(places: seq<Place>, query: Place -> bool)
    requires forall i :: 0 <= i < |places| ==> !query(places[i])
    ensures Count(places, query) == 0
  {
    CountZero(places, query);
  }

  lemma ProvisioningKeeps(db: Db, room: nat)
    requires Sound(db) && Provisioned(db, room).Ok?
    ensures Sound(Provisioned(db, room).value)
  {
    var t := Provisioned(db, room).value;
    if t != db { NewSession(db, room, t); }
  }

  lemma NewSession(db: Db, room: nat, t: Db)
    requires Sound(db) && Find(db.sessions, SessionOf(room)) == |db.sessions|
        && !Busy(db.places, Roster(db.seats, room))
    requires t == db.(sessions := db.sessions + [SessionRow(room, Awaiting)],
                      places := db.places + PlacesFor(|db.sessions|, Roster(db.seats, room)))
    ensures Sound(t)
  {
    var s, roster := |db.sessions|, Roster(db.seats, room);
    var extra := PlacesFor(s, roster);
    forall r, u ensures Matched(t, r, u) { SoundMatches(db, r, u); }
    forall r, n ensures Numbered(t, r, n) { assert Numbered(db, r, n); }
    forall u
      ensures OnePlace(t, u)
    {
      assert OnePlace(db, u);
      RosterCounts(db.seats, room, u, s);
      CountConcat(db.places, extra, Sitting(u));
      if Count(db.seats, SeatOf(room, u)) > 0 { OnRosterIsFree(db, room, u); }
      SoundMatches(db, room, u);
      AcceptedIsHeld(db.invitations, room, u);
    }
    forall session: nat
      ensures Freed(t, session)
    {
      if session < s {
        assert Freed(db, session);
        CountConcat(db.places, extra, SittingIn(session));
        NobodyElses(extra, SittingIn(session));
      }
    }
    forall session: nat, u
      ensures FromSeats(t, session, u)
    {
      assert FromSeats(db, session, u);
      CountConcat(db.places, extra, PlaceOf(session, u));
      if session == s { RosterCounts(db.seats, room, u, s); } else { NobodyElses(extra, PlaceOf(session, u)); }
    }
    forall r
      ensures OneSession(t, r)
    {
      assert OneSession(db, r);
      CountAppend(db.sessions, SessionRow(room, Awaiting), SessionOf(r));
      CountZero(db.sessions, SessionOf(room));
    }
  }

  lemma OnRosterIsFree(db: Db, room: nat, u: UserId)
    requires !Busy(db.places, Roster(db.seats, room)) && Count(db.seats, SeatOf(room, u)) > 0
    ensures Count(db.places, Sitting(u)) == 0
  {
    var roster := Roster(db.seats, room);
    CountSelected(db.seats, SeatIn(room), SeatOf(room, u));
    CountZero(roster, SeatOf(room, u));
    var k :| 0 <= k < |roster| && SeatOf(room, u)(roster[k]);
    assert roster[k].user == u;
  }

  /** Giving places back, and moving a session's status with them. */
  lemma LeavingKeeps(db: Db, t: Db)
    requires Sound(db) && t == db.(sessions := t.sessions, places := t.places)
    requires |t.sessions| == |db.sessions| && |t.places| == |db.places|
    requires forall i :: 0 <= i < |db.sessions| ==> t.sessions[i].room == db.sessions[i].room
    requires forall i :: 0 <= i < |db.places| ==> t.places[i] == db.places[i] || t.places[i] == Leave(db.places[i])
    requires forall s ::
               0 <= s < |db.sessions| && Terminal(t.sessions[s].status) && !Terminal(db.sessions[s].status) ==>
               forall i :: 0 <= i < |t.places| && t.places[i].session == s ==> t.places[i].left
    ensures Sound(t)
  {
    forall r, u ensures Matched(t, r, u) { SoundMatches(db, r, u); }
    forall r, n ensures Numbered(t, r, n) { assert Numbered(db, r, n); }
    forall u
      ensures OnePlace(t, u)
    {
      assert OnePlace(db, u);
      CountLeq(db.places, t.places, Sitting(u), Sitting(u));
    }
    forall s: nat
      ensures Freed(t, s)
    {
      if s < |db.sessions| && Terminal(t.sessions[s].status) {
        assert Freed(db, s);
        if Terminal(db.sessions[s].status) { CountLeq(db.places, t.places, SittingIn(s), SittingIn(s)); }
        else { NobodyElses(t.places, SittingIn(s)); }
      }
    }
    forall s: nat, u
      ensures FromSeats(t, s, u)
    {
      assert FromSeats(db, s, u);
      CountSame(db.places, t.places, PlaceOf(s, u), PlaceOf(s, u));
    }
    forall r
      ensures OneSession(t, r)
    {
      assert OneSession(db, r);
      CountSame(db.sessions, t.sessions, SessionOf(r), SessionOf(r));
    }
  }

  // ------------------------------------------------------------------ requests

  lemma CreatingKeeps(db: Db, dir: Directory, host: Account, emails: seq<string>, allowed: bool, expiresAt: int)
    requires Sound(db) && Created(db, dir, host, emails, allowed, expiresAt).Ok?
    ensures Sound(Created(db, dir, host, emails, allowed, expiresAt).value)
  {
    hide Sound, Cleaned, Invited;
    var cleaned := Cleaned(emails, host.email).value;
    var drafted := db.(classrooms := db.classrooms + [Classroom(host.user, Draft)]);
    assert Sound(drafted) by { RoomsMayChange(db, drafted); }
    InvitingKeeps(drafted, dir, |db.classrooms|, cleaned, expiresAt);
    var t := Invited(drafted, dir, |db.classrooms|, cleaned, expiresAt).value;
    RoomsMayChange(t, Created(db, dir, host, emails, allowed, expiresAt).value);
  }

  lemma RoomsMayChange(db: Db, t: Db)
    requires Sound(db) && t == db.(classrooms := t.classrooms)
    ensures Sound(t)
  {
    forall room, u ensures Matched(t, room, u) { SoundMatches(db, room, u); }
    InvitationsMayChange(db, t);
  }

  lemma ResendingKeeps(db: Db, dir: Directory, room: nat, host: UserId, i: nat, expiresAt: int)
    requires Sound(db) && Resent(db, dir, room, host, i, expiresAt).Ok?
    ensures Sound(Resent(db, dir, room, host, i, expiresAt).value)
  {
    hide Sound, Invited;
    var revoked := db.(invitations := Marked(db.invitations, i, Revoked));
    ClosingKeeps(db, revoked);
    InvitingKeeps(revoked, dir, room, [db.invitations[i].email], expiresAt);
  }

  lemma QuorumKeeps(db: Db, room: nat)
    requires Sound(db) && room < |db.classrooms| && QuorumChecked(db, room).Ok?
    ensures Sound(QuorumChecked(db, room).value)
  {
    hide Sound, Provisioned, Count;
    var t := QuorumChecked(db, room).value;
    if t != db {
      var s := NextStatus(db.classrooms[room].status, QuorumReached).value;
      var closed := db.(classrooms := WithStatus(db.classrooms, room, s),
                        invitations := RevokedAll(db.invitations, room));
      ClosingKeeps(db, closed);
      ProvisioningKeeps(closed, room);
    }
  }

  lemma RespondingKeeps(db: Db, i: nat, u: UserId, accept: bool, now: int)
    requires Sound(db) && Responded(db, i, u, accept, now).Ok?
    ensures Sound(Responded(db, i, u, accept, now).value)
  {
    hide Sound, QuorumChecked, Seated;
    var inv := db.invitations[i];
    if !accept {
      ClosingKeeps(db, Responded(db, i, u, accept, now).value);
    } else {
      var seats := Seated(db.seats, inv.room, u).value;
      AcceptingKeeps(db, i, seats);
      QuorumKeeps(db.(invitations := Marked(db.invitations, i, Accepted), seats := seats), inv.room);
    }
  }

  lemma StartingKeeps(db: Db, room: nat, host: UserId)
    requires Sound(db) && StartedDb(db, room, host).Ok?
    ensures Sound(StartedDb(db, room, host).value)
  {
    hide Sound, Provisioned, Count;
    var drafted := Opening(db, room).value;
    if drafted != db {
      var closed := Advanced(db.(invitations := RevokedAll(db.invitations, room)), room, QuorumReached);
      ClosingKeeps(db, closed);
      ProvisioningKeeps(closed, room);
    }
    RoomsMayChange(drafted, StartedDb(db, room, host).value);
  }

  lemma CancellingKeeps(db: Db, room: nat, host: UserId)
    requires Sound(db) && CancelledDb(db, room, host).Ok?
    ensures Sound(CancelledDb(db, room, host).value)
  {
    hide Sound, AbortedDb;
    var s := NextStatus(db.classrooms[room].status, CancelledByHost).value;
    var t := db.(classrooms := WithStatus(db.classrooms, room, s), invitations := RevokedAll(db.invitations, room));
    ClosingKeeps(db, t);
    AbortingKeeps(t, Find(t.sessions, SessionOf(room)));
  }

  lemma AbortingKeeps(db: Db, session: nat)
    requires Sound(db)
    ensures Sound(AbortedDb(db, session))
  {
    hide Sound;
    LeavingKeeps(db, AbortedDb(db, session));
  }

  // ------------------------------------------------------------------ whole histories

  datatype Request =
    | Create(dir: Directory, host: Account, emails: seq<string>, allowed: bool, expiresAt: int)
    | InviteMore(dir: Directory, room: nat, host: Account, emails: seq<string>, expiresAt: int)
    | Resend(dir: Directory, room: nat, hostId: UserId, invitation: nat, expiresAt: int)
    | Respond(invitation: nat, user: UserId, accept: bool, now: int)
    | Start(room: nat, hostId: UserId)
    | Cancel(room: nat, hostId: UserId)
    | ExpireInvitations(batch: set<nat>, now: int)
    | ExpireClassrooms(batch: set<nat>)
    | MarkStatus(session: nat, status: SessionStatus)
    | FlushTranscript(session: nat, users: seq<UserId>)
    | CompleteClassroom(session: nat, aborted: bool)
    | AbortSession(session: nat)

  function Handled(db: Db, r: Request): Result<Db> {
    match r
    case Create(dir, host, emails, allowed, expiresAt) => Created(db, dir, host, emails, allowed, expiresAt)
    case InviteMore(dir, room, host, emails, expiresAt) => InvitedMore(db, dir, room, host, emails, expiresAt)
    case Resend(dir, room, host, i, expiresAt) => Resent(db, dir, room, host, i, expiresAt)
    case Respond(i, u, accept, now) => Responded(db, i, u, accept, now)
    case Start(room, host) => StartedDb(db, room, host)
    case Cancel(room, host) => CancelledDb(db, room, host)
    case ExpireInvitations(batch, now) => Ok(db.(invitations := Overdue(db.invitations, batch, now)))
    case ExpireClassrooms(batch) => Ok(db.(classrooms := RoomsExpired(db.classrooms, batch)))
    case MarkStatus(session, s) => Ok(StatusMarked(db, session, s))
    case FlushTranscript(session, users) => Ok(db.(places := LeftEach(db.places, session, users)))
    case CompleteClassroom(session, aborted) => Ok(RoomCompleted(db, session, aborted))
    case AbortSession(session) => Ok(AbortedDb(db, session))
  }

  /** A request that raises changes nothing. */
  function Committed(db: Db, r: Request): Db {
    match Handled(db, r)
    case Ok(t) => t
    case Err(_) => db
  }

  function History(db: Db, requests: seq<Request>): Db
    decreases |requests|
  {
    if requests == [] then db else History(Committed(db, requests[0]), requests[1..])
  }

  const EMPTY: Db := Db([], [], [], [], [])

  lemma {:induction false} LeavingEach(places: seq<Place>, session: nat, users: seq<UserId>)
    ensures var t := LeftEach(places, session, users);
            |t| == |places| && forall i :: 0 <= i < |t| ==> t[i] == places[i] || t[i] == Leave(places[i])
    decreases |users|
  {
    if users != [] { LeavingEach(places, session, users[..|users| - 1]); }
  }

  lemma CommittingKeeps(db: Db, r: Request)
    requires Sound(db)
    ensures Sound(Committed(db, r))
  {
    hide Sound, Created, Invited, Resent, Responded, StartedDb, CancelledDb, AbortedDb, LeftEach, Cleaned;
    var t := Committed(db, r);
    if Handled(db, r).Ok? {
      match r
      case Create(dir, host, emails, allowed, expiresAt) => CreatingKeeps(db, dir, host, emails, allowed, expiresAt);
      case InviteMore(dir, room, host, emails, expiresAt) =>
        InvitingKeeps(db, dir, room, Cleaned(emails, host.email).value, expiresAt);
      case Resend(dir, room, host, i, expiresAt) => ResendingKeeps(db, dir, room, host, i, expiresAt);
      case Respond(i, u, accept, now) => RespondingKeeps(db, i, u, accept, now);
      case Start(room, host) => StartingKeeps(db, room, host);
      case Cancel(room, host) => CancellingKeeps(db, room, host);
      case ExpireInvitations(batch, now) => ClosingKeeps(db, t);
      case ExpireClassrooms(_) => RoomsMayChange(db, t);
      case MarkStatus(session, s) => LeavingKeeps(db, t);
      case FlushTranscript(session, users) => LeavingEach(db.places, session, users); LeavingKeeps(db, t);
      case CompleteClassroom(_, _) => RoomsMayChange(db, t);
      case AbortSession(session) => AbortingKeeps(db, session);
    }
  }

  lemma {:induction false} HistoryKeeps(db: Db, requests: seq<Request>)
    requires Sound(db)
    ensures Sound(History(db, requests))
    decreases |requests|
  {
    hide Sound, Committed;
    if requests != [] {
      CommittingKeeps(db, requests[0]);
      HistoryKeeps(Committed(db, requests[0]), requests[1..]);
    }
  }

  /**
   * After any serial history of requests, sweeps and writes by the runner: in every classroom each person has exactly
   * as many seats as acceptances, so seats and acceptances pair off, and never more than one invitation open or
   * accepted; seat numbers are 1 to 4 and distinct; nobody holds a place in two discussions, a finished discussion
   * holds nobody, and places are only ever held by people seated in that discussion's classroom.
   */
  lemma EveryHistoryIsSound(requests: seq<Request>)
    ensures Sound(History(EMPTY, requests))
  {
    hide Sound;
    NothingIsSound();
    HistoryKeeps(EMPTY, requests);
  }

  lemma NothingIsSound()
    ensures Sound(EMPTY)
  {
  }

  // ------------------------------------------------------------------ how many

  lemma {:induction false} SeatsByNumber(seats: seq<Seat>, room: nat)
    requires forall i :: 0 <= i < |seats| && seats[i].room == room ==> 1 <= seats[i].seatNo <= SEATS
    ensures Count(seats, SeatIn(room)) ==
            Count(seats, SeatAt(room, 1)) + Count(seats, SeatAt(room, 2))
            + Count(seats, SeatAt(room, 3)) + Count(seats, SeatAt(room, 4))
    decreases |seats|
  {
    if seats != [] { SeatsByNumber(seats[..|seats| - 1], room); }
  }

  /** A classroom never seats more than four, whatever was invited. */
  lemma NeverMoreThanFour(db: Db, room: nat)
    requires Sound(db)
    ensures Count(db.seats, SeatIn(room)) <= SEATS
  {
    forall i | 0 <= i < |db.seats| && db.seats[i].room == room
      ensures 1 <= db.seats[i].seatNo <= SEATS
    {
      assert Numbered(db, room, db.seats[i].seatNo);
      CountZero(db.seats, SeatAt(room, db.seats[i].seatNo));
    }
    SeatsByNumber(db.seats, room);
    assert Numbered(db, room, 1) && Numbered(db, room, 2) && Numbered(db, room, 3) && Numbered(db, room, 4);
  }

  lemma {:induction false} IssuingHolds(invitations: seq<Invitation>, room: nat, people: seq<Invitee>, expiresAt: int,
                                        r: nat)
    ensures var t := Issued(invitations, room, people, expiresAt);
            && |t| >= |invitations|
            && Count(t, HeldIn(r)) == Count(invitations, HeldIn(r)) + (if r == room then |t| - |invitations| else 0)
            && |t| - |invitations| <= |people|
    decreases |people|
  {
    if people != [] {
      var last := |people| - 1;
      IssuingHolds(invitations, room, people[..last], expiresAt, r);
      var before := Issued(invitations, room, people[..last], expiresAt);
      var t := IssuedOne(before, room, people[last], expiresAt);
      if t != before { CountAppend(before, t[|before|], HeldIn(r)); }
    }
  }

  /**
   * A re-sent invitation takes over the seat of the one it closes; but one that had already expired held no seat, so
   * re-sending it holds one more, and nothing checks that it is free.
   */
  lemma ResendingHolds(db: Db, dir: Directory, room: nat, host: UserId, i: nat, expiresAt: int)
    requires Resent(db, dir, room, host, i, expiresAt).Ok?
    ensures var t := Resent(db, dir, room, host, i, expiresAt).value;
            Count(t.invitations, HeldIn(room)) ==
            Count(db.invitations, HeldIn(room)) + (if db.invitations[i].status == Pending then 0 else 1)
  {
    hide Count, Issued, Resolved, StillWanted;
    var email := db.invitations[i].email;
    var revoked := db.(invitations := Marked(db.invitations, i, Revoked));
    CountUpdate(db.invitations, i, revoked.invitations[i], HeldIn(room));
    var people := Resolved(dir, [email]).value;
    OneResolved(dir, email);
    WantedAreFree(revoked.invitations, room, people);
    IssuingHolds(revoked.invitations, room, StillWanted(revoked.invitations, room, people), expiresAt, room);
  }

  lemma OneResolved(dir: Directory, email: string)
    ensures Resolved(dir, [email]).Ok? ==> |Resolved(dir, [email]).value| == 1
  {
  }

  /** Inviting more never holds more seats than there are. */
  lemma InvitingMoreFits(db: Db, dir: Directory, room: nat, host: Account, emails: seq<string>, expiresAt: int)
    requires InvitedMore(db, dir, room, host, emails, expiresAt).Ok?
    ensures Count(InvitedMore(db, dir, room, host, emails, expiresAt).value.invitations, HeldIn(room)) <= SEATS
  {
    hide Count, Issued, StillWanted, Cleaned;
    var cleaned := Cleaned(emails, host.email).value;
    var people := Resolved(dir, cleaned).value;
    ResolvedLength(dir, cleaned);
    WantedAreFree(db.invitations, room, people);
    IssuingHolds(db.invitations, room, StillWanted(db.invitations, room, people), expiresAt, room);
  }

  lemma {:induction false} ResolvedLength(dir: Directory, emails: seq<string>)
    ensures Resolved(dir, emails).Ok? ==> |Resolved(dir, emails).value| == |emails|
    decreases |emails|
  {
    if emails != [] { ResolvedLength(dir, emails[..|emails| - 1]); }
  }

  // ------------------------------------------------------------------ starting

  /**
   * Starting succeeds exactly for the host, with two people seated, when the session exists or everybody seated is
   * free. The classroom's own status is not asked: a cancelled or expired classroom that has two people seated and no
   * session can still be started.
   */
  lemma StartSucceedsExactly(db: Db, room: nat, host: UserId)
    ensures StartedDb(db, room, host).Ok? <==>
              && Owns(db, room, host)
              && Count(db.seats, SeatIn(room)) >= MIN_PARTICIPANTS
              && (Find(db.sessions, SessionOf(room)) < |db.sessions| || !Busy(db.places, Roster(db.seats, room)))
    ensures StartedDb(db, room, host).Ok? && db.classrooms[room].status in {Cancelled, Expired, Completed} ==>
              StartedDb(db, room, host).value.classrooms == db.classrooms
  {
  }

  // ------------------------------------------------------------------ quorum

  lemma NonePending(invitations: seq<Invitation>, room: nat)
    ensures Count(RevokedAll(invitations, room), PendingIn(room)) == 0
  {
    CountZero(RevokedAll(invitations, room), PendingIn(room));
  }

  /** A session made for a classroom gives a place to each person seated there, and to nobody else. */
  lemma PlacesMatchSeats(db: Db, room: nat, u: UserId)
    requires Sound(db) && Provisioned(db, room).Ok? && Find(db.sessions, SessionOf(room)) == |db.sessions|
    ensures var t := Provisioned(db, room).value;
            Count(t.places, PlaceOf(|db.sessions|, u)) == Count(t.seats, SeatOf(room, u))
  {
    var s := |db.sessions|;
    assert FromSeats(db, s, u);
    CountConcat(db.places, PlacesFor(s, Roster(db.seats, room)), PlaceOf(s, u));
    RosterCounts(db.seats, room, u, s);
  }

  /**
   * An acceptance opens the room exactly when it leaves at least two people seated and nobody else still deciding, or
   * takes the last seat; and an open room has nobody left deciding and a session with a place for each person seated.
   */
  lemma AcceptanceOpensExactly(db: Db, i: nat, u: UserId, now: int)
    requires Sound(db) && Responded(db, i, u, true, now).Ok?
    requires db.classrooms[db.invitations[i].room].status == Inviting
    ensures var t, room := Responded(db, i, u, true, now).value, db.invitations[i].room;
            var seated := Count(t.seats, SeatIn(room));
            && (t.classrooms[room].status == Ready <==>
                  seated >= MIN_PARTICIPANTS && (seated >= SEATS || Count(db.invitations, PendingIn(room)) == 1))
            && (t.classrooms[room].status == Ready ==> Count(t.invitations, PendingIn(room)) == 0)
            && (t.classrooms[room].status == Ready && Find(db.sessions, SessionOf(room)) == |db.sessions| ==>
                  && |t.sessions| == |db.sessions| + 1 && t.sessions[|db.sessions|].room == room
                  && forall v :: Count(t.places, PlaceOf(|db.sessions|, v)) == Count(t.seats, SeatOf(room, v)))
  {
    hide Sound, Count, Seated, Busy, Roster;
    var inv := db.invitations[i];
    var room := inv.room;
    var seats := Seated(db.seats, room, u).value;
    var answered := db.(invitations := Marked(db.invitations, i, Accepted), seats := seats);
    CountUpdate(db.invitations, i, answered.invitations[i], PendingIn(room));
    AcceptingKeeps(db, i, seats);
    var s := WithStatus(db.classrooms, room, Ready);
    var closed := answered.(classrooms := s, invitations := RevokedAll(answered.invitations, room));
    ClosingKeeps(answered, closed);
    NonePending(answered.invitations, room);
    var t := Responded(db, i, u, true, now).value;
    if t.classrooms[room].status == Ready && Find(db.sessions, SessionOf(room)) == |db.sessions| {
      forall v
        ensures Count(t.places, PlaceOf(|db.sessions|, v)) == Count(t.seats, SeatOf(room, v))
      {
        PlacesMatchSeats(closed, room, v);
      }
    }
  }
}
