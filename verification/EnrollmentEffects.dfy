/**
 * When each request succeeds and what it then does to the rows, row by row: everything that is not mentioned stays as
 * it was (backend/app/application/enrollment.py, backend/app/application/session_gateway.py,
 * backend/app/workers/janitor.py).
 */
module EnrollmentEffects {
  import opened Common
  import opened Records
  import opened Invitations
  import opened Rooms
  import opened Discussions
  import opened Enrollment
  import opened EnrollmentSafety
  import opened EnrollmentLimits

  // ------------------------------------------------------------------ answering

  /** The invitation is this person's, still open and in time, and its classroom takes answers. */
  predicate MayAnswer(db: Db, i: nat, u: UserId, now: int) {
    && i < |db.invitations|
    && var inv := db.invitations[i];
    && inv.user == u && inv.status == Pending && now <= inv.expiresAt
    && inv.room < |db.classrooms| && db.classrooms[inv.room].status in {Inviting, Ready}
  }

  /** A row of a table has changed as said, and no other row has. */
  ghost predicate OnlyRow<T(!new)>(before: seq<T>, after: seq<T>, i: nat, row: T) {
    && |after| == |before| && i < |after| && after[i] == row
    && forall k :: 0 <= k < |after| && k != i ==> after[k] == before[k]
  }

  /**
   * Declining succeeds exactly for the invitee, in time, while the classroom is open. It marks that one row, which
   * frees the seat it held and leaves one person fewer to decide, and it is final.
   */
  lemma DecliningExactly(db: Db, i: nat, u: UserId, now: int)
    ensures Handled(db, Respond(i, u, false, now)).Ok? <==> MayAnswer(db, i, u, now)
    ensures Handled(db, Respond(i, u, false, now)).Ok? ==>
              var t, inv := Handled(db, Respond(i, u, false, now)).value, db.invitations[i];
              && OnlyRow(db.invitations, t.invitations, i, inv.(status := Rejected))
              && t == db.(invitations := t.invitations)
              && Count(t.invitations, PendingIn(inv.room)) == Count(db.invitations, PendingIn(inv.room)) - 1
              && Count(t.invitations, HeldIn(inv.room)) == Count(db.invitations, HeldIn(inv.room)) - 1
              && forall v, accept, later :: Handled(t, Respond(i, v, accept, later)).Err?
  {
    hide Count;
    if MayAnswer(db, i, u, now) {
      var inv := db.invitations[i];
      CountUpdate(db.invitations, i, inv.(status := Rejected), PendingIn(inv.room));
      CountUpdate(db.invitations, i, inv.(status := Rejected), HeldIn(inv.room));
    }
  }

  /** And why it is refused otherwise. */
  lemma RefusalsExactly(db: Db, i: nat, u: UserId, accept: bool, now: int)
    requires !MayAnswer(db, i, u, now)
    ensures Handled(db, Respond(i, u, accept, now)) == Err(
              if i >= |db.invitations| then NotFound
              else if db.invitations[i].user != u then NotAllowed
              else if db.invitations[i].status != Pending || db.invitations[i].expiresAt < now then InvitationClosed
              else if db.invitations[i].room >= |db.classrooms| then NotFound
              else Conflict)
  {
    hide Count, Seated, QuorumChecked;
  }

  // ------------------------------------------------------------------ making a session

  predicate HasSession(db: Db, room: nat) { exists i :: 0 <= i < |db.sessions| && db.sessions[i].room == room }

  /** The classroom's session, the first if there were several, is over. */
  predicate SessionIsOver(db: Db, room: nat) {
    exists i :: 0 <= i < |db.sessions| && db.sessions[i].room == room && Terminal(db.sessions[i].status)
      && forall j :: 0 <= j < i ==> db.sessions[j].room != room
  }

  /** Somebody seated here holds a place in some discussion. */
  predicate SomebodyIsBusy(db: Db, room: nat) {
    exists i, k :: 0 <= i < |db.seats| && 0 <= k < |db.places| && db.seats[i].room == room
      && db.places[k].user == db.seats[i].user && !db.places[k].left
  }

  function ThisSeat(room: nat, u: UserId, n: nat): Seat -> bool { (x: Seat) => x == Seat(room, u, n) }

  function ThisPlace(session: nat, u: UserId, n: nat): Place -> bool { (p: Place) => p == Place(session, u, n, false) }

  /** One session more, waiting, with one place for each seat of the classroom, under the same number, and no other. */
  ghost predicate HasNewSession(db: Db, t: Db, room: nat) {
    && t.sessions == db.sessions + [SessionRow(room, Awaiting)]
    && |t.places| == |db.places| + Count(db.seats, SeatIn(room)) && t.places[..|db.places|] == db.places
    && forall u, n ::
         Count(t.places[|db.places|..], ThisPlace(|db.sessions|, u, n)) == Count(db.seats, ThisSeat(room, u, n))
  }

  lemma FindIsFirst(db: Db, room: nat)
    ensures var i := Find(db.sessions, SessionOf(room));
            && (i < |db.sessions| <==> HasSession(db, room))
            && (i < |db.sessions| && Terminal(db.sessions[i].status) <==> SessionIsOver(db, room))
  {
    var i := Find(db.sessions, SessionOf(room));
    if SessionIsOver(db, room) {
      var k :| 0 <= k < |db.sessions| && db.sessions[k].room == room && Terminal(db.sessions[k].status)
        && forall j :: 0 <= j < k ==> db.sessions[j].room != room;
      assert i == k;
    }
  }

  lemma BusyIsSomebody(db: Db, room: nat)
    ensures Busy(db.places, Roster(db.seats, room)) <==> SomebodyIsBusy(db, room)
  {
    var roster := Roster(db.seats, room);
    SelectIs(db.seats, SeatIn(room));
    if Busy(db.places, roster) {
      var k :| 0 <= k < |roster| && Count(db.places, Sitting(roster[k].user)) > 0;
      CountZero(db.places, Sitting(roster[k].user));
      var p :| 0 <= p < |db.places| && Sitting(roster[k].user)(db.places[p]);
      assert roster[k] in db.seats;
      var i :| 0 <= i < |db.seats| && db.seats[i] == roster[k];
    }
    if SomebodyIsBusy(db, room) {
      var i, k :| 0 <= i < |db.seats| && 0 <= k < |db.places| && db.seats[i].room == room
        && db.places[k].user == db.seats[i].user && !db.places[k].left;
      var j := IsSelected(db.seats, SeatIn(room), i);
      CountZero(db.places, Sitting(roster[j].user));
      assert Sitting(roster[j].user)(db.places[k]);
    }
  }

  lemma {:induction false} IsSelected<T>(rows: seq<T>, query: T -> bool, i: nat) returns (j: nat)
    requires i < |rows| && query(rows[i])
    ensures j < |Select(rows, query)| && Select(rows, query)[j] == rows[i]
    decreases |rows|
  {
    var front := rows[..|rows| - 1];
    if i == |front| { j := |Select(front, query)|; } else { j := IsSelected(front, query, i); }
  }

  lemma PlacesForSeats(seats: seq<Seat>, room: nat, session: nat, u: UserId, n: nat)
    ensures Count(PlacesFor(session, Roster(seats, room)), ThisPlace(session, u, n)) ==
            Count(seats, ThisSeat(room, u, n))
  {
    var roster := Roster(seats, room);
    SelectIs(seats, SeatIn(room));
    CountSelected(seats, SeatIn(room), ThisSeat(room, u, n));
    CountSame(roster, PlacesFor(session, roster), ThisSeat(room, u, n), ThisPlace(session, u, n));
  }

  /** A session is made when there is none and everybody seated is free; one that is over is not made again. */
  lemma ProvisioningExactly(db: Db, room: nat)
    ensures Provisioned(db, room).Ok? <==>
              if HasSession(db, room) then !SessionIsOver(db, room) else !SomebodyIsBusy(db, room)
    ensures Provisioned(db, room).Ok? ==>
              var t := Provisioned(db, room).value;
              && t == db.(sessions := t.sessions, places := t.places)
              && (if HasSession(db, room) then t == db else HasNewSession(db, t, room))
    ensures Provisioned(db, room).Err? ==> Provisioned(db, room).error == Conflict
  {
    FindIsFirst(db, room);
    BusyIsSomebody(db, room);
    if Provisioned(db, room).Ok? && !HasSession(db, room) {
      var t, extra := Provisioned(db, room).value, PlacesFor(|db.sessions|, Roster(db.seats, room));
      SelectIs(db.seats, SeatIn(room));
      assert t.places == db.places + extra;
      assert t.places[|db.places|..] == extra;
      forall u, n
        ensures Count(extra, ThisPlace(|db.sessions|, u, n)) == Count(db.seats, ThisSeat(room, u, n))
      {
        PlacesForSeats(db.seats, room, |db.sessions|, u, n);
      }
    }
    hide Find, Busy, Roster, HasSession, SessionIsOver, SomebodyIsBusy, Count;
  }

  // ------------------------------------------------------------------ accepting

  /** The number a newcomer gets: the lowest that nobody has. */
  ghost predicate IsNextSeat(seats: seq<Seat>, room: nat, n: nat) {
    && 1 <= n <= SEATS && Count(seats, SeatAt(room, n)) == 0
    && forall m :: 1 <= m < n ==> Count(seats, SeatAt(room, m)) > 0
  }

  lemma {:induction false} FreeSeatIsNext(seats: seq<Seat>, room: nat, from: nat)
    requires 1 <= from && forall m :: 1 <= m < from ==> Count(seats, SeatAt(room, m)) > 0
    ensures FreeSeatFrom(seats, room, from).Some? ==> IsNextSeat(seats, room, FreeSeatFrom(seats, room, from).value)
    decreases SEATS + 1 - from
  {
    if from <= SEATS && Count(seats, SeatAt(room, from)) > 0 { FreeSeatIsNext(seats, room, from + 1); }
  }

  predicate IsSeated(seats: seq<Seat>, room: nat, u: UserId) {
    exists i :: 0 <= i < |seats| && seats[i].room == room && seats[i].user == u
  }

  lemma SeatingExactly(seats: seq<Seat>, room: nat, u: UserId)
    ensures match Seated(seats, room, u)
            case Ok(t) =>
              && (IsSeated(seats, room, u) ==> t == seats)
              && (!IsSeated(seats, room, u) ==>
                    && |t| == |seats| + 1 && t[..|seats|] == seats
                    && t[|seats|].room == room && t[|seats|].user == u && IsNextSeat(seats, room, t[|seats|].seatNo))
            case Err(e) =>
              && e == SeatsFull && !IsSeated(seats, room, u)
              && forall n :: 1 <= n <= SEATS ==> Count(seats, SeatAt(room, n)) > 0
  {
    FreeSeatIsNext(seats, room, 1);
    var i := Find(seats, SeatOf(room, u));
    hide Count;
  }

  /** Two have a seat, and either nobody is still deciding or all four are taken. */
  predicate ReadyToOpen(t: Db, seats: seq<Seat>, room: nat, deciding: int)
    requires room < |t.classrooms|
  {
    && t.classrooms[room].status == Inviting
    && Count(seats, SeatIn(room)) >= 2 && (deciding == 0 || Count(seats, SeatIn(room)) >= 4)
  }

  /** Everybody who was still deciding here is no longer asked, and no other row has changed. */
  ghost predicate NobodyDecides(before: seq<Invitation>, after: seq<Invitation>, room: nat) {
    && |after| == |before|
    && forall k :: 0 <= k < |before| ==>
         after[k] == if before[k].room == room && before[k].status == Pending then before[k].(status := Revoked)
                     else before[k]
  }

  /**
   * Accepting succeeds exactly when the invitation may be answered, a seat is free or already theirs, and, if this
   * answer opens the classroom, a session can be made. It marks the row and takes the lowest free seat; if it opens the
   * classroom, nobody else is asked any more, the classroom is ready, and there is a session with a place for
   * everybody.
   */
  lemma AcceptingExactly(db: Db, i: nat, u: UserId, now: int)
    requires MayAnswer(db, i, u, now)
    ensures var room, r := db.invitations[i].room, Handled(db, Respond(i, u, true, now));
            match Seated(db.seats, room, u)
            case Err(_) => r == Err(SeatsFull)
            case Ok(seats) =>
              var accepted := db.(invitations := db.invitations[i := db.invitations[i].(status := Accepted)],
                                  seats := seats);
              var deciding := Count(db.invitations, PendingIn(room)) - 1;
              if !ReadyToOpen(db, seats, room, deciding) then r == Ok(accepted)
              else
                && (r.Ok? <==>
                      if HasSession(db, room) then !SessionIsOver(db, room) else !SomebodyIsBusy(accepted, room))
                && (r.Ok? ==>
                      && NobodyDecides(accepted.invitations, r.value.invitations, room)
                      && OnlyRow(db.classrooms, r.value.classrooms, room, db.classrooms[room].(status := Ready))
                      && r.value.seats == seats
                      && (if HasSession(db, room) then r.value.sessions == db.sessions && r.value.places == db.places
                          else HasNewSession(accepted, r.value, room)))
  {
    hide Count, Seated, Provisioned, HasSession, SessionIsOver, SomebodyIsBusy, HasNewSession;
    var room := db.invitations[i].room;
    SeatingExactly(db.seats, room, u);
    if Seated(db.seats, room, u).Ok? {
      var seats := Seated(db.seats, room, u).value;
      var accepted := db.(invitations := Marked(db.invitations, i, Accepted), seats := seats);
      CountUpdate(db.invitations, i, accepted.invitations[i], PendingIn(room));
      var ready := accepted.(classrooms := WithStatus(db.classrooms, room, Ready),
                              invitations := RevokedAll(accepted.invitations, room));
      ProvisioningExactly(ready, room);
      SameRowsSameSession(accepted, ready, room);
      SameRowsSameSession(db, ready, room);
    }
  }

  /** Whether a session can be made is a matter of sessions, seats and places alone. */
  lemma SameRowsSameSession(db: Db, t: Db, room: nat)
    requires t.sessions == db.sessions
    ensures HasSession(db, room) <==> HasSession(t, room)
    ensures SessionIsOver(db, room) <==> SessionIsOver(t, room)
    ensures t.seats == db.seats && t.places == db.places ==> (SomebodyIsBusy(db, room) <==> SomebodyIsBusy(t, room))
    ensures t.seats == db.seats && t.places == db.places ==>
              forall x :: HasNewSession(db, x, room) <==> HasNewSession(t, x, room)
  {
  }

  // ------------------------------------------------------------------ inviting

  /** No invitation to this classroom is open for them, and they have accepted none. */
  predicate Uninvited(invitations: seq<Invitation>, room: nat, u: UserId) {
    forall i :: 0 <= i < |invitations| ==>
      !(invitations[i].room == room && invitations[i].user == u && invitations[i].status in {Pending, Accepted})
  }

  /** Attempts to invite somebody to a classroom are numbered from 1. */
  predicate IsNextAttempt(invitations: seq<Invitation>, room: nat, u: UserId, n: nat) {
    && (forall i :: 0 <= i < |invitations| && invitations[i].room == room && invitations[i].user == u ==>
          invitations[i].attempt < n)
    && (n == 1 || exists i :: 0 <= i < |invitations| && invitations[i].room == room && invitations[i].user == u
                              && invitations[i].attempt == n - 1)
  }

  /** An open invitation for one of these people, as their next attempt. */
  predicate IsFirstOpen(before: seq<Invitation>, row: Invitation, room: nat, people: seq<Invitee>, expiresAt: int) {
    && row.room == room && row.status == Pending && row.expiresAt == expiresAt
    && Invitee(row.user, row.email) in people
    && IsNextAttempt(before, room, row.user, row.attempt)
  }

  /** What was there stays; what is new is for somebody who had nothing open, once. */
  ghost predicate AddsRows(
    before: seq<Invitation>, after: seq<Invitation>, room: nat, people: seq<Invitee>, expiresAt: int) {
    && |before| <= |after| && after[..|before|] == before
    && (forall k :: |before| <= k < |after| ==> IsFirstOpen(before, after[k], room, people, expiresAt))
    && (forall k :: |before| <= k < |after| ==> Count(before, PendingFor(room, after[k].user)) == 0)
    && (forall k, l :: |before| <= k < l < |after| ==> after[k].user != after[l].user)
  }

  predicate HasRow(before: seq<Invitation>, after: seq<Invitation>, u: UserId) {
    exists k :: |before| <= k < |after| && after[k].user == u
  }

  /** And everybody who had nothing open has a new row. */
  ghost predicate Invites(
    before: seq<Invitation>, after: seq<Invitation>, room: nat, people: seq<Invitee>, expiresAt: int) {
    && AddsRows(before, after, room, people, expiresAt)
    && forall p :: p in people && Count(before, PendingFor(room, p.user)) == 0 ==> HasRow(before, after, p.user)
  }

  lemma {:induction false} LastAttemptIsLast(invitations: seq<Invitation>, room: nat, u: UserId)
    ensures IsNextAttempt(invitations, room, u, LastAttempt(invitations, room, u) + 1)
    decreases |invitations|
  {
    if invitations != [] {
      var front, last := invitations[..|invitations| - 1], invitations[|invitations| - 1];
      LastAttemptIsLast(front, room, u);
      assert forall i :: 0 <= i < |front| ==> front[i] == invitations[i];
      if last.room == room && last.user == u && last.attempt >= LastAttempt(front, room, u) {
        assert invitations[|invitations| - 1].attempt == LastAttempt(invitations, room, u);
      }
    }
  }

  lemma {:induction false} LastAttemptIgnores(a: seq<Invitation>, b: seq<Invitation>, room: nat, u: UserId)
    requires forall k :: 0 <= k < |b| ==> b[k].user != u
    ensures LastAttempt(a + b, room, u) == LastAttempt(a, room, u)
    decreases |b|
  {
    if b == [] {
      assert a + b == a;
    } else {
      assert (a + b)[..|a + b| - 1] == a + b[..|b| - 1];
      LastAttemptIgnores(a, b[..|b| - 1], room, u);
    }
  }

  lemma {:induction false} IssuingExactly(before: seq<Invitation>, room: nat, people: seq<Invitee>, expiresAt: int)
    ensures Invites(before, Issued(before, room, people, expiresAt), room, people, expiresAt)
    decreases |people|
  {
    if people != [] {
      var front, p := people[..|people| - 1], people[|people| - 1];
      IssuingExactly(before, room, front, expiresAt);
      OneMoreInvited(before, Issued(before, room, front, expiresAt), room, people, expiresAt);
    }
  }

  lemma FirstOpenOfMore(
    before: seq<Invitation>, row: Invitation, room: nat, front: seq<Invitee>, p: Invitee, expiresAt: int)
    requires IsFirstOpen(before, row, room, front, expiresAt)
    ensures IsFirstOpen(before, row, room, front + [p], expiresAt)
  {
    hide IsNextAttempt;
  }

  lemma RowsOfMore(before: seq<Invitation>, mid: seq<Invitation>, room: nat, front: seq<Invitee>, p: Invitee,
                   expiresAt: int)
    requires AddsRows(before, mid, room, front, expiresAt)
    ensures AddsRows(before, mid, room, front + [p], expiresAt)
  {
    hide IsFirstOpen, Count;
    forall k | |before| <= k < |mid|
      ensures IsFirstOpen(before, mid[k], room, front + [p], expiresAt)
    {
      FirstOpenOfMore(before, mid[k], room, front, p, expiresAt);
    }
  }

  lemma NewcomersRow(before: seq<Invitation>, mid: seq<Invitation>, room: nat, people: seq<Invitee>, expiresAt: int,
                     row: Invitation)
    requires AddsRows(before, mid, room, people, expiresAt) && IsFirstOpen(before, row, room, people, expiresAt)
    requires Count(before, PendingFor(room, row.user)) == 0
    requires forall k :: |before| <= k < |mid| ==> mid[k].user != row.user
    ensures AddsRows(before, mid + [row], room, people, expiresAt)
  {
    hide IsFirstOpen, Count;
    assert (mid + [row])[..|before|] == mid[..|before|];
  }

  lemma StillHasRow(before: seq<Invitation>, mid: seq<Invitation>, row: Invitation, u: UserId)
    requires |before| <= |mid| && (HasRow(before, mid, u) || row.user == u)
    ensures HasRow(before, mid + [row], u)
  {
    if HasRow(before, mid, u) {
      var k :| |before| <= k < |mid| && mid[k].user == u;
      assert (mid + [row])[k].user == u;
    } else {
      assert (mid + [row])[|mid|].user == u;
    }
  }

  lemma NewcomerIsInvited(before: seq<Invitation>, mid: seq<Invitation>, room: nat, front: seq<Invitee>, p: Invitee,
                          expiresAt: int, row: Invitation)
    requires Invites(before, mid, room, front, expiresAt) && IsFirstOpen(before, row, room, front + [p], expiresAt)
    requires row.user == p.user && Count(before, PendingFor(room, p.user)) == 0
    requires forall k :: |before| <= k < |mid| ==> mid[k].user != p.user
    ensures Invites(before, mid + [row], room, front + [p], expiresAt)
  {
    hide Count, HasRow, IsFirstOpen;
    RowsOfMore(before, mid, room, front, p, expiresAt);
    NewcomersRow(before, mid, room, front + [p], expiresAt, row);
    forall q | q in front + [p] && Count(before, PendingFor(room, q.user)) == 0
      ensures HasRow(before, mid + [row], q.user)
    {
      StillHasRow(before, mid, row, q.user);
    }
  }

  lemma InviteeStaysInvited(before: seq<Invitation>, mid: seq<Invitation>, room: nat, front: seq<Invitee>, p: Invitee,
                            expiresAt: int)
    requires Invites(before, mid, room, front, expiresAt)
    requires Count(before, PendingFor(room, p.user)) == 0 ==> HasRow(before, mid, p.user)
    ensures Invites(before, mid, room, front + [p], expiresAt)
  {
    hide Count, HasRow, IsFirstOpen;
    RowsOfMore(before, mid, room, front, p, expiresAt);
  }

  lemma NobodysOpen(before: seq<Invitation>, mid: seq<Invitation>, room: nat, front: seq<Invitee>, u: UserId,
                    expiresAt: int)
    requires AddsRows(before, mid, room, front, expiresAt) && Find(mid, PendingFor(room, u)) == |mid|
    ensures Count(before, PendingFor(room, u)) == 0
    ensures forall k :: |before| <= k < |mid| ==> mid[k].user != u
  {
    CountZero(before, PendingFor(room, u));
    hide Count, IsNextAttempt;
    assert forall k :: 0 <= k < |before| ==> before[k] == mid[k];
    forall k | |before| <= k < |mid|
      ensures mid[k].user != u
    {
      assert IsFirstOpen(before, mid[k], room, front, expiresAt);
      assert !PendingFor(room, u)(mid[k]);
    }
  }

  lemma OneMoreInvited(
    before: seq<Invitation>, mid: seq<Invitation>, room: nat, people: seq<Invitee>, expiresAt: int)
    requires people != [] && Invites(before, mid, room, people[..|people| - 1], expiresAt)
    ensures Invites(before, IssuedOne(mid, room, people[|people| - 1], expiresAt), room, people, expiresAt)
  {
    hide Count, LastAttempt, IsNextAttempt, Find, HasRow, AddsRows;
    var front, p := people[..|people| - 1], people[|people| - 1];
    assert people == front + [p];
    if Find(mid, PendingFor(room, p.user)) < |mid| {
      SomebodysOpen(before, mid, room, front, p, expiresAt);
      InviteeStaysInvited(before, mid, room, front, p, expiresAt);
    } else {
      NobodysOpen(before, mid, room, front, p.user, expiresAt);
      AttemptIgnoresNew(before, mid, room, front, p.user, expiresAt);
      LastAttemptIsLast(before, room, p.user);
      var row := Invitation(room, p.user, LastAttempt(mid, room, p.user) + 1, Pending, p.email, expiresAt);
      NewcomerIsInvited(before, mid, room, front, p, expiresAt, row);
    }
  }

  lemma AttemptIgnoresNew(
    before: seq<Invitation>, mid: seq<Invitation>, room: nat, front: seq<Invitee>, u: UserId, expiresAt: int)
    requires AddsRows(before, mid, room, front, expiresAt) && forall k :: |before| <= k < |mid| ==> mid[k].user != u
    ensures LastAttempt(mid, room, u) == LastAttempt(before, room, u)
  {
    assert mid == before + mid[|before|..];
    LastAttemptIgnores(before, mid[|before|..], room, u);
  }

  lemma SomebodysOpen(before: seq<Invitation>, mid: seq<Invitation>, room: nat, front: seq<Invitee>, p: Invitee,
                      expiresAt: int)
    requires Invites(before, mid, room, front, expiresAt) && Find(mid, PendingFor(room, p.user)) < |mid|
    ensures Count(before, PendingFor(room, p.user)) == 0 ==> HasRow(before, mid, p.user)
  {
    var j := Find(mid, PendingFor(room, p.user));
    CountZero(before, PendingFor(room, p.user));
    if j < |before| { assert before[j] == mid[..|before|][j]; }
  }

  /** An invitation that a list of addresses has brought about. */
  predicate IsInvited(
    before: seq<Invitation>, row: Invitation, dir: Directory, room: nat, emails: seq<string>, expiresAt: int) {
    && row.room == room && row.status == Pending && row.expiresAt == expiresAt
    && row.email in emails && row.email in dir && dir[row.email] == row.user
    && Uninvited(before, room, row.user) && IsNextAttempt(before, room, row.user, row.attempt)
  }

  /** Whoever is named and not invited or seated already is invited, once; nobody else is, and nothing is taken back. */
  ghost predicate InvitesNamed(
    before: seq<Invitation>, after: seq<Invitation>, dir: Directory, room: nat, emails: seq<string>, expiresAt: int) {
    && |before| <= |after| && after[..|before|] == before
    && (forall k :: |before| <= k < |after| ==> IsInvited(before, after[k], dir, room, emails, expiresAt))
    && (forall k, l :: |before| <= k < l < |after| ==> after[k].user != after[l].user)
    && (forall e :: e in emails && e in dir && Uninvited(before, room, dir[e]) ==> HasRow(before, after, dir[e]))
  }

  lemma ReinvitableIsUninvited(invitations: seq<Invitation>, room: nat, u: UserId)
    ensures Reinvitable(invitations, room, u) <==> Uninvited(invitations, room, u)
  {
  }

  lemma {:induction false} WantedExactly(invitations: seq<Invitation>, room: nat, people: seq<Invitee>, p: Invitee)
    ensures p in StillWanted(invitations, room, people) <==> p in people && Uninvited(invitations, room, p.user)
    decreases |people|
  {
    hide Reinvitable, Uninvited;
    if people != [] {
      var front, last := people[..|people| - 1], people[|people| - 1];
      WantedExactly(invitations, room, front, p);
      ReinvitableIsUninvited(invitations, room, last.user);
      assert people == front + [last];
    }
  }

  lemma {:induction false} ResolvedExactly(dir: Directory, emails: seq<string>)
    ensures Resolved(dir, emails).Ok? <==> forall k :: 0 <= k < |emails| ==> emails[k] in dir
    ensures Resolved(dir, emails).Err? ==> Resolved(dir, emails).error == NotFound
    decreases |emails|
  {
    if emails != [] {
      ResolvedExactly(dir, emails[..|emails| - 1]);
      assert forall k :: 0 <= k < |emails| - 1 ==> emails[..|emails| - 1][k] == emails[k];
    }
  }

  lemma InvitedRow(before: seq<Invitation>, row: Invitation, dir: Directory, room: nat, emails: seq<string>,
                   expiresAt: int)
    requires forall k :: 0 <= k < |emails| ==> emails[k] in dir
    requires IsFirstOpen(before, row, room, StillWanted(before, room, InviteesOf(dir, emails)), expiresAt)
    ensures IsInvited(before, row, dir, room, emails, expiresAt)
  {
    hide IsNextAttempt, Uninvited, StillWanted;
    var people := InviteesOf(dir, emails);
    WantedExactly(before, room, people, Invitee(row.user, row.email));
    var k :| 0 <= k < |people| && people[k] == Invitee(row.user, row.email);
    assert row.email == emails[k];
  }

  lemma InvitingExactly(db: Db, dir: Directory, room: nat, emails: seq<string>, expiresAt: int)
    ensures Invited(db, dir, room, emails, expiresAt).Ok? <==> forall k :: 0 <= k < |emails| ==> emails[k] in dir
    ensures Invited(db, dir, room, emails, expiresAt).Ok? ==>
              var t := Invited(db, dir, room, emails, expiresAt).value;
              && t == db.(invitations := t.invitations)
              && InvitesNamed(db.invitations, t.invitations, dir, room, emails, expiresAt)
  {
    hide Issued, StillWanted, Resolved, Uninvited, IsFirstOpen, IsInvited, HasRow;
    ResolvedExactly(dir, emails);
    if Resolved(dir, emails).Ok? {
      AllResolved(dir, emails);
      var people := InviteesOf(dir, emails);
      var wanted := StillWanted(db.invitations, room, people);
      IssuingExactly(db.invitations, room, wanted, expiresAt);
      var after := Issued(db.invitations, room, wanted, expiresAt);
      forall k | |db.invitations| <= k < |after|
        ensures IsInvited(db.invitations, after[k], dir, room, emails, expiresAt)
      {
        InvitedRow(db.invitations, after[k], dir, room, emails, expiresAt);
      }
      forall e | e in emails && e in dir && Uninvited(db.invitations, room, dir[e])
        ensures HasRow(db.invitations, after, dir[e])
      {
        var k :| 0 <= k < |emails| && emails[k] == e;
        assert people[k] == Invitee(dir[e], e);
        WantedExactly(db.invitations, room, people, people[k]);
        NothingOpen(db.invitations, room, dir[e]);
      }
    }
  }

  lemma NothingOpen(invitations: seq<Invitation>, room: nat, u: UserId)
    requires Uninvited(invitations, room, u)
    ensures Count(invitations, PendingFor(room, u)) == 0
  {
    CountZero(invitations, PendingFor(room, u));
  }

  // ------------------------------------------------------------------ refusals

  /** What keeps anybody but the host of a known classroom out. */
  function NotTheHost(db: Db, room: nat, u: UserId): Option<Error> {
    if room >= |db.classrooms| then Some(NotFound)
    else if db.classrooms[room].host != u then Some(NotAllowed)
    else None
  }

  /** The list names the host, or fewer or more than so many others; a repeated address counts once. */
  predicate BadList(emails: seq<string>, host: string, least: int, most: int) {
    match Cleaned(emails, host)
    case Err(_) => true
    case Ok(cleaned) => !(least <= |cleaned| <= most)
  }

  /** Why inviting is refused: the first of these that applies. An unknown address comes last. */
  lemma InvitingRefusals(db: Db, dir: Directory, room: nat, host: Account, emails: seq<string>, allowed: bool, at: int)
    ensures var r := Handled(db, Create(dir, host, emails, allowed, at));
            r.Err? ==>
              r.error == if BadList(emails, host.email, 2, 4) then Invalid
                         else if !allowed then NotAllowed
                         else NotFound
    ensures var r := Handled(db, InviteMore(dir, room, host, emails, at));
            var free := 4 - Count(db.invitations, HeldIn(room));
            r.Err? ==>
              r.error == if NotTheHost(db, room, host.user).Some? then NotTheHost(db, room, host.user).value
                         else if db.classrooms[room].status !in {Inviting, Ready} then Conflict
                         else if NamesHost(emails, host.email) then Invalid
                         else if free <= 0 then Conflict
                         else if BadList(emails, host.email, 0, free) then Invalid
                         else NotFound
  {
    hide NamesHost, Clean, Count, Resolved, StillWanted;
    CleaningIsExact(emails, host.email);
    hide Cleaned;
    if Cleaned(emails, host.email).Ok? { ResolvedExactly(dir, Cleaned(emails, host.email).value); }
  }

  /** And why the host's other requests are. */
  lemma HostsRefusals(db: Db, dir: Directory, room: nat, host: UserId, i: nat, at: int)
    ensures var r := Handled(db, Resend(dir, room, host, i, at));
            r.Err? ==>
              r.error == if NotTheHost(db, room, host).Some? then NotTheHost(db, room, host).value
                         else if i >= |db.invitations| || db.invitations[i].room != room then NotFound
                         else if db.invitations[i].status !in {Pending, TimedOut} then Conflict
                         else if db.invitations[i].email !in dir then NotFound
                         else Conflict
    ensures var r := Handled(db, Start(room, host));
            r.Err? ==>
              r.error == if NotTheHost(db, room, host).Some? then NotTheHost(db, room, host).value
                         else if Count(db.seats, SeatIn(room)) < 2 then NotReady
                         else Conflict
    ensures var r := Handled(db, Cancel(room, host));
            r.Err? ==>
              r.error == if NotTheHost(db, room, host).Some? then NotTheHost(db, room, host).value
                         else if db.classrooms[room].status == Live then IllegalTransition
                         else Conflict
  {
    hide Count, Issued, StillWanted, Reinvitable, Busy, Find, Resolved;
    if i < |db.invitations| {
      var named := [db.invitations[i].email];
      ResolvedExactly(dir, named);
      assert named[0] in dir <==> forall k :: 0 <= k < |named| ==> named[k] in dir;
    }
  }

  // ------------------------------------------------------------------ the host's requests

  /** The addresses a list comes down to. */
  ghost predicate MayCreate(dir: Directory, host: Account, emails: seq<string>, allowed: bool) {
    && !NamesHost(emails, host.email) && allowed
    && Cleaned(emails, host.email).Ok?
    && var cleaned := Cleaned(emails, host.email).value;
    2 <= |cleaned| <= 4 && forall k :: 0 <= k < |cleaned| ==> cleaned[k] in dir
  }

  /**
   * A classroom is made exactly when the host does not name themselves and names two to four different people, all of
   * them known, and may host. It is open for answers, is the host's, and everybody named is invited to it.
   */
  lemma CreatingExactly(db: Db, dir: Directory, host: Account, emails: seq<string>, allowed: bool, expiresAt: int)
    ensures Handled(db, Create(dir, host, emails, allowed, expiresAt)).Ok? <==> MayCreate(dir, host, emails, allowed)
    ensures MayCreate(dir, host, emails, allowed) ==>
              var t := Handled(db, Create(dir, host, emails, allowed, expiresAt)).value;
              && t == db.(classrooms := t.classrooms, invitations := t.invitations)
              && t.classrooms == db.classrooms + [Classroom(host.user, Inviting)]
              && InvitesNamed(db.invitations, t.invitations, dir, |db.classrooms|, Cleaned(emails, host.email).value,
                              expiresAt)
              && Clean(Cleaned(emails, host.email).value, emails, host.email)
  {
    hide Cleaned, Invited, InvitesNamed, NamesHost, Clean;
    CleaningIsExact(emails, host.email);
    if Cleaned(emails, host.email).Ok? {
      var drafted := db.(classrooms := db.classrooms + [Classroom(host.user, Draft)]);
      InvitingExactly(drafted, dir, |db.classrooms|, Cleaned(emails, host.email).value, expiresAt);
      assert WithStatus(drafted.classrooms, |db.classrooms|, Inviting) ==
             db.classrooms + [Classroom(host.user, Inviting)];
    }
  }

  ghost predicate MayInviteMore(db: Db, dir: Directory, room: nat, host: Account, emails: seq<string>) {
    && room < |db.classrooms| && db.classrooms[room].host == host.user
    && db.classrooms[room].status in {Inviting, Ready}
    && !NamesHost(emails, host.email) && Cleaned(emails, host.email).Ok?
    && var cleaned, free := Cleaned(emails, host.email).value, SEATS - Count(db.invitations, HeldIn(room));
    free > 0 && |cleaned| <= free && forall k :: 0 <= k < |cleaned| ==> cleaned[k] in dir
  }

  /** More people are invited exactly by the host, while answers are taken, and into seats that nobody holds. */
  lemma InvitingMoreExactly(db: Db, dir: Directory, room: nat, host: Account, emails: seq<string>, expiresAt: int)
    ensures Handled(db, InviteMore(dir, room, host, emails, expiresAt)).Ok? <==>
            MayInviteMore(db, dir, room, host, emails)
    ensures MayInviteMore(db, dir, room, host, emails) ==>
              var t := Handled(db, InviteMore(dir, room, host, emails, expiresAt)).value;
              && t == db.(invitations := t.invitations)
              && InvitesNamed(db.invitations, t.invitations, dir, room, Cleaned(emails, host.email).value, expiresAt)
  {
    hide Cleaned, Invited, InvitesNamed, NamesHost, Clean, Count;
    CleaningIsExact(emails, host.email);
    if Cleaned(emails, host.email).Ok? {
      InvitingExactly(db, dir, room, Cleaned(emails, host.email).value, expiresAt);
    }
  }

  /** Re-sending closes the one invitation and opens one more to whoever has its address now. */
  lemma ResendingExactly(db: Db, dir: Directory, room: nat, host: UserId, i: nat, expiresAt: int)
    requires Handled(db, Resend(dir, room, host, i, expiresAt)).Ok?
    ensures var t := Handled(db, Resend(dir, room, host, i, expiresAt)).value;
            && t == db.(invitations := t.invitations) && i < |db.invitations| && |t.invitations| == |db.invitations| + 1
            && OnlyRow(db.invitations, t.invitations[..|db.invitations|], i, db.invitations[i].(status := Revoked))
            && IsInvited(t.invitations[..|db.invitations|], t.invitations[|db.invitations|], dir, room,
                         [db.invitations[i].email], expiresAt)
  {
    hide Invited, IsInvited, Reinvitable;
    ResendSucceedsExactly(db, dir, room, host, i, expiresAt);
    var revoked := db.(invitations := Marked(db.invitations, i, Revoked));
    InvitingExactly(revoked, dir, room, [db.invitations[i].email], expiresAt);
    ResendingAddsOne(db, dir, room, host, i, expiresAt);
  }

  lemma ResendingAddsOne(db: Db, dir: Directory, room: nat, host: UserId, i: nat, expiresAt: int)
    requires Resent(db, dir, room, host, i, expiresAt).Ok? && db.invitations[i].email in dir
    ensures |Resent(db, dir, room, host, i, expiresAt).value.invitations| == |db.invitations| + 1
  {
    hide Find, LastAttempt;
    OneWanted(Marked(db.invitations, i, Revoked), dir, room, db.invitations[i].email, expiresAt);
  }

  /** Where starting takes a classroom's status; a closed one stays closed. */
  function StartedStatus(status: ClassroomStatus, isNew: bool): ClassroomStatus {
    if status == Ready || (status == Inviting && isNew) then Live else status
  }

  /**
   * The host may start as soon as two have accepted, if there is a session or everybody seated is free. A session is
   * then made if there is none, and nobody else is asked any more.
   */
  lemma StartingExactly(db: Db, room: nat, host: UserId)
    ensures Handled(db, Start(room, host)).Ok? <==>
              && room < |db.classrooms| && db.classrooms[room].host == host
              && Count(db.seats, SeatIn(room)) >= 2
              && (HasSession(db, room) || !SomebodyIsBusy(db, room))
    ensures Handled(db, Start(room, host)).Ok? ==>
              var t, isNew := Handled(db, Start(room, host)).value, !HasSession(db, room);
              && t.seats == db.seats
              && OnlyRow(db.classrooms, t.classrooms, room,
                         db.classrooms[room].(status := StartedStatus(db.classrooms[room].status, isNew)))
              && (isNew ==> NobodyDecides(db.invitations, t.invitations, room) && HasNewSession(db, t, room))
              && (!isNew ==> t == db.(classrooms := t.classrooms))
  {
    hide Count, Provisioned, HasSession, SessionIsOver, SomebodyIsBusy, HasNewSession, Find;
    FindIsFirst(db, room);
    if room < |db.classrooms| {
      var closed := Advanced(db.(invitations := RevokedAll(db.invitations, room)), room, QuorumReached);
      ProvisioningExactly(closed, room);
      SameRowsSameSession(db, closed, room);
      if Provisioned(closed, room).Ok? && Handled(db, Start(room, host)).Ok? && !HasSession(db, room) {
        NewSessionByRows(closed, Provisioned(closed, room).value, db, Handled(db, Start(room, host)).value, room);
      }
    }
  }

  lemma NewSessionByRows(db: Db, t: Db, before: Db, after: Db, room: nat)
    requires HasNewSession(db, t, room) && before.sessions == db.sessions && before.places == db.places
    requires before.seats == db.seats && after.sessions == t.sessions && after.places == t.places
    ensures HasNewSession(before, after, room)
  {
  }

  /** A session has this status now, everybody has left it, and nothing else has changed. */
  ghost predicate EndsSession(db: Db, t: Db, session: nat, status: SessionStatus) {
    && session < |db.sessions|
    && OnlyRow(db.sessions, t.sessions, session, db.sessions[session].(status := status))
    && EverybodyLeaves(db.places, t.places, session)
  }

  ghost predicate EverybodyLeaves(before: seq<Place>, after: seq<Place>, session: nat) {
    && |after| == |before|
    && forall k :: 0 <= k < |before| ==>
         after[k] == if before[k].session == session then before[k].(left := true) else before[k]
  }

  /** A session that is not over is aborted, and everybody in it is free; one over, or unknown, is left alone. */
  lemma AbortingExactly(db: Db, session: nat)
    ensures var t := Committed(db, AbortSession(session));
            && t == db.(sessions := t.sessions, places := t.places)
            && (if session < |db.sessions| && !Terminal(db.sessions[session].status)
                then EndsSession(db, t, session, Aborted) else t == db)
  {
  }

  /** The host may cancel until the discussion is live; nobody is asked any more, and a session waiting is aborted. */
  lemma CancellingExactly(db: Db, room: nat, host: UserId)
    ensures Handled(db, Cancel(room, host)).Ok? <==>
              && room < |db.classrooms| && db.classrooms[room].host == host
              && db.classrooms[room].status in {Draft, Inviting, Ready}
    ensures Handled(db, Cancel(room, host)).Ok? ==>
              var t := Handled(db, Cancel(room, host)).value;
              && OnlyRow(db.classrooms, t.classrooms, room, db.classrooms[room].(status := Cancelled))
              && NobodyDecides(db.invitations, t.invitations, room) && t.seats == db.seats
              && (if HasSession(db, room) && !SessionIsOver(db, room) then AbortsOne(db, t, room)
                  else t.sessions == db.sessions && t.places == db.places)
  {
    hide Count, Find;
    FindIsFirst(db, room);
    var i := Find(db.sessions, SessionOf(room));
    if HasSession(db, room) && !SessionIsOver(db, room) && Handled(db, Cancel(room, host)).Ok? {
      assert EndsSession(db, Handled(db, Cancel(room, host)).value, i, Aborted);
    }
  }

  /** The first session of the classroom is aborted. */
  ghost predicate AbortsOne(db: Db, t: Db, room: nat) {
    exists i ::
      && 0 <= i < |db.sessions| && db.sessions[i].room == room
      && (forall j :: 0 <= j < i ==> db.sessions[j].room != room)
      && EndsSession(db, t, i, Aborted)
  }

  // ------------------------------------------------------------------ sweeps and late writes

  /** The sweep closes exactly those of its batch that are still open and out of time. */
  lemma SweepingInvitationsExactly(db: Db, batch: set<nat>, now: int)
    ensures var t := Committed(db, ExpireInvitations(batch, now));
            && t == db.(invitations := t.invitations) && |t.invitations| == |db.invitations|
            && forall i :: 0 <= i < |db.invitations| ==>
                 var inv := db.invitations[i];
                 t.invitations[i] == if i in batch && inv.status == Pending && inv.expiresAt < now
                                     then inv.(status := TimedOut) else inv
  {
  }

  /** And exactly those classrooms of its batch that are still waiting for answers or for the host. */
  lemma SweepingClassroomsExactly(db: Db, batch: set<nat>)
    ensures var t := Committed(db, ExpireClassrooms(batch));
            && t == db.(classrooms := t.classrooms) && |t.classrooms| == |db.classrooms|
            && forall i :: 0 <= i < |db.classrooms| ==>
                 var room := db.classrooms[i];
                 t.classrooms[i] == if i in batch && NextStatus(room.status, TimeIsUp).Some?
                                    then room.(status := Expired) else room
  {
  }

  /** The runner's word on a session is final: its status is what the runner says, and a final one frees everybody. */
  lemma MarkingExactly(db: Db, session: nat, status: SessionStatus)
    ensures var t := Committed(db, MarkStatus(session, status));
            && t == db.(sessions := t.sessions, places := t.places)
            && (session < |db.sessions| ==>
                  OnlyRow(db.sessions, t.sessions, session, db.sessions[session].(status := status)))
            && (session >= |db.sessions| ==> t.sessions == db.sessions)
            && (if status == Ended || status == Aborted then EverybodyLeaves(db.places, t.places, session)
                else t.places == db.places)
  {
  }

  /** Flushing the transcript frees everybody the ledger knows, and nobody else. */
  lemma FlushingExactly(db: Db, session: nat, users: seq<UserId>)
    ensures var t := Committed(db, FlushTranscript(session, users));
            && t == db.(places := t.places) && |t.places| == |db.places|
            && forall k :: 0 <= k < |db.places| ==>
                 var p := db.places[k];
                 t.places[k] == if p.session == session && p.user in users then p.(left := true) else p
  {
    FlushingEach(db.places, session, users);
  }

  lemma {:induction false} FlushingEach(places: seq<Place>, session: nat, users: seq<UserId>)
    ensures var t := LeftEach(places, session, users);
            && |t| == |places|
            && forall k :: 0 <= k < |places| ==>
                 t[k] == if places[k].session == session && places[k].user in users then places[k].(left := true)
                         else places[k]
    decreases |users|
  {
    if users != [] {
      var front, last := users[..|users| - 1], users[|users| - 1];
      FlushingEach(places, session, front);
      assert users == front + [last];
    }
  }

  /** The runner's report sets the classroom's status, whatever it was. */
  lemma CompletingExactly(db: Db, session: nat, aborted: bool)
    ensures var t := Committed(db, CompleteClassroom(session, aborted));
            && t == db.(classrooms := t.classrooms)
            && (if session < |db.sessions| && db.sessions[session].room < |db.classrooms|
                then var room := db.sessions[session].room;
                     OnlyRow(db.classrooms, t.classrooms, room,
                             db.classrooms[room].(status := if aborted then Ready else Completed))
                else t == db)
  {
  }
}
