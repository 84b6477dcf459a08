/**
 * The two promises that enrollment does not keep: that invitations hold at most four seats, and that a closed classroom
 * stays closed (backend/app/application/enrollment.py). For each, the requests that break it are named exactly, and a
 * history from the empty database shows one of them doing so.
 */
module EnrollmentLimits {
  import opened Common
  import opened Records
  import opened Invitations
  import opened Rooms
  import opened Discussions
  import opened Enrollment
  import opened EnrollmentSafety
  import Text

  // ------------------------------------------------------------------ re-sending

  /** Re-sending succeeds exactly for the host, on an unanswered invitation to somebody known who holds no other. */
  lemma ResendSucceedsExactly(db: Db, dir: Directory, room: nat, host: UserId, i: nat, expiresAt: int)
    ensures Resent(db, dir, room, host, i, expiresAt).Ok? <==>
              && Owns(db, room, host)
              && i < |db.invitations| && db.invitations[i].room == room
              && db.invitations[i].status in {Pending, TimedOut}
              && db.invitations[i].email in dir
              && Reinvitable(Marked(db.invitations, i, Revoked), room, dir[db.invitations[i].email])
  {
    hide Find, LastAttempt;
    if i < |db.invitations| {
      var email := db.invitations[i].email;
      if email in dir { OneWanted(Marked(db.invitations, i, Revoked), dir, room, email, expiresAt); }
    }
  }

  lemma OneWanted(invitations: seq<Invitation>, dir: Directory, room: nat, email: string, expiresAt: int)
    requires email in dir
    ensures Resolved(dir, [email]) == Ok([Invitee(dir[email], email)])
    ensures var people := [Invitee(dir[email], email)];
            |Issued(invitations, room, StillWanted(invitations, room, people), expiresAt)|
            == |invitations| + (if Reinvitable(invitations, room, dir[email]) then 1 else 0)
  {
    hide Find, LastAttempt;
    var p := Invitee(dir[email], email);
    assert Resolved(dir, [email][..0]) == Ok([]);
    assert [] + [p] == [p];
    assert StillWanted(invitations, room, [p][..0]) == [];
    assert Issued(invitations, room, [p][..0], expiresAt) == invitations;
  }

  // ------------------------------------------------------------------ seats held by invitations

  /** Invitations are for classrooms that exist. */
  ghost predicate Rooted(db: Db) {
    forall i :: 0 <= i < |db.invitations| ==> db.invitations[i].room < |db.classrooms|
  }

  function Held(db: Db, room: nat): nat { Count(db.invitations, HeldIn(room)) }

  /** A re-send of an invitation that timed out, to somebody who holds no other, when all four seats are held. */
  predicate Overfills(db: Db, r: Request, room: nat) {
    && r.Resend? && r.room == room && Owns(db, room, r.hostId)
    && r.invitation < |db.invitations|
    && var inv := db.invitations[r.invitation];
    && inv.room == room && inv.status == TimedOut && inv.email in r.dir
    && Reinvitable(Marked(db.invitations, r.invitation, Revoked), room, r.dir[inv.email])
    && Held(db, room) == SEATS
  }

  lemma NobodyYet(db: Db, room: nat)
    requires Rooted(db) && room >= |db.classrooms|
    ensures Held(db, room) == 0
  {
    CountZero(db.invitations, HeldIn(room));
  }

  /** What an invitation run adds is all in its own classroom, and one seat at most for each address. */
  lemma InvitingHolds(db: Db, dir: Directory, room: nat, emails: seq<string>, expiresAt: int, r: nat)
    requires Invited(db, dir, room, emails, expiresAt).Ok?
    ensures var t := Invited(db, dir, room, emails, expiresAt).value;
            && Held(db, r) <= Held(t, r)
            && Held(t, r) <= Held(db, r) + (if r == room then |emails| else 0)
  {
    hide Count, Issued, StillWanted, Resolved;
    ResolvedLength(dir, emails);
    var people := Resolved(dir, emails).value;
    WantedAreFree(db.invitations, room, people);
    IssuingHolds(db.invitations, room, StillWanted(db.invitations, room, people), expiresAt, r);
  }

  /** Answering, starting, cancelling and the sweeps hold no seat that was not held before. */
  lemma ClosingFrees(a: seq<Invitation>, b: seq<Invitation>, room: nat)
    requires |a| == |b|
    requires forall i :: 0 <= i < |a| ==> (HeldIn(room)(b[i]) ==> HeldIn(room)(a[i]))
    ensures Count(b, HeldIn(room)) <= Count(a, HeldIn(room))
  {
    CountLeq(a, b, HeldIn(room), HeldIn(room));
  }

  lemma CreatingFits(db: Db, r: Request, room: nat)
    requires Rooted(db) && Held(db, room) <= SEATS && r.Create? && Handled(db, r).Ok?
    ensures Held(Committed(db, r), room) <= SEATS
  {
    hide Count, Cleaned, Invited;
    var cleaned := Cleaned(r.emails, r.host.email).value;
    var drafted := db.(classrooms := db.classrooms + [Classroom(r.host.user, Draft)]);
    InvitingHolds(drafted, r.dir, |db.classrooms|, cleaned, r.expiresAt, room);
    if room == |db.classrooms| { NobodyYet(db, room); }
  }

  lemma InvitingMoreHolds(db: Db, r: Request, room: nat)
    requires Held(db, room) <= SEATS && r.InviteMore? && Handled(db, r).Ok?
    ensures Held(Committed(db, r), room) <= SEATS
  {
    hide Count, Cleaned, Invited;
    InvitingMoreFits(db, r.dir, r.room, r.host, r.emails, r.expiresAt);
    if room != r.room {
      InvitingHolds(db, r.dir, r.room, Cleaned(r.emails, r.host.email).value, r.expiresAt, room);
    }
  }

  lemma ResendingFitsExactly(db: Db, r: Request, room: nat)
    requires Held(db, room) <= SEATS && r.Resend? && Handled(db, r).Ok?
    ensures Held(Committed(db, r), room) <= SEATS <==> !Overfills(db, r, room)
  {
    hide Count, Invited, Reinvitable;
    ResendSucceedsExactly(db, r.dir, r.room, r.hostId, r.invitation, r.expiresAt);
    if room == r.room {
      ResendingHolds(db, r.dir, room, r.hostId, r.invitation, r.expiresAt);
    } else {
      var revoked := db.(invitations := Marked(db.invitations, r.invitation, Revoked));
      ClosingFrees(db.invitations, revoked.invitations, room);
      InvitingHolds(revoked, r.dir, r.room, [db.invitations[r.invitation].email], r.expiresAt, room);
    }
  }

  lemma OthersOnlyClose(db: Db, r: Request, room: nat)
    requires !r.Create? && !r.InviteMore? && !r.Resend?
    ensures Held(Committed(db, r), room) <= Held(db, room)
  {
    hide Count, Seated, Find, Busy, Roster;
    ClosingFrees(db.invitations, Committed(db, r).invitations, room);
  }

  /**
   * Whatever is asked of a classroom with at most four seats held, at most four are held afterwards, unless an
   * invitation that timed out is successfully re-sent while all four are held; and then a fifth always is.
   */
  lemma HeldSeatsFitExactly(db: Db, r: Request, room: nat)
    requires Rooted(db) && Held(db, room) <= SEATS
    ensures Held(Committed(db, r), room) <= SEATS <==> !Overfills(db, r, room)
  {
    hide Count, Created, InvitedMore, Resent, Reinvitable, Responded, StartedDb, CancelledDb;
    if r.Resend? { ResendSucceedsExactly(db, r.dir, r.room, r.hostId, r.invitation, r.expiresAt); }
    if Handled(db, r).Ok? {
      match r
      case Create(_, _, _, _, _) => CreatingFits(db, r, room);
      case InviteMore(_, _, _, _, _) => InvitingMoreHolds(db, r, room);
      case Resend(_, _, _, _, _) => ResendingFitsExactly(db, r, room);
      case _ => OthersOnlyClose(db, r, room);
    }
  }

  // ------------------------------------------------------------------ over whole histories

  lemma {:induction false} IssuingIsRooted(
    invitations: seq<Invitation>, room: nat, people: seq<Invitee>, at: int, n: nat)
    requires forall i :: 0 <= i < |invitations| ==> invitations[i].room < n
    requires room < n
    ensures forall i :: 0 <= i < |Issued(invitations, room, people, at)| ==>
        Issued(invitations, room, people, at)[i].room < n
    decreases |people|
  {
    hide Find, LastAttempt;
    if people != [] { IssuingIsRooted(invitations, room, people[..|people| - 1], at, n); }
  }

  lemma InvitingIsRooted(db: Db, dir: Directory, room: nat, emails: seq<string>, expiresAt: int)
    requires Rooted(db) && room < |db.classrooms| && Invited(db, dir, room, emails, expiresAt).Ok?
    ensures Rooted(Invited(db, dir, room, emails, expiresAt).value)
  {
    hide Issued, StillWanted, Resolved;
    var people := Resolved(dir, emails).value;
    IssuingIsRooted(db.invitations, room, StillWanted(db.invitations, room, people), expiresAt, |db.classrooms|);
  }

  lemma CommittingIsRooted(db: Db, r: Request)
    requires Rooted(db)
    ensures Rooted(Committed(db, r))
  {
    hide Count, Find, Cleaned, Invited, Seated, Busy, Roster;
    if Handled(db, r).Ok? {
      match r
      case Create(dir, host, emails, _, expiresAt) =>
        var drafted := db.(classrooms := db.classrooms + [Classroom(host.user, Draft)]);
        InvitingIsRooted(drafted, dir, |db.classrooms|, Cleaned(emails, host.email).value, expiresAt);
      case InviteMore(dir, room, host, emails, expiresAt) =>
        InvitingIsRooted(db, dir, room, Cleaned(emails, host.email).value, expiresAt);
      case Resend(dir, room, _, i, expiresAt) =>
        var revoked := db.(invitations := Marked(db.invitations, i, Revoked));
        InvitingIsRooted(revoked, dir, room, [db.invitations[i].email], expiresAt);
      case _ =>
    }
  }

  /** At most four seats are held at every point of a history. */
  ghost predicate FitsThroughout(db: Db, requests: seq<Request>, room: nat)
    decreases |requests|
  {
    Held(db, room) <= SEATS && (requests != [] ==> FitsThroughout(Committed(db, requests[0]), requests[1..], room))
  }

  ghost predicate NeverOverfills(db: Db, requests: seq<Request>, room: nat)
    decreases |requests|
  {
    requests != [] ==>
      !Overfills(db, requests[0], room) && NeverOverfills(Committed(db, requests[0]), requests[1..], room)
  }

  lemma {:induction false} HistoryFitsExactly(db: Db, requests: seq<Request>, room: nat)
    requires Rooted(db) && Held(db, room) <= SEATS
    ensures FitsThroughout(db, requests, room) <==> NeverOverfills(db, requests, room)
    decreases |requests|
  {
    hide Committed, Count, Overfills, Rooted;
    if requests != [] {
      var t := Committed(db, requests[0]);
      HeldSeatsFitExactly(db, requests[0], room);
      CommittingIsRooted(db, requests[0]);
      if Held(t, room) <= SEATS { HistoryFitsExactly(t, requests[1..], room); }
    }
  }

  /** From nothing, a classroom holds at most four seats just as long as nobody re-sends over a full one. */
  lemma EveryHistoryFitsExactly(requests: seq<Request>, room: nat)
    ensures FitsThroughout(EMPTY, requests, room) <==> NeverOverfills(EMPTY, requests, room)
  {
    HistoryFitsExactly(EMPTY, requests, room);
  }

  // ------------------------------------------------------------------ a closed classroom

  predicate Closed(db: Db, room: nat) {
    room < |db.classrooms| && Final(db.classrooms[room].status)
  }

  /** Somebody is given a place, where there was none, in a session of this classroom. */
  ghost predicate GivesPlace(db: Db, t: Db, room: nat) {
    exists k :: |db.places| <= k < |t.places| && t.places[k].session < |t.sessions|
      && t.sessions[t.places[k].session].room == room
  }

  /** The host starts a classroom that has two people seated, none of them busy, and no session. */
  predicate StartsAfresh(db: Db, r: Request, room: nat) {
    && r.Start? && r.room == room && Owns(db, room, r.hostId)
    && Count(db.seats, SeatIn(room)) >= MIN_PARTICIPANTS
    && Find(db.sessions, SessionOf(room)) == |db.sessions|
    && !Busy(db.places, Roster(db.seats, room))
  }

  /** Making a session gives places in it alone, and to everybody seated. */
  lemma ProvisioningPlaces(db: Db, at: nat, room: nat)
    requires Provisioned(db, at).Ok?
    ensures var t := Provisioned(db, at).value;
            GivesPlace(db, t, room) <==>
              at == room && Find(db.sessions, SessionOf(at)) == |db.sessions| && Count(db.seats, SeatIn(at)) > 0
  {
    var t := Provisioned(db, at).value;
    SelectIs(db.seats, SeatIn(at));
    if t != db {
      assert forall k :: |db.places| <= k < |t.places| ==> t.places[k].session == |db.sessions|;
      if |Roster(db.seats, at)| > 0 { assert t.places[|db.places|].session == |db.sessions|; }
    }
  }

  lemma NothingAdded(db: Db, t: Db, room: nat)
    requires |t.places| == |db.places|
    ensures !GivesPlace(db, t, room)
  {
  }

  lemma StartingPlaces(db: Db, r: Request, room: nat)
    requires Closed(db, room) && r.Start?
    ensures GivesPlace(db, Committed(db, r), room) <==> StartsAfresh(db, r, room)
  {
    hide Count, Find, Busy, Roster;
    if StartedDb(db, r.room, r.hostId).Ok? {
      var closed := Advanced(db.(invitations := RevokedAll(db.invitations, r.room)), r.room, QuorumReached);
      if Find(db.sessions, SessionOf(r.room)) == |db.sessions| { ProvisioningPlaces(closed, r.room, room); }
    }
  }

  lemma AnsweringPlaces(db: Db, r: Request, room: nat)
    requires Closed(db, room) && r.Respond?
    ensures !GivesPlace(db, Committed(db, r), room)
  {
    hide Count, Find, Busy, Roster, Seated;
    if Handled(db, r).Ok? && r.accept {
      var inv := db.invitations[r.invitation];
      var seats := Seated(db.seats, inv.room, inv.user).value;
      var answered := db.(invitations := Marked(db.invitations, r.invitation, Accepted), seats := seats);
      var ready := answered.(classrooms := WithStatus(db.classrooms, inv.room, Ready),
                              invitations := RevokedAll(answered.invitations, inv.room));
      if Provisioned(ready, inv.room).Ok? { ProvisioningPlaces(ready, inv.room, room); }
    }
  }

  /**
   * Of all requests, sweeps and late writes, exactly one gives anybody a place in a classroom that was cancelled,
   * expired or completed: its host starting it with two people seated, all free, when it never had a session.
   */
  lemma ClosedStaysClosedExactly(db: Db, r: Request, room: nat)
    requires Closed(db, room)
    ensures GivesPlace(db, Committed(db, r), room) <==> StartsAfresh(db, r, room)
    ensures StartsAfresh(db, r, room) ==> Closed(Committed(db, r), room)
  {
    hide Count, Find, Busy, Roster, Seated, Cleaned, Resolved, Issued, StillWanted, LeftEach, GivesPlace;
    match r
    case Start(_, _) => StartingPlaces(db, r, room);
    case Respond(_, _, _, _) => AnsweringPlaces(db, r, room);
    case FlushTranscript(session, users) =>
      LeavingEach(db.places, session, users);
      NothingAdded(db, Committed(db, r), room);
    case _ => NothingAdded(db, Committed(db, r), room);
  }

  /** The runner reports that the session of this classroom was aborted. */
  predicate ReportsAbort(db: Db, r: Request, room: nat) {
    r.CompleteClassroom? && r.aborted && r.session < |db.sessions| && db.sessions[r.session].room == room
  }

  /** The table lets nothing out of a final status, but the runner's report does not ask the table. */
  lemma FinalIsLeftExactly(db: Db, r: Request, room: nat)
    requires Closed(db, room)
    ensures Closed(Committed(db, r), room) <==> !ReportsAbort(db, r, room)
    ensures ReportsAbort(db, r, room) ==> Committed(db, r).classrooms[room].status == Ready
  {
    hide Count, Find, Busy, Roster, Seated, Cleaned, Resolved, Issued, StillWanted, LeftEach;
  }

  // ------------------------------------------------------------------ people invited for the first time

  function InviteesOf(dir: Directory, emails: seq<string>): seq<Invitee>
    requires forall k :: 0 <= k < |emails| ==> emails[k] in dir
  {
    seq(|emails|, k requires 0 <= k < |emails| => Invitee(dir[emails[k]], emails[k]))
  }

  function FirstInvitations(room: nat, people: seq<Invitee>, expiresAt: int): seq<Invitation> {
    seq(|people|, k requires 0 <= k < |people| =>
      Invitation(room, people[k].user, 1, Pending, people[k].email, expiresAt))
  }

  predicate Unknown(invitations: seq<Invitation>, room: nat, u: UserId) {
    forall i :: 0 <= i < |invitations| ==> !(invitations[i].room == room && invitations[i].user == u)
  }

  predicate Distinct(people: seq<Invitee>) {
    forall i, j :: 0 <= i < j < |people| ==> people[i].user != people[j].user
  }

  lemma {:induction false} AlreadyClean(emails: seq<string>, host: string)
    requires forall k :: 0 <= k < |emails| ==>
        Tidy(emails[k]) == emails[k] && emails[k] != "" && emails[k] != Text.Lower(host)
    requires forall i, j :: 0 <= i < j < |emails| ==> emails[i] != emails[j]
    ensures Cleaned(emails, host) == Ok(emails)
    decreases |emails|
  {
    hide Tidy, Text.Lower;
    if emails != [] {
      AlreadyClean(emails[..|emails| - 1], host);
      assert emails == emails[..|emails| - 1] + [emails[|emails| - 1]];
    }
  }

  lemma {:induction false} AllResolved(dir: Directory, emails: seq<string>)
    requires forall k :: 0 <= k < |emails| ==> emails[k] in dir
    ensures Resolved(dir, emails) == Ok(InviteesOf(dir, emails))
    decreases |emails|
  {
    if emails != [] {
      AllResolved(dir, emails[..|emails| - 1]);
      assert InviteesOf(dir, emails)
        == InviteesOf(dir, emails[..|emails| - 1]) + [Invitee(dir[emails[|emails| - 1]], emails[|emails| - 1])];
    }
  }

  lemma {:induction false} AllWanted(invitations: seq<Invitation>, room: nat, people: seq<Invitee>)
    requires forall k :: 0 <= k < |people| ==> Reinvitable(invitations, room, people[k].user)
    ensures StillWanted(invitations, room, people) == people
    decreases |people|
  {
    hide Reinvitable;
    if people != [] {
      AllWanted(invitations, room, people[..|people| - 1]);
      assert people == people[..|people| - 1] + [people[|people| - 1]];
    }
  }

  lemma {:induction false} NeverAttempted(invitations: seq<Invitation>, room: nat, u: UserId)
    requires Unknown(invitations, room, u)
    ensures LastAttempt(invitations, room, u) == 0
    decreases |invitations|
  {
    if invitations != [] { NeverAttempted(invitations[..|invitations| - 1], room, u); }
  }

  lemma IssuedFirst(invitations: seq<Invitation>, room: nat, p: Invitee, expiresAt: int)
    requires Unknown(invitations, room, p.user)
    ensures IssuedOne(invitations, room, p, expiresAt)
         == invitations + [Invitation(room, p.user, 1, Pending, p.email, expiresAt)]
  {
    NeverAttempted(invitations, room, p.user);
  }

  lemma StillUnknown(invitations: seq<Invitation>, room: nat, people: seq<Invitee>, expiresAt: int, u: UserId)
    requires Unknown(invitations, room, u) && forall k :: 0 <= k < |people| ==> people[k].user != u
    ensures Unknown(invitations + FirstInvitations(room, people, expiresAt), room, u)
  {
  }

  lemma {:induction false} AllIssued(invitations: seq<Invitation>, room: nat, people: seq<Invitee>, expiresAt: int)
    requires Distinct(people) && forall k :: 0 <= k < |people| ==> Unknown(invitations, room, people[k].user)
    ensures Issued(invitations, room, people, expiresAt) == invitations + FirstInvitations(room, people, expiresAt)
    decreases |people|
  {
    hide IssuedOne, Unknown;
    if people == [] {
      assert FirstInvitations(room, people, expiresAt) == [];
    } else {
      var front, p := people[..|people| - 1], people[|people| - 1];
      AllIssued(invitations, room, front, expiresAt);
      var first := FirstInvitations(room, front, expiresAt);
      StillUnknown(invitations, room, front, expiresAt, p.user);
      IssuedFirst(invitations + first, room, p, expiresAt);
      var one := [Invitation(room, p.user, 1, Pending, p.email, expiresAt)];
      assert FirstInvitations(room, people, expiresAt) == first + one;
      assert (invitations + first) + one == invitations + (first + one);
    }
  }

  lemma FirstInvited(db: Db, dir: Directory, room: nat, emails: seq<string>, expiresAt: int)
    requires forall k :: 0 <= k < |emails| ==> emails[k] in dir
    requires Distinct(InviteesOf(dir, emails))
    requires forall k :: 0 <= k < |emails| ==> Unknown(db.invitations, room, dir[emails[k]])
    ensures Invited(db, dir, room, emails, expiresAt)
         == Ok(db.(invitations := db.invitations + FirstInvitations(room, InviteesOf(dir, emails), expiresAt)))
  {
    hide Issued, StillWanted, Resolved, Count;
    var people := InviteesOf(dir, emails);
    AllResolved(dir, emails);
    forall k | 0 <= k < |people|
      ensures Reinvitable(db.invitations, room, people[k].user)
    {
      assert Unknown(db.invitations, room, dir[emails[k]]);
    }
    AllWanted(db.invitations, room, people);
    AllIssued(db.invitations, room, people, expiresAt);
  }

  // ------------------------------------------------------------------ two histories

  const HOST: Account := Account(0, "h")
  const PEOPLE: Directory := map["a" := 1, "b" := 2, "c" := 3, "d" := 4, "e" := 5]
  const FOUR: seq<string> := ["a", "b", "c", "d"]
  const THREE: seq<string> := ["a", "b", "c"]

  /** Four people are invited, the first never answers, a fifth is invited in their stead, and then the first again. */
  const OVERFILLED: seq<Request> := [
    Create(PEOPLE, HOST, FOUR, true, 0),
    ExpireInvitations({0}, 1),
    InviteMore(PEOPLE, 0, HOST, ["e"], 9),
    Resend(PEOPLE, 0, HOST.user, 0, 9)]

  /** Three people are invited, two accept, the host cancels, and then starts. */
  const RESTARTED: seq<Request> := [
    Create(PEOPLE, HOST, THREE, true, 0),
    Respond(0, 1, true, 0),
    Respond(1, 2, true, 0),
    Cancel(0, HOST.user),
    Start(0, HOST.user)]

  lemma OneLetter(c: char)
    requires 'a' <= c <= 'z'
    ensures Tidy([c]) == [c] && Text.Lower([c]) == [c]
  {
    assert Text.Lower([c]) == [c] + Text.Lower("");
  }

  /** The classroom just after its host asked for it. */
  function Asked(emails: seq<string>): Db
    requires forall k :: 0 <= k < |emails| ==> emails[k] in PEOPLE
  {
    Db([Classroom(HOST.user, Inviting)], FirstInvitations(0, InviteesOf(PEOPLE, emails), 0), [], [], [])
  }

  lemma LettersAreClean(emails: seq<string>)
    requires forall k :: 0 <= k < |emails| ==> |emails[k]| == 1 && 'a' <= emails[k][0] <= 'g'
    requires forall i, j :: 0 <= i < j < |emails| ==> emails[i] != emails[j]
    ensures Cleaned(emails, HOST.email) == Ok(emails)
  {
    hide Tidy, Text.Lower, Cleaned;
    OneLetter('h');
    forall k | 0 <= k < |emails|
      ensures Tidy(emails[k]) == emails[k]
    {
      OneLetter(emails[k][0]);
      assert emails[k] == [emails[k][0]];
    }
    AlreadyClean(emails, HOST.email);
  }

  lemma Asking(emails: seq<string>)
    requires emails == FOUR || emails == THREE
    ensures Committed(EMPTY, Create(PEOPLE, HOST, emails, true, 0)) == Asked(emails)
  {
    hide Cleaned, Invited, FirstInvitations;
    LettersAreClean(emails);
    var drafted := EMPTY.(classrooms := EMPTY.classrooms + [Classroom(HOST.user, Draft)]);
    FirstInvited(drafted, PEOPLE, 0, emails, 0);
    var first := FirstInvitations(0, InviteesOf(PEOPLE, emails), 0);
    assert [] + first == first;
    assert WithStatus(drafted.classrooms, 0, Inviting) == [Classroom(HOST.user, Inviting)];
  }

  lemma {:induction false} CountAll<T>(rows: seq<T>, query: T -> bool)
    requires forall i :: 0 <= i < |rows| ==> query(rows[i])
    ensures Count(rows, query) == |rows|
    decreases |rows|
  {
    if rows != [] { CountAll(rows[..|rows| - 1], query); }
  }

  /** A classroom with seats for four comes to hold five. */
  lemma FiveSeatsHeld()
    ensures Held(History(EMPTY, OVERFILLED), 0) == SEATS + 1
  {
    hide Count, Find, Handled, LastAttempt, Tidy, Text.Lower;
    var four := Asked(FOUR);
    Asking(FOUR);
    CountAll(four.invitations, HeldIn(0));
    var three := four.(invitations := Marked(four.invitations, 0, TimedOut));
    OneTimesOut(four, three);
    CountUpdate(four.invitations, 0, three.invitations[0], HeldIn(0));
    var again := FifthInvited(three);
    FirstInvitedAgain(again);
    HistoryOfFour(EMPTY, OVERFILLED);
  }

  lemma HistoryOfFour(db: Db, requests: seq<Request>)
    requires |requests| == 4
    ensures History(db, requests)
         == Committed(Committed(Committed(Committed(db, requests[0]), requests[1]), requests[2]), requests[3])
  {
    hide Committed;
    var d1 := Committed(db, requests[0]);
    var d2 := Committed(d1, requests[1]);
    var d3 := Committed(d2, requests[2]);
    assert History(d3, requests[3..]) == History(Committed(d3, requests[3]), requests[4..]);
    assert History(d2, requests[2..]) == History(d3, requests[3..]);
    assert History(d1, requests[1..]) == History(d2, requests[2..]);
  }

  lemma OneTimesOut(four: Db, three: Db)
    requires four == Asked(FOUR) && three == four.(invitations := Marked(four.invitations, 0, TimedOut))
    ensures Committed(four, OVERFILLED[1]) == three
  {
    assert Overdue(four.invitations, {0}, 1) == three.invitations;
  }

  lemma FifthInvited(three: Db) returns (again: Db)
    requires three == Asked(FOUR).(invitations := Marked(Asked(FOUR).invitations, 0, TimedOut)) && Held(three, 0) == 3
    ensures again == Committed(three, OVERFILLED[2]) && Held(again, 0) == 4
    ensures again == three.(invitations := three.invitations + [Invitation(0, 5, 1, Pending, "e", 9)])
  {
    hide Count, Cleaned, Invited;
    LettersAreClean(["e"]);
    FirstInvited(three, PEOPLE, 0, ["e"], 9);
    again := three.(invitations := three.invitations + [Invitation(0, 5, 1, Pending, "e", 9)]);
    assert FirstInvitations(0, InviteesOf(PEOPLE, ["e"]), 9) == [Invitation(0, 5, 1, Pending, "e", 9)];
    CountAppend(three.invitations, Invitation(0, 5, 1, Pending, "e", 9), HeldIn(0));
  }

  lemma FirstInvitedAgain(db: Db)
    requires db == Asked(FOUR).(invitations := Marked(Asked(FOUR).invitations, 0, TimedOut)
                                             + [Invitation(0, 5, 1, Pending, "e", 9)])
    requires Held(db, 0) == 4
    ensures Held(Committed(db, OVERFILLED[3]), 0) == 5
  {
    hide Count, Resent;
    ResendSucceedsExactly(db, PEOPLE, 0, HOST.user, 0, 9);
    ResendingHolds(db, PEOPLE, 0, HOST.user, 0, 9);
  }

  /** The classroom once the first two have accepted, and its host has cancelled. */
  function TwoSeated(status: ClassroomStatus): Db {
    var asked := Asked(THREE);
    var answered := Marked(Marked(asked.invitations, 0, Accepted), 1, Accepted);
    Db([Classroom(HOST.user, status)],
       if status == Cancelled then RevokedAll(answered, 0) else answered,
       [Seat(0, 1, 1), Seat(0, 2, 2)], [], [])
  }

  lemma FirstAccepts()
    ensures Committed(Asked(THREE), RESTARTED[1])
         == Asked(THREE).(invitations := Marked(Asked(THREE).invitations, 0, Accepted), seats := [Seat(0, 1, 1)])
  {
    assert FreeSeatFrom([], 0, 1) == Some(1);
    assert [] + [Seat(0, 1, 1)] == [Seat(0, 1, 1)];
    CountAppend([], Seat(0, 1, 1), SeatIn(0));
  }

  lemma SecondIsSeated()
    ensures Seated([Seat(0, 1, 1)], 0, 2) == Ok([Seat(0, 1, 1), Seat(0, 2, 2)])
  {
    hide Count;
    var seats := [Seat(0, 1, 1)];
    CountZero(seats, SeatAt(0, 1));
    assert SeatAt(0, 1)(seats[0]);
    CountZero(seats, SeatAt(0, 2));
    assert FreeSeatFrom(seats, 0, 2) == Some(2);
    assert FreeSeatFrom(seats, 0, 1) == Some(2);
    assert seats + [Seat(0, 2, 2)] == [Seat(0, 1, 1), Seat(0, 2, 2)];
  }

  lemma ThirdStillDecides(db: Db)
    requires db == TwoSeated(Inviting)
    ensures QuorumChecked(db, 0) == Ok(db)
  {
    hide Count;
    CountZero(db.invitations, PendingIn(0));
    assert PendingIn(0)(db.invitations[2]);
    TwoSeats();
  }

  lemma SecondAccepts(db: Db)
    requires db == Asked(THREE).(invitations := Marked(Asked(THREE).invitations, 0, Accepted), seats := [Seat(0, 1, 1)])
    ensures Committed(db, RESTARTED[2]) == TwoSeated(Inviting)
  {
    hide Seated, QuorumChecked;
    SecondIsSeated();
    ThirdStillDecides(TwoSeated(Inviting));
  }

  lemma {:induction false} AllSelected<T>(rows: seq<T>, query: T -> bool)
    requires forall i :: 0 <= i < |rows| ==> query(rows[i])
    ensures Select(rows, query) == rows
    decreases |rows|
  {
    if rows != [] {
      AllSelected(rows[..|rows| - 1], query);
      assert rows == rows[..|rows| - 1] + [rows[|rows| - 1]];
    }
  }

  lemma TwoSeats()
    ensures Count([Seat(0, 1, 1), Seat(0, 2, 2)], SeatIn(0)) == 2
  {
    CountAll([Seat(0, 1, 1), Seat(0, 2, 2)], SeatIn(0));
  }

  lemma HostCancels()
    ensures Committed(TwoSeated(Inviting), RESTARTED[3]) == TwoSeated(Cancelled)
  {
  }

  /** A cancelled classroom gets a session, with a place for both who were seated. */
  lemma CancelledIsStarted()
    ensures var t := History(EMPTY, RESTARTED);
            && t.classrooms == [Classroom(HOST.user, Cancelled)]
            && t.sessions == [SessionRow(0, Awaiting)]
            && t.places == [Place(0, 1, 1, false), Place(0, 2, 2, false)]
  {
    hide Handled, TwoSeated;
    Asking(THREE);
    FirstAccepts();
    SecondAccepts(Committed(Asked(THREE), RESTARTED[1]));
    HostCancels();
    StartedAgain();
    HistoryOfFour(EMPTY, RESTARTED[..4]);
    HistorySplits(EMPTY, RESTARTED[..4], RESTARTED[4..]);
    assert RESTARTED == RESTARTED[..4] + RESTARTED[4..];
    assert History(TwoSeated(Cancelled), RESTARTED[4..]) == Committed(TwoSeated(Cancelled), RESTARTED[4]);
  }

  lemma {:induction false} HistorySplits(db: Db, first: seq<Request>, rest: seq<Request>)
    ensures History(db, first + rest) == History(History(db, first), rest)
    decreases |first|
  {
    hide Committed;
    if first == [] {
      assert first + rest == rest;
    } else {
      assert (first + rest)[1..] == first[1..] + rest;
      HistorySplits(Committed(db, first[0]), first[1..], rest);
    }
  }

  lemma StartedAgain()
    ensures var t := Committed(TwoSeated(Cancelled), RESTARTED[4]);
            && t.classrooms == [Classroom(HOST.user, Cancelled)]
            && t.sessions == [SessionRow(0, Awaiting)]
            && t.places == [Place(0, 1, 1, false), Place(0, 2, 2, false)]
  {
    TwoSeats();
    var seats := [Seat(0, 1, 1), Seat(0, 2, 2)];
    AllSelected(seats, SeatIn(0));
    assert PlacesFor(0, seats) == [Place(0, 1, 1, false), Place(0, 2, 2, false)];
    assert !Busy([], seats);
  }
}
