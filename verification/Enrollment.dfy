/**
 * The requests that span classrooms, invitations and sessions (backend/app/application/enrollment.py). Each is one
 * serial transaction: it either happens as a whole or, when it raises, leaves every row as it was.
 */
module Enrollment {
  import opened Common
  import opened Records
  import opened Invitations
  import opened Rooms
  import opened Discussions
  import Text

  /** Who answers to an address; addresses are unique among accounts. */
  type Directory = map<string, UserId>

  datatype Account = Account(user: UserId, email: string)

  // ------------------------------------------------------------------ inviting

  /** An address as it is compared: lower-cased and stripped. */
  function Tidy(raw: string): string { Text.Strip(Text.Lower(raw)) }

  /** The addresses to write to; naming the host is refused. */
  function Cleaned(emails: seq<string>, host: string): Result<seq<string>>
    decreases |emails|
  {
    if emails == [] then Ok([])
    else
      match Cleaned(emails[..|emails| - 1], host)
      case Err(e) => Err(e)
      case Ok(seen) =>
        var email := Tidy(emails[|emails| - 1]);
        if email == "" then Ok(seen)
        else if email == Text.Lower(host) then Err(Invalid)
        else if email in seen then Ok(seen)
        else Ok(seen + [email])
  }

  /** Once an address is refused, so is every longer list. */
  lemma {:induction false} RefusedStaysRefused(emails: seq<string>, host: string, k: nat)
    requires k <= |emails| && Cleaned(emails[..k], host).Err?
    ensures Cleaned(emails, host) == Cleaned(emails[..k], host)
    decreases |emails|
  {
    if k < |emails| {
      assert emails[..|emails| - 1][..k] == emails[..k];
      RefusedStaysRefused(emails[..|emails| - 1], host, k);
    } else {
      assert emails[..k] == emails;
    }
  }

  /** Tidied, without blanks and repeats, without the host, and with everybody else who was named. */
  ghost predicate Clean(cleaned: seq<string>, emails: seq<string>, host: string) {
    && (forall i, j :: 0 <= i < j < |cleaned| ==> cleaned[i] != cleaned[j])
    && (forall e :: e in cleaned ==>
          e != "" && e != Text.Lower(host) && exists k :: 0 <= k < |emails| && e == Tidy(emails[k]))
    && (forall k :: 0 <= k < |emails| ==> Tidy(emails[k]) == "" || Tidy(emails[k]) in cleaned)
  }

  /** The host is named: some address is the host's once both are tidied. */
  ghost predicate NamesHost(emails: seq<string>, host: string) {
    exists k :: 0 <= k < |emails| && Tidy(emails[k]) != "" && Tidy(emails[k]) == Text.Lower(host)
  }

  /** Cleaning is refused exactly when the host is named, and otherwise leaves everybody else, each once. */
  lemma {:induction false} CleaningIsExact(emails: seq<string>, host: string)
    ensures Cleaned(emails, host) == Err(Invalid) <==> NamesHost(emails, host)
    ensures Cleaned(emails, host).Ok? <==> !NamesHost(emails, host)
    ensures Cleaned(emails, host).Ok? ==> Clean(Cleaned(emails, host).value, emails, host)
    decreases |emails|
  {
    hide Tidy, Text.Lower;
    if emails != [] {
      var last := |emails| - 1;
      var front := emails[..last];
      CleaningIsExact(front, host);
      assert forall k :: 0 <= k < last ==> front[k] == emails[k];
    }
  }

  /** Addresses keep the order in which they were first named: naming more only adds to the end. */
  lemma {:induction false} CleaningAddsToTheEnd(emails: seq<string>, host: string, k: nat)
    requires k <= |emails| && Cleaned(emails, host).Ok?
    ensures Cleaned(emails[..k], host).Ok? && Cleaned(emails[..k], host).value <= Cleaned(emails, host).value
    decreases |emails|
  {
    hide Tidy, Text.Lower;
    if k < |emails| {
      assert emails[..|emails| - 1][..k] == emails[..k];
      CleaningAddsToTheEnd(emails[..|emails| - 1], host, k);
    } else {
      assert emails[..k] == emails;
    }
  }

  /** The accounts behind the addresses, in the order given; an unknown address is refused. */
  function Resolved(dir: Directory, emails: seq<string>): Result<seq<Invitee>>
    decreases |emails|
  {
    if emails == [] then Ok([])
    else
      match Resolved(dir, emails[..|emails| - 1])
      case Err(e) => Err(e)
      case Ok(people) =>
        var email := emails[|emails| - 1];
        if email !in dir then Err(NotFound) else Ok(people + [Invitee(dir[email], email)])
  }

  /** No open or accepted invitation is left to honour. */
  predicate Reinvitable(invitations: seq<Invitation>, room: nat, u: UserId) {
    && Find(invitations, PendingFor(room, u)) == |invitations|
    && Find(invitations, AcceptedFor(room, u)) == |invitations|
  }

  function StillWanted(invitations: seq<Invitation>, room: nat, people: seq<Invitee>): seq<Invitee> {
    if people == [] then []
    else
      var last := people[|people| - 1];
      StillWanted(invitations, room, people[..|people| - 1])
        + (if Reinvitable(invitations, room, last.user) then [last] else [])
  }

  function Invited(db: Db, dir: Directory, room: nat, emails: seq<string>, expiresAt: int): Result<Db> {
    match Resolved(dir, emails)
    case Err(e) => Err(e)
    case Ok(people) =>
      Ok(db.(invitations := Issued(db.invitations, room, StillWanted(db.invitations, room, people), expiresAt)))
  }

  /** `allowed`: the creator may host and the topic is available. */
  function Created(db: Db, dir: Directory, host: Account, emails: seq<string>, allowed: bool, expiresAt: int)
    : Result<Db>
  {
    match Cleaned(emails, host.email)
    case Err(e) => Err(e)
    case Ok(cleaned) =>
      if !(MIN_PARTICIPANTS <= |cleaned| <= SEATS) then Err(Invalid)
      else if !allowed then Err(NotAllowed)
      else
        var room := |db.classrooms|;
        match Invited(db.(classrooms := db.classrooms + [Classroom(host.user, Draft)]), dir, room, cleaned, expiresAt)
        case Err(e) => Err(e)
        case Ok(t) => Ok(t.(classrooms := WithStatus(t.classrooms, room, Inviting)))
  }

  predicate Owns(db: Db, room: nat, u: UserId) { room < |db.classrooms| && db.classrooms[room].host == u }

  function InvitedMore(db: Db, dir: Directory, room: nat, host: Account, emails: seq<string>, expiresAt: int)
    : Result<Db>
  {
    if room >= |db.classrooms| then Err(NotFound)
    else if !Owns(db, room, host.user) then Err(NotAllowed)
    else if db.classrooms[room].status !in {Inviting, Ready} then Err(Conflict)
    else
      match Cleaned(emails, host.email)
      case Err(e) => Err(e)
      case Ok(cleaned) =>
        var held := Count(db.invitations, HeldIn(room));
        if held >= SEATS then Err(Conflict)
        else if |cleaned| > SEATS - held then Err(Invalid)
        else Invited(db, dir, room, cleaned, expiresAt)
  }

  /** Close one invitation and issue another to whoever answers to its address now. */
  function Resent(db: Db, dir: Directory, room: nat, host: UserId, i: nat, expiresAt: int): Result<Db> {
    if room >= |db.classrooms| then Err(NotFound)
    else if !Owns(db, room, host) then Err(NotAllowed)
    else if i >= |db.invitations| || db.invitations[i].room != room then Err(NotFound)
    else if db.invitations[i].status !in {Pending, TimedOut} then Err(Conflict)
    else
      var revoked := db.(invitations := Marked(db.invitations, i, Revoked));
      match Invited(revoked, dir, room, [db.invitations[i].email], expiresAt)
      case Err(e) => Err(e)
      case Ok(t) => if |t.invitations| == |db.invitations| then Err(Conflict) else Ok(t)
  }

  // ------------------------------------------------------------------ answering

  /** Open the room once nobody is still deciding, or every seat is taken, and at least two said yes. */
  function QuorumChecked(db: Db, room: nat): Result<Db>
    requires room < |db.classrooms|
  {
    var seated := Count(db.seats, SeatIn(room));
    if seated < MIN_PARTICIPANTS || db.classrooms[room].status == Ready then Ok(db)
    else if Count(db.invitations, PendingIn(room)) > 0 && seated < SEATS then Ok(db)
    else
      match NextStatus(db.classrooms[room].status, QuorumReached)
      case None => Err(IllegalTransition)
      case Some(s) =>
        var closed := RevokedAll(db.invitations, room);
        Provisioned(db.(classrooms := WithStatus(db.classrooms, room, s), invitations := closed), room)
  }

  function Responded(db: Db, i: nat, u: UserId, accept: bool, now: int): Result<Db> {
    match Opened(db.invitations, i, u, now)
    case Err(e) => Err(e)
    case Ok(inv) => Answered(db, i, inv, accept)
  }

  function Answered(db: Db, i: nat, inv: Invitation, accept: bool): Result<Db>
    requires i < |db.invitations| && db.invitations[i] == inv
  {
    if inv.room >= |db.classrooms| then Err(NotFound)
    else if db.classrooms[inv.room].status !in {Inviting, Ready} then Err(Conflict)
    else if !accept then Ok(db.(invitations := Marked(db.invitations, i, Rejected)))
    else
      match Seated(db.seats, inv.room, inv.user)
      case Err(e) => Err(e)
      case Ok(seats) =>
        QuorumChecked(db.(invitations := Marked(db.invitations, i, Accepted), seats := seats), inv.room)
  }

  // ------------------------------------------------------------------ starting and cancelling

  /** Early or not, whoever has accepted is enough; the status of the classroom is moved only where the table allows. */
  function StartedDb(db: Db, room: nat, host: UserId): Result<Db> {
    if room >= |db.classrooms| then Err(NotFound)
    else if !Owns(db, room, host) then Err(NotAllowed)
    else if Count(db.seats, SeatIn(room)) < MIN_PARTICIPANTS then Err(NotReady)
    else
      match Opening(db, room)
      case Err(e) => Err(e)
      case Ok(t) => Ok(Advanced(t, room, Started))
  }

  function Advanced(db: Db, room: nat, e: RoomEvent): Db
    requires room < |db.classrooms|
  {
    match NextStatus(db.classrooms[room].status, e)
    case Some(s) => db.(classrooms := WithStatus(db.classrooms, room, s))
    case None => db
  }

  /** A session is made now if there is none yet. */
  function Opening(db: Db, room: nat): (r: Result<Db>)
    requires room < |db.classrooms|
    ensures r.Ok? ==> |r.value.classrooms| == |db.classrooms|
  {
    if Find(db.sessions, SessionOf(room)) < |db.sessions| then Ok(db)
    else Provisioned(Advanced(db.(invitations := RevokedAll(db.invitations, room)), room, QuorumReached), room)
  }

  function CancelledDb(db: Db, room: nat, host: UserId): Result<Db> {
    if room >= |db.classrooms| then Err(NotFound)
    else if !Owns(db, room, host) then Err(NotAllowed)
    else if db.classrooms[room].status in {Completed, Cancelled, Expired} then Err(Conflict)
    else
      match NextStatus(db.classrooms[room].status, CancelledByHost)
      case None => Err(IllegalTransition)
      case Some(s) =>
        var t := db.(classrooms := WithStatus(db.classrooms, room, s), invitations := RevokedAll(db.invitations, room));
        var i := Find(t.sessions, SessionOf(room));
        Ok(if i < |t.sessions| then AbortedDb(t, i) else t)
  }

  // ------------------------------------------------------------------ the service

  /** What a caller sees: nothing, or the error; and the rows are the specification's, or untouched. */
  ghost predicate Outcome(spec: Result<Db>, before: Db, after: Db, error: Option<Error>) {
    match spec
    case Ok(db) => error == None && after == db
    case Err(e) => error == Some(e) && after == before
  }

  class EnrollmentService {
    const store: Store
    const classrooms: ClassroomService
    const invitations: InvitationService
    const sessions: SessionService

    ghost predicate Valid() {
      classrooms.store == store && invitations.store == store && sessions.store == store
    }

    constructor (store: Store)
      ensures Valid() && this.store == store
    {
      this.store := store;
      classrooms := new ClassroomService(store);
      invitations := new InvitationService(store);
      sessions := new SessionService(store);
    }

    /** Each method below is one request: it works on the rows as it goes, and rolls back when it raises. */
    method CreateClassroom(dir: Directory, host: Account, emails: seq<string>, allowed: bool, expiresAt: int)
      returns (error: Option<Error>)
      requires Valid()
      modifies store
      ensures Outcome(Created(old(store.View()), dir, host, emails, allowed, expiresAt),
                      old(store.View()), store.View(), error)
    {
      var cleaned := CleanEmails(emails, host.email);
      if cleaned.Err? { return Some(cleaned.error); }
      if !(MIN_PARTICIPANTS <= |cleaned.value| <= SEATS) { return Some(Invalid); }
      if !allowed { return Some(NotAllowed); }
      var before := store.View();
      var room := |store.classrooms|;
      store.classrooms := store.classrooms + [Classroom(host.user, Draft)];
      var issued := Invite(dir, room, cleaned.value, expiresAt);
      if issued.Err? {
        store.Rollback(before);
        return Some(issued.error);
      }
      var moved := classrooms.Transition(room, InvitationsSent);
      return None;
    }

    method InviteMore(dir: Directory, room: nat, host: Account, emails: seq<string>, expiresAt: int)
      returns (error: Option<Error>)
      requires Valid()
      modifies store
      ensures Outcome(InvitedMore(old(store.View()), dir, room, host, emails, expiresAt),
                      old(store.View()), store.View(), error)
    {
      if room >= |store.classrooms| { return Some(NotFound); }
      if store.classrooms[room].host != host.user { return Some(NotAllowed); }
      if store.classrooms[room].status !in {Inviting, Ready} { return Some(Conflict); }
      var cleaned := CleanEmails(emails, host.email);
      if cleaned.Err? { return Some(cleaned.error); }
      var free: int := SEATS - Count(store.invitations, HeldIn(room));
      if free <= 0 { return Some(Conflict); }
      if |cleaned.value| > free { return Some(Invalid); }
      var issued := Invite(dir, room, cleaned.value, expiresAt);
      return if issued.Err? then Some(issued.error) else None;
    }

    method Resend(dir: Directory, room: nat, host: UserId, i: nat, expiresAt: int) returns (error: Option<Error>)
      requires Valid()
      modifies store
      ensures Outcome(Resent(old(store.View()), dir, room, host, i, expiresAt), old(store.View()), store.View(), error)
    {
      if room >= |store.classrooms| { return Some(NotFound); }
      if store.classrooms[room].host != host { return Some(NotAllowed); }
      if i >= |store.invitations| || store.invitations[i].room != room { return Some(NotFound); }
      if store.invitations[i].status !in {Pending, TimedOut} { return Some(Conflict); }
      var before := store.View();
      var email := store.invitations[i].email;
      invitations.Revoke(i);
      var issued := Invite(dir, room, [email], expiresAt);
      error := if issued.Err? then Some(issued.error) else if issued.value == 0 then Some(Conflict) else None;
      if error.Some? { store.Rollback(before); }
    }

    method Invite(dir: Directory, room: nat, emails: seq<string>, expiresAt: int) returns (issued: Result<nat>)
      requires Valid()
      modifies store`invitations
      ensures match Invited(old(store.View()), dir, room, emails, expiresAt)
              case Ok(db) => issued == Ok(|db.invitations| - |old(store.invitations)|) && store.View() == db
              case Err(e) => issued == Err(e) && store.View() == old(store.View())
    {
      var people := Resolved(dir, emails);
      if people.Err? { return Err(people.error); }
      var wanted := [];
      for k := 0 to |people.value|
        invariant wanted == StillWanted(store.invitations, room, people.value[..k])
      {
        assert people.value[..k + 1][..k] == people.value[..k];
        if Reinvitable(store.invitations, room, people.value[k].user) { wanted := wanted + [people.value[k]]; }
      }
      assert people.value[..|people.value|] == people.value;
      var n := invitations.Issue(room, wanted, expiresAt);
      return Ok(n);
    }

    method CleanEmails(emails: seq<string>, host: string) returns (r: Result<seq<string>>)
      ensures r == Cleaned(emails, host)
      ensures r == Err(Invalid) <==> NamesHost(emails, host)
      ensures r.Ok? ==> Clean(r.value, emails, host)
    {
      hide Tidy, Text.Lower;
      CleaningIsExact(emails, host);
      var seen := [];
      for k := 0 to |emails|
        invariant Cleaned(emails[..k], host) == Ok(seen)
      {
        assert emails[..k + 1][..k] == emails[..k];
        var email := Tidy(emails[k]);
        if email == "" { continue; }
        if email == Text.Lower(host) {
          RefusedStaysRefused(emails, host, k + 1);
          return Err(Invalid);
        }
        if email !in seen { seen := seen + [email]; }
      }
      assert emails[..|emails|] == emails;
      return Ok(seen);
    }

    method Respond(i: nat, u: UserId, accept: bool, now: int) returns (error: Option<Error>)
      requires Valid()
      modifies store
      ensures Outcome(Responded(old(store.View()), i, u, accept, now), old(store.View()), store.View(), error)
    {
      var before := store.View();
      var loaded := invitations.LoadOpen(i, u, now);
      if loaded.Err? {
        error := Some(loaded.error);
      } else {
        error := ApplyResponse(i, loaded.value, u, accept);
      }
      if error.Some? { store.Rollback(before); }
    }

    method ApplyResponse(i: nat, inv: Invitation, u: UserId, accept: bool) returns (error: Option<Error>)
      requires Valid() && i < |store.invitations| && store.invitations[i] == inv && inv.user == u
      modifies store
      ensures match Answered(old(store.View()), i, inv, accept)
              case Ok(db) => error == None && store.View() == db
              case Err(e) => error == Some(e)
    {
      var room := inv.room;
      if room >= |store.classrooms| { return Some(NotFound); }
      if store.classrooms[room].status !in {Inviting, Ready} { return Some(Conflict); }
      if !accept {
        invitations.Mark(i, Rejected);
        return None;
      }
      invitations.Mark(i, Accepted);
      var seat := classrooms.TakeSeat(room, u);
      if seat.Err? { return Some(seat.error); }
      error := MaybeReachQuorum(room);
    }

    method MaybeReachQuorum(room: nat) returns (error: Option<Error>)
      requires Valid() && room < |store.classrooms|
      modifies store
      ensures match QuorumChecked(old(store.View()), room)
              case Ok(db) => error == None && store.View() == db
              case Err(e) => error == Some(e)
    {
      var seated := Count(store.seats, SeatIn(room));
      if seated < MIN_PARTICIPANTS || store.classrooms[room].status == Ready { return None; }
      if Count(store.invitations, PendingIn(room)) > 0 && seated < SEATS { return None; }
      var moved := classrooms.Transition(room, QuorumReached);
      if moved.Err? { return Some(moved.error); }
      var _ := invitations.RevokeAll(room);
      var session := sessions.Provision(room);
      return if session.Err? then Some(session.error) else None;
    }

    method Start(room: nat, host: UserId) returns (error: Option<Error>)
      requires Valid()
      modifies store
      ensures Outcome(StartedDb(old(store.View()), room, host), old(store.View()), store.View(), error)
    {
      if room >= |store.classrooms| { return Some(NotFound); }
      if store.classrooms[room].host != host { return Some(NotAllowed); }
      if Count(store.seats, SeatIn(room)) < MIN_PARTICIPANTS { return Some(NotReady); }
      var before := store.View();
      if Find(store.sessions, SessionOf(room)) == |store.sessions| {
        var _ := invitations.RevokeAll(room);
        var moved := classrooms.Transition(room, QuorumReached);
        var session := sessions.Provision(room);
        if session.Err? {
          store.Rollback(before);
          return Some(session.error);
        }
      }
      var moved := classrooms.Transition(room, Started);
      return None;
    }

    method Cancel(room: nat, host: UserId) returns (error: Option<Error>)
      requires Valid()
      modifies store
      ensures Outcome(CancelledDb(old(store.View()), room, host), old(store.View()), store.View(), error)
    {
      if room >= |store.classrooms| { return Some(NotFound); }
      if store.classrooms[room].host != host { return Some(NotAllowed); }
      if store.classrooms[room].status in {Completed, Cancelled, Expired} { return Some(Conflict); }
      var moved := classrooms.Transition(room, CancelledByHost);
      if moved.Err? { return Some(moved.error); }
      var _ := invitations.RevokeAll(room);
      var i := Find(store.sessions, SessionOf(room));
      if i < |store.sessions| { sessions.Abort(i); }
      return None;
    }
  }
}
