/**
 * The durable rows behind enrollment and the transaction that changes them (backend/app/modules/classroom/models.py,
 * invitation/models.py, session/models.py, backend/app/db/uow.py). Rows are never deleted, so a row's id is its index.
 */
module Records {
  import opened Common

  datatype Result<+T> = Ok(value: T) | Err(error: Error)

  datatype Error =
    | NotFound | NotAllowed | Invalid | Conflict | InvitationClosed | SeatsFull | NotReady | IllegalTransition

  datatype ClassroomStatus = Draft | Inviting | Ready | Live | Completed | Cancelled | Expired

  datatype InvitationStatus = Pending | Accepted | Rejected | TimedOut | Revoked

  datatype SessionStatus = Awaiting | Connecting | Active | Summarizing | Ended | Aborted

  datatype Classroom = Classroom(host: UserId, status: ClassroomStatus)

  datatype Invitation = Invitation(
    room: nat, user: UserId, attempt: nat, status: InvitationStatus, email: string, expiresAt: int)

  datatype Seat = Seat(room: nat, user: UserId, seatNo: nat)

  datatype SessionRow = SessionRow(room: nat, status: SessionStatus)

  /** A person's place in one discussion; it is given back when `left` is set. */
  datatype Place = Place(session: nat, user: UserId, seatNo: nat, left: bool)

  datatype Db = Db(
    classrooms: seq<Classroom>,
    invitations: seq<Invitation>,
    seats: seq<Seat>,
    sessions: seq<SessionRow>,
    places: seq<Place>)

  const SEATS: nat := 4
  const MIN_PARTICIPANTS: nat := 2

  predicate Terminal(s: SessionStatus) { s == Ended || s == Aborted }

  // ------------------------------------------------------------------ queries

  /** How many rows answer a query. */
  function Count<T>(rows: seq<T>, query: T -> bool): nat {
    if rows == [] then 0 else Count(rows[..|rows| - 1], query) + (if query(rows[|rows| - 1]) then 1 else 0)
  }

  /** The rows that answer a query, oldest first. */
  function Select<T>(rows: seq<T>, query: T -> bool): seq<T> {
    if rows == [] then []
    else Select(rows[..|rows| - 1], query) + (if query(rows[|rows| - 1]) then [rows[|rows| - 1]] else [])
  }

  /** The first row that answers; the length when none does. */
  function Find<T>(rows: seq<T>, query: T -> bool): (i: nat)
    ensures i <= |rows|
    ensures i < |rows| ==> query(rows[i])
    ensures forall j :: 0 <= j < i ==> !query(rows[j])
  {
    if rows == [] then 0 else if query(rows[0]) then 0 else 1 + Find(rows[1..], query)
  }

  function PendingFor(room: nat, u: UserId): Invitation -> bool {
    (i: Invitation) => i.room == room && i.user == u && i.status == Pending
  }

  function AcceptedFor(room: nat, u: UserId): Invitation -> bool {
    (i: Invitation) => i.room == room && i.user == u && i.status == Accepted
  }

  /** Still counted against the seats: answered with yes, or not answered yet. */
  function HeldFor(room: nat, u: UserId): Invitation -> bool {
    (i: Invitation) => i.room == room && i.user == u && (i.status == Accepted || i.status == Pending)
  }

  function PendingIn(room: nat): Invitation -> bool { (i: Invitation) => i.room == room && i.status == Pending }

  function HeldIn(room: nat): Invitation -> bool {
    (i: Invitation) => i.room == room && (i.status == Accepted || i.status == Pending)
  }

  function SeatOf(room: nat, u: UserId): Seat -> bool { (s: Seat) => s.room == room && s.user == u }

  function SeatAt(room: nat, n: nat): Seat -> bool { (s: Seat) => s.room == room && s.seatNo == n }

  function SeatIn(room: nat): Seat -> bool { (s: Seat) => s.room == room }

  function SessionOf(room: nat): SessionRow -> bool { (s: SessionRow) => s.room == room }

  function Sitting(u: UserId): Place -> bool { (p: Place) => p.user == u && !p.left }

  function SittingIn(session: nat): Place -> bool { (p: Place) => p.session == session && !p.left }

  function PlaceOf(session: nat, u: UserId): Place -> bool { (p: Place) => p.session == session && p.user == u }

  lemma CountAppend<T>(rows: seq<T>, row: T, query: T -> bool)
    ensures Count(rows + [row], query) == Count(rows, query) + (if query(row) then 1 else 0)
  {
  }

  lemma {:induction false} CountUpdate<T>(rows: seq<T>, i: nat, row: T, query: T -> bool)
    requires i < |rows|
    ensures Count(rows[i := row], query) ==
            Count(rows, query) - (if query(rows[i]) then 1 else 0) + (if query(row) then 1 else 0)
    decreases |rows|
  {
    var front := rows[..|rows| - 1];
    if i == |rows| - 1 {
      assert rows[i := row][..|rows| - 1] == front;
    } else {
      assert rows[i := row][..|rows| - 1] == front[i := row];
      CountUpdate(front, i, row, query);
    }
  }

  lemma {:induction false} CountZero<T>(rows: seq<T>, query: T -> bool)
    ensures Count(rows, query) == 0 <==> Find(rows, query) == |rows|
    ensures Count(rows, query) == 0 <==> forall i :: 0 <= i < |rows| ==> !query(rows[i])
    ensures Count(rows, query) <= |rows|
    decreases |rows|
  {
    if rows != [] {
      CountZero(rows[..|rows| - 1], query);
    }
  }

  /** Rewriting rows so that no row newly answers the query cannot raise the count. */
  lemma {:induction false} CountLeq<S, T>(rows: seq<S>, rewritten: seq<T>, before: S -> bool, after: T -> bool)
    requires |rows| == |rewritten|
    requires forall i :: 0 <= i < |rows| ==> after(rewritten[i]) ==> before(rows[i])
    ensures Count(rewritten, after) <= Count(rows, before)
    decreases |rows|
  {
    if rows != [] { CountLeq(rows[..|rows| - 1], rewritten[..|rows| - 1], before, after); }
  }

  lemma CountSame<S, T>(rows: seq<S>, rewritten: seq<T>, before: S -> bool, after: T -> bool)
    requires |rows| == |rewritten|
    requires forall i :: 0 <= i < |rows| ==> (after(rewritten[i]) <==> before(rows[i]))
    ensures Count(rewritten, after) == Count(rows, before)
  {
    CountLeq(rows, rewritten, before, after);
    CountLeq(rewritten, rows, after, before);
  }

  lemma {:induction false} CountConcat<T>(a: seq<T>, b: seq<T>, query: T -> bool)
    ensures Count(a + b, query) == Count(a, query) + Count(b, query)
    decreases |b|
  {
    if b == [] {
      assert a + b == a;
    } else {
      assert (a + b)[..|a + b| - 1] == a + b[..|b| - 1];
      CountConcat(a, b[..|b| - 1], query);
    }
  }

  lemma {:induction false} SelectIs<T>(rows: seq<T>, query: T -> bool)
    ensures |Select(rows, query)| == Count(rows, query)
    ensures forall i :: 0 <= i < |Select(rows, query)| ==>
        query(Select(rows, query)[i]) && Select(rows, query)[i] in rows
    decreases |rows|
  {
    if rows != [] {
      SelectIs(rows[..|rows| - 1], query);
      assert rows == rows[..|rows| - 1] + [rows[|rows| - 1]];
    }
  }

  /** Counting among the selected rows is counting what answers both queries. */
  lemma {:induction false} CountSelected<T(!new)>(rows: seq<T>, query: T -> bool, narrower: T -> bool)
    requires forall r: T :: r in rows && narrower(r) ==> query(r)
    ensures Count(Select(rows, query), narrower) == Count(rows, narrower)
    decreases |rows|
  {
    if rows != [] {
      var front, last := rows[..|rows| - 1], rows[|rows| - 1];
      CountSelected(front, query, narrower);
      assert rows == front + [last];
      if query(last) { CountAppend(Select(front, query), last, narrower); }
      else { assert Select(front, query) + [] == Select(front, query); }
    }
  }

  /** One row per pair of answers, when every row that answers is at one of the given places. */
  lemma {:induction false} AtMostOnce<T>(rows: seq<T>, i: nat, j: nat, query: T -> bool)
    requires i < j < |rows| && query(rows[i]) && query(rows[j])
    ensures Count(rows, query) >= 2
    decreases |rows|
  {
    var front := rows[..|rows| - 1];
    if j == |rows| - 1 {
      CountZero(front, query);
      assert query(front[i]);
    } else {
      AtMostOnce(front, i, j, query);
    }
  }

  // ------------------------------------------------------------------ the transaction

  class Store {
    var classrooms: seq<Classroom>
    var invitations: seq<Invitation>
    var seats: seq<Seat>
    var sessions: seq<SessionRow>
    var places: seq<Place>

    function View(): Db
      reads this
    {
      Db(classrooms, invitations, seats, sessions, places)
    }

    constructor ()
      ensures View() == Db([], [], [], [], [])
    {
      classrooms, invitations, seats, sessions, places := [], [], [], [], [];
    }

    /** A request that raises leaves nothing behind. */
    method Rollback(to: Db)
      modifies this
      ensures View() == to
    {
      classrooms, invitations, seats, sessions, places :=
        to.classrooms, to.invitations, to.seats, to.sessions, to.places;
    }
  }
}
