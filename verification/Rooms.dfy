/** The classroom's status table and its four seats (backend/app/modules/classroom/service.py and repository.py). */
module Rooms {
  import opened Common
  import opened Records

  datatype RoomEvent =
    | InvitationsSent | QuorumReached | QuorumLost | Started
    | SessionEnded | SessionAborted | CancelledByHost | TimeIsUp

  /** The table; anything else is refused. */
  function NextStatus(s: ClassroomStatus, e: RoomEvent): Option<ClassroomStatus> {
    match (s, e)
    case (Draft, InvitationsSent) => Some(Inviting)
    case (Draft, CancelledByHost) => Some(Cancelled)
    case (Inviting, QuorumReached) => Some(Ready)
    case (Inviting, CancelledByHost) => Some(Cancelled)
    case (Inviting, TimeIsUp) => Some(Expired)
    case (Ready, QuorumLost) => Some(Inviting)
    case (Ready, Started) => Some(Live)
    case (Ready, CancelledByHost) => Some(Cancelled)
    case (Ready, TimeIsUp) => Some(Expired)
    case (Live, SessionEnded) => Some(Completed)
    case (Live, SessionAborted) => Some(Ready)
    case _ => None
  }

  /** The table read by where it leads: each status is entered in these ways and in no other. */
  lemma WaysInto(s: ClassroomStatus, e: RoomEvent)
    ensures NextStatus(s, e) == Some(Inviting) <==>
              (s == Draft && e == InvitationsSent) || (s == Ready && e == QuorumLost)
    ensures NextStatus(s, e) == Some(Ready) <==>
              (s == Inviting && e == QuorumReached) || (s == Live && e == SessionAborted)
    ensures NextStatus(s, e) == Some(Live) <==> s == Ready && e == Started
    ensures NextStatus(s, e) == Some(Completed) <==> s == Live && e == SessionEnded
    ensures NextStatus(s, e) == Some(Cancelled) <==> s in [Draft, Inviting, Ready] && e == CancelledByHost
    ensures NextStatus(s, e) == Some(Expired) <==> s in [Inviting, Ready] && e == TimeIsUp
    ensures NextStatus(s, e) != Some(Draft)
  {
  }

  predicate Final(s: ClassroomStatus) { s in {Completed, Cancelled, Expired} }

  /** The statuses along any run of events; a refused event leaves the classroom where it is. */
  function StatusAfter(s: ClassroomStatus, events: seq<RoomEvent>): ClassroomStatus
    decreases |events|
  {
    if events == [] then s
    else StatusAfter(match NextStatus(s, events[0]) case Some(t) => t case None => s, events[1..])
  }

  /** No run of events leaves a final status, and those are the only ones that no event leaves. */
  lemma {:induction false} FinalIsForGood(s: ClassroomStatus, events: seq<RoomEvent>)
    ensures Final(s) ==> StatusAfter(s, events) == s
    ensures Final(s) <==> forall e :: NextStatus(s, e) == None
    decreases |events|
  {
    if events != [] && Final(s) { FinalIsForGood(s, events[1..]); }
    if !Final(s) { assert NextStatus(s, if s == Live then SessionEnded else CancelledByHost).Some?; }
  }

  function WithStatus(rooms: seq<Classroom>, room: nat, s: ClassroomStatus): seq<Classroom> {
    if room < |rooms| then rooms[room := rooms[room].(status := s)] else rooms
  }

  /** The sweep closes a batch of classrooms that were still waiting: those the table lets time out. */
  function RoomsExpired(rooms: seq<Classroom>, batch: set<nat>): seq<Classroom> {
    seq(|rooms|, i requires 0 <= i < |rooms| =>
      if i in batch && rooms[i].status in {Inviting, Ready} then rooms[i].(status := Expired) else rooms[i])
  }

  function FreeSeatFrom(seats: seq<Seat>, room: nat, n: nat): (r: Option<nat>)
    ensures r.Some? ==> n <= r.value <= SEATS && Count(seats, SeatAt(room, r.value)) == 0
    ensures r == None ==> forall k :: n <= k <= SEATS ==> Count(seats, SeatAt(room, k)) > 0
    decreases SEATS + 1 - n
  {
    if n > SEATS then None
    else if Count(seats, SeatAt(room, n)) == 0 then Some(n)
    else FreeSeatFrom(seats, room, n + 1)
  }

  function NextFreeSeat(seats: seq<Seat>, room: nat): Option<nat> { FreeSeatFrom(seats, room, 1) }

  /** Seating is idempotent, and fails only when all four numbers are taken. */
  function Seated(seats: seq<Seat>, room: nat, u: UserId): Result<seq<Seat>> {
    if Find(seats, SeatOf(room, u)) < |seats| then Ok(seats)
    else
      match NextFreeSeat(seats, room)
      case None => Err(SeatsFull)
      case Some(n) => Ok(seats + [Seat(room, u, n)])
  }

  /** Seats are numbered upwards as they are taken, so the order of taking is the order of number. */
  function Roster(seats: seq<Seat>, room: nat): seq<Seat> { Select(seats, SeatIn(room)) }

  class ClassroomService {
    const store: Store

    constructor (store: Store)
      ensures this.store == store
    {
      this.store := store;
    }

    method Transition(room: nat, e: RoomEvent) returns (r: Result<ClassroomStatus>)
      requires room < |store.classrooms|
      modifies store`classrooms
      ensures match NextStatus(old(store.classrooms)[room].status, e)
              case Some(s) => r == Ok(s) && store.classrooms == WithStatus(old(store.classrooms), room, s)
              case None => r == Err(IllegalTransition) && store.classrooms == old(store.classrooms)
    {
      var next := NextStatus(store.classrooms[room].status, e);
      if next == None { return Err(IllegalTransition); }
      SetStatus(room, next.value);
      return Ok(next.value);
    }

    method SetStatus(room: nat, s: ClassroomStatus)
      modifies store`classrooms
      ensures store.classrooms == WithStatus(old(store.classrooms), room, s)
    {
      if room < |store.classrooms| {
        store.classrooms := store.classrooms[room := store.classrooms[room].(status := s)];
      }
    }

    method TakeSeat(room: nat, u: UserId) returns (r: Result<nat>)
      modifies store`seats
      ensures match Seated(old(store.seats), room, u)
              case Ok(seats) => r.Ok? && store.seats == seats
              case Err(e) => r == Err(e) && store.seats == old(store.seats)
    {
      var i := Find(store.seats, SeatOf(room, u));
      if i < |store.seats| { return Ok(store.seats[i].seatNo); }
      var n := NextFreeSeat(store.seats, room);
      if n == None { return Err(SeatsFull); }
      store.seats := store.seats + [Seat(room, u, n.value)];
      return Ok(n.value);
    }
  }
}
