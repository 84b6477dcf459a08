/**
 * Session rows and the places people hold in them (backend/app/modules/session/service.py and
 * backend/app/application/session_gateway.py).
 */
module Discussions {
  import opened Common
  import opened Records
  import opened Rooms

  /** Somebody on the roster still holds a place in some discussion. */
  predicate Busy(places: seq<Place>, roster: seq<Seat>) {
    exists i :: 0 <= i < |roster| && Count(places, Sitting(roster[i].user)) > 0
  }

  function PlacesFor(session: nat, roster: seq<Seat>): seq<Place> {
    seq(|roster|, i requires 0 <= i < |roster| => Place(session, roster[i].user, roster[i].seatNo, false))
  }

  /** The session of a classroom, made once, with a place for everybody seated, if they are all free. */
  function Provisioned(db: Db, room: nat): Result<Db> {
    var i, roster := Find(db.sessions, SessionOf(room)), Roster(db.seats, room);
    if i < |db.sessions| then
      if Terminal(db.sessions[i].status) then Err(Conflict) else Ok(db)
    else if Busy(db.places, roster) then Err(Conflict)
    else
      Ok(db.(sessions := db.sessions + [SessionRow(room, Awaiting)],
             places := db.places + PlacesFor(|db.sessions|, roster)))
  }

  function Leave(p: Place): Place { p.(left := true) }

  function LeftAll(places: seq<Place>, session: nat): seq<Place> {
    seq(|places|, i requires 0 <= i < |places| => if places[i].session == session then Leave(places[i]) else places[i])
  }

  /** Everyone the ledger knows gives their place back, one update per person. */
  function LeftEach(places: seq<Place>, session: nat, users: seq<UserId>): seq<Place>
    decreases |users|
  {
    if users == [] then places
    else LeftOne(LeftEach(places, session, users[..|users| - 1]), session, users[|users| - 1])
  }

  function LeftOne(places: seq<Place>, session: nat, u: UserId): seq<Place> {
    seq(|places|, i requires 0 <= i < |places| =>
      if places[i].session == session && places[i].user == u then Leave(places[i]) else places[i])
  }

  function WithSession(sessions: seq<SessionRow>, session: nat, s: SessionStatus): seq<SessionRow> {
    if session < |sessions| then sessions[session := sessions[session].(status := s)] else sessions
  }

  function AbortedDb(db: Db, session: nat): Db {
    if session >= |db.sessions| || Terminal(db.sessions[session].status) then db
    else db.(sessions := WithSession(db.sessions, session, Aborted), places := LeftAll(db.places, session))
  }

  /** The runner's last word: unconditional, and a terminal status releases everyone. */
  function StatusMarked(db: Db, session: nat, s: SessionStatus): Db {
    db.(sessions := WithSession(db.sessions, session, s),
        places := if Terminal(s) then LeftAll(db.places, session) else db.places)
  }

  function RoomCompleted(db: Db, session: nat, aborted: bool): Db {
    if session >= |db.sessions| then db
    else db.(classrooms := WithStatus(db.classrooms, db.sessions[session].room, if aborted then Ready else Completed))
  }

  class SessionService {
    const store: Store

    constructor (store: Store)
      ensures this.store == store
    {
      this.store := store;
    }

    method Provision(room: nat) returns (r: Result<nat>)
      modifies store`sessions, store`places
      ensures match Provisioned(old(store.View()), room)
              case Ok(db) => r.Ok? && store.View() == db
              case Err(e) => r == Err(e) && store.View() == old(store.View())
    {
      var i := Find(store.sessions, SessionOf(room));
      var roster := Roster(store.seats, room);
      if i < |store.sessions| {
        if Terminal(store.sessions[i].status) { return Err(Conflict); }
        return Ok(i);
      }
      if Busy(store.places, roster) { return Err(Conflict); }
      store.sessions := store.sessions + [SessionRow(room, Awaiting)];
      store.places := store.places + PlacesFor(i, roster);
      return Ok(i);
    }

    method Abort(session: nat)
      modifies store`sessions, store`places
      ensures store.View() == AbortedDb(old(store.View()), session)
    {
      if session >= |store.sessions| || Terminal(store.sessions[session].status) { return; }
      store.sessions := store.sessions[session := store.sessions[session].(status := Aborted)];
      ghost var before := store.places;
      for k := 0 to |store.places|
        invariant |store.places| == |before| && store.sessions == WithSession(old(store.sessions), session, Aborted)
        invariant forall i :: 0 <= i < k ==> store.places[i] == LeftAll(before, session)[i]
        invariant forall i :: k <= i < |before| ==> store.places[i] == before[i]
      {
        if store.places[k].session == session && !store.places[k].left {
          store.places := store.places[k := store.places[k].(left := true)];
        }
      }
      assert store.places == LeftAll(before, session);
    }

    method MarkStatus(session: nat, s: SessionStatus)
      modifies store`sessions, store`places
      ensures store.View() == StatusMarked(old(store.View()), session, s)
    {
      if session < |store.sessions| {
        store.sessions := store.sessions[session := store.sessions[session].(status := s)];
      }
      if Terminal(s) { store.places := LeftAll(store.places, session); }
    }

    method FlushTranscript(session: nat, users: seq<UserId>)
      modifies store`places
      ensures store.places == LeftEach(old(store.places), session, users)
    {
      for k := 0 to |users|
        invariant store.places == LeftEach(old(store.places), session, users[..k])
      {
        assert users[..k + 1][..k] == users[..k];
        store.places := LeftOne(store.places, session, users[k]);
      }
      assert users[..|users|] == users;
    }

    method CompleteClassroom(session: nat, aborted: bool)
      modifies store`classrooms
      ensures store.View() == RoomCompleted(old(store.View()), session, aborted)
    {
      if session < |store.sessions| {
        var rooms := new ClassroomService(store);
        rooms.SetStatus(store.sessions[session].room, if aborted then Ready else Completed);
      }
    }
  }
}
