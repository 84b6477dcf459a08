/** Issuing, answering and closing invitations (backend/app/modules/invitation/service.py and repository.py). */
module Invitations {
  import opened Common
  import opened Records

  /** Someone to invite: who they are and the address that was used. */
  datatype Invitee = Invitee(user: UserId, email: string)

  function LastAttempt(invitations: seq<Invitation>, room: nat, u: UserId): nat {
    if invitations == [] then 0
    else
      var before, i := LastAttempt(invitations[..|invitations| - 1], room, u), invitations[|invitations| - 1];
      if i.room == room && i.user == u then Max(before, i.attempt) else before
  }

  function IssuedOne(invitations: seq<Invitation>, room: nat, p: Invitee, expiresAt: int): seq<Invitation> {
    if Find(invitations, PendingFor(room, p.user)) < |invitations| then invitations
    else
      var attempt := LastAttempt(invitations, room, p.user) + 1;
      invitations + [Invitation(room, p.user, attempt, Pending, p.email, expiresAt)]
  }

  /** One pending invitation for each person who has none open. */
  function Issued(invitations: seq<Invitation>, room: nat, people: seq<Invitee>, expiresAt: int): seq<Invitation>
    decreases |people|
  {
    if people == [] then invitations
    else
      var last := |people| - 1;
      IssuedOne(Issued(invitations, room, people[..last], expiresAt), room, people[last], expiresAt)
  }

  function Marked(invitations: seq<Invitation>, i: nat, status: InvitationStatus): seq<Invitation>
    requires i < |invitations|
  {
    invitations[i := invitations[i].(status := status)]
  }

  function RevokedAll(invitations: seq<Invitation>, room: nat): seq<Invitation> {
    seq(|invitations|, i requires 0 <= i < |invitations| =>
      if invitations[i].room == room && invitations[i].status == Pending then invitations[i].(status := Revoked)
      else invitations[i])
  }

  /** The sweep closes a batch of pending invitations whose time is up. */
  function Overdue(invitations: seq<Invitation>, batch: set<nat>, now: int): seq<Invitation> {
    seq(|invitations|, i requires 0 <= i < |invitations| =>
      if i in batch && invitations[i].status == Pending && invitations[i].expiresAt < now
      then invitations[i].(status := TimedOut) else invitations[i])
  }

  /** An invitation that the caller may still answer. */
  function Opened(invitations: seq<Invitation>, i: nat, u: UserId, now: int): Result<Invitation> {
    if i >= |invitations| then Err(NotFound)
    else if invitations[i].user != u then Err(NotAllowed)
    else if invitations[i].status != Pending then Err(InvitationClosed)
    else if invitations[i].expiresAt < now then Err(InvitationClosed)
    else Ok(invitations[i])
  }

  class InvitationService {
    const store: Store

    constructor (store: Store)
      ensures this.store == store
    {
      this.store := store;
    }

    method Issue(room: nat, people: seq<Invitee>, expiresAt: int) returns (issued: nat)
      modifies store`invitations
      ensures store.invitations == Issued(old(store.invitations), room, people, expiresAt)
      ensures issued == |store.invitations| - |old(store.invitations)|
    {
      issued := 0;
      for k := 0 to |people|
        invariant store.invitations == Issued(old(store.invitations), room, people[..k], expiresAt)
        invariant issued == |store.invitations| - |old(store.invitations)|
      {
        assert people[..k + 1][..k] == people[..k];
        var p := people[k];
        if Find(store.invitations, PendingFor(room, p.user)) == |store.invitations| {
          var attempt := LastAttempt(store.invitations, room, p.user) + 1;
          store.invitations := store.invitations + [Invitation(room, p.user, attempt, Pending, p.email, expiresAt)];
          issued := issued + 1;
        }
      }
      assert people[..|people|] == people;
    }

    method Mark(i: nat, status: InvitationStatus)
      requires i < |store.invitations|
      modifies store`invitations
      ensures store.invitations == Marked(old(store.invitations), i, status)
    {
      store.invitations := store.invitations[i := store.invitations[i].(status := status)];
    }

    method Revoke(i: nat)
      requires i < |store.invitations|
      modifies store`invitations
      ensures store.invitations == Marked(old(store.invitations), i, Revoked)
    {
      Mark(i, Revoked);
    }

    /** Nothing is left pending in the room, and no row but those is touched. */
    method RevokeAll(room: nat) returns (revoked: nat)
      modifies store`invitations
      ensures |store.invitations| == |old(store.invitations)|
      ensures forall i :: 0 <= i < |store.invitations| ==> !PendingIn(room)(store.invitations[i])
      ensures forall i :: 0 <= i < |store.invitations| ==>
                store.invitations[i] == if PendingIn(room)(old(store.invitations)[i])
                                        then old(store.invitations)[i].(status := Revoked)
                                        else old(store.invitations)[i]
      ensures revoked == Count(old(store.invitations), PendingIn(room))
      ensures store.invitations == RevokedAll(old(store.invitations), room)
    {
      revoked := 0;
      ghost var before := store.invitations;
      for k := 0 to |store.invitations|
        invariant |store.invitations| == |before|
        invariant forall i :: 0 <= i < k ==> store.invitations[i] == RevokedAll(before, room)[i]
        invariant forall i :: k <= i < |before| ==> store.invitations[i] == before[i]
        invariant revoked == Count(before[..k], PendingIn(room))
      {
        var row := store.invitations[k];
        assert before[..k + 1] == before[..k] + [before[k]];
        CountAppend(before[..k], before[k], PendingIn(room));
        if row.room == room && row.status == Pending {
          store.invitations := store.invitations[k := row.(status := Revoked)];
          revoked := revoked + 1;
        }
      }
      assert before[..|before|] == before;
      assert store.invitations == RevokedAll(before, room);
    }

    /** Finding the time is up also marks the row, but the request then raises, and the mark goes with it. */
    method LoadOpen(i: nat, u: UserId, now: int) returns (r: Result<Invitation>)
      modifies store`invitations
      ensures r == Opened(old(store.invitations), i, u, now)
      ensures r.Ok? ==> store.invitations == old(store.invitations)
    {
      if i >= |store.invitations| { return Err(NotFound); }
      var inv := store.invitations[i];
      if inv.user != u { return Err(NotAllowed); }
      if inv.status != Pending { return Err(InvitationClosed); }
      if inv.expiresAt < now {
        Mark(i, TimedOut);
        return Err(InvitationClosed);
      }
      return Ok(inv);
    }
  }
}
