// The collaboration transactions as they run: each method reads and updates
// the rows in the order of collaboration_service.py, and commits exactly the
// effect the model gives for it.
module CollaborationService {
  import opened Wrappers
  import opened ActivityPolicy
  import opened CollaborationModel

  class Service {
    var users: set<Id>
    var friendships: map<Id, Friendship>
    var pairs: map<set<Id>, Id>
    var owners: map<Id, Id>
    var memberships: map<Seat, Membership>
    var invitations: map<Seat, Invitation>
    var sessions: map<Id, Session>
    var ledger: seq<Row>

    ghost function Tables(): Db
      reads this
    {
      Db(users, friendships, pairs, owners, memberships, invitations, sessions, ledger)
    }

    constructor ()
      ensures Tables() == EMPTY
    {
      users, friendships, pairs, owners := {}, map[], map[], map[];
      memberships, invitations, sessions, ledger := map[], map[], map[], [];
    }

    // Insert the row, or ignore it when its key is taken.
    method Record(eventType: EventType, subject: Subject, actor: Id)
      modifies this`ledger
      ensures ledger == Append(old(ledger), Row(eventType, subject, actor))
    {
      var row := Row(eventType, subject, actor);
      if !KeyTaken(ledger, row) {
        ledger := ledger + [row];
      }
    }

    // Accounts come from elsewhere; these transactions only look them up.
    method Register(user: Id)
      modifies this`users
      ensures Tables() == Step(old(Tables()), Transaction.Register(user))
    {
      users := users + {user};
    }

    method CreateFriendRequest(actor: Id, addressee: Id, newId: Id) returns (r: Result<Id, Error>)
      modifies this
      ensures Tables() == Committed(old(Tables()), RequestFriendEffect(old(Tables()), actor, addressee, newId))
      ensures r.Err? <==> RequestFriendEffect(old(Tables()), actor, addressee, newId).Err?
      ensures r.Err? ==> Err(r.error) == RequestFriendEffect(old(Tables()), actor, addressee, newId)
      ensures r.Ok? ==> {actor, addressee} in pairs && r.value == pairs[{actor, addressee}]
    {
      if actor == addressee {
        return Err(Conflict);
      }
      if addressee !in users {
        return Err(UserUnavailable);
      }
      var pair := {actor, addressee};
      if pair in pairs && pairs[pair] in friendships {
        var existing := friendships[pairs[pair]];
        if existing.requester != actor || existing.addressee != addressee {
          return Err(Conflict);
        }
        return Ok(pairs[pair]);
      }
      if newId in friendships {
        return Err(PairNotPersisted);
      }
      if actor !in users {
        return Err(UnknownActor);
      }
      friendships := friendships[newId := Friendship(actor, addressee, Pending)];
      pairs := pairs[pair := newId];
      Record(FriendshipRequested, AboutFriendship(newId, actor), actor);
      Record(FriendshipRequested, AboutFriendship(newId, addressee), actor);
      AppendTwo(old(ledger), Row(FriendshipRequested, AboutFriendship(newId, actor), actor),
                Row(FriendshipRequested, AboutFriendship(newId, addressee), actor));
      return Ok(newId);
    }

    method RespondToFriendRequest(actor: Id, friendship: Id, accept: bool) returns (r: Result<Status, Error>)
      modifies this
      ensures Tables() == Committed(old(Tables()), RespondEffect(old(Tables()), actor, friendship, accept))
      ensures r.Err? <==> RespondEffect(old(Tables()), actor, friendship, accept).Err?
      ensures r.Err? ==> Err(r.error) == RespondEffect(old(Tables()), actor, friendship, accept)
      ensures r.Ok? ==> friendship in friendships && r.value == friendships[friendship].status
      ensures r.Ok? ==> r.value == if accept then Accepted else Rejected
    {
      var target := if accept then Accepted else Rejected;
      if friendship !in friendships || friendships[friendship].addressee != actor {
        return Err(AccessDenied);
      }
      var current := friendships[friendship];
      if current.status == Pending {
        friendships := friendships[friendship := current.(status := target)];
        var eventType := if accept then FriendshipAccepted else FriendshipRejected;
        Record(eventType, AboutFriendship(friendship, current.requester), actor);
        Record(eventType, AboutFriendship(friendship, current.addressee), actor);
        AppendTwo(old(ledger), Row(eventType, AboutFriendship(friendship, current.requester), actor),
                  Row(eventType, AboutFriendship(friendship, current.addressee), actor));
      } else if current.status != target {
        return Err(StateConflict);
      }
      return Ok(target);
    }

    method CreateRoom(actor: Id, newId: Id, nameIsValid: bool) returns (r: Result<Id, Error>)
      modifies this
      ensures Tables() == Committed(old(Tables()), CreateRoomEffect(old(Tables()), actor, newId, nameIsValid))
      ensures r.Err? <==> CreateRoomEffect(old(Tables()), actor, newId, nameIsValid).Err?
      ensures r.Err? ==> Err(r.error) == CreateRoomEffect(old(Tables()), actor, newId, nameIsValid)
      ensures r.Ok? ==> r.value == newId
    {
      if !nameIsValid {
        return Err(InvalidText);
      }
      if newId in owners || Seat(newId, actor) in memberships {
        return Err(IdTaken);
      }
      if actor !in users {
        return Err(UnknownActor);
      }
      owners := owners[newId := actor];
      memberships := memberships[Seat(newId, actor) := Membership(Host, false)];
      Record(RoomCreated, AboutRoom(newId), actor);
      AppendOne(old(ledger), Row(RoomCreated, AboutRoom(newId), actor));
      return Ok(newId);
    }

    // The active membership of the actor, which the transaction locks.
    method LockedMembership(room: Id, actor: Id) returns (role: Option<Role>)
      ensures role.Some? <==> ActiveIn(Tables(), Seat(room, actor))
      ensures role.Some? ==> role.value == memberships[Seat(room, actor)].role
    {
      var seat := Seat(room, actor);
      if room in owners && seat in memberships && !memberships[seat].departed {
        return Some(memberships[seat].role);
      }
      return None;
    }

    method CreateRoomInvitation(actor: Id, room: Id, invitee: Id, newId: Id) returns (r: Result<Invitation, Error>)
      modifies this
      ensures Tables() == Committed(old(Tables()), InviteEffect(old(Tables()), actor, room, invitee, newId))
      ensures r.Err? <==> InviteEffect(old(Tables()), actor, room, invitee, newId).Err?
      ensures r.Err? ==> Err(r.error) == InviteEffect(old(Tables()), actor, room, invitee, newId)
      ensures r.Ok? ==> Seat(room, invitee) in invitations && r.value == invitations[Seat(room, invitee)]
      ensures r.Ok? ==> r.value.status == Accepted
    {
      if actor == invitee {
        return Err(Conflict);
      }
      var role := LockedMembership(room, actor);
      if role.None? {
        return Err(AccessDenied);
      }
      if role.value != Host {
        return Err(HostRequired);
      }
      if invitee !in users {
        return Err(UserUnavailable);
      }
      if !({actor, invitee} in pairs && pairs[{actor, invitee}] in friendships
           && friendships[pairs[{actor, invitee}]].status == Accepted) {
        return Err(FriendshipRequired);
      }
      var seat := Seat(room, invitee);
      var prior := if seat in invitations then Some(invitations[seat]) else None;
      var priorMembership := if seat in memberships then Some(memberships[seat]) else None;
      var away := priorMembership.None? || priorMembership.value.departed;
      if prior.Some? && prior.value.status == Accepted && away {
        return Err(Conflict);
      }
      var admissionChanged := prior.None? || prior.value.status != Accepted || away;
      if prior.None? && InvitationIdTaken(invitations, newId) {
        return Err(IdTaken);
      }
      if prior.None? {
        invitations := invitations[seat := Invitation(newId, actor, Accepted)];
      } else if prior.value.status != Accepted {
        invitations := invitations[seat := Invitation(prior.value.id, actor, Accepted)];
      }
      if priorMembership.None? {
        memberships := memberships[seat := Membership(Member, false)];
      } else if priorMembership.value.departed {
        memberships := memberships[seat := priorMembership.value.(departed := false)];
      }
      if admissionChanged {
        Record(RoomMemberAdded, AboutSeat(seat), actor);
        AppendOne(old(ledger), Row(RoomMemberAdded, AboutSeat(seat), actor));
      }
      var effect := InviteEffect(old(Tables()), actor, room, invitee, newId).value.tables;
      assert invitations == effect.invitations && memberships == effect.memberships;
      return Ok(invitations[seat]);
    }

    method LeaveRoom(actor: Id, room: Id) returns (r: Option<Error>)
      modifies this
      ensures Tables() == Committed(old(Tables()), LeaveEffect(old(Tables()), actor, room))
      ensures r.Some? <==> LeaveEffect(old(Tables()), actor, room).Err?
      ensures r.Some? ==> Err(r.value) == LeaveEffect(old(Tables()), actor, room)
    {
      var role := LockedMembership(room, actor);
      if role.None? {
        return Some(AccessDenied);
      }
      if role.value == Host {
        return Some(HostRequired);
      }
      var seat := Seat(room, actor);
      memberships := memberships[seat := memberships[seat].(departed := true)];
      Record(RoomMemberLeft, AboutSeat(seat), actor);
      AppendOne(old(ledger), Row(RoomMemberLeft, AboutSeat(seat), actor));
      return None;
    }

    method CreateTalkSession(actor: Id, room: Id, newId: Id, textIsValid: bool) returns (r: Result<Id, Error>)
      modifies this
      ensures Tables() == Committed(old(Tables()), CreateSessionEffect(old(Tables()), actor, room, newId, textIsValid))
      ensures r.Err? <==> CreateSessionEffect(old(Tables()), actor, room, newId, textIsValid).Err?
      ensures r.Err? ==> Err(r.error) == CreateSessionEffect(old(Tables()), actor, room, newId, textIsValid)
      ensures r.Ok? ==> r.value == newId
    {
      if !textIsValid {
        return Err(InvalidText);
      }
      var role := LockedMembership(room, actor);
      if role.None? {
        return Err(AccessDenied);
      }
      if role.value != Host {
        return Err(HostRequired);
      }
      if newId in sessions {
        return Err(IdTaken);
      }
      sessions := sessions[newId := Session(room, actor, false)];
      Record(SessionCreated, AboutSession(newId), actor);
      AppendOne(old(ledger), Row(SessionCreated, AboutSession(newId), actor));
      return Ok(newId);
    }

    method ArchiveTalkSession(actor: Id, session: Id) returns (r: Option<Error>)
      modifies this
      ensures Tables() == Committed(old(Tables()), ArchiveEffect(old(Tables()), actor, session))
      ensures r.Some? <==> ArchiveEffect(old(Tables()), actor, session).Err?
      ensures r.Some? ==> Err(r.value) == ArchiveEffect(old(Tables()), actor, session)
    {
      if session !in sessions {
        return Some(AccessDenied);
      }
      var seat := Seat(sessions[session].room, actor);
      if seat !in memberships || memberships[seat].departed {
        return Some(AccessDenied);
      }
      if memberships[seat].role != Host {
        return Some(HostRequired);
      }
      if sessions[session].archived {
        return None;
      }
      sessions := sessions[session := sessions[session].(archived := true)];
      Record(SessionArchived, AboutSession(session), actor);
      AppendOne(old(ledger), Row(SessionArchived, AboutSession(session), actor));
      return None;
    }
  }

  lemma AppendOne(ledger: seq<Row>, row: Row)
    ensures AppendAll(ledger, [row]) == Append(ledger, row)
  {
    assert [row][1..] == [];
  }

  lemma AppendTwo(ledger: seq<Row>, first: Row, second: Row)
    ensures AppendAll(ledger, [first, second]) == Append(Append(ledger, first), second)
  {
    assert [first, second][1..] == [second];
    AppendOne(Append(ledger, first), second);
  }
}
