// Who may do what, and what every request is answered, in every run of the
// collaboration transactions: in terms of owners, members present and friends,
// not of the roles and indexes that the tables keep.
module CollaborationRights {
  import opened Wrappers
  import opened ActivityPolicy
  import opened CollaborationModel
  import opened CollaborationInvariants

  // ---------- The vocabulary

  ghost predicate OwnsRoom(db: Db, user: Id, room: Id) {
    room in db.owners && db.owners[room] == user
  }

  ghost predicate Present(db: Db, user: Id, room: Id) {
    Seat(room, user) in db.memberships && !db.memberships[Seat(room, user)].departed
  }

  // f is a friendship of the two, whoever asked.
  ghost predicate Between(db: Db, f: Id, a: Id, b: Id) {
    f in db.friendships && {db.friendships[f].requester, db.friendships[f].addressee} == {a, b}
  }

  ghost predicate AreFriends(db: Db, a: Id, b: Id) {
    exists f :: Between(db, f, a, b) && db.friendships[f].status == Accepted
  }

  ghost predicate AskedBy(db: Db, f: Id, requester: Id, addressee: Id) {
    f in db.friendships && db.friendships[f].requester == requester && db.friendships[f].addressee == addressee
  }

  ghost predicate InvitationTaken(db: Db, id: Id) {
    exists seat :: seat in db.invitations && db.invitations[seat].id == id
  }

  function Answer(accept: bool): Status {
    if accept then Accepted else Rejected
  }

  // ---------- What a request is answered

  datatype Verdict = Refused(error: Error) | Unchanged | Changed

  // In the order of the service's checks.
  ghost function VerdictOf(db: Db, op: Transaction): Verdict {
    match op
    case Register(user) => if user in db.users then Unchanged else Changed
    case RequestFriend(actor, addressee, newId) =>
      if actor == addressee then Refused(Conflict)
      else if addressee !in db.users then Refused(UserUnavailable)
      else if exists f :: AskedBy(db, f, actor, addressee) then Unchanged
      else if exists f :: AskedBy(db, f, addressee, actor) then Refused(Conflict)
      else if newId in db.friendships then Refused(PairNotPersisted)
      else if actor !in db.users then Refused(UnknownActor)
      else Changed
    case Respond(actor, f, accept) =>
      if f !in db.friendships || db.friendships[f].addressee != actor then Refused(AccessDenied)
      else if db.friendships[f].status == Pending then Changed
      else if db.friendships[f].status == Answer(accept) then Unchanged
      else Refused(StateConflict)
    case CreateRoom(actor, newId, nameIsValid) =>
      if !nameIsValid then Refused(InvalidText)
      else if newId in db.owners then Refused(IdTaken)
      else if actor !in db.users then Refused(UnknownActor)
      else Changed
    case Invite(actor, room, invitee, newId) =>
      if actor == invitee then Refused(Conflict)
      else if !Present(db, actor, room) then Refused(AccessDenied)
      else if !OwnsRoom(db, actor, room) then Refused(HostRequired)
      else if invitee !in db.users then Refused(UserUnavailable)
      else if !AreFriends(db, actor, invitee) then Refused(FriendshipRequired)
      else if Present(db, invitee, room) then Unchanged
      else if Seat(room, invitee) in db.memberships then Refused(Conflict)
      else if InvitationTaken(db, newId) then Refused(IdTaken)
      else Changed
    case Leave(actor, room) =>
      if !Present(db, actor, room) then Refused(AccessDenied)
      else if OwnsRoom(db, actor, room) then Refused(HostRequired)
      else Changed
    case CreateSession(actor, room, newId, textIsValid) =>
      if !textIsValid then Refused(InvalidText)
      else if !Present(db, actor, room) then Refused(AccessDenied)
      else if !OwnsRoom(db, actor, room) then Refused(HostRequired)
      else if newId in db.sessions then Refused(IdTaken)
      else Changed
    case Archive(actor, session) =>
      if session !in db.sessions || !Present(db, actor, db.sessions[session].room) then Refused(AccessDenied)
      else if !OwnsRoom(db, actor, db.sessions[session].room) then Refused(HostRequired)
      else if db.sessions[session].archived then Unchanged
      else Changed
  }

  // What a change leaves, with the rows it records: all else stays.
  ghost predicate ChangedAsAsked(db: Db, op: Transaction, next: Db) {
    match op
    case Register(user) => next == db.(users := db.users + {user})
    case RequestFriend(actor, addressee, newId) =>
      && next == db.(friendships := db.friendships[newId := Friendship(actor, addressee, Pending)],
                     pairs := db.pairs[{actor, addressee} := newId], ledger := next.ledger)
      && next.ledger == db.ledger + [Row(FriendshipRequested, AboutFriendship(newId, actor), actor),
                                     Row(FriendshipRequested, AboutFriendship(newId, addressee), actor)]
    case Respond(actor, f, accept) =>
      f in db.friendships
      && var asked, t := db.friendships[f], if accept then FriendshipAccepted else FriendshipRejected;
         && next == db.(friendships := db.friendships[f := Friendship(asked.requester, actor, Answer(accept))],
                        ledger := next.ledger)
         && next.ledger == db.ledger + [Row(t, AboutFriendship(f, asked.requester), actor),
                                        Row(t, AboutFriendship(f, actor), actor)]
    case CreateRoom(actor, newId, _) =>
      && next == db.(owners := db.owners[newId := actor],
                     memberships := db.memberships[Seat(newId, actor) := Membership(Host, false)],
                     ledger := next.ledger)
      && next.ledger == db.ledger + [Row(RoomCreated, AboutRoom(newId), actor)]
    case Invite(actor, room, invitee, newId) =>
      var seat := Seat(room, invitee);
      && next == db.(memberships := db.memberships[seat := Membership(Member, false)],
                     invitations := db.invitations[seat := Invitation(newId, actor, Accepted)], ledger := next.ledger)
      && next.ledger == db.ledger + [Row(RoomMemberAdded, AboutSeat(seat), actor)]
    case Leave(actor, room) =>
      var seat := Seat(room, actor);
      && next == db.(memberships := db.memberships[seat := Membership(Member, true)], ledger := next.ledger)
      && next.ledger == db.ledger + [Row(RoomMemberLeft, AboutSeat(seat), actor)]
    case CreateSession(actor, room, newId, _) =>
      && next == db.(sessions := db.sessions[newId := Session(room, actor, false)], ledger := next.ledger)
      && next.ledger == db.ledger + [Row(SessionCreated, AboutSession(newId), actor)]
    case Archive(actor, session) =>
      session in db.sessions
      && var kept := db.sessions[session];
         && next == db.(sessions := db.sessions[session := Session(kept.room, kept.host, true)],
                        ledger := next.ledger)
         && next.ledger == db.ledger + [Row(SessionArchived, AboutSession(session), actor)]
  }

  ghost predicate Follows(db: Db, op: Transaction, verdict: Verdict) {
    match verdict
    case Refused(error) => EffectOf(db, op) == Err(error) && Step(db, op) == db
    case Unchanged => EffectOf(db, op).Ok? && Step(db, op) == db
    case Changed => EffectOf(db, op).Ok? && Step(db, op) != db && ChangedAsAsked(db, op, Step(db, op))
  }

  // ---------- The index and the roles say the same

  lemma PairsAreFriendships(db: Db, a: Id, b: Id)
    requires TablesInv(db)
    ensures {a, b} in db.pairs <==> exists f :: Between(db, f, a, b)
    ensures forall f :: Between(db, f, a, b) ==> {a, b} in db.pairs && db.pairs[{a, b}] == f
  {
    if {a, b} in db.pairs {
      assert Between(db, db.pairs[{a, b}], a, b);
    }
  }

  // A friendship of two was asked by one or the other.
  lemma BetweenIsAsked(db: Db, a: Id, b: Id)
    requires a != b
    ensures forall f :: Between(db, f, a, b) <==> AskedBy(db, f, a, b) || AskedBy(db, f, b, a)
  {
    forall f | Between(db, f, a, b)
      ensures AskedBy(db, f, a, b) || AskedBy(db, f, b, a)
    {
      var two := {db.friendships[f].requester, db.friendships[f].addressee};
      assert a in two && b in two;
    }
  }

  // What the index tells of a pair is who asked whom.
  lemma IndexTellsWhoAsked(db: Db, a: Id, b: Id)
    requires TablesInv(db) && a != b
    ensures {a, b} in db.pairs <==> (exists f :: AskedBy(db, f, a, b)) || (exists f :: AskedBy(db, f, b, a))
    ensures {a, b} in db.pairs ==>
              && db.pairs[{a, b}] in db.friendships
              && (AskedBy(db, db.pairs[{a, b}], a, b) <==> exists f :: AskedBy(db, f, a, b))
  {
    PairsAreFriendships(db, a, b);
    BetweenIsAsked(db, a, b);
    if {a, b} in db.pairs {
      assert Between(db, db.pairs[{a, b}], a, b);
    }
  }

  lemma RequestsAreAnswered(db: Db, actor: Id, addressee: Id, newId: Id)
    requires Inv(db)
    ensures Follows(db, RequestFriend(actor, addressee, newId), VerdictOf(db, RequestFriend(actor, addressee, newId)))
  {
    var op := RequestFriend(actor, addressee, newId);
    if actor != addressee {
      IndexTellsWhoAsked(db, actor, addressee);
    }
    if EffectOf(db, op).Ok? {
      EveryRowIsRecorded(db, op);
    }
    NothingRecorded(db);
  }

  lemma NothingRecorded(db: Db)
    ensures AppendAll(db.ledger, []) == db.ledger && db.(ledger := db.ledger) == db
  {
  }

  lemma AnswersAreAnswered(db: Db, actor: Id, f: Id, accept: bool)
    requires Inv(db)
    ensures Follows(db, Respond(actor, f, accept), VerdictOf(db, Respond(actor, f, accept)))
  {
    var op := Respond(actor, f, accept);
    if EffectOf(db, op).Ok? {
      EveryRowIsRecorded(db, op);
    }
    NothingRecorded(db);
    if f in db.friendships {
      assert Step(db, op) != db ==> Step(db, op).friendships[f].status != db.friendships[f].status;
    }
  }

  lemma RoomsAreAnswered(db: Db, actor: Id, newId: Id, nameIsValid: bool)
    requires Inv(db)
    ensures Follows(db, CreateRoom(actor, newId, nameIsValid), VerdictOf(db, CreateRoom(actor, newId, nameIsValid)))
  {
    var op := CreateRoom(actor, newId, nameIsValid);
    if EffectOf(db, op).Ok? {
      EveryRowIsRecorded(db, op);
    }
  }

  // Being host is owning the room.
  lemma HostsOwn(db: Db, user: Id, room: Id)
    requires TablesInv(db)
    ensures Seat(room, user) in db.memberships ==>
              room in db.owners && (db.memberships[Seat(room, user)].role == Host <==> OwnsRoom(db, user, room))
    ensures ActiveIn(db, Seat(room, user)) <==> Present(db, user, room)
  {
  }

  lemma FriendsAreFriends(db: Db, a: Id, b: Id)
    requires TablesInv(db)
    ensures Friends(db, a, b) <==> AreFriends(db, a, b)
  {
    PairsAreFriendships(db, a, b);
    if Friends(db, a, b) {
      assert Between(db, db.pairs[{a, b}], a, b);
    }
  }

  lemma InvitationsAreAnswered(db: Db, actor: Id, room: Id, invitee: Id, newId: Id)
    requires Inv(db)
    ensures Follows(db, Invite(actor, room, invitee, newId), VerdictOf(db, Invite(actor, room, invitee, newId)))
  {
    var op, seat := Invite(actor, room, invitee, newId), Seat(room, invitee);
    HostsOwn(db, actor, room);
    HostsOwn(db, invitee, room);
    FriendsAreFriends(db, actor, invitee);
    if EffectOf(db, op).Ok? {
      InvitedSeat(db, actor, room, invitee, newId);
      EveryRowIsRecorded(db, op);
      NothingRecorded(db);
      assert seat in Step(db, op).memberships;
    }
  }

  lemma DeparturesAreAnswered(db: Db, actor: Id, room: Id)
    requires Inv(db)
    ensures Follows(db, Leave(actor, room), VerdictOf(db, Leave(actor, room)))
  {
    var op := Leave(actor, room);
    HostsOwn(db, actor, room);
    if EffectOf(db, op).Ok? {
      EveryRowIsRecorded(db, op);
      assert Step(db, op).memberships[Seat(room, actor)].departed;
    }
  }

  lemma SessionsAreAnswered(db: Db, actor: Id, room: Id, newId: Id, textIsValid: bool)
    requires Inv(db)
    ensures var op := CreateSession(actor, room, newId, textIsValid); Follows(db, op, VerdictOf(db, op))
  {
    var op := CreateSession(actor, room, newId, textIsValid);
    HostsOwn(db, actor, room);
    if EffectOf(db, op).Ok? {
      EveryRowIsRecorded(db, op);
      assert newId in Step(db, op).sessions;
    }
  }

  lemma ArchivesAreAnswered(db: Db, actor: Id, session: Id)
    requires Inv(db)
    ensures Follows(db, Archive(actor, session), VerdictOf(db, Archive(actor, session)))
  {
    var op := Archive(actor, session);
    if session in db.sessions {
      HostsOwn(db, actor, db.sessions[session].room);
    }
    if EffectOf(db, op).Ok? {
      EveryRowIsRecorded(db, op);
      NothingRecorded(db);
      assert Step(db, op).sessions[session].archived;
    }
  }

  lemma StepFollows(db: Db, op: Transaction)
    requires Inv(db)
    ensures Follows(db, op, VerdictOf(db, op))
  {
    match op
    case Register(user) => NothingRecorded(db);
    case RequestFriend(actor, addressee, newId) => RequestsAreAnswered(db, actor, addressee, newId);
    case Respond(actor, f, accept) => AnswersAreAnswered(db, actor, f, accept);
    case CreateRoom(actor, newId, nameIsValid) => RoomsAreAnswered(db, actor, newId, nameIsValid);
    case Invite(actor, room, invitee, newId) => InvitationsAreAnswered(db, actor, room, invitee, newId);
    case Leave(actor, room) => DeparturesAreAnswered(db, actor, room);
    case CreateSession(actor, room, newId, textIsValid) => SessionsAreAnswered(db, actor, room, newId, textIsValid);
    case Archive(actor, session) => ArchivesAreAnswered(db, actor, session);
  }

  // ---------- Main results, in every run

  // Every request gets exactly the verdict, and a change is exactly the one asked
  // for, with its rows.
  lemma EveryRequestIsAnswered(ops: seq<Transaction>, op: Transaction)
    ensures Follows(Run(ops), op, VerdictOf(Run(ops), op))
  {
    RunKeepsInv(ops);
    StepFollows(Run(ops), op);
  }

  // A friendship is answered only by the one who was asked, once, as they say;
  // who asked whom never changes.
  lemma OnlyTheAddresseeAnswers(ops: seq<Transaction>, op: Transaction, f: Id)
    requires f in Run(ops).friendships
    ensures var db, next := Run(ops), Step(Run(ops), op);
            && f in next.friendships
            && next.friendships[f] == db.friendships[f].(status := next.friendships[f].status)
            && (next.friendships[f].status != db.friendships[f].status ==>
                  && op.Respond? && op.friendship == f && op.actor == db.friendships[f].addressee
                  && db.friendships[f].status == Pending
                  && next.friendships[f].status == if op.accept then Accepted else Rejected)
  {
    EveryRequestIsAnswered(ops, op);
  }

  // Friendships begin as a request by their requester to someone registered.
  lemma OnlyTheRequesterAsks(ops: seq<Transaction>, op: Transaction, f: Id)
    requires f !in Run(ops).friendships && f in Step(Run(ops), op).friendships
    ensures op.RequestFriend? && op.newId == f && op.actor != op.addressee
            && op.actor in Run(ops).users && op.addressee in Run(ops).users
            && Step(Run(ops), op).friendships[f] == Friendship(op.actor, op.addressee, Pending)
            && forall g :: !Between(Run(ops), g, op.actor, op.addressee)
  {
    EveryRequestIsAnswered(ops, op);
    BetweenIsAsked(Run(ops), op.actor, op.addressee);
  }

  // A seat appears with its room for the owner, or else by the owner's
  // invitation of a friend.
  lemma OnlyTheOwnerInvites(ops: seq<Transaction>, op: Transaction, seat: Seat)
    requires seat !in Run(ops).memberships && seat in Step(Run(ops), op).memberships
    ensures var db, next := Run(ops), Step(Run(ops), op);
            && seat.room in next.owners && !next.memberships[seat].departed
            && if seat.user == next.owners[seat.room] then
                 op.CreateRoom? && op.newId == seat.room && op.actor == seat.user && seat.room !in db.owners
               else
                 && op.Invite? && op.room == seat.room && op.invitee == seat.user
                 && OwnsRoom(db, op.actor, seat.room) && AreFriends(db, op.actor, seat.user)
  {
    EveryRequestIsAnswered(ops, op);
    if op.Invite? {
      RunKeepsInv(ops);
    }
  }

  // A membership changes only by its own user leaving, never by the owner.
  lemma OnlyMembersLeave(ops: seq<Transaction>, op: Transaction, seat: Seat)
    requires seat in Run(ops).memberships
    ensures var db, next := Run(ops), Step(Run(ops), op);
            && seat in next.memberships
            && (next.memberships[seat] != db.memberships[seat] ==>
                  && op.Leave? && op.actor == seat.user && op.room == seat.room
                  && !OwnsRoom(db, seat.user, seat.room)
                  && next.memberships[seat] == db.memberships[seat].(departed := true)
                  && !db.memberships[seat].departed)
  {
    EveryRequestIsAnswered(ops, op);
    SeatsAreInRooms(ops, seat);
  }

  lemma SeatsAreInRooms(ops: seq<Transaction>, seat: Seat)
    requires seat in Run(ops).memberships
    ensures seat.room in Run(ops).owners
    ensures Run(ops).memberships[seat].role == Host <==> OwnsRoom(Run(ops), seat.user, seat.room)
  {
    RunKeepsInv(ops);
  }

  // A session is created, and archived for good, only by the owner of its room.
  lemma OnlyTheOwnerHoldsSessions(ops: seq<Transaction>, op: Transaction, session: Id)
    requires session in Step(Run(ops), op).sessions
    ensures var db, next := Run(ops), Step(Run(ops), op);
            if session !in db.sessions then
              && op.CreateSession? && op.newId == session && OwnsRoom(db, op.actor, op.room)
              && next.sessions[session] == Session(op.room, op.actor, false)
            else
              next.sessions[session] == db.sessions[session]
              || (&& op.Archive? && op.session == session && OwnsRoom(db, op.actor, db.sessions[session].room)
                  && next.sessions[session] == db.sessions[session].(archived := true))
  {
    EveryRequestIsAnswered(ops, op);
  }

  // Everything else stays: users, rooms, friendships, invitations and sessions
  // are never removed, and a room keeps its owner.
  lemma NothingIsRemoved(ops: seq<Transaction>, op: Transaction)
    ensures var db, next := Run(ops), Step(Run(ops), op);
            && db.users <= next.users && db.friendships.Keys <= next.friendships.Keys
            && db.sessions.Keys <= next.sessions.Keys && db.ledger <= next.ledger
            && (forall room :: room in db.owners ==> room in next.owners && next.owners[room] == db.owners[room])
            && (forall seat :: seat in db.invitations ==>
                  seat in next.invitations && next.invitations[seat] == db.invitations[seat])
  {
    EveryRequestIsAnswered(ops, op);
    if op.Invite? {
      InvitedAreSeated(ops, Seat(op.room, op.invitee));
    }
  }

  lemma InvitedAreSeated(ops: seq<Transaction>, seat: Seat)
    ensures seat in Run(ops).invitations ==> seat in Run(ops).memberships
  {
    RunKeepsInv(ops);
  }
}
