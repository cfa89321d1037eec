// The tables of friends, rooms and sessions, and the activity ledger, as one
// transaction of collaboration_service.py after another leaves them.
module CollaborationModel {
  import opened Wrappers
  import opened ActivityPolicy

  // Identifiers print without a colon, as UUIDs do.
  type Id = s: string | ':' !in s

  datatype Status = Pending | Accepted | Rejected

  datatype Friendship = Friendship(requester: Id, addressee: Id, status: Status)

  datatype Role = Host | Member

  datatype Membership = Membership(role: Role, departed: bool)

  datatype Invitation = Invitation(id: Id, inviter: Id, status: Status)

  datatype Session = Session(room: Id, host: Id, archived: bool)

  // A place in a room: its room and its user.
  datatype Seat = Seat(room: Id, user: Id)

  // ---------- Ledger rows

  // What a row's key identifies.
  datatype Subject =
    | AboutFriendship(friendship: Id, audience: Id)
    | AboutRoom(room: Id)
    | AboutSeat(seat: Seat)
    | AboutSession(session: Id)

  // A row's key column is the key of its type and subject.
  datatype Row = Row(eventType: EventType, subject: Subject, actor: Id)

  function IdentityOf(subject: Subject): Identity {
    match subject
    case AboutFriendship(f, audience) => Identity(map[FriendshipId := f, AudienceUserId := audience], false)
    case AboutRoom(room) => Identity(map[RoomId := room], false)
    case AboutSeat(seat) => Identity(map[RoomId := seat.room, UserId := seat.user], false)
    case AboutSession(session) => Identity(map[SessionId := session], false)
  }

  // The event types these operations record, with the subject each one takes.
  predicate Fitting(t: EventType, subject: Subject) {
    match subject
    case AboutFriendship(_, _) => t == FriendshipRequested || t == FriendshipAccepted || t == FriendshipRejected
    case AboutRoom(_) => t == RoomCreated
    case AboutSeat(_) => t == RoomMemberAdded || t == RoomMemberLeft
    case AboutSession(_) => t == SessionCreated || t == SessionArchived
  }

  lemma FittingHasKey(t: EventType, subject: Subject)
    requires Fitting(t, subject)
    ensures KeyFor(t, IdentityOf(subject)).Ok?
  {
    FillSucceeds(Parts(t, false), IdentityOf(subject));
  }

  function KeyOf(row: Row): Result<string, KeyError> {
    KeyFor(row.eventType, IdentityOf(row.subject))
  }

  lemma PartsShowSubject(t: EventType, first: Subject, second: Subject)
    requires Fitting(t, first) && Fitting(t, second)
    requires SameIdentities(Parts(t, false), IdentityOf(first), IdentityOf(second))
    ensures first == second
  {
    var parts := Parts(t, false);
    assert parts[1].Value?;
    match first
    case AboutFriendship(_, _) => assert parts[4].Value?;
    case AboutRoom(_) =>
    case AboutSeat(_) => assert parts[3].Value?;
    case AboutSession(_) =>
  }

  // Rows of different facts never share a key.
  lemma KeyIsInjective(first: Row, second: Row)
    requires Fitting(first.eventType, first.subject) && Fitting(second.eventType, second.subject)
    requires KeyOf(first) == KeyOf(second)
    ensures first.eventType == second.eventType && first.subject == second.subject
  {
    FittingHasKey(first.eventType, first.subject);
    FittingHasKey(second.eventType, second.subject);
    EventKeyInjective(first.eventType, IdentityOf(first.subject), second.eventType, IdentityOf(second.subject));
    PartsShowSubject(first.eventType, first.subject, second.subject);
  }

  predicate KeyTaken(ledger: seq<Row>, row: Row) {
    exists other :: other in ledger && KeyOf(other) == KeyOf(row)
  }

  // Insert, or ignore when the key is taken.
  function Append(ledger: seq<Row>, row: Row): seq<Row> {
    if KeyTaken(ledger, row) then ledger else ledger + [row]
  }

  function AppendAll(ledger: seq<Row>, rows: seq<Row>): seq<Row>
    decreases |rows|
  {
    if rows == [] then ledger else AppendAll(Append(ledger, rows[0]), rows[1..])
  }

  // ---------- Tables

  // pairs is the unique index on the unordered pair of a friendship's users.
  datatype Db = Db(users: set<Id>, friendships: map<Id, Friendship>, pairs: map<set<Id>, Id>, owners: map<Id, Id>,
                   memberships: map<Seat, Membership>, invitations: map<Seat, Invitation>, sessions: map<Id, Session>,
                   ledger: seq<Row>)

  datatype Error = Conflict | UserUnavailable | PairNotPersisted | AccessDenied | StateConflict | HostRequired
                 | FriendshipRequired | InvalidText | IdTaken | UnknownActor

  datatype Transaction =
    | Register(user: Id)
    | RequestFriend(actor: Id, addressee: Id, newId: Id)
    | Respond(actor: Id, friendship: Id, accept: bool)
    | CreateRoom(actor: Id, newId: Id, nameIsValid: bool)
    | Invite(actor: Id, room: Id, invitee: Id, newId: Id)
    | Leave(actor: Id, room: Id)
    | CreateSession(actor: Id, room: Id, newId: Id, textIsValid: bool)
    | Archive(actor: Id, session: Id)

  // What a transaction does: the tables it leaves and the rows it records, or
  // an error and no change.
  datatype Effect = Effect(tables: Db, rows: seq<Row>)

  type Outcome = Result<Effect, Error>

  function RequestFriendEffect(db: Db, actor: Id, addressee: Id, newId: Id): Outcome {
    if actor == addressee then Err(Conflict)
    else if addressee !in db.users then Err(UserUnavailable)
    else if {actor, addressee} in db.pairs && db.pairs[{actor, addressee}] in db.friendships then
      var existing := db.friendships[db.pairs[{actor, addressee}]];
      if existing.requester != actor || existing.addressee != addressee then Err(Conflict) else Ok(Effect(db, []))
    else if newId in db.friendships then Err(PairNotPersisted)
    else if actor !in db.users then Err(UnknownActor)
    else
      Ok(Effect(db.(friendships := db.friendships[newId := Friendship(actor, addressee, Pending)],
                    pairs := db.pairs[{actor, addressee} := newId]),
                [Row(FriendshipRequested, AboutFriendship(newId, actor), actor),
                 Row(FriendshipRequested, AboutFriendship(newId, addressee), actor)]))
  }

  function RespondEffect(db: Db, actor: Id, friendship: Id, accept: bool): Outcome {
    var target := if accept then Accepted else Rejected;
    if friendship !in db.friendships || db.friendships[friendship].addressee != actor then Err(AccessDenied)
    else
      var current := db.friendships[friendship];
      if current.status == Pending then
        var t := if accept then FriendshipAccepted else FriendshipRejected;
        Ok(Effect(db.(friendships := db.friendships[friendship := current.(status := target)]),
                  [Row(t, AboutFriendship(friendship, current.requester), actor),
                   Row(t, AboutFriendship(friendship, current.addressee), actor)]))
      else if current.status != target then Err(StateConflict)
      else Ok(Effect(db, []))
  }

  function CreateRoomEffect(db: Db, actor: Id, newId: Id, nameIsValid: bool): Outcome {
    if !nameIsValid then Err(InvalidText)
    else if newId in db.owners || Seat(newId, actor) in db.memberships then Err(IdTaken)
    else if actor !in db.users then Err(UnknownActor)
    else Ok(Effect(db.(owners := db.owners[newId := actor],
                       memberships := db.memberships[Seat(newId, actor) := Membership(Host, false)]),
                   [Row(RoomCreated, AboutRoom(newId), actor)]))
  }

  predicate ActiveIn(db: Db, seat: Seat) {
    seat.room in db.owners && seat in db.memberships && !db.memberships[seat].departed
  }

  predicate Friends(db: Db, a: Id, b: Id) {
    {a, b} in db.pairs && db.pairs[{a, b}] in db.friendships && db.friendships[db.pairs[{a, b}]].status == Accepted
  }

  predicate InvitationIdTaken(invitations: map<Seat, Invitation>, id: Id) {
    exists seat :: seat in invitations && invitations[seat].id == id
  }

  function InviteEffect(db: Db, actor: Id, room: Id, invitee: Id, newId: Id): Outcome {
    var seat := Seat(room, invitee);
    if actor == invitee then Err(Conflict)
    else if !ActiveIn(db, Seat(room, actor)) then Err(AccessDenied)
    else if db.memberships[Seat(room, actor)].role != Host then Err(HostRequired)
    else if invitee !in db.users then Err(UserUnavailable)
    else if !Friends(db, actor, invitee) then Err(FriendshipRequired)
    else
      var invited := seat in db.invitations && db.invitations[seat].status == Accepted;
      var present := seat in db.memberships && !db.memberships[seat].departed;
      if invited && !present then Err(Conflict)
      else if seat !in db.invitations && InvitationIdTaken(db.invitations, newId) then Err(IdTaken)
      else
        var invitation := if seat !in db.invitations then Invitation(newId, actor, Accepted)
                          else if !invited then Invitation(db.invitations[seat].id, actor, Accepted)
                          else db.invitations[seat];
        var membership := if seat !in db.memberships then Membership(Member, false)
                          else db.memberships[seat].(departed := false);
        Ok(Effect(db.(invitations := db.invitations[seat := invitation],
                      memberships := db.memberships[seat := membership]),
                  if invited && present then [] else [Row(RoomMemberAdded, AboutSeat(seat), actor)]))
  }

  function LeaveEffect(db: Db, actor: Id, room: Id): Outcome {
    var seat := Seat(room, actor);
    if !ActiveIn(db, seat) then Err(AccessDenied)
    else if db.memberships[seat].role == Host then Err(HostRequired)
    else Ok(Effect(db.(memberships := db.memberships[seat := db.memberships[seat].(departed := true)]),
                   [Row(RoomMemberLeft, AboutSeat(seat), actor)]))
  }

  function CreateSessionEffect(db: Db, actor: Id, room: Id, newId: Id, textIsValid: bool): Outcome {
    if !textIsValid then Err(InvalidText)
    else if !ActiveIn(db, Seat(room, actor)) then Err(AccessDenied)
    else if db.memberships[Seat(room, actor)].role != Host then Err(HostRequired)
    else if newId in db.sessions then Err(IdTaken)
    else Ok(Effect(db.(sessions := db.sessions[newId := Session(room, actor, false)]),
                   [Row(SessionCreated, AboutSession(newId), actor)]))
  }

  function ArchiveEffect(db: Db, actor: Id, session: Id): Outcome {
    if session !in db.sessions then Err(AccessDenied)
    else
      var seat := Seat(db.sessions[session].room, actor);
      if seat !in db.memberships || db.memberships[seat].departed then Err(AccessDenied)
      else if db.memberships[seat].role != Host then Err(HostRequired)
      else if db.sessions[session].archived then Ok(Effect(db, []))
      else Ok(Effect(db.(sessions := db.sessions[session := db.sessions[session].(archived := true)]),
                     [Row(SessionArchived, AboutSession(session), actor)]))
  }

  function EffectOf(db: Db, op: Transaction): Outcome {
    match op
    case Register(user) => Ok(Effect(db.(users := db.users + {user}), []))
    case RequestFriend(actor, addressee, newId) => RequestFriendEffect(db, actor, addressee, newId)
    case Respond(actor, friendship, accept) => RespondEffect(db, actor, friendship, accept)
    case CreateRoom(actor, newId, nameIsValid) => CreateRoomEffect(db, actor, newId, nameIsValid)
    case Invite(actor, room, invitee, newId) => InviteEffect(db, actor, room, invitee, newId)
    case Leave(actor, room) => LeaveEffect(db, actor, room)
    case CreateSession(actor, room, newId, textIsValid) => CreateSessionEffect(db, actor, room, newId, textIsValid)
    case Archive(actor, session) => ArchiveEffect(db, actor, session)
  }

  // The tables and the ledger after a transaction.
  function Committed(db: Db, outcome: Outcome): Db {
    match outcome
    case Err(_) => db
    case Ok(effect) => effect.tables.(ledger := AppendAll(db.ledger, effect.rows))
  }

  function Step(db: Db, op: Transaction): Db {
    Committed(db, EffectOf(db, op))
  }

  const EMPTY: Db := Db({}, map[], map[], map[], map[], map[], map[], [])

  function Run(ops: seq<Transaction>): Db {
    if ops == [] then EMPTY else Step(Run(ops[..|ops| - 1]), ops[|ops| - 1])
  }
}
