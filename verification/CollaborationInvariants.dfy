// What holds in every run of the collaboration transactions: the ledger
// rebuilds the tables, and rooms keep their host.
module CollaborationInvariants {
  import opened Wrappers
  import opened ActivityPolicy
  import opened CollaborationModel

  // ---------- Replaying the ledger

  datatype View = View(friendships: map<Id, Status>, rooms: set<Id>, joined: set<Seat>, left: set<Seat>,
                       sessions: set<Id>, archived: set<Id>)

  const NOTHING: View := View(map[], {}, {}, {}, {}, {})

  // What one row says, from its type, subject and actor alone.
  function Apply(view: View, row: Row): View {
    match row.subject
    case AboutFriendship(f, _) =>
      (match row.eventType
       case FriendshipRequested =>
         if f in view.friendships then view else view.(friendships := view.friendships[f := Pending])
       case FriendshipAccepted => view.(friendships := view.friendships[f := Accepted])
       case FriendshipRejected => view.(friendships := view.friendships[f := Rejected])
       case _ => view)
    case AboutRoom(room) =>
      if row.eventType == RoomCreated
      then view.(rooms := view.rooms + {room}, joined := view.joined + {Seat(room, row.actor)}) else view
    case AboutSeat(seat) =>
      (match row.eventType
       case RoomMemberAdded => view.(joined := view.joined + {seat})
       case RoomMemberLeft => view.(left := view.left + {seat})
       case _ => view)
    case AboutSession(session) =>
      (match row.eventType
       case SessionCreated => view.(sessions := view.sessions + {session})
       case SessionArchived => view.(archived := view.archived + {session})
       case _ => view)
  }

  function Replay(ledger: seq<Row>): View {
    if ledger == [] then NOTHING else Apply(Replay(ledger[..|ledger| - 1]), ledger[|ledger| - 1])
  }

  // What the tables say.
  function ViewOf(db: Db): View {
    View((map f | f in db.friendships :: db.friendships[f].status),
         db.owners.Keys,
         db.memberships.Keys,
         (set seat | seat in db.memberships && db.memberships[seat].departed),
         db.sessions.Keys,
         (set s | s in db.sessions && db.sessions[s].archived))
  }

  // ---------- Invariants

  ghost predicate LedgerInv(ledger: seq<Row>) {
    forall row :: row in ledger ==> Fitting(row.eventType, row.subject)
  }

  // The index has exactly the pairs of the friendships, whose users differ.
  ghost predicate PairsInv(friendships: map<Id, Friendship>, pairs: map<set<Id>, Id>) {
    && (forall pair :: pair in pairs ==>
          && pairs[pair] in friendships
          && pair == {friendships[pairs[pair]].requester, friendships[pairs[pair]].addressee})
    && (forall f :: f in friendships ==>
          var pair := {friendships[f].requester, friendships[f].addressee};
          && friendships[f].requester != friendships[f].addressee
          && pair in pairs && pairs[pair] == f)
  }

  // One host per room, the owner, who never departs; everyone else in a room
  // holds an accepted invitation, and every invitation was taken up.
  ghost predicate RoomsInv(owners: map<Id, Id>, memberships: map<Seat, Membership>,
                           invitations: map<Seat, Invitation>) {
    && (forall room :: room in owners ==> Seat(room, owners[room]) in memberships)
    && (forall seat :: seat in memberships ==>
          && seat.room in owners
          && (memberships[seat].role == Host <==> seat.user == owners[seat.room])
          && (memberships[seat].role == Host ==> !memberships[seat].departed)
          && (memberships[seat].role == Member ==> seat in invitations))
    && (forall seat :: seat in invitations ==> invitations[seat].status == Accepted && seat in memberships)
  }

  ghost predicate TablesInv(db: Db) {
    PairsInv(db.friendships, db.pairs) && RoomsInv(db.owners, db.memberships, db.invitations)
  }

  ghost predicate LedgerRebuilds(db: Db) {
    LedgerInv(db.ledger) && Replay(db.ledger) == ViewOf(db)
  }

  ghost predicate Inv(db: Db) {
    LedgerRebuilds(db) && TablesInv(db)
  }

  // ---------- New rows are never swallowed

  // What a recorded row leaves in the replayed view for good.
  ghost predicate Shows(view: View, t: EventType, subject: Subject) {
    match subject
    case AboutFriendship(f, _) =>
      f in view.friendships && (t != FriendshipRequested ==> view.friendships[f] != Pending)
    case AboutRoom(room) => room in view.rooms
    case AboutSeat(seat) => seat in (if t == RoomMemberAdded then view.joined else view.left)
    case AboutSession(session) => session in (if t == SessionCreated then view.sessions else view.archived)
  }

  lemma ApplyShows(view: View, row: Row)
    requires Fitting(row.eventType, row.subject)
    ensures Shows(Apply(view, row), row.eventType, row.subject)
  {
  }

  lemma ApplyKeepsShown(view: View, row: Row, t: EventType, subject: Subject)
    requires Shows(view, t, subject)
    ensures Shows(Apply(view, row), t, subject)
  {
  }

  lemma {:induction false} ReplayShows(ledger: seq<Row>, row: Row)
    requires LedgerInv(ledger) && row in ledger
    ensures Shows(Replay(ledger), row.eventType, row.subject)
  {
    var init, last := ledger[..|ledger| - 1], ledger[|ledger| - 1];
    assert ledger == init + [last];
    if row == last {
      ApplyShows(Replay(init), last);
    } else {
      ReplayShows(init, row);
      ApplyKeepsShown(Replay(init), last, row.eventType, row.subject);
    }
  }

  // A row whose fact the view does not show yet has a key that is not taken.
  lemma UnshownIsNew(ledger: seq<Row>, row: Row)
    requires LedgerInv(ledger) && Fitting(row.eventType, row.subject)
        && !Shows(Replay(ledger), row.eventType, row.subject)
    ensures !KeyTaken(ledger, row)
  {
    if KeyTaken(ledger, row) {
      var other :| other in ledger && KeyOf(other) == KeyOf(row);
      KeyIsInjective(other, row);
      ReplayShows(ledger, other);
    }
  }

  lemma {:induction false} ReplayConcat(ledger: seq<Row>, row: Row)
    ensures Replay(ledger + [row]) == Apply(Replay(ledger), row)
  {
    assert (ledger + [row])[..|ledger|] == ledger;
  }

  // One new row is appended.
  lemma RecordsOne(ledger: seq<Row>, row: Row)
    requires LedgerInv(ledger) && Fitting(row.eventType, row.subject)
        && !Shows(Replay(ledger), row.eventType, row.subject)
    ensures AppendAll(ledger, [row]) == ledger + [row]
    ensures LedgerInv(ledger + [row]) && Replay(ledger + [row]) == Apply(Replay(ledger), row)
  {
    UnshownIsNew(ledger, row);
    ReplayConcat(ledger, row);
    assert [row][1..] == [];
    assert AppendAll(ledger, [row]) == AppendAll(Append(ledger, row), []);
  }

  // Two new rows of one type about one friendship are both appended.
  lemma RecordsBoth(ledger: seq<Row>, first: Row, second: Row)
    requires LedgerInv(ledger) && Fitting(first.eventType, first.subject) && Fitting(second.eventType, second.subject)
    requires !Shows(Replay(ledger), first.eventType, first.subject)
        && !Shows(Replay(ledger), second.eventType, second.subject)
    requires first.subject != second.subject
    ensures AppendAll(ledger, [first, second]) == ledger + [first] + [second]
    ensures LedgerInv(ledger + [first] + [second])
    ensures Replay(ledger + [first] + [second]) == Apply(Apply(Replay(ledger), first), second)
  {
    UnshownIsNew(ledger, first);
    UnshownIsNew(ledger, second);
    if KeyTaken(ledger + [first], second) {
      assert KeyOf(first) == KeyOf(second);
      KeyIsInjective(first, second);
    }
    ReplayConcat(ledger, first);
    ReplayConcat(ledger + [first], second);
    assert [first, second][1..] == [second] && [second][1..] == [];
    assert AppendAll(ledger, [first, second]) == AppendAll(Append(ledger, first), [second]);
    assert AppendAll(ledger + [first], [second]) == AppendAll(Append(ledger + [first], second), []);
  }

  // ---------- Every transaction keeps the tables consistent

  lemma RequestFriendKeepsPairs(db: Db, actor: Id, addressee: Id, newId: Id)
    requires TablesInv(db) && RequestFriendEffect(db, actor, addressee, newId).Ok?
    ensures TablesInv(RequestFriendEffect(db, actor, addressee, newId).value.tables)
  {
    var next := RequestFriendEffect(db, actor, addressee, newId).value.tables;
    if next != db {
      var pair := {actor, addressee};
      assert pair !in db.pairs;
      forall f | f in db.friendships
        ensures next.friendships[f] == db.friendships[f]
            && {db.friendships[f].requester, db.friendships[f].addressee} != pair
      {
      }
    }
  }

  lemma RespondKeepsPairs(db: Db, actor: Id, friendship: Id, accept: bool)
    requires TablesInv(db) && RespondEffect(db, actor, friendship, accept).Ok?
    ensures TablesInv(RespondEffect(db, actor, friendship, accept).value.tables)
  {
  }

  lemma CreateRoomKeepsRooms(db: Db, actor: Id, newId: Id, nameIsValid: bool)
    requires TablesInv(db) && CreateRoomEffect(db, actor, newId, nameIsValid).Ok?
    ensures TablesInv(CreateRoomEffect(db, actor, newId, nameIsValid).value.tables)
  {
    var next := CreateRoomEffect(db, actor, newId, nameIsValid).value.tables;
    forall seat | seat in db.memberships
      ensures next.memberships[seat] == db.memberships[seat] && next.owners[seat.room] == db.owners[seat.room]
    {
    }
  }

  // The seat of an invitation that succeeds was not taken before, or is taken
  // and stays as it was: the branch that restores a departed seat is dead.
  lemma InvitedSeat(db: Db, actor: Id, room: Id, invitee: Id, newId: Id)
    requires TablesInv(db) && InviteEffect(db, actor, room, invitee, newId).Ok?
    ensures var seat := Seat(room, invitee);
            && (seat in db.memberships ==>
                  && !db.memberships[seat].departed
                  && InviteEffect(db, actor, room, invitee, newId).value == Effect(db, []))
            && room in db.owners && invitee != db.owners[room]
  {
    var seat := Seat(room, invitee);
    assert Seat(room, actor) in db.memberships;
    if seat in db.memberships {
      var next := InviteEffect(db, actor, room, invitee, newId).value.tables;
      assert next.memberships == db.memberships && next.invitations == db.invitations;
    }
  }

  lemma InviteKeepsRooms(db: Db, actor: Id, room: Id, invitee: Id, newId: Id)
    requires TablesInv(db) && InviteEffect(db, actor, room, invitee, newId).Ok?
    ensures TablesInv(InviteEffect(db, actor, room, invitee, newId).value.tables)
  {
    InvitedSeat(db, actor, room, invitee, newId);
  }

  lemma LeaveKeepsRooms(db: Db, actor: Id, room: Id)
    requires TablesInv(db) && LeaveEffect(db, actor, room).Ok?
    ensures TablesInv(LeaveEffect(db, actor, room).value.tables)
  {
  }

  lemma TablesStayConsistent(db: Db, op: Transaction)
    requires TablesInv(db) && EffectOf(db, op).Ok?
    ensures TablesInv(EffectOf(db, op).value.tables)
  {
    match op
    case RequestFriend(actor, addressee, newId) => RequestFriendKeepsPairs(db, actor, addressee, newId);
    case Respond(actor, friendship, accept) => RespondKeepsPairs(db, actor, friendship, accept);
    case CreateRoom(actor, newId, nameIsValid) => CreateRoomKeepsRooms(db, actor, newId, nameIsValid);
    case Invite(actor, room, invitee, newId) => InviteKeepsRooms(db, actor, room, invitee, newId);
    case Leave(actor, room) => LeaveKeepsRooms(db, actor, room);
    case _ =>
  }

  // ---------- Every transaction's rows are new and rebuild its tables

  // The rows are all appended, and the view of the new tables is the old view
  // with the rows applied.
  ghost predicate Records(db: Db, effect: Effect) {
    && AppendAll(db.ledger, effect.rows) == db.ledger + effect.rows
    && LedgerInv(db.ledger + effect.rows)
    && Replay(db.ledger + effect.rows) == ViewOf(effect.tables)
  }

  lemma NoRows(db: Db)
    requires LedgerRebuilds(db)
    ensures Records(db, Effect(db, []))
  {
    assert db.ledger + [] == db.ledger;
  }

  // Recording needs only: rows that the view does not show, and the new view.
  lemma OneRow(db: Db, effect: Effect, row: Row)
    requires LedgerRebuilds(db) && effect.rows == [row] && Fitting(row.eventType, row.subject)
    requires !Shows(ViewOf(db), row.eventType, row.subject)
    requires ViewOf(effect.tables) == Apply(ViewOf(db), row)
    ensures Records(db, effect)
  {
    RecordsOne(db.ledger, row);
  }

  lemma TwoRows(db: Db, effect: Effect, first: Row, second: Row)
    requires LedgerRebuilds(db) && effect.rows == [first, second] && first.subject != second.subject
    requires Fitting(first.eventType, first.subject) && Fitting(second.eventType, second.subject)
    requires !Shows(ViewOf(db), first.eventType, first.subject) && !Shows(ViewOf(db), second.eventType, second.subject)
    requires ViewOf(effect.tables) == Apply(Apply(ViewOf(db), first), second)
    ensures Records(db, effect)
  {
    RecordsBoth(db.ledger, first, second);
    assert db.ledger + effect.rows == db.ledger + [first] + [second];
  }

  lemma RequestFriendRecords(db: Db, actor: Id, addressee: Id, newId: Id)
    requires LedgerRebuilds(db) && RequestFriendEffect(db, actor, addressee, newId).Ok?
    ensures Records(db, RequestFriendEffect(db, actor, addressee, newId).value)
  {
    var effect := RequestFriendEffect(db, actor, addressee, newId).value;
    if effect.rows == [] {
      NoRows(db);
    } else {
      assert ViewOf(effect.tables).friendships == ViewOf(db).friendships[newId := Pending];
      TwoRows(db, effect, effect.rows[0], effect.rows[1]);
    }
  }

  lemma RespondRecords(db: Db, actor: Id, friendship: Id, accept: bool)
    requires LedgerRebuilds(db) && TablesInv(db) && RespondEffect(db, actor, friendship, accept).Ok?
    ensures Records(db, RespondEffect(db, actor, friendship, accept).value)
  {
    var effect := RespondEffect(db, actor, friendship, accept).value;
    if effect.rows == [] {
      NoRows(db);
    } else {
      var answer := if accept then Accepted else Rejected;
      assert ViewOf(effect.tables).friendships == ViewOf(db).friendships[friendship := answer];
      assert ViewOf(db).friendships[friendship := answer][friendship := answer]
          == ViewOf(db).friendships[friendship := answer];
      TwoRows(db, effect, effect.rows[0], effect.rows[1]);
    }
  }

  lemma CreateRoomRecords(db: Db, actor: Id, newId: Id, nameIsValid: bool)
    requires LedgerRebuilds(db) && CreateRoomEffect(db, actor, newId, nameIsValid).Ok?
    ensures Records(db, CreateRoomEffect(db, actor, newId, nameIsValid).value)
  {
    var effect := CreateRoomEffect(db, actor, newId, nameIsValid).value;
    assert ViewOf(effect.tables).joined == ViewOf(db).joined + {Seat(newId, actor)};
    assert ViewOf(effect.tables).left == ViewOf(db).left;
    OneRow(db, effect, effect.rows[0]);
  }

  lemma SeatedShows(db: Db, next: Db, seat: Seat)
    requires seat !in db.memberships && next.memberships == db.memberships[seat := Membership(Member, false)]
    requires next == db.(memberships := next.memberships, invitations := next.invitations)
    ensures ViewOf(next) == ViewOf(db).(joined := ViewOf(db).joined + {seat})
  {
  }

  lemma InviteRecords(db: Db, actor: Id, room: Id, invitee: Id, newId: Id)
    requires LedgerRebuilds(db) && TablesInv(db) && InviteEffect(db, actor, room, invitee, newId).Ok?
    ensures Records(db, InviteEffect(db, actor, room, invitee, newId).value)
  {
    var effect, seat := InviteEffect(db, actor, room, invitee, newId).value, Seat(room, invitee);
    InvitedSeat(db, actor, room, invitee, newId);
    if seat in db.memberships {
      NoRows(db);
    } else {
      SeatedShows(db, effect.tables, seat);
      OneRow(db, effect, effect.rows[0]);
    }
  }

  lemma LeaveRecords(db: Db, actor: Id, room: Id)
    requires LedgerRebuilds(db) && LeaveEffect(db, actor, room).Ok?
    ensures Records(db, LeaveEffect(db, actor, room).value)
  {
    var effect, seat := LeaveEffect(db, actor, room).value, Seat(room, actor);
    assert ViewOf(effect.tables).joined == ViewOf(db).joined;
    assert ViewOf(effect.tables).left == ViewOf(db).left + {seat};
    OneRow(db, effect, effect.rows[0]);
  }

  lemma CreateSessionRecords(db: Db, actor: Id, room: Id, newId: Id, textIsValid: bool)
    requires LedgerRebuilds(db) && CreateSessionEffect(db, actor, room, newId, textIsValid).Ok?
    ensures Records(db, CreateSessionEffect(db, actor, room, newId, textIsValid).value)
  {
    var effect := CreateSessionEffect(db, actor, room, newId, textIsValid).value;
    assert ViewOf(effect.tables).sessions == ViewOf(db).sessions + {newId};
    assert ViewOf(effect.tables).archived == ViewOf(db).archived;
    OneRow(db, effect, effect.rows[0]);
  }

  lemma ArchiveRecords(db: Db, actor: Id, session: Id)
    requires LedgerRebuilds(db) && ArchiveEffect(db, actor, session).Ok?
    ensures Records(db, ArchiveEffect(db, actor, session).value)
  {
    var effect := ArchiveEffect(db, actor, session).value;
    if effect.rows == [] {
      NoRows(db);
    } else {
      assert ViewOf(effect.tables).sessions == ViewOf(db).sessions;
      assert ViewOf(effect.tables).archived == ViewOf(db).archived + {session};
      OneRow(db, effect, effect.rows[0]);
    }
  }

  lemma EveryRowIsRecorded(db: Db, op: Transaction)
    requires Inv(db) && EffectOf(db, op).Ok?
    ensures Records(db, EffectOf(db, op).value)
  {
    match op
    case Register(user) =>
      NoRows(db);
      assert ViewOf(db.(users := db.users + {user})) == ViewOf(db);
    case RequestFriend(actor, addressee, newId) => RequestFriendRecords(db, actor, addressee, newId);
    case Respond(actor, friendship, accept) => RespondRecords(db, actor, friendship, accept);
    case CreateRoom(actor, newId, nameIsValid) => CreateRoomRecords(db, actor, newId, nameIsValid);
    case Invite(actor, room, invitee, newId) => InviteRecords(db, actor, room, invitee, newId);
    case Leave(actor, room) => LeaveRecords(db, actor, room);
    case CreateSession(actor, room, newId, textIsValid) => CreateSessionRecords(db, actor, room, newId, textIsValid);
    case Archive(actor, session) => ArchiveRecords(db, actor, session);
  }

  lemma StepKeepsInv(db: Db, op: Transaction)
    requires Inv(db)
    ensures Inv(Step(db, op))
  {
    if EffectOf(db, op).Ok? {
      CommitKeepsInv(db, EffectOf(db, op).value, op);
    }
  }

  lemma CommitKeepsInv(db: Db, effect: Effect, op: Transaction)
    requires Inv(db) && EffectOf(db, op) == Ok(effect)
    ensures Inv(Committed(db, Ok(effect)))
  {
    TablesStayConsistent(db, op);
    EveryRowIsRecorded(db, op);
    assert ViewOf(effect.tables.(ledger := db.ledger + effect.rows)) == ViewOf(effect.tables);
  }

  lemma {:induction false} RunKeepsInv(ops: seq<Transaction>)
    ensures Inv(Run(ops))
  {
    if ops != [] {
      RunKeepsInv(ops[..|ops| - 1]);
      StepKeepsInv(Run(ops[..|ops| - 1]), ops[|ops| - 1]);
    }
  }

  // ---------- Main results

  // After every run, replaying the ledger gives the friendship statuses, who
  // joined and left which room, and which sessions exist and are archived.
  lemma LedgerRebuildsTables(ops: seq<Transaction>)
    ensures Replay(Run(ops).ledger) == ViewOf(Run(ops))
  {
    RunKeepsInv(ops);
  }

  // No key occurs twice, and a transaction's rows are all appended: inserting
  // or ignoring never ignores a change.
  lemma NoRowIsSwallowed(ops: seq<Transaction>, op: Transaction)
    ensures var db := Run(ops);
            var outcome := EffectOf(db, op);
            Step(db, op).ledger == db.ledger + (if outcome.Ok? then outcome.value.rows else [])
  {
    RunKeepsInv(ops);
    if EffectOf(Run(ops), op).Ok? {
      EveryRowIsRecorded(Run(ops), op);
    }
    assert Run(ops).ledger + [] == Run(ops).ledger;
  }

  ghost predicate DistinctKeys(ledger: seq<Row>) {
    forall i, j :: 0 <= i < j < |ledger| ==> KeyOf(ledger[i]) != KeyOf(ledger[j])
  }

  lemma {:induction false} AppendAllDistinct(ledger: seq<Row>, rows: seq<Row>)
    requires DistinctKeys(ledger)
    ensures DistinctKeys(AppendAll(ledger, rows))
    decreases |rows|
  {
    if rows != [] {
      assert forall i :: 0 <= i < |ledger| ==> ledger[i] in ledger;
      AppendAllDistinct(Append(ledger, rows[0]), rows[1..]);
    }
  }

  lemma {:induction false} KeysAreDistinct(ops: seq<Transaction>)
    ensures DistinctKeys(Run(ops).ledger)
  {
    if ops != [] {
      var db := Run(ops[..|ops| - 1]);
      KeysAreDistinct(ops[..|ops| - 1]);
      var outcome := EffectOf(db, ops[|ops| - 1]);
      if outcome.Ok? {
        AppendAllDistinct(db.ledger, outcome.value.rows);
      }
    }
  }

  // A visible difference between tables that recorded a row and those before.
  lemma RowsMeanChange(db: Db, op: Transaction)
    requires Inv(db) && EffectOf(db, op).Ok? && EffectOf(db, op).value.rows != []
    ensures EffectOf(db, op).value.tables != db
  {
    var after := EffectOf(db, op).value.tables;
    match op
    case Register(_) =>
    case RequestFriend(_, _, newId) => assert newId in after.friendships && newId !in db.friendships;
    case Respond(_, f, _) => assert after.friendships[f].status != db.friendships[f].status;
    case CreateRoom(_, newId, _) => assert newId in after.owners && newId !in db.owners;
    case Invite(actor, room, invitee, newId) =>
      InvitedSeat(db, actor, room, invitee, newId);
      assert Seat(room, invitee) in after.memberships;
    case Leave(actor, room) => assert after.memberships[Seat(room, actor)].departed;
    case CreateSession(_, _, newId, _) => assert newId in after.sessions && newId !in db.sessions;
    case Archive(_, session) => assert after.sessions[session].archived && !db.sessions[session].archived;
  }

  lemma NoRowsMeansNoChange(db: Db, op: Transaction)
    requires Inv(db) && !op.Register? && EffectOf(db, op).Ok? && EffectOf(db, op).value.rows == []
    ensures EffectOf(db, op).value.tables == db
  {
    if op.Invite? {
      InvitedSeat(db, op.actor, op.room, op.invitee, op.newId);
    }
  }

  // The tables change exactly when rows are recorded, registration aside.
  lemma ChangesAreRecorded(ops: seq<Transaction>, op: Transaction)
    requires !op.Register? && EffectOf(Run(ops), op).Ok?
    ensures EffectOf(Run(ops), op).value.tables == Run(ops) <==> EffectOf(Run(ops), op).value.rows == []
  {
    RunKeepsInv(ops);
    if EffectOf(Run(ops), op).value.rows == [] {
      NoRowsMeansNoChange(Run(ops), op);
    } else {
      RowsMeanChange(Run(ops), op);
    }
  }

  // Every room has exactly one host: its owner, present for good.
  lemma OneHostPerRoom(ops: seq<Transaction>, room: Id)
    requires room in Run(ops).owners
    ensures var db := Run(ops);
            && ActiveIn(db, Seat(room, db.owners[room]))
            && forall user: Id :: Seat(room, user) in db.memberships ==>
                 (db.memberships[Seat(room, user)].role == Host <==> user == db.owners[room])
  {
    RunKeepsInv(ops);
  }

  // Whoever else is in a room holds an accepted invitation.
  lemma MembersWereInvited(ops: seq<Transaction>, seat: Seat)
    requires ActiveIn(Run(ops), seat) && seat.user != Run(ops).owners[seat.room]
    ensures seat in Run(ops).invitations && Run(ops).invitations[seat].status == Accepted
  {
    RunKeepsInv(ops);
  }

  lemma EffectKeepsDeparted(db: Db, op: Transaction, seat: Seat)
    requires Inv(db) && seat in db.memberships && db.memberships[seat].departed && EffectOf(db, op).Ok?
    ensures var after := EffectOf(db, op).value.tables.memberships;
            seat in after && after[seat].departed
  {
    if op.Invite? {
      InvitedSeat(db, op.actor, op.room, op.invitee, op.newId);
    }
  }

  lemma StepKeepsDeparted(db: Db, op: Transaction, seat: Seat)
    requires Inv(db) && seat in db.memberships && db.memberships[seat].departed
    ensures seat in Step(db, op).memberships && Step(db, op).memberships[seat].departed
  {
    if EffectOf(db, op).Ok? {
      EffectKeepsDeparted(db, op, seat);
    }
  }

  // A departed member is departed after any further operations.
  lemma {:induction false} DepartureIsFinal(ops: seq<Transaction>, more: seq<Transaction>, seat: Seat)
    requires seat in Run(ops).memberships && Run(ops).memberships[seat].departed
    ensures seat in Run(ops + more).memberships && Run(ops + more).memberships[seat].departed
  {
    if more == [] {
      assert ops + more == ops;
    } else {
      var init, last := more[..|more| - 1], more[|more| - 1];
      DepartureIsFinal(ops, init, seat);
      assert ops + more == (ops + init) + [last];
      assert ((ops + init) + [last])[..|ops + init|] == ops + init;
      RunKeepsInv(ops + init);
      StepKeepsDeparted(Run(ops + init), last, seat);
    }
  }
}
