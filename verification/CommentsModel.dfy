// Versioned comments, their mentions, ledger rows and notices, as the
// transactions of comments_service.py leave them.
module CommentsModel {
  import opened Wrappers
  import opened TextKeys
  import opened ActivityPolicy

  // Identifiers print without a colon, as UUIDs do.
  type Id = s: string | ':' !in s

  const MAX_BODY: nat := 5_000
  const MAX_MENTIONS: nat := 20

  datatype AnchorKind = Report | GeneratedSegment

  // What a request asks to store; the body is already trimmed.
  datatype Content = Content(body: string, anchorKind: Option<AnchorKind>, anchorId: Option<Id>, mentions: seq<Id>)

  // The caller's session as its membership shows it: the owner of the room and
  // the active members in order. The caller is one of them.
  datatype Access = Access(owner: Id, members: seq<Id>)

  // The request fingerprint: equal fingerprints mean equal content. The hash
  // that the service stores is taken to be injective.
  datatype Fingerprint = Fingerprint(body: string, anchorKind: Option<AnchorKind>, anchorId: Option<Id>,
                                     mentions: set<Id>)

  datatype Comment = Comment(session: Id, author: Id, fingerprint: Fingerprint, version: nat, body: string,
                             anchorKind: Option<AnchorKind>, anchorId: Option<Id>, deleted: bool)

  datatype Change = Created | Updated | Deleted

  datatype Row = Row(comment: Id, version: nat, change: Change, actor: Id)

  datatype NoticeKind = Mentioned | Commented

  datatype Notice = Notice(recipient: Id, kind: NoticeKind, comment: Id, version: nat)

  datatype Request = Request(author: Id, clientRequest: Id)

  // requests is the unique index on author and client request.
  datatype Db = Db(comments: map<Id, Comment>, requests: map<Request, Id>, mentions: map<Id, set<Id>>, ledger: seq<Row>,
                   notices: seq<Notice>)

  datatype Error = InvalidBody | InvalidAnchor | SessionUnavailable | TooManyMentions | NotAMember
                 | IdTaken | ReplayConflict | CommentUnavailable | StaleVersion

  datatype Mutation = Mutation(id: Id, version: nat, idempotent: bool)

  datatype Transaction =
    | Create(session: Id, author: Id, clientRequest: Id, newId: Id, content: Content, access: Option<Access>)
    | Update(session: Id, actor: Id, comment: Id, expectedVersion: nat, content: Content, access: Option<Access>)
    | Delete(session: Id, actor: Id, comment: Id, expectedVersion: nat, access: Option<Access>)

  // ---------- Validation

  predicate ValidBody(body: string) {
    1 <= |body| <= MAX_BODY && '\0' !in body
  }

  // First occurrences, without the actor.
  function Explicit(values: seq<Id>, actor: Id): seq<Id> {
    if values == [] then []
    else
      var last, rest := values[|values| - 1], Explicit(values[..|values| - 1], actor);
      if last == actor || last in rest then rest else rest + [last]
  }

  // The checks of a request, in the order the service makes them.
  function Validate(content: Content, actor: Id, access: Option<Access>): Result<seq<Id>, Error> {
    if !ValidBody(content.body) then Err(InvalidBody)
    else if content.anchorKind.None? != content.anchorId.None? then Err(InvalidAnchor)
    else if access.None? then Err(SessionUnavailable)
    else
      var mentions := Explicit(content.mentions, actor);
      if |mentions| > MAX_MENTIONS then Err(TooManyMentions)
      else if exists u :: u in mentions && u !in access.value.members then Err(NotAMember)
      else Ok(mentions)
  }

  function Members(ids: seq<Id>): set<Id> {
    set u | u in ids
  }

  function FingerprintOf(content: Content, mentions: seq<Id>): Fingerprint {
    Fingerprint(content.body, content.anchorKind, content.anchorId, Members(mentions))
  }

  // ---------- Recipients (plan_comment_recipients)

  datatype Recipients = Recipients(mention: seq<Id>, comment: seq<Id>)

  function Without(ids: seq<Id>, excluded: set<Id>): seq<Id> {
    if ids == [] then []
    else
      var last, rest := ids[|ids| - 1], Without(ids[..|ids| - 1], excluded);
      if last in excluded || last in rest then rest else rest + [last]
  }

  function Among(ids: seq<Id>, members: set<Id>): seq<Id> {
    if ids == [] then []
    else
      var last, rest := ids[|ids| - 1], Among(ids[..|ids| - 1], members);
      if last in members then rest + [last] else rest
  }

  function PlanRecipients(actor: Id, members: seq<Id>, mentioned: seq<Id>): Recipients {
    var mention := Without(Among(mentioned, Members(members)), {actor});
    Recipients(mention, Without(members, {actor} + Members(mention)))
  }

  function Notices(recipients: seq<Id>, kind: NoticeKind, comment: Id, version: nat): seq<Notice> {
    seq(|recipients|, k requires 0 <= k < |recipients| => Notice(recipients[k], kind, comment, version))
  }

  // ---------- Ledger

  function TypeOfChange(change: Change): EventType {
    match change
    case Created => CommentCreated
    case Updated => CommentUpdated
    case Deleted => CommentDeleted
  }

  function KeyOf(row: Row): Result<string, KeyError> {
    KeyFor(TypeOfChange(row.change), Identity(map[CommentId := row.comment, Version := IntText(row.version)], false))
  }

  predicate KeyTaken(ledger: seq<Row>, row: Row) {
    exists other :: other in ledger && KeyOf(other) == KeyOf(row)
  }

  // Append the row and its notices, or nothing when the key is taken.
  function Record(db: Db, row: Row, notices: seq<Notice>): Db {
    if KeyTaken(db.ledger, row) then db
    else db.(ledger := db.ledger + [row], notices := db.notices + notices)
  }

  // ---------- Transactions

  function CreateStep(db: Db, session: Id, author: Id, clientRequest: Id, newId: Id, content: Content,
                      access: Option<Access>)
      : (Db, Result<Mutation, Error>) {
    match Validate(content, author, access)
    case Err(e) => (db, Err(e))
    case Ok(mentions) =>
      var request := Request(author, clientRequest);
      var fingerprint := FingerprintOf(content, mentions);
      if request in db.requests && db.requests[request] in db.comments then
        var existing := db.comments[db.requests[request]];
        if existing.session != session || existing.fingerprint != fingerprint then (db, Err(ReplayConflict))
        else (db, Ok(Mutation(db.requests[request], existing.version, true)))
      else if newId in db.comments then (db, Err(IdTaken))
      else
        var comment := Comment(session, author, fingerprint, 1, content.body, content.anchorKind,
                               content.anchorId, false);
        var stored := db.(comments := db.comments[newId := comment], requests := db.requests[request := newId],
                          mentions := db.mentions[newId := Members(mentions)]);
        var plan := PlanRecipients(author, access.value.members, mentions);
        (Record(stored, Row(newId, 1, Created, author),
                Notices(plan.mention, Mentioned, newId, 1) + Notices(plan.comment, Commented, newId, 1)),
         Ok(Mutation(newId, 1, false)))
  }

  function MentionsOf(db: Db, comment: Id): set<Id> {
    if comment in db.mentions then db.mentions[comment] else {}
  }

  predicate SameContent(c: Comment, stored: set<Id>, content: Content, mentions: seq<Id>) {
    && c.body == content.body && c.anchorKind == content.anchorKind && c.anchorId == content.anchorId
    && stored == Members(mentions)
  }

  function UpdateStep(db: Db, session: Id, actor: Id, comment: Id, expectedVersion: nat, content: Content,
                      access: Option<Access>)
      : (Db, Result<Mutation, Error>) {
    match Validate(content, actor, access)
    case Err(e) => (db, Err(e))
    case Ok(mentions) =>
      if comment !in db.comments || db.comments[comment].session != session || db.comments[comment].author != actor
         || db.comments[comment].deleted then (db, Err(CommentUnavailable))
      else
        var current, before := db.comments[comment], MentionsOf(db, comment);
        if current.version != expectedVersion then (db, Err(StaleVersion))
        else if SameContent(current, before, content, mentions) then (db, Ok(Mutation(comment, expectedVersion, true)))
        else
          var version := current.version + 1;
          var next := current.(body := content.body, anchorKind := content.anchorKind, anchorId := content.anchorId,
                               version := version);
          var removed := before - Members(mentions);
          var added := Without(mentions, before);
          var stored := db.(comments := db.comments[comment := next],
                            mentions := db.mentions[comment := before - removed + Members(added)]);
          (Record(stored, Row(comment, version, Updated, actor), Notices(added, Mentioned, comment, version)),
           Ok(Mutation(comment, version, false)))
  }

  function DeleteStep(db: Db, session: Id, actor: Id, comment: Id, expectedVersion: nat, access: Option<Access>)
      : (Db, Result<Mutation, Error>) {
    if access.None? then (db, Err(SessionUnavailable))
    else if comment !in db.comments || db.comments[comment].session != session
            || (actor != db.comments[comment].author && actor != access.value.owner) then (db, Err(CommentUnavailable))
    else
      var current := db.comments[comment];
      if current.version != expectedVersion then (db, Err(StaleVersion))
      else if current.deleted then (db, Ok(Mutation(comment, expectedVersion, true)))
      else
        var version := current.version + 1;
        var next := current.(body := "", version := version, deleted := true);
        var stored := db.(comments := db.comments[comment := next]);
        (Record(stored, Row(comment, version, Deleted, actor), []), Ok(Mutation(comment, version, false)))
  }

  function StepOf(db: Db, op: Transaction): (Db, Result<Mutation, Error>) {
    match op
    case Create(session, author, clientRequest, newId, content, access) =>
      CreateStep(db, session, author, clientRequest, newId, content, access)
    case Update(session, actor, comment, expectedVersion, content, access) =>
      UpdateStep(db, session, actor, comment, expectedVersion, content, access)
    case Delete(session, actor, comment, expectedVersion, access) =>
      DeleteStep(db, session, actor, comment, expectedVersion, access)
  }

  const EMPTY: Db := Db(map[], map[], map[], [], [])

  function Run(ops: seq<Transaction>): Db {
    if ops == [] then EMPTY else StepOf(Run(ops[..|ops| - 1]), ops[|ops| - 1]).0
  }
}
