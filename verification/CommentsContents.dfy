// What every request on comments is answered and what it leaves, in every run of
// the transactions of comments_service.py: who may change a comment, and whose
// words it holds.
module CommentsContents {
  import opened Wrappers
  import opened CommentsInvariants
  import opened CommentsModel
  import opened CommentsNotices
  import opened Sorting

  // ---------- The checks of a request

  ghost function Others(content: Content, actor: Id): set<Id> {
    set u | u in content.mentions && u != actor
  }

  // In the order of the service's checks.
  ghost function Objection(content: Content, actor: Id, access: Option<Access>): Option<Error> {
    if content.body == "" || |content.body| > 5_000 || '\0' in content.body then Some(InvalidBody)
    else if content.anchorKind.Some? != content.anchorId.Some? then Some(InvalidAnchor)
    else if access.None? then Some(SessionUnavailable)
    else if |Others(content, actor)| > 20 then Some(TooManyMentions)
    else if !(Others(content, actor) <= Members(access.value.members)) then Some(NotAMember)
    else None
  }

  lemma {:induction false} ExplicitDistinct(values: seq<Id>, actor: Id)
    ensures Distinct(Explicit(values, actor))
  {
    if values != [] {
      ExplicitDistinct(values[..|values| - 1], actor);
    }
  }

  lemma {:induction false} DistinctCardinality(ids: seq<Id>)
    requires Distinct(ids)
    ensures |Members(ids)| == |ids|
  {
    if ids != [] {
      var init, last := ids[..|ids| - 1], ids[|ids| - 1];
      DistinctCardinality(init);
      assert ids == init + [last];
      assert Members(ids) == Members(init) + {last};
    }
  }

  lemma MentionsAreOthers(content: Content, actor: Id)
    ensures var mentions := Explicit(content.mentions, actor);
            && Members(mentions) == Others(content, actor) && Distinct(mentions)
            && |mentions| == |Others(content, actor)|
            && forall u :: u in mentions <==> u in Others(content, actor)
  {
    var mentions := Explicit(content.mentions, actor);
    ExplicitExact(content.mentions, actor);
    ExplicitDistinct(content.mentions, actor);
    assert Members(mentions) == Others(content, actor);
    DistinctCardinality(mentions);
    assert forall u :: u in mentions <==> u in Members(mentions);
  }

  lemma ChecksAreObjections(content: Content, actor: Id, access: Option<Access>)
    ensures Validate(content, actor, access)
         == match Objection(content, actor, access)
            case Some(e) => Err(e)
            case None => Ok(Explicit(content.mentions, actor))
  {
    MentionsAreOthers(content, actor);
    if access.Some? {
      assert forall u :: u in access.value.members <==> u in Members(access.value.members);
    }
  }

  // ---------- What a request is answered

  datatype Verdict = Refused(error: Error) | Unchanged(comment: Id, version: nat) | Changed(comment: Id, version: nat)

  ghost predicate Holds(c: Comment, stored: set<Id>, content: Content, others: set<Id>) {
    c.body == content.body && c.anchorKind == content.anchorKind && c.anchorId == content.anchorId && stored == others
  }

  ghost function VerdictOf(db: Db, op: Transaction): Verdict {
    match op
    case Create(session, author, clientRequest, newId, content, access) =>
      var request, others := Request(author, clientRequest), Others(content, author);
      var asked := Fingerprint(content.body, content.anchorKind, content.anchorId, others);
      if Objection(content, author, access).Some? then Refused(Objection(content, author, access).value)
      else if request in db.requests && db.requests[request] in db.comments then
        var earlier := db.comments[db.requests[request]];
        if earlier.session == session && earlier.fingerprint == asked
        then Unchanged(db.requests[request], earlier.version) else Refused(ReplayConflict)
      else if newId in db.comments then Refused(IdTaken)
      else Changed(newId, 1)
    case Update(session, actor, comment, expectedVersion, content, access) =>
      if Objection(content, actor, access).Some? then Refused(Objection(content, actor, access).value)
      else if comment !in db.comments || db.comments[comment].session != session then Refused(CommentUnavailable)
      else if db.comments[comment].author != actor || db.comments[comment].deleted then Refused(CommentUnavailable)
      else if db.comments[comment].version != expectedVersion then Refused(StaleVersion)
      else if Holds(db.comments[comment], MentionsOf(db, comment), content, Others(content, actor))
      then Unchanged(comment, expectedVersion)
      else Changed(comment, expectedVersion + 1)
    case Delete(session, actor, comment, expectedVersion, access) =>
      if access.None? then Refused(SessionUnavailable)
      else if comment !in db.comments || db.comments[comment].session != session then Refused(CommentUnavailable)
      else if actor !in {db.comments[comment].author, access.value.owner} then Refused(CommentUnavailable)
      else if db.comments[comment].version != expectedVersion then Refused(StaleVersion)
      else if db.comments[comment].deleted then Unchanged(comment, expectedVersion)
      else Changed(comment, expectedVersion + 1)
  }

  // What a change leaves: all else stays.
  ghost predicate ChangedAsAsked(db: Db, op: Transaction, next: Db) {
    match op
    case Create(session, author, clientRequest, newId, content, access) =>
      var others := Others(content, author);
      var fingerprint := Fingerprint(content.body, content.anchorKind, content.anchorId, others);
      next == Db(db.comments[newId := Comment(session, author, fingerprint, 1, content.body, content.anchorKind,
                                              content.anchorId, false)],
                 db.requests[Request(author, clientRequest) := newId],
                 db.mentions[newId := others],
                 db.ledger + [Row(newId, 1, Created, author)],
                 next.notices)
    case Update(_, actor, comment, expectedVersion, content, _) =>
      comment in db.comments
      && var c := db.comments[comment];
         next == Db(db.comments[comment := Comment(c.session, actor, c.fingerprint, expectedVersion + 1, content.body,
                                                   content.anchorKind, content.anchorId, false)],
                    db.requests,
                    db.mentions[comment := Others(content, actor)],
                    db.ledger + [Row(comment, expectedVersion + 1, Updated, actor)],
                    next.notices)
    case Delete(_, actor, comment, expectedVersion, _) =>
      comment in db.comments
      && var c := db.comments[comment];
         next == Db(db.comments[comment := Comment(c.session, c.author, c.fingerprint, expectedVersion + 1, "",
                                                   c.anchorKind, c.anchorId, true)],
                    db.requests, db.mentions, db.ledger + [Row(comment, expectedVersion + 1, Deleted, actor)],
                    db.notices)
  }

  ghost predicate Follows(db: Db, op: Transaction, verdict: Verdict) {
    var outcome := StepOf(db, op);
    match verdict
    case Refused(error) => outcome == (db, Err(error))
    case Unchanged(comment, version) => outcome == (db, Ok(Mutation(comment, version, true)))
    case Changed(comment, version) =>
      outcome.1 == Ok(Mutation(comment, version, false)) && ChangedAsAsked(db, op, outcome.0)
  }

  lemma CreationsAreAnswered(db: Db, op: Transaction)
    requires Inv(db) && op.Create?
    ensures Follows(db, op, VerdictOf(db, op))
  {
    MentionsAreOthers(op.content, op.author);
    ChecksAreObjections(op.content, op.author, op.access);
    if CreatesAnew(db, op) {
      CreateAdds(db, op);
      assert CommentInv(db, op.newId);
      NextRowIsNew(db, Row(op.newId, 1, Created, op.author));
    }
  }

  lemma UpdatesAreAnswered(db: Db, op: Transaction)
    requires Inv(db) && op.Update?
    ensures Follows(db, op, VerdictOf(db, op))
  {
    MentionsAreOthers(op.content, op.actor);
    ChecksAreObjections(op.content, op.actor, op.access);
    if VerdictOf(db, op).Changed? {
      var mentions, before := Explicit(op.content.mentions, op.actor), MentionsOf(db, op.comment);
      WithoutExact(mentions, before);
      assert before - (before - Members(mentions)) + (Members(mentions) - before) == Members(mentions);
      assert CommentInv(db, op.comment);
      NextRowIsNew(db, Row(op.comment, op.expectedVersion + 1, Updated, op.actor));
    }
  }

  lemma DeletionsAreAnswered(db: Db, op: Transaction)
    requires Inv(db) && op.Delete?
    ensures Follows(db, op, VerdictOf(db, op))
  {
    if VerdictOf(db, op).Changed? {
      assert CommentInv(db, op.comment);
      NextRowIsNew(db, Row(op.comment, op.expectedVersion + 1, Deleted, op.actor));
    }
  }

  lemma StepFollows(db: Db, op: Transaction)
    requires Inv(db)
    ensures Follows(db, op, VerdictOf(db, op))
  {
    match op
    case Create(_, _, _, _, _, _) => CreationsAreAnswered(db, op);
    case Update(_, _, _, _, _, _) => UpdatesAreAnswered(db, op);
    case Delete(_, _, _, _, _) => DeletionsAreAnswered(db, op);
  }

  // ---------- Main results, in every run

  // Every request gets exactly the verdict, and a change is exactly the one asked
  // for, with one row.
  lemma EveryRequestIsAnswered(ops: seq<Transaction>, op: Transaction)
    ensures Follows(Run(ops), op, VerdictOf(Run(ops), op))
  {
    RunKeepsInv(ops);
    StepFollows(Run(ops), op);
  }

  // A comment changes only by an update of its author, or by a deletion by its
  // author or the owner of the room; its session and author never change, and a
  // deleted one changes no more.
  lemma OnlyAuthorsAndOwnersChange(ops: seq<Transaction>, op: Transaction, comment: Id)
    requires comment in Run(ops).comments
    ensures var before := Run(ops).comments[comment];
            var next := StepOf(Run(ops), op).0;
            && comment in next.comments
            && next.comments[comment].session == before.session && next.comments[comment].author == before.author
            && (next.comments[comment] != before ==>
                  && !before.deleted && !op.Create? && op.comment == comment && op.session == before.session
                  && op.access.Some?
                  && (if op.Update? then op.actor == before.author && !next.comments[comment].deleted
                      else op.actor in {before.author, op.access.value.owner} && next.comments[comment].deleted))
  {
    EveryRequestIsAnswered(ops, op);
  }

  datatype Words = Words(body: string, anchorKind: Option<AnchorKind>, anchorId: Option<Id>)

  // An accepted creation or update replaces the words, a deletion empties the
  // body.
  ghost function WordsAfter(db: Db, op: Transaction, comment: Id, before: Words): Words {
    var outcome := StepOf(db, op).1;
    if outcome.Err? || outcome.value.id != comment || (op.Create? && outcome.value.idempotent) then before
    else if op.Delete? then before.(body := "")
    else Words(op.content.body, op.content.anchorKind, op.content.anchorId)
  }

  ghost function LastWords(ops: seq<Transaction>, comment: Id): Words {
    if ops == [] then Words("", None, None)
    else
      var init, op := ops[..|ops| - 1], ops[|ops| - 1];
      WordsAfter(Run(init), op, comment, LastWords(init, comment))
  }

  ghost predicate WasDeleted(ops: seq<Transaction>, comment: Id) {
    exists i :: 0 <= i < |ops| && Deletes(Run(ops[..i]), ops[i], comment)
  }

  ghost predicate Deletes(db: Db, op: Transaction, comment: Id) {
    op.Delete? && op.comment == comment && StepOf(db, op).1.Ok?
  }

  function WordsOf(c: Comment): Words {
    Words(c.body, c.anchorKind, c.anchorId)
  }

  // The comment holds these words, and none once it is deleted.
  ghost predicate HasWords(db: Db, comment: Id, words: Words) {
    comment in db.comments ==>
      && WordsOf(db.comments[comment]) == words
      && (db.comments[comment].deleted ==> words.body == "")
  }

  lemma WordsStep(db: Db, op: Transaction, comment: Id, before: Words)
    requires Inv(db) && HasWords(db, comment, before)
    ensures HasWords(StepOf(db, op).0, comment, WordsAfter(db, op, comment, before))
  {
    StepFollows(db, op);
  }

  // The stored words are always those last accepted, and the body is empty once
  // the comment is deleted.
  lemma {:induction false} WordsAreLastAccepted(ops: seq<Transaction>, comment: Id)
    ensures HasWords(Run(ops), comment, LastWords(ops, comment))
  {
    if ops != [] {
      var init, op := ops[..|ops| - 1], ops[|ops| - 1];
      RunKeepsInv(init);
      WordsAreLastAccepted(init, comment);
      WordsStep(Run(init), op, comment, LastWords(init, comment));
    }
  }

  ghost predicate IsDeleted(db: Db, comment: Id) {
    comment in db.comments && db.comments[comment].deleted
  }

  lemma DeletedStep(db: Db, op: Transaction, comment: Id)
    requires Inv(db)
    ensures IsDeleted(StepOf(db, op).0, comment) <==> IsDeleted(db, comment) || Deletes(db, op, comment)
  {
    StepFollows(db, op);
  }

  lemma DeletedOneMore(init: seq<Transaction>, op: Transaction, comment: Id)
    ensures WasDeleted(init + [op], comment) <==> WasDeleted(init, comment) || Deletes(Run(init), op, comment)
  {
    var ops := init + [op];
    assert forall i :: 0 <= i <= |init| ==> ops[..i] == init[..i];
    assert init[..|init|] == init;
    if i :| 0 <= i < |init| && Deletes(Run(init[..i]), init[i], comment) {
      assert Deletes(Run(ops[..i]), ops[i], comment);
    }
    if i :| 0 <= i < |ops| && Deletes(Run(ops[..i]), ops[i], comment) {
      assert i < |init| ==> Deletes(Run(init[..i]), init[i], comment);
    }
    assert Deletes(Run(init), op, comment) ==> Deletes(Run(ops[..|init|]), ops[|init|], comment);
  }

  // A comment is deleted exactly when some deletion of it was accepted.
  lemma {:induction false} DeletedIff(ops: seq<Transaction>, comment: Id)
    ensures IsDeleted(Run(ops), comment) <==> WasDeleted(ops, comment)
  {
    if ops != [] {
      var init, op := ops[..|ops| - 1], ops[|ops| - 1];
      DeletedIff(init, comment);
      RunKeepsInv(init);
      DeletedStep(Run(init), op, comment);
      DeletedOneMore(init, op, comment);
      assert ops == init + [op];
    }
  }

  // The notices of an update: to the mentioned that were not before.
  lemma NewlyToldExact(db: Db, op: Transaction, version: nat)
    requires op.Update?
    ensures var added := Notices(NewlyMentioned(db, op), Mentioned, op.comment, version);
            && OneRound(added, op.comment, version)
            && forall n :: n in added <==>
                 && n.kind == Mentioned && n.comment == op.comment && n.version == version
                 && n.recipient in Others(op.content, op.actor) && n.recipient !in MentionsOf(db, op.comment)
  {
    MentionsAreOthers(op.content, op.actor);
    var told := NewlyMentioned(db, op);
    WithoutExact(Explicit(op.content.mentions, op.actor), MentionsOf(db, op.comment));
    NoticesAreOneRound(told, Mentioned, op.comment, version);
    assert forall u :: u in told <==> u in Members(told);
  }

  // A change tells exactly those it mentions and that were not mentioned before,
  // each once, at the new version; a deletion tells no one.
  lemma ChangeTellsNewlyMentioned(ops: seq<Transaction>, op: Transaction)
    requires !op.Create? && VerdictOf(Run(ops), op).Changed?
    ensures var db, next := Run(ops), StepOf(Run(ops), op).0;
            exists added ::
              && next.notices == db.notices + added && OneRound(added, op.comment, op.expectedVersion + 1)
              && forall n :: n in added <==>
                   && op.Update? && n.kind == Mentioned && n.comment == op.comment
                   && n.version == op.expectedVersion + 1
                   && n.recipient in Others(op.content, op.actor) && n.recipient !in MentionsOf(db, op.comment)
  {
    var db, next := Run(ops), StepOf(Run(ops), op).0;
    RunKeepsInv(ops);
    StepFollows(db, op);
    if op.Update? {
      UpdateAdds(db, op);
      NewlyToldExact(db, op, op.expectedVersion + 1);
    } else {
      assert next.notices == db.notices + [];
    }
  }
}
