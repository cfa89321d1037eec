// What holds of comments in every run: versions and ledger rows agree, one
// request per version wins, replays change nothing, mentions are the last set.
module CommentsInvariants {
  import opened Wrappers
  import opened ActivityPolicy
  import opened CommentsModel
  import opened Sorting
  import opened TextKeys

  // ---------- Keys

  function IdentityOf(row: Row): Identity {
    Identity(map[CommentId := row.comment, Version := IntText(row.version)], false)
  }

  lemma RowHasKey(row: Row)
    ensures KeyOf(row).Ok?
  {
    FillSucceeds(Parts(TypeOfChange(row.change), false), IdentityOf(row));
  }

  lemma SameRowIdentities(change: Change, first: Row, second: Row)
    requires SameIdentities(Parts(TypeOfChange(change), false), IdentityOf(first), IdentityOf(second))
    ensures first.comment == second.comment && first.version == second.version
  {
    var parts := Parts(TypeOfChange(change), false);
    assert parts[1] == Value(Bare, CommentId) && parts[2] == Value(V, Version);
    IntTextInjective(first.version, second.version);
  }

  // Rows with one key belong to one comment, version and change.
  lemma KeyIsInjective(first: Row, second: Row)
    requires KeyOf(first) == KeyOf(second)
    ensures first.comment == second.comment && first.version == second.version && first.change == second.change
  {
    RowHasKey(first);
    IntTextAvoids(first.version, ':');
    IntTextAvoids(second.version, ':');
    EventKeyInjective(TypeOfChange(first.change), IdentityOf(first), TypeOfChange(second.change), IdentityOf(second));
    SameRowIdentities(first.change, first, second);
  }

  // ---------- Versions and rows

  function RowsOf(ledger: seq<Row>, comment: Id): seq<Row> {
    if ledger == [] then []
    else
      var last, rest := ledger[|ledger| - 1], RowsOf(ledger[..|ledger| - 1], comment);
      if last.comment == comment then rest + [last] else rest
  }

  lemma {:induction false} RowsOfMembers(ledger: seq<Row>, comment: Id)
    ensures forall row :: row in RowsOf(ledger, comment) <==> row in ledger && row.comment == comment
  {
    if ledger != [] {
      RowsOfMembers(ledger[..|ledger| - 1], comment);
      assert ledger == ledger[..|ledger| - 1] + [ledger[|ledger| - 1]];
    }
  }

  lemma RowsOfOneMore(ledger: seq<Row>, row: Row, comment: Id)
    ensures RowsOf(ledger + [row], comment) == RowsOf(ledger, comment) + if row.comment == comment then [row] else []
  {
    assert (ledger + [row])[..|ledger|] == ledger;
  }

  // The rows are versions 1 to n: a creation, then updates, and a deletion
  // last exactly when the comment is deleted.
  ghost predicate History(rows: seq<Row>, n: nat, deleted: bool) {
    && |rows| == n && n >= 1 && (deleted ==> n >= 2)
    && forall k :: 0 <= k < n ==>
         && rows[k].version == k + 1
         && rows[k].change == if k == 0 then Created else if deleted && k == n - 1 then Deleted else Updated
  }

  ghost predicate CommentInv(db: Db, comment: Id) {
    if comment in db.comments
    then History(RowsOf(db.ledger, comment), db.comments[comment].version, db.comments[comment].deleted)
         && comment in db.mentions
    else RowsOf(db.ledger, comment) == []
  }

  ghost predicate Inv(db: Db) {
    && (forall comment: Id :: CommentInv(db, comment))
    && (forall request :: request in db.requests ==>
          db.requests[request] in db.comments && db.comments[db.requests[request]].author == request.author)
  }

  // The next version of a comment has a key that is not taken.
  lemma NextRowIsNew(db: Db, row: Row)
    requires CommentInv(db, row.comment)
    requires row.version == if row.comment in db.comments then db.comments[row.comment].version + 1 else 1
    ensures !KeyTaken(db.ledger, row)
  {
    if KeyTaken(db.ledger, row) {
      var other :| other in db.ledger && KeyOf(other) == KeyOf(row);
      KeyIsInjective(other, row);
      RowsOfMembers(db.ledger, row.comment);
    }
  }

  // Storing a comment's next version with its row keeps everyone's history.
  lemma StoredKeepsInv(db: Db, stored: Db, row: Row, notices: seq<Notice>)
    requires Inv(db)
    requires stored.ledger == db.ledger && row.comment in stored.comments && row.comment in stored.mentions
    requires forall c: Id :: c != row.comment ==>
               && (c in stored.comments <==> c in db.comments)
               && (c in db.comments ==> stored.comments[c] == db.comments[c])
               && (c in db.mentions ==> c in stored.mentions)
    requires stored.comments[row.comment].version == row.version
    requires row.version == if row.comment in db.comments then db.comments[row.comment].version + 1 else 1
    requires row.comment in db.comments ==> !db.comments[row.comment].deleted && row.change != Created
    requires row.comment !in db.comments ==> row.change == Created
    requires stored.comments[row.comment].deleted <==> row.change == Deleted
    requires forall request :: request in stored.requests ==>
               && stored.requests[request] in stored.comments
               && stored.comments[stored.requests[request]].author == request.author
    ensures Inv(Record(stored, row, notices))
    ensures Record(stored, row, notices) == stored.(ledger := db.ledger + [row], notices := stored.notices + notices)
  {
    NextRowIsNew(db, row);
    var next := Record(stored, row, notices);
    forall c: Id
      ensures CommentInv(next, c)
    {
      RowsOfOneMore(db.ledger, row, c);
      assert CommentInv(db, c);
    }
  }

  lemma CreateKeepsInv(db: Db, op: Transaction)
    requires Inv(db) && op.Create?
    ensures Inv(StepOf(db, op).0)
  {
    var outcome := StepOf(db, op).1;
    if outcome.Ok? && !outcome.value.idempotent {
      var mentions := Validate(op.content, op.author, op.access).value;
      var request := Request(op.author, op.clientRequest);
      var comment := Comment(op.session, op.author, FingerprintOf(op.content, mentions), 1, op.content.body,
                             op.content.anchorKind, op.content.anchorId, false);
      var stored := db.(comments := db.comments[op.newId := comment], requests := db.requests[request := op.newId],
                        mentions := db.mentions[op.newId := Members(mentions)]);
      var plan := PlanRecipients(op.author, op.access.value.members, mentions);
      StoredKeepsInv(db, stored, Row(op.newId, 1, Created, op.author),
                     Notices(plan.mention, Mentioned, op.newId, 1) + Notices(plan.comment, Commented, op.newId, 1));
    }
  }

  lemma UpdateKeepsInv(db: Db, op: Transaction)
    requires Inv(db) && op.Update?
    ensures Inv(StepOf(db, op).0)
  {
    var outcome := StepOf(db, op).1;
    if outcome.Ok? && !outcome.value.idempotent {
      var mentions := Validate(op.content, op.actor, op.access).value;
      var current, before := db.comments[op.comment], MentionsOf(db, op.comment);
      var next := current.(body := op.content.body, anchorKind := op.content.anchorKind,
                           anchorId := op.content.anchorId, version := current.version + 1);
      var added := Without(mentions, before);
      var stored := db.(comments := db.comments[op.comment := next],
                        mentions := db.mentions[op.comment := before - (before - Members(mentions)) + Members(added)]);
      var row, notices := Row(op.comment, current.version + 1, Updated, op.actor),
                          Notices(added, Mentioned, op.comment, current.version + 1);
      StoredKeepsInv(db, stored, row, notices);
      assert StepOf(db, op).0 == Record(stored, row, notices);
    } else {
      assert StepOf(db, op).0 == db;
    }
  }

  lemma DeleteKeepsInv(db: Db, op: Transaction)
    requires Inv(db) && op.Delete?
    ensures Inv(StepOf(db, op).0)
  {
    var outcome := StepOf(db, op).1;
    if outcome.Ok? && !outcome.value.idempotent {
      var current := db.comments[op.comment];
      assert CommentInv(db, op.comment);
      var next := current.(body := "", version := current.version + 1, deleted := true);
      var stored := db.(comments := db.comments[op.comment := next]);
      StoredKeepsInv(db, stored, Row(op.comment, current.version + 1, Deleted, op.actor), []);
    }
  }

  lemma StepKeepsInv(db: Db, op: Transaction)
    requires Inv(db)
    ensures Inv(StepOf(db, op).0)
  {
    match op
    case Create(_, _, _, _, _, _) => CreateKeepsInv(db, op);
    case Update(_, _, _, _, _, _) => UpdateKeepsInv(db, op);
    case Delete(_, _, _, _, _) => DeleteKeepsInv(db, op);
  }

  lemma {:induction false} RunKeepsInv(ops: seq<Transaction>)
    ensures Inv(Run(ops))
  {
    if ops != [] {
      RunKeepsInv(ops[..|ops| - 1]);
      StepKeepsInv(Run(ops[..|ops| - 1]), ops[|ops| - 1]);
    }
  }

  // ---------- Main results

  // A comment's version is the number of its ledger rows: versions 1 to n in
  // order, creation first, a deletion last if it is deleted, updates between.
  lemma VersionsMatchLedger(ops: seq<Transaction>, comment: Id)
    requires comment in Run(ops).comments
    ensures var c := Run(ops).comments[comment];
            History(RowsOf(Run(ops).ledger, comment), c.version, c.deleted)
  {
    RunKeepsInv(ops);
    assert CommentInv(Run(ops), comment);
  }

  // op changes this comment from the version it expects.
  ghost predicate Changes(db: Db, op: Transaction, comment: Id, expectedVersion: nat) {
    && !op.Create? && op.comment == comment && op.expectedVersion == expectedVersion
    && StepOf(db, op).1.Ok? && !StepOf(db, op).1.value.idempotent
  }

  // Comments stay, and their versions never fall.
  ghost predicate NotBefore(db: Db, next: Db, comment: Id) {
    && comment in db.comments && comment in next.comments
    && next.comments[comment].version >= db.comments[comment].version
    && next.comments[comment].session == db.comments[comment].session
    && next.comments[comment].fingerprint == db.comments[comment].fingerprint
    && (forall request :: request in db.requests ==>
          request in next.requests && next.requests[request] == db.requests[request])
  }

  lemma CreateIsMonotone(db: Db, op: Transaction, comment: Id)
    requires Inv(db) && comment in db.comments && op.Create?
    ensures NotBefore(db, StepOf(db, op).0, comment)
  {
  }

  lemma StepIsMonotone(db: Db, op: Transaction, comment: Id)
    requires Inv(db) && comment in db.comments
    ensures NotBefore(db, StepOf(db, op).0, comment)
  {
    if op.Create? {
      CreateIsMonotone(db, op, comment);
    }
  }

  lemma {:induction false} RunIsMonotone(ops: seq<Transaction>, i: nat, j: nat, comment: Id)
    requires i <= j <= |ops| && comment in Run(ops[..i]).comments
    ensures NotBefore(Run(ops[..i]), Run(ops[..j]), comment)
    decreases j
  {
    if i < j {
      RunIsMonotone(ops, i, j - 1, comment);
      assert ops[..j][..j - 1] == ops[..j - 1];
      RunKeepsInv(ops[..j - 1]);
      StepIsMonotone(Run(ops[..j - 1]), ops[j - 1], comment);
    }
  }

  lemma ChangeRaisesVersion(db: Db, op: Transaction, comment: Id, expectedVersion: nat)
    requires Inv(db) && Changes(db, op, comment, expectedVersion)
    ensures comment in db.comments && db.comments[comment].version == expectedVersion
    ensures comment in StepOf(db, op).0.comments && StepOf(db, op).0.comments[comment].version == expectedVersion + 1
  {
  }

  // Of all requests that carry the same expected version, in any run, at most
  // one changes the comment.
  lemma OneChangePerVersion(ops: seq<Transaction>, i: nat, j: nat, comment: Id, expectedVersion: nat)
    requires i < j < |ops|
    requires Changes(Run(ops[..i]), ops[i], comment, expectedVersion)
    ensures !Changes(Run(ops[..j]), ops[j], comment, expectedVersion)
  {
    RunKeepsInv(ops[..i]);
    RunKeepsInv(ops[..j]);
    ChangeRaisesVersion(Run(ops[..i]), ops[i], comment, expectedVersion);
    assert ops[..i + 1][..i] == ops[..i];
    RunIsMonotone(ops, i + 1, j, comment);
    if Changes(Run(ops[..j]), ops[j], comment, expectedVersion) {
      ChangeRaisesVersion(Run(ops[..j]), ops[j], comment, expectedVersion);
    }
  }

  // The checks pass on what the request carries, whatever the membership then.
  lemma ValidatedMentions(content: Content, actor: Id, access: Option<Access>)
    requires Validate(content, actor, access).Ok?
    ensures Validate(content, actor, access).value == Explicit(content.mentions, actor)
  {
  }

  ghost predicate CreatesAnew(db: Db, op: Transaction) {
    op.Create? && StepOf(db, op).1.Ok? && !StepOf(db, op).1.value.idempotent
  }

  // A created comment is found under its request from then on.
  lemma CreationIsKept(ops: seq<Transaction>, i: nat, j: nat)
    requires i < j <= |ops| && CreatesAnew(Run(ops[..i]), ops[i])
    ensures var db, request := Run(ops[..j]), Request(ops[i].author, ops[i].clientRequest);
            && request in db.requests && db.requests[request] == ops[i].newId && ops[i].newId in db.comments
            && db.comments[ops[i].newId].session == ops[i].session
            && db.comments[ops[i].newId].fingerprint
                 == FingerprintOf(ops[i].content, Explicit(ops[i].content.mentions, ops[i].author))
  {
    RunKeepsInv(ops[..i]);
    RunKeepsInv(ops[..i + 1]);
    assert ops[..i + 1][..i] == ops[..i];
    ValidatedMentions(ops[i].content, ops[i].author, ops[i].access);
    RunIsMonotone(ops, i + 1, j, ops[i].newId);
  }

  ghost predicate SameRequest(first: Transaction, second: Transaction) {
    && first.Create? && second.Create?
    && first.session == second.session
    && FingerprintOf(first.content, Explicit(first.content.mentions, first.author))
       == FingerprintOf(second.content, Explicit(second.content.mentions, second.author))
  }

  // Replaying a creation whose checks still pass returns the same comment and
  // changes nothing, at any later time; with other content it is refused.
  lemma ReplayChangesNothing(ops: seq<Transaction>, i: nat, j: nat)
    requires i < j < |ops| && CreatesAnew(Run(ops[..i]), ops[i])
    requires ops[j].Create? && ops[j].author == ops[i].author && ops[j].clientRequest == ops[i].clientRequest
    requires Validate(ops[j].content, ops[j].author, ops[j].access).Ok?
    ensures ops[i].newId in Run(ops[..j]).comments
    ensures StepOf(Run(ops[..j]), ops[j]).0 == Run(ops[..j])
    ensures StepOf(Run(ops[..j]), ops[j]).1
         == if SameRequest(ops[i], ops[j])
            then Ok(Mutation(ops[i].newId, Run(ops[..j]).comments[ops[i].newId].version, true)) else Err(ReplayConflict)
  {
    CreationIsKept(ops, i, j);
    ValidatedMentions(ops[j].content, ops[j].author, ops[j].access);
  }

  // ---------- Mentions

  lemma {:induction false} WithoutExact(ids: seq<Id>, excluded: set<Id>)
    ensures Members(Without(ids, excluded)) == Members(ids) - excluded
    ensures Distinct(Without(ids, excluded))
  {
    if ids != [] {
      WithoutExact(ids[..|ids| - 1], excluded);
      assert ids == ids[..|ids| - 1] + [ids[|ids| - 1]];
      var last, rest := ids[|ids| - 1], Without(ids[..|ids| - 1], excluded);
      assert Members(ids) == Members(ids[..|ids| - 1]) + {last};
      assert Members(rest + [last]) == Members(rest) + {last};
      assert last in rest <==> last in Members(rest);
    }
  }

  // The mention set of the last creation or update that was accepted.
  function LastMentions(ops: seq<Transaction>, comment: Id): set<Id> {
    if ops == [] then {}
    else
      var init, op := ops[..|ops| - 1], ops[|ops| - 1];
      var outcome := StepOf(Run(init), op).1;
      if outcome.Ok? && op.Create? && !outcome.value.idempotent && op.newId == comment
      then Members(Explicit(op.content.mentions, op.author))
      else if outcome.Ok? && op.Update? && op.comment == comment then Members(Explicit(op.content.mentions, op.actor))
      else LastMentions(init, comment)
  }

  lemma CreateStoresMentions(db: Db, op: Transaction, comment: Id)
    requires Inv(db) && op.Create? && comment in StepOf(db, op).0.comments
    ensures MentionsOf(StepOf(db, op).0, comment)
         == if StepOf(db, op).1.Ok? && !StepOf(db, op).1.value.idempotent && op.newId == comment
            then Members(Explicit(op.content.mentions, op.author)) else MentionsOf(db, comment)
  {
    if Validate(op.content, op.author, op.access).Ok? {
      ValidatedMentions(op.content, op.author, op.access);
    }
  }

  lemma UpdateStoresMentions(db: Db, op: Transaction, comment: Id)
    requires Inv(db) && op.Update?
    ensures MentionsOf(StepOf(db, op).0, comment)
         == if StepOf(db, op).1.Ok? && op.comment == comment then Members(Explicit(op.content.mentions, op.actor))
            else MentionsOf(db, comment)
  {
    if StepOf(db, op).1.Ok? {
      var mentions := Explicit(op.content.mentions, op.actor);
      var before := MentionsOf(db, op.comment);
      ValidatedMentions(op.content, op.actor, op.access);
      WithoutExact(mentions, before);
      assert before - (before - Members(mentions)) + (Members(mentions) - before) == Members(mentions);
    }
  }

  lemma DeleteLeavesMentions(db: Db, op: Transaction)
    requires op.Delete?
    ensures StepOf(db, op).0.mentions == db.mentions
    ensures forall c :: c in StepOf(db, op).0.comments ==> c in db.comments
  {
  }

  // The stored mentions are always the last accepted mention set.
  lemma {:induction false} MentionsAreLastAccepted(ops: seq<Transaction>, comment: Id)
    requires comment in Run(ops).comments
    ensures MentionsOf(Run(ops), comment) == LastMentions(ops, comment)
  {
    if ops != [] {
      var init, op := ops[..|ops| - 1], ops[|ops| - 1];
      RunKeepsInv(init);
      if comment in Run(init).comments {
        MentionsAreLastAccepted(init, comment);
      }
      match op
      case Create(_, _, _, _, _, _) => CreateStoresMentions(Run(init), op, comment);
      case Update(_, _, _, _, _, _) => UpdateStoresMentions(Run(init), op, comment);
      case Delete(_, _, _, _, _) => DeleteLeavesMentions(Run(init), op);
    }
  }

  // ---------- Recipients

  lemma {:induction false} AmongExact(ids: seq<Id>, members: set<Id>)
    ensures Members(Among(ids, members)) == Members(ids) * members
  {
    if ids != [] {
      AmongExact(ids[..|ids| - 1], members);
      assert ids == ids[..|ids| - 1] + [ids[|ids| - 1]];
      var last, rest := ids[|ids| - 1], Among(ids[..|ids| - 1], members);
      assert Members(ids) == Members(ids[..|ids| - 1]) + {last};
      assert Members(rest + [last]) == Members(rest) + {last};
    }
  }

  // Every member but the actor is told exactly once of a new comment, as
  // mentioned when the comment mentions them.
  lemma EveryoneElseOnce(actor: Id, members: seq<Id>, mentioned: seq<Id>)
    ensures var plan := PlanRecipients(actor, members, mentioned);
            && Distinct(plan.mention) && Distinct(plan.comment)
            && Members(plan.mention) == Members(mentioned) * Members(members) - {actor}
            && Members(plan.comment) == Members(members) - {actor} - Members(plan.mention)
            && Members(plan.mention) + Members(plan.comment) == Members(members) - {actor}
  {
    AmongExact(mentioned, Members(members));
    WithoutExact(Among(mentioned, Members(members)), {actor});
    WithoutExact(members, {actor} + Members(PlanRecipients(actor, members, mentioned).mention));
  }
}
