// Who is told of a comment, over every run of comments_service.py: no one twice
// of the same version, and of a new comment everyone but its author.
module CommentsNotices {
  import opened CommentsInvariants
  import opened CommentsModel
  import opened Sorting

  ghost predicate NotToldTwice(notices: seq<Notice>) {
    forall i, j :: 0 <= i < j < |notices| ==>
      || notices[i].recipient != notices[j].recipient
      || notices[i].comment != notices[j].comment
      || notices[i].version != notices[j].version
  }

  ghost predicate Recorded(comments: map<Id, Comment>, n: Notice) {
    n.comment in comments && n.version <= comments[n.comment].version
  }

  ghost predicate NoticesInv(db: Db) {
    NotToldTwice(db.notices) && forall n <- db.notices :: Recorded(db.comments, n)
  }

  // Notices of one version of a comment, to different people.
  ghost predicate OneRound(added: seq<Notice>, comment: Id, version: nat) {
    && (forall n <- added :: n.comment == comment && n.version == version)
    && forall i, j :: 0 <= i < j < |added| ==> added[i].recipient != added[j].recipient
  }

  lemma NewRoundIsNew(db: Db, comments: map<Id, Comment>, added: seq<Notice>, comment: Id, version: nat)
    requires NoticesInv(db) && OneRound(added, comment, version)
    requires comment in comments && comments[comment].version == version
    requires comment in db.comments ==> db.comments[comment].version < version
    requires forall c :: c in db.comments ==> c in comments && db.comments[c].version <= comments[c].version
    ensures NotToldTwice(db.notices + added)
    ensures forall n <- db.notices + added :: Recorded(comments, n)
  {
    var all := db.notices + added;
    forall i, j | 0 <= i < j < |all|
      ensures all[i].recipient != all[j].recipient || all[i].comment != all[j].comment
          || all[i].version != all[j].version
    {
      if i < |db.notices| {
        assert db.notices[i] in db.notices;
        if j >= |db.notices| {
          assert added[j - |db.notices|] in added;
        }
      }
    }
    forall n | n in all
      ensures Recorded(comments, n)
    {
      assert n in db.notices || n in added;
    }
  }

  lemma NoticesAreOneRound(recipients: seq<Id>, kind: NoticeKind, comment: Id, version: nat)
    requires Distinct(recipients)
    ensures OneRound(Notices(recipients, kind, comment, version), comment, version)
    ensures forall u :: u in recipients <==>
              Notice(u, kind, comment, version) in Notices(recipients, kind, comment, version)
  {
    var notices := Notices(recipients, kind, comment, version);
    forall u | u in recipients
      ensures Notice(u, kind, comment, version) in notices
    {
      var k :| 0 <= k < |recipients| && recipients[k] == u;
      assert notices[k] == Notice(u, kind, comment, version);
    }
  }

  // ---------- What each transaction adds

  function CreationNotices(op: Transaction): seq<Notice>
    requires op.Create? && op.access.Some?
  {
    var plan := PlanRecipients(op.author, op.access.value.members, Explicit(op.content.mentions, op.author));
    Notices(plan.mention, Mentioned, op.newId, 1) + Notices(plan.comment, Commented, op.newId, 1)
  }

  lemma CreateAdds(db: Db, op: Transaction)
    requires Inv(db) && CreatesAnew(db, op)
    ensures op.access.Some? && op.newId !in db.comments
    ensures var next := StepOf(db, op).0;
            && next.notices == db.notices + CreationNotices(op)
            && op.newId in next.comments && next.comments[op.newId].version == 1
            && next.comments == db.comments[op.newId := next.comments[op.newId]]
  {
    assert CommentInv(db, op.newId);
    ValidatedMentions(op.content, op.author, op.access);
    NextRowIsNew(db, Row(op.newId, 1, Created, op.author));
  }

  function NewlyMentioned(db: Db, op: Transaction): seq<Id>
    requires op.Update?
  {
    Without(Explicit(op.content.mentions, op.actor), MentionsOf(db, op.comment))
  }

  lemma UpdateAdds(db: Db, op: Transaction)
    requires Inv(db) && op.Update? && StepOf(db, op).0 != db
    ensures op.comment in db.comments && op.comment in StepOf(db, op).0.comments
    ensures var next, version := StepOf(db, op).0, db.comments[op.comment].version + 1;
            && next.notices == db.notices + Notices(NewlyMentioned(db, op), Mentioned, op.comment, version)
            && next.comments == db.comments[op.comment := next.comments[op.comment]]
            && next.comments[op.comment].version == version
  {
    assert CommentInv(db, op.comment);
    ValidatedMentions(op.content, op.actor, op.access);
    NextRowIsNew(db, Row(op.comment, db.comments[op.comment].version + 1, Updated, op.actor));
  }

  lemma DeleteAddsNothing(db: Db, op: Transaction)
    requires op.Delete?
    ensures StepOf(db, op).0.notices == db.notices
    ensures forall c :: c in db.comments ==>
              c in StepOf(db, op).0.comments && db.comments[c].version <= StepOf(db, op).0.comments[c].version
  {
  }

  lemma {:induction false} ExplicitExact(values: seq<Id>, actor: Id)
    ensures Members(Explicit(values, actor)) == Members(values) - {actor}
  {
    if values != [] {
      var init, last := values[..|values| - 1], values[|values| - 1];
      ExplicitExact(init, actor);
      assert values == init + [last];
      assert Members(values) == Members(init) + {last};
      var rest := Explicit(init, actor);
      assert Members(rest + [last]) == Members(rest) + {last};
      assert last in rest <==> last in Members(rest);
    }
  }

  lemma CreationIsOneRound(op: Transaction)
    requires op.Create? && op.access.Some?
    ensures OneRound(CreationNotices(op), op.newId, 1)
    ensures forall n :: n in CreationNotices(op) <==>
              && n.comment == op.newId && n.version == 1
              && n.recipient in op.access.value.members && n.recipient != op.author
              && n.kind == if n.recipient in op.content.mentions then Mentioned else Commented
  {
    var members, explicit := op.access.value.members, Explicit(op.content.mentions, op.author);
    var plan := PlanRecipients(op.author, members, explicit);
    EveryoneElseOnce(op.author, members, explicit);
    ExplicitExact(op.content.mentions, op.author);
    assert forall u :: u in op.content.mentions <==> u in Members(op.content.mentions);
    NoticesAreOneRound(plan.mention, Mentioned, op.newId, 1);
    NoticesAreOneRound(plan.comment, Commented, op.newId, 1);
    var first, second := Notices(plan.mention, Mentioned, op.newId, 1), Notices(plan.comment, Commented, op.newId, 1);
    forall i, j | 0 <= i < |first| && 0 <= j < |second|
      ensures first[i].recipient != second[j].recipient
    {
      assert first[i].recipient in Members(plan.mention) && second[j].recipient in Members(plan.comment);
    }
    forall n
      ensures n in CreationNotices(op) <==>
                && n.comment == op.newId && n.version == 1
                && ((n.kind == Mentioned && n.recipient in Members(plan.mention))
                    || (n.kind == Commented && n.recipient in Members(plan.comment)))
    {
      assert n in CreationNotices(op) <==> n in first || n in second;
    }
  }

  // ---------- Every run

  lemma StepKeepsNotices(db: Db, op: Transaction)
    requires Inv(db) && NoticesInv(db)
    ensures NoticesInv(StepOf(db, op).0)
  {
    var next := StepOf(db, op).0;
    if op.Create? && CreatesAnew(db, op) {
      CreateAdds(db, op);
      CreationIsOneRound(op);
      NewRoundIsNew(db, next.comments, CreationNotices(op), op.newId, 1);
    } else if op.Update? && next != db {
      UpdateAdds(db, op);
      var version := db.comments[op.comment].version + 1;
      var told := NewlyMentioned(db, op);
      WithoutExact(Explicit(op.content.mentions, op.actor), MentionsOf(db, op.comment));
      NoticesAreOneRound(told, Mentioned, op.comment, version);
      NewRoundIsNew(db, next.comments, Notices(told, Mentioned, op.comment, version), op.comment, version);
    } else if op.Delete? {
      DeleteAddsNothing(db, op);
    }
  }

  lemma {:induction false} RunKeepsNotices(ops: seq<Transaction>)
    ensures NoticesInv(Run(ops))
  {
    if ops != [] {
      RunKeepsNotices(ops[..|ops| - 1]);
      RunKeepsInv(ops[..|ops| - 1]);
      StepKeepsNotices(Run(ops[..|ops| - 1]), ops[|ops| - 1]);
    }
  }

  // In every run no one is told twice of one version of a comment.
  lemma NoOneIsToldTwice(ops: seq<Transaction>)
    ensures NotToldTwice(Run(ops).notices)
  {
    RunKeepsNotices(ops);
  }

  // A creation, after any run, adds exactly one notice for each member but the
  // author, at version 1, as mentioned when the comment mentions the member.
  lemma CreationTellsEveryoneElse(ops: seq<Transaction>, op: Transaction)
    requires CreatesAnew(Run(ops), op)
    ensures op.access.Some?
    ensures var db, next := Run(ops), Run(ops + [op]);
            var added := next.notices[|db.notices|..];
            && next.notices == db.notices + added && NotToldTwice(next.notices)
            && forall n :: n in added <==>
                 && n.comment == op.newId && n.version == 1
                 && n.recipient in op.access.value.members && n.recipient != op.author
                 && n.kind == if n.recipient in op.content.mentions then Mentioned else Commented
  {
    RunKeepsInv(ops);
    RunKeepsNotices(ops + [op]);
    assert (ops + [op])[..|ops|] == ops;
    CreateAdds(Run(ops), op);
    CreationIsOneRound(op);
  }
}
