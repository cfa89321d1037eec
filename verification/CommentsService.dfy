// The comment transactions as they run: rows are read and written in the
// order of comments_service.py, with the result the model gives.
module CommentsService {
  import opened Wrappers
  import opened CommentsModel

  class Service {
    var comments: map<Id, Comment>
    var requests: map<Request, Id>
    var mentions: map<Id, set<Id>>
    var ledger: seq<Row>
    var notices: seq<Notice>

    ghost function Tables(): Db
      reads this
    {
      Db(comments, requests, mentions, ledger, notices)
    }

    // The foreign key: only stored comments have mentions.
    ghost predicate Valid()
      reads this
    {
      forall c :: c in mentions ==> c in comments
    }

    constructor ()
      ensures Tables() == EMPTY && Valid()
    {
      comments, requests, mentions, ledger, notices := map[], map[], map[], [], [];
    }

    // Append the row; its notices are sent only if the row is new.
    method RecordActivity(row: Row, effects: seq<Notice>)
      modifies this`ledger, this`notices
      ensures Tables() == Record(old(Tables()), row, effects)
    {
      if !KeyTaken(ledger, row) {
        ledger := ledger + [row];
        notices := notices + effects;
      }
    }

    // Insert mentions one by one, ignoring those already there.
    method InsertMentions(comment: Id, users: seq<Id>)
      modifies this`mentions
      ensures mentions == old(mentions)[comment := MentionsOf(old(Tables()), comment) + Members(users)]
    {
      var stored := if comment in mentions then mentions[comment] else {};
      var k := 0;
      while k < |users|
        invariant 0 <= k <= |users|
        invariant mentions == old(mentions)
        invariant stored == MentionsOf(old(Tables()), comment) + Members(users[..k])
      {
        assert users[..k + 1] == users[..k] + [users[k]];
        stored := stored + {users[k]};
        k := k + 1;
      }
      assert users[..k] == users;
      mentions := mentions[comment := stored];
    }

    method CreateComment(session: Id, author: Id, clientRequest: Id, newId: Id, content: Content,
                         access: Option<Access>)
        returns (r: Result<Mutation, Error>)
      requires Valid()
      modifies this
      ensures Valid()
      ensures (Tables(), r) == CreateStep(old(Tables()), session, author, clientRequest, newId, content, access)
    {
      var checked := Validate(content, author, access);
      if checked.Err? {
        return Err(checked.error);
      }
      var explicit := checked.value;
      var fingerprint := FingerprintOf(content, explicit);
      var request := Request(author, clientRequest);
      if request in requests && requests[request] in comments {
        var existing := comments[requests[request]];
        if existing.session != session || existing.fingerprint != fingerprint {
          return Err(ReplayConflict);
        }
        return Ok(Mutation(requests[request], existing.version, true));
      }
      if newId in comments {
        return Err(IdTaken);
      }
      comments := comments[newId := Comment(session, author, fingerprint, 1, content.body, content.anchorKind,
                                            content.anchorId, false)];
      requests := requests[request := newId];
      InsertMentions(newId, explicit);
      assert {} + Members(explicit) == Members(explicit);
      var plan := PlanRecipients(author, access.value.members, explicit);
      RecordActivity(Row(newId, 1, Created, author),
                     Notices(plan.mention, Mentioned, newId, 1) + Notices(plan.comment, Commented, newId, 1));
      return Ok(Mutation(newId, 1, false));
    }

    method UpdateComment(session: Id, actor: Id, comment: Id, expectedVersion: nat, content: Content,
                         access: Option<Access>)
        returns (r: Result<Mutation, Error>)
      requires Valid()
      modifies this
      ensures Valid()
      ensures (Tables(), r) == UpdateStep(old(Tables()), session, actor, comment, expectedVersion, content, access)
    {
      var checked := Validate(content, actor, access);
      if checked.Err? {
        return Err(checked.error);
      }
      var explicit := checked.value;
      if comment !in comments || comments[comment].session != session || comments[comment].author != actor
         || comments[comment].deleted {
        return Err(CommentUnavailable);
      }
      var current := comments[comment];
      if current.version != expectedVersion {
        return Err(StaleVersion);
      }
      var before := if comment in mentions then mentions[comment] else {};
      if SameContent(current, before, content, explicit) {
        return Ok(Mutation(comment, expectedVersion, true));
      }
      var version := current.version + 1;
      comments := comments[comment := current.(body := content.body, anchorKind := content.anchorKind,
                                               anchorId := content.anchorId, version := version)];
      mentions := mentions[comment := before - (before - Members(explicit))];
      var added := Without(explicit, before);
      InsertMentions(comment, added);
      assert mentions == old(mentions)[comment := before - (before - Members(explicit)) + Members(added)];
      RecordActivity(Row(comment, version, Updated, actor), Notices(added, Mentioned, comment, version));
      return Ok(Mutation(comment, version, false));
    }

    method DeleteComment(session: Id, actor: Id, comment: Id, expectedVersion: nat, access: Option<Access>)
        returns (r: Result<Mutation, Error>)
      requires Valid()
      modifies this
      ensures Valid()
      ensures (Tables(), r) == DeleteStep(old(Tables()), session, actor, comment, expectedVersion, access)
    {
      if access.None? {
        return Err(SessionUnavailable);
      }
      if comment !in comments || comments[comment].session != session
         || (actor != comments[comment].author && actor != access.value.owner) {
        return Err(CommentUnavailable);
      }
      var current := comments[comment];
      if current.version != expectedVersion {
        return Err(StaleVersion);
      }
      if current.deleted {
        return Ok(Mutation(comment, expectedVersion, true));
      }
      comments := comments[comment := current.(body := "", version := current.version + 1, deleted := true)];
      RecordActivity(Row(comment, current.version + 1, Deleted, actor), []);
      return Ok(Mutation(comment, current.version + 1, false));
    }
  }
}
