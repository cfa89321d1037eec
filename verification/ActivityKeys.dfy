// The text of every event key, written out (activity_policy.py), and the error
// for an identity that is missing.
module ActivityKeys {
  import opened Wrappers
  import opened TextKeys
  import opened ActivityPolicy

  function Of(identity: Identity, field: Field): string {
    if field in identity.values then identity.values[field] else ""
  }

  // ---------- The texts, which a key has with colons between them

  function Written(t: EventType, id: Identity): seq<string> {
    match t
    case AccountRegistered => ["account", Of(id, UserId), "registered"]
    case ProfileUpdated => ["profile", Of(id, UserId), "v" + Of(id, ProfileVersion)]
    case PreferencesUpdated => ["preferences", Of(id, UserId), "v" + Of(id, PreferencesVersion)]
    case FriendshipRequested => WrittenFriendship("requested", id)
    case FriendshipAccepted => WrittenFriendship("accepted", id)
    case FriendshipRejected => WrittenFriendship("rejected", id)
    case RoomCreated => ["room", Of(id, RoomId), "created"]
    case RoomMemberAdded => ["room", Of(id, RoomId), "member", Of(id, UserId), "added"]
    case RoomMemberLeft => ["room", Of(id, RoomId), "member", Of(id, UserId), "left"]
    case SessionCreated => ["session", Of(id, SessionId), "created"]
    case SessionArchived => ["session", Of(id, SessionId), "archived"]
    case SessionRetryRequested =>
      ["session", Of(id, SessionId), "epoch", Of(id, GenerationEpoch), "retry", Of(id, RetryOrdinal)]
    case SessionClosed => WrittenState("closed", id)
    case SessionProcessing => WrittenState("processing", id)
    case SessionReady => WrittenState("ready", id)
    case SessionNeedsAttention => WrittenState("needs_attention", id)
    case SessionReopened => WrittenState("reopened", id)
    case SubmissionDeleted => ["submission", Of(id, SubmissionId), "deleted"]
    case SubmissionCreated => WrittenSubmission("created", id)
    case SubmissionRevised => WrittenSubmission("revised", id)
    case SourceRevisionRetryRequested => ["revision", Of(id, RevisionId), "retry", Of(id, RetryNonce), "requested"]
    case SourceRevisionReady => WrittenRevision("ready", id)
    case SourceRevisionFailed => WrittenRevision("failed", id)
    case SuggestionCreated => ["suggestion", Of(id, SuggestionId), "created"]
    case SuggestionAccepted => WrittenVersion("suggestion", SuggestionId, "accepted", id)
    case SuggestionRejected => WrittenVersion("suggestion", SuggestionId, "rejected", id)
    case MergedDocumentSaved =>
      ["merged_document", Of(id, SessionId), "snapshot", Of(id, SnapshotId), "v" + Of(id, Version), "saved"]
    case MergedDocumentVersionCreated => ["merged_document_version", Of(id, VersionId), "created"]
    case CommentCreated => WrittenVersion("comment", CommentId, "created", id)
    case CommentUpdated => WrittenVersion("comment", CommentId, "updated", id)
    case CommentDeleted => WrittenVersion("comment", CommentId, "deleted", id)
  }

  function WrittenFriendship(state: string, id: Identity): seq<string> {
    ["friendship", Of(id, FriendshipId), state, "aud", Of(id, AudienceUserId)]
  }

  function WrittenState(state: string, id: Identity): seq<string> {
    ["session", Of(id, SessionId), "state-v" + Of(id, StateVersion), state]
  }

  function WrittenSubmission(state: string, id: Identity): seq<string> {
    ["submission", Of(id, SubmissionId), "revision", Of(id, RevisionNo), state]
  }

  function WrittenRevision(state: string, id: Identity): seq<string> {
    if id.reconciled then ["revision", Of(id, RevisionId), "reconcile", Of(id, JobId), state]
    else ["revision", Of(id, RevisionId), "attempt", Of(id, JobAttemptId), state]
  }

  function WrittenVersion(kind: string, field: Field, state: string, id: Identity): seq<string> {
    [kind, Of(id, field), "v" + Of(id, Version), state]
  }

  // ---------- The identities that are asked for, in order

  function Asked(t: EventType, reconciled: bool): seq<Field> {
    match t
    case AccountRegistered => [UserId]
    case ProfileUpdated => [UserId, ProfileVersion]
    case PreferencesUpdated => [UserId, PreferencesVersion]
    case FriendshipRequested | FriendshipAccepted | FriendshipRejected => [FriendshipId, AudienceUserId]
    case RoomCreated => [RoomId]
    case RoomMemberAdded | RoomMemberLeft => [RoomId, UserId]
    case SessionCreated | SessionArchived => [SessionId]
    case SessionRetryRequested => [SessionId, GenerationEpoch, RetryOrdinal]
    case SessionClosed | SessionProcessing | SessionReady | SessionNeedsAttention | SessionReopened =>
      [SessionId, StateVersion]
    case SubmissionDeleted => [SubmissionId]
    case SubmissionCreated | SubmissionRevised => [SubmissionId, RevisionNo]
    case SourceRevisionRetryRequested => [RevisionId, RetryNonce]
    case SourceRevisionReady | SourceRevisionFailed => [RevisionId, if reconciled then JobId else JobAttemptId]
    case SuggestionCreated => [SuggestionId]
    case SuggestionAccepted | SuggestionRejected => [SuggestionId, Version]
    case MergedDocumentSaved => [SessionId, SnapshotId, Version]
    case MergedDocumentVersionCreated => [VersionId]
    case CommentCreated | CommentUpdated | CommentDeleted => [CommentId, Version]
  }

  function FirstMissing(fields: seq<Field>, identity: Identity): Option<Field> {
    if fields == [] then None
    else if fields[0] !in identity.values then Some(fields[0])
    else FirstMissing(fields[1..], identity)
  }

  // The fields of the first parts.
  function FieldsOf(parts: seq<Part>, n: nat): seq<Field>
    requires n <= |parts|
  {
    if n == 0 then [] else FieldsOf(parts, n - 1) + if parts[n - 1].Value? then [parts[n - 1].field] else []
  }

  lemma {:induction false} FieldsOfPrefix(parts: seq<Part>, more: seq<Part>, n: nat)
    requires parts <= more && n <= |parts|
    ensures FieldsOf(parts, n) == FieldsOf(more, n)
  {
    if n > 0 {
      FieldsOfPrefix(parts, more, n - 1);
    }
  }

  lemma {:induction false} FirstMissingMore(fields: seq<Field>, last: Field, identity: Identity)
    ensures FirstMissing(fields + [last], identity)
         == if FirstMissing(fields, identity).Some? then FirstMissing(fields, identity)
            else if last in identity.values then None else Some(last)
  {
    if fields != [] {
      FirstMissingMore(fields[1..], last, identity);
      assert (fields + [last])[1..] == fields[1..] + [last];
    } else {
      assert (fields + [last])[1..] == [];
    }
  }

  // Filling in fails exactly for the first identity that is missing.
  lemma {:induction false} FillFailsForFirst(parts: seq<Part>, identity: Identity)
    ensures match FirstMissing(FieldsOf(parts, |parts|), identity)
            case Some(field) => Fill(parts, identity) == Err(MissingIdentity(field))
            case None => Fill(parts, identity).Ok?
  {
    if parts != [] {
      var init, last := parts[..|parts| - 1], parts[|parts| - 1];
      FillFailsForFirst(init, identity);
      FieldsOfPrefix(init, parts, |init|);
      var before := FieldsOf(init, |init|);
      if last.Value? {
        FirstMissingMore(before, last.field, identity);
      } else {
        assert before + [] == before;
      }
    }
  }

  // ---------- The texts are the keys

  lemma JoinOfThree(a: string, b: string, c: string)
    ensures Join([a, b, c], ':') == a + ":" + b + ":" + c
  {
    assert [a, b, c][1..] == [b, c] && [b, c][1..] == [c];
    assert Join([b, c], ':') == b + [':'] + Join([c], ':') && ":" == [':'];
    assert a + [':'] + (b + [':'] + c) == a + ":" + b + ":" + c;
  }

  predicate Says(part: Part, id: Identity, text: string) {
    match part
    case Fixed(word) => text == Spell(word)
    case Value(Bare, field) => text == Of(id, field)
    case Value(V, field) => text == "v" + Of(id, field)
    case Value(StateV, field) => text == "state-v" + Of(id, field)
  }

  ghost predicate AllSay(parts: seq<Part>, id: Identity, texts: seq<string>) {
    |parts| == |texts| && forall k :: 0 <= k < |parts| ==> Says(parts[k], id, texts[k])
  }

  ghost predicate IsWritten(t: EventType, id: Identity) {
    AllSay(Parts(t, id.reconciled), id, Written(t, id))
  }

  // The shapes that several types share.
  lemma FriendshipsSay(state: Word, id: Identity)
    ensures AllSay(FriendshipParts(state), id, WrittenFriendship(Spell(state), id))
  {
  }

  lemma StatesSay(state: Word, id: Identity)
    ensures AllSay(SessionStateParts(state), id, WrittenState(Spell(state), id))
  {
  }

  lemma SubmissionsSay(state: Word, id: Identity)
    ensures AllSay(SubmissionParts(state), id, WrittenSubmission(Spell(state), id))
  {
  }

  lemma RevisionsSay(state: Word, id: Identity)
    ensures AllSay(RevisionParts(state, id.reconciled), id, WrittenRevision(Spell(state), id))
  {
  }

  lemma AccountsAreWritten(t: EventType, id: Identity)
    requires t == AccountRegistered || t == ProfileUpdated || t == PreferencesUpdated
    ensures IsWritten(t, id)
  {
  }

  lemma FriendshipsAreWritten(t: EventType, id: Identity)
    requires t == FriendshipRequested || t == FriendshipAccepted || t == FriendshipRejected
    ensures IsWritten(t, id)
  {
    FriendshipsSay(WRequested, id);
    FriendshipsSay(WAccepted, id);
    FriendshipsSay(WRejected, id);
  }

  lemma RoomsAreWritten(t: EventType, id: Identity)
    requires t == RoomCreated || t == RoomMemberAdded || t == RoomMemberLeft
    ensures IsWritten(t, id)
  {
  }

  lemma SessionsAreWritten(t: EventType, id: Identity)
    requires t == SessionCreated || t == SessionArchived || t == SessionRetryRequested
    ensures IsWritten(t, id)
  {
  }

  lemma StatesAreWritten(t: EventType, id: Identity)
    requires t == SessionClosed || t == SessionProcessing || t == SessionReady
             || t == SessionNeedsAttention || t == SessionReopened
    ensures IsWritten(t, id)
  {
    StatesSay(WClosed, id);
    StatesSay(WProcessing, id);
    StatesSay(WReady, id);
    StatesSay(WNeedsAttention, id);
    StatesSay(WReopened, id);
  }

  lemma SubmissionsAreWritten(t: EventType, id: Identity)
    requires t == SubmissionCreated || t == SubmissionRevised || t == SubmissionDeleted
    ensures IsWritten(t, id)
  {
    SubmissionsSay(WCreated, id);
    SubmissionsSay(WRevised, id);
  }

  lemma RevisionsAreWritten(t: EventType, id: Identity)
    requires t == SourceRevisionReady || t == SourceRevisionFailed || t == SourceRevisionRetryRequested
    ensures IsWritten(t, id)
  {
    RevisionsSay(WReady, id);
    RevisionsSay(WFailed, id);
  }

  lemma SuggestionsAreWritten(t: EventType, id: Identity)
    requires t == SuggestionCreated || t == SuggestionAccepted || t == SuggestionRejected
    ensures IsWritten(t, id)
  {
  }

  lemma CommentsAreWritten(t: EventType, id: Identity)
    requires t == CommentCreated || t == CommentUpdated || t == CommentDeleted
    ensures IsWritten(t, id)
  {
  }

  lemma SavedIsWritten(id: Identity)
    ensures IsWritten(MergedDocumentSaved, id)
  {
  }

  lemma VersionIsWritten(id: Identity)
    ensures IsWritten(MergedDocumentVersionCreated, id)
  {
  }

  lemma PartsAreWritten(t: EventType, id: Identity)
    ensures IsWritten(t, id)
  {
    match t
    case AccountRegistered | ProfileUpdated | PreferencesUpdated => AccountsAreWritten(t, id);
    case FriendshipRequested | FriendshipAccepted | FriendshipRejected => FriendshipsAreWritten(t, id);
    case RoomCreated | RoomMemberAdded | RoomMemberLeft => RoomsAreWritten(t, id);
    case SessionCreated | SessionArchived | SessionRetryRequested => SessionsAreWritten(t, id);
    case SessionClosed | SessionProcessing | SessionReady | SessionNeedsAttention | SessionReopened =>
      StatesAreWritten(t, id);
    case SubmissionCreated | SubmissionRevised | SubmissionDeleted => SubmissionsAreWritten(t, id);
    case SourceRevisionReady | SourceRevisionFailed | SourceRevisionRetryRequested => RevisionsAreWritten(t, id);
    case SuggestionCreated | SuggestionAccepted | SuggestionRejected => SuggestionsAreWritten(t, id);
    case CommentCreated | CommentUpdated | CommentDeleted => CommentsAreWritten(t, id);
    case MergedDocumentSaved => SavedIsWritten(id);
    case MergedDocumentVersionCreated => VersionIsWritten(id);
  }

  ghost predicate AsksFor(t: EventType, reconciled: bool) {
    var parts := Parts(t, reconciled);
    FieldsOf(parts, |parts|) == Asked(t, reconciled)
  }

  lemma PeopleAskFor(t: EventType, reconciled: bool)
    requires AboutAccounts(t)
    ensures AsksFor(t, reconciled)
  {
    var parts := Parts(t, reconciled);
    if |parts| == 3 {
      assert FieldsOf(parts, 3) == Asked(t, reconciled);
    } else {
      assert FieldsOf(parts, 5) == Asked(t, reconciled);
    }
  }

  lemma SessionsAskFor(t: EventType, reconciled: bool)
    requires AboutPeople(t) && !AboutAccounts(t)
    ensures AsksFor(t, reconciled)
  {
    var parts := Parts(t, reconciled);
    if |parts| == 3 {
      assert FieldsOf(parts, 3) == Asked(t, reconciled);
    } else if |parts| == 4 {
      assert FieldsOf(parts, 4) == Asked(t, reconciled);
    } else {
      assert FieldsOf(parts, 6) == Asked(t, reconciled);
    }
  }

  lemma SourcesAskFor(t: EventType, reconciled: bool)
    requires AboutSources(t)
    ensures AsksFor(t, reconciled)
  {
    var parts := Parts(t, reconciled);
    if |parts| == 3 {
      assert FieldsOf(parts, 3) == Asked(t, reconciled);
    } else {
      assert FieldsOf(parts, 5) == Asked(t, reconciled);
    }
  }

  // The fields of up to six parts, one after the other.
  lemma FieldsOneByOne(parts: seq<Part>)
    ensures |parts| >= 1 ==> FieldsOf(parts, 1) == if parts[0].Value? then [parts[0].field] else []
    ensures |parts| >= 2 ==> FieldsOf(parts, 2) == FieldsOf(parts, 1) + if parts[1].Value? then [parts[1].field] else []
    ensures |parts| >= 3 ==> FieldsOf(parts, 3) == FieldsOf(parts, 2) + if parts[2].Value? then [parts[2].field] else []
    ensures |parts| >= 4 ==> FieldsOf(parts, 4) == FieldsOf(parts, 3) + if parts[3].Value? then [parts[3].field] else []
    ensures |parts| >= 5 ==> FieldsOf(parts, 5) == FieldsOf(parts, 4) + if parts[4].Value? then [parts[4].field] else []
    ensures |parts| >= 6 ==> FieldsOf(parts, 6) == FieldsOf(parts, 5) + if parts[5].Value? then [parts[5].field] else []
  {
  }

  lemma SuggestionsAskFor(t: EventType, reconciled: bool)
    requires t == SuggestionCreated || t == SuggestionAccepted || t == SuggestionRejected
    ensures AsksFor(t, reconciled)
  {
    var parts := Parts(t, reconciled);
    FieldsOneByOne(parts);
    assert FieldsOf(parts, 2) == [SuggestionId];
  }

  lemma CommentsAskFor(t: EventType, reconciled: bool)
    requires t == CommentCreated || t == CommentUpdated || t == CommentDeleted
    ensures AsksFor(t, reconciled)
  {
    var parts := Parts(t, reconciled);
    FieldsOneByOne(parts);
    assert FieldsOf(parts, 2) == [CommentId];
  }

  lemma MergedDocumentsAskFor(t: EventType, reconciled: bool)
    requires t == MergedDocumentSaved || t == MergedDocumentVersionCreated
    ensures AsksFor(t, reconciled)
  {
    var parts := Parts(t, reconciled);
    FieldsOneByOne(parts);
    assert t == MergedDocumentSaved ==> FieldsOf(parts, 4) == [SessionId, SnapshotId];
  }

  lemma PartsAskFor(t: EventType, reconciled: bool)
    ensures AsksFor(t, reconciled)
  {
    match t
    case SuggestionCreated | SuggestionAccepted | SuggestionRejected => SuggestionsAskFor(t, reconciled);
    case CommentCreated | CommentUpdated | CommentDeleted => CommentsAskFor(t, reconciled);
    case MergedDocumentSaved | MergedDocumentVersionCreated => MergedDocumentsAskFor(t, reconciled);
    case _ =>
      if AboutAccounts(t) {
        PeopleAskFor(t, reconciled);
      } else if AboutPeople(t) {
        SessionsAskFor(t, reconciled);
      } else {
        SourcesAskFor(t, reconciled);
      }
  }

  lemma FilledAsWritten(parts: seq<Part>, id: Identity, texts: seq<string>)
    requires Fill(parts, id).Ok? && |parts| == |texts|
    requires forall k :: 0 <= k < |parts| ==> Says(parts[k], id, texts[k])
    ensures Fill(parts, id) == Ok(texts)
  {
    FillExact(parts, id);
    forall k | 0 <= k < |parts|
      ensures Fills(parts[k], id, texts[k])
    {
      assert Says(parts[k], id, texts[k]);
      assert PrefixText(Bare) + texts[k] == texts[k];
    }
    FilledWith(parts, id, texts);
  }

  // The key of an event is its texts with colons between them, or the error for
  // the first identity asked for that is missing.
  lemma KeyIsWritten(t: EventType, identity: Identity)
    ensures KeyFor(t, identity)
         == match FirstMissing(Asked(t, identity.reconciled), identity)
            case Some(field) => Err(MissingIdentity(field))
            case None => Ok(Join(Written(t, identity), ':'))
  {
    var parts := Parts(t, identity.reconciled);
    PartsAreWritten(t, identity);
    PartsAskFor(t, identity.reconciled);
    FillFailsForFirst(parts, identity);
    if Fill(parts, identity).Ok? {
      FilledAsWritten(parts, identity, Written(t, identity));
    }
  }
}
