// Deterministic keys of ledger events (activity_policy.py).
module ActivityPolicy {
  import opened Wrappers
  import opened TextKeys

  datatype EventType =
    | AccountRegistered | ProfileUpdated | PreferencesUpdated
    | FriendshipRequested | FriendshipAccepted | FriendshipRejected
    | RoomCreated | RoomMemberAdded | RoomMemberLeft
    | SessionCreated | SessionClosed | SessionRetryRequested | SessionProcessing | SessionReady
    | SessionNeedsAttention | SessionReopened | SessionArchived
    | SubmissionCreated | SubmissionRevised | SubmissionDeleted
    | SourceRevisionReady | SourceRevisionFailed | SourceRevisionRetryRequested
    | SuggestionCreated | SuggestionAccepted | SuggestionRejected
    | CommentCreated | CommentUpdated | CommentDeleted
    | MergedDocumentSaved | MergedDocumentVersionCreated

  const ALL_TYPES: seq<EventType> := [
    AccountRegistered, ProfileUpdated, PreferencesUpdated,
    FriendshipRequested, FriendshipAccepted, FriendshipRejected,
    RoomCreated, RoomMemberAdded, RoomMemberLeft,
    SessionCreated, SessionClosed, SessionRetryRequested, SessionProcessing, SessionReady,
    SessionNeedsAttention, SessionReopened, SessionArchived,
    SubmissionCreated, SubmissionRevised, SubmissionDeleted,
    SourceRevisionReady, SourceRevisionFailed, SourceRevisionRetryRequested,
    SuggestionCreated, SuggestionAccepted, SuggestionRejected,
    CommentCreated, CommentUpdated, CommentDeleted,
    MergedDocumentSaved, MergedDocumentVersionCreated]

  function TypeName(t: EventType): string {
    match t
    case AccountRegistered => "account.registered"
    case ProfileUpdated => "profile.updated"
    case PreferencesUpdated => "notification_preferences.updated"
    case FriendshipRequested => "friendship.requested"
    case FriendshipAccepted => "friendship.accepted"
    case FriendshipRejected => "friendship.rejected"
    case RoomCreated => "room.created"
    case RoomMemberAdded => "room.member_added"
    case RoomMemberLeft => "room.member_left"
    case SessionCreated => "session.created"
    case SessionClosed => "session.closed"
    case SessionRetryRequested => "session.retry_requested"
    case SessionProcessing => "session.processing"
    case SessionReady => "session.ready"
    case SessionNeedsAttention => "session.needs_attention"
    case SessionReopened => "session.reopened"
    case SessionArchived => "session.archived"
    case SubmissionCreated => "submission.created"
    case SubmissionRevised => "submission.revised"
    case SubmissionDeleted => "submission.deleted"
    case SourceRevisionReady => "source_revision.ready"
    case SourceRevisionFailed => "source_revision.failed"
    case SourceRevisionRetryRequested => "source_revision.retry_requested"
    case SuggestionCreated => "suggestion.created"
    case SuggestionAccepted => "suggestion.accepted"
    case SuggestionRejected => "suggestion.rejected"
    case CommentCreated => "comment.created"
    case CommentUpdated => "comment.updated"
    case CommentDeleted => "comment.deleted"
    case MergedDocumentSaved => "merged_document.saved"
    case MergedDocumentVersionCreated => "merged_document.version_created"
  }

  datatype Field = UserId | ProfileVersion | PreferencesVersion | FriendshipId | AudienceUserId | RoomId | SessionId
                 | GenerationEpoch | RetryOrdinal | StateVersion | SubmissionId | RevisionNo | RevisionId | RetryNonce
                 | JobId | JobAttemptId | SuggestionId | Version | SnapshotId | VersionId | CommentId

  // The keyword arguments: identities as they print, and the reconciled flag.
  datatype Identity = Identity(values: map<Field, string>, reconciled: bool)

  datatype KeyError = UnsupportedEventType | MissingIdentity(field: Field)

  // The fixed words of the keys, and the texts put before some identities.
  datatype Word =
    | WAccount | WRegistered | WProfile | WPreferences | WFriendship | WRequested | WAccepted | WRejected
    | WAud | WRoom | WCreated | WMember | WAdded | WLeft | WSession | WArchived
    | WEpoch | WRetry | WClosed | WProcessing | WReady | WNeedsAttention | WReopened | WSubmission
    | WDeleted | WRevision | WRevised | WReconcile | WAttempt | WFailed | WSuggestion | WMergedDocument
    | WSnapshot | WSaved | WMergedDocumentVersion | WComment | WUpdated

  function Spell(word: Word): string {
    match word
    case WAccount => "account"
    case WRegistered => "registered"
    case WProfile => "profile"
    case WPreferences => "preferences"
    case WFriendship => "friendship"
    case WRequested => "requested"
    case WAccepted => "accepted"
    case WRejected => "rejected"
    case WAud => "aud"
    case WRoom => "room"
    case WCreated => "created"
    case WMember => "member"
    case WAdded => "added"
    case WLeft => "left"
    case WSession => "session"
    case WArchived => "archived"
    case WEpoch => "epoch"
    case WRetry => "retry"
    case WClosed => "closed"
    case WProcessing => "processing"
    case WReady => "ready"
    case WNeedsAttention => "needs_attention"
    case WReopened => "reopened"
    case WSubmission => "submission"
    case WDeleted => "deleted"
    case WRevision => "revision"
    case WRevised => "revised"
    case WReconcile => "reconcile"
    case WAttempt => "attempt"
    case WFailed => "failed"
    case WSuggestion => "suggestion"
    case WMergedDocument => "merged_document"
    case WSnapshot => "snapshot"
    case WSaved => "saved"
    case WMergedDocumentVersion => "merged_document_version"
    case WComment => "comment"
    case WUpdated => "updated"
  }

  datatype Prefix = Bare | V | StateV

  function PrefixText(prefix: Prefix): string {
    match prefix
    case Bare => ""
    case V => "v"
    case StateV => "state-v"
  }

  // One colon-separated part of a key: a fixed word, or a prefix and an identity.
  datatype Part = Fixed(word: Word) | Value(prefix: Prefix, field: Field)

  function Parts(t: EventType, reconciled: bool): seq<Part> {
    match t
    case AccountRegistered => [Fixed(WAccount), Value(Bare, UserId), Fixed(WRegistered)]
    case ProfileUpdated => [Fixed(WProfile), Value(Bare, UserId), Value(V, ProfileVersion)]
    case PreferencesUpdated => [Fixed(WPreferences), Value(Bare, UserId), Value(V, PreferencesVersion)]
    case FriendshipRequested => FriendshipParts(WRequested)
    case FriendshipAccepted => FriendshipParts(WAccepted)
    case FriendshipRejected => FriendshipParts(WRejected)
    case RoomCreated => [Fixed(WRoom), Value(Bare, RoomId), Fixed(WCreated)]
    case RoomMemberAdded => [Fixed(WRoom), Value(Bare, RoomId), Fixed(WMember), Value(Bare, UserId), Fixed(WAdded)]
    case RoomMemberLeft => [Fixed(WRoom), Value(Bare, RoomId), Fixed(WMember), Value(Bare, UserId), Fixed(WLeft)]
    case SessionCreated => [Fixed(WSession), Value(Bare, SessionId), Fixed(WCreated)]
    case SessionArchived => [Fixed(WSession), Value(Bare, SessionId), Fixed(WArchived)]
    case SessionRetryRequested => RetryParts()
    case SessionClosed => SessionStateParts(WClosed)
    case SessionProcessing => SessionStateParts(WProcessing)
    case SessionReady => SessionStateParts(WReady)
    case SessionNeedsAttention => SessionStateParts(WNeedsAttention)
    case SessionReopened => SessionStateParts(WReopened)
    case SubmissionDeleted => [Fixed(WSubmission), Value(Bare, SubmissionId), Fixed(WDeleted)]
    case SubmissionCreated => SubmissionParts(WCreated)
    case SubmissionRevised => SubmissionParts(WRevised)
    case SourceRevisionRetryRequested => [Fixed(WRevision), Value(Bare, RevisionId), Fixed(WRetry),
                                          Value(Bare, RetryNonce), Fixed(WRequested)]
    case SourceRevisionReady => RevisionParts(WReady, reconciled)
    case SourceRevisionFailed => RevisionParts(WFailed, reconciled)
    case SuggestionCreated => [Fixed(WSuggestion), Value(Bare, SuggestionId), Fixed(WCreated)]
    case SuggestionAccepted => [Fixed(WSuggestion), Value(Bare, SuggestionId), Value(V, Version), Fixed(WAccepted)]
    case SuggestionRejected => [Fixed(WSuggestion), Value(Bare, SuggestionId), Value(V, Version), Fixed(WRejected)]
    case MergedDocumentSaved => [Fixed(WMergedDocument), Value(Bare, SessionId), Fixed(WSnapshot),
                                 Value(Bare, SnapshotId), Value(V, Version), Fixed(WSaved)]
    case MergedDocumentVersionCreated => [Fixed(WMergedDocumentVersion), Value(Bare, VersionId), Fixed(WCreated)]
    case CommentCreated => [Fixed(WComment), Value(Bare, CommentId), Value(V, Version), Fixed(WCreated)]
    case CommentUpdated => [Fixed(WComment), Value(Bare, CommentId), Value(V, Version), Fixed(WUpdated)]
    case CommentDeleted => [Fixed(WComment), Value(Bare, CommentId), Value(V, Version), Fixed(WDeleted)]
  }

  function FriendshipParts(state: Word): seq<Part> {
    [Fixed(WFriendship), Value(Bare, FriendshipId), Fixed(state), Fixed(WAud), Value(Bare, AudienceUserId)]
  }

  function RetryParts(): seq<Part> {
    [Fixed(WSession), Value(Bare, SessionId), Fixed(WEpoch), Value(Bare, GenerationEpoch),
     Fixed(WRetry), Value(Bare, RetryOrdinal)]
  }

  function SessionStateParts(state: Word): seq<Part> {
    [Fixed(WSession), Value(Bare, SessionId), Value(StateV, StateVersion), Fixed(state)]
  }

  function SubmissionParts(state: Word): seq<Part> {
    [Fixed(WSubmission), Value(Bare, SubmissionId), Fixed(WRevision), Value(Bare, RevisionNo), Fixed(state)]
  }

  function RevisionParts(state: Word, reconciled: bool): seq<Part> {
    if reconciled then [Fixed(WRevision), Value(Bare, RevisionId), Fixed(WReconcile), Value(Bare, JobId), Fixed(state)]
    else [Fixed(WRevision), Value(Bare, RevisionId), Fixed(WAttempt), Value(Bare, JobAttemptId), Fixed(state)]
  }

  // The parts with their identities filled in, left to right.
  function Fill(parts: seq<Part>, identity: Identity): Result<seq<string>, KeyError> {
    if parts == [] then Ok([])
    else
      match Fill(parts[..|parts| - 1], identity)
      case Err(e) => Err(e)
      case Ok(texts) =>
        match parts[|parts| - 1]
        case Fixed(word) => Ok(texts + [Spell(word)])
        case Value(prefix, field) =>
          if field in identity.values then Ok(texts + [PrefixText(prefix) + identity.values[field]])
          else Err(MissingIdentity(field))
  }

  function Lookup(name: string, types: seq<EventType>): (r: Option<EventType>)
    ensures r.Some? ==> TypeName(r.value) == name
  {
    if types == [] then None
    else if TypeName(types[0]) == name then Some(types[0])
    else Lookup(name, types[1..])
  }

  function KeyFor(t: EventType, identity: Identity): Result<string, KeyError> {
    match Fill(Parts(t, identity.reconciled), identity)
    case Err(e) => Err(e)
    case Ok(texts) => Ok(Join(texts, ':'))
  }

  function BuildEventKey(eventType: string, identity: Identity): Result<string, KeyError> {
    match Lookup(eventType, ALL_TYPES)
    case None => Err(UnsupportedEventType)
    case Some(t) => KeyFor(t, identity)
  }

  // ---------- Injectivity

  ghost predicate NoColons(identity: Identity) {
    forall f :: f in identity.values ==> ':' !in identity.values[f]
  }

  lemma {:induction false} FillExact(parts: seq<Part>, identity: Identity)
    requires Fill(parts, identity).Ok?
    ensures var texts := Fill(parts, identity).value;
            && |texts| == |parts|
            && forall k :: 0 <= k < |parts| ==>
                 match parts[k]
                 case Fixed(word) => texts[k] == Spell(word)
                 case Value(prefix, field) =>
                   field in identity.values && texts[k] == PrefixText(prefix) + identity.values[field]
  {
    if parts != [] {
      FillExact(parts[..|parts| - 1], identity);
    }
  }

  // The words are compared with all others a third at a time.
  function Third(word: Word): nat {
    match word
    case WAccount | WRegistered | WProfile | WPreferences | WFriendship | WRequested | WAccepted | WRejected | WAud
       | WRoom | WCreated | WMember => 0
    case WAdded | WLeft | WSession | WArchived | WEpoch | WRetry | WClosed | WProcessing | WReady | WNeedsAttention
       | WReopened | WSubmission => 1
    case _ => 2
  }

  lemma FirstWords(v: Word, w: Word)
    requires Spell(v) == Spell(w) && Third(v) == 0
    ensures v == w
  {
  }

  lemma MiddleWords(v: Word, w: Word)
    requires Spell(v) == Spell(w) && Third(v) == 1
    ensures v == w
  {
  }

  lemma LastWords(v: Word, w: Word)
    requires Spell(v) == Spell(w) && Third(v) == 2
    ensures v == w
  {
  }

  lemma SpellInjective(v: Word, w: Word)
    requires Spell(v) == Spell(w)
    ensures v == w
  {
    match Third(v)
    case 0 => FirstWords(v, w);
    case 1 => MiddleWords(v, w);
    case _ => LastWords(v, w);
  }

  lemma WordsPlain(word: Word, prefix: Prefix)
    ensures ':' !in Spell(word) && ':' !in PrefixText(prefix)
  {
    if Third(word) == 0 {
      FirstWordsPlain(word);
    } else {
      OtherWordsPlain(word);
    }
  }

  lemma FirstWordsPlain(word: Word)
    requires Third(word) == 0
    ensures ':' !in Spell(word)
  {
  }

  lemma OtherWordsPlain(word: Word)
    requires Third(word) != 0
    ensures ':' !in Spell(word)
  {
  }

  // Where both shapes have a fixed word, it is the same word.
  ghost predicate SameWords(p: seq<Part>, q: seq<Part>) {
    |p| == |q| && forall k :: 0 <= k < |p| && p[k].Fixed? && q[k].Fixed? ==> p[k] == q[k]
  }

  predicate AboutPeople(t: EventType) {
    match t
    case AccountRegistered | ProfileUpdated | PreferencesUpdated | FriendshipRequested | FriendshipAccepted
       | FriendshipRejected | RoomCreated | RoomMemberAdded | RoomMemberLeft | SessionCreated | SessionClosed
       | SessionRetryRequested | SessionProcessing | SessionReady | SessionNeedsAttention | SessionReopened
       | SessionArchived => true
    case _ => false
  }

  ghost predicate SameShape(t: EventType, first: bool, u: EventType, second: bool) {
    SameWords(Parts(t, first), Parts(u, second))
  }

  lemma EndsAgree(t: EventType, first: bool, u: EventType, second: bool)
    requires SameShape(t, first, u, second)
    ensures var p, q := Parts(t, first), Parts(u, second);
            && |p| == |q| >= 3 && p[0] == q[0]
            && (p[2].Fixed? && q[2].Fixed? ==> p[2] == q[2])
            && (p[|p| - 1].Fixed? && q[|p| - 1].Fixed? ==> p[|p| - 1] == q[|p| - 1])
  {
  }

  lemma PeopleShapes(t: EventType, first: bool, u: EventType, second: bool)
    requires SameShape(t, first, u, second) && AboutPeople(t)
    ensures t == u && Parts(t, first) == Parts(u, second)
  {
    EndsAgree(t, first, u, second);
  }

  lemma ContentShapes(t: EventType, first: bool, u: EventType, second: bool)
    requires SameShape(t, first, u, second) && !AboutPeople(t)
    ensures t == u && Parts(t, first) == Parts(u, second)
  {
    EndsAgree(t, first, u, second);
  }

  // Shapes with the same words belong to one type: the first, third and last
  // places tell them apart.
  lemma ShapesTellTypes(t: EventType, first: bool, u: EventType, second: bool)
    requires SameShape(t, first, u, second)
    ensures t == u && Parts(t, first) == Parts(u, second)
  {
    if AboutPeople(t) {
      PeopleShapes(t, first, u, second);
    } else {
      ContentShapes(t, first, u, second);
    }
  }

  lemma FilledPartsFree(parts: seq<Part>, identity: Identity)
    requires NoColons(identity) && Fill(parts, identity).Ok?
    ensures Free(Fill(parts, identity).value, ':')
  {
    FillExact(parts, identity);
    forall k | 0 <= k < |parts|
      ensures ':' !in Fill(parts, identity).value[k]
    {
      WordsPlain(if parts[k].Fixed? then parts[k].word else WAccount,
                 if parts[k].Fixed? then Bare else parts[k].prefix);
    }
  }

  lemma SameTextsSameWords(p: seq<Part>, first: Identity, q: seq<Part>, second: Identity)
    requires Fill(p, first).Ok? && Fill(p, first) == Fill(q, second)
    ensures SameWords(p, q)
  {
    FillExact(p, first);
    FillExact(q, second);
    forall k | 0 <= k < |p| && p[k].Fixed? && q[k].Fixed?
      ensures p[k] == q[k]
    {
      SpellInjective(p[k].word, q[k].word);
    }
  }

  lemma SameKeySameTexts(p: seq<Part>, first: Identity, q: seq<Part>, second: Identity)
    requires p != [] && q != [] && NoColons(first) && NoColons(second)
    requires Fill(p, first).Ok? && Fill(q, second).Ok?
    requires Join(Fill(p, first).value, ':') == Join(Fill(q, second).value, ':')
    ensures Fill(p, first) == Fill(q, second)
  {
    FilledPartsFree(p, first);
    FilledPartsFree(q, second);
    FillExact(p, first);
    FillExact(q, second);
    JoinInjective(Fill(p, first).value, Fill(q, second).value, ':');
  }

  // The identities that the parts use are the same in both.
  ghost predicate SameIdentities(parts: seq<Part>, first: Identity, second: Identity) {
    forall k :: 0 <= k < |parts| && parts[k].Value? ==>
      && parts[k].field in first.values && parts[k].field in second.values
      && first.values[parts[k].field] == second.values[parts[k].field]
  }

  lemma FilledAgree(parts: seq<Part>, first: Identity, second: Identity)
    requires Fill(parts, first).Ok? && Fill(parts, first) == Fill(parts, second)
    ensures SameIdentities(parts, first, second)
  {
    FillExact(parts, first);
    FillExact(parts, second);
    var texts := Fill(parts, first).value;
    forall k | 0 <= k < |parts| && parts[k].Value?
      ensures first.values[parts[k].field] == second.values[parts[k].field]
    {
      var prefix := PrefixText(parts[k].prefix);
      assert texts[k][|prefix|..] == first.values[parts[k].field];
      assert texts[k][|prefix|..] == second.values[parts[k].field];
    }
  }

  lemma SameKeySameParts(p: seq<Part>, first: Identity, q: seq<Part>, second: Identity)
    requires p != [] && q != [] && NoColons(first) && NoColons(second)
    requires Fill(p, first).Ok? && Fill(q, second).Ok?
    requires Join(Fill(p, first).value, ':') == Join(Fill(q, second).value, ':')
    ensures SameWords(p, q)
    ensures p == q ==> SameIdentities(p, first, second)
  {
    SameKeySameTexts(p, first, q, second);
    SameTextsSameWords(p, first, q, second);
    if p == q {
      FilledAgree(p, first, second);
    }
  }

  lemma SameKeyShows(t: EventType, first: Identity, u: EventType, second: Identity)
    requires NoColons(first) && NoColons(second)
    requires KeyFor(t, first).Ok? && KeyFor(t, first) == KeyFor(u, second)
    ensures var p, q := Parts(t, first.reconciled), Parts(u, second.reconciled);
            SameWords(p, q) && (p == q ==> SameIdentities(p, first, second))
  {
    SameKeySameParts(Parts(t, first.reconciled), first, Parts(u, second.reconciled), second);
  }

  // Two events with one key have the same type and the same identities.
  lemma EventKeyInjective(t: EventType, first: Identity, u: EventType, second: Identity)
    requires NoColons(first) && NoColons(second)
    requires KeyFor(t, first).Ok? && KeyFor(t, first) == KeyFor(u, second)
    ensures t == u && Parts(t, first.reconciled) == Parts(u, second.reconciled)
    ensures SameIdentities(Parts(t, first.reconciled), first, second)
  {
    SameKeyShows(t, first, u, second);
    ShapesTellTypes(t, first.reconciled, u, second.reconciled);
  }

  // The keys of two named events are equal only for the same name and identities.
  lemma NamedKeyInjective(firstType: string, first: Identity, secondType: string, second: Identity)
    requires NoColons(first) && NoColons(second)
    requires BuildEventKey(firstType, first).Ok? && BuildEventKey(firstType, first) == BuildEventKey(secondType, second)
    ensures firstType == secondType
    ensures exists t :: && TypeName(t) == firstType && Parts(t, first.reconciled) == Parts(t, second.reconciled)
                        && SameIdentities(Parts(t, first.reconciled), first, second)
  {
    EventKeyInjective(Lookup(firstType, ALL_TYPES).value, first, Lookup(secondType, ALL_TYPES).value, second);
  }

  // ---------- The keys of a close or a retry

  datatype Operation = Close | Retry

  // The two keys written out for a compound session operation.
  function CompoundSessionEventKeys(operation: Operation, sessionId: string, generationEpoch: int, stateVersion: int,
                                    retryOrdinal: int): (string, string) {
    match operation
    case Close =>
      (Join(["session", sessionId, "state-v" + IntText(stateVersion + 1), "closed"], ':'),
       Join(["session", sessionId, "state-v" + IntText(stateVersion + 2), "processing"], ':'))
    case Retry =>
      (Join(["session", sessionId, "epoch", IntText(generationEpoch), "retry", IntText(retryOrdinal + 1)], ':'),
       Join(["session", sessionId, "state-v" + IntText(stateVersion + 1), "processing"], ':'))
  }

  function SessionState(sessionId: string, stateVersion: int): Identity {
    Identity(map[SessionId := sessionId, StateVersion := IntText(stateVersion)], false)
  }

  function SessionRetry(sessionId: string, generationEpoch: int, retryOrdinal: int): Identity {
    Identity(map[SessionId := sessionId, GenerationEpoch := IntText(generationEpoch),
                 RetryOrdinal := IntText(retryOrdinal)], false)
  }

  lemma {:induction false} FillSucceeds(parts: seq<Part>, identity: Identity)
    requires forall k :: 0 <= k < |parts| && parts[k].Value? ==> parts[k].field in identity.values
    ensures Fill(parts, identity).Ok?
  {
    if parts != [] {
      FillSucceeds(parts[..|parts| - 1], identity);
    }
  }

  predicate Fills(part: Part, identity: Identity, text: string) {
    match part
    case Fixed(word) => text == Spell(word)
    case Value(prefix, field) => field in identity.values && text == PrefixText(prefix) + identity.values[field]
  }

  lemma {:induction false} FilledWith(parts: seq<Part>, identity: Identity, texts: seq<string>)
    requires |texts| == |parts| && forall k :: 0 <= k < |parts| ==> Fills(parts[k], identity, texts[k])
    ensures Fill(parts, identity) == Ok(texts)
  {
    if parts != [] {
      FilledWith(parts[..|parts| - 1], identity, texts[..|texts| - 1]);
      assert Fills(parts[|parts| - 1], identity, texts[|parts| - 1]);
      assert texts == texts[..|texts| - 1] + [texts[|texts| - 1]];
    }
  }

  // The names are compared with all others a few at a time.
  predicate AboutAccounts(t: EventType) {
    match t
    case AccountRegistered | ProfileUpdated | PreferencesUpdated | FriendshipRequested | FriendshipAccepted
       | FriendshipRejected | RoomCreated | RoomMemberAdded | RoomMemberLeft => true
    case _ => false
  }

  predicate AboutSources(t: EventType) {
    match t
    case SubmissionCreated | SubmissionRevised | SubmissionDeleted | SourceRevisionReady | SourceRevisionFailed
       | SourceRevisionRetryRequested => true
    case _ => false
  }

  lemma AccountNames(t: EventType, u: EventType)
    requires TypeName(t) == TypeName(u) && AboutAccounts(t)
    ensures t == u
  {
  }

  lemma SessionNames(t: EventType, u: EventType)
    requires TypeName(t) == TypeName(u) && AboutPeople(t) && !AboutAccounts(t)
    ensures t == u
  {
  }

  lemma SourceNames(t: EventType, u: EventType)
    requires TypeName(t) == TypeName(u) && AboutSources(t)
    ensures t == u
  {
  }

  lemma SuggestionNames(t: EventType, u: EventType)
    requires TypeName(t) == TypeName(u)
    requires t == SuggestionCreated || t == SuggestionAccepted || t == SuggestionRejected
    ensures t == u
  {
  }

  lemma CommentNames(t: EventType, u: EventType)
    requires TypeName(t) == TypeName(u)
    requires t == CommentCreated || t == CommentUpdated || t == CommentDeleted
    ensures t == u
  {
  }

  lemma MergedDocumentNames(t: EventType, u: EventType)
    requires TypeName(t) == TypeName(u)
    requires t == MergedDocumentSaved || t == MergedDocumentVersionCreated
    ensures t == u
  {
  }

  lemma NamesInjective(t: EventType, u: EventType)
    requires TypeName(t) == TypeName(u)
    ensures t == u
  {
    if AboutAccounts(t) {
      AccountNames(t, u);
    } else if AboutPeople(t) {
      SessionNames(t, u);
    } else if AboutSources(t) {
      SourceNames(t, u);
    } else {
      match t
      case SuggestionCreated | SuggestionAccepted | SuggestionRejected => SuggestionNames(t, u);
      case CommentCreated | CommentUpdated | CommentDeleted => CommentNames(t, u);
      case _ => MergedDocumentNames(t, u);
    }
  }

  lemma {:induction false} LookupFinds(t: EventType, types: seq<EventType>)
    requires t in types
    ensures Lookup(TypeName(t), types) == Some(t)
  {
    if TypeName(types[0]) == TypeName(t) {
      NamesInjective(t, types[0]);
    } else {
      LookupFinds(t, types[1..]);
    }
  }

  lemma AllTypesListed(t: EventType)
    ensures t in ALL_TYPES
  {
    var i := match t
      case AccountRegistered => 0 case ProfileUpdated => 1 case PreferencesUpdated => 2
      case FriendshipRequested => 3 case FriendshipAccepted => 4 case FriendshipRejected => 5
      case RoomCreated => 6 case RoomMemberAdded => 7 case RoomMemberLeft => 8
      case SessionCreated => 9 case SessionClosed => 10 case SessionRetryRequested => 11 case SessionProcessing => 12
      case SessionReady => 13 case SessionNeedsAttention => 14 case SessionReopened => 15 case SessionArchived => 16
      case SubmissionCreated => 17 case SubmissionRevised => 18 case SubmissionDeleted => 19
      case SourceRevisionReady => 20 case SourceRevisionFailed => 21 case SourceRevisionRetryRequested => 22
      case SuggestionCreated => 23 case SuggestionAccepted => 24 case SuggestionRejected => 25
      case CommentCreated => 26 case CommentUpdated => 27 case CommentDeleted => 28
      case MergedDocumentSaved => 29 case MergedDocumentVersionCreated => 30;
    assert ALL_TYPES[i] == t;
  }

  // Every event type is built under its own name.
  lemma KeyOfName(t: EventType, identity: Identity)
    ensures BuildEventKey(TypeName(t), identity) == KeyFor(t, identity)
  {
    AllTypesListed(t);
    LookupFinds(t, ALL_TYPES);
  }

  lemma StateKey(t: EventType, state: Word, sessionId: string, stateVersion: int)
    requires Parts(t, false) == SessionStateParts(state)
    ensures KeyFor(t, SessionState(sessionId, stateVersion))
         == Ok(Join(["session", sessionId, "state-v" + IntText(stateVersion), Spell(state)], ':'))
  {
    assert PrefixText(Bare) + sessionId == sessionId;
    FilledWith(SessionStateParts(state), SessionState(sessionId, stateVersion),
               ["session", sessionId, "state-v" + IntText(stateVersion), Spell(state)]);
  }

  lemma RetryKey(sessionId: string, generationEpoch: int, retryOrdinal: int)
    ensures KeyFor(SessionRetryRequested, SessionRetry(sessionId, generationEpoch, retryOrdinal))
         == Ok(Join(["session", sessionId, "epoch", IntText(generationEpoch), "retry", IntText(retryOrdinal)], ':'))
  {
    var epoch, ordinal := IntText(generationEpoch), IntText(retryOrdinal);
    assert PrefixText(Bare) + sessionId == sessionId;
    assert PrefixText(Bare) + epoch == epoch && PrefixText(Bare) + ordinal == ordinal;
    FilledWith(RetryParts(), SessionRetry(sessionId, generationEpoch, retryOrdinal),
               ["session", sessionId, "epoch", epoch, "retry", ordinal]);
  }

  lemma ClosedKey(sessionId: string, generationEpoch: int, stateVersion: int, retryOrdinal: int)
    ensures Ok(CompoundSessionEventKeys(Close, sessionId, generationEpoch, stateVersion, retryOrdinal).0)
         == KeyFor(SessionClosed, SessionState(sessionId, stateVersion + 1))
  {
    StateKey(SessionClosed, WClosed, sessionId, stateVersion + 1);
  }

  lemma ProcessingKey(sessionId: string, generationEpoch: int, stateVersion: int, retryOrdinal: int)
    ensures Ok(CompoundSessionEventKeys(Close, sessionId, generationEpoch, stateVersion, retryOrdinal).1)
         == KeyFor(SessionProcessing, SessionState(sessionId, stateVersion + 2))
  {
    StateKey(SessionProcessing, WProcessing, sessionId, stateVersion + 2);
  }

  // The keys are those of the two successive events.
  lemma CloseKeysAreEventKeys(sessionId: string, generationEpoch: int, stateVersion: int, retryOrdinal: int)
    ensures var keys := CompoundSessionEventKeys(Close, sessionId, generationEpoch, stateVersion, retryOrdinal);
            && Ok(keys.0) == KeyFor(SessionClosed, SessionState(sessionId, stateVersion + 1))
            && Ok(keys.1) == KeyFor(SessionProcessing, SessionState(sessionId, stateVersion + 2))
  {
    ClosedKey(sessionId, generationEpoch, stateVersion, retryOrdinal);
    ProcessingKey(sessionId, generationEpoch, stateVersion, retryOrdinal);
  }

  lemma RetryKeysAreEventKeys(sessionId: string, generationEpoch: int, stateVersion: int, retryOrdinal: int)
    ensures var keys := CompoundSessionEventKeys(Retry, sessionId, generationEpoch, stateVersion, retryOrdinal);
            && Ok(keys.0) == KeyFor(SessionRetryRequested, SessionRetry(sessionId, generationEpoch, retryOrdinal + 1))
            && Ok(keys.1) == KeyFor(SessionProcessing, SessionState(sessionId, stateVersion + 1))
  {
    RetryKey(sessionId, generationEpoch, retryOrdinal + 1);
    StateKey(SessionProcessing, WProcessing, sessionId, stateVersion + 1);
  }

  // The two keys of one operation differ.
  lemma CompoundKeysDiffer(operation: Operation, sessionId: string, generationEpoch: int, stateVersion: int,
                           retryOrdinal: int)
    requires ':' !in sessionId
    ensures var keys := CompoundSessionEventKeys(operation, sessionId, generationEpoch, stateVersion, retryOrdinal);
            keys.0 != keys.1
  {
    var keys := CompoundSessionEventKeys(operation, sessionId, generationEpoch, stateVersion, retryOrdinal);
    CloseKeysAreEventKeys(sessionId, generationEpoch, stateVersion, retryOrdinal);
    RetryKeysAreEventKeys(sessionId, generationEpoch, stateVersion, retryOrdinal);
    IntTextAvoids(stateVersion + 1, ':');
    IntTextAvoids(stateVersion + 2, ':');
    IntTextAvoids(generationEpoch, ':');
    IntTextAvoids(retryOrdinal + 1, ':');
    if keys.0 == keys.1 {
      match operation
      case Close =>
        EventKeyInjective(SessionClosed, SessionState(sessionId, stateVersion + 1),
                          SessionProcessing, SessionState(sessionId, stateVersion + 2));
      case Retry =>
        EventKeyInjective(SessionRetryRequested, SessionRetry(sessionId, generationEpoch, retryOrdinal + 1),
                          SessionProcessing, SessionState(sessionId, stateVersion + 1));
    }
  }
}
