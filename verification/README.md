# Verified model of the document-integration service

A Dafny model of the parts of the service where the logic, not the plumbing, decides whether it is right. One module per
component; `dafny verify dfyconfig.toml` checks them all.

- **Scoring.** `EditDistance` proves the two-row Levenshtein loop against edit scripts; `OcrQuality` the rounded accuracy
  that the OCR gate compares with exactly 1.0.
- **Matching, planning, packing.** `Matching` and `DocumentComparison` cover the bucket index, the greedy matching and what
  the matching is worth, `ComparisonAnswers` every answer of a comparison; `AutomaticProposals` the proposals over all pairs
  of documents and `ProposalPlaces` which ones in which order; `SourceCoverage` the lossless packing of anchors into blocks;
  `ReportAnchors` the round-robin selection; `GenerationContext` the plan under its budgets.
- **Ledger, keys, pages.** `ActivityPolicy` has the event keys and `ActivityKeys` their texts, `ActivityPagination` the cursor
  codec, `HistoryPages` the keyset pages of the server together with the client loop that follows their cursors.
- **State machines over the ledger.** `CollaborationModel` and `CommentsModel` state each transaction as a function on
  tables; `CollaborationService` and `CommentsService` are the classes whose methods update the tables step by step and are
  proved to be those functions; `CollaborationInvariants`, `CommentsInvariants` and `CommentsNotices` prove what holds after
  every run, `CollaborationRights` and `CommentsContents` who may do what in every run and what every request is answered.
- **Concurrent and crash-prone protocols.** `BoundedCapture` interleaves two readers and a poller; `SuggestionWorker`
  interleaves workers, lease takeovers, crashes and edits; over its runs `SuggestionOutcomes` says what each step of a worker
  leaves, `StrandedJobs` follows the jobs that wait for a requeue and `LeaseDeadlines` says what the deadline of a lease is
  worth. `LifecycleLog` says when each action of the
  Compose lifecycle is allowed and what follows for every such log, `LifecycleCalls` what one call makes of the answers it
  gets, and `LifecycleScripts` which actions it takes for them, in order. `ComposeLifecycle` is the class whose `Start` and
  `Stop` take only allowed actions and exactly those of the script, up to where a call dies. `LifecycleStarts`,
  `LifecycleStartOutcomes` and `LifecycleStopOutcomes` say the same in terms of the raw answers: when a call succeeds, which
  commands it issues, what it leaves and why. `LifecycleRecovery` proves which manifests a later stop can still finish, and
  `LifecycleStuckRuns` makes the calls that lead to each way of getting stuck.

`Wrappers`, `Sorting` and `TextKeys` hold shared definitions: results, a stable insertion sort standing for the built-in
sort, decimal texts and separator-joined keys.

## How to read the models

- A database transaction is one atomic step over maps; unique indexes are maps keyed by the indexed columns. Identifiers
  print without a colon, as UUIDs do. The fresh identifier of an insert is a parameter, and one already in use is an error.
  Accounts are created elsewhere; `Register` stands for that.
- A run of a state machine is a sequence of steps; "every run" quantifies over all of them. `BoundedCapture.Run`,
  `SuggestionWorker.Run`, `CollaborationModel.Run` and `CommentsModel.Run` are these runs. A run of the lifecycle is a
  sequence of `Start` and `Stop` calls on one object: every answer from outside is an arbitrary argument, and so is the number
  of actions after which a call dies, if it does. The object's validity says that its whole log is safe, and what is on disk
  is always what the log's last write left. One call at a time works on a manifest.
- Similarity, embedding, text normalization and the duplicate test are parameters that may be any function.
- Scores are exact rationals. `OcrQuality` counts in millionths and rounds half to even, as Python's `round` does.

## Findings

- A bounded capture can return without an error code although a stream was cut: both readers can finish, one of them on an
  overflow, between the poller's overflow test and its completion test (`BoundedCapture.CompletionCanHideOverflow`). What
  does hold is that each returned stream is its first limit bytes, so a stream shorter than its limit is whole
  (`BoundedCapture.CapturedIsWholeOrFull`).
- The rounded accuracy is 1.0 exactly when two million times the distance is at most the length of the text
  (`OcrQuality.PerfectScoreCondition`). The 20,000-code-point bound is therefore what makes the gate's test exact.
- A suggestion job whose identity is invalid can never be completed, because recording its failure parses the identity
  again; each expired lease is taken over once more, without limit (`SuggestionWorker.FailureIsRecordedIff`,
  `SuggestionWorker.InvalidJobNeverFinishes`, `SuggestionWorker.InvalidJobIsClaimedForEver`).
- A suggestion job that failed retryably waits for the worker that recorded this to requeue it. The worker either gets there,
  and the job is pending again, or crashes first, and the job is stranded (`StrandedJobs.RequeueOrStrand`). A stranded job is
  never changed again (`StrandedJobs.StrandedForEver`), and a job is stranded exactly when such a crash happened at its
  present generation (`StrandedJobs.StrandedIff`); `StrandedJobs.StrandingRun` is a run of five steps that does it. The repair
  at `apps/api/app/file_extraction_worker.py:341` is for extractions only.
- The branch of the context plan that would split a revision, and the branch of an invitation that would restore a departed
  member, are never taken (`GenerationContext.PlanGroup`, `CollaborationInvariants.InvitedSeat`), although the docstring at
  `apps/api/app/collaboration_service.py:441` speaks of restoring a membership.
- Some manifests that are not stopped no stop can finish, whatever Docker and `subst` answer. On every safe log these are
  exactly those whose drive was released while the paths still point at it, those whose drive mapping was only intended, and
  those, not yet torn down or waiting for adoption, that recorded a resource whose labels are not all the project's own
  (`LifecycleRecovery.FinishableIff`); stops keep them so (`LifecycleRecovery.UnfinishableForEver`). Listings are filtered by
  the project's label, so the third kind means in practice a resource whose service label is missing or not an expected one.
  - Stops create only the first kind: without a death exactly when the stop releases the drive and then finds the protected
    project changed (`LifecycleRecovery.StopLosesDriveIff`, `LifecycleStuckRuns.DeadEnd`), with a death only once the release
    is recorded, and then always (`ComposeLifecycle.Lifecycle.Stop`, `LifecycleStuckRuns.DieAfterRelease`).
  - A start that dies after it asked for a drive leaves the second (`LifecycleStuckRuns.DieWhileMapping`), and one that finds
    a container of an unexpected service records it, fails, and leaves the third (`LifecycleStuckRuns.ForeignService`).
  - A manifest that was stopped from a drive refuses every further stop for the same reason as the first kind, but nothing is
    left to finish there (`LifecycleRecovery.StoppedFromDrive`).
- Before the teardown is recorded, and unless it may adopt, a stop is refused as long as the project is not listed with
  exactly the recorded ids (`LifecycleRecovery.RefusedWhileMismatched`). So a recorded resource that is gone blocks every stop:
  after a death between `down` and the record of it (`LifecycleStuckRuns.DieAfterDown`), and with no death at all after a
  `down` that failed or left something (`LifecycleStuckRuns.PartialDown`). A resource that was never recorded blocks it too:
  after a death between `up` and the record of the listing (`LifecycleStuckRuns.DieAfterUp`).
- A start that could not list its resources lets a stop adopt them, but any stop that lists them or sees another root and does
  not adopt takes the offer back (`LifecycleRecovery.RecoveryIsOfferedOnce`, `LifecycleStuckRuns.LostRecovery`).

## Model

| member | source | states |
|---|---|---|
| EditDistance.NoScriptIsCheaper | spikes/document-ingestion/quality.py:28-37 | no script of insertions, deletions and replacements that turns the left text into the right one costs less than the distance |
| EditDistance.SomeScriptAttains | spikes/document-ingestion/quality.py:28-37 | some script that turns the left text into the right one costs exactly the distance |
| EditDistance.DistanceBounds | spikes/document-ingestion/quality.py:18-38 | the distance lies between the difference of the lengths and the longer length |
| EditDistance.DistanceSymmetric | spikes/document-ingestion/quality.py:25-27 | swapping the arguments changes nothing, which is why the loop may keep the shorter row |
| EditDistance.DistanceZeroIffEqual | spikes/document-ingestion/quality.py:18-38 | the distance is zero exactly for equal texts |
| EditDistance.TriangleInequality | spikes/document-ingestion/quality.py:18-38 | the distance satisfies the triangle inequality |
| EditDistance.LevenshteinDistance | spikes/document-ingestion/quality.py:18-38 | the swapped two-row loop returns the distance, or an error exactly when an input exceeds 20,000 code points |
| OcrQuality.RoundHalfEvenIsNearest | spikes/document-ingestion/quality.py:46 | rounding gives a nearest integer, and the even one on a tie |
| OcrQuality.ScoreIsNearest | spikes/document-ingestion/quality.py:41-46 | the score in millionths is nearest to one minus the distance over the denominator, and zero when the distance is not less |
| OcrQuality.AccuracyFallsWithDistance | spikes/document-ingestion/quality.py:41-46 | a larger distance never scores better |
| OcrQuality.PerfectScoreCondition | spikes/document-ingestion/gate.py:1244-1255 | the rounded accuracy is 1.0 exactly when two million times the distance is at most the denominator |
| OcrQuality.OcrCharacterAccuracy | spikes/document-ingestion/quality.py:41-46 | the score lies in [0,1], fails exactly beyond the bound, and is 1.0 exactly for equal normalized texts |
| Matching.GreedyIsStable | apps/api/app/document_comparison.py:89-103 | the accepted candidates are one-to-one, and every rejected one shares an end with an accepted one that precedes it |
| Matching.StableMatchingIsUnique | apps/api/app/document_comparison.py:89-103 | every stable matching of the candidates is the greedy one |
| Matching.GreedyIsHalfOptimal | apps/api/app/document_comparison.py:89-103 | no matching of the candidates has more than twice the total unrounded score of the greedy one |
| DocumentComparison.DominantBucketsExact | apps/api/app/document_comparison.py:210-217 | a bucket is dominant exactly when its component is not zero and fewer than twelve components are stronger, ties going to the lower index |
| DocumentComparison.CandidatesExact | apps/api/app/document_comparison.py:70-88 | the candidates are the pairs that share a dominant bucket and reach the threshold, each exactly once |
| DocumentComparison.EmbeddedAnchorsShareIff | apps/api/app/document_comparison.py:70-80 | with the buckets of an embedding, two anchors are compared exactly when some component is dominant in both vectors |
| DocumentComparison.IndexRight | apps/api/app/document_comparison.py:71-75 | a bucket of the index lists exactly the right anchors that have it |
| DocumentComparison.PossiblePartners | apps/api/app/document_comparison.py:78-80 | the partners looked up for a left anchor are exactly the right anchors that share a bucket with it |
| DocumentComparison.CollectCandidates | apps/api/app/document_comparison.py:70-88 | the indexed loop fails exactly when more than 200,000 pairs share a bucket, and otherwise returns the candidates of the plain double loop |
| DocumentComparison.TakeGreedily | apps/api/app/document_comparison.py:89-103 | the used indices and matches of the loop are those of the greedy matching |
| DocumentComparison.CompareAnchorSets | apps/api/app/document_comparison.py:48-111 | the errors in the order of the checks, or the sorted matches and the unmatched anchors of either side |
| ComparisonAnswers.FailsIffObjectionable | apps/api/app/document_comparison.py:48-86 | a comparison fails exactly for the first objection in the order of the checks: one revision, a threshold outside [0.5, 1], a foreign anchor on either side, more than 2,000 anchors, or more than 200,000 pairs of places that share a bucket |
| ComparisonAnswers.AnswerIsExact | apps/api/app/document_comparison.py:89-111 | each match says its two texts, their rounded similarity, and duplicate from 0.92 on; matches are in the order of their ids, and what is left of either side keeps its order |
| DocumentComparison.ComparisonConservesAnchors | apps/api/app/document_comparison.py:90-111 | matched and unmatched anchors of a side are together its input, with multiplicity |
| DocumentComparison.ComparisonIsTheStableMatching | apps/api/app/document_comparison.py:48-111 | the matches of a comparison are the one stable matching of the pairs that share a bucket at the threshold, and no matching of these has more than twice its total |
| AutomaticProposals.CompareAllPairs | apps/api/app/automatic_report_suggestions.py:246-275 | fails exactly for more than 100 pairs or a failing comparison, and otherwise holds the comparisons of all pairs in order |
| AutomaticProposals.PairIsCompared | apps/api/app/automatic_report_suggestions.py:246-275 | the comparison of every pair of documents is in the result |
| AutomaticProposals.BuildAutomaticProposals | apps/api/app/automatic_report_suggestions.py:385-472 | the loops append what the comparisons ask for, in order, skipping what was seen and what exceeds the limit |
| AutomaticProposals.ProposalsServeRequests | apps/api/app/automatic_report_suggestions.py:385-472 | at most 100 proposals, no kind and anchor twice, nothing unasked, and nothing asked is missing unless the list is full |
| AutomaticProposals.AdditionIffUnmatched | apps/api/app/automatic_report_suggestions.py:385-472 | with two or more documents and a list that is not full, an anchor is proposed as an addition exactly when no pair matches it |
| AutomaticProposals.MatchesAreProposed | apps/api/app/automatic_report_suggestions.py:385-472 | with a list that is not full, an anchor is proposed for removal exactly when a match calls it a duplicate and for editing exactly when one calls it similar; every such proposal names the left anchor of such a match |
| ProposalPlaces.ProposalsAreThoseAsked | apps/api/app/automatic_report_suggestions.py:385-472 | the proposals are what is asked for at increasing places: comparison by comparison, its matches, then the left and right anchors that no comparison matches; a place is skipped exactly if an earlier one has its kind and anchor or a hundred come before |
| SourceCoverage.NextLengthIsExact | apps/api/app/automatic_report_suggestions.py:652-657 | the running length is the length of the text the block would have |
| SourceCoverage.ChunksAreLossless | apps/api/app/automatic_report_suggestions.py:626-662 | the chunks of a document concatenate to its anchors, and each is one anchor or keeps both limits |
| SourceCoverage.GreedyStaysAhead | apps/api/app/automatic_report_suggestions.py:651-662 | any packing of the same anchors has as many chunks or more, and with as many its last chunk is at least as long |
| SourceCoverage.ChunksAreMinimal | apps/api/app/automatic_report_suggestions.py:651-662 | no order-preserving packing within the limits has fewer chunks |
| SourceCoverage.PackDocument | apps/api/app/automatic_report_suggestions.py:626-662 | the loop with its flushes yields one block per chunk, with its text, title, ids and number |
| SourceCoverage.BuildSourceCoverageBlocks | apps/api/app/automatic_report_suggestions.py:607-663 | a heading and then the blocks of every document in order |
| SourceCoverage.ParagraphsAreJoined | apps/api/app/automatic_report_suggestions.py:632-648 | the text of a block is the texts of its anchors in order, with an empty line between any two |
| SourceCoverage.BlocksHoldDocuments | apps/api/app/automatic_report_suggestions.py:607-663 | after the heading, for each document in order one block for every chunk, with its joined texts, its ids, its number and the title of the document or the placeholder for none |
| SourceCoverage.BlockIdsDistinct | apps/api/app/automatic_report_suggestions.py:617-662 | no two blocks have one id |
| ReportAnchors.RoundsAreExact | apps/api/app/automatic_report_suggestions.py:595-603 | the rounds list every anchor within the limit once, by round and then by document |
| ReportAnchors.NoPlaceIsSkipped | apps/api/app/automatic_report_suggestions.py:595-603 | whatever precedes a selected anchor in that order is selected |
| ReportAnchors.RoundsAreFair | apps/api/app/automatic_report_suggestions.py:595-603 | before a document gives its anchor of a round, every other has given all it has of the earlier rounds |
| ReportAnchors.UnlimitedRoundsReachAll | apps/api/app/automatic_report_suggestions.py:590-594 | without a limit per document the rounds reach every anchor |
| ReportAnchors.SelectionIsByRounds | apps/api/app/automatic_report_suggestions.py:580-604 | the selected anchors stand at increasing places, by round and then by document, and unless the limit is used up every place within the limit per document is among them |
| ReportAnchors.SelectReportAnchors | apps/api/app/automatic_report_suggestions.py:580-604 | fails exactly for a limit below one, and otherwise returns the first anchors of the rounds up to the limit |
| GenerationContext.PlanGenerationContext | apps/api/app/generation_context.py:35-103 | succeeds exactly within all budgets, with the plan and a token for every four characters of its quotes, rounded up, and at least one; each error says what was exceeded first and where |
| GenerationContext.OneReasonToFail | apps/api/app/generation_context.py:42-96 | what is exceeded first is the only explanation of a failure, so the error is determined by the input, and no plan within the budgets exists |
| GenerationContext.CharactersAreText | apps/api/app/generation_context.py:73-93 | the characters counted are those of all quotes of the plan |
| GenerationContext.ComparisonsArePairs | apps/api/app/generation_context.py:61-63 | a comparison is counted for every anchor and every one kept before it |
| GenerationContext.PlanGroup | apps/api/app/generation_context.py:58-93 | the loop over one revision keeps the first of each set of duplicates and counts exactly, or fails at the anchor that first exceeds something; the splitting branch is never reached |
| GenerationContext.PlanRevision | apps/api/app/generation_context.py:55-93 | one round over a revision extends the plan by its kept anchors within the budgets, or its error explains why no plan fits them |
| GenerationContext.DroppedHasWitness | apps/api/app/generation_context.py:65-89 | place by place, an anchor is kept after those before it, or dropped and repeats one kept before it that stays kept |
| GenerationContext.KeptDoNotRepeat | apps/api/app/generation_context.py:65-89 | no kept anchor repeats an earlier kept one |
| GenerationContext.OneDocumentPerRevision | apps/api/app/generation_context.py:55-93 | one document per revision, in order, with all its kept anchors |
| GenerationContext.PlanPartitionsInput | apps/api/app/generation_context.py:47-103 | kept anchors and duplicates make up the input, with multiplicity |
| GenerationContext.ReplanningKeepsThePlan | apps/api/app/generation_context.py:30-103 | planning the kept anchors again succeeds with the same documents and estimate and no duplicates |
| ActivityPolicy.EventKeyInjective | apps/api/app/activity_policy.py:153-215 | events with one key have the same type, the same shape and the same identities, when identities hold no colon |
| ActivityPolicy.NamedKeyInjective | apps/api/app/activity_policy.py:153-215 | the same for the keys built from event names |
| ActivityPolicy.KeyOfName | apps/api/app/activity_policy.py:153-215 | the key built under an event's name is the key of that event |
| ActivityKeys.KeyIsWritten | apps/api/app/activity_policy.py:153-215 | for each of the 31 types, the text of the key from its identities, or the first identity that is missing |
| ActivityPolicy.CloseKeysAreEventKeys | apps/api/app/activity_policy.py:246-264 | the keys of a close are those of the closed and the processing event |
| ActivityPolicy.RetryKeysAreEventKeys | apps/api/app/activity_policy.py:246-264 | the keys of a retry are those of the retry and the processing event |
| ActivityPolicy.CompoundKeysDiffer | apps/api/app/activity_policy.py:246-264 | the two keys of one operation differ |
| ActivityPagination.UnpaddedRoundTrip | apps/api/app/activity_pagination.py:15-27 | for all bytes, stripping the padding and adding back the missing characters decodes to the bytes |
| ActivityPagination.PaddedLength | apps/api/app/activity_pagination.py:15-17 | the padded form has four symbols for every three bytes begun |
| ActivityPagination.SymbolTable | apps/api/app/activity_pagination.py:15-17 | the value of a symbol is its place in the URL alphabet, + and / count as - and _, and nothing else is a symbol |
| ActivityPagination.EventCursorRoundTrip | apps/api/app/activity_pagination.py:15-27 | every sixteen-byte id becomes a cursor of 22 characters that decodes to it |
| HistoryPages.LaterPage | apps/api/app/activity_repository.py:78-126 | a page read at a cursor after any appends shows what the first ledger has below the cursor |
| HistoryPages.PageIsExact | apps/api/app/activity_repository.py:78-126 | the errors of a page, and otherwise the newest visible events older than the one its cursor names, at most the limit clamped to 1 to 100, with a cursor to the last one exactly when older ones are visible |
| HistoryPages.CollectCursorPages | AXit_project-main_goal_frontend/src/api/queries.ts:310-328 | the loop ends without the repeated-cursor error and returns every visible event of the first ledger below the first cursor, newest first |
| HistoryPages.LoadHistory | AXit_project-main_goal_frontend/src/api/queries.ts:1150-1161 | the first page and the followed cursors give exactly the visible events of the first ledger, newest first |
| HistoryPages.HistoryIsComplete | apps/api/app/activity_repository.py:88-126 | that list holds each visible event exactly once, in strictly descending sequence |
| CollaborationModel.KeyIsInjective | apps/api/app/activity_repository.py:36-73 | ledger rows of these operations with one key have the same type and subject |
| CollaborationInvariants.LedgerRebuildsTables | apps/api/app/collaboration_service.py:119-263 | after every run, replaying the ledger gives the friendship statuses, who joined and left which room, and which sessions exist and are archived |
| CollaborationInvariants.NoRowIsSwallowed | apps/api/app/activity_repository.py:51-73 | in every run, all rows of a transaction are appended: none meets a taken key |
| CollaborationInvariants.KeysAreDistinct | apps/api/app/activity_repository.py:51-73 | no key occurs twice in the ledger |
| CollaborationInvariants.ChangesAreRecorded | apps/api/app/collaboration_service.py:119-263 | a transaction changes the tables exactly when it records rows |
| CollaborationInvariants.OneHostPerRoom | apps/api/app/collaboration_service.py:331-366 | after every run a room has exactly one host, its owner, who has not left |
| CollaborationInvariants.MembersWereInvited | apps/api/app/collaboration_service.py:465-529 | after every run every other present member holds an accepted invitation |
| CollaborationInvariants.DepartureIsFinal | apps/api/app/collaboration_service.py:728-764 | a member who left stays departed after any further transactions |
| CollaborationInvariants.InvitedSeat | apps/api/app/collaboration_service.py:465-529 | an invitation that succeeds finds no membership or a present one: restoring a departed one never happens |
| CollaborationRights.EveryRequestIsAnswered | apps/api/app/collaboration_service.py:119-764 | in every run each request gets exactly the error, the confirmation or the change that the owners, present members and friends call for, and a change is exactly the one asked for, with its rows |
| CollaborationRights.OnlyTheAddresseeAnswers | apps/api/app/collaboration_service.py:207-247 | in every run a friendship changes only when the one who was asked answers while it is pending, to accepted or rejected as they say |
| CollaborationRights.OnlyTheRequesterAsks | apps/api/app/collaboration_service.py:119-194 | a friendship appears only when its requester asks someone registered with whom there is none, whoever asked |
| CollaborationRights.OnlyTheOwnerInvites | apps/api/app/collaboration_service.py:431-559 | a seat appears only with its room, or when the room's owner invites a friend |
| CollaborationRights.OnlyMembersLeave | apps/api/app/collaboration_service.py:728-764 | a membership changes only when its own user leaves, who is not the owner |
| CollaborationRights.OnlyTheOwnerHoldsSessions | apps/api/app/collaboration_service.py:561-726 | a session appears, and is archived, only by the owner of its room |
| CollaborationRights.NothingIsRemoved | apps/api/app/collaboration_service.py:119-764 | users, rooms with their owners, friendships, invitations, sessions and rows stay |
| CollaborationService.Service.Record | apps/api/app/activity_repository.py:35-76 | appends the row unless its key is taken |
| CollaborationService.Service.CreateFriendRequest | apps/api/app/collaboration_service.py:119-194 | tables, rows and errors of a friend request, and the friendship of the pair as result |
| CollaborationService.Service.RespondToFriendRequest | apps/api/app/collaboration_service.py:196-263 | tables, rows and errors of an answer, idempotent for the same answer |
| CollaborationService.Service.CreateRoom | apps/api/app/collaboration_service.py:331-366 | tables, rows and errors of a new room with its host |
| CollaborationService.Service.CreateRoomInvitation | apps/api/app/collaboration_service.py:431-559 | tables, rows and errors of an invitation that seats a friend |
| CollaborationService.Service.LeaveRoom | apps/api/app/collaboration_service.py:728-764 | tables, rows and errors of leaving, which the host may not |
| CollaborationService.Service.CreateTalkSession | apps/api/app/collaboration_service.py:561-613 | tables, rows and errors of a new session |
| CollaborationService.Service.ArchiveTalkSession | apps/api/app/collaboration_service.py:678-726 | tables, rows and errors of archiving, idempotent on an archived session |
| CommentsInvariants.VersionsMatchLedger | apps/api/app/comments_service.py:55-243 | after every run a comment at version n has exactly the ledger rows 1 to n in order, creation first, deletion last, updates between |
| CommentsInvariants.OneChangePerVersion | apps/api/app/comments_service.py:144-175 | in any run at most one request with a given expected version changes the comment |
| CommentsInvariants.CreationIsKept | apps/api/app/comments_service.py:67-107 | a created comment is found under its request with its session and fingerprint from then on |
| CommentsInvariants.ReplayChangesNothing | apps/api/app/comments_service.py:67-107 | replaying a creation whose checks still pass returns the same comment and changes nothing, and other content is refused |
| CommentsInvariants.MentionsAreLastAccepted | apps/api/app/comments_service.py:158-186 | after every run the stored mentions are those of the last accepted creation or update |
| CommentsInvariants.EveryoneElseOnce | apps/api/app/activity_policy.py:218-233 | the recipients of a new comment are all members but the actor, each once, as mentioned if mentioned |
| CommentsContents.EveryRequestIsAnswered | apps/api/app/comments_service.py:55-243 | in every run each request gets exactly the error, the confirmation or the change that its checks call for, and a change is exactly the one asked for, with its row |
| CommentsContents.OnlyAuthorsAndOwnersChange | apps/api/app/comments_service.py:125-243 | a comment changes only when its author updates it, or when its author or the room's owner deletes it; its session and author never do, and a deleted one changes no more |
| CommentsContents.WordsAreLastAccepted | apps/api/app/comments_service.py:158-176 | after every run the stored body and anchor are those of the last accepted creation or update, and the body is empty once deleted |
| CommentsContents.DeletedIff | apps/api/app/comments_service.py:200-243 | after every run a comment is deleted exactly when a deletion of it was accepted |
| CommentsContents.ChangeTellsNewlyMentioned | apps/api/app/comments_service.py:177-197 | an update tells exactly those it mentions newly, each once at the new version, and a deletion tells no one |
| CommentsNotices.NoOneIsToldTwice | apps/api/app/comments_service.py:318-357 | in every run no one gets two notices of one version of a comment |
| CommentsNotices.CreationTellsEveryoneElse | apps/api/app/comments_service.py:108-123 | a creation after any run adds exactly one notice, at version 1, for each member but the author, as mentioned for those it mentions |
| CommentsService.Service.RecordActivity | apps/api/app/activity_service.py:329-402 | notices are sent only when the row is newly appended |
| CommentsService.Service.InsertMentions | apps/api/app/comments_repository.py:43-46 | adds the users to the comment's mentions and touches no other comment |
| CommentsService.Service.CreateComment | apps/api/app/comments_service.py:55-123 | tables, notices, result and errors of a creation or its replay |
| CommentsService.Service.UpdateComment | apps/api/app/comments_service.py:125-198 | tables, notices, result and errors of an update under its expected version |
| CommentsService.Service.DeleteComment | apps/api/app/comments_service.py:200-243 | tables, result and errors of a deletion under its expected version |
| BoundedCapture.BuffersArePrefixes | spikes/document-ingestion/sandbox_runner.py:265-284 | in every interleaving each buffer is a prefix of its stream within its limit |
| BoundedCapture.ReturnedArePrefixes | spikes/document-ingestion/sandbox_runner.py:304-313 | whatever the outcome, the returned bytes are prefixes within the limits |
| BoundedCapture.OverflowIsReal | spikes/document-ingestion/sandbox_runner.py:272-306 | an overflow result names a stream longer than its limit and returns its first limit bytes |
| BoundedCapture.CapturedIsWholeOrFull | spikes/document-ingestion/sandbox_runner.py:265-313 | without a read error, a result with no error code holds the first limit bytes of each stream, and the whole of one exactly when it is within its limit |
| BoundedCapture.OverflowCodeIsThere | spikes/document-ingestion/sandbox_runner.py:273-306 | once the poller has seen the overflow event there is a code to return |
| BoundedCapture.CompletionCanHideOverflow | spikes/document-ingestion/sandbox_runner.py:304-313 | a run in which a cut stream is returned without an error code |
| BoundedCapture.EveryCaptureEnds | spikes/document-ingestion/sandbox_runner.py:298-313 | once the deadline has passed the poller returns within seven of its own steps, whatever the readers do in between |
| BoundedCapture.TimeoutWasLate | spikes/document-ingestion/sandbox_runner.py:298-313 | a capture times out only if the poller saw the deadline pass |
| BoundedCapture.ReadersRead | spikes/document-ingestion/sandbox_runner.py:265-284 | a reader takes what there is, at most 65,536 bytes at a time, and is done at the end of the stream or when reading fails |
| BoundedCapture.OverflowIsToldInOrder | spikes/document-ingestion/sandbox_runner.py:274-284 | a reader that overflows names its stream, then sets the shared event, and only then its own, each in a step of its own |
| BoundedCapture.FailedReadersFailed | spikes/document-ingestion/sandbox_runner.py:265-284 | in every run a reader counts as failed only if one of its reads failed |
| SuggestionWorker.StaleWorkerHasNoEffect | apps/api/app/queue_repository.py:326-347 | once a job is leased beyond a claim, after any further run a worker with that claim is still behind and changes nothing but its own place, however the later leases ended |
| SuggestionWorker.OneHolderPerJob | apps/api/app/queue_repository.py:124-236 | in every run at most one worker holds a job's lease, and meanwhile nothing another worker does for that job has an effect |
| LeaseDeadlines.LeaseIsRespected | apps/api/app/queue_repository.py:147-172 | in every run a lease stays as it is until its deadline, unless the worker that holds it completes the job: nobody else can claim it |
| LeaseDeadlines.LapsedWorkerHasNoEffect | apps/api/app/queue_repository.py:326-347 | in every run, once the deadline of a lease has passed, taken over or not, a worker that still has the claim never changes anything but its own place |
| SuggestionWorker.SuggestionsAreThoseProposed | apps/api/app/automatic_report_suggestions.py:109-145 | after a completion exactly the stored keys and the proposed keys have a suggestion |
| SuggestionWorker.OneSuggestionPerKey | apps/api/app/automatic_report_suggestions.py:109-163 | in every run each snapshot and key has at most one suggestion, which never changes, and exactly one created event |
| SuggestionWorker.DocumentsAreNotOverwritten | apps/api/app/automatic_report_suggestions.py:92-107 | no step but a member's edit changes a merged document that exists |
| SuggestionOutcomes.CompletionStores | apps/api/app/automatic_report_suggestions.py:83-163 | in every run a worker that holds its lease and completes its job leaves it succeeded, stores the merged document if it is not empty and there was none, and each newly proposed key with the text of its first proposal; nothing else changes |
| SuggestionOutcomes.FailureIsRecorded | apps/api/app/automatic_report_suggestions.py:323-343 | in every run a worker that holds its lease records a retryable failure for its requeue, or a terminal one that moves its session from ready to needs attention; with an invalid identity it records nothing |
| SuggestionOutcomes.ClaimTakesEffect | apps/api/app/queue_repository.py:124-236 | in every run a claim takes effect exactly for a job that is pending or whose lease has lapsed, and hands out the next generation until the lease ends |
| SuggestionOutcomes.ExecutionGoesOn | apps/api/app/automatic_report_suggestions.py:302-331 | an execution goes on to its completion, or to a failure that is retryable exactly when the provider says so, the identity is valid and it is the first or second attempt |
| SuggestionOutcomes.WrongStepsDoNothing | apps/api/app/queue_repository.py:326-347 | a step of a worker that is elsewhere changes nothing, and one without its lease only ends its own work |
| SuggestionWorker.AtMostTwoRequeues | apps/api/app/automatic_report_suggestions.py:325-350 | in every run the worker requeues a job at most twice |
| StrandedJobs.StrandedOnlyByCrash | apps/api/app/automatic_report_suggestions.py:327-343 | in every run a stranded job names the step that stranded it: the crash of a worker about to requeue it at its present generation |
| StrandedJobs.RequeueOrStrand | apps/api/app/queue_repository.py:388-413 | in every run, when a worker is about to requeue a job, its requeue makes that job pending and changes nothing else of it, and its crash strands it |
| StrandedJobs.StrandedIff | apps/api/app/automatic_report_suggestions.py:325-343 | in every run a job is stranded exactly when a worker crashed that was about to requeue it at its present generation |
| StrandedJobs.StrandedForEver | apps/api/app/queue_repository.py:388-413 | a stranded job is never changed again by any continuation of any run |
| StrandedJobs.StrandingRun | apps/api/app/automatic_report_suggestions.py:325-343 | a run of five steps strands a job: enqueue, claim, retryable failure, its record, and the crash |
| SuggestionWorker.AttentionOnlyOnTerminalFailure | apps/api/app/automatic_report_suggestions.py:714-730 | the worker moves a session only from ready to needs attention, together with the terminal failure of its job |
| SuggestionWorker.OneCompletionPerLease | apps/api/app/queue_repository.py:326-347 | completions of one job take effect at growing lease generations |
| SuggestionWorker.FailureIsRecordedIff | apps/api/app/automatic_report_suggestions.py:328-341 | in every run, with a current lease, a failure is recorded exactly when the identity is valid |
| SuggestionWorker.InvalidJobNeverFinishes | apps/api/app/automatic_report_suggestions.py:475-492 | in every run a job with an invalid identity is pending or running |
| SuggestionWorker.InvalidJobIsClaimedForEver | apps/api/app/automatic_report_suggestions.py:293-341 | for every number there is a run that leases such a job that often without a requeue |
| LifecycleLog.OnlyOwnedProjects | scripts/n4_compose_lifecycle.py:228-251 | in every safe log only owned projects named by the manifest on disk go up or down, never the protected one, from the paths of that manifest, and up only while it is starting |
| LifecycleLog.DownHasEvidence | scripts/n4_compose_lifecycle.py:802-862 | before every down, in the same call and with no command between: a listing that is not empty, labelled throughout as the project's own and with exactly the recorded labels, and an unchanged protected project; no teardown is recorded yet |
| LifecycleLog.DownOnDriveHasEvidence | scripts/n4_compose_lifecycle.py:846-847 | before every down from a drive, in the same call and with no command between, the drive shows the recorded target |
| LifecycleLog.RunningHasEvidence | scripts/n4_compose_lifecycle.py:629-729 | a running manifest was recorded by the call that brought the project up from its paths, which listed exactly its resources and saw the protected project unchanged after that up; nothing was brought up or archived since |
| LifecycleLog.RecordedWasListed | scripts/n4_compose_lifecycle.py:641-692 | resources on disk were listed under the project by the call that recorded them, after its last command |
| LifecycleLog.NothingIsForgotten | scripts/n4_compose_lifecycle.py:802-910 | a project brought up is seen empty afterwards, or the manifest on disk names it and is not torn down |
| LifecycleLog.OneProjectAtATime | scripts/n4_compose_lifecycle.py:117-125 | at most one project is up without having been seen empty since |
| LifecycleLog.TeardownFollowsEmpty | scripts/n4_compose_lifecycle.py:857-882 | a manifest that is torn down or stopped had its project listed empty by the call that recorded the teardown, after the last command of that call, and nothing was brought up or archived since |
| LifecycleLog.StoppedHasNoDrive | scripts/n4_compose_lifecycle.py:883-910 | a stopped manifest holds no drive mapping |
| LifecycleLog.StoppedHasEvidence | scripts/n4_compose_lifecycle.py:883-910 | a stopped manifest was recorded from a torn-down one without a drive, by a call that saw the protected project unchanged after its last command, the release of the drive included |
| LifecycleLog.NoDriveIsForgotten | scripts/n4_compose_lifecycle.py:424-448 | a mapping that was asked for is answered by a refusal, or released by an unmapping of the drive that succeeds, or the manifest on disk names the drive |
| LifecycleLog.MapHasEvidence | scripts/n4_compose_lifecycle.py:427-441 | a drive is mapped only by a start that just saw it free, with the intention on disk |
| LifecycleLog.UnmapHasEvidence | scripts/n4_compose_lifecycle.py:456-481 | a drive is released only if it was mapped under the same manifest, no drive was mapped since, and it was just seen to show the recorded target |
| LifecycleLog.EmptinessMustAgree | scripts/n4_compose_lifecycle.py:364-402 | if the ownership check passes, manifest and project both have resources or both have none |
| LifecycleLog.OwnershipIsSameLabels | scripts/n4_compose_lifecycle.py:364-402 | the ownership check passes exactly for the same paths, an owned project, listed rows all labelled as its own, and exactly the recorded ids with their labels |
| LifecycleLog.FirstHasEvidence | scripts/n4_compose_lifecycle.py:547-566 | the call that wrote the project's first manifest had seen the project empty and took the manifest's picture of the protected project, both after its last command |
| LifecycleRecovery.StopSucceedsIff | scripts/n4_compose_lifecycle.py:802-910 | a stop succeeds exactly when the target fits, the listed project passes the checks and goes away or was torn down before, the drive can be released and the protected project is unchanged |
| LifecycleRecovery.TargetRefusedIff | scripts/n4_compose_lifecycle.py:509-524 | on every safe log the target is refused exactly for another root or when the drive is released and the paths still point at it |
| LifecycleRecovery.FinishableIff | scripts/n4_compose_lifecycle.py:802-910 | on every safe log some answers let some stop succeed exactly when the manifest is not of the three kinds, and so finish one that is not stopped exactly when it is not unfinishable |
| LifecycleRecovery.UnfinishableForEver | scripts/n4_compose_lifecycle.py:802-910 | no run of stops finishes an unfinishable manifest |
| LifecycleRecovery.StopLosesDriveIff | scripts/n4_compose_lifecycle.py:883-904 | on every safe log a stop that does not die makes a manifest unfinishable exactly when it releases the drive and then finds the protected project changed |
| LifecycleRecovery.StoppedFromDrive | scripts/n4_compose_lifecycle.py:509-524 | a stop that succeeds from a drive leaves a finished manifest that every further stop refuses |
| LifecycleRecovery.RefusedWhileMismatched | scripts/n4_compose_lifecycle.py:817-852 | while no listing shows exactly the recorded ids, every stop is refused and changes only the cleanup status |
| LifecycleRecovery.RecoveryIsOfferedOnce | scripts/n4_compose_lifecycle.py:806-852 | on every safe log whose manifest records a failed capture, a stop adopts what it lists, lists nothing and keeps the offer, or takes it back, and then every listing with resources is refused |
| LifecycleStuckRuns.DieAfterUp | scripts/n4_compose_lifecycle.py:626-641 | whatever the start: dead after its up, it leaves a manifest without resources, which every listing with resources contradicts |
| LifecycleStuckRuns.DiedAfterUp | scripts/n4_compose_lifecycle.py:626-641 | a new object and a start that dies as its sixth action would begin: up was issued, and the manifest left is one that every listing with resources contradicts |
| LifecycleStuckRuns.DieAfterDown | scripts/n4_compose_lifecycle.py:855-874 | whatever the stop that gets to its down: dead after it, it leaves the manifest as it was, which the empty project contradicts |
| LifecycleStuckRuns.DiedAfterDown | scripts/n4_compose_lifecycle.py:855-874 | a new object, a start, and a stop that dies after its down: the manifest left is the running one, which the empty project contradicts |
| LifecycleStuckRuns.PartialDown | scripts/n4_compose_lifecycle.py:861-869 | a new object, a start, and a stop whose down fails or leaves one of the containers: the manifest left is one that the rest contradicts |
| LifecycleStuckRuns.LostRecovery | scripts/n4_compose_lifecycle.py:806-812 | a new object, a start whose listing fails, from whose manifest a stop would adopt the resources, and any stop from another directory: every listing with resources contradicts what is left |
| LifecycleStuckRuns.DieWhileMapping | scripts/n4_compose_lifecycle.py:424-441 | whatever the start that asks for the first drive: dead after that, it leaves an unfinishable manifest |
| LifecycleStuckRuns.DiedWhileMapping | scripts/n4_compose_lifecycle.py:424-441 | a new object and a start that dies after it asked for the first drive: the manifest left is unfinishable |
| LifecycleStuckRuns.DeadEnd | scripts/n4_compose_lifecycle.py:883-904 | a new object, a start on a drive, and a stop that releases the drive and finds the protected project changed: the manifest left is unfinishable |
| LifecycleStuckRuns.DieAfterRelease | scripts/n4_compose_lifecycle.py:883-910 | whatever the stop that releases its drive: dead after it recorded that, it leaves an unfinishable manifest |
| LifecycleStuckRuns.DiedAfterRelease | scripts/n4_compose_lifecycle.py:883-910 | a new object, a start on a drive, and a stop that dies so |
| LifecycleStuckRuns.ForeignService | scripts/n4_compose_lifecycle.py:722-725 | a new object and a start that finds a container of an unexpected service: the manifest left is unfinishable |
| LifecycleCalls.RunningIffStarted | scripts/n4_compose_lifecycle.py:538-729 | what a start that does not die leaves is running exactly under the conditions for its success, and is the new project's |
| LifecycleStarts.StartSucceedsIff | scripts/n4_compose_lifecycle.py:538-729 | a start succeeds exactly when nothing is in its way, the project is empty, the configuration resolves at the root or, when its name made that fail, from a drive, the up succeeds at once or at a second attempt from a drive, one of three listings shows exactly the expected services, and the protected project is unchanged |
| LifecycleStarts.OwnedNameIff | scripts/n4_compose_lifecycle.py:38 | an owned name is the prefix with eight digits, t, six digits, z, the digits of a process and eight lower-case letters or digits, joined as a new name is |
| LifecycleStarts.CapturedIff | scripts/n4_compose_lifecycle.py:500-507 | what is captured is the first listing that succeeds, of at most three |
| LifecycleStarts.FirstMappedIff | scripts/n4_compose_lifecycle.py:424-448 | the drive taken is the highest letter from Z down to D that is free and can be mapped |
| LifecycleStarts.ExpectedServicesIff | scripts/n4_compose_lifecycle.py:409-417 | every one of the five services has a container and no container is of another |
| LifecycleStartOutcomes.StartLeavesNothingIff | scripts/n4_compose_lifecycle.py:538-625 | an active manifest stays; nothing is left exactly when the start fails before its first manifest, or the configuration fails for another reason than the name of the root |
| LifecycleStartOutcomes.UnresolvedLeaves | scripts/n4_compose_lifecycle.py:583-625 | when the drive does not help, the start leaves its first manifest if it could give the drive back, and otherwise a failed one that names the drive |
| LifecycleStartOutcomes.UpLeaves | scripts/n4_compose_lifecycle.py:629-729 | what a start leaves after its up: given up after three failed listings, refused for a changed protected project, running, or what a stop makes of the failed manifest |
| LifecycleStartOutcomes.RetryLeaves | scripts/n4_compose_lifecycle.py:644-729 | the same when the name of the root was in the way of the up, with the drive that was then taken |
| LifecycleStartOutcomes.StartIssuesUpIff | scripts/n4_compose_lifecycle.py:629-677 | which ups a start issues, exactly: one when it gets that far, and a second one from a drive when the name of the root was in the way of the first and the second is prepared |
| LifecycleStartOutcomes.StartIssuesMapIff | scripts/n4_compose_lifecycle.py:424-448 | which drives a start maps, exactly: a free letter, with none above it that could be mapped, to its root, and only when the name of the root is in the way of the configuration or of an up that left nothing |
| LifecycleStartOutcomes.StartTakesDownIff | scripts/n4_compose_lifecycle.py:526-625 | a start brings down and releases exactly what the stop does that it calls because it failed, and a drive of its own that did not help |
| LifecycleStopOutcomes.CleanupTells | scripts/n4_compose_lifecycle.py:802-910 | each cleanup status that a stop leaves has exactly one reason in its answers, and every reason leaves its status; only a stop that records nothing leaves an older one |
| LifecycleStopOutcomes.StopLeaves | scripts/n4_compose_lifecycle.py:802-910 | the status, mapping, recorded and removed resources that a stop leaves; the project, root, paths and picture of the protected project stay |
| LifecycleStopOutcomes.StopIssuesDownIff | scripts/n4_compose_lifecycle.py:854-863 | a stop brings the project down exactly when the target fits, all checks of the listing pass, and there is something to bring down |
| LifecycleStopOutcomes.StopIssuesUnmapIff | scripts/n4_compose_lifecycle.py:883-889 | a stop releases its drive exactly when the project is down and the drive still shows the recorded target |
| LifecycleStopOutcomes.StopRecordsIff | scripts/n4_compose_lifecycle.py:802-910 | what a stop writes on its way: the adopted resources, the teardown, the release, and what it leaves |
| ComposeLifecycle.Lifecycle.CreateSubstMapping | scripts/n4_compose_lifecycle.py:424-448 | succeeds exactly when some drive is free and can be mapped and then shows the root; the first such drive is taken, and its mapping is on disk |
| ComposeLifecycle.Lifecycle.RemoveOwnedSubst | scripts/n4_compose_lifecycle.py:467-481 | succeeds exactly for a mapping that was created and still shows its target, when the command succeeds, with fresh evidence of the removal |
| ComposeLifecycle.Lifecycle.CheckOwnership | scripts/n4_compose_lifecycle.py:819-847 | passes exactly under the stated conditions, adopts exactly when a failed capture allows it, and then has fresh evidence of all it checked |
| ComposeLifecycle.Lifecycle.TearDown | scripts/n4_compose_lifecycle.py:854-882 | what each outcome of the down and the following capture leaves on disk, and that only an empty project is recorded as torn down |
| ComposeLifecycle.Lifecycle.RemoveDrive | scripts/n4_compose_lifecycle.py:883-894 | succeeds exactly when there is no mapping or it can be released, with the mapping gone from the manifest or the refusal recorded |
| ComposeLifecycle.Lifecycle.Stop | scripts/n4_compose_lifecycle.py:802-910 | a call logs exactly the actions that the answers call for, cut off where it dies, and leaves on disk what they wrote last; if it does not die it also returns what the answers call for; if it does, an unfinishable manifest stays so, one with other ids keeps all but its cleanup status, and a finishable one is lost only with its drive |
| ComposeLifecycle.Lifecycle.FinishFailedStart | scripts/n4_compose_lifecycle.py:526-536 | leaves what a stop makes of the manifest marked as failed, and never succeeds |
| ComposeLifecycle.Lifecycle.Configure | scripts/n4_compose_lifecycle.py:581-628 | succeeds exactly when the configuration resolves, directly or from a drive, with the manifest that up needs on disk; a failure leaves the disk as it was, or what the attempt at a drive and the failed start make of it |
| ComposeLifecycle.Lifecycle.Launch | scripts/n4_compose_lifecycle.py:629-641 | first of all issues the up of the project and paths on disk, logs exactly the actions called for, and succeeds exactly when one of three listings does; otherwise what the answers call for is on disk |
| ComposeLifecycle.Lifecycle.BringUp | scripts/n4_compose_lifecycle.py:629-729 | the first attempt and, where the name of the root made it fail, a second one from a drive: what they leave and when they succeed |
| ComposeLifecycle.Lifecycle.Conclude | scripts/n4_compose_lifecycle.py:690-729 | running exactly for an unchanged protected project, a successful up and exactly the expected services; either way the disk is what the answers call for |
| ComposeLifecycle.Lifecycle.Start | scripts/n4_compose_lifecycle.py:538-729 | a call logs exactly the actions that the answers call for, cut off where it dies, and leaves on disk what they wrote last; if it does not die it succeeds exactly under the stated answers, with the running manifest of the new project; an active manifest is refused and left as it is |

## Left out

- SQL, psycopg, row locks and isolation levels: each transaction is one atomic step over maps.
- Floating point: similarities, thresholds and accuracies are exact; the six-decimal rounding of a match score is a parameter.
- Unicode normalization, trimming and case folding: parameters, or a flag saying whether the text is valid.
- The embedding, the similarity of two texts and the duplicate test: parameters; only the dominant buckets of an embedding are modelled.
- Hashes and derived UUIDs: `_fingerprint` and `uuid5` are taken as injective, so equal fingerprints mean equal content.
- HistoryPages.LoadHistory: assumes that membership is fixed while the pages are read and that sequence numbers follow commit order, as an append-only ledger gives them.
- ActivityPagination.UnpaddedRoundTrip: says nothing about which malformed cursors the decoder accepts; only the well-formed ones are followed by the client.
- Comment pages and time cursors (`comments_repository.py` `list`): the same keyset argument as the history pages.
- Notification preferences, outbox rows, emails and the in-process counters of `activity_service.py`.
- AutomaticProposals.BuildAutomaticProposals: leaves out the suggested text and the rationale of a proposal, which are formatted from its kind, its anchors and the titles.
- Texts of room names, topics and descriptions, beyond whether they are valid.
- Queue heartbeats, job attempts and stored job results; which pending job a claim picks is arbitrary in `SuggestionWorker`.
- LifecycleLog.EmptinessMustAgree: speaks of emptiness only, for the proofs that need no more; `OwnershipIsSameLabels` is the exact condition of the check.
- ComposeLifecycle.Lifecycle.Stop: the answers to a stop are arbitrary, so nothing is said about what a released drive or a gone resource will show next.
- Docker, `subst` output, port selection, diagnostics with their redaction, and JSON files: actions with arbitrary answers and an atomic write. `verify` and `probe_stale` change no manifest.
- Update in place of the shared buffers, queue rows and tables in `BoundedCapture` and `SuggestionWorker`: their interleavings are step functions on values.
- Concurrent lifecycle calls on one manifest: the code takes no lock, and the model runs one call at a time.
- The shape checks of `gate.py`, `parser_protocol.py` and the contracts, authentication, citations, and the React pages.
