// What each step of the suggestion workers leaves, in every run: what a
// completion stores, what a failure does to its session, whose lease a claim
// hands out, and that nothing else changes.
module SuggestionOutcomes {
  import opened Wrappers
  import opened SuggestionWorker

  // ---------- What a completion stores

  // The first proposal with the key.
  ghost predicate FirstWith(proposals: seq<Proposal>, i: nat, key: string) {
    && i < |proposals| && proposals[i].comparisonKey == key
    && forall j :: 0 <= j < i ==> proposals[j].comparisonKey != key
  }

  ghost predicate Proposed(proposals: seq<Proposal>, key: string) {
    exists p :: p in proposals && p.comparisonKey == key
  }

  // What was stored stays; each proposed key is stored, with the text of its
  // first proposal if it is new.
  ghost predicate TextsStored(stored: map<SuggestionKey, string>, snapshot: nat, proposals: seq<Proposal>,
                              next: map<SuggestionKey, string>) {
    && (forall k :: k in next <==> k in stored || (k.snapshot == snapshot && Proposed(proposals, k.comparisonKey)))
    && (forall k :: k in stored ==> next[k] == stored[k])
    && (forall k, i: nat :: k in next && k !in stored && FirstWith(proposals, i, k.comparisonKey) ==>
          next[k] == proposals[i].text)
  }

  // The new keys are recorded once each, in the order of their first proposals.
  ghost predicate KeysRecorded(stored: map<SuggestionKey, string>, created: seq<SuggestionKey>,
                               proposals: seq<Proposal>, added: seq<SuggestionKey>,
                               next: map<SuggestionKey, string>) {
    && (forall k :: k in added <==> k in next && k !in stored)
    && (forall x, y, i: nat, j: nat ::
          && 0 <= x < y < |added|
          && FirstWith(proposals, i, added[x].comparisonKey) && FirstWith(proposals, j, added[y].comparisonKey) ==>
            i < j)
  }

  lemma FirstOfMore(rest: seq<Proposal>, p: Proposal, i: nat, key: string)
    ensures FirstWith(rest + [p], i, key) <==>
              FirstWith(rest, i, key) || (i == |rest| && p.comparisonKey == key && !Proposed(rest, key))
  {
    var all := rest + [p];
    assert forall j :: 0 <= j < |rest| ==> all[j] == rest[j] && rest[j] in rest;
  }

  lemma ProposedOfMore(rest: seq<Proposal>, p: Proposal, key: string)
    ensures Proposed(rest + [p], key) <==> Proposed(rest, key) || p.comparisonKey == key
  {
    if q :| q in rest && q.comparisonKey == key {
      assert q in rest + [p];
    }
    assert p in rest + [p];
  }

  lemma OneMoreText(stored: map<SuggestionKey, string>, snapshot: nat, rest: seq<Proposal>, p: Proposal,
                    before: map<SuggestionKey, string>)
    requires TextsStored(stored, snapshot, rest, before)
    ensures var key := SuggestionKey(snapshot, p.comparisonKey);
            TextsStored(stored, snapshot, rest + [p], if key in before then before else before[key := p.text])
  {
    forall k
      ensures Proposed(rest + [p], k) <==> Proposed(rest, k) || p.comparisonKey == k
    {
      ProposedOfMore(rest, p, k);
    }
    forall i: nat, k
      ensures FirstWith(rest + [p], i, k) <==>
                FirstWith(rest, i, k) || (i == |rest| && p.comparisonKey == k && !Proposed(rest, k))
    {
      FirstOfMore(rest, p, i, k);
    }
    assert forall i: nat, k :: FirstWith(rest, i, k) ==> rest[i] in rest && Proposed(rest, k);
  }

  lemma OneMoreKey(stored: map<SuggestionKey, string>, created: seq<SuggestionKey>, snapshot: nat,
                   rest: seq<Proposal>, p: Proposal, added: seq<SuggestionKey>, before: map<SuggestionKey, string>)
    requires TextsStored(stored, snapshot, rest, before) && KeysRecorded(stored, created, rest, added, before)
    ensures var key := SuggestionKey(snapshot, p.comparisonKey);
            if key in before then KeysRecorded(stored, created, rest + [p], added, before)
            else KeysRecorded(stored, created, rest + [p], added + [key], before[key := p.text])
  {
    var key := SuggestionKey(snapshot, p.comparisonKey);
    forall i: nat, k
      ensures FirstWith(rest + [p], i, k) <==>
                FirstWith(rest, i, k) || (i == |rest| && p.comparisonKey == k && !Proposed(rest, k))
    {
      FirstOfMore(rest, p, i, k);
    }
    assert forall k :: k in added ==> Proposed(rest, k.comparisonKey);
    assert forall x :: 0 <= x < |added| ==> added[x] in added;
  }

  // What an insertion of the proposals leaves, with the keys it adds.
  ghost predicate Inserted(s: State, snapshot: nat, proposals: seq<Proposal>, next: State, added: seq<SuggestionKey>) {
    && next == s.(suggestions := next.suggestions, created := s.created + added)
    && TextsStored(s.suggestions, snapshot, proposals, next.suggestions)
    && KeysRecorded(s.suggestions, s.created, proposals, added, next.suggestions)
  }

  lemma InsertOneMore(s: State, snapshot: nat, rest: seq<Proposal>, p: Proposal, before: State,
                      added: seq<SuggestionKey>)
    requires Inserted(s, snapshot, rest, before, added)
    ensures var key := SuggestionKey(snapshot, p.comparisonKey);
            if key in before.suggestions then Inserted(s, snapshot, rest + [p], before, added)
            else
              Inserted(s, snapshot, rest + [p],
                       before.(suggestions := before.suggestions[key := p.text], created := before.created + [key]),
                       added + [key])
  {
    OneMoreText(s.suggestions, snapshot, rest, p, before.suggestions);
    OneMoreKey(s.suggestions, s.created, snapshot, rest, p, added, before.suggestions);
  }

  lemma {:induction false} InsertionIsExact(s: State, snapshot: nat, proposals: seq<Proposal>)
    returns (added: seq<SuggestionKey>)
    ensures Inserted(s, snapshot, proposals, InsertSuggestions(s, snapshot, proposals), added)
  {
    if proposals == [] {
      added := [];
      assert s.created + [] == s.created;
    } else {
      var rest, p := proposals[..|proposals| - 1], proposals[|proposals| - 1];
      assert proposals == rest + [p];
      added := InsertionIsExact(s, snapshot, rest);
      InsertOneMore(s, snapshot, rest, p, InsertSuggestions(s, snapshot, rest), added);
      if SuggestionKey(snapshot, p.comparisonKey) !in InsertSuggestions(s, snapshot, rest).suggestions {
        added := added + [SuggestionKey(snapshot, p.comparisonKey)];
      }
    }
  }

  // In every run, a worker that holds its lease completes its job: the job
  // succeeds, each proposed key is stored with the text of its first proposal
  // unless it was stored before, and the document is stored unless it is empty or
  // there was one. Nothing else changes.
  lemma CompletionStores(events: seq<Event>, worker: WorkerId) returns (added: seq<SuggestionKey>)
    requires worker in Run(events).workers && Run(events).workers[worker].Completing?
    requires Holds(Run(events), Run(events).workers[worker].claim)
    ensures var s, next := Run(events), Run(events + [CompleteStep(worker)]);
            var claim, execution := s.workers[worker].claim, s.workers[worker].execution;
            var job := s.jobs[claim.job];
            var key := DocumentKey(job.session, job.snapshot);
            && next == State(s.now, s.jobs[claim.job := job.(state := Succeeded, token := None, until := 0)],
                             s.workers - {worker}, next.suggestions, s.created + added,
                             if execution.finalBlocks != [] && key !in s.documents
                             then s.documents[key := execution.finalBlocks] else s.documents,
                             s.sessions, s.requeues, s.completions + [claim])
            && TextsStored(s.suggestions, job.snapshot, execution.proposals, next.suggestions)
            && KeysRecorded(s.suggestions, s.created, execution.proposals, added, next.suggestions)
  {
    var s := Run(events);
    RunAppends(events, CompleteStep(worker));
    var pc := s.workers[worker];
    var job := s.jobs[pc.claim.job];
    var finished := Finish(Leave(s, worker), pc.claim, Succeeded);
    var stored := InsertDocument(finished, DocumentKey(job.session, job.snapshot), pc.execution.finalBlocks);
    added := InsertionIsExact(stored, job.snapshot, pc.execution.proposals);
  }

  // In every run, a worker that holds its lease records its failure: a retryable
  // one is left to it to requeue; a terminal one with a valid identity ends the
  // job and moves its session from ready to needs attention; with an invalid one
  // the worker goes and nothing is recorded. Nothing else changes.
  lemma FailureIsRecorded(events: seq<Event>, worker: WorkerId)
    requires worker in Run(events).workers && Run(events).workers[worker].Failing?
    requires Holds(Run(events), Run(events).workers[worker].claim)
    ensures var s, next := Run(events), Run(events + [FailStep(worker)]);
            var claim, retryable := s.workers[worker].claim, s.workers[worker].retryable;
            var job := s.jobs[claim.job];
            if retryable then
              next == s.(jobs := s.jobs[claim.job := job.(state := FailedRetryable, token := None, until := 0)],
                         workers := s.workers[worker := Requeuing(claim)], completions := s.completions + [claim])
            else if job.identityIsValid then
              && next == s.(jobs := s.jobs[claim.job := job.(state := FailedTerminal, token := None, until := 0)],
                            workers := s.workers - {worker}, sessions := next.sessions,
                            completions := s.completions + [claim])
              && next.sessions.Keys == s.sessions.Keys
              && forall x :: x in s.sessions ==>
                   next.sessions[x] ==
                     if x == job.session && s.sessions[x] == Ready then NeedsAttention else s.sessions[x]
            else next == s.(workers := s.workers - {worker})
  {
    RunAppends(events, FailStep(worker));
  }

  ghost predicate ClaimGives(s: State, worker: WorkerId, id: JobId, token: nat, leaseSeconds: nat, next: State) {
    if worker !in s.workers && leaseSeconds >= 1 && id in s.jobs
       && (s.jobs[id].state == Pending || (s.jobs[id].state == Running && s.jobs[id].until <= s.now)) then
      var job := s.jobs[id];
      next == s.(jobs := s.jobs[id := Job(job.identityIsValid, job.snapshot, job.session, Running, job.generation + 1,
                                          Some(token), s.now + leaseSeconds)],
                 workers := s.workers[worker := Executing(Claim(id, job.generation + 1, token))])
    else next == s
  }

  // In every run, a claim takes effect exactly for a worker that is idle, a lease
  // of a second or more, and a job that is pending or whose lease has lapsed; it
  // hands out the next generation until the lease ends.
  lemma ClaimTakesEffect(events: seq<Event>, worker: WorkerId, id: JobId, token: nat, leaseSeconds: nat)
    ensures ClaimGives(Run(events), worker, id, token, leaseSeconds,
                       Run(events + [ClaimNext(worker, id, token, leaseSeconds)]))
  {
    RunAppends(events, ClaimNext(worker, id, token, leaseSeconds));
  }

  // In every run, an execution goes on to a completion, or to a failure that is
  // retryable exactly when the provider says so, the identity is valid and the
  // attempt is the first or second.
  lemma ExecutionGoesOn(events: seq<Event>, worker: WorkerId, execution: Execution, providerSaysRetry: bool)
    requires worker in Run(events).workers && Run(events).workers[worker].Executing?
    ensures var s := Run(events);
            var claim := s.workers[worker].claim;
            claim.job in s.jobs
            && var valid := s.jobs[claim.job].identityIsValid;
               var returned := if valid then Completing(claim, execution) else Failing(claim, false);
               var failed := Failing(claim, providerSaysRetry && valid && claim.generation < 3);
               && Run(events + [ExecuteReturns(worker, execution)]) == s.(workers := s.workers[worker := returned])
               && Run(events + [ExecuteFails(worker, providerSaysRetry)]) == s.(workers := s.workers[worker := failed])
  {
    RunKeepsInv(events);
    assert PcInv(Run(events).jobs, Run(events).workers[worker]);
    RunAppends(events, ExecuteReturns(worker, execution));
    RunAppends(events, ExecuteFails(worker, providerSaysRetry));
  }

  // In every run, a step of a worker that is not at the place it is for changes
  // nothing, and one at its place without its lease only lets the worker go.
  lemma WrongStepsDoNothing(events: seq<Event>, e: Event)
    requires e.ExecuteReturns? || e.ExecuteFails? || e.CompleteStep? || e.FailStep? || e.RequeueStep?
    ensures var s, next := Run(events), Run(events + [e]);
            var atPlace := e.worker in s.workers
                           && var pc := s.workers[e.worker];
                              match e
                              case CompleteStep(_) => pc.Completing?
                              case FailStep(_) => pc.Failing?
                              case RequeueStep(_) => pc.Requeuing?
                              case _ => pc.Executing?;
            && (!atPlace ==> next == s)
            && (atPlace && (e.CompleteStep? || e.FailStep?) && !Holds(s, s.workers[e.worker].claim) ==>
                  next == s.(workers := s.workers - {e.worker}))
  {
    RunAppends(events, e);
  }
}
