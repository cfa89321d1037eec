// A suggestion job that failed retryably waits for the worker that recorded this
// to requeue it (automatic_report_suggestions.py): what becomes of it in every
// run, and exactly when nobody requeues it any more.
module StrandedJobs {
  import opened Wrappers
  import opened SuggestionWorker

  // The worker is about to requeue the job at its current generation.
  ghost predicate Requeues(s: State, worker: WorkerId, id: JobId) {
    && worker in s.workers && s.workers[worker].Requeuing? && s.workers[worker].claim.job == id
    && id in s.jobs && s.workers[worker].claim.generation == s.jobs[id].generation
  }

  ghost predicate RequeuedBySome(s: State, id: JobId) {
    exists w :: && w in s.workers && s.workers[w].Requeuing? && s.workers[w].claim.job == id
                && id in s.jobs && s.workers[w].claim.generation == s.jobs[id].generation
  }

  ghost predicate Stranded(s: State, id: JobId) {
    id in s.jobs && s.jobs[id].state == FailedRetryable && !RequeuedBySome(s, id)
  }

  // A failed job holds no token.
  ghost predicate TokensInv(jobs: map<JobId, Job>) {
    forall id :: id in jobs && jobs[id].state == FailedRetryable ==> jobs[id].token == None
  }

  // How the jobs that wait for a requeue and the workers that are about to do
  // it may change, other than by a requeue or a crash.
  ghost predicate WaitsOn(s: State, next: State) {
    && (forall w :: w in s.workers && s.workers[w].Requeuing? ==> w in next.workers && next.workers[w] == s.workers[w])
    && (forall id :: id in s.jobs && s.jobs[id].state == FailedRetryable ==>
          id in next.jobs && next.jobs[id] == s.jobs[id])
    && (forall id :: id in next.jobs && next.jobs[id].state == FailedRetryable ==>
          (id in s.jobs && next.jobs[id] == s.jobs[id]) || (next.jobs[id].token == None && RequeuedBySome(next, id)))
    && (forall w :: w in next.workers && next.workers[w].Requeuing? ==>
          || (w in s.workers && next.workers[w] == s.workers[w])
          || JustFailed(s, next, next.workers[w].claim.job))
  }

  ghost predicate JustFailed(s: State, next: State, id: JobId) {
    id in s.jobs && s.jobs[id].state == Running && id in next.jobs && next.jobs[id].state == FailedRetryable
  }

  lemma SucceedingWaits(s: State, worker: WorkerId, claim: Claim)
    requires worker in s.workers && !s.workers[worker].Requeuing? && Holds(s, claim)
    ensures WaitsOn(s, Finish(Leave(s, worker), claim, Succeeded))
  {
  }

  lemma WaitingIsOfJobs(s: State, next: State, same: State)
    requires WaitsOn(s, next) && same.jobs == next.jobs && same.workers == next.workers
    ensures WaitsOn(s, same)
  {
  }

  lemma CompletionMovesJob(s: State, worker: WorkerId)
    requires CreatedInv(s.suggestions, s.created)
    requires worker in s.workers && s.workers[worker].Completing? && Holds(s, s.workers[worker].claim)
    ensures var finished := Finish(Leave(s, worker), s.workers[worker].claim, Succeeded);
            DoComplete(s, worker).jobs == finished.jobs && DoComplete(s, worker).workers == finished.workers
  {
    var pc := s.workers[worker];
    EffectOnlyAdds(Finish(Leave(s, worker), pc.claim, Succeeded), s.jobs[pc.claim.job], pc.execution);
  }

  lemma CompletingWaits(s: State, worker: WorkerId)
    requires Inv(s)
    ensures WaitsOn(s, DoComplete(s, worker))
  {
    if worker in s.workers && s.workers[worker].Completing? && Holds(s, s.workers[worker].claim) {
      var claim := s.workers[worker].claim;
      SucceedingWaits(s, worker, claim);
      CompletionMovesJob(s, worker);
      WaitingIsOfJobs(s, Finish(Leave(s, worker), claim, Succeeded), DoComplete(s, worker));
    }
  }

  lemma RetryableWaits(s: State, worker: WorkerId, claim: Claim)
    requires worker in s.workers && s.workers[worker].Failing? && s.workers[worker].claim == claim && Holds(s, claim)
    ensures WaitsOn(s, Finish(s, claim, FailedRetryable).(workers := s.workers[worker := Requeuing(claim)]))
  {
    var next := Finish(s, claim, FailedRetryable).(workers := s.workers[worker := Requeuing(claim)]);
    assert next.workers[worker] == Requeuing(claim);
    assert RequeuedBySome(next, claim.job);
  }

  lemma TerminalWaits(s: State, worker: WorkerId, claim: Claim)
    requires worker in s.workers && !s.workers[worker].Requeuing? && Holds(s, claim)
    ensures WaitsOn(s, Finish(Leave(s, worker), claim, FailedTerminal))
  {
  }

  lemma SessionsDoNotWait(s: State, next: State, job: Job)
    requires WaitsOn(s, next)
    ensures WaitsOn(s, AttentionEffect(next, job))
  {
  }

  lemma LeavingWaits(s: State, worker: WorkerId)
    ensures WaitsOn(s, s)
    ensures worker in s.workers && !s.workers[worker].Requeuing? ==> WaitsOn(s, Leave(s, worker))
  {
  }

  lemma RecordingWaits(s: State, worker: WorkerId)
    ensures WaitsOn(s, DoRecordFailure(s, worker))
  {
    if worker in s.workers && s.workers[worker].Failing? && Holds(s, s.workers[worker].claim) {
      var pc := s.workers[worker];
      if pc.retryable {
        RetryableWaits(s, worker, pc.claim);
        assert DoRecordFailure(s, worker)
            == Finish(s, pc.claim, FailedRetryable).(workers := s.workers[worker := Requeuing(pc.claim)]);
      } else if s.jobs[pc.claim.job].identityIsValid {
        TerminalWaits(s, worker, pc.claim);
        SessionsDoNotWait(s, Finish(Leave(s, worker), pc.claim, FailedTerminal), s.jobs[pc.claim.job]);
      } else {
        LeavingWaits(s, worker);
      }
    } else {
      LeavingWaits(s, worker);
    }
  }

  lemma MovingWaits(s: State, worker: WorkerId, pc: Pc)
    requires worker in s.workers && !s.workers[worker].Requeuing? && !pc.Requeuing?
    ensures WaitsOn(s, s.(workers := s.workers[worker := pc]))
  {
  }

  lemma ReturningWaits(s: State, worker: WorkerId, execution: Execution)
    ensures WaitsOn(s, DoReturn(s, worker, execution))
  {
    if worker in s.workers && s.workers[worker].Executing? {
      MovingWaits(s, worker, DoReturn(s, worker, execution).workers[worker]);
    }
  }

  lemma ThrowingWaits(s: State, worker: WorkerId, providerSaysRetry: bool)
    ensures WaitsOn(s, DoFail(s, worker, providerSaysRetry))
  {
    if worker in s.workers && s.workers[worker].Executing? {
      MovingWaits(s, worker, DoFail(s, worker, providerSaysRetry).workers[worker]);
    }
  }

  lemma ClaimWaits(s: State, worker: WorkerId, id: JobId, token: nat, leaseSeconds: nat)
    ensures WaitsOn(s, DoClaim(s, worker, id, token, leaseSeconds))
  {
  }

  lemma StayingWaits(s: State, next: State)
    requires next.jobs == s.jobs && next.workers == s.workers
    ensures WaitsOn(s, next)
  {
  }

  lemma EnqueueWaits(s: State, id: JobId, valid: bool, snapshot: nat, session: nat)
    ensures WaitsOn(s, Step(s, Enqueue(id, valid, snapshot, session)))
  {
  }

  lemma OthersWait(s: State, e: Event)
    requires Inv(s) && !e.RequeueStep? && !e.Crash?
    ensures WaitsOn(s, Step(s, e))
  {
    match e
    case ClaimNext(worker, id, token, leaseSeconds) => ClaimWaits(s, worker, id, token, leaseSeconds);
    case CompleteStep(worker) => CompletingWaits(s, worker);
    case FailStep(worker) => RecordingWaits(s, worker);
    case ExecuteReturns(worker, execution) => ReturningWaits(s, worker, execution);
    case ExecuteFails(worker, providerSaysRetry) => ThrowingWaits(s, worker, providerSaysRetry);
    case Enqueue(id, valid, snapshot, session) => EnqueueWaits(s, id, valid, snapshot, session);
    case Tick(_) | EditDocument(_, _) | ChangeSession(_, _) => StayingWaits(s, Step(s, e));
    case _ =>
  }

  lemma {:induction false} RunKeepsTokens(events: seq<Event>)
    ensures TokensInv(Run(events).jobs)
  {
    if events != [] {
      var init, e := events[..|events| - 1], events[|events| - 1];
      RunKeepsTokens(init);
      RunKeepsInv(init);
      if !e.RequeueStep? && !e.Crash? {
        OthersWait(Run(init), e);
      }
    }
  }

  lemma WaitingStaysStranded(s: State, next: State, id: JobId)
    requires WaitsOn(s, next) && Stranded(s, id)
    ensures Stranded(next, id) && next.jobs[id] == s.jobs[id]
  {
    forall w | w in next.workers && next.workers[w].Requeuing? && next.workers[w].claim.job == id
      ensures w in s.workers && s.workers[w] == next.workers[w]
    {
    }
  }

  lemma LeavingStaysStranded(s: State, worker: WorkerId, id: JobId)
    requires Stranded(s, id)
    ensures Stranded(Leave(s, worker), id) && Leave(s, worker).jobs == s.jobs
  {
  }

  lemma RequeueStaysStranded(s: State, worker: WorkerId, id: JobId)
    requires Stranded(s, id)
    ensures Stranded(DoRequeue(s, worker), id) && DoRequeue(s, worker).jobs[id] == s.jobs[id]
  {
    LeavingStaysStranded(s, worker, id);
    var next := DoRequeue(s, worker);
    assert next == s || next.workers == Leave(s, worker).workers;
    assert next.jobs[id] == s.jobs[id];
    assert RequeuedBySome(next, id) ==> RequeuedBySome(s, id);
  }

  lemma StrandedStays(s: State, e: Event, id: JobId)
    requires Inv(s) && Stranded(s, id)
    ensures Stranded(Step(s, e), id) && Step(s, e).jobs[id] == s.jobs[id]
  {
    if e.RequeueStep? {
      RequeueStaysStranded(s, e.worker, id);
    } else if e.Crash? {
      LeavingStaysStranded(s, e.worker, id);
    } else {
      OthersWait(s, e);
      WaitingStaysStranded(s, Step(s, e), id);
    }
  }

  // No step ever changes a stranded job again.
  lemma {:induction false} StrandedForEver(events: seq<Event>, more: seq<Event>, id: JobId)
    requires Stranded(Run(events), id)
    ensures Stranded(Run(events + more), id) && Run(events + more).jobs[id] == Run(events).jobs[id]
  {
    if more == [] {
      assert events + more == events;
    } else {
      var init, last := events + more[..|more| - 1], more[|more| - 1];
      StrandedForEver(events, more[..|more| - 1], id);
      RunKeepsInv(init);
      StrandedStays(Run(init), last, id);
      RunAppends(init, last);
      assert events + more == init + [last];
    }
  }

  // The worker that was about to requeue the job at this generation crashed.
  ghost predicate CrashedRequeuing(events: seq<Event>, i: nat, id: JobId, generation: nat) {
    && i < |events| && events[i].Crash? && events[i].worker in Run(events[..i]).workers
    && var pc := Run(events[..i]).workers[events[i].worker];
       pc.Requeuing? && pc.claim.job == id && pc.claim.generation == generation
  }

  lemma WaitingStrandsNone(s: State, next: State, id: JobId)
    requires WaitsOn(s, next) && !Stranded(s, id)
    ensures !Stranded(next, id)
  {
    if w :| Requeues(s, w, id) {
      assert next.workers[w] == s.workers[w];
    }
  }

  lemma RequeueStrandsNone(s: State, worker: WorkerId, id: JobId)
    requires TokensInv(s.jobs) && !Stranded(s, id)
    ensures !Stranded(DoRequeue(s, worker), id)
  {
    var next := DoRequeue(s, worker);
    if w :| w in s.workers && Requeues(s, w, id) {
      assert w != worker ==> w in next.workers && next.workers[w] == s.workers[w];
    }
  }

  lemma CrashStrandsOwn(s: State, worker: WorkerId, id: JobId)
    requires !Stranded(s, id) && !Requeues(s, worker, id)
    ensures !Stranded(Leave(s, worker), id)
  {
    var left := Leave(s, worker);
    if w :| w in s.workers && Requeues(s, w, id) {
      assert w in left.workers && left.workers[w] == s.workers[w];
    }
  }

  lemma StrandingStep(s: State, e: Event, id: JobId)
    requires Inv(s) && TokensInv(s.jobs) && !Stranded(s, id) && Stranded(Step(s, e), id)
    ensures e.Crash? && Requeues(s, e.worker, id) && Step(s, e).jobs == s.jobs
  {
    if e.RequeueStep? {
      RequeueStrandsNone(s, e.worker, id);
      assert false;
    } else if e.Crash? {
      if !Requeues(s, e.worker, id) {
        CrashStrandsOwn(s, e.worker, id);
        assert false;
      }
    } else {
      OthersWait(s, e);
      WaitingStrandsNone(s, Step(s, e), id);
      assert false;
    }
  }

  // A stranded job had a worker about to requeue it that crashed.
  lemma {:induction false} StrandedOnlyByCrash(events: seq<Event>, id: JobId) returns (i: nat)
    requires Stranded(Run(events), id)
    ensures CrashedRequeuing(events, i, id, Run(events).jobs[id].generation)
  {
    var init, e := events[..|events| - 1], events[|events| - 1];
    RunKeepsInv(init);
    if Stranded(Run(init), id) {
      i := StrandedOnlyByCrash(init, id);
      StrandedStays(Run(init), e, id);
      assert init[..i] == events[..i];
    } else {
      RunKeepsTokens(init);
      StrandingStep(Run(init), e, id);
      i := |events| - 1;
    }
  }

  // ---------- Exactly when a job is stranded

  // Whoever is about to requeue a job at its generation finds it failed.
  ghost predicate RequeuersInv(s: State) {
    forall w :: w in s.workers && Requeues(s, w, s.workers[w].claim.job) ==>
      s.jobs[s.workers[w].claim.job].state == FailedRetryable
  }

  lemma OthersKeepRequeuers(s: State, e: Event)
    requires Inv(s) && RequeuersInv(s) && !e.RequeueStep? && !e.Crash?
    ensures RequeuersInv(Step(s, e))
  {
    var next := Step(s, e);
    OthersWait(s, e);
    StepIsLater(s, e);
    forall w | w in next.workers && Requeues(next, w, next.workers[w].claim.job)
      ensures next.jobs[next.workers[w].claim.job].state == FailedRetryable
    {
      if !JustFailed(s, next, next.workers[w].claim.job) {
        assert PcInv(s.jobs, s.workers[w]);
      }
    }
  }

  lemma PendingKeepsRequeuers(s: State, next: State, id: JobId)
    requires RequeuersInv(s) && id in s.jobs && forall w :: !Requeues(s, w, id)
    requires next.workers == s.workers && next.jobs == s.jobs[id := s.jobs[id].(state := Pending)]
    ensures RequeuersInv(next)
  {
    forall w | w in next.workers && Requeues(next, w, next.workers[w].claim.job)
      ensures next.jobs[next.workers[w].claim.job].state == FailedRetryable
    {
      assert !Requeues(s, w, id);
    }
  }

  lemma RequeueKeepsRequeuers(s: State, worker: WorkerId)
    requires RequeuersInv(s) && DistinctClaims(s.workers)
    ensures RequeuersInv(DoRequeue(s, worker))
  {
    var next := DoRequeue(s, worker);
    if next.jobs != s.jobs {
      var claim := s.workers[worker].claim;
      forall w
        ensures !Requeues(Leave(s, worker), w, claim.job)
      {
        assert w in s.workers && w != worker ==> !SameLease(s.workers[w].claim, claim);
      }
      PendingKeepsRequeuers(Leave(s, worker), next, claim.job);
    }
  }

  lemma {:induction false} RunKeepsRequeuers(events: seq<Event>)
    ensures RequeuersInv(Run(events))
  {
    if events != [] {
      var init, e := events[..|events| - 1], events[|events| - 1];
      RunKeepsRequeuers(init);
      RunKeepsInv(init);
      ClaimsAreDistinct(init);
      if e.RequeueStep? {
        RequeueKeepsRequeuers(Run(init), e.worker);
      } else if !e.Crash? {
        OthersKeepRequeuers(Run(init), e);
      }
    }
  }

  // If the worker gets there, the job is pending again; if it crashes, the job is
  // stranded.
  lemma RequeueOrStrand(events: seq<Event>, worker: WorkerId, id: JobId)
    requires Requeues(Run(events), worker, id)
    ensures id in Run(events + [RequeueStep(worker)]).jobs
    ensures Run(events + [RequeueStep(worker)]).jobs[id] == Run(events).jobs[id].(state := Pending)
    ensures Stranded(Run(events + [Crash(worker)]), id)
  {
    RunKeepsRequeuers(events);
    RunKeepsTokens(events);
    ClaimsAreDistinct(events);
    RunAppends(events, RequeueStep(worker));
    RunAppends(events, Crash(worker));
    OnlyOneRequeues(Run(events), worker, id);
  }

  lemma OnlyOneRequeues(s: State, worker: WorkerId, id: JobId)
    requires RequeuersInv(s) && DistinctClaims(s.workers) && Requeues(s, worker, id)
    ensures Stranded(Leave(s, worker), id)
  {
    var crashed := Leave(s, worker);
    forall w | w in crashed.workers && crashed.workers[w].claim.job == id
      ensures crashed.workers[w].claim.generation != s.jobs[id].generation
    {
      assert !SameLease(s.workers[w].claim, s.workers[worker].claim);
    }
  }

  lemma CrashStrandsForGood(events: seq<Event>, i: nat, id: JobId)
    requires id in Run(events).jobs && CrashedRequeuing(events, i, id, Run(events).jobs[id].generation)
    ensures Stranded(Run(events), id)
  {
    var before, after := events[..i], events[i + 1..];
    var worker := events[i].worker;
    assert events == before + events[i..] && events == (before + [Crash(worker)]) + after;
    RunIsLater(before, events[i..]);
    RunKeepsInv(before);
    assert PcInv(Run(before).jobs, Run(before).workers[worker]);
    RequeueOrStrand(before, worker, id);
    StrandedForEver(before + [Crash(worker)], after, id);
  }

  // In every run a job is stranded exactly when a worker that was about to
  // requeue it at its present generation crashed.
  lemma StrandedIff(events: seq<Event>, id: JobId)
    requires id in Run(events).jobs
    ensures Stranded(Run(events), id) <==> exists i :: CrashedRequeuing(events, i, id, Run(events).jobs[id].generation)
  {
    if Stranded(Run(events), id) {
      var i := StrandedOnlyByCrash(events, id);
    } else if i :| CrashedRequeuing(events, i, id, Run(events).jobs[id].generation) {
      CrashStrandsForGood(events, i, id);
      assert false;
    }
  }

  // A run that strands a job: the provider asks for a retry, the worker records
  // it and crashes.
  const STRANDING: seq<Event> := [Enqueue(0, true, 0, 0), ClaimNext(0, 0, 0, 10), ExecuteFails(0, true), FailStep(0)]

  function Failed0(): State {
    INITIAL.(jobs := map[0 := Job(true, 0, 0, FailedRetryable, 1, None, 0)],
             workers := map[0 := Requeuing(Claim(0, 1, 0))], completions := [Claim(0, 1, 0)])
  }

  function Claimed0(): State {
    INITIAL.(jobs := map[0 := Job(true, 0, 0, Running, 1, Some(0), 10)],
             workers := map[0 := Executing(Claim(0, 1, 0))])
  }

  lemma ClaimedFirst()
    ensures Step(Step(INITIAL, STRANDING[0]), STRANDING[1]) == Claimed0()
  {
    var enqueued := Step(INITIAL, STRANDING[0]);
    assert enqueued == INITIAL.(jobs := map[0 := Job(true, 0, 0, Pending, 0, None, 0)]);
  }

  lemma ThenFailed()
    ensures Step(Step(Claimed0(), STRANDING[2]), STRANDING[3]) == Failed0()
  {
    var failing := Step(Claimed0(), STRANDING[2]);
    assert failing == Claimed0().(workers := map[0 := Failing(Claim(0, 1, 0), true)]);
  }

  lemma StrandingRun()
    ensures Run(STRANDING) == Failed0()
    ensures Stranded(Run(STRANDING + [Crash(0)]), 0)
  {
    RunAppendsFour([], STRANDING[0], STRANDING[1], STRANDING[2], STRANDING[3]);
    assert [] + [STRANDING[0], STRANDING[1], STRANDING[2], STRANDING[3]] == STRANDING;
    ClaimedFirst();
    ThenFailed();
    assert Run([]) == INITIAL;
    RequeueOrStrand(STRANDING, 0, 0);
  }
}
