// What the deadline of a lease is worth (queue_repository.py), in every run of
// the suggestion workers: until it passes only the holder can end the lease, and
// once it has passed the holder can do nothing more.
module LeaseDeadlines {
  import opened Wrappers
  import opened SuggestionWorker

  // The job is leased under the claim until the deadline.
  ghost predicate LeasedUntil(s: State, claim: Claim, deadline: nat) {
    && claim.job in s.jobs
    && var job := s.jobs[claim.job];
       && job.state == Running && job.generation == claim.generation && job.token == Some(claim.token)
       && job.until == deadline
  }

  // The deadline has passed, and the job is still leased under the claim or was
  // leased again.
  ghost predicate Lapsed(s: State, claim: Claim) {
    && claim.job in s.jobs
    && var job := s.jobs[claim.job];
       claim.generation < job.generation
       || (claim.generation == job.generation && job.state == Running && job.until <= s.now)
  }

  // ---------- What a step may do to jobs, time and completions

  lemma {:induction false} InsertingLeavesQueue(s: State, snapshot: nat, proposals: seq<Proposal>)
    ensures var next := InsertSuggestions(s, snapshot, proposals);
            next.jobs == s.jobs && next.now == s.now && next.completions == s.completions
  {
    if proposals != [] {
      InsertingLeavesQueue(s, snapshot, proposals[..|proposals| - 1]);
    }
  }

  // A job changes by a claim that finds it pending or lapsed, by its holder's
  // completion before the deadline, or by a requeue.
  ghost predicate JobMoves(s: State, next: State, id: JobId) {
    || (id in s.jobs && id in next.jobs && next.jobs[id] == s.jobs[id])
    || id !in s.jobs
    || (Claimable(s, id) && id in next.jobs && next.jobs[id].generation > s.jobs[id].generation)
    || (next.completions != s.completions && CompletedUnder(s, next, id))
    || (s.jobs[id].state == FailedRetryable && id in next.jobs
        && next.jobs[id].generation == s.jobs[id].generation)
  }

  ghost predicate CompletedUnder(s: State, next: State, id: JobId) {
    && next.completions != [] && next.completions[..|next.completions| - 1] == s.completions
    && var claim := next.completions[|next.completions| - 1];
       claim.job == id && Holds(s, claim)
  }

  ghost predicate Moves(s: State, next: State) {
    && s.now <= next.now && s.completions <= next.completions
    && forall id :: id in s.jobs ==> id in next.jobs && JobMoves(s, next, id)
  }

  lemma FinishMoves(s: State, claim: Claim, target: JobState, next: State)
    requires Holds(s, claim) && next.now == s.now
    requires next.jobs == Finish(s, claim, target).jobs && next.completions == s.completions + [claim]
    ensures Moves(s, next)
  {
    forall id | id in s.jobs
      ensures id in next.jobs && JobMoves(s, next, id)
    {
      if id == claim.job {
        assert CompletedUnder(s, next, id);
      }
    }
  }

  lemma CompletingMoves(s: State, worker: WorkerId)
    ensures Moves(s, DoComplete(s, worker))
  {
    if worker in s.workers && s.workers[worker].Completing? && Holds(s, s.workers[worker].claim) {
      var pc := s.workers[worker];
      var job, finished := s.jobs[pc.claim.job], Finish(Leave(s, worker), pc.claim, Succeeded);
      InsertingLeavesQueue(InsertDocument(finished, DocumentKey(job.session, job.snapshot), pc.execution.finalBlocks),
                           job.snapshot, pc.execution.proposals);
      FinishMoves(s, pc.claim, Succeeded, DoComplete(s, worker));
    }
  }

  lemma RecordingMoves(s: State, worker: WorkerId)
    ensures Moves(s, DoRecordFailure(s, worker))
  {
    var next := DoRecordFailure(s, worker);
    if worker in s.workers && s.workers[worker].Failing? && Holds(s, s.workers[worker].claim) {
      var pc := s.workers[worker];
      if pc.retryable {
        FinishMoves(s, pc.claim, FailedRetryable, next);
      } else if s.jobs[pc.claim.job].identityIsValid {
        FinishMoves(s, pc.claim, FailedTerminal, next);
      }
    }
  }

  lemma ClaimingMoves(s: State, worker: WorkerId, id: JobId, token: nat, leaseSeconds: nat)
    ensures Moves(s, DoClaim(s, worker, id, token, leaseSeconds))
  {
  }

  lemma StepMoves(s: State, e: Event)
    ensures Moves(s, Step(s, e))
  {
    match e
    case ClaimNext(worker, id, token, leaseSeconds) => ClaimingMoves(s, worker, id, token, leaseSeconds);
    case CompleteStep(worker) => CompletingMoves(s, worker);
    case FailStep(worker) => RecordingMoves(s, worker);
    case _ =>
  }

  // ---------- Before the deadline

  // In every run, until its deadline passes a lease stays as it is, unless the
  // worker that holds it completes the job: nobody else can claim the job.
  lemma {:induction false} LeaseIsRespected(events: seq<Event>, more: seq<Event>, claim: Claim, deadline: nat)
    requires LeasedUntil(Run(events), claim, deadline) && Run(events + more).now < deadline
    ensures claim !in Run(events).completions
    ensures LeasedUntil(Run(events + more), claim, deadline) || claim in Run(events + more).completions
  {
    RunKeepsInv(events);
    if more == [] {
      assert events + more == events;
    } else {
      var init, last := more[..|more| - 1], more[|more| - 1];
      var s := Run(events + init);
      assert events + more == events + init + [last];
      RunAppends(events + init, last);
      StepMoves(s, last);
      LeaseIsRespected(events, init, claim, deadline);
      LeaseMoves(s, Step(s, last), claim, deadline);
    }
  }

  lemma LeaseMoves(s: State, next: State, claim: Claim, deadline: nat)
    requires Moves(s, next) && next.now < deadline
    requires LeasedUntil(s, claim, deadline) || claim in s.completions
    ensures LeasedUntil(next, claim, deadline) || claim in next.completions
  {
    if claim in s.completions {
      var i :| 0 <= i < |s.completions| && s.completions[i] == claim;
      assert next.completions[i] == claim;
    } else {
      assert JobMoves(s, next, claim.job);
    }
  }

  // ---------- After the deadline

  lemma LapsedMoves(s: State, next: State, claim: Claim)
    requires Moves(s, next) && Lapsed(s, claim)
    requires JobsLater(s.jobs, next.jobs)
    ensures Lapsed(next, claim)
  {
    assert JobMoves(s, next, claim.job);
  }

  lemma {:induction false} LapsedForEver(events: seq<Event>, more: seq<Event>, claim: Claim)
    requires Lapsed(Run(events), claim)
    ensures Lapsed(Run(events + more), claim)
  {
    if more == [] {
      assert events + more == events;
    } else {
      var init, last := more[..|more| - 1], more[|more| - 1];
      var s := Run(events + init);
      assert events + more == events + init + [last];
      RunAppends(events + init, last);
      RunKeepsInv(events + init);
      StepIsLater(s, last);
      StepMoves(s, last);
      LapsedForEver(events, init, claim);
      LapsedMoves(s, Step(s, last), claim);
    }
  }

  // In every run, once a lease has lapsed, taken over or not, a worker that still
  // has its claim can do nothing any more.
  lemma LapsedWorkerHasNoEffect(events: seq<Event>, more: seq<Event>, worker: WorkerId, claim: Claim)
    requires Lapsed(Run(events), claim)
    requires worker in Run(events + more).workers && Run(events + more).workers[worker].claim == claim
    ensures !Holds(Run(events + more), claim) && NoEffect(Run(events + more), worker)
  {
    LapsedForEver(events, more, claim);
  }
}
