// The fenced suggestion worker (automatic_report_suggestions.py) over the lease
// queue (queue_repository.py): any number of workers, crashes at any point,
// leases that expire, and members who edit merged documents meanwhile.
module SuggestionWorker {
  import opened Wrappers

  const MAX_PROVIDER_ATTEMPTS: nat := 3

  type JobId = nat
  type WorkerId = nat

  datatype JobState = Pending | Running | Succeeded | FailedRetryable | FailedTerminal

  // identityIsValid says whether the payload names a snapshot and a pipeline.
  datatype Job = Job(identityIsValid: bool, snapshot: nat, session: nat, state: JobState, generation: nat,
                     token: Option<nat>, until: nat)

  datatype Claim = Claim(job: JobId, generation: nat, token: nat)

  datatype Proposal = Proposal(comparisonKey: string, text: string)

  datatype Execution = Execution(proposals: seq<Proposal>, finalBlocks: seq<string>)

  // Where run_once stands.
  datatype Pc = Executing(claim: Claim) | Completing(claim: Claim, execution: Execution)
              | Failing(claim: Claim, retryable: bool) | Requeuing(claim: Claim)

  datatype SessionState = Ready | NeedsAttention | OtherState

  // A suggestion is identified by its snapshot and comparison key, from which
  // its id is derived.
  datatype SuggestionKey = SuggestionKey(snapshot: nat, comparisonKey: string)

  datatype DocumentKey = DocumentKey(session: nat, snapshot: nat)

  // requeues lists, per job, the generations at which run_once requeued it;
  // completions lists the claims whose completion took effect.
  datatype State = State(now: nat, jobs: map<JobId, Job>, workers: map<WorkerId, Pc>,
                         suggestions: map<SuggestionKey, string>, created: seq<SuggestionKey>,
                         documents: map<DocumentKey, seq<string>>, sessions: map<nat, SessionState>,
                         requeues: map<JobId, seq<nat>>, completions: seq<Claim>)

  datatype Event =
    | Tick(seconds: nat)
    | Enqueue(id: JobId, identityIsValid: bool, snapshot: nat, session: nat)
    | ClaimNext(worker: WorkerId, id: JobId, token: nat, leaseSeconds: nat)
    | ExecuteReturns(worker: WorkerId, execution: Execution)
    | ExecuteFails(worker: WorkerId, providerSaysRetry: bool)
    | CompleteStep(worker: WorkerId)
    | FailStep(worker: WorkerId)
    | RequeueStep(worker: WorkerId)
    | Crash(worker: WorkerId)
    | EditDocument(key: DocumentKey, blocks: seq<string>)
    | ChangeSession(session: nat, to: SessionState)

  const INITIAL: State := State(0, map[], map[], map[], [], map[], map[], map[], [])

  // ---------- Queue

  predicate Claimable(s: State, id: JobId) {
    id in s.jobs && (s.jobs[id].state == Pending || (s.jobs[id].state == Running && s.jobs[id].until <= s.now))
  }

  // The compare-and-set of a completion: running, same generation and token,
  // lease not expired.
  predicate Holds(s: State, claim: Claim) {
    && claim.job in s.jobs
    && var job := s.jobs[claim.job];
       job.state == Running && job.generation == claim.generation && job.token == Some(claim.token) && job.until > s.now
  }

  function Finish(s: State, claim: Claim, target: JobState): State
    requires claim.job in s.jobs
  {
    s.(jobs := s.jobs[claim.job := s.jobs[claim.job].(state := target, token := None, until := 0)],
       completions := s.completions + [claim])
  }

  function Leave(s: State, worker: WorkerId): State {
    s.(workers := s.workers - {worker})
  }

  // ---------- Effects

  // Insert each proposal unless its snapshot and key are taken; one created
  // event for each one inserted.
  function InsertSuggestions(s: State, snapshot: nat, proposals: seq<Proposal>): State {
    if proposals == [] then s
    else
      var before, p := InsertSuggestions(s, snapshot, proposals[..|proposals| - 1]), proposals[|proposals| - 1];
      var key := SuggestionKey(snapshot, p.comparisonKey);
      if key in before.suggestions then before
      else before.(suggestions := before.suggestions[key := p.text], created := before.created + [key])
  }

  function InsertDocument(s: State, key: DocumentKey, blocks: seq<string>): State {
    if blocks == [] || key in s.documents then s else s.(documents := s.documents[key := blocks])
  }

  function CompletionEffect(s: State, job: Job, execution: Execution): State {
    InsertSuggestions(InsertDocument(s, DocumentKey(job.session, job.snapshot), execution.finalBlocks),
                      job.snapshot, execution.proposals)
  }

  function AttentionEffect(s: State, job: Job): State {
    if job.session in s.sessions && s.sessions[job.session] == Ready
    then s.(sessions := s.sessions[job.session := NeedsAttention]) else s
  }

  // ---------- Steps

  function DoClaim(s: State, worker: WorkerId, id: JobId, token: nat, leaseSeconds: nat): State {
    if worker in s.workers || !Claimable(s, id) || leaseSeconds < 1 then s
    else
      var generation := s.jobs[id].generation + 1;
      s.(jobs := s.jobs[id := s.jobs[id].(state := Running, generation := generation, token := Some(token),
                                          until := s.now + leaseSeconds)],
         workers := s.workers[worker := Executing(Claim(id, generation, token))])
  }

  // The runner reads the identity first: an invalid one is a terminal failure.
  function DoReturn(s: State, worker: WorkerId, execution: Execution): State {
    if worker in s.workers && s.workers[worker].Executing? then
      var claim := s.workers[worker].claim;
      if claim.job in s.jobs && s.jobs[claim.job].identityIsValid
      then s.(workers := s.workers[worker := Completing(claim, execution)])
      else s.(workers := s.workers[worker := Failing(claim, false)])
    else s
  }

  function DoFail(s: State, worker: WorkerId, providerSaysRetry: bool): State {
    if worker in s.workers && s.workers[worker].Executing? then
      var claim := s.workers[worker].claim;
      var retryable := providerSaysRetry && claim.job in s.jobs && s.jobs[claim.job].identityIsValid
                       && claim.generation < MAX_PROVIDER_ATTEMPTS;
      s.(workers := s.workers[worker := Failing(claim, retryable)])
    else s
  }

  function DoComplete(s: State, worker: WorkerId): State {
    if worker in s.workers && s.workers[worker].Completing? then
      var pc := s.workers[worker];
      var left := Leave(s, worker);
      if !Holds(s, pc.claim) then left
      else CompletionEffect(Finish(left, pc.claim, Succeeded), s.jobs[pc.claim.job], pc.execution)
    else s
  }

  // Building the attention effect reads the identity again, so an invalid one
  // raises here, before the job is completed.
  function DoRecordFailure(s: State, worker: WorkerId): State {
    if worker in s.workers && s.workers[worker].Failing? then
      var pc := s.workers[worker];
      var left := Leave(s, worker);
      if !Holds(s, pc.claim) then left
      else if pc.retryable
      then Finish(s, pc.claim, FailedRetryable).(workers := s.workers[worker := Requeuing(pc.claim)])
      else if !s.jobs[pc.claim.job].identityIsValid then left
      else AttentionEffect(Finish(left, pc.claim, FailedTerminal), s.jobs[pc.claim.job])
    else s
  }

  function RequeuesOf(s: State, id: JobId): seq<nat> {
    if id in s.requeues then s.requeues[id] else []
  }

  function DoRequeue(s: State, worker: WorkerId): State {
    if worker in s.workers && s.workers[worker].Requeuing? then
      var claim := s.workers[worker].claim;
      var left := Leave(s, worker);
      if claim.job in s.jobs && s.jobs[claim.job].state == FailedRetryable
         && s.jobs[claim.job].generation == claim.generation && s.jobs[claim.job].token == None
      then left.(jobs := s.jobs[claim.job := s.jobs[claim.job].(state := Pending)],
                 requeues := s.requeues[claim.job := RequeuesOf(s, claim.job) + [claim.generation]])
      else left
    else s
  }

  function Step(s: State, e: Event): State {
    match e
    case Tick(seconds) => s.(now := s.now + seconds)
    case Enqueue(id, valid, snapshot, session) =>
      if id in s.jobs then s else s.(jobs := s.jobs[id := Job(valid, snapshot, session, Pending, 0, None, 0)])
    case ClaimNext(worker, id, token, leaseSeconds) => DoClaim(s, worker, id, token, leaseSeconds)
    case ExecuteReturns(worker, execution) => DoReturn(s, worker, execution)
    case ExecuteFails(worker, providerSaysRetry) => DoFail(s, worker, providerSaysRetry)
    case CompleteStep(worker) => DoComplete(s, worker)
    case FailStep(worker) => DoRecordFailure(s, worker)
    case RequeueStep(worker) => DoRequeue(s, worker)
    case Crash(worker) => Leave(s, worker)
    case EditDocument(key, blocks) => s.(documents := s.documents[key := blocks])
    case ChangeSession(session, to) => s.(sessions := s.sessions[session := to])
  }

  function Run(events: seq<Event>): State {
    if events == [] then INITIAL else Step(Run(events[..|events| - 1]), events[|events| - 1])
  }

  lemma RunAppends(events: seq<Event>, e: Event)
    ensures Run(events + [e]) == Step(Run(events), e)
  {
    assert (events + [e])[..|events|] == events;
  }

  // ---------- Invariant

  ghost predicate Ascending(s: seq<nat>) {
    forall i, j :: 0 <= i < j < |s| ==> s[i] < s[j]
  }

  // A job's requeues happened at growing generations below the attempt limit,
  // the last one before the current generation unless it waits to be claimed.
  ghost predicate RequeuedBy(job: Job, generations: seq<nat>) {
    && Ascending(generations)
    && forall g :: g in generations ==>
         1 <= g < MAX_PROVIDER_ATTEMPTS && (if job.state == Pending then g <= job.generation else g < job.generation)
  }

  ghost predicate RequeuesInv(jobs: map<JobId, Job>, requeues: map<JobId, seq<nat>>) {
    forall id :: id in requeues ==> id in jobs && RequeuedBy(jobs[id], requeues[id])
  }

  // Claims were handed out by the queue, and each place implies its guards.
  ghost predicate PcInv(jobs: map<JobId, Job>, pc: Pc) {
    && pc.claim.job in jobs && 1 <= pc.claim.generation <= jobs[pc.claim.job].generation
    && (pc.Requeuing? || (pc.Failing? && pc.retryable) ==> pc.claim.generation < MAX_PROVIDER_ATTEMPTS)
    && (pc.Completing? || pc.Requeuing? || (pc.Failing? && pc.retryable) ==> jobs[pc.claim.job].identityIsValid)
  }

  ghost predicate WorkersInv(jobs: map<JobId, Job>, workers: map<WorkerId, Pc>) {
    forall w :: w in workers ==> PcInv(jobs, workers[w])
  }

  // A suggestion has exactly one created event.
  ghost predicate CreatedInv(suggestions: map<SuggestionKey, string>, created: seq<SuggestionKey>) {
    && (forall i, j :: 0 <= i < j < |created| ==> created[i] != created[j])
    && (forall k :: k in created <==> k in suggestions)
  }

  // Completions of one job took effect at growing generations, all before the
  // current one while it runs; a finished job is not completed again.
  ghost predicate CompletionsInv(jobs: map<JobId, Job>, completions: seq<Claim>) {
    && (forall c :: c in completions ==> c.job in jobs && CompletedBefore(jobs[c.job], c))
    && (forall i, j :: 0 <= i < j < |completions| && completions[i].job == completions[j].job ==>
          completions[i].generation < completions[j].generation)
  }

  ghost predicate CompletedBefore(job: Job, c: Claim) {
    if job.state == Running then c.generation < job.generation else c.generation <= job.generation
  }

  // A job without a valid identity is pending or running for ever.
  ghost predicate PoisonInv(jobs: map<JobId, Job>) {
    forall id :: id in jobs && !jobs[id].identityIsValid ==> jobs[id].state == Pending || jobs[id].state == Running
  }

  ghost predicate JobsInv(s: State) {
    RequeuesInv(s.jobs, s.requeues) && CompletionsInv(s.jobs, s.completions) && PoisonInv(s.jobs)
  }

  ghost predicate Inv(s: State) {
    JobsInv(s) && WorkersInv(s.jobs, s.workers) && CreatedInv(s.suggestions, s.created)
  }

  // Jobs stay, keep their identity, and their generation never falls.
  ghost predicate JobsLater(jobs: map<JobId, Job>, next: map<JobId, Job>) {
    forall id :: id in jobs ==>
      && id in next && next[id].generation >= jobs[id].generation
      && next[id].identityIsValid == jobs[id].identityIsValid
      && next[id].snapshot == jobs[id].snapshot && next[id].session == jobs[id].session
  }

  // Only one worker moves in a step.
  lemma OneWorkerMoves(jobs: map<JobId, Job>, workers: map<WorkerId, Pc>, next: map<JobId, Job>,
                       moved: map<WorkerId, Pc>, worker: WorkerId)
    requires WorkersInv(jobs, workers) && JobsLater(jobs, next)
    requires forall w :: w in moved && w != worker ==> w in workers && moved[w] == workers[w]
    requires worker in moved ==> PcInv(next, moved[worker])
    ensures WorkersInv(next, moved)
  {
    forall w | w in moved
      ensures PcInv(next, moved[w])
    {
      if w != worker {
        assert PcInv(jobs, workers[w]);
      }
    }
  }

  // ---------- The queue steps on jobs

  lemma ClaimKeepsJobs(s: State, worker: WorkerId, id: JobId, token: nat, leaseSeconds: nat)
    requires JobsInv(s)
    ensures JobsInv(DoClaim(s, worker, id, token, leaseSeconds))
    ensures JobsLater(s.jobs, DoClaim(s, worker, id, token, leaseSeconds).jobs)
  {
  }

  lemma FinishKeepsJobs(s: State, claim: Claim, target: JobState)
    requires JobsInv(s) && Holds(s, claim) && s.jobs[claim.job].identityIsValid
    requires target == Succeeded || target == FailedRetryable || target == FailedTerminal
    ensures JobsInv(Finish(s, claim, target)) && JobsLater(s.jobs, Finish(s, claim, target).jobs)
  {
  }

  // One more requeue, at the generation of a job that failed retryably.
  lemma OneMoreRequeue(job: Job, before: seq<nat>)
    requires RequeuedBy(job, before) && job.state == FailedRetryable && 1 <= job.generation < MAX_PROVIDER_ATTEMPTS
    ensures RequeuedBy(job.(state := Pending), before + [job.generation])
  {
    assert forall k :: 0 <= k < |before| ==> before[k] in before;
  }

  lemma RequeueKeepsRequeues(s: State, claim: Claim, next: Job)
    requires RequeuesInv(s.jobs, s.requeues) && claim.job in s.jobs
    requires RequeuedBy(next, RequeuesOf(s, claim.job) + [claim.generation])
    ensures RequeuesInv(s.jobs[claim.job := next],
                        s.requeues[claim.job := RequeuesOf(s, claim.job) + [claim.generation]])
  {
  }

  lemma RequeueKeepsJobs(s: State, worker: WorkerId)
    requires Inv(s)
    ensures JobsInv(DoRequeue(s, worker)) && JobsLater(s.jobs, DoRequeue(s, worker).jobs)
  {
    if worker in s.workers && s.workers[worker].Requeuing? {
      var claim := s.workers[worker].claim;
      assert PcInv(s.jobs, s.workers[worker]);
      var job := s.jobs[claim.job];
      if job.state == FailedRetryable && job.generation == claim.generation && job.token == None {
        OneMoreRequeue(job, RequeuesOf(s, claim.job));
        RequeueKeepsRequeues(s, claim, job.(state := Pending));
        PendingKeepsTheRest(s.jobs, s.completions, claim.job);
      }
    }
  }

  lemma PendingKeepsTheRest(jobs: map<JobId, Job>, completions: seq<Claim>, id: JobId)
    requires CompletionsInv(jobs, completions) && PoisonInv(jobs) && id in jobs && jobs[id].state != Running
    ensures var next := jobs[id := jobs[id].(state := Pending)];
            CompletionsInv(next, completions) && PoisonInv(next) && JobsLater(jobs, next)
  {
  }

  // ---------- What the effects leave alone

  lemma InsertOne(s: State, key: SuggestionKey, text: string)
    requires CreatedInv(s.suggestions, s.created) && key !in s.suggestions
    ensures CreatedInv(s.suggestions[key := text], s.created + [key])
  {
    var more := s.created + [key];
    assert forall k :: 0 <= k < |s.created| ==> s.created[k] in s.created;
    assert forall k :: k in more <==> k in s.created || k == key;
  }

  lemma {:induction false} SuggestionsOnlyGrow(s: State, snapshot: nat, proposals: seq<Proposal>)
    requires CreatedInv(s.suggestions, s.created)
    ensures var next := InsertSuggestions(s, snapshot, proposals);
            && CreatedInv(next.suggestions, next.created)
            && next == s.(suggestions := next.suggestions, created := next.created)
            && (forall k :: k in s.suggestions ==> k in next.suggestions && next.suggestions[k] == s.suggestions[k])
            && s.created <= next.created
  {
    if proposals != [] {
      var before, p := InsertSuggestions(s, snapshot, proposals[..|proposals| - 1]), proposals[|proposals| - 1];
      SuggestionsOnlyGrow(s, snapshot, proposals[..|proposals| - 1]);
      if SuggestionKey(snapshot, p.comparisonKey) !in before.suggestions {
        InsertOne(before, SuggestionKey(snapshot, p.comparisonKey), p.text);
      }
    }
  }

  // Every proposal finds or leaves a suggestion under its key, and no other
  // key is added.
  lemma {:induction false} SuggestionsAreThoseProposed(s: State, snapshot: nat, proposals: seq<Proposal>,
                                                       k: SuggestionKey)
    ensures k in InsertSuggestions(s, snapshot, proposals).suggestions <==>
            k in s.suggestions || exists p :: p in proposals && k == SuggestionKey(snapshot, p.comparisonKey)
  {
    if proposals != [] {
      var rest, last := proposals[..|proposals| - 1], proposals[|proposals| - 1];
      SuggestionsAreThoseProposed(s, snapshot, rest, k);
      assert proposals == rest + [last];
      assert last in proposals && forall p :: p in proposals <==> p in rest || p == last;
    }
  }

  // Completing touches suggestions and documents only, and overwrites nothing.
  lemma EffectOnlyAdds(s: State, job: Job, execution: Execution)
    requires CreatedInv(s.suggestions, s.created)
    ensures var next := CompletionEffect(s, job, execution);
            && CreatedInv(next.suggestions, next.created)
            && next == s.(suggestions := next.suggestions, created := next.created, documents := next.documents)
            && (forall k :: k in s.suggestions ==> k in next.suggestions && next.suggestions[k] == s.suggestions[k])
            && (forall k :: k in s.documents ==> k in next.documents && next.documents[k] == s.documents[k])
            && s.created <= next.created
  {
    var stored := InsertDocument(s, DocumentKey(job.session, job.snapshot), execution.finalBlocks);
    SuggestionsOnlyGrow(stored, job.snapshot, execution.proposals);
  }

  // ---------- Every step keeps the invariant

  lemma ClaimKeepsInv(s: State, worker: WorkerId, id: JobId, token: nat, leaseSeconds: nat)
    requires Inv(s)
    ensures Inv(DoClaim(s, worker, id, token, leaseSeconds))
  {
    var next := DoClaim(s, worker, id, token, leaseSeconds);
    ClaimKeepsJobs(s, worker, id, token, leaseSeconds);
    OneWorkerMoves(s.jobs, s.workers, next.jobs, next.workers, worker);
  }

  // A step that moves only one worker.
  lemma MoveKeepsInv(s: State, worker: WorkerId, pc: Pc)
    requires Inv(s) && PcInv(s.jobs, pc)
    ensures Inv(s.(workers := s.workers[worker := pc]))
  {
  }

  lemma ReturnKeepsInv(s: State, worker: WorkerId, execution: Execution)
    requires Inv(s)
    ensures Inv(DoReturn(s, worker, execution))
  {
    if worker in s.workers && s.workers[worker].Executing? {
      assert PcInv(s.jobs, s.workers[worker]);
      MoveKeepsInv(s, worker, DoReturn(s, worker, execution).workers[worker]);
    }
  }

  lemma FailKeepsInv(s: State, worker: WorkerId, providerSaysRetry: bool)
    requires Inv(s)
    ensures Inv(DoFail(s, worker, providerSaysRetry))
  {
    if worker in s.workers && s.workers[worker].Executing? {
      assert PcInv(s.jobs, s.workers[worker]);
      MoveKeepsInv(s, worker, DoFail(s, worker, providerSaysRetry).workers[worker]);
    }
  }

  lemma LeaveKeepsInv(s: State, worker: WorkerId)
    requires Inv(s)
    ensures Inv(Leave(s, worker))
  {
    OneWorkerMoves(s.jobs, s.workers, s.jobs, Leave(s, worker).workers, worker);
  }

  lemma FinishKeepsInv(s: State, claim: Claim, target: JobState)
    requires Inv(s) && Holds(s, claim) && s.jobs[claim.job].identityIsValid
    requires target == Succeeded || target == FailedRetryable || target == FailedTerminal
    ensures Inv(Finish(s, claim, target))
  {
    FinishKeepsJobs(s, claim, target);
    WorkersStay(s.jobs, Finish(s, claim, target).jobs, s.workers);
  }

  lemma WorkersStay(jobs: map<JobId, Job>, next: map<JobId, Job>, workers: map<WorkerId, Pc>)
    requires WorkersInv(jobs, workers) && JobsLater(jobs, next)
    ensures WorkersInv(next, workers)
  {
    forall w | w in workers
      ensures PcInv(next, workers[w])
    {
      assert PcInv(jobs, workers[w]);
    }
  }

  lemma CompleteKeepsInv(s: State, worker: WorkerId)
    requires Inv(s)
    ensures Inv(DoComplete(s, worker))
  {
    LeaveKeepsInv(s, worker);
    if worker in s.workers && s.workers[worker].Completing? && Holds(s, s.workers[worker].claim) {
      var pc := s.workers[worker];
      assert PcInv(s.jobs, pc);
      FinishKeepsInv(Leave(s, worker), pc.claim, Succeeded);
      EffectOnlyAdds(Finish(Leave(s, worker), pc.claim, Succeeded), s.jobs[pc.claim.job], pc.execution);
    }
  }

  lemma RecordFailureKeepsInv(s: State, worker: WorkerId)
    requires Inv(s)
    ensures Inv(DoRecordFailure(s, worker))
  {
    LeaveKeepsInv(s, worker);
    if worker in s.workers && s.workers[worker].Failing? && Holds(s, s.workers[worker].claim) {
      var pc, next := s.workers[worker], DoRecordFailure(s, worker);
      assert PcInv(s.jobs, pc);
      if pc.retryable {
        FinishKeepsJobs(s, pc.claim, FailedRetryable);
        OneWorkerMoves(s.jobs, s.workers, next.jobs, next.workers, worker);
      } else if s.jobs[pc.claim.job].identityIsValid {
        FinishKeepsInv(Leave(s, worker), pc.claim, FailedTerminal);
      }
    }
  }

  lemma RequeueKeepsInv(s: State, worker: WorkerId)
    requires Inv(s)
    ensures Inv(DoRequeue(s, worker))
  {
    RequeueKeepsJobs(s, worker);
    WorkersStay(s.jobs, DoRequeue(s, worker).jobs, s.workers);
  }

  lemma EnqueueKeepsInv(s: State, id: JobId, job: Job)
    requires Inv(s) && id !in s.jobs && job.state == Pending
    ensures Inv(s.(jobs := s.jobs[id := job]))
  {
    WorkersStay(s.jobs, s.jobs[id := job], s.workers);
  }

  lemma StepKeepsInv(s: State, e: Event)
    requires Inv(s)
    ensures Inv(Step(s, e))
  {
    match e
    case Enqueue(id, valid, snapshot, session) =>
      if id !in s.jobs {
        EnqueueKeepsInv(s, id, Job(valid, snapshot, session, Pending, 0, None, 0));
      }
    case ClaimNext(worker, id, token, leaseSeconds) => ClaimKeepsInv(s, worker, id, token, leaseSeconds);
    case ExecuteReturns(worker, execution) => ReturnKeepsInv(s, worker, execution);
    case ExecuteFails(worker, providerSaysRetry) => FailKeepsInv(s, worker, providerSaysRetry);
    case CompleteStep(worker) => CompleteKeepsInv(s, worker);
    case FailStep(worker) => RecordFailureKeepsInv(s, worker);
    case RequeueStep(worker) => RequeueKeepsInv(s, worker);
    case Crash(worker) => LeaveKeepsInv(s, worker);
    case Tick(_) =>
    case EditDocument(_, _) =>
    case ChangeSession(_, _) =>
  }

  lemma {:induction false} RunKeepsInv(events: seq<Event>)
    ensures Inv(Run(events))
  {
    if events != [] {
      RunKeepsInv(events[..|events| - 1]);
      StepKeepsInv(Run(events[..|events| - 1]), events[|events| - 1]);
    }
  }

  // ---------- Main results

  // Jobs only grow older, in every step and so in every run.
  lemma FinishIsLater(s: State, claim: Claim, target: JobState)
    requires claim.job in s.jobs
    ensures JobsLater(s.jobs, Finish(s, claim, target).jobs)
  {
  }

  lemma CompletingIsLater(s: State, worker: WorkerId)
    requires Inv(s)
    ensures JobsLater(s.jobs, DoComplete(s, worker).jobs)
  {
    if worker in s.workers && s.workers[worker].Completing? && Holds(s, s.workers[worker].claim) {
      var pc := s.workers[worker];
      EffectOnlyAdds(Finish(Leave(s, worker), pc.claim, Succeeded), s.jobs[pc.claim.job], pc.execution);
      FinishIsLater(Leave(s, worker), pc.claim, Succeeded);
    }
  }

  lemma RecordingIsLater(s: State, worker: WorkerId)
    ensures JobsLater(s.jobs, DoRecordFailure(s, worker).jobs)
  {
    if worker in s.workers && s.workers[worker].Failing? && Holds(s, s.workers[worker].claim) {
      FinishIsLater(s, s.workers[worker].claim, FailedRetryable);
      FinishIsLater(Leave(s, worker), s.workers[worker].claim, FailedTerminal);
    }
  }

  lemma StepIsLater(s: State, e: Event)
    requires Inv(s)
    ensures JobsLater(s.jobs, Step(s, e).jobs)
  {
    match e
    case ClaimNext(worker, id, token, leaseSeconds) => ClaimKeepsJobs(s, worker, id, token, leaseSeconds);
    case CompleteStep(worker) => CompletingIsLater(s, worker);
    case FailStep(worker) => RecordingIsLater(s, worker);
    case RequeueStep(worker) => RequeueKeepsJobs(s, worker);
    case _ =>
  }

  lemma {:induction false} RunIsLater(events: seq<Event>, more: seq<Event>)
    ensures JobsLater(Run(events).jobs, Run(events + more).jobs)
  {
    if more == [] {
      assert events + more == events;
    } else {
      var init, last := events + more[..|more| - 1], more[|more| - 1];
      RunIsLater(events, more[..|more| - 1]);
      RunKeepsInv(init);
      StepIsLater(Run(init), last);
      RunAppends(init, last);
      assert events + more == init + [last];
    }
  }

  // The worker's claim is behind the job's lease.
  ghost predicate Behind(s: State, claim: Claim) {
    claim.job in s.jobs && claim.generation < s.jobs[claim.job].generation
  }

  // Whatever the worker was about to do leaves everything but its place.
  ghost predicate NoEffect(s: State, worker: WorkerId) {
    && (DoComplete(s, worker) == s || DoComplete(s, worker) == Leave(s, worker))
    && (DoRecordFailure(s, worker) == s || DoRecordFailure(s, worker) == Leave(s, worker))
    && (DoRequeue(s, worker) == s || DoRequeue(s, worker) == Leave(s, worker))
  }

  // Once a job has been leased again, and however that lease ended, a worker
  // that still has the older claim is behind for good and has no effect.
  lemma StaleWorkerHasNoEffect(events: seq<Event>, more: seq<Event>, worker: WorkerId, claim: Claim)
    requires Behind(Run(events), claim)
    requires worker in Run(events + more).workers && Run(events + more).workers[worker].claim == claim
    ensures Behind(Run(events + more), claim) && NoEffect(Run(events + more), worker)
  {
    RunIsLater(events, more);
  }

  ghost predicate SameLease(a: Claim, b: Claim) {
    a.job == b.job && a.generation == b.generation
  }

  // No two workers were handed the same lease.
  ghost predicate DistinctClaims(workers: map<WorkerId, Pc>) {
    forall v, w :: v in workers && w in workers && v != w ==> !SameLease(workers[v].claim, workers[w].claim)
  }

  // A step that hands out no lease only moves or removes workers.
  ghost predicate NoNewClaim(workers: map<WorkerId, Pc>, next: map<WorkerId, Pc>) {
    forall w :: w in next ==> w in workers && next[w].claim == workers[w].claim
  }

  lemma OthersHandOutNothing(s: State, e: Event)
    requires !e.ClaimNext?
    ensures NoNewClaim(s.workers, Step(s, e).workers)
  {
    match e
    case CompleteStep(worker) => CompletingOnlyLeaves(s, worker);
    case FailStep(worker) => FailingKeepsClaims(s, worker);
    case _ =>
  }

  lemma FailingKeepsClaims(s: State, worker: WorkerId)
    ensures NoNewClaim(s.workers, DoRecordFailure(s, worker).workers)
  {
  }

  lemma {:induction false} InsertingMovesNoWorker(s: State, snapshot: nat, proposals: seq<Proposal>)
    ensures InsertSuggestions(s, snapshot, proposals).workers == s.workers
  {
    if proposals != [] {
      InsertingMovesNoWorker(s, snapshot, proposals[..|proposals| - 1]);
    }
  }

  lemma CompletingOnlyLeaves(s: State, worker: WorkerId)
    ensures DoComplete(s, worker).workers == s.workers || DoComplete(s, worker).workers == s.workers - {worker}
  {
    if worker in s.workers && s.workers[worker].Completing? && Holds(s, s.workers[worker].claim) {
      var pc := s.workers[worker];
      var job, finished := s.jobs[pc.claim.job], Finish(Leave(s, worker), pc.claim, Succeeded);
      InsertingMovesNoWorker(InsertDocument(finished, DocumentKey(job.session, job.snapshot), pc.execution.finalBlocks),
                             job.snapshot, pc.execution.proposals);
    }
  }

  lemma ClaimIsNew(s: State, worker: WorkerId, id: JobId, token: nat, leaseSeconds: nat)
    requires Inv(s) && DistinctClaims(s.workers)
    ensures DistinctClaims(DoClaim(s, worker, id, token, leaseSeconds).workers)
  {
    forall w | w in s.workers
      ensures w in s.workers && s.workers[w].claim.job == id && id in s.jobs ==>
          s.workers[w].claim.generation <= s.jobs[id].generation
    {
      assert PcInv(s.jobs, s.workers[w]);
    }
  }

  lemma {:induction false} ClaimsAreDistinct(events: seq<Event>)
    ensures DistinctClaims(Run(events).workers)
  {
    if events != [] {
      var init, e := events[..|events| - 1], events[|events| - 1];
      ClaimsAreDistinct(init);
      RunKeepsInv(init);
      if e.ClaimNext? {
        ClaimIsNew(Run(init), e.worker, e.id, e.token, e.leaseSeconds);
      } else {
        OthersHandOutNothing(Run(init), e);
      }
    }
  }

  // In every run at most one worker holds a job's lease: while one does,
  // nothing another one does for that job has an effect.
  lemma OneHolderPerJob(events: seq<Event>, holder: WorkerId, other: WorkerId)
    requires var workers := Run(events).workers;
             && holder in workers && other in workers && holder != other
             && workers[holder].claim.job == workers[other].claim.job && Holds(Run(events), workers[holder].claim)
    ensures var s := Run(events);
            !Holds(s, s.workers[other].claim) && NoEffect(s, other)
  {
    ClaimsAreDistinct(events);
    var s := Run(events);
    assert !SameLease(s.workers[holder].claim, s.workers[other].claim);
  }

  // Recording a failure touches neither suggestions nor documents.
  lemma RecordFailureLeavesResults(s: State, worker: WorkerId)
    ensures var next := DoRecordFailure(s, worker);
            next == s.(jobs := next.jobs, workers := next.workers, sessions := next.sessions,
                       completions := next.completions)
  {
  }

  // Every step but a completion leaves suggestions and their events alone.
  lemma OthersLeaveSuggestions(s: State, e: Event)
    requires !e.CompleteStep?
    ensures Step(s, e).suggestions == s.suggestions && Step(s, e).created == s.created
  {
    match e
    case FailStep(worker) => RecordFailureLeavesResults(s, worker);
    case _ =>
  }

  // Each snapshot and comparison key has at most one suggestion, which never
  // changes, and exactly one created event.
  lemma OneSuggestionPerKey(events: seq<Event>, e: Event)
    ensures var s, next := Run(events), Step(Run(events), e);
            && (forall i, j :: 0 <= i < j < |s.created| ==> s.created[i] != s.created[j])
            && (forall k :: k in s.created <==> k in s.suggestions)
            && (forall k :: k in s.suggestions ==> k in next.suggestions && next.suggestions[k] == s.suggestions[k])
            && s.created <= next.created
  {
    RunKeepsInv(events);
    if e.CompleteStep? {
      CompleteOnlyAdds(Run(events), e.worker);
    } else {
      OthersLeaveSuggestions(Run(events), e);
    }
  }

  lemma CompleteOnlyAdds(s: State, worker: WorkerId)
    requires Inv(s)
    ensures var next := DoComplete(s, worker);
            && (forall k :: k in s.suggestions ==> k in next.suggestions && next.suggestions[k] == s.suggestions[k])
            && (forall k :: k in s.documents ==> k in next.documents && next.documents[k] == s.documents[k])
            && s.created <= next.created && next.sessions == s.sessions
  {
    if worker in s.workers && s.workers[worker].Completing? && Holds(s, s.workers[worker].claim) {
      var pc := s.workers[worker];
      EffectOnlyAdds(Finish(Leave(s, worker), pc.claim, Succeeded), s.jobs[pc.claim.job], pc.execution);
    }
  }

  // Every step but a completion and a member's edit leaves documents alone.
  lemma OthersLeaveDocuments(s: State, e: Event)
    requires !e.CompleteStep? && !e.EditDocument?
    ensures Step(s, e).documents == s.documents
  {
    match e
    case FailStep(worker) => RecordFailureLeavesResults(s, worker);
    case _ =>
  }

  // No step but a member's edit changes a merged document that exists.
  lemma DocumentsAreNotOverwritten(events: seq<Event>, e: Event, key: DocumentKey)
    requires key in Run(events).documents && !(e.EditDocument? && e.key == key)
    ensures key in Step(Run(events), e).documents && Step(Run(events), e).documents[key] == Run(events).documents[key]
  {
    RunKeepsInv(events);
    if e.CompleteStep? {
      CompleteOnlyAdds(Run(events), e.worker);
    } else if !e.EditDocument? {
      OthersLeaveDocuments(Run(events), e);
    }
  }

  lemma {:induction false} AscendingAtLeast(r: seq<nat>, k: nat)
    requires Ascending(r) && k < |r| && forall g :: g in r ==> 1 <= g
    ensures k + 1 <= r[k]
  {
    if k == 0 {
      assert r[0] in r;
    } else {
      AscendingAtLeast(r, k - 1);
    }
  }

  // A job is requeued at most twice by the worker, in any run.
  lemma AtMostTwoRequeues(events: seq<Event>, id: JobId)
    ensures |RequeuesOf(Run(events), id)| <= 2
  {
    var s := Run(events);
    RunKeepsInv(events);
    if id in s.requeues && s.requeues[id] != [] {
      var r := s.requeues[id];
      assert RequeuedBy(s.jobs[id], r);
      assert r[|r| - 1] in r;
      AscendingAtLeast(r, |r| - 1);
    }
  }

  ghost predicate FailsTerminally(s: State, next: State, claim: Claim, session: nat) {
    && Holds(s, claim) && s.jobs[claim.job].session == session && claim.job in next.jobs
    && next.jobs[claim.job].state == FailedTerminal
  }

  // Recording a failure changes at most the session of the job that failed.
  lemma RecordFailureAndSessions(s: State, worker: WorkerId)
    ensures var next := DoRecordFailure(s, worker);
            next.sessions == s.sessions
            || (worker in s.workers && var session := SessionOf(s, s.workers[worker].claim);
                FailsTerminally(s, next, s.workers[worker].claim, session)
                && session in s.sessions && s.sessions[session] == Ready
                && next.sessions == s.sessions[session := NeedsAttention])
  {
  }

  function SessionOf(s: State, claim: Claim): nat {
    if claim.job in s.jobs then s.jobs[claim.job].session else 0
  }

  // Every other step of a worker or the queue leaves the sessions alone.
  lemma OthersLeaveSessions(s: State, e: Event)
    requires !e.ChangeSession? && !e.FailStep? && !e.CompleteStep?
    ensures Step(s, e).sessions == s.sessions
  {
  }

  // The worker moves a session only from ready to needs attention, and only
  // together with the terminal failure of the job it holds.
  lemma AttentionOnlyOnTerminalFailure(events: seq<Event>, e: Event, session: nat)
    requires !e.ChangeSession?
    requires session in Step(Run(events), e).sessions
    requires session !in Run(events).sessions || Step(Run(events), e).sessions[session] != Run(events).sessions[session]
    ensures var s, next := Run(events), Step(Run(events), e);
            && session in s.sessions && s.sessions[session] == Ready && next.sessions[session] == NeedsAttention
            && e.FailStep? && e.worker in s.workers && FailsTerminally(s, next, s.workers[e.worker].claim, session)
  {
    RunKeepsInv(events);
    if e.CompleteStep? {
      CompleteOnlyAdds(Run(events), e.worker);
    } else if e.FailStep? {
      RecordFailureAndSessions(Run(events), e.worker);
    } else {
      OthersLeaveSessions(Run(events), e);
    }
  }

  // Completions of one job take effect at distinct, growing generations.
  lemma OneCompletionPerLease(events: seq<Event>, i: nat, j: nat)
    requires i < j < |Run(events).completions| && Run(events).completions[i].job == Run(events).completions[j].job
    ensures Run(events).completions[i].generation < Run(events).completions[j].generation
  {
    RunKeepsInv(events);
  }

  // In every run, a worker with the current lease records its failure exactly
  // when the job's identity is valid.
  lemma FailureIsRecordedIff(events: seq<Event>, worker: WorkerId)
    requires worker in Run(events).workers && Run(events).workers[worker].Failing?
    requires Holds(Run(events), Run(events).workers[worker].claim)
    ensures var s := Run(events);
            var id := s.workers[worker].claim.job;
            var after := DoRecordFailure(s, worker).jobs[id].state;
            (after == FailedRetryable || after == FailedTerminal) <==> s.jobs[id].identityIsValid
  {
    RunKeepsInv(events);
    assert PcInv(Run(events).jobs, Run(events).workers[worker]);
  }

  // A job whose identity is invalid is never finished, in any run.
  lemma InvalidJobNeverFinishes(events: seq<Event>, id: JobId)
    requires id in Run(events).jobs && !Run(events).jobs[id].identityIsValid
    ensures Run(events).jobs[id].state == Pending || Run(events).jobs[id].state == Running
  {
    RunKeepsInv(events);
  }

  // ---------- A job that no run can finish is claimed without bound

  // One round: the lease is taken, the runner finds the identity invalid,
  // recording that raises, and the lease expires.
  const ROUND: seq<Event> := [ClaimNext(0, 0, 0, 1), ExecuteReturns(0, Execution([], [])), FailStep(0), Tick(1)]

  function InvalidJobRun(rounds: nat): seq<Event> {
    if rounds == 0 then [Enqueue(0, false, 0, 0)] else InvalidJobRun(rounds - 1) + ROUND
  }

  function AfterRounds(rounds: nat): State {
    INITIAL.(now := rounds, jobs := map[0 := if rounds == 0 then Job(false, 0, 0, Pending, 0, None, 0)
                                             else Job(false, 0, 0, Running, rounds, Some(0), rounds)])
  }

  lemma RunAppendsTwo(events: seq<Event>, a: Event, b: Event)
    ensures Run(events + [a, b]) == Step(Step(Run(events), a), b)
  {
    RunAppends(events, a);
    RunAppends(events + [a], b);
    assert events + [a, b] == events + [a] + [b];
  }

  lemma RunAppendsFour(events: seq<Event>, a: Event, b: Event, c: Event, d: Event)
    ensures Run(events + [a, b, c, d]) == Step(Step(Step(Step(Run(events), a), b), c), d)
  {
    RunAppendsTwo(events, a, b);
    RunAppendsTwo(events + [a, b], c, d);
    assert events + [a, b, c, d] == events + [a, b] + [c, d];
  }

  lemma RoundTakesTheNextLease(rounds: nat)
    ensures Step(Step(Step(Step(AfterRounds(rounds), ROUND[0]), ROUND[1]), ROUND[2]), ROUND[3])
        == AfterRounds(rounds + 1)
  {
    var s := AfterRounds(rounds);
    var claimed := Step(s, ROUND[0]);
    assert claimed == s.(jobs := map[0 := Job(false, 0, 0, Running, rounds + 1, Some(0), rounds + 1)],
                         workers := map[0 := Executing(Claim(0, rounds + 1, 0))]);
    var failing := Step(claimed, ROUND[1]);
    assert failing == claimed.(workers := map[0 := Failing(Claim(0, rounds + 1, 0), false)]);
    assert Step(failing, ROUND[2]) == claimed.(workers := map[]);
  }

  // The bound on requeues bounds no claims: for every number of rounds there is
  // a run after which a job with an invalid identity is at that lease
  // generation, still running, and was never requeued.
  lemma {:induction false} InvalidJobIsClaimedForEver(rounds: nat)
    ensures Run(InvalidJobRun(rounds)) == AfterRounds(rounds)
  {
    if rounds == 0 {
      assert Run([]) == INITIAL;
      RunAppends([], Enqueue(0, false, 0, 0));
    } else {
      InvalidJobIsClaimedForEver(rounds - 1);
      RunAppendsFour(InvalidJobRun(rounds - 1), ROUND[0], ROUND[1], ROUND[2], ROUND[3]);
      assert ROUND == [ROUND[0], ROUND[1], ROUND[2], ROUND[3]];
      RoundTakesTheNextLease(rounds - 1);
    }
  }
}
