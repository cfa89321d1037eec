// Bounded capture of two process pipes (sandbox_runner.py): two reader threads
// and a polling main thread, interleaved step by step.
module BoundedCapture {
  const MAX_CHUNK: nat := 65536

  datatype Stream = Stdout | Stderr

  // Where a reader stands: about to read; holding a chunk it has read; about to
  // name its overflow, to set the shared event, to set its completed event; done.
  datatype ReaderPc = Reading | Holding(chunk: seq<int>) | Naming | Signalling | Finishing | Done

  // data is everything the process writes to the pipe.
  datatype Reader = Reader(data: seq<int>, limit: int, consumed: nat, buffer: seq<int>, pc: ReaderPc, failed: bool)

  datatype Outcome = Overflow(named: Stream) | Captured | TimedOut

  datatype Cause = SawOverflow | SawCompletion | SawDeadline

  // The poller tests overflow, then the two completed events, then the clock,
  // and copies the buffers one after the other before it reads the code.
  datatype PollerPc =
    | TestOverflow
    | TestStdout
    | TestStderr
    | TestDeadline
    | CopyStdout(cause: Cause)
    | CopyStderr(cause: Cause, copied: seq<int>)
    | ReadCode(stdout: seq<int>, stderr: seq<int>)
    | Returned(stdout: seq<int>, stderr: seq<int>, outcome: Outcome)

  // Completed events are the readers that are done.
  datatype State = State(stdout: Reader, stderr: Reader, overflow: bool, codes: seq<Stream>, poller: PollerPc)

  datatype Read = Take(count: nat) | EndOfFile | Fail

  // One step of a reader, with what its read returns, or of the poller, with
  // what the clock says.
  datatype Event = ReaderStep(stream: Stream, read: Read) | PollerStep(late: bool)

  function Initial(stdout: seq<int>, stderr: seq<int>, stdoutLimit: int, stderrLimit: int): State {
    State(Reader(stdout, stdoutLimit, 0, [], Reading, false), Reader(stderr, stderrLimit, 0, [], Reading, false),
          false, [], TestOverflow)
  }

  function ReaderOf(s: State, stream: Stream): Reader {
    match stream case Stdout => s.stdout case Stderr => s.stderr
  }

  function Cap(limit: int): nat {
    if limit < 0 then 0 else limit
  }

  // What a reader does on its own state.
  function Advance(r: Reader, read: Read): Reader {
    match r.pc
    case Reading =>
      (match read
       case Take(n) =>
         if 0 < n <= MAX_CHUNK && r.consumed + n <= |r.data|
         then r.(pc := Holding(r.data[r.consumed..r.consumed + n]), consumed := r.consumed + n) else r
       case EndOfFile => if r.consumed == |r.data| then r.(pc := Finishing) else r
       case Fail => r.(pc := Finishing, failed := true))
    case Holding(chunk) =>
      var remaining := r.limit - |r.buffer|;
      if |chunk| > remaining
      then r.(buffer := r.buffer + chunk[..if remaining < 0 then 0 else remaining], pc := Naming)
      else r.(buffer := r.buffer + chunk, pc := Reading)
    case Naming => r.(pc := Signalling)
    case Signalling => r.(pc := Finishing)
    case Finishing => r.(pc := Done)
    case Done => r
  }

  function StepReader(s: State, stream: Stream, read: Read): State {
    var r := ReaderOf(s, stream);
    var moved := match stream
      case Stdout => s.(stdout := Advance(r, read))
      case Stderr => s.(stderr := Advance(r, read));
    if r.pc == Naming then moved.(codes := s.codes + [stream])
    else if r.pc == Signalling then moved.(overflow := true)
    else moved
  }

  function StepPoller(s: State, late: bool): State {
    match s.poller
    case TestOverflow => s.(poller := if s.overflow then CopyStdout(SawOverflow) else TestStdout)
    case TestStdout => s.(poller := if s.stdout.pc == Done then TestStderr else TestDeadline)
    case TestStderr => s.(poller := if s.stderr.pc == Done then CopyStdout(SawCompletion) else TestDeadline)
    case TestDeadline => s.(poller := if late then CopyStdout(SawDeadline) else TestOverflow)
    case CopyStdout(cause) => s.(poller := CopyStderr(cause, s.stdout.buffer))
    case CopyStderr(cause, copied) =>
      s.(poller := match cause
                   case SawOverflow => ReadCode(copied, s.stderr.buffer)
                   case SawCompletion => Returned(copied, s.stderr.buffer, Captured)
                   case SawDeadline => Returned(copied, s.stderr.buffer, TimedOut))
    case ReadCode(stdout, stderr) =>
      if s.codes != [] then s.(poller := Returned(stdout, stderr, Overflow(s.codes[0]))) else s
    case Returned(_, _, _) => s
  }

  function Step(s: State, e: Event): State {
    match e
    case ReaderStep(stream, read) => StepReader(s, stream, read)
    case PollerStep(late) => StepPoller(s, late)
  }

  function Run(s: State, events: seq<Event>): State {
    if events == [] then s else Step(Run(s, events[..|events| - 1]), events[|events| - 1])
  }

  // ---------- Invariant

  // The stream is longer than its limit and the buffer is full.
  ghost predicate Full(r: Reader) {
    |r.buffer| == Cap(r.limit) && |r.data| > Cap(r.limit)
  }

  ghost predicate ReaderInv(r: Reader) {
    && |r.buffer| <= r.consumed <= |r.data|
    && |r.buffer| <= Cap(r.limit)
    && r.buffer == r.data[..|r.buffer|]
    && match r.pc
       case Reading => r.consumed == |r.buffer|
       case Holding(chunk) => chunk == r.data[|r.buffer|..r.consumed] && chunk != []
       case Naming => Full(r)
       case Signalling => Full(r)
       case _ => r.failed || |r.buffer| == |r.data| || Full(r)
  }

  // The buffer is not touched any more.
  ghost predicate Settled(pc: ReaderPc) {
    pc == Signalling || pc == Finishing || pc == Done
  }

  // A reader that named its overflow is full and will not touch its buffer again.
  ghost predicate CodesInv(s: State) {
    && (forall c :: c in s.codes ==> Full(ReaderOf(s, c)) && Settled(ReaderOf(s, c).pc))
    && (s.stdout.pc == Signalling || s.stderr.pc == Signalling || s.overflow ==> s.codes != [])
  }

  // A copy taken for a cause: a prefix, and final where the cause promises it.
  ghost predicate CopyOf(s: State, stream: Stream, cause: Cause, copied: seq<int>) {
    var r := ReaderOf(s, stream);
    && copied <= r.buffer
    && (cause == SawCompletion ==> copied == r.buffer)
    && (cause == SawOverflow && s.codes != [] && s.codes[0] == stream ==> copied == r.buffer)
  }

  ghost predicate CauseInv(s: State, cause: Cause) {
    && (cause == SawOverflow ==> s.codes != [])
    && (cause == SawCompletion ==> s.stdout.pc == Done && s.stderr.pc == Done)
  }

  ghost predicate PollerInv(s: State) {
    match s.poller
    case TestStderr => s.stdout.pc == Done
    case CopyStdout(cause) => CauseInv(s, cause)
    case CopyStderr(cause, copied) => CauseInv(s, cause) && CopyOf(s, Stdout, cause, copied)
    case ReadCode(stdout, stderr) =>
      CauseInv(s, SawOverflow) && CopyOf(s, Stdout, SawOverflow, stdout) && CopyOf(s, Stderr, SawOverflow, stderr)
    case Returned(stdout, stderr, outcome) =>
      (match outcome
       case Overflow(named) => CauseInv(s, SawOverflow) && s.codes[0] == named
                               && CopyOf(s, Stdout, SawOverflow, stdout) && CopyOf(s, Stderr, SawOverflow, stderr)
       case Captured => CauseInv(s, SawCompletion)
                        && CopyOf(s, Stdout, SawCompletion, stdout) && CopyOf(s, Stderr, SawCompletion, stderr)
       case TimedOut => CopyOf(s, Stdout, SawDeadline, stdout) && CopyOf(s, Stderr, SawDeadline, stderr))
    case _ => true
  }

  ghost predicate Inv(s: State) {
    ReaderInv(s.stdout) && ReaderInv(s.stderr) && CodesInv(s) && PollerInv(s)
  }

  // Storing a chunk, or what fits of it, extends the prefix that was read.
  lemma StoredIsPrefix(r: Reader, chunk: seq<int>, n: nat)
    requires ReaderInv(r) && r.pc == Holding(chunk) && n <= |chunk|
    ensures |r.buffer| + n <= |r.data| && r.buffer + chunk[..n] == r.data[..|r.buffer| + n]
    ensures |r.buffer| + |chunk| == r.consumed
  {
    assert chunk[..n] == r.data[|r.buffer|..|r.buffer| + n];
  }

  lemma HoldingKeepsReader(r: Reader, read: Read)
    requires ReaderInv(r) && r.pc.Holding?
    ensures ReaderInv(Advance(r, read)) && r.buffer <= Advance(r, read).buffer
  {
    var chunk, remaining := r.pc.chunk, r.limit - |r.buffer|;
    StoredIsPrefix(r, chunk, |chunk|);
    assert chunk[..|chunk|] == chunk;
    if |chunk| > remaining {
      StoredIsPrefix(r, chunk, if remaining < 0 then 0 else remaining);
    }
  }

  lemma AdvanceKeepsReader(r: Reader, read: Read)
    requires ReaderInv(r)
    ensures ReaderInv(Advance(r, read))
    ensures r.buffer <= Advance(r, read).buffer
    ensures Advance(r, read).data == r.data && Advance(r, read).limit == r.limit
  {
    if r.pc.Holding? {
      HoldingKeepsReader(r, read);
    }
  }

  // How a reader may change from one state to the next.
  ghost predicate Later(r: Reader, next: Reader) {
    && r.buffer <= next.buffer
    && (Settled(r.pc) ==> next.buffer == r.buffer && Settled(next.pc))
    && (r.pc == Done ==> next.pc == Done)
    && (Full(r) ==> Full(next))
    && next.data == r.data && next.limit == r.limit
  }

  lemma AdvanceIsLater(r: Reader, read: Read)
    requires ReaderInv(r)
    ensures Later(r, Advance(r, read))
  {
    AdvanceKeepsReader(r, read);
  }

  // The readers and codes of the next state, for either stream.
  lemma ReaderStepFacts(s: State, stream: Stream, read: Read)
    requires Inv(s)
    ensures var next := StepReader(s, stream, read);
            && next.poller == s.poller && s.codes <= next.codes
            && Later(s.stdout, next.stdout) && Later(s.stderr, next.stderr)
            && ReaderInv(next.stdout) && ReaderInv(next.stderr)
  {
    AdvanceKeepsReader(ReaderOf(s, stream), read);
    AdvanceIsLater(ReaderOf(s, stream), read);
  }

  lemma ReaderStepKeepsCodes(s: State, stream: Stream, read: Read)
    requires Inv(s)
    ensures CodesInv(StepReader(s, stream, read))
  {
    var next := StepReader(s, stream, read);
    ReaderStepFacts(s, stream, read);
    forall c | c in next.codes
      ensures Full(ReaderOf(next, c)) && Settled(ReaderOf(next, c).pc)
    {
      if c !in s.codes {
        assert c == stream && ReaderOf(s, stream).pc == Naming;
      }
    }
  }

  lemma CopyKept(s: State, next: State, stream: Stream, cause: Cause, copied: seq<int>)
    requires Later(s.stdout, next.stdout) && Later(s.stderr, next.stderr) && s.codes <= next.codes
    requires CodesInv(s) && CauseInv(s, cause) && CopyOf(s, stream, cause, copied)
    ensures CopyOf(next, stream, cause, copied)
  {
    if s.codes != [] {
      assert s.codes[0] in s.codes && next.codes[0] == s.codes[0];
    }
  }

  lemma PollerInvKept(s: State, next: State)
    requires Later(s.stdout, next.stdout) && Later(s.stderr, next.stderr) && s.codes <= next.codes
    requires CodesInv(s) && PollerInv(s) && next.poller == s.poller
    ensures PollerInv(next)
  {
    match s.poller
    case CopyStderr(cause, copied) => CopyKept(s, next, Stdout, cause, copied);
    case ReadCode(stdout, stderr) =>
      CopyKept(s, next, Stdout, SawOverflow, stdout);
      CopyKept(s, next, Stderr, SawOverflow, stderr);
    case Returned(stdout, stderr, outcome) =>
      var cause := match outcome
        case Overflow(_) => SawOverflow
        case Captured => SawCompletion
        case TimedOut => SawDeadline;
      CopyKept(s, next, Stdout, cause, stdout);
      CopyKept(s, next, Stderr, cause, stderr);
    case _ =>
  }

  lemma ReaderStepKeepsInv(s: State, stream: Stream, read: Read)
    requires Inv(s)
    ensures Inv(StepReader(s, stream, read))
  {
    ReaderStepFacts(s, stream, read);
    ReaderStepKeepsCodes(s, stream, read);
    PollerInvKept(s, StepReader(s, stream, read));
  }

  lemma PollerStepKeepsInv(s: State, late: bool)
    requires Inv(s)
    ensures Inv(StepPoller(s, late))
  {
    PollerStepKeepsPoller(s, late);
    PollerMovesAlone(s, late);
    CodesKept(s, StepPoller(s, late).poller);
  }

  lemma PollerMovesAlone(s: State, late: bool)
    ensures StepPoller(s, late) == s.(poller := StepPoller(s, late).poller)
  {
  }

  lemma CodesKept(s: State, poller: PollerPc)
    requires CodesInv(s)
    ensures CodesInv(s.(poller := poller))
  {
    assert forall c :: ReaderOf(s.(poller := poller), c) == ReaderOf(s, c);
  }

  lemma PollerStepKeepsPoller(s: State, late: bool)
    requires Inv(s)
    ensures PollerInv(StepPoller(s, late))
  {
    match s.poller
    case TestOverflow =>
    case TestStdout =>
    case TestStderr =>
    case TestDeadline =>
    case CopyStdout(cause) =>
      assert CopyOf(StepPoller(s, late), Stdout, cause, s.stdout.buffer);
    case CopyStderr(cause, copied) =>
      var next := StepPoller(s, late);
      assert CopyOf(next, Stdout, cause, copied) && CopyOf(next, Stderr, cause, s.stderr.buffer);
    case ReadCode(stdout, stderr) =>
    case Returned(_, _, _) =>
  }

  lemma {:induction false} RunKeepsInv(stdout: seq<int>, stderr: seq<int>, stdoutLimit: int, stderrLimit: int,
                                       events: seq<Event>)
    ensures var s := Run(Initial(stdout, stderr, stdoutLimit, stderrLimit), events);
            && Inv(s)
            && s.stdout.data == stdout && s.stdout.limit == stdoutLimit
            && s.stderr.data == stderr && s.stderr.limit == stderrLimit
  {
    if events != [] {
      var init, last := events[..|events| - 1], events[|events| - 1];
      RunKeepsInv(stdout, stderr, stdoutLimit, stderrLimit, init);
      var s := Run(Initial(stdout, stderr, stdoutLimit, stderrLimit), init);
      match last
      case ReaderStep(stream, read) =>
        ReaderStepKeepsInv(s, stream, read);
        AdvanceKeepsReader(ReaderOf(s, stream), read);
      case PollerStep(late) => PollerStepKeepsInv(s, late);
    }
  }

  // ---------- What a capture returns

  // In every interleaving each buffer is a prefix of its stream within its limit.
  lemma BuffersArePrefixes(stdout: seq<int>, stderr: seq<int>, stdoutLimit: int, stderrLimit: int, events: seq<Event>)
    ensures var s := Run(Initial(stdout, stderr, stdoutLimit, stderrLimit), events);
            && s.stdout.buffer <= stdout && |s.stdout.buffer| <= Cap(stdoutLimit)
            && s.stderr.buffer <= stderr && |s.stderr.buffer| <= Cap(stderrLimit)
  {
    RunKeepsInv(stdout, stderr, stdoutLimit, stderrLimit, events);
  }

  // Whatever the outcome, the returned bytes are prefixes within the limits.
  lemma ReturnedArePrefixes(stdout: seq<int>, stderr: seq<int>, stdoutLimit: int, stderrLimit: int, events: seq<Event>)
    requires Run(Initial(stdout, stderr, stdoutLimit, stderrLimit), events).poller.Returned?
    ensures var result := Run(Initial(stdout, stderr, stdoutLimit, stderrLimit), events).poller;
            && result.stdout <= stdout && |result.stdout| <= Cap(stdoutLimit)
            && result.stderr <= stderr && |result.stderr| <= Cap(stderrLimit)
  {
    RunKeepsInv(stdout, stderr, stdoutLimit, stderrLimit, events);
  }

  // An overflow result names a stream that is longer than its limit, and
  // returns exactly the first limit bytes of it.
  lemma OverflowIsReal(stdout: seq<int>, stderr: seq<int>, stdoutLimit: int, stderrLimit: int, events: seq<Event>)
    requires Run(Initial(stdout, stderr, stdoutLimit, stderrLimit), events).poller.Returned?
    ensures var result := Run(Initial(stdout, stderr, stdoutLimit, stderrLimit), events).poller;
            match result.outcome
            case Overflow(Stdout) => |stdout| > Cap(stdoutLimit) && result.stdout == stdout[..Cap(stdoutLimit)]
            case Overflow(Stderr) => |stderr| > Cap(stderrLimit) && result.stderr == stderr[..Cap(stderrLimit)]
            case _ => true
  {
    RunKeepsInv(stdout, stderr, stdoutLimit, stderrLimit, events);
    var s := Run(Initial(stdout, stderr, stdoutLimit, stderrLimit), events);
    if s.poller.outcome.Overflow? {
      assert s.codes[0] in s.codes;
    }
  }

  function FirstBytes(data: seq<int>, limit: int): seq<int> {
    if |data| <= Cap(limit) then data else data[..Cap(limit)]
  }

  // Without a read error, a result that carries no error code holds the first
  // limit bytes of each stream: it is the whole stream exactly when the stream
  // is within its limit, and always when it is below the limit.
  lemma CapturedIsWholeOrFull(stdout: seq<int>, stderr: seq<int>, stdoutLimit: int, stderrLimit: int,
                              events: seq<Event>)
    requires var s := Run(Initial(stdout, stderr, stdoutLimit, stderrLimit), events);
             s.poller.Returned? && s.poller.outcome == Captured && !s.stdout.failed && !s.stderr.failed
    ensures var result := Run(Initial(stdout, stderr, stdoutLimit, stderrLimit), events).poller;
            && result.stdout == FirstBytes(stdout, stdoutLimit) && result.stderr == FirstBytes(stderr, stderrLimit)
            && (result.stdout == stdout <==> |stdout| <= Cap(stdoutLimit))
            && (result.stderr == stderr <==> |stderr| <= Cap(stderrLimit))
            && (|result.stdout| < Cap(stdoutLimit) ==> result.stdout == stdout)
            && (|result.stderr| < Cap(stderrLimit) ==> result.stderr == stderr)
  {
    RunKeepsInv(stdout, stderr, stdoutLimit, stderrLimit, events);
  }

  // Once the poller has seen the overflow event there is a code to return.
  lemma OverflowCodeIsThere(stdout: seq<int>, stderr: seq<int>, stdoutLimit: int, stderrLimit: int, events: seq<Event>)
    requires Run(Initial(stdout, stderr, stdoutLimit, stderrLimit), events).poller.ReadCode?
    ensures Run(Initial(stdout, stderr, stdoutLimit, stderrLimit), events).codes != []
  {
    RunKeepsInv(stdout, stderr, stdoutLimit, stderrLimit, events);
  }

  lemma RunOneMore(s: State, events: seq<Event>, e: Event)
    ensures Run(s, events + [e]) == Step(Run(s, events), e)
  {
    assert (events + [e])[..|events|] == events;
  }

  // The tests are not atomic: both readers can finish, one of them on an
  // overflow, after the overflow test and before the completion tests. The
  // result then carries no error code although two bytes were cut to one.
  lemma CompletionCanHideOverflow() returns (events: seq<Event>)
    ensures var s := Run(Initial([7, 7], [], 1, 1), events);
            s.poller == Returned([7], [], Captured) && !s.stdout.failed && s.overflow
  {
    var initial := Initial([7, 7], [], 1, 1);
    var s := initial;
    events := [];
    s, events := OverflowingReader(initial, s, events);
    s, events := Continue(initial, s, events, ReaderStep(Stderr, EndOfFile));
    s, events := Continue(initial, s, events, ReaderStep(Stderr, EndOfFile));
    s, events := FinishingPoller(initial, s, events);
  }

  // Both readers are done: the poller returns what they have.
  lemma FinishingPoller(initial: State, s: State, events: seq<Event>) returns (next: State, more: seq<Event>)
    requires s == Run(initial, events)
    requires s.poller == TestStdout && s.stdout.pc == Done && s.stderr.pc == Done
    ensures next == Run(initial, more) == s.(poller := Returned(s.stdout.buffer, s.stderr.buffer, Captured))
  {
    next, more := Continue(initial, s, events, PollerStep(false));
    next, more := Continue(initial, next, more, PollerStep(false));
    next, more := Continue(initial, next, more, PollerStep(false));
    next, more := Continue(initial, next, more, PollerStep(false));
  }

  lemma OverflowingReader(initial: State, s: State, events: seq<Event>) returns (next: State, more: seq<Event>)
    requires initial == s == Initial([7, 7], [], 1, 1) && events == []
    ensures next == Run(initial, more)
    ensures next == s.(stdout := Reader([7, 7], 1, 2, [7], Done, false), overflow := true, codes := [Stdout],
                       poller := TestStdout)
  {
    next, more := Continue(initial, s, events, PollerStep(false));
    next, more := Continue(initial, next, more, ReaderStep(Stdout, Take(2)));
    assert [7, 7][0..2] == [7, 7];
    next, more := Continue(initial, next, more, ReaderStep(Stdout, EndOfFile));
    assert [] + [7, 7][..1] == [7];
    next, more := Continue(initial, next, more, ReaderStep(Stdout, EndOfFile));
    next, more := Continue(initial, next, more, ReaderStep(Stdout, EndOfFile));
    next, more := Continue(initial, next, more, ReaderStep(Stdout, EndOfFile));
  }

  lemma Continue(initial: State, s: State, events: seq<Event>, e: Event) returns (next: State, more: seq<Event>)
    requires s == Run(initial, events)
    ensures more == events + [e] && next == Step(s, e) == Run(initial, more)
  {
    RunOneMore(initial, events, e);
    next, more := Step(s, e), events + [e];
  }

  // ---------- Every capture ends

  // How many more steps the poller takes at most once the deadline has passed.
  function Remaining(poller: PollerPc): nat {
    match poller
    case TestOverflow => 7
    case TestStdout => 6
    case TestStderr => 5
    case TestDeadline => 4
    case CopyStdout(_) => 3
    case CopyStderr(_, _) => 2
    case ReadCode(_, _) => 1
    case Returned(_, _, _) => 0
  }

  lemma LateStepGetsNearer(s: State)
    requires Inv(s) && !s.poller.Returned?
    ensures Remaining(StepPoller(s, true).poller) < Remaining(s.poller)
  {
  }

  function PollerSteps(events: seq<Event>): nat {
    if events == [] then 0
    else PollerSteps(events[..|events| - 1]) + if events[|events| - 1].PollerStep? then 1 else 0
  }

  lemma StepKeepsInv(s: State, e: Event)
    requires Inv(s)
    ensures Inv(Step(s, e))
  {
    match e
    case ReaderStep(stream, read) => ReaderStepKeepsInv(s, stream, read);
    case PollerStep(late) => PollerStepKeepsInv(s, late);
  }

  lemma {:induction false} RunCountsDown(s: State, events: seq<Event>)
    requires Inv(s) && forall e <- events :: e.PollerStep? ==> e.late
    ensures Inv(Run(s, events))
    ensures Remaining(Run(s, events).poller)
         <= if PollerSteps(events) <= Remaining(s.poller) then Remaining(s.poller) - PollerSteps(events) else 0
  {
    if events != [] {
      var init, last := events[..|events| - 1], events[|events| - 1];
      assert last in events && forall e <- init :: e in events;
      RunCountsDown(s, init);
      StepKeepsInv(Run(s, init), last);
      OneStepCountsDown(Run(s, init), last);
    }
  }

  lemma OneStepCountsDown(s: State, e: Event)
    requires Inv(s) && (e.PollerStep? ==> e.late)
    ensures if e.ReaderStep? then Step(s, e).poller == s.poller
            else Remaining(Step(s, e).poller) < Remaining(s.poller) || (s.poller.Returned? && Step(s, e) == s)
  {
    if e.PollerStep? && !s.poller.Returned? {
      LateStepGetsNearer(s);
    }
  }

  // Once the deadline has passed the poller returns within seven of its own steps,
  // in every run and however the readers' steps fall between them.
  lemma EveryCaptureEnds(stdout: seq<int>, stderr: seq<int>, stdoutLimit: int, stderrLimit: int, events: seq<Event>,
                         more: seq<Event>)
    requires forall e <- more :: e.PollerStep? ==> e.late
    requires PollerSteps(more) >= 7
    ensures Run(Run(Initial(stdout, stderr, stdoutLimit, stderrLimit), events), more).poller.Returned?
  {
    RunKeepsInv(stdout, stderr, stdoutLimit, stderrLimit, events);
    RunCountsDown(Run(Initial(stdout, stderr, stdoutLimit, stderrLimit), events), more);
  }

  // ---------- Every outcome has its cause

  // Some step of the poller saw that the deadline had passed.
  ghost predicate WasLate(events: seq<Event>) {
    exists e :: e in events && e == PollerStep(true)
  }

  ghost predicate TimedOutPc(poller: PollerPc) {
    || (poller.CopyStdout? && poller.cause == SawDeadline)
    || (poller.CopyStderr? && poller.cause == SawDeadline)
    || (poller.Returned? && poller.outcome == TimedOut)
  }

  // A capture times out only if the poller saw the deadline pass.
  lemma {:induction false} TimeoutWasLate(s: State, events: seq<Event>)
    requires TimedOutPc(Run(s, events).poller) && !TimedOutPc(s.poller)
    ensures WasLate(events)
  {
    if events != [] {
      var init, last := events[..|events| - 1], events[|events| - 1];
      if TimedOutPc(Run(s, init).poller) {
        TimeoutWasLate(s, init);
        var e :| e in init && e == PollerStep(true);
      }
      assert last in events && forall e :: e in init ==> e in events;
    }
  }

  // ---------- Readers get on

  // A reader that holds a chunk stores it, and one past its stream or its limit
  // gets done: within four steps it reads again or is done.
  lemma ReadersGetOn(r: Reader, read: Read)
    requires r.pc != Reading
    ensures var one := Advance(r, read);
            var two := Advance(one, read);
            var three := Advance(two, read);
            one.pc == Reading || (Advance(three, read).pc == Done && one.buffer == Advance(three, read).buffer)
  {
  }

  // A reader reads what there is, at most 65,536 bytes at a time, and is done at
  // the end of the stream or when reading fails.
  lemma ReadersRead(r: Reader, n: nat)
    requires r.pc == Reading && r.consumed <= |r.data|
    ensures 0 < n <= 65_536 && r.consumed + n <= |r.data| ==>
              Advance(r, Take(n)) == r.(pc := Holding(r.data[r.consumed..][..n]), consumed := r.consumed + n)
    ensures n == 0 || n > 65_536 || r.consumed + n > |r.data| ==> Advance(r, Take(n)) == r
    ensures r.consumed == |r.data| ==>
              Advance(r, EndOfFile).pc == Finishing && Advance(r, EndOfFile).failed == r.failed
    ensures Advance(r, Fail).pc == Finishing && Advance(r, Fail).failed
  {
    assert r.consumed + n <= |r.data| ==> r.data[r.consumed..][..n] == r.data[r.consumed..r.consumed + n];
  }

  // A reader that overflows names its stream, then sets the shared event, and only
  // then its own, each in a step of its own.
  lemma OverflowIsToldInOrder(s: State, stream: Stream, got: (Read, Read, Read))
    requires ReaderOf(s, stream).pc == Naming
    ensures var named := Step(s, ReaderStep(stream, got.0));
            var told := Step(named, ReaderStep(stream, got.1));
            var finishing := Step(told, ReaderStep(stream, got.2));
            && named.codes == finishing.codes == s.codes + [stream]
            && named.overflow == s.overflow && told.overflow
            && ReaderOf(named, stream).pc != Done && ReaderOf(told, stream).pc != Done
            && ReaderOf(finishing, stream) == ReaderOf(s, stream).(pc := Done)
            && var moved := match stream
                 case Stdout => s.(stdout := finishing.stdout)
                 case Stderr => s.(stderr := finishing.stderr);
               finishing == moved.(codes := finishing.codes, overflow := true)
  {
  }

  lemma {:induction false} FailureNeedsRead(s: State, events: seq<Event>, stream: Stream)
    requires ReaderOf(Run(s, events), stream).failed && !ReaderOf(s, stream).failed
    ensures ReaderStep(stream, Fail) in events
  {
    var init, last := events[..|events| - 1], events[|events| - 1];
    if ReaderOf(Run(s, init), stream).failed {
      FailureNeedsRead(s, init, stream);
    }
    assert events == init + [last];
  }

  // In every run a reader counts as failed only if one of its reads did.
  lemma FailedReadersFailed(stdout: seq<int>, stderr: seq<int>, stdoutLimit: int, stderrLimit: int,
                            events: seq<Event>, stream: Stream)
    requires ReaderOf(Run(Initial(stdout, stderr, stdoutLimit, stderrLimit), events), stream).failed
    ensures ReaderStep(stream, Fail) in events
  {
    FailureNeedsRead(Initial(stdout, stderr, stdoutLimit, stderrLimit), events, stream);
  }
}
