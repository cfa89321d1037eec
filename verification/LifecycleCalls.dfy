// What one call of the lifecycle (scripts/n4_compose_lifecycle.py) makes of the
// answers it gets from Docker, subst and the ports, when it does not die.
module LifecycleCalls {
  import opened Wrappers
  import opened LifecycleLog

  // Raised is a LifecycleError; Crashed is a call that died.
  datatype Outcome<+T> = Crashed | Raised | Done(value: T) {
    predicate IsFailure() {
      !Done?
    }

    function PropagateFailure<U>(): Outcome<U>
      requires IsFailure()
    {
      if Raised? then Raised else Crashed
    }

    function Extract(): T
      requires Done?
    {
      value
    }
  }

  function Answered<T>(answer: Option<T>): Outcome<T> {
    match answer
    case None => Raised
    case Some(value) => Done(value)
  }

  // nonAscii: the output is the BuildKit failure of a non-ASCII root.
  datatype ConfigAnswer = Resolved(valid: bool) | Unresolved(nonAscii: bool)

  datatype CommandAnswer = Succeeded | Failed(nonAscii: bool)

  const DRIVES := "ZYXWVUTSRQPONMLKJIHGFED"

  function TargetFromManifest(m: Manifest, root: string): Outcome<Configs> {
    if m.source == root && m.configs == ConfigsFor(root, m.subst) && OwnedName(m.project)
    then Done(m.configs) else Raised
  }

  function ServicesOf(r: Resources): set<Option<string>> {
    set row <- r.containers :: row.service
  }

  predicate ExpectedServices(r: Resources) {
    ServicesOf(r) == set service <- EXPECTED_SERVICES :: Some(service)
  }

  // A listing that fails is None; a capture makes up to three attempts.
  type Tries = nat -> Option<Resources>

  function Captured(tries: Tries): Option<Resources> {
    if tries(0).Some? then tries(0) else if tries(1).Some? then tries(1) else tries(2)
  }

  // ---------- stop

  // In the order in which stop asks; the guards are snapshots of the protected
  // project, the mappings what subst shows for the recorded drive.
  datatype StopAnswers = StopAnswers(
    listing: Option<Resources>, guardOnRecovery: Option<Resources>, guard: Option<Resources>, mapping: Option<string>,
    downSucceeds: bool, remaining: Tries, mappingAtRemoval: Option<string>, unmapSucceeds: bool,
    lastGuard: Option<Resources>)

  // What a step leaves on disk, and whether stop goes on from there.
  datatype Left = Left(manifest: Manifest, passed: bool)

  // A start that could not list its resources lets stop adopt what it finds.
  predicate Recovering(m: Manifest) {
    m.status == StartFailed && m.cleanup == CaptureExhausted
  }

  predicate DriveShown(subst: Option<Subst>, mapping: Option<string>) {
    subst.Some? ==> subst.value.created && mapping == Some(subst.value.target)
  }

  function AfterCheck(m: Manifest, current: Resources, a: StopAnswers): Left {
    var expected := if Recovering(m) then m.(resources := current, cleanup := RecoveryCaptured) else m;
    if !Owns(expected, current, m.configs) || (Recovering(m) && a.guardOnRecovery != Some(m.phase0)) then Left(m, false)
    else Left(expected, a.guard == Some(m.phase0) && DriveShown(m.subst, a.mapping))
  }

  function AfterTearDown(m: Manifest, current: Resources, a: StopAnswers): Left {
    var torn := m.(status := CleanupPending, cleanup := DownSucceeded, removed := current);
    if !HasResources(current) then Left(torn, true)
    else if !a.downSucceeds then Left(m.(cleanup := DownFailed), false)
    else
      match Captured(a.remaining)
      case None => Left(m, false)
      case Some(rest) => if HasResources(rest) then Left(m.(cleanup := ResourcesRemain), false) else Left(torn, true)
  }

  function AfterDrive(m: Manifest, a: StopAnswers): Left {
    if m.subst.Some? && !(DriveShown(m.subst, a.mappingAtRemoval) && a.unmapSucceeds)
    then Left(m.(cleanup := SubstBlocked), false)
    else Left(m.(subst := None), true)
  }

  function AfterPending(m: Manifest, a: StopAnswers): Left {
    var undriven := AfterDrive(m, a);
    if !undriven.passed then undriven
    else if a.lastGuard != Some(m.phase0) then Left(undriven.manifest.(cleanup := Phase0Failed), false)
    else Left(undriven.manifest.(status := Stopped, cleanup := CleanupStopped), true)
  }

  // From a listing of the project to a recorded teardown.
  function AfterClearing(m: Manifest, a: StopAnswers): Left {
    match a.listing
    case None => Left(m, false)
    case Some(current) =>
      var checked := AfterCheck(m, current, a);
      if !checked.passed then Left(checked.manifest.(cleanup := OwnershipMismatch), false)
      else AfterTearDown(checked.manifest, current, a)
  }

  // The manifest that a stop leaves, and whether it succeeds.
  function AfterStop(m: Manifest, root: string, a: StopAnswers): Left {
    if TargetFromManifest(m, root).Raised? then Left(m.(cleanup := OwnershipMismatch), false)
    else if m.status == CleanupPending then AfterPending(m, a)
    else
      var cleared := AfterClearing(m, a);
      if !cleared.passed then cleared else AfterPending(cleared.manifest, a)
  }

  // ---------- start

  // What subst shows for each drive, whether mapping it succeeds, and what subst
  // shows for the mapped drive afterwards.
  datatype DriveAnswers = DriveAnswers(mapping: char -> Option<string>, mapSucceeds: char -> bool,
                                       confirmed: Option<string>)

  function FirstMapped(d: DriveAnswers, drives: string): Option<char> {
    if drives == "" then None
    else if Mappable(d, drives[0]) then Some(drives[0])
    else FirstMapped(d, drives[1..])
  }

  predicate Mappable(d: DriveAnswers, drive: char) {
    d.mapping(drive).None? && d.mapSucceeds(drive)
  }

  predicate DriveMade(d: DriveAnswers, root: string) {
    FirstMapped(d, DRIVES).Some? && d.confirmed == Some(root)
  }

  // In the order in which start asks.
  datatype StartAnswers = StartAnswers(
    portsSelected: bool, found: Option<Resources>, phase0: Option<Resources>,
    config: ConfigAnswer, drives: DriveAnswers, configOnDrive: ConfigAnswer,
    mappingAtRemoval: Option<string>, unmapSucceeds: bool,
    up: CommandAnswer, capture: Tries,
    guardOnRetry: Option<Resources>, drivesOnRetry: DriveAnswers, configOnRetry: ConfigAnswer,
    upOnRetry: CommandAnswer, captureOnRetry: Tries,
    guard: Option<Resources>, stop: StopAnswers)

  predicate NeedsDrive(a: StartAnswers) {
    a.config.Unresolved? && a.config.nonAscii
  }

  predicate Configured(root: string, a: StartAnswers) {
    if NeedsDrive(a) then DriveMade(a.drives, root) && a.configOnDrive == Resolved(true) else a.config == Resolved(true)
  }

  // The second attempt, from a drive.
  predicate Retries(subst: Option<Subst>, resources: Resources, up: CommandAnswer) {
    subst == None && !HasResources(resources) && up.Failed? && up.nonAscii
  }

  predicate RetryPrepared(root: string, phase0: Resources, a: StartAnswers) {
    a.guardOnRetry == Some(phase0) && DriveMade(a.drivesOnRetry, root) && a.configOnRetry == Resolved(true)
  }

  predicate Concluded(phase0: Resources, resources: Resources, up: CommandAnswer, guard: Option<Resources>) {
    guard == Some(phase0) && up.Succeeded? && ExpectedServices(resources)
  }

  predicate RetrySucceeds(m: Manifest, a: StartAnswers) {
    && RetryPrepared(m.source, m.phase0, a) && Captured(a.captureOnRetry).Some?
    && Concluded(m.phase0, Captured(a.captureOnRetry).value, a.upOnRetry, a.guard)
  }

  predicate BroughtUp(m: Manifest, a: StartAnswers) {
    match Captured(a.capture)
    case None => false
    case Some(resources) =>
      if Retries(m.subst, resources, a.up) then RetrySucceeds(m, a)
      else Concluded(m.phase0, resources, a.up, a.guard)
  }

  function Fresh0(root: string, project: string, phase0: Resources): Manifest {
    Manifest(Starting, project, root, AtRoot(root), None, EMPTY, phase0, NoCleanup, EMPTY)
  }

  // What memory holds after the drives were tried: the first mapped one, if any.
  function Mapped(m: Manifest, d: DriveAnswers): Manifest {
    match FirstMapped(d, DRIVES)
    case None => m
    case Some(drive) => m.(subst := Some(Subst(drive, m.source, true)), configs := OnDrive(drive))
  }

  // What the manifest holds once the configuration is resolved.
  function ConfiguredManifest(m: Manifest, a: StartAnswers): Manifest {
    if NeedsDrive(a) then Mapped(m, a.drives) else m
  }

  function FailedStart(m: Manifest, why: CleanupStatus): Manifest {
    m.(status := StartFailed, cleanup := why)
  }

  // What a start leaves on disk when the configuration does not resolve: nothing
  // without a drive, and no mapping if the one it made can be taken back.
  function AfterUnconfigured(m: Manifest, a: StartAnswers): Option<Manifest> {
    if !NeedsDrive(a) then None
    else
      var mapped := Mapped(m, a.drives);
      if DriveMade(a.drives, m.source) && DriveShown(mapped.subst, a.mappingAtRemoval) && a.unmapSucceeds then Some(m)
      else Some(FailedStart(mapped, SubstBlocked))
  }

  // What the last gates leave.
  function AfterConclude(m: Manifest, up: CommandAnswer, guard: Option<Resources>, stop: StopAnswers): Manifest {
    if guard != Some(m.phase0) then FailedStart(m, OwnershipMismatch)
    else if Concluded(m.phase0, m.resources, up, guard) then m.(status := Running)
    else AfterStop(m.(status := StartFailed), m.source, stop).manifest
  }

  function AfterLaunch(m: Manifest, tries: Tries): Left {
    match Captured(tries)
    case None => Left(FailedStart(m, CaptureExhausted), false)
    case Some(resources) => Left(m.(resources := resources), true)
  }

  // What the second attempt leaves.
  function AfterRetry(m: Manifest, a: StartAnswers): Manifest {
    var mapped := if a.guardOnRetry == Some(m.phase0) then Mapped(m, a.drivesOnRetry) else m;
    if !RetryPrepared(m.source, m.phase0, a)
    then AfterStop(mapped.(status := StartFailed), m.source, a.stop).manifest
    else
      var launched := AfterLaunch(mapped, a.captureOnRetry);
      if launched.passed then AfterConclude(launched.manifest, a.upOnRetry, a.guard, a.stop) else launched.manifest
  }

  function AfterBringUp(m: Manifest, a: StartAnswers): Manifest {
    var launched := AfterLaunch(m, a.capture);
    if !launched.passed then launched.manifest
    else if Retries(m.subst, launched.manifest.resources, a.up) then AfterRetry(launched.manifest, a)
    else AfterConclude(launched.manifest, a.up, a.guard, a.stop)
  }

  // The manifest that a start leaves on disk, if any.
  function AfterStart(file: Option<Manifest>, root: string, project: string, a: StartAnswers): Option<Manifest> {
    if file.Some? && Active(file.value.status) then file else AfterFresh(root, project, a)
  }

  // With no manifest in its way.
  function AfterFresh(root: string, project: string, a: StartAnswers): Option<Manifest> {
    if !OwnedName(project) || !a.portsSelected || a.found.None? || HasResources(a.found.value) || a.phase0.None?
    then None
    else
      var first := Fresh0(root, project, a.phase0.value);
      if Configured(root, a) then Some(AfterBringUp(ConfiguredManifest(first, a), a)) else AfterUnconfigured(first, a)
  }

  // Exactly when a start succeeds.
  predicate StartSucceeds(file: Option<Manifest>, root: string, project: string, a: StartAnswers) {
    (file.Some? ==> !Active(file.value.status)) && FreshSucceeds(root, project, a)
  }

  predicate FreshSucceeds(root: string, project: string, a: StartAnswers) {
    && OwnedName(project) && a.portsSelected
    && a.found.Some? && !HasResources(a.found.value) && a.phase0.Some?
    && Configured(root, a)
    && BroughtUp(ConfiguredManifest(Fresh0(root, project, a.phase0.value), a), a)
  }

  predicate StillOf(m: Manifest, left: Manifest) {
    left.status != Running && left.project == m.project
  }

  lemma PendingNeverRuns(m: Manifest, a: StopAnswers)
    requires m.status != Running
    ensures StillOf(m, AfterPending(m, a).manifest)
  {
  }

  lemma ClearingNeverRuns(m: Manifest, a: StopAnswers)
    requires m.status != Running
    ensures StillOf(m, AfterClearing(m, a).manifest)
  {
    if a.listing.Some? {
      var checked := AfterCheck(m, a.listing.value, a);
      assert StillOf(m, checked.manifest);
      assert StillOf(m, AfterTearDown(checked.manifest, a.listing.value, a).manifest);
    }
  }

  lemma StopNeverRuns(m: Manifest, root: string, a: StopAnswers)
    requires m.status != Running
    ensures StillOf(m, AfterStop(m, root, a).manifest)
  {
    PendingNeverRuns(m, a);
    ClearingNeverRuns(m, a);
    PendingNeverRuns(AfterClearing(m, a).manifest, a);
  }

  lemma ConcludeRunsIff(m: Manifest, up: CommandAnswer, guard: Option<Resources>, stop: StopAnswers)
    ensures var left := AfterConclude(m, up, guard, stop);
            (left.status == Running <==> Concluded(m.phase0, m.resources, up, guard)) && left.project == m.project
  {
    StopNeverRuns(m.(status := StartFailed), m.source, stop);
  }

  lemma RetryRunsIff(m: Manifest, a: StartAnswers)
    ensures (AfterRetry(m, a).status == Running <==> RetrySucceeds(m, a)) && AfterRetry(m, a).project == m.project
  {
    var mapped := if a.guardOnRetry == Some(m.phase0) then Mapped(m, a.drivesOnRetry) else m;
    StopNeverRuns(mapped.(status := StartFailed), m.source, a.stop);
    ConcludeRunsIff(AfterLaunch(mapped, a.captureOnRetry).manifest, a.upOnRetry, a.guard, a.stop);
  }

  lemma BringUpRunsIff(m: Manifest, a: StartAnswers)
    ensures (AfterBringUp(m, a).status == Running <==> BroughtUp(m, a)) && AfterBringUp(m, a).project == m.project
  {
    var launched := AfterLaunch(m, a.capture);
    RetryRunsIff(launched.manifest, a);
    ConcludeRunsIff(launched.manifest, a.up, a.guard, a.stop);
  }

  // A start succeeds exactly when it leaves a running manifest, and then it is
  // the new project's.
  lemma RunningIffStarted(root: string, project: string, a: StartAnswers)
    ensures var left := AfterStart(None, root, project, a);
            && (left.Some? && left.value.status == Running <==> StartSucceeds(None, root, project, a))
            && (left.Some? ==> left.value.project == project)
  {
    if a.phase0.Some? {
      BringUpRunsIff(ConfiguredManifest(Fresh0(root, project, a.phase0.value), a), a);
    }
  }
}
