// What one call of the lifecycle (scripts/n4_compose_lifecycle.py) does on the
// machine: the log entries of a call that gets the given answers and does not
// die. A call that dies stops somewhere within them.
module LifecycleScripts {
  import opened Wrappers
  import opened LifecycleCalls
  import opened LifecycleLog

  // ---------- Scripts, whole and cut short

  // lifetime says after how many entries the call dies, if it does.
  function Cut(script: seq<Entry>, lifetime: Option<nat>): seq<Entry> {
    if lifetime.Some? && lifetime.value < |script| then script[..lifetime.value] else script
  }

  predicate DiesIn(script: seq<Entry>, lifetime: Option<nat>) {
    lifetime.Some? && lifetime.value < |script|
  }

  function Spent(lifetime: Option<nat>, n: nat): Option<nat> {
    if lifetime.Some? && n <= lifetime.value then Some(lifetime.value - n) else lifetime
  }

  // From one log and lifetime, the script was logged until death.
  ghost predicate Ran(before: seq<Entry>, life: Option<nat>, script: seq<Entry>, log: seq<Entry>, left: Option<nat>,
                      crashed: bool) {
    && log == before + Cut(script, life) && crashed == DiesIn(script, life)
    && (!crashed ==> left == Spent(life, |script|))
  }

  lemma CutOfTwo(one: seq<Entry>, two: seq<Entry>, life: Option<nat>)
    ensures DiesIn(one, life) ==> DiesIn(one + two, life) && Cut(one + two, life) == Cut(one, life)
    ensures !DiesIn(one, life) ==>
              && DiesIn(one + two, life) == DiesIn(two, Spent(life, |one|))
              && Cut(one + two, life) == one + Cut(two, Spent(life, |one|))
              && (!DiesIn(one + two, life) ==> Spent(Spent(life, |one|), |two|) == Spent(life, |one + two|))
  {
    if life.Some? {
      if life.value < |one| {
        assert (one + two)[..life.value] == one[..life.value];
      } else if life.value < |one + two| {
        assert (one + two)[..life.value] == one + two[..life.value - |one|];
      }
    }
  }

  // A script in two parts: death in the first is death in the whole, and after
  // the first the second goes on from there.
  lemma Splits(before: seq<Entry>, life: Option<nat>, one: seq<Entry>, two: seq<Entry>)
    ensures forall log, left :: Ran(before, life, one, log, left, true) ==>
                                  Ran(before, life, one + two, log, left, true)
    ensures forall middle, spare, log, left, crashed ::
              Ran(before, life, one, middle, spare, false) && Ran(middle, spare, two, log, left, crashed) ==>
                Ran(before, life, one + two, log, left, crashed)
    ensures two == [] ==> one + two == one
  {
    CutOfTwo(one, two, life);
    forall middle, spare, log, left, crashed |
      Ran(before, life, one, middle, spare, false) && Ran(middle, spare, two, log, left, crashed)
      ensures Ran(before, life, one + two, log, left, crashed)
    {
      assert log == before + one + Cut(two, Spent(life, |one|)) == before + Cut(one + two, life);
    }
  }

  // ---------- Listings and drives

  function Listing(project: string, answer: Option<Resources>): seq<Entry> {
    match answer
    case None => []
    case Some(found) => [Snapshotted(project, found)]
  }

  function Guarding(answer: Option<Resources>): seq<Entry> {
    Listing(PROTECTED_PROJECT, answer)
  }

  // A mapping that the run did not create is not even looked up.
  function Confirming(s: Subst, answer: Option<string>): seq<Entry> {
    if s.created then [DriveQueried(s.drive, answer)] else []
  }

  function Removing(s: Subst, answer: Option<string>, succeeds: bool): seq<Entry> {
    if !DriveShown(Some(s), answer) then Confirming(s, answer)
    else [DriveQueried(s.drive, answer), Unmap(s.drive)] + if succeeds then [Unmapped(s.drive)] else []
  }

  function WithSubst(m: Manifest, record: Option<Subst>): Manifest {
    m.(subst := record, configs := ConfigsFor(m.source, record))
  }

  function MappingDrive(m: Manifest, drive: char, succeeds: bool): seq<Entry> {
    [Persisted(WithSubst(m, Some(Subst(drive, m.source, false)))), Map(drive, m.source)] + Mapping(m, drive, succeeds)
  }

  // What follows the answer.
  function Mapping(m: Manifest, drive: char, succeeds: bool): seq<Entry> {
    if succeeds then [Persisted(WithSubst(m, Some(Subst(drive, m.source, true))))]
    else [MapFailed(drive), Persisted(WithSubst(m, None))]
  }

  function TryingDrive(m: Manifest, d: DriveAnswers, drive: char): seq<Entry> {
    [DriveQueried(drive, d.mapping(drive))]
    + if d.mapping(drive).Some? then [] else MappingDrive(m, drive, d.mapSucceeds(drive))
  }

  function TryingDrives(m: Manifest, d: DriveAnswers, drives: string): seq<Entry> {
    if drives == "" then []
    else TryingDrive(m, d, drives[0]) + if Mappable(d, drives[0]) then [] else TryingDrives(m, d, drives[1..])
  }

  function MakingDrive(m: Manifest, d: DriveAnswers): seq<Entry> {
    TryingDrives(m, d, DRIVES)
    + match FirstMapped(d, DRIVES)
      case None => []
      case Some(drive) => [DriveQueried(drive, d.confirmed)]
  }

  // One more drive is tried: all that was tried before goes on with it.
  lemma NextDrive(before: seq<Entry>, life: Option<nat>, m: Manifest, d: DriveAnswers, tried: seq<Entry>,
                  all: seq<Entry>, drives: string, log: seq<Entry>, left: Option<nat>)
    requires drives != "" && all == tried + TryingDrives(m, d, drives)
    requires Ran(before, life, tried, log, left, false)
    ensures var now := TryingDrive(m, d, drives[0]);
            && (forall l, f :: Ran(log, left, now, l, f, true) ==> Ran(before, life, all, l, f, true))
            && if Mappable(d, drives[0]) then
                 forall l, f :: Ran(log, left, now, l, f, false) ==> Ran(before, life, all, l, f, false)
               else
                 && all == (tried + now) + TryingDrives(m, d, drives[1..])
                 && forall l, f :: Ran(log, left, now, l, f, false) ==> Ran(before, life, tried + now, l, f, false)
  {
    var now := TryingDrive(m, d, drives[0]);
    var later := if Mappable(d, drives[0]) then [] else TryingDrives(m, d, drives[1..]);
    Splits(before, life, tried, TryingDrives(m, d, drives));
    Splits(before, life, tried, now);
    Splits(log, left, now, later);
    assert tried + (now + later) == (tried + now) + later;
  }

  // ---------- stop

  function Gates(m: Manifest, current: Resources, a: StopAnswers): seq<Entry> {
    if !Owns(m, current, m.configs) then []
    else
      Guarding(a.guard)
      + if a.guard == Some(m.phase0) && m.subst.Some? then Confirming(m.subst.value, a.mapping) else []
  }

  function Adopted(m: Manifest, current: Resources): Manifest {
    m.(resources := current, cleanup := RecoveryCaptured)
  }

  function Checking(m: Manifest, current: Resources, a: StopAnswers): seq<Entry> {
    if !Recovering(m) then Gates(m, current, a)
    else if !Owns(m.(resources := current), current, m.configs) then []
    else
      Guarding(a.guardOnRecovery)
      + if a.guardOnRecovery != Some(m.phase0) then []
        else [Persisted(Adopted(m, current))] + Gates(Adopted(m, current), current, a)
  }

  function TearingDown(m: Manifest, current: Resources, a: StopAnswers): seq<Entry> {
    if !HasResources(current) then [Persisted(AfterTearDown(m, current, a).manifest)]
    else [Down(m.project, m.configs, current)] + AfterDown(m, current, a)
  }

  function AfterDown(m: Manifest, current: Resources, a: StopAnswers): seq<Entry> {
    var result := [Persisted(AfterTearDown(m, current, a).manifest)];
    if !a.downSucceeds then result
    else Listing(m.project, Captured(a.remaining)) + if Captured(a.remaining).None? then [] else result
  }

  function ReleasingDrive(m: Manifest, a: StopAnswers): seq<Entry> {
    if m.subst.None? then []
    else
      Removing(m.subst.value, a.mappingAtRemoval, a.unmapSucceeds) + [Persisted(AfterDrive(m, a).manifest)]
  }

  function Finishing(m: Manifest, a: StopAnswers): seq<Entry> {
    ReleasingDrive(m, a)
    + if !AfterDrive(m, a).passed then [] else Guarding(a.lastGuard) + [Persisted(AfterPending(m, a).manifest)]
  }

  function Clearing(m: Manifest, a: StopAnswers): seq<Entry> {
    match a.listing
    case None => []
    case Some(current) => [Snapshotted(m.project, current)] + ClearingListed(m, current, a)
  }

  function ClearingListed(m: Manifest, current: Resources, a: StopAnswers): seq<Entry> {
    var checked := AfterCheck(m, current, a);
    Checking(m, current, a)
    + if checked.passed then TearingDown(checked.manifest, current, a)
      else [Persisted(checked.manifest.(cleanup := OwnershipMismatch))]
  }

  // What stop does to a manifest once it was called.
  function Stopping(m: Manifest, root: string, a: StopAnswers): seq<Entry> {
    if TargetFromManifest(m, root).Raised? then [Persisted(AfterStop(m, root, a).manifest)]
    else if m.status == CleanupPending then Finishing(m, a)
    else Clearing(m, a) + if AfterClearing(m, a).passed then Finishing(AfterClearing(m, a).manifest, a) else []
  }

  function StopScript(file: Option<Manifest>, root: string, a: StopAnswers): seq<Entry> {
    [Called] + if file.None? then [] else Stopping(file.value, root, a)
  }

  // ---------- start

  function FailingStart(m: Manifest, a: StopAnswers): seq<Entry> {
    var failed := m.(status := StartFailed);
    [Persisted(failed)] + StopScript(Some(failed), m.source, a)
  }

  // The configuration could not be resolved from the drive.
  function Unconfiguring(m: Manifest, a: StartAnswers): seq<Entry> {
    var mapped := Mapped(m, a.drives);
    if mapped.subst.None? then []
    else
      Removing(mapped.subst.value, a.mappingAtRemoval, a.unmapSucceeds)
      + if DriveShown(mapped.subst, a.mappingAtRemoval) && a.unmapSucceeds then [Persisted(m)]
        else [Persisted(FailedStart(mapped, SubstBlocked))]
  }

  function Configuring(m: Manifest, a: StartAnswers): seq<Entry> {
    if !NeedsDrive(a) then if a.config == Resolved(true) then [Persisted(m)] else []
    else
      MakingDrive(m, a.drives)
      + if !DriveMade(a.drives, m.source) then [Persisted(FailedStart(Mapped(m, a.drives), SubstBlocked))]
        else if a.configOnDrive == Resolved(true) then [Persisted(Mapped(m, a.drives))]
        else Unconfiguring(m, a)
  }

  function Launching(m: Manifest, tries: Tries): seq<Entry> {
    [Up(m.project, m.configs)]
    + (Listing(m.project, Captured(tries))
       + if Captured(tries).None? then [Persisted(AfterLaunch(m, tries).manifest)] else [])
  }

  function Concluding(m: Manifest, up: CommandAnswer, guard: Option<Resources>, a: StopAnswers): seq<Entry> {
    Guarding(guard)
    + if guard != Some(m.phase0) then [Persisted(FailedStart(m, OwnershipMismatch))]
      else if Concluded(m.phase0, m.resources, up, guard) then [Persisted(m.(status := Running))]
      else FailingStart(m, a)
  }

  // After a first attempt that brought up nothing.
  function Retrying(m: Manifest, a: StartAnswers): seq<Entry> {
    Guarding(a.guardOnRetry)
    + if a.guardOnRetry != Some(m.phase0) then FailingStart(m, a.stop) else RetryingOnDrive(m, a)
  }

  function RetryingOnDrive(m: Manifest, a: StartAnswers): seq<Entry> {
    var mapped := Mapped(m, a.drivesOnRetry);
    MakingDrive(m, a.drivesOnRetry)
    + if !RetryPrepared(m.source, m.phase0, a) then FailingStart(mapped, a.stop)
      else [Persisted(mapped)] + LaunchedAndConcluded(mapped, a.captureOnRetry, a.upOnRetry, a)
  }

  function LaunchedAndConcluded(m: Manifest, tries: Tries, up: CommandAnswer, a: StartAnswers): seq<Entry> {
    var launched := AfterLaunch(m, tries);
    Launching(m, tries) + if launched.passed then Concluding(launched.manifest, up, a.guard, a.stop) else []
  }

  function BringingUp(m: Manifest, a: StartAnswers): seq<Entry> {
    var launched := AfterLaunch(m, a.capture);
    Launching(m, a.capture)
    + if !launched.passed then []
      else if Retries(m.subst, launched.manifest.resources, a.up) then Retrying(launched.manifest, a)
      else Concluding(launched.manifest, a.up, a.guard, a.stop)
  }

  // A start with no manifest in its way.
  function StartingFresh(root: string, project: string, a: StartAnswers): seq<Entry> {
    if !OwnedName(project) || !a.portsSelected || a.found.None? then []
    else
      [Snapshotted(project, a.found.value)] + if HasResources(a.found.value) then [] else Guarded(root, project, a)
  }

  function Guarded(root: string, project: string, a: StartAnswers): seq<Entry> {
    match a.phase0
    case None => []
    case Some(phase0) => [Snapshotted(PROTECTED_PROJECT, phase0)] + StartingFirst(Fresh0(root, project, phase0), a)
  }

  function StartingFirst(first: Manifest, a: StartAnswers): seq<Entry> {
    Configuring(first, a) + if Configured(first.source, a) then BringingUp(ConfiguredManifest(first, a), a) else []
  }

  function StartScript(file: Option<Manifest>, root: string, project: string, a: StartAnswers): seq<Entry> {
    [Called]
    + if file.Some? && Active(file.value.status) then [] else StartingAnew(file, root, project, a)
  }

  // A stopped manifest is archived first.
  function StartingAnew(file: Option<Manifest>, root: string, project: string, a: StartAnswers): seq<Entry> {
    if file.Some? then [Archived] + StartingFresh(root, project, a) else StartingFresh(root, project, a)
  }
}
