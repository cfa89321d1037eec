// What a start of the lifecycle (scripts/n4_compose_lifecycle.py) issues and
// leaves on disk, in terms of the raw answers it gets.
module LifecycleStartOutcomes {
  import opened Wrappers
  import opened LifecycleCalls
  import opened LifecycleLog
  import opened LifecycleScripts
  import opened LifecycleStarts

  // Nothing is in the way of a start before it asks for the configuration.
  ghost predicate Clear(file: Option<Manifest>, project: string, a: StartAnswers) {
    && (file.Some? ==> file.value.status == Stopped)
    && OwnedName(project) && a.portsSelected && a.found == Some(EMPTY) && a.phase0.Some?
  }

  // The first manifest of a start: nothing mapped, nothing recorded.
  ghost predicate IsFirst(m: Manifest, root: string, project: string, a: StartAnswers) {
    && a.phase0.Some?
    && m == Manifest(Starting, project, root, AtRoot(root), None, EMPTY, a.phase0.value, NoCleanup, EMPTY)
  }

  // What a manifest becomes when the drives are tried.
  ghost predicate Takes(m: Manifest, d: DriveAnswers, mapped: Manifest) {
    || ((forall drive :: !TakesDrive(d, drive)) && mapped == m)
    || exists drive :: TakesDrive(d, drive)
                       && mapped == m.(subst := Some(Subst(drive, m.source, true)), configs := OnDrive(drive))
  }

  lemma TakesIff(m: Manifest, d: DriveAnswers, mapped: Manifest)
    ensures Takes(m, d, mapped) <==> mapped == Mapped(m, d)
  {
    forall drive
      ensures TakesDrive(d, drive) <==> FirstMapped(d, DRIVES) == Some(drive)
    {
      FirstMappedIff(d, drive);
    }
  }

  // ---------- What a start leaves

  // A manifest that is in the way stays; nothing is left without one exactly when
  // the start fails before its first manifest, or the configuration is wrong.
  lemma StartLeavesNothingIff(file: Option<Manifest>, root: string, project: string, a: StartAnswers)
    ensures file.Some? && file.value.status != Stopped ==> AfterStart(file, root, project, a) == file
    ensures (file.Some? ==> file.value.status == Stopped) ==>
              (AfterStart(file, root, project, a) == None <==>
               !Clear(file, project, a) || a.config == Unresolved(false) || a.config == Resolved(false))
  {
  }

  // No configuration for a root whose name is in the way: the mapping is given
  // back if it is the start's own, or the manifest names the drive it blocks.
  lemma UnresolvedLeaves(file: Option<Manifest>, root: string, project: string, a: StartAnswers, first: Manifest,
                         mapped: Manifest)
    requires Clear(file, project, a) && a.config == Unresolved(true) && !Resolves(root, a)
    requires IsFirst(first, root, project, a) && Takes(first, a.drives, mapped)
    ensures AfterStart(file, root, project, a) ==
              Some(if DriveWorks(a.drives, root) && a.mappingAtRemoval == Some(root) && a.unmapSucceeds then first
                   else mapped.(status := StartFailed, cleanup := SubstBlocked))
  {
    TakesIff(first, a.drives, mapped);
    DriveMadeIff(a.drives, root);
  }

  // The manifest with which the project is first brought up.
  ghost predicate GoesUp(file: Option<Manifest>, root: string, project: string, a: StartAnswers, m: Manifest) {
    && Clear(file, project, a) && Resolves(root, a)
    && exists first :: IsFirst(first, root, project, a)
                       && if a.config == Resolved(true) then m == first else Takes(first, a.drives, m)
  }

  lemma GoesUpIff(file: Option<Manifest>, root: string, project: string, a: StartAnswers, m: Manifest)
    requires Clear(file, project, a) && Resolves(root, a)
    ensures GoesUp(file, root, project, a, m) <==> m == ConfiguredManifest(Fresh0(root, project, a.phase0.value), a)
    ensures Configured(root, a)
    ensures AfterStart(file, root, project, a) ==
              Some(AfterBringUp(ConfiguredManifest(Fresh0(root, project, a.phase0.value), a), a))
  {
    var first := Fresh0(root, project, a.phase0.value);
    assert IsFirst(first, root, project, a);
    TakesIff(first, a.drives, m);
    DriveMadeIff(a.drives, root);
  }

  // A listing came back after an up: the protected project has changed, or the
  // start has succeeded, or it stops what it brought up.
  ghost predicate Concludes(m: Manifest, listed: Resources, up: CommandAnswer, a: StartAnswers, left: Manifest) {
    var up1 := m.(resources := listed);
    if a.guard != Some(m.phase0) then left == up1.(status := StartFailed, cleanup := OwnershipMismatch)
    else if EndsWell(listed, up, a) then left == up1.(status := Running)
    else Stops(up1, a, left)
  }

  // The start fails and calls stop.
  ghost predicate Stops(m: Manifest, a: StartAnswers, left: Manifest) {
    left == AfterStop(m.(status := StartFailed), m.source, a.stop).manifest
  }

  ghost predicate GivesUp(m: Manifest, left: Manifest) {
    left == m.(status := StartFailed, cleanup := CaptureExhausted)
  }

  // A second attempt from a drive is prepared and gets to its up.
  ghost predicate GoesUpAgain(m: Manifest, a: StartAnswers) {
    a.guardOnRetry == a.phase0 && DriveWorks(a.drivesOnRetry, m.source) && a.configOnRetry == Resolved(true)
  }

  lemma ConcludesIff(m: Manifest, listed: Resources, up: CommandAnswer, a: StartAnswers)
    requires a.phase0 == Some(m.phase0)
    ensures Concludes(m, listed, up, a, AfterConclude(m.(resources := listed), up, a.guard, a.stop))
  {
    ExpectedServicesIff(listed);
  }

  lemma ListingSettles(tries: Tries)
    ensures Captured(tries).None? <==> forall listed :: !Lists(tries, listed)
    ensures forall listed :: Lists(tries, listed) <==> Captured(tries) == Some(listed)
  {
    ListsOnce(tries);
    if Captured(tries).Some? {
      assert Lists(tries, Captured(tries).value);
    }
  }

  // What a start leaves once it has brought its project up.
  lemma UpLeaves(file: Option<Manifest>, root: string, project: string, a: StartAnswers, m: Manifest)
    requires GoesUp(file, root, project, a, m)
    ensures AfterStart(file, root, project, a).Some?
    ensures var left := AfterStart(file, root, project, a).value;
            && ((forall listed :: !Lists(a.capture, listed)) ==> GivesUp(m, left))
            && forall listed :: Lists(a.capture, listed) && !AsksForRetry(listed, a) ==>
                                  Concludes(m, listed, a.up, a, left)
  {
    GoesUpIff(file, root, project, a, m);
    ListingSettles(a.capture);
    if Captured(a.capture).Some? {
      ConcludesIff(m, Captured(a.capture).value, a.up, a);
    }
  }

  // What it leaves when the name of the root was in the way of the up: mapped is
  // the manifest once the drives were tried.
  lemma RetryLeaves(file: Option<Manifest>, root: string, project: string, a: StartAnswers, m: Manifest,
                    mapped: Manifest)
    requires GoesUp(file, root, project, a, m) && Lists(a.capture, EMPTY) && AsksForRetry(EMPTY, a)
    requires Takes(m, a.drivesOnRetry, mapped)
    ensures AfterStart(file, root, project, a).Some?
    ensures var left := AfterStart(file, root, project, a).value;
            if a.guardOnRetry != a.phase0 then Stops(m, a, left)
            else if !GoesUpAgain(m, a) then Stops(mapped, a, left)
            else
              && ((forall listed :: !Lists(a.captureOnRetry, listed)) ==> GivesUp(mapped, left))
              && forall listed :: Lists(a.captureOnRetry, listed) ==> Concludes(mapped, listed, a.upOnRetry, a, left)
  {
    GoesUpIff(file, root, project, a, m);
    TakesIff(m, a.drivesOnRetry, mapped);
    DriveMadeIff(a.drivesOnRetry, root);
    ListingSettles(a.capture);
    ListingSettles(a.captureOnRetry);
    assert m.(resources := EMPTY) == m;
    if Captured(a.captureOnRetry).Some? {
      ConcludesIff(mapped, Captured(a.captureOnRetry).value, a.upOnRetry, a);
    }
  }

  // ---------- What a start issues

  ghost predicate Command(e: Entry) {
    e.Up? || e.Down? || e.Map? || e.Unmap?
  }

  // A free letter that is tried: no higher one could be mapped.
  ghost predicate TriesDrive(d: DriveAnswers, drive: char) {
    && 'D' <= drive <= 'Z' && d.mapping(drive).None?
    && forall higher: char :: drive < higher <= 'Z' ==> d.mapping(higher).Some? || !d.mapSucceeds(higher)
  }

  // The k-th letter is free, and none before it could be mapped.
  ghost predicate TriesAt(d: DriveAnswers, drives: string, k: nat) {
    && k < |drives| && d.mapping(drives[k]).None?
    && forall i :: 0 <= i < k ==> !Mappable(d, drives[i])
  }

  ghost predicate TriesIn(d: DriveAnswers, drives: string, drive: char) {
    exists k: nat :: TriesAt(d, drives, k) && drives[k] == drive
  }

  lemma TriesInRest(d: DriveAnswers, drives: string, drive: char)
    requires drives != ""
    ensures TriesIn(d, drives, drive) <==>
              || (drive == drives[0] && d.mapping(drive).None?)
              || (!Mappable(d, drives[0]) && TriesIn(d, drives[1..], drive))
  {
    if drive == drives[0] && d.mapping(drive).None? {
      assert TriesAt(d, drives, 0);
    }
    forall k: nat | TriesAt(d, drives, k) && 0 < k
      ensures !Mappable(d, drives[0]) && TriesAt(d, drives[1..], k - 1)
    {
      assert !Mappable(d, drives[0]);
      assert forall i :: 0 <= i < k - 1 ==> drives[1..][i] == drives[i + 1];
    }
    forall k: nat | !Mappable(d, drives[0]) && TriesAt(d, drives[1..], k)
      ensures TriesAt(d, drives, k + 1)
    {
      assert forall i :: 0 < i <= k ==> drives[i] == drives[1..][i - 1];
    }
  }

  lemma {:induction false} TryingMapsIff(m: Manifest, d: DriveAnswers, drives: string, e: Entry)
    requires Command(e)
    ensures e in TryingDrives(m, d, drives) <==> e.Map? && e.target == m.source && TriesIn(d, drives, e.drive)
  {
    if drives != "" {
      TryingMapsIff(m, d, drives[1..], e);
      if e.Map? {
        TriesInRest(d, drives, e.drive);
      }
      assert e in TryingDrive(m, d, drives[0]) <==>
             d.mapping(drives[0]).None? && e == Map(drives[0], m.source);
    }
  }

  // All letters from Z down to D.
  ghost predicate AllLetters(drives: string) {
    && (forall i, j :: 0 <= i < j < |drives| ==> drives[i] > drives[j])
    && forall c: char :: c in drives <==> 'D' <= c <= 'Z'
  }

  lemma TriedIsHighest(d: DriveAnswers, drives: string, k: nat, higher: char)
    requires AllLetters(drives) && TriesAt(d, drives, k) && drives[k] < higher <= 'Z'
    ensures !Mappable(d, higher)
  {
    assert drives[k] in drives && higher in drives;
    var i :| 0 <= i < |drives| && drives[i] == higher;
  }

  lemma HighestIsTried(d: DriveAnswers, drives: string, k: nat)
    requires AllLetters(drives) && k < |drives| && TriesDrive(d, drives[k])
    ensures TriesAt(d, drives, k)
  {
    forall i | 0 <= i < k
      ensures !Mappable(d, drives[i])
    {
      assert drives[i] in drives && drives[k] < drives[i];
    }
  }

  lemma TriesInLetters(d: DriveAnswers, drives: string, drive: char)
    requires AllLetters(drives)
    ensures TriesIn(d, drives, drive) <==> TriesDrive(d, drive)
  {
    if TriesIn(d, drives, drive) {
      var k: nat :| TriesAt(d, drives, k) && drives[k] == drive;
      assert drive in drives;
      forall higher: char | drive < higher <= 'Z'
        ensures d.mapping(higher).Some? || !d.mapSucceeds(higher)
      {
        TriedIsHighest(d, drives, k, higher);
      }
    } else if TriesDrive(d, drive) {
      assert drive in drives;
      var k: nat :| k < |drives| && drives[k] == drive;
      HighestIsTried(d, drives, k);
    }
  }

  lemma MakingMapsIff(m: Manifest, d: DriveAnswers, e: Entry)
    requires Command(e)
    ensures e in MakingDrive(m, d) <==> e.Map? && e.target == m.source && TriesDrive(d, e.drive)
  {
    TryingMapsIff(m, d, DRIVES, e);
    assert e in MakingDrive(m, d) <==> e in TryingDrives(m, d, DRIVES);
    if e.Map? {
      DrivesAreAllLetters();
      TriesInLetters(d, DRIVES, e.drive);
    }
  }

  // The manifest with which a failed start calls stop, after its last up.
  ghost predicate FailsAt(m: Manifest, tries: Tries, up: CommandAnswer, a: StartAnswers, failed: Manifest) {
    exists listed :: && Lists(tries, listed) && a.guard == a.phase0 && !EndsWell(listed, up, a)
                     && failed == m.(resources := listed, status := StartFailed)
  }

  // The name of the root was in the way of the first up.
  ghost predicate TriesAgain(a: StartAnswers) {
    Lists(a.capture, EMPTY) && AsksForRetry(EMPTY, a)
  }

  ghost predicate FailsWith(m: Manifest, mapped: Manifest, a: StartAnswers, failed: Manifest) {
    if !TriesAgain(a) then FailsAt(m, a.capture, a.up, a, failed)
    else if a.guardOnRetry != a.phase0 then failed == m.(status := StartFailed)
    else if !GoesUpAgain(m, a) then failed == mapped.(status := StartFailed)
    else FailsAt(mapped, a.captureOnRetry, a.upOnRetry, a, failed)
  }

  // The manifests of the first up, and of the second if there is one.
  ghost predicate Attempts(file: Option<Manifest>, root: string, project: string, a: StartAnswers, m: Manifest,
                           mapped: Manifest) {
    GoesUp(file, root, project, a, m) && Takes(m, a.drivesOnRetry, mapped)
  }

  ghost predicate CallsStop(file: Option<Manifest>, root: string, project: string, a: StartAnswers, failed: Manifest) {
    exists m, mapped :: Attempts(file, root, project, a, m, mapped) && FailsWith(m, mapped, a, failed)
  }

  lemma ConcludingIssuesIff(m: Manifest, tries: Tries, up: CommandAnswer, a: StartAnswers, e: Entry)
    requires Command(e) && a.phase0 == Some(m.phase0)
    ensures e in LaunchedAndConcluded(m, tries, up, a) <==>
              || e == Up(m.project, m.configs)
              || exists failed :: FailsAt(m, tries, up, a, failed) && e in StopScript(Some(failed), m.source, a.stop)
  {
    ListingSettles(tries);
    if Captured(tries).Some? {
      var listed := Captured(tries).value;
      var failed := m.(resources := listed, status := StartFailed);
      ExpectedServicesIff(listed);
      assert FailsAt(m, tries, up, a, failed) <==> a.guard == a.phase0 && !EndsWell(listed, up, a);
      assert e in FailingStart(m.(resources := listed), a.stop) <==> e in StopScript(Some(failed), m.source, a.stop);
    }
  }

  // A drive is taken for the configuration, then found useless and given back.
  ghost predicate GivesBack(root: string, a: StartAnswers, drive: char) {
    && a.config == Unresolved(true) && DriveWorks(a.drives, root) && a.configOnDrive != Resolved(true)
    && a.mappingAtRemoval == Some(root) && TakesDrive(a.drives, drive)
  }

  lemma ConfiguringIssuesIff(first: Manifest, a: StartAnswers, e: Entry)
    requires Command(e) && first.subst.None?
    ensures e in Configuring(first, a) <==>
              || (e.Map? && a.config == Unresolved(true) && e.target == first.source && TriesDrive(a.drives, e.drive))
              || (e.Unmap? && GivesBack(first.source, a, e.drive))
  {
    MakingMapsIff(first, a.drives, e);
    DriveMadeIff(a.drives, first.source);
    if e.Unmap? {
      FirstMappedIff(a.drives, e.drive);
    }
    assert e in Unconfiguring(first, a) <==>
           && Mapped(first, a.drives).subst.Some? && a.mappingAtRemoval == Some(first.source)
           && e == Unmap(Mapped(first, a.drives).subst.value.drive);
  }

  // What a second attempt issues.
  ghost predicate RetryIssues(m: Manifest, mapped: Manifest, a: StartAnswers, e: Entry) {
    if a.guardOnRetry != a.phase0 then e in StopScript(Some(m.(status := StartFailed)), m.source, a.stop)
    else
      || (e.Map? && e.target == m.source && TriesDrive(a.drivesOnRetry, e.drive))
      || if GoesUpAgain(m, a) then
           || e == Up(m.project, mapped.configs)
           || exists failed :: FailsAt(mapped, a.captureOnRetry, a.upOnRetry, a, failed)
                               && e in StopScript(Some(failed), m.source, a.stop)
         else e in StopScript(Some(mapped.(status := StartFailed)), m.source, a.stop)
  }

  lemma FailingIssuesIff(m: Manifest, a: StartAnswers, e: Entry)
    requires Command(e)
    ensures e in FailingStart(m, a.stop) <==> e in StopScript(Some(m.(status := StartFailed)), m.source, a.stop)
  {
  }

  lemma RetryingIssuesIff(m: Manifest, mapped: Manifest, a: StartAnswers, e: Entry)
    requires Command(e) && a.phase0 == Some(m.phase0) && Takes(m, a.drivesOnRetry, mapped)
    ensures e in Retrying(m, a) <==> RetryIssues(m, mapped, a, e)
  {
    if a.guardOnRetry != a.phase0 {
      FailingIssuesIff(m, a, e);
    } else {
      RetryingOnDriveIssuesIff(m, mapped, a, e);
    }
  }

  lemma RetryingOnDriveIssuesIff(m: Manifest, mapped: Manifest, a: StartAnswers, e: Entry)
    requires Command(e) && a.phase0 == a.guardOnRetry == Some(m.phase0) && Takes(m, a.drivesOnRetry, mapped)
    ensures e in RetryingOnDrive(m, a) <==> RetryIssues(m, mapped, a, e)
  {
    TakesIff(m, a.drivesOnRetry, mapped);
    DriveMadeIff(a.drivesOnRetry, m.source);
    MakingMapsIff(m, a.drivesOnRetry, e);
    if GoesUpAgain(m, a) {
      ConcludingIssuesIff(mapped, a.captureOnRetry, a.upOnRetry, a, e);
    } else {
      FailingIssuesIff(mapped, a, e);
    }
  }

  lemma BringingUpIssuesIff(m: Manifest, mapped: Manifest, a: StartAnswers, e: Entry)
    requires Command(e) && a.phase0 == Some(m.phase0) && Takes(m, a.drivesOnRetry, mapped) && m.resources == EMPTY
    requires m.subst == None <==> a.config == Resolved(true)
    ensures e in BringingUp(m, a) <==>
              || e == Up(m.project, m.configs)
              || if TriesAgain(a) then RetryIssues(m, mapped, a, e)
                 else exists failed :: FailsAt(m, a.capture, a.up, a, failed)
                                       && e in StopScript(Some(failed), m.source, a.stop)
  {
    ListingSettles(a.capture);
    assert m.(resources := EMPTY) == m;
    if TriesAgain(a) {
      RetryingIssuesIff(m, mapped, a, e);
      assert BringingUp(m, a) == Launching(m, a.capture) + Retrying(m, a);
      assert e in Launching(m, a.capture) <==> e == Up(m.project, m.configs);
    } else {
      ConcludingIssuesIff(m, a.capture, a.up, a, e);
      assert BringingUp(m, a) == LaunchedAndConcluded(m, a.capture, a.up, a);
    }
  }

  lemma FreshIssuesIff(root: string, project: string, a: StartAnswers, e: Entry)
    requires Command(e)
    ensures e in StartingFresh(root, project, a) <==>
              Clear(None, project, a) && e in StartingFirst(Fresh0(root, project, a.phase0.value), a)
  {
    if a.found.Some? {
      assert e in StartingFresh(root, project, a) <==>
             OwnedName(project) && a.portsSelected && !HasResources(a.found.value) && e in Guarded(root, project, a);
    }
  }

  lemma FirstIssuesIff(first: Manifest, a: StartAnswers, e: Entry)
    ensures e in StartingFirst(first, a) <==>
              || e in Configuring(first, a)
              || (Resolves(first.source, a) && e in BringingUp(ConfiguredManifest(first, a), a))
  {
    DriveMadeIff(a.drives, first.source);
  }

  lemma AnewIssuesIff(file: Option<Manifest>, root: string, project: string, a: StartAnswers, e: Entry)
    requires Command(e)
    ensures e in StartScript(file, root, project, a) <==>
              (file.Some? ==> file.value.status == Stopped) && e in StartingFresh(root, project, a)
  {
  }

  lemma StartIssuesIff(file: Option<Manifest>, root: string, project: string, a: StartAnswers, e: Entry)
    requires Command(e)
    ensures e in StartScript(file, root, project, a) <==>
              && Clear(file, project, a)
              && var first := Fresh0(root, project, a.phase0.value);
                 || e in Configuring(first, a)
                 || (Resolves(root, a) && e in BringingUp(ConfiguredManifest(first, a), a))
  {
    AnewIssuesIff(file, root, project, a, e);
    FreshIssuesIff(root, project, a, e);
    if Clear(file, project, a) {
      FirstIssuesIff(Fresh0(root, project, a.phase0.value), a, e);
    }
  }

  lemma StopsBringNothingUp(m: Manifest, root: string, a: StopAnswers, e: Entry)
    requires e.Up? || e.Map?
    ensures e !in StopScript(Some(m), root, a)
  {
    ClearingBringsNothingUp(m, a, e);
    FinishingBringsNothingUp(m, a, e);
    FinishingBringsNothingUp(AfterClearing(m, a).manifest, a, e);
  }

  lemma ClearingBringsNothingUp(m: Manifest, a: StopAnswers, e: Entry)
    requires e.Up? || e.Map?
    ensures e !in Clearing(m, a)
  {
    if a.listing.Some? {
      var current := a.listing.value;
      CheckingBringsNothingUp(m, current, a, e);
      TearingDownBringsNothingUp(AfterCheck(m, current, a).manifest, current, a, e);
    }
  }

  lemma CheckingBringsNothingUp(m: Manifest, current: Resources, a: StopAnswers, e: Entry)
    requires e.Up? || e.Map?
    ensures e !in Checking(m, current, a)
  {
    assert e !in Gates(m, current, a) && e !in Gates(Adopted(m, current), current, a);
  }

  lemma TearingDownBringsNothingUp(m: Manifest, current: Resources, a: StopAnswers, e: Entry)
    requires e.Up? || e.Map?
    ensures e !in TearingDown(m, current, a)
  {
    assert e !in AfterDown(m, current, a);
  }

  lemma FinishingBringsNothingUp(m: Manifest, a: StopAnswers, e: Entry)
    requires e.Up? || e.Map?
    ensures e !in Finishing(m, a)
  {
    assert e !in ReleasingDrive(m, a);
  }

  lemma AttemptsIssue(file: Option<Manifest>, root: string, project: string, a: StartAnswers, e: Entry, m: Manifest,
                      mapped: Manifest)
    requires Command(e) && Attempts(file, root, project, a, m, mapped)
    ensures m.project == project && m.source == root && a.phase0 == Some(m.phase0)
    ensures e in StartScript(file, root, project, a) <==>
              || (e.Map? && a.config == Unresolved(true) && e.target == root && TriesDrive(a.drives, e.drive))
              || e == Up(project, m.configs)
              || if TriesAgain(a) then RetryIssues(m, mapped, a, e)
                 else exists failed :: FailsAt(m, a.capture, a.up, a, failed)
                                       && e in StopScript(Some(failed), root, a.stop)
  {
    var first := Fresh0(root, project, a.phase0.value);
    StartIssuesIff(file, root, project, a, e);
    GoesUpIff(file, root, project, a, m);
    ConfiguringIssuesIff(first, a, e);
    BringingUpIssuesIff(m, mapped, a, e);
  }

  lemma AttemptsExist(file: Option<Manifest>, root: string, project: string, a: StartAnswers)
    returns (m: Manifest, mapped: Manifest)
    requires Clear(file, project, a) && Resolves(root, a)
    ensures Attempts(file, root, project, a, m, mapped)
    ensures forall m1, mapped1 :: Attempts(file, root, project, a, m1, mapped1) ==> m1 == m && mapped1 == mapped
  {
    m := ConfiguredManifest(Fresh0(root, project, a.phase0.value), a);
    mapped := Mapped(m, a.drivesOnRetry);
    forall m1, mapped1
      ensures Attempts(file, root, project, a, m1, mapped1) <==> m1 == m && mapped1 == mapped
    {
      GoesUpIff(file, root, project, a, m1);
      TakesIff(m1, a.drivesOnRetry, mapped1);
    }
  }

  lemma UnresolvedIssues(file: Option<Manifest>, root: string, project: string, a: StartAnswers, e: Entry)
    requires Command(e) && !(Clear(file, project, a) && Resolves(root, a))
    ensures e in StartScript(file, root, project, a) <==>
              && Clear(file, project, a)
              && ((e.Map? && a.config == Unresolved(true) && e.target == root && TriesDrive(a.drives, e.drive))
                  || (e.Unmap? && GivesBack(root, a, e.drive)))
  {
    StartIssuesIff(file, root, project, a, e);
    if Clear(file, project, a) {
      ConfiguringIssuesIff(Fresh0(root, project, a.phase0.value), a, e);
    }
  }

  lemma AttemptsBringUp(file: Option<Manifest>, root: string, project: string, a: StartAnswers, e: Entry, m: Manifest,
                        mapped: Manifest)
    requires (e.Up? || e.Map?) && Attempts(file, root, project, a, m, mapped)
    ensures e in StartScript(file, root, project, a) <==>
              || (e.Map? && a.config == Unresolved(true) && e.target == root && TriesDrive(a.drives, e.drive))
              || e == Up(project, m.configs)
              || (TriesAgain(a) && a.guardOnRetry == a.phase0
                  && ((e.Map? && e.target == root && TriesDrive(a.drivesOnRetry, e.drive))
                      || (GoesUpAgain(m, a) && e == Up(project, mapped.configs))))
  {
    AttemptsIssue(file, root, project, a, e, m, mapped);
    forall failed: Manifest
      ensures e !in StopScript(Some(failed), root, a.stop)
    {
      StopsBringNothingUp(failed, root, a.stop, e);
    }
  }

  // A start brings its project up exactly when nothing is in its way and the
  // configuration resolves, and once more from a drive if the name of the root
  // was in the way of the first up.
  lemma StartIssuesUpIff(file: Option<Manifest>, root: string, project: string, a: StartAnswers, e: Entry)
    requires e.Up?
    ensures e in StartScript(file, root, project, a) <==>
              exists m, mapped ::
                && Attempts(file, root, project, a, m, mapped) && e.project == project
                && (e.configs == m.configs || (TriesAgain(a) && GoesUpAgain(m, a) && e.configs == mapped.configs))
  {
    if Clear(file, project, a) && Resolves(root, a) {
      var m, mapped := AttemptsExist(file, root, project, a);
      AttemptsBringUp(file, root, project, a, e, m, mapped);
    } else {
      UnresolvedIssues(file, root, project, a, e);
    }
  }

  // It maps a free letter from D to Z to its root exactly when the name of the
  // root is in the way and no higher letter could be mapped.
  lemma StartIssuesMapIff(file: Option<Manifest>, root: string, project: string, a: StartAnswers, e: Entry)
    requires e.Map?
    ensures e in StartScript(file, root, project, a) <==>
              && Clear(file, project, a) && e.target == root
              && ((a.config == Unresolved(true) && TriesDrive(a.drives, e.drive))
                  || (TriesAgain(a) && a.guardOnRetry == a.phase0 && TriesDrive(a.drivesOnRetry, e.drive)))
  {
    if Clear(file, project, a) && Resolves(root, a) {
      var m, mapped := AttemptsExist(file, root, project, a);
      AttemptsBringUp(file, root, project, a, e, m, mapped);
    } else {
      UnresolvedIssues(file, root, project, a, e);
    }
  }

  lemma TeardownIsAStop(m: Manifest, mapped: Manifest, a: StartAnswers, e: Entry)
    requires e.Down? || e.Unmap?
    ensures (if TriesAgain(a) then RetryIssues(m, mapped, a, e)
             else exists failed :: FailsAt(m, a.capture, a.up, a, failed)
                                   && e in StopScript(Some(failed), m.source, a.stop))
            <==> exists failed :: FailsWith(m, mapped, a, failed) && e in StopScript(Some(failed), m.source, a.stop)
  {
    assert FailsWith(m, mapped, a, m.(status := StartFailed)) || !TriesAgain(a) || a.guardOnRetry == a.phase0;
  }

  // It brings down and releases only what a stop does that it calls because it
  // failed, and a drive of its own that was no use.
  lemma StartTakesDownIff(file: Option<Manifest>, root: string, project: string, a: StartAnswers, e: Entry)
    requires e.Down? || e.Unmap?
    ensures e in StartScript(file, root, project, a) <==>
              || (Clear(file, project, a) && e.Unmap? && GivesBack(root, a, e.drive))
              || exists failed :: CallsStop(file, root, project, a, failed)
                                  && e in StopScript(Some(failed), root, a.stop)
  {
    if Clear(file, project, a) && Resolves(root, a) {
      var m, mapped := AttemptsExist(file, root, project, a);
      AttemptsIssue(file, root, project, a, e, m, mapped);
      TeardownIsAStop(m, mapped, a, e);
      assert forall failed :: CallsStop(file, root, project, a, failed) <==> FailsWith(m, mapped, a, failed);
    } else {
      UnresolvedIssues(file, root, project, a, e);
    }
  }
}
