// What a stop of the lifecycle (scripts/n4_compose_lifecycle.py) issues, writes
// and leaves on disk, in terms of the raw answers it gets.
module LifecycleStopOutcomes {
  import opened Wrappers
  import opened LifecycleCalls
  import opened LifecycleLog
  import opened LifecycleScripts
  import opened LifecycleStarts

  // ---------- How a stop goes

  // Stop works on the manifest of its own root, with an owned project and the
  // paths that go with the recorded drive, or without one.
  ghost predicate Fits(m: Manifest, root: string) {
    && m.source == root && OwnedName(m.project)
    && m.configs == if m.subst.None? then AtRoot(root) else OnDrive(m.subst.value.drive)
  }

  // The run created the mapping and subst shows it.
  ghost predicate Shows(m: Manifest, mapping: Option<string>) {
    m.subst.None? || (m.subst.value.created && mapping == Some(m.subst.value.target))
  }

  // The start gave up listing: what stop finds is taken for what was recorded.
  ghost predicate Adopts(m: Manifest) {
    m.status == StartFailed && m.cleanup == CaptureExhausted
  }

  // What is there is labelled as the project's own and is what was recorded.
  ghost predicate IsRecorded(m: Manifest, found: Resources) {
    var record := if Adopts(m) then m.(resources := found) else m;
    Labelled(m.project, found) && SameLabels(record, found)
  }

  ghost predicate AdoptsIt(m: Manifest, found: Resources, a: StopAnswers) {
    Adopts(m) && IsRecorded(m, found) && a.guardOnRecovery == Some(m.phase0)
  }

  // All checks before the teardown pass.
  ghost predicate Cleared(m: Manifest, found: Resources, a: StopAnswers) {
    && IsRecorded(m, found) && (Adopts(m) ==> a.guardOnRecovery == Some(m.phase0))
    && a.guard == Some(m.phase0) && Shows(m, a.mapping)
  }

  ghost predicate Clears(m: Manifest, root: string, a: StopAnswers, found: Resources) {
    Fits(m, root) && m.status != CleanupPending && a.listing == Some(found) && Cleared(m, found, a)
  }

  // The project is brought down only if there is something to bring down.
  ghost predicate BringsDown(m: Manifest, root: string, a: StopAnswers, found: Resources) {
    Clears(m, root, a, found) && found != EMPTY
  }

  ghost predicate TornDownNow(m: Manifest, root: string, a: StopAnswers, found: Resources) {
    Clears(m, root, a, found) && (found == EMPTY || (a.downSucceeds && Lists(a.remaining, EMPTY)))
  }

  // The teardown is behind: it is recorded already, or it was done now.
  ghost predicate IsDown(m: Manifest, root: string, a: StopAnswers) {
    Fits(m, root) && (m.status == CleanupPending || exists found :: TornDownNow(m, root, a, found))
  }

  ghost predicate LetsDriveGo(m: Manifest, root: string, a: StopAnswers) {
    IsDown(m, root, a) && (m.subst.None? || (Shows(m, a.mappingAtRemoval) && a.unmapSucceeds))
  }

  // ---------- Why a stop leaves which cleanup status

  ghost predicate Reason(m: Manifest, root: string, a: StopAnswers, why: CleanupStatus) {
    match why
    case OwnershipMismatch =>
      !Fits(m, root)
      || (m.status != CleanupPending && a.listing.Some? && !Cleared(m, a.listing.value, a))
    case DownFailed => !a.downSucceeds && exists found :: BringsDown(m, root, a, found)
    case ResourcesRemain =>
      a.downSucceeds && exists found, rest :: BringsDown(m, root, a, found) && Lists(a.remaining, rest) && rest != EMPTY
    case RecoveryCaptured => Adopts(m) && LosesSight(m, root, a)
    case SubstBlocked => IsDown(m, root, a) && !LetsDriveGo(m, root, a)
    case Phase0Failed => LetsDriveGo(m, root, a) && a.lastGuard != Some(m.phase0)
    case CleanupStopped => LetsDriveGo(m, root, a) && a.lastGuard == Some(m.phase0)
    case _ => false
  }

  // The down succeeded, and then none of three listings did.
  ghost predicate LosesSight(m: Manifest, root: string, a: StopAnswers) {
    && (exists found :: BringsDown(m, root, a, found)) && a.downSucceeds
    && forall rest :: !Lists(a.remaining, rest)
  }

  // A stop that records nothing at all.
  ghost predicate Silent(m: Manifest, root: string, a: StopAnswers) {
    && Fits(m, root) && m.status != CleanupPending
    && (a.listing.None? || (!Adopts(m) && LosesSight(m, root, a)))
  }

  lemma FitsIff(m: Manifest, root: string)
    ensures TargetFromManifest(m, root).Done? <==> Fits(m, root)
  {
  }

  lemma ChecksPassIff(m: Manifest, root: string, found: Resources, a: StopAnswers)
    requires Fits(m, root)
    ensures AfterCheck(m, found, a).passed <==> Cleared(m, found, a)
    ensures AfterCheck(m, found, a).manifest ==
              if AdoptsIt(m, found, a) then m.(resources := found, cleanup := RecoveryCaptured) else m
  {
    var record := if Adopts(m) then m.(resources := found, cleanup := RecoveryCaptured) else m;
    OwnershipIsSameLabels(record, found, m.configs);
    OwnershipIsSameLabels(m.(resources := found), found, m.configs);
  }

  lemma RemainingIsListed(tries: Tries)
    ensures forall rest :: Lists(tries, rest) <==> Captured(tries) == Some(rest)
    ensures Captured(tries).None? ==> forall rest :: !Lists(tries, rest)
  {
    ListsOnce(tries);
  }

  // What a stop has recorded once the project is down.
  ghost predicate RecordsTeardown(m: Manifest, found: Resources, a: StopAnswers, torn: Manifest) {
    torn == m.(status := CleanupPending, cleanup := DownSucceeded, removed := found,
               resources := if AdoptsIt(m, found, a) then found else m.resources)
  }

  lemma ClearingTells(m: Manifest, root: string, a: StopAnswers)
    requires Fits(m, root) && m.status != CleanupPending
    ensures var cleared := AfterClearing(m, a);
            && (cleared.passed <==> exists found :: TornDownNow(m, root, a, found))
            && (cleared.passed ==> RecordsTeardown(m, a.listing.value, a, cleared.manifest))
            && (!cleared.passed ==>
                  var same := cleared.manifest.(cleanup := m.cleanup);
                  if a.listing.Some? && AdoptsIt(m, a.listing.value, a) then same == m.(resources := a.listing.value)
                  else same == m)
            && (forall why :: Reason(m, root, a, why) && !IsDown(m, root, a) ==> cleared.manifest.cleanup == why)
            && (Silent(m, root, a) ==> cleared.manifest == m)
            && (cleared.passed || Silent(m, root, a) || Reason(m, root, a, cleared.manifest.cleanup))
  {
    RemainingIsListed(a.remaining);
    if a.listing.Some? {
      var found := a.listing.value;
      ChecksPassIff(m, root, found, a);
      assert Clears(m, root, a, found) <==> Cleared(m, found, a);
      assert BringsDown(m, root, a, found) <==> Cleared(m, found, a) && found != EMPTY;
      assert TornDownNow(m, root, a, found) <==> AfterClearing(m, a).passed;
    }
  }

  // From a recorded teardown on.
  lemma PendingTells(m: Manifest, a: StopAnswers)
    ensures var left := AfterPending(m, a).manifest;
            var gone := m.subst.None? || (Shows(m, a.mappingAtRemoval) && a.unmapSucceeds);
            left == if !gone then m.(cleanup := SubstBlocked)
                    else if a.lastGuard != Some(m.phase0) then m.(subst := None, cleanup := Phase0Failed)
                    else m.(subst := None, status := Stopped, cleanup := CleanupStopped)
  {
  }

  // The cleanup status that a stop leaves has its one reason, and every reason
  // leaves its status; only a stop that records nothing leaves an older one.
  lemma CleanupTells(m: Manifest, root: string, a: StopAnswers, why: CleanupStatus)
    ensures AfterStop(m, root, a).manifest.cleanup == why <==>
              Reason(m, root, a, why) || (Silent(m, root, a) && m.cleanup == why)
  {
    FitsIff(m, root);
    if Fits(m, root) && m.status == CleanupPending {
      PendingTells(m, a);
    } else if Fits(m, root) {
      ClearingTells(m, root, a);
      PendingTells(AfterClearing(m, a).manifest, a);
    }
  }

  // What else a stop leaves.
  lemma StopLeaves(m: Manifest, root: string, a: StopAnswers)
    ensures var left := AfterStop(m, root, a).manifest;
            && left.project == m.project && left.source == m.source && left.configs == m.configs
            && left.phase0 == m.phase0
            && left.status == (if Reason(m, root, a, CleanupStopped) then Stopped
                               else if IsDown(m, root, a) then CleanupPending else m.status)
            && left.subst == (if LetsDriveGo(m, root, a) then None else m.subst)
            && (forall found :: TornDownNow(m, root, a, found) ==> left.removed == found)
            && ((forall found :: !TornDownNow(m, root, a, found)) ==> left.removed == m.removed)
            && left.resources ==
                 if Fits(m, root) && m.status != CleanupPending && a.listing.Some? && AdoptsIt(m, a.listing.value, a)
                 then a.listing.value else m.resources
  {
    FitsIff(m, root);
    if Fits(m, root) && m.status == CleanupPending {
      PendingTells(m, a);
    } else if Fits(m, root) {
      ClearingTells(m, root, a);
      PendingTells(AfterClearing(m, a).manifest, a);
    }
  }

  // ---------- What a stop issues and records

  lemma StopIssuesDownIff(m: Manifest, root: string, a: StopAnswers, e: Entry)
    requires e.Down?
    ensures e in StopScript(Some(m), root, a) <==>
              exists found :: BringsDown(m, root, a, found) && e == Down(m.project, m.configs, found)
  {
    FitsIff(m, root);
    FinishingIssuesNoDown(m, a, e);
    FinishingIssuesNoDown(AfterClearing(m, a).manifest, a, e);
    if Fits(m, root) && m.status != CleanupPending {
      ClearingIssuesDownIff(m, root, a, e);
    }
  }

  lemma ClearingIssuesDownIff(m: Manifest, root: string, a: StopAnswers, e: Entry)
    requires e.Down? && Fits(m, root) && m.status != CleanupPending
    ensures e in Clearing(m, a) <==>
              exists found :: BringsDown(m, root, a, found) && e == Down(m.project, m.configs, found)
  {
    if a.listing.Some? {
      var found := a.listing.value;
      ChecksPassIff(m, root, found, a);
      assert BringsDown(m, root, a, found) <==> Cleared(m, found, a) && found != EMPTY;
      assert e !in Checking(m, found, a);
    }
  }

  lemma FinishingIssuesNoDown(m: Manifest, a: StopAnswers, e: Entry)
    requires e.Down?
    ensures e !in Finishing(m, a)
  {
    assert e !in ReleasingDrive(m, a);
  }

  lemma StopIssuesUnmapIff(m: Manifest, root: string, a: StopAnswers, e: Entry)
    requires e.Unmap?
    ensures e in StopScript(Some(m), root, a) <==>
              && IsDown(m, root, a) && m.subst.Some? && Shows(m, a.mappingAtRemoval)
              && e == Unmap(m.subst.value.drive)
  {
    FitsIff(m, root);
    FinishingUnmapsIff(m, a, e);
    FinishingUnmapsIff(AfterClearing(m, a).manifest, a, e);
    if Fits(m, root) && m.status != CleanupPending {
      ClearingTells(m, root, a);
      ClearingUnmapsNothing(m, a, e);
    }
  }

  lemma FinishingUnmapsIff(m: Manifest, a: StopAnswers, e: Entry)
    requires e.Unmap?
    ensures e in Finishing(m, a) <==> m.subst.Some? && Shows(m, a.mappingAtRemoval) && e == Unmap(m.subst.value.drive)
  {
    assert e in Finishing(m, a) <==> e in ReleasingDrive(m, a);
    if m.subst.Some? {
      assert e in ReleasingDrive(m, a) <==> e in Removing(m.subst.value, a.mappingAtRemoval, a.unmapSucceeds);
    }
  }

  lemma ClearingUnmapsNothing(m: Manifest, a: StopAnswers, e: Entry)
    requires e.Unmap?
    ensures e !in Clearing(m, a)
  {
    if a.listing.Some? {
      assert e !in Checking(m, a.listing.value, a);
      assert e !in TearingDown(AfterCheck(m, a.listing.value, a).manifest, a.listing.value, a);
    }
  }

  // The manifest from which the drive is released.
  ghost predicate Down0(m: Manifest, root: string, a: StopAnswers, down: Manifest) {
    if m.status == CleanupPending then Fits(m, root) && down == m
    else exists found :: TornDownNow(m, root, a, found) && RecordsTeardown(m, found, a, down)
  }

  ghost predicate RecordsAdoption(m: Manifest, root: string, a: StopAnswers, adopted: Manifest) {
    && Fits(m, root) && m.status != CleanupPending && a.listing.Some? && AdoptsIt(m, a.listing.value, a)
    && adopted == m.(resources := a.listing.value, cleanup := RecoveryCaptured)
  }

  // What a stop writes on its way: the adopted resources, the teardown, the
  // release of the drive, and what it leaves, unless it records nothing.
  lemma StopRecordsIff(m: Manifest, root: string, a: StopAnswers, e: Entry)
    requires e.Persisted?
    ensures e in StopScript(Some(m), root, a) <==>
              || RecordsAdoption(m, root, a, e.manifest)
              || (m.status != CleanupPending && Down0(m, root, a, e.manifest))
              || (m.subst.Some? && LetsDriveGo(m, root, a)
                  && exists down :: Down0(m, root, a, down) && e.manifest == down.(subst := None))
              || (!Silent(m, root, a) && e.manifest == AfterStop(m, root, a).manifest)
  {
    FitsIff(m, root);
    if Fits(m, root) && m.status == CleanupPending {
      FinishingRecordsIff(m, a, e);
    } else if Fits(m, root) {
      var cleared := AfterClearing(m, a);
      ClearingTells(m, root, a);
      ClearingRecordsIff(m, root, a, e);
      FinishingRecordsIff(cleared.manifest, a, e);
      if cleared.passed {
        assert TornDownNow(m, root, a, a.listing.value);
        assert Down0(m, root, a, cleared.manifest);
      }
    }
  }

  lemma FinishingRecordsIff(m: Manifest, a: StopAnswers, e: Entry)
    requires e.Persisted?
    ensures e in Finishing(m, a) <==>
              || (m.subst.Some? && Shows(m, a.mappingAtRemoval) && a.unmapSucceeds && e.manifest == m.(subst := None))
              || e.manifest == AfterPending(m, a).manifest
  {
    if m.subst.Some? {
      assert e !in Removing(m.subst.value, a.mappingAtRemoval, a.unmapSucceeds);
      assert e in ReleasingDrive(m, a) <==> e.manifest == AfterDrive(m, a).manifest;
    }
  }

  lemma ClearingRecordsIff(m: Manifest, root: string, a: StopAnswers, e: Entry)
    requires e.Persisted? && Fits(m, root) && m.status != CleanupPending
    ensures e in Clearing(m, a) <==>
              || RecordsAdoption(m, root, a, e.manifest)
              || (!Silent(m, root, a) && e.manifest == AfterClearing(m, a).manifest)
  {
    RemainingIsListed(a.remaining);
    if a.listing.Some? {
      var found := a.listing.value;
      ChecksPassIff(m, root, found, a);
      CheckingRecordsIff(m, root, found, a, e);
      assert Clears(m, root, a, found) <==> Cleared(m, found, a);
      assert BringsDown(m, root, a, found) <==> Cleared(m, found, a) && found != EMPTY;
    }
  }

  lemma CheckingRecordsIff(m: Manifest, root: string, found: Resources, a: StopAnswers, e: Entry)
    requires e.Persisted? && Fits(m, root) && a.listing == Some(found) && m.status != CleanupPending
    ensures e in Checking(m, found, a) <==> RecordsAdoption(m, root, a, e.manifest)
  {
    OwnershipIsSameLabels(m.(resources := found), found, m.configs);
    assert e !in Gates(m, found, a) && e !in Gates(Adopted(m, found), found, a);
  }
}
