// Which manifests a later stop can still finish, and how a manifest that none
// can finish comes about (scripts/n4_compose_lifecycle.py).
module LifecycleRecovery {
  import opened Wrappers
  import opened LifecycleCalls
  import opened LifecycleLog

  // ---------- Exactly when one stop succeeds

  predicate CheckPasses(m: Manifest, a: StopAnswers) {
    && a.listing.Some?
    && var current := a.listing.value;
       var expected := if Recovering(m) then m.(resources := current) else m;
       && Owns(expected, current, m.configs)
       && (Recovering(m) ==> a.guardOnRecovery == Some(m.phase0))
       && a.guard == Some(m.phase0) && DriveShown(m.subst, a.mapping)
       && (HasResources(current) ==> a.downSucceeds && Captured(a.remaining) == Some(EMPTY))
  }

  lemma ClearingPassesIff(m: Manifest, a: StopAnswers)
    requires m.status != CleanupPending
    ensures AfterClearing(m, a).passed <==> CheckPasses(m, a)
  {
    if a.listing.Some? && Captured(a.remaining).Some? {
      assert HasResources(Captured(a.remaining).value) <==> Captured(a.remaining).value != EMPTY;
    }
    if a.listing.Some? && Recovering(m) {
      var current := a.listing.value;
      OwnershipIsSameLabels(m.(resources := current), current, m.configs);
      OwnershipIsSameLabels(m.(resources := current, cleanup := RecoveryCaptured), current, m.configs);
    }
  }

  // The target fits; the project is the recorded one and goes away, unless that
  // was done before; the drive can be released; the protected project is as it was.
  lemma StopSucceedsIff(m: Manifest, root: string, a: StopAnswers)
    ensures AfterStop(m, root, a).passed <==>
            && TargetFromManifest(m, root).Done?
            && (m.status == CleanupPending || CheckPasses(m, a))
            && (m.subst.Some? ==> DriveShown(m.subst, a.mappingAtRemoval) && a.unmapSucceeds)
            && a.lastGuard == Some(m.phase0)
  {
    if m.status != CleanupPending {
      ClearingPassesIff(m, a);
    }
  }

  // ---------- Manifests that no stop finishes

  predicate OwnLabels(project: string, rows: seq<Row>, containers: bool) {
    forall id <- Ids(rows) :: LabelledRow(project, ById(rows, id), containers)
  }

  predicate RecordedOwn(m: Manifest) {
    && OwnLabels(m.project, m.resources.containers, true)
    && OwnLabels(m.project, m.resources.networks, false)
    && OwnLabels(m.project, m.resources.volumes, false)
  }

  // The drive is gone but the paths point at it; or the mapping was only
  // intended; or a resource was recorded that is not labelled as the project's.
  predicate BeyondStops(m: Manifest) {
    || DriveLost(m)
    || (m.subst.Some? && !m.subst.value.created)
    || (m.status != CleanupPending && !Recovering(m) && !RecordedOwn(m))
  }

  predicate DriveLost(m: Manifest) {
    m.subst.None? && m.configs.OnDrive?
  }

  // Not finished, and no stop can change that.
  predicate Unfinishable(m: Manifest) {
    Active(m.status) && BeyondStops(m)
  }

  // On every safe log the target is refused exactly for another root, or when
  // the drive is gone and the paths still point at it.
  lemma TargetRefusedIff(log: seq<Entry>, root: string)
    requires Safe(log) && Disk(log).Some?
    ensures var m := Disk(log).value;
            TargetFromManifest(m, root).Raised? <==> root != m.source || DriveLost(m)
  {
    DiskFits(log);
  }

  lemma OwnedKindIsLabelled(project: string, expected: seq<Row>, current: seq<Row>, containers: bool)
    requires KindOwned(project, expected, current, containers)
    ensures OwnLabels(project, expected, containers)
  {
    forall id | id in Ids(expected)
      ensures LabelledRow(project, ById(expected, id), containers)
    {
      var i :| 0 <= i < |current| && current[i].id == id;
      assert current[i] in current;
    }
  }

  lemma PassedIsFinishable(m: Manifest, root: string, a: StopAnswers)
    requires TargetFromManifest(m, root).Done? && m.status != CleanupPending && CheckPasses(m, a)
    ensures !BeyondStops(m)
  {
    if !Recovering(m) {
      var current := a.listing.value;
      OwnedKindIsLabelled(m.project, m.resources.containers, current.containers, true);
      OwnedKindIsLabelled(m.project, m.resources.networks, current.networks, false);
      OwnedKindIsLabelled(m.project, m.resources.volumes, current.volumes, false);
    }
  }

  // Every recorded id once more, as looking it up gives it.
  function Latest(rows: seq<Row>): (latest: seq<Row>)
    ensures |latest| == |rows|
    ensures forall i :: 0 <= i < |rows| ==> rows[i].id in Ids(rows) && latest[i] == ById(rows, rows[i].id)
  {
    seq(|rows|, i requires 0 <= i < |rows| => assert rows[i].id in Ids(rows); ById(rows, rows[i].id))
  }

  lemma LatestIsOwned(project: string, rows: seq<Row>, containers: bool)
    requires OwnLabels(project, rows, containers)
    ensures KindOwned(project, rows, Latest(rows), containers)
  {
    var latest := Latest(rows);
    forall id
      ensures id in Ids(rows) <==> id in Ids(latest)
    {
      if id in Ids(rows) {
        var i :| 0 <= i < |rows| && rows[i].id == id;
        assert latest[i].id == id;
      }
    }
    forall row | row in latest
      ensures LabelledRow(project, row, containers) && row.id in Ids(rows) && row == ById(rows, row.id)
    {
      var i :| 0 <= i < |latest| && latest[i] == row;
    }
  }

  // Answers under which a stop succeeds if it can.
  function BestAnswers(m: Manifest): StopAnswers {
    var shown := if m.subst.Some? then Some(m.subst.value.target) else None;
    var found := Resources(Latest(m.resources.containers), Latest(m.resources.networks), Latest(m.resources.volumes));
    StopAnswers(Some(if Recovering(m) then EMPTY else found), Some(m.phase0), Some(m.phase0), shown,
                true, _ => Some(EMPTY), shown, true, Some(m.phase0))
  }

  lemma BestAnswersFinish(log: seq<Entry>)
    requires Safe(log) && Disk(log).Some? && !BeyondStops(Disk(log).value)
    ensures AfterStop(Disk(log).value, Disk(log).value.source, BestAnswers(Disk(log).value)).passed
  {
    var m := Disk(log).value;
    DiskFits(log);
    StopSucceedsIff(m, m.source, BestAnswers(m));
    if m.status != CleanupPending && !Recovering(m) {
      LatestIsOwned(m.project, m.resources.containers, true);
      LatestIsOwned(m.project, m.resources.networks, false);
      LatestIsOwned(m.project, m.resources.volumes, false);
    }
  }

  // After every safe log, some stop with some answers succeeds exactly when the
  // manifest is not beyond stops; so one that is not stopped yet can still be
  // finished exactly when it is not unfinishable.
  lemma FinishableIff(log: seq<Entry>)
    requires Safe(log) && Disk(log).Some?
    ensures var m := Disk(log).value;
            && ((exists root, a :: AfterStop(m, root, a).passed) <==> !BeyondStops(m))
            && (Active(m.status) ==> ((exists root, a :: AfterStop(m, root, a).passed) <==> !Unfinishable(m)))
  {
    var m := Disk(log).value;
    if !BeyondStops(m) {
      BestAnswersFinish(log);
    }
    forall root, a | AfterStop(m, root, a).passed
      ensures !BeyondStops(m)
    {
      StopSucceedsIff(m, root, a);
      if m.status != CleanupPending {
        PassedIsFinishable(m, root, a);
      }
    }
  }

  // A stop that succeeds from a drive leaves a manifest that is finished, and
  // that every further stop refuses.
  lemma StoppedFromDrive(m: Manifest, root: string, a: StopAnswers)
    requires AfterStop(m, root, a).passed && m.configs.OnDrive?
    ensures var stopped := AfterStop(m, root, a).manifest;
            stopped.status == Stopped && BeyondStops(stopped) && !Unfinishable(stopped)
  {
    StopSucceedsIff(m, root, a);
    if m.status != CleanupPending {
      ClearedWasNotStuck(m, root, a);
    }
  }

  // ---------- Runs of stops

  datatype Call = Call(root: string, answers: StopAnswers)

  function AfterStops(m: Manifest, calls: seq<Call>): Manifest {
    if calls == [] then m
    else
      var call := calls[|calls| - 1];
      AfterStop(AfterStops(m, calls[..|calls| - 1]), call.root, call.answers).manifest
  }

  // What a stop that dies leaves: an unfinishable manifest stays so, one that
  // waits for other ids stays as it is, and one that could be finished still can
  // unless its drive was released.
  predicate Interrupted(m: Manifest, a: StopAnswers, left: Manifest) {
    && left.project == m.project && left.source == m.source && left.phase0 == m.phase0
    && (Unfinishable(m) ==> Unfinishable(left))
    && (Mismatched(m, a) ==> left == m.(cleanup := left.cleanup))
    && (!Unfinishable(m) && Unfinishable(left) ==> DriveReleased(m, left))
  }

  // The drive was there and was given back.
  predicate DriveReleased(m: Manifest, left: Manifest) {
    m.subst.Some? && left.subst.None? && left.configs.OnDrive? && left.status == CleanupPending
  }

  // A stop that gets as far as the teardown was not stuck.
  lemma ClearedWasNotStuck(m: Manifest, root: string, a: StopAnswers)
    requires TargetFromManifest(m, root).Done? && m.status != CleanupPending && AfterClearing(m, a).passed
    ensures !BeyondStops(m) && !Mismatched(m, a)
    ensures var cleared := AfterClearing(m, a).manifest;
            && cleared.status == CleanupPending && cleared.subst == m.subst
            && cleared.project == m.project && cleared.source == m.source && cleared.phase0 == m.phase0
  {
    if !Recovering(m) {
      var current := a.listing.value;
      OwnedKindIsLabelled(m.project, m.resources.containers, current.containers, true);
      OwnedKindIsLabelled(m.project, m.resources.networks, current.networks, false);
      OwnedKindIsLabelled(m.project, m.resources.volumes, current.volumes, false);
    }
  }

  lemma AdoptedIsOwn(m: Manifest, current: Resources)
    requires Owns(m.(resources := current), current, m.configs)
    ensures RecordedOwn(m.(resources := current, cleanup := RecoveryCaptured))
  {
    OwnedKindIsLabelled(m.project, current.containers, current.containers, true);
    OwnedKindIsLabelled(m.project, current.networks, current.networks, false);
    OwnedKindIsLabelled(m.project, current.volumes, current.volumes, false);
  }

  // A teardown cut short leaves a manifest that can be finished, until its drive
  // is released.
  lemma PendingCutShort(m: Manifest, pending: Manifest, a: StopAnswers, left: Manifest)
    requires !BeyondStops(m) && pending.status == CleanupPending && pending.subst == m.subst
    requires pending.configs == m.configs && pending.project == m.project && pending.source == m.source
    requires pending.phase0 == m.phase0 && !Mismatched(m, a)
    requires left == pending || left == pending.(subst := None)
    ensures Interrupted(m, a, left)
  {
  }

  lemma FinishingCutShort(m: Manifest, root: string, a: StopAnswers, left: Manifest)
    requires TargetFromManifest(m, root).Done? && m.status == CleanupPending
    requires left == m || (left == m.(subst := None) && (m.subst.Some? ==> m.subst.value.created))
    ensures Interrupted(m, a, left)
  {
  }

  lemma ClearingCutShort(m: Manifest, current: Resources, a: StopAnswers, left: Manifest)
    requires left == m || (Recovering(m) && Owns(m.(resources := current), current, m.configs)
                           && left == m.(resources := current, cleanup := RecoveryCaptured))
    ensures Interrupted(m, a, left)
  {
    if left != m {
      AdoptedIsOwn(m, current);
    }
  }

  lemma NothingRecordedIsOwn(m: Manifest)
    requires m.resources == EMPTY
    ensures RecordedOwn(m)
  {
  }

  predicate LosesDrive(m: Manifest, a: StopAnswers) {
    && m.subst.Some? && DriveShown(m.subst, a.mappingAtRemoval) && a.unmapSucceeds
    && a.lastGuard != Some(m.phase0)
  }

  lemma FinishingLosesDriveIff(m: Manifest, root: string, a: StopAnswers)
    requires TargetFromManifest(m, root).Done? && m.status == CleanupPending && !BeyondStops(m)
    ensures Unfinishable(AfterPending(m, a).manifest) <==> LosesDrive(m, a)
  {
  }

  // A stop that is refused before its teardown leaves a manifest that can still
  // be finished, if there was one.
  lemma RefusalIsHarmless(m: Manifest, a: StopAnswers)
    requires m.status != CleanupPending && !Unfinishable(m) && (Recovering(m) ==> m.resources == EMPTY)
    requires !AfterClearing(m, a).passed
    ensures !Unfinishable(AfterClearing(m, a).manifest)
  {
    if Recovering(m) {
      NothingRecordedIsOwn(m.(cleanup := OwnershipMismatch));
      if a.listing.Some? && Owns(m.(resources := a.listing.value), a.listing.value, m.configs) {
        AdoptedIsOwn(m, a.listing.value);
      }
    }
  }

  // Exactly when a stop that does not die makes a manifest unfinishable: it
  // releases the drive and then finds the protected project changed.
  lemma StopLosesDriveIff(log: seq<Entry>, root: string, a: StopAnswers)
    requires Safe(log) && Disk(log).Some? && !Unfinishable(Disk(log).value)
    ensures var m := Disk(log).value;
            Unfinishable(AfterStop(m, root, a).manifest) <==>
              && TargetFromManifest(m, root).Done? && (m.status == CleanupPending || CheckPasses(m, a))
              && LosesDrive(m, a)
  {
    var m := Disk(log).value;
    DiskFits(log);
    if TargetFromManifest(m, root).Raised? {
      RefusedTargetIsHarmless(m);
    } else if m.status == CleanupPending {
      FinishingLosesDriveIff(m, root, a);
    } else {
      ClearingPassesIff(m, a);
      if AfterClearing(m, a).passed {
        ClearedWasNotStuck(m, root, a);
        ClearedKeepsTarget(m, root, a);
        FinishingLosesDriveIff(AfterClearing(m, a).manifest, root, a);
      } else {
        RefusalIsHarmless(m, a);
      }
    }
  }

  lemma RefusedTargetIsHarmless(m: Manifest)
    requires !Unfinishable(m) && (Recovering(m) ==> m.resources == EMPTY)
    ensures !Unfinishable(m.(cleanup := OwnershipMismatch))
  {
    if Recovering(m) {
      NothingRecordedIsOwn(m.(cleanup := OwnershipMismatch));
    }
  }

  lemma ClearedKeepsTarget(m: Manifest, root: string, a: StopAnswers)
    requires TargetFromManifest(m, root).Done? && m.status != CleanupPending && AfterClearing(m, a).passed
    ensures AfterClearing(m, a).manifest.configs == m.configs
    ensures TargetFromManifest(AfterClearing(m, a).manifest, root).Done?
    ensures !BeyondStops(m) ==> !BeyondStops(AfterClearing(m, a).manifest)
  {
  }

  lemma UnfinishableStays(m: Manifest, root: string, a: StopAnswers)
    requires Unfinishable(m)
    ensures Unfinishable(AfterStop(m, root, a).manifest) && !AfterStop(m, root, a).passed
  {
    StopSucceedsIff(m, root, a);
    if TargetFromManifest(m, root).Done? && m.status != CleanupPending && CheckPasses(m, a) {
      PassedIsFinishable(m, root, a);
    }
  }

  // No run of stops finishes an unfinishable manifest.
  lemma {:induction false} UnfinishableForEver(m: Manifest, calls: seq<Call>)
    requires Unfinishable(m)
    ensures Unfinishable(AfterStops(m, calls))
    ensures forall root, a :: !AfterStop(AfterStops(m, calls), root, a).passed
  {
    if calls != [] {
      var init, call := calls[..|calls| - 1], calls[|calls| - 1];
      UnfinishableForEver(m, init);
      UnfinishableStays(AfterStops(m, init), call.root, call.answers);
    }
    forall root, a
      ensures !AfterStop(AfterStops(m, calls), root, a).passed
    {
      UnfinishableStays(AfterStops(m, calls), root, a);
    }
  }

  // ---------- Manifests that wait for resources that are gone

  predicate SameIds(r: Resources, s: Resources) {
    Ids(r.containers) == Ids(s.containers) && Ids(r.networks) == Ids(s.networks) && Ids(r.volumes) == Ids(s.volumes)
  }

  // The project is listed with other ids than those recorded.
  predicate Mismatched(m: Manifest, a: StopAnswers) {
    && m.status != CleanupPending && !Recovering(m)
    && (a.listing.None? || !SameIds(m.resources, a.listing.value))
  }

  lemma MismatchIsRefused(m: Manifest, root: string, a: StopAnswers)
    requires Mismatched(m, a)
    ensures !AfterStop(m, root, a).passed && !Recovering(AfterStop(m, root, a).manifest)
    ensures AfterStop(m, root, a).manifest == m.(cleanup := AfterStop(m, root, a).manifest.cleanup)
  {
  }

  lemma StuckStaysStuck(m: Manifest, root: string, a: StopAnswers)
    ensures var after := AfterStop(m, root, a);
            && (Unfinishable(m) ==> !after.passed && Unfinishable(after.manifest))
            && (Mismatched(m, a) ==> !after.passed && after.manifest == m.(cleanup := after.manifest.cleanup))
  {
    if Unfinishable(m) {
      UnfinishableStays(m, root, a);
    }
    if Mismatched(m, a) {
      MismatchIsRefused(m, root, a);
    }
  }

  // As long as no listing shows exactly the recorded ids, every stop is refused
  // and changes nothing but the cleanup status.
  lemma {:induction false} RefusedWhileMismatched(m: Manifest, calls: seq<Call>)
    requires m.status != CleanupPending && !Recovering(m)
    requires forall call <- calls ::
               call.answers.listing.None? || !SameIds(m.resources, call.answers.listing.value)
    ensures !Recovering(AfterStops(m, calls))
    ensures AfterStops(m, calls) == m.(cleanup := AfterStops(m, calls).cleanup)
    ensures forall root, a: StopAnswers :: a.listing.None? || !SameIds(m.resources, a.listing.value) ==>
              !AfterStop(AfterStops(m, calls), root, a).passed
  {
    if calls != [] {
      var init, call := calls[..|calls| - 1], calls[|calls| - 1];
      assert forall c <- init :: c in calls;
      RefusedWhileMismatched(m, init);
      assert call in calls;
      MismatchIsRefused(AfterStops(m, init), call.root, call.answers);
    }
    forall root, a: StopAnswers | a.listing.None? || !SameIds(m.resources, a.listing.value)
      ensures !AfterStop(AfterStops(m, calls), root, a).passed
    {
      MismatchIsRefused(AfterStops(m, calls), root, a);
    }
  }

  // What a stop finds may be adopted.
  predicate Adoptable(m: Manifest, a: StopAnswers) {
    && a.listing.Some? && Owns(m.(resources := a.listing.value), a.listing.value, m.configs)
    && a.guardOnRecovery == Some(m.phase0)
  }

  // A stop that meets a start without a listing adopts what it finds, keeps the
  // offer because it could list nothing itself, or takes the offer back. Taken
  // back, nothing is recorded, and every listing with resources is refused.
  lemma RecoveryIsOfferedOnce(log: seq<Entry>, root: string, a: StopAnswers)
    requires Safe(log) && Disk(log).Some? && Recovering(Disk(log).value)
    ensures var m := Disk(log).value;
            var next, fits := AfterStop(m, root, a).manifest, TargetFromManifest(m, root).Done?;
            if fits && a.listing.None? then next == m
            else if fits && Adoptable(m, a) then !Recovering(next) && next.resources == a.listing.value
            else
              && next == m.(cleanup := OwnershipMismatch)
              && forall b: StopAnswers :: b.listing.Some? && HasResources(b.listing.value) ==> Mismatched(next, b)
  {
    var m := Disk(log).value;
    var next := AfterStop(m, root, a).manifest;
    DiskFits(log);
    forall b: StopAnswers | next == m.(cleanup := OwnershipMismatch) && b.listing.Some? && HasResources(b.listing.value)
      ensures Mismatched(next, b)
    {
      RecordedNothing(next, b.listing.value);
    }
    if a.listing.Some? {
      var current := a.listing.value;
      OwnershipIsSameLabels(m.(resources := current), current, m.configs);
      OwnershipIsSameLabels(m.(resources := current, cleanup := RecoveryCaptured), current, m.configs);
    }
  }

  lemma RecordedNothing(m: Manifest, current: Resources)
    requires m.resources == EMPTY && HasResources(current)
    ensures !SameIds(m.resources, current)
  {
    if current.containers != [] {
      assert current.containers[0].id in Ids(current.containers);
    } else if current.networks != [] {
      assert current.networks[0].id in Ids(current.networks);
    } else {
      assert current.volumes[0].id in Ids(current.volumes);
    }
  }
}
