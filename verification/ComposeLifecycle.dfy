// Lifecycle.start and Lifecycle.stop (scripts/n4_compose_lifecycle.py). The
// answers of Docker, subst and the ports are arbitrary arguments, and so is the
// number of actions after which a call dies: a sequence of calls on one object
// is a run with crashes.
module ComposeLifecycle {
  import opened Wrappers
  import opened LifecycleCalls
  import opened LifecycleLog
  import opened LifecycleRecovery
  import opened LifecycleScripts

  // A start in progress: what it holds in memory may be written to disk.
  ghost predicate Writable(log: seq<Entry>, m: Manifest) {
    && m.status == Starting && OwnedName(m.project) && m.configs == ConfigsFor(m.source, m.subst)
    && m.cleanup == NoCleanup
    && match Disk(log)
       case None => && m.resources == EMPTY && m.subst == None
                    && Fresh(log, Snapshotted(m.project, EMPTY))
                    && Fresh(log, Snapshotted(PROTECTED_PROJECT, m.phase0))
       case Some(d) => && d.project == m.project && d.phase0 == m.phase0 && d.source == m.source
                       && d.status == Starting && d.subst == m.subst && d.configs == m.configs
                       && (m.resources == d.resources || Fresh(log, Snapshotted(m.project, m.resources)))
  }

  predicate DriveCreated(subst: Option<Subst>) {
    subst.Some? ==> subst.value.created
  }

  class Lifecycle {
    var file: Option<Manifest>
    // After how many more actions the running call dies, if it does.
    var lifetime: Option<nat>
    ghost var log: seq<Entry>

    ghost predicate Valid()
      reads this
    {
      Safe(log) && file == Disk(log)
    }

    constructor ()
      ensures Valid() && file == None && log == []
    {
      file, lifetime, log := None, None, [];
    }

    // ---------- Actions on the machine

    // Anything but a write of the manifest.
    method Act(ghost e: Entry) returns (r: Outcome<()>)
      requires Valid() && Allowed(log, e) && !e.Persisted? && !e.Archived?
      modifies this`log, this`lifetime
      ensures Valid() && !r.Raised?
      ensures Ran(old(log), old(lifetime), [e], log, lifetime, r.Crashed?)
      ensures log == if r.Crashed? then old(log) else old(log) + [e]
      ensures r.Done? ==> Fresh(log, e)
      ensures !Disturbs(e) ==> Keeps(old(log), log)
    {
      if lifetime == Some(0) {
        return Crashed;
      }
      Grows(log, e);
      log, lifetime := log + [e], Spent(lifetime, 1);
      r := Done(());
    }

    method Persist(m: Manifest) returns (r: Outcome<()>)
      requires Valid() && Allowed(log, Persisted(m))
      modifies this
      ensures Valid() && Keeps(old(log), log)
      ensures Ran(old(log), old(lifetime), [Persisted(m)], log, lifetime, r.Crashed?)
      ensures if r.Crashed? then file == old(file) else r.Done? && file == Some(m)
    {
      if lifetime == Some(0) {
        return Crashed;
      }
      Grows(log, Persisted(m));
      log, lifetime := log + [Persisted(m)], Spent(lifetime, 1);
      file := Some(m);
      r := Done(());
    }

    method Archive() returns (r: Outcome<()>)
      requires Valid() && Allowed(log, Archived)
      modifies this
      ensures Valid()
      ensures Ran(old(log), old(lifetime), [Archived], log, lifetime, r.Crashed?)
      ensures if r.Crashed? then file == old(file) else r.Done? && file == None
    {
      if lifetime == Some(0) {
        return Crashed;
      }
      Grows(log, Archived);
      log, lifetime := log + [Archived], Spent(lifetime, 1);
      file := None;
      r := Done(());
    }

    method Snapshot(project: string, answer: Option<Resources>) returns (r: Outcome<Resources>)
      requires Valid()
      modifies this`log, this`lifetime
      ensures Valid() && Keeps(old(log), log)
      ensures Ran(old(log), old(lifetime), Listing(project, answer), log, lifetime, r.Crashed?)
      ensures r.Crashed? || r == Answered(answer)
      ensures r.Done? ==> Fresh(log, Snapshotted(project, r.value))
      ensures answer.None? ==> r.Raised? && log == old(log) && lifetime == old(lifetime)
    {
      var found :- Answered(answer);
      var _ :- Act(Snapshotted(project, found));
      r := Done(found);
    }

    method Capture(project: string, tries: Tries) returns (r: Outcome<Resources>)
      requires Valid()
      modifies this`log, this`lifetime
      ensures Valid() && Keeps(old(log), log)
      ensures Ran(old(log), old(lifetime), Listing(project, Captured(tries)), log, lifetime, r.Crashed?)
      ensures r.Crashed? || r == Answered(Captured(tries))
      ensures r.Done? ==> Fresh(log, Snapshotted(project, r.value))
    {
      r := Raised;
      for attempt := 0 to 3
        invariant Valid() && log == old(log) && lifetime == old(lifetime) && r.Raised?
        invariant forall k :: 0 <= k < attempt ==> tries(k).None?
      {
        r := Snapshot(project, tries(attempt));
        if !r.Raised? {
          return;
        }
      }
    }

    method ComposeUp(project: string, configs: Configs, answer: CommandAnswer) returns (r: Outcome<CommandAnswer>)
      requires Valid() && UpAllowed(log, project, configs)
      modifies this`log, this`lifetime
      ensures Valid()
      ensures Ran(old(log), old(lifetime), [Up(project, configs)], log, lifetime, r.Crashed?)
      ensures r.Crashed? || (r == Done(answer) && Fresh(log, Up(project, configs)))
    {
      var _ :- Act(Up(project, configs));
      r := Done(answer);
    }

    method ComposeDown(project: string, configs: Configs, seen: Resources, succeeds: bool) returns (r: Outcome<bool>)
      requires Valid() && DownAllowed(log, project, configs, seen)
      modifies this`log, this`lifetime
      ensures Valid()
      ensures Ran(old(log), old(lifetime), [Down(project, configs, seen)], log, lifetime, r.Crashed?)
      ensures r.Crashed? || r == Done(succeeds)
    {
      var _ :- Act(Down(project, configs, seen));
      r := Done(succeeds);
    }

    // ---------- Drive mappings

    method SubstMapping(drive: char, answer: Option<string>) returns (r: Outcome<Option<string>>)
      requires Valid()
      modifies this`log, this`lifetime
      ensures Valid() && Keeps(old(log), log)
      ensures Ran(old(log), old(lifetime), [DriveQueried(drive, answer)], log, lifetime, r.Crashed?)
      ensures r.Crashed? || (r == Done(answer) && Fresh(log, DriveQueried(drive, answer)))
    {
      var _ :- Act(DriveQueried(drive, answer));
      r := Done(answer);
    }

    method ValidateSubst(s: Subst, answer: Option<string>) returns (r: Outcome<()>)
      requires Valid()
      modifies this`log, this`lifetime
      ensures Valid() && Keeps(old(log), log)
      ensures Ran(old(log), old(lifetime), Confirming(s, answer), log, lifetime, r.Crashed?)
      ensures r.Crashed? || (r.Done? <==> s.created && answer == Some(s.target))
      ensures r.Done? ==> DriveConfirmed(log, s)
    {
      if !s.created {
        return Raised;
      }
      var mapping :- SubstMapping(s.drive, answer);
      r := if mapping == Some(s.target) then Done(()) else Raised;
    }

    // Removing a mapping asks who owns it first.
    method RemoveOwnedSubst(s: Subst, answer: Option<string>, succeeds: bool) returns (r: Outcome<()>)
      requires Valid() && file.Some? && file.value.subst == Some(s)
      modifies this`log, this`lifetime
      ensures Valid()
      ensures Ran(old(log), old(lifetime), Removing(s, answer, succeeds), log, lifetime, r.Crashed?)
      ensures r.Crashed? || (r.Done? <==> s.created && answer == Some(s.target) && succeeds)
      ensures r.Done? ==> Fresh(log, Unmapped(s.drive))
    {
      ghost var query := [DriveQueried(s.drive, answer)];
      ghost var answered := if succeeds then [Unmapped(s.drive)] else [];
      Splits(log, lifetime, query, [Unmap(s.drive)]);
      Splits(log, lifetime, query + [Unmap(s.drive)], answered);
      assert query + [Unmap(s.drive)] == [DriveQueried(s.drive, answer), Unmap(s.drive)];
      var _ :- ValidateSubst(s, answer);
      var _ :- Act(Unmap(s.drive));
      if !succeeds {
        return Raised;
      }
      var _ :- Act(Unmapped(s.drive));
      r := Done(());
    }

    // The recorder that start hands to the mapping code.
    method RecordSubst(manifest: Manifest, record: Option<Subst>) returns (r: Outcome<()>, next: Manifest)
      requires Valid() && Writable(log, manifest)
      requires SubstAllowed(log, manifest, manifest.(subst := record))
      modifies this
      ensures Valid() && Keeps(old(log), log)
      ensures next == WithSubst(manifest, record)
      ensures Ran(old(log), old(lifetime), [Persisted(next)], log, lifetime, r.Crashed?)
      ensures r.Crashed? || (r.Done? && file == Some(next) && Writable(log, next))
    {
      next := manifest.(subst := record, configs := ConfigsFor(manifest.source, record));
      r := Persist(next);
    }

    // The first free drive letter that can be mapped, and that then shows the
    // root.
    method CreateSubstMapping(manifest: Manifest, d: DriveAnswers) returns (r: Outcome<Subst>, next: Manifest)
      requires Valid() && Writable(log, manifest) && manifest.subst == None
      modifies this
      ensures Valid()
      ensures next == manifest.(subst := next.subst, configs := next.configs)
      ensures Ran(old(log), old(lifetime), MakingDrive(manifest, d), log, lifetime, r.Crashed?)
      ensures r.Crashed? || (Writable(log, next) && next == Mapped(manifest, d)
                             && (r.Done? <==> DriveMade(d, manifest.source)))
      ensures r.Done? ==> next.subst == Some(r.value) && file == Some(next)
    {
      ghost var first := FirstMapped(d, DRIVES);
      Splits(log, lifetime, TryingDrives(manifest, d, DRIVES),
             if first.None? then [] else [DriveQueried(first.value, d.confirmed)]);
      var mapped;
      mapped, next := MapFirstDrive(manifest, d, DRIVES);
      var record :- mapped;
      var valid := ValidateSubst(record, d.confirmed);
      var _ :- valid;
      r := Done(record);
    }

    // The intention to map is recorded before, and taken back when mapping is
    // refused.
    method MapFirstDrive(manifest: Manifest, d: DriveAnswers, drives: string)
      returns (r: Outcome<Subst>, next: Manifest)
      requires Valid() && Writable(log, manifest) && manifest.subst == None
      modifies this
      ensures Valid()
      ensures next == manifest.(subst := next.subst, configs := next.configs)
      ensures Ran(old(log), old(lifetime), TryingDrives(manifest, d, drives), log, lifetime, r.Crashed?)
      ensures r.Crashed? || (Writable(log, next) && (r.Done? <==> FirstMapped(d, drives).Some?))
      ensures r.Raised? ==> next == manifest
      ensures r.Done? ==> next == WithSubst(manifest, Some(r.value)) && file == Some(next)
                          && r.value == Subst(FirstMapped(d, drives).value, manifest.source, true)
    {
      next := manifest;
      var left := drives;
      ghost var tried: seq<Entry>, all, first := [], TryingDrives(manifest, d, drives), FirstMapped(d, drives);
      for i := 0 to |drives|
        invariant Valid() && Writable(log, manifest) && next == manifest
        invariant left == drives[i..] && first == FirstMapped(d, left)
        invariant all == tried + TryingDrives(manifest, d, left)
        invariant Ran(old(log), old(lifetime), tried, log, lifetime, false)
      {
        r, next := TryNextDrive(manifest, d, left, old(log), old(lifetime), tried, all);
        if !r.Raised? {
          return;
        }
        tried, left := tried + TryingDrive(manifest, d, drives[i]), left[1..];
      }
      assert left == "" && all == tried;
      r := Raised;
    }

    // One round of the loop, after the drives that were tried in vain.
    method TryNextDrive(manifest: Manifest, d: DriveAnswers, left: string, ghost before: seq<Entry>,
                        ghost life: Option<nat>, ghost tried: seq<Entry>, ghost all: seq<Entry>)
      returns (r: Outcome<Subst>, next: Manifest)
      requires Valid() && Writable(log, manifest) && manifest.subst == None
      requires left != "" && all == tried + TryingDrives(manifest, d, left)
      requires Ran(before, life, tried, log, lifetime, false)
      modifies this
      ensures Valid()
      ensures next == manifest.(subst := next.subst, configs := next.configs)
      ensures !r.Raised? ==> Ran(before, life, all, log, lifetime, r.Crashed?)
      ensures r.Raised? ==>
                && next == manifest
                && Ran(before, life, tried + TryingDrive(manifest, d, left[0]), log, lifetime, false)
                && all == (tried + TryingDrive(manifest, d, left[0])) + TryingDrives(manifest, d, left[1..])
      ensures r.Crashed? || (Writable(log, next) && (r.Done? <==> Mappable(d, left[0])))
      ensures r.Done? ==> next == WithSubst(manifest, Some(r.value)) && file == Some(next)
                          && r.value == Subst(left[0], manifest.source, true)
    {
      NextDrive(before, life, manifest, d, tried, all, left, log, lifetime);
      r, next := TryDrive(manifest, d, left[0]);
    }

    method TryDrive(manifest: Manifest, d: DriveAnswers, drive: char) returns (r: Outcome<Subst>, next: Manifest)
      requires Valid() && Writable(log, manifest) && manifest.subst == None
      modifies this
      ensures Valid()
      ensures Ran(old(log), old(lifetime), TryingDrive(manifest, d, drive), log, lifetime, r.Crashed?)
      ensures next == manifest.(subst := next.subst, configs := next.configs)
      ensures r.Crashed? || (Writable(log, next) && (r.Done? <==> d.mapping(drive).None? && d.mapSucceeds(drive)))
      ensures r.Done? ==> next == WithSubst(manifest, Some(r.value)) && file == Some(next)
                          && r.value == Subst(drive, manifest.source, true)
      ensures r.Raised? ==> next == manifest
    {
      next := manifest;
      Splits(log, lifetime, [DriveQueried(drive, d.mapping(drive))],
             if d.mapping(drive).Some? then [] else MappingDrive(manifest, drive, d.mapSucceeds(drive)));
      var mapping :- SubstMapping(drive, d.mapping(drive));
      if mapping.Some? {
        return Raised, next;
      }
      r, next := MapDrive(manifest, drive, d.mapSucceeds(drive));
    }

    method MapDrive(manifest: Manifest, drive: char, succeeds: bool) returns (r: Outcome<Subst>, next: Manifest)
      requires Valid() && Writable(log, manifest) && manifest.subst == None && Fresh(log, DriveQueried(drive, None))
      modifies this
      ensures Valid()
      ensures next == manifest.(subst := next.subst, configs := next.configs)
      ensures Ran(old(log), old(lifetime), MappingDrive(manifest, drive, succeeds), log, lifetime, r.Crashed?)
      ensures r.Crashed? || (Writable(log, next) && file == Some(next) && (r.Done? <==> succeeds))
      ensures r.Done? ==> r.value == Subst(drive, manifest.source, true) && next == WithSubst(manifest, Some(r.value))
      ensures r.Raised? ==> next == manifest
    {
      ghost var intent := [Persisted(WithSubst(manifest, Some(Subst(drive, manifest.source, false))))];
      Splits(log, lifetime, intent, [Map(drive, manifest.source)]);
      Splits(log, lifetime, intent + [Map(drive, manifest.source)], Mapping(manifest, drive, succeeds));
      assert MappingDrive(manifest, drive, succeeds)
          == (intent + [Map(drive, manifest.source)]) + Mapping(manifest, drive, succeeds);
      var saved;
      saved, next := RecordSubst(manifest, Some(Subst(drive, manifest.source, false)));
      var _ :- saved;
      var _ :- Act(Map(drive, manifest.source));
      r, next := RecordMapped(manifest, next, drive, succeeds);
    }

    // The answer to a mapping is recorded.
    method RecordMapped(manifest: Manifest, intended: Manifest, drive: char, succeeds: bool)
      returns (r: Outcome<Subst>, next: Manifest)
      requires Valid() && Writable(log, intended)
      requires intended == WithSubst(manifest, Some(Subst(drive, manifest.source, false)))
      requires manifest.subst == None && manifest.configs == ConfigsFor(manifest.source, None)
      requires log != [] && Last(log) == Map(drive, manifest.source)
      modifies this
      ensures Valid()
      ensures Ran(old(log), old(lifetime), Mapping(manifest, drive, succeeds), log, lifetime, r.Crashed?)
      ensures next == manifest.(subst := next.subst, configs := next.configs)
      ensures r.Crashed? || (Writable(log, next) && file == Some(next) && (r.Done? <==> succeeds))
      ensures r.Done? ==> r.value == Subst(drive, manifest.source, true) && next == WithSubst(manifest, Some(r.value))
      ensures r.Raised? ==> next == manifest
    {
      next := intended;
      var saved;
      if succeeds {
        saved, next := RecordSubst(intended, Some(Subst(drive, manifest.source, true)));
        var _ :- saved;
        r := Done(Subst(drive, manifest.source, true));
      } else {
        Splits(log, lifetime, [MapFailed(drive)], [Persisted(WithSubst(manifest, None))]);
        assert [MapFailed(drive)] + [Persisted(WithSubst(manifest, None))] == Mapping(manifest, drive, false);
        var _ :- Act(MapFailed(drive));
        saved, next := RecordSubst(intended, None);
        var _ :- saved;
        r := Raised;
      }
    }

    // ---------- stop

    method Phase0Unchanged(manifest: Manifest, answer: Option<Resources>) returns (r: Outcome<()>)
      requires Valid()
      modifies this`log, this`lifetime
      ensures Valid() && Keeps(old(log), log)
      ensures Ran(old(log), old(lifetime), Guarding(answer), log, lifetime, r.Crashed?)
      ensures r.Crashed? || (r.Done? <==> answer == Some(manifest.phase0))
      ensures r.Done? ==> Fresh(log, Snapshotted(PROTECTED_PROJECT, manifest.phase0))
    {
      var found :- Snapshot(PROTECTED_PROJECT, answer);
      r := if found == manifest.phase0 then Done(()) else Raised;
    }

    // Record why stop gives up, and raise.
    method Refuse<T>(manifest: Manifest, why: CleanupStatus) returns (r: Outcome<T>)
      requires Valid() && file == Some(manifest) && why != CaptureExhausted
      modifies this
      ensures Valid() && !r.Done?
      ensures Ran(old(log), old(lifetime), [Persisted(manifest.(cleanup := why))], log, lifetime, r.Crashed?)
      ensures if r.Crashed? then file == old(file) else file == Some(manifest.(cleanup := why))
    {
      DiskFits(log);
      if manifest.status == Stopped {
        StoppedHasNoDrive(log);
      }
      var _ :- Persist(manifest.(cleanup := why));
      r := Raised;
    }

    // The checks of what stop is about to tear down.
    method CheckGates(manifest: Manifest, current: Resources, a: StopAnswers) returns (r: Outcome<()>)
      requires Valid() && file == Some(manifest) && Fresh(log, Snapshotted(manifest.project, current))
      modifies this`log, this`lifetime
      ensures Valid() && Keeps(old(log), log)
      ensures Ran(old(log), old(lifetime), Gates(manifest, current, a), log, lifetime, r.Crashed?)
      ensures r.Crashed? || (r.Done? <==> Owns(manifest, current, manifest.configs) && a.guard == Some(manifest.phase0)
                                          && DriveShown(manifest.subst, a.mapping))
      ensures r.Done? ==> Fresh(log, Snapshotted(PROTECTED_PROJECT, manifest.phase0))
      ensures r.Done? && manifest.subst.Some? ==> DriveConfirmed(log, manifest.subst.value)
    {
      if !Owns(manifest, current, manifest.configs) {
        return Raised;
      }
      Splits(log, lifetime, Guarding(a.guard), if a.guard == Some(manifest.phase0) && manifest.subst.Some?
                                               then Confirming(manifest.subst.value, a.mapping) else []);
      var _ :- Phase0Unchanged(manifest, a.guard);
      if manifest.subst.Some? {
        var _ :- ValidateSubst(manifest.subst.value, a.mapping);
      }
      r := Done(());
    }

    // The checks before anything is torn down. A start that could not list its
    // resources has them adopted here, once they carry the project's labels.
    method CheckOwnership(manifest: Manifest, current: Resources, configs: Configs, a: StopAnswers)
      returns (r: Outcome<()>, next: Manifest)
      requires Valid() && file == Some(manifest) && Fresh(log, Snapshotted(manifest.project, current))
      requires configs == manifest.configs
      modifies this
      ensures Valid() && Keeps(old(log), log) && file == Some(next)
      ensures Ran(old(log), old(lifetime), Checking(manifest, current, a), log, lifetime, r.Crashed?)
      ensures next == manifest || (Recovering(manifest) && next == Adopted(manifest, current)
                                   && Owns(manifest.(resources := current), current, configs))
      ensures r.Crashed? || (next == AfterCheck(manifest, current, a).manifest
                             && (r.Done? <==> AfterCheck(manifest, current, a).passed))
      ensures r.Done? ==> Owns(next, current, configs) && Fresh(log, Snapshotted(PROTECTED_PROJECT, next.phase0))
      ensures r.Done? && next.subst.Some? ==> DriveConfirmed(log, next.subst.value)
    {
      next := manifest;
      if !Recovering(manifest) {
        r := CheckGates(next, current, a);
        return;
      }
      if !Owns(manifest.(resources := current), current, configs) {
        return Raised, next;
      }
      ghost var adopting := [Persisted(Adopted(manifest, current))];
      ghost var gates := Gates(Adopted(manifest, current), current, a);
      Splits(log, lifetime, Guarding(a.guardOnRecovery),
             if a.guardOnRecovery != Some(manifest.phase0) then [] else adopting + gates);
      var _ :- Phase0Unchanged(manifest, a.guardOnRecovery);
      Splits(log, lifetime, adopting, gates);
      var saved := Persist(Adopted(manifest, current));
      var _ :- saved;
      next := Adopted(manifest, current);
      r := CheckGates(next, current, a);
    }

    // Bring the project down when it has resources, and record the teardown
    // once nothing is left.
    method TearDown(manifest: Manifest, current: Resources, configs: Configs, a: StopAnswers)
      returns (r: Outcome<()>, next: Manifest)
      requires Valid() && file == Some(manifest) && manifest.status != CleanupPending
      requires configs == ConfigsFor(manifest.source, manifest.subst) && OwnedName(manifest.project)
      requires Fresh(log, Snapshotted(manifest.project, current)) && Owns(manifest, current, configs)
      requires Fresh(log, Snapshotted(PROTECTED_PROJECT, manifest.phase0))
      requires manifest.subst.Some? ==> DriveConfirmed(log, manifest.subst.value)
      modifies this
      ensures Valid() && file.Some?
      ensures Ran(old(log), old(lifetime), TearingDown(manifest, current, a), log, lifetime, r.Crashed?)
      ensures if r.Crashed? then file == Some(manifest)
              else file == Some(AfterTearDown(manifest, current, a).manifest)
                   && (r.Done? <==> AfterTearDown(manifest, current, a).passed)
      ensures r.Done? ==> file == Some(next)
    {
      next := manifest.(status := CleanupPending, cleanup := DownSucceeded, removed := current);
      if HasResources(current) {
        Splits(log, lifetime, [Down(manifest.project, configs, current)], AfterDown(manifest, current, a));
        var succeeded :- ComposeDown(manifest.project, configs, current, a.downSucceeds);
        if !succeeded {
          r := Refuse(manifest, DownFailed);
          return;
        }
        r := ListRemaining(manifest, current, a);
      } else {
        r := Persist(next);
      }
    }

    // After a down that succeeded: nothing may be left.
    method ListRemaining(manifest: Manifest, current: Resources, a: StopAnswers) returns (r: Outcome<()>)
      requires Valid() && file == Some(manifest) && manifest.status != CleanupPending
      requires HasResources(current) && a.downSucceeds
      modifies this
      ensures Valid() && file.Some?
      ensures Ran(old(log), old(lifetime), AfterDown(manifest, current, a), log, lifetime, r.Crashed?)
      ensures if r.Crashed? then file == Some(manifest)
              else file == Some(AfterTearDown(manifest, current, a).manifest)
                   && (r.Done? <==> AfterTearDown(manifest, current, a).passed)
    {
      Splits(log, lifetime, Listing(manifest.project, Captured(a.remaining)),
             if Captured(a.remaining).None? then [] else [Persisted(AfterTearDown(manifest, current, a).manifest)]);
      var remaining :- Capture(manifest.project, a.remaining);
      if HasResources(remaining) {
        r := Refuse(manifest, ResourcesRemain);
      } else {
        r := Persist(manifest.(status := CleanupPending, cleanup := DownSucceeded, removed := current));
      }
    }

    method RemoveDrive(manifest: Manifest, a: StopAnswers) returns (r: Outcome<()>, next: Manifest)
      requires Valid() && file == Some(manifest) && manifest.status == CleanupPending
      modifies this
      ensures Valid() && file.Some?
      ensures Ran(old(log), old(lifetime), ReleasingDrive(manifest, a), log, lifetime, r.Crashed?)
      ensures if r.Crashed? then file == Some(manifest)
              else file == Some(AfterDrive(manifest, a).manifest) && (r.Done? <==> AfterDrive(manifest, a).passed)
      ensures next == manifest.(subst := None)
    {
      next := manifest.(subst := None);
      if manifest.subst.Some? {
        Splits(log, lifetime, Removing(manifest.subst.value, a.mappingAtRemoval, a.unmapSucceeds),
               [Persisted(AfterDrive(manifest, a).manifest)]);
        var removed := RemoveOwnedSubst(manifest.subst.value, a.mappingAtRemoval, a.unmapSucceeds);
        if removed.Raised? {
          r := Refuse(manifest, SubstBlocked);
          return;
        }
        var _ :- removed;
        var _ :- Persist(next);
      }
      r := Done(());
    }

    // From a teardown on disk to a stopped manifest.
    method FinishPending(pending: Manifest, a: StopAnswers) returns (r: Outcome<Manifest>)
      requires Valid() && file == Some(pending) && pending.status == CleanupPending
      modifies this
      ensures Valid() && file.Some?
      ensures Ran(old(log), old(lifetime), Finishing(pending, a), log, lifetime, r.Crashed?)
      ensures if r.Crashed? then
                file == Some(pending) || (file == Some(pending.(subst := None)) && DriveCreated(pending.subst))
              else file == Some(AfterPending(pending, a).manifest) && (r.Done? <==> AfterPending(pending, a).passed)
      ensures r.Done? ==> file == Some(r.value)
    {
      ghost var result := [Persisted(AfterPending(pending, a).manifest)];
      Splits(log, lifetime, ReleasingDrive(pending, a),
             if !AfterDrive(pending, a).passed then [] else Guarding(a.lastGuard) + result);
      var undriven, manifest := RemoveDrive(pending, a);
      var _ :- undriven;
      r := FinishUndriven(pending, manifest, a);
    }

    method FinishUndriven(pending: Manifest, manifest: Manifest, a: StopAnswers) returns (r: Outcome<Manifest>)
      requires Valid() && file == Some(manifest) && pending.status == CleanupPending
      requires AfterDrive(pending, a).passed && manifest == pending.(subst := None)
      modifies this
      ensures Valid() && file.Some?
      ensures Ran(old(log), old(lifetime), Guarding(a.lastGuard) + [Persisted(AfterPending(pending, a).manifest)], log,
                  lifetime, r.Crashed?)
      ensures if r.Crashed? then file == Some(manifest)
              else file == Some(AfterPending(pending, a).manifest) && (r.Done? <==> AfterPending(pending, a).passed)
      ensures r.Done? ==> file == Some(r.value)
    {
      Splits(log, lifetime, Guarding(a.lastGuard), [Persisted(AfterPending(pending, a).manifest)]);
      var same := Phase0Unchanged(manifest, a.lastGuard);
      if same.Raised? {
        r := Refuse(manifest, Phase0Failed);
        return;
      }
      var _ :- same;
      var stopped := manifest.(status := Stopped, cleanup := CleanupStopped);
      var _ :- Persist(stopped);
      r := Done(stopped);
    }

    // List the project, check that it is the recorded one, and tear it down.
    method ClearProject(manifest: Manifest, a: StopAnswers) returns (r: Outcome<Manifest>)
      requires Valid() && file == Some(manifest) && manifest.status != CleanupPending
      requires manifest.configs == ConfigsFor(manifest.source, manifest.subst) && OwnedName(manifest.project)
      modifies this
      ensures Valid() && file.Some?
      ensures Ran(old(log), old(lifetime), Clearing(manifest, a), log, lifetime, r.Crashed?)
      ensures if r.Crashed? then
                file == Some(manifest)
                || (Recovering(manifest) && a.listing.Some? && file == Some(Adopted(manifest, a.listing.value))
                    && Owns(manifest.(resources := a.listing.value), a.listing.value, manifest.configs))
              else file == Some(AfterClearing(manifest, a).manifest)
                   && (r.Done? <==> AfterClearing(manifest, a).passed)
      ensures r.Done? ==> file == Some(r.value)
    {
      Splits(log, lifetime, Listing(manifest.project, a.listing),
             if a.listing.None? then [] else ClearingListed(manifest, a.listing.value, a));
      var current :- Snapshot(manifest.project, a.listing);
      r := ClearListed(manifest, current, a);
    }

    method ClearListed(manifest: Manifest, current: Resources, a: StopAnswers) returns (r: Outcome<Manifest>)
      requires Valid() && file == Some(manifest) && manifest.status != CleanupPending
      requires manifest.configs == ConfigsFor(manifest.source, manifest.subst) && OwnedName(manifest.project)
      requires a.listing == Some(current) && Fresh(log, Snapshotted(manifest.project, current))
      modifies this
      ensures Valid() && file.Some?
      ensures Ran(old(log), old(lifetime), ClearingListed(manifest, current, a), log, lifetime, r.Crashed?)
      ensures if r.Crashed? then
                file == Some(manifest)
                || (Recovering(manifest) && a.listing.Some? && file == Some(Adopted(manifest, a.listing.value))
                    && Owns(manifest.(resources := a.listing.value), a.listing.value, manifest.configs))
              else file == Some(AfterClearing(manifest, a).manifest)
                   && (r.Done? <==> AfterClearing(manifest, a).passed)
      ensures r.Done? ==> file == Some(r.value)
    {
      ghost var left := AfterCheck(manifest, current, a);
      Splits(log, lifetime, Checking(manifest, current, a),
             if left.passed then TearingDown(left.manifest, current, a)
             else [Persisted(left.manifest.(cleanup := OwnershipMismatch))]);
      var owned, checked := CheckOwnership(manifest, current, manifest.configs, a);
      if owned.Raised? {
        r := Refuse(checked, OwnershipMismatch);
        return;
      }
      var _ :- owned;
      var down, torn := TearDown(checked, current, manifest.configs, a);
      var _ :- down;
      r := Done(torn);
    }

    // The body of stop, also run by a start that failed.
    method RunStop(root: string, a: StopAnswers) returns (r: Outcome<Manifest>)
      requires Valid()
      modifies this
      ensures Valid()
      ensures Ran(old(log), old(lifetime), StopScript(old(file), root, a), log, lifetime, r.Crashed?)
      ensures old(file).None? ==> !r.Done? && file == None
      ensures old(file).Some? ==> file.Some?
      ensures if r.Crashed? then old(file).Some? ==> Interrupted(old(file).value, a, file.value)
              else old(file).Some? ==>
                && file == Some(AfterStop(old(file).value, root, a).manifest)
                && (r.Done? <==> AfterStop(old(file).value, root, a).passed)
      ensures r.Done? ==> file == Some(r.value)
    {
      Splits(log, lifetime, [Called], if file.None? then [] else Stopping(file.value, root, a));
      var _ :- Act(Called);
      if file.None? {
        return Raised;
      }
      r := StopManifest(file.value, root, a);
    }

    method StopManifest(manifest: Manifest, root: string, a: StopAnswers) returns (r: Outcome<Manifest>)
      requires Valid() && file == Some(manifest)
      modifies this
      ensures Valid() && file.Some?
      ensures Ran(old(log), old(lifetime), Stopping(manifest, root, a), log, lifetime, r.Crashed?)
      ensures if r.Crashed? then Interrupted(manifest, a, file.value)
              else file == Some(AfterStop(manifest, root, a).manifest)
                   && (r.Done? <==> AfterStop(manifest, root, a).passed)
      ensures r.Done? ==> file == Some(r.value)
    {
      if TargetFromManifest(manifest, root).Raised? {
        r := Refuse(manifest, OwnershipMismatch);
        return;
      }
      if manifest.status == CleanupPending {
        r := FinishPending(manifest, a);
        if r.Crashed? {
          FinishingCutShort(manifest, root, a, file.value);
        }
        return;
      }
      r := ClearAndFinish(manifest, root, a);
    }

    method ClearAndFinish(manifest: Manifest, root: string, a: StopAnswers) returns (r: Outcome<Manifest>)
      requires Valid() && file == Some(manifest) && manifest.status != CleanupPending
      requires TargetFromManifest(manifest, root).Done?
      modifies this
      ensures Valid() && file.Some?
      ensures Ran(old(log), old(lifetime), Stopping(manifest, root, a), log, lifetime, r.Crashed?)
      ensures if r.Crashed? then Interrupted(manifest, a, file.value)
              else file == Some(AfterStop(manifest, root, a).manifest)
                   && (r.Done? <==> AfterStop(manifest, root, a).passed)
      ensures r.Done? ==> file == Some(r.value)
    {
      Splits(log, lifetime, Clearing(manifest, a),
             if AfterClearing(manifest, a).passed then Finishing(AfterClearing(manifest, a).manifest, a) else []);
      r := ClearProject(manifest, a);
      if r.Crashed? {
        ClearingCutShort(manifest, file.value.resources, a, file.value);
        return;
      }
      if r.Raised? {
        return;
      }
      var cleared := r.value;
      ClearedWasNotStuck(manifest, root, a);
      r := FinishPending(cleared, a);
      if r.Crashed? {
        PendingCutShort(manifest, cleared, a, file.value);
      }
    }

    // dies says after how many actions the call dies, if it does: what is on
    // disk is then what those actions left.
    method Stop(root: string, a: StopAnswers, dies: Option<nat>) returns (r: Outcome<Manifest>)
      requires Valid()
      modifies this
      ensures Valid()
      ensures var script := StopScript(old(file), root, a);
              && log == old(log) + Cut(script, dies) && file == Disk(log)
              && (r.Crashed? <==> DiesIn(script, dies))
      ensures old(file).None? ==> !r.Done? && file == None
      ensures old(file).Some? ==>
                if r.Crashed? then file.Some? && Interrupted(old(file).value, a, file.value)
                else && file == Some(AfterStop(old(file).value, root, a).manifest)
                     && (r.Done? <==> AfterStop(old(file).value, root, a).passed)
      ensures r.Done? ==> file == Some(r.value)
      ensures old(file).Some? && Unfinishable(old(file).value) ==>
                !r.Done? && file.Some? && Unfinishable(file.value)
      ensures old(file).Some? && Mismatched(old(file).value, a) ==>
                !r.Done? && file.Some? && file.value == old(file).value.(cleanup := file.value.cleanup)
    {
      lifetime := dies;
      ghost var before := file;
      r := RunStop(root, a);
      if before.Some? {
        StuckStaysStuck(before.value, root, a);
      }
    }

    // ---------- start

    // Record that the start failed, then stop what it left.
    method FinishFailedStart<T>(manifest: Manifest, a: StopAnswers) returns (r: Outcome<T>)
      requires Valid() && Writable(log, manifest)
      modifies this
      ensures Valid() && !r.Done?
      ensures Ran(old(log), old(lifetime), FailingStart(manifest, a), log, lifetime, r.Crashed?)
      ensures r.Crashed? || file == Some(AfterStop(manifest.(status := StartFailed), manifest.source, a).manifest)
    {
      var failed := manifest.(status := StartFailed);
      Splits(log, lifetime, [Persisted(failed)], StopScript(Some(failed), manifest.source, a));
      var _ :- Persist(failed);
      var stopped := RunStop(manifest.source, a);
      r := if stopped.Crashed? then Crashed else Raised;
    }

    // A failure that leaves the cleanup to a later stop.
    method FailStart<T>(manifest: Manifest, why: CleanupStatus) returns (r: Outcome<T>)
      requires Valid() && Writable(log, manifest) && (why == CaptureExhausted ==> manifest.resources == EMPTY)
      modifies this
      ensures Valid() && !r.Done?
      ensures Ran(old(log), old(lifetime), [Persisted(FailedStart(manifest, why))], log, lifetime, r.Crashed?)
      ensures if r.Crashed? then file == old(file) else file == Some(FailedStart(manifest, why))
    {
      var _ :- Persist(manifest.(status := StartFailed, cleanup := why));
      r := Raised;
    }

    // Resolve the configuration, from a mapped drive if the root's name asks
    // for one, and persist the manifest that up will need.
    method Configure(manifest: Manifest, a: StartAnswers) returns (r: Outcome<()>, next: Manifest)
      requires Valid() && Writable(log, manifest) && manifest.subst == None
      modifies this
      ensures Valid()
      ensures Ran(old(log), old(lifetime), Configuring(manifest, a), log, lifetime, r.Crashed?)
      ensures r.Crashed? || (r.Done? <==> Configured(manifest.source, a))
      ensures r.Raised? ==> file == if NeedsDrive(a) then AfterUnconfigured(manifest, a) else old(file)
      ensures r.Done? ==> next == ConfiguredManifest(manifest, a) && file == Some(next) && Writable(log, next)
    {
      next := manifest;
      var config := a.config;
      var subst: Option<Subst> := None;
      if config.Unresolved? && config.nonAscii {
        Splits(log, lifetime, MakingDrive(manifest, a.drives),
               if !DriveMade(a.drives, manifest.source)
               then [Persisted(FailedStart(Mapped(manifest, a.drives), SubstBlocked))]
               else if a.configOnDrive == Resolved(true) then [Persisted(Mapped(manifest, a.drives))]
               else Unconfiguring(manifest, a));
        var made;
        made, next := CreateSubstMapping(next, a.drives);
        if made.Raised? {
          r := FailStart(next, SubstBlocked);
          return;
        }
        var record :- made;
        subst := Some(record);
        config := a.configOnDrive;
      }
      if config != Resolved(true) {
        if subst.Some? {
          r, next := Unconfigure(manifest, next, a);
          return;
        }
        return Raised, next;
      }
      var _ :- Persist(next);
      r := Done(());
    }

    // Give back the drive from which the configuration did not resolve either.
    method Unconfigure(manifest: Manifest, mapped: Manifest, a: StartAnswers) returns (r: Outcome<()>, next: Manifest)
      requires Valid() && Writable(log, mapped) && file == Some(mapped) && mapped.subst.Some?
      requires manifest.subst == None && manifest.configs == AtRoot(manifest.source)
      requires mapped == Mapped(manifest, a.drives)
      modifies this
      ensures Valid() && !r.Done?
      ensures Ran(old(log), old(lifetime), Unconfiguring(manifest, a), log, lifetime, r.Crashed?)
      ensures r.Raised? ==>
                file == if DriveShown(mapped.subst, a.mappingAtRemoval) && a.unmapSucceeds then Some(manifest)
                        else Some(FailedStart(mapped, SubstBlocked))
    {
      next := mapped;
      Splits(log, lifetime, Removing(mapped.subst.value, a.mappingAtRemoval, a.unmapSucceeds),
             if DriveShown(mapped.subst, a.mappingAtRemoval) && a.unmapSucceeds then [Persisted(manifest)]
             else [Persisted(FailedStart(mapped, SubstBlocked))]);
      var removed := RemoveOwnedSubst(mapped.subst.value, a.mappingAtRemoval, a.unmapSucceeds);
      if removed.Raised? {
        r := FailStart(mapped, SubstBlocked);
        return;
      }
      var _ :- removed;
      var saved;
      saved, next := RecordSubst(mapped, None);
      var _ :- saved;
      r := Raised;
    }

    // Bring the project up and list what it then owns.
    method Launch(manifest: Manifest, answer: CommandAnswer, tries: Tries)
      returns (r: Outcome<CommandAnswer>, next: Manifest)
      requires Valid() && file == Some(manifest) && Writable(log, manifest) && manifest.resources == EMPTY
      modifies this
      ensures Valid() && file.Some?
      ensures Ran(old(log), old(lifetime), Launching(manifest, tries), log, lifetime, r.Crashed?)
      ensures r.Crashed?
              || (if AfterLaunch(manifest, tries).passed then
                    r == Done(answer) && next == AfterLaunch(manifest, tries).manifest
                  else r.Raised? && file == Some(AfterLaunch(manifest, tries).manifest))
      ensures r.Done? ==> Writable(log, next) && Fresh(log, Up(next.project, next.configs))
                          && Fresh(log, Snapshotted(next.project, next.resources))
    {
      next := manifest;
      ghost var listed := Listing(manifest.project, Captured(tries));
      ghost var given := if Captured(tries).None? then [Persisted(AfterLaunch(manifest, tries).manifest)] else [];
      Splits(log, lifetime, [Up(manifest.project, manifest.configs)], listed + given);
      var up :- ComposeUp(manifest.project, manifest.configs, answer);
      Splits(log, lifetime, listed, given);
      var resources := Capture(manifest.project, tries);
      if resources.Raised? {
        r := FailStart(manifest, CaptureExhausted);
        return;
      }
      var captured :- resources;
      next := manifest.(resources := captured);
      r := Done(up);
    }

    // The last gates: protected project, health, expected services.
    method Conclude(manifest: Manifest, up: CommandAnswer, guard: Option<Resources>, a: StopAnswers)
      returns (r: Outcome<Manifest>)
      requires Valid() && Writable(log, manifest) && Disk(log).Some?
      requires Fresh(log, Up(manifest.project, manifest.configs))
      requires Fresh(log, Snapshotted(manifest.project, manifest.resources))
      modifies this
      ensures Valid()
      ensures Ran(old(log), old(lifetime), Concluding(manifest, up, guard, a), log, lifetime, r.Crashed?)
      ensures r.Crashed?
              || (&& file == Some(AfterConclude(manifest, up, guard, a))
                  && (r.Done? <==> Concluded(manifest.phase0, manifest.resources, up, guard)))
      ensures r.Done? ==> file == Some(r.value)
    {
      Splits(log, lifetime, Guarding(guard),
             if guard != Some(manifest.phase0) then [Persisted(FailedStart(manifest, OwnershipMismatch))]
             else if Concluded(manifest.phase0, manifest.resources, up, guard)
             then [Persisted(manifest.(status := Running))]
             else FailingStart(manifest, a));
      var same := Phase0Unchanged(manifest, guard);
      if same.Raised? {
        r := FailStart(manifest, OwnershipMismatch);
        return;
      }
      var _ :- same;
      r := Settle(manifest, up, a);
    }

    method Settle(manifest: Manifest, up: CommandAnswer, a: StopAnswers) returns (r: Outcome<Manifest>)
      requires Valid() && Writable(log, manifest) && Disk(log).Some?
      requires Fresh(log, Up(manifest.project, manifest.configs))
      requires Fresh(log, Snapshotted(manifest.project, manifest.resources))
      requires Fresh(log, Snapshotted(PROTECTED_PROJECT, manifest.phase0))
      modifies this
      ensures Valid()
      ensures var settled := up.Succeeded? && ExpectedServices(manifest.resources);
              var failed := manifest.(status := StartFailed);
              && Ran(old(log), old(lifetime),
                     if settled then [Persisted(manifest.(status := Running))] else FailingStart(manifest, a), log,
                     lifetime, r.Crashed?)
              && (r.Crashed?
                  || ((r.Done? <==> settled)
                      && file == Some(if settled then manifest.(status := Running)
                                      else AfterStop(failed, manifest.source, a).manifest)))
      ensures r.Done? ==> file == Some(r.value)
    {
      if up.Failed? || !ExpectedServices(manifest.resources) {
        r := FinishFailedStart(manifest, a);
        return;
      }
      var _ :- Persist(manifest.(status := Running));
      r := Done(manifest.(status := Running));
    }

    // The second attempt, from a drive, with everything it checks before its up.
    method Retry(launched: Manifest, a: StartAnswers) returns (r: Outcome<Manifest>)
      requires Valid() && file.Some? && Writable(log, launched) && launched.subst == None && launched.resources == EMPTY
      modifies this
      ensures Valid()
      ensures Ran(old(log), old(lifetime), Retrying(launched, a), log, lifetime, r.Crashed?)
      ensures r.Crashed? || (file == Some(AfterRetry(launched, a)) && (r.Done? <==> RetrySucceeds(launched, a)))
      ensures r.Done? ==> file == Some(r.value)
    {
      Splits(log, lifetime, Guarding(a.guardOnRetry),
             if a.guardOnRetry != Some(launched.phase0) then FailingStart(launched, a.stop)
             else RetryingOnDrive(launched, a));
      var same := Phase0Unchanged(launched, a.guardOnRetry);
      if same.Raised? {
        r := FinishFailedStart(launched, a.stop);
        return;
      }
      var _ :- same;
      r := RetryOnDrive(launched, a);
    }

    method RetryOnDrive(launched: Manifest, a: StartAnswers) returns (r: Outcome<Manifest>)
      requires Valid() && file.Some? && Writable(log, launched) && launched.subst == None && launched.resources == EMPTY
      requires a.guardOnRetry == Some(launched.phase0)
      modifies this
      ensures Valid()
      ensures Ran(old(log), old(lifetime), RetryingOnDrive(launched, a), log, lifetime, r.Crashed?)
      ensures r.Crashed? || (file == Some(AfterRetry(launched, a)) && (r.Done? <==> RetrySucceeds(launched, a)))
      ensures r.Done? ==> file == Some(r.value)
    {
      ghost var mapped := Mapped(launched, a.drivesOnRetry);
      ghost var again := LaunchedAndConcluded(mapped, a.captureOnRetry, a.upOnRetry, a);
      Splits(log, lifetime, MakingDrive(launched, a.drivesOnRetry),
             if !RetryPrepared(launched.source, launched.phase0, a) then FailingStart(mapped, a.stop)
             else [Persisted(mapped)] + again);
      var made, manifest := CreateSubstMapping(launched, a.drivesOnRetry);
      if made.Raised? || (made.Done? && a.configOnRetry != Resolved(true)) {
        r := FinishFailedStart(manifest, a.stop);
        return;
      }
      var _ :- made;
      Splits(log, lifetime, [Persisted(mapped)], again);
      var _ :- Persist(manifest);
      r := LaunchAndConclude(manifest, a);
    }

    method LaunchAndConclude(manifest: Manifest, a: StartAnswers) returns (r: Outcome<Manifest>)
      requires Valid() && file == Some(manifest) && Writable(log, manifest) && manifest.resources == EMPTY
      modifies this
      ensures Valid()
      ensures Ran(old(log), old(lifetime), LaunchedAndConcluded(manifest, a.captureOnRetry, a.upOnRetry, a), log,
                  lifetime, r.Crashed?)
      ensures var launched := AfterLaunch(manifest, a.captureOnRetry);
              r.Crashed?
              || (&& file == Some(if launched.passed then AfterConclude(launched.manifest, a.upOnRetry, a.guard, a.stop)
                                  else launched.manifest)
                  && (r.Done? <==> && launched.passed
                                   && Concluded(manifest.phase0, launched.manifest.resources, a.upOnRetry, a.guard)))
      ensures r.Done? ==> file == Some(r.value)
    {
      ghost var launched := AfterLaunch(manifest, a.captureOnRetry);
      Splits(log, lifetime, Launching(manifest, a.captureOnRetry),
             if launched.passed then Concluding(launched.manifest, a.upOnRetry, a.guard, a.stop) else []);
      var answer, next := Launch(manifest, a.upOnRetry, a.captureOnRetry);
      var up :- answer;
      r := Conclude(next, up, a.guard, a.stop);
    }

    // Up, and up again from a drive when the root's name made the first fail.
    method BringUp(configured: Manifest, a: StartAnswers) returns (r: Outcome<Manifest>)
      requires Valid() && file == Some(configured) && Writable(log, configured) && configured.resources == EMPTY
      modifies this
      ensures Valid()
      ensures Ran(old(log), old(lifetime), BringingUp(configured, a), log, lifetime, r.Crashed?)
      ensures r.Crashed? || (file == Some(AfterBringUp(configured, a)) && (r.Done? <==> BroughtUp(configured, a)))
      ensures r.Done? ==> file == Some(r.value)
    {
      ghost var launched := AfterLaunch(configured, a.capture);
      Splits(log, lifetime, Launching(configured, a.capture),
             if !launched.passed then []
             else if Retries(configured.subst, launched.manifest.resources, a.up) then Retrying(launched.manifest, a)
             else Concluding(launched.manifest, a.up, a.guard, a.stop));
      var answer, manifest := Launch(configured, a.up, a.capture);
      var up :- answer;
      if Retries(manifest.subst, manifest.resources, up) {
        r := Retry(manifest, a);
      } else {
        r := Conclude(manifest, up, a.guard, a.stop);
      }
    }

    // A start with no manifest in its way.
    method StartFresh(root: string, project: string, a: StartAnswers) returns (r: Outcome<Manifest>)
      requires Valid() && file == None
      modifies this
      ensures Valid()
      ensures Ran(old(log), old(lifetime), StartingFresh(root, project, a), log, lifetime, r.Crashed?)
      ensures r.Crashed? || (file == AfterFresh(root, project, a) && (r.Done? <==> FreshSucceeds(root, project, a)))
      ensures r.Done? ==> file == Some(r.value)
    {
      if !OwnedName(project) || !a.portsSelected {
        return Raised;
      }
      Splits(log, lifetime, Listing(project, a.found),
             if a.found.None? || HasResources(a.found.value) then [] else Guarded(root, project, a));
      var found :- Snapshot(project, a.found);
      if HasResources(found) {
        return Raised;
      }
      r := StartGuarded(root, project, a);
    }

    method StartGuarded(root: string, project: string, a: StartAnswers) returns (r: Outcome<Manifest>)
      requires Valid() && file == None && OwnedName(project) && Fresh(log, Snapshotted(project, EMPTY))
      requires a.portsSelected && a.found == Some(EMPTY)
      modifies this
      ensures Valid()
      ensures Ran(old(log), old(lifetime), Guarded(root, project, a), log, lifetime, r.Crashed?)
      ensures r.Crashed? || (file == AfterFresh(root, project, a) && (r.Done? <==> FreshSucceeds(root, project, a)))
      ensures r.Done? ==> file == Some(r.value)
    {
      Splits(log, lifetime, Guarding(a.phase0),
             if a.phase0.None? then [] else StartingFirst(Fresh0(root, project, a.phase0.value), a));
      var phase0 :- Snapshot(PROTECTED_PROJECT, a.phase0);
      r := StartFirst(Fresh0(root, project, phase0), a);
    }

    method StartFirst(first: Manifest, a: StartAnswers) returns (r: Outcome<Manifest>)
      requires Valid() && file == None && Writable(log, first) && first.subst == None
      modifies this
      ensures Valid()
      ensures Ran(old(log), old(lifetime), StartingFirst(first, a), log, lifetime, r.Crashed?)
      ensures r.Crashed?
              || (if Configured(first.source, a)
                  then file == Some(AfterBringUp(ConfiguredManifest(first, a), a))
                  else file == AfterUnconfigured(first, a))
      ensures r.Crashed? || (r.Done? <==> Configured(first.source, a) && BroughtUp(ConfiguredManifest(first, a), a))
      ensures r.Done? ==> file == Some(r.value)
    {
      Splits(log, lifetime, Configuring(first, a),
             if Configured(first.source, a) then BringingUp(ConfiguredManifest(first, a), a) else []);
      var configured, manifest := Configure(first, a);
      var _ :- configured;
      r := BringUp(manifest, a);
    }

    method RunStart(root: string, project: string, a: StartAnswers) returns (r: Outcome<Manifest>)
      requires Valid()
      modifies this
      ensures Valid()
      ensures Ran(old(log), old(lifetime), StartScript(old(file), root, project, a), log, lifetime, r.Crashed?)
      ensures r.Crashed?
              || (&& file == AfterStart(old(file), root, project, a)
                  && (r.Done? <==> StartSucceeds(old(file), root, project, a)))
      ensures old(file).Some? && Active(old(file).value.status) ==> !r.Done? && file == old(file)
      ensures r.Done? ==> file == Some(r.value)
    {
      Splits(log, lifetime, [Called], if file.Some? && Active(file.value.status) then []
                                      else StartingAnew(file, root, project, a));
      var _ :- Act(Called);
      if file.Some? && Active(file.value.status) {
        return Raised;
      }
      r := StartAnew(root, project, a);
    }

    method StartAnew(root: string, project: string, a: StartAnswers) returns (r: Outcome<Manifest>)
      requires Valid() && (file.Some? ==> !Active(file.value.status))
      modifies this
      ensures Valid()
      ensures Ran(old(log), old(lifetime), StartingAnew(old(file), root, project, a), log, lifetime, r.Crashed?)
      ensures r.Crashed? || (file == AfterFresh(root, project, a) && (r.Done? <==> FreshSucceeds(root, project, a)))
      ensures r.Done? ==> file == Some(r.value)
    {
      if file.Some? {
        Splits(log, lifetime, [Archived], StartingFresh(root, project, a));
        var _ :- Archive();
      }
      r := StartFresh(root, project, a);
    }

    // project is the generated name; its uniqueness is checked, not assumed.
    // dies says after how many actions the call dies, if it does.
    method Start(root: string, project: string, a: StartAnswers, dies: Option<nat>) returns (r: Outcome<Manifest>)
      requires Valid()
      modifies this
      ensures Valid()
      ensures var script := StartScript(old(file), root, project, a);
              && log == old(log) + Cut(script, dies) && file == Disk(log)
              && (r.Crashed? <==> DiesIn(script, dies))
      ensures r.Crashed?
              || (&& file == AfterStart(old(file), root, project, a)
                  && (r.Done? <==> StartSucceeds(old(file), root, project, a)))
      ensures old(file).Some? && Active(old(file).value.status) ==> !r.Done? && file == old(file)
      ensures r.Done? ==> file == Some(r.value) && r.value.status == Running && r.value.project == project
    {
      lifetime := dies;
      ghost var before := file;
      r := RunStart(root, project, a);
      if before.None? || !Active(before.value.status) {
        RunningIffStarted(root, project, a);
      }
    }
  }
}
