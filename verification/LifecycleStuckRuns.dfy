// Runs of the lifecycle whose manifest no later stop finishes, or none while a
// resource is missing: each method makes the calls on a new object, with fixed
// answers and for any root directory.
module LifecycleStuckRuns {
  import opened Wrappers
  import opened LifecycleCalls
  import opened LifecycleLog
  import opened LifecycleRecovery
  import opened LifecycleScripts
  import opened ComposeLifecycle

  const DAY := "20250101"
  const TIME := "000000"
  const SUFFIX := "abcd1234"
  const NAME := PROJECT_PREFIX + DAY + "t" + TIME + "z-7-" + SUFFIX

  // A container of the project, named after its service.
  function Container(service: string): Row {
    Row(service, Some(NAME), Some(service), "running")
  }

  const ALL := Resources([Container("postgres"), Container("migrate"), Container("api"), Container("orchestrator"),
                          Container("web")], [], [])
  const REST := Resources([Container("web")], [], [])
  const FOREIGN := Resources([Container("worker")], [], [])

  function Starts(root: string): Manifest {
    Fresh0(root, NAME, EMPTY)
  }

  function Runs(root: string, found: Resources): Manifest {
    Starts(root).(status := Running, resources := found)
  }

  function OnDriveZ(root: string, created: bool): Manifest {
    Starts(root).(subst := Some(Subst('Z', root, created)), configs := OnDrive('Z'))
  }

  lemma NameIsOwned()
    ensures OwnedName(NAME)
  {
    assert NAME[..8] == PROJECT_PREFIX;
    assert NAME[8..16] == DAY && NAME[17..23] == TIME;
    assert NAME[25..|NAME| - 9] == "7" && NAME[|NAME| - 8..] == SUFFIX;
  }

  // ---------- Answers

  const NO_DRIVES: DriveAnswers := DriveAnswers(_ => None, _ => false, None)
  const NO_STOP: StopAnswers := StopAnswers(None, None, None, None, false, _ => None, None, false, None)

  // A start whose listing after up shows what is given.
  function ToStart(listed: Option<Resources>): StartAnswers {
    StartAnswers(true, Some(EMPTY), Some(EMPTY), Resolved(true), NO_DRIVES, Resolved(true), None, false,
                 Succeeded, _ => listed, None, NO_DRIVES, Resolved(true), Succeeded, _ => None, Some(EMPTY), NO_STOP)
  }

  // A start that needs a drive and gets the first one.
  function ToStartOnDrive(root: string, found: Resources): StartAnswers {
    ToStart(Some(found)).(config := Unresolved(true), drives := DriveAnswers(_ => None, _ => true, Some(root)))
  }

  // A stop of the running project: whether down succeeds, what it leaves, and
  // what the protected project is in the end.
  function ToStop(root: string, found: Resources, downSucceeds: bool, rest: Resources, lastGuard: Resources)
      : StopAnswers {
    StopAnswers(Some(found), None, Some(EMPTY), Some(root), downSucceeds, _ => Some(rest), Some(root), true,
                Some(lastGuard))
  }

  // ---------- What the checks say of these resources

  lemma NamedIsOwned(rows: seq<Row>)
    requires forall row <- rows :: row.id in EXPECTED_SERVICES && row == Container(row.id)
    ensures KindOwned(NAME, rows, rows, true)
  {
  }

  // Everything found is a container of the project, named after its service.
  predicate Named(found: Resources) {
    && found.networks == [] && found.volumes == []
    && forall row <- found.containers :: row.id in EXPECTED_SERVICES && row == Container(row.id)
  }

  lemma AllAndRestAreNamed()
    ensures Named(ALL) && Named(REST)
  {
  }

  lemma FoundIsOwned(m: Manifest, found: Resources)
    requires Named(found) && m.project == NAME && m.resources == found
    ensures Owns(m, found, m.configs)
  {
    NamedIsOwned(found.containers);
    NameIsOwned();
  }

  lemma AllIsExpected()
    ensures ExpectedServices(ALL)
  {
    var rows := ALL.containers;
    assert rows[0].service == Some("postgres") && rows[1].service == Some("migrate") && rows[2].service == Some("api");
    assert rows[3].service == Some("orchestrator") && rows[4].service == Some("web");
    forall service | service in EXPECTED_SERVICES
      ensures Some(service) in ServicesOf(ALL)
    {
      assert Container(service) in rows;
    }
  }

  lemma NotExpected(found: Resources, service: string)
    requires service in EXPECTED_SERVICES && forall row <- found.containers :: row.service != Some(service)
    ensures !ExpectedServices(found)
  {
    assert Some(service) !in ServicesOf(found);
  }

  lemma AllIsMissing(found: Resources)
    requires found == EMPTY || found == REST
    ensures !SameIds(ALL, found)
  {
    assert ALL.containers[0].id in Ids(ALL.containers);
    assert "postgres" !in Ids(found.containers);
  }

  lemma ForeignIsNotOwned(m: Manifest)
    requires m.resources == FOREIGN
    ensures !RecordedOwn(m) && !ExpectedServices(FOREIGN)
  {
    assert FOREIGN.containers[0].id in Ids(FOREIGN.containers);
    assert ById(FOREIGN.containers, "worker") == Container("worker");
    NotExpected(FOREIGN, "web");
  }

  // ---------- What is on disk after part of a call

  ghost predicate Quiet(entries: seq<Entry>) {
    forall e <- entries :: !e.Persisted? && !e.Archived?
  }

  lemma {:induction false} QuietKeepsDisk(log: seq<Entry>, entries: seq<Entry>)
    requires Quiet(entries)
    ensures Disk(log + entries) == Disk(log)
  {
    if entries == [] {
      assert log + entries == log;
    } else {
      var init, last := entries[..|entries| - 1], entries[|entries| - 1];
      assert last in entries && forall e <- init :: e in entries;
      QuietKeepsDisk(log, init);
      Grows(log + init, last);
      assert log + entries == log + init + [last];
    }
  }

  // The last write decides.
  lemma WrittenLast(log: seq<Entry>, m: Manifest, entries: seq<Entry>)
    requires Quiet(entries)
    ensures Disk(log + ([Persisted(m)] + entries)) == Some(m)
  {
    Grows(log, Persisted(m));
    QuietKeepsDisk(log + [Persisted(m)], entries);
    assert log + ([Persisted(m)] + entries) == log + [Persisted(m)] + entries;
  }

  lemma CutAtPrefix(one: seq<Entry>, two: seq<Entry>)
    ensures Cut(one + two, Some(|one|)) == one
  {
  }

  lemma Regroup(one: seq<Entry>, two: seq<Entry>, three: seq<Entry>, rest: seq<Entry>)
    ensures one + (two + three + rest) == (one + two) + three + rest
    ensures two == [] ==> one + (three + rest) == one + three + rest
  {
  }

  lemma RegroupFive(one: seq<Entry>, two: seq<Entry>, three: seq<Entry>, four: seq<Entry>, five: seq<Entry>)
    ensures one + ((two + three + four) + five) == (one + two) + three + (four + five)
    ensures one + (two + (three + four + five)) == one + two + three + four + five
  {
  }

  // ---------- Resources that are gone or were never recorded

  // What every start does first that finds its project empty.
  predicate GoesAhead(project: string, a: StartAnswers) {
    OwnedName(project) && a.portsSelected && a.found == Some(EMPTY) && a.phase0.Some?
  }

  function Looked(project: string, phase0: Resources): seq<Entry> {
    [Called, Snapshotted(project, EMPTY), Snapshotted(PROTECTED_PROJECT, phase0)]
  }

  lemma StartLooks(root: string, project: string, a: StartAnswers)
    requires GoesAhead(project, a)
    ensures StartScript(None, root, project, a)
         == Looked(project, a.phase0.value) + StartingFirst(Fresh0(root, project, a.phase0.value), a)
  {
    var first := StartingFirst(Fresh0(root, project, a.phase0.value), a);
    assert Guarded(root, project, a) == [Snapshotted(PROTECTED_PROJECT, a.phase0.value)] + first;
    assert StartingFresh(root, project, a) == [Snapshotted(project, EMPTY)] + Guarded(root, project, a);
  }

  lemma FirstIssuesUp(first: Manifest, a: StartAnswers) returns (rest: seq<Entry>)
    requires a.config == Resolved(true)
    ensures StartingFirst(first, a) == [Persisted(first)] + [Up(first.project, first.configs)] + rest
  {
    var bringing := BringingUp(first, a);
    rest := bringing[1..];
    assert Launching(first, a.capture)[0] == Up(first.project, first.configs);
    assert bringing == [Up(first.project, first.configs)] + rest;
    assert Configuring(first, a) == [Persisted(first)] && ConfiguredManifest(first, a) == first;
  }

  // Whatever the start: dead after its up, it leaves a manifest without
  // resources, which every listing with resources contradicts.
  method DieAfterUp(root: string, project: string, a: StartAnswers) returns (l: Lifecycle)
    requires GoesAhead(project, a) && a.config == Resolved(true)
    ensures fresh(l) && l.Valid() && l.log != [] && Last(l.log) == Up(project, AtRoot(root))
    ensures l.file == Some(Fresh0(root, project, a.phase0.value))
    ensures forall b: StopAnswers ::
              b.listing.Some? && HasResources(b.listing.value) ==> Mismatched(l.file.value, b)
  {
    ghost var first := Fresh0(root, project, a.phase0.value);
    ghost var issued := Looked(project, a.phase0.value) + ([Persisted(first)] + [Up(project, AtRoot(root))]);
    StartLooks(root, project, a);
    ghost var rest := FirstIssuesUp(first, a);
    WrittenLast(Looked(project, a.phase0.value), first, [Up(project, AtRoot(root))]);
    CutAtPrefix(issued, rest);
    Regroup(Looked(project, a.phase0.value), [], [Persisted(first)] + [Up(project, AtRoot(root))], rest);
    l := StartUntil(root, project, a, 5, issued);
    forall b: StopAnswers | b.listing.Some? && HasResources(b.listing.value)
      ensures Mismatched(first, b)
    {
      RecordedNothing(first, b.listing.value);
    }
  }

  method StartUntil(root: string, project: string, a: StartAnswers, dies: nat, ghost issued: seq<Entry>)
    returns (l: Lifecycle)
    requires Cut(StartScript(None, root, project, a), Some(dies)) == issued
    ensures fresh(l) && l.Valid() && l.log == issued && l.file == Disk(issued)
  {
    l := new Lifecycle();
    var _ := l.Start(root, project, a, Some(dies));
    assert [] + issued == issued;
  }

  method DiedAfterUp(root: string) returns (l: Lifecycle)
    ensures fresh(l) && l.Valid() && l.log != [] && Last(l.log) == Up(NAME, AtRoot(root))
    ensures l.file == Some(Starts(root))
    ensures forall a: StopAnswers :: a.listing.Some? && HasResources(a.listing.value) ==> Mismatched(Starts(root), a)
  {
    NameIsOwned();
    l := DieAfterUp(root, NAME, ToStart(Some(ALL)));
  }

  lemma StartedByCalls(root: string, found: Resources)
    requires ExpectedServices(found)
    ensures AfterStart(None, root, NAME, ToStart(Some(found))) == Some(Runs(root, found))
  {
    NameIsOwned();
  }

  // The stop passes every check of what it lists, and there is something to
  // bring down.
  predicate ReachesDown(m: Manifest, root: string, a: StopAnswers) {
    && TargetFromManifest(m, root).Done? && m.status != CleanupPending && !Recovering(m)
    && a.listing.Some? && HasResources(a.listing.value) && Owns(m, a.listing.value, m.configs)
    && a.guard == Some(m.phase0) && DriveShown(m.subst, a.mapping)
  }

  function Checked(m: Manifest, a: StopAnswers): seq<Entry>
    requires a.listing.Some?
  {
    [Called] + ([Snapshotted(m.project, a.listing.value)] + Checking(m, a.listing.value, a))
  }

  lemma CheckingIsQuiet(m: Manifest, root: string, a: StopAnswers)
    requires ReachesDown(m, root, a)
    ensures Quiet(Checked(m, a))
  {
  }

  lemma ClearingIssuesDown(m: Manifest, root: string, a: StopAnswers)
    requires ReachesDown(m, root, a)
    ensures Clearing(m, a)
         == [Snapshotted(m.project, a.listing.value)] + Checking(m, a.listing.value, a)
            + [Down(m.project, m.configs, a.listing.value)] + AfterDown(m, a.listing.value, a)
  {
    var current := a.listing.value;
    assert AfterCheck(m, current, a) == Left(m, true);
    assert ClearingListed(m, current, a) == Checking(m, current, a) + TearingDown(m, current, a);
  }

  lemma StoppingClears(m: Manifest, root: string, a: StopAnswers) returns (rest: seq<Entry>)
    requires TargetFromManifest(m, root).Done? && m.status != CleanupPending
    ensures StopScript(Some(m), root, a) == [Called] + (Clearing(m, a) + rest)
    ensures AfterClearing(m, a).passed ==> rest == Finishing(AfterClearing(m, a).manifest, a)
  {
    rest := if AfterClearing(m, a).passed then Finishing(AfterClearing(m, a).manifest, a) else [];
  }

  lemma StopIssuesDown(m: Manifest, root: string, a: StopAnswers) returns (rest: seq<Entry>)
    requires ReachesDown(m, root, a)
    ensures StopScript(Some(m), root, a) == Checked(m, a) + [Down(m.project, m.configs, a.listing.value)] + rest
  {
    ClearingIssuesDown(m, root, a);
    var finishing := StoppingClears(m, root, a);
    var current := a.listing.value;
    rest := AfterDown(m, current, a) + finishing;
    RegroupFive([Called], [Snapshotted(m.project, current)] + Checking(m, current, a),
                [Down(m.project, m.configs, current)], AfterDown(m, current, a), finishing);
  }

  // Whatever the stop: dead after its down, it leaves the manifest as it was,
  // which the empty project contradicts.
  method DieAfterDown(l: Lifecycle, root: string, a: StopAnswers)
    requires l.Valid() && l.file.Some? && ReachesDown(l.file.value, root, a)
    modifies l
    ensures l.Valid() && l.file == old(l.file)
    ensures l.log != [] && Last(l.log) == Down(l.file.value.project, l.file.value.configs, a.listing.value)
    ensures forall b: StopAnswers :: b.listing == Some(EMPTY) ==> Mismatched(l.file.value, b)
  {
    var m := l.file.value;
    ghost var down := [Down(m.project, m.configs, a.listing.value)];
    ghost var rest := StopIssuesDown(m, root, a);
    CheckingIsQuiet(m, root, a);
    QuietKeepsDisk(l.log, Checked(m, a) + down);
    CutAtPrefix(Checked(m, a) + down, rest);
    EmptinessMustAgree(m, a.listing.value, m.configs);
    RecordedNothing(m.(resources := EMPTY), m.resources);
    var _ := l.Stop(root, a, Some(|Checked(m, a)| + 1));
  }

  method DiedAfterDown(root: string) returns (l: Lifecycle)
    ensures fresh(l) && l.Valid()
    ensures l.log != [] && Last(l.log) == Down(NAME, AtRoot(root), ALL) && l.file == Some(Runs(root, ALL))
    ensures forall a: StopAnswers :: a.listing == Some(EMPTY) ==> Mismatched(Runs(root, ALL), a)
  {
    AllAndRestAreNamed();
    AllIsExpected();
    StartedByCalls(root, ALL);
    FoundIsOwned(Runs(root, ALL), ALL);
    NameIsOwned();
    l := new Lifecycle();
    var _ := l.Start(root, NAME, ToStart(Some(ALL)), None);
    DieAfterDown(l, root, ToStop(root, ALL, true, EMPTY, EMPTY));
  }

  // What a stop leaves whose down failed, or left something.
  lemma StoppedByCalls(root: string, found: Resources, rest: Resources, why: CleanupStatus)
    requires Named(found) && HasResources(found) && HasResources(rest)
    requires why == DownFailed || why == ResourcesRemain
    ensures AfterStop(Runs(root, found), root, ToStop(root, found, why == ResourcesRemain, rest, EMPTY))
         == Left(Runs(root, found).(cleanup := why), false)
  {
    NameIsOwned();
    FoundIsOwned(Runs(root, found), found);
  }

  // A down failed, or left one of five containers; nothing died.
  method PartialDown(root: string, why: CleanupStatus) returns (l: Lifecycle)
    requires why == DownFailed || why == ResourcesRemain
    ensures fresh(l) && l.Valid() && l.file == Some(Runs(root, ALL).(cleanup := why))
    ensures forall a: StopAnswers :: a.listing == Some(REST) ==> Mismatched(Runs(root, ALL).(cleanup := why), a)
  {
    AllAndRestAreNamed();
    AllIsExpected();
    AllIsMissing(REST);
    StartedByCalls(root, ALL);
    StoppedByCalls(root, ALL, REST, why);
    l := new Lifecycle();
    var _ := l.Start(root, NAME, ToStart(Some(ALL)), None);
    var _ := l.Stop(root, ToStop(root, ALL, why == ResourcesRemain, REST, EMPTY), None);
  }

  // ---------- An offer that is taken back

  function Unlisted(root: string): Manifest {
    Starts(root).(status := StartFailed, cleanup := CaptureExhausted)
  }

  lemma UnlistedByCalls(root: string)
    ensures AfterStart(None, root, NAME, ToStart(None)) == Some(Unlisted(root))
  {
    NameIsOwned();
  }

  lemma RecoveryIsOffered(root: string, found: Resources)
    requires Named(found)
    ensures AfterStop(Unlisted(root), root, BestAnswers(Unlisted(root)).(listing := Some(found))).passed
  {
    FoundIsOwned(Unlisted(root).(resources := found), found);
    NameIsOwned();
    StopSucceedsIff(Unlisted(root), root, BestAnswers(Unlisted(root)).(listing := Some(found)));
  }

  // A start could not list its resources. A stop would adopt them, but one from
  // another directory is refused and takes the offer back.
  method LostRecovery(root: string, otherRoot: string, a: StopAnswers) returns (l: Lifecycle)
    requires otherRoot != root
    ensures var failed := AfterStart(None, root, NAME, ToStart(None));
            failed.Some? && AfterStop(failed.value, root, BestAnswers(failed.value).(listing := Some(REST))).passed
    ensures fresh(l) && l.Valid() && l.file == Some(Unlisted(root).(cleanup := OwnershipMismatch))
    ensures forall b: StopAnswers ::
              b.listing.Some? && HasResources(b.listing.value) ==>
                Mismatched(Unlisted(root).(cleanup := OwnershipMismatch), b)
  {
    UnlistedByCalls(root);
    AllAndRestAreNamed();
    RecoveryIsOffered(root, REST);
    l := new Lifecycle();
    var _ := l.Start(root, NAME, ToStart(None), None);
    RecoveryIsOfferedOnce(l.log, otherRoot, a);
    var _ := l.Stop(otherRoot, a, None);
  }

  // ---------- Manifests that no stop finishes

  function Asked(m: Manifest, drive: char): seq<Entry> {
    [DriveQueried(drive, None)]
    + ([Persisted(WithSubst(m, Some(Subst(drive, m.source, false))))] + [Map(drive, m.source)])
  }

  lemma Appended(all: seq<Entry>, first: seq<Entry>, begin: seq<Entry>, later: seq<Entry>, last: seq<Entry>)
    requires first == begin + later && all == first + last
    ensures all == begin + (later + last)
  {
  }

  lemma TryingDriveAsks(m: Manifest, d: DriveAnswers, drive: char) returns (rest: seq<Entry>)
    requires d.mapping(drive).None?
    ensures TryingDrive(m, d, drive) == Asked(m, drive) + rest
  {
    rest := Mapping(m, drive, d.mapSucceeds(drive));
    var asking := [Persisted(WithSubst(m, Some(Subst(drive, m.source, false))))] + [Map(drive, m.source)];
    assert MappingDrive(m, drive, d.mapSucceeds(drive)) == asking + rest;
    assert [DriveQueried(drive, None)] + (asking + rest) == [DriveQueried(drive, None)] + asking + rest;
  }

  lemma TryingAsks(m: Manifest, d: DriveAnswers, drives: string) returns (rest: seq<Entry>)
    requires drives != "" && d.mapping(drives[0]).None?
    ensures TryingDrives(m, d, drives) == Asked(m, drives[0]) + rest
  {
    var answer := TryingDriveAsks(m, d, drives[0]);
    var later := if Mappable(d, drives[0]) then [] else TryingDrives(m, d, drives[1..]);
    Appended(TryingDrives(m, d, drives), TryingDrive(m, d, drives[0]), Asked(m, drives[0]), answer, later);
    rest := answer + later;
  }

  lemma MakingTries(m: Manifest, d: DriveAnswers) returns (rest: seq<Entry>)
    ensures MakingDrive(m, d) == TryingDrives(m, d, DRIVES) + rest
  {
    var first := FirstMapped(d, DRIVES);
    rest := if first.None? then [] else [DriveQueried(first.value, d.confirmed)];
  }

  lemma ConfiguringMakes(first: Manifest, a: StartAnswers) returns (rest: seq<Entry>)
    requires NeedsDrive(a)
    ensures Configuring(first, a) == MakingDrive(first, a.drives) + rest
  {
    rest := if !DriveMade(a.drives, first.source) then [Persisted(FailedStart(Mapped(first, a.drives), SubstBlocked))]
            else if a.configOnDrive == Resolved(true) then [Persisted(Mapped(first, a.drives))]
            else Unconfiguring(first, a);
  }

  lemma ConfiguringTries(first: Manifest, a: StartAnswers) returns (rest: seq<Entry>)
    requires NeedsDrive(a)
    ensures Configuring(first, a) == TryingDrives(first, a.drives, DRIVES) + rest
  {
    var making := MakingTries(first, a.drives);
    var configuring := ConfiguringMakes(first, a);
    Appended(Configuring(first, a), MakingDrive(first, a.drives), TryingDrives(first, a.drives, DRIVES), making,
             configuring);
    rest := making + configuring;
  }

  lemma StartingConfigures(first: Manifest, a: StartAnswers) returns (rest: seq<Entry>)
    ensures StartingFirst(first, a) == Configuring(first, a) + rest
  {
    rest := if Configured(first.source, a) then BringingUp(ConfiguredManifest(first, a), a) else [];
  }

  lemma FirstIssuesMap(first: Manifest, a: StartAnswers) returns (rest: seq<Entry>)
    requires NeedsDrive(a) && a.drives.mapping('Z').None?
    ensures StartingFirst(first, a) == Asked(first, 'Z') + rest
  {
    var begin, trying := Asked(first, 'Z'), TryingDrives(first, a.drives, DRIVES);
    var tried := TryingAsks(first, a.drives, DRIVES);
    var configured := ConfiguringTries(first, a);
    Appended(Configuring(first, a), trying, begin, tried, configured);
    var bringing := StartingConfigures(first, a);
    Appended(StartingFirst(first, a), Configuring(first, a), begin, tried + configured, bringing);
    rest := tried + configured + bringing;
  }

  // Whatever the start: dead after it asked for a drive, it leaves a manifest
  // that no stop finishes.
  method DieWhileMapping(root: string, project: string, a: StartAnswers) returns (l: Lifecycle)
    requires GoesAhead(project, a) && NeedsDrive(a) && a.drives.mapping('Z').None?
    ensures fresh(l) && l.Valid() && l.log != [] && Last(l.log) == Map('Z', root)
    ensures l.file == Some(WithSubst(Fresh0(root, project, a.phase0.value), Some(Subst('Z', root, false))))
    ensures Unfinishable(l.file.value)
  {
    ghost var first := Fresh0(root, project, a.phase0.value);
    ghost var intended := WithSubst(first, Some(Subst('Z', root, false)));
    ghost var looked := Looked(project, a.phase0.value) + [DriveQueried('Z', None)];
    ghost var issued := looked + ([Persisted(intended)] + [Map('Z', root)]);
    StartLooks(root, project, a);
    ghost var rest := FirstIssuesMap(first, a);
    WrittenLast(looked, intended, [Map('Z', root)]);
    CutAtPrefix(issued, rest);
    Regroup(Looked(project, a.phase0.value), [DriveQueried('Z', None)], [Persisted(intended)] + [Map('Z', root)], rest);
    l := StartUntil(root, project, a, 6, issued);
  }

  method DiedWhileMapping(root: string) returns (l: Lifecycle)
    ensures fresh(l) && l.Valid() && l.log != [] && Last(l.log) == Map('Z', root)
    ensures l.file == Some(OnDriveZ(root, false)) && Unfinishable(OnDriveZ(root, false))
  {
    NameIsOwned();
    l := DieWhileMapping(root, NAME, ToStartOnDrive(root, ALL));
  }

  function RunsOnDriveZ(root: string, found: Resources): Manifest {
    OnDriveZ(root, true).(status := Running, resources := found)
  }

  function TornDownOnDriveZ(root: string, found: Resources): Manifest {
    RunsOnDriveZ(root, found).(status := CleanupPending, cleanup := DownSucceeded, removed := found)
  }

  lemma StartedOnDriveByCalls(root: string, found: Resources)
    requires ExpectedServices(found)
    ensures AfterStart(None, root, NAME, ToStartOnDrive(root, found)) == Some(RunsOnDriveZ(root, found))
  {
    NameIsOwned();
    assert DRIVES[0] == 'Z';
    assert FirstMapped(ToStartOnDrive(root, found).drives, DRIVES) == Some('Z');
  }

  lemma ReleasedByCalls(root: string, found: Resources, lastGuard: Resources)
    requires Named(found) && HasResources(found) && lastGuard != EMPTY
    ensures AfterStop(RunsOnDriveZ(root, found), root, ToStop(root, found, true, EMPTY, lastGuard))
         == Left(TornDownOnDriveZ(root, found).(subst := None, cleanup := Phase0Failed), false)
  {
    NameIsOwned();
    FoundIsOwned(RunsOnDriveZ(root, found), found);
  }

  // A stop released the drive and then found the protected project changed.
  method DeadEnd(root: string) returns (l: Lifecycle)
    ensures fresh(l) && l.Valid()
    ensures l.file == Some(TornDownOnDriveZ(root, ALL).(subst := None, cleanup := Phase0Failed))
    ensures Unfinishable(TornDownOnDriveZ(root, ALL).(subst := None, cleanup := Phase0Failed))
  {
    AllAndRestAreNamed();
    AllIsExpected();
    StartedOnDriveByCalls(root, ALL);
    ReleasedByCalls(root, ALL, REST);
    l := new Lifecycle();
    var _ := l.Start(root, NAME, ToStartOnDrive(root, ALL), None);
    var _ := l.Stop(root, ToStop(root, ALL, true, EMPTY, REST), None);
  }

  // The stop tears the project down, or finds that done, and gives its drive back.
  predicate ReachesRelease(m: Manifest, root: string, a: StopAnswers) {
    && TargetFromManifest(m, root).Done? && (m.status == CleanupPending || CheckPasses(m, a))
    && m.subst.Some? && DriveShown(m.subst, a.mappingAtRemoval) && a.unmapSucceeds
  }

  function TornDown0(m: Manifest, a: StopAnswers): Manifest {
    if m.status == CleanupPending then m else AfterClearing(m, a).manifest
  }

  lemma FinishingReleases(m: Manifest, a: StopAnswers)
    requires m.subst.Some? && DriveShown(m.subst, a.mappingAtRemoval) && a.unmapSucceeds
    ensures Finishing(m, a)
         == Removing(m.subst.value, a.mappingAtRemoval, true) + [Persisted(m.(subst := None))]
            + (Guarding(a.lastGuard) + [Persisted(AfterPending(m, a).manifest)])
  {
  }

  function BeforeRelease(m: Manifest, a: StopAnswers): seq<Entry>
    requires m.subst.Some?
  {
    [Called] + (if m.status == CleanupPending then [] else Clearing(m, a))
    + Removing(m.subst.value, a.mappingAtRemoval, true)
  }

  lemma StopFinishes(m: Manifest, root: string, a: StopAnswers)
    requires ReachesRelease(m, root, a)
    ensures StopScript(Some(m), root, a)
         == [Called] + ((if m.status == CleanupPending then [] else Clearing(m, a)) + Finishing(TornDown0(m, a), a))
    ensures TornDown0(m, a).status == CleanupPending && TornDown0(m, a).configs == m.configs
    ensures TornDown0(m, a).subst == m.subst
  {
    if m.status != CleanupPending {
      ClearingPassesIff(m, a);
      ClearedWasNotStuck(m, root, a);
      ClearedKeepsTarget(m, root, a);
      var rest := StoppingClears(m, root, a);
    }
  }

  lemma StopReleasesDrive(m: Manifest, root: string, a: StopAnswers) returns (rest: seq<Entry>)
    requires ReachesRelease(m, root, a)
    ensures StopScript(Some(m), root, a) == BeforeRelease(m, a) + [Persisted(TornDown0(m, a).(subst := None))] + rest
    ensures TornDown0(m, a).status == CleanupPending && TornDown0(m, a).configs == m.configs
  {
    var torn := TornDown0(m, a);
    StopFinishes(m, root, a);
    FinishingReleases(torn, a);
    rest := Guarding(a.lastGuard) + [Persisted(AfterPending(torn, a).manifest)];
    RegroupFive([Called], if m.status == CleanupPending then [] else Clearing(m, a),
                Removing(torn.subst.value, a.mappingAtRemoval, true), [Persisted(torn.(subst := None))], rest);
  }

  // Whatever the stop: dead after it recorded that its drive is released, it
  // leaves a manifest that no stop finishes.
  method DieAfterRelease(l: Lifecycle, root: string, a: StopAnswers)
    requires l.Valid() && l.file.Some? && ReachesRelease(l.file.value, root, a)
    modifies l
    ensures l.Valid() && l.file.Some? && DriveReleased(old(l.file.value), l.file.value) && Unfinishable(l.file.value)
    ensures l.file == Some(TornDown0(old(l.file.value), a).(subst := None))
  {
    var m := l.file.value;
    ghost var before, released := BeforeRelease(m, a), [Persisted(TornDown0(m, a).(subst := None))];
    ghost var rest := StopReleasesDrive(m, root, a);
    CutAtPrefix(before + released, rest);
    WrittenLast(l.log + before, TornDown0(m, a).(subst := None), []);
    assert l.log + (before + released) == l.log + before + (released + []);
    var _ := l.Stop(root, a, Some(|BeforeRelease(m, a)| + 1));
  }

  method DiedAfterRelease(root: string) returns (l: Lifecycle)
    ensures fresh(l) && l.Valid() && l.file == Some(TornDownOnDriveZ(root, ALL).(subst := None))
    ensures Unfinishable(TornDownOnDriveZ(root, ALL).(subst := None))
  {
    AllAndRestAreNamed();
    AllIsExpected();
    StartedOnDriveByCalls(root, ALL);
    ReachedByCalls(root);
    l := new Lifecycle();
    var _ := l.Start(root, NAME, ToStartOnDrive(root, ALL), None);
    DieAfterRelease(l, root, ToStop(root, ALL, true, EMPTY, EMPTY));
  }

  lemma ReachedByCalls(root: string)
    ensures var m, a := RunsOnDriveZ(root, ALL), ToStop(root, ALL, true, EMPTY, EMPTY);
            ReachesRelease(m, root, a) && TornDown0(m, a) == TornDownOnDriveZ(root, ALL)
  {
    NameIsOwned();
    AllAndRestAreNamed();
    FoundIsOwned(RunsOnDriveZ(root, ALL), ALL);
  }

  // A start that found a container of an unexpected service, and its own stop.
  function ToStartForeign(): StartAnswers {
    ToStart(Some(FOREIGN)).(stop := NO_STOP.(listing := Some(FOREIGN)))
  }

  function Foreign(root: string): Manifest {
    Starts(root).(status := StartFailed, resources := FOREIGN, cleanup := OwnershipMismatch)
  }

  lemma ForeignByCalls(root: string)
    ensures AfterStart(None, root, NAME, ToStartForeign()) == Some(Foreign(root))
  {
    NameIsOwned();
    ForeignIsNotOwned(Starts(root).(resources := FOREIGN));
    var failed := Starts(root).(status := StartFailed, resources := FOREIGN);
    assert FOREIGN.containers[0] in FOREIGN.containers;
    assert !Owns(failed, FOREIGN, AtRoot(root));
  }

  // Such a start leaves a record that no listing can match.
  method ForeignService(root: string) returns (l: Lifecycle)
    ensures fresh(l) && l.Valid() && l.file == Some(Foreign(root)) && Unfinishable(Foreign(root))
  {
    ForeignByCalls(root);
    ForeignIsNotOwned(Foreign(root));
    l := new Lifecycle();
    var _ := l.Start(root, NAME, ToStartForeign(), None);
  }
}
