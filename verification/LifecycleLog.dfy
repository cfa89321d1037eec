// What the Compose lifecycle (scripts/n4_compose_lifecycle.py) may do: the
// manifest it persists, a log of its actions on the machine, when each action
// is allowed, and what follows for every log in which all actions were.
module LifecycleLog {
  import opened Wrappers

  const PROJECT_PREFIX := "axit-n4-"
  const PROTECTED_PROJECT := "axit-phase0"
  const EXPECTED_SERVICES: set<string> := {"postgres", "migrate", "api", "orchestrator", "web"}

  // ---------- Data

  // A resource with its two Compose labels; rest is what else a snapshot holds.
  datatype Row = Row(id: string, project: Option<string>, service: Option<string>, rest: string)

  datatype Resources = Resources(containers: seq<Row>, networks: seq<Row>, volumes: seq<Row>)

  const EMPTY: Resources := Resources([], [], [])

  predicate HasResources(r: Resources) {
    r.containers != [] || r.networks != [] || r.volumes != []
  }

  datatype Status = Starting | Running | StartFailed | CleanupPending | CleanupFailed | Stopped

  predicate Active(status: Status) {
    status != Stopped
  }

  datatype CleanupStatus = NoCleanup | CaptureExhausted | RecoveryCaptured | OwnershipMismatch | DownFailed
                         | ResourcesRemain | DownSucceeded | SubstBlocked | Phase0Failed | CleanupStopped

  // The two Compose files, under the repository root or on a mapped drive.
  datatype Configs = AtRoot(root: string) | OnDrive(drive: char)

  // created is false while the mapping is only intended.
  datatype Subst = Subst(drive: char, target: string, created: bool)

  datatype Manifest = Manifest(status: Status, project: string, source: string, configs: Configs, subst: Option<Subst>,
                               resources: Resources, phase0: Resources, cleanup: CleanupStatus, removed: Resources)

  function ConfigsFor(root: string, subst: Option<Subst>): Configs {
    match subst
    case None => AtRoot(root)
    case Some(s) => OnDrive(s.drive)
  }

  predicate Digits(s: string) {
    forall c <- s :: '0' <= c <= '9'
  }

  predicate LowerAlphanumeric(s: string) {
    forall c <- s :: '0' <= c <= '9' || 'a' <= c <= 'z'
  }

  // axit-n4-<8 digits>t<6 digits>z-<digits>-<8 lower-case letters or digits>
  predicate OwnedName(p: string) {
    && |p| >= 35 && p[..8] == PROJECT_PREFIX
    && Digits(p[8..16]) && p[16] == 't' && Digits(p[17..23]) && p[23] == 'z' && p[24] == '-'
    && Digits(p[25..|p| - 9]) && p[|p| - 9] == '-'
    && LowerAlphanumeric(p[|p| - 8..])
  }

  // ---------- The ownership check

  function Ids(rows: seq<Row>): set<string> {
    set i | 0 <= i < |rows| :: rows[i].id
  }

  // Looking a row up by id finds the last one that carries it.
  function ById(rows: seq<Row>, id: string): (row: Row)
    requires id in Ids(rows)
    ensures row in rows && row.id == id
  {
    if rows[|rows| - 1].id == id then rows[|rows| - 1] else ById(rows[..|rows| - 1], id)
  }

  predicate KindOwned(project: string, expected: seq<Row>, current: seq<Row>, containers: bool) {
    && Ids(expected) == Ids(current)
    && forall row <- current ::
         && row.project == Some(project) && row.project == ById(expected, row.id).project
         && (containers ==> row.service.Some? && row.service.value in EXPECTED_SERVICES
                            && row.service == ById(expected, row.id).service)
  }

  predicate Owns(m: Manifest, current: Resources, configs: Configs) {
    && m.configs == configs && PROJECT_PREFIX <= m.project
    && KindOwned(m.project, m.resources.containers, current.containers, true)
    && KindOwned(m.project, m.resources.networks, current.networks, false)
    && KindOwned(m.project, m.resources.volumes, current.volumes, false)
  }

  lemma KindNeedsRows(project: string, expected: seq<Row>, current: seq<Row>, containers: bool)
    requires KindOwned(project, expected, current, containers)
    ensures expected == [] <==> current == []
  {
    if expected != [] {
      assert expected[0].id in Ids(expected);
    }
    if current != [] {
      assert current[0].id in Ids(current);
    }
  }

  // A project with resources never matches a manifest that recorded none, nor
  // an empty project one that recorded some.
  lemma EmptinessMustAgree(m: Manifest, current: Resources, configs: Configs)
    requires Owns(m, current, configs)
    ensures HasResources(m.resources) <==> HasResources(current)
  {
    KindNeedsRows(m.project, m.resources.containers, current.containers, true);
    KindNeedsRows(m.project, m.resources.networks, current.networks, false);
    KindNeedsRows(m.project, m.resources.volumes, current.volumes, false);
  }

  // What a row is known by: its id and labels, the service only for containers.
  datatype Label = Label(id: string, project: Option<string>, service: Option<string>)

  function LabelOf(row: Row, containers: bool): Label {
    Label(row.id, row.project, if containers then row.service else None)
  }

  function Found(rows: seq<Row>, containers: bool): set<Label> {
    set i | 0 <= i < |rows| :: LabelOf(rows[i], containers)
  }

  // What looking up every recorded id gives.
  function Recorded(rows: seq<Row>, containers: bool): set<Label> {
    set id | id in Ids(rows) :: LabelOf(ById(rows, id), containers)
  }

  predicate LabelledRow(project: string, row: Row, containers: bool) {
    && row.project == Some(project)
    && (containers ==> row.service.Some? && row.service.value in EXPECTED_SERVICES)
  }

  lemma KindOwnedFindsRecorded(project: string, expected: seq<Row>, current: seq<Row>, containers: bool)
    requires KindOwned(project, expected, current, containers)
    ensures Found(current, containers) == Recorded(expected, containers)
  {
    forall l | l in Recorded(expected, containers)
      ensures l in Found(current, containers)
    {
      var id :| id in Ids(expected) && l == LabelOf(ById(expected, id), containers);
      var i :| 0 <= i < |current| && current[i].id == id;
      assert current[i] in current;
    }
    forall l | l in Found(current, containers)
      ensures l in Recorded(expected, containers)
    {
      var i :| 0 <= i < |current| && l == LabelOf(current[i], containers);
      assert current[i] in current && current[i].id in Ids(expected);
    }
  }

  lemma FoundIsOwned(project: string, expected: seq<Row>, current: seq<Row>, containers: bool)
    requires Found(current, containers) == Recorded(expected, containers)
    requires forall row <- current :: LabelledRow(project, row, containers)
    ensures KindOwned(project, expected, current, containers)
  {
    forall row | row in current
      ensures row.id in Ids(expected) && LabelOf(row, containers) == LabelOf(ById(expected, row.id), containers)
    {
      var i :| 0 <= i < |current| && current[i] == row;
      assert LabelOf(row, containers) in Found(current, containers);
      var id :| id in Ids(expected) && LabelOf(row, containers) == LabelOf(ById(expected, id), containers);
    }
    forall id | id in Ids(expected)
      ensures id in Ids(current)
    {
      assert LabelOf(ById(expected, id), containers) in Found(current, containers);
      var i :| 0 <= i < |current| && LabelOf(current[i], containers) == LabelOf(ById(expected, id), containers);
    }
    forall id | id in Ids(current)
      ensures id in Ids(expected)
    {
      var i :| 0 <= i < |current| && current[i].id == id;
      assert current[i] in current;
    }
  }

  // The check passes for a kind exactly when every row found is labelled as the
  // project's own and the labels found are those recorded.
  lemma KindOwnedIff(project: string, expected: seq<Row>, current: seq<Row>, containers: bool)
    ensures KindOwned(project, expected, current, containers) <==>
            && Found(current, containers) == Recorded(expected, containers)
            && forall row <- current :: LabelledRow(project, row, containers)
  {
    if KindOwned(project, expected, current, containers) {
      KindOwnedFindsRecorded(project, expected, current, containers);
    } else if Found(current, containers) == Recorded(expected, containers)
              && forall row <- current :: LabelledRow(project, row, containers) {
      FoundIsOwned(project, expected, current, containers);
    }
  }

  ghost predicate SameLabels(m: Manifest, current: Resources) {
    && Found(current.containers, true) == Recorded(m.resources.containers, true)
    && Found(current.networks, false) == Recorded(m.resources.networks, false)
    && Found(current.volumes, false) == Recorded(m.resources.volumes, false)
  }

  ghost predicate Labelled(project: string, r: Resources) {
    && (forall row <- r.containers :: LabelledRow(project, row, true))
    && (forall row <- r.networks + r.volumes :: LabelledRow(project, row, false))
  }

  // The whole check: the paths, an owned project, its own labels, and exactly
  // the labels recorded.
  lemma OwnershipIsSameLabels(m: Manifest, current: Resources, configs: Configs)
    ensures Owns(m, current, configs) <==>
            && m.configs == configs && PROJECT_PREFIX <= m.project
            && Labelled(m.project, current) && SameLabels(m, current)
  {
    KindOwnedIff(m.project, m.resources.containers, current.containers, true);
    KindOwnedIff(m.project, m.resources.networks, current.networks, false);
    KindOwnedIff(m.project, m.resources.volumes, current.volumes, false);
  }

  // ---------- The log

  // A command is logged when it is issued; MapFailed and Unmapped are answers.
  datatype Entry =
    | Called
    | Persisted(manifest: Manifest)
    | Archived
    | Snapshotted(project: string, found: Resources)
    | DriveQueried(drive: char, mapping: Option<string>)
    | Map(drive: char, target: string)
    | MapFailed(drive: char)
    | Unmap(drive: char)
    | Unmapped(drive: char)
    | Up(project: string, configs: Configs)
    | Down(project: string, configs: Configs, seen: Resources)

  function Last(log: seq<Entry>): Entry
    requires log != []
  {
    log[|log| - 1]
  }

  function Front(log: seq<Entry>): seq<Entry>
    requires log != []
  {
    log[..|log| - 1]
  }

  // The manifest on disk.
  function Disk(log: seq<Entry>): Option<Manifest> {
    if log == [] then None
    else
      match Last(log)
      case Persisted(m) => Some(m)
      case Archived => None
      case _ => Disk(Front(log))
  }

  // What was learnt before these is no longer evidence.
  predicate Disturbs(e: Entry) {
    e.Called? || e.Up? || e.Down? || e.Map? || e.Unmap?
  }

  // Logged since the running call began and since its last command, or that
  // command itself.
  predicate Fresh(log: seq<Entry>, e: Entry) {
    log != [] && (Last(log) == e || (!Disturbs(Last(log)) && Fresh(Front(log), e)))
  }

  // ---------- When an action is allowed

  predicate UpAllowed(log: seq<Entry>, project: string, configs: Configs) {
    match Disk(log)
    case None => false
    case Some(m) => m.project == project && OwnedName(project) && m.status == Starting
                    && m.configs == configs == ConfigsFor(m.source, m.subst)
  }

  predicate DriveConfirmed(log: seq<Entry>, s: Subst) {
    s.created && Fresh(log, DriveQueried(s.drive, Some(s.target)))
  }

  predicate DownAllowed(log: seq<Entry>, project: string, configs: Configs, seen: Resources) {
    match Disk(log)
    case None => false
    case Some(m) => && m.project == project && OwnedName(project) && m.status != CleanupPending
                    && configs == ConfigsFor(m.source, m.subst)
                    && Fresh(log, Snapshotted(project, seen)) && HasResources(seen) && Owns(m, seen, configs)
                    && Fresh(log, Snapshotted(PROTECTED_PROJECT, m.phase0))
                    && (m.subst.Some? ==> DriveConfirmed(log, m.subst.value))
  }

  // A first manifest names an owned project that was just seen empty.
  predicate FirstAllowed(log: seq<Entry>, m: Manifest) {
    && (m.status == Starting || m.status == StartFailed)
    && OwnedName(m.project) && m.resources == EMPTY && m.configs == ConfigsFor(m.source, m.subst)
    && Fresh(log, Snapshotted(m.project, EMPTY)) && Fresh(log, Snapshotted(PROTECTED_PROJECT, m.phase0))
    && (m.subst.Some? ==> !m.subst.value.created)
  }

  predicate StatusAllowed(log: seq<Entry>, from: Manifest, to: Manifest) {
    || to.status == from.status
    || (from.status == Starting && to.status == StartFailed)
    || (from.status == Starting && to.status == Running && Fresh(log, Up(to.project, to.configs))
        && Fresh(log, Snapshotted(to.project, to.resources)) && Fresh(log, Snapshotted(PROTECTED_PROJECT, to.phase0)))
    || (to.status == CleanupPending && Fresh(log, Snapshotted(to.project, EMPTY)))
    || (from.status == CleanupPending && to.status == Stopped && Fresh(log, Snapshotted(PROTECTED_PROJECT, to.phase0)))
  }

  predicate SubstAllowed(log: seq<Entry>, from: Manifest, to: Manifest) {
    match (from.subst, to.subst)
    case (None, None) => true
    case (None, Some(s)) => to.status == Starting && !s.created
    case (Some(s), None) => && (to.status == Starting || from.status == to.status == CleanupPending)
                            && (Fresh(log, MapFailed(s.drive)) || Fresh(log, Unmapped(s.drive)))
    case (Some(s), Some(t)) => t == s || (t == s.(created := true) && log != [] && Last(log) == Map(s.drive, s.target))
  }

  // Only start rewrites the paths: stop leaves them as they are.
  predicate ConfigsAllowed(from: Manifest, to: Manifest) {
    to.configs == if to.status == Starting then ConfigsFor(to.source, to.subst) else from.configs
  }

  // A capture that was given up recorded nothing.
  predicate CleanupAllowed(from: Manifest, to: Manifest) {
    to.cleanup == CaptureExhausted ==>
      to.resources == EMPTY || (from.cleanup == CaptureExhausted && to.resources == from.resources)
  }

  predicate RewriteAllowed(log: seq<Entry>, from: Manifest, to: Manifest) {
    && to.project == from.project && to.phase0 == from.phase0 && to.source == from.source
    && (to.resources == from.resources || Fresh(log, Snapshotted(to.project, to.resources)))
    && StatusAllowed(log, from, to) && SubstAllowed(log, from, to)
    && ConfigsAllowed(from, to) && CleanupAllowed(from, to)
    && (to.status == Stopped ==> to.subst == None)
  }

  predicate Allowed(log: seq<Entry>, e: Entry) {
    match e
    case Up(project, configs) => UpAllowed(log, project, configs)
    case Down(project, configs, seen) => DownAllowed(log, project, configs, seen)
    case Persisted(m) => if Disk(log).None? then FirstAllowed(log, m) else RewriteAllowed(log, Disk(log).value, m)
    case Archived => Disk(log).Some? && !Active(Disk(log).value.status)
    case Map(drive, target) => Disk(log).Some? && Disk(log).value.subst == Some(Subst(drive, target, false))
                               && Disk(log).value.status == Starting && Fresh(log, DriveQueried(drive, None))
    case MapFailed(drive) => log != [] && Last(log).Map? && Last(log).drive == drive
    case Unmap(drive) => Disk(log).Some? && Disk(log).value.subst.Some? && Disk(log).value.subst.value.drive == drive
                         && DriveConfirmed(log, Disk(log).value.subst.value)
    case Unmapped(drive) => log != [] && Last(log) == Unmap(drive)
    case _ => true
  }

  predicate Safe(log: seq<Entry>) {
    log == [] || (Safe(Front(log)) && Allowed(Front(log), Last(log)))
  }

  // ---------- Logs grow

  // What was fresh stays fresh.
  ghost predicate Keeps(before: seq<Entry>, after: seq<Entry>) {
    forall e :: Fresh(before, e) ==> Fresh(after, e)
  }

  lemma Grows(log: seq<Entry>, e: Entry)
    ensures Safe(log + [e]) == (Safe(log) && Allowed(log, e))
    ensures Disk(log + [e]) == (if e.Persisted? then Some(e.manifest) else if e.Archived? then None else Disk(log))
    ensures Fresh(log + [e], e) && (!Disturbs(e) ==> Keeps(log, log + [e]))
  {
    assert Front(log + [e]) == log;
  }

  // Everything up to any point of a safe log was safe and the next entry allowed.
  lemma {:induction false} SafeAt(log: seq<Entry>, i: nat)
    requires Safe(log) && i < |log|
    ensures Safe(log[..i]) && Allowed(log[..i], log[i])
  {
    if i < |log| - 1 {
      SafeAt(Front(log), i);
      assert Front(log)[..i] == log[..i];
    }
  }

  // No command was issued, and no call began, from k up to i.
  ghost predicate Undisturbed(log: seq<Entry>, k: nat, i: nat) {
    forall j :: k <= j < i && j < |log| ==>
                  !log[j].Called? && !log[j].Up? && !log[j].Down? && !log[j].Map? && !log[j].Unmap?
  }

  // Fresh evidence has a place, and nothing that disturbs stands behind it.
  lemma {:induction false} FreshHasPlace(log: seq<Entry>, e: Entry) returns (k: nat)
    requires Fresh(log, e)
    ensures k < |log| && log[k] == e && Undisturbed(log, k + 1, |log|)
  {
    if Last(log) == e {
      k := |log| - 1;
    } else {
      k := FreshHasPlace(Front(log), e);
    }
  }

  // The paths fit the mapping, unless a teardown has let the mapping go; after
  // a capture that was given up nothing is recorded.
  lemma {:induction false} DiskFits(log: seq<Entry>)
    requires Safe(log) && Disk(log).Some?
    ensures var m := Disk(log).value;
            && OwnedName(m.project) && (m.cleanup == CaptureExhausted ==> m.resources == EMPTY)
            && (m.configs == ConfigsFor(m.source, m.subst)
                || (m.subst.None? && m.configs.OnDrive? && TornDown(m.status)))
  {
    if !Last(log).Persisted? || Disk(Front(log)).Some? {
      DiskFits(Front(log));
    }
  }

  // ---------- Main results, for every safe log

  lemma OwnedIsNotProtected(project: string)
    requires OwnedName(project)
    ensures project != PROTECTED_PROJECT
  {
    assert project[5] == 'n';
  }

  // Whatever is brought up or down is an owned project, named by the manifest
  // then on disk, and never the protected one; its paths are those of the
  // manifest's drive, or of its root. Up is only for a manifest that is starting.
  lemma OnlyOwnedProjects(log: seq<Entry>, i: nat)
    requires Safe(log) && i < |log| && (log[i].Up? || log[i].Down?)
    ensures OwnedName(log[i].project) && log[i].project != PROTECTED_PROJECT
    ensures Disk(log[..i]).Some? && Disk(log[..i]).value.project == log[i].project
    ensures var m := Disk(log[..i]).value;
            m.configs == log[i].configs == ConfigsFor(m.source, m.subst) && (log[i].Up? ==> m.status == Starting)
  {
    SafeAt(log, i);
    ProjectIsOnDisk(log[..i], log[i]);
    OwnedIsNotProtected(log[i].project);
  }

  lemma ProjectIsOnDisk(log: seq<Entry>, e: Entry)
    requires (e.Up? || e.Down?) && Allowed(log, e)
    ensures OwnedName(e.project) && Disk(log).Some? && Disk(log).value.project == e.project
    ensures var m := Disk(log).value;
            m.configs == e.configs == ConfigsFor(m.source, m.subst) && (e.Up? ==> m.status == Starting)
  {
  }

  // A manifest on disk keeps its project and its picture of the protected one.
  lemma IdentityStays(log: seq<Entry>)
    requires Safe(log) && log != [] && Disk(log).Some? && Disk(Front(log)).Some?
    ensures var m, before := Disk(log).value, Disk(Front(log)).value;
            m.project == before.project && m.phase0 == before.phase0
  {
  }

  lemma {:induction false} FirstEntry(log: seq<Entry>) returns (first: nat)
    requires Safe(log) && Disk(log).Some?
    ensures first < |log| && Disk(log[..first]).None? && log[first].Persisted?
    ensures var m := log[first].manifest;
            m.project == Disk(log).value.project && m.phase0 == Disk(log).value.phase0
    ensures forall j :: first < j < |log| ==> !log[j].Archived?
  {
    var before := Front(log);
    if Disk(before).None? {
      first := |log| - 1;
    } else {
      IdentityStays(log);
      first := FirstEntry(before);
      assert before[..first] == log[..first];
    }
  }

  // The call that wrote the first manifest of the project had seen the project
  // empty, and took the manifest's picture of the protected project.
  lemma FirstHasEvidence(log: seq<Entry>) returns (empty: nat, taken: nat, first: nat)
    requires Safe(log) && Disk(log).Some?
    ensures empty < first < |log| && log[empty] == Snapshotted(Disk(log).value.project, EMPTY)
    ensures taken < first && log[taken] == Snapshotted(PROTECTED_PROJECT, Disk(log).value.phase0)
    ensures Undisturbed(log, empty, first) && Undisturbed(log, taken, first)
    ensures Disk(log[..first]).None? && log[first].Persisted? && log[first].manifest.project == Disk(log).value.project
    ensures forall j :: first < j < |log| ==> !log[j].Archived?
  {
    first := FirstEntry(log);
    SafeAt(log, first);
    empty := FreshHasPlace(log[..first], Snapshotted(Disk(log).value.project, EMPTY));
    taken := FreshHasPlace(log[..first], Snapshotted(PROTECTED_PROJECT, Disk(log).value.phase0));
  }

  // Before every down, in the same call and with no command between: a snapshot
  // of the project that is not empty, with all labels the project's own and
  // exactly the labels of the manifest on disk, and a snapshot of the protected
  // project equal to the manifest's. No teardown was recorded yet.
  lemma DownHasEvidence(log: seq<Entry>, i: nat) returns (seen: nat, guarded: nat)
    requires Safe(log) && i < |log| && log[i].Down?
    ensures Disk(log[..i]).Some? && Disk(log[..i]).value.status != CleanupPending
    ensures seen < i && log[seen] == Snapshotted(log[i].project, log[i].seen)
    ensures guarded < i && log[guarded] == Snapshotted(PROTECTED_PROJECT, Disk(log[..i]).value.phase0)
    ensures Undisturbed(log, seen, i) && Undisturbed(log, guarded, i)
    ensures HasResources(log[i].seen) && Labelled(log[i].project, log[i].seen)
            && SameLabels(Disk(log[..i]).value, log[i].seen)
  {
    SafeAt(log, i);
    DownIsOwned(log[..i], log[i]);
    seen := FreshHasPlace(log[..i], Snapshotted(log[i].project, log[i].seen));
    guarded := FreshHasPlace(log[..i], Snapshotted(PROTECTED_PROJECT, Disk(log[..i]).value.phase0));
  }

  lemma DownIsOwned(log: seq<Entry>, e: Entry)
    requires e.Down? && Allowed(log, e)
    ensures Disk(log).Some? && Labelled(e.project, e.seen) && SameLabels(Disk(log).value, e.seen)
  {
    OwnershipIsSameLabels(Disk(log).value, e.seen, e.configs);
  }

  // A project on a drive is brought down only after the drive was seen to show
  // the recorded target, with no command between.
  lemma DownOnDriveHasEvidence(log: seq<Entry>, i: nat) returns (shown: nat)
    requires Safe(log) && i < |log| && log[i].Down? && Disk(log[..i]).Some? && Disk(log[..i]).value.subst.Some?
    ensures var s := Disk(log[..i]).value.subst.value;
            s.created && shown < i && log[shown] == DriveQueried(s.drive, Some(s.target))
    ensures Undisturbed(log, shown, i)
  {
    SafeAt(log, i);
    var s := Disk(log[..i]).value.subst.value;
    shown := FreshHasPlace(log[..i], DriveQueried(s.drive, Some(s.target)));
  }

  // A project found empty at or after place i.
  ghost predicate SeenEmptyAfter(log: seq<Entry>, i: nat, project: string) {
    exists j :: i < j < |log| && log[j] == Snapshotted(project, EMPTY)
  }

  predicate TornDown(status: Status) {
    status == CleanupPending || status == Stopped
  }

  // Nothing brought up is forgotten: the project is seen empty afterwards, or
  // the manifest on disk still names it and was not torn down.
  lemma {:induction false} NothingIsForgotten(log: seq<Entry>, i: nat)
    requires Safe(log) && i < |log| && log[i].Up?
    ensures || SeenEmptyAfter(log, i, log[i].project)
            || (Disk(log).Some? && Disk(log).value.project == log[i].project && !TornDown(Disk(log).value.status))
  {
    if i < |log| - 1 {
      var before := Front(log);
      NothingIsForgotten(before, i);
      var empty := Snapshotted(log[i].project, EMPTY);
      if SeenEmptyAfter(before, i, log[i].project) {
        var j :| i < j < |before| && before[j] == empty;
        assert log[j] == empty;
      }
      if Fresh(before, empty) {
        var k := FreshHasPlace(before, empty);
        assert log[k] == empty;
      }
    }
  }

  // At most one project at a time is up without having been seen empty since.
  lemma OneProjectAtATime(log: seq<Entry>, i: nat, j: nat)
    requires Safe(log) && i < |log| && j < |log| && log[i].Up? && log[j].Up?
    requires !SeenEmptyAfter(log, i, log[i].project) && !SeenEmptyAfter(log, j, log[j].project)
    ensures log[i].project == log[j].project
  {
    NothingIsForgotten(log, i);
    NothingIsForgotten(log, j);
  }

  // Nothing was brought up or archived from i on.
  ghost predicate StaysDown(log: seq<Entry>, i: nat) {
    forall j :: i <= j < |log| ==> !log[j].Up? && !log[j].Archived?
  }

  // A manifest that is being or was torn down had its project seen empty by the
  // call that recorded the teardown, after the last command of that call, and
  // nothing was brought up since.
  lemma {:induction false} TeardownFollowsEmpty(log: seq<Entry>) returns (seen: nat, pending: nat)
    requires Safe(log) && Disk(log).Some? && TornDown(Disk(log).value.status)
    ensures seen < pending < |log| && log[seen] == Snapshotted(Disk(log).value.project, EMPTY)
    ensures log[pending].Persisted? && log[pending].manifest.status == CleanupPending
            && log[pending].manifest.project == Disk(log).value.project
    ensures Undisturbed(log, seen, pending) && StaysDown(log, pending)
  {
    var before := Front(log);
    if Last(log).Persisted? && Last(log).manifest.status == CleanupPending
        && Disk(before).value.status != CleanupPending {
      pending := |log| - 1;
      seen := FreshHasPlace(before, Snapshotted(Disk(log).value.project, EMPTY));
    } else {
      seen, pending := TeardownFollowsEmpty(before);
    }
  }

  // A stopped manifest holds no drive mapping.
  lemma {:induction false} StoppedHasNoDrive(log: seq<Entry>)
    requires Safe(log) && Disk(log).Some? && Disk(log).value.status == Stopped
    ensures Disk(log).value.subst == None
  {
    if !Last(log).Persisted? {
      StoppedHasNoDrive(Front(log));
    }
  }

  // Where the manifest on disk got a status that is not a first one.
  lemma {:induction false} StatusEntry(log: seq<Entry>) returns (i: nat)
    requires Safe(log) && Disk(log).Some? && (Disk(log).value.status == Running || Disk(log).value.status == Stopped)
    ensures i < |log| && log[i].Persisted? && Disk(log[..i]).Some?
    ensures log[i].manifest.status == Disk(log).value.status != Disk(log[..i]).value.status
    ensures log[i].manifest.project == Disk(log).value.project && log[i].manifest.phase0 == Disk(log).value.phase0
    ensures StaysDown(log, i)
  {
    var before := Front(log);
    if Disk(before).Some? && Disk(before).value.status == Disk(log).value.status {
      IdentityStays(log);
      i := StatusEntry(before);
      assert before[..i] == log[..i];
    } else {
      i := |log| - 1;
    }
  }

  // A stopped manifest was recorded after its teardown and the release of its
  // drive, by a call that saw the protected project unchanged after its last
  // command, the release included; nothing was brought up since.
  lemma StoppedHasEvidence(log: seq<Entry>) returns (guarded: nat, stopped: nat)
    requires Safe(log) && Disk(log).Some? && Disk(log).value.status == Stopped
    ensures guarded < stopped < |log| && log[guarded] == Snapshotted(PROTECTED_PROJECT, Disk(log).value.phase0)
    ensures log[stopped].Persisted? && log[stopped].manifest.status == Stopped
    ensures Disk(log[..stopped]).Some? && Disk(log[..stopped]).value.status == CleanupPending
            && Disk(log[..stopped]).value.subst == None
    ensures Undisturbed(log, guarded, stopped) && StaysDown(log, stopped)
  {
    stopped := StatusEntry(log);
    SafeAt(log, stopped);
    guarded := FreshHasPlace(log[..stopped], Snapshotted(PROTECTED_PROJECT, Disk(log).value.phase0));
  }

  // A running manifest was recorded by the call that brought its project up
  // from its paths; after that up, the call listed exactly the recorded resources
  // and saw the protected project unchanged.
  lemma RunningHasEvidence(log: seq<Entry>) returns (up: nat, listed: nat, guarded: nat, running: nat)
    requires Safe(log) && Disk(log).Some? && Disk(log).value.status == Running
    ensures up < listed < running < |log| && up < guarded < running
    ensures log[running].Persisted? && log[running].manifest.status == Running
    ensures var m := log[running].manifest;
            && m.project == Disk(log).value.project && m.phase0 == Disk(log).value.phase0
            && log[up] == Up(m.project, m.configs) && log[listed] == Snapshotted(m.project, m.resources)
            && log[guarded] == Snapshotted(PROTECTED_PROJECT, m.phase0)
    ensures Undisturbed(log, up + 1, running) && StaysDown(log, running)
  {
    running := StatusEntry(log);
    SafeAt(log, running);
    var m := log[running].manifest;
    up := FreshHasPlace(log[..running], Up(m.project, m.configs));
    listed := FreshHasPlace(log[..running], Snapshotted(m.project, m.resources));
    guarded := FreshHasPlace(log[..running], Snapshotted(PROTECTED_PROJECT, m.phase0));
  }

  // Resources that a manifest records were listed, under its project, by the call
  // that recorded them and after its last command.
  lemma {:induction false} RecordedWasListed(log: seq<Entry>) returns (listed: nat, recorded: nat)
    requires Safe(log) && Disk(log).Some? && HasResources(Disk(log).value.resources)
    ensures listed < recorded < |log|
    ensures log[listed] == Snapshotted(Disk(log).value.project, Disk(log).value.resources)
    ensures log[recorded].Persisted? && log[recorded].manifest.project == Disk(log).value.project
            && log[recorded].manifest.resources == Disk(log).value.resources
    ensures Undisturbed(log, listed, recorded)
  {
    var before := Front(log);
    if Disk(before).Some? && Disk(before).value.resources == Disk(log).value.resources {
      IdentityStays(log);
      listed, recorded := RecordedWasListed(before);
    } else {
      recorded := |log| - 1;
      listed := FreshHasPlace(before, Snapshotted(Disk(log).value.project, Disk(log).value.resources));
    }
  }

  // ---------- Drives

  // A drive is mapped only after it was seen free with no command between, and
  // with the intention on disk.
  lemma MapHasEvidence(log: seq<Entry>, i: nat) returns (seen: nat)
    requires Safe(log) && i < |log| && log[i].Map?
    ensures seen < i && log[seen] == DriveQueried(log[i].drive, None) && Undisturbed(log, seen, i)
    ensures Disk(log[..i]).Some? && Disk(log[..i]).value.status == Starting
            && Disk(log[..i]).value.subst == Some(Subst(log[i].drive, log[i].target, false))
  {
    SafeAt(log, i);
    seen := FreshHasPlace(log[..i], DriveQueried(log[i].drive, None));
  }

  // A mapping recorded as created was asked for under this manifest, and no
  // other mapping was asked for since.
  lemma {:induction false} CreatedWasMapped(log: seq<Entry>) returns (mapped: nat)
    requires Safe(log) && Disk(log).Some? && Disk(log).value.subst.Some? && Disk(log).value.subst.value.created
    ensures mapped < |log| && log[mapped] == Map(Disk(log).value.subst.value.drive, Disk(log).value.subst.value.target)
    ensures forall j :: mapped < j < |log| ==> !log[j].Map? && !log[j].Archived?
  {
    var before := Front(log);
    var s := Disk(log).value.subst.value;
    if Last(log).Persisted? && Disk(before).Some? && Disk(before).value.subst != Some(s) {
      mapped := |before| - 1;
    } else {
      mapped := CreatedWasMapped(before);
    }
  }

  // A drive is released only if this manifest's run mapped it, and only after it
  // was seen to show the recorded target, with no command between.
  lemma UnmapHasEvidence(log: seq<Entry>, i: nat) returns (mapped: nat, seen: nat)
    requires Safe(log) && i < |log| && log[i].Unmap?
    ensures Disk(log[..i]).Some? && Disk(log[..i]).value.subst.Some?
    ensures var s := Disk(log[..i]).value.subst.value;
            && s.drive == log[i].drive && s.created
            && mapped < seen < i && log[mapped] == Map(s.drive, s.target)
            && log[seen] == DriveQueried(s.drive, Some(s.target))
    ensures Undisturbed(log, seen, i) && forall j :: mapped < j < i ==> !log[j].Map? && !log[j].Archived?
  {
    SafeAt(log, i);
    var before := log[..i];
    var s := Disk(before).value.subst.value;
    mapped := CreatedWasMapped(before);
    seen := FreshHasPlace(before, DriveQueried(s.drive, Some(s.target)));
  }

  // The answer to a mapping or an unmapping of the drive that lets it go.
  predicate Releases(log: seq<Entry>, j: nat, drive: char) {
    && 0 < j < |log|
    && ((log[j] == MapFailed(drive) && log[j - 1].Map? && log[j - 1].drive == drive)
        || (log[j] == Unmapped(drive) && log[j - 1] == Unmap(drive)))
  }

  ghost predicate DriveReleasedAfter(log: seq<Entry>, i: nat, drive: char) {
    exists j :: i < j && Releases(log, j, drive)
  }

  lemma AnswerReleases(log: seq<Entry>, j: nat, drive: char)
    requires Safe(log) && j < |log| && (log[j] == MapFailed(drive) || log[j] == Unmapped(drive))
    ensures Releases(log, j, drive)
  {
    SafeAt(log, j);
  }

  // No drive is forgotten: a mapping that was asked for is refused or removed
  // afterwards, or the manifest on disk still names the drive.
  lemma {:induction false} NoDriveIsForgotten(log: seq<Entry>, i: nat)
    requires Safe(log) && i < |log| && log[i].Map?
    ensures || DriveReleasedAfter(log, i, log[i].drive)
            || (Disk(log).Some? && Disk(log).value.subst.Some? && Disk(log).value.subst.value.drive == log[i].drive)
  {
    if i < |log| - 1 {
      var before, drive := Front(log), log[i].drive;
      NoDriveIsForgotten(before, i);
      if DriveReleasedAfter(before, i, drive) {
        var j: nat :| i < j && Releases(before, j, drive);
        assert Releases(log, j, drive);
      }
      forall e | (e == MapFailed(drive) || e == Unmapped(drive)) && Fresh(before, e)
        ensures DriveReleasedAfter(log, i, drive)
      {
        var k := FreshHasPlace(before, e);
        AnswerReleases(log, k, drive);
      }
      if Last(log).Archived? {
        StoppedHasNoDrive(before);
      }
    }
  }
}
