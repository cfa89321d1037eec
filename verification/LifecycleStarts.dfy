// When a start of the lifecycle succeeds (scripts/n4_compose_lifecycle.py), in
// terms of the raw answers it gets.
module LifecycleStarts {
  import opened Wrappers
  import opened LifecycleCalls
  import opened LifecycleLog

  // ---------- Names

  const DECIMAL := "0123456789"
  const LETTERS := "abcdefghijklmnopqrstuvwxyz"

  ghost predicate Spelt(s: string, alphabet: string) {
    forall c :: c in s ==> c in alphabet
  }

  // An owned name says when, by which process and under which random suffix its
  // project was started.
  ghost predicate NameOf(p: string, date: string, time: string, process: string, suffix: string) {
    && p == "axit-n4-" + date + "t" + time + "z-" + process + "-" + suffix
    && |date| == 8 && Spelt(date, DECIMAL) && |time| == 6 && Spelt(time, DECIMAL)
    && process != "" && Spelt(process, DECIMAL) && |suffix| == 8 && Spelt(suffix, DECIMAL + LETTERS)
  }

  // The alphabet runs from its first character without a gap.
  ghost predicate Runs(alphabet: string, first: char, n: nat) {
    |alphabet| == n && forall i :: 0 <= i < n ==> alphabet[i] as int == first as int + i
  }

  lemma AlphabetsRun()
    ensures Runs(DECIMAL, '0', 10) && Runs(LETTERS, 'a', 26)
  {
    forall i | 0 <= i < 10
      ensures DECIMAL[i] as int == '0' as int + i
    {
    }
    forall i | 0 <= i < 26
      ensures LETTERS[i] as int == 'a' as int + i
    {
    }
  }

  lemma RunHolds(alphabet: string, first: char, n: nat, c: char)
    requires Runs(alphabet, first, n)
    ensures c in alphabet <==> first as int <= c as int < first as int + n
  {
    if first as int <= c as int < first as int + n {
      assert alphabet[c as int - first as int] == c;
    }
  }

  lemma SpeltIff(s: string, decimal: string, letters: string)
    requires Runs(decimal, '0', 10) && Runs(letters, 'a', 26)
    ensures Digits(s) <==> Spelt(s, decimal)
    ensures LowerAlphanumeric(s) <==> Spelt(s, decimal + letters)
  {
    forall c: char
      ensures c in decimal <==> '0' <= c <= '9'
      ensures c in decimal + letters <==> '0' <= c <= '9' || 'a' <= c <= 'z'
    {
      RunHolds(decimal, '0', 10, c);
      RunHolds(letters, 'a', 26, c);
    }
  }

  lemma SpellingIs(s: string)
    ensures Digits(s) <==> Spelt(s, DECIMAL)
    ensures LowerAlphanumeric(s) <==> Spelt(s, DECIMAL + LETTERS)
  {
    AlphabetsRun();
    SpeltIff(s, DECIMAL, LETTERS);
  }

  // The same in terms of the classes that the pattern names.
  ghost predicate PartsOf(p: string, date: string, time: string, process: string, suffix: string) {
    && p == "axit-n4-" + date + "t" + time + "z-" + process + "-" + suffix
    && |date| == 8 && Digits(date) && |time| == 6 && Digits(time) && process != "" && Digits(process)
    && |suffix| == 8 && LowerAlphanumeric(suffix)
  }

  lemma PartsAreSpelt(p: string, date: string, time: string, process: string, suffix: string)
    ensures PartsOf(p, date, time, process, suffix) <==> NameOf(p, date, time, process, suffix)
  {
    SpellingIs(date);
    SpellingIs(time);
    SpellingIs(process);
    SpellingIs(suffix);
  }

  lemma OwnedNameIff(p: string)
    ensures OwnedName(p) <==> exists date, time, process, suffix :: NameOf(p, date, time, process, suffix)
  {
    if OwnedName(p) {
      NameParts(p);
      PartsAreSpelt(p, p[8..16], p[17..23], p[25..|p| - 9], p[|p| - 8..]);
    }
    forall date, time, process, suffix | NameOf(p, date, time, process, suffix)
      ensures OwnedName(p)
    {
      PartsAreSpelt(p, date, time, process, suffix);
      PartsMakeName(p, date, time, process, suffix);
    }
  }

  lemma NameParts(p: string)
    requires OwnedName(p)
    ensures PartsOf(p, p[8..16], p[17..23], p[25..|p| - 9], p[|p| - 8..])
  {
    var process, suffix := p[25..|p| - 9], p[|p| - 8..];
    assert p == p[..8] + p[8..16] + [p[16]] + p[17..23] + [p[23], p[24]] + process + [p[|p| - 9]] + suffix;
    assert [p[16]] == "t" && [p[23], p[24]] == "z-" && [p[|p| - 9]] == "-";
  }

  lemma PartsMakeName(p: string, date: string, time: string, process: string, suffix: string)
    requires PartsOf(p, date, time, process, suffix)
    ensures OwnedName(p)
  {
    var head := "axit-n4-" + date + "t" + time + "z-";
    assert |head| == 25 && p == head + process + "-" + suffix;
    assert p[..8] == "axit-n4-" && p[8..16] == date && p[17..23] == time;
    assert p[25..|p| - 9] == process && p[|p| - 8..] == suffix;
    assert head[16] == 't' && head[23] == 'z' && head[24] == '-' && p[|p| - 9] == '-';
    assert p[16] == head[16] && p[23] == head[23] && p[24] == head[24];
  }

  // ---------- Listings and drives

  // The first listing that succeeds, of at most three.
  ghost predicate Lists(tries: Tries, found: Resources) {
    exists k :: 0 <= k < 3 && tries(k) == Some(found) && forall j :: 0 <= j < k ==> tries(j).None?
  }

  lemma CapturedIff(tries: Tries, found: Resources)
    ensures Captured(tries) == Some(found) <==> Lists(tries, found)
  {
    assert tries(0) == Some(found) ==> Lists(tries, found);
  }

  // The highest letter from Z down to D that is free and can be mapped.
  ghost predicate TakesDrive(d: DriveAnswers, drive: char) {
    && 'D' <= drive <= 'Z' && d.mapping(drive).None? && d.mapSucceeds(drive)
    && forall higher: char :: drive < higher <= 'Z' ==> d.mapping(higher).Some? || !d.mapSucceeds(higher)
  }

  lemma DrivesAreLetters(i: nat)
    requires i < |DRIVES|
    ensures |DRIVES| == 23 && DRIVES[i] as int == 'Z' as int - i
  {
  }

  lemma DrivesAreAllLetters()
    ensures forall i, j :: 0 <= i < j < |DRIVES| ==> DRIVES[i] > DRIVES[j]
    ensures forall c: char :: c in DRIVES <==> 'D' <= c <= 'Z'
  {
    DrivesAreLetters(0);
    forall i | 0 <= i < |DRIVES|
      ensures DRIVES[i] as int == 'Z' as int - i
    {
      DrivesAreLetters(i);
    }
    forall c: char | 'D' <= c <= 'Z'
      ensures c in DRIVES
    {
      assert DRIVES['Z' as int - c as int] == c;
    }
  }

  lemma {:induction false} FirstMappedOf(d: DriveAnswers, drives: string)
    requires forall i, j :: 0 <= i < j < |drives| ==> drives[i] > drives[j]
    ensures var first := FirstMapped(d, drives);
            && (first.Some? ==> first.value in drives && d.mapping(first.value).None? && d.mapSucceeds(first.value))
            && forall c :: c in drives && (first.Some? ==> c > first.value) ==>
                             d.mapping(c).Some? || !d.mapSucceeds(c)
  {
    if drives != "" {
      FirstMappedOf(d, drives[1..]);
      assert forall c :: c in drives <==> c == drives[0] || c in drives[1..];
      assert forall c :: c in drives[1..] ==> c < drives[0];
    }
  }

  lemma FirstMappedIff(d: DriveAnswers, drive: char)
    ensures FirstMapped(d, DRIVES) == Some(drive) <==> TakesDrive(d, drive)
  {
    DrivesAreAllLetters();
    FirstTaken(d, DRIVES, drive);
  }

  lemma FirstTaken(d: DriveAnswers, drives: string, drive: char)
    requires forall i, j :: 0 <= i < j < |drives| ==> drives[i] > drives[j]
    requires forall c: char :: c in drives <==> 'D' <= c <= 'Z'
    ensures FirstMapped(d, drives) == Some(drive) <==> TakesDrive(d, drive)
  {
    FirstMappedOf(d, drives);
  }

  // A drive is mapped and then shows the root.
  ghost predicate DriveWorks(d: DriveAnswers, root: string) {
    d.confirmed == Some(root) && exists drive :: TakesDrive(d, drive)
  }

  lemma DriveMadeIff(d: DriveAnswers, root: string)
    ensures DriveMade(d, root) <==> DriveWorks(d, root)
  {
    var first := FirstMapped(d, DRIVES);
    if first.Some? {
      FirstMappedIff(d, first.value);
    }
    forall drive | TakesDrive(d, drive)
      ensures first == Some(drive)
    {
      FirstMappedIff(d, drive);
    }
  }

  // Every expected service runs, and nothing else.
  ghost predicate RunsServices(r: Resources) {
    && (forall service :: service in {"postgres", "migrate", "api", "orchestrator", "web"} ==>
          exists row :: row in r.containers && row.service == Some(service))
    && (forall row :: row in r.containers ==>
          row.service.Some? && row.service.value in {"postgres", "migrate", "api", "orchestrator", "web"})
  }

  lemma ExpectedServicesIff(r: Resources)
    ensures ExpectedServices(r) <==> RunsServices(r)
  {
    var five := {"postgres", "migrate", "api", "orchestrator", "web"};
    assert EXPECTED_SERVICES == five;
    var expected := set service <- EXPECTED_SERVICES :: Some(service);
    assert forall row :: row in r.containers ==> row.service in ServicesOf(r);
    assert forall s :: s in ServicesOf(r) ==> exists row :: row in r.containers && row.service == s;
    assert forall service :: service in five ==> Some(service) in expected;
    if RunsServices(r) {
      assert ServicesOf(r) == expected;
    }
  }

  // ---------- When a start succeeds

  // The configuration resolves at the root, or from a drive when the name of the
  // root made it fail.
  ghost predicate Resolves(root: string, a: StartAnswers) {
    || a.config == Resolved(true)
    || (a.config == Unresolved(true) && DriveWorks(a.drives, root) && a.configOnDrive == Resolved(true))
  }

  ghost predicate EndsWell(listed: Resources, up: CommandAnswer, a: StartAnswers) {
    up == Succeeded && a.guard == a.phase0 && RunsServices(listed)
  }

  // The first up failed for the name of the root, at the root, and left nothing.
  ghost predicate AsksForRetry(listed: Resources, a: StartAnswers) {
    listed == EMPTY && a.config == Resolved(true) && a.up == Failed(true)
  }

  ghost predicate RetryWorks(root: string, a: StartAnswers) {
    && a.guardOnRetry == a.phase0 && DriveWorks(a.drivesOnRetry, root) && a.configOnRetry == Resolved(true)
    && exists again :: Lists(a.captureOnRetry, again) && EndsWell(again, a.upOnRetry, a)
  }

  lemma BroughtUpIff(m: Manifest, a: StartAnswers)
    requires a.phase0 == Some(m.phase0) && (m.subst == None <==> a.config == Resolved(true))
    ensures BroughtUp(m, a) <==>
              exists listed :: Lists(a.capture, listed)
                               && if AsksForRetry(listed, a) then RetryWorks(m.source, a) else EndsWell(listed, a.up, a)
  {
    DriveMadeIff(a.drivesOnRetry, m.source);
    ListsOnce(a.capture);
    ListsOnce(a.captureOnRetry);
    if Captured(a.capture).Some? {
      ExpectedServicesIff(Captured(a.capture).value);
    }
    if Captured(a.captureOnRetry).Some? {
      ExpectedServicesIff(Captured(a.captureOnRetry).value);
    }
  }

  lemma ListsOnce(tries: Tries)
    ensures forall found :: Lists(tries, found) <==> Captured(tries) == Some(found)
  {
    forall found
      ensures Lists(tries, found) <==> Captured(tries) == Some(found)
    {
      CapturedIff(tries, found);
    }
  }

  // A start succeeds exactly when nothing is in its way, the project is empty, the
  // configuration resolves, the up succeeds at the first attempt or at a second
  // one from a drive, one of three listings shows exactly the expected services,
  // and the protected project is as it was.
  lemma StartSucceedsIff(file: Option<Manifest>, root: string, project: string, a: StartAnswers)
    ensures StartSucceeds(file, root, project, a) <==>
              && (file.Some? ==> file.value.status == Stopped)
              && OwnedName(project) && a.portsSelected && a.found == Some(EMPTY) && a.phase0.Some?
              && Resolves(root, a)
              && exists listed ::
                   Lists(a.capture, listed)
                   && if AsksForRetry(listed, a) then RetryWorks(root, a) else EndsWell(listed, a.up, a)
  {
    DriveMadeIff(a.drives, root);
    if a.phase0.Some? && Configured(root, a) {
      BroughtUpIff(ConfiguredManifest(Fresh0(root, project, a.phase0.value), a), a);
    }
  }
}
