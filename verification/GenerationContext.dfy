// The generation context plan (generation_context.py): group by revision,
// drop near duplicates inside a revision, stay within three budgets. The
// duplicate test is a parameter.
module GenerationContext {
  import opened Wrappers
  import opened Sorting

  const MAX_DOCUMENT_STAGE_CALLS: nat := 32
  const MAX_ANCHORS_PER_REVISION: nat := 2_000
  const MAX_DEDUP_COMPARISONS: nat := 200_000
  const MIN_ESTIMATED_TOKENS: int := 1_000

  // Identifiers are UUIDs read as numbers: their text order is numeric order.
  datatype Anchor = Anchor(id: nat, revisionId: nat, exactQuote: string)

  datatype ContextDocument = ContextDocument(revisionId: nat, anchors: seq<Anchor>)

  datatype Plan = Plan(documents: seq<ContextDocument>, duplicateAnchorIds: seq<nat>, estimatedInputTokens: nat)

  datatype PlanError = NoAnchors | TokenBudgetTooSmall | AnchorBudgetExceeded | ComparisonBudgetExceeded
                     | AnchorTooLarge | ContextBudgetExceeded | CallBudgetExceeded

  type Duplicate = (string, string) -> bool

  // The anchors property of a plan.
  function PlanAnchors(documents: seq<ContextDocument>): seq<Anchor> {
    if documents == [] then []
    else PlanAnchors(documents[..|documents| - 1]) + documents[|documents| - 1].anchors
  }

  // ---------- Grouping

  function Group(anchors: seq<Anchor>, revisionId: nat): seq<Anchor> {
    if anchors == [] then []
    else
      var last, rest := anchors[|anchors| - 1], Group(anchors[..|anchors| - 1], revisionId);
      if last.revisionId == revisionId then rest + [last] else rest
  }

  // The revisions in the order they first occur.
  function Revisions(anchors: seq<Anchor>): seq<nat> {
    if anchors == [] then []
    else
      var last, rest := anchors[|anchors| - 1].revisionId, Revisions(anchors[..|anchors| - 1]);
      if last in rest then rest else rest + [last]
  }

  predicate Smaller(a: nat, b: nat) {
    a < b
  }

  function SortedRevisions(anchors: seq<Anchor>): seq<nat> {
    Sort(Revisions(anchors), Smaller)
  }

  ghost predicate Ascending(s: seq<nat>) {
    forall i, j :: 0 <= i < j < |s| ==> s[i] < s[j]
  }

  lemma {:induction false} RevisionsExact(anchors: seq<Anchor>)
    ensures Distinct(Revisions(anchors))
    ensures forall r :: r in Revisions(anchors) <==> exists a :: a in anchors && a.revisionId == r
  {
    if anchors != [] {
      RevisionsExact(anchors[..|anchors| - 1]);
      assert anchors == anchors[..|anchors| - 1] + [anchors[|anchors| - 1]];
    }
  }

  lemma SmallerIsStrictWeak()
    ensures StrictWeakOrder(Smaller)
  {
  }

  lemma SortedRevisionsExact(anchors: seq<Anchor>)
    ensures Ascending(SortedRevisions(anchors))
    ensures forall r :: r in SortedRevisions(anchors) <==> exists a :: a in anchors && a.revisionId == r
  {
    RevisionsExact(anchors);
    SmallerIsStrictWeak();
    SortIsSortedPermutation(Revisions(anchors), Smaller);
    SortKeepsMembers(Revisions(anchors), Smaller);
    SortKeepsDistinct(Revisions(anchors), Smaller);
  }

  lemma {:induction false} AscendingIsUnique(s: seq<nat>, t: seq<nat>)
    requires Ascending(s) && Ascending(t) && forall r :: r in s <==> r in t
    ensures s == t
  {
    if s == [] {
      assert forall k :: 0 <= k < |t| ==> t[k] in t;
    } else {
      assert s[0] in s && s[0] in t;
      assert t[0] in t && t[0] in s;
      assert s[0] == t[0];
      forall r
        ensures r in s[1..] <==> r in t[1..]
      {
        assert r in s[1..] <==> r in s && r != s[0];
        assert r in t[1..] <==> r in t && r != t[0];
      }
      AscendingIsUnique(s[1..], t[1..]);
      assert s == [s[0]] + s[1..] && t == [t[0]] + t[1..];
    }
  }

  // ---------- Deduplication inside a revision

  predicate DuplicatesOne(duplicate: Duplicate, a: Anchor, kept: seq<Anchor>) {
    exists e :: e in kept && duplicate(a.exactQuote, e.exactQuote)
  }

  function Kept(duplicate: Duplicate, group: seq<Anchor>): seq<Anchor> {
    if group == [] then []
    else
      var last, rest := group[|group| - 1], Kept(duplicate, group[..|group| - 1]);
      if DuplicatesOne(duplicate, last, rest) then rest else rest + [last]
  }

  function Dropped(duplicate: Duplicate, group: seq<Anchor>): seq<Anchor> {
    if group == [] then []
    else
      var last, rest := group[|group| - 1], Dropped(duplicate, group[..|group| - 1]);
      if DuplicatesOne(duplicate, last, Kept(duplicate, group[..|group| - 1])) then rest + [last] else rest
  }

  function Comparisons(duplicate: Duplicate, group: seq<Anchor>): nat {
    if group == [] then 0
    else Comparisons(duplicate, group[..|group| - 1]) + |Kept(duplicate, group[..|group| - 1])|
  }

  function Characters(anchors: seq<Anchor>): nat {
    if anchors == [] then 0 else Characters(anchors[..|anchors| - 1]) + |anchors[|anchors| - 1].exactQuote|
  }

  // ---------- The whole plan, revision by revision

  function Documents(duplicate: Duplicate, anchors: seq<Anchor>, revisions: seq<nat>): seq<ContextDocument> {
    if revisions == [] then []
    else
      var last := revisions[|revisions| - 1];
      Documents(duplicate, anchors, revisions[..|revisions| - 1])
          + [ContextDocument(last, Kept(duplicate, Group(anchors, last)))]
  }

  function AllDropped(duplicate: Duplicate, anchors: seq<Anchor>, revisions: seq<nat>): seq<Anchor> {
    if revisions == [] then []
    else
      var last := revisions[|revisions| - 1];
      AllDropped(duplicate, anchors, revisions[..|revisions| - 1]) + Dropped(duplicate, Group(anchors, last))
  }

  function AllComparisons(duplicate: Duplicate, anchors: seq<Anchor>, revisions: seq<nat>): nat {
    if revisions == [] then 0
    else
      var last := revisions[|revisions| - 1];
      AllComparisons(duplicate, anchors, revisions[..|revisions| - 1]) + Comparisons(duplicate, Group(anchors, last))
  }

  function AllCharacters(duplicate: Duplicate, anchors: seq<Anchor>, revisions: seq<nat>): nat {
    if revisions == [] then 0
    else
      var last := revisions[|revisions| - 1];
      AllCharacters(duplicate, anchors, revisions[..|revisions| - 1])
          + Characters(Kept(duplicate, Group(anchors, last)))
  }

  function Ids(anchors: seq<Anchor>): seq<nat> {
    seq(|anchors|, k requires 0 <= k < |anchors| => anchors[k].id)
  }

  function EstimatedTokens(characters: nat): nat {
    var rounded := (characters + 3) / 4;
    if rounded < 1 then 1 else rounded
  }

  function PlanOf(duplicate: Duplicate, anchors: seq<Anchor>): Plan {
    var revisions := SortedRevisions(anchors);
    Plan(Documents(duplicate, anchors, revisions), Ids(AllDropped(duplicate, anchors, revisions)),
         EstimatedTokens(AllCharacters(duplicate, anchors, revisions)))
  }

  ghost predicate GroupsBounded(anchors: seq<Anchor>, revisions: seq<nat>) {
    forall r :: r in revisions ==> GroupBounded(anchors, r)
  }

  ghost predicate GroupBounded(anchors: seq<Anchor>, revisionId: nat) {
    |Group(anchors, revisionId)| <= 2_000
  }

  // Everything a plan must stay within.
  ghost predicate WithinBudgets(duplicate: Duplicate, anchors: seq<Anchor>, maxEstimatedTokens: int) {
    var revisions := SortedRevisions(anchors);
    && anchors != [] && maxEstimatedTokens >= 1_000
    && GroupsBounded(anchors, revisions)
    && AllComparisons(duplicate, anchors, revisions) <= 200_000
    && AllCharacters(duplicate, anchors, revisions) <= maxEstimatedTokens * 4
    && |revisions| <= 32
  }

  lemma BoundedOneMore(anchors: seq<Anchor>, revisions: seq<nat>, i: nat)
    requires i < |revisions| && GroupsBounded(anchors, revisions[..i]) && GroupBounded(anchors, revisions[i])
    ensures GroupsBounded(anchors, revisions[..i + 1])
  {
    assert revisions[..i + 1] == revisions[..i] + [revisions[i]];
  }

  // ---------- Why planning fails

  // What was compared, and kept, before anchor k of revision i.
  ghost function ComparedBefore(duplicate: Duplicate, anchors: seq<Anchor>, i: nat, k: nat): nat
    requires i < |SortedRevisions(anchors)| && k <= |Group(anchors, SortedRevisions(anchors)[i])|
  {
    var revisions := SortedRevisions(anchors);
    AllComparisons(duplicate, anchors, revisions[..i]) + Comparisons(duplicate, Group(anchors, revisions[i])[..k])
  }

  ghost function CharactersBefore(duplicate: Duplicate, anchors: seq<Anchor>, i: nat, k: nat): nat
    requires i < |SortedRevisions(anchors)| && k <= |Group(anchors, SortedRevisions(anchors)[i])|
  {
    var revisions := SortedRevisions(anchors);
    AllCharacters(duplicate, anchors, revisions[..i]) + Characters(Kept(duplicate, Group(anchors, revisions[i])[..k]))
  }

  // Nothing is exceeded before revision i.
  ghost predicate Reaches(duplicate: Duplicate, anchors: seq<Anchor>, budget: int, i: nat) {
    var revisions := SortedRevisions(anchors);
    && anchors != [] && budget >= 4 * 1_000 && i <= |revisions| && GroupsBounded(anchors, revisions[..i])
    && AllComparisons(duplicate, anchors, revisions[..i]) <= 200_000
    && AllCharacters(duplicate, anchors, revisions[..i]) <= budget
  }

  // Nor before anchor k of revision i.
  ghost predicate ReachesAnchor(duplicate: Duplicate, anchors: seq<Anchor>, budget: int, i: nat, k: nat) {
    var revisions := SortedRevisions(anchors);
    && Reaches(duplicate, anchors, budget, i) && i < |revisions| && |Group(anchors, revisions[i])| <= 2_000
    && k < |Group(anchors, revisions[i])|
    && ComparedBefore(duplicate, anchors, i, k) <= 200_000 && CharactersBefore(duplicate, anchors, i, k) <= budget
  }

  // The first thing exceeded, at anchor k of revision i.
  ghost predicate FailsAt(error: PlanError, duplicate: Duplicate, anchors: seq<Anchor>, budget: int, i: nat, k: nat) {
    && ReachesAnchor(duplicate, anchors, budget, i, k)
    && var group := Group(anchors, SortedRevisions(anchors)[i]);
       Breaks(error, duplicate, group, k, budget, CharactersBefore(duplicate, anchors, i, k),
              ComparedBefore(duplicate, anchors, i, k))
  }

  // What anchor k exceeds first, if anything: the comparisons with all kept ones
  // come before its own length, that before the total.
  ghost predicate Breaks(error: PlanError, duplicate: Duplicate, group: seq<Anchor>, k: nat, budget: int,
                         characters: nat, comparisons: nat)
    requires k < |group|
  {
    var kept, length := Kept(duplicate, group[..k]), |group[k].exactQuote|;
    if comparisons + |kept| > 200_000 then error == ComparisonBudgetExceeded
    else
      && !DuplicatesOne(duplicate, group[k], kept) && characters + length > budget
      && error == if length > budget then AnchorTooLarge else ContextBudgetExceeded
  }

  // A revision that is too large.
  ghost predicate LargeAt(duplicate: Duplicate, anchors: seq<Anchor>, budget: int, i: nat) {
    && i < |SortedRevisions(anchors)| && Reaches(duplicate, anchors, budget, i)
    && |Group(anchors, SortedRevisions(anchors)[i])| > 2_000
  }

  // Why planning fails, exactly.
  ghost predicate Explains(error: PlanError, duplicate: Duplicate, anchors: seq<Anchor>, maxEstimatedTokens: int) {
    var revisions, budget := SortedRevisions(anchors), maxEstimatedTokens * 4;
    match error
    case NoAnchors => anchors == []
    case TokenBudgetTooSmall => anchors != [] && maxEstimatedTokens < 1_000
    case AnchorBudgetExceeded => exists i: nat :: LargeAt(duplicate, anchors, budget, i)
    case CallBudgetExceeded => Reaches(duplicate, anchors, budget, |revisions|) && |revisions| > 32
    case _ => exists i: nat, k: nat :: FailsAt(error, duplicate, anchors, budget, i, k)
  }

  lemma {:induction false} KeptGrows(duplicate: Duplicate, group: seq<Anchor>, k: nat)
    requires k <= |group|
    ensures Characters(Kept(duplicate, group[..k])) <= Characters(Kept(duplicate, group))
    ensures Comparisons(duplicate, group[..k]) <= Comparisons(duplicate, group)
  {
    if k < |group| {
      var init := group[..|group| - 1];
      KeptGrows(duplicate, init, k);
      assert group[..k] == init[..k];
      var rest := Kept(duplicate, init);
      assert (rest + [group[|group| - 1]])[..|rest|] == rest;
    } else {
      assert group[..k] == group;
    }
  }

  lemma {:induction false} TotalsGrow(duplicate: Duplicate, anchors: seq<Anchor>, revisions: seq<nat>, i: nat)
    requires i <= |revisions|
    ensures AllCharacters(duplicate, anchors, revisions[..i]) <= AllCharacters(duplicate, anchors, revisions)
    ensures AllComparisons(duplicate, anchors, revisions[..i]) <= AllComparisons(duplicate, anchors, revisions)
  {
    if i < |revisions| {
      var init := revisions[..|revisions| - 1];
      TotalsGrow(duplicate, anchors, init, i);
      assert revisions[..i] == init[..i];
    } else {
      assert revisions[..i] == revisions;
    }
  }

  // What has been counted up to anchor k of revision i is part of the totals.
  lemma PartialTotals(duplicate: Duplicate, anchors: seq<Anchor>, revisions: seq<nat>, i: nat, k: nat)
    requires i < |revisions| && k <= |Group(anchors, revisions[i])|
    ensures var group := Group(anchors, revisions[i]);
            && AllCharacters(duplicate, anchors, revisions[..i]) + Characters(Kept(duplicate, group[..k]))
                 <= AllCharacters(duplicate, anchors, revisions)
            && AllComparisons(duplicate, anchors, revisions[..i]) + Comparisons(duplicate, group[..k])
                 <= AllComparisons(duplicate, anchors, revisions)
  {
    KeptGrows(duplicate, Group(anchors, revisions[i]), k);
    TotalsGrow(duplicate, anchors, revisions, i + 1);
    assert revisions[..i + 1][..i] == revisions[..i];
  }

  // ---------- The loops

  datatype GroupOutcome = GroupPlan(selected: seq<Anchor>, dropped: seq<Anchor>, characters: nat, comparisons: nat)

  ghost predicate GroupExplains(error: PlanError, duplicate: Duplicate, group: seq<Anchor>, budget: int,
                                characters: nat, comparisons: nat, k: nat) {
    && k < |group|
    && var compared, counted := Comparisons(duplicate, group[..k]), Characters(Kept(duplicate, group[..k]));
       && comparisons + compared <= 200_000 && characters + counted <= budget
       && Breaks(error, duplicate, group, k, budget, characters + counted, comparisons + compared)
  }

  // The anchors of one revision, with the totals of the revisions before it.
  method PlanGroup(duplicate: Duplicate, group: seq<Anchor>, budget: int, charactersBefore: nat, comparisonsBefore: nat)
      returns (r: Result<GroupOutcome, PlanError>)
    requires charactersBefore <= budget && comparisonsBefore <= MAX_DEDUP_COMPARISONS
    ensures r.Ok? ==> r.value.selected == Kept(duplicate, group) && r.value.dropped == Dropped(duplicate, group)
    ensures r.Ok? ==> r.value.characters == charactersBefore + Characters(r.value.selected) <= budget
    ensures r.Ok? ==> r.value.comparisons == comparisonsBefore + Comparisons(duplicate, group) <= MAX_DEDUP_COMPARISONS
    ensures r.Err? ==> exists k: nat ::
              GroupExplains(r.error, duplicate, group, budget, charactersBefore, comparisonsBefore, k)
  {
    var selected: seq<Anchor>, dropped: seq<Anchor> := [], [];
    var selectedCharacters: int := 0;
    var seenForRevision: seq<Anchor> := [];
    var characters, comparisons := charactersBefore, comparisonsBefore;
    var k := 0;
    while k < |group|
      invariant 0 <= k <= |group|
      invariant selected == seenForRevision == Kept(duplicate, group[..k])
      invariant dropped == Dropped(duplicate, group[..k])
      invariant selectedCharacters == Characters(selected)
      invariant characters == charactersBefore + selectedCharacters <= budget
      invariant comparisons == comparisonsBefore + Comparisons(duplicate, group[..k]) <= MAX_DEDUP_COMPARISONS
    {
      var anchor := group[k];
      assert group[..k + 1][..k] == group[..k];
      comparisons := comparisons + |seenForRevision|;
      if comparisons > MAX_DEDUP_COMPARISONS {
        assert GroupExplains(ComparisonBudgetExceeded, duplicate, group, budget, charactersBefore, comparisonsBefore,
                             k);
        return Err(ComparisonBudgetExceeded);
      }
      if DuplicatesOne(duplicate, anchor, seenForRevision) {
        dropped := dropped + [anchor];
      } else {
        var required := |anchor.exactQuote|;
        assert (selected + [anchor])[..|selected|] == selected;
        if required > budget {
          assert GroupExplains(AnchorTooLarge, duplicate, group, budget, charactersBefore, comparisonsBefore, k);
          return Err(AnchorTooLarge);
        }
        if characters + required > budget {
          assert GroupExplains(ContextBudgetExceeded, duplicate, group, budget, charactersBefore, comparisonsBefore,
                               k);
          return Err(ContextBudgetExceeded);
        }
        if selected != [] && selectedCharacters + required > budget {
          // The document would be split here: the running total forbids it.
          assert false;
        }
        selected := selected + [anchor];
        seenForRevision := seenForRevision + [anchor];
        selectedCharacters := selectedCharacters + required;
        characters := characters + required;
      }
      k := k + 1;
    }
    assert group[..k] == group;
    return Ok(GroupPlan(selected, dropped, characters, comparisons));
  }

  // The loop stands before revision i.
  ghost predicate PlannedBefore(duplicate: Duplicate, anchors: seq<Anchor>, i: nat, documents: seq<ContextDocument>,
                                dropped: seq<Anchor>, characters: int, comparisons: int) {
    var revisions := SortedRevisions(anchors);
    && i <= |revisions| && GroupsBounded(anchors, revisions[..i])
    && documents == Documents(duplicate, anchors, revisions[..i])
    && dropped == AllDropped(duplicate, anchors, revisions[..i])
    && characters == AllCharacters(duplicate, anchors, revisions[..i])
    && comparisons == AllComparisons(duplicate, anchors, revisions[..i])
  }

  lemma PlanNext(duplicate: Duplicate, anchors: seq<Anchor>, i: nat, documents: seq<ContextDocument>,
                 dropped: seq<Anchor>, characters: int, comparisons: int)
    requires i < |SortedRevisions(anchors)|
    requires PlannedBefore(duplicate, anchors, i, documents, dropped, characters, comparisons)
    requires GroupBounded(anchors, SortedRevisions(anchors)[i])
    ensures var revisionId := SortedRevisions(anchors)[i];
            var group := Group(anchors, revisionId);
            var kept := Kept(duplicate, group);
            && kept != []
            && PlannedBefore(duplicate, anchors, i + 1, documents + [ContextDocument(revisionId, kept)],
                             dropped + Dropped(duplicate, group), characters + Characters(kept),
                             comparisons + Comparisons(duplicate, group))
  {
    var revisions := SortedRevisions(anchors);
    assert revisions[..i + 1][..i] == revisions[..i];
    BoundedOneMore(anchors, revisions, i);
    RevisionIsKept(duplicate, anchors, revisions[i]);
  }

  lemma PlanIsDone(duplicate: Duplicate, anchors: seq<Anchor>, maxEstimatedTokens: int, documents: seq<ContextDocument>,
                   dropped: seq<Anchor>, characters: nat, comparisons: int)
    requires PlannedBefore(duplicate, anchors, |SortedRevisions(anchors)|, documents, dropped, characters, comparisons)
    requires anchors != [] && maxEstimatedTokens >= MIN_ESTIMATED_TOKENS
    requires characters <= maxEstimatedTokens * 4 && comparisons <= MAX_DEDUP_COMPARISONS
    ensures |documents| == |SortedRevisions(anchors)|
    ensures WithinBudgets(duplicate, anchors, maxEstimatedTokens) <==> |documents| <= MAX_DOCUMENT_STAGE_CALLS
    ensures PlanOf(duplicate, anchors) == Plan(documents, Ids(dropped), EstimatedTokens(characters))
  {
    var revisions := SortedRevisions(anchors);
    assert revisions[..|revisions|] == revisions;
    OneDocumentPerRevision(duplicate, anchors, revisions);
  }

  // One round of the loop over the revisions: its group, bounded and planned.
  method PlanRevision(duplicate: Duplicate, anchors: seq<Anchor>, maxEstimatedTokens: int, i: nat,
                      ghost documents: seq<ContextDocument>, ghost dropped: seq<Anchor>, characters: nat,
                      comparisons: nat) returns (r: Result<GroupOutcome, PlanError>)
    requires i < |SortedRevisions(anchors)|
    requires PlannedBefore(duplicate, anchors, i, documents, dropped, characters, comparisons)
    requires anchors != [] && maxEstimatedTokens >= 1_000
    requires characters <= maxEstimatedTokens * 4 && comparisons <= MAX_DEDUP_COMPARISONS
    ensures r.Err? ==> Explains(r.error, duplicate, anchors, maxEstimatedTokens)
                       && !WithinBudgets(duplicate, anchors, maxEstimatedTokens)
    ensures r.Ok? ==> 0 <= r.value.characters <= maxEstimatedTokens * 4
                      && 0 <= r.value.comparisons <= MAX_DEDUP_COMPARISONS && r.value.selected != []
    ensures r.Ok? ==>
              PlannedBefore(duplicate, anchors, i + 1,
                            documents + [ContextDocument(SortedRevisions(anchors)[i], r.value.selected)],
                            dropped + r.value.dropped, r.value.characters, r.value.comparisons)
  {
    var group := Group(anchors, SortedRevisions(anchors)[i]);
    if |group| > MAX_ANCHORS_PER_REVISION {
      assert LargeAt(duplicate, anchors, maxEstimatedTokens * 4, i);
      FailureIsOverBudget(AnchorBudgetExceeded, duplicate, anchors, maxEstimatedTokens);
      return Err(AnchorBudgetExceeded);
    }
    r := PlanGroup(duplicate, group, maxEstimatedTokens * 4, characters, comparisons);
    if r.Err? {
      ghost var k: nat :| GroupExplains(r.error, duplicate, group, maxEstimatedTokens * 4, characters, comparisons, k);
      assert FailsAt(r.error, duplicate, anchors, maxEstimatedTokens * 4, i, k);
      FailureIsOverBudget(r.error, duplicate, anchors, maxEstimatedTokens);
    } else {
      PlanNext(duplicate, anchors, i, documents, dropped, characters, comparisons);
    }
  }

  method PlanGenerationContext(duplicate: Duplicate, anchors: seq<Anchor>, maxEstimatedTokens: int)
      returns (r: Result<Plan, PlanError>)
    ensures r.Ok? <==> WithinBudgets(duplicate, anchors, maxEstimatedTokens)
    ensures r.Ok? ==> r.value == PlanOf(duplicate, anchors) && r.value.estimatedInputTokens <= maxEstimatedTokens
                      && IsEstimate(r.value.estimatedInputTokens, |Text(PlanAnchors(r.value.documents))|)
    ensures r.Err? ==> Explains(r.error, duplicate, anchors, maxEstimatedTokens)
  {
    if anchors == [] {
      return Err(NoAnchors);
    }
    if maxEstimatedTokens < MIN_ESTIMATED_TOKENS {
      return Err(TokenBudgetTooSmall);
    }
    var revisions := SortedRevisions(anchors);
    var documents: seq<ContextDocument> := [];
    var dropped: seq<Anchor> := [];
    var characters, comparisons := 0, 0;
    var i := 0;
    while i < |revisions|
      invariant 0 <= i <= |revisions|
      invariant PlannedBefore(duplicate, anchors, i, documents, dropped, characters, comparisons)
      invariant 0 <= characters <= maxEstimatedTokens * 4 && 0 <= comparisons <= MAX_DEDUP_COMPARISONS
    {
      var planned := PlanRevision(duplicate, anchors, maxEstimatedTokens, i, documents, dropped, characters,
                                  comparisons);
      if planned.Err? {
        return Err(planned.error);
      }
      if planned.value.selected != [] {
        documents := documents + [ContextDocument(revisions[i], planned.value.selected)];
      }
      dropped := dropped + planned.value.dropped;
      characters, comparisons := planned.value.characters, planned.value.comparisons;
      i := i + 1;
    }
    PlanIsDone(duplicate, anchors, maxEstimatedTokens, documents, dropped, characters, comparisons);
    if |documents| > MAX_DOCUMENT_STAGE_CALLS {
      return Err(CallBudgetExceeded);
    }
    CharactersAreText(duplicate, anchors, revisions);
    return Ok(Plan(documents, Ids(dropped), EstimatedTokens(characters)));
  }

  // A token for every four characters, rounded up, and at least one.
  ghost predicate IsEstimate(tokens: nat, characters: nat) {
    characters <= 4 * tokens && (if characters == 0 then tokens == 1 else 4 * (tokens - 1) < characters)
  }

  // ---------- What is counted

  ghost function Text(anchors: seq<Anchor>): string {
    if anchors == [] then "" else Text(anchors[..|anchors| - 1]) + anchors[|anchors| - 1].exactQuote
  }

  lemma {:induction false} TextConcat(first: seq<Anchor>, second: seq<Anchor>)
    ensures Text(first + second) == Text(first) + Text(second)
  {
    if second == [] {
      assert first + second == first;
    } else {
      var init, last := second[..|second| - 1], second[|second| - 1].exactQuote;
      TextConcat(first, init);
      assert (first + second)[..|first + second| - 1] == first + init;
      assert (Text(first) + Text(init)) + last == Text(first) + (Text(init) + last);
    }
  }

  lemma {:induction false} CharactersOfText(anchors: seq<Anchor>)
    ensures Characters(anchors) == |Text(anchors)|
  {
    if anchors != [] {
      CharactersOfText(anchors[..|anchors| - 1]);
    }
  }

  // The characters counted are those of all quotes of the plan.
  lemma {:induction false} CharactersAreText(duplicate: Duplicate, anchors: seq<Anchor>, revisions: seq<nat>)
    ensures AllCharacters(duplicate, anchors, revisions) ==
              |Text(PlanAnchors(Documents(duplicate, anchors, revisions)))|
  {
    if revisions != [] {
      var init, kept := revisions[..|revisions| - 1], Kept(duplicate, Group(anchors, revisions[|revisions| - 1]));
      CharactersAreText(duplicate, anchors, init);
      CharactersOfText(kept);
      PlanAnchorsOneMore(Documents(duplicate, anchors, init), ContextDocument(revisions[|revisions| - 1], kept));
      TextConcat(PlanAnchors(Documents(duplicate, anchors, init)), kept);
    }
  }

  // The places (k, j): anchor k is compared with the j-th kept before it.
  ghost function Pairs(duplicate: Duplicate, group: seq<Anchor>, n: nat): set<(nat, nat)>
    requires n <= |group|
  {
    set k: nat, j: nat | k < n && j < |Kept(duplicate, group[..k])| :: (k, j)
  }

  ghost function PairsOf(k: nat, width: nat): set<(nat, nat)> {
    set j: nat | j < width :: (k, j)
  }

  lemma {:induction false} PairsOfOne(k: nat, width: nat)
    ensures |PairsOf(k, width)| == width
  {
    if width > 0 {
      PairsOfOne(k, width - 1);
      assert PairsOf(k, width) == PairsOf(k, width - 1) + {(k, width - 1)};
    } else {
      assert PairsOf(k, width) == {};
    }
  }

  lemma PairsOneMore(duplicate: Duplicate, group: seq<Anchor>, n: nat)
    requires n < |group|
    ensures Pairs(duplicate, group, n + 1) ==
              Pairs(duplicate, group, n) + PairsOf(n, |Kept(duplicate, group[..n])|)
    ensures Pairs(duplicate, group, n) !! PairsOf(n, |Kept(duplicate, group[..n])|)
  {
  }

  // Comparisons are counted once for every anchor and every one kept before it.
  lemma {:induction false} ComparisonsArePairs(duplicate: Duplicate, group: seq<Anchor>, n: nat)
    requires n <= |group|
    ensures Comparisons(duplicate, group[..n]) == |Pairs(duplicate, group, n)|
  {
    if n == 0 {
      assert Pairs(duplicate, group, n) == {};
    } else {
      ComparisonsArePairs(duplicate, group, n - 1);
      PairsOfOne(n - 1, |Kept(duplicate, group[..n - 1])|);
      assert group[..n][..n - 1] == group[..n - 1];
      PairsOneMore(duplicate, group, n - 1);
    }
  }

  lemma {:induction false} GroupMembers(anchors: seq<Anchor>, revisionId: nat)
    ensures forall a :: a in Group(anchors, revisionId) <==> a in anchors && a.revisionId == revisionId
  {
    if anchors != [] {
      GroupMembers(anchors[..|anchors| - 1], revisionId);
      assert anchors == anchors[..|anchors| - 1] + [anchors[|anchors| - 1]];
    }
  }

  lemma {:induction false} FirstIsKept(duplicate: Duplicate, group: seq<Anchor>)
    requires group != []
    ensures Kept(duplicate, group) != []
  {
    if |group| > 1 {
      FirstIsKept(duplicate, group[..|group| - 1]);
    }
  }

  // A revision that occurs keeps at least its first anchor.
  lemma RevisionIsKept(duplicate: Duplicate, anchors: seq<Anchor>, revisionId: nat)
    requires revisionId in SortedRevisions(anchors)
    ensures Kept(duplicate, Group(anchors, revisionId)) != []
  {
    SortedRevisionsExact(anchors);
    var a :| a in anchors && a.revisionId == revisionId;
    GroupMembers(anchors, revisionId);
    assert a in Group(anchors, revisionId);
    FirstIsKept(duplicate, Group(anchors, revisionId));
  }

  // The documents are those of the revisions, one each, in order.
  lemma {:induction false} OneDocumentPerRevision(duplicate: Duplicate, anchors: seq<Anchor>, revisions: seq<nat>)
    ensures var documents := Documents(duplicate, anchors, revisions);
            && |documents| == |revisions|
            && forall k :: 0 <= k < |documents| ==>
                 documents[k] == ContextDocument(revisions[k], Kept(duplicate, Group(anchors, revisions[k])))
  {
    if revisions != [] {
      OneDocumentPerRevision(duplicate, anchors, revisions[..|revisions| - 1]);
    }
  }

  // ---------- One reason for every failure

  lemma EarlierIsCounted(duplicate: Duplicate, anchors: seq<Anchor>, i: nat, k: nat, j: nat)
    requires i < j <= |SortedRevisions(anchors)| && k <= |Group(anchors, SortedRevisions(anchors)[i])|
    ensures var init := SortedRevisions(anchors)[..j];
            && ComparedBefore(duplicate, anchors, i, k) <= AllComparisons(duplicate, anchors, init)
            && CharactersBefore(duplicate, anchors, i, k) <= AllCharacters(duplicate, anchors, init)
  {
    var revisions := SortedRevisions(anchors);
    PartialTotals(duplicate, anchors, revisions[..j], i, k);
    assert revisions[..j][..i] == revisions[..i];
  }

  lemma LaterInGroupCountsMore(duplicate: Duplicate, group: seq<Anchor>, k: nat, l: nat)
    requires k < l <= |group|
    ensures Comparisons(duplicate, group[..k + 1]) <= Comparisons(duplicate, group[..l])
    ensures Characters(Kept(duplicate, group[..k + 1])) <= Characters(Kept(duplicate, group[..l]))
  {
    KeptGrows(duplicate, group[..l], k + 1);
    assert group[..l][..k + 1] == group[..k + 1];
  }

  // What was counted before a later place holds all that was counted up to here.
  lemma LaterCountsMore(duplicate: Duplicate, anchors: seq<Anchor>, i: nat, k: nat, j: nat, l: nat)
    requires i <= j < |SortedRevisions(anchors)| && k < |Group(anchors, SortedRevisions(anchors)[i])|
    requires l <= |Group(anchors, SortedRevisions(anchors)[j])| && (i == j ==> k < l)
    ensures ComparedBefore(duplicate, anchors, i, k + 1) <= ComparedBefore(duplicate, anchors, j, l)
    ensures CharactersBefore(duplicate, anchors, i, k + 1) <= CharactersBefore(duplicate, anchors, j, l)
  {
    if i == j {
      LaterInGroupCountsMore(duplicate, Group(anchors, SortedRevisions(anchors)[i]), k, l);
    } else {
      EarlierIsCounted(duplicate, anchors, i, k + 1, j);
    }
  }

  // After the anchor that fails, some total is exceeded.
  lemma FailureExceeds(error: PlanError, duplicate: Duplicate, anchors: seq<Anchor>, budget: int, i: nat, k: nat)
    requires FailsAt(error, duplicate, anchors, budget, i, k)
    ensures || ComparedBefore(duplicate, anchors, i, k + 1) > 200_000
            || CharactersBefore(duplicate, anchors, i, k + 1) > budget
  {
    var group := Group(anchors, SortedRevisions(anchors)[i]);
    assert group[..k + 1][..k] == group[..k];
    var kept := Kept(duplicate, group[..k]);
    assert (kept + [group[k]])[..|kept|] == kept;
  }

  lemma FailureIsOverBudget(error: PlanError, duplicate: Duplicate, anchors: seq<Anchor>, maxEstimatedTokens: int)
    requires Explains(error, duplicate, anchors, maxEstimatedTokens)
    ensures !WithinBudgets(duplicate, anchors, maxEstimatedTokens)
  {
    var revisions, budget := SortedRevisions(anchors), maxEstimatedTokens * 4;
    assert forall i :: 0 <= i < |revisions| ==> revisions[i] in revisions;
    assert revisions[..|revisions|] == revisions;
    forall i: nat, k: nat | FailsAt(error, duplicate, anchors, budget, i, k)
      ensures !WithinBudgets(duplicate, anchors, maxEstimatedTokens)
    {
      FailureExceeds(error, duplicate, anchors, budget, i, k);
      PartialTotals(duplicate, anchors, revisions, i, k + 1);
    }
  }

  // Nothing later is reached from the anchor that fails.
  lemma FailureIsTheEnd(error: PlanError, duplicate: Duplicate, anchors: seq<Anchor>, budget: int, i: nat, k: nat,
                        j: nat)
    requires FailsAt(error, duplicate, anchors, budget, i, k) && Reaches(duplicate, anchors, budget, j)
    ensures j <= i
  {
    if i < j {
      FailureExceeds(error, duplicate, anchors, budget, i, k);
      EarlierIsCounted(duplicate, anchors, i, k + 1, j);
    }
  }

  lemma FailureIsAtOnePlace(first: PlanError, second: PlanError, duplicate: Duplicate, anchors: seq<Anchor>,
                            budget: int, i: nat, k: nat, j: nat, l: nat)
    requires FailsAt(first, duplicate, anchors, budget, i, k) && FailsAt(second, duplicate, anchors, budget, j, l)
    ensures i == j && k == l && first == second
  {
    FailureIsTheEnd(first, duplicate, anchors, budget, i, k, j);
    FailureIsTheEnd(second, duplicate, anchors, budget, j, l, i);
    if k < l {
      FailureExceeds(first, duplicate, anchors, budget, i, k);
      LaterCountsMore(duplicate, anchors, i, k, j, l);
    } else if l < k {
      FailureExceeds(second, duplicate, anchors, budget, j, l);
      LaterCountsMore(duplicate, anchors, j, l, i, k);
    }
  }

  lemma BoundedBefore(anchors: seq<Anchor>, revisions: seq<nat>, i: nat, j: nat)
    requires i < j <= |revisions| && GroupsBounded(anchors, revisions[..j])
    ensures GroupBounded(anchors, revisions[i])
  {
    assert revisions[..j][i] in revisions[..j];
  }

  lemma LargeIsTheEnd(duplicate: Duplicate, anchors: seq<Anchor>, budget: int, i: nat, j: nat)
    requires LargeAt(duplicate, anchors, budget, i) && Reaches(duplicate, anchors, budget, j)
    ensures j <= i
  {
    if i < j {
      BoundedBefore(anchors, SortedRevisions(anchors), i, j);
    }
  }

  // Whatever fails has one reason: the first thing exceeded.
  lemma OneReasonToFail(first: PlanError, second: PlanError, duplicate: Duplicate, anchors: seq<Anchor>,
                        maxEstimatedTokens: int)
    requires Explains(first, duplicate, anchors, maxEstimatedTokens)
    requires Explains(second, duplicate, anchors, maxEstimatedTokens)
    ensures first == second && !WithinBudgets(duplicate, anchors, maxEstimatedTokens)
  {
    FailureIsOverBudget(first, duplicate, anchors, maxEstimatedTokens);
    if AtAnAnchor(first) && AtAnAnchor(second) {
      var i: nat, k: nat :| FailsAt(first, duplicate, anchors, maxEstimatedTokens * 4, i, k);
      var j: nat, l: nat :| FailsAt(second, duplicate, anchors, maxEstimatedTokens * 4, j, l);
      FailureIsAtOnePlace(first, second, duplicate, anchors, maxEstimatedTokens * 4, i, k, j, l);
    } else if AtAnAnchor(first) {
      AnchorsFailAlone(first, second, duplicate, anchors, maxEstimatedTokens);
    } else if AtAnAnchor(second) {
      AnchorsFailAlone(second, first, duplicate, anchors, maxEstimatedTokens);
    } else {
      LargeFailsAlone(duplicate, anchors, maxEstimatedTokens);
    }
  }

  predicate AtAnAnchor(error: PlanError) {
    error == ComparisonBudgetExceeded || error == AnchorTooLarge || error == ContextBudgetExceeded
  }

  lemma AnchorsFailAlone(first: PlanError, second: PlanError, duplicate: Duplicate, anchors: seq<Anchor>,
                         maxEstimatedTokens: int)
    requires AtAnAnchor(first) && !AtAnAnchor(second) && Explains(first, duplicate, anchors, maxEstimatedTokens)
    ensures !Explains(second, duplicate, anchors, maxEstimatedTokens)
  {
    var budget := maxEstimatedTokens * 4;
    var i: nat, k: nat :| FailsAt(first, duplicate, anchors, budget, i, k);
    if Reaches(duplicate, anchors, budget, |SortedRevisions(anchors)|) {
      FailureIsTheEnd(first, duplicate, anchors, budget, i, k, |SortedRevisions(anchors)|);
    }
    forall j: nat | LargeAt(duplicate, anchors, budget, j)
      ensures false
    {
      FailureIsTheEnd(first, duplicate, anchors, budget, i, k, j);
      LargeIsTheEnd(duplicate, anchors, budget, j, i);
    }
  }

  lemma LargeFailsAlone(duplicate: Duplicate, anchors: seq<Anchor>, maxEstimatedTokens: int)
    ensures !(Explains(AnchorBudgetExceeded, duplicate, anchors, maxEstimatedTokens)
              && Explains(CallBudgetExceeded, duplicate, anchors, maxEstimatedTokens))
  {
    forall i: nat | LargeAt(duplicate, anchors, maxEstimatedTokens * 4, i)
      ensures !Explains(CallBudgetExceeded, duplicate, anchors, maxEstimatedTokens)
    {
      if Explains(CallBudgetExceeded, duplicate, anchors, maxEstimatedTokens) {
        LargeIsTheEnd(duplicate, anchors, maxEstimatedTokens * 4, i, |SortedRevisions(anchors)|);
      }
    }
  }

  // ---------- What a plan means

  // What has been kept stays the first part of what is kept.
  lemma {:induction false} KeptIsPrefix(duplicate: Duplicate, group: seq<Anchor>, k: nat)
    requires k <= |group|
    ensures Kept(duplicate, group[..k]) <= Kept(duplicate, group)
  {
    if k < |group| {
      KeptIsPrefix(duplicate, group[..|group| - 1], k);
      assert group[..|group| - 1][..k] == group[..k];
    } else {
      assert group[..k] == group;
    }
  }

  // Place by place: an anchor is kept after those before it, or it is dropped
  // and repeats one that was kept before it and stays kept.
  lemma DroppedHasWitness(duplicate: Duplicate, group: seq<Anchor>, k: nat)
    requires k < |group|
    ensures var kept, next := Kept(duplicate, group[..k]), Kept(duplicate, group[..k + 1]);
            var dropped, nextDropped := Dropped(duplicate, group[..k]), Dropped(duplicate, group[..k + 1]);
            || (next == kept + [group[k]] && nextDropped == dropped)
            || (next == kept && nextDropped == dropped + [group[k]]
                && exists e :: e in kept && e in Kept(duplicate, group) && duplicate(group[k].exactQuote, e.exactQuote))
  {
    assert group[..k + 1][..k] == group[..k];
    KeptIsPrefix(duplicate, group, k);
    forall e | e in Kept(duplicate, group[..k])
      ensures e in Kept(duplicate, group)
    {
      var i :| 0 <= i < |Kept(duplicate, group[..k])| && Kept(duplicate, group[..k])[i] == e;
      assert Kept(duplicate, group)[i] == e;
    }
  }

  ghost predicate NoRepeats(duplicate: Duplicate, kept: seq<Anchor>) {
    forall i, j :: 0 <= i < j < |kept| ==> !duplicate(kept[j].exactQuote, kept[i].exactQuote)
  }

  lemma {:induction false} KeptDoNotRepeat(duplicate: Duplicate, group: seq<Anchor>)
    ensures NoRepeats(duplicate, Kept(duplicate, group))
  {
    if group != [] {
      var last, rest := group[|group| - 1], Kept(duplicate, group[..|group| - 1]);
      KeptDoNotRepeat(duplicate, group[..|group| - 1]);
      if !DuplicatesOne(duplicate, last, rest) {
        OneMoreDoesNotRepeat(duplicate, rest, last);
      }
    }
  }

  lemma OneMoreDoesNotRepeat(duplicate: Duplicate, kept: seq<Anchor>, last: Anchor)
    requires NoRepeats(duplicate, kept) && !DuplicatesOne(duplicate, last, kept)
    ensures NoRepeats(duplicate, kept + [last])
  {
    var more := kept + [last];
    forall i, j | 0 <= i < j < |more|
      ensures !duplicate(more[j].exactQuote, more[i].exactQuote)
    {
      assert kept[i] in kept;
      if j < |kept| {
        assert more[j] == kept[j];
      } else {
        assert more[j] == last && !duplicate(last.exactQuote, kept[i].exactQuote);
      }
    }
  }

  // A list without repetitions is kept whole, at no more comparisons.
  lemma {:induction false} KeptIsStable(duplicate: Duplicate, group: seq<Anchor>)
    ensures var kept := Kept(duplicate, group);
            && Kept(duplicate, kept) == kept && Dropped(duplicate, kept) == []
            && Comparisons(duplicate, kept) <= Comparisons(duplicate, group)
            && |kept| <= |group|
  {
    if group != [] {
      var last, rest := group[|group| - 1], Kept(duplicate, group[..|group| - 1]);
      KeptIsStable(duplicate, group[..|group| - 1]);
      if !DuplicatesOne(duplicate, last, rest) {
        assert (rest + [last])[..|rest|] == rest;
      }
    }
  }

  // ---------- Conservation

  lemma {:induction false} KeptAndDropped(duplicate: Duplicate, group: seq<Anchor>)
    ensures multiset(Kept(duplicate, group)) + multiset(Dropped(duplicate, group)) == multiset(group)
  {
    if group != [] {
      KeptAndDropped(duplicate, group[..|group| - 1]);
      assert group == group[..|group| - 1] + [group[|group| - 1]];
    }
  }

  lemma {:induction false} GroupCount(anchors: seq<Anchor>, revisionId: nat, a: Anchor)
    ensures multiset(Group(anchors, revisionId))[a] == if a.revisionId == revisionId then multiset(anchors)[a] else 0
  {
    if anchors != [] {
      GroupCount(anchors[..|anchors| - 1], revisionId, a);
      assert anchors == anchors[..|anchors| - 1] + [anchors[|anchors| - 1]];
    }
  }

  lemma GroupPlannedCount(duplicate: Duplicate, anchors: seq<Anchor>, revisionId: nat, a: Anchor)
    ensures multiset(Kept(duplicate, Group(anchors, revisionId)))[a]
        + multiset(Dropped(duplicate, Group(anchors, revisionId)))[a]
         == if a.revisionId == revisionId then multiset(anchors)[a] else 0
  {
    KeptAndDropped(duplicate, Group(anchors, revisionId));
    GroupCount(anchors, revisionId, a);
    assert (multiset(Kept(duplicate, Group(anchors, revisionId)))
            + multiset(Dropped(duplicate, Group(anchors, revisionId))))[a]
        == multiset(Group(anchors, revisionId))[a];
  }

  lemma PlanOneMore(duplicate: Duplicate, anchors: seq<Anchor>, init: seq<nat>, last: nat)
    ensures PlanAnchors(Documents(duplicate, anchors, init + [last]))
         == PlanAnchors(Documents(duplicate, anchors, init)) + Kept(duplicate, Group(anchors, last))
    ensures AllDropped(duplicate, anchors, init + [last])
         == AllDropped(duplicate, anchors, init) + Dropped(duplicate, Group(anchors, last))
  {
    assert (init + [last])[..|init|] == init;
    var documents := Documents(duplicate, anchors, init);
    var more := documents + [ContextDocument(last, Kept(duplicate, Group(anchors, last)))];
    assert more[..|documents|] == documents;
  }

  lemma {:induction false} PlannedCount(duplicate: Duplicate, anchors: seq<Anchor>, revisions: seq<nat>, a: Anchor)
    requires Ascending(revisions)
    ensures multiset(PlanAnchors(Documents(duplicate, anchors, revisions)))[a]
        + multiset(AllDropped(duplicate, anchors, revisions))[a]
         == if a.revisionId in revisions then multiset(anchors)[a] else 0
  {
    if revisions != [] {
      var init, last := revisions[..|revisions| - 1], revisions[|revisions| - 1];
      PlannedCount(duplicate, anchors, init, a);
      GroupPlannedCount(duplicate, anchors, last, a);
      PlanOneMore(duplicate, anchors, init, last);
      assert revisions == init + [last];
    }
  }

  // Kept anchors and dropped duplicates make up the input, with multiplicity.
  lemma PlanPartitionsInput(duplicate: Duplicate, anchors: seq<Anchor>)
    ensures multiset(PlanAnchors(PlanOf(duplicate, anchors).documents))
            + multiset(AllDropped(duplicate, anchors, SortedRevisions(anchors))) == multiset(anchors)
  {
    var kept := multiset(PlanAnchors(PlanOf(duplicate, anchors).documents));
    var dropped := multiset(AllDropped(duplicate, anchors, SortedRevisions(anchors)));
    SortedRevisionsExact(anchors);
    forall a: Anchor
      ensures (kept + dropped)[a] == multiset(anchors)[a]
    {
      PlannedCount(duplicate, anchors, SortedRevisions(anchors), a);
      if a in multiset(anchors) {
        assert a in anchors;
      }
    }
  }

  // ---------- Planning again

  lemma {:induction false} GroupConcat(first: seq<Anchor>, second: seq<Anchor>, revisionId: nat)
    ensures Group(first + second, revisionId) == Group(first, revisionId) + Group(second, revisionId)
  {
    if second == [] {
      assert first + second == first;
    } else {
      var rest := second[..|second| - 1];
      assert (first + second)[..|first + second| - 1] == first + rest;
      GroupConcat(first, rest, revisionId);
    }
  }

  lemma {:induction false} GroupOfOne(anchors: seq<Anchor>, owner: nat, revisionId: nat)
    requires forall a :: a in anchors ==> a.revisionId == owner
    ensures Group(anchors, revisionId) == if owner == revisionId then anchors else []
  {
    if anchors != [] {
      assert anchors == anchors[..|anchors| - 1] + [anchors[|anchors| - 1]];
      GroupOfOne(anchors[..|anchors| - 1], owner, revisionId);
    }
  }

  lemma {:induction false} KeptMembers(duplicate: Duplicate, group: seq<Anchor>)
    ensures forall a :: a in Kept(duplicate, group) ==> a in group
  {
    if group != [] {
      KeptMembers(duplicate, group[..|group| - 1]);
      assert group == group[..|group| - 1] + [group[|group| - 1]];
    }
  }

  lemma PlanAnchorsOneMore(documents: seq<ContextDocument>, document: ContextDocument)
    ensures PlanAnchors(documents + [document]) == PlanAnchors(documents) + document.anchors
  {
    assert (documents + [document])[..|documents|] == documents;
  }

  lemma KeptBelongs(duplicate: Duplicate, anchors: seq<Anchor>, owner: nat, revisionId: nat)
    ensures var kept := Kept(duplicate, Group(anchors, owner));
            Group(kept, revisionId) == if owner == revisionId then kept else []
  {
    KeptMembers(duplicate, Group(anchors, owner));
    GroupMembers(anchors, owner);
    GroupOfOne(Kept(duplicate, Group(anchors, owner)), owner, revisionId);
  }

  // The kept anchors of a plan fall back into the documents they came from.
  lemma {:induction false} GroupOfKept(duplicate: Duplicate, anchors: seq<Anchor>, revisions: seq<nat>, revisionId: nat)
    requires Ascending(revisions)
    ensures Group(PlanAnchors(Documents(duplicate, anchors, revisions)), revisionId)
         == if revisionId in revisions then Kept(duplicate, Group(anchors, revisionId)) else []
  {
    if revisions != [] {
      var init, last := revisions[..|revisions| - 1], revisions[|revisions| - 1];
      var documents, kept := Documents(duplicate, anchors, init), Kept(duplicate, Group(anchors, last));
      GroupOfKept(duplicate, anchors, init, revisionId);
      KeptBelongs(duplicate, anchors, last, revisionId);
      GroupConcat(PlanAnchors(documents), kept, revisionId);
      PlanAnchorsOneMore(documents, ContextDocument(last, kept));
      assert Documents(duplicate, anchors, revisions) == documents + [ContextDocument(last, kept)];
      assert last !in init;
      assert revisionId in revisions <==> revisionId in init || revisionId == last;
    }
  }

  lemma SameRevisions(duplicate: Duplicate, anchors: seq<Anchor>)
    ensures SortedRevisions(PlanAnchors(PlanOf(duplicate, anchors).documents)) == SortedRevisions(anchors)
  {
    var kept, revisions := PlanAnchors(PlanOf(duplicate, anchors).documents), SortedRevisions(anchors);
    SortedRevisionsExact(anchors);
    SortedRevisionsExact(kept);
    forall r
      ensures r in SortedRevisions(kept) <==> r in revisions
    {
      GroupOfKept(duplicate, anchors, revisions, r);
      GroupMembers(kept, r);
      if r in revisions {
        RevisionIsKept(duplicate, anchors, r);
        assert Group(kept, r)[0] in Group(kept, r);
      }
      if r in SortedRevisions(kept) {
        var a :| a in kept && a.revisionId == r;
        assert a in Group(kept, r);
      }
    }
    AscendingIsUnique(SortedRevisions(kept), revisions);
  }

  lemma {:induction false} ReplannedRevisions(duplicate: Duplicate, anchors: seq<Anchor>, kept: seq<Anchor>,
                                              revisions: seq<nat>)
    requires forall r :: r in revisions ==> Group(kept, r) == Kept(duplicate, Group(anchors, r))
    ensures Documents(duplicate, kept, revisions) == Documents(duplicate, anchors, revisions)
    ensures AllDropped(duplicate, kept, revisions) == []
    ensures AllComparisons(duplicate, kept, revisions) <= AllComparisons(duplicate, anchors, revisions)
    ensures AllCharacters(duplicate, kept, revisions) == AllCharacters(duplicate, anchors, revisions)
  {
    if revisions != [] {
      var init, last := revisions[..|revisions| - 1], revisions[|revisions| - 1];
      assert revisions == init + [last];
      ReplannedRevisions(duplicate, anchors, kept, init);
      KeptIsStable(duplicate, Group(anchors, last));
    }
  }

  // Planning the kept anchors again succeeds, with the same documents and no
  // duplicates.
  lemma ReplanningKeepsThePlan(duplicate: Duplicate, anchors: seq<Anchor>, maxEstimatedTokens: int)
    requires WithinBudgets(duplicate, anchors, maxEstimatedTokens)
    ensures var plan := PlanOf(duplicate, anchors);
            && WithinBudgets(duplicate, PlanAnchors(plan.documents), maxEstimatedTokens)
            && PlanOf(duplicate, PlanAnchors(plan.documents)) == Plan(plan.documents, [], plan.estimatedInputTokens)
  {
    var revisions := SortedRevisions(anchors);
    var kept := PlanAnchors(PlanOf(duplicate, anchors).documents);
    SameRevisions(duplicate, anchors);
    SortedRevisionsExact(anchors);
    forall r | r in revisions
      ensures Group(kept, r) == Kept(duplicate, Group(anchors, r)) && GroupBounded(kept, r)
    {
      GroupOfKept(duplicate, anchors, revisions, r);
      KeptIsStable(duplicate, Group(anchors, r));
      assert GroupBounded(anchors, r);
    }
    ReplannedRevisions(duplicate, anchors, kept, revisions);
    assert anchors[0] in anchors;
    assert anchors[0].revisionId in SortedRevisions(anchors);
    SortedRevisionsExact(kept);
    var a :| a in kept && a.revisionId == anchors[0].revisionId;
  }
}
