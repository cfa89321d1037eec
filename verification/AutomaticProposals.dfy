// Review proposals derived from the comparison of every pair of documents
// (automatic_report_suggestions.py). Texts and rationales are left out; the
// hashed key material of a proposal is (kind, anchor, paired anchor).
module AutomaticProposals {
  import opened Wrappers
  import opened DocumentComparison

  const MAX_PROPOSALS: nat := 100
  const MAX_DOCUMENT_PAIRS: nat := 100
  const DEFAULT_THRESHOLD: real := 0.72

  datatype Kind = Add | Edit | Remove

  datatype Proposal = Proposal(kind: Kind, anchor: Anchor, paired: Option<nat>)

  datatype Document = Document(revisionId: nat, anchors: seq<Anchor>)

  datatype RunnerError = PairLimitExceeded | ComparisonFailed

  // ---------- Every pair of documents

  ghost function ComparePair(kernel: Kernel, documents: seq<Document>, i: nat,
                             j: nat): Result<Comparison, ComparisonError>
    requires i < |documents| && j < |documents|
  {
    Compare(kernel, documents[i].revisionId, documents[j].revisionId,
            documents[i].anchors, documents[j].anchors, 0.72)
  }

  // The outcomes of the pairs (a, b), a < b, in lexicographic order, before (i, j).
  ghost function Outcomes(kernel: Kernel, documents: seq<Document>, i: nat,
                          j: nat): seq<Result<Comparison, ComparisonError>>
    requires i < j && (j <= |documents| || j == i + 1)
    decreases i, j
  {
    if j > i + 1 then Outcomes(kernel, documents, i, j - 1) + [ComparePair(kernel, documents, i, j - 1)]
    else if 0 < i <= |documents| then Outcomes(kernel, documents, i - 1, |documents|)
    else []
  }

  ghost predicate ComparedUpTo(kernel: Kernel, documents: seq<Document>, comparisons: seq<Comparison>, i: nat, j: nat)
    requires i < j && (j <= |documents| || j == i + 1)
  {
    var outcomes := Outcomes(kernel, documents, i, j);
    |comparisons| == |outcomes| && forall k :: 0 <= k < |comparisons| ==> outcomes[k] == Ok(comparisons[k])
  }

  ghost predicate ComparedAll(kernel: Kernel, documents: seq<Document>, comparisons: seq<Comparison>) {
    ComparedUpTo(kernel, documents, comparisons, |documents|, |documents| + 1)
  }

  lemma {:induction false} OutcomesCover(kernel: Kernel, documents: seq<Document>, i: nat, j: nat, a: nat, b: nat)
    requires i < j && (j <= |documents| || j == i + 1) && i <= |documents|
    requires a < b < |documents| && (a < i || (a == i && b < j))
    ensures ComparePair(kernel, documents, a, b) in Outcomes(kernel, documents, i, j)
    decreases i, j
  {
    if j > i + 1 {
      if !(a == i && b == j - 1) {
        OutcomesCover(kernel, documents, i, j - 1, a, b);
      }
    } else {
      OutcomesCover(kernel, documents, i - 1, |documents|, a, b);
    }
  }

  lemma PairIsCompared(kernel: Kernel, documents: seq<Document>, comparisons: seq<Comparison>, a: nat, b: nat)
    requires ComparedAll(kernel, documents, comparisons) && a < b < |documents|
    ensures ComparePair(kernel, documents, a, b).Ok? && ComparePair(kernel, documents, a, b).value in comparisons
  {
    var outcomes := Outcomes(kernel, documents, |documents|, |documents| + 1);
    OutcomesCover(kernel, documents, |documents|, |documents| + 1, a, b);
    var k :| 0 <= k < |outcomes| && outcomes[k] == ComparePair(kernel, documents, a, b);
    assert comparisons[k] in comparisons;
  }

  method CompareAllPairs(kernel: Kernel, documents: seq<Document>) returns (r: Result<seq<Comparison>, RunnerError>)
    ensures r == Err(PairLimitExceeded) <==> |documents| * (|documents| - 1) / 2 > 100
    ensures r == Err(ComparisonFailed) <==>
              && |documents| * (|documents| - 1) / 2 <= 100
              && exists a, b :: 0 <= a < b < |documents| && ComparePair(kernel, documents, a, b).Err?
    ensures r.Ok? ==> ComparedAll(kernel, documents, r.value)
  {
    if |documents| * (|documents| - 1) / 2 > MAX_DOCUMENT_PAIRS {
      return Err(PairLimitExceeded);
    }
    var comparisons: seq<Comparison> := [];
    var i := 0;
    while i < |documents|
      invariant 0 <= i <= |documents|
      invariant ComparedUpTo(kernel, documents, comparisons, i, i + 1)
    {
      var j := i + 1;
      while j < |documents|
        invariant i + 1 <= j <= |documents|
        invariant ComparedUpTo(kernel, documents, comparisons, i, j)
      {
        var comparison := CompareAnchorSets(kernel, documents[i].revisionId, documents[j].revisionId,
                                            documents[i].anchors, documents[j].anchors, DEFAULT_THRESHOLD);
        if comparison.Err? {
          assert ComparePair(kernel, documents, i, j).Err?;
          return Err(ComparisonFailed);
        }
        comparisons := comparisons + [comparison.value];
        j := j + 1;
      }
      i := i + 1;
    }
    forall a, b | 0 <= a < b < |documents|
      ensures ComparePair(kernel, documents, a, b).Ok?
    {
      PairIsCompared(kernel, documents, comparisons, a, b);
    }
    return Ok(comparisons);
  }

  // ---------- From comparisons to proposals

  function MatchedIds(comparisons: seq<Comparison>): set<nat> {
    if comparisons == [] then {}
    else
      var matches := comparisons[|comparisons| - 1].matches;
      MatchedIds(comparisons[..|comparisons| - 1])
      + (set m | m in matches :: m.left.anchorId) + (set m | m in matches :: m.right.anchorId)
  }

  function FromMatch(m: Match): Proposal {
    Proposal(if m.relation == Duplicate then Remove else Edit, m.right, Some(m.left.anchorId))
  }

  predicate Seen(proposals: seq<Proposal>, p: Proposal) {
    exists q :: q in proposals && q.kind == p.kind && q.anchor.anchorId == p.anchor.anchorId
  }

  // Append unless the kind and anchor were seen or the list is full.
  function Append(proposals: seq<Proposal>, p: Proposal): seq<Proposal> {
    if Seen(proposals, p) || |proposals| >= MAX_PROPOSALS then proposals else proposals + [p]
  }

  function AppendAll(proposals: seq<Proposal>, requests: seq<Proposal>): seq<Proposal> {
    if requests == [] then proposals
    else Append(AppendAll(proposals, requests[..|requests| - 1]), requests[|requests| - 1])
  }

  function Edits(matches: seq<Match>): seq<Proposal> {
    seq(|matches|, k requires 0 <= k < |matches| => FromMatch(matches[k]))
  }

  function Additions(anchors: seq<Anchor>, matched: set<nat>): seq<Proposal> {
    if anchors == [] then []
    else
      var last, rest := anchors[|anchors| - 1], Additions(anchors[..|anchors| - 1], matched);
      if last.anchorId in matched then rest else rest + [Proposal(Add, last, None)]
  }

  // What the comparisons ask for, in the order they ask.
  function Requests(comparisons: seq<Comparison>, matched: set<nat>): seq<Proposal> {
    if comparisons == [] then []
    else
      var last := comparisons[|comparisons| - 1];
      Requests(comparisons[..|comparisons| - 1], matched)
      + (Edits(last.matches) + (Additions(last.leftOnly, matched) + Additions(last.rightOnly, matched)))
  }

  lemma {:induction false} AppendAllConcat(proposals: seq<Proposal>, first: seq<Proposal>, second: seq<Proposal>)
    ensures AppendAll(AppendAll(proposals, first), second) == AppendAll(proposals, first + second)
  {
    if second == [] {
      assert first + second == first;
    } else {
      var rest := second[..|second| - 1];
      AppendAllConcat(proposals, first, rest);
      assert (first + second)[..|first + second| - 1] == first + rest;
    }
  }

  method AppendEdits(proposals: seq<Proposal>, matches: seq<Match>) returns (r: seq<Proposal>)
    ensures r == AppendAll(proposals, Edits(matches))
  {
    r := proposals;
    var k := 0;
    while k < |matches|
      invariant 0 <= k <= |matches|
      invariant r == AppendAll(proposals, Edits(matches)[..k])
    {
      assert Edits(matches)[..k + 1][..k] == Edits(matches)[..k];
      r := Append(r, FromMatch(matches[k]));
      k := k + 1;
    }
    assert Edits(matches)[..k] == Edits(matches);
  }

  method AppendAdditions(proposals: seq<Proposal>, anchors: seq<Anchor>, matched: set<nat>) returns (r: seq<Proposal>)
    ensures r == AppendAll(proposals, Additions(anchors, matched))
  {
    r := proposals;
    var k := 0;
    while k < |anchors|
      invariant 0 <= k <= |anchors|
      invariant r == AppendAll(proposals, Additions(anchors[..k], matched))
    {
      assert anchors[..k + 1][..k] == anchors[..k];
      if anchors[k].anchorId !in matched {
        var p := Proposal(Add, anchors[k], None);
        assert (Additions(anchors[..k], matched) + [p])[..|Additions(anchors[..k], matched)|]
            == Additions(anchors[..k], matched);
        r := Append(r, p);
      }
      k := k + 1;
    }
    assert anchors[..k] == anchors;
  }

  method BuildAutomaticProposals(comparisons: seq<Comparison>) returns (r: seq<Proposal>)
    ensures r == AppendAll([], Requests(comparisons, MatchedIds(comparisons)))
  {
    var matched := MatchedIds(comparisons);
    r := [];
    var k := 0;
    while k < |comparisons|
      invariant 0 <= k <= |comparisons|
      invariant r == AppendAll([], Requests(comparisons[..k], matched))
    {
      var c := comparisons[k];
      assert comparisons[..k + 1][..k] == comparisons[..k];
      ghost var before := r;
      r := AppendEdits(r, c.matches);
      ghost var edits := Edits(c.matches);
      ghost var lefts, rights := Additions(c.leftOnly, matched), Additions(c.rightOnly, matched);
      r := AppendAdditions(r, c.leftOnly, matched);
      r := AppendAdditions(r, c.rightOnly, matched);
      AppendAllConcat(AppendAll(before, edits), lefts, rights);
      AppendAllConcat(before, edits, lefts + rights);
      AppendAllConcat([], Requests(comparisons[..k], matched), edits + (lefts + rights));
      k := k + 1;
    }
    assert comparisons[..k] == comparisons;
  }

  // ---------- What the proposals of a snapshot say

  ghost predicate NoneTwice(proposals: seq<Proposal>) {
    forall i, j :: 0 <= i < j < |proposals| ==>
      proposals[i].kind != proposals[j].kind || proposals[i].anchor.anchorId != proposals[j].anchor.anchorId
  }

  lemma AppendNoneTwice(proposals: seq<Proposal>, p: Proposal)
    requires NoneTwice(proposals)
    ensures NoneTwice(Append(proposals, p))
  {
    assert forall i :: 0 <= i < |proposals| ==> proposals[i] in proposals;
  }

  // No kind and anchor twice, nothing unasked, and unless the list is full no
  // kind and anchor that was asked for is missing.
  ghost predicate Serves(proposals: seq<Proposal>, requests: seq<Proposal>) {
    && |proposals| <= MAX_PROPOSALS
    && NoneTwice(proposals)
    && (forall p :: p in proposals ==> p in requests)
    && (|proposals| < MAX_PROPOSALS ==> forall p :: p in requests ==> Seen(proposals, p))
  }

  lemma SeenAfterAppend(proposals: seq<Proposal>, p: Proposal, q: Proposal)
    requires |Append(proposals, p)| < MAX_PROPOSALS && (q == p || Seen(proposals, q))
    ensures Seen(Append(proposals, p), q)
  {
    var next := Append(proposals, p);
    if q == p && !Seen(proposals, p) {
      assert next[|proposals|] == p;
    } else {
      var k :| 0 <= k < |proposals| && proposals[k].kind == q.kind && proposals[k].anchor.anchorId == q.anchor.anchorId;
      assert next[k] == proposals[k];
    }
  }

  lemma AppendServes(proposals: seq<Proposal>, requests: seq<Proposal>, p: Proposal)
    requires Serves(proposals, requests)
    ensures Serves(Append(proposals, p), requests + [p])
  {
    var next, more := Append(proposals, p), requests + [p];
    AppendNoneTwice(proposals, p);
    assert p in more;
    forall q | q in next
      ensures q in more
    {
      assert q in proposals || q == p;
    }
    forall q | q in more && |next| < MAX_PROPOSALS
      ensures Seen(next, q)
    {
      SeenAfterAppend(proposals, p, q);
    }
  }

  lemma {:induction false} ProposalsServeRequests(requests: seq<Proposal>)
    ensures Serves(AppendAll([], requests), requests)
  {
    if requests != [] {
      var rest, p := requests[..|requests| - 1], requests[|requests| - 1];
      ProposalsServeRequests(rest);
      AppendServes(AppendAll([], rest), rest, p);
      assert requests == rest + [p];
    }
  }

  ghost predicate HasProposal(proposals: seq<Proposal>, kind: Kind, anchorId: nat) {
    exists p :: p in proposals && p.kind == kind && p.anchor.anchorId == anchorId
  }

  ghost predicate Mentions(m: Match, anchorId: nat) {
    m.left.anchorId == anchorId || m.right.anchorId == anchorId
  }

  ghost predicate InSomeMatch(comparisons: seq<Comparison>, anchorId: nat) {
    exists c, m :: c in comparisons && m in c.matches && Mentions(m, anchorId)
  }

  lemma {:induction false} MatchedIdsExact(comparisons: seq<Comparison>, anchorId: nat)
    ensures anchorId in MatchedIds(comparisons) <==> InSomeMatch(comparisons, anchorId)
  {
    if comparisons != [] {
      var rest, last := comparisons[..|comparisons| - 1], comparisons[|comparisons| - 1];
      MatchedIdsExact(rest, anchorId);
      assert comparisons == rest + [last];
      if InSomeMatch(rest, anchorId) {
        var c, m :| c in rest && m in c.matches && Mentions(m, anchorId);
        assert c in comparisons;
      }
      if InSomeMatch(comparisons, anchorId) {
        var c, m :| c in comparisons && m in c.matches && Mentions(m, anchorId);
        assert c in rest || c == last;
      }
      if m :| m in last.matches && Mentions(m, anchorId) {
        assert last in comparisons;
      }
    }
  }

  lemma {:induction false} AdditionsExact(anchors: seq<Anchor>, matched: set<nat>)
    ensures forall p :: p in Additions(anchors, matched) <==>
                        p.anchor in anchors && p.anchor.anchorId !in matched && p == Proposal(Add, p.anchor, None)
  {
    if anchors != [] {
      AdditionsExact(anchors[..|anchors| - 1], matched);
      assert anchors == anchors[..|anchors| - 1] + [anchors[|anchors| - 1]];
    }
  }

  // Some comparison asks for p: by one of its matches or by a lone anchor.
  ghost predicate Asks(c: Comparison, matched: set<nat>, p: Proposal) {
    || (exists m :: m in c.matches && p == FromMatch(m))
    || (p == Proposal(Add, p.anchor, None) && p.anchor.anchorId !in matched
        && (p.anchor in c.leftOnly || p.anchor in c.rightOnly))
  }

  lemma EditsExact(matches: seq<Match>, p: Proposal)
    ensures p in Edits(matches) <==> exists m :: m in matches && p == FromMatch(m)
  {
    if m :| m in matches && p == FromMatch(m) {
      var k :| 0 <= k < |matches| && matches[k] == m;
      assert Edits(matches)[k] == p;
    }
  }

  lemma {:induction false} RequestsExact(comparisons: seq<Comparison>, matched: set<nat>, p: Proposal)
    ensures p in Requests(comparisons, matched) <==> exists c :: c in comparisons && Asks(c, matched, p)
  {
    if comparisons != [] {
      var rest, last := comparisons[..|comparisons| - 1], comparisons[|comparisons| - 1];
      RequestsExact(rest, matched, p);
      assert comparisons == rest + [last];
      AdditionsExact(last.leftOnly, matched);
      AdditionsExact(last.rightOnly, matched);
      EditsExact(last.matches, p);
      assert last in comparisons && forall c :: c in comparisons ==> c in rest || c == last;
    }
  }

  lemma {:induction false} BagMembers(matches: seq<Match>, a: Anchor)
    ensures a in LeftBag(matches) ==> exists m :: m in matches && m.left == a
    ensures a in RightBag(matches) ==> exists m :: m in matches && m.right == a
  {
    if matches != [] {
      BagMembers(matches[1..], a);
      assert matches[0] in matches && forall m :: m in matches[1..] ==> m in matches;
    }
  }

  // An anchor of one side that no match mentions is reported alone.
  lemma UnmatchedIsReported(kernel: Kernel, documents: seq<Document>, i: nat, j: nat, c: Comparison, anchor: Anchor)
    requires i < |documents| && j < |documents| && ComparePair(kernel, documents, i, j) == Ok(c)
    requires forall m :: m in c.matches ==> !Mentions(m, anchor.anchorId)
    ensures anchor in documents[i].anchors ==> anchor in c.leftOnly
    ensures anchor in documents[j].anchors ==> anchor in c.rightOnly
  {
    ComparisonConservesAnchors(kernel, documents[i].revisionId, documents[j].revisionId,
                               documents[i].anchors, documents[j].anchors, DEFAULT_THRESHOLD);
    BagMembers(c.matches, anchor);
    assert anchor !in LeftBag(c.matches) && anchor !in RightBag(c.matches);
    assert anchor in documents[i].anchors <==> anchor in multiset(documents[i].anchors);
    assert anchor in documents[j].anchors <==> anchor in multiset(documents[j].anchors);
    assert anchor in c.leftOnly <==> anchor in multiset(c.leftOnly);
    assert anchor in c.rightOnly <==> anchor in multiset(c.rightOnly);
  }

  // Some pair has document i on one side.
  lemma LoneAnchorIsAsked(kernel: Kernel, documents: seq<Document>, comparisons: seq<Comparison>, i: nat,
                          anchor: Anchor)
    requires ComparedAll(kernel, documents, comparisons)
    requires |documents| >= 2 && i < |documents| && anchor in documents[i].anchors
    requires !InSomeMatch(comparisons, anchor.anchorId)
    ensures Proposal(Add, anchor, None) in Requests(comparisons, MatchedIds(comparisons))
  {
    var right := if i == 0 then 1 else i;
    PairIsCompared(kernel, documents, comparisons, 0, right);
    var c := ComparePair(kernel, documents, 0, right).value;
    UnmatchedIsReported(kernel, documents, 0, right, c, anchor);
    MatchedIdsExact(comparisons, anchor.anchorId);
    assert Asks(c, MatchedIds(comparisons), Proposal(Add, anchor, None));
    RequestsExact(comparisons, MatchedIds(comparisons), Proposal(Add, anchor, None));
  }

  lemma ProposedIffAsked(proposals: seq<Proposal>, requests: seq<Proposal>, kind: Kind, anchorId: nat)
    requires Serves(proposals, requests) && |proposals| < MAX_PROPOSALS
    ensures HasProposal(proposals, kind, anchorId) <==> HasProposal(requests, kind, anchorId)
  {
    if p :| p in requests && p.kind == kind && p.anchor.anchorId == anchorId {
      assert Seen(proposals, p);
    }
  }

  // Over all pairs of at least two documents, an anchor is proposed as an
  // addition exactly when no pair matches it, unless the list is full.
  lemma AdditionIffUnmatched(kernel: Kernel, documents: seq<Document>, comparisons: seq<Comparison>, i: nat,
                             anchor: Anchor)
    requires ComparedAll(kernel, documents, comparisons)
    requires |documents| >= 2 && i < |documents| && anchor in documents[i].anchors
    requires |AppendAll([], Requests(comparisons, MatchedIds(comparisons)))| < MAX_PROPOSALS
    ensures HasProposal(AppendAll([], Requests(comparisons, MatchedIds(comparisons))), Add, anchor.anchorId)
            <==> !InSomeMatch(comparisons, anchor.anchorId)
  {
    var matched := MatchedIds(comparisons);
    var requests := Requests(comparisons, matched);
    ProposalsServeRequests(requests);
    ProposedIffAsked(AppendAll([], requests), requests, Add, anchor.anchorId);
    MatchedIdsExact(comparisons, anchor.anchorId);
    if !InSomeMatch(comparisons, anchor.anchorId) {
      LoneAnchorIsAsked(kernel, documents, comparisons, i, anchor);
    }
    AdditionsAskedUnmatched(comparisons, matched, anchor.anchorId);
  }

  lemma AdditionsAskedUnmatched(comparisons: seq<Comparison>, matched: set<nat>, anchorId: nat)
    ensures HasProposal(Requests(comparisons, matched), Add, anchorId) ==> anchorId !in matched
  {
    if p :| p in Requests(comparisons, matched) && p.kind == Add && p.anchor.anchorId == anchorId {
      RequestsExact(comparisons, matched, p);
    }
  }

  // Some comparison matches the anchor on the right with this relation.
  ghost predicate MatchedRight(comparisons: seq<Comparison>, relation: Relation, anchorId: nat) {
    exists c, m :: c in comparisons && m in c.matches && m.right.anchorId == anchorId && m.relation == relation
  }

  ghost predicate Paired(comparisons: seq<Comparison>, relation: Relation, right: Anchor, left: Option<nat>) {
    exists c, m ::
      c in comparisons && m in c.matches && m.right == right && m.relation == relation && left == Some(m.left.anchorId)
  }

  // An anchor is proposed for removal exactly when some match calls it a
  // duplicate, and for editing exactly when some match calls it similar, unless
  // the list is full; such a proposal names the left anchor of such a match.
  lemma MatchesAreProposed(comparisons: seq<Comparison>, anchorId: nat)
    ensures var proposals := AppendAll([], Requests(comparisons, MatchedIds(comparisons)));
            && (|proposals| < 100 ==>
                  && (HasProposal(proposals, Remove, anchorId) <==> MatchedRight(comparisons, Duplicate, anchorId))
                  && (HasProposal(proposals, Edit, anchorId) <==> MatchedRight(comparisons, Similar, anchorId)))
            && forall p :: p in proposals ==>
                 && (p.kind == Remove ==> Paired(comparisons, Duplicate, p.anchor, p.paired))
                 && (p.kind == Edit ==> Paired(comparisons, Similar, p.anchor, p.paired))
                 && (p.kind == Add ==> p.paired == None && !InSomeMatch(comparisons, p.anchor.anchorId))
  {
    var requests := Requests(comparisons, MatchedIds(comparisons));
    var proposals := AppendAll([], requests);
    if |proposals| < 100 {
      RelationIsProposed(comparisons, Duplicate, anchorId);
      RelationIsProposed(comparisons, Similar, anchorId);
    }
    forall p | p in proposals
      ensures p.kind == Remove ==> Paired(comparisons, Duplicate, p.anchor, p.paired)
      ensures p.kind == Edit ==> Paired(comparisons, Similar, p.anchor, p.paired)
      ensures p.kind == Add ==> p.paired == None && !InSomeMatch(comparisons, p.anchor.anchorId)
    {
      ProposedIsRequested(requests, p);
      AskedIsExplained(comparisons, p);
    }
  }

  lemma ProposedIsRequested(requests: seq<Proposal>, p: Proposal)
    requires p in AppendAll([], requests)
    ensures p in requests
  {
    ProposalsServeRequests(requests);
  }

  lemma RelationIsProposed(comparisons: seq<Comparison>, relation: Relation, anchorId: nat)
    requires |AppendAll([], Requests(comparisons, MatchedIds(comparisons)))| < 100
    ensures HasProposal(AppendAll([], Requests(comparisons, MatchedIds(comparisons))),
                        if relation == Duplicate then Remove else Edit, anchorId)
            <==> MatchedRight(comparisons, relation, anchorId)
  {
    var matched := MatchedIds(comparisons);
    var requests := Requests(comparisons, matched);
    ProposalsServeRequests(requests);
    ProposedIffAsked(AppendAll([], requests), requests, if relation == Duplicate then Remove else Edit, anchorId);
    MatchIsAsked(comparisons, matched, relation, anchorId);
  }

  lemma AskedIsExplained(comparisons: seq<Comparison>, p: Proposal)
    requires p in Requests(comparisons, MatchedIds(comparisons))
    ensures p.kind == Remove ==> Paired(comparisons, Duplicate, p.anchor, p.paired)
    ensures p.kind == Edit ==> Paired(comparisons, Similar, p.anchor, p.paired)
    ensures p.kind == Add ==> p.paired == None && !InSomeMatch(comparisons, p.anchor.anchorId)
  {
    RequestsExact(comparisons, MatchedIds(comparisons), p);
    MatchedIdsExact(comparisons, p.anchor.anchorId);
    var c :| c in comparisons && Asks(c, MatchedIds(comparisons), p);
    if m :| m in c.matches && p == FromMatch(m) {
      assert m.right == p.anchor && p.paired == Some(m.left.anchorId);
    }
  }

  lemma MatchIsAsked(comparisons: seq<Comparison>, matched: set<nat>, relation: Relation, anchorId: nat)
    requires matched == MatchedIds(comparisons)
    ensures HasProposal(Requests(comparisons, matched), if relation == Duplicate then Remove else Edit, anchorId)
            <==> MatchedRight(comparisons, relation, anchorId)
  {
    var requests := Requests(comparisons, matched);
    var kind := if relation == Duplicate then Remove else Edit;
    if c, m :| c in comparisons && m in c.matches && m.right.anchorId == anchorId && m.relation == relation {
      assert Asks(c, matched, FromMatch(m));
      RequestsExact(comparisons, matched, FromMatch(m));
    }
    if p :| p in requests && p.kind == kind && p.anchor.anchorId == anchorId {
      AskedIsExplained(comparisons, p);
    }
  }
}
