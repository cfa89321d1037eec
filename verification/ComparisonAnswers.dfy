// What a comparison of two anchor sets answers (document_comparison.py): exactly
// when it fails and why, what each match says, and in which order matches and
// unmatched anchors come.
module ComparisonAnswers {
  import opened Wrappers
  import opened Sorting
  import opened Matching
  import opened DocumentComparison

  // ---------- When it fails

  ghost predicate ShareBucket(kernel: Kernel, l: Anchor, r: Anchor) {
    exists b :: b in kernel.buckets(l.text) && b in kernel.buckets(r.text)
  }

  // The places of the pairs that share a bucket, with the first n left anchors.
  ghost function SharingPlaces(kernel: Kernel, left: seq<Anchor>, right: seq<Anchor>, n: nat): set<(nat, nat)>
    requires n <= |left|
  {
    set i: nat, j: nat | i < n && j < |right| && ShareBucket(kernel, left[i], right[j]) :: (i, j)
  }

  ghost function RowPlaces(kernel: Kernel, left: seq<Anchor>, right: seq<Anchor>, i: nat, m: nat): set<(nat, nat)>
    requires i < |left| && m <= |right|
  {
    set j: nat | j < m && ShareBucket(kernel, left[i], right[j]) :: (i, j)
  }

  lemma {:induction false} RowIsCounted(kernel: Kernel, left: seq<Anchor>, right: seq<Anchor>, i: nat, m: nat)
    requires i < |left| && m <= |right|
    ensures SharingInRow(kernel, left[i], right, m) == |RowPlaces(kernel, left, right, i, m)|
  {
    if m == 0 {
      assert RowPlaces(kernel, left, right, i, 0) == {};
    } else {
      RowIsCounted(kernel, left, right, i, m - 1);
      var rest := RowPlaces(kernel, left, right, i, m - 1);
      if ShareBucket(kernel, left[i], right[m - 1]) {
        assert RowPlaces(kernel, left, right, i, m) == rest + {(i, m - 1)};
      } else {
        assert RowPlaces(kernel, left, right, i, m) == rest;
      }
    }
  }

  lemma {:induction false} PairsAreCounted(kernel: Kernel, left: seq<Anchor>, right: seq<Anchor>, n: nat)
    requires n <= |left|
    ensures SharingPairs(kernel, left, right, n) == |SharingPlaces(kernel, left, right, n)|
  {
    if n == 0 {
      assert SharingPlaces(kernel, left, right, 0) == {};
    } else {
      PairsAreCounted(kernel, left, right, n - 1);
      RowIsCounted(kernel, left, right, n - 1, |right|);
      PlacesSplit(kernel, left, right, n);
    }
  }

  lemma PlacesSplit(kernel: Kernel, left: seq<Anchor>, right: seq<Anchor>, n: nat)
    requires 0 < n <= |left|
    ensures var rest, row := SharingPlaces(kernel, left, right, n - 1), RowPlaces(kernel, left, right, n - 1, |right|);
            SharingPlaces(kernel, left, right, n) == rest + row && rest !! row
  {
    var rest, row := SharingPlaces(kernel, left, right, n - 1), RowPlaces(kernel, left, right, n - 1, |right|);
    assert forall p :: p in rest ==> p.0 < n - 1;
    assert forall p :: p in row ==> p.0 == n - 1;
    forall p
      ensures p in SharingPlaces(kernel, left, right, n) <==> p in rest + row
    {
    }
  }

  // In the order of the service's checks.
  ghost function Objection(kernel: Kernel, leftRevisionId: nat, rightRevisionId: nat, left: seq<Anchor>,
                           right: seq<Anchor>, threshold: real): Option<ComparisonError> {
    if leftRevisionId == rightRevisionId then Some(SameRevision)
    else if threshold < 0.5 || threshold > 1.0 then Some(BadThreshold)
    else if exists a :: a in left && a.revisionId != leftRevisionId then Some(LeftRevisionMismatch)
    else if exists a :: a in right && a.revisionId != rightRevisionId then Some(RightRevisionMismatch)
    else if |left| > 2_000 || |right| > 2_000 then Some(AnchorLimitExceeded)
    else if |SharingPlaces(kernel, left, right, |left|)| > 200_000 then Some(WorkBudgetExceeded)
    else None
  }

  lemma MembersAgree(anchors: seq<Anchor>, revisionId: nat)
    ensures AllOf(anchors, revisionId) <==> !exists a :: a in anchors && a.revisionId != revisionId
  {
    if i :| 0 <= i < |anchors| && anchors[i].revisionId != revisionId {
      assert anchors[i] in anchors;
    }
  }

  // A comparison fails exactly for the first objection to it.
  lemma FailsIffObjectionable(kernel: Kernel, leftRevisionId: nat, rightRevisionId: nat, left: seq<Anchor>,
                              right: seq<Anchor>, threshold: real)
    ensures var r := Compare(kernel, leftRevisionId, rightRevisionId, left, right, threshold);
            var objection := Objection(kernel, leftRevisionId, rightRevisionId, left, right, threshold);
            (r.Err? <==> objection.Some?) && (r.Err? ==> r.error == objection.value)
  {
    MembersAgree(left, leftRevisionId);
    MembersAgree(right, rightRevisionId);
    PairsAreCounted(kernel, left, right, |left|);
  }

  // ---------- What it answers

  // A match says whose texts are how similar, rounded, and calls them duplicates
  // from 0.92 on, before rounding.
  ghost function MatchOf(kernel: Kernel, l: Anchor, r: Anchor): Match {
    var score := kernel.similarity(l.text, r.text);
    Match(l, r, kernel.round6(score), if score < 0.92 then Similar else Duplicate)
  }

  ghost predicate ById(a: Match, b: Match) {
    a.left.anchorId <= b.left.anchorId
    && (a.left.anchorId == b.left.anchorId ==> a.right.anchorId <= b.right.anchorId)
  }

  // What is left of the anchors, in order, when those at the used places go.
  ghost predicate Remains(anchors: seq<Anchor>, used: set<nat>, rest: seq<Anchor>, at: seq<nat>) {
    && |at| == |rest| && (forall k :: 0 <= k < |at| ==> at[k] < |anchors| && rest[k] == anchors[at[k]])
    && (forall j, k :: 0 <= j < k < |at| ==> at[j] < at[k])
    && (forall i: nat :: i < |anchors| ==> (i in at <==> i !in used))
  }

  lemma OneMoreRemains(init: seq<Anchor>, last: Anchor, used: set<nat>, rest: seq<Anchor>, at: seq<nat>)
    requires Remains(init, used, rest, at)
    ensures if |init| in used then Remains(init + [last], used, rest, at)
            else Remains(init + [last], used, rest + [last], at + [|init|])
  {
    assert forall i: nat :: i in at + [|init|] <==> i in at || i == |init|;
    assert forall k :: 0 <= k < |at| ==> at[k] in at;
  }

  lemma {:induction false} UnusedRemain(anchors: seq<Anchor>, used: set<nat>, n: nat) returns (at: seq<nat>)
    requires n <= |anchors|
    ensures Remains(anchors[..n], used, Unused(anchors, used, n), at)
  {
    if n == 0 {
      at := [];
    } else {
      at := UnusedRemain(anchors, used, n - 1);
      assert anchors[..n] == anchors[..n - 1] + [anchors[n - 1]];
      OneMoreRemains(anchors[..n - 1], anchors[n - 1], used, Unused(anchors, used, n - 1), at);
      if n - 1 !in used {
        at := at + [n - 1];
      }
    }
  }

  // The answer: a stable matching of the pairs that share a bucket, each match as
  // its two texts say, by the ids of its sides, and what is left of either side
  // in its order.
  lemma AnswerIsExact(kernel: Kernel, leftRevisionId: nat, rightRevisionId: nat, left: seq<Anchor>,
                      right: seq<Anchor>, threshold: real)
    returns (taken: seq<Candidate>, leftAt: seq<nat>, rightAt: seq<nat>)
    requires Compare(kernel, leftRevisionId, rightRevisionId, left, right, threshold).Ok?
    ensures InRange(taken, left, right) && Matched(taken)
    ensures forall m :: StableAmong(kernel, threshold, left, right, m) <==> m == Members(taken)
    ensures var c := Compare(kernel, leftRevisionId, rightRevisionId, left, right, threshold).value;
            && c.leftRevisionId == leftRevisionId && c.rightRevisionId == rightRevisionId
            && multiset(c.matches)
               == multiset(seq(|taken|, k requires 0 <= k < |taken| && InRange(taken, left, right) =>
                                          MatchOf(kernel, left[taken[k].left], right[taken[k].right])))
            && (forall j, k :: 0 <= j < k < |c.matches| ==> ById(c.matches[j], c.matches[k]))
            && Remains(left, (set t | t in taken :: t.left), c.leftOnly, leftAt)
            && Remains(right, (set t | t in taken :: t.right), c.rightOnly, rightAt)
  {
    taken := ComparisonIsTheStableMatching(kernel, leftRevisionId, rightRevisionId, left, right, threshold);
    TakenIsMembers(kernel, threshold, left, right, taken);
    var all := Taken(kernel, threshold, left, right);
    TakenIsReturned(kernel, leftRevisionId, rightRevisionId, left, right, threshold);
    MatchesSayScores(kernel, threshold, left, right, taken);
    MatchBeforeIsStrictWeak();
    SortIsSortedPermutation(ToMatches(kernel, left, right, all), MatchBefore);
    leftAt := UnusedRemain(left, LeftEnds(all), |left|);
    rightAt := UnusedRemain(right, RightEnds(all), |right|);
    assert left[..|left|] == left && right[..|right|] == right;
  }

  lemma TakenIsMembers(kernel: Kernel, threshold: real, left: seq<Anchor>, right: seq<Anchor>, taken: seq<Candidate>)
    requires forall m :: StableAmong(kernel, threshold, left, right, m) <==> m == Members(taken)
    ensures Members(taken) == Members(Taken(kernel, threshold, left, right))
    ensures (set t | t in taken :: t.left) == LeftEnds(Taken(kernel, threshold, left, right))
    ensures (set t | t in taken :: t.right) == RightEnds(Taken(kernel, threshold, left, right))
    ensures forall t :: t in taken ==> IsCandidate(kernel, threshold, left, right, t)
  {
    var all := Taken(kernel, threshold, left, right);
    TakenIsTheStableOne(kernel, threshold, left, right, Members(all));
    assert StableAmong(kernel, threshold, left, right, Members(all));
    assert forall t :: t in taken <==> t in Members(taken);
    assert forall t :: t in all <==> t in Members(all);
  }

  lemma MatchesSayScores(kernel: Kernel, threshold: real, left: seq<Anchor>, right: seq<Anchor>, taken: seq<Candidate>)
    requires InRange(taken, left, right)
    requires forall t :: t in taken ==> IsCandidate(kernel, threshold, left, right, t)
    ensures ToMatches(kernel, left, right, taken)
         == seq(|taken|, k requires 0 <= k < |taken| && InRange(taken, left, right) =>
                           MatchOf(kernel, left[taken[k].left], right[taken[k].right]))
  {
    assert forall k :: 0 <= k < |taken| ==> taken[k] in taken;
  }
}
