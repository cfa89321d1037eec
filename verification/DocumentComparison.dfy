// The bucket-indexed comparison of two anchor sets (document_comparison.py).
// Embedding, similarity and six-digit rounding are parameters.
module DocumentComparison {
  import opened Wrappers
  import opened Sorting
  import opened Matching

  const MAX_COMPARISON_ANCHORS: nat := 2_000
  const MAX_CANDIDATE_PAIRS: nat := 200_000
  const DOMINANT_BUCKETS: nat := 12

  // Identifiers are UUIDs read as numbers: their text order is numeric order.
  datatype Anchor = Anchor(anchorId: nat, revisionId: nat, text: string)

  datatype Relation = Duplicate | Similar

  datatype Match = Match(left: Anchor, right: Anchor, similarity: real, relation: Relation)

  datatype Comparison = Comparison(leftRevisionId: nat, rightRevisionId: nat, matches: seq<Match>,
                                   leftOnly: seq<Anchor>, rightOnly: seq<Anchor>)

  datatype ComparisonError = SameRevision | BadThreshold | LeftRevisionMismatch | RightRevisionMismatch
                           | AnchorLimitExceeded | WorkBudgetExceeded

  // What a comparison takes from outside: the dominant buckets of a text, the
  // similarity of two texts and rounding to six digits.
  datatype Kernel = Kernel(buckets: string -> seq<nat>, similarity: (string, string) -> real, round6: real -> real)

  // ---------- Dominant buckets

  datatype Component = Component(index: nat, value: real)

  function Abs(x: real): real {
    if x < 0.0 then -x else x
  }

  predicate Stronger(a: Component, b: Component) {
    Abs(a.value) > Abs(b.value) || (Abs(a.value) == Abs(b.value) && a.index < b.index)
  }

  function Enumerate(vector: seq<real>): seq<Component> {
    seq(|vector|, i requires 0 <= i < |vector| => Component(i, vector[i]))
  }

  function Nonzero(components: seq<Component>): seq<nat> {
    if components == [] then []
    else (if components[0].value != 0.0 then [components[0].index] else []) + Nonzero(components[1..])
  }

  function DominantBuckets(vector: seq<real>): seq<nat> {
    var ranked := Sort(Enumerate(vector), Stronger);
    Nonzero(if |ranked| < DOMINANT_BUCKETS then ranked else ranked[..DOMINANT_BUCKETS])
  }

  lemma {:induction false} NonzeroMembers(components: seq<Component>, bucket: nat)
    ensures bucket in Nonzero(components) <==>
            exists k :: 0 <= k < |components| && components[k].index == bucket && components[k].value != 0.0
  {
    if components != [] {
      NonzeroMembers(components[1..], bucket);
      if bucket in Nonzero(components[1..]) {
        var k :| 0 <= k < |components[1..]| && components[1..][k].index == bucket && components[1..][k].value != 0.0;
        assert components[k + 1].index == bucket;
      }
      if k :| 0 < k < |components| && components[k].index == bucket && components[k].value != 0.0 {
        assert components[1..][k - 1].index == bucket;
      }
    }
  }

  lemma {:induction false} PrefixCardinality(s: seq<Component>, p: nat)
    requires Distinct(s) && p <= |s|
    ensures |set k | 0 <= k < p :: s[k]| == p
  {
    if p > 0 {
      PrefixCardinality(s, p - 1);
      assert (set k | 0 <= k < p :: s[k]) == (set k | 0 <= k < p - 1 :: s[k]) + {s[p - 1]};
    }
  }

  function EmbeddingKernel(embed: string -> seq<real>, similarity: (string, string) -> real,
                           round6: real -> real): Kernel {
    Kernel(text => DominantBuckets(embed(text)), similarity, round6)
  }

  // x lies farther from zero than y.
  ghost predicate Farther(x: real, y: real) {
    if y >= 0.0 then x > y || x < -y else x < y || x > -y
  }

  // The components farther from zero, and those as far with a lower index.
  ghost function Rivals(vector: seq<real>, bucket: nat): set<Component>
    requires bucket < |vector|
  {
    var value := vector[bucket];
    set c | c in Enumerate(vector)
            && (Farther(c.value, value) || ((c.value == value || c.value == -value) && c.index < bucket))
  }

  lemma StrongerIsStrictWeak()
    ensures StrictWeakOrder(Stronger)
  {
  }

  lemma RankedComponents(vector: seq<real>) returns (ranked: seq<Component>)
    ensures ranked == Sort(Enumerate(vector), Stronger)
    ensures Sorted(ranked, Stronger) && Distinct(ranked)
    ensures forall c :: c in ranked <==> c.index < |vector| && c.value == vector[c.index]
  {
    var all := Enumerate(vector);
    ranked := Sort(all, Stronger);
    StrongerIsStrictWeak();
    SortIsSortedPermutation(all, Stronger);
    SortKeepsMembers(all, Stronger);
    SortKeepsDistinct(all, Stronger);
    EnumeratesAll(vector);
  }

  lemma EnumeratesAll(vector: seq<real>)
    ensures forall c :: c in Enumerate(vector) <==> c.index < |vector| && c.value == vector[c.index]
  {
    forall c
      ensures c in Enumerate(vector) <==> c.index < |vector| && c.value == vector[c.index]
    {
      if c.index < |vector| && c.value == vector[c.index] {
        assert Enumerate(vector)[c.index] == c;
      }
    }
  }

  // The rank of a component is the number of its rivals.
  lemma RankCountsRivals(vector: seq<real>, ranked: seq<Component>, p: nat)
    requires Sorted(ranked, Stronger) && Distinct(ranked) && p < |ranked|
    requires forall c :: c in ranked <==> c.index < |vector| && c.value == vector[c.index]
    ensures ranked[p] in ranked && |Rivals(vector, ranked[p].index)| == p
  {
    assert ranked[p] in ranked;
    var earlier := set k | 0 <= k < p :: ranked[k];
    PrefixCardinality(ranked, p);
    EnumeratesAll(vector);
    forall c
      ensures c in Rivals(vector, ranked[p].index) <==> c in earlier
    {
      StrongerStandEarlier(ranked, p, c);
    }
    assert Rivals(vector, ranked[p].index) == earlier;
  }

  lemma StrongerStandEarlier(ranked: seq<Component>, p: nat, c: Component)
    requires Sorted(ranked, Stronger) && Distinct(ranked) && p < |ranked|
    requires forall a, b :: a in ranked && b in ranked && a.index == b.index ==> a == b
    ensures c in ranked && Stronger(c, ranked[p]) <==> exists q :: 0 <= q < p && ranked[q] == c
  {
    if c in ranked && Stronger(c, ranked[p]) {
      var q :| 0 <= q < |ranked| && ranked[q] == c;
      assert q < p;
    }
    if q :| 0 <= q < p && ranked[q] == c {
      assert !Stronger(ranked[p], ranked[q]) && ranked[p] != ranked[q];
    }
  }

  // A bucket is dominant exactly when its component is not zero and fewer than
  // twelve components are stronger, ties going to the lower index.
  lemma DominantBucketsExact(vector: seq<real>, bucket: nat)
    ensures bucket in DominantBuckets(vector) <==>
            && bucket < |vector| && vector[bucket] != 0.0
            && |Rivals(vector, bucket)| < 12
  {
    var ranked := RankedComponents(vector);
    var kept := if |ranked| < DOMINANT_BUCKETS then ranked else ranked[..DOMINANT_BUCKETS];
    NonzeroMembers(kept, bucket);
    if bucket in DominantBuckets(vector) {
      var k :| 0 <= k < |kept| && kept[k].index == bucket && kept[k].value != 0.0;
      assert kept[k] == ranked[k] && ranked[k] in ranked;
      RankCountsRivals(vector, ranked, k);
    }
    if bucket < |vector| && vector[bucket] != 0.0 && |Rivals(vector, bucket)| < 12 {
      assert Component(bucket, vector[bucket]) in ranked;
      var p :| 0 <= p < |ranked| && ranked[p] == Component(bucket, vector[bucket]);
      RankCountsRivals(vector, ranked, p);
      assert kept[p] == ranked[p];
    }
  }

  // ---------- The naive double loop

  predicate Shares(kernel: Kernel, l: Anchor, r: Anchor) {
    var mine, theirs := kernel.buckets(l.text), kernel.buckets(r.text);
    exists b :: b in mine && b in theirs
  }

  // Among the first j right anchors, how many share a bucket with l.
  function SharingInRow(kernel: Kernel, l: Anchor, right: seq<Anchor>, j: nat): nat
    requires j <= |right|
  {
    if j == 0 then 0
    else SharingInRow(kernel, l, right, j - 1) + if Shares(kernel, l, right[j - 1]) then 1 else 0
  }

  function SharingPairs(kernel: Kernel, left: seq<Anchor>, right: seq<Anchor>, i: nat): nat
    requires i <= |left|
  {
    if i == 0 then 0
    else SharingPairs(kernel, left, right, i - 1) + SharingInRow(kernel, left[i - 1], right, |right|)
  }

  function RowCandidates(kernel: Kernel, threshold: real, left: seq<Anchor>, i: nat, right: seq<Anchor>,
                         j: nat): seq<Candidate>
    requires i < |left| && j <= |right|
  {
    if j == 0 then []
    else
      var score := kernel.similarity(left[i].text, right[j - 1].text);
      RowCandidates(kernel, threshold, left, i, right, j - 1)
      + if Shares(kernel, left[i], right[j - 1]) && score >= threshold then [Candidate(score, i, j - 1)] else []
  }

  // The candidates of one left anchor; none beyond the last.
  function RowsOf(kernel: Kernel, threshold: real, left: seq<Anchor>, right: seq<Anchor>): nat -> seq<Candidate> {
    (i: nat) => if i < |left| then RowCandidates(kernel, threshold, left, i, right, |right|) else []
  }

  function Concat(rows: nat -> seq<Candidate>, n: nat): seq<Candidate> {
    if n == 0 then [] else Concat(rows, n - 1) + rows(n - 1)
  }

  function Candidates(kernel: Kernel, threshold: real, left: seq<Anchor>, right: seq<Anchor>, i: nat): seq<Candidate>
    requires i <= |left|
  {
    Concat(RowsOf(kernel, threshold, left, right), i)
  }

  ghost predicate IsCandidate(kernel: Kernel, threshold: real, left: seq<Anchor>, right: seq<Anchor>, c: Candidate) {
    && c.left < |left| && c.right < |right|
    && Shares(kernel, left[c.left], right[c.right])
    && c.score == kernel.similarity(left[c.left].text, right[c.right].text) >= threshold
  }

  lemma {:induction false} RowCandidatesExact(kernel: Kernel, threshold: real, left: seq<Anchor>, i: nat,
                                              right: seq<Anchor>, j: nat)
    requires i < |left| && j <= |right|
    ensures var row := RowCandidates(kernel, threshold, left, i, right, j);
            && Distinct(row)
            && forall c :: c in row <==> IsCandidate(kernel, threshold, left, right, c) && c.left == i && c.right < j
  {
    if j > 0 {
      RowCandidatesExact(kernel, threshold, left, i, right, j - 1);
    }
  }

  lemma DistinctConcat(s: seq<Candidate>, t: seq<Candidate>)
    requires Distinct(s) && Distinct(t) && forall c :: c in s ==> c !in t
    ensures Distinct(s + t)
  {
    assert forall i :: 0 <= i < |s| ==> s[i] in s;
    assert forall i :: 0 <= i < |t| ==> t[i] in t;
  }

  // Every candidate of a row has the row's left index.
  ghost predicate Indexes(rows: nat -> seq<Candidate>) {
    forall i, c :: c in rows(i) ==> c.left == i
  }

  lemma {:induction false} ConcatHas(rows: nat -> seq<Candidate>, n: nat, c: Candidate)
    requires Indexes(rows)
    ensures c in Concat(rows, n) <==> c.left < n && c in rows(c.left)
  {
    if n > 0 {
      ConcatHas(rows, n - 1, c);
    }
  }

  lemma {:induction false} ConcatIsDistinct(rows: nat -> seq<Candidate>, n: nat)
    requires Indexes(rows) && forall i :: Distinct(rows(i))
    ensures Distinct(Concat(rows, n))
  {
    if n > 0 {
      var earlier, last := Concat(rows, n - 1), rows(n - 1);
      ConcatIsDistinct(rows, n - 1);
      forall c | c in earlier
        ensures c !in last
      {
        ConcatHas(rows, n - 1, c);
      }
      DistinctConcat(earlier, last);
    }
  }

  lemma RowsAreExact(kernel: Kernel, threshold: real, left: seq<Anchor>, right: seq<Anchor>)
    ensures var rows := RowsOf(kernel, threshold, left, right);
            && Indexes(rows) && (forall i :: Distinct(rows(i)))
            && forall c: Candidate :: c in rows(c.left) <==> IsCandidate(kernel, threshold, left, right, c)
  {
    var rows := RowsOf(kernel, threshold, left, right);
    forall i: nat
      ensures Distinct(rows(i))
      ensures forall c :: c in rows(i) <==> IsCandidate(kernel, threshold, left, right, c) && c.left == i
    {
      if i < |left| {
        RowCandidatesExact(kernel, threshold, left, i, right, |right|);
      }
    }
  }

  // The candidates are the sharing pairs that reach the threshold, each once.
  lemma CandidatesExact(kernel: Kernel, threshold: real, left: seq<Anchor>, right: seq<Anchor>, i: nat)
    requires i <= |left|
    ensures Distinct(Candidates(kernel, threshold, left, right, i))
    ensures forall c :: c in Candidates(kernel, threshold, left, right, i) <==>
                        IsCandidate(kernel, threshold, left, right, c) && c.left < i
  {
    var rows := RowsOf(kernel, threshold, left, right);
    RowsAreExact(kernel, threshold, left, right);
    ConcatIsDistinct(rows, i);
    forall c
      ensures c in Concat(rows, i) <==> IsCandidate(kernel, threshold, left, right, c) && c.left < i
    {
      ConcatHas(rows, i, c);
    }
  }

  // ---------- The comparison

  function IdentityError(leftRevisionId: nat, rightRevisionId: nat, threshold: real): Option<ComparisonError> {
    if leftRevisionId == rightRevisionId then Some(SameRevision)
    else if !(0.5 <= threshold <= 1.0) then Some(BadThreshold)
    else None
  }

  predicate AllOf(anchors: seq<Anchor>, revisionId: nat) {
    forall i :: 0 <= i < |anchors| ==> anchors[i].revisionId == revisionId
  }

  function ToMatch(kernel: Kernel, left: seq<Anchor>, right: seq<Anchor>, c: Candidate): Match
    requires c.left < |left| && c.right < |right|
  {
    Match(left[c.left], right[c.right], kernel.round6(c.score), if c.score >= 0.92 then Duplicate else Similar)
  }

  ghost predicate InRange(s: seq<Candidate>, left: seq<Anchor>, right: seq<Anchor>) {
    forall k :: 0 <= k < |s| ==> s[k].left < |left| && s[k].right < |right|
  }

  function ToMatches(kernel: Kernel, left: seq<Anchor>, right: seq<Anchor>, taken: seq<Candidate>): seq<Match>
    requires InRange(taken, left, right)
  {
    seq(|taken|, k requires 0 <= k < |taken| => ToMatch(kernel, left, right, taken[k]))
  }

  predicate MatchBefore(a: Match, b: Match) {
    || a.left.anchorId < b.left.anchorId
    || (a.left.anchorId == b.left.anchorId && a.right.anchorId < b.right.anchorId)
  }

  function Unused(anchors: seq<Anchor>, used: set<nat>, i: nat): seq<Anchor>
    requires i <= |anchors|
  {
    if i == 0 then []
    else Unused(anchors, used, i - 1) + if i - 1 in used then [] else [anchors[i - 1]]
  }

  function LeftEnds(taken: seq<Candidate>): set<nat> {
    set c | c in taken :: c.left
  }

  function RightEnds(taken: seq<Candidate>): set<nat> {
    set c | c in taken :: c.right
  }

  lemma RankedInRange(kernel: Kernel, threshold: real, left: seq<Anchor>, right: seq<Anchor>)
    ensures InRange(Sort(Candidates(kernel, threshold, left, right, |left|), Precedes), left, right)
  {
    var candidates := Candidates(kernel, threshold, left, right, |left|);
    CandidatesExact(kernel, threshold, left, right, |left|);
    PrecedesIsStrictWeak();
    SortKeepsMembers(candidates, Precedes);
    forall k | 0 <= k < |Sort(candidates, Precedes)|
      ensures Sort(candidates, Precedes)[k] in candidates
    {
      assert Sort(candidates, Precedes)[k] in Sort(candidates, Precedes);
    }
  }

  // The matching the naive candidates have.
  ghost function Taken(kernel: Kernel, threshold: real, left: seq<Anchor>, right: seq<Anchor>): (taken: seq<Candidate>)
    ensures InRange(taken, left, right)
  {
    var ranked := Sort(Candidates(kernel, threshold, left, right, |left|), Precedes);
    var taken := Greedy(ranked, {}, {});
    RankedInRange(kernel, threshold, left, right);
    GreedyInvariants(ranked, {}, {});
    assert forall k :: 0 <= k < |taken| ==> taken[k] in taken;
    taken
  }

  ghost function Compare(kernel: Kernel, leftRevisionId: nat, rightRevisionId: nat, left: seq<Anchor>,
                         right: seq<Anchor>, threshold: real): Result<Comparison, ComparisonError> {
    var identity := IdentityError(leftRevisionId, rightRevisionId, threshold);
    if identity.Some? then Err(identity.value)
    else if !AllOf(left, leftRevisionId) then Err(LeftRevisionMismatch)
    else if !AllOf(right, rightRevisionId) then Err(RightRevisionMismatch)
    else if |left| > MAX_COMPARISON_ANCHORS || |right| > MAX_COMPARISON_ANCHORS then Err(AnchorLimitExceeded)
    else if SharingPairs(kernel, left, right, |left|) > MAX_CANDIDATE_PAIRS then Err(WorkBudgetExceeded)
    else
      var taken := Taken(kernel, threshold, left, right);
      Ok(Comparison(leftRevisionId, rightRevisionId, Sort(ToMatches(kernel, left, right, taken), MatchBefore),
                    Unused(left, LeftEnds(taken), |left|), Unused(right, RightEnds(taken), |right|)))
  }

  // ---------- What a comparison accounts for

  lemma {:induction false} UnusedMembers(anchors: seq<Anchor>, used: set<nat>, i: nat)
    requires i <= |anchors|
    ensures forall a :: a in Unused(anchors, used, i) ==> a in anchors[..i]
    ensures forall k :: 0 <= k < i && k !in used ==> anchors[k] in Unused(anchors, used, i)
  {
    if i > 0 {
      UnusedMembers(anchors, used, i - 1);
      assert anchors[..i] == anchors[..i - 1] + [anchors[i - 1]];
    }
  }

  lemma {:induction false} NothingUsed(anchors: seq<Anchor>, i: nat)
    requires i <= |anchors|
    ensures Unused(anchors, {}, i) == anchors[..i]
  {
    if i > 0 {
      NothingUsed(anchors, i - 1);
    }
  }

  // The anchors left over, with multiplicity.
  function UnusedBag(anchors: seq<Anchor>, used: set<nat>, i: nat): multiset<Anchor>
    requires i <= |anchors|
  {
    if i == 0 then multiset{}
    else if i - 1 in used then UnusedBag(anchors, used, i - 1)
    else UnusedBag(anchors, used, i - 1) + multiset{anchors[i - 1]}
  }

  lemma {:induction false} UnusedAsBag(anchors: seq<Anchor>, used: set<nat>, i: nat)
    requires i <= |anchors|
    ensures multiset(Unused(anchors, used, i)) == UnusedBag(anchors, used, i)
  {
    if i > 0 {
      UnusedAsBag(anchors, used, i - 1);
      var earlier := Unused(anchors, used, i - 1);
      if i - 1 in used {
        assert earlier + [] == earlier;
      } else {
        assert multiset(earlier + [anchors[i - 1]]) == multiset(earlier) + multiset{anchors[i - 1]};
      }
    }
  }

  lemma {:induction false} UnusedUnaffected(anchors: seq<Anchor>, used: set<nat>, k: nat, i: nat)
    requires i <= |anchors| && i <= k
    ensures UnusedBag(anchors, used + {k}, i) == UnusedBag(anchors, used, i)
  {
    if i > 0 {
      UnusedUnaffected(anchors, used, k, i - 1);
    }
  }

  // Using one more position removes that one anchor from those left over.
  lemma {:induction false} UsingOneMore(anchors: seq<Anchor>, used: set<nat>, k: nat, i: nat)
    requires k < i <= |anchors| && k !in used
    ensures UnusedBag(anchors, used, i) == UnusedBag(anchors, used + {k}, i) + multiset{anchors[k]}
  {
    if i - 1 == k {
      UnusedUnaffected(anchors, used, k, k);
    } else {
      UsingOneMore(anchors, used, k, i - 1);
    }
  }

  // The left and the right anchors of a list of matches, with multiplicity.
  function LeftBag(matches: seq<Match>): multiset<Anchor> {
    if matches == [] then multiset{} else multiset{matches[0].left} + LeftBag(matches[1..])
  }

  function RightBag(matches: seq<Match>): multiset<Anchor> {
    if matches == [] then multiset{} else multiset{matches[0].right} + RightBag(matches[1..])
  }

  lemma {:induction false} InsertLeftBag(x: Match, s: seq<Match>)
    ensures LeftBag(Insert(x, s, MatchBefore)) == LeftBag(s) + multiset{x.left}
  {
    if s == [] || !MatchBefore(s[0], x) {
      assert ([x] + s)[1..] == s;
    } else {
      InsertLeftBag(x, s[1..]);
      assert ([s[0]] + Insert(x, s[1..], MatchBefore))[1..] == Insert(x, s[1..], MatchBefore);
    }
  }

  lemma {:induction false} InsertRightBag(x: Match, s: seq<Match>)
    ensures RightBag(Insert(x, s, MatchBefore)) == RightBag(s) + multiset{x.right}
  {
    if s == [] || !MatchBefore(s[0], x) {
      assert ([x] + s)[1..] == s;
    } else {
      InsertRightBag(x, s[1..]);
      assert ([s[0]] + Insert(x, s[1..], MatchBefore))[1..] == Insert(x, s[1..], MatchBefore);
    }
  }

  lemma {:induction false} SortBags(s: seq<Match>)
    ensures LeftBag(Sort(s, MatchBefore)) == LeftBag(s)
    ensures RightBag(Sort(s, MatchBefore)) == RightBag(s)
  {
    if s != [] {
      SortBags(s[1..]);
      InsertLeftBag(s[0], Sort(s[1..], MatchBefore));
      InsertRightBag(s[0], Sort(s[1..], MatchBefore));
    }
  }

  lemma {:induction false} LeftAccounted(kernel: Kernel, left: seq<Anchor>, right: seq<Anchor>, taken: seq<Candidate>)
    requires InRange(taken, left, right) && Matched(taken)
    ensures LeftBag(ToMatches(kernel, left, right, taken)) + UnusedBag(left, LeftEnds(taken), |left|) == multiset(left)
  {
    if taken == [] {
      NothingUsed(left, |left|);
      UnusedAsBag(left, {}, |left|);
      assert left[..|left|] == left;
      assert LeftEnds(taken) == {};
    } else {
      var c, rest := taken[0], taken[1..];
      LeftAccounted(kernel, left, right, rest);
      assert taken == [c] + rest;
      assert LeftEnds(taken) == LeftEnds(rest) + {c.left};
      UsingOneMore(left, LeftEnds(rest), c.left, |left|);
      assert ToMatches(kernel, left, right, taken)[1..] == ToMatches(kernel, left, right, rest);
    }
  }

  lemma {:induction false} RightAccounted(kernel: Kernel, left: seq<Anchor>, right: seq<Anchor>, taken: seq<Candidate>)
    requires InRange(taken, left, right) && Matched(taken)
    ensures RightBag(ToMatches(kernel, left, right, taken)) + UnusedBag(right, RightEnds(taken), |right|)
        == multiset(right)
  {
    if taken == [] {
      NothingUsed(right, |right|);
      UnusedAsBag(right, {}, |right|);
      assert right[..|right|] == right;
      assert RightEnds(taken) == {};
    } else {
      var c, rest := taken[0], taken[1..];
      RightAccounted(kernel, left, right, rest);
      assert taken == [c] + rest;
      assert RightEnds(taken) == RightEnds(rest) + {c.right};
      UsingOneMore(right, RightEnds(rest), c.right, |right|);
      assert ToMatches(kernel, left, right, taken)[1..] == ToMatches(kernel, left, right, rest);
    }
  }

  lemma SidesAccounted(kernel: Kernel, left: seq<Anchor>, right: seq<Anchor>, taken: seq<Candidate>)
    requires InRange(taken, left, right) && Matched(taken)
    ensures var matches := Sort(ToMatches(kernel, left, right, taken), MatchBefore);
            && LeftBag(matches) + multiset(Unused(left, LeftEnds(taken), |left|)) == multiset(left)
            && RightBag(matches) + multiset(Unused(right, RightEnds(taken), |right|)) == multiset(right)
  {
    SortBags(ToMatches(kernel, left, right, taken));
    LeftAccounted(kernel, left, right, taken);
    UnusedAsBag(left, LeftEnds(taken), |left|);
    RightAccounted(kernel, left, right, taken);
    UnusedAsBag(right, RightEnds(taken), |right|);
  }

  // Every anchor, with its multiplicity, is matched once or reported alone.
  lemma ComparisonConservesAnchors(kernel: Kernel, leftRevisionId: nat, rightRevisionId: nat, left: seq<Anchor>,
                                   right: seq<Anchor>, threshold: real)
    requires Compare(kernel, leftRevisionId, rightRevisionId, left, right, threshold).Ok?
    ensures var c := Compare(kernel, leftRevisionId, rightRevisionId, left, right, threshold).value;
            && LeftBag(c.matches) + multiset(c.leftOnly) == multiset(left)
            && RightBag(c.matches) + multiset(c.rightOnly) == multiset(right)
  {
    var taken := Taken(kernel, threshold, left, right);
    GreedyInvariants(Sort(Candidates(kernel, threshold, left, right, |left|), Precedes), {}, {});
    SidesAccounted(kernel, left, right, taken);
  }

  // The candidates of a comparison: pairs that share a bucket at the threshold.
  ghost predicate StableAmong(kernel: Kernel, threshold: real, left: seq<Anchor>, right: seq<Anchor>,
                              m: set<Candidate>) {
    && OneToOne(m)
    && (forall c :: c in m ==> IsCandidate(kernel, threshold, left, right, c))
    && (forall c :: IsCandidate(kernel, threshold, left, right, c) && c !in m ==> Blocked(c, m))
  }

  lemma StableAmongIsStable(kernel: Kernel, threshold: real, left: seq<Anchor>, right: seq<Anchor>, m: set<Candidate>)
    ensures StableAmong(kernel, threshold, left, right, m) <==>
            Stable(m, Members(Candidates(kernel, threshold, left, right, |left|)))
  {
    CandidatesExact(kernel, threshold, left, right, |left|);
    var all := Members(Candidates(kernel, threshold, left, right, |left|));
    assert forall c :: c in all <==> IsCandidate(kernel, threshold, left, right, c);
  }

  lemma TakenIsTheStableOne(kernel: Kernel, threshold: real, left: seq<Anchor>, right: seq<Anchor>, m: set<Candidate>)
    ensures StableAmong(kernel, threshold, left, right, m) <==> m == Members(Taken(kernel, threshold, left, right))
  {
    var candidates := Candidates(kernel, threshold, left, right, |left|);
    CandidatesExact(kernel, threshold, left, right, |left|);
    GreedyIsStable(candidates);
    StableAmongIsStable(kernel, threshold, left, right, m);
    if StableAmong(kernel, threshold, left, right, m) {
      StableMatchingIsUnique(candidates, m);
    }
  }

  lemma TakenIsHalfOptimal(kernel: Kernel, threshold: real, left: seq<Anchor>, right: seq<Anchor>,
                           other: seq<Candidate>)
    requires threshold >= 0.0
    requires Matched(other) && forall c :: c in other ==> IsCandidate(kernel, threshold, left, right, c)
    ensures Total(other) <= 2.0 * Total(Taken(kernel, threshold, left, right))
  {
    CandidatesExact(kernel, threshold, left, right, |left|);
    GreedyIsHalfOptimal(Candidates(kernel, threshold, left, right, |left|), other);
  }

  lemma MatchBeforeIsStrictWeak()
    ensures StrictWeakOrder(MatchBefore)
  {
  }

  lemma TakenIsReturned(kernel: Kernel, leftRevisionId: nat, rightRevisionId: nat, left: seq<Anchor>,
                        right: seq<Anchor>, threshold: real)
    requires Compare(kernel, leftRevisionId, rightRevisionId, left, right, threshold).Ok?
    ensures var taken := Taken(kernel, threshold, left, right);
            && InRange(taken, left, right) && Matched(taken)
            && multiset(Compare(kernel, leftRevisionId, rightRevisionId, left, right, threshold).value.matches)
            == multiset(ToMatches(kernel, left, right, taken))
  {
    var taken := Taken(kernel, threshold, left, right);
    GreedyInvariants(Sort(Candidates(kernel, threshold, left, right, |left|), Precedes), {}, {});
    MatchBeforeIsStrictWeak();
    SortIsSortedPermutation(ToMatches(kernel, left, right, taken), MatchBefore);
  }

  // The matches of a comparison are the one stable matching of its candidates,
  // and no matching of them has more than twice its total similarity.
  lemma ComparisonIsTheStableMatching(kernel: Kernel, leftRevisionId: nat, rightRevisionId: nat, left: seq<Anchor>,
                                      right: seq<Anchor>, threshold: real) returns (taken: seq<Candidate>)
    requires Compare(kernel, leftRevisionId, rightRevisionId, left, right, threshold).Ok?
    ensures InRange(taken, left, right) && Matched(taken)
    ensures multiset(Compare(kernel, leftRevisionId, rightRevisionId, left, right, threshold).value.matches)
         == multiset(ToMatches(kernel, left, right, taken))
    ensures forall m :: StableAmong(kernel, threshold, left, right, m) <==> m == Members(taken)
    ensures forall other: seq<Candidate> ::
              Matched(other) && (forall c :: c in other ==> IsCandidate(kernel, threshold, left, right, c)) ==>
                Total(other) <= 2.0 * Total(taken)
  {
    taken := Taken(kernel, threshold, left, right);
    TakenIsReturned(kernel, leftRevisionId, rightRevisionId, left, right, threshold);
    forall m
      ensures StableAmong(kernel, threshold, left, right, m) <==> m == Members(taken)
    {
      TakenIsTheStableOne(kernel, threshold, left, right, m);
    }
    forall other: seq<Candidate> |
      Matched(other) && (forall c :: c in other ==> IsCandidate(kernel, threshold, left, right, c))
      ensures Total(other) <= 2.0 * Total(taken)
    {
      TakenIsHalfOptimal(kernel, threshold, left, right, other);
    }
  }

  // A component that is not zero and has fewer than twelve stronger ones.
  ghost predicate Dominant(vector: seq<real>, bucket: nat) {
    bucket < |vector| && vector[bucket] != 0.0 && |Rivals(vector, bucket)| < 12
  }

  // With the kernel of an embedding, two anchors are compared exactly when some
  // component is dominant in both their vectors.
  lemma EmbeddedAnchorsShareIff(embed: string -> seq<real>, similarity: (string, string) -> real, round6: real -> real,
                                l: Anchor, r: Anchor)
    ensures Shares(EmbeddingKernel(embed, similarity, round6), l, r) <==>
            exists b :: Dominant(embed(l.text), b) && Dominant(embed(r.text), b)
  {
    forall b: nat
      ensures b in DominantBuckets(embed(l.text)) <==> Dominant(embed(l.text), b)
      ensures b in DominantBuckets(embed(r.text)) <==> Dominant(embed(r.text), b)
    {
      DominantBucketsExact(embed(l.text), b);
      DominantBucketsExact(embed(r.text), b);
    }
    var kernel := EmbeddingKernel(embed, similarity, round6);
    assert kernel.buckets(l.text) == DominantBuckets(embed(l.text));
    assert kernel.buckets(r.text) == DominantBuckets(embed(r.text));
    if b: nat :| Dominant(embed(l.text), b) && Dominant(embed(r.text), b) {
      assert b in kernel.buckets(l.text) && b in kernel.buckets(r.text);
    }
  }

  // ---------- The indexed loops

  // buckets maps every bucket to the right anchors, among the first n, that have it.
  ghost predicate Indexed(buckets: map<nat, set<nat>>, kernel: Kernel, right: seq<Anchor>, n: nat)
    requires n <= |right|
  {
    forall b, j: nat :: (b in buckets && j in buckets[b]) <==> j < n && b in kernel.buckets(right[j].text)
  }

  method IndexRight(kernel: Kernel, right: seq<Anchor>) returns (buckets: map<nat, set<nat>>)
    ensures Indexed(buckets, kernel, right, |right|)
  {
    buckets := map[];
    var rightIndex := 0;
    while rightIndex < |right|
      invariant 0 <= rightIndex <= |right|
      invariant Indexed(buckets, kernel, right, rightIndex)
    {
      var dominant := kernel.buckets(right[rightIndex].text);
      var k := 0;
      while k < |dominant|
        invariant 0 <= k <= |dominant|
        invariant forall b, j: nat :: (b in buckets && j in buckets[b]) <==>
                    || (j < rightIndex && b in kernel.buckets(right[j].text))
                    || (j == rightIndex && b in dominant[..k])
      {
        var bucket := dominant[k];
        buckets := buckets[bucket := (if bucket in buckets then buckets[bucket] else {}) + {rightIndex}];
        k := k + 1;
      }
      assert dominant[..k] == dominant;
      rightIndex := rightIndex + 1;
    }
  }

  method PossiblePartners(kernel: Kernel, l: Anchor, right: seq<Anchor>, buckets: map<nat, set<nat>>)
      returns (possible: set<nat>)
    requires Indexed(buckets, kernel, right, |right|)
    ensures forall j: nat :: j in possible <==> j < |right| && Shares(kernel, l, right[j])
  {
    possible := {};
    var dominant := kernel.buckets(l.text);
    var k := 0;
    while k < |dominant|
      invariant 0 <= k <= |dominant|
      invariant forall j: nat :: j in possible <==>
                  j < |right| && exists b :: b in dominant[..k] && b in kernel.buckets(right[j].text)
    {
      if dominant[k] in buckets {
        possible := possible + buckets[dominant[k]];
      }
      assert forall b :: b in dominant[..k + 1] <==> b in dominant[..k] || b == dominant[k];
      k := k + 1;
    }
    assert dominant[..k] == dominant;
  }

  // The work budget and the candidate list, row by row in index order.
  // The partners of one left anchor, with the pairs compared before it.
  method CollectRow(kernel: Kernel, threshold: real, left: seq<Anchor>, i: nat, right: seq<Anchor>,
                    possible: set<nat>, comparedBefore: nat) returns (comparedPairs: nat, candidates: seq<Candidate>)
    requires i < |left| && comparedBefore <= MAX_CANDIDATE_PAIRS
    requires forall j: nat :: j in possible <==> j < |right| && Shares(kernel, left[i], right[j])
    ensures comparedPairs > MAX_CANDIDATE_PAIRS <==>
            comparedBefore + SharingInRow(kernel, left[i], right, |right|) > MAX_CANDIDATE_PAIRS
    ensures comparedPairs <= MAX_CANDIDATE_PAIRS ==>
              && comparedPairs == comparedBefore + SharingInRow(kernel, left[i], right, |right|)
              && candidates == RowCandidates(kernel, threshold, left, i, right, |right|)
  {
    comparedPairs, candidates := comparedBefore, [];
    for j := 0 to |right|
      invariant comparedPairs == comparedBefore + SharingInRow(kernel, left[i], right, j) <= MAX_CANDIDATE_PAIRS
      invariant candidates == RowCandidates(kernel, threshold, left, i, right, j)
    {
      if j in possible {
        comparedPairs := comparedPairs + 1;
        if comparedPairs > MAX_CANDIDATE_PAIRS {
          SharingInRowGrows(kernel, left[i], right, j + 1, |right|);
          return;
        }
        var score := kernel.similarity(left[i].text, right[j].text);
        if score >= threshold {
          candidates := candidates + [Candidate(score, i, j)];
        }
      }
    }
  }

  lemma OneMoreRow(kernel: Kernel, threshold: real, left: seq<Anchor>, right: seq<Anchor>, i: nat)
    requires i < |left|
    ensures Candidates(kernel, threshold, left, right, i + 1)
         == Candidates(kernel, threshold, left, right, i) + RowCandidates(kernel, threshold, left, i, right, |right|)
    ensures SharingPairs(kernel, left, right, i + 1)
         == SharingPairs(kernel, left, right, i) + SharingInRow(kernel, left[i], right, |right|)
         <= SharingPairs(kernel, left, right, |left|)
  {
    SharingPairsGrow(kernel, left, right, i + 1, |left|);
  }

  method CollectCandidates(kernel: Kernel, threshold: real, left: seq<Anchor>, right: seq<Anchor>)
      returns (r: Result<seq<Candidate>, ComparisonError>)
    ensures r == if SharingPairs(kernel, left, right, |left|) > MAX_CANDIDATE_PAIRS then Err(WorkBudgetExceeded)
                 else Ok(Candidates(kernel, threshold, left, right, |left|))
  {
    var buckets := IndexRight(kernel, right);
    var candidates: seq<Candidate> := [];
    var comparedPairs := 0;
    for i := 0 to |left|
      invariant comparedPairs == SharingPairs(kernel, left, right, i) <= MAX_CANDIDATE_PAIRS
      invariant candidates == Candidates(kernel, threshold, left, right, i)
    {
      var possible := PossiblePartners(kernel, left[i], right, buckets);
      var row;
      comparedPairs, row := CollectRow(kernel, threshold, left, i, right, possible, comparedPairs);
      OneMoreRow(kernel, threshold, left, right, i);
      if comparedPairs > MAX_CANDIDATE_PAIRS {
        return Err(WorkBudgetExceeded);
      }
      candidates := candidates + row;
    }
    return Ok(candidates);
  }

  lemma {:induction false} SharingInRowGrows(kernel: Kernel, l: Anchor, right: seq<Anchor>, j: nat, k: nat)
    requires j <= k <= |right|
    ensures SharingInRow(kernel, l, right, j) <= SharingInRow(kernel, l, right, k)
    decreases k
  {
    if j < k {
      SharingInRowGrows(kernel, l, right, j, k - 1);
    }
  }

  lemma {:induction false} SharingPairsGrow(kernel: Kernel, left: seq<Anchor>, right: seq<Anchor>, i: nat, k: nat)
    requires i <= k <= |left|
    ensures SharingPairs(kernel, left, right, i) <= SharingPairs(kernel, left, right, k)
    decreases k
  {
    if i < k {
      SharingPairsGrow(kernel, left, right, i, k - 1);
    }
  }

  // The greedy pass stands before candidate k.
  ghost predicate TakenBefore(ranked: seq<Candidate>, k: nat, taken: seq<Candidate>, usedLeft: set<nat>,
                              usedRight: set<nat>) {
    && k <= |ranked| && usedLeft == LeftEnds(taken) && usedRight == RightEnds(taken)
    && Greedy(ranked, {}, {}) == taken + Greedy(ranked[k..], usedLeft, usedRight)
  }

  lemma TakeNext(ranked: seq<Candidate>, k: nat, taken: seq<Candidate>, usedLeft: set<nat>, usedRight: set<nat>)
    requires k < |ranked| && TakenBefore(ranked, k, taken, usedLeft, usedRight)
    ensures var c := ranked[k];
            if c.left in usedLeft || c.right in usedRight then TakenBefore(ranked, k + 1, taken, usedLeft, usedRight)
            else TakenBefore(ranked, k + 1, taken + [c], usedLeft + {c.left}, usedRight + {c.right})
  {
    var c := ranked[k];
    assert ranked[k..][1..] == ranked[k + 1..];
    if !(c.left in usedLeft || c.right in usedRight) {
      assert LeftEnds(taken + [c]) == LeftEnds(taken) + {c.left};
      assert RightEnds(taken + [c]) == RightEnds(taken) + {c.right};
    }
  }

  // The greedy pass over the ranked candidates.
  method TakeGreedily(kernel: Kernel, left: seq<Anchor>, right: seq<Anchor>, ranked: seq<Candidate>)
      returns (usedLeft: set<nat>, usedRight: set<nat>, matches: seq<Match>)
    requires InRange(ranked, left, right)
    ensures var taken := Greedy(ranked, {}, {});
            && usedLeft == LeftEnds(taken) && usedRight == RightEnds(taken)
            && InRange(taken, left, right) && matches == ToMatches(kernel, left, right, taken)
  {
    usedLeft, usedRight, matches := {}, {}, [];
    ghost var taken: seq<Candidate> := [];
    var k := 0;
    while k < |ranked|
      invariant 0 <= k <= |ranked|
      invariant TakenBefore(ranked, k, taken, usedLeft, usedRight)
      invariant InRange(taken, left, right) && matches == ToMatches(kernel, left, right, taken)
    {
      var c := ranked[k];
      TakeNext(ranked, k, taken, usedLeft, usedRight);
      if !(c.left in usedLeft || c.right in usedRight) {
        usedLeft := usedLeft + {c.left};
        usedRight := usedRight + {c.right};
        taken := taken + [c];
        matches := matches + [ToMatch(kernel, left, right, c)];
      }
      k := k + 1;
    }
    assert ranked[k..] == [] && taken == Greedy(ranked, {}, {});
  }

  method CompareAnchorSets(kernel: Kernel, leftRevisionId: nat, rightRevisionId: nat, left: seq<Anchor>,
                           right: seq<Anchor>, threshold: real) returns (r: Result<Comparison, ComparisonError>)
    ensures r == Compare(kernel, leftRevisionId, rightRevisionId, left, right, threshold)
  {
    var identity := IdentityError(leftRevisionId, rightRevisionId, threshold);
    if identity.Some? {
      return Err(identity.value);
    }
    if !AllOf(left, leftRevisionId) {
      return Err(LeftRevisionMismatch);
    }
    if !AllOf(right, rightRevisionId) {
      return Err(RightRevisionMismatch);
    }
    if |left| > MAX_COMPARISON_ANCHORS || |right| > MAX_COMPARISON_ANCHORS {
      return Err(AnchorLimitExceeded);
    }
    var collected := CollectCandidates(kernel, threshold, left, right);
    if collected.Err? {
      return Err(collected.error);
    }
    RankedInRange(kernel, threshold, left, right);
    var usedLeft, usedRight, matches := TakeGreedily(kernel, left, right, Sort(collected.value, Precedes));
    return Ok(Comparison(leftRevisionId, rightRevisionId, Sort(matches, MatchBefore),
                         Unused(left, usedLeft, |left|), Unused(right, usedRight, |right|)));
  }
}
