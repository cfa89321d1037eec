// Greedy one-to-one matching over scored candidate pairs, as
// compare_anchor_sets performs it, and what that matching is worth.
module Matching {
  import opened Sorting

  datatype Candidate = Candidate(score: real, left: nat, right: nat)

  // The sort key (-score, left index, right index).
  predicate Precedes(a: Candidate, b: Candidate) {
    || a.score > b.score
    || (a.score == b.score && (a.left < b.left || (a.left == b.left && a.right < b.right)))
  }

  predicate Conflict(a: Candidate, b: Candidate) {
    a.left == b.left || a.right == b.right
  }

  lemma PrecedesIsStrictWeak()
    ensures StrictWeakOrder(Precedes)
  {
  }

  // The loop over the ranked candidates, from any two sets of used indices.
  function Greedy(ranked: seq<Candidate>, usedLeft: set<nat>, usedRight: set<nat>): seq<Candidate> {
    if ranked == [] then []
    else
      var c := ranked[0];
      if c.left in usedLeft || c.right in usedRight then Greedy(ranked[1..], usedLeft, usedRight)
      else [c] + Greedy(ranked[1..], usedLeft + {c.left}, usedRight + {c.right})
  }

  ghost predicate OneToOne(matching: set<Candidate>) {
    forall a, b :: a in matching && b in matching && a != b ==> !Conflict(a, b)
  }

  // Every candidate left out loses to a better matched one that shares an end.
  ghost predicate Stable(matching: set<Candidate>, candidates: set<Candidate>) {
    && matching <= candidates
    && OneToOne(matching)
    && forall c :: c in candidates && c !in matching ==> Blocked(c, matching)
  }

  ghost predicate Blocked(c: Candidate, matching: set<Candidate>) {
    exists m :: m in matching && Conflict(m, c) && Precedes(m, c)
  }

  function Members(s: seq<Candidate>): set<Candidate> {
    set c | c in s
  }

  lemma {:induction false} GreedyInvariants(ranked: seq<Candidate>, usedLeft: set<nat>, usedRight: set<nat>)
    ensures var taken := Greedy(ranked, usedLeft, usedRight);
            && (forall m :: m in taken ==> m in ranked && m.left !in usedLeft && m.right !in usedRight)
            && (forall i, j :: 0 <= i < j < |taken| ==> !Conflict(taken[i], taken[j]))
  {
    if ranked != [] {
      var c := ranked[0];
      if c.left in usedLeft || c.right in usedRight {
        GreedyInvariants(ranked[1..], usedLeft, usedRight);
      } else {
        var rest := Greedy(ranked[1..], usedLeft + {c.left}, usedRight + {c.right});
        GreedyInvariants(ranked[1..], usedLeft + {c.left}, usedRight + {c.right});
        forall m | m in rest
          ensures !Conflict(c, m)
        {
        }
      }
    }
  }

  lemma {:induction false} GreedyBlocks(ranked: seq<Candidate>, usedLeft: set<nat>, usedRight: set<nat>, k: nat)
    requires Sorted(ranked, Precedes) && Distinct(ranked) && k < |ranked|
    requires ranked[k] !in Greedy(ranked, usedLeft, usedRight)
    ensures || ranked[k].left in usedLeft || ranked[k].right in usedRight
            || Blocked(ranked[k], Members(Greedy(ranked, usedLeft, usedRight)))
  {
    var c := ranked[0];
    var taken := Greedy(ranked, usedLeft, usedRight);
    if k > 0 {
      if c.left in usedLeft || c.right in usedRight {
        GreedyBlocks(ranked[1..], usedLeft, usedRight, k - 1);
      } else {
        GreedyBlocks(ranked[1..], usedLeft + {c.left}, usedRight + {c.right}, k - 1);
        var rest := Greedy(ranked[1..], usedLeft + {c.left}, usedRight + {c.right});
        assert taken == [c] + rest;
        assert c in taken && forall m :: m in rest ==> m in taken;
        assert !Precedes(ranked[k], c) && ranked[k] != c;
        if ranked[k].left == c.left || ranked[k].right == c.right {
          assert c in Members(taken) && Conflict(c, ranked[k]) && Precedes(c, ranked[k]);
        }
      }
    }
  }

  // The greedy pass over the ranked candidates is a stable matching of them.
  lemma GreedyIsStable(candidates: seq<Candidate>)
    requires Distinct(candidates)
    ensures Stable(Members(Greedy(Sort(candidates, Precedes), {}, {})), Members(candidates))
  {
    var ranked := Sort(candidates, Precedes);
    PrecedesIsStrictWeak();
    SortIsSortedPermutation(candidates, Precedes);
    SortKeepsMembers(candidates, Precedes);
    SortKeepsDistinct(candidates, Precedes);
    GreedyInvariants(ranked, {}, {});
    var matching := Members(Greedy(ranked, {}, {}));
    forall c | c in candidates && c !in matching
      ensures Blocked(c, matching)
    {
      assert c in ranked;
      var k :| 0 <= k < |ranked| && ranked[k] == c;
      GreedyBlocks(ranked, {}, {}, k);
    }
  }

  lemma BlockerIsEarlier(ranked: seq<Candidate>, matching: set<Candidate>, k: nat)
    requires Sorted(ranked, Precedes) && k < |ranked|
    requires Stable(matching, Members(ranked)) && ranked[k] !in matching
    ensures exists i :: 0 <= i < k && ranked[i] in matching && Conflict(ranked[i], ranked[k])
  {
    assert ranked[k] in Members(ranked);
    var b :| b in matching && Conflict(b, ranked[k]) && Precedes(b, ranked[k]);
    assert b in Members(ranked);
    var i :| 0 <= i < |ranked| && ranked[i] == b;
  }

  lemma {:induction false} StableMatchingsAgree(ranked: seq<Candidate>, m: set<Candidate>, n: set<Candidate>, k: nat)
    requires Sorted(ranked, Precedes) && k < |ranked|
    requires Stable(m, Members(ranked)) && Stable(n, Members(ranked))
    ensures ranked[k] in m <==> ranked[k] in n
    decreases k
  {
    var c := ranked[k];
    forall i: nat | i < k
      ensures ranked[i] in m <==> ranked[i] in n
    {
      StableMatchingsAgree(ranked, m, n, i);
    }
    if c !in n {
      BlockerIsEarlier(ranked, n, k);
    }
    if c !in m {
      BlockerIsEarlier(ranked, m, k);
    }
  }

  // There is only one stable matching, so the greedy pass finds it.
  lemma StableMatchingIsUnique(candidates: seq<Candidate>, matching: set<Candidate>)
    requires Distinct(candidates)
    requires Stable(matching, Members(candidates))
    ensures matching == Members(Greedy(Sort(candidates, Precedes), {}, {}))
  {
    var ranked := Sort(candidates, Precedes);
    var taken := Members(Greedy(ranked, {}, {}));
    GreedyIsStable(candidates);
    PrecedesIsStrictWeak();
    SortIsSortedPermutation(candidates, Precedes);
    SortKeepsMembers(candidates, Precedes);
    assert Members(ranked) == Members(candidates);
    forall c | c in matching || c in taken
      ensures c in matching && c in taken
    {
      assert c in Members(ranked);
      var k :| 0 <= k < |ranked| && ranked[k] == c;
      StableMatchingsAgree(ranked, matching, taken, k);
    }
  }

  function Total(s: seq<Candidate>): real {
    if s == [] then 0.0 else s[0].score + Total(s[1..])
  }

  // A matching given as a list: no two entries share an end.
  ghost predicate Matched(s: seq<Candidate>) {
    forall i, j :: 0 <= i < j < |s| ==> !Conflict(s[i], s[j])
  }

  function WithoutEndsOf(s: seq<Candidate>, c: Candidate): seq<Candidate> {
    if s == [] then []
    else if Conflict(s[0], c) then WithoutEndsOf(s[1..], c)
    else [s[0]] + WithoutEndsOf(s[1..], c)
  }

  lemma {:induction false} WithoutEndsKeepsMatched(s: seq<Candidate>, c: Candidate)
    requires Matched(s)
    ensures Matched(WithoutEndsOf(s, c))
    ensures forall m :: m in WithoutEndsOf(s, c) <==> m in s && !Conflict(m, c)
  {
    if s != [] {
      WithoutEndsKeepsMatched(s[1..], c);
      assert s == [s[0]] + s[1..];
      var rest := WithoutEndsOf(s[1..], c);
      forall j | 0 <= j < |rest|
        ensures !Conflict(s[0], rest[j])
      {
        assert rest[j] in rest;
        var k :| 0 <= k < |s[1..]| && s[1..][k] == rest[j];
        assert s[k + 1] == rest[j];
      }
    }
  }

  // A matching loses at most one edge at each end of c.
  lemma {:induction false} EndsCarryAtMostTwo(s: seq<Candidate>, c: Candidate)
    requires Matched(s) && c.score >= 0.0
    requires forall m :: m in s ==> m.score <= c.score
    ensures var ends := (if exists m :: m in s && m.left == c.left then c.score else 0.0)
                      + (if exists m :: m in s && m.right == c.right then c.score else 0.0);
            Total(s) <= Total(WithoutEndsOf(s, c)) + ends
  {
    if s != [] {
      assert s == [s[0]] + s[1..];
      assert s[0] in s;
      EndsCarryAtMostTwo(s[1..], c);
      if s[0].left == c.left {
        assert forall m :: m in s[1..] ==> m.left != c.left;
      }
      if s[0].right == c.right {
        assert forall m :: m in s[1..] ==> m.right != c.right;
      }
      assert forall m :: m in s[1..] ==> m in s;
    }
  }

  lemma {:induction false} GreedyIsHalfOptimalFrom(ranked: seq<Candidate>, usedLeft: set<nat>, usedRight: set<nat>,
                                                   other: seq<Candidate>)
    requires Sorted(ranked, Precedes) && Matched(other)
    requires forall c :: c in ranked ==> c.score >= 0.0
    requires forall m :: m in other ==> m in ranked && m.left !in usedLeft && m.right !in usedRight
    ensures Total(other) <= 2.0 * Total(Greedy(ranked, usedLeft, usedRight))
  {
    if ranked == [] {
      assert forall i :: 0 <= i < |other| ==> other[i] in other;
    } else {
      var c := ranked[0];
      assert ranked == [c] + ranked[1..];
      if c.left in usedLeft || c.right in usedRight {
        GreedyIsHalfOptimalFrom(ranked[1..], usedLeft, usedRight, other);
      } else {
        forall m | m in other
          ensures m.score <= c.score
        {
          var k :| 0 <= k < |ranked| && ranked[k] == m;
        }
        EndsCarryAtMostTwo(other, c);
        WithoutEndsKeepsMatched(other, c);
        var rest := WithoutEndsOf(other, c);
        GreedyIsHalfOptimalFrom(ranked[1..], usedLeft + {c.left}, usedRight + {c.right}, rest);
        var taken := Greedy(ranked[1..], usedLeft + {c.left}, usedRight + {c.right});
        assert ([c] + taken)[1..] == taken;
      }
    }
  }

  // No matching of the candidates is worth more than twice the greedy one.
  lemma GreedyIsHalfOptimal(candidates: seq<Candidate>, other: seq<Candidate>)
    requires forall c :: c in candidates ==> c.score >= 0.0
    requires Matched(other) && forall m :: m in other ==> m in candidates
    ensures Total(other) <= 2.0 * Total(Greedy(Sort(candidates, Precedes), {}, {}))
  {
    PrecedesIsStrictWeak();
    SortIsSortedPermutation(candidates, Precedes);
    SortKeepsMembers(candidates, Precedes);
    GreedyIsHalfOptimalFrom(Sort(candidates, Precedes), {}, {}, other);
  }
}
