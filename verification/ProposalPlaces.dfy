// Exactly which proposals a snapshot gets and in which order
// (automatic_report_suggestions.py): by the places of the comparisons where
// something is asked for.
module ProposalPlaces {
  import opened Wrappers
  import opened DocumentComparison
  import opened AutomaticProposals

  // ---------- Places

  // A place where something may be asked for: a comparison, its matches (0), its
  // left (1) or right anchors (2) that it did not match, and an index there.
  datatype Place = Place(comparison: nat, part: nat, index: nat)

  predicate Earlier(a: Place, b: Place) {
    || a.comparison < b.comparison
    || (a.comparison == b.comparison && (a.part < b.part || (a.part == b.part && a.index < b.index)))
  }

  function Lone(anchors: seq<Anchor>, matched: set<nat>, index: nat): Option<Proposal> {
    if index < |anchors| && anchors[index].anchorId !in matched then Some(Proposal(Add, anchors[index], None)) else None
  }

  function AskedAt(comparisons: seq<Comparison>, matched: set<nat>, place: Place): Option<Proposal> {
    if place.comparison >= |comparisons| then None
    else
      var c := comparisons[place.comparison];
      if place.part == 0 && place.index < |c.matches| then
        var m := c.matches[place.index];
        match m.relation
        case Duplicate => Some(Proposal(Remove, m.right, Some(m.left.anchorId)))
        case Similar => Some(Proposal(Edit, m.right, Some(m.left.anchorId)))
      else if place.part == 1 then Lone(c.leftOnly, matched, place.index)
      else if place.part == 2 then Lone(c.rightOnly, matched, place.index)
      else None
  }

  ghost predicate Increasing(places: seq<Place>) {
    forall i, j :: 0 <= i < j < |places| ==> Earlier(places[i], places[j])
  }

  // The places list all that is asked for, in order.
  ghost predicate Lists(comparisons: seq<Comparison>, matched: set<nat>, places: seq<Place>, requests: seq<Proposal>) {
    && |places| == |requests| && Increasing(places)
    && (forall i :: 0 <= i < |places| ==> AskedAt(comparisons, matched, places[i]) == Some(requests[i]))
    && (forall q :: AskedAt(comparisons, matched, q).Some? ==> q in places)
  }

  // ---------- All that is asked for, in order

  lemma {:induction false} AdditionsHavePlaces(anchors: seq<Anchor>, matched: set<nat>, at: nat, part: nat)
    returns (places: seq<Place>)
    ensures |places| == |Additions(anchors, matched)| && Increasing(places)
    ensures forall i :: 0 <= i < |places| ==>
              && places[i].comparison == at && places[i].part == part
              && Lone(anchors, matched, places[i].index) == Some(Additions(anchors, matched)[i])
    ensures forall k :: Lone(anchors, matched, k).Some? ==> Place(at, part, k) in places
  {
    if anchors == [] {
      places := [];
    } else {
      var init, last := anchors[..|anchors| - 1], anchors[|anchors| - 1];
      var before := AdditionsHavePlaces(init, matched, at, part);
      assert forall k: nat :: k < |init| ==> Lone(anchors, matched, k) == Lone(init, matched, k);
      assert forall i :: 0 <= i < |before| ==> before[i].index < |init|;
      places := before + if last.anchorId in matched then [] else [Place(at, part, |init|)];
      forall k: nat | Lone(anchors, matched, k).Some?
        ensures Place(at, part, k) in places
      {
        if k < |init| {
          assert Place(at, part, k) in before;
        } else {
          assert places[|before|] == Place(at, part, k);
        }
      }
    }
  }

  // What one comparison asks for.
  function RequestsOf(c: Comparison, matched: set<nat>): seq<Proposal> {
    Edits(c.matches) + (Additions(c.leftOnly, matched) + Additions(c.rightOnly, matched))
  }

  lemma ComparisonHasPlaces(comparisons: seq<Comparison>, matched: set<nat>, at: nat) returns (places: seq<Place>)
    requires at < |comparisons|
    ensures |places| == |RequestsOf(comparisons[at], matched)| && Increasing(places)
    ensures forall i :: 0 <= i < |places| ==>
              && places[i].comparison == at
              && AskedAt(comparisons, matched, places[i]) == Some(RequestsOf(comparisons[at], matched)[i])
    ensures forall q: Place :: q.comparison == at && AskedAt(comparisons, matched, q).Some? ==> q in places
  {
    var c := comparisons[at];
    var edits := seq(|c.matches|, k requires 0 <= k < |c.matches| => Place(at, 0, k));
    var lefts := AdditionsHavePlaces(c.leftOnly, matched, at, 1);
    var rights := AdditionsHavePlaces(c.rightOnly, matched, at, 2);
    places := edits + (lefts + rights);
    EditsAreAsked(comparisons, matched, at, edits);
    forall q: Place | q.comparison == at && AskedAt(comparisons, matched, q).Some?
      ensures q in places
    {
      assert q.part == 0 ==> edits[q.index] == q;
      assert q.part == 1 ==> Place(at, 1, q.index) in lefts;
      assert q.part == 2 ==> Place(at, 2, q.index) in rights;
    }
  }

  lemma EditsAreAsked(comparisons: seq<Comparison>, matched: set<nat>, at: nat, places: seq<Place>)
    requires at < |comparisons| && |places| == |comparisons[at].matches|
    requires forall k :: 0 <= k < |places| ==> places[k] == Place(at, 0, k)
    ensures forall k :: 0 <= k < |places| ==>
              AskedAt(comparisons, matched, places[k]) == Some(Edits(comparisons[at].matches)[k])
  {
  }

  // All places of the first comparisons, and then all of the next one.
  lemma PlacesJoin(comparisons: seq<Comparison>, matched: set<nat>, at: nat, before: seq<Place>, last: seq<Place>,
                   requests: seq<Proposal>)
    requires at == |comparisons| - 1 && Lists(comparisons[..at], matched, before, requests)
    requires forall i :: 0 <= i < |before| ==> before[i].comparison < at
    requires Increasing(last) && |last| == |RequestsOf(comparisons[at], matched)|
    requires forall i :: 0 <= i < |last| ==>
               && last[i].comparison == at
               && AskedAt(comparisons, matched, last[i]) == Some(RequestsOf(comparisons[at], matched)[i])
    requires forall q: Place :: q.comparison == at && AskedAt(comparisons, matched, q).Some? ==> q in last
    ensures Lists(comparisons, matched, before + last, requests + RequestsOf(comparisons[at], matched))
  {
    var places := before + last;
    assert forall q: Place :: q.comparison < at ==>
                                AskedAt(comparisons, matched, q) == AskedAt(comparisons[..at], matched, q);
    assert forall i, j :: 0 <= i < |before| && 0 <= j < |last| ==> Earlier(before[i], last[j]);
    forall q | AskedAt(comparisons, matched, q).Some?
      ensures q in places
    {
      assert q.comparison < at ==> q in before;
      assert q.comparison == at ==> q in last;
    }
  }

  lemma {:induction false} RequestsHavePlaces(comparisons: seq<Comparison>, matched: set<nat>)
    returns (places: seq<Place>)
    ensures Lists(comparisons, matched, places, Requests(comparisons, matched))
    ensures forall i :: 0 <= i < |places| ==> places[i].comparison < |comparisons|
  {
    if comparisons == [] {
      places := [];
    } else {
      var init := comparisons[..|comparisons| - 1];
      var before := RequestsHavePlaces(init, matched);
      var last := ComparisonHasPlaces(comparisons, matched, |init|);
      places := before + last;
      PlacesJoin(comparisons, matched, |init|, before, last, Requests(init, matched));
    }
  }

  // ---------- What is left out

  ghost predicate Ascending(kept: seq<nat>, n: nat) {
    && (forall k :: 0 <= k < |kept| ==> kept[k] < n)
    && (forall j, k :: 0 <= j < k < |kept| ==> kept[j] < kept[k])
  }

  predicate SameTarget(p: Proposal, q: Proposal) {
    p.kind == q.kind && p.anchor.anchorId == q.anchor.anchorId
  }

  // A request that is left out repeats an earlier one that is kept, or comes
  // after the hundredth that is kept.
  ghost predicate LeftOut(requests: seq<Proposal>, kept: seq<nat>, i: nat)
    requires i < |requests| && forall k :: 0 <= k < |kept| ==> kept[k] < |requests|
  {
    || (exists k :: 0 <= k < |kept| && kept[k] < i && SameTarget(requests[kept[k]], requests[i]))
    || (|kept| == 100 && kept[99] < i)
  }

  ghost predicate Keeps(requests: seq<Proposal>, kept: seq<nat>, proposals: seq<Proposal>) {
    && Ascending(kept, |requests|) && |kept| == |proposals| <= 100
    && (forall k :: 0 <= k < |kept| ==> proposals[k] == requests[kept[k]])
    && (forall j, k :: 0 <= j < k < |kept| ==> !SameTarget(proposals[j], proposals[k]))
    && (forall i :: 0 <= i < |requests| && i !in kept ==> LeftOut(requests, kept, i))
  }

  // What was left out stays left out, whatever comes after.
  lemma StaysLeftOut(requests: seq<Proposal>, p: Proposal, kept: seq<nat>, later: seq<nat>, i: nat)
    requires Ascending(kept, |requests|) && Ascending(kept + later, |requests| + 1)
    requires i < |requests| && LeftOut(requests, kept, i) && (|kept| == 100 ==> later == [])
    ensures LeftOut(requests + [p], kept + later, i)
  {
    var all, more := requests + [p], kept + later;
    if k :| 0 <= k < |kept| && kept[k] < i && SameTarget(requests[kept[k]], requests[i]) {
      assert more[k] == kept[k] && SameTarget(all[more[k]], all[i]);
    }
  }

  lemma SeenIsLeftOut(requests: seq<Proposal>, p: Proposal, kept: seq<nat>, proposals: seq<Proposal>)
    requires Keeps(requests, kept, proposals) && Seen(proposals, p)
    ensures LeftOut(requests + [p], kept, |requests|)
  {
    var q :| q in proposals && q.kind == p.kind && q.anchor.anchorId == p.anchor.anchorId;
    var k :| 0 <= k < |proposals| && proposals[k] == q;
    assert SameTarget((requests + [p])[kept[k]], (requests + [p])[|requests|]);
  }

  // The last request is left out.
  lemma KeepsTheSame(requests: seq<Proposal>, p: Proposal, kept: seq<nat>, proposals: seq<Proposal>)
    requires Keeps(requests, kept, proposals) && (Seen(proposals, p) || |proposals| == 100)
    ensures Keeps(requests + [p], kept, proposals)
  {
    var all := requests + [p];
    forall i | 0 <= i < |all| && i !in kept
      ensures LeftOut(all, kept, i)
    {
      if i < |requests| {
        StaysLeftOut(requests, p, kept, [], i);
        assert kept + [] == kept;
      } else if Seen(proposals, p) {
        SeenIsLeftOut(requests, p, kept, proposals);
      }
    }
  }

  // The last request is kept.
  lemma KeepsTheLast(requests: seq<Proposal>, p: Proposal, kept: seq<nat>, proposals: seq<Proposal>)
    requires Keeps(requests, kept, proposals) && !Seen(proposals, p) && |proposals| < 100
    ensures Keeps(requests + [p], kept + [|requests|], proposals + [p])
  {
    var all, more := requests + [p], kept + [|requests|];
    assert forall k :: 0 <= k < |proposals| ==> proposals[k] in proposals;
    forall i | 0 <= i < |all| && i !in more
      ensures LeftOut(all, more, i)
    {
      assert more[|kept|] == |requests| && i != |requests|;
      assert i !in kept;
      StaysLeftOut(requests, p, kept, [|requests|], i);
    }
  }

  lemma KeepsOneMore(requests: seq<Proposal>, p: Proposal, kept: seq<nat>, proposals: seq<Proposal>)
    returns (more: seq<nat>)
    requires Keeps(requests, kept, proposals)
    ensures Keeps(requests + [p], more, Append(proposals, p))
  {
    if Seen(proposals, p) || |proposals| >= 100 {
      KeepsTheSame(requests, p, kept, proposals);
      more := kept;
    } else {
      KeepsTheLast(requests, p, kept, proposals);
      more := kept + [|requests|];
    }
  }

  lemma {:induction false} ProposalsAreKept(requests: seq<Proposal>) returns (kept: seq<nat>)
    ensures Keeps(requests, kept, AppendAll([], requests))
  {
    if requests == [] {
      kept := [];
    } else {
      var init, p := requests[..|requests| - 1], requests[|requests| - 1];
      var before := ProposalsAreKept(init);
      assert requests == init + [p];
      kept := KeepsOneMore(init, p, before, AppendAll([], init));
    }
  }

  // ---------- Main result

  // A place that asks for something is not among the places of the proposals:
  // an earlier one asks for the same kind and anchor, or a hundred come before.
  ghost predicate Skipped(places: seq<Place>, proposals: seq<Proposal>, q: Place, asked: Proposal)
    requires |places| == |proposals|
  {
    || (exists k :: 0 <= k < |places| && Earlier(places[k], q) && SameTarget(proposals[k], asked))
    || (|places| == 100 && Earlier(places[99], q))
  }

  lemma LeftOutIsSkipped(all: seq<Place>, requests: seq<Proposal>, kept: seq<nat>, places: seq<Place>,
                         proposals: seq<Proposal>, i: nat)
    requires |all| == |requests| && Increasing(all) && Keeps(requests, kept, proposals)
    requires |places| == |kept| && forall k :: 0 <= k < |kept| ==> places[k] == all[kept[k]]
    requires i < |requests| && i !in kept
    ensures Skipped(places, proposals, all[i], requests[i])
  {
    assert LeftOut(requests, kept, i);
    if k :| 0 <= k < |kept| && kept[k] < i && SameTarget(requests[kept[k]], requests[i]) {
      assert Earlier(places[k], all[i]) && SameTarget(proposals[k], requests[i]);
    }
  }

  // The proposals of a snapshot are what is asked for at increasing places, no
  // kind and anchor twice; and every place that asks for something is among them
  // or skipped for one of the two reasons.
  lemma ProposalsAreThoseAsked(comparisons: seq<Comparison>) returns (places: seq<Place>)
    ensures var matched, proposals := MatchedIds(comparisons),
                                      AppendAll([], Requests(comparisons, MatchedIds(comparisons)));
            && |places| == |proposals| <= 100 && Increasing(places)
            && (forall k :: 0 <= k < |places| ==> AskedAt(comparisons, matched, places[k]) == Some(proposals[k]))
            && (forall j, k :: 0 <= j < k < |places| ==> !SameTarget(proposals[j], proposals[k]))
            && (forall q :: AskedAt(comparisons, matched, q).Some? && q !in places ==>
                  Skipped(places, proposals, q, AskedAt(comparisons, matched, q).value))
    ensures forall id :: id in MatchedIds(comparisons) <==> InSomeMatch(comparisons, id)
  {
    var matched := MatchedIds(comparisons);
    var requests := Requests(comparisons, matched);
    var proposals := AppendAll([], requests);
    var all := RequestsHavePlaces(comparisons, matched);
    var kept := ProposalsAreKept(requests);
    places := seq(|kept|, k requires 0 <= k < |kept| => all[kept[k]]);
    forall q | AskedAt(comparisons, matched, q).Some? && q !in places
      ensures Skipped(places, proposals, q, AskedAt(comparisons, matched, q).value)
    {
      var i :| 0 <= i < |all| && all[i] == q;
      assert forall k :: 0 <= k < |kept| ==> places[k] == all[kept[k]] && places[k] in places;
      assert i !in kept;
      LeftOutIsSkipped(all, requests, kept, places, proposals, i);
    }
    forall id
      ensures id in matched <==> InSomeMatch(comparisons, id)
    {
      MatchedIdsExact(comparisons, id);
    }
  }
}
