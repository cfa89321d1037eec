// Choosing the anchors a report is written from (automatic_report_suggestions.py):
// one anchor of each document per round, until the limit is reached.
module ReportAnchors {
  import opened Wrappers

  datatype Anchor = Anchor(anchorId: nat, text: string)

  type Document = seq<Anchor>

  datatype LimitError = LimitsMustBePositive

  // The anchor of a document taken in a round.
  datatype Place = Place(round: nat, document: nat)

  predicate Exists(documents: seq<Document>, limit: nat, p: Place) {
    p.round < limit && p.document < |documents| && p.round < |documents[p.document]|
  }

  predicate Earlier(p: Place, q: Place) {
    p.round < q.round || (p.round == q.round && p.document < q.document)
  }

  function NonEmpty(documents: seq<Document>): seq<Document> {
    if documents == [] then []
    else
      var last := documents[|documents| - 1];
      NonEmpty(documents[..|documents| - 1]) + if last == [] then [] else [last]
  }

  function LongestDocument(documents: seq<Document>): nat {
    if documents == [] then 0
    else
      var rest, last := LongestDocument(documents[..|documents| - 1]), |documents[|documents| - 1]|;
      if last > rest then last else rest
  }

  // The places of one round in the first documents, and of the first rounds.
  function Round(documents: seq<Document>, round: nat, upto: nat): seq<Place>
    requires upto <= |documents|
  {
    if upto == 0 then []
    else Round(documents, round, upto - 1) + if round < |documents[upto - 1]| then [Place(round, upto - 1)] else []
  }

  function Rounds(documents: seq<Document>, limit: nat): seq<Place> {
    if limit == 0 then [] else Rounds(documents, limit - 1) + Round(documents, limit - 1, |documents|)
  }

  // selected holds the anchors of the first places.
  ghost predicate TakenFrom(documents: seq<Document>, places: seq<Place>, selected: seq<Anchor>) {
    && |selected| <= |places|
    && forall k :: 0 <= k < |selected| ==>
         && places[k].document < |documents| && places[k].round < |documents[places[k].document]|
         && selected[k] == documents[places[k].document][places[k].round]
  }

  // ---------- The order of the rounds

  ghost predicate InOrder(places: seq<Place>) {
    forall i, j :: 0 <= i < j < |places| ==> Earlier(places[i], places[j])
  }

  lemma {:induction false} RoundIsComplete(documents: seq<Document>, round: nat, upto: nat, p: Place)
    requires upto <= |documents|
    ensures p in Round(documents, round, upto) <==>
            p.round == round && p.document < upto && round < |documents[p.document]|
  {
    if upto > 0 {
      RoundIsComplete(documents, round, upto - 1, p);
    }
  }

  lemma {:induction false} RoundIsInOrder(documents: seq<Document>, round: nat, upto: nat)
    requires upto <= |documents|
    ensures InOrder(Round(documents, round, upto))
  {
    if upto > 0 {
      RoundIsInOrder(documents, round, upto - 1);
      var before := Round(documents, round, upto - 1);
      forall k | 0 <= k < |before|
        ensures Earlier(before[k], Place(round, upto - 1))
      {
        RoundIsComplete(documents, round, upto - 1, before[k]);
      }
    }
  }

  lemma RoundIsExact(documents: seq<Document>, round: nat)
    ensures InOrder(Round(documents, round, |documents|))
    ensures forall p :: p in Round(documents, round, |documents|) <==>
              p.round == round && Exists(documents, round + 1, p)
  {
    RoundIsInOrder(documents, round, |documents|);
    forall p
      ensures p in Round(documents, round, |documents|) <==> p.round == round && Exists(documents, round + 1, p)
    {
      RoundIsComplete(documents, round, |documents|, p);
    }
  }

  // Places of earlier rounds, and then those of one more.
  lemma OneMoreRound(before: seq<Place>, last: seq<Place>, round: nat)
    requires InOrder(before) && InOrder(last)
    requires (forall p :: p in before ==> p.round < round) && forall p :: p in last ==> p.round == round
    ensures InOrder(before + last) && forall p :: p in before + last <==> p in before || p in last
  {
    assert forall k :: 0 <= k < |before| ==> before[k] in before;
    assert forall k :: 0 <= k < |last| ==> last[k] in last;
  }

  // The rounds hold every place within the limit, in order and so once.
  lemma {:induction false} RoundsAreExact(documents: seq<Document>, limit: nat)
    ensures InOrder(Rounds(documents, limit))
    ensures forall p :: p in Rounds(documents, limit) <==> Exists(documents, limit, p)
  {
    if limit > 0 {
      RoundsAreExact(documents, limit - 1);
      RoundIsExact(documents, limit - 1);
      OneMoreRound(Rounds(documents, limit - 1), Round(documents, limit - 1, |documents|), limit - 1);
    }
  }

  // Selection never jumps a place: whatever precedes a selected one is selected.
  lemma NoPlaceIsSkipped(documents: seq<Document>, limit: nat, n: nat, p: Place, q: Place)
    requires n <= |Rounds(documents, limit)| && q in Rounds(documents, limit)[..n]
    requires Exists(documents, limit, p) && Earlier(p, q)
    ensures p in Rounds(documents, limit)[..n]
  {
    RoundsAreExact(documents, limit);
    var all := Rounds(documents, limit);
    var i :| 0 <= i < |all| && all[i] == p;
    var j :| 0 <= j < n && all[j] == q;
    assert all[i] == all[..n][i];
  }

  // No document is favoured: before one gives its anchor of a round, every
  // other has given all it has of the rounds before.
  lemma RoundsAreFair(documents: seq<Document>, limit: nat, n: nat, q: Place, document: nat, round: nat)
    requires n <= |Rounds(documents, limit)| && q in Rounds(documents, limit)[..n]
    requires round < q.round && document < |documents| && round < |documents[document]|
    ensures Place(round, document) in Rounds(documents, limit)[..n]
  {
    RoundsAreExact(documents, limit);
    var all := Rounds(documents, limit);
    assert forall k :: 0 <= k < n ==> all[..n][k] in all;
    NoPlaceIsSkipped(documents, limit, n, Place(round, document), q);
  }

  lemma {:induction false} LongestIsLongest(documents: seq<Document>, d: nat)
    requires d < |documents|
    ensures |documents[d]| <= LongestDocument(documents)
  {
    if d < |documents| - 1 {
      LongestIsLongest(documents[..|documents| - 1], d);
    }
  }

  // Without a limit per document the rounds reach every anchor.
  lemma UnlimitedRoundsReachAll(documents: seq<Document>, document: nat, round: nat)
    requires document < |documents| && round < |documents[document]|
    ensures Place(round, document) in Rounds(documents, LongestDocument(documents))
  {
    RoundsAreExact(documents, LongestDocument(documents));
    LongestIsLongest(documents, document);
  }

  // ---------- The loop

  lemma {:induction false} RoundPrefix(documents: seq<Document>, round: nat, d: nat, upto: nat)
    requires d <= upto <= |documents|
    ensures Round(documents, round, d) <= Round(documents, round, upto)
  {
    if d < upto {
      RoundPrefix(documents, round, d, upto - 1);
    }
  }

  lemma {:induction false} RoundsPrefix(documents: seq<Document>, round: nat, d: nat, limit: nat)
    requires round < limit && d <= |documents|
    ensures Rounds(documents, round) + Round(documents, round, d) <= Rounds(documents, limit)
  {
    if round == limit - 1 {
      RoundPrefix(documents, round, d, |documents|);
    } else {
      RoundsPrefix(documents, round, d, limit - 1);
    }
  }

  // The loop stands before document d of a round: everything earlier is taken.
  ghost predicate Before(documents: seq<Document>, limit: nat, round: nat, d: nat, selected: seq<Anchor>) {
    && d <= |documents| && TakenFrom(documents, Rounds(documents, limit), selected)
    && |selected| == |Rounds(documents, round)| + |Round(documents, round, d)|
  }

  lemma TakeOne(documents: seq<Document>, limit: nat, round: nat, d: nat, selected: seq<Anchor>)
    requires Before(documents, limit, round, d, selected)
    requires round < limit && d < |documents| && round < |documents[d]|
    ensures Before(documents, limit, round, d + 1, selected + [documents[d][round]])
  {
    var upto := Rounds(documents, round) + Round(documents, round, d + 1);
    RoundsPrefix(documents, round, d + 1, limit);
    assert upto[|selected|] == Place(round, d);
    assert Rounds(documents, limit)[|selected|] == upto[|selected|];
  }

  function Min(a: nat, b: nat): nat {
    if a < b then a else b
  }

  function PerDocumentLimit(documents: seq<Document>, maxPerDocument: Option<int>): int {
    match maxPerDocument
    case None => LongestDocument(documents)
    case Some(limit) => limit
  }

  // ---------- What is selected, in terms of all documents

  // Where the documents that are not empty stand.
  ghost predicate StandAt(documents: seq<Document>, nonempty: seq<Document>, at: seq<nat>) {
    && |at| == |nonempty|
    && (forall k :: 0 <= k < |at| ==> at[k] < |documents| && nonempty[k] == documents[at[k]])
    && (forall j, k :: 0 <= j < k < |at| ==> at[j] < at[k])
    && (forall d :: 0 <= d < |documents| && |documents[d]| > 0 ==> d in at)
  }

  lemma StandsOneMore(documents: seq<Document>, last: Document, nonempty: seq<Document>, at: seq<nat>)
    requires StandAt(documents, nonempty, at)
    ensures last == [] ==> StandAt(documents + [last], nonempty, at)
    ensures StandAt(documents + [last], nonempty + [last], at + [|documents|])
  {
    var all := documents + [last];
    assert forall d :: 0 <= d < |documents| ==> all[d] == documents[d];
    assert all[|documents|] == last;
    assert forall d :: d in at ==> d in at + [|documents|];
  }

  lemma {:induction false} NonEmptyStands(documents: seq<Document>) returns (at: seq<nat>)
    ensures StandAt(documents, NonEmpty(documents), at)
  {
    if documents == [] {
      at := [];
    } else {
      var init, last := documents[..|documents| - 1], documents[|documents| - 1];
      at := NonEmptyStands(init);
      StandsOneMore(init, last, NonEmpty(init), at);
      assert documents == init + [last];
      if last != [] {
        at := at + [|init|];
      } else {
        assert NonEmpty(init) + [] == NonEmpty(init);
      }
    }
  }

  ghost predicate Offered(documents: seq<Document>, maxPerDocument: Option<int>, p: Place) {
    && p.document < |documents| && p.round < |documents[p.document]|
    && (maxPerDocument.Some? ==> p.round < maxPerDocument.value)
  }

  // The anchors at the first places offered, by round and then by document: all of
  // them, or as many as are asked for.
  ghost predicate SelectedAt(documents: seq<Document>, maxAnchors: int, maxPerDocument: Option<int>,
                             places: seq<Place>, selected: seq<Anchor>) {
    && |places| == |selected| <= maxAnchors && InOrder(places)
    && (forall k :: 0 <= k < |places| ==>
          && Offered(documents, maxPerDocument, places[k])
          && selected[k] == documents[places[k].document][places[k].round])
    && (forall p :: Offered(documents, maxPerDocument, p) && p !in places ==>
          |places| == maxAnchors && forall k :: 0 <= k < |places| ==> Earlier(places[k], p))
  }

  // A place of the documents that are not empty, among all documents.
  function Moved(p: Place, at: seq<nat>): Place
    requires p.document < |at|
  {
    Place(p.round, at[p.document])
  }

  lemma OfferedExists(documents: seq<Document>, maxPerDocument: Option<int>, nonempty: seq<Document>, at: seq<nat>,
                      p: Place) returns (q: Place)
    requires StandAt(documents, nonempty, at) && (maxPerDocument.Some? ==> maxPerDocument.value >= 1)
    requires Offered(documents, maxPerDocument, p)
    ensures Exists(nonempty, PerDocumentLimit(nonempty, maxPerDocument), q) && Moved(q, at) == p
  {
    var d :| 0 <= d < |at| && at[d] == p.document;
    q := Place(p.round, d);
    LongestIsLongest(nonempty, d);
  }

  lemma ExistsOffered(documents: seq<Document>, maxPerDocument: Option<int>, nonempty: seq<Document>, at: seq<nat>,
                      q: Place)
    requires StandAt(documents, nonempty, at) && (maxPerDocument.Some? ==> maxPerDocument.value >= 1)
    requires Exists(nonempty, PerDocumentLimit(nonempty, maxPerDocument), q)
    ensures Offered(documents, maxPerDocument, Moved(q, at))
    ensures documents[at[q.document]][q.round] == nonempty[q.document][q.round]
  {
  }

  // The first places of the rounds, among all documents.
  ghost predicate MovedFrom(rounds: seq<Place>, at: seq<nat>, places: seq<Place>) {
    && |places| <= |rounds|
    && forall k :: 0 <= k < |places| ==> rounds[k].document < |at| && places[k] == Moved(rounds[k], at)
  }

  lemma MovedInOrder(rounds: seq<Place>, at: seq<nat>, places: seq<Place>)
    requires InOrder(rounds) && MovedFrom(rounds, at, places)
    requires forall j, k :: 0 <= j < k < |at| ==> at[j] < at[k]
    ensures InOrder(places)
  {
  }

  // A place of the rounds that was not taken comes after those that were.
  lemma UntakenIsLater(rounds: seq<Place>, places: seq<Place>, at: seq<nat>, n: nat, q: Place)
    requires InOrder(rounds) && |places| <= |rounds| && |at| == n
    requires forall j, k :: 0 <= j < k < |at| ==> at[j] < at[k]
    requires forall k :: 0 <= k < |rounds| ==> rounds[k].document < n
    requires MovedFrom(rounds, at, places)
    requires q in rounds && Moved(q, at) !in places
    ensures |places| < |rounds| && forall k :: 0 <= k < |places| ==> Earlier(places[k], Moved(q, at))
  {
    assert forall k :: 0 <= k < |places| ==> places[k] in places;
    var i :| 0 <= i < |rounds| && rounds[i] == q;
  }

  lemma SelectionIsMoved(documents: seq<Document>, maxAnchors: int, maxPerDocument: Option<int>,
                         nonempty: seq<Document>, at: seq<nat>, rounds: seq<Place>, selected: seq<Anchor>,
                         places: seq<Place>)
    requires maxAnchors >= 1 && (maxPerDocument.Some? ==> maxPerDocument.value >= 1)
    requires StandAt(documents, nonempty, at) && InOrder(rounds)
    requires forall p :: p in rounds <==> Exists(nonempty, PerDocumentLimit(nonempty, maxPerDocument), p)
    requires |selected| == Min(maxAnchors, |rounds|) && TakenFrom(nonempty, rounds, selected)
    requires MovedFrom(rounds, at, places) && |places| == |selected|
    ensures SelectedAt(documents, maxAnchors, maxPerDocument, places, selected)
  {
    MovedInOrder(rounds, at, places);
    forall k | 0 <= k < |places|
      ensures Offered(documents, maxPerDocument, places[k])
          && selected[k] == documents[places[k].document][places[k].round]
    {
      assert rounds[k] in rounds;
      ExistsOffered(documents, maxPerDocument, nonempty, at, rounds[k]);
    }
    forall p | Offered(documents, maxPerDocument, p) && p !in places
      ensures |places| == maxAnchors && forall k :: 0 <= k < |places| ==> Earlier(places[k], p)
    {
      var q := OfferedExists(documents, maxPerDocument, nonempty, at, p);
      assert forall k :: 0 <= k < |rounds| ==> rounds[k] in rounds;
      UntakenIsLater(rounds, places, at, |nonempty|, q);
    }
  }

  lemma SelectionIsByRounds(documents: seq<Document>, maxAnchors: int, maxPerDocument: Option<int>,
                            selected: seq<Anchor>) returns (places: seq<Place>)
    requires maxAnchors >= 1 && (maxPerDocument.Some? ==> maxPerDocument.value >= 1)
    requires var nonempty := NonEmpty(documents);
             var rounds := Rounds(nonempty, PerDocumentLimit(nonempty, maxPerDocument));
             |selected| == Min(maxAnchors, |rounds|) && TakenFrom(nonempty, rounds, selected)
    ensures SelectedAt(documents, maxAnchors, maxPerDocument, places, selected)
  {
    var nonempty := NonEmpty(documents);
    var rounds := Rounds(nonempty, PerDocumentLimit(nonempty, maxPerDocument));
    var at := NonEmptyStands(documents);
    RoundsAreExact(nonempty, PerDocumentLimit(nonempty, maxPerDocument));
    places := seq(|selected|, k requires 0 <= k < |selected| => Moved(rounds[k], at));
    SelectionIsMoved(documents, maxAnchors, maxPerDocument, nonempty, at, rounds, selected, places);
  }

  // The first maxAnchors places of the rounds over the non-empty documents.
  method SelectReportAnchors(documents: seq<Document>, maxAnchors: int, maxPerDocument: Option<int>)
    returns (r: Result<seq<Anchor>, LimitError>)
    ensures r.Ok? <==> maxAnchors >= 1 && (maxPerDocument.Some? ==> maxPerDocument.value >= 1)
    ensures r.Ok? ==> exists places :: SelectedAt(documents, maxAnchors, maxPerDocument, places, r.value)
    ensures r.Ok? ==>
      var nonempty := NonEmpty(documents);
      var places := Rounds(nonempty, PerDocumentLimit(nonempty, maxPerDocument));
      |r.value| == Min(maxAnchors, |places|) && TakenFrom(nonempty, places, r.value)
  {
    if maxAnchors < 1 || (maxPerDocument.Some? && maxPerDocument.value < 1) {
      return Err(LimitsMustBePositive);
    }
    var nonempty := NonEmpty(documents);
    var limit := PerDocumentLimit(nonempty, maxPerDocument);
    var selected: seq<Anchor> := [];
    for round := 0 to limit
      invariant Before(nonempty, limit, round, 0, selected) && |selected| < maxAnchors
    {
      for d := 0 to |nonempty|
        invariant Before(nonempty, limit, round, d, selected) && |selected| < maxAnchors
      {
        if round >= |nonempty[d]| {
          continue;
        }
        TakeOne(nonempty, limit, round, d, selected);
        selected := selected + [nonempty[d][round]];
        if |selected| >= maxAnchors {
          ghost var places := SelectionIsByRounds(documents, maxAnchors, maxPerDocument, selected);
          return Ok(selected);
        }
      }
      assert Rounds(nonempty, round + 1) == Rounds(nonempty, round) + Round(nonempty, round, |nonempty|);
    }
    ghost var places := SelectionIsByRounds(documents, maxAnchors, maxPerDocument, selected);
    r := Ok(selected);
  }
}
