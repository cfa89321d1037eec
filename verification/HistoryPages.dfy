// Keyset pages of the activity ledger (activity_repository.py) and the client
// loop that follows their cursors (queries.ts).
module HistoryPages {
  import opened Wrappers
  import opened ActivityPagination

  const MAX_PAGE: int := 100

  datatype Event = Event(id: seq<Byte>, sequence: nat)

  datatype Page = Page(items: seq<Event>, nextCursor: Option<string>)

  datatype PageError = BadCursor | CursorUnavailable

  datatype CollectError = LoadFailed(error: PageError) | RepeatedCursor

  // ---------- Server

  predicate Shown(e: Event, visible: Event -> bool, before: Option<nat>) {
    visible(e) && (before.None? || e.sequence < before.value)
  }

  // Visible events older than the bound, newest first.
  function NewestFirst(ledger: seq<Event>, visible: Event -> bool, before: Option<nat>): seq<Event> {
    if ledger == [] then []
    else
      var last, rest := ledger[|ledger| - 1], NewestFirst(ledger[..|ledger| - 1], visible, before);
      if Shown(last, visible, before) then [last] + rest else rest
  }

  function FindVisible(ledger: seq<Event>, visible: Event -> bool, id: seq<Byte>): Option<Event> {
    if ledger == [] then None
    else if ledger[0].id == id && visible(ledger[0]) then Some(ledger[0])
    else FindVisible(ledger[1..], visible, id)
  }

  function BoundedLimit(limit: int): nat {
    var capped := if limit < MAX_PAGE then limit else MAX_PAGE;
    if capped < 1 then 1 else capped
  }

  function PageOf(rows: seq<Event>, limit: nat): Page
    requires limit >= 1
  {
    if |rows| > limit then Page(rows[..limit], Some(EncodeEventCursor(rows[limit - 1].id)))
    else Page(rows, None)
  }

  // One page of the ledger as it stands when the page is read.
  function ListAuthorized(ledger: seq<Event>, visible: Event -> bool, cursor: Option<string>,
                          limit: int): Result<Page, PageError> {
    match cursor
    case None => Ok(PageOf(NewestFirst(ledger, visible, None), BoundedLimit(limit)))
    case Some(text) =>
      match DecodeEventCursor(text)
      case Err(_) => Err(BadCursor)
      case Ok(id) =>
        match FindVisible(ledger, visible, id)
        case None => Err(CursorUnavailable)
        case Some(anchor) => Ok(PageOf(NewestFirst(ledger, visible, Some(anchor.sequence)), BoundedLimit(limit)))
  }

  // Ids are UUIDs and unique; sequence numbers grow along the ledger.
  ghost predicate WellFormed(ledger: seq<Event>) {
    && (forall i :: 0 <= i < |ledger| ==> |ledger[i].id| == 16)
    && (forall i, j :: 0 <= i < j < |ledger| ==>
          ledger[i].sequence < ledger[j].sequence && ledger[i].id != ledger[j].id)
  }

  lemma {:induction false} NewestFirstMembers(ledger: seq<Event>, visible: Event -> bool, before: Option<nat>)
    ensures forall e :: e in NewestFirst(ledger, visible, before) <==> e in ledger && Shown(e, visible, before)
  {
    if ledger != [] {
      NewestFirstMembers(ledger[..|ledger| - 1], visible, before);
      assert ledger == ledger[..|ledger| - 1] + [ledger[|ledger| - 1]];
    }
  }

  ghost predicate Descending(rows: seq<Event>) {
    forall i, j :: 0 <= i < j < |rows| ==> rows[i].sequence > rows[j].sequence
  }

  lemma LastIsNewest(ledger: seq<Event>, e: Event)
    requires WellFormed(ledger) && ledger != [] && e in ledger[..|ledger| - 1]
    ensures e.sequence < ledger[|ledger| - 1].sequence
  {
    var i :| 0 <= i < |ledger| - 1 && ledger[i] == e;
  }

  lemma {:induction false} NewestFirstDescends(ledger: seq<Event>, visible: Event -> bool, before: Option<nat>)
    requires WellFormed(ledger)
    ensures Descending(NewestFirst(ledger, visible, before))
  {
    if ledger != [] {
      var rest := NewestFirst(ledger[..|ledger| - 1], visible, before);
      NewestFirstDescends(ledger[..|ledger| - 1], visible, before);
      NewestFirstMembers(ledger[..|ledger| - 1], visible, before);
      forall j | 0 <= j < |rest|
        ensures rest[j].sequence < ledger[|ledger| - 1].sequence
      {
        assert rest[j] in rest;
        LastIsNewest(ledger, rest[j]);
      }
    }
  }

  // Events appended later do not reach below an existing sequence number.
  lemma {:induction false} AppendsKeepOlder(ledger: seq<Event>, more: seq<Event>, visible: Event -> bool, before: nat)
    requires ledger <= more
    requires forall k :: |ledger| <= k < |more| ==> more[k].sequence >= before
    ensures NewestFirst(more, visible, Some(before)) == NewestFirst(ledger, visible, Some(before))
    decreases |more|
  {
    if |more| > |ledger| {
      AppendsKeepOlder(ledger, more[..|more| - 1], visible, before);
    } else {
      assert more == ledger;
    }
  }

  lemma {:induction false} FindsAnchor(ledger: seq<Event>, visible: Event -> bool, e: Event)
    requires WellFormed(ledger) && e in ledger && visible(e)
    ensures FindVisible(ledger, visible, e.id) == Some(e)
  {
    if ledger[0] != e {
      var k :| 0 <= k < |ledger| && ledger[k] == e;
      assert ledger[1..][k - 1] == e;
      FindsAnchor(ledger[1..], visible, e);
    }
  }

  // A page holds the newest shown events, at most n, and a cursor to its last one
  // exactly when older ones are shown.
  ghost predicate HoldsNewest(page: Page, ledger: seq<Event>, visible: Event -> bool, before: Option<nat>, n: nat) {
    && |page.items| <= n && Descending(page.items)
    && (forall e :: e in page.items ==> e in ledger && visible(e) && (before.Some? ==> e.sequence < before.value))
    && (forall e :: e in ledger && visible(e) && (before.Some? ==> e.sequence < before.value) && e !in page.items ==>
          && |page.items| == n && page.nextCursor.Some?
          && forall kept :: kept in page.items ==> e.sequence < kept.sequence)
    && (page.nextCursor.Some? ==>
          && page.items != [] && page.nextCursor.value == EncodeEventCursor(page.items[|page.items| - 1].id)
          && exists e :: e in ledger && visible(e) && (before.Some? ==> e.sequence < before.value) && e !in page.items)
  }

  // What a request for a page is answered: with no cursor the newest events; with
  // one, those older than the visible event it names, or an error that says
  // whether it names none or is no cursor. A limit counts between 1 and 100.
  lemma PageIsExact(ledger: seq<Event>, visible: Event -> bool, cursor: Option<string>, limit: int)
    requires WellFormed(ledger)
    ensures var r, n := ListAuthorized(ledger, visible, cursor, limit),
                        if limit < 1 then 1 else if limit > 100 then 100 else limit;
            if cursor.None? then r.Ok? && HoldsNewest(r.value, ledger, visible, None, n)
            else if DecodeEventCursor(cursor.value).Err? then r == Err(BadCursor)
            else
              var id := DecodeEventCursor(cursor.value).value;
              && ((exists e :: e in ledger && e.id == id && visible(e)) <==> r.Ok?)
              && (r.Err? ==> r == Err(CursorUnavailable))
              && forall e :: e in ledger && e.id == id && visible(e) ==>
                   HoldsNewest(r.value, ledger, visible, Some(e.sequence), n)
  {
    RowsArePage(ledger, visible, None, BoundedLimit(limit));
    if cursor.Some? && DecodeEventCursor(cursor.value).Ok? {
      var id := DecodeEventCursor(cursor.value).value;
      FoundIsVisible(ledger, visible, id);
      forall e | e in ledger && e.id == id && visible(e)
        ensures FindVisible(ledger, visible, id) == Some(e)
      {
        FindsAnchor(ledger, visible, e);
      }
      if FindVisible(ledger, visible, id).Some? {
        RowsArePage(ledger, visible, Some(FindVisible(ledger, visible, id).value.sequence), BoundedLimit(limit));
      }
    }
  }

  lemma {:induction false} FoundIsVisible(ledger: seq<Event>, visible: Event -> bool, id: seq<Byte>)
    ensures var found := FindVisible(ledger, visible, id);
            found.Some? ==> found.value in ledger && found.value.id == id && visible(found.value)
  {
    if ledger != [] {
      FoundIsVisible(ledger[1..], visible, id);
    }
  }

  // The page is the first n rows.
  ghost predicate CutOf(page: Page, rows: seq<Event>, n: nat) {
    && |page.items| <= n && page.items <= rows
    && (forall e :: e in rows && e !in page.items ==>
          && |page.items| == n && page.nextCursor.Some?
          && forall kept :: kept in page.items ==> e.sequence < kept.sequence)
    && (page.nextCursor.Some? ==>
          && page.items != [] && page.nextCursor.value == EncodeEventCursor(page.items[|page.items| - 1].id)
          && exists e :: e in rows && e !in page.items)
  }

  lemma PagesCut(rows: seq<Event>, n: nat)
    requires Descending(rows) && n >= 1
    ensures CutOf(PageOf(rows, n), rows, n)
  {
    var page := PageOf(rows, n);
    forall e, kept | e in rows && e !in page.items && kept in page.items
      ensures e.sequence < kept.sequence
    {
      LaterRowsAreOlder(rows, page.items, e, kept);
    }
    if |rows| > n {
      NextRowIsCut(rows, n);
    }
  }

  lemma RowsArePage(ledger: seq<Event>, visible: Event -> bool, before: Option<nat>, n: nat)
    requires WellFormed(ledger) && n >= 1
    ensures HoldsNewest(PageOf(NewestFirst(ledger, visible, before), n), ledger, visible, before, n)
  {
    var rows := NewestFirst(ledger, visible, before);
    NewestFirstMembers(ledger, visible, before);
    NewestFirstDescends(ledger, visible, before);
    PagesCut(rows, n);
    CutHoldsNewest(PageOf(rows, n), rows, ledger, visible, before, n);
  }

  lemma CutHoldsNewest(page: Page, rows: seq<Event>, ledger: seq<Event>, visible: Event -> bool, before: Option<nat>,
                       n: nat)
    requires CutOf(page, rows, n) && Descending(rows)
    requires forall e :: e in rows <==> e in ledger && Shown(e, visible, before)
    ensures HoldsNewest(page, ledger, visible, before, n)
  {
    assert forall e :: e in page.items ==> e in rows;
  }

  lemma NextRowIsCut(rows: seq<Event>, n: nat)
    requires Descending(rows) && 1 <= n < |rows|
    ensures rows[n] in rows && rows[n] !in rows[..n] && rows[..n] != [] && rows[..n][n - 1] == rows[n - 1]
  {
  }

  lemma LaterRowsAreOlder(rows: seq<Event>, items: seq<Event>, e: Event, kept: Event)
    requires Descending(rows) && items <= rows && e in rows && e !in items && kept in items
    ensures e.sequence < kept.sequence
  {
    var i :| 0 <= i < |rows| && rows[i] == e;
    var j :| 0 <= j < |items| && items[j] == kept;
  }

  // The rows below row k of a page are the rows older than its event.
  lemma {:induction false} RowsBelow(ledger: seq<Event>, visible: Event -> bool, before: Option<nat>, k: nat)
    requires WellFormed(ledger)
    requires k < |NewestFirst(ledger, visible, before)|
    ensures var rows := NewestFirst(ledger, visible, before);
            NewestFirst(ledger, visible, Some(rows[k].sequence)) == rows[k + 1..]
  {
    var last, rest := ledger[|ledger| - 1], NewestFirst(ledger[..|ledger| - 1], visible, before);
    var taken := if Shown(last, visible, before) then 1 else 0;
    if taken == 1 && k == 0 {
      AllOlder(ledger[..|ledger| - 1], visible, before, last.sequence);
    } else {
      var e := rest[k - taken];
      NewestFirstMembers(ledger[..|ledger| - 1], visible, before);
      assert e in rest;
      LastIsNewest(ledger, e);
      RowsBelow(ledger[..|ledger| - 1], visible, before, k - taken);
    }
  }

  lemma {:induction false} AllOlder(ledger: seq<Event>, visible: Event -> bool, before: Option<nat>, bound: nat)
    requires forall i :: 0 <= i < |ledger| ==> ledger[i].sequence < bound
    requires before.None? || bound < before.value
    ensures NewestFirst(ledger, visible, Some(bound)) == NewestFirst(ledger, visible, before)
  {
    if ledger != [] {
      AllOlder(ledger[..|ledger| - 1], visible, before, bound);
    }
  }

  // ---------- Client

  // The ledger as the n-th page load sees it: nothing is lost or reordered
  // between loads, and new events have larger sequence numbers.
  ghost predicate Growing(ledgers: nat -> seq<Event>) {
    forall n: nat :: WellFormed(ledgers(n)) && ledgers(n) <= ledgers(n + 1)
  }

  lemma {:induction false} GrownBetween(ledgers: nat -> seq<Event>, m: nat, n: nat)
    requires Growing(ledgers) && m <= n
    ensures ledgers(m) <= ledgers(n)
    decreases n
  {
    if m < n {
      GrownBetween(ledgers, m, n - 1);
      assert ledgers(n - 1) <= ledgers(n - 1 + 1);
    }
  }

  // A page read later at the cursor of an event shows the rows older than that
  // event, as the first load would have.
  lemma LaterPage(ledgers: nat -> seq<Event>, visible: Event -> bool, first: nat, now: nat, anchor: Event, limit: int)
    requires Growing(ledgers) && first <= now
    requires anchor in ledgers(first) && visible(anchor)
    ensures ListAuthorized(ledgers(now), visible, Some(EncodeEventCursor(anchor.id)), limit)
         == Ok(PageOf(NewestFirst(ledgers(first), visible, Some(anchor.sequence)), BoundedLimit(limit)))
  {
    var early, late := ledgers(first), ledgers(now);
    GrownBetween(ledgers, first, now);
    var k :| 0 <= k < |early| && early[k] == anchor;
    assert late[k] == anchor;
    EventCursorRoundTrip(anchor.id);
    FindsAnchor(late, visible, anchor);
    AppendsKeepOlder(early, late, visible, anchor.sequence);
  }

  ghost predicate IsCursorOf(cursor: Option<string>, anchor: Option<Event>) {
    match anchor
    case None => cursor.None?
    case Some(e) => cursor == Some(EncodeEventCursor(e.id))
  }

  ghost function Bound(anchor: Option<Event>): Option<nat> {
    if anchor.None? then None else Some(anchor.value.sequence)
  }

  // Every cursor followed so far is that of a row at or above the anchor.
  ghost predicate SeenAbove(seen: set<string>, ledger: seq<Event>, anchor: Option<Event>) {
    forall c :: c in seen ==>
      && anchor.Some?
      && exists e :: e in ledger && e.sequence >= anchor.value.sequence && c == EncodeEventCursor(e.id)
  }

  // Between two loads: the cursor is that of the anchor, left is what lies
  // below it, and no cursor below it has been followed.
  ghost predicate Following(ledger: seq<Event>, visible: Event -> bool, seen: set<string>, cursor: Option<string>,
                            at: Option<Event>, left: seq<Event>) {
    && (at.Some? ==> at.value in ledger && visible(at.value))
    && IsCursorOf(cursor, at)
    && SeenAbove(seen, ledger, at)
    && left == NewestFirst(ledger, visible, Bound(at))
  }

  // A load sees the page that the ledger of the first load has at the anchor.
  lemma LoadShowsFirstLedger(ledgers: nat -> seq<Event>, visible: Event -> bool, first: nat, load: nat,
                             seen: set<string>, cursor: Option<string>, at: Option<Event>, left: seq<Event>, limit: int)
    requires Growing(ledgers) && first <= load && (at.None? ==> load == first)
    requires Following(ledgers(first), visible, seen, cursor, at, left)
    ensures ListAuthorized(ledgers(load), visible, cursor, limit) == Ok(PageOf(left, BoundedLimit(limit)))
  {
    if at.Some? {
      LaterPage(ledgers, visible, first, load, at.value, limit);
    }
  }

  // The loop has collected items, a prefix of all, and stands at a cursor below
  // which the rest of all lies.
  ghost predicate CollectingAt(ledgers: nat -> seq<Event>, visible: Event -> bool, first: nat, all: seq<Event>,
                               items: seq<Event>, seen: set<string>, cursor: Option<string>, load: nat,
                               at: Option<Event>) {
    && items <= all && first <= load && (at.None? ==> load == first)
    && Following(ledgers(first), visible, seen, cursor, at, all[|items|..])
  }

  ghost predicate Collecting(ledgers: nat -> seq<Event>, visible: Event -> bool, first: nat, all: seq<Event>,
                             items: seq<Event>, seen: set<string>, cursor: Option<string>, load: nat) {
    exists at :: CollectingAt(ledgers, visible, first, all, items, seen, cursor, load, at)
  }

  lemma CollectingStarts(ledgers: nat -> seq<Event>, visible: Event -> bool, first: nat, anchor: Option<Event>,
                         seen: set<string>, cursor: Option<string>)
    requires IsCursorOf(cursor, anchor) && (anchor.Some? ==> anchor.value in ledgers(first) && visible(anchor.value))
    requires seen == if cursor.Some? && cursor.value != "" then {cursor.value} else {}
    ensures Collecting(ledgers, visible, first, NewestFirst(ledgers(first), visible, Bound(anchor)), [],
                       seen, cursor, first)
  {
    assert CollectingAt(ledgers, visible, first, NewestFirst(ledgers(first), visible, Bound(anchor)), [], seen, cursor,
                        first, anchor);
  }

  // What one round of the loop does with the page it loads.
  lemma CollectingGoesOn(ledgers: nat -> seq<Event>, visible: Event -> bool, first: nat, all: seq<Event>,
                         items: seq<Event>, seen: set<string>, cursor: Option<string>, load: nat, limit: int)
    requires Growing(ledgers) && Collecting(ledgers, visible, first, all, items, seen, cursor, load)
    ensures items <= all
    ensures var page := PageOf(all[|items|..], BoundedLimit(limit));
            && ListAuthorized(ledgers(load), visible, cursor, limit) == Ok(page)
            && items + page.items <= all
            && (page.nextCursor.None? ==> items + page.items == all)
            && (page.nextCursor.Some? ==>
                  && page.nextCursor.value != "" && page.nextCursor.value !in seen && page.items != []
                  && Collecting(ledgers, visible, first, all, items + page.items, seen + {page.nextCursor.value},
                                page.nextCursor, load + 1))
  {
    var at :| CollectingAt(ledgers, visible, first, all, items, seen, cursor, load, at);
    var left := all[|items|..];
    var page := PageOf(left, BoundedLimit(limit));
    LoadShowsFirstLedger(ledgers, visible, first, load, seen, cursor, at, left, limit);
    NextAnchor(ledgers(first), visible, seen, cursor, at, left, BoundedLimit(limit), page);
    if page.nextCursor.Some? {
      RestMovesOn(all, items, page.items, left[BoundedLimit(limit)..]);
      assert CollectingAt(ledgers, visible, first, all, items + page.items, seen + {page.nextCursor.value},
                          page.nextCursor, load + 1, Some(left[BoundedLimit(limit) - 1]));
    } else {
      RestMovesOn(all, items, page.items, []);
    }
  }

  lemma RestMovesOn(all: seq<Event>, items: seq<Event>, page: seq<Event>, rest: seq<Event>)
    requires items <= all && all[|items|..] == page + rest
    ensures items + page <= all && all[|items + page|..] == rest
  {
    assert all == items + page + rest;
  }

  // One request of the loop, at the cursor it has reached.
  method LoadPage(ledgers: nat -> seq<Event>, visible: Event -> bool, limit: int, cursor: Option<string>, load: nat,
                  ghost first: nat, ghost all: seq<Event>, ghost items: seq<Event>, ghost seen: set<string>)
      returns (r: Result<Page, PageError>)
    requires Growing(ledgers) && Collecting(ledgers, visible, first, all, items, seen, cursor, load)
    ensures items <= all && r == Ok(PageOf(all[|items|..], BoundedLimit(limit)))
  {
    CollectingGoesOn(ledgers, visible, first, all, items, seen, cursor, load, limit);
    r := ListAuthorized(ledgers(load), visible, cursor, limit);
  }

  // Follow next cursors until there is none. anchor is the event whose cursor
  // the first load is given, if any; the load number starts at first.
  method CollectCursorPages(ledgers: nat -> seq<Event>, visible: Event -> bool, limit: int,
                            initialCursor: Option<string>, first: nat, ghost anchor: Option<Event>)
      returns (r: Result<seq<Event>, CollectError>)
    requires Growing(ledgers)
    requires IsCursorOf(initialCursor, anchor)
    requires anchor.Some? ==> anchor.value in ledgers(first) && visible(anchor.value)
    ensures r == Ok(NewestFirst(ledgers(first), visible, Bound(anchor)))
  {
    var items: seq<Event> := [];
    var seenCursors: set<string> := {};
    var cursor := initialCursor;
    if initialCursor.Some? && initialCursor.value != "" {
      seenCursors := {initialCursor.value};
    }
    var load := first;
    ghost var all := NewestFirst(ledgers(first), visible, Bound(anchor));
    CollectingStarts(ledgers, visible, first, anchor, seenCursors, cursor);
    while true
      invariant items <= all && Collecting(ledgers, visible, first, all, items, seenCursors, cursor, load)
      decreases |all| - |items|
    {
      var loaded := LoadPage(ledgers, visible, limit, cursor, load, first, all, items, seenCursors);
      CollectingGoesOn(ledgers, visible, first, all, items, seenCursors, cursor, load, limit);
      match loaded {
        case Err(error) => return Err(LoadFailed(error));
        case Ok(_) =>
      }
      var page := loaded.value;
      items := items + page.items;
      if page.nextCursor.None? || page.nextCursor.value == "" {
        return Ok(items);
      }
      if page.nextCursor.value in seenCursors {
        return Err(RepeatedCursor);
      }
      seenCursors := seenCursors + {page.nextCursor.value};
      cursor := page.nextCursor;
      load := load + 1;
    }
  }

  // A next cursor is a new one, not empty, and what lies below it is what is left.
  lemma NextAnchor(ledger: seq<Event>, visible: Event -> bool, seen: set<string>, cursor: Option<string>,
                   at: Option<Event>, left: seq<Event>, limit: nat, page: Page)
    requires WellFormed(ledger) && limit >= 1
    requires Following(ledger, visible, seen, cursor, at, left)
    requires page == PageOf(left, limit)
    ensures page.nextCursor.None? ==> page.items == left
    ensures page.nextCursor.Some? ==>
              && |left| > limit && page.nextCursor.value != "" && page.nextCursor.value !in seen
              && left == page.items + left[limit..]
              && Following(ledger, visible, seen + {page.nextCursor.value}, page.nextCursor, Some(left[limit - 1]),
                           left[limit..])
  {
    if |left| > limit {
      var last := left[limit - 1];
      NewestFirstMembers(ledger, visible, Bound(at));
      RowsBelow(ledger, visible, Bound(at), limit - 1);
      assert last in left;
      EventCursorRoundTrip(last.id);
      SeenBelow(seen, ledger, at, last);
    }
  }

  lemma SeenBelow(seen: set<string>, ledger: seq<Event>, at: Option<Event>, last: Event)
    requires WellFormed(ledger) && SeenAbove(seen, ledger, at) && last in ledger
    requires at.Some? ==> last.sequence < at.value.sequence
    ensures EncodeEventCursor(last.id) !in seen
    ensures SeenAbove(seen + {EncodeEventCursor(last.id)}, ledger, Some(last))
  {
    forall c | c in seen
      ensures c != EncodeEventCursor(last.id)
      ensures exists e :: e in ledger && e.sequence >= last.sequence && c == EncodeEventCursor(e.id)
    {
      var e :| e in ledger && e.sequence >= at.value.sequence && c == EncodeEventCursor(e.id);
      EventCursorRoundTrip(e.id);
      EventCursorRoundTrip(last.id);
      assert e.sequence >= last.sequence;
    }
  }

  lemma StillThere(ledgers: nat -> seq<Event>, visible: Event -> bool, e: Event)
    requires Growing(ledgers) && e in ledgers(0)
    ensures e in ledgers(1)
    ensures NewestFirst(ledgers(1), visible, Some(e.sequence)) == NewestFirst(ledgers(0), visible, Some(e.sequence))
  {
    GrownBetween(ledgers, 0, 1);
    var k :| 0 <= k < |ledgers(0)| && ledgers(0)[k] == e;
    assert ledgers(1)[k] == e;
    AppendsKeepOlder(ledgers(0), ledgers(1), visible, e.sequence);
  }

  // The history view: the first page, then the cursors, each load seeing a
  // ledger that may have grown.
  method LoadHistory(ledgers: nat -> seq<Event>, visible: Event -> bool) returns (r: Result<seq<Event>, CollectError>)
    requires Growing(ledgers)
    ensures r == Ok(NewestFirst(ledgers(0), visible, None))
  {
    var first := ListAuthorized(ledgers(0), visible, None, MAX_PAGE);
    var page := first.value;
    var remaining: seq<Event> := [];
    ghost var rows := NewestFirst(ledgers(0), visible, None);
    NextAnchor(ledgers(0), visible, {}, None, None, rows, BoundedLimit(MAX_PAGE), page);
    if page.nextCursor.Some? && page.nextCursor.value != "" {
      ghost var last := rows[BoundedLimit(MAX_PAGE) - 1];
      StillThere(ledgers, visible, last);
      var collected := CollectCursorPages(ledgers, visible, MAX_PAGE, page.nextCursor, 1, Some(last));
      remaining := collected.value;
    }
    assert page.items + [] == page.items;
    return Ok(page.items + remaining);
  }

  // The history lists every event visible at the start exactly once, newest first.
  lemma HistoryIsComplete(ledger: seq<Event>, visible: Event -> bool)
    requires WellFormed(ledger)
    ensures var history := NewestFirst(ledger, visible, None);
            && (forall e :: e in ledger && visible(e) <==> e in history)
            && Descending(history)
            && multiset(history) <= multiset(ledger)
  {
    NewestFirstMembers(ledger, visible, None);
    NewestFirstDescends(ledger, visible, None);
    NoMoreThanLedger(ledger, visible);
  }

  lemma {:induction false} NoMoreThanLedger(ledger: seq<Event>, visible: Event -> bool)
    ensures multiset(NewestFirst(ledger, visible, None)) <= multiset(ledger)
  {
    if ledger != [] {
      NoMoreThanLedger(ledger[..|ledger| - 1], visible);
      assert ledger == ledger[..|ledger| - 1] + [ledger[|ledger| - 1]];
    }
  }
}
