/** Following the cursor from page to page while events keep being recorded. */
module AuditPaging {
  import opened Wrappers
  import opened AuditLog
  import opened AuditQuery

  /** One visit to the store: the store as it then was and the positioned events of the page. */
  datatype Visit = Visit(store: Store, listing: seq<Stored>, page: Page)

  /** The events a page shows, with their positions. */
  function Shown(visit: Visit): seq<Stored> {
    if |visit.page.events| <= |visit.listing| then visit.listing[..|visit.page.events|] else []
  }

  /** `List` answered this visit with this cursor. */
  ghost predicate Answered(codec: Codec, options: Options, cursor: Option<Cursor>, visit: Visit)
    requires options.limit >= 1
  {
    && OwnDays(codec, visit.store)
    && IsPage(visit.page, visit.listing, options.limit)
    && Descending(visit.listing)
    && forall e :: e in visit.listing <==> Wanted(codec, visit.store, options.(cursor := cursor), e)
  }

  /** Each visit follows the previous one's cursor to the last page, on a store that only grew. */
  ghost predicate Session(codec: Codec, options: Options, cursor: Option<Cursor>, visits: seq<Visit>)
    requires options.limit >= 1
    decreases |visits|
  {
    && visits != []
    && Answered(codec, options, cursor, visits[0])
    && if |visits| == 1 then visits[0].page.next == None
       else
         && visits[0].page.next.Some?
         && (forall e :: Holds(codec, visits[0].store, e) ==> Holds(codec, visits[1].store, e))
         && Session(codec, options, visits[0].page.next, visits[1..])
  }

  /** Everything the session showed, in order. */
  function AllShown(visits: seq<Visit>): seq<Stored> {
    if visits == [] then [] else Shown(visits[0]) + AllShown(visits[1..])
  }

  /** Past the session's own first cursor, if it started from one. */
  predicate PastThe(cursor: Option<Cursor>, e: Stored) {
    cursor.Some? ==> !IsAtOrAfterCursor(e, cursor.value)
  }

  /** Exactly the events before the next cursor are those not after it. */
  lemma CursorSplits(listing: seq<Stored>, at: nat, e: Stored)
    requires Descending(listing) && at < |listing| && e in listing
    ensures IsAtOrAfterCursor(e, CursorAt(listing[at])) <==> e in listing[..at + 1]
  {
    var k :| 0 <= k < |listing| && listing[k] == e;
    if k <= at {
      assert listing[..at + 1][k] == e;
      assert k < at ==> SortsAfter(listing[k], listing[at]);
    } else {
      assert SortsAfter(listing[at], listing[k]);
      assert forall j :: 0 <= j <= at ==> listing[..at + 1][j] == listing[j] && SortsAfter(listing[j], listing[k]);
    }
  }

  /** What is not past the cursor at its position sorts before everything past it. */
  lemma PastCursor(last: Stored, earlier: Stored, later: Stored)
    requires earlier == last || SortsAfter(earlier, last)
    requires !IsAtOrAfterCursor(later, CursorAt(last))
    ensures SortsAfter(earlier, later)
  {
  }

  lemma DescendingJoin(a: seq<Stored>, b: seq<Stored>)
    requires Descending(a) && Descending(b)
    requires forall x, y :: x in a && y in b ==> SortsAfter(x, y)
    ensures Descending(a + b)
  {
    var both := a + b;
    forall i, j | 0 <= i < j < |both| ensures SortsAfter(both[i], both[j]) {
      if i < |a| && j >= |a| {
        assert both[i] in a && both[j] in b;
      }
    }
  }

  /** The page and what it leaves: shown events descend, the rest is past the next cursor. */
  lemma PageSplits(codec: Codec, options: Options, cursor: Option<Cursor>, visit: Visit)
    requires options.limit >= 1 && Answered(codec, options, cursor, visit)
    ensures Descending(Shown(visit))
    ensures visit.page.next == None ==> Shown(visit) == visit.listing
    ensures visit.page.next.Some? ==>
              && Shown(visit) != []
              && visit.page.next == Some(CursorAt(Shown(visit)[|Shown(visit)| - 1]))
              && forall e :: e in visit.listing && e !in Shown(visit) ==> !IsAtOrAfterCursor(e, visit.page.next.value)
  {
    var shown := Shown(visit);
    forall i, j | 0 <= i < j < |shown| ensures SortsAfter(shown[i], shown[j]) {
      assert shown[i] == visit.listing[i] && shown[j] == visit.listing[j];
    }
    if visit.page.next.Some? {
      forall e | e in visit.listing && e !in shown ensures !IsAtOrAfterCursor(e, visit.page.next.value) {
        CursorSplits(visit.listing, options.limit - 1, e);
      }
    }
  }

  /** What the pages of a session show, in the terms a query is stated in. */
  lemma {:induction false} SessionShows(codec: Codec, options: Options, cursor: Option<Cursor>, visits: seq<Visit>)
    requires options.limit >= 1 && Session(codec, options, cursor, visits)
    ensures Descending(AllShown(visits))
    ensures forall e :: Wanted(codec, visits[0].store, options.(cursor := cursor), e) ==> e in AllShown(visits)
    ensures forall e :: e in AllShown(visits) ==>
                          Matches(options, e) && PastThe(cursor, e)
                          && StoredDuring(codec, visits, e)
    decreases |visits|
  {
    var first := visits[0];
    PageSplits(codec, options, cursor, first);
    FirstPageShows(codec, options, cursor, visits);
    if |visits| == 1 {
      assert AllShown(visits) == Shown(first) + [];
    } else {
      var rest, next := visits[1..], first.page.next;
      SessionShows(codec, options, next, rest);
      LaterPages(codec, options, cursor, visits);
      ShownBeforeRest(first, AllShown(rest));
      DescendingJoin(Shown(first), AllShown(rest));
      assert forall e :: Holds(codec, first.store, e) ==> StoredDuring(codec, visits, e);
      forall e | Wanted(codec, first.store, options.(cursor := cursor), e) ensures e in AllShown(visits) {
        if e !in Shown(first) {
          assert Wanted(codec, rest[0].store, options.(cursor := next), e);
        }
      }
    }
  }

  /** Some visit found the event in the store. */
  ghost predicate StoredDuring(codec: Codec, visits: seq<Visit>, e: Stored) {
    exists k :: 0 <= k < |visits| && Holds(codec, visits[k].store, e)
  }

  lemma StoredLater(codec: Codec, visits: seq<Visit>, e: Stored)
    requires visits != [] && StoredDuring(codec, visits[1..], e)
    ensures StoredDuring(codec, visits, e)
  {
    var k :| 0 <= k < |visits| - 1 && Holds(codec, visits[1..][k].store, e);
    assert Holds(codec, visits[k + 1].store, e);
  }

  lemma FirstPageShows(codec: Codec, options: Options, cursor: Option<Cursor>, visits: seq<Visit>)
    requires options.limit >= 1 && Session(codec, options, cursor, visits)
    ensures forall e :: e in Shown(visits[0]) ==>
                          Matches(options, e) && PastThe(cursor, e) && Holds(codec, visits[0].store, e)
  {
    forall e | e in Shown(visits[0])
      ensures Matches(options, e) && PastThe(cursor, e) && Holds(codec, visits[0].store, e)
    {
      assert e in visits[0].listing;
      assert Wanted(codec, visits[0].store, options.(cursor := cursor), e);
    }
  }

  /** What later pages show is past this page's cursor too. */
  lemma LaterPages(codec: Codec, options: Options, cursor: Option<Cursor>, visits: seq<Visit>)
    requires options.limit >= 1 && Session(codec, options, cursor, visits) && |visits| > 1
    requires forall e :: e in AllShown(visits[1..]) ==>
                           Matches(options, e) && !IsAtOrAfterCursor(e, visits[0].page.next.value)
                           && StoredDuring(codec, visits[1..], e)
    ensures forall e :: e in AllShown(visits[1..]) ==>
                          PastThe(cursor, e) && StoredDuring(codec, visits, e)
  {
    PageSplits(codec, options, cursor, visits[0]);
    FirstPageShows(codec, options, cursor, visits);
    var shown := Shown(visits[0]);
    var last := shown[|shown| - 1];
    forall e | e in AllShown(visits[1..])
      ensures PastThe(cursor, e) && StoredDuring(codec, visits, e)
    {
      StoredLater(codec, visits, e);
      assert last in shown;
    }
  }

  lemma ShownBeforeRest(first: Visit, rest: seq<Stored>)
    requires Descending(Shown(first)) && Shown(first) != []
    requires forall y :: y in rest ==> !IsAtOrAfterCursor(y, CursorAt(Shown(first)[|Shown(first)| - 1]))
    ensures forall x, y :: x in Shown(first) && y in rest ==> SortsAfter(x, y)
  {
    var shown := Shown(first);
    var last := shown[|shown| - 1];
    forall x, y | x in shown && y in rest ensures SortsAfter(x, y) {
      var i :| 0 <= i < |shown| && shown[i] == x;
      assert i < |shown| - 1 ==> SortsAfter(shown[i], last);
      PastCursor(last, x, y);
    }
  }

  /** Past the first cursor: at an earlier instant, or on an earlier day, or an earlier line of that day. */
  predicate After(cursor: Option<Cursor>, e: Stored) {
    cursor.Some? ==>
      || e.event.when < cursor.value.ts
      || (e.event.when == cursor.value.ts
          && (e.date < cursor.value.date || (e.date == cursor.value.date && e.seqNo < cursor.value.seqNo)))
  }

  /**
   Exact pagination under appends: the pages of a session together are strictly
   newest first, so show nothing twice; they hold every event that matched at the
   first page past its cursor; and everything shown was stored and matched when
   its page was served.
   */
  lemma PaginationIsExact(codec: Codec, options: Options, cursor: Option<Cursor>, visits: seq<Visit>)
    requires options.limit >= 1 && Session(codec, options, cursor, visits)
    ensures var shown := AllShown(visits);
            forall i, j :: 0 <= i < j < |shown| ==>
              var a, b := shown[i], shown[j];
              || a.event.when > b.event.when
              || (a.event.when == b.event.when && (a.date > b.date || (a.date == b.date && a.seqNo > b.seqNo)))
    ensures forall e :: Holds(codec, visits[0].store, e) && Matches(options, e) && After(cursor, e) ==>
                          e in AllShown(visits)
    ensures forall e :: e in AllShown(visits) ==>
                          Matches(options, e) && After(cursor, e) && StoredDuring(codec, visits, e)
  {
    SessionShows(codec, options, cursor, visits);
  }

  /** Stores that grew by recording events are what a session assumes between visits. */
  lemma RecordingKeepsSession(codec: Codec, store: Store, events: seq<Event>)
    requires GoodCodec(codec) && Sound(codec, store) && forall e :: e in events ==> e.when != 0
    ensures OwnDays(codec, store) && OwnDays(codec, RecordAll(codec, store, events))
    ensures forall e :: Holds(codec, store, e) ==> Holds(codec, RecordAll(codec, store, events), e)
  {
    RecordAllKeepsStore(codec, store, events);
    SoundOwnDays(codec, store);
    SoundOwnDays(codec, RecordAll(codec, store, events));
  }
}
