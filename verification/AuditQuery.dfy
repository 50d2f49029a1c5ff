/** The read side: which daily objects a query scans, what it selects, and one newest-first page of it. */
module AuditQuery {
  import opened Wrappers
  import opened AuditLog
  import Text

  /** Position of the last event of a page. */
  datatype Cursor = Cursor(date: int, seqNo: int, ts: int)

  /** Empty strings and zero instants are unset; `kindOf` maps an action to its kind. */
  datatype Options = Options(team: string, kind: string, start: int, to: int, limit: int, cursor: Option<Cursor>)

  datatype QueryError = BadLimit | RangeTooLarge | StorageUnavailable | MalformedObject

  datatype Page = Page(events: seq<Event>, next: Option<Cursor>)

  const MAX_SCANNED_DAYS: int := 366

  // ------------------------------------------------------------- what counts

  function KindOf(action: string): string {
    if Text.HasPrefix(action, "capability_") then "capability"
    else if Text.HasPrefix(action, "approval_level") then "approval_level"
    else if Text.HasPrefix(action, "channel") then "channel"
    else if Text.HasPrefix(action, "source") then "source"
    else action
  }

  /** The kinds of the event table: a family of actions is selected by its prefix, any other action by its name. */
  lemma KindsAreFamilies(action: string)
    ensures KindOf(action) == "capability" <==> "capability_" <= action || action == "capability"
    ensures KindOf(action) == "approval_level" <==> "approval_level" <= action
    ensures KindOf(action) == "channel" <==> "channel" <= action
    ensures KindOf(action) == "source" <==> "source" <= action
    ensures KindOf(action) == action || KindOf(action) in ["capability", "approval_level", "channel", "source"]
    ensures KindOf(KindOf(action)) == KindOf(action)
  {
    assert "capability_" <= action ==> action[1] == 'a';
    assert "approval_level" <= action ==> action[0] == 'a';
    assert "channel" <= action ==> action[1] == 'h';
    assert "source" <= action ==> action[0] == 's';
  }

  predicate Matches(options: Options, stored: Stored) {
    && (options.team == "" || stored.event.targetTeam == options.team)
    && (options.kind == "" || KindOf(stored.event.action) == options.kind)
    && (options.start == 0 || options.start <= stored.event.when)
    && (options.to == 0 || stored.event.when <= options.to)
  }

  // ---------------------------------------------------------------- the order

  /** `sortsAfter`: newest first, then later day, then later line. */
  predicate SortsAfter(e: Stored, o: Stored) {
    if e.event.when != o.event.when then e.event.when > o.event.when
    else if e.date != o.date then e.date > o.date
    else e.seqNo > o.seqNo
  }

  predicate IsAtOrAfterCursor(e: Stored, cursor: Cursor) {
    if e.event.when != cursor.ts then e.event.when > cursor.ts
    else if e.date != cursor.date then e.date > cursor.date
    else e.seqNo >= cursor.seqNo
  }

  function CursorAt(stored: Stored): Cursor {
    Cursor(stored.date, stored.seqNo, stored.event.when)
  }

  predicate SamePosition(a: Stored, b: Stored) {
    a.event.when == b.event.when && a.date == b.date && a.seqNo == b.seqNo
  }

  ghost predicate Descending(list: seq<Stored>) {
    forall i, j :: 0 <= i < j < |list| ==> SortsAfter(list[i], list[j])
  }

  /** The strictly newest-first listing of a set. */
  ghost predicate Lists(list: seq<Stored>, s: set<Stored>) {
    Descending(list) && forall e :: e in list <==> e in s
  }

  /** The order is strict and total on positions, so a set has one listing. */
  lemma {:induction false} ListingUnique(a: seq<Stored>, b: seq<Stored>, s: set<Stored>)
    requires Lists(a, s) && Lists(b, s)
    ensures a == b
    decreases |a|
  {
    assert a != [] ==> a[0] in b;
    assert b != [] ==> b[0] in a;
    if a != [] && b != [] {
      HeadIsNewest(a, b[0]);
      HeadIsNewest(b, a[0]);
      TailLists(a, s);
      TailLists(b, s);
      ListingUnique(a[1..], b[1..], s - {a[0]});
    }
  }

  lemma HeadIsNewest(list: seq<Stored>, e: Stored)
    requires Descending(list) && e in list
    ensures e == list[0] || SortsAfter(list[0], e)
  {
    var k :| 0 <= k < |list| && list[k] == e;
  }

  lemma TailLists(list: seq<Stored>, s: set<Stored>)
    requires Lists(list, s) && list != []
    ensures Lists(list[1..], s - {list[0]})
  {
    forall e ensures e in list[1..] <==> e in s - {list[0]} {
      if e in list[1..] {
        var k :| 0 <= k < |list| - 1 && list[1..][k] == e;
        assert SortsAfter(list[0], list[k + 1]);
      }
      if e in s - {list[0]} {
        var k :| 0 <= k < |list| && list[k] == e;
        assert list[1..][k - 1] == e;
      }
    }
  }

  // --------------------------------------------------------------- the scan

  function DayRange(first: int, last: int): (days: seq<int>)
    requires first <= last + 1
    ensures |days| == last - first + 1 && forall k :: 0 <= k < |days| ==> days[k] == first + k
  {
    seq(last - first + 1, k => first + k)
  }

  ghost predicate AscendingDays(days: seq<int>) {
    forall i, j :: 0 <= i < j < |days| ==> days[i] < days[j]
  }

  /** The day lies within the bounds that are set. */
  predicate WithinDays(day: int, start: int, to: int) {
    (start == 0 || DayOf(start) <= day) && (to == 0 || day <= DayOf(to))
  }

  /** `dailyKeys`: with both bounds the range is computed, otherwise the objects are listed. */
  method DailyKeys(store: Store, start: int, to: int) returns (keys: Result<seq<int>, QueryError>)
    ensures start != 0 && to != 0 ==>
              keys == if start > to || DayOf(to) - DayOf(start) + 1 > 366 then Err(RangeTooLarge)
                      else Ok(DayRange(DayOf(start), DayOf(to)))
    ensures start == 0 || to == 0 ==>
              match keys
              case Err(error) => store.listFails && error == StorageUnavailable
              case Ok(days) => !store.listFails && AscendingDays(days)
                               && forall day :: day in days <==> day in store.objects && WithinDays(day, start, to)
  {
    var first, last := DayOf(start), DayOf(to);
    if start != 0 && to != 0 {
      if start > to {
        return Err(RangeTooLarge);
      }
      var count := last - first + 1;
      if count > MAX_SCANNED_DAYS {
        return Err(RangeTooLarge);
      }
      var days: seq<int> := [];
      var d := first;
      while d <= last
        invariant first <= d <= last + 1 && days == DayRange(first, d - 1)
      {
        days := days + [d];
        d := d + 1;
      }
      return Ok(days);
    }
    if store.listFails {
      return Err(StorageUnavailable);
    }
    var days := ListedDays(store, start, to);
    keys := Ok(days);
  }

  lemma SomeDay(days: set<int>)
    ensures days == {} || exists day :: day in days
  {
    if !(exists day :: day in days) {
      assert days == {};
    }
  }

  method PickDay(days: set<int>) returns (day: int)
    requires days != {}
    ensures day in days
  {
    SomeDay(days);
    day :| day in days;
  }

  /** The loop over the listed object names; the source sorts them at the end. */
  method ListedDays(store: Store, start: int, to: int) returns (days: seq<int>)
    ensures AscendingDays(days) && forall day :: day in days <==> day in store.objects && WithinDays(day, start, to)
  {
    days := [];
    var names := store.objects.Keys;
    while names != {}
      invariant names <= store.objects.Keys
      invariant AscendingDays(days)
      invariant forall day :: day in days <==> day in store.objects && day !in names && WithinDays(day, start, to)
      decreases |names|
    {
      var day := PickDay(names);
      names := names - {day};
      if start != 0 && day < DayOf(start) {
        continue;
      }
      if to != 0 && day > DayOf(to) {
        continue;
      }
      InsertDayIsSorted(days, day);
      days := InsertDay(days, day);
    }
  }

  function InsertDay(days: seq<int>, day: int): (r: seq<int>)
    ensures forall d :: d in r <==> d == day || d in days
  {
    if days == [] || day < days[0] then [day] + days else [days[0]] + InsertDay(days[1..], day)
  }

  lemma {:induction false} InsertDayIsSorted(days: seq<int>, day: int)
    requires AscendingDays(days) && day !in days
    ensures AscendingDays(InsertDay(days, day))
  {
    if days != [] && days[0] < day {
      InsertDayIsSorted(days[1..], day);
      var rest := InsertDay(days[1..], day);
      forall j | 0 <= j < |rest| ensures days[0] < rest[j] {
        assert rest[j] in rest;
      }
    }
  }

  // ---------------------------------------------------------- the selection

  /** What a query is about: matching events anywhere in the store, past the cursor. */
  ghost predicate Wanted(codec: Codec, store: Store, options: Options, e: Stored) {
    && Holds(codec, store, e) && Matches(options, e)
    && (options.cursor.Some? ==> !IsAtOrAfterCursor(e, options.cursor.value))
  }

  /** The events of a list of days, as the scan concatenates them. */
  function Gather(codec: Codec, store: Store, days: seq<int>): seq<Stored> {
    if days == [] then []
    else Gather(codec, store, days[..|days| - 1]) + DayEvents(codec, store, days[|days| - 1])
  }

  predicate Scannable(codec: Codec, store: Store, day: int) {
    day in store.objects ==> day !in store.unreadable && Parse(codec, store.objects[day]).Some?
  }

  method ScanDays(codec: Codec, store: Store, days: seq<int>) returns (events: Result<seq<Stored>, QueryError>)
    ensures events.Ok? <==> forall k :: 0 <= k < |days| ==> Scannable(codec, store, days[k])
    ensures events.Ok? ==> events.value == Gather(codec, store, days)
    ensures events.Err? ==> events.error == StorageUnavailable || events.error == MalformedObject
  {
    var found: seq<Stored> := [];
    for i := 0 to |days|
      invariant found == Gather(codec, store, days[..i])
      invariant forall k :: 0 <= k < i ==> Scannable(codec, store, days[k])
    {
      assert days[..i + 1][..i] == days[..i];
      var day := days[i];
      if day !in store.objects {
        continue;
      }
      if day in store.unreadable {
        return Err(StorageUnavailable);
      }
      var parsed := ParseDailyObject(codec, store.objects[day]);
      if parsed == None {
        return Err(MalformedObject);
      }
      found := found + parsed.value;
    }
    assert days[..|days|] == days;
    events := Ok(found);
  }

  lemma {:induction false} GatherMembers(codec: Codec, store: Store, days: seq<int>, e: Stored)
    ensures e in Gather(codec, store, days) <==> exists k :: 0 <= k < |days| && e in DayEvents(codec, store, days[k])
  {
    if days != [] {
      var n := |days| - 1;
      GatherMembers(codec, store, days[..n], e);
      if k :| 0 <= k < |days| && e in DayEvents(codec, store, days[k]) {
        assert k < n ==> e in DayEvents(codec, store, days[..n][k]);
      }
    }
  }

  /** The scanned days are ascending, and hold every day within the bounds that has an object. */
  ghost predicate CoversDays(store: Store, options: Options, days: seq<int>) {
    && AscendingDays(days)
    && forall day :: day in store.objects && WithinDays(day, options.start, options.to) ==> day in days
  }

  /** Day pruning loses nothing: a matching event of a sound store lies in a scanned day. */
  lemma PruningLosesNothing(codec: Codec, store: Store, options: Options, days: seq<int>, e: Stored)
    requires OwnDays(codec, store) && CoversDays(store, options, days)
    ensures Holds(codec, store, e) && Matches(options, e) <==> e in Gather(codec, store, days) && Matches(options, e)
  {
    GatherMembers(codec, store, days, e);
    if Holds(codec, store, e) && Matches(options, e) {
      var day :| day in store.objects && e in DayEvents(codec, store, day);
      assert OwnDay(codec, store.objects[day], day);
      ParsedPositions(codec, Lines(store.objects[day]));
      assert day == DayOf(e.event.when);
      DayIsMonotone(options.start, e.event.when);
      DayIsMonotone(e.event.when, options.to);
    }
  }

  lemma DayIsMonotone(a: int, b: int)
    ensures a <= b ==> DayOf(a) <= DayOf(b)
  {
  }

  /** Both ways of choosing days read the same objects. */
  lemma ScanPathsAgree(store: Store, start: int, to: int)
    requires start != 0 && to != 0 && start <= to
    ensures DayOf(start) <= DayOf(to)
    ensures forall day :: day in store.objects ==>
            (day in DayRange(DayOf(start), DayOf(to)) <==> WithinDays(day, start, to))
  {
    DayIsMonotone(start, to);
    var days := DayRange(DayOf(start), DayOf(to));
    forall day | day in store.objects ensures day in days <==> WithinDays(day, start, to) {
      if WithinDays(day, start, to) {
        assert days[day - DayOf(start)] == day;
      }
    }
  }

  // -------------------------------------------------- one page of the listing

  ghost predicate DistinctList(list: seq<Stored>) {
    forall i, j :: 0 <= i < j < |list| ==> !SamePosition(list[i], list[j])
  }

  /** No event comes before one it sorts after. */
  ghost predicate Ordered(list: seq<Stored>) {
    forall i, j :: 0 <= i < j < |list| ==> !SortsAfter(list[j], list[i])
  }

  function InsertNewest(list: seq<Stored>, e: Stored): (r: seq<Stored>)
    ensures multiset(r) == multiset(list) + multiset{e}
  {
    if list == [] || SortsAfter(e, list[0]) then [e] + list
    else
      assert list == [list[0]] + list[1..];
      [list[0]] + InsertNewest(list[1..], e)
  }

  lemma {:induction false} InsertNewestSorts(list: seq<Stored>, e: Stored)
    requires Ordered(list)
    ensures Ordered(InsertNewest(list, e))
  {
    if list != [] && !SortsAfter(e, list[0]) {
      var rest := InsertNewest(list[1..], e);
      InsertNewestSorts(list[1..], e);
      forall j | 0 <= j < |rest|
        ensures !SortsAfter(rest[j], list[0])
      {
        assert rest[j] in multiset(rest);
        if rest[j] != e {
          assert rest[j] in list[1..];
          var k :| 0 <= k < |list| - 1 && list[1..][k] == rest[j];
          assert list[k + 1] == rest[j];
        }
      }
    }
  }

  /** Over distinct positions the order is strict. */
  lemma OrderedIsStrict(list: seq<Stored>)
    requires Ordered(list) && DistinctList(list)
    ensures Descending(list)
  {
  }

  /** Distinctness does not depend on the order. */
  lemma {:induction false} DistinctAnyOrder(list: seq<Stored>, other: seq<Stored>)
    requires multiset(list) == multiset(other) && DistinctList(list)
    ensures DistinctList(other)
  {
    forall i, j | 0 <= i < j < |other|
      ensures !SamePosition(other[i], other[j])
    {
      assert other[i] in multiset(other) && other[j] in multiset(other);
      var a :| 0 <= a < |list| && list[a] == other[i];
      var b :| 0 <= b < |list| && list[b] == other[j];
      if a == b {
        TwiceCounts(other, i, j);
        OnceCounts(list, a);
        assert false;
      }
    }
  }

  lemma TwiceCounts(list: seq<Stored>, i: nat, j: nat)
    requires i < j < |list| && list[i] == list[j]
    ensures multiset(list)[list[i]] >= 2
  {
    assert list == list[..i] + [list[i]] + list[i + 1..j] + [list[j]] + list[j + 1..];
  }

  lemma OnceCounts(list: seq<Stored>, i: nat)
    requires i < |list| && DistinctList(list)
    ensures multiset(list)[list[i]] == 1
  {
    var rest := list[..i] + list[i + 1..];
    assert list == list[..i] + [list[i]] + list[i + 1..];
    forall k | 0 <= k < |rest|
      ensures rest[k] != list[i]
    {
      assert rest[k] == if k < i then list[k] else list[k + 1];
      assert !SamePosition(rest[k], list[i]);
    }
    assert list[i] !in multiset(rest);
  }

  /** `sort.Slice` by `sortsAfter`. */
  method SortNewestFirst(events: seq<Stored>) returns (sorted: seq<Stored>)
    ensures multiset(sorted) == multiset(events) && forall e :: e in sorted <==> e in events
    ensures forall i, j :: 0 <= i < j < |sorted| ==>
              var a, b := sorted[i], sorted[j];
              || a.event.when > b.event.when
              || (a.event.when == b.event.when
                  && (a.date > b.date || (a.date == b.date && a.seqNo >= b.seqNo)))
    ensures DistinctList(events) ==> Descending(sorted)
  {
    sorted := [];
    for i := 0 to |events|
      invariant multiset(sorted) == multiset(events[..i]) && Ordered(sorted)
    {
      InsertNewestSorts(sorted, events[i]);
      sorted := InsertNewest(sorted, events[i]);
      assert events[..i + 1] == events[..i] + [events[i]];
    }
    assert events[..|events|] == events;
    forall e
      ensures e in sorted <==> e in events
    {
      assert e in sorted <==> e in multiset(sorted);
      assert e in events <==> e in multiset(events);
    }
    if DistinctList(events) {
      DistinctAnyOrder(events, sorted);
      OrderedIsStrict(sorted);
    }
  }

  /** The events kept by a filter, in order. */
  method FilterMatching(options: Options, events: seq<Stored>) returns (kept: seq<Stored>)
    ensures forall e :: e in kept <==> e in events && Matches(options, e)
    ensures forall e :: Matches(options, e) <==>
                          && (options.team == "" || e.event.targetTeam == options.team)
                          && (options.kind == "" || KindOf(e.event.action) == options.kind)
                          && (options.start == 0 || e.event.when >= options.start)
                          && (options.to == 0 || e.event.when <= options.to)
    ensures DistinctList(events) ==> DistinctList(kept)
  {
    kept := [];
    ghost var at: seq<nat> := [];
    for i := 0 to |events|
      invariant |at| == |kept| && forall k :: 0 <= k < |at| ==> at[k] < i && events[at[k]] == kept[k]
      invariant forall k, l :: 0 <= k < l < |at| ==> at[k] < at[l]
      invariant forall e :: e in kept <==> e in events[..i] && Matches(options, e)
    {
      assert events[..i + 1] == events[..i] + [events[i]];
      var e := events[i];
      if options.team != "" && e.event.targetTeam != options.team {
        continue;
      }
      if options.kind != "" && KindOf(e.event.action) != options.kind {
        continue;
      }
      if options.start != 0 && e.event.when < options.start {
        continue;
      }
      if options.to != 0 && e.event.when > options.to {
        continue;
      }
      kept := kept + [e];
      at := at + [i];
    }
    assert events[..|events|] == events;
  }

  method DropSeen(cursor: Cursor, events: seq<Stored>) returns (kept: seq<Stored>)
    ensures forall e :: e in kept <==>
              && e in events
              && (|| e.event.when < cursor.ts
                  || (e.event.when == cursor.ts
                      && (e.date < cursor.date || (e.date == cursor.date && e.seqNo < cursor.seqNo))))
    ensures Descending(events) ==> Descending(kept)
  {
    kept := [];
    ghost var at: seq<nat> := [];
    for i := 0 to |events|
      invariant |at| == |kept| && forall k :: 0 <= k < |at| ==> at[k] < i && events[at[k]] == kept[k]
      invariant forall k, l :: 0 <= k < l < |at| ==> at[k] < at[l]
      invariant forall e :: e in kept <==> e in events[..i] && !IsAtOrAfterCursor(e, cursor)
    {
      assert events[..i + 1] == events[..i] + [events[i]];
      if IsAtOrAfterCursor(events[i], cursor) {
        continue;
      }
      kept := kept + [events[i]];
      at := at + [i];
    }
    assert events[..|events|] == events;
  }

  /** Positions of a sound store's events are distinct, however its days are scanned. */
  lemma {:induction false} GatherDistinct(codec: Codec, store: Store, days: seq<int>)
    requires OwnDays(codec, store) && AscendingDays(days)
    ensures DistinctList(Gather(codec, store, days))
  {
    if days != [] {
      var n := |days| - 1;
      GatherDistinct(codec, store, days[..n]);
      var earlier, today := Gather(codec, store, days[..n]), DayEvents(codec, store, days[n]);
      if days[n] in store.objects {
        assert OwnDay(codec, store.objects[days[n]], days[n]);
        ParsedPositions(codec, Lines(store.objects[days[n]]));
      }
      forall e, o | e in earlier && o in today ensures !SamePosition(e, o) {
        GatherMembers(codec, store, days[..n], e);
        var k :| 0 <= k < n && e in DayEvents(codec, store, days[..n][k]);
        assert days[..n][k] == days[k] < days[n];
        assert OwnDay(codec, store.objects[days[k]], days[k]);
        assert e.date == days[k] && o.date == days[n];
      }
      var all := earlier + today;
      forall i, j | 0 <= i < j < |all| ensures !SamePosition(all[i], all[j]) {
        if j >= |earlier| {
          assert all[j] == today[j - |earlier|];
          if i < |earlier| {
            assert all[i] in earlier && all[j] in today;
          } else {
            assert all[i] == today[i - |earlier|];
          }
        }
      }
    }
  }

  /** A page of a listing: its first `limit` events, with a cursor exactly if more follow. */
  ghost predicate IsPage(page: Page, listing: seq<Stored>, limit: int)
    requires limit >= 1
  {
    var count := if |listing| > limit then limit else |listing|;
    && |page.events| == count && (forall k :: 0 <= k < count ==> page.events[k] == listing[k].event)
    && page.next == if |listing| > limit then Some(CursorAt(listing[limit - 1])) else None
  }

  /** The query is refused before anything is scanned. */
  predicate Refused(store: Store, options: Options) {
    || options.limit < 1
    || (options.start != 0 && options.to != 0 &&
        (options.start > options.to || DayOf(options.to) - DayOf(options.start) + 1 > 366))
    || ((options.start == 0 || options.to == 0) && store.listFails)
  }

  /** A day the query scans cannot be read or holds a malformed line. */
  ghost predicate ScanFails(codec: Codec, store: Store, options: Options) {
    exists day :: day in store.objects && WithinDays(day, options.start, options.to) && !Scannable(codec, store, day)
  }

  /**
   `List`: an error exactly when the query is refused or a scanned day cannot be
   read; otherwise, if objects hold only their own day's events, one page of the
   listing, newest first, of every matching event of the whole store that comes
   after the cursor. A later instant comes first; at one instant a later day, and
   on one day a later line.
   */
  method List(codec: Codec, store: Store, options: Options)
    returns (page: Result<Page, QueryError>, ghost listing: seq<Stored>)
    ensures page.Err? <==> Refused(store, options) || ScanFails(codec, store, options)
    ensures page.Ok? ==> options.limit >= 1 && IsPage(page.value, listing, options.limit)
    ensures page.Ok? && OwnDays(codec, store) ==>
              forall i, j :: 0 <= i < j < |listing| ==>
                var a, b := listing[i], listing[j];
                || a.event.when > b.event.when
                || (a.event.when == b.event.when && (a.date > b.date || (a.date == b.date && a.seqNo > b.seqNo)))
    ensures page.Ok? && OwnDays(codec, store) ==>
              forall e :: e in listing <==>
                && Holds(codec, store, e)
                && (options.team == "" || e.event.targetTeam == options.team)
                && (options.kind == "" || KindOf(e.event.action) == options.kind)
                && (options.start == 0 || e.event.when >= options.start)
                && (options.to == 0 || e.event.when <= options.to)
                && (options.cursor.Some? ==>
                      var cursor := options.cursor.value;
                      || e.event.when < cursor.ts
                      || (e.event.when == cursor.ts
                          && (e.date < cursor.date || (e.date == cursor.date && e.seqNo < cursor.seqNo))))
  {
    listing := [];
    if options.limit < 1 {
      return Err(BadLimit), listing;
    }
    var keys := DailyKeys(store, options.start, options.to);
    if keys.Err? {
      return Err(keys.error), listing;
    }
    var days := keys.value;
    if options.start != 0 && options.to != 0 {
      ScanPathsAgree(store, options.start, options.to);
    }
    assert CoversDays(store, options, days);
    var events := ScanDays(codec, store, days);
    ScanOutcome(codec, store, options, days);
    if events.Err? {
      return Err(events.error), listing;
    }
    if OwnDays(codec, store) {
      GatherDistinct(codec, store, days);
    }
    var filtered := FilterMatching(options, events.value);
    filtered := SortNewestFirst(filtered);
    if options.cursor.Some? {
      filtered := DropSeen(options.cursor.value, filtered);
    }
    listing := filtered;
    if OwnDays(codec, store) {
      forall e ensures e in listing <==> Wanted(codec, store, options, e) {
        PruningLosesNothing(codec, store, options, days, e);
      }
    }
    var first := TakePage(filtered, options.limit);
    page := Ok(first);
  }

  method TakePage(filtered: seq<Stored>, limit: int) returns (page: Page)
    requires limit >= 1
    ensures IsPage(page, filtered, limit)
  {
    var end := |filtered|;
    if end > limit {
      end := limit;
    }
    var out: seq<Event> := [];
    for i := 0 to end
      invariant |out| == i && forall k :: 0 <= k < i ==> out[k] == filtered[k].event
    {
      out := out + [filtered[i].event];
    }
    var next: Option<Cursor> := None;
    if end == limit && |filtered| > limit {
      var last := filtered[end - 1];
      next := Some(Cursor(last.date, last.seqNo, last.event.when));
    }
    page := Page(out, next);
  }

  lemma ScanOutcome(codec: Codec, store: Store, options: Options, days: seq<int>)
    requires forall day :: day in store.objects ==> (day in days <==> WithinDays(day, options.start, options.to))
    ensures ScanFails(codec, store, options) <==> !(forall k :: 0 <= k < |days| ==> Scannable(codec, store, days[k]))
  {
    if ScanFails(codec, store, options) {
      var day :| day in store.objects && WithinDays(day, options.start, options.to) && !Scannable(codec, store, day);
      assert day in days;
    }
    if k :| 0 <= k < |days| && !Scannable(codec, store, days[k]) {
      assert days[k] in days && days[k] in store.objects;
    }
  }
}
