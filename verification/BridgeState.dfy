/** The durable bridge state, updated in place as the bridge does it. */
module BridgeState {
  import opened Wrappers
  import R = BridgeRecords
  import Text

  datatype Session = Session(id: string, ready: bool)

  /** The decoded state file; a missing key is None. */
  datatype StateFile = StateFile(
    version: int,
    nextBatch: Option<string>,
    rooms: Option<map<string, Session>>,
    events: Option<R.Records>)

  // ------------------------------------------------------ ordering by recency

  function Elements(list: seq<R.EventId>): set<R.EventId> {
    set k | 0 <= k < |list| :: list[k]
  }

  ghost predicate NewestFirst(records: R.Records, list: seq<R.EventId>) {
    && (forall e :: e in list ==> e in records)
    && forall i, j :: 0 <= i < j < |list| ==> records[list[j]].updatedAt <= records[list[i]].updatedAt
  }

  function InsertByTime(records: R.Records, list: seq<R.EventId>, event: R.EventId): (r: seq<R.EventId>)
    requires event in records && forall e :: e in list ==> e in records
    ensures forall e :: e in r <==> e == event || e in list
    ensures |r| == |list| + 1
  {
    if list == [] || records[list[0]].updatedAt < records[event].updatedAt then [event] + list
    else [list[0]] + InsertByTime(records, list[1..], event)
  }

  lemma ConsNewest(records: R.Records, event: R.EventId, rest: seq<R.EventId>)
    requires NewestFirst(records, rest) && event in records && event !in rest && Text.Unrepeated(rest)
    requires forall e :: e in rest ==> records[e].updatedAt <= records[event].updatedAt
    ensures NewestFirst(records, [event] + rest) && Text.Unrepeated([event] + rest)
  {
  }

  lemma {:induction false} InsertKeepsOrder(records: R.Records, list: seq<R.EventId>, event: R.EventId)
    requires event in records && event !in list && NewestFirst(records, list) && Text.Unrepeated(list)
    ensures NewestFirst(records, InsertByTime(records, list, event))
    ensures Text.Unrepeated(InsertByTime(records, list, event))
  {
    if list == [] {
    } else if records[list[0]].updatedAt < records[event].updatedAt {
      forall e | e in list ensures records[e].updatedAt <= records[event].updatedAt {
        var k :| 0 <= k < |list| && list[k] == e;
      }
      ConsNewest(records, event, list);
    } else {
      var rest := list[1..];
      forall e | e in rest ensures records[e].updatedAt <= records[list[0]].updatedAt && e != list[0] {
        var k :| 0 <= k < |rest| && rest[k] == e;
        assert list[k + 1] == e;
      }
      InsertKeepsOrder(records, rest, event);
      ConsNewest(records, list[0], InsertByTime(records, rest, event));
    }
  }

  lemma ElementsAre(list: seq<R.EventId>)
    ensures forall e :: e in Elements(list) <==> e in list
  {
  }

  lemma {:induction false} DistinctSize(list: seq<R.EventId>)
    requires Text.Unrepeated(list)
    ensures |Elements(list)| == |list|
  {
    if list != [] {
      var n := |list| - 1;
      DistinctSize(list[..n]);
      assert Elements(list) == Elements(list[..n]) + {list[n]} by {
        forall e | e in Elements(list) ensures e in Elements(list[..n]) + {list[n]} {
          var k :| 0 <= k < |list| && list[k] == e;
          assert k < n ==> list[..n][k] == e;
        }
        forall e | e in Elements(list[..n]) ensures e in Elements(list) {
          var k :| 0 <= k < n && list[..n][k] == e;
          assert list[k] == e;
        }
      }
      assert list[n] !in Elements(list[..n]);
    }
  }

  /** Cutting a list without repetitions splits its elements. */
  lemma CutElements(list: seq<R.EventId>, at: nat)
    requires at <= |list| && Text.Unrepeated(list)
    ensures Elements(list) - Elements(list[at..]) == Elements(list[..at])
    ensures Elements(list[at..]) <= Elements(list)
  {
    var kept, dropped := list[..at], list[at..];
    assert kept + dropped == list;
    ElementsAre(list);
    ElementsAre(kept);
    ElementsAre(dropped);
    forall e | e in kept ensures e !in dropped {
      var k :| 0 <= k < at && list[k] == e;
      assert forall j :: 0 <= j < |dropped| ==> dropped[j] == list[at + j];
    }
  }

  lemma PopNext(records: R.Records, list: seq<R.EventId>, at: nat, i: nat)
    requires at <= i < |list|
    ensures records - Elements(list[at..i]) - {list[i]} == records - Elements(list[at..i + 1])
  {
    assert list[at..i + 1] == list[at..i] + [list[i]];
    ElementsAre(list[at..i]);
    ElementsAre(list[at..i + 1]);
  }

  /** What pruning dropped can be read off the tables. */
  ghost predicate Pruned(marked: R.Records, events: R.Records) {
    var dropped := marked.Keys - events.Keys;
    events == marked - dropped && R.PruneChoice(marked, dropped)
  }

  lemma PrunedBy(marked: R.Records, dropped: set<R.EventId>)
    requires R.PruneChoice(marked, dropped)
    ensures Pruned(marked, marked - dropped)
  {
    assert dropped <= marked.Keys;
    assert marked.Keys - (marked - dropped).Keys == dropped;
  }

  /** What is left of a completion, field by field. */
  lemma CompletionShows(earlier: R.Records, event: R.EventId, reply: string, now: int, events: R.Records)
    requires Pruned(R.MarkComplete(earlier, event, reply, now), events)
    ensures event in events ==>
              && events[event].status == R.Completed && events[event].replyEventId == reply
              && events[event].updatedAt == now
              && (event in earlier ==> events[event].answer == earlier[event].answer)
    ensures forall e :: e in events && e != event ==> e in earlier && events[e] == earlier[e]
  {
  }

  /** The ids after the 2000 newest. */
  function Oldest(list: seq<R.EventId>): set<R.EventId> {
    if |list| <= R.MAX_COMPLETED then {} else Elements(list[R.MAX_COMPLETED..])
  }

  /** Dropping everything after the 2000 newest is one of the allowed prunings. */
  lemma CutIsPruneChoice(records: R.Records, list: seq<R.EventId>)
    requires NewestFirst(records, list) && Text.Unrepeated(list) && Elements(list) == R.CompletedIds(records)
    ensures R.PruneChoice(records, Oldest(list))
  {
    DistinctSize(list);
    if |list| > R.MAX_COMPLETED {
      var kept, dropped := list[..R.MAX_COMPLETED], list[R.MAX_COMPLETED..];
      CutElements(list, R.MAX_COMPLETED);
      DistinctSize(kept);
      forall k, g | k in Elements(kept) && g in Elements(dropped)
        ensures records[g].updatedAt <= records[k].updatedAt
      {
        var i :| 0 <= i < |kept| && kept[i] == k;
        var j :| 0 <= j < |dropped| && dropped[j] == g;
        assert list[i] == k && list[R.MAX_COMPLETED + j] == g;
      }
    }
  }

  /** `sorted(..., reverse=True)` by time, in some order among ties. */
  method SortNewestFirst(records: R.Records, ids: set<R.EventId>) returns (list: seq<R.EventId>)
    requires ids <= records.Keys
    ensures NewestFirst(records, list) && Text.Unrepeated(list) && Elements(list) == ids
  {
    list := [];
    var rest := ids;
    while rest != {}
      invariant rest <= ids
      invariant NewestFirst(records, list) && Text.Unrepeated(list)
      invariant Elements(list) == ids - rest
      decreases |rest|
    {
      var next :| next in rest;
      ElementsAre(list);
      InsertKeepsOrder(records, list, next);
      list := InsertByTime(records, list, next);
      ElementsAre(list);
      rest := rest - {next};
    }
  }

  // ------------------------------------------------------------------ the state

  class BridgeState {
    var nextBatch: string
    var rooms: map<string, Session>
    var events: R.Records
    /** Session id derived from a room id; a hash in the source. */
    const sessionId: string -> string

    constructor (file: Option<StateFile>, sessionId: string -> string)
      ensures this.sessionId == sessionId
      ensures nextBatch == if file.Some? && file.value.nextBatch.Some? then file.value.nextBatch.value else ""
      ensures rooms == if file.Some? && file.value.rooms.Some? then file.value.rooms.value else map[]
      ensures events == if file.Some? && file.value.events.Some? then file.value.events.value else map[]
    {
      this.sessionId := sessionId;
      nextBatch := if file.Some? && file.value.nextBatch.Some? then file.value.nextBatch.value else "";
      rooms := if file.Some? && file.value.rooms.Some? then file.value.rooms.value else map[];
      events := if file.Some? && file.value.events.Some? then file.value.events.value else map[];
    }

    /** What is loaded of a file: missing parts are empty, and no file is a file without any. */
    static ghost function Completed(file: Option<StateFile>): StateFile {
      var parts := if file.Some? then file.value else StateFile(1, None, None, None);
      StateFile(1, Some(if parts.nextBatch.Some? then parts.nextBatch.value else ""),
                Some(if parts.rooms.Some? then parts.rooms.value else map[]),
                Some(if parts.events.Some? then parts.events.value else map[]))
    }

    /** `load`: a missing file is a fresh state, an unknown version an error. */
    static method Load(file: Option<StateFile>, sessionId: string -> string)
      returns (state: Result<BridgeState, string>)
      ensures state.Err? <==> file.Some? && file.value.version != 1
      ensures state.Ok? ==> fresh(state.value) && state.value.sessionId == sessionId
      ensures state.Ok? ==> state.value.Saved() == Completed(file)
      ensures state.Ok? && file.Some?
              && file.value.nextBatch.Some? && file.value.rooms.Some? && file.value.events.Some? ==>
                state.value.Saved() == file.value
    {
      if file.Some? && file.value.version != 1 {
        return Err("unsupported Matrix bridge state");
      }
      var loaded := new BridgeState(file, sessionId);
      state := Ok(loaded);
    }

    /** What `save` writes. */
    ghost function Saved(): StateFile
      reads this
    {
      StateFile(1, Some(nextBatch), Some(rooms), Some(events))
    }

    method Save() returns (file: StateFile)
      ensures file == Saved()
    {
      file := StateFile(1, Some(nextBatch), Some(rooms), Some(events));
    }

    /** The cursor; blank counts as none. */
    method NextBatch() returns (value: Option<string>)
      ensures value == if Text.Strip(nextBatch) == "" then None else Some(Text.Strip(nextBatch))
    {
      var stripped := Text.Strip(nextBatch);
      value := if stripped == "" then None else Some(stripped);
    }

    method SetNextBatch(value: Option<string>)
      modifies this`nextBatch
      ensures nextBatch == if value.Some? then value.value else ""
    {
      nextBatch := if value.Some? then value.value else "";
    }

    /** One session per room, created on first use and never renamed. */
    method SessionFor(room: string) returns (session: Result<Session, string>)
      modifies this`rooms
      ensures room in rooms && forall r :: r in old(rooms) ==> r in rooms && rooms[r] == old(rooms)[r]
      ensures rooms.Keys == old(rooms).Keys + {room}
      ensures room !in old(rooms) ==> rooms[room] == Session("session-agentteams-" + sessionId(room), false)
      ensures session == if rooms[room].id == "" then Err("no DSH session id") else Ok(rooms[room])
    {
      if room !in rooms {
        rooms := rooms[room := Session("session-agentteams-" + sessionId(room), false)];
      }
      session := if rooms[room].id == "" then Err("no DSH session id") else Ok(rooms[room]);
    }

    method MarkSessionReady(room: string) returns (failure: Option<string>)
      modifies this`rooms
      ensures room in rooms && rooms.Keys == old(rooms).Keys + {room}
      ensures room in old(rooms) ==> rooms[room].id == old(rooms)[room].id
      ensures failure.None? <==> rooms[room].id != ""
      ensures failure.None? ==> rooms[room].ready
      ensures forall r :: r in old(rooms) && r != room ==> rooms[r] == old(rooms)[r]
    {
      var session := SessionFor(room);
      if session.Err? {
        return Some(session.error);
      }
      rooms := rooms[room := rooms[room].(ready := true)];
      failure := None;
    }

    method BeginEvent(event: R.EventId, room: string, now: int) returns (attempts: int)
      modifies this`events
      ensures events == R.BeginEvent(old(events), event, room, now)
      ensures attempts == events[event].attempts >= 1
      ensures events - {event} == old(events) - {event}
      ensures events[event].status == R.Processing && events[event].updatedAt == now
      ensures event !in old(events) ==> attempts == 1 && events[event].roomId == room && events[event].answer == None
      ensures event in old(events) && old(events)[event].attempts >= 1 ==>
                attempts == old(events)[event].attempts + if old(events)[event].status == R.Failed then 1 else 0
      ensures event in old(events) ==>
                && events[event].answer == old(events)[event].answer
                && events[event].outboxBefore == old(events)[event].outboxBefore
    {
      var record := R.BLANK;
      if event !in events {
        record := R.BLANK.(roomId := room, attempts := 1);
      } else {
        record := events[event];
        attempts := R.Max(1, record.attempts);
        if record.status == R.Failed {
          attempts := attempts + 1;
        }
        record := record.(attempts := attempts);
      }
      record := record.(status := R.Processing, updatedAt := now);
      events := events[event := record];
      attempts := record.attempts;
    }

    method MarkAnswer(event: R.EventId, text: string, outputs: seq<string>, now: int)
      modifies this`events
      ensures events == R.MarkAnswer(old(events), event, text, outputs, now)
      ensures event in events && events - {event} == old(events) - {event}
      ensures events[event].status == R.AnswerReady && events[event].answer == Some(R.Answer(text, outputs))
      ensures events[event].outboxBefore == None && events[event].lastError == "" && events[event].updatedAt == now
      ensures event in old(events) ==>
                && events[event].attempts == old(events)[event].attempts
                && events[event].roomId == old(events)[event].roomId
    {
      var record := if event in events then events[event] else R.BLANK;
      record := record.(status := R.AnswerReady, answer := Some(R.Answer(text, outputs)),
                        lastError := "", updatedAt := now);
      record := record.(outboxBefore := None);
      events := events[event := record];
    }

    method MarkOutboxBefore(event: R.EventId, snapshot: R.Snapshot, now: int)
      modifies this`events
      ensures events == R.MarkOutboxBefore(old(events), event, snapshot, now)
      ensures event in events && events - {event} == old(events) - {event}
      ensures events[event].outboxBefore == Some(snapshot) && events[event].updatedAt == now
      ensures event in old(events) ==>
                && events[event].status == old(events)[event].status
                && events[event].answer == old(events)[event].answer
                && events[event].attempts == old(events)[event].attempts
    {
      var record := if event in events then events[event] else R.BLANK;
      events := events[event := record.(outboxBefore := Some(snapshot), updatedAt := now)];
    }

    method MarkFailure(event: R.EventId, error: string, now: int)
      modifies this`events
      ensures events == R.MarkFailure(old(events), event, error, now)
      ensures event in events && events - {event} == old(events) - {event}
      ensures events[event].status == R.Failed && events[event].lastError == error && events[event].updatedAt == now
      ensures events[event].attempts == if event in old(events) then old(events)[event].attempts else 1
      ensures event in old(events) ==>
                && events[event].answer == old(events)[event].answer
                && events[event].outboxBefore == old(events)[event].outboxBefore
    {
      var record := if event in events then events[event] else R.BLANK.(attempts := 1);
      events := events[event := record.(status := R.Failed, lastError := error, updatedAt := now)];
    }

    /**
     `mark_completed`: sorts the completed records by time, the dictionary's
     iteration order deciding ties, and pops everything after the newest 2000.
     */
    method MarkCompleted(event: R.EventId, reply: string, now: int)
      modifies this`events
      ensures Pruned(R.MarkComplete(old(events), event, reply, now), events)
      ensures event in events ==>
                && events[event].status == R.Completed && events[event].replyEventId == reply
                && events[event].updatedAt == now
                && (event in old(events) ==> events[event].answer == old(events)[event].answer)
      ensures forall e :: e in events && e != event ==> e in old(events) && events[e] == old(events)[e]
    {
      var record := if event in events then events[event] else R.BLANK;
      events := events[event := record.(status := R.Completed, replyEventId := reply, updatedAt := now)];
      ghost var marked := events;
      var completed := SortNewestFirst(events, R.CompletedIds(events));
      PopOldest(completed);
      CutIsPruneChoice(marked, completed);
      PrunedBy(marked, Oldest(completed));
      CompletionShows(old(events), event, reply, now, events);
    }

    /** The loop over `completed[2000:]`. */
    method PopOldest(completed: seq<R.EventId>)
      modifies this`events
      ensures events == old(events) - Oldest(completed)
    {
      if |completed| > R.MAX_COMPLETED {
        assert completed[R.MAX_COMPLETED..R.MAX_COMPLETED] == [];
        for i := R.MAX_COMPLETED to |completed|
          invariant events == old(events) - Elements(completed[R.MAX_COMPLETED..i])
        {
          PopNext(old(events), completed, R.MAX_COMPLETED, i);
          events := events - {completed[i]};
        }
        assert completed[R.MAX_COMPLETED..|completed|] == completed[R.MAX_COMPLETED..];
      }
    }

    method OutboxBeforeFor(event: R.EventId) returns (snapshot: Option<R.Snapshot>)
      ensures snapshot == R.OutboxBeforeFor(events, event)
    {
      snapshot := if event in events then events[event].outboxBefore else None;
    }

    method AnswerFor(event: R.EventId) returns (answer: Option<R.Answer>)
      ensures answer == R.AnswerFor(events, event)
      ensures answer == if event in events then events[event].answer else None
    {
      answer := if event in events then events[event].answer else None;
    }

    method ShouldRetry(event: R.EventId, maxAttempts: int) returns (retry: bool)
      ensures retry == R.ShouldRetry(events, event, maxAttempts)
    {
      var attempts := if event in events then events[event].attempts else 0;
      retry := attempts < maxAttempts;
    }

    method IsCompleted(event: R.EventId) returns (completed: bool)
      ensures completed == R.IsCompleted(events, event)
    {
      completed := event in events && events[event].status == R.Completed;
    }
  }
}
