/**
 The event records of the Matrix bridge and what each state transition does to
 them, as functions of the record table. The class in BridgeState.dfy updates a
 table in place and is proved against these functions; the delivery protocol in
 BridgeProtocol.dfy takes its steps with them.
 */
module BridgeRecords {
  import opened Wrappers

  type EventId = string

  /** Outbox path to content digest. */
  type Snapshot = map<string, string>

  datatype Status = NoStatus | Processing | AnswerReady | Failed | Completed

  datatype Answer = Answer(text: string, outputs: seq<string>)

  /** A missing "attempts" key reads as 0, a missing time as 0. */
  datatype Record = Record(
    roomId: string,
    attempts: int,
    status: Status,
    answer: Option<Answer>,
    outboxBefore: Option<Snapshot>,
    lastError: string,
    replyEventId: string,
    updatedAt: int)

  type Records = map<EventId, Record>

  /** The record `setdefault(event_id, {})` creates. */
  const BLANK := Record("", 0, NoStatus, None, None, "", "", 0)

  /** How many completed records survive a completion. */
  const MAX_COMPLETED: nat := 2000

  function RecordOr(records: Records, event: EventId, default: Record): Record {
    if event in records then records[event] else default
  }

  function Max(a: int, b: int): int {
    if a < b then b else a
  }

  // ---------------------------------------------------------------- reading

  function AnswerFor(records: Records, event: EventId): Option<Answer> {
    if event in records then records[event].answer else None
  }

  function OutboxBeforeFor(records: Records, event: EventId): Option<Snapshot> {
    if event in records then records[event].outboxBefore else None
  }

  predicate ShouldRetry(records: Records, event: EventId, maxAttempts: int) {
    RecordOr(records, event, BLANK).attempts < maxAttempts
  }

  predicate IsCompleted(records: Records, event: EventId) {
    event in records && records[event].status == Completed
  }

  // --------------------------------------------------------------- updating

  function BeginEvent(records: Records, event: EventId, room: string, now: int): Records {
    var record :=
      if event in records then
        var attempts := Max(1, records[event].attempts);
        records[event].(attempts := if records[event].status == Failed then attempts + 1 else attempts)
      else BLANK.(roomId := room, attempts := 1);
    records[event := record.(status := Processing, updatedAt := now)]
  }

  function MarkAnswer(records: Records, event: EventId, text: string, outputs: seq<string>, now: int): Records {
    records[event := RecordOr(records, event, BLANK).(
      status := AnswerReady, answer := Some(Answer(text, outputs)), lastError := "",
      outboxBefore := None, updatedAt := now)]
  }

  function MarkOutboxBefore(records: Records, event: EventId, snapshot: Snapshot, now: int): Records {
    records[event := RecordOr(records, event, BLANK).(outboxBefore := Some(snapshot), updatedAt := now)]
  }

  function MarkFailure(records: Records, event: EventId, error: string, now: int): Records {
    records[event := RecordOr(records, event, BLANK.(attempts := 1)).(
      status := Failed, lastError := error, updatedAt := now)]
  }

  /** The update of `mark_completed`, before it prunes. */
  function MarkComplete(records: Records, event: EventId, reply: string, now: int): Records {
    records[event := RecordOr(records, event, BLANK).(
      status := Completed, replyEventId := reply, updatedAt := now)]
  }

  // ---------------------------------------------------------------- pruning

  function CompletedIds(records: Records): set<EventId> {
    set e | e in records && records[e].status == Completed
  }

  /**
   The sets of records pruning may drop. Records with equal whole-second
   timestamps are cut in dictionary order, which a reload of the file changes,
   so every choice among ties is allowed here.
   */
  ghost predicate PruneChoice(records: Records, dropped: set<EventId>) {
    var completed := CompletedIds(records);
    && dropped <= completed
    && (|completed| <= MAX_COMPLETED ==> dropped == {})
    && (|completed| > MAX_COMPLETED ==> |completed - dropped| == MAX_COMPLETED)
    && forall kept, gone :: kept in completed - dropped && gone in dropped ==>
                              records[gone].updatedAt <= records[kept].updatedAt
  }

  /** Other completed records with an equal or later timestamp. */
  function Rivals(records: Records, event: EventId): set<EventId>
    requires event in records
  {
    set e | e in CompletedIds(records) && e != event && records[event].updatedAt <= records[e].updatedAt
  }

  function StrictlyLater(records: Records, event: EventId): set<EventId>
    requires event in records
  {
    set e | e in CompletedIds(records) && records[event].updatedAt < records[e].updatedAt
  }

  lemma SubsetSize<T>(a: set<T>, b: set<T>)
    requires a <= b
    ensures |a| <= |b|
  {
    assert b == a + (b - a);
  }

  /**
   Whatever pruning drops: at most 2000 completed records remain, unfinished
   records all stay, and kept ones are at least as recent as dropped ones.
   */
  lemma PruningKeepsTheRecent(records: Records, dropped: set<EventId>)
    requires PruneChoice(records, dropped)
    ensures |CompletedIds(records - dropped)| <= 2000
    ensures forall e :: e in records && records[e].status != Completed ==>
            e in records - dropped && (records - dropped)[e] == records[e]
    ensures forall kept, gone :: kept in CompletedIds(records - dropped) && gone in dropped ==>
                                   records[gone].updatedAt <= records[kept].updatedAt
  {
    assert CompletedIds(records - dropped) == CompletedIds(records) - dropped;
  }

  /** A completed record with fewer than 2000 rivals survives. */
  lemma RecentSurvives(records: Records, dropped: set<EventId>, event: EventId)
    requires PruneChoice(records, dropped) && IsCompleted(records, event)
    requires |Rivals(records, event)| < 2000
    ensures event in records - dropped
  {
    if event in dropped {
      var kept := CompletedIds(records) - dropped;
      forall e | e in kept ensures e in Rivals(records, event) {}
      SubsetSize(kept, Rivals(records, event));
      assert false;
    }
  }

  /** A completed record with 2000 strictly later ones is always dropped. */
  lemma OldIsDropped(records: Records, dropped: set<EventId>, event: EventId)
    requires PruneChoice(records, dropped) && IsCompleted(records, event)
    requires |StrictlyLater(records, event)| >= 2000
    ensures event in dropped
  {
    var completed := CompletedIds(records);
    var later := StrictlyLater(records, event);
    assert event !in later;
    SubsetSize(later + {event}, completed);
    if event !in dropped {
      assert event in completed - dropped;
      forall e | e in later ensures e in completed - dropped {}
      SubsetSize(later + {event}, completed - dropped);
      assert false;
    }
  }
}
