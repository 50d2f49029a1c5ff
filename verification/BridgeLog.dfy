/**
 The history behind one copy of the bridge state: every transition recorded in
 it, in order. The state file holds only what the log amounts to; the log is the
 history variable the delivery theorems are about.
 */
module BridgeLog {
  import opened Wrappers
  import opened BridgeRecords
  import opened MatrixChannel
  import Text

  /** One entry of the server's event stream. */
  datatype Posted = Posted(room: string, raw: RawEvent)

  /**
   A recorded transition. `after` is the outbox the outputs of an answer were
   measured on, `dropped` what pruning removed, and Advance says which stretch
   of the stream was finished under which configuration.
   */
  datatype Op =
    | Adopt(token: nat)
    | Begin(event: EventId, room: string, now: int)
    | Baseline(event: EventId, snapshot: Snapshot, now: int)
    | Answered(event: EventId, text: string, outputs: seq<string>, after: Snapshot, now: int)
    | Fail(event: EventId, error: string, now: int)
    | Complete(event: EventId, reply: string, now: int, dropped: set<EventId>)
    | Advance(origin: nat, to: nat, cfg: Config)

  type Log = seq<Op>

  predicate Concerns(op: Op, event: EventId) {
    match op
    case Begin(e, _, _) => e == event
    case Baseline(e, _, _) => e == event
    case Answered(e, _, _, _, _) => e == event
    case Fail(e, _, _) => e == event
    case Complete(e, _, _, _) => e == event
    case _ => false
  }

  /** Outbox files that are new or whose digest changed. */
  function Changed(before: Snapshot, after: Snapshot): set<string> {
    set path | path in after && (path !in before || before[path] != after[path])
  }

  // ----------------------------------------------------------------- replay

  function Apply(records: Records, op: Op): Records {
    match op
    case Begin(event, room, now) => BeginEvent(records, event, room, now)
    case Baseline(event, snapshot, now) => MarkOutboxBefore(records, event, snapshot, now)
    case Answered(event, text, outputs, _, now) => MarkAnswer(records, event, text, outputs, now)
    case Fail(event, error, now) => MarkFailure(records, event, error, now)
    case Complete(event, reply, now, dropped) => MarkComplete(records, event, reply, now) - dropped
    case Adopt(_) => records
    case Advance(_, _, _) => records
  }

  function Replay(log: Log): Records {
    if log == [] then map[] else Apply(Replay(log[..|log| - 1]), log[|log| - 1])
  }

  function CursorAfter(cursor: Option<nat>, op: Op): Option<nat> {
    match op
    case Adopt(token) => Some(token)
    case Advance(_, to, _) => Some(to)
    case _ => cursor
  }

  function CursorOf(log: Log): Option<nat> {
    if log == [] then None else CursorAfter(CursorOf(log[..|log| - 1]), log[|log| - 1])
  }

  /** What the bridge checks before it records a transition. */
  ghost predicate Guard(records: Records, cursor: Option<nat>, op: Op) {
    match op
    case Adopt(_) => cursor == None
    case Advance(origin, to, _) => cursor == Some(origin) && origin <= to
    case Begin(event, _, _) => cursor.Some? && !IsCompleted(records, event)
    case Baseline(event, _, _) =>
      && cursor.Some? && event in records && records[event].status == Processing
      && records[event].answer == None && records[event].outboxBefore == None
    case Answered(event, _, outputs, after, _) =>
      && cursor.Some? && event in records && records[event].status == Processing
      && records[event].answer == None && records[event].outboxBefore.Some?
      && Text.SortedListOf(outputs, Changed(records[event].outboxBefore.value, after))
    case Fail(_, _, _) => cursor.Some?
    case Complete(event, reply, now, dropped) =>
      cursor.Some? && event in records && PruneChoice(MarkComplete(records, event, reply, now), dropped)
  }

  ghost predicate Legal(log: Log) {
    log == [] ||
    var rest := log[..|log| - 1];
    Legal(rest) && Guard(Replay(rest), CursorOf(rest), log[|log| - 1])
  }

  lemma LogPush(log: Log, op: Op)
    ensures Replay(log + [op]) == Apply(Replay(log), op)
    ensures CursorOf(log + [op]) == CursorAfter(CursorOf(log), op)
    ensures Legal(log + [op]) <==> Legal(log) && Guard(Replay(log), CursorOf(log), op)
  {
    assert (log + [op])[..|log|] == log;
  }

  lemma {:induction false} LegalPrefix(log: Log, k: nat)
    requires Legal(log) && k <= |log|
    ensures Legal(log[..k])
  {
    if k < |log| {
      LegalPrefix(log[..|log| - 1], k);
      assert log[..|log| - 1][..k] == log[..k];
    } else {
      assert log[..k] == log;
    }
  }

  /** The guard that held when entry k was recorded. */
  lemma GuardAt(log: Log, k: nat)
    requires Legal(log) && k < |log|
    ensures Legal(log[..k]) && Guard(Replay(log[..k]), CursorOf(log[..k]), log[k])
  {
    LegalPrefix(log, k + 1);
    assert log[..k + 1] == log[..k] + [log[k]];
    LogPush(log[..k], log[k]);
  }

  // --------------------------------------------------- what survives for ever

  /** Pruning removed the event's record at entry n or later. */
  ghost predicate Dropped(log: Log, n: int, event: EventId) {
    exists k :: 0 <= k < |log| && n <= k && log[k].Complete? && event in log[k].dropped
  }

  /** Attempts, counting a failure not yet retried. */
  function Progress(record: Record): int {
    record.attempts + if record.status == Failed || record.status == Completed then 1 else 0
  }

  /** What later transitions keep of a record. */
  ghost predicate Keeps(earlier: Records, later: Records, event: EventId) {
    event in earlier ==>
      && event in later
      && (earlier[event].answer.Some? ==> later[event].answer == earlier[event].answer)
      && (earlier[event].outboxBefore.Some? && later[event].answer == None ==>
          later[event].outboxBefore == earlier[event].outboxBefore)
      && 1 <= earlier[event].attempts <= later[event].attempts
      && Progress(earlier[event]) <= Progress(later[event])
  }

  lemma {:induction false} AttemptsPositive(log: Log, event: EventId)
    requires Legal(log)
    ensures event in Replay(log) ==> Replay(log)[event].attempts >= 1
  {
    if log != [] {
      AttemptsPositive(log[..|log| - 1], event);
    }
  }

  /** A record not dropped since keeps its answer and its baseline and never loses attempts. */
  lemma {:induction false} RecordPersists(log: Log, k: nat, event: EventId)
    requires Legal(log) && k <= |log| && !Dropped(log, k, event)
    ensures Keeps(Replay(log[..k]), Replay(log), event)
    decreases |log|
  {
    if k == |log| {
      assert log[..k] == log;
      AttemptsPositive(log, event);
    } else {
      var n := |log| - 1;
      assert log[..n][..k] == log[..k];
      assert !Dropped(log[..n], k, event);
      RecordPersists(log[..n], k, event);
      AttemptsPositive(log[..n], event);
      OpKeeps(Replay(log[..n]), CursorOf(log[..n]), log[n], event);
    }
  }

  /** One more transition that does not drop the record keeps it. */
  lemma OpKeeps(records: Records, cursor: Option<nat>, op: Op, event: EventId)
    requires Guard(records, cursor, op) && !(op.Complete? && event in op.dropped)
    requires event in records ==> records[event].attempts >= 1
    ensures Keeps(records, Apply(records, op), event)
  {
  }

  lemma DroppedLater(earlier: Log, later: Log, n: int, event: EventId)
    requires earlier <= later && Dropped(earlier, n, event)
    ensures Dropped(later, n, event)
  {
    var k :| 0 <= k < |earlier| && n <= k && earlier[k].Complete? && event in earlier[k].dropped;
    assert later[k] == earlier[k];
  }

  lemma DroppedSince(log: Log, n: int, m: int, event: EventId)
    requires n <= m && Dropped(log, m, event)
    ensures Dropped(log, n, event)
  {
    var k :| 0 <= k < |log| && m <= k && log[k].Complete? && event in log[k].dropped;
    assert n <= k;
  }

  /** The same from one log to a longer one. */
  lemma Persists(earlier: Log, later: Log, event: EventId)
    requires Legal(later) && earlier <= later && !Dropped(later, |earlier|, event)
    ensures Keeps(Replay(earlier), Replay(later), event)
  {
    assert earlier == later[..|earlier|];
    RecordPersists(later, |earlier|, event);
  }

  /** Right after it was begun an event is being processed. */
  lemma BegunIsProcessing(log: Log, begun: nat, event: EventId)
    requires Legal(log) && begun < |log| && log[begun].Begin? && log[begun].event == event
    ensures event in Replay(log[..begun + 1]) && Replay(log[..begun + 1])[event].status == Processing
  {
    assert log[..begun + 1] == log[..begun] + [log[begun]];
    LogPush(log[..begun], log[begun]);
  }

  /** A record that failed and was begun again, and not dropped since, has a higher attempt number. */
  lemma BegunAgainIsHigher(log: Log, k: nat, begun: nat, event: EventId)
    requires Legal(log) && k <= begun < |log| && !Dropped(log, k, event)
    requires log[begun].Begin? && log[begun].event == event
    requires event in Replay(log[..k]) && Replay(log[..k])[event].status == Failed
    ensures event in Replay(log) && Replay(log[..k])[event].attempts < Replay(log)[event].attempts
  {
    var upto := log[..begun + 1];
    LegalPrefix(log, begun + 1);
    if Dropped(upto, k, event) {
      DroppedLater(upto, log, k, event);
    }
    if Dropped(log, begun + 1, event) {
      DroppedSince(log, k, begun + 1, event);
    }
    BegunIsProcessing(log, begun, event);
    assert log[..k] <= upto;
    Persists(log[..k], upto, event);
    Persists(upto, log, event);
  }

  ghost predicate FailsBetween(log: Log, k: nat, event: EventId) {
    exists j :: k <= j < |log| && log[j].Fail? && log[j].event == event
  }

  /** Where a record unfinished at entry k stands later. */
  ghost predicate Tally(record: Record, attempts: int, failed: bool) {
    if failed then Progress(record) > attempts
    else record.attempts == attempts && record.status != Failed && record.status != NoStatus
  }

  lemma {:induction false} AttemptsTally(log: Log, k: nat, event: EventId)
    requires Legal(log) && k <= |log| && !Dropped(log, k, event)
    requires event in Replay(log[..k])
    requires Replay(log[..k])[event].status == Processing || Replay(log[..k])[event].status == AnswerReady
    ensures event in Replay(log)
    ensures Tally(Replay(log)[event], Replay(log[..k])[event].attempts, FailsBetween(log, k, event))
    decreases |log|
  {
    if k == |log| {
      assert log[..k] == log;
    } else {
      var n := |log| - 1;
      var rest, op := log[..n], log[n];
      assert rest[..k] == log[..k];
      assert !Dropped(rest, k, event);
      AttemptsTally(rest, k, event);
      AttemptsPositive(rest, event);
      FailsPush(log, k, event);
      var attempts := Replay(log[..k])[event].attempts;
      OpTallies(Replay(rest), CursorOf(rest), op, event, attempts, FailsBetween(rest, k, event));
    }
  }

  lemma FailsPush(log: Log, k: nat, event: EventId)
    requires k < |log|
    ensures var n := |log| - 1;
            FailsBetween(log, k, event) <==> FailsBetween(log[..n], k, event) || (log[n].Fail? && log[n].event == event)
  {
    var n := |log| - 1;
    var rest := log[..n];
    if j :| k <= j < |log| && log[j].Fail? && log[j].event == event {
      assert j < n ==> rest[j].Fail? && rest[j].event == event;
    }
    if j :| k <= j < |rest| && rest[j].Fail? && rest[j].event == event {
      assert log[j] == rest[j];
    }
    if log[n].Fail? && log[n].event == event {
      assert log[n].Fail?;
    }
  }

  lemma OpTallies(records: Records, cursor: Option<nat>, op: Op, event: EventId, attempts: int, failed: bool)
    requires Guard(records, cursor, op) && !(op.Complete? && event in op.dropped)
    requires event in records && records[event].attempts >= 1 && Tally(records[event], attempts, failed)
    ensures var later := Apply(records, op);
            event in later && Tally(later[event], attempts, failed || (op.Fail? && op.event == event))
  {
  }

  // ------------------------------------------------------ the last transition

  /** The status the event's last recorded transition gave it. */
  function LastStatus(log: Log, event: EventId): Option<Status> {
    if log == [] then None
    else
      var op := log[|log| - 1];
      if !Concerns(op, event) || op.Baseline? then LastStatus(log[..|log| - 1], event)
      else
        match op
        case Begin(_, _, _) => Some(Processing)
        case Answered(_, _, _, _, _) => Some(AnswerReady)
        case Fail(_, _, _) => Some(Failed)
        case _ => Some(Completed)
  }

  lemma LastStatusPush(log: Log, op: Op, event: EventId)
    ensures !Concerns(op, event) || op.Baseline? ==> LastStatus(log + [op], event) == LastStatus(log, event)
    ensures op.Complete? && op.event == event ==> LastStatus(log + [op], event) == Some(Completed)
    ensures op.Begin? && op.event == event ==> LastStatus(log + [op], event) == Some(Processing)
    ensures op.Fail? && op.event == event ==> LastStatus(log + [op], event) == Some(Failed)
  {
    assert (log + [op])[..|log|] == log;
  }

  /** A record's status is its event's last transition. */
  lemma {:induction false} StatusIsLast(log: Log, event: EventId)
    requires Legal(log) && event in Replay(log)
    ensures LastStatus(log, event) == Some(Replay(log)[event].status)
  {
    var rest, op := log[..|log| - 1], log[|log| - 1];
    if event in Replay(rest) {
      StatusIsLast(rest, event);
    }
  }

  // --------------------------------------------- what a record holds, and why

  /** The event's last recorded transition. */
  function LastOp(log: Log, event: EventId): Option<Op> {
    if log == [] then None
    else if Concerns(log[|log| - 1], event) then Some(log[|log| - 1])
    else LastOp(log[..|log| - 1], event)
  }

  /** A record shows what its event's last transition recorded. */
  ghost predicate Shows(record: Record, op: Op) {
    match op
    case Begin(_, _, now) => record.status == Processing && record.updatedAt == now
    case Baseline(_, snapshot, now) => record.outboxBefore == Some(snapshot) && record.updatedAt == now
    case Answered(_, text, outputs, _, now) =>
      && record.status == AnswerReady && record.answer == Some(Answer(text, outputs))
      && record.outboxBefore == None && record.lastError == "" && record.updatedAt == now
    case Fail(_, error, now) => record.status == Failed && record.lastError == error && record.updatedAt == now
    case Complete(_, reply, now, _) =>
      record.status == Completed && record.replyEventId == reply && record.updatedAt == now
    case _ => false
  }

  lemma {:induction false} RecordShowsLast(log: Log, event: EventId)
    requires Legal(log) && event in Replay(log)
    ensures LastOp(log, event).Some? && Shows(Replay(log)[event], LastOp(log, event).value)
  {
    var rest, op := log[..|log| - 1], log[|log| - 1];
    if !Concerns(op, event) {
      OthersUntouched(Replay(rest), op, event);
      RecordShowsLast(rest, event);
    }
  }

  lemma OthersUntouched(records: Records, op: Op, event: EventId)
    requires !Concerns(op, event) && event in Apply(records, op)
    ensures event in records && Apply(records, op)[event] == records[event]
  {
  }

  /** Until its record is dropped, an event's answer has the text and the outputs it was recorded with. */
  lemma AnswerIsKept(log: Log, n: nat)
    requires Legal(log) && n < |log| && log[n].Answered? && !Dropped(log, n, log[n].event)
    ensures AnswerFor(Replay(log), log[n].event) == Some(Answer(log[n].text, log[n].outputs))
  {
    assert log[..n + 1] == log[..n] + [log[n]];
    LegalPrefix(log, n + 1);
    LogPush(log[..n], log[n]);
    if Dropped(log, n + 1, log[n].event) {
      DroppedSince(log, n, n + 1, log[n].event);
    }
    Persists(log[..n + 1], log, log[n].event);
  }

  /** Every answer was recorded, in the record's present life. */
  lemma {:induction false} AnswerHasEntry(log: Log, event: EventId) returns (n: nat)
    requires Legal(log) && AnswerFor(Replay(log), event).Some?
    ensures n < |log| && log[n].Answered? && log[n].event == event && !Dropped(log, n, event)
    ensures AnswerFor(Replay(log), event).value == Answer(log[n].text, log[n].outputs)
  {
    var rest, op := log[..|log| - 1], log[|log| - 1];
    assert log == rest + [op];
    n := |log| - 1;
    if !(op.Answered? && op.event == event) {
      AnswerWasThere(Replay(rest), op, event);
      n := AnswerHasEntry(rest, event);
      StillAlive(rest, op, n, event);
    }
  }

  lemma AnswerWasThere(records: Records, op: Op, event: EventId)
    requires AnswerFor(Apply(records, op), event).Some? && !(op.Answered? && op.event == event)
    ensures AnswerFor(records, event) == AnswerFor(Apply(records, op), event)
    ensures !(op.Complete? && event in op.dropped)
  {
  }

  lemma StillAlive(log: Log, op: Op, n: nat, event: EventId)
    requires !Dropped(log, n, event) && !(op.Complete? && event in op.dropped)
    ensures !Dropped(log + [op], n, event)
  {
    var longer := log + [op];
    assert longer[|log|] == op;
    assert forall k :: 0 <= k < |log| ==> longer[k] == log[k];
  }

  /** Every baseline was recorded, in the record's present life. */
  lemma {:induction false} BaselineHasEntry(log: Log, event: EventId) returns (n: nat)
    requires Legal(log) && OutboxBeforeFor(Replay(log), event).Some?
    ensures n < |log| && log[n].Baseline? && log[n].event == event && !Dropped(log, n, event)
    ensures OutboxBeforeFor(Replay(log), event).value == log[n].snapshot
  {
    var rest, op := log[..|log| - 1], log[|log| - 1];
    assert log == rest + [op];
    n := |log| - 1;
    if !(op.Baseline? && op.event == event) {
      BaselineWasThere(Replay(rest), op, event);
      n := BaselineHasEntry(rest, event);
      StillAlive(rest, op, n, event);
    }
  }

  lemma BaselineWasThere(records: Records, op: Op, event: EventId)
    requires OutboxBeforeFor(Apply(records, op), event).Some? && !(op.Baseline? && op.event == event)
    ensures OutboxBeforeFor(records, event) == OutboxBeforeFor(Apply(records, op), event)
    ensures !(op.Complete? && event in op.dropped)
  {
  }

  // -------------------------------------------------------- stream coverage

  function StreamId(posted: Posted): EventId {
    Text.Strip(IdOf(posted.raw))
  }

  ghost predicate DistinctStream(timeline: seq<Posted>) {
    forall i, j :: 0 <= i < j < |timeline| && StreamId(timeline[i]) == StreamId(timeline[j]) ==>
            StreamId(timeline[i]) == ""
  }

  predicate Yields(cfg: Config, posted: Posted, event: Event) {
    Watched(cfg, posted.room) && Extract(cfg, posted.room, posted.raw) == Some(event)
  }

  /** The actionable events of a stretch of the stream. */
  ghost predicate ActionableIn(cfg: Config, timeline: seq<Posted>, origin: nat, to: nat, event: Event)
    requires to <= |timeline|
  {
    exists i :: origin <= i < to && Yields(cfg, timeline[i], event)
  }

  lemma YieldsId(cfg: Config, posted: Posted, event: Event)
    requires Yields(cfg, posted, event)
    ensures event.eventId == StreamId(posted) && event.eventId != ""
  {
  }

  /** Finished stretches: every actionable event of one was last recorded as completed. */
  ghost predicate Covered(log: Log, timeline: seq<Posted>) {
    forall k, event :: 0 <= k < |log| && log[k].Advance? && StretchHolds(log[k], timeline, event) ==>
                         LastStatus(log, event.eventId) == Some(Completed)
  }

  ghost predicate StretchHolds(op: Op, timeline: seq<Posted>, event: Event) {
    op.Advance? && op.to <= |timeline| && ActionableIn(op.cfg, timeline, op.origin, op.to, event)
  }

  ghost predicate WithinStream(log: Log, timeline: seq<Posted>) {
    && (CursorOf(log).Some? ==> CursorOf(log).value <= |timeline|)
    && forall k :: 0 <= k < |log| && log[k].Advance? ==> CursorOf(log).Some? && log[k].to <= CursorOf(log).value
  }

  /** The adopted start of a log. */
  function Start(log: Log): nat {
    if log != [] && log[0].Adopt? then log[0].token else 0
  }

  /** Legal logs start by adopting a cursor, and the advances leave no position out. */
  lemma {:induction false} AdvancesTile(log: Log, i: nat)
    requires Legal(log) && CursorOf(log).Some? && Start(log) <= i < CursorOf(log).value
    ensures log != [] && log[0].Adopt?
    ensures exists k :: 0 <= k < |log| && log[k].Advance? && log[k].origin <= i < log[k].to
  {
    StartsByAdopting(log);
    var n := |log| - 1;
    if log[n].Advance? && log[n].origin <= i {
      assert i < log[n].to;
    } else if n > 0 {
      StartsByAdopting(log[..n]);
      AdvancesTile(log[..n], i);
      var k :| 0 <= k < n && log[..n][k].Advance? && log[..n][k].origin <= i < log[..n][k].to;
      assert log[k] == log[..n][k];
    }
  }

  lemma {:induction false} StartsByAdopting(log: Log)
    requires Legal(log) && log != []
    ensures log[0].Adopt? && CursorOf(log).Some?
    ensures forall k :: 0 < k < |log| ==> !log[k].Adopt?
  {
    if |log| > 1 {
      StartsByAdopting(log[..|log| - 1]);
    }
  }
}
