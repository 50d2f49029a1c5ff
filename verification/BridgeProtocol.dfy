/**
 The bridge's delivery loop as a transition system: `main` with a step for every
 point at which an operation can fail or the process can die. State lives in
 memory, in the atomically replaced file, and in the pushed remote copy; a crash
 leaves the file as it was or, when the container starts over, as the remote
 copy has it.
 */
module BridgeProtocol {
  import opened Wrappers
  import opened BridgeRecords
  import opened BridgeLog
  import opened MatrixChannel
  import Text

  /** One copy of the bridge state with the log of how it came about. */
  datatype Copy = Copy(cursor: Option<nat>, records: Records, log: Log)

  /** What a missing state file loads as. */
  const FRESH := Copy(None, map[], [])

  function Write(copy: Copy, op: Op): Copy {
    Copy(CursorAfter(copy.cursor, op), Apply(copy.records, op), copy.log + [op])
  }

  /** Transaction keys; their hashes are taken as injective. */
  datatype TxnKey = ReplyKey(event: EventId) | FileKey(event: EventId, path: string) | FailureKey(event: EventId)

  /** Histories: each entry keeps the log the memory copy had at that moment. */
  datatype Run = Run(event: EventId, attempt: int, before: Snapshot, log: Log)
  datatype Send = Send(room: string, key: TxnKey, body: string, log: Log)
  datatype Retry = Retry(event: EventId, attempt: int, log: Log)

  /** What a save and push were for, which decides where the code goes on. */
  datatype Purpose = OfBoot | OfBegin | OfBaseline | OfAnswer | OfComplete | OfFailure | OfNotice | OfCursor

  datatype PC =
    | Down
    | Booting
    | Idle
    | Looping
    | Saving(purpose: Purpose)
    | Pushing(purpose: Purpose)
    | Trying
    | Running
    | Ran
    | Delivering
    | SendingFiles(sent: nat)
    | Raised
    | Deciding

  datatype State = State(
    pc: PC,
    mem: Copy,
    disk: Copy,
    remote: Copy,
    cfg: Config,
    batch: seq<Event>,
    index: nat,
    upto: nat,
    announced: bool,
    begun: nat,
    timeline: seq<Posted>,
    outbox: Snapshot,
    delivered: map<(string, TxnKey), string>,
    runs: seq<Run>,
    sends: seq<Send>,
    retries: seq<Retry>)

  datatype Action =
    // the surroundings
    | Arrive(posted: Posted)
    | ChangeOutbox(files: Snapshot)
    | Crash(replaced: bool)
    // starting up
    | Load
    | UseLegacyCursor(token: nat)
    | FirstSync(token: nat)
    // saving and pushing
    | Save(saved: bool)
    | Push(pushed: bool, applied: bool)
    // the loop
    | Refresh(cfg: Config)
    | Fetch(upto: nat, announced: bool, batch: seq<Event>)
    | SkipCompleted
    | BeginCurrent(now: int)
    | EndBatch
    | AbandonBatch
    // the inner try
    | UseCachedAnswer
    | TakeBaseline(now: int)
    | ReuseBaseline
    | RunAgent(files: Snapshot, answered: bool)
    | RecordAnswer(text: string, outputs: seq<string>, now: int)
    | SendReply(stored: bool, acknowledged: bool)
    | SendFile(stored: bool, acknowledged: bool)
    | CompleteCurrent(reply: string, now: int, dropped: set<EventId>)
    | RaiseError
    // the handler
    | RecordFailure(error: string, now: int)
    | RetryLater
    | SendNotice(text: string, stored: bool)
    | NoticeSent(text: string, reply: string, now: int, dropped: set<EventId>)

  function Current(s: State): Event
    requires s.index < |s.batch|
  {
    s.batch[s.index]
  }

  /** The homeserver keeps the first message of a transaction. */
  function Deliver(delivered: map<(string, TxnKey), string>, room: string, key: TxnKey, body: string): map<(string,
                   TxnKey), string> {
    if (room, key) in delivered then delivered else delivered[(room, key) := body]
  }

  function AfterPush(s: State, purpose: Purpose): State {
    match purpose
    case OfBoot => s.(pc := Idle)
    case OfBegin => s.(pc := Trying)
    case OfBaseline => s.(pc := Running)
    case OfAnswer => s.(pc := Delivering)
    case OfComplete => s.(pc := Looping, index := s.index + 1)
    case OfFailure => s.(pc := Deciding)
    case OfNotice => s.(pc := Looping, index := s.index + 1)
    case OfCursor => s.(pc := Idle)
  }

  /** Inside the inner try an error is recorded; outside it the loop starts over. */
  function OnError(purpose: Purpose): PC {
    match purpose
    case OfBoot => Down
    case OfBaseline => Raised
    case OfAnswer => Raised
    case OfComplete => Raised
    case _ => Idle
  }

  /** The gap-filled payload holds exactly the actionable events of a stretch. */
  ghost predicate IsBatch(cfg: Config, timeline: seq<Posted>, origin: nat, upto: nat, batch: seq<Event>) {
    origin <= upto <= |timeline| && forall event :: event in batch <==> ActionableIn(cfg, timeline, origin, upto, event)
  }

  ghost predicate InTry(pc: PC) {
    pc == Trying || pc == Running || pc == Ran || pc == Delivering || pc.SendingFiles?
  }

  ghost predicate Step(maxAttempts: int, s: State, a: Action, s': State) {
    match a
    case Arrive(posted) =>
      s' == s.(timeline := s.timeline + [posted]) && DistinctStream(s'.timeline)
    case ChangeOutbox(files) =>
      s' == s.(outbox := files)
    case Crash(replaced) =>
      s' == s.(pc := Down, disk := if replaced then s.remote else s.disk)

    case Load =>
      && s.pc == Down
      && s' == s.(pc := if s.disk.cursor.Some? then Idle else Booting, mem := s.disk)
    case UseLegacyCursor(token) =>
      s.pc == Booting && token <= |s.timeline| && s' == s.(pc := Idle, mem := Write(s.mem, Adopt(token)))
    case FirstSync(token) =>
      s.pc == Booting && token <= |s.timeline| && s' == s.(pc := Saving(OfBoot), mem := Write(s.mem, Adopt(token)))

    case Save(saved) =>
      && s.pc.Saving?
      && s' == if saved then s.(pc := Pushing(s.pc.purpose), disk := s.mem) else s.(pc := OnError(s.pc.purpose))
    case Push(pushed, applied) =>
      && s.pc.Pushing?
      && (pushed ==> applied)
      && var copied := if applied then s.(remote := s.disk) else s;
         s' == if pushed then AfterPush(copied, s.pc.purpose) else copied.(pc := OnError(s.pc.purpose))

    case Refresh(cfg) =>
      s.pc == Idle && s' == s.(cfg := cfg)
    case Fetch(upto, announced, batch) =>
      && s.pc == Idle && s.mem.cursor.Some?
      && IsBatch(s.cfg, s.timeline, s.mem.cursor.value, upto, batch)
      && s' == s.(pc := Looping, batch := batch, index := 0, upto := upto, announced := announced)
    case SkipCompleted =>
      && s.pc == Looping && s.index < |s.batch|
      && IsCompleted(s.mem.records, Current(s).eventId)
      && s' == s.(index := s.index + 1)
    case BeginCurrent(now) =>
      && s.pc == Looping && s.index < |s.batch|
      && !IsCompleted(s.mem.records, Current(s).eventId)
      && s' == s.(pc := Saving(OfBegin), begun := |s.mem.log|,
                  mem := Write(s.mem, Begin(Current(s).eventId, Current(s).roomId, now)))
    case EndBatch =>
      && s.pc == Looping && s.index == |s.batch| && s.mem.cursor.Some?
      && s' == if s.announced && s.upto != s.mem.cursor.value
               then s.(pc := Saving(OfCursor), mem := Write(s.mem, Advance(s.mem.cursor.value, s.upto, s.cfg)))
               else s.(pc := Idle)

    case AbandonBatch =>
      s.pc == Looping && s' == s.(pc := Idle)

    case UseCachedAnswer =>
      && s.pc == Trying && s.index < |s.batch|
      && AnswerFor(s.mem.records, Current(s).eventId).Some?
      && s' == s.(pc := Delivering)
    case TakeBaseline(now) =>
      && s.pc == Trying && s.index < |s.batch|
      && AnswerFor(s.mem.records, Current(s).eventId) == None
      && OutboxBeforeFor(s.mem.records, Current(s).eventId) == None
      && s' == s.(pc := Saving(OfBaseline), mem := Write(s.mem, Baseline(Current(s).eventId, s.outbox, now)))
    case ReuseBaseline =>
      && s.pc == Trying && s.index < |s.batch|
      && AnswerFor(s.mem.records, Current(s).eventId) == None
      && OutboxBeforeFor(s.mem.records, Current(s).eventId).Some?
      && s' == s.(pc := Running)
    case RunAgent(files, answered) =>
      && s.pc == Running && s.index < |s.batch|
      && OutboxBeforeFor(s.mem.records, Current(s).eventId).Some?
      && var record := s.mem.records[Current(s).eventId];
         s' == s.(pc := if answered then Ran else Raised, outbox := files,
                  runs := s.runs + [Run(Current(s).eventId, record.attempts, record.outboxBefore.value, s.mem.log)])
    case RecordAnswer(text, outputs, now) =>
      && s.pc == Ran && s.index < |s.batch| && text != ""
      && OutboxBeforeFor(s.mem.records, Current(s).eventId).Some?
      && Text.SortedListOf(outputs, Changed(OutboxBeforeFor(s.mem.records, Current(s).eventId).value, s.outbox))
      && s' == s.(pc := Saving(OfAnswer),
                  mem := Write(s.mem, Answered(Current(s).eventId, text, outputs, s.outbox, now)))
    case SendReply(stored, acknowledged) =>
      && s.pc == Delivering && s.index < |s.batch| && (acknowledged ==> stored)
      && AnswerFor(s.mem.records, Current(s).eventId).Some?
      && var event := Current(s);
         var text := AnswerFor(s.mem.records, event.eventId).value.text;
         var send := Send(event.roomId, ReplyKey(event.eventId), text, s.mem.log);
         s' == s.(pc := if acknowledged then SendingFiles(0) else Raised,
                  sends := s.sends + [send],
                  delivered := if stored then Deliver(s.delivered, send.room, send.key, send.body) else s.delivered)
    case SendFile(stored, acknowledged) =>
      && s.pc.SendingFiles? && s.index < |s.batch| && (acknowledged ==> stored)
      && AnswerFor(s.mem.records, Current(s).eventId).Some?
      && s.pc.sent < |AnswerFor(s.mem.records, Current(s).eventId).value.outputs|
      && var event := Current(s);
         var path := AnswerFor(s.mem.records, event.eventId).value.outputs[s.pc.sent];
         var send := Send(event.roomId, FileKey(event.eventId, path), path, s.mem.log);
         s' == s.(pc := if acknowledged then SendingFiles(s.pc.sent + 1) else Raised,
                  sends := s.sends + [send],
                  delivered := if stored then Deliver(s.delivered, send.room, send.key, send.body) else s.delivered)
    case CompleteCurrent(reply, now, dropped) =>
      && s.pc.SendingFiles? && s.index < |s.batch|
      && AnswerFor(s.mem.records, Current(s).eventId).Some?
      && s.pc.sent == |AnswerFor(s.mem.records, Current(s).eventId).value.outputs|
      && PruneChoice(MarkComplete(s.mem.records, Current(s).eventId, reply, now), dropped)
      && s' == s.(pc := Saving(OfComplete), mem := Write(s.mem, Complete(Current(s).eventId, reply, now, dropped)))
    case RaiseError =>
      InTry(s.pc) && s' == s.(pc := Raised)

    case RecordFailure(error, now) =>
      && s.pc == Raised && s.index < |s.batch|
      && s' == s.(pc := Saving(OfFailure), mem := Write(s.mem, Fail(Current(s).eventId, error, now)))
    case RetryLater =>
      && s.pc == Deciding && s.index < |s.batch|
      && ShouldRetry(s.mem.records, Current(s).eventId, maxAttempts)
      && s' == s.(pc := Idle,
                  retries := s.retries + [RetryOf(s)])
    case SendNotice(text, stored) =>
      && s.pc == Deciding && s.index < |s.batch|
      && !ShouldRetry(s.mem.records, Current(s).eventId, maxAttempts)
      && s' == Notified(s, text, stored).(pc := Idle)
    case NoticeSent(text, reply, now, dropped) =>
      && s.pc == Deciding && s.index < |s.batch|
      && !ShouldRetry(s.mem.records, Current(s).eventId, maxAttempts)
      && PruneChoice(MarkComplete(s.mem.records, Current(s).eventId, reply, now), dropped)
      && s' == Notified(s, text, true).(
                 pc := Saving(OfNotice), mem := Write(s.mem, Complete(Current(s).eventId, reply, now, dropped)))
  }

  function RetryOf(s: State): Retry
    requires s.index < |s.batch|
  {
    Retry(Current(s).eventId, RecordOr(s.mem.records, Current(s).eventId, BLANK).attempts, s.mem.log)
  }

  /** The failure notice went out; the server may or may not have stored it. */
  function Notified(s: State, text: string, stored: bool): State
    requires s.index < |s.batch|
  {
    var event := Current(s);
    s.(sends := s.sends + [Send(event.roomId, FailureKey(event.eventId), text, s.mem.log)],
       delivered := if stored then Deliver(s.delivered, event.roomId, FailureKey(event.eventId), text) else s.delivered)
  }

  ghost predicate Init(s: State) {
    && s.pc == Down && s.mem == FRESH && s.disk == FRESH && s.remote == FRESH
    && DistinctStream(s.timeline)
    && s.delivered == map[] && s.runs == [] && s.sends == [] && s.retries == []
  }

  /** A run of the system: each state follows from the one before by some action. */
  ghost predicate Behavior(maxAttempts: int, states: seq<State>, actions: seq<Action>) {
    && |states| == |actions| + 1
    && Init(states[0])
    && forall k :: 0 <= k < |actions| ==> StepAt(maxAttempts, states, actions, k)
  }

  ghost predicate StepAt(maxAttempts: int, states: seq<State>, actions: seq<Action>, k: nat)
    requires k < |actions| && |states| == |actions| + 1
  {
    Step(maxAttempts, states[k], actions[k], states[k + 1])
  }
}
