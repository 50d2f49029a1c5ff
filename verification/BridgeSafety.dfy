/** The invariant of the delivery loop: every step of every run keeps it. */
module BridgeSafety {
  import opened Wrappers
  import opened BridgeRecords
  import opened BridgeLog
  import opened BridgeProtocol
  import opened MatrixChannel
  import Text

  // ------------------------------------------------------------- the copies

  /** A copy holds what its log amounts to, and its finished stretches are finished. */
  ghost predicate Good(copy: Copy, timeline: seq<Posted>) {
    && copy.records == Replay(copy.log) && copy.cursor == CursorOf(copy.log)
    && Legal(copy.log) && WithinStream(copy.log, timeline) && Covered(copy.log, timeline)
  }

  /** The remote copy trails the file, which trails memory. */
  ghost predicate Trailing(s: State) {
    && s.remote.log <= s.disk.log
    && (s.pc != Down ==> s.disk.log <= s.mem.log)
  }

  ghost predicate CopiesGood(s: State) {
    && DistinctStream(s.timeline)
    && Good(s.disk, s.timeline) && Good(s.remote, s.timeline)
    && (s.pc != Down ==> Good(s.mem, s.timeline))
    && Trailing(s)
  }

  // ---------------------------------------------------------- the histories

  /** What was recorded, saved and pushed when an agent run started. */
  ghost predicate RunFact(run: Run) {
    var records := Replay(run.log);
    && Legal(run.log)
    && run.event in records && records[run.event].status == Processing
    && records[run.event].attempts == run.attempt
    && records[run.event].answer == None && records[run.event].outboxBefore == Some(run.before)
  }

  ghost predicate SendFact(send: Send) {
    && Legal(send.log)
    && match send.key
       case ReplyKey(event) =>
         AnswerFor(Replay(send.log), event).Some? && AnswerFor(Replay(send.log), event).value.text == send.body
       case FileKey(event, path) =>
         && AnswerFor(Replay(send.log), event).Some? && path in AnswerFor(Replay(send.log), event).value.outputs
         && send.body == path
       case FailureKey(event) =>
         event in Replay(send.log) && Replay(send.log)[event].status == Failed
  }

  ghost predicate RetryFact(maxAttempts: int, retry: Retry) {
    var records := Replay(retry.log);
    && Legal(retry.log)
    && retry.event in records && records[retry.event].status == Failed
    && records[retry.event].attempts == retry.attempt && 1 <= retry.attempt < maxAttempts
  }

  /** An earlier retry had a smaller attempt number, unless the record was dropped in between. */
  ghost predicate RetriesRise(retries: seq<Retry>) {
    forall i, j ::
      && 0 <= i < j < |retries| && retries[i].event == retries[j].event
      && !Dropped(retries[j].log, |retries[i].log|, retries[j].event)
      ==> retries[i].attempt < retries[j].attempt
  }

  ghost predicate DeliveredWereSent(s: State) {
    forall where :: where in s.delivered ==>
                      exists k :: 0 <= k < |s.sends| && s.sends[k].key == where.1
                                  && s.sends[k].body == s.delivered[where]
  }

  /** Earlier entries were recorded at earlier logs, all of them pushed. */
  ghost predicate HistoriesGood(maxAttempts: int, s: State) {
    && (forall k :: 0 <= k < |s.runs| ==> RunFact(s.runs[k]) && s.runs[k].log <= s.remote.log)
    && (forall k :: 0 <= k < |s.sends| ==> SendFact(s.sends[k]) && s.sends[k].log <= s.remote.log)
    && (forall k :: 0 <= k < |s.retries| ==> RetryFact(maxAttempts, s.retries[k]) && s.retries[k].log <= s.remote.log)
    && (forall i, j :: 0 <= i < j < |s.runs| ==> s.runs[i].log <= s.runs[j].log)
    && RetriesRise(s.retries)
    && DeliveredWereSent(s)
  }

  // ------------------------------------------------------------ the control

  ghost predicate InEvent(pc: PC) {
    || InTry(pc) || pc == Raised || pc == Deciding
    || ((pc.Saving? || pc.Pushing?) && pc.purpose != OfBoot && pc.purpose != OfCursor)
  }

  ghost predicate Synced(s: State) {
    s.disk == s.mem && s.remote == s.mem
  }

  /** What the current event's record holds while its handling is at a purpose. */
  ghost predicate RecordAt(s: State, purpose: Purpose, event: EventId) {
    match purpose
    case OfBegin => event in s.mem.records && s.mem.records[event].status == Processing
    case OfBaseline =>
      && event in s.mem.records && s.mem.records[event].status == Processing
      && s.mem.records[event].answer == None && s.mem.records[event].outboxBefore.Some?
    case OfAnswer => AnswerFor(s.mem.records, event).Some? && !IsCompleted(s.mem.records, event)
    case OfComplete => LastStatus(s.mem.log, event) == Some(Completed)
    case OfNotice => LastStatus(s.mem.log, event) == Some(Completed)
    case OfFailure => event in s.mem.records && s.mem.records[event].status == Failed
    case _ => true
  }

  function PurposeOf(pc: PC): Purpose
    requires InTry(pc) || pc == Deciding || pc.Saving? || pc.Pushing?
  {
    match pc
    case Trying => OfBegin
    case Running => OfBaseline
    case Ran => OfBaseline
    case Delivering => OfAnswer
    case SendingFiles(_) => OfAnswer
    case Deciding => OfFailure
    case _ => pc.purpose
  }

  /** The events before the current one are done. */
  ghost predicate EarlierDone(s: State) {
    forall j ::
      && 0 <= j < s.index && j < |s.batch|
      && (InEvent(s.pc) && s.index < |s.batch| ==> s.batch[j].eventId != Current(s).eventId)
      ==>
                  LastStatus(s.mem.log, s.batch[j].eventId) == Some(Completed)
  }

  ghost predicate ControlGood(s: State) {
    && (s.pc == Booting ==> s.mem.cursor == None)
    && (s.pc != Booting && s.pc != Down ==> s.mem.cursor.Some?)
    && (s.pc == Looping || InEvent(s.pc) ==>
          && s.mem.cursor.Some?
          && s.index <= |s.batch|
          && IsBatch(s.cfg, s.timeline, s.mem.cursor.value, s.upto, s.batch)
          && EarlierDone(s))
    && (InEvent(s.pc) ==>
          && s.index < |s.batch|
          && s.begun < |s.mem.log|
          && s.mem.log[s.begun].Begin? && s.mem.log[s.begun].event == Current(s).eventId
          && (forall k :: 0 <= k < |s.retries| ==> |s.retries[k].log| <= s.begun)
          && (s.pc != Raised ==> RecordAt(s, PurposeOf(s.pc), Current(s).eventId)))
    && (s.pc.Pushing? ==> s.disk == s.mem)
    && (InTry(s.pc) || s.pc == Deciding ==> Synced(s))
  }

  ghost predicate Inv(maxAttempts: int, s: State) {
    CopiesGood(s) && HistoriesGood(maxAttempts, s) && ControlGood(s)
  }

  // --------------------------------------------------- writing to the memory

  lemma StretchIsFinished(log: Log, timeline: seq<Posted>, op: Op, event: Event, current: Event, cursor: nat,
                          upto: nat, cfg: Config)
    requires DistinctStream(timeline) && cursor <= upto <= |timeline|
    requires op.Advance? && op.to <= cursor && StretchHolds(op, timeline, event)
    requires ActionableIn(cfg, timeline, cursor, upto, current)
    ensures event.eventId != current.eventId
  {
    var i :| op.origin <= i < op.to && Yields(op.cfg, timeline[i], event);
    var j :| cursor <= j < upto && Yields(cfg, timeline[j], current);
    YieldsId(op.cfg, timeline[i], event);
    YieldsId(cfg, timeline[j], current);
  }

  /** Recording a transition of the event being handled keeps the copy good. */
  lemma WriteEvent(copy: Copy, op: Op, timeline: seq<Posted>, cfg: Config, upto: nat, current: Event)
    requires DistinctStream(timeline) && Good(copy, timeline)
    requires Guard(copy.records, copy.cursor, op) && Concerns(op, current.eventId)
    requires copy.cursor.Some? && copy.cursor.value <= upto <= |timeline|
    requires ActionableIn(cfg, timeline, copy.cursor.value, upto, current)
    ensures Good(Write(copy, op), timeline)
  {
    LogPush(copy.log, op);
    var log := copy.log + [op];
    forall k, event | 0 <= k < |log| && log[k].Advance? && StretchHolds(log[k], timeline, event)
      ensures LastStatus(log, event.eventId) == Some(Completed)
    {
      assert log[k] == copy.log[k];
      StretchIsFinished(copy.log, timeline, log[k], event, current, copy.cursor.value, upto, cfg);
      LastStatusPush(copy.log, op, event.eventId);
    }
  }

  lemma WriteAdopt(copy: Copy, token: nat, timeline: seq<Posted>)
    requires Good(copy, timeline) && copy.cursor == None && token <= |timeline|
    ensures Good(Write(copy, Adopt(token)), timeline)
  {
    LogPush(copy.log, Adopt(token));
    if copy.log != [] {
      StartsByAdopting(copy.log);
    }
  }

  lemma WriteAdvance(copy: Copy, timeline: seq<Posted>, upto: nat, cfg: Config)
    requires Good(copy, timeline) && copy.cursor.Some? && copy.cursor.value <= upto <= |timeline|
    requires forall event :: ActionableIn(cfg, timeline, copy.cursor.value, upto, event) ==>
            LastStatus(copy.log, event.eventId) == Some(Completed)
    ensures Good(Write(copy, Advance(copy.cursor.value, upto, cfg)), timeline)
  {
    var op := Advance(copy.cursor.value, upto, cfg);
    LogPush(copy.log, op);
    var log := copy.log + [op];
    forall k, event | 0 <= k < |log| && log[k].Advance? && StretchHolds(log[k], timeline, event)
      ensures LastStatus(log, event.eventId) == Some(Completed)
    {
      LastStatusPush(copy.log, op, event.eventId);
      if k < |copy.log| {
        assert log[k] == copy.log[k];
      }
    }
  }

  /** The server's stream growing changes no finished stretch. */
  lemma GoodAsStreamGrows(copy: Copy, timeline: seq<Posted>, posted: Posted)
    requires Good(copy, timeline)
    ensures Good(copy, timeline + [posted])
  {
    var longer := timeline + [posted];
    forall k, event | 0 <= k < |copy.log| && copy.log[k].Advance? && StretchHolds(copy.log[k], longer, event)
      ensures LastStatus(copy.log, event.eventId) == Some(Completed)
    {
      SameStretch(copy.log[k].cfg, timeline, posted, copy.log[k].origin, copy.log[k].to, event);
    }
  }

  lemma SameStretch(cfg: Config, timeline: seq<Posted>, posted: Posted, origin: nat, to: nat, event: Event)
    requires to <= |timeline|
    ensures ActionableIn(cfg, timeline + [posted], origin, to, event)
       <==> ActionableIn(cfg, timeline, origin, to, event)
  {
    if ActionableIn(cfg, timeline, origin, to, event) {
      var i :| origin <= i < to && Yields(cfg, timeline[i], event);
      assert Yields(cfg, (timeline + [posted])[i], event);
    }
    if ActionableIn(cfg, timeline + [posted], origin, to, event) {
      var i :| origin <= i < to && Yields(cfg, (timeline + [posted])[i], event);
      assert Yields(cfg, timeline[i], event);
    }
  }

  // ------------------------------------------------------------- the copies

  /** The op a step writes to memory, if any. */
  ghost predicate WritesOp(s: State, s': State, op: Op) {
    s'.mem == Write(s.mem, op) && s'.disk == s.disk && s'.remote == s.remote && s'.timeline == s.timeline
  }

  lemma CurrentActionable(s: State)
    requires ControlGood(s) && (s.pc == Looping || InEvent(s.pc)) && s.index < |s.batch|
    ensures ActionableIn(s.cfg, s.timeline, s.mem.cursor.value, s.upto, Current(s))
  {
  }

  /** A step that writes a transition of the current event keeps the copies good. */
  lemma CopiesAfterWrite(s: State, s': State, op: Op)
    requires CopiesGood(s) && ControlGood(s)
    requires (s.pc == Looping || InEvent(s.pc)) && s.index < |s.batch| && s'.pc != Down
    requires Guard(s.mem.records, s.mem.cursor, op) && Concerns(op, Current(s).eventId) && WritesOp(s, s', op)
    ensures CopiesGood(s')
  {
    CurrentActionable(s);
    WriteEvent(s.mem, op, s.timeline, s.cfg, s.upto, Current(s));
  }

  lemma BatchFinished(s: State)
    requires ControlGood(s) && s.pc == Looping && s.index == |s.batch|
    ensures forall event :: ActionableIn(s.cfg, s.timeline, s.mem.cursor.value, s.upto, event) ==>
            LastStatus(s.mem.log, event.eventId) == Some(Completed)
  {
    forall event | ActionableIn(s.cfg, s.timeline, s.mem.cursor.value, s.upto, event)
      ensures LastStatus(s.mem.log, event.eventId) == Some(Completed)
    {
      assert event in s.batch;
    }
  }

  /** A step that records something in memory. */
  predicate Writes(s: State, s': State, a: Action) {
    || a.UseLegacyCursor? || a.FirstSync? || (a.EndBatch? && s'.pc != Idle)
    || (s.index < |s.batch| && EventOp(s, a).Some?)
  }

  /** Steps of the inner try. */
  predicate TryAction(a: Action) {
    || a.UseCachedAnswer? || a.TakeBaseline? || a.ReuseBaseline? || a.RunAgent? || a.RecordAnswer?
    || a.SendReply? || a.SendFile? || a.CompleteCurrent? || a.RaiseError?
  }

  /** Steps of its handler. */
  predicate HandlerAction(a: Action) {
    a.RecordFailure? || a.RetryLater? || a.SendNotice? || a.NoticeSent?
  }

  predicate MovesCopies(a: Action) {
    a.Arrive? || a.Crash? || a.Load? || a.Save? || a.Push?
  }

  /** The transition of the current event an action records. */
  function EventOp(s: State, a: Action): Option<Op>
    requires s.index < |s.batch|
  {
    var event := Current(s).eventId;
    match a
    case BeginCurrent(now) => Some(Begin(event, Current(s).roomId, now))
    case TakeBaseline(now) => Some(Baseline(event, s.outbox, now))
    case RecordAnswer(text, outputs, now) => Some(Answered(event, text, outputs, s.outbox, now))
    case CompleteCurrent(reply, now, dropped) => Some(Complete(event, reply, now, dropped))
    case RecordFailure(error, now) => Some(Fail(event, error, now))
    case NoticeSent(_, reply, now, dropped) => Some(Complete(event, reply, now, dropped))
    case _ => None
  }

  /** What the control point says of the cursor and the current event's record. */
  ghost predicate AtPoint(s: State) {
    && (s.pc == Booting ==> s.mem.cursor == None)
    && (s.pc != Booting && s.pc != Down ==> s.mem.cursor.Some?)
    && (InEvent(s.pc) ==>
          && s.index < |s.batch|
          && (s.pc != Raised ==> RecordAt(s, PurposeOf(s.pc), Current(s).eventId)))
  }

  /** The control points record only what the guard of the log allows. */
  lemma GuardHolds(maxAttempts: int, s: State, a: Action, s': State)
    requires AtPoint(s) && Step(maxAttempts, s, a, s') && s.index < |s.batch| && EventOp(s, a).Some?
    ensures WritesGuarded(s, EventOp(s, a).value, s')
  {
    if TryAction(a) {
      GuardHoldsInTry(maxAttempts, s, a, s');
    } else {
      GuardHoldsElsewhere(maxAttempts, s, a, s');
    }
  }

  /** The step records this transition of the current event, as the log's guard allows. */
  ghost predicate WritesGuarded(s: State, op: Op, s': State)
    requires s.index < |s.batch|
  {
    && WritesOp(s, s', op) && Concerns(op, Current(s).eventId) && Guard(s.mem.records, s.mem.cursor, op)
    && (s.pc == Looping || InEvent(s.pc)) && s'.pc != Down
  }

  lemma GuardHoldsInTry(maxAttempts: int, s: State, a: Action, s': State)
    requires AtPoint(s) && Step(maxAttempts, s, a, s') && s.index < |s.batch| && EventOp(s, a).Some?
    requires a.TakeBaseline? || a.RecordAnswer? || a.CompleteCurrent?
    ensures WritesGuarded(s, EventOp(s, a).value, s')
  {
  }

  lemma GuardHoldsElsewhere(maxAttempts: int, s: State, a: Action, s': State)
    requires AtPoint(s) && Step(maxAttempts, s, a, s') && s.index < |s.batch| && EventOp(s, a).Some?
    requires a.BeginCurrent? || a.RecordFailure? || a.NoticeSent?
    ensures WritesGuarded(s, EventOp(s, a).value, s')
  {
    match a
    case BeginCurrent(now) => GuardOfBegin(maxAttempts, s, now, s');
    case RecordFailure(error, now) => GuardOfFailure(maxAttempts, s, error, now, s');
    case NoticeSent(text, reply, now, dropped) => GuardOfNotice(maxAttempts, s, text, reply, now, dropped, s');
  }

  lemma GuardOfBegin(maxAttempts: int, s: State, now: int, s': State)
    requires AtPoint(s) && Step(maxAttempts, s, BeginCurrent(now), s')
    ensures WritesGuarded(s, Begin(Current(s).eventId, Current(s).roomId, now), s')
  {
  }

  lemma GuardOfFailure(maxAttempts: int, s: State, error: string, now: int, s': State)
    requires AtPoint(s) && Step(maxAttempts, s, RecordFailure(error, now), s')
    ensures WritesGuarded(s, Fail(Current(s).eventId, error, now), s')
  {
  }

  lemma GuardOfNotice(maxAttempts: int, s: State, text: string, reply: string, now: int, dropped: set<EventId>,
                      s': State)
    requires AtPoint(s) && Step(maxAttempts, s, NoticeSent(text, reply, now, dropped), s')
    ensures WritesGuarded(s, Complete(Current(s).eventId, reply, now, dropped), s')
  {
    NoticeStep(maxAttempts, s, text, reply, now, dropped, s');
    NoticeGuard(s, reply, now, dropped);
  }

  lemma NoticeStep(maxAttempts: int, s: State, text: string, reply: string, now: int, dropped: set<EventId>, s': State)
    requires Step(maxAttempts, s, NoticeSent(text, reply, now, dropped), s')
    ensures s.pc == Deciding && s.index < |s.batch| && s'.pc == Saving(OfNotice)
    ensures PruneChoice(MarkComplete(s.mem.records, Current(s).eventId, reply, now), dropped)
    ensures WritesOp(s, s', Complete(Current(s).eventId, reply, now, dropped))
  {
  }

  lemma NoticeGuard(s: State, reply: string, now: int, dropped: set<EventId>)
    requires AtPoint(s) && s.pc == Deciding && s.index < |s.batch|
    requires PruneChoice(MarkComplete(s.mem.records, Current(s).eventId, reply, now), dropped)
    ensures Guard(s.mem.records, s.mem.cursor, Complete(Current(s).eventId, reply, now, dropped))
  {
  }

  lemma BootingKeepsCopies(s: State, s': State, token: nat)
    requires CopiesGood(s) && s.pc == Booting && s.mem.cursor == None && token <= |s.timeline|
    requires WritesOp(s, s', Adopt(token)) && s'.pc != Down
    ensures CopiesGood(s')
  {
    WriteAdopt(s.mem, token, s.timeline);
  }

  lemma AdvancingKeepsCopies(s: State, s': State)
    requires CopiesGood(s) && ControlGood(s) && s.pc == Looping && s.index == |s.batch| && s'.pc != Down
    requires WritesOp(s, s', Advance(s.mem.cursor.value, s.upto, s.cfg))
    ensures CopiesGood(s')
  {
    BatchFinished(s);
    WriteAdvance(s.mem, s.timeline, s.upto, s.cfg);
  }

  lemma ArrivingKeepsCopies(s: State, s': State, posted: Posted)
    requires CopiesGood(s) && s' == s.(timeline := s.timeline + [posted]) && DistinctStream(s'.timeline)
    ensures CopiesGood(s')
  {
    GoodAsStreamGrows(s.disk, s.timeline, posted);
    GoodAsStreamGrows(s.remote, s.timeline, posted);
    if s.pc != Down {
      GoodAsStreamGrows(s.mem, s.timeline, posted);
    }
  }

  /** Loading, saving, pushing and crashing only copy good copies, and keep them trailing. */
  lemma CopyingKeepsCopies(s: State, s': State)
    requires CopiesGood(s) && s'.timeline == s.timeline
    requires s'.remote == s.remote || s'.remote == s.disk
    requires s'.disk == s.disk || (s'.disk == s.mem && s.pc != Down) || s'.disk == s.remote
    requires s'.pc != Down ==> s'.mem == s.disk || (s.pc != Down && s'.mem == s.mem)
    requires Trailing(s')
    ensures CopiesGood(s')
  {
  }

  lemma OtherStepsLeaveCopies(maxAttempts: int, s: State, a: Action, s': State)
    requires Step(maxAttempts, s, a, s') && !Writes(s, s', a) && !MovesCopies(a)
    ensures s'.mem == s.mem && s'.disk == s.disk && s'.remote == s.remote && s'.timeline == s.timeline
    ensures s'.pc == Down <==> s.pc == Down
  {
    if TryAction(a) {
      OtherStepsLeaveCopiesInTry(maxAttempts, s, a, s');
    } else if HandlerAction(a) {
      OtherStepsLeaveCopiesInHandler(maxAttempts, s, a, s');
    } else {
      OtherStepsLeaveCopiesOutsideEvent(maxAttempts, s, a, s');
    }
  }

  lemma OtherStepsLeaveCopiesInTry(maxAttempts: int, s: State, a: Action, s': State)
    requires Step(maxAttempts, s, a, s') && !Writes(s, s', a) && !MovesCopies(a)
    requires TryAction(a)
    ensures s'.mem == s.mem && s'.disk == s.disk && s'.remote == s.remote && s'.timeline == s.timeline
    ensures s'.pc == Down <==> s.pc == Down
  {
  }

  lemma OtherStepsLeaveCopiesInHandler(maxAttempts: int, s: State, a: Action, s': State)
    requires Step(maxAttempts, s, a, s') && !Writes(s, s', a) && !MovesCopies(a)
    requires HandlerAction(a)
    ensures s'.mem == s.mem && s'.disk == s.disk && s'.remote == s.remote && s'.timeline == s.timeline
    ensures s'.pc == Down <==> s.pc == Down
  {
  }

  lemma OtherStepsLeaveCopiesOutsideEvent(maxAttempts: int, s: State, a: Action, s': State)
    requires Step(maxAttempts, s, a, s') && !Writes(s, s', a) && !MovesCopies(a)
    requires !TryAction(a) && !HandlerAction(a)
    ensures s'.mem == s.mem && s'.disk == s.disk && s'.remote == s.remote && s'.timeline == s.timeline
    ensures s'.pc == Down <==> s.pc == Down
  {
  }

  lemma MovesTrailing(maxAttempts: int, s: State, a: Action, s': State)
    requires Trailing(s) && Step(maxAttempts, s, a, s') && (a.Crash? || a.Load? || a.Save? || a.Push?)
    requires s.pc.Pushing? ==> s.disk == s.mem
    ensures CopiesMoved(s, s')
  {
    if a.Crash? || a.Load? {
      RestartMoves(maxAttempts, s, a, s');
    } else {
      RecordingMoves(maxAttempts, s, a, s');
    }
  }

  /** Each copy is what it was or what a copy ahead or behind it was, and they still trail. */
  ghost predicate CopiesMoved(s: State, s': State) {
    && s'.timeline == s.timeline
    && (s'.remote == s.remote || s'.remote == s.disk)
    && (s'.disk == s.disk || (s'.disk == s.mem && s.pc != Down) || s'.disk == s.remote)
    && (s'.pc != Down ==> s'.mem == s.disk || (s.pc != Down && s'.mem == s.mem))
    && Trailing(s')
  }

  lemma RestartMoves(maxAttempts: int, s: State, a: Action, s': State)
    requires Trailing(s) && Step(maxAttempts, s, a, s') && (a.Crash? || a.Load?)
    ensures CopiesMoved(s, s')
  {
  }

  lemma RecordingMoves(maxAttempts: int, s: State, a: Action, s': State)
    requires Trailing(s) && Step(maxAttempts, s, a, s') && (a.Save? || a.Push?)
    requires s.pc.Pushing? ==> s.disk == s.mem
    ensures CopiesMoved(s, s')
  {
  }

  lemma StepKeepsCopies(maxAttempts: int, s: State, a: Action, s': State)
    requires CopiesGood(s) && ControlGood(s) && Step(maxAttempts, s, a, s')
    ensures CopiesGood(s')
  {
    if s.index < |s.batch| && EventOp(s, a).Some? {
      GuardHolds(maxAttempts, s, a, s');
      CopiesAfterWrite(s, s', EventOp(s, a).value);
    } else if a.UseLegacyCursor? || a.FirstSync? {
      BootingKeepsCopies(s, s', a.token);
    } else if a.EndBatch? && s'.pc != Idle {
      AdvancingKeepsCopies(s, s');
    } else if a.Arrive? {
      ArrivingKeepsCopies(s, s', a.posted);
    } else if a.Crash? || a.Load? || a.Save? || a.Push? {
      MovesTrailing(maxAttempts, s, a, s');
      CopyingKeepsCopies(s, s');
    } else {
      OtherStepsLeaveCopies(maxAttempts, s, a, s');
    }
  }

  // ------------------------------------------------------------ the control

  /** Outside the loop over a batch only the cursor matters. */
  lemma ControlOutsideLoop(s': State)
    requires s'.pc != Looping && !InEvent(s'.pc)
    requires s'.pc == Booting ==> s'.mem.cursor == None
    requires s'.pc != Booting && s'.pc != Down ==> s'.mem.cursor.Some?
    requires s'.pc.Pushing? ==> s'.disk == s'.mem
    ensures ControlGood(s')
  {
  }

  /** Same batch, same memory: moving between points of one event's handling. */
  lemma ControlInEvent(s: State, s': State)
    requires ControlGood(s) && InEvent(s.pc) && InEvent(s'.pc)
    requires s'.mem == s.mem && s'.cfg == s.cfg && s'.batch == s.batch && s'.index == s.index && s'.upto == s.upto
    requires s'.timeline == s.timeline && s'.begun == s.begun && s'.retries == s.retries
    requires s'.pc != Raised ==> RecordAt(s', PurposeOf(s'.pc), Current(s).eventId)
    requires s'.pc.Pushing? ==> s'.disk == s'.mem
    requires InTry(s'.pc) || s'.pc == Deciding ==> Synced(s')
    ensures ControlGood(s')
  {
  }

  /** A transition of the current event leaves the earlier events done. */
  lemma EarlierStayDone(s: State, s': State, op: Op)
    requires EarlierDone(s) && s.index < |s.batch| && Concerns(op, Current(s).eventId)
    requires s'.mem == Write(s.mem, op) && s'.batch == s.batch && s'.index == s.index && InEvent(s'.pc)
    ensures EarlierDone(s')
  {
    forall j | 0 <= j < s'.index && s'.batch[j].eventId != Current(s').eventId
      ensures LastStatus(s'.mem.log, s'.batch[j].eventId) == Some(Completed)
    {
      LastStatusPush(s.mem.log, op, s.batch[j].eventId);
    }
  }

  lemma ControlAfterWrite(s: State, s': State, op: Op)
    requires ControlGood(s) && InEvent(s.pc) && WritesOp(s, s', op) && Concerns(op, Current(s).eventId)
    requires s'.cfg == s.cfg && s'.batch == s.batch && s'.index == s.index && s'.upto == s.upto
    requires s'.begun == s.begun && s'.retries == s.retries
    requires s'.pc.Saving? && InEvent(s'.pc) && RecordAt(s', s'.pc.purpose, Current(s).eventId)
    ensures ControlGood(s')
  {
    EarlierStayDone(s, s', op);
    assert s'.mem.cursor == s.mem.cursor;
    assert s'.mem.log[s.begun] == s.mem.log[s.begun];
  }

  lemma ControlAfterBegin(maxAttempts: int, s: State, s': State, now: int)
    requires Inv(maxAttempts, s) && Step(maxAttempts, s, BeginCurrent(now), s')
    ensures ControlGood(s')
  {
    EarlierStayDone(s, s', Begin(Current(s).eventId, Current(s).roomId, now));
    assert s'.mem.log[s'.begun] == Begin(Current(s).eventId, Current(s).roomId, now);
    forall k | 0 <= k < |s'.retries| ensures |s'.retries[k].log| <= s'.begun {
      assert s.retries[k].log <= s.remote.log <= s.disk.log <= s.mem.log;
    }
  }

  /** After its completion is pushed the current event is done too. */
  lemma ControlAfterDone(s: State, s': State)
    requires ControlGood(s) && s.pc.Pushing? && (s.pc.purpose == OfComplete || s.pc.purpose == OfNotice)
    requires s'.pc == Looping && s'.index == s.index + 1 && s'.batch == s.batch && s'.mem == s.mem
    requires s'.cfg == s.cfg && s'.upto == s.upto && s'.timeline == s.timeline
    ensures ControlGood(s')
  {
    forall j | 0 <= j < s'.index ensures LastStatus(s'.mem.log, s'.batch[j].eventId) == Some(Completed) {
      if s.batch[j].eventId == Current(s).eventId {
        assert RecordAt(s, s.pc.purpose, Current(s).eventId);
      }
    }
  }

  lemma ControlAfterSkip(s: State, s': State)
    requires ControlGood(s) && s.pc == Looping && s.index < |s.batch| && s' == s.(index := s.index + 1)
    requires LastStatus(s.mem.log, Current(s).eventId) == Some(Completed)
    ensures ControlGood(s')
  {
    forall j | 0 <= j < s'.index ensures LastStatus(s'.mem.log, s'.batch[j].eventId) == Some(Completed) {
      if j == s.index {
        assert s.batch[j] == Current(s);
      }
    }
  }

  lemma SkippedIsCompleted(maxAttempts: int, s: State, s': State)
    requires s.pc != Down && Good(s.mem, s.timeline) && Step(maxAttempts, s, SkipCompleted, s')
    ensures LastStatus(s.mem.log, Current(s).eventId) == Some(Completed)
  {
    StatusIsLast(s.mem.log, Current(s).eventId);
  }

  lemma ControlAfterArrive(s: State, s': State, posted: Posted)
    requires ControlGood(s) && s' == s.(timeline := s.timeline + [posted])
    ensures ControlGood(s')
  {
    if s.pc == Looping || InEvent(s.pc) {
      forall event ensures event in s.batch <==> ActionableIn(s.cfg, s'.timeline, s.mem.cursor.value, s.upto, event) {
        SameStretch(s.cfg, s.timeline, posted, s.mem.cursor.value, s.upto, event);
      }
    }
  }

  /** Where each step that records a transition of the current event leaves its record. */
  lemma RecordAfterWrite(maxAttempts: int, s: State, a: Action, s': State)
    requires AtPoint(s) && Step(maxAttempts, s, a, s') && InEvent(s.pc) && EventOp(s, a).Some?
    ensures s'.pc.Saving? && InEvent(s'.pc) && RecordAt(s', s'.pc.purpose, Current(s).eventId)
    ensures s'.cfg == s.cfg && s'.batch == s.batch && s'.index == s.index && s'.upto == s.upto
    ensures s'.begun == s.begun && s'.retries == s.retries
  {
    LastStatusPush(s.mem.log, EventOp(s, a).value, Current(s).eventId);
  }

  predicate WithinEvent(a: Action) {
    || a.UseCachedAnswer? || a.ReuseBaseline? || a.RunAgent? || a.SendReply? || a.SendFile? || a.RaiseError?
  }

  /** Steps of the inner try that record nothing. */
  lemma ControlWithinEvent(maxAttempts: int, s: State, a: Action, s': State)
    requires ControlGood(s) && Step(maxAttempts, s, a, s') && WithinEvent(a)
    ensures ControlGood(s')
  {
    if a.UseCachedAnswer? || a.ReuseBaseline? || a.RunAgent? {
      ControlBeforeAnswer(maxAttempts, s, a, s');
    } else {
      ControlAfterAnswer(maxAttempts, s, a, s');
    }
  }

  lemma ControlBeforeAnswer(maxAttempts: int, s: State, a: Action, s': State)
    requires ControlGood(s) && Step(maxAttempts, s, a, s') && (a.UseCachedAnswer? || a.ReuseBaseline? || a.RunAgent?)
    ensures ControlGood(s')
  {
    ControlInEvent(s, s');
  }

  lemma ControlAfterAnswer(maxAttempts: int, s: State, a: Action, s': State)
    requires ControlGood(s) && Step(maxAttempts, s, a, s') && (a.SendReply? || a.SendFile? || a.RaiseError?)
    ensures ControlGood(s')
  {
    ControlInEvent(s, s');
  }

  /** Saving, and failing to save or push, stay in the event or leave the loop. */
  lemma ControlAfterSave(maxAttempts: int, s: State, s': State, saved: bool)
    requires ControlGood(s) && Step(maxAttempts, s, Save(saved), s')
    ensures ControlGood(s')
  {
    if InEvent(s'.pc) {
      ControlInEvent(s, s');
    } else {
      ControlOutsideLoop(s');
    }
  }

  lemma ControlAfterFailedPush(maxAttempts: int, s: State, s': State, applied: bool)
    requires ControlGood(s) && Step(maxAttempts, s, Push(false, applied), s')
    ensures ControlGood(s')
  {
    if InEvent(s'.pc) {
      ControlInEvent(s, s');
    } else {
      ControlOutsideLoop(s');
    }
  }

  lemma ControlAfterPush(maxAttempts: int, s: State, s': State)
    requires ControlGood(s) && Step(maxAttempts, s, Push(true, true), s')
    ensures ControlGood(s')
  {
    if s'.pc == Looping {
      ControlAfterDone(s, s');
    } else if InEvent(s'.pc) {
      ControlPushedInEvent(maxAttempts, s, s');
    } else {
      ControlPushedOutside(maxAttempts, s, s');
    }
  }

  lemma ControlPushedInEvent(maxAttempts: int, s: State, s': State)
    requires ControlGood(s) && Step(maxAttempts, s, Push(true, true), s') && InEvent(s'.pc)
    ensures ControlGood(s')
  {
    if s.pc.purpose == OfBegin || s.pc.purpose == OfBaseline {
      ControlPushedBeforeRun(maxAttempts, s, s');
    } else {
      ControlPushedAfterRun(maxAttempts, s, s');
    }
  }

  lemma ControlPushedBeforeRun(maxAttempts: int, s: State, s': State)
    requires ControlGood(s) && Step(maxAttempts, s, Push(true, true), s')
    requires s.pc.purpose == OfBegin || s.pc.purpose == OfBaseline
    ensures ControlGood(s')
  {
    ControlInEvent(s, s');
  }

  lemma ControlPushedAfterRun(maxAttempts: int, s: State, s': State)
    requires ControlGood(s) && Step(maxAttempts, s, Push(true, true), s')
    requires s.pc.purpose == OfAnswer || s.pc.purpose == OfFailure
    ensures ControlGood(s')
  {
    ControlInEvent(s, s');
  }

  lemma ControlPushedOutside(maxAttempts: int, s: State, s': State)
    requires ControlGood(s) && Step(maxAttempts, s, Push(true, true), s') && !InEvent(s'.pc) && s'.pc != Looping
    ensures ControlGood(s')
  {
    ControlOutsideLoop(s');
  }

  lemma ControlElsewhere(maxAttempts: int, s: State, a: Action, s': State)
    requires ControlGood(s) && Step(maxAttempts, s, a, s')
    requires StartsOver(a) || EndsBatch(a)
    ensures ControlGood(s')
  {
    if StartsOver(a) {
      ControlStartsOver(maxAttempts, s, a, s');
    } else {
      ControlEndsBatch(maxAttempts, s, a, s');
    }
  }

  predicate StartsOver(a: Action) {
    a.Crash? || a.Load? || a.UseLegacyCursor? || a.FirstSync? || a.Refresh?
  }

  predicate EndsBatch(a: Action) {
    a.EndBatch? || a.AbandonBatch? || a.RetryLater? || a.SendNotice?
  }

  lemma ControlStartsOver(maxAttempts: int, s: State, a: Action, s': State)
    requires ControlGood(s) && Step(maxAttempts, s, a, s') && StartsOver(a)
    ensures ControlGood(s')
  {
    ControlOutsideLoop(s');
  }

  lemma ControlEndsBatch(maxAttempts: int, s: State, a: Action, s': State)
    requires ControlGood(s) && Step(maxAttempts, s, a, s') && EndsBatch(a)
    ensures ControlGood(s')
  {
    if a.EndBatch? {
      ControlAtEnd(maxAttempts, s, s');
    } else {
      ControlLeftBatch(maxAttempts, s, a, s');
    }
  }

  lemma ControlAtEnd(maxAttempts: int, s: State, s': State)
    requires ControlGood(s) && Step(maxAttempts, s, EndBatch, s')
    ensures ControlGood(s')
  {
    ControlOutsideLoop(s');
  }

  lemma ControlLeftBatch(maxAttempts: int, s: State, a: Action, s': State)
    requires AtPoint(s) && Step(maxAttempts, s, a, s') && (a.AbandonBatch? || a.RetryLater? || a.SendNotice?)
    ensures ControlGood(s')
  {
    ControlOutsideLoop(s');
  }

  lemma StepKeepsControlWriting(maxAttempts: int, s: State, a: Action, s': State)
    requires Inv(maxAttempts, s) && Step(maxAttempts, s, a, s')
    requires !a.BeginCurrent? && s.index < |s.batch| && EventOp(s, a).Some?
    ensures ControlGood(s')
  {
    GuardHolds(maxAttempts, s, a, s');
    RecordAfterWrite(maxAttempts, s, a, s');
    ControlAfterWrite(s, s', EventOp(s, a).value);
  }

  lemma StepKeepsControlMoving(maxAttempts: int, s: State, a: Action, s': State)
    requires ControlGood(s) && Step(maxAttempts, s, a, s') && (WithinEvent(a) || a.Save? || a.Push?)
    ensures ControlGood(s')
  {
    if WithinEvent(a) {
      ControlWithinEvent(maxAttempts, s, a, s');
    } else if a.Save? {
      ControlAfterSave(maxAttempts, s, s', a.saved);
    } else if a.pushed {
      ControlAfterPush(maxAttempts, s, s');
    } else {
      ControlAfterFailedPush(maxAttempts, s, s', a.applied);
    }
  }

  lemma StepKeepsControl(maxAttempts: int, s: State, a: Action, s': State)
    requires Inv(maxAttempts, s) && Step(maxAttempts, s, a, s')
    ensures ControlGood(s')
  {
    if a.BeginCurrent? {
      ControlAfterBegin(maxAttempts, s, s', a.now);
    } else if s.index < |s.batch| && EventOp(s, a).Some? {
      StepKeepsControlWriting(maxAttempts, s, a, s');
    } else if WithinEvent(a) || a.Save? || a.Push? {
      StepKeepsControlMoving(maxAttempts, s, a, s');
    } else {
      StepKeepsControlOutside(maxAttempts, s, a, s');
    }
  }

  lemma StepKeepsControlSkipping(maxAttempts: int, s: State, s': State)
    requires CopiesGood(s) && ControlGood(s) && Step(maxAttempts, s, SkipCompleted, s')
    ensures ControlGood(s')
  {
    SkippedIsCompleted(maxAttempts, s, s');
    ControlAfterSkip(s, s');
  }

  lemma StepKeepsControlOutside(maxAttempts: int, s: State, a: Action, s': State)
    requires CopiesGood(s) && ControlGood(s) && Step(maxAttempts, s, a, s')
    requires || a.SkipCompleted? || a.Arrive? || a.ChangeOutbox? || a.Fetch? || StartsOver(a) || EndsBatch(a)
    ensures ControlGood(s')
  {
    if a.SkipCompleted? {
      StepKeepsControlSkipping(maxAttempts, s, s');
    } else if a.Arrive? {
      ControlAfterArrive(s, s', a.posted);
    } else if StartsOver(a) || EndsBatch(a) {
      ControlElsewhere(maxAttempts, s, a, s');
    }
  }

  // ---------------------------------------------------------- the histories

  /** The remote copy's log only grows. */
  lemma RemoteGrows(maxAttempts: int, s: State, a: Action, s': State)
    requires Trailing(s) && Step(maxAttempts, s, a, s')
    ensures s.remote.log <= s'.remote.log
  {
    RemoteMoves(maxAttempts, s, a, s');
  }

  lemma RemoteMoves(maxAttempts: int, s: State, a: Action, s': State)
    requires Step(maxAttempts, s, a, s')
    ensures s'.remote == s.remote || s'.remote == s.disk
  {
    if TryAction(a) || HandlerAction(a) {
      EventLeaves(maxAttempts, s, a, s');
    } else {
      RemoteMovesOutsideEvent(maxAttempts, s, a, s');
    }
  }

  /** What the steps of one event's handling leave alone, and that the process is up and past its start. */
  ghost predicate LeavesStored(s: State, s': State) {
    && s'.disk == s.disk && s'.remote == s.remote && s'.timeline == s.timeline
    && (InTry(s.pc) || s.pc == Raised || s.pc == Deciding)
  }

  lemma EventLeaves(maxAttempts: int, s: State, a: Action, s': State)
    requires Step(maxAttempts, s, a, s') && (TryAction(a) || HandlerAction(a))
    ensures LeavesStored(s, s')
  {
    if TryAction(a) {
      TryLeaves(maxAttempts, s, a, s');
    } else {
      HandlerLeaves(maxAttempts, s, a, s');
    }
  }

  lemma TryLeaves(maxAttempts: int, s: State, a: Action, s': State)
    requires Step(maxAttempts, s, a, s') && TryAction(a)
    ensures LeavesStored(s, s')
  {
  }

  lemma HandlerLeaves(maxAttempts: int, s: State, a: Action, s': State)
    requires Step(maxAttempts, s, a, s') && HandlerAction(a)
    ensures LeavesStored(s, s')
  {
  }

  lemma RemoteMovesOutsideEvent(maxAttempts: int, s: State, a: Action, s': State)
    requires Step(maxAttempts, s, a, s')
    requires !TryAction(a) && !HandlerAction(a)
    ensures s'.remote == s.remote || s'.remote == s.disk
  {
  }

  lemma HistoriesUntouched(maxAttempts: int, s: State, s': State)
    requires HistoriesGood(maxAttempts, s) && s.remote.log <= s'.remote.log
    requires s'.runs == s.runs && s'.sends == s.sends && s'.retries == s.retries && s'.delivered == s.delivered
    ensures HistoriesGood(maxAttempts, s')
  {
  }

  lemma HistoriesAfterRun(maxAttempts: int, s: State, s': State, run: Run)
    requires HistoriesGood(maxAttempts, s) && s'.remote == s.remote && s'.runs == s.runs + [run]
    requires s'.sends == s.sends && s'.retries == s.retries && s'.delivered == s.delivered
    requires RunFact(run) && run.log == s.remote.log
    ensures HistoriesGood(maxAttempts, s')
  {
  }

  lemma HistoriesAfterSend(maxAttempts: int, s: State, s': State, send: Send, stored: bool)
    requires HistoriesGood(maxAttempts, s) && s'.remote == s.remote && s'.sends == s.sends + [send]
    requires s'.runs == s.runs && s'.retries == s.retries
    requires s'.delivered == if stored then Deliver(s.delivered, send.room, send.key, send.body) else s.delivered
    requires SendFact(send) && send.log <= s.remote.log
    ensures HistoriesGood(maxAttempts, s')
  {
    forall where | where in s'.delivered
      ensures exists k :: 0 <= k < |s'.sends| && s'.sends[k].key == where.1 && s'.sends[k].body == s'.delivered[where]
    {
      if where in s.delivered {
        var k :| 0 <= k < |s.sends| && s.sends[k].key == where.1 && s.sends[k].body == s.delivered[where];
        assert s'.sends[k] == s.sends[k];
      } else {
        assert s'.sends[|s.sends|] == send;
      }
    }
  }

  lemma HistoriesAfterRetry(maxAttempts: int, s: State, s': State, retry: Retry)
    requires HistoriesGood(maxAttempts, s) && s'.remote == s.remote && s'.retries == s.retries + [retry]
    requires s'.runs == s.runs && s'.sends == s.sends && s'.delivered == s.delivered
    requires RetryFact(maxAttempts, retry) && retry.log == s.remote.log
    requires s.begun < |retry.log| && retry.log[s.begun].Begin? && retry.log[s.begun].event == retry.event
    requires forall k :: 0 <= k < |s.retries| ==> |s.retries[k].log| <= s.begun
    ensures HistoriesGood(maxAttempts, s')
  {
    forall i |
      && 0 <= i < |s.retries| && s.retries[i].event == retry.event
      && !Dropped(retry.log, |s.retries[i].log|, retry.event)
      ensures s.retries[i].attempt < retry.attempt
    {
      assert s.retries[i].log == retry.log[..|s.retries[i].log|];
      BegunAgainIsHigher(retry.log, |s.retries[i].log|, s.begun, retry.event);
    }
  }

  lemma RunIsBacked(maxAttempts: int, s: State, a: Action, s': State)
    requires ControlGood(s) && s.pc == Running && Good(s.mem, s.timeline) && Step(maxAttempts, s, a, s') && a.RunAgent?
    ensures |s'.runs| == |s.runs| + 1 && s'.runs == s.runs + [s'.runs[|s.runs|]]
    ensures RunFact(s'.runs[|s.runs|]) && s'.runs[|s.runs|].log == s.remote.log
    ensures s'.remote == s.remote && s'.sends == s.sends && s'.retries == s.retries && s'.delivered == s.delivered
  {
  }

  /** What a sending action sends. */
  function SendOf(s: State, a: Action): Option<Send>
    requires s.index < |s.batch|
  {
    var event := Current(s);
    var answer := AnswerFor(s.mem.records, event.eventId);
    match a
    case SendReply(_, _) =>
      if answer.Some? then Some(Send(event.roomId, ReplyKey(event.eventId), answer.value.text, s.mem.log)) else None
    case SendFile(_, _) =>
      if s.pc.SendingFiles? && answer.Some? && s.pc.sent < |answer.value.outputs|
      then Some(Send(event.roomId, FileKey(event.eventId, answer.value.outputs[s.pc.sent]),
              answer.value.outputs[s.pc.sent], s.mem.log))
      else None
    case SendNotice(text, _) => Some(Send(event.roomId, FailureKey(event.eventId), text, s.mem.log))
    case NoticeSent(text, _, _, _) => Some(Send(event.roomId, FailureKey(event.eventId), text, s.mem.log))
    case _ => None
  }

  predicate StoresSend(a: Action) {
    match a
    case SendReply(stored, _) => stored
    case SendFile(stored, _) => stored
    case SendNotice(_, stored) => stored
    case _ => true
  }

  predicate Sends(a: Action) {
    a.SendReply? || a.SendFile? || a.SendNotice? || a.NoticeSent?
  }

  /** What a sending step adds. */
  lemma SendIsAdded(maxAttempts: int, s: State, a: Action, s': State)
    requires Step(maxAttempts, s, a, s') && Sends(a)
    ensures s.index < |s.batch| && SendOf(s, a).Some? && s'.sends == s.sends + [SendOf(s, a).value]
    ensures var send := SendOf(s, a).value;
            s'.delivered == if StoresSend(a) then Deliver(s.delivered, send.room, send.key, send.body) else s.delivered
    ensures s'.remote == s.remote && s'.runs == s.runs && s'.retries == s.retries
    ensures InTry(s.pc) || s.pc == Deciding
    ensures a.SendNotice? || a.NoticeSent? ==> s.pc == Deciding
  {
  }

  lemma SendIsBacked(s: State, a: Action)
    requires ControlGood(s) && Good(s.mem, s.timeline) && (InTry(s.pc) || s.pc == Deciding)
    requires s.index < |s.batch| && SendOf(s, a).Some?
    requires a.SendNotice? || a.NoticeSent? ==> s.pc == Deciding
    ensures SendFact(SendOf(s, a).value) && SendOf(s, a).value.log == s.remote.log
  {
  }

  lemma RetryIsBacked(maxAttempts: int, s: State, s': State)
    requires ControlGood(s) && Good(s.mem, s.timeline) && Step(maxAttempts, s, RetryLater, s')
    ensures s'.retries == s.retries + [RetryOf(s)]
    ensures RetryFact(maxAttempts, RetryOf(s)) && s.mem.log == s.remote.log && BegunInLog(s)
    ensures s'.remote == s.remote && s'.runs == s.runs && s'.sends == s.sends && s'.delivered == s.delivered
  {
    RetryAdds(maxAttempts, s, s');
    RetryHolds(maxAttempts, s);
  }

  lemma RetryHolds(maxAttempts: int, s: State)
    requires ControlGood(s) && Good(s.mem, s.timeline) && s.pc == Deciding && s.index < |s.batch|
    requires ShouldRetry(s.mem.records, Current(s).eventId, maxAttempts)
    ensures RetryFact(maxAttempts, RetryOf(s)) && s.mem.log == s.remote.log && BegunInLog(s)
  {
    AttemptsPositive(s.mem.log, Current(s).eventId);
  }

  /** The current event was begun at entry `begun`, after every earlier retry. */
  ghost predicate BegunInLog(s: State)
    requires s.index < |s.batch|
  {
    && s.begun < |s.mem.log| && s.mem.log[s.begun].Begin? && s.mem.log[s.begun].event == Current(s).eventId
    && forall k :: 0 <= k < |s.retries| ==> |s.retries[k].log| <= s.begun
  }

  lemma RetryAdds(maxAttempts: int, s: State, s': State)
    requires Step(maxAttempts, s, RetryLater, s')
    ensures s.pc == Deciding && s.index < |s.batch|
    ensures s'.retries == s.retries + [RetryOf(s)] && ShouldRetry(s.mem.records, Current(s).eventId, maxAttempts)
    ensures s'.remote == s.remote && s'.runs == s.runs && s'.sends == s.sends && s'.delivered == s.delivered
  {
  }

  predicate AddsHistory(a: Action) {
    a.RunAgent? || Sends(a) || a.RetryLater?
  }

  lemma OtherStepsAddNothing(maxAttempts: int, s: State, a: Action, s': State)
    requires Step(maxAttempts, s, a, s') && !AddsHistory(a)
    ensures s'.runs == s.runs && s'.sends == s.sends && s'.retries == s.retries && s'.delivered == s.delivered
  {
    if TryAction(a) || HandlerAction(a) {
      OtherStepsAddNothingInEvent(maxAttempts, s, a, s');
    } else {
      OtherStepsAddNothingOutside(maxAttempts, s, a, s');
    }
  }

  lemma OtherStepsAddNothingInEvent(maxAttempts: int, s: State, a: Action, s': State)
    requires Step(maxAttempts, s, a, s') && !AddsHistory(a) && (TryAction(a) || HandlerAction(a))
    ensures s'.runs == s.runs && s'.sends == s.sends && s'.retries == s.retries && s'.delivered == s.delivered
  {
  }

  lemma OtherStepsAddNothingOutside(maxAttempts: int, s: State, a: Action, s': State)
    requires Step(maxAttempts, s, a, s') && !TryAction(a) && !HandlerAction(a)
    ensures s'.runs == s.runs && s'.sends == s.sends && s'.retries == s.retries && s'.delivered == s.delivered
  {
    if MovesCopies(a) {
      MovingAddsNothing(maxAttempts, s, a, s');
    } else {
      LoopingAddsNothing(maxAttempts, s, a, s');
    }
  }

  lemma MovingAddsNothing(maxAttempts: int, s: State, a: Action, s': State)
    requires Step(maxAttempts, s, a, s') && MovesCopies(a)
    ensures s'.runs == s.runs && s'.sends == s.sends && s'.retries == s.retries && s'.delivered == s.delivered
  {
  }

  lemma LoopingAddsNothing(maxAttempts: int, s: State, a: Action, s': State)
    requires Step(maxAttempts, s, a, s') && !TryAction(a) && !HandlerAction(a) && !MovesCopies(a)
    ensures s'.runs == s.runs && s'.sends == s.sends && s'.retries == s.retries && s'.delivered == s.delivered
  {
  }

  lemma StepKeepsHistories(maxAttempts: int, s: State, a: Action, s': State)
    requires Inv(maxAttempts, s) && Step(maxAttempts, s, a, s')
    ensures HistoriesGood(maxAttempts, s')
  {
    if a.RunAgent? {
      RunIsBacked(maxAttempts, s, a, s');
      HistoriesAfterRun(maxAttempts, s, s', s'.runs[|s.runs|]);
    } else if Sends(a) {
      SendIsAdded(maxAttempts, s, a, s');
      SendIsBacked(s, a);
      HistoriesAfterSend(maxAttempts, s, s', SendOf(s, a).value, StoresSend(a));
    } else if a.RetryLater? {
      RetryIsBacked(maxAttempts, s, s');
      HistoriesAfterRetry(maxAttempts, s, s', s'.retries[|s.retries|]);
    } else {
      OtherStepsAddNothing(maxAttempts, s, a, s');
      RemoteGrows(maxAttempts, s, a, s');
      HistoriesUntouched(maxAttempts, s, s');
    }
  }

  // --------------------------------------------------------------- every run

  /** Every step keeps the invariant. */
  lemma StepKeepsInv(maxAttempts: int, s: State, a: Action, s': State)
    requires Inv(maxAttempts, s) && Step(maxAttempts, s, a, s')
    ensures Inv(maxAttempts, s')
  {
    StepKeepsCopies(maxAttempts, s, a, s');
    StepKeepsControl(maxAttempts, s, a, s');
    StepKeepsHistories(maxAttempts, s, a, s');
  }

  lemma InitIsGood(maxAttempts: int, s: State)
    requires Init(s)
    ensures Inv(maxAttempts, s)
  {
  }

  lemma RunStepKeepsInv(maxAttempts: int, states: seq<State>, actions: seq<Action>, k: nat)
    requires Behavior(maxAttempts, states, actions) && k < |actions| && Inv(maxAttempts, states[k])
    ensures Inv(maxAttempts, states[k + 1])
  {
    assert StepAt(maxAttempts, states, actions, k);
    StepKeepsInv(maxAttempts, states[k], actions[k], states[k + 1]);
  }

  /** The invariant holds in every state of every run. */
  lemma {:induction false} InvAlways(maxAttempts: int, states: seq<State>, actions: seq<Action>, k: nat)
    requires Behavior(maxAttempts, states, actions) && k < |states|
    ensures Inv(maxAttempts, states[k])
  {
    if k == 0 {
      InitIsGood(maxAttempts, states[0]);
    } else {
      InvAlways(maxAttempts, states, actions, k - 1);
      RunStepKeepsInv(maxAttempts, states, actions, k - 1);
    }
  }
}
