/**
 Without faults the delivery loop finishes every batch: it is never stuck, and
 however it goes on, each event of the batch is answered or was found completed,
 and the cursor moves.
 */
module BridgeLiveness {
  import opened Wrappers
  import opened BridgeRecords
  import opened BridgeLog
  import opened BridgeProtocol
  import opened BridgeSafety
  import opened BridgeOutcomes
  import opened MatrixChannel
  import Text

  /** Working through a batch, with nothing having failed. */
  ghost predicate InBatch(pc: PC) {
    || pc == Looping || InTry(pc)
    || ((pc.Saving? || pc.Pushing?)
        && (|| pc.purpose == OfBegin || pc.purpose == OfBaseline || pc.purpose == OfAnswer
            || pc.purpose == OfComplete || pc.purpose == OfCursor))
  }

  ghost predicate MovingCursor(pc: PC) {
    (pc.Saving? || pc.Pushing?) && pc.purpose == OfCursor
  }

  /** No crash, no operation that fails, and no leaving the batch early. */
  predicate Faultless(a: Action) {
    match a
    case Crash(_) => false
    case Save(saved) => saved
    case Push(pushed, _) => pushed
    case RunAgent(_, answered) => answered
    case SendReply(_, acknowledged) => acknowledged
    case SendFile(_, acknowledged) => acknowledged
    case RaiseError => false
    case SendNotice(_, _) => false
    case AbandonBatch => false
    case _ => true
  }

  predicate Surroundings(a: Action) {
    a.Arrive? || a.ChangeOutbox?
  }

  /** Entry n of memory's log completed the event, and the answer its record held then is in its room in full. */
  ghost predicate FullBy(s: State, n: nat, event: Event) {
    && n < |s.mem.log| && s.mem.log[n].Complete? && s.mem.log[n].event == event.eventId
    && var answer := AnswerFor(Replay(s.mem.log[..n]), event.eventId);
       answer.Some? && InFull(s.delivered, event.roomId, event.eventId, answer.value)
  }

  ghost predicate CompletedInFull(s: State, event: Event) {
    exists n: nat :: FullBy(s, n, event)
  }

  ghost predicate AllDone(s: State) {
    forall j :: 0 <= j < |s.batch| ==> LastStatus(s.mem.log, s.batch[j].eventId) == Some(Completed)
  }

  /** Of the answer under way, the reply and the files sent so far are in the event's room. */
  ghost predicate PartlyIn(s: State) {
    s.index < |s.batch| && s.pc.SendingFiles? ==>
      && var event, answer := Current(s), AnswerFor(s.mem.records, Current(s).eventId);
         && answer.Some? && s.pc.sent <= |answer.value.outputs|
         && (event.roomId, ReplyKey(event.eventId)) in s.delivered
         && forall f :: 0 <= f < s.pc.sent ==>
                          (event.roomId, FileKey(event.eventId, answer.value.outputs[f])) in s.delivered
  }

  /** The event whose completion is under way has its answer in its room in full. */
  ghost predicate CompletesInFull(s: State) {
    s.index < |s.batch| && (s.pc == Saving(OfComplete) || s.pc == Pushing(OfComplete)) ==>
      CompletedInFull(s, Current(s))
  }

  ghost predicate OnTrack(s: State) {
    && InBatch(s.pc) && s.index <= |s.batch| && (InEvent(s.pc) ==> s.index < |s.batch|)
    && PartlyIn(s) && CompletesInFull(s)
    && (MovingCursor(s.pc) ==> s.index == |s.batch| && s.mem.cursor == Some(s.upto) && AllDone(s))
  }

  // ------------------------------------------------------------ how far it is

  function Rank(pc: PC): nat {
    match pc
    case Looping => 15
    case Saving(OfBegin) => 14
    case Pushing(OfBegin) => 13
    case Trying => 12
    case Saving(OfBaseline) => 11
    case Pushing(OfBaseline) => 10
    case Running => 9
    case Ran => 8
    case Saving(OfAnswer) => 7
    case Pushing(OfAnswer) => 6
    case Delivering => 5
    case SendingFiles(_) => 4
    case Saving(OfComplete) => 3
    case Pushing(OfComplete) => 2
    case Saving(OfCursor) => 1
    case _ => 0
  }

  function EventsLeft(s: State): nat {
    if s.index <= |s.batch| then |s.batch| - s.index else 0
  }

  function FilesLeft(s: State): nat {
    if !s.pc.SendingFiles? || s.index >= |s.batch| then 0
    else
      var answer := AnswerFor(s.mem.records, Current(s).eventId);
      if answer.Some? && s.pc.sent <= |answer.value.outputs| then |answer.value.outputs| - s.pc.sent else 0
  }

  ghost predicate Nearer(s': State, s: State) {
    || EventsLeft(s') < EventsLeft(s)
    || (EventsLeft(s') == EventsLeft(s)
        && (Rank(s'.pc) < Rank(s.pc) || (Rank(s'.pc) == Rank(s.pc) && FilesLeft(s') < FilesLeft(s))))
  }

  /** What each step leaves of the batch: messages stay, and a turn ends with a full delivery or a completion found. */
  ghost predicate GoesOn(s: State, s': State) {
    && s'.batch == s.batch && s'.upto == s.upto && s'.announced == s.announced && s.mem.log <= s'.mem.log
    && (forall where :: where in s.delivered ==> where in s'.delivered)
    && (|| s'.index == s.index
        || (&& s'.index == s.index + 1 && s.index < |s.batch|
            && (IsCompleted(s.mem.records, Current(s).eventId) || CompletedInFull(s', Current(s)))))
  }

  /** Once completed in full, always: messages and entries stay. */
  lemma FullStays(s: State, t: State, event: Event)
    requires s.mem.log <= t.mem.log && (forall where :: where in s.delivered ==> where in t.delivered)
    requires CompletedInFull(s, event)
    ensures CompletedInFull(t, event)
  {
    var n: nat :| FullBy(s, n, event);
    assert t.mem.log[..n] == s.mem.log[..n];
    assert FullBy(t, n, event);
  }

  /** Every event of the batch is completed, and its stretch is behind the cursor if one was announced. */
  ghost predicate Ended(s: State) {
    s.pc == Idle && s.index == |s.batch| && AllDone(s) && (s.announced ==> s.mem.cursor == Some(s.upto))
  }

  /** A fetched batch is on track. */
  lemma FetchedIsOnTrack(maxAttempts: int, s: State, upto: nat, announced: bool, batch: seq<Event>, s': State)
    requires Step(maxAttempts, s, Fetch(upto, announced, batch), s')
    ensures OnTrack(s') && s'.batch == batch && s'.index == 0 && s'.upto == upto && s'.announced == announced
  {
  }

  lemma OwnStep(maxAttempts: int, s: State, a: Action, s': State)
    requires AtPoint(s) && OnTrack(s) && Step(maxAttempts, s, a, s') && Faultless(a) && !Surroundings(a)
    requires (s.pc == Looping ==> EarlierDone(s)) && s.mem.records == Replay(s.mem.log)
    ensures GoesOn(s, s') && (Ended(s') || (OnTrack(s') && Nearer(s', s)))
  {
    if TryAction(a) {
      StepInTry(maxAttempts, s, a, s');
    } else if a.Save? || a.Push? {
      StepInRecording(maxAttempts, s, a, s');
    } else {
      StepInLoop(maxAttempts, s, a, s');
    }
  }

  lemma StepInTry(maxAttempts: int, s: State, a: Action, s': State)
    requires AtPoint(s) && OnTrack(s) && Step(maxAttempts, s, a, s') && Faultless(a) && TryAction(a)
    requires s.mem.records == Replay(s.mem.log)
    ensures GoesOn(s, s') && OnTrack(s') && Nearer(s', s)
  {
    if a.SendReply? || a.SendFile? {
      StepSends(maxAttempts, s, a, s');
    } else if a.TakeBaseline? || a.RecordAnswer? || a.CompleteCurrent? {
      StepRecords(maxAttempts, s, a, s');
    } else {
      StepTries(maxAttempts, s, a, s');
    }
  }

  lemma StepSends(maxAttempts: int, s: State, a: Action, s': State)
    requires OnTrack(s) && Step(maxAttempts, s, a, s') && Faultless(a) && (a.SendReply? || a.SendFile?)
    ensures GoesOn(s, s') && OnTrack(s') && Nearer(s', s)
  {
  }

  lemma StepRecords(maxAttempts: int, s: State, a: Action, s': State)
    requires OnTrack(s) && Step(maxAttempts, s, a, s') && s.mem.records == Replay(s.mem.log)
    requires a.TakeBaseline? || a.RecordAnswer? || a.CompleteCurrent?
    ensures GoesOn(s, s') && OnTrack(s') && Nearer(s', s)
  {
    match a
    case TakeBaseline(now) => StepTakesBaseline(maxAttempts, s, now, s');
    case RecordAnswer(text, outputs, now) => StepRecordsAnswer(maxAttempts, s, text, outputs, now, s');
    case CompleteCurrent(reply, now, dropped) => StepCompletes(maxAttempts, s, reply, now, dropped, s');
  }

  lemma StepTakesBaseline(maxAttempts: int, s: State, now: int, s': State)
    requires OnTrack(s) && Step(maxAttempts, s, TakeBaseline(now), s')
    ensures GoesOn(s, s') && OnTrack(s') && Nearer(s', s)
  {
  }

  lemma StepRecordsAnswer(maxAttempts: int, s: State, text: string, outputs: seq<string>, now: int, s': State)
    requires OnTrack(s) && Step(maxAttempts, s, RecordAnswer(text, outputs, now), s')
    ensures GoesOn(s, s') && OnTrack(s') && Nearer(s', s)
  {
  }

  lemma StepCompletes(maxAttempts: int, s: State, reply: string, now: int, dropped: set<EventId>, s': State)
    requires OnTrack(s) && Step(maxAttempts, s, CompleteCurrent(reply, now, dropped), s')
    requires s.mem.records == Replay(s.mem.log)
    ensures GoesOn(s, s') && OnTrack(s') && Nearer(s', s)
  {
    CompletesFrom(maxAttempts, s, reply, now, dropped, s');
    CompletingInFull(s, s', Complete(Current(s).eventId, reply, now, dropped));
  }

  lemma CompletesFrom(maxAttempts: int, s: State, reply: string, now: int, dropped: set<EventId>, s': State)
    requires Step(maxAttempts, s, CompleteCurrent(reply, now, dropped), s')
    ensures AllSent(s)
    ensures s' == s.(pc := Saving(OfComplete), mem := Write(s.mem, Complete(Current(s).eventId, reply, now, dropped)))
  {
  }

  ghost predicate AllSent(s: State) {
    && s.pc.SendingFiles? && s.index < |s.batch| && AnswerFor(s.mem.records, Current(s).eventId).Some?
    && s.pc.sent == |AnswerFor(s.mem.records, Current(s).eventId).value.outputs|
  }

  lemma CompletingInFull(s: State, s': State, op: Op)
    requires OnTrack(s) && AllSent(s) && s.mem.records == Replay(s.mem.log)
    requires op.Complete? && op.event == Current(s).eventId
    requires s' == s.(pc := Saving(OfComplete), mem := Write(s.mem, op))
    ensures GoesOn(s, s') && OnTrack(s') && Nearer(s', s)
  {
    assert s'.mem.log[..|s.mem.log|] == s.mem.log;
    assert FullBy(s', |s.mem.log|, Current(s));
  }

  lemma StepTries(maxAttempts: int, s: State, a: Action, s': State)
    requires OnTrack(s) && Step(maxAttempts, s, a, s') && Faultless(a)
    requires a.UseCachedAnswer? || a.ReuseBaseline? || a.RunAgent?
    ensures GoesOn(s, s') && OnTrack(s') && Nearer(s', s)
  {
  }

  lemma StepInRecording(maxAttempts: int, s: State, a: Action, s': State)
    requires OnTrack(s) && Step(maxAttempts, s, a, s') && Faultless(a) && (a.Save? || a.Push?)
    ensures GoesOn(s, s') && (Ended(s') || (OnTrack(s') && Nearer(s', s)))
  {
    if a.Push? {
      StepPushes(maxAttempts, s, a.applied, s');
    } else {
      StepSaves(maxAttempts, s, s');
    }
  }

  lemma StepSaves(maxAttempts: int, s: State, s': State)
    requires OnTrack(s) && Step(maxAttempts, s, Save(true), s')
    ensures GoesOn(s, s') && OnTrack(s') && Nearer(s', s)
  {
    if s.pc.purpose == OfComplete {
      FullStays(s, s', Current(s));
    }
  }

  lemma StepPushes(maxAttempts: int, s: State, applied: bool, s': State)
    requires OnTrack(s) && Step(maxAttempts, s, Push(true, applied), s')
    ensures GoesOn(s, s') && (Ended(s') || (OnTrack(s') && Nearer(s', s)))
  {
    if s.pc.purpose == OfComplete {
      CompletionPushed(maxAttempts, s, applied, s');
    } else if s.pc.purpose == OfCursor {
      CursorPushed(maxAttempts, s, applied, s');
    } else {
      RecordPushed(maxAttempts, s, applied, s');
    }
  }

  lemma CompletionPushed(maxAttempts: int, s: State, applied: bool, s': State)
    requires OnTrack(s) && Step(maxAttempts, s, Push(true, applied), s') && s.pc.purpose == OfComplete
    ensures GoesOn(s, s') && OnTrack(s') && Nearer(s', s)
  {
    FullStays(s, s', Current(s));
  }

  lemma CursorPushed(maxAttempts: int, s: State, applied: bool, s': State)
    requires OnTrack(s) && Step(maxAttempts, s, Push(true, applied), s') && s.pc.purpose == OfCursor
    ensures GoesOn(s, s') && Ended(s')
  {
  }

  lemma RecordPushed(maxAttempts: int, s: State, applied: bool, s': State)
    requires OnTrack(s) && Step(maxAttempts, s, Push(true, applied), s')
    requires s.pc.purpose != OfComplete && s.pc.purpose != OfCursor
    ensures GoesOn(s, s') && OnTrack(s') && Nearer(s', s)
  {
  }

  lemma StepInLoop(maxAttempts: int, s: State, a: Action, s': State)
    requires AtPoint(s) && OnTrack(s) && Step(maxAttempts, s, a, s') && Faultless(a)
    requires !Surroundings(a) && !TryAction(a) && !a.Save? && !a.Push?
    requires s.pc == Looping ==> EarlierDone(s)
    ensures GoesOn(s, s') && (Ended(s') || (OnTrack(s') && Nearer(s', s)))
  {
    OnlyLoopActions(maxAttempts, s, a, s');
    match a
    case SkipCompleted => StepSkips(maxAttempts, s, s');
    case BeginCurrent(now) => StepBegins(maxAttempts, s, now, s');
    case EndBatch => StepEnds(maxAttempts, s, s');
  }

  lemma OnlyLoopActions(maxAttempts: int, s: State, a: Action, s': State)
    requires InBatch(s.pc) && Step(maxAttempts, s, a, s') && Faultless(a)
    requires !Surroundings(a) && !TryAction(a) && !a.Save? && !a.Push?
    ensures a.SkipCompleted? || a.BeginCurrent? || a.EndBatch?
  {
  }

  lemma StepSkips(maxAttempts: int, s: State, s': State)
    requires OnTrack(s) && Step(maxAttempts, s, SkipCompleted, s')
    ensures GoesOn(s, s') && OnTrack(s') && Nearer(s', s)
  {
  }

  lemma StepBegins(maxAttempts: int, s: State, now: int, s': State)
    requires OnTrack(s) && Step(maxAttempts, s, BeginCurrent(now), s')
    ensures GoesOn(s, s') && OnTrack(s') && Nearer(s', s)
  {
  }

  lemma StepEnds(maxAttempts: int, s: State, s': State)
    requires OnTrack(s) && EarlierDone(s) && Step(maxAttempts, s, EndBatch, s')
    ensures GoesOn(s, s') && (Ended(s') || (OnTrack(s') && Nearer(s', s)))
  {
    assert AllDone(s) && s'.batch == s.batch;
    forall j | 0 <= j < |s'.batch|
      ensures LastStatus(s'.mem.log, s'.batch[j].eventId) == Some(Completed)
    {
      AdvanceKeepsStatus(s, s', s.batch[j].eventId);
    }
  }

  lemma AdvanceKeepsStatus(s: State, s': State, event: EventId)
    requires s'.mem == s.mem || exists op: Op :: op.Advance? && s'.mem == Write(s.mem, op)
    ensures LastStatus(s'.mem.log, event) == LastStatus(s.mem.log, event)
  {
    if s'.mem != s.mem {
      var op: Op :| op.Advance? && s'.mem == Write(s.mem, op);
      LastStatusPush(s.mem.log, op, event);
    }
  }

  /** The surroundings change nothing about the work. */
  lemma OtherStep(maxAttempts: int, s: State, a: Action, s': State)
    requires OnTrack(s) && Step(maxAttempts, s, a, s') && Surroundings(a)
    ensures GoesOn(s, s') && OnTrack(s')
    ensures EventsLeft(s') == EventsLeft(s) && s'.pc == s.pc && FilesLeft(s') == FilesLeft(s)
  {
    if s.index < |s.batch| && CompletedInFull(s, Current(s)) {
      FullStays(s, s', Current(s));
    }
  }

  // ---------------------------------------------------------------- no dead end

  /** Some pruning is always allowed. */
  lemma {:induction false} PruneExists(records: Records, n: nat) returns (dropped: set<EventId>)
    requires n <= |CompletedIds(records)|
    ensures dropped <= CompletedIds(records) && |dropped| == n
    ensures forall kept, gone :: kept in CompletedIds(records) - dropped && gone in dropped ==>
                                   records[gone].updatedAt <= records[kept].updatedAt
  {
    dropped := {};
    if n > 0 {
      var fewer := PruneExists(records, n - 1);
      var left := CompletedIds(records) - fewer;
      assert |left| == |CompletedIds(records)| - |fewer|;
      var next := OldestOf(records, left);
      dropped := fewer + {next};
    }
  }

  lemma {:induction false} OldestOf(records: Records, ids: set<EventId>) returns (oldest: EventId)
    requires ids != {} && ids <= records.Keys
    ensures oldest in ids && forall e :: e in ids ==> records[oldest].updatedAt <= records[e].updatedAt
    decreases ids
  {
    var e :| e in ids;
    var rest := ids - {e};
    oldest := e;
    if rest != {} {
      var other := OldestOf(records, rest);
      if records[other].updatedAt <= records[e].updatedAt {
        oldest := other;
      }
    }
    assert forall x :: x in ids ==> x == e || x in rest;
  }

  lemma PruneChoiceExists(records: Records) returns (dropped: set<EventId>)
    ensures PruneChoice(records, dropped)
  {
    var completed := CompletedIds(records);
    dropped := {};
    if |completed| > MAX_COMPLETED {
      dropped := PruneExists(records, |completed| - MAX_COMPLETED);
      assert |completed - dropped| == |completed| - |dropped|;
    }
  }

  /** Wherever the work on a batch stands, a faultless step of its own is possible. */
  lemma NeverStuck(maxAttempts: int, s: State) returns (a: Action, s': State)
    requires AtPoint(s) && OnTrack(s)
    ensures Step(maxAttempts, s, a, s') && Faultless(a) && !Surroundings(a)
  {
    if s.pc == Looping {
      a, s' := LoopGoesOn(maxAttempts, s);
    } else if s.pc.Saving? {
      a, s' := Save(true), s.(pc := Pushing(s.pc.purpose), disk := s.mem);
    } else if s.pc.Pushing? {
      a, s' := Push(true, true), AfterPush(s.(remote := s.disk), s.pc.purpose);
    } else if s.pc == Trying || s.pc == Running || s.pc == Ran {
      a, s' := RunGoesOn(maxAttempts, s);
    } else {
      a, s' := DeliveryGoesOn(maxAttempts, s);
    }
  }

  lemma LoopGoesOn(maxAttempts: int, s: State) returns (a: Action, s': State)
    requires AtPoint(s) && OnTrack(s) && s.pc == Looping
    ensures Step(maxAttempts, s, a, s') && Faultless(a) && !Surroundings(a)
  {
    if s.index == |s.batch| {
      a := EndBatch;
      s' := if s.announced && s.upto != s.mem.cursor.value
            then s.(pc := Saving(OfCursor), mem := Write(s.mem, Advance(s.mem.cursor.value, s.upto, s.cfg)))
            else s.(pc := Idle);
    } else if IsCompleted(s.mem.records, Current(s).eventId) {
      a, s' := SkipCompleted, s.(index := s.index + 1);
    } else {
      a := BeginCurrent(0);
      s' := s.(pc := Saving(OfBegin), begun := |s.mem.log|,
               mem := Write(s.mem, Begin(Current(s).eventId, Current(s).roomId, 0)));
    }
  }

  lemma RunGoesOn(maxAttempts: int, s: State) returns (a: Action, s': State)
    requires AtPoint(s) && OnTrack(s) && (s.pc == Trying || s.pc == Running || s.pc == Ran)
    ensures Step(maxAttempts, s, a, s') && Faultless(a) && !Surroundings(a)
  {
    var event := Current(s).eventId;
    if s.pc == Trying {
      if AnswerFor(s.mem.records, event).Some? {
        a, s' := UseCachedAnswer, s.(pc := Delivering);
      } else if OutboxBeforeFor(s.mem.records, event).Some? {
        a, s' := ReuseBaseline, s.(pc := Running);
      } else {
        a, s' := TakeBaseline(0), s.(pc := Saving(OfBaseline), mem := Write(s.mem, Baseline(event, s.outbox, 0)));
      }
    } else if s.pc == Running {
      var record := s.mem.records[event];
      a := RunAgent(s.outbox, true);
      s' := s.(pc := Ran, runs := s.runs + [Run(event, record.attempts, record.outboxBefore.value, s.mem.log)]);
    } else {
      var outputs := Text.SortedExists(Changed(OutboxBeforeFor(s.mem.records, event).value, s.outbox));
      a := RecordAnswer("done", outputs, 0);
      s' := s.(pc := Saving(OfAnswer), mem := Write(s.mem, Answered(event, "done", outputs, s.outbox, 0)));
    }
  }

  lemma DeliveryGoesOn(maxAttempts: int, s: State) returns (a: Action, s': State)
    requires AtPoint(s) && OnTrack(s) && (s.pc == Delivering || s.pc.SendingFiles?)
    ensures Step(maxAttempts, s, a, s') && Faultless(a) && !Surroundings(a)
  {
    var event := Current(s);
    var answer := AnswerFor(s.mem.records, event.eventId).value;
    if s.pc == Delivering {
      a := SendReply(true, true);
      s' := s.(pc := SendingFiles(0),
               sends := s.sends + [Send(event.roomId, ReplyKey(event.eventId), answer.text, s.mem.log)],
               delivered := Deliver(s.delivered, event.roomId, ReplyKey(event.eventId), answer.text));
    } else if s.pc.sent < |answer.outputs| {
      var path := answer.outputs[s.pc.sent];
      a := SendFile(true, true);
      s' := s.(pc := SendingFiles(s.pc.sent + 1),
               sends := s.sends + [Send(event.roomId, FileKey(event.eventId, path), path, s.mem.log)],
               delivered := Deliver(s.delivered, event.roomId, FileKey(event.eventId, path), path));
    } else {
      var dropped := PruneChoiceExists(MarkComplete(s.mem.records, event.eventId, "", 0));
      a := CompleteCurrent("", 0, dropped);
      s' := s.(pc := Saving(OfComplete), mem := Write(s.mem, Complete(event.eventId, "", 0, dropped)));
    }
  }

  // ------------------------------------------------------- every faultless run

  /** An endless run in which nothing fails and the process keeps taking steps. */
  ghost predicate FaultlessRun(maxAttempts: int, run: nat -> State, acts: nat -> Action) {
    && (forall k: nat :: FaultlessAt(maxAttempts, run, acts, k))
    && (forall k: nat :: StepsAgain(acts, k))
  }

  ghost predicate StepsAgain(acts: nat -> Action, k: nat) {
    exists j: nat :: k <= j && OwnAt(acts, j)
  }

  ghost predicate FaultlessAt(maxAttempts: int, run: nat -> State, acts: nat -> Action, k: nat) {
    Step(maxAttempts, run(k), acts(k), run(k + 1)) && Faultless(acts(k))
  }

  predicate OwnAt(acts: nat -> Action, j: nat) {
    !Surroundings(acts(j))
  }

  /** When the event's turn came it was found completed. */
  ghost predicate FoundCompleted(run: nat -> State, k: nat, m: nat, j: nat) {
    exists i: nat :: k <= i < m && CompletedAtTurn(run(i), j)
  }

  predicate CompletedAtTurn(s: State, j: nat) {
    j == s.index < |s.batch| && IsCompleted(s.mem.records, Current(s).eventId)
  }

  /** From k to m the rest of the batch was answered or found completed. */
  ghost predicate AllAnswered(run: nat -> State, k: nat, m: nat) {
    forall j :: run(k).index <= j < run(m).index && j < |run(k).batch| ==>
      CompletedInFull(run(m), run(k).batch[j]) || FoundCompleted(run, k, m, j)
  }

  ghost predicate SameBatch(s: State, t: State) {
    && t.batch == s.batch && t.upto == s.upto && t.announced == s.announced && s.index <= t.index
    && s.mem.log <= t.mem.log
    && (forall where :: where in s.delivered ==> where in t.delivered)
  }

  lemma AnsweredOneMore(run: nat -> State, k: nat, m: nat)
    requires k < m && GoesOn(run(k), run(k + 1)) && SameBatch(run(k + 1), run(m)) && AllAnswered(run, k + 1, m)
    ensures AllAnswered(run, k, m) && SameBatch(run(k), run(m))
  {
    forall j | run(k).index <= j < run(m).index && j < |run(k).batch|
      ensures CompletedInFull(run(m), run(k).batch[j]) || FoundCompleted(run, k, m, j)
    {
      if j < run(k + 1).index {
        assert j == run(k).index;
        if IsCompleted(run(k).mem.records, Current(run(k)).eventId) {
          assert CompletedAtTurn(run(k), j);
        } else {
          FullStays(run(k + 1), run(m), run(k).batch[j]);
        }
      } else if FoundCompleted(run, k + 1, m, j) {
        var i: nat :| k + 1 <= i < m && CompletedAtTurn(run(i), j);
        assert k <= i;
      }
    }
  }

  /** Where a run stands: whether it is on its way, and how far it still is. */
  datatype Position = Position(onTrack: bool, events: nat, rank: nat, files: nat)

  ghost function At(maxAttempts: int, s: State): Position {
    Position(Inv(maxAttempts, s) && OnTrack(s), EventsLeft(s), Rank(s.pc), FilesLeft(s))
  }

  ghost predicate Closer(q: Position, p: Position) {
    || q.events < p.events
    || (q.events == p.events && (q.rank < p.rank || (q.rank == p.rank && q.files < p.files)))
  }

  lemma StepAtK(maxAttempts: int, run: nat -> State, acts: nat -> Action, k: nat)
    requires FaultlessRun(maxAttempts, run, acts) && At(maxAttempts, run(k)).onTrack
    ensures GoesOn(run(k), run(k + 1))
    ensures OwnAt(acts, k) ==>
              || Ended(run(k + 1))
              || (&& At(maxAttempts, run(k + 1)).onTrack
                  && Closer(At(maxAttempts, run(k + 1)), At(maxAttempts, run(k))))
    ensures !OwnAt(acts, k) ==> At(maxAttempts, run(k + 1)) == At(maxAttempts, run(k))
  {
    assert FaultlessAt(maxAttempts, run, acts, k);
    StepOn(maxAttempts, run(k), acts(k), run(k + 1));
  }

  lemma StepOn(maxAttempts: int, s: State, a: Action, s': State)
    requires Inv(maxAttempts, s) && OnTrack(s) && Step(maxAttempts, s, a, s') && Faultless(a)
    ensures GoesOn(s, s')
    ensures !Surroundings(a) ==>
              Ended(s') || (At(maxAttempts, s').onTrack && Closer(At(maxAttempts, s'), At(maxAttempts, s)))
    ensures Surroundings(a) ==> At(maxAttempts, s') == At(maxAttempts, s)
  {
    StepKeepsInv(maxAttempts, s, a, s');
    if Surroundings(a) {
      OtherStep(maxAttempts, s, a, s');
    } else {
      WorksFrom(maxAttempts, s);
      OwnStep(maxAttempts, s, a, s');
    }
  }

  lemma WorksFrom(maxAttempts: int, s: State)
    requires Inv(maxAttempts, s) && OnTrack(s)
    ensures AtPoint(s) && (s.pc == Looping ==> EarlierDone(s)) && s.mem.records == Replay(s.mem.log)
  {
  }

  /** Positions that come closer with every own step reach an end. */
  ghost predicate Descends(pos: nat -> Position, own: nat -> bool, ends: nat -> bool, k: nat) {
    pos(k).onTrack ==>
      if own(k) then ends(k + 1) || (pos(k + 1).onTrack && Closer(pos(k + 1), pos(k))) else pos(k + 1) == pos(k)
  }

  ghost predicate OwnLater(own: nat -> bool, k: nat) {
    exists j: nat :: k <= j && own(j)
  }

  lemma {:induction false} ReachesEnd(pos: nat -> Position, own: nat -> bool, ends: nat -> bool, k: nat, next: nat)
    returns (m: nat)
    requires (forall i: nat :: Descends(pos, own, ends, i)) && (forall i: nat :: OwnLater(own, i))
    requires pos(k).onTrack && k <= next && own(next)
    ensures k < m && ends(m) && forall i :: k <= i < m ==> pos(i).onTrack
    decreases pos(k).events, pos(k).rank, pos(k).files, next - k
  {
    assert Descends(pos, own, ends, k);
    if !own(k) {
      m := ReachesEnd(pos, own, ends, k + 1, next);
    } else if ends(k + 1) {
      m := k + 1;
    } else {
      assert OwnLater(own, k + 1);
      var later: nat :| k + 1 <= later && own(later);
      m := ReachesEnd(pos, own, ends, k + 1, later);
    }
  }

  /** What every step does adds up. */
  lemma {:induction false} Accumulates(run: nat -> State, k: nat, m: nat)
    requires k <= m && forall i: nat :: k <= i < m ==> GoesOn(run(i), run(i + 1))
    ensures SameBatch(run(k), run(m)) && AllAnswered(run, k, m)
    decreases m - k
  {
    if k < m {
      Accumulates(run, k + 1, m);
      AnsweredOneMore(run, k, m);
    }
  }

  /**
   Every faultless run finishes its batch: it comes to a state in which each event
   of the batch was completed with its reply and all its files in its room, or was
   found completed at its turn, and the cursor is past the batch if a next one was
   announced.
   */
  lemma FaultlessRunsDeliver(maxAttempts: int, run: nat -> State, acts: nat -> Action, k: nat) returns (m: nat)
    requires FaultlessRun(maxAttempts, run, acts) && Inv(maxAttempts, run(k)) && OnTrack(run(k))
    ensures k < m && Ended(run(m)) && SameBatch(run(k), run(m)) && AllAnswered(run, k, m)
  {
    var pos := (i: nat) => At(maxAttempts, run(i));
    var own := (i: nat) => OwnAt(acts, i);
    var ends := (i: nat) => Ended(run(i));
    forall i: nat
      ensures Descends(pos, own, ends, i) && OwnLater(own, i)
      ensures pos(i).onTrack ==> GoesOn(run(i), run(i + 1))
    {
      if pos(i).onTrack { StepAtK(maxAttempts, run, acts, i); }
      assert StepsAgain(acts, i);
      var j: nat :| i <= j && OwnAt(acts, j);
      assert own(j);
    }
    assert OwnLater(own, k);
    var next: nat :| k <= next && own(next);
    m := ReachesEnd(pos, own, ends, k, next);
    forall i: nat | k <= i < m
      ensures GoesOn(run(i), run(i + 1))
    {
      assert pos(i).onTrack;
    }
    Accumulates(run, k, m);
  }
}
