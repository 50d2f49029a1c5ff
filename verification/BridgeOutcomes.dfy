/**
 What became of an event, over every run: an answer is delivered with all its
 files before the event is completed, a completed event was answered or its
 failure told, and what is sent goes back to the step that recorded it.
 */
module BridgeOutcomes {
  import opened Wrappers
  import opened BridgeRecords
  import opened BridgeLog
  import opened BridgeProtocol
  import opened BridgeSafety
  import opened MatrixChannel
  import BridgeRegressions
  import BridgeTheorems
  import Text

  type Delivered = map<(string, TxnKey), string>

  // ------------------------------------------------------ sending an answer

  /** The last sends are the answer's reply and its first files, in order, and the room holds them. */
  ghost predicate SentSoFar(s: State, sent: nat) {
    s.index < |s.batch| && AnswerFor(s.mem.records, Current(s).eventId).Some?
    && SentOf(s.sends, s.delivered, Current(s), AnswerFor(s.mem.records, Current(s).eventId).value, s.mem.log, sent)
  }

  ghost predicate SentOf(sends: seq<Send>, delivered: Delivered, event: Event, answer: Answer, log: Log, sent: nat) {
    var room, id, base := event.roomId, event.eventId, |sends| - sent;
    && sent <= |answer.outputs| && 1 <= base
    && sends[base - 1] == Send(room, ReplyKey(id), answer.text, log) && (room, ReplyKey(id)) in delivered
    && forall k :: 0 <= k < sent ==>
         && sends[base + k] == Send(room, FileKey(id, answer.outputs[k]), answer.outputs[k], log)
         && (room, FileKey(id, answer.outputs[k])) in delivered
  }

  ghost predicate Sending(s: State) {
    s.pc.SendingFiles? ==> SentSoFar(s, s.pc.sent)
  }

  lemma SendingKept(maxAttempts: int, s: State, a: Action, s': State)
    requires Sending(s) && Step(maxAttempts, s, a, s')
    ensures Sending(s')
  {
    if s'.pc.SendingFiles? {
      if a.SendReply? {
        ReplyStartsSending(maxAttempts, s, a.stored, a.acknowledged, s');
      } else if a.SendFile? {
        FileGoesOnSending(maxAttempts, s, a.stored, a.acknowledged, s');
      } else {
        OnlySendsSend(maxAttempts, s, a, s');
      }
    }
  }

  lemma ReplyStartsSending(maxAttempts: int, s: State, stored: bool, acknowledged: bool, s': State)
    requires Step(maxAttempts, s, SendReply(stored, acknowledged), s') && s'.pc.SendingFiles?
    ensures Sending(s')
  {
  }

  lemma FileGoesOnSending(maxAttempts: int, s: State, stored: bool, acknowledged: bool, s': State)
    requires Sending(s) && Step(maxAttempts, s, SendFile(stored, acknowledged), s') && s'.pc.SendingFiles?
    ensures Sending(s')
  {
  }

  lemma OnlySendsSend(maxAttempts: int, s: State, a: Action, s': State)
    requires Step(maxAttempts, s, a, s') && s'.pc.SendingFiles? && !a.SendReply? && !a.SendFile?
    ensures s'.pc == s.pc && s'.mem == s.mem && s'.batch == s.batch && s'.index == s.index
    ensures s'.sends == s.sends && s'.delivered == s.delivered
  {
    if TryAction(a) || HandlerAction(a) {
      OthersLeaveSending(maxAttempts, s, a, s');
    } else {
      SurroundingsLeaveSending(maxAttempts, s, a, s');
    }
  }

  lemma OthersLeaveSending(maxAttempts: int, s: State, a: Action, s': State)
    requires Step(maxAttempts, s, a, s') && !a.SendReply? && !a.SendFile? && (TryAction(a) || HandlerAction(a))
    ensures !s'.pc.SendingFiles?
  {
  }

  lemma SurroundingsLeaveSending(maxAttempts: int, s: State, a: Action, s': State)
    requires Step(maxAttempts, s, a, s') && s'.pc.SendingFiles? && !TryAction(a) && !HandlerAction(a)
    ensures s'.pc == s.pc && s'.mem == s.mem && s'.batch == s.batch && s'.index == s.index
    ensures s'.sends == s.sends && s'.delivered == s.delivered
  {
  }

  // --------------------------------------------------- how the copies change

  /** What an action records: the transition carries what the step was given and what it saw. */
  ghost predicate WrittenBy(s: State, a: Action, op: Op) {
    match op
    case Adopt(token) => a == UseLegacyCursor(token) || a == FirstSync(token)
    case Advance(origin, to, cfg) =>
      a.EndBatch? && s.mem.cursor == Some(origin) && to == s.upto && cfg == s.cfg
    case Begin(event, room, now) =>
      a == BeginCurrent(now) && s.index < |s.batch| && Current(s).eventId == event && Current(s).roomId == room
    case Baseline(event, snapshot, now) =>
      a == TakeBaseline(now) && s.index < |s.batch| && Current(s).eventId == event && snapshot == s.outbox
    case Answered(event, text, outputs, after, now) =>
      && a == RecordAnswer(text, outputs, now) && s.index < |s.batch| && Current(s).eventId == event
      && after == s.outbox
    case Fail(event, error, now) =>
      a == RecordFailure(error, now) && s.index < |s.batch| && Current(s).eventId == event
    case Complete(event, reply, now, dropped) =>
      && s.index < |s.batch| && Current(s).eventId == event
      && (|| a == CompleteCurrent(reply, now, dropped)
          || (a.NoticeSent? && a.reply == reply && a.now == now && a.dropped == dropped))
  }

  /** Each copy is what some copy was; only memory takes a new entry, what the action records. */
  ghost predicate Evolves(s: State, a: Action, s': State, op: Op) {
    && (s'.remote == s.remote || s'.remote == s.disk)
    && (s'.disk == s.disk || s'.disk == s.remote || (s.pc != Down && s'.disk == s.mem))
    && (s'.pc != Down ==>
          || s'.mem == s.disk
          || (s.pc != Down && (s'.mem == s.mem || (s'.mem == Write(s.mem, op) && WrittenBy(s, a, op)))))
  }

  lemma CopiesEvolve(maxAttempts: int, s: State, a: Action, s': State) returns (op: Op)
    requires AtPoint(s) && Trailing(s) && (s.pc.Pushing? ==> s.disk == s.mem) && Step(maxAttempts, s, a, s')
    ensures Evolves(s, a, s', op)
  {
    op := Adopt(0);
    if s.index < |s.batch| && EventOp(s, a).Some? {
      op := EventOp(s, a).value;
      GuardHolds(maxAttempts, s, a, s');
      EventOpWritten(s, a);
      Written(s, a, s', op);
    } else if a.UseLegacyCursor? || a.FirstSync? {
      op := AdoptWritten(maxAttempts, s, a, s');
    } else if a.EndBatch? && s'.pc != Idle {
      op := AdvanceWritten(maxAttempts, s, s');
    } else if a.Arrive? {
      ArrivingMovesNothing(maxAttempts, s, a.posted, s');
    } else if MovesCopies(a) {
      MovesTrailing(maxAttempts, s, a, s');
    } else {
      OtherStepsLeaveCopies(maxAttempts, s, a, s');
    }
  }

  lemma EventOpWritten(s: State, a: Action)
    requires s.index < |s.batch| && EventOp(s, a).Some?
    ensures WrittenBy(s, a, EventOp(s, a).value)
  {
  }

  lemma Written(s: State, a: Action, s': State, op: Op)
    requires s.index < |s.batch| && WritesGuarded(s, op, s') && WrittenBy(s, a, op)
    ensures Evolves(s, a, s', op)
  {
  }

  lemma AdoptWritten(maxAttempts: int, s: State, a: Action, s': State) returns (op: Op)
    requires Step(maxAttempts, s, a, s') && (a.UseLegacyCursor? || a.FirstSync?)
    ensures Evolves(s, a, s', op)
  {
    op := Adopt(a.token);
  }

  lemma AdvanceWritten(maxAttempts: int, s: State, s': State) returns (op: Op)
    requires Step(maxAttempts, s, EndBatch, s') && s'.pc != Idle
    ensures Evolves(s, EndBatch, s', op)
  {
    op := Advance(s.mem.cursor.value, s.upto, s.cfg);
  }

  lemma ArrivingMovesNothing(maxAttempts: int, s: State, posted: Posted, s': State)
    requires Step(maxAttempts, s, Arrive(posted), s')
    ensures s'.pc == s.pc && s'.mem == s.mem && s'.disk == s.disk && s'.remote == s.remote
  {
  }

  // ----------------------------------------------- where each entry came from

  /** Step i recorded entry n of the log, onto exactly the entries before it. */
  ghost predicate RecordedAt(states: seq<State>, actions: seq<Action>, i: int, log: Log, n: nat)
    requires |states| == |actions| + 1 && n < |log|
  {
    && 0 <= i < |actions|
    && states[i].pc != Down && states[i].mem.log == log[..n] && WrittenBy(states[i], actions[i], log[n])
  }

  ghost predicate RecordedBefore(states: seq<State>, actions: seq<Action>, k: nat, log: Log)
    requires |states| == |actions| + 1
  {
    forall n :: 0 <= n < |log| ==> HasRecorder(states, actions, k, log, n)
  }

  ghost predicate HasRecorder(states: seq<State>, actions: seq<Action>, k: nat, log: Log, n: nat)
    requires |states| == |actions| + 1 && n < |log|
  {
    exists i :: i < k && RecordedAt(states, actions, i, log, n)
  }

  ghost predicate AllRecorded(states: seq<State>, actions: seq<Action>, k: nat)
    requires k < |states| == |actions| + 1
  {
    && RecordedBefore(states, actions, k, states[k].disk.log)
    && RecordedBefore(states, actions, k, states[k].remote.log)
    && (states[k].pc != Down ==> RecordedBefore(states, actions, k, states[k].mem.log))
  }

  lemma RecordedLater(states: seq<State>, actions: seq<Action>, k: nat, log: Log)
    requires |states| == |actions| + 1 && RecordedBefore(states, actions, k, log)
    ensures RecordedBefore(states, actions, k + 1, log)
  {
    var later := k + 1;
    forall n | 0 <= n < |log| ensures HasRecorder(states, actions, later, log, n) {
      assert HasRecorder(states, actions, k, log, n);
      var i :| i < k && RecordedAt(states, actions, i, log, n);
      assert i < later;
    }
  }

  lemma RecordedNow(states: seq<State>, actions: seq<Action>, k: nat, log: Log, op: Op)
    requires k < |actions| && |states| == |actions| + 1 && RecordedBefore(states, actions, k, log)
    requires states[k].pc != Down && states[k].mem.log == log && WrittenBy(states[k], actions[k], op)
    ensures RecordedBefore(states, actions, k + 1, log + [op])
  {
    var later, longer := k + 1, log + [op];
    forall n | 0 <= n < |longer| ensures HasRecorder(states, actions, later, longer, n) {
      assert longer[..n] == if n < |log| then log[..n] else log;
      if n < |log| {
        assert HasRecorder(states, actions, k, log, n);
        var i :| i < k && RecordedAt(states, actions, i, log, n);
        assert RecordedAt(states, actions, i, longer, n);
      } else {
        assert RecordedAt(states, actions, k, longer, n);
      }
    }
  }

  lemma RecordedStep(maxAttempts: int, states: seq<State>, actions: seq<Action>, k: nat)
    requires Behavior(maxAttempts, states, actions) && k < |actions| && AllRecorded(states, actions, k)
    ensures AllRecorded(states, actions, k + 1)
  {
    var op := EvolvesAt(maxAttempts, states, actions, k);
    var s := states[k];
    RecordedLater(states, actions, k, s.disk.log);
    RecordedLater(states, actions, k, s.remote.log);
    if s.pc != Down {
      RecordedLater(states, actions, k, s.mem.log);
      if WrittenBy(s, actions[k], op) {
        RecordedNow(states, actions, k, s.mem.log, op);
      }
    }
  }

  lemma EvolvesAt(maxAttempts: int, states: seq<State>, actions: seq<Action>, k: nat) returns (op: Op)
    requires Behavior(maxAttempts, states, actions) && k < |actions|
    ensures Evolves(states[k], actions[k], states[k + 1], op)
  {
    assert StepAt(maxAttempts, states, actions, k);
    InvAlways(maxAttempts, states, actions, k);
    op := CopiesEvolve(maxAttempts, states[k], actions[k], states[k + 1]);
  }

  /** Every entry of every copy was recorded by an earlier step, from its own action. */
  lemma {:induction false} EntriesAreRecorded(maxAttempts: int, states: seq<State>, actions: seq<Action>, k: nat)
    requires Behavior(maxAttempts, states, actions) && k < |states|
    ensures AllRecorded(states, actions, k)
  {
    if k > 0 {
      EntriesAreRecorded(maxAttempts, states, actions, k - 1);
      RecordedStep(maxAttempts, states, actions, k - 1);
    }
  }

  // ------------------------------------------------- sent as it was recorded

  /** The step an entry of a good copy's log came from. */
  lemma RecorderOf(maxAttempts: int, states: seq<State>, actions: seq<Action>, k: nat, log: Log, n: nat)
    returns (i: nat)
    requires Behavior(maxAttempts, states, actions) && k < |states| && n < |log|
    requires log <= states[k].remote.log || (states[k].pc != Down && log <= states[k].mem.log)
    ensures i < k && RecordedAt(states, actions, i, log, n)
  {
    EntriesAreRecorded(maxAttempts, states, actions, k);
    var whole := if log <= states[k].remote.log then states[k].remote.log else states[k].mem.log;
    assert HasRecorder(states, actions, k, whole, n);
    var j :| j < k && RecordedAt(states, actions, j, whole, n);
    assert whole[..n] == log[..n];
    i := j;
  }

  ghost predicate CurrentIs(s: State, event: EventId) {
    s.index < |s.batch| && Current(s).eventId == event
  }

  /** Step i recorded an answer for the event: this text and these outputs. */
  ghost predicate AnsweredAt(states: seq<State>, actions: seq<Action>, i: nat, event: EventId, answer: Answer) {
    && i < |actions| && i < |states| && CurrentIs(states[i], event)
    && actions[i].RecordAnswer? && actions[i].text == answer.text && actions[i].outputs == answer.outputs
    && answer.text != ""
  }

  ghost predicate BaselineAt(states: seq<State>, actions: seq<Action>, i: nat, event: EventId, snapshot: Snapshot) {
    && i < |actions| && i < |states| && CurrentIs(states[i], event)
    && actions[i].TakeBaseline? && states[i].outbox == snapshot
  }

  lemma RecordsSomething(maxAttempts: int, states: seq<State>, actions: seq<Action>, i: nat)
    requires Behavior(maxAttempts, states, actions) && i < |actions| && actions[i].RecordAnswer?
    ensures actions[i].text != ""
  {
    assert StepAt(maxAttempts, states, actions, i);
  }

  /** An answer found in a log of the run was recorded at step i, measured from the outbox as step j saw it. */
  lemma AnswerRecordedAt(maxAttempts: int, states: seq<State>, actions: seq<Action>, k: nat, log: Log, event: EventId)
    returns (j: nat, i: nat)
    requires Behavior(maxAttempts, states, actions) && k < |states| && Legal(log)
    requires log <= states[k].remote.log || (states[k].pc != Down && log <= states[k].mem.log)
    requires AnswerFor(Replay(log), event).Some?
    ensures j < i < k && AnsweredAt(states, actions, i, event, AnswerFor(Replay(log), event).value)
    ensures BaselineAt(states, actions, j, event, states[j].outbox)
    ensures Text.SortedListOf(AnswerFor(Replay(log), event).value.outputs,
                              Changed(states[j].outbox, states[i].outbox))
  {
    var n := AnswerHasEntry(log, event);
    i := RecorderOf(maxAttempts, states, actions, k, log, n);
    RecordsSomething(maxAttempts, states, actions, i);
    GuardAt(log, n);
    var m := BaselineHasEntry(log[..n], event);
    j := RecorderOf(maxAttempts, states, actions, i, log[..n], m);
  }

  /**
   What is sent goes back to the step that recorded it: a reply carries the text
   of the event's recorded answer, and a sent file is one of its outputs.
   */
  lemma SentAsRecorded(maxAttempts: int, states: seq<State>, actions: seq<Action>, k: nat, n: nat) returns (i: nat)
    requires Behavior(maxAttempts, states, actions) && k < |states| && n < |states[k].sends|
    requires !states[k].sends[n].key.FailureKey?
    ensures i < k && actions[i].RecordAnswer? && states[i].index < |states[i].batch|
    ensures var send := states[k].sends[n];
            && Current(states[i]).eventId == send.key.event
            && match send.key
               case ReplyKey(_) => send.body == actions[i].text && send.body != ""
               case FileKey(_, path) => send.body == path && path in actions[i].outputs
               case FailureKey(_) => false
  {
    InvAlways(maxAttempts, states, actions, k);
    var send := states[k].sends[n];
    assert SendFact(send) && send.log <= states[k].remote.log;
    var j;
    j, i := AnswerRecordedAt(maxAttempts, states, actions, k, send.log, send.key.event);
  }

  /** A run measures from the outbox as the step that took the event's baseline saw it. */
  lemma RunsMeasureFromBaseline(maxAttempts: int, states: seq<State>, actions: seq<Action>, k: nat, r: nat)
    returns (j: nat)
    requires Behavior(maxAttempts, states, actions) && k < |states| && r < |states[k].runs|
    ensures j < k && BaselineAt(states, actions, j, states[k].runs[r].event, states[k].runs[r].before)
  {
    InvAlways(maxAttempts, states, actions, k);
    var run := states[k].runs[r];
    assert RunFact(run) && run.log <= states[k].remote.log;
    var m := BaselineHasEntry(run.log, run.event);
    j := RecorderOf(maxAttempts, states, actions, k, run.log, m);
  }

  // ------------------------------------------- an answer is delivered in full

  lemma {:induction false} SendingAlways(maxAttempts: int, states: seq<State>, actions: seq<Action>, k: nat)
    requires Behavior(maxAttempts, states, actions) && k < |states|
    ensures Sending(states[k])
  {
    if k > 0 {
      SendingAlways(maxAttempts, states, actions, k - 1);
      assert StepAt(maxAttempts, states, actions, k - 1);
      SendingKept(maxAttempts, states[k - 1], actions[k - 1], states[k]);
    }
  }

  lemma CompletesAfterSending(maxAttempts: int, s: State, reply: string, now: int, dropped: set<EventId>, s': State)
    requires Step(maxAttempts, s, CompleteCurrent(reply, now, dropped), s') && Sending(s)
    ensures s.index < |s.batch| && AnswerFor(s.mem.records, Current(s).eventId).Some?
    ensures SentSoFar(s, |AnswerFor(s.mem.records, Current(s).eventId).value.outputs|)
    ensures s.pc.SendingFiles? && s'.delivered == s.delivered
  {
  }

  /** What is known where an event is about to be completed. */
  lemma Completing(maxAttempts: int, states: seq<State>, actions: seq<Action>, k: nat)
    requires Behavior(maxAttempts, states, actions) && k < |actions| && actions[k].CompleteCurrent?
    ensures var s := states[k];
            && s.index < |s.batch| && AnswerFor(s.mem.records, Current(s).eventId).Some?
            && SentSoFar(s, |AnswerFor(s.mem.records, Current(s).eventId).value.outputs|)
            && s.pc != Down && HistoriesGood(maxAttempts, s)
            && Legal(s.mem.log) && s.mem.records == Replay(s.mem.log)
  {
    SendingAlways(maxAttempts, states, actions, k);
    BridgeRegressions.MemoryReplays(maxAttempts, states, actions, k);
    InvAlways(maxAttempts, states, actions, k);
    assert StepAt(maxAttempts, states, actions, k);
    var a := actions[k];
    CompletesAfterSending(maxAttempts, states[k], a.reply, a.now, a.dropped, states[k + 1]);
  }

  /**
   An event is completed only after its whole answer is in its room: the last
   messages sent are the reply and then each of the answer's files, in order and
   under their own keys, and the room holds a message under each of the keys.
   */
  lemma CompletedOnlyInFull(maxAttempts: int, states: seq<State>, actions: seq<Action>, k: nat)
    requires Behavior(maxAttempts, states, actions) && k < |actions| && actions[k].CompleteCurrent?
    ensures var s := states[k];
            && s.index < |s.batch| && AnswerFor(s.mem.records, Current(s).eventId).Some?
            && var event, answer := Current(s), AnswerFor(s.mem.records, Current(s).eventId).value;
               var base := |s.sends| - |answer.outputs|;
               && 1 <= base
               && s.sends[base - 1] == Send(event.roomId, ReplyKey(event.eventId), answer.text, s.mem.log)
               && (event.roomId, ReplyKey(event.eventId)) in s.delivered
               && forall f :: 0 <= f < |answer.outputs| ==>
                    var path := answer.outputs[f];
                    && s.sends[base + f] == Send(event.roomId, FileKey(event.eventId, path), path, s.mem.log)
                    && (event.roomId, FileKey(event.eventId, path)) in s.delivered
  {
    Completing(maxAttempts, states, actions, k);
  }

  /** The path was sent as a file of the event's answer as memory has it. */
  ghost predicate SentWith(s: State, event: Event, path: string) {
    exists n :: 0 <= n < |s.sends|
                && s.sends[n] == Send(event.roomId, FileKey(event.eventId, path), path, s.mem.log)
  }

  lemma FileSentIff(maxAttempts: int, s: State, event: Event, answer: Answer, path: string)
    requires HistoriesGood(maxAttempts, s) && AnswerFor(Replay(s.mem.log), event.eventId) == Some(answer)
    requires SentOf(s.sends, s.delivered, event, answer, s.mem.log, |answer.outputs|)
    ensures path in answer.outputs <==> SentWith(s, event, path)
  {
    if path in answer.outputs {
      var f :| 0 <= f < |answer.outputs| && answer.outputs[f] == path;
      assert s.sends[|s.sends| - |answer.outputs| + f].body == path;
    }
    if SentWith(s, event, path) {
      var n :| 0 <= n < |s.sends|
               && s.sends[n] == Send(event.roomId, FileKey(event.eventId, path), path, s.mem.log);
      assert SendFact(s.sends[n]);
    }
  }

  /** A file was sent with the current answer if and only if it is new or different in the later outbox. */
  ghost predicate ReturnsTheChanged(s: State, before: Snapshot, after: Snapshot) {
    s.index < |s.batch| && forall path ::
      (path in after && (path !in before || before[path] != after[path])) <==> SentWith(s, Current(s), path)
  }

  lemma ChangedWereSent(maxAttempts: int, s: State, answer: Answer, before: Snapshot, after: Snapshot)
    requires HistoriesGood(maxAttempts, s) && s.index < |s.batch| && s.mem.records == Replay(s.mem.log)
    requires AnswerFor(s.mem.records, Current(s).eventId) == Some(answer)
    requires SentSoFar(s, |answer.outputs|) && Text.SortedListOf(answer.outputs, Changed(before, after))
    ensures ReturnsTheChanged(s, before, after)
  {
    forall path
      ensures path in Changed(before, after) <==> SentWith(s, Current(s), path)
    {
      FileSentIff(maxAttempts, s, Current(s), answer, path);
    }
  }

  /**
   The files an event gives back are exactly those that changed: when it is
   completed, a file was sent with this answer if and only if it was in the outbox
   when the answer was recorded and was not there, or was different, when the
   event's baseline was taken.
   */
  lemma ExactlyTheChangedFiles(maxAttempts: int, states: seq<State>, actions: seq<Action>, k: nat)
    returns (j: nat, i: nat)
    requires Behavior(maxAttempts, states, actions) && k < |actions| && actions[k].CompleteCurrent?
    ensures j < i < k && states[k].index < |states[k].batch|
    ensures actions[j].TakeBaseline? && CurrentIs(states[j], Current(states[k]).eventId)
    ensures actions[i].RecordAnswer? && CurrentIs(states[i], Current(states[k]).eventId)
    ensures ReturnsTheChanged(states[k], states[j].outbox, states[i].outbox)
  {
    Completing(maxAttempts, states, actions, k);
    var s, event := states[k], Current(states[k]).eventId;
    j, i := AnswerRecordedAt(maxAttempts, states, actions, k, s.mem.log, event);
    ChangedWereSent(maxAttempts, s, AnswerFor(s.mem.records, event).value, states[j].outbox, states[i].outbox);
  }

  // -------------------------------------------- no completion without an outcome

  /** The reply and every file of the answer are in the room. */
  ghost predicate InFull(delivered: Delivered, room: string, event: EventId, answer: Answer) {
    && (room, ReplyKey(event)) in delivered
    && forall path :: path in answer.outputs ==> (room, FileKey(event, path)) in delivered
  }

  /** The event's room holds a failure notice, or the answer of its record in full. */
  ghost predicate Told(delivered: Delivered, room: string, event: EventId, answer: Option<Answer>) {
    (room, FailureKey(event)) in delivered || (answer.Some? && InFull(delivered, room, event, answer.value))
  }

  /** Entry n completes an event of the stream whose room was told. */
  ghost predicate Settled(timeline: seq<Posted>, delivered: Delivered, log: Log, n: nat)
    requires n < |log|
  {
    log[n].Complete? ==>
      exists i :: 0 <= i < |timeline| && StreamId(timeline[i]) == log[n].event
                  && Told(delivered, timeline[i].room, log[n].event, AnswerFor(Replay(log[..n]), log[n].event))
  }

  ghost predicate AllSettled(timeline: seq<Posted>, delivered: Delivered, log: Log) {
    forall n :: 0 <= n < |log| ==> Settled(timeline, delivered, log, n)
  }

  ghost predicate CopiesSettled(s: State) {
    && AllSettled(s.timeline, s.delivered, s.disk.log)
    && AllSettled(s.timeline, s.delivered, s.remote.log)
    && (s.pc != Down ==> AllSettled(s.timeline, s.delivered, s.mem.log))
  }

  /** The stream and the messages in the rooms only grow, and no message changes. */
  ghost predicate Grown(s: State, s': State) {
    && s.timeline <= s'.timeline
    && forall where :: where in s.delivered ==> where in s'.delivered && s'.delivered[where] == s.delivered[where]
  }

  lemma StepGrows(maxAttempts: int, s: State, a: Action, s': State)
    requires Step(maxAttempts, s, a, s')
    ensures Grown(s, s')
  {
    if Sends(a) {
      SendIsAdded(maxAttempts, s, a, s');
      EventLeaves(maxAttempts, s, a, s');
    } else if a.RunAgent? || a.RetryLater? {
      RunningPostsNothing(maxAttempts, s, a, s');
    } else {
      OtherStepsAddNothing(maxAttempts, s, a, s');
      StreamGrows(maxAttempts, s, a, s');
    }
  }

  lemma RunningPostsNothing(maxAttempts: int, s: State, a: Action, s': State)
    requires Step(maxAttempts, s, a, s') && (a.RunAgent? || a.RetryLater?)
    ensures s'.timeline == s.timeline && s'.delivered == s.delivered
  {
  }

  lemma StreamGrows(maxAttempts: int, s: State, a: Action, s': State)
    requires Step(maxAttempts, s, a, s')
    ensures s.timeline <= s'.timeline
  {
    if TryAction(a) || HandlerAction(a) {
      EventLeaves(maxAttempts, s, a, s');
    } else {
      StreamGrowsOutside(maxAttempts, s, a, s');
    }
  }

  lemma StreamGrowsOutside(maxAttempts: int, s: State, a: Action, s': State)
    requires Step(maxAttempts, s, a, s') && !TryAction(a) && !HandlerAction(a)
    ensures s.timeline <= s'.timeline
  {
  }

  lemma SettledLater(s: State, s': State, log: Log)
    requires Grown(s, s') && AllSettled(s.timeline, s.delivered, log)
    ensures AllSettled(s'.timeline, s'.delivered, log)
  {
    forall n | 0 <= n < |log| && log[n].Complete?
      ensures Settled(s'.timeline, s'.delivered, log, n)
    {
      assert Settled(s.timeline, s.delivered, log, n);
      var i :| 0 <= i < |s.timeline| && StreamId(s.timeline[i]) == log[n].event
               && Told(s.delivered, s.timeline[i].room, log[n].event, AnswerFor(Replay(log[..n]), log[n].event));
      assert s'.timeline[i] == s.timeline[i];
    }
  }

  lemma SettledPush(timeline: seq<Posted>, delivered: Delivered, log: Log, op: Op)
    requires AllSettled(timeline, delivered, log) && Settled(timeline, delivered, log + [op], |log|)
    ensures AllSettled(timeline, delivered, log + [op])
  {
    var longer := log + [op];
    forall n | 0 <= n < |longer|
      ensures Settled(timeline, delivered, longer, n)
    {
      if n < |log| {
        assert Settled(timeline, delivered, log, n);
        assert longer[..n] == log[..n];
      }
    }
  }

  /** The event a batch is at is in the stream, in its own room. */
  lemma CurrentIsPosted(s: State) returns (i: nat)
    requires ControlGood(s) && InEvent(s.pc)
    ensures i < |s.timeline| && StreamId(s.timeline[i]) == Current(s).eventId
    ensures s.timeline[i].room == Current(s).roomId
  {
    CurrentActionable(s);
    var j :| s.mem.cursor.value <= j < s.upto && Yields(s.cfg, s.timeline[j], Current(s));
    YieldsId(s.cfg, s.timeline[j], Current(s));
    i := j;
  }

  /** Completing the current event, after its delivery or after a notice, settles it. */
  lemma CompletionSettles(s: State, delivered: Delivered, op: Op)
    requires ControlGood(s) && InEvent(s.pc) && s.mem.records == Replay(s.mem.log)
    requires op.Complete? && op.event == Current(s).eventId
    requires Told(delivered, Current(s).roomId, op.event, AnswerFor(s.mem.records, op.event))
    ensures Settled(s.timeline, delivered, s.mem.log + [op], |s.mem.log|)
  {
    var i := CurrentIsPosted(s);
    assert (s.mem.log + [op])[..|s.mem.log|] == s.mem.log;
  }

  /** A completion is recorded only once the event's room has been told. */
  lemma CompletesWhenTold(maxAttempts: int, s: State, a: Action, s': State, op: Op)
    requires Step(maxAttempts, s, a, s') && Sending(s) && WrittenBy(s, a, op) && op.Complete?
    ensures s.index < |s.batch| && (s.pc == Deciding || s.pc.SendingFiles?)
    ensures Told(s'.delivered, Current(s).roomId, op.event, AnswerFor(s.mem.records, op.event))
  {
    match a
    case CompleteCurrent(reply, now, dropped) =>
      CompletesAfterSending(maxAttempts, s, reply, now, dropped, s');
      SentIsInFull(s);
    case NoticeSent(text, reply, now, dropped) => NoticeTells(maxAttempts, s, text, reply, now, dropped, s');
  }

  lemma SentIsInFull(s: State)
    requires s.index < |s.batch| && AnswerFor(s.mem.records, Current(s).eventId).Some?
    requires SentSoFar(s, |AnswerFor(s.mem.records, Current(s).eventId).value.outputs|)
    ensures InFull(s.delivered, Current(s).roomId, Current(s).eventId,
                   AnswerFor(s.mem.records, Current(s).eventId).value)
  {
  }

  lemma NoticeTells(maxAttempts: int, s: State, text: string, reply: string, now: int, dropped: set<EventId>, s': State)
    requires Step(maxAttempts, s, NoticeSent(text, reply, now, dropped), s')
    ensures s.index < |s.batch| && s.pc == Deciding
    ensures (Current(s).roomId, FailureKey(Current(s).eventId)) in s'.delivered
  {
  }

  lemma SettledStep(maxAttempts: int, states: seq<State>, actions: seq<Action>, k: nat)
    requires Behavior(maxAttempts, states, actions) && k < |actions| && CopiesSettled(states[k])
    ensures CopiesSettled(states[k + 1])
  {
    var s, a, s' := states[k], actions[k], states[k + 1];
    assert StepAt(maxAttempts, states, actions, k);
    StepGrows(maxAttempts, s, a, s');
    var op := EvolvesAt(maxAttempts, states, actions, k);
    SettledLater(s, s', s.disk.log);
    SettledLater(s, s', s.remote.log);
    if s.pc != Down {
      SettledLater(s, s', s.mem.log);
      if WrittenBy(s, a, op) {
        WrittenSettles(maxAttempts, states, actions, k, op);
        SettledPush(s'.timeline, s'.delivered, s.mem.log, op);
      }
    }
  }

  lemma WrittenSettles(maxAttempts: int, states: seq<State>, actions: seq<Action>, k: nat, op: Op)
    requires Behavior(maxAttempts, states, actions) && k < |actions| && states[k].pc != Down
    requires WrittenBy(states[k], actions[k], op)
    ensures Settled(states[k + 1].timeline, states[k + 1].delivered, states[k].mem.log + [op], |states[k].mem.log|)
  {
    if op.Complete? {
      var s, a, s' := states[k], actions[k], states[k + 1];
      assert StepAt(maxAttempts, states, actions, k);
      SendingAlways(maxAttempts, states, actions, k);
      BridgeRegressions.MemoryReplays(maxAttempts, states, actions, k);
      CompletesWhenTold(maxAttempts, s, a, s', op);
      InvAlways(maxAttempts, states, actions, k);
      CompletionSettles(s, s'.delivered, op);
      EventLeaves(maxAttempts, s, a, s');
    }
  }

  lemma {:induction false} SettledAlways(maxAttempts: int, states: seq<State>, actions: seq<Action>, k: nat)
    requires Behavior(maxAttempts, states, actions) && k < |states|
    ensures CopiesSettled(states[k])
  {
    if k > 0 {
      SettledAlways(maxAttempts, states, actions, k - 1);
      SettledStep(maxAttempts, states, actions, k - 1);
    }
  }

  lemma {:induction false} CompletedHasEntry(log: Log, event: EventId) returns (n: nat)
    requires LastStatus(log, event) == Some(Completed)
    ensures n < |log| && log[n].Complete? && log[n].event == event
  {
    n := |log| - 1;
    if !(log[n].Complete? && log[n].event == event) {
      n := CompletedHasEntry(log[..n], event);
    }
  }

  /** Entry n of the log completed the event, and by then its room was told. */
  ghost predicate ToldBy(s: State, log: Log, n: nat, event: Event) {
    && n < |log| && log[n].Complete? && log[n].event == event.eventId
    && Told(s.delivered, event.roomId, event.eventId, AnswerFor(Replay(log[..n]), event.eventId))
  }

  ghost predicate EventTold(s: State, log: Log, event: Event) {
    exists n :: ToldBy(s, log, n, event)
  }

  /**
   No event goes unanswered: for each stream position the cursor of a copy has
   moved past, the actionable event there has its failure notice in its room, or
   has in its room the reply and every file of the answer its record held when it
   was completed.
   */
  lemma EveryEventIsTold(maxAttempts: int, states: seq<State>, actions: seq<Action>, k: nat, copy: Copy, i: nat)
    returns (n: nat)
    requires Behavior(maxAttempts, states, actions) && k < |states| && BridgeTheorems.Holds(states[k], copy)
    requires copy.cursor.Some? && Start(copy.log) <= i < copy.cursor.value
    ensures i < |states[k].timeline|
    ensures n < |copy.log| && copy.log[n].Advance? && copy.log[n].origin <= i < copy.log[n].to
    ensures forall event :: Yields(copy.log[n].cfg, states[k].timeline[i], event) ==>
                              EventTold(states[k], copy.log, event)
  {
    BridgeTheorems.NoEventSkipped(maxAttempts, states, actions, k, copy, i);
    SettledAlways(maxAttempts, states, actions, k);
    InvAlways(maxAttempts, states, actions, k);
    var s := states[k];
    var m :| 0 <= m < |copy.log| && copy.log[m].Advance? && copy.log[m].origin <= i < copy.log[m].to
             && forall event :: Yields(copy.log[m].cfg, s.timeline[i], event) ==>
                                  LastStatus(copy.log, event.eventId) == Some(Completed);
    n := m;
    forall event | Yields(copy.log[n].cfg, s.timeline[i], event)
      ensures EventTold(s, copy.log, event)
    {
      CompletedIsTold(s, copy.log, copy.log[n].cfg, i, event);
    }
  }

  lemma CompletedIsTold(s: State, log: Log, cfg: Config, i: nat, event: Event)
    requires DistinctStream(s.timeline) && AllSettled(s.timeline, s.delivered, log) && i < |s.timeline|
    requires Yields(cfg, s.timeline[i], event) && LastStatus(log, event.eventId) == Some(Completed)
    ensures EventTold(s, log, event)
  {
    YieldsId(cfg, s.timeline[i], event);
    var n := CompletedHasEntry(log, event.eventId);
    assert Settled(s.timeline, s.delivered, log, n);
    var j :| 0 <= j < |s.timeline| && StreamId(s.timeline[j]) == log[n].event
             && Told(s.delivered, s.timeline[j].room, log[n].event, AnswerFor(Replay(log[..n]), log[n].event));
    assert j == i;
    assert ToldBy(s, log, n, event);
  }

  // ------------------------------------------------------- what a room shows

  /** A message once in a room stays there as it is. */
  lemma {:induction false} MessagesStay(maxAttempts: int, states: seq<State>, actions: seq<Action>, i: nat, j: nat)
    requires Behavior(maxAttempts, states, actions) && i <= j < |states|
    ensures forall where :: where in states[i].delivered ==>
              where in states[j].delivered && states[j].delivered[where] == states[i].delivered[where]
  {
    if i < j {
      MessagesStay(maxAttempts, states, actions, i, j - 1);
      assert StepAt(maxAttempts, states, actions, j - 1);
      StepGrows(maxAttempts, states[j - 1], actions[j - 1], states[j]);
    }
  }

  /** The file a room shows under a key is the one the key names, and an answer recorded for the event returned it. */
  lemma RoomShowsTheFile(maxAttempts: int, states: seq<State>, actions: seq<Action>, k: nat, room: string,
                         event: EventId, path: string) returns (i: nat)
    requires Behavior(maxAttempts, states, actions) && k < |states|
    requires (room, FileKey(event, path)) in states[k].delivered
    ensures states[k].delivered[(room, FileKey(event, path))] == path
    ensures i < k && CurrentIs(states[i], event) && actions[i].RecordAnswer? && path in actions[i].outputs
  {
    InvAlways(maxAttempts, states, actions, k);
    assert DeliveredWereSent(states[k]);
    var s := states[k];
    var n :| 0 <= n < |s.sends| && s.sends[n].key == FileKey(event, path)
             && s.sends[n].body == s.delivered[(room, FileKey(event, path))];
    i := SentAsRecorded(maxAttempts, states, actions, k, n);
  }

  /** A notice goes out, and an event is retried, by its attempts alone. */
  lemma NoticeOnlyWhenUsedUp(maxAttempts: int, states: seq<State>, actions: seq<Action>, k: nat)
    requires Behavior(maxAttempts, states, actions) && k < |actions|
    requires actions[k].SendNotice? || actions[k].NoticeSent? || actions[k].RetryLater?
    ensures var s := states[k];
            && s.index < |s.batch| && Current(s).eventId in s.mem.records
            && var record := s.mem.records[Current(s).eventId];
               && record.status == Failed
               && (actions[k].RetryLater? <==> record.attempts < maxAttempts)
  {
    InvAlways(maxAttempts, states, actions, k);
    assert StepAt(maxAttempts, states, actions, k);
    DecidesByAttempts(maxAttempts, states[k], actions[k], states[k + 1]);
  }

  lemma DecidesByAttempts(maxAttempts: int, s: State, a: Action, s': State)
    requires AtPoint(s) && Step(maxAttempts, s, a, s') && (a.SendNotice? || a.NoticeSent? || a.RetryLater?)
    ensures s.index < |s.batch| && Current(s).eventId in s.mem.records
    ensures s.mem.records[Current(s).eventId].status == Failed
    ensures a.RetryLater? <==> s.mem.records[Current(s).eventId].attempts < maxAttempts
  {
    DecidesAt(maxAttempts, s, a, s');
  }

  lemma DecidesAt(maxAttempts: int, s: State, a: Action, s': State)
    requires Step(maxAttempts, s, a, s') && (a.SendNotice? || a.NoticeSent? || a.RetryLater?)
    ensures s.pc == PC.Deciding && s.index < |s.batch|
    ensures a.RetryLater? <==> ShouldRetry(s.mem.records, Current(s).eventId, maxAttempts)
  {
  }

  // ----------------------------------------------------- where a run starts

  /** Past the start-up: a cursor was loaded, adopted from the legacy file, or saved and pushed. */
  ghost predicate Started(pc: PC) {
    pc != Down && pc != Booting && pc != Saving(OfBoot)
  }

  lemma DiskMoves(maxAttempts: int, s: State, a: Action, s': State)
    requires Step(maxAttempts, s, a, s') && s'.pc != Down
    ensures s'.disk == s.disk || (s.pc.Saving? && s'.disk == s.mem)
  {
    if TryAction(a) || HandlerAction(a) {
      EventLeaves(maxAttempts, s, a, s');
    } else {
      DiskMovesOutside(maxAttempts, s, a, s');
    }
  }

  lemma DiskMovesOutside(maxAttempts: int, s: State, a: Action, s': State)
    requires Step(maxAttempts, s, a, s') && s'.pc != Down && !TryAction(a) && !HandlerAction(a)
    ensures s'.disk == s.disk || (s.pc.Saving? && s'.disk == s.mem)
  {
  }

  /** How the start-up ends. */
  lemma Starts(maxAttempts: int, s: State, a: Action, s': State)
    requires Step(maxAttempts, s, a, s') && !Started(s.pc) && Started(s'.pc)
    ensures || a.UseLegacyCursor?
            || (a.Load? && s'.disk == s.disk && s.disk.cursor.Some?)
            || (s.pc == Saving(OfBoot) && s'.disk == s.mem)
  {
    if TryAction(a) || HandlerAction(a) {
      EventLeaves(maxAttempts, s, a, s');
    } else {
      StartsOutside(maxAttempts, s, a, s');
    }
  }

  lemma StartsOutside(maxAttempts: int, s: State, a: Action, s': State)
    requires Step(maxAttempts, s, a, s') && !Started(s.pc) && Started(s'.pc) && !TryAction(a) && !HandlerAction(a)
    ensures || a.UseLegacyCursor?
            || (a.Load? && s'.disk == s.disk && s.disk.cursor.Some?)
            || (s.pc == Saving(OfBoot) && s'.disk == s.mem)
  {
  }

  ghost predicate LegacyUsed(actions: seq<Action>, k: nat) {
    exists i :: 0 <= i < k && i < |actions| && actions[i].UseLegacyCursor?
  }

  /** A cursor adopted from the server is in the file before the loop relies on it. */
  lemma {:induction false} CursorSavedFirst(maxAttempts: int, states: seq<State>, actions: seq<Action>, k: nat)
    requires Behavior(maxAttempts, states, actions) && k < |states| && Started(states[k].pc)
    ensures states[k].disk.log != [] || LegacyUsed(actions, k)
  {
    if k > 0 {
      BridgeRegressions.TrailingStep(maxAttempts, states, actions, k - 1);
      InvAlways(maxAttempts, states, actions, k - 1);
      LogsBehindCursors(maxAttempts, states[k - 1]);
      if Started(states[k - 1].pc) {
        CursorSavedFirst(maxAttempts, states, actions, k - 1);
      }
      if !LegacyUsed(actions, k) {
        SavedStep(maxAttempts, states[k - 1], actions[k - 1], states[k]);
      }
    }
  }

  /** A copy with a cursor has a log. */
  ghost predicate Backed(s: State) {
    && (s.disk.cursor.Some? ==> s.disk.log != [])
    && (s.pc.Saving? ==> s.mem.log != [])
  }

  lemma LogsBehindCursors(maxAttempts: int, s: State)
    requires Inv(maxAttempts, s)
    ensures Backed(s)
  {
  }

  lemma SavedStep(maxAttempts: int, s: State, a: Action, s': State)
    requires Step(maxAttempts, s, a, s') && Started(s'.pc) && Backed(s) && !a.UseLegacyCursor?
    requires Started(s.pc) ==> s.disk.log != []
    ensures s'.disk.log != []
  {
    if Started(s.pc) {
      DiskMoves(maxAttempts, s, a, s');
    } else {
      Starts(maxAttempts, s, a, s');
    }
  }

  /**
   From the first push on, the start is fixed: every copy of every later state
   begins with the entry the remote copy began with, so that nothing behind the
   position adopted there is ever left out (EveryEventIsTold).
   */
  lemma StartIsFixed(maxAttempts: int, states: seq<State>, actions: seq<Action>, i: nat, j: nat, copy: Copy)
    requires Behavior(maxAttempts, states, actions) && i <= j < |states|
    requires states[i].remote.log != [] && BridgeTheorems.Holds(states[j], copy)
    ensures copy.log != [] && copy.log[0] == states[i].remote.log[0] && copy.log[0].Adopt?
    ensures Start(copy.log) == Start(states[i].remote.log)
  {
    BridgeTheorems.Between(maxAttempts, states, actions, i, j);
    InvAlways(maxAttempts, states, actions, i);
    InvAlways(maxAttempts, states, actions, j);
    StartsByAdopting(states[i].remote.log);
    assert states[j].remote.log <= copy.log;
  }
}
