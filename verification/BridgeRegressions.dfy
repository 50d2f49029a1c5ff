/**
 What the delivery loop does not keep, and exactly when it does: a completed
 record can fall back to failed, and an attempt number can pass the maximum.
 */
module BridgeRegressions {
  import opened Wrappers
  import opened BridgeRecords
  import opened BridgeLog
  import opened BridgeProtocol
  import opened BridgeSafety

  // ------------------------------------------------------ completed records

  /** The steps that take a completion back: a recorded failure, a pruning, an older file. */
  predicate Undoes(s: State, a: Action, event: EventId) {
    match a
    case RecordFailure(_, _) => s.index < |s.batch| && Current(s).eventId == event
    case CompleteCurrent(_, _, dropped) => event in dropped
    case NoticeSent(_, _, _, dropped) => event in dropped
    case Load => !IsCompleted(s.disk.records, event)
    case _ => false
  }

  /**
   A record completed in memory stays completed if and only if the step neither
   records a failure of that very event, nor prunes the record, nor loads a file
   in which it is not completed.
   */
  lemma CompletedStaysIff(maxAttempts: int, s: State, a: Action, s': State, event: EventId)
    requires ControlGood(s) && Step(maxAttempts, s, a, s') && IsCompleted(s.mem.records, event)
    ensures IsCompleted(s'.mem.records, event) <==> !Undoes(s, a, event)
  {
    if TryAction(a) {
      CompletedInTry(maxAttempts, s, a, s', event);
    } else if HandlerAction(a) {
      CompletedInHandler(maxAttempts, s, a, s', event);
    } else {
      CompletedOutside(maxAttempts, s, a, s', event);
    }
  }

  lemma CompletedInTry(maxAttempts: int, s: State, a: Action, s': State, event: EventId)
    requires AtPoint(s) && Step(maxAttempts, s, a, s') && TryAction(a) && IsCompleted(s.mem.records, event)
    ensures IsCompleted(s'.mem.records, event) <==> !Undoes(s, a, event)
  {
    if a.TakeBaseline? || a.RecordAnswer? || a.CompleteCurrent? {
      CompletedInWrite(maxAttempts, s, a, s', event);
    } else {
      TryingWritesNothing(maxAttempts, s, a, s');
    }
  }

  lemma CompletedInWrite(maxAttempts: int, s: State, a: Action, s': State, event: EventId)
    requires AtPoint(s) && Step(maxAttempts, s, a, s') && IsCompleted(s.mem.records, event)
    requires a.TakeBaseline? || a.RecordAnswer? || a.CompleteCurrent?
    ensures IsCompleted(s'.mem.records, event) <==> !Undoes(s, a, event)
  {
    match a
    case TakeBaseline(now) => CompletedAtBaseline(maxAttempts, s, now, s', event);
    case RecordAnswer(text, outputs, now) => CompletedAtAnswer(maxAttempts, s, text, outputs, now, s', event);
    case CompleteCurrent(reply, now, dropped) => CompletedAtCompletion(maxAttempts, s, reply, now, dropped, s', event);
  }

  lemma CompletedAtBaseline(maxAttempts: int, s: State, now: int, s': State, event: EventId)
    requires AtPoint(s) && Step(maxAttempts, s, TakeBaseline(now), s') && IsCompleted(s.mem.records, event)
    ensures IsCompleted(s'.mem.records, event)
  {
  }

  lemma CompletedAtAnswer(maxAttempts: int, s: State, text: string, outputs: seq<string>, now: int, s': State,
                          event: EventId)
    requires AtPoint(s) && Step(maxAttempts, s, RecordAnswer(text, outputs, now), s')
    requires IsCompleted(s.mem.records, event)
    ensures IsCompleted(s'.mem.records, event)
  {
  }

  lemma CompletedAtCompletion(maxAttempts: int, s: State, reply: string, now: int, dropped: set<EventId>, s': State,
                              event: EventId)
    requires Step(maxAttempts, s, CompleteCurrent(reply, now, dropped), s') && IsCompleted(s.mem.records, event)
    ensures IsCompleted(s'.mem.records, event) <==> event !in dropped
  {
  }

  lemma TryingWritesNothing(maxAttempts: int, s: State, a: Action, s': State)
    requires Step(maxAttempts, s, a, s') && TryAction(a)
    requires !a.TakeBaseline? && !a.RecordAnswer? && !a.CompleteCurrent?
    ensures s'.mem == s.mem
  {
  }

  lemma CompletedInHandler(maxAttempts: int, s: State, a: Action, s': State, event: EventId)
    requires AtPoint(s) && Step(maxAttempts, s, a, s') && HandlerAction(a) && IsCompleted(s.mem.records, event)
    ensures IsCompleted(s'.mem.records, event) <==> !Undoes(s, a, event)
  {
  }

  lemma CompletedOutside(maxAttempts: int, s: State, a: Action, s': State, event: EventId)
    requires AtPoint(s) && Step(maxAttempts, s, a, s') && IsCompleted(s.mem.records, event)
    requires !TryAction(a) && !HandlerAction(a)
    ensures IsCompleted(s'.mem.records, event) <==> !Undoes(s, a, event)
  {
    if MovesCopies(a) {
      CompletedInMove(maxAttempts, s, a, s', event);
    } else {
      CompletedInLoop(maxAttempts, s, a, s', event);
    }
  }

  lemma CompletedInMove(maxAttempts: int, s: State, a: Action, s': State, event: EventId)
    requires Step(maxAttempts, s, a, s') && IsCompleted(s.mem.records, event) && MovesCopies(a)
    ensures IsCompleted(s'.mem.records, event) <==> !Undoes(s, a, event)
  {
  }

  lemma CompletedInLoop(maxAttempts: int, s: State, a: Action, s': State, event: EventId)
    requires Step(maxAttempts, s, a, s') && IsCompleted(s.mem.records, event)
    requires !TryAction(a) && !HandlerAction(a) && !MovesCopies(a)
    ensures IsCompleted(s'.mem.records, event) <==> !Undoes(s, a, event)
  {
  }

  /** Saving or pushing the current event's completion failed. */
  predicate CompletionFailed(s: State, a: Action) {
    || (s.pc == Saving(OfComplete) && a == Save(false))
    || (s.pc == Pushing(OfComplete) && a.Push? && !a.pushed)
  }

  predicate Surroundings(a: Action) {
    a.Arrive? || a.ChangeOutbox?
  }

  /** An error was raised although the current event is completed. */
  ghost predicate RaisedCompleted(s: State) {
    s.pc == Raised && s.index < |s.batch| && IsCompleted(s.mem.records, Current(s).eventId)
  }

  lemma RaisedStep(maxAttempts: int, s: State, a: Action, s': State)
    requires AtPoint(s) && Step(maxAttempts, s, a, s') && RaisedCompleted(s')
    ensures s'.batch == s.batch && s'.index == s.index
    ensures CompletionFailed(s, a) || (Surroundings(a) && RaisedCompleted(s))
  {
    if TryAction(a) {
      RaisedInTry(maxAttempts, s, a, s');
    } else {
      RaisedOutside(maxAttempts, s, a, s');
    }
  }

  lemma RaisedInTry(maxAttempts: int, s: State, a: Action, s': State)
    requires AtPoint(s) && Step(maxAttempts, s, a, s') && TryAction(a)
    ensures !RaisedCompleted(s')
  {
  }

  lemma RaisedOutside(maxAttempts: int, s: State, a: Action, s': State)
    requires AtPoint(s) && Step(maxAttempts, s, a, s') && RaisedCompleted(s') && !TryAction(a)
    ensures s'.batch == s.batch && s'.index == s.index
    ensures CompletionFailed(s, a) || (Surroundings(a) && RaisedCompleted(s))
  {
    if a.Save? || a.Push? {
      RaisedInRecording(maxAttempts, s, a, s');
    } else {
      OnlyErrorsRaise(maxAttempts, s, a, s');
    }
  }

  lemma RaisedInRecording(maxAttempts: int, s: State, a: Action, s': State)
    requires AtPoint(s) && Step(maxAttempts, s, a, s') && RaisedCompleted(s') && (a.Save? || a.Push?)
    ensures s'.batch == s.batch && s'.index == s.index && CompletionFailed(s, a)
  {
    FailedRecording(maxAttempts, s, a, s');
  }

  /** What a failed save or push that raises an error leaves alone. */
  lemma FailedRecording(maxAttempts: int, s: State, a: Action, s': State)
    requires Step(maxAttempts, s, a, s') && (a.Save? || a.Push?) && s'.pc == Raised
    ensures s'.mem == s.mem && s'.batch == s.batch && s'.index == s.index
    ensures (s.pc.Saving? && a == Save(false)) || (s.pc.Pushing? && a.Push? && !a.pushed)
    ensures s.pc.purpose == OfBaseline || s.pc.purpose == OfAnswer || s.pc.purpose == OfComplete
  {
    if a.Push? {
      FailedPushing(maxAttempts, s, a.pushed, a.applied, s');
    }
  }

  lemma FailedPushing(maxAttempts: int, s: State, pushed: bool, applied: bool, s': State)
    requires Step(maxAttempts, s, Push(pushed, applied), s') && s'.pc == Raised
    ensures s'.mem == s.mem && s'.batch == s.batch && s'.index == s.index && !pushed
    ensures s.pc.purpose == OfBaseline || s.pc.purpose == OfAnswer || s.pc.purpose == OfComplete
  {
  }

  lemma OnlyErrorsRaise(maxAttempts: int, s: State, a: Action, s': State)
    requires Step(maxAttempts, s, a, s') && s'.pc == Raised && !TryAction(a) && !a.Save? && !a.Push?
    ensures Surroundings(a) && s.pc == Raised && s'.mem == s.mem && s'.batch == s.batch && s'.index == s.index
  {
  }

  /** Where a run raised an error over a completed event: right after the completion failed to be saved or pushed. */
  ghost predicate FailedAt(states: seq<State>, actions: seq<Action>, k: nat, j: nat)
    requires k < |states| == |actions| + 1
  {
    && j < k && CompletionFailed(states[j], actions[j])
    && states[j].batch == states[k].batch && states[j].index == states[k].index
    && forall i :: j < i < k ==> Surroundings(actions[i])
  }

  /**
   A failure recorded over a completed event, the one way in which the loop itself
   takes a completion back, always follows the failed save or push of that
   completion, with nothing but the surroundings in between.
   */
  lemma {:induction false} RegressionFollowsFailedPush(maxAttempts: int, states: seq<State>, actions: seq<Action>,
                                                       k: nat) returns (j: nat)
    requires Behavior(maxAttempts, states, actions) && k < |states| && RaisedCompleted(states[k])
    ensures FailedAt(states, actions, k, j)
  {
    j := k;
    if k > 0 {
      j := k - 1;
      RaisedAt(maxAttempts, states, actions, k);
      if !CompletionFailed(states[j], actions[j]) {
        j := RegressionFollowsFailedPush(maxAttempts, states, actions, j);
      }
    }
  }

  lemma RaisedAt(maxAttempts: int, states: seq<State>, actions: seq<Action>, k: nat)
    requires Behavior(maxAttempts, states, actions) && 0 < k < |states| && RaisedCompleted(states[k])
    ensures states[k].batch == states[k - 1].batch && states[k].index == states[k - 1].index
    ensures || CompletionFailed(states[k - 1], actions[k - 1])
            || (Surroundings(actions[k - 1]) && RaisedCompleted(states[k - 1]))
  {
    StepHolds(maxAttempts, states, actions, k - 1);
    RaisedStep(maxAttempts, states[k - 1], actions[k - 1], states[k]);
  }

  lemma StepHolds(maxAttempts: int, states: seq<State>, actions: seq<Action>, k: nat)
    requires Behavior(maxAttempts, states, actions) && k < |actions|
    ensures Step(maxAttempts, states[k], actions[k], states[k + 1])
    ensures AtPoint(states[k])
  {
    assert StepAt(maxAttempts, states, actions, k);
    InvAlways(maxAttempts, states, actions, k);
  }

  // -------------------------------------------------------- attempt numbers

  /** Entry n records a failure that used up the attempts of a record that was not dropped since. */
  ghost predicate Exhausted(maxAttempts: int, log: Log, n: nat, event: EventId) {
    && n < |log| && log[n].Fail? && log[n].event == event && !Dropped(log, n + 1, event)
    && event in Replay(log[..n + 1]) && Replay(log[..n + 1])[event].attempts >= maxAttempts
  }

  lemma ExhaustedLonger(maxAttempts: int, log: Log, op: Op, n: nat, event: EventId)
    requires n < |log|
    ensures Exhausted(maxAttempts, log + [op], n, event)
       <==> Exhausted(maxAttempts, log, n, event) && !(op.Complete? && event in op.dropped)
  {
    var longer := log + [op];
    assert longer[..n + 1] == log[..n + 1];
    if Dropped(log, n + 1, event) {
      DroppedLater(log, longer, n + 1, event);
    }
    if k :| 0 <= k < |longer| && n + 1 <= k && longer[k].Complete? && event in longer[k].dropped {
      assert k < |log| ==> log[k].Complete? && event in log[k].dropped;
    }
    assert longer[|log|] == op;
  }

  /** A record over the maximum, or failed at it, once used up its attempts. */
  lemma {:induction false} OverWasExhausted(maxAttempts: int, log: Log, event: EventId) returns (n: nat)
    requires Legal(log) && maxAttempts >= 1 && event in Replay(log)
    requires var record := Replay(log)[event];
             record.attempts > maxAttempts || (record.status == Failed && record.attempts >= maxAttempts)
    ensures Exhausted(maxAttempts, log, n, event)
  {
    var rest, op := log[..|log| - 1], log[|log| - 1];
    assert log == rest + [op];
    if op.Fail? && op.event == event {
      n := |log| - 1;
      assert log[..n + 1] == log;
    } else {
      AttemptsPositive(rest, event);
      OverBefore(maxAttempts, Replay(rest), CursorOf(rest), op, event);
      n := OverWasExhausted(maxAttempts, rest, event);
      ExhaustedLonger(maxAttempts, rest, op, n, event);
    }
  }

  ghost predicate Over(maxAttempts: int, records: Records, event: EventId) {
    && event in records
    && (|| records[event].attempts > maxAttempts
        || (records[event].status == Failed && records[event].attempts >= maxAttempts))
  }

  lemma OverBefore(maxAttempts: int, records: Records, cursor: Option<nat>, op: Op, event: EventId)
    requires Guard(records, cursor, op) && maxAttempts >= 1 && Over(maxAttempts, Apply(records, op), event)
    requires !(op.Fail? && op.event == event)
    requires event in records ==> records[event].attempts >= 1
    ensures Over(maxAttempts, records, event)
    ensures !(op.Complete? && event in op.dropped)
  {
  }

  /** A begin passes the maximum if and only if its copy holds a failure that used up the attempts. */
  lemma ExceedsIffExhausted(maxAttempts: int, log: Log, op: Op, event: EventId)
    requires Legal(log + [op]) && maxAttempts >= 1 && op.Begin? && op.event == event
    ensures Replay(log + [op])[event].attempts > maxAttempts <==> exists n: nat :: Exhausted(maxAttempts, log, n, event)
  {
    var longer := log + [op];
    LogPush(log, op);
    if Replay(longer)[event].attempts > maxAttempts {
      var n := OverWasExhausted(maxAttempts, longer, event);
      assert n < |log|;
      ExhaustedLonger(maxAttempts, log, op, n, event);
    }
    if n: nat :| Exhausted(maxAttempts, log, n, event) {
      ExhaustedLonger(maxAttempts, log, op, n, event);
      FailedAfter(longer, n, event);
      BegunAgainIsHigher(longer, n + 1, |log|, event);
      assert longer[..n + 1] == log[..n + 1];
      BegunIsLast(longer, log, op);
    }
  }

  lemma FailedAfter(log: Log, n: nat, event: EventId)
    requires n < |log| && log[n].Fail? && log[n].event == event
    ensures event in Replay(log[..n + 1]) && Replay(log[..n + 1])[event].status == Failed
  {
    assert log[..n + 1][..n] == log[..n];
  }

  lemma BegunIsLast(longer: Log, log: Log, op: Op)
    requires longer == log + [op]
    ensures longer[..|log| + 1] == longer
  {
  }

  // --------------------------------------------- what an exhausted failure meets

  /** A crash, a failed save or push, or a notice that was not acknowledged. */
  predicate Fault(a: Action) {
    a.Crash? || (a.Save? && !a.saved) || (a.Push? && !a.pushed) || a.SendNotice?
  }

  /** A fault met the process when its memory held this part of the log. */
  ghost predicate FaultAfter(states: seq<State>, actions: seq<Action>, k: nat, part: Log)
    requires k < |states| == |actions| + 1
  {
    exists i :: 0 <= i < k && Fault(actions[i]) && states[i].pc != Down && part <= states[i].mem.log
  }

  predicate HandlingFailure(pc: PC) {
    pc == Saving(OfFailure) || pc == Pushing(OfFailure) || pc == Deciding
  }

  predicate RecordingNotice(pc: PC) {
    pc == Saving(OfNotice) || pc == Pushing(OfNotice)
  }

  /** Without a fault, the handler is still at work on the failure, or has completed the event. */
  ghost predicate Handled(s: State, n: nat, event: EventId) {
    || (HandlingFailure(s.pc) && n == |s.mem.log| - 1 && s.index < |s.batch| && Current(s).eventId == event)
    || (&& IsCompleted(s.mem.records, event)
        && (InEvent(s.pc) && s.index < |s.batch| && Current(s).eventId == event ==> RecordingNotice(s.pc)))
  }

  /** The step drops no record of the event. */
  predicate Spares(a: Action, event: EventId) {
    match a
    case CompleteCurrent(_, _, dropped) => event !in dropped
    case NoticeSent(_, _, _, dropped) => event !in dropped
    case _ => true
  }

  /** The attempts of a failure being handled are used up. */
  ghost predicate UsedUp(maxAttempts: int, s: State, n: nat, event: EventId) {
    HandlingFailure(s.pc) && n == |s.mem.log| - 1 ==>
      event in s.mem.records && !ShouldRetry(s.mem.records, event, maxAttempts)
  }

  lemma KeptHandled(maxAttempts: int, s: State, a: Action, s': State, n: nat, event: EventId)
    requires AtPoint(s) && Step(maxAttempts, s, a, s') && s.pc != Down && !Fault(a)
    requires n < |s.mem.log| && Handled(s, n, event) && UsedUp(maxAttempts, s, n, event) && Spares(a, event)
    ensures Handled(s', n, event)
  {
    if TryAction(a) {
      KeptInTry(maxAttempts, s, a, s', n, event);
    } else if HandlerAction(a) {
      KeptInHandler(maxAttempts, s, a, s', n, event);
    } else if a.Save? || a.Push? {
      KeptInRecording(maxAttempts, s, a, s', n, event);
    } else {
      KeptInLoop(maxAttempts, s, a, s', n, event);
    }
  }

  lemma KeptInTry(maxAttempts: int, s: State, a: Action, s': State, n: nat, event: EventId)
    requires AtPoint(s) && Step(maxAttempts, s, a, s') && TryAction(a)
    requires n < |s.mem.log| && Handled(s, n, event) && Spares(a, event)
    ensures Handled(s', n, event)
  {
    StaysInEvent(maxAttempts, s, a, s');
    CompletedInTry(maxAttempts, s, a, s', event);
  }

  lemma StaysInEvent(maxAttempts: int, s: State, a: Action, s': State)
    requires AtPoint(s) && Step(maxAttempts, s, a, s') && TryAction(a)
    ensures s'.batch == s.batch && s'.index == s.index < |s.batch|
    ensures InTry(s.pc) && InEvent(s'.pc)
  {
  }

  lemma KeptInHandler(maxAttempts: int, s: State, a: Action, s': State, n: nat, event: EventId)
    requires AtPoint(s) && Step(maxAttempts, s, a, s') && HandlerAction(a) && !Fault(a)
    requires n < |s.mem.log| && Handled(s, n, event) && UsedUp(maxAttempts, s, n, event) && Spares(a, event)
    ensures Handled(s', n, event)
  {
    match a
    case RecordFailure(error, now) => KeptAtFailure(maxAttempts, s, error, now, s', n, event);
    case RetryLater => KeptAtRetry(maxAttempts, s, s', n, event);
    case NoticeSent(text, reply, now, dropped) => KeptAtNotice(maxAttempts, s, text, reply, now, dropped, s', n, event);
  }

  lemma KeptAtFailure(maxAttempts: int, s: State, error: string, now: int, s': State, n: nat, event: EventId)
    requires Step(maxAttempts, s, RecordFailure(error, now), s') && Handled(s, n, event)
    ensures Handled(s', n, event)
  {
  }

  lemma KeptAtRetry(maxAttempts: int, s: State, s': State, n: nat, event: EventId)
    requires Step(maxAttempts, s, RetryLater, s')
    requires Handled(s, n, event) && UsedUp(maxAttempts, s, n, event)
    ensures Handled(s', n, event)
  {
  }

  lemma KeptAtNotice(maxAttempts: int, s: State, text: string, reply: string, now: int, dropped: set<EventId>,
                     s': State, n: nat, event: EventId)
    requires Step(maxAttempts, s, NoticeSent(text, reply, now, dropped), s')
    requires Handled(s, n, event) && event !in dropped
    ensures Handled(s', n, event)
  {
  }

  lemma KeptInRecording(maxAttempts: int, s: State, a: Action, s': State, n: nat, event: EventId)
    requires Step(maxAttempts, s, a, s') && (a.Save? || a.Push?) && !Fault(a)
    requires n < |s.mem.log| && Handled(s, n, event)
    ensures Handled(s', n, event)
  {
    Recorded(maxAttempts, s, a, s');
  }

  /** A save and a push that succeed go on from the same event. */
  lemma Recorded(maxAttempts: int, s: State, a: Action, s': State)
    requires Step(maxAttempts, s, a, s') && (a.Save? || a.Push?) && !Fault(a)
    ensures s'.mem == s.mem && s'.batch == s.batch
    ensures a.Save? ==> s.pc.Saving? && s'.pc == Pushing(s.pc.purpose) && s'.index == s.index
    ensures a.Push? ==> s.pc.Pushing? && s'.pc == AfterPush(s, s.pc.purpose).pc
    ensures a.Push? && s.pc.purpose != OfComplete && s.pc.purpose != OfNotice ==> s'.index == s.index
  {
  }

  lemma KeptInLoop(maxAttempts: int, s: State, a: Action, s': State, n: nat, event: EventId)
    requires Step(maxAttempts, s, a, s') && s.pc != Down && !Fault(a)
    requires !TryAction(a) && !HandlerAction(a) && !a.Save? && !a.Push?
    requires n < |s.mem.log| && Handled(s, n, event)
    ensures Handled(s', n, event)
  {
  }

  /** What a step of a running process records in memory, if anything. */
  ghost predicate Appends(s: State, a: Action, s': State, op: Op) {
    && s'.mem == Write(s.mem, op)
    && (op.Fail? ==> a.RecordFailure? && s.index < |s.batch| && op.event == Current(s).eventId)
    && (forall event :: !Spares(a, event) ==> op.Complete? && event in op.dropped)
  }

  lemma LogGrows(maxAttempts: int, s: State, a: Action, s': State) returns (op: Op)
    requires AtPoint(s) && Step(maxAttempts, s, a, s') && s.pc != Down
    ensures (s'.mem == s.mem && forall event :: Spares(a, event)) || Appends(s, a, s', op)
  {
    op := Adopt(0);
    if s.index < |s.batch| && EventOp(s, a).Some? {
      op := EventOp(s, a).value;
      EventAppends(maxAttempts, s, a, s');
    } else if Writes(s, s', a) {
      op := CursorWritten(maxAttempts, s, a, s');
    } else {
      NothingAppended(maxAttempts, s, a, s');
    }
  }

  lemma EventAppends(maxAttempts: int, s: State, a: Action, s': State)
    requires AtPoint(s) && Step(maxAttempts, s, a, s') && s.index < |s.batch| && EventOp(s, a).Some?
    ensures Appends(s, a, s', EventOp(s, a).value)
  {
    GuardHolds(maxAttempts, s, a, s');
  }

  lemma NothingAppended(maxAttempts: int, s: State, a: Action, s': State)
    requires Step(maxAttempts, s, a, s') && s.pc != Down && !Writes(s, s', a)
    ensures s'.mem == s.mem && forall event :: Spares(a, event)
  {
    if MovesCopies(a) {
      RunningMoves(maxAttempts, s, a, s');
    } else {
      OtherStepsLeaveCopies(maxAttempts, s, a, s');
    }
    if a.CompleteCurrent? || a.NoticeSent? {
      AlwaysInBatch(maxAttempts, s, a, s');
    }
  }

  lemma AlwaysInBatch(maxAttempts: int, s: State, a: Action, s': State)
    requires Step(maxAttempts, s, a, s') && (a.CompleteCurrent? || a.NoticeSent?)
    ensures s.index < |s.batch|
  {
  }

  lemma CursorWritten(maxAttempts: int, s: State, a: Action, s': State) returns (op: Op)
    requires Step(maxAttempts, s, a, s') && (a.UseLegacyCursor? || a.FirstSync? || (a.EndBatch? && s'.pc != Idle))
    ensures s'.mem == Write(s.mem, op) && (op.Adopt? || op.Advance?)
  {
    op := if a.EndBatch? then Advance(s.mem.cursor.value, s.upto, s.cfg) else Adopt(a.token);
  }

  lemma RunningMoves(maxAttempts: int, s: State, a: Action, s': State)
    requires Step(maxAttempts, s, a, s') && MovesCopies(a) && s.pc != Down
    ensures s'.mem == s.mem
  {
  }

  // ----------------------------------------------------------- over every run

  /** A dead process's file holds no more than the memory did when the fault came. */
  lemma DownStep(maxAttempts: int, s: State, a: Action, s': State)
    requires Trailing(s) && Step(maxAttempts, s, a, s') && s'.pc == Down
    ensures || (s.pc == Down && s'.disk.log <= s.disk.log)
            || (s.pc != Down && Fault(a) && s'.disk.log <= s.mem.log)
  {
    if MovesCopies(a) {
      DownMoves(maxAttempts, s, a, s');
    } else {
      DownStays(maxAttempts, s, a, s');
    }
  }

  lemma DownMoves(maxAttempts: int, s: State, a: Action, s': State)
    requires Trailing(s) && Step(maxAttempts, s, a, s') && s'.pc == Down && MovesCopies(a)
    ensures || (s.pc == Down && s'.disk.log <= s.disk.log)
            || (s.pc != Down && Fault(a) && s'.disk.log <= s.mem.log)
  {
  }

  lemma DownStays(maxAttempts: int, s: State, a: Action, s': State)
    requires Step(maxAttempts, s, a, s') && s'.pc == Down && !MovesCopies(a)
    ensures s.pc == Down && s'.disk == s.disk
  {
  }

  lemma FaultEarlier(states: seq<State>, actions: seq<Action>, j: nat, k: nat, part: Log, longer: Log)
    requires j <= k < |states| == |actions| + 1 && FaultAfter(states, actions, j, longer) && part <= longer
    ensures FaultAfter(states, actions, k, part)
  {
    var i :| 0 <= i < j && Fault(actions[i]) && states[i].pc != Down && longer <= states[i].mem.log;
    assert part <= states[i].mem.log;
  }

  lemma {:induction false} DownWasFault(maxAttempts: int, states: seq<State>, actions: seq<Action>, k: nat, part: Log)
    requires Behavior(maxAttempts, states, actions) && k < |states| && states[k].pc == Down
    requires part <= states[k].disk.log && part != []
    ensures FaultAfter(states, actions, k, part)
  {
    if k > 0 {
      TrailingStep(maxAttempts, states, actions, k - 1);
      DownStep(maxAttempts, states[k - 1], actions[k - 1], states[k]);
      if states[k - 1].pc == Down {
        DownWasFault(maxAttempts, states, actions, k - 1, part);
        FaultEarlier(states, actions, k - 1, k, part, part);
      }
    }
  }

  lemma TrailingStep(maxAttempts: int, states: seq<State>, actions: seq<Action>, k: nat)
    requires Behavior(maxAttempts, states, actions) && k < |actions|
    ensures Trailing(states[k]) && Step(maxAttempts, states[k], actions[k], states[k + 1])
  {
    assert StepAt(maxAttempts, states, actions, k);
    InvAlways(maxAttempts, states, actions, k);
  }

  /** What memory holds after a fault that leaves the process running, or after a restart. */
  lemma FaultKeepsMemory(maxAttempts: int, s: State, a: Action, s': State)
    requires Step(maxAttempts, s, a, s') && s.pc != Down && s'.pc != Down && Fault(a)
    ensures s'.mem == s.mem
  {
  }

  lemma RestartLoads(maxAttempts: int, s: State, a: Action, s': State)
    requires Step(maxAttempts, s, a, s') && s.pc == Down && s'.pc != Down
    ensures s'.mem == s.disk
  {
    if TryAction(a) || HandlerAction(a) {
      EventLeaves(maxAttempts, s, a, s');
    } else {
      OnlyLoadStarts(maxAttempts, s, a, s');
    }
  }

  lemma OnlyLoadStarts(maxAttempts: int, s: State, a: Action, s': State)
    requires Step(maxAttempts, s, a, s') && s.pc == Down && s'.pc != Down && !TryAction(a) && !HandlerAction(a)
    ensures s'.mem == s.disk
  {
  }

  /** One faultless step of the claim below. */
  lemma ExhaustedStep(maxAttempts: int, s: State, a: Action, s': State, n: nat, event: EventId)
    requires AtPoint(s) && s.mem.records == Replay(s.mem.log) && Step(maxAttempts, s, a, s')
    requires s.pc != Down && s'.pc != Down && !Fault(a) && Exhausted(maxAttempts, s'.mem.log, n, event)
    requires Exhausted(maxAttempts, s.mem.log, n, event) ==> Handled(s, n, event)
    ensures Handled(s', n, event)
  {
    var op := LogGrows(maxAttempts, s, a, s');
    if s'.mem != s.mem {
      ExhaustedBefore(maxAttempts, s, a, s', op, n, event);
    }
    if n < |s.mem.log| {
      assert s.mem.log[..|s.mem.log|] == s.mem.log;
      KeptHandled(maxAttempts, s, a, s', n, event);
    } else {
      NewFailure(maxAttempts, s, a, s', event);
    }
  }

  lemma ExhaustedBefore(maxAttempts: int, s: State, a: Action, s': State, op: Op, n: nat, event: EventId)
    requires Appends(s, a, s', op) && Exhausted(maxAttempts, s'.mem.log, n, event)
    ensures n < |s.mem.log| ==> Exhausted(maxAttempts, s.mem.log, n, event) && Spares(a, event)
    ensures n >= |s.mem.log| ==>
              n == |s.mem.log| && a.RecordFailure? && s.index < |s.batch| && event == Current(s).eventId
  {
    if n < |s.mem.log| {
      ExhaustedLonger(maxAttempts, s.mem.log, op, n, event);
    }
  }

  lemma NewFailure(maxAttempts: int, s: State, a: Action, s': State, event: EventId)
    requires Step(maxAttempts, s, a, s') && a.RecordFailure? && event == Current(s).eventId
    ensures Handled(s', |s.mem.log|, event)
  {
  }

  /**
   As long as no fault met the process since, a failure that used up the attempts
   is being handled or has ended in the event's completion.
   */
  lemma {:induction false} ExhaustedIsHandled(maxAttempts: int, states: seq<State>, actions: seq<Action>, k: nat,
                                              n: nat, event: EventId)
    requires Behavior(maxAttempts, states, actions) && k < |states| && states[k].pc != Down
    requires Exhausted(maxAttempts, states[k].mem.log, n, event)
    ensures Handled(states[k], n, event) || FaultAfter(states, actions, k, states[k].mem.log[..n + 1])
  {
    if k > 0 {
      var s, a := states[k - 1], actions[k - 1];
      if s.pc == Down || Fault(a) {
        FaultMet(maxAttempts, states, actions, k - 1, n);
      } else {
        StepHolds(maxAttempts, states, actions, k - 1);
        MemoryReplays(maxAttempts, states, actions, k - 1);
        if Exhausted(maxAttempts, s.mem.log, n, event) {
          ExhaustedIsHandled(maxAttempts, states, actions, k - 1, n, event);
          if !Handled(s, n, event) {
            FaultStays(maxAttempts, states, actions, k - 1, n);
          }
        }
        if Exhausted(maxAttempts, s.mem.log, n, event) ==> Handled(s, n, event) {
          ExhaustedStep(maxAttempts, s, a, states[k], n, event);
        }
      }
    }
  }

  /** After a restart, or a fault that left the process running, the fault is behind. */
  lemma FaultMet(maxAttempts: int, states: seq<State>, actions: seq<Action>, k: nat, n: nat)
    requires Behavior(maxAttempts, states, actions) && k < |actions| && states[k + 1].pc != Down
    requires states[k].pc == Down || Fault(actions[k])
    requires n < |states[k + 1].mem.log|
    ensures FaultAfter(states, actions, k + 1, states[k + 1].mem.log[..n + 1])
  {
    StepHolds(maxAttempts, states, actions, k);
    var part := states[k + 1].mem.log[..n + 1];
    if states[k].pc == Down {
      RestartLoads(maxAttempts, states[k], actions[k], states[k + 1]);
      DownWasFault(maxAttempts, states, actions, k, part);
      FaultEarlier(states, actions, k, k + 1, part, part);
    } else {
      FaultKeepsMemory(maxAttempts, states[k], actions[k], states[k + 1]);
      assert part <= states[k].mem.log;
    }
  }

  lemma FaultStays(maxAttempts: int, states: seq<State>, actions: seq<Action>, k: nat, n: nat)
    requires Behavior(maxAttempts, states, actions) && k < |actions| && states[k].pc != Down
    requires n < |states[k].mem.log| && FaultAfter(states, actions, k, states[k].mem.log[..n + 1])
    ensures n < |states[k + 1].mem.log| && FaultAfter(states, actions, k + 1, states[k + 1].mem.log[..n + 1])
  {
    StepHolds(maxAttempts, states, actions, k);
    SamePart(maxAttempts, states[k], actions[k], states[k + 1], n);
    var part := states[k].mem.log[..n + 1];
    FaultEarlier(states, actions, k, k + 1, part, part);
  }

  lemma SamePart(maxAttempts: int, s: State, a: Action, s': State, n: nat)
    requires AtPoint(s) && Step(maxAttempts, s, a, s') && s.pc != Down && n < |s.mem.log|
    ensures n < |s'.mem.log| && s'.mem.log[..n + 1] == s.mem.log[..n + 1]
  {
    var op := LogGrows(maxAttempts, s, a, s');
  }

  lemma MemoryReplays(maxAttempts: int, states: seq<State>, actions: seq<Action>, k: nat)
    requires Behavior(maxAttempts, states, actions) && k < |states|
    ensures states[k].pc != Down ==> states[k].mem.records == Replay(states[k].mem.log) && Legal(states[k].mem.log)
  {
    InvAlways(maxAttempts, states, actions, k);
  }

  /**
   In every run, a begin's attempt number passes the maximum if and only if the
   memory holds a failure that used up the attempts, in the record's lifetime, and
   after it came a crash, a failed save or push, or an unacknowledged notice.
   Without such a fault the event is completed and never begun again.
   */
  lemma BeginExceedsIff(maxAttempts: int, states: seq<State>, actions: seq<Action>, k: nat)
    requires Behavior(maxAttempts, states, actions) && k < |actions| && actions[k].BeginCurrent? && maxAttempts >= 1
    ensures var s := states[k];
            && s.index < |s.batch| && Current(s).eventId in states[k + 1].mem.records
            && (states[k + 1].mem.records[Current(s).eventId].attempts > maxAttempts <==>
                exists n: nat :: Exhausted(maxAttempts, s.mem.log, n, Current(s).eventId)
                                 && FaultAfter(states, actions, k, s.mem.log[..n + 1]))
  {
    var s, s' := states[k], states[k + 1];
    StepHolds(maxAttempts, states, actions, k);
    BeginsAt(maxAttempts, s, actions[k].now, s');
    MemoryReplays(maxAttempts, states, actions, k);
    MemoryReplays(maxAttempts, states, actions, k + 1);
    var event := Current(s).eventId;
    ExceedsIffExhausted(maxAttempts, s.mem.log, Begin(event, Current(s).roomId, actions[k].now), event);
    forall n: nat | Exhausted(maxAttempts, s.mem.log, n, event)
      ensures FaultAfter(states, actions, k, s.mem.log[..n + 1])
    {
      ExhaustedIsHandled(maxAttempts, states, actions, k, n, event);
    }
  }

  lemma BeginsAt(maxAttempts: int, s: State, now: int, s': State)
    requires Step(maxAttempts, s, BeginCurrent(now), s')
    ensures s.pc == Looping && s.index < |s.batch| && !IsCompleted(s.mem.records, Current(s).eventId)
    ensures s'.mem == Write(s.mem, Begin(Current(s).eventId, Current(s).roomId, now)) && s'.pc == Saving(OfBegin)
    ensures Current(s).eventId in s'.mem.records
  {
  }
}
