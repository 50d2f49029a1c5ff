/** What the delivery loop guarantees in every run, whatever fails and whenever it dies. */
module BridgeTheorems {
  import opened Wrappers
  import opened BridgeRecords
  import opened BridgeLog
  import opened BridgeProtocol
  import opened BridgeSafety
  import opened MatrixChannel
  import Text

  /** The copies that exist: memory only while the process runs. */
  ghost predicate Holds(s: State, copy: Copy) {
    copy == s.disk || copy == s.remote || (s.pc != Down && copy == s.mem)
  }

  // -------------------------------------------------------- nothing skipped

  /**
   No event is skipped: in every copy, each stream position the cursor has moved
   past since it was adopted lies in a stretch that was processed under some
   configuration, and if the entry there was actionable under it, the event's
   last recorded transition in that copy is its completion.
   */
  lemma NoEventSkipped(maxAttempts: int, states: seq<State>, actions: seq<Action>, k: nat, copy: Copy, i: nat)
    requires Behavior(maxAttempts, states, actions) && k < |states| && Holds(states[k], copy)
    requires copy.cursor.Some? && Start(copy.log) <= i < copy.cursor.value
    ensures i < |states[k].timeline|
    ensures exists n :: 0 <= n < |copy.log| && copy.log[n].Advance? && copy.log[n].origin <= i < copy.log[n].to
                        && forall event :: Yields(copy.log[n].cfg, states[k].timeline[i], event) ==>
                                             LastStatus(copy.log, event.eventId) == Some(Completed)
  {
    InvAlways(maxAttempts, states, actions, k);
    var timeline := states[k].timeline;
    AdvancesTile(copy.log, i);
    var n :| 0 <= n < |copy.log| && copy.log[n].Advance? && copy.log[n].origin <= i < copy.log[n].to;
    forall event | Yields(copy.log[n].cfg, timeline[i], event)
      ensures LastStatus(copy.log, event.eventId) == Some(Completed)
    {
      assert ActionableIn(copy.log[n].cfg, timeline, copy.log[n].origin, copy.log[n].to, event);
      assert StretchHolds(copy.log[n], timeline, event);
    }
  }

  // --------------------------------------------------------- one fixed reply

  /** Before a reply is sent its answer is in memory, saved and pushed. */
  lemma AnswerPushedBeforeReply(maxAttempts: int, states: seq<State>, actions: seq<Action>, k: nat)
    requires Behavior(maxAttempts, states, actions) && k < |actions| && actions[k].SendReply?
    ensures var s := states[k];
            && s.index < |s.batch| && AnswerFor(s.mem.records, Current(s).eventId).Some?
            && s.disk == s.mem && s.remote == s.mem
  {
    InvAlways(maxAttempts, states, actions, k);
    assert StepAt(maxAttempts, states, actions, k);
  }

  /**
   One fixed reply: everything sent under an event's reply key is the answer
   recorded in every copy that has not dropped the record since; so from one drop
   to the next all sends under the key carry one text.
   */
  lemma OneFixedReply(maxAttempts: int, states: seq<State>, actions: seq<Action>, k: nat,
                      copy: Copy, n: nat, event: EventId)
    requires Behavior(maxAttempts, states, actions) && k < |states| && Holds(states[k], copy)
    requires n < |states[k].sends| && states[k].sends[n].key == ReplyKey(event)
    requires !Dropped(copy.log, |states[k].sends[n].log|, event)
    ensures AnswerFor(copy.records, event).Some?
    ensures AnswerFor(copy.records, event).value.text == states[k].sends[n].body
  {
    InvAlways(maxAttempts, states, actions, k);
    assert SendFact(states[k].sends[n]);
    Persists(states[k].sends[n].log, copy.log, event);
  }

  /**
   The reply a room shows under an event's key was sent under it, and is the
   answer in every copy that has not dropped the record since.
   */
  lemma RoomShowsTheAnswer(maxAttempts: int, states: seq<State>, actions: seq<Action>, k: nat,
                           copy: Copy, room: string, event: EventId) returns (n: nat)
    requires Behavior(maxAttempts, states, actions) && k < |states| && Holds(states[k], copy)
    requires (room, ReplyKey(event)) in states[k].delivered
    ensures n < |states[k].sends| && states[k].sends[n].key == ReplyKey(event)
    ensures states[k].sends[n].body == states[k].delivered[(room, ReplyKey(event))]
    ensures !Dropped(copy.log, |states[k].sends[n].log|, event) ==>
              && AnswerFor(copy.records, event).Some?
              && AnswerFor(copy.records, event).value.text == states[k].delivered[(room, ReplyKey(event))]
  {
    InvAlways(maxAttempts, states, actions, k);
    assert DeliveredWereSent(states[k]);
    var s := states[k];
    n :| 0 <= n < |s.sends| && s.sends[n].key == ReplyKey(event)
         && s.sends[n].body == s.delivered[(room, ReplyKey(event))];
    if !Dropped(copy.log, |s.sends[n].log|, event) {
      OneFixedReply(maxAttempts, states, actions, k, copy, n, event);
    }
  }

  /** A step adds at most one run, at the pushed log. */
  lemma StepAddsRuns(maxAttempts: int, s: State, a: Action, s': State)
    requires Inv(maxAttempts, s) && Step(maxAttempts, s, a, s')
    ensures s.runs <= s'.runs
    ensures forall n :: |s.runs| <= n < |s'.runs| ==> s'.runs[n].log == s.remote.log
  {
    if a.RunAgent? {
      RunIsBacked(maxAttempts, s, a, s');
    } else {
      OnlyRunAgentRuns(maxAttempts, s, a, s');
    }
  }

  lemma OnlyRunAgentRuns(maxAttempts: int, s: State, a: Action, s': State)
    requires Step(maxAttempts, s, a, s') && !a.RunAgent?
    ensures s'.runs == s.runs
  {
    if AddsHistory(a) {
      SendingRunsNothing(maxAttempts, s, a, s');
    } else {
      OtherStepsAddNothing(maxAttempts, s, a, s');
    }
  }

  lemma SendingRunsNothing(maxAttempts: int, s: State, a: Action, s': State)
    requires Step(maxAttempts, s, a, s') && !a.RunAgent? && AddsHistory(a)
    ensures s'.runs == s.runs
  {
  }

  /** The later state's remote log extends the earlier one's, and runs added since started on logs that do too. */
  ghost predicate Extends(s: State, later: State) {
    && s.remote.log <= later.remote.log
    && s.runs <= later.runs
    && forall n :: |s.runs| <= n < |later.runs| ==> s.remote.log <= later.runs[n].log
  }

  lemma StepExtends(maxAttempts: int, states: seq<State>, actions: seq<Action>, k: nat)
    requires Behavior(maxAttempts, states, actions) && k < |actions|
    ensures Extends(states[k], states[k + 1])
  {
    InvAlways(maxAttempts, states, actions, k);
    assert StepAt(maxAttempts, states, actions, k);
    RemoteGrows(maxAttempts, states[k], actions[k], states[k + 1]);
    StepAddsRuns(maxAttempts, states[k], actions[k], states[k + 1]);
  }

  lemma ExtendsTransitive(a: State, b: State, c: State)
    requires Extends(a, b) && Extends(b, c)
    ensures Extends(a, c)
  {
    forall n | |a.runs| <= n < |c.runs| ensures a.remote.log <= c.runs[n].log {
      assert n < |b.runs| ==> c.runs[n] == b.runs[n];
    }
  }

  /** Between two moments of a run. */
  lemma {:induction false} Between(maxAttempts: int, states: seq<State>, actions: seq<Action>, i: nat, j: nat)
    requires Behavior(maxAttempts, states, actions) && i <= j < |states|
    ensures Extends(states[i], states[j])
  {
    if i < j {
      Between(maxAttempts, states, actions, i, j - 1);
      StepExtends(maxAttempts, states, actions, j - 1);
      ExtendsTransitive(states[i], states[j - 1], states[j]);
    }
  }

  /** Once its answer is pushed the agent never runs again for an event until its record is dropped. */
  lemma NoRunAfterAnswer(maxAttempts: int, states: seq<State>, actions: seq<Action>, i: nat, j: nat, n: nat,
                         event: EventId)
    requires Behavior(maxAttempts, states, actions) && i <= j < |states|
    requires AnswerFor(states[i].remote.records, event).Some?
    requires !Dropped(states[j].remote.log, |states[i].remote.log|, event)
    requires |states[i].runs| <= n < |states[j].runs|
    ensures states[j].runs[n].event != event
  {
    Between(maxAttempts, states, actions, i, j);
    InvAlways(maxAttempts, states, actions, i);
    InvAlways(maxAttempts, states, actions, j);
    var run := states[j].runs[n];
    if run.event == event {
      var since := |states[i].remote.log|;
      if Dropped(run.log, since, event) {
        DroppedLater(run.log, states[j].remote.log, since, event);
      }
      assert RunFact(run);
      Persists(states[i].remote.log, run.log, event);
      assert false;
    }
  }

  // ------------------------------------------------------- attempt numbering

  /**
   Between two runs of an event whose record lives, the attempt number is the
   same if no failure in between was persisted where the later run started from,
   and larger otherwise.
   */
  lemma AttemptNumbers(maxAttempts: int, states: seq<State>, actions: seq<Action>, k: nat, i: nat, j: nat)
    requires Behavior(maxAttempts, states, actions) && k < |states| && i < j < |states[k].runs|
    requires var runs := states[k].runs;
             runs[i].event == runs[j].event && !Dropped(runs[j].log, |runs[i].log|, runs[j].event)
    ensures var runs := states[k].runs;
            var failed := FailsBetween(runs[j].log, |runs[i].log|, runs[j].event);
            && runs[i].log <= runs[j].log
            && (failed ==> runs[j].attempt > runs[i].attempt)
            && (!failed ==> runs[j].attempt == runs[i].attempt)
  {
    InvAlways(maxAttempts, states, actions, k);
    var runs := states[k].runs;
    assert RunFact(runs[i]) && RunFact(runs[j]) && runs[i].log <= runs[j].log;
    assert runs[j].log[..|runs[i].log|] == runs[i].log;
    AttemptsTally(runs[j].log, |runs[i].log|, runs[j].event);
  }

  /** The attempts of an event that were retried at entry `since` of the log or later, in order. */
  function AttemptsOf(retries: seq<Retry>, event: EventId, since: nat): seq<int> {
    if retries == [] then []
    else
      var last := retries[|retries| - 1];
      AttemptsOf(retries[..|retries| - 1], event, since)
      + if RetriedSince(last, event, since) then [last.attempt] else []
  }

  predicate RetriedSince(retry: Retry, event: EventId, since: nat) {
    retry.event == event && since <= |retry.log|
  }

  /** The retried attempts rise, from 1 on and below the maximum. */
  ghost predicate Rising(maxAttempts: int, retries: seq<Retry>, event: EventId, since: nat) {
    && (forall i, j ::
          0 <= i < j < |retries| && RetriedSince(retries[i], event, since) && RetriedSince(retries[j], event, since)
          ==> retries[i].attempt < retries[j].attempt)
    && (forall k :: 0 <= k < |retries| && RetriedSince(retries[k], event, since)
                    ==> 1 <= retries[k].attempt < maxAttempts)
  }

  lemma {:induction false} AttemptsOfMember(retries: seq<Retry>, event: EventId, since: nat, x: int)
    requires x in AttemptsOf(retries, event, since)
    ensures exists k :: 0 <= k < |retries| && RetriedSince(retries[k], event, since) && retries[k].attempt == x
  {
    var n := |retries| - 1;
    if x in AttemptsOf(retries[..n], event, since) {
      AttemptsOfMember(retries[..n], event, since, x);
      var k :| 0 <= k < n && RetriedSince(retries[..n][k], event, since) && retries[..n][k].attempt == x;
      assert RetriedSince(retries[k], event, since);
    }
  }

  /** Rising attempt numbers from 1 on: the last one bounds how many there are. */
  lemma {:induction false} AttemptsOfRise(maxAttempts: int, retries: seq<Retry>, event: EventId, since: nat)
    requires Rising(maxAttempts, retries, event, since)
    ensures var attempts := AttemptsOf(retries, event, since);
            attempts != [] ==> |attempts| <= attempts[|attempts| - 1]
  {
    if retries != [] {
      var n := |retries| - 1;
      AttemptsOfRise(maxAttempts, retries[..n], event, since);
      var earlier := AttemptsOf(retries[..n], event, since);
      if RetriedSince(retries[n], event, since) && earlier != [] {
        AttemptsOfMember(retries[..n], event, since, earlier[|earlier| - 1]);
      }
    }
  }

  lemma LivingRetriesRise(maxAttempts: int, s: State, event: EventId, since: nat)
    requires HistoriesGood(maxAttempts, s) && !Dropped(s.remote.log, since, event)
    ensures Rising(maxAttempts, s.retries, event, since)
  {
    forall i, j |
      0 <= i < j < |s.retries| && RetriedSince(s.retries[i], event, since) && RetriedSince(s.retries[j], event, since)
      ensures s.retries[i].attempt < s.retries[j].attempt
    {
      NotDroppedBetween(s.retries[j].log, s.remote.log, |s.retries[i].log|, since, event);
    }
    forall k | 0 <= k < |s.retries| && RetriedSince(s.retries[k], event, since)
      ensures 1 <= s.retries[k].attempt < maxAttempts
    {
      assert RetryFact(maxAttempts, s.retries[k]);
    }
  }

  lemma NotDroppedBetween(earlier: Log, later: Log, n: nat, since: nat, event: EventId)
    requires earlier <= later && since <= n && !Dropped(later, since, event)
    ensures !Dropped(earlier, n, event)
  {
    if Dropped(earlier, n, event) {
      DroppedLater(earlier, later, n, event);
      DroppedSince(later, since, n, event);
    }
  }

  /**
   From the last drop of an event's record on, the retry branch is taken at most
   `max_attempts - 1` times.
   */
  lemma RetriesBounded(maxAttempts: int, states: seq<State>, actions: seq<Action>, k: nat, event: EventId, since: nat)
    requires Behavior(maxAttempts, states, actions) && k < |states| && maxAttempts >= 1
    requires !Dropped(states[k].remote.log, since, event)
    ensures |AttemptsOf(states[k].retries, event, since)| <= maxAttempts - 1
  {
    InvAlways(maxAttempts, states, actions, k);
    LivingRetriesRise(maxAttempts, states[k], event, since);
    RisingIsBounded(maxAttempts, states[k].retries, event, since);
  }

  lemma RisingIsBounded(maxAttempts: int, retries: seq<Retry>, event: EventId, since: nat)
    requires maxAttempts >= 1 && Rising(maxAttempts, retries, event, since)
    ensures |AttemptsOf(retries, event, since)| <= maxAttempts - 1
  {
    var attempts := AttemptsOf(retries, event, since);
    AttemptsOfRise(maxAttempts, retries, event, since);
    if attempts != [] {
      AttemptsOfMember(retries, event, since, attempts[|attempts| - 1]);
    }
  }

  // ------------------------------------------------------------ returned files

  /** Runs of an event between which its record was not dropped measure from one baseline. */
  lemma OneBaseline(maxAttempts: int, states: seq<State>, actions: seq<Action>, k: nat, i: nat, j: nat)
    requires Behavior(maxAttempts, states, actions) && k < |states| && i < j < |states[k].runs|
    requires var runs := states[k].runs;
             runs[i].event == runs[j].event && !Dropped(runs[j].log, |runs[i].log|, runs[j].event)
    ensures states[k].runs[i].before == states[k].runs[j].before
  {
    InvAlways(maxAttempts, states, actions, k);
    var runs := states[k].runs;
    assert RunFact(runs[i]) && RunFact(runs[j]) && runs[i].log <= runs[j].log;
    Persists(runs[i].log, runs[j].log, runs[i].event);
  }

  /**
   Returned files are measured from the first attempt: the outputs recorded with
   an answer are the outbox files that differ from the baseline of any run of the
   event, the first one included, and every such run precedes the answer. Runs
   and answers on two sides of a drop do not concern each other.
   */
  lemma OutputsMeasuredFromFirstRun(maxAttempts: int, states: seq<State>, actions: seq<Action>, k: nat,
                                    copy: Copy, n: nat, r: nat)
    requires Behavior(maxAttempts, states, actions) && k < |states| && Holds(states[k], copy)
    requires n < |copy.log| && copy.log[n].Answered?
    requires r < |states[k].runs| && states[k].runs[r].event == copy.log[n].event
    requires |states[k].runs[r].log| <= |copy.log| ==> SameLife(copy.log, |states[k].runs[r].log|, n, copy.log[n].event)
    ensures Text.SortedListOf(copy.log[n].outputs, Changed(states[k].runs[r].before, copy.log[n].after))
    ensures states[k].runs[r].log <= copy.log && |states[k].runs[r].log| <= n
  {
    InvAlways(maxAttempts, states, actions, k);
    var run := states[k].runs[r];
    assert RunFact(run) && run.log <= copy.log && Legal(copy.log);
    RunBeforeAnswer(run, copy.log, n);
    MeasuredFrom(run, copy.log, n);
  }

  /** The record is not dropped between the two entries. */
  ghost predicate SameLife(log: Log, a: nat, b: nat, event: EventId)
    requires a <= |log| && b <= |log|
  {
    if a <= b then !Dropped(log[..b], a, event) else !Dropped(log[..a], b, event)
  }

  lemma RunBeforeAnswer(run: Run, log: Log, n: nat)
    requires RunFact(run) && run.log <= log && Legal(log)
    requires n < |log| && log[n].Answered? && log[n].event == run.event
    requires SameLife(log, |run.log|, n, run.event)
    ensures |run.log| <= n
  {
    if |run.log| > n {
      assert log[..|run.log|] == run.log;
      AnswerStays(run.log, n);
      assert false;
    }
  }

  /** A record keeps its answer until it is dropped. */
  lemma AnswerStays(log: Log, n: nat)
    requires Legal(log) && n < |log| && log[n].Answered? && !Dropped(log, n, log[n].event)
    ensures log[n].event in Replay(log) && Replay(log)[log[n].event].answer.Some?
  {
    GuardAt(log, n);
    assert log[..n + 1] == log[..n] + [log[n]];
    LogPush(log[..n], log[n]);
    if Dropped(log, n + 1, log[n].event) {
      DroppedSince(log, n, n + 1, log[n].event);
    }
    Persists(log[..n + 1], log, log[n].event);
  }

  lemma MeasuredFrom(run: Run, log: Log, n: nat)
    requires RunFact(run) && run.log <= log && Legal(log) && |run.log| <= n
    requires n < |log| && log[n].Answered? && log[n].event == run.event && !Dropped(log[..n], |run.log|, run.event)
    ensures Text.SortedListOf(log[n].outputs, Changed(run.before, log[n].after))
  {
    GuardAt(log, n);
    assert run.log <= log[..n];
    Persists(run.log, log[..n], run.event);
  }
}
