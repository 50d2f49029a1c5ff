/**
 Runs from the initial state, step by step: the loop's states are reachable, a
 completed event does fall back to failed, and attempts do pass the maximum.
 */
module BridgeWitness {
  import opened Wrappers
  import opened BridgeRecords
  import opened BridgeLog
  import opened BridgeProtocol
  import opened MatrixChannel
  import Text

  // ------------------------------------------------------------------- paths

  /** So many steps of a relation lead from one state to the other. */
  ghost predicate Path<T(!new)>(lead: (T, T) -> bool, s: T, t: T, n: nat)
    decreases n
  {
    if n == 0 then s == t else exists mid :: Path(lead, s, mid, n - 1) && lead(mid, t)
  }

  lemma {:induction false} Join<T(!new)>(lead: (T, T) -> bool, s: T, t: T, u: T, n: nat, m: nat)
    requires Path(lead, s, t, n) && Path(lead, t, u, m)
    ensures Path(lead, s, u, n + m)
    decreases m
  {
    if m > 0 {
      var mid :| Path(lead, t, mid, m - 1) && lead(mid, u);
      Join(lead, s, t, mid, n, m - 1);
    }
  }

  ghost function Leading(maxAttempts: int): (State, State) -> bool {
    (s, t) => exists a :: Step(maxAttempts, s, a, t)
  }

  ghost predicate Reaches(maxAttempts: int, s: State, t: State) {
    exists n: nat :: Path(Leading(maxAttempts), s, t, n)
  }

  lemma Here(maxAttempts: int, s: State)
    ensures Reaches(maxAttempts, s, s)
  {
    assert Path(Leading(maxAttempts), s, s, 0);
  }

  lemma OneStep(maxAttempts: int, s: State, a: Action, t: State)
    requires Step(maxAttempts, s, a, t)
    ensures Reaches(maxAttempts, s, t)
  {
    assert Leading(maxAttempts)(s, t) && Path(Leading(maxAttempts), s, s, 0);
    assert Path(Leading(maxAttempts), s, t, 1);
  }

  lemma Onward(maxAttempts: int, s: State, t: State, u: State)
    requires Reaches(maxAttempts, s, t) && Reaches(maxAttempts, t, u)
    ensures Reaches(maxAttempts, s, u)
  {
    var n: nat, m: nat :| Path(Leading(maxAttempts), s, t, n) && Path(Leading(maxAttempts), t, u, m);
    Join(Leading(maxAttempts), s, t, u, n, m);
  }

  /** The states along a path. */
  lemma {:induction false} StatesOf<T(!new)>(lead: (T, T) -> bool, s: T, t: T, n: nat) returns (states: seq<T>)
    requires Path(lead, s, t, n)
    ensures |states| == n + 1 && states[0] == s && states[n] == t
    ensures forall k :: 0 <= k < n ==> lead(states[k], states[k + 1])
    decreases n
  {
    if n == 0 {
      states := [s];
    } else {
      var mid :| Path(lead, s, mid, n - 1) && lead(mid, t);
      var before := StatesOf(lead, s, mid, n - 1);
      states := before + [t];
    }
  }

  /** A path from the initial state is a run. */
  lemma PathIsRun(maxAttempts: int, s: State, t: State) returns (states: seq<State>, actions: seq<Action>)
    requires Init(s) && Reaches(maxAttempts, s, t)
    ensures Behavior(maxAttempts, states, actions) && states[0] == s && states[|actions|] == t
  {
    var n: nat :| Path(Leading(maxAttempts), s, t, n);
    var along := StatesOf(Leading(maxAttempts), s, t, n);
    states, actions := RunAlong(maxAttempts, along, n);
  }

  lemma {:induction false} RunAlong(maxAttempts: int, along: seq<State>, k: nat)
    returns (states: seq<State>, actions: seq<Action>)
    requires k < |along| && Init(along[0])
    requires forall i :: 0 <= i < |along| - 1 ==> Leading(maxAttempts)(along[i], along[i + 1])
    ensures Behavior(maxAttempts, states, actions) && states[0] == along[0] && states[|actions|] == along[k]
    decreases k
  {
    if k == 0 {
      states, actions := [along[0]], [];
    } else {
      states, actions := RunAlong(maxAttempts, along, k - 1);
      var t := along[k];
      assert Leading(maxAttempts)(along[k - 1], along[k - 1 + 1]);
      states, actions := OneMore(maxAttempts, states, actions, t);
    }
  }

  lemma OneMore(maxAttempts: int, states: seq<State>, actions: seq<Action>, t: State)
    returns (longer: seq<State>, taken: seq<Action>)
    requires Behavior(maxAttempts, states, actions) && Leading(maxAttempts)(states[|actions|], t)
    ensures Behavior(maxAttempts, longer, taken) && longer[0] == states[0] && longer[|taken|] == t
  {
    var a :| Step(maxAttempts, states[|actions|], a, t);
    longer, taken := Longer(maxAttempts, states, actions, a, t);
  }

  lemma Longer(maxAttempts: int, states: seq<State>, actions: seq<Action>, a: Action, t: State)
    returns (longer: seq<State>, taken: seq<Action>)
    requires Behavior(maxAttempts, states, actions) && Step(maxAttempts, states[|actions|], a, t)
    ensures Behavior(maxAttempts, longer, taken) && |taken| == |actions| + 1 && longer[0] == states[0]
    ensures longer == states + [t]
    ensures longer[|taken| - 1] == states[|actions|] && longer[|taken|] == t
  {
    longer, taken := states + [t], actions + [a];
    forall k | 0 <= k < |taken|
      ensures StepAt(maxAttempts, longer, taken, k)
    {
      assert k < |actions| ==> StepAt(maxAttempts, states, actions, k);
    }
  }

  // ------------------------------------------------------- before the first push

  /** The start-up that adopts the server's present position, up to the push. */
  lemma AdoptsPresent(maxAttempts: int, states: seq<State>, actions: seq<Action>)
    returns (longer: seq<State>, taken: seq<Action>)
    requires Behavior(maxAttempts, states, actions)
    requires states[|actions|].pc == Down && states[|actions|].disk == FRESH
    ensures Behavior(maxAttempts, longer, taken) && longer[0] == states[0] && states <= longer
    ensures var s, t := states[|actions|], longer[|taken|];
            && t.pc == Pushing(OfBoot) && t.mem == Write(FRESH, Adopt(|s.timeline|)) && t.disk == t.mem
            && t.remote == s.remote && t.timeline == s.timeline
  {
    var s := states[|actions|];
    var booting := s.(pc := Booting, mem := FRESH);
    var saving := booting.(pc := Saving(OfBoot), mem := Write(FRESH, Adopt(|s.timeline|)));
    longer, taken := Longer(maxAttempts, states, actions, Load, booting);
    longer, taken := Longer(maxAttempts, longer, taken, FirstSync(|s.timeline|), saving);
    longer, taken := Longer(maxAttempts, longer, taken, Save(true), saving.(pc := Pushing(OfBoot), disk := saving.mem));
  }

  /**
   Before the first push the start can move. If that push fails and the container
   then starts over, the position is adopted anew: an entry posted in between lies
   behind the position saved first, and before the start of every copy.
   */
  lemma AdoptedStartMoves(maxAttempts: int, s: State, posted: Posted)
    returns (states: seq<State>, actions: seq<Action>, i: nat)
    requires Init(s) && DistinctStream(s.timeline + [posted])
    ensures Behavior(maxAttempts, states, actions) && states[0] == s && i < |states|
    ensures states[i].disk.cursor == Some(|s.timeline|)
    ensures var t := states[|actions|];
            && t.pc == Idle && t.timeline == s.timeline + [posted] && Agreed(t)
            && Start(t.mem.log) == |s.timeline| + 1
  {
    states, actions := AdoptsPresent(maxAttempts, [s], []);
    i := |actions|;
    var failed := states[i].(pc := Down);
    var later := failed.(timeline := s.timeline + [posted]);
    states, actions := Longer(maxAttempts, states, actions, Push(false, false), failed);
    states, actions := Longer(maxAttempts, states, actions, Arrive(posted), later);
    states, actions := Longer(maxAttempts, states, actions, Crash(true), later.(disk := later.remote));
    var sofar := states;
    states, actions := StartsAgain(maxAttempts, states, actions);
    assert states[i] == sofar[i];
  }

  lemma StartsAgain(maxAttempts: int, states: seq<State>, actions: seq<Action>)
    returns (longer: seq<State>, taken: seq<Action>)
    requires Behavior(maxAttempts, states, actions)
    requires states[|actions|].pc == Down && states[|actions|].disk == FRESH
    ensures Behavior(maxAttempts, longer, taken) && longer[0] == states[0] && states <= longer
    ensures var s, t := states[|actions|], longer[|taken|];
            && t.pc == Idle && t.timeline == s.timeline && Agreed(t) && t.mem == Write(FRESH, Adopt(|s.timeline|))
  {
    longer, taken := AdoptsPresent(maxAttempts, states, actions);
    var pushing := longer[|taken|];
    longer, taken := Longer(maxAttempts, longer, taken, Push(true, true),
                            pushing.(pc := Idle, remote := pushing.disk));
  }

  // ------------------------------------------------------- pieces of a run

  /** The surroundings are what they were. */
  predicate Around(s: State, t: State) {
    t.cfg == s.cfg && t.timeline == s.timeline && t.outbox == s.outbox
  }

  /** All copies agree. */
  predicate Agreed(s: State) {
    s.disk == s.mem && s.remote == s.mem
  }

  /** At the given point of handling the only event of a batch, with all copies agreed. */
  predicate At(s: State, pc: PC, event: Event) {
    s.pc == pc && s.batch == [event] && s.index == 0 && Agreed(s)
  }

  /** Saving and pushing without a fault. */
  lemma Recorded(maxAttempts: int, s: State, purpose: Purpose) returns (t: State)
    requires s.pc == Saving(purpose) && purpose != OfComplete && purpose != OfNotice
    ensures Reaches(maxAttempts, s, t)
    ensures t == AfterPush(s.(disk := s.mem, remote := s.mem), purpose)
  {
    var saved := s.(pc := Pushing(purpose), disk := s.mem);
    OneStep(maxAttempts, s, Save(true), saved);
    t := AfterPush(s.(disk := s.mem, remote := s.mem), purpose);
    assert t == AfterPush(saved.(remote := saved.disk), purpose);
    OneStep(maxAttempts, saved, Push(true, true), t);
    Onward(maxAttempts, s, saved, t);
  }

  /** A step that records something, saved and pushed. */
  lemma Records(maxAttempts: int, s: State, a: Action, mid: State, purpose: Purpose) returns (t: State)
    requires Step(maxAttempts, s, a, mid) && mid.pc == Saving(purpose) && purpose != OfComplete && purpose != OfNotice
    ensures Reaches(maxAttempts, s, t) && t == AfterPush(mid.(disk := mid.mem, remote := mid.mem), purpose)
  {
    OneStep(maxAttempts, s, a, mid);
    t := Recorded(maxAttempts, mid, purpose);
    Onward(maxAttempts, s, mid, t);
  }

  // ------------------------------------------------------------- starting up

  /** Waiting for the next batch, which is one event that may have failed n times. */
  ghost predicate Waiting(s: State, event: Event, upto: nat, n: nat) {
    && s.pc == Idle && Agreed(s) && s.mem.cursor.Some? && upto != s.mem.cursor.value
    && IsBatch(s.cfg, s.timeline, s.mem.cursor.value, upto, [event])
    && (n == 0 ==> event.eventId !in s.mem.records)
    && (n > 0 ==> && event.eventId in s.mem.records
                  && s.mem.records[event.eventId].status == Failed && s.mem.records[event.eventId].attempts == n)
  }

  lemma StartsUp(maxAttempts: int, s: State) returns (t: State)
    requires Init(s)
    ensures Reaches(maxAttempts, s, t) && Around(s, t)
    ensures t.pc == Idle && Agreed(t) && t.mem.cursor == Some(|s.timeline|) && t.mem.records == map[]
    ensures t.delivered == map[]
  {
    var booting := s.(pc := Booting, mem := s.disk);
    OneStep(maxAttempts, s, Load, booting);
    var op := Adopt(|s.timeline|);
    t := Records(maxAttempts, booting, FirstSync(|s.timeline|),
                 booting.(pc := Saving(OfBoot), mem := Write(booting.mem, op)), OfBoot);
    Onward(maxAttempts, s, booting, t);
  }

  /** From every initial state, any actionable entry that arrives makes the loop wait with a batch of it. */
  lemma WaitingIsReachable(maxAttempts: int, s: State, posted: Posted, event: Event) returns (t: State)
    requires Init(s) && Yields(s.cfg, posted, event) && DistinctStream(s.timeline + [posted])
    ensures Reaches(maxAttempts, s, t) && Waiting(t, event, |s.timeline| + 1, 0)
    ensures t.delivered == map[] && t.mem.records == map[]
  {
    var idle := StartsUp(maxAttempts, s);
    t := idle.(timeline := idle.timeline + [posted]);
    OneStep(maxAttempts, idle, Arrive(posted), t);
    Onward(maxAttempts, s, idle, t);
    OneEventBatch(s.cfg, s.timeline, posted, event);
  }

  lemma OneEventBatch(cfg: Config, timeline: seq<Posted>, posted: Posted, event: Event)
    requires Yields(cfg, posted, event)
    ensures IsBatch(cfg, timeline + [posted], |timeline|, |timeline| + 1, [event])
  {
    var longer := timeline + [posted];
    assert longer[|timeline|] == posted;
    forall other
      ensures other in [event] <==> ActionableIn(cfg, longer, |timeline|, |timeline| + 1, other)
    {
      assert other == event ==> Yields(cfg, longer[|timeline|], other);
    }
  }

  /** Fetching the event and beginning it: its attempt number is one more than the failures. */
  lemma Begins(maxAttempts: int, s: State, event: Event, upto: nat, n: nat) returns (looping: State, t: State)
    requires Waiting(s, event, upto, n)
    ensures Reaches(maxAttempts, s, looping) && Step(maxAttempts, looping, BeginCurrent(0), t)
    ensures t == s.(pc := Saving(OfBegin), batch := [event], index := 0, upto := upto, announced := true,
                    begun := |s.mem.log|, mem := Write(s.mem, Begin(event.eventId, event.roomId, 0)))
    ensures t.mem.records[event.eventId].attempts == n + 1
  {
    looping := s.(pc := Looping, batch := [event], index := 0, upto := upto, announced := true);
    OneStep(maxAttempts, s, Fetch(upto, true, [event]), looping);
    t := looping.(pc := Saving(OfBegin), begun := |s.mem.log|,
                  mem := Write(s.mem, Begin(event.eventId, event.roomId, 0)));
  }

  lemma Tries(maxAttempts: int, s: State, event: Event, upto: nat, n: nat) returns (t: State)
    requires Waiting(s, event, upto, n)
    ensures Reaches(maxAttempts, s, t) && Around(s, t) && At(t, Trying, event)
    ensures t.mem == Write(s.mem, Begin(event.eventId, event.roomId, 0)) && t.delivered == s.delivered
    ensures t.mem.records[event.eventId].attempts == n + 1
  {
    var looping, begun := Begins(maxAttempts, s, event, upto, n);
    t := Records(maxAttempts, looping, BeginCurrent(0), begun, OfBegin);
    Onward(maxAttempts, s, looping, t);
  }

  // ----------------------------------------------------- attempts without end

  /** One more failed attempt, ending in a retry or in a notice that is not acknowledged. */
  lemma FailsOnce(maxAttempts: int, s: State, event: Event, upto: nat, n: nat) returns (t: State)
    requires Waiting(s, event, upto, n)
    ensures Reaches(maxAttempts, s, t) && Waiting(t, event, upto, n + 1)
  {
    var trying := Tries(maxAttempts, s, event, upto, n);
    var deciding := Fails(maxAttempts, trying, event);
    t := GivesUp(maxAttempts, deciding, event);
    Onward(maxAttempts, s, trying, deciding);
    Onward(maxAttempts, s, deciding, t);
    WaitsAgain(s, t, event, upto, n);
  }

  lemma Fails(maxAttempts: int, s: State, event: Event) returns (t: State)
    requires At(s, Trying, event)
    ensures Reaches(maxAttempts, s, t) && Around(s, t) && At(t, Deciding, event)
    ensures t.mem == Write(s.mem, Fail(event.eventId, "error", 0))
  {
    var raised := s.(pc := Raised);
    OneStep(maxAttempts, s, RaiseError, raised);
    t := FailureRecorded(maxAttempts, raised, event);
    Onward(maxAttempts, s, raised, t);
  }

  lemma FailureRecorded(maxAttempts: int, s: State, event: Event) returns (t: State)
    requires At(s, Raised, event)
    ensures Reaches(maxAttempts, s, t) && Around(s, t) && At(t, Deciding, event)
    ensures t.mem == Write(s.mem, Fail(event.eventId, "error", 0))
  {
    var failed := s.(pc := Saving(OfFailure), mem := Write(s.mem, Fail(event.eventId, "error", 0)));
    t := Records(maxAttempts, s, RecordFailure("error", 0), failed, OfFailure);
  }

  lemma WaitsAgain(s: State, t: State, event: Event, upto: nat, n: nat)
    requires Waiting(s, event, upto, n) && Around(s, t) && t.pc == Idle && Agreed(t)
    requires t.mem == Write(Write(s.mem, Begin(event.eventId, event.roomId, 0)), Fail(event.eventId, "error", 0))
    ensures Waiting(t, event, upto, n + 1)
  {
  }

  lemma GivesUp(maxAttempts: int, s: State, event: Event) returns (t: State)
    requires At(s, Deciding, event)
    ensures Reaches(maxAttempts, s, t) && Around(s, t) && t.pc == Idle && t.mem == s.mem && Agreed(t)
  {
    if ShouldRetry(s.mem.records, event.eventId, maxAttempts) {
      t := s.(pc := Idle,
              retries := s.retries + [RetryOf(s)]);
      OneStep(maxAttempts, s, RetryLater, t);
    } else {
      t := Notified(s, "failed", false).(pc := Idle);
      OneStep(maxAttempts, s, SendNotice("failed", false), t);
    }
  }

  lemma {:induction false} FailsOften(maxAttempts: int, s: State, event: Event, upto: nat, n: nat) returns (t: State)
    requires Waiting(s, event, upto, 0)
    ensures Reaches(maxAttempts, s, t) && Waiting(t, event, upto, n)
  {
    if n == 0 {
      t := s;
      Here(maxAttempts, s);
    } else {
      var before := FailsOften(maxAttempts, s, event, upto, n - 1);
      t := FailsOnce(maxAttempts, before, event, upto, n - 1);
      Onward(maxAttempts, s, before, t);
    }
  }

  /**
   The attempt number has no bound: from every initial state, whatever the
   maximum, an actionable entry can be begun with any attempt number, if its
   failure notices are not acknowledged.
   */
  lemma AttemptsPassMaximum(maxAttempts: int, s: State, posted: Posted, event: Event, n: nat)
    returns (states: seq<State>, actions: seq<Action>)
    requires Init(s) && Yields(s.cfg, posted, event) && DistinctStream(s.timeline + [posted])
    ensures Behavior(maxAttempts, states, actions) && states[0] == s && actions != []
    ensures var last := states[|actions|];
            event.eventId in last.mem.records && last.mem.records[event.eventId].attempts == n + 1
  {
    var waiting := WaitingIsReachable(maxAttempts, s, posted, event);
    var failed := FailsOften(maxAttempts, waiting, event, |s.timeline| + 1, n);
    var looping, begun := Begins(maxAttempts, failed, event, |s.timeline| + 1, n);
    Onward(maxAttempts, s, waiting, failed);
    Onward(maxAttempts, s, failed, looping);
    states, actions := PathIsRun(maxAttempts, s, looping);
    states, actions := Longer(maxAttempts, states, actions, BeginCurrent(0), begun);
  }

  // ------------------------------------------------- a completion taken back

  lemma Baselines(maxAttempts: int, s: State, event: Event) returns (t: State)
    requires At(s, Trying, event)
    requires AnswerFor(s.mem.records, event.eventId) == None && OutboxBeforeFor(s.mem.records, event.eventId) == None
    ensures Reaches(maxAttempts, s, t) && Around(s, t) && At(t, Running, event)
    ensures t.mem == Write(s.mem, Baseline(event.eventId, s.outbox, 0))
  {
    var based := s.(pc := Saving(OfBaseline), mem := Write(s.mem, Baseline(event.eventId, s.outbox, 0)));
    t := Records(maxAttempts, s, TakeBaseline(0), based, OfBaseline);
  }

  /** An agent that leaves the outbox as it was. */
  lemma Runs(maxAttempts: int, s: State, event: Event) returns (t: State)
    requires At(s, Running, event) && OutboxBeforeFor(s.mem.records, event.eventId) == Some(s.outbox)
    ensures Reaches(maxAttempts, s, t) && Around(s, t) && At(t, Ran, event) && t.mem == s.mem
  {
    var record := s.mem.records[event.eventId];
    t := s.(pc := Ran, runs := s.runs + [Run(event.eventId, record.attempts, s.outbox, s.mem.log)]);
    OneStep(maxAttempts, s, RunAgent(s.outbox, true), t);
  }

  lemma Answers(maxAttempts: int, s: State, event: Event) returns (t: State)
    requires At(s, Ran, event) && OutboxBeforeFor(s.mem.records, event.eventId) == Some(s.outbox)
    ensures Reaches(maxAttempts, s, t) && Around(s, t) && At(t, Delivering, event)
    ensures t.mem == Write(s.mem, Answered(event.eventId, "answer", [], s.outbox, 0))
  {
    assert Changed(s.outbox, s.outbox) == {};
    var recorded := s.(pc := Saving(OfAnswer),
                       mem := Write(s.mem, Answered(event.eventId, "answer", [], s.outbox, 0)));
    t := Records(maxAttempts, s, RecordAnswer("answer", [], 0), recorded, OfAnswer);
  }

  lemma Completes(maxAttempts: int, s: State, event: Event) returns (t: State)
    requires At(s, Delivering, event) && AnswerFor(s.mem.records, event.eventId) == Some(Answer("answer", []))
    requires CompletedIds(s.mem.records) == {}
    ensures Reaches(maxAttempts, s, t) && t.pc == Saving(OfComplete) && t.batch == [event] && t.index == 0
    ensures t.mem == Write(s.mem, Complete(event.eventId, "", 0, {}))
  {
    var send := Send(event.roomId, ReplyKey(event.eventId), "answer", s.mem.log);
    var sent := s.(pc := SendingFiles(0), sends := s.sends + [send],
                   delivered := Deliver(s.delivered, event.roomId, ReplyKey(event.eventId), "answer"));
    OneStep(maxAttempts, s, SendReply(true, true), sent);
    NothingToPrune(s.mem.records, event.eventId);
    t := sent.(pc := Saving(OfComplete), mem := Write(s.mem, Complete(event.eventId, "", 0, {})));
    OneStep(maxAttempts, sent, CompleteCurrent("", 0, {}), t);
    Onward(maxAttempts, s, sent, t);
  }

  lemma NothingToPrune(records: Records, event: EventId)
    requires CompletedIds(records) == {}
    ensures PruneChoice(MarkComplete(records, event, "", 0), {})
  {
    assert CompletedIds(MarkComplete(records, event, "", 0)) == {event};
  }

  /** The push of a completion fails, and the failure is recorded over it. */
  lemma Regresses(maxAttempts: int, s: State, event: Event) returns (raised: State, t: State)
    requires s.pc == Saving(OfComplete) && s.batch == [event] && s.index == 0
    ensures Reaches(maxAttempts, s, raised) && Step(maxAttempts, raised, RecordFailure("error", 0), t)
    ensures raised.mem == s.mem && raised.batch == s.batch && raised.index == s.index
    ensures t.mem == Write(s.mem, Fail(event.eventId, "error", 0))
  {
    var saved := s.(pc := Pushing(OfComplete), disk := s.mem);
    OneStep(maxAttempts, s, Save(true), saved);
    raised := saved.(pc := Raised);
    OneStep(maxAttempts, saved, Push(false, false), raised);
    Onward(maxAttempts, s, saved, raised);
    t := raised.(pc := Saving(OfFailure), mem := Write(raised.mem, Fail(event.eventId, "error", 0)));
  }

  lemma AnsweredRecord(records: Records, event: Event, outbox: Snapshot)
    requires records == map[]
    ensures var begun := Apply(records, Begin(event.eventId, event.roomId, 0));
            var based := Apply(begun, Baseline(event.eventId, outbox, 0));
            var answered := Apply(based, Answered(event.eventId, "answer", [], outbox, 0));
            && AnswerFor(begun, event.eventId) == None && OutboxBeforeFor(begun, event.eventId) == None
            && OutboxBeforeFor(based, event.eventId) == Some(outbox)
            && AnswerFor(answered, event.eventId) == Some(Answer("answer", [])) && CompletedIds(answered) == {}
  {
  }

  /**
   A completed event does fall back: from every initial state an actionable entry
   can be answered and completed, and then the completion's push fails.
   */
  lemma CompletedRegresses(maxAttempts: int, s: State, posted: Posted, event: Event)
    returns (states: seq<State>, actions: seq<Action>)
    requires Init(s) && Yields(s.cfg, posted, event) && DistinctStream(s.timeline + [posted])
    ensures Behavior(maxAttempts, states, actions) && states[0] == s && |actions| > 0
    ensures IsCompleted(states[|actions| - 1].mem.records, event.eventId)
    ensures event.eventId in states[|actions|].mem.records
    ensures states[|actions|].mem.records[event.eventId].status == Failed
  {
    var completed := ReachesCompletion(maxAttempts, s, posted, event);
    var raised, failed := Regresses(maxAttempts, completed, event);
    Onward(maxAttempts, s, completed, raised);
    states, actions := PathIsRun(maxAttempts, s, raised);
    states, actions := Longer(maxAttempts, states, actions, RecordFailure("error", 0), failed);
  }

  lemma ReachesCompletion(maxAttempts: int, s: State, posted: Posted, event: Event) returns (t: State)
    requires Init(s) && Yields(s.cfg, posted, event) && DistinctStream(s.timeline + [posted])
    ensures Reaches(maxAttempts, s, t) && t.pc == Saving(OfComplete) && t.batch == [event] && t.index == 0
    ensures IsCompleted(t.mem.records, event.eventId)
  {
    var waiting := WaitingIsReachable(maxAttempts, s, posted, event);
    var trying := Tries(maxAttempts, waiting, event, |s.timeline| + 1, 0);
    AnsweredRecord(waiting.mem.records, event, trying.outbox);
    t := AnswersAndCompletes(maxAttempts, trying, event);
    Onward(maxAttempts, s, waiting, trying);
    Onward(maxAttempts, s, trying, t);
  }

  lemma AnswersAndCompletes(maxAttempts: int, s: State, event: Event) returns (t: State)
    requires At(s, Trying, event)
    requires AnswerFor(s.mem.records, event.eventId) == None && OutboxBeforeFor(s.mem.records, event.eventId) == None
    requires var based := Apply(s.mem.records, Baseline(event.eventId, s.outbox, 0));
             var answered := Apply(based, Answered(event.eventId, "answer", [], s.outbox, 0));
             && OutboxBeforeFor(based, event.eventId) == Some(s.outbox)
             && AnswerFor(answered, event.eventId) == Some(Answer("answer", [])) && CompletedIds(answered) == {}
    ensures Reaches(maxAttempts, s, t) && t.pc == Saving(OfComplete) && t.batch == [event] && t.index == 0
    ensures IsCompleted(t.mem.records, event.eventId)
  {
    var delivering := RunsAndAnswers(maxAttempts, s, event);
    t := Completes(maxAttempts, delivering, event);
    Onward(maxAttempts, s, delivering, t);
  }

  lemma RunsAndAnswers(maxAttempts: int, s: State, event: Event) returns (t: State)
    requires At(s, Trying, event)
    requires AnswerFor(s.mem.records, event.eventId) == None && OutboxBeforeFor(s.mem.records, event.eventId) == None
    requires OutboxBeforeFor(Apply(s.mem.records, Baseline(event.eventId, s.outbox, 0)), event.eventId)
         == Some(s.outbox)
    ensures Reaches(maxAttempts, s, t) && At(t, Delivering, event)
    ensures t.mem == Write(Write(s.mem, Baseline(event.eventId, s.outbox, 0)),
                           Answered(event.eventId, "answer", [], s.outbox, 0))
  {
    var running := Baselines(maxAttempts, s, event);
    var ran := Runs(maxAttempts, running, event);
    t := Answers(maxAttempts, ran, event);
    Onward(maxAttempts, s, running, ran);
    Onward(maxAttempts, s, ran, t);
  }
}
