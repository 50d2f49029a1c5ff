/**
 Writers appending to one day's object by stat, get and conditional put. Each
 process has one append in flight (its mutex), any number of processes interleave
 per storage operation, and every operation can fail.
 */
module AuditWriter {
  import opened Wrappers
  import AuditLog

  /** ETag of a content; taken as injective and never empty, as for MD5 of single-part objects. */
  type ETags = string -> string

  ghost predicate GoodETags(etags: ETags) {
    && (forall c :: etags(c) != "")
    && (forall a, b :: etags(a) == etags(b) ==> a == b)
  }

  /** Retry delays; the index is the attempt number minus one. */
  const BACKOFFS: seq<nat> := [100, 200, 400]

  /** Where a writer stands; `attempt` counts from 0. */
  datatype Phase =
    | Idle
    | Stat(attempt: nat)
    | Get(attempt: nat, etag: string)
    | Put(attempt: nat, etag: string, existing: string)

  datatype Writer = Writer(phase: Phase, ticket: nat, line: string)

  datatype Commit = Commit(ticket: nat, line: string)

  /** The shared object, the processes, and the writes that took effect; tickets number the Record calls. */
  datatype State = State(object_: Option<string>, writers: seq<Writer>, commits: seq<Commit>, nextTicket: nat)

  datatype Action =
    | Start(w: nat, line: string)
    | DoStat(w: nat, ok: bool)
    | DoGet(w: nat, ok: bool)
    | DoPut(w: nat, applied: bool, ok: bool)
    | Cancel(w: nat)
    | Delete

  function SetWriter(s: State, w: nat, writer: Writer): State
    requires w < |s.writers|
  {
    s.(writers := s.writers[w := writer])
  }

  function Moved(s: State, w: nat, phase: Phase): State
    requires w < |s.writers|
  {
    SetWriter(s, w, s.writers[w].(phase := phase))
  }

  function NewContent(writer: Writer): string
    requires writer.phase.Put?
  {
    AuditLog.Appended(writer.phase.existing, writer.line)
  }

  /** The put took effect: the object is the new content. */
  function Applied(s: State, w: nat): State
    requires w < |s.writers| && s.writers[w].phase.Put?
  {
    s.(object_ := Some(NewContent(s.writers[w])),
       commits := s.commits + [Commit(s.writers[w].ticket, s.writers[w].line)])
  }

  /** The etag precondition of a conditional put; a plain put has none. */
  predicate Precondition(etags: ETags, s: State, phase: Phase)
    requires phase.Put?
  {
    phase.etag == "" || (s.object_.Some? && etags(s.object_.value) == phase.etag)
  }

  ghost predicate Step(etags: ETags, s: State, a: Action, s': State) {
    match a
    case Start(w, line) =>
      w < |s.writers| && s.writers[w].phase == Idle
      && s' == SetWriter(s, w, Writer(Stat(0), s.nextTicket, line)).(nextTicket := s.nextTicket + 1)
    case DoStat(w, ok) =>
      w < |s.writers| && s.writers[w].phase.Stat? &&
      (var attempt := s.writers[w].phase.attempt;
       s' == if !ok then Moved(s, w, Idle)
             else if s.object_.Some? then Moved(s, w, Get(attempt, etags(s.object_.value)))
             else Moved(s, w, Put(attempt, "", "")))
    case DoGet(w, ok) =>
      w < |s.writers| && s.writers[w].phase.Get? &&
      (var phase := s.writers[w].phase;
       s' == if !ok then Moved(s, w, Idle)
             else if s.object_.Some? then Moved(s, w, Put(phase.attempt, phase.etag, s.object_.value))
             else Moved(s, w, Put(phase.attempt, "", "")))
    case DoPut(w, applied, ok) =>
      w < |s.writers| && s.writers[w].phase.Put? &&
      (var phase := s.writers[w].phase;
       if Precondition(etags, s, phase) then
         // the write may take effect and still be reported as failed
         (ok ==> applied) && s' == Moved(if applied then Applied(s, w) else s, w, Idle)
       else
         // refused; only a reported conflict is retried, another error ends the append
         !applied && !ok &&
         (s' == Moved(s, w, Idle) || (phase.attempt < |BACKOFFS| && s' == Moved(s, w, Stat(phase.attempt + 1)))))
    case Cancel(w) =>
      w < |s.writers| && s.writers[w].phase.Stat? && s.writers[w].phase.attempt > 0 && s' == Moved(s, w, Idle)
    case Delete =>
      s.object_.Some? && s' == s.(object_ := None)
  }

  /** Part of a run, from any moment on, in which the object is not deleted. */
  ghost predicate Run(etags: ETags, states: seq<State>, actions: seq<Action>) {
    && |states| == |actions| + 1
    && forall k :: 0 <= k < |actions| ==> actions[k] != Delete && StepAt(etags, states, actions, k)
  }

  /** A run from the beginning: nobody has read or written yet, and the object may or may not exist. */
  ghost predicate FromStart(etags: ETags, states: seq<State>, actions: seq<Action>) {
    && Run(etags, states, actions)
    && (forall w :: 0 <= w < |states[0].writers| ==> states[0].writers[w].phase == Idle)
    && states[0].commits == [] && states[0].nextTicket == 0
  }

  ghost predicate StepAt(etags: ETags, states: seq<State>, actions: seq<Action>, k: nat)
    requires k < |actions| && |states| == |actions| + 1
  {
    Step(etags, states[k], actions[k], states[k + 1])
  }

  /** The content the commits amount to. */
  function WithCommits(content: string, commits: seq<Commit>): string {
    if commits == [] then content
    else AuditLog.Appended(WithCommits(content, commits[..|commits| - 1]), commits[|commits| - 1].line)
  }

  function ContentOf(s: State): string {
    if s.object_.Some? then s.object_.value else ""
  }

  // ---------------------------------------------------- what every step keeps

  /** Tickets are used once, and a writer in flight has not committed its own. */
  ghost predicate TicketsGood(s: State) {
    && (forall k :: 0 <= k < |s.commits| ==> s.commits[k].ticket < s.nextTicket)
    && (forall j, k :: 0 <= j < k < |s.commits| ==> s.commits[j].ticket != s.commits[k].ticket)
    && (forall w :: 0 <= w < |s.writers| && s.writers[w].phase != Idle ==> s.writers[w].ticket < s.nextTicket)
    && (forall w, k :: 0 <= w < |s.writers| && s.writers[w].phase != Idle && 0 <= k < |s.commits| ==>
                         s.writers[w].ticket != s.commits[k].ticket)
    && (forall v, w :: 0 <= v < w < |s.writers| && s.writers[v].phase != Idle && s.writers[w].phase != Idle ==>
                         s.writers[v].ticket != s.writers[w].ticket)
  }

  predicate AttemptInRange(phase: Phase) {
    phase == Idle || phase.attempt <= |BACKOFFS|
  }

  ghost predicate AttemptsGood(s: State) {
    forall w :: 0 <= w < |s.writers| ==> AttemptInRange(s.writers[w].phase)
  }

  /**
   Stat before get: the etag is of some earlier content, the body of one at least
   as late, and the object has only grown since.
   */
  ghost predicate ReadInOrder(etags: ETags, phase: Phase, content: string) {
    match phase
    case Idle => true
    case Stat(_) => true
    case Get(_, etag) => exists seen :: seen <= content && etags(seen) == etag
    case Put(_, etag, existing) => existing <= content && exists seen :: seen <= existing && etags(seen) == etag
  }

  ghost predicate Growing(etags: ETags, s: State) {
    s.object_.Some? && forall w :: 0 <= w < |s.writers| ==> ReadInOrder(etags, s.writers[w].phase, s.object_.value)
  }

  lemma StepKeepsTickets(etags: ETags, s: State, a: Action, s': State)
    requires TicketsGood(s) && Step(etags, s, a, s')
    ensures TicketsGood(s')
  {
    if a.DoPut? {
      PutKeepsTickets(etags, s, a, s');
    } else {
      ReadKeepsTickets(etags, s, a, s');
    }
  }

  lemma PutKeepsTickets(etags: ETags, s: State, a: Action, s': State)
    requires TicketsGood(s) && Step(etags, s, a, s') && a.DoPut?
    ensures TicketsGood(s')
  {
  }

  lemma ReadKeepsTickets(etags: ETags, s: State, a: Action, s': State)
    requires TicketsGood(s) && Step(etags, s, a, s') && !a.DoPut?
    ensures TicketsGood(s')
  {
  }

  lemma StepKeepsAttempts(etags: ETags, s: State, a: Action, s': State)
    requires AttemptsGood(s) && Step(etags, s, a, s')
    ensures AttemptsGood(s')
  {
  }

  lemma ReadStaysInOrder(etags: ETags, phase: Phase, content: string, longer: string)
    requires ReadInOrder(etags, phase, content) && content <= longer
    ensures ReadInOrder(etags, phase, longer)
  {
    if phase.Get? {
      var seen :| seen <= content && etags(seen) == phase.etag;
      assert seen <= longer;
    }
  }

  /** A conditional put that takes effect found the object exactly as it was read. */
  lemma PutSeesWhatItRead(etags: ETags, s: State, w: nat)
    requires GoodETags(etags) && Growing(etags, s) && w < |s.writers| && s.writers[w].phase.Put?
    requires Precondition(etags, s, s.writers[w].phase)
    ensures s.writers[w].phase.existing == s.object_.value
  {
    var phase := s.writers[w].phase;
    var seen :| seen <= phase.existing && etags(seen) == phase.etag;
    assert seen == s.object_.value;
  }

  lemma StepKeepsGrowing(etags: ETags, s: State, a: Action, s': State)
    requires GoodETags(etags) && Growing(etags, s) && Step(etags, s, a, s') && a != Delete
    ensures Growing(etags, s') && s.object_.value <= s'.object_.value
    ensures s'.commits == s.commits ==> s'.object_ == s.object_
    ensures s'.commits != s.commits ==>
              && a.DoPut? && a.w < |s.writers|
              && s'.commits == s.commits + [Commit(s.writers[a.w].ticket, s.writers[a.w].line)]
              && s'.object_.value == AuditLog.Appended(s.object_.value, s.writers[a.w].line)
  {
    if a.DoPut? && s.writers[a.w].phase.Put? && Precondition(etags, s, s.writers[a.w].phase) {
      PutSeesWhatItRead(etags, s, a.w);
    }
    var content, later := s.object_.value, s'.object_.value;
    assert content <= later;
    forall w | 0 <= w < |s'.writers| ensures ReadInOrder(etags, s'.writers[w].phase, later) {
      if s'.writers[w].phase == s.writers[w].phase {
        ReadStaysInOrder(etags, s.writers[w].phase, content, later);
      }
    }
  }

  // ------------------------------------------------------------ no lost line

  lemma {:induction false} TicketsAlways(etags: ETags, states: seq<State>, actions: seq<Action>, k: nat)
    requires FromStart(etags, states, actions) && k < |states|
    ensures TicketsGood(states[k]) && AttemptsGood(states[k])
  {
    if k > 0 {
      TicketsAlways(etags, states, actions, k - 1);
      assert StepAt(etags, states, actions, k - 1);
      StepKeepsTickets(etags, states[k - 1], actions[k - 1], states[k]);
      StepKeepsAttempts(etags, states[k - 1], actions[k - 1], states[k]);
    }
  }

  lemma CommitsPush(content: string, commits: seq<Commit>, commit: Commit)
    ensures WithCommits(content, commits + [commit]) == AuditLog.Appended(WithCommits(content, commits), commit.line)
  {
    assert (commits + [commit])[..|commits|] == commits;
  }

  /**
   No lost line: from any moment on at which the object exists and every pending
   read is of it, at every later moment of every interleaving the object is what
   it then was plus the lines of the puts that took effect since, in that order.
   */
  lemma {:induction false} NoLostLine(etags: ETags, states: seq<State>, actions: seq<Action>, i: nat, k: nat)
    requires GoodETags(etags) && Run(etags, states, actions) && i <= k < |states|
    requires Growing(etags, states[i])
    ensures Growing(etags, states[k]) && states[i].commits <= states[k].commits
    ensures states[k].object_
         == Some(WithCommits(states[i].object_.value, states[k].commits[|states[i].commits|..]))
  {
    if i < k {
      NoLostLine(etags, states, actions, i, k - 1);
      assert StepAt(etags, states, actions, k - 1);
      var s, s' := states[k - 1], states[k];
      StepKeepsGrowing(etags, s, actions[k - 1], s');
      if s'.commits != s.commits {
        var n, writer := |states[i].commits|, s.writers[actions[k - 1].w];
        var commit := Commit(writer.ticket, writer.line);
        CommitsPush(states[i].object_.value, s.commits[n..], commit);
        assert s'.commits[n..] == s.commits[n..] + [commit];
      }
    }
  }

  /** No Record call's line is committed twice. */
  lemma CommitsOnce(etags: ETags, states: seq<State>, actions: seq<Action>, k: nat, i: nat, j: nat)
    requires FromStart(etags, states, actions) && k < |states| && i < j < |states[k].commits|
    ensures states[k].commits[i].ticket != states[k].commits[j].ticket
  {
    TicketsAlways(etags, states, actions, k);
  }

  /** Step j started the append with this ticket, for this line. */
  ghost predicate RequestedAt(states: seq<State>, actions: seq<Action>, j: int, ticket: nat, line: string)
    requires |states| == |actions| + 1
  {
    0 <= j < |actions| && actions[j].Start? && actions[j].line == line && states[j].nextTicket == ticket
  }

  ghost predicate Requested(states: seq<State>, actions: seq<Action>, k: nat, ticket: nat, line: string)
    requires |states| == |actions| + 1
  {
    exists j :: j < k && RequestedAt(states, actions, j, ticket, line)
  }

  ghost predicate AllRequested(states: seq<State>, actions: seq<Action>, k: nat)
    requires k < |states| == |actions| + 1
  {
    && (forall w :: 0 <= w < |states[k].writers| && states[k].writers[w].phase != Idle ==>
          Requested(states, actions, k, states[k].writers[w].ticket, states[k].writers[w].line))
    && (forall i :: 0 <= i < |states[k].commits| ==>
          Requested(states, actions, k, states[k].commits[i].ticket, states[k].commits[i].line))
  }

  lemma RequestedLater(states: seq<State>, actions: seq<Action>, k: nat, ticket: nat, line: string)
    requires |states| == |actions| + 1 && Requested(states, actions, k, ticket, line)
    ensures Requested(states, actions, k + 1, ticket, line)
  {
    var j :| j < k && RequestedAt(states, actions, j, ticket, line);
    assert j < k + 1;
  }

  /** A writer in flight was in flight with the same line, or has just been started with it. */
  lemma WriterFrom(etags: ETags, s: State, a: Action, s': State, w: nat)
    requires Step(etags, s, a, s') && w < |s'.writers| && s'.writers[w].phase != Idle
    ensures w < |s.writers|
    ensures || (s.writers[w].phase != Idle && s'.writers[w].ticket == s.writers[w].ticket
                && s'.writers[w].line == s.writers[w].line)
            || (a == Start(w, s'.writers[w].line) && s'.writers[w].ticket == s.nextTicket)
  {
  }

  /** What a step commits is the line of a writer in flight; success is reported only of a commit. */
  lemma CommitFrom(etags: ETags, s: State, a: Action, s': State)
    requires Step(etags, s, a, s')
    ensures || s'.commits == s.commits
            || (a.DoPut? && a.w < |s.writers| && s.writers[a.w].phase != Idle
                && s'.commits == s.commits + [Commit(s.writers[a.w].ticket, s.writers[a.w].line)])
    ensures a.DoPut? && a.ok ==> s'.commits != s.commits
  {
    if a.DoPut? && a.ok {
      assert |s'.commits| == |s.commits| + 1;
    }
  }

  lemma {:induction false} RequestedAlways(etags: ETags, states: seq<State>, actions: seq<Action>, k: nat)
    requires FromStart(etags, states, actions) && k < |states|
    ensures AllRequested(states, actions, k)
  {
    if k > 0 {
      RequestedAlways(etags, states, actions, k - 1);
      RequestedStep(etags, states, actions, k - 1);
    }
  }

  lemma RequestedStep(etags: ETags, states: seq<State>, actions: seq<Action>, k: nat)
    requires FromStart(etags, states, actions) && k < |actions| && AllRequested(states, actions, k)
    ensures AllRequested(states, actions, k + 1)
  {
    var s, a, s' := states[k], actions[k], states[k + 1];
    assert StepAt(etags, states, actions, k);
    var later := k + 1;
    forall w | 0 <= w < |s'.writers| && s'.writers[w].phase != Idle
      ensures Requested(states, actions, later, s'.writers[w].ticket, s'.writers[w].line)
    {
      WriterFrom(etags, s, a, s', w);
      if a == Start(w, s'.writers[w].line) && s'.writers[w].ticket == s.nextTicket {
        assert RequestedAt(states, actions, k, s'.writers[w].ticket, s'.writers[w].line);
      } else {
        RequestedLater(states, actions, k, s'.writers[w].ticket, s'.writers[w].line);
      }
    }
    CommitFrom(etags, s, a, s');
    forall i | 0 <= i < |s'.commits|
      ensures Requested(states, actions, later, s'.commits[i].ticket, s'.commits[i].line)
    {
      RequestedLater(states, actions, k, s'.commits[i].ticket, s'.commits[i].line);
    }
  }

  /** Every committed line is the line of the Record call that the commit's ticket was given to. */
  lemma CommitsAreRequested(etags: ETags, states: seq<State>, actions: seq<Action>, k: nat, i: nat) returns (j: nat)
    requires FromStart(etags, states, actions) && k < |states| && i < |states[k].commits|
    ensures j < k && actions[j].Start? && states[j].nextTicket == states[k].commits[i].ticket
    ensures actions[j].line == states[k].commits[i].line
  {
    RequestedAlways(etags, states, actions, k);
    assert Requested(states, actions, k, states[k].commits[i].ticket, states[k].commits[i].line);
    var n :| n < k && RequestedAt(states, actions, n, states[k].commits[i].ticket, states[k].commits[i].line);
    j := n;
  }

  /** A put reported as done has committed the line its append was started with. */
  lemma AcknowledgedIsCommitted(etags: ETags, states: seq<State>, actions: seq<Action>, k: nat) returns (j: nat)
    requires FromStart(etags, states, actions) && k < |actions| && actions[k].DoPut? && actions[k].ok
    ensures j <= k && actions[j].Start?
    ensures states[k + 1].commits == states[k].commits + [Commit(states[j].nextTicket, actions[j].line)]
  {
    assert StepAt(etags, states, actions, k);
    CommitFrom(etags, states[k], actions[k], states[k + 1]);
    j := CommitsAreRequested(etags, states, actions, k + 1, |states[k].commits|);
  }

  /** The delay looked up before a retry exists, and no append makes more than four tries. */
  lemma BackoffInRange(etags: ETags, states: seq<State>, actions: seq<Action>, k: nat, w: nat)
    requires FromStart(etags, states, actions) && k < |states| && w < |states[k].writers|
    requires states[k].writers[w].phase != Idle
    ensures states[k].writers[w].phase.attempt + 1 <= 4
    ensures states[k].writers[w].phase.attempt > 0 ==> states[k].writers[w].phase.attempt - 1 < |BACKOFFS|
  {
    TicketsAlways(etags, states, actions, k);
    assert AttemptInRange(states[k].writers[w].phase);
  }

  // ----------------------------------------------- the first write of a day

  /** What the only writer read is still what the object is. */
  ghost predicate AloneInOrder(etags: ETags, s: State) {
    && |s.writers| == 1
    && match s.writers[0].phase
       case Idle => true
       case Stat(_) => true
       case Get(_, etag) => s.object_.Some? && etag == etags(s.object_.value)
       case Put(_, etag, existing) =>
         existing == ContentOf(s) && etag == if s.object_.Some? then etags(s.object_.value) else ""
  }

  /** A put without precondition takes effect on an object that has content by now. */
  predicate Overwrites(s: State, a: Action) {
    && a.DoPut? && a.applied && a.w < |s.writers| && s.writers[a.w].phase.Put?
    && s.writers[a.w].phase.etag == "" && ContentOf(s) != ""
  }

  predicate OverwritesAt(states: seq<State>, actions: seq<Action>, j: nat)
    requires j < |actions| && |states| == |actions| + 1
  {
    Overwrites(states[j], actions[j])
  }

  /** Reads are in order, but for the plain puts of writers that saw no object. */
  ghost predicate OrderedReads(etags: ETags, s: State) {
    forall w :: 0 <= w < |s.writers| ==> OrderedRead(etags, s.writers[w].phase, s.object_)
  }

  ghost predicate OrderedRead(etags: ETags, phase: Phase, object_: Option<string>) {
    || phase == Idle || phase.Stat?
    || (phase.Put? && phase.etag == "" && phase.existing == "")
    || (object_.Some? && ReadInOrder(etags, phase, object_.value))
  }

  /** Ordered reads of an existing object are all that NoLostLine asks for, once no plain put is pending. */
  lemma OrderedIsGrowing(etags: ETags, s: State)
    requires OrderedReads(etags, s) && s.object_.Some?
    requires forall w :: 0 <= w < |s.writers| && s.writers[w].phase.Put? ==> s.writers[w].phase.etag != ""
    ensures Growing(etags, s)
  {
    forall w | 0 <= w < |s.writers|
      ensures ReadInOrder(etags, s.writers[w].phase, s.object_.value)
    {
      assert OrderedRead(etags, s.writers[w].phase, s.object_);
    }
  }

  lemma ConditionalPutSees(etags: ETags, s: State, w: nat)
    requires GoodETags(etags) && OrderedReads(etags, s) && w < |s.writers| && s.writers[w].phase.Put?
    requires Precondition(etags, s, s.writers[w].phase)
    ensures s.writers[w].phase.etag != "" ==> s.object_ == Some(s.writers[w].phase.existing)
    ensures s.writers[w].phase.etag == "" ==> s.writers[w].phase.existing == ""
  {
    var phase := s.writers[w].phase;
    assert OrderedRead(etags, phase, s.object_);
    if phase.etag != "" {
      var seen :| seen <= phase.existing && etags(seen) == phase.etag;
      assert seen == s.object_.value;
      assert seen <= phase.existing <= s.object_.value;
      assert phase.existing == s.object_.value;
    }
  }

  /** A step that overwrites nothing appends its line or leaves the content alone. */
  lemma StepAppends(etags: ETags, s: State, a: Action, s': State)
    requires GoodETags(etags) && OrderedReads(etags, s) && Step(etags, s, a, s') && a != Delete && !Overwrites(s, a)
    ensures s.object_.Some? ==> s'.object_.Some?
    ensures ContentOf(s) <= ContentOf(s')
    ensures s'.commits == s.commits ==> s'.object_ == s.object_
    ensures s'.commits != s.commits ==>
              && a.DoPut? && a.w < |s.writers|
              && s'.commits == s.commits + [Commit(s.writers[a.w].ticket, s.writers[a.w].line)]
              && ContentOf(s') == AuditLog.Appended(ContentOf(s), s.writers[a.w].line)
  {
    if a.DoPut? && a.w < |s.writers| && s.writers[a.w].phase.Put? && Precondition(etags, s, s.writers[a.w].phase) {
      ConditionalPutSees(etags, s, a.w);
    }
  }

  lemma StepKeepsOrder(etags: ETags, s: State, a: Action, s': State)
    requires GoodETags(etags) && OrderedReads(etags, s) && Step(etags, s, a, s') && a != Delete && !Overwrites(s, a)
    ensures OrderedReads(etags, s')
  {
    StepAppends(etags, s, a, s');
    forall w | 0 <= w < |s'.writers|
      ensures OrderedRead(etags, s'.writers[w].phase, s'.object_)
    {
      assert OrderedRead(etags, s.writers[w].phase, s.object_);
      if s'.writers[w].phase == s.writers[w].phase {
        OrderStays(etags, s.writers[w].phase, s.object_, s'.object_);
      } else {
        NewReadInOrder(etags, s, a, s', w);
      }
    }
  }

  lemma OrderStays(etags: ETags, phase: Phase, before: Option<string>, after: Option<string>)
    requires OrderedRead(etags, phase, before)
    requires before.Some? ==> after.Some? && before.value <= after.value
    ensures OrderedRead(etags, phase, after)
  {
    if before.Some? && ReadInOrder(etags, phase, before.value) {
      ReadStaysInOrder(etags, phase, before.value, after.value);
    }
  }

  lemma NewReadInOrder(etags: ETags, s: State, a: Action, s': State, w: nat)
    requires GoodETags(etags) && Step(etags, s, a, s') && a != Delete
    requires w < |s.writers| && s'.writers[w].phase != s.writers[w].phase
    requires OrderedRead(etags, s.writers[w].phase, s.object_)
    ensures OrderedRead(etags, s'.writers[w].phase, s'.object_)
  {
    if s'.writers[w].phase.Get? {
      assert s.object_.value <= s'.object_.value && etags(s.object_.value) == s'.writers[w].phase.etag;
    }
  }

  lemma {:induction false} OrderedUntilOverwrite(etags: ETags, states: seq<State>, actions: seq<Action>, k: nat)
    requires GoodETags(etags) && FromStart(etags, states, actions) && k < |states|
    requires forall j :: 0 <= j < k ==> !OverwritesAt(states, actions, j)
    ensures OrderedReads(etags, states[k])
    ensures ContentOf(states[k]) == WithCommits(ContentOf(states[0]), states[k].commits)
  {
    if k > 0 {
      OrderedUntilOverwrite(etags, states, actions, k - 1);
      assert StepAt(etags, states, actions, k - 1) && !OverwritesAt(states, actions, k - 1);
      var s, a, s' := states[k - 1], actions[k - 1], states[k];
      StepAppends(etags, s, a, s');
      StepKeepsOrder(etags, s, a, s');
      if s'.commits != s.commits {
        CommitsPush(ContentOf(states[0]), s.commits, Commit(s.writers[a.w].ticket, s.writers[a.w].line));
      }
    }
  }

  // What was overwritten is missing for good: the object stays shorter than what was committed.

  /** The size of the object if no line was lost. */
  function Total(start: nat, commits: seq<Commit>): nat {
    if commits == [] then start
    else Total(start, commits[..|commits| - 1]) + |commits[|commits| - 1].line| + 1
  }

  lemma TotalPush(start: nat, commits: seq<Commit>, commit: Commit)
    ensures Total(start, commits + [commit]) == Total(start, commits) + |commit.line| + 1
  {
    assert (commits + [commit])[..|commits|] == commits;
  }

  lemma {:induction false} TotalIsSize(content: string, commits: seq<Commit>)
    ensures |WithCommits(content, commits)| == Total(|content|, commits)
  {
    if commits != [] {
      TotalIsSize(content, commits[..|commits| - 1]);
    }
  }

  /** The object and everything pending are of at most this size. */
  predicate Within(s: State, size: int) {
    |ContentOf(s)| <= size && forall w :: 0 <= w < |s.writers| ==> PendingWithin(s.writers[w].phase, size)
  }

  predicate PendingWithin(phase: Phase, size: int) {
    match phase
    case Get(_, etag) => etag != ""
    case Put(_, etag, existing) => |existing| <= size && (etag == "" ==> existing == "")
    case _ => true
  }

  lemma StepStaysWithin(etags: ETags, s: State, a: Action, s': State, size: int, start: nat)
    requires GoodETags(etags) && Step(etags, s, a, s') && a != Delete && Within(s, size) && 0 <= size
    requires size == Total(start, s.commits) || size == Total(start, s.commits) - 1
    ensures Within(s', size + Total(start, s'.commits) - Total(start, s.commits))
    ensures Overwrites(s, a) && size == Total(start, s.commits) ==> Within(s', Total(start, s'.commits) - 1)
  {
    if s'.commits != s.commits {
      var writer := s.writers[a.w];
      TotalPush(start, s.commits, Commit(writer.ticket, writer.line));
      PutStaysWithin(etags, s, a, s', size);
    } else {
      ReadStaysWithin(etags, s, a, s', size);
    }
  }

  lemma PutStaysWithin(etags: ETags, s: State, a: Action, s': State, size: int)
    requires GoodETags(etags) && Step(etags, s, a, s') && a != Delete && Within(s, size) && s'.commits != s.commits
    ensures a.DoPut? && a.w < |s.writers|
    ensures Within(s', size + |s.writers[a.w].line| + 1)
    ensures Overwrites(s, a) ==> Within(s', size + |s.writers[a.w].line|)
  {
    assert PendingWithin(s.writers[a.w].phase, size);
    forall w | 0 <= w < |s'.writers|
      ensures PendingWithin(s'.writers[w].phase, size)
    {
      assert PendingWithin(s.writers[w].phase, size);
    }
  }

  lemma ReadStaysWithin(etags: ETags, s: State, a: Action, s': State, size: int)
    requires GoodETags(etags) && Step(etags, s, a, s') && a != Delete
    requires Within(s, size) && s'.commits == s.commits && 0 <= size
    ensures Within(s', size) && !Overwrites(s, a)
  {
    assert Overwrites(s, a) ==> |s'.commits| == |s.commits| + 1;
    forall w | 0 <= w < |s'.writers|
      ensures PendingWithin(s'.writers[w].phase, size)
    {
      assert PendingWithin(s.writers[w].phase, size);
    }
  }

  ghost predicate Overwritten(states: seq<State>, actions: seq<Action>, k: nat)
    requires k < |states| == |actions| + 1
  {
    exists j :: 0 <= j < k && OverwritesAt(states, actions, j)
  }

  /** The object and everything pending are short by this much of what was committed. */
  ghost predicate ShortBy(states: seq<State>, k: nat, missing: int)
    requires k < |states|
  {
    Within(states[k], Total(|ContentOf(states[0])|, states[k].commits) - missing)
  }

  lemma WithinStepAt(etags: ETags, states: seq<State>, actions: seq<Action>, k: nat, size: int)
    requires GoodETags(etags) && Run(etags, states, actions) && k < |actions| && Within(states[k], size)
    requires var total := Total(|ContentOf(states[0])|, states[k].commits); size == total || size == total - 1
    ensures var total := Total(|ContentOf(states[0])|, states[k].commits);
            var later := Total(|ContentOf(states[0])|, states[k + 1].commits);
            && Within(states[k + 1], size + later - total)
            && (OverwritesAt(states, actions, k) && size == total ==> Within(states[k + 1], later - 1))
  {
    assert StepAt(etags, states, actions, k);
    assert 0 <= |ContentOf(states[k])| <= size;
    StepStaysWithin(etags, states[k], actions[k], states[k + 1], size, |ContentOf(states[0])|);
  }

  lemma ShortStep(etags: ETags, states: seq<State>, actions: seq<Action>, k: nat, missing: int)
    requires GoodETags(etags) && FromStart(etags, states, actions) && k < |actions| && 0 <= missing <= 1
    requires ShortBy(states, k, missing)
    ensures ShortBy(states, k + 1, missing)
    ensures OverwritesAt(states, actions, k) && missing == 0 ==> ShortBy(states, k + 1, 1)
  {
    WithinStepAt(etags, states, actions, k, Total(|ContentOf(states[0])|, states[k].commits) - missing);
  }

  /** What is short once stays short. */
  lemma {:induction false} StaysShort(short: (nat, int) -> bool, over: nat -> bool, k: nat)
    requires short(0, 0)
    requires forall i: nat :: i < k ==> (short(i, 0) ==> short(i + 1, 0) && (over(i) ==> short(i + 1, 1)))
    requires forall i: nat :: i < k ==> (short(i, 1) ==> short(i + 1, 1))
    ensures short(k, 0) && ((exists j: nat :: j < k && over(j)) ==> short(k, 1))
  {
    if k > 0 {
      StaysShort(short, over, k - 1);
      assert short(k - 1 + 1, 0);
    }
  }

  lemma WithinTotal(etags: ETags, states: seq<State>, actions: seq<Action>, k: nat)
    requires GoodETags(etags) && FromStart(etags, states, actions) && k < |states|
    ensures ShortBy(states, k, 0) && (Overwritten(states, actions, k) ==> ShortBy(states, k, 1))
  {
    var short := (i: nat, missing: int) => i < |states| && ShortBy(states, i, missing);
    var over := (i: nat) => i < |actions| && OverwritesAt(states, actions, i);
    forall i: nat, missing: int | i < k && 0 <= missing <= 1 && ShortBy(states, i, missing)
      ensures ShortBy(states, i + 1, missing)
      ensures OverwritesAt(states, actions, i) && missing == 0 ==> ShortBy(states, i + 1, 1)
    {
      ShortStep(etags, states, actions, i, missing);
    }
    StaysShort(short, over, k);
    if Overwritten(states, actions, k) {
      var j :| 0 <= j < k && OverwritesAt(states, actions, j);
      assert over(j);
    }
  }

  /**
   Exactly when a line is lost: in a run of any writers from the beginning, object
   or not, the object is its first content plus every committed line in order if
   and only if no put without precondition took effect on content by then.
   */
  lemma NothingLostIff(etags: ETags, states: seq<State>, actions: seq<Action>, k: nat)
    requires GoodETags(etags) && FromStart(etags, states, actions) && k < |states|
    ensures ContentOf(states[k]) == WithCommits(ContentOf(states[0]), states[k].commits)
       <==> forall j :: 0 <= j < k ==> !OverwritesAt(states, actions, j)
  {
    if forall j :: 0 <= j < k ==> !OverwritesAt(states, actions, j) {
      OrderedUntilOverwrite(etags, states, actions, k);
    } else {
      WithinTotal(etags, states, actions, k);
      TotalIsSize(ContentOf(states[0]), states[k].commits);
    }
  }

  lemma StepKeepsAlone(etags: ETags, s: State, a: Action, s': State)
    requires GoodETags(etags) && AloneInOrder(etags, s) && Step(etags, s, a, s') && a != Delete
    ensures AloneInOrder(etags, s') && !Overwrites(s, a)
  {
    if a.DoPut? {
      PutKeepsAlone(etags, s, a, s');
    }
  }

  lemma PutKeepsAlone(etags: ETags, s: State, a: Action, s': State)
    requires GoodETags(etags) && AloneInOrder(etags, s) && Step(etags, s, a, s') && a.DoPut?
    ensures AloneInOrder(etags, s') && !Overwrites(s, a)
  {
  }

  lemma {:induction false} AloneAlways(etags: ETags, states: seq<State>, actions: seq<Action>, k: nat)
    requires GoodETags(etags) && FromStart(etags, states, actions) && k < |states|
    requires |states[0].writers| == 1
    ensures AloneInOrder(etags, states[k])
    ensures forall j :: 0 <= j < k ==> !OverwritesAt(states, actions, j)
  {
    if k > 0 {
      AloneAlways(etags, states, actions, k - 1);
      AloneStepAt(etags, states, actions, k - 1);
    }
  }

  lemma AloneStepAt(etags: ETags, states: seq<State>, actions: seq<Action>, k: nat)
    requires GoodETags(etags) && Run(etags, states, actions) && k < |actions| && AloneInOrder(etags, states[k])
    ensures AloneInOrder(etags, states[k + 1]) && !OverwritesAt(states, actions, k)
  {
    assert StepAt(etags, states, actions, k);
    StepKeepsAlone(etags, states[k], actions[k], states[k + 1]);
  }

  /** A single process never loses a line, whether or not the object exists yet. */
  lemma AloneNeverLoses(etags: ETags, states: seq<State>, actions: seq<Action>, k: nat)
    requires GoodETags(etags) && FromStart(etags, states, actions) && k < |states|
    requires |states[0].writers| == 1
    ensures ContentOf(states[k]) == WithCommits(ContentOf(states[0]), states[k].commits)
  {
    AloneAlways(etags, states, actions, k);
    NothingLostIff(etags, states, actions, k);
  }

  /** Two processes racing for the first write of a day: the second put drops the first one's line. */
  lemma FirstWritersRace(etags: ETags, first: string, second: string) returns (states: seq<State>, actions: seq<Action>)
    ensures FromStart(etags, states, actions) && states[0].object_ == None && |states[0].writers| == 2
    ensures |actions| == 6 && OverwritesAt(states, actions, 5)
    ensures var last := states[|states| - 1];
            && last.commits == [Commit(0, first), Commit(1, second)]
            && last.object_ == Some(AuditLog.Appended("", second))
  {
    var s0 := State(None, [Writer(Idle, 0, ""), Writer(Idle, 0, "")], [], 0);
    var s1 := s0.(writers := [Writer(Stat(0), 0, first), Writer(Idle, 0, "")], nextTicket := 1);
    var s2 := s1.(writers := [Writer(Stat(0), 0, first), Writer(Stat(0), 1, second)], nextTicket := 2);
    var s3 := s2.(writers := [Writer(Put(0, "", ""), 0, first), Writer(Stat(0), 1, second)]);
    var s4 := s3.(writers := [Writer(Put(0, "", ""), 0, first), Writer(Put(0, "", ""), 1, second)]);
    var s5 := s4.(writers := [Writer(Idle, 0, first), Writer(Put(0, "", ""), 1, second)],
                  object_ := Some(AuditLog.Appended("", first)), commits := [Commit(0, first)]);
    var s6 := s5.(writers := [Writer(Idle, 0, first), Writer(Idle, 1, second)],
                  object_ := Some(AuditLog.Appended("", second)), commits := [Commit(0, first), Commit(1, second)]);
    states := [s0, s1, s2, s3, s4, s5, s6];
    actions := [Start(0, first), Start(1, second), DoStat(0, true), DoStat(1, true),
                DoPut(0, true, true), DoPut(1, true, true)];
    RaceReads(etags, s0, s1, s2, s3, s4, first, second);
    RaceWrites(etags, s4, s5, s6, first, second);
    forall k | 0 <= k < |actions| ensures actions[k] != Delete && StepAt(etags, states, actions, k) {
      assert k == 0 || k == 1 || k == 2 || k == 3 || k == 4 || k == 5;
    }
  }

  lemma RaceReads(etags: ETags, s0: State, s1: State, s2: State, s3: State, s4: State, first: string, second: string)
    requires s0 == State(None, [Writer(Idle, 0, ""), Writer(Idle, 0, "")], [], 0)
    requires s1 == s0.(writers := [Writer(Stat(0), 0, first), Writer(Idle, 0, "")], nextTicket := 1)
    requires s2 == s1.(writers := [Writer(Stat(0), 0, first), Writer(Stat(0), 1, second)], nextTicket := 2)
    requires s3 == s2.(writers := [Writer(Put(0, "", ""), 0, first), Writer(Stat(0), 1, second)])
    requires s4 == s3.(writers := [Writer(Put(0, "", ""), 0, first), Writer(Put(0, "", ""), 1, second)])
    ensures Step(etags, s0, Start(0, first), s1) && Step(etags, s1, Start(1, second), s2)
    ensures Step(etags, s2, DoStat(0, true), s3) && Step(etags, s3, DoStat(1, true), s4)
  {
  }

  lemma RaceWrites(etags: ETags, s4: State, s5: State, s6: State, first: string, second: string)
    requires s4 == State(None, [Writer(Put(0, "", ""), 0, first), Writer(Put(0, "", ""), 1, second)], [], 2)
    requires s5 == s4.(writers := [Writer(Idle, 0, first), Writer(Put(0, "", ""), 1, second)],
                       object_ := Some(AuditLog.Appended("", first)), commits := [Commit(0, first)])
    requires s6 == s5.(writers := [Writer(Idle, 0, first), Writer(Idle, 1, second)],
                       object_ := Some(AuditLog.Appended("", second)), commits := [Commit(0, first), Commit(1, second)])
    ensures Step(etags, s4, DoPut(0, true, true), s5) && Step(etags, s5, DoPut(1, true, true), s6)
    ensures Overwrites(s5, DoPut(1, true, true))
  {
  }
}
