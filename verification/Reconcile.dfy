/**
 One reconcile of a worker's AGENTS.md: the builtin section is merged and the
 team context injected, over what the last reconcile wrote. The merge takes the
 old block for user text and the injection removes it again, so every pass
 keeps the user's text but sets it two lines lower.
 */
module Reconcile {
  import opened Text
  import opened AgentsMerge
  import opened Coordination

  /** The builtin section and the block right after it, fit to be used together. */
  ghost predicate Together(m: Markers, f: Fence) {
    && Good(m) && Sound(f) && f.anchor == m.finish
    && !IsSpace(f.start[0])
  }

  lemma BuiltinAndTeam()
    ensures Together(Builtin(), Team())
  {
    BuiltinStartIsMarker();
    BuiltinEndIsMarker();
    TeamIsSound();
  }

  function Pass(m: Markers, f: Fence, content: string, body: string, text: string): string
    requires f.finish != ""
  {
    Injected(f, Merged(m, content, body), text)
  }

  datatype Role = TeamLeader | Standalone | Member

  /** A document that some team's context was injected into. */
  predicate HasTeamContext(f: Fence, content: string) {
    && Contains(content, f.start)
    && (|| Contains(content, "Do NOT @mention Manager")
        || Contains(content, "- **Team Workers**:")
        || Contains(content, "- **Team Room**:"))
  }

  /** Leaders get their context elsewhere, and a standalone worker keeps one it has. */
  function Prepared(f: Fence, role: Role, merged: string, text: string): string
    requires f.finish != ""
  {
    if role == TeamLeader || (role == Standalone && HasTeamContext(f, merged)) then merged
    else Injected(f, merged, text)
  }

  method PrepareAgents(f: Fence, role: Role, inlineAgents: string, existing: string, source: string, text: string)
    returns (content: string)
    requires f.finish != ""
    ensures var chosen := if inlineAgents != "" then inlineAgents else existing;
            var merged := if source != "" then Merged(Builtin(), chosen, Frontmatter(source).1) else chosen;
            content == Prepared(f, role, merged, text)
  {
    content := "";
    if inlineAgents != "" {
      content := inlineAgents;
    } else {
      content := existing;
    }
    if source != "" {
      content := MergeBuiltinSection(content, source);
    }
    content := PrepareMerged(f, role, content, text);
  }

  method PrepareMerged(f: Fence, role: Role, merged: string, text: string) returns (content: string)
    requires f.finish != ""
    ensures content == Prepared(f, role, merged, text)
    ensures role == TeamLeader ==> content == merged
    ensures role == Member ==> content == Injected(f, merged, text)
    ensures role == Standalone ==>
              content == if && Contains(merged, f.start)
                            && (|| Contains(merged, "Do NOT @mention Manager")
                                || Contains(merged, "- **Team Workers**:")
                                || Contains(merged, "- **Team Room**:"))
                         then merged else Injected(f, merged, text)
  {
    content := merged;
    if role != TeamLeader {
      if role == Standalone && HasTeamContext(f, content) {
        return content;
      }
      content := InjectCoordinationContext(f, content, text);
    }
  }

  /** For a team member without inline text, that is one pass over what the last reconcile wrote. */
  lemma MemberPass(f: Fence, existing: string, body: string, text: string)
    requires f.finish != ""
    ensures Prepared(f, Member, Merged(Builtin(), existing, body), text) == Pass(Builtin(), f, existing, body, text)
  {
  }

  /** A document as a reconcile leaves it: section, block, and the rest. */
  function Managed(m: Markers, f: Fence, body: string, text: string, tail: string): string {
    Preamble(m, body) + m.finish + "\n" + Block(f, text) + tail
  }

  /** A block that neither ends early nor quotes the anchor. */
  predicate PlainText(f: Fence, text: string) {
    !Contains(text, f.finish) && !Contains(text, f.anchor)
  }

  /** A rest that quotes neither the block's start nor the anchor. */
  predicate PlainTail(f: Fence, tail: string) {
    !Contains(tail, f.start) && !Contains(tail, f.anchor)
  }

  predicate PlainSection(m: Markers, f: Fence, body: string) {
    !Contains(Preamble(m, body), f.start)
  }

  /** What remains of the rest of a document in a merge. */
  function Rest(tail: string): string {
    var core := TrimRight(tail, Newline());
    if core == "" then "" else core + "\n"
  }

  // ---------------------------------------------------------- what merging does

  lemma MarkerFirst(p: string, q: string, b: string)
    requires Related(p, q) && p != q && !Contains(b, q)
    ensures !Contains(p + b, q)
  {
    if Contains(p + b, q) {
      var j := Index(p + b, q);
      AtStart(p, b, q, j);
      Found(b, q, j - |p|);
    }
  }

  lemma MarkerBetween(a: string, p: string, b: string, q: string)
    requires Related(p, q) && p != q && !Contains(a, q) && !Contains(b, q)
    ensures !Contains(a + p + b, q)
  {
    if Contains(a + p + b, q) {
      var j := Index(a + p + b, q);
      AtAround(a, p, b, q, j);
      if At(a, q, j) { Found(a, q, j); } else { Found(b, q, j - |a| - |p|); }
    }
  }

  /** The block and the rest hold no anchor. */
  lemma BlockHasNoAnchor(f: Fence, text: string, tail: string)
    requires Sound(f) && PlainText(f, text) && PlainTail(f, tail)
    ensures !Contains(f.start + (text + f.finish + ("\n" + tail)), f.anchor)
  {
    LineBefore(tail, f.anchor);
    MarkerBetween(text, f.finish, "\n" + tail, f.anchor);
    MarkerFirst(f.start, f.anchor, text + f.finish + ("\n" + tail));
  }

  /** The merge takes the old block and the rest for user text. */
  lemma BlockIsUserText(m: Markers, f: Fence, body: string, text: string, tail: string)
    requires Together(m, f) && PlainText(f, text) && PlainTail(f, tail)
    ensures UserContent(m, Managed(m, f, body, text, tail)) == f.start + (text + f.finish + ("\n" + tail))
  {
    var user := f.start + (text + f.finish + ("\n" + tail));
    BlockHasNoAnchor(f, text, tail);
    LineBefore(user, m.finish);
    LineBefore("\n" + user, m.finish);
    assert Managed(m, f, body, text, tail) == Preamble(m, body) + m.finish + ("\n" + ("\n" + user));
    UserContentAfter(m, Preamble(m, body), "\n" + ("\n" + user));
    VisibleBlock(f, user);
  }

  lemma VisibleBlock(f: Fence, user: string)
    requires IsMarker(f.start) && !IsSpace(f.start[0]) && |user| >= |f.start| && user[0] == f.start[0]
    ensures Visible("\n" + ("\n" + user)) == user
  {
    assert "\n" + ("\n" + user) == "\n\n" + user;
    TrimLeftUnique("\n\n", user, Newline());
    TrimSpaceEmpty(user);
  }

  /** Trimming a block and the rest only trims the rest. */
  lemma TrimmedBlock(solid: string, tail: string)
    requires solid != "" && solid[|solid| - 1] != '\n'
    ensures TrimRight(solid + ("\n" + tail), Newline()) + "\n" == solid + ("\n" + Rest(tail))
  {
    var core := TrimRight(tail, Newline());
    TrimRightShape(tail, Newline());
    var cut := tail[|core|..];
    assert tail == core + cut;
    if core == "" {
      assert tail == cut;
      TrimRightUnique(solid, "\n" + cut, Newline());
    } else {
      var longer := solid + ("\n" + core);
      assert solid + ("\n" + tail) == longer + cut;
      TrimRightUnique(longer, cut, Newline());
      assert longer[|longer| - 1] == core[|core| - 1];
      assert longer + "\n" == solid + ("\n" + (core + "\n"));
    }
  }

  lemma MergedManaged(m: Markers, f: Fence, body: string, was: string, text: string, tail: string)
    requires Together(m, f) && PlainText(f, text) && PlainTail(f, tail)
    ensures Merged(m, Managed(m, f, was, text, tail), body)
         == (Preamble(m, body) + m.finish + "\n\n") + f.start + (text + f.finish + ("\n" + Rest(tail)))
  {
    var user := f.start + (text + f.finish + ("\n" + tail));
    ManagedHasStart(m, f, was, text, tail);
    BlockIsUserText(m, f, was, text, tail);
    assert Merged(m, Managed(m, f, was, text, tail), body) == Wrapped(m, body, user);
    KeptBlock(f, text, tail);
    WrappedBlock(m, body, user, f.start, text + f.finish + ("\n" + Rest(tail)));
  }

  lemma KeptBlock(f: Fence, text: string, tail: string)
    requires Sound(f)
    ensures TrimRight(f.start + (text + f.finish + ("\n" + tail)), Newline()) + "\n"
         == f.start + (text + f.finish + ("\n" + Rest(tail)))
  {
    var solid := f.start + text + f.finish;
    assert f.start + (text + f.finish + ("\n" + tail)) == solid + ("\n" + tail);
    TrimmedBlock(solid, tail);
    assert solid + ("\n" + Rest(tail)) == f.start + (text + f.finish + ("\n" + Rest(tail)));
  }

  lemma WrappedBlock(m: Markers, body: string, user: string, p: string, rest: string)
    requires user != "" && TrimRight(user, Newline()) + "\n" == p + rest
    ensures Wrapped(m, body, user) == (Preamble(m, body) + m.finish + "\n\n") + p + rest
  {
    assert UserPart(user) == "\n" + (p + rest);
  }

  lemma ManagedHasStart(m: Markers, f: Fence, body: string, text: string, tail: string)
    requires Good(m)
    ensures Managed(m, f, body, text, tail) != ""
    ensures Contains(Managed(m, f, body, text, tail), m.start)
  {
    var doc := Managed(m, f, body, text, tail);
    assert doc[0..|m.start|] == m.start;
    Found(doc, m.start, 0);
  }

  // -------------------------------------------------------- what injecting does

  lemma RestIsPlain(f: Fence, tail: string)
    requires Sound(f) && PlainTail(f, tail)
    ensures PlainTail(f, Rest(tail))
  {
    var core := TrimRight(tail, Newline());
    TrimRightShape(tail, Newline());
    assert tail == core + tail[|core|..];
    PrefixFree(core, tail[|core|..], f.start);
    PrefixFree(core, tail[|core|..], f.anchor);
    TailOfLine(core, f.start);
    TailOfLine(core, f.anchor);
  }

  lemma NoStartIsClean(f: Fence, s: string)
    requires !Contains(s, f.start)
    ensures Clean(f, s)
  {
    forall i
      ensures !At(s, f.start, i)
    {
      Nowhere(s, f.start, i);
    }
  }

  /** The section alone, opened by two newlines, as removing the block leaves it. */
  lemma SectionCut(m: Markers, f: Fence, body: string, rest: string)
    requires Together(m, f) && PlainSection(m, f, body) && PlainTail(f, rest)
    ensures var cleaned := (Preamble(m, body) + m.finish + "\n\n") + rest;
            && Removed(f, cleaned) == cleaned
            && Head(f, cleaned) == Preamble(m, body) + m.finish
            && Tail(f, cleaned) == "\n\n" + rest
  {
    var p := Preamble(m, body);
    var cleaned := (p + m.finish + "\n\n") + rest;
    assert cleaned == p + m.finish + ("\n\n" + rest);
    GapFree(rest, f.start);
    MarkerBetween(p, m.finish, "\n\n" + rest, f.start);
    NoStartIsClean(f, cleaned);
    RemovedIsClean(f, cleaned);
    GapFree(rest, f.anchor);
    LastMarker(p, m.finish, "\n\n" + rest);
  }

  lemma SectionHasNoStart(m: Markers, f: Fence, body: string)
    requires Together(m, f) && PlainSection(m, f, body)
    ensures !Contains(Preamble(m, body) + m.finish + "\n\n", f.start)
  {
    GapFree("", f.start);
    assert "\n\n" + "" == "\n\n";
    MarkerBetween(Preamble(m, body), m.finish, "\n\n", f.start);
  }

  // ----------------------------------------------------------- the main results

  /** A pass replaces section and block, and sets the rest two lines lower. */
  lemma PassOnManaged(m: Markers, f: Fence, was: string, said: string, tail: string, body: string, text: string)
    requires Together(m, f) && PlainText(f, said) && PlainTail(f, tail)
    requires PlainSection(m, f, body)
    ensures Pass(m, f, Managed(m, f, was, said, tail), body, text)
         == Managed(m, f, body, text, "\n\n" + Rest(tail))
  {
    var front := Preamble(m, body) + m.finish + "\n\n";
    MergedManaged(m, f, body, was, said, tail);
    SectionHasNoStart(m, f, body);
    RemoveInserted(f, front, said, Rest(tail));
    RestIsPlain(f, tail);
    SectionCut(m, f, body, Rest(tail));
  }

  /** The first pass, over a document without any marker. */
  lemma FirstPass(m: Markers, f: Fence, target: string, body: string, text: string)
    requires Together(m, f) && PlainTail(f, target) && !Contains(target, m.start)
    requires PlainSection(m, f, body)
    ensures Pass(m, f, target, body, text) == Managed(m, f, body, text, "\n" + UserPart(target))
  {
    var p := Preamble(m, body);
    var tail := "\n" + UserPart(target);
    FreeTail(target, f.start);
    FreeTail(target, f.anchor);
    assert Merged(m, target, body) == p + m.finish + tail;
    MarkerBetween(p, m.finish, tail, f.start);
    NoStartIsClean(f, p + m.finish + tail);
    RemovedIsClean(f, p + m.finish + tail);
    LastMarker(p, m.finish, tail);
  }

  /** The rest of a document after n passes over it. */
  function Lowered(tail: string, n: nat): string {
    if n == 0 then tail
    else if TrimRight(tail, Newline()) == "" then "\n\n"
    else Repeat('\n', 2 * n) + Rest(tail)
  }

  lemma LoweredAgain(tail: string, n: nat)
    ensures "\n\n" + Rest(Lowered(tail, n)) == Lowered(tail, n + 1)
  {
    var core := TrimRight(tail, Newline());
    if n == 0 {
      assert Repeat('\n', 2) == "\n\n";
    } else if core == "" {
      TrimRightUnique("", "\n\n", Newline());
      assert "" + "\n\n" == "\n\n";
    } else {
      TrimRightShape(tail, Newline());
      RestBelow(Repeat('\n', 2 * n), core);
      assert "\n\n" + (Repeat('\n', 2 * n) + (core + "\n")) == Repeat('\n', 2 * (n + 1)) + (core + "\n");
    }
  }

  lemma RestBelow(gap: string, core: string)
    requires core != "" && core[|core| - 1] != '\n'
    ensures Rest(gap + (core + "\n")) == gap + (core + "\n")
  {
    var text := gap + core;
    assert gap + (core + "\n") == text + "\n";
    TrimRightUnique(text, "\n", Newline());
    assert text[|text| - 1] == core[|core| - 1];
  }

  lemma NewlinesFree(gap: string, rest: string, q: string)
    requires IsMarker(q) && All(gap, Newline()) && !Contains(rest, q)
    ensures !Contains(gap + rest, q)
  {
    if Contains(gap + rest, q) {
      var j := Index(gap + rest, q);
      AtChars(gap + rest, q, j, 0);
      AtSuffix(gap, rest, q, j);
      Found(rest, q, j - |gap|);
    }
  }

  lemma LoweredIsPlain(f: Fence, tail: string, n: nat)
    requires Sound(f) && PlainTail(f, tail)
    ensures PlainTail(f, Lowered(tail, n))
  {
    RestIsPlain(f, tail);
    var gap := Repeat('\n', 2 * n);
    NewlinesFree(gap, Rest(tail), f.start);
    NewlinesFree(gap, Rest(tail), f.anchor);
    GapIsPlain(f, tail, "\n\n" + Rest(tail));
    assert "\n\n" + "" == "\n\n";
  }

  lemma GapIsPlain(f: Fence, tail: string, next: string)
    requires Sound(f) && PlainTail(f, tail) && next == "\n\n" + Rest(tail)
    ensures PlainTail(f, next)
  {
    RestIsPlain(f, tail);
    GapFree(Rest(tail), f.start);
    GapFree(Rest(tail), f.anchor);
  }

  /** One document over a run of passes, each with its own builtin body and block text. */
  ghost predicate PassRun(m: Markers, f: Fence, docs: seq<string>, bodies: seq<string>, texts: seq<string>)
    requires f.finish != ""
  {
    && |docs| == |bodies| == |texts| >= 1
    && forall k :: 0 < k < |docs| ==> docs[k] == Pass(m, f, docs[k - 1], bodies[k], texts[k])
  }

  /**
   The user's text is never lost, and never settles: after n passes it stands
   2n newlines below the block. A document without user text is stable from the
   first pass on.
   */
  lemma {:induction false} EveryPassKeepsUserText(m: Markers, f: Fence, docs: seq<string>,
                                                  bodies: seq<string>, texts: seq<string>, tail: string, n: nat)
    requires Together(m, f) && PlainTail(f, tail)
    requires PassRun(m, f, docs, bodies, texts) && n < |docs|
    requires docs[0] == Managed(m, f, bodies[0], texts[0], tail)
    requires forall k :: 0 <= k < |docs| ==> PlainSection(m, f, bodies[k]) && PlainText(f, texts[k])
    ensures docs[n] == Managed(m, f, bodies[n], texts[n], Lowered(tail, n))
  {
    if n > 0 {
      EveryPassKeepsUserText(m, f, docs, bodies, texts, tail, n - 1);
      LoweredIsPlain(f, tail, n - 1);
      PassOnManaged(m, f, bodies[n - 1], texts[n - 1], Lowered(tail, n - 1), bodies[n], texts[n]);
      LoweredAgain(tail, n - 1);
    }
  }

  /** Repeating one pass changes nothing if and only if there is no user text; otherwise it adds two newlines. */
  lemma PassSettlesIffNoUserText(m: Markers, f: Fence, tail: string, body: string, text: string)
    requires Together(m, f) && PlainText(f, text) && PlainTail(f, tail) && PlainSection(m, f, body)
    ensures var once := Pass(m, f, Managed(m, f, body, text, tail), body, text);
            var twice := Pass(m, f, once, body, text);
            && (twice == once <==> All(tail, Newline()))
            && (twice != once ==> |twice| == |once| + 2)
  {
    PassOnManaged(m, f, body, text, tail, body, text);
    GapIsPlain(f, tail, "\n\n" + Rest(tail));
    PassOnManaged(m, f, body, text, "\n\n" + Rest(tail), body, text);
    LoweredAgain(tail, 0);
    LoweredAgain(tail, 1);
    LoweredSettles(tail);
    SameManaged(m, f, body, text, Lowered(tail, 1), Lowered(tail, 2));
  }

  lemma LoweredSettles(tail: string)
    ensures Lowered(tail, 2) == Lowered(tail, 1) <==> All(tail, Newline())
    ensures !All(tail, Newline()) ==> |Lowered(tail, 2)| == |Lowered(tail, 1)| + 2
  {
    var core := TrimRight(tail, Newline());
    TrimRightShape(tail, Newline());
    if All(tail, Newline()) {
      TrimRightUnique("", tail, Newline());
      assert "" + tail == tail;
    }
    assert tail == core + tail[|core|..];
  }

  lemma SameManaged(m: Markers, f: Fence, body: string, text: string, u: string, v: string)
    ensures Managed(m, f, body, text, u) == Managed(m, f, body, text, v) <==> u == v
    ensures |Managed(m, f, body, text, v)| - |Managed(m, f, body, text, u)| == |v| - |u|
  {
    var front := Managed(m, f, body, text, "");
    assert Managed(m, f, body, text, u)[|front|..] == u;
    assert Managed(m, f, body, text, v)[|front|..] == v;
  }
}
