/**
 The team-context block that the controller keeps inside AGENTS.md, right after
 the builtin section. Injecting first removes every older block. What stands
 between the block's markers is opaque text; the builtin end marker after which
 the block goes is called the anchor.
 */
module Coordination {
  import opened Wrappers
  import opened Text
  import opened AgentsMerge

  datatype Fence = Fence(start: string, finish: string, anchor: string)

  const TEAM_START := "<!-- agentteams-team-context-start -->"
  const TEAM_END := "<!-- agentteams-team-context-end -->"

  function Team(): Fence {
    Fence(TEAM_START, TEAM_END, BUILTIN_END)
  }

  /** Two strings of which neither opens the other. */
  predicate Distinct(p: string, q: string) {
    exists k :: 0 <= k < |p| && k < |q| && p[k] != q[k]
  }

  /** All that the proofs need of the three markers. */
  ghost predicate Sound(m: Fence) {
    && IsMarker(m.start) && IsMarker(m.finish) && IsMarker(m.anchor)
    && m.start[0] == m.finish[0] == m.anchor[0]
    && Distinct(m.start, m.finish) && Distinct(m.finish, m.start)
    && Distinct(m.start, m.anchor) && Distinct(m.finish, m.anchor)
  }

  lemma TeamStartIsMarker()
    ensures IsMarker(TEAM_START)
  {
  }

  lemma TeamEndIsMarker()
    ensures IsMarker(TEAM_END)
  {
  }

  lemma TeamIsDistinct()
    ensures Distinct(TEAM_START, TEAM_END) && Distinct(TEAM_END, TEAM_START)
  {
    assert TEAM_START[29] == 's' && TEAM_END[29] == 'e';
  }

  lemma TeamIsNotBuiltin()
    ensures Distinct(TEAM_START, BUILTIN_END) && Distinct(TEAM_END, BUILTIN_END)
  {
    assert TEAM_START[16] == 't' && TEAM_END[16] == 't' && BUILTIN_END[16] == 'b';
  }

  lemma TeamIsSound()
    ensures Sound(Team())
  {
    TeamStartIsMarker();
    TeamEndIsMarker();
    BuiltinEndIsMarker();
    TeamIsDistinct();
    TeamIsNotBuiltin();
  }

  // ---------------------------------------------------------------- removing

  function PastNewline(content: string, stop: nat): (next: nat)
    requires stop <= |content|
    ensures stop <= next <= |content|
  {
    if stop < |content| && content[stop] == '\n' then stop + 1 else stop
  }

  /** The first block: from the first start marker through the next end marker and one newline. */
  function NextBlock(m: Fence, content: string): (block: Option<(nat, nat)>)
    ensures block.Some? ==> block.value.0 + |m.finish| <= block.value.1 <= |content|
  {
    var i := Index(content, m.start);
    if i < 0 then None
    else
      var e := Index(content[i..], m.finish);
      if e < 0 then None
      else
        Some((i, PastNewline(content, i + e + |m.finish|)))
  }

  function Removed(m: Fence, content: string): (rest: string)
    requires m.finish != ""
    ensures |rest| <= |content|
    decreases |content|
  {
    match NextBlock(m, content)
    case None => content
    case Some((i, stop)) => Removed(m, content[..i] + content[stop..])
  }

  method FindBlock(m: Fence, content: string) returns (found: bool, startIdx: int, endIdx: int)
    ensures found ==> NextBlock(m, content) == Some((startIdx, endIdx))
    ensures !found ==> NextBlock(m, content).None?
  {
    startIdx := Index(content, m.start);
    endIdx := -1;
    if startIdx < 0 { return false, startIdx, endIdx; }
    endIdx := Index(content[startIdx..], m.finish);
    if endIdx < 0 { return false, startIdx, endIdx; }
    endIdx := endIdx + startIdx + |m.finish|;
    if endIdx < |content| && content[endIdx] == '\n' {
      endIdx := endIdx + 1;
    }
    found := true;
  }

  method RemoveCoordinationBlock(m: Fence, original: string) returns (content: string)
    requires m.finish != ""
    ensures content == Removed(m, original)
  {
    content := original;
    while true
      invariant Removed(m, content) == Removed(m, original)
      decreases |content|
    {
      var found, startIdx, endIdx := FindBlock(m, content);
      if !found { break; }
      content := content[..startIdx] + content[endIdx..];
    }
  }

  /** No start marker is followed by an end marker. */
  ghost predicate Clean(m: Fence, content: string) {
    forall i, j :: At(content, m.start, i) && At(content, m.finish, j) ==> j < i
  }

  lemma NoBlockIffClean(m: Fence, content: string)
    ensures NextBlock(m, content).None? <==> Clean(m, content)
  {
    var i := Index(content, m.start);
    if i >= 0 {
      assert content == content[..i] + content[i..];
      var e := Index(content[i..], m.finish);
      if e >= 0 {
        AtSuffix(content[..i], content[i..], m.finish, i + e);
      }
      forall k, j | At(content, m.start, k) && At(content, m.finish, j)
        ensures e < 0 ==> j < k
      {
        Found(content, m.start, k);
        if i <= j {
          AtSuffix(content[..i], content[i..], m.finish, j);
          Found(content[i..], m.finish, j - i);
        }
      }
    } else {
      forall k | At(content, m.start, k)
        ensures false
      {
        Found(content, m.start, k);
      }
    }
  }

  /** Removing leaves a clean text, and changes only a text that is not clean. */
  lemma {:induction false} RemovedIsClean(m: Fence, content: string)
    requires m.finish != ""
    ensures Clean(m, Removed(m, content))
    ensures Removed(m, content) == content <==> Clean(m, content)
    decreases |content|
  {
    NoBlockIffClean(m, content);
    match NextBlock(m, content)
    case None =>
    case Some((i, stop)) => RemovedIsClean(m, content[..i] + content[stop..]);
  }

  // --------------------------------------------------- occurrences of markers

  ghost predicate Related(p: string, q: string) {
    IsMarker(p) && IsMarker(q) && p[0] == q[0] && (p == q || Distinct(p, q))
  }

  /** The occurrences of one marker around an occurrence of a marker. */
  lemma AtAround(a: string, p: string, b: string, q: string, i: int)
    requires Related(p, q)
    ensures At(a + p + b, q, i)
       <==> At(a, q, i) || At(b, q, i - |a| - |p|) || (p == q && i == |a|)
  {
    var s := a + p + b;
    if i + |q| <= |a| {
      AtPrefix(a, p + b, q, i);
      assert s == a + (p + b);
    } else if |a| + |p| <= i {
      AtSuffix(a + p, b, q, i);
    } else {
      AtMid(a, p, b);
      if At(s, q, i) { AtMiddle(s, p, |a|, q, i); }
    }
  }

  lemma AtMiddle(s: string, p: string, k: int, q: string, i: int)
    requires Related(p, q)
    requires At(s, p, k) && At(s, q, i) && k < i + |q| && i < k + |p|
    ensures p == q && i == k
  {
    if i < k { NoOverlap(s, q, p, i, k); }
    if k < i { NoOverlap(s, p, q, k, i); }
    if i == k && p != q {
      var x :| 0 <= x < |p| && x < |q| && p[x] != q[x];
      AtChars(s, p, k, x);
      AtChars(s, q, k, x);
    }
  }

  /** A marker occurs on one side of a newline or on the other. */
  lemma AtLines(a: string, b: string, q: string, i: int)
    requires IsMarker(q)
    ensures At(a + "\n" + b, q, i) <==> At(a, q, i) || At(b, q, i - |a| - 1)
  {
    var s := a + "\n" + b;
    if At(s, q, i) { NoNewlineInside(s, q, i, |a|); }
    if i + |q| <= |a| {
      AtPrefix(a, "\n" + b, q, i);
      assert s == a + ("\n" + b);
    } else if |a| < i {
      AtSuffix(a + "\n", b, q, i);
    }
  }

  // ------------------------------------------------------- removing one block

  lemma FirstStart(m: Fence, a: string, c: string)
    requires IsMarker(m.start) && !Contains(a, m.start)
    ensures Index(a + m.start + c, m.start) == |a|
  {
    var s := a + m.start + c;
    AtMid(a, m.start, c);
    Found(s, m.start, |a|);
    var j := Index(s, m.start);
    AtAround(a, m.start, c, m.start, j);
    if j < |a| { Found(a, m.start, j); }
  }

  lemma FirstFinish(m: Fence, inner: string, rest: string)
    requires Sound(m) && !Contains(inner, m.finish)
    ensures Index(m.start + (inner + m.finish + rest), m.finish) == |m.start| + |inner|
  {
    var s := m.start + (inner + m.finish + rest);
    var k := |m.start| + |inner|;
    AtAfterStart(m, inner, rest, k);
    Found(s, m.finish, k);
    AtAfterStart(m, inner, rest, Index(s, m.finish));
  }

  lemma AtAfterStart(m: Fence, inner: string, rest: string, j: nat)
    requires Sound(m) && !Contains(inner, m.finish)
    requires j <= |m.start| + |inner|
    ensures At(m.start + (inner + m.finish + rest), m.finish, j) <==> j == |m.start| + |inner|
  {
    var c := inner + m.finish + rest;
    assert m.start + c == "" + m.start + c;
    AtAround("", m.start, c, m.finish, j);
    AtAround(inner, m.finish, rest, m.finish, j - |m.start|);
    if At(inner, m.finish, j - |m.start|) { Found(inner, m.finish, j - |m.start|); }
  }

  /** A block behind a text without start marker is removed first and alone. */
  lemma RemoveInserted(m: Fence, a: string, inner: string, b: string)
    requires Sound(m)
    requires !Contains(a, m.start) && !Contains(inner, m.finish)
    ensures Removed(m, a + m.start + (inner + m.finish + ("\n" + b))) == Removed(m, a + b)
  {
    var s := a + m.start + (inner + m.finish + ("\n" + b));
    InsertedBlock(m, a, inner, b);
    BlockCut(a, m.start, inner, m.finish, b);
    RemovedStep(m, s, a, b, |a| + |m.start| + |inner| + |m.finish| + 1);
  }

  lemma RemovedStep(m: Fence, s: string, a: string, b: string, stop: nat)
    requires m.finish != "" && stop <= |s| && |a| <= |s| && a == s[..|a|] && b == s[stop..]
    requires NextBlock(m, s) == Some((|a|, stop))
    ensures Removed(m, s) == Removed(m, a + b)
  {
  }

  lemma InsertedBlock(m: Fence, a: string, inner: string, b: string)
    requires Sound(m)
    requires !Contains(a, m.start) && !Contains(inner, m.finish)
    ensures NextBlock(m, a + m.start + (inner + m.finish + ("\n" + b)))
         == Some((|a|, |a| + |m.start| + |inner| + |m.finish| + 1))
  {
    var c := inner + m.finish + ("\n" + b);
    FirstStart(m, a, c);
    assert (a + m.start + c)[|a|..] == m.start + c;
    FirstFinish(m, inner, "\n" + b);
    BlockCut(a, m.start, inner, m.finish, b);
  }

  lemma BlockCut(a: string, p: string, inner: string, q: string, b: string)
    ensures var s := a + p + (inner + q + ("\n" + b));
            var stop := |a| + |p| + |inner| + |q|;
            stop < |s| && s[stop] == '\n' && s[..|a|] == a && s[stop + 1..] == b
  {
    var s := a + p + (inner + q + ("\n" + b));
    assert s == (a + p + inner + q) + "\n" + b;
  }

  // --------------------------------------------------------------- injecting

  function Block(m: Fence, text: string): string {
    "\n" + m.start + text + m.finish + "\n"
  }

  /** What comes before the block: through the last anchor, or everything trimmed. */
  function Head(m: Fence, cleaned: string): string {
    if Contains(cleaned, m.anchor)
    then cleaned[..LastIndex(cleaned, m.anchor) + |m.anchor|]
    else TrimRight(cleaned, Newline())
  }

  function Tail(m: Fence, cleaned: string): string {
    if Contains(cleaned, m.anchor)
    then cleaned[LastIndex(cleaned, m.anchor) + |m.anchor|..]
    else ""
  }

  function Injected(m: Fence, content: string, text: string): string
    requires m.finish != ""
  {
    var cleaned := Removed(m, content);
    Head(m, cleaned) + "\n" + Block(m, text) + Tail(m, cleaned)
  }

  method InjectCoordinationContext(m: Fence, content: string, text: string) returns (result: string)
    requires m.finish != ""
    ensures result == Injected(m, content, text)
  {
    var block := Block(m, text);
    var cleaned := RemoveCoordinationBlock(m, content);
    if Contains(cleaned, m.anchor) {
      var idx := LastIndex(cleaned, m.anchor);
      var before := cleaned[..idx + |m.anchor|];
      var after := cleaned[idx + |m.anchor|..];
      return before + "\n" + block + after;
    }
    return TrimRight(cleaned, Newline()) + "\n" + block;
  }

  /** Head and tail of a clean text are clean, and only the head holds an anchor. */
  lemma HeadAndTail(m: Fence, cleaned: string)
    requires Sound(m) && Clean(m, cleaned)
    ensures Clean(m, Head(m, cleaned)) && Clean(m, Tail(m, cleaned))
    ensures !Contains(Tail(m, cleaned), m.anchor)
    ensures Contains(cleaned, m.anchor) ==> cleaned == Head(m, cleaned) + Tail(m, cleaned)
  {
    if Contains(cleaned, m.anchor) {
      var before, after := SplitAtLast(cleaned, m.anchor);
      PartsClean(m, before + m.anchor, after);
    } else {
      TrimRightShape(cleaned, Newline());
      var h := TrimRight(cleaned, Newline());
      assert cleaned == h + cleaned[|h|..];
      PartsClean(m, h, cleaned[|h|..]);
    }
  }

  /** In a text without blocks the new one goes right behind the last anchor, or to the trimmed end. */
  lemma InjectsBehindLast(m: Fence, before: string, after: string, text: string)
    requires Sound(m) && Clean(m, before + m.anchor + after) && !Contains(after, m.anchor)
    ensures Injected(m, before + m.anchor + after, text)
         == before + m.anchor + "\n" + ("\n" + m.start + text + m.finish + "\n") + after
  {
    var content := before + m.anchor + after;
    RemovedIsClean(m, content);
    LastMarker(before, m.anchor, after);
    assert content[..|before| + |m.anchor|] == before + m.anchor;
    assert content[|before| + |m.anchor|..] == after;
  }

  lemma InjectsAtEnd(m: Fence, content: string, text: string)
    requires Sound(m) && Clean(m, content) && !Contains(content, m.anchor)
    ensures Injected(m, content, text)
         == TrimRight(content, Newline()) + "\n" + ("\n" + m.start + text + m.finish + "\n")
  {
    RemovedIsClean(m, content);
    var done := TrimRight(content, Newline()) + "\n" + ("\n" + m.start + text + m.finish + "\n");
    assert done + "" == done;
  }

  lemma PartsClean(m: Fence, a: string, b: string)
    requires Clean(m, a + b)
    ensures Clean(m, a) && Clean(m, b)
  {
    forall i, j | At(a, m.start, i) && At(a, m.finish, j)
      ensures j < i
    {
      AtPrefix(a, b, m.start, i);
      AtPrefix(a, b, m.finish, j);
    }
    forall i, j | At(b, m.start, i) && At(b, m.finish, j)
      ensures j < i
    {
      AtSuffix(a, b, m.start, |a| + i);
      AtSuffix(a, b, m.finish, |a| + j);
    }
  }

  /** The text left by removing an injected block, when no start marker stands before it. */
  function Opened(m: Fence, cleaned: string): string {
    Head(m, cleaned) + "\n" + ("\n" + Tail(m, cleaned))
  }

  lemma OpenedIsClean(m: Fence, h: string, t: string)
    requires Sound(m) && !Contains(h, m.start) && Clean(m, t)
    ensures Clean(m, h + "\n" + ("\n" + t))
  {
    var s := h + "\n" + ("\n" + t);
    forall i, j | At(s, m.start, i) && At(s, m.finish, j)
      ensures j < i
    {
      AtGap(h, t, m.start, i);
      AtGap(h, t, m.finish, j);
      if At(h, m.start, i) { Found(h, m.start, i); }
    }
  }

  lemma AtGap(h: string, t: string, q: string, i: int)
    requires IsMarker(q)
    ensures At(h + "\n" + ("\n" + t), q, i) <==> At(h, q, i) || At(t, q, i - |h| - 2)
  {
    AtLines(h, "\n" + t, q, i);
    AtLines("", t, q, i - |h| - 1);
    assert "" + "\n" + t == "\n" + t;
    if At("", q, i - |h| - 1) { assert false; }
  }

  lemma InjectedShape(m: Fence, h: string, text: string, t: string)
    ensures h + "\n" + Block(m, text) + t == (h + "\n\n") + m.start + (text + m.finish + ("\n" + t))
    ensures (h + "\n\n") + t == h + "\n" + ("\n" + t)
  {
  }

  lemma FreeBeforeGap(h: string, q: string)
    requires IsMarker(q)
    ensures Contains(h + "\n\n", q) <==> Contains(h, q)
  {
    assert h + "\n\n" == h + "\n" + ("\n" + "");
    if Contains(h, q) {
      AtGap(h, "", q, Index(h, q));
      Found(h + "\n\n", q, Index(h, q));
    }
    if Contains(h + "\n\n", q) {
      var i := Index(h + "\n\n", q);
      AtGap(h, "", q, i);
      if At(h, q, i) { Found(h, q, i); }
    }
  }

  /**
   A start marker left unmatched before the anchor pairs up with the new
   block's end marker: removing takes everything from that marker on.
   */
  lemma RemoveAfterStray(m: Fence, h: string, text: string, t: string)
    requires Sound(m) && Clean(m, h) && Contains(h, m.start) && !Contains(text, m.finish)
    ensures Removed(m, h + "\n" + Block(m, text) + t) == Removed(m, h[..Index(h, m.start)] + t)
  {
    var a, after := SplitAtFirst(h, m.start);
    StrayIsOpen(m, a, after);
    StrayInner(m, after, text);
    StrayShape(m, a, after, text, t);
    RemoveInserted(m, a, after + "\n" + ("\n" + (m.start + text)), t);
  }

  lemma SplitAtFirst(h: string, p: string) returns (a: string, after: string)
    requires p != "" && Contains(h, p)
    ensures h == a + p + after && a == h[..Index(h, p)]
    ensures !Contains(a, p)
  {
    var i := Index(h, p);
    a, after := h[..i], h[i + |p|..];
    assert h == a + p + after;
    NoneBeforeFirst(a, p, after);
  }

  lemma NoneBeforeFirst(a: string, p: string, after: string)
    requires p != "" && Index(a + p + after, p) == |a|
    ensures !Contains(a, p)
  {
    if Contains(a, p) {
      var j := Index(a, p);
      assert a + p + after == a + (p + after);
      AtPrefix(a, p + after, p, j);
      Found(a + p + after, p, j);
    }
  }

  lemma StrayIsOpen(m: Fence, a: string, after: string)
    requires Clean(m, a + m.start + after)
    ensures !Contains(after, m.finish)
  {
    if Contains(after, m.finish) {
      AtMid(a, m.start, after);
      AtSuffix(a + m.start, after, m.finish, |a + m.start| + Index(after, m.finish));
    }
  }

  lemma StrayInner(m: Fence, after: string, text: string)
    requires Sound(m) && !Contains(after, m.finish) && !Contains(text, m.finish)
    ensures !Contains(after + "\n" + ("\n" + (m.start + text)), m.finish)
  {
    StartFree(m, text);
    LineBefore(m.start + text, m.finish);
    LinesFree(after, "\n" + (m.start + text), m.finish);
  }

  lemma AtStart(p: string, b: string, q: string, i: int)
    requires Related(p, q) && p != q
    ensures At(p + b, q, i) <==> At(b, q, i - |p|)
  {
    assert "" + p + b == p + b;
    AtAround("", p, b, q, i);
  }

  lemma StartFree(m: Fence, text: string)
    requires Sound(m) && !Contains(text, m.finish)
    ensures !Contains(m.start + text, m.finish)
  {
    if Contains(m.start + text, m.finish) {
      var j := Index(m.start + text, m.finish);
      AtStart(m.start, text, m.finish, j);
      Found(text, m.finish, j - |m.start|);
    }
  }

  lemma LinesFree(a: string, b: string, q: string)
    requires IsMarker(q) && !Contains(a, q) && !Contains(b, q)
    ensures !Contains(a + "\n" + b, q)
  {
    if Contains(a + "\n" + b, q) {
      var j := Index(a + "\n" + b, q);
      AtLines(a, b, q, j);
      if At(a, q, j) { Found(a, q, j); } else { Found(b, q, j - |a| - 1); }
    }
  }

  lemma StrayShape(m: Fence, a: string, after: string, text: string, t: string)
    ensures a + m.start + after + "\n" + Block(m, text) + t
         == a + m.start + ((after + "\n" + ("\n" + (m.start + text))) + m.finish + ("\n" + t))
  {
  }

  // --------------------------------------------------------- the main results

  /**
   Removing after injecting gives the cleaned text back, opened by exactly two
   newlines where the block stood, if and only if no unmatched start marker
   stands before that place.
   */
  lemma RemoveUndoesInject(m: Fence, content: string, text: string)
    requires Sound(m) && !Contains(text, m.finish)
    ensures Removed(m, Injected(m, content, text)) == Opened(m, Removed(m, content))
       <==> !Contains(Head(m, Removed(m, content)), m.start)
  {
    var cleaned := Removed(m, content);
    var h, t := Head(m, cleaned), Tail(m, cleaned);
    RemovedIsClean(m, content);
    HeadAndTail(m, cleaned);
    if Contains(h, m.start) {
      RemoveAfterStray(m, h, text, t);
    } else {
      RemoveInjected(m, h, text, t);
    }
  }

  lemma RemoveInjected(m: Fence, h: string, text: string, t: string)
    requires Sound(m) && !Contains(text, m.finish)
    requires !Contains(h, m.start) && Clean(m, t)
    ensures Removed(m, h + "\n" + Block(m, text) + t) == h + "\n" + ("\n" + t)
  {
    InjectedShape(m, h, text, t);
    FreeBeforeGap(h, m.start);
    RemoveInserted(m, h + "\n\n", text, t);
    OpenedIsClean(m, h, t);
    RemovedIsClean(m, h + "\n" + ("\n" + t));
  }

  predicate InjectedAt(m: Fence, h: string, text: string, t: string, q: string, i: int) {
    var k := |h| + 2 + |m.start|;
    || At(h, q, i)
    || (q == m.start && i == |h| + 2)
    || At(text, q, i - k)
    || (q == m.finish && i == k + |text|)
    || At(t, q, i - k - |text| - |m.finish| - 1)
  }

  /** Where a marker occurs after an injection: where it did, in the text, and in the block. */
  lemma AtInjected(m: Fence, h: string, text: string, t: string, q: string, i: int)
    requires Sound(m) && (q == m.start || q == m.finish)
    ensures At(h + "\n" + Block(m, text) + t, q, i) <==> InjectedAt(m, h, text, t, q, i)
  {
    var rest := text + m.finish + ("\n" + t);
    var k := i - |h| - 2 - |m.start|;
    InjectedShape(m, h, text, t);
    AtAround(h + "\n\n", m.start, rest, q, i);
    AtBeforeGap(h, q, i);
    AtAround(text, m.finish, "\n" + t, q, k);
    AtAfterLine(t, q, k - |text| - |m.finish|);
  }

  lemma AtBeforeGap(h: string, q: string, i: int)
    requires IsMarker(q)
    ensures At(h + "\n\n", q, i) <==> At(h, q, i)
  {
    assert h + "\n\n" == h + "\n" + ("\n" + "");
    AtGap(h, "", q, i);
  }

  lemma AtAfterLine(t: string, q: string, i: int)
    requires IsMarker(q)
    ensures At("\n" + t, q, i) <==> At(t, q, i - 1)
  {
    assert "" + "\n" + t == "\n" + t;
    AtLines("", t, q, i);
  }

  /** When no marker remains, an injection leaves exactly one block, the new one. */
  lemma ExactlyOneBlock(m: Fence, content: string, text: string)
    requires Sound(m) && !Contains(text, m.start) && !Contains(text, m.finish)
    requires var cleaned := Removed(m, content);
             !Contains(cleaned, m.start) && !Contains(cleaned, m.finish)
    ensures var h := Head(m, Removed(m, content));
            var injected := Injected(m, content, text);
            forall i :: && (At(injected, m.start, i) <==> i == |h| + 2)
                        && (At(injected, m.finish, i) <==> i == |h| + 2 + |m.start| + |text|)
  {
    var cleaned := Removed(m, content);
    var h, t := Head(m, cleaned), Tail(m, cleaned);
    PartsFree(m, cleaned, m.start);
    PartsFree(m, cleaned, m.finish);
    forall i
      ensures At(Injected(m, content, text), m.start, i) <==> i == |h| + 2
      ensures At(Injected(m, content, text), m.finish, i) <==> i == |h| + 2 + |m.start| + |text|
    {
      OnlyInBlock(m, h, text, t, m.start, i);
      OnlyInBlock(m, h, text, t, m.finish, i);
    }
  }

  lemma OnlyInBlock(m: Fence, h: string, text: string, t: string, q: string, i: int)
    requires Sound(m) && (q == m.start || q == m.finish)
    requires !Contains(h, q) && !Contains(text, q) && !Contains(t, q)
    ensures At(h + "\n" + Block(m, text) + t, q, i)
       <==> i == if q == m.start then |h| + 2 else |h| + 2 + |m.start| + |text|
  {
    AtInjected(m, h, text, t, q, i);
    Nowhere(h, q, i);
    Nowhere(text, q, i - |h| - 2 - |m.start|);
    Nowhere(t, q, i - |h| - 2 - |m.start| - |text| - |m.finish| - 1);
  }

  lemma Nowhere(s: string, q: string, i: int)
    requires !Contains(s, q)
    ensures !At(s, q, i)
  {
    if At(s, q, i) { Found(s, q, i); }
  }

  lemma PartsFree(m: Fence, cleaned: string, q: string)
    requires q != "" && !Contains(cleaned, q)
    ensures !Contains(Head(m, cleaned), q) && !Contains(Tail(m, cleaned), q)
  {
    if Contains(cleaned, m.anchor) {
      var h, t := Head(m, cleaned), Tail(m, cleaned);
      assert cleaned == h + t;
      PrefixFree(h, t, q);
      SuffixFree(h, t, q);
    } else {
      TrimRightShape(cleaned, Newline());
      var h := TrimRight(cleaned, Newline());
      assert cleaned == h + cleaned[|h|..];
      PrefixFree(h, cleaned[|h|..], q);
    }
  }

  /** Injecting leaves the head alone and puts two newlines before the tail. */
  lemma InjectAgain(m: Fence, content: string, text: string)
    requires Sound(m) && !Contains(text, m.finish)
    requires !Contains(Head(m, Removed(m, content)), m.start)
    ensures Around(m, Removed(m, Injected(m, content, text))) == Widened(Around(m, Removed(m, content)), 2)
  {
    var cleaned := Removed(m, content);
    RemoveUndoesInject(m, content, text);
    RemovedIsClean(m, content);
    HeadAndTail(m, cleaned);
    OpenedSame(m, cleaned);
  }

  /** The place of the block in a cleaned text. */
  datatype Place = Place(anchored: bool, head: string, tail: string)

  function Around(m: Fence, cleaned: string): Place {
    Place(Contains(cleaned, m.anchor), Head(m, cleaned), Tail(m, cleaned))
  }

  /** The same place with n more newlines after the anchor. */
  function Widened(p: Place, n: nat): Place {
    if p.anchored then p.(tail := Repeat('\n', n) + p.tail) else p
  }

  lemma WidenedTwice(p: Place, a: nat, b: nat)
    ensures Widened(p, 0) == p
    ensures Widened(Widened(p, a), b) == Widened(p, a + b)
  {
    assert Repeat('\n', 0) + p.tail == p.tail;
    assert Repeat('\n', b) + (Repeat('\n', a) + p.tail) == Repeat('\n', a + b) + p.tail;
  }

  lemma OpenedSame(m: Fence, cleaned: string)
    requires Sound(m) && !Contains(Tail(m, cleaned), m.anchor)
    ensures Around(m, Opened(m, cleaned)) == Widened(Around(m, cleaned), 2)
  {
    if Contains(cleaned, m.anchor) {
      var before, after := SplitAtLast(cleaned, m.anchor);
      OpenedAnchored(m, before, after);
      assert Repeat('\n', 2) == "\n\n";
    } else {
      OpenedPlain(m, cleaned);
    }
  }

  lemma OpenedAnchored(m: Fence, h: string, t: string)
    requires Sound(m) && !Contains(t, m.anchor)
    ensures var next := (h + m.anchor) + "\n" + ("\n" + t);
            Contains(next, m.anchor) && Head(m, next) == h + m.anchor && Tail(m, next) == "\n\n" + t
  {
    var next := (h + m.anchor) + "\n" + ("\n" + t);
    assert next == h + m.anchor + ("\n\n" + t);
    GapFree(t, m.anchor);
    LastMarker(h, m.anchor, "\n\n" + t);
  }

  lemma GapFree(t: string, q: string)
    requires IsMarker(q) && !Contains(t, q)
    ensures !Contains("\n\n" + t, q)
  {
    var s := "\n\n" + t;
    assert s == "" + "\n" + ("\n" + t);
    if Contains(s, q) {
      AtGap("", t, q, Index(s, q));
      Found(t, q, Index(s, q) - 2);
    }
  }

  lemma OpenedPlain(m: Fence, cleaned: string)
    requires Sound(m) && !Contains(cleaned, m.anchor)
    ensures var h := TrimRight(cleaned, Newline());
            var next := h + "\n" + ("\n" + "");
            !Contains(next, m.anchor) && TrimRight(next, Newline()) == h
  {
    var h := TrimRight(cleaned, Newline());
    PartsFree(m, cleaned, m.anchor);
    FreeBeforeGap(h, m.anchor);
    assert h + "\n" + ("\n" + "") == h + "\n\n";
    TrimRightUnique(h, "\n\n", Newline());
    TrimRightTwice(cleaned, Newline());
  }

  /** The texts of one document over a run of injections. */
  ghost predicate InjectionRun(m: Fence, docs: seq<string>, texts: seq<string>)
    requires m.finish != ""
  {
    && |docs| == |texts| + 1
    && forall k :: 0 <= k < |texts| ==> docs[k + 1] == Injected(m, docs[k], texts[k])
  }

  /**
   After any number of injections only the last block remains, and each one
   before it has left two newlines. Without an anchor they leave nothing, so
   injecting is idempotent there.
   */
  lemma InjectMany(m: Fence, docs: seq<string>, texts: seq<string>)
    requires Sound(m) && texts != [] && InjectionRun(m, docs, texts)
    requires forall k :: 0 <= k < |texts| ==> !Contains(texts[k], m.finish)
    requires !Contains(Head(m, Removed(m, docs[0])), m.start)
    ensures var place := Widened(Around(m, Removed(m, docs[0])), 2 * (|texts| - 1));
            docs[|texts|] == place.head + "\n" + Block(m, texts[|texts| - 1]) + place.tail
  {
    var places := seq(|docs|, k requires 0 <= k < |docs| => Around(m, Removed(m, docs[k])));
    forall k | 0 <= k < |texts| && !Contains(places[k].head, m.start)
      ensures places[k + 1] == Widened(places[k], 2)
    {
      InjectAgain(m, docs[k], texts[k]);
    }
    Widening(m, places, |texts| - 1);
    assert docs[|texts| - 1 + 1] == Injected(m, docs[|texts| - 1], texts[|texts| - 1]);
  }

  lemma {:induction false} Widening(m: Fence, places: seq<Place>, k: nat)
    requires k < |places| && !Contains(places[0].head, m.start)
    requires forall j :: 0 <= j < |places| - 1 && !Contains(places[j].head, m.start)
                         ==> places[j + 1] == Widened(places[j], 2)
    ensures places[k] == Widened(places[0], 2 * k)
  {
    if k == 0 {
      WidenedTwice(places[0], 0, 0);
    } else {
      Widening(m, places, k - 1);
      WidenedTwice(places[0], 2 * (k - 1), 2);
      assert places[k - 1 + 1] == Widened(places[k - 1], 2);
    }
  }

  // ------------------------------------------------------- coordinator lists

  /** The ids a block lists: without the excluded and empty ones, each at its first place. */
  function Unique(ids: seq<string>, exclude: string): seq<string> {
    if ids == [] then []
    else
      var rest := Unique(ids[..|ids| - 1], exclude);
      var id := ids[|ids| - 1];
      if id == "" || id == exclude || id in rest then rest else rest + [id]
  }

  method UniqueCoordinationIDs(ids: seq<string>, exclude: string) returns (list: seq<string>)
    ensures list == Unique(ids, exclude)
  {
    var seen := map[];
    list := [];
    for k := 0 to |ids|
      invariant list == Unique(ids[..k], exclude)
      invariant forall id :: id in seen <==> id in list
    {
      var id := ids[k];
      assert ids[..k + 1][..k] == ids[..k];
      if id == "" || id == exclude { continue; }
      if id in seen { continue; }
      seen := seen[id := ()];
      list := list + [id];
    }
    assert ids[..|ids|] == ids;
  }

  function FirstPlace(ids: seq<string>, id: string): (k: nat)
    requires id in ids
    ensures k < |ids| && ids[k] == id && id !in ids[..k]
  {
    if ids[0] == id then 0
    else
      var k := FirstPlace(ids[1..], id) + 1;
      assert ids[..k] == [ids[0]] + ids[1..][..k - 1];
      k
  }

  /** The list holds exactly the eligible ids, each once, in the order of their first places. */
  lemma {:induction false} UniqueIsExact(ids: seq<string>, exclude: string)
    ensures forall id :: id in Unique(ids, exclude) <==> id in ids && id != "" && id != exclude
    ensures InOrder(ids, Unique(ids, exclude))
  {
    if ids != [] {
      var n := |ids| - 1;
      UniqueIsExact(ids[..n], exclude);
      assert ids == ids[..n] + [ids[n]];
      UniqueOrder(ids, Unique(ids[..n], exclude), Unique(ids, exclude));
    }
  }

  /** The ids of a list come in the order of their first places, so no id comes twice. */
  ghost predicate InOrder(ids: seq<string>, list: seq<string>) {
    && (forall i :: 0 <= i < |list| ==> list[i] in ids)
    && (forall i, j :: 0 <= i < j < |list| ==> FirstPlace(ids, list[i]) < FirstPlace(ids, list[j]))
  }

  lemma UniqueOrder(ids: seq<string>, rest: seq<string>, list: seq<string>)
    requires ids != [] && InOrder(ids[..|ids| - 1], rest)
    requires list == rest || (list == rest + [ids[|ids| - 1]] && ids[|ids| - 1] !in rest)
    requires list != rest ==> ids[|ids| - 1] !in ids[..|ids| - 1]
    ensures InOrder(ids, list)
  {
    var n := |ids| - 1;
    assert ids == ids[..n] + [ids[n]];
    if list != rest {
      FirstPlaceIsOnly(ids, ids[n], n);
    }
    forall i, j | 0 <= i < j < |list|
      ensures FirstPlace(ids, list[i]) < FirstPlace(ids, list[j])
    {
      SamePlace(ids, rest[i]);
      if j < |rest| { SamePlace(ids, rest[j]); }
    }
  }

  lemma FirstPlaceIsOnly(ids: seq<string>, id: string, k: nat)
    requires k < |ids| && ids[k] == id && id !in ids[..k]
    ensures FirstPlace(ids, id) == k
  {
    var l := FirstPlace(ids, id);
    assert forall x :: 0 <= x < k ==> ids[..k][x] == ids[x];
    assert forall x :: 0 <= x < l ==> ids[..l][x] == ids[x];
  }

  lemma SamePlace(ids: seq<string>, id: string)
    requires ids != [] && id in ids[..|ids| - 1]
    ensures FirstPlace(ids, id) == FirstPlace(ids[..|ids| - 1], id) < |ids| - 1
  {
    var k := FirstPlace(ids[..|ids| - 1], id);
    assert ids[..|ids| - 1][..k] == ids[..k];
    FirstPlaceIsOnly(ids, id, k);
  }
}
