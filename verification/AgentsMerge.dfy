/**
 The marker-managed documents: AGENTS.md, whose builtin section is replaced on
 every reconcile, and SOUL.md, whose template section is. Everything after the
 last end marker belongs to the user and has to survive. The end marker is also
 quoted inside the header, so only its last occurrence ends the section.
 */
module AgentsMerge {
  import opened Text

  /** A managed section: its two markers and the header that opens it. */
  datatype Markers = Markers(start: string, finish: string, notice: string)

  /** The header is the start marker and a notice, which quotes the end marker. */
  function Header(m: Markers): string {
    m.start + m.notice
  }

  function Notice(finish: string): string {
    Warning() + finish + "` marker below.\n"
  }

  function Warning(): string {
    "\n> \U{26A0}\U{FE0F} **DO NOT EDIT** this section. It is managed by AgentTeams and will be automatically\n"
    + "> replaced on upgrade. To customize, add your content **after** the\n"
    + "> `"
  }

  const BUILTIN_START := "<!-- agentteams-builtin-start -->"
  const BUILTIN_END := "<!-- agentteams-builtin-end -->"
  const SOUL_START := "<!-- agentteams-soul-template-start -->"
  const SOUL_END := "<!-- agentteams-soul-template-end -->"

  function Builtin(): Markers {
    Markers(BUILTIN_START, BUILTIN_END, Notice(BUILTIN_END))
  }

  function Soul(): Markers {
    Markers(SOUL_START, SOUL_END, Notice(SOUL_END))
  }

  /** A one-line marker whose first character occurs nowhere else in it. */
  predicate IsMarker(s: string) {
    && |s| >= 2 && s[0] != '\n'
    && forall i :: 0 < i < |s| ==> s[i] != s[0] && s[i] != '\n'
  }

  /** All that the proofs need of the markers; the notice may say anything. */
  predicate Good(m: Markers) {
    IsMarker(m.start) && IsMarker(m.finish)
  }

  lemma BuiltinStartIsMarker()
    ensures IsMarker(BUILTIN_START)
  {
  }

  lemma BuiltinEndIsMarker()
    ensures IsMarker(BUILTIN_END)
  {
  }

  lemma SoulStartIsMarker()
    ensures IsMarker(SOUL_START)
  {
  }

  lemma SoulEndIsMarker()
    ensures IsMarker(SOUL_END)
  {
  }

  lemma MarkersAreGood()
    ensures Good(Builtin()) && Good(Soul())
  {
    BuiltinStartIsMarker();
    BuiltinEndIsMarker();
    SoulStartIsMarker();
    SoulEndIsMarker();
  }

  // ------------------------------------------------------------- frontmatter

  predicate IsFence(line: string) {
    TrimSpace(line) == "---"
  }

  /** The first fence at or after line i, or |lines|. */
  function NextFence(lines: seq<string>, i: nat): (k: nat)
    requires i <= |lines|
    ensures i <= k <= |lines|
    ensures forall j :: i <= j < k ==> !IsFence(lines[j])
    ensures k < |lines| ==> IsFence(lines[k])
    decreases |lines| - i
  {
    if i == |lines| || IsFence(lines[i]) then i else NextFence(lines, i + 1)
  }

  function Frontmatter(content: string): (string, string) {
    var lines := Split(content);
    if !IsFence(lines[0]) then ("", content)
    else
      var k := NextFence(lines, 1);
      if k == |lines| then ("", content)
      else (Join(lines[..k + 1]), TrimLeft(Join(lines[k + 1..]), Newline()))
  }

  /** The content opens with a line of three dashes and has another one: where the first such line is. */
  ghost predicate Fenced(lines: seq<string>, k: int) {
    && 1 <= k < |lines|
    && TrimSpace(lines[0]) == "---" && TrimSpace(lines[k]) == "---"
    && forall j :: 1 <= j < k ==> TrimSpace(lines[j]) != "---"
  }

  method ExtractFrontmatter(content: string) returns (front: string, body: string)
    ensures (front, body) == Frontmatter(content)
    ensures forall k :: Fenced(Split(content), k) ==>
                          && front == Join(Split(content)[..k + 1])
                          && body == TrimLeft(Join(Split(content)[k + 1..]), Newline())
    ensures !(exists k :: Fenced(Split(content), k)) ==> front == "" && body == content
  {
    FrontmatterCases(content);
    var lines := Split(content);
    if !IsFence(lines[0]) {
      return "", content;
    }
    var i := 1;
    while i < |lines|
      invariant 1 <= i <= |lines|
      invariant NextFence(lines, 1) == NextFence(lines, i)
    {
      if IsFence(lines[i]) {
        front := Join(lines[..i + 1]);
        body := "";
        if i + 1 < |lines| {
          body := Join(lines[i + 1..]);
        }
        return front, TrimLeft(body, Newline());
      }
      i := i + 1;
    }
    return "", content;
  }

  /** Where the frontmatter ends: at the second line of dashes; without one there is none. */
  lemma FrontmatterCases(content: string)
    ensures forall k :: Fenced(Split(content), k) ==>
                          Frontmatter(content) == (Join(Split(content)[..k + 1]),
                                                   TrimLeft(Join(Split(content)[k + 1..]), Newline()))
    ensures !(exists k :: Fenced(Split(content), k)) ==> Frontmatter(content) == ("", content)
  {
    var lines := Split(content);
    forall k | Fenced(lines, k)
      ensures NextFence(lines, 1) == k
    {
      assert IsFence(lines[k]);
    }
    if IsFence(lines[0]) && NextFence(lines, 1) < |lines| {
      assert Fenced(lines, NextFence(lines, 1));
    }
  }

  /**
   A text of lines is cut behind its frontmatter: the fences and what is between
   them in front, and behind them the rest without the newlines it begins with.
   */
  lemma FrontmatterIsCut(open: string, inner: seq<string>, close: string, rest: seq<string>)
    requires TrimSpace(open) == "---" && TrimSpace(close) == "---"
    requires forall line :: line in inner ==> TrimSpace(line) != "---"
    requires forall line :: line in [open] + inner + [close] + rest ==> '\n' !in line
    ensures Frontmatter(Join([open] + inner + [close] + rest))
         == (Join([open] + inner + [close]), TrimLeft(Join(rest), Newline()))
  {
    var front := [open] + inner + [close];
    var lines := front + rest;
    forall k | 0 <= k < |lines|
      ensures '\n' !in lines[k]
    {
      assert lines[k] in lines;
    }
    SplitJoin(lines);
    FrontmatterCases(Join(lines));
    var k := |inner| + 1;
    assert lines[0] == open && lines[k] == close;
    assert forall j :: 1 <= j < k ==> lines[j] == inner[j - 1];
    assert Fenced(lines, k);
    assert lines[..k + 1] == front && lines[k + 1..] == rest;
  }

  /** The two parts and the newlines trimmed between them are the whole text. */
  lemma FrontmatterReassembles(content: string) returns (gap: string)
    ensures Frontmatter(content).0 + gap + Frontmatter(content).1 == content
    ensures All(gap, Newline())
    ensures Frontmatter(content).0 == "" ==> gap == ""
    ensures Frontmatter(content).0 != "" && Frontmatter(content).1 != ""
        ==> gap != "" && Frontmatter(content).1[0] != '\n'
  {
    gap := "";
    var lines := Split(content);
    JoinSplit(content);
    var k := NextFence(lines, 1);
    if IsFence(lines[0]) && k < |lines| {
      FenceIsNotEmpty(lines[..k + 1]);
      assert lines == lines[..k + 1] + lines[k + 1..];
      gap := FenceGap(lines[..k + 1], lines[k + 1..]);
    }
  }

  lemma FenceGap(front: seq<string>, rest: seq<string>) returns (gap: string)
    requires front != []
    ensures Join(front + rest) == Join(front) + gap + TrimLeft(Join(rest), Newline())
    ensures All(gap, Newline())
    ensures TrimLeft(Join(rest), Newline()) != ""
        ==> gap != "" && TrimLeft(Join(rest), Newline())[0] != '\n'
  {
    var text := Join(rest);
    var body := TrimLeft(text, Newline());
    TrimLeftShape(text, Newline());
    if rest == [] {
      gap := "";
      assert front + rest == front;
    } else {
      var cut := text[..|text| - |body|];
      gap := "\n" + cut;
      JoinAppend(front, rest);
      GapRegroup(Join(front), cut, body);
    }
  }

  lemma GapRegroup(front: string, cut: string, body: string)
    ensures front + "\n" + (cut + body) == front + ("\n" + cut) + body
  {
  }

  lemma FenceIsNotEmpty(lines: seq<string>)
    requires |lines| >= 2
    ensures Join(lines) != ""
  {
  }

  // ------------------------------------------------------- wrap and extract

  /** What wrapping puts before the end marker. */
  function Preamble(m: Markers, body: string): string {
    Header(m) + "\n" + TrimRight(body, Newline()) + "\n\n"
  }

  function UserPart(user: string): string {
    if user == "" then "" else "\n" + TrimRight(user, Newline()) + "\n"
  }

  function Wrapped(m: Markers, body: string, user: string): string {
    Preamble(m, body) + m.finish + ("\n" + UserPart(user))
  }

  /** The text after an end marker, or nothing when it is blank. */
  function Visible(after: string): string {
    var text := TrimLeft(after, Newline());
    if TrimSpace(text) == "" then "" else text
  }

  function UserContent(m: Markers, target: string): string {
    var i := LastIndex(target, m.finish);
    if i < 0 then "" else Visible(target[i + |m.finish|..])
  }

  function Merged(m: Markers, target: string, body: string): string {
    if target == "" then Wrapped(m, body, "")
    else if Contains(target, m.start) then Wrapped(m, body, UserContent(m, target))
    else Wrapped(m, body, target)
  }

  method Wrap(m: Markers, body: string, user: string) returns (text: string)
    ensures text == Wrapped(m, body, user)
  {
    text := Header(m);
    text := text + "\n";
    text := text + TrimRight(body, Newline());
    text := text + "\n\n";
    text := text + m.finish;
    text := text + "\n";
    if user != "" {
      text := text + "\n";
      text := text + TrimRight(user, Newline());
      text := text + "\n";
    }
  }

  method MergeBuiltinSection(target: string, source: string) returns (text: string)
    ensures text == Merged(Builtin(), target, Frontmatter(source).1)
  {
    var _, body := ExtractFrontmatter(source);
    if target == "" {
      text := Wrap(Builtin(), body, "");
    } else if Contains(target, Builtin().start) {
      text := Wrap(Builtin(), body, UserContent(Builtin(), target));
    } else {
      text := Wrap(Builtin(), body, target);
    }
  }

  method MergeSoulTemplate(target: string, rendered: string) returns (text: string)
    ensures text == Merged(Soul(), target, rendered)
  {
    if target == "" {
      text := Wrap(Soul(), rendered, "");
    } else if Contains(target, Soul().start) {
      text := Wrap(Soul(), rendered, UserContent(Soul(), target));
    } else {
      text := Wrap(Soul(), rendered, target);
    }
  }

  // ------------------------------------------------- occurrences of a marker

  /** Two occurrences of a marker, or of two with one first character, never overlap. */
  lemma NoOverlap(s: string, p: string, q: string, i: int, j: int)
    requires IsMarker(p) && IsMarker(q) && p[0] == q[0]
    requires At(s, p, i) && At(s, q, j) && i < j
    ensures i + |p| <= j
  {
    if j < i + |p| {
      AtChars(s, p, i, j - i);
      AtChars(s, q, j, 0);
      assert false;
    }
  }

  /** No occurrence reaches across a newline. */
  lemma NoNewlineInside(s: string, p: string, i: int, k: nat)
    requires IsMarker(p) && At(s, p, i) && k < |s| && s[k] == '\n'
    ensures k < i || i + |p| <= k
  {
    if i <= k < i + |p| {
      AtChars(s, p, i, k - i);
      assert false;
    }
  }

  lemma TrimmedKeeps(s: string, k: nat)
    requires k < |s| && s[k] != '\n'
    ensures k < |TrimRight(s, Newline())|
  {
    TrimRightShape(s, Newline());
    var t := TrimRight(s, Newline());
    assert forall i :: |t| <= i < |s| ==> s[i] == s[|t|..][i - |t|];
  }

  /** Trimming newlines keeps exactly the occurrences of a marker. */
  lemma AtTrimmed(s: string, p: string, i: int)
    requires IsMarker(p)
    ensures At(TrimRight(s, Newline()), p, i) <==> At(s, p, i)
  {
    TrimRightShape(s, Newline());
    var t := TrimRight(s, Newline());
    if At(s, p, i) {
      AtChars(s, p, i, |p| - 1);
      TrimmedKeeps(s, i + |p| - 1);
      assert t[i..i + |p|] == s[i..i + |p|];
    }
    if At(t, p, i) {
      assert t[i..i + |p|] == s[i..i + |p|];
    }
  }

  /** The last marker of a text that ends in a marker-free part. */
  lemma LastMarker(head: string, p: string, tail: string)
    requires IsMarker(p)
    requires !Contains(tail, p)
    ensures Contains(head + p + tail, p)
    ensures LastIndex(head + p + tail, p) == |head|
  {
    var s := head + p + tail;
    AtMid(head, p, tail);
    Found(s, p, |head|);
    var j := LastIndex(s, p);
    if |head| < j {
      NoOverlap(s, p, p, |head|, j);
      AtSuffix(head + p, tail, p, j);
      Found(tail, p, j - |head| - |p|);
    }
  }

  lemma AtSuffix(a: string, b: string, p: string, i: int)
    requires |a| <= i
    ensures At(a + b, p, i) <==> At(b, p, i - |a|)
  {
    if i + |p| <= |a| + |b| {
      assert (a + b)[i..i + |p|] == b[i - |a|..i - |a| + |p|];
    }
  }

  lemma AtPrefix(a: string, b: string, p: string, i: int)
    requires i + |p| <= |a|
    ensures At(a + b, p, i) <==> At(a, p, i)
  {
    if 0 <= i {
      assert (a + b)[i..i + |p|] == a[i..i + |p|];
    }
  }

  lemma SuffixFree(a: string, b: string, p: string)
    requires !Contains(a + b, p)
    ensures !Contains(b, p)
  {
    if Contains(b, p) {
      var j := Index(b, p);
      AtSuffix(a, b, p, |a| + j);
      Found(a + b, p, |a| + j);
    }
  }

  lemma PrefixFree(a: string, b: string, p: string)
    requires !Contains(a + b, p)
    ensures !Contains(a, p)
  {
    if Contains(a, p) {
      var j := Index(a, p);
      AtPrefix(a, b, p, j);
      Found(a + b, p, j);
    }
  }

  /** A text splits at its last marker; what follows holds none. */
  lemma SplitAtLast(s: string, p: string) returns (before: string, after: string)
    requires IsMarker(p) && Contains(s, p)
    ensures s == before + p + after
    ensures !Contains(after, p)
    ensures LastIndex(s, p) == |before|
    ensures s[LastIndex(s, p) + |p|..] == after && s[..LastIndex(s, p) + |p|] == before + p
  {
    Found(s, p, Index(s, p));
    var i := LastIndex(s, p);
    before, after := s[..i], s[i + |p|..];
    assert s[i..i + |p|] == p;
    assert s == (before + p) + after;
    if Contains(after, p) {
      var j := |before + p| + Index(after, p);
      AtSuffix(before + p, after, p, j);
      assert At(s, p, j);
      Found(s, p, j);
    }
  }

  // -------------------------------------------- what a merge keeps of a text

  /** A user text as the next merge finds it: its final newlines become one. */
  function Normal(user: string): string {
    if user == "" then "" else TrimRight(user, Newline()) + "\n"
  }

  /** The part of a text placed after the section that the next merge keeps. */
  function Kept(m: Markers, user: string): string {
    if Contains(user, m.finish) then UserContent(m, user) else Visible(user)
  }

  lemma TrimSpaceVersusNewline(s: string)
    ensures All(s, Newline()) ==> TrimSpace(s) == ""
    ensures TrimSpace(s) != "" ==> TrimRight(s, Newline()) != ""
  {
    TrimSpaceEmpty(s);
    TrimRightShape(s, Newline());
    assert s == TrimRight(s, Newline()) + s[|TrimRight(s, Newline())|..];
  }

  /** What is visible does not depend on the number of final newlines. */
  lemma VisibleNormal(after: string)
    ensures Visible(TrimRight(after, Newline()) + "\n") == Normal(Visible(after))
  {
    var core := TrimRight(after, Newline());
    TrimRightShape(after, Newline());
    var cut := after[|core|..];
    assert after == core + cut;
    TrimRightTwice(after, Newline());
    if core == "" {
      assert core + "\n" == "\n" && after == cut;
      VisibleBlank("\n");
      VisibleBlank(cut);
    } else {
      VisibleOf(core, "\n");
      VisibleOf(core, cut);
    }
  }

  lemma VisibleBlank(cut: string)
    requires All(cut, Newline())
    ensures Visible(cut) == ""
  {
    TrimLeftEmpty(cut, Newline());
    TrimSpaceEmpty("");
  }

  /** Trimming the left of a text that ends in a visible character leaves its end alone. */
  lemma VisibleOf(core: string, cut: string)
    requires core != "" && TrimRight(core, Newline()) == core
    requires All(cut, Newline())
    ensures var text := TrimLeft(core, Newline());
            && Visible(core + cut) == (if TrimSpace(text) == "" then "" else text + cut)
            && TrimRight(text + cut, Newline()) == text
            && text != ""
  {
    var nl := Newline();
    var head, text := SolidCore(core);
    assert core + cut == head + (text + cut);
    TrimLeftUnique(head, text + cut, nl);
    TrimRightUnique(text, cut, nl);
    BlankCore(text, cut);
  }

  lemma SolidCore(core: string) returns (head: string, text: string)
    requires core != "" && TrimRight(core, Newline()) == core
    ensures core == head + text && All(head, Newline())
    ensures text == TrimLeft(core, Newline()) != "" && text[0] != '\n'
    ensures TrimRight(text, Newline()) == text
  {
    TrimLeftShape(core, Newline());
    TrimRightShape(core, Newline());
    text := TrimLeft(core, Newline());
    head := core[..|core| - |text|];
    assert head != "" ==> head[|head| - 1] == core[|head| - 1];
    assert core == head + text;
  }

  lemma BlankCore(text: string, cut: string)
    requires All(cut, Newline())
    ensures TrimSpace(text + cut) == "" <==> TrimSpace(text) == ""
  {
    TrimSpaceEmpty(text);
    TrimSpaceEmpty(text + cut);
    if All(text + cut, c => IsSpace(c)) {
      forall i | 0 <= i < |text|
        ensures IsSpace(text[i])
      {
        assert (text + cut)[i] == text[i];
      }
    }
  }

  lemma UserContentAfter(m: Markers, before: string, after: string)
    requires Good(m) && !Contains(after, m.finish)
    ensures UserContent(m, before + m.finish + after) == Visible(after)
  {
    LastMarker(before, m.finish, after);
    assert (before + m.finish + after)[|before| + |m.finish|..] == after;
  }

  /** What a wrapped document gives back of the text it was given, for any text. */
  lemma ExtractWrapped(m: Markers, body: string, user: string)
    requires Good(m)
    ensures UserContent(m, Wrapped(m, body, user)) == Normal(Kept(m, user))
  {
    var head := Preamble(m, body);
    if Contains(user, m.finish) {
      ExtractQuoted(m, head, user);
    } else {
      ExtractPlain(m, head, user);
    }
  }

  lemma ExtractPlain(m: Markers, head: string, user: string)
    requires Good(m) && !Contains(user, m.finish)
    ensures UserContent(m, head + m.finish + ("\n" + UserPart(user))) == Normal(Visible(user))
  {
    FreeTail(user, m.finish);
    var tail := "\n" + UserPart(user);
    UserContentAfter(m, head, tail);
    if user == "" {
      VisibleBlank(tail);
      VisibleBlank(user);
    } else {
      var core := TrimRight(user, Newline());
      assert tail == "\n\n" + (core + "\n");
      TrimLeftUnique("\n\n", core + "\n", Newline());
      VisibleNormal(user);
    }
  }

  /** A text that quotes the end marker itself is cut at its last quotation. */
  lemma ExtractQuoted(m: Markers, head: string, user: string)
    requires Good(m) && Contains(user, m.finish)
    ensures UserContent(m, head + m.finish + ("\n" + UserPart(user))) == Normal(UserContent(m, user))
  {
    var before, after := SplitAtLast(user, m.finish);
    assert UserContent(m, user) == Visible(after);
    TrimmedSplit(before, m.finish, after);
    ExtractAt(m, head, user, before, after);
  }

  /** Trimming behind a marker only trims what follows it. */
  lemma TrimmedSplit(before: string, p: string, after: string)
    requires IsMarker(p) && !Contains(after, p)
    ensures TrimRight(before + p + after, Newline()) == before + p + TrimRight(after, Newline())
    ensures !Contains(TrimRight(after, Newline()), p)
  {
    var nl := Newline();
    var rest := TrimRight(after, nl);
    TrimRightShape(after, nl);
    var cut := after[|rest|..];
    assert after == rest + cut;
    PrefixFree(rest, cut, p);
    assert before + p + after == (before + p + rest) + cut;
    TrimRightUnique(before + p + rest, cut, nl);
    var solid := before + p + rest;
    assert solid[|solid| - 1] == if rest == "" then p[|p| - 1] else rest[|rest| - 1];
  }

  lemma ExtractAt(m: Markers, head: string, user: string, before: string, after: string)
    requires Good(m) && user != ""
    requires var rest := TrimRight(after, Newline());
             TrimRight(user, Newline()) == before + m.finish + rest && !Contains(rest, m.finish)
    ensures UserContent(m, head + m.finish + ("\n" + UserPart(user))) == Normal(Visible(after))
  {
    var rest := TrimRight(after, Newline());
    RegroupUser(m, head, user, before, rest);
    TailOfLine(rest, m.finish);
    UserContentAfter(m, head + m.finish + "\n\n" + before, rest + "\n");
    VisibleNormal(after);
  }

  lemma RegroupUser(m: Markers, head: string, user: string, before: string, rest: string)
    requires user != "" && TrimRight(user, Newline()) == before + m.finish + rest
    ensures head + m.finish + ("\n" + UserPart(user))
         == head + m.finish + "\n\n" + before + m.finish + (rest + "\n")
  {
  }

  lemma TailOfLine(rest: string, p: string)
    requires IsMarker(p) && !Contains(rest, p)
    ensures !Contains(rest + "\n", p)
  {
    if Contains(rest + "\n", p) {
      var j := Index(rest + "\n", p);
      NoNewlineInside(rest + "\n", p, j, |rest|);
      AtPrefix(rest, "\n", p, j);
      Found(rest, p, j);
    }
  }

  lemma LineBefore(rest: string, p: string)
    requires IsMarker(p) && !Contains(rest, p)
    ensures !Contains("\n" + rest, p)
  {
    var s := "\n" + rest;
    if Contains(s, p) {
      var j := Index(s, p);
      NoNewlineInside(s, p, j, 0);
      AtSuffix("\n", rest, p, j);
      Found(rest, p, j - 1);
    }
  }

  lemma FreeTail(user: string, p: string)
    requires IsMarker(p) && !Contains(user, p)
    ensures !Contains("\n" + UserPart(user), p)
  {
    if user == "" {
      LineBefore("", p);
    } else {
      var core := TrimRight(user, Newline());
      TrimRightShape(user, Newline());
      assert user == core + user[|core|..];
      PrefixFree(core, user[|core|..], p);
      TailOfLine(core, p);
      LineBefore(core + "\n", p);
      LineBefore("\n" + (core + "\n"), p);
      assert UserPart(user) == "\n" + (core + "\n");
    }
  }

  // --------------------------------------------------------- the main results

  lemma MergedHasStart(m: Markers, target: string, body: string)
    requires Good(m)
    ensures Merged(m, target, body) != ""
    ensures Contains(Merged(m, target, body), m.start)
  {
    var text := Merged(m, target, body);
    assert Header(m)[..|m.start|] == m.start;
    assert text[0..|m.start|] == m.start;
    Found(text, m.start, 0);
  }

  /** A text without the newlines around it. */
  function Bare(text: string): string {
    TrimRight(TrimLeft(text, Newline()), Newline())
  }

  /** What a reader finds in the managed section: the text from the header to the next end marker. */
  function SectionOf(m: Markers, doc: string): string
    requires |Header(m)| <= |doc|
  {
    var rest := doc[|Header(m)|..];
    var i := Index(rest, m.finish);
    if i < 0 then "" else Bare(rest[..i])
  }

  /** Every merge installs its source: the section reads as the source's body, whatever the target was. */
  lemma SectionIsSource(m: Markers, target: string, body: string)
    requires Good(m) && !Contains(body, m.finish)
    ensures |Header(m)| <= |Merged(m, target, body)|
    ensures SectionOf(m, Merged(m, target, body)) == Bare(body)
  {
    var user := if target == "" then ""
                else if Contains(target, m.start) then UserContent(m, target) else target;
    SectionOfWrapped(m, body, user);
  }

  lemma BareBody(text: string)
    ensures Bare(TrimLeft(text, Newline())) == Bare(text)
  {
    TrimLeftShape(text, Newline());
  }

  lemma BodyIsFree(text: string, p: string)
    requires !Contains(text, p)
    ensures !Contains(TrimLeft(text, Newline()), p)
  {
    var body := TrimLeft(text, Newline());
    TrimLeftShape(text, Newline());
    assert text == text[..|text| - |body|] + body;
    SuffixFree(text[..|text| - |body|], body, p);
  }

  /** The section of a merge holds the source without its frontmatter and the newlines around it. */
  lemma SectionIsBody(m: Markers, target: string, open: string, inner: seq<string>, close: string, rest: seq<string>)
    requires Good(m) && TrimSpace(open) == "---" && TrimSpace(close) == "---"
    requires forall line :: line in inner ==> TrimSpace(line) != "---"
    requires forall line :: line in [open] + inner + [close] + rest ==> '\n' !in line
    requires !Contains(Join(rest), m.finish)
    ensures var text := Merged(m, target, Frontmatter(Join([open] + inner + [close] + rest)).1);
            |Header(m)| <= |text| && SectionOf(m, text) == Bare(Join(rest))
  {
    FrontmatterIsCut(open, inner, close, rest);
    BodyIsFree(Join(rest), m.finish);
    SectionIsSource(m, target, TrimLeft(Join(rest), Newline()));
    BareBody(Join(rest));
  }

  /** A source without frontmatter goes into the section as a whole. */
  lemma SectionIsWhole(m: Markers, target: string, source: string)
    requires Good(m) && !Contains(source, m.finish)
    requires forall k :: !Fenced(Split(source), k)
    ensures var text := Merged(m, target, Frontmatter(source).1);
            |Header(m)| <= |text| && SectionOf(m, text) == Bare(source)
  {
    FrontmatterCases(source);
    SectionIsSource(m, target, source);
  }

  /** What `MergeBuiltinSection` installs from a source with frontmatter. */
  lemma BuiltinSectionIsBody(target: string, open: string, inner: seq<string>, close: string, rest: seq<string>)
    requires TrimSpace(open) == "---" && TrimSpace(close) == "---"
    requires forall line :: line in inner ==> TrimSpace(line) != "---"
    requires forall line :: line in [open] + inner + [close] + rest ==> '\n' !in line
    requires !Contains(Join(rest), Builtin().finish)
    ensures var text := Merged(Builtin(), target, Frontmatter(Join([open] + inner + [close] + rest)).1);
            |Header(Builtin())| <= |text| && SectionOf(Builtin(), text) == Bare(Join(rest))
  {
    MarkersAreGood();
    SectionIsBody(Builtin(), target, open, inner, close, rest);
  }

  lemma SectionOfWrapped(m: Markers, body: string, user: string)
    requires Good(m) && !Contains(body, m.finish)
    ensures |Header(m)| <= |Wrapped(m, body, user)|
    ensures SectionOf(m, Wrapped(m, body, user)) == Bare(body)
  {
    var inner := "\n" + TrimRight(body, Newline()) + "\n\n";
    SourceFree(body, m.finish);
    BareInner(body);
    SectionAt(m, inner, "\n" + UserPart(user));
    WrappedShape(m, body, user);
  }

  lemma WrappedShape(m: Markers, body: string, user: string)
    ensures Wrapped(m, body, user)
         == Header(m) + (("\n" + TrimRight(body, Newline()) + "\n\n") + m.finish + ("\n" + UserPart(user)))
  {
  }

  lemma SectionAt(m: Markers, inner: string, after: string)
    requires Good(m) && !Contains(inner, m.finish)
    ensures SectionOf(m, Header(m) + (inner + m.finish + after)) == Bare(inner)
  {
    var rest := inner + m.finish + after;
    FirstMarker(inner, m.finish, after);
    assert (Header(m) + rest)[|Header(m)|..] == rest;
    assert rest[..|inner|] == inner;
  }

  lemma SourceFree(body: string, p: string)
    requires IsMarker(p) && !Contains(body, p)
    ensures !Contains("\n" + TrimRight(body, Newline()) + "\n\n", p)
  {
    var core := TrimRight(body, Newline());
    TrimRightShape(body, Newline());
    assert body == core + body[|core|..];
    PrefixFree(core, body[|core|..], p);
    LineBefore(core, p);
    TailOfLine("\n" + core, p);
    TailOfLine("\n" + core + "\n", p);
    assert "\n" + core + "\n" + "\n" == "\n" + core + "\n\n";
  }

  /** The first marker behind a marker-free text. */
  lemma FirstMarker(a: string, p: string, b: string)
    requires IsMarker(p) && !Contains(a, p)
    ensures Index(a + p + b, p) == |a|
  {
    var s := a + p + b;
    AtMid(a, p, b);
    Found(s, p, |a|);
    var j := Index(s, p);
    if j < |a| {
      NoOverlap(s, p, p, j, |a|);
      assert s == a + (p + b);
      AtPrefix(a, p + b, p, j);
      Found(a, p, j);
    }
  }

  lemma BareInner(body: string)
    ensures Bare("\n" + TrimRight(body, Newline()) + "\n\n") == Bare(body)
  {
    var nl := Newline();
    var core := TrimRight(body, nl);
    TrimRightShape(body, nl);
    TrimRightTwice(body, nl);
    var cut := body[|core|..];
    assert body == core + cut;
    assert "\n" + core + "\n\n" == "\n" + (core + "\n\n");
    TrimLeftUnique("\n", core + "\n\n", nl);
    BareTail(core, "\n\n");
    BareTail(core, cut);
  }

  lemma BareTail(core: string, cut: string)
    requires TrimRight(core, Newline()) == core && All(cut, Newline())
    ensures Bare(core + cut) == TrimLeft(core, Newline())
  {
    if core == "" {
      assert core + cut == cut;
      TrimLeftEmpty(cut, Newline());
    } else {
      VisibleOf(core, cut);
      TrimLeftOf(core, cut);
    }
  }

  lemma TrimLeftOf(core: string, cut: string)
    requires core != "" && TrimRight(core, Newline()) == core
    ensures TrimLeft(core + cut, Newline()) == TrimLeft(core, Newline()) + cut
  {
    var head, text := SolidCore(core);
    assert core + cut == head + (text + cut);
    TrimLeftUnique(head, text + cut, Newline());
  }

  /** Wrapping sees a user text only up to its final newlines. */
  lemma WrapNormal(m: Markers, body: string, user: string)
    requires user != "" ==> TrimRight(user, Newline()) != ""
    ensures Wrapped(m, body, Normal(user)) == Wrapped(m, body, user)
  {
    if user != "" {
      TrimRightUnique(TrimRight(user, Newline()), "\n", Newline());
      TrimRightTwice(user, Newline());
    }
  }

  lemma VisibleIsSolid(after: string)
    ensures var v := Visible(after);
            v != "" ==> TrimRight(v, Newline()) != "" && v[0] != '\n' && TrimSpace(v) != ""
  {
    TrimSpaceVersusNewline(Visible(after));
    TrimLeftShape(after, Newline());
  }

  lemma UserContentIsSolid(m: Markers, target: string)
    requires IsMarker(m.finish)
    ensures var u := UserContent(m, target);
            && !Contains(u, m.finish)
            && (u != "" ==> TrimRight(u, Newline()) != "" && u[0] != '\n' && TrimSpace(u) != "")
  {
    if Contains(target, m.finish) {
      var before, after := SplitAtLast(target, m.finish);
      VisibleIsSolid(after);
      VisibleFree(after, m.finish);
    } else {
      if LastIndex(target, m.finish) >= 0 { Found(target, m.finish, LastIndex(target, m.finish)); }
    }
  }

  lemma VisibleFree(after: string, p: string)
    requires IsMarker(p) && !Contains(after, p)
    ensures !Contains(Visible(after), p)
  {
    TrimLeftShape(after, Newline());
    var text := TrimLeft(after, Newline());
    assert after == after[..|after| - |text|] + text;
    SuffixFree(after[..|after| - |text|], text, p);
  }

  /** A text that was extracted once is extracted again unchanged. */
  lemma VisibleOfSolid(u: string)
    requires u != "" ==> u[0] != '\n' && TrimSpace(u) != ""
    ensures Visible(u) == u
  {
  }

  /**
   What the next merge finds as user text. From a marked target exactly the
   text found before; from a legacy target only what Kept leaves of it.
   */
  lemma UserTextOfMerged(m: Markers, target: string, body: string)
    requires Good(m)
    ensures UserContent(m, Merged(m, target, body))
         == Normal(if Contains(target, m.start) then UserContent(m, target) else Kept(m, target))
  {
    if target == "" {
      assert !Contains(target, m.start);
      ExtractWrapped(m, body, "");
    } else if Contains(target, m.start) {
      var u := UserContent(m, target);
      UserContentIsSolid(m, target);
      VisibleOfSolid(u);
      ExtractWrapped(m, body, u);
    } else {
      ExtractWrapped(m, body, target);
    }
  }

  /** The first end marker of a wrapped document is the one its header quotes, never the real one. */
  lemma FirstEndIsQuoted(m: Markers, body: string, user: string)
    requires m.notice == Notice(m.finish)
    ensures 0 <= Index(Wrapped(m, body, user), m.finish) < |Header(m)|
  {
    FinishInNotice(m, Warning(), "` marker below.\n", Wrapped(m, body, user)[|Header(m)|..]);
    assert Wrapped(m, body, user) == Header(m) + Wrapped(m, body, user)[|Header(m)|..];
  }

  lemma FinishInNotice(m: Markers, before: string, after: string, rest: string)
    requires m.notice == before + m.finish + after && after != ""
    ensures 0 <= Index(Header(m) + rest, m.finish) < |Header(m)|
  {
    assert Header(m) + rest == (m.start + before) + m.finish + (after + rest);
    AtMid(m.start + before, m.finish, after + rest);
    Found(Header(m) + rest, m.finish, |m.start + before|);
  }

  /** A second merge rewraps exactly what the first one left to be found. */
  lemma MergeAgain(m: Markers, target: string, first: string, second: string)
    requires Good(m)
    ensures Merged(m, Merged(m, target, first), second)
         == Wrapped(m, second, if Contains(target, m.start) then UserContent(m, target) else Kept(m, target))
  {
    var u := if Contains(target, m.start) then UserContent(m, target) else Kept(m, target);
    MergedHasStart(m, target, first);
    UserTextOfMerged(m, target, first);
    UserContentIsSolid(m, target);
    VisibleIsSolid(target);
    WrapNormal(m, second, u);
  }

  /** Merging over a marked or empty target forgets every earlier merge. */
  lemma MergeAbsorbs(m: Markers, target: string, first: string, second: string)
    requires Good(m)
    requires target == "" || Contains(target, m.start)
    ensures Merged(m, Merged(m, target, first), second) == Merged(m, target, second)
  {
    MergeAgain(m, target, first, second);
  }

  /**
   For every target whatsoever, only the first and the last merge matter; in
   particular a third merge of one source changes nothing after the second.
   */
  lemma ThirdMergeForgetsTheSecond(m: Markers, target: string, first: string, second: string, third: string)
    requires Good(m)
    ensures Merged(m, Merged(m, Merged(m, target, first), second), third)
         == Merged(m, Merged(m, target, first), third)
  {
    MergedHasStart(m, target, first);
    MergeAbsorbs(m, Merged(m, target, first), second, third);
  }

  lemma WrappedInjective(m: Markers, body: string, u: string, v: string)
    ensures Wrapped(m, body, u) == Wrapped(m, body, v) <==> UserPart(u) == UserPart(v)
  {
    var front := Preamble(m, body) + m.finish + "\n";
    assert Wrapped(m, body, u) == front + UserPart(u);
    assert Wrapped(m, body, v) == front + UserPart(v);
    if front + UserPart(u) == front + UserPart(v) {
      assert (front + UserPart(u))[|front|..] == UserPart(u);
      assert (front + UserPart(v))[|front|..] == UserPart(v);
    }
  }

  /**
   A legacy target (text without markers) survives the second merge exactly
   when it is not blank, does not open with a newline and quotes no end marker.
   Otherwise the second merge changes it: the lines before a quoted end marker
   are lost for good.
   */
  lemma LegacyTextSurvives(m: Markers, target: string, body: string)
    requires Good(m)
    requires target != "" && !Contains(target, m.start)
    ensures Merged(m, Merged(m, target, body), body) == Merged(m, target, body)
       <==> TrimSpace(target) != "" && target[0] != '\n' && !Contains(target, m.finish)
  {
    MergeAgain(m, target, body, body);
    var kept := Kept(m, target);
    WrappedInjective(m, body, kept, target);
    if TrimSpace(target) != "" && target[0] != '\n' && !Contains(target, m.finish) {
      VisibleOfSolid(target);
    } else if UserPart(kept) == UserPart(target) {
      SamePart(kept, target);
      KeptDiffers(m, target);
    }
  }

  lemma SamePart(u: string, v: string)
    requires UserPart(u) == UserPart(v)
    ensures u == "" <==> v == ""
    ensures TrimRight(u, Newline()) == TrimRight(v, Newline())
  {
    if u != "" && v != "" {
      assert UserPart(u)[1..|UserPart(u)| - 1] == TrimRight(u, Newline());
      assert UserPart(v)[1..|UserPart(v)| - 1] == TrimRight(v, Newline());
    }
  }

  lemma KeptDiffers(m: Markers, target: string)
    requires Good(m) && target != ""
    requires TrimSpace(target) == "" || target[0] == '\n' || Contains(target, m.finish)
    requires Kept(m, target) != ""
    ensures TrimRight(Kept(m, target), Newline()) != TrimRight(target, Newline())
  {
    var kept := Kept(m, target);
    var core := TrimRight(target, Newline());
    TrimRightShape(target, Newline());
    assert target == core + target[|core|..];
    if Contains(target, m.finish) {
      UserContentIsSolid(m, target);
      var i := Index(target, m.finish);
      AtTrimmed(target, m.finish, i);
      if TrimRight(kept, Newline()) == core {
        AtTrimmed(kept, m.finish, i);
        Found(kept, m.finish, i);
      }
    } else {
      VisibleIsSolid(target);
      TrimRightShape(kept, Newline());
      TrimSpaceEmpty(target);
      TrimSpaceEmpty(kept);
      TrimLeftShape(target, Newline());
    }
  }
}
