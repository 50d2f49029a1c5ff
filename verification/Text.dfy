/**
 Strings as the merge and channel code uses them: trimming, searching and
 splitting. Positions are code points where the Go source counts bytes; every
 marker searched for is ASCII, so both find the same places.
 */
module Text {
  import opened Wrappers

  // ---------------------------------------------------------------- trimming

  function TrimLeft(s: string, cut: char -> bool): string {
    if s != "" && cut(s[0]) then TrimLeft(s[1..], cut) else s
  }

  function TrimRight(s: string, cut: char -> bool): string {
    if s != "" && cut(s[|s| - 1]) then TrimRight(s[..|s| - 1], cut) else s
  }

  function Newline(): char -> bool {
    c => c == '\n'
  }

  /** What Go's unicode.IsSpace accepts. */
  predicate IsSpace(c: char) {
    || c == '\t' || c == '\n' || c == '\U{B}' || c == '\U{C}' || c == '\r' || c == ' '
    || c == '\U{85}' || c == '\U{A0}' || c == '\U{1680}' || '\U{2000}' <= c <= '\U{200A}'
    || c == '\U{2028}' || c == '\U{2029}' || c == '\U{202F}' || c == '\U{205F}' || c == '\U{3000}'
  }

  /** What Python's str.isspace accepts: the same and the ASCII separators. */
  predicate IsPythonSpace(c: char) {
    IsSpace(c) || '\U{1C}' <= c <= '\U{1F}'
  }

  function TrimSpace(s: string): string {
    TrimRight(TrimLeft(s, c => IsSpace(c)), c => IsSpace(c))
  }

  /** Python's str.strip(). */
  function Strip(s: string): string {
    TrimRight(TrimLeft(s, c => IsPythonSpace(c)), c => IsPythonSpace(c))
  }

  ghost predicate All(s: string, p: char -> bool) {
    forall i :: 0 <= i < |s| ==> p(s[i])
  }

  function Repeat(c: char, n: nat): (s: string)
    ensures |s| == n && forall i :: 0 <= i < n ==> s[i] == c
  {
    seq(n, _ => c)
  }

  /** Trimming cuts a prefix of cut characters and stops at the first other one. */
  lemma {:induction false} TrimLeftShape(s: string, cut: char -> bool)
    ensures var t := TrimLeft(s, cut);
            && |t| <= |s| && t == s[|s| - |t|..]
            && All(s[..|s| - |t|], cut)
            && (t != "" ==> !cut(t[0]))
  {
    if s != "" && cut(s[0]) {
      TrimLeftShape(s[1..], cut);
      var t := TrimLeft(s, cut);
      assert t == s[1..][|s| - 1 - |t|..] == s[|s| - |t|..];
      assert s[..|s| - |t|] == [s[0]] + s[1..][..|s| - 1 - |t|];
    } else {
      assert s == s[0..];
    }
  }

  lemma {:induction false} TrimRightShape(s: string, cut: char -> bool)
    ensures var t := TrimRight(s, cut);
            && |t| <= |s| && t == s[..|t|]
            && All(s[|t|..], cut)
            && (t != "" ==> !cut(t[|t| - 1]))
  {
    if s != "" && cut(s[|s| - 1]) {
      TrimRightShape(s[..|s| - 1], cut);
      var t := TrimRight(s, cut);
      assert s[|t|..] == s[..|s| - 1][|t|..] + [s[|s| - 1]];
    } else {
      assert s == s[..|s|];
    }
  }

  /** A string is its trimmed form and what was cut; the form is unique. */
  lemma {:induction false} TrimRightUnique(core: string, tail: string, cut: char -> bool)
    requires All(tail, cut)
    ensures TrimRight(core + tail, cut) == TrimRight(core, cut)
  {
    if tail == "" {
      assert core + tail == core;
    } else {
      assert (core + tail)[..|core + tail| - 1] == core + tail[..|tail| - 1];
      TrimRightUnique(core, tail[..|tail| - 1], cut);
    }
  }

  lemma {:induction false} TrimLeftUnique(head: string, core: string, cut: char -> bool)
    requires All(head, cut)
    ensures TrimLeft(head + core, cut) == TrimLeft(core, cut)
  {
    if head == "" {
      assert head + core == core;
    } else {
      assert (head + core)[0] == head[0];
      assert (head + core)[1..] == head[1..] + core;
      TrimLeftUnique(head[1..], core, cut);
    }
  }

  lemma TrimRightTwice(s: string, cut: char -> bool)
    ensures TrimRight(TrimRight(s, cut), cut) == TrimRight(s, cut)
  {
    TrimRightShape(s, cut);
  }

  lemma {:induction false} TrimLeftEmpty(s: string, cut: char -> bool)
    ensures TrimLeft(s, cut) == "" <==> All(s, cut)
  {
    TrimLeftShape(s, cut);
  }

  /** Only blank strings trim to nothing. */
  lemma TrimSpaceEmpty(s: string)
    ensures TrimSpace(s) == "" <==> All(s, c => IsSpace(c))
  {
    var space := c => IsSpace(c);
    TrimLeftEmpty(s, space);
    TrimRightShape(TrimLeft(s, space), space);
    TrimLeftShape(s, space);
  }

  /** Trimming both sides leaves a part that begins and ends with a character not cut, with only cut ones around it. */
  ghost predicate TrimmedTo(s: string, t: string, cut: char -> bool) {
    exists a, b :: 0 <= a <= b <= |s| && TrimsAt(s, t, cut, a, b)
  }

  ghost predicate TrimsAt(s: string, t: string, cut: char -> bool, a: nat, b: nat)
    requires a <= b <= |s|
  {
    && t == s[a..b] && All(s[..a], cut) && All(s[b..], cut)
    && (t != "" ==> !cut(t[0]) && !cut(t[|t| - 1]))
  }

  lemma TrimBoth(s: string, cut: char -> bool)
    ensures TrimmedTo(s, TrimRight(TrimLeft(s, cut), cut), cut)
  {
    TrimLeftShape(s, cut);
    var t := TrimLeft(s, cut);
    TrimRightShape(t, cut);
    var r := TrimRight(t, cut);
    var a := |s| - |t|;
    assert r == s[a..a + |r|] && s[a + |r|..] == t[|r|..];
    assert r != "" ==> r[0] == t[0];
    assert TrimsAt(s, r, cut, a, a + |r|);
  }

  /** The stripped form of a string, for both notions of blank. */
  lemma StripsTo(s: string)
    ensures TrimmedTo(s, Strip(s), c => IsPythonSpace(c))
    ensures TrimmedTo(s, TrimSpace(s), c => IsSpace(c))
  {
    TrimBoth(s, c => IsPythonSpace(c));
    TrimBoth(s, c => IsSpace(c));
  }

  predicate HasPrefix(s: string, prefix: string) {
    prefix <= s
  }

  // --------------------------------------------------------------- searching

  predicate At(s: string, pattern: string, i: int) {
    0 <= i <= |s| - |pattern| && s[i..i + |pattern|] == pattern
  }

  /** The first occurrence at or after `from`, or -1. */
  function IndexFrom(s: string, pattern: string, from: nat): (i: int)
    requires from <= |s|
    ensures i == -1 || (from <= i && At(s, pattern, i))
    decreases |s| - from
  {
    if At(s, pattern, from) then from
    else if from == |s| then -1
    else IndexFrom(s, pattern, from + 1)
  }

  /** The last occurrence at or before `from`, or -1. */
  function LastIndexFrom(s: string, pattern: string, from: int): (i: int)
    requires -1 <= from <= |s|
    ensures i == -1 || (0 <= i <= from && At(s, pattern, i))
    decreases from + 1
  {
    if from == -1 then -1
    else if At(s, pattern, from) then from
    else LastIndexFrom(s, pattern, from - 1)
  }

  /** strings.Index. */
  function Index(s: string, pattern: string): (i: int)
    ensures i == -1 || At(s, pattern, i)
  {
    IndexFrom(s, pattern, 0)
  }

  /** strings.LastIndex. */
  function LastIndex(s: string, pattern: string): (i: int)
    ensures i == -1 || At(s, pattern, i)
  {
    LastIndexFrom(s, pattern, |s|)
  }

  predicate Contains(s: string, pattern: string) {
    Index(s, pattern) != -1
  }

  /** Every occurrence lies between the first and the last one. */
  lemma Found(s: string, pattern: string, i: int)
    requires At(s, pattern, i)
    ensures Contains(s, pattern) && 0 <= Index(s, pattern) <= i <= LastIndex(s, pattern)
  {
    FoundForward(s, pattern, 0, i);
    FoundBackward(s, pattern, |s|, i);
  }

  lemma {:induction false} FoundForward(s: string, pattern: string, from: nat, i: int)
    requires from <= i && At(s, pattern, i)
    ensures from <= IndexFrom(s, pattern, from) <= i
    decreases i - from
  {
    if from < i { FoundForward(s, pattern, from + 1, i); }
  }

  lemma {:induction false} FoundBackward(s: string, pattern: string, from: int, i: int)
    requires i <= from <= |s| && At(s, pattern, i)
    ensures i <= LastIndexFrom(s, pattern, from)
    decreases from
  {
    if i < from { FoundBackward(s, pattern, from - 1, i); }
  }

  /** A part between two others is an occurrence of itself. */
  lemma AtMid(a: string, pattern: string, c: string)
    ensures At(a + pattern + c, pattern, |a|)
  {
    AtPart(a, pattern, c, pattern, |a|);
  }

  /** An occurrence inside one part of a string is an occurrence of that part. */
  lemma AtPart(a: string, b: string, c: string, pattern: string, i: int)
    requires |a| <= i && i + |pattern| <= |a| + |b|
    ensures At(a + b + c, pattern, i) <==> At(b, pattern, i - |a|)
  {
    var s := a + b + c;
    assert s[i..i + |pattern|] == b[i - |a|..i - |a| + |pattern|];
  }

  /** Every character of an occurrence is the pattern's. */
  lemma AtChars(s: string, pattern: string, i: int, k: nat)
    requires At(s, pattern, i) && k < |pattern|
    ensures i + k < |s| && s[i + k] == pattern[k]
  {
    assert s[i..i + |pattern|][k] == s[i + k];
  }

  // --------------------------------------------------------------- splitting

  /** strings.Split(s, "\n"). */
  function Split(s: string): (parts: seq<string>)
    ensures |parts| >= 1
    ensures forall k :: 0 <= k < |parts| ==> '\n' !in parts[k]
    decreases |s|
  {
    if s == "" then [""]
    else
      var rest := Split(s[1..]);
      if s[0] == '\n' then [""] + rest
      else [[s[0]] + rest[0]] + rest[1..]
  }

  /** strings.Join(parts, "\n"). */
  function Join(parts: seq<string>): string {
    if parts == [] then ""
    else if |parts| == 1 then parts[0]
    else parts[0] + "\n" + Join(parts[1..])
  }

  lemma {:induction false} JoinSplit(s: string)
    ensures Join(Split(s)) == s
    decreases |s|
  {
    if s != "" {
      var rest := Split(s[1..]);
      JoinSplit(s[1..]);
      if s[0] == '\n' {
        assert ([""] + rest)[1..] == rest;
        assert s == "\n" + s[1..];
      } else {
        JoinPushFront(s[0], rest);
        assert s == [s[0]] + s[1..];
      }
    }
  }

  lemma JoinPushFront(c: char, parts: seq<string>)
    requires parts != []
    ensures Join([[c] + parts[0]] + parts[1..]) == [c] + Join(parts)
  {
    var pushed := [[c] + parts[0]] + parts[1..];
    assert pushed[1..] == parts[1..];
  }

  lemma {:induction false} JoinAppend(a: seq<string>, b: seq<string>)
    requires a != [] && b != []
    ensures Join(a + b) == Join(a) + "\n" + Join(b)
  {
    if |a| == 1 {
      assert (a + b)[1..] == b;
    } else {
      assert (a + b)[1..] == a[1..] + b;
      JoinAppend(a[1..], b);
    }
  }

  lemma {:induction false} SplitOne(line: string)
    requires '\n' !in line
    ensures Split(line) == [line]
    decreases |line|
  {
    if line != "" {
      SplitOne(line[1..]);
      assert [line[0]] + line[1..] == line;
      assert Split(line) == [[line[0]] + line[1..]] + [];
    }
  }

  lemma {:induction false} SplitAtNewline(a: string, b: string)
    ensures Split(a + "\n" + b) == Split(a) + Split(b)
    decreases |a|
  {
    if a == "" {
      assert (a + "\n" + b)[1..] == b;
    } else {
      SplitAtNewline(a[1..], b);
      SplitPush(a[0], a[1..] + "\n" + b);
      SplitPush(a[0], a[1..]);
      assert [a[0]] + (a[1..] + "\n" + b) == a + "\n" + b;
      assert [a[0]] + a[1..] == a;
      PushedAppend(a[0], Split(a[1..]), Split(b));
    }
  }

  /** The lines once a character is put in front. */
  function Pushed(c: char, lines: seq<string>): seq<string>
    requires lines != []
  {
    if c == '\n' then [""] + lines else [[c] + lines[0]] + lines[1..]
  }

  lemma SplitPush(c: char, s: string)
    ensures Split([c] + s) == Pushed(c, Split(s))
  {
    assert ([c] + s)[1..] == s;
  }

  lemma PushedAppend(c: char, a: seq<string>, b: seq<string>)
    requires a != []
    ensures Pushed(c, a + b) == Pushed(c, a) + b
  {
  }

  /** Lines without newlines are what their join splits into. */
  lemma {:induction false} SplitJoin(lines: seq<string>)
    requires lines != [] && forall k :: 0 <= k < |lines| ==> '\n' !in lines[k]
    ensures Split(Join(lines)) == lines
  {
    SplitOne(lines[0]);
    if |lines| > 1 {
      SplitJoin(lines[1..]);
      SplitAtNewline(lines[0], Join(lines[1..]));
      assert lines == [lines[0]] + lines[1..];
    }
  }

  // ---------------------------------------------------------------- ordering

  predicate Unrepeated<T(==)>(list: seq<T>) {
    forall i, j :: 0 <= i < j < |list| ==> list[i] != list[j]
  }

  /** Lexicographic order by code point. */
  predicate Less(a: string, b: string) {
    if b == "" then false
    else if a == "" then true
    else a[0] < b[0] || (a[0] == b[0] && Less(a[1..], b[1..]))
  }

  /** At the first difference the smaller code point comes first, and a proper prefix before what it starts. */
  lemma {:induction false} LessIsLexicographic(a: string, b: string)
    ensures Less(a, b) <==> exists k :: FirstDifference(a, b, k)
  {
    if a != "" && b != "" {
      LessIsLexicographic(a[1..], b[1..]);
      if a[0] < b[0] {
        assert FirstDifference(a, b, 0);
      }
      if k :| FirstDifference(a[1..], b[1..], k) {
        if a[0] == b[0] {
          assert a[..k + 1] == [a[0]] + a[1..][..k] && b[..k + 1] == [b[0]] + b[1..][..k];
          assert FirstDifference(a, b, k + 1);
        }
      }
      if k :| FirstDifference(a, b, k) {
        if k > 0 {
          assert a[0] == a[..k][0] == b[..k][0] == b[0];
          assert a[1..][..k - 1] == a[..k][1..] && b[1..][..k - 1] == b[..k][1..];
          assert FirstDifference(a[1..], b[1..], k - 1);
        }
      }
    } else if b != "" {
      assert FirstDifference(a, b, 0);
    }
  }

  ghost predicate FirstDifference(a: string, b: string, k: int) {
    0 <= k <= |a| && k < |b| && a[..k] == b[..k] && (k == |a| || a[k] < b[k])
  }

  /** The sorted list of a set of strings. */
  ghost predicate SortedListOf(list: seq<string>, elements: set<string>) {
    && (forall i, j :: 0 <= i < j < |list| ==> Less(list[i], list[j]))
    && (forall s :: s in list <==> s in elements)
  }

  lemma {:induction false} LessIsStrict(a: string, b: string, c: string)
    ensures !Less(a, a)
    ensures Less(a, b) && Less(b, c) ==> Less(a, c)
    ensures a == b || Less(a, b) || Less(b, a)
  {
    if a != "" {
      LessIsStrict(a[1..], if b == "" then "" else b[1..], if c == "" then "" else c[1..]);
      assert a == [a[0]] + a[1..];
      assert b != "" ==> b == [b[0]] + b[1..];
    }
  }

  /** Where a new string goes in a sorted list. */
  function InsertAt(list: seq<string>, s: string): (k: nat)
    ensures k <= |list|
    ensures forall i :: 0 <= i < k ==> Less(list[i], s)
    ensures k < |list| ==> !Less(list[k], s)
  {
    if list == [] || !Less(list[0], s) then 0 else 1 + InsertAt(list[1..], s)
  }

  lemma InsertedIsSorted(list: seq<string>, elements: set<string>, s: string)
    requires SortedListOf(list, elements) && s !in elements
    ensures var k := InsertAt(list, s);
            SortedListOf(list[..k] + [s] + list[k..], elements + {s})
  {
    var k := InsertAt(list, s);
    assert list == list[..k] + list[k..];
    forall i | k <= i < |list|
      ensures Less(s, list[i])
    {
      LessIsStrict(s, list[k], list[i]);
      assert list[i] in list && list[k] in list;
      assert k < i ==> Less(list[k], list[i]);
    }
    AscendingBetween(list, k, s);
  }

  lemma AscendingBetween(list: seq<string>, k: nat, s: string)
    requires k <= |list| && forall i, j :: 0 <= i < j < |list| ==> Less(list[i], list[j])
    requires forall i :: 0 <= i < k ==> Less(list[i], s)
    requires forall i :: k <= i < |list| ==> Less(s, list[i])
    ensures var longer := list[..k] + [s] + list[k..];
            forall i, j :: 0 <= i < j < |longer| ==> Less(longer[i], longer[j])
  {
    var longer := list[..k] + [s] + list[k..];
    forall i, j | 0 <= i < j < |longer|
      ensures Less(longer[i], longer[j])
    {
      assert longer[i] == if i < k then list[i] else if i == k then s else list[i - 1];
      assert longer[j] == if j < k then list[j] else if j == k then s else list[j - 1];
    }
  }

  /** Every set of strings has a sorted list. */
  lemma {:induction false} SortedExists(elements: set<string>) returns (list: seq<string>)
    ensures SortedListOf(list, elements)
    decreases elements
  {
    if elements == {} {
      list := [];
    } else {
      var s :| s in elements;
      var rest := SortedExists(elements - {s});
      InsertedIsSorted(rest, elements - {s}, s);
      var k := InsertAt(rest, s);
      list := rest[..k] + [s] + rest[k..];
      assert elements - {s} + {s} == elements;
    }
  }
}
