/**
 The audit store: one append-only object of JSON lines per UTC day. Instants are
 nanoseconds since the zero time, days their whole-day numbers; the text forms of
 both are taken as order-preserving.
 */
module AuditLog {
  import opened Wrappers
  import Text

  datatype Event = Event(
    who: string,
    role: string,
    when: int,
    target: string,
    targetTeam: string,
    action: string,
    capability: string,
    before: seq<string>,
    after: seq<string>,
    detail: string)

  const DAY: int := 86_400_000_000_000

  function DayOf(when: int): int {
    when / DAY
  }

  /** Days are 24 hours from midnight UTC on. */
  lemma DayHoldsInstant(when: int, day: int)
    ensures DayOf(when) == day <==> day * 86_400_000_000_000 <= when < (day + 1) * 86_400_000_000_000
  {
    assert when == DAY * DayOf(when) + when % DAY;
  }

  /** JSON text of an event and back; `decode` is None for a line that is no event. */
  datatype Codec = Codec(encode: Event -> string, decode: string -> Option<Event>)

  ghost predicate GoodCodec(codec: Codec) {
    forall event :: EncodesWell(codec, event)
  }

  ghost predicate EncodesWell(codec: Codec, event: Event) {
    var line := codec.encode(event);
    line != "" && '\n' !in line && codec.decode(line) == Some(event)
  }

  /** An event with its position: its own UTC day and its 1-based line in the object. */
  datatype Stored = Stored(event: Event, date: int, seqNo: nat)

  // ---------------------------------------------------------------- reading

  /** Decoding lines in order; blank lines do not count, a bad or timeless one rejects the object. */
  function ParseLines(codec: Codec, lines: seq<string>): Option<seq<Stored>> {
    if lines == [] then Some([])
    else
      var line := lines[|lines| - 1];
      match ParseLines(codec, lines[..|lines| - 1])
      case None => None
      case Some(out) =>
        if line == "" then Some(out)
        else match codec.decode(line)
             case None => None
             case Some(event) =>
               if event.when == 0 then None else Some(out + [Stored(event, DayOf(event.when), |out| + 1)])
  }

  function Lines(data: string): seq<string> {
    Text.Split(Text.TrimRight(data, Text.Newline()))
  }

  function Parse(codec: Codec, data: string): Option<seq<Stored>> {
    ParseLines(codec, Lines(data))
  }

  /** The line is not blank and is no event, or one without an instant. */
  predicate Malformed(codec: Codec, line: string) {
    line != "" && (codec.decode(line) == None || codec.decode(line).value.when == 0)
  }

  /** The events are what the lines at `places` decode to: all that are not blank, in order, numbered from 1. */
  ghost predicate Decodes(codec: Codec, lines: seq<string>, events: seq<Stored>, places: seq<int>) {
    && |places| == |events|
    && (forall i :: 0 <= i < |places| ==>
          && 0 <= places[i] < |lines| && lines[places[i]] != ""
          && codec.decode(lines[places[i]]) == Some(events[i].event)
          && events[i].seqNo == i + 1 && events[i].date == DayOf(events[i].event.when))
    && (forall i, j :: 0 <= i < j < |places| ==> places[i] < places[j])
    && (forall k :: 0 <= k < |lines| && lines[k] != "" ==> k in places)
  }

  ghost predicate HasMalformed(codec: Codec, lines: seq<string>) {
    exists k :: 0 <= k < |lines| && Malformed(codec, lines[k])
  }

  lemma HasMalformedPush(codec: Codec, lines: seq<string>, line: string)
    ensures HasMalformed(codec, lines + [line]) <==> HasMalformed(codec, lines) || Malformed(codec, line)
  {
    var longer := lines + [line];
    assert longer[|lines|] == line;
    if k :| 0 <= k < |lines| && Malformed(codec, lines[k]) {
      assert longer[k] == lines[k];
    }
  }

  /** One malformed line rejects the whole object. */
  lemma {:induction false} RejectedIffMalformed(codec: Codec, lines: seq<string>)
    ensures ParseLines(codec, lines) == None <==> HasMalformed(codec, lines)
  {
    if lines != [] {
      var n := |lines| - 1;
      RejectedIffMalformed(codec, lines[..n]);
      assert lines == lines[..n] + [lines[n]];
      HasMalformedPush(codec, lines[..n], lines[n]);
    }
  }

  /** Otherwise every line's event is there. */
  lemma {:induction false} ParsedDecodes(codec: Codec, lines: seq<string>) returns (places: seq<int>)
    requires ParseLines(codec, lines).Some?
    ensures Decodes(codec, lines, ParseLines(codec, lines).value, places)
  {
    places := [];
    if lines != [] {
      var n := |lines| - 1;
      var earlier := ParsedDecodes(codec, lines[..n]);
      places := if lines[n] == "" then earlier else earlier + [n];
      DecodesPush(codec, lines, ParseLines(codec, lines[..n]).value, earlier);
    }
  }

  lemma DecodesPush(codec: Codec, lines: seq<string>, events: seq<Stored>, places: seq<int>)
    requires lines != [] && Decodes(codec, lines[..|lines| - 1], events, places)
    requires !Malformed(codec, lines[|lines| - 1])
    ensures var n := |lines| - 1;
            if lines[n] == "" then Decodes(codec, lines, events, places)
            else
              var event := codec.decode(lines[n]).value;
              Decodes(codec, lines, events + [Stored(event, DayOf(event.when), |events| + 1)], places + [n])
  {
    var n := |lines| - 1;
    assert (places + [n])[|places|] == n;
    assert forall k :: 0 <= k < n ==> lines[..n][k] == lines[k];
  }

  /** Rejected for a malformed line, or every line's event in order. */
  ghost predicate DecodedOrRejected(codec: Codec, lines: seq<string>, out: Option<seq<Stored>>) {
    && (out == None <==> HasMalformed(codec, lines))
    && (out.Some? ==> exists places :: Decodes(codec, lines, out.value, places))
  }

  lemma HasOutcome(codec: Codec, lines: seq<string>)
    ensures DecodedOrRejected(codec, lines, ParseLines(codec, lines))
  {
    RejectedIffMalformed(codec, lines);
    if ParseLines(codec, lines).Some? {
      var places := ParsedDecodes(codec, lines);
    }
  }

  /** `parseDailyObject`. */
  method ParseDailyObject(codec: Codec, data: string) returns (out: Option<seq<Stored>>)
    ensures out == Parse(codec, data)
    ensures DecodedOrRejected(codec, Lines(data), out)
  {
    var lines := Text.Split(Text.TrimRight(data, Text.Newline()));
    var parsed: seq<Stored> := [];
    for i := 0 to |lines|
      invariant ParseLines(codec, lines[..i]) == Some(parsed)
    {
      assert lines[..i + 1][..i] == lines[..i];
      var line := lines[i];
      if line == "" {
        continue;
      }
      var event := codec.decode(line);
      if event == None || event.value.when == 0 {
        RejectedStaysRejected(codec, lines, i + 1);
        HasOutcome(codec, lines);
        return None;
      }
      parsed := parsed + [Stored(event.value, DayOf(event.value.when), |parsed| + 1)];
    }
    assert lines[..|lines|] == lines;
    HasOutcome(codec, lines);
    out := Some(parsed);
  }

  lemma {:induction false} RejectedStaysRejected(codec: Codec, lines: seq<string>, k: nat)
    requires k <= |lines| && ParseLines(codec, lines[..k]) == None
    ensures ParseLines(codec, lines) == None
    decreases |lines|
  {
    if k < |lines| {
      assert lines[..|lines| - 1][..k] == lines[..k];
      RejectedStaysRejected(codec, lines[..|lines| - 1], k);
    } else {
      assert lines[..k] == lines;
    }
  }

  lemma ParsePush(codec: Codec, lines: seq<string>, line: string)
    ensures line == "" ==> ParseLines(codec, lines + [line]) == ParseLines(codec, lines)
    ensures var parsed := ParseLines(codec, lines);
            line != "" && parsed.Some? && codec.decode(line).Some? && codec.decode(line).value.when != 0 ==>
              ParseLines(codec, lines + [line]) ==
              var event := codec.decode(line).value;
              Some(parsed.value + [Stored(event, DayOf(event.when), |parsed.value| + 1)])
  {
    assert (lines + [line])[..|lines|] == lines;
  }

  // --------------------------------------------------------------- appending

  function Appended(content: string, line: string): string {
    content + line + "\n"
  }

  /** Every line of the content is ended. */
  predicate Terminated(content: string) {
    content == "" || content[|content| - 1] == '\n'
  }

  /** Blank lines before a line change nothing in what is parsed. */
  lemma {:induction false} BlankLinesIgnored(codec: Codec, lines: seq<string>, blank: string, line: string)
    requires Text.All(blank, Text.Newline()) && '\n' !in line
    ensures ParseLines(codec, lines + Text.Split(blank + line)) == ParseLines(codec, lines + [line])
    decreases |blank|
  {
    if blank == "" {
      assert blank + line == line;
      Text.SplitOne(line);
    } else {
      assert (blank + line)[0] == '\n';
      assert (blank + line)[1..] == blank[1..] + line;
      BlankLinesIgnored(codec, lines + [""], blank[1..], line);
      assert lines + Text.Split(blank + line) == lines + [""] + Text.Split(blank[1..] + line);
      ParsePush(codec, lines, "");
      SameParse(codec, lines + [""], lines, line);
    }
  }

  lemma SameParse(codec: Codec, a: seq<string>, b: seq<string>, line: string)
    requires ParseLines(codec, a) == ParseLines(codec, b)
    ensures ParseLines(codec, a + [line]) == ParseLines(codec, b + [line])
  {
    assert (a + [line])[..|a|] == a && (b + [line])[..|b|] == b;
  }

  /** The lines of the content with one more line. */
  lemma ParseAppendedLines(codec: Codec, content: string, line: string)
    requires Terminated(content) && line != "" && '\n' !in line
    ensures Parse(codec, Appended(content, line)) == ParseLines(codec, Lines(content) + [line])
  {
    if content == "" {
      LinesOfFirst(line);
      assert Lines(content) + [line] == [""] + [line];
      ParsePush(codec, [], "");
      assert [] + [""] == [""] && [] + [line] == [line];
      SameParse(codec, [""], [], line);
    } else {
      var body, blank := LinesAppended(content, line);
      BlankLinesIgnored(codec, Text.Split(body), blank, line);
    }
  }

  lemma EndedStays(text: string, line: string)
    requires line != "" && '\n' !in line
    ensures Text.TrimRight(Appended(text, line), Text.Newline()) == text + line
  {
    assert Appended(text, line) == (text + line) + "\n";
    Text.TrimRightUnique(text + line, "\n", Text.Newline());
    assert (text + line)[|text + line| - 1] == line[|line| - 1];
  }

  lemma LinesOfFirst(line: string)
    requires line != "" && '\n' !in line
    ensures Lines(Appended("", line)) == [line] && Lines("") == [""]
  {
    EndedStays("", line);
    assert "" + line == line;
    Text.SplitOne(line);
  }

  lemma Regroup(body: string, blank: string, line: string)
    ensures body + ("\n" + blank) + line == body + "\n" + (blank + line)
  {
  }

  /** Behind the content's lines come the blank ones trimmed off its end, and then the new one. */
  lemma LinesAppended(content: string, line: string) returns (body: string, blank: string)
    requires Terminated(content) && content != "" && line != "" && '\n' !in line
    ensures Text.All(blank, Text.Newline())
    ensures Lines(content) == Text.Split(body)
    ensures Lines(Appended(content, line)) == Text.Split(body) + Text.Split(blank + line)
  {
    var cut := Text.Newline();
    body := Text.TrimRight(content, cut);
    Text.TrimRightShape(content, cut);
    var tail := content[|body|..];
    assert tail[0] == '\n';
    blank := tail[1..];
    EndedStays(content, line);
    assert content == body + tail && tail == "\n" + blank;
    Regroup(body, blank, line);
    Text.SplitAtNewline(body, blank + line);
  }

  /** Appending keeps every position and adds one event at the next one. */
  lemma AppendKeepsPositions(codec: Codec, content: string, event: Event)
    requires GoodCodec(codec) && Terminated(content) && Parse(codec, content).Some? && event.when != 0
    ensures var before := Parse(codec, content).value;
            Parse(codec, Appended(content, codec.encode(event)))
            == Some(before + [Stored(event, DayOf(event.when), |before| + 1)])
    ensures Terminated(Appended(content, codec.encode(event)))
  {
    assert EncodesWell(codec, event);
    ParseAppendedLines(codec, content, codec.encode(event));
    ParsePush(codec, Lines(content), codec.encode(event));
  }

  /** Where the content is not ended by a newline, the appended line is glued to the last one. */
  lemma GluedLine(content: string, line: string)
    requires !Terminated(content) && '\n' !in content && '\n' !in line && line != ""
    ensures Lines(Appended(content, line)) == [content + line]
  {
    var cut := Text.Newline();
    Text.TrimRightUnique(content + line, "\n", cut);
    assert (content + line)[|content + line| - 1] == line[|line| - 1];
    assert Text.TrimRight(content + line, cut) == content + line;
    Text.SplitOne(content + line);
  }

  // --------------------------------------------------------------- the store

  /** Daily objects by day; reading some of them, or listing, may fail. */
  datatype Store = Store(objects: map<int, string>, unreadable: set<int>, listFails: bool)

  function Content(store: Store, day: int): string {
    if day in store.objects then store.objects[day] else ""
  }

  function Record(codec: Codec, store: Store, event: Event): Store {
    var day := DayOf(event.when);
    store.(objects := store.objects[day := Appended(Content(store, day), codec.encode(event))])
  }

  function RecordAll(codec: Codec, store: Store, events: seq<Event>): Store {
    if events == [] then store
    else Record(codec, RecordAll(codec, store, events[..|events| - 1]), events[|events| - 1])
  }

  /** The events of one daily object, none if it does not parse. */
  function DayEvents(codec: Codec, store: Store, day: int): seq<Stored> {
    if day in store.objects && Parse(codec, store.objects[day]).Some?
    then Parse(codec, store.objects[day]).value else []
  }

  ghost predicate Holds(codec: Codec, store: Store, stored: Stored) {
    exists day :: day in store.objects && stored in DayEvents(codec, store, day)
  }

  /** Every object parses, ends its lines and holds only its own UTC day's events. */
  ghost predicate Sound(codec: Codec, store: Store) {
    forall day :: day in store.objects ==> SoundDay(codec, store.objects[day], day)
  }

  ghost predicate SoundDay(codec: Codec, content: string, day: int) {
    && Terminated(content)
    && Parse(codec, content).Some?
    && OwnDay(codec, content, day)
  }

  /** The object's events, if it parses, all belong to its own UTC day. */
  ghost predicate OwnDay(codec: Codec, content: string, day: int) {
    Parse(codec, content).Some? ==>
      forall k :: 0 <= k < |Parse(codec, content).value| ==> Parse(codec, content).value[k].date == day
  }

  /** Every daily object that parses holds only its own UTC day's events. */
  ghost predicate OwnDays(codec: Codec, store: Store) {
    forall day :: day in store.objects ==> OwnDay(codec, store.objects[day], day)
  }

  lemma SoundOwnDays(codec: Codec, store: Store)
    requires Sound(codec, store)
    ensures OwnDays(codec, store)
  {
    forall day | day in store.objects ensures OwnDay(codec, store.objects[day], day) {
      assert SoundDay(codec, store.objects[day], day);
    }
  }

  /** Positions as parsed: lines are numbered from 1, and an event's day is its timestamp's. */
  lemma {:induction false} ParsedPositions(codec: Codec, lines: seq<string>)
    ensures ParseLines(codec, lines).Some? ==>
              forall k :: 0 <= k < |ParseLines(codec, lines).value| ==>
                            var stored := ParseLines(codec, lines).value[k];
                            stored.seqNo == k + 1 && stored.date == DayOf(stored.event.when)
  {
    if lines != [] {
      ParsedPositions(codec, lines[..|lines| - 1]);
    }
  }

  lemma EmptyDay(codec: Codec, day: int)
    ensures SoundDay(codec, "", day) && Parse(codec, "") == Some([])
  {
    ParsePush(codec, [], "");
    assert [] + [""] == [""];
    assert Lines("") == [""];
  }

  /** Recording keeps the store sound, keeps every stored event where it is and adds the new one. */
  lemma RecordKeepsStore(codec: Codec, store: Store, event: Event)
    requires GoodCodec(codec) && Sound(codec, store) && event.when != 0
    ensures Sound(codec, Record(codec, store, event))
    ensures forall stored :: Holds(codec, store, stored) ==> Holds(codec, Record(codec, store, event), stored)
    ensures exists seqNo :: Holds(codec, Record(codec, store, event), Stored(event, DayOf(event.when), seqNo))
  {
    var day := DayOf(event.when);
    var content := Content(store, day);
    EmptyDay(codec, day);
    assert SoundDay(codec, content, day);
    AppendKeepsPositions(codec, content, event);
    var later := Record(codec, store, event);
    var added := Stored(event, day, |Parse(codec, content).value| + 1);
    forall stored | Holds(codec, store, stored) ensures Holds(codec, later, stored) {
      var d :| d in store.objects && stored in DayEvents(codec, store, d);
      assert stored in DayEvents(codec, later, d);
    }
    assert added in DayEvents(codec, later, day);
    assert Holds(codec, later, added);
  }

  lemma {:induction false} RecordAllKeepsStore(codec: Codec, store: Store, events: seq<Event>)
    requires GoodCodec(codec) && Sound(codec, store) && forall e :: e in events ==> e.when != 0
    ensures Sound(codec, RecordAll(codec, store, events))
    ensures forall stored :: Holds(codec, store, stored) ==> Holds(codec, RecordAll(codec, store, events), stored)
  {
    if events != [] {
      var n := |events| - 1;
      RecordAllKeepsStore(codec, store, events[..n]);
      RecordKeepsStore(codec, RecordAll(codec, store, events[..n]), events[n]);
    }
  }

  /** Whatever is recorded into an empty store, every object holds only its own day's events. */
  lemma RecordedHoldsOwnDays(codec: Codec, store: Store, events: seq<Event>)
    requires GoodCodec(codec) && store.objects == map[] && forall e :: e in events ==> e.when != 0
    ensures OwnDays(codec, RecordAll(codec, store, events))
  {
    RecordAllKeepsStore(codec, store, events);
    SoundOwnDays(codec, RecordAll(codec, store, events));
  }

  /** The events of one day, in order. */
  function OfDay(events: seq<Event>, day: int): seq<Event> {
    if events == [] then []
    else
      var last := events[|events| - 1];
      OfDay(events[..|events| - 1], day) + if DayOf(last.when) == day then [last] else []
  }

  /** The list holds these events of the day, numbered from `first` on. */
  ghost predicate Numbered(list: seq<Stored>, events: seq<Event>, day: int, first: nat) {
    |list| == |events| && forall k :: 0 <= k < |list| ==> list[k] == Stored(events[k], day, first + k)
  }

  /** What was recorded reads back: a day's object holds what it held and then that day's events, in order. */
  lemma {:induction false} RecordedReadsBack(codec: Codec, store: Store, events: seq<Event>, day: int)
    requires GoodCodec(codec) && Sound(codec, store) && forall e :: e in events ==> e.when != 0
    ensures var before, after := DayEvents(codec, store, day), DayEvents(codec, RecordAll(codec, store, events), day);
            && before <= after
            && Numbered(after[|before|..], OfDay(events, day), day, |before| + 1)
  {
    if events != [] {
      var n := |events| - 1;
      var earlier := RecordAll(codec, store, events[..n]);
      RecordedReadsBack(codec, store, events[..n], day);
      RecordAllKeepsStore(codec, store, events[..n]);
      RecordAddsToDay(codec, earlier, events[n], day);
    }
  }

  lemma RecordAddsToDay(codec: Codec, store: Store, event: Event, day: int)
    requires GoodCodec(codec) && Sound(codec, store) && event.when != 0
    ensures DayEvents(codec, Record(codec, store, event), day) ==
            DayEvents(codec, store, day)
            + if DayOf(event.when) == day then [Stored(event, day, |DayEvents(codec, store, day)| + 1)] else []
  {
    EmptyDay(codec, day);
    if DayOf(event.when) == day {
      assert SoundDay(codec, Content(store, day), day);
      AppendKeepsPositions(codec, Content(store, day), event);
    }
  }
}
