/**
 What the bridge reads from Matrix: actionable events of a sync payload, and the
 events a limited timeline left out. JSON values of another type than the code
 expects are absent here, as its isinstance checks make them.
 */
module MatrixChannel {
  import opened Wrappers
  import Text

  /** `m.mentions`; only membership of the listed user ids is ever tested. */
  datatype Mentions = NoMentions | Mentions(room: bool, userIds: set<string>)

  datatype Content = Content(
    mentions: Mentions,
    msgtype: string,
    body: string,
    autoSourceMention: bool,
    url: string,
    filename: string,
    mimetype: string)

  datatype RawEvent =
    | NotAnObject
    | Raw(eventType: string, eventId: string, sender: string, redacted: bool, content: Option<Content>)

  datatype Kind = TextMessage | Image | File

  /** One extracted event; the last three fields are empty for text. */
  datatype Event = Event(
    roomId: string,
    eventId: string,
    sender: string,
    body: string,
    kind: Kind,
    autoSourceMention: bool,
    filename: string,
    url: string,
    mimetype: string)

  /** What the controller projects into runtime.yaml. */
  datatype Config = Config(roomTypes: map<string, string>, ownUserId: string, agents: set<string>)

  predicate Watched(cfg: Config, room: string) {
    room in cfg.roomTypes && (cfg.roomTypes[room] == "personal" || cfg.roomTypes[room] == "team")
  }

  // ------------------------------------------------------ actionable events

  predicate Targeted(mentions: Mentions, user: string) {
    mentions.Mentions? && (mentions.room || user in mentions.userIds)
  }

  function KindOf(msgtype: string): Option<Kind> {
    match msgtype
    case "m.text" => Some(TextMessage)
    case "m.image" => Some(Image)
    case "m.file" => Some(File)
    case _ => None
  }

  /** The event one timeline entry of a watched room yields, if it is actionable. */
  function Extract(cfg: Config, room: string, raw: RawEvent): Option<Event>
    requires Watched(cfg, room)
  {
    if raw.NotAnObject? || raw.eventType != "m.room.message" then None
    else if raw.sender == cfg.ownUserId || raw.redacted || raw.content.None? then None
    else
      var content := raw.content.value;
      var sender := Text.Strip(raw.sender);
      if (cfg.roomTypes[room] == "team" || sender in cfg.agents) && !Targeted(content.mentions, cfg.ownUserId) then None
      else if KindOf(content.msgtype).None? then None
      else
        var kind := KindOf(content.msgtype).value;
        var body := Text.Strip(content.body);
        var eventId := Text.Strip(raw.eventId);
        if body == "" || eventId == "" || sender == "" then None
        else if kind == TextMessage then
          Some(Event(room, eventId, sender, body, kind, content.autoSourceMention, "", "", ""))
        else
          var url := Text.Strip(content.url);
          if !Text.HasPrefix(url, "mxc://") then None
          else
            var filename := if content.filename != "" then content.filename else body;
            Some(Event(room, eventId, sender, body, kind, content.autoSourceMention, filename, url, content.mimetype))
  }

  function ExtractAll(cfg: Config, room: string, raws: seq<RawEvent>): seq<Event>
    requires Watched(cfg, room)
  {
    if raws == [] then []
    else
      var last := Extract(cfg, room, raws[|raws| - 1]);
      ExtractAll(cfg, room, raws[..|raws| - 1]) + (if last.Some? then [last.value] else [])
  }

  /** The timeline object of one joined room. */
  class Timeline {
    var events: Option<seq<RawEvent>>
    const limited: bool
    const prevBatch: Option<string>

    constructor (events: Option<seq<RawEvent>>, limited: bool, prevBatch: Option<string>)
      ensures this.events == events && this.limited == limited && this.prevBatch == prevBatch
    {
      this.events := events;
      this.limited := limited;
      this.prevBatch := prevBatch;
    }
  }

  /** One entry of the payload's `rooms.join`, in dictionary order. */
  datatype JoinedRoom = JoinedRoom(id: string, timeline: Timeline)

  /** The events of a payload's rooms as values. */
  ghost function RoomEvents(joined: seq<JoinedRoom>): (r: seq<Option<seq<RawEvent>>>)
    reads set j | j in joined :: j.timeline
    ensures |r| == |joined|
    ensures forall k :: 0 <= k < |joined| ==> r[k] == joined[k].timeline.events
  {
    seq(|joined|, k requires 0 <= k < |joined| reads set j | j in joined :: j.timeline => joined[k].timeline.events)
  }

  function RoomActionable(cfg: Config, room: string, events: Option<seq<RawEvent>>): seq<Event> {
    if Watched(cfg, room) && events.Some? then ExtractAll(cfg, room, events.value) else []
  }

  function Actionable(cfg: Config, ids: seq<string>, events: seq<Option<seq<RawEvent>>>): seq<Event>
    requires |ids| == |events|
  {
    if ids == [] then []
    else
      var n := |ids| - 1;
      Actionable(cfg, ids[..n], events[..n]) + RoomActionable(cfg, ids[n], events[n])
  }

  function Ids(joined: seq<JoinedRoom>): (r: seq<string>)
    ensures |r| == |joined|
  {
    seq(|joined|, k requires 0 <= k < |joined| => joined[k].id)
  }

  // --------------------------------------------- what is actionable, outright

  /**
   A message for the bridge to act on: someone else's, not redacted, in a watched
   room, from a person in a personal room or mentioning the bridge, of a known
   kind and complete.
   */
  ghost predicate Addressed(cfg: Config, room: string, raw: RawEvent) {
    && room in cfg.roomTypes && (cfg.roomTypes[room] == "personal" || cfg.roomTypes[room] == "team")
    && raw.Raw? && raw.eventType == "m.room.message" && raw.sender != cfg.ownUserId && !raw.redacted
    && raw.content.Some?
    && var content := raw.content.value;
       && (|| (cfg.roomTypes[room] == "personal" && Text.Strip(raw.sender) !in cfg.agents)
           || (content.mentions.Mentions? && (content.mentions.room || cfg.ownUserId in content.mentions.userIds)))
       && (content.msgtype == "m.text" || content.msgtype == "m.image" || content.msgtype == "m.file")
       && Text.Strip(content.body) != "" && Text.Strip(raw.eventId) != "" && Text.Strip(raw.sender) != ""
       && (content.msgtype != "m.text" ==> "mxc://" <= Text.Strip(content.url))
  }

  /** The event says what the entry says. */
  ghost predicate Describes(room: string, raw: RawEvent, event: Event) {
    && raw.Raw? && raw.content.Some?
    && var content := raw.content.value;
       && event.roomId == room && event.eventId == Text.Strip(raw.eventId) && event.sender == Text.Strip(raw.sender)
       && event.body == Text.Strip(content.body) && event.autoSourceMention == content.autoSourceMention
       && (event.kind == TextMessage <==> content.msgtype == "m.text")
       && (event.kind == Image <==> content.msgtype == "m.image")
       && (event.kind == File <==> content.msgtype == "m.file")
       && event.url == (if event.kind == TextMessage then "" else Text.Strip(content.url))
       && event.mimetype == (if event.kind == TextMessage then "" else content.mimetype)
       && event.filename == (if event.kind == TextMessage then "" else if content.filename == "" then event.body
                             else content.filename)
  }

  lemma ExtractIff(cfg: Config, room: string, raw: RawEvent, event: Event)
    requires Watched(cfg, room)
    ensures Extract(cfg, room, raw) == Some(event) <==> Addressed(cfg, room, raw) && Describes(room, raw, event)
  {
  }

  /** Two places of a payload in the order they are read: the room, then the entry. */
  ghost predicate Precedes(a: (int, int), b: (int, int)) {
    a.0 < b.0 || (a.0 == b.0 && a.1 < b.1)
  }

  /** The found are told of exactly the wanted places, one each and in order. */
  ghost predicate Picked<T>(wanted: ((int, int)) -> bool, told: ((int, int), T) -> bool, found: seq<T>,
                            places: seq<(int, int)>)
  {
    && |places| == |found|
    && (forall i :: 0 <= i < |places| ==> wanted(places[i]) && told(places[i], found[i]))
    && (forall i, j :: 0 <= i < j < |places| ==> Precedes(places[i], places[j]))
    && (forall place :: wanted(place) ==> place in places)
  }

  lemma PickedJoin<T>(first: ((int, int)) -> bool, firstTold: ((int, int), T) -> bool, a: seq<T>, p: seq<(int, int)>,
                      second: ((int, int)) -> bool, secondTold: ((int, int), T) -> bool, b: seq<T>, q: seq<(int, int)>,
                      wanted: ((int, int)) -> bool, told: ((int, int), T) -> bool)
    requires Picked(first, firstTold, a, p) && Picked(second, secondTold, b, q)
    requires forall place :: wanted(place) <==> first(place) || second(place)
    requires forall x, y :: first(x) && second(y) ==> Precedes(x, y)
    requires forall place, t :: (first(place) && firstTold(place, t)) || (second(place) && secondTold(place, t)) ==>
                                  told(place, t)
    ensures Picked(wanted, told, a + b, p + q)
  {
  }

  ghost predicate AddressedIn(cfg: Config, room: string, raws: seq<RawEvent>, k: int) {
    0 <= k < |raws| && Addressed(cfg, room, raws[k])
  }

  ghost predicate DescribedIn(room: string, raws: seq<RawEvent>, k: int, event: Event) {
    0 <= k < |raws| && Describes(room, raws[k], event)
  }

  /** The events found in room r of the payload are its addressed entries, one each and in order. */
  ghost predicate ReadsRoom(cfg: Config, r: int, room: string, raws: seq<RawEvent>, found: seq<Event>,
                            places: seq<(int, int)>)
  {
    Picked((place: (int, int)) => place.0 == r && AddressedIn(cfg, room, raws, place.1),
           (place: (int, int), event: Event) => DescribedIn(room, raws, place.1, event), found, places)
  }

  lemma {:induction false} RoomReads(cfg: Config, r: int, room: string, raws: seq<RawEvent>)
    returns (places: seq<(int, int)>)
    requires Watched(cfg, room)
    ensures ReadsRoom(cfg, r, room, raws, ExtractAll(cfg, room, raws), places)
  {
    places := [];
    if raws != [] {
      var n := |raws| - 1;
      var earlier := RoomReads(cfg, r, room, raws[..n]);
      var last := EntryReads(cfg, r, room, raws);
      places := earlier + last;
      ReadsOneMore(cfg, r, room, raws, earlier, last);
    }
  }

  ghost function LastFound(cfg: Config, room: string, raws: seq<RawEvent>): seq<Event>
    requires Watched(cfg, room) && raws != []
  {
    var last := Extract(cfg, room, raws[|raws| - 1]);
    if last.Some? then [last.value] else []
  }

  ghost predicate ReadsLast(cfg: Config, r: int, room: string, raws: seq<RawEvent>, found: seq<Event>,
                            places: seq<(int, int)>)
  {
    Picked((place: (int, int)) => place == (r, |raws| - 1) && AddressedIn(cfg, room, raws, place.1),
           (place: (int, int), event: Event) => DescribedIn(room, raws, place.1, event), found, places)
  }

  lemma EntryReads(cfg: Config, r: int, room: string, raws: seq<RawEvent>) returns (places: seq<(int, int)>)
    requires Watched(cfg, room) && raws != []
    ensures ReadsLast(cfg, r, room, raws, LastFound(cfg, room, raws), places)
  {
    var n := |raws| - 1;
    var last := Extract(cfg, room, raws[n]);
    places := if last.Some? then [(r, n)] else [];
    if last.Some? {
      ExtractIff(cfg, room, raws[n], last.value);
    } else {
      Unaddressed(cfg, room, raws[n]);
    }
  }

  lemma Unaddressed(cfg: Config, room: string, raw: RawEvent)
    requires Watched(cfg, room) && Extract(cfg, room, raw) == None
    ensures !Addressed(cfg, room, raw)
  {
  }

  lemma ReadsOneMore(cfg: Config, r: int, room: string, raws: seq<RawEvent>, earlier: seq<(int, int)>,
                     last: seq<(int, int)>)
    requires Watched(cfg, room) && raws != []
    requires ReadsRoom(cfg, r, room, raws[..|raws| - 1], ExtractAll(cfg, room, raws[..|raws| - 1]), earlier)
    requires ReadsLast(cfg, r, room, raws, LastFound(cfg, room, raws), last)
    ensures ReadsRoom(cfg, r, room, raws, ExtractAll(cfg, room, raws), earlier + last)
  {
    var n := |raws| - 1;
    assert forall k :: AddressedIn(cfg, room, raws[..n], k) <==> k != n && AddressedIn(cfg, room, raws, k);
    assert forall k, event :: DescribedIn(room, raws[..n], k, event) ==> DescribedIn(room, raws, k, event);
    PickedJoin((place: (int, int)) => place.0 == r && AddressedIn(cfg, room, raws[..n], place.1),
               (place: (int, int), event: Event) => DescribedIn(room, raws[..n], place.1, event),
               ExtractAll(cfg, room, raws[..n]), earlier,
               (place: (int, int)) => place == (r, n) && AddressedIn(cfg, room, raws, place.1),
               (place: (int, int), event: Event) => DescribedIn(room, raws, place.1, event),
               LastFound(cfg, room, raws), last,
               (place: (int, int)) => place.0 == r && AddressedIn(cfg, room, raws, place.1),
               (place: (int, int), event: Event) => DescribedIn(room, raws, place.1, event));
  }

  ghost predicate AddressedAt(cfg: Config, ids: seq<string>, events: seq<Option<seq<RawEvent>>>, place: (int, int))
    requires |ids| == |events|
  {
    && 0 <= place.0 < |ids| && events[place.0].Some?
    && AddressedIn(cfg, ids[place.0], events[place.0].value, place.1)
  }

  ghost predicate DescribedAt(ids: seq<string>, events: seq<Option<seq<RawEvent>>>, place: (int, int), event: Event)
    requires |ids| == |events|
  {
    && 0 <= place.0 < |ids| && events[place.0].Some?
    && DescribedIn(ids[place.0], events[place.0].value, place.1, event)
  }

  /** The events found in a payload are its addressed entries, one each, in order and as they stand. */
  ghost predicate Reads(cfg: Config, ids: seq<string>, events: seq<Option<seq<RawEvent>>>, found: seq<Event>,
                        places: seq<(int, int)>)
    requires |ids| == |events|
  {
    Picked((place: (int, int)) => AddressedAt(cfg, ids, events, place),
           (place: (int, int), event: Event) => DescribedAt(ids, events, place, event), found, places)
  }

  lemma {:induction false} ActionableReads(cfg: Config, ids: seq<string>, events: seq<Option<seq<RawEvent>>>)
    returns (places: seq<(int, int)>)
    requires |ids| == |events|
    ensures Reads(cfg, ids, events, Actionable(cfg, ids, events), places)
  {
    places := [];
    if ids != [] {
      var n := |ids| - 1;
      var earlier := ActionableReads(cfg, ids[..n], events[..n]);
      var raws := if events[n].Some? then events[n].value else [];
      var last: seq<(int, int)> := [];
      if Watched(cfg, ids[n]) {
        last := RoomReads(cfg, n, ids[n], raws);
      } else {
        UnwatchedReads(cfg, n, ids[n], raws);
      }
      places := earlier + last;
      ReadsOneRoomMore(cfg, ids, events, earlier, raws, last);
    }
  }

  lemma UnwatchedReads(cfg: Config, r: int, room: string, raws: seq<RawEvent>)
    requires !Watched(cfg, room)
    ensures ReadsRoom(cfg, r, room, raws, [], [])
  {
  }

  lemma ReadsOneRoomMore(cfg: Config, ids: seq<string>, events: seq<Option<seq<RawEvent>>>,
                         earlier: seq<(int, int)>, raws: seq<RawEvent>, last: seq<(int, int)>)
    requires |ids| == |events| > 0
    requires raws == if events[|ids| - 1].Some? then events[|ids| - 1].value else []
    requires var n := |ids| - 1;
             && Reads(cfg, ids[..n], events[..n], Actionable(cfg, ids[..n], events[..n]), earlier)
             && ReadsRoom(cfg, n, ids[n], raws, RoomActionable(cfg, ids[n], events[n]), last)
    ensures Reads(cfg, ids, events, Actionable(cfg, ids, events), earlier + last)
  {
    var n := |ids| - 1;
    PickedJoin((place: (int, int)) => AddressedAt(cfg, ids[..n], events[..n], place),
               (place: (int, int), event: Event) => DescribedAt(ids[..n], events[..n], place, event),
               Actionable(cfg, ids[..n], events[..n]), earlier,
               (place: (int, int)) => place.0 == n && AddressedIn(cfg, ids[n], raws, place.1),
               (place: (int, int), event: Event) => DescribedIn(ids[n], raws, place.1, event),
               RoomActionable(cfg, ids[n], events[n]), last,
               (place: (int, int)) => AddressedAt(cfg, ids, events, place),
               (place: (int, int), event: Event) => DescribedAt(ids, events, place, event));
  }

  ghost predicate ReadsExactly(cfg: Config, ids: seq<string>, events: seq<Option<seq<RawEvent>>>, found: seq<Event>)
    requires |ids| == |events|
  {
    exists places :: Reads(cfg, ids, events, found, places)
  }

  lemma ActionableIsExact(cfg: Config, ids: seq<string>, events: seq<Option<seq<RawEvent>>>)
    requires |ids| == |events|
    ensures ReadsExactly(cfg, ids, events, Actionable(cfg, ids, events))
  {
    var places := ActionableReads(cfg, ids, events);
  }

  /** `matrix_events`. */
  method MatrixEvents(cfg: Config, joined: seq<JoinedRoom>) returns (found: seq<Event>)
    ensures found == Actionable(cfg, Ids(joined), RoomEvents(joined))
    ensures ReadsExactly(cfg, Ids(joined), RoomEvents(joined), found)
  {
    found := [];
    ghost var ids, events := Ids(joined), RoomEvents(joined);
    for i := 0 to |joined|
      invariant found == Actionable(cfg, ids[..i], events[..i])
    {
      assert ids[..i + 1][..i] == ids[..i] && events[..i + 1][..i] == events[..i];
      var room := joined[i].id;
      if Watched(cfg, room) && joined[i].timeline.events.Some? {
        var raws := joined[i].timeline.events.value;
        ghost var before := found;
        for k := 0 to |raws|
          invariant found == before + ExtractAll(cfg, room, raws[..k])
        {
          assert raws[..k + 1][..k] == raws[..k];
          var event := Extract(cfg, room, raws[k]);
          if event.Some? {
            found := found + [event.value];
          }
        }
        assert raws[..|raws|] == raws;
      }
    }
    assert ids[..|joined|] == ids && events[..|joined|] == events;
    ActionableIsExact(cfg, ids, events);
  }

  lemma {:induction false} ExtractAllMembers(cfg: Config, room: string, raws: seq<RawEvent>, event: Event)
    requires Watched(cfg, room)
    ensures event in ExtractAll(cfg, room, raws) <==> Among(cfg, room, raws, event)
  {
    if raws != [] {
      ExtractAllMembers(cfg, room, raws[..|raws| - 1], event);
      AmongLast(cfg, room, raws, event);
    }
  }

  /** Some entry yields the event. */
  ghost predicate Among(cfg: Config, room: string, raws: seq<RawEvent>, event: Event)
    requires Watched(cfg, room)
  {
    exists k :: 0 <= k < |raws| && Extract(cfg, room, raws[k]) == Some(event)
  }

  lemma AmongLast(cfg: Config, room: string, raws: seq<RawEvent>, event: Event)
    requires Watched(cfg, room) && raws != []
    ensures Among(cfg, room, raws, event)
       <==> Among(cfg, room, raws[..|raws| - 1], event) || Extract(cfg, room, raws[|raws| - 1]) == Some(event)
  {
    var fewer := raws[..|raws| - 1];
    if k :| 0 <= k < |raws| && Extract(cfg, room, raws[k]) == Some(event) {
      assert k < |fewer| ==> Extract(cfg, room, fewer[k]) == Some(event);
    }
    if k :| 0 <= k < |fewer| && Extract(cfg, room, fewer[k]) == Some(event) {
      assert Extract(cfg, room, raws[k]) == Some(event);
    }
  }

  ghost predicate InSomeRoom(cfg: Config, ids: seq<string>, events: seq<Option<seq<RawEvent>>>, event: Event)
    requires |ids| == |events|
  {
    exists r :: 0 <= r < |ids| && event in RoomActionable(cfg, ids[r], events[r])
  }

  /** The payload yields exactly the extracted entries of its watched rooms. */
  lemma {:induction false} ActionableMembers(cfg: Config, ids: seq<string>, events: seq<Option<seq<RawEvent>>>,
                                             event: Event)
    requires |ids| == |events|
    ensures event in Actionable(cfg, ids, events) <==> InSomeRoom(cfg, ids, events, event)
  {
    if ids != [] {
      var n := |ids| - 1;
      var fewerIds, fewerEvents, last := ids[..n], events[..n], RoomActionable(cfg, ids[n], events[n]);
      ActionableMembers(cfg, fewerIds, fewerEvents, event);
      assert Actionable(cfg, ids, events) == Actionable(cfg, fewerIds, fewerEvents) + last;
      if InSomeRoom(cfg, fewerIds, fewerEvents, event) {
        var r :| 0 <= r < n && event in RoomActionable(cfg, fewerIds[r], fewerEvents[r]);
        assert event in RoomActionable(cfg, ids[r], events[r]);
      }
      if InSomeRoom(cfg, ids, events, event) {
        var r :| 0 <= r <= n && event in RoomActionable(cfg, ids[r], events[r]);
        if r < n {
          assert event in RoomActionable(cfg, fewerIds[r], fewerEvents[r]);
        }
      }
    }
  }

  // ------------------------------------------------------------ gap filling

  datatype PageEnd = NoEnd | BadEnd | End(token: string)
  datatype Page = RequestFailed | BadChunk | Page(chunk: seq<RawEvent>, end: PageEnd)

  /** The server's answer to /messages from one token to another in a room. */
  type Messages = (string, string, string) -> Page

  datatype GapError = NoBoundary | NoEvents | NotAdvancing | BadResponse

  /** Every page's end token is one of these. */
  ghost predicate TokensIn(messages: Messages, room: string, boundary: string, tokens: set<string>) {
    forall c :: EndIn(messages(room, c, boundary), tokens)
  }

  predicate EndIn(page: Page, tokens: set<string>) {
    page.Page? && page.end.End? ==> page.end.token in tokens
  }

  /** The events a forward walk from `cursor` to `boundary` collects. */
  ghost function Walk(messages: Messages, room: string, cursor: string, boundary: string,
                      seen: set<string>, tokens: set<string>): Result<seq<RawEvent>, GapError>
    requires TokensIn(messages, room, boundary, tokens) && cursor in tokens
    decreases |tokens - seen|
  {
    if cursor == boundary then Ok([])
    else if cursor == "" || cursor in seen then Err(NotAdvancing)
    else
      var page := messages(room, cursor, boundary);
      assert EndIn(page, tokens);
      match page
      case RequestFailed => Err(BadResponse)
      case BadChunk => Err(BadResponse)
      case Page(chunk, NoEnd) => Ok(chunk)
      case Page(chunk, BadEnd) => Err(BadResponse)
      case Page(chunk, End(token)) =>
        assert tokens - (seen + {cursor}) == (tokens - seen) - {cursor};
        match Walk(messages, room, token, boundary, seen + {cursor}, tokens)
        case Ok(rest) => Ok(chunk + rest)
        case Err(error) => Err(error)
  }

  function IdOf(raw: RawEvent): string {
    if raw.NotAnObject? then "" else raw.eventId
  }

  /** First copies: an event with an id already present is dropped. */
  function FirstCopies(events: seq<RawEvent>): seq<RawEvent> {
    if events == [] then []
    else
      var n := |events| - 1;
      var kept := FirstCopies(events[..n]);
      if IdOf(events[n]) != "" && IdOf(events[n]) in IdsIn(events[..n]) then kept else kept + [events[n]]
  }

  function IdsIn(events: seq<RawEvent>): set<string> {
    set k | 0 <= k < |events| && IdOf(events[k]) != "" :: IdOf(events[k])
  }

  /** What gap filling makes of one room's events. */
  ghost function Filled(messages: Messages, room: JoinedRoom, events: Option<seq<RawEvent>>, since: string,
                        roomTypes: map<string, string>, tokens: set<string>): Result<Option<seq<RawEvent>>, GapError>
    requires since in tokens
    requires room.timeline.prevBatch.Some? ==> TokensIn(messages, room.id, room.timeline.prevBatch.value, tokens)
  {
    if !(Watched(Config(roomTypes, "", {}), room.id) && room.timeline.limited) then Ok(events)
    else if room.timeline.prevBatch.None? || room.timeline.prevBatch.value == "" then Err(NoBoundary)
    else if events.None? then Err(NoEvents)
    else
      match Walk(messages, room.id, since, room.timeline.prevBatch.value, {}, tokens)
      case Ok(gap) => Ok(Some(FirstCopies(gap + events.value)))
      case Err(error) => Err(error)
  }

  /** The while loop of `fill_timeline_gaps`, for one room. */
  method CollectGap(messages: Messages, room: string, since: string, boundary: string, ghost tokens: set<string>)
    returns (gap: Result<seq<RawEvent>, GapError>)
    requires TokensIn(messages, room, boundary, tokens) && since in tokens
    ensures gap == Walk(messages, room, since, boundary, {}, tokens)
  {
    var cursor := since;
    var seen: set<string> := {};
    var collected: seq<RawEvent> := [];
    assert forall rest: seq<RawEvent> :: collected + rest == rest;
    while cursor != boundary
      invariant cursor in tokens
      invariant match Walk(messages, room, cursor, boundary, seen, tokens)
                case Ok(rest) => Walk(messages, room, since, boundary, {}, tokens) == Ok(collected + rest)
                case Err(error) => Walk(messages, room, since, boundary, {}, tokens) == Err(error)
      decreases |tokens - seen|
    {
      if cursor == "" || cursor in seen {
        return Err(NotAdvancing);
      }
      ghost var unseen := tokens - seen;
      seen := seen + {cursor};
      assert tokens - seen == unseen - {cursor};
      var page := messages(room, cursor, boundary);
      assert EndIn(page, tokens);
      if page.RequestFailed? || page.BadChunk? {
        return Err(BadResponse);
      }
      ghost var before := collected;
      collected := collected + page.chunk;
      match page.end
      case NoEnd => return Ok(collected);
      case BadEnd => return Err(BadResponse);
      case End(token) =>
        cursor := token;
        assert forall rest: seq<RawEvent> :: before + (page.chunk + rest) == collected + rest;
    }
    assert collected + [] == collected;
    gap := Ok(collected);
  }

  ghost predicate RepeatsEarlier(events: seq<RawEvent>, k: nat)
    requires k < |events|
  {
    IdOf(events[k]) != "" && exists j :: 0 <= j < k && IdOf(events[j]) == IdOf(events[k])
  }

  /** Kept are, in order, exactly the events at `places`: those that repeat no earlier one. */
  ghost predicate KeepsFirst(events: seq<RawEvent>, kept: seq<RawEvent>, places: seq<int>) {
    && |places| == |kept|
    && (forall i :: 0 <= i < |places| ==>
          0 <= places[i] < |events| && kept[i] == events[places[i]] && !RepeatsEarlier(events, places[i]))
    && (forall i, j :: 0 <= i < j < |places| ==> places[i] < places[j])
    && (forall k :: 0 <= k < |events| && !RepeatsEarlier(events, k) ==> k in places)
  }

  lemma {:induction false} FirstCopiesKeepFirst(events: seq<RawEvent>) returns (places: seq<int>)
    ensures KeepsFirst(events, FirstCopies(events), places)
  {
    places := [];
    if events != [] {
      var n := |events| - 1;
      var earlier := FirstCopiesKeepFirst(events[..n]);
      RepeatsIfKnown(events);
      KeepsFirstPush(events, FirstCopies(events[..n]), earlier);
      places := if RepeatsEarlier(events, n) then earlier else earlier + [n];
    }
  }

  lemma KeepsFirstPush(events: seq<RawEvent>, kept: seq<RawEvent>, places: seq<int>)
    requires events != [] && KeepsFirst(events[..|events| - 1], kept, places)
    ensures var n := |events| - 1;
            if RepeatsEarlier(events, n) then KeepsFirst(events, kept, places)
            else KeepsFirst(events, kept + [events[n]], places + [n])
  {
    var n := |events| - 1;
    forall k | 0 <= k < n
      ensures RepeatsEarlier(events[..n], k) <==> RepeatsEarlier(events, k)
    {
      RepeatsInPrefix(events, n, k);
    }
    assert forall k :: 0 <= k < n ==> events[..n][k] == events[k];
    assert (places + [n])[|places|] == n;
  }

  lemma RepeatsInPrefix(events: seq<RawEvent>, n: nat, k: nat)
    requires k < n <= |events|
    ensures RepeatsEarlier(events[..n], k) <==> RepeatsEarlier(events, k)
  {
    assert forall j :: 0 <= j <= k ==> events[..n][j] == events[j];
  }

  lemma RepeatsIfKnown(events: seq<RawEvent>)
    requires events != []
    ensures var n := |events| - 1;
            RepeatsEarlier(events, n) <==> IdOf(events[n]) != "" && IdOf(events[n]) in IdsIn(events[..n])
  {
    var n := |events| - 1;
    if IdOf(events[n]) != "" && IdOf(events[n]) in IdsIn(events[..n]) {
      var j :| 0 <= j < n && IdOf(events[..n][j]) == IdOf(events[n]);
      assert IdOf(events[j]) == IdOf(events[n]);
    }
    if RepeatsEarlier(events, n) {
      var j :| 0 <= j < n && IdOf(events[j]) == IdOf(events[n]);
      assert IdOf(events[..n][j]) == IdOf(events[n]);
    }
  }

  /** The loop over `gap + events`. */
  method KeepFirstCopies(events: seq<RawEvent>) returns (combined: seq<RawEvent>)
    ensures combined == FirstCopies(events)
    ensures exists places :: KeepsFirst(events, combined, places)
  {
    ghost var places := FirstCopiesKeepFirst(events);
    var seen: set<string> := {};
    combined := [];
    for i := 0 to |events|
      invariant combined == FirstCopies(events[..i])
      invariant seen == IdsIn(events[..i])
    {
      assert events[..i + 1][..i] == events[..i];
      var id := IdOf(events[i]);
      IdsInPush(events[..i], events[i]);
      assert events[..i] + [events[i]] == events[..i + 1];
      if id != "" {
        if id in seen {
          continue;
        }
        seen := seen + {id};
      }
      combined := combined + [events[i]];
    }
    assert events[..|events|] == events;
  }

  lemma IdsInPush(events: seq<RawEvent>, event: RawEvent)
    ensures IdsIn(events + [event]) == IdsIn(events) + (if IdOf(event) != "" then {IdOf(event)} else {})
  {
    var pushed := events + [event];
    forall id | id in IdsIn(events) ensures id in IdsIn(pushed) {
      var k :| 0 <= k < |events| && IdOf(events[k]) == id;
      assert pushed[k] == events[k];
    }
    assert pushed[|events|] == event;
  }

  /**
   `fill_timeline_gaps`: every watched limited room gets its gap and first
   copies; on an error the rooms before it are filled and the rest untouched
   (the caller drops the payload).
   */
  method FillTimelineGaps(messages: Messages, joined: seq<JoinedRoom>, since: string,
                          roomTypes: map<string, string>, ghost tokens: set<string>)
    returns (failure: Option<GapError>, ghost done: nat)
    requires since in tokens
    requires forall k :: 0 <= k < |joined| && joined[k].timeline.prevBatch.Some? ==>
                           TokensIn(messages, joined[k].id, joined[k].timeline.prevBatch.value, tokens)
    requires forall j, k :: 0 <= j < k < |joined| ==> joined[j].timeline != joined[k].timeline
    modifies set j | j in joined :: j.timeline
    ensures done <= |joined| && (failure.None? <==> done == |joined|)
    ensures forall k :: 0 <= k < done ==>
                          Filled(messages, joined[k], old(joined[k].timeline.events), since, roomTypes, tokens)
                          == Ok(joined[k].timeline.events)
    ensures forall k :: done <= k < |joined| ==> joined[k].timeline.events == old(joined[k].timeline.events)
    ensures failure.Some? ==>
              Filled(messages, joined[done], old(joined[done].timeline.events), since, roomTypes, tokens)
              == Err(failure.value)
  {
    done := 0;
    for i := 0 to |joined|
      invariant done == i
      invariant forall k :: 0 <= k < i ==>
                  Filled(messages, joined[k], old(joined[k].timeline.events), since, roomTypes, tokens)
                  == Ok(joined[k].timeline.events)
      invariant forall k :: i <= k < |joined| ==> joined[k].timeline.events == old(joined[k].timeline.events)
    {
      var room := joined[i];
      var timeline := room.timeline;
      if Watched(Config(roomTypes, "", {}), room.id) && timeline.limited {
        if timeline.prevBatch.None? || timeline.prevBatch.value == "" {
          return Some(NoBoundary), i;
        }
        if timeline.events.None? {
          return Some(NoEvents), i;
        }
        var gap := CollectGap(messages, room.id, since, timeline.prevBatch.value, tokens);
        if gap.Err? {
          return Some(gap.error), i;
        }
        var combined := KeepFirstCopies(gap.value + timeline.events.value);
        timeline.events := Some(combined);
      }
      done := i + 1;
    }
    failure := None;
  }

  // ---------------------------------------------------- what filling achieves

  /** No event id occurs twice. */
  ghost predicate DistinctIds(events: seq<RawEvent>) {
    forall i, j :: 0 <= i < j < |events| && IdOf(events[i]) == IdOf(events[j]) ==> IdOf(events[i]) == ""
  }

  /**
   A server serving one room's history forward in contiguous pages (section
   "Syncing" of the Matrix Client-Server API): each token stands at a position,
   a page ends where its end token stands, and a page without an end token
   reaches the boundary.
   */
  ghost predicate ServesForward(messages: Messages, room: string, boundary: string,
                                history: seq<RawEvent>, position: map<string, nat>)
  {
    && boundary in position && position[boundary] <= |history|
    && forall c :: c in position && position[c] <= position[boundary] && c != boundary ==>
                     ServesFrom(messages(room, c, boundary), c, boundary, history, position)
  }

  ghost predicate ServesFrom(page: Page, c: string, boundary: string, history: seq<RawEvent>, position: map<string,
                             nat>)
    requires c in position && boundary in position && position[c] <= position[boundary] <= |history|
  {
    && page.Page?
    && !page.end.BadEnd?
    && (page.end.NoEnd? ==> page.chunk == history[position[c]..position[boundary]])
    && (page.end.End? ==>
          && page.end.token in position
          && position[c] <= position[page.end.token] <= position[boundary]
          && page.chunk == history[position[c]..position[page.end.token]])
  }

  /** A walk that returns collected exactly the gap; otherwise a token repeated or was empty. */
  lemma {:induction false} WalkIsGap(messages: Messages, room: string, cursor: string, boundary: string,
                                     seen: set<string>, tokens: set<string>, history: seq<RawEvent>,
                                     position: map<string, nat>)
    requires TokensIn(messages, room, boundary, tokens) && cursor in tokens
    requires ServesForward(messages, room, boundary, history, position)
    requires cursor in position && position[cursor] <= position[boundary]
    ensures match Walk(messages, room, cursor, boundary, seen, tokens)
            case Ok(gap) => gap == history[position[cursor]..position[boundary]]
            case Err(error) => error == NotAdvancing
    decreases |tokens - seen|
  {
    if cursor != boundary && cursor != "" && cursor !in seen {
      var page := messages(room, cursor, boundary);
      assert ServesFrom(page, cursor, boundary, history, position);
      assert EndIn(page, tokens);
      if page.end.End? {
        var token := page.end.token;
        assert tokens - (seen + {cursor}) == (tokens - seen) - {cursor};
        WalkIsGap(messages, room, token, boundary, seen + {cursor}, tokens, history, position);
        assert history[position[cursor]..position[token]] + history[position[token]..position[boundary]]
            == history[position[cursor]..position[boundary]];
      }
    }
  }

  /** The pages a walk read: from fresh tokens, each page but the last naming the next one's. */
  ghost predicate Trail(messages: Messages, room: string, boundary: string, cursor: string, seen: set<string>,
                        cursors: seq<string>)
  {
    && (cursors != [] ==> cursors[0] == cursor)
    && (forall i :: 0 <= i < |cursors| ==> cursors[i] != boundary && cursors[i] != "" && cursors[i] !in seen)
    && (forall i, j :: 0 <= i < j < |cursors| ==> cursors[i] != cursors[j])
    && (forall i :: 0 <= i < |cursors| - 1 ==> NamesNext(messages(room, cursors[i], boundary), cursors[i + 1]))
  }

  predicate NamesNext(page: Page, token: string) {
    page.Page? && page.end == End(token)
  }

  function Chunks(messages: Messages, room: string, boundary: string, cursors: seq<string>): seq<RawEvent>
    requires forall i :: 0 <= i < |cursors| ==> messages(room, cursors[i], boundary).Page?
  {
    if cursors == [] then []
    else messages(room, cursors[0], boundary).chunk + Chunks(messages, room, boundary, cursors[1..])
  }

  /** How a trail ends decides what the walk returns. */
  ghost predicate Outcome(messages: Messages, room: string, boundary: string, cursor: string, seen: set<string>,
                          cursors: seq<string>, gap: Result<seq<RawEvent>, GapError>)
  {
    var last := if cursors == [] then Page([], End(cursor))
                else messages(room, cursors[|cursors| - 1], boundary);
    match gap
    case Ok(events) =>
      && (forall i :: 0 <= i < |cursors| ==> messages(room, cursors[i], boundary).Page?)
      && events == Chunks(messages, room, boundary, cursors)
      && last.Page? && (last.end == NoEnd || last.end == End(boundary))
    case Err(error) =>
      if error == BadResponse then last.RequestFailed? || last.BadChunk? || last.end == BadEnd
      else
        && error == NotAdvancing && last.Page? && last.end.End? && last.end.token != boundary
        && (last.end.token == "" || last.end.token in seen || last.end.token in cursors)
  }

  /**
   What a walk returns, page by page: the chunks of a trail that reaches the
   boundary or a page without an end token; an error if a page could not be read,
   and another if a token came back or was empty.
   */
  lemma {:induction false} WalkFollowsTrail(messages: Messages, room: string, cursor: string, boundary: string,
                                            seen: set<string>, tokens: set<string>) returns (cursors: seq<string>)
    requires TokensIn(messages, room, boundary, tokens) && cursor in tokens
    ensures Trail(messages, room, boundary, cursor, seen, cursors)
    ensures Outcome(messages, room, boundary, cursor, seen, cursors,
                    Walk(messages, room, cursor, boundary, seen, tokens))
    decreases |tokens - seen|
  {
    cursors := [];
    if cursor != boundary && cursor != "" && cursor !in seen {
      var page := messages(room, cursor, boundary);
      assert EndIn(page, tokens);
      cursors := [cursor];
      if page.Page? && page.end.End? {
        assert tokens - (seen + {cursor}) == (tokens - seen) - {cursor};
        var rest := WalkFollowsTrail(messages, room, page.end.token, boundary, seen + {cursor}, tokens);
        cursors := [cursor] + rest;
        TrailCons(messages, room, boundary, cursor, seen, rest);
        OutcomeCons(messages, room, boundary, cursor, seen, rest,
                    Walk(messages, room, page.end.token, boundary, seen + {cursor}, tokens));
      }
    }
  }

  lemma TrailCons(messages: Messages, room: string, boundary: string, cursor: string, seen: set<string>,
                  rest: seq<string>)
    requires cursor != boundary && cursor != "" && cursor !in seen
    requires var page := messages(room, cursor, boundary);
             && page.Page? && page.end.End?
             && Trail(messages, room, boundary, page.end.token, seen + {cursor}, rest)
    ensures Trail(messages, room, boundary, cursor, seen, [cursor] + rest)
  {
    var cursors := [cursor] + rest;
    forall i | 0 <= i < |cursors| - 1
      ensures NamesNext(messages(room, cursors[i], boundary), cursors[i + 1])
    {
      if i > 0 {
        assert cursors[i] == rest[i - 1] && cursors[i + 1] == rest[i - 1 + 1];
      }
    }
  }

  lemma OutcomeCons(messages: Messages, room: string, boundary: string, cursor: string, seen: set<string>,
                    rest: seq<string>, gap: Result<seq<RawEvent>, GapError>)
    requires var page := messages(room, cursor, boundary);
             && page.Page? && page.end.End?
             && Outcome(messages, room, boundary, page.end.token, seen + {cursor}, rest, gap)
    ensures Outcome(messages, room, boundary, cursor, seen, [cursor] + rest,
                    if gap.Ok? then Ok(messages(room, cursor, boundary).chunk + gap.value) else gap)
  {
    var cursors := [cursor] + rest;
    assert cursors[1..] == rest;
    assert forall i :: 0 < i < |cursors| ==> cursors[i] == rest[i - 1];
  }

  /** Some rank grows with every end token served, as over empty pages with fresh tokens. */
  ghost predicate Advances(messages: Messages, room: string, boundary: string, rank: map<string, nat>) {
    forall c :: c in rank && c != boundary ==> AdvancesFrom(messages(room, c, boundary), c, boundary, rank)
  }

  ghost predicate AdvancesFrom(page: Page, c: string, boundary: string, rank: map<string, nat>)
    requires c in rank
  {
    page.Page? && page.end.End? ==>
      || page.end.token == boundary
      || (page.end.token != "" && page.end.token in rank && rank[page.end.token] > rank[c])
  }

  /** If the tokens served never go back, no token repeats and the walk returns. */
  lemma {:induction false} AdvancingWalkReturns(messages: Messages, room: string, cursor: string, boundary: string,
                                                seen: set<string>, tokens: set<string>, rank: map<string, nat>)
    requires TokensIn(messages, room, boundary, tokens) && cursor in tokens
    requires Advances(messages, room, boundary, rank)
    requires cursor != boundary ==> cursor != "" && cursor in rank
    requires cursor != boundary ==> forall t :: t in seen ==> t in rank && rank[t] < rank[cursor]
    ensures Walk(messages, room, cursor, boundary, seen, tokens) != Err(NotAdvancing)
    decreases |tokens - seen|
  {
    if cursor != boundary {
      var page := messages(room, cursor, boundary);
      assert AdvancesFrom(page, cursor, boundary, rank);
      assert EndIn(page, tokens);
      if page.Page? && page.end.End? {
        assert tokens - (seen + {cursor}) == (tokens - seen) - {cursor};
        AdvancingWalkReturns(messages, room, page.end.token, boundary, seen + {cursor}, tokens, rank);
      }
    }
  }

  /** First copies keep every id once, keep the order and are a fixed point. */
  lemma {:induction false} FirstCopiesDistinct(events: seq<RawEvent>)
    ensures DistinctIds(FirstCopies(events)) && IdsIn(FirstCopies(events)) == IdsIn(events)
  {
    if events != [] {
      var n := |events| - 1;
      FirstCopiesDistinct(events[..n]);
      var kept := FirstCopies(events[..n]);
      IdsInPush(events[..n], events[n]);
      assert events[..n] + [events[n]] == events;
      if !(IdOf(events[n]) != "" && IdOf(events[n]) in IdsIn(events[..n])) {
        IdsInPush(kept, events[n]);
        forall i, j | 0 <= i < j <= n && j < |kept| + 1
            && IdOf((kept + [events[n]])[i]) == IdOf((kept + [events[n]])[j])
          ensures IdOf((kept + [events[n]])[i]) == "" {
        }
      }
    }
  }

  lemma {:induction false} FirstCopiesOfDistinct(events: seq<RawEvent>)
    requires DistinctIds(events)
    ensures FirstCopies(events) == events
  {
    if events != [] {
      var n := |events| - 1;
      assert DistinctIds(events[..n]);
      FirstCopiesOfDistinct(events[..n]);
      assert events[..n] + [events[n]] == events;
    }
  }

  lemma FirstCopiesPush(events: seq<RawEvent>, event: RawEvent)
    ensures FirstCopies(events + [event]) ==
            if IdOf(event) != "" && IdOf(event) in IdsIn(events) then FirstCopies(events)
            else FirstCopies(events) + [event]
  {
    assert (events + [event])[..|events|] == events;
  }

  /** An event of the history is among the collected ones exactly if it lies before where they end. */
  lemma InOverlap(history: seq<RawEvent>, from: nat, overlap: nat, boundary: nat, end: nat)
    requires from <= overlap <= boundary <= |history| && overlap <= end < |history|
    requires DistinctIds(history) && IdOf(history[end]) != ""
    ensures IdOf(history[end]) in IdsIn(history[from..boundary] + history[overlap..end]) <==> end < boundary
  {
    var events := history[from..boundary] + history[overlap..end];
    if end < boundary {
      assert events[end - from] == history[end];
    }
  }

  ghost predicate HaveIds(history: seq<RawEvent>, from: nat, to: nat)
    requires from <= to <= |history|
  {
    forall k {:trigger IdOf(history[k])} :: from <= k < to ==> IdOf(history[k]) != ""
  }

  /** The distinct gap alone: nothing of it is dropped. */
  lemma GapKept(history: seq<RawEvent>, from: nat, boundary: nat)
    requires from <= boundary <= |history| && DistinctIds(history)
    ensures FirstCopies(history[from..boundary]) == history[from..boundary]
  {
    assert DistinctIds(history[from..boundary]);
    FirstCopiesOfDistinct(history[from..boundary]);
  }

  function Collected(history: seq<RawEvent>, from: nat, overlap: nat, boundary: nat, end: nat): seq<RawEvent>
    requires from <= overlap <= boundary <= |history| && overlap <= end <= |history|
  {
    history[from..boundary] + history[overlap..end]
  }

  /** One more synced event after the collected ones. */
  lemma OverlapStep(history: seq<RawEvent>, from: nat, overlap: nat, boundary: nat, end: nat)
    requires from <= overlap <= boundary <= |history| && overlap <= end < |history|
    requires DistinctIds(history)
    requires end < boundary ==> IdOf(history[end]) != ""
    ensures end < boundary ==>
              FirstCopies(Collected(history, from, overlap, boundary, end + 1))
              == FirstCopies(Collected(history, from, overlap, boundary, end))
    ensures boundary <= end ==>
              FirstCopies(Collected(history, from, overlap, boundary, end + 1))
              == FirstCopies(Collected(history, from, overlap, boundary, end)) + [history[end]]
  {
    var events := history[from..boundary] + history[overlap..end];
    assert history[from..boundary] + history[overlap..end + 1] == events + [history[end]];
    if IdOf(history[end]) != "" {
      InOverlap(history, from, overlap, boundary, end);
    }
    FirstCopiesPush(events, history[end]);
  }

  lemma NoOverlapYet(history: seq<RawEvent>, from: nat, overlap: nat, boundary: nat)
    requires from <= overlap <= boundary <= |history| && DistinctIds(history)
    ensures FirstCopies(Collected(history, from, overlap, boundary, overlap)) == history[from..boundary]
  {
    var none: seq<RawEvent> := history[overlap..overlap];
    assert Collected(history, from, overlap, boundary, overlap) == history[from..boundary] + none;
    assert history[from..boundary] + none == history[from..boundary];
    GapKept(history, from, boundary);
  }

  function KeptUpTo(history: seq<RawEvent>, from: nat, overlap: nat, boundary: nat, e: nat): seq<RawEvent>
    requires from <= overlap <= boundary <= |history|
  {
    if overlap <= e <= |history| then FirstCopies(Collected(history, from, overlap, boundary, e)) else []
  }

  lemma {:induction false} ConstantSteps(kept: nat -> seq<RawEvent>, lo: nat, hi: nat)
    requires lo <= hi && forall e: nat :: lo <= e < hi ==> kept(e + 1) == kept(e)
    ensures kept(hi) == kept(lo)
    decreases hi
  {
    if lo < hi {
      ConstantSteps(kept, lo, hi - 1);
      assert kept(hi - 1 + 1) == kept(hi - 1);
    }
  }

  lemma {:induction false} GrowingSteps(kept: nat -> seq<RawEvent>, history: seq<RawEvent>, from: nat, lo: nat, hi: nat)
    requires from <= lo <= hi <= |history| && kept(lo) == history[from..lo]
    requires forall e: nat :: lo <= e < hi ==> kept(e + 1) == kept(e) + [history[e]]
    ensures kept(hi) == history[from..hi]
    decreases hi
  {
    if lo < hi {
      GrowingSteps(kept, history, from, lo, hi - 1);
      assert kept(hi - 1 + 1) == kept(hi - 1) + [history[hi - 1]];
    }
  }

  /** The sync's events before the boundary add nothing, those past it are added once each. */
  lemma OverlapAbsorbed(history: seq<RawEvent>, from: nat, overlap: nat, boundary: nat, end: nat)
    requires from <= overlap <= boundary <= end <= |history|
    requires DistinctIds(history) && HaveIds(history, overlap, boundary)
    ensures FirstCopies(history[from..boundary] + history[overlap..end]) == history[from..end]
  {
    var kept := (e: nat) => KeptUpTo(history, from, overlap, boundary, e);
    KeptSteps(kept, history, from, overlap, boundary, end);
    AbsorbedBy(kept, history, from, overlap, boundary, end);
    assert Collected(history, from, overlap, boundary, end) == history[from..boundary] + history[overlap..end];
  }

  lemma KeptSteps(kept: nat -> seq<RawEvent>, history: seq<RawEvent>, from: nat, overlap: nat, boundary: nat, end: nat)
    requires from <= overlap <= boundary <= end <= |history|
    requires DistinctIds(history) && HaveIds(history, overlap, boundary)
    requires forall e: nat :: kept(e) == KeptUpTo(history, from, overlap, boundary, e)
    ensures kept(overlap) == history[from..boundary]
    ensures forall e: nat :: overlap <= e < boundary ==> kept(e + 1) == kept(e)
    ensures forall e: nat :: boundary <= e < end ==> kept(e + 1) == kept(e) + [history[e]]
  {
    NoOverlapYet(history, from, overlap, boundary);
    forall e: nat | overlap <= e < end
      ensures kept(e + 1) == if e < boundary then kept(e) else kept(e) + [history[e]]
    {
      OverlapStep(history, from, overlap, boundary, e);
    }
  }

  lemma AbsorbedBy(kept: nat -> seq<RawEvent>, history: seq<RawEvent>, from: nat, overlap: nat, boundary: nat, end: nat)
    requires from <= overlap <= boundary <= end <= |history|
    requires kept(overlap) == history[from..boundary]
    requires forall e: nat :: overlap <= e < boundary ==> kept(e + 1) == kept(e)
    requires forall e: nat :: boundary <= e < end ==> kept(e + 1) == kept(e) + [history[e]]
    ensures kept(end) == history[from..end]
  {
    ConstantSteps(kept, overlap, boundary);
    GrowingSteps(kept, history, from, boundary, end);
  }

  /**
   Complete gap filling: against a contiguous server, a room whose sync returned
   `history[overlap..end]` ends up with everything from the cursor to `end`, each
   event once and in order, however far the sync and the pages overlap.
   */
  lemma FilledRoomIsComplete(messages: Messages, room: JoinedRoom, since: string, roomTypes: map<string, string>,
                             tokens: set<string>, history: seq<RawEvent>, position: map<string, nat>,
                             overlap: nat, end: nat)
    requires Watched(Config(roomTypes, "", {}), room.id) && room.timeline.limited
    requires room.timeline.prevBatch.Some? && room.timeline.prevBatch.value != ""
    requires var boundary := room.timeline.prevBatch.value;
             && since in tokens && TokensIn(messages, room.id, boundary, tokens)
             && ServesForward(messages, room.id, boundary, history, position)
             && since in position && position[since] <= overlap <= position[boundary] <= end <= |history|
             && HaveIds(history, overlap, position[boundary])
    requires DistinctIds(history)
    ensures match Filled(messages, room, Some(history[overlap..end]), since, roomTypes, tokens)
            case Ok(events) => events == Some(history[position[since]..end])
            case Err(error) => error == NotAdvancing
  {
    var boundary := room.timeline.prevBatch.value;
    WalkIsGap(messages, room.id, since, boundary, {}, tokens, history, position);
    OverlapAbsorbed(history, position[since], overlap, position[boundary], end);
  }
}
