/**
 Whom a bridge's replies mention, and why two agents do not answer each other
 for ever: replies to an agent carry a marker that stops the next bridge from
 mentioning its source again.
 */
module ReplyRouting {
  import opened Wrappers
  import opened MatrixChannel
  import Text

  /** `visible_matrix_user_ids`: the allowed ids standing as whole tokens in a text. */
  type Visible = (string, set<string>) -> set<string>

  function SourceAgent(cfg: Config, event: Event): string {
    if event.sender != cfg.ownUserId && event.sender in cfg.agents && !event.autoSourceMention then event.sender else ""
  }

  function ReplyMentions(visible: Visible, cfg: Config, event: Event, text: string): set<string> {
    var source := SourceAgent(cfg, event);
    visible(text, cfg.agents - {cfg.ownUserId}) + if source != "" then {source} else {}
  }

  /** The message `send_text` and `send_file` put into the room. */
  function Message(cfg: Config, id: string, msgtype: string, body: string, url: string, mentioned: set<string>,
                   auto: bool): RawEvent {
    var mentions := mentioned - {""};
    Raw("m.room.message", id, cfg.ownUserId, false,
        Some(Content(if mentions == {} then NoMentions else Mentions(false, mentions),
                     msgtype, body, auto, url, body, "")))
  }

  /** The reply or failure notice a bridge sends for an event. */
  function TextReply(visible: Visible, cfg: Config, event: Event, id: string, text: string): RawEvent {
    Message(cfg, id, "m.text", text, "", ReplyMentions(visible, cfg, event, text), SourceAgent(cfg, event) != "")
  }

  /** A returned file: it mentions the source agent only. */
  function FileReply(cfg: Config, event: Event, id: string, name: string, url: string, image: bool): RawEvent {
    var source := SourceAgent(cfg, event);
    Message(cfg, id, if image then "m.image" else "m.file", name, url, {source}, source != "")
  }

  /** Another agent's message that was not itself sent in answer to one. */
  predicate FromAgent(cfg: Config, event: Event) {
    event.sender in cfg.agents && event.sender != cfg.ownUserId && !event.autoSourceMention
  }

  /** A mention list as a message carries it. */
  ghost predicate Mentioning(message: RawEvent, users: set<string>) {
    && message.Raw? && message.content.Some?
    && message.content.value.mentions == if users == {} then NoMentions else Mentions(false, users)
  }

  /**
   What replies carry: a file mentions the agent that asked for it, if it was one,
   and nobody else; a text also the agents it visibly names. The marker says that
   the source was mentioned.
   */
  lemma RepliesCarry(visible: Visible, cfg: Config, event: Event, id: string, text: string, name: string, url: string,
                     image: bool)
    requires event.sender != ""
    ensures var file := FileReply(cfg, event, id, name, url, image);
            && Mentioning(file, if FromAgent(cfg, event) then {event.sender} else {})
            && file.eventType == "m.room.message" && file.sender == cfg.ownUserId && !file.redacted
            && file.content.value.msgtype == (if image then "m.image" else "m.file")
            && file.content.value.body == name && file.content.value.filename == name && file.content.value.url == url
            && file.content.value.autoSourceMention == FromAgent(cfg, event)
    ensures var reply := TextReply(visible, cfg, event, id, text);
            && Mentioning(reply, (visible(text, cfg.agents - {cfg.ownUserId})
                                + if FromAgent(cfg, event) then {event.sender} else {}) - {""})
            && reply.eventType == "m.room.message" && reply.sender == cfg.ownUserId && !reply.redacted
            && reply.content.value.msgtype == "m.text" && reply.content.value.body == text
            && reply.content.value.autoSourceMention == FromAgent(cfg, event)
  {
    assert {""} - {""} == {};
    assert {event.sender} - {""} == {event.sender};
  }

  /** The bridge answers the message in this room; `quiet` asks that the text name no other agent. */
  ghost predicate Answers(visible: Visible, cfg: Config, room: string, message: RawEvent, reply: RawEvent,
                          quiet: bool) {
    && Watched(cfg, room)
    && Extract(cfg, room, message).Some?
    && var event := Extract(cfg, room, message).value;
       || (exists id, text :: reply == TextReply(visible, cfg, event, id, text)
                              && (quiet ==> visible(text, cfg.agents - {cfg.ownUserId}) == {}))
       || (exists id, name, url, image :: reply == FileReply(cfg, event, id, name, url, image))
  }

  /** Every message after the first answers the one before it, through some bridge. */
  ghost predicate ReplyChain(visible: Visible, bridges: set<Config>, room: string, chain: seq<RawEvent>, quiet: bool) {
    forall k :: 0 <= k < |chain| - 1 ==> AnsweredBySome(visible, bridges, room, chain[k], chain[k + 1], quiet)
  }

  ghost predicate AnsweredBySome(visible: Visible, bridges: set<Config>, room: string, message: RawEvent,
                                 reply: RawEvent, quiet: bool) {
    exists cfg :: cfg in bridges && Answers(visible, cfg, room, message, reply, quiet)
  }

  /** All bridges know the same agents and each is one of them. */
  ghost predicate ShareAgents(bridges: set<Config>, agents: set<string>) {
    forall cfg :: cfg in bridges ==>
                    cfg.agents == agents && cfg.ownUserId in agents && Text.Strip(cfg.ownUserId) == cfg.ownUserId
  }

  /** A bridge's message that mentions nobody. */
  ghost predicate Unaddressed(agents: set<string>, message: RawEvent) {
    && message.Raw? && message.content.Some? && message.content.value.mentions.NoMentions?
    && Text.Strip(message.sender) in agents
  }

  ghost predicate MarkedAutomatic(message: RawEvent) {
    message.Raw? && message.content.Some? && message.content.value.autoSourceMention
  }

  /** A quiet reply either mentions nobody or carries the automatic-mention marker. */
  lemma QuietReply(visible: Visible, bridges: set<Config>, agents: set<string>, room: string, message: RawEvent,
                   reply: RawEvent)
    requires ShareAgents(bridges, agents) && AnsweredBySome(visible, bridges, room, message, reply, true)
    ensures Unaddressed(agents, reply) || MarkedAutomatic(reply)
    ensures MarkedAutomatic(message) ==> Unaddressed(agents, reply)
    ensures !Unaddressed(agents, message)
  {
    var cfg :| cfg in bridges && Answers(visible, cfg, room, message, reply, true);
    var event := Extract(cfg, room, message).value;
    assert event.autoSourceMention == message.content.value.autoSourceMention;
  }

  /**
   No endless bounce: if no reply or failure text visibly names another agent,
   any message starts a chain of at most two replies, files included.
   */
  lemma NoEndlessBounce(visible: Visible, bridges: set<Config>, agents: set<string>, room: string, chain: seq<RawEvent>)
    requires ShareAgents(bridges, agents)
    requires ReplyChain(visible, bridges, room, chain, true)
    ensures |chain| <= 3
  {
    if |chain| > 3 {
      forall k | 0 <= k < 3
        ensures AnsweredBySome(visible, bridges, room, chain[k], chain[k + 1], true)
      {
      }
      QuietReply(visible, bridges, agents, room, chain[0], chain[1]);
      QuietReply(visible, bridges, agents, room, chain[1], chain[2]);
      QuietReply(visible, bridges, agents, room, chain[2], chain[3]);
      assert false;
    }
  }

  // ------------------------------------------------- the hypotheses are needed

  lemma StripWord(s: string)
    requires s != "" && !Text.IsPythonSpace(s[0]) && !Text.IsPythonSpace(s[|s| - 1])
    ensures Text.Strip(s) == s
  {
  }

  /** A well-formed text message from one bridge that mentions another user. */
  predicate Plain(message: RawEvent, sender: string, mentioned: set<string>, auto: bool) {
    message == Raw("m.room.message", "$e", sender, false,
                   Some(Content(if mentioned == {} then NoMentions else Mentions(false, mentioned),
                                "m.text", "t", auto, "", "t", "")))
  }

  /** Such a message reaches every other bridge watching the room that it targets or that does not know its sender. */
  lemma PlainIsActionable(cfg: Config, room: string, message: RawEvent, sender: string, mentioned: set<string>,
                          auto: bool)
    requires Watched(cfg, room) && Plain(message, sender, mentioned, auto)
    requires sender != cfg.ownUserId && sender != "" && Text.Strip(sender) == sender
    requires cfg.ownUserId in mentioned || (cfg.roomTypes[room] == "personal" && sender !in cfg.agents)
    ensures Extract(cfg, room, message).Some?
    ensures Extract(cfg, room, message).value.sender == sender
    ensures Extract(cfg, room, message).value.autoSourceMention == auto
  {
    StripWord("t");
    StripWord("$e");
  }

  /** The bridge answers a message from the other agent with a text naming `named`. */
  lemma PlainAnswer(visible: Visible, cfg: Config, other: string, room: string, message: RawEvent, reply: RawEvent,
                    auto: bool, named: set<string>)
    requires Watched(cfg, room) && cfg.agents == {cfg.ownUserId, other}
    requires cfg.ownUserId != other && other != "" && Text.Strip(other) == other
    requires visible("t", {other}) == named && "" !in named
    requires Plain(message, other, {cfg.ownUserId}, auto)
    requires Plain(reply, cfg.ownUserId, named + (if auto then {} else {other}), !auto)
    ensures Answers(visible, cfg, room, message, reply, named == {})
  {
    PlainIsActionable(cfg, room, message, other, {cfg.ownUserId}, auto);
    var event := Extract(cfg, room, message).value;
    assert cfg.agents - {cfg.ownUserId} == {other};
    var mentioned := ReplyMentions(visible, cfg, event, "t");
    assert mentioned == named + (if auto then {} else {other});
    assert mentioned - {""} == mentioned;
    assert reply == TextReply(visible, cfg, event, "$e", "t");
  }

  /** Two replies do occur: an agent's message is answered and the answer is answered. */
  lemma TwoRepliesOccur(visible: Visible, a: Config, b: Config, room: string, chain: seq<RawEvent>)
    requires a.ownUserId != b.ownUserId && ShareAgents({a, b}, {a.ownUserId, b.ownUserId})
    requires a.ownUserId != "" && b.ownUserId != ""
    requires Watched(a, room) && Watched(b, room)
    requires visible("t", {a.ownUserId}) == {} && visible("t", {b.ownUserId}) == {}
    requires |chain| == 3 && Plain(chain[0], a.ownUserId, {b.ownUserId}, false)
    requires Plain(chain[1], b.ownUserId, {a.ownUserId}, true) && Plain(chain[2], a.ownUserId, {}, false)
    ensures ReplyChain(visible, {a, b}, room, chain, true)
  {
    assert {} + {a.ownUserId} == {a.ownUserId};
    PlainAnswer(visible, b, a.ownUserId, room, chain[0], chain[1], false, {});
    PlainAnswer(visible, a, b.ownUserId, room, chain[1], chain[2], true, {});
  }

  /** Two agents whose texts keep naming each other answer each other any number of times. */
  lemma NamingBounces(visible: Visible, a: Config, b: Config, room: string, chain: seq<RawEvent>)
    requires a.ownUserId != b.ownUserId && ShareAgents({a, b}, {a.ownUserId, b.ownUserId})
    requires a.ownUserId != "" && b.ownUserId != ""
    requires Watched(a, room) && Watched(b, room)
    requires visible("t", {a.ownUserId}) == {a.ownUserId} && visible("t", {b.ownUserId}) == {b.ownUserId}
    requires forall k :: 0 <= k < |chain| ==>
                           if k % 2 == 0 then Plain(chain[k], a.ownUserId, {b.ownUserId}, false)
                           else Plain(chain[k], b.ownUserId, {a.ownUserId}, true)
    ensures ReplyChain(visible, {a, b}, room, chain, false)
  {
    forall k | 0 <= k < |chain| - 1 ensures AnsweredBySome(visible, {a, b}, room, chain[k], chain[k + 1], false) {
      var asker, replier := if k % 2 == 0 then a else b, if k % 2 == 0 then b else a;
      assert {asker.ownUserId} + {asker.ownUserId} == {asker.ownUserId} + {} == {asker.ownUserId};
      PlainAnswer(visible, replier, asker.ownUserId, room, chain[k], chain[k + 1], k % 2 == 1, {asker.ownUserId});
      assert Answers(visible, replier, room, chain[k], chain[k + 1], false);
    }
  }

  /**
   Outside the shared agent set the marker does not help: in a personal room such
   bridges answer each other without being mentioned.
   */
  lemma StrangersBounce(visible: Visible, a: Config, b: Config, room: string, chain: seq<RawEvent>)
    requires a.ownUserId != b.ownUserId && a.agents == {} && b.agents == {} && visible("t", {}) == {}
    requires a.ownUserId != "" && b.ownUserId != "" && Text.Strip(a.ownUserId) == a.ownUserId
    requires Text.Strip(b.ownUserId) == b.ownUserId
    requires Watched(a, room) && Watched(b, room) && a.roomTypes[room] == "personal" && b.roomTypes[room] == "personal"
    requires forall k :: 0 <= k < |chain| ==>
               Plain(chain[k], if k % 2 == 0 then a.ownUserId else b.ownUserId, {}, false)
    ensures ReplyChain(visible, {a, b}, room, chain, true)
  {
    forall k | 0 <= k < |chain| - 1 ensures AnsweredBySome(visible, {a, b}, room, chain[k], chain[k + 1], true) {
      var asker, replier := if k % 2 == 0 then a else b, if k % 2 == 0 then b else a;
      StrangerAnswers(visible, replier, asker.ownUserId, room, chain[k], chain[k + 1]);
    }
  }

  lemma StrangerAnswers(visible: Visible, cfg: Config, other: string, room: string, message: RawEvent, reply: RawEvent)
    requires cfg.agents == {} && visible("t", {}) == {} && cfg.ownUserId != other
    requires other != "" && Text.Strip(other) == other
    requires Watched(cfg, room) && cfg.roomTypes[room] == "personal"
    requires Plain(message, other, {}, false) && Plain(reply, cfg.ownUserId, {}, false)
    ensures Answers(visible, cfg, room, message, reply, true)
  {
    PlainIsActionable(cfg, room, message, other, {}, false);
    var event := Extract(cfg, room, message).value;
    assert cfg.agents - {cfg.ownUserId} == {};
    assert reply == TextReply(visible, cfg, event, "$e", "t");
  }
}
