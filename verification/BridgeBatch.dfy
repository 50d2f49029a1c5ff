/**
 Why a gap-filled sync payload is the batch the delivery protocol relies on: the
 rooms' timelines together hold exactly the stretch of the server's stream
 between the cursor and the announced next one.
 */
module BridgeBatch {
  import opened Wrappers
  import opened MatrixChannel
  import opened BridgeLog
  import opened BridgeProtocol

  /** One room's entries of a stretch of the stream, in order. */
  function RoomSlice(timeline: seq<Posted>, room: string, origin: nat, upto: nat): seq<RawEvent>
    requires origin <= upto <= |timeline|
    decreases upto
  {
    if origin == upto then []
    else
      var last := timeline[upto - 1];
      RoomSlice(timeline, room, origin, upto - 1) + if last.room == room then [last.raw] else []
  }

  lemma {:induction false} SliceMembers(timeline: seq<Posted>, room: string, origin: nat, upto: nat, raw: RawEvent)
    requires origin <= upto <= |timeline|
    ensures raw in RoomSlice(timeline, room, origin, upto)
       <==> exists i :: origin <= i < upto && timeline[i] == Posted(room, raw)
    decreases upto
  {
    if origin < upto {
      SliceMembers(timeline, room, origin, upto - 1, raw);
    }
  }

  lemma {:induction false} SliceSplit(timeline: seq<Posted>, room: string, a: nat, b: nat, c: nat)
    requires a <= b <= c <= |timeline|
    ensures RoomSlice(timeline, room, a, c) == RoomSlice(timeline, room, a, b) + RoomSlice(timeline, room, b, c)
    decreases c
  {
    if b < c {
      SliceSplit(timeline, room, a, b, c - 1);
    }
  }

  /** The stretch of a room's history between two stream positions. */
  lemma SliceOfHistory(timeline: seq<Posted>, room: string, origin: nat, upto: nat)
    requires origin <= upto <= |timeline|
    ensures var history := RoomSlice(timeline, room, 0, |timeline|);
            var from, to := |RoomSlice(timeline, room, 0, origin)|, |RoomSlice(timeline, room, 0, upto)|;
            from <= to <= |history| && history[from..to] == RoomSlice(timeline, room, origin, upto)
  {
    SliceSplit(timeline, room, 0, origin, upto);
    SliceSplit(timeline, room, 0, upto, |timeline|);
  }

  /**
   What is assumed of the server for one limited room: its sync returned the
   room's history from `overlap` to the next batch, and its pages are contiguous
   from the cursor to `prev_batch`, which lies in between.
   */
  ghost predicate CoversStretch(messages: Messages, room: JoinedRoom, since: string, tokens: set<string>,
                                timeline: seq<Posted>, position: map<string, nat>, overlap: nat,
                                origin: nat, upto: nat)
    requires origin <= upto <= |timeline| && room.timeline.prevBatch.Some?
  {
    var boundary := room.timeline.prevBatch.value;
    var history := RoomSlice(timeline, room.id, 0, |timeline|);
    var end := |RoomSlice(timeline, room.id, 0, upto)|;
    && DistinctIds(history)
    && since in tokens && TokensIn(messages, room.id, boundary, tokens)
    && ServesForward(messages, room.id, boundary, history, position)
    && since in position && position[since] == |RoomSlice(timeline, room.id, 0, origin)|
    && position[since] <= overlap <= position[boundary] <= end <= |history|
    && HaveIds(history, overlap, position[boundary])
  }

  /** The room's events in the sync that CoversStretch speaks of. */
  function SyncedPart(timeline: seq<Posted>, room: string, overlap: nat, upto: nat): seq<RawEvent>
    requires upto <= |timeline|
  {
    var end := |RoomSlice(timeline, room, 0, upto)|;
    if overlap <= end <= |RoomSlice(timeline, room, 0, |timeline|)|
    then RoomSlice(timeline, room, 0, |timeline|)[overlap..end] else []
  }

  /**
   A watched room's timeline after gap filling is its part of the stretch from
   the cursor to the next batch, if the server's pages and its sync cover them.
   */
  lemma FilledRoomHoldsItsSlice(messages: Messages, room: JoinedRoom, since: string, roomTypes: map<string, string>,
                                tokens: set<string>, timeline: seq<Posted>, position: map<string, nat>,
                                overlap: nat, origin: nat, upto: nat)
    requires origin <= upto <= |timeline|
    requires Watched(Config(roomTypes, "", {}), room.id) && room.timeline.limited
    requires room.timeline.prevBatch.Some? && room.timeline.prevBatch.value != ""
    requires CoversStretch(messages, room, since, tokens, timeline, position, overlap, origin, upto)
    ensures match Filled(messages, room, Some(SyncedPart(timeline, room.id, overlap, upto)), since, roomTypes, tokens)
            case Ok(events) => events == Some(RoomSlice(timeline, room.id, origin, upto))
            case Err(error) => error == NotAdvancing
  {
    var history := RoomSlice(timeline, room.id, 0, |timeline|);
    SliceOfHistory(timeline, room.id, origin, upto);
    FilledRoomIsComplete(messages, room, since, roomTypes, tokens, history, position, overlap,
                         |RoomSlice(timeline, room.id, 0, upto)|);
  }

  /** The rooms of the payload hold their slices, and no watched room of the stretch is missing. */
  ghost predicate HoldsStretch(cfg: Config, timeline: seq<Posted>, origin: nat, upto: nat, ids: seq<string>,
                               events: seq<Option<seq<RawEvent>>>)
    requires origin <= upto <= |timeline| && |ids| == |events|
  {
    && (forall r :: 0 <= r < |ids| && Watched(cfg, ids[r]) ==>
          events[r] == Some(RoomSlice(timeline, ids[r], origin, upto)))
    && (forall i :: origin <= i < upto && Watched(cfg, timeline[i].room) ==> timeline[i].room in ids)
  }

  lemma RoomHoldsEvent(cfg: Config, timeline: seq<Posted>, origin: nat, upto: nat, room: string, event: Event)
    requires origin <= upto <= |timeline| && Watched(cfg, room)
    ensures event in RoomActionable(cfg, room, Some(RoomSlice(timeline, room, origin, upto)))
       <==> YieldedIn(cfg, timeline, origin, upto, room, event)
  {
    var raws := RoomSlice(timeline, room, origin, upto);
    ExtractAllMembers(cfg, room, raws, event);
    if Among(cfg, room, raws, event) {
      SlicedIsYielded(cfg, timeline, origin, upto, room, event);
    }
    if YieldedIn(cfg, timeline, origin, upto, room, event) {
      YieldedIsSliced(cfg, timeline, origin, upto, room, event);
    }
  }

  /** Some entry of the room in the stretch yields the event. */
  ghost predicate YieldedIn(cfg: Config, timeline: seq<Posted>, origin: nat, upto: nat, room: string, event: Event)
    requires origin <= upto <= |timeline|
  {
    exists i :: origin <= i < upto && timeline[i].room == room && Yields(cfg, timeline[i], event)
  }

  lemma SlicedIsYielded(cfg: Config, timeline: seq<Posted>, origin: nat, upto: nat, room: string, event: Event)
    requires origin <= upto <= |timeline| && Watched(cfg, room)
    requires Among(cfg, room, RoomSlice(timeline, room, origin, upto), event)
    ensures YieldedIn(cfg, timeline, origin, upto, room, event)
  {
    var raws := RoomSlice(timeline, room, origin, upto);
    var k :| 0 <= k < |raws| && Extract(cfg, room, raws[k]) == Some(event);
    SliceMembers(timeline, room, origin, upto, raws[k]);
    var i :| origin <= i < upto && timeline[i] == Posted(room, raws[k]);
    assert Yields(cfg, timeline[i], event);
  }

  lemma YieldedIsSliced(cfg: Config, timeline: seq<Posted>, origin: nat, upto: nat, room: string, event: Event)
    requires origin <= upto <= |timeline| && Watched(cfg, room)
    requires YieldedIn(cfg, timeline, origin, upto, room, event)
    ensures Among(cfg, room, RoomSlice(timeline, room, origin, upto), event)
  {
    var i :| origin <= i < upto && timeline[i].room == room && Yields(cfg, timeline[i], event);
    assert timeline[i] == Posted(room, timeline[i].raw);
    SliceMembers(timeline, room, origin, upto, timeline[i].raw);
  }

  /** The events `matrix_events` finds in a gap-filled payload are a batch of the protocol. */
  lemma GapFilledBatch(cfg: Config, timeline: seq<Posted>, origin: nat, upto: nat, ids: seq<string>,
                       events: seq<Option<seq<RawEvent>>>)
    requires origin <= upto <= |timeline| && |ids| == |events|
    requires HoldsStretch(cfg, timeline, origin, upto, ids, events)
    ensures IsBatch(cfg, timeline, origin, upto, Actionable(cfg, ids, events))
  {
    forall event ensures event in Actionable(cfg, ids, events) <==> ActionableIn(cfg, timeline, origin, upto, event) {
      ActionableMembers(cfg, ids, events, event);
      if InSomeRoom(cfg, ids, events, event) {
        var r :| 0 <= r < |ids| && event in RoomActionable(cfg, ids[r], events[r]);
        RoomHoldsEvent(cfg, timeline, origin, upto, ids[r], event);
      }
      if ActionableIn(cfg, timeline, origin, upto, event) {
        var i :| origin <= i < upto && Yields(cfg, timeline[i], event);
        var r :| 0 <= r < |ids| && ids[r] == timeline[i].room;
        RoomHoldsEvent(cfg, timeline, origin, upto, ids[r], event);
        assert event in RoomActionable(cfg, ids[r], events[r]);
      }
    }
  }

  // -------------------------------------------------- from the sync to the batch

  /** What the sync returned for one room: its whole part of the stretch, or a limited end of it. */
  ghost predicate SyncedRoom(messages: Messages, room: JoinedRoom, events: Option<seq<RawEvent>>, since: string,
                             cfg: Config, tokens: set<string>, timeline: seq<Posted>, origin: nat, upto: nat)
    requires origin <= upto <= |timeline|
  {
    Watched(cfg, room.id) ==>
      if !room.timeline.limited then events == Some(RoomSlice(timeline, room.id, origin, upto))
      else room.timeline.prevBatch.Some? ==>
        exists position, overlap ::
          && CoversStretch(messages, room, since, tokens, timeline, position, overlap, origin, upto)
          && events == Some(SyncedPart(timeline, room.id, overlap, upto))
  }

  lemma FilledIsSlice(messages: Messages, room: JoinedRoom, events: Option<seq<RawEvent>>, since: string, cfg: Config,
                      tokens: set<string>, timeline: seq<Posted>, origin: nat, upto: nat)
    requires origin <= upto <= |timeline| && since in tokens && Watched(cfg, room.id)
    requires room.timeline.prevBatch.Some? ==> TokensIn(messages, room.id, room.timeline.prevBatch.value, tokens)
    requires SyncedRoom(messages, room, events, since, cfg, tokens, timeline, origin, upto)
    ensures Filled(messages, room, events, since, cfg.roomTypes, tokens).Ok? ==>
              Filled(messages, room, events, since, cfg.roomTypes, tokens).value
              == Some(RoomSlice(timeline, room.id, origin, upto))
  {
    if room.timeline.limited && room.timeline.prevBatch.Some? && room.timeline.prevBatch.value != "" {
      var position, overlap :|
        && CoversStretch(messages, room, since, tokens, timeline, position, overlap, origin, upto)
        && events == Some(SyncedPart(timeline, room.id, overlap, upto));
      FilledRoomHoldsItsSlice(messages, room, since, cfg.roomTypes, tokens, timeline, position, overlap, origin, upto);
    }
  }

  /**
   The two calls after a sync. If the sync covers the stretch from the cursor to
   the announced next batch, a normal return yields a batch of the protocol.
   */
  method FetchBatch(messages: Messages, joined: seq<JoinedRoom>, since: string, cfg: Config,
                    ghost tokens: set<string>, ghost timeline: seq<Posted>, ghost origin: nat, ghost upto: nat)
    returns (failure: Option<GapError>, found: seq<Event>)
    requires origin <= upto <= |timeline| && since in tokens
    requires forall k :: 0 <= k < |joined| && joined[k].timeline.prevBatch.Some? ==>
                           TokensIn(messages, joined[k].id, joined[k].timeline.prevBatch.value, tokens)
    requires forall j, k :: 0 <= j < k < |joined| ==> joined[j].timeline != joined[k].timeline
    requires forall k :: 0 <= k < |joined| ==>
               SyncedRoom(messages, joined[k], joined[k].timeline.events, since, cfg, tokens, timeline, origin, upto)
    requires forall i :: origin <= i < upto && Watched(cfg, timeline[i].room) ==> timeline[i].room in Ids(joined)
    modifies set j | j in joined :: j.timeline
    ensures failure.None? ==> IsBatch(cfg, timeline, origin, upto, found)
  {
    ghost var synced := RoomEvents(joined);
    ghost var done;
    failure, done := FillTimelineGaps(messages, joined, since, cfg.roomTypes, tokens);
    found := [];
    if failure.None? {
      forall k | 0 <= k < |joined| && Watched(cfg, joined[k].id)
        ensures joined[k].timeline.events == Some(RoomSlice(timeline, joined[k].id, origin, upto))
      {
        FilledIsSlice(messages, joined[k], synced[k], since, cfg, tokens, timeline, origin, upto);
      }
      found := MatrixEvents(cfg, joined);
      GapFilledBatch(cfg, timeline, origin, upto, Ids(joined), RoomEvents(joined));
    }
  }
}
