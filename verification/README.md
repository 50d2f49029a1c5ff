# Verified model of AgentTeams' delivery, audit, document and access cores

This Dafny project models the parts of AgentTeams that have to be right under
crashes, concurrency and repetition, and proves what they promise.

* **The DeepSeek Harness Matrix bridge.** `BridgeProtocol` is the bridge's
  delivery loop as a transition system: a step for every point at which an
  operation can fail or the process can die, over three copies of the state (in
  memory, in the atomically replaced file, in the pushed remote copy) and a
  homeserver that keeps the first message of each transaction. Every copy carries
  the log of transitions it came about by. `BridgeSafety` proves one invariant of
  all steps, `BridgeTheorems` what it means for every run, `BridgeOutcomes` what
  became of each event: that its answer and every file were in its room, or a
  failure notice, before it counted as completed, and which step everything sent
  goes back to. `BridgeLiveness` proves that without faults the loop is never
  stuck and every run delivers in full. What the loop does not keep, and exactly
  when, is in `BridgeRegressions`; `BridgeWitness` has runs from the initial state
  that show it. `BridgeState` is the bridge's state class with its in-place
  updates, proved field by field and against the record functions
  (`BridgeRecords`) the protocol takes its steps with. `MatrixChannel` is event extraction and gap
  filling, `BridgeBatch` connects a gap-filled payload to the batch the protocol
  fetches, `ReplyRouting` is about whom replies mention.
* **The audit store.** `AuditLog` is the daily object and its positions,
  `AuditWriter` any number of writers interleaved per storage operation,
  `AuditClient` the append loop itself beside other writers, `AuditQuery` one
  query, `AuditPaging` following cursors while events keep being recorded.
* **Marker-managed documents.** `AgentsMerge` merges the managed section of
  AGENTS.md and SOUL.md, `Coordination` injects and removes the team-context
  block, `Reconcile` composes the two as every reconcile of a worker does.
* **Smaller cores.** `TokenCache` (bounded cache of token reviews),
  `DockerStream` (exec stream demultiplexer), `ModelCatalog` (catalog, aliases,
  allowlist), `ChannelPolicy` (allow and deny lists).

`Text` and `Wrappers` are shared helpers.

## Where the code and its documentation differ

The model follows the code.

* A completed event can fall back to failed, because the final push is inside
  the inner `try`. A completion in memory is taken back by a step exactly if the
  step records a failure of that event, prunes its record or loads a file without
  the completion (`CompletedStaysIff`); a failure is recorded over it only after
  the completion failed to be saved or pushed (`RegressionFollowsFailedPush`), and
  a run from the initial state does so (`CompletedRegresses`).
* The attempt number can pass the maximum. A begin passes it if and only if memory
  holds a failure that used up the attempts and a crash, a failed save or push, or
  an unacknowledged notice came after it (`BeginExceedsIff`); for every maximum
  there are runs that pass it by any amount (`AttemptsPassMaximum`).
* The position adopted at the first start is kept from the first push on
  (`StartIsFixed`). If that push fails and the container starts over, the position
  is adopted anew and what was posted in between is never read
  (`AdoptedStartMoves`).
* The comment on `MergeBuiltinSection` says that a target without markers is
  overwritten; the code keeps it as user text. That text survives the next merge
  only under an exact condition (`LegacyTextSurvives`).
* Merging and injecting on every reconcile does not settle while there is user
  text: each pass moves it two lines down (`PassSettlesIffNoUserText`).
* Injecting is meant to replace the block only. A start marker left unmatched
  before the block makes the next removal take everything from that marker on
  (`RemoveUndoesInject`, `RemoveAfterStray`).
* The first write of a day is unconditional, so two processes racing for it can
  lose a line (`FirstWritersRace`). Over a whole run nothing is lost if and only
  if no put without precondition took effect on content (`NothingLostIff`).
* The gateway prefix on a model name is accepted except when the spelling also
  begins with the provider's own prefix (`SpellingsAgree`).

## What is assumed

* Hashes are injective: SHA-256 of a transaction key or a token, MD5 ETags. JSON
  text of an event decodes back to it and holds no newline; RFC 3339 instants are
  integers with 0 for the zero instant.
* Sync tokens are positions of one stream, and event ids in it are distinct. The
  homeserver serves contiguous forward pages (section "Syncing" of the Matrix
  Client-Server API) and deduplicates by room and transaction id (section
  "Transaction identifiers").
* A container that starts over mirrors the remote runtime directory over the
  local one (deepseek-harness/scripts/deepseek-harness-worker-entrypoint.sh), so
  a crash leaves the file as it was or as the remote copy has it.
* What is said of an event from one entry of a log on assumes that its record was
  not pruned since that entry; a record pruned and begun again starts a new life,
  of which the same holds.
* Dictionary order among equal timestamps is left open, so pruning is proved for
  every order.
* Text positions count code points where Go counts bytes; all markers are ASCII.

## Model

| member | source | states |
|---|---|---|
| `BridgeTheorems.NoEventSkipped` | deepseek-harness/scripts/matrix_bridge.py:442-551 | in every run with crashes and failures anywhere, each stream position a copy's cursor has passed lies in a processed stretch, and if its entry was actionable the event's last recorded transition in that copy is its completion |
| `BridgeTheorems.AnswerPushedBeforeReply` | deepseek-harness/scripts/matrix_bridge.py:487-505 | whenever a reply is sent, its answer is recorded in memory, in the file and in the remote copy alike |
| `BridgeTheorems.OneFixedReply` | deepseek-harness/scripts/matrix_bridge.py:460-518 | everything sent under an event's reply key is the answer recorded in every copy that has not pruned the record since, through crashes, retries and regressions |
| `BridgeTheorems.RoomShowsTheAnswer` | deepseek-harness/scripts/matrix_channel.py:265-269 | what a room shows under an event's reply key was sent under it, and is the answer recorded in every copy that has not pruned the record since |
| `BridgeTheorems.NoRunAfterAnswer` | deepseek-harness/scripts/matrix_bridge.py:461-490 | once the remote copy holds an answer, the agent never runs for that event until the record is pruned |
| `BridgeTheorems.AttemptNumbers` | deepseek-harness/scripts/bridge_state.py:65-77 | between two runs of one event with no pruning of its record in between, the attempt number is the same if no failure was recorded in between and strictly larger otherwise |
| `BridgeTheorems.RetriesBounded` | deepseek-harness/scripts/matrix_bridge.py:517-530 | from the last pruning of an event's record on, the retry branch is taken at most max_attempts - 1 times, in any run |
| `BridgeTheorems.OneBaseline` | deepseek-harness/scripts/matrix_bridge.py:469-474 | runs of an event with no pruning in between measure from one outbox snapshot |
| `BridgeTheorems.OutputsMeasuredFromFirstRun` | deepseek-harness/scripts/matrix_bridge.py:205-207 | the outputs recorded with an answer are the sorted outbox files whose digest differs from the snapshot taken before any run of the record's life, the first one included, and every such run precedes the answer |
| `BridgeOutcomes.EveryEventIsTold` | deepseek-harness/scripts/matrix_bridge.py:442-551 | no event goes unanswered: in every run, for each stream position the cursor of a copy has passed, the actionable event there has a failure notice in its room, or its reply and every file of the answer its record held when it was completed |
| `BridgeOutcomes.CompletedOnlyInFull` | deepseek-harness/scripts/matrix_bridge.py:494-516 | in every run, whenever an answered event is completed, the last messages sent are its reply and then each returned file in order, each under its own transaction key, and the room holds a message under every one of these keys |
| `BridgeOutcomes.ExactlyTheChangedFiles` | deepseek-harness/scripts/matrix_bridge.py:464-514 | in every run, a file is returned with a completed answer if and only if it was in the outbox when the answer was recorded and was absent or different when the event's baseline was taken |
| `BridgeOutcomes.SentAsRecorded` | deepseek-harness/scripts/bridge_state.py:79-108 | whatever is sent goes back to the step that recorded it: a reply has the non-empty text of the event's recorded answer, a file is one of its outputs |
| `BridgeOutcomes.RunsMeasureFromBaseline` | deepseek-harness/scripts/matrix_bridge.py:469-474 | the baseline of every agent run is the outbox as the step that took it saw it |
| `BridgeOutcomes.EntriesAreRecorded` | deepseek-harness/scripts/matrix_bridge.py:457-551 | every log entry of every copy was recorded by an earlier step, onto exactly the entries before it and with what that step was given and saw |
| `BridgeOutcomes.MessagesStay` | deepseek-harness/scripts/matrix_channel.py:265-269 | a message once in a room under a transaction key never changes |
| `BridgeOutcomes.RoomShowsTheFile` | deepseek-harness/scripts/matrix_channel.py:290-315 | the file a room shows under an event's file key is the one the key names, and a recorded answer of the event returned it |
| `BridgeOutcomes.NoticeOnlyWhenUsedUp` | deepseek-harness/scripts/matrix_bridge.py:521-543 | a failed event is retried while its attempts are below the maximum, and its failure told only when they are not |
| `BridgeOutcomes.CursorSavedFirst` | deepseek-harness/scripts/matrix_bridge.py:421-435 | a start position adopted from the server is in the file before the loop relies on it |
| `BridgeOutcomes.StartIsFixed` | deepseek-harness/scripts/matrix_bridge.py:428-435 | from the first push on every copy of every later state starts at the same adopted position |
| `BridgeRegressions.CompletedStaysIff` | deepseek-harness/scripts/bridge_state.py:65-138 | for every step from a good state, a record completed in memory stays completed if and only if the step neither records a failure of that event, nor prunes it, nor loads a file without the completion |
| `BridgeRegressions.RegressionFollowsFailedPush` | deepseek-harness/scripts/matrix_bridge.py:514-520 | in every run, an error raised over a completed event follows the failed save or push of that very completion |
| `BridgeWitness.CompletedRegresses` | deepseek-harness/scripts/matrix_bridge.py:514-520 | from every initial state, any actionable entry has a run in which it is completed and then recorded as failed |
| `BridgeRegressions.ExceedsIffExhausted` | deepseek-harness/scripts/bridge_state.py:65-77 | a begin's attempt number exceeds the maximum if and only if its log holds, since the last drop, a failure recorded with the attempts used up |
| `BridgeRegressions.ExhaustedIsHandled` | deepseek-harness/scripts/matrix_bridge.py:517-543 | until a crash, a failed save or push or an unacknowledged notice, such a failure is being handled or has ended in the event's completion |
| `BridgeRegressions.BeginExceedsIff` | deepseek-harness/scripts/matrix_bridge.py:457-543 | in every run a begin passes the maximum if and only if memory holds such a failure and one of those faults came after it |
| `BridgeWitness.AttemptsPassMaximum` | deepseek-harness/scripts/matrix_bridge.py:531-543 | whatever the maximum, any actionable entry has a run from the initial state that begins it with any given attempt number |
| `BridgeWitness.AdoptedStartMoves` | deepseek-harness/scripts/matrix_bridge.py:428-435 | from every initial state a run in which the first push fails and the start position adopted anew lies behind an entry posted in between |
| `BridgeSafety.StepKeepsInv` | deepseek-harness/scripts/matrix_bridge.py:442-560 | every step of the loop, fault or not, keeps the invariant tying the three copies, the histories and the position in the loop together |
| `BridgeSafety.InvAlways` | deepseek-harness/scripts/matrix_bridge.py:442-560 | the invariant holds in every state of every run |
| `BridgeLog.RecordPersists` | deepseek-harness/scripts/bridge_state.py:65-138 | over any legal sequence of transitions a living record keeps its answer and its baseline and never loses attempts |
| `BridgeLog.AttemptsTally` | deepseek-harness/scripts/bridge_state.py:65-112 | the attempt number counts exactly whether a failure was recorded since |
| `BridgeLog.AdvancesTile` | deepseek-harness/scripts/matrix_bridge.py:546-551 | the recorded cursor moves leave no stream position out |
| `BridgeLog.StatusIsLast` | deepseek-harness/scripts/bridge_state.py:140-142 | a record's status is what the event's last recorded transition made it |
| `BridgeLog.RecordShowsLast` | deepseek-harness/scripts/bridge_state.py:65-138 | a record shows the status, time, answer, baseline, error or reply of its event's last recorded transition |
| `BridgeLog.AnswerIsKept` | deepseek-harness/scripts/bridge_state.py:79-90 | until its record is pruned an event's answer has the text and the outputs it was recorded with |
| `BridgeLog.AnswerHasEntry` | deepseek-harness/scripts/bridge_state.py:79-108 | every answer found was recorded, text and outputs, in the record's present life |
| `BridgeLog.BaselineHasEntry` | deepseek-harness/scripts/bridge_state.py:92-101 | every baseline found was recorded in the record's present life |
| `BridgeLiveness.FaultlessRunsDeliver` | deepseek-harness/scripts/matrix_bridge.py:453-551 | every run in which nothing fails and the process goes on ends its batch, of any events and outputs: each event was completed with its reply and every one of its files in its room, or was found completed at its turn, all are completed, and the cursor is past an announced batch |
| `BridgeLiveness.NeverStuck` | deepseek-harness/scripts/matrix_bridge.py:453-551 | at every point of the work on a batch a step without a fault is possible |
| `BridgeLiveness.FetchedIsOnTrack` | deepseek-harness/scripts/matrix_bridge.py:453-456 | every fetched batch starts such a run |
| `BridgeWitness.WaitingIsReachable` | deepseek-harness/scripts/matrix_bridge.py:428-456 | from every initial state the loop comes to wait for a batch of any actionable entry that arrives |
| `BridgeRecords.PruningKeepsTheRecent` | deepseek-harness/scripts/bridge_state.py:128-138 | spelled out for each allowed pruning: at most 2000 completed records remain, nothing unfinished goes, and each kept completed record is at least as recent as each dropped one |
| `BridgeRecords.RecentSurvives` | deepseek-harness/scripts/bridge_state.py:128-138 | a completed record with fewer than 2000 completed rivals of an equal or later time survives every allowed order of ties |
| `BridgeRecords.OldIsDropped` | deepseek-harness/scripts/bridge_state.py:128-138 | a completed record with 2000 strictly later ones is dropped |
| `BridgeState.BridgeState.Load` | deepseek-harness/scripts/bridge_state.py:26-39 | a missing file is a fresh state, missing parts are empty, an unknown version is an error, and what was saved is loaded back |
| `BridgeState.BridgeState.SessionFor` | deepseek-harness/scripts/bridge_state.py:49-59 | a room gets one session, derived from its id, and no other room's session changes |
| `BridgeState.BridgeState.BeginEvent` | deepseek-harness/scripts/bridge_state.py:65-77 | a new record gets the room and attempt 1, an existing one keeps answer and baseline and counts one more attempt if it had failed; no other record changes, and the table is the protocol's begin transition |
| `BridgeState.BridgeState.MarkAnswer` | deepseek-harness/scripts/bridge_state.py:79-90 | the record holds exactly this text and these outputs, no baseline, no error and the old attempts; no other record changes, and the table is the protocol's answer transition |
| `BridgeState.BridgeState.MarkOutboxBefore` | deepseek-harness/scripts/bridge_state.py:92-95 | the record holds this snapshot and keeps status, answer and attempts; no other record changes |
| `BridgeState.BridgeState.MarkFailure` | deepseek-harness/scripts/bridge_state.py:110-112 | the record is failed with this error and keeps attempts, answer and baseline; no other record changes |
| `BridgeState.BridgeState.MarkCompleted` | deepseek-harness/scripts/bridge_state.py:119-138 | the record, if pruning leaves it, is completed with this reply at this time; what the table lost is one of the allowed prunings and nothing else changed |
| `BridgeState.CutIsPruneChoice` | deepseek-harness/scripts/bridge_state.py:128-138 | cutting a newest-first list after 2000 entries is an allowed pruning |
| `BridgeState.SortNewestFirst` | deepseek-harness/scripts/bridge_state.py:128-136 | the list is newest first and holds each id once |
| `MatrixChannel.MatrixEvents` | deepseek-harness/scripts/matrix_channel.py:17-89 | the loop finds exactly the addressed entries of the payload, one each and in order, each event carrying what its entry says: the conditions and fields are stated on the entry itself |
| `MatrixChannel.ActionableReads` | deepseek-harness/scripts/matrix_channel.py:35-89 | an entry is found if and only if it is someone else's unredacted message in a watched room, from a person in a personal room or mentioning the bridge, of a known kind and complete; the event's fields are its own, the filename falling back to the body |
| `MatrixChannel.ActionableMembers` | deepseek-harness/scripts/matrix_channel.py:17-89 | an event is found if and only if some watched room's entry yields it |
| `MatrixChannel.FillTimelineGaps` | deepseek-harness/scripts/matrix_channel.py:149-196 | on a normal return every room's timeline is its gap-filled one, on an error it stops at the first failing room; it always ends on a server with finitely many tokens |
| `MatrixChannel.CollectGap` | deepseek-harness/scripts/matrix_channel.py:167-185 | the page loop returns exactly the walk over the server's pages, and raises on a repeated or empty token |
| `MatrixChannel.KeepFirstCopies` | deepseek-harness/scripts/matrix_channel.py:186-196 | keeps, in order, exactly the events that repeat no earlier id |
| `MatrixChannel.WalkFollowsTrail` | deepseek-harness/scripts/matrix_channel.py:167-185 | what the page loop returns, page by page: the chunks of a trail of fresh tokens that reaches the boundary or a page without an end, one error for a page that cannot be read, another for a repeated or empty token |
| `MatrixChannel.WalkIsGap` | deepseek-harness/scripts/matrix_channel.py:167-185 | against contiguous forward pages a returning walk is exactly the history from the cursor to prev_batch |
| `MatrixChannel.AdvancingWalkReturns` | deepseek-harness/scripts/matrix_channel.py:167-185 | on a server whose pages advance the walk does return |
| `MatrixChannel.FirstCopiesDistinct` | deepseek-harness/scripts/matrix_channel.py:186-196 | after filling no id occurs twice and every id still occurs |
| `MatrixChannel.OverlapAbsorbed` | deepseek-harness/scripts/matrix_channel.py:186-196 | however far sync and pages overlap, each event is kept once and in order |
| `MatrixChannel.FilledRoomIsComplete` | deepseek-harness/scripts/matrix_channel.py:149-196 | a normal return leaves exactly the events from the cursor to the end of the sync |
| `BridgeBatch.FilledRoomHoldsItsSlice` | deepseek-harness/scripts/matrix_bridge.py:453-454 | a gap-filled room holds exactly its part of the stream between the two tokens |
| `BridgeBatch.FetchBatch` | deepseek-harness/scripts/matrix_bridge.py:453-456 | filling the gaps of a sync that covers the stretch and extracting its events, a normal return yields a batch of the protocol, with limited and unlimited rooms mixed |
| `BridgeBatch.GapFilledBatch` | deepseek-harness/scripts/matrix_bridge.py:453-456 | the events found in a gap-filled payload are exactly the batch the protocol fetches |
| `ReplyRouting.NoEndlessBounce` | deepseek-harness/scripts/matrix_bridge.py:119-138 | if no text visibly names another agent, bridges sharing one agent set produce chains of at most two replies, files included |
| `ReplyRouting.QuietReply` | deepseek-harness/scripts/matrix_bridge.py:495-513 | a quiet reply mentions nobody or is marked automatic, and a marked message gets an unaddressed reply |
| `ReplyRouting.RepliesCarry` | deepseek-harness/scripts/matrix_bridge.py:119-138 | a returned file mentions the agent that asked for it, unless its message was an automatic answer, and nobody else; a text also the agents it visibly names; the marker is set exactly when the source is mentioned |
| `ReplyRouting.TwoRepliesOccur` | deepseek-harness/scripts/matrix_bridge.py:495-513 | the bound of two is reached |
| `ReplyRouting.NamingBounces` | deepseek-harness/scripts/matrix_bridge.py:126-138 | agents whose texts name each other do bounce any number of times |
| `ReplyRouting.StrangersBounce` | deepseek-harness/scripts/matrix_channel.py:52-57 | without a shared agent set personal rooms bounce too |
| `AuditLog.ParseDailyObject` | agentteams-controller/internal/audit/query.go:313-333 | rejected if and only if some non-blank line is no event or has no instant; otherwise the events of all non-blank lines in order, with their days and numbers |
| `AuditLog.AppendKeepsPositions` | agentteams-controller/internal/audit/audit.go:148-151 | appending a line keeps every event's day and line number and adds one event at the next line |
| `AuditLog.GluedLine` | agentteams-controller/internal/audit/audit.go:148-151 | behind content without a final newline the new line is glued to the last one |
| `AuditLog.RecordAllKeepsStore` | agentteams-controller/internal/audit/audit.go:106-171 | any number of appends keep every stored event where it is |
| `AuditLog.RecordedReadsBack` | agentteams-controller/internal/audit/audit.go:106-171 | what was recorded reads back: each day's object holds what it held and then exactly that day's recorded events, in order and numbered on |
| `AuditLog.DayHoldsInstant` | agentteams-controller/internal/audit/query.go:335-338 | an event's day is the 24 hours from midnight UTC that hold its instant |
| `AuditLog.RecordedHoldsOwnDays` | agentteams-controller/internal/audit/audit.go:106-171 | whatever is recorded into an empty store, its objects hold only their own UTC day's events |
| `AuditWriter.NoLostLine` | agentteams-controller/internal/audit/audit.go:106-171 | from any moment of any interleaving at which the object exists and pending reads are of it, at every later moment it is what it was then plus the lines committed since, in order |
| `AuditWriter.BackoffInRange` | agentteams-controller/internal/audit/audit.go:112-121 | the delay looked up always exists and no append makes more than four tries |
| `AuditWriter.AloneNeverLoses` | agentteams-controller/internal/audit/audit.go:106-171 | one process loses no line, whether or not the object exists |
| `AuditWriter.NothingLostIff` | agentteams-controller/internal/audit/audit.go:106-171 | in every run from the beginning, object or not, the object is its first content plus every committed line in order if and only if no put without precondition took effect on content |
| `AuditWriter.OrderedIsGrowing` | agentteams-controller/internal/audit/audit.go:123-146 | once the object exists and no writer holds a put without precondition, the hypothesis of NoLostLine is met |
| `AuditWriter.CommitsOnce` | agentteams-controller/internal/audit/audit.go:106-171 | no append commits its line twice |
| `AuditWriter.CommitsAreRequested` | agentteams-controller/internal/audit/audit.go:106-171 | every committed line is the line of the Record call its ticket was given to |
| `AuditWriter.AcknowledgedIsCommitted` | agentteams-controller/internal/audit/audit.go:153-171 | a put reported as done has committed the line its append was started with |
| `AuditWriter.FirstWritersRace` | agentteams-controller/internal/audit/audit.go:153-162 | two first writers of a day: a run in which the second drops the first one's committed line |
| `AuditClient.Client.AppendJSONL` | agentteams-controller/internal/audit/audit.go:106-171 | beside writers that create objects and append to them, success means the day's object gained exactly this line after all that was read, failure that it gained it at most once; only an object absent at the call and made meanwhile can be started over; a conflict is reported only after four tries |
| `AuditClient.Client.Record` | agentteams-controller/internal/audit/audit.go:74-98 | the stamped event is always logged, and its line stored at most once, with the same exception |
| `AuditQuery.List` | agentteams-controller/internal/audit/query.go:134-215 | errors exactly when the query is refused or a scanned day fails; otherwise one page of the listing of every stored event that matches and comes after the cursor, later instants first, at one instant later days and then later lines first |
| `AuditQuery.ListingUnique` | agentteams-controller/internal/audit/query.go:226-234 | the order is strict and total on positions: a set of events has one listing |
| `AuditQuery.PruningLosesNothing` | agentteams-controller/internal/audit/query.go:251-308 | scanning only the days within the bounds selects the same events as scanning everything |
| `AuditQuery.ScanPathsAgree` | agentteams-controller/internal/audit/query.go:251-308 | the computed range and the listing read the same objects |
| `AuditQuery.DailyKeys` | agentteams-controller/internal/audit/query.go:251-308 | a query with both bounds scans exactly the days it checked against 366, others the listed days within the bound |
| `AuditQuery.GatherDistinct` | agentteams-controller/internal/audit/query.go:143-158 | positions of scanned events are distinct |
| `AuditQuery.SortNewestFirst` | agentteams-controller/internal/audit/query.go:178-180 | sorting keeps the events with their multiplicities; later instants come first, at one instant later days, then later lines |
| `AuditQuery.FilterMatching` | agentteams-controller/internal/audit/query.go:160-176 | keeps exactly the matching events |
| `AuditQuery.KindsAreFamilies` | agentteams-controller/internal/audit/query.go:48-61 | a kind selects the actions with its prefix, any other action is its own kind |
| `AuditQuery.DropSeen` | agentteams-controller/internal/audit/query.go:182-196 | keeps exactly the events at an earlier instant than the cursor's, or at the same one on an earlier day or line |
| `AuditQuery.TakePage` | agentteams-controller/internal/audit/query.go:198-214 | the page is the first limit events, with a cursor at its last one exactly if more follow |
| `AuditPaging.PaginationIsExact` | agentteams-controller/internal/audit/query.go:178-246 | following cursors while the store grows: over all pages together later instants come first, at one instant later days and then later lines, so nothing twice; every event wanted at the first page is shown, and only stored, matching ones |
| `AuditPaging.RecordingKeepsSession` | agentteams-controller/internal/audit/audit.go:106-171 | recording events between two pages is the growth a session allows |
| `AgentsMerge.ExtractFrontmatter` | agentteams-controller/internal/agentconfig/agents_merge.go:30-48 | split behind the second line that trims to three dashes if the first line does too, the body without the newlines it begins with; in every other case no frontmatter and the whole text |
| `AgentsMerge.FrontmatterIsCut` | agentteams-controller/internal/agentconfig/agents_merge.go:30-48 | from a text of lines with fences the fenced part is cut off exactly: the join of fences and inner lines, and the join of the rest without leading newlines |
| `AgentsMerge.FrontmatterReassembles` | agentteams-controller/internal/agentconfig/agents_merge.go:30-48 | frontmatter, the newlines trimmed, and body are the whole text |
| `AgentsMerge.Wrap` | agentteams-controller/internal/agentconfig/agents_merge.go:50-68 | the builder writes header, trimmed body, end marker and the user part |
| `AgentsMerge.MergeBuiltinSection` | agentteams-controller/internal/agentconfig/agents_merge.go:14-26 | merging drops the source's frontmatter and is the merge the lemmas are about |
| `AgentsMerge.MergeSoulTemplate` | agentteams-controller/internal/agentconfig/agents_merge.go:91-102 | the same merge with the template's markers and no frontmatter handling |
| `AgentsMerge.FirstEndIsQuoted` | agentteams-controller/internal/agentconfig/types.go:79-83 | the first end marker of a wrapped document is the quotation in its header |
| `AgentsMerge.ExtractWrapped` | agentteams-controller/internal/agentconfig/agents_merge.go:70-82 | what a wrapped document gives back of any text: the text after the last quoted end marker, or the whole, without leading newlines and with one final newline |
| `AgentsMerge.UserTextOfMerged` | agentteams-controller/internal/agentconfig/agents_merge.go:14-26 | a merge over a marked target keeps exactly the user text found in it |
| `AgentsMerge.SectionIsSource` | agentteams-controller/internal/agentconfig/agents_merge.go:14-26 | every merge installs its source: between the header and the next end marker stands the source's body, whatever the target was |
| `AgentsMerge.BuiltinSectionIsBody` | agentteams-controller/internal/agentconfig/agents_merge.go:14-56 | over any target, the section installed from a source with frontmatter reads as the lines behind it, without the newlines around them |
| `AgentsMerge.SectionIsWhole` | agentteams-controller/internal/agentconfig/agents_merge.go:14-56 | a source without frontmatter is installed as a whole |
| `AgentsMerge.MergeAbsorbs` | agentteams-controller/internal/agentconfig/agents_merge.go:14-26 | over an empty or marked target, merging twice equals merging the last source alone |
| `AgentsMerge.ThirdMergeForgetsTheSecond` | agentteams-controller/internal/agentconfig/agents_merge.go:14-26 | over every target only the first and the last merge matter, so a third merge of one source changes nothing |
| `AgentsMerge.LegacyTextSurvives` | agentteams-controller/internal/agentconfig/agents_merge.go:24-26 | the second merge of an unmarked target changes nothing if and only if the target is not blank, opens with no newline and quotes no end marker |
| `Coordination.RemoveCoordinationBlock` | agentteams-controller/internal/agentconfig/coordination.go:153-171 | the loop ends, each round on a shorter text, with all blocks removed |
| `Coordination.RemovedIsClean` | agentteams-controller/internal/agentconfig/coordination.go:153-171 | no start marker is left before an end marker, and only texts that have one change |
| `Coordination.RemoveInserted` | agentteams-controller/internal/agentconfig/coordination.go:153-171 | a block behind a text without start marker is removed with its newline, and nothing else |
| `Coordination.InjectCoordinationContext` | agentteams-controller/internal/agentconfig/coordination.go:37-49 | the block goes after the last builtin end marker of the cleaned text, or at the trimmed end |
| `Coordination.InjectsBehindLast` | agentteams-controller/internal/agentconfig/coordination.go:37-49 | in a text without blocks the block goes right behind the last builtin end marker and all else stays |
| `Coordination.InjectsAtEnd` | agentteams-controller/internal/agentconfig/coordination.go:37-49 | without such a marker it goes to the end of the text without its final newlines |
| `Coordination.RemoveUndoesInject` | agentteams-controller/internal/agentconfig/coordination.go:37-49 | removing after injecting gives the cleaned text opened by exactly two newlines if and only if no start marker stands before that place |
| `Coordination.RemoveAfterStray` | agentteams-controller/internal/agentconfig/coordination.go:153-171 | otherwise everything from that stray marker through the block is removed |
| `Coordination.AtInjected` | agentteams-controller/internal/agentconfig/coordination.go:37-57 | where markers occur after an injection |
| `Coordination.ExactlyOneBlock` | agentteams-controller/internal/agentconfig/coordination.go:37-49 | when no marker remains and the text holds none, injecting leaves exactly one block, the new one |
| `Coordination.InjectAgain` | agentteams-controller/internal/agentconfig/coordination.go:37-49 | an injection keeps what is before the block and puts two newlines before what is after |
| `Coordination.InjectMany` | agentteams-controller/internal/agentconfig/coordination.go:37-49 | after n injections only the last block remains, with 2(n-1) newlines behind it, or none where there is no builtin end marker |
| `Coordination.UniqueCoordinationIDs` | agentteams-controller/internal/agentconfig/coordination.go:137-151 | the loop with its seen map computes the list of unique ids |
| `Coordination.UniqueIsExact` | agentteams-controller/internal/agentconfig/coordination.go:137-151 | exactly the ids neither empty nor excluded, each once, in the order of first occurrence |
| `Reconcile.PrepareAgents` | agentteams-controller/internal/service/deployer.go:1697-1746 | the inline or stored text is merged; leaders and standalone workers with a team context are left there, the others get their block |
| `Reconcile.PrepareMerged` | agentteams-controller/internal/service/deployer.go:1716-1763 | a leader's text stays as merged, a member's gets the block, a standalone worker's gets it unless it holds a team context already |
| `Reconcile.MemberPass` | agentteams-controller/internal/service/deployer.go:1710-1741 | for a team member without inline text a reconcile is one pass over what the last one wrote |
| `Reconcile.FirstPass` | agentteams-controller/internal/service/deployer.go:1710-1741 | over an unmarked document it leaves section, block and the user's text |
| `Reconcile.PassOnManaged` | agentteams-controller/internal/service/deployer.go:1710-1741 | a pass replaces section and block and sets the rest two lines lower |
| `Reconcile.EveryPassKeepsUserText` | agentteams-controller/internal/service/deployer.go:1710-1741 | after n passes with any sources and contexts the user's text stands unchanged 2n newlines below the block |
| `Reconcile.PassSettlesIffNoUserText` | agentteams-controller/internal/service/deployer.go:1710-1741 | repeating a pass changes nothing if and only if there is no user text; otherwise the document grows by two |
| `DockerStream.Reader.ReadFull` | agentteams-controller/internal/backend/docker.go:536-541 | fills the buffer with the next bytes; fewer are an error, an end of file before the first byte, an unexpected one after it, or the reader's own |
| `DockerStream.ReadDockerExecStream` | agentteams-controller/internal/backend/docker.go:532-559 | the loop decodes the reader's bytes as specified and ends |
| `DockerStream.WholeFrames` | agentteams-controller/internal/backend/docker.go:532-559 | whole frames are delivered in order to their streams whatever follows, other streams ignored |
| `DockerStream.DecodeInvertsEncode` | agentteams-controller/internal/backend/docker.go:532-559 | decoding frames and a cut header gives the frames' payloads at the end of the file, an error on a broken reader |
| `DockerStream.CutPayloadIsError` | agentteams-controller/internal/backend/docker.go:545-548 | a cut inside a payload is an error with exactly this cause |
| `DockerStream.DecodesIffWhole` | agentteams-controller/internal/backend/docker.go:532-559 | decoding any bytes succeeds if and only if they are whole frames and fewer than eight more bytes at an end of file |
| `DockerStream.BigEndianInverts` | agentteams-controller/internal/backend/docker.go:542 | the four length bytes read back as the length |
| `TokenCache.TokenReviewAuthenticator.GetFromCache` | agentteams-controller/internal/auth/authenticator.go:195-203 | hits exactly the unexpired entries, with a new object |
| `TokenCache.TokenReviewAuthenticator.SweepExpired` | agentteams-controller/internal/auth/authenticator.go:257-266 | removes exactly the expired entries and counts them |
| `TokenCache.TokenReviewAuthenticator.EvictOldest` | agentteams-controller/internal/auth/authenticator.go:271-285 | removes one entry of the earliest expiry, if there is any |
| `TokenCache.TokenReviewAuthenticator.PutInCache` | agentteams-controller/internal/auth/authenticator.go:205-218 | stores a copy of what a review said, after making room only in a full cache, and stays at or below the maximum |
| `TokenCache.TokenReviewAuthenticator.InvalidateCache` | agentteams-controller/internal/auth/authenticator.go:221-225 | empties the cache |
| `TokenCache.TokenReviewAuthenticator.Authenticate` | agentteams-controller/internal/auth/authenticator.go:157-193 | a hit, or the review's outcome with a positive one entered; what it returns is never an object of the cache |
| `TokenCache.HitIsRecent` | agentteams-controller/internal/auth/authenticator.go:195-218 | in a valid cache a hit is what the latest stored review of the key's token said, less than one lifetime ago and after the last invalidation |
| `TokenCache.HitsAreReviews` | agentteams-controller/internal/auth/authenticator.go:157-218 | over every sequence of locked sections a hit is what a review of that very token said, stored less than one lifetime ago, with no newer review stored and no invalidation since |
| `TokenCache.AlwaysBounded` | agentteams-controller/internal/auth/authenticator.go:205-218 | over every sequence of locked sections the cache stays at or below its maximum |
| `TokenCache.EntryStaysUnless` | agentteams-controller/internal/auth/authenticator.go:205-285 | an entry goes away only by invalidation, when expired, or when a put finds the cache full of unexpired entries none of which expires earlier |
| `TokenCache.RoomIsFresh` | agentteams-controller/internal/auth/authenticator.go:205-218 | once room was made in a full cache nothing expired is left in it |
| `TokenCache.HitIffFresh` | agentteams-controller/internal/auth/authenticator.go:195-218 | over every sequence of locked sections an entry is a hit exactly for one lifetime after its review was stored |
| `TokenCache.AnswerCases` | agentteams-controller/internal/auth/authenticator.go:171-193 | an unreachable server, a refused token and an unreadable user name are three different errors, and only an accepted readable one is an identity |
| `TokenCache.EvictedIsLeastRecent` | agentteams-controller/internal/auth/authenticator.go:268-285 | no entry was inserted at an earlier clock reading than the evicted one |
| `TokenCache.OutsideChangesAreHarmless` | agentteams-controller/internal/auth/authenticator.go:199-217 | any change to objects other than the cache's own leaves the cache valid and its book as it was |
| `TokenCache.EnrichedCopies` | agentteams-controller/internal/auth/authenticator.go:199-217 | callers may change the identities they hold, from reviews and hits alike, in any way: a later hit still says what the book says |
| `ModelCatalog.AllModelSpecs` | agentteams-controller/internal/agentconfig/generator.go:579-606 | one spec for each catalog name, in order |
| `ModelCatalog.AllModelAliases` | agentteams-controller/internal/agentconfig/generator.go:612-639 | the alias keys are the qualified catalog names and the aliases the bare ones |
| `ModelCatalog.SortedKeys` | agentteams-controller/internal/agentconfig/generator.go:739-746 | the keys, strictly ascending |
| `ModelCatalog.CatalogIsExact` | agentteams-controller/internal/agentconfig/generator.go:579-606 | the catalog is the known models, the selected and the subagent model, none twice |
| `ModelCatalog.GenerateModels` | agentteams-controller/internal/agentconfig/generator.go:43-80 | for every request catalog, aliases and allowlist name one set of models and the primary and subagent references belong to it |
| `ModelCatalog.ProviderIs` | agentteams-controller/internal/agentconfig/generator.go:19-24 | a blank provider means the gateway, any other is used without the blanks around it |
| `ModelCatalog.SpellingsAgree` | agentteams-controller/internal/agentconfig/generator.go:52-55 | a bare name and its qualified spellings mean one model, the legacy spelling under an exact condition |
| `ChannelPolicy.ApplyChannelPolicy` | agentteams-controller/internal/agentconfig/generator.go:385-463 | both lists become the final list of what they were: who was on it or is named by an allow, under a full or a short name, and is named by no deny; nothing else changes |
| `ChannelPolicy.PolicyIsExact` | agentteams-controller/internal/agentconfig/generator.go:385-463 | the final list is the undenied base in its order and then the missing undenied allows, each once |
| `ChannelPolicy.PolicyAsSets` | agentteams-controller/internal/agentconfig/generator.go:385-463 | as sets: base and resolved allows without resolved denies |
| `ChannelPolicy.SameUser` | agentteams-controller/internal/agentconfig/generator.go:395-400 | two names mean one user if and only if they are equal or one is the other's full form |
| `ChannelPolicy.DenialWins` | agentteams-controller/internal/agentconfig/generator.go:431-445 | a denied user stays out under any name, even if the same policy allows it |
| `ChannelPolicy.PolicyIsIdempotent` | agentteams-controller/internal/agentconfig/generator.go:385-463 | applying a policy twice equals applying it once |

## Left out

- HTTP, subprocesses, media upload and download, file paths and the health server: operations that succeed or fail.
- In the protocol: room sessions and the readiness flag, which are modelled in the class `BridgeState.BridgeState` only; the runtime configuration is any configuration, which may change between batches.
- The homeserver's and other clients' messages are any stream entries; the text of an entry never depends on replies in `BridgeProtocol`, chains of replies are the subject of `ReplyRouting`.
- The wording of failure notices and of the coordination text, the regular expression for visible user ids, and the YAML readers: parameters.
- BridgeState.BridgeState.Load: does not model state files whose fields have the wrong JSON type.
- Liveness under faults: nothing says that faults end.
- Audit objects deleted while writers run; the deletion step exists but runs are taken without it. Backends without ETags are outside the multi-writer claim.
- Cursor text encoding, object names that are no dates, and the event fields no filter looks at.
- TokenCache.HitIsRecent: measures from the insertion of the review's result, because the cache sets the expiry then; the time the review itself took is not part of it.
- The copied identities' slice fields: they are empty for every identity that comes from a token review, so the shallow copy shares nothing.
- Interleavings inside one `Authenticate` call: each locked section keeps `Valid`, and the calls are modelled one at a time.
- The size a container claims for a frame is trusted as in the source; allocation limits are not modelled.
- Model parameters (context window, token limits, modalities) are opaque.
- The rest of `docker.go`, the authorizer, the CLI and the resource types: plumbing or settled by one branch.
