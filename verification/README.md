# A verified model of Agent Augury's concurrent core

Agent Augury runs several language-model agents against one message server and shows them in a
browser through a small "backend for frontend" (BFF). This project models the parts of it whose
correctness depends on interleavings, on long-lived state or on arithmetic over text, and proves
what they keep. Check everything with `dafny verify dfyconfig.toml`.

| files | what they model |
|---|---|
| `Cards`, `Commands`, `BusProtocol`, `BusFindings`, `Unread`, `Verdicts` | the BFF's cards and command bus: a command is waiting, answered with its verdict not yet applied, unknown (timed out), expired (a tombstone) or done; an owner map says which command may settle a card |
| `StableJson`, `JsonLaws` | the canonical JSON text behind approval fingerprints |
| `Hub`, `TabLaws`, `Replica`, `Copies`, `Restarts` | the event hub: one seq space, a trimmed log, one stream per tab, the controller tab; and the browser's copy of the log across cuts and reconnects, and then across restarts of the hub (Last-Event-ID, section 9.2.4 of the HTML Living Standard) |
| `LineSplitter` | splitting the child's byte stream into lines |
| `Chunk`, `ChunkLaws`, `ChunkLimits` | splitting chat text into chunks with fences kept closed, and for which texts the chunks stay within the limit |
| `History` | compacting a conversation and translating it for the Messages API |
| `Approvals`, `ApprovalLaws`, `ApprovalStore` | tool approval tokens, their execution, checkpoint and resume |
| `RunLoop`, `LoopLaws`, `AgentRun` | the concurrent agent loops: step budget, parking, deadlock detection |
| `Inbox`, `MailLaws`, `MessageServer` | threads, the message log and the per-participant queues |
| `ResolveModel` | mapping a planner's provider and model onto the catalog |
| `Tables`, `PyText` | insertion-ordered tables; Python string operations |

Code that works step by step is modelled twice: by a specification function on values, and by a
class or a method with the source's own fields and loops that is proved equal to it. Protocols are
state machines whose events are the atomic sections between two awaits (or two event-loop turns);
a run is any sequence of events. In the command bus the moment between the arrival of a result and
the resumption of the handler that applies its verdict is a state of its own (`answered`), because
other lines of the same chunk are handled inside it.

The modules whose names end in `Laws`, `Verdicts` and `Copies` say what each operation does by the
fields of its arguments and results alone, without the functions that compute it.

Fields called "history", `taken`, `lost`, `started`, `applied` or `gaps` record what happened for
the sake of the statements; no step reads them.

## What the proofs found

Most of what the source promises holds for every run. These do not, and the exact condition is
proved for each:

- With `maxUnknown == 0` a tombstone evicts itself together with the ownership it holds, and a
  timed-out card then waits for ever: `BusFindings.TombstonesMustFit`.
- An approval's revision counts from 1 again when the approval is removed and requested anew under
  its id, so a revision identifies content only within one such incarnation:
  `BusFindings.AcceptedApprovalMatchesWhatWasSeen`, `BusFindings.EveryRevisionIsReused`. In the same
  way a verdict for the former incarnation may drop the new card:
  `BusFindings.VerdictTouchesCardIff`, `BusFindings.VerdictDropsARecreatedCard`.
- A "?" line is taken for the one waiting command, but a command that timed out may be the one the
  child could not read: `Unread.OnlyTheWaiterIff`, `Unread.VerdictsAreOwnIff`. The waiting card is
  then answerable again while its answer is on its way: `Unread.MixUpAnswersTwice`.
- After a hub restart the browser still sends the id of the old hub's last frame. A reconnect loses
  frames silently if the new hub has reached that id while the page has applied less of it, with a
  cut in between or without one, and is exact otherwise: `Restarts.AttachLosesNothingIff`,
  `Restarts.LostForGood`, `Restarts.SafeRunsLoseNothing`, `Restarts.OvertakenRestartLosesFrames`,
  `Restarts.RestartThenCutLosesFrames`.
- `split_chat_content` promises chunks of at most `limit` characters. Below ten chunks the fence
  languages decide (`ChunkLimits.InfoWordsDecide`, `ChunkLimits.LongLanguageOverruns`); from ten
  chunks on the indicator is longer than its reserve (`ChunkLimits.ManyChunksFitIff`,
  `ChunkLimits.BoundIsMet`).
- Compacting keeps only the latest system message, so the joined system text of the translation
  loses what older ones say: `History.CompactKeepsSystemTextIff`.
- `normalize_args` says it keeps the slash of drive roots; it keeps the slash of "/" only:
  `Approvals.SlashStaysIff`. What a grant runs is the normal form of what was asked, so a call
  with a backslash in a text does not run as written: `Approvals.StartRunsWhatWasAskedIff`,
  `Approvals.BackslashRunsChanged`.
- "At most once" for an approved call holds within one session. A session resumed from a checkpoint
  saved before the grant can run the call again: `Approvals.RunsAfterResumeIff`,
  `Approvals.RunsTwiceAcrossACrash`.
- "One live token per call" needs a clock that does not run back: `Approvals.RequestMakesTwinsIff`,
  `Approvals.ClockRunsBackMakesTwins`.
- The step cap is passed by up to one step per other agent, and that bound is met:
  `RunLoop.BudgetHolds`, `RunLoop.BudgetBoundIsMet`.
- The deadlock detector means "nothing left to wake them", but does not look whether the phase or the
  gate has moved since a loop parked, so it can end a loop whose next poll would have gone on:
  `RunLoop.DetectorIsRightIff`, `RunLoop.DetectorEndsAWokenLoop`.
- The deadlock detector waits for every inbox of the session to be empty, also those of agents whose
  loops have ended, so a message left for a failed agent hangs the run: `RunLoop.QuietEndsIff`,
  `RunLoop.FailedReaderHangsTheRun`.
- A thread created with a participant listed twice delivers twice: `Inbox.DeliveredOnceIff`,
  `Inbox.ThreadDeliversOnceIff`.
- A resumed session gets the queues of its last save beside the log of the crash; messages drained or
  delivered in between are delivered twice or not at all: `Inbox.ResumeIsExactIff`.
- When the hub shuts down the controller is not told: `Hub.ShutdownAgreesIff`.

## Model

| member | source | states |
|---|---|---|
| `Cards.BffState.IsProblem` | fronts/web/src/bff/state.ts:126-136 | reads only, and names the first problem of an answer: not pending, stale revision, in flight, or none |
| `Cards.BffState.MarkResolving` | fronts/web/src/bff/state.ts:138-144 | sets or clears the resolving flag of a pending card and changes nothing else |
| `Cards.BffState.Drop` | fronts/web/src/bff/state.ts:146-155 | removes the card, and with an approval its fingerprint |
| `Cards.BffState.OnQuestion` | fronts/web/src/bff/state.ts:257-276 | a question makes its own card answerable, and only while answers are taken and its id is not empty; no other card appears or leaves, and no command in flight is forgotten |
| `Cards.BffState.OnRequest` | fronts/web/src/bff/state.ts:306-329 | a request keeps the revision only while the fingerprint is the same, and otherwise raises it |
| `Cards.BffState.OnGone` | fronts/web/src/bff/state.ts:282-293 | an approval settled elsewhere is answerable at no revision, every other card stays as it was, cards and fingerprints keep the same ids, and the next request for the id starts at revision 1 again |
| `Cards.BffState.OnSessionStarted` | fronts/web/src/bff/state.ts:220-223 | every card gets the answer it would have got before, and answers are taken unless the child has exited |
| `Cards.BffState.OnSessionEnded` | fronts/web/src/bff/state.ts:250-256 | nothing is answerable at any revision, and no question or request adds a card until a session starts |
| `Cards.BffState.OnGatewayExited` | fronts/web/src/bff/state.ts:188-195 | nothing is answerable at any revision, and no question or request adds a card any more, not even after a session starts |
| `Commands.CommandBus.Settle` | fronts/web/src/bff/cmd.ts:141-156 | a verdict touches the card only if the command owns its key, and then gives the ownership up; `Verdicts` says by the fields of the result what becomes of the card |
| `Commands.CommandBus.Bury` | fronts/web/src/bff/cmd.ts:257-266 | a tombstone goes in; over the bound the oldest goes, with the ownership it held |
| `Commands.CommandBus.EvictKeyless` | fronts/web/src/bff/cmd.ts:274-283 | the loop turns the first keyless unknown command, if any, into a tombstone |
| `Commands.CommandBus.Remember` | fronts/web/src/bff/cmd.ts:273-293 | a timed-out command becomes unknown; when the table is full the first keyless one, if any, is evicted to a tombstone |
| `Commands.CommandBus.OnTimeout` | fronts/web/src/bff/cmd.ts:349-356 | a timeout moves the waiting command to the unknown ones |
| `Commands.CommandBus.OnUnknownTimer` | fronts/web/src/bff/cmd.ts:284-291 | giving an unknown command up leaves a tombstone and reopens the card it still owns |
| `Commands.CommandBus.Handle` | fronts/web/src/bff/cmd.ts:296-366 | checks a POST in the source's order, takes a number, and on acceptance makes the command the owner of its key and its card "resolving" |
| `Commands.CommandBus.OnResultLine` | fronts/web/src/bff/cmd.ts:169-218 | a waiting command becomes answered; a late one is settled at once; an id nobody knows changes nothing |
| `Commands.CommandBus.OnResume` | fronts/web/src/bff/cmd.ts:158-166 | the resumed handler applies the verdict of its answered command |
| `Commands.CommandBus.OnChildExit` | fronts/web/src/bff/cmd.ts:220-242 | every waiting and unknown command's card is reopened and all tables but the answered ones are emptied |
| `Commands.CommandBus.ReopenAll` | fronts/web/src/bff/cmd.ts:220-242 | the loop over one table reopens the cards its commands own |
| `BusProtocol.RunKeeps` | fronts/web/src/bff/cmd.ts:129-372 | the whole invariant of bus, cards and history is kept by every run from any state that has it |
| `BusProtocol.NoCardIsEverStuck` | fronts/web/src/bff/cmd.ts:141-293 | in every reachable state a resolving card is owned by a command that is waiting, answered or unknown, for that card's own incarnation; owners are known commands for that key; tables are disjoint and below `next`; tombstones stay within the bound |
| `BusProtocol.NoCardIsAnsweredTwice` | fronts/web/src/bff/cmd.ts:296-371 | at most one outstanding command per incarnation of a key, and its card is shown as resolving, so no second answer is accepted |
| `BusProtocol.EverySentCommandHasOneReply` | fronts/web/src/bff/cmd.ts:296-372 | every id written to the child is waiting or answered, or else has exactly one reply |
| `BusProtocol.OwnerFreesItsCard` | fronts/web/src/bff/cmd.ts:141-242 | whichever way the owner ends, its card is dropped or answerable again |
| `BusProtocol.SupersededChangesNoCard` | fronts/web/src/bff/cmd.ts:184-217 | a command that no longer owns its key changes no card by result, resumption or expiry; a timeout never does |
| `Verdicts.ResumeRules` | fronts/web/src/bff/cmd.ts:136-166 | in time, a result whose ok, queued and skipped are not false and that has no error takes its owned card away, as does "no pending question" as error text or else as reason; any other refusal makes the card answerable again as it was; no other card and no other owner changes |
| `Verdicts.LateResultRules` | fronts/web/src/bff/cmd.ts:184-204 | the same for a late result, given up or not |
| `Verdicts.LateReport` | fronts/web/src/bff/cmd.ts:184-212 | a late line reports as failed exactly a result with a false flag or an error, as superseded exactly one whose key another command owns or none, and warns unless it is a success in time for its own key |
| `Verdicts.FailureLaw` | fronts/web/src/bff/cmd.ts:45-57 | which text a reply names as the failure |
| `Verdicts.StrayLine` | fronts/web/src/bff/cmd.ts:213-218 | a line whose id nobody knows changes nothing and is reported, unless it answers the shutdown |
| `Verdicts.ResultWaits` | fronts/web/src/bff/cmd.ts:169-183 | the result kept for the handler is that of the line, under the waiting command's key |
| `Verdicts.SentIff` | fronts/web/src/bff/cmd.ts:296-366 | a POST writes a command exactly when its tab may send, it is well formed and names its card, the card is pending at the seen revision and not being answered, and the child takes it |
| `Verdicts.RefusedBecause` | fronts/web/src/bff/cmd.ts:314-347 | which refusal a well-formed answer gets: nothing pending, else a stale revision, else in flight, else the child is gone |
| `Verdicts.AskLaw` | fronts/web/src/bff/state.ts:257-276 | a question shows its text and keeps whether it is being answered |
| `Verdicts.RequestLaw` | fronts/web/src/bff/state.ts:306-329 | a request shows agent and tool, counts the changes of tool and arguments, and keeps whether it is being answered |
| `Verdicts.TombstoneLaw` | fronts/web/src/bff/cmd.ts:257-266 | a tombstone goes last, and over the bound exactly the oldest goes, with the key it owns |
| `Verdicts.FirstKeylessLaw` | fronts/web/src/bff/cmd.ts:274-283 | the command that makes room is the first unknown one that answers no card |
| `Verdicts.TimeoutLaw` | fronts/web/src/bff/cmd.ts:273-293 | a timed-out command becomes unknown under its key, and another leaves only when the table is full |
| `Verdicts.ReopenLaw` | fronts/web/src/bff/cmd.ts:220-242 | reopening makes answerable exactly the cards whose owner is among the ids |
| `Verdicts.ExitLaw` | fronts/web/src/bff/cmd.ts:220-242 | when the child exits nothing is waited for or owned any more |
| `Verdicts.ExitCardsLaw` | fronts/web/src/bff/cmd.ts:220-242 | when the child exits exactly the cards owned by commands waiting or unknown are answerable again |
| `Unread.OnlyTheWaiterIff` | fronts/web/src/bff/cmd.ts:176-180 | as long as every verdict was the command's own, with one command waiting a "?" line can only be that command's if and only if the child has answered for every command that timed out |
| `Unread.VerdictsAreOwnIff` | fronts/web/src/bff/cmd.ts:169-218 | over every run, all verdicts are given on the commands' own lines if and only if no "?" line for a timed-out command came while exactly one other was waiting |
| `Unread.NoTimeoutNoMixUp` | fronts/web/src/bff/cmd.ts:169-218 | without timeouts every verdict is the command's own |
| `Unread.MixUpAnswersTwice` | fronts/web/src/bff/cmd.ts:176-184 | a run in which a timed-out command's "?" line is taken for the answer to a question, after which a second answer to that card is accepted while the child has yet to read the first |
| `BusFindings.ExitIsFinal` | fronts/web/src/bff/state.ts:188-195 | over every run after the child has exited, every answer to a card is refused as not pending |
| `BusFindings.TombstonesMustFit` | fronts/web/src/bff/cmd.ts:257-293 | no run orphans a card if and only if `maxUnknown >= 1` |
| `BusFindings.NoTombstonesOrphanACard` | fronts/web/src/bff/cmd.ts:257-293 | a run with `maxUnknown == 0` after which a card waits for a command nobody remembers |
| `BusFindings.OrphanedQuestionStays` | fronts/web/src/bff/cmd.ts:129-372 | an orphaned question is freed by no step but the end of the session or of the child |
| `BusFindings.VerdictTouchesCardIff` | fronts/web/src/bff/cmd.ts:141-156 | an answered command's verdict changes a pending card if and only if the command owns its key and the card is dropped or shown as resolving; with tombstones, if and only if it owns the key and was sent for the card's own incarnation or its result drops the card |
| `BusFindings.VerdictDropsARecreatedCard` | fronts/web/src/bff/cmd.ts:357-371 | for every request, a run from the start after which the verdict of the answer to the first incarnation drops the second, unanswered one |
| `BusFindings.SinceRun` | fronts/web/src/bff/state.ts:306-329 | over every run, within one incarnation an equal revision means an equal fingerprint |
| `BusFindings.AcceptedApprovalMatchesWhatWasSeen` | fronts/web/src/bff/cmd.ts:314-347 | an answer is written to the child only when the content at the revision the tab saw is still pending, up to key order, unless the approval was issued anew in between |
| `BusFindings.EveryRevisionIsReused` | fronts/web/src/bff/state.ts:306-329 | from every state that takes answers, for every id and revision and every new content, a run with one new incarnation after which an answer naming that revision is accepted for that content |
| `StableJson.StableJsonIsCanonical` | fronts/web/src/bff/state.ts:75-85 | two JSON trees print alike if and only if they are equal up to key order at every level |
| `StableJson.PrintDecodes` | fronts/web/src/bff/state.ts:75-85 | a printed value followed by anything is read back uniquely, up to key order |
| `StableJson.QuoteDecodes` | fronts/web/src/bff/state.ts:75-85 | a quoted string followed by anything is read back uniquely |
| `StableJson.SortByKeyCorrect` | fronts/web/src/bff/state.ts:80-82 | sorting entries gives a strictly ascending list of the same entries |
| `JsonLaws.ScalarLaw` | fronts/web/src/bff/state.ts:75-85 | how literals, numbers and strings are printed |
| `JsonLaws.ListLaw` | fronts/web/src/bff/state.ts:75-85 | a list is its items in brackets with commas between them |
| `JsonLaws.ObjectLaw` | fronts/web/src/bff/state.ts:75-85 | an object is its fields in braces, quoted key, colon and value, with commas between them |
| `JsonLaws.EscapeLaw` | fronts/web/src/bff/state.ts:75-85 | which units of a string are escaped, and how |
| `Hub.AppendInv` | fronts/web/src/bff/sse.ts:138-150 | the buffer is the consecutive end of the log, `bytes` is its exact size, and both limits hold or one frame remains |
| `Hub.TrimKeepsLongestSuffix` | fronts/web/src/bff/sse.ts:144-149 | trimming drops a frame only if every longer suffix is over a limit, and keeps the newest frame |
| `TabLaws.TrimLaw` | fronts/web/src/bff/sse.ts:144-149 | trimming takes as many frames off the front as the count and the sum of their sizes ask for, and no more |
| `TabLaws.SizeLaw` | fronts/web/src/bff/sse.ts:138-149 | a size is the sum of the frames' own |
| `Hub.AttachPartitions` | fronts/web/src/bff/sse.ts:184-191 | on attach the reported gap and the replay split `(n, seq]` exactly |
| `Hub.OpenNeverCutsTheReplay` | fronts/web/src/bff/sse.ts:218-224 | a new stream is never cut by its own state frame and replay, whatever their size |
| `Hub.HubRunKeeps` | fronts/web/src/bff/sse.ts:109-230 | over every interleaving the log stays a suffix and every stream shows a hole-free run of seqs, even when cut; until shutdown the controller agrees with the hub |
| `Copies.HubShowsWhatWasPublished` | fronts/web/src/bff/sse.ts:109-230 | over every run the seq counts what was published; each buffered frame, and each frame on each stream, live or replayed, has the body and size published under its seq; and state frames tell how far their stream has got |
| `Hub.AgreeStep` | fronts/web/src/bff/state.ts:334-382 | HELD has a registered stream, ORPHANED has none, INIT means there are none: kept by every attach, replacement, late close, claim and grace timer |
| `Hub.ShutdownAgreesIff` | fronts/web/src/bff/sse.ts:264-272 | after shutdown they agree if and only if no tab held control |
| `TabLaws.ControlLaw` | fronts/web/src/bff/state.ts:334-382 | control goes to the first tab ever or back to its orphan on arrival, or to a tab that may claim it, and in no other way; a holder is orphaned exactly when its registered stream ends, and control ends exactly with an orphan's grace |
| `TabLaws.ClaimLaw` | fronts/web/src/bff/state.ts:363-382 | which answer a claim gets |
| `TabLaws.AttachLaw` | fronts/web/src/bff/sse.ts:183-230 | a tab gets a stream exactly when the hub is up and the tab has one or there is room; it is new and open, and no other changes |
| `TabLaws.CloseLaw` | fronts/web/src/bff/sse.ts:208-214 | a close event takes the tab's stream away exactly when it is that stream's own |
| `TabLaws.PublishLaw` | fronts/web/src/bff/sse.ts:109-150 | every open stream takes the published frame, and is cut exactly when it then holds more than the socket takes and its opening allowed |
| `TabLaws.BroadcastLaw` | fronts/web/src/bff/sse.ts:176-180 | the same for a state frame |
| `TabLaws.DrainLaw` | fronts/web/src/bff/sse.ts:207-207 | a drained socket holds nothing and has no allowance left |
| `TabLaws.OpenLaw` | fronts/web/src/bff/sse.ts:218-229 | a new stream may hold its state frame and replay on top of what the socket takes |
| `TabLaws.ShutdownLaw` | fronts/web/src/bff/sse.ts:264-272 | shutting down leaves no stream and keeps the log |
| `TabLaws.PointLaw` | fronts/web/src/bff/sse.ts:184-190 | where a Last-Event-ID goes on, and exactly when which gap is reported |
| `Hub.TabControl.TabConnected` | fronts/web/src/bff/state.ts:334-345 | the controller after a tab's first stream |
| `Hub.TabControl.TabDisconnected` | fronts/web/src/bff/state.ts:347-361 | the controller after a tab's last stream |
| `Hub.TabControl.GraceTimer` | fronts/web/src/bff/state.ts:347-361 | control ends only for a tab that lost its last stream and has not come back; a holder keeps it, and agreement with the registered streams is kept |
| `Hub.EventHub.OnGraceTimer` | fronts/web/src/bff/state.ts:347-361 | a tab that has a stream again keeps what control it had, and the hub stays valid |
| `Hub.EventHub.ClaimControl` | fronts/web/src/bff/state.ts:363-382 | a claim is answered if and only if the tab has a stream, granted if and only if the tab then holds control, and a refusal changes nothing; the hub stays valid |
| `Hub.TabControl.Claim` | fronts/web/src/bff/state.ts:363-382 | the answer to a claim and the controller after it |
| `Hub.EventHub.PublishFrame` | fronts/web/src/bff/sse.ts:138-150 | publishing numbers, buffers, trims and sends one frame, and keeps the hub's invariant |
| `Hub.EventHub.BroadcastState` | fronts/web/src/bff/sse.ts:176-180 | every stream gets a state frame with the current seq and no gap |
| `Hub.EventHub.TrimFront` | fronts/web/src/bff/sse.ts:144-149 | the shifting loop computes the longest allowed suffix |
| `Hub.EventHub.Missed` | fronts/web/src/bff/sse.ts:184-191 | the gap and the replay for a Last-Event-ID header |
| `Hub.EventHub.OpenStream` | fronts/web/src/bff/sse.ts:183-230 | attaching registers a stream for the tab, or refuses when the hub is full or shut |
| `Hub.EventHub.OnClose` | fronts/web/src/bff/sse.ts:208-214 | a close event of a replaced stream changes nothing |
| `Hub.EventHub.Close` | fronts/web/src/bff/sse.ts:264-272 | shutting down drops all streams |
| `Replica.ReplayIsExact` | fronts/web/src/ui/model.ts:106-169 | over every run in one seq space, each seq from the browser's first frame to its lastSeq is applied once and in order or lies in a reported gap, never both; row keys stay unique |
| `Replica.CaughtUp` | fronts/web/src/bff/sse.ts:183-230 | when an open stream is fully received, what the browser does not show up to the hub's last seq is reported |
| `Copies.PageShowsWhatWasPublished` | fronts/web/src/ui/model.ts:60-169 | over every run of one page and one hub: the rows with a seq are, in order, the lines of exactly the applied frames as they were published; there is one row for each reported gap, with its count; each turn end that asks for it is followed by a resume hint unless the row before is one; and every other row is what the user entered |
| `Copies.FrameLaw` | fronts/web/src/ui/model.ts:106-137 | a frame that is not newer than what the page has shows nothing, and any other moves the page on to its seq |
| `Copies.StateLaw` | fronts/web/src/ui/model.ts:155-169 | a state frame adds nothing but the row of its gap, and clears the page first exactly when it tells less than the page has shown |
| `Replica.RestartRecognisedAlike` | fronts/web/src/ui/model.ts:158-169 | hub and browser recognise a new seq space on the same condition, and the page then shows no frame of the former one |
| `Restarts.RunKeeps` | fronts/web/src/ui/model.ts:106-169 | over every run with restarts, the frames of the present hub are applied in ascending order and the id the browser sends is that of the last of them, or else of a frame of a former hub |
| `Restarts.AttachLosesNothingIff` | fronts/web/src/bff/sse.ts:184-191 | in every reachable state, restarts included, attaching shows or reports every frame of the hub beyond what was applied from it if and only if the id sent is beyond the hub's last seq or not beyond what was applied from this hub |
| `Restarts.LostForGood` | fronts/web/src/bff/sse.ts:184-191 | otherwise the frame with that very seq is neither shown nor reported by any run until the page is reloaded or the hub restarts again |
| `Restarts.SafeRunsLoseNothing` | fronts/web/src/ui/model.ts:106-169 | over every run that attaches only under that condition, every frame owed to the page is applied once and in order or lies in a reported gap, never both |
| `Restarts.OvertakenRestartLosesFrames` | fronts/web/src/ui/model.ts:158-169 | for all lengths, a run without any cut in which the new hub has reached the sent id before the page reconnects: its first frames are neither shown nor reported |
| `Restarts.RestartThenCutLosesFrames` | fronts/web/src/ui/model.ts:158-169 | for all lengths, a run in which the page has seen the restart, is cut before the first frame, and then never gets the first frames |
| `LineSplitter.ChunkingDoesNotMatter` | fronts/web/src/bff/wire.ts:131-179 | for every way of cutting the byte stream the calls are those of splitting it whole, long lines with their full length, and at most `maxBytes` are held |
| `LineSplitter.Splitter.Write` | fronts/web/src/bff/wire.ts:152-171 | the loop over one chunk does what feeding its bytes one by one does |
| `LineSplitter.Splitter.Take` | fronts/web/src/bff/wire.ts:152-171 | a piece is counted, and held unless its line is too long |
| `LineSplitter.Splitter.End` | fronts/web/src/bff/wire.ts:172-178 | the last line without newline is delivered once |
| `Chunk.OnlyWhiteSpaceIsLost` | src/agent_augury/channels/chunk.py:34-81 | the text is its chunk bodies, none empty, with only white space between and after them |
| `Chunk.FencesAreClosed` | src/agent_augury/channels/chunk.py:41-106 | every chunk but the last, and the last if it starts inside a carried block, has an even number of fence lines, numbered or not |
| `Chunk.BlocksCarryOver` | src/agent_augury/channels/chunk.py:97-101 | a chunk is closed if and only if the next one reopens a block, namely the one that was open at the cut |
| `Chunk.OpenIsOdd` | src/agent_augury/channels/chunk.py:84-99 | a block is open exactly when the fence lines so far are odd in number |
| `Chunk.OpenLanguageIsLastFence` | src/agent_augury/channels/chunk.py:84-95 | the open block's language is that of the last fence line, or the carried one if there is none |
| `Chunk.CutsAreNatural` | src/agent_augury/channels/chunk.py:57-79 | a chunk ends at a newline or space, or fills a room that has no space and no newline in its second half |
| `Chunk.BoundaryIsNatural` | src/agent_augury/channels/chunk.py:57-62 | a newline in the second half of the room wins over a space, and the last one is taken |
| `Chunk.ChunksFit` | src/agent_augury/channels/chunk.py:17-108 | for a limit of at least 15, if every info word has at most `limit - 19` characters: non-final chunks at most `limit - 10` and the final one at most `limit - 6` before numbering; all at most `limit + 2*digits(n) - 2` after it, hence at most `limit` for fewer than ten chunks |
| `Chunk.PlainTextFitsIff` | src/agent_augury/channels/chunk.py:24-28 | text without backticks in fewer than ten chunks stays within the limit, whatever it says, if and only if the limit is at least 11 |
| `ChunkLaws.SplitLaw` | src/agent_augury/channels/chunk.py:24-108 | a short text is left alone; of a longer one each chunk is the reopened fence, its part of the text, the closing fence and " (k/n)", each where it is due |
| `ChunkLaws.NothingToSplit` | src/agent_augury/channels/chunk.py:24-26 | only the empty text makes no chunk |
| `ChunkLaws.CutLaw` | src/agent_augury/channels/chunk.py:63-79 | a chunk ends at the natural boundary, or before an inline code span that this would cut, if a break before it lies beyond the first quarter of the room |
| `ChunkLaws.BoundaryLaw` | src/agent_augury/channels/chunk.py:57-62 | exactly which boundary is the natural one |
| `ChunkLaws.LinesLaw` | src/agent_augury/channels/chunk.py:84-88 | the lines scanned for fences hold no line end, and joined by line ends they are the chunk |
| `ChunkLaws.FenceLaw` | src/agent_augury/channels/chunk.py:86-89 | a line is a fence exactly when three backticks come first, white space aside |
| `ChunkLaws.InfoLaw` | src/agent_augury/channels/chunk.py:89-95 | a fence's language is the first word behind the backticks |
| `PyText.DecimalReadsBack` | src/agent_augury/channels/chunk.py:105-106 | the decimal text of a number reads back as it, without leading zeros |
| `ChunkLimits.InfoWordsDecide` | src/agent_augury/channels/chunk.py:24-108 | all texts whose fence languages have at most m characters stay within the limit when they make fewer than ten chunks, if and only if the limit is at least 11 and either there is no fence at all, or m is at most `limit - 19`, or the limit is 15 or 16 |
| `ChunkLimits.LongLanguageOverruns` | src/agent_augury/channels/chunk.py:41-106 | for every other limit from 11 on, a text of fewer than ten chunks whose language is one character too long and whose second chunk overruns |
| `ChunkLimits.BoundIsMet` | src/agent_augury/channels/chunk.py:105-108 | for every limit from 19 on and every number of chunks from ten on, a text without any language whose last chunk has exactly `limit + 2*digits(n) - 2` characters |
| `ChunkLimits.ManyChunksFitIff` | src/agent_augury/channels/chunk.py:105-108 | for every limit from 19 on, the texts of n chunks whose languages have room all stay within the limit if and only if n is less than ten |
| `Chunk.FindCut` | src/agent_augury/channels/chunk.py:57-79 | the searches and the backslash loop find the specified cut |
| `Chunk.Scan` | src/agent_augury/channels/chunk.py:84-95 | the line loop's flag and language are those of the open block |
| `Chunk.Round` | src/agent_augury/channels/chunk.py:57-103 | one round of the loop leaves less text and the specified chunk |
| `Chunk.LastRound` | src/agent_augury/channels/chunk.py:43-54 | the last round closes a carried block that is still open |
| `Chunk.SplitChatContent` | src/agent_augury/channels/chunk.py:17-108 | the loop terminates and returns the specified chunks |
| `History.CutIsSafeIff` | src/agent_augury/core/compact.py:140-153 | cutting a paired history leaves two paired halves if and only if no result is cut off from its call |
| `History.CutIsFirst` | src/agent_augury/core/compact.py:140-153 | the tail starts behind the results at the first place that both limits allow, so it never opens with a result; it is allowed itself wherever a shorter tail is no larger |
| `History.CompactKeepsPairs` | src/agent_augury/core/compact.py:259-319 | compacting a history whose calls are directly followed by their results leaves one |
| `History.CompactKeepsTheTail` | src/agent_augury/core/compact.py:259-319 | head and tail are the non-system messages, led by the system message and a notice with the summary; exactly the results of more than 8000 characters in the tail give their text up for their tool, id and length |
| `History.CompactsIff` | src/agent_augury/core/compact.py:292-319 | a conversation is compacted exactly when there is a limit, it is over it, and something comes before the tail; otherwise it stays |
| `History.RestIs` | src/agent_augury/core/compact.py:130-137 | every message that is no system message stays, as often as it was said and in order |
| `History.SystemsIs` | src/agent_augury/core/compact.py:130-137 | the system message kept is the latest |
| `History.TranslationIsAcceptable` | src/agent_augury/backend/anthropic.py:158-231 | no turn is empty and the last turn is the user's, for every history |
| `History.TranslationSaysAll` | src/agent_augury/backend/anthropic.py:158-231 | the ids, names and inputs of calls, the ids and texts of results, and the texts of users and assistants come out as the messages have them, in order, with at most "(continue)" added |
| `History.TranslationMatches` | src/agent_augury/backend/anthropic.py:173-220 | every assistant turn's results are exactly the very next turn, and every results turn follows its calls |
| `History.TranslationMatchesIff` | src/agent_augury/backend/anthropic.py:158-231 | when every message says something, the translation is matched if and only if the history is paired |
| `History.CompactedTranslationMatches` | src/agent_augury/core/compact.py:292-319 | compacting and then translating keeps every call matched with its results |
| `History.SplitHeadTail` | src/agent_augury/core/compact.py:123-153 | the loops split the non-system messages at the specified cut |
| `History.SetSystemAside` | src/agent_augury/core/compact.py:130-137 | the latest system message and the other messages in order |
| `History.Assemble` | src/agent_augury/core/compact.py:259-280 | system message, notice, then the tail with large results lightened |
| `History.TakeRun` | src/agent_augury/backend/anthropic.py:173-187 | the inner loop takes a whole run of results into one turn |
| `History.CompactConversation` | src/agent_augury/core/compact.py:292-319 | unchanged under the soft limit or with an empty head, else compacted |
| `History.ToAnthropicMessages` | src/agent_augury/backend/anthropic.py:158-231 | the index loop returns the specified turns and the system texts joined by a blank line, or none |
| `History.SystemTextLaw` | src/agent_augury/backend/anthropic.py:167-174 | the system text is the non-empty texts of the system messages, joined by blank lines |
| `History.CompactKeepsSystemTextIff` | src/agent_augury/core/compact.py:130-137 | compacting leaves the system text of the translation as it was if and only if no system message but the latest says anything |
| `Approvals.NormIdempotent` | src/agent_augury/core/agent/approval.py:113-134 | the normal form of well-formed arguments is its own normal form |
| `Approvals.SlashStaysIff` | src/agent_augury/core/agent/approval.py:121-129 | a normal text ends in a slash if and only if the text was "/" or a single backslash |
| `ApprovalLaws.NormTextLaw` | src/agent_augury/core/agent/approval.py:121-129 | a normal text is the text with slashes for backslashes and, if longer than one character, without the slashes at its end |
| `ApprovalLaws.NormLaw` | src/agent_augury/core/agent/approval.py:113-134 | a normal tree has the same shape, keys in order, and each text in its normal form |
| `Approvals.NormSaysTheSameIff` | src/agent_augury/core/agent/approval.py:113-134 | the normal form of an argument tree equals it up to key order if and only if no text in it has a backslash, or a slash at its end unless it is one character |
| `Approvals.StartRunsWhatWasAskedIff` | src/agent_augury/core/session.py:241-311 | over every run, a started body belongs to a request under its token's id and tool, and its arguments are the asked ones up to key order if and only if those are written that way |
| `Approvals.GrantedCallRuns` | src/agent_augury/core/session.py:241-311 | for every call, a run that asks for it, grants it in time and starts its normal form |
| `Approvals.BackslashRunsChanged` | src/agent_augury/core/agent/approval.py:121-129 | for every text with a backslash, a run that asks for it, grants it in time and starts another text |
| `Approvals.StartedAtMostOnce` | src/agent_augury/core/session.py:241-311 | over every run each token's body starts at most once, with the tool and normal arguments of the token, by a grant before its deadline; only started ones become executed |
| `Approvals.TokensMoveForward` | src/agent_augury/core/agent/approval.py:273-321 | a token keeps what it was made for and its state only moves pending to granted, denied or expired and granted to executed |
| `Approvals.StepToken` | src/agent_augury/core/agent/approval.py:273-321 | the moves one step may make |
| `Approvals.BecomesDeniedIff` | src/agent_augury/core/agent/approval.py:273-295 | a token becomes denied exactly by a denial in time, or a grant in time whose digest is not that of the call; the reason is the one given, or "user", or "digest_mismatch" |
| `Approvals.BecomesGrantedIff` | src/agent_augury/core/agent/approval.py:273-295 | a token becomes granted exactly by any other grant in time |
| `Approvals.BecomesExpiredOrExecutedIff` | src/agent_augury/core/agent/approval.py:273-315 | a token expires exactly when it is found pending at or after its deadline, and is executed exactly when the call its grant started finishes |
| `Approvals.DenialIsFinal` | src/agent_augury/core/session.py:241-311 | from every reachable state a denial in time makes the token denied, and over every later run it stays so and no body is started under its id |
| `Approvals.DeniedIsNotResumed` | src/agent_augury/core/agent/approval.py:323-382 | a resumed session does not know a denied token, and starts nothing under its id unless it is asked for anew |
| `Approvals.GrantStartsIff` | src/agent_augury/core/session.py:253-304 | a grant runs the body if and only if the token is live, its agent known and its digest that of the call it holds |
| `Approvals.NeverMismatched` | src/agent_augury/core/session.py:288-302 | for tokens from requests the digest check never refuses a grant |
| `Approvals.OneLiveTokenPerCall` | src/agent_augury/core/agent/approval.py:221-271 | while the clock does not run back no two live tokens wait for the same agent, tool and digest |
| `Approvals.RequestMakesTwinsIff` | src/agent_augury/core/agent/approval.py:221-271 | a request makes two tokens for its call live at time t if and only if none for the call is live at the request, the one it adds is live at t, and the call has a pending token whose deadline lies after t but not after the request |
| `Approvals.RequestAddsIff` | src/agent_augury/core/agent/approval.py:221-271 | a request adds a token if and only if none is live for its agent, tool and digest |
| `ApprovalLaws.RequestLaw` | src/agent_augury/core/agent/approval.py:221-271 | a request joins the earliest token that waits for its call, or adds one with these fields that lives for the time asked, at least a second |
| `ApprovalLaws.ReplyLaw` | src/agent_augury/core/agent/approval.py:273-295 | which answer finds no token, an overdue one, a settled one, or settles it |
| `ApprovalLaws.ExpireDueLaw` | src/agent_augury/core/agent/approval.py:297-306 | the timer reports exactly the overdue tokens, once each and in order |
| `ApprovalLaws.ExportLaw` | src/agent_augury/core/agent/approval.py:323-346 | saved are exactly the waiting tokens, in order, with all their fields |
| `ApprovalLaws.ImportLaw` | src/agent_augury/core/agent/approval.py:348-382 | a record takes the place of its id, as waiting or, if overdue, as expired, and a malformed one changes nothing |
| `Approvals.ClockRunsBackMakesTwins` | src/agent_augury/core/agent/approval.py:221-271 | for every call, a run with a clock that runs back which ends with two live tokens for it |
| `Approvals.ResumeIsExact` | src/agent_augury/core/agent/approval.py:323-382 | saving and reading back keeps exactly the live tokens under their ids, those due since as expired, with all guarantees |
| `Approvals.RunsAfterResumeIff` | src/agent_augury/core/agent/approval.py:323-382 | a resumed session lets a grant run a token if and only if it was live at the save, at the resume and at the grant |
| `Approvals.RunsTwiceAcrossACrash` | src/agent_augury/core/agent/approval.py:323-382 | a call asked for, saved, granted and run runs again in the session resumed from the save |
| `Approvals.ImportReopensIff` | src/agent_augury/core/agent/approval.py:348-382 | reading a record over a token that has run lets it run again if and only if the record is live (session.py:809 reads records into a new store only) |
| `ApprovalStores.ApprovalStore.FindPending` | src/agent_augury/core/agent/approval.py:221-240 | the loop finds the first live token for the call |
| `ApprovalStores.ApprovalStore.RequestOrJoin` | src/agent_augury/core/agent/approval.py:242-271 | joins it, or adds a pending token that lives at least one second |
| `ApprovalStores.ApprovalStore.Resolve` | src/agent_augury/core/agent/approval.py:273-295 | grants or denies a live token; an overdue one expires, any other is refused |
| `ApprovalStores.ApprovalStore.ExpireDue` | src/agent_augury/core/agent/approval.py:297-306 | exactly the overdue pending tokens expire, and are returned in order |
| `ApprovalStores.ApprovalStore.MarkExecuted` | src/agent_augury/core/agent/approval.py:308-315 | only a granted token becomes executed |
| `ApprovalStores.ApprovalStore.ExportPending` | src/agent_augury/core/agent/approval.py:323-346 | the live tokens in order |
| `ApprovalStores.ApprovalStore.ImportPending` | src/agent_augury/core/agent/approval.py:348-382 | malformed records are skipped, the others read as pending or expired |
| `RunLoop.RunKeeps` | src/agent_augury/core/session.py:1257-1469 | over every interleaving no agent has two live loops, the running and parked sets are exact, retries in a row stay within the limit, and no loop goes on after idling twice |
| `RunLoop.BudgetHolds` | src/agent_augury/core/session.py:1257-1370 | completed steps plus steps under way never exceed `max_steps + n - 1`, where n counts the agents that have had a loop so far |
| `RunLoop.NoCallStartsOverBudget` | src/agent_augury/core/session.py:1268-1270 | once the budget is spent no model call starts |
| `LoopLaws.TurnLaw` | src/agent_augury/core/session.py:1264-1308 | at the top a loop ends when interrupted, out of budget or past the protocol's end, parks when the gate holds, it has signalled and has no mail, and otherwise calls its model |
| `LoopLaws.CallLaw` | src/agent_augury/core/session.py:1310-1366 | a failed call is tried again exactly when the failure is retryable and retries are left; a skipped call is neither a failure nor a step |
| `LoopLaws.RetryLaw` | src/agent_augury/core/session.py:1349-1363 | after the wait a loop goes on unless interrupted |
| `LoopLaws.StepLaw` | src/agent_augury/core/session.py:1369-1420 | a successful step counts once and clears the retries; with tool calls or mail the loop goes on, while the gate holds it goes on after a reminder and parks otherwise, and else it ends when it said nothing or was idle twice in a row |
| `LoopLaws.PollLaw` | src/agent_augury/core/session.py:1623-1670 | exactly when a poll ends a loop, wakes it, declares the deadlock or changes nothing |
| `LoopLaws.StartLaw` | src/agent_augury/core/session.py:1426-1437 | an agent is started exactly when it has no live loop |
| `RunLoop.BudgetBoundIsMet` | src/agent_augury/core/session.py:1257-1370 | for every budget and every set of agents some interleaving runs them all and completes `max_steps + n - 1` steps |
| `RunLoop.CountsAgree` | src/agent_augury/core/session.py:1646-1663 | the detector's comparison of two counts holds if and only if every live loop is parked |
| `RunLoop.DetectorIsSafe` | src/agent_augury/core/session.py:1646-1664 | the deadlock is declared only when every live loop is parked, every inbox is empty and nobody can be asked; `RunLoop.DetectorIsRightIff` says when that is enough |
| `RunLoop.DetectorIsRightIff` | src/agent_augury/core/session.py:1623-1664 | at every step that declares the deadlock, nothing inside the session could have moved without the detector if and only if no other parked loop has been stirred by a phase or gate that moved since it parked; exactly those loops would have gone on at their own next poll and never go on again |
| `RunLoop.DetectorEndsAWokenLoop` | src/agent_augury/core/session.py:1302-1308 | for any two agents and any two closed phases, a run with nobody outside that declares the deadlock while a parked loop has been woken by the new phase |
| `RunLoop.DeadlockIsFinal` | src/agent_augury/core/session.py:1623-1670 | after it no loop that was there steps again, whatever arrives from outside |
| `RunLoop.EveryLoopEnds` | src/agent_augury/core/session.py:1623-1670 | after it one poll of each loop ends the run |
| `RunLoop.QuietPollIff` | src/agent_augury/core/session.py:1646-1664 | in a fully parked quiet run the next poll declares the deadlock if and only if all inboxes of the session are empty, and otherwise changes nothing |
| `RunLoop.QuietEndsIff` | src/agent_augury/core/session.py:1600-1670 | a quiet run ends by itself if and only if all those inboxes are empty |
| `RunLoop.FailedReaderHangsTheRun` | src/agent_augury/core/session.py:1646-1664 | a run that hangs: one agent has failed, another writes to it and parks |
| `AgentRuns.AgentRun.Poll` | src/agent_augury/core/session.py:1623-1670 | one poll of a parked loop, with the counting loops in place |
| `AgentRuns.AgentRun.CountLive` | src/agent_augury/core/session.py:1651-1653 | the number of loops that have not ended |
| `AgentRuns.AgentRun.InboxesEmpty` | src/agent_augury/core/session.py:1658-1661 | whether every inbox of the session is empty |
| `AgentRuns.AgentRun.Park` | src/agent_augury/core/session.py:1613-1623 | entering the park notes phase and gate and polls at once |
| `AgentRuns.AgentRun.TopOfLoop` | src/agent_augury/core/session.py:1264-1308 | the checks at the top of the loop, in order |
| `AgentRuns.AgentRun.AfterCall` | src/agent_augury/core/session.py:1310-1420 | what a loop does with each outcome of its model call |
| `AgentRuns.AgentRun.AfterStep` | src/agent_augury/core/session.py:1369-1420 | the same for a successful step: count, go on, park, or finish after idling |
| `AgentRuns.AgentRun.Spawn` | src/agent_augury/core/session.py:1426-1437 | afterwards the agent has exactly one live loop, and what every run keeps is kept |
| `RunLoop.SpawnedOnce` | src/agent_augury/core/session.py:1426-1437 | spawning leaves exactly one live loop of the agent, changes no other agent's count and keeps the invariant of every run |
| `Inbox.RunKeeps` | src/agent_augury/core/server.py:209-624 | over every run, restoring saved queues included, message ids and places are log positions, thread names are unique, and every delivery is drained, dropped or queued exactly once, drained in the order sent |
| `Inbox.PostAccounts` | src/agent_augury/core/server.py:413-432 | each target gets a message once, at the end of its queue, and nobody else gets it |
| `Inbox.TargetsAre` | src/agent_augury/core/server.py:404-411 | who gets an agent's message |
| `MailLaws.SendLaw` | src/agent_augury/core/server.py:381-432 | an agent's message is refused for an unknown thread, else an unknown agent, else one that is no participant; otherwise it is logged once with its author, content and mentions, and queued once for exactly its targets |
| `MailLaws.HumanSendLaw` | src/agent_augury/core/server.py:454-507 | the same for a person |
| `MailLaws.NoticeLaw` | src/agent_augury/core/server.py:528-554 | a notice is logged and queued for its one target, or refused exactly when that has no queue |
| `MailLaws.RegisterLaw` | src/agent_augury/core/server.py:209-222 | a name is refused exactly when it is reserved or a person's, and a new one gets an empty queue |
| `MailLaws.RegisterHumanLaw` | src/agent_augury/core/server.py:224-235 | exactly "human" in any case is accepted, and keeps the queue it has |
| `MailLaws.HumanNames` | src/agent_augury/core/server.py:209-235 | the reserved name is "human" with each letter in either case |
| `Inbox.DropIsExact` | src/agent_augury/core/server.py:241-261 | dropping takes exactly the named threads' messages out of one queue and keeps the order |
| `Inbox.SetsShape` | src/agent_augury/core/server.py:268-286 | replacing participants gives new ones a queue, takes from removed ones only this thread's messages, and moves nothing else |
| `Inbox.OnlyBootstrapWidens` | src/agent_augury/core/server.py:321-360 | naming an existing thread joins nobody unless it is the runtime's bootstrap, and then participants are only added |
| `MailLaws.WidenLaw` | src/agent_augury/core/server.py:321-360 | the runtime widens a thread by exactly the participants it names, or is refused exactly when a new one has a reserved name |
| `Inbox.NewThread` | src/agent_augury/core/server.py:361-379 | a new name makes a thread with the next number and exactly the given list, or is refused if and only if a reserved name is in it |
| `MailLaws.NewThreadLaw` | src/agent_augury/core/server.py:361-379 | a new thread takes the next number and comes last; its participants are the only new agents, and nothing else changes |
| `Inbox.RestoreExported` | src/agent_augury/core/server.py:584-612 | restoring what was exported changes nothing |
| `MailLaws.KnownLaw` | src/agent_augury/core/server.py:599-612 | reading saved ids keeps exactly the known ones, as often as saved and in order |
| `MailLaws.QueueLaw` | src/agent_augury/core/server.py:599-624 | draining empties one queue, restoring replaces the saved ones, and nothing else changes |
| `Inbox.RestoreKeepsIff` | src/agent_augury/core/server.py:599-612 | restoring saved queues keeps all that if and only if each saved queue is, as far as its ids are known, an in-order part of what waits |
| `Inbox.ResumeIsExactIff` | src/agent_augury/core/server.py:584-612 | with the log as it was and the queues of an earlier save, an owner's deliveries are still accounted for exactly once if and only if its saved queue is the one that waited |
| `Inbox.DeliveredOnceIff` | src/agent_augury/core/server.py:381-507 | a message to a thread, by an agent or a person, with mentions or without, reaches nobody twice if and only if the thread's list names nobody twice whom it is addressed to |
| `Inbox.CopiesAre` | src/agent_augury/core/server.py:381-507 | how many copies of a message each queue gets: as many as the list names its addressed owner, and one for a mentioned person outside the thread |
| `Inbox.ThreadDeliversOnceIff` | src/agent_augury/core/server.py:381-432 | every message that members send through a thread reaches nobody twice if and only if its list names nobody twice |
| `MessageServers.MessageServer.RegisterAgent` | src/agent_augury/core/server.py:209-222 | idempotent; refuses a reserved name and a human's id; keeps the invariant and every queue |
| `MessageServers.MessageServer.RegisterHumanId` | src/agent_augury/core/server.py:224-235 | accepts exactly "human" in any case, gives it an inbox, keeps the server's invariant and every queue that exists |
| `MessageServers.MessageServer.CreateThread` | src/agent_augury/core/server.py:313-379 | reuse by name, widening and creation as specified |
| `MessageServers.MessageServer.SendMessage` | src/agent_augury/core/server.py:381-432 | refusals in order, then one logged message pushed to its targets |
| `MessageServers.MessageServer.HumanSend` | src/agent_augury/core/server.py:454-507 | the same for a person |
| `MessageServers.MessageServer.InjectAgentNotice` | src/agent_augury/core/server.py:528-554 | a notice to one queue |
| `MessageServers.MessageServer.DropInboxFrom` | src/agent_augury/core/server.py:241-261 | the queue loop keeps and drops as specified |
| `MessageServers.MessageServer.SetThreadParticipants` | src/agent_augury/core/server.py:268-286 | register, drop, replace, as specified |
| `MessageServers.MessageServer.DrainInbox` | src/agent_augury/core/server.py:614-624 | returns the queued messages in order and empties the queue |
| `MessageServers.MessageServer.ExportInboxIds` | src/agent_augury/core/server.py:584-597 | the loops drain every queue and fill it again: they return all queued ids in order and leave the server as it was |
| `MessageServers.MessageServer.RestoreInboxIds` | src/agent_augury/core/server.py:599-612 | replaces the queues of known owners by the known ids |
| `ResolveModel.EveryAnswerIsListed` | src/agent_augury/planner.py:144-173 | every answer names a model listed under that provider |
| `ResolveModel.ResolveLaw` | src/agent_augury/planner.py:144-173 | the first candidate listed under its hinted provider answers, else the first one listed under exactly one provider, else none |
| `ResolveModel.PeelLaw` | src/agent_augury/planner.py:158-165 | from one candidate to the next one known provider is dropped, the first of them becoming the hint |
| `ResolveModel.MisSplitRecovered` | src/agent_augury/planner.py:144-173 | every cut of a listed `p/m` at a slash into pieces that stripping leaves alone resolves to exactly (p, m) |
| `ResolveModel.WholePathAsModelIff` | src/agent_augury/planner.py:144-173 | the whole path `p/m` given as the model, beside any provider, resolves to (p, m) if and only if the provider's first part is not registered, or lists nothing that is left when known providers are dropped from the front, or is p itself and lists m first |
| `ResolveModel.DoubledProviderRecoveredIff` | src/agent_augury/planner.py:144-173 | a provider repeated in front of its model is dropped if and only if the doubled id is not itself listed |
| `ResolveModel.Collect` | src/agent_augury/planner.py:158-165 | prefix peeling terminates with the specified candidates |
| `ResolveModel.FindPrefix` | src/agent_augury/planner.py:162-162 | the first provider, in catalog order, whose name and a slash start the path |
| `ResolveModel.ResolveModel` | src/agent_augury/planner.py:144-173 | the loops return the specified answer |

## Left out

- HTTP, sockets, process spawning, logging, masking, event broadcasts to observers and all rendering.
- Timers and clocks are events and parameters; SHA-256, `approx_chars`, line rendering and the
  summary texts are arbitrary functions.
- Python and JavaScript strings are sequences of characters or UTF-16 units; JSON numbers are the
  tokens they print as. In `Approvals` keys are compared by 16-bit units, where Python compares code
  points; they differ only for characters beyond U+FFFF.
- BFF state that no card depends on: session flags, clipped previews (`clipArgs`), digests of
  snapshots, gates and votes.
- The bus's notices to the hub appear only as the `Report` of a result line.
- The browser model's status line, retry and stall notices.
- The stall timer of a half-open stream appears as that stream's close event.
- A stream's buffered bytes are bounded from above by what was written since the last drain, so the
  model cuts a stream whenever the source could.
- `History` takes a call's arguments as parsed; `llm_based_summary` and the extracted paths are part
  of the opaque summary.
- The phase and gate logic, nudges and the model call itself are inputs of the run loop; the
  reminder counters are not modelled.
- SQLite persistence and reload of the message server: ids and places are those of one process.
- `str.lower` in the reserved-name check is the ASCII one; no other character lowers to a letter of
  "human".
- ChunkLimits.ManyChunksFitIff: for ten chunks and more the limits below 19, which leave a fence no
  room for any language, and the texts without any fence are not treated separately.
- Approvals.ImportReopensIff: session.py:809 reads records into a new store only, so within the
  repository the store it speaks of has run nothing yet.
- ResolveModel.MisSplitRecovered: provider names are non-empty and free of slashes, as registered
  names are; an empty name would match every path that starts with a slash.
- Hub.HubRunKeeps: assumes that the retry line of a new stream fits the socket's own buffer.
- Config validation, checkpoints of other state, tier scoring and input history: mostly one-branch
  facts.
