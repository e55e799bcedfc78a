# XCoding: a verified model of its core protocols

XCoding is a desktop coding agent: a Rust service keeps sessions, compresses tool output and reads
MCP configuration, and a React desktop runs turns against it. This project models the parts of it
where state, interleaving or encoding make correctness hard to see, and proves what they promise.

| file | what it models |
|---|---|
| `CompactStream.dfy`, `StreamReading.dfy`, `ToolOutput.dfy`, `CompressionLaws.dfy` | compression of tool output, live and rebuilt from storage, and reading it back |
| `CoreSessions.dfy`, `SessionLaws.dfy` | session lifecycle, message log, pending actions, cancel probe |
| `LineChanges.dfy` | line counts and file list of a task summary |
| `TurnProtocol.dfy`, `TurnLaws.dfy` | generations of overlapping turns, draft handoff, composer epochs |
| `FollowUpQueue.dfy`, `DrainGuard.dfy` | the follow-up queue, its drain, and drains that overlap |
| `RequestLogs.dfy` | latest-wins queries and details of the request-log panel |
| `Markers.dfy`, `ReplyCodec.dfy`, `StoredMessages.dfy` | reply and image markers inside user messages, and their parsers |
| `Timeline.dfy`, `Activity.dfy` | activity between messages; live against batch activity list |
| `McpConfig.dfy` | validation, merge and truncation of MCP servers; tool names |
| `Sketch.dfy`, `SketchLaws.dfy` | breadth-first workspace sketch |
| `Runs.dfy`, `Text.dfy`, `LinePositions.dfy`, `Seqs.dfy`, `Names.dfy`, `Wrappers.dfy` | runs of state machines, strings, the lines of a text, sequences, ordered names, options |

State that the program updates in place is a class whose methods are tied to a function of the old
state; protocols are state machines, and what is claimed of them holds after every sequence of events.
Each asynchronous function is split where it awaits. What the program leaves to a library is a
parameter: the JSON reader and writer, the diagnostic test inside the counting lemmas,
`encodeURIComponent` with its inverse, lower-casing.

What a function computes is also told without it: lines by their positions in the text, a session's
status and log by the history of calls, a selection by the story of events, a sketch as the one ordered
list of the entries that paths lead to, a compressed output by what can be read from it.

`dafny verify dfyconfig.toml` checks everything.

## What the proofs brought to light

- `task_summary` builds a table called `latest_by_path` from a list that the store returns newest
  first (crates/xcoding-store/src/lib.rs:1802-1810), so the table keeps the oldest restore point of
  each path (`LineChanges.NewestFirstKeepsOldest`). It holds the newest point exactly for paths that are
  listed once (`LatestExactly`); a file created and then deleted is reported as created
  (`DeletedShownAsCreated`).
- `drainFollowUpQueue` looks at its guard before it awaits the session list and sets it afterwards
  without looking again (apps/desktop/src/App.tsx:4423-4447). Two drains that overlap there send the same
  entry twice, because the answer that nothing was left to delete is not looked at
  (`DrainGuard.SentTwice`); `GuardExactly` says that this overlap is the only way.
- A reply whose own text is blank, which the composer allows when an image is attached
  (apps/desktop/src/App.tsx:4570-4576), loses the divider between quote and text when the message is
  trimmed, and is then shown as raw markers. For ids, quotes and texts that hold no marker themselves,
  `StoredMessages.SentBack` says that this is the only way a sent reply is lost.
- A message text that quotes the beginning of an image block is cut, and `StoredMessages.ImagesBackExactly`
  and `NoImagesExactly` say exactly when.
- Server names with two adjacent underscores, or one at the end, are accepted but their tools decode
  to another server or to nothing (`McpConfig.ToolNameRoundTrip`), and two servers can offer the same tool
  name (`ToolNamesCanCollide`) exactly when `ToolNamesCollideExactly` says so.
- After a cancel, a worker that has not yet noticed can create an action, pause and have it approved
  while the probe still says cancelled (`CoreSessions.LateActionCanBeApproved`); whatever is approved
  then was asked for after the cancel (`ResolvedAfterCancelIsNew`), and nothing is approved unless such a
  pause or a continue came first (`LateApprovalNeedsPause`).
- Restoring the session list at start-up selects a session even if the composer was emptied meanwhile
  (`TurnProtocol.RestoreIgnoresReset`). A composer that was reset stays empty until the user acts exactly
  when the list had been restored before the reset (`EmptyUntilUserExactly`).
- The request-log panel's loading flag would go wrong if an unsendable query started while another was
  waiting; only the disabled buttons prevent it (`RequestLogs.LoadingFlagExact`).
- With assistant messages out of time order an activity entry appears twice (`Timeline.OutOfOrderShowsTwice`);
  `PartitionedExactly` says for which entries.
- The two compression functions can differ on arguments under a third tool's name
  (`ToolOutput.StoredIsLive` is the exact condition, `OtherToolRewritten` such arguments). No result the
  program writes is one of them: `CommandRebuilt`, `SearchRebuilt` and `NeitherShapeUnchanged` cover the
  command tool, the search tool and every other one.
- An entry withdrawn while its deletion is awaited is sent all the same (`DrainGuard.SentAlthoughWithdrawn`);
  `WithdrawnExactly` says that this is the only case.

## Model

| member | source | states |
|---|---|---|
| CompactStream.CompactText | crates/xcoding-context/src/compression.rs:258-313 | the three loops and the early returns compute the compact form of every text |
| LinePositions.LinesByPosition | crates/xcoding-context/src/compression.rs:259-259 | the lines of a text are its stretches between line feeds, in order, each without the carriage return directly before its line feed, and what follows the last line feed if it is not empty |
| LinePositions.PlainLines | crates/xcoding-core/src/lib.rs:1365-1373 | without carriage returns they are the pieces between line feeds, less a last empty one |
| StreamReading.CompactByPosition | crates/xcoding-context/src/compression.rs:258-329 | a text of at most 32 lines, none over 1,200 characters, stays as it is; of any other the first and last 16 printed lines are the first and last stretches of the text, in order, cut after 1,200 characters |
| StreamReading.SelectedExactly | crates/xcoding-context/src/compression.rs:271-291 | a line is selected if and only if it is one of the first or last sixteen, or the first of its kind among the diagnostic lines and of the first sixteen kinds |
| StreamReading.DiagnosticExactly | crates/xcoding-context/src/compression.rs:315-320 | a line is diagnostic if and only if one of the five words stands in it, in upper or lower case |
| CompactStream.SelectLines | crates/xcoding-context/src/compression.rs:271-291 | the selected indices are the head, the tail and the first sixteen distinct diagnostic lines |
| CompactStream.SelectDiagnostics | crates/xcoding-context/src/compression.rs:280-291 | counting with an early exit chooses the same lines as looking at all of them |
| CompactStream.EmitItems | crates/xcoding-context/src/compression.rs:293-311 | the printed items are the selected lines in order with a gap count wherever lines were skipped |
| CompactStream.StreamDecodes | crates/xcoding-context/src/compression.rs:258-313 | for all lines: kept lines and gap counts add up to the line count, the positions recovered from the items are exactly the selected ones, each kept line is its truncated original, and the list never ends in a gap |
| CompactStream.DecodingIsUnique | crates/xcoding-context/src/compression.rs:293-312 | no other canonical list of kept lines and gaps reads back to the same positions |
| CompactStream.NoTrailingGap | crates/xcoding-context/src/compression.rs:304-311 | the closing gap is never printed because the last line is always selected |
| CompactStream.ChosenStops | crates/xcoding-context/src/compression.rs:282-285 | stopping at sixteen diagnostic lines misses none that would be chosen |
| CompactStream.StreamBounds | crates/xcoding-context/src/compression.rs:264-329 | at most 48 kept lines, at most 17 gaps and at most 1,220 characters a line, whatever the input |
| CompactStream.DiagnosticsSurvive | crates/xcoding-context/src/compression.rs:280-292 | with at most sixteen distinct diagnostic lines, every one of them has an identical selected line |
| CompactStream.TruncateIdempotent | crates/xcoding-context/src/compression.rs:322-329 | truncating a truncated line changes nothing |
| ToolOutput.CompactRunCommandLoop | crates/xcoding-context/src/compression.rs:185-206 | the loop over the streams, with its change flag, compacts exactly when some stream changes |
| ToolOutput.CompactOneStream | crates/xcoding-context/src/compression.rs:192-204 | one round touches one stream only and reports a change exactly when there is one |
| ToolOutput.RunCommandKeepsFields | crates/xcoding-context/src/compression.rs:185-206 | only successful results are compacted; both streams are compacted and every other field is as it was |
| ToolOutput.CompactSearchCodeLoop | crates/xcoding-context/src/compression.rs:208-256 | the validating loop accepts exactly the well-shaped results and keeps path, line and text of each |
| ToolOutput.SearchIdempotent | crates/xcoding-context/src/compression.rs:208-256 | compacting search output again changes nothing |
| ToolOutput.CompressionSound | crates/xcoding-context/src/compression.rs:57-183 | both entry points return the text untouched or a strictly shorter one that saves the required percentage; 100 per cent or more never compresses |
| ToolOutput.CompressedIsFixed | crates/xcoding-context/src/compression.rs:57-149 | a compressed result passes through either entry point untouched, with any tool, id, options and JSON library |
| ToolOutput.FailuresPassThrough | crates/xcoding-context/src/compression.rs:185-219 | an object with success false or timed_out true is never compressed |
| ToolOutput.HeadersDiffer | crates/xcoding-context/src/compression.rs:151-165 | results of the two strategies can never be mistaken for each other |
| ToolOutput.StoredIsLive | crates/xcoding-context/src/compression.rs:57-149 | for every tool: the rebuild equals the live result if and only if guards or reader turn the text away, or the tool's own strategy is the one the shape suggests, or the strategies that differ do not pay off, counted in characters |
| ToolOutput.FinishExactly | crates/xcoding-context/src/compression.rs:151-183 | a text is rewritten if and only if header and compact form together are short enough by the required percentage |
| CompressionLaws.LiveCarries | crates/xcoding-context/src/compression.rs:57-105 | a compressed fresh output is one header line that names message, tool and original length, and below it exactly the written compaction of its value by its tool's rule |
| CompressionLaws.StoredCarries | crates/xcoding-context/src/compression.rs:108-149 | the same for a stored output, by the rule its shape suggests, commands first |
| CompressionLaws.HeaderBack | crates/xcoding-context/src/compression.rs:163-165 | a header line yields message id, strategy and character count back |
| CompressionLaws.LiveExactly | crates/xcoding-context/src/compression.rs:57-105 | a fresh output is compressed if and only if compression is on, the id is not blank, the text long enough and without a header, the tool one of the two, the value readable, compactable and writable, and the saving large enough |
| CompressionLaws.StoredExactly | crates/xcoding-context/src/compression.rs:108-149 | the same for a stored output |
| CompressionLaws.RunCommandExactly | crates/xcoding-context/src/compression.rs:185-206 | a command result is compacted if and only if it reports success, exit code 0 and no timeout, and a stream has a different compact form |
| CompressionLaws.RunCommandBecomes | crates/xcoding-context/src/compression.rs:193-205 | its two streams become their compact forms and nothing else changes |
| CompressionLaws.SearchExactly | crates/xcoding-context/src/compression.rs:208-247 | a search result is compacted if and only if it reports neither failure nor timeout and all its parts are in shape |
| CompressionLaws.SearchBecomes | crates/xcoding-context/src/compression.rs:226-255 | every hit keeps path, line and text, in order, and every other field stays |
| ToolOutput.CommandRebuilt | crates/xcoding-tools/src/lib.rs:1423-1432 | results without a results field, as run_command writes them, are always rebuilt as they were sent |
| ToolOutput.SearchRebuilt | crates/xcoding-tools/src/lib.rs:1152-1163 | results without an exit_code field, as search_code writes them, are always rebuilt as they were sent |
| ToolOutput.NeitherShapeUnchanged | crates/xcoding-agent/src/lib.rs:6241-6247 | results with neither a results nor an exit_code field pass both entry points untouched under every tool name |
| ToolOutput.OtherToolRewritten | crates/xcoding-context/src/compression.rs:108-149 | arguments, which no tool of the program writes, on which the two functions differ |
| StreamReading.CompactReadsBack | crates/xcoding-context/src/compression.rs:258-329 | every compacted text tells which lines were kept and how many were left out between them, even if lines are written like gap markers |
| StreamReading.CompactDetermines | crates/xcoding-context/src/compression.rs:258-329 | two streams with the same compacted text have equally many lines, the same selected positions and the same lines there up to truncation |
| StreamReading.MarkersAreNotDiagnostic | crates/xcoding-context/src/compression.rs:315-320 | a line written like a gap marker is never chosen as a diagnostic one |
| StreamReading.LongShape | crates/xcoding-context/src/compression.rs:271-303 | a long stream prints its first sixteen lines, something that holds no line written like a marker, and its last sixteen lines |
| StreamReading.TruncatedIsNoGap | crates/xcoding-context/src/compression.rs:322-329 | a truncated line is never mistaken for a gap |
| CoreSessions.CoreService.StartChat | crates/xcoding-core/src/lib.rs:156-201 | new session, running, with its first user message; or a refusal that changes nothing |
| CoreSessions.CoreService.ContinueChat | crates/xcoding-core/src/lib.rs:203-271 | clears the probe, appends the trimmed message and runs, exactly when all checks pass |
| CoreSessions.CoreService.CancelSession | crates/xcoding-core/src/lib.rs:810-840 | partial text noted once, pending actions rejected, probe set, status cancelled |
| CoreSessions.CoreService.CreatePendingAction | crates/xcoding-core/src/lib.rs:842-850 | one new pending action |
| CoreSessions.CoreService.ResolvePendingAction | crates/xcoding-core/src/lib.rs:852-882 | resolves a still pending action of a session that waits for the user, otherwise refuses |
| CoreSessions.CoreService.PauseChat | crates/xcoding-core/src/lib.rs:884-886 | waits for the user from any status |
| CoreSessions.CoreService.ResumeChat | crates/xcoding-core/src/lib.rs:888-896 | runs again unless cancelled |
| CoreSessions.CoreService.CompleteChat | crates/xcoding-core/src/lib.rs:929-949 | appends the answer and is done; a cancelled session stays as it is |
| CoreSessions.CoreService.FailChat | crates/xcoding-core/src/lib.rs:951-960 | failed, unless done or cancelled already |
| CoreSessions.CoreService.DeleteSession | crates/xcoding-core/src/lib.rs:414-424 | session and actions gone, probe set |
| CoreSessions.CoreService.IsSessionCancelled | crates/xcoding-core/src/lib.rs:803-808 | what a poller learns |
| CoreSessions.BlankIffTrimmedAway | crates/xcoding-core/src/lib.rs:156-176 | the emptiness test on messages and roots is that trimming leaves nothing |
| CoreSessions.TurnsSeparated | crates/xcoding-core/src/lib.rs:156-271 | over every run, between two successful turn starts on a session some call took it from active to Done, Failed or Cancelled |
| CoreSessions.LogCountsTurns | crates/xcoding-core/src/lib.rs:156-271 | over every run that does not delete the session, its log only grows by appending and gains as many user messages as turns were started |
| SessionLaws.StatusIsLastChange | crates/xcoding-core/src/lib.rs:156-271 | over every run a session is Done if and only if the last call that changed its status was a completion, and so for every other status and its calls |
| SessionLaws.LogIsTranscript | crates/xcoding-core/src/lib.rs:156-271 | over every run the log is what the calls said, in order: start message, trimmed continue message, answer, recorded messages, streamed text of a cancel |
| SessionLaws.SucceedsExactly | crates/xcoding-core/src/lib.rs:156-271 | each call succeeds if and only if its checks, told in full, pass, and a refused call changes nothing |
| SessionLaws.SuccessLeaves | crates/xcoding-core/src/lib.rs:884-960 | what each successful call leaves: status, new session, probe or action |
| SessionLaws.OthersUntouched | crates/xcoding-core/src/lib.rs:990-998 | sessions a call does not name stay as they are, with their actions |
| SessionLaws.WholesaleCalls | crates/xcoding-core/src/lib.rs:402-431 | deleting a workspace's sessions removes exactly them; reconciling cancels exactly the running ones |
| SessionLaws.PollExactly | crates/xcoding-core/src/lib.rs:803-808 | over every run a poller is told cancelled if and only if the last successful cancel, delete or continue was no continue, or the status is Cancelled |
| SessionLaws.ActionIsLastChange | crates/xcoding-core/src/lib.rs:842-882 | over every run an action is approved, rejected or pending by the last call that changed it |
| CoreSessions.DeletedForGood | crates/xcoding-core/src/lib.rs:414-424 | a deleted session never comes back |
| CoreSessions.CancelIsDurable | crates/xcoding-core/src/lib.rs:803-840 | after a successful cancel or delete every poll says cancelled, through any calls, until a continue passes its checks |
| CoreSessions.PartialNotedOnce | crates/xcoding-core/src/lib.rs:810-840 | the streamed text of a cancelled turn ends the log, and a second cancel with the same text does not add it again |
| CoreSessions.ContinueEndsCancel | crates/xcoding-core/src/lib.rs:203-271 | and a continue that passes its checks does end it |
| CoreSessions.ResolvesOnce | crates/xcoding-core/src/lib.rs:852-882 | over every run an action resolves at most once and keeps its outcome |
| CoreSessions.CancelRejectsForGood | crates/xcoding-core/src/lib.rs:810-840 | an action pending at the cancel is rejected and never approved afterwards |
| CoreSessions.ResolvedAfterCancelIsNew | crates/xcoding-core/src/lib.rs:810-882 | whatever is resolved after a cancel was created after it |
| CoreSessions.LateApprovalNeedsPause | crates/xcoding-core/src/lib.rs:852-896 | over every run, after a cancel no action of the session is resolved before a pause or a continue that succeeds |
| CoreSessions.CancelledStep | crates/xcoding-core/src/lib.rs:884-960 | a call takes a session out of Cancelled if and only if it is a pause or a continue that succeeds |
| CoreSessions.LateActionCanBeApproved | crates/xcoding-core/src/lib.rs:842-886 | a run in which an action is approved while the probe says cancelled |
| LineChanges.LineChangeCounts | crates/xcoding-core/src/lib.rs:1362-1385 | the signed counting gives the sizes of the two multiset differences of the lines |
| LineChanges.SumDeltas | crates/xcoding-core/src/lib.rs:1375-1384 | the totals do not depend on the order in which the hash map is read |
| LineChanges.CountsBalance | crates/xcoding-core/src/lib.rs:1362-1385 | added minus removed is the change in the number of lines |
| LineChanges.ZeroMeansPermutation | crates/xcoding-core/src/lib.rs:1362-1385 | both counts are zero if and only if the lines are permuted |
| LineChanges.UndoSwaps | crates/xcoding-core/src/lib.rs:1362-1385 | undoing a change swaps the counts |
| LineChanges.Triangle | crates/xcoding-core/src/lib.rs:1362-1385 | going through an intermediate text never counts fewer lines |
| LineChanges.KindAgreesWithCounts | crates/xcoding-core/src/lib.rs:1347-1360 | a created file removed nothing and gained all its lines, a deleted one the reverse |
| LineChanges.KindExactly | crates/xcoding-core/src/lib.rs:1347-1360 | created if and only if there were no lines and there are some, deleted if and only if the reverse, modified otherwise |
| LineChanges.TotalsAdd | crates/xcoding-core/src/lib.rs:341-351 | the totals count every change once |
| LineChanges.TaskSummary | crates/xcoding-core/src/lib.rs:333-361 | one change per path, in path order, from the last listed point of the path; totals are the sums |
| LineChanges.LatestByPath | crates/xcoding-core/src/lib.rs:335-338 | the table holds the last listed point of every path |
| LineChanges.SummaryUnique | crates/xcoding-core/src/lib.rs:333-361 | the file list is determined by the restore points |
| LineChanges.NewestFirstKeepsOldest | crates/xcoding-core/src/lib.rs:335-338 | from a list that is newest first the table keeps the oldest point of each path |
| LineChanges.LatestExactly | crates/xcoding-core/src/lib.rs:335-338 | it holds the newest point of a path, the one the store lists first, if and only if the path is listed once |
| LineChanges.LatestTimeExactly | crates/xcoding-core/src/lib.rs:335-338 | it holds a point of the latest time of a path if and only if all listed points of the path have the same time |
| LineChanges.DeletedShownAsCreated | crates/xcoding-core/src/lib.rs:333-361 | a file created and then deleted is summarised as created with its line added |
| TurnProtocol.TurnRefs.Begin | apps/desktop/src/App.tsx:4123-4133 | a new turn takes the next generation for its session or the draft, and is current |
| TurnProtocol.TurnRefs.Adopt | apps/desktop/src/App.tsx:4140-4155 | a draft claims its session unless something newer holds it |
| TurnProtocol.TurnRefs.CheckCurrent | apps/desktop/src/App.tsx:4135-4139 | tells whether the turn is current |
| TurnProtocol.GenerationsNeverDecrease | apps/desktop/src/App.tsx:4123-4155 | over every interleaving no session's generation goes back |
| TurnProtocol.OneCurrentTurn | apps/desktop/src/App.tsx:4135-4139 | at most one turn is current for a session, and one draft |
| TurnProtocol.SupersededForGood | apps/desktop/src/App.tsx:4123-4155 | a turn bound to a session and superseded is never current again, over every interleaving |
| TurnLaws.HoldsExactly | apps/desktop/src/App.tsx:4123-4155 | a turn that holds its session goes on holding it at a step if and only if no newer turn takes it and it does not come back with another |
| TurnLaws.CurrentUntilTaken | apps/desktop/src/App.tsx:4123-4155 | over every interleaving a turn on a session is current from its start until a newer turn takes the session |
| TurnLaws.DraftCurrentExactly | apps/desktop/src/App.tsx:4131-4139 | a draft turn stays current at a step if and only if no other draft turn starts |
| TurnLaws.StartIsCurrent | apps/desktop/src/App.tsx:4127-4139 | a started turn has a number of its own and is current |
| TurnProtocol.DraftHandoff | apps/desktop/src/App.tsx:4304-4310 | a returning draft is current if and only if no newer turn claimed its session |
| TurnProtocol.ComposerRefs.ResetComposerSession | apps/desktop/src/App.tsx:3535-3540 | next epoch, nothing selected |
| TurnProtocol.ComposerRefs.OnSessionEvent | apps/desktop/src/App.tsx:3199-3213 | an event selects its session only in an empty composer claimed in this epoch, and only a session unknown to the claim |
| TurnProtocol.ComposerRefs.OnChatFinished | apps/desktop/src/App.tsx:4311-4323 | a finished chat selects its session only if it is selected already or may be adopted |
| TurnProtocol.ComposerRefs.ClaimForDraft | apps/desktop/src/App.tsx:4243-4249 | a new draft claims the epoch and remembers the sessions there are |
| TurnProtocol.ComposerRefs.OnDraftEnded | apps/desktop/src/App.tsx:4408-4418 | only the latest draft turn gives up the claim |
| TurnProtocol.ResetIsABarrier | apps/desktop/src/App.tsx:3535-3544 | after a reset and until a new draft turn starts, over every interleaving, no session event and no finishing chat selects a session while the composer is empty |
| TurnLaws.EventSelectsExactly | apps/desktop/src/App.tsx:3204-3211 | over every run, told from the story of events: a session's event selects it if and only if the composer is empty, was claimed by a new draft and neither reset nor given up since, and the session was not listed at that claim; otherwise nothing changes |
| TurnLaws.ReturnSelectsExactly | apps/desktop/src/App.tsx:4304-4323 | over every run: a returning chat selects its session if and only if its turn is current and the session is selected already, or awaited by an empty composer |
| TurnLaws.NewTaskIsSelected | apps/desktop/src/App.tsx:3199-3211 | the first event of a new draft's session selects it, whatever happened before |
| TurnLaws.FocusIsNotStolen | apps/desktop/src/App.tsx:3199-3211 | a session the user selects stays selected, however many other turns send events and finish, until the user goes elsewhere |
| TurnLaws.AdoptedIsNotStolen | apps/desktop/src/App.tsx:3199-3213 | so does a session that its own event brought up |
| TurnProtocol.KnownSessionNeverAdopted | apps/desktop/src/App.tsx:4243-4249 | a session known when the draft turn began is never adopted into the empty composer |
| TurnProtocol.RestoreIgnoresReset | apps/desktop/src/App.tsx:2842-2852 | restoring the start-up list selects a session although the composer was reset |
| TurnProtocol.EmptyUntilUserExactly | apps/desktop/src/App.tsx:2842-2852 | a reset composer stays empty in every continuation without a selection or a new draft turn if and only if the start-up list had been restored before the reset |
| FollowUpQueue.FollowUps.Enqueue | apps/desktop/src/App.tsx:3598-3604 | replaces by id, keeps the queue sorted and loses nothing else |
| FollowUpQueue.FollowUps.DrainQueue | apps/desktop/src/App.tsx:4422-4462 | a drain with nothing in between terminates, restores the guard set and does what the drain specification says; a drain of a guarded session does nothing |
| FollowUpQueue.FollowUps.CancelFollowUp | apps/desktop/src/App.tsx:3668-3674 | a withdrawn entry keeps its place |
| FollowUpQueue.WithdrawnNotSent | apps/desktop/src/App.tsx:4442-4445 | an entry withdrawn before a drain begins is not sent, whatever course the drain takes |
| DrainGuard.WithdrawnExactly | apps/desktop/src/App.tsx:3668-3674 | over every continuation that leaves the queue to the drains, a withdrawn entry's message does not go out if and only if no send of it was under way when it was withdrawn |
| DrainGuard.SentAlthoughWithdrawn | apps/desktop/src/App.tsx:4119-4121 | a run in which an entry withdrawn while its deletion is awaited is sent |
| DrainGuard.AloneIsDrain | apps/desktop/src/App.tsx:4422-4462 | the steps of a drain, split at its awaits, do what the drain as a whole is said to do when nothing comes in between |
| DrainGuard.OneSendAtATime | apps/desktop/src/App.tsx:4422-4462 | over every interleaving in which no call falls between another drain's look at the guard and its session list, at most one send of the session is under way and the guard tells |
| DrainGuard.GuardExactly | apps/desktop/src/App.tsx:4423-4447 | a call keeps sends apart in every continuation if and only if it does not fall there |
| DrainGuard.SentTwice | apps/desktop/src/App.tsx:4119-4121 | a run in which one entry is sent twice |
| FollowUpQueue.DrainIsOrderly | apps/desktop/src/App.tsx:4422-4462 | for every course of events: a prefix of the waiting entries is sent, each on a session reported done, and no turn but the last throws; exactly the others remain, marked not-started exactly when a turn threw or the status halted the drain |
| FollowUpQueue.FailureStopsTheDrain | apps/desktop/src/App.tsx:4354-4366 | a turn that throws, or is reported failed or cancelled by the next session list, is the last: nothing more is sent and nothing stays queued |
| FollowUpQueue.DrainSendsInOrder | apps/desktop/src/App.tsx:737-741 | entries go out by creation time, then id, each at most once |
| FollowUpQueue.DrainPrefix | apps/desktop/src/App.tsx:4443-4461 | what is sent is a prefix of the waiting entries |
| FollowUpQueue.DrainLeaves | apps/desktop/src/App.tsx:3612-3667 | what is left is the queue without the sent entries, marked if the drain was halted |
| FollowUpQueue.LeftExactly | apps/desktop/src/App.tsx:3612-3667 | entry by entry: nothing that was sent remains, and everything else as it was, but not-started if it was queued for the session and the drain was halted |
| FollowUpQueue.MarkExactly | apps/desktop/src/App.tsx:3648-3667 | marking turns exactly the queued entries of the session into not-started ones, in place |
| RequestLogs.LogPanel.QueryLogs | apps/desktop/src/RequestLogs.tsx:79-98 | a query overtakes older queries and details, and is sent or refused |
| RequestLogs.LogPanel.QueryAnswered | apps/desktop/src/RequestLogs.tsx:99-109 | page, filters and offset are taken together, and only from the newest query |
| RequestLogs.LogPanel.QueryFailed | apps/desktop/src/RequestLogs.tsx:105-109 | an error is shown only for the newest query |
| RequestLogs.LogPanel.ShowDetail | apps/desktop/src/RequestLogs.tsx:117-121 | a detail request overtakes older ones |
| RequestLogs.LogPanel.DetailAnswered | apps/desktop/src/RequestLogs.tsx:122-130 | a detail is shown only for the newest request |
| RequestLogs.LogPanel.DetailFailed | apps/desktop/src/RequestLogs.tsx:125-130 | a detail error is shown only for the newest request |
| RequestLogs.LogPanel.CloseDetail | apps/desktop/src/RequestLogs.tsx:183-183 | the detail on show is removed and the counter moves on; the list is untouched |
| RequestLogs.EveryInterleaving | apps/desktop/src/RequestLogs.tsx:76-130 | over every interleaving: page, filters and offset are initial or come from one query, the detail on show is exactly the answer of the latest detail request with no query, close or unmount since, offsets are non-negative multiples of ten, and the loading flags are right |
| RequestLogs.QueriesAsked | apps/desktop/src/RequestLogs.tsx:111-184 | the filter form asks from the start, the paging buttons for the applied filters one page back or on |
| RequestLogs.QueriesRefused | apps/desktop/src/RequestLogs.tsx:86-95 | outside the shell, or with malformed or reversed dates, nothing is sent and an error is shown |
| RequestLogs.NewestFailureShows | apps/desktop/src/RequestLogs.tsx:105-130 | the failure of the newest request is shown and ends its loading, and the list stays |
| RequestLogs.UnmountOvertakes | apps/desktop/src/RequestLogs.tsx:112-115 | leaving the panel overtakes every request under way |
| RequestLogs.SupersededChangesNothing | apps/desktop/src/RequestLogs.tsx:99-130 | an overtaken answer changes nothing that is shown |
| RequestLogs.LoadingFlagExact | apps/desktop/src/RequestLogs.tsx:79-98 | the loading flag stays right if and only if nothing is waiting or the query can be sent |
| ReplyCodec.ReplyBack | apps/desktop/src/App.tsx:1017-1084 | for every message and every quoted content, parsing a formatted reply gives the trimmed text, the target and the truncated quote |
| ReplyCodec.ReplyBackExactly | apps/desktop/src/App.tsx:1025-1084 | it does so if and only if the id is non-empty, trimmed, without a bar and without the marker's end |
| ReplyCodec.ReadIsCarried | apps/desktop/src/App.tsx:1042-1084 | whatever text is parsed, the id found is one the marker can carry, and quote and text are trimmed |
| ReplyCodec.ReformatSame | apps/desktop/src/App.tsx:1017-1084 | parsing a sent reply and formatting it again gives the same string |
| ReplyCodec.ReadAgain | apps/desktop/src/App.tsx:3714-3717 | editing and sending again anything that was read as a reply loses at most the end of an overlong quote |
| ReplyCodec.TruncateIdempotent | apps/desktop/src/App.tsx:1017-1023 | a cut quote is cut at the same place again |
| ReplyCodec.TruncateExactly | apps/desktop/src/App.tsx:1017-1023 | up to 12,000 characters a quote is kept whole, of a longer one the first 12,000, then an ellipsis on its own line |
| ReplyCodec.BareReplyRead | apps/desktop/src/App.tsx:1042-1084 | a reply without the instruction, and with or without a readable date, is read as well, the date empty when it is missing or cannot be decoded |
| ReplyCodec.UnquotedIsNoReply | apps/desktop/src/App.tsx:1070-1073 | a marker whose text does not begin with a quote is no reply |
| ReplyCodec.TextBeforeIgnored | apps/desktop/src/App.tsx:1043-1050 | lines before the marker are passed over |
| ReplyCodec.QuoteBack | apps/desktop/src/App.tsx:1028-1031 | unquoting the quoted lines gives the truncated content |
| ReplyCodec.MarkerBack | apps/desktop/src/App.tsx:1042-1050 | the marker's ends are found where they were written, whatever else the id holds |
| ReplyCodec.TrimmedReplyBack | apps/desktop/src/App.tsx:973-975 | after trimming, the reply is read back if and only if its text is not blank |
| StoredMessages.ParseStoredUserMessage | apps/desktop/src/App.tsx:983-1015 | the reader with its loop computes the specified text, images and reply |
| StoredMessages.TakeBlock | apps/desktop/src/App.tsx:988-1012 | the first block is cut out of the text; a text without one is left alone |
| StoredMessages.CollectImages | apps/desktop/src/App.tsx:1003-1011 | the loop over the payload yields the well-formed entries in order |
| StoredMessages.ImagesBack | apps/desktop/src/App.tsx:973-1015 | the trimmed text and the normalised images of an encoded message come back |
| StoredMessages.ImagesInside | apps/desktop/src/App.tsx:988-1012 | of a block anywhere in a text the images are read, and the text around it is joined and trimmed |
| StoredMessages.ImagesAreSound | apps/desktop/src/App.tsx:1003-1011 | whatever text is read, every image found has an image type, not under its second name, and data that is neither empty nor padded |
| StoredMessages.CanonicalKept | apps/desktop/src/App.tsx:1006-1009 | images in the composer's own form come back unchanged |
| StoredMessages.PlainBack | apps/desktop/src/App.tsx:973-1015 | a message that is no reply comes back as text and images with no reply |
| StoredMessages.ImagesBackExactly | apps/desktop/src/App.tsx:973-1000 | a text survives every choice of attached images if and only if it does not hold the beginning of an image block |
| StoredMessages.NoImagesExactly | apps/desktop/src/App.tsx:973-975 | without images a text survives if and only if it holds no complete block |
| StoredMessages.SentLacks | apps/desktop/src/App.tsx:1025-1034 | formatting a reply never creates an image block |
| StoredMessages.SentBack | apps/desktop/src/App.tsx:973-1084 | a reply with images, encoded and parsed, gives text, images and target back when its text is not blank, and exactly the raw header otherwise |
| Timeline.SplitByMessage | apps/desktop/src/App.tsx:577-600 | the loops compute the buckets and the pending list |
| Timeline.FillBucket | apps/desktop/src/App.tsx:586-591 | a bucket is the entries of its window in order |
| Timeline.SplitIsPartition | apps/desktop/src/App.tsx:577-600 | with distinct assistant ids, buckets and pending list hold every entry exactly once whatever entries come, if and only if the assistant messages are in time order |
| Timeline.PartitionedExactly | apps/desktop/src/App.tsx:577-600 | for given entries they do so if and only if no entry's time is straddled by two assistant messages out of order |
| Timeline.OrderKeptExactly | apps/desktop/src/App.tsx:577-600 | time-ordered entries are always read back in order if and only if the assistant messages are in time order |
| Timeline.SplitKeepsOrder | apps/desktop/src/App.tsx:577-600 | read one after the other they give back time-ordered entries in order |
| Timeline.BucketExactly | apps/desktop/src/App.tsx:586-592 | an entry lies in the bucket of a message if and only if that is the first assistant message not older than it |
| Timeline.PendingExactly | apps/desktop/src/App.tsx:596-599 | and is pending if and only if every assistant message is older |
| Timeline.OutOfOrderShowsTwice | apps/desktop/src/App.tsx:584-595 | out of time order an entry can be shown twice |
| Activity.BuildActivity | apps/desktop/src/activity.ts:228-239 | the pass over stored events gives exactly the list the live handler builds |
| Activity.LiveList.OnActivity | apps/desktop/src/App.tsx:3343-3353 | one live event extends the list by that event |
| Activity.PutIsLiveStep | apps/desktop/src/activity.ts:236-236 | setting a merged entry in an insertion-ordered map is appending or merging in place |
| Activity.LiveUnique | apps/desktop/src/App.tsx:3346-3352 | ids stay unique |
| Activity.LiveInOrder | apps/desktop/src/App.tsx:3346-3352 | entries stand in the order in which their ids first appeared |
| Activity.LiveShowsExpected | apps/desktop/src/activity.ts:75-84 | an id shows its last event under the last distinctive policy it had |
| Activity.DistinctiveStays | apps/desktop/src/activity.ts:75-84 | once distinctive, an id's policy stays distinctive whatever follows |
| McpConfig.ParseConfig | crates/xcoding-mcp/src/lib.rs:197-228 | an error exactly when some name or command is not acceptable, otherwise the sixteen least names of the file, sorted, each with its entry's trimmed command, arguments, environment and flag |
| McpConfig.LoadEffective | crates/xcoding-mcp/src/lib.rs:332-374 | an error exactly when either file has an entry that is not acceptable, otherwise the sixteen least names of the union, each with the trimmed command, arguments and environment of the workspace's entry or else the user's, enabled by the override for that file and name or else by the entry |
| McpConfig.AcceptableExactly | crates/xcoding-mcp/src/lib.rs:170-176 | a name is one to sixty-four ASCII letters, digits, underscores and hyphens, and the command is not blank |
| McpConfig.MergeUser | crates/xcoding-mcp/src/lib.rs:337-373 | merging into the truncated workspace list gives the first sixteen of the full table |
| McpConfig.AddEntries | crates/xcoding-mcp/src/lib.rs:347-369 | entries are added only under free names; a bad one is an error whatever the order |
| McpConfig.SortAndTruncate | crates/xcoding-mcp/src/lib.rs:370-373 | the least sixteen names of a table, sorted |
| McpConfig.TruncationLosesNothing | crates/xcoding-mcp/src/lib.rs:197-228 | cutting the workspace list before the merge loses nothing |
| McpConfig.CutOffStaysOut | crates/xcoding-mcp/src/lib.rs:332-374 | a workspace name that was cut off cannot return through the user file |
| McpConfig.FirstNamesUnique | crates/xcoding-mcp/src/lib.rs:370-372 | there is only one such list of names |
| McpConfig.IsFirstUnique | crates/xcoding-mcp/src/lib.rs:332-374 | so the result does not depend on any iteration order |
| McpConfig.ToolNameRoundTrip | crates/xcoding-mcp/src/lib.rs:153-177 | a tool name decodes to its parts if and only if the server name is valid, the tool is named and no two underscores meet inside or at the end of the server name |
| McpConfig.DecodeExactly | crates/xcoding-mcp/src/lib.rs:158-168 | a name decodes to a server and a tool if and only if it was made from them and the server's name can be told apart |
| McpConfig.ToolNamesCollideExactly | crates/xcoding-mcp/src/lib.rs:153-168 | two servers can offer the same tool name if and only if one's name is the other's and goes on with one underscore to its end, or with two |
| McpConfig.ToolNamesDistinct | crates/xcoding-mcp/src/lib.rs:153-156 | in no other case does one tool name stand for two tools |
| McpConfig.ToolNamesCanCollide | crates/xcoding-mcp/src/lib.rs:153-168 | two accepted servers that do |
| Sketch.WorkspacePathSketch | crates/xcoding-context/src/lib.rs:288-330 | the queue walk prints the first forty entries of the level-order listing |
| Sketch.Walk | crates/xcoding-context/src/lib.rs:290-326 | the work queue, stopped early, prints a prefix of what it would print |
| Sketch.VisitDirectory | crates/xcoding-context/src/lib.rs:292-325 | one directory adds its visible entries in order until forty are reached |
| Sketch.QueueIsLevelOrder | crates/xcoding-context/src/lib.rs:288-330 | first-in-first-out processing of a queue is the listing level by level |
| Sketch.SortAscends | crates/xcoding-context/src/lib.rs:296-297 | entries are listed by name, each once, whatever order the directory gave |
| Sketch.ListingIsComplete | crates/xcoding-context/src/lib.rs:288-355 | the listing holds exactly the entries that a path of one to three components leads to through readable directories that are not ignored |
| SketchLaws.ListingExactly | crates/xcoding-context/src/lib.rs:288-355 | the same with files, symbolic links and the twelve ignored names told out |
| SketchLaws.ListingInOrder | crates/xcoding-context/src/lib.rs:288-330 | with distinct names in each directory, the listing is in strict order of depth and then of path, component by component |
| SketchLaws.ListingIsTheOne | crates/xcoding-context/src/lib.rs:288-355 | so it is the one ordered list of the entries that paths of one to three components lead to |
| SketchLaws.LineBack | crates/xcoding-context/src/lib.rs:316-337 | a line read at its slashes gives the components back, with an empty last piece exactly for a directory |
| Sketch.SketchIsOrderly | crates/xcoding-context/src/lib.rs:288-330 | at most forty lines, at most three components, depths never decrease, each directory before its entries |

## Left out

- Reading and writing JSON text: statements about compression hold for any reader and writer.
- Rendering, styling, menus, settings and translations of the desktop: no hard property.
- Database errors, redaction of stored secrets and a restart of the process, after which the cancel probe is empty; the store is assumed to append messages and to delete a session's actions with it.
- Widths of integers: line counts, generations and versions are unbounded.
- The command counters of `task_summary` and the Git fields: settled by one branch each.
- Sends to other sessions and sends by the user during a drain: `DrainGuard` lets the queue change in any way meanwhile, but counts only the sends of drains.
- The live sender's own exceptions: outputs that hold a secret reference or have no message id are sent uncompressed (crates/xcoding-agent/src/lib.rs:6805-6819).
- The promises kept in `chatInFlightBySessionRef`: which turn is current does not depend on them.
- Text files attached to a message and the agent's own reader of image blocks.
- Strings with lone surrogates, on which `encodeURIComponent` throws: strings are sequences of Unicode scalar values.
- `localeCompare` in the follow-up queue: any total order on times and ids, here the numeric one.
- The wording of activity entries (`eventActivity`): an entry is given with its id and policy.
- MCP processes, pipes, timeouts and the matching of JSON-RPC ids.
- File names that are not Unicode, and file names whose lossy forms coincide.
- ReplyCodec.ReplyBack: the laws of percent-encoding (section 2.1 of RFC 3986) are assumed of the codec, not derived from a definition of it.
- StoredMessages.ImagesBack: image fields are assumed free of white space, `>`, `;` and bars, which base64 (section 4 of RFC 4648) and the composer's media types are.
- ToolOutput.CompactRunCommandLoop: the loop over the two stream names is written out as two rounds.
- CoreSessions.CoreService.StartChat: creation of the session and its first status and message are one step; other threads see none of the states between.
