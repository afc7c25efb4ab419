# n00n: machine-checked models of the agent's protocol and text engines

This project models, in Dafny, the parts of the n00n terminal coding agent whose correctness is
hardest to see by reading, and proves what they promise for all inputs and all interleavings.

| file | models |
|---|---|
| `CancelTree.dfy`, `CancelMap.dfy` | cancellation tokens as atomic steps; the keyed trigger map; the pre-dispatch gate |
| `StreamSynth.dfy` | the synthesiser of bracketed stream events, against an independent reader |
| `TodoShrink.dfy`, `TodoBudget.dfy`, `AfterInstructions.dfy` | the staged byte budget for injected todos |
| `PromptTemplate.dfy`, `PromptAssembly.dfy`, `PromptScan.dfy` | prompt assembly by repeated replacement and by a single scan |
| `StdinFramer.dfy`, `AcpSession.dfy` | the ACP server's framer and its prompt and permission protocol |
| `PermissionScope.dfy`, `Permissions.dfy` | scope patterns, their generalisation, and the permission manager |
| `Checkpoints.dfy`, `SessionRevision.dfy` | compaction checkpoints and the revision protocol of the session store |
| `RunEvents.dfy`, `RunIds.dfy` | run-event collection and the agreement of the two run counters |
| `SqlText.dfy`, `Fence.dfy` | two escaping round trips |
| `Utf8.dfy`, `Chars.dfy`, `Wrappers.dfy` | byte lengths, character classes, optional values |

Conventions. Objects the program updates in place are classes whose methods are proved against
functions on values; the theorems are about those functions. Concurrent protocols are state
machines: one datatype of steps, one function applying a step (a step that is not enabled changes
nothing, or a predicate says when it is enabled), and theorems over every sequence of steps.
Outside decisions (JSON parsing, plugin captures, whether a save succeeds, what other threads do)
are parameters, so each theorem holds for all of them. Strings are sequences of characters with
their UTF-8 widths; u64, i64 and usize limits and saturation are explicit where the code meets them.

What the proofs found, each with its exact condition:

- A todo line in progress without a text `content` is cut raw, and what is left ends in a dot, as no JSON
  text does, although the comment at `crates/n00n-agent/src/prompt.rs:357` says the payload stays
  well-formed. `AfterInstructions.RawCutIff` says from the input alone when that happens, and
  `LongLineCutRaw` gives a case.
- The two prompt assemblers differ on the newline after an empty instructions marker, and on a newline that
  an empty slot finds behind it only because a slot in between, replaced earlier, is already filled. `PromptAssembly.AssembleAgreesWithScan` is
  exact; `EmptyInstructionsDiffer` and `AdjacentMarkersDiffer` are templates where they part.
- A frame one byte over the limit that ends in two carriage returns loses both (`StdinFramer.PayloadIff`,
  `TwoCarriageReturns`).
- Allowing a write to a path whose last component is `..` does not cover that path, and a shell
  segment with leading blanks, or whose first token is followed by a blank other than a space, is
  asked about again (`PermissionScope.GeneralizeSticksIff`, `Permissions.AllowSticksIff`; `ParentOfParent`,
  `TabAsksAgain`).
- The re-check in `enforce` misses a denial of an already claimed scope that arrives during the
  wait (`Permissions.RecheckIff`, `RecheckCanMiss`).
- If the session store fails to open, the drain before the first run can discard the only message
  that says so (`RunIds.DrainDiscards`, `FailedOpenIsSwallowed`).

## Model

| member | source | states |
|---|---|---|
| `CancelTree.FiredIffAncestorFired` | crates/n00n-agent/src/cancel.rs:30-33 | a token counts as cancelled exactly when it or some ancestor, at any depth, has fired |
| `CancelTree.InvNext` | crates/n00n-agent/src/cancel.rs:24-33 | every atomic step (create, fire: store then notify, check, listen, re-check, block, wake) keeps the waiters' invariant and never un-cancels a token; what each step does is stated by the rows below |
| `CancelTree.RunKeepsInv` | crates/n00n-agent/src/cancel.rs:139-167 | over every interleaving the invariant holds and cancellation is monotone |
| `CancelTree.NoLostWakeup` | crates/n00n-agent/src/cancel.rs:139-157 | a waiter that has no step left and has not returned watches every token of its chain, and any fired token of the chain still has its notification on the way |
| `CancelTree.BlockedIsOwedNotification` | crates/n00n-agent/src/cancel.rs:139-157 | the same for every interleaving from the start: a stuck waiter is still owed the notification of every fired token of its chain |
| `CancelTree.ReturnedMeansFired` | crates/n00n-agent/src/cancel.rs:139-157 | `cancelled()` returns only if its token or an ancestor fired |
| `CancelTree.WaiterEffortBounded` | crates/n00n-agent/src/cancel.rs:139-157 | over any run the steps a waiter takes are bounded by a budget fixed by its chain: firing never makes it spin |
| `CancelTree.FreshBudget` | crates/n00n-agent/src/cancel.rs:139-157 | the budget of a new call: quadratic in the depth of its token, and the depth itself if the token is already cancelled |
| `CancelTree.OwnStepsCounted` | crates/n00n-agent/src/cancel.rs:139-157 | the steps bounded there are the waiter's own advances and its wake-ups, all of them |
| `CancelTree.FiredWaiterReturns` | crates/n00n-agent/src/cancel.rs:139-157 | once a fired token's notification is out, the waiter has returned or can move, and a waiter granted its whole budget has returned |
| `CancelTree.ChildHangsBelow` | crates/n00n-agent/src/cancel.rs:160-167 | a child's chain is its parent's with the child in front; it starts cancelled exactly when the parent is, and nothing else changes |
| `CancelTree.RootStandsAlone` | crates/n00n-agent/src/cancel.rs:100-107 | a token without parent is alone on its chain and not cancelled |
| `CancelTree.StoreFiresBelow` | crates/n00n-agent/src/cancel.rs:25-33 | storing the flag cancels the tokens with this one on their chain, and no others |
| `CancelTree.FiredForGood` | crates/n00n-agent/src/cancel.rs:25-33 | over every later run each token below a fired one, whether older or created later, is cancelled |
| `CancelTree.NotifyReaches` | crates/n00n-agent/src/cancel.rs:25-28 | notifying reaches exactly the frames listening on the token |
| `CancelTree.WaitBegins` | crates/n00n-agent/src/cancel.rs:139-142 | a call of `cancelled()` begins by checking its own token, without a listener |
| `CancelTree.CheckReadsChain` | crates/n00n-agent/src/cancel.rs:139-157 | a check nobody interrupts decides by the declarative meaning of cancellation: it returns, or goes on to listen, or blocks and enters the parent's loop |
| `CancelTree.ListenRegisters` | crates/n00n-agent/src/cancel.rs:144-147 | listening registers a listener that has not been notified and checks again |
| `CancelTree.FireWakes` | crates/n00n-agent/src/cancel.rs:24-157 | firing a token on which a call is blocked lets it wake, find the flag, and return from that level |
| `CancelMap.Table.Insert` | crates/n00n-agent/src/cancel.rs:205-216 | inserting under a pre-cancelled key fires the trigger and clears the key; otherwise it becomes the live entry and a live entry it replaces fires by being dropped |
| `CancelMap.Table.CancelOrPrecancel` | crates/n00n-agent/src/cancel.rs:218-229 | a live entry is removed and fired; otherwise the key is marked pre-cancelled |
| `CancelMap.Table.Remove` | crates/n00n-agent/src/cancel.rs:231-236 | removing a live entry drops, and so fires, its trigger |
| `CancelMap.Table.CancelAll` | crates/n00n-agent/src/cancel.rs:238-250 | the map is emptied and every live trigger fires, in whatever order the map is drained |
| `CancelMap.ApplyConserves` | crates/n00n-agent/src/cancel.rs:176-180 | each single operation keeps every inserted trigger either live under one key or fired |
| `CancelMap.TriggersConserved` | crates/n00n-agent/src/cancel.rs:176-250 | over any sequence of operations every trigger ever inserted is live under exactly one key or fired, never both, never lost |
| `CancelMap.FiredForever` | crates/n00n-agent/src/cancel.rs:171-180 | a fired trigger stays fired whatever follows |
| `CancelMap.CancelInsertCommute` | crates/n00n-agent/src/cancel.rs:205-229 | on a key without entry, insert-then-cancel and cancel-then-insert end in the same map with the trigger fired |
| `CancelMap.RemoveFires` | crates/n00n-agent/src/cancel.rs:231-236 | removing a key leaves no entry under it, fires exactly the trigger live there, and touches no other key |
| `CancelMap.DrainFires` | crates/n00n-agent/src/cancel.rs:238-250 | cancelling all leaves no entry and fires exactly the live triggers |
| `CancelMap.CancelFires` | crates/n00n-agent/src/cancel.rs:218-229 | a live key loses its entry and its trigger fires; any other key ends pre-cancelled and nothing fires |
| `CancelMap.InsertPlaces` | crates/n00n-agent/src/cancel.rs:205-216 | the three cases of inserting: onto nothing, onto a live entry, onto a pre-cancelled key; no other key changes |
| `PreDispatch.Gate.TryCancel` | crates/n00n-agent/src/cancel.rs:62-71 | succeeds exactly from the pending phase |
| `PreDispatch.Gate.TryCommit` | crates/n00n-agent/src/cancel.rs:75-85 | succeeds from the pending or the committed phase and never after a cancellation |
| `PreDispatch.FirstCallDecides` | crates/n00n-agent/src/cancel.rs:54-85 | in any sequence of calls the first one fixes the phase for good |
| `PreDispatch.HandoffIsExclusive` | crates/n00n-agent/src/cancel.rs:54-85 | a call succeeds exactly when it is of the first call's kind and, for a cancellation, is the first call |
| `StreamSynth.Synthesiser.Reset` | src/sdk_mode.rs:288-290 | a reset returns to the initial state |
| `StreamSynth.Synthesiser.EnsureStarted` | src/sdk_mode.rs:345-362 | message_start is emitted once per message |
| `StreamSynth.Synthesiser.EnsureBlock` | src/sdk_mode.rs:364-382 | the open block is kept when its kind matches; otherwise it is closed and the next index opened |
| `StreamSynth.Synthesiser.SayDelta` | src/sdk_mode.rs:292-310 | text and thinking deltas go into a block of their own kind |
| `StreamSynth.Synthesiser.ToolUse` | src/sdk_mode.rs:312-328 | a tool use is a block of its own: start, input, stop |
| `StreamSynth.Synthesiser.FinishMessage` | src/sdk_mode.rs:330-343 | a started message is closed, ended and the state reset; nothing is emitted otherwise |
| `StreamSynth.CoalesceAppend` | src/sdk_mode.rs:364-382 | one more call either extends the last block or appends exactly one |
| `StreamSynth.AlwaysAgrees` | src/sdk_mode.rs:273-394 | after any sequence of calls the synthesiser state and an independent reader of the emitted events agree on the block index, the open block and the content so far |
| `StreamSynth.StreamRoundTrip` | src/sdk_mode.rs:273-394 | for every sequence of calls, resets included, the stream obeys the bracket grammar and a reader that discards an unfinished message on message_start recovers exactly the finished messages, adjacent deltas of one kind coalesced; each reset abandons at most one message |
| `StreamSynth.RefusesBlocks` | src/sdk_mode.rs:364-394 | the grammar a client checks: blocks open one at a time and numbered on |
| `StreamSynth.RefusesDeltas` | src/sdk_mode.rs:292-328 | a delta lies in the open block and is of its kind |
| `StreamSynth.RefusesEnds` | src/sdk_mode.rs:330-343 | a message ends once, with no block open, and nothing but a start is read outside one |
| `StreamSynth.BalancedWithoutResets` | src/sdk_mode.rs:1040-1047 | without the resets done on retries and turn ends every message is closed before the next begins |
| `TodoShrink.EncodeSize` | crates/n00n-agent/src/prompt.rs:392-419 | the size of a candidate line is what its parts add up to |
| `TodoShrink.SizeMonotone` | crates/n00n-agent/src/prompt.rs:398-400 | a longer prefix of the content never re-encodes shorter, escapes and multi-byte characters included |
| `TodoShrink.SearchPrefix` | crates/n00n-agent/src/prompt.rs:406-431 | the search ends and returns the re-encoding of the longest character prefix that fits, or none if not even the empty prefix does |
| `TodoShrink.NothingFits` | crates/n00n-agent/src/prompt.rs:384-433 | it returns none exactly when the empty prefix does not fit |
| `TodoShrink.LongestMeans` | crates/n00n-agent/src/prompt.rs:406-431 | no prefix that fits is longer than the one chosen |
| `TodoShrink.ShrinkTodoLine` | crates/n00n-agent/src/prompt.rs:384-440 | all branches: zero room, a line that fits, a line with text content, a raw cut; the result is within the room given |
| `TodoShrink.ShrinkSucceedsIff` | crates/n00n-agent/src/prompt.rs:384-440 | a line that is too long can be shrunk exactly when its minimal encoding fits |
| `TodoShrink.ShrunkWholeIff` | crates/n00n-agent/src/prompt.rs:384-440 | a line that had to be shrunk is its own object re-encoded if and only if it has a text content; otherwise it is cut raw and ends in a dot, as no JSON text does |
| `TodoShrink.EncodeDecodes` | crates/n00n-agent/src/prompt.rs:398-419 | a JSON string reader (section 7 of RFC 8259) finds in a shrunk line the cut content and three dots, and the text before and after it as it was |
| `TodoBudget.RenderBytes` | crates/n00n-agent/src/prompt.rs:349-356 | the tracked byte total is the length of what is emitted |
| `TodoBudget.KeptUpdate` | crates/n00n-agent/src/prompt.rs:292-346 | replacing or dropping one entry changes the total by exactly the difference of its costs |
| `TodoBudget.VictimsFacts` | crates/n00n-agent/src/prompt.rs:286-311 | the drop order lists each todo that is not in progress exactly once |
| `TodoBudget.DropsShorten` | crates/n00n-agent/src/prompt.rs:291-318 | each further drop shortens the block |
| `TodoBudget.DropWhileOver` | crates/n00n-agent/src/prompt.rs:291-318 | one drop loop: it stops at the first total that fits, and the running total equals the rendered length throughout |
| `TodoBudget.DropTodos` | crates/n00n-agent/src/prompt.rs:285-319 | both drop loops together drop the shortest prefix of pending-then-other, oldest first, that fits, or all of it |
| `TodoBudget.ShrinkLoop` | crates/n00n-agent/src/prompt.rs:332-347 | in-progress todos: a dropped prefix up to the first entry where what is left fits or the entry can be shrunk into its room, that entry shrunk exactly when the block is still too long, the rest untouched; the total fits, and one survives if each minimal encoding is small |
| `TodoBudget.FitInProgress` | crates/n00n-agent/src/prompt.rs:320-347 | the header is trimmed to leave each in-progress todo its reserve, then the todos are fitted |
| `TodoBudget.FitTodos` | crates/n00n-agent/src/prompt.rs:275-347 | the whole staged allocation, with the running total equal to the rendered length at the end |
| `AfterInstructions.FindHeaderEnd` | crates/n00n-agent/src/prompt.rs:238-245 | the header is everything before the first line that opens an object |
| `AfterInstructions.ParseTodos` | crates/n00n-agent/src/prompt.rs:247-263 | blank lines are skipped; a line that is no JSON, or has no status text, counts as pending |
| `AfterInstructions.Emit` | crates/n00n-agent/src/prompt.rs:349-356 | the block is the header and each kept line, and its length is the total |
| `AfterInstructions.TrimTail` | crates/n00n-agent/src/prompt.rs:357-371 | the safety net keeps the most whole lines beyond the header that fit; if none fit, the longest prefix at a character boundary |
| `AfterInstructions.TruncateOutput` | crates/n00n-agent/src/tools/mod.rs:608-659 | the joined lines if they fit, else their longest prefix that leaves room for the marker, at a character boundary; for a limit too small for the marker, as much of the marker as fits |
| `AfterInstructions.CapTodos` | crates/n00n-agent/src/prompt.rs:275-380 | the fitted block is emitted with no line removed by the safety net; a hard cut happens only when no todo survives |
| `AfterInstructions.CapAfterInstructions` | crates/n00n-agent/src/prompt.rs:221-380 | at most 2048 bytes for every content and every outcome of JSON parsing; content that fits is unchanged |
| `AfterInstructions.EmittedIs` | crates/n00n-agent/src/prompt.rs:348-380 | a fitted block of at most 2048 bytes is emitted whole; a longer one keeps no todo and is the header cut at a character boundary |
| `AfterInstructions.VictimSurvives` | crates/n00n-agent/src/prompt.rs:285-319 | a todo that is not in progress survives, unchanged, exactly when the drop loops stopped before it |
| `AfterInstructions.DropPriority` | crates/n00n-agent/src/prompt.rs:285-319 | status `pending` goes before every other status but `in_progress`, and older before newer; survivors are unchanged |
| `AfterInstructions.EachDropNeeded` | crates/n00n-agent/src/prompt.rs:291-318 | every dropped todo was dropped while the block was still over the cap |
| `AfterInstructions.InProgressLast` | crates/n00n-agent/src/prompt.rs:300-347 | an in-progress todo is touched only if no todo of another status survives; those touched are a dropped prefix and at most one shrunk line |
| `AfterInstructions.InProgressSurvives` | crates/n00n-agent/src/prompt.rs:320-347 | if some todo is in progress and each needs at most 63 bytes at least, one survives |
| `AfterInstructions.InProgressDropNeeded` | crates/n00n-agent/src/prompt.rs:332-346 | an in-progress todo is dropped only while the block is too long and the todo cannot be shrunk into its room |
| `AfterInstructions.WholeIff` | crates/n00n-agent/src/prompt.rs:332-358 | every kept line is its input line or its own object re-encoded, if and only if each changed line has a text content |
| `AfterInstructions.RawCutIff` | crates/n00n-agent/src/prompt.rs:332-358 | the emitted block holds a raw-cut line if and only if, by the input alone, the todos in progress are too long together and the line where the shrink loop stops has no text content |
| `AfterInstructions.LongLineCutRaw` | crates/n00n-agent/src/prompt.rs:435-439 | one todo in progress over the cap without text content: its first 2044 bytes and three dots are emitted, which no JSON text ends in |
| `AfterInstructions.HeaderCut` | crates/n00n-agent/src/prompt.rs:320-330 | the header is untouched unless n todos in progress alone make the block too long; then it is the longest character prefix within 2048 bytes less 64 for each of them, and so is whole if it leaves them that |
| `AfterInstructions.OneTodoUsesAllRoom` | crates/n00n-agent/src/prompt.rs:320-347 | a header that leaves the one todo its 64 bytes is kept whole, and the todo is the longest re-encoding that fits all the room beside it |
| `AfterInstructions.LinesEnd` | crates/n00n-agent/src/prompt.rs:237-237 | what ends a line: a newline, with one carriage return before it; the end of the text ends a last line that is not empty |
| `AfterInstructions.JoinedLinesSplit` | crates/n00n-agent/src/prompt.rs:245-245 | splitting the joined header gives its lines back |
| `AfterInstructions.ContainsIff` | crates/n00n-agent/src/prompt.rs:225-225 | the heading is looked for anywhere in the text |
| `AfterInstructions.HeaderStopsAtObject` | crates/n00n-agent/src/prompt.rs:238-245 | no header line has an opening brace as its first character that is not blank, and the line after the header has |
| `AfterInstructions.TodosLineByLine` | crates/n00n-agent/src/prompt.rs:247-263 | a blank line is no todo; any other line is one, with its object's text status and else `pending`; lines are taken in order |
| `AfterInstructions.LongTextMarked` | crates/n00n-agent/src/tools/mod.rs:608-659 | a text without todos over 2048 bytes is cut to at most 2036 bytes and the marker put on a line of its own |
| `AfterInstructions.TightIsJoin` | crates/n00n-agent/src/tools/mod.rs:608-659 | the lines kept are joined by single newlines; leading empty lines leave nothing |
| `PromptTemplate.MarkerUnique` | crates/n00n-agent/src/prompt.rs:75-87 | no two markers can start at one place |
| `PromptTemplate.Assemble` | crates/n00n-agent/src/prompt.rs:445-454 | fills each slot in turn over the whole text, then the instructions |
| `PromptTemplate.TextOfTokens` | crates/n00n-agent/src/prompt.rs:445-463 | splitting a text into markers and characters loses nothing |
| `PromptTemplate.ReplaceTokens` | crates/n00n-agent/src/prompt.rs:456-463 | string replacement of a marker is replacement of that marker's token wherever the text shows no accidental marker |
| `PromptTemplate.ReplaceNothing` | crates/n00n-agent/src/prompt.rs:456-463 | a text in which the pattern does not stand is left as it is |
| `PromptTemplate.ReplaceLeftmost` | crates/n00n-agent/src/prompt.rs:456-463 | the leftmost place where the pattern stands is replaced and the search goes on behind it |
| `PromptTemplate.SingletonMarkers` | crates/n00n-agent/src/prompt.rs:75-81 | the marker texts of the first three slots, in slot order |
| `PromptTemplate.AggregateMarkers` | crates/n00n-agent/src/prompt.rs:82-83 | the marker texts of the fourth and fifth slot |
| `PromptTemplate.LaterMarkers` | crates/n00n-agent/src/prompt.rs:84-85 | the marker texts of the last two slots |
| `PromptAssembly.FilledTokens` | crates/n00n-agent/src/prompt.rs:445-463 | after any number of slots the text is that of the token list with those slots filled |
| `PromptAssembly.NextSlot` | crates/n00n-agent/src/prompt.rs:456-463 | for every template and contents, replacing the next slot gives what the right-to-left definition says: an empty slot takes the newline that stands behind it once the slots before it are filled |
| `PromptAssembly.ItemsReplace` | crates/n00n-agent/src/prompt.rs:445-463 | which characters of the common text repeated replacement emits |
| `PromptAssembly.ItemsScan` | crates/n00n-agent/src/prompt.rs:497-541 | which of them the single scan emits |
| `PromptAssembly.AssembleAgreesWithScan` | crates/n00n-agent/src/prompt.rs:445-547 | whenever no substitution makes a marker, repeated replacement and the single scan give the same text if and only if between any two characters that are not newlines both give up equally many newlines |
| `PromptAssembly.AssembledLength` | crates/n00n-agent/src/prompt.rs:445-547 | the lengths differ by exactly the newlines each form gives up to the other; if only one side gives any up, the forms agree if and only if neither does |
| `PromptAssembly.AdjacentMarkersDiffer` | crates/n00n-agent/src/prompt.rs:456-463 | at `{{tone}}{{identity}}` and two newlines, both slots empty, the two forms differ |
| `PromptAssembly.EmptyInstructionsDiffer` | crates/n00n-agent/src/prompt.rs:445-454 | at `{{instructions}}` and a newline, without instructions, the two forms differ |
| `PromptAssembly.DifferencesCanCancel` | crates/n00n-agent/src/prompt.rs:445-547 | with both differences at once the texts can be equal all the same, so counting newlines alone does not decide |
| `PromptAssembly.NeatMakesNoMarker` | crates/n00n-agent/src/prompt.rs:445-463 | a condition on the inputs alone under which no substitution creates a marker |
| `PromptAssembly.NeatContentIff` | crates/n00n-agent/src/prompt.rs:445-463 | contents meet that condition exactly if they have no two opening braces together and none at the end |
| `PromptScan.MatchesArePositions` | crates/n00n-agent/src/prompt.rs:479-493 | searching the template for a marker finds its token positions, each once |
| `PromptScan.GatherIsSites` | crates/n00n-agent/src/prompt.rs:477-493 | collecting marker by marker finds every marker occurrence exactly as often as it occurs |
| `PromptScan.SortSites` | crates/n00n-agent/src/prompt.rs:495-495 | the collected sites, ordered by position, none lost or repeated |
| `PromptScan.SortedUnique` | crates/n00n-agent/src/prompt.rs:495-495 | positions are distinct, so ordering leaves no choice |
| `PromptScan.AssembleSystem` | crates/n00n-agent/src/prompt.rs:473-547 | the pushed texts concatenate to the scan of the template; everything before the dynamic boundary is static and says the template up to its first dynamic slot; the dynamic blocks are exactly the non-empty contents at `environment` and `after_instructions` markers, in order, each a block of its own |
| `PromptScan.CacheIsStable` | crates/n00n-agent/src/prompt.rs:473-547 | the cacheable prefix does not depend on the contents of `environment` and `after_instructions` |
| `PromptScan.CacheIsLongest` | crates/n00n-agent/src/prompt.rs:473-547 | the cacheable prefix says everything before the first of those two markers, there is a boundary exactly if there is such a marker, and it stands before every dynamic block |
| `PromptScan.DynamicNames` | crates/n00n-agent/src/prompt.rs:506-508 | which slots are dynamic |
| `StdinFramer.Reader.ReadStdinFrame` | crates/n00n-acp/src/server.rs:151-192 | however the input is buffered, one call returns the verdict on the first line of the remaining stream, consumes exactly that line and its delimiter, and never buffers more than the limit |
| `StdinFramer.Reader.ReadAll` | crates/n00n-acp/src/server.rs:203-225 | calls until end of input return the frames of the whole stream |
| `StdinFramer.FramesAreLines` | crates/n00n-acp/src/server.rs:151-192 | those frames are the verdicts on the pieces of splitting the stream at newlines, whatever the buffering |
| `StdinFramer.PayloadIff` | crates/n00n-acp/src/server.rs:181-191 | for every limit: the payload is the line without its carriage return exactly unless the line is one over the limit and ends in two of them; oversized exactly when the payload is over the limit, up to the saturation of the byte count at the largest usize |
| `StdinFramer.TwoCarriageReturns` | crates/n00n-acp/src/server.rs:181-191 | such a line loses both carriage returns |
| `StdinFramer.LimitAt` | crates/n00n-acp/src/server.rs:181-191 | the verdict on a line by its length, without and with a carriage return at its end |
| `StdinFramer.RoundTrip` | crates/n00n-acp/src/server.rs:87-92 | framing what was written gives one frame per message in order, unchanged exactly if the message is within the limit and does not end in a carriage return |
| `AcpSession.Cells.BeginPrompt` | crates/n00n-acp/src/server.rs:488-501 | a second prompt is refused; a failed hand-over leaves no prompt pending |
| `AcpSession.Cells.RequestCancel` | crates/n00n-acp/src/server.rs:554-565 | a cancel is recorded only while a prompt is pending |
| `AcpSession.Cells.TakePending` | crates/n00n-acp/src/server.rs:766-775 | taking the prompt takes its cancel flag with it |
| `AcpSession.Cells.NextRequestId` | crates/n00n-acp/src/server.rs:758-764 | the next id, or none once the i64 range is used up |
| `AcpSession.Cells.TakePermission` | crates/n00n-acp/src/server.rs:581-601 | a response counts once, and only if it names the awaited request |
| `AcpSession.StepKeepsInv` | crates/n00n-acp/src/server.rs:355-774 | every atomic step of reader, retirement and event pump keeps the books |
| `AcpSession.ExactlyOnce` | crates/n00n-acp/src/server.rs:355-774 | in every interleaving no session/prompt request is answered twice, each is answered or held by exactly one party, and all are answered once when the reader loop has ended |
| `AcpSession.AnswersTheirPrompt` | crates/n00n-acp/src/server.rs:726-749 | every answer follows its request and carries its id |
| `AcpSession.CancelledIffAsked` | crates/n00n-acp/src/server.rs:355-749 | what each answer says: refusals are errors, retirement cancels, a finished run stops, and a failing run is reported as cancelled exactly when a cancel arrived while that prompt was pending |
| `AcpSession.CancelNeedsPrompt` | crates/n00n-acp/src/server.rs:554-565 | the cancel flag is set only while a prompt is pending |
| `AcpSession.RetirementBounded` | crates/n00n-acp/src/server.rs:355-383 | in every schedule retirement takes at most five steps, and two more for each event the pump still takes |
| `AcpSession.StepsCounted` | crates/n00n-acp/src/server.rs:355-383 | what is counted there: from the request to retire until the pump has ended, each new event taken, and each other step that does something |
| `AcpSession.RetirementNeverStuck` | crates/n00n-acp/src/server.rs:355-383 | until a session is retired some step other than a new event brings it nearer |
| `AcpSession.CanAlwaysEnd` | crates/n00n-acp/src/server.rs:194-275 | from every state some schedule ends the reader loop |
| `AcpSession.IdsNeverRepeat` | crates/n00n-acp/src/server.rs:694-725 | permission request ids strictly increase across all sessions and stay in range |
| `AcpSession.ForwardedOnce` | crates/n00n-acp/src/server.rs:571-613 | each id leads to at most one forwarded answer, to the session that reserved it |
| `AcpSession.StaleResponseIgnored` | crates/n00n-acp/src/server.rs:571-601 | a late response to an earlier session's request changes nothing |
| `AcpSession.PromptBecomesPending` | crates/n00n-acp/src/server.rs:469-501 | an accepted prompt becomes the pending one, uncancelled, and gets no answer yet |
| `AcpSession.PromptRefused` | crates/n00n-acp/src/server.rs:469-501 | every other prompt is answered at once: -32602 for bad parameters, -32600 without a session or beside a running prompt, -32603 when the session has ended; the session keeps its pending prompt |
| `AcpSession.CancelMarks` | crates/n00n-acp/src/server.rs:554-565 | a cancel marks the pending prompt; without one it marks nothing |
| `AcpSession.DoneAnswers` | crates/n00n-acp/src/server.rs:726-735 | a finished run answers the pending prompt as stopped and frees the cell |
| `AcpSession.ErrorAnswers` | crates/n00n-acp/src/server.rs:736-749 | a failing run answers it as cancelled exactly if a cancel was requested, else as failed, and frees the cell |
| `AcpSession.NobodyToAnswer` | crates/n00n-acp/src/server.rs:726-749 | with no prompt pending the end of a run answers nobody |
| `AcpSession.PromptRoundTrip` | crates/n00n-acp/src/server.rs:309-749 | from the start: a session, a prompt, its run, its answer |
| `AcpSession.PermissionAsked` | crates/n00n-acp/src/server.rs:694-725 | a permission request goes out under the next id, which is then the awaited one |
| `AcpSession.PermissionExhausted` | crates/n00n-acp/src/server.rs:694-764 | once the i64 ids are used up nothing is asked of the client |
| `AcpSession.ResponseForwarded` | crates/n00n-acp/src/server.rs:571-601 | the awaited response is forwarded once; any other is ignored |
| `AcpSession.RetireReplaces` | crates/n00n-acp/src/server.rs:355-414 | retiring answers the pending prompt as cancelled, then the new session starts with nothing pending, or the loop ends |
| `AcpSession.FirstSession` | crates/n00n-acp/src/server.rs:355-414 | without a session there is nothing to retire |
| `AcpSession.BadSessionRequest` | crates/n00n-acp/src/server.rs:309-353 | a session request that is refused changes nothing |
| `PermissionScope.ScopeReflexive` | crates/n00n-agent/src/permissions.rs:603-630 | every scope, taken as a pattern, matches itself |
| `PermissionScope.RuleReflexive` | crates/n00n-agent/src/permissions.rs:564-587 | every tool key matches itself; what it does not match is stated by the next rows |
| `PermissionScope.NativeRuleCovers` | crates/n00n-agent/src/permissions.rs:564-587 | a rule for a native tool covers that tool under all its names, and no other tool |
| `PermissionScope.McpRuleCovers` | crates/n00n-agent/src/permissions.rs:564-587 | a rule for a server covers the server and its tools, one for a tool that tool alone; neither covers a native tool, nor the other way round |
| `PermissionScope.WildcardCovers` | crates/n00n-agent/src/permissions.rs:564-587 | the wildcard covers everything, and only it covers itself |
| `PermissionScope.LookupIs` | crates/n00n-config/src/lib.rs:857-862 | a name in the alias table stands for its first entry, any other for itself |
| `PermissionScope.BashNames` | crates/n00n-config/src/lib.rs:821-862 | the shell is `run_shell` and `bash` |
| `PermissionScope.FileWriteNames` | crates/n00n-agent/src/permissions.rs:681-686 | the tools that write files, by all their names |
| `PermissionScope.RootedPath` | crates/n00n-agent/src/permissions.rs:617-626 | a plain path from the root resolves to its names |
| `PermissionScope.RelativePath` | crates/n00n-agent/src/permissions.rs:617-626 | a plain relative path resolves to the working directory's names and its own |
| `PermissionScope.UpTakesOne` | crates/n00n-agent/src/permissions.rs:617-626 | `..` takes the name before it away, and nothing at the root |
| `PermissionScope.GlobCovers` | crates/n00n-agent/src/permissions.rs:603-630 | a directory pattern covers a plain path exactly when all the directory's names come first in it |
| `PermissionScope.StarCovers` | crates/n00n-agent/src/permissions.rs:603-630 | a pattern with a bare star at its end matches by prefix |
| `PermissionScope.ExactCovers` | crates/n00n-agent/src/permissions.rs:603-630 | a pattern without a star at its end matches only itself |
| `PermissionScope.AllCovered` | crates/n00n-agent/src/permissions.rs:603-630 | the star patterns match everything |
| `PermissionScope.FirstTokenIs` | crates/n00n-agent/src/permissions.rs:663-669 | the first token is the first run of characters between white space |
| `PermissionScope.GeneralizeGrants` | crates/n00n-agent/src/permissions.rs:688-709 | exactly what allowing one scope grants: for the shell the command alone or with arguments, for a file write the file's directory, for a server's tool everything, for any other tool that scope alone |
| `PermissionScope.BareFileGrantsAll` | crates/n00n-agent/src/permissions.rs:693-701 | a file without a directory to name grants every path |
| `PermissionScope.BashSticksIff` | crates/n00n-agent/src/permissions.rs:663-669 | the generalised shell segment covers the segment exactly if it has no token, or starts with one followed by its end or a space |
| `PermissionScope.FileSticksIff` | crates/n00n-agent/src/permissions.rs:693-701 | the generalised directory covers the path exactly unless its last component climbs out of that directory |
| `PermissionScope.ParentNames` | crates/n00n-agent/src/permissions.rs:693-701 | the parent's components are all but the last |
| `PermissionScope.ParentOfPlain` | crates/n00n-agent/src/permissions.rs:693-701 | the parent of a plain rooted path is the path without its last name |
| `PermissionScope.ParentFromDot` | crates/n00n-agent/src/permissions.rs:693-701 | a path that starts with a dot keeps it in its parent; the root and the empty path have none |
| `PermissionScope.ParentOfRelative` | crates/n00n-agent/src/permissions.rs:693-701 | the parent of a plain relative path that has a directory |
| `PermissionScope.GeneralizeSticksIff` | crates/n00n-agent/src/permissions.rs:688-709 | for every tool, when the generalised scope matches the scope it came from |
| `PermissionScope.ParentOfParent` | crates/n00n-agent/src/permissions.rs:693-701 | a path ending in `..` is not covered by its own generalisation |
| `PermissionScope.TabDoesNotStick` | crates/n00n-agent/src/permissions.rs:663-669 | a command followed by a tab is not covered by its own generalisation |
| `Permissions.FindExact` | crates/n00n-agent/src/permissions.rs:536-541 | whatever order the map yields, the canonical name's own entry |
| `Permissions.FindAlias` | crates/n00n-agent/src/permissions.rs:542-553 | whatever order the map yields, the entry of the smallest alias |
| `Permissions.ResolveToolDefault` | crates/n00n-agent/src/permissions.rs:523-562 | the default effect is a function of the map alone |
| `Permissions.AnswerRoundTrip` | crates/n00n-agent/src/permissions.rs:124-158 | decoding an encoded answer gives it back, except that empty guidance becomes a plain denial |
| `Permissions.GeneralizedScopes` | crates/n00n-agent/src/permissions.rs:671-679 | one pattern per scope, each once |
| `Permissions.PermissionManager.CheckScope` | crates/n00n-agent/src/permissions.rs:261-282 | for one scope: whether any rule denies, else whether any allows |
| `Permissions.PermissionManager.CheckInner` | crates/n00n-agent/src/permissions.rs:241-334 | the result is a function of the set of rules, the yolo switch and the default: any matching deny wins, order and duplicates do not matter |
| `Permissions.PermissionManager.AddSessionRule` | crates/n00n-agent/src/permissions.rs:350-358 | a rule already present is not added again |
| `Permissions.PermissionManager.ApplyDecision` | crates/n00n-agent/src/permissions.rs:395-445 | adds exactly the rules the answer grants, generalised for allows and for MCP tools |
| `Permissions.PermissionManager.Enforce` | crates/n00n-agent/src/permissions.rs:447-520 | the check, wait, re-check, prompt and apply cycle, with other callers' rules arriving during the wait and between the re-check and the answer |
| `Permissions.RecheckIff` | crates/n00n-agent/src/permissions.rs:466-492 | re-checking only the pending scopes answers as re-checking all would, if and only if no new rule denies one of the other scopes while none denies a pending one |
| `Permissions.RecheckAfterAllows` | crates/n00n-agent/src/permissions.rs:466-492 | if only allow rules were added, nothing is missed |
| `Permissions.RecheckCanMiss` | crates/n00n-agent/src/permissions.rs:466-492 | while a shell call waits to ask about one segment, a lasting denial of another, already allowed segment is missed |
| `Permissions.EnforceSound` | crates/n00n-agent/src/permissions.rs:447-520 | a call goes through only if nothing denied it when first checked and no rule denies a pending scope, and only by rule, default or an allow answer to exactly the scopes still unclaimed |
| `Permissions.DenyMonotone` | crates/n00n-agent/src/permissions.rs:251-282 | a denial is never undone by further rules, yolo, defaults or plan files |
| `Permissions.DenySticks` | crates/n00n-agent/src/permissions.rs:395-445 | after a lasting denial the same call is denied, also with yolo on or a forced prompt |
| `Permissions.AllowedAfter` | crates/n00n-agent/src/permissions.rs:241-334 | after a lasting allow, and whatever other rules have arrived, when the same unforced call is allowed |
| `Permissions.AllowSticksIff` | crates/n00n-agent/src/permissions.rs:395-445 | after a lasting allow of an unforced prompt the same call is allowed if and only if every scope asked about is matched by the generalised pattern of one of them, or is the plan file of a file-write tool |
| `Permissions.EnforcedAllowSticks` | crates/n00n-agent/src/permissions.rs:447-520 | enforce and the next check of the same call: it is allowed if and only if nothing denies a scope and each scope asked about is covered, allowed by a rule that arrived meanwhile, or the plan file |
| `Permissions.TabAsksAgain` | crates/n00n-agent/src/permissions.rs:663-669 | a shell segment with a tab after the command is asked about, allowed for good, and asked about again |
| `Permissions.OtherToolsRule` | crates/n00n-agent/src/permissions.rs:241-334 | a rule about another tool changes no answer; a rule for the tool without a scope denies or allows it |
| `Permissions.AliasesDecideAlike` | crates/n00n-agent/src/permissions.rs:241-334 | a tool's names get the same answer, in the call and in the rules |
| `Permissions.ReadRuleStillAsks` | crates/n00n-agent/src/permissions.rs:241-334 | with one rule that allows `read_file`, `write_file` on `/etc/hosts` is asked about |
| `Permissions.DecidedBy` | crates/n00n-agent/src/permissions.rs:288-334 | what a call no rule denies gets: with yolo, with every scope allowed, with a forced prompt, and under each default |
| `Permissions.ExpandedPlain` | crates/n00n-agent/src/permissions.rs:638-643 | plain paths from the root, from the home directory and from the working directory stand for their names |
| `Permissions.ExpandedHome` | crates/n00n-agent/src/permissions.rs:638-643 | `~/` is the home directory, and an absolute path behind it is itself |
| `Permissions.PlanFileOnly` | crates/n00n-agent/src/permissions.rs:303-318 | with a plan file named, writing exactly that file is allowed unasked, and only by a tool that writes files |
| `Permissions.LexIff` | crates/n00n-agent/src/permissions.rs:542-553 | the order by which aliases are compared |
| `Permissions.DefaultOrder` | crates/n00n-agent/src/permissions.rs:523-562 | the order in which defaults are looked up |
| `Permissions.SmallerAliasCounts` | crates/n00n-agent/src/permissions.rs:542-553 | of two configured aliases of one tool the smaller counts |
| `Permissions.DecodeInverse` | crates/n00n-agent/src/permissions.rs:139-158 | a response is understood exactly if it is the text of some answer, and then as an answer with that text |
| `Permissions.WireAnswers` | crates/n00n-agent/src/permissions.rs:493-520 | by the response's own text: which ones let the call through, and which ones add rules, allowing or denying |
| `Permissions.WireGuidance` | crates/n00n-agent/src/permissions.rs:493-520 | only a denial with guidance hands a text back |
| `Permissions.RecordedPattern` | crates/n00n-agent/src/permissions.rs:395-445 | an allow and a server tool's denial record the generalised pattern, a native tool's denial the scope itself |
| `Checkpoints.InsertPruning` | crates/n00n-storage/src/sessions.rs:1104-1147 | inserting with pruning computes what its recursive definition says, or the error |
| `Checkpoints.PruneValid` | crates/n00n-storage/src/sessions.rs:1290-1326 | what is kept is within both limits, applicable and strictly increasing in revision |
| `Checkpoints.NewestSurvives` | crates/n00n-storage/src/sessions.rs:1112-1144 | a checkpoint whose revision the transcript refers to is never evicted by its own insertion |
| `Checkpoints.ProtectedLast` | crates/n00n-storage/src/sessions.rs:1112-1144 | a protected checkpoint is evicted only when no unprotected one is left, and nothing is invented |
| `Checkpoints.NothingNeedless` | crates/n00n-storage/src/sessions.rs:1112-1144 | within the limits nothing is evicted |
| `Checkpoints.InsertedIsFound` | crates/n00n-storage/src/sessions.rs:1188-1218 | a protected checkpoint can be read back right after its insertion |
| `Checkpoints.NewestCanGo` | crates/n00n-storage/src/sessions.rs:1112-1144 | an unprotected newcomer can itself be evicted |
| `Checkpoints.PruneEvicts` | crates/n00n-storage/src/sessions.rs:1112-1144 | pruning leaves the list after the fewest evictions that bring it within the limits: unprotected checkpoints oldest first, then the others oldest first |
| `Checkpoints.PruneSucceeds` | crates/n00n-storage/src/sessions.rs:1104-1144 | pruning succeeds on any increasing list of applicable checkpoints of which none alone is too large |
| `Checkpoints.ValidIff` | crates/n00n-storage/src/sessions.rs:1290-1326 | a list is accepted exactly if it holds at most 64 applicable checkpoints of at most 4 MiB together, strictly increasing |
| `Checkpoints.SnapshotAtIs` | crates/n00n-storage/src/sessions.rs:1188-1218 | reading by revision gives that checkpoint; a missing revision is in the future exactly if it is above the last |
| `Checkpoints.NoSnapshotAt` | crates/n00n-storage/src/sessions.rs:1188-1218 | an empty list has none to read, and foreign or malformed metadata is refused |
| `Checkpoints.CandidateCases` | crates/n00n-storage/src/sessions.rs:1104-1186 | every outcome of inserting: foreign, inapplicable, unreadable, already there, conflicting, regressing, appended |
| `SessionRevision.SessionStore.constructor` | crates/n00n-agent/src/headless.rs:215-280 | opening loads the file or a new session and starts at the revision it hydrates; a new session is captured and saved at once |
| `SessionRevision.SessionStore.CapturePluginState` | crates/n00n-agent/src/headless.rs:281-302 | the revision captured, or no change |
| `SessionRevision.SessionStore.RecordTurnStarted` | crates/n00n-agent/src/headless.rs:351-359 | metadata, capture and save; a failed save leaves the file as it was |
| `SessionRevision.SessionStore.CheckpointCompaction` | crates/n00n-agent/src/headless.rs:361-403 | on any failure neither the store nor the file changes |
| `SessionRevision.SessionStore.RecordTurn` | crates/n00n-agent/src/headless.rs:404-425 | the store keeps the turn even when saving fails |
| `SessionRevision.HydratesLarger` | crates/n00n-agent/src/headless.rs:124-153 | a reopened session starts at the larger of the latest and the outer compaction revision whenever that checkpoint can be read, else at the latest |
| `SessionRevision.HydratesStored` | crates/n00n-agent/src/headless.rs:124-153 | the snapshot hydrated is one of those stored |
| `SessionRevision.CaptureExceeds` | crates/n00n-agent/src/headless.rs:281-302 | each capture's revision exceeds the store's and the persisted one, until u64 is exhausted, and is never below the session's own |
| `SessionRevision.CompactedKeeps` | crates/n00n-agent/src/headless.rs:361-403 | a compaction never lowers the latest snapshot's revision nor raises it beyond its own |
| `SessionRevision.StepKeepsInv` | crates/n00n-agent/src/headless.rs:178-425 | every open, close, turn, checkpoint and failed save keeps the store ahead of its file |
| `SessionRevision.DiskNeverRegresses` | crates/n00n-agent/src/headless.rs:178-425 | over any run of opens, turns, checkpoints, failed saves and reopens the revision on disk never decreases |
| `SessionRevision.CapturesIncrease` | crates/n00n-agent/src/headless.rs:281-302 | a turn records a revision exactly when its capture succeeds, saved or not, and it exceeds every revision its store recorded before |
| `SessionRevision.CheckpointSurvivesReopen` | crates/n00n-agent/src/headless.rs:361-403 | after a successful compaction a reopen starts at its revision or later, exactly unless the checkpoint metadata was unusable and the latest snapshot is older |
| `SessionRevision.CaptureStores` | crates/n00n-agent/src/headless.rs:281-302 | a capture stores the plugins' own state under the least fresh revision and changes nothing else |
| `SessionRevision.TurnCounts` | crates/n00n-agent/src/headless.rs:155-175 | a turn counts one metadata revision on, saturating, and changes nothing else |
| `SessionRevision.ReferencedIff` | crates/n00n-storage/src/sessions.rs:3612-3640 | the protected revisions are those a compaction of the transcript names, at any depth |
| `SessionRevision.MentionedGoLast` | crates/n00n-agent/src/headless.rs:361-403 | a checkpoint the transcript still mentions is evicted only if all that are kept are mentioned too |
| `SessionRevision.CompactionStores` | crates/n00n-agent/src/headless.rs:361-403 | what a compaction checkpoints: the plugins' state now, else the latest snapshot's, else nothing; a checkpoint already there is left alone |
| `SessionRevision.QuarantineKeeps` | crates/n00n-agent/src/headless.rs:361-403 | a file with foreign metadata keeps its checkpoints and snapshot and takes the transcript |
| `SessionRevision.CompactionRefused` | crates/n00n-agent/src/headless.rs:361-403 | when a compaction gives up, and with which error |
| `SessionRevision.UnusableCheckpointStops` | crates/n00n-agent/src/headless.rs:311-403 | a checkpoint at the boundary that cannot be applied stops the compaction |
| `SessionRevision.CompactionProceeds` | crates/n00n-agent/src/headless.rs:311-403 | otherwise a new boundary gets the state there is, and the compaction stands or falls with its insertion |
| `SessionRevision.TurnSaved` | crates/n00n-agent/src/headless.rs:351-425 | a turn moves the store on, and the file follows exactly if the save succeeds |
| `SessionRevision.CheckpointSaved` | crates/n00n-agent/src/headless.rs:361-403 | a checkpoint changes store and file together, or neither |
| `SessionRevision.OpenReads` | crates/n00n-agent/src/headless.rs:215-280 | opening a file reads it back; opening none starts a session at metadata revision 1 and saves it |
| `SessionRevision.HydratedIs` | crates/n00n-agent/src/headless.rs:124-153 | which snapshot a reopened session starts from |
| `SessionRevision.HydrationFails` | crates/n00n-agent/src/headless.rs:124-153 | selecting a snapshot fails only on unusable metadata, and only if a newer one is asked for |
| `SessionRevision.RunSteps` | crates/n00n-agent/src/headless.rs:178-425 | runs go step by step from an empty disk, with one live store at a time |
| `SessionRevision.DiskRevisionIs` | crates/n00n-agent/src/headless.rs:92-100 | what counts as the revision on disk |
| `RunEvents.Collect` | src/cmd/agent.rs:965-1015 | a connection forwards exactly its own run's events up to the terminal one, then a closing message with all the text, the usage and the error |
| `RunEvents.ClosingTells` | src/cmd/agent.rs:965-1015 | the closing message carries the usage of `Done`, the message of `Error`, and else neither, with the text up to there |
| `RunEvents.EventTells` | src/cmd/agent.rs:965-1015 | what each event adds to the messages and to the text |
| `RunEvents.OthersLeaveNoTrace` | src/cmd/agent.rs:965-1015 | events of other runs leave no trace |
| `RunIds.StepAgrees` | src/cmd/agent.rs:862-892 | every step of daemon, connections and agent loop keeps the two counters in step |
| `RunIds.IdsAgree` | crates/n00n-agent/src/headless.rs:809-979 | the k-th accepted input runs under id k on both sides in every interleaving |
| `RunIds.ReportsOwnRun` | src/cmd/agent.rs:1064-1119 | what a connection reports is its own run from its first event to its terminal one, and no run is reported twice, whenever the session store opened |
| `RunIds.DrainDiscards` | src/cmd/agent.rs:1082-1083 | the drain before a send discards only earlier runs' events, exactly unless the store failed to open and nothing was accepted yet |
| `RunIds.FailedOpenIsSwallowed` | crates/n00n-agent/src/headless.rs:787-795 | in that case the only error message can be discarded and the first run reports nothing |
| `RunIds.RunIsReported` | crates/n00n-agent/src/headless.rs:809-979 | a message an idle loop takes up runs under the id it was counted with, its connection reports all its events, and both sides are ready for the next |
| `RunIds.LockDrainCount` | src/cmd/agent.rs:1064-1119 | a connection that gets the lock discards what is left in the channel and counts its run |
| `RunIds.FirstRun` | src/cmd/agent.rs:862-892 | the first run is sent as run 0 and the daemon goes on with id 1 |
| `RunIds.StoppedAndLate` | crates/n00n-agent/src/headless.rs:809-979 | a send to a stopped loop is lost with its connection; a late event keeps its own run's id |
| `RunIds.NotEnabled` | crates/n00n-agent/src/headless.rs:787-979 | which steps cannot happen: stopping before the store has opened or failed, a second initial run, a second holder of the lock |
| `SqlText.ThreePassesAreOne` | crates/n00n-codegraph/src/db.rs:26-31 | the three replacements equal one escape per character |
| `SqlText.LikeIsContains` | crates/n00n-codegraph/src/db.rs:26-32 | the pattern matches exactly the strings that contain the input, up to ASCII case |
| `SqlText.QueryNamesTerms` | crates/n00n-codegraph/src/db.rs:473-482 | a reader of quoted strings joined by OR recovers exactly the whitespace-separated terms |
| `SqlText.WordsKeepText` | crates/n00n-codegraph/src/db.rs:473-476 | the terms are the non-blank text in order |
| `SqlText.WordsAreSolid` | crates/n00n-codegraph/src/db.rs:473-476 | no term is empty or holds a blank |
| `SqlText.WordsBreak` | crates/n00n-codegraph/src/db.rs:473-476 | white space ends a term and nothing else does |
| `SqlText.PatternReads` | crates/n00n-codegraph/src/db.rs:26-32 | how the reader of patterns takes each character |
| `SqlText.SameIs` | crates/n00n-codegraph/src/db.rs:26-32 | the reader ignores the case of the letters A to Z and of no other character |
| `Fence.FenceIsLonger` | crates/n00n-acp/src/translate.rs:15-22 | the fence is longer than every run of backticks in the text |
| `Fence.FenceIsShortest` | crates/n00n-acp/src/translate.rs:15-22 | the fence is three backticks, or one more than some run in the text |
| `Fence.FencedRoundTrip` | crates/n00n-acp/src/translate.rs:15-23 | read as a fenced code block, the fenced text closes only at the final fence and gives the text back with a final newline |

## Left out

- PromptAssembly.AssembleAgreesWithScan: texts in which a substitution makes a new marker are outside it; there the two forms work on different markers.
- AcpSession.CanAlwaysEnd: one schedule; what holds in every schedule is `AcpSession.RetirementBounded`.
- PromptAssembly.NeatMakesNoMarker: a sufficient condition on the inputs only; contents with a lone opening brace at the end may also be harmless.
- AcpSession.ExactlyOnce: poisoned locks and output that fails to serialise are not modelled.
- Permissions.PermissionManager.ApplyDecision: the copy of the rule written to the configuration file is not modelled.
- PermissionScope.FileSticksIff: paths are resolved lexically; symbolic links and Windows prefixes are not modelled.
- Permissions.PermissionManager.CheckInner: builtin rules are any list; the working-directory rules the program installs are not spelled out.
- SessionRevision.DiskNeverRegresses: one live store per session file; captures return the revision they were asked for; a save replaces the file whole or fails.
- RunIds.IdsAgree: run ids are unbounded; the program's wrap at two to the 64th.
- RunIds.ReportsOwnRun: whether a run ever ends is the agent's business; a run without a terminal event is reported when the channel closes. The initial run's waiting loop is treated as a report nobody reads.
- StreamSynth.StreamRoundTrip: usage fields other than output tokens are not carried.
- Fence.FencedRoundTrip: block quotes and list items around the fence are not modelled.
- SqlText.LikeIsContains: NUL characters and non-ASCII case folding are not modelled.
- CancelTree.FiredWaiterReturns: fairness of the scheduler is expressed as the number of steps granted.
- Rendering of individual slots (defaults, singletons, the efficient-tools line): only easy members beside the assemblers.
- Input errors while reading stdin, oversized and malformed frames' error replies, and the requests that set mode or configuration: one branch each.
- History replay and the mapping of tool events in `translate.rs`, diffing and tokenising: thin layers over libraries.
- The command line, model selection, login, update, sockets, processes, signals, file permissions and the terminal interface: input and output.
- SQL joins and snippet reading in `db.rs`: they belong to the database engine and the file system.
