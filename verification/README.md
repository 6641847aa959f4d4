# gogent: a verified model of its core

gogent is a coding agent: a loop that talks to a language model, runs the tools it calls, and
edits files. This project models the parts of it that hold hard logic and no input or output,
and proves what they promise:

- **The turn loop** (`Transcript`, `Compaction`, `TurnLoop`, `TurnLaws`). The language model is any
  script of replies and failures. A transcript is *balanced* when every assistant message that calls
  tools is followed at once by exactly one result per call, and results stand nowhere else. Every
  request goes out on a balanced transcript, compaction and all; the number of requests is bounded
  by the step cap and by the tool rounds; every reply is treated as one decision function says,
  whose counts are read off the log of earlier turns instead of kept in counters. `TurnLaws` says,
  of the replies as they came, which end the loop and with which text, and what the others add to
  the conversation.
- **Diff, patch and text edits** (`Lines`, `LineDiff`, `DiffHunks`, `PatchFormat`, `PatchGrammar`,
  `PatchApply`, `Utf8`, `TextEdits`). The differ is optimal, its hunks rebuild either file, the patch
  parser inverts a printer and accepts exactly the envelopes of a grammar over marked lines, the
  greedy hunk search is complete, and disjoint text edits are spliced as if at once.
- **Undo and multi-file edits** (`Checkpoint`, `MultiFileEdit`). Checkpoints refine a machine
  that remembers whole disks, file by file even where restoring fails for some; a patch is planned
  as a whole before it is written, and a failed language-server edit is rolled back as far as its
  files can be put back.
- **Concurrency** (`Limiter`, `AgentEvents`). Nested fan-outs over a shared limiter, and agents
  reporting through a bounded channel with a spill list, as transition systems under every
  schedule.
- **Bounded resources** (`Paging`, `RateLimiter`, `SessionRegistry`, `Commands`).

Code that changes state step by step is a method or a class here, proved against a
specification; what the code promises is then proved about that specification, over its inputs and
with the source's own numbers. What comes from outside (tool results, notes of the user, background
results, summaries, clocks, map order, which files can be written, when a turn is cancelled) is a
parameter or an arbitrary value.

## Where the code falls short of its own words

Each of these is a statement of when the code meets its promise, and a concrete case in which it
does not.

- **Ids in text calls.** A tool call found in plain text may carry a `call_id`. Its result is then
  a tool message that answers no native call. Results of such calls keep the transcript balanced
  exactly when none carries an id (`TurnLoop.IdsInTextUnbalance`; `TurnLoop.IdInTextUnbalances` is a
  case). Native ids must be present and distinct (`TurnLoop.NativeIdsAreNeeded`). The loop's
  theorem holds for every reply, and claims balance as long as the ids have been good.
- **Truncated text at the step cap.** The loop must never accept a truncated turn as a final
  answer, its comments say. A truncated reply without calls is taken for an answer exactly at the
  step cap (`TurnLoop.TruncatedTextAtCap`; `TurnLoop.TruncatedTextIsShown`).
- **Text before a re-issued call.** An empty answer falls back on the latest visible text, unless that
  stood next to a cut-off call that was asked for again (`TurnLoop.FallbackIsLatestText`;
  `TurnLoop.TextBeforeReissueIsLost`).
- **Diff above the size cutoff.** Texts that differ only in a final newline have no diff exactly when
  they are within the cutoff (`DiffHunks.Unified`; `DiffHunks.FinalNewlineAboveCutoff`).
- **Line 0 and column 0.** Two positions have their offsets in order in every text exactly when they
  are in order after lines and columns below 1 are read as 1 (`TextEdits.OffsetsInOrderExactly`;
  `TextEdits.LineZeroIsLineOne`).
- **Rolling back a failed edit.** A language-server edit that fails is rolled back, but restoring may
  fail as well, and then nobody is told. Every file it named is as before exactly when each was put
  back or never changed, which can be relied on exactly when each can be put back
  (`MultiFileEdit.FailedEditChangesNothing`, `MultiFileEdit.RollbackIsGuaranteed`;
  `MultiFileEdit.TornFileStaysTorn`).
- **An edit that names no file** and still fails is "rolled back" by undoing the edit before it
  (`MultiFileEdit.FailedEditChangesNothing`; `MultiFileEdit.NamelessEditUndoesTheOneBefore`). A file at
  the empty path is never snapshotted.
- **Waiting for a spilled event.** A call that waits on the channel is not woken by an event spilled
  later. The workers launched so far can wake it exactly when the channel holds an event or one of
  them may still send one (`AgentEvents.WakesExactlyIf`; `AgentEvents.SpilledEventWaitedForInVain`).
- **The wait of a refused caller** is rounded down to whole nanoseconds, so coming back after exactly
  that long succeeds exactly when nothing was rounded off (`RateLimiter.ComingBack`;
  `RateLimiter.WaitIsTooShort`).
- **Descriptions are not versioned.** A snapshot of a command lacks its description, so restoring a
  version brings the whole command back exactly when the description has stayed or returned to what
  it was (`Commands.PresentCanBeRestored`; `Commands.DescriptionIsNotRestored`).

## Model

| member | source | states |
|---|---|---|
| Transcript.BalancedAnswersEveryCall | internal/agent/user_session.go:2351-2360 | in a balanced transcript every assistant turn with calls is followed at once by exactly one result per call, and what comes after is balanced again |
| Transcript.TurnSettles | internal/agent/user_session.go:2577-2590 | an assistant turn and one result per call, in order, keep a balanced transcript balanced |
| Transcript.CutIsBalanced | internal/compression/compression.go:62-66 | cutting a balanced transcript before a message that is no result leaves two balanced parts |
| Transcript.BalancedExactlyIf | internal/agent/user_session.go:2351-2360 | a transcript is balanced exactly when it is a series of messages, each followed at once by one result for each call it makes under present and distinct ids, in any order, and nothing else |
| Compaction.SafeSplit | internal/compression/compression.go:67-98 | the recent part starts at a user message and holds the last keepRecentTurns user turns, or all there are; without user messages nothing is old |
| Compaction.RecentStart | internal/compression/compression.go:75-87 | the walk back stops where exactly the asked number of user turns begins |
| Compaction.ClampToUserBoundary | internal/compression/compression.go:102-110 | the nearest user message at or before the index, or the start when there is none |
| Compaction.ModelSession.FoldLastAssistantContent | internal/model/model_session.go:171-184 | overwrites the text of the last assistant message and nothing else, and does nothing without one |
| Compaction.ModelSession.NeedsCompression | internal/model/model_session.go:360-378 | due exactly from 80% of the window on, and after a compaction only once the size has been down to half of it |
| Compaction.ModelSession.ApplyCompressedTranscript | internal/model/model_session.go:398-421 | replaces the transcript, re-estimates its size and suppresses the next compaction |
| Compaction.DigestKeepsBalance | internal/agent/user_session.go:1794-1811 | a digest in place of what precedes a non-result message keeps a transcript balanced |
| Compaction.CompactIfNeeded | internal/agent/user_session.go:1794-1811 | exactly when it is due, there is an older part and it can be summarized, the session becomes one digest and the last three user turns word for word, with its size estimated anew; balanced stays balanced |
| Compaction.CompactsExactly | internal/agent/user_session.go:1794-1811 | from 80% of the window on, and after a compaction only once down to half of it, a digest replaces all before the third last user message, and the size is estimated anew; else nothing changes |
| Compaction.SizeOfMessage | internal/model/model_session.go:382-391 | a message counts a quarter of the bytes of its text and of the arguments of each call |
| Compaction.FewerTurnsAreKept | internal/agent/user_session.go:1955-1985 | the first round keeps three user turns, the second two, every later one the last |
| Compaction.FirstChunk | internal/agent/user_session.go:2034-2060 | splits off what fits the budget, one message more when that is digests only, and the results that follow; a lone digest is never a chunk unless it is all there is |
| Compaction.FitCount | internal/agent/user_session.go:2038-2047 | the longest prefix within the token budget, at least one message |
| Compaction.FoldAgain | internal/agent/user_session.go:1955-1985 | folding any front of an already folded transcript again leaves one digest and a proper suffix of the original with everything from its last user message on |
| Compaction.FoldOldest | internal/agent/user_session.go:1964-1976 | one round keeps the transcript folded and balanced, and changes nothing when no summary comes |
| Compaction.FoldRound | internal/agent/user_session.go:1955-1985 | one round: with nothing older fewer turns are kept next, down to one; else the oldest chunk becomes a digest, unless it cannot be summarized |
| Compaction.FoldUntilFits | internal/agent/user_session.go:1940-1990 | rounds follow each other until cancelled, fitting, used up or out of anything to fold, and none is needless |
| Compaction.MigrateToContextWindow | internal/agent/user_session.go:1910-2002 | after any number of rounds the original or one digest and a proper suffix with everything from the last user message on; balanced stays balanced; at most 8 summaries; nothing to do exactly for a window that is no smaller or is big enough; success inside or after the rounds means the size fits, and failure that the rounds are exhausted |
| TurnLoop.CollectToolCalls | internal/agent/user_session.go:2229-2312 | the loop over native calls, salvaging truncated finals, and over JSON objects up to the first final answer, computes Collect |
| TurnLoop.CollectedIds | internal/agent/user_session.go:2234-2286 | the calls to run carry the ids of the reply's native calls, one for one and in order; calls from text carry none |
| TurnLoop.RunToolCallsConcurrent | internal/agent/user_session.go:2125-2141 | whatever order the calls finish in, the results are those of the tools, one per call, in call order |
| TurnLoop.RunToolCallsSerial | internal/agent/user_session.go:2186-2208 | the results of the tools for exactly the calls before the first terminal one, which alone ends the loop and gives its text (said over the reply in TurnLaws.FinalCallIsShown) |
| TurnLoop.FoldTerminalFinal | internal/agent/user_session.go:2405-2421 | at the step cap the answer is the one the serial runner would have folded (said over the reply in TurnLaws.FinalCallIsShown) |
| TurnLoop.LeftAfterReply | internal/agent/user_session.go:1483-1495 | leaving right after a reply keeps the transcript balanced exactly when the reply calls no tool |
| TurnLoop.ResultsSettle | internal/agent/user_session.go:1675-1706 | the results of a reply's calls keep the transcript balanced, native calls or calls from text |
| TurnLoop.NativeIdsAreNeeded | internal/agent/user_session.go:2577-2590 | the results of native calls keep it balanced exactly when the ids are present and distinct |
| TurnLoop.IdsInTextUnbalance | internal/tool/tool.go:499-503 | the results of calls found in text keep a transcript balanced exactly when no such call carries an id |
| TurnLoop.IdInTextUnbalances | internal/tool/tool.go:499-503 | one call from text with an id, and its result unbalances a balanced transcript |
| TurnLoop.BalanceToolCalls | internal/agent/user_session.go:2374-2396 | appends the results there are and one note for each call with an id that has none yet, once per id |
| TurnLoop.UnansweredRest | internal/agent/user_session.go:2378-2391 | with good ids the notes go to exactly the calls after those that ran |
| TurnLoop.FirstAreAnswered | internal/agent/user_session.go:2378-2391 | after results for the first calls, exactly the others are still unanswered |
| TurnLoop.SettledIs | internal/agent/user_session.go:2374-2396 | with good ids a turn is settled by the results there are and a note for each call that did not run |
| TurnLoop.NotesSettle | internal/agent/user_session.go:2351-2363 | results for the first calls and notes for the others balance the turn |
| TurnLoop.RaiseBudget | internal/agent/user_session.go:1146-1171 | the next budget is larger, within the ceiling, and missing exactly when the ceiling is reached |
| TurnLoop.RaisesDouble | internal/agent/user_session.go:430-434 | after k raises in a stretch the budget is 2^k times the configured one, or 4096 without one, cut off at the ceiling |
| TurnLoop.TurnsAreBounded | internal/agent/user_session.go:1440-1463 | between tool rounds there is at most one nudge and three truncation retries, so turns number at most 5(T+1) for T tool rounds |
| TurnLoop.RoundTripsAreBounded | internal/agent/user_session.go:1464-1480 | at most N+1 requests under a step cap N, and at most 5(T+1) in any case |
| TurnLoop.LastTextIs | internal/agent/user_session.go:1404-1409 | the text kept is that of the latest visible turn, or the one kept before it where that turn was to issue its calls again |
| TurnLoop.FallbackIsLatestText | internal/agent/user_session.go:1404-1409 | an answer without visible text falls back on the latest visible text exactly when there is none, or its turn was not one to issue calls again, or the text kept before it reads the same |
| TurnLoop.TextBeforeReissueIsLost | internal/agent/user_session.go:1530-1541 | a text next to a cut-off call and then an empty answer: the text is not shown |
| TurnLoop.Advance | internal/agent/user_session.go:1423-1437 | a round trip compacts if that is due, sends the transcript and the messages given, on a balanced transcript, and appends the reply and takes over its size; or it fails and leaves what was sent, or what there was |
| TurnLoop.Act | internal/agent/user_session.go:1497-1739 | one reply is treated as Decide says: the transcript gains exactly what the turn adds and is balanced before the loop goes on, or is closed as the exit demands |
| TurnLoop.ActOnText | internal/agent/user_session.go:1545-1654 | a reply without calls is continued, retried with a larger budget, nudged, given up or accepted as Decide says, with the note that belongs to it |
| TurnLoop.ActOnCalls | internal/agent/user_session.go:1655-1738 | a reply with calls runs them and goes on with their results, or folds a terminal one and stops, every call answered |
| TurnLoop.StopForTruncation | internal/agent/user_session.go:1608-1618 | the notice becomes the text of the persisted last message, nothing else changes, and the transcript is balanced |
| TurnLoop.FinishAtCap | internal/agent/user_session.go:1741-1769 | at the step cap a final answer, interrupted calls and plain text are told apart, and every call gets the note that fits |
| TurnLoop.RunLoop | internal/agent/user_session.go:1266-1784 | for every transcript, every script of replies, and every course of tools, notes and background results: turns, exit and text are those of the protocol; each request is the last one, the reply, what the turn adds, all that compacted where it is due, and the note or results it brings, under the output budget of the raise it follows; the last reply is closed as the exit demands. From a balanced transcript, as long as ids are present and distinct on native calls and absent on calls from text, every request is made on a balanced transcript and it is balanced on every exit but the budget and cancellation ones, and on those exactly when the last reply calls no tool |
| TurnLoop.TruncatedTextAtCap | internal/agent/user_session.go:1555-1578 | a truncated reply without calls is taken for an answer exactly when it lands on the step cap |
| TurnLoop.TruncatedTextIsShown | internal/agent/user_session.go:1741-1769 | a nudged preamble and then a truncated text with one step to take: the truncated text is the answer |
| TurnLoop.RequestsAreBalanced | internal/agent/user_session.go:1423-1437 | in such a conversation every request is made on a balanced transcript as long as the ids before it are good |
| TurnLaws.NativeCalls | internal/agent/user_session.go:2234-2286 | what is run are the native calls with their names, ids and arguments, a rescued answer being final; a lone rescued answer is taken at once |
| TurnLaws.FinalCallEnds | internal/agent/user_session.go:2186-2200 | a reply with a final structured_output call ends the loop, by folding it or, when it is the only call and was rescued, as an answer; only a batch of read-only tools goes on |
| TurnLaws.FinalCallIsShown | internal/agent/user_session.go:2193-2196 | the text shown is the response in the first final call, rescued where it was cut off; when that is empty the text next to the calls, and then the last text seen |
| TurnLaws.RunShowsFinalCall | internal/agent/user_session.go:2405-2421 | the same of what a whole run of the loop returns, at the step cap and elsewhere |
| TurnLaws.FinalObjectIsShown | internal/agent/user_session.go:2296-2305 | a JSON object that says it is the final answer is accepted, and its response is the text |
| TurnLaws.FinalTextCallIsShown | internal/agent/user_session.go:2306-2309 | a final call found in text is folded like a native one |
| TurnLaws.PlainTextIsShown | internal/agent/user_session.go:1771-1782 | a reply without calls or final objects is shown as its own text, or as the last text seen when it is blank |
| TurnLaws.LastSeenIs | internal/agent/user_session.go:1404-1409 | the last text seen is that of the latest turn that had any, leaving out turns that were to issue their calls again |
| TurnLaws.CallsAreRun | internal/agent/user_session.go:1526-1543 | native calls without a final one are run, or, when one was cut off by the token budget and the stretch had no nudge yet, all asked for again |
| TurnLaws.TextCallsAreRun | internal/agent/user_session.go:2306-2311 | calls found in text are run |
| TurnLaws.TextCallsConcat | internal/agent/user_session.go:2296-2311 | the calls of a text are its objects that name a tool, in order |
| TurnLaws.TruncatedTextIsRetried | internal/agent/user_session.go:1576-1618 | a text cut off by the token budget is continued three times in a stretch, or, when nothing came of it, asked for again with twice the budget up to the ceiling, and then given up |
| TurnLaws.CompleteTextIsAccepted | internal/agent/user_session.go:1620-1654 | a complete text is the answer, but for a preamble in a stretch without a nudge |
| TurnLaws.EndsEarlyExactlyIf | internal/agent/user_session.go:1476-1495 | the step cap comes first, then cancellation, then the token budget, and nothing else stops the loop short |
| TurnLaws.NoticesAreShown | internal/agent/user_session.go:1109-1215 | a loop that gives up, runs out of budget or is interrupted at the cap shows its notice and below it the visible part of the reply |
| TurnLaws.ResultsAreAdded | internal/agent/user_session.go:1703-1706 | after a tool round come the results of the tools, one per call and in order, under the id of the call or as text |
| TurnLaws.TextResultsAreAdded | internal/agent/user_session.go:2577-2590 | and so for calls found in text |
| TurnLaws.ReissueIsAdded | internal/agent/user_session.go:1530-1541 | each call of a cut-off reply is answered by the request to issue it again |
| TurnLaws.NotesAreBrought | internal/agent/user_session.go:1707-1735 | with the next request goes the note of the nudge or retry; after a tool round, at the root only, the clarification of the user, if taken up, and then the background results |
| TurnLaws.MessageIsBrought | internal/agent/user_session.go:1374-1380 | the first request brings the message of the user and, at the root, the background results |
| TurnLaws.EachRequestContinues | internal/agent/user_session.go:1423-1437 | each request is the last one, the reply to it, what the turn added, all that compacted where it is due, and what the turn brought |
| TurnLaws.BudgetIsAskedFor | internal/agent/user_session.go:1596-1603 | a request asks for another output budget exactly after a raise, and for that of the raise |
| TurnLaws.CallsAreClosed | internal/agent/user_session.go:2374-2396 | where the loop ends without running the calls of its last reply each gets the note that says why; where it gives up the notice replaces the reply; else nothing changes |
| TurnLaws.FoldIsClosed | internal/agent/user_session.go:1696-1702 | where it ends by a final call the calls before it have their results, and it and the calls after it the final note |
| TurnLaws.UnansweredAre | internal/agent/user_session.go:2384-2391 | the calls that get a note are those with an id that is neither answered nor that of a call before |
| TurnLaws.RequestsAreFew | internal/agent/user_session.go:1440-1463 | five requests at most for each tool round, and five more |
| TurnLaws.RequestsAreInTurns | internal/agent/user_session.go:2351-2360 | from a transcript in turns, as long as the ids are good, every request is in turns |
| TurnLaws.EndsInTurns | internal/agent/user_session.go:1483-1495 | and so is what is left at the end, on every exit but the ones that leave the calls of the last reply as they are |
| TurnLaws.FailureLeaves | internal/agent/user_session.go:1423-1437 | a failed round trip shows no text and leaves what was sent, or what there was, compacted if due, when nothing was |
| LineDiff.KeepingLcsIsOptimal | internal/diff/diff.go:61-68 | a script that keeps Lcs lines keeps a longest common subsequence and changes the fewest lines |
| LineDiff.CommonBound | internal/diff/diff.go:81-98 | no common subsequence is longer than the table entry |
| LineDiff.ScriptBound | internal/diff/diff.go:81-98 | no script keeps more lines than the table entry |
| LineDiff.FillTable | internal/diff/diff.go:81-98 | the nested loops fill the table with longest-common-subsequence lengths |
| LineDiff.TraceBack | internal/diff/diff.go:100-122 | the walk yields a script from a to b that keeps as many lines as the table says |
| LineDiff.DiffLines | internal/diff/diff.go:69-123 | equal and deleted lines spell a, equal and inserted ones b; up to 4000000 cells no common subsequence is longer and no script cheaper; above them all of a is deleted and all of b inserted |
| LineDiff.ScriptReads | internal/diff/diff.go:52-59 | what a script keeps is in both files, what it deletes in the old one only, what it inserts in the new one only |
| DiffHunks.HunksTransform | internal/diff/diff.go:127-198 | read by the line numbers and counts of their headers, the hunks turn the old file into the new and, reversed, the new into the old |
| DiffHunks.ZeroCountMeansEmptyFile | internal/diff/diff.go:200-212 | a header counts no lines on a side only when that whole file is empty |
| DiffHunks.ChangeRanges | internal/diff/diff.go:147-173 | growing and merging runs gives ordered ranges, kept lines between them, covering every change with its context |
| DiffHunks.HunksFromOps | internal/diff/diff.go:127-198 | the hunks are those of such a grouping, with the line numbers where they stand |
| DiffHunks.GroupingShows | internal/diff/diff.go:147-173 | shown are the changes and the three lines before and after each, in stretches that do not touch |
| DiffHunks.HunkReads | internal/diff/diff.go:175-197 | a hunk holds its stretch of the script and counts the lines of either file before it and in it |
| DiffHunks.RangeSpecIs | internal/diff/diff.go:203-212 | a range of one line is the line alone, an empty one names the line before it |
| DiffHunks.Unified | internal/diff/diff.go:19-35 | the hunks rebuild either text's lines from the other's, and are those of a script that, below the cutoff, no other undercuts; there are none exactly when the texts are equal, or equal up to a final newline and below the cutoff |
| DiffHunks.FinalNewlineAboveCutoff | internal/diff/diff.go:69-79 | 2001 lines with and without a final newline: the same lines, above the cutoff |
| DiffHunks.SameLines | internal/diff/diff.go:41-50 | two texts have the same lines exactly when they are the same up to one final newline |
| DiffHunks.SplitUnlines | internal/diff/diff.go:41-50 | lines closed by newlines are read back as they are |
| Lines.TrimmedIs | internal/fileops/patch.go:97-120 | trimming leaves what lies between the white space on either side |
| Lines.SpacesAre | internal/fileops/patch.go:97-120 | white space is the 25 code points of Unicode |
| Lines.DecimalSpells | internal/agent/user_session.go:1204-1215 | a number in a notice is its decimal numeral |
| PatchFormat.ParsePatch | internal/fileops/patch.go:87-154 | the index-driven parser computes the recursive Envelope, which accepts exactly the envelopes of PatchGrammar |
| PatchFormat.ParseHunks | internal/fileops/patch.go:165-212 | the body parser computes the hunks of an update section, as PatchGrammar.BodyIsRead says them, and where they end |
| PatchFormat.ParsePrinted | internal/fileops/patch.go:87-154 | parsing a printed list of well-formed operations gives it back |
| PatchFormat.ParsePrintParse | internal/fileops/patch.go:87-212 | whatever parses is printable, and parsing the print gives it back |
| PatchGrammar.BodyIsRead | internal/fileops/patch.go:165-212 | the lines between two @@ lines, whatever follows the @@, are one hunk: its old lines are the texts marked ' ' or '-' and the empty lines, in order, its new lines those marked ' ' or '+' and the empty ones; a body without hunks is refused |
| PatchGrammar.BadLineIsRefused | internal/fileops/patch.go:204-206 | a body line of no such form is refused |
| PatchGrammar.SectionIsRead | internal/fileops/patch.go:115-149 | a section names its file, padding dropped; the lines of a new file are its marked lines, each closed by a newline |
| PatchGrammar.EnvelopeIsRead | internal/fileops/patch.go:87-154 | blank lines, the begin marker, the sections and the end marker, perhaps padded, are read as the sections say, one after the other; what follows is not read |
| PatchGrammar.OnlyEnvelopesAreRead | internal/fileops/patch.go:87-154 | and nothing else is accepted |
| PatchApply.IndexOfSubslice | internal/fileops/patch.go:241-258 | the first index from a start on where a block of lines occurs, or -1 |
| PatchApply.NextBlock | internal/fileops/patch.go:218-237 | wherever else the blocks may be placed, the next one lies at or after the end of a leftmost placement of those before it |
| PatchApply.ExtendLeftmost | internal/fileops/patch.go:218-237 | taking the first occurrence after a leftmost placement is leftmost again |
| PatchApply.ApplyHunks | internal/fileops/patch.go:218-237 | succeeds exactly when every hunk has context and some in-order, disjoint placement of all old blocks exists; replaces each block at its leftmost placement; a failure names the first hunk that cannot be placed |
| PatchApply.RebuiltReplaces | internal/fileops/patch.go:229-235 | the rebuilt file is the file with each block replaced where it is placed, the last one first |
| PatchApply.LeftmostExists | internal/fileops/patch.go:218-237 | blocks that can be placed at all have a leftmost placement |
| TextEdits.LineStartOffsets | internal/gogent/lsp.go:363-371 | the byte offsets of all lines, in order |
| TextEdits.OneLineStarts | internal/gogent/lsp.go:363-371 | a text has one list of line starts, so edits have one result |
| TextEdits.OffsetOf | internal/gogent/lsp.go:375-391 | the offset of a position, clamped to its line and to the text |
| TextEdits.PositionIs | internal/gogent/lsp.go:375-391 | on line k a column c is so many characters into the line, whatever their encoding, or its end; past the last line lies the end of the text |
| Utf8.EncodedRune | internal/gogent/lsp.go:384-388 | where a Unicode scalar value is encoded the rune is that encoding (RFC 3629, section 3) |
| Utf8.LongRuneIsEncoded | internal/gogent/lsp.go:384-388 | a rune of several bytes is the encoding of a scalar value, so other bytes count each for themselves |
| Utf8.RunesOfText | internal/fileops/filesystem.go:542-551 | an encoded text has as many runes as characters |
| TextEdits.OffsetMonotone | internal/gogent/lsp.go:375-391 | positions in order have offsets in order, a line or column below 1 being read as 1 |
| TextEdits.OffsetsInOrderExactly | internal/gogent/lsp.go:375-391 | two positions have their offsets in order in every text exactly when they are in that order |
| TextEdits.LineZeroIsLineOne | internal/gogent/lsp.go:375-379 | read as written, line 0 breaks that order |
| TextEdits.SplicedIsScan | internal/gogent/lsp.go:351-359 | splicing disjoint edits from the last to the first is the simultaneous splice into the original text |
| TextEdits.OrderDoesNotMatter | internal/gogent/lsp.go:323-326 | disjoint edits give the same text in whatever order they are listed |
| TextEdits.ApplyTextEdits | internal/gogent/lsp.go:327-360 | disjoint edits never fail and are spliced at once; in general the edits are applied last first |
| TextEdits.ResolvedIs | internal/gogent/lsp.go:337-350 | an edit replaces what lies between its two positions, whichever comes first |
| TextEdits.SortedLastFirst | internal/gogent/lsp.go:351 | edits are sorted by where they start, the last first, and stably |
| TextEdits.OneEditIsSpliced | internal/gogent/lsp.go:352-359 | one edit alone puts its text in place of its bytes |
| TextEdits.FirstIsSpliced | internal/gogent/lsp.go:352-359 | the first edit of the sorted list replaces its bytes, or all fail when the text no longer has them, and the others follow |
| Checkpoint.MergedUnwinds | internal/fileops/checkpoint.go:196-213 | restoring the merge of some checkpoints, oldest first, is undoing them one by one |
| Checkpoint.EditsKeepTurnStart | internal/fileops/checkpoint.go:90-121 | edits that snapshot before they write never change what restoring would give |
| Checkpoint.StepRefines | internal/fileops/checkpoint.go:84-213 | turns, undos and rewinds on snapshots are those of a machine that remembers whole disks |
| Checkpoint.RunRefines | internal/fileops/checkpoint.go:84-213 | over every run, undo and rewind bring back exactly the disk from before the turns they revert |
| Checkpoint.EveryRunUndoes | internal/fileops/checkpoint.go:11-15 | the same from a fresh session, with at most 100 turns of history; how many turns can be undone, and what they bring back, is in UndoGoesBack and LeftToUndo |
| Checkpoint.RewindIsUndos | internal/fileops/checkpoint.go:182-213 | rewinding k turns is undoing k times |
| Checkpoint.UndoGoesBack | internal/fileops/checkpoint.go:11-15 | after any run and then n turns that touched something, k undos or a rewind by k bring back the disk from before the last k of them, for every k up to n and 100 |
| Checkpoint.LeftToUndo | internal/fileops/checkpoint.go:126-213 | along any run a turn that touched something leaves one more to undo, up to exactly 100, an undo one less, a rewind as many less as it reverts |
| Checkpoint.RewindsAll | internal/fileops/checkpoint.go:182-195 | a rewind by 0, a negative number or too many reverts all of them |
| Checkpoint.PuttingBack | internal/fileops/checkpoint.go:215-253 | what becomes of each file when putting it back succeeds, fails or tears it, and which count as restored |
| Checkpoint.EditedIs | internal/fileops/checkpoint.go:90-121 | an edit changes the file it names and no other |
| Checkpoint.RestorableFilesComeBack | internal/fileops/checkpoint.go:215-231 | where restoring fails for some files, over every run a file that every undo and rewind can put back is as on the disk they promise |
| Checkpoint.Workspace.Restore | internal/fileops/checkpoint.go:234-253 | a file is put back or removed, or stays, or is torn; removing a missing file succeeds; no other file changes |
| Checkpoint.Checkpointer.BeginTurn | internal/fileops/checkpoint.go:84-88 | opens an empty checkpoint for this session only |
| Checkpoint.Checkpointer.Snapshot | internal/fileops/checkpoint.go:96-121 | records the first state of a path in an open turn, and nothing else |
| Checkpoint.Checkpointer.CommitTurn | internal/fileops/checkpoint.go:126-141 | moves a checkpoint that holds something to the history, keeping the newest 100 (exactly so many, by LeftToUndo) |
| Checkpoint.Checkpointer.AbortTurn | internal/fileops/checkpoint.go:144-150 | drops the open checkpoint and leaves the history |
| Checkpoint.Checkpointer.UndoLastTurn | internal/fileops/checkpoint.go:169-180 | files and history are those of the undo step, as far as files can be put back, and the number that came back is returned |
| Checkpoint.Checkpointer.RewindTurns | internal/fileops/checkpoint.go:186-213 | files and history are those of the rewind step, as far as files can be put back, other sessions untouched |
| Checkpoint.Checkpointer.MergeOldestWins | internal/fileops/checkpoint.go:196-209 | for each path the oldest snapshot is kept |
| Checkpoint.Checkpointer.RestoreCheckpoint | internal/fileops/checkpoint.go:220-231 | in any order every file that can be put back is, the others do not stop it, and the number that came back is returned |
| MultiFileEdit.GivesOneContent | internal/fileops/patch.go:56-67 | an operation leaves no choice of the content it gives a file |
| MultiFileEdit.PlanPatch | internal/gogent/gogent.go:2204-2254 | planning succeeds exactly when every operation can be planned against the disk as it is, and no two name one file |
| MultiFileEdit.ApplyPatch | internal/gogent/gogent.go:2192-2277 | refused, changing nothing, exactly when the envelope does not parse or cannot be planned; else every file gets its planned content at once and the rest stays, but for a write that fails, which stops it there; what restoring would give is still the turn's start in every case |
| MultiFileEdit.PlannableExactlyIf | internal/gogent/gogent.go:2204-2254 | a patch can be planned exactly when no two operations name one file, and each is allowed, creates a file that is not there or changes one that is, has its blocks in it, and what it gives is approved |
| MultiFileEdit.AppliedPatchLeaves | internal/gogent/gogent.go:2255-2277 | a new file has the text given for it, a deleted one is gone, an updated one has its blocks replaced the leftmost way |
| MultiFileEdit.PrintedPatchLeaves | internal/fileops/patch.go:50-67 | so a printed envelope does to each file what it says |
| MultiFileEdit.InterruptedPatchLeaves | internal/gogent/gogent.go:2255-2277 | where a write fails the files before it are as planned and those after it as they were |
| MultiFileEdit.AffectedCovers | internal/gogent/lsp.go:235-258 | the paths snapshotted up front cover every operation, but for an empty path |
| MultiFileEdit.AffectedIs | internal/gogent/lsp.go:175-197 | a file is authorized and snapshotted up front exactly when some operation names it, in whatever role |
| MultiFileEdit.OrderedChanges | internal/gogent/lsp.go:235-258 | given order as it is; else creates, text edits in any order, then renames and deletes |
| MultiFileEdit.OrderIs | internal/gogent/lsp.go:235-258 | creations come first, renames and deletions last, and the text of every file is edited in between; the server's own order is kept |
| MultiFileEdit.KindConcat | internal/gogent/lsp.go:240-249 | no creation, rename or deletion is left out, each group keeps its order, and a creation loses its leave to overwrite |
| MultiFileEdit.ApplyOne | internal/gogent/lsp.go:262-309 | one operation takes effect exactly when its files can be written and removed and its edits lie within the text, or fails changing at most the files it touches |
| MultiFileEdit.ChangeLeaves | internal/gogent/lsp.go:262-309 | what each operation leaves of the files it names: edited text, an empty new file or the one that is there, a file under its new name only, none; others stay |
| MultiFileEdit.ChangeGoesThroughExactlyIf | internal/gogent/lsp.go:262-309 | an operation fails exactly when a file it writes cannot be written, one it removes cannot be removed, or an edit is out of bounds |
| MultiFileEdit.DoesAllOnce | internal/gogent/lsp.go:222-229 | operations in order lead to one disk |
| MultiFileEdit.ApplyEdit | internal/gogent/lsp.go:170-214 | denied, nothing changed; allowed, it is applied exactly when no operation fails, and they took effect in order; else what they left is rolled back as far as its files can be put back |
| MultiFileEdit.FailedEditChangesNothing | internal/gogent/lsp.go:196-208 | a failed edit leaves every file as it was exactly when each file it named was put back or never changed, or it named none and undoing the edit before changes nothing |
| MultiFileEdit.RollbackIsGuaranteed | internal/gogent/lsp.go:196-208 | whatever an edit may leave of the files it names, its rollback undoes it exactly when each can be put back |
| MultiFileEdit.TornFileStaysTorn | internal/gogent/lsp.go:196-208 | a write tears a file, putting it back fails too, and the file stays changed |
| MultiFileEdit.NamelessEditUndoesTheOneBefore | internal/gogent/lsp.go:196-208 | creating a file at the empty path fails, and the edit before it is undone |
| Limiter.ProcStepAccounts | internal/agent/limiter.go:103-126 | every step anywhere in a task tree uses up a step, keeps slots equal to the goroutines holding one within capacity, and starts a task only by taking it off what is pending |
| Limiter.ProcMoves | internal/agent/limiter.go:97-126 | an unfinished task can always take a step somewhere in its tree, whatever others hold |
| Limiter.NextIsSound | internal/agent/limiter.go:36-58 | every move, fan-outs, background and interactive launches alike, keeps the slot count equal to its holders and within capacity |
| Limiter.NextKeepsDemand | internal/agent/user_session.go:3159-3243 | no task is lost and none starts twice |
| Limiter.ReleaseFindsSlot | internal/agent/limiter.go:50-58 | a slot is taken exactly while some goroutine, however deep in fan-outs, or some launch holds one |
| Limiter.NoVainRelease | internal/agent/limiter.go:50-58 | a goroutine that holds a slot, in whatever fan-out, finds one to give back, so a release never takes its empty branch |
| Limiter.SlotsAreHolders | internal/agent/limiter.go:36-58 | the slots taken are those that goroutines, counted through all fan-outs, and launches hold, never more than there are |
| Limiter.LaunchIsRejectedExactlyIf | internal/agent/user_session.go:3384-3390 | a launch is rejected exactly when as many hold a slot as there are |
| Limiter.TaskRunsInlineExactlyIf | internal/agent/limiter.go:103-124 | a task of a fan-out runs inline exactly when as many hold a slot as there are, and else in a goroutine that holds one |
| Limiter.NoDeadlock | internal/agent/limiter.go:97-126 | until everything is finished some goroutine can move |
| Limiter.AtRestAllRan | internal/agent/limiter.go:103-126 | at rest no slot is held and every task has run exactly as often as asked |
| Limiter.DemandIs | internal/agent/user_session.go:3384-3398 | a turn or an accepted launch asks for every task of its tree, a launch that comes to nothing takes them back, and nothing else asks for any |
| Limiter.RunIsSound | internal/agent/user_session.go:3384-3428 | along every run under every schedule slots are counted right and each task is pending or has run, never twice |
| Limiter.InternalRunIsBounded | internal/agent/limiter.go:103-126 | without new requests a run has at most as many moves as there are steps left |
| Limiter.StuckRunIsDone | internal/agent/limiter.go:103-126 | a run that cannot go on is done: every task it asked for has run exactly as often as asked |
| AgentEvents.NextConserves | internal/agent/user_session.go:3524-3536 | every move, the channel step and the spill step of a push among them, keeps each terminal event in exactly one place |
| AgentEvents.DroppedOnlyWhenFull | internal/agent/user_session.go:3524-3536 | a question is dropped only when the channel is full |
| AgentEvents.RunConserves | internal/agent/user_session.go:3421-3580 | under every interleaving no terminal event is lost or duplicated, and each worker that has exited sent exactly one (of the true kind, by TerminalEventsAreTrue) |
| AgentEvents.DrainedMeansDelivered | internal/agent/user_session.go:3557-3580 | once both queues are empty the coordinator has seen exactly one terminal event of each worker that exited |
| AgentEvents.TerminalEventsAreTrue | internal/agent/user_session.go:3450-3515 | along every run a terminal event, in whichever queue it is, is of the kind given by the last move that ended its worker: the outcome of its model loop, or a failure for a panic, for giving up and for coming round after being terminated |
| AgentEvents.OnlyWhatHappenedIsReported | internal/agent/user_session.go:3462-3501 | success, or a question, is in a queue only if the model loop of that worker came to it |
| AgentEvents.SentAsSettled | internal/agent/user_session.go:3524-3536 | what a worker sends is what was settled last, into a channel of 64, or else it is spilled, or dropped if it is a question |
| AgentEvents.OrderIsKept | internal/agent/user_session.go:3524-3568 | events leave the channel in the order in which they went in, and the spill list likewise |
| AgentEvents.NoWorkAfterTermination | internal/agent/user_session.go:3450-3460 | once a terminated worker has come round its model never runs again |
| AgentEvents.CallsGetOneEach | internal/agent/user_session.go:3551-3580 | each call gets one event, times out, or is still under way |
| AgentEvents.WaitsAfterBothEmpty | internal/agent/user_session.go:3557-3580 | a call that waits has found the channel empty and, later, nothing spilled |
| AgentEvents.WakesExactlyIf | internal/agent/user_session.go:3551-3580 | the workers launched so far can wake a waiting call exactly when the channel holds an event or one of them may still send one |
| AgentEvents.LaunchCanWake | internal/agent/user_session.go:3384-3417 | a worker launched later can always wake it |
| AgentEvents.SpilledEventWaitedForInVain | internal/agent/user_session.go:3551-3580 | reachable: a call waits on the channel while an event lies spilled, and nothing that the workers launched so far or anyone else does ends the wait but its own time limit |
| Paging.FindLineStarts | internal/fileops/filesystem.go:575-586 | the offsets found are the starts of all lines, a final newline opening none |
| Paging.RunePrefixBytes | internal/fileops/filesystem.go:542-551 | the byte position after the first n runes |
| Paging.RunesCoverLine | internal/fileops/filesystem.go:634-645 | the first n runes of a text cover a line exactly when the line has at most n, and runes never straddle lines |
| Paging.BoundContent | internal/fileops/filesystem.go:572-661 | 2000 lines and 102400 characters unless asked otherwise, never more lines than the limit; a page is a stretch of the file with exactly the whole lines it reports, ending with the file, the limit or the cap; truncated exactly when it is not the file; nextOffset 0 exactly at the end, else the first line not shown whole; no progress exactly when the first line exceeds the cap |
| Paging.LineStartsAre | internal/fileops/filesystem.go:575-586 | a line starts at the start of the file and after each newline that does not end it |
| Paging.PageIs | internal/fileops/filesystem.go:588-661 | a page is the lines from the first one asked for up to the limit or the end, if they are within the cap, and else the runes up to the cap; it counts the lines it shows whole and names the next |
| Paging.ReadThrough | internal/fileops/filesystem.go:562-571 | following nextOffset gets through exactly when every line fits the cap, and then the whole lines are the file, in at most as many pages as lines |
| RateLimiter.RateLimiter.constructor | internal/agent/ratelimiter.go:38-52 | a full bucket of the burst size, or of perMinute, refilling at perMinute/60 a second; no limit for a rate that is not positive |
| RateLimiter.RateLimiter.Take | internal/agent/ratelimiter.go:58-73 | tokens stay in [0, capacity]; the step and the rounded wait are those of the bucket |
| RateLimiter.RateLimiter.Wait | internal/agent/ratelimiter.go:78-98 | exactly one permit is taken, at the first try that finds one; none when cancelled |
| RateLimiter.GrantsArePaidFor | internal/agent/ratelimiter.go:58-73 | permits granted and tokens left never exceed what was there and what came back |
| RateLimiter.WindowIsBounded | internal/agent/ratelimiter.go:11-18 | in every window of length d at most capacity + rate*d permits are granted, whatever came before |
| RateLimiter.TakesExactlyIf | internal/agent/ratelimiter.go:58-73 | a call takes a permit exactly when there is a whole one, counting what came back and what the bucket can hold |
| RateLimiter.MinuteRefills | internal/agent/ratelimiter.go:38-52 | a minute brings back as many permits as were configured for it |
| RateLimiter.SteadyCallsAreGranted | internal/agent/ratelimiter.go:11-18 | calls far enough apart for a permit to come back in between are all granted |
| RateLimiter.BurstIsGranted | internal/agent/ratelimiter.go:11-18 | and so is a burst as large as the bucket has whole permits |
| RateLimiter.ComingBack | internal/agent/ratelimiter.go:54-73 | a refused caller is granted exactly from the exact time on: after the returned wait exactly when it was not rounded, a nanosecond later always |
| RateLimiter.RefusalsCostNothing | internal/agent/ratelimiter.go:58-73 | being refused again leaves the time of the next permit where it was |
| RateLimiter.WaitIsTooShort | internal/agent/ratelimiter.go:71-72 | at seven requests a minute coming back after the returned wait is refused |
| SessionRegistry.Registry.ReclaimIdle | cmd/main.go:559-565 | exactly the other sessions idle past the limit go |
| SessionRegistry.Registry.Oldest | cmd/main.go:575-583 | a least recently used other session, for any map order, or none when there is none |
| SessionRegistry.Registry.EnforceCap | cmd/main.go:572-589 | evicts the last used until the number is within bounds, and no further |
| SessionRegistry.IdleOrLastUsed | cmd/main.go:554-590 | dropping the idle and then the last used leaves no other idle session, and nothing that went was used after anything that stays |
| SessionRegistry.Registry.Touch | cmd/main.go:554-590 | backends are those of the sessions seen, the touched one keeps its backend or gets a new one, at most max(1, maxItems) stay, none of the others idle, and what went was idle or last used |
| Commands.ValidateShape | internal/gogent/commands.go:226-244 | a valid name, a visible template, valid and distinct parameter names |
| Commands.CommandFile.CreateCommand | internal/gogent/commands.go:52-79 | refused for its shape, a built-in or an existing name; else version 1 is appended and saved, or nothing changes because the file cannot be written |
| Commands.CommandFile.UpdateCommand | internal/gogent/commands.go:84-106 | the content of the definition becomes the next version of the command of that name (field by field in UpdateIsSaved), or nothing changes |
| Commands.CommandFile.RestoreCommandVersion | internal/gogent/commands.go:134-169 | the content of the version named becomes the next version, or nothing changes |
| Commands.CommandFile.DeleteCommand | internal/gogent/commands.go:109-120 | that command goes and the others stay, or nothing changes |
| Commands.CreateIsSaved | internal/gogent/commands.go:52-79 | a new command is appended with the template and the parameters given, names and short fields trimmed, at version 1 with one snapshot of that content |
| Commands.UpdateIsSaved | internal/gogent/commands.go:84-106 | the target has the template and the parameters given, names and short fields trimmed, at the next version, with one snapshot of that content appended; the others stay |
| Commands.RestoreIsSaved | internal/gogent/commands.go:134-169 | the target has the content of the first snapshot of that number, at the next version, with one snapshot appended; its description and the others stay |
| Commands.DeleteIsSaved | internal/gogent/commands.go:109-120 | the others stay, in order |
| Commands.RefusedExactlyIf | internal/gogent/commands.go:52-169 | an operation is refused exactly for its shape, a built-in or existing name, a missing command or a missing version, the first of these that applies |
| Commands.SavedExactlyIf | internal/gogent/commands.go:52-169 | the file changes exactly when an operation succeeds, and the command returned is the one saved |
| Commands.ApplyKeepsValid | internal/gogent/commands.go:14-17 | names stay unique and each command's snapshots are numbered 1 to its version, the last one equal to its live content |
| Commands.ApplyGrows | internal/gogent/commands.go:131-133 | until it is deleted a command stays and its history only grows at the end; operations on others leave it alone |
| Commands.RestoreBringsBack | internal/gogent/commands.go:134-169 | a version can be restored exactly when its number is 1 to the present one, and then its content is live, as a new version; the description stays |
| Commands.RunGrows | internal/gogent/commands.go:14-17 | over every run without its deletion a command's history is append-only |
| Commands.RunKeepsDescription | internal/gogent/commands.go:84-169 | over every run without an update of a command its description stays |
| Commands.PresentCanBeRestored | internal/gogent/commands.go:130-169 | whatever happens short of deletion, the present content can be brought back by its version number, and the whole command exactly when its description at that time is the present one |
| Commands.DescriptionIsNotRestored | internal/gogent/commands.go:155-165 | a new description and template, and then the first version again: only the template is back |

## Left out

- RunLoop: on the budget and cancellation exits the calls of the last reply are left unanswered, so balance is claimed there only for a last reply without calls.
- RunLoop: a script is finite, standing for any run so far; running out of it counts as a failed round trip.
- ApplyPatch: all or nothing holds for planning; where a write of the second phase fails the files before it stay written, as in the code, until the turn is undone.
- MigrateToContextWindow: the window is recorded before fitting succeeds, so a second call after a failure may have nothing to do; success is tied to the size only for calls that reach the rounds.
- ApplyTextEdits: overlapping edits and edits that share a start are applied in array order; only the last-first order is stated for them.
- Take: the arithmetic is exact; floating-point rounding in the token count and in the wait is not modelled.
- NeedsCompression: the water marks are computed in integers, not through floating point.
- NextAgentEvent, waiting without a time limit: only conservation is proved, and that the wait may be in vain.
- Parsing JSON and recovering a truncated argument text: what it yields is part of a reply.
- Matching the phrases that make a reply a preamble: an arbitrary boolean of the reply.
- The text form of a diff: the ranges of its headers and the lines of its hunks are modelled, the header lines are not spelled out.
- What makes the last text of an interactive sub-agent a question or a failure: the outcome of its model loop is given.
- The name that a tool message carries beside its id, and the reasoning kept with an assistant message.
- System prompt, volatile tail and images of a request: they are not part of the transcript.
- runBoundedTools: a fixed pool without nesting; the result order it must keep is in RunToolCallsConcurrent.
- File modes, directories, links, byte order marks, unreadable files and two spellings of one path: the workspace is a flat map.
- Concurrent use of the checkpointer: its calls are sequential here.
- sortCommandsByName: a plain insertion sort for display.
- A commands file that cannot be read counts as empty in the code; here it can always be read.
- Aliasing of caller-held slices in CreateCommand and UpdateCommand: commands are values.
- Sub-agent lifecycle events, budgets across agents, statistics, logging: bookkeeping around the loop.
- Everything that is transport, user interface, configuration or operating system.
