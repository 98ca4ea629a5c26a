# ThreadForge verification

A Dafny 4.11 model of the parts of ThreadForge whose correctness is hardest to
see by reading: the agent control loop and its tool batches, the streaming
filter of the local worker, prompt budgeting, the resumable download, the plan
validator, the worker's update lifecycle, how a run is closed, and the client's
event merge. `dafny verify dfyconfig.toml` checks everything.

Where the source changes variables in a loop or fields of an object, there is a
method or a class here that does the same steps in the same order and is proved
equal to a specification function; the promises are then proved about that
function, for all inputs. The model, tools, reviewer, clock, network, disk and
every exception are parameters.

| file | what it models |
|---|---|
| `ReadIntervals.dfy` | merging, counting and chunking line ranges |
| `BatchReads.dfy`, `BatchReadLines.dfy`, `BatchDedup.dfy` | read normalisation of a batch, the lines it then reads, and the truncation and de-duplication before it |
| `RepeatWindow.dfy`, `RepeatRules.dfy`, `FlaggedReads.dfy` | fingerprints, the six-entry window, refusal and commit, what makes a repetition and what lifts it, and which reads are flagged only when nothing new was asked for |
| `BatchSchedule.dfy`, `BatchInterleaving.dfy`, `BatchSerialisability.dfy` | the partition of a batch, every interleaving of its concurrent group, and the comparison with declared order |
| `RunLoop.dfy`, `RunLoopSafety.dfy`, `RunLoopHandshake.dfy`, `RunLoopOutcomes.dfy` | the loop over model turns, what every run keeps, and what exactly each turn and each run becomes |
| `RunFinish.dfy` | closing a run: `AgentLoop.run`, `run_native`, `finalize_run` |
| `Redaction.dfy`, `SecretLists.dfy` | the redaction filter, for one secret and for a list of secrets |
| `StreamParser.dfy`, `PlainFinals.dfy` | the `<final>` parser, with and without plain final answers |
| `StreamHooks.dfy`, `StreamPipeline.dfy` | the hook object that holds parser, filter and answer candidate, and when the two together are one function of the text |
| `PromptBudget.dfy`, `PromptContents.dfy` | section renderers, the budget reduction loop, and what the prompt holds |
| `Download.dfy`, `DownloadOutcomes.dfy` | the ranged, resumable installer download, when it succeeds and when it gives up |
| `PlanDag.dfy`, `PlanContract.dfy`, `PlanIdempotence.dfy`, `PlanNormalForm.dfy`, `PlanErrors.dfy` | dependency check, plan validation, its fixed points, the normal form it returns, and its error codes |
| `WorkerLifecycle.dfy` | tasks against updates, in every interleaving |
| `EventMerge.dfy` | merging run events and the terminal status |
| `Text.dfy`, `Options.dfy`, `Basics.dfy` | string operations, optional values, minimum and maximum |

## Where the code does not keep what it promises

Each entry names the lemmas that show it: a concrete input, or a statement about
all inputs. Where the code keeps the promise under some condition, that condition
is proved to be exact.

- Streamed redaction equals whole-text redaction exactly for secrets no proper
  prefix of which ends the marker `<redacted>` or ends with it
  (`StreamingIsExactlySafe`); secrets without `>` are of that kind. For a list of
  secrets that cannot touch a marker it does exactly if no secret lies inside
  another other than at its end, and none that comes earlier in the order starts
  where one that comes later ends (`ListStreamsExactly`,
  `PrefixSecretsDependOnCutting`).
- With plain final answers allowed, what is shown depends on how the reply was cut
  into deltas, unless nothing that the 32-character window can come to hold looks
  like a plain answer, or the whole text is one with at most 32 white-space
  characters in front (`PlainFinalsExactly`, `TextBeforeTag`, `TagAfterLetter`). Text in
  other mark-up that outgrows the window is shown without its beginning
  (`OutgrownWindow`). Parser and filter together are exact as well
  (`PipelineExactly`).
- The count of unread lines is too large exactly if a range whose end lies more
  than a line before its start meets the cursor (`UncoveredExact`,
  `InvertedSpanOvercounts`); whether it is zero is always right (`NothingNew`).
- A whole-file read followed by two ranged reads of the same file raises
  TypeError in the repeat check, because None is sorted with numbers
  (`ThreeReadsRaise`, `MixedRangesRaise`). A call refused before execution can
  therefore raise at commit instead of being judged a repeat (`RefusalCanRaise`);
  `RefusedIsRepeat` gives the exact condition, `RepeatsExactly` and
  `RefusedExactly` say when the two checks raise.
- A read with a missing end is flagged as a repeat, and refused, by any match in
  another range of the file, even if it asks for lines nobody has read
  (`OpenEndedReadIsFlagged`, `UnreadIsFlagged`). A flag means that nothing new was
  asked for exactly for ranges with both ends and for ranges that are empty
  (`FlagsOnlyReadExactly`).
- Batch de-duplication compares read_file calls without their ranges and without
  trailing slashes, so of several reads of one file only the first survives and the
  merging that follows has nothing left to merge (`DedupKeepsFirstRead`,
  `BatchLines`). Normalising a read with one missing end drops the end it has
  (`HalfOpenReadLosesLines`); `NothingLostExactly` and `SameLinesExactly` say when
  no line is lost and when none is lost or added.
- `write a; list; write b` shows the listing a file that is declared after it
  (`ListingSeesLaterWrite`); `SerialListingExactly` and `SerialSearchExactly` say
  exactly when serial listings and searches see what declared order shows.
- A first-ever tool batch sent as a rebuttal while a held final waits for
  confirmation raises UnboundLocalError on `tools` (`FirstBatchRebuttalRaises`,
  `BatchRebuttalRun`).
- The review handshake is skipped when the first review of a final carries one of
  three reserved reason strings (`FirstReviewExactly`), and a final held for
  confirmation counts as a silent, bad turn (`HeldFinalIsBad`).
- A run whose set-up fails before it has created its own TaskState emits no
  run_finished event if the agent still carries an already closed TaskState of an
  earlier run, and overwrites that state (`RunNative`, its clauses for `setup`).
- After a completed run that the completion gate then stops, the event carries
  the status completed and the run the status stopped (`RunNative`).
- The constant DEFAULT_SECTION_FLOORS says 1200, 400, 300 and 1500 characters;
  the prompt builder does not read it and uses a quarter of each budget
  (`DefaultPromptFits`). The per-note budget loop never takes a second turn
  (`FirstShareStands`).
- A write that fails after the digest was updated makes the download return a
  short installer (`LostWriteIsReturned`); the installer is the signed one exactly if
  every write of the call was whole (`ReturnedInstaller`, `AtomicInstaller`).
- If the answer to an update request cannot be sent, the update section is never
  left again and the worker takes no further task or update
  (`FailedAnnouncementIsForever`). Two live tasks with one id let an update run
  beside a task (`SameIdTwiceOverlaps`); it can come to that exactly if some live
  thread is not the registered one of its id (`UpdateOverlapsExactly`).
- Event merging converges exactly when ids determine envelopes and distinct ids
  have distinct sequence numbers (`ConvergesExactly`).

## Model

| member | source | states |
|---|---|---|
| ReadIntervals.MergeReadIntervals | pico-legacy-runtime/pico/agent_loop.py:332-350 | the merging loop computes `Merge`, the form the next three rows are about |
| ReadIntervals.MergePreservesLines | pico-legacy-runtime/pico/agent_loop.py:332-350 | no requested line is lost or added; the merged ranges ascend with a gap between neighbours; open-ended requests follow unchanged, in order |
| ReadIntervals.MergeCanonical | pico-legacy-runtime/pico/agent_loop.py:332-350 | two groups of proper ranges merge to the same list if and only if they cover the same lines |
| ReadIntervals.GappedUnique | pico-legacy-runtime/pico/agent_loop.py:342-350 | a gapped list of non-empty ranges is determined by the lines it covers |
| ReadIntervals.UncoveredReadLines | pico-legacy-runtime/pico/agent_loop.py:353-376 | the cursor loop computes `Uncovered`, raising exactly where Python cannot sort the tuples |
| ReadIntervals.UncoveredExact | pico-legacy-runtime/pico/agent_loop.py:353-376 | the number returned is never less than the number of lines of the range outside the union of the given ranges, and is that number if and only if no range is inverted by more than a line, ends at or after the start, starts at or before the end, and ends behind all ranges sorted before it |
| ReadIntervals.ProperRangesCountOnce | pico-legacy-runtime/pico/agent_loop.py:353-376 | ranges that are not inverted are never counted twice |
| ReadIntervals.NothingNew | pico-legacy-runtime/pico/agent_loop.py:353-376 | the count is zero if and only if every line of the range is covered, inverted ranges included |
| ReadIntervals.ChunkReadIntervals | pico-legacy-runtime/pico/agent_loop.py:379-398 | the chunking loops compute `Chunks` |
| ReadIntervals.ChunksCover | pico-legacy-runtime/pico/agent_loop.py:379-398 | chunks cover the same lines in disjoint ascending pieces of at most 200 lines, each inside one merged range |
| ReadIntervals.ChunksFull | pico-legacy-runtime/pico/agent_loop.py:379-398 | all pieces of a range but the last hold exactly 200 lines, and a range of at most 200 is not cut |
| BatchReads.NormalizeBatchReads | pico-legacy-runtime/pico/agent_loop.py:401-445 | the grouping and emitting loops compute the normalised list and the number of reads merged away |
| BatchReads.NormalizedGroups | pico-legacy-runtime/pico/agent_loop.py:401-445 | all other calls keep their order and stand in front; the reads of each path are replaced by the pieces of their merged ranges |
| BatchReads.GroupIs | pico-legacy-runtime/pico/agent_loop.py:408-424 | a group holds the ranges of the reads of its path, in order |
| BatchReads.PathsInOrder | pico-legacy-runtime/pico/agent_loop.py:408-424 | the paths are those read, in the order of their first reads |
| BatchReads.ReadsInOrder | pico-legacy-runtime/pico/agent_loop.py:425-444 | after normalisation the reads of a path stand together, and the paths keep that order |
| BatchReadLines.NormalizedLines | pico-legacy-runtime/pico/agent_loop.py:430-444 | which lines are read of a path afterwards, for every batch, open-ended requests included |
| BatchReadLines.NormalizationPreservesReads | pico-legacy-runtime/pico/agent_loop.py:401-445 | with no half-open request exactly the requested lines are read, as disjoint ascending pieces of at most 200 |
| BatchReadLines.NothingLostExactly | pico-legacy-runtime/pico/agent_loop.py:430-437 | no line is lost if and only if what a request with a missing end asks for outside lines 1 to 200 is covered by definite requests |
| BatchReadLines.SameLinesExactly | pico-legacy-runtime/pico/agent_loop.py:401-445 | exactly the requested lines are read if and only if none is lost and, with a missing end in the group, all of lines 1 to 200 were requested |
| BatchReadLines.HalfOpenReadLosesLines | pico-legacy-runtime/pico/agent_loop.py:430-437 | a read of lines up to 300 no longer reads line 250 |
| BatchDedup.PrepareBatch | pico-legacy-runtime/pico/agent_loop.py:1646-1672 | truncation to eight calls, de-duplication with a seen-set, then normalisation |
| BatchDedup.DedupExactly | pico-legacy-runtime/pico/agent_loop.py:1651-1670 | exactly the calls that repeat an earlier one, up to trailing slashes and the ranges of reads, are dropped, and the others keep their order |
| BatchDedup.KeyPathIs | pico-legacy-runtime/pico/runtime.py:83-99 | paths are compared without the slashes at their end |
| BatchDedup.DedupKeepsFirstRead | pico-legacy-runtime/pico/agent_loop.py:1651-1670 | of all reads whose paths agree up to trailing slashes exactly the first survives de-duplication, whatever the ranges |
| BatchDedup.OneSpelling | pico-legacy-runtime/pico/agent_loop.py:1651-1670 | with one spelling of a path that is the first of its own reads |
| BatchDedup.BatchLines | pico-legacy-runtime/pico/agent_loop.py:1646-1672 | for every batch and path: the lines read are those of the first read under the path's key if it has this path, lines 1 to 200 if that read misses an end; no requested line is lost if and only if that one read asks for all of them |
| RepeatWindow.ToolCallRepeats | pico-legacy-runtime/pico/agent_loop.py:272-324 | the loop over the window computes `Repeats`, including where it raises |
| RepeatRules.MatchesExactly | pico-legacy-runtime/pico/agent_loop.py:155-186 | proper ranges of one file match exactly if three fifths of the new one lie in the old one; a single line in a range around it or in itself |
| RepeatRules.MissingEnds | pico-legacy-runtime/pico/agent_loop.py:163-172 | missing ends are taken from the other range, line 1 or the own start |
| RepeatRules.SamePathExactly | pico-legacy-runtime/pico/agent_loop.py:302-307 | the ranges counted as read are those of the reads of the same file in the window |
| RepeatRules.ExactRepeatMeans | pico-legacy-runtime/pico/agent_loop.py:272-324 | an exact repetition is the same call with no other result and only reads, searches and listings behind it |
| RepeatRules.LiftedIsNoRepeat | pico-legacy-runtime/pico/agent_loop.py:318-323 | with a shell command, a write or any other such call behind every match the call is not refused, and not judged a repeat unless it matches another range of its file |
| RepeatRules.SameCallRepeats | pico-legacy-runtime/pico/agent_loop.py:288-324 | the same call with only reads, searches and listings behind it is refused, and a repeat if its result is no other, unless the check raises, which it does for reads only |
| RepeatRules.OtherCallsExactly | pico-legacy-runtime/pico/agent_loop.py:288-324 | for calls that are no reads: a repeat exactly if an exact repetition is in the window |
| RepeatWindow.RepeatsExactly | pico-legacy-runtime/pico/agent_loop.py:272-324 | closed form of the decision: a repeat is an exact match or a partial match with no new line; it raises exactly where a partial match comes first and the ranges cannot be sorted |
| RepeatWindow.FlaggedReadIsCovered | pico-legacy-runtime/pico/agent_loop.py:288-324 | a flagged read with both ends given has no line outside the same file's ranges in the window |
| RepeatWindow.InsideMatches | pico-legacy-runtime/pico/agent_loop.py:155-186 | a range strictly inside another overlaps it fully, single lines included |
| RepeatWindow.InsideReadIsFlagged | pico-legacy-runtime/pico/agent_loop.py:288-324 | a read strictly inside one earlier read of the window is always flagged, whatever else the window holds |
| RepeatWindow.OpenEndedReadIsFlagged | pico-legacy-runtime/pico/agent_loop.py:301-312 | a read with a missing end is flagged by any match in another range |
| FlaggedReads.UnreadIsFlagged | pico-legacy-runtime/pico/agent_loop.py:301-312 | for every range with a missing end that asks for a line there is one earlier read after which it is refused and flagged though it asks for a line that read did not |
| FlaggedReads.FlagsOnlyReadExactly | pico-legacy-runtime/pico/agent_loop.py:288-324 | a flag, and a refusal, means in every window that all requested lines were requested before if and only if the range has both ends or is empty |
| FlaggedReads.RefusedReadIsCovered | pico-legacy-runtime/pico/agent_loop.py:747-786 | a refused read with both ends has no line outside the window's ranges, even where the commit raises |
| RepeatWindow.MixedRangesRaise | pico-legacy-runtime/pico/agent_loop.py:301-312 | a whole-file and a ranged read in the window make every further ranged read of the file raise, unless it exactly repeats an earlier entry |
| RepeatWindow.ThreeReadsRaise | pico-legacy-runtime/pico/agent_loop.py:747-780 | from an empty window three reads of one file raise, before execution and at commit |
| RepeatWindow.RefuseBeforeRunning | pico-legacy-runtime/pico/agent_loop.py:747-786 | the check before execution computes `Refused`, the form the next rows and `RepeatRules` are about |
| RepeatWindow.RefusedFromExactly | pico-legacy-runtime/pico/agent_loop.py:747-786 | closed form for reads: it raises exactly where a partial match with no writer after it comes ahead of every exact repeat and the ranges cannot be sorted, and refuses exactly on an exact repeat or such a match without a new line where it does not raise first |
| RepeatWindow.RefusedExactly | pico-legacy-runtime/pico/agent_loop.py:747-786 | the same for every call: other calls never raise and are refused exactly on an exact repeat |
| RepeatWindow.RefusalRaisesLikeCommit | pico-legacy-runtime/pico/agent_loop.py:747-855 | where the check before execution raises, the check at commit would too |
| RepeatWindow.RefusedIsRepeat | pico-legacy-runtime/pico/agent_loop.py:747-855 | a call refused before execution is judged a repeat at commit if and only if that second check does not raise; always so when the file's ranges in the window are definite |
| RepeatWindow.RefusalCanRaise | pico-legacy-runtime/pico/agent_loop.py:747-855 | a reachable run of four calls whose refusal raises at commit |
| RepeatWindow.ToolLedger.Commit | pico-legacy-runtime/pico/agent_loop.py:826-886 | a repeat or an exception leaves window, read counter and evidence alone; anything else enters the window, which stays at six |
| RepeatWindow.ToolLedger.Execute | pico-legacy-runtime/pico/agent_loop.py:723-824 | on the single-tool path a refused call changes nothing, and only calls that are not refused run |
| RepeatWindow.ToolLedger.CommitBatch | pico-legacy-runtime/pico/agent_loop.py:1765-1783 | the commit loop over a batch, stopping at an exception |
| RepeatWindow.BatchKeepsDeclaredOrder | pico-legacy-runtime/pico/agent_loop.py:1765-1783 | after a batch the window is the last six of the old window followed by the non-repeats in declared order, and exactly those count as reads and evidence |
| BatchSchedule.PartitionBatchTools | pico-legacy-runtime/pico/agent_loop.py:516-588 | the loop over touched and dirty paths puts exactly the joining calls in the concurrent group, both groups in declared order |
| BatchSchedule.JoinsExactly | pico-legacy-runtime/pico/agent_loop.py:540-588 | which calls join the concurrent group, in terms of the calls declared before |
| BatchSchedule.IndicesExactly | pico-legacy-runtime/pico/agent_loop.py:540-588 | both groups hold exactly their calls, in declared order |
| BatchSchedule.PatchExactly | pico-legacy-runtime/pico/tools.py:459-473 | a patch whose old part stands in one place replaces it there |
| BatchSchedule.PatchOnlyOnce | pico-legacy-runtime/pico/tools.py:459-473 | any other patch leaves the file as it is |
| BatchSchedule.GroupIsConflictFree | pico-legacy-runtime/pico/agent_loop.py:540-588 | inside the concurrent group no two writes share a file, no read shares one with a write, and a listing is never beside a write |
| BatchSchedule.SerialComesLast | pico-legacy-runtime/pico/agent_loop.py:540-588 | no concurrent write declared after a serial read or write has its file, and none at all comes after a shell command |
| BatchInterleaving.StepKeepsSteady | pico-legacy-runtime/pico/tool_executor.py:187-256 | every section of every call keeps the invariant: each file is as at the start or as its one writer makes it, and each call has seen and reported what it would alone |
| BatchInterleaving.InterleavingKeepsSteady | pico-legacy-runtime/pico/agent_loop.py:1712-1745 | the invariant holds after every schedule of the group |
| BatchSerialisability.StepStaysAhead | pico-legacy-runtime/pico/agent_loop.py:1712-1763 | the simulation: the scheduled run is ahead of declared order by exactly the concurrent writes still to be declared |
| BatchSerialisability.BatchIsSerialisable | pico-legacy-runtime/pico/agent_loop.py:1712-1763 | for every batch, shell, workspace and interleaving the final workspace is that of declared order, and every read, write, patch, shell command and grouped listing observes and affects the same |
| BatchSerialisability.SerialSearchExactly | pico-legacy-runtime/pico/agent_loop.py:549-558 | a serial search sees what declared order shows if and only if no concurrent write declared after it changes its file |
| BatchSerialisability.SerialListingExactly | pico-legacy-runtime/pico/agent_loop.py:549-558 | a serial listing does if and only if no concurrent write declared after it creates a file |
| BatchSerialisability.ListingSeesLaterWrite | pico-legacy-runtime/pico/agent_loop.py:549-583 | write, list, write: in every interleaving the listing differs from declared order |
| RunLoop.RunTheLoop | pico-legacy-runtime/pico/agent_loop.py:1160-2054 | the while loop and its exits compute `Run`, and 500 iterations are always enough |
| RunLoop.OneTurn | pico-legacy-runtime/pico/agent_loop.py:1164-1510 | one iteration up to the reply: faults, caps, judgement of the turn before, convergence on rejections, finalization |
| RunLoop.Respond | pico-legacy-runtime/pico/agent_loop.py:1512-1868 | the branches on talk, tool, batch, retry and final |
| RunLoop.RunTools | pico-legacy-runtime/pico/agent_loop.py:1564-1617 | signals and periodic review after tools, the interval halved and the run left on redirects |
| RunLoop.TakeFinal | pico-legacy-runtime/pico/agent_loop.py:1870-2001 | a final answer is rejected, held or accepted |
| RunLoop.AfterCounts | pico-legacy-runtime/pico/agent_loop.py:1113-1164 | at most one attempt an iteration, and one in each that goes on |
| RunLoopSafety.ThreeBadTurnsStopTheRun | pico-legacy-runtime/pico/agent_loop.py:1217-1285 | after three consecutive bad turns the model is called at most once more and no tool it chooses runs |
| RunLoopSafety.ReviewsKeepPace | pico-legacy-runtime/pico/agent_loop.py:1581-1617 | a run that goes on is fewer than six actions past its last periodic review, three after a redirect, and no two in a row have redirected |
| RunLoopHandshake.RejectionsAndRepairsAreBounded | pico-legacy-runtime/pico/agent_loop.py:1288-1330 | never more than two rejected finals in a row, at most one protocol repair, and the rejection exit always follows a judgement, so `remaining_turns` is assigned |
| RunLoopHandshake.EveryRunEnds | pico-legacy-runtime/pico/agent_loop.py:1164-2085 | every run is over within 500 iterations in a final status, and completed exactly if its last record is an accepted final |
| RunLoopHandshake.CompletionNeedsTwoReviews | pico-legacy-runtime/pico/agent_loop.py:1871-2001 | a completed run that wrote had its accepting final reviewed and not redirected, and an earlier final reviewed too, unless that review failed or has a reserved reason |
| RunLoopHandshake.FirstReviewExactly | pico-legacy-runtime/pico/agent_loop.py:1947-1977 | the first final review accepts if and only if it does not redirect and failed or has a reserved reason; in a finalization turn any other approval ends the run unaccepted |
| RunLoopHandshake.FirstBatchRebuttalRaises | pico-legacy-runtime/pico/agent_loop.py:1619-1637 | a taken reply raises UnboundLocalError if and only if it is the first batch of the run and a held final is waiting |
| RunLoopHandshake.BatchRebuttalRun | pico-legacy-runtime/pico/agent_loop.py:1619-1637 | write, approved final, batch: the run ends in that error |
| RunLoopHandshake.HeldFinalIsBad | pico-legacy-runtime/pico/agent_loop.py:1217-1228 | the turn that holds a final is judged bad |
| RunLoopOutcomes.AlwaysMirrors | pico-legacy-runtime/pico/agent_loop.py:1113-1164 | at the head of the loop every counter and flag is a function of the record: bad turns, reviews, actions since the last periodic review and whether it redirected, talks, repairs, writes |
| RunLoopOutcomes.BeforeTheModel | pico-legacy-runtime/pico/agent_loop.py:1164-1330 | the model is called unless there is a fault, a cap or two rejected finals in a row, in this order, each with its own end; and the turn before is judged bad exactly if it was silent or its tools brought nothing |
| RunLoopOutcomes.FinalExactly | pico-legacy-runtime/pico/agent_loop.py:1870-2015 | a submitted final is accepted at once if nothing was written; else it is rejected exactly on a redirect, and accepted exactly if one was held, one was reviewed before, or the review failed or has a reserved reason |
| RunLoopOutcomes.StalledExactly | pico-legacy-runtime/pico/agent_loop.py:1483-1510 | after three bad turns a reply that is no final, nor plain text of a run that has not written, is refused, and that turn is the last |
| RunLoopOutcomes.TalkAndRetryExactly | pico-legacy-runtime/pico/agent_loop.py:1484-1868 | talk goes on; the first malformed reply of a run is repaired, the second gives up |
| RunLoopOutcomes.ToolsExactly | pico-legacy-runtime/pico/agent_loop.py:1512-1868 | tools run unless they fail; when the sixth action since the last periodic review is reached, the third after a redirect, a review follows, and the loop is left exactly on a second redirect in a row |
| RunLoopOutcomes.GoesOnExactly | pico-legacy-runtime/pico/agent_loop.py:1164 | the run goes on exactly behind a turn that left the loop running, was not the last of a stalled run, and is not the 500th |
| RunLoopOutcomes.RunEndsExactly | pico-legacy-runtime/pico/agent_loop.py:1160-2085 | the end of a run read off its last turn, retry limit against convergence stop included |
| RunLoopOutcomes.ReadOnlyFinalCompletes | pico-legacy-runtime/pico/agent_loop.py:1876-2054 | a run that has written nothing completes with the first final it submits |
| RunFinish.Agent.RunLoopOnce | pico-legacy-runtime/pico/agent_loop.py:1016-1097 | for every way a run ends: its status, its reason, whether the event was sent, and what escapes; the cap and two rejected finals return without an event |
| RunFinish.Agent.Conclude | pico-legacy-runtime/pico/agent_loop.py:2015-2085 | the same for one end, with what may fail between the final status and the event |
| RunFinish.Agent.Finalize | pico-legacy-runtime/pico/run_lifecycle.py:31-58 | the event is sent if and only if the run has not sent it |
| RunFinish.Agent.Settle | agent-orchestrator/src/langgraph_pico/native_runner.py:313-376 | handlers and finally block: which final status each escape leaves, and that the event is sent unless it was |
| RunFinish.Agent.RunNative | agent-orchestrator/src/langgraph_pico/native_runner.py:202-376 | exactly one run_finished event once the provisional state exists; final status, reason and the status of the event for every end of the loop, every failure behind it and every answer of the completion gate; before that state, no event exactly if there is no state or a closed one; and which exceptions leave it |
| Redaction.LargestHeld | local-worker/src/threadforge_worker/runtime.py:518-523 | the scan finds the longest prefix of the secret above the floor that ends the buffer |
| Redaction.Resume | local-worker/src/threadforge_worker/runtime.py:509-528 | for a safe secret, redacting a text and going on from what is held back equals redacting the longer text |
| Redaction.StreamingRefinesRedaction | local-worker/src/threadforge_worker/runtime.py:509-539 | for a safe secret and every chunking the pieces concatenate to the whole-text redaction |
| Redaction.NoAngleIsSafe | pico-legacy-runtime/pico/security.py:80-88 | every secret without the closing angle bracket is safe |
| Redaction.StreamingIsExactlySafe | local-worker/src/threadforge_worker/runtime.py:509-539 | streaming equals whole-text redaction for every chunking if and only if the secret is safe |
| SecretLists.NoAngleIsApart | pico-legacy-runtime/pico/security.py:80-88 | a secret without angle brackets that is no part of the word in the marker can touch no marker |
| SecretLists.MarkersSeparate | pico-legacy-runtime/pico/security.py:80-88 | what stands on the two sides of a marker is redacted as if it stood alone |
| SecretLists.LeftmostFirst | pico-legacy-runtime/pico/security.py:80-88 | replacing the secrets one after the other replaces the leftmost occurrence and goes on behind it |
| SecretLists.ResumeAll | local-worker/src/threadforge_worker/runtime.py:509-529 | whatever follows, redaction resumes from the held tail of the redacted text |
| SecretLists.OpenRunAll | local-worker/src/threadforge_worker/runtime.py:509-529 | after any deltas, shown and held text are the two parts of the whole-text redaction, the held part as long as the secrets ask for |
| SecretLists.ListStreamsExactly | local-worker/src/threadforge_worker/runtime.py:509-539 | for a list of secrets apart from the marker, streaming equals whole-text redaction for every cutting of every text if and only if the list is untangled |
| SecretLists.NothingLeaks | pico-legacy-runtime/pico/security.py:80-88 | the redaction of any text holds no secret anywhere, for secrets apart from the marker |
| SecretLists.NothingLeaksStreaming | local-worker/src/threadforge_worker/runtime.py:509-539 | at no moment does the shown part of a stream hold one |
| StreamParser.WindowMarker | local-worker/src/threadforge_worker/runtime.py:466-488 | the 32-character window loses no marker |
| StreamParser.FirstMarkerExactly | local-worker/src/threadforge_worker/runtime.py:466-488 | the first of the three tags in the text decides |
| StreamParser.ClosedExactly | local-worker/src/threadforge_worker/runtime.py:487-507 | the body is what stands between the first opening tag and the first closing tag behind it |
| StreamParser.FeedTracks | local-worker/src/threadforge_worker/runtime.py:442-507 | after any text the parser state and the text passed on are those of the whole-text reading, one delta further |
| StreamParser.ChunkInvariance | local-worker/src/threadforge_worker/runtime.py:456-507 | for every chunking the text passed on is one function of the text: nothing after a tool or talk marker, else the body up to its closing tag, or all but its last seven characters |
| PlainFinals.PlainFinalsExactly | local-worker/src/threadforge_worker/runtime.py:456-485 | with plain finals allowed, all cuttings of a text show the same if and only if the text never looks plain in the window or is plain throughout |
| PlainFinals.ShownAs | local-worker/src/threadforge_worker/runtime.py:456-507 | which function of the text that is: the reading without plain finals, or the text itself |
| PlainFinals.TextBeforeTag | local-worker/src/threadforge_worker/runtime.py:456-485 | plain text and a tool or talk tag behind it: at once nothing is shown, in separate deltas the text and the tag |
| PlainFinals.OutgrownWindow | local-worker/src/threadforge_worker/runtime.py:473-485 | a text without markers that begins like mark-up: at once nothing is shown, in two deltas all but its beginning |
| StreamHooks.RemoteExecutionHooks.BeforeModel | local-worker/src/threadforge_worker/runtime.py:231-250 | every stream field starts afresh for a model call; what was sent or held stays |
| StreamHooks.RemoteExecutionHooks.ModelTextDelta | local-worker/src/threadforge_worker/runtime.py:442-507 | the reply grows, and exactly what is new in it is sent or held, in pieces, final-flagged in a plain answer; for a regular text reply and destination have received one function of the text since the reset; other stages and a cancelled token change nothing |
| StreamHooks.RemoteExecutionHooks.EmitPublicDelta | local-worker/src/threadforge_worker/runtime.py:509-539 | what one emission shows, holds back and sends |
| StreamHooks.RemoteExecutionHooks.HeldBack | local-worker/src/threadforge_worker/runtime.py:517-523 | the loops over secrets and sizes find what must be held back, never more than the buffer |
| StreamHooks.RemoteExecutionHooks.Send | local-worker/src/threadforge_worker/runtime.py:530-539 | visible text goes out in pieces of 4000, to the candidate while one is active |
| StreamHooks.RemoteExecutionHooks.AfterModel | local-worker/src/threadforge_worker/runtime.py:252-258 | a plain answer is flushed when the call returns: what was held back is shown and sent, and for a regular text the whole redaction of the text has arrived |
| StreamHooks.RemoteExecutionHooks.BeginAnswerCandidate | local-worker/src/threadforge_worker/runtime.py:541-547 | the candidate starts empty and the stream afresh, the reply stays |
| StreamHooks.RemoteExecutionHooks.CommitAnswerCandidate | local-worker/src/threadforge_worker/runtime.py:549-557 | an accepted candidate is sent exactly as held, in order, behind what the reader has, and the stream goes on as it was |
| StreamHooks.RemoteExecutionHooks.DiscardAnswerCandidate | local-worker/src/threadforge_worker/runtime.py:559-564 | a rejected candidate sends nothing and leaves nothing behind but the reply |
| StreamHooks.PiecesJoin | local-worker/src/threadforge_worker/runtime.py:530-531 | the pieces concatenate to the text, each at most 4000 long |
| StreamHooks.PiecesFull | local-worker/src/threadforge_worker/runtime.py:530-531 | all pieces but the last hold exactly 4000 characters |
| StreamHooks.DeliveredArrives | local-worker/src/threadforge_worker/runtime.py:529-539 | visible text arrives whole and in order at the candidate or the reader |
| StreamHooks.ReplyIsOneFunction | local-worker/src/threadforge_worker/runtime.py:442-539 | parser, filter and final flush together: for one safe secret or an untangled list, and a text whose plain reading does not depend on the cutting, what is shown is one function of the text |
| StreamPipeline.PipelineExactly | local-worker/src/threadforge_worker/runtime.py:442-539 | for one secret, or a list apart from the marker, none with an opening angle bracket: what is shown of such texts never depends on the cutting if and only if the secret is safe or the list untangled |
| PromptBudget.TailClip | pico-legacy-runtime/pico/context_manager.py:33-41 | never longer than the limit, and unchanged when it fits |
| PromptBudget.RenderRelevantMemory | pico-legacy-runtime/pico/context_manager.py:265-310 | the loop over the per-note budget computes `RenderRelevant` |
| PromptBudget.RelevantBound | pico-legacy-runtime/pico/context_manager.py:265-310 | the section keeps to a positive budget, or is the 23 characters of the empty one |
| PromptBudget.FirstShareStands | pico-legacy-runtime/pico/context_manager.py:286-294 | the equal share always fits, so the budget per note is never reduced |
| PromptBudget.RenderHistorySection | pico-legacy-runtime/pico/context_manager.py:319-381 | the loop from the newest entry back computes `RenderHistory` |
| PromptBudget.HistoryBound | pico-legacy-runtime/pico/context_manager.py:319-381 | the section keeps to a positive budget, or is the 19 characters of the empty one |
| PromptBudget.KeptFits | pico-legacy-runtime/pico/context_manager.py:343-366 | whatever is kept of the history fits, or nothing is kept |
| PromptBudget.NewestFirst | pico-legacy-runtime/pico/context_manager.py:343-366 | older entries only add lines in front of what the newer ones keep |
| PromptBudget.RequestSurvives | pico-legacy-runtime/pico/context_manager.py:466-476 | the prompt ends with the whole request section, trailing white space aside, whatever the budgets |
| PromptBudget.Build | pico-legacy-runtime/pico/context_manager.py:154-193 | the reduction loop computes `Reduced` and returns the prompt for it |
| PromptContents.PromptIs | pico-legacy-runtime/pico/context_manager.py:466-476 | the prompt is the five sections with one gap between neighbours, less the white space around the whole |
| PromptContents.SectionsStand | pico-legacy-runtime/pico/context_manager.py:466-476 | with a prefix that does not begin in white space each section stands in the prompt as it is shown, in order, at a given position |
| PromptContents.WithinBudgetIsWhole | pico-legacy-runtime/pico/context_manager.py:33-41 | a prefix or memory within its budget is there whole, otherwise all but the end of it |
| PromptContents.NotesFiltered | pico-legacy-runtime/pico/context_manager.py:265-270 | notes of white space are left out, all others stay in order |
| PromptContents.NotesStand | pico-legacy-runtime/pico/context_manager.py:286-310 | with room for a character a note every note has its line: whole if it fits its share, else cut to it |
| PromptContents.HistoryStands | pico-legacy-runtime/pico/context_manager.py:343-381 | history lines that fit altogether are all there, in order |
| PromptContents.OneEntryOlder | pico-legacy-runtime/pico/context_manager.py:343-366 | an older entry in front of what is kept: whole if that fits, cut if that fits, else left out |
| PromptBudget.ReductionEnds | pico-legacy-runtime/pico/context_manager.py:159-193 | the loop ends with a fitting prompt or every section of the order at its floor; budgets only shrink and never below a floor |
| PromptBudget.ReductionFollowsOrder | pico-legacy-runtime/pico/context_manager.py:162-191 | a section has shrunk only if every earlier section of the order is at its floor |
| PromptBudget.OneReduction | pico-legacy-runtime/pico/context_manager.py:159-193 | one turn takes from the first section above its floor the overflow, or what it has above the floor if that is less |
| PromptBudget.PromptFits | pico-legacy-runtime/pico/context_manager.py:159-193 | a request that leaves room for every section at its least, the floor or a smaller budget, always fits, for any order, budgets and floors: at least 23 characters for relevant memory, 16 and four a note without a budget, at least 19 for history, and eight separators |
| PromptBudget.RelevantWithoutBudget | pico-legacy-runtime/pico/context_manager.py:265-310 | without a budget the section takes 16 characters and at most four a note, or the 23 of the empty one |
| PromptBudget.HistoryWithoutBudget | pico-legacy-runtime/pico/context_manager.py:319-381 | without a budget nothing of the history is kept, and the section takes at most 19 characters |
| PromptBudget.DefaultPromptFits | pico-legacy-runtime/pico/context_manager.py:240-246 | with the default budgets the floors are 900, 400, 300 and 1300, and a request up to the total less 2908 fits |
| Download.OneRead | local-worker/src/threadforge_worker/updater.py:321-343 | one read: the file stays what was received less what was lost, a read that goes on made progress, and only an oversized bundle unlinks the file |
| Download.RangeRead | local-worker/src/threadforge_worker/updater.py:321-357 | one range: bytes only accumulate, the file is what was received less what was lost, and a complete range ends at its end |
| Download.RangeTried | local-worker/src/threadforge_worker/updater.py:304-387 | one request: which answers are fatal, and that the partial file keeps what it held |
| Download.AnswersTaken | local-worker/src/threadforge_worker/updater.py:304-425 | only a 206 with the range asked for, or a 200 where that is the whole file, adds bytes; what each other answer leads to |
| Download.Fetched | local-worker/src/threadforge_worker/updater.py:304-417 | the retry loop terminates by missing bytes, then failures; what each result means for digest, size, file and number of requests |
| Download.DownloadInstaller | local-worker/src/threadforge_worker/updater.py:248-417 | early returns, leftovers and the loop in the source's order compute `Downloaded` |
| Download.ReturnedInstaller | local-worker/src/threadforge_worker/updater.py:262-276 | a returned installer has the signed size if and only if every write the call makes reaches the disk whole, then also the signed digest |
| Download.AtomicInstaller | local-worker/src/threadforge_worker/updater.py:262-276 | with atomic writes it always has both, whatever server, connection and leftovers do |
| Download.FailedDownload | local-worker/src/threadforge_worker/updater.py:358-417 | a failure leaves no installer, keeps resumable bytes unless they were wrong, and the server is asked at most five times a missing byte plus five |
| Download.LostWriteIsReturned | local-worker/src/threadforge_worker/updater.py:326-334 | a failed last write is returned as a one-byte installer of a two-byte download |
| DownloadOutcomes.GoodServerReturns | local-worker/src/threadforge_worker/updater.py:248-417 | from a server that serves the ranges asked for exactly the bundle is returned, from nothing or from any front of it |
| DownloadOutcomes.FruitlessExactly | local-worker/src/threadforge_worker/updater.py:304-417 | which answers bring no byte and are retried |
| DownloadOutcomes.GaveUpAfterFive | local-worker/src/threadforge_worker/updater.py:388-412 | giving up means the last five requests were of that kind |
| DownloadOutcomes.FiveMakeItGiveUp | local-worker/src/threadforge_worker/updater.py:388-412 | and five of them in a row make it give up |
| PlanDag.ValidateDag | agent-orchestrator/src/langgraph_pico/planning.py:326-344 | accepts exactly the steps with distinct ids, existing dependencies and a topological order; no step is visited twice, and on acceptance the visits are such an order |
| PlanDag.Visit | agent-orchestrator/src/langgraph_pico/planning.py:333-342 | the worklist loop: what is visited or ready is exactly what has no unvisited dependency |
| PlanDag.Release | agent-orchestrator/src/langgraph_pico/planning.py:338-342 | taking one visited step out of the others' dependencies keeps the worklist |
| PlanDag.Exhausted | agent-orchestrator/src/langgraph_pico/planning.py:343-344 | with nothing ready, all steps are visited if and only if they can be ordered |
| PlanContract.CollectStrings | agent-orchestrator/src/langgraph_pico/planning.py:388-398 | the loop over a list of texts computes `StringList`, with the first failing item's error |
| PlanContract.ValidateSteps | agent-orchestrator/src/langgraph_pico/planning.py:285-323 | the loop over the steps and the dependency check give the steps, or the error of the first failing rule |
| PlanContract.ValidateBudgets | agent-orchestrator/src/langgraph_pico/planning.py:366-385 | the loop over the budget keys computes `BudgetsIn` |
| PlanContract.ParseAndValidatePlan | agent-orchestrator/src/langgraph_pico/planning.py:177-282 | the whole validation, error codes in the source's order |
| PlanIdempotence.AcceptedIsWellFormed | agent-orchestrator/src/langgraph_pico/planning.py:215-282 | an accepted plan has trimmed bounded texts, ordered steps over available tools, a fitting intent, and budgets between floor and maximum that cover its tools |
| PlanIdempotence.WellFormedIsAccepted | agent-orchestrator/src/langgraph_pico/planning.py:177-282 | every well-formed plan is accepted and returned unchanged |
| PlanIdempotence.ValidationIsIdempotent | agent-orchestrator/src/langgraph_pico/planning.py:177-282 | an accepted plan fed back with the same parameters is accepted and returned unchanged |
| PlanIdempotence.AcceptedPlansExactly | agent-orchestrator/src/langgraph_pico/planning.py:177-282 | the plans the validator can return are exactly the well-formed ones |
| PlanNormalForm.CollectedExactly | agent-orchestrator/src/langgraph_pico/planning.py:388-398 | the reading loop accepts exactly lists of proper texts and returns them trimmed, without repetitions, in order |
| PlanNormalForm.StepExactly | agent-orchestrator/src/langgraph_pico/planning.py:296-322 | a raw step is read as exactly its normal form, if that is well-formed and its id is new |
| PlanNormalForm.StepsExactly | agent-orchestrator/src/langgraph_pico/planning.py:285-344 | the same for all steps and their dependencies |
| PlanNormalForm.AcceptedExactly | agent-orchestrator/src/langgraph_pico/planning.py:177-282 | a value is accepted as a plan exactly if it is readable and the plan is its normal form and well-formed; each budget is the least number that is at least the raw one, the floor and what the tools need |
| PlanNormalForm.AcceptedIff | agent-orchestrator/src/langgraph_pico/planning.py:177-282 | so a value is accepted exactly if it is readable and has a well-formed normal form |
| PlanErrors.PlanErrorsInOrder | agent-orchestrator/src/langgraph_pico/planning.py:195-235 | the code of the first rule that is broken, up to the steps |
| PlanErrors.ConclusionErrors | agent-orchestrator/src/langgraph_pico/planning.py:236-272 | and behind them |
| PlanErrors.StepErrors | agent-orchestrator/src/langgraph_pico/planning.py:296-322 | the rules for a step, in order |
| PlanErrors.FirstBadStep | agent-orchestrator/src/langgraph_pico/planning.py:296-322 | the first step that breaks a rule gives the code |
| PlanErrors.BudgetErrors | agent-orchestrator/src/langgraph_pico/planning.py:371-384 | the rules for a budget, in order |
| PlanErrors.FirstBadBudget | agent-orchestrator/src/langgraph_pico/planning.py:371-384 | the first bad budget, by name, gives the code |
| WorkerLifecycle.WorkerClient.BeginUpdate | local-worker/src/threadforge_worker/client.py:113-118 | the section is entered exactly when no task is registered and nobody holds it: the begin step of whoever calls it |
| WorkerLifecycle.WorkerClient.EndUpdate | local-worker/src/threadforge_worker/client.py:120-122 | the end step of the holder |
| WorkerLifecycle.WorkerClient.Register | local-worker/src/threadforge_worker/client.py:902-917 | the arrival step of the interleaving model; rejected exactly if no thread has come to life |
| WorkerLifecycle.WorkerClient.Unregister | local-worker/src/threadforge_worker/client.py:971-974 | the end step of a task thread, which takes only its own registration with it |
| WorkerLifecycle.WorkerClient.RequestUpdate | local-worker/src/threadforge_worker/client.py:737-757 | the request and announcement steps; the section becomes stuck exactly if it was entered and the answer cannot be sent |
| WorkerLifecycle.WorkerClient.RunManualUpdate | local-worker/src/threadforge_worker/client.py:764-776 | the end step of a manual update, whatever the update comes to; afterwards updates may begin |
| WorkerLifecycle.WorkerClient.AutoUpdateTurn | local-worker/src/threadforge_worker/auto_update.py:46-73 | a turn of the loop leaves the section as it found it, whatever happens, and waits the right interval |
| WorkerLifecycle.UpdatesExcludeTasks | local-worker/src/threadforge_worker/client.py:113-122 | in every interleaving no task is registered while the section is held, and exactly one holder has it |
| WorkerLifecycle.OnlyTheHolderReleases | local-worker/src/threadforge_worker/client.py:120-122 | the section is left only by the step of the one who holds it |
| WorkerLifecycle.UpdateOverlapsExactly | local-worker/src/threadforge_worker/client.py:902-974 | from a reached state, some continuation in which no id arrives while it is live ends with an update beside a live task thread if and only if some live thread is not the registered one of its id |
| WorkerLifecycle.DistinctIdsNeverOverlap | local-worker/src/threadforge_worker/client.py:902-974 | so with distinct live ids no update ever runs beside a task |
| WorkerLifecycle.SameIdTwiceOverlaps | local-worker/src/threadforge_worker/client.py:917-974 | two tasks with one id and an update beside the first |
| WorkerLifecycle.FailedAnnouncementIsForever | local-worker/src/threadforge_worker/client.py:747-757 | the section is stuck exactly if an announcement failed after it was entered, and then no task or update ever starts again |
| WorkerLifecycle.AnnouncementCanFail | local-worker/src/threadforge_worker/client.py:747-757 | one request whose answer cannot be sent |
| EventMerge.MergeEvents | client/src/hooks/run-events.ts:29-38 | the two loops over the Map and the sort compute `Merged` |
| EventMerge.DeliveriesConverge | client/src/hooks/run-events.ts:22-38 | any two deliveries of the same consistent events give the same list, strictly ordered, holding exactly those events |
| EventMerge.ReplayChangesNothing | client/src/hooks/run-events.ts:25-38 | replaying delivered events changes nothing |
| EventMerge.ConvergesExactly | client/src/hooks/run-events.ts:29-38 | merging converges for every delivery of a set of events if and only if the set is consistent |
| EventMerge.SortIsStable | client/src/hooks/run-events.ts:37-37 | events with one sequence number keep their order |
| EventMerge.TerminalStatus | client/src/hooks/run-events.ts:75-83 | the backward scan computes the status of the last terminal event |
| EventMerge.TerminalStatusesAre | client/src/hooks/run-events.ts:5-20 | the status of each of the five terminal types |
| EventMerge.StatusIsLatest | client/src/hooks/run-events.ts:71-83 | no status while no terminal event has come, else that of the terminal event with the largest sequence number |

## Left out

- Distinct path strings are taken to name distinct files, and one file write to be a single step; a tool that raises RunCancelled or ProcessCleanupFailed aborts its batch, which is not modelled.
- BatchSerialisability.BatchIsSerialisable: says nothing about what delegated calls observe, because they read the whole workspace through another agent; they are taken to change nothing.
- BatchSerialisability.SerialSearchExactly: is about the whole workspace the search reads; the result of one search may agree by chance where the workspaces differ.
- BatchSerialisability.SerialListingExactly: is about everything a listing can depend on, the set of all paths; a listing of one directory may agree by chance.
- RepeatWindow.InsideReadIsFlagged: requires that the file's ranges in the window can be sorted, since otherwise the check raises.
- RunLoopHandshake.CompletionNeedsTwoReviews: admits failed reviews and reserved reasons, which the source lets pass; `FirstReviewExactly` shows that exception is exact.
- RunFinish.Agent.RunNative: storage and trace calls are taken to succeed, so the persistence-error branches of `finalize_run` and the argument checks before the try block are not modelled.
- PlanContract.ParseAndValidatePlan: starts from the parsed JSON value; the text of a list or object, which Python would also convert, is only kept by its first character.
- The overlap ratio is a real number; the double-precision quotient compares the same way with 0.6 for every line number below two to the power 50.
- Parsing of model replies, the reviewer's decision, planning and replanning calls, the checklist and its done-when commands: they enter the run loop as inputs.
- Trace payloads, timing values, checkpoints, durable memory and prompt wording.
- `_compressed_history_entries` and the JSON text of history items: the history renderer takes the compressed entries and the raw text as given.
- The path of `build` with context reduction switched off, which neither clips nor reduces.
- SecretLists.ListStreamsExactly: is about secrets that cannot touch a marker; where one can, a later secret may change what an earlier one was replaced by, and only the case of a single secret is settled (`StreamingIsExactlySafe`).
- StreamPipeline.PipelineExactly: leaves out secrets with an opening angle bracket, since one that holds the closing tag never comes to the filter whole.
- StreamHooks.RemoteExecutionHooks.ModelTextDelta: heartbeats and the audit events of a model call are not modelled, nor the event ids.
- WorkerLifecycle.WorkerClient.RequestUpdate: as a method it runs with no other thread between its two steps; `UpdatesExcludeTasks` and the lemmas after it are about every interleaving of the steps.
- Worker uninstall, cancellation and reconnection, and the cool-down after a failed manual update.
- `mergeRunIndex`: its comparator is not an order.
