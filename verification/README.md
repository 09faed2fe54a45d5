# Kronn: token accounting and the ACP host, modelled in Dafny

Kronn is a control plane for coding agents. This project models the parts of its
backend that keep accounts and speak protocols, and proves what they promise.

| files | models |
|---|---|
| `Common.dfy`, `Windows.dfy`, `Gaps.dfy` | sums, rounded percentages, UTC windows, gap messages |
| `Claude.dfy`, `Codex.dfy`, `Providers.dfy`, `Rtk.dfy` | the five telemetry collectors of the token-economics report |
| `Report.dfy`, `Validation.dfy`, `Assembly.dfy` | null reasons, gaps and links, the report validator, report assembly |
| `Shapes.dfy`, `Pipeline.dfy` | what the collectors guarantee, and when a report passes its own validator |
| `JsonRpc.dfy`, `PromptTurn.dfy`, `Lifecycle.dfy`, `Config.dfy` | the ACP JSON-RPC host: request matching, one prompt turn, ownership of the drain task, model selection |
| `Transcripts.dfy`, `VibeSessions.dfy`, `Backfill.dfy` | incremental transcript accounting and its backfill |
| `Lint.dfy`, `ReviewCost.dfy`, `Percentiles.dfy`, `Rfc3339.dfy` | the raw-command lint, review-cost accounting, percentiles, the timestamp recogniser |

`dafny verify dfyconfig.toml` checks everything.

## Main results

- **A report passes its own validator exactly when it should.** The collectors and
  the 400-line validator were written as independent rules. `Pipeline.Run` collects,
  assembles and validates; for every telemetry and every valid window it succeeds if and
  only if eight conditions on the collected results hold
  (`Pipeline.BuildReportSucceedsExactly`):
  the completed-task count is not negative; the scenario label is readable (not empty,
  and not omitted beside a failure text that quotes the marker of a dropped label); no
  unavailable source is explained by a text that reads as a granularity problem; an RTK
  result is not over an empty window at midnight; no top share rounded to 0, which over
  exact rationals takes at least 20000 sessions; Codex reports no more sessions than
  rollouts; the Copilot aggregate is consistent (reasoning within output, days within
  calls, calls wherever there is traffic, a span inside the window); and the Kronn traced
  share is the one its untraced replies leave. `Pipeline.TrustworthySourcesAreConsistent`
  derives the last three from what the sources promise.
- **Codex counters.** Window deltas telescope, up to the metrics of a directory whose
  rollouts are each alone in their thread (`Codex.MetricsTelescope`). When root counters
  never fall, an accepted result has at least as many rollouts as sessions even if forks
  only replay their parent
  (`Codex.RolloutsCoverSessions`); `Codex.UncoveredExactly` is the exact condition on a
  thread, without that hypothesis.
- **Claude calls** are counted once across disjoint windows, whatever the order and
  duplication of the streamed records.
- **ACP requests.** Over every interleaving, ids are fresh, outcomes are final, a
  response reaches only its request, and a missing session is only reported when the
  runtime named it. `JsonRpc.PendingExactly` says for every run which entries are pending;
  completed requests leave none.
- **A prompt turn** forwards exactly a prefix of the published frames in order,
  announces completion exactly when it returns Ok, and loses a frame read before the
  response exactly when its receiver was overrun (`PromptTurn.LostExactly`).
- **The drain task** is never detached, whatever is cancelled or dropped.
- **Exactly-once transcript accounting** over every schedule of appends and polls, and
  a backfill that counts a shared conversation once and never rewinds a cursor.
  `Backfill.PlannedRowMatchesExactly` says when a written row describes its own cursor.

## Where the code falls short of its own description

Each of these is proved by a concrete input, and where the exact condition under which
the code meets the property is known it is proved beside it.

- `Lint`: the documentation promises that any form requiring `test` marks an item. The
  entry parser stops at the first entry its callback leaves unread, so
  `all(feature = "x", test)` does not mark one (`Lint.TestAfterAssignmentIsMissed`).
  `Lint.RequiredIsMarkedExactly` says which of the attributes that no build without
  `test` satisfies do.
- `PromptTurn`: a lag met in the final drain ends it like an empty buffer
  (`PromptTurn.LagInDrainIsSilent`). Over every run that returns Ok, a frame read before
  the response is lost exactly when the receiver once was more than the buffer behind
  without having read it (`PromptTurn.LostExactly`).
- `JsonRpc`: a request future dropped while it waits can leave its pending entry behind
  (`JsonRpc.DroppedRequestStaysPending`); `JsonRpc.DroppedRequestLeavesEntryExactly` says
  exactly when.
- `Codex`: a root counter that falls lets a session be reported without a rollout, which
  the validator then rejects (`Codex.FallingRootIsReported`, `Pipeline.FallingRootRejected`);
  `Codex.UncoveredExactly` is the condition.
- `Kronn`: rows that share a key after the `unknown` fallback overwrite each other
  (`Pipeline.CollidingNamesRejected`); `Kronn.UntracedPartition` says exactly when a count
  is lost.
- `Backfill`: a stored cursor past the plan is kept while the totals are overwritten, so
  the responses in between are in no total and below every later cursor
  (`Backfill.PassedCursorLosesAResponse`); one past the end of a transcript that was
  replaced is kept for good (`Backfill.CursorPastTheEndIsKept`).
  `Backfill.PlannedRowMatchesExactly` covers every stored cursor.
- `Rfc3339`: the recogniser checks shape, not the calendar (`Rfc3339.AcceptsMonth99`).

## Modelling conventions

Instants are integers of microseconds. Percentages are exact: the share in hundredths
of a percent, rounded half to even. Input files are sequences of already decoded
records; decoding one transcript line is an uninterpreted function. Reports are typed
records, with a tree view for the walk over nulls. Failure texts are a datatype that
keeps the phrases the code looks for. Concurrent code is a set of interleaved atomic
steps between awaits; loops and objects that mutate state are methods and classes
proved against functions of the same inputs.

## Model

| member | source | states |
|---|---|---|
| Windows.FullUtcDays | backend/scripts/token_economics.py:912-920 | the loop returns the list of full days |
| Windows.FullDaysExact | backend/scripts/token_economics.py:912-920 | those are exactly the UTC days wholly inside the window, ascending, none twice |
| Windows.FullDaysSplit | backend/scripts/token_economics.py:912-920 | cutting a window at a UTC midnight cuts its list of full days in two |
| Windows.MidnightWindowHasDays | backend/scripts/token_economics.py:1002-1014 | a window between two midnights, which is called complete, has no full day exactly when it is empty |
| Percent.ShareRoundsToZero | backend/scripts/token_economics.py:121-124 | over exact rationals, a share rounds to 0 exactly when part times 20000 is at most the whole |
| Percent.ShareMonotone | backend/scripts/token_economics.py:121-124 | a larger part never has a smaller rounded share |
| Percent.ShareAtMostWhole | backend/scripts/token_economics.py:121-124 | a part within the whole has a share between 0 and 100 |
| Sums.SortValues | backend/scripts/token_economics.py:382 | ranking a dictionary keeps its values with their multiplicities, their sum and their number, largest first |
| Claude.CanonicalSummarises | backend/scripts/token_economics.py:311-332 | the kept record of a call has the earliest instant, one observed usage vector of maximal total and the union of the tools, whatever the order of reading |
| Claude.OrderAndDuplicatesIrrelevant | backend/scripts/token_economics.py:311-371 | calls, raw traffic, wait calls and wait tokens are unchanged by permuting or duplicating records |
| Claude.CountedExactlyWhereItStarts | backend/scripts/token_economics.py:281-283 | a call is counted in a window exactly when the window holds its earliest accepted instant |
| Claude.CountedAtMostOnce | backend/scripts/token_economics.py:343-346 | no call is counted in two disjoint windows |
| Claude.WiderCountsMore | backend/scripts/token_economics.py:328-346 | a wider window counts every call of a narrower one, with at least as much usage |
| Claude.DisjointWindowsSumWithin | backend/scripts/token_economics.py:343-381 | the raw totals of disjoint windows sum to at most the raw total of any window holding them |
| Claude.PartitionsOfRaw | backend/scripts/token_economics.py:356-399 | the four columns and the per-session totals both sum to raw traffic, and there are at most as many sessions as calls |
| Claude.ReadObject | backend/scripts/token_economics.py:272-332 | each branch on one decoded object: refused, outside the window, opened or merged |
| Claude.Scan | backend/scripts/token_economics.py:263-332 | the scan computes the canonical table, the unreadable files, the invalid lines in the window and whether a record was malformed |
| Claude.CountWindow | backend/scripts/token_economics.py:334-371 | the counting loop computes every tally of the calls in the window |
| Claude.Summarise | backend/scripts/token_economics.py:381-399 | the metrics are those tallies, with shares of the ranked sessions |
| Claude.Collect | backend/scripts/token_economics.py:253-415 | the result is described by the transcripts, the window and the filter: unavailable or measured, with its gaps |
| Codex.UsageVector | backend/scripts/token_economics.py:439-451 | an accepted vector is coherent: cached within input, reasoning within output |
| Codex.DeltaCoherent | backend/scripts/token_economics.py:460-476 | an accepted delta is coherent, added to its start gives its end, and is all zero when its total is |
| Codex.DeltasCompose | backend/scripts/token_economics.py:460-476 | two accepted consecutive deltas compose to the accepted delta of the whole |
| Codex.ContributionsTelescope | backend/scripts/token_economics.py:586-595 | for a single-root thread and two successive windows with no snapshot between them, if both are accepted the spanning window is and its vector is their sum |
| Codex.FileTelescopes | backend/scripts/token_economics.py:512-608 | the same law from the events of one rollout file |
| Codex.MetricsTelescope | backend/scripts/token_economics.py:479-728 | over a directory whose self-rooted, timestamped rollouts are each alone in their thread, if two successive windows with no snapshot between them are measured then the spanning window is, and each usage column of its metrics is the sum of theirs |
| Codex.DirectoryTotals | backend/scripts/token_economics.py:621-702 | such a directory is accepted exactly when every file’s ancestry is proven, and its columns are the sums over the files |
| Codex.SortedBoundary | backend/scripts/token_economics.py:623-627 | the last element of the stably sorted snapshots before an instant is the latest snapshot, later records winning ties |
| Codex.ReplayImpliesActiveRoot | backend/scripts/token_economics.py:644-675 | if a fork only replays (zero activity, positive thread delta), some root rollout is itself active |
| Codex.UncoveredExactly | backend/scripts/token_economics.py:644-681 | a thread is reported without an active rollout if and only if every judged rollout ends the window at its baseline (its own past, the root’s past, or the root when the fork began) and some one of them is a fork without an own past whose root rose from the window’s start to the fork’s first snapshot |
| Codex.UncoveredByCounters | backend/scripts/token_economics.py:634-681 | for a thread of proven ancestry the same in terms of the rollouts’ snapshots alone |
| Codex.ActiveRolloutOfThread | backend/scripts/token_economics.py:634-681 | a coherent thread with a reported delta has an active rollout when its root counters never fall |
| Codex.RolloutsCoverSessions | backend/scripts/token_economics.py:621-714 | when no root counter falls, an accepted result has at least as many rollouts as sessions |
| Codex.CoveredThreadsCoverSessions | backend/scripts/token_economics.py:677-714 | rollouts fall below sessions only when some thread is in that state |
| Codex.FallingRootLosesItsRollouts | backend/scripts/token_economics.py:644-675 | two rollouts with a falling root counter form a coherent thread with a delta and no active rollout |
| Codex.FallingRootIsReported | backend/scripts/token_economics.py:479-728 | two rollout files whose root counter falls are collected as 1 session, 0 rollouts and 20 raw tokens |
| Codex.DeltasCoherent | backend/scripts/token_economics.py:667-681 | every reported thread delta is coherent and of positive total |
| Codex.ColumnsBounded | backend/scripts/token_economics.py:699-713 | summed cached stays within input, reasoning within output, and sessions within traffic |
| Codex.ReadFile | backend/scripts/token_economics.py:513-608 | the event loop of one file yields the rollout its records describe, or none |
| Codex.RootHistory | backend/scripts/token_economics.py:622-633 | the sorted root snapshots and the earliest root session start |
| Codex.JudgeRollout | backend/scripts/token_economics.py:637-675 | each branch of the ancestry decision: own past, root past, root start, timestamped ancestor, or incoherent |
| Codex.JudgeThread | backend/scripts/token_economics.py:634-681 | one thread is incoherent, silent or gives its delta of largest total, with its number of active rollouts |
| Codex.Collect | backend/scripts/token_economics.py:479-728 | the result is described by the files and the window; unproven ancestry in any thread makes it unavailable |
| Kronn.Collect | backend/scripts/token_economics.py:847-898 | the row loop rejects malformed counts and otherwise reports the totals and the dictionary of untraced replies |
| Kronn.UntracedPartition | backend/scripts/token_economics.py:880-895 | traced and untraced replies partition the replies exactly when no row that shares its key with a later one has untraced replies |
| Rtk.ReadRows | backend/scripts/token_economics.py:957-988 | the row loop fails exactly on a malformed row or a repeated included day, and otherwise builds the table of included days |
| Rtk.SumDays | backend/scripts/token_economics.py:990-997 | the summing loop adds up the included days and finds the first and last that have a row |
| Rtk.Collect | backend/scripts/token_economics.py:923-1023 | each failure of the probe and each readable payload gives the described result |
| Rtk.OrderIrrelevant | backend/scripts/token_economics.py:957-1014 | two payloads with the same rows in another order give the same metrics |
| Rtk.TotalsSplitAtMidnight | backend/scripts/token_economics.py:990-997 | splitting a window at a UTC midnight splits the totals exactly |
| Rtk.MeasuredArithmetic | backend/scripts/token_economics.py:979-997 | summed compacted and saved tokens stay within the raw ones |
| Trees.WalkYieldsNullLeaves | backend/scripts/token_economics.py:1031-1040 | the walk yields exactly the paths that lead to a null |
| Reports.BuildNullReasons | backend/scripts/token_economics.py:1094-1101 | succeeds exactly when every null has a reason contract, and gives each null its reason |
| Reports.BuildStructuredGaps | backend/scripts/token_economics.py:1142-1180 | the gap list: every message of every source, a filler for a silent unavailable one, then the report and KPI gaps, numbered from 1 |
| Reports.BuildNullGapLinks | backend/scripts/token_economics.py:1183-1202 | succeeds exactly when every unavailable null has a gap of its source and reason, and links it to the first |
| Validation.ValidateReport | backend/scripts/token_economics.py:1284-1711 | reports no error exactly for acceptable reports |
| Validation.CheckClaude | backend/scripts/token_economics.py:1400-1479 | no new error exactly when the Claude section keeps the counter, coverage, arithmetic and share rules |
| Validation.CheckCodex | backend/scripts/token_economics.py:1480-1501 | no new error exactly when the Codex section keeps its rules |
| Validation.CheckRtk | backend/scripts/token_economics.py:1582-1617 | no new error exactly when the RTK section keeps its rules |
| Validation.CheckReasons | backend/scripts/token_economics.py:1651-1683 | no new error exactly when the reasons cover the nulls and agree with the reasons the validator derives for itself |
| Validation.CheckLinks | backend/scripts/token_economics.py:1685-1708 | no new error exactly when the links cover the nulls that need one and each resolves to a gap of the same source and code |
| Assembly.BuildReport | backend/scripts/token_economics.py:1205-1281 | builds a report exactly when the inputs can succeed; the report is the annotated body and is acceptable |
| Assembly.AnnotationUnique | backend/scripts/token_economics.py:1268-1279 | the reasons and links of a report are determined by the inputs |
| Shapes.ClaudeHasShape | backend/scripts/token_economics.py:253-415 | every described Claude result has the shape the validator expects, up to a share rounded to 0 |
| Shapes.CodexHasShape | backend/scripts/token_economics.py:479-728 | likewise for Codex, for every file set |
| Shapes.CopilotHasShape | backend/scripts/token_economics.py:753-830 | likewise for Copilot, for every query outcome |
| Shapes.KronnHasShape | backend/scripts/token_economics.py:847-896 | likewise for Kronn, for every query outcome |
| Shapes.RtkHasShape | backend/scripts/token_economics.py:923-1023 | likewise for RTK |
| Shapes.MonotoneRootsCover | backend/scripts/token_economics.py:621-714 | from root counters that never fall, a Codex result has no more sessions than rollouts |
| Shapes.PlausibleIsConsistent | backend/scripts/token_economics.py:753-830 | from a plausible aggregate row, a Copilot result keeps the arithmetic the validator checks |
| Shapes.CompleteRowsAgree | backend/scripts/token_economics.py:880-895 | from rows that lose no count to a shared key, the traced share of a Kronn result is the one its untraced replies leave |
| Shapes.TopShareVisible | backend/scripts/token_economics.py:382-394 | with fewer than 20000 sessions the largest share never rounds to 0 |
| Pipeline.BuildReportSucceedsExactly | backend/scripts/token_economics.py:1205-1281 | for all results of the shapes every collector returns, a report is built and validated if and only if the eight checks of `Assemblable` hold, all readable off the five results beforehand |
| Pipeline.BareMachineReports | backend/scripts/token_economics.py:1205-1281 | for every valid window and usable label, a machine with no source installed still gets a report its validator accepts |
| Pipeline.EveryNullExplained | backend/scripts/token_economics.py:1043-1105 | every null of a shaped report has exactly one reason of the vocabulary |
| Pipeline.EveryNullLinked | backend/scripts/token_economics.py:1183-1202 | every null that needs one has a gap of its source and reason, unless a failure text reads as a granularity problem or the midnight window is empty |
| Pipeline.CannotLink | backend/scripts/token_economics.py:1183-1202 | in those cases some null cannot be linked and assembling raises |
| Pipeline.AnnotatedAcceptable | backend/scripts/token_economics.py:1284-1711 | an annotated report of shaped results passes the validator exactly when the label is readable, no top share is 0 and the Codex, Copilot and Kronn figures are consistent |
| Pipeline.UnreadableLabelRejected | backend/scripts/token_economics.py:1663-1680 | an empty scenario, or an omitted one beside a text quoting the marker, is rejected by the validator’s own guess |
| Pipeline.ClaudeShareVisible | backend/scripts/token_economics.py:382-395 | fewer than 20000 sessions keep Claude’s top share above 0 |
| Pipeline.CodexShareVisible | backend/scripts/token_economics.py:703-715 | fewer than 20000 sessions keep Codex’s top share above 0 |
| Pipeline.Run | backend/scripts/token_economics.py:1802-1835 | for every telemetry, collecting, assembling and validating yields an acceptable report exactly when the collected results meet those eight checks |
| Pipeline.TrustworthySourcesAreConsistent | backend/scripts/token_economics.py:1480-1581 | root counters that never fall, a plausible Copilot row and distinct Kronn keys discharge the three consistency checks |
| Pipeline.FallingRootRejected | backend/scripts/token_economics.py:1493 | no report is built over a Codex directory holding the two files with a falling root counter |
| Pipeline.CollidingNamesRejected | backend/scripts/token_economics.py:887-889 | an unnamed agent and one named unknown share a key, and the validator rejects the result |
| JsonRpc.TrimmedExactly | backend/src/acp.rs:1241-1248 | an id passes the whitespace test exactly when neither end is a space |
| JsonRpc.NamesAtMostOne | backend/src/acp.rs:1234-1253 | an error promoted for one requested session is never promoted for another |
| JsonRpc.Transport.TakeId | backend/src/acp.rs:1152 | the id taken is ahead of every id used before and behind every later one, no entry or answer has it, and a frame that answers it now is ignored |
| JsonRpc.Transport.Register | backend/src/acp.rs:1153-1168 | the new entry makes its response heard, displaces no other entry and keeps the table valid |
| JsonRpc.Transport.Resolve | backend/src/acp.rs:1128-1139 | a response removes its entry and fills its channel with the classified outcome, so that a second response to the id is ignored; an unknown id changes nothing |
| JsonRpc.Transport.FailPending | backend/src/acp.rs:1255-1262 | the loop empties the table, fails every waiter and touches no answer already given |
| JsonRpc.Transport.Forget | backend/src/acp.rs:1181-1183 | a request that gave up leaves no entry: a late response to it changes nothing, and the other entries stay |
| JsonRpc.StepKeepsInvariant | backend/src/acp.rs:1075-1185 | every interleaved step of requests, frames, timeouts, cancellation and dispatcher exit keeps the protocol invariant |
| JsonRpc.IdsAreFresh | backend/src/acp.rs:1151-1168 | in every reachable state a new id is neither in use nor pending, and registering overwrites no entry |
| JsonRpc.OutcomeIsFinal | backend/src/acp.rs:1170-1185 | once a request has its outcome no later step changes it |
| JsonRpc.ResponseReachesItsRequestOnly | backend/src/acp.rs:1128-1139 | a response resolves exactly the pending request with its id and touches no other (section 5 of JSON-RPC 2.0) |
| JsonRpc.NeverDisconnected | backend/src/acp.rs:1174-1177 | in every reachable state a waiting request is pending or answered, so its channel is never found closed |
| JsonRpc.SessionNotFoundIsProven | backend/src/acp.rs:1234-1253 | a missing session is only reported to an OpenCode session/resume whose own response named that exact id |
| JsonRpc.AnswerComesFromItsResponse | backend/src/acp.rs:1128-1139 | a result handed to a caller was read in a response to its own id |
| JsonRpc.CompletedRequestsLeaveNothing | backend/src/acp.rs:1158-1184 | once every request future has completed, the pending table is empty |
| JsonRpc.PendingExactly | backend/src/acp.rs:1128-1184 | over every run an id is pending if and only if its request was registered, or pending before, and since then no response to it was read, no cleanup of it ran and the output did not end |
| JsonRpc.EmptyExactly | backend/src/acp.rs:1128-1184 | the pending table is empty if and only if no id of the run is outstanding in that sense |
| JsonRpc.DroppedRequestLeavesEntryExactly | backend/src/acp.rs:1170-1184 | a future dropped while it waits leaves its entry behind if and only if it had been registered and neither its response nor the end of the output came after |
| JsonRpc.DroppedRequestStaysPending | backend/src/acp.rs:1170-1184 | a reachable state where this has happened |
| JsonRpc.ReachableTableIsValid | backend/src/acp.rs:1075-1185 | the table is valid in every reachable state: ids are below the counter, and none is both pending and answered |
| PromptTurn.DeriveSaysContent | backend/src/acp.rs:1453-1553 | a frame yields text only from an answer chunk addressed to this session, and never the turn’s own markers |
| PromptTurn.StepKeepsInvariant | backend/src/acp.rs:1758-1810 | publishing, forwarding, lagging, taking the response and draining keep the account of what was sent |
| PromptTurn.ReturnedTurnForwards | backend/src/acp.rs:1768-1788 | a turn that returns Ok has forwarded in wire order the events of the first frames, then usage, then Completed; those frames cover all read before the response unless a lag ended the drain |
| PromptTurn.CompletedExactlyOnOk | backend/src/acp.rs:1768-1810 | Completed is sent exactly when the turn returns Ok, once and last |
| PromptTurn.BehindIsStuck | backend/src/acp.rs:1768-1803 | from a receiver more than the buffer behind, every run leaves the position where it is and forwards nothing more: a turn that ends has failed, or has returned Ok with only the closing events added |
| PromptTurn.LostExactly | backend/src/acp.rs:1758-1790 | over every run that returns Ok, a frame read before the response is not forwarded if and only if at some moment the receiver was more than the buffer behind without having read it |
| PromptTurn.ForwardsAllExactly | backend/src/acp.rs:1758-1790 | an Ok turn has forwarded every frame read before the response if and only if that never happened to the last of them |
| PromptTurn.PromptReceiverMissesNothing | backend/src/acp.rs:1758-1790 | on every run whose receiver never falls more than the buffer behind, an Ok turn has forwarded every frame read before the response |
| PromptTurn.LagInDrainIsSilent | backend/src/acp.rs:1771-1775 | a reachable turn that returns Ok having forwarded none of 257 frames read before its response |
| Lifecycle.StepKeepsInvariant | backend/src/acp.rs:700-778 | every step of the drain, of shutdown calls and of their cancellation keeps the ownership invariant |
| Lifecycle.TheDrainIsNeverDetached | backend/src/acp.rs:700-778 | in every reachable state the drain has ended, was aborted or is still owned; the child is reaped and the drain joined at most once |
| Lifecycle.DroppedTransportStopsTheDrain | backend/src/acp.rs:758-778 | a dropped transport leaves no running child and no drain that nobody asked to stop |
| Lifecycle.ReturnedShutdownStopsTheDrain | backend/src/acp.rs:1818-1852 | after any shutdown call returned no child is left and the drain has ended or was asked to |
| Lifecycle.UncancelledShutdownJoins | backend/src/acp.rs:1818-1852 | without cancellation a returned shutdown has joined the drain exactly once |
| ConfigValues.Collector.Collect | backend/src/acp.rs:446-470 | the recursion over groups appends exactly the first occurrences of the depth-first value leaves |
| ConfigValues.FirstOccurrencesPick | backend/src/acp.rs:446-470 | the kept values are the leaves at the first positions of their ids, so order is kept and the first name wins |
| ConfigValues.PositionsAreTheFirstOnes | backend/src/acp.rs:446-470 | those positions are ascending and are all the first positions |
| ConfigValues.KeptIdsAreDistinct | backend/src/acp.rs:453-457 | no id is kept twice |
| ConfigValues.ParseConfigOptions | backend/src/acp.rs:393-438 | options without a usable id are skipped; the others carry their current value and collected values |
| ConfigValues.ParsedOptionsAreUsable | backend/src/acp.rs:393-438 | every parsed option has a non-blank id and offers each value once |
| ConfigValues.Session.SetConfigOption | backend/src/acp.rs:1690-1721 | an echoed option set replaces the stored one; otherwise the first option with the id takes the value; an error changes nothing |
| ConfigValues.Session.SelectModel | backend/src/acp.rs:1918-1940 | a model is applied exactly when some option offers it and the runtime accepts; the choice is the first offer in search order |
| ConfigValues.CatalogueComesFirst | backend/src/acp.rs:1924-1938 | an option outside the model catalogue is chosen only when the catalogue does not offer the model |
| Transcripts.CollectClaude | backend/scripts/cli_token_collector.py:98-198 | the report covers exactly the complete lines after the offset, or refuses a file that shrank |
| Transcripts.ReadFrom | backend/scripts/cli_token_collector.py:132-177 | the line loop: totals, cursor, and a timeline capped at its first 500 stamped responses |
| Transcripts.CompletePart | backend/scripts/cli_token_collector.py:134-137 | the complete lines end at a newline and no newline follows them |
| Transcripts.LinesUpToCursor | backend/scripts/cli_token_collector.py:134-137 | the lines before the new cursor are those before the old one and those read now |
| Transcripts.EveryScheduleIsExact | backend/scripts/cli_token_collector.py:98-198 | for every schedule of appends, half lines included, and polls, the totals are those of the complete lines before the cursor, which is a line boundary |
| Transcripts.FinalPollIsOneReading | backend/scripts/cli_token_collector.py:98-198 | a final poll leaves the totals and the cursor of one reading from offset 0 |
| Transcripts.PollAddsTheReport | backend/scripts/cli_token_collector.py:179-198 | a poll step is adding the report of one collection |
| Transcripts.ModelsCountResponses | backend/scripts/cli_token_collector.py:163-165 | the responses counted per model sum to the measured responses |
| VibeSessions.Resolve | backend/scripts/cli_token_collector.py:228-294 | a session is adopted exactly when one candidate was touched the given gap after every other |
| VibeSessions.TopDecides | backend/scripts/cli_token_collector.py:275-278 | comparing the two newest candidates decides for all of them |
| Backfill.Owners | backend/scripts/telemetry_backfill.py:82-86 | the registered owner of each conversation is its first backfillable session |
| Backfill.Plan | backend/scripts/telemetry_backfill.py:88-134 | each row is measured or skipped, in order, with the item or the reason the rules give |
| Backfill.EverySessionOnce | backend/scripts/telemetry_backfill.py:88-134 | every session row lands in exactly one of the two lists |
| Backfill.PlanCountsEachConversationOnce | backend/scripts/telemetry_backfill.py:71-134 | each counter of the plan sums to its sum over the distinct conversations with a transcript, however many rooms share one |
| Backfill.ConversationsMore | backend/scripts/telemetry_backfill.py:82-110 | a further row brings in a conversation exactly when it owns it and its transcript exists |
| Backfill.SessionsComeFromRows | backend/scripts/telemetry_backfill.py:117-132 | the items name distinct sessions of the table |
| Backfill.Database.Apply | backend/scripts/telemetry_backfill.py:137-184 | the loop writes the upsert of every item |
| Backfill.NeverRewinds | backend/scripts/telemetry_backfill.py:151-166 | no telemetry row disappears, no read offset is lowered, and a known window start, the vendor and its cost are kept |
| Backfill.PlannedRowIsWritten | backend/scripts/telemetry_backfill.py:151-166 | the row of a planned session holds the item’s totals and the further of the two cursors |
| Backfill.PlannedRowMatchesExactly | backend/scripts/telemetry_backfill.py:137-166 | a written row’s counters are those of the lines before its own cursor if and only if the session had no row, its cursor had not passed the plan’s, or lies within the transcript with no complete response between the two |
| Backfill.PassedCursorLosesAResponse | backend/scripts/telemetry_backfill.py:151-166 | for every line with a response read between planning and writing, the written row counts nothing and keeps the cursor behind that line |
| Backfill.CursorPastTheEndIsKept | backend/scripts/telemetry_backfill.py:151-166 | a stored cursor past the end of a transcript that shrank survives the backfill |
| Backfill.ApplyTwice | backend/scripts/telemetry_backfill.py:151-166 | applying a plan again changes nothing but the time of the update |
| Lint.ReadAttribute | backend/examples/lint-no-raw-command.rs:59-80 | the flag-setting reader computes whether an entry reached by the parser names test |
| Lint.BareWordsNameTest | backend/examples/lint-no-raw-command.rs:66-76 | over bare words, any and all mark the item exactly when test is among them |
| Lint.NamesTestExactly | backend/examples/lint-no-raw-command.rs:69-76 | inside any or all an entry named test is seen exactly when all before it are bare words |
| Lint.RequiredIsMarkedExactly | backend/examples/lint-no-raw-command.rs:53-80 | an item that no build without test compiles is marked if and only if its cfg is the word test, an any that opens with a bare word, or an all where only bare words come before an entry named test |
| Lint.AllRequiresExactly | backend/examples/lint-no-raw-command.rs:53-80 | all over words and assignments requires test exactly when it lists the word |
| Lint.AllMissedExactly | backend/examples/lint-no-raw-command.rs:53-80 | such an all that requires test is missed if and only if an assignment comes before every entry named test |
| Lint.TestAfterAssignmentIsMissed | backend/examples/lint-no-raw-command.rs:53-80 | all(feature = "x", test) requires test and is missed; any with the same entries is missed too, and seen the other way round |
| Lint.Linter.Visit | backend/examples/lint-no-raw-command.rs:117-167 | each visit adds the violations of its subtree and restores the depth |
| Lint.LintFile | backend/examples/lint-no-raw-command.rs:184-208 | the lint reports the calls ending in Command::new with no test-marked item on the path to them, in visiting order |
| Lint.CountedIsInTest | backend/examples/lint-no-raw-command.rs:132-160 | the depth is zero exactly outside every marked item |
| Lint.ReportedExactly | backend/examples/lint-no-raw-command.rs:159-166 | a violation is reported if and only if some such call gives it |
| Lint.MarkedSubtreeIsExempt | backend/examples/lint-no-raw-command.rs:132-160 | nothing inside a marked item is reported |
| ReviewCost.Measure | backend/scripts/rereview_benchmark.py:52-91 | the loop computes bytes, passes, cold cost, and by file and by line bucket the distinct and the repeated mentions; its warm cost telescopes to the sum over authors of the offset of their last pass |
| ReviewCost.OffsetsAreOfLastPasses | backend/scripts/rereview_benchmark.py:61-73 | an author’s offset is the bytes before their last pass; an author without a pass has none |
| ReviewCost.WarmIsAtMostCold | backend/scripts/rereview_benchmark.py:60-78 | warm is at most cold, cold at most passes times bytes, warm at most authors times bytes |
| ReviewCost.FirstPassesCostTheSame | backend/scripts/rereview_benchmark.py:55-58 | when every author passes at most once, warm equals cold |
| ReviewCost.MentionsCountedTwice | backend/scripts/rereview_benchmark.py:74-88 | mentions summed over files equal the distinct files summed over passes |
| ReviewCost.MentionsAreThePasses | backend/scripts/rereview_benchmark.py:74-88 | a file or line bucket is recorded for exactly the passes that name it |
| Percentiles.PercentileHasItsRank | backend/scripts/token_economics_ab.py:220-225 | the percentile is a sample value with at least r values up to it and fewer than r below it |
| Percentiles.PercentileIgnoresOrder | backend/scripts/token_economics_ab.py:220-225 | it is the same for every permutation of the sample |
| Rfc3339.AcceptsExactlyTheShape | backend/src/delivery.rs:424-462 | a UTF-8 string is accepted exactly when it has the digit shape, with a fraction of any length |
| Rfc3339.AcceptsEveryDateTime | backend/src/delivery.rs:424-462 | every date-time of section 5.6 of RFC 3339 is accepted |
| Rfc3339.AcceptedIsDateTimeExactly | backend/src/delivery.rs:424-462 | an accepted string is a date-time exactly when its fields are in range and its fraction is not empty |
| Rfc3339.AcceptsMonth99 | backend/src/delivery.rs:421-452 | month 99 with an empty fraction is accepted |
| Rfc3339.AsciiEndsACharacter | backend/src/delivery.rs:444-450 | in UTF-8 the position after an ASCII byte is a character boundary, so no slice panics |

## Left out

- SQL queries, file discovery, subprocesses, JSON and timestamp parsing, and hashing: their decoded results are inputs, and an unparsable rollout-path date, on which the code raises, cannot be expressed.
- Percent.ShareRoundsToZero: percentages are exact rationals rounded to hundredths; in floats the tie 0.005 rounds to 0.01, so one session in exactly 20000 is still visible there. `pct * n` in the percentile is exact too.
- Validation.ValidateReport: leaves out the checks of types, key sets and constant fields (schema version, provenance, notes, granularity), which a typed report cannot violate.
- Validator error texts: an error is a section and a kind, and several texts of one check share one; the claims are about when there is none.
- Validation.CheckRtk: a compacted count that is null beside a measured raw count is an error here; the validator compares it with null and raises.
- Dotted path strings: a null path is the list of its segments.
- Codex.RolloutsCoverSessions: goes one way; the exact condition is per thread (`Codex.UncoveredExactly`), and over a directory other threads can have rollouts enough to outweigh an uncovered one.
- Shapes.CompleteRowsAgree: goes one way; a lost count too small to change the rounded share still agrees.
- Claude.OrderAndDuplicatesIrrelevant: covers totals, calls and waits; which session and which of two equal-total vectors is kept does depend on the order of reading.
- JsonRpc.IdsAreFresh: ids are unbounded, so the wrap-around of the 64-bit counter is not modelled.
- JsonRpc.StepKeepsInvariant: a timeout may fire whenever the exchange is open, without modelling the clock or the per-method budgets.
- PromptTurn.StepKeepsInvariant: forwarding the events of one frame is one step, cancellation of the turn itself is not a step, and the closed-channel branch is absent because the transport always holds a sender.
- PromptTurn.DeriveSaysContent: what the activity and trace readers make of an update is an input; those modules are not part of this model.
- Lifecycle.StepKeepsInvariant: killing the process group and the texts of shutdown errors are not modelled.
- The permission broker, process spawning, sandboxing, environments, agent adapters and the agent-to-client requests of the dispatcher.
- Transcripts.CollectClaude: the file is one snapshot per collection, and a rotated file that has grown past the old cursor is indistinguishable from an appended one.
- Lint.RequiredIsMarkedExactly: a `cfg` holds one predicate, and the literals `true` and `false` in it are read as flag names.
- Codex.MetricsTelescope: forks are left out; a thread reports its largest delta, which two windows may take from different rollouts.
- Lint.LintFile: the tree of a file that parses; the exempt-file list, the textual pre-filter and unparsable files.
- `DeliverySummaryV1` and its Markdown, the Vibe snapshot totals, prompt building, run summaries and the two RTK benchmark scripts: field copies and counts.
