# Verified model of the tokens-that-suffice algorithms

This Dafny project models the algorithmic cores of the repository and proves what they
are for.

- **Diff reversal** (`DiffText`, `HunkReversal`, `HunkInvolution`, `DiffReversal`,
  `DiffStrings`). The scanner works on the lines of a unified diff (section "Diff -u or -U
  Output Format" of the POSIX `diff` utility, with the GNU no-newline marker). A file is a
  sequence of lines that each have a newline or lack it; a diff turns a tree of files,
  named by their `diff` lines, into another. Application is strict: a hunk must find its
  old lines exactly where its header puts them. `DiffStrings` carries the main result from
  lines to the texts that `reverse_diff` takes and returns.
- **Reverse relay** (`Relay`). A class holds the relay's dictionaries; a step relation adds
  the HTTP handlers, the node, frames in flight, losses, timeouts and sockets. Main results
  are about every run of that relation.
- **Router** (`Router`). A class over the array of in-flight counts and the affinity table;
  each request has a phase, from the pick of its backend to the end of its answer or
  stream, and the results are about every interleaving of the requests.
- **Context compaction** (`History`, `Compactors`, `Agent`, `Subtasks`). Message histories,
  the shared split, four strategies, and the agent that applies them run after run.
- **Trajectory splitting, branching and search** (`Splits`, `Branches`, `Search`).
- **Reward arithmetic** (`Advantages`, `CopyPenalty`), over exact reals.

`Optional`, `Counts`, `Seqs` and `Reals` hold shared definitions and facts.

Code that works step by step is modelled by methods with loops, and by classes where it
keeps state; each is proved equal to a function, and the results are proved about that
function. Parameters stand for what the code cannot decide itself: token counts, the answer
of the summarizer, the regular expression for bug context, the sampling of branch points,
the square root of the variance.

Where the code differs from what its comments say, the model follows the code:

- `reverse_hunk` moves a no-newline marker to the end of its run (`MarkerMoves`).
  `SidesSwap` says exactly when that matters; in a well-formed hunk it never does.
- `mask_env_messages` is said to keep the last `keep_n` outputs. When there are fewer than
  `keep_n` of them, the start of its slice is negative and counts from the end, so with 10
  and 9 outputs only one is kept (`NineOutputs`). `RecencyWindow` says exactly when the
  promise holds.
- `last_n_turns` is said to end on a tool message always. It ends where the history ends
  (`EndsOnTool`), so it can end on an unanswered call (`UnansweredCallIsLast`).
- With no theme in progress, `SubtaskModelBasedSummarizer.compact` puts the last theme out
  twice (`LastThemeTwice`) and counts it twice (`StepsConserved`). The first user message behind the head that
  is no summary is skipped as the task message would be and does not come back after a
  compaction (`ReportIsLost`). `AllAreSteps` and `MessagesConserved` say exactly which
  messages are counted.
- A frame can be accepted and its request still end in 504, when the timeout comes between
  the result and the handler's resumption (`LateTimeoutRun`). `LateTimeouts` says exactly
  when. That is `asyncio.wait_for` as of Python 3.12; the one of Python 3.11 returns the
  result of a future that is finished, and then no answer is lost
  (`PromptTimeoutsLoseNothing`).
- After a failed send the entry stays in `pending` although nobody waits
  (`FailedSendRun`). `StaleEntries` says exactly which entries outlive their handlers.
- A streaming response that the server never starts to iterate keeps its slot for good
  (`LostSlotRun`, `SlotIsLost`). `LostSlots` says that no other request does.
- With a sample limit the last chunk can be a branch point although it does not end in an
  assistant message (`LimitBreaksCuts`). `PartialsCutExactly` says when all partial
  trajectories are the prefixes they are meant to be.
- An even head does not keep histories with parallel calls acceptable (`ParallelCallsCut`).
  Model compaction with a summary does exactly when the head by itself is acceptable
  (`ModelAccepted`), truncation exactly when the head is acceptable together with the
  replies that then follow it (`TruncationExactly`). A head that is acceptable by itself
  keeps all histories of a run acceptable (`HistoriesStayAccepted`).
- The turn limit is not kept by itself: without room for what a compaction leaves, every
  run from the system message and the task reaches it (`LimitIsReached`). `TurnLimitHolds`
  says exactly when it is kept.
- Normalized rewards that are all tied can be divided by zero (`EqualRewardsFail`).
  `DividesByZero` says exactly when.

## Model

| member | source | states |
|---|---|---|
| DiffText.ParseHeaderRender | src/tts/utils/patch.py:57-63 | a hunk header, written from its fields, is read back as the same fields, whether or not it has counts |
| DiffText.HeaderReversed | src/tts/utils/patch.py:57-67 | a line of the form of a hunk header, with or without counts and commas, becomes the header of the exchanged ranges with the rest as it was, and a line of any other form stays |
| DiffText.IndexReversed | src/tts/utils/patch.py:47-53 | an `index` line comes out with its two hashes exchanged and the rest as it was |
| DiffText.OtherIndexStays | src/tts/utils/patch.py:48-53 | an `index` line without two hashes stays as it is |
| DiffText.CharacterClasses | src/tts/utils/patch.py:49-57 | counts are written in decimal digits and hashes in lower-case hexadecimal ones |
| DiffText.ReverseIndexTwice | src/tts/utils/patch.py:47-53 | exchanging the two hashes of an `index` line twice restores the line character for character |
| HunkReversal.CollectRun | src/tts/utils/patch.py:110-126 | the collecting loop gathers exactly the run of one sign, steps over markers, and flags whether there was one |
| HunkReversal.ReverseHunk | src/tts/utils/patch.py:84-150 | the index-driven scanner computes the group-by-group exchange of runs on every list of lines |
| HunkReversal.GroupReversed | src/tts/utils/patch.py:103-138 | a change group, with markers anywhere in it, comes out as its `+` texts under `-` and then its `-` texts under `+`, each run followed by one marker if it had any |
| HunkReversal.OtherLineStays | src/tts/utils/patch.py:98-101 | every line of a body that is no change stays in its place |
| HunkReversal.SidesSwap | src/tts/utils/patch.py:84-150 | old and new side of the body are exchanged, newline state included, if and only if no marked line is followed by another line of its sign |
| HunkReversal.MarkerMoves | src/tts/utils/patch.py:110-138 | a concrete body whose marker is moved to another line, so that the sides are not exchanged |
| HunkInvolution.PlainSidesSwap | src/tts/utils/patch.py:84-150 | without markers the exchange of the sides is unconditional |
| HunkInvolution.TwiceIsIdentity | src/tts/utils/patch.py:84-150 | reversing a marker-free body twice is the identity exactly when every change run with both signs begins with `-` and ends with `+` |
| HunkInvolution.ThriceIsOnce | src/tts/utils/patch.py:84-150 | three reversals of a marker-free body equal one |
| DiffReversal.ReverseDiff | src/tts/utils/patch.py:40-81 | the outer scanner computes the line-by-line reversal, with hunk bodies ending at the next header or file |
| DiffReversal.CollectBody | src/tts/utils/patch.py:69-72 | the inner loop takes exactly the lines up to the next header or file |
| DiffReversal.IndexLineReversed | src/tts/utils/patch.py:47-53 | a diff that begins with an `index` line: its hashes are exchanged and the other lines are reversed after it |
| DiffReversal.LineStays | src/tts/utils/patch.py:77-79 | a diff that begins with any other line outside of a hunk: the line stays |
| DiffReversal.HunkFirst | src/tts/utils/patch.py:55-75 | a diff that begins with a hunk: header and body are reversed, and what follows by itself |
| DiffReversal.ItemsReversed | src/tts/utils/patch.py:44-79 | the reversed text reads as the same files and hunks, each hunk with ranges and body reversed |
| DiffReversal.SwapHunkValid | src/tts/utils/patch.py:57-75 | the reversal of a well-formed hunk is well formed: counts match the bodies, sides and ranges are exchanged |
| DiffReversal.ReversedEdits | src/tts/utils/patch.py:40-81 | the reversal of a well-formed diff is well formed and asks in every file for exactly the swapped edits |
| DiffReversal.UndoFileExactly | src/tts/utils/patch.py:26-81 | in-order edits turn one file into another exactly when the swapped edits turn the second into the first |
| DiffReversal.ReversalUndoes | src/tts/utils/patch.py:26-81 | for every well-formed multi-file, multi-hunk modification diff and all trees, the reversed diff is well formed and turns the second tree into the first exactly when the diff turns the first into the second |
| DiffReversal.ExampleTurns | src/tts/utils/patch.py:26-81 | a concrete diff is well formed and turns one concrete tree into another, so the main theorem is about something |
| DiffReversal.MarkedHunkValid | src/tts/utils/patch.py:84-150 | a concrete hunk whose old side ends without a newline is well formed |
| DiffReversal.FinalNewline | src/tts/utils/patch.py:40-81 | a final newline of the diff text survives as the final newline of the reversed text |
| DiffStrings.SplitJoin | src/tts/utils/patch.py:40-81 | lines without newlines, joined and split again, are the same lines |
| DiffStrings.StripParts | src/tts/utils/patch.py:37-38 | stripping takes away exactly the quotes at both ends |
| DiffStrings.EscapeIs | src/tts/utils/patch.py:37 | an escaped newline is a backslash and then an n, and quotes are the single and the double one |
| DiffStrings.TakenAsItIs | src/tts/utils/patch.py:36-38 | a text is decoded exactly when it has an escaped newline and no real one, inside its quotes or not |
| DiffStrings.ReverseDiffText | src/tts/utils/patch.py:26-81 | the function on texts decodes where it has to, and reverses the lines of what it then has |
| DiffStrings.ReversedTextLines | src/tts/utils/patch.py:40-81 | the reversed text has exactly the reversed lines, and a final newline exactly if the text has one |
| DiffStrings.TextReversalUndoes | src/tts/utils/patch.py:26-81 | for every well-formed diff text, with or without a final newline, the returned text is well formed and turns the second tree into the first exactly when the given text turns the first into the second |
| Relay.RelayServer.Receive | harbor/relay/modal_relay.py:113-120 | a response frame pops its entry and completes the future there only if that is unfinished |
| Relay.RelayServer.Open | harbor/relay/modal_relay.py:110-111 | an accepted socket becomes the registered one |
| Relay.RelayServer.Close | harbor/relay/modal_relay.py:123-125 | a handler that ends unregisters only its own socket |
| Relay.RelayServer.Enroll | harbor/relay/modal_relay.py:146-147 | a new future is entered under the request's id |
| Relay.RelayServer.Expire | harbor/relay/modal_relay.py:154-156 | a timeout cancels an unfinished future and changes no finished one |
| Relay.RelayServer.Forget | harbor/relay/modal_relay.py:156-157 | a handler that timed out removes its own entry, if it is still there |
| Relay.InvKept | harbor/relay/modal_relay.py:104-163 | every step of handlers, node, network and sockets keeps the invariant on sockets, futures, frames and results |
| Relay.RunKeepsInv | harbor/relay/modal_relay.py:104-163 | the invariant holds in every state of every run |
| Relay.LatestSocketRegistered | harbor/relay/modal_relay.py:110-125 | in every run the registered bridge is the last socket to connect while its handler runs, and none otherwise |
| Relay.RunSettles | harbor/relay/modal_relay.py:113-163 | in every run a finished future and a finished handler never change again |
| Relay.ResultWasDelivered | harbor/relay/modal_relay.py:117-120 | every result was set by the delivery of exactly that frame, to a future that was unset and registered under its id |
| Relay.ReplyIsOwnAnswer | harbor/relay/modal_relay.py:131-163 | in every run, with any reordering, loss and reconnection, a handler that replies returns the node's only answer to its own frame, and keeps it |
| Relay.ReplyIsUpstreams | harbor/relay/bridge.py:35-57 | in every run a reply has the status and the body that the local server gave to the request this handler's client sent, or 502 and the report where the call raised |
| Relay.FrameWasAdmitted | harbor/relay/modal_relay.py:131-153 | in every run a request that was not refused has the frame its client sent and the socket that was registered when it came |
| Relay.RefusedOnArrival | harbor/relay/modal_relay.py:131-136 | in every run a request is refused for want of a bridge only if none was registered when it came |
| Relay.ArrivalIs | harbor/relay/modal_relay.py:131-136 | a request that comes with a good token is admitted exactly when a bridge is registered and refused with 503 exactly when none is |
| Relay.LostIsUnanswered | harbor/relay/bridge.py:62-73 | in every run a request whose frame, task or answer is lost is never replied to, on whichever socket |
| Relay.OneEachKept | harbor/relay/bridge.py:35-73 | a request has at most one frame going down, task at the node, or answer, so the node never answers it twice |
| Relay.LateFrameIsInert | harbor/relay/modal_relay.py:118-120 | a frame after the end of its future changes no future and no handler |
| Relay.TimelyFrameCompletes | harbor/relay/modal_relay.py:118-155 | a frame that arrives while its request waits completes that request and no other |
| Relay.SendIsFresh | harbor/relay/modal_relay.py:138-153 | a frame about to be sent is nowhere in the system yet |
| Relay.RunKeepsEntries | harbor/relay/modal_relay.py:113-157 | in every run an entry belongs to a handler that waits or whose send failed, every unset future has its entry, and only a timeout cancels |
| Relay.StaleEntries | harbor/relay/modal_relay.py:146-157 | in every run an entry outlives its handler exactly when the handler's send failed and no answer to it has been delivered |
| Relay.FailedSendRun | harbor/relay/modal_relay.py:147-153 | a concrete run after which an entry is in `pending` although nobody waits |
| Relay.LateTimeouts | harbor/relay/modal_relay.py:117-157 | in every run a request ends in 504 although its answer was accepted exactly when its wait expires after the delivery that completed its future |
| Relay.LateTimeoutRun | harbor/relay/modal_relay.py:113-157 | a concrete run in which an accepted answer ends in 504 |
| Relay.PromptTimeoutsLoseNothing | harbor/relay/modal_relay.py:154-157 | where waits expire only on unfinished futures, no accepted answer ends in 504 |
| Router.RouterServer.PickBackend | scripts/serve/router.py:63-74 | the scan picks the pinned backend, or the lowest-numbered least-loaded one, pins a new key and counts the request |
| Router.RouterServer.Release | scripts/serve/router.py:77-79 | the count of the released backend goes down by one and nothing else changes |
| Router.CountsAreExact | scripts/serve/router.py:63-155 | in every run, plain requests and streams, successes and failures interleaved at will, `inflight[i]` is the number of requests that hold backend i, and the counts sum to all that hold one |
| Router.ReleasedOnce | scripts/serve/router.py:123-153 | in every run no request gives back a slot twice |
| Router.ReleasedWhatWasPicked | scripts/serve/router.py:115-153 | what a request gives back is the backend that was picked for it |
| Router.LostSlots | scripts/serve/router.py:137-155 | in every run a request that is over still holds a slot exactly when it is a stream whose generator was never started |
| Router.QuietCounts | scripts/serve/router.py:123-155 | when all requests are over, each count is the number of unstarted streams on that backend |
| Router.SlotIsLost | scripts/serve/router.py:137-155 | in every run the unstarted streams of a backend only become more, and its count is never less than their number |
| Router.LostSlotRun | scripts/serve/router.py:137-155 | a concrete run that ends with every request over and a slot taken |
| Router.PinnedForever | scripts/serve/router.py:65-72 | in every run a pinned conversation keeps its backend and all its later requests go there |
| Router.FirstRequestPins | scripts/serve/router.py:63-74 | in every run the first request of a conversation goes to the least-loaded backend, and all its later requests go to the same one |
| Router.FreshRequestIsBalanced | scripts/serve/router.py:70-73 | in every run an unpinned request lands where the new load is at most the rounded-down average plus one |
| Router.ArrivalsStayBalanced | scripts/serve/router.py:63-74 | from balanced loads, any number of unpinned arrivals without a release keeps the loads within one of each other |
| History.ValidateMessages | src/tts/utils/trajectory.py:9-31 | the result is empty exactly when every call is answered, and otherwise the first offending index with exactly the missing ids |
| History.AcceptedMeans | src/tts/utils/trajectory.py:9-31 | a history passes exactly when every call of every assistant message is answered by one of the replies right behind it |
| History.LastNTurns | src/tts/summarization/base.py:26-44 | the backward scan returns the longest suffix with at most n tool messages |
| History.LastTurnsIsLongest | src/tts/summarization/base.py:33-44 | for positive n that is the one longest suffix with exactly n tool messages, or everything when there are fewer |
| History.EndsOnTool | src/tts/summarization/base.py:26-44 | the last turns end with the last message of the history, hence on a tool message exactly when the history does, or nothing is returned |
| History.UnansweredCallIsLast | src/tts/summarization/base.py:26-44 | a concrete history whose last turns end on an unanswered call |
| History.SplitIsPartition | src/tts/summarization/base.py:47-60 | head, middle and tail make up the history for every non-negative head length and every n |
| Compactors.WindowKept | src/tts/summarization/mask_based.py:92-116 | unless count < keep_n < 2*count, the last keep_n outputs come out of the mask as they were, whatever the options |
| Compactors.RecencyWindow | src/tts/summarization/mask_based.py:92-116 | where the options mask every output outside the window, the last keep_n outputs come out as they were exactly then |
| Compactors.WindowExactly | src/tts/summarization/mask_based.py:92-116 | of the outputs that the options mask, the last keep_n come out as they were, or the last keep_n - count when count < keep_n < 2*count |
| Compactors.NineOutputs | src/tts/summarization/mask_based.py:92-116 | with keep_n 10 and nine outputs all but the last are masked |
| Compactors.MaskedExactly | src/tts/summarization/mask_based.py:98-116 | an output is masked exactly when outputs are, it is older than the window, and it is not short enough bug context to be kept; reasoning is replaced exactly when thinking is masked; all else stays |
| Compactors.RecentTools | src/tts/summarization/mask_based.py:92-96 | the set of recent positions holds exactly the last tool messages that the slice selects |
| Compactors.MaskEnvMessages | src/tts/summarization/mask_based.py:61-116 | the loop masks each message by the options and its place in the window |
| Compactors.MaskedKeepsShape | src/tts/summarization/mask_based.py:86-116 | masking keeps every role, call and call id, and rewrites only old outputs and non-empty reasoning |
| Compactors.SummaryIsTurn | src/tts/summarization/model_based.py:65-101 | a summary shown as a tool turn is one whole turn |
| Compactors.SummaryIsShown | src/tts/summarization/model_based.py:65-101 | behind the head of a model compaction stand a call and the reply to it whose content is the summary, then the tail, both ends verbatim |
| Compactors.EndsStayVerbatim | src/tts/summarization/model_based.py:244-264 | every strategy keeps head and tail verbatim, with nothing, as many messages or two between them |
| Compactors.MiddleIsMasked | src/tts/summarization/mask_based.py:192-221 | the mask strategy masks each message of the middle by the options and its place among the outputs of the middle alone |
| Compactors.KindsAre | src/tts/summarization/model_based.py:244-264 | the record names the strategy and whether its summary failed, and holds the summary exactly when there is one |
| Compactors.CompactKeepsTurns | src/tts/summarization/model_based.py:244-264 | truncation, mask and model compaction, also with a failed summary, take whole turns to whole turns and keep the head |
| Compactors.CompactedTurns | src/tts/summarization/truncation_based.py:38-50 | the exact number of turns that truncation and model compaction leave |
| Compactors.TruncationAccepted | src/tts/summarization/truncation_based.py:38-50 | a truncated history is accepted exactly when the head does not end inside a turn or nothing is dropped |
| Compactors.ModelAccepted | src/tts/summarization/model_based.py:244-264 | for every accepted history and every head length, model compaction with a summary leaves an accepted history exactly when the head by itself is accepted |
| Compactors.TruncationExactly | src/tts/summarization/truncation_based.py:38-50 | for every accepted history and every head length, truncation, also that of a failed summary, leaves an accepted history exactly when the head with the replies that then follow it is accepted |
| Compactors.CleanCutAccepted | src/tts/summarization/model_based.py:244-264 | in particular truncation and model compaction leave an accepted history accepted if no reply comes right behind the head |
| Compactors.MaskAccepted | src/tts/summarization/mask_based.py:192-221 | the mask strategy leaves any accepted history accepted, wherever the head ends |
| Compactors.AnsweredOnceTruncated | src/tts/summarization/truncation_based.py:38-50 | in particular, where each call is answered once and in its own turn, truncation leaves an accepted history exactly when no reply comes right behind the head, or nothing is dropped |
| Agent.SummarizingAgent.MaybeCompress | src/tts/agent/summarization_agent.py:198-251 | the history is replaced and one record added exactly when the trigger fires and the result is smaller |
| Agent.SummarizingAgent.Query | src/tts/agent/summarization_agent.py:283-297 | a query compacts, records the context length shown, appends the reply and remembers the reported tokens |
| Agent.SummarizingAgent.Step | src/tts/agent/summarization_agent.py:299-308 | a step is a query followed by the observations of its commands |
| Agent.TokenTrigger | src/tts/agent/summarization_agent.py:172-222 | without a turn limit, a query of any run shows the compaction exactly when the tokens last reported in the run, or counted if none were, reach the limit, the history is long enough and the result is shorter or has fewer tokens |
| Agent.TurnTrigger | src/tts/agent/summarization_agent.py:179-222 | with a turn limit the same holds of the number of tool messages |
| Agent.MaskIsShown | src/tts/agent/summarization_agent.py:183-222 | over budget a mask compaction, which removes no message, is shown exactly when it saves tokens |
| Agent.NoCompactor | src/tts/agent/summarization_agent.py:188-190 | without a compactor every history is everything that was said |
| Agent.SummaryIsQueried | src/tts/agent/summarization_agent.py:198-251 | a query after a model compaction shows the first messages ever said, a call and the reply with the summary, and the last turns |
| Agent.HeadStays | src/tts/agent/summarization_agent.py:198-251 | in every run, whatever is said, each history and each queried history begins with the first keep_first messages of everything said |
| Agent.HistoriesStayAccepted | src/tts/agent/summarization_agent.py:198-251 | in every run whose rounds answer their calls, parallel calls included, each history and each queried history passes `validate_messages` if the first keep_first messages of everything said do |
| Agent.HeadDecides | src/tts/agent/summarization_agent.py:198-251 | in every run the history queried after a model compaction with a summary passes `validate_messages` exactly when those first messages do |
| Agent.HistoriesStayWhole | src/tts/agent/summarization_agent.py:198-251 | with an even head and single-tool turns each history and each queried history moreover consists of whole turns |
| Agent.QueriesStayBounded | src/tts/agent/summarization_agent.py:179-251 | under the turn trigger, with room for what a compaction leaves and for histories too short to be compacted, no query of any run shows compress_at_turns turns |
| Agent.LimitIsReached | src/tts/agent/summarization_agent.py:179-251 | without that room, every run from a system and a task message shows at least compress_at_turns turns on the query after as many single-tool rounds |
| Agent.TurnLimitHolds | src/tts/agent/summarization_agent.py:179-251 | from a system and a task message, for any number of turns to keep, the limit holds in every run exactly when there is that room |
| Agent.NoRoomNoBound | src/tts/agent/summarization_agent.py:183-222 | without that room a query on any history of so many turns shows at least compress_at_turns turns |
| Agent.MaskingNeverBoundsTurns | src/tts/agent/summarization_agent.py:183-222 | under the mask strategy a query shows as many turns as the history has |
| Agent.ParallelCallsCut | src/tts/summarization/base.py:47-60 | a concrete accepted history with two calls in one turn that truncation with an even head makes unacceptable |
| Subtasks.MessagesToSteps | src/tts/data/agent_trajectory.py:484-517 | the loop makes one step of each message that counts, in order |
| Subtasks.StepTells | src/tts/data/agent_trajectory.py:493-517 | a step has the role and content of its message, the calls of an assistant and the call id of a reply |
| Subtasks.MessageForStep | src/tts/summarization/subtask_based.py:92-111 | the lookup returns the message that step i was made from, and fails exactly when there is no step i |
| Subtasks.StepMessagesAreSteps | src/tts/data/agent_trajectory.py:493-517 | the numbered messages are exactly calls, replies and user messages after the first |
| Subtasks.SortedAndSame | src/tts/summarization/subtask_based.py:170 | sorting orders the themes by start and keeps each of them |
| Subtasks.SortIsStable | src/tts/summarization/subtask_based.py:170 | themes with the same start keep the model's order |
| Subtasks.CopySteps | src/tts/summarization/subtask_based.py:197-199 | the copying loop yields the steps of its range, and no lookup fails |
| Subtasks.Compact | src/tts/summarization/subtask_based.py:125-256 | the loops over themes and steps compute the specified output for any integer ranges, without a failing lookup |
| Subtasks.UntouchedWhen | src/tts/summarization/subtask_based.py:137-166 | the history is left as it is exactly when there is no new step or the summarizer failed, and only the latter is said to be a failure |
| Subtasks.SummariesAndNewer | src/tts/summarization/subtask_based.py:147-148 | every message of the body is an earlier summary or new, each in order |
| Subtasks.BoundsAre | src/tts/summarization/subtask_based.py:179-185 | bounds are clamped to the first and the last step and exchanged where they are out of order |
| Subtasks.ThemeBlocksAre | src/tts/summarization/subtask_based.py:186-213 | a theme with a summary and not in progress becomes the header and that summary; of any other the last steps stay, with a note for those folded |
| Subtasks.CompactThemes | src/tts/summarization/subtask_based.py:174-213 | the loop over the themes puts out and counts what each theme specifies |
| Subtasks.KeepLast | src/tts/summarization/subtask_based.py:217-239 | the fallback puts out the recent tail of the last theme once more |
| Subtasks.LastBlocksAre | src/tts/summarization/subtask_based.py:223-239 | the fallback puts out at least one and at most keep_recent_steps of the last steps, and nothing where the clamped bounds are out of order |
| Subtasks.NoteTexts | src/tts/summarization/subtask_based.py:200-238 | the notes at one input: which steps are folded, of how many, and where to continue |
| Subtasks.StepsConserved | src/tts/summarization/subtask_based.py:174-239 | over themes that tile the steps, compressed and kept counts add up to all steps exactly when some theme is in progress |
| Subtasks.LastThemeTwice | src/tts/summarization/subtask_based.py:217-239 | a concrete theme that is not in progress, whose two messages are put out twice and counted as four |
| Subtasks.ContractOutput | src/tts/summarization/subtask_based.py:178-213 | under the contract the output is the summaries in order and exactly the recent steps of the last theme |
| Subtasks.ThemeCompaction | src/tts/summarization/subtask_based.py:125-256 | the whole result under the contract: head, earlier summaries, new summaries, recent steps, and conserved counts |
| Subtasks.SummaryTexts | src/tts/summarization/subtask_based.py:189-213 | under the contract every finished theme's own summary is in the output, behind the header, in the order of the themes |
| Subtasks.DecimalReadsBack | src/tts/summarization/subtask_based.py:205-207 | the step numbers in the notes are written in decimal |
| Subtasks.AllAreSteps | src/tts/data/agent_trajectory.py:484-517 | no message is left out of the steps exactly when all are calls and replies |
| Subtasks.MessagesConserved | src/tts/summarization/subtask_based.py:147-239 | compressed and kept counts add up to the messages since the last compaction, less those of other roles and the first user message, plus the last theme when none is in progress |
| Subtasks.ReportIsLost | src/tts/summarization/subtask_based.py:147-239 | a concrete history whose error report is neither in the output nor counted |
| Subtasks.SummariesSurvive | src/tts/summarization/subtask_based.py:143-148 | every subtask summary ever written survives, in order, any number of messages and compactions |
| Splits.ThresholdSplit | src/tts/data/agent_trajectory.py:297-338 | the walk splits at the least turn that reaches the threshold, within the limits, or not at all |
| Splits.TruncateContinuation | src/tts/data/agent_trajectory.py:359-385 | the loop keeps the whole turns that fit the budget and fails if none does |
| Splits.SplitExactly | src/tts/data/agent_trajectory.py:297-338 | there is a split exactly when the first turn that reaches the threshold leaves enough turns on both sides and, with a cap, the next turn fits; it takes over task, summary, id and metadata |
| Splits.TurnsMeasure | src/tts/data/agent_trajectory.py:297-338 | where tokens add up, the first k turns measure as much as their messages |
| Splits.SplitIsPrefix | src/tts/data/agent_trajectory.py:270-279 | steps and continuation of a split are a prefix of the original, and all of it without a cap |
| Splits.CappedSplitIsLongest | src/tts/data/agent_trajectory.py:359-385 | with a cap the continuation is the longest non-empty prefix of whole turns within budget |
| Splits.EnumerateSplitTurns | src/tts/sweep_reward.py:162-198 | the walk lists all turns in range and within the limits, its early exit losing none, and thins them by the stride |
| Splits.ListingIs | src/tts/sweep_reward.py:185-197 | the list holds exactly the turns in range that leave enough on both sides, with their cumulative lengths, in order |
| Splits.EveryIs | src/tts/sweep_reward.py:198 | thinning takes the elements at the multiples of the stride and no others |
| Splits.WalksAgree | src/tts/sweep_reward.py:185-198 | the training split succeeds at the threshold turn if and only if that turn heads the list |
| Splits.NoCrossingNoList | src/tts/sweep_reward.py:185-198 | where the threshold is never reached the list is empty |
| Search.FindCompactionTurn | scripts/eval/scaled_prompt_comparison.py:88-121 | for monotone token counts the binary search gives exactly the result of the linear scan |
| Search.LinearScan | scripts/eval/scaled_prompt_comparison.py:89-98 | the first assistant turn whose preceding context reaches the trigger, or none exactly when there is none |
| Search.ScanIs | scripts/eval/scaled_prompt_comparison.py:89-98 | the result is turn t exactly when t is an assistant message before which the context has reached the trigger, and no earlier assistant message is |
| Branches.ChunkTrajectoryByAssistant | src/tts/utils/trajectory.py:34-48 | the loop cuts after every assistant message |
| Branches.ChunksPartition | src/tts/utils/trajectory.py:34-48 | the chunks make up the trajectory and each but possibly the last ends in its only assistant message |
| Branches.ChunkPrefix | src/tts/utils/trajectory.py:239-245 | the first i+1 chunks are the messages up to and including assistant message i |
| Branches.PointsAre | src/tts/utils/trajectory.py:126-134 | the branch points are the chunks with five before and at least five behind them, up to the sample limit if there is one, or a sample of those |
| Branches.RolloutsAre | src/tts/utils/trajectory.py:152-162 | after a branch point come as many rollouts as asked for, numbered from 0, from the same trajectory |
| Branches.CreatePartialTrajectories | src/tts/utils/trajectory.py:98-164 | the three lists stay aligned and hold the before and after trajectories of the branch points, in order |
| Branches.Assemble | src/tts/utils/trajectory.py:142-164 | the loop that grows the trajectory chunk by chunk appends to the three lists in step |
| Branches.PartialsAreCuts | src/tts/utils/trajectory.py:142-162 | without a sample limit, for any sample of the eligible points, every before trajectory equals the reconstructed one and ends just before assistant i, every after trajectory just before assistant i+1 |
| Branches.PartialsCutExactly | src/tts/utils/trajectory.py:125-164 | with any sample limit, all partial trajectories are such prefixes exactly when each branch point has enough chunks behind it or the trajectory ends in an assistant message |
| Branches.LimitBreaksCuts | src/tts/utils/trajectory.py:125-164 | a concrete trajectory and sample limit for which a partial trajectory is no such prefix |
| Advantages.SnapIsNear | src/tts/train_rl.py:783-785 | snapping moves a reward by at most half a grid step |
| Advantages.SnapToGrid | src/tts/train_rl.py:783-785 | a snapped reward is a multiple of the grid, none is nearer, of two equally near the even one is taken, and a multiple stays; without a grid nothing changes |
| Advantages.DroppedForSpread | src/tts/train_rl.py:777-793 | a group is dropped exactly when it has fewer than two rewards or all its snapped rewards are closer together than the required spread |
| Advantages.AdvantageIs | src/tts/train_rl.py:795-800 | an advantage is the snapped reward less the mean of the snapped rewards, over the divisor where normalized |
| Advantages.AdvantagesSumToZero | src/tts/train_rl.py:795-800 | the advantages of a kept group sum to zero, normalized or not |
| Advantages.AdvantagesKeepOrder | src/tts/train_rl.py:783-800 | a reward that is not lower never gets a lower advantage |
| Advantages.NormalizedIsBounded | src/tts/train_rl.py:797-800 | normalized advantages have a sum of squares of at most the group size |
| Advantages.NormalizedSquares | src/tts/train_rl.py:797-800 | the sum of squares of normalized advantages is the group size times the variance over the square of the divisor, and the group size itself when epsilon is 0 |
| Advantages.DividesByZero | src/tts/train_rl.py:783-800 | the division fails exactly when rewards are normalized with epsilon 0, all are tied, and no spread is required |
| Advantages.EqualRewardsFail | src/tts/train_rl.py:783-800 | two equal rewards and a configuration for which the division fails |
| Advantages.AssembleGroup | src/tts/train_rl.py:764-838 | the loops drop failed samples, small groups, groups without spread and non-finite log-probabilities, build the data of the rest, and fail where the division does |
| Advantages.KeepScored | src/tts/train_rl.py:773-776 | the samples with a finite reward are kept, in order |
| Advantages.KeptConcat | src/tts/train_rl.py:773-776 | every sample with a finite reward is kept, no other, in order |
| Advantages.BuildData | src/tts/train_rl.py:802-838 | each kept sample with finite log-probabilities becomes a datum with its own advantage |
| Advantages.DataConcat | src/tts/train_rl.py:803-838 | each sample with finite log-probabilities gives its datum with its own advantage, any other none, in order |
| Advantages.DatumIsAligned | src/tts/train_rl.py:802-823 | all vectors have the length of prompt and sample less one exactly when something was sampled, and each target is the token after its input |
| CopyPenalty.Overlap | src/tts/reward/copy_penalty.py:28-43 | the overlap lies between 0 and 1 |
| CopyPenalty.OverlapIs | src/tts/reward/copy_penalty.py:28-43 | the overlap is the share of the places of the summary whose n words stand in the source, and 0 where a text is too short |
| CopyPenalty.FullOverlap | src/tts/reward/copy_penalty.py:36-43 | the overlap is 1 exactly when every n-gram of the summary occurs in the source |
| CopyPenalty.ExcerptOverlapsFully | src/tts/reward/copy_penalty.py:28-43 | a contiguous excerpt of at least n words overlaps in full |
| CopyPenalty.CopyTermIsMonotone | src/tts/reward/copy_penalty.py:76-79 | the copy term does not fall as the overlap rises, and full overlap is charged the whole weight exactly when the threshold is below 1 or the weight is 0 |
| CopyPenalty.CopyTermIs | src/tts/reward/copy_penalty.py:76-79 | the copy term is 0 up to the threshold and grows in proportion from there to the whole weight |
| CopyPenalty.PenaltyIs | src/tts/reward/copy_penalty.py:70-83 | the other terms are the length weight times the ratio of the lengths and the flat weight for markers |
| CopyPenalty.CopyingIsChargedInFull | src/tts/reward/copy_penalty.py:73-83 | an excerpt of the source costs at least the whole copy weight |
| CopyPenalty.PenaltyIsNonNegative | src/tts/reward/copy_penalty.py:73-83 | with weights that are not negative the penalty is not negative |

## Left out

- ReversalUndoes: in-place modifications only, because the code copies `---`, `+++` and the lines for new, deleted and renamed files unchanged.
- TextReversalUndoes: the same; for a text with escaped newlines it speaks of the decoded text, and the decoding is a parameter.
- ParseHeaderRender: `\d` is read as the ASCII digits, although Python's matches every Unicode decimal digit.
- HistoriesStayWhole: single-tool turns from a start of system message, task message and whole turns, with an even head of at least two; `HistoriesStayAccepted` covers all other turns and heads.
- HistoriesStayAccepted: truncation, mask and model compaction; the subtask strategy is not part of it, since it keeps lone steps.
- QueriesStayBounded: the turn trigger only; what the token trigger bounds depends on the tokenizer.
- StepsConserved: non-negative `keep_recent_steps`; the lookups are safe for every integer.
- FindCompactionTurn: monotone token counts, as the code's own comment assumes.
- PartialsAreCuts: without a sample limit; `PartialsCutExactly` covers those with one.
- AssembleGroup: takes a group in its final order, since sorting the samples by sequence number only fixes that order.
- AdvantagesKeepOrder: a positive divisor where rewards are normalized; a negative `advantage_eps` is outside what the code means by it.
- NormalizedIsBounded: an `advantage_eps` that is not negative, for the same reason.
- Wall-clock time, HTTP, WebSocket and JSON mechanics, content types, keepalives and authentication of sockets; cancellation of a relay handler by its client.
- SHA-1 conversation keys and uuids, taken as distinct.
- Tool names and arguments, and the fields of messages that no modelled decision reads.
- The parsing of the model's JSON themes, and conversion errors of their fields.
- `parse_spec` and the scoring builders over the same split.
- The JSON files that the agent writes, logging, and the progress display.
- The log-probability scoring, the rest of the training loop, plotting, grading and data preparation scripts, and the vendored server patches.
- Floating-point rounding.
