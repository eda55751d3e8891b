# PfTerminal in Dafny

A model of the stateful core of PfTerminal and of its release and lint tooling,
with proofs of what those parts promise over every run and every input.

## What is modelled

**The analytics reducer** (`AnalyticsFacts`, `ReducerSpec`, `FactReadings`,
`Reducer*`, `AnalyticsReducer`). Facts arrive in any order: client requests and their
responses, server requests and their answers, notifications, and custom facts.
The reducer keeps seven maps and emits events. `ReducerSpec.Step` is what one
fact does; `Run` folds a stream of facts. The `Reducer*` modules prove, for
every stream, what the maps hold and which events come out, in which order and
attributed to whom, in terms of the stream alone; `FactReadings` says what the
fields of one fact mean. `AnalyticsReducer.Reducer` is
the object that updates its maps in place; it is proved to follow `Step`
exactly.

**The remote app-server client** (`Protocol`, `RemoteSpec`, `Remote*`). The
worker task multiplexes commands and server messages over one connection. Its
select loop is a step function whose inputs are what `select!` yields, whether a
write succeeds and whether the event consumer is still there. A command's
one-shot reply channel is named by the position of the command in that stream.
`RemoteWorker.Task` is the loop itself; `RemoteHandshake` adds the initialize
exchange before it and the event queue behind it, and `RemoteSession` runs the
worker and its consumer together.

**The analytics queue** (`AnalyticsQueue`, `EventBatching`, `UsageDedupe`): the
bounded channel and its flush barrier, for every interleaving of producers,
flushes and the worker; the splitting of events into requests; and the
capacity-bounded de-duplication of usage facts. The queue's worker owns a
`Reducer`.

**Accepted lines** (`UnifiedDiff`, `EffectiveLines`, `DiffLines`,
`DiffRendering`, `LineScanner`): the scanner of unified diffs, what it finds in
any text, and a renderer of git patches that it is proved to invert.

**Tooling**: argument canonicalisation of the lint wrapper (`LintArguments`,
`LintReading`), translation of release versions (`ReleaseVersion`,
`ReleaseSpellings`), the release-manifest comparison and its allowlist
(`SortedNames`, `FeatureManifest`, `ManifestCompatibility`,
`ManifestViolations`, `ManifestReport`, `ReleaseAllowlist`, `DifferenceIds`),
and the byte encodings of an agent's key (`KeyEncoding`, `SshWire`).

## How it is modelled

- Objects that the source mutates are classes whose methods are proved against
  specification functions; loops in the source are loops here. The properties
  are lemmas about those functions.
- What a run, a text or a comparison calls for is written a second time, without
  the functions that compute it: as a trace over the stream, as a reading of
  fields or characters, or as a list of violations. The main results equate the
  two.
- Clocks, write outcomes, what the network yields, git lookups, account state
  and SHA-512 digests are parameters or part of the input stream.
- Error texts are kept as their causes and values, not as rendered sentences.
- Unicode's alphanumeric class is a parameter of the diff scanner; line lengths
  are counted in UTF-8 bytes as the source does.
- The regular expressions of `release_version.py` are right-to-left parsers;
  `ReleaseVersion.ParsesExactlyTheGrammar` ties the parser to its grammar.
- Values in manifest entries are compared as Python compares them, so a truth
  value equals the number one or zero (`ManifestCompatibility.SameMeansAgrees`).

## Where a natural property fails

- A turn is reported as soon as its configuration, profile and completion are
  there, but only if its thread's context resolves at that moment; a thread that
  becomes known later does not trigger the report.
  `ReducerReports.LateThreadMissesReport` gives a stream and
  `ReducerReports.LeftBehindExactly` is the exact condition, for every run.
  `ReducerReports.NoMissedReport` is a sufficient one that a producer can keep.
- A subagent that starts before its parent has a context does not get one when
  the parent does: `ReducerThreads.EarlyChildInheritsNothing` gives a stream,
  `ReducerThreads.SubAgentInherits` is the exact condition for one start and
  `ReducerThreads.ContextExactly` the one for a whole stream.
- Canonicalising lint arguments twice differs from canonicalising once when the
  manifest path is the separator `--` itself and the user gave no manifest path.
  `LintArguments.CanonicalIsIdempotent` is the exact condition and
  `LintArguments.SeparatorGrows` the failing family.
- A path with trailing whitespace does not survive the diff scanner:
  `DiffRendering.SpacedPathIsLost` gives a file and
  `DiffRendering.PathSurvives` is the exact condition.
- Comparing a manifest with itself can report differences: a protected
  integration without a bound command always does.
  `ManifestCompatibility.UnboundDiffersFromItself` gives a manifest and
  `ManifestCompatibility.SelfComparison` is the exact condition.
- An allowlist names differences by identifiers, and two platforms or
  integrations whose names hold the mark `:missing:` can share one.
  `DifferenceIds.IdsAreDistinctExactly` is the exact condition on names.
- Dropping the response to another turn's request is noticed by a turn that
  answers the same request again: `ReducerDependence.DoubleAnswerIsMissed` gives
  a stream and `ReducerDependence.DroppedUnseen` the condition under which no
  fact of other turns is missed.
- A release version can be accepted without being a spelling of any: the
  substitution for alphas turns `-bet-alpha1` into `-beta1`, which the next one
  takes for a beta. `ReleaseSpellings.AccidentIsAccepted` gives the texts, and
  `ReleaseSpellings.NormalizeAccepts` and `ReleaseSpellings.NormalizeExplains`
  say exactly which texts are accepted, these and no others beside the spellings.
- An SSH string of 2^32 bytes or more is not read back, because its length is
  cast to 32 bits: `SshWire.ReadInvertsFrames` is the exact condition.

## Model

| member | source | states |
|---|---|---|
| FactReadings.Ending | codex-rs/analytics/src/reducer.rs:1361-1381 | how a turn ended, from the fields of the notification: status, error, time and duration, a negative time counting as none |
| FactReadings.ToolEnding | codex-rs/analytics/src/reducer.rs:2451-2532 | a finished tool call was rejected when the user declined it, failed when its status says so and completed otherwise; one in progress has no outcome |
| FactReadings.ReviewAsked | codex-rs/analytics/src/reducer.rs:1004-1118 | the review that an approval request opens, field by field: subject, trigger, permissions and network access from what is asked; none without a valid time |
| FactReadings.ReviewGuarded | codex-rs/analytics/src/reducer.rs:1480-1520 | the review that a guardian finished, field by field; none while it is in progress or without valid times |
| FactReadings.CommandVerdict | codex-rs/analytics/src/reducer.rs:2257-2286 | what is accepted or allowed is approved, only cancelling aborts, and the resolution is the amendment or the session |
| FactReadings.FileVerdict | codex-rs/analytics/src/reducer.rs:2288-2299 | the same for file changes |
| FactReadings.GrantVerdict | codex-rs/analytics/src/reducer.rs:2301-2314 | granting nothing denies, and only a grant can last for the session |
| FactReadings.GuardianVerdict | codex-rs/analytics/src/reducer.rs:2316-2334 | a guardian that is done approved, denied, timed out or aborted |
| FactReadings.OutcomeShown | codex-rs/analytics/src/reducer.rs:2424-2440 | the outcome that a reviewer, a verdict and its resolution show in a tool event |
| FactReadings.Concerns | codex-rs/analytics/src/reducer.rs:1801-1824 | a review counts for a tool item exactly when it is about a command, a file change or an MCP call and names the item's thread, turn and id |
| ReducerThreads.StepGrows | codex-rs/analytics/src/reducer.rs:431-578 | no fact forgets a connection or thread, takes a thread's connection or metadata away, or leaves a thread naming an unrecorded connection |
| ReducerThreads.RunGrows | codex-rs/analytics/src/reducer.rs:431-578 | the same across any further stream of facts |
| ReducerThreads.ReachableThreadsSound | codex-rs/analytics/src/reducer.rs:1715-1752 | in every reachable state each thread has metadata, its connection is recorded, and its context fails to resolve exactly when it has no connection of its own |
| ReducerThreads.ContextPersists | codex-rs/analytics/src/reducer.rs:1715-1752 | a thread whose context resolves keeps resolving after any more facts |
| ReducerThreads.ConnectionsRefineTrace | codex-rs/analytics/src/reducer.rs:580-603 | in every run a connection is what the last handshake of the stream said of it |
| ReducerThreads.ThreadsRefineTrace | codex-rs/analytics/src/reducer.rs:605-634 | in every run a thread has the connection, metadata and originator that the announcements and subagent starts of the stream give it |
| ReducerThreads.ContextsRefineTrace | codex-rs/analytics/src/reducer.rs:1737-1752 | in every run a thread resolves to the attribution the stream gives it, or to none |
| ReducerThreads.TurnContextsRefineTrace | codex-rs/analytics/src/reducer.rs:1655-1694 | the same for a turn, whose own connection takes precedence over its thread's |
| ReducerThreads.ContextExactly | codex-rs/analytics/src/reducer.rs:605-634 | a thread has a context exactly when some fact granted one: its announcement on a connection known by then, or its start under a parent with a context by then |
| ReducerThreads.SubAgentInherits | codex-rs/analytics/src/reducer.rs:605-634 | a started subagent has a context exactly when it had one already or its parent has one at that moment |
| ReducerThreads.ChainInherits | codex-rs/analytics/src/reducer.rs:605-634 | at any depth of subagents, whatever facts come before, between and after their starts, the last thread has a context if the root had one when the first of them started |
| ReducerThreads.EarlyChildInheritsNothing | codex-rs/analytics/src/reducer.rs:605-634 | a stream in which the parent of a subagent gets its context only after the start, and the subagent gets none |
| ReducerSettlement.StepRequests | codex-rs/analytics/src/reducer.rs:659-688 | what each fact does to each pending request: opens it, settles it or leaves it |
| ReducerSettlement.RequestsRefineTrace | codex-rs/analytics/src/reducer.rs:925-1002 | in every run the pending requests are those that the stream opened last and has not settled since |
| ReducerSettlement.SettlingNothing | codex-rs/analytics/src/reducer.rs:1205-1254 | settling a request that is not pending changes nothing and emits nothing |
| ReducerSettlement.SettledOnce | codex-rs/analytics/src/reducer.rs:925-1002 | after a response or error settled a request, further ones are inert until the key is reused |
| ReducerSettlement.StepReviews | codex-rs/analytics/src/reducer.rs:1004-1203 | what each fact does to each pending review |
| ReducerSettlement.ReviewsRefineTrace | codex-rs/analytics/src/reducer.rs:1004-1203 | in every run the pending reviews are the approval requests that the stream leaves unanswered |
| ReducerSettlement.AnsweringNothing | codex-rs/analytics/src/reducer.rs:1120-1203 | answering or aborting a request that is not pending is inert |
| ReducerSettlement.AnsweredOnce | codex-rs/analytics/src/reducer.rs:1120-1203 | after one answer or abort, further ones are inert until the id is reused |
| ReducerSettlement.SteerEventsBounded | codex-rs/analytics/src/reducer.rs:1522-1586 | over every run, steer events and still pending steers together never exceed the steer requests |
| ReducerSettlement.UserReviewsBounded | codex-rs/analytics/src/reducer.rs:1588-1634 | over every run, user review events and still pending reviews together never exceed the approval requests |
| ReducerIsolation.OtherStep | codex-rs/analytics/src/reducer.rs:690-737 | a fact of one turn is invisible to every other turn, in state and events |
| ReducerIsolation.AlikeStep | codex-rs/analytics/src/reducer.rs:431-578 | states that differ only in other turns stay so and emit the same visible events |
| ReducerIsolation.RunWithoutOthers | codex-rs/analytics/src/reducer.rs:431-578 | dropping all facts of other turns leaves what a turn sees of a run unchanged |
| ReducerIsolation.TurnsDoNotInterfere | codex-rs/analytics/src/reducer.rs:431-578 | two streams that differ only in facts of other turns show the same events, in order, and hold the same state of the turn |
| ReducerDependence.ReportsDependOnly | codex-rs/analytics/src/reducer.rs:1655-1713 | streams that hold the same acts on a turn and the same handshakes, threads and subagents, in order, report the turn alike and keep the same state of it, whatever else differs: requests and responses of other turns, items, reviews |
| ReducerDependence.DroppedUnseen | codex-rs/analytics/src/reducer.rs:925-1002 | a response that concerns another turn, or any review, item or other fact that neither acts on the turn nor announces a thread or connection, can be dropped anywhere without a trace in the turn's reports and state, unless its request is answered again without being asked anew |
| ReducerDependence.DoubleAnswerIsMissed | codex-rs/analytics/src/reducer.rs:963-978 | a stream that answers one start request twice, where dropping the first answer is noticed |
| ReducerTurns.StepOnTurn | codex-rs/analytics/src/reducer.rs:1655-1713 | exactly what each fact does to a turn, and exactly which turn event it emits |
| ReducerReports.StateRefinesTrace | codex-rs/analytics/src/reducer.rs:690-737 | in every run a turn's state is the aggregate of what the stream said about it since its last report |
| ReducerReports.Summed | codex-rs/analytics/src/reducer.rs:2614-2778 | the events of a report, field by field from the acts on the turn: thread, images, configuration, times, tokens, profile, ending, earliest interrupt, error, steers, tools, and the added and deleted lines of the last diff when there are any |
| ReducerReports.ReportsRefineTrace | codex-rs/analytics/src/reducer.rs:1655-1713 | the reports of a turn in a run, exactly and in order: one for each trigger that finds the turn complete and with a context, carrying that context, each field of the report as the stream sums it up, and after it the accepted lines of its last diff |
| ReducerReports.EarliestIsMinimum | codex-rs/analytics/src/reducer.rs:985-999 | the reported interrupt time is the minimum over accepted interrupts, whatever the order of their responses |
| ReducerReports.TotalIsSum | codex-rs/analytics/src/reducer.rs:403-428 | the tool total is the sum of its seven categories |
| ReducerReports.NoDoubleCounting | codex-rs/analytics/src/reducer.rs:1655-1713 | over every run each turn event uses up a configuration, a profile and a completion of its own |
| ReducerReports.NoMissedReport | codex-rs/analytics/src/reducer.rs:1655-1713 | when the stream makes the threads and connections known before a turn's facts name them, no complete turn is left unreported |
| ReducerReports.LeftBehindExactly | codex-rs/analytics/src/reducer.rs:1655-1752 | a run leaves a complete turn unreported if and only if the last fact that tried to report it found it complete while the stream gave it no context |
| ReducerReports.LateThreadMissesReport | codex-rs/analytics/src/reducer.rs:1386-1436 | a stream that leaves a complete turn behind although its context resolves in the end |
| ReducerReviews.StepSummary | codex-rs/analytics/src/reducer.rs:1636-1653 | what each fact does to the review summary of each tool item |
| ReducerReviews.StartsRefineTrace | codex-rs/analytics/src/reducer.rs:1262-1316 | in every run the recorded start of a tool item is the last one the stream holds that no completion has used |
| ReducerReviews.SummariesRefineTrace | codex-rs/analytics/src/reducer.rs:1588-1653 | in every run an item's review summary is what its reviews since the last completion that reached its tool event add up to |
| ReducerReviews.ReviewersAddUp | codex-rs/analytics/src/reducer.rs:1636-1653 | every review counted is the guardian's or the user's, never both |
| ReducerReviews.LogNamesItem | codex-rs/analytics/src/reducer.rs:1801-1812 | reviews of permissions, of network access or of other items never reach an item's summary |
| ReducerReviews.LogHoldsAll | codex-rs/analytics/src/reducer.rs:1801-1824 | and every finished review of a command, a file change or an MCP call that names the item does reach it |
| ReducerReviews.ToolEventsRefineTrace | codex-rs/analytics/src/reducer.rs:1279-1342 | the tool events of an item in a run, exactly and in order, each with the context, the start and the review sums that the stream holds for it |
| ReducerReviews.ReviewEventsRefineTrace | codex-rs/analytics/src/reducer.rs:1588-1634 | the review events of a run, exactly and in order: one for each review that the stream ends in a thread with a context, with the verdict of the fact that ends it |
| ReducerEvents.NotedRefinesTrace | codex-rs/analytics/src/reducer.rs:1386-1586 | the steer, thread and context events of a run, exactly and in order, attributed as the stream says |
| ReducerEvents.UnboundRefinesTrace | codex-rs/analytics/src/reducer.rs:739-923 | the skill, app, plugin and other events that need no state, exactly and in order: one for each invocation, mention or fact |
| AnalyticsReducer.Reducer.Ingest | codex-rs/analytics/src/reducer.rs:431-578 | the maps become those of the longer run and exactly its new events are pushed |
| AnalyticsReducer.Reducer.Dispatch | codex-rs/analytics/src/reducer.rs:431-578 | updating the seven maps in place, handler by handler, does what the step of the fact says |
| RemoteReplies.PendingRefinesTrace | codex-rs/app-server-client/src/remote.rs:247-280 | in every run the pending map holds exactly the outstanding command of each request id |
| RemoteReplies.OutstandingWasSent | codex-rs/app-server-client/src/remote.rs:247-280 | an outstanding command was sent under its id and has had no reply |
| RemoteReplies.UnansweredIsOutstanding | codex-rs/app-server-client/src/remote.rs:246-337 | a command without a reply is the outstanding one of its id |
| RemoteReplies.UnansweredWasWritten | codex-rs/app-server-client/src/remote.rs:247-280 | a command without a reply was written, was no duplicate, and nothing answering its id has come in since |
| RemoteReplies.RepliesRefineTrace | codex-rs/app-server-client/src/remote.rs:235-482 | in every run each command has had exactly the reply the stream holds for it |
| RemoteReplies.EndsExactly | codex-rs/app-server-client/src/remote.rs:235-482 | the worker has stopped exactly when the last input it took is a shutdown, the end of commands, a failed write, an event for a consumer that has gone, a close, a broken or invalid message or the end of the stream, and its exit error is the cause that input gives, the reason of a close included |
| RemoteReplies.TakenExactly | codex-rs/app-server-client/src/remote.rs:235-482 | it takes inputs until the first of those and none after |
| RemoteReplies.EveryCommandIsAnswered | codex-rs/app-server-client/src/remote.rs:235-495 | after it has ended and drained, the reply of every command it took is the one the stream holds, or the cause of its end |
| RemoteReplies.ExactlyOnce | codex-rs/app-server-client/src/remote.rs:235-495 | after the worker has ended and drained, every command it took has exactly one reply and nothing else has one |
| RemoteReplies.AnswersReachTheirRequest | codex-rs/app-server-client/src/remote.rs:343-352 | a result or server error reaches only the request sent under its id that was written, was no duplicate and had no earlier answer |
| RemoteEvents.RequestsAccounted | codex-rs/app-server-client/src/remote.rs:365-413 | in every run the request events sent and the unsupported answers written are together as many as the requests the worker dealt with in full |
| RemoteEvents.EventsRefineTrace | codex-rs/app-server-client/src/remote.rs:339-482 | the events are the recognised notifications and requests that were dealt with, in arrival order, then the disconnection with the cause that the last input gives, when it gives one and somebody still listens |
| RemoteEvents.OneDisconnection | codex-rs/app-server-client/src/remote.rs:414-495 | a disconnection comes at most once, last, after the worker has stopped, with the error that drained requests receive |
| RemoteEvents.WritesRefineTrace | codex-rs/app-server-client/src/remote.rs:246-337 | exactly the messages that the stream calls for are written, in order |
| RemoteEvents.UnsupportedRefinesTrace | codex-rs/app-server-client/src/remote.rs:365-413 | exactly the unknown requests are answered as unsupported, each once and in order |
| RemoteHandshake.HandshakeKeepsEvents | codex-rs/app-server-client/src/remote.rs:798-941 | a handshake that does not fail keeps every event, answers every unknown request and ends on the initialize response |
| RemoteHandshake.HandshakeDecided | codex-rs/app-server-client/src/remote.rs:798-941 | a handshake goes on exactly until the first message that decides it, and what that message decides, with its reason, is how it ends |
| RemoteHandshake.InitializeRemoteConnection | codex-rs/app-server-client/src/remote.rs:798-941 | the loop reads until the handshake is decided and returns what its run says |
| RemoteHandshake.EventReader.NextEvent | codex-rs/app-server-client/src/remote.rs:600-605 | returns handshake events first, then the worker's, losing and repeating none; waits while the worker may still send and returns nothing only once it has gone |
| RemoteHandshake.EventOrder | codex-rs/app-server-client/src/remote.rs:600-605 | a prefix of the handshake's and the run's events is a prefix of the session's recognised messages in arrival order, followed by at most one disconnection |
| RemoteWorker.Task.Work | codex-rs/app-server-client/src/remote.rs:235-495 | the task as a whole: it ends exactly on an input that ends it, what it sent and wrote is the run's, and once it has ended every command it took was answered exactly once, with the reply the stream holds or the cause of the end |
| RemoteWorker.PendingIsInjective | codex-rs/app-server-client/src/remote.rs:247-280 | two ids never wait for the same command |
| RemoteSession.Session.Turn | codex-rs/app-server-client/src/remote.rs:235-484 | one round of the worker keeps the session valid: what it has sent is what the run calls for, and its end closes the channel |
| RemoteSession.Session.NextEvent | codex-rs/app-server-client/src/remote.rs:600-605 | for every interleaving of the worker with its consumer, the returned events are in the order of the session's messages, and it waits exactly while no input has ended the worker |
| EventBatching.TrackEventRequestBatches | codex-rs/analytics/src/client.rs:643-664 | the batches are non-empty, concatenate to the events, isolate those that must be sent alone, and are as many as a greedy split needs |
| EventBatching.GreedyAppend | codex-rs/analytics/src/client.rs:643-664 | splitting two lists together needs no more requests than splitting them apart |
| EventBatching.BatchesMinimal | codex-rs/analytics/src/client.rs:643-664 | no order-preserving split that isolates the same events uses fewer requests |
| EventBatching.SendTrackEvents | codex-rs/analytics/src/client.rs:617-641 | a Codex backend is sent all events, an API key those that name a plugin, anyone else none, split the same way; with an API key in one request at most |
| EventBatching.SendableIsPlain | codex-rs/analytics/src/events.rs:94-107 | no event that an API key may send has to be sent alone |
| UsageDedupe.EmittedKeys.ShouldEnqueueAppUsed | codex-rs/analytics/src/client.rs:170-186 | the answer and the new set of keys, the missing connector id and the clearing of a full set included |
| UsageDedupe.EmittedKeys.ShouldEnqueuePluginUsed | codex-rs/analytics/src/client.rs:188-209 | the same for plugins, which are cleared before the id is looked at |
| UsageDedupe.TruesAccounted | codex-rs/analytics/src/client.rs:170-209 | the set stays within 4096 keys and every positive answer is in it or was cleared with 4096 others |
| UsageDedupe.RepeatsBounded | codex-rs/analytics/src/client.rs:170-209 | a key is let through at most once for every 4096 positive answers, or part of them |
| UsageDedupe.ExactWhileSmall | codex-rs/analytics/src/client.rs:170-209 | up to 4096 positive answers a key is let through exactly when it is new |
| UsageDedupe.AnswerIsExact | codex-rs/analytics/src/client.rs:170-209 | over every sequence of calls: one without an id always passes, and one with an id passes exactly when no call that is still remembered had the same |
| UsageDedupe.SetIsRemembered | codex-rs/analytics/src/client.rs:170-209 | the set holds the keys asked for since the last call that found 4096 of them and began anew |
| AnalyticsQueue.AcceptedIsIngestedThenQueued | codex-rs/analytics/src/client.rs:134-168 | for every interleaving the accepted facts are the ingested ones followed by the queued ones, and the queue stays within its bound |
| AnalyticsQueue.QueueRefinesTrace | codex-rs/analytics/src/client.rs:134-168 | for every interleaving, the worker has taken the messages that found one of 256 places, one a turn and in order, ingested the facts and acknowledged the flushes among them, and the others wait |
| AnalyticsQueue.FlushIsAckedInTurn | codex-rs/analytics/src/client.rs:229-250 | a flush that found room is acknowledged exactly when the worker has had a turn for it and for every message before it |
| AnalyticsQueue.BarrierHolds | codex-rs/analytics/src/client.rs:229-250 | for every interleaving, each queued flush stands behind exactly the facts accepted before it |
| AnalyticsQueue.FlushIsBarrier | codex-rs/analytics/src/client.rs:229-250 | when a flush is acknowledged, every fact accepted before it has been ingested in order and its events handed to the sender |
| AnalyticsQueue.BackendDeliversRun | codex-rs/analytics/src/client.rs:134-157 | with a Codex backend the sender is handed all events of the reducer's run |
| AnalyticsQueue.EventsQueue.TrySend | codex-rs/analytics/src/client.rs:159-168 | a fact is queued if there is room and dropped otherwise |
| AnalyticsQueue.EventsQueue.SendFlush | codex-rs/analytics/src/client.rs:229-250 | a flush takes the next free slot |
| AnalyticsQueue.EventsQueue.Receive | codex-rs/analytics/src/client.rs:134-157 | one round of the worker: ingest and send, or acknowledge |
| LineScanner.AcceptedLineFingerprints | codex-rs/analytics/src/accepted_lines.rs:30-83 | one pass with counters computes the summary that is read off the lines of any text, and the one that the patches call for when the text is a diff of git patches |
| LineScanner.PushFingerprint | codex-rs/analytics/src/accepted_lines.rs:30-83 | a line under a path adds one fingerprint when its squeezed text has more than three bytes and a letter, digit or underscore, and none otherwise |
| EffectiveLines.JoinSqueezes | codex-rs/analytics/src/accepted_lines.rs:157-158 | joining the words of a line squeezes it: each run of blanks becomes one space and those at the ends disappear |
| EffectiveLines.SqueezeKeepsWords | codex-rs/analytics/src/accepted_lines.rs:157-158 | the squeezed text has the words of the line in order, spaces for its only blanks, none at an end and no two in a row |
| EffectiveLines.LineContributes | codex-rs/analytics/src/accepted_lines.rs:157-169 | an added line gives one fingerprint when it has a path, its squeezed text has more than three bytes in UTF-8 and one character is a letter, a digit or an underscore; otherwise none |
| EffectiveLines.PathIsNormalized | codex-rs/analytics/src/accepted_lines.rs:143-155 | blanks around a path do not count, `/dev/null` is no path, and one leading `a/` or `b/` is dropped |
| DiffLines.ScanReads | codex-rs/analytics/src/accepted_lines.rs:30-83 | after any lines of any text: the path is what the last title or file name left, a hunk lasts until the next title, and every line with a plus or minus counts that is no file name |
| DiffLines.SummaryReads | codex-rs/analytics/src/accepted_lines.rs:30-83 | the counts and fingerprints of any text are those read off its lines |
| DiffRendering.ScanPatch | codex-rs/analytics/src/accepted_lines.rs:30-83 | from any state, one rendered patch adds exactly its own lines |
| DiffRendering.ScanInvertsRender | codex-rs/analytics/src/accepted_lines.rs:30-83 | scanning the text of any git patches finds exactly their added lines, each under its path and in order, and the number of their removed lines |
| DiffRendering.SummaryInvertsRender | codex-rs/analytics/src/accepted_lines.rs:30-83 | the reported counts and fingerprints are the ones the patches call for, hunk lines that look like headers included; which lines give a fingerprint is read off their characters |
| DiffRendering.ScanSplitsAtFiles | codex-rs/analytics/src/accepted_lines.rs:30-83 | a whole diff followed by another is scanned as the two apart |
| DiffRendering.LinesOfUnlines | codex-rs/analytics/src/accepted_lines.rs:30-83 | splitting into lines undoes joining them, up to a carriage return before each newline |
| DiffRendering.PathFound | codex-rs/analytics/src/accepted_lines.rs:143-155 | scanning the diff of a file finds each of its added lines under the path up to trailing whitespace |
| DiffRendering.PathSurvives | codex-rs/analytics/src/accepted_lines.rs:143-155 | the scanner keeps the path of a file with added lines exactly when the path does not end in whitespace |
| DiffRendering.SpacedPathIsLost | codex-rs/analytics/src/accepted_lines.rs:143-155 | a file whose lines the scanner puts under another path |
| DiffRendering.FingerprintIgnoresCr | codex-rs/analytics/src/accepted_lines.rs:157-169 | a carriage return at the end of a line does not change its fingerprint |
| LintArguments.ParseWrapperArgs | tools/argument-comment-lint/wrapper_common.py:55-104 | the loop computes the parse of its arguments |
| LintArguments.BuildFinalArgs | tools/argument-comment-lint/wrapper_common.py:107-122 | the final arguments are the defaults that are missing around the user's arguments |
| LintArguments.ParseFinds | tools/argument-comment-lint/wrapper_common.py:55-104 | parsing finds the arguments on each side of the first separator, untouched |
| LintArguments.FlagsMean | tools/argument-comment-lint/wrapper_common.py:55-104 | each of the five flags is set exactly when some argument provides it; a dangling option does not, nor does `--fix` or `--no-deps` swallowed as a value |
| LintReading.ParseReads | tools/argument-comment-lint/wrapper_common.py:55-104 | what parsing finds, option by option in the words of the command line |
| LintReading.CanonicalIsWrittenOut | tools/argument-comment-lint/wrapper_common.py:55-122 | the final arguments, written out: `--manifest-path`, `--workspace`, `--no-deps` and `--all-targets` are each added exactly when the arguments do not say otherwise, and nothing else is changed or moved |
| LintArguments.ParseCanonical | tools/argument-comment-lint/wrapper_common.py:107-122 | parsing the final arguments finds the user's arguments, in order, behind the defaults |
| LintArguments.CanonicalIsIdempotent | tools/argument-comment-lint/wrapper_common.py:55-122 | canonicalising twice is canonicalising once if and only if the manifest path is not the separator or the user gave one |
| LintArguments.SeparatorGrows | tools/argument-comment-lint/wrapper_common.py:107-122 | otherwise the arguments grow each time |
| ReleaseVersion.ParsesExactlyTheGrammar | sdk/python/release_version.py:10-12 | exactly the texts of the grammar are accepted and each is split into the one version it writes |
| ReleaseVersion.ParseInvertsRender | sdk/python/release_version.py:10-12 | every version is read back from the way it is written |
| ReleaseVersion.NormalFormsAreFixed | sdk/python/release_version.py:68-82 | whatever is written in the grammar is its own normal form |
| ReleaseVersion.ReleaseSubstituted | sdk/python/release_version.py:75-78 | the substitutions turn the release form of a version into its PEP 440 form |
| ReleaseVersion.NormalFormSurvives | sdk/python/release_version.py:45-82 | a version that normalises has a release form and a tag, and normalising either, or its normal form, gives its normal form |
| ReleaseVersion.TagsAreInjective | sdk/python/release_version.py:45-65 | two versions share a tag exactly when they have the same normal form |
| ReleaseSpellings.TagIsWrittenOut | sdk/python/release_version.py:45-65 | the tag of every version, written out: `rust-v`, the base, and the pre-release and hotfix as release tags write them |
| ReleaseSpellings.TagOfSpelling | sdk/python/release_version.py:45-65 | all spellings of a version have the same tag |
| ReleaseSpellings.NormalizeAccepts | sdk/python/release_version.py:68-82 | every spelling of a version is accepted as its PEP 440 form, with `v`, `rust-v` or nothing in front and blanks around it |
| ReleaseSpellings.NormalizeExplains | sdk/python/release_version.py:68-82 | and nothing else is |
| ReleaseSpellings.OnlySpellingsAreRead | sdk/python/release_version.py:75-78 | a text that the substitutions turn into a version is a spelling of it |
| ReleaseSpellings.AccidentIsAccepted | sdk/python/release_version.py:75-78 | among the accepted spellings is one that names no kind of release |
| ReleaseSpellings.RuntimeVersionsAreExact | sdk/python/release_version.py:9-42 | the runtime versions are exactly the texts of three numbers, alone, with an alpha or with a hotfix of an alpha |
| ReleaseVersion.RuntimeReleaseResolves | sdk/python/release_version.py:35-42 | a runtime version always resolves, to itself and a tag that normalises back to it |
| ReleaseVersion.RuntimeTagsAreDistinct | sdk/python/release_version.py:35-42 | no two runtime versions resolve to one tag |
| SortedNames.SortedAscends | scripts/release/compare_pf_feature_manifests.py:42-42 | the sorted list of a set is strictly ascending by code point |
| SortedNames.SortedIsOnly | scripts/release/compare_pf_feature_manifests.py:42-42 | and no other ascending list has the same elements |
| SortedNames.BeforeMeans | scripts/release/compare_pf_feature_manifests.py:42-42 | a name comes no later than another exactly when it begins it or has the smaller character where they first differ |
| ManifestCompatibility.SameMeansAgrees | scripts/release/compare_pf_feature_manifests.py:62-77 | values are equal sort by sort: texts and numbers when they are the same, truth values as the numbers one and zero, null only with null, lists and records when they agree in every place, and different sorts never |
| ManifestCompatibility.KeyedNeedsKeys | scripts/release/compare_pf_feature_manifests.py:31-32 | entries can be looked up by key exactly when each of them has one |
| ManifestCompatibility.KeyedFindsLast | scripts/release/compare_pf_feature_manifests.py:31-32 | the keyed entry of a name is the last in the list with that key |
| ManifestCompatibility.KeyedReportIsExact | scripts/release/compare_pf_feature_manifests.py:53-77 | keyed entries report each released name that is gone and each frozen field that changed, and nothing else |
| ManifestViolations.ReportIsExact | scripts/release/compare_pf_feature_manifests.py:129-213 | a comparison reports exactly the violations, each with its identifier, category, message and evidence: names, artifacts and paths that are gone, frozen fields and contents that changed, commands that are unbound |
| ManifestViolations.ComparisonSucceeds | scripts/release/compare_pf_feature_manifests.py:31-96 | a comparison goes through exactly when every entry has its key and every migration of both manifests its hash |
| ManifestCompatibility.NothingReported | scripts/release/compare_pf_feature_manifests.py:129-213 | a comparison reports nothing exactly when the candidate keeps every entry, field, path, migration and bound integration of the baseline |
| ManifestCompatibility.CompatibleTransitive | scripts/release/compare_pf_feature_manifests.py:129-213 | compatibility carries over: a baseline kept by one release and that one kept by a next is kept by the next |
| ManifestCompatibility.ChainIsCompatible | scripts/release/compare_pf_feature_manifests.py:129-213 | in a chain of releases each compared without differences, comparing any with any later one reports nothing |
| ManifestCompatibility.SelfComparison | scripts/release/compare_pf_feature_manifests.py:103-126 | a manifest agrees with itself exactly when its keys and hashes are there and every integration is bound |
| ManifestCompatibility.UnboundDiffersFromItself | scripts/release/compare_pf_feature_manifests.py:103-126 | a manifest with an unbound integration that differs from itself |
| ManifestReport.CompareManifests | scripts/release/compare_pf_feature_manifests.py:129-213 | the list built section by section is the whole list of differences |
| ReleaseAllowlist.ApplyAllowlist | scripts/release/compare_pf_feature_manifests.py:216-249 | the loop computes the verdict, the failing sort of unmatched entries included |
| ReleaseAllowlist.UnmatchedEntries | scripts/release/compare_pf_feature_manifests.py:226-228 | the complaints about entries that match no difference, sorted |
| ReleaseAllowlist.DifferencesAreSplit | scripts/release/compare_pf_feature_manifests.py:229-249 | every difference is either unresolved or accepted, none is dropped or doubled, and both lists keep the order |
| ReleaseAllowlist.ByIdDecides | scripts/release/compare_pf_feature_manifests.py:221-222 | the entry that counts for an identifier is the last that carries it |
| ReleaseAllowlist.GateIsExact | scripts/release/compare_pf_feature_manifests.py:216-249 | nothing is unresolved or invalid exactly when the entry of each difference names tests that all exist and each entry matches a difference |
| ReleaseAllowlist.ComplaintsAreExact | scripts/release/compare_pf_feature_manifests.py:226-245 | exactly the deserved complaints are made: entries that match nothing, deciding entries without tests, and the tests they name that the candidate lacks, in order |
| ReleaseAllowlist.AcceptedWithTests | scripts/release/compare_pf_feature_manifests.py:229-249 | a difference is accepted with the sorted tests of the entry that decides it, all of which exist |
| ReleaseAllowlist.NotAppliedExactly | scripts/release/compare_pf_feature_manifests.py:226-228 | the allowlist cannot be applied exactly when it has an entry without an identifier and another whose identifier matches nothing |
| ReleaseAllowlist.StrictGate | scripts/release/compare_pf_feature_manifests.py:256-289 | without an allowlist the gate opens exactly for compatible manifests |
| DifferenceIds.IdsAreDistinct | scripts/release/compare_pf_feature_manifests.py:222-230 | an identifier belongs to one difference of a comparison when no platform or integration name, followed by `:missing:`, begins another |
| DifferenceIds.IdsAreDistinctExactly | scripts/release/compare_pf_feature_manifests.py:222-230 | platform and integration names are unambiguous if and only if identifiers tell the differences apart of every comparison whose baseline has those platforms and integrations |
| KeyEncoding.SecretKeyFromDigest | codex-rs/agent-identity/src/lib.rs:542-550 | the key cut from a digest and changed in place is the clamped digest |
| KeyEncoding.ClampMeans | codex-rs/agent-identity/src/lib.rs:542-550 | as a number, clamping sets bit 254, clears bit 255 and the three lowest bits, and keeps every other bit |
| KeyEncoding.ClampYieldsScalar | codex-rs/agent-identity/src/lib.rs:542-550 | clamping makes a scalar of any bytes and clamping again changes nothing |
| KeyEncoding.ClampFixesScalars | codex-rs/agent-identity/src/lib.rs:542-550 | exactly the encodings of scalars are left alone |
| KeyEncoding.SecretKeyRange | codex-rs/agent-identity/src/lib.rs:542-550 | the key is a multiple of eight from 2^254 up to 2^255, as section 5 of RFC 7748 asks |
| SshWire.Buffer.AppendSshString | codex-rs/agent-identity/src/lib.rs:552-555 | the buffer grows by one frame |
| SshWire.PublicKeyBlob | codex-rs/agent-identity/src/lib.rs:514-519 | the blob is the algorithm name and the key, each behind its length in four bytes, and a reader of section 4 of RFC 8709 finds exactly these two |
| SshWire.ReadInvertsFrames | codex-rs/agent-identity/src/lib.rs:552-555 | a list of strings is read back from its frames exactly when each is shorter than 2^32 bytes |
| SshWire.FramesAreInjective | codex-rs/agent-identity/src/lib.rs:552-555 | frames of such strings are written by one list only |

## Left out

- HTTP, WebSocket, TLS and Unix-socket transport, timeouts and back-off: only their outcomes appear, as inputs.
- Wide payload records of facts and events: only the ids, counts, statuses and times that the reducer reads or aggregates are kept.
- Payloads of the events that facts map to without state: one event for each skill invocation and app mention of a fact, and one for each hook, app use, plugin and import fact.
- Fields of tool events beyond item, attribution, times, outcome and review sums (file and command action counts, web search kinds).
- Hashing of fingerprints and repositories, JWT signing, PKCS#8, base 64 and Ed25519 arithmetic.
- Commands still queued when the worker exits: their reply channels are dropped with the queue, outside the worker's loop.
- Server version and home directory read from the initialize response, and the typed-request wrappers around a reply.
- Warnings that the reducer logs when it drops a fact.
- Decoding of manifests: each section is present and of its documented shape; missing keys of entries and missing hashes are modelled, keys that are not strings and values that are not numbers (NaN) are not.
- The report file that the manifest comparison writes, and its command line.
- Repository lookups of the lint wrapper and the environment it sets.
- The agent graph store, the daemon, sandboxing, the TUI, packaging scripts and the table-of-contents tool.
