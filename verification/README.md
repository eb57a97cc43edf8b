# KeepRoLLMing: verified model

KeepRoLLMing is a proxy in front of language-model servers. Its network code is plumbing, but it
holds several state machines and algorithms that have to be right over whole runs. This project
models them in Dafny and proves what they promise. `dafny verify dfyconfig.toml` checks everything.

Objects whose methods update fields are classes, loops are loops, and each such method is proved
equal to a function of the old state and its arguments. The laws are then proved about that
function, over every input, every run or every schedule. Automatic induction is switched off on
every lemma, so each induction stands in the text.

| module | what it models |
|---|---|
| `Common`, `Text`, `Sorting` | small datatypes, Python string operations, `sorted` on integers |
| `Routes`, `CycleCheck`, `Inheritance`, `InheritanceLaws` | route inheritance: the cycle check, the recursive merge, and who wins |
| `FallbackChain` | the attempts derived from a route's fallback list |
| `LogRotation` | the rotating log file sink |
| `Projection`, `ProjectionLaws` | the event dispatcher and the bounded queues behind it |
| `SseFraming` | incremental and batch framing of server-sent events |
| `Keepalive` | keepalive markers in a slow stream |
| `StreamingFallback` | the attempt loop of a streaming request |
| `ToolCalls`, `ToolCallLaws` | assembly of tool calls from fragments |
| `CircuitBreaker` | the per-route circuit breaker |
| `RouteWindow`, `RouteWindowLaws` | the one-hour operational view per route |
| `Performance`, `PerformanceLaws` | running statistics beside the request log, with archive epochs |
| `SummaryCache` | lookup of the longest cached conversation prefix |
| `FilterOrder` | normalization and execution order of filters |

Framing follows sections 9.2.5 and 9.2.6 of the WHATWG HTML Living Standard only as far as the code
does: blank-line separators and `data:` lines.

## Where the code and its documentation disagree

The model follows the code; each point has a lemma.

- A list of parents is joined with commas when a configuration is loaded (`keeprollming/config.py:180-182`).
  The resolver splits it again, the cycle check does not, so a cycle through such a list goes unreported
  (`InheritanceLaws.CommaListHidesCycle`). The check can be relied on exactly when the field is a list,
  nothing, empty text, or one trimmed name (`InheritanceLaws.CheckReliableIff`).
- The comment on the route hierarchy speaks of the last resolved parent; the variable is reset for every
  listed parent, so only the last listed one counts. A route gets the documented hierarchy exactly when the
  name it lists last is known or none is (`InheritanceLaws.ResolvedHierarchyIff`, and
  `InheritanceLaws.HierarchyDocumentedIff` for all parents; a losing table in
  `InheritanceLaws.MissingParentDropsHierarchy`).
- A keepalive stream is meant to be its source with markers in between. When the consumer closes at a marker,
  or the wait is cancelled, after the pending read completed, the chunk it read is handed to nobody
  (`Keepalive.KeepaliveTransparent` gives the exact condition, `Keepalive.ChunkLostAtMarker` a schedule).
- A 400 answer is meant never to be retried. When reading its error body fails, the generic handler
  retries it (`StreamingFallback.RetriedAfter400` gives the exact condition,
  `StreamingFallback.RetriedAfter400Reset` a run).
- Tool calls are meant to be sent once they are flushed. A repeated `Finish("tool_calls")` flushes and
  then drops what it flushed (`ToolCallLaws.LostExactlyWhen`, reached in `ToolCallLaws.SecondFinishLosesCall`);
  live delivery can still send completes beside the deltas (`ToolCallLaws.LiveModeDuplicatesExactlyWhen`,
  reached in `ToolCallLaws.LiveModeDuplicates`); arguments that decode to `null` are invalid to one flush and
  valid to the other (`ToolCallLaws.NullHeldBack`, reached in `ToolCallLaws.NullHeldBackAndSent`).
- Request files are documented to be archived every 1000 requests. The check sits inside the summary
  interval, so every run does so exactly when the interval divides 1000
  (`PerformanceLaws.ArchivesEveryThousandIff`, a run without in `PerformanceLaws.ThousandWithoutArchive`).
- Throughput is meant never to come out negative. The total can, exactly when the physical token count is
  negative (`PerformanceLaws.NegativeThroughputIff`, an input in `PerformanceLaws.NegativeThroughput`).

## Model

| member | source | states |
|---|---|---|
| Routes.AllKeysComplete | keeprollming/routing/router.py:444-450 | the key list of the merge loop contains every mergeable setting |
| Routes.SameParentsIffPlain | keeprollming/validator.py:154-159 | resolver and checker see the same set of parents if and only if `extends` is nothing, a list, or one trimmed non-empty name without a comma |
| Routes.SplitJoins | keeprollming/routing/router.py:312-318 | the pieces of a text split at commas, joined with commas, are the text again; no piece is lost |
| Text.StripIs | keeprollming/routing/router.py:312-318 | stripping takes off the white space at both ends, all of it, and nothing else |
| Text.StripPadded | keeprollming/routing/router.py:312-318 | white space of any kind and length around a trimmed name is exactly what stripping removes |
| Routes.JoinedListIff | keeprollming/config.py:179-182 | the resolver reads a list of parents that loading joined with commas back as that list if and only if every name is trimmed and without a comma and the list is not that of one empty name |
| CycleCheck.CycleChecker.constructor | keeprollming/validator.py:142-143 | a checker starts with nothing visited, an empty stack and no errors |
| CycleCheck.CycleChecker.Dfs | keeprollming/validator.py:145-175 | a returned list is a closed walk along parent edges; None restores the recursion stack, marks the name visited, and keeps every finished name after all its known parents |
| CycleCheck.CycleChecker.Check | keeprollming/validator.py:177-187 | None if and only if the parent edges have no cycle; otherwise a real cycle is returned and recorded as the one new error |
| CycleCheck.ParentsFirstAcyclic | keeprollming/validator.py:161-175 | a listing of all names in which known parents come first rules out every cycle |
| Inheritance.MergeKeys | keeprollming/routing/router.py:443-456 | one pass over the key list yields the parent's settings overwritten by the child's own |
| Inheritance.MergeParent | keeprollming/routing/router.py:442-465 | one pass of the loop merges a known parent's settings under the child's own and its overrides under what is merged; an unknown parent changes nothing |
| Inheritance.MergeParents | keeprollming/routing/router.py:428-465 | the loop terminates on every graph and yields the settings, overrides and last listed parent of the merge over all listed parents, each resolved with the child's name on its path |
| Inheritance.ResolveInherited | keeprollming/routing/router.py:284-506 | terminates on every graph, cycles included, and returns the resolution; defaults are applied below everything inherited, at the root call only |
| InheritanceLaws.GuardHitFromWalk | keeprollming/routing/router.py:307-309 | a walk along parents that comes back to a name on it makes the resolver take the circular branch |
| InheritanceLaws.WalkFromGuardHit | keeprollming/routing/router.py:307-309 | whenever the circular branch is taken there is a walk along parents that comes back to a name on it |
| InheritanceLaws.GuardHitIffCycle | keeprollming/routing/router.py:307-309 | no route's resolution takes the circular branch if and only if the edges the resolver reads are acyclic |
| InheritanceLaws.CheckerDecidesGuard | keeprollming/validator.py:154-172 | on tables with plain `extends` fields, the graph the checker reads is acyclic if and only if no resolution takes the circular branch |
| InheritanceLaws.CheckReliableIff | keeprollming/validator.py:154-172 | for one `extends` field in an otherwise safe table, None from the check rules out the circular branch in every such table if and only if the field is nothing, a list, empty text, or one trimmed name without a comma |
| InheritanceLaws.UnsafeHidesCycle | keeprollming/validator.py:154-163 | every field with a parent that only the resolver reads hides a cycle in some table |
| InheritanceLaws.CommaListHidesCycle | keeprollming/config.py:179-182 | a concrete table on which the checker's graph is acyclic and the resolver takes the circular branch |
| InheritanceLaws.SettingWinner | keeprollming/routing/router.py:444-456 | each merged setting is the child's, else that of the rightmost known parent that has one, else missing |
| InheritanceLaws.OverrideWinner | keeprollming/routing/router.py:458-463 | each merged override is the child's, else that of the leftmost known parent that has one, else missing |
| InheritanceLaws.VisitedIrrelevant | keeprollming/routing/router.py:428-439 | away from the circular branch the names on the path do not change the resolution |
| InheritanceLaws.ResolutionSolves | keeprollming/routing/router.py:428-470 | on acyclic tables resolving every route solves the who-wins equations between a route and its resolved parents |
| InheritanceLaws.SolutionUnique | keeprollming/routing/router.py:428-470 | on acyclic tables every solution of those equations is what resolving returns |
| InheritanceLaws.JoinedListInherits | keeprollming/config.py:179-182 | a list of parents joined when it is loaded is inherited from exactly as the list is, all of its names in order |
| InheritanceLaws.DefaultsFillGaps | keeprollming/routing/router.py:472-504 | at the root each setting is the merged one, else the default the source gives it: listed setting by setting, with those that come from the defaults object and those that only routes with parents get |
| InheritanceLaws.HierarchyDocumentedIff | keeprollming/routing/router.py:467-470 | the merge yields the hierarchy of the last known parent plus the name if and only if the last listed parent is known, none is, or that hierarchy is empty |
| InheritanceLaws.ResolvedHierarchyIff | keeprollming/routing/router.py:428-470 | a route that does not list itself gets the documented hierarchy if and only if the name it lists last is in the table or none of its names is |
| InheritanceLaws.MissingParentDropsHierarchy | keeprollming/routing/router.py:430-436 | with parents `base` and a missing name the hierarchy is the child alone, not base and child |
| FallbackChain.CandidateFor | keeprollming/routing/router.py:544-577 | a known name stands for its resolved route and model, an unknown name or a mapping for the primary route with that model, and an empty model for nothing |
| FallbackChain.NamedFallback | keeprollming/routing/router.py:544-577 | a known name is tried under its own route with its merged settings and defaults and the model they name, and is passed over exactly when they name none |
| FallbackChain.ModelFallback | keeprollming/routing/router.py:544-577 | an unknown name, or a mapping that names a model, is that model on the primary route |
| FallbackChain.ResolveFallbackChain | keeprollming/routing/router.py:532-581 | the attempts are the primary followed by the candidates whose identity is new when they come, at most three |
| FallbackChain.ChainPromises | keeprollming/routing/router.py:532-581 | primary first, at most four attempts, no two with the same route name and model, every fallback from an option, and nothing left out of a chain that is not full except what repeats one of its targets |
| FallbackChain.ChainKeepsOrder | keeprollming/routing/router.py:538-541 | fallbacks come in the order of the options |
| LogRotation.RotatingFileSink.constructor | keeprollming/observability/projectors.py:124-127 | negative limits read as zero; an existing directory is kept |
| LogRotation.RotatingFileSink.RotateIfNeeded | keeprollming/observability/projectors.py:129-152 | files move by exactly one place when the record would overflow the limit, and not otherwise; no write handle is left on a moved file |
| LogRotation.RotatingFileSink.ShiftBackups | keeprollming/observability/projectors.py:139-148 | the oldest file is removed and every other retained file moves up one, files beyond the count untouched |
| LogRotation.RotatingFileSink.Append | keeprollming/observability/projectors.py:97-107 | the line ends up at the end of the current file, opened when needed |
| LogRotation.RotatingFileSink.Write | keeprollming/observability/projectors.py:154-158 | one write turns the directory into rotation followed by append, from any existing directory |
| LogRotation.Record | keeprollming/observability/projectors.py:154-158 | what is stored is the text, with one newline added exactly when it does not end in one |
| LogRotation.BytesAreEncoded | keeprollming/observability/projectors.py:156-158 | the size a record is counted with is the length of its UTF-8 encoding (section 3 of RFC 3629), and that encoding decodes to the text |
| LogRotation.FileSizeIsEncoded | keeprollming/observability/projectors.py:133-135 | the size of a file is the length of the encoding of its records written one after the other |
| LogRotation.RunIsStack | keeprollming/observability/projectors.py:129-158 | from an empty directory every run leaves files numbered without a gap, at most the backup count and the current one |
| LogRotation.RetainsSuffix | keeprollming/observability/projectors.py:129-158 | what is retained, oldest file to current, is a suffix of all records written, cut at record boundaries; it is shorter only when all files are in use |
| LogRotation.NeverRotated | keeprollming/observability/projectors.py:119-131 | with a limit of zero every record of a run is in the one current file, in order |
| LogRotation.FilesBounded | keeprollming/observability/projectors.py:133-135 | a file over the limit holds one record, no file is empty, and neighbouring files together exceed the limit |
| LogRotation.TotalAtMostLimit | keeprollming/observability/projectors.py:129-158 | when every record fits the limit the total is at most (N+1) times it |
| LogRotation.TotalAfterDrop | keeprollming/observability/projectors.py:129-158 | once anything was dropped the total exceeds floor((N+1)/2) times the limit |
| Projection.EventDispatcher.constructor | keeprollming/observability/dispatcher.py:64-68 | a dispatcher starts without consumers |
| Projection.EventDispatcher.Subscribe | keeprollming/observability/dispatcher.py:72-86 | the consumer is appended to its namespace's list, at the namespace's place in order of first use |
| Projection.EventDispatcher.MatchPrefix | keeprollming/observability/dispatcher.py:183-200 | one entry for each subscription whose namespace is the event type or a dotted prefix of it, in registry order; all of them under trace-all |
| Projection.EventDispatcher.Emit | keeprollming/observability/dispatcher.py:106-132 | the state of every queue after the emission and all notices it raised re-entrantly; termination by the set of projectors that have no notice pending |
| Projection.QueuedProjector.constructor | keeprollming/observability/projectors.py:529-538 | a queue starts empty, with no drops and no notice pending |
| Projection.QueuedProjector.Start | keeprollming/observability/projectors.py:555-573 | subscribes under the projector's name and every root namespace; starting it again changes nothing |
| Projection.QueuedProjector.Enqueue | keeprollming/observability/projectors.py:575-613 | ignores its own notice and unwanted events, accepts while there is room, else counts the drop and raises a notice if none is pending, with the effect of that notice on all other queues |
| Projection.QueuedProjector.TakeNext | keeprollming/observability/projectors.py:619-620 | the worker takes the oldest queued event |
| Projection.QueuedProjector.FinishCurrent | keeprollming/observability/projectors.py:621-634 | finishing an event clears the pending notice exactly when the queue then has room |
| ProjectionLaws.EmittedGrows | keeprollming/observability/projectors.py:589-595 | one emission raises at most one notice per projector, exactly one when it makes the first drop since the flag was cleared, and keeps every queue consistent |
| ProjectionLaws.RunConsistent | keeprollming/observability/projectors.py:555-634 | over every run of starts, emissions, worker steps and trace switches, accepted events are delivered ++ in flight ++ queued in order, the queue is within its bound, drops are counted, and the history allows each step |
| ProjectionLaws.NoticesSpaced | keeprollming/observability/projectors.py:591-634 | between two notices of one projector a worker step finished with room in the queue |
| ProjectionLaws.EmittedOffers | keeprollming/observability/dispatcher.py:106-132 | for every event and consumer: one emission offers a wanted event exactly once per matching subscription if it is the emitted one, plus once per subscription to notices for each equal notice raised on the way, and nothing else |
| ProjectionLaws.EmittedNoticed | keeprollming/observability/projectors.py:589-613 | the notices that account counts are exactly those each projector's history gains, in order |
| ProjectionLaws.EveryEventAccounted | keeprollming/observability/projectors.py:575-613 | over every run and for every event, other projectors' notices included: as often as emissions and the notices they raise hand it to a projector that wants it, it is delivered, in flight, queued or among the counted drops, and no more often |
| ProjectionLaws.NoticesRecorded | keeprollming/observability/projectors.py:589-613 | the notices of a whole run in that account are exactly the notices in the projectors' histories, in order |
| ProjectionLaws.NoticesSeen | keeprollming/observability/projectors.py:597-613 | each notice raised during an emission is newly accepted or dropped before the emission ends by every consumer that wants it, at least once for each of its subscriptions to notices |
| ProjectionLaws.SubscribedReaches | keeprollming/observability/dispatcher.py:72-86 | a subscription adds one delivery of each event under its namespace to its consumer and none to others |
| ProjectionLaws.SubscriptionReach | keeprollming/observability/dispatcher.py:183-200 | a subscription reaches its namespace and every event type a dot below it, once each, and no other type |
| ProjectionLaws.NoPartialWord | keeprollming/observability/dispatcher.py:198-199 | a subscription to `request` gets `request.x` and not `requests.x` |
| ProjectionLaws.MatchingInOrder | keeprollming/observability/dispatcher.py:197-200 | events go out namespace by namespace in the order of first subscription, to the whole list of each namespace they lie under |
| ProjectionLaws.StartedDeliveries | keeprollming/observability/projectors.py:451-453 | a started projector gets each rooted event once, and once more when its own name is a prefix of the event type |
| ProjectionLaws.RootedDeliveries | keeprollming/observability/projectors.py:339-347 | a started projector gets each event type a dot below a root namespace once, and once more if it is its own name or a dot below that |
| ProjectionLaws.RunUnderRoot | keeprollming/observability/projectors.py:555-573 | in every reachable state every started projector is subscribed to every type under a root namespace |
| ProjectionLaws.RootedEventsReachAll | keeprollming/observability/projectors.py:575-590 | in every reachable state an emitted event a dot below a root namespace is newly accepted or dropped by every started projector that selects it at its level |
| ProjectionLaws.NoticesReachAll | keeprollming/observability/projectors.py:575-613 | in every reachable state each notice raised is newly accepted or dropped by every started projector that selects it at its level and did not raise it |
| ProjectionLaws.OnlyWelcomeEvents | keeprollming/observability/projectors.py:387-410 | only events that pass the selector and the level and are not the projector's own notice are accepted or dropped |
| ProjectionLaws.DropsOnlyWhenFull | keeprollming/observability/projectors.py:588-592 | an event is dropped exactly when accepted less taken events fill the bound, which is at least one |
| ProjectionLaws.NoticeContent | keeprollming/observability/projectors.py:597-613 | a notice is a warning with the overflow type that names its projector, the bound and the number of drops so far |
| ProjectionLaws.StartedDeliveriesTraced | keeprollming/observability/dispatcher.py:191-195 | under trace-all a started projector gets every event eight times |
| SseFraming.StreamTranscript.constructor | keeprollming/endpoints/streaming_handlers.py:117-123 | an empty transcript for no text |
| SseFraming.StreamTranscript.HandleFrame | keeprollming/endpoints/streaming_handlers.py:129-151 | a frame without payload, the end marker and an undecodable payload change nothing; otherwise each field is folded as its type test allows |
| SseFraming.StreamTranscript.Consume | keeprollming/endpoints/streaming_handlers.py:125-151 | after every sequence of chunks the buffer and the transcript are functions of the concatenated text alone |
| SseFraming.StreamProgress.ObserveUpstream | keeprollming/endpoints/streaming_handlers.py:193-230 | the character count is that of the frames of the concatenated text, and every call counts one chunk |
| SseFraming.FramesOfSplit | keeprollming/endpoints/streaming_handlers.py:126-128 | framing a text equals framing its first part and then the leftover with the second |
| SseFraming.FramesRoundTrip | keeprollming/endpoints/streaming_handlers.py:127-128 | frames joined with the separator, plus the leftover, give the text back; the leftover holds no separator |
| SseFraming.JoinRoundTrip | keeprollming/endpoints/streaming_handlers.py:127-128 | framing the joined frames gives exactly those frames |
| Text.LinesRoundTrip | keeprollming/endpoints/streaming_handlers.py:129-131 | lines joined with line feeds are split into the same lines, unless the last is empty |
| SseFraming.PayloadIs | keeprollming/endpoints/streaming_handlers.py:129-131 | the payload of a frame written line by line is what its data lines say behind their white space, joined with line feeds and stripped; other lines say nothing |
| SseFraming.EventFound | keeprollming/endpoints/streaming_handlers.py:129-133 | a payload sent on one data line is found again, while the end marker and an empty payload are no events |
| SseFraming.TranscriptSays | keeprollming/endpoints/streaming_handlers.py:134-151 | a transcript holds, read off the decoded events of its text: every content, every reasoning (the older field only where the newer is missing) and every tool-call delta in order, the last finish reason and the last usage |
| SseFraming.WeightSays | keeprollming/endpoints/streaming_handlers.py:197-230 | the characters counted are those of the events, each event once |
| SseFraming.ChunkingIrrelevant | keeprollming/endpoints/streaming_handlers.py:125-151 | every division of a text leaves the transcript and leftover of feeding it whole |
| SseFraming.CollectDataLines | keeprollming/app.py:60-64 | the loop collects the data of the block's lines; stripping returns from split lines changes nothing |
| SseFraming.BatchPayloads | keeprollming/app.py:52-73 | the batch loop yields the carrying payloads of the blocks that the pattern cuts off |
| SseFraming.MatchIsPattern | keeprollming/app.py:53-58 | a match is one of the four blank lines that `\r?\n\r?\n` stands for, and none starts before the first match, or anywhere if there is none |
| SseFraming.MatchIsSep | keeprollming/app.py:53-58 | the pattern's first match is the first blank line of the text with CRLF normalized to LF |
| SseFraming.BatchIsNormalizedFraming | keeprollming/app.py:52-73 | on every text the batch framer finds the payloads that incremental framing finds after that normalization |
| SseFraming.BatchAgreesOnLf | keeprollming/app.py:52-73 | without carriage returns both framers find the same payloads |
| SseFraming.CrlfHidesFrames | keeprollming/endpoints/streaming_handlers.py:127-128 | the incremental framer finds no frame in text whose line feeds all follow a return |
| Keepalive.Interleave | keeprollming/endpoints/streaming_handlers.py:305-352 | the reads, outputs, cancellation and close of the wrapper, and why it stopped, for every schedule of timer and chunk completions, every point of close, and a last read that completed or did not |
| Keepalive.EndRead | keeprollming/endpoints/streaming_handlers.py:340-343 | a read outstanding at the end is cancelled exactly when it is not done |
| Keepalive.PassThrough | keeprollming/endpoints/streaming_handlers.py:295-299 | with keepalive disabled the chunks pass unchanged |
| Keepalive.KeepaliveTransparent | keeprollming/endpoints/streaming_handlers.py:307-352 | from any wait on: erasing markers gives exactly the chunks taken from the source in order, short of one exactly when the last outstanding read had completed with a chunk; everything is taken when the source ended; one pending read at most, none before the previous chunk was handed on, none left at the close |
| Keepalive.InterleaveTransparent | keeprollming/endpoints/streaming_handlers.py:305-352 | the same for the whole log from the first read, with the lost chunk as the last one taken |
| Keepalive.OutputsFollowWaits | keeprollming/endpoints/streaming_handlers.py:307-330 | the outputs follow the waits one to one for every schedule: a marker for each wait the timer ends and the next chunk for each wait a read ends, fewer only if the source ended; the outputs say how the run stopped |
| Keepalive.ChunkLostAtMarker | keeprollming/endpoints/streaming_handlers.py:327-343 | a schedule on which a chunk is taken and never handed on |
| StreamingFallback.StreamBody | keeprollming/endpoints/streaming_handlers.py:609-627 | chunks are delivered in order until the consumer closes, the body fails or it ends |
| StreamingFallback.UpstreamStream | keeprollming/endpoints/streaming_handlers.py:509-657 | attempts start up to the first that is not retryable, or the last; only that one delivers, and its outcome is the run's |
| StreamingFallback.NeverMixed | keeprollming/endpoints/streaming_handlers.py:509-657 | attempts start in order and at most once, all chunks come from one attempt, and nothing starts after a chunk |
| StreamingFallback.DeliveredFromOne | keeprollming/endpoints/streaming_handlers.py:609-637 | what was delivered is a prefix of one attempt's body, all of it unless the consumer closed, and earlier attempts delivered nothing |
| StreamingFallback.MovesOnIff | keeprollming/endpoints/streaming_handlers.py:552-657 | before the last attempt the run goes on if and only if the upstream gave no response, its error body could not be read, its error status was not 400, or its stream broke before the first chunk, in each case not by cancellation |
| StreamingFallback.ClientSees | keeprollming/endpoints/streaming_handlers.py:598-657 | the client gets from the decisive attempt its own fault, or its own status and error body, or its chunks up to where the client closed, or all of them and then the fault of the stream or completion |
| StreamingFallback.RetriedAfter400 | keeprollming/endpoints/streaming_handlers.py:552-657 | an attempt after a 400 starts if and only if reading the error body failed other than by cancellation |
| StreamingFallback.RetriedAfter400Reset | keeprollming/endpoints/streaming_handlers.py:552-657 | a run in which a 400 with an unreadable error body is followed by a second attempt whose chunk is delivered |
| StreamingFallback.AllRetryableRaisesLast | keeprollming/endpoints/streaming_handlers.py:635-657 | if every attempt is retryable all are tried and the last one's error ends the run |
| ToolCalls.ToolCallFinalizer.constructor | keeprollming/streaming/finalizers.py:184-186 | a finalizer starts with no buffers, nothing flushed and not finalized |
| ToolCalls.ToolCallFinalizer.ResetState | keeprollming/streaming/finalizers.py:188-210 | flags are cleared; buffers too, unless they are to be preserved |
| ToolCalls.ToolCallFinalizer.BufferDelta | keeprollming/streaming/finalizers.py:295-314 | a fragment extends the buffer of its index and no other; id, name and event id keep their first non-empty value |
| ToolCalls.ToolCallFinalizer.Flush | keeprollming/streaming/finalizers.py:334-412 | one complete per kept buffer in ascending index, and exactly those buffers are deleted, under each of the three policies |
| ToolCalls.ToolCallFinalizer.ProcessEvent | keeprollming/streaming/finalizers.py:214-264 | the new state and the batch for every event and mode |
| ToolCalls.ToolCallFinalizer.FinalizeStream | keeprollming/streaming/finalizers.py:266-291 | the final flush, nothing in live mode, and an error on a second call |
| ToolCallLaws.BufferIsAssembly | keeprollming/streaming/finalizers.py:295-314 | the buffer of an index is assembled from that index's fragments alone |
| ToolCallLaws.AssembledFields | keeprollming/streaming/finalizers.py:298-314 | id, name and event id are the first that were given; each metadata key holds its latest value |
| ToolCallLaws.AssembledArguments | keeprollming/streaming/finalizers.py:295-314 | the pending arguments of an index are its fragments in arrival order |
| ToolCallLaws.InterleavingIrrelevant | keeprollming/streaming/finalizers.py:295-314 | buffers depend only on the per-index subsequences of fragments |
| ToolCallLaws.FlushSendsTaken | keeprollming/streaming/finalizers.py:342-364 | a flush sends one complete with the joined arguments for each index it takes and leaves the others as they were (what else the complete says is in `CompleteCarriesFragments`) |
| ToolCallLaws.FragmentsConserved | keeprollming/streaming/finalizers.py:214-412 | for every run and index, buffers that left the assembly followed by the pending one are exactly the fragments that arrived, so no fragment is in two completes; the completes sent are exactly the joined buffers that were sent |
| ToolCallLaws.CompleteCarriesFragments | keeprollming/streaming/finalizers.py:334-412 | over every run each complete sent says what the fragments of its index said since that index last left the assembly: the first id, name and event id given, the latest metadata per key, all arguments in order, and the document they decode to, if any |
| ToolCallLaws.FinishSends | keeprollming/streaming/finalizers.py:236-256 | a finish sends a buffer unless it repeats a tool-calls finish or valid-only flushing holds its arguments back, and keeps it exactly in the latter case |
| ToolCallLaws.EndSends | keeprollming/streaming/finalizers.py:266-291 | the end of the stream sends a buffer unless delivery is live or valid-only flushing cannot decode its arguments |
| ToolCallLaws.EventsRelayedInOrder | keeprollming/streaming/finalizers.py:227-264 | over every run, what goes downstream beside completes is each event in its order: fragments only in live mode, a finish upgraded exactly when completes go before it, all other events unchanged |
| ToolCallLaws.FlagsOfRun | keeprollming/streaming/finalizers.py:188-291 | the flags that decide about repeats are read off the run since its last reset: whether it was finalized, and whether a finish or the end has flushed |
| ToolCallLaws.LostExactlyWhen | keeprollming/streaming/finalizers.py:236-243 | a buffer leaves without being sent if and only if a reset clears it or a repeated tool-calls finish takes it |
| ToolCallLaws.SecondFinishLosesCall | keeprollming/streaming/finalizers.py:236-243 | a run from the start in which two fragments arrive, one complete is sent and nothing is pending |
| ToolCallLaws.FinishFollowsCompletes | keeprollming/streaming/finalizers.py:236-260 | completes come in ascending index and are followed in the same batch by the one event `Finish("tool_calls")` |
| ToolCallLaws.FinalizeOnce | keeprollming/streaming/finalizers.py:276-279 | finalizing a finalized stream is an error that changes nothing |
| ToolCallLaws.NullHeldBack | keeprollming/streaming/finalizers.py:350-351 | under valid-only flushing, arguments that decode to null are held back on a tool-calls finish and sent on every other |
| ToolCallLaws.NullHeldBackAndSent | keeprollming/streaming/finalizers.py:334-389 | two runs with the same null arguments, one of which sends them |
| ToolCallLaws.LiveModeDuplicatesExactlyWhen | keeprollming/streaming/finalizers.py:234-256 | in live mode a complete is sent if and only if a finish that is not a repeated tool-calls finish meets a buffer its policy keeps; finalizing sends none |
| ToolCallLaws.LiveModeDuplicates | keeprollming/streaming/finalizers.py:227-243 | a run in live mode that relays a fragment and sends it again in a complete |
| CircuitBreaker.CircuitBreakerRegistry.constructor | keeprollming/circuit_breaker.py:29-31 | no route has a circuit yet |
| CircuitBreaker.CircuitBreakerRegistry.AllowRequest | keeprollming/circuit_breaker.py:33-55 | an attempt is handed out exactly when the circuit grants it; the circuits stay what the history makes of them |
| CircuitBreaker.CircuitBreakerRegistry.RecordSuccess | keeprollming/circuit_breaker.py:57-65 | the circuits stay what the history makes of them |
| CircuitBreaker.CircuitBreakerRegistry.RecordFailure | keeprollming/circuit_breaker.py:69-80 | the circuits stay what the history makes of them |
| CircuitBreaker.OpenHasTime | keeprollming/circuit_breaker.py:41-54 | the code's assertion holds: an open circuit has an opening time; a probe is out exactly while half-open |
| CircuitBreaker.BreakerClosedForm | keeprollming/circuit_breaker.py:57-80 | with a fixed threshold of at least 1, for every order of calls and late results: the count is the failures since the last success, closed if and only if that is below the threshold, and open means opened by the latest failure |
| CircuitBreaker.GrantsClosedForm | keeprollming/circuit_breaker.py:33-55 | with a fixed threshold of at least 1, an attempt is granted if and only if the failures since the last success are below it, or no probe is out and the recovery timeout since the latest failure is over |
| CircuitBreaker.OtherRoutesUntouched | keeprollming/circuit_breaker.py:39-80 | calls on other routes leave a route's circuit unchanged |
| CircuitBreaker.OneProbePerResult | keeprollming/circuit_breaker.py:41-55 | at most one attempt is granted while not closed between consecutive results, and there is one exactly when half-open |
| CircuitBreaker.ProbesSpaced | keeprollming/circuit_breaker.py:41-48 | with a monotone clock, probes without a success in between are at least the recovery timeout apart |
| CircuitBreaker.ProbeRate | keeprollming/circuit_breaker.py:41-48 | k probes without a success in between take at least k-1 recovery timeouts |
| RouteWindow.RouteStatusRegistry.constructor | keeprollming/observability/route_status.py:61-72 | an empty registry |
| RouteWindow.RouteStatusRegistry.Dispatch | keeprollming/observability/route_status.py:78-138 | the effect of every event family on activity, samples, errors, request routes and requests in flight |
| RouteWindow.RouteStatusRegistry.Prune | keeprollming/observability/route_status.py:353-377 | exactly the old buckets, deque heads and requests go, and routes left empty go with them |
| RouteWindow.RouteStatusRegistry.HandleEvent | keeprollming/observability/route_status.py:74-139 | one event is its branch followed by pruning at the event's time |
| RouteWindow.RouteStatusRegistry.TakeSnapshot | keeprollming/observability/route_status.py:185-215 | a snapshot prunes and then reads counts, errors, samples and the three request lists |
| RouteWindowLaws.BucketMatchesLog | keeprollming/observability/route_status.py:295-298 | for every log in time order, a bucket still in the window holds the number of route-resolved events of that minute |
| RouteWindowLaws.SnapshotActivityMatchesLog | keeprollming/observability/route_status.py:190-198 | each of the 60 counts of a snapshot is the number of route-resolved events in that minute of the log; pruning removes none of them |
| RouteWindowLaws.SamplesMatchLog | keeprollming/observability/route_status.py:300-317 | the sample deque is exactly the last 1024 of all samples of the log that are in the window |
| RouteWindowLaws.ErrorsMatchLog | keeprollming/observability/route_status.py:319-338 | the error deque is exactly the last 256 of all errors of the log that are in the window, each under the route known when its event arrived |
| RouteWindowLaws.SnapshotSamplesMatchLog | keeprollming/observability/route_status.py:185-199 | at any later time the samples of a snapshot are the last 1024 of all samples of the log in the window of that time |
| RouteWindowLaws.SnapshotErrorsMatchLog | keeprollming/observability/route_status.py:200-206 | at any later time the errors of a snapshot are the last 256 of all errors in the window of that time, newest first |
| RouteWindowLaws.InFlightIndexed | keeprollming/observability/route_status.py:82-89 | in every run each request in flight has the same route and start time in the request-route index, whatever the times |
| RouteWindowLaws.InFlightReadsLog | keeprollming/observability/route_status.py:74-139 | in every run, whatever the times, a request is in flight exactly when its own events in the log and the pruning since say so, with the route and start they give, the phase of the latest event that decides it, and the stream flag it last gave |
| RouteWindowLaws.ListsReadLog | keeprollming/observability/route_status.py:207-215 | a request is in a snapshot's queued, pending or active list exactly when it is tracked for the route within the hour and the latest event that decides its list says so |
| RouteWindowLaws.RoutesReadLog | keeprollming/observability/route_status.py:237-274 | the route remembered for a request is the one its latest resolution or first admission gave within the hour |
| RouteWindowLaws.ErrorsRecorded | keeprollming/observability/route_status.py:95-135 | the errors recorded are exactly rejections and error events of a known route and failed completions of a named one, each for that route with its message and time |
| RouteWindowLaws.ListsPartition | keeprollming/observability/route_status.py:207-215 | queued, pending and active partition the route's requests in flight |
| Performance.PerformanceConsumer.constructor | keeprollming/observability/consumers.py:85-89 | a new process starts unseeded with counter 0 over the files it finds; the interval is at least 1 |
| Performance.PerformanceConsumer.SeedRouteStats | keeprollming/performance.py:299-317 | seeding happens once per epoch and counts every entry of every listed file in order |
| Performance.PerformanceConsumer.CountEntry | keeprollming/observability/consumers.py:255-262 | an entry starts or updates the statistics of its route only |
| Performance.PerformanceConsumer.AppendEntry | keeprollming/observability/consumers.py:250-253 | the entry goes to the end of the file named by its route's slug |
| Performance.PerformanceConsumer.Archive | keeprollming/observability/consumers.py:267-283 | all request files are moved away and a fresh epoch starts |
| Performance.PerformanceConsumer.HandleRequestComplete | keeprollming/observability/consumers.py:247-284 | seed, append, count, and archive on the requests where it is due |
| PerformanceLaws.AccumMeaning | keeprollming/performance.py:45-51 | an accumulator holds the count, sum, least and greatest of its values |
| PerformanceLaws.AccumBounds | keeprollming/performance.py:45-51 | count times min <= sum <= count times max |
| PerformanceLaws.ReplaySummarises | keeprollming/performance.py:92-162 | the running statistics of a route are its entry count, last model, last hierarchy, first and last completion, and per-metric accumulators, read off its entries without running state |
| PerformanceLaws.CountedIsReplay | keeprollming/performance.py:309-316 | counting a mixed log keeps, per route, the replay of its own entries |
| PerformanceLaws.ListedEntries | keeprollming/performance.py:308-311 | the order in which files are listed does not change any route's entries |
| PerformanceLaws.FileNameIs | keeprollming/performance.py:273-275 | a route's file has the first 50 characters of its name, anything but letters, digits, underscores and hyphens as an underscore; no name counts as "unknown" |
| PerformanceLaws.StatisticsMatchLog | keeprollming/observability/consumers.py:247-284 | in every reachable state, across restarts, seeding, appends and archives, seeded statistics are route by route the replay of the current files in their own order |
| PerformanceLaws.StatisticsCountFiles | keeprollming/observability/consumers.py:247-284 | over every run from any directory whatsoever, seeded statistics are the replay of exactly the entries of the current files, in the order in which the process saw them |
| PerformanceLaws.NothingLost | keeprollming/observability/consumers.py:250-284 | archives and current files together hold every record of a run, route by route, in order |
| PerformanceLaws.ArchivesAtThousandsDue | keeprollming/observability/consumers.py:250-284 | every run archives at exactly the requests whose number since the last restart is a multiple of 1000 and of the summary interval |
| PerformanceLaws.ArchivesEveryThousandIff | keeprollming/observability/consumers.py:250-284 | every run, restarts included, archives at each thousandth request of a process if and only if the summary interval divides 1000 |
| PerformanceLaws.ThousandWithoutArchive | keeprollming/observability/consumers.py:265-283 | a run of 1000 requests with interval 3 that archives nothing |
| PerformanceLaws.CacheWithinPrompt | keeprollming/performance.py:399-408 | cached and uncached tokens make up the prompt, the uncached part is never negative, and the repaired count of a sensible prompt is not either |
| PerformanceLaws.CacheRepaired | keeprollming/performance.py:400-405 | a reported cache count is kept when it fits the prompt, and otherwise replaced by zero or the prompt |
| PerformanceLaws.RatesMakeTokens | keeprollming/performance.py:421-436 | the completion rate over the time from the first token makes the completion tokens, the prompt rate over the time until it the uncached prompt tokens, the total rate over the whole time both; and exactly when each rate is given |
| PerformanceLaws.PhasesAddUp | keeprollming/performance.py:421-436 | with a first token inside the request the tokens of the two phases add up to those of the total rate |
| PerformanceLaws.NegativeThroughputIff | keeprollming/performance.py:416-435 | completion and prompt throughput are never negative; the total is if and only if time passed and the physical token count is negative |
| PerformanceLaws.NegativeThroughput | keeprollming/performance.py:433-434 | a request whose total throughput is -5 tokens a second |
| SummaryCache.FindBest | keeprollming/summary_cache.py:166-188 | the loop returns the best entry and the reasons of the sorted entries |
| SummaryCache.LookupIsLongest | keeprollming/summary_cache.py:171-188 | the result is usable and no usable entry reaches further; None if and only if none is usable |
| SummaryCache.ReachIgnoresOrder | keeprollming/summary_cache.py:173-188 | how far the lookup reaches does not depend on the order of entries |
| SummaryCache.UsableInExtension | keeprollming/summary_cache.py:93-96 | an entry usable for a conversation is usable for every extension of it |
| SummaryCache.LookupGrows | keeprollming/summary_cache.py:166-188 | appending messages and adding entries never shortens what is found |
| SummaryCache.MadeEntryFound | keeprollming/summary_cache.py:141-163 | an entry made for a range in bounds is found, or beaten by a longer one, in every extension of its conversation |
| SummaryCache.MadeEntryVerdict | keeprollming/summary_cache.py:93-96 | with a digest that tells lists apart, for every range and pair of conversations: a made entry is used for another conversation if and only if the lookup starts where it starts, it ends inside, and the messages in its range are the same in both; and which reason is given otherwise |
| SummaryCache.LookupFindsRepeated | keeprollming/summary_cache.py:141-188 | over a cache of made entries a lookup finds a summary exactly when the conversation repeats, from its first message on, one that was summarized; it is that one's summary and no repeated one was longer |
| SummaryCache.FirstLongestWins | keeprollming/summary_cache.py:173-187 | sorting first changes nothing, ties included: of the longest usable entries the first given wins |
| SummaryCache.ReasonsPartition | keeprollming/summary_cache.py:174-187 | every entry is usable or has exactly one reason |
| SummaryCache.ReasonsListed | keeprollming/summary_cache.py:173-184 | the reasons come in order of start and end, whatever the order of the entries |
| FilterOrder.NormalizeFilters | keeprollming/filters/configuration.py:36-71 | succeeds if and only if every item is valid and no two enabled filters share a priority, and then returns each item's normalized configuration; otherwise the error is that of the first item that is invalid or shares its priority with an earlier one |
| FilterOrder.ItemMeaning | keeprollming/filters/configuration.py:38-58 | which settings are valid, that an absent `enabled` is on and an absent priority the module's default, and which error an invalid one gives |
| FilterOrder.RunsIff | keeprollming/orchestrator/pipeline.py:82-98 | a filter runs if and only if the mapping switches it on, with its own priority or the default and with its other settings |
| FilterOrder.BuildFilters | keeprollming/orchestrator/pipeline.py:110-121 | the instances are the enabled filters in sorted order |
| FilterOrder.ExecutionAscending | keeprollming/orchestrator/pipeline.py:93-98 | enabled filters run in strictly ascending priority |
| FilterOrder.MappingOrderIrrelevant | keeprollming/orchestrator/pipeline.py:82-98 | permuting the mapping changes neither acceptance nor the execution sequence |
| FilterOrder.ResortKeepsOrder | keeprollming/orchestrator/pipeline.py:128-134 | sorting the built filters again keeps their order |

## Left out

- HTTP, ASGI, sockets, threads and asyncio scheduling: streams are sequences of chunks, concurrency is a sequence of steps, time is an integer or real parameter.
- Files and their errors: a file is the sequence of its records, and the error branches of rotation and of file access are not modelled.
- JSON and hashing: decoding is an arbitrary function from text, hashing an arbitrary function from lists of normalized messages; type errors in event bodies after decoding are left out.
- Decoding of bytes: `consume` decodes each chunk on its own with replacement, so chunk independence is stated over characters, not over chunks that cut a character in two.
- Regular-expression route patterns, capture substitution, the route fields that inheritance does not merge (`is_private`, tool rewriting), and YAML loading.
- `resolve_fallback_chain` options of other types than text and mappings, and the condition field, which the code ignores.
- The fields of a tool-call delta beyond index, id, name, arguments, event id and metadata; an absent id, name or event id is the empty text; `_assemble`, which nothing calls.
- The error for starting a projector on a second dispatcher, `stop` and its drain timeout, cancellation of a worker in the middle of an event, async consumers, and the glob matching of a selector, which is an arbitrary predicate on event types. The class of a queue keeps its history as ghost state.
- `add_delta` of the transcript's tool-call accumulator, which is modelled as the list of its deltas, and the timing of progress telemetry.
- Startup seeding of the route window from disk, which breaks the time order of events; the averages, the start and age printed per request, and the sort of request lists by formatted time in a snapshot; times are whole nanoseconds rather than floating-point seconds.
- A total token count that is given but is not a number, which the code treats neither as given nor as missing.
- The asynchronous log writer, which may append a record later than the call; the rounding of statistics and throughput; summary files; changes of the performance directory at run time; two archives within one second, whose file names collide.
- Performance.PerformanceConsumer.constructor: route statistics are values in a map of the consumer rather than mutable objects in a module-level table. `record_request_performance`, which updates the same table with a counter of its own, is not modelled, and neither are runs that mix the two.
- PerformanceLaws.StatisticsMatchLog: asks that entries found on disk are in the file their route names, as every writer of the program puts them, because in other directories only the order of counting differs from that of the files; `StatisticsCountFiles` covers those.
- RouteWindowLaws.BucketMatchesLog: asks for event times that never decrease, as the window itself does.
- Validation of filter modules' own settings and the injection of API keys into filter configurations.
- The request phase of the pipeline (`process_request`, `run`), which applies the built filters in turn.
- Admission control, metrics accounting, dashboards, message truncation, redaction and event formatting.
