# Verified models of the gateway's state machines, codecs and bounds

This project models the parts of the gateway whose correctness is hard to see from any single function, and
proves what they are meant to guarantee. Each component has its own module; code that works on mutable objects
is modelled by classes and loops, code made of expressions by functions.

| component | modules |
|---|---|
| Canonical stream lifecycle and the non-streaming terminal | `StreamModel`, `StreamLifecycle`, `StreamTheorems`, `StreamEvidence` |
| Image and transcription observers | `EventStreams` |
| Responses WebSocket continuation over upstream sessions | `ResponsesSessions`, `Continuation`, `ContinuationRuns`, `CommittedDeployment`, `TurnRoutes` |
| The queue and the socket protocol below it | `AsyncQueues`, `ResponsesSocket` |
| Canonical JSON for cache keys | `JsonText`, `CacheKey` |
| Server-sent events | `Sse`, `SseStandard` |
| Extra-body validation and deep merge | `ExtraBody`, `ExtraBodyMerge` |
| Unsupported-parameter policy | `Parameters`, `ParameterLaws`, `ParameterPolicy` |
| Pricing tiers, cost and admission estimate | `Cost`, `CostLaws` |
| Thought-signature ids and merging of provider records | `ThoughtId`, `ProviderRecords` |
| Fetch semaphore and content-input accounting | `FetchSemaphore`, `ContentInputs` |
| Extension circuit breaker | `ExtensionBreaker` |
| Finalization queue and payload clipping | `Finalization`, `Clipping` |
| Catalog lookup | `CatalogIndex` |
| Shared helpers | `Prelude`, `Lexicographic`, `SortedNames` |

Asynchronous code is modelled by its atomic stretches: whatever runs between two awaits is one step, and the
theorems quantify over every interleaving of steps. Clocks, sockets, providers and promises' outcomes are
parameters of those steps.

`dafny verify dfyconfig.toml` checks everything.

## Where the obvious statement is false

Several properties hold only under a condition the code does not spell out. In each case the code is modelled
as it is, and lemmas give an input where the property fails and the condition under which it holds.

- Stream and JSON path: a null audio delta is output for the stream path and none for the JSON path
  (`StreamTheorems.NullAudioSeparatesThePaths`); the exact difference is `JsonAcceptsWhatStreamsAccept`.
- Queue: a failure whose value is undefined does not stick once a waiter has consumed it
  (`AsyncQueues.FailureThenValue`, exact condition in `OrderedIffNoLostFailure`).
- Continuation: a turn that sends only the delta leaves sealed compaction items sealed where a replay would open
  them (`ContinuationRuns.SealedItemStaysSealed`), and reads what the upstream produced where a replay would send what
  an extension made of it (`RewritingSeparates`). Exact conditions: `Continuation.DeltaTurn` for
  a turn, `ContinuationRefinesReplay` for a run.
- Cache key: an undefined property prints like null (`CacheKey.AbsentCollidesWithNull`).
- Server-sent events: printing and reading is the identity exactly on events whose lines do not end in a carriage
  return (`Sse.RoundTripIffFaithful`). Section 9.2.6 of the WHATWG HTML standard also accepts field names
  without a colon, treats a lone carriage return as a line end and drops an unfinished event at the end of the
  stream; this parser does none of the three (`SseStandard.BareDataDiffers`, `BareEventDiffers`, `LoneCRDiffers`,
  `LoneCRStreamDiffers`, `UnfinishedEventDiffers`). The exact conditions are `LineAgreesIff` and
  `LineConditionIsExact` for a line, and `TextAgreesIff` and `LoneCRStreamAgreesIff` for what follows the last LF.
- Extra body: extras never overwrite a managed leaf of the body, as the comment above the merge says, but they can
  set a managed path the body does not have: exactly when the body lacks one of its proper prefixes, no prefix up to
  that one is managed itself, and the path passes validation (`ExtraBody.ManagedPathSetIffOpen`).
- Cost: the estimate bounds the cost exactly when the larger of prompt and cached tokens, plus completion, is
  within the reservation (`Cost.AdmissionIsSoundExactlyWhenCovered`). The documentation's "disjoint subsets of
  promptTokens" is an assumption about providers; where one reports more, the bound fails. Rates can depend on
  the order of tiers with one threshold (`Cost.EqualThresholdsDependOnOrder`, exact condition in
  `TierOrderIsIrrelevant`).
- Thought ids: the comment on the separator calls splitting at its first occurrence unambiguous; an id ending in
  `__thought` or `__thought_` does not survive encoding (`ThoughtId.RoundTripIffNoOverlap`).
- Provider records: merging one after the other and merging the later ones first differ where a record is replaced
  by a plain value and that by a record again (`ProviderRecords.GroupingMattersIffForgotten`).
- Image and transcription observers: the check for a second terminal event can never fire, since any event after
  the first one is refused before it (`EventStreams.ObserveEventStream` never returns its error); and a
  deadline missed after a lone done event of a transcription is still called that of the first output
  (`DoneThenSilent`, exact condition in `NamedFirstOutputIff`).
- Content inputs: the byte limit is checked only as a part is counted, so a part refused once passes when the
  request is resolved again (`ContentInputs.RetryAfterRefusalPasses`, exact condition in
  `WithinTheLimitUntilRefused`). Source keys separate all sources
  that materialize, but a malformed file can be served with the content of a decoded one
  (`ContentInputs.MalformedValueIsServed`, exact condition in `MalformedIsServedIff`).
- Breaker: a tripped instance need not have a high failure count
  (`ExtensionBreaker.LateSuccessZeroesATrippedCount`, exact condition in `TrippedCountIsFullIff`).
- Catalog: the longest-first sort is said to be needed so that a longer base is not claimed by a shorter one; at
  most one base can match, so any order gives the same answer (`CatalogIndex.OneBaseAtMost`).

## Model

| member | source | states |
|---|---|---|
| StreamLifecycle.ObserveChatStream | apps/gateway/src/gateway/streamLifecycle.ts:259-453 | A run ends without error exactly when every frame met all three deadlines and agreed with the evidence before it and every choice has a public reason; what was forwarded is the chunks with finish reasons erased, then one terminal chunk, or on failure an erased prefix with the reason it was cut short; the observation holds the times, usage, diagnostics and terminator of the whole run |
| StreamLifecycle.StreamObservation.RecordFrame | apps/gateway/src/gateway/streamLifecycle.ts:148-187 | All counters and timestamps stay determined by the list of frames seen |
| StreamLifecycle.FirstAtIsTheFirst | apps/gateway/src/gateway/streamLifecycle.ts:162-182 | firstReasoningAt and firstOutputAt are the time of the earliest frame of a wanted kind |
| StreamLifecycle.MaxGapIsTheLargest | apps/gateway/src/gateway/streamLifecycle.ts:155-160 | maxInterEventGapMs bounds every pause between neighbouring frames and is one of them |
| StreamLifecycle.RaceDecides | apps/gateway/src/gateway/streamLifecycle.ts:93-112 | Racing the next item against the one active deadline loses exactly when one of the three declared deadlines is missed, and names that one |
| StreamLifecycle.DeadlinesAfter | apps/gateway/src/gateway/streamLifecycle.ts:328-337 | The two deadline variables keep meaning: counted from the last useful frame, and from the frame that opened the current reasoning stretch |
| StreamLifecycle.CheckAdapter | apps/gateway/src/gateway/streamLifecycle.ts:303-317 | A terminal from the adapter is kept unless it contradicts an earlier one, which refuses the frame |
| StreamLifecycle.MergeChoices | apps/gateway/src/gateway/streamLifecycle.ts:342-377 | The per-choice table holds what all choices so far mean as sets of reasons, outputs and tool deltas; the loop refuses exactly on an incompatible set |
| StreamLifecycle.TerminalChoices | apps/gateway/src/gateway/streamLifecycle.ts:402-426 | One choice per index in ascending order, each with its public reason, or the error of the lowest index without one |
| StreamLifecycle.SynthesizeTerminal | apps/gateway/src/gateway/streamLifecycle.ts:397-451 | The end of the stream is accepted exactly when some choice was seen and each has a public reason; the terminal chunk and record follow from them |
| StreamModel.MergeStep | apps/gateway/src/gateway/streamLifecycle.ts:359-374 | One in-loop merge rejects exactly when the enlarged set of reasons is incompatible and otherwise keeps standing for that set |
| StreamTheorems.FinishReasonsAreHeldBack | apps/gateway/src/gateway/streamLifecycle.ts:379-395 | No chunk before the terminal one carries a finish reason or differs otherwise from the provider's chunk; the terminal chunk has each index once, ascending, with a reason, empty deltas and the identity of the last chunk |
| StreamTheorems.FoldReadsTheSet | apps/gateway/src/gateway/streamLifecycle.ts:359-374 | Folding the merge over a sequence of reasons depends on their set only |
| StreamTheorems.MergeIgnoresOrderAndRepetition | apps/gateway/src/gateway/streamLifecycle.ts:359-374 | Accepted exactly for at most one reason or the pair stop and tool_calls, giving tool_calls exactly if it was seen, in any order and repetition |
| StreamTheorems.EndVerdictIgnoresOrder | apps/gateway/src/gateway/streamLifecycle.ts:402-426 | The verdict on a choice does not depend on the order or repetition of what was streamed |
| StreamTheorems.PromotionDependsOnToolDelta | apps/gateway/src/gateway/streamLifecycle.ts:409-424 | A choice becomes tool_calls exactly if that reason came, or stop with a tool delta, and stands only with a tool delta |
| StreamTheorems.AcceptedRunsMeetDeadlines | apps/gateway/src/gateway/streamLifecycle.ts:280-341 | Over a whole accepted run: first output, idle gaps however many metadata frames intervene, and reasoning stretches not extended by more reasoning |
| StreamTheorems.AcceptedRunsAreBounded | apps/gateway/src/gateway/streamLifecycle.ts:280-341 | An accepted run lasts at most the first-output budget plus one idle budget per useful frame |
| StreamTheorems.JsonAcceptsWhatStreamsAccept | apps/gateway/src/gateway/streamLifecycle.ts:209-251 | The JSON path accepts the assembled response exactly when the stream is accepted and no choice relies on the stream path's lenience |
| StreamTheorems.LenienceExplained | apps/gateway/src/gateway/streamLifecycle.ts:209-251 | Without the empty-output allowance that lenience can only come from a null audio delta |
| StreamTheorems.StreamAndJsonAgree | apps/gateway/src/gateway/streamLifecycle.ts:209-251 | Without null audio and the empty-output allowance both paths accept the same streams |
| StreamTheorems.SameTerminal | apps/gateway/src/gateway/streamLifecycle.ts:222-250 | Whenever the JSON path accepts, it reports the outcome, reason and usage of the stream path |
| StreamTheorems.OutcomeFromReasons | apps/gateway/src/gateway/streamLifecycle.ts:428-441 | Without an adapter terminal: incomplete exactly with a length, blocked exactly if all are content_filter, and a specific reason exactly if all choices have it |
| StreamTheorems.NullAudioSeparatesThePaths | apps/gateway/src/gateway/streamLifecycle.ts:209-251 | A concrete stream that the stream path accepts and the JSON path rejects |
| StreamEvidence.FramesCountAsWhatTheyShow | apps/gateway/src/gateway/streamLifecycle.ts:189-207 | A frame moves the idle deadline exactly if some delta shows something, is a tool frame exactly with a tool call, a reasoning frame exactly if it would show nothing without its reasoning, and otherwise a usage frame exactly with usage |
| StreamEvidence.EmptyDeltasHaveNoOutput | apps/gateway/src/gateway/streamLifecycle.ts:350-356 | A delta counts as output exactly if it is not empty but for provider fields |
| StreamEvidence.WithoutReasoningNoReasoningTimeout | apps/gateway/src/gateway/streamLifecycle.ts:280-337 | A stream without reasoning text is never stopped for a missed reasoning deadline |
| StreamEvidence.BeforeAnyOutputOnlyTheFirstDeadline | apps/gateway/src/gateway/streamLifecycle.ts:279-294 | As long as nothing was shown, a wait is judged by the first-output budget alone |
| StreamEvidence.AfterOutputTheLastFrameCounts | apps/gateway/src/gateway/streamLifecycle.ts:329-337 | After a frame that shows more than reasoning, and while nothing more is shown, a wait is judged by that frame and the idle budget alone |
| StreamEvidence.FirstOutputIsTheFirstShown | apps/gateway/src/gateway/streamLifecycle.ts:162-182 | firstOutputAt is the arrival of the first chunk that shows something |
| StreamEvidence.UsageIsTheLastReported | apps/gateway/src/gateway/streamLifecycle.ts:338-341 | The usage of a stream is that of the last chunk that reports one |
| StreamEvidence.DiagnosticsAreTheLastNamed | apps/gateway/src/gateway/streamLifecycle.ts:318-327 | Terminal, terminator, every field and every piece of metadata gathered over a stream are those of the last chunk that names them, or else the caller's |
| StreamEvidence.AllowedOnlyByTrue | apps/gateway/src/gateway/streamLifecycle.ts:413-416 | Empty output is allowed exactly if the gathered metadata say true |
| StreamEvidence.AdapterEvidenceDecides | apps/gateway/src/gateway/streamLifecycle.ts:427-429 | In an accepted run the terminal record repeats what any chunk's adapter said, with the last usage |
| EventStreams.ObserveEventStream | apps/gateway/src/gateway/streamLifecycle.ts:455-555 | An image or transcription stream is accepted exactly if its one terminal event comes last and every wait met its deadline; events are forwarded unchanged, a refused run stops with the reason, and the error for a second terminal event is never that reason |
| EventStreams.InTimeMeans | apps/gateway/src/gateway/streamLifecycle.ts:466-480 | An event is in time exactly if it is asked for and comes within the first-output budget, or within the idle budget of the event before it |
| EventStreams.AcceptedEventsAreBounded | apps/gateway/src/gateway/streamLifecycle.ts:466-480 | An accepted image or transcription stream lasts at most the first-output budget and one idle budget per event |
| EventStreams.NamedFirstOutputIff | apps/gateway/src/gateway/streamLifecycle.ts:520-536 | A deadline missed after some event is called that of the first output exactly if the stream is a transcription that sent its done event only |
| EventStreams.DoneThenSilent | apps/gateway/src/gateway/streamLifecycle.ts:520-536 | A transcription that can only stop by being said to have missed its first output, after its done event |
| ResponsesSessions.ResponsesWebSocketUpstreams.Obtain | apps/gateway/src/gateway/responsesWebSocketSessions.ts:88-105 | The open binding of a deployment; a closed or missing one is replaced by a fresh one without ids, and nothing else changes |
| ResponsesSessions.ResponsesWebSocketUpstreams.Execute | apps/gateway/src/gateway/responsesWebSocketSessions.ts:29-130 | Which way a turn is carried and what it sends: the delta with the upstream id exactly when the binding's pair names the previous response |
| ResponsesSessions.ResponsesWebSocketUpstreams.Evicted | apps/gateway/src/gateway/responsesWebSocketSessions.ts:141-160 | An eviction clears the pair of that binding only |
| ResponsesSessions.ResponsesWebSocketUpstreams.Commit | apps/gateway/src/gateway/responsesWebSocketSessions.ts:178-189 | Only the committed deployment's binding remains; every other session is closed |
| ResponsesSessions.Binding.FinalIdArrives | apps/gateway/src/gateway/responsesWebSocketSessions.ts:190-194 | The pair is set together, and not on a closed session or for a missing id |
| ResponsesSessions.ResponsesWebSocketUpstreams.Invalidate | apps/gateway/src/gateway/responsesWebSocketSessions.ts:197-203 | Every binding whose pair names the public id loses it; the others are unchanged |
| ResponsesSessions.ResponsesWebSocketUpstreams.Close | apps/gateway/src/gateway/responsesWebSocketSessions.ts:205-208 | Every session is closed and no binding remains |
| Continuation.ExpandIsIdentityIffNothingSealed | apps/gateway/src/endpoints/responses.ts:167-170 | Opening compaction items changes a conversation exactly when it holds a sealed one |
| Continuation.ServedIsRead | apps/gateway/src/gateway/responsesWebSocketSessions.ts:107-130 | What the upstream reads is the effective input itself, or what the continued turn read and produced followed by the delta |
| Continuation.DeltaTurn | apps/gateway/src/gateway/responsesWebSocketSessions.ts:107-119 | A delta turn after one that agreed agrees with replay exactly if that one was recorded as produced, up to opening; without rewriting it reads the same items exactly if the turn before did and neither its output nor the delta holds a sealed item |
| Continuation.EveryStepKeeps | apps/gateway/src/endpoints/responses.ts:981-1190 | Every step of a connection, commits, messages refused before their turn begins, failures before and after a commit, evictions, late ids, disconnects and foreign stores included, keeps the invariant |
| Continuation.ReachableStatesOk | apps/gateway/src/endpoints/responses.ts:1114-1149 | The invariant holds in every reachable state |
| Continuation.PairsNameOneConversation | apps/gateway/src/gateway/responsesWebSocketSessions.ts:190-194 | A binding's pair is both-null or from one completed turn, and the upstream keeps under it what that turn read and produced, which is the gateway's conversation if the turn agreed and was recorded as produced |
| Continuation.ContinuationRefinesReplay | apps/gateway/src/gateway/responsesWebSocketSessions.ts:88-176 | In every run all completed turns, whether delta, full replay, failover or retry, were generated from conversations that open to the effective input exactly if every turn continued by a delta was recorded as produced, up to opening; item for item exactly if those were produced in opened form and no delta carried a sealed item |
| ContinuationRuns.SealedItemStaysSealed | apps/gateway/src/endpoints/responses.ts:167-170 | A run in which a delta with a sealed item agrees with replay once opened, but not item for item |
| ContinuationRuns.RewritingSeparates | apps/gateway/src/endpoints/responses.ts:1063-1072 | A run in which a stream extension rewrites an output, and the next delta reads another conversation than the gateway holds |
| Continuation.TurnsChain | apps/gateway/src/endpoints/responses.ts:130-178 | A turn's effective input is the previous response's input and output followed by its own, opened |
| CommittedDeployment.PairsStayWithTheCommitted | apps/gateway/src/gateway/responsesWebSocketSessions.ts:178-195 | In every reachable state a binding that holds an id, or whose session a final id is still to come for, is that of the deployment committed last, and any other was opened after that commit |
| TurnRoutes.GeneratingTurnsAreServed | apps/gateway/src/gateway/responsesWebSocketSessions.ts:81-106 | In every run a completed turn was served by no upstream exactly if it was a warm-up that no socket carried; every generating turn was generated upstream |
| TurnRoutes.CompletedTurnsAreAsAsked | apps/gateway/src/endpoints/responses.ts:1004-1008 | What a completed turn is remembered to have sent, continued and asked for is what the last message before it said |
| TurnRoutes.SocketsCarryWhatTheyCan | apps/gateway/src/gateway/responsesWebSocketSessions.ts:81-106 | Over every run an attempt goes over a socket exactly if the adapter has a handler and a binding is open or can be opened, and then over that open socket; otherwise generating turns are replayed and warm-ups answered locally |
| TurnRoutes.DeltasGoOutWhenTheyCan | apps/gateway/src/gateway/responsesWebSocketSessions.ts:107-120 | Over every run a socket is sent the delta exactly if its open binding still names the previous response, and the whole input otherwise |
| TurnRoutes.EvictionSendsTheWholeTurn | apps/gateway/src/gateway/responsesWebSocketSessions.ts:144-160 | After an eviction the turn goes out whole on the same socket, and only that binding loses its pair |
| TurnRoutes.ClosedSocketsCarryNothing | apps/gateway/src/gateway/responsesWebSocketSessions.ts:88-89 | The socket of a binding that closed carries no later attempt in any run |
| TurnRoutes.ClosedSocketsGainNoId | apps/gateway/src/gateway/responsesWebSocketSessions.ts:190-192 | In no run does a closed socket's binding gain an id |
| TurnRoutes.FailureForgetsThePrevious | apps/gateway/src/endpoints/responses.ts:1182-1188 | In every run a failure with an HTTP error drops every pair that names the previous response, leaves the other pairs and every session alone, and makes the connection forget that response |
| TurnRoutes.ForgottenUntilItsIdArrives | apps/gateway/src/gateway/responsesWebSocketSessions.ts:190-203 | After that no pair names the response again, unless its final id arrives late |
| TurnRoutes.EveryTurnCanGoOn | apps/gateway/src/gateway/responsesWebSocketSessions.ts:88-203 | No state rules out an event of the environment, and every turn can be answered, retried whole, given up or failed |
| AsyncQueues.AsyncQueue.PushValue | apps/gateway/src/core/asyncQueue.ts:11-16 | A push answers the first waiter or is stored, and is dropped after end or failure |
| AsyncQueues.AsyncQueue.EndQueue | apps/gateway/src/core/asyncQueue.ts:18-23 | Ending settles every waiter as done, once |
| AsyncQueues.AsyncQueue.FailQueue | apps/gateway/src/core/asyncQueue.ts:25-29 | Failing settles every waiter with the error and remembers the error value, which may be undefined |
| AsyncQueues.AsyncQueue.NextValue | apps/gateway/src/core/asyncQueue.ts:31-39 | Stored values come first, then failure, then end; otherwise the call waits |
| AsyncQueues.DeliveryIsInOrder | apps/gateway/src/core/asyncQueue.ts:11-39 | Over every interleaving accepted pushes are delivered once, in order, and end or failure only after them |
| AsyncQueues.OrderedIffNoLostFailure | apps/gateway/src/core/asyncQueue.ts:25-34 | That holds exactly if no undefined failure ever meets a waiter |
| AsyncQueues.FailureThenValue | apps/gateway/src/core/asyncQueue.ts:25-34 | A run in which an undefined failure reaches a waiter and a value is delivered after it |
| AsyncQueues.NeverBothHeld | apps/gateway/src/core/asyncQueue.ts:11-39 | Values and waiters are never held together, on any run |
| ResponsesSocket.ResponsesSocketSession.Create | apps/gateway/src/adapters/openaiResponsesWebSocket.ts:169-184 | A turn starts exactly on an open socket without an active turn; the two refusals are told apart |
| ResponsesSocket.ResponsesSocketSession.Arrive | apps/gateway/src/adapters/openaiResponsesWebSocket.ts:117-163 | Every socket callback feeds the active turn's queue only, and close and abort close the session |
| ResponsesSocket.NothingAfterTheEnd | apps/gateway/src/adapters/openaiResponsesWebSocket.ts:149-163 | Whatever arrives after the closing event, a socket close included, changes nothing |
| ResponsesSocket.CleanEndMeansTerminalLast | apps/gateway/src/adapters/openaiResponsesWebSocket.ts:143-149 | A turn without fault received every message up to its first terminal one |
| ResponsesSocket.EveryTurnReceivesItsMessages | apps/gateway/src/adapters/openaiResponsesWebSocket.ts:165-235 | In every run of the socket each turn consumed a prefix of exactly the messages between its creation and its first closing event, and all of them if it ended |
| ResponsesSocket.TerminalBeatsLaterClose | apps/gateway/src/adapters/openaiResponsesWebSocket.ts:149-160 | A turn whose first closing event was a terminal message never ends in a fault |
| ResponsesSocket.IdSettlesOnce | apps/gateway/src/adapters/openaiResponsesWebSocket.ts:185-225 | Once a turn's upstream id is known no step changes it |
| ResponsesSocket.TurnsOwnDisjointSpans | apps/gateway/src/adapters/openaiResponsesWebSocket.ts:117-229 | In every run each turn owns its own stretch of the run, the stretches do not overlap, and a turn was given exactly what arrived on the socket during its stretch |
| JsonText.StringRoundTrip | apps/gateway/src/cache/cacheKey.ts:8-12 | Reading a printed string literal gives back any string of UTF-16 units, lone surrogates included |
| CacheKey.SortAscends | apps/gateway/src/cache/cacheKey.ts:11 | Sorted keys ascend strictly by UTF-16 units |
| CacheKey.PrintsItsNormalForm | apps/gateway/src/cache/cacheKey.ts:7-13 | The canonical text is the plain print of the tree with sorted keys |
| CacheKey.ReaderInvertsPrinter | apps/gateway/src/cache/cacheKey.ts:7-13 | A reader gives the printed tree back from any suffix that does not continue a number |
| CacheKey.NormalDecides | apps/gateway/src/cache/cacheKey.ts:11-12 | Normal forms are equal exactly when trees are equal up to key order |
| CacheKey.CanonicalTextDecides | apps/gateway/src/cache/cacheKey.ts:3-13 | Two trees have one canonical text exactly when they are equal up to object key order |
| CacheKey.AbsentCollidesWithNull | apps/gateway/src/cache/cacheKey.ts:8 | An undefined property and a null one print alike though the trees differ |
| CacheKey.KeysIsolateNamespaces | apps/gateway/src/cache/cacheKey.ts:19-28 | Cache keys are equal exactly when call type, namespace and digest of the canonical text are, for every namespace, given call types and digests without a colon |
| Sse.ParseSSE | apps/gateway/src/core/sse.ts:10-61 | The loop over arriving chunks yields the events of the whole text, so chunking does not matter |
| Sse.ChunkingIsIrrelevant | apps/gateway/src/core/sse.ts:25-55 | Two chunks leave the reader where their concatenation does, from any state |
| Sse.ReadingChunkByChunk | apps/gateway/src/core/sse.ts:15-61 | A reader given the chunks one by one ends with the events of the whole text |
| Sse.ReadingPrinted | apps/gateway/src/core/sse.ts:30-60 | Reading a printed event list gives it back with one carriage return per line stripped and nothing else changed |
| Sse.RoundTripIffFaithful | apps/gateway/src/core/sse.ts:30-60 | The round trip is exact exactly when names are one line and no line ends in a carriage return |
| SseStandard.LineAgreesIff | apps/gateway/src/core/sse.ts:33-53 | On one line, reader and section 9.2.6 of the WHATWG HTML standard agree exactly if it is not a bare data field, nor a bare event field while a nonempty name is pending |
| SseStandard.TextAgreesIff | apps/gateway/src/core/sse.ts:24-61 | If the LF-ended lines are plain, both give the same events exactly if what follows them, cut at carriage returns, dispatches nothing for the standard, or just the pending event under its name where one is pending; without a carriage return that means that no data line is left without a blank one |
| SseStandard.LoneCRStreamAgreesIff | apps/gateway/src/core/sse.ts:31-61 | A stream without LF gives the same events exactly if no data field in it has a blank line behind it |
| SseStandard.LineConditionIsExact | apps/gateway/src/core/sse.ts:30-54 | A line is plain (no bare field, and behind a lone carriage return nothing the standard acts on) exactly if it makes no difference in any text of plain lines whose rest agrees |
| SseStandard.BareDataDiffers | apps/gateway/src/core/sse.ts:48-52 | A text with a bare data field for which the standard dispatches an event and the reader none |
| SseStandard.BareEventDiffers | apps/gateway/src/core/sse.ts:48-52 | Texts with a bare event field that reader and standard give different names |
| SseStandard.LoneCRDiffers | apps/gateway/src/core/sse.ts:31-35 | Texts with a lone carriage return that are one data line for the reader and two for the standard |
| SseStandard.LoneCRStreamDiffers | apps/gateway/src/core/sse.ts:31-35 | Streams of lines ended by a carriage return alone, an event for the standard and nothing for the reader |
| SseStandard.UnfinishedEventDiffers | apps/gateway/src/core/sse.ts:56-61 | Texts ending in a data line, which the reader emits and the standard drops |
| ExtraBody.ValidateJsonValue | apps/gateway/src/core/extraBody.ts:41-79 | Accepts exactly finite JSON of depth at most 12 without dangerous keys |
| ExtraBody.AcceptedIffNothingHarmful | apps/gateway/src/core/extraBody.ts:41-79 | Extras are accepted exactly if nothing reachable in them, through lists as well as objects, is below a dangerous key, deeper than 12 or not JSON |
| ExtraBody.MergeIsDisjointUnion | apps/gateway/src/core/extraBody.ts:105-136 | Every leaf of body and extras appears unchanged at its path, no other leaf appears, and they never collide |
| ExtraBody.ManagedPathIsProtected | apps/gateway/src/core/extraBody.ts:110-120 | Accepted extras never set a managed path along which the body has objects |
| ExtraBody.PathsReadWithDots | apps/gateway/src/core/extraBody.ts:111-112 | The name a path is compared by is its keys with dots between |
| ExtraBody.OpenPathIsUnchecked | apps/gateway/src/core/extraBody.ts:110-134 | Where the body lacks a prefix of a path and no prefix up to it is managed, extras nested along the path collide with nothing, whatever else is managed |
| ExtraBody.ManagedPathSetIffOpen | apps/gateway/src/core/extraBody.ts:41-136 | For every set of managed paths, validated, non-colliding extras can set one of them exactly when the body lacks a proper prefix with no managed prefix up to it, and it has at most 12 keys, none dangerous |
| ExtraBody.ManagedPrefixProtects | apps/gateway/src/core/extraBody.ts:110-120 | With both a and a.b managed, no accepted extras set a.b in an empty body |
| ExtraBodyMerge.CloneNode | apps/gateway/src/core/extraBody.ts:138 | A clone has the same contents and shares no object with the original |
| ExtraBodyMerge.Merge | apps/gateway/src/core/extraBody.ts:105-136 | The in-place merge succeeds exactly when no key is managed or occupied and then writes the union into the tree of objects |
| ExtraBodyMerge.MergeExtraBodyDeep | apps/gateway/src/core/extraBody.ts:86-141 | Succeeds exactly for acceptable, small enough, non-colliding extras; the result is a new tree and the caller's body is untouched |
| Parameters.ExplicitlyUnsupported | apps/gateway/src/catalog/parameters.ts:80-85 | Finds an unsupported public name exactly when one of a field's names is unsupported |
| Parameters.DroppingKeepsTheGreatestCleanPart | apps/gateway/src/catalog/parameters.ts:395-473 | After dropping, the checker reports nothing, and every part of the request with nothing to report is still there with its values |
| Parameters.SentOnceIsEnough | apps/gateway/src/catalog/parameters.ts:382-480 | Applying the drop policy twice equals applying it once |
| ParameterLaws.ExactlyTheRuledOutIsDropped | apps/gateway/src/catalog/parameters.ts:60-76 | Wherever it occurs, a key whose entry is false, unsupported or ignored, and a table field with such a name, is reported and not sent; everything else is sent unchanged |
| ParameterLaws.DroppingLeavesNoEmptyObject | apps/gateway/src/catalog/parameters.ts:412-478 | Where something is dropped, no object is sent empty or added, and one is left out exactly if all it held was ruled out |
| ParameterLaws.ReportedNamesAreRuledOut | apps/gateway/src/catalog/parameters.ts:60-83 | Every reported name has an entry that is false, unsupported or ignored |
| ParameterLaws.NothingRuledOutNothingReported | apps/gateway/src/catalog/parameters.ts:60-76 | With entries that are all true or of other modes, no request is reported and drop sends the request itself |
| ParameterLaws.FieldsAnswerToTheirOwnName | apps/gateway/src/catalog/parameters.ts:147-211 | Every table field answers first to the public spelling of its own property |
| ParameterLaws.TablesCoverEveryField | apps/gateway/src/catalog/parameters.ts:147-211 | Every field with a public name is checked in some table, and no other |
| ParameterPolicy.RequestedUnsupportedParameters | apps/gateway/src/catalog/parameters.ts:322-366 | The sorted list of exactly the unsupported names the request asks for |
| SortedNames.SortedIsUnique | apps/gateway/src/catalog/parameters.ts:365 | A set of names has one sorted list |
| ParameterPolicy.DropFields | apps/gateway/src/catalog/parameters.ts:398-404 | Deletes from the copy exactly the fields with an unsupported name and names exactly those |
| ParameterPolicy.DropKeys | apps/gateway/src/catalog/parameters.ts:405-414 | Deletes from the copy exactly the unsupported keys and names exactly those |
| ParameterPolicy.DropResponses | apps/gateway/src/catalog/parameters.ts:415-446 | The transport is replaced by a cleaned copy, or removed when nothing is left |
| ParameterPolicy.ApplyUnsupportedParameterPolicy | apps/gateway/src/catalog/parameters.ts:382-480 | allow sends the request itself, error throws exactly if something is unsupported, drop sends a new request without exactly the keys and fields whose entries rule them out, and its list of dropped names is the reported one; a map that rules nothing out never changes or refuses a request; the caller's request is never written |
| Cost.SortTiers | apps/gateway/src/logging/cost.ts:36-38 | The tiers in ascending threshold order, equal ones in list order |
| Cost.EffectiveRates | apps/gateway/src/logging/cost.ts:30-62 | The overwriting loop ends with, for each rate, the value of the highest exceeded tier that defines it, or the base rate |
| Cost.WinnerIsHighest | apps/gateway/src/logging/cost.ts:25-29 | The tier that sets a rate is exceeded, defines it and is the highest such; there is none exactly if no tier applies |
| Cost.TierOrderIsIrrelevant | apps/gateway/src/logging/cost.ts:36-51 | No order of listing the tiers changes any rate at any prompt size exactly if tiers with one threshold agree wherever they set the same rate |
| Cost.EqualThresholdsDependOnOrder | apps/gateway/src/logging/cost.ts:36-51 | Two orders of two tiers that give different rates |
| CostLaws.RatesAreThoseListed | apps/gateway/src/logging/cost.ts:30-47 | The rate of each kind is that of the highest exceeded tier that sets it, or the base's, or the base input rate for cached tokens and nothing for the others |
| Cost.ComputeCost | apps/gateway/src/logging/cost.ts:70-127 | The breakdown of a usage record: every token charged once at the rate of its kind, and the upstream's figure used only without configured pricing |
| Cost.EachKindIsChargedItsRate | apps/gateway/src/logging/cost.ts:81-98 | More completion tokens, units or audio add their own price to the total, and a prompt token that turns out cached adds the difference between its cache rate and the input rate |
| CostLaws.CachingIsFreeOfChargeAndDiscount | apps/gateway/src/logging/cost.ts:33-34 | Where no cache rate is set and no exceeded tier sets the input rate, a bill does not depend on how much of the prompt was cached |
| CostLaws.CachedTokensKeepTheBaseRate | apps/gateway/src/logging/cost.ts:33-34 | Without cache rates, cached tokens cost what uncached ones do under the base alone, whatever input rate a tier sets |
| CostLaws.ProviderPriceCountsWithoutAList | apps/gateway/src/logging/cost.ts:94-123 | The provider's price is the total exactly where nothing is priced, and is kept in the record always |
| CostLaws.OneBill | apps/gateway/src/logging/cost.ts:70-123 | A bill in numbers with every kind of charge above a tier's threshold |
| CostLaws.OneBillAtTheThreshold | apps/gateway/src/logging/cost.ts:40-41 | The same at the threshold, charged at the base's rates |
| Cost.EffectiveRateIsBounded | apps/gateway/src/logging/cost.ts:129-133 | No rate in force at any prompt size exceeds the estimate's rate |
| Cost.CoveredUsageStaysWithinTheEstimate | apps/gateway/src/logging/cost.ts:129-167 | Usage within the reservation never costs more than a non-null estimate |
| CostLaws.OneEstimate | apps/gateway/src/logging/cost.ts:158-166 | A reservation in numbers |
| Cost.AdmissionIsSoundExactlyWhenCovered | apps/gateway/src/logging/cost.ts:134-167 | The estimate bounds the cost under every non-negative pricing exactly when the usage is within the reservation, counting cached tokens beyond the prompt |
| Cost.CachedWithinThePromptIsCovered | apps/gateway/src/logging/cost.ts:64-69 | If cached tokens are part of the prompt, reserving prompt and completion tokens suffices |
| Cost.OverreportedCacheEscapesTheEstimate | apps/gateway/src/logging/cost.ts:81-90 | A usage record with more cached than prompt tokens can cost more than the estimate |
| ThoughtId.RoundTripIffNoOverlap | apps/gateway/src/core/providerSpecificFields.ts:236-272 | Decoding an encoded id returns both parts, and stripping it returns the id, exactly when the id ends in neither `__thought` nor `__thought_` |
| ThoughtId.OverlapMovesTheCut | apps/gateway/src/core/providerSpecificFields.ts:254-266 | A concrete id that loses its ending to the signature |
| ThoughtId.ReencodingRestores | apps/gateway/src/core/providerSpecificFields.ts:236-266 | Encoding a decoded id with both parts present restores the string |
| ThoughtId.DecodedIdsAreClean | apps/gateway/src/core/providerSpecificFields.ts:254-272 | A decoded id holds no separator, decoding or stripping again changes nothing, and strip agrees with decode |
| ThoughtId.EncodeIsIdempotent | apps/gateway/src/core/providerSpecificFields.ts:232-248 | Encoding twice is encoding once, and a carried signature is never replaced |
| ThoughtId.SpellingsCarryAlike | apps/gateway/src/core/providerSpecificFields.ts:205-213 | Either spelling of the field carries a signature; the snake-case one is decisive where it is not missing |
| ThoughtId.EncodingIsInjective | apps/gateway/src/core/providerSpecificFields.ts:236-248 | Distinct non-overlapping ids and signatures have distinct encodings |
| ProviderRecords.MergeRecords | apps/gateway/src/core/providerSpecificFields.ts:36-50 | The loop that overwrites a clone key by key computes the deep merge |
| ProviderRecords.LaterLeavesWin | apps/gateway/src/core/providerSpecificFields.ts:36-53 | A leaf of the result is a leaf of the override, or one of the base at a path the override neither has nor cuts off |
| ProviderRecords.MergeIsIdempotent | apps/gateway/src/core/providerSpecificFields.ts:36-50 | Merging a record into itself changes nothing |
| ProviderRecords.SwallowsIffCovers | apps/gateway/src/core/providerSpecificFields.ts:36-50 | Merging gives the override itself exactly if every key of the base occurs in it, also inside records |
| ProviderRecords.GroupingMattersIffForgotten | apps/gateway/src/core/providerSpecificFields.ts:52-65 | Merging three records from the left equals merging the last two first exactly when nowhere a record is replaced by a plain value and that by a record lacking some of its keys |
| ProviderRecords.GroupingMatters | apps/gateway/src/core/providerSpecificFields.ts:52-65 | Three records for which the two groupings differ |
| FetchSemaphore.AsyncSemaphore.Enter | apps/gateway/src/files/requestContentInputs.ts:972-977 | A task starts exactly if a permit is free, and otherwise joins the end of the line |
| FetchSemaphore.AsyncSemaphore.Leave | apps/gateway/src/files/requestContentInputs.ts:978-984 | The permit goes to the first waiter, or back to the pool when nobody waits |
| FetchSemaphore.PermitsInEveryRun | apps/gateway/src/files/requestContentInputs.ts:964-986 | Free, running and handed-off permits add up to the limit; nobody waits while one is free; permits go to the earliest arrivals, as many as there can be; and a waiting line always has somebody able to move |
| FetchSemaphore.WaitersAreServedInTurn | apps/gateway/src/files/requestContentInputs.ts:980-983 | The waiter with i others before it has its permit after i + 1 further operations end |
| ContentInputs.KeysSeparateSources | apps/gateway/src/files/requestContentInputs.ts:1077-1083 | URLs and decodable data URLs have equal source keys exactly if they are the same source, whatever the files are called |
| ContentInputs.MalformedSharesAKeyIff | apps/gateway/src/files/requestContentInputs.ts:1080-1084 | A data URL that does not decode shares its key with one that does exactly if it is a file whose value and name, joined by a colon, begin with a decodable value and a colon |
| ContentInputs.MalformedIsServedIff | apps/gateway/src/files/requestContentInputs.ts:1074-1110 | Some run serves a data URL that does not decode exactly if it is a nonempty file whose value and name, joined by a colon, begin with a decodable value and a colon |
| ContentInputs.MalformedValueIsServed | apps/gateway/src/files/requestContentInputs.ts:1084-1110 | A malformed file that is refused alone but given the promise of a decoded one when that came first |
| ContentInputs.ContentInputResolver.BeginMaterialize | apps/gateway/src/files/requestContentInputs.ts:1074-1110 | A part gets the promise it has, or that of its source, or a new one that is remembered for both |
| ContentInputs.ContentInputResolver.FinishMaterialize | apps/gateway/src/files/requestContentInputs.ts:1111-1123 | A part is counted on its first answer only, and that answer fails exactly if the total then exceeds the limit |
| ContentInputs.EachSourceOnceEachPartOnce | apps/gateway/src/files/requestContentInputs.ts:1074-1124 | In every run parts that materialize share a promise exactly if they have the same source, each part is counted once, and the total is the sum over counted parts |
| ContentInputs.WithinTheLimitUntilRefused | apps/gateway/src/files/requestContentInputs.ts:1112-1121 | The sum of counted parts is within the limit exactly as long as no call was refused |
| ContentInputs.RefusedExactlyWhenNewAndOver | apps/gateway/src/files/requestContentInputs.ts:1112-1121 | Over a run, an answer is refused exactly if its part has not answered before and the sizes of all parts that have, with its own, exceed the limit |
| ContentInputs.RejectedIsNeverCounted | apps/gateway/src/files/requestContentInputs.ts:1111-1113 | A part whose promise was rejected fails every time and is never counted |
| ContentInputs.RetryAfterRefusalPasses | apps/gateway/src/files/requestContentInputs.ts:1112-1121 | For any three URLs of the largest fetched size, a run in which the third is refused and then passes with the total over the limit |
| ExtensionBreaker.BuildInstances | apps/gateway/src/extensions/runtime.ts:498-566 | One instance per id, the first entry winning; invalid entries are disabled for load, not dropped |
| ExtensionBreaker.SetupDefinition | apps/gateway/src/extensions/runtime.ts:606-634 | A failing setup disables exactly the definition's enabled active instances |
| ExtensionBreaker.InstancesFor | apps/gateway/src/extensions/runtime.ts:666-681 | Fails exactly if an enabled critical instance with no list that excludes the scope is disabled, returning such an instance, and otherwise selects, in order, exactly the enabled active instances with the hook and no such list |
| ExtensionBreaker.FewerListsApplyMore | apps/gateway/src/extensions/runtime.ts:260-275 | Leaving out a list never takes an instance out of consideration |
| ExtensionBreaker.EntriesDecideTheFirstSelection | apps/gateway/src/extensions/runtime.ts:515-566 | Before anything ran, an entry that is not switched off and admits the scope blocks it exactly if it is critical, by itself, by its definition or in doubt, and invalid or of an unknown definition, and runs exactly if it is valid and its definition has the hook |
| ExtensionBreaker.FirstEntriesWin | apps/gateway/src/extensions/runtime.ts:502-513 | The entries kept are exactly those whose id no earlier entry has |
| ExtensionBreaker.BeginRun | apps/gateway/src/extensions/runtime.ts:714-719 | A run fails before any hook executes exactly in that case |
| ExtensionBreaker.HookRun.Deliver | apps/gateway/src/extensions/runtime.ts:720-738 | A success clears the count and threads the value, anything else is recorded against that instance only and fails the run |
| ExtensionBreaker.LastReplacementIsPassedOn | apps/gateway/src/extensions/runtime.ts:720-738 | What a run passes on is the last value that replaced it, or the first one |
| ExtensionBreaker.HookRun.DeliverError | apps/gateway/src/extensions/runtime.ts:820-841 | A failing error hook changes the last error only and the run goes on |
| ExtensionBreaker.Instance.RecordFailure | apps/gateway/src/extensions/runtime.ts:687-712 | The count grows, and reaching the limit disables the instance for the breaker |
| ExtensionBreaker.ResetInstance | apps/gateway/src/extensions/runtime.ts:889-918 | Revives exactly the instance of that id, and only from a breaker trip |
| ExtensionBreaker.ManifestStatesAreInitial | apps/gateway/src/extensions/runtime.ts:515-634 | Whatever loading and a failing setup make of an entry is a state that a history can start in |
| ExtensionBreaker.DisabledIffAReason | apps/gateway/src/extensions/runtime.ts:515-546 | Over every history a reason is present exactly if the instance is not active, and other disablements are final |
| ExtensionBreaker.CountIsTheStreak | apps/gateway/src/extensions/runtime.ts:683-692 | While active, the count is the number of failures since the last success or revival |
| ExtensionBreaker.TripsNeedAStreak | apps/gateway/src/extensions/runtime.ts:692-711 | The breaker trips only as a failure completes the configured number without a success between |
| ExtensionBreaker.StreaksTrip | apps/gateway/src/extensions/runtime.ts:692-711 | Such a streak always leaves the instance disabled, however runs overlap |
| ExtensionBreaker.TrippedCountIsFullIff | apps/gateway/src/extensions/runtime.ts:683-712 | From a trip on a count is full exactly if no success came since, or enough failures after the last one |
| ExtensionBreaker.OnlyResetRevives | apps/gateway/src/extensions/runtime.ts:894-916 | An instance becomes active again exactly by a reset of a breaker trip |
| ExtensionBreaker.ErrorHooksDoNotCount | apps/gateway/src/extensions/runtime.ts:829-839 | Leaving error-hook failures out of a history changes neither status nor count nor reason |
| ExtensionBreaker.LateSuccessZeroesATrippedCount | apps/gateway/src/extensions/runtime.ts:683-685 | For every limit, a history that ends disabled with a count of zero |
| Finalization.FinalizationQueue.EnqueueFinalization | apps/gateway/src/logging/operations.ts:66-85 | Accepts and schedules a drain below the limit, and otherwise drops the job and resolves at once |
| Finalization.FinalizationQueue.DrainFinalizations | apps/gateway/src/logging/operations.ts:43-47 | Starts draining unless somebody drains already |
| Finalization.FinalizationQueue.TakeBatch | apps/gateway/src/logging/operations.ts:47-63 | Takes the oldest jobs, at most 100, or stops draining |
| Finalization.QueueInEveryRun | apps/gateway/src/logging/operations.ts:43-85 | At most one drainer, a bounded queue, waiting jobs always with a drainer under way or scheduled, jobs started in order, none run or resolved twice, and each call either accepted or dropped |
| Finalization.OneMicrotaskPerAcceptedCall | apps/gateway/src/logging/operations.ts:66-85 | In every run each accepted call has scheduled one microtask, still waiting or run, and every call is accepted or dropped |
| Finalization.QueuesComeToRest | apps/gateway/src/logging/operations.ts:43-64 | Without new calls every schedule ends within a bound |
| Finalization.AtRestEverythingIsResolved | apps/gateway/src/logging/operations.ts:47-60 | At rest every accepted job has run and resolved exactly once, failed or not |
| Clipping.WrappingCosts | apps/gateway/src/logging/operations.ts:216-217 | Wrapping a text takes at least 28 bytes more than the text, and exactly 28 for the empty one |
| Clipping.EveryRoundShrinks | apps/gateway/src/logging/operations.ts:218-221 | Every round drops at least one unit, also when slice is given -1 |
| Clipping.BoundedPayloadComponent | apps/gateway/src/logging/operations.ts:205-223 | Returns the payload exactly if it fits; otherwise terminates with a wrapper around a proper prefix, cut last from a prefix that did not fit, and it fits exactly if the limit is at least 28 |
| Clipping.CutsAreProportional | apps/gateway/src/logging/operations.ts:219-220 | The last cut kept the share of a text that did not fit which the limit is of its size, up to two units |
| Clipping.WrapperReadsBack | apps/gateway/src/logging/operations.ts:217-222 | Reading the serialized wrapper gives back the clipped text |
| Clipping.WrapperIsPlainJson | apps/gateway/src/logging/operations.ts:216-217 | The wrapper is the plain JSON text of an object that says it is truncated and holds the clipped text |
| CatalogIndex.OneBaseAtMost | apps/gateway/src/catalog/index.ts:32-34 | A name is a dated snapshot of at most one base |
| CatalogIndex.SnapshotSuffixesAreDates | apps/gateway/src/catalog/index.ts:32-34 | A suffix marks a snapshot exactly if it spells a year, month and day or a month and year in digits, with dashes between |
| CatalogIndex.LookupMeans | apps/gateway/src/catalog/index.ts:59-88 | An exact name wins, otherwise the one base the name is a snapshot of, otherwise nothing |
| CatalogIndex.AnyOrderFindsTheSame | apps/gateway/src/catalog/index.ts:54-55 | The order of scanning does not change the answer |
| CatalogIndex.SortLongestFirst | apps/gateway/src/catalog/index.ts:51-56 | The same entries, longest name first |
| CatalogIndex.Catalogs.CatalogIndexFor | apps/gateway/src/catalog/index.ts:46-58 | The cached index of a catalog is always the index of its entries |
| CatalogIndex.Catalogs.GetAdapterCatalogEntry | apps/gateway/src/catalog/index.ts:59-88 | Through cache and sort, the answer is that of one scan in declaration order |

## Left out

- StreamLifecycle.ObserveChatStream: the statements between two waits read one clock value, at which the wait resumed; an item arriving at the very deadline wins over the timer.
- Chunk fields the observer only forwards: identifiers, log probabilities and provider fields are opaque strings.
- Continuation.ContinuationRefinesReplay: rendering of requests, by extensions too, is taken as faithful, input references arrive resolved, and an eviction is reported before any chunk of the turn.
- The queued-turn counter of the socket handler and the warm-up request inherited by the next turn.
- Rendering, storage of responses in the database and access scopes: a response stored elsewhere is a step of the environment.
- ResponsesSocket.ResponsesSocketSession.Create: building and sending the message is not part of the model; a send error arrives as an event.
- ResponsesSocket.ResponsesSocketSession.Arrive: a text message that is the JSON null makes the message callback throw, which no event models.
- A generator that is abandoned before its first read leaves the socket busy; the model starts reading.
- CacheKey.KeysIsolateNamespaces: the hash is an arbitrary function, so collisions of digests are not excluded.
- CacheKey.CanonicalTextDecides: numbers are identified with the text the platform prints for them.
- The removal of volatile request fields before hashing.
- Sse.ParseSSE: decoding bytes to text is done before; the model starts from decoded chunks.
- ExtraBody.ManagedPathSetIffOpen: the size limit on extras, which long keys alone can exceed, is left to the whole operation.
- ExtraBodyMerge.MergeExtraBodyDeep: which of several errors is reported depends on key order, which maps do not have; properties holding undefined and inherited keys are not modelled, and the encoded size is a parameter.
- The shallow merge of extras with managed top-level keys.
- ParameterPolicy.ApplyUnsupportedParameterPolicy: values of fields are opaque, and nested values shared between a request and its copy are never written.
- The list of supported parameter names offered to clients.
- Cost.ComputeCost: amounts are real numbers; IEEE rounding is not modelled.
- Pruning of provider-specific records, and the thinking and content-part readers beside the id codec.
- ProviderRecords.MergeRecords: records are values, so that the result shares nothing with its arguments is not stated.
- Fetching, decoding, type sniffing and text extraction of content inputs: a promise's size is a parameter.
- ExtensionBreaker.BuildInstances: schemas are an oracle per entry; the final sort by priority, reloads and the status report are not modelled.
- ExtensionBreaker.HookRun.Deliver: the guard that aborts or times out a hook is one of the ways a hook throws.
- Finalization.FinalizationQueue.TakeBatch: telemetry calls do not throw.
- Retries, leases and database writes of the operation log, and redaction of sensitive keys before clipping.
- Clipping.BoundedPayloadComponent: the ratio is a real number, not a double.
- CatalogIndex.Catalogs.GetAdapterCatalogEntry: case-insensitive lookup, which no caller asks for.
- Prototype quirks of the source language: records are maps from strings.
