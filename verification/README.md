# A verified model of the gateway SDK's stateful core

The SDK lets a Core process forward requests to gateway plugins. Four of its parts keep state across
calls, threads or processes, and are modelled here in Dafny:

- **Optimistic state.** Plugins share a versioned key-value host through Get, compare-and-swap, Take and a
  versioned Delete. `StateStore` is the host, `StateHistory` says what sequential operations mean,
  `StateProtocol` interleaves any number of client calls step by step, `StateGuarantees` states what holds in
  every run, `StateClient` is the client's own retry loop against the host object, and `StateRefinement` shows
  that whatever this loop does is a run of the protocol.
- **Streaming responses.** A plugin's writes become chunks (`StreamWriter`, `StreamServer`) that Core replays
  into the downstream response (`StreamClient`); `Pipeline` joins the two halves. `WebSocketBridge` is the
  two-thread WebSocket protocol with cancel, close and join.
- **Request traces.** A bounded server-sent-event observer (`EventObserver`, its byte-at-a-time automaton
  `SseAutomaton`, its declarative meaning `SseParse`, its round trip `SseRoundTrip`, and the body that feeds
  it, `ObservedBody`), the collector's buffers, eviction list and diagnostic snapshot (`TraceCapture`), and the
  collector under concurrency (`TraceLifecycle`, with the snapshot taken meanwhile in `TraceSnapshot`).
- **Development scheduling.** The account list (`AccountStore`), weighted round robin with cooldowns
  (`Scheduler`, with `Fairness` and `Cooldown` over whole runs) and the per-request retry loop (`Failover`, and
  `FailoverStream` for streams). `HttpResponse` is the client's response writer as Go's net/http behaves; the
  `Downstream` of `StreamClient` is a different thing, a record of the calls made to any writer.

`Bytes` and `Outcomes` hold what the others share. Where the source changes state in place, so does the model:
classes and loops are proved against functions on values, and the lemmas about whole runs speak of the same
functions. Sections that the source guards with a mutex are one step each. The sizes that the source fixes
(256 KiB chunks, 16 MiB events, 48 MiB bodies, 8 exchanges) are parameters, so the results hold for every
value the definitions admit (a positive chunk size, room for at least two exchanges).

Some promises do not hold on every input; each such result names the exact condition and a failing input:

- A verdict survives the wire exactly when its kind is declared or zero, its upstream status and those of its
  diagnostic fit in 32 bits, and its retry delay and duration are whole milliseconds (`Outcomes.WireRoundTrip`).
- Core has the usage before the downstream can have the whole body, which `sdkgo/stream_completion.go:5-9`
  promises of a plugin that calls BeginStreamCompletion, exactly when at least one byte is written after that call
  or there is no usage (`Pipeline.UsageFirstExactly`, failing input in `Pipeline.BegunTooLate`).
- A plugin status that is a nonzero multiple of 2^32, sent without headers or body, commits no response
  (`Pipeline.CommitException`).
- A request body that cannot be replayed, and whose declared length is short of its real one, can be attached to
  a diagnostic as complete although only part of it was sent; this happens exactly when the size known beforehand
  is below the real one and within the limit (`TraceCapture.PartPassesIfUndeclared`).
- A second WrapResponse of the same kind on one open exchange leaves a buffer that Finish never releases
  (`TraceLifecycle.NothingOutlivesFinish`).
- A call whose WebSocket stream cannot be opened returns without closing the connection
  (`WebSocketBridge.BridgeIsSafe`).
- A full turn of the weighted round robin repeats a slot when the counter wraps inside it, unless the number of
  slots divides 2^64 (`Fairness.EverySlotOnce`).
- In a stream, all bytes of abandoned attempts stay in the client's response, in front of the rest, unless the
  response has a status without a body. It is that of the final attempt alone exactly when the abandoned ones
  committed nothing and the final one, before it commits, sets or deletes every header that they left behind; or
  when they committed, without any byte, the very status and headers that follow; or when the final attempt fails
  without a response anyway (`FailoverStream.StreamKeepsAbandoned`, failing inputs in
  `FailoverStream.AbandonedHeaderShows` and `FailoverStream.AbandonedWriteShows`).
- Outside a stream the client gets one response unless the status of the answer is not within 100 to 999, and then
  none (`Failover.UnansweredMeans`, failing input in `Failover.OddStatusIsUnanswered`).
- The development loop also retries after any error and against a terminal scope, where the outcome itself does
  not allow failover (`Scheduler.RetriesBeyondFailover`, failing input in `Scheduler.TerminalIsRetried`).
- A payload that contains CR, equals `[DONE]`, is empty or is too large is not given back by the observer, nor one
  with a line that begins with a space if it is written without a space after the colon (`SseRoundTrip.RoundTrip`,
  failing input in `SseRoundTrip.LoneCrIsLost`).

The observer departs from sections 9.2.5 and 9.2.6 of the WHATWG HTML Living Standard as the code does: no
byte order mark, no bare `data` field, a flush at the end of the stream, and `[DONE]` dropped.

## Model

| member | source | states |
|---|---|---|
| `StateStore.State.Invoke` | devkit/testhost/state.go:21-76 | each host call moves the two maps and the sequence exactly as one step of the abstract store does, and replies accordingly; a cancelled call touches nothing |
| `StateStore.ApplyKeepsWellFormed` | devkit/testhost/state.go:42-63 | live versions always come from the sequence and are pairwise different |
| `StateStore.ManyAreFound` | devkit/testhost/state.go:64-71 | a look at many keys finds exactly the stored ones, with their values |
| `StateHistory.EndsOnce` | devkit/testhost/state.go:43-63 | an instance, once taken, deleted or replaced, is never ended again by any later operation |
| `StateHistory.SameVersionMeansUntouched` | devkit/testhost/state.go:36-58 | seeing a live version again means nothing changed the key in between |
| `StateHistory.SequenceCountsUpdates` | devkit/testhost/state.go:53-55 | the n-th successful write of a history issues version n |
| `StateProtocol.SwapDecides` | sdkgo/runtime_state.go:120-136 | a swap goes through exactly when the key was not changed since the Get, or was absent then and is absent again: the recurring version "0" (the ABA case) never lets a different value through |
| `StateProtocol.RunKeepsInv` | sdkgo/runtime_state.go:120-157 | in every interleaving of any number of calls, lost replies included, the store is the replay of the recorded history, every finished call committed what its event says, and every failed swap blames a change by another call between its Get and itself |
| `StateGuarantees.RunIsSequential` | sdkgo/runtime_state.go:120-148 | the host always equals some sequence of whole operations run one after the other |
| `StateGuarantees.UpdateIsAtomic` | sdkgo/runtime_state.go:120-136 | a successful Update took effect at one instant after it began, replacing the value stored there by its callback of that same value, and changed nothing else |
| `StateGuarantees.StoreLeavesItsValue` | sdkgo/runtime_state.go:30-37 | a successful Store left exactly its value, whatever was stored before |
| `StateGuarantees.FailureChangesNothing` | sdkgo/runtime_state.go:123-147 | a call that was cancelled, refused by its callback, contended away or not served left no trace in the history |
| `StateGuarantees.UnheardTookEffectOnce` | sdkgo/runtime_state.go:130-133 | a call whose reply was lost after the host had acted did what it was to do once, after it began, and nothing else |
| `StateGuarantees.HeardIfNothingLost` | sdkgo/runtime_state.go:130-133 | without lost replies no error hides an effect |
| `StateGuarantees.RealTimeOrder` | sdkgo/runtime_state.go:120-157 | the history respects real time: a call that had returned before another began took effect before it |
| `StateGuarantees.ContentionIsEarned` | sdkgo/runtime_state.go:121-147 | a contention error implies exactly sixteen attempts one after the other, and between the Get and the swap of each of them a change of that key by another call |
| `StateGuarantees.UncontendedUpdateSucceeds` | sdkgo/runtime_state.go:120-136 | an Update whose key nobody changes between its Get and its swap succeeds on the first attempt, whatever else is interleaved |
| `StateGuarantees.EveryAttemptCanSucceed` | sdkgo/runtime_state.go:121-136 | the same of every attempt up to the sixteenth, however many were lost before |
| `StateGuarantees.LostSwapIsRetried` | sdkgo/runtime_state.go:121-147 | a lost swap is followed by another attempt unless it was the sixteenth, which ends in the contention error |
| `StateGuarantees.IncrementsAddUp` | sdkgo/runtime_state.go:120-148 | if a key is only incremented, its value grows by exactly the number of calls that reported success, plus those whose reply was lost |
| `StateGuarantees.TakenAtMostOnce` | sdkgo/runtime_state.go:50-62 | no instance is returned as found by two Takes, in any run |
| `StateGuarantees.TakeIsAtomic` | sdkgo/runtime_state.go:50-62 | a Take returned the instance stored at one instant after it began, with its value and version, or that there was none, and left none there |
| `StateGuarantees.DeleteRemovesOnlyWhatItSaw` | sdkgo/runtime_state.go:150-157 | a finished Delete removed the very instance it had observed if that was still stored, and otherwise nothing |
| `StateGuarantees.VersionsIncrease` | devkit/testhost/state.go:53-55 | issued versions strictly increase along a run, so none is reissued, and none exceeds the number of steps, so a 64-bit sequence cannot wrap before 2^64 of them |
| `StateClient.SameVersionSameCell` | devkit/testhost/state.go:36-58 | whatever host calls rivals make, the same version for a key means the same instance or the same absence |
| `StateClient.Read` | sdkgo/runtime_state.go:122-129 | Get and callback: the version and the new value belong to the store as the Get found it |
| `StateClient.Swap` | sdkgo/runtime_state.go:130-145 | swap and back-off: a lost swap means rivals changed the instance since the Get |
| `StateClient.Attempt` | sdkgo/runtime_state.go:122-145 | one round against the host object, with its result for a success, a callback error, a cancellation and a lost reply |
| `StateClient.Update` | sdkgo/runtime_state.go:120-148 | the retry loop: a success wrote the callback of the value stored just before its swap, every earlier attempt was disturbed, contention means that all sixteen were, and the first of the sixteen that is neither disturbed, cancelled nor unheard, with a callback that accepts, is the last one and writes |
| `StateClient.ResultIsDetermined` | sdkgo/runtime_state.go:120-148 | rivals, lost replies and cancellations determine result, store and number of attempts: no other end fits them |
| `StateClient.Delete` | sdkgo/runtime_state.go:150-157 | the two-call Delete removes the instance its Get saw, or leaves the store to the rivals; an error means it did not come that far or its last reply was lost |
| `StateRefinement.UpdateRuns` | sdkgo/runtime_state.go:120-148 | whatever the retry loop comes to, the protocol comes to with the same store and outcome: the client's own steps in order, and in each of its gaps one call of the protocol for every rival host call that has an effect |
| `StateRefinement.RunUpdate` | sdkgo/runtime_state.go:120-148 | so the loop, run against the host object, is a run of the protocol from any of its states |
| `StateRefinement.DeleteRuns` | sdkgo/runtime_state.go:150-157 | the same of Delete |
| `StateRefinement.RunDelete` | sdkgo/runtime_state.go:150-157 | so Delete, run against the host object, is a run of the protocol |
| `Outcomes.WireRoundTrip` | runtimego/grpc/gateway_server.go:84-148 | what arrives of a verdict: it is the same exactly when the kind is declared or zero, the upstream status and the statuses in the diagnostic fit in 32 bits, and retry delay and duration are whole milliseconds; its failover decision always is |
| `Outcomes.ArrivesFieldByField` | runtimego/grpc/gateway_server.go:84-176 | the same field by field, with every request of the diagnostic |
| `Outcomes.KindsKeepTheirNumbers` | protocol/proto/plugin.proto:286-299 | a declared kind travels as its own number, and every number the protocol knows comes back as the kind of that number |
| `Outcomes.FailoverKinds` | sdkgo/outcome.go:86-103 | another account is tried exactly for faults of the account and passing faults of the upstream, and never against a terminal scope |
| `Outcomes.Int32Is` | runtimego/grpc/gateway_server.go:228-230 | the conversion keeps the last 32 bits as a signed number |
| `Outcomes.WholeMsIs` | runtimego/grpc/gateway_server.go:90-91 | less than a millisecond is cut off, toward zero |
| `Outcomes.WideUpstreamStatusIsLost` | runtimego/grpc/gateway_server.go:228-234 | a success with upstream status 2^32 arrives with none |
| `Outcomes.ShortDelayIsLost` | runtimego/grpc/gateway_server.go:84-95 | a retry delay below a millisecond arrives as none |
| `StreamChunks.StatusIsFirst` | runtimego/grpc/gateway_server.go:549-555 | the status is decided by the first operation that touches the response |
| `StreamChunks.TouchedMeans` | runtimego/grpc/gateway_server.go:491-496 | a header operation replaces, extends or removes the values of one header and of no other |
| `StreamChunks.HeadersAtFirstWrite` | runtimego/grpc/gateway_server.go:557-572 | the headers that go out are those set before the first Write, whatever is set after it |
| `StreamChunks.CompletionCounts` | runtimego/grpc/gateway_server.go:478 | completion bytes are those written after the first BeginStreamCompletion |
| `StreamWriter.Writer.Write` | runtimego/grpc/gateway_server.go:501-547 | under arbitrarily failing sends: a complete Write took all its bytes, a failed one counts exactly this call's bytes that were sent, sent bytes and tail make up all accepted bytes until a failure, a prefix of them after it, and nothing is sent again |
| `StreamWriter.Writer.WriteCompletion` | runtimego/grpc/gateway_server.go:509-530 | during completion the last bytes written, at most one chunk of them, are always held back; what overflows goes out as one chunk of the old tail and then the new data in full chunks |
| `StreamWriter.Writer.WriteNow` | runtimego/grpc/gateway_server.go:531-546 | ordinary bytes go out at once in chunks as large as may be, an empty Write as an empty chunk |
| `StreamWriter.Writer.SendData` | runtimego/grpc/gateway_server.go:520-527 | the chunking loop sends consecutive full pieces and a last one, and counts exactly those that went out |
| `StreamWriter.Writer.FlushMeta` | runtimego/grpc/gateway_server.go:557-580 | the metadata chunk is sent at most once, with status and headers as they stand then; its failure is final |
| `StreamWriter.Writer.WriteHeader` | runtimego/grpc/gateway_server.go:549-555 | only the first status before anything was sent counts |
| `StreamWriter.Writer.BeginStreamCompletion` | runtimego/grpc/gateway_server.go:478 | completion begins at the bytes written so far and begins only once |
| `StreamServer.ForwardStream` | runtimego/grpc/gateway_server.go:394-455 | all the peer can ever see of a call: metadata first, bounded data that is a prefix of the body, nothing after a failure, and with a final chunk the whole body, the last min(B, chunk size) completion bytes in that chunk, and the plugin's verdict; when all sends go through the call fails exactly if its metadata or its final chunk is too large or the plugin failed without a verdict |
| `StreamServer.Conclude` | runtimego/grpc/gateway_server.go:409-454 | after a failed send no final chunk follows; otherwise the tail travels with the verdict, without diagnostics only if they do not fit |
| `StreamServer.CheckedFinalIs` | runtimego/grpc/response_limits.go:26-34 | the final chunk is refused exactly if the upstream body is over budget or the message does not fit even without diagnostics, which are dropped only if it does not fit with them |
| `StreamServer.BooksTellBody` | runtimego/grpc/gateway_server.go:501-547 | a valid writer's books explain what is on the wire, and what it still holds completes the body |
| `StreamServer.FinalClosesStream` | runtimego/grpc/gateway_server.go:438-454 | adding the final chunk with the tail completes the body |
| `StreamClient.Replay` | runtimego/grpc/gateway_client.go:166-199 | one chunk: the response is committed by the first chunk that starts it and only by it, and a short or failing write never passes for a complete one |
| `StreamClient.FailedOutcome` | runtimego/grpc/gateway_client.go:185-195 | what is returned beside an error never allows failover |
| `StreamClient.ForwardStream` | runtimego/grpc/gateway_client.go:149-207 | no error only if every byte up to the first chunk that is done and has a verdict was accepted; a write that fails there gives a terminal STREAM_ABORTED with usage, status and body of the decoded verdict, any other error the unknown kind and no usage; the delivered prefix reached the writer, in one Write for each chunk with data; the response is committed by the first chunk with a status, headers or data, with 200 if it has no status |
| `Pipeline.FinalOfPrefix` | runtimego/grpc/gateway_client.go:158-164 | a received prefix of a server's stream ends in a final chunk exactly when nothing is missing |
| `Pipeline.StrictBeforeFinal` | runtimego/grpc/gateway_server.go:509-530 | with completion bytes, everything before the final chunk is a strict prefix of the body |
| `Pipeline.ReceivedIsHonest` | runtimego/grpc/gateway_client.go:149-206 | for any received prefix and any writer: no error means the whole body and the plugin's verdict as the wire lets it through, and once the downstream has a whole body with completion bytes, Core holds the plugin's usage |
| `Pipeline.Deliver` | sdkgo/stream_completion.go:5-9 | the design goal, end to end, under any failing transport, truncated reception and failing downstream: where it can be met, Core has the usage before the downstream can see completion; the downstream sees a prefix of the plugin's bytes; no error means all of them and the plugin's own kind, scope, usage, status, body, reason and delay; an error is never retryable and its kind is unknown or STREAM_ABORTED |
| `Pipeline.UsageFirstExactly` | sdkgo/stream_completion.go:5-9 | over every stream a server can offer, every cut and every downstream, a whole body means that Core has the verdict's usage, if and only if a byte was written after completion began or there is no usage |
| `Pipeline.BegunTooLate` | sdkgo/stream_completion.go:5-9 | one byte and then BeginStreamCompletion shows the failure |
| `Pipeline.CutBeforeFinal` | runtimego/grpc/gateway_client.go:150-157 | it happens in a real run: without completion bytes, a reception that breaks right before the final chunk has the whole body and the zero outcome |
| `Pipeline.DeliverReliably` | runtimego/grpc/gateway_client.go:149-204 | without failures the body is the concatenation of all Writes, the response is committed once or not at all with the expected status and every header line the plugin set, and the verdict is the plugin's field by field as the wire lets it through, a missing reason filled in from its error and a missing duration from the time taken |
| `Pipeline.ArrivingTells` | runtimego/grpc/gateway_server.go:414-438 | server and wire change nothing of a verdict but those two, the cut numbers and an undeclared kind |
| `Pipeline.OrdinaryStatus` | runtimego/grpc/gateway_server.go:565-572 | for a status within 32 bits the response is committed if and only if the plugin called Write or WriteHeader, with its first status or 200 |
| `Pipeline.CommitException` | runtimego/grpc/gateway_server.go:569-572 | a response that was begun stays uncommitted exactly when its status is a nonzero multiple of 2^32 and there are neither headers nor body |
| `Pipeline.WideStatusIsLost` | runtimego/grpc/gateway_server.go:569-572 | a status of 2^32 alone shows it |
| `WebSocketBridge.RunKeepsInv` | runtimego/grpc/gateway_client.go:215-347 | what every step of receiver, sender and cancel callback keeps, over all interleavings |
| `WebSocketBridge.BridgeIsSafe` | runtimego/grpc/gateway_client.go:215-294 | Sends never overlap, CloseSend is the last call, the error push finds room, the connection is closed at most once and not by the cancellation that stops the reader, and the call returns only with the sender gone and the context cancelled, the connection closed once if the stream could be opened and not at all otherwise |
| `WebSocketBridge.UnopenedIsNotClosed` | runtimego/grpc/gateway_client.go:216-221 | the run in which the stream cannot be opened returns and leaves the connection as it is |
| `WebSocketBridge.BridgeRelaysInOrder` | runtimego/grpc/gateway_client.go:267-320 | in both directions exactly the first messages are passed on, as many as calls succeeded, text as text and binary as binary; at most the message in flight is missing |
| `WebSocketBridge.BridgeReturnsResult` | runtimego/grpc/gateway_client.go:218-346 | a RESULT frame returns its outcome, the end of the stream or a CLOSE frame neither outcome nor error, and each failing call its own error and no outcome; everything before was a success or a frame passed on or ignored |
| `WebSocketBridge.ReceiverTakesTurns` | runtimego/grpc/gateway_client.go:216-341 | the receiving thread opens, checks and connects once, and writes out every message before it receives again |
| `WebSocketBridge.JoinDrainsError` | runtimego/grpc/gateway_client.go:258-294 | the error of the sending thread waits for the join and is never left behind |
| `WebSocketBridge.CancelHasCause` | runtimego/grpc/gateway_client.go:216-291 | unless the caller cancels, the context stays alive until one of the two threads ends |
| `WebSocketBridge.StopCancels` | runtimego/grpc/gateway_client.go:288-291 | stopping the reader first disarms the callback and cancels the context |
| `WebSocketBridge.RankDecreases` | runtimego/grpc/gateway_client.go:288-294 | once the reader is being stopped, every step of any thread brings the join closer |
| `WebSocketBridge.JoinNeverStuck` | runtimego/grpc/gateway_client.go:288-294 | until the call returns some step that waits for nobody outside is possible |
| `WebSocketBridge.JoinEnds` | runtimego/grpc/gateway_client.go:288-294 | under any schedule at most twenty steps are left |
| `SseAutomaton.SplittingInvariance` | sdkgo/requesttrace/http.go:154-194 | every way of cutting the stream into writes gives the state and events of feeding it byte by byte |
| `SseAutomaton.FeedChunk` | sdkgo/requesttrace/http.go:169-185 | an oversize line may be noticed at a different byte with the same outcome |
| `SseAutomaton.FeedKeepsBounds` | sdkgo/requesttrace/http.go:174-212 | line and data never exceed the bound, and every payload handed over is below it, so the collector's own size guard never fires |
| `SseAutomaton.MarksAreSpelled` | sdkgo/requesttrace/http.go:201-218 | the marks the observer looks for |
| `EventObserver.EventObserver.Write` | sdkgo/requesttrace/http.go:154-194 | one read of any length is exactly its bytes fed one at a time |
| `EventObserver.EventObserver.NextLine` | sdkgo/requesttrace/http.go:160-193 | one round of the loop, including the LF of a CRLF cut between reads |
| `EventObserver.EventObserver.ConsumeLine` | sdkgo/requesttrace/http.go:196-212 | a line dispatches, is ignored, extends the data or makes the event oversize |
| `EventObserver.EventObserver.Flush` | sdkgo/requesttrace/http.go:214-223 | the payload without its last LF is handed over unless skipped, `[DONE]` or refused by the collector |
| `EventObserver.EventObserver.Finish` | sdkgo/requesttrace/http.go:225-237 | the end of the stream closes the last line and group |
| `EventObserver.EventObserver.Release` | sdkgo/requesttrace/http.go:239-244 | a released observer keeps nothing |
| `EventObserver.EventSlot.ObserveEvent` | sdkgo/requesttrace/trace.go:163-175 | the exchange keeps the most recent acceptable payload until it is closed |
| `SseParse.ObserverParses` | sdkgo/requesttrace/http.go:154-237 | for every stream and every splitting, the observed events are the declarative parse: lines at CR, LF or CRLF, groups at blank lines and at the end, payloads joined with LF, oversize, empty and `[DONE]` groups dropped |
| `SseRoundTrip.RoundTrip` | sdkgo/requesttrace/http.go:154-223 | an encoded payload, with or without a space after the colon, is given back as the one event under any splitting if and only if it is nonempty, free of CR, not `[DONE]`, within the bounds, and without the space has no piece that begins with one |
| `SseRoundTrip.DataLineIsKept` | sdkgo/requesttrace/http.go:201-212 | the payload of a single data line is kept whole if it does not begin with a space and loses exactly one if it does |
| `SseRoundTrip.OtherLineIsIgnored` | sdkgo/requesttrace/http.go:201-203 | a line that does not begin with `data:` changes nothing, wherever in an event it stands |
| `SseRoundTrip.LoneCrIsLost` | sdkgo/requesttrace/http.go:154-193 | a payload of one CR yields no event at all |
| `ObservedBody.ReadAll` | sdkgo/requesttrace/http.go:129-139 | reading a traced body to its end leaves the last event of its declarative parse on the exchange |
| `TraceCapture.BodyBuffer.Write` | sdkgo/requesttrace/trace.go:235-245 | an open buffer holds the first bytes written and counts all of them; a released one ignores the write |
| `TraceCapture.BodyBuffer.Snapshot` | sdkgo/requesttrace/trace.go:255-259 | the copy is as much of the body as may be kept, with the size of all of it, so it is the whole body exactly when the body is small enough |
| `TraceCapture.ReadRequestSnapshot` | sdkgo/requesttrace/http.go:76-92 | up to one byte more than may be kept; a reader's error within that range is reported, except an unexpected-end error within a plausible declared length, which passes for the end |
| `TraceCapture.RecordedWholeOrIncomplete` | sdkgo/requesttrace/trace.go:100-106 | a replayed request body is complete on record if and only if it is small enough and no shorter than declared, and then it is the whole body |
| `TraceCapture.EarlyEndIsIncomplete` | sdkgo/requesttrace/http.go:80-84 | a replay that broke off but passed for an end is complete on record exactly when it broke off at the declared length |
| `TraceCapture.ObservedComplete` | sdkgo/requesttrace/http.go:49-67 | a body observed while it is sent counts as complete as soon as it reaches the size known beforehand |
| `TraceCapture.ObservedFromNothing` | sdkgo/requesttrace/http.go:49-57 | before any of the body is sent, nothing of it is on record |
| `TraceCapture.PartPassesIfUndeclared` | sdkgo/requesttrace/http.go:49-57 | a proper part of an observed body can count as complete if and only if the size known beforehand is short of the real one and within the limit |
| `TraceCapture.RollOn` | sdkgo/requesttrace/trace.go:117-121 | dropping the second exchange and appending keeps the first and the latest |
| `TraceCapture.FirstAndLatest` | sdkgo/requesttrace/trace.go:114-121 | the list is the very first exchange and the others counted from the end |
| `TraceCapture.ExchangeList.Publish` | sdkgo/requesttrace/trace.go:115-121 | the list shifted in place is always the first exchange published and the latest others; the oldest other is evicted |
| `TraceCapture.ExchangeList.Shift` | sdkgo/requesttrace/trace.go:118-120 | the in-place copy drops the second entry and no other |
| `TraceCapture.Snapshot` | sdkgo/requesttrace/trace.go:177-226 | attached bodies and error body never exceed the budget together; request by request from the newest, a body is attached whole as recorded if and only if the record counts as complete and fits what later requests and the error body left over |
| `TraceCapture.ErrorIsWhole` | sdkgo/requesttrace/trace.go:210-220 | the error body is the whole response read so far or, if that was too large to keep, nothing; the last event stands in only where no response was buffered |
| `TraceCapture.SizeTellsAttached` | sdkgo/requesttrace/trace.go:196-208 | as many bytes are attached as the original size says exactly when the record counts as complete, and otherwise none |
| `TraceCapture.ReplayedIsWhole` | sdkgo/requesttrace/http.go:38-48 | a replayed body is attached byte for byte or not at all |
| `TraceCapture.ObservedIsWhole` | sdkgo/requesttrace/http.go:49-67 | so is an observed one, wherever it was interrupted, unless a part of it can pass for the whole |
| `TraceCapture.PartIsAttached` | sdkgo/requesttrace/trace.go:196-208 | a body of two bytes without a declared length, interrupted after the first, is attached as a whole body of one |
| `TraceLifecycle.RunKeepsInv` | sdkgo/requesttrace/trace.go:56-146 | in every interleaving of record, WrapResponse, body reads and Finish, each exchange and each buffer that is not lost has exactly one place from which it will be released |
| `TraceLifecycle.HeldOrReleased` | sdkgo/requesttrace/trace.go:88-146 | once every call has returned, each exchange ever created is held and open, or released and bare, and an open collector holds the first and the latest |
| `TraceLifecycle.RecordAfterFinish` | sdkgo/requesttrace/trace.go:88-97 | on a closed collector a call of record returns at once |
| `TraceLifecycle.WrapAttaches` | sdkgo/requesttrace/http.go:106-120 | a streaming response gets an event observer, any other a body buffer |
| `TraceLifecycle.LatestStays` | sdkgo/requesttrace/trace.go:163-175 | the latest event stays on an open exchange and none on a closed one |
| `TraceLifecycle.FinishReleasesAll` | sdkgo/requesttrace/trace.go:56-67 | after Finish and all calls, every exchange is released with nothing attached, and the buffers left alive are exactly those replaced by a second WrapResponse |
| `TraceLifecycle.LostIfReplaced` | sdkgo/requesttrace/http.go:106-120 | a buffer is ever lost if and only if some WrapResponse replaced an observer on an open exchange |
| `TraceLifecycle.NothingOutlivesFinish` | sdkgo/requesttrace/trace.go:130-146 | after that, whatever happens later leaves all buffers empty and all exchanges bare, if and only if no such replacement happened |
| `TraceLifecycle.ReplacedBufferFills` | sdkgo/requesttrace/trace.go:235-245 | a replaced buffer keeps what is read into it even after Finish |
| `TraceLifecycle.ReplacedBufferOutlivesFinish` | sdkgo/requesttrace/http.go:106-120 | the failing run: one exchange wrapped twice, Finish to its end with every call returned, and a late read that stays in the first buffer |
| `TraceLifecycle.CallsReturn` | sdkgo/requesttrace/trace.go:58-67 | under every schedule a call of record or Finish returns within a fixed number of its own steps |
| `TraceLifecycle.CallsNeverWait` | sdkgo/requesttrace/trace.go:123-146 | from every reachable state, and whatever the others do between its steps, a bounded number of its own steps brings a call of record or Finish to its end |
| `TraceSnapshot.ObservedWheneverSeen` | sdkgo/requesttrace/trace.go:177-208 | a snapshot that looks at an exchange and later at its buffer, at any two moments of any run with reads, evictions and Finish in between, attaches a body observed while it is sent whole or not at all, unless a part of it can pass for the whole |
| `TraceSnapshot.ReplayedWheneverSeen` | sdkgo/requesttrace/trace.go:177-208 | and a replayed one without exception |
| `AccountStore.AccountStore.constructor` | devkit/devserver/accounts.go:34-50 | the next identifier is one above the largest loaded, or 1 |
| `AccountStore.AccountStore.Create` | devkit/devserver/accounts.go:92-100 | appends the account under the next identifier, and keeps identifiers unique if they were |
| `AccountStore.AccountStore.Update` | devkit/devserver/accounts.go:103-115 | replaces the account with this identifier in place and keeps the identifier, or changes nothing |
| `AccountStore.AccountStore.Delete` | devkit/devserver/accounts.go:118-129 | removes the first account with this identifier and no other, and keeps identifiers unique if they were |
| `AccountStore.AccountStore.Get` | devkit/devserver/accounts.go:68-78 | finds the account with this identifier, if there is one |
| `AccountStore.EditsTouchOne` | devkit/devserver/accounts.go:103-129 | after Update or Delete every other identifier finds what it found before, even in a list with repeated identifiers |
| `AccountStore.UpdateFindsIts` | devkit/devserver/accounts.go:103-115 | after Update its identifier finds the new account |
| `AccountStore.EditsKeepOrder` | devkit/devserver/accounts.go:103-129 | Update keeps every place in the list and Delete the order of the others |
| `AccountStore.EditsNeedTheirAccount` | devkit/devserver/accounts.go:103-129 | without the identifier in the list neither changes anything |
| `AccountStore.DeleteLeavesNone` | devkit/devserver/accounts.go:118-129 | after Delete its identifier finds nothing if and only if it was not repeated |
| `AccountStore.NeverReissued` | devkit/devserver/accounts.go:92-129 | over any history an identifier that is gone never names an account again, identifiers stay unique, and the next one grows by at most one an edit |
| `Scheduler.Scheduler.Select` | devkit/devserver/scheduler.go:46-60 | both policies: the pick, and what becomes of cooldowns and counter; the pinned account is looked up first, and the fallback reads the list again after others may have edited it |
| `Scheduler.PinnedIsPicked` | devkit/devserver/scheduler.go:50-57 | the direct policy returns the account with the pinned identifier whenever the list has one, else the first |
| `Scheduler.PickIsListed` | devkit/devserver/scheduler.go:63-102 | round robin finds a listed account whenever there is one, a rested one if any is, and only then moves the counter |
| `Scheduler.CounterIsUint64` | devkit/devserver/scheduler.go:98-99 | the counter counts to 2^64 and begins again |
| `Scheduler.Scheduler.SelectWeightedRR` | devkit/devserver/scheduler.go:63-102 | the slot at the counter's position, or the first account when all are cooling; the counter wraps like a 64-bit one |
| `Scheduler.Scheduler.BuildSlots` | devkit/devserver/scheduler.go:75-90 | slots by weight of the accounts that are not cooling, while the expired cooldowns of listed accounts, and only those, are forgotten |
| `Scheduler.ExpiryLiftsNothing` | devkit/devserver/scheduler.go:75-81 | no cooldown that still lasts is lifted, and exactly those of listed accounts that have run out are forgotten |
| `Scheduler.Scheduler.ReportResult` | devkit/devserver/scheduler.go:105-133 | which verdicts cool an account, for how long, and which lift a cooldown |
| `Scheduler.ReportCools` | devkit/devserver/scheduler.go:105-133 | a rate limit cools as long as the upstream asks or 60 seconds, a dead account 300, an unavailable one 60, and any other verdict lifts the cooldown; no other account is touched |
| `Scheduler.RetriesBeyondFailover` | devkit/devserver/scheduler.go:136-144 | the loop retries what the outcome does not allow exactly after an error or against a terminal scope |
| `Scheduler.TerminalIsRetried` | devkit/devserver/scheduler.go:136-144 | a transient upstream failure with terminal scope shows it |
| `Scheduler.SlotsAreRested` | devkit/devserver/scheduler.go:76-96 | only listed accounts that are not cooling have slots, and no slot at all means all are cooling |
| `Cooldown.CooldownLasts` | devkit/devserver/scheduler.go:75-81 | over any run with a forward clock a cooldown stays as it is until it runs out or is reported on again |
| `Cooldown.HandleAll` | devkit/devserver/scheduler.go:46-133 | the scheduler object itself goes through these states over any run |
| `Cooldown.CooledIsNotPicked` | devkit/devserver/scheduler.go:63-133 | before its time is over a cooled account is picked only if every listed account is cooling, and then the first listed one is returned |
| `Fairness.CountSlots` | devkit/devserver/scheduler.go:75-90 | an account's part of the slots is its weight, or nothing while it cools or is not listed |
| `Fairness.EverySlotOnce` | devkit/devserver/scheduler.go:98-99 | a full turn uses every slot once if and only if the counter does not wrap inside it or the number of slots divides 2^64 |
| `Fairness.WeightedFairness` | devkit/devserver/scheduler.go:63-102 | over a full unbroken turn from any counter every account is picked exactly max(1, weight) times, or never while it cools |
| `Fairness.WrapSkips` | devkit/devserver/scheduler.go:98-99 | with three equal accounts a wrap gives the first two turns and the third none |
| `Failover.DevBufferWriter.Perform` | devkit/devserver/proxy.go:190-214 | the buffer collects headers, the last status and all bytes |
| `Failover.WriteForwardOutcome` | devkit/devserver/proxy.go:216-247 | one head and at most one body, from the outcome and, where that is silent, from the buffer |
| `Failover.VerdictGoesFirst` | devkit/devserver/proxy.go:216-236 | status, headers and body of the verdict go first, and the buffer fills in what it leaves open |
| `Failover.LastCodeIs` | devkit/devserver/proxy.go:212-214 | the buffered status is that of the last WriteHeader |
| `Failover.PagesAre` | devkit/devserver/proxy.go:35-45 | the three error pages that do not depend on a verdict |
| `Failover.ClosesWith` | devkit/devserver/proxy.go:107-133 | a final attempt with an error and no upstream status gives a 502 page with that error, any other its answer |
| `HttpResponse.BodyIsWritten` | devkit/devserver/proxy.go:76-82 | whatever reaches the client's own writer, the body is all that was written, in order, or nothing if the status that was committed has no body |
| `HttpResponse.StatusesAre` | devkit/devserver/proxy.go:216-247 | what a client sees of a status and some data, for every status |
| `HttpResponse.PageHeadersAre` | devkit/devserver/proxy.go:35-45 | an error page puts three content headers in place of those there were and leaves the others |
| `HttpResponse.EncodedIs` | devkit/devserver/proxy.go:35-45 | an error text is written as its bytes |
| `HttpResponse.Inherits` | devkit/devserver/proxy.go:76-82 | header by header, what a log makes of a writer that others have used: the values they left stand in front of its own unless it sets or deletes that header before it commits |
| `HttpResponse.SameIfTraceless` | devkit/devserver/proxy.go:76-105 | a log gives the same response as on an untouched writer if and only if what came before left no trace |
| `Failover.AnswerIs` | devkit/devserver/proxy.go:216-247 | the response a client sees of it: the status unless it is an informational one, every header line, and the body unless the status has none; no response at all for a status out of range |
| `Failover.UnansweredMeans` | devkit/devserver/proxy.go:107-137 | outside a stream a request ends without a response if and only if its final attempt is answered with a status out of range |
| `Failover.OddStatusIsUnanswered` | devkit/devserver/proxy.go:216-247 | an upstream status of 42 shows it |
| `Failover.Try` | devkit/devserver/proxy.go:76-133 | one attempt sends nothing outside a stream unless it is the final one, and reports its verdict even when it is abandoned |
| `Failover.RetriedMeans` | devkit/devserver/proxy.go:101-105 | an attempt is given up exactly if a scheduler shares the work and the plugin failed or its verdict asks for another account, whatever its scope |
| `Failover.Attempts` | devkit/devserver/proxy.go:64-137 | the retry loop takes the specified course: the plugin is called with exactly the accounts selected for its attempts, and the scheduler is told each of their verdicts |
| `Failover.HandleHTTP` | devkit/devserver/proxy.go:34-138 | the whole request, with no account, an unreadable body, a final attempt or exhaustion |
| `Failover.EveryVerdictIsReported` | devkit/devserver/proxy.go:95-99 | with a scheduler every call is followed by the report of its own verdict, abandoned or not, and nothing else is done |
| `Failover.NothingIsReported` | devkit/devserver/proxy.go:97-99 | without one only the calls are made |
| `Failover.CallsAre` | devkit/devserver/proxy.go:65-105 | every call goes to a selected account not tried before, and only the last may be final |
| `Failover.NoAccountTwice` | devkit/devserver/proxy.go:58-74 | at most max(1, accounts listed) calls, to pairwise different accounts, whatever the selections |
| `Failover.ExhaustedMeans` | devkit/devserver/proxy.go:65-71 | a request ends without an answer only when attempts are used up, nothing is selected, or a tried account comes again |
| `Failover.NoBytesFromAbandoned` | devkit/devserver/proxy.go:76-137 | outside a stream what is sent to the client is exactly one answer or error page, which does not depend on anything the abandoned attempts wrote or returned |
| `FailoverStream.StreamKeepsAbandoned` | devkit/devserver/proxy.go:65-137 | what a client sees of a streamed request, final or exhausted: all bytes of the abandoned attempts stand in front, and the response is that of the final attempt or the exhaustion alone if and only if the abandoned ones left no trace in status, body and any single header |
| `FailoverStream.AbandonedAreRetried` | devkit/devserver/proxy.go:101-105 | the abandoned attempts are exactly the calls whose verdict was to be retried |
| `FailoverStream.AbandonedHeaderShows` | devkit/devserver/proxy.go:76-105 | a header set by an abandoned attempt that wrote nothing appears beside the one that the next attempt set |
| `FailoverStream.AbandonedWriteShows` | devkit/devserver/proxy.go:76-105 | an abandoned attempt's status and byte appear in the answer of the next |
| `FailoverStream.ExhaustedInTheMiddle` | devkit/devserver/proxy.go:136-138 | a stream exhausted after such an attempt ends with the error page in the middle of a response that is not an error |

## Left out

- StateGuarantees.VersionsIncrease: versions are unbounded numbers rather than decimal strings of a 64-bit one, which would wrap after 2^64 writes.
- StateClient.Update: the duration of the back-off is left out, its cancellation is kept; callbacks are functions of the value.
- StateStore.State.Invoke: replies are typed values instead of dynamic maps, so a missing or malformed version or value in a reply is not modelled.
- Store and Load: JSON encoding; a Store is an Update whose callback ignores what it reads.
- GetMany on the client: the decoding of its two reply forms; the host's part is modelled.
- StreamServer.ForwardStream: the budget check is an arbitrary predicate on chunks; the credential updates and the model fallback reason of an outcome are left out, usage stands for all billing fields, and of a diagnosed request address, status, body and size are kept; a string that is not UTF-8, which the encoding refuses, counts as a failed Send.
- StreamClient.ForwardStream: the flusher of the downstream writer, header canonicalisation and the error texts.
- The unary Forward with its bounded buffer (runtimego/grpc/gateway_server.go:582-640): a simpler form of the same delivery.
- sdkgo/stream_completion.go:10-24, the search through wrapped writers: the model's writer is reached directly.
- WebSocketBridge.BridgeIsSafe: the close code and reason are not part of the state, since the code does not fix them when cancellation races with a CLOSE frame; a read is taken to fail once the connection is closed, and a Send to return once the context is cancelled.
- WebSocketBridge.BridgeReturnsResult: outcomes are opaque values there.
- TraceLifecycle.RunKeepsInv: calls whose context carries no collector, the copied request fields and SetStatus have no part in who releases what; identities of exchanges, buffers and calls are fresh.
- TraceCapture.Snapshot: its views are what the looks at exchanges and buffers found, at whatever moments; `TraceSnapshot` ties the request bodies among them to the lifecycle machine, but not the response and the last event.
- Finish publishes the snapshot only for failed attempts: a single condition, left out.
- ObservedBody.ReadAll: a reader may also return data together with an error; both orders give the same calls.
- AccountStore.AccountStore.Create: the file behind the list, and the overflow of a 64-bit identifier, which takes as many edits as there are identifiers left.
- Scheduler.Scheduler.Select: logging and the status page are left out.
- Cooldown.CooledIsNotPicked: the clock is an integer number of nanoseconds.
- Failover.HandleHTTP: what concurrent requests and edits do to scheduler and list appears as arbitrary selections and policies, one for each attempt; the handler never looks at a failed write to its client, and what then reaches the client is not followed further; a plugin that panics ends the request in the source, while the model's loop goes on and only the client's writer stands still.
- Failover.AnswerIs: what the server does to a response by itself is left out here and for streams: headers it adds, the empty entries that keep it from adding them, a declared length it enforces, trailers, HEAD requests, header canonicalisation, and the informational responses sent ahead.
- Admin handlers, theme, static files, gRPC and plugin wiring, generated code, logging and configuration: no state worth a proof beyond what is here.
- Data races of the language: every mutex-guarded section is one step.
