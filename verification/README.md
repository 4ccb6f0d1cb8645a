# Verified models of the Graftcode plugins and telemetry

The Graftcode repository carries calls between runtimes over message brokers and reports them as telemetry. This
project models the parts of it whose correctness is not visible in one body, and proves what they are for:

- **Request and reply over a broker** (`PendingTable`, `PendingReplies`, `Transport`, `RpcProtocol`, `RpcSafety`,
  `RpcEndpoints`). `PendingReplies.h` is modelled as the objects it has and as steps on their value. The protocol of
  the Pub/Sub and SQS plugins is a step system: any number of clients, each with a dispatcher and concurrent calls,
  any number of servers, and a broker that delays, reorders, duplicates and redelivers, acknowledged requests
  included, but never invents a message. Its log keeps what happened in order, so the main results speak about causes: a call returns only what a run on its
  own request bytes wrote, and no request is dropped before it was processed and answered.
- **Starting and stopping a server** (`ServerLifecycle`), with every critical section and every read of the stop flag
  as one step of any number of threads.
- **The budgeted body renderer** (`BodyCapture`, `BodyCaptureText`, `BodyCaptureLength`, `Json`, `BodyCaptureJson`,
  `BodyCaptureRedaction`, `BodyCaptureOverrun`). The .NET version is the model; the Java and Python versions are the same
  algorithm.
- **The token bucket of the sampler** (`RateLimitedSampler`), over the reals and over whole runs.
- **The hand-written Base64 codec** (`Base64`), with the 32-bit accumulator that is never masked.
- **Bookkeeping**: the reply sender cache (`ReplySenderCache`), trace headers under nested calls (`CallSpan`,
  `CallSpanNesting`), message templates (`MessageTemplate`) and the choice of a library by its name (`LibraryCatalog`).
- `Strings` says how the strings of .NET and Java are represented.

Where the source updates an object, the model is a class whose methods are proved against a function on its value, and
the properties are lemmas about that function. `hide` statements in the proofs only keep them quick.

## What turned out different from what one might expect

- The body limit is not a limit when commands are nested. A command header takes 35 characters and the two names, but
  only 32 are reserved, so a body can exceed its limit by the longest header less 15, and no better bound holds
  (`BodyCaptureLength.RenderedLength`, `BodyCaptureLength.BoundIsAttained`), and nothing but nesting does it
  (`BodyCaptureOverrun.OverrunNeedsNesting`). Without nesting the limit is kept exactly
  when the header and its closing text fit (`BodyCaptureLength.FlatLength`).
- A stop that arrives before start's first critical section is lost: start clears the flag
  (`ServerLifecycle.StopBeforeStartIsLost`). One that finds the server running is never lost
  (`ServerLifecycle.StopIsSeen`).
- A completed span does not always take its headers out: what puts them back comes after code that may throw, such as
  the message of the application's exception. They come back exactly when no outermost injected span fails to
  complete (`CallSpanNesting.HeadersComeBackExactly`, `CallSpanNesting.ThrowLeavesHeaders`).
- Base64 decoding accepts both alphabets mixed, white space anywhere and any number of '=' at the end; it fails
  exactly on a foreign character or on an '=' with a letter after it (`Base64.FailsExactlyOn`).
- The renderer counts escaped characters, so a single escape may overshoot a string's budget by five; this is inside
  the bound above.

## Assumptions

- Correlation ids are fresh over the whole run, and strangers who publish to the topics do not use them. Everything
  else strangers publish is allowed.
- The broker keeps a request that was not acknowledged: it does not expire and is not moved to a dead-letter queue.
- An exception from a broker call says nothing about whether the broker carried it out.
- The AWS SDK encodes and decodes Base64 as section 4 of RFC 4648 says. The trace context propagator reads back what it
  writes (section 3.2 of W3C Trace Context), and closing a scope restores what was current before it, if it is the
  current one. `LogsRedactor` is any total function.
- Span ids are new, so that every injected span has a traceparent of its own. Only that headers do *not* come back after
  a failure needs this.
- For the JSON property, number texts are JSON numbers (finite values) and the runtime and type names need no escapes.

## Model

| member | source | states |
|---|---|---|
| PendingTable.FirstWriterWins | pubsub/GraftcodePluginsInterfaces/PendingReplies.h:90-176 | from its registration on, whatever else happens, a slot is undone until the first Complete, Fail, FailAll or Close that reaches it and then holds exactly that one's outcome |
| PendingTable.TheWaitReportsIt | pubsub/GraftcodePluginsInterfaces/PendingReplies.h:67-78 | the single wait reports that first outcome and times out exactly when there was none |
| PendingTable.ClosedForGood | pubsub/GraftcodePluginsInterfaces/PendingReplies.h:126-137 | after a Close, in any run before and after it, every slot is done, no wait can time out and every registration throws the close error |
| PendingTable.StepKeepsClosed | pubsub/GraftcodePluginsInterfaces/PendingReplies.h:90-182 | every operation keeps "closed means all done"; a closed table never opens again and gains no id |
| PendingTable.InTable | pubsub/GraftcodePluginsInterfaces/PendingReplies.h:90-182 | after any run an id is in the table exactly when a registration of it succeeded and its ticket was not destroyed since |
| PendingTable.OneReply | pubsub/GraftcodePluginsInterfaces/PendingReplies.h:107-176 | a reply can enter a slot only through Complete with that id and that payload |
| PendingReplies.Slot.MarkDone | pubsub/GraftcodePluginsInterfaces/PendingReplies.h:155-165 | writes an undone slot, leaves a done one alone |
| PendingReplies.Table.constructor | pubsub/GraftcodePluginsInterfaces/PendingReplies.h:86-88 | an empty open table |
| PendingReplies.Table.Register | pubsub/GraftcodePluginsInterfaces/PendingReplies.h:90-104 | throws when closed or on a duplicate id and then changes nothing; otherwise the new ticket shares a fresh slot with the table |
| PendingReplies.Table.Complete | pubsub/GraftcodePluginsInterfaces/PendingReplies.h:107-110 | the step of PendingTable, true exactly when the id is waited for |
| PendingReplies.Table.Fail | pubsub/GraftcodePluginsInterfaces/PendingReplies.h:112-115 | the step of PendingTable, true exactly when the id is waited for |
| PendingReplies.Table.FailAll | pubsub/GraftcodePluginsInterfaces/PendingReplies.h:117-123 | fails every undone slot, whatever the order of the map |
| PendingReplies.Table.Close | pubsub/GraftcodePluginsInterfaces/PendingReplies.h:126-137 | the step of PendingTable; keys and tickets stay |
| PendingReplies.Table.Empty | pubsub/GraftcodePluginsInterfaces/PendingReplies.h:139-143 | whether there is no slot |
| PendingReplies.Table.WaitForPending | pubsub/GraftcodePluginsInterfaces/PendingReplies.h:147-152 | whether the table is open and somebody waits, at the moment of waking |
| PendingReplies.Table.Wait | pubsub/GraftcodePluginsInterfaces/PendingReplies.h:67-78 | reports the slot as it is on waking; a reply is moved out, everything else stays |
| PendingReplies.Table.Move | pubsub/GraftcodePluginsInterfaces/PendingReplies.h:52-57 | the new ticket takes the entry over, the old one owns nothing, the table is unchanged |
| PendingReplies.Table.Destroy | pubsub/GraftcodePluginsInterfaces/PendingReplies.h:45-50 | removes exactly its own id |
| PendingReplies.Table.Remove | pubsub/GraftcodePluginsInterfaces/PendingReplies.h:178-182 | keys stay the ids of the live tickets |
| Transport.WireRoundTrip | sqs/SqsPlugin/SqsUtil.cpp:172-219 | in both plugins every payload that is accepted for sending arrives as the same bytes |
| Transport.EncodedIsValid | sqs/SqsPlugin/SqsUtil.cpp:97-124 | every encoded payload passes the receiver's own Base64 test |
| Transport.SendableExactly | sqs/SqsPlugin/SqsUtil.cpp:172-189 | Pub/Sub sends exactly the payloads of up to 10 MiB, SQS exactly those of up to 786417 bytes, as the letters, in SQS after "graftcode-base64:" |
| Transport.SqsDecodesExactly | sqs/SqsPlugin/SqsUtil.cpp:191-219 | the SQS plugin accepts exactly the prefix with whole groups of letters after it, '=' only at the end, and two letters or more unless there is nothing |
| Transport.ScanBase64 | sqs/SqsPlugin/SqsUtil.cpp:97-124 | the flag loop accepts exactly whole groups of four letters with '=' only at the end |
| Transport.ScanResourceId | pubsub/PubSubPlugin/PubSubConfig.cpp:250-269 | accepts exactly 3 to 255 characters, a letter first, then letters, digits, '-', '_' and '.' |
| RpcSafety.CallsReturnTheirOwnReplies | pubsub/PubSubPlugin/PubSubClient.cpp:143-203 | in every run, a two-way call returns p only if, in this order, its request was published, a server ran processMessage on those very bytes and wrote p, sent p to the call's reply address under its correlation id, and the dispatcher completed it |
| RpcSafety.NoRequestIsLost | pubsub/PubSubPlugin/PubSubServer.cpp:50-133 | in every reachable state a published request is outstanding, or was acknowledged by a server after that server processed it and, in RPC mode, sent the run's response to the request's own reply address under its id; acknowledged requests may be delivered again |
| RpcSafety.EveryResponseCanReturn | pubsub/PubSubPlugin/PubSubClient.cpp:143-203 | for every request and response that can be sent there is a run in which the call returns that response, nothing stays outstanding and the table is empty |
| RpcSafety.NothingIsLeftBehind | pubsub/PubSubPlugin/PubSubClient.cpp:159-202 | a client's table is empty exactly when all its two-way calls have ended; a waiting call always has its slot |
| RpcSafety.WakeReports | pubsub/PubSubPlugin/PubSubClient.cpp:191-202 | in every run a call that wakes ends with what its slot holds at that moment, a timeout, the error or the reply, takes its own slot away and touches no other call; a one-way call returns nothing |
| RpcSafety.StepInv | pubsub/PubSubPlugin/PubSubClient.cpp:87-203 | every step of every participant keeps the invariant that ties the state to a log of justified events |
| RpcSafety.EventJustified | pubsub/PubSubPlugin/PubSubServer.cpp:50-133 | each event of a step has its causes in the log already |
| RpcSafety.KeepsNothingLost | pubsub/PubSubPlugin/PubSubServer.cpp:121-133 | only an acknowledgement takes a request from the outstanding ones |
| RpcSafety.KeepsTicket | pubsub/PubSubPlugin/PubSubClient.cpp:159-202 | the slots of a client are those of its live two-way calls, through every step |
| RpcSafety.WorkerMoves | pubsub/PubSubPlugin/PubSubServer.cpp:50-133 | how far a server has got is always backed by its events |
| RpcSafety.Authentic | pubsub/PubSubPlugin/PubSubClient.cpp:134-140 | any justified log tells the whole story of a returned call |
| RpcSafety.OwnMessage | pubsub/PubSubPlugin/PubSubClient.cpp:159-187 | a published message with a call's id carries that call's bytes and reply address |
| RpcSafety.NoStray | pubsub/PubSubPlugin/PubSubClient.cpp:134-140 | no stranger's reply carries the id of a call |
| RpcEndpoints.HandleMessage | pubsub/PubSubPlugin/PubSubServer.cpp:50-133 | all that is run, stored and dropped, for every message, callback and broker outcome, written out: nothing for a failed run or a request without a correlation id or an acceptable address; else the run on the message's bytes with the last write as its response; in RPC mode that response, encoded, at "replyTo" under "correlationId"; and the acknowledgement exactly when one-way or the reply was reported as sent |
| RpcEndpoints.TraceIsAllowed | pubsub/PubSubPlugin/PubSubServer.cpp:50-133 | so every handling is a beginning of run, reply, acknowledge |
| RpcEndpoints.HandlingIsARun | pubsub/PubSubPlugin/PubSubServer.cpp:50-133 | every beginning of run, reply, acknowledge is a run of protocol steps that logs exactly its events, drops the request exactly on an acknowledgement and ends idle |
| RpcEndpoints.Session.ProcessMessage | pubsub/PubSubPlugin/PubSubServer.cpp:74-104 | the response is the last thing the callback wrote, empty if that was null or empty data or if it wrote nothing |
| RpcEndpoints.Session.Publish | pubsub/PubSubPlugin/PubSubUtil.cpp:598-631 | stores the encoded payload unless it is too long or refused; success means stored, an exception does not mean the opposite |
| RpcEndpoints.DispatchRound | pubsub/PubSubPlugin/PubSubClient.cpp:87-142 | on an open table, a batch makes every waiting slot whose id some message carries Replied with the first such message's data; an HTTP error fails all waiting slots exactly when its status is neither 429, 0 nor 500 or more; any other error fails them all; every other slot, the ids and a closed table stay |
| RpcEndpoints.RoundSlots | pubsub/PubSubPlugin/PubSubClient.cpp:87-142 | the same of the operations of a round on any table |
| RpcEndpoints.CompleteBatch | pubsub/PubSubPlugin/PubSubClient.cpp:134-140 | completes in the batch's order, passing over messages without a correlation id |
| RpcEndpoints.DispatchSqsRound | sqs/SqsPlugin/SqsClient.cpp:71-119 | on an open table, the first reply received for a waiting slot makes it Failed with the error of its deletion, Failed with the error of its decoding, or Replied with the decoded bytes; a failed receive fails all that wait; every other slot, the ids and a closed table stay |
| RpcEndpoints.SqsRoundSlots | sqs/SqsPlugin/SqsClient.cpp:71-119 | the same of the operations of a round on any table |
| RpcEndpoints.DispatchingIsARun | pubsub/PubSubPlugin/PubSubClient.cpp:87-142 | what a round does with an error, or with replies of the client's own subscription, protocol steps do |
| RpcEndpoints.SqsDispatchingIsARun | sqs/SqsPlugin/SqsClient.cpp:71-119 | the same for SQS, failed deletions and decodings included |
| RpcEndpoints.BatchIsLegitimate | pubsub/PubSubPlugin/PubSubClient.cpp:134-140 | every operation of a batch pulled from the client's subscription completes a call with a reply the broker has for it |
| RpcEndpoints.PublishRequest | pubsub/PubSubPlugin/PubSubClient.cpp:168-187 | the retry loop ends with the first answer that is not a miss within the time and succeeds exactly when that one does; the broker then holds one more copy of the request for each answer so far that stored it |
| RpcEndpoints.CopiesCounted | pubsub/PubSubPlugin/PubSubClient.cpp:168-187 | the same of the answers alone: which one ends the loop and how many copies there are |
| RpcEndpoints.PublishingIsARun | pubsub/PubSubPlugin/PubSubClient.cpp:168-187 | every publishing is a run of protocol steps that stores the same copies of the call's own request, and then the call waits or has failed |
| ServerLifecycle.AlwaysSafe | pubsub/PubSubPlugin/PubSubServer.cpp:164-258 | in every reachable state at most one start is in its loop and running says whether there is one, nothing is pulled without a session, and an SQS client active after a stop is disabled or about to be |
| ServerLifecycle.StepOneStarter | pubsub/PubSubPlugin/PubSubServer.cpp:164-258 | every step keeps: running exactly when one start is active |
| ServerLifecycle.StepSessionForPull | pubsub/PubSubPlugin/PubSubServer.cpp:185-221 | every step keeps: the loop is reached without a session only after a stop, and is left again |
| ServerLifecycle.StepNoClientMissed | sqs/SqsPlugin/SqsServer.cpp:107-116 | no interleaving of start and stop leaves an active client that nobody disables |
| ServerLifecycle.StopIsSeen | pubsub/PubSubPlugin/PubSubServer.cpp:219-271 | after a stop that found the server running the flag stays set while it runs, and at most the one pull already due is made |
| ServerLifecycle.StopReturnsWhenStopped | pubsub/PubSubPlugin/PubSubServer.cpp:260-271 | a stop returns only when no start is in its loop |
| ServerLifecycle.StopBeforeStartIsLost | pubsub/PubSubPlugin/PubSubServer.cpp:164-173 | after stop and then start the flag is set exactly when the server ran before |
| ServerLifecycle.CanPull | pubsub/PubSubPlugin/PubSubServer.cpp:164-258 | from every state that keeps the invariants, a start that finds the server not running, or is under way on one that nobody has stopped, can get to a pull with a session, by steps of its own and without an exception |
| ServerLifecycle.CanHandle | pubsub/PubSubPlugin/PubSubServer.cpp:219-236 | and then to handling any number of messages, after which the same holds again |
| ServerLifecycle.SurvivesExceptions | pubsub/PubSubPlugin/PubSubServer.cpp:185-244 | after a failed connect, an exception in the handling of a message, or one in a Pub/Sub pull the server can pull again; one in an SQS pull ends it |
| ServerLifecycle.EveryStopCanReturn | pubsub/PubSubPlugin/PubSubServer.cpp:260-271 | from every state that keeps the invariants, a stop that is called now can return, with no exception in any thread |
| ServerLifecycle.Server.TryBegin | pubsub/PubSubPlugin/PubSubServer.cpp:166-173 | begins exactly when no call of start is in its loop, clearing the stop flag in the same section |
| ServerLifecycle.Server.PublishClient | sqs/SqsPlugin/SqsServer.cpp:109-115 | makes the client visible and reports a stop that came before |
| ServerLifecycle.Server.End | sqs/SqsPlugin/SqsServer.cpp:260-265 | clears the client and running together |
| ServerLifecycle.Server.Stop | sqs/SqsPlugin/SqsServer.cpp:270-275 | sets the flag and takes the client to disable, of which there is none unless a start is in its loop |
| ServerLifecycle.Server.MayReturn | pubsub/PubSubPlugin/PubSubServer.cpp:267-270 | stop may return exactly when no call of start is in its loop |
| BodyCapture.Render | observability/Instrumentation/dotnet/src/Graftcode.Instrumentation/BodyCapture.cs:19-32 | nothing for no command; else the redacted text and the truncation flag of the specification |
| BodyCapture.WriteCommand | observability/Instrumentation/dotnet/src/Graftcode.Instrumentation/BodyCapture.cs:34-94 | appends exactly the command's piece to the shared buffer and returns its flags |
| BodyCapture.WriteItems | observability/Instrumentation/dotnet/src/Graftcode.Instrumentation/BodyCapture.cs:54-93 | the loop over the payload, with the marker after a cut |
| BodyCapture.WriteValue | observability/Instrumentation/dotnet/src/Graftcode.Instrumentation/BodyCapture.cs:96-159 | appends exactly the value's piece |
| BodyCapture.WriteString | observability/Instrumentation/dotnet/src/Graftcode.Instrumentation/BodyCapture.cs:179-232 | escapes until the buffer has reached the budget, then closes the string |
| BodyCapture.SurrogatesAreWritten | observability/Instrumentation/dotnet/src/Graftcode.Instrumentation/BodyCapture.cs:200-228 | a surrogate is written as it is and counts as one |
| Strings.UnitsInjective | observability/Instrumentation/dotnet/src/Graftcode.Instrumentation/BodyCapture.cs:189-228 | every string of UTF-16 units has a string of the model of its own |
| BodyCaptureLength.RenderedLength | observability/Instrumentation/dotnet/src/Graftcode.Instrumentation/BodyCapture.cs:34-232 | for every tree and every limit of 32 or more the text has at most limit + longest header - 15 characters |
| BodyCaptureLength.CommandLength | observability/Instrumentation/dotnet/src/Graftcode.Instrumentation/BodyCapture.cs:34-94 | what is entered within the limit of its level leaves at most a header and 17 above it |
| BodyCaptureLength.ItemsLength | observability/Instrumentation/dotnet/src/Graftcode.Instrumentation/BodyCapture.cs:54-93 | the 18 characters kept back per level pay for the comma, marker and brackets of a cut |
| BodyCaptureLength.FlatLength | observability/Instrumentation/dotnet/src/Graftcode.Instrumentation/BodyCapture.cs:34-94 | without nested commands the text keeps any limit exactly when the header and its closing text do |
| BodyCaptureLength.BoundIsAttained | observability/Instrumentation/dotnet/src/Graftcode.Instrumentation/BodyCapture.cs:34-94 | for every limit from 88 and every header length a tree reaches the bound and exceeds the limit |
| BodyCaptureOverrun.OverrunNeedsNesting | observability/Instrumentation/dotnet/src/Graftcode.Instrumentation/BodyCapture.cs:34-94 | a body over its limit whose own header fits ends, but for the closing text, directly after a nested header or a nested command written whole |
| BodyCaptureOverrun.ReachedEarly | observability/Instrumentation/dotnet/src/Graftcode.Instrumentation/BodyCapture.cs:54-93 | at any other first position over budget the closing text still fits |
| BodyCaptureLength.TailLength | observability/Instrumentation/dotnet/src/Graftcode.Instrumentation/BodyCapture.cs:179-232 | a string ends at most six characters past its budget |
| BodyCaptureText.RenderedRefines | observability/Instrumentation/dotnet/src/Graftcode.Instrumentation/BodyCapture.cs:34-232 | the text is the unbudgeted one exactly when no position reaches its level's budget; otherwise it is the unbudgeted text up to the first such position and closing text only, one "]}" per open command; the flag is set exactly on a cut or a value at the depth limit |
| BodyCaptureText.CommandText | observability/Instrumentation/dotnet/src/Graftcode.Instrumentation/BodyCapture.cs:34-94 | the same for a command at any depth and buffer length, with the position |
| BodyCaptureText.TailText | observability/Instrumentation/dotnet/src/Graftcode.Instrumentation/BodyCapture.cs:189-198 | a string is cut before the first character that would start at or after the budget |
| BodyCaptureText.UpToBegins | observability/Instrumentation/dotnet/src/Graftcode.Instrumentation/BodyCapture.cs:54-93 | the text before any position is a beginning of the unbudgeted text |
| BodyCaptureText.ShallowItems | observability/Instrumentation/dotnet/src/Graftcode.Instrumentation/BodyCapture.cs:111-116 | without a value at the depth limit, obeying that limit changes nothing |
| BodyCaptureJson.RenderedIsJson | observability/Instrumentation/dotnet/src/Graftcode.Instrumentation/BodyCapture.cs:34-232 | every body, cut or not, is a JSON text (RFC 8259, sections 2 to 7) with a known tree: the items before the cut, what was begun there, the marker |
| BodyCaptureJson.CommandJsonText | observability/Instrumentation/dotnet/src/Graftcode.Instrumentation/BodyCapture.cs:34-94 | an uncut command is a valid object of runtime, type and payload |
| BodyCaptureJson.CutJsonText | observability/Instrumentation/dotnet/src/Graftcode.Instrumentation/BodyCapture.cs:81-93 | so is a command cut at any position |
| BodyCaptureJson.EscapedText | observability/Instrumentation/dotnet/src/Graftcode.Instrumentation/BodyCapture.cs:200-228 | an escaped string is a valid JSON string that a reader decodes to the very same characters |
| BodyCaptureRedaction.SecretsDoNotShow | observability/Instrumentation/dotnet/src/Graftcode.Instrumentation/BodyCapture.cs:68-79 | trees that differ only in strings directly after a text that is a sensitive key render to the same text and flag under every limit |
| BodyCaptureRedaction.SameItem | observability/Instrumentation/dotnet/src/Graftcode.Instrumentation/BodyCapture.cs:123-159 | the same item by item, at every depth and buffer length |
| BodyCaptureRedaction.GivenToTheStringWriter | observability/Instrumentation/dotnet/src/Graftcode.Instrumentation/BodyCapture.cs:68-71 | a text or formatted value directly after a sensitive text is written as the placeholder, any other as what the redactor makes of its own text |
| BodyCaptureRedaction.NextItem | observability/Instrumentation/dotnet/src/Graftcode.Instrumentation/BodyCapture.cs:54-159 | while the budget lasts the payload goes on with a comma and the item: its own text by its kind, the placeholder after a sensitive key, a marker instead of it at depth 24 and below |
| BodyCaptureRedaction.DecimalIsRead | observability/Instrumentation/dotnet/src/Graftcode.Instrumentation/BodyCapture.cs:144-149 | the length of a byte array is written in decimal digits that read back as it, without leading zeros |
| RateLimitedSampler.Sampler.constructor | observability/opentelemetry/java/appinsights/src/main/java/com/graftcode/telemetry/appinsights/RateLimitedSampler.java:19-24 | a full bucket of max(1, rate) tokens |
| RateLimitedSampler.Sampler.TryAcquire | observability/opentelemetry/java/appinsights/src/main/java/com/graftcode/telemetry/appinsights/RateLimitedSampler.java:42-53 | samples exactly when the tokens and the nanoseconds since the last call, over a billion times the rate, make one whole token, which is then spent; tokens stay within [0, max(1, rate)] |
| RateLimitedSampler.RunStaysLevel | observability/opentelemetry/java/appinsights/src/main/java/com/graftcode/telemetry/appinsights/RateLimitedSampler.java:42-53 | over every run tokens stay within [0, capacity] and nothing is overdrawn |
| RateLimitedSampler.WindowBound | observability/opentelemetry/java/appinsights/src/main/java/com/graftcode/telemetry/appinsights/RateLimitedSampler.java:42-53 | calls i to j of every run have at most max(1, rate) + rate * (t_j - t_i) / 1000000000 acceptances |
| RateLimitedSampler.BurstAtStart | observability/opentelemetry/java/appinsights/src/main/java/com/graftcode/telemetry/appinsights/RateLimitedSampler.java:19-53 | of any number of calls at the start of a new sampler exactly the first max(1, rate), rounded down, are sampled |
| RateLimitedSampler.Budget | observability/opentelemetry/java/appinsights/src/main/java/com/graftcode/telemetry/appinsights/RateLimitedSampler.java:42-53 | the bound for any affordable schedule from any bucket |
| RateLimitedSampler.GreedyIsOptimal | observability/opentelemetry/java/appinsights/src/main/java/com/graftcode/telemetry/appinsights/RateLimitedSampler.java:42-53 | no schedule that never overdraws the bucket has accepted more calls at any point |
| RateLimitedSampler.AheadThroughout | observability/opentelemetry/java/appinsights/src/main/java/com/graftcode/telemetry/appinsights/RateLimitedSampler.java:42-53 | the invariant behind it, from any pair of buckets |
| RateLimitedSampler.SpacedCallsAreAccepted | observability/opentelemetry/java/appinsights/src/main/java/com/graftcode/telemetry/appinsights/RateLimitedSampler.java:42-53 | calls that come at least 1 / rate seconds after one another are all accepted |
| Base64.Base64Encode | pubsub/PubSubPlugin/PubSubUtil.cpp:219-262 | the loop writes the letters of the six-bit groups and the padding |
| Base64.Base64Decode | pubsub/PubSubPlugin/PubSubUtil.cpp:264-305 | computes the decoding function, errors included, although its accumulator wraps |
| Base64.Base64Url | pubsub/PubSubPlugin/PubSubUtil.cpp:86-103 | the URL-safe unpadded form |
| Base64.Accumulate | pubsub/PubSubPlugin/PubSubUtil.cpp:288-302 | one letter into the unmasked accumulator: its low bits are the pending ones whatever was shifted out |
| Base64.ShiftedIn | pubsub/PubSubPlugin/PubSubUtil.cpp:288-302 | the bit-vector fact behind it |
| Base64.RoundTrip | pubsub/PubSubPlugin/PubSubUtil.cpp:219-305 | every byte sequence comes back from its encoding |
| Base64.RoundTripThroughWhitespace | pubsub/PubSubPlugin/PubSubUtil.cpp:264-275 | also with white space anywhere |
| Base64.RoundTripUnpaddedAndUrl | pubsub/PubSubPlugin/PubSubUtil.cpp:86-103 | also unpadded and in the URL-safe alphabet |
| Base64.EncodingInjective | pubsub/PubSubPlugin/PubSubUtil.cpp:219-262 | different bytes have different encodings, in both forms |
| Base64.EncodedLength | pubsub/PubSubPlugin/PubSubUtil.cpp:219-262 | four characters for every three bytes begun |
| Base64.EncodedByGroups | pubsub/PubSubPlugin/PubSubUtil.cpp:219-262 | group by group, in the numbers of the source: each three bytes as one word, each six of its bits looked up, one or two bytes at the end filled up with zeros and '=' |
| Base64.TheAlphabet | pubsub/PubSubPlugin/PubSubUtil.cpp:221-222 | the 64 characters of the table |
| Base64.UrlForm | pubsub/PubSubPlugin/PubSubUtil.cpp:86-103 | the URL-safe form is the encoding with '-' for '+', '_' for '/' and no padding |
| Base64.FailsExactlyOn | pubsub/PubSubPlugin/PubSubUtil.cpp:264-298 | decoding fails exactly on a foreign character or on an '=' with a letter after it |
| Base64.LetterInverse | pubsub/PubSubPlugin/PubSubUtil.cpp:66-84 | the value table inverts both alphabets |
| ReplySenderCache.Cache.constructor | servicebus/ServiceBusPlugin/ServiceBusServer.cpp:262-262 | an empty valid cache |
| ReplySenderCache.Cache.Publish | servicebus/ServiceBusPlugin/ServiceBusServer.cpp:264-306 | how many sends are made, the answer and whether it throws, for every clock and broker outcome: at most two sends, the first on the cached link if it was opened or used within the last 300000 milliseconds, else on a new one, the second on a new link and only after a failure; true exactly when the last send succeeded; a failed entity is not cached; other entities stay |
| ReplySenderCache.Cache.Try | servicebus/ServiceBusPlugin/ServiceBusServer.cpp:281-304 | one attempt: what was sent on, what the maps say after it, and that a failed link is closed |
| ReplySenderCache.Cache.Open | servicebus/ServiceBusPlugin/ServiceBusServer.cpp:346-363 | a new link enters both maps; one that fails or throws enters neither |
| ReplySenderCache.Cache.Acquire | servicebus/ServiceBusPlugin/ServiceBusServer.cpp:334-363 | the link returned is the one the map owns: the cached one exactly when it is within the idle limit, else a new one; a stale link is closed; without a link there is no entry |
| ReplySenderCache.Cache.Evict | servicebus/ServiceBusPlugin/ServiceBusServer.cpp:321-332 | closes and forgets exactly one entity in both maps |
| ReplySenderCache.Cache.CloseAll | servicebus/ServiceBusPlugin/ServiceBusServer.cpp:308-318 | closes every link and empties both maps |
| ReplySenderCache.LastUseAfter | servicebus/ServiceBusPlugin/ServiceBusServer.cpp:298-301 | a link's last use changes exactly by a successful send on it |
| CallSpanNesting.NestedCallsLeaveNoTrace | observability/Instrumentation/java/src/main/java/com/graftcode/instrumentation/CallSpan.java:66-133 | a properly nested sequence of starts and completions, some throwing, leaves the current span and everything but the headers as they were, and the headers too exactly when no outermost injected span fails to complete |
| CallSpanNesting.HeadersComeBackExactly | observability/Instrumentation/java/src/main/java/com/graftcode/instrumentation/CallSpan.java:106-133 | the same at any point of the run, after completing what is open: a failed inner completion is healed by the injected span around it, a failed outermost one never |
| CallSpanNesting.ThrowLeavesHeaders | observability/Instrumentation/java/src/main/java/com/graftcode/instrumentation/CallSpan.java:113-133 | one call whose completion throws leaves its traceparent in headers that were empty |
| CallSpanNesting.AlwaysLevels | observability/Instrumentation/java/src/main/java/com/graftcode/instrumentation/CallSpan.java:106-133 | level by level: the headers are what the level's span injected, unless an injected span failed directly inside it |
| CallSpanNesting.AlwaysApart | observability/Instrumentation/java/src/main/java/com/graftcode/instrumentation/CallSpan.java:106-133 | at a level with such a failure they show another trace, and never one from below |
| CallSpanNesting.CallersTraceStays | observability/Instrumentation/java/src/main/java/com/graftcode/instrumentation/CallSpan.java:219-225 | if the base headers have a traceparent and the local ones none, then throughout every nested run no span is injected, the local headers stay and every callee sees the caller's traceparent |
| CallSpanNesting.UnwindingRestores | observability/Instrumentation/java/src/main/java/com/graftcode/instrumentation/CallSpan.java:106-133 | at any point of a nested run, completing what is open brings back the current span, and the headers unless an outermost injected span has failed |
| CallSpanNesting.InnerSpansAreChildren | observability/Instrumentation/java/src/main/java/com/graftcode/instrumentation/CallSpan.java:153-173 | while an injected span is open the traceparent is the innermost one's, and a span started there is its child in the same trace, exactly as long as no injected span failed directly inside it |
| CallSpanNesting.AlwaysOnTop | observability/Instrumentation/java/src/main/java/com/graftcode/instrumentation/CallSpan.java:106-133 | in every nested run, throws or not, the current span is the innermost open one, now and after each completion |
| CallSpan.Header | observability/Instrumentation/java/src/main/java/com/graftcode/instrumentation/CallSpan.java:175-188 | the exact key first, else some key that differs in case only, else nothing |
| CallSpan.ReadTraceId | observability/Instrumentation/java/src/main/java/com/graftcode/instrumentation/CallSpan.java:190-208 | yields only non-zero lower-case ids of 32 hexadecimal digits |
| CallSpan.ReadTraceIdExactly | observability/Instrumentation/java/src/main/java/com/graftcode/instrumentation/CallSpan.java:190-208 | and exactly those that come out of the header without white space around it, dashes and capital letters |
| CallSpan.StartInvoke | observability/Instrumentation/java/src/main/java/com/graftcode/instrumentation/CallSpan.java:66-93 | a command without an operation opens no span and changes nothing; otherwise the start step: parent, current span and injected headers |
| CallSpan.JoinsTrace | observability/Instrumentation/java/src/main/java/com/graftcode/instrumentation/CallSpan.java:153-173 | a new span is the child of the readable traceparent, else of the trace id header unless that is the current trace, else of the current span, else it begins a trace |
| CallSpan.StartInjects | observability/Instrumentation/java/src/main/java/com/graftcode/instrumentation/CallSpan.java:219-235 | a valid span is injected unless that is switched off or the caller has a trace of its own: traceparent and trace id are the span's, the trace state is its own or absent, every other header is as before; else nothing changes |
| CallSpan.Span.InjectInto | observability/Instrumentation/java/src/main/java/com/graftcode/instrumentation/CallSpan.java:219-235 | leaves the headers alone for an invalid context or when the caller's headers have a traceparent that the local ones lack; else writes the span's traceparent, trace id and own trace state, keeps every other header and remembers the old ones |
| CallSpan.Span.Complete | observability/Instrumentation/java/src/main/java/com/graftcode/instrumentation/CallSpan.java:106-133 | the first time it restores the current span, and the headers unless it throws before; the second time it does nothing |
| CallSpan.CompleteInnermost | observability/Instrumentation/java/src/main/java/com/graftcode/instrumentation/CallSpan.java:106-133 | completing the innermost open span is the completion step of the nested runs, or their throwing step |
| CallSpan.CompleteSpans | observability/Instrumentation/java/src/main/java/com/graftcode/instrumentation/GraftcodeInstrumentation.java:150-159 | completes each span once, last first, so that the connection is unwound by all of them, and keeps the other items in order; the last span that throws ends the walk: it stays, those before it stay open, those after it are completed and gone |
| MessageTemplate.Render | observability/opentelemetry/java/appinsights/src/main/java/com/graftcode/telemetry/appinsights/MessageTemplate.java:11-49 | the index loop computes text and properties of the specification |
| MessageTemplate.FindPropertyName | observability/opentelemetry/java/appinsights/src/main/java/com/graftcode/telemetry/appinsights/MessageTemplate.java:51-67 | the trimmed part before ',' or ':' without a leading '@' or '$' |
| MessageTemplate.PropertyNameExactly | observability/opentelemetry/java/appinsights/src/main/java/com/graftcode/telemetry/appinsights/MessageTemplate.java:51-67 | the same of the function that the rendering records under |
| MessageTemplate.RenderingUndoesEscaping | observability/opentelemetry/java/appinsights/src/main/java/com/graftcode/telemetry/appinsights/MessageTemplate.java:11-49 | for all texts, brace-free names and enough arguments, escaped texts come back with the arguments between them and the properties recorded |
| MessageTemplate.StaysAsItIs | observability/opentelemetry/java/appinsights/src/main/java/com/graftcode/telemetry/appinsights/MessageTemplate.java:18-35 | without arguments or without a closing brace, braces that are not doubled stay and nothing is recorded |
| MessageTemplate.LastValueIsRecorded | observability/opentelemetry/java/appinsights/src/main/java/com/graftcode/telemetry/appinsights/MessageTemplate.java:38-43 | a property has the value given to the last placeholder of its name |
| MessageTemplate.OthersAreKept | observability/opentelemetry/java/appinsights/src/main/java/com/graftcode/telemetry/appinsights/MessageTemplate.java:38-43 | other properties stay, and none is recorded under an empty name |
| LibraryCatalog.ChoiceIsUnique | observability/Instrumentation/java/src/main/java/com/graftcode/instrumentation/LibraryCatalog.java:113-126 | the choice does not depend on the order of the map |
| LibraryCatalog.ChoiceAfterLoads | observability/Instrumentation/java/src/main/java/com/graftcode/instrumentation/LibraryCatalog.java:59-148 | after any loads it is the last spelling of the one longest loaded name that is the type's name or a dotted prefix of it, with that load's version, else the root namespace |
| LibraryCatalog.BelongsExactly | observability/Instrumentation/java/src/main/java/com/graftcode/instrumentation/LibraryCatalog.java:134-138 | a type belongs to a library exactly when its name begins with the library's, letter by letter in whatever case, and ends there or goes on with a dot |
| LibraryCatalog.RootExactly | observability/Instrumentation/java/src/main/java/com/graftcode/instrumentation/LibraryCatalog.java:129-132 | the root namespace is what stands before the first dot, or the whole name |
| Strings.TrimmedExactly | observability/Instrumentation/java/src/main/java/com/graftcode/instrumentation/CallSpan.java:195-195 | trimming takes away the characters up to the space at both ends and nothing else |
| Strings.LoweredExactly | observability/Instrumentation/java/src/main/java/com/graftcode/instrumentation/CallSpan.java:195-195 | lower-casing adds 32 to the capital letters of ASCII and changes nothing else |
| Strings.BlankExactly | observability/Instrumentation/java/src/main/java/com/graftcode/instrumentation/OperationName.java:152-154 | blank is what is missing or has no character above the space |
| LibraryCatalog.RecordedLast | observability/Instrumentation/java/src/main/java/com/graftcode/instrumentation/LibraryCatalog.java:59-76 | the table has the last load of every name |
| LibraryCatalog.RecordedFrom | observability/Instrumentation/java/src/main/java/com/graftcode/instrumentation/LibraryCatalog.java:59-76 | and nothing else |
| LibraryCatalog.Catalog.RecordLoad | observability/Instrumentation/java/src/main/java/com/graftcode/instrumentation/LibraryCatalog.java:59-76 | appends the load to its connection's history, of which the table is the record; the version of a path is read once; blank paths and names change nothing |
| LibraryCatalog.Catalog.ResolveLibraryName | observability/Instrumentation/java/src/main/java/com/graftcode/instrumentation/LibraryCatalog.java:96-127 | a library the command itself loads first, then nothing for a blank type, else the choice |
| LibraryCatalog.Catalog.ChooseLibrary | observability/Instrumentation/java/src/main/java/com/graftcode/instrumentation/LibraryCatalog.java:108-127 | the loop over the map finds the only choice there is for the connection's loads, so its order does not matter |
| LibraryCatalog.Catalog.LookupVersion | observability/Instrumentation/java/src/main/java/com/graftcode/instrumentation/LibraryCatalog.java:140-148 | the version of the connection's last load of that name in any case, nothing exactly when there is none |

## Left out

- Liveness, fairness and the times at which waits wake: a timeout is a step that may happen whenever the slot is not done.
- The pool of idle Pub/Sub sessions and the one-time start of the dispatcher, which would only add easy members.
- The Pub/Sub dispatcher's acknowledgement of replies: a reply may be delivered any number of times whether acknowledged or not.
- Several subscriptions of one request topic: acknowledging takes a request from the one set of outstanding ones.
- RpcEndpoints.HandleMessage: uses the Pub/Sub attribute names; the SQS loop takes the same branches with its own names and always has a receipt handle.
- The configure call, and destructors beyond the stop and close they make.
- The other plugins (Kafka, RabbitMQ, sockets, HTTP) and everything behind libcurl, the AWS SDK and AMQP.
- Isolation between successive links of one client.
- BodyCapture.Render: a negative limit, for which .NET cannot create its buffer, renders like zero. Configured limits are clamped well above that.
- BodyCapture.WriteValue: what Convert.ToString gives for a number or another object is an input; that numbers have at most 31 characters is a condition of the length bound.
- Redaction of the finished body, which may change its length and its JSON.
- RateLimitedSampler.Sampler.TryAcquire: over the reals, with a clock that does not go back; floating-point rounding is not modelled.
- ReplySenderCache.Cache.Publish: the properties of the message that is sent.
- CallSpan.StartInvoke: the attributes and the body written into the span, which do not touch headers; that writing them throws after the span was made current.
- CallSpan.CompleteSpans: for spans of one connection and thread that are not completed yet.
- Transport.SqsDecodesExactly: what the AWS SDK makes of a last group with a single letter, which no encoding has, is taken to be what section 4 of RFC 4648 says, nothing.
- MessageTemplate.Render: what String.valueOf or the class name gives for an argument is an input.
- LibraryCatalog.Catalog.RecordLoad: finding the path in a load command, taking the file name from it and reading the manifest are inputs; lower-casing is ASCII only.
- The Node body renderer, which cuts on unescaped characters, so that the length bound is not its own.
