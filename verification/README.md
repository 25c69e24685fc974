# Verification of the delivery core of sentry-go

A Dafny model of the parts of the SDK where events, telemetry and headers can get lost, mixed
up or miscounted, with proofs of what holds for all inputs and in every run.

- `http_transport.dfy` with `http_runs.dfy` and `http_progress.dfy`, `batch_processor.dfy`, and
  `async_transport.dfy` with `async_progress.dfy` are labelled transition systems with one label per
  channel or lock operation, for any number of callers: the batch token protocol of `HTTPTransport`, the
  collecting goroutine of `batchProcessor` with its timer, and the queue of `AsyncTransport`. They say what
  is safe in every run, what each call is decided by, and that every call can come to its end.
- `bucket_model.dfy` says what the telemetry buffers hold, as values; `ring_buffer.dfy` and
  `bucketed_buffer.dfy` are the classes over circular arrays, proved against it;
  `bucket_runs.dfy` says what holds of the buckets in every run, and `ring_client.dfy` and
  `bucket_client.dfy` that any calls on the objects are such runs.
- `scheduler.dfy` is the weighted round-robin scheduler, `scheduler_runs.dfy` its fairness and
  termination, and `scheduler_buffers.dfy` says that its buffers are those of the two classes.
- `outcomes.dfy` and `aggregator.dfy` are client reports: what is recorded, and the counters.
  `pipeline.dfy`, `pipeline_ledger.dfy` and `pipeline_runs.dfy` follow every item from Add over
  buffer, scheduler and queue to its end, together with the account of discarded items;
  `pipeline_losses.dfy` says exactly when that account does not come out even,
  `pipeline_reasons.dfy` exactly what is discarded for which reason, and `telemetry.dfy` is the code of one call, proved to take the steps of the pipeline.
- `go_strings.dfy`, `percent.dfy`, `baggage_syntax.dfy`, `baggage_members.dfy`, `baggage.dfy`,
  `baggage_new.dfy`, `merge_baggage.dfy` and `dsc.dfy` are the parser and printer of W3C Baggage
  headers on byte strings, percent-encoding as in section 2.1 of RFC 3986, and their two users;
  `percent_decoding.dfy` and `trim_space.dfy` say on the text itself what decoding, reading and trimming do.
- `exception.dfy` is the conversion of error graphs into exception lists.
- `spans.dfy` and `span_runs.dfy` are span recording; `processors.dfy` is the account of the spans
  that event processors and callbacks remove.  `wrappers.dfy` holds the option type.

Code of one goroutine that changes things step by step is a method with loops, over arrays, fields
or out-parameters, proved against a function; code of several goroutines is a transition system; the
laws are lemmas about the functions and the runs. What a Go map leaves open,
the order of iteration, is left open here too, and so are the choices of `select`, of clocks, of
rate limits and of HTTP answers.

Some expected laws are false of the code; each has the exact condition and inputs:

- Not every offered item is pending, delivered or recorded. That law holds in exactly the runs without a
  step that loses items (`PipelineLosses.ConservationIff`), and such steps are exactly those that meet one
  of six guards (`PipelineLosses.StepLosesIff`): an offer in a category without a buffer; a send on a
  closed transport; a container with several items, one of which cannot be serialised; a batch of several
  metrics that is discarded, because it counts as one; a 429 answer, after which the envelope is
  neither sent again nor recorded; and the return of the worker after Close while envelopes are queued.
  There is a run for each (`PipelineLosses.LostWithoutBuffer`, `LostOnClose`, `LostInContainer`,
  `LostInBatch`, `LostAfter429`, `LostInQueue`).
- Recorded outcomes do not always reach the server: a client report is gone if it cannot be encoded or
  if the request that it is part of fails (`PipelineLosses.ReportLedger`, `PipelineLosses.ReportGoesDown`).
- `Size <= Capacity` is not kept by `BucketedBuffer`, because only new buckets are gated
  (`BucketRuns.CapacityKeptIff`); some run breaks it exactly if the buckets have room for more items than
  the capacity, which every constructed buffer has (`BucketRuns.CapacityExceededIff`,
  `BucketRuns.CapacityExceeded`).
- A trace can be spread over several buckets that all have room: when an older bucket of a trace leaves,
  the index entry of a newer one goes with it. `BucketRuns.StepSpreadsIff` and `BucketRuns.SpreadIff` say
  when, `BucketRuns.SpreadAfterPoll` gives a run.
- The batches of `batchProcessor` are not bounded by its batch size: those of a flush or a shutdown hold all
  that was collected, waiting and accepted meanwhile, which can be any number (`BatchProcessors.DrainBatch`,
  `BatchProcessors.FlushBatchOfAnySize`).
- Not everything that `batchProcessor` accepts is sent in the end: it is if and only if no Send was accepted
  after the goroutine had ended (`BatchProcessors.ShutdownSendsAllIff`), which is possible
  (`BatchProcessors.SendAfterShutdown`).
- What `New` builds cannot always be parsed after printing, because `New` does not check the size of
  a member (`BaggageConstruction.NewStringParse`, `BaggageConstruction.NewAcceptsTooLargeMember`,
  `DynamicSampling.HeaderRoundTrip`).
- With a depth limit the error traversal is not complete (`Exceptions.DepthLimitHidesErrors`). It is
  complete on every graph of at most `n` identities, equal ones having equal children, if and only if the
  limit is negative or at least `n - 1` (`Exceptions.LimitSufficesIff`).
- Starting a span panics, always, if MaxSpans is below 1, which is to say negative, and never otherwise
  (`SpanRuns.PanicsIff`, `Spans.Tracer.StartSpan`).
- An event is not always recorded under its own category: BeforeSend records what it drops as an error.
  That matters exactly for events that are no errors, transactions or check-ins and get that far
  (`Processors.RecordedUnderOwnCategoryIff`, `Processors.BeforeSendRecordsError`).

## Model

| member | source | states |
|---|---|---|
| `HttpBatches.StepKeepsInv` | transport.go:438-669 | Every channel operation of any number of senders and flushers, of Close and of the worker keeps the protocol's invariant: one token, batches worked off one after another, the ledger of accepted and taken events |
| `HttpRuns.TokenSafety` | transport.go:438-669 | In every run no channel is closed twice or sent on after closing, there is exactly one batch token, `items` is open whenever a sender has the batch, and putting a batch back never blocks |
| `HttpRuns.TakenInOrder` | transport.go:583-669 | In every run the worker has taken a prefix of the accepted events, each once and in acceptance order, the rest sits in the batches, and batch k+1 is started only after `done` of batch k is closed |
| `HttpRuns.FlushGuarantee` | transport.go:524-668 | When a flush has returned true, every event that was accepted into any batch before the flush closed its own (in particular before it was called) has been taken and dealt with (a request for it has ended, or it was recorded as discarded), in acceptance order; the worker is no longer busy with any of them |
| `HttpRuns.NoDeadlock` | transport.go:454-668 | Until Close, in every reachable state and without the help of timeouts, the worker can go on, or the call that holds the batch can, or the worker waits for events in the current batch, which it has started, and every call that has not returned can go on |
| `HttpRuns.NoEventLost` | transport.go:438-501 | In every run each event of a SendEvent call is accepted once, or counted as overflow once, or still in the hands of its call |
| `HttpProgress.SelectDecides` | transport.go:477-501 | In every run the select of SendEvent finds the current batch open; with room in it the event is accepted as its last (or handed to the waiting worker), and otherwise it is counted as overflow and nothing else changes |
| `HttpProgress.OverflowOnlyWhenFull` | transport.go:495-498 | In every run an event is counted as overflow only by a sender whose batch holds exactly the configured number of events |
| `HttpProgress.BatchBound` | transport.go:548-556 | No batch ever holds more events than the configured buffer size |
| `HttpProgress.CanSettle` | transport.go:583-668 | From every reachable state of an open transport, steps of the call that holds the batch and of the worker lead to a state in which every accepted event is dealt with and the worker waits |
| `HttpProgress.FlushCanReturn` | transport.go:524-575 | From every reachable state of an open transport every flush that has not returned can return true, without a timeout |
| `HttpProgress.SendCanReturn` | transport.go:454-501 | And every SendEvent can return, its event accepted last unless it had its select before |
| `HttpBatches.SoleHolder` | transport.go:402-407 | Whoever holds the batch is alone with it, and the capacity-1 channel is empty meanwhile |
| `HttpBatches.CloseItemsStep` | transport.go:546-556 | Closing the items of a batch keeps the invariant and covers every event accepted so far by the flush's mark |
| `HttpBatches.CloseDoneStep` | transport.go:665-667 | Closing `done` keeps the invariant: all events up to the marks of the waiting flushes have been taken |
| `HttpRuns.AcceptedMonotone` | transport.go:438-501 | Accepted events are only ever appended to |
| `BatchProcessors.StepKeepsInv` | batch_processor.go:80-136 | Every step of the goroutine and of its callers keeps the invariant of the collected items, the timer and the flush marks |
| `BatchProcessors.SentInOrder` | batch_processor.go:80-136 | In every run the sent batches, then the collected items, then the channel are the accepted sends in order; no batch is empty |
| `BatchProcessors.SelectIsArmed` | batch_processor.go:87-108 | At every select fewer items than a batch are collected, and if there are any the timer is set to the arrival of the first one plus the batch timeout |
| `BatchProcessors.BatchSizes` | batch_processor.go:87-108 | A batch sent because it is full has exactly the batch size, one sent by the timer has fewer items and at least one |
| `BatchProcessors.SendAccepts` | batch_processor.go:41-48 | Send is accepted, last in the channel, if and only if fewer than 100 items wait in it |
| `BatchProcessors.TimerSends` | batch_processor.go:98-102 | When the timer is received all that is collected is sent as one batch, and nothing if there is nothing |
| `BatchProcessors.DueAtDeadline` | batch_processor.go:87-102 | While anything is collected, the select can receive the timer exactly from its deadline on |
| `BatchProcessors.FlushCanReturn` | batch_processor.go:59-69 | While the goroutine runs every flush that waits can be answered |
| `BatchProcessors.DrainBatch` | batch_processor.go:103-136 | A flush or shutdown sends one batch: the items collected, then those waiting when it began, then those accepted until it ended, in this order; or none if there are none |
| `BatchProcessors.FlushBatchOfAnySize` | batch_processor.go:103-118 | For every n there is a run in which a flush sends a batch of n items |
| `BatchProcessors.FlushGuarantee` | batch_processor.go:59-69 | Once `done` of a flush is closed, everything accepted before Flush was called has been sent |
| `BatchProcessors.ShutdownGuarantee` | batch_processor.go:71-78 | After Shutdown exactly what was accepted before the goroutine ended has been sent, in order; what is left is what Send put into the channel later |
| `BatchProcessors.ShutdownSendsAllIff` | batch_processor.go:41-48 | Once the goroutine has ended, all that was accepted has been sent if and only if no Send was accepted after its end |
| `BatchProcessors.SendAfterShutdown` | batch_processor.go:41-48 | A run in which Send accepts an item after the end, which stays in the channel |
| `Exceptions.Visited.SeenError` | exception.go:21-38 | Answers whether the identity was seen before and from then on it is; pointers and messages are kept apart |
| `Exceptions.ConvertErrorDFS` | exception.go:67-129 | The recursion over the pointer to the list and the visited maps appends exactly what the depth-first traversal of the graph lists, on cyclic graphs too |
| `Exceptions.ConvertGroup` | exception.go:110-117 | The loop over the errors of a group appends their subtrees in order, skipping nil errors and keeping their indices |
| `Exceptions.ConvertUnwrapped` | exception.go:109-128 | A group, a wrapped error and a cause are tried in this order and only one of them is followed |
| `Exceptions.EdgesExact` | exception.go:109-128 | What is followed is exactly what the error unwraps to: the non-nil errors of a group, each at its index, or the wrapped error, or the cause |
| `Exceptions.Reverse` | exception.go:54-54 | Position j of the reversed list holds what position n-1-j held |
| `Exceptions.ConvertErrorToExceptions` | exception.go:40-65 | The result is the numbered tree reversed; a lone exception has no mechanism |
| `Exceptions.ReversedIds` | exception.go:40-65 | After the reversal position j holds id n-1-j |
| `Exceptions.UnseenDecreases` | exception.go:72-74 | Visiting an unseen error leaves fewer unseen identities: the measure by which the traversal of any finite graph ends |
| `Exceptions.FlattenPreorder` | exception.go:82-103 | ExceptionIDs are 0..n-1, every entry but the first names a real, earlier parent that unwraps to it at the recorded source, the ids are in preorder, kinds and group flags are right, and a non-negative limit bounds the depth |
| `Exceptions.FlattenSiblings` | exception.go:109-117 | Entries of one parent appear in the order of their index in it |
| `Exceptions.FlattenSound` | exception.go:109-128 | Only errors reachable from the root are listed |
| `Exceptions.FlattenComplete` | exception.go:105-128 | With no limit, or a limit of at least the number of identities less one, every error is listed that is reached from the root by unwrapping (through groups, Unwrap and Cause), if errors of one identity unwrap to the same identities |
| `Exceptions.FlattenNoDuplicates` | exception.go:72-74 | No identity is listed twice |
| `Exceptions.DfsNegativeLimit` | exception.go:105-107 | All negative limits mean no limit |
| `Exceptions.DfsLimitSlack` | exception.go:105-107 | A limit that leaves room for all unseen identities, the last one exactly at the limit, gives the same list and visited set as no limit |
| `Exceptions.DepthLimitHidesErrors` | exception.go:72-107 | With a limit, an error first met too deep hides an error two unwrappings away: completeness fails on this graph |
| `Exceptions.LimitSufficesIff` | exception.go:105-107 | On all graphs of at most n identities, and from every root, the listing reaches every reachable error if and only if the limit is negative or at least n-1 |
| `BufferModels.BucketOfferOk` | internal/telemetry/bucketed_buffer.go:111-200 | No offer breaks the bucket limits, and every index entry keeps pointing to the last bucket of its trace |
| `BufferModels.TakeOk` | internal/telemetry/bucketed_buffer.go:227-259 | Taking n items gives out the front n of the flattened buckets, keeps the rest and keeps the index right |
| `BufferModels.TakeTake` | internal/telemetry/bucketed_buffer.go:237-257 | Taking bucket by bucket is taking at once |
| `BufferModels.RemoveHeadOk` | internal/telemetry/bucketed_buffer.go:216-223 | Removing the head bucket, with the index entry of its trace even if that belongs to a newer bucket, leaves a sound index |
| `BufferModels.TotalBound` | internal/telemetry/bucketed_buffer.go:115-118 | Non-empty buckets of at most 100 items bound the size from both sides |
| `BucketedBuffers.BucketedBuffer.constructor` | internal/telemetry/bucketed_buffer.go:54-94 | A new buffer is empty, with the defaults for capacity, batch size and timeout and a tenth of the capacity, at least 10, as bucket capacity |
| `BucketedBuffers.BucketedBuffer.Offer` | internal/telemetry/bucketed_buffer.go:96-109 | Refines the offer to the list of buckets and counts it; slots, head, tail, index and totals stay in agreement with the list |
| `BucketedBuffers.BucketedBuffer.OfferToBucket` | internal/telemetry/bucketed_buffer.go:111-147 | Joins the indexed bucket, or forgets a full one and adds a bucket, or overflows |
| `BucketedBuffers.BucketedBuffer.HandleOverflow` | internal/telemetry/bucketed_buffer.go:149-200 | Drops the whole oldest bucket and records each of its items, or drops the new item; the nil-bucket branch is unreachable |
| `BucketedBuffers.BucketedBuffer.Poll` | internal/telemetry/bucketed_buffer.go:202-225 | Takes the first item of the head bucket; the empty answer means that the buffer is empty |
| `BucketedBuffers.BucketedBuffer.PollBatch` | internal/telemetry/bucketed_buffer.go:227-259 | Returns the first min(maxItems, Size) items over all buckets, whatever the bucket boundaries |
| `BucketedBuffers.BucketedBuffer.PollIfReady` | internal/telemetry/bucketed_buffer.go:261-285 | Returns the whole head bucket when the size or the timeout makes the buffer ready, and nothing otherwise |
| `BucketedBuffers.BucketedBuffer.Drain` | internal/telemetry/bucketed_buffer.go:287-308 | Returns all items, head bucket first, and leaves the buffer empty |
| `BucketedBuffers.BucketedBuffer.Clear` | internal/telemetry/bucketed_buffer.go:381-391 | Leaves the buffer empty |
| `BucketedBuffers.BucketedBuffer.IsReadyToFlush` | internal/telemetry/bucketed_buffer.go:393-405 | Ready means not empty and at the batch size or past the timeout |
| `BucketedBuffers.RemoveHeadRep` | internal/telemetry/bucketed_buffer.go:216-223 | The field updates of the circular array represent the removal of the head bucket |
| `BucketedBuffers.AddRep` | internal/telemetry/bucketed_buffer.go:133-146 | The field updates of the circular array represent the addition of a bucket |
| `BucketedBuffers.JoinRep` | internal/telemetry/bucketed_buffer.go:113-122 | Appending to the slot that the index names represents joining the last bucket of the trace |
| `BucketRuns.PerTraceFifo` | internal/telemetry/bucketed_buffer.go:111-308 | In every run of offers, polls, batches, drains and clears, the items of a trace leave in offer order and what is left is buffered in offer order, through bucket splits, lost index entries and overflow |
| `BucketRuns.OffersAccounted` | internal/telemetry/bucketed_buffer.go:354-392 | In every run offered = size + handed out + dropped + cleared, so that AcceptedCount is exact |
| `BucketRuns.SizeBound` | internal/telemetry/bucketed_buffer.go:111-147 | In every run the size is at most the bucket capacity times 100 |
| `BucketRuns.CapacityKeptIff` | internal/telemetry/bucketed_buffer.go:112-128 | An offer keeps the size within the capacity if and only if it does not join a bucket of a buffer that is at capacity |
| `BucketRuns.CapacityExceededIff` | internal/telemetry/bucketed_buffer.go:111-147 | Some run takes the size over the capacity if and only if the capacity is below the bucket capacity times 100 |
| `BucketRuns.CapacityExceeded` | internal/telemetry/bucketed_buffer.go:54-94 | With the bucket capacity that the constructor chooses, whatever the capacity, some run exceeds the capacity |
| `BucketRuns.StepSpreadsIff` | internal/telemetry/bucketed_buffer.go:111-257 | A step leads to two buckets of one trace with room exactly if it is an offer that joins no bucket although one of its trace with room stays, or a poll that ends inside a full bucket with such a bucket behind it |
| `BucketRuns.SpreadIff` | internal/telemetry/bucketed_buffer.go:111-257 | In a run, two buckets of one trace have room at some point if and only if some step of it was of that kind |
| `BucketRuns.SpreadAfterPoll` | internal/telemetry/bucketed_buffer.go:216-219 | 101 offers of one trace, a poll of the full bucket and one more offer leave two buckets of one item each |
| `BucketRuns.AppendToLast` | internal/telemetry/bucketed_buffer.go:118-118 | Appending to the last bucket of a trace appends to the items of that trace and to no other |
| `BucketRuns.TakenFlat` | internal/telemetry/bucketed_buffer.go:237-257 | The pieces that a batch is put together from are its front items in order |
| `BucketClients.PerformAll` | internal/telemetry/bucketed_buffer.go:96-308 | Any sequence of calls on a new BucketedBuffer is a run of the list of buckets with the corresponding operations: buckets, counters and all that was handed out agree with it |
| `BucketClients.StepHandsOver` | internal/telemetry/bucketed_buffer.go:202-308 | An operation adds to what was handed out exactly the front of the flattened buckets that it takes |
| `RingBuffers.RingBuffer.constructor` | internal/telemetry/ring_buffer.go:38-66 | A new buffer is empty, with the defaults for capacity, batch size and timeout |
| `RingBuffers.RingBuffer.Offer` | internal/telemetry/ring_buffer.go:74-117 | Refines the bounded queue under the overflow policies: append, drop the oldest, or refuse; what is dropped is recorded |
| `RingBuffers.RingBuffer.Poll` | internal/telemetry/ring_buffer.go:119-134 | Takes the oldest item |
| `RingBuffers.RingBuffer.PollBatch` | internal/telemetry/ring_buffer.go:136-164 | Takes the oldest min(maxItems, size) items in order |
| `RingBuffers.RingBuffer.PollIfReady` | internal/telemetry/ring_buffer.go:325-357 | Takes a batch when the size or the timeout makes the buffer ready |
| `RingBuffers.RingBuffer.Drain` | internal/telemetry/ring_buffer.go:166-190 | Returns the whole queue in order and leaves it empty |
| `RingBuffers.RingBuffer.Clear` | internal/telemetry/ring_buffer.go:266-278 | Leaves the queue empty |
| `RingBuffers.RingBuffer.IsReadyToFlush` | internal/telemetry/ring_buffer.go:300-317 | Ready means not empty and at the batch size or past the timeout |
| `RingBuffers.TakeAtHead` | internal/telemetry/ring_buffer.go:129-131 | Moving the head of the circular array on takes the front of the queue |
| `RingBuffers.ReplaceOldest` | internal/telemetry/ring_buffer.go:89-92 | Overwriting the head of a full circular array replaces the oldest item by a newest one |
| `RingBuffers.RingRuns` | internal/telemetry/ring_buffer.go:74-278 | In every run the accepted items are those that left, in the order in which they left, followed by the queue, and offered = size + handed out + dropped + cleared |
| `RingBuffers.PolicyRuns` | internal/telemetry/ring_buffer.go:84-116 | In every run drop-oldest refuses no offer, and no other policy takes back an item that was accepted |
| `RingBuffers.OfferCosts` | internal/telemetry/ring_buffer.go:74-117 | An offer to a full buffer costs the oldest item under drop-oldest and the new one otherwise; what stays and what goes is the old contents and the new item, in order |
| `RingClients.PerformAll` | internal/telemetry/ring_buffer.go:74-190 | Any sequence of calls on a new RingBuffer is a run of the bounded queue with the corresponding operations: queue, counters and all that was handed out agree with it |
| `RingClients.StepHandsOver` | internal/telemetry/ring_buffer.go:119-190 | An operation adds to what was handed out exactly what it takes from the front |
| `PercentEncoding.PercentEncodeValue` | internal/otel/baggage/baggage.go:382-405 | The rune-wise loop equals the octet-wise encoding on every byte string, invalid UTF-8 included |
| `PercentEncoding.RuneTest` | internal/otel/baggage/baggage.go:387-392 | The test on a whole rune says of each of its octets whether it stands for itself |
| `PercentEncoding.EscapeOctets` | internal/otel/baggage/baggage.go:394-401 | The inner loop encodes every octet of a rune |
| `PercentEncoding.UnescapeEncode` | internal/otel/baggage/baggage.go:327-331 | Percent-decoding gives back every byte string that was encoded |
| `PercentEncoding.EncodeMatches` | internal/otel/baggage/baggage.go:382-405 | The encoding has value characters only: no comma, semicolon or blank |
| `PercentEncoding.ReencodeLength` | internal/otel/baggage/baggage.go:319-331 | Decoding a value and encoding it again never takes more octets |
| `PercentDecoding.HexValue` | internal/otel/baggage/baggage.go:327-331 | The decoder reads exactly the hexadecimal digits of both cases, each with its position as value |
| `PercentDecoding.EncodeExact` | internal/otel/baggage/baggage.go:382-405 | The encoding writes value characters other than the percent sign as they are and all other octets as a percent sign and two upper-case digits |
| `PercentDecoding.UnescapeIff` | internal/otel/baggage/baggage.go:327-331 | Decoding gives d if and only if the text splits into plain octets and percent signs with two digits that stand for the octets of d |
| `PercentDecoding.UnescapeFails` | internal/otel/baggage/baggage.go:327-331 | Decoding fails if and only if some percent sign is not followed by two digits |
| `PercentDecoding.KeyCharacters` | internal/otel/baggage/baggage.go:39-39 | A key consists of letters, digits and the fifteen other characters of a token |
| `PercentDecoding.ValueCharacters` | internal/otel/baggage/baggage.go:40-40 | A value consists of printable ASCII but for double quote, comma, semicolon and backslash |
| `PercentDecoding.ReadHeadIff` | internal/otel/baggage/baggage.go:307-331 | Key and value are read if and only if the trimmed key and value match their classes and the trimmed value is an encoding of the value that results |
| `PercentDecoding.ReadHeadErrors` | internal/otel/baggage/baggage.go:320-331 | A bad key is reported before a bad value and that before a bad escape, each exactly when it is there |
| `PercentDecoding.ReadHeadNoEquals` | internal/otel/baggage/baggage.go:312-315 | A member without an equals sign, and no other, is an invalid member |
| `GoStrings.SplitJoin` | internal/otel/baggage/baggage.go:466-466 | Splitting undoes joining for parts without the separator |
| `GoStrings.TrimSpacePadded` | internal/otel/baggage/baggage.go:317-318 | White space around a text without blanks is trimmed away |
| `Trimming.TrimSpaceExact` | internal/otel/baggage/baggage.go:318-319 | Trimming cuts off white-space runes on both sides and leaves a text that neither starts nor ends with one |
| `BaggageSyntax.ParsePropertyIff` | internal/otel/baggage/baggage.go:113-133 | parseProperty accepts exactly the texts of the two expressions, with any blanks they allow, and the empty text, and returns the key and the value in them |
| `BaggageSyntax.MatchKeyValueComplete` | internal/otel/baggage/baggage.go:42-49 | A key, an equals sign and a value with any blanks around them are found as they are |
| `BaggageSyntax.MatchSound` | internal/otel/baggage/baggage.go:42-49 | What is found is a key, or a key, an equals sign and a value, with blanks around them |
| `BaggageMembers.ParseProperties` | internal/otel/baggage/baggage.go:299-306 | The property loop returns all properties in order or the first error |
| `BaggageMembers.ParseMember` | internal/otel/baggage/baggage.go:286-340 | The branches and the loop compute the specification of a read member, with the same first error |
| `BaggageMembers.PropertyRoundTrip` | internal/otel/baggage/baggage.go:172-177 | Parsing a printed property gives the property back |
| `BaggageMembers.PropertyShrinks` | internal/otel/baggage/baggage.go:113-133 | A parsed property is valid and prints to no more than its source |
| `BaggageMembers.HeadPadded` | internal/otel/baggage/baggage.go:309-331 | The key and the value are read the same with any white space around them |
| `BaggageMembers.HeadShrinks` | internal/otel/baggage/baggage.go:309-331 | The key and the value that were read print to no more than their source |
| `BaggageMembers.TailRoundTrip` | internal/otel/baggage/baggage.go:236-242 | Joined properties are split and parsed to the properties that were printed |
| `BaggageMembers.MemberRoundTrip` | internal/otel/baggage/baggage.go:371-378 | A printed member is read back as it was if it has at most 4096 octets, and refused as too large otherwise |
| `BaggageMembers.MemberErrors` | internal/otel/baggage/baggage.go:286-289 | A list-member is refused for its size if and only if it has more than 4096 octets |
| `BaggageMembers.MemberShrinks` | internal/otel/baggage/baggage.go:286-340 | A read member is valid and prints to no more than its source |
| `Baggages.Parse` | internal/otel/baggage/baggage.go:456-486 | The loop over the list-members computes the specification of a read header |
| `Baggages.ParseMeaning` | internal/otel/baggage/baggage.go:456-486 | A header of more than 8192 octets, and no other, is refused for its size; any other is accepted with all keys of its list-members, each as the last of that key says it, or refused because of the first malformed one or more than 180 keys |
| `Baggages.String` | internal/otel/baggage/baggage.go:594-604 | Prints every member once, in some order of the map |
| `Baggages.ParsePrinted` | internal/otel/baggage/baggage.go:456-486 | Exactly what parsing a printed list gives: the list, or the error of the first limit that is exceeded |
| `Baggages.PrintedLength` | internal/otel/baggage/baggage.go:594-604 | A parsed header prints to no more octets than it had |
| `Baggages.ParseStringParse` | internal/otel/baggage/baggage.go:456-604 | Parse, String in any order, Parse gives the same baggage for every accepted header, with no condition on sizes |
| `BaggageConstruction.New` | internal/otel/baggage/baggage.go:417-447 | Last member of a key wins; refuses members without data, too many members and too long a baggage-string |
| `BaggageConstruction.PrintedLengths` | internal/otel/baggage/baggage.go:441-444 | The printed length does not depend on the order of the map, so the test in New is well defined |
| `BaggageConstruction.NewStringParse` | internal/otel/baggage/baggage.go:417-447 | What New built from validated members is parsed back if and only if every printed member has at most 4096 octets |
| `BaggageConstruction.NewAcceptsTooLargeMember` | internal/otel/baggage/baggage.go:417-447 | A member of 4097 octets that New accepts and Parse refuses after printing |
| `MergeBaggages.MergeBaggage` | baggage.go:16-52 | Returns a print of the existing members overridden by the Sentry members; a malformed existing header leaves the Sentry members, and the errors are those of the parser |
| `MergeBaggages.MergeParses` | baggage.go:33-51 | Parsing the merged header gives the existing members overridden by the Sentry members, exactly when it is within the limits of a baggage-string |
| `DynamicSampling.FromHeader` | dynamic_sampling_context.go:20-39 | The entries are exactly the values of the keys with the prefix; frozen means that there are any |
| `DynamicSampling.Members` | dynamic_sampling_context.go:99-105 | The members are those of the entries whose prefixed key is valid |
| `DynamicSampling.String` | dynamic_sampling_context.go:97-117 | Prints the entries whose prefixed key is valid, or nothing if New refuses them |
| `DynamicSampling.HeaderRoundTrip` | dynamic_sampling_context.go:20-117 | FromHeader gives back the valid entries that String printed if and only if they are within the limits that New and Parse check |
| `DynamicSampling.PrefixedKey` | dynamic_sampling_context.go:100-103 | A prefixed key is valid exactly when the entry's key has key characters only |
| `DynamicSampling.PrefixText` | dynamic_sampling_context.go:10-12 | The prefix is the seven characters sentry- |
| `Aggregators.Aggregator.Record` | report/aggregator.go:29-44 | Adds a positive quantity to the counter of its key and ignores any other |
| `Aggregators.Aggregator.RecordOne` | report/aggregator.go:47-49 | Adds one |
| `Aggregators.Aggregator.RecordItem` | report/aggregator.go:129-152 | Records the item, the spans of a transaction and the size of a log |
| `Aggregators.Aggregator.RecordForEnvelope` | report/aggregator.go:94-125 | Records every item of the envelope by its type, attachments and client reports not at all |
| `Aggregators.Aggregator.TakeReport` | report/aggregator.go:52-90 | The report lists every counter once with its quantity, and none is left; no report if and only if there was no counter |
| `Aggregators.NothingLost` | report/aggregator.go:29-90 | In every run, for every key, what reports took and what is pending is what was recorded |
| `Outcomes.EventEnvelopeRecords` | report/aggregator.go:94-152 | Discarding the envelope of an error, transaction or check-in records what discarding the item records, attachments and client reports notwithstanding |
| `Outcomes.LogEnvelopeRecords` | report/aggregator.go:110-116 | Discarding a log envelope records its serialised logs, for every key but bytes |
| `Outcomes.MetricEnvelopeRecords` | report/aggregator.go:117-118 | Discarding a metric envelope records one, whatever it carries |
| `Pipelines.ContainerParcelOk` | internal/protocol/item_container.go:24-70 | The envelope of a container carries exactly the items that can be serialised |
| `PipelineLedgers.SendEnvelopeBeyond` | internal/http/transport.go:396-433 | SendEnvelope leaves every item of an envelope in exactly one place: queue, discards or losses |
| `PipelineLedgers.SendContainerMoved` | internal/telemetry/scheduler.go:267-291 | Sending a container moves its items and loses sight of none |
| `PipelineLedgers.SendEventMoved` | internal/telemetry/scheduler.go:267-291 | Sending an event moves it and loses sight of none |
| `PipelineLedgers.DropHandMoved` | internal/telemetry/scheduler.go:231-242 | The rate-limit and capacity branches discard exactly the polled items |
| `PipelineLedgers.AddPlaced` | internal/telemetry/scheduler.go:127-139 | An offered item is buffered, or discarded by overflow, or lost because there is no buffer; what overflows is recorded as discarded |
| `PipelineLedgers.FinishMoved` | internal/http/transport.go:565-600 | An answered envelope is delivered, discarded or, after a 429, lost as a whole |
| `PipelineLedgers.StepPlaced` | internal/telemetry/scheduler.go:127-291 | Every step of the pipeline keeps every item in exactly one place |
| `PipelineLedgers.ParcelRecords` | report/aggregator.go:94-125 | The records of an envelope are those of the items it reports, for every key but bytes |
| `PipelineLedgers.StepRecorded` | internal/http/transport.go:396-600 | Every step keeps what is recorded equal to what is discarded, for every key but bytes |
| `PipelineRuns.StepInv` | internal/telemetry/scheduler.go:127-291 | Every step of Add, scheduler, transport and aggregator keeps the ledger |
| `PipelineRuns.EndToEnd` | internal/telemetry/scheduler.go:127-291 | In every run an offered item is in a buffer, with processItems, queued, being sent, delivered (answered with success), discarded or lost for a cause that holds, and taken plus pending quantities of each reason and category are the numbers of discarded items |
| `PipelineRuns.SpanLedger` | report/aggregator.go:105-108 | In every run the span quantities in taken reports and pending are the spans of the discarded transactions |
| `PipelineReasons.StepReasons` | internal/telemetry/scheduler.go:218-291 | A step discards for each reason exactly the items of the branch for it: network and send errors and internal errors by the answer, rate limits at send, in the worker and for a whole batch, overflow of the queue and of a buffer |
| `PipelineReasons.ReasonsExact` | internal/http/transport.go:396-600 | In every run the items discarded for a reason are, in order, exactly those of the steps that discard for it |
| `PipelineReasons.ReportsExact` | report/aggregator.go:52-90 | So what reports took and what is pending for a reason and a category is the number of such items in these steps |
| `PipelineReasons.DeliveredExact` | internal/http/transport.go:565-600 | In every run exactly the items of the envelopes that the server took are delivered, in order |
| `PipelineReasons.StepInOrder` | internal/http/transport.go:396-433 | In every run buffers and queue are worked off from the front and envelopes are queued at the end |
| `Outcomes.ItemBytes` | report/aggregator.go:129-152 | A discarded log is recorded by its approximate size in bytes too |
| `Outcomes.LogEnvelopeBytes` | report/aggregator.go:110-116 | A discarded log envelope is recorded by the length of its payload |
| `PipelineLosses.StepLosesIff` | internal/http/transport.go:396-600 | A step loses items without delivery or record, for each of six causes, if and only if it meets the guard of that cause; a 429 answer is one, the return of the worker after Close another |
| `PipelineLosses.LostIff` | internal/telemetry/scheduler.go:127-291 | In every run items have been lost for a cause if and only if some step met the guard of that cause |
| `PipelineLosses.ConservationIff` | internal/telemetry/scheduler.go:127-291 | Every offered item is pending, delivered or recorded, as often as it was offered, if and only if no step of the run met any of the guards |
| `PipelineLosses.NothingUnrecorded` | internal/http/transport.go:396-600 | With an open transport, no 429 answer, serialisable items, a buffer for each and no metrics, no item is lost unrecorded |
| `PipelineLosses.LostWithoutBuffer` | internal/telemetry/scheduler.go:127-139 | A run that loses an item of a category without a buffer |
| `PipelineLosses.LostOnClose` | internal/http/transport.go:400-404 | A run that loses an item because the transport is closed between poll and send |
| `PipelineLosses.LostInContainer` | internal/protocol/item_container.go:24-70 | A run that loses a log that cannot be serialised next to one that can |
| `PipelineLosses.LostInBatch` | report/aggregator.go:117-118 | A run that loses the second of two metrics of a rate-limited batch |
| `PipelineLosses.LostAfter429` | internal/util/util.go:93-97 | A run that loses an item to a 429 answer |
| `PipelineLosses.LostInQueue` | internal/http/transport.go:492-494 | A run that loses a queued item because the worker returns after Close |
| `PipelineLosses.StepReports` | internal/http/transport.go:514-600 | Every step keeps what reports took equal to what the server received, the worker carries and is gone; a report gets lost exactly if it is not empty and cannot be encoded or its request fails |
| `PipelineLosses.ReportLedger` | report/aggregator.go:155-170 | In every run what was recorded for a key is received, carried, pending or gone, and something is gone if and only if some step lost a report |
| `PipelineLosses.ReportGoesDown` | internal/http/transport.go:571-590 | A run in which the report of a discarded error is gone with the failed request of another |
| `Telemetries.Telemetry.Add` | internal/telemetry/scheduler.go:127-139 | Takes the step of an offer and keeps the ledger; an accepted item is in the buffer of its category |
| `Telemetries.Telemetry.ProcessItems` | internal/telemetry/scheduler.go:218-247 | Takes the front of the buffer and keeps the ledger; every item it took is queued, discarded or lost for a cause, none stays behind with the call |
| `Telemetries.Telemetry.DropItems` | internal/telemetry/scheduler.go:231-242 | The rate-limit and the capacity branch record every item under their own reason |
| `Telemetries.Telemetry.SendItems` | internal/telemetry/scheduler.go:244-265 | Events are sent one by one, logs and metrics as one container, until no item is left |
| `Telemetries.Telemetry.SendEvent` | internal/telemetry/scheduler.go:267-291 | Sends the envelope of one event or records the event as an internal error |
| `Telemetries.Telemetry.SendContainer` | internal/telemetry/scheduler.go:250-291 | Sends one envelope with the items that can be serialised, or records one of the items if there is none |
| `Telemetries.Telemetry.SendEnvelope` | internal/http/transport.go:396-433 | A closed transport loses the envelope, a rate limit or a full queue records it, and otherwise it is queued last |
| `Telemetries.Telemetry.SendEnvelopeHTTP` | internal/http/transport.go:565-600 | Keeps the ledger and settles the envelope: its items are delivered, or lost to a 429 answer, or discarded for one reason and recorded, but for the metrics of a batch after the first |
| `Telemetries.Telemetry.Answered` | internal/http/transport.go:580-599 | A request that cannot be built grows the counters under internal error, a network failure those under network error, any status but success and 429 those under send error, each by the items of the envelope; success and 429 leave all counters alone |
| `Telemetries.Telemetry.WorkerTurn` | internal/http/transport.go:498-502 | The first envelope of the queue is settled and the worker is free again |
| `Telemetries.Telemetry.AttachToEnvelope` | report/aggregator.go:155-170 | Takes the accumulated report, attaches it if it can be encoded and drops it otherwise; changes nothing about the items of the envelope |
| `Telemetries.Telemetry.SendClientReport` | internal/http/transport.go:514-546 | Takes the accumulated report, which the server receives or which is gone |
| `Telemetries.Telemetry.Close` | internal/http/transport.go:465-473 | Closes the transport and keeps the ledger |
| `Telemetries.Telemetry.WorkerReturns` | internal/http/transport.go:492-494 | After Close the worker may return, and what is queued is lost |
| `PipelineRuns.StepReachable` | internal/telemetry/scheduler.go:127-291 | Every enabled step continues a run: since each method takes such steps, the state of a Telemetry object is always that of some run and all that holds in every run holds of it |
| `Schedulers.Scheduler.constructor` | internal/telemetry/scheduler.go:35-86 | The cycle holds each priority that has a buffer exactly as often as its weight, for every order of the map of weights |
| `Schedulers.Scheduler.HasWork` | internal/telemetry/scheduler.go:186-193 | True exactly if some buffer is ready |
| `Schedulers.Scheduler.ProcessNextBatch` | internal/telemetry/scheduler.go:195-216 | Serves one ready buffer of the priority in the slot, any one, or none if there is none, and moves on to the next slot |
| `Schedulers.PollSplits` | internal/telemetry/scheduler.go:218-229 | The items that a poll hands out and those it leaves are, in order, those that were there |
| `SchedulerBuffers.PollRing` | internal/telemetry/ring_buffer.go:325-357 | Polling a RingBuffer hands out and leaves exactly what the scheduler counts on, if the buffer is ready, and does nothing otherwise |
| `SchedulerBuffers.PollBuckets` | internal/telemetry/bucketed_buffer.go:261-285 | The same for a BucketedBuffer |
| `SchedulerBuffers.RingReady` | internal/telemetry/scheduler.go:186-193 | A RingBuffer is ready exactly when the scheduler takes it to be |
| `SchedulerBuffers.BucketsReady` | internal/telemetry/scheduler.go:186-193 | The same for a BucketedBuffer |
| `Schedulers.Scheduler.FindReady` | internal/telemetry/scheduler.go:203-211 | Finds a ready buffer of the priority if there is one |
| `Schedulers.AdvanceUpcoming` | internal/telemetry/scheduler.go:200-201 | Advancing the position modulo the length rotates what is upcoming by one slot |
| `SchedulerRuns.ExactRounds` | internal/telemetry/scheduler.go:56-71 | Any round of consecutive calls visits each priority that has a buffer exactly as often as its weight says, for every order of the cycle |
| `SchedulerRuns.ExactShares` | internal/telemetry/scheduler.go:48-71 | That is 5, 4, 3, 2 and 1 times from critical to lowest |
| `SchedulerRuns.ServedSoon` | internal/telemetry/scheduler.go:195-216 | A buffer alone in its priority that is ready until it is served is served within the cycle length - weight + 1 calls, whatever happens to the other buffers |
| `SchedulerRuns.CallDecreases` | internal/telemetry/scheduler.go:186-216 | A call made while there is work serves items or gets strictly closer to the next slot that can be served, the clock running on |
| `SchedulerRuns.RunUntilIdle` | internal/telemetry/scheduler.go:168-184 | Without new offers the loop of run ends in a state without work; of every category the items processed and then those still buffered are, in order, those that were buffered at the start |
| `SchedulerRuns.WorkRunsOut` | internal/telemetry/scheduler.go:168-184 | Without new offers work is found at most (buffered items) * the cycle length times |
| `AsyncTransports.StepKeepsInv` | internal/http/transport.go:396-563 | Every lock and channel operation of senders, flushers, Close and the worker keeps the invariant |
| `AsyncTransports.ProcessedInOrder` | internal/http/transport.go:486-563 | In every run the queued envelopes are those processed, then the one being sent, then the queue: each once, in order |
| `AsyncTransports.RequestGuarantee` | internal/http/transport.go:441-463 | A flush that returned true saw everything processed that was queued before the worker received its request |
| `AsyncTransports.FlushGuarantee` | internal/http/transport.go:441-463 | In particular everything that was queued before it was called |
| `AsyncTransports.NothingQueuedAfterDone` | internal/http/transport.go:396-473 | No envelope is queued after `done` is closed |
| `AsyncTransports.NoFlushAfterClose` | internal/http/transport.go:441-473 | A flush whose request the worker has not received when `done` is closed never returns true |
| `AsyncTransports.NothingAfterExit` | internal/http/transport.go:492-494 | Once the worker has returned nothing is processed any more, and the queue stays as it is |
| `AsyncTransports.LeftInQueue` | internal/http/transport.go:465-494 | A run in which Close returns with an envelope in the queue |
| `AsyncTransports.NoDeadlock` | internal/http/transport.go:396-563 | In every reachable state with a call that has not returned, Close included, or a worker at work, someone can go on without a timeout, even if no one gets the lock while Close waits for it |
| `AsyncProgress.QueueStep` | internal/http/transport.go:415-432 | In every run an envelope is queued only by a sender that saw the transport open, with room in the queue, and is appended once |
| `AsyncProgress.QueueBound` | internal/http/transport.go:415-432 | The queue never holds more envelopes than its size |
| `AsyncProgress.FlushCanReturn` | internal/http/transport.go:441-463 | While nobody closes the transport, every flush that has not returned can return true |
| `AsyncProgress.SendCanQueue` | internal/http/transport.go:396-433 | And every envelope whose call has not returned can be queued |
| `Spans.SpanRecorder.Record` | span_recorder.go:19-36 | Appends within the bound; the first call panics exactly if MaxSpans is below 1 |
| `Spans.Tracer.StartSpan` | tracing.go:130-214 | A child takes trace, parent id and recorder from its parent, a root opens a recorder; the span is recorded within the bound; it panics exactly for a root with MaxSpans below 1 and then leaves no span |
| `Spans.Tracer.Transaction` | tracing.go:1131-1138 | Answers with the first recorded span |
| `SpanRuns.RootIsTransaction` | span_recorder.go:40-47 | The first recorded span is the one that is reached by following the parents of any span of the recorder, recorded or not |
| `SpanRuns.ChildrenBelong` | span_recorder.go:51-58 | The recorded children are other spans of the same transaction, and all of them while the recorder is not full |
| `SpanRuns.PanicsIff` | span_recorder.go:26-34 | In every run a StartSpan panics if and only if MaxSpans is below 1, and then no span ever comes into being |
| `SpanRuns.StartedSpan` | tracing.go:130-180 | A new span keeps the id drawn for it, and a root also the trace and parent span that were drawn or came in |
| `SpanRuns.RootDecides` | tracing.go:560-640 | A root is not sampled without tracing, else as it was told, else as drawn; it opens a recorder and is the first in it |
| `SpanRuns.FinishDecides` | tracing.go:466-516 | The first Finish of a root that is not ignored captures it if it is sampled and records it as sampled out otherwise; no other Finish does either |
| `SpanRuns.FinishEnds` | tracing.go:466-484 | Finish ends this span only, once, and changes a sampling decision only of an ignored root |
| `Spans.Tracer.FinishedChildren` | tracing.go:678-686 | Keeps the recorded children that have ended, in order |
| `Spans.Tracer.Finish` | tracing.go:466-516 | The first Finish ends the span and, for a root, ignores it, records it as sampled out or captures it |
| `SpanRuns.TreeInvariant` | tracing.go:130-214 | In every run, whatever MaxSpans is, the recorder holds at most MaxSpans spans, the root first, in start order, closed under parent, and a span missing from it started when it was full |
| `SpanRuns.SameTrace` | tracing.go:146-149 | All spans of a transaction share the trace of its root |
| `SpanRuns.EventSpans` | tracing.go:670-721 | The event carries exactly the recorded spans below the root that have ended, in start order, and fewer than MaxSpans |
| `SpanRuns.EventComplete` | tracing.go:670-721 | While the recorder is not full no ended span of the transaction is missing from the event |
| `SpanRuns.SampledOutCounts` | tracing.go:486-498 | A transaction that is sampled out records itself once and all spans that its recorder holds |
| `SpanRuns.SamplingInherited` | tracing.go:560-589 | In every run without ignored status codes a span decides like its parent unless it was told otherwise or tracing is off |
| `SpanRuns.SampledTogether` | tracing.go:585-589 | So all spans without a decision of their own share that of the root |
| `Processors.ApplyScopeProcessors` | scope.go:429-449 | The loop runs the processors until one drops the event and records drops and removed spans if there is a client |
| `Processors.ApplyClientProcessors` | client.go:990-1030 | The loops do the same, although they test only transactions for removed spans |
| `Processors.ApplyBeforeSend` | client.go:900-924 | The switch runs the callback for the type of the event and records its drops and removed spans |
| `Processors.ProcessEvent` | client.go:877-933 | Sampling, scope, client and global processors and BeforeSend in this order, stopping at the first drop |
| `Processors.ProcessedLedger` | client.go:990-1030 | For any processors the spans at the start plus those added are the spans recorded as discarded plus those left, and a dropped event is recorded once |
| `Processors.SpanLedger` | client.go:877-933 | The same for the whole way of an event through sampling, processors and BeforeSend |
| `Processors.AllStagesRun` | client.go:990-1030 | An event is handed on if and only if it passes every processor of the scope, then of the client, then every global one, in this order |
| `Processors.ProcessedIff` | scope.go:429-449 | A list of processors hands on exactly the event that results from asking one after the other |
| `Processors.ReasonsByStage` | client.go:877-933 | What sampling drops is recorded under sample rate, what processors drop or remove under event processor, what the callbacks drop or remove under before send |
| `Processors.RecordedUnderOwnCategoryIff` | client.go:877-933 | If processors keep the type, all records of an event are under its own category or about spans if and only if BeforeSend does not get to drop an event that is no error, transaction or check-in |
| `Processors.RecordedUnderOwnCategory` | client.go:877-933 | In particular all records of an error, transaction or check-in are |
| `Processors.BeforeSendRecordsError` | client.go:916-924 | Any event that is no transaction or check-in is recorded under the error category if BeforeSend drops it |

## Left out

- HTTP, TLS, proxies, JSON, gzip and the building of requests: an envelope ends in one of five answers, and whether an item can be serialised is given with it.
- Rate limits and their deadlines: whether a category is limited is chosen freely at each test.
- Liveness: lost wake-ups, tickers and the condition variable of the scheduler; only safety, freedom from deadlock of the two transports, fairness of the cycle and termination without new offers are stated.
- The stack traces, types and values of exceptions: an entry names its error and its mechanism.
- The identities of errors: pointers are addresses and other errors a key made of type and message, which two different errors may share.
- Pointers to buckets: BucketedBuffers.BucketedBuffer holds buckets as values in its slots, so that aliasing of a bucket by the caller and the times a bucket was created and updated are not modelled.
- The callbacks for dropped items, Peek, MarkFlushed, metrics and utilisation of the buffers.
- The clock between the readiness test and the poll in processNextBatch: one reading serves both.
- Pipelines: the buffers are bounded queues, as the client configures them; a poll takes any number of items from the front, which covers PollIfReady and Drain; the calls of processItems may overlap in any way.
- Telemetries: the class holds its buffers as bounded queues and polls any number of items; RingBuffers.RingBuffer is proved against the same queue and says how many.
- Pipelines: log bytes are not conserved, because an item records its approximate size and an envelope the size of its payload.
- Pipelines: an item in a buffer counts as pending, also after the scheduler has stopped: a later Flush still takes it.
- Pipelines: after Close the worker may go on or return, but no timing is attached to that.
- The legacy transports' recording per event (recordForEvent and recordForBatchItem in transport.go), SyncTransport and the adapter between the transports.
- SetMember, DeleteMember and the accessors of baggage; error messages.
- DynamicSamplingContextFromTransaction and FromScope: they only fill a map.
- Missing (nil) envelope items and envelopes, which recording skips.
- Sampling rates and random numbers: the decision for a root is drawn.
- Span options that rewrite trace fields, end times set by the caller before Finish, MaxSpans that changes while a transaction runs, and a missing client in Finish.
- Spans.Tracer keeps all spans in one list, so that a span is an index and not an object of its own.
- The fields of events that scopes and clients fill in, hints, and events that are nil.
- Goroutines of callers: their steps interleave freely, with each lock region that touches one structure as one step.
- 64-bit overflow of counters.
- Integrations, logging adapters, profiling, environment detection and DSN parsing.
