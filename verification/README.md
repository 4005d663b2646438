# Cube: streaming, pivoting, bucketing and caching, modelled and proved

A Dafny model of the parts of Cube where state, interleaving or meaning is at stake, and proofs about all runs and all
inputs of them. `dafny verify dfyconfig.toml` checks the project.

The modules follow the program:

* **SQL over HTTP.** `SqlWriter` is the server's run of a query (schema, batches, error), `Json` the compact printer and
  the parser it relies on, `JsonLines` the two decoders of the client, `JsonCut` and `StreamCut` what they make of a text
  that breaks off, `SqlRequest` what the client's request loop does with a response before it is decoded, `Backpressure`
  the semaphore between the writer and the response stream.
* **The native stream bridge.** `StreamBridge`: a Node `Writable` that gathers rows into chunks, a Rust task that sends
  them into a bounded channel, and the receiver; `BridgeRuns` is about all their interleavings.
* **The pivot engine.** `PivotConfig` normalizes the axes, `Pivot` builds the table, `PivotLossless` says when nothing is
  lost and what gap filling adds, `PivotTable` what stands where in terms of the data rows alone, `PivotOrder` in which
  order, `PivotMerge` puts several results side by side; `JsObject` is the key order and the inherited names of JavaScript objects.
* **Buckets of time.** `Buckets`: alignment to an origin, custom series of the server and of the client, the limit on
  their size, predefined series, all on a linear time line. `Calendar` is the Gregorian calendar, `CalendarBuckets` the
  alignment and the custom series of intervals of any units, months among them, from any origin, and `MonthGrids` says
  where these are as regular as the linear ones and has the predefined series of months. `GapFill` joins the predefined
  series with the pivot.
* **Concurrency helpers.** `SingleFlight`, `BackgroundMemo`, `CancelableInterval`, `CachedHandler`, `LoadMutex`.
* **Translations and orders.** `GraphqlWhere`, `NormalizeQuery`, `ColumnCondition`, `NodeObj`, `Semver`.

`Strings` (split, join, trim) and `Wrappers` (a value that may be missing) are shared helpers.

A concurrent component is a state machine whose steps are what the program does between two awaits: `Next` is one step,
`Legal` a run, `After` its end. A class beside it has the fields the program updates, and each of its methods is proved to
take exactly one step of the machine; the theorems are about every legal run. Sequential code with loops is a method
proved equal to a specification function, and the theorems are about that function. What such a function computes is said
once more by laws that do not use it: by position, by date, by decimal digits, or by the events of a run. Histories (what was written, answered
or told so far) are ghost fields.

Where the code does not keep what one would expect of it, the model keeps the code, a lemma names a failing input, and
where it can be said the exact condition is proved:

* An error of the row source is dropped when the channel is full (`BridgeRuns.SourceErrorIsDelivered`).
* A response that breaks off between two messages looks complete to the client (`StreamCut.CutStreamTells`).
* When the client goes away while the SQL writer waits for a drain, the writer waits for ever (`Backpressure.WakeUpIffAlive`).
* A batch SQL client shows a late error as one undefined row (`SqlWriter.BatchHidesLateError`; when it does learn of a
  failure, says `SqlRequest.BatchLearnsOfFailureIff`), and a result that holds the words "Continue wait" is polled for
  again and again (`SqlRequest.ValueLooksLikeWaiting`).
* The pivot merges a null and an empty column value (`PivotLossless.NullAndEmptyCollide`) and throws on columns named like
  inherited properties (`PivotLossless.ConstructorThrows`; exactly when, says `PivotLossless.ThrowsIff`).
* An OR element with several filters loosens a GraphQL filter (`GraphqlWhere.OneFilterPerElementIsExact`).
* A custom series of the client has no limit and does not end for a negative interval (`Buckets.SeriesDiverge`), and a
  negative interval snaps to an upside-down range (`Buckets.SnapContains`).
* From an origin after the 28th, months drift to another day (`MonthGrids.LateOriginDrifts`; exactly when, says
  `MonthGrids.KeepsTheDayIff`), and the bucket of a date before the origin may miss the date
  (`MonthGrids.BucketMissesStart`; exactly when, says `CalendarBuckets.BucketsCover`).
* The response cache replays the status of an earlier run (`CachedHandler.StatusOutlivesItsRun`) and one that was set too
  late to be sent (`CachedHandler.LateStatusIsCached`; exactly when, says `CachedHandler.PayloadIsCachedIff`), and
  requests that waited for a failed run are told 200 (`CachedHandler.WaitersDoNotSeeTheError`).
* An eviction can let a second execution of a debounced key start (`SingleFlight.StepKeepsSingleFlightIff`).
* A superseded load can still deliver once (`LoadMutex.LateDelivery`; exactly when, says `LoadMutex.SpeaksOnceMoreIff`).
* The second normalization of a query resets its cache mode or rejects it (`NormalizeQuery.SecondPass`).
* A time dimension listed first without a granularity moves an axis (`PivotConfig.BareNameKeepsItsAxisIff`).

## Model

| member | source | states |
|---|---|---|
| `Json.RoundTrip` | packages/cubejs-client-core/src/index.ts:828 | Parsing a printed value gives the value back, for every well-formed value (escapes included): the parser undoes the printer. |
| `Json.PrintOnOneLine` | packages/cubejs-backend-native/src/node_export.rs:202 | Printed JSON holds no control character, so no raw line feed: a message can never be split by its own content (section 7 of RFC 8259). |
| `JsonLines.CubeSqlStream` | packages/cubejs-client-core/src/index.ts:813-884 | For every way of cutting the text into chunks, the events are those of the whole text split once: decoding is independent of chunking. What a piece tells, unreadable ones included, say `UnreadableIsTold` and `LineTells`. |
| `JsonLines.LinesToEvents` | packages/cubejs-client-core/src/index.ts:824-853 | The complete lines of a chunk are told one after the other, blank ones skipped; an unreadable one is an error event with its text (`UnreadableIsTold`). |
| `JsonLines.DecodeChunk` | packages/cubejs-client-core/src/index.ts:819-823 | Invariant of the decoder: after any prefix, the events told and the text held back are those of that prefix. |
| `JsonLines.LastPiece` | packages/cubejs-client-core/src/index.ts:857-884 | Without an error event, the unterminated remainder is read like any other line. |
| `JsonLines.RowsOfEvents` | packages/cubejs-client-core/src/index.ts:776-782 | On lines that all tell of data, the rows of the batch decoder are the rows of the data events, in order. |
| `JsonLines.BatchAgreesWithStream` | packages/cubejs-client-core/src/index.ts:772-783 | On every successful text, the batch decoder returns the schema, the concatenated data and the refresh time of the streaming decoder's events. |
| `JsonLines.UnreadableIsTold` | packages/cubejs-client-core/src/index.ts:845-882 | In every text, a non-blank piece that is no JSON value or null is told as one error event, with the words for a line or for the remainder and the piece itself, right after the events of the pieces before it. |
| `JsonLines.NoErrorMeansReadable` | packages/cubejs-client-core/src/index.ts:845-882 | A text whose events hold no error has no unreadable piece. |
| `JsonLines.LineTells` | packages/cubejs-client-core/src/index.ts:834-845 | Of schema, data and error, the first truthy one in this order is told; a readable line without any tells nothing. |
| `JsonLines.TruthyIff` | packages/cubejs-client-core/src/index.ts:834-845 | Falsy are exactly: a missing property, null, false, the empty text and a number that is zero. |
| `JsonLines.BatchErrorIs` | packages/cubejs-client-core/src/index.ts:753-786 | When the batch decoder fails and with which error: no text, a timeout, an abort, else exactly if the first line or a later non-blank one is no JSON value or null. |
| `JsonLines.LookupIs` | packages/cubejs-client-core/src/index.ts:828 | Of members of the same name, the last one counts. |
| `JsonCut.CutObjectIsUnreadable` | packages/cubejs-client-core/src/index.ts:857-860 | No proper part of the text of a printed object that ends before its last bracket is a JSON value. |
| `JsonCut.WhiteSpaceAround` | packages/cubejs-client-core/src/index.ts:828 | White space before and behind a value is skipped (section 2 of RFC 8259). |
| `JsonCut.OtherEscapes` | packages/cubejs-client-core/src/index.ts:828 | The escaped slash and hexadecimal escapes of either case are read as the characters they stand for (section 7 of RFC 8259). |
| `StreamCut.CutStreamTells` | packages/cubejs-client-core/src/index.ts:856-884 | A response that breaks off anywhere: behind whole lines nothing shows it, behind the full text of a message that message is told as if it were whole, and inside a message the stream ends in an error event with the part that arrived. |
| `StreamCut.PieceTells` | packages/cubejs-client-core/src/index.ts:856-884 | The last piece of a cut response is told, is blank, or is an error, according to how much of its message it holds. |
| `SqlWriter.Execute` | packages/cubejs-backend-native/src/node_export.rs:292-393 | What is delivered is a prefix of the planned messages that stops only where a write fails, the failure is the first one in program order, and no failure means the whole plan. |
| `SqlWriter.Write` | packages/cubejs-backend-native/src/node_export.rs:196-220 | Either the plan is delivered up to this message, or the run stops here: what was delivered and the error are those of the whole execution. |
| `SqlWriter.SendBatches` | packages/cubejs-backend-native/src/node_export.rs:355-376 | The loop goes through all batches with every write done, or stops with the execution's error and a legitimate prefix; it knows whether there was data. |
| `SqlWriter.ExecSql` | packages/cubejs-backend-native/src/node_export.rs:395-442 | The response text is the delivered messages followed by at most one error line with the reported error; an error of the log call replaces the one it was to report. |
| `SqlWriter.ShapeOfRun` | packages/cubejs-backend-native/src/node_export.rs:335-390 | Every run sends one schema and then only data; a run without error has at least one data message, one for each batch or one empty one. |
| `SqlWriter.LineOfMessage` | packages/cubejs-backend-native/src/node_export.rs:194-202 | A printed message is one non-blank line that reads back as the message and tells of exactly that event. |
| `SqlWriter.WriterAndDecoder` | packages/cubejs-client-core/src/index.ts:819-884 | Decoding undoes writing: the events of the text of any messages are the events of those messages, in order. |
| `SqlWriter.ClientSeesRun` | packages/cubejs-backend-native/src/node_export.rs:561-576 | However the text is cut, the client sees the schema, one event for each delivered batch, and after a failure exactly one error event with the reported text (none if it is empty). |
| `SqlWriter.BatchOfText` | packages/cubejs-client-core/src/index.ts:772-783 | The batch result of any response that starts with a schema: its schema, and the rows of the following messages in order. |
| `SqlWriter.BatchSeesSuccessfulRun` | packages/cubejs-client-core/src/index.ts:772-783 | A successful run gives the batch client the schema and every row of every batch, in order. |
| `SqlWriter.BatchHidesLateError` | packages/cubejs-client-core/src/index.ts:778-781 | An error after the schema does not reach the batch decoder: it is one undefined row at the end of an otherwise ordinary result. |
| `SqlWriter.WhatIsReported` | packages/cubejs-backend-native/src/node_export.rs:395-442 | The error at the end of a response, cause by cause: from before the run; of the plan; of the first write that fails, before any broken batch; of the first broken batch; of the log of a success. The failure log replaces what it was to report. |
| `SqlRequest.RequestSeesRun` | packages/cubejs-client-core/src/index.ts:372-388 | A response of two or more messages is not JSON and is decoded as a whole, a lone error line gives its bare text; a successful run is answered with all its rows unless its text holds the words of a pending query, then it is polled again. |
| `SqlRequest.BatchLearnsOfFailureIff` | packages/cubejs-client-core/src/index.ts:372-388 | A batch client learns that a run failed if and only if nothing was sent before and the error text itself is none the decoder takes for a result; else it gets the delivered rows and one undefined row, unless it polls again. |
| `SqlRequest.PlainTextIsAnError` | packages/cubejs-client-core/src/index.ts:774-785 | An error text whose first line is no JSON value is an error to the batch decoder. |
| `SqlRequest.ValueLooksLikeWaiting` | packages/cubejs-client-core/src/index.ts:382-388 | A concrete successful query whose one value is those words is polled again. |
| `Backpressure.RunKeepsInv` | packages/cubejs-backend-native/src/node_export.rs:314-376 | Every run keeps: drains are permits acquired or left, and a writer that waits on a live stream is owed a permit. |
| `Backpressure.PermitsAreBounded` | packages/cubejs-backend-native/src/node_export.rs:355-376 | Whenever a batch may be written at most one permit is unspent, although the schema write's answer is ignored, and the response never buffers more than its mark and three messages. |
| `Backpressure.WakeUpIffAlive` | packages/cubejs-backend-native/src/stream.rs:64-89 | A blocked writer will be woken when the stream empties if and only if the stream was not destroyed; after a destroy it stays blocked in every continuation. |
| `Backpressure.ClientLeaves` | packages/cubejs-backend-native/src/node_export.rs:372-375 | A concrete run in which the client leaves and the writer waits for ever. |
| `Backpressure.SqlResponse.Write` | packages/cubejs-backend-native/src/node_export.rs:204-216 | A write adds to the buffer and says no exactly when the mark is reached or the stream is destroyed; a live no owes a drain. |
| `Backpressure.SqlResponse.SendSchema` | packages/cubejs-backend-native/src/node_export.rs:347-353 | The schema step of the machine: the answer of the write is not looked at. |
| `Backpressure.SqlResponse.SendBatch` | packages/cubejs-backend-native/src/node_export.rs:357-376 | The batch step: the writer pauses exactly when the write said no. |
| `Backpressure.SqlResponse.TakePermit` | packages/cubejs-backend-native/src/node_export.rs:373-374 | The acquire step: one permit is used up and the loop goes on. |
| `Backpressure.SqlResponse.End` | packages/cubejs-backend-native/src/node_export.rs:378-390 | The last step, also of a run that fails before its schema: an empty data message only if there was no batch and no error, then the end of the response. |
| `Backpressure.SqlResponse.Close` | packages/cubejs-backend-native/src/node_export.rs:364-375 | The client goes away: nothing else changes, so whoever waits keeps waiting. |
| `Backpressure.SqlResponse.Drained` | packages/cubejs-backend-native/src/stream.rs:87-89 | The stream's step: a permit is added exactly when an owed drain fires. |
| `Backpressure.EndWrites` | packages/cubejs-backend-native/src/node_export.rs:378-442 | In every run, the end writes the empty data message exactly if no batch was written and nothing failed, then the error line; a destroyed stream takes neither. |
| `StreamBridge.StepKeepsInv` | packages/cubejs-backend-native/src/stream.rs:128-160 | Every step of either side keeps the flow of rows and the shape of the chunks. |
| `BridgeRuns.NothingLost` | packages/cubejs-backend-native/js/index.ts:282-311 | In every interleaving, rows received, in the channel, being sent and buffered are, in this order, the rows written; what was received is always a prefix of them. |
| `BridgeRuns.BridgeIsBounded` | packages/cubejs-backend-native/src/stream.rs:315-320 | The bridge never holds more than eleven chunks of rows. |
| `BridgeRuns.EndMeansEverything` | packages/cubejs-backend-native/js/index.ts:296-311 | A receiver of the end marker has received every row written, in chunks that are all full except for the last. |
| `BridgeRuns.InternalRunsEnd` | packages/cubejs-backend-native/src/stream.rs:162-191 | Left alone, the bridge comes to rest: its own steps are bounded by a measure of its state. |
| `BridgeRuns.SourceEndIsDelivered` | packages/cubejs-backend-native/js/index.ts:296-311 | After the source ended, a bridge at rest has delivered every row and the end marker: no deadlock, no loss. |
| `BridgeRuns.SourceErrorIsDelivered` | packages/cubejs-backend-native/src/stream.rs:154-159 | An error of the source reaches the receiver if and only if the channel has room at that moment; in no case is there an end marker. |
| `BridgeRuns.FillChannel` | packages/cubejs-backend-native/src/stream.rs:318-320 | For every number up to the size of the channel there is a run that leaves exactly that many chunks in it, with the source still writing. |
| `BridgeRuns.ErrorsCanBeLost` | packages/cubejs-backend-native/src/stream.rs:158 | There is a run in which the source fails on a full channel and the error is never sent. |
| `StreamBridge.Bridge.Begin` | packages/cubejs-backend-native/src/stream.rs:138-142 | The start step: the handshake is completed at most once. |
| `StreamBridge.Bridge.WriteRow` | packages/cubejs-backend-native/js/index.ts:286-295 | The write step: the row is buffered, and a full buffer is handed over whole. |
| `StreamBridge.Bridge.Finish` | packages/cubejs-backend-native/js/index.ts:296-311 | The final step: the rest of the buffer goes before the end marker. |
| `StreamBridge.Bridge.RejectStream` | packages/cubejs-backend-native/src/stream.rs:154-159 | The failure step: an open handshake fails, and the error is queued only if there is room. |
| `StreamBridge.Bridge.PollSend` | packages/cubejs-backend-native/src/stream.rs:128-136 | The send step: a chunk enters a live channel with a free slot, or the send is refused because the receiver is gone. |
| `StreamBridge.Bridge.RunCallback` | packages/cubejs-backend-native/src/stream.rs:168-190 | The callback step: the source goes on, the end marker follows the last chunk, or a refused send fails the stream. |
| `StreamBridge.Bridge.DropReceiver` | packages/cubejs-backend-native/src/stream.rs:131-135 | The receiver goes away: what the channel held is gone, and every later send is refused. |
| `StreamBridge.Bridge.Recv` | packages/cubejs-backend-native/src/stream.rs:357-359 | The receive step: the oldest chunk, and only after the handshake. |
| `StreamBridge.Handshake` | packages/cubejs-backend-native/src/stream.rs:138-159 | In every run the engine is told that the query started exactly if it did, and an error exactly if it failed to; no run does both, and what was told stays. |
| `StreamBridge.GoneReceiverStops` | packages/cubejs-backend-native/src/stream.rs:128-136 | In every run after the receiver has gone, with a chunk in hand: nothing more is sent or written, and the callback fails the stream. |
| `Buckets.AddInterval` | packages/cubejs-backend-shared/src/time.ts:117-125 | Adding the parts of an interval one by one moves the date by the interval's length. |
| `Buckets.SubtractInterval` | packages/cubejs-backend-shared/src/time.ts:127-135 | Subtracting them moves it back by the same length. |
| `Buckets.FloorUnique` | packages/cubejs-backend-shared/src/time.ts:137-139 | The closest grid point not after a date is unique: any grid point whose bucket holds the date is the floor. |
| `Buckets.FloorBounds` | packages/cubejs-backend-shared/src/time.ts:137-139 | The floor is a grid point not after the date and less than one interval before it. |
| `Buckets.ServerAlignToOrigin` | packages/cubejs-backend-shared/src/time.ts:140-161 | The loop ends and returns the floor of the date on the grid through the origin, on both sides of the origin. |
| `Buckets.ServerAlignDiverges` | packages/cubejs-backend-shared/src/time.ts:144-153 | The loop's precondition is exact: for an interval that is not positive the guard holds after any number of rounds. |
| `Buckets.ClientAlignToOrigin` | packages/cubejs-client-core/src/time.ts:158-193 | The client's loop returns the floor for the absolute length: the same for an interval and its negative. |
| `Buckets.ServerTimeSeries` | packages/cubejs-backend-shared/src/time.ts:173-210 | An over-limit range is refused; otherwise the labels are those of the grid points from the floor of start up to, and without, end. |
| `Buckets.ClientTimeSeries` | packages/cubejs-client-core/src/time.ts:264-282 | The client lists the grid points from the floor of start up to and with end. |
| `Buckets.SeriesDiverge` | packages/cubejs-client-core/src/time.ts:272-279 | The preconditions of the two series are exact: outside them the guard of a loop holds at every round, so the series never ends. |
| `Buckets.ServerAndClientAgree` | packages/cubejs-client-core/src/time.ts:276-279 | Both ends list the same bucket starts in the same order; the client adds exactly end itself when end is a grid point of the range. |
| `Buckets.EndOnGrid` | packages/cubejs-client-core/src/time.ts:276 | End is a grid point of the range if and only if the last bucket ends there. |
| `Buckets.BucketsTile` | packages/cubejs-backend-shared/src/time.ts:198-207 | At the label's precision each bucket starts one tick after the one before it ends, the first at the floor, and together they reach the second of end. |
| `Buckets.BucketsCover` | packages/cubejs-backend-shared/src/time.ts:194-207 | For a whole-second start, origin and interval and any later end, the first bucket contains start, and the last one contains end unless end is itself a grid point. |
| `Buckets.LimitBoundsBuckets` | packages/cubejs-backend-shared/src/time.ts:173-186 | A series that passes the check has at most 50,001 buckets: for any end when origin and interval are in whole seconds, and for any origin and interval when end is. |
| `Buckets.LimitIsTight` | packages/cubejs-backend-shared/src/time.ts:180-183 | A range that passes the check and has 50,001. |
| `Buckets.SnapToCustom` | packages/cubejs-client-core/src/time.ts:224-249 | The drill-down range starts at the bucket of the value if there is an origin or an offset, else at the value itself, and is one interval less a millisecond long. |
| `Buckets.SnapContains` | packages/cubejs-client-core/src/time.ts:242-248 | That range contains the value if and only if the interval is positive; any other range ends before it starts. |
| `Buckets.By` | packages/cubejs-client-core/src/time.ts:196-208 | The loop lists from shifted by whole units, as many as the count of unit starts says. |
| `Buckets.StartOfShift` | packages/cubejs-client-core/src/time.ts:202-204 | Cutting down to the unit commutes with adding units. |
| `Buckets.TimeSeries` | packages/cubejs-client-core/src/time.ts:73-84 | The predefined series is the unit series of the range, which the week snaps to whole weeks first. |
| `Buckets.UnitSeriesIs` | packages/cubejs-client-core/src/time.ts:73-80 | The series is, strictly increasing, exactly the unit starts from the one of from up to, and without, to, plus to when both ends are unit starts. |
| `Buckets.WeekSeriesIs` | packages/cubejs-client-core/src/time.ts:80 | The series of weeks is exactly the week starts from the week of from to the one of to, both included. |
| `Buckets.PredefinedSeriesIs` | packages/cubejs-client-core/src/time.ts:73-80 | For every unit the series is strictly increasing and lists exactly the unit starts of the range. |
| `Buckets.PaddedSeriesIs` | packages/cubejs-client-core/src/ResultSet.ts:469-480 | Padded to days, the series has every unit start of every day from the day of from to the day of to. |
| `Buckets.WeeksStartOnMonday` | packages/cubejs-client-core/src/time.ts:73-80 | A week starts at midnight of the last Monday, counted from Thursday, 1 January 1970; every shorter unit starts at a multiple of its length. |
| `Buckets.UnitsAre` | packages/cubejs-client-core/src/time.ts:73-80 | The lengths of the units by one another: 1000 milliseconds, 60 seconds, 60 minutes, 24 hours, 7 days. |
| `Buckets.StartIsListed` | packages/cubejs-backend-shared/src/time.ts:194-207 | A series holds exactly the grid points before end whose buckets end after start. |
| `Buckets.RefusedHasMore` | packages/cubejs-backend-shared/src/time.ts:177-186 | A range that the check refuses would have more than 50,000 buckets. |
| `Buckets.LabelsAre` | packages/cubejs-backend-shared/src/time.ts:198-207 | At a precision of milliseconds the labels of a bucket of whole seconds are its first and its last millisecond; at none, its first and last second. |
| `Calendar.AddMonthsMoves` | packages/cubejs-backend-shared/src/time.ts:117-125 | Adding months moves by as many months, keeps the day or takes the last one, and goes forwards or backwards as the number says. |
| `Calendar.MonthIs` | packages/cubejs-backend-shared/src/time.ts:117-125 | The month of an instant is the only one that contains it. |
| `Calendar.DateIs` | packages/cubejs-backend-shared/src/time.ts:117-125 | The instant of a date, computed from the year, the number of leap years before it and the days before its month, lies in that month on that day. |
| `Calendar.AddMonthsOnDates` | packages/cubejs-backend-shared/src/time.ts:117-125 | Adding months to a date gives the same time of the same day, or of the last day where the month is shorter, in the month as many months on. |
| `Calendar.NextLeaps` | packages/cubejs-backend-shared/src/time.ts:117-125 | The leap years before a year, counted by fourth, hundredth and four-hundredth years, are those that the rule of the calendar makes leap years. |
| `CalendarBuckets.AddInterval` | packages/cubejs-backend-shared/src/time.ts:117-125 | Adding the parts of any interval one by one, months among them, gives the date the interval leads to. |
| `CalendarBuckets.SubtractInterval` | packages/cubejs-backend-shared/src/time.ts:127-135 | Subtracting them one by one gives the date its negative leads to. |
| `CalendarBuckets.OrbitIncreases` | packages/cubejs-backend-shared/src/time.ts:144-158 | The points an interval leads to from its origin, forwards and backwards, are strictly increasing, so they cut the time line into buckets. |
| `CalendarBuckets.AlignedOnce` | packages/cubejs-backend-shared/src/time.ts:137-139 | The last point that is not after a date is unique. |
| `CalendarBuckets.ServerAlignToOrigin` | packages/cubejs-backend-shared/src/time.ts:140-161 | For an interval of any units that goes forwards, and any origin, the loop ends at the last point that is not after the date. |
| `CalendarBuckets.ClientAlignToOrigin` | packages/cubejs-client-core/src/time.ts:158-193 | The client does the same, and turns an interval that goes backwards round. |
| `CalendarBuckets.ServerTimeSeries` | packages/cubejs-backend-shared/src/time.ts:188-210 | An over-limit range is refused; otherwise the labels are those of the points from the aligned one up to, and without, end. |
| `CalendarBuckets.ClientTimeSeries` | packages/cubejs-client-core/src/time.ts:264-282 | The client lists the points from the aligned one up to and with end. |
| `CalendarBuckets.BucketsTile` | packages/cubejs-backend-shared/src/time.ts:198-207 | Buckets of any interval, months too, tile: each starts one tick after the one before it ends, and together they reach the second of end. |
| `CalendarBuckets.BucketsCover` | packages/cubejs-backend-shared/src/time.ts:194-207 | The first bucket contains start exactly when going on from the aligned point passes it, and the last one contains end exactly when end is not the next point. |
| `CalendarBuckets.AfterOriginStartIsCovered` | packages/cubejs-backend-shared/src/time.ts:150-153 | For a start from the origin on, the first bucket does contain it. |
| `CalendarBuckets.ServerAndClientAgree` | packages/cubejs-client-core/src/time.ts:276-279 | For any interval and origin both ends list the same starts, and the client adds end exactly when going on from the first start leads there. |
| `MonthGrids.FixedIsFloor` | packages/cubejs-backend-shared/src/time.ts:140-161 | With units up to a week, alignment is floor division on the linear time line. |
| `MonthGrids.MonthlyIsFloor` | packages/cubejs-backend-shared/src/time.ts:140-161 | With months only, and an origin on a day that every month has, alignment is floor division of the count of months. |
| `MonthGrids.KeepsTheDayIff` | packages/cubejs-backend-shared/src/time.ts:117-135 | The points of an interval of one unit of months stay on the day of the origin if and only if every month visited has that day. |
| `MonthGrids.LateOriginDrifts` | packages/cubejs-backend-shared/src/time.ts:150-153 | From 31 January the second month later is 28 March: the day is lost for good. |
| `MonthGrids.BucketMissesStart` | packages/cubejs-backend-shared/src/time.ts:144-148 | With the origin at the end of March, 29 March is aligned to 28 February, whose bucket ends before it. |
| `MonthGrids.By` | packages/cubejs-client-core/src/time.ts:196-208 | For any unit with increasing starts, the loop over a snapped range lists exactly the starts from the first unit to the last. |
| `MonthGrids.TimeSeries` | packages/cubejs-client-core/src/time.ts:75-83 | The predefined series of months, quarters and years is that of the units of the range. |
| `MonthGrids.MonthSeriesIs` | packages/cubejs-client-core/src/time.ts:75-83 | It lists, strictly increasing, exactly the unit starts from the unit of from to the one of to. |
| `MonthGrids.UnitOfDate` | packages/cubejs-client-core/src/time.ts:73-80 | In terms of dates: a month, quarter or year starts on the first day of its first month and ends in the last millisecond of the last day of its last one. |
| `MonthGrids.MonthParts` | packages/cubejs-backend-shared/src/time.ts:120-124 | A quarter of an interval is three months, a year is twelve. |
| `MonthGrids.PartsInOrder` | packages/cubejs-backend-shared/src/time.ts:120-124 | The parts of an interval are added from the first to the last. |
| `MonthGrids.OrderMatters` | packages/cubejs-backend-shared/src/time.ts:120-124 | In every year that is no leap year, one month and one day from 30 January is 1 March, one day and one month is 28 February. |
| `MonthGrids.WeeksOfDates` | packages/cubejs-client-core/src/time.ts:73-80 | Concrete weeks: 7 January 2024 is in the week of 1 January, 31 December 2023 in that of 25 December. |
| `JsObject.OwnKeysElements` | packages/cubejs-client-core/src/ResultSet.ts:580 | The values of an object come once for each name inserted, whatever the order. |
| `JsObject.OwnKeysInOrder` | packages/cubejs-client-core/src/ResultSet.ts:580 | Names that are array indexes come first in numeric order, the others in the order of insertion. |
| `JsObject.IndexIs` | packages/cubejs-client-core/src/ResultSet.ts:575-585 | The names that are ordered as array indexes are the decimal numerals, without leading zeros, of the numbers below 2^32 - 1. |
| `JsObject.BeforeIff` | packages/cubejs-client-core/src/ResultSet.ts:575-585 | Of two such names the smaller number comes first, and any of them before a name that is none. |
| `JsObject.OthersInInsertionOrder` | packages/cubejs-client-core/src/ResultSet.ts:575-585 | The other names keep the order in which they were set. |
| `Pivot.GroupByToPairs` | packages/cubejs-client-core/src/ResultSet.ts:35-51 | The groups are the keys in order of first appearance, each with all its entries in order. |
| `Pivot.KeysElements` | packages/cubejs-client-core/src/ResultSet.ts:35-51 | No key is repeated, a key is there if and only if some entry has it, and a group holds exactly the entries of its key. |
| `Pivot.CollectColumns` | packages/cubejs-client-core/src/ResultSet.ts:569-580 | The columns are the last y tuples of their keys, in the order of the object's own names. |
| `Pivot.ColumnsElements` | packages/cubejs-client-core/src/ResultSet.ts:569-580 | Every column is a y tuple that occurs, its key tells it from all others, and every key that occurs has a column, except the prototype's name. |
| `Pivot.GroupByY` | packages/cubejs-client-core/src/ResultSet.ts:586-593 | The cell map of a group holds, for each y string, the last row that has it, and no other string. |
| `Pivot.FillRow` | packages/cubejs-client-core/src/ResultSet.ts:595-606 | A cell is the measure of the last matching row, or the fill value for null and for no row; reading an inherited name throws. |
| `Pivot.BuildTable` | packages/cubejs-client-core/src/ResultSet.ts:569-608 | The table of any groups: one row a group, one cell a column, or the exception. |
| `Pivot.PivotData` | packages/cubejs-client-core/src/ResultSet.ts:532-621 | The pivot of a result is the table of its groups by x string, or of the time series when gap filling applies; what stands where in it, by position, say `PivotTable.EveryValueIsShown` and `PivotTable.EveryCellIsData`. |
| `PivotLossless.LosslessIff` | packages/cubejs-client-core/src/ResultSet.ts:532-621 | Every value of the data is shown at its own x and y if and only if x tuples have different strings, y tuples different keys, rows that meet in a cell agree, and no column is the prototype's name. |
| `PivotLossless.PointIsShown` | packages/cubejs-client-core/src/ResultSet.ts:582-608 | Under those conditions each value stands in the row of its x and the cell of its y. |
| `PivotLossless.NecessaryConditions` | packages/cubejs-client-core/src/ResultSet.ts:569-608 | A pivot that lost nothing satisfies each of the conditions. |
| `PivotLossless.ThrowsIff` | packages/cubejs-client-core/src/ResultSet.ts:595-603 | For any rows with fields, the pivot throws if and only if some column is named like an inherited property and some x value has no row for it. |
| `PivotLossless.ConstructorThrows` | packages/cubejs-client-core/src/ResultSet.ts:595-603 | Two rows, one with the y value `constructor`, for which the pivot throws. |
| `PivotLossless.CleanPivotIsLossless` | packages/cubejs-client-core/src/ResultSet.ts:532-621 | For distinct rows with ordinary axis values, measures on x or on y: every value is shown, each x labels one row and each y one column, and every other cell holds the fill value. |
| `PivotLossless.InRangeIsKept` | packages/cubejs-client-core/src/ResultSet.ts:559-565 | A data row whose time is in the series keeps its values, in the row of its time. |
| `PivotLossless.GapFilling` | packages/cubejs-client-core/src/ResultSet.ts:540-567 | The filled table has one row for each point of the series in order, points without data are filled in every cell, and all data in range is kept. |
| `PivotLossless.NullAndEmptyCollide` | packages/cubejs-client-core/src/ResultSet.ts:575 | Two rows whose only difference is null against the empty text: the pivot does not throw, and one value is not shown. |
| `PivotTable.TupleOfMeasure` | packages/cubejs-client-core/src/ResultSet.ts:340-354 | A tuple has the value of the row for each dimension of the axis, at its position among them, and the k-th one has the k-th measure behind them if the axis has the measures. |
| `PivotTable.OneTuple` | packages/cubejs-client-core/src/ResultSet.ts:340-354 | These positions determine a tuple. |
| `PivotTable.TuplesAre` | packages/cubejs-client-core/src/ResultSet.ts:340-354 | The tuples the engine walks over for a row are exactly those of its measures. |
| `PivotTable.EveryValueIsShown` | packages/cubejs-client-core/src/ResultSet.ts:532-621 | For clean data, every row and measure has a table row whose x values are the values of the row by position, and in it a cell whose y values are so too and which shows the value of that measure in that row. |
| `PivotTable.EveryCellIsData` | packages/cubejs-client-core/src/ResultSet.ts:532-621 | For clean data, every cell shows the value of a row and a measure whose values stand at its positions, or the fill value where there is no such row. |
| `PivotTable.KeysInOrder` | packages/cubejs-client-core/src/ResultSet.ts:35-51 | The groups come in the order of their first entries. |
| `PivotTable.LastRowIs` | packages/cubejs-client-core/src/ResultSet.ts:591-598 | A cell takes the last row of the group that has its column. |
| `PivotTable.LastTupleIs` | packages/cubejs-client-core/src/ResultSet.ts:575-585 | Of tuples with the same key the last one names the column. |
| `PivotTable.ColumnNamesInOrder` | packages/cubejs-client-core/src/ResultSet.ts:575-585 | The column keys are kept in the order of their first tuples. |
| `PivotTable.SignsMeet` | packages/cubejs-client-core/src/ResultSet.ts:357-368 | Null and the empty text have different row keys and the same column key; each shares its row key with the text of its sign. |
| `PivotTable.FillsGapsIff` | packages/cubejs-client-core/src/ResultSet.ts:540-548 | Gaps are filled exactly when they may be and x is the only granular time member of the query, alone. |
| `PivotOrder.EntriesInOrder` | packages/cubejs-client-core/src/ResultSet.ts:569-573 | The entries that are grouped are those of the data rows in order, each with the tuples of its measures in order. |
| `PivotOrder.RowTakesFirst` | packages/cubejs-client-core/src/ResultSet.ts:589-590 | A table row has the x values of the first entry of its group, also where different values share a key. |
| `PivotOrder.RowsInDataOrder` | packages/cubejs-client-core/src/ResultSet.ts:35-51 | Without measures on x, the table rows come in the order in which their x values first occur in the data, and each has the values of the data row in which they do. |
| `PivotOrder.CellTakesLast` | packages/cubejs-client-core/src/ResultSet.ts:591-608 | Of all entries with the x key and the column of a cell, it takes the last one. |
| `PivotOrder.FilledCellTakesLast` | packages/cubejs-client-core/src/ResultSet.ts:556-565 | So it does where gaps are filled, among the entries of its bucket. |
| `PivotOrder.TuplesInOrder` | packages/cubejs-client-core/src/ResultSet.ts:575-584 | The y tuples of a group are those of its entries in order, each with the tuples of its measures in order. |
| `PivotOrder.GroupsInOrder` | packages/cubejs-client-core/src/ResultSet.ts:575-584 | The columns are collected from one group after the other. |
| `GapFill.OneRowABucket` | packages/cubejs-client-core/src/ResultSet.ts:440-489 | The table filled over a range and a predefined granularity, months and years too, has one row for each bucket of the range, in order of time, and no other. |
| `GapFill.ShownIffInRange` | packages/cubejs-client-core/src/ResultSet.ts:540-567 | A data row is shown, with its values in the row of its bucket, if and only if its bucket is one of the range. |
| `GapFill.ShownIffInDays` | packages/cubejs-client-core/src/ResultSet.ts:469-480 | Over a range given in days, a data row is shown if and only if its bucket starts within these days. |
| `GapFill.NothingDropped` | packages/cubejs-client-core/src/ResultSet.ts:448-480 | Without a date range, when the series runs from the least to the greatest time of the data, every value of every row is shown. |
| `PivotMerge.EachPivotCanBeReadBack` | packages/cubejs-client-core/src/ResultSet.ts:623-638 | The merged table has the length of the shortest pivot, and the cells of every pivot's row can be cut out of the merged row again. |
| `PivotMerge.NothingMovesIff` | packages/cubejs-client-core/src/ResultSet.ts:623-638 | Merging drops no row and puts none under other x values if and only if all pivots list the same x values. |
| `PivotMerge.NothingDroppedIff` | packages/cubejs-client-core/src/ResultSet.ts:623-638 | With or without joined date ranges, no row is dropped if and only if all pivots have the same number of rows. |
| `PivotMerge.FirstShortestNamesRows` | packages/cubejs-client-core/src/ResultSet.ts:624-633 | Without joined date ranges, the merged table is as long as the first of the shortest pivots and has its x values. |
| `PivotMerge.JoinedName` | packages/cubejs-client-core/src/ResultSet.ts:628-631 | With joined date ranges, a row of two results is named by the x values of both, with a comma and a space between. |
| `PivotConfig.GetNormalizedPivotConfig` | packages/cubejs-client-core/src/ResultSet.ts:370-434 | The axes, reassigned step by step, end as the specification says, and hold exactly the dimensions, the granular members and the measures due; which axis each gets, and in which order, say `WithoutConfiguration` and `GivenAxesStay`. |
| `PivotConfig.EveryDimensionHasAnAxis` | packages/cubejs-client-core/src/ResultSet.ts:409-431 | Whatever the caller passes, the axes hold exactly the dimensions and granular time dimensions, and the measures exactly when the query has some. |
| `PivotConfig.NormalizationIsIdempotent` | packages/cubejs-client-core/src/ResultSet.ts:781-785 | Normalizing a normalized configuration changes nothing. |
| `PivotConfig.SchemaKeepsNamesApart` | packages/cubejs-client-core/src/ResultSet.ts:395-404 | Queries whose time dimensions have equally many dots meet the condition of idempotence. |
| `PivotConfig.GatewayQueriesAreOrdinary` | packages/cubejs-api-gateway/src/query.js:16-39 | Regular and compare queries, whose names are `Cube.member`, and blending queries, whose time dimension is `time`, are of that kind. |
| `PivotConfig.BareNameKeepsItsAxisIff` | packages/cubejs-client-core/src/ResultSet.ts:395-404 | The bare name of a time dimension, given for y, keeps that axis if and only if the first time dimension of that name has a granularity. |
| `PivotConfig.UnnamedMemberIsOnX` | packages/cubejs-client-core/src/ResultSet.ts:409-418 | A granular member that no name on y stands for is on x and not on y. |
| `PivotConfig.MovesTheAxis` | packages/cubejs-client-core/src/ResultSet.ts:395-418 | For any dimension listed first without and then with a granularity, its bare name given for y ends as the member on x, and y is empty. |
| `PivotConfig.UngranularFirstMovesTheAxis` | packages/cubejs-client-core/src/ResultSet.ts:395-404 | The concrete query of that kind, with its axes. |
| `PivotConfig.WithoutConfiguration` | packages/cubejs-client-core/src/ResultSet.ts:385-391 | Without a pivot configuration: with granular time dimensions, x is dimension, dot and granularity of each in order and y the dimensions; without, x is the dimensions and y empty; the measures, if any, come last on y, and gaps are filled. |
| `PivotConfig.GivenAxesStay` | packages/cubejs-client-core/src/ResultSet.ts:393-431 | Names of the query that a caller gives stay on their axis in their order; the missing ones are appended to x in the order of the query, and y gets only a missing comparison before them and the measures after them. |
| `PivotConfig.MeasuresStay` | packages/cubejs-client-core/src/ResultSet.ts:420-422 | Measures that the caller put on x or y stay where they were put, among the other names. |
| `PivotConfig.EmptyAxesListAll` | packages/cubejs-client-core/src/ResultSet.ts:410-418 | With both axes empty, x lists dimension, dot and granularity of each granular time dimension in order and then the dimensions. |
| `PivotConfig.StrangersChangeNothing` | packages/cubejs-client-core/src/ResultSet.ts:412-418 | Names that are none of the query's change nothing: the axes are those of the configuration without them. |
| `PivotConfig.SpecialsAtTheEnds` | packages/cubejs-client-core/src/ResultSet.ts:420-431 | Missing measures go to the end of y, a missing comparison to its start; without measures in the query, neither axis names them. |
| `GraphqlWhere.CubeWhereToFilters` | packages/cubejs-api-gateway/src/graphql.ts:278-325 | The recursive translation of a cube's fields ends, through the re-wrapping into an AND list, with the filters of the specification. |
| `GraphqlWhere.ElementsToFilters` | packages/cubejs-api-gateway/src/graphql.ts:279-287 | The elements of a boolean list are flattened in order. |
| `GraphqlWhere.WhereToFilters` | packages/cubejs-api-gateway/src/graphql.ts:267-344 | The translation of a root argument, with cube names kept or capitalized. |
| `GraphqlWhere.RootElementsToFilters` | packages/cubejs-api-gateway/src/graphql.ts:279-287 | The same flattening at the root. |
| `GraphqlWhere.OperationKeepsMeaning` | packages/cubejs-api-gateway/src/graphql.ts:142-167 | The translated operation accepts exactly the values the argument's operation asks for. |
| `GraphqlWhere.WrappingKeepsMeaning` | packages/cubejs-api-gateway/src/graphql.ts:288-313 | Wrapping several fields into one AND list changes neither their meaning nor whether the condition holds. |
| `GraphqlWhere.WhereKeepsMeaning` | packages/cubejs-api-gateway/src/graphql.ts:267-344 | If every OR element yields exactly one filter, the filters accept exactly the rows the argument asks for. |
| `GraphqlWhere.WhereLosesNoRow` | packages/cubejs-api-gateway/src/graphql.ts:279-287 | If no OR element is empty, the filters reject no row the argument asks for. |
| `GraphqlWhere.OneFilterPerElementIsExact` | packages/cubejs-api-gateway/src/graphql.ts:279-287 | For OR lists of comparisons of different members the condition is exact: same meaning on every row if and only if each element yields exactly one filter. |
| `GraphqlWhere.MembersOfFilters` | packages/cubejs-api-gateway/src/graphql.ts:327-339 | A comparison gives one filter for each operator, in order, of the member named by the cube, a dot and the member; the cube is the one of the metadata or else the name with a capital. |
| `GraphqlWhere.ValuesAre` | packages/cubejs-api-gateway/src/graphql.ts:155-175 | The values of a filter: none for `set`; the bare text for one date range that does not start with a date, and none if it is empty; else the list of texts. |
| `GraphqlWhere.TextsAre` | packages/cubejs-api-gateway/src/graphql.ts:155-156 | Values are shown as texts one by one, a single one as a list of one. |
| `GraphqlWhere.WrappedIsOneFilter` | packages/cubejs-api-gateway/src/graphql.ts:290-306 | Several fields around a boolean become one AND filter. |
| `SingleFlight.CallersGetTheirOutcome` | packages/cubejs-backend-shared/src/promises.ts:284-301 | In every run, evictions included, a caller is told the outcome of an execution for its own key. |
| `SingleFlight.RunKeepsTracked` | packages/cubejs-backend-shared/src/promises.ts:289-300 | Without evictions every run keeps: running executions, cache entries and owners that have not come back correspond one to one. |
| `SingleFlight.SingleFlightHolds` | packages/cubejs-backend-shared/src/promises.ts:289-300 | Without evictions at most one execution of a key runs, and the key has an entry exactly while the call that started one has not come back. |
| `SingleFlight.CallsJoin` | packages/cubejs-backend-shared/src/promises.ts:289-297 | A call for a running key starts nothing and gets the running execution; a call for a key without an entry starts exactly one. |
| `SingleFlight.EvictionBreaksIt` | packages/cubejs-backend-shared/src/promises.ts:279-282 | Once the entry of a running execution is evicted, the next call starts a second one. |
| `SingleFlight.StepKeepsSingleFlightIff` | packages/cubejs-backend-shared/src/promises.ts:289-300 | With evictions too, a step keeps at most one running execution a key if and only if it is no call for a running key whose entry is gone. |
| `SingleFlight.Debounced.Begin` | packages/cubejs-backend-shared/src/promises.ts:284-296 | The call step: joined or started, in one piece. |
| `SingleFlight.Debounced.Finish` | packages/cubejs-backend-shared/src/promises.ts:295-297 | The function settles: its execution has an outcome, the cache is not touched yet. |
| `SingleFlight.Debounced.Drop` | packages/cubejs-backend-shared/src/promises.ts:279-282 | The eviction step: the entry is gone, the execution goes on. |
| `SingleFlight.Debounced.Return` | packages/cubejs-backend-shared/src/promises.ts:297-300 | The return step: the outcome is that of the call's execution, and only the owner deletes the entry. |
| `SingleFlight.ToldIsSettled` | packages/cubejs-backend-shared/src/promises.ts:284-300 | In every run, evictions or not, what a call is told is what the function came back with for an execution of the key the call was made with. |
| `SingleFlight.EveryCallIsTold` | packages/cubejs-backend-shared/src/promises.ts:295-300 | When nothing runs and the await of a call is through, the call was told something. |
| `SingleFlight.ResumeTells` | packages/cubejs-backend-shared/src/promises.ts:295-300 | A call that continues is told, no other call changes, and the entry of its key goes exactly if it started the execution. |
| `BackgroundMemo.RunKeepsInv` | packages/cubejs-backend-shared/src/promises.ts:377-445 | Every run keeps: no key is lost, every bucket belongs to its key and holds an item some good run for that key gave. |
| `BackgroundMemo.FirstSuccessIsForever` | packages/cubejs-backend-shared/src/promises.ts:411-440 | After a key's first success, by a plain or a forced call, whatever follows, every plain call for it returns at once, runs nothing, and gives an item of a good run for that key. |
| `BackgroundMemo.FailedRefreshChangesNothing` | packages/cubejs-backend-shared/src/promises.ts:385-394 | A failed refresh leaves what callers are served and is reported once. |
| `BackgroundMemo.ForcedItemSurvivesOldRefresh` | packages/cubejs-backend-shared/src/promises.ts:429-440 | A refresh of a bucket that a forced call replaced meanwhile does not undo the forced item. |
| `BackgroundMemo.Memo.BeginCall` | packages/cubejs-backend-shared/src/promises.ts:411-419 | The plain call up to its await: a cached key is answered without starting anything. |
| `BackgroundMemo.Memo.BeginForce` | packages/cubejs-backend-shared/src/promises.ts:429-432 | The forced call up to its await: it runs the function whatever is cached. |
| `BackgroundMemo.Memo.BeginRefresh` | packages/cubejs-backend-shared/src/promises.ts:396-407 | The timer refreshes a bucket past its lifetime, by identity. |
| `BackgroundMemo.Memo.Finish` | packages/cubejs-backend-shared/src/promises.ts:385-394 | The function comes back: a refresh changes its bucket in place, a call or forced call sets a new bucket, an error changes no bucket; what is served then is the new value (`RefreshedItemIsServed`, `ServedIsLatest`). |
| `BackgroundMemo.RefreshedItemIsServed` | packages/cubejs-backend-shared/src/promises.ts:385-394 | After a good refresh of the bucket that a key is mapped to, the key serves the new value. |
| `BackgroundMemo.ServedIsLatest` | packages/cubejs-backend-shared/src/promises.ts:385-440 | In every run, what a key serves is the value of the last good run that set or refreshed its bucket. |
| `BackgroundMemo.WhenAsked` | packages/cubejs-backend-shared/src/promises.ts:396-432 | The function is asked by a plain call of a key that is not cached, by every forced call, and by the timer for a bucket past its lifetime; in each case once. |
| `CancelableInterval.RunKeepsInv` | packages/cubejs-backend-shared/src/promises.ts:128-181 | Every run keeps: the variable `execution` is empty exactly when nothing is in flight or settling, and a cancel names the last run there will be. |
| `CancelableInterval.Exclusive` | packages/cubejs-backend-shared/src/promises.ts:137-170 | Across all ticks at most one run of the function is in flight. |
| `CancelableInterval.QuietAfterCancel` | packages/cubejs-backend-shared/src/promises.ts:172-180 | Once a waiting cancel has resolved no run is in flight and none ever starts; a cancel that does not wait still promises the second. |
| `CancelableInterval.WhoResolves` | packages/cubejs-backend-shared/src/promises.ts:100-110 | When its run is over, a cancel can resolve if and only if it was the first for that run and, if it waits, the run ended well. |
| `CancelableInterval.SecondCancelIsRejected` | packages/cubejs-backend-shared/src/promises.ts:59-64 | The second cancel of one run is rejected. |
| `CancelableInterval.Interval.OnTick` | packages/cubejs-backend-shared/src/promises.ts:138-158 | The tick step: a run starts, or nothing starts and the overlap is reported if there is a callback for it. |
| `CancelableInterval.Interval.OnSettled` | packages/cubejs-backend-shared/src/promises.ts:156-158 | The function settles: its outcome is known, and the slot is still taken until the tick resumes. |
| `CancelableInterval.Interval.Resolve` | packages/cubejs-backend-shared/src/promises.ts:109 | The cancel resolves once all its locks are through. |
| `CancelableInterval.Interval.Finally` | packages/cubejs-backend-shared/src/promises.ts:159-167 | The end of a tick: the slot is free, and a reported overlap is reported as resolved. |
| `CancelableInterval.Interval.BeginCancel` | packages/cubejs-backend-shared/src/promises.ts:173-178 | The cancel up to its await: no further tick, and the token of the run in flight is used up. |
| `CancelableInterval.Interval.DeferredAreDone` | packages/cubejs-backend-shared/src/promises.ts:66-74 | The deferred callbacks of a cancelled token are through. |
| `CancelableInterval.TicksStartOrReport` | packages/cubejs-backend-shared/src/promises.ts:138-148 | In every run each tick starts a run of the function or, with a callback for it, is reported: reports are the ticks less the runs. |
| `CancelableInterval.OverlapsAreReported` | packages/cubejs-backend-shared/src/promises.ts:138-167 | A run that n further ticks found at work is reported n times, and once as resolved if n is positive, for the callbacks given. |
| `CancelableInterval.IdsAreSafe` | packages/cubejs-backend-shared/src/promises.ts:149-153 | In every run the number of the interval stays below the largest safe integer, and is the count of runs until then. |
| `CancelableInterval.FirstCancelIsAccepted` | packages/cubejs-backend-shared/src/promises.ts:172-180 | In every run the first cancel is accepted: it waits for the run in flight, or can resolve at once if there is none. |
| `CachedHandler.LockDiscipline` | packages/cubejs-api-gateway/src/cached-handler.ts:27-85 | In every run at most one handler is in flight, exactly while the lock is held, and the queue is empty whenever it is free. |
| `CachedHandler.AnsweredOnceIffProper` | packages/cubejs-api-gateway/src/cached-handler.ts:39-84 | A step keeps "each request is answered once or still waits" if and only if the handler answers once, before it returns, and does not throw afterwards. |
| `CachedHandler.EveryRequestIsAnswered` | packages/cubejs-api-gateway/src/cached-handler.ts:27-86 | With such handlers, whenever no handler is in flight every request ever made has exactly one answer. |
| `CachedHandler.FastPathIsFresh` | packages/cubejs-api-gateway/src/cached-handler.ts:31-35 | A request served without running the handler is served less than `lifetime` after the last successful run completed, and gets the answer that was sent in that run if and only if the run replays. |
| `CachedHandler.PayloadIsCachedIff` | packages/cubejs-api-gateway/src/cached-handler.ts:42-65 | In every run of the machine, a completing handler leaves the answer it sent in the cache if and only if the status and payload it set last are those of the answer, and the cache still has 200, or no payload, where it set nothing. |
| `CachedHandler.CompleteRunsReplay` | packages/cubejs-api-gateway/src/cached-handler.ts:42-55 | Handlers that always set a status before they answer, and nothing after, are always replayed. |
| `CachedHandler.StatusOutlivesItsRun` | packages/cubejs-api-gateway/src/cached-handler.ts:42-48 | A run in which a handler that leaves the status alone is replayed from the cache with the status of an earlier run. |
| `CachedHandler.LateStatusIsCached` | packages/cubejs-api-gateway/src/cached-handler.ts:42-48 | A run in which the status is set after the answer: the client got 200, and every later request is served 500. |
| `CachedHandler.WaitersDoNotSeeTheError` | packages/cubejs-api-gateway/src/cached-handler.ts:66-84 | Of the requests a failed run answers, only its own learns of the error; all that waited are told 200 and null. |
| `CachedHandler.Handler.Handle` | packages/cubejs-api-gateway/src/cached-handler.ts:27-62 | The arrival step: queued, served from a fresh cache, or the one to run the handler. |
| `CachedHandler.Handler.Status` | packages/cubejs-api-gateway/src/cached-handler.ts:42-48 | Setting a status changes the response and the shared cache. |
| `CachedHandler.Handler.Json` | packages/cubejs-api-gateway/src/cached-handler.ts:49-55 | Answering sends the payload and changes the shared cache. |
| `CachedHandler.Handler.Drain` | packages/cubejs-api-gateway/src/cached-handler.ts:79-84 | The loop answers every waiting request once, from the end of the queue, with the same cached payload. |
| `CachedHandler.Handler.Complete` | packages/cubejs-api-gateway/src/cached-handler.ts:58-84 | The success step: freshness starts at completion, the lock is freed, and everyone who waited is answered from the cache (`WaitersGetTheCache`, `WaitersGetTheAnswerIff`). |
| `CachedHandler.Handler.Reject` | packages/cubejs-api-gateway/src/cached-handler.ts:66-84 | The failure step: the cache is emptied and stale, the lock is freed, and everyone is answered. |
| `CachedHandler.WhenTheHandlerRuns` | packages/cubejs-api-gateway/src/cached-handler.ts:27-37 | In every run: a request waits while a handler is in flight; otherwise it is answered from the cache at once if and only if the last handler ended well less than the lifetime ago, else it runs the handler. |
| `CachedHandler.WaitersGetTheCache` | packages/cubejs-api-gateway/src/cached-handler.ts:79-84 | When a run succeeds, each request that waited is answered from the cache, and nobody else is. |
| `CachedHandler.WaitersGetTheAnswerIff` | packages/cubejs-api-gateway/src/cached-handler.ts:58-84 | In every run of the machine, the requests that waited get exactly the answer sent to the client of the handler that ran if and only if that run replays, for a non-empty queue. |
| `CachedHandler.DrainedAt` | packages/cubejs-api-gateway/src/cached-handler.ts:79-84 | The request that came last is answered first. |
| `CachedHandler.OwnAnswer` | packages/cubejs-api-gateway/src/cached-handler.ts:42-55 | A handler answers its own client with the payload it gives and the status set by then. |
| `LoadMutex.RunKeepsInv` | packages/cubejs-client-core/src/index.ts:294-306 | Every run keeps: mutex values come from one growing counter, so a replaced value never returns. |
| `LoadMutex.SupersededStaysSilent` | packages/cubejs-client-core/src/index.ts:315-328 | A load overtaken before it reads the mutex never delivers again, whatever happens; one overtaken after that speaks at most once more. |
| `LoadMutex.SpeaksOnceMoreIff` | packages/cubejs-client-core/src/index.ts:315-328 | An overtaken load can speak again, in some continuation, if and only if it had read the mutex with a result or an error to tell and had not told it yet. |
| `LoadMutex.LateDelivery` | packages/cubejs-client-core/src/index.ts:405-413 | A run in which the mutex is read, a newer load begins, and the old result is still delivered. |
| `LoadMutex.NetworkRetriesAreBounded` | packages/cubejs-client-core/src/index.ts:364-370 | A load retries after network errors at most as often as configured, in every run. |
| `LoadMutex.PromisesSettleOnce` | packages/cubejs-client-core/src/index.ts:394-416 | In every run a load without a callback is answered at most once, and only when it is done. |
| `LoadMutex.Client.LoadMethod` | packages/cubejs-client-core/src/index.ts:294-310 | The begin step: a new mutex value takes the key over. |
| `LoadMutex.Client.OnResponse` | packages/cubejs-client-core/src/index.ts:332-404 | The response step: retry, poll on, report or deliver; only a network error uses up a retry. |
| `LoadMutex.Client.CheckMutex` | packages/cubejs-client-core/src/index.ts:315-328 | The check step: a load whose key was taken over ends, any other goes on. |
| `LoadMutex.Client.Stop` | packages/cubejs-client-core/src/index.ts:422-433 | The caller unsubscribes: the load polls no further, what it is about to say it still says. |
| `LoadMutex.Client.AfterCheck` | packages/cubejs-client-core/src/index.ts:394-416 | The last step: a retry or a poll unless unsubscribed, or one word to the caller, after which only a subscription with a callback polls on. |
| `LoadMutex.OvertakenIff` | packages/cubejs-client-core/src/index.ts:299-321 | In every run, a load is overtaken if and only if it has a mutex object and another load with the same mutex key began after it. |
| `LoadMutex.RoundTells` | packages/cubejs-client-core/src/index.ts:332-416 | A load that is not overtaken tells its caller each result and each error, and a network error when no retry is left; after anything else it asks again, unless it was unsubscribed, and only a network error uses up a retry. |
| `LoadMutex.OvertakenEnds` | packages/cubejs-client-core/src/index.ts:315-328 | A load that was overtaken before it reads the mutex ends there and tells nothing. |
| `NodeObj.Serialize` | packages/cubejs-backend-native/src/node_obj_serializer.rs:67-138 | Every tree gives the specified JavaScript value, or fails if some part of it is not supported. |
| `NodeObj.SerializeSeq` | packages/cubejs-backend-native/src/node_obj_serializer.rs:372-391 | Filling an array index by index gives the elements in order, and one failure fails the whole. |
| `NodeObj.SerializeMap` | packages/cubejs-backend-native/src/node_obj_serializer.rs:261-285 | Setting the properties in any order gives the same object, without the prototype's name. |
| `NodeObj.Deserialize` | packages/cubejs-backend-native/src/node_obj_deserializer.rs:47-141 | Reading arrays by index and objects by key gives the specified value. |
| `NodeObj.NumberRoundTrip` | packages/cubejs-backend-native/src/node_obj_deserializer.rs:58-107 | An integer of any width comes back if and only if a double can hold it or it is the largest of u64; every one is read back as something. |
| `NodeObj.RoundTripIff` | packages/cubejs-backend-native/src/node_obj_deserializer.rs:47-141 | A tree comes back equal if and only if its leaves do and no key is the prototype's name. |
| `NodeObj.OrdinaryRoundTrip` | packages/cubejs-backend-native/src/node_obj_serializer.rs:67-138 | Every tree of null, booleans, texts, integers of magnitude at most 2^53, fractions, lists and string-keyed maps comes back equal. |
| `NodeObj.FirstLosses` | packages/cubejs-backend-native/src/node_obj_deserializer.rs:65-68 | 2^53 + 1 does not come back, and a whole float comes back as an integer. |
| `NodeObj.CascadeIsNarrowest` | packages/cubejs-backend-native/src/node_obj_deserializer.rs:70-103 | A whole number is visited with the narrowest width of its kind that holds it, unsigned exactly when it is not negative. |
| `NodeObj.JsOf` | packages/cubejs-backend-native/src/node_obj_serializer.rs:67-138 | Lists become arrays index by index, maps objects key by key without the prototype name, leaves keep their values, and the whole fails exactly if a part does. |
| `NodeObj.RustOf` | packages/cubejs-backend-native/src/node_obj_deserializer.rs:47-141 | Arrays are read index by index and objects key by key; null, undefined and functions are read as nothing. |
| `NodeObj.WholeNumbersRead` | packages/cubejs-backend-native/src/node_obj_deserializer.rs:70-108 | A whole number of 64 bits is read as itself, 2^64 as the largest of u64, anything beyond is an error. |
| `NodeObj.NearestMultiple` | packages/cubejs-backend-native/src/node_obj_serializer.rs:67-138 | Rounding to a double takes the nearest multiple of the spacing, the even one of two. |
| `NodeObj.SpacingIs` | packages/cubejs-backend-native/src/node_obj_serializer.rs:67-138 | The spacing is the least power of two of which 2^53 reach the magnitude. |
| `ColumnCondition.GroupBySchema` | packages/cubejs-base-driver/src/BaseDriver.ts:482-488 | The groups hold exactly the given tables, no list is empty, and it throws if and only if a schema has an inherited name. |
| `ColumnCondition.HoldsSnoc` | packages/cubejs-base-driver/src/BaseDriver.ts:493-503 | A further clause and its parameters change no clause before them, for numbered and positional placeholders. |
| `ColumnCondition.NewClauseHolds` | packages/cubejs-base-driver/src/BaseDriver.ts:494-500 | The clause of a schema accepts exactly that schema's requested tables. |
| `ColumnCondition.ColumnsCondition` | packages/cubejs-base-driver/src/BaseDriver.ts:481-505 | Evaluated with its parameters, the condition accepts a row if and only if its schema and table were requested; every parameter has one placeholder, and no IN list is empty. |
| `Semver.IsVersionGte` | packages/cubejs-backend-shared/src/semver.ts:20-51 | An absent or empty version is never enough; otherwise the answer is the order of the parsed versions. |
| `Semver.CompareParts` | packages/cubejs-backend-shared/src/semver.ts:28-50 | The indexed loop with early returns decides the order of two lists of parts. |
| `Semver.GteIff` | packages/cubejs-backend-shared/src/semver.ts:28-50 | What the order means: with zeros after the end all parts are the same, or the first that are not decide. |
| `Semver.TotalPreorder` | packages/cubejs-backend-shared/src/semver.ts:20-51 | Any two versions are comparable, and the order is transitive. |
| `Semver.TrailingZeroIsNeutral` | packages/cubejs-backend-shared/src/semver.ts:29-30 | A version and the version with `.0` behind it are at least one another. |
| `Semver.PreReleaseIsLess` | packages/cubejs-backend-shared/src/semver.ts:40-47 | A pre-release of a clean version is not enough where that version is asked for. |
| `Semver.VersionOfNumbers` | packages/cubejs-backend-shared/src/semver.ts:6-18 | A version of three numbers in decimal digits is parsed into these numbers. |
| `Semver.NumbersDecide` | packages/cubejs-backend-shared/src/semver.ts:28-50 | Versions of three numbers are ordered as numbers, the first that differs deciding. |
| `NormalizeQuery.FiltersAreFixed` | packages/cubejs-api-gateway/src/query.js:244-279 | Filters accepted once are accepted again and come out the same, nested ones included, and they stay valid. |
| `NormalizeQuery.RegularAre` | packages/cubejs-api-gateway/src/query.js:380 | Exactly the dimensions without a granularity stay dimensions. |
| `NormalizeQuery.MovedAre` | packages/cubejs-api-gateway/src/query.js:346-349 | Exactly the dimensions with a granularity become time dimensions. |
| `NormalizeQuery.MovedIsValid` | packages/cubejs-api-gateway/src/query.js:346-349 | A dimension that became a time dimension passes the schema if and only if its granularity has at most 128 characters. |
| `NormalizeQuery.TimeIsFixed` | packages/cubejs-api-gateway/src/query.js:381-399 | A normalized time dimension stays as it is, and stays valid, whatever form its date range had. |
| `NormalizeQuery.SecondPass` | packages/cubejs-api-gateway/src/query.js:330-401 | The second pass rejects an accepted query exactly when a granularity is too long or no usable limit could be filled in; otherwise all stays except a cache mode that was not an argument. |
| `NormalizeQuery.IdempotentIff` | packages/cubejs-api-gateway/src/gateway.ts:1313 | Normalizing twice is normalizing once if and only if the second pass accepts the query and the cache mode is an argument or already the default. |
| `NormalizeQuery.RenewQueryIsForgotten` | packages/cubejs-api-gateway/src/query.js:304-319 | A query that asks for fresh data by the deprecated property asks for stale data after the second pass. |
| `NormalizeQuery.RangeOfDays` | packages/cubejs-api-gateway/src/query.js:386-396 | A range of two days goes from 00:00:00.000 of the first to 23:59:59.999 of the second; one day stands for both ends. |
| `NormalizeQuery.RangeOfInstants` | packages/cubejs-api-gateway/src/query.js:386-396 | Dates with a time are formatted; a day that does not exist becomes the text of an invalid date. |
| `NormalizeQuery.RangeInWords` | packages/cubejs-api-gateway/src/query.js:383-384 | A range in words is what the parser makes of it in the time zone of the query. |
| `NormalizeQuery.CompareIs` | packages/cubejs-api-gateway/src/query.js:381 | Of the ranges to compare, words are parsed and dates stay, each at its place; one text that is not understood rejects the query. |
| `NormalizeQuery.TimesAre` | packages/cubejs-api-gateway/src/query.js:378-399 | Time dimensions are normalized one by one, each at its place. |
| `NormalizeQuery.TimeIs` | packages/cubejs-api-gateway/src/query.js:378-399 | Name and granularity stay; the range and the ranges to compare are present exactly if they were, and are the normalized and the parsed ones. |
| `NormalizeQuery.RejectedIff` | packages/cubejs-api-gateway/src/query.js:330-363 | A query is rejected if and only if it fails the schema, asks for nothing, has a limit over the maximum and is not persistent, or one of its filters or time dimensions is rejected. |
| `NormalizeQuery.MovedParts` | packages/cubejs-api-gateway/src/query.js:346-349 | A dimension of three words becomes the time dimension of the first two with the third as granularity. |
| `NormalizeQuery.RegularAppend` | packages/cubejs-api-gateway/src/query.js:377 | Dimensions that stay keep their order. |
| `NormalizeQuery.MovedAppend` | packages/cubejs-api-gateway/src/query.js:346-349 | Dimensions that move keep their order. |
| `NormalizeQuery.LeafIs` | packages/cubejs-api-gateway/src/query.js:244-279 | A filter of a member is accepted if and only if its operator is known and it has values or needs none; its deprecated `dimension` becomes its member, its values become texts. |
| `NormalizeQuery.ListIs` | packages/cubejs-api-gateway/src/query.js:244-279 | A list of filters is accepted if and only if each is, and each stays at its place. |
| `NormalizeQuery.BooleanIs` | packages/cubejs-api-gateway/src/query.js:244-279 | A boolean filter keeps its connective around its normalized list. |
| `NormalizeQuery.QueryIs` | packages/cubejs-api-gateway/src/query.js:346-400 | The rest of an accepted query: the limit given, or the smaller configured one, never over the maximum unless persistent; given or default time zone; time dimensions followed by the moved ones. |
| `NormalizeQuery.LimitRejects` | packages/cubejs-api-gateway/src/query.js:357-363 | A limit over the maximum rejects a query that is not persistent. |
| `NormalizeQuery.CacheModeIs` | packages/cubejs-api-gateway/src/query.js:301-320 | The cache mode: the argument, else the current property, else what the deprecated one says, else stale-if-slow. |

## Left out

- Buckets.AddInterval: units up to a week; intervals with months are in `CalendarBuckets`. Daylight saving and time zones are not modelled.
- Buckets.SnapToCustom: granularities of units up to a week.
- Calendar.AddMonths: that the date library takes the last day of a month that lacks the day is assumed of it.
- Buckets.ServerTimeSeries: the interval text is parsed before; the quotient of range and interval is compared exactly, not as a double.
- SqlWriter.ExecSql: the plan, the batches, the outcomes of the writes and of the log calls are parameters; a message that cannot be serialized is not modelled.
- JsonLines.CubeSqlStream: text, not bytes; decoding UTF-8 across chunks is assumed of the platform's decoder.
- Json.RoundTrip: numbers are kept as their text; escapes of surrogate pairs, which the printer never writes, are not parsed.
- SqlRequest.RequestSeesRun: responses with status 200.
- Backpressure.WakeUpIffAlive: the stream is Node's `Writable` by its contract, which owes one drain after a write that said no; how often the event loop runs is left open.
- BridgeRuns.SourceEndIsDelivered: the conversion of rows to record batches and its failure are not modelled, nor a query function that rejects after the stream started.
- Pivot.PivotData: values other than null are represented by their string; measures named like inherited properties, and a y value `__proto__` together with one called `row` or `yValues`, are outside the model.
- PivotMerge.NothingMovesIff: about merging without joined date ranges, which put a label in place of the x values.
- PivotConfig.NormalizationIsIdempotent: the names of the query are assumed apart, which `GatewayQueriesAreOrdinary` shows of every query the gateway makes; whether it holds for other names is not decided.
- GraphqlWhere.WhereToFilters: a single object in place of a list, which throws, and member expressions are not modelled; operators that the translation does not touch are one uninterpreted function of the value.
- SingleFlight.SingleFlightHolds: keys stand for digests, taken as injective; which entry the LRU cache evicts and when is an arbitrary step.
- CachedHandler.Handler.Json: writes of a handler to its response after it settled are not modelled.
- LoadMutex.SupersededStaysSilent: a transport without `unsubscribe`; authorization and the wait between polls are not modelled.
- NodeObj.Serialize: the order of the keys of a JavaScript object is not modelled, since a map is read back from it.
- NormalizeQuery.SecondPass: the date library is a parameter with the laws of formatting a formatted date; member expressions, segments, offset and the properties that are only copied are left out.
- CalendarBuckets.ServerTimeSeries: the limit compares an average length that the date library gives an interval, which is a parameter; intervals with parts of both signs, on which the loops may end or not, are outside the model.
- Semver.IsVersionGte: digits have no upper bound, where the original reads a double.
- Loops that wait are modelled as steps of a state machine, not as loops.
- `drillDown`, titles, series names, `tableColumns` and the other presentation of a result set add only easy members.
- `asyncMemoize`, retries with timeout and the other small promise helpers add only easy members.
- The SQL engine, the query orchestrator, drivers, HTTP transport, authentication, configuration and templates are external services or wiring.
