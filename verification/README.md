# elb-logs-to-cloudwatch in Dafny

This project models the sequential core of `elb-logs-to-cloudwatch`. The
service reads gzipped Application Load Balancer access logs from S3,
converts every log line into a JSON log event, and ships the events to a
CloudWatch Logs group and stream in `PutLogEvents` batches. The model covers
five parts of the service:

- **Field selection** (`fields.dfy`, module `Fields`). There is a fixed
  schema of 30 ALB column names. `NewFields` resolves a comma-separated
  allow-list into a set of selected names. The two index queries are
  `GetFieldNameByIndex` and `IncludeField`.
- **Record projection and reading** (`records.dfy`, module `Records`).
  `recordToLogEntry` checks the width of a tokenized record, parses the
  timestamp in column 1 and keeps the selected columns. `processRecords`
  converts records in order and stops at the first failure.
- **Batching** (`pipeline.dfy`, module `Pipeline`). This is the consumer
  loop of `ProcessLogs`. It packs events greedily into batches under a
  1,048,576-byte size limit and a 10,000-event count limit. It flushes each
  batch to CloudWatch and counts the events sent.
  - `Batcher` is a class with the loop's variables: `events`,
    `currentBatchSize` and the counter.
  - Its methods are proved against the pure packer `Batches`.
  - The properties of `Batches` are proved as lemmas: it partitions the
    input, every batch holds at most 10,000 events and at most 1,048,576
    bytes unless it holds a single event, 12,000 small events split as
    10,000 + 2,000, and an oversized event travels alone.
- **CloudWatch calls** (`cloudwatch.dfy`, module `CloudWatch`). It covers
  the event-size estimate, the in-place sort by timestamp and the
  `PutLogEvents` request, and the find-or-create steps for the log group
  and the log stream. These run against `LogsClient`, an abstract client
  that records every request and answers with configurable errors.
- **Helpers**: `ParseS3URL` (`s3url.dfy`, module `S3Url`) and
  `SafeCounter` (`counter.dfy`, module `Counter`).

Errors are values of one datatype (`errors.dfy`, module `Errors`). `Message`
renders each of them as the text the Go code formats. `Wrappers` holds the
`Option` and `Result` types.

Two behaviours of the code are worth stating outright:

- Only the exact empty string selects every column (fields.go:60). A
  configuration of spaces, or one with a trailing comma, takes the split
  path and fails on the token `''`. See `Fields.BlankConfigurationFails`
  and `Fields.TrailingCommaFails`.
- The progress counter counts every event handed to a send, failed sends
  included (processor.go:125-131). `Pipeline.Batcher.Flush` and
  `Pipeline.Batcher.Finish` state this.

## Model

| member | source | states |
|---|---|---|
| Errors.DecimalRoundTrip | fields.go:81-83 | the decimal text used for `%d` reads back as the same number, so the index in an index error is rendered faithfully |
| Errors.Message | fields.go:72 | every error renders to the text of its `fmt.Errorf` format (fields.go:72 and 82, processor.go:77, 168, 183 and 187, utils.go:17 and 22): the fixed head of the format, then the values it carries; the text always starts with that head |
| Errors.MessageAnnouncesKind | processor.go:183 | the characters at which the eight format heads first differ tell which kind of error a text reports |
| Errors.FormatIntInjective | fields.go:82 | `%d` prints distinct integers, negative ones included, as distinct texts |
| Errors.LogFormatMessageInjective | processor.go:183 | both counts of a log-format error can be read back from its text |
| Errors.MessageInjective | processor.go:183 | distinct errors render to distinct texts: the text determines the kind and every value carried |
| Errors.InvalidFieldNameMessage | fields_test.go:31-35 | an unknown field `invalid_field` is reported as `invalid field name 'invalid_field' provided` |
| Errors.InvalidFieldIndexMessages | fields_test.go:52-60 | indices -1 and 30 are reported as `invalid field index -1` and `invalid field index 30` |
| Errors.InvalidLogFormatMessage | processor.go:182-184 | a 29-field record is reported as `invalid log format: expected 30 fields, got 29` |
| Fields.FieldNamesDistinct | fields.go:9-40 | the schema has 30 column names and no name occurs twice, so a name determines its index |
| Fields.TrimSpace | fields.go:70 | the result is a contiguous part of the input; only white space is removed before and after it, and it neither starts nor ends with white space |
| Fields.TrimSpaceIdempotent | fields.go:70 | trimming a trimmed token changes nothing |
| Fields.Split | fields.go:68 | `strings.Split` with a one-character separator always returns at least one piece |
| Fields.SplitCount | fields.go:68 | a split has exactly one piece more than the input has separators |
| Fields.SplitJoin | fields.go:68 | joining the pieces of a split with the separator gives back the input, and no piece contains the separator |
| Fields.Tokens | fields.go:68-70 | one token per comma-separated piece of the configuration, and no token starts or ends with white space |
| Fields.Select | fields.go:69-75 | the token loop keeps every name selected so far; it fails only with `invalid field name` on one of the tokens, and that token is not a column name |
| Fields.Resolve | fields.go:51-78 | what `NewFields` returns: the empty configuration always succeeds, and any failure is an `invalid field name` error naming something that is not a column name |
| Fields.NewFields | fields.go:51-78 | the two loops (fill the valid-name set, then trim, check and insert each token with early return on the first unknown one) compute `Resolve` of the configuration |
| Fields.SelectSpec | fields.go:68-75 | token resolution succeeds exactly when every token is a column name and then selects exactly the tokens; otherwise it fails naming the first unknown token, with every token before it valid |
| Fields.ResolveEmptySelectsAll | fields.go:60-66 | the empty configuration includes every column index 0..29 |
| Fields.ResolveSelectsTokens | fields.go:68-75 | a non-empty configuration succeeds iff all trimmed tokens are column names, and then column i is included iff its name is one of the tokens |
| Fields.ResolveRejectsFirstUnknown | fields.go:71-73 | a failed resolution comes from a non-empty configuration and names its first unknown trimmed token, with every earlier token valid |
| Fields.ResolveWithinSchema | fields.go:55-58 | every selected name is a schema column name |
| Fields.SelectRepeatedToken | fields.go:74 | a token given twice in a row selects the same set as giving it once |
| Fields.BlankConfigurationFails | fields.go:60-73 | a configuration of one space is not the empty string; it yields the token `''` and fails with `InvalidFieldName("")` |
| Fields.TrailingCommaFails | fields.go:68-73 | `type,` yields the tokens `type` and `''` and fails on `''` |
| Fields.ThreeFieldSelection | fields_test.go:21-29 | `type,time,elb` resolves to exactly the set of those three names |
| Fields.ThreeFieldIncludes | fields_test.go:25-28 | that selection includes columns 0, 1 and 2 and excludes `client:port` (column 3) |
| Fields.UnknownFieldRejected | fields_test.go:31-35 | `bogus_field` fails with `InvalidFieldName("bogus_field")` |
| Fields.GetFieldNameByIndex | fields.go:80-86 | succeeds exactly for 0 <= index < 30 with the schema name at that index; otherwise the error carries the index |
| Fields.FieldNameByIndexExamples | fields_test.go:42-60 | 0 gives `type`, 1 gives `time`, and -1 and 30 give index errors |
| Fields.IncludeField | fields.go:88-96 | true exactly when the index is in range and its name is selected; out-of-range indices give false, never an error |
| Records.Project | processor.go:189-196 | the map has exactly the names of the included columns as keys, each mapped to the record's value at that column, and no other keys |
| Records.RecordToLogEntry | processor.go:180-202 | a record whose width is not 30 fails with expected 30 and the actual width; a timestamp that does not parse fails with the parser's error; otherwise the timestamp is the parse of column 1 and the data is the projection of the selected columns |
| Records.RequestColumnKept | processor_test.go:137-138 | with every column selected, the entry keeps column 12 under the key `request` and takes its timestamp from column 1 |
| Records.AcceptedSpec | processor.go:162-177 | the accepted entries are successful conversions of the first reads, in input order; they cover the input exactly when nothing fails, and otherwise the next read is the first failure |
| Records.AcceptedUnique | processor.go:162-177 | any prefix of successful conversions that stops at the end of the input or at a failure is `Accepted`, and the failure is `FirstFailure` |
| Records.Outcome | processor.go:163-172 | a read error becomes `error reading a record` carrying its cause; a success comes from a record of exactly 30 fields and keys only schema column names; when the read succeeded, any failure is a log-format or timestamp error |
| Records.ProcessRecords | processor.go:159-178 | entries are emitted in input order up to the first read or conversion error; entries emitted before the error remain; no error iff the whole input converts; the error is the failing read's |
| CloudWatch.EstimateEventSize | cloudwatch.go:81-85 | an event costs its message length in bytes plus 26 |
| CloudWatch.EstimateEventSizeExample | cloudwatch_test.go:147-157 | the 12-byte message `test message` costs 38 |
| CloudWatch.InsertDown | cloudwatch.go:69-71 | one insertion pass extends the timestamp-sorted prefix by one element and keeps the multiset of events |
| CloudWatch.SortByTimestamp | cloudwatch.go:69-71 | the array ends in non-decreasing timestamp order and holds the same events as before |
| CloudWatch.SendEventsToCloudWatch | cloudwatch.go:67-79 | the batch is sorted in place and stays a permutation of the input; exactly one PutLogEvents request is sent, carrying the sorted events and the configured group and stream names; the client's error is returned unchanged |
| CloudWatch.EnsureLogGroupExists | cloudwatch.go:28-44 | a describe error is returned before anything is created; an existing group creates nothing; an absent group is created, with the create error returned; on success the group exists |
| CloudWatch.EnsureLogStreamExists | cloudwatch.go:46-65 | the same find-or-create rule for the stream among the streams described for the group; on success the stream exists in the group |
| CloudWatch.EnsureLogGroupAndLogStreamExists | cloudwatch.go:18-26 | the group step runs first, and a group error returns at once without describing streams; the group is created iff it was absent; once the group step succeeds, the stream step follows: the requests after the group step are `DescribeLogStreams` for the group, plus `CreateLogStream` when the stream is absent, and the error is the describe error, nil for a present stream, or the create error; on success both the group and the stream exist |
| S3Url.IndexOf | utils.go:20 | the position of the first `/`, or -1 exactly when there is none |
| S3Url.ParseS3URL | utils.go:15-27 | no `s3://` prefix fails with the missing-prefix error; no `/` after the bucket fails with the no-slash error; otherwise `s3://` + bucket + `/` + prefix is the URL and the bucket has no `/` |
| S3Url.ParseS3URLInverse | utils.go:19-25 | composing `s3://bucket/prefix` from a slash-free bucket and any prefix and parsing it gives back that bucket and prefix |
| S3Url.ParseS3URLInjective | utils.go:19-25 | two successful parses agree exactly when the URLs are equal |
| S3Url.BucketAndKeyExample | utils_test.go:12-17 | `s3://mybucket/mykey` gives bucket `mybucket` and prefix `mykey` |
| S3Url.NestedPrefixExample | utils.go:25 | the prefix keeps every later slash: `s3://logs/AWSLogs/elb/` gives prefix `AWSLogs/elb/` |
| S3Url.EmptyPrefixExample | utils.go:25 | the prefix may be empty: `s3://logs/` gives bucket `logs` and an empty prefix |
| S3Url.MissingSchemeExample | utils_test.go:19-23 | `mybucket/mykey` fails with the missing-prefix error |
| S3Url.BucketWithoutSlash | utils.go:20-23 | `s3://` followed by any slash-free bucket fails with the no-slash error |
| S3Url.NoSlashExample | utils_test.go:25-29 | `s3://mybucket` fails with the no-slash error |
| Counter.SafeCounter.constructor | safe_counter.go:7-10 | a fresh counter holds 0 |
| Counter.SafeCounter.Increment | safe_counter.go:12-16 | the value rises by exactly the argument |
| Counter.SafeCounter.Value | safe_counter.go:18-22 | returns the value and changes nothing |
| Counter.IncrementAll | safe_counter_test.go:33-42 | a sequence of increments raises the value by their sum |
| Counter.CounterScenario | safe_counter_test.go:14-65 | a fresh counter reads 0; after 5 it reads 5; after 3 and 2 it reads 10; after 1000 increments by 1 it reads 1010 |
| Pipeline.ToEvent | processor.go:113-121 | the event keeps the entry's millisecond timestamp, and its estimated size is the byte length of the serialized data plus 26 |
| Pipeline.TotalSizeFormula | cloudwatch.go:82-84 | a batch's estimated size is its total message bytes plus 26 per event |
| Pipeline.TotalSizeAtMost | processor.go:121-136 | when no event costs more than m, a batch of n events costs at most m·n |
| Pipeline.FlushNeeded | processor.go:123 | an empty pending batch is never flushed and one of 10,000 events always is; a non-empty batch that is not flushed holds fewer than 10,000 events and stays within 1,048,576 bytes with the new event |
| Pipeline.Step | processor.go:123-136 | one loop iteration keeps every batch already sent, in place, as a prefix of the new list, sends at most one more, and leaves a non-empty pending batch |
| Pipeline.RunAppendCases | processor.go:123-136 | the state after one more event, for each outcome of the flush rule: either the pending batch is sent and the event starts the next one, or the event is appended and nothing is sent |
| Pipeline.Run | processor.go:112-137 | after the loop, the pending batch is empty exactly when no event was consumed |
| Pipeline.Close | processor.go:138-145 | the final flush keeps every batch already sent, adds at most one more, which is non-empty, and loses no event: laid end to end, the result is the sent events followed by the remainder |
| Pipeline.Batches | processor.go:108-145 | the loop plus the final flush sends no batch exactly when there are no events |
| Pipeline.StepKeepsOrder | processor.go:123-136 | one loop iteration appends the event after all earlier events, keeps the earlier sent batches as a prefix, and leaves a non-empty pending batch |
| Pipeline.StepKeepsWellFormed | processor.go:123-136 | one loop iteration keeps every sent batch and a non-empty pending batch well formed: at most 10,000 events, and at most 1,048,576 bytes unless it holds a single event |
| Pipeline.RunInvariant | processor.go:110-137 | after any input, the sent batches followed by the pending batch are exactly the events consumed; every batch is well formed; the pending batch is empty only before the first event |
| Pipeline.BatchesPartition | processor.go:108-145 | the batches sent for an input, laid end to end, are exactly that input in order; each is non-empty, holds at most 10,000 events, and costs at most 1,048,576 bytes unless it is a single event |
| Pipeline.SmallEventsStayPending | processor.go:123 | up to 10,000 events of at most 104 bytes each never trigger a flush |
| Pipeline.CountLimitFlush | processor.go:123-133 | the 10,001st small event finds 10,000 pending and flushes them |
| Pipeline.JoinPending | processor.go:123-136 | whatever batches were sent before, below both limits the next event is appended to the pending batch and the sent batches stay as they are |
| Pipeline.JoinAll | processor.go:123-136 | once one batch is sent, events of at most 104 bytes keep joining the pending batch while it stays under 10,000 events, and its estimated size stays within 104 bytes per event |
| Pipeline.SmallEventsSecondBatch | processor.go:123-136 | after that, the rest of up to 20,000 small events collect in the second pending batch |
| Pipeline.UniformSmallEvents | processor.go:108-145 | between 10,001 and 20,000 events of at most 104 bytes are sent as the first 10,000 and then the rest |
| Pipeline.TwelveThousandSmallEvents | processor.go:108-145 | 12,000 small events are sent as a batch of 10,000 and a batch of 2,000 |
| Pipeline.FlushedGrows | processor.go:123-133 | consuming more events never takes back a sent batch |
| Pipeline.OversizedStartsBatch | processor.go:123-136 | an event over the size limit always starts a new pending batch, and the batches sent before it are exactly those of the input before it |
| Pipeline.OversizedEventAlone | processor.go:108-145 | an event over the size limit is sent in a batch of its own: the batches of the whole input start with the batches of the input before it, then the batch holding only that event |
| Pipeline.FlushKeepsBookkept | processor.go:125-132 | delivering the pending batch, counting its events and emptying it keeps the batcher's bookkeeping |
| Pipeline.Batcher.constructor | processor.go:104-111 | a new batcher has no pending events, no sent batches and a zero counter |
| Pipeline.Batcher.Flush | processor.go:125-132 | the pending batch is sent in one request, appended after the earlier requests and carrying exactly the pending events, and the counter rises by its length whether or not the send failed; the pending batch is emptied and its size reset to 0 |
| Pipeline.Batcher.Add | processor.go:112-136 | the pending batch is flushed first exactly when it is non-empty and either the event would exceed 1,048,576 bytes or 10,000 events are already pending; then the event is appended; the state stays equal to `Run` of everything consumed |
| Pipeline.Batcher.Consume | processor.go:112-137 | every entry, serialized in order, is consumed |
| Pipeline.Batcher.Finish | processor.go:138-145 | the remainder is flushed if non-empty; the batches sent are exactly `Batches` of everything consumed, and the counter equals the number of events consumed, failed sends included |
| Pipeline.ProcessLogs | processor.go:68-157 | a failed fetch returns `failed to get object` and sends nothing; otherwise the result is nil even if reading or conversion failed; the requests sent are the batches of the events of the accepted entries, in order, each sorted and addressed to the configured group and stream; the returned count is the number of those events |

## Left out

- Goroutines, `io.Pipe`, gzip decompression, the buffered `entryChan` (capacity 12,500) and the `WaitGroup` (processor.go:81-106, 152-153) are not modelled. The pipeline is modelled as its sequential meaning: the records are read and converted in order, then the entries are consumed in that order. A channel preserves order, so the events and batches are the same.
- Space-separated CSV tokenization (processor.go:160-161) is not modelled. The input is the sequence of what the tokenizer returns, each a record or a read error, and end of input is the end of that sequence.
- `time.Parse(time.RFC3339, …)` followed by `UnixMilli` is a parameter, `TimeParser`: a total function from the text to a millisecond timestamp or an error text.
- `json.Marshal` of the entry data is a parameter `serialize` that maps the entry data to message bytes. Its error (processor.go:113-116) is not modelled. It is printed, and the event is still sent with whatever bytes were produced.
- The S3 `GetObject` call is a parameter `fetched`: the records of the object, or the error text.
- The `fmt.Println` and `log.Printf` reports are not modelled: a failed send, a failed read, the final count, and the group and stream creation messages.
- Go strings are UTF-8 bytes. In this model, field names, configurations and URLs are sequences of characters, and `TrimSpace` uses the Unicode white-space set on characters. Messages are byte sequences, so the event size counts bytes as the source does.
- Integers are unbounded. Go's `int` and `int64` overflow in the counter and in the size sums is not modelled. It cannot occur below 2^63 events or bytes.
- CloudWatch.SortByTimestamp: `sort.Slice` is not stable, and the order it leaves among events with equal timestamps is not specified. The model's insertion sort is stable, but only sortedness and the permutation are claimed.
- CloudWatch.LogsClient: the real AWS SDK calls are replaced by this abstract client.
  - Only the first page of `DescribeLogGroups` and `DescribeLogStreams` is modelled, because the code reads only that page.
  - Each request kind fails with a fixed configured error, or succeeds. A PutLogEvents request's answer depends on how many requests came before it.
- `NewLogProcessor` (processor.go:51-66) is not modelled. It sets up the session and the clients, and it discards the error from `NewFields` (processor.go:53). An invalid field configuration is therefore not reported at startup. It leaves a nil selection, on which `IncludeField` would dereference nil. The model always passes a resolved selection and claims nothing about that path.
- The fan-out over S3 objects in `processS3Objects`, `HandleS3URL` listing pagination, `HandleLambdaEvent`, `LoadConfigFromEnv`, `main.go` and the `model.go` JSON shapes are not part of this model. They are concurrency, network or environment I/O.
- Pipeline.Step: its own contract gives only the prefix of sent batches and the counts. Which events end up in which batch is stated by `StepKeepsOrder` and `RunAppendCases`, because putting the contents on `Step` itself makes every proof that unfolds the loop much costlier.
- Pipeline.Run: its own contract says only when the pending batch is empty. That the state partitions the input into well-formed batches is `RunInvariant`, for the same reason.
- The mutex in `SafeCounter` is not modelled; it only serialises concurrent callers. The 1000-goroutine test is modelled as 1000 sequential increments.
