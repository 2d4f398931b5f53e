/** processor.go, second half: the batching loop of `ProcessLogs`.  Each
    log entry becomes a CloudWatch event, and events are packed greedily
    into PutLogEvents batches under two independent limits, a total
    estimated size and an event count.  The decompressing goroutine, the
    entry channel and the consumer goroutine are replaced by their
    sequential meaning: all entries are produced in order, then consumed in
    that order. */
module Pipeline {
  import opened Wrappers
  import opened Errors
  import opened Fields
  import opened Records
  import opened CloudWatch
  import opened Counter

  /** The largest PutLogEvents request CloudWatch accepts, in estimated
      bytes. */
  const MaxBatchSize: int := 1048576
  /** The most events one PutLogEvents request may carry. */
  const MaxBatchCount: int := 10000

  /** The estimated size of a batch: the sum of its events' sizes. */
  function TotalSize(b: seq<InputLogEvent>): int
  {
    if |b| == 0 then 0 else TotalSize(b[..|b| - 1]) + EstimateEventSize(b[|b| - 1])
  }

  /** The message bytes of a batch. */
  function MessageBytes(b: seq<InputLogEvent>): nat
  {
    if |b| == 0 then 0 else MessageBytes(b[..|b| - 1]) + |b[|b| - 1].message|
  }

  /** A batch's estimated size is the sum of its message lengths plus 26
      bytes for each event. */
  lemma {:induction false} TotalSizeFormula(b: seq<InputLogEvent>)
    ensures TotalSize(b) == MessageBytes(b) + EventOverhead * |b|
  {
    if |b| > 0 {
      TotalSizeFormula(b[..|b| - 1]);
    }
  }

  /** So every event adds at least 26. */
  lemma {:induction false} TotalSizeAtLeast(b: seq<InputLogEvent>)
    ensures TotalSize(b) >= EventOverhead * |b|
  {
    TotalSizeFormula(b);
  }

  /** When no event costs more than `m`, a batch costs at most `m` per
      event. */
  lemma {:induction false} TotalSizeAtMost(b: seq<InputLogEvent>, m: int)
    requires forall k | 0 <= k < |b| :: EstimateEventSize(b[k]) <= m
    ensures TotalSize(b) <= m * |b|
  {
    if |b| > 0 {
      TotalSizeAtMost(b[..|b| - 1], m);
      assert m * |b| == m * (|b| - 1) + m;
    }
  }

  /** The batches laid end to end. */
  function Concat(bs: seq<seq<InputLogEvent>>): seq<InputLogEvent>
  {
    if |bs| == 0 then [] else Concat(bs[..|bs| - 1]) + bs[|bs| - 1]
  }

  /** The flush rule checked before an event is appended: the pending batch
      is sent when it is non-empty and either the event would take it over
      the size limit or it already holds the maximum number of events. */
  predicate FlushNeeded(pending: seq<InputLogEvent>, pendingSize: int, eventSize: int)
    ensures |pending| == 0 ==> !FlushNeeded(pending, pendingSize, eventSize)
    ensures |pending| >= MaxBatchCount ==> FlushNeeded(pending, pendingSize, eventSize)
    ensures !FlushNeeded(pending, pendingSize, eventSize) && |pending| > 0 ==>
      |pending| < MaxBatchCount && pendingSize + eventSize <= MaxBatchSize
  {
    |pending| > 0 && (pendingSize + eventSize > MaxBatchSize || |pending| >= MaxBatchCount)
  }

  /** The batches sent so far and the batch being filled. */
  datatype PackState = PackState(flushed: seq<seq<InputLogEvent>>, pending: seq<InputLogEvent>)

  /** One iteration of the loop: flush if the rule says so, then append. */
  function Step(s: PackState, e: InputLogEvent): (r: PackState)
    ensures s.flushed <= r.flushed && |r.flushed| <= |s.flushed| + 1
    ensures |r.pending| > 0
  {
    if FlushNeeded(s.pending, TotalSize(s.pending), EstimateEventSize(e))
    then PackState(s.flushed + [s.pending], [e])
    else PackState(s.flushed, s.pending + [e])
  }

  /** The loop over a whole sequence of events. */
  function Run(es: seq<InputLogEvent>): (r: PackState)
    ensures |r.pending| == 0 <==> |es| == 0
  {
    if |es| == 0 then PackState([], []) else Step(Run(es[..|es| - 1]), es[|es| - 1])
  }

  /** The final flush after the input ends: a non-empty remainder is sent
      too. */
  function Close(s: PackState): (r: seq<seq<InputLogEvent>>)
    ensures s.flushed <= r && |r| <= |s.flushed| + 1
    ensures Concat(r) == Concat(s.flushed) + s.pending
    ensures forall k | |s.flushed| <= k < |r| :: r[k] != []
  {
    if |s.pending| > 0 then
      ConcatAppend(s.flushed, s.pending);
      s.flushed + [s.pending]
    else s.flushed
  }

  /** Every batch the loop sends for `es`, in order. */
  function Batches(es: seq<InputLogEvent>): (r: seq<seq<InputLogEvent>>)
    ensures r == [] <==> es == []
  {
    RunInvariant(es);
    Close(Run(es))
  }

  /** What CloudWatch accepts: a non-empty batch of at most 10,000 events
      whose size is within the limit, except that a single event is sent
      on its own whatever its size. */
  predicate WellFormedBatch(b: seq<InputLogEvent>)
  {
    0 < |b| <= MaxBatchCount && (TotalSize(b) <= MaxBatchSize || |b| == 1)
  }

  lemma ConcatAppend(bs: seq<seq<InputLogEvent>>, b: seq<InputLogEvent>)
    ensures Concat(bs + [b]) == Concat(bs) + b
  {
    assert (bs + [b])[..|bs|] == bs;
  }

  lemma TotalSizeAppend(b: seq<InputLogEvent>, e: InputLogEvent)
    ensures TotalSize(b + [e]) == TotalSize(b) + EstimateEventSize(e)
  {
    assert (b + [e])[..|b|] == b;
  }

  /** Every sent batch is well formed, and so is the pending one unless it
      is empty. */
  predicate PackWellFormed(s: PackState)
  {
    && (forall k | 0 <= k < |s.flushed| :: WellFormedBatch(s.flushed[k]))
    && (|s.pending| == 0 || WellFormedBatch(s.pending))
  }

  /** A step moves no event: it appends `e` after all events so far. */
  lemma StepKeepsOrder(s: PackState, e: InputLogEvent)
    ensures Concat(Step(s, e).flushed) + Step(s, e).pending == Concat(s.flushed) + s.pending + [e]
    ensures s.flushed <= Step(s, e).flushed
    ensures |Step(s, e).pending| > 0
  {
    if FlushNeeded(s.pending, TotalSize(s.pending), EstimateEventSize(e)) {
      ConcatAppend(s.flushed, s.pending);
    }
  }

  /** A step keeps every batch well formed: it appends only below both
      limits, and an event that starts a batch is well formed alone. */
  lemma StepKeepsWellFormed(s: PackState, e: InputLogEvent)
    requires PackWellFormed(s)
    ensures PackWellFormed(Step(s, e))
  {
    assert TotalSize([e]) == EstimateEventSize(e) by { assert [e][..0] == []; }
    if !FlushNeeded(s.pending, TotalSize(s.pending), EstimateEventSize(e)) && |s.pending| > 0 {
      TotalSizeAppend(s.pending, e);
    }
  }

  lemma RunAppend(es: seq<InputLogEvent>, e: InputLogEvent)
    ensures Run(es + [e]) == Step(Run(es), e)
  {
    assert (es + [e])[..|es|] == es;
  }

  /** The state after one more event, spelled out for both outcomes of the
      flush rule. */
  lemma RunAppendCases(es: seq<InputLogEvent>, e: InputLogEvent, s: PackState)
    requires Run(es) == s
    ensures FlushNeeded(s.pending, TotalSize(s.pending), EstimateEventSize(e)) ==>
      Run(es + [e]) == PackState(s.flushed + [s.pending], [e])
    ensures !FlushNeeded(s.pending, TotalSize(s.pending), EstimateEventSize(e)) ==>
      Run(es + [e]) == PackState(s.flushed, s.pending + [e])
  {
    RunAppend(es, e);
  }

  /** The loop keeps three facts: the sent batches followed by the pending
      one are exactly the events so far; every batch is well formed; the
      pending batch is empty only before the first event. */
  lemma {:induction false} RunInvariant(es: seq<InputLogEvent>)
    ensures Concat(Run(es).flushed) + Run(es).pending == es
    ensures PackWellFormed(Run(es))
    ensures |Run(es).pending| == 0 <==> |es| == 0
  {
    if |es| > 0 {
      var init := es[..|es| - 1];
      assert es == init + [es[|es| - 1]];
      RunInvariant(init);
      StepKeepsOrder(Run(init), es[|es| - 1]);
      StepKeepsWellFormed(Run(init), es[|es| - 1]);
    }
  }

  /** The batches partition the input: laid end to end they are exactly
      the events consumed, in order, and every one of them is well formed. */
  lemma BatchesPartition(es: seq<InputLogEvent>)
    ensures Concat(Batches(es)) == es
    ensures forall k | 0 <= k < |Batches(es)| :: WellFormedBatch(Batches(es)[k])
  {
    var s := Run(es);
    RunInvariant(es);
    if |s.pending| > 0 {
      var bs := s.flushed + [s.pending];
      assert Batches(es) == bs;
      ConcatAppend(s.flushed, s.pending);
      forall k | 0 <= k < |bs|
        ensures WellFormedBatch(bs[k])
      {
        if k < |s.flushed| {
          assert bs[k] == s.flushed[k];
        }
      }
    }
  }

  /** A slice of events that each cost at most `m` costs at most `m` per
      event. */
  lemma SliceSizeAtMost(es: seq<InputLogEvent>, a: int, b: int, m: int)
    requires forall j | 0 <= j < |es| :: EstimateEventSize(es[j]) <= m
    requires 0 <= a <= b <= |es|
    ensures TotalSize(es[a..b]) <= m * (b - a)
  {
    var s := es[a..b];
    forall j | 0 <= j < |s|
      ensures EstimateEventSize(s[j]) <= m
    {
      assert s[j] == es[a + j];
    }
    TotalSizeAtMost(s, m);
  }

  /** Below both limits the next event joins the pending batch. */
  lemma JoinPending(prefix: seq<InputLogEvent>, e: InputLogEvent, flushed: seq<seq<InputLogEvent>>, pending: seq<InputLogEvent>)
    requires Run(prefix) == PackState(flushed, pending)
    requires |pending| < MaxBatchCount
    requires TotalSize(pending) + EstimateEventSize(e) <= MaxBatchSize
    ensures Run(prefix + [e]) == PackState(flushed, pending + [e])
  {
    RunAppend(prefix, e);
  }

  /** Up to 10,000 events of at most 104 estimated bytes each stay in one
      pending batch. */
  lemma {:induction false} SmallEventsStayPending(es: seq<InputLogEvent>, k: int)
    requires forall j | 0 <= j < |es| :: EstimateEventSize(es[j]) <= 104
    requires 0 <= k <= MaxBatchCount && k <= |es|
    ensures Run(es[..k]) == PackState([], es[..k])
  {
    if k > 0 {
      assert es[..k][..k - 1] == es[..k - 1];
      SmallEventsStayPending(es, k - 1);
      TotalSizeAtMost(es[..k - 1], 104);
      assert es[..k - 1] + [es[k - 1]] == es[..k];
    }
  }

  /** The 10,001st small event finds 10,000 pending and flushes them. */
  lemma CountLimitFlush(es: seq<InputLogEvent>, k: int)
    requires forall j | 0 <= j < |es| :: EstimateEventSize(es[j]) <= 104
    requires k == MaxBatchCount + 1 <= |es|
    ensures Run(es[..k]) == PackState([es[..MaxBatchCount]], es[MaxBatchCount..k])
  {
    var x := es[..k];
    assert x[..MaxBatchCount] == es[..MaxBatchCount];
    assert es[MaxBatchCount..k] == [es[MaxBatchCount]];
    SmallEventsStayPending(es, MaxBatchCount);
  }

  /** Once the first batch is sent, small events keep joining the second
      one while it stays under the count limit; its estimated size stays
      within 104 bytes per event. */
  lemma {:induction false} JoinAll(prefix: seq<InputLogEvent>, first: seq<InputLogEvent>, pending: seq<InputLogEvent>, rest: seq<InputLogEvent>)
    requires Run(prefix) == PackState([first], pending)
    requires TotalSize(pending) <= 104 * |pending|
    requires forall j | 0 <= j < |rest| :: EstimateEventSize(rest[j]) <= 104
    requires |pending| + |rest| <= MaxBatchCount
    ensures Run(prefix + rest) == PackState([first], pending + rest)
    ensures TotalSize(pending + rest) <= 104 * (|pending| + |rest|)
  {
    if |rest| == 0 {
      assert prefix + rest == prefix;
      assert pending + rest == pending;
    } else {
      var init, e := rest[..|rest| - 1], rest[|rest| - 1];
      assert prefix + rest == (prefix + init) + [e];
      assert pending + rest == (pending + init) + [e];
      var p := pending + init;
      assert Run(prefix + init) == PackState([first], p) && TotalSize(p) <= 104 * |p| by {
        JoinAll(prefix, first, pending, init);
      }
      assert TotalSize(p + [e]) == TotalSize(p) + EstimateEventSize(e) by {
        TotalSizeAppend(p, e);
      }
      JoinPending(prefix + init, e, [first], p);
    }
  }

  /** After the 10,001st small event, the first 10,000 are sent and the
      rest collect in the second batch. */
  lemma SmallEventsSecondBatch(es: seq<InputLogEvent>, k: int)
    requires forall j | 0 <= j < |es| :: EstimateEventSize(es[j]) <= 104
    requires MaxBatchCount < k <= |es| <= 2 * MaxBatchCount
    ensures Run(es[..k]) == PackState([es[..MaxBatchCount]], es[MaxBatchCount..k])
  {
    var rest := es[MaxBatchCount + 1..k];
    assert es[..MaxBatchCount + 1] + rest == es[..k];
    assert es[MaxBatchCount..MaxBatchCount + 1] + rest == es[MaxBatchCount..k];
    forall j | 0 <= j < |rest|
      ensures EstimateEventSize(rest[j]) <= 104
    {
      assert rest[j] == es[MaxBatchCount + 1 + j];
    }
    CountLimitFlush(es, MaxBatchCount + 1);
    SliceSizeAtMost(es, MaxBatchCount, MaxBatchCount + 1, 104);
    JoinAll(es[..MaxBatchCount + 1], es[..MaxBatchCount], es[MaxBatchCount..MaxBatchCount + 1], rest);
  }

  /** Between 10,001 and 20,000 events of at most 104 estimated bytes each
      go out as the first 10,000 and then the rest: the count limit, not
      the size limit, splits them. */
  lemma UniformSmallEvents(es: seq<InputLogEvent>)
    requires forall j | 0 <= j < |es| :: EstimateEventSize(es[j]) <= 104
    requires MaxBatchCount < |es| <= 2 * MaxBatchCount
    ensures Batches(es) == [es[..MaxBatchCount], es[MaxBatchCount..]]
  {
    var first, second := es[..MaxBatchCount], es[MaxBatchCount..];
    assert Run(es) == PackState([first], second) by {
      assert es[..|es|] == es;
      assert es[MaxBatchCount..|es|] == second;
      SmallEventsSecondBatch(es, |es|);
    }
    assert |second| > 0;
  }

  /** For example, 12,000 small events flush as 10,000 and then 2,000. */
  lemma TwelveThousandSmallEvents(es: seq<InputLogEvent>)
    requires forall j | 0 <= j < |es| :: EstimateEventSize(es[j]) <= 104
    requires |es| == 12000
    ensures |Batches(es)| == 2 && |Batches(es)[0]| == 10000 && |Batches(es)[1]| == 2000
  {
    UniformSmallEvents(es);
  }

  /** Sent batches are never taken back: consuming more events only adds
      batches after those already sent. */
  lemma {:induction false} FlushedGrows(es: seq<InputLogEvent>, more: seq<InputLogEvent>)
    ensures Run(es).flushed <= Run(es + more).flushed
  {
    if |more| == 0 {
      assert es + more == es;
    } else {
      var init := more[..|more| - 1];
      assert (es + more)[..|es + more| - 1] == es + init;
      FlushedGrows(es, init);
      var s := Run(es + init);
      assert Run(es + more) == Step(s, more[|more| - 1]);
      assert s.flushed <= s.flushed + [s.pending];
    }
  }

  /** An event larger than the size limit always starts a new batch: the
      batches before it are those of the input before it. */
  lemma OversizedStartsBatch(xs: seq<InputLogEvent>, e: InputLogEvent)
    requires EstimateEventSize(e) > MaxBatchSize
    ensures Run(xs + [e]) == PackState(Batches(xs), [e])
  {
    assert (xs + [e])[..|xs|] == xs;
    assert Run(xs + [e]) == Step(Run(xs), e);
    TotalSizeAtLeast(Run(xs).pending);
  }

  /** The event after it finds the limit already exceeded and sends it
      alone. */
  lemma OversizedSentNext(xs: seq<InputLogEvent>, e: InputLogEvent, y: InputLogEvent)
    requires EstimateEventSize(e) > MaxBatchSize
    ensures Run(xs + [e] + [y]).flushed == Run(xs + [e]).flushed + [[e]]
  {
    assert (xs + [e] + [y])[..|xs| + 1] == xs + [e];
    assert Run(xs + [e] + [y]) == Step(Run(xs + [e]), y);
    OversizedStartsBatch(xs, e);
    assert TotalSize([e]) == EstimateEventSize(e) by { assert [e][..0] == []; }
  }

  /** An event larger than the size limit is sent in a batch of its own,
      right after the batches of the input before it. */
  lemma OversizedEventAlone(xs: seq<InputLogEvent>, e: InputLogEvent, ys: seq<InputLogEvent>)
    requires EstimateEventSize(e) > MaxBatchSize
    ensures Batches(xs) + [[e]] <= Batches(xs + [e] + ys)
  {
    OversizedStartsBatch(xs, e);
    var whole := xs + [e] + ys;
    if |ys| == 0 {
      assert whole == xs + [e];
    } else {
      var head := xs + [e] + [ys[0]];
      assert head + ys[1..] == whole;
      OversizedSentNext(xs, e, ys[0]);
      FlushedGrows(head, ys[1..]);
      var s := Run(whole);
      assert s.flushed <= Close(s);
    }
  }

  /** `calls` are the PutLogEvents requests for `batches`, one per batch,
      in the same order. */
  ghost predicate SentInOrder(calls: seq<ApiCall>, batches: seq<seq<InputLogEvent>>, config: LogConfig)
  {
    |calls| == |batches| && forall k | 0 <= k < |calls| :: Delivers(calls[k], batches[k], config)
  }

  lemma SuffixAppend(a: seq<ApiCall>, b: seq<ApiCall>, x: ApiCall)
    requires b <= a
    ensures b <= a + [x]
    ensures (a + [x])[|b|..] == a[|b|..] + [x]
  {
  }

  lemma SentInOrderAppend(calls: seq<ApiCall>, batches: seq<seq<InputLogEvent>>, config: LogConfig,
                          call: ApiCall, batch: seq<InputLogEvent>)
    requires SentInOrder(calls, batches, config) && Delivers(call, batch, config)
    ensures SentInOrder(calls + [call], batches + [batch], config)
  {
  }

  /** The batcher's bookkeeping, on values: `size` is the pending events'
      estimated size, `count` the number of events in the sent batches, and
      the requests after `callsBefore` deliver the sent batches in order. */
  ghost predicate Bookkept(size: int, pending: seq<InputLogEvent>, count: int,
                           flushed: seq<seq<InputLogEvent>>, callsBefore: seq<ApiCall>,
                           calls: seq<ApiCall>, config: LogConfig)
  {
    && size == TotalSize(pending)
    && count == |Concat(flushed)|
    && callsBefore <= calls
    && SentInOrder(calls[|callsBefore|..], flushed, config)
  }

  /** Sending the pending batch, counting it and emptying it keeps the
      bookkeeping. */
  lemma FlushKeepsBookkept(size: int, pending: seq<InputLogEvent>, count: int,
                           flushed: seq<seq<InputLogEvent>>, callsBefore: seq<ApiCall>,
                           calls: seq<ApiCall>, config: LogConfig, call: ApiCall)
    requires Bookkept(size, pending, count, flushed, callsBefore, calls, config)
    requires Delivers(call, pending, config)
    ensures Bookkept(0, [], count + |pending|, flushed + [pending], callsBefore, calls + [call], config)
  {
    SuffixAppend(calls, callsBefore, call);
    SentInOrderAppend(calls[|callsBefore|..], flushed, config, call, pending);
    ConcatAppend(flushed, pending);
  }

  /** Appending an event to the pending batch keeps the bookkeeping. */
  lemma AppendKeepsBookkept(size: int, pending: seq<InputLogEvent>, count: int,
                            flushed: seq<seq<InputLogEvent>>, callsBefore: seq<ApiCall>,
                            calls: seq<ApiCall>, config: LogConfig, e: InputLogEvent)
    requires Bookkept(size, pending, count, flushed, callsBefore, calls, config)
    ensures Bookkept(size + EstimateEventSize(e), pending + [e], count, flushed, callsBefore, calls, config)
  {
    TotalSizeAppend(pending, e);
  }

  /** The CloudWatch event for a log entry: the serialized data as its
      message and the entry's timestamp. */
  function ToEvent(entry: LogEntry, serialize: map<string, string> -> seq<byte>): (e: InputLogEvent)
    ensures e.timestamp == entry.timestamp
    ensures EstimateEventSize(e) == |serialize(entry.data)| + EventOverhead
  {
    InputLogEvent(serialize(entry.data), entry.timestamp)
  }

  function ToEvents(entries: seq<LogEntry>, serialize: map<string, string> -> seq<byte>): (es: seq<InputLogEvent>)
    ensures |es| == |entries|
    ensures forall k | 0 <= k < |entries| :: es[k] == ToEvent(entries[k], serialize)
  {
    seq(|entries|, k requires 0 <= k < |entries| => ToEvent(entries[k], serialize))
  }

  lemma ToEventsExtend(entries: seq<LogEntry>, i: int, serialize: map<string, string> -> seq<byte>)
    requires 0 <= i < |entries|
    ensures ToEvents(entries[..i + 1], serialize) == ToEvents(entries[..i], serialize) + [ToEvent(entries[i], serialize)]
  {
  }

  /** The consumer side of the entry channel: the pending events, their
      estimated size, and the counter of events sent. */
  class Batcher {
    var events: seq<InputLogEvent>
    var currentBatchSize: int
    const client: LogsClient
    const config: LogConfig
    const counter: SafeCounter
    /** The batches sent so far. */
    ghost var flushed: seq<seq<InputLogEvent>>
    /** Every event handed to `Add` so far. */
    ghost var consumed: seq<InputLogEvent>
    /** The client's request log when the batcher was created. */
    ghost const callsBefore: seq<ApiCall>

    /** Bookkeeping that holds at all times: the size is that of the
        pending events, the counter holds the number of events sent, and
        the client received one PutLogEvents request per sent batch. */
    ghost predicate Sound()
      reads this, client, counter
    {
      Bookkept(currentBatchSize, events, counter.v, flushed, callsBefore, client.calls, config)
    }

    /** While consuming: the sent and pending batches are what the packing
        loop produces for the events consumed so far. */
    ghost predicate Valid()
      reads this, client, counter
    {
      Sound() && PackState(flushed, events) == Run(consumed)
    }

    constructor(client: LogsClient, config: LogConfig)
      ensures this.client == client && this.config == config
      ensures Valid() && fresh(counter)
      ensures consumed == [] && events == [] && flushed == [] && counter.v == 0
      ensures callsBefore == client.calls
    {
      this.client := client;
      this.config := config;
      counter := new SafeCounter();
      events := [];
      currentBatchSize := 0;
      flushed := [];
      consumed := [];
      callsBefore := client.calls;
    }

    /** Send the pending batch, count its events whether or not the send
        failed, and start an empty batch. */
    method Flush()
      requires Sound() && |events| > 0
      modifies this, client`calls, counter
      ensures Sound()
      ensures flushed == old(flushed) + [old(events)] && consumed == old(consumed)
      ensures events == [] && currentBatchSize == 0
      ensures counter.v == old(counter.v) + |old(events)|
      ensures |client.calls| == |old(client.calls)| + 1
      ensures old(client.calls) <= client.calls
      ensures Delivers(client.calls[|client.calls| - 1], old(events), config)
    {
      var batch := events;
      var arr := new InputLogEvent[|batch|](k requires 0 <= k < |batch| => batch[k]);
      assert arr[..] == batch;
      ghost var before := client.calls;
      var err := SendEventsToCloudWatch(client, config, arr);
      FlushKeepsBookkept(currentBatchSize, batch, counter.v, flushed, callsBefore, before, config, client.calls[|before|]);
      // A failed send is only reported; the events still count.
      counter.Increment(|batch|);
      flushed := flushed + [batch];
      events := [];
      currentBatchSize := 0;
    }

    /** One iteration of the consuming loop for the event `e`. */
    method Add(e: InputLogEvent)
      requires Valid()
      modifies this, client`calls, counter
      ensures Valid()
      ensures consumed == old(consumed) + [e]
      ensures FlushNeeded(old(events), old(currentBatchSize), EstimateEventSize(e)) ==>
        && flushed == old(flushed) + [old(events)] && events == [e]
        && counter.v == old(counter.v) + |old(events)|
        && |client.calls| == |old(client.calls)| + 1
      ensures !FlushNeeded(old(events), old(currentBatchSize), EstimateEventSize(e)) ==>
        && flushed == old(flushed) && events == old(events) + [e]
        && counter.v == old(counter.v) && client.calls == old(client.calls)
    {
      ghost var next := Run(consumed + [e]);
      RunAppendCases(consumed, e, PackState(flushed, events));
      var eventSize := EstimateEventSize(e);
      if FlushNeeded(events, currentBatchSize, eventSize) {
        assert next == PackState(flushed + [events], [e]);
        Flush();
      } else {
        assert next == PackState(flushed, events + [e]);
      }
      AppendKeepsBookkept(currentBatchSize, events, counter.v, flushed, callsBefore, client.calls, config, e);
      events := events + [e];
      currentBatchSize := currentBatchSize + eventSize;
      consumed := consumed + [e];
      assert PackState(flushed, events) == next;
    }

    /** The consuming loop over the entries received from the channel, in
        order: each is serialized into an event and added. */
    method Consume(entries: seq<LogEntry>, serialize: map<string, string> -> seq<byte>)
      requires Valid()
      modifies this, client`calls, counter
      ensures Valid()
      ensures consumed == old(consumed) + ToEvents(entries, serialize)
    {
      var i := 0;
      while i < |entries|
        invariant 0 <= i <= |entries|
        invariant Valid()
        invariant consumed == old(consumed) + ToEvents(entries[..i], serialize)
      {
        ToEventsExtend(entries, i, serialize);
        Add(ToEvent(entries[i], serialize));
        i := i + 1;
      }
      assert entries[..i] == entries;
    }

    /** After the input ends: send any remainder.  Then the batches sent
        are exactly `Batches` of everything consumed, and the counter holds
        the number of events consumed, failed sends included. */
    method Finish()
      requires Valid()
      modifies this, client`calls, counter
      ensures Sound() && consumed == old(consumed) && events == []
      ensures flushed == Batches(consumed)
      ensures counter.v == |consumed|
    {
      if |events| > 0 {
        Flush();
      }
      BatchesPartition(consumed);
    }
  }

  /** Fetch the object, convert its records, and send the entries in
      batches.  A failed fetch is the only error returned: a read or
      conversion error ends the input early and is only reported, and a
      failed send is only reported.  `processed` is the number of events
      counted as sent. */
  method ProcessLogs(
    fetched: Result<seq<ReadResult>, string>,
    fs: IncludedFields,
    parseTime: TimeParser,
    serialize: map<string, string> -> seq<byte>,
    client: LogsClient,
    config: LogConfig)
    returns (err: Option<Error>, processed: int)
    modifies client`calls
    ensures fetched.Failure? ==>
      err == Some(FetchObject(fetched.error)) && client.calls == old(client.calls)
    ensures fetched.Success? ==> err.None?
    ensures fetched.Success? ==>
      var events := ToEvents(Accepted(fetched.value, fs, parseTime), serialize);
      && processed == |events|
      && old(client.calls) <= client.calls
      && SentInOrder(client.calls[|old(client.calls)|..], Batches(events), config)
  {
    if fetched.Failure? {
      return Some(FetchObject(fetched.error)), 0;
    }
    var entries, readErr := ProcessRecords(fetched.value, fs, parseTime);
    // readErr is only reported; the entries before it are still sent.
    ghost var events := ToEvents(entries, serialize);
    var b := new Batcher(client, config);
    b.Consume(entries, serialize);
    assert b.consumed == events;
    b.Finish();
    assert b.flushed == Batches(events);
    processed := b.counter.Value();
    err := None;
  }
}
