/** cloudwatch.go: the event-size estimate, the sort-then-put of
    `SendEventsToCloudWatch`, and the find-or-create steps that make sure
    the log group and the log stream exist.  The CloudWatch Logs service is
    an abstract client whose state is the groups and streams it reports and
    the log of requests it has received. */
module CloudWatch {
  import opened Wrappers

  type byte = b: int | 0 <= b < 256

  /** One CloudWatch log event: the message bytes and a timestamp in
      milliseconds since the epoch. */
  datatype InputLogEvent = InputLogEvent(message: seq<byte>, timestamp: int)

  /** The destination: a log group and a log stream inside it. */
  datatype LogConfig = LogConfig(logGroupName: string, logStreamName: string)

  /** The body of one PutLogEvents request. */
  datatype PutLogEventsInput =
    PutLogEventsInput(logEvents: seq<InputLogEvent>, logGroupName: string, logStreamName: string)

  /** One request received by the service. */
  datatype ApiCall =
    | DescribeLogGroups
    | CreateLogGroup(groupName: string)
    | DescribeLogStreams(inGroup: string)
    | CreateLogStream(streamGroup: string, streamName: string)
    | PutLogEvents(input: PutLogEventsInput)

  /** The errors the service answers with.  Each kind of request fails
      with a fixed error or succeeds; `put(n)` is the answer to a
      PutLogEvents request that arrives after `n` earlier requests. */
  datatype Faults = Faults(
    describeGroups: Option<string>,
    createGroup: Option<string>,
    describeStreams: Option<string>,
    createStream: Option<string>,
    put: nat -> Option<string>)

  /** Per-event overhead the service adds to the message length. */
  const EventOverhead: int := 26

  /** The size the service charges for an event: its message length in
      bytes plus 26 bytes of overhead. */
  function EstimateEventSize(e: InputLogEvent): (n: int)
    ensures n == |e.message| + EventOverhead
  {
    |e.message| + EventOverhead
  }

  /** The twelve bytes of `test message` cost 38. */
  lemma EstimateEventSizeExample(e: InputLogEvent)
    requires e.message == [116, 101, 115, 116, 32, 109, 101, 115, 115, 97, 103, 101]
    ensures EstimateEventSize(e) == 38
  {
  }

  /** Timestamps never decrease along the sequence. */
  predicate SortedByTime(s: seq<InputLogEvent>)
  {
    forall i, j :: 0 <= i < j < |s| ==> s[i].timestamp <= s[j].timestamp
  }

  /** `call` is the PutLogEvents request for `batch`: addressed to the
      configured group and stream, carrying the batch's events in
      timestamp order. */
  predicate Delivers(call: ApiCall, batch: seq<InputLogEvent>, config: LogConfig)
  {
    && call.PutLogEvents?
    && call.input.logGroupName == config.logGroupName
    && call.input.logStreamName == config.logStreamName
    && SortedByTime(call.input.logEvents)
    && multiset(call.input.logEvents) == multiset(batch)
  }

  class LogsClient {
    /** The log groups DescribeLogGroups reports (its first page). */
    var groups: seq<string>
    /** The log streams DescribeLogStreams reports for each group. */
    var streams: map<string, seq<string>>
    /** Every request received so far, oldest first. */
    var calls: seq<ApiCall>
    const faults: Faults

    constructor(groups0: seq<string>, streams0: map<string, seq<string>>, faults0: Faults)
      ensures groups == groups0 && streams == streams0 && calls == [] && faults == faults0
    {
      groups := groups0;
      streams := streams0;
      calls := [];
      faults := faults0;
    }

    /** The streams of `group` as the service reports them. */
    function StreamsOf(group: string): seq<string>
      reads this
    {
      if group in streams then streams[group] else []
    }

    method DescribeGroups() returns (resp: Result<seq<string>, string>)
      modifies this`calls
      ensures calls == old(calls) + [DescribeLogGroups]
      ensures resp == if faults.describeGroups.Some? then Failure(faults.describeGroups.value) else Success(groups)
    {
      calls := calls + [DescribeLogGroups];
      if faults.describeGroups.Some? {
        resp := Failure(faults.describeGroups.value);
      } else {
        resp := Success(groups);
      }
    }

    method CreateGroup(name: string) returns (err: Option<string>)
      modifies this`calls, this`groups
      ensures calls == old(calls) + [CreateLogGroup(name)]
      ensures err == faults.createGroup
      ensures groups == if err.None? then old(groups) + [name] else old(groups)
    {
      calls := calls + [CreateLogGroup(name)];
      err := faults.createGroup;
      if err.None? {
        groups := groups + [name];
      }
    }

    method DescribeStreams(group: string) returns (resp: Result<seq<string>, string>)
      modifies this`calls
      ensures calls == old(calls) + [DescribeLogStreams(group)]
      ensures resp == if faults.describeStreams.Some? then Failure(faults.describeStreams.value) else Success(StreamsOf(group))
    {
      calls := calls + [DescribeLogStreams(group)];
      if faults.describeStreams.Some? {
        resp := Failure(faults.describeStreams.value);
      } else {
        resp := Success(StreamsOf(group));
      }
    }

    method CreateStream(group: string, stream: string) returns (err: Option<string>)
      modifies this`calls, this`streams
      ensures calls == old(calls) + [CreateLogStream(group, stream)]
      ensures err == faults.createStream
      ensures streams == if err.None? then old(streams)[group := old(StreamsOf(group)) + [stream]] else old(streams)
    {
      calls := calls + [CreateLogStream(group, stream)];
      err := faults.createStream;
      if err.None? {
        streams := streams[group := StreamsOf(group) + [stream]];
      }
    }

    method Put(input: PutLogEventsInput) returns (err: Option<string>)
      modifies this`calls
      ensures calls == old(calls) + [PutLogEvents(input)]
      ensures err == faults.put(|old(calls)|)
    {
      err := faults.put(|calls|);
      calls := calls + [PutLogEvents(input)];
    }
  }

  /** Exchange two neighbouring events; nothing else moves. */
  method SwapDown(a: array<InputLogEvent>, k: int)
    requires 0 < k < a.Length
    modifies a
    ensures a[k - 1] == old(a[k]) && a[k] == old(a[k - 1])
    ensures forall m | 0 <= m < a.Length && m != k - 1 && m != k :: a[m] == old(a[m])
    ensures multiset(a[..]) == multiset(old(a[..]))
  {
    a[k - 1], a[k] := a[k], a[k - 1];
  }

  /** One pass of insertion: move `a[i]` down past the larger timestamps
      before it, so that a sorted prefix of length `i` becomes a sorted
      prefix of length `i + 1`. */
  method InsertDown(a: array<InputLogEvent>, i: int)
    requires 0 <= i < a.Length
    requires SortedByTime(a[..i])
    modifies a
    ensures SortedByTime(a[..i + 1])
    ensures multiset(a[..]) == multiset(old(a[..]))
  {
    var j := i;
    while 0 < j && a[j].timestamp < a[j - 1].timestamp
      invariant 0 <= j <= i
      invariant forall m, n :: 0 <= m < n <= i && n != j ==> a[m].timestamp <= a[n].timestamp
      invariant 0 < j < i ==> a[j - 1].timestamp <= a[j + 1].timestamp
      invariant multiset(a[..]) == multiset(old(a[..]))
    {
      SwapDown(a, j);
      j := j - 1;
    }
  }

  /** Sort the batch in place by timestamp (the `sort.Slice` call). */
  method SortByTimestamp(a: array<InputLogEvent>)
    modifies a
    ensures SortedByTime(a[..])
    ensures multiset(a[..]) == multiset(old(a[..]))
  {
    var i := 0;
    while i < a.Length
      invariant 0 <= i <= a.Length
      invariant SortedByTime(a[..i])
      invariant multiset(a[..]) == multiset(old(a[..]))
    {
      InsertDown(a, i);
      i := i + 1;
    }
    assert a[..i] == a[..];
  }

  /** Sort the batch by timestamp and send it in one PutLogEvents request
      to the configured group and stream; the client's error is returned
      as it is. */
  method SendEventsToCloudWatch(client: LogsClient, config: LogConfig, events: array<InputLogEvent>)
    returns (err: Option<string>)
    modifies client`calls, events
    ensures SortedByTime(events[..])
    ensures multiset(events[..]) == multiset(old(events[..]))
    ensures client.calls == old(client.calls)
      + [PutLogEvents(PutLogEventsInput(events[..], config.logGroupName, config.logStreamName))]
    ensures Delivers(client.calls[|client.calls| - 1], old(events[..]), config)
    ensures err == client.faults.put(|old(client.calls)|)
  {
    SortByTimestamp(events);
    err := client.Put(PutLogEventsInput(events[..], config.logGroupName, config.logStreamName));
  }

  /** Look the group up among the described groups and create it when it
      is absent.  A failed describe returns its error before anything is
      created. */
  method EnsureLogGroupExists(client: LogsClient, name: string) returns (err: Option<string>)
    modifies client`calls, client`groups
    ensures client.faults.describeGroups.Some? ==>
      && err == client.faults.describeGroups
      && client.calls == old(client.calls) + [DescribeLogGroups]
      && client.groups == old(client.groups)
    ensures client.faults.describeGroups.None? && name in old(client.groups) ==>
      && err.None?
      && client.calls == old(client.calls) + [DescribeLogGroups]
      && client.groups == old(client.groups)
    ensures client.faults.describeGroups.None? && name !in old(client.groups) ==>
      && err == client.faults.createGroup
      && client.calls == old(client.calls) + [DescribeLogGroups, CreateLogGroup(name)]
      && client.groups == (if err.None? then old(client.groups) + [name] else old(client.groups))
    ensures err.None? ==> name in client.groups
  {
    var resp := client.DescribeGroups();
    if resp.Failure? {
      return Some(resp.error);
    }
    var logGroups := resp.value;
    var i := 0;
    while i < |logGroups|
      invariant 0 <= i <= |logGroups|
      invariant name !in logGroups[..i]
    {
      if logGroups[i] == name {
        return None;
      }
      assert logGroups[..i + 1] == logGroups[..i] + [logGroups[i]];
      i := i + 1;
    }
    assert logGroups[..i] == logGroups;
    err := client.CreateGroup(name);
    assert err.None? ==> client.groups[|client.groups| - 1] == name;
  }

  /** Look the stream up among the streams described for the group and
      create it when it is absent.  A failed describe returns its error
      before anything is created. */
  method EnsureLogStreamExists(client: LogsClient, group: string, stream: string)
    returns (err: Option<string>)
    modifies client`calls, client`streams
    ensures client.faults.describeStreams.Some? ==>
      && err == client.faults.describeStreams
      && client.calls == old(client.calls) + [DescribeLogStreams(group)]
      && client.streams == old(client.streams)
    ensures client.faults.describeStreams.None? && stream in old(client.StreamsOf(group)) ==>
      && err.None?
      && client.calls == old(client.calls) + [DescribeLogStreams(group)]
      && client.streams == old(client.streams)
    ensures client.faults.describeStreams.None? && stream !in old(client.StreamsOf(group)) ==>
      && err == client.faults.createStream
      && client.calls == old(client.calls) + [DescribeLogStreams(group), CreateLogStream(group, stream)]
      && client.streams == (if err.None? then old(client.streams)[group := old(client.StreamsOf(group)) + [stream]] else old(client.streams))
    ensures err.None? ==> stream in client.StreamsOf(group)
  {
    var resp := client.DescribeStreams(group);
    if resp.Failure? {
      return Some(resp.error);
    }
    var logStreams := resp.value;
    var i := 0;
    while i < |logStreams|
      invariant 0 <= i <= |logStreams|
      invariant stream !in logStreams[..i]
    {
      if logStreams[i] == stream {
        return None;
      }
      assert logStreams[..i + 1] == logStreams[..i] + [logStreams[i]];
      i := i + 1;
    }
    assert logStreams[..i] == logStreams;
    ghost var before := client.StreamsOf(group);
    err := client.CreateStream(group, stream);
    assert err.None? ==> client.StreamsOf(group) == before + [stream];
  }

  /** The group step ends without error: the describe succeeds and the
      group is either present or created. */
  predicate GroupStepSucceeds(faults: Faults, groups: seq<string>, group: string)
  {
    faults.describeGroups.None? && (group in groups || faults.createGroup.None?)
  }

  /** The requests the group step sends when its describe succeeds. */
  function GroupStepCalls(groups: seq<string>, group: string): (r: seq<ApiCall>)
    ensures |r| > 0 && r[0] == DescribeLogGroups
    ensures CreateLogGroup(group) in r <==> group !in groups
  {
    if group in groups then [DescribeLogGroups] else [DescribeLogGroups, CreateLogGroup(group)]
  }

  /** Make sure the configured group exists, then the configured stream in
      it.  An error from the group step is returned at once and the stream
      step is skipped. */
  method EnsureLogGroupAndLogStreamExists(client: LogsClient, config: LogConfig)
    returns (err: Option<string>)
    modifies client`calls, client`groups, client`streams
    ensures old(client.calls) <= client.calls
    ensures client.faults.describeGroups.Some? ==>
      && err == client.faults.describeGroups && client.calls == old(client.calls) + [DescribeLogGroups]
      && client.groups == old(client.groups) && client.streams == old(client.streams)
    ensures client.faults.describeGroups.None? && config.logGroupName !in old(client.groups)
            && client.faults.createGroup.Some? ==>
      && err == client.faults.createGroup
      && client.calls == old(client.calls) + [DescribeLogGroups, CreateLogGroup(config.logGroupName)]
      && client.groups == old(client.groups) && client.streams == old(client.streams)
    ensures (CreateLogGroup(config.logGroupName) in client.calls[|old(client.calls)|..]) <==>
      client.faults.describeGroups.None? && config.logGroupName !in old(client.groups)
    ensures DescribeLogStreams(config.logGroupName) in client.calls[|old(client.calls)|..] ==>
      config.logGroupName in client.groups
    ensures err.None? ==>
      config.logGroupName in client.groups && config.logStreamName in client.StreamsOf(config.logGroupName)
    ensures GroupStepSucceeds(client.faults, old(client.groups), config.logGroupName) ==>
      var group, stream := config.logGroupName, config.logStreamName;
      var groupCalls := GroupStepCalls(old(client.groups), group);
      && client.groups == (if group in old(client.groups) then old(client.groups) else old(client.groups) + [group])
      && (client.faults.describeStreams.Some? ==>
            && err == client.faults.describeStreams
            && client.calls == old(client.calls) + groupCalls + [DescribeLogStreams(group)]
            && client.streams == old(client.streams))
      && (client.faults.describeStreams.None? && stream in old(client.StreamsOf(group)) ==>
            && err.None?
            && client.calls == old(client.calls) + groupCalls + [DescribeLogStreams(group)]
            && client.streams == old(client.streams))
      && (client.faults.describeStreams.None? && stream !in old(client.StreamsOf(group)) ==>
            && err == client.faults.createStream
            && client.calls == old(client.calls) + groupCalls + [DescribeLogStreams(group), CreateLogStream(group, stream)]
            && client.streams == (if err.None? then old(client.streams)[group := old(client.StreamsOf(group)) + [stream]]
                                  else old(client.streams)))
  {
    ghost var start := client.calls;
    err := EnsureLogGroupExists(client, config.logGroupName);
    if err.Some? {
      return;
    }
    ghost var afterGroup := client.calls;
    err := EnsureLogStreamExists(client, config.logGroupName, config.logStreamName);
    assert client.calls[|start|..] == afterGroup[|start|..] + client.calls[|afterGroup|..];
  }
}
