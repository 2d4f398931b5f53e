/** processor.go, first half: turning a tokenized access-log record into a
    log entry (`recordToLogEntry`) and reading records until the first
    failure (`processRecords`).  The space-separated tokenizer is not part
    of this model: the input is the sequence of what it returns, a record
    or a read error, and end of input is the end of that sequence. */
module Records {
  import opened Wrappers
  import opened Errors
  import opened Fields

  /** A converted record: the selected columns by name, and the time of the
      request in milliseconds since the epoch. */
  datatype LogEntry = LogEntry(data: map<string, string>, timestamp: int)

  /** RFC 3339 parsing followed by truncation to milliseconds: the
      timestamp, or the parser's error text. */
  type TimeParser = string -> Result<int, string>

  /** What one read of the tokenizer yields. */
  datatype ReadResult = Record(fields: seq<string>) | ReadFailure(cause: string)

  /** The selected columns of a full-width record, keyed by column name:
      exactly the names whose index the selection includes, each with the
      value at that index. */
  function Project(record: seq<string>, fs: IncludedFields): (data: map<string, string>)
    requires |record| == |FieldNames|
    ensures forall i | 0 <= i < |FieldNames| :: FieldNames[i] in data <==> IncludeField(fs, i)
    ensures forall i | 0 <= i < |FieldNames| && IncludeField(fs, i) :: data[FieldNames[i]] == record[i]
    ensures data.Keys <= Schema
  {
    FieldNamesDistinct();
    map i | 0 <= i < |FieldNames| && IncludeField(fs, i) :: FieldNames[i] := record[i]
  }

  /** Check the width, parse the timestamp at column 1, then keep the
      selected columns. */
  function RecordToLogEntry(record: seq<string>, fs: IncludedFields, parseTime: TimeParser)
    : (r: Result<LogEntry, Error>)
    ensures |record| != |FieldNames| ==> r == Failure(InvalidLogFormat(|FieldNames|, |record|))
    ensures |record| == |FieldNames| && parseTime(record[1]).Failure? ==>
      r == Failure(TimestampParse(parseTime(record[1]).error))
    ensures r.Success? <==> |record| == |FieldNames| && parseTime(record[1]).Success?
    ensures r.Success? ==> r.value.timestamp == parseTime(record[1]).value
    ensures r.Success? ==>
      forall i | 0 <= i < |FieldNames| :: FieldNames[i] in r.value.data <==> IncludeField(fs, i)
    ensures r.Success? ==>
      forall i | 0 <= i < |FieldNames| && IncludeField(fs, i) :: r.value.data[FieldNames[i]] == record[i]
    ensures r.Success? ==> r.value.data.Keys <= Schema
  {
    if |record| != |FieldNames| then
      Failure(InvalidLogFormat(|FieldNames|, |record|))
    else
      var ts := parseTime(record[1]);
      if ts.Failure? then Failure(TimestampParse(ts.error))
      else Success(LogEntry(Project(record, fs), ts.value))
  }

  /** With every column selected, a record whose timestamp parses keeps its
      `request` column (index 12) under that name. */
  lemma RequestColumnKept(record: seq<string>, parseTime: TimeParser)
    requires |record| == 30 && parseTime(record[1]).Success?
    ensures var r := RecordToLogEntry(record, IncludedFields(Schema), parseTime);
      && r.Success?
      && "request" in r.value.data && r.value.data["request"] == record[12]
      && r.value.timestamp == parseTime(record[1]).value
  {
    var name := FieldNames[12];
    assert name == "request";
    assert name in Schema;
    assert IncludeField(IncludedFields(Schema), 12);
  }

  /** The result of converting one read. */
  function Outcome(read: ReadResult, fs: IncludedFields, parseTime: TimeParser)
    : (r: Result<LogEntry, Error>)
    ensures read.ReadFailure? ==> r == Failure(ReadRecord(read.cause))
    ensures r.Success? ==> read.Record? && |read.fields| == |FieldNames| && r.value.data.Keys <= Schema
    ensures r.Failure? ==> r.error.ReadRecord? || r.error.InvalidLogFormat? || r.error.TimestampParse?
    ensures read.Record? && r.Failure? ==> r.error.InvalidLogFormat? || r.error.TimestampParse?
  {
    match read
    case ReadFailure(cause) => Failure(ReadRecord(cause))
    case Record(fields) => RecordToLogEntry(fields, fs, parseTime)
  }

  /** The entries of the results before the first failure, in input order. */
  function Accepted(results: seq<ReadResult>, fs: IncludedFields, parseTime: TimeParser)
    : seq<LogEntry>
  {
    if |results| == 0 then []
    else
      var o := Outcome(results[0], fs, parseTime);
      if o.Failure? then [] else [o.value] + Accepted(results[1..], fs, parseTime)
  }

  /** The failure that stops the reading, if any. */
  function FirstFailure(results: seq<ReadResult>, fs: IncludedFields, parseTime: TimeParser)
    : Option<Error>
  {
    if |results| == 0 then None
    else
      var o := Outcome(results[0], fs, parseTime);
      if o.Failure? then Some(o.error) else FirstFailure(results[1..], fs, parseTime)
  }

  /** `Accepted` is a prefix of successful conversions in input order; it
      covers the whole input exactly when there is no failure, and
      otherwise the read right after it is the failure. */
  lemma {:induction false} AcceptedSpec(results: seq<ReadResult>, fs: IncludedFields, parseTime: TimeParser)
    ensures |Accepted(results, fs, parseTime)| <= |results|
    ensures forall k | 0 <= k < |Accepted(results, fs, parseTime)| ::
      Outcome(results[k], fs, parseTime) == Success(Accepted(results, fs, parseTime)[k])
    ensures FirstFailure(results, fs, parseTime).None? <==> |Accepted(results, fs, parseTime)| == |results|
    ensures FirstFailure(results, fs, parseTime).Some? ==>
      Outcome(results[|Accepted(results, fs, parseTime)|], fs, parseTime) == Failure(FirstFailure(results, fs, parseTime).value)
  {
    if |results| > 0 && Outcome(results[0], fs, parseTime).Success? {
      AcceptedSpec(results[1..], fs, parseTime);
      var rest := Accepted(results[1..], fs, parseTime);
      assert Accepted(results, fs, parseTime) == [Outcome(results[0], fs, parseTime).value] + rest;
      forall k | 0 < k < |Accepted(results, fs, parseTime)|
        ensures Outcome(results[k], fs, parseTime) == Success(Accepted(results, fs, parseTime)[k])
      {
        assert results[1..][k - 1] == results[k];
      }
    }
  }

  /** A prefix of successful conversions that runs to the end of the input
      or up to a failure is `Accepted`: the stopping rule leaves no
      choice. */
  lemma {:induction false} AcceptedUnique(results: seq<ReadResult>, entries: seq<LogEntry>, fs: IncludedFields, parseTime: TimeParser)
    requires |entries| <= |results|
    requires forall k | 0 <= k < |entries| :: Outcome(results[k], fs, parseTime) == Success(entries[k])
    requires |entries| < |results| ==> Outcome(results[|entries|], fs, parseTime).Failure?
    ensures entries == Accepted(results, fs, parseTime)
    ensures FirstFailure(results, fs, parseTime) ==
      if |entries| < |results| then Some(Outcome(results[|entries|], fs, parseTime).error) else None
  {
    if |entries| > 0 {
      assert Outcome(results[0], fs, parseTime) == Success(entries[0]);
      forall k | 0 <= k < |entries[1..]|
        ensures Outcome(results[1..][k], fs, parseTime) == Success(entries[1..][k])
      {
        assert results[1..][k] == results[k + 1];
      }
      AcceptedUnique(results[1..], entries[1..], fs, parseTime);
      assert entries == [entries[0]] + entries[1..];
    }
  }

  /** Read and convert records in order, emitting each entry, and stop at
      the first read or conversion error.  Entries emitted before the error
      stay emitted; reaching the end of the input is not an error. */
  method ProcessRecords(results: seq<ReadResult>, fs: IncludedFields, parseTime: TimeParser)
    returns (entries: seq<LogEntry>, err: Option<Error>)
    ensures |entries| <= |results|
    ensures forall k | 0 <= k < |entries| :: Outcome(results[k], fs, parseTime) == Success(entries[k])
    ensures err.None? <==> |entries| == |results|
    ensures err.Some? ==> Outcome(results[|entries|], fs, parseTime) == Failure(err.value)
    ensures entries == Accepted(results, fs, parseTime) && err == FirstFailure(results, fs, parseTime)
  {
    entries := [];
    var i := 0;
    while i < |results|
      invariant 0 <= i <= |results| && |entries| == i
      invariant forall k | 0 <= k < i :: Outcome(results[k], fs, parseTime) == Success(entries[k])
    {
      match results[i]
      case ReadFailure(cause) =>
        err := Some(ReadRecord(cause));
        AcceptedUnique(results, entries, fs, parseTime);
        return;
      case Record(fields) =>
        var entry := RecordToLogEntry(fields, fs, parseTime);
        if entry.Failure? {
          err := Some(entry.error);
          AcceptedUnique(results, entries, fs, parseTime);
          return;
        }
        entries := entries + [entry.value];
      i := i + 1;
    }
    err := None;
    AcceptedUnique(results, entries, fs, parseTime);
  }
}
