/** The errors the core returns, one constructor per `fmt.Errorf` site, and
    the text each one renders to. */
module Errors {

  datatype Error =
    | InvalidFieldName(name: string)                  // fields.go:72
    | InvalidFieldIndex(index: int)                   // fields.go:82
    | InvalidLogFormat(expected: int, got: int)       // processor.go:183
    | TimestampParse(cause: string)                   // processor.go:187
    | ReadRecord(cause: string)                       // processor.go:168
    | FetchObject(cause: string)                      // processor.go:77
    | MissingS3Prefix                                 // utils.go:17
    | NoSlashAfterBucket                              // utils.go:22

  function DigitChar(d: nat): (c: char)
    requires d < 10
    ensures '0' <= c <= '9' && c as int - '0' as int == d
  {
    ['0', '1', '2', '3', '4', '5', '6', '7', '8', '9'][d]
  }

  /** The decimal digits of `n`, most significant first, as `%d` prints them. */
  function Decimal(n: nat): (s: string)
    ensures |s| > 0
    ensures forall i :: 0 <= i < |s| ==> '0' <= s[i] <= '9'
  {
    if n < 10 then [DigitChar(n)] else Decimal(n / 10) + [DigitChar(n % 10)]
  }

  /** The value a string of decimal digits denotes. */
  function DecimalValue(s: string): int
  {
    if s == [] then 0 else DecimalValue(s[..|s| - 1]) * 10 + (s[|s| - 1] as int - '0' as int)
  }

  /** `%d` on a Go int: a minus sign before the digits of a negative number. */
  function FormatInt(i: int): string
  {
    if i < 0 then "-" + Decimal(-i) else Decimal(i)
  }

  /** Reading back what `Decimal` prints gives the number it printed. */
  lemma {:induction false} DecimalRoundTrip(n: nat)
    ensures DecimalValue(Decimal(n)) == n
  {
    if n >= 10 {
      DecimalRoundTrip(n / 10);
      var s := Decimal(n / 10) + [DigitChar(n % 10)];
      assert s[..|s| - 1] == Decimal(n / 10);
    }
  }

  /** Which of the eight kinds an error is. */
  function KindOf(e: Error): nat
  {
    match e
    case InvalidFieldName(_) => 0
    case InvalidFieldIndex(_) => 1
    case InvalidLogFormat(_, _) => 2
    case TimestampParse(_) => 3
    case ReadRecord(_) => 4
    case FetchObject(_) => 5
    case MissingS3Prefix => 6
    case NoSlashAfterBucket => 7
  }

  /** The kind of error a text announces, read off the characters at which
      the eight formats first differ. */
  function MessageKind(m: string): nat
    requires |m| > 16
  {
    if m[0] == 'e' then (if m[6] == 'p' then 3 else 4)
    else if m[0] == 'f' then 5
    else if m[8] == 'l' then 2
    else if m[8] == 'S' then (if m[16] == 'm' then 6 else 7)
    else if m[14] == 'n' then 0 else 1
  }

  /** The start both S3 URL errors share. */
  const S3UrlHead := "invalid S3 URL, "

  /** The fixed text each format starts with, before its first verb. */
  function Head(e: Error): (h: string)
    ensures |h| > 16
  {
    match e
    case InvalidFieldName(_) => "invalid field name '"
    case InvalidFieldIndex(_) => "invalid field index "
    case InvalidLogFormat(_, _) => "invalid log format: expected "
    case TimestampParse(_) => "error parsing timestamp: "
    case ReadRecord(_) => "error reading a record: "
    case FetchObject(_) => "failed to get object: "
    case MissingS3Prefix => S3UrlHead + "missing 's3://' prefix"
    case NoSlashAfterBucket => S3UrlHead + "no '/' found after bucket name"
  }

  /** The rest of the text: the values the format carries, with the fixed
      text between and after them. */
  function Detail(e: Error): string
  {
    match e
    case InvalidFieldName(name) => name + "' provided"
    case InvalidFieldIndex(index) => FormatInt(index)
    case InvalidLogFormat(expected, got) => FormatInt(expected) + " fields, got " + FormatInt(got)
    case TimestampParse(cause) => cause
    case ReadRecord(cause) => cause
    case FetchObject(cause) => cause
    case MissingS3Prefix => ""
    case NoSlashAfterBucket => ""
  }

  /** The text of `err.Error()` for each error: the format's head, then its
      detail. */
  function Message(e: Error): (m: string)
    ensures |m| > 16 && |Head(e)| <= |m| && m[..|Head(e)|] == Head(e)
  {
    Head(e) + Detail(e)
  }

  /** The text the unit tests expect for a rejected field name. */
  lemma InvalidFieldNameMessage()
    ensures Message(InvalidFieldName("invalid_field")) == "invalid field name 'invalid_field' provided"
  {
  }

  /** The texts the unit tests expect for the out-of-range indices -1 and 30. */
  lemma InvalidFieldIndexMessages()
    ensures Message(InvalidFieldIndex(-1)) == "invalid field index -1"
    ensures Message(InvalidFieldIndex(30)) == "invalid field index 30"
  {
    assert FormatInt(-1) == "-1";
    assert FormatInt(30) == "30";
  }

  /** A 29-token line is reported with both counts. */
  lemma InvalidLogFormatMessage()
    ensures Message(InvalidLogFormat(30, 29)) == "invalid log format: expected 30 fields, got 29"
  {
  }

  /** A head announces its kind, whatever follows it. */
  lemma HeadAnnouncesKind(e: Error, rest: string)
    ensures MessageKind(Head(e) + rest) == KindOf(e)
  {
    var m := Head(e) + rest;
    match e
    case InvalidFieldName(_) =>
      assert m[0] == 'i' && m[8] == 'f' && m[14] == 'n';
    case InvalidFieldIndex(_) =>
      assert m[0] == 'i' && m[8] == 'f' && m[14] == 'i';
    case InvalidLogFormat(_, _) =>
      assert m[0] == 'i' && m[8] == 'l';
    case TimestampParse(_) =>
      assert m[0] == 'e' && m[6] == 'p';
    case ReadRecord(_) =>
      assert m[0] == 'e' && m[6] == 'r';
    case FetchObject(_) =>
      assert m[0] == 'f';
    case MissingS3Prefix =>
      assert m[0] == 'i' && m[8] == 'S' && m[16] == 'm';
    case NoSlashAfterBucket =>
      assert m[0] == 'i' && m[8] == 'S' && m[16] == 'n';
  }

  /** Each text announces the kind of its error. */
  lemma MessageAnnouncesKind(e: Error)
    ensures MessageKind(Message(e)) == KindOf(e)
  {
    HeadAnnouncesKind(e, Detail(e));
  }

  /** Distinct numbers print distinct digits. */
  lemma DecimalInjective(a: nat, b: nat)
    requires Decimal(a) == Decimal(b)
    ensures a == b
  {
    DecimalRoundTrip(a);
    DecimalRoundTrip(b);
  }

  /** `%d` starts with a minus sign exactly for a negative number. */
  lemma FormatIntSign(i: int)
    ensures |FormatInt(i)| > 0 && (FormatInt(i)[0] == '-' <==> i < 0)
  {
    if i >= 0 {
      var d := Decimal(i);
      assert '0' <= d[0] <= '9';
    }
  }

  /** `%d` is one-to-one: the sign and then the digits read back as the
      number. */
  lemma FormatIntInjective(i: int, j: int)
    requires FormatInt(i) == FormatInt(j)
    ensures i == j
  {
    FormatIntSign(i);
    FormatIntSign(j);
    if i < 0 {
      assert Decimal(-i) == FormatInt(i)[1..];
      assert Decimal(-j) == FormatInt(j)[1..];
      DecimalInjective(-i, -j);
    } else {
      DecimalInjective(i, j);
    }
  }

  /** The separator starts right after the word. */
  lemma SeparatorAt(w: string, sep: string, t: string)
    requires |sep| > 0
    ensures (w + sep + t)[|w|] == sep[0]
  {
  }

  /** Two texts that each put a blank-free word before the same separator,
      which starts with a blank, agree only if the words and the tails
      agree. */
  lemma SplitAtBlank(w1: string, w2: string, sep: string, t1: string, t2: string)
    requires ' ' !in w1 && ' ' !in w2
    requires |sep| > 0 && sep[0] == ' '
    requires w1 + sep + t1 == w2 + sep + t2
    ensures w1 == w2 && t1 == t2
  {
    var x, y := w1 + sep + t1, w2 + sep + t2;
    if |w1| < |w2| {
      SeparatorAt(w1, sep, t1);
      assert false;
    } else if |w2| < |w1| {
      SeparatorAt(w2, sep, t2);
      assert false;
    } else {
      assert w1 == x[..|w1|] && w2 == y[..|w2|];
      assert t1 == x[|w1| + |sep|..] && t2 == y[|w2| + |sep|..];
    }
  }

  /** `%d` prints no blank. */
  lemma FormatIntHasNoBlank(i: int)
    ensures ' ' !in FormatInt(i)
  {
    var d := Decimal(if i < 0 then -i else i);
    assert forall k | 0 <= k < |d| :: d[k] != ' ';
    if i < 0 {
      assert FormatInt(i) == "-" + d;
    }
  }

  /** The two counts of a log-format error can be read back from its text. */
  lemma LogFormatMessageInjective(e1: int, g1: int, e2: int, g2: int)
    requires Message(InvalidLogFormat(e1, g1)) == Message(InvalidLogFormat(e2, g2))
    ensures e1 == e2 && g1 == g2
  {
    var m1, m2 := Message(InvalidLogFormat(e1, g1)), Message(InvalidLogFormat(e2, g2));
    assert Detail(InvalidLogFormat(e1, g1)) == m1[29..];
    assert Detail(InvalidLogFormat(e2, g2)) == m2[29..];
    FormatIntHasNoBlank(e1);
    FormatIntHasNoBlank(e2);
    SplitAtBlank(FormatInt(e1), FormatInt(e2), " fields, got ", FormatInt(g1), FormatInt(g2));
    FormatIntInjective(e1, e2);
    FormatIntInjective(g1, g2);
  }

  /** Distinct errors render to distinct texts: the text determines the
      kind of the error and every value it carries. */
  lemma MessageInjective(a: Error, b: Error)
    requires Message(a) == Message(b)
    ensures a == b
  {
    var m := Message(a);
    MessageAnnouncesKind(a);
    MessageAnnouncesKind(b);
    match a
    case InvalidFieldName(n) =>
      assert n == m[20..|m| - 10] == b.name;
    case InvalidFieldIndex(i) =>
      assert FormatInt(i) == m[20..] == FormatInt(b.index);
      FormatIntInjective(i, b.index);
    case InvalidLogFormat(e, g) =>
      LogFormatMessageInjective(e, g, b.expected, b.got);
    case TimestampParse(c) =>
      assert c == m[25..] == b.cause;
    case ReadRecord(c) =>
      assert c == m[24..] == b.cause;
    case FetchObject(c) =>
      assert c == m[22..] == b.cause;
    case MissingS3Prefix =>
    case NoSlashAfterBucket =>
  }
}
