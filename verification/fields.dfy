/** Field selection: the fixed 30-column schema of an application load
    balancer access log line, and the allow-list of columns to keep. */
module Fields {
  import opened Wrappers
  import opened Errors

  /** The column names, in the order the columns appear on a log line. */
  const FieldNames: seq<string> := [
    "type",
    "time",
    "elb",
    "client:port",
    "target:port",
    "request_processing_time",
    "target_processing_time",
    "response_processing_time",
    "elb_status_code",
    "target_status_code",
    "received_bytes",
    "sent_bytes",
    "request",
    "user_agent",
    "ssl_cipher",
    "ssl_protocol",
    "target_group_arn",
    "trace_id",
    "domain_name",
    "chosen_cert_arn",
    "matched_rule_priority",
    "request_creation_time",
    "actions_executed",
    "redirect_url",
    "error_reason",
    "target:port_list",
    "target_status_code_list",
    "classification",
    "classification_reason",
    "conn_trace_id"
  ]

  /** The schema as a set of names. */
  const Schema: set<string> := set j | 0 <= j < |FieldNames| :: FieldNames[j]

  /** No two columns share a name, so a name determines its column. */
  lemma FieldNamesDistinct()
    ensures |FieldNames| == 30
    ensures forall i, j :: 0 <= i < j < |FieldNames| ==> FieldNames[i] != FieldNames[j]
  {
  }

  /** The selected columns: the keys of `includedFieldsMap` (every value
      stored in that map is `true`, so the map is a set). */
  datatype IncludedFields = IncludedFields(included: set<string>)

  // ---------------------------------------------------------------------------
  // The string operations `NewFields` relies on.

  /** `unicode.IsSpace`: the ASCII white space characters, NEL, NBSP and the
      other characters with the Unicode White_Space property. */
  predicate IsSpace(c: char)
  {
    var n := c as int;
    (9 <= n <= 13) || n == 32 || n == 0x85 || n == 0xA0 || n == 0x1680
    || (0x2000 <= n <= 0x200A) || n == 0x2028 || n == 0x2029 || n == 0x202F
    || n == 0x205F || n == 0x3000
  }

  /** The length of the run of white space that starts `s`. */
  function LeadingSpaces(s: string): (n: nat)
    ensures n <= |s|
    ensures forall i :: 0 <= i < n ==> IsSpace(s[i])
    ensures n == |s| || !IsSpace(s[n])
  {
    if |s| > 0 && IsSpace(s[0]) then 1 + LeadingSpaces(s[1..]) else 0
  }

  /** `s` with its leading white space removed. */
  function TrimLeft(s: string): (r: string)
    ensures r == s[LeadingSpaces(s)..]
  {
    if |s| > 0 && IsSpace(s[0]) then TrimLeft(s[1..]) else s
  }

  /** `s` with its trailing white space removed. */
  function TrimRight(s: string): (r: string)
    ensures |r| <= |s| && r == s[..|r|]
    ensures forall i :: |r| <= i < |s| ==> IsSpace(s[i])
    ensures r == [] || !IsSpace(r[|r| - 1])
  {
    if |s| > 0 && IsSpace(s[|s| - 1]) then TrimRight(s[..|s| - 1]) else s
  }

  /** `strings.TrimSpace`: the longest infix of `s` that neither starts nor
      ends with white space, cut out of `s` between two runs of white space. */
  function TrimSpace(s: string): (r: string)
    ensures LeadingSpaces(s) + |r| <= |s|
    ensures r == s[LeadingSpaces(s)..LeadingSpaces(s) + |r|]
    ensures forall i :: LeadingSpaces(s) + |r| <= i < |s| ==> IsSpace(s[i])
    ensures r == [] || (!IsSpace(r[0]) && !IsSpace(r[|r| - 1]))
  {
    TrimRight(TrimLeft(s))
  }

  /** A string that already neither starts nor ends with white space is
      left as it is. */
  lemma TrimSpaceKeeps(s: string)
    requires s == [] || (!IsSpace(s[0]) && !IsSpace(s[|s| - 1]))
    ensures TrimSpace(s) == s
  {
  }

  /** Trimming twice is trimming once. */
  lemma TrimSpaceIdempotent(s: string)
    ensures TrimSpace(TrimSpace(s)) == TrimSpace(s)
  {
    TrimSpaceKeeps(TrimSpace(s));
  }

  /** `strings.Split(s, sep)` for a one-character separator: the pieces of
      `s` between separators, always at least one. */
  function Split(s: string, sep: char): (r: seq<string>)
    ensures |r| > 0
    decreases |s|
  {
    if |s| == 0 then [""]
    else
      var rest := Split(s[1..], sep);
      if s[0] == sep then [""] + rest else [[s[0]] + rest[0]] + rest[1..]
  }

  /** The pieces glued back together with the separator. */
  function Join(parts: seq<string>, sep: char): string
    decreases |parts|
  {
    if |parts| <= 1 then (if parts == [] then "" else parts[0])
    else parts[0] + [sep] + Join(parts[1..], sep)
  }

  /** A split has one piece more than the input has separators. */
  lemma {:induction false} SplitCount(s: string, sep: char)
    ensures |Split(s, sep)| == multiset(s)[sep] + 1
    decreases |s|
  {
    if |s| > 0 {
      assert s == [s[0]] + s[1..];
      SplitCount(s[1..], sep);
    }
  }

  /** Prepending a character to the first piece prepends it to the
      joined string. */
  lemma JoinExtendHead(c: char, parts: seq<string>, sep: char)
    requires |parts| > 0
    ensures Join([[c] + parts[0]] + parts[1..], sep) == [c] + Join(parts, sep)
  {
    var r := [[c] + parts[0]] + parts[1..];
    assert r[1..] == parts[1..];
  }

  /** Splitting loses nothing: joining the pieces gives the input back, and
      no piece contains the separator. */
  lemma {:induction false} SplitJoin(s: string, sep: char)
    ensures Join(Split(s, sep), sep) == s
    ensures forall p :: p in Split(s, sep) ==> sep !in p
    decreases |s|
  {
    if |s| > 0 {
      var rest := Split(s[1..], sep);
      SplitJoin(s[1..], sep);
      if s[0] == sep {
        assert Split(s, sep) == [""] + rest;
        assert s == [sep] + s[1..];
      } else {
        assert s == [s[0]] + s[1..];
        JoinExtendHead(s[0], rest, sep);
      }
    }
  }

  /** A string without the separator is a single piece. */
  lemma {:induction false} SplitNoSeparator(a: string, sep: char)
    requires sep !in a
    ensures Split(a, sep) == [a]
    decreases |a|
  {
    if |a| > 0 {
      SplitNoSeparator(a[1..], sep);
      assert a == [a[0]] + a[1..];
    }
  }

  /** A separator after a separator-free head cuts the head off as the
      first piece. */
  lemma {:induction false} SplitHead(a: string, sep: char, b: string)
    requires sep !in a
    ensures Split(a + [sep] + b, sep) == [a] + Split(b, sep)
    decreases |a|
  {
    var s := a + [sep] + b;
    if |a| == 0 {
      assert s[1..] == b;
    } else {
      assert s[1..] == a[1..] + [sep] + b;
      SplitHead(a[1..], sep, b);
      assert [a[0]] + a[1..] == a;
    }
  }

  /** The tokens of a non-empty configuration: split on commas, each piece
      trimmed of white space. */
  function Tokens(config: string): (toks: seq<string>)
    ensures |toks| == |Split(config, ',')|
    ensures forall k | 0 <= k < |toks| ::
      toks[k] == [] || (!IsSpace(toks[k][0]) && !IsSpace(toks[k][|toks[k]| - 1]))
  {
    var parts := Split(config, ',');
    seq(|parts|, k requires 0 <= k < |parts| => TrimSpace(parts[k]))
  }

  // ---------------------------------------------------------------------------
  // Resolving a configuration into a selection.

  /** Adds the tokens one by one to the selection `acc`, failing on the first
      token that is not a column name. */
  function Select(toks: seq<string>, acc: set<string>): (r: Result<IncludedFields, Error>)
    ensures r.Success? ==> acc <= r.value.included
    ensures r.Failure? ==> r.error.InvalidFieldName? && r.error.name in toks && r.error.name !in Schema
    decreases |toks|
  {
    if toks == [] then Success(IncludedFields(acc))
    else if toks[0] !in Schema then Failure(InvalidFieldName(toks[0]))
    else Select(toks[1..], acc + {toks[0]})
  }

  /** What `NewFields` returns: the empty string selects every column; any
      other configuration selects exactly its tokens, or fails on the first
      token that is not a column name. */
  function Resolve(config: string): (r: Result<IncludedFields, Error>)
    ensures config == "" ==> r.Success?
    ensures r.Failure? ==> r.error.InvalidFieldName? && r.error.name !in Schema
  {
    if config == "" then Success(IncludedFields(Schema)) else Select(Tokens(config), {})
  }

  /** `NewFields`: builds the set of valid names, then either copies all of
      it or adds the configured tokens one at a time, returning early on the
      first unknown one. */
  method NewFields(fieldsConfig: string) returns (r: Result<IncludedFields, Error>)
    ensures r == Resolve(fieldsConfig)
  {
    var valid: set<string> := {};
    var k := 0;
    while k < |FieldNames|
      invariant 0 <= k <= |FieldNames|
      invariant valid == set j | 0 <= j < k :: FieldNames[j]
    {
      valid := valid + {FieldNames[k]};
      k := k + 1;
    }
    if fieldsConfig == "" {
      assert valid == Schema;
      return Success(IncludedFields(valid));
    }
    var fields := Split(fieldsConfig, ',');
    ghost var toks := Tokens(fieldsConfig);
    var included: set<string> := {};
    var i := 0;
    while i < |fields|
      invariant 0 <= i <= |fields|
      invariant Select(toks, {}) == Select(toks[i..], included)
    {
      var field := TrimSpace(fields[i]);
      assert toks[i..][0] == field && toks[i..][1..] == toks[i + 1..];
      if field !in valid {
        return Failure(InvalidFieldName(field));
      }
      included := included + {field};
      i := i + 1;
    }
    r := Success(IncludedFields(included));
  }

  /** `GetFieldNameByIndex`: the name of column `index`, or an error naming
      the index when it is out of range. */
  function GetFieldNameByIndex(index: int): (r: Result<string, Error>)
    ensures r.Success? <==> 0 <= index < |FieldNames|
    ensures r.Success? ==> r.value == FieldNames[index] && r.value in Schema
    ensures r.Failure? ==> r.error == InvalidFieldIndex(index)
  {
    if index < 0 || index >= |FieldNames| then Failure(InvalidFieldIndex(index))
    else Success(FieldNames[index])
  }

  /** `IncludeField`: whether column `index` is selected; false, and never
      an error, when the index is out of range. */
  function IncludeField(fs: IncludedFields, index: int): (b: bool)
    ensures b <==> GetFieldNameByIndex(index).Success? && GetFieldNameByIndex(index).value in fs.included
  {
    if index < 0 || index >= |FieldNames| then false
    else FieldNames[index] in fs.included
  }

  // ---------------------------------------------------------------------------
  // Properties of the resolved selection.

  /** Everything `Select` can do: it succeeds exactly when every token is a
      column name and then selects `acc` plus the tokens; otherwise it fails
      on the first token that is not a column name. */
  lemma {:induction false} SelectSpec(toks: seq<string>, acc: set<string>)
    ensures Select(toks, acc).Success? <==> (forall k :: 0 <= k < |toks| ==> toks[k] in Schema)
    ensures Select(toks, acc).Success? ==>
              Select(toks, acc).value.included == acc + set k | 0 <= k < |toks| :: toks[k]
    ensures Select(toks, acc).Failure? ==>
              exists k :: 0 <= k < |toks| && toks[k] !in Schema
                && (forall j :: 0 <= j < k ==> toks[j] in Schema)
                && Select(toks, acc).error == InvalidFieldName(toks[k])
    decreases |toks|
  {
    if toks != [] && toks[0] in Schema {
      var rest := toks[1..];
      SelectSpec(rest, acc + {toks[0]});
      assert forall k :: 0 < k < |toks| ==> toks[k] == rest[k - 1];
      assert (set k | 0 <= k < |toks| :: toks[k]) == {toks[0]} + set k | 0 <= k < |rest| :: rest[k];
      if Select(toks, acc).Failure? {
        var k :| 0 <= k < |rest| && rest[k] !in Schema
                 && (forall j :: 0 <= j < k ==> rest[j] in Schema)
                 && Select(rest, acc + {toks[0]}).error == InvalidFieldName(rest[k]);
        assert toks[k + 1] == rest[k];
      }
    }
  }

  /** With the empty configuration every column is selected. */
  lemma ResolveEmptySelectsAll()
    ensures Resolve("").Success?
    ensures forall i :: 0 <= i < |FieldNames| ==> IncludeField(Resolve("").value, i)
  {
  }

  /** A non-empty configuration resolves exactly when all its tokens are
      column names, and then column `i` is selected exactly when its name is
      one of the tokens. */
  lemma ResolveSelectsTokens(config: string)
    requires config != ""
    ensures Resolve(config).Success? <==> forall t :: t in Tokens(config) ==> t in Schema
    ensures Resolve(config).Success? ==>
              forall i :: 0 <= i < |FieldNames| ==>
                (IncludeField(Resolve(config).value, i) <==> FieldNames[i] in Tokens(config))
  {
    var toks := Tokens(config);
    SelectSpec(toks, {});
    if Resolve(config).Success? {
      assert Resolve(config).value.included == set k | 0 <= k < |toks| :: toks[k];
    }
  }

  /** A rejected configuration names its first unknown (trimmed) token, and
      every token before it is a column name. */
  lemma ResolveRejectsFirstUnknown(config: string)
    requires Resolve(config).Failure?
    ensures config != ""
    ensures exists k :: 0 <= k < |Tokens(config)| && Tokens(config)[k] !in Schema
              && (forall j :: 0 <= j < k ==> Tokens(config)[j] in Schema)
              && Resolve(config).error == InvalidFieldName(Tokens(config)[k])
  {
    SelectSpec(Tokens(config), {});
  }

  /** Every selected name is a column name. */
  lemma ResolveWithinSchema(config: string)
    requires Resolve(config).Success?
    ensures Resolve(config).value.included <= Schema
  {
    if config != "" {
      var toks := Tokens(config);
      SelectSpec(toks, {});
      assert forall t :: t in Resolve(config).value.included ==> t in toks;
    }
  }

  /** A token given twice in a row selects what it selects once. */
  lemma {:induction false} SelectRepeatedToken(xs: seq<string>, t: string, ys: seq<string>, acc: set<string>)
    ensures Select(xs + [t, t] + ys, acc) == Select(xs + [t] + ys, acc)
    decreases |xs|
  {
    if xs == [] {
      assert ([t, t] + ys)[1..] == [t] + ys;
      assert ([t] + ys)[1..] == ys;
      if t in Schema {
        assert ([t] + ys)[0] == t;
        assert acc + {t} + {t} == acc + {t};
      }
    } else {
      assert (xs + [t, t] + ys)[1..] == xs[1..] + [t, t] + ys;
      assert (xs + [t] + ys)[1..] == xs[1..] + [t] + ys;
      SelectRepeatedToken(xs[1..], t, ys, acc + {xs[0]});
    }
  }

  /** Three separator-free pieces joined by the separator split back into
      those three pieces. */
  lemma SplitThree(a: string, b: string, c: string, sep: char)
    requires sep !in a && sep !in b && sep !in c
    ensures Split(a + [sep] + b + [sep] + c, sep) == [a, b, c]
  {
    SplitNoSeparator(c, sep);
    SplitHead(b, sep, c);
    assert a + [sep] + b + [sep] + c == a + [sep] + (b + [sep] + c);
    SplitHead(a, sep, b + [sep] + c);
  }

  /** Only the empty string selects everything: a blank configuration
      yields the empty token `''` and fails. */
  lemma BlankConfigurationFails(config: string)
    requires config == " "
    ensures Resolve(config) == Failure(InvalidFieldName(""))
  {
    assert Split(config, ',') == [config] by { SplitNoSeparator(config, ','); }
    assert TrimSpace(config) == "";
    assert Tokens(config) == [""];
    assert "" !in Schema;
  }

  /** A trailing comma also yields the empty token `''` and fails. */
  lemma TrailingCommaFails(config: string)
    requires config == "type,"
    ensures Resolve(config) == Failure(InvalidFieldName(""))
  {
    assert Split(config, ',') == ["type", ""] by {
      SplitHead("type", ',', "");
      assert "type" + [','] + "" == config;
    }
    assert TrimSpace("type") == "type" by { TrimSpaceKeeps("type"); }
    TokensOfTrimmedPieces(config, ["type", ""]);
    assert "type" in Schema by { assert FieldNames[0] == "type"; }
    assert "" !in Schema;
    var toks := ["type", ""];
    assert toks[1..] == [""];
  }

  /** A configuration whose comma-separated pieces need no trimming has
      those pieces as its tokens. */
  lemma TokensOfTrimmedPieces(config: string, parts: seq<string>)
    requires Split(config, ',') == parts
    requires forall k :: 0 <= k < |parts| ==> TrimSpace(parts[k]) == parts[k]
    ensures Tokens(config) == parts
  {
  }

  /** `"type,time,elb"` splits into three tokens that need no trimming. */
  lemma ThreeFieldTokens(config: string)
    requires config == "type,time,elb"
    ensures Tokens(config) == ["type", "time", "elb"]
  {
    assert Split(config, ',') == ["type", "time", "elb"] by {
      assert config == "type" + [','] + "time" + [','] + "elb";
      SplitThree("type", "time", "elb", ',');
    }
    var parts := Split(config, ',');
    assert parts[0] == "type" && parts[1] == "time" && parts[2] == "elb";
    assert TrimSpace("type") == "type" by { TrimSpaceKeeps("type"); }
    assert TrimSpace("time") == "time" by { TrimSpaceKeeps("time"); }
    assert TrimSpace("elb") == "elb" by { TrimSpaceKeeps("elb"); }
    var t := Tokens(config);
    assert t[0] == "type" && t[1] == "time" && t[2] == "elb";
  }

  /** The selection `"type,time,elb"` resolves to exactly those three
      names. */
  lemma ThreeFieldSelection(config: string)
    requires config == "type,time,elb"
    ensures Resolve(config) == Success(IncludedFields({"type", "time", "elb"}))
  {
    assert "type" in Schema && "time" in Schema && "elb" in Schema by {
      assert FieldNames[0] == "type" && FieldNames[1] == "time" && FieldNames[2] == "elb";
    }
    var toks := ["type", "time", "elb"];
    ThreeFieldTokens(config);
    assert toks[1..] == ["time", "elb"] && toks[2..] == ["elb"] && toks[3..] == [];
    assert {} + {"type"} + {"time"} + {"elb"} == {"type", "time", "elb"};
  }

  /** That selection includes columns 0, 1 and 2 and excludes column 3,
      `client:port`. */
  lemma ThreeFieldIncludes(fs: IncludedFields)
    requires fs == IncludedFields({"type", "time", "elb"})
    ensures IncludeField(fs, 0) && IncludeField(fs, 1) && IncludeField(fs, 2)
    ensures !IncludeField(fs, 3)
  {
    assert FieldNames[0] == "type" && FieldNames[1] == "time" && FieldNames[2] == "elb";
    assert FieldNames[3] == "client:port";
  }

  /** `"bogus_field"` is a single token that needs no trimming. */
  lemma SingleTokenNeedsNoTrim(config: string)
    requires config == "bogus_field"
    ensures Tokens(config) == [config]
  {
    assert Split(config, ',') == [config] by { SplitNoSeparator(config, ','); }
    assert TrimSpace(config) == config by { TrimSpaceKeeps(config); }
    var t := Tokens(config);
    assert t[0] == config;
  }

  /** An unknown name is rejected with an error quoting it. */
  lemma UnknownFieldRejected(config: string)
    requires config == "bogus_field"
    ensures Resolve(config) == Failure(InvalidFieldName("bogus_field"))
  {
    assert config !in Schema;
    SingleTokenNeedsNoTrim(config);
    assert Select([config], {}) == Failure(InvalidFieldName(config));
  }

  /** Column 0 is `type`, column 1 is `time`, and -1 and 30 are rejected
      with the index in the message. */
  lemma FieldNameByIndexExamples()
    ensures GetFieldNameByIndex(0) == Success("type")
    ensures GetFieldNameByIndex(1) == Success("time")
    ensures GetFieldNameByIndex(-1) == Failure(InvalidFieldIndex(-1))
    ensures GetFieldNameByIndex(30) == Failure(InvalidFieldIndex(30))
  {
  }
}
