/** `ParseS3URL` from utils.go: split an `s3://bucket/prefix` URL into its
    bucket and its key prefix. */
module S3Url {
  import opened Wrappers
  import opened Errors

  /** The scheme every accepted URL starts with. */
  const Scheme: string := "s3://"

  /** A parsed URL: the bucket name and the (possibly empty) key prefix. */
  datatype S3Location = S3Location(bucket: string, prefix: string)

  /** `strings.Index` for a one-character needle: the position of the first
      `c` in `s`, or -1 when `s` has none. */
  function IndexOf(s: string, c: char): (r: int)
    ensures -1 <= r < |s|
    ensures r == -1 <==> c !in s
    ensures 0 <= r ==> s[r] == c && c !in s[..r]
  {
    if |s| == 0 then -1
    else if s[0] == c then 0
    else
      var k := IndexOf(s[1..], c);
      assert s[1..][..k + 1] == s[1..k + 2] by { assert k + 1 <= |s[1..]|; }
      if k == -1 then -1 else k + 1
  }

  /** A prefix followed by the rest of the string is the string. */
  lemma PrefixThenRest(p: string, u: string)
    requires p <= u
    ensures u == p + u[|p|..]
  {
  }

  /** Cutting a string at a slash and putting the slash back gives the
      string. */
  lemma CutAtSlash(t: string, k: int)
    requires 0 <= k < |t| && t[k] == '/'
    ensures t == t[..k] + "/" + t[k + 1..]
  {
  }

  /** The first slash of `b + "/" + rest` is the one after `b` when `b`
      has none. */
  lemma FirstSlash(b: string, rest: string)
    requires '/' !in b
    ensures IndexOf(b + "/" + rest, '/') == |b|
  {
    var t := b + "/" + rest;
    assert t[|b|] == '/';
  }

  /** Strip the scheme, then split at the first `/`: the text before it is
      the bucket, everything after it is the prefix. */
  function ParseS3URL(url: string): (r: Result<S3Location, Error>)
    ensures !(Scheme <= url) ==> r == Failure(MissingS3Prefix)
    ensures Scheme <= url && '/' !in url[|Scheme|..] ==> r == Failure(NoSlashAfterBucket)
    ensures r.Success? <==> Scheme <= url && '/' in url[|Scheme|..]
    ensures r.Success? ==> Scheme + r.value.bucket + "/" + r.value.prefix == url
    ensures r.Success? ==> '/' !in r.value.bucket
  {
    if !(Scheme <= url) then Failure(MissingS3Prefix)
    else
      var trimmed := url[|Scheme|..];
      var splitPos := IndexOf(trimmed, '/');
      if splitPos == -1 then Failure(NoSlashAfterBucket)
      else
        var loc := S3Location(trimmed[..splitPos], trimmed[splitPos + 1..]);
        CutAtSlash(trimmed, splitPos);
        PrefixThenRest(Scheme, url);
        Success(loc)
  }

  /** Composing a URL from a slash-free bucket and any prefix, then parsing
      it, gives back that bucket and prefix: the parse is the inverse of the
      composition. */
  lemma ParseS3URLInverse(bucket: string, prefix: string)
    requires '/' !in bucket
    ensures ParseS3URL(Scheme + bucket + "/" + prefix) == Success(S3Location(bucket, prefix))
  {
    var rest := bucket + "/" + prefix;
    var url := Scheme + rest;
    assert Scheme + bucket + "/" + prefix == url;
    assert url[|Scheme|..] == rest;
    FirstSlash(bucket, prefix);
    assert rest[..|bucket|] == bucket && rest[|bucket| + 1..] == prefix;
  }

  /** Two successful parses are equal exactly when the URLs are: the parse
      loses nothing. */
  lemma ParseS3URLInjective(u: string, w: string)
    requires ParseS3URL(u).Success? && ParseS3URL(w).Success?
    ensures ParseS3URL(u) == ParseS3URL(w) <==> u == w
  {
  }

  /** `s3://mybucket/mykey` parses to bucket `mybucket`, prefix `mykey`. */
  lemma BucketAndKeyExample(url: string)
    requires url == "s3://mybucket/mykey"
    ensures ParseS3URL(url) == Success(S3Location("mybucket", "mykey"))
  {
    assert url == Scheme + "mybucket" + "/" + "mykey";
    ParseS3URLInverse("mybucket", "mykey");
  }

  /** The prefix keeps every later slash. */
  lemma NestedPrefixExample(url: string)
    requires url == "s3://logs/AWSLogs/elb/"
    ensures ParseS3URL(url) == Success(S3Location("logs", "AWSLogs/elb/"))
  {
    assert url == Scheme + "logs" + "/" + "AWSLogs/elb/";
    ParseS3URLInverse("logs", "AWSLogs/elb/");
  }

  /** The prefix may be empty. */
  lemma EmptyPrefixExample(url: string)
    requires url == "s3://logs/"
    ensures ParseS3URL(url) == Success(S3Location("logs", ""))
  {
    assert url == Scheme + "logs" + "/" + "";
    ParseS3URLInverse("logs", "");
  }

  /** A URL without the scheme is refused with the missing-prefix error. */
  lemma MissingSchemeExample(url: string)
    requires url == "mybucket/mykey"
    ensures ParseS3URL(url) == Failure(MissingS3Prefix)
  {
    assert url[..|Scheme|] != Scheme by { assert url[0] != Scheme[0]; }
  }

  /** The scheme followed by a slash-free bucket alone is refused with the
      no-slash error. */
  lemma BucketWithoutSlash(bucket: string)
    requires '/' !in bucket
    ensures ParseS3URL(Scheme + bucket) == Failure(NoSlashAfterBucket)
  {
    assert (Scheme + bucket)[|Scheme|..] == bucket;
  }

  /** `s3://mybucket` is refused with the no-slash error. */
  lemma NoSlashExample(url: string)
    requires url == "s3://mybucket"
    ensures ParseS3URL(url) == Failure(NoSlashAfterBucket)
  {
    var bucket := "mybucket";
    assert url == Scheme + bucket;
    assert forall i | 0 <= i < |bucket| :: bucket[i] != '/';
    BucketWithoutSlash(bucket);
  }
}
