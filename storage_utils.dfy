/** The back end's `processPdfUrl` (functions/src/utils/storageUtils.ts): turns a
    Firebase Storage gs:// reference into an HTTPS download URL, leaves HTTP(S)
    URLs and unrecognised text alone, and maps a missing URL to "". */
module StorageUtils {

  import opened JsValues
  import opened Text
  import opened DownloadUrls

  /** The characters that `.` in a JavaScript regular expression does not match. */
  predicate IsLineTerminator(c: char) {
    c == '\n' || c == '\r' || c == '\U{2028}' || c == '\U{2029}'
  }

  /** Length of the longest run of characters other than '/' starting at `from`
      (what a greedy `[^\/]+` consumes). */
  function NonSlashRun(s: string, from: nat): (n: nat)
    requires from <= |s|
    ensures from + n <= |s|
    ensures forall k :: from <= k < from + n ==> s[k] != '/'
    ensures from + n == |s| || s[from + n] == '/'
    decreases |s| - from
  {
    if from == |s| || s[from] == '/' then 0 else 1 + NonSlashRun(s, from + 1)
  }

  /** Length of the longest run of non-line-terminators starting at `from`
      (what a greedy `.+` consumes). */
  function LineRun(s: string, from: nat): (n: nat)
    requires from <= |s|
    ensures from + n <= |s|
    ensures forall k :: from <= k < from + n ==> !IsLineTerminator(s[k])
    ensures from + n == |s| || IsLineTerminator(s[from + n])
    decreases |s| - from
  {
    if from == |s| || IsLineTerminator(s[from]) then 0 else 1 + LineRun(s, from + 1)
  }

  /** The two capture groups of /gs:\/\/([^\/]+)\/(.+)/. */
  datatype GsMatch = GsMatch(bucket: string, filePath: string)

  /** The match of the pattern starting exactly at index `p`. The bucket group
      takes the whole run of non-'/' characters (a shorter bucket would be
      followed by a non-'/' character, so backtracking cannot help), and the
      path group takes everything up to the next line terminator. */
  function MatchAt(s: string, p: nat): (m: Option<GsMatch>)
    requires p <= |s|
    ensures m.Some? ==> StartsWith(s[p..], "gs://")
    ensures m.Some? ==> m.value.bucket != "" && '/' !in m.value.bucket
    ensures m.Some? ==> m.value.filePath != ""
    ensures m.Some? ==> forall k :: 0 <= k < |m.value.filePath| ==> !IsLineTerminator(m.value.filePath[k])
    // the text at p is gs://<bucket>/<filePath>
    ensures m.Some? ==>
      && p + 5 + |m.value.bucket| + 1 + |m.value.filePath| <= |s|
      && s[p + 5..p + 5 + |m.value.bucket|] == m.value.bucket
      && s[p + 5 + |m.value.bucket|] == '/'
      && s[p + 5 + |m.value.bucket| + 1..p + 5 + |m.value.bucket| + 1 + |m.value.filePath|] == m.value.filePath
  {
    if !StartsWith(s[p..], "gs://") then None
    else
      var b := NonSlashRun(s, p + 5);
      if b == 0 || p + 5 + b == |s| then None
      else
        var q := p + 5 + b + 1;
        var t := LineRun(s, q);
        if t == 0 then None
        else Some(GsMatch(s[p + 5..p + 5 + b], s[q..q + t]))
  }

  /** `s.match(pattern)` for the unanchored pattern: the leftmost match at or
      after index `p`. */
  function FirstMatch(s: string, p: nat): (m: Option<GsMatch>)
    requires p <= |s|
    ensures m.None? ==> forall q :: p <= q <= |s| ==> MatchAt(s, q).None?
    decreases |s| - p
  {
    match MatchAt(s, p)
    case Some(found) => Some(found)
    case None => if p == |s| then None else FirstMatch(s, p + 1)
  }

  /** No match starts anywhere from p to before q. */
  predicate NoMatchBetween(s: string, p: nat, q: nat)
    requires q <= |s|
  {
    forall j :: p <= j < q ==> MatchAt(s, j).None?
  }

  /** The search finds the leftmost match: the one at the first index from
      `p` on where the pattern matches. */
  lemma {:induction false} FirstMatchIsLeftmost(s: string, p: nat)
    requires p <= |s|
    ensures FirstMatch(s, p).Some? ==>
      exists q :: p <= q <= |s| && MatchAt(s, q) == FirstMatch(s, p) && NoMatchBetween(s, p, q)
    decreases |s| - p
  {
    if MatchAt(s, p).None? && p < |s| {
      FirstMatchIsLeftmost(s, p + 1);
      if FirstMatch(s, p + 1).Some? {
        var q :| p + 1 <= q <= |s| && MatchAt(s, q) == FirstMatch(s, p + 1) && NoMatchBetween(s, p + 1, q);
        assert NoMatchBetween(s, p, q);
      }
    } else if MatchAt(s, p).Some? {
      assert NoMatchBetween(s, p, p);
    }
  }

  function ProcessPdfUrl(url: string, encode: string -> string): (r: string)
    ensures url == "" ==> r == ""
    ensures StartsWith(url, "http://") || StartsWith(url, "https://") ==> r == url
    ensures !StartsWith(url, "gs://") ==> r == url
    ensures r != url ==> StartsWith(url, "gs://") && StartsWith(r, DownloadPrefix) && EndsWith(r, MediaSuffix)
  {
    if url == "" then ""
    else if StartsWith(url, "http://") || StartsWith(url, "https://") then url
    else if StartsWith(url, "gs://") then
      match FirstMatch(url, 0)
      case Some(m) =>
        DownloadUrlShape(m.bucket, m.filePath, encode);
        StartsWithPrefix(DownloadUrl(m.bucket, m.filePath, encode), DownloadPrefix + m.bucket + ObjectInfix, DownloadPrefix);
        DownloadUrl(m.bucket, m.filePath, encode)
      case None => url
    else url
  }

  lemma StartsWithPrefix(s: string, longer: string, shorter: string)
    requires StartsWith(s, longer) && StartsWith(longer, shorter)
    ensures StartsWith(s, shorter)
  {
    assert s[..|shorter|] == longer[..|shorter|];
  }

  /** A run of non-'/' characters ended by a '/' is what `[^\/]+` consumes. */
  lemma NonSlashRunIs(s: string, from: nat, n: nat)
    requires from + n < |s| && s[from + n] == '/'
    requires forall k :: from <= k < from + n ==> s[k] != '/'
    ensures NonSlashRun(s, from) == n
  {
    var b := NonSlashRun(s, from);
    assert from + b == |s| || s[from + b] == '/';
    assert b >= n;
  }

  /** A suffix free of line terminators is what `.+` consumes. */
  lemma LineRunIs(s: string, from: nat)
    requires from <= |s|
    requires forall k :: from <= k < |s| ==> !IsLineTerminator(s[k])
    ensures LineRun(s, from) == |s| - from
  {
  }

  /** A segment free of '/' followed by a '/' is what `[^\/]+` consumes. */
  lemma NonSlashRunOfSegment(head: string, segment: string, rest: string)
    requires '/' !in segment && |rest| > 0 && rest[0] == '/'
    ensures NonSlashRun(head + segment + rest, |head|) == |segment|
  {
    var s := head + segment + rest;
    forall k | |head| <= k < |head| + |segment|
      ensures s[k] != '/'
    {
      assert s[k] == segment[k - |head|];
    }
    assert s[|head| + |segment|] == rest[0];
    NonSlashRunIs(s, |head|, |segment|);
  }

  /** A one-line suffix is what `.+` consumes. */
  lemma LineRunOfSuffix(head: string, suffix: string)
    requires forall k :: 0 <= k < |suffix| ==> !IsLineTerminator(suffix[k])
    ensures LineRun(head + suffix, |head|) == |suffix|
  {
    var s := head + suffix;
    forall k | |head| <= k < |s|
      ensures !IsLineTerminator(s[k])
    {
      assert s[k] == suffix[k - |head|];
    }
    LineRunIs(s, |head|);
  }

  /** The text of gs://<bucket>/<path> around the two groups. */
  lemma PartsOfWellFormed(bucket: string, path: string)
    ensures var s := "gs://" + bucket + "/" + path;
      && StartsWith(s[0..], "gs://")
      && s[5..5 + |bucket|] == bucket
      && s[5 + |bucket| + 1..] == path
      && |s| == 5 + |bucket| + 1 + |path|
  {
    var s := "gs://" + bucket + "/" + path;
    assert s == "gs://" + bucket + "/" + path;
    assert s[0..] == s;
    assert s[..5] == "gs://";
    assert s[5..5 + |bucket|] == bucket;
    assert s[5 + |bucket| + 1..] == path;
  }

  /** The match at the start of a gs:// text, given the lengths of its runs. */
  lemma MatchAtStart(s: string, b: nat, t: nat)
    requires StartsWith(s, "gs://")
    requires 5 + b < |s| && NonSlashRun(s, 5) == b && b > 0
    requires LineRun(s, 5 + b + 1) == t && t > 0
    ensures MatchAt(s, 0) == Some(GsMatch(s[5..5 + b], s[5 + b + 1..5 + b + 1 + t]))
  {
    assert s[0..] == s;
  }

  /** gs://<bucket>/<path> matches at its start with exactly that bucket and path. */
  lemma MatchOfWellFormed(bucket: string, path: string)
    requires bucket != "" && '/' !in bucket
    requires path != "" && forall k :: 0 <= k < |path| ==> !IsLineTerminator(path[k])
    ensures MatchAt("gs://" + bucket + "/" + path, 0) == Some(GsMatch(bucket, path))
  {
    var s := "gs://" + bucket + "/" + path;
    assert s == "gs://" + bucket + ("/" + path);
    NonSlashRunOfSegment("gs://", bucket, "/" + path);
    LineRunOfSuffix("gs://" + bucket + "/", path);
    PartsOfWellFormed(bucket, path);
    MatchAtStart(s, |bucket|, |path|);
    var q := 5 + |bucket| + 1;
    assert s[q..q + |path|] == s[q..];
  }

  /** gs://<bucket>/<path>, with a bucket free of '/' and a one-line path,
      becomes the download URL of that bucket and path. */
  lemma ConvertsGsUrl(bucket: string, path: string, encode: string -> string)
    requires bucket != "" && '/' !in bucket
    requires path != "" && forall k :: 0 <= k < |path| ==> !IsLineTerminator(path[k])
    ensures ProcessPdfUrl("gs://" + bucket + "/" + path, encode) == DownloadUrl(bucket, path, encode)
  {
    var s := "gs://" + bucket + "/" + path;
    assert s == "gs://" + (bucket + "/" + path);
    StartsWithConcat("gs://", bucket + "/" + path);
    assert s[0] == 'g';
    HttpIsNotGs(s);
    MatchOfWellFormed(bucket, path);
  }

  /** No match of the pattern starts at or after `p` in a gs:// text whose only
      possible '/' after the scheme is its last character. */
  lemma {:induction false} NoMatchFrom(url: string, p: nat)
    requires StartsWith(url, "gs://")
    requires forall k :: 5 <= k < |url| - 1 ==> url[k] != '/'
    requires p <= |url|
    ensures FirstMatch(url, p) == None
    decreases |url| - p
  {
    assert url[0] == 'g' && url[1] == 's' && url[2] == ':';
    if StartsWith(url[p..], "gs://") {
      assert url[p] == url[p..][0] == 'g';
      assert url[p + 3] == url[p..][3] == '/';
      assert url[p + 4] == url[p..][4] == '/';
      assert p == 0;
      var b := NonSlashRun(url, 5);
      if b != 0 && 5 + b != |url| {
        assert url[5 + b] == '/';
        assert 5 + b == |url| - 1;
        assert LineRun(url, 5 + b + 1) == 0;
      }
    }
    assert MatchAt(url, p) == None;
    if p < |url| {
      NoMatchFrom(url, p + 1);
    }
  }

  /** A gs:// reference with no object path after the bucket ("gs://bucket",
      "gs://bucket/", "gs://") is returned unchanged. */
  lemma GsUrlWithoutPathUnchanged(url: string, encode: string -> string)
    requires StartsWith(url, "gs://")
    requires forall k :: 5 <= k < |url| - 1 ==> url[k] != '/'
    ensures ProcessPdfUrl(url, encode) == url
  {
    NoMatchFrom(url, 0);
  }
}
