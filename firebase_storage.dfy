/** The web client's Firebase Storage helpers (src/utils/firebaseStorage.ts):
    recognising gs:// references, converting them to download URLs through a
    URL parser, and `processPdfUrl`, which accepts any value. */
module FirebaseStorage {

  import opened JsValues
  import opened Text
  import opened DownloadUrls
  import StorageUtils

  /** What `new URL(u)` exposes to the converter. The parser is a parameter
      returning None where the constructor throws. */
  datatype ParsedUrl = ParsedUrl(hostname: string, pathname: string)

  /** The characters `String.prototype.trim` removes: white space and line
      terminators. */
  predicate IsJsWhitespace(c: char) {
    c == ' ' || c == '\t' || c == '\n' || c == '\r' || c == '\U{000B}' || c == '\U{000C}'
    || c == '\U{00A0}' || c == '\U{FEFF}' || c == '\U{1680}'
    || ('\U{2000}' <= c <= '\U{200A}')
    || c == '\U{2028}' || c == '\U{2029}' || c == '\U{202F}' || c == '\U{205F}' || c == '\U{3000}'
  }

  /** `!s || s.trim() === ''` */
  predicate IsBlank(s: string) {
    forall k :: 0 <= k < |s| ==> IsJsWhitespace(s[k])
  }

  /** `pathname.substring(1)`: the pathname without its first character. */
  function DropLeadingChar(pathname: string): string {
    if |pathname| >= 1 then pathname[1..] else ""
  }

  /** The conversion falls back to its input: the parser threw or found no bucket. */
  predicate FallsBack(gsUrl: string, parseUrl: string -> Option<ParsedUrl>) {
    parseUrl(gsUrl).None? || IsBlank(parseUrl(gsUrl).value.hostname)
  }

  function ConvertGsUrlToDownloadUrl(gsUrl: string, parseUrl: string -> Option<ParsedUrl>,
                                     encode: string -> string): (r: string)
    ensures StartsWith(gsUrl, "http://") || StartsWith(gsUrl, "https://") ==> r == gsUrl
    ensures !StartsWith(gsUrl, "gs://") ==> r == gsUrl
    ensures StartsWith(gsUrl, "gs://") && FallsBack(gsUrl, parseUrl) ==> r == gsUrl
    ensures StartsWith(gsUrl, "gs://") && !FallsBack(gsUrl, parseUrl) ==>
      var u := parseUrl(gsUrl).value;
      && StartsWith(r, DownloadPrefix + u.hostname + ObjectInfix)
      && EndsWith(r, MediaSuffix)
      && r == DownloadUrl(u.hostname, DropLeadingChar(u.pathname), encode)
  {
    HttpIsNotGs(gsUrl);
    if StartsWith(gsUrl, "http://") || StartsWith(gsUrl, "https://") then gsUrl
    else if !StartsWith(gsUrl, "gs://") then gsUrl
    else
      match parseUrl(gsUrl)
      case None => gsUrl
      case Some(u) =>
        var bucket := u.hostname;
        var path := DropLeadingChar(u.pathname);
        if IsBlank(bucket) then gsUrl
        else
          DownloadUrlShape(bucket, path, encode);
          DownloadUrl(bucket, path, encode)
  }

  function IsFirebaseStorageGsUrl(url: Value): bool {
    url.Str? && StartsWith(url.s, "gs://")
  }

  function ProcessPdfUrl(url: Value, parseUrl: string -> Option<ParsedUrl>,
                         encode: string -> string): (r: string)
    ensures !Truthy(url) || !url.Str? ==> r == ""
    ensures IsFirebaseStorageGsUrl(url) ==> r == ConvertGsUrlToDownloadUrl(url.s, parseUrl, encode)
    ensures url.Str? && !IsFirebaseStorageGsUrl(url) ==> r == url.s
  {
    if !Truthy(url) || !url.Str? then ""
    else if IsFirebaseStorageGsUrl(url) then ConvertGsUrlToDownloadUrl(url.s, parseUrl, encode)
    else url.s
  }

  /** `processPdfUrl` hands a non-empty string back unchanged exactly when it is
      not a gs:// reference or its conversion falls back. */
  lemma ProcessPdfUrlUnchangedExactly(s: string, parseUrl: string -> Option<ParsedUrl>,
                                      encode: string -> string)
    requires s != ""
    ensures ProcessPdfUrl(Str(s), parseUrl, encode) == s
        <==> !StartsWith(s, "gs://") || FallsBack(s, parseUrl)
  {
    if StartsWith(s, "gs://") && !FallsBack(s, parseUrl) {
      var u := parseUrl(s).value;
      DownloadUrlIsNotGs(u.hostname, DropLeadingChar(u.pathname), encode);
    }
  }

  /** The gs:// inputs of the unit tests are recognised. */
  lemma GsRecognitionExamples()
    ensures IsFirebaseStorageGsUrl(Str("gs://bucket-name/path/file.pdf"))
    ensures IsFirebaseStorageGsUrl(Str("gs://my-bucket/documents/test.pdf"))
  {
    assert "gs://bucket-name/path/file.pdf"[..5] == "gs://";
    assert "gs://my-bucket/documents/test.pdf"[..5] == "gs://";
  }

  /** The other inputs of the unit tests are not. */
  lemma NonGsRecognitionExamples()
    ensures !IsFirebaseStorageGsUrl(Str("https://example.com/file.pdf"))
    ensures !IsFirebaseStorageGsUrl(Str("http://example.com/file.pdf"))
    ensures !IsFirebaseStorageGsUrl(Str("file.pdf"))
    ensures !IsFirebaseStorageGsUrl(Str(""))
    ensures !IsFirebaseStorageGsUrl(Null)
    ensures !IsFirebaseStorageGsUrl(Num(123.0))
  {
    assert "https://example.com/file.pdf"[0] == 'h';
    assert "http://example.com/file.pdf"[0] == 'h';
    assert "file.pdf"[0] == 'f';
  }

  /** "gs://" has no host, so whatever the parser makes of it (an empty host
      or an exception) it comes back unchanged. */
  lemma BareSchemeUnchanged(parseUrl: string -> Option<ParsedUrl>, encode: string -> string)
    requires parseUrl("gs://").None? || parseUrl("gs://").value.hostname == ""
    ensures ConvertGsUrlToDownloadUrl("gs://", parseUrl, encode) == "gs://"
    ensures ProcessPdfUrl(Str("gs://"), parseUrl, encode) == "gs://"
  {
    assert StartsWith("gs://", "gs://");
  }

  /** gs://<bucket>/<path> becomes the download URL of that bucket and of
      `parsedPath` whenever the URL parser reports the bucket as host and
      "/<parsedPath>" as pathname; `parsedPath` is `path` itself when the
      parser leaves the path unencoded. */
  lemma ConvertsParsedPathname(bucket: string, path: string, parsedPath: string,
                               parseUrl: string -> Option<ParsedUrl>, encode: string -> string)
    requires !IsBlank(bucket)
    requires parseUrl("gs://" + bucket + "/" + path) == Some(ParsedUrl(bucket, "/" + parsedPath))
    ensures ProcessPdfUrl(Str("gs://" + bucket + "/" + path), parseUrl, encode)
         == DownloadUrl(bucket, parsedPath, encode)
  {
    var u := "gs://" + bucket + "/" + path;
    StartsWithConcat("gs://", bucket + "/" + path);
    assert u == "gs://" + (bucket + "/" + path);
    assert DropLeadingChar("/" + parsedPath) == parsedPath by {
      assert ("/" + parsedPath)[1..] == parsedPath;
    }
    assert IsFirebaseStorageGsUrl(Str(u));
  }

  /** The client and back-end helpers build the same download URL for a
      well-formed gs://<bucket>/<path> whenever the URL parser reports the
      bucket as host and "/<path>" as pathname. (A real parser percent-encodes
      the pathname first, so a space in the path ends up as "%2520" on the
      client and as "%20" on the back end.) */
  lemma VariantsAgreeOnWellFormedGsUrls(bucket: string, path: string,
                                        parseUrl: string -> Option<ParsedUrl>,
                                        encode: string -> string)
    requires bucket != "" && '/' !in bucket && !IsBlank(bucket)
    requires path != "" && forall k :: 0 <= k < |path| ==> !StorageUtils.IsLineTerminator(path[k])
    requires parseUrl("gs://" + bucket + "/" + path) == Some(ParsedUrl(bucket, "/" + path))
    ensures ProcessPdfUrl(Str("gs://" + bucket + "/" + path), parseUrl, encode)
         == StorageUtils.ProcessPdfUrl("gs://" + bucket + "/" + path, encode)
  {
    StorageUtils.ConvertsGsUrl(bucket, path, encode);
    ConvertsParsedPathname(bucket, path, path, parseUrl, encode);
  }

  /** Where the URL parser percent-encodes the path (a real one turns a space
      into "%20"), the two rewriters disagree: the client encodes the parser's
      pathname again ("%2520"), the back end encodes the path as written. */
  lemma VariantsDifferOnPercentEncodedPath(bucket: string, path: string, parsedPath: string,
                                           parseUrl: string -> Option<ParsedUrl>,
                                           encode: string -> string)
    requires bucket != "" && '/' !in bucket && !IsBlank(bucket)
    requires path != "" && forall k :: 0 <= k < |path| ==> !StorageUtils.IsLineTerminator(path[k])
    requires '/' !in path && '/' !in parsedPath
    requires parseUrl("gs://" + bucket + "/" + path) == Some(ParsedUrl(bucket, "/" + parsedPath))
    requires encode(parsedPath) != encode(path)
    ensures ProcessPdfUrl(Str("gs://" + bucket + "/" + path), parseUrl, encode)
         != StorageUtils.ProcessPdfUrl("gs://" + bucket + "/" + path, encode)
  {
    StorageUtils.ConvertsGsUrl(bucket, path, encode);
    ConvertsParsedPathname(bucket, path, parsedPath, parseUrl, encode);
    EncodeSingleSegment(path, encode);
    EncodeSingleSegment(parsedPath, encode);
    MiddleDetermined(DownloadPrefix + bucket + ObjectInfix, encode(parsedPath), encode(path), MediaSuffix);
  }

  /** Two strings with the same head and tail agree in between. */
  lemma MiddleDetermined(head: string, x: string, y: string, tail: string)
    ensures head + x + tail == head + y + tail ==> x == y
  {
    if head + x + tail == head + y + tail {
      var s := head + x + tail;
      assert s[|head|..|s| - |tail|] == x;
      var t := head + y + tail;
      assert t[|head|..|t| - |tail|] == y;
    }
  }
}
