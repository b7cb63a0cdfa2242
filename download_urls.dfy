/** The Firebase Storage download URL that both storage helpers build from a
    bucket and an object path:
    https://firebasestorage.googleapis.com/v0/b/<bucket>/o/<encoded path>?alt=media
    where the encoded path is the '/'-separated segments, each passed through
    `encodeURIComponent` (a parameter here), joined by "%2F". */
module DownloadUrls {

  import opened Text

  const DownloadPrefix := "https://firebasestorage.googleapis.com/v0/b/"
  const ObjectInfix := "/o/"
  const MediaSuffix := "?alt=media"
  const EncodedSlash := "%2F"

  /** `parts.map(encode)` */
  function MapEncode(parts: seq<string>, encode: string -> string): (r: seq<string>)
    ensures |r| == |parts|
    ensures forall k :: 0 <= k < |parts| ==> r[k] == encode(parts[k])
  {
    seq(|parts|, k requires 0 <= k < |parts| => encode(parts[k]))
  }

  /** `path.split('/').map(encode).join('%2F')` */
  function EncodePath(path: string, encode: string -> string): string {
    Join(MapEncode(Split(path, '/'), encode), EncodedSlash)
  }

  function DownloadUrl(bucket: string, path: string, encode: string -> string): string {
    DownloadPrefix + bucket + ObjectInfix + EncodePath(path, encode) + MediaSuffix
  }

  /** A path of one segment is encoded as a whole. */
  lemma EncodeSingleSegment(a: string, encode: string -> string)
    requires '/' !in a
    ensures EncodePath(a, encode) == encode(a)
  {
    SplitNoSeparator(a, '/');
    assert MapEncode([a], encode) == [encode(a)];
  }

  /** Each '/' of the path becomes exactly one "%2F" between the encodings of
      the text before it and after it; with EncodeSingleSegment this fixes the
      encoding of every path. */
  lemma EncodeAtFirstSlash(a: string, b: string, encode: string -> string)
    requires '/' !in a
    ensures EncodePath(a + "/" + b, encode) == encode(a) + EncodedSlash + EncodePath(b, encode)
  {
    SplitAtFirstSeparator(a, '/', b);
    var rest := Split(b, '/');
    var encoded := MapEncode([a] + rest, encode);
    assert encoded == [encode(a)] + MapEncode(rest, encode);
    assert encoded[1..] == MapEncode(rest, encode);
  }

  /** The path is cut exactly at its '/' characters: one segment more than
      there are slashes, no slash inside a segment, and the segments joined by
      '/' give the path back. */
  lemma PathSegments(path: string)
    ensures |Split(path, '/')| == Count(path, '/') + 1
    ensures forall k :: 0 <= k < |Split(path, '/')| ==> '/' !in Split(path, '/')[k]
    ensures Join(Split(path, '/'), "/") == path
  {
    SplitCount(path, '/');
    JoinSplit(path, '/');
  }

  /** Every download URL has the documented prefix and suffix around the bucket. */
  lemma DownloadUrlShape(bucket: string, path: string, encode: string -> string)
    ensures StartsWith(DownloadUrl(bucket, path, encode), DownloadPrefix + bucket + ObjectInfix)
    ensures EndsWith(DownloadUrl(bucket, path, encode), MediaSuffix)
  {
    var head := DownloadPrefix + bucket + ObjectInfix;
    var tail := EncodePath(path, encode) + MediaSuffix;
    assert DownloadUrl(bucket, path, encode) == head + tail;
    StartsWithConcat(head, tail);
    var u := DownloadUrl(bucket, path, encode);
    assert u[|u| - |MediaSuffix|..] == MediaSuffix;
  }

  /** A download URL never starts with "gs://": it starts with "h". */
  lemma DownloadUrlIsNotGs(bucket: string, path: string, encode: string -> string)
    ensures !StartsWith(DownloadUrl(bucket, path, encode), "gs://")
  {
    var u := DownloadUrl(bucket, path, encode);
    assert u == DownloadPrefix + (bucket + ObjectInfix + EncodePath(path, encode) + MediaSuffix);
    assert u[0] == DownloadPrefix[0] == 'h';
  }
}
