/**
  `Curl::createUrl`: the request URL from a path and the URL options. A path is
  either a ready string, to which the query is appended, or an array of
  segments, each URL-encoded and joined with `/` (a segment that is itself an
  array is first joined with `,`).
 */
module UrlBuilder {
  import opened PhpStrings
  import opened UrlCodec

  /** One element of an array path: a scalar, or an array of scalars. */
  datatype Segment = Text(text: Bytes) | List(items: seq<Bytes>)

  /** The `$path` argument: a string, or an array of segments. */
  datatype Path = Url(url: Bytes) | Segments(segments: seq<Segment>)

  /** The text a segment stands for before encoding: an array segment is joined with `,`. */
  function SegmentText(seg: Segment): (r: Bytes)
    ensures seg.Text? ==> r == seg.text
    ensures seg.List? && |seg.items| > 0 && FreeOf(',', seg.items) ==> Split(',', r) == seg.items
  {
    match seg
    case Text(t) => t
    case List(items) =>
      assert |items| > 0 && FreeOf(',', items) ==> Split(',', Join(',', items)) == items by {
        if |items| > 0 && FreeOf(',', items) {
          SplitJoin(',', items);
        }
      }
      Join(',', items)
  }

  function EncodedSegments(segs: seq<Segment>): (r: seq<Bytes>)
    ensures |r| == |segs|
    ensures forall i :: 0 <= i < |segs| ==> r[i] == UrlEncode(SegmentText(segs[i]))
  {
    seq(|segs|, i requires 0 <= i < |segs| => UrlEncode(SegmentText(segs[i])))
  }

  /** `createUrl($path, $options)`; the empty `Query` is PHP's `empty($options)`. */
  function CreateUrl(path: Path, options: Query): (r: Bytes)
    ensures path.Url? ==> path.url <= r
  {
    match path
    case Segments(segs) =>
      var url := Join('/', EncodedSegments(segs));
      if options == [] then url else url + ['?'] + BuildQuery(options)
    case Url(url) =>
      if options == [] then url
      else url + [if '?' in url then '&' else '?'] + BuildQuery(options)
  }

  /** The part of a URL before its first `?` (all of it when there is none). */
  function PathPart(url: Bytes): (r: Bytes)
    ensures r <= url && '?' !in r
  {
    if '?' in url then url[..IndexOf(url, '?')] else url
  }

  /** The pairs of the query after a URL's first `?` (none when there is no `?`). */
  function QueryPart(url: Bytes): (q: Query)
  {
    if '?' in url then ParseQuery(url[IndexOf(url, '?') + 1..]) else []
  }

  /**
    With a string path, the options are added to whatever query the path already
    has: the part before the first `?` is untouched, and the query reads as the
    path's own pairs followed by the options. Without options the path is
    returned unchanged.
   */
  lemma StringPathUrl(url: Bytes, options: Query)
    ensures options == [] ==> CreateUrl(Url(url), options) == url
    ensures PathPart(CreateUrl(Url(url), options)) == PathPart(url)
    ensures QueryPart(CreateUrl(Url(url), options)) == QueryPart(url) + options
  {
    if options != [] {
      QueryRoundTrip(options);
      if '?' in url {
        AppendToQuery(url, BuildQuery(options));
      } else {
        StartQuery(url, BuildQuery(options));
      }
    }
  }

  /** A path that has a query gets `&` and more pairs after it. */
  lemma AppendToQuery(url: Bytes, b: Bytes)
    requires '?' in url
    ensures PathPart(url + ['&'] + b) == PathPart(url)
    ensures QueryPart(url + ['&'] + b) == QueryPart(url) + ParseQuery(b)
  {
    var r := url + ['&'] + b;
    var i := IndexOf(url, '?');
    assert r == url + (['&'] + b);
    IndexOfPrefix(url, '?', ['&'] + b);
    assert r[..i] == url[..i];
    assert r[i + 1..] == url[i + 1..] + ['&'] + b;
    ParseQueryAppend(url[i + 1..], b);
  }

  /** A path without a query gets `?` and the query after it. */
  lemma StartQuery(url: Bytes, b: Bytes)
    requires '?' !in url
    ensures PathPart(url + ['?'] + b) == url
    ensures QueryPart(url + ['?'] + b) == ParseQuery(b)
  {
    var r := url + ['?'] + b;
    IndexOfAfter(url, '?', b);
    assert r[..|url|] == url;
    assert r[|url| + 1..] == b;
  }

  /**
    With an array path, the part before the first `?` holds one `/`-separated
    piece per segment (for a non-empty array), each decoding back to the
    segment's text; the `?` is there exactly when there are options; and the
    query reads back as the options.
   */
  lemma SegmentsPathUrl(segs: seq<Segment>, options: Query)
    ensures '?' in CreateUrl(Segments(segs), options) <==> options != []
    ensures QueryPart(CreateUrl(Segments(segs), options)) == options
    ensures |segs| > 0 ==>
      var parts := Split('/', PathPart(CreateUrl(Segments(segs), options)));
      |parts| == |segs| &&
      forall i :: 0 <= i < |segs| ==> UrlDecode(parts[i]) == SegmentText(segs[i])
  {
    var r := CreateUrl(Segments(segs), options);
    var e := EncodedSegments(segs);
    var j := Join('/', e);
    forall i | 0 <= i < |e| ensures '/' !in e[i] && '?' !in e[i] {
      EncodedAvoids(SegmentText(segs[i]));
    }
    JoinFreeOf('/', '?', e);
    assert PathPart(r) == j by {
      if options != [] {
        IndexOfAfter(j, '?', BuildQuery(options));
        assert r[..|j|] == j;
      }
    }
    if options != [] {
      var b := BuildQuery(options);
      IndexOfAfter(j, '?', b);
      assert r[|j| + 1..] == b;
      QueryRoundTrip(options);
    }
    if |segs| > 0 {
      SplitJoin('/', e);
      forall i | 0 <= i < |segs| ensures UrlDecode(e[i]) == SegmentText(segs[i]) {
        DecodeEncode(SegmentText(segs[i]));
      }
    }
  }

  /** An array segment whose items hold no `,` reads back as its items once decoded. */
  lemma ListSegmentItems(items: seq<Bytes>)
    requires |items| > 0 && FreeOf(',', items)
    ensures Split(',', UrlDecode(UrlEncode(SegmentText(List(items))))) == items
  {
    DecodeEncode(Join(',', items));
    SplitJoin(',', items);
  }
}
