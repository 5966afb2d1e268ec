/**
  PHP's `urlencode` and the flat form of `http_build_query`, each with the
  decoder that undoes it. The decoders are reference definitions that the round
  trips are stated against: `UrlDecode` follows PHP's `urldecode`, and
  `ParseQuery` reads `key=value` pairs separated by `&` (it does not rename keys
  the way PHP's `parse_str` does).
 */
module UrlCodec {
  import opened PhpStrings

  /** A flat query: the key/value pairs of a PHP array, in order. */
  type Query = seq<(Bytes, Bytes)>

  /** Bytes `urlencode` keeps as they are: letters, digits, `.`, `_` and `-`. */
  predicate Unreserved(c: Byte)
  {
    'a' <= c <= 'z' || 'A' <= c <= 'Z' || '0' <= c <= '9' || c == '.' || c == '_' || c == '-'
  }

  /** Bytes that can appear in the output of `urlencode`. */
  predicate EncodedByte(c: Byte)
  {
    Unreserved(c) || c == '+' || c == '%'
  }

  /** An upper-case hexadecimal digit, as `urlencode` writes them. */
  function HexDigit(n: nat): (c: Byte)
    requires n < 16
    ensures Unreserved(c)
  {
    if n < 10 then ('0' as int + n) as char else ('A' as int + n - 10) as char
  }

  predicate IsHex(c: Byte)
  {
    '0' <= c <= '9' || 'A' <= c <= 'F' || 'a' <= c <= 'f'
  }

  /** The value of a hexadecimal digit of either case, as `urldecode` reads them. */
  function HexValue(c: Byte): (n: nat)
    requires IsHex(c)
    ensures n < 16
  {
    if '0' <= c <= '9' then c as int - '0' as int
    else if 'A' <= c <= 'F' then c as int - 'A' as int + 10
    else c as int - 'a' as int + 10
  }

  /** `urlencode` of one byte. */
  function EncodeByte(c: Byte): (r: Bytes)
    ensures forall i :: 0 <= i < |r| ==> EncodedByte(r[i])
  {
    if Unreserved(c) then [c]
    else if c == ' ' then ['+']
    else ['%', HexDigit(c as int / 16), HexDigit(c as int % 16)]
  }

  /** PHP's `urlencode`: its output uses only letters, digits, `.`, `_`, `-`, `+` and `%`. */
  function UrlEncode(s: Bytes): (r: Bytes)
    ensures forall i :: 0 <= i < |r| ==> EncodedByte(r[i])
    ensures |s| <= |r| <= 3 * |s|
  {
    if |s| == 0 then [] else EncodeByte(s[0]) + UrlEncode(s[1..])
  }

  /** PHP's `urldecode`: `+` is a space, `%` and two hex digits a byte, anything else itself. */
  function UrlDecode(s: Bytes): (r: Bytes)
    decreases |s|
  {
    if |s| == 0 then []
    else if s[0] == '+' then [' '] + UrlDecode(s[1..])
    else if s[0] == '%' && |s| >= 3 && IsHex(s[1]) && IsHex(s[2]) then
      [(16 * HexValue(s[1]) + HexValue(s[2])) as char] + UrlDecode(s[3..])
    else [s[0]] + UrlDecode(s[1..])
  }

  /** Decoding an encoded byte gives the byte back, whatever follows it. */
  lemma DecodeEncodeByte(c: Byte, rest: Bytes)
    ensures UrlDecode(EncodeByte(c) + rest) == [c] + UrlDecode(rest)
  {
    var e := EncodeByte(c) + rest;
    if !Unreserved(c) && c != ' ' {
      var hi, lo := c as int / 16, c as int % 16;
      assert HexValue(HexDigit(hi)) == hi;
      assert HexValue(HexDigit(lo)) == lo;
      assert e[3..] == rest;
    } else {
      assert e[1..] == rest;
    }
  }

  /** `urldecode` undoes `urlencode`. */
  lemma {:induction false} DecodeEncode(s: Bytes)
    ensures UrlDecode(UrlEncode(s)) == s
  {
    if |s| > 0 {
      DecodeEncodeByte(s[0], UrlEncode(s[1..]));
      DecodeEncode(s[1..]);
      assert s == [s[0]] + s[1..];
    }
  }

  /** Nothing `urlencode` writes is a URL delimiter or a query separator. */
  lemma EncodedAvoids(s: Bytes)
    ensures '/' !in UrlEncode(s) && '?' !in UrlEncode(s) && '&' !in UrlEncode(s)
    ensures '=' !in UrlEncode(s) && ',' !in UrlEncode(s) && '#' !in UrlEncode(s)
  {
    var r := UrlEncode(s);
    forall i | 0 <= i < |r|
      ensures r[i] != '/' && r[i] != '?' && r[i] != '&' && r[i] != '=' && r[i] != ',' && r[i] != '#'
    {
      assert EncodedByte(r[i]);
    }
  }

  /** One pair of `http_build_query`: the encoded key, `=`, the encoded value. */
  function EncodePair(kv: (Bytes, Bytes)): (r: Bytes)
  {
    UrlEncode(kv.0) + ['='] + UrlEncode(kv.1)
  }

  function EncodePairs(q: Query): (r: seq<Bytes>)
    ensures |r| == |q|
    ensures forall i :: 0 <= i < |q| ==> r[i] == EncodePair(q[i])
  {
    seq(|q|, i requires 0 <= i < |q| => EncodePair(q[i]))
  }

  /** `http_build_query` of a flat array, with PHP's default `&` separator and `urlencode`. */
  function BuildQuery(q: Query): (r: Bytes)
    ensures '?' !in r && '#' !in r
    ensures r == [] <==> q == []
  {
    BuildQueryAvoids(q);
    BuildQueryEmpty(q);
    Join('&', EncodePairs(q))
  }

  /** No encoded pair holds `&`, `?` or `#`. */
  lemma EncodedPairsFreeOf(q: Query)
    ensures FreeOf('&', EncodePairs(q)) && FreeOf('?', EncodePairs(q)) && FreeOf('#', EncodePairs(q))
  {
    var e := EncodePairs(q);
    forall i | 0 <= i < |e| ensures '&' !in e[i] && '?' !in e[i] && '#' !in e[i] {
      EncodedAvoids(q[i].0);
      EncodedAvoids(q[i].1);
    }
  }

  /** Reads one `key=value` piece, splitting at its first `=`; a piece without one is a key with an empty value. */
  function ParsePair(piece: Bytes): (kv: (Bytes, Bytes))
  {
    if '=' in piece then
      var i := IndexOf(piece, '=');
      (UrlDecode(piece[..i]), UrlDecode(piece[i + 1..]))
    else (UrlDecode(piece), [])
  }

  /** The pairs of the non-empty pieces, in order. */
  function ParsePieces(pieces: seq<Bytes>): (q: Query)
    ensures |q| <= |pieces|
  {
    if |pieces| == 0 then []
    else (if pieces[0] == [] then [] else [ParsePair(pieces[0])]) + ParsePieces(pieces[1..])
  }

  /** The key/value pairs a query string carries. */
  function ParseQuery(s: Bytes): (q: Query)
  {
    ParsePieces(Split('&', s))
  }

  lemma {:induction false} ParsePiecesAppend(p1: seq<Bytes>, p2: seq<Bytes>)
    ensures ParsePieces(p1 + p2) == ParsePieces(p1) + ParsePieces(p2)
  {
    if |p1| > 0 {
      assert (p1 + p2)[1..] == p1[1..] + p2;
      ParsePiecesAppend(p1[1..], p2);
    } else {
      assert p1 + p2 == p2;
    }
  }

  /** Reading a query string extended with `&` and a second one gives the pairs of both. */
  lemma ParseQueryAppend(a: Bytes, b: Bytes)
    ensures ParseQuery(a + ['&'] + b) == ParseQuery(a) + ParseQuery(b)
  {
    SplitAppend('&', a, b);
    ParsePiecesAppend(Split('&', a), Split('&', b));
  }

  lemma ParsePairEncoded(kv: (Bytes, Bytes))
    ensures ParsePair(EncodePair(kv)) == kv
  {
    EncodedAvoids(kv.0);
    IndexOfAfter(UrlEncode(kv.0), '=', UrlEncode(kv.1));
    var e := EncodePair(kv);
    assert e[..|UrlEncode(kv.0)|] == UrlEncode(kv.0);
    assert e[|UrlEncode(kv.0)| + 1..] == UrlEncode(kv.1);
    DecodeEncode(kv.0);
    DecodeEncode(kv.1);
  }

  lemma {:induction false} ParseEncodedPieces(q: Query)
    ensures ParsePieces(EncodePairs(q)) == q
  {
    if |q| > 0 {
      var e := EncodePairs(q);
      assert e[0] != [] by { assert e[0][|UrlEncode(q[0].0)|] == '='; }
      ParsePairEncoded(q[0]);
      assert e[1..] == EncodePairs(q[1..]);
      ParseEncodedPieces(q[1..]);
      assert q == [q[0]] + q[1..];
    }
  }

  /** A query string built by `http_build_query` reads back as the pairs it was built from. */
  lemma QueryRoundTrip(q: Query)
    ensures ParseQuery(BuildQuery(q)) == q
  {
    if |q| == 0 {
      assert BuildQuery(q) == [];
      assert Split('&', []) == [[]];
    } else {
      EncodedPairsFreeOf(q);
      SplitJoin('&', EncodePairs(q));
      ParseEncodedPieces(q);
    }
  }

  /** The query string holds no `?` and no `#`, so it never ends the path or starts a fragment. */
  lemma BuildQueryAvoids(q: Query)
    ensures '?' !in Join('&', EncodePairs(q)) && '#' !in Join('&', EncodePairs(q))
  {
    EncodedPairsFreeOf(q);
    JoinFreeOf('&', '?', EncodePairs(q));
    JoinFreeOf('&', '#', EncodePairs(q));
  }

  /** An empty array builds the empty query; any pair makes it non-empty. */
  lemma BuildQueryEmpty(q: Query)
    ensures Join('&', EncodePairs(q)) == [] <==> q == []
  {
    if q != [] {
      var e := EncodePairs(q);
      if |q| == 1 {
        assert |e[0]| > 0;
      } else {
        assert |Join('&', e)| > 0;
      }
    }
  }
}
