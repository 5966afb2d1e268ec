/**
  PHP strings are byte strings. This module gives them a Dafny type and models
  the string built-ins the client relies on: `implode` and `explode` with a
  one-byte separator, `strpos` as a first-index search, and `strtoupper`.
 */
module PhpStrings {

  /** One byte of a PHP string: a character whose code is below 256. */
  type Byte = c: char | c as int < 256

  /** A PHP string. */
  type Bytes = seq<Byte>

  /** `strpos($s, $c)` when it does not return false: the first index of `c`. */
  function IndexOf(s: Bytes, c: Byte): (i: nat)
    requires c in s
    ensures i < |s| && s[i] == c
    ensures c !in s[..i]
  {
    if s[0] == c then 0
    else
      assert s == [s[0]] + s[1..];
      var j := IndexOf(s[1..], c);
      assert s[..j + 1] == [s[0]] + s[1..][..j];
      j + 1
  }

  /** The first occurrence of `c` in `a + [c] + b` is the one after `a`, when `a` has none. */
  lemma IndexOfAfter(a: Bytes, c: Byte, b: Bytes)
    requires c !in a
    ensures c in a + [c] + b && IndexOf(a + [c] + b, c) == |a|
  {
    var s := a + [c] + b;
    assert s[|a|] == c;
    var i := IndexOf(s, c);
    assert i <= |a|;
  }

  /** The first occurrence of a byte is not moved by appending. */
  lemma IndexOfPrefix(s: Bytes, c: Byte, t: Bytes)
    requires c in s
    ensures c in s + t && IndexOf(s + t, c) == IndexOf(s, c)
  {
    var i := IndexOf(s, c);
    assert (s + t)[i] == c;
    assert (s + t)[..i] == s[..i];
  }

  /** `implode` with a one-byte separator. */
  function Join(sep: Byte, parts: seq<Bytes>): (r: Bytes)
    ensures |parts| == 1 ==> r == parts[0]
  {
    if |parts| == 0 then []
    else if |parts| == 1 then parts[0]
    else parts[0] + [sep] + Join(sep, parts[1..])
  }

  /** `explode` with a one-byte separator: the pieces between the separators, never none. */
  function Split(sep: Byte, s: Bytes): (r: seq<Bytes>)
    ensures |r| > 0
    decreases |s|
  {
    if sep !in s then [s]
    else
      var i := IndexOf(s, sep);
      [s[..i]] + Split(sep, s[i + 1..])
  }

  /** No part holds the separator. */
  ghost predicate FreeOf(sep: Byte, parts: seq<Bytes>)
  {
    forall i :: 0 <= i < |parts| ==> sep !in parts[i]
  }

  /** `explode` undoes `implode` when no part holds the separator and there is at least one part. */
  lemma {:induction false} SplitJoin(sep: Byte, parts: seq<Bytes>)
    requires |parts| > 0 && FreeOf(sep, parts)
    ensures Split(sep, Join(sep, parts)) == parts
  {
    if |parts| > 1 {
      var rest := Join(sep, parts[1..]);
      assert Join(sep, parts) == parts[0] + [sep] + rest;
      IndexOfAfter(parts[0], sep, rest);
      var s := parts[0] + [sep] + rest;
      assert s[..|parts[0]|] == parts[0];
      assert s[|parts[0]| + 1..] == rest;
      SplitJoin(sep, parts[1..]);
      assert parts == [parts[0]] + parts[1..];
    }
  }

  /** Joining parts that are free of a byte gives a string free of it, the separator aside. */
  lemma {:induction false} JoinFreeOf(sep: Byte, c: Byte, parts: seq<Bytes>)
    requires c != sep && FreeOf(c, parts)
    ensures c !in Join(sep, parts)
  {
    if |parts| > 1 {
      JoinFreeOf(sep, c, parts[1..]);
    }
  }

  /** `explode` cuts at the first separator. */
  lemma SplitFirst(sep: Byte, x: Bytes, rest: Bytes)
    requires sep !in x
    ensures Split(sep, x + [sep] + rest) == [x] + Split(sep, rest)
  {
    var s := x + [sep] + rest;
    IndexOfAfter(x, sep, rest);
    assert s[..|x|] == x && s[|x| + 1..] == rest;
  }

  /** `explode` on a separator placed between two strings splits each of them independently. */
  lemma {:induction false} SplitAppend(sep: Byte, a: Bytes, b: Bytes)
    ensures Split(sep, a + [sep] + b) == Split(sep, a) + Split(sep, b)
    decreases |a|, 1
  {
    if sep !in a {
      SplitFirst(sep, a, b);
    } else {
      SplitAppendAt(sep, IndexOf(a, sep), a, b);
    }
  }

  /** The step of `SplitAppend` when `a` holds a separator, the first one at `i`. */
  lemma {:induction false} SplitAppendAt(sep: Byte, i: nat, a: Bytes, b: Bytes)
    requires i < |a| && a[i] == sep && sep !in a[..i]
    ensures Split(sep, a + [sep] + b) == Split(sep, a) + Split(sep, b)
    decreases |a|, 0
  {
    var x, a' := a[..i], a[i + 1..];
    var t := a' + [sep] + b;
    calc {
      Split(sep, a + [sep] + b);
      { assert a + [sep] + b == x + [sep] + t; }
      Split(sep, x + [sep] + t);
      { SplitFirst(sep, x, t); }
      [x] + Split(sep, t);
      { SplitAppend(sep, a', b); }
      [x] + (Split(sep, a') + Split(sep, b));
      ([x] + Split(sep, a')) + Split(sep, b);
      { SplitFirst(sep, x, a'); }
      Split(sep, x + [sep] + a') + Split(sep, b);
      { assert a == x + [sep] + a'; }
      Split(sep, a) + Split(sep, b);
    }
  }

  /** PHP's `strtoupper` on one byte: ASCII letters only, as PHP 8.2 and later do regardless of locale. */
  function UpperByte(c: Byte): (u: Byte)
    ensures 'a' <= c <= 'z' ==> u as int == c as int - 32
    ensures !('a' <= c <= 'z') ==> u == c
    ensures !('a' <= u <= 'z')
  {
    if 'a' <= c <= 'z' then (c as int - 32) as char else c
  }

  /** `strtoupper`: every byte upper-cased, length kept. */
  function ToUpper(s: Bytes): (r: Bytes)
    ensures |r| == |s|
    ensures forall i :: 0 <= i < |s| ==> r[i] == UpperByte(s[i])
  {
    seq(|s|, i requires 0 <= i < |s| => UpperByte(s[i]))
  }

  /** The method names the public verbs pass are already upper case, so `strtoupper` keeps them. */
  lemma VerbsAreUpperCase()
    ensures ToUpper("GET") == "GET" && ToUpper("HEAD") == "HEAD" && ToUpper("POST") == "POST"
    ensures ToUpper("PUT") == "PUT" && ToUpper("DELETE") == "DELETE"
  {
  }
}
