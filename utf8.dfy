/**
  Well-formed UTF-8, as PHP's `json_encode` checks it before encoding a
  string: the byte sequences of table 3-7 in section 3.9 of the Unicode
  Standard (the same set as section 4 of RFC 3629), which excludes overlong
  forms, surrogates and code points above U+10FFFF.
 */
module Utf8 {
  import opened PhpStrings

  /** `c` lies between `lo` and `hi`, both included. */
  predicate InRange(c: Byte, lo: int, hi: int)
  {
    lo <= c as int <= hi
  }

  /** A continuation byte, `80..BF`. */
  predicate Continuation(c: Byte)
  {
    InRange(c, 0x80, 0xBF)
  }

  /** The length of the well-formed sequence that starts `s`, or 0 when `s` does not start with one. */
  function SequenceLength(s: Bytes): (n: nat)
    requires |s| > 0
    ensures n <= 4 && n <= |s|
    ensures s[0] as int < 0x80 ==> n == 1
  {
    var b := s[0] as int;
    if b < 0x80 then 1
    else if 0xC2 <= b <= 0xDF then
      if |s| >= 2 && Continuation(s[1]) then 2 else 0
    else if 0xE0 <= b <= 0xEF then
      var lo := if b == 0xE0 then 0xA0 else 0x80;
      var hi := if b == 0xED then 0x9F else 0xBF;
      if |s| >= 3 && InRange(s[1], lo, hi) && Continuation(s[2]) then 3 else 0
    else if 0xF0 <= b <= 0xF4 then
      var lo := if b == 0xF0 then 0x90 else 0x80;
      var hi := if b == 0xF4 then 0x8F else 0xBF;
      if |s| >= 4 && InRange(s[1], lo, hi) && Continuation(s[2]) && Continuation(s[3]) then 4 else 0
    else 0
  }

  /** The string is a run of well-formed UTF-8 sequences. */
  predicate ValidUtf8(s: Bytes)
    decreases |s|
  {
    |s| == 0 || (SequenceLength(s) > 0 && ValidUtf8(s[SequenceLength(s)..]))
  }

  /** A sequence that starts `a` starts `a + b` too, with the same length. */
  lemma SequenceLengthPrefix(a: Bytes, b: Bytes)
    requires |a| > 0 && SequenceLength(a) > 0
    ensures SequenceLength(a + b) == SequenceLength(a)
  {
    var n := SequenceLength(a);
    assert (a + b)[..n] == a[..n];
  }

  /** Two well-formed strings run together are well-formed. */
  lemma {:induction false} ValidUtf8Append(a: Bytes, b: Bytes)
    requires ValidUtf8(a) && ValidUtf8(b)
    ensures ValidUtf8(a + b)
    decreases |a|
  {
    if |a| == 0 {
      assert a + b == b;
    } else {
      var n := SequenceLength(a);
      SequenceLengthPrefix(a, b);
      assert (a + b)[n..] == a[n..] + b;
      ValidUtf8Append(a[n..], b);
    }
  }

  /** Plain ASCII is well-formed UTF-8. */
  lemma {:induction false} AsciiIsValid(s: Bytes)
    requires forall i :: 0 <= i < |s| ==> s[i] as int < 0x80
    ensures ValidUtf8(s)
  {
    if |s| > 0 {
      assert s[1..] == s[SequenceLength(s)..];
      AsciiIsValid(s[1..]);
    }
  }

  /** A byte that cannot start a sequence makes the string ill-formed, whatever follows. */
  lemma BadLeadByte(s: Bytes)
    requires |s| > 0 && (InRange(s[0], 0x80, 0xC1) || InRange(s[0], 0xF5, 0xFF))
    ensures !ValidUtf8(s)
  {
  }
}
