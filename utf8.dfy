/** Well-formed UTF-8 as RFC 3629 (section 4) defines it, which is what
    `str::from_utf8` accepts: no overlong forms, no surrogates, nothing above U+10FFFF. */
module Utf8 {
  import opened Bytes

  predicate IsContinuation(b: Byte) {
    0x80 <= b <= 0xBF
  }

  /** The length of the well-formed character that starts `s`, or 0 when `s`
      does not start with one. */
  function LeadLength(s: seq<Byte>): (n: nat)
    requires |s| > 0
    ensures n <= |s| && n <= 4
    ensures s[0] < 0x80 ==> n == 1
  {
    var b := s[0];
    if b < 0x80 then 1
    else if 0xC2 <= b <= 0xDF then
      if |s| >= 2 && IsContinuation(s[1]) then 2 else 0
    else if 0xE0 <= b <= 0xEF then
      var lo: Byte := if b == 0xE0 then 0xA0 else 0x80;
      var hi: Byte := if b == 0xED then 0x9F else 0xBF;
      if |s| >= 3 && lo <= s[1] <= hi && IsContinuation(s[2]) then 3 else 0
    else if 0xF0 <= b <= 0xF4 then
      var lo: Byte := if b == 0xF0 then 0x90 else 0x80;
      var hi: Byte := if b == 0xF4 then 0x8F else 0xBF;
      if |s| >= 4 && lo <= s[1] <= hi && IsContinuation(s[2]) && IsContinuation(s[3]) then 4 else 0
    else 0
  }

  /** `s` is a sequence of well-formed UTF-8 characters. */
  predicate ValidUtf8(s: seq<Byte>)
    decreases |s|
  {
    s == [] || (LeadLength(s) > 0 && ValidUtf8(s[LeadLength(s)..]))
  }

  predicate IsAscii(s: seq<Byte>) {
    forall i :: 0 <= i < |s| ==> s[i] < 0x80
  }

  /** Every ASCII string is valid UTF-8. */
  lemma {:induction false} AsciiIsUtf8(s: seq<Byte>)
    requires IsAscii(s)
    ensures ValidUtf8(s)
  {
    if s != [] {
      assert IsAscii(s[1..]);
      AsciiIsUtf8(s[1..]);
    }
  }

  /** A lone continuation byte, an overlong 0xC0 0xAF and an encoded surrogate are rejected. */
  lemma InvalidExamples()
    ensures !ValidUtf8([0x80])
    ensures !ValidUtf8([0xC0, 0xAF])
    ensures !ValidUtf8([0xED, 0xA0, 0x80])
    ensures ValidUtf8([0xC3, 0xA9])
  {
    assert [0xC3, 0xA9][2..] == [];
  }
}
