/** Well-formed UTF-8 as RFC 3629, section 4 defines it; Rust's `str`
    conversions (`CStr::to_str`, `str::from_utf8`) accept exactly these byte
    strings. */
module Utf8 {
  import opened ByteStrings

  predicate IsContinuation(b: u8)
  {
    0x80 <= b <= 0xBF
  }

  /** Length of the encoded character that starts `s`, or 0 when `s` does
      not start with a well-formed one (overlong forms, surrogates and code
      points beyond U+10FFFF are not well formed). */
  function LeadingCharLength(s: Bytes): (n: nat)
    ensures n <= 4 && n <= |s|
    ensures n == 1 <==> |s| > 0 && s[0] < 0x80
  {
    if |s| == 0 then 0
    else if s[0] < 0x80 then 1
    else if 0xC2 <= s[0] <= 0xDF then
      if |s| >= 2 && IsContinuation(s[1]) then 2 else 0
    else if s[0] == 0xE0 then
      if |s| >= 3 && 0xA0 <= s[1] <= 0xBF && IsContinuation(s[2]) then 3 else 0
    else if 0xE1 <= s[0] <= 0xEC || 0xEE <= s[0] <= 0xEF then
      if |s| >= 3 && IsContinuation(s[1]) && IsContinuation(s[2]) then 3 else 0
    else if s[0] == 0xED then
      if |s| >= 3 && 0x80 <= s[1] <= 0x9F && IsContinuation(s[2]) then 3 else 0
    else if s[0] == 0xF0 then
      if |s| >= 4 && 0x90 <= s[1] <= 0xBF && IsContinuation(s[2]) && IsContinuation(s[3]) then 4 else 0
    else if 0xF1 <= s[0] <= 0xF3 then
      if |s| >= 4 && IsContinuation(s[1]) && IsContinuation(s[2]) && IsContinuation(s[3]) then 4 else 0
    else if s[0] == 0xF4 then
      if |s| >= 4 && 0x80 <= s[1] <= 0x8F && IsContinuation(s[2]) && IsContinuation(s[3]) then 4 else 0
    else 0
  }

  /** `s` is a sequence of well-formed encoded characters. */
  predicate IsUtf8(s: Bytes)
    decreases |s|
  {
    |s| == 0 || (LeadingCharLength(s) > 0 && IsUtf8(s[LeadingCharLength(s)..]))
  }

  predicate IsAscii(s: Bytes)
  {
    forall i | 0 <= i < |s| :: s[i] < 0x80
  }

  lemma {:induction false} AsciiIsUtf8(s: Bytes)
    requires IsAscii(s)
    ensures IsUtf8(s)
    decreases |s|
  {
    if |s| > 0 {
      AsciiIsUtf8(s[1..]);
    }
  }
}
