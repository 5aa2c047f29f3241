/** Characters and strings as Python treats them. */
module Chars {
  /** The characters that `str.lstrip` and `str.strip` remove. */
  predicate IsSpace(c: char) {
    var n := c as int;
    || 9 <= n <= 13 || 28 <= n <= 32 || n == 0x85 || n == 0xA0 || n == 0x1680 || 0x2000 <= n <= 0x200A
    || n == 0x2028 || n == 0x2029 || n == 0x202F || n == 0x205F || n == 0x3000
  }

  function StripLeft(s: string): string {
    if s != "" && IsSpace(s[0]) then StripLeft(s[1..]) else s
  }

  function LowerChar(c: char): char {
    if 'A' <= c <= 'Z' then ((c as int) + 32) as char else c
  }

  /** ASCII lower-casing. Python lower-cases no other character into the words that are compared with it here. */
  function Lower(s: string): (r: string)
    ensures |r| == |s|
  {
    if s == "" then "" else [LowerChar(s[0])] + Lower(s[1..])
  }

  /** `sep.join(parts)` */
  function JoinWith(sep: string, parts: seq<string>): string {
    if parts == [] then "" else if |parts| == 1 then parts[0] else parts[0] + sep + JoinWith(sep, parts[1..])
  }

  /** `str(n)` */
  function DecimalString(n: nat): (s: string)
    ensures s != "" && forall i :: 0 <= i < |s| ==> '0' <= s[i] <= '9'
  {
    if n < 10 then [(48 + n) as char] else DecimalString(n / 10) + [(48 + n % 10) as char]
  }
}
