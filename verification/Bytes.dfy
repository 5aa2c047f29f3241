/** Byte strings, with the decimal numbers in them.

    Printing follows `str(n).encode()`, parsing follows `int(data)`: blanks around, an optional
    sign, and single underscores between digits. */
module ByteStrings {
  import opened Options

  type Byte = b: int | 0 <= b < 256

  type Bytes = seq<Byte>

  const ZERO: Byte := 48
  const COLON: Byte := 58

  predicate IsDigit(b: Byte) {
    48 <= b <= 57
  }

  function DigitValue(b: Byte): nat
    requires IsDigit(b)
  {
    b - 48
  }

  predicate AllDigits(s: Bytes) {
    forall i :: 0 <= i < |s| ==> IsDigit(s[i])
  }

  /** The decimal form of a natural number, as `str(n).encode()` gives it. */
  function Decimal(n: nat): (s: Bytes)
    ensures s != [] && AllDigits(s)
  {
    if n < 10 then [48 + n] else Decimal(n / 10) + [48 + n % 10]
  }

  /** The number a string of digits stands for, continuing from `acc`. */
  function DigitsValue(s: Bytes, acc: nat): nat
    requires AllDigits(s)
  {
    if s == [] then acc else DigitsValue(s[1..], 10 * acc + DigitValue(s[0]))
  }

  lemma {:induction false} DigitsValueSnoc(s: Bytes, d: Byte, acc: nat)
    requires IsDigit(d) && AllDigits(s)
    ensures AllDigits(s + [d])
    ensures DigitsValue(s + [d], acc) == 10 * DigitsValue(s, acc) + DigitValue(d)
    decreases |s|
  {
    if s == [] {
      assert s + [d] == [d] && [d][1..] == [];
    } else {
      assert (s + [d])[1..] == s[1..] + [d];
      DigitsValueSnoc(s[1..], d, 10 * acc + DigitValue(s[0]));
    }
  }

  lemma {:induction false} DecimalValue(n: nat)
    ensures DigitsValue(Decimal(n), 0) == n
    decreases n
  {
    if n >= 10 {
      DecimalValue(n / 10);
      DigitsValueSnoc(Decimal(n / 10), 48 + n % 10, 0);
    } else {
      assert Decimal(n)[1..] == [];
    }
  }

  function Pow10(k: nat): nat {
    if k == 0 then 1 else 10 * Pow10(k - 1)
  }

  lemma {:induction false} DecimalLength(n: nat, k: nat)
    requires n < Pow10(k) && k > 0
    ensures |Decimal(n)| <= k
    decreases n
  {
    if n >= 10 {
      assert k > 1 by { assert Pow10(1) == 10 * Pow10(0); }
      DecimalLength(n / 10, k - 1);
    }
  }

  /** A slice bound as Python reads it: counted from the end when negative. */
  function Bound(n: int, length: nat): (i: nat)
    ensures i <= length
  {
    if n >= 0 then (if n <= length then n else length) else if length + n >= 0 then length + n else 0
  }

  // ----- int(...) of a byte string -----

  predicate IsSpace(b: Byte) {
    9 <= b <= 13 || b == 32
  }

  function StripLeft(s: Bytes): Bytes {
    if s != [] && IsSpace(s[0]) then StripLeft(s[1..]) else s
  }

  function StripRight(s: Bytes): Bytes {
    if s != [] && IsSpace(s[|s| - 1]) then StripRight(s[..|s| - 1]) else s
  }

  /** Digits with single underscores between them; `after` says that a digit came before. */
  function ParseDigits(s: Bytes, after: bool, acc: nat): Option<int> {
    if s == [] then (if after then Some(acc) else None)
    else if IsDigit(s[0]) then ParseDigits(s[1..], true, 10 * acc + DigitValue(s[0]))
    else if s[0] == 95 && after then ParseDigits(s[1..], false, acc)
    else None
  }

  /** `int(s)`: blanks around, an optional sign, digits with underscores. */
  function ParseInt(s: Bytes): Option<int> {
    var t := StripRight(StripLeft(s));
    if t != [] && (t[0] == 43 || t[0] == 45) then
      var digits := ParseDigits(t[1..], false, 0);
      if digits.None? then None
      else Some(if t[0] == 45 then -digits.value else digits.value)
    else
      ParseDigits(t, false, 0)
  }

  lemma {:induction false} ParseAllDigits(s: Bytes, after: bool, acc: nat)
    requires AllDigits(s) && (after || s != [])
    ensures ParseDigits(s, after, acc) == Some(DigitsValue(s, acc))
    decreases |s|
  {
    if s != [] {
      ParseAllDigits(s[1..], true, 10 * acc + DigitValue(s[0]));
    }
  }

  lemma ParseDecimal(n: nat)
    ensures ParseInt(Decimal(n)).Some? && ParseInt(Decimal(n)).value == n
  {
    ParseAllDigits(Decimal(n), false, 0);
    DecimalValue(n);
  }

  lemma ParseNegative(n: nat)
    ensures ParseInt([45] + Decimal(n)).Some? && ParseInt([45] + Decimal(n)).value + n == 0
  {
    var s := [45] + Decimal(n);
    assert s[|s| - 1] == Decimal(n)[|Decimal(n)| - 1];
    assert s[1..] == Decimal(n);
    ParseAllDigits(Decimal(n), false, 0);
    DecimalValue(n);
  }

  // ----- exactly which byte strings are integers -----

  /** Digits, with underscores that stand alone between them. */
  predicate IsNumeral(s: Bytes) {
    && s != [] && (forall i :: 0 <= i < |s| ==> 48 <= s[i] <= 57 || s[i] == 95)
    && s[0] != 95 && s[|s| - 1] != 95
    && forall i :: 0 < i < |s| && s[i] == 95 ==> s[i - 1] != 95
  }

  function WithoutUnderscores(s: Bytes): Bytes {
    if s == [] then [] else (if s[0] == 95 then [] else [s[0]]) + WithoutUnderscores(s[1..])
  }

  predicate Blank(s: Bytes) {
    forall i :: 0 <= i < |s| ==> s[i] in [9, 10, 11, 12, 13, 32]
  }

  /** White space, a sign or none, a numeral, white space. */
  predicate IsInteger(s: Bytes, left: Bytes, sign: Bytes, digits: Bytes, right: Bytes) {
    Blank(left) && Blank(right) && sign in [[], [43], [45]] && IsNumeral(digits) && s == left + (sign + digits) + right
  }

  lemma {:induction false} NumeralDigits(s: Bytes)
    requires forall i :: 0 <= i < |s| ==> 48 <= s[i] <= 57 || s[i] == 95
    ensures AllDigits(WithoutUnderscores(s))
    decreases |s|
  {
    if s != [] {
      NumeralDigits(s[1..]);
    }
  }

  /** What may follow a digit (`after`) or not. */
  predicate IsTail(s: Bytes, after: bool) {
    if s == [] then after
    else
      && (forall i :: 0 <= i < |s| ==> 48 <= s[i] <= 57 || s[i] == 95)
      && (s[0] == 95 ==> after) && s[|s| - 1] != 95
      && forall i :: 0 < i < |s| && s[i] == 95 ==> s[i - 1] != 95
  }

  lemma {:induction false} DigitsExactly(s: Bytes, after: bool, acc: nat)
    ensures ParseDigits(s, after, acc).Some? <==> IsTail(s, after)
    ensures IsTail(s, after) ==>
      AllDigits(WithoutUnderscores(s)) && ParseDigits(s, after, acc) == Some(DigitsValue(WithoutUnderscores(s), acc))
    decreases |s|
  {
    if s != [] {
      if IsTail(s, after) {
        NumeralDigits(s);
      }
      var rest := s[1..];
      assert |s| > 1 ==> s[|s| - 1] == rest[|rest| - 1] && s[1] == rest[0];
      assert forall i :: 0 < i < |s| ==> s[i] == rest[i - 1];
      if IsDigit(s[0]) {
        DigitsExactly(rest, true, 10 * acc + DigitValue(s[0]));
        TailAfter(s, after);
        assert ([s[0]] + WithoutUnderscores(rest))[1..] == WithoutUnderscores(rest);
      } else if s[0] == 95 && after {
        DigitsExactly(rest, false, acc);
        TailAfter(s, after);
        assert [] + WithoutUnderscores(rest) == WithoutUnderscores(rest);
      }
    }
  }

  lemma TailAfter(s: Bytes, after: bool)
    requires s != [] && (IsDigit(s[0]) || (s[0] == 95 && after))
    ensures IsTail(s, after) <==> IsTail(s[1..], IsDigit(s[0]))
    ensures WithoutUnderscores(s) == (if s[0] == 95 then [] else [s[0]]) + WithoutUnderscores(s[1..])
  {
    var rest := s[1..];
    assert forall i :: 0 < i < |s| ==> s[i] == rest[i - 1];
    assert forall i :: 0 < i < |rest| ==> rest[i] == s[i + 1] && rest[i - 1] == s[i];
    assert |s| > 1 ==> s[|s| - 1] == rest[|rest| - 1];
  }

  lemma {:induction false} StripLeftOf(left: Bytes, t: Bytes)
    requires Blank(left) && (t != [] ==> !IsSpace(t[0]))
    ensures StripLeft(left + t) == t
    decreases |left|
  {
    if left == [] {
      assert left + t == t;
    } else {
      assert left[0] in [9, 10, 11, 12, 13, 32] && (left + t)[1..] == left[1..] + t;
      StripLeftOf(left[1..], t);
    }
  }

  lemma {:induction false} StripRightOf(t: Bytes, right: Bytes)
    requires Blank(right) && (t != [] ==> !IsSpace(t[|t| - 1]))
    ensures StripRight(t + right) == t
    decreases |right|
  {
    if right == [] {
      assert t + right == t;
    } else {
      var n, s := |right| - 1, t + right;
      assert IsSpace(right[n]) && s[|s| - 1] == right[n] && s[..|s| - 1] == t + right[..n];
      StripRightOf(t, right[..n]);
    }
  }

  lemma {:induction false} LeftStripped(s: Bytes) returns (left: Bytes)
    ensures Blank(left) && s == left + StripLeft(s)
    decreases |s|
  {
    left := [];
    if s != [] && IsSpace(s[0]) {
      var more := LeftStripped(s[1..]);
      left := [s[0]] + more;
    }
  }

  lemma {:induction false} RightStripped(s: Bytes) returns (right: Bytes)
    ensures Blank(right) && s == StripRight(s) + right
    decreases |s|
  {
    right := [];
    if s != [] && IsSpace(s[|s| - 1]) {
      var more := RightStripped(s[..|s| - 1]);
      right := more + [s[|s| - 1]];
    }
  }

  function Signed(sign: Bytes, n: nat): int {
    if sign == [45] then 0 - n else n
  }

  lemma SignedParses(sign: Bytes, digits: Bytes)
    requires sign in [[], [43], [45]] && IsNumeral(digits)
    ensures AllDigits(WithoutUnderscores(digits))
    ensures var t := sign + digits;
      var r := if t[0] == 43 || t[0] == 45 then ParseDigits(t[1..], false, 0) else ParseDigits(t, false, 0);
      && r == Some(DigitsValue(WithoutUnderscores(digits), 0))
      && (t[0] == 45 <==> sign == [45]) && !IsSpace(t[0]) && !IsSpace(t[|t| - 1])
  {
    var t := sign + digits;
    DigitsExactly(digits, false, 0);
    assert t[|t| - 1] == digits[|digits| - 1];
    if sign == [] {
      assert t == digits;
    } else {
      assert t[1..] == digits && t[0] == sign[0];
    }
  }

  /** `int` of a byte string: which are integers, and of which value. */
  lemma IntegersExactly(s: Bytes, n: int)
    ensures ParseInt(s) == Some(n) <==>
      exists left, sign, digits, right ::
        && IsInteger(s, left, sign, digits, right) && AllDigits(WithoutUnderscores(digits))
        && n == Signed(sign, DigitsValue(WithoutUnderscores(digits), 0))
  {
    if ParseInt(s) == Some(n) {
      var left, sign, digits, right := IntegerParts(s);
    }
    if left, sign, digits, right :|
      && IsInteger(s, left, sign, digits, right) && AllDigits(WithoutUnderscores(digits))
      && n == Signed(sign, DigitsValue(WithoutUnderscores(digits), 0))
    {
      IntegerParses(s, left, sign, digits, right);
    }
  }

  lemma IntegerParses(s: Bytes, left: Bytes, sign: Bytes, digits: Bytes, right: Bytes)
    requires IsInteger(s, left, sign, digits, right)
    ensures AllDigits(WithoutUnderscores(digits)) && ParseInt(s) == Some(Signed(sign, DigitsValue(WithoutUnderscores(digits), 0)))
  {
    var t := sign + digits;
    SignedParses(sign, digits);
    assert s == left + (t + right) && (t + right)[0] == t[0];
    StripLeftOf(left, t + right);
    StripRightOf(t, right);
  }

  lemma IntegerParts(s: Bytes) returns (left: Bytes, sign: Bytes, digits: Bytes, right: Bytes)
    requires ParseInt(s).Some?
    ensures IsInteger(s, left, sign, digits, right) && AllDigits(WithoutUnderscores(digits))
    ensures ParseInt(s).value == Signed(sign, DigitsValue(WithoutUnderscores(digits), 0))
  {
    left := LeftStripped(s);
    right := RightStripped(StripLeft(s));
    sign, digits := SignedParts(StripRight(StripLeft(s)));
    Between(s, left, sign + digits, right);
  }

  lemma Between(s: Bytes, left: Bytes, t: Bytes, right: Bytes)
    requires s == left + (t + right)
    ensures s == left + t + right
  {
  }

  lemma SignedParts(t: Bytes) returns (sign: Bytes, digits: Bytes)
    requires (if t != [] && (t[0] == 43 || t[0] == 45) then ParseDigits(t[1..], false, 0) else ParseDigits(t, false, 0)).Some?
    ensures t == sign + digits && sign in [[], [43], [45]] && IsNumeral(digits) && AllDigits(WithoutUnderscores(digits))
    ensures sign == [45] <==> t != [] && t[0] == 45
    ensures ParseDigits(digits, false, 0) == Some(DigitsValue(WithoutUnderscores(digits), 0))
    ensures digits == if t != [] && (t[0] == 43 || t[0] == 45) then t[1..] else t
  {
    if t != [] && (t[0] == 43 || t[0] == 45) {
      sign, digits := [t[0]], t[1..];
    } else {
      sign, digits := [], t;
    }
    DigitsExactly(digits, false, 0);
  }
}
