/** Set-Cookie headers (mitmproxy/net/http/cookies.py).

    The scanners, the formatter, and exactly which cookies survive
    being formatted and parsed again. */
module Cookies {
  import opened Chars
  import opened Options

  /** A key with a value, or a key that stands alone. */
  datatype Pair = Pair(key: string, value: Option<string>)

  datatype SetCookie = SetCookie(name: string, value: Option<string>, attrs: seq<Pair>)

  const KEY_END := ";=,"
  const VALUE_END := ";,"

  // ----- characters -----

  predicate NoneIn(s: string, term: string) {
    forall i :: 0 <= i < |s| ==> s[i] !in term
  }

  /** What is left at an offset that may lie past the end. */
  function From(s: string, off: nat): string {
    if off <= |s| then s[off..] else ""
  }

  // ----- scanners: what is read and what is left -----

  function ReadUntil(t: string, term: string): (r: (string, string))
    ensures |r.0| + |r.1| == |t|
  {
    if t == "" || t[0] in term then ("", t)
    else
      var (read, left) := ReadUntil(t[1..], term);
      ([t[0]] + read, left)
  }

  /** What follows an opening quote. */
  function Unquote(t: string, escaping: bool): (r: (string, string))
    ensures |r.1| <= |t|
  {
    if t == "" then ("", "")
    else if !escaping && t[0] == '"' then ("", t[1..])
    else if !escaping && t[0] == '\\' then Unquote(t[1..], true)
    else
      var (read, left) := Unquote(t[1..], false);
      ([t[0]] + read, left)
  }

  function ReadValue(t: string, term: string): (r: (string, string))
    ensures |r.1| <= |t|
  {
    if t == "" then ("", "")
    else if t[0] == '"' then Unquote(t[1..], false)
    else ReadUntil(t, term)
  }

  predicate IsExpires(key: string) {
    Lower(key) == "expires"
  }

  predicate IsUnquoted(key: string) {
    Lower(key) == "expires" || Lower(key) == "path"
  }

  function ReadSetCookieValue(key: string, t: string): (r: (string, string))
    ensures |r.1| <= |t|
  {
    var (read, left) := ReadValue(t, VALUE_END);
    if IsExpires(key) && |read| <= 3 then
      var (trail, left') := ReadValue(From(left, 1), VALUE_END);
      (read + "," + trail, left')
    else
      (read, left)
  }

  function ReadPair(t: string): (r: (Option<Pair>, string))
    ensures |r.1| <= |t|
  {
    var (lhs, left) := ReadUntil(t, KEY_END);
    var key := StripLeft(lhs);
    if left != "" && left[0] == '=' then
      var (value, left') := ReadSetCookieValue(key, left[1..]);
      (Some(Pair(key, Some(value))), left')
    else if key != "" then (Some(Pair(key, None)), left)
    else (None, left)
  }

  function WithPair(pairs: seq<Pair>, p: Option<Pair>): seq<Pair> {
    if p.Some? then pairs + [p.value] else pairs
  }

  predicate IsComma(left: string) {
    left != "" && left[0] == ','
  }

  /** The finished cookies: a comma begins a new one. */
  function Finished(cookies: seq<seq<Pair>>, pairs: seq<Pair>, left: string): seq<seq<Pair>> {
    if IsComma(left) then cookies + [pairs] else cookies
  }

  function Current(pairs: seq<Pair>, left: string): seq<Pair> {
    if IsComma(left) then [] else pairs
  }

  function Close(cookies: seq<seq<Pair>>, pairs: seq<Pair>): seq<seq<Pair>> {
    if pairs != [] || cookies == [] then cookies + [pairs] else cookies
  }

  /** The scan from `t` on, with the finished cookies and the pairs of the current one. */
  function Scan(t: string, cookies: seq<seq<Pair>>, pairs: seq<Pair>): seq<seq<Pair>>
    decreases |t|, 1
  {
    var (p, left) := ReadPair(t);
    ScanOn(t, left, cookies, WithPair(pairs, p))
  }

  function ScanOn(t: string, left: string, cookies: seq<seq<Pair>>, pairs: seq<Pair>): seq<seq<Pair>>
    requires |left| <= |t|
    decreases |t|, 0
  {
    if |left| > 1 then Scan(left[1..], Finished(cookies, pairs, left), Current(pairs, left))
    else Close(Finished(cookies, pairs, left), Current(pairs, left))
  }

  function CookieOf(pairs: seq<Pair>): SetCookie
    requires pairs != []
  {
    SetCookie(pairs[0].key, pairs[0].value, pairs[1..])
  }

  function CookiesOf(cookies: seq<seq<Pair>>): seq<SetCookie> {
    if cookies == [] then []
    else if cookies[0] == [] then CookiesOf(cookies[1..])
    else [CookieOf(cookies[0])] + CookiesOf(cookies[1..])
  }

  function ParseSetCookieHeader(line: string): seq<SetCookie> {
    CookiesOf(Scan(line, [], []))
  }

  // ----- the scanners' loops -----

  function After(read: string, r: (string, string)): (string, string) {
    (read + r.0, r.1)
  }

  lemma AfterNothing(r: (string, string))
    ensures After("", r) == r
  {
    assert "" + r.0 == r.0;
  }

  lemma AfterOneMore(read: string, c: char, r: (string, string))
    ensures After(read, ([c] + r.0, r.1)) == After(read + [c], r)
  {
    assert read + ([c] + r.0) == read + [c] + r.0;
  }

  method ReadUntilLoop(s: string, start: nat, term: string) returns (read: string, off: nat)
    requires start <= |s|
    ensures start <= off && (start == |s| ==> start < off)
    ensures (read, From(s, off)) == ReadUntil(s[start..], term)
  {
    if start == |s| {
      return "", start + 1;
    }
    AfterNothing(ReadUntil(s[start..], term));
    assert s[start..start] == "";
    for i := start to |s|
      invariant ReadUntil(s[start..], term) == After(s[start..i], ReadUntil(s[i..], term))
    {
      if s[i] in term {
        assert s[start..i] + "" == s[start..i];
        return s[start..i], i;
      }
      assert s[i..][1..] == s[i + 1..] && s[start..i] + [s[i]] == s[start..i + 1];
      AfterOneMore(s[start..i], s[i], ReadUntil(s[i + 1..], term));
    }
    assert s[start..|s|] == s[start..] && s[|s|..] == "" && s[start..] + "" == s[start..];
    return s[start..], |s|;
  }

  method ReadQuotedString(s: string, start: nat) returns (ret: string, off: nat)
    requires start < |s| && s[start] == '"'
    ensures start < off
    ensures (ret, From(s, off)) == Unquote(s[start + 1..], false)
  {
    var escaping := false;
    ret := "";
    AfterNothing(Unquote(s[start + 1..], false));
    for i := start + 1 to |s|
      invariant Unquote(s[start + 1..], false) == After(ret, Unquote(s[i..], escaping))
    {
      assert s[i..][1..] == s[i + 1..];
      if escaping {
        AfterOneMore(ret, s[i], Unquote(s[i + 1..], false));
        ret, escaping := ret + [s[i]], false;
      } else if s[i] == '"' {
        assert ret + "" == ret;
        return ret, i + 1;
      } else if s[i] == '\\' {
        escaping := true;
      } else {
        AfterOneMore(ret, s[i], Unquote(s[i + 1..], false));
        ret := ret + [s[i]];
      }
    }
    assert s[|s|..] == "" && ret + "" == ret;
    return ret, |s|;
  }

  method ReadValueAt(s: string, start: nat, term: string) returns (read: string, off: nat)
    ensures start <= off
    ensures (read, From(s, off)) == ReadValue(From(s, start), term)
  {
    if start >= |s| {
      return "", start;
    } else if s[start] == '"' {
      assert s[start..][1..] == s[start + 1..];
      read, off := ReadQuotedString(s, start);
    } else {
      read, off := ReadUntilLoop(s, start, term);
    }
  }

  lemma FromFrom(s: string, off: nat)
    ensures From(From(s, off), 1) == From(s, off + 1)
  {
  }

  method ReadSetCookieValueAt(s: string, start: nat, key: string) returns (rhs: string, off: nat)
    ensures start <= off
    ensures (rhs, From(s, off)) == ReadSetCookieValue(key, From(s, start))
  {
    rhs, off := ReadValueAt(s, start, VALUE_END);
    if IsExpires(key) && |rhs| <= 3 {
      var trail;
      FromFrom(s, off);
      trail, off := ReadValueAt(s, off + 1, VALUE_END);
      rhs := rhs + "," + trail;
    }
  }

  method ReadPairAt(s: string, start: nat) returns (p: Option<Pair>, off: nat)
    requires start <= |s|
    ensures start <= off && (start == |s| ==> start < off)
    ensures (p, From(s, off)) == ReadPair(s[start..])
  {
    var lhs;
    lhs, off := ReadUntilLoop(s, start, KEY_END);
    lhs := StripLeft(lhs);
    p := None;
    if off < |s| && s[off] == '=' {
      var rhs;
      FromFrom(s, off);
      rhs, off := ReadSetCookieValueAt(s, off + 1, lhs);
      p := Some(Pair(lhs, Some(rhs)));
    } else if lhs != "" {
      p := Some(Pair(lhs, None));
    }
  }

  /** One turn of the loop: a pair, a comma that ends the cookie, and the step over the delimiter. */
  method ScanTurn(s: string, start: nat, cookies: seq<seq<Pair>>, pairs: seq<Pair>)
      returns (off: nat, cookies': seq<seq<Pair>>, pairs': seq<Pair>)
    requires start <= |s|
    ensures off > start
    ensures off < |s| ==> Scan(s[start..], cookies, pairs) == Scan(s[off..], cookies', pairs')
    ensures off >= |s| ==> Scan(s[start..], cookies, pairs) == Close(cookies', pairs')
  {
    var p;
    p, off := ReadPairAt(s, start);
    cookies', pairs' := cookies, WithPair(pairs, p);
    if off < |s| && s[off] == ',' {
      cookies', pairs' := cookies' + [pairs'], [];
    }
    ScanStep(s, start, cookies, pairs, p, off, cookies', pairs');
    off := off + 1;
  }

  /** The loop over a whole header; the offset strictly advances, so it ends. */
  method ReadSetCookiePairs(s: string) returns (cookies: seq<seq<Pair>>, off: nat)
    ensures cookies == Scan(s, [], []) && off >= |s|
  {
    ghost var result := Scan(s, [], []);
    off := 0;
    cookies := [];
    var pairs: seq<Pair>, more := [], true;
    assert s[0..] == s;
    while more
      invariant more ==> off <= |s| && result == Scan(s[off..], cookies, pairs)
      invariant !more ==> off >= |s| && result == Close(cookies, pairs)
      decreases more, |s| - off
    {
      off, cookies, pairs := ScanTurn(s, off, cookies, pairs);
      more := off < |s|;
    }
    if pairs != [] || cookies == [] {
      cookies := cookies + [pairs];
    }
  }

  lemma ScanStep(s: string, start: nat, cookies: seq<seq<Pair>>, pairs: seq<Pair>, p: Option<Pair>, off: nat,
      cookies': seq<seq<Pair>>, pairs': seq<Pair>)
    requires start <= |s| && start <= off && (p, From(s, off)) == ReadPair(s[start..])
    requires cookies' == Finished(cookies, WithPair(pairs, p), From(s, off))
    requires pairs' == Current(WithPair(pairs, p), From(s, off))
    ensures off + 1 < |s| ==> Scan(s[start..], cookies, pairs) == Scan(s[off + 1..], cookies', pairs')
    ensures off + 1 >= |s| ==> Scan(s[start..], cookies, pairs) == Close(cookies', pairs')
  {
    FromFrom(s, off);
  }

  method ParseHeader(line: string) returns (r: seq<SetCookie>)
    ensures r == ParseSetCookieHeader(line)
  {
    var cookies, _ := ReadSetCookiePairs(line);
    r := [];
    assert cookies[0..] == cookies;
    for i := 0 to |cookies|
      invariant CookiesOf(cookies) == r + CookiesOf(cookies[i..])
    {
      assert cookies[i..][1..] == cookies[i + 1..];
      if cookies[i] != [] {
        assert r + ([CookieOf(cookies[i])] + CookiesOf(cookies[i + 1..])) == r + [CookieOf(cookies[i])] + CookiesOf(cookies[i + 1..]);
        r := r + [CookieOf(cookies[i])];
      }
    }
    assert cookies[|cookies|..] == [] && r + [] == r;
  }

  // ----- formatting -----

  predicate IsSpecial(c: char) {
    c in "\",;\\" || (c as int) < 0x21 || (c as int) > 0x7E
  }

  predicate HasSpecial(s: string) {
    exists i :: 0 <= i < |s| && IsSpecial(s[i])
  }

  /** A backslash before every quote and backslash. */
  function Escape(s: string): string {
    if s == "" then ""
    else if s[0] == '"' || s[0] == '\\' then ['\\', s[0]] + Escape(s[1..])
    else [s[0]] + Escape(s[1..])
  }

  function FormatValue(key: string, value: string): string {
    if !IsUnquoted(key) && HasSpecial(value) then "\"" + Escape(value) + "\"" else value
  }

  /** The octets of a plain cookie value, by section 4.1.1 of RFC 6265. */
  predicate IsCookieOctet(c: char) {
    var o := c as int;
    o == 0x21 || 0x23 <= o <= 0x2B || 0x2D <= o <= 0x3A || 0x3C <= o <= 0x5B || 0x5D <= o <= 0x7E
  }

  /** Which values are written as they are: those of expires and path, and those made of cookie-octets alone. Every other
      value stands between quotes, in which a backslash comes before every quote and backslash. */
  lemma WrittenAsIs(key: string, value: string)
    ensures FormatValue(key, value) == value <==> Lower(key) in ["expires", "path"] || forall c :: c in value ==> IsCookieOctet(c)
    ensures FormatValue(key, value) == value || FormatValue(key, value) == "\"" + Escape(value) + "\""
  {
    EscapeGrows(value);
    assert forall c :: IsCookieOctet(c) <==> !IsSpecial(c);
    if HasSpecial(value) {
      var i :| 0 <= i < |value| && IsSpecial(value[i]);
      assert value[i] in value && !IsCookieOctet(value[i]);
    }
  }

  lemma {:induction false} EscapeGrows(s: string)
    ensures |Escape(s)| >= |s|
  {
    if s != "" {
      EscapeGrows(s[1..]);
    }
  }

  function FormatPair(p: Pair): string {
    if p.value.None? then p.key else p.key + "=" + FormatValue(p.key, p.value.value)
  }

  function FormatPairs(pairs: seq<Pair>): string {
    JoinWith("; ", FormattedPairs(pairs))
  }

  function FormattedPairs(pairs: seq<Pair>): (parts: seq<string>)
    ensures |parts| == |pairs|
  {
    if pairs == [] then [] else [FormatPair(pairs[0])] + FormattedPairs(pairs[1..])
  }

  function PairsOf(c: SetCookie): (pairs: seq<Pair>)
    ensures pairs != [] && CookieOf(pairs) == c
  {
    [Pair(c.name, c.value)] + c.attrs
  }

  function FormattedCookies(cookies: seq<SetCookie>): (parts: seq<string>)
    ensures |parts| == |cookies|
  {
    if cookies == [] then [] else [FormatPairs(PairsOf(cookies[0]))] + FormattedCookies(cookies[1..])
  }

  function FormatSetCookieHeader(cookies: seq<SetCookie>): string {
    JoinWith(", ", FormattedCookies(cookies))
  }

  method HasSpecialLoop(s: string) returns (r: bool)
    ensures r == HasSpecial(s)
  {
    for i := 0 to |s|
      invariant forall j :: 0 <= j < i ==> !IsSpecial(s[j])
    {
      if IsSpecial(s[i]) {
        return true;
      }
    }
    return false;
  }

  method FormatPairsLoop(pairs: seq<Pair>) returns (line: string)
    ensures line == FormatPairs(pairs)
  {
    var vals := [];
    assert pairs[0..] == pairs;
    for i := 0 to |pairs|
      invariant FormattedPairs(pairs) == vals + FormattedPairs(pairs[i..])
    {
      var Pair(k, v) := pairs[i];
      var val := k;
      if v.Some? {
        var quote := HasSpecialLoop(v.value);
        val := k + "=" + if !IsUnquoted(k) && quote then "\"" + Escape(v.value) + "\"" else v.value;
      }
      assert pairs[i..][1..] == pairs[i + 1..];
      assert vals + ([val] + FormattedPairs(pairs[i + 1..])) == vals + [val] + FormattedPairs(pairs[i + 1..]);
      vals := vals + [val];
    }
    assert pairs[|pairs|..] == [] && vals + [] == vals;
    return JoinWith("; ", vals);
  }

  method FormatHeader(cookies: seq<SetCookie>) returns (line: string)
    ensures line == FormatSetCookieHeader(cookies)
  {
    var rv := [];
    assert cookies[0..] == cookies;
    for i := 0 to |cookies|
      invariant FormattedCookies(cookies) == rv + FormattedCookies(cookies[i..])
    {
      var val := FormatPairsLoop([Pair(cookies[i].name, cookies[i].value)] + cookies[i].attrs);
      assert cookies[i..][1..] == cookies[i + 1..];
      assert rv + ([val] + FormattedCookies(cookies[i + 1..])) == rv + [val] + FormattedCookies(cookies[i + 1..]);
      rv := rv + [val];
    }
    assert cookies[|cookies|..] == [] && rv + [] == rv;
    return JoinWith(", ", rv);
  }

  // ----- what survives -----

  predicate EndsValue(t: string) {
    t == "" || t[0] == ';' || t[0] == ','
  }

  predicate GoodKey(key: string) {
    key != "" && !IsSpace(key[0]) && NoneIn(key, KEY_END)
  }

  predicate Plain(value: string) {
    NoneIn(value, VALUE_END) && (value != "" ==> value[0] != '"')
  }

  /** Values that come back: an unquoted `path` needs a plain value; `expires` needs a plain value
      of more than three characters, or two plain parts around a comma, the first of at most three. */
  predicate Survives(p: Pair) {
    p.value.None? || !IsUnquoted(p.key) ||
    if IsExpires(p.key) then SurvivesAsExpires(p.value.value) else Plain(p.value.value)
  }

  predicate SurvivesAsExpires(value: string) {
    var head := ReadUntil(value, VALUE_END).0;
    && (value != "" ==> value[0] != '"')
    && if |head| > 3 then head == value else |head| < |value| && value[|head|] == ',' && Plain(value[|head| + 1..])
  }

  lemma {:induction false} ReadUntilEnd(a: string, b: string, term: string)
    requires NoneIn(a, term) && (b != "" ==> b[0] in term)
    ensures ReadUntil(a + b, term) == (a, b)
  {
    if a == "" {
      assert a + b == b;
    } else {
      assert (a + b)[1..] == a[1..] + b && [a[0]] + a[1..] == a;
      ReadUntilEnd(a[1..], b, term);
    }
  }

  lemma {:induction false} ReadUntilParts(t: string, term: string)
    ensures var (read, left) := ReadUntil(t, term);
      t == read + left && NoneIn(read, term) && (left != "" ==> left[0] in term)
  {
    if t != "" && t[0] !in term {
      ReadUntilParts(t[1..], term);
    }
  }

  lemma {:induction false} UnquoteEscaped(value: string, rest: string)
    ensures Unquote(Escape(value) + ("\"" + rest), false) == (value, rest)
  {
    var end := "\"" + rest;
    if value == "" {
      assert Escape(value) + end == end && end[1..] == rest;
    } else {
      var more := Escape(value[1..]) + end;
      UnquoteEscaped(value[1..], rest);
      assert [value[0]] + value[1..] == value;
      EscapeFirst(value, end);
      if value[0] == '"' || value[0] == '\\' {
        UnquoteEscape(value[0], more);
      } else {
        UnquotePlain(value[0], more);
      }
    }
  }

  lemma EscapeFirst(value: string, end: string)
    requires value != ""
    ensures Escape(value) + end
         == (if value[0] == '"' || value[0] == '\\' then ['\\', value[0]] else [value[0]]) + (Escape(value[1..]) + end)
  {
  }

  lemma UnquoteEscape(c: char, more: string)
    ensures Unquote(['\\', c] + more, false) == After([c], Unquote(more, false))
  {
    var t := ['\\', c] + more;
    assert t[1..][0] == c && t[1..][1..] == more;
  }

  lemma UnquotePlain(c: char, more: string)
    requires c != '"' && c != '\\'
    ensures Unquote([c] + more, false) == After([c], Unquote(more, false))
  {
    assert ([c] + more)[1..] == more;
  }

  lemma ReadPlain(value: string, rest: string)
    requires Plain(value) && EndsValue(rest)
    ensures ReadValue(value + rest, VALUE_END) == (value, rest)
  {
    ReadUntilEnd(value, rest, VALUE_END);
    if value == "" {
      assert value + rest == rest;
    }
  }

  /** To give back a value that begins with a quote, the text would have to be all escapes. */
  lemma AllEscapes(t: string, value: string)
    requires value != "" && value <= t && value[0] == '"'
    ensures Unquote(t[1..], false).0 == value ==> |value| < |t| && (t[|value|] == '"' || t[|value|] == '\\')
  {
    if Unquote(t[1..], false).0 == value {
      var i := 0;
      assert value[0..] == value;
      while i < |value|
        invariant 0 <= i <= |value| && 2 * i + 1 <= |t|
        invariant forall j :: 0 <= j < 2 * i + 1 ==> t[j] == '"' || t[j] == '\\'
        invariant Unquote(t[2 * i + 1..], false).0 == value[i..]
      {
        assert value[i] == t[i];
        UnquoteSpecial(t[2 * i + 1..], value[i..]);
        assert t[2 * i + 1..][1..][1..] == t[2 * i + 3..];
        assert value[i..][1..] == value[i + 1..];
        i := i + 1;
      }
    }
  }

  /** A value that begins with a quote never comes back. */
  lemma LeadingQuoteIsLost(value: string, rest: string)
    requires value != "" && value[0] == '"' && EndsValue(rest)
    ensures Unquote((value + rest)[1..], false).0 != value
  {
    assert rest != "" ==> (value + rest)[|value|] == rest[0];
    AllEscapes(value + rest, value);
  }

  lemma UnquoteSpecial(t: string, r: string)
    requires r != "" && (r[0] == '"' || r[0] == '\\') && Unquote(t, false).0 == r
    ensures |t| >= 2 && t[0] == '\\' && t[1] == r[0] && Unquote(t[1..][1..], false).0 == r[1..]
  {
  }

  lemma {:induction false} ReadUntilWithin(value: string, rest: string, term: string)
    requires !NoneIn(value, term)
    ensures ReadUntil(value + rest, term) == (ReadUntil(value, term).0, ReadUntil(value, term).1 + rest)
    ensures ReadUntil(value, term).1 != ""
  {
    assert (value + rest)[0] == value[0];
    if value[0] !in term {
      assert (value + rest)[1..] == value[1..] + rest;
      assert forall i :: 0 < i < |value| ==> value[i] == value[1..][i - 1];
      ReadUntilWithin(value[1..], rest, term);
    }
  }

  /** Unquoted text is read back exactly when it is plain. */
  lemma PlainExactly(value: string, rest: string)
    requires EndsValue(rest)
    ensures ReadValue(value + rest, VALUE_END).0 == value <==> Plain(value)
    ensures Plain(value) ==> ReadValue(value + rest, VALUE_END).1 == rest
  {
    if Plain(value) {
      ReadPlain(value, rest);
    } else if value[0] == '"' {
      LeadingQuoteIsLost(value, rest);
    } else {
      ReadUntilParts(value + rest, VALUE_END);
    }
  }

  lemma QuotedExactly(value: string, rest: string)
    ensures ReadValue("\"" + Escape(value) + "\"" + rest, VALUE_END) == (value, rest)
  {
    var t := "\"" + Escape(value) + "\"" + rest;
    assert t[1..] == Escape(value) + ("\"" + rest);
    UnquoteEscaped(value, rest);
  }

  /** An `expires` value is read back exactly when it has the shape SurvivesAsExpires. */
  lemma ExpiresExactly(key: string, value: string, rest: string)
    requires IsExpires(key) && EndsValue(rest)
    ensures ReadSetCookieValue(key, value + rest).0 == value <==> SurvivesAsExpires(value)
    ensures SurvivesAsExpires(value) ==> ReadSetCookieValue(key, value + rest).1 == rest
  {
    if value != "" && value[0] == '"' {
      QuotedExpires(key, value, rest);
    } else if NoneIn(value, VALUE_END) {
      ReadPlain(value, rest);
      ReadUntilEnd(value, "", VALUE_END);
      assert value + "" == value;
    } else {
      CommaExpires(key, value, rest);
    }
  }

  lemma QuotedExpires(key: string, value: string, rest: string)
    requires IsExpires(key) && EndsValue(rest) && value != "" && value[0] == '"'
    ensures ReadSetCookieValue(key, value + rest).0 != value
  {
    LeadingQuoteIsLost(value, rest);
    var read := Unquote((value + rest)[1..], false).0;
    var all := ReadSetCookieValue(key, value + rest).0;
    if |read| <= 3 {
      assert read + [','] <= all;
      if all == value {
        assert value[|read|] == ',' && (value + rest)[|read|] == ',';
        assert read != "" && read[0] == '"' && read <= value + rest;
        AllEscapes(value + rest, read);
      }
    }
  }

  lemma CommaExpires(key: string, value: string, rest: string)
    requires IsExpires(key) && EndsValue(rest) && value != "" && value[0] != '"' && !NoneIn(value, VALUE_END)
    ensures ReadSetCookieValue(key, value + rest).0 == value <==> SurvivesAsExpires(value)
    ensures SurvivesAsExpires(value) ==> ReadSetCookieValue(key, value + rest).1 == rest
  {
    var (head, tail) := ReadUntil(value, VALUE_END);
    ReadUntilParts(value, VALUE_END);
    ReadUntilWithin(value, rest, VALUE_END);
    assert ReadValue(value + rest, VALUE_END) == (head, tail + rest);
    var second := value[|head| + 1..];
    assert From(tail + rest, 1) == second + rest;
    PlainExactly(second, rest);
    var read := head + "," + ReadValue(second + rest, VALUE_END).0;
    assert value == head + [value[|head|]] + second;
    assert read[|head|] == ',' && read[|head| + 1..] == ReadValue(second + rest, VALUE_END).0;
  }

  /** A formatted value is read back exactly when the pair survives. */
  lemma ValueExactly(key: string, value: string, rest: string)
    requires EndsValue(rest)
    ensures ReadSetCookieValue(key, FormatValue(key, value) + rest).0 == value <==> Survives(Pair(key, Some(value)))
    ensures Survives(Pair(key, Some(value))) ==> ReadSetCookieValue(key, FormatValue(key, value) + rest).1 == rest
  {
    if IsExpires(key) {
      ExpiresExactly(key, value, rest);
    } else if IsUnquoted(key) {
      PlainExactly(value, rest);
    } else if HasSpecial(value) {
      QuotedExactly(value, rest);
    } else {
      assert Plain(value);
      ReadPlain(value, rest);
    }
  }

  predicate IsLead(lead: string) {
    lead == "" || lead == " "
  }

  /** A formatted pair is scanned as its key with what is read for its value. */
  lemma PairExactly(lead: string, p: Pair, rest: string)
    requires IsLead(lead) && GoodKey(p.key) && EndsValue(rest)
    ensures ReadPair(lead + FormatPair(p) + rest).0.Some?
    ensures ReadPair(lead + FormatPair(p) + rest).0.value.key == p.key
    ensures ReadPair(lead + FormatPair(p) + rest).0 == Some(p) <==> Survives(p)
    ensures Survives(p) ==> ReadPair(lead + FormatPair(p) + rest).1 == rest
  {
    var t, lhs := lead + FormatPair(p) + rest, lead + p.key;
    assert StripLeft(lhs) == p.key by {
      assert lead == " " ==> lhs[1..] == p.key;
      assert lead == "" ==> lhs == p.key;
    }
    if p.value.None? {
      assert t == lhs + rest;
      ReadUntilEnd(lhs, rest, KEY_END);
    } else {
      var value := FormatValue(p.key, p.value.value);
      FormattedText(lead, p.key, value, rest);
      ReadUntilEnd(lhs, "=" + value + rest, KEY_END);
      ValueExactly(p.key, p.value.value, rest);
    }
  }

  lemma FormattedText(lead: string, key: string, value: string, rest: string)
    ensures lead + (key + "=" + value) + rest == lead + key + ("=" + value + rest)
    ensures ("=" + value + rest)[1..] == value + rest
  {
  }

  // ----- whole headers -----

  predicate GoodKeys(cookies: seq<SetCookie>) {
    forall i :: 0 <= i < |cookies| ==> GoodPairs(PairsOf(cookies[i]))
  }

  predicate GoodPairs(pairs: seq<Pair>) {
    forall i :: 0 <= i < |pairs| ==> GoodKey(pairs[i].key)
  }

  predicate AllSurvive(pairs: seq<Pair>) {
    forall i :: 0 <= i < |pairs| ==> Survives(pairs[i])
  }

  /** What follows the pair in hand: the rest of its cookie, then the other cookies. */
  function Remainder(pairs: seq<Pair>, cookies: seq<SetCookie>): (rest: string)
    ensures EndsValue(rest)
    decreases |cookies|, |pairs|
  {
    if pairs != [] then "; " + (FormatPair(pairs[0]) + Remainder(pairs[1..], cookies))
    else if cookies != [] then ", " + CookieText(cookies[0], cookies[1..])
    else ""
  }

  function CookieText(c: SetCookie, cookies: seq<SetCookie>): string
    decreases |cookies|, |c.attrs| + 1
  {
    FormatPair(Pair(c.name, c.value)) + Remainder(c.attrs, cookies)
  }

  lemma {:induction false} PairsText(pairs: seq<Pair>, cookies: seq<SetCookie>)
    requires pairs != []
    ensures FormatPairs(pairs) + Remainder([], cookies) == FormatPair(pairs[0]) + Remainder(pairs[1..], cookies)
    decreases |pairs|
  {
    var parts := FormattedPairs(pairs);
    if |pairs| == 1 {
      assert pairs[1..] == [];
    } else {
      assert parts[1..] == FormattedPairs(pairs[1..]);
      PairsText(pairs[1..], cookies);
      var a, b, c := FormatPair(pairs[0]), FormatPairs(pairs[1..]), Remainder([], cookies);
      assert a + "; " + b + c == a + ("; " + (b + c));
    }
  }

  lemma {:induction false} HeaderText(cookies: seq<SetCookie>)
    requires cookies != []
    ensures FormatSetCookieHeader(cookies) == CookieText(cookies[0], cookies[1..])
    decreases |cookies|
  {
    var first := PairsOf(cookies[0]);
    assert first[1..] == cookies[0].attrs;
    PairsText(first, cookies[1..]);
    var parts := FormattedCookies(cookies);
    if |cookies| == 1 {
      assert Remainder([], cookies[1..]) == "";
      assert FormatPairs(first) + "" == FormatPairs(first);
    } else {
      assert parts[1..] == FormattedCookies(cookies[1..]);
      HeaderText(cookies[1..]);
      assert FormatPairs(first) + ", " + FormatSetCookieHeader(cookies[1..]) == FormatPairs(first) + (", " + FormatSetCookieHeader(cookies[1..]));
    }
  }

  lemma {:induction false} CookiesOfAppend(a: seq<seq<Pair>>, b: seq<seq<Pair>>)
    ensures CookiesOf(a + b) == CookiesOf(a) + CookiesOf(b)
    decreases |a|
  {
    if a == [] {
      assert a + b == b;
    } else {
      assert (a + b)[1..] == a[1..] + b;
      CookiesOfAppend(a[1..], b);
    }
  }

  lemma CookiesOfOne(pairs: seq<Pair>)
    ensures CookiesOf([pairs]) == if pairs == [] then [] else [CookieOf(pairs)]
  {
    assert [pairs][1..] == [];
  }

  /** What has been read stays as it is: finished cookies, and the pairs of the current one. */
  lemma {:induction false} ScanKeeps(t: string, cookies: seq<seq<Pair>>, pairs: seq<Pair>)
    requires pairs != []
    ensures var r := Scan(t, cookies, pairs); |r| > |cookies| && r[..|cookies|] == cookies && pairs <= r[|cookies|]
    decreases |t|
  {
    var (p, left) := ReadPair(t);
    var pairs' := WithPair(pairs, p);
    if |left| > 1 {
      if IsComma(left) {
        ScanKeepsFinished(left[1..], cookies + [pairs'], []);
      } else {
        ScanKeeps(left[1..], cookies, pairs');
      }
    }
  }

  lemma {:induction false} ScanKeepsFinished(t: string, cookies: seq<seq<Pair>>, pairs: seq<Pair>)
    ensures cookies <= Scan(t, cookies, pairs)
    decreases |t|
  {
    var (p, left) := ReadPair(t);
    var pairs' := WithPair(pairs, p);
    if |left| > 1 {
      ScanKeepsFinished(left[1..], Finished(cookies, pairs', left), Current(pairs', left));
    }
  }

  /** A pair that is misread spoils the result for good. */
  lemma MisreadPairShows(t: string, left: string, done: seq<seq<Pair>>, now: seq<Pair>, wanted: seq<Pair>, more: seq<SetCookie>)
    requires |left| <= |t| && now != [] && wanted != [] && !(now <= wanted)
    ensures CookiesOf(ScanOn(t, left, done, now)) != CookiesOf(done) + [CookieOf(wanted)] + more
  {
    var r := ScanOn(t, left, done, now);
    assert |r| > |done| && r[..|done|] == done && now <= r[|done|] by {
      if |left| > 1 {
        if IsComma(left) {
          ScanKeepsFinished(left[1..], done + [now], []);
        } else {
          ScanKeeps(left[1..], done, now);
        }
      }
    }
    var x, n := r[|done|], |CookiesOf(done)|;
    CookieAt(r, |done|);
    assert PairsOf(CookieOf(x)) == x && PairsOf(CookieOf(wanted)) == wanted;
    assert CookiesOf(r)[n] == CookieOf(x);
    assert (CookiesOf(done) + [CookieOf(wanted)] + more)[n] == CookieOf(wanted);
  }

  lemma CookieAt(r: seq<seq<Pair>>, i: nat)
    requires i < |r| && r[i] != []
    ensures CookiesOf(r) == CookiesOf(r[..i]) + ([CookieOf(r[i])] + CookiesOf(r[i + 1..]))
  {
    assert r == r[..i] + r[i..];
    CookiesOfAppend(r[..i], r[i..]);
    assert r[i..][1..] == r[i + 1..];
  }

  predicate CookiesSurvive(cookies: seq<SetCookie>) {
    forall i :: 0 <= i < |cookies| ==> AllSurvive(PairsOf(cookies[i]))
  }

  function Text(lead: string, p: Pair, pairs: seq<Pair>, cookies: seq<SetCookie>): string {
    lead + FormatPair(p) + Remainder(pairs, cookies)
  }

  function Wanted(done: seq<seq<Pair>>, pairs: seq<Pair>, cookies: seq<SetCookie>): seq<SetCookie>
    requires pairs != []
  {
    CookiesOf(done) + [CookieOf(pairs)] + cookies
  }

  lemma RemainderPair(pairs: seq<Pair>, cookies: seq<SetCookie>)
    requires pairs != []
    ensures var r := Remainder(pairs, cookies); |r| > 1 && !IsComma(r) && r[1..] == Text(" ", pairs[0], pairs[1..], cookies)
  {
    AfterSeparator(';', FormatPair(pairs[0]), Remainder(pairs[1..], cookies));
  }

  function NamePair(c: SetCookie): Pair {
    Pair(c.name, c.value)
  }

  lemma RemainderCookie(cookies: seq<SetCookie>)
    requires cookies != []
    ensures var r, c := Remainder([], cookies), cookies[0];
      |r| > 1 && IsComma(r) && r[1..] == Text(" ", NamePair(c), c.attrs, cookies[1..])
  {
    var c := cookies[0];
    AfterSeparator(',', FormatPair(NamePair(c)), Remainder(c.attrs, cookies[1..]));
  }

  lemma AfterSeparator(c: char, a: string, b: string)
    ensures var r := [c, ' '] + (a + b); |r| > 1 && r[0] == c && r[1..] == " " + a + b
  {
  }

  lemma ScanSurvivor(lead: string, done: seq<seq<Pair>>, before: seq<Pair>, p: Pair, pairs: seq<Pair>, cookies: seq<SetCookie>)
    requires IsLead(lead) && GoodKey(p.key) && Survives(p)
    ensures var t, left, now := Text(lead, p, pairs, cookies), Remainder(pairs, cookies), before + [p];
      Scan(t, done, before) == if |left| > 1 then Scan(left[1..], Finished(done, now, left), Current(now, left))
                               else Close(Finished(done, now, left), Current(now, left))
  {
    PairExactly(lead, p, Remainder(pairs, cookies));
  }

  lemma ScanMisread(lead: string, done: seq<seq<Pair>>, before: seq<Pair>, p: Pair, pairs: seq<Pair>, cookies: seq<SetCookie>)
    requires IsLead(lead) && GoodKey(p.key) && !Survives(p)
    ensures CookiesOf(Scan(Text(lead, p, pairs, cookies), done, before)) != Wanted(done, before + [p] + pairs, cookies)
  {
    var t := Text(lead, p, pairs, cookies);
    PairExactly(lead, p, Remainder(pairs, cookies));
    var (read, left) := ReadPair(t);
    var now, wanted := before + [read.value], before + [p] + pairs;
    assert wanted[|before|] == p && now[|before|] != p;
    MisreadPairShows(t, left, done, now, wanted, cookies);
  }

  lemma FinishedCookie(done: seq<seq<Pair>>, now: seq<Pair>, cookies: seq<SetCookie>)
    requires now != []
    ensures CookiesOf(done + [now]) == CookiesOf(done) + [CookieOf(now)]
    ensures CookiesOf(done + [now]) + cookies == Wanted(done, now, cookies)
  {
    CookiesOfAppend(done, [now]);
    CookiesOfOne(now);
  }

  lemma WantedNext(done: seq<seq<Pair>>, now: seq<Pair>, cookies: seq<SetCookie>)
    requires now != [] && cookies != []
    ensures Wanted(done, now, cookies) == Wanted(done + [now], PairsOf(cookies[0]), cookies[1..])
  {
    FinishedCookie(done, now, cookies);
    assert CookiesOf(done + [now]) + cookies == CookiesOf(done + [now]) + [cookies[0]] + cookies[1..];
  }

  /** Scanning from a pair on: what comes out is what was formatted exactly when everything survives. */
  lemma {:induction false} ScanExactly(lead: string, done: seq<seq<Pair>>, before: seq<Pair>, p: Pair, pairs: seq<Pair>, cookies: seq<SetCookie>)
    requires IsLead(lead) && GoodKey(p.key) && GoodPairs(pairs) && GoodKeys(cookies)
    ensures CookiesOf(Scan(Text(lead, p, pairs, cookies), done, before)) == Wanted(done, before + [p] + pairs, cookies)
       <==> Survives(p) && AllSurvive(pairs) && CookiesSurvive(cookies)
    decreases |cookies|, |pairs|, 1
  {
    if !Survives(p) {
      ScanMisread(lead, done, before, p, pairs, cookies);
    } else if pairs != [] {
      ScanMorePairs(lead, done, before, p, pairs, cookies);
    } else {
      assert before + [p] + pairs == before + [p];
      ScanSurvivor(lead, done, before, p, pairs, cookies);
      if cookies != [] {
        ScanNextCookie(done, before + [p], cookies);
      } else {
        FinishedCookie(done, before + [p], []);
      }
    }
  }

  lemma Shift(before: seq<Pair>, pairs: seq<Pair>)
    requires pairs != []
    ensures before + [pairs[0]] + pairs[1..] == before + pairs
  {
  }

  lemma {:induction false} ScanMorePairs(lead: string, done: seq<seq<Pair>>, before: seq<Pair>, p: Pair, pairs: seq<Pair>, cookies: seq<SetCookie>)
    requires IsLead(lead) && GoodKey(p.key) && GoodPairs(pairs) && GoodKeys(cookies) && Survives(p) && pairs != []
    ensures CookiesOf(Scan(Text(lead, p, pairs, cookies), done, before)) == Wanted(done, before + [p] + pairs, cookies)
       <==> AllSurvive(pairs) && CookiesSurvive(cookies)
    decreases |cookies|, |pairs|, 0
  {
    var now := before + [p];
    ScanSurvivor(lead, done, before, p, pairs, cookies);
    RemainderPair(pairs, cookies);
    ScanExactly(" ", done, now, pairs[0], pairs[1..], cookies);
    Shift(now, pairs);
    AllSurviveUnfold(pairs);
  }

  lemma AllSurviveUnfold(pairs: seq<Pair>)
    requires pairs != []
    ensures AllSurvive(pairs) <==> Survives(pairs[0]) && AllSurvive(pairs[1..])
  {
    assert forall i :: 0 < i < |pairs| ==> pairs[i] == pairs[1..][i - 1];
  }

  lemma {:induction false} ScanNextCookie(done: seq<seq<Pair>>, now: seq<Pair>, cookies: seq<SetCookie>)
    requires cookies != [] && GoodKeys(cookies) && now != []
    ensures |Remainder([], cookies)| > 1 && IsComma(Remainder([], cookies))
    ensures CookiesOf(Scan(Remainder([], cookies)[1..], done + [now], [])) == Wanted(done, now, cookies)
       <==> CookiesSurvive(cookies)
    decreases |cookies|, 0, 0
  {
    var c := cookies[0];
    RemainderCookie(cookies);
    GoodUnfold(cookies);
    ScanExactly(" ", done + [now], [], NamePair(c), c.attrs, cookies[1..]);
    assert [] + [NamePair(c)] + c.attrs == PairsOf(c);
    WantedNext(done, now, cookies);
    SurviveUnfold(cookies);
  }

  lemma GoodUnfold(cookies: seq<SetCookie>)
    requires cookies != [] && GoodKeys(cookies)
    ensures GoodKey(cookies[0].name) && GoodPairs(cookies[0].attrs) && GoodKeys(cookies[1..])
  {
    var pairs := PairsOf(cookies[0]);
    assert pairs[0] == NamePair(cookies[0]);
    assert forall i :: 0 <= i < |cookies[0].attrs| ==> cookies[0].attrs[i] == pairs[i + 1];
  }

  lemma SurviveUnfold(cookies: seq<SetCookie>)
    requires cookies != []
    ensures CookiesSurvive(cookies) <==>
      Survives(NamePair(cookies[0])) && AllSurvive(cookies[0].attrs) && CookiesSurvive(cookies[1..])
  {
    var pairs := PairsOf(cookies[0]);
    assert pairs[0] == NamePair(cookies[0]);
    assert forall i :: 0 <= i < |cookies[0].attrs| ==> cookies[0].attrs[i] == pairs[i + 1];
    assert forall i :: 0 < i < |pairs| ==> pairs[i] == cookies[0].attrs[i - 1];
    assert forall i :: 0 < i < |cookies| ==> cookies[i] == cookies[1..][i - 1];
  }

  /** Parsing a formatted header gives the same cookies back exactly when every unquoted value has its required shape. */
  lemma RoundTripExactly(cookies: seq<SetCookie>)
    requires cookies != [] && GoodKeys(cookies)
    ensures ParseSetCookieHeader(FormatSetCookieHeader(cookies)) == cookies <==> CookiesSurvive(cookies)
  {
    var c, more := cookies[0], cookies[1..];
    HeaderText(cookies);
    GoodUnfold(cookies);
    ScanExactly("", [], [], NamePair(c), c.attrs, more);
    FirstCookie(cookies);
    SurviveUnfold(cookies);
  }

  lemma FirstCookie(cookies: seq<SetCookie>)
    requires cookies != []
    ensures var c, more := cookies[0], cookies[1..];
      && Text("", NamePair(c), c.attrs, more) == CookieText(c, more)
      && [] + [NamePair(c)] + c.attrs == PairsOf(c)
      && Wanted([], PairsOf(c), more) == cookies
  {
    var c := cookies[0];
    assert "" + FormatPair(NamePair(c)) == FormatPair(NamePair(c));
    assert [] + [c] + cookies[1..] == cookies;
  }

  /** Cookies without `expires` and `path` come back whatever their values hold. */
  lemma OrdinaryCookiesRoundTrip(cookies: seq<SetCookie>)
    requires cookies != [] && GoodKeys(cookies)
    requires forall i, j :: 0 <= i < |cookies| && 0 <= j < |PairsOf(cookies[i])| ==> !IsUnquoted(PairsOf(cookies[i])[j].key)
    ensures ParseSetCookieHeader(FormatSetCookieHeader(cookies)) == cookies
  {
    RoundTripExactly(cookies);
  }

  lemma ShortIsMisread(key: string, expires: string)
    requires IsExpires(key) && |expires| <= 3 && NoneIn(expires, ",")
    ensures !Survives(Pair(key, Some(expires)))
  {
    ReadUntilParts(expires, VALUE_END);
  }

  /** `expires=0`, and every other value of at most three characters without a comma, is misread wherever it stands. */
  lemma ShortExpiresIsLost(cookies: seq<SetCookie>, i: nat, j: nat)
    requires GoodKeys(cookies) && i < |cookies| && j < |PairsOf(cookies[i])|
    requires var p := PairsOf(cookies[i])[j];
      IsExpires(p.key) && p.value.Some? && |p.value.value| <= 3 && NoneIn(p.value.value, ",")
    ensures ParseSetCookieHeader(FormatSetCookieHeader(cookies)) != cookies
  {
    var p := PairsOf(cookies[i])[j];
    ShortIsMisread(p.key, p.value.value);
    RoundTripExactly(cookies);
  }
}
