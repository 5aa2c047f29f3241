/** How long a body is: header validation (mitmproxy/net/http/validate.py) and the expected body size
    (mitmproxy/net/http/http1/read.py), after section 6.3 of RFC 9112.

    Header names and values are strings of bytes. */
module Framing {
  import opened Chars
  import opened HttpMessages
  import opened MultiDicts
  import opened Options
  import opened Seqs

  datatype Message =
    | Request(verb: string, http11: bool, headers: Headers)
    | Response(status: int, http11: bool, headers: Headers)

  // ----- parsing single values -----

  predicate IsDigitChar(c: char) {
    '0' <= c <= '9'
  }

  predicate IsTokenChar(c: char) {
    IsDigitChar(c) || 'a' <= c <= 'z' || 'A' <= c <= 'Z' || c in "!#$%&'*+-.^_`|~"
  }

  /** What a pattern that ends in `$` has to match: a newline at the end is let through. */
  function WithoutNewline(s: string): string {
    if s != "" && s[|s| - 1] == '\n' then s[..|s| - 1] else s
  }

  predicate ValidName(name: string) {
    var token := WithoutNewline(name);
    token != "" && forall i :: 0 <= i < |token| ==> IsTokenChar(token[i])
  }

  function DigitOf(c: char): nat
    requires IsDigitChar(c)
  {
    c as int - 48
  }

  function NumberOf(s: string, acc: nat): nat
    requires forall i :: 0 <= i < |s| ==> IsDigitChar(s[i])
  {
    if s == "" then acc else NumberOf(s[1..], 10 * acc + DigitOf(s[0]))
  }

  const MAX_INT_DIGITS := 4300

  predicate IsNumeral(s: string) {
    s != "" && (forall i :: 0 <= i < |s| ==> IsDigitChar(s[i])) && (s[0] == '0' ==> |s| == 1)
  }

  /** `parse_content_length`; `int` refuses more than 4300 digits. */
  function ParseContentLength(value: string): Option<nat> {
    var digits := WithoutNewline(value);
    if IsNumeral(digits) && |digits| <= MAX_INT_DIGITS then Some(NumberOf(digits, 0)) else None
  }

  predicate IsBlankChar(c: char) {
    c == ' ' || c == '\t'
  }

  function Blanks(s: string): (n: nat)
    ensures n <= |s|
  {
    if s != "" && IsBlankChar(s[0]) then 1 + Blanks(s[1..]) else 0
  }

  function DropBlanks(s: string): string {
    s[Blanks(s)..]
  }

  /** White space around commas removed. */
  function Squeeze(s: string): string
    decreases |s|
  {
    var n := Blanks(s);
    if s == "" then ""
    else if n < |s| && s[n] == ',' then "," + Squeeze(DropBlanks(s[n + 1..]))
    else if n == 0 then [s[0]] + Squeeze(s[1..])
    else s[..n] + Squeeze(s[n..])
  }

  predicate IsAscii(s: string) {
    forall i :: 0 <= i < |s| ==> (s[i] as int) < 128
  }

  predicate EndsChunked(te: string) {
    te == "chunked" || te == "compress,chunked" || te == "deflate,chunked" || te == "gzip,chunked"
  }

  predicate EndsOtherwise(te: string) {
    te == "compress" || te == "deflate" || te == "gzip" || te == "identity"
  }

  /** `parse_transfer_encoding` */
  function ParseTransferEncoding(value: string): (r: Option<string>)
    ensures r.Some? ==> EndsChunked(r.value) || EndsOtherwise(r.value)
  {
    var te := Squeeze(Lower(value));
    if IsAscii(value) && (EndsChunked(te) || EndsOtherwise(te)) then Some(te) else None
  }

  // ----- validation -----

  function TransferEncodings(headers: Headers): seq<string> {
    GetAll(LowerKey, headers, TRANSFER_ENCODING)
  }

  function ContentLengths(headers: Headers): seq<string> {
    GetAll(LowerKey, headers, CONTENT_LENGTH)
  }

  predicate AllNamesValid(headers: Headers) {
    forall i :: 0 <= i < |headers| ==> ValidName(headers[i].0)
  }

  predicate AcceptsTransferEncoding(m: Message, te: string) {
    && m.http11
    && !(m.Response? && (100 <= m.status <= 199 || m.status == 204))
    && ParseTransferEncoding(te).Some?
    && (EndsOtherwise(ParseTransferEncoding(te).value) ==> !m.Request?)
  }

  /** The checks on the values of the two framing headers. */
  predicate AcceptsFraming(m: Message, te: seq<string>, cl: seq<string>) {
    && (te == [] || cl == [])
    && (te != [] ==> |te| == 1 && AcceptsTransferEncoding(m, te[0]))
    && (cl != [] ==> |cl| == 1 && ParseContentLength(cl[0]).Some?)
  }

  /** Whether `validate_headers` accepts a message. */
  predicate Accepts(m: Message) {
    AllNamesValid(m.headers) && AcceptsFraming(m, TransferEncodings(m.headers), ContentLengths(m.headers))
  }

  method ValidateHeaders(m: Message) returns (ok: bool)
    ensures ok == Accepts(m)
  {
    DifferentHeaders();
    var names, te, cl := CollectTwo(m.headers, TRANSFER_ENCODING, CONTENT_LENGTH);
    if !names || (te != [] && cl != []) {
      return false;
    } else if te != [] {
      if |te| > 1 {
        return false;
      }
      return AcceptsTransferEncoding(m, te[0]);
    } else if cl != [] {
      if |cl| > 1 {
        return false;
      }
      return ParseContentLength(cl[0]).Some?;
    }
    return true;
  }

  /** The loop over the fields, which collects the values of two headers; it stops at an invalid name. */
  method CollectTwo(headers: Headers, first: string, second: string) returns (names: bool, te: seq<string>, cl: seq<string>)
    requires LowerKey(first) != LowerKey(second)
    ensures names <==> AllNamesValid(headers)
    ensures names ==> te == GetAll(LowerKey, headers, first) && cl == GetAll(LowerKey, headers, second)
  {
    te, cl := [], [];
    assert headers[0..] == headers;
    for i := 0 to |headers|
      invariant forall j :: 0 <= j < i ==> ValidName(headers[j].0)
      invariant GetAll(LowerKey, headers, first) == te + GetAll(LowerKey, headers[i..], first)
      invariant GetAll(LowerKey, headers, second) == cl + GetAll(LowerKey, headers[i..], second)
    {
      var (name, value) := headers[i];
      if !ValidName(name) {
        return false, te, cl;
      }
      assert headers[i..][1..] == headers[i + 1..];
      NextField(headers[i..], first, te);
      NextField(headers[i..], second, cl);
      if LowerKey(name) == LowerKey(first) {
        te := te + [value];
      } else if LowerKey(name) == LowerKey(second) {
        cl := cl + [value];
      }
    }
    names := true;
    assert te + [] == te && cl + [] == cl;
  }

  lemma NextField(headers: Headers, key: string, before: seq<string>)
    requires headers != []
    ensures before + GetAll(LowerKey, headers, key)
         == (if LowerKey(headers[0].0) == LowerKey(key) then before + [headers[0].1] else before) + GetAll(LowerKey, headers[1..], key)
  {
    var more := GetAll(LowerKey, headers[1..], key);
    JoinOne(before, headers[0].1, more);
    assert [] + more == more;
  }

  // ----- the size of the body -----

  datatype Size = Chunked | Known(n: nat) | UntilClose | Error

  predicate IsMethod(verb: string, lowered: string) {
    Lower(verb) == lowered
  }

  /** Responses that never have a body. */
  predicate Bodiless(verb: string, status: int) {
    || IsMethod(verb, "head") || 100 <= status <= 199 || status == 204 || status == 304
    || (200 <= status <= 299 && IsMethod(verb, "connect"))
  }

  function DeclaredSize(cl: Option<string>, isResponse: bool): Size {
    if cl.Some? && cl.value != "" then
      var n := ParseContentLength(cl.value);
      if n.Some? then Known(n.value) else Error
    else if isResponse then UntilClose
    else Known(0)
  }

  /** The size from the folded Transfer-Encoding and Content-Length headers. */
  function FramedSize(te: Option<string>, cl: Option<string>, isResponse: bool): Size {
    if te.None? || te.value == "" then DeclaredSize(cl, isResponse)
    else
      var coding := ParseTransferEncoding(te.value);
      if coding.None? then Error
      else if EndsChunked(coding.value) then Chunked
      else if isResponse then UntilClose
      else if coding.value == "identity" || cl.Some? then DeclaredSize(cl, isResponse)
      else UntilClose
  }

  /** `expected_http_body_size` of a request, or of a response to a request with the given method. */
  function ExpectedBodySize(m: Message, verb: string): Size {
    if m.Response? && Bodiless(verb, m.status) then Known(0)
    else FramedSize(HeaderOf(m.headers, TRANSFER_ENCODING), HeaderOf(m.headers, CONTENT_LENGTH), m.Response?)
  }

  // ----- the final coding -----

  /** What follows the last comma. */
  function LastPart(s: string): string
    decreases |s|
  {
    if ',' !in s then s else LastPart(s[1..])
  }

  function FinalCoding(te: string): string {
    var last := LastPart(Lower(te));
    DropBlanks(last)
  }

  lemma {:induction false} LastPartSkip(a: string, s: string)
    requires ',' !in a && ',' in s
    ensures LastPart(a + s) == LastPart(s)
    decreases |a|
  {
    if a == "" {
      assert a + s == s;
    } else {
      var i :| 0 <= i < |s| && s[i] == ',';
      assert (a + s)[|a| + i] == ',';
      assert (a + s)[1..] == a[1..] + s;
      LastPartSkip(a[1..], s);
    }
  }

  lemma {:induction false} LastPartAfterComma(s: string)
    ensures LastPart("," + s) == LastPart(s)
  {
    assert ("," + s)[1..] == s && ("," + s)[0] == ',';
  }

  lemma {:induction false} BlanksAre(s: string)
    ensures ',' !in s[..Blanks(s)]
    ensures Blanks(DropBlanks(s)) == 0
  {
    if s != "" && IsBlankChar(s[0]) {
      BlanksAre(s[1..]);
      assert s[..Blanks(s)] == [s[0]] + s[1..][..Blanks(s[1..])];
      assert s[Blanks(s)..] == s[1..][Blanks(s[1..])..];
    }
  }

  lemma DropBlanksKeepsLast(s: string)
    ensures DropBlanks(LastPart(DropBlanks(s))) == DropBlanks(LastPart(s))
  {
    BlanksAre(s);
    var blanks, rest := s[..Blanks(s)], DropBlanks(s);
    assert s == blanks + rest;
    if ',' in rest {
      LastPartSkip(blanks, rest);
    } else {
      assert ',' !in s;
    }
  }

  lemma {:induction false} SqueezeNoComma(s: string)
    requires ',' !in s
    ensures Squeeze(s) == s
    decreases |s|
  {
    var n := Blanks(s);
    if s != "" {
      if n == 0 {
        SqueezeNoComma(s[1..]);
      } else {
        SqueezeNoComma(s[n..]);
        assert s[..n] + s[n..] == s;
      }
    }
  }

  lemma {:induction false} SqueezeHasComma(s: string)
    requires ',' in s
    ensures ',' in Squeeze(s)
    decreases |s|
  {
    var n := Blanks(s);
    BlanksAre(s);
    if n < |s| && s[n] == ',' {
      assert Squeeze(s)[0] == ',';
    } else if n == 0 {
      assert s == [s[0]] + s[1..];
      SqueezeHasComma(s[1..]);
    } else {
      assert s == s[..n] + s[n..];
      SqueezeHasComma(s[n..]);
    }
  }

  /** Removing white space around commas keeps what follows the last one, but for leading white space. */
  lemma {:induction false} SqueezeKeepsLast(s: string)
    ensures DropBlanks(LastPart(Squeeze(s))) == DropBlanks(LastPart(s))
    decreases |s|
  {
    if ',' !in s {
      SqueezeNoComma(s);
    } else {
      var n := Blanks(s);
      BlanksAre(s);
      if n < |s| && s[n] == ',' {
        SqueezeAtComma(s, n);
      } else {
        var k := if n == 0 then 1 else n;
        assert s == s[..k] + s[k..];
        assert s[..1] == [s[0]];
        SqueezeKeepsLast(s[k..]);
        SqueezeHasComma(s[k..]);
        LastPartSkip(s[..k], s[k..]);
        LastPartSkip(s[..k], Squeeze(s[k..]));
      }
    }
  }

  lemma {:induction false} SqueezeAtComma(s: string, n: nat)
    requires n == Blanks(s) && n < |s| && s[n] == ','
    ensures DropBlanks(LastPart(Squeeze(s))) == DropBlanks(LastPart(s))
    decreases |s|, 0
  {
    BlanksAre(s);
    var rest := s[n + 1..];
    assert s == s[..n] + ("," + rest);
    LastPartOf(s[..n], rest);
    LastPartOf("", Squeeze(DropBlanks(rest)));
    assert "" + ("," + Squeeze(DropBlanks(rest))) == Squeeze(s);
    SqueezeKeepsLast(DropBlanks(rest));
    DropBlanksKeepsLast(rest);
  }

  lemma LastPartOf(before: string, rest: string)
    requires ',' !in before
    ensures LastPart(before + ("," + rest)) == LastPart(rest)
  {
    assert ("," + rest)[0] == ',';
    LastPartSkip(before, "," + rest);
    LastPartAfterComma(rest);
  }

  lemma ChunkedLast(coding: string, te: string)
    requires ',' !in coding && te == coding + ("," + "chunked")
    ensures DropBlanks(LastPart(te)) == "chunked"
  {
    LastPartOf(coding, "chunked");
    assert ',' !in "chunked" && Blanks("chunked") == 0;
  }

  lemma CompressLast()
    ensures DropBlanks(LastPart("compress,chunked")) == "chunked"
  {
    ChunkedLast("compress", "compress,chunked");
  }

  lemma DeflateLast()
    ensures DropBlanks(LastPart("deflate,chunked")) == "chunked"
  {
    ChunkedLast("deflate", "deflate,chunked");
  }

  lemma GzipLast()
    ensures DropBlanks(LastPart("gzip,chunked")) == "chunked"
  {
    ChunkedLast("gzip", "gzip,chunked");
  }

  lemma PlainLast()
    ensures DropBlanks(LastPart("chunked")) == "chunked"
  {
    assert LastPart("chunked") == "chunked" && Blanks("chunked") == 0;
  }

  lemma OtherLast(te: string)
    requires EndsOtherwise(te)
    ensures !EndsChunked(te) && DropBlanks(LastPart(te)) != "chunked"
  {
    assert LastPart(te) == te && Blanks(te) == 0;
  }

  lemma PartsOfKnown(te: string)
    requires EndsChunked(te) || EndsOtherwise(te)
    ensures EndsChunked(te) <==> DropBlanks(LastPart(te)) == "chunked"
  {
    if EndsOtherwise(te) {
      OtherLast(te);
    } else {
      PlainLast();
      CompressLast();
      DeflateLast();
      GzipLast();
    }
  }

  /** A coding that parses ends in chunked exactly when its last comma-separated part says so, in any letter case. */
  lemma ChunkedIsFinal(value: string)
    requires ParseTransferEncoding(value).Some?
    ensures EndsChunked(ParseTransferEncoding(value).value) <==> FinalCoding(value) == "chunked"
  {
    SqueezeKeepsLast(Lower(value));
    PartsOfKnown(Squeeze(Lower(value)));
  }

  // ----- accepted messages have a size -----

  lemma EmptyIsNothing()
    ensures ParseTransferEncoding("").None? && ParseContentLength("").None?
  {
    assert Lower("") == "" && Squeeze("") == "";
  }

  /** What an accepted message says about its framing: one coding, or one length, or neither. */
  lemma AcceptedFraming(m: Message, te: seq<string>, cl: seq<string>)
    requires AcceptsFraming(m, te, cl)
    ensures Fold(te).None? || Fold(cl).None?
    ensures Fold(te).Some? ==> Fold(te).value != "" && AcceptsTransferEncoding(m, Fold(te).value)
    ensures Fold(cl).Some? ==> Fold(cl).value != "" && ParseContentLength(Fold(cl).value).Some?
  {
    EmptyIsNothing();
  }

  /** Every accepted request has a body size: chunked exactly when that is the final coding, otherwise the
      declared length or 0, and never read until close. */
  lemma RequestSize(m: Message, verb: string)
    requires m.Request? && Accepts(m)
    ensures var te, cl := HeaderOf(m.headers, TRANSFER_ENCODING), HeaderOf(m.headers, CONTENT_LENGTH);
      var size := ExpectedBodySize(m, verb);
      && (size == Chunked <==> te.Some? && FinalCoding(te.value) == "chunked")
      && (te.Some? ==> size == Chunked)
      && (te.None? && cl.Some? ==> size.Known? && Some(size.n) == ParseContentLength(cl.value))
      && (te.None? && cl.None? ==> size == Known(0))
  {
    RequestFraming(m, TransferEncodings(m.headers), ContentLengths(m.headers));
  }

  lemma RequestFraming(m: Message, te: seq<string>, cl: seq<string>)
    requires m.Request? && AcceptsFraming(m, te, cl)
    ensures var size := FramedSize(Fold(te), Fold(cl), false);
      && (size == Chunked <==> Fold(te).Some? && FinalCoding(Fold(te).value) == "chunked")
      && (Fold(te).Some? ==> size == Chunked)
      && (Fold(te).None? && Fold(cl).Some? ==> size.Known? && Some(size.n) == ParseContentLength(Fold(cl).value))
      && (Fold(te).None? && Fold(cl).None? ==> size == Known(0))
  {
    AcceptedFraming(m, te, cl);
    if Fold(te).Some? {
      ChunkedIsFinal(Fold(te).value);
    }
  }

  /** Every accepted response has a body size: 0 where no body is allowed, chunked exactly when that is the
      final coding, the declared length, and otherwise everything until close. */
  lemma ResponseSize(m: Message, verb: string)
    requires m.Response? && Accepts(m)
    ensures var te, cl := HeaderOf(m.headers, TRANSFER_ENCODING), HeaderOf(m.headers, CONTENT_LENGTH);
      var size := ExpectedBodySize(m, verb);
      && size != Error
      && (Bodiless(verb, m.status) ==> size == Known(0))
      && (!Bodiless(verb, m.status) ==>
            && (size == Chunked <==> te.Some? && FinalCoding(te.value) == "chunked")
            && (size.Known? <==> te.None? && cl.Some?)
            && (size.Known? ==> Some(size.n) == ParseContentLength(cl.value)))
  {
    ResponseFraming(m, TransferEncodings(m.headers), ContentLengths(m.headers));
  }

  lemma ResponseFraming(m: Message, te: seq<string>, cl: seq<string>)
    requires m.Response? && AcceptsFraming(m, te, cl)
    ensures var size := FramedSize(Fold(te), Fold(cl), true);
      && size != Error
      && (size == Chunked <==> Fold(te).Some? && FinalCoding(Fold(te).value) == "chunked")
      && (size.Known? <==> Fold(te).None? && Fold(cl).Some?)
      && (size.Known? ==> Some(size.n) == ParseContentLength(Fold(cl).value))
  {
    AcceptedFraming(m, te, cl);
    if Fold(te).Some? {
      ChunkedIsFinal(Fold(te).value);
    }
  }

  // ----- the length that set_content declares -----

  lemma {:induction false} NumberOfSnoc(s: string, c: char, acc: nat)
    requires IsDigitChar(c) && forall i :: 0 <= i < |s| ==> IsDigitChar(s[i])
    ensures forall i :: 0 <= i < |s + [c]| ==> IsDigitChar((s + [c])[i])
    ensures NumberOf(s + [c], acc) == 10 * NumberOf(s, acc) + DigitOf(c)
    decreases |s|
  {
    if s == "" {
      assert s + [c] == [c] && [c][1..] == "";
    } else {
      assert (s + [c])[1..] == s[1..] + [c];
      NumberOfSnoc(s[1..], c, 10 * acc + DigitOf(s[0]));
    }
  }

  lemma {:induction false} NumberOfDecimal(n: nat)
    ensures IsNumeral(DecimalString(n)) && NumberOf(DecimalString(n), 0) == n
    ensures n > 0 ==> DecimalString(n)[0] != '0'
    decreases n
  {
    if n >= 10 {
      NumberOfDecimal(n / 10);
      NumberOfSnoc(DecimalString(n / 10), (48 + n % 10) as char, 0);
    } else {
      assert DecimalString(n)[1..] == "";
    }
  }

  /** After set_content, a request without Transfer-Encoding has exactly its raw length as body size. */
  lemma DeclaredLengthIsRead(m: HttpMessages.Message, verb: string)
    requires m.rawContent.Some? && HeaderOf(m.headers, TRANSFER_ENCODING).None?
    requires |DecimalString(LengthOf(m.rawContent.value))| <= MAX_INT_DIGITS
    ensures ExpectedBodySize(Request(verb, true, WithLength(m).headers), verb) == Known(LengthOf(m.rawContent.value))
  {
    var headers := WithLength(m).headers;
    LengthSet(m);
    DeclaredKnown(HeaderOf(headers, TRANSFER_ENCODING), HeaderOf(headers, CONTENT_LENGTH), LengthOf(m.rawContent.value));
  }

  lemma DeclaredKnown(te: Option<string>, cl: Option<string>, n: nat)
    requires te.None? && cl == Some(DecimalString(n)) && |DecimalString(n)| <= MAX_INT_DIGITS
    ensures FramedSize(te, cl, false) == Known(n)
  {
    ReadsDecimal(n);
  }

  lemma ReadsDecimal(n: nat)
    requires |DecimalString(n)| <= MAX_INT_DIGITS
    ensures ParseContentLength(DecimalString(n)) == Some(n)
  {
    NumberOfDecimal(n);
    var s := DecimalString(n);
    assert IsDigitChar(s[|s| - 1]);
  }

  // ----- which values are read, and which messages are accepted -----

  /** The tokens of section 5.6.2 of RFC 9110, by number. */
  predicate IsToken(s: string) {
    s != "" && forall c :: c in s ==> var o := c as int;
      || o == 0x21 || 0x23 <= o <= 0x27 || o == 0x2A || o == 0x2B || o == 0x2D || o == 0x2E
      || 0x30 <= o <= 0x39 || 0x41 <= o <= 0x5A || 0x5E <= o <= 0x7A || o == 0x7C || o == 0x7E
  }

  /** A name is valid exactly when it is a token, or a token and a newline. */
  lemma NameExactly(name: string)
    ensures ValidName(name) <==> IsToken(name) || exists token :: IsToken(token) && name == token + "\n"
  {
    var token := WithoutNewline(name);
    assert name == token || name == token + "\n";
    assert IsToken(token) <==> ValidName(name) by {
      assert ValidName(name) ==> forall c :: c in token ==> IsTokenChar(c);
      assert IsToken(token) ==> forall i :: 0 <= i < |token| ==> token[i] in token;
    }
    if IsToken(name) {
      assert name[|name| - 1] in name;
    }
    if t :| IsToken(t) && name == t + "\n" {
      assert token == t;
    }
  }

  /** A length is read exactly where it is the decimal form of a number, of at most 4300 digits, or that and a newline. */
  lemma LengthExactly(value: string, n: nat)
    ensures ParseContentLength(value) == Some(n) <==>
      |DecimalString(n)| <= 4300 && (value == DecimalString(n) || value == DecimalString(n) + "\n")
  {
    NumberOfDecimal(n);
    var digits := WithoutNewline(value);
    assert value == digits || value == digits + "\n";
    if IsNumeral(digits) {
      DecimalOfNumber(digits);
    }
    assert WithoutNewline(DecimalString(n) + "\n") == DecimalString(n);
    assert WithoutNewline(DecimalString(n)) == DecimalString(n) by {
      assert IsDigitChar(DecimalString(n)[|DecimalString(n)| - 1]);
    }
  }

  lemma {:induction false} DecimalOfNumber(s: string)
    requires IsNumeral(s)
    ensures DecimalString(NumberOf(s, 0)) == s
    ensures s[0] != '0' ==> NumberOf(s, 0) > 0
    decreases |s|
  {
    var k := |s| - 1;
    assert s == s[..k] + [s[k]];
    NumberOfSnoc(s[..k], s[k], 0);
    if k > 0 {
      DecimalOfNumber(s[..k]);
    }
  }

  predicate AllBlank(s: string) {
    forall i :: 0 <= i < |s| ==> s[i] == ' ' || s[i] == '\t'
  }

  /** What stands before the first comma, but for white space at its end, and what follows it, squeezed by itself. */
  lemma {:induction false} SqueezeAtFirst(before: string, after: string) returns (kept: string, blanks: string)
    requires ',' !in before
    ensures before == kept + blanks && AllBlank(blanks) && (kept != "" ==> !IsBlankChar(kept[|kept| - 1]))
    ensures Squeeze(before + ("," + after)) == kept + ("," + Squeeze(DropBlanks(after)))
    decreases |before|
  {
    var n := Blanks(before);
    BlanksUpTo(before);
    if n == |before| {
      kept, blanks := "", before;
      SqueezeComma(before, after);
    } else {
      var k := if n == 0 then 1 else n;
      var more;
      more, blanks := SqueezeAtFirst(before[k..], after);
      kept := before[..k] + more;
      SqueezeSkip(before, k, "," + after);
      Associative(before[..k], more, blanks);
      Associative(before[..k], more, "," + Squeeze(DropBlanks(after)));
      assert before == before[..k] + before[k..];
    }
  }

  lemma SqueezeComma(blanks: string, after: string)
    requires AllBlank(blanks)
    ensures Squeeze(blanks + ("," + after)) == "" + ("," + Squeeze(DropBlanks(after)))
  {
    var s := blanks + ("," + after);
    BlanksOf(blanks, "," + after);
    assert s[|blanks|] == ',' && s[|blanks| + 1..] == after;
    assert "" + ("," + Squeeze(DropBlanks(after))) == "," + Squeeze(DropBlanks(after));
  }

  lemma SqueezeSkip(before: string, k: nat, rest: string)
    requires Blanks(before) < |before| && ',' !in before
    requires k == if Blanks(before) == 0 then 1 else Blanks(before)
    ensures Squeeze(before + rest) == before[..k] + Squeeze(before[k..] + rest)
  {
    var s, n := before + rest, Blanks(before);
    BlanksUpTo(before);
    assert before == before[..n] + before[n..] && s == before[..n] + (before[n..] + rest);
    BlanksOf(before[..n], before[n..] + rest);
    assert s[n] == before[n] && s[..k] == before[..k] && s[k..] == before[k..] + rest;
    assert [s[0]] == s[..1];
  }

  lemma {:induction false} BlanksUpTo(s: string)
    ensures forall i :: 0 <= i < Blanks(s) ==> IsBlankChar(s[i])
    ensures Blanks(s) < |s| ==> !IsBlankChar(s[Blanks(s)])
  {
    if s != "" && IsBlankChar(s[0]) {
      BlanksUpTo(s[1..]);
    }
  }

  lemma {:induction false} BlanksOf(blanks: string, s: string)
    requires AllBlank(blanks) && (s != "" ==> !IsBlankChar(s[0]))
    ensures Blanks(blanks + s) == |blanks| && DropBlanks(blanks + s) == s
    decreases |blanks|
  {
    if blanks == "" {
      assert blanks + s == s;
    } else {
      assert (blanks + s)[1..] == blanks[1..] + s;
      BlanksOf(blanks[1..], s);
    }
  }

  lemma SameFirstComma(a: string, x: string, b: string, y: string)
    requires ',' !in a && ',' !in b && a + ("," + x) == b + ("," + y)
    ensures a == b && x == y
  {
    var s, t := a + ("," + x), b + ("," + y);
    assert s[|a|] == ',' && t[|b|] == ',';
    assert forall i :: 0 <= i < |a| ==> s[i] == a[i];
    assert forall i :: 0 <= i < |b| ==> t[i] == b[i];
    assert |a| == |b|;
    assert s[|a| + 1..] == x && t[|b| + 1..] == y && s[..|a|] == a && t[..|b|] == b;
  }

  lemma SameTrimmed(a: string, x: string, b: string, y: string)
    requires a + x == b + y && AllBlank(x) && AllBlank(y)
    requires (a != "" ==> !IsBlankChar(a[|a| - 1])) && (b != "" ==> !IsBlankChar(b[|b| - 1]))
    ensures a == b
  {
    var s := a + x;
    assert a != "" ==> s[|a| - 1] == a[|a| - 1];
    assert b != "" ==> (b + y)[|b| - 1] == b[|b| - 1];
    assert forall i :: |a| <= i < |s| ==> s[i] == x[i - |a|];
    assert forall i :: |b| <= i < |s| ==> (b + y)[i] == y[i - |b|];
    assert |a| == |b|;
    assert s[..|a|] == a && (b + y)[..|b|] == b;
  }

  predicate InTwo(s: string, first: string, b1: string, b2: string) {
    AllBlank(b1) && AllBlank(b2) && s == first + b1 + ("," + (b2 + "chunked"))
  }

  /** A first coding and `chunked`, with white space around the comma only. */
  ghost predicate ThenChunked(s: string, first: string) {
    exists b1, b2 :: InTwo(s, first, b1, b2)
  }

  lemma SqueezedInTwo(s: string, first: string) returns (b1: string, b2: string)
    requires first in ["compress", "deflate", "gzip"] && Squeeze(s) == first + ("," + "chunked")
    ensures InTwo(s, first, b1, b2)
  {
    b1, b2 := TwoWordsSqueezed(s, first, "chunked");
  }

  lemma TwoWordsSqueezed(s: string, first: string, second: string) returns (b1: string, b2: string)
    requires ',' !in first && ',' !in second && Squeeze(s) == first + ("," + second)
    ensures AllBlank(b1) && AllBlank(b2) && s == first + b1 + ("," + (b2 + second))
  {
    assert Squeeze(s)[|first|] == ',';
    if ',' !in s {
      SqueezeNoComma(s);
    }
    var before, after := AroundFirstComma(s);
    var kept, blanks := SqueezeAtFirst(before, after);
    SameFirstComma(kept, Squeeze(DropBlanks(after)), first, second);
    b1 := blanks;
    b2 := SqueezedToOne(after, second);
  }

  lemma AroundFirstComma(s: string) returns (before: string, after: string)
    requires ',' in s
    ensures ',' !in before && s == before + ("," + after)
  {
    var i := FirstComma(s);
    before, after := s[..i], s[i + 1..];
  }

  lemma SqueezedToOne(s: string, word: string) returns (blanks: string)
    requires ',' !in word && Squeeze(DropBlanks(s)) == word
    ensures AllBlank(blanks) && s == blanks + word
  {
    if ',' in DropBlanks(s) {
      SqueezeHasComma(DropBlanks(s));
    }
    SqueezeNoComma(DropBlanks(s));
    BlanksUpTo(s);
    blanks := s[..Blanks(s)];
  }

  function FirstComma(s: string): (i: nat)
    requires ',' in s
    ensures i < |s| && s[i] == ',' && ',' !in s[..i]
  {
    if s[0] == ',' then 0 else 1 + FirstComma(s[1..])
  }

  lemma InTwoSqueezes(s: string, first: string, b1: string, b2: string)
    requires first in ["compress", "deflate", "gzip"] && InTwo(s, first, b1, b2)
    ensures Squeeze(s) == first + ("," + "chunked")
  {
    TwoWordsSqueeze(first, b1, b2, "chunked");
  }

  lemma TwoWordsSqueeze(first: string, b1: string, b2: string, second: string)
    requires first != "" && second != "" && ',' !in first && ',' !in second && AllBlank(b1) && AllBlank(b2)
    requires !IsBlankChar(first[|first| - 1]) && !IsBlankChar(second[0])
    ensures Squeeze(first + b1 + ("," + (b2 + second))) == first + ("," + second)
  {
    var kept, blanks := SqueezeAtFirst(first + b1, b2 + second);
    SameTrimmed(kept, blanks, first, b1);
    BlanksOf(b2, second);
    SqueezeNoComma(second);
  }

  /** The eight codings, in any letter case and with white space around the comma, and nothing else. */
  lemma CodingExactly(value: string)
    ensures forall coding :: coding in ["chunked", "compress", "deflate", "gzip", "identity"] ==>
      (ParseTransferEncoding(value) == Some(coding) <==> IsAscii(value) && Lower(value) == coding)
    ensures forall first :: first in ["compress", "deflate", "gzip"] ==>
      (ParseTransferEncoding(value) == Some(first + ("," + "chunked")) <==>
        IsAscii(value) && ThenChunked(Lower(value), first))
    ensures ParseTransferEncoding(value).Some? ==> var coding := ParseTransferEncoding(value).value;
      || coding in ["chunked", "compress", "deflate", "gzip", "identity"]
      || exists first :: first in ["compress", "deflate", "gzip"] && coding == first + ("," + "chunked")
  {
    var s := Lower(value);
    KnownCodings(Squeeze(s));
    forall coding | coding in ["chunked", "compress", "deflate", "gzip", "identity"]
      ensures Squeeze(s) == coding <==> s == coding
    {
      OneCoding(s, coding);
    }
    forall first | first in ["compress", "deflate", "gzip"]
      ensures ParseTransferEncoding(value) == Some(first + ("," + "chunked")) <==> IsAscii(value) && ThenChunked(s, first)
    {
      TwoCodingsParsed(value, first);
    }
  }

  lemma OneCoding(s: string, coding: string)
    requires coding in ["chunked", "compress", "deflate", "gzip", "identity"]
    ensures Squeeze(s) == coding <==> s == coding
  {
    assert ',' !in coding;
    SqueezeNoComma(coding);
    if ',' in s {
      SqueezeHasComma(s);
    } else {
      SqueezeNoComma(s);
    }
  }

  lemma TwoCodings(s: string, first: string)
    requires first in ["compress", "deflate", "gzip"]
    ensures Squeeze(s) == first + ("," + "chunked") <==> ThenChunked(s, first)
  {
    if Squeeze(s) == first + ("," + "chunked") {
      var b1, b2 := SqueezedInTwo(s, first);
    }
    if b1, b2 :| InTwo(s, first, b1, b2) {
      InTwoSqueezes(s, first, b1, b2);
    }
  }

  lemma TwoCodingsParsed(value: string, first: string)
    requires first in ["compress", "deflate", "gzip"]
    ensures ParseTransferEncoding(value) == Some(first + ("," + "chunked")) <==>
      IsAscii(value) && ThenChunked(Lower(value), first)
  {
    var s, two := Lower(value), first + ("," + "chunked");
    TwoCodings(s, first);
    KnownCodings(two);
  }

  lemma KnownCodings(te: string)
    ensures EndsChunked(te) <==> te == "chunked" || exists first :: first in ["compress", "deflate", "gzip"] && te == first + ("," + "chunked")
    ensures EndsOtherwise(te) <==> te in ["compress", "deflate", "gzip", "identity"]
  {
    var c, d, g := "compress" + ("," + "chunked"), "deflate" + ("," + "chunked"), "gzip" + ("," + "chunked");
    assert c == "compress,chunked" && d == "deflate,chunked" && g == "gzip,chunked";
    var firsts := ["compress", "deflate", "gzip"];
    assert firsts[0] in firsts && firsts[1] in firsts && firsts[2] in firsts;
  }

  lemma CodingAccepted(m: Message, v: string)
    ensures AcceptsTransferEncoding(m, v) <==>
      && m.http11 && ParseTransferEncoding(v).Some?
      && if m.Request? then FinalCoding(v) == "chunked" else !(100 <= m.status <= 199) && m.status != 204
  {
    if ParseTransferEncoding(v).Some? {
      ChunkedIsFinal(v);
      PartsOfKnown(ParseTransferEncoding(v).value);
    }
  }

  /** The framing headers of an accepted message: none, or one length, or one coding. */
  predicate GoodFraming(m: Message, te: seq<string>, cl: seq<string>) {
    && |te| + |cl| <= 1
    && (forall v :: v in cl ==> ParseContentLength(v).Some?)
    && (forall v :: v in te ==> AcceptsTransferEncoding(m, v))
  }

  lemma FramingAccepted(m: Message, te: seq<string>, cl: seq<string>)
    ensures AcceptsFraming(m, te, cl) <==> GoodFraming(m, te, cl)
  {
    if |te| == 1 {
      assert te[0] in te;
    }
    if |cl| == 1 {
      assert cl[0] in cl;
    }
  }

  lemma NamesAccepted(headers: Headers)
    ensures AllNamesValid(headers) <==> forall f :: f in headers ==> ValidName(f.0)
  {
    forall i | 0 <= i < |headers| && forall f :: f in headers ==> ValidName(f.0)
      ensures ValidName(headers[i].0)
    {
      assert headers[i] in headers;
    }
  }

  /** Exactly these messages are accepted: all names valid, and either no framing header, or one length, or one coding, which
      has to be on HTTP/1.1, in no 1xx or 204 response, and, in a request, to end in chunked. */
  lemma AcceptedExactly(m: Message)
    ensures var te, cl := GetAll(LowerKey, m.headers, "transfer-encoding"), GetAll(LowerKey, m.headers, "content-length");
      Accepts(m) <==> (forall f :: f in m.headers ==> ValidName(f.0)) && GoodFraming(m, te, cl)
    ensures forall v :: AcceptsTransferEncoding(m, v) <==>
      && m.http11 && ParseTransferEncoding(v).Some?
      && if m.Request? then FinalCoding(v) == "chunked" else !(100 <= m.status <= 199) && m.status != 204
  {
    assert TRANSFER_ENCODING == "transfer-encoding" && CONTENT_LENGTH == "content-length";
    FramingAccepted(m, TransferEncodings(m.headers), ContentLengths(m.headers));
    NamesAccepted(m.headers);
    forall v {
      CodingAccepted(m, v);
    }
  }

  lemma FramedExactly(te: Option<string>, cl: Option<string>, isResponse: bool)
    ensures var size, coded := FramedSize(te, cl, isResponse), te.Some? && te.value != "";
      if coded && ParseTransferEncoding(te.value).None? then size == Error
      else if coded && FinalCoding(te.value) == "chunked" then size == Chunked
      else if coded && (isResponse || (cl.None? && Lower(te.value) != "identity")) then size == UntilClose
      else if cl.None? || cl.value == "" then size == if isResponse then UntilClose else Known(0)
      else size == if ParseContentLength(cl.value).Some? then Known(ParseContentLength(cl.value).value) else Error
  {
    if te.Some? && ParseTransferEncoding(te.value).Some? {
      ChunkedIsFinal(te.value);
      OneCoding(Lower(te.value), "identity");
    }
  }

  /** The body size of any message, accepted or not, by the list in section 6.3 of RFC 9112; an empty header counts as none.
      A request's coding other than chunked gives way to its Content-Length, and means reading to the end without one. */
  lemma SizeOfAny(m: Message, verb: string)
    ensures var te, cl := HeaderOf(m.headers, "transfer-encoding"), HeaderOf(m.headers, "content-length");
      var size, coded := ExpectedBodySize(m, verb), te.Some? && te.value != "";
      if m.Response? && (Lower(verb) == "head" || 100 <= m.status <= 199 || m.status in [204, 304]
                         || (200 <= m.status <= 299 && Lower(verb) == "connect"))
      then size == Known(0)
      else if coded && ParseTransferEncoding(te.value).None? then size == Error
      else if coded && FinalCoding(te.value) == "chunked" then size == Chunked
      else if coded && (m.Response? || (cl.None? && Lower(te.value) != "identity")) then size == UntilClose
      else if cl.None? || cl.value == "" then size == if m.Response? then UntilClose else Known(0)
      else size == if ParseContentLength(cl.value).Some? then Known(ParseContentLength(cl.value).value) else Error
  {
    assert TRANSFER_ENCODING == "transfer-encoding" && CONTENT_LENGTH == "content-length";
    FramedExactly(HeaderOf(m.headers, TRANSFER_ENCODING), HeaderOf(m.headers, CONTENT_LENGTH), m.Response?);
  }
}
