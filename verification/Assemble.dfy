/** Message bodies on the wire (mitmproxy/net/http/http1/assemble.py).

    The chunked coding, against a decoder written from section 7.1
    of RFC 9112. */
module Assemble {
  import opened ByteStrings
  import opened Chars
  import opened HttpMessages
  import opened MultiDicts
  import opened Options

  const CR: Byte := 13
  const LF: Byte := 10
  const SEMICOLON: Byte := 59
  const CRLF: Bytes := [13, 10]

  type Trailers = Fields<Bytes, Bytes>

  // ----- encoding -----

  function HexDigit(d: nat): Byte
    requires d < 16
  {
    if d < 10 then 48 + d else 87 + d
  }

  /** `b"%x" % n` */
  function Hex(n: nat): (s: Bytes)
    ensures s != []
  {
    if n < 16 then [HexDigit(n)] else Hex(n / 16) + [HexDigit(n % 16)]
  }

  function Chunk(data: Bytes): Bytes {
    Hex(|data|) + CRLF + data + CRLF
  }

  function FieldLine(f: (Bytes, Bytes)): Bytes {
    f.0 + [COLON, 32] + f.1 + CRLF
  }

  /** `bytes(headers)` */
  function FieldLines(fields: Trailers): Bytes {
    if fields == [] then [] else FieldLine(fields[0]) + FieldLines(fields[1..])
  }

  predicate Contains(s: string, word: string) {
    word <= s || (s != "" && Contains(s[1..], word))
  }

  predicate SaysChunked(headers: Headers) {
    var te := HeaderOf(headers, TRANSFER_ENCODING);
    te.Some? && Contains(Lower(te.value), "chunked")
  }

  function Chunks(chunks: seq<Bytes>): seq<Bytes> {
    if chunks == [] then []
    else if chunks[0] == [] then Chunks(chunks[1..])
    else [Chunk(chunks[0])] + Chunks(chunks[1..])
  }

  function LastChunk(trailers: Trailers): Bytes {
    [48] + CRLF + FieldLines(trailers) + CRLF
  }

  /** `assemble_body`: what it yields, or None for its ValueError. No trailers and empty trailers are the same. */
  function AssembleBody(headers: Headers, chunks: seq<Bytes>, trailers: Trailers): Option<seq<Bytes>> {
    if SaysChunked(headers) then Some(Chunks(chunks) + [LastChunk(trailers)])
    else if trailers != [] then None
    else Some(chunks)
  }

  function Concat(parts: seq<Bytes>): Bytes {
    if parts == [] then [] else parts[0] + Concat(parts[1..])
  }

  // ----- the decoder of section 7.1 of RFC 9112 -----

  /** A line and what follows its CRLF. */
  function TakeLine(data: Bytes): (r: Option<(Bytes, Bytes)>)
    ensures r.Some? ==> |r.value.1| < |data|
  {
    if |data| < 2 then None
    else if data[0] == CR && data[1] == LF then Some(([], data[2..]))
    else
      var more := TakeLine(data[1..]);
      if more.None? then None else Some(([data[0]] + more.value.0, more.value.1))
  }

  function HexValue(b: Byte): Option<nat> {
    if 48 <= b <= 57 then Some(b - 48)
    else if 97 <= b <= 102 then Some(b - 87)
    else if 65 <= b <= 70 then Some(b - 55)
    else None
  }

  /** A chunk size: hexadecimal digits, up to an extension; `any` says that a digit was read. */
  function ParseSize(s: Bytes, any: bool, acc: nat): Option<nat> {
    if s == [] || s[0] == SEMICOLON then (if any then Some(acc) else None)
    else if HexValue(s[0]).None? then None
    else ParseSize(s[1..], true, 16 * acc + HexValue(s[0]).value)
  }

  predicate IsBlank(b: Byte) {
    b == 32 || b == 9
  }

  function TrimLeft(s: Bytes): Bytes {
    if s != [] && IsBlank(s[0]) then TrimLeft(s[1..]) else s
  }

  function TrimRight(s: Bytes): Bytes {
    if s != [] && IsBlank(s[|s| - 1]) then TrimRight(s[..|s| - 1]) else s
  }

  /** A field line: a name, a colon, and a value in optional white space. */
  function ParseField(line: Bytes): Option<(Bytes, Bytes)> {
    var i := ColonAt(line);
    if i == |line| then None else Some((line[..i], TrimRight(TrimLeft(line[i + 1..]))))
  }

  function ColonAt(line: Bytes): (i: nat)
    ensures i <= |line|
  {
    if line == [] || line[0] == COLON then 0 else 1 + ColonAt(line[1..])
  }

  /** The field lines up to an empty line. */
  function DecodeTrailers(data: Bytes): Option<(Trailers, Bytes)>
    decreases |data|
  {
    var line := TakeLine(data);
    if line.None? then None
    else if line.value.0 == [] then Some(([], line.value.1))
    else
      var field, more := ParseField(line.value.0), DecodeTrailers(line.value.1);
      if field.None? || more.None? then None else Some(([field.value] + more.value.0, more.value.1))
  }

  datatype Decoded = Decoded(body: Bytes, trailers: Trailers, rest: Bytes)

  function DecodeChunked(data: Bytes): Option<Decoded>
    decreases |data|
  {
    var line := TakeLine(data);
    if line.None? || ParseSize(line.value.0, false, 0).None? then None
    else
      var size, after := ParseSize(line.value.0, false, 0).value, line.value.1;
      if size == 0 then
        var t := DecodeTrailers(after);
        if t.None? then None else Some(Decoded([], t.value.0, t.value.1))
      else if |after| < size + 2 || after[size..size + 2] != CRLF then None
      else
        var more := DecodeChunked(after[size + 2..]);
        if more.None? then None else Some(Decoded(after[..size] + more.value.body, more.value.trailers, more.value.rest))
  }

  // ----- the decoder reads what was encoded -----

  predicate NoLf(s: Bytes) {
    forall i :: 0 <= i < |s| ==> s[i] != LF
  }

  lemma {:induction false} TakeLineOf(line: Bytes, rest: Bytes)
    requires NoLf(line)
    ensures TakeLine(line + CRLF + rest) == Some((line, rest))
  {
    var data := line + CRLF + rest;
    if line == [] {
      assert data[2..] == rest;
    } else {
      assert data[1..] == line[1..] + CRLF + rest;
      assert data[1] == if |line| > 1 then line[1] else CR;
      TakeLineOf(line[1..], rest);
      assert [line[0]] + line[1..] == line;
    }
  }

  function SizeOf(s: Bytes, acc: nat): Option<nat> {
    if s == [] then Some(acc)
    else if s[0] == SEMICOLON || HexValue(s[0]).None? then None
    else SizeOf(s[1..], 16 * acc + HexValue(s[0]).value)
  }

  lemma {:induction false} SizeOfSnoc(s: Bytes, d: nat, acc: nat)
    requires d < 16 && SizeOf(s, acc).Some?
    ensures SizeOf(s + [HexDigit(d)], acc) == Some(16 * SizeOf(s, acc).value + d)
    decreases |s|
  {
    if s == [] {
      assert s + [HexDigit(d)] == [HexDigit(d)] && [HexDigit(d)][1..] == [];
    } else {
      assert (s + [HexDigit(d)])[1..] == s[1..] + [HexDigit(d)];
      SizeOfSnoc(s[1..], d, 16 * acc + HexValue(s[0]).value);
    }
  }

  lemma {:induction false} SizeOfHex(n: nat)
    ensures SizeOf(Hex(n), 0) == Some(n) && NoLf(Hex(n))
    decreases n
  {
    if n < 16 {
      assert Hex(n)[1..] == [];
    } else {
      SizeOfHex(n / 16);
      SizeOfSnoc(Hex(n / 16), n % 16, 0);
    }
  }

  lemma {:induction false} ParseSizeIsSizeOf(s: Bytes, any: bool, acc: nat)
    requires SizeOf(s, acc).Some? && (any || s != [])
    ensures ParseSize(s, any, acc) == SizeOf(s, acc)
    decreases |s|
  {
    if s != [] {
      ParseSizeIsSizeOf(s[1..], true, 16 * acc + HexValue(s[0]).value);
    }
  }

  lemma SizeLine(n: nat, rest: Bytes)
    ensures TakeLine(Hex(n) + CRLF + rest) == Some((Hex(n), rest)) && ParseSize(Hex(n), false, 0) == Some(n)
  {
    SizeOfHex(n);
    ParseSizeIsSizeOf(Hex(n), false, 0);
    TakeLineOf(Hex(n), rest);
  }

  /** Names without a colon and values without white space around them, neither with a line feed. */
  predicate GoodField(f: (Bytes, Bytes)) {
    && NoLf(f.0) && NoLf(f.1) && (forall i :: 0 <= i < |f.0| ==> f.0[i] != COLON)
    && (f.1 != [] ==> !IsBlank(f.1[0]) && !IsBlank(f.1[|f.1| - 1]))
  }

  lemma {:induction false} FirstColon(name: Bytes, rest: Bytes)
    requires forall i :: 0 <= i < |name| ==> name[i] != COLON
    ensures ColonAt(name + [COLON] + rest) == |name|
  {
    var s := name + [COLON] + rest;
    if name != [] {
      assert s[1..] == name[1..] + [COLON] + rest;
      FirstColon(name[1..], rest);
    }
  }

  lemma ParseFieldOf(f: (Bytes, Bytes))
    requires GoodField(f)
    ensures ParseField(f.0 + [COLON, 32] + f.1) == Some(f)
  {
    var line := f.0 + [COLON, 32] + f.1;
    assert line == f.0 + [COLON] + ([32] + f.1);
    FirstColon(f.0, [32] + f.1);
    assert line[..|f.0|] == f.0 && line[|f.0| + 1..] == [32] + f.1;
    assert ([32] + f.1)[1..] == f.1;
    assert TrimLeft([32] + f.1) == f.1;
  }

  lemma {:induction false} TrailersOf(fields: Trailers, rest: Bytes)
    requires forall i :: 0 <= i < |fields| ==> GoodField(fields[i])
    ensures DecodeTrailers(FieldLines(fields) + CRLF + rest) == Some((fields, rest))
    decreases |fields|
  {
    var data := FieldLines(fields) + CRLF + rest;
    if fields == [] {
      assert data == [] + CRLF + rest;
      TakeLineOf([], rest);
    } else {
      var f := fields[0];
      var line, after := f.0 + [COLON, 32] + f.1, FieldLines(fields[1..]) + CRLF + rest;
      assert data == line + CRLF + after;
      TakeLineOf(line, after);
      ParseFieldOf(f);
      TrailersOf(fields[1..], rest);
      assert |line| >= 2 && [f] + fields[1..] == fields;
    }
  }

  lemma ChunkRead(data: Bytes, rest: Bytes)
    requires data != [] && DecodeChunked(rest).Some?
    ensures var more := DecodeChunked(rest).value;
      DecodeChunked(Chunk(data) + rest) == Some(Decoded(data + more.body, more.trailers, more.rest))
  {
    var after := data + CRLF + rest;
    assert Chunk(data) + rest == Hex(|data|) + CRLF + after;
    SizeLine(|data|, after);
    assert after[..|data|] == data && after[|data|..|data| + 2] == CRLF && after[|data| + 2..] == rest;
  }

  lemma LastChunkRead(trailers: Trailers, rest: Bytes)
    requires forall i :: 0 <= i < |trailers| ==> GoodField(trailers[i])
    ensures DecodeChunked(LastChunk(trailers) + rest) == Some(Decoded([], trailers, rest))
  {
    var after := FieldLines(trailers) + CRLF + rest;
    assert LastChunk(trailers) + rest == Hex(0) + CRLF + after;
    SizeLine(0, after);
    TrailersOf(trailers, rest);
  }

  lemma {:induction false} ChunksRead(chunks: seq<Bytes>, trailers: Trailers, rest: Bytes)
    requires forall i :: 0 <= i < |trailers| ==> GoodField(trailers[i])
    ensures DecodeChunked(Concat(Chunks(chunks) + [LastChunk(trailers)]) + rest) == Some(Decoded(Concat(chunks), trailers, rest))
    decreases |chunks|
  {
    var last := LastChunk(trailers);
    if chunks == [] {
      var one: seq<Bytes> := [last];
      assert Chunks(chunks) + one == one && one[1..] == [];
      assert last + [] == last;
      LastChunkRead(trailers, rest);
    } else {
      ChunksRead(chunks[1..], trailers, rest);
      if chunks[0] == [] {
        assert [] + Concat(chunks[1..]) == Concat(chunks[1..]);
      } else {
        var more := Chunks(chunks[1..]) + [last];
        FirstPart(Chunk(chunks[0]), Chunks(chunks[1..]), last, rest);
        ChunkRead(chunks[0], Concat(more) + rest);
      }
    }
  }

  lemma FirstPart(first: Bytes, parts: seq<Bytes>, last: Bytes, rest: Bytes)
    ensures Concat([first] + parts + [last]) + rest == first + (Concat(parts + [last]) + rest)
  {
    assert ([first] + parts + [last])[1..] == parts + [last];
    assert first + Concat(parts + [last]) + rest == first + (Concat(parts + [last]) + rest);
  }

  // ----- the decoder needs all of it -----

  lemma {:induction false} TakeLineExtends(data: Bytes, more: Bytes)
    requires TakeLine(data).Some?
    ensures TakeLine(data + more) == Some((TakeLine(data).value.0, TakeLine(data).value.1 + more))
  {
    if data[0] == CR && data[1] == LF {
      assert (data + more)[2..] == data[2..] + more;
    } else {
      assert (data + more)[1..] == data[1..] + more;
      TakeLineExtends(data[1..], more);
    }
  }

  lemma {:induction false} TrailersExtend(data: Bytes, more: Bytes)
    requires DecodeTrailers(data).Some?
    ensures DecodeTrailers(data + more) == Some((DecodeTrailers(data).value.0, DecodeTrailers(data).value.1 + more))
    decreases |data|
  {
    TakeLineExtends(data, more);
    if TakeLine(data).value.0 != [] {
      TrailersExtend(TakeLine(data).value.1, more);
    }
  }

  lemma {:induction false} DecodeExtends(data: Bytes, more: Bytes)
    requires DecodeChunked(data).Some?
    ensures DecodeChunked(data + more) == Some(DecodeChunked(data).value.(rest := DecodeChunked(data).value.rest + more))
    decreases |data|
  {
    TakeLineExtends(data, more);
    var (line, after) := TakeLine(data).value;
    var size := ParseSize(line, false, 0).value;
    if size == 0 {
      TrailersExtend(after, more);
    } else {
      var all := after + more;
      assert all[size..size + 2] == after[size..size + 2] && all[..size] == after[..size];
      assert all[size + 2..] == after[size + 2..] + more;
      DecodeExtends(after[size + 2..], more);
    }
  }

  /** The chunked output of any chunks, empty ones included, decodes to their concatenation and the trailers, whatever
      follows; and no strict prefix of it decodes, so that the zero-size chunk stands only at the end. */
  lemma ChunkedRoundTrip(headers: Headers, chunks: seq<Bytes>, trailers: Trailers, rest: Bytes, n: nat)
    requires SaysChunked(headers) && forall i :: 0 <= i < |trailers| ==> GoodField(trailers[i])
    ensures AssembleBody(headers, chunks, trailers).Some?
    ensures var out := Concat(AssembleBody(headers, chunks, trailers).value);
      && DecodeChunked(out + rest) == Some(Decoded(Concat(chunks), trailers, rest))
      && (n < |out| ==> DecodeChunked(out[..n]) == None)
  {
    var out := Concat(Chunks(chunks) + [LastChunk(trailers)]);
    ChunksRead(chunks, trailers, rest);
    if n < |out| {
      ChunksRead(chunks, trailers, []);
      assert out + [] == out;
      PrefixFails(out, n);
    }
  }

  lemma PrefixFails(out: Bytes, n: nat)
    requires n < |out| && DecodeChunked(out).Some? && DecodeChunked(out).value.rest == []
    ensures DecodeChunked(out[..n]) == None
  {
    assert out == out[..n] + out[n..];
    if DecodeChunked(out[..n]).Some? {
      DecodeExtends(out[..n], out[n..]);
    }
  }

  // ----- when the chunked coding is used, and what each part is -----

  ghost predicate Has(s: string, word: string) {
    exists before, after :: s == before + (word + after)
  }

  lemma {:induction false} ContainsExactly(s: string, word: string)
    ensures Contains(s, word) <==> Has(s, word)
    decreases |s|
  {
    if word <= s {
      assert s == "" + (word + s[|word|..]);
    } else if s != "" {
      ContainsExactly(s[1..], word);
      if before, after :| s == before + (word + after) {
        assert before == "" ==> s == word + after;
        assert s[1..] == before[1..] + (word + after);
      }
      if before, after :| s[1..] == before + (word + after) {
        assert s == [s[0]] + before + (word + after);
      }
    }
  }

  /** The hexadecimal digits of a size: lower case, without leading zeros. */
  predicate IsHex(s: Bytes, n: nat) {
    && s != [] && (forall i :: 0 <= i < |s| ==> 48 <= s[i] <= 57 || 97 <= s[i] <= 102)
    && (|s| > 1 ==> s[0] != 48) && SizeOf(s, 0) == Some(n)
  }

  lemma {:induction false} HexIsHex(n: nat)
    ensures IsHex(Hex(n), n) && (n > 0 ==> Hex(n)[0] != 48)
    decreases n
  {
    SizeOfHex(n);
    if n >= 16 {
      HexIsHex(n / 16);
    }
  }

  function NonEmpty(chunks: seq<Bytes>): seq<Bytes> {
    if chunks == [] then []
    else if chunks[0] == [] then NonEmpty(chunks[1..])
    else [chunks[0]] + NonEmpty(chunks[1..])
  }

  ghost predicate IsChunk(part: Bytes, data: Bytes) {
    exists size :: IsHex(size, |data|) && part == size + [13, 10] + data + [13, 10]
  }

  lemma {:induction false} OneChunkEach(chunks: seq<Bytes>)
    ensures |Chunks(chunks)| == |NonEmpty(chunks)|
    ensures forall i :: 0 <= i < |Chunks(chunks)| ==> IsChunk(Chunks(chunks)[i], NonEmpty(chunks)[i])
    decreases |chunks|
  {
    if chunks != [] {
      OneChunkEach(chunks[1..]);
      HexIsHex(|chunks[0]|);
      assert IsChunk(Chunk(chunks[0]), chunks[0]);
    }
  }

  lemma SaysChunkedExactly(headers: Headers)
    ensures var te := HeaderOf(headers, "transfer-encoding");
      SaysChunked(headers) <==> te.Some? && Has(Lower(te.value), "chunked")
  {
    HeaderNames();
    var te := HeaderOf(headers, TRANSFER_ENCODING);
    if te.Some? {
      ContainsExactly(Lower(te.value), "chunked");
    }
  }

  /** The chunked coding is used exactly when the Transfer-Encoding header says `chunked` somewhere, in any letter case; it
      makes one part of every chunk that is not empty, and one last part. Otherwise the chunks pass as they are, and
      trailers are an error. */
  lemma AssembleExactly(headers: Headers, chunks: seq<Bytes>, trailers: Trailers)
    ensures var te, out := HeaderOf(headers, "transfer-encoding"), AssembleBody(headers, chunks, trailers);
      if te.Some? && Has(Lower(te.value), "chunked") then
        && out.Some? && |out.value| == |NonEmpty(chunks)| + 1
        && forall i :: 0 <= i < |NonEmpty(chunks)| ==> IsChunk(out.value[i], NonEmpty(chunks)[i])
      else
        out == if trailers == [] then Some(chunks) else None
  {
    SaysChunkedExactly(headers);
    OneChunkEach(chunks);
  }
}
