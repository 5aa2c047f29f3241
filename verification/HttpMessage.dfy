/** Message bodies: `set_content` and `get_content` (mitmproxy/http.py). */
module HttpMessages {
  import opened ByteStrings
  import opened Chars
  import opened Encodings
  import opened MultiDicts
  import opened Options

  // A message holds its headers as a multi-value dictionary and its raw, possibly compressed content; both methods go
  // through the shared cache of content codings.

  // In two parts, so that the verifier does not lower-case the names letter by letter wherever they occur.
  const CONTENT_ENCODING := "content-" + "encoding"
  const CONTENT_LENGTH := "content-" + "length"
  const TRANSFER_ENCODING := "transfer-" + "encoding"

  type Headers = Fields<string, string>

  function LowerKey(key: string): string {
    Lower(key)
  }

  /** `headers.get(key)`: the values of a header, folded. */
  function HeaderOf(headers: Headers, key: string): Option<string> {
    Fold(GetAll(LowerKey, headers, key))
  }

  function Fold(values: seq<string>): Option<string> {
    if values == [] then None else Some(JoinWith(", ", values))
  }

  function LengthOf(d: Data): nat {
    match d
    case Raw(b) => |b|
    case Str(s) => |s|
  }

  datatype Message = Message(headers: Headers, rawContent: Option<Data>)

  datatype Read = Content(data: Option<Data>) | Failed(why: Outcome)

  function CodingOrIdentity(headers: Headers): string {
    var ce := HeaderOf(headers, CONTENT_ENCODING);
    if ce.Some? && ce.value != "" then ce.value else "identity"
  }

  function WithLength(m: Message): Message
    requires m.rawContent.Some?
  {
    if HeaderOf(m.headers, TRANSFER_ENCODING).Some? then m
    else m.(headers := AllSet(LowerKey, m.headers, CONTENT_LENGTH, [DecimalString(LengthOf(m.rawContent.value))]))
  }

  /** `set_content` of bytes or None: the new cache, the new message, and whether a TypeError came through. */
  function SetContent(c: Codecs, cache: Option<Cached>, m: Message, value: Option<Bytes>): (Option<Cached>, Message, bool) {
    if value.None? then (cache, m.(rawContent := None), false)
    else
      var (cache', r) := Encode(c, cache, Raw(value.value), CodingOrIdentity(m.headers), "strict");
      match r
      case Done(data) => (cache', WithLength(m.(rawContent := Some(data))), false)
      case ValueErr =>
        (cache', WithLength(Message(Others(LowerKey, m.headers, CONTENT_ENCODING), Some(Raw(value.value)))), false)
      case TypeErr => (cache', m, true)
  }

  function GetContent(c: Codecs, cache: Option<Cached>, m: Message, strict: bool): (Option<Cached>, Read) {
    ContentUnder(c, cache, HeaderOf(m.headers, CONTENT_ENCODING), m.rawContent, strict)
  }

  function ContentUnder(c: Codecs, cache: Option<Cached>, ce: Option<string>, raw: Option<Data>, strict: bool): (Option<Cached>, Read) {
    if raw.None? then (cache, Content(None))
    else if ce.None? || ce.value == "" then (cache, Content(raw))
    else
      var (cache', r) := Decode(c, cache, raw.value, ce.value, "strict");
      match r
      case Done(Raw(bytes)) => (cache', Content(Some(Raw(bytes))))
      case TypeErr => (cache', Failed(TypeErr))
      case _ => (cache', if strict then Failed(ValueErr) else Content(raw))
  }

  class HttpMessage {
    const encoding: Encoding
    const headers: MultiDict<string, string>
    var rawContent: Option<Data>

    ghost predicate Valid()
      reads this
    {
      headers.kconv == LowerKey
    }

    ghost function Snapshot(): Message
      reads this, headers
    {
      Message(headers.fields, rawContent)
    }

    constructor (encoding: Encoding, headers: MultiDict<string, string>, rawContent: Option<Data>)
      requires headers.kconv == LowerKey
      ensures Valid() && this.encoding == encoding && this.headers == headers && this.rawContent == rawContent
    {
      this.encoding, this.headers, this.rawContent := encoding, headers, rawContent;
    }

    method SetContentOf(value: Option<Bytes>) returns (typeError: bool)
      requires Valid()
      modifies this, headers, encoding
      ensures Valid()
      ensures (encoding.cache, Snapshot(), typeError)
           == SetContent(encoding.codecs, old(encoding.cache), old(Snapshot()), value)
    {
      if value.None? {
        rawContent := None;
        return false;
      }
      var r := encoding.EncodeData(Raw(value.value), CodingOrIdentity(headers.fields), "strict");
      if r.TypeErr? {
        return true;
      } else if r.Done? {
        rawContent := Some(r.data);
      } else {
        var _ := headers.DeleteItem(CONTENT_ENCODING);
        rawContent := Some(Raw(value.value));
      }
      SetLength();
      return false;
    }

    /** The end of `set_content`. */
    method SetLength()
      requires Valid() && rawContent.Some?
      modifies headers
      ensures Snapshot() == WithLength(old(Snapshot()))
    {
      if HeaderOf(headers.fields, TRANSFER_ENCODING).None? {
        var one := new PyList([DecimalString(LengthOf(rawContent.value))]);
        headers.SetAll(CONTENT_LENGTH, one);
      }
    }

    method GetContentOf(strict: bool) returns (r: Read)
      requires Valid()
      modifies encoding
      ensures (encoding.cache, r) == GetContent(encoding.codecs, old(encoding.cache), Snapshot(), strict)
    {
      var ce := HeaderOf(headers.fields, CONTENT_ENCODING);
      if rawContent.None? {
        return Content(None);
      }
      if ce.None? || ce.value == "" {
        return Content(rawContent);
      }
      var d := encoding.DecodeData(rawContent.value, ce.value, "strict");
      if d.Done? && d.data.Raw? {
        return Content(Some(d.data));
      } else if d.TypeErr? {
        return Failed(TypeErr);
      } else if strict {
        return Failed(ValueErr);
      } else {
        return Content(rawContent);
      }
    }
  }

  // ----- what was set is what is got -----

  lemma DifferentHeaders()
    ensures !Same(LowerKey, CONTENT_LENGTH, CONTENT_ENCODING)
    ensures !Same(LowerKey, CONTENT_LENGTH, TRANSFER_ENCODING)
  {
    assert |CONTENT_LENGTH| == 14 && |CONTENT_ENCODING| == 16 && |TRANSFER_ENCODING| == 17;
    assert |Lower(CONTENT_LENGTH)| == 14 && |Lower(CONTENT_ENCODING)| == 16 && |Lower(TRANSFER_ENCODING)| == 17;
  }

  lemma LengthSet(m: Message)
    requires m.rawContent.Some?
    ensures WithLength(m).rawContent == m.rawContent
    ensures HeaderOf(WithLength(m).headers, CONTENT_ENCODING) == HeaderOf(m.headers, CONTENT_ENCODING)
    ensures HeaderOf(WithLength(m).headers, TRANSFER_ENCODING) == HeaderOf(m.headers, TRANSFER_ENCODING)
    ensures HeaderOf(m.headers, TRANSFER_ENCODING).None? ==>
      HeaderOf(WithLength(m).headers, CONTENT_LENGTH) == Some(DecimalString(LengthOf(m.rawContent.value)))
  {
    DifferentHeaders();
    var values := [DecimalString(LengthOf(m.rawContent.value))];
    SetAllValues(LowerKey, m.headers, CONTENT_LENGTH, values, CONTENT_ENCODING);
    SetAllValues(LowerKey, m.headers, CONTENT_LENGTH, values, TRANSFER_ENCODING);
    SetAllValues(LowerKey, m.headers, CONTENT_LENGTH, values, CONTENT_LENGTH);
  }

  /** Whenever set_content returns, the content is what was set, whatever goes through the cache in
      between, and without Transfer-Encoding the Content-Length is the raw length. */
  lemma ContentRoundTrip(c: Codecs, cache: Option<Cached>, m: Message, value: Bytes, between: seq<Call>, strict: bool)
    requires CompressionsInvert(c) && SoundCache(c, cache)
    requires Inverts(c, Lower(CodingOrIdentity(m.headers)), "strict")
    requires !SetContent(c, cache, m, Some(value)).2
    ensures var (cache', m', _) := SetContent(c, cache, m, Some(value));
      && GetContent(c, Run(c, cache', between).0, m', strict).1 == Content(Some(Raw(value)))
      && m'.rawContent.Some?
      && (HeaderOf(m'.headers, TRANSFER_ENCODING).None? ==>
            HeaderOf(m'.headers, CONTENT_LENGTH) == Some(DecimalString(LengthOf(m'.rawContent.value))))
  {
    var (cache', r) := Encode(c, cache, Raw(value), CodingOrIdentity(m.headers), "strict");
    if r.Done? {
      EncodedRoundTrip(c, cache, m, value, between, strict);
      LengthSet(m.(rawContent := Some(r.data)));
    } else {
      RefusedRoundTrip(c, Run(c, cache', between).0, m, value, strict);
      LengthSet(Message(Others(LowerKey, m.headers, CONTENT_ENCODING), Some(Raw(value))));
    }
  }

  lemma SameContent(c: Codecs, cache: Option<Cached>, m: Message, strict: bool)
    requires m.rawContent.Some?
    ensures GetContent(c, cache, WithLength(m), strict) == GetContent(c, cache, m, strict)
  {
    LengthSet(m);
  }

  lemma EncodedRoundTrip(c: Codecs, cache: Option<Cached>, m: Message, value: Bytes, between: seq<Call>, strict: bool)
    requires CompressionsInvert(c) && SoundCache(c, cache)
    requires Inverts(c, Lower(CodingOrIdentity(m.headers)), "strict")
    requires Encode(c, cache, Raw(value), CodingOrIdentity(m.headers), "strict").1.Done?
    ensures var (cache', r) := Encode(c, cache, Raw(value), CodingOrIdentity(m.headers), "strict");
      GetContent(c, Run(c, cache', between).0, WithLength(m.(rawContent := Some(r.data))), strict).1 == Content(Some(Raw(value)))
  {
    var coding := CodingOrIdentity(m.headers);
    var (cache', r) := Encode(c, cache, Raw(value), coding, "strict");
    var m' := m.(rawContent := Some(r.data));
    SameContent(c, Run(c, cache', between).0, m', strict);
    var ce := HeaderOf(m.headers, CONTENT_ENCODING);
    if ce.None? || ce.value == "" {
      IdentityEncodes(c, cache, value);
    } else {
      EncodedDecodes(c, cache, Raw(value), coding, "strict", between);
    }
  }

  lemma RefusedRoundTrip(c: Codecs, cache: Option<Cached>, m: Message, value: Bytes, strict: bool)
    ensures var headers := Others(LowerKey, m.headers, CONTENT_ENCODING);
      GetContent(c, cache, WithLength(Message(headers, Some(Raw(value)))), strict).1 == Content(Some(Raw(value)))
  {
    var headers := Others(LowerKey, m.headers, CONTENT_ENCODING);
    DeleteValues(LowerKey, m.headers, CONTENT_ENCODING, CONTENT_ENCODING);
    SameContent(c, cache, Message(headers, Some(Raw(value))), strict);
  }

  lemma IdentityEncodes(c: Codecs, cache: Option<Cached>, value: Bytes)
    requires SoundCache(c, cache)
    ensures Encode(c, cache, Raw(value), "identity", "strict").1 == Done(Raw(value))
  {
    assert Lower("identity") == "identity" by {
      assert "identity"[1..] == "dentity" && "dentity"[1..] == "entity" && "entity"[1..] == "ntity" && "ntity"[1..] == "tity";
      assert "tity"[1..] == "ity" && "ity"[1..] == "ty" && "ty"[1..] == "y" && "y"[1..] == "";
      assert Lower("ity") == "ity";
      assert Lower("ntity") == "ntity";
    }
  }

  // ----- which headers change, and when there is no content -----

  lemma HeaderNames()
    ensures CONTENT_ENCODING == "content-encoding" && CONTENT_LENGTH == "content-length" && TRANSFER_ENCODING == "transfer-encoding"
  {
  }

  lemma LengthValues(m: Message, key: string)
    requires m.rawContent.Some?
    ensures var chunked := HeaderOf(m.headers, TRANSFER_ENCODING).Some?;
      GetAll(LowerKey, WithLength(m).headers, key) ==
        if !chunked && Same(LowerKey, key, CONTENT_LENGTH) then [DecimalString(LengthOf(m.rawContent.value))]
        else GetAll(LowerKey, m.headers, key)
  {
    SetAllValues(LowerKey, m.headers, CONTENT_LENGTH, [DecimalString(LengthOf(m.rawContent.value))], key);
  }

  lemma RefusedHeaders(m: Message, value: Bytes, key: string)
    ensures var m' := WithLength(Message(Others(LowerKey, m.headers, CONTENT_ENCODING), Some(Raw(value))));
      && m'.rawContent == Some(Raw(value))
      && GetAll(LowerKey, m'.headers, key) ==
           if Same(LowerKey, key, CONTENT_LENGTH) && HeaderOf(m.headers, TRANSFER_ENCODING).None? then [DecimalString(|value|)]
           else if Same(LowerKey, key, CONTENT_ENCODING) then []
           else GetAll(LowerKey, m.headers, key)
  {
    DifferentHeaders();
    DeleteValues(LowerKey, m.headers, CONTENT_ENCODING, key);
    DeleteValues(LowerKey, m.headers, CONTENT_ENCODING, TRANSFER_ENCODING);
    LengthValues(Message(Others(LowerKey, m.headers, CONTENT_ENCODING), Some(Raw(value))), key);
  }

  /** What set_content does to every header: Content-Length becomes the raw length unless there is a Transfer-Encoding,
      Content-Encoding goes if the codec refuses the content, which is then stored as it is, and nothing else changes. */
  lemma SetContentHeaders(c: Codecs, cache: Option<Cached>, m: Message, value: Bytes, key: string)
    requires !SetContent(c, cache, m, Some(value)).2
    ensures var m', r := SetContent(c, cache, m, Some(value)).1, Encode(c, cache, Raw(value), CodingOrIdentity(m.headers), "strict").1;
      && m'.rawContent == Some(if r.Done? then r.data else Raw(value))
      && GetAll(LowerKey, m'.headers, key) ==
           if Same(LowerKey, key, "content-length") && HeaderOf(m.headers, "transfer-encoding").None? then [DecimalString(LengthOf(m'.rawContent.value))]
           else if Same(LowerKey, key, "content-encoding") && r.ValueErr? then []
           else GetAll(LowerKey, m.headers, key)
  {
    HeaderNames();
    var r := Encode(c, cache, Raw(value), CodingOrIdentity(m.headers), "strict").1;
    if r.Done? {
      LengthValues(m.(rawContent := Some(r.data)), key);
    } else {
      RefusedHeaders(m, value, key);
    }
  }

  /** Without a content, and when a TypeError comes through, set_content leaves all headers alone. */
  lemma SetContentKeeps(c: Codecs, cache: Option<Cached>, m: Message, value: Option<Bytes>)
    ensures value.None? ==> SetContent(c, cache, m, value) == (cache, m.(rawContent := None), false)
    ensures SetContent(c, cache, m, value).2 <==>
      value.Some? && Encode(c, cache, Raw(value.value), CodingOrIdentity(m.headers), "strict").1.TypeErr?
    ensures SetContent(c, cache, m, value).2 ==> SetContent(c, cache, m, value).1 == m
  {
  }

  /** Decoded bytes; where decoding fails, or gives text, a ValueError if strict and the raw content if not; a TypeError always. */
  function ReadOf(d: Outcome, raw: Option<Data>, strict: bool): Read {
    if d.Done? && d.data.Raw? then Content(Some(d.data))
    else if d.TypeErr? then Failed(TypeErr)
    else if strict then Failed(ValueErr)
    else Content(raw)
  }

  lemma ContentDecoded(c: Codecs, cache: Option<Cached>, ce: string, raw: Data, strict: bool)
    requires CompressionsInvert(c) && SoundCache(c, cache) && ce != ""
    ensures ContentUnder(c, cache, Some(ce), Some(raw), strict).1 == ReadOf(PlainDecode(c, raw, Lower(ce), "strict"), Some(raw), strict)
  {
    CallAsUncached(c, cache, DecodeCall(raw, ce, "strict"));
  }

  /** What get_content gives, whatever the cache holds and whatever the coding. */
  lemma GetContentExactly(c: Codecs, cache: Option<Cached>, m: Message, strict: bool)
    requires CompressionsInvert(c) && SoundCache(c, cache)
    ensures var ce, r := HeaderOf(m.headers, "content-encoding"), GetContent(c, cache, m, strict).1;
      if m.rawContent.None? || ce.None? || ce.value == "" then r == Content(m.rawContent)
      else r == ReadOf(PlainDecode(c, m.rawContent.value, Lower(ce.value), "strict"), m.rawContent, strict)
  {
    HeaderNames();
    var ce := HeaderOf(m.headers, CONTENT_ENCODING);
    if m.rawContent.Some? && ce.Some? && ce.value != "" {
      ContentDecoded(c, cache, ce.value, m.rawContent.value, strict);
    }
  }
}
