/** Content codings with their shared one-element cache (mitmproxy/net/encoding.py). */
module Encodings {
  import opened ByteStrings
  import opened Chars
  import opened Options

  // Compressors and text codecs are parameters.

  datatype Data = Raw(bytes: Bytes) | Str(text: string)

  /** A value, or one of the two kinds of exceptions. */
  datatype Outcome = Done(data: Data) | ValueErr | TypeErr

  /** The foreign codecs, by lower-case name. */
  datatype Codecs = Codecs(encode: (Data, string, string) -> Outcome, decode: (Data, string, string) -> Outcome)

  datatype Cached = Cached(encoded: Data, encoding: string, errors: string, decoded: Data)

  predicate IsIdentity(name: string) {
    name == "none" || name == "identity"
  }

  predicate IsCompression(name: string) {
    name == "gzip" || name == "deflate" || name == "deflateraw" || name == "br" || name == "zstd"
  }

  predicate IsEmpty(d: Data) {
    match d
    case Raw(b) => b == []
    case Str(s) => s == ""
  }

  // ----- without the cache -----

  function PlainDecode(c: Codecs, encoded: Data, name: string, errors: string): Outcome {
    if IsIdentity(name) then Done(encoded)
    else if IsCompression(name) && IsEmpty(encoded) then Done(Raw([]))
    else c.decode(encoded, name, errors)
  }

  function PlainEncode(c: Codecs, decoded: Data, name: string, errors: string): Outcome {
    if IsIdentity(name) then Done(decoded) else c.encode(decoded, name, errors)
  }

  // ----- with the cache -----

  function Decode(c: Codecs, cache: Option<Cached>, encoded: Data, encoding: string, errors: string): (Option<Cached>, Outcome) {
    var name := Lower(encoding);
    if encoded.Raw? && cache.Some? && cache.value.encoded == encoded && cache.value.encoding == name && cache.value.errors == errors then
      (cache, Done(cache.value.decoded))
    else
      var r := PlainDecode(c, encoded, name, errors);
      (if r.Done? && IsCompression(name) then Some(Cached(encoded, name, errors, r.data)) else cache, r)
  }

  function Encode(c: Codecs, cache: Option<Cached>, decoded: Data, encoding: string, errors: string): (Option<Cached>, Outcome) {
    var name := Lower(encoding);
    if decoded.Raw? && cache.Some? && cache.value.decoded == decoded && cache.value.encoding == name && cache.value.errors == errors then
      (cache, Done(cache.value.encoded))
    else
      var r := PlainEncode(c, decoded, name, errors);
      (if r.Done? && IsCompression(name) then Some(Cached(r.data, name, errors, decoded)) else cache, r)
  }

  /** The module with its global cache. */
  class Encoding {
    const codecs: Codecs
    var cache: Option<Cached>

    constructor (codecs: Codecs)
      ensures this.codecs == codecs && cache == None
    {
      this.codecs, cache := codecs, None;
    }

    /** The shared cache changes nothing a caller can see: the result is the uncached one. */
    method DecodeData(encoded: Data, encoding: string, errors: string) returns (r: Outcome)
      modifies this
      ensures (cache, r) == Decode(codecs, old(cache), encoded, encoding, errors)
      ensures CompressionsInvert(codecs) && SoundCache(codecs, old(cache)) ==>
        r == PlainDecode(codecs, encoded, Lower(encoding), errors) && SoundCache(codecs, cache)
    {
      if CompressionsInvert(codecs) && SoundCache(codecs, cache) {
        CallAsUncached(codecs, cache, DecodeCall(encoded, encoding, errors));
      }
      var name := Lower(encoding);
      if encoded.Raw? && cache.Some? && cache.value.encoded == encoded && cache.value.encoding == name && cache.value.errors == errors {
        return Done(cache.value.decoded);
      }
      r := PlainDecode(codecs, encoded, name, errors);
      if r.Done? && IsCompression(name) {
        cache := Some(Cached(encoded, name, errors, r.data));
      }
    }

    /** What is returned decodes to the input, whether it comes from the cache or not. */
    method EncodeData(decoded: Data, encoding: string, errors: string) returns (r: Outcome)
      modifies this
      ensures (cache, r) == Encode(codecs, old(cache), decoded, encoding, errors)
      ensures CompressionsInvert(codecs) && SoundCache(codecs, old(cache)) ==>
        AsUncached(codecs, EncodeCall(decoded, encoding, errors), r) && SoundCache(codecs, cache)
    {
      if CompressionsInvert(codecs) && SoundCache(codecs, cache) {
        CallAsUncached(codecs, cache, EncodeCall(decoded, encoding, errors));
      }
      var name := Lower(encoding);
      if decoded.Raw? && cache.Some? && cache.value.decoded == decoded && cache.value.encoding == name && cache.value.errors == errors {
        return Done(cache.value.encoded);
      }
      r := PlainEncode(codecs, decoded, name, errors);
      if r.Done? && IsCompression(name) {
        cache := Some(Cached(r.data, name, errors, decoded));
      }
    }
  }

  // ----- the cache is never seen -----

  /** A codec inverts itself: what it encodes, it decodes to the same. */
  ghost predicate Inverts(c: Codecs, name: string, errors: string) {
    forall d :: PlainEncode(c, d, name, errors).Done? ==> PlainDecode(c, PlainEncode(c, d, name, errors).data, name, errors) == Done(d)
  }

  ghost predicate CompressionsInvert(c: Codecs) {
    forall name, errors :: IsCompression(name) ==> Inverts(c, name, errors)
  }

  predicate Sound(c: Codecs, cache: Option<Cached>) {
    cache.Some? ==> PlainDecode(c, cache.value.encoded, cache.value.encoding, cache.value.errors) == Done(cache.value.decoded)
  }

  datatype Call = DecodeCall(data: Data, encoding: string, errors: string) | EncodeCall(data: Data, encoding: string, errors: string)

  function Perform(c: Codecs, cache: Option<Cached>, call: Call): (Option<Cached>, Outcome) {
    match call
    case DecodeCall(data, encoding, errors) => Decode(c, cache, data, encoding, errors)
    case EncodeCall(data, encoding, errors) => Encode(c, cache, data, encoding, errors)
  }

  function Run(c: Codecs, cache: Option<Cached>, calls: seq<Call>): (r: (Option<Cached>, seq<Outcome>))
    ensures |r.1| == |calls|
    decreases |calls|
  {
    if calls == [] then (cache, [])
    else
      var (cache', outcome) := Perform(c, cache, calls[0]);
      var (last, rest) := Run(c, cache', calls[1..]);
      (last, [outcome] + rest)
  }

  /** What a caller may rely on without knowing of a cache. */
  ghost predicate AsUncached(c: Codecs, call: Call, r: Outcome) {
    var name := Lower(call.encoding);
    if call.DecodeCall? then r == PlainDecode(c, call.data, name, call.errors)
    else
      && (r.Done? && Inverts(c, name, call.errors) ==> PlainDecode(c, r.data, name, call.errors) == Done(call.data))
      && (!r.Done? ==> r == PlainEncode(c, call.data, name, call.errors))
      && (!IsCompression(name) ==> r == PlainEncode(c, call.data, name, call.errors))
  }

  ghost predicate SoundCache(c: Codecs, cache: Option<Cached>) {
    Sound(c, cache) && (cache.Some? ==> IsCompression(cache.value.encoding))
  }

  lemma CallAsUncached(c: Codecs, cache: Option<Cached>, call: Call)
    requires CompressionsInvert(c) && SoundCache(c, cache)
    ensures AsUncached(c, call, Perform(c, cache, call).1)
    ensures SoundCache(c, Perform(c, cache, call).0)
  {
  }

  /** Over any sequence of calls, decode gives what the uncached decoder gives, and what encode returns decodes to its input. */
  lemma {:induction false} CacheIsInvisible(c: Codecs, cache: Option<Cached>, calls: seq<Call>)
    requires CompressionsInvert(c) && SoundCache(c, cache)
    ensures forall i :: 0 <= i < |calls| ==> AsUncached(c, calls[i], Run(c, cache, calls).1[i])
    ensures SoundCache(c, Run(c, cache, calls).0)
    decreases |calls|
  {
    if calls != [] {
      CallAsUncached(c, cache, calls[0]);
      CacheIsInvisible(c, Perform(c, cache, calls[0]).0, calls[1..]);
      assert forall i :: 0 < i < |calls| ==> calls[i] == calls[1..][i - 1];
    }
  }

  /** Encoding and then decoding the result, whatever calls come in between, gives the input back. */
  lemma EncodedDecodes(c: Codecs, cache: Option<Cached>, data: Data, encoding: string, errors: string, between: seq<Call>)
    requires CompressionsInvert(c) && SoundCache(c, cache) && Inverts(c, Lower(encoding), errors)
    requires Encode(c, cache, data, encoding, errors).1.Done?
    ensures var (cache', r) := Encode(c, cache, data, encoding, errors);
      Decode(c, Run(c, cache', between).0, r.data, encoding, errors).1 == Done(data)
  {
    var (cache', r) := Encode(c, cache, data, encoding, errors);
    CallAsUncached(c, cache, EncodeCall(data, encoding, errors));
    CacheIsInvisible(c, cache', between);
    CallAsUncached(c, Run(c, cache', between).0, DecodeCall(r.data, encoding, errors));
  }

  /** By name, after any calls: `none` and `identity` change nothing, the five compressions give what their codec gives
      (or an input that decodes to the data), an empty body decompresses to nothing, and every other name is the codec's. */
  lemma ResultsByName(c: Codecs, calls: seq<Call>, data: Data, encoding: string, errors: string)
    requires CompressionsInvert(c)
    ensures var cache, name := Run(c, None, calls).0, Lower(encoding);
      Decode(c, cache, data, encoding, errors).1 ==
        if name in ["none", "identity"] then Done(data)
        else if name in ["gzip", "deflate", "deflateraw", "br", "zstd"] && data in [Raw([]), Str("")] then Done(Raw([]))
        else c.decode(data, name, errors)
    ensures var cache, name := Run(c, None, calls).0, Lower(encoding);
      var r := Encode(c, cache, data, encoding, errors).1;
      if name in ["none", "identity"] then r == Done(data)
      else
        || r == c.encode(data, name, errors)
        || (name in ["gzip", "deflate", "deflateraw", "br", "zstd"] && r.Done? && PlainDecode(c, r.data, name, errors) == Done(data))
  {
    CacheIsInvisible(c, None, calls);
    CallAsUncached(c, Run(c, None, calls).0, DecodeCall(data, encoding, errors));
  }

  /** Decompressing the same bytes again, or compressing them back, calls no codec: any other codecs would do. */
  lemma SecondCallIsCached(c: Codecs, other: Codecs, cache: Option<Cached>, data: Bytes, encoding: string, errors: string)
    requires Lower(encoding) in ["gzip", "deflate", "deflateraw", "br", "zstd"]
    ensures var (kept, r) := Decode(c, cache, Raw(data), encoding, errors);
      r.Done? ==>
        && Decode(other, kept, Raw(data), encoding, errors) == (kept, r)
        && (r.data.Raw? ==> Encode(other, kept, r.data, encoding, errors) == (kept, Done(Raw(data))))
    ensures var (kept, r) := Encode(c, cache, Raw(data), encoding, errors);
      r.Done? ==> Encode(other, kept, Raw(data), encoding, errors) == (kept, r)
  {
  }
}
