/** The ClientHello of a TLS connection (mitmproxy/proxy/layers/tls.py), out of its records and buffered. */
module ClientHellos {
  import opened ByteStrings
  import opened Options
  import opened Seqs

  // What the body of a hello says is left to an opaque parser, which fails where the original hits the end.

  // ----- out of the records -----

  datatype Extracted = Incomplete | Complete(hello: Bytes) | Invalid

  predicate StartsLikeTlsRecord(d: Bytes) {
    |d| > 2 && d[0] == 0x16 && d[1] == 0x03 && d[2] <= 0x03
  }

  function Unpack16(hi: Byte, lo: Byte): nat {
    (hi as int) * 256 + (lo as int)
  }

  /** The length of a handshake message with its four-byte header. */
  function MessageSize(hello: Bytes): (n: nat)
    requires |hello| >= 4
    ensures n >= 4
  {
    (hello[1] as int) * 65536 + (hello[2] as int) * 256 + (hello[3] as int) + 4
  }

  predicate IsWhole(hello: Bytes) {
    |hello| >= 4 && |hello| >= MessageSize(hello)
  }

  datatype RecordStep = Body(body: Bytes, next: nat) | NoMore | NotARecord

  /** The record at an offset. */
  function RecordAt(data: Bytes, offset: nat): (r: RecordStep)
    requires offset <= |data|
    ensures r.Body? ==> offset < r.next <= |data|
  {
    if |data| < offset + 5 then NoMore
    else if !StartsLikeTlsRecord(data[offset..offset + 5]) then NotARecord
    else
      var size := Unpack16(data[offset + 3], data[offset + 4]);
      if size == 0 then NotARecord
      else if |data| < offset + 5 + size then NoMore
      else Body(data[offset + 5..offset + 5 + size], offset + 5 + size)
  }

  /** Reading records from an offset on, with the handshake bytes read before it. */
  function Extract(data: Bytes, offset: nat, hello: Bytes): (r: Extracted)
    requires offset <= |data|
    ensures r.Complete? ==> |r.hello| >= 4
    decreases |data| - offset
  {
    match RecordAt(data, offset)
    case NoMore => Incomplete
    case NotARecord => Invalid
    case Body(body, next) =>
      var hello' := hello + body;
      if IsWhole(hello') then Complete(hello'[..MessageSize(hello')]) else Extract(data, next, hello')
  }

  /** The generator `handshake_record_contents`. */
  class HandshakeRecords {
    const data: Bytes
    var offset: nat

    ghost predicate Valid()
      reads this
    {
      offset <= |data|
    }

    constructor (data: Bytes)
      ensures Valid() && this.data == data && offset == 0
    {
      this.data, offset := data, 0;
    }

    method Next() returns (r: RecordStep)
      requires Valid()
      modifies this
      ensures Valid() && r == RecordAt(data, old(offset))
      ensures offset == if r.Body? then r.next else old(offset)
    {
      if |data| < offset + 5 {
        return NoMore;
      }
      var header := data[offset..offset + 5];
      if !StartsLikeTlsRecord(header) {
        return NotARecord;
      }
      var size := Unpack16(header[3], header[4]);
      if size == 0 {
        return NotARecord;
      }
      if |data| < offset + 5 + size {
        return NoMore;
      }
      r := Body(data[offset + 5..offset + 5 + size], offset + 5 + size);
      offset := offset + 5 + size;
    }
  }

  method GetClientHello(data: Bytes) returns (r: Extracted)
    ensures r == Extract(data, 0, [])
  {
    var records := new HandshakeRecords(data);
    var hello := [];
    while true
      invariant records.Valid() && records.data == data
      invariant Extract(data, 0, []) == Extract(data, records.offset, hello)
      decreases |data| - records.offset
    {
      var d := records.Next();
      match d {
        case NoMore => return Incomplete;
        case NotARecord => return Invalid;
        case Body(body, _) =>
          hello := hello + body;
          if IsWhole(hello) {
            return Complete(hello[..MessageSize(hello)]);
          }
      }
    }
  }

  // ----- more bytes never change a verdict -----

  lemma RecordSurvives(data: Bytes, offset: nat, more: Bytes)
    requires offset <= |data| && !RecordAt(data, offset).NoMore?
    ensures RecordAt(data + more, offset) == RecordAt(data, offset)
  {
    var all := data + more;
    assert all[offset..offset + 5] == data[offset..offset + 5];
    if RecordAt(data, offset).Body? {
      var next := RecordAt(data, offset).next;
      assert all[offset + 5..next] == data[offset + 5..next];
    }
  }

  /** `hello` and `error` survive any extension of the input. */
  lemma {:induction false} VerdictSurvives(data: Bytes, offset: nat, hello: Bytes, more: Bytes)
    requires offset <= |data| && !Extract(data, offset, hello).Incomplete?
    ensures Extract(data + more, offset, hello) == Extract(data, offset, hello)
    decreases |data| - offset
  {
    RecordSurvives(data, offset, more);
    match RecordAt(data, offset) {
      case Body(body, next) =>
        if !IsWhole(hello + body) {
          VerdictSurvives(data, next, hello + body, more);
        }
      case _ =>
    }
  }

  // ----- any split into records -----

  /** A handshake record: the minor version and a body of 1 to 65535 bytes. */
  datatype Record = Record(minor: Byte, body: Bytes)

  predicate GoodRecord(r: Record) {
    r.minor <= 3 && 0 < |r.body| < 65536
  }

  function RecordBytes(r: Record): Bytes
    requires GoodRecord(r)
  {
    [0x16, 0x03, r.minor, |r.body| / 256, |r.body| % 256] + r.body
  }

  predicate GoodRecords(rs: seq<Record>) {
    forall i :: 0 <= i < |rs| ==> GoodRecord(rs[i])
  }

  function Encoding(rs: seq<Record>): Bytes
    requires GoodRecords(rs)
  {
    if rs == [] then [] else RecordBytes(rs[0]) + Encoding(rs[1..])
  }

  function Bodies(rs: seq<Record>): Bytes {
    if rs == [] then [] else rs[0].body + Bodies(rs[1..])
  }

  /** A handshake message whose length field is right. */
  predicate IsMessage(hello: Bytes) {
    |hello| >= 4 && |hello| == MessageSize(hello)
  }

  lemma RecordRead(before: Bytes, r: Record, rest: Bytes)
    requires GoodRecord(r)
    ensures RecordAt(before + RecordBytes(r) + rest, |before|) == Body(r.body, |before + RecordBytes(r)|)
  {
    var all := before + RecordBytes(r) + rest;
    var at := |before|;
    assert all[at..at + 5] == RecordBytes(r)[..5];
    assert all[at + 5..at + 5 + |r.body|] == r.body;
  }

  lemma RecordCut(before: Bytes, r: Record, n: nat)
    requires GoodRecord(r) && n < |RecordBytes(r)|
    ensures RecordAt(before + RecordBytes(r)[..n], |before|) == NoMore
  {
    var all := before + RecordBytes(r)[..n];
    var at := |before|;
    if n >= 5 {
      assert all[at..at + 5] == RecordBytes(r)[..5];
    }
  }

  lemma PrefixSize(hello: Bytes, whole: Bytes)
    requires hello <= whole && IsMessage(whole) && |hello| < |whole|
    ensures !IsWhole(hello)
  {
  }

  lemma {:induction false} NonemptyBodies(rs: seq<Record>)
    requires GoodRecords(rs) && rs != []
    ensures |Bodies(rs)| > 0
  {
  }

  /** The whole encoding gives the message, whatever follows it. */
  lemma {:induction false} ExtractFrom(before: Bytes, hello: Bytes, rs: seq<Record>, rest: Bytes)
    requires GoodRecords(rs) && rs != [] && IsMessage(hello + Bodies(rs))
    ensures Extract(before + (Encoding(rs) + rest), |before|, hello) == Complete(hello + Bodies(rs))
    decreases |rs|
  {
    var first, more := RecordBytes(rs[0]), Encoding(rs[1..]) + rest;
    Associative(first, Encoding(rs[1..]), rest);
    Associative(before, first, more);
    RecordRead(before, rs[0], more);
    var hello' := hello + rs[0].body;
    Associative(hello, rs[0].body, Bodies(rs[1..]));
    if |rs| == 1 {
      assert hello' + [] == hello' && hello'[..|hello'|] == hello';
    } else {
      NonemptyBodies(rs[1..]);
      PrefixSize(hello', hello' + Bodies(rs[1..]));
      ExtractFrom(before + first, hello', rs[1..], rest);
    }
  }

  /** Every strict prefix of the encoding is incomplete. */
  lemma {:induction false} PrefixFrom(before: Bytes, hello: Bytes, rs: seq<Record>, n: nat)
    requires GoodRecords(rs) && rs != [] && IsMessage(hello + Bodies(rs)) && n < |Encoding(rs)|
    ensures Extract(before + Encoding(rs)[..n], |before|, hello) == Incomplete
    decreases |rs|
  {
    var first := RecordBytes(rs[0]);
    if n < |first| {
      assert Encoding(rs)[..n] == first[..n];
      RecordCut(before, rs[0], n);
    } else {
      var more := Encoding(rs[1..])[..n - |first|];
      assert Encoding(rs)[..n] == first + more;
      Associative(before, first, more);
      RecordRead(before, rs[0], more);
      var hello' := hello + rs[0].body;
      Associative(hello, rs[0].body, Bodies(rs[1..]));
      NonemptyBodies(rs[1..]);
      PrefixSize(hello', hello' + Bodies(rs[1..]));
      PrefixFrom(before + first, hello', rs[1..], n - |first|);
    }
  }

  /** However a message is split into records, exactly the inputs that hold the whole encoding
      give it, and they give it whatever follows. */
  lemma SplitDoesNotMatter(hello: Bytes, rs: seq<Record>, rest: Bytes, n: nat)
    requires GoodRecords(rs) && IsMessage(hello) && Bodies(rs) == hello && n <= |Encoding(rs)|
    ensures Extract(Encoding(rs) + rest, 0, []) == Complete(hello)
    ensures Extract(Encoding(rs)[..n], 0, []) == if n == |Encoding(rs)| then Complete(hello) else Incomplete
  {
    assert [] + hello == hello;
    ExtractFrom([], [], rs, rest);
    assert [] + (Encoding(rs) + rest) == Encoding(rs) + rest;
    if n == |Encoding(rs)| {
      ExtractFrom([], [], rs, []);
      assert [] + (Encoding(rs) + []) == Encoding(rs)[..n];
    } else {
      PrefixFrom([], [], rs, n);
      assert [] + Encoding(rs)[..n] == Encoding(rs)[..n];
    }
  }

  // ----- exactly which inputs wait, fail or give a hello -----

  /** The number whose digits to the base of 256 are the bytes. */
  function BigEndian(b: Bytes): nat {
    if b == [] then 0 else 256 * BigEndian(b[..|b| - 1]) + b[|b| - 1] as int
  }

  lemma TwoBytes(a: Byte, b: Byte)
    ensures BigEndian([a, b]) == Unpack16(a, b)
  {
    assert [a, b][..1] == [a] && [a][..0] == [];
    assert BigEndian([a]) == 256 * BigEndian([]) + a as int;
    assert BigEndian([a, b]) == 256 * BigEndian([a]) + b as int;
  }

  lemma ThreeBytes(a: Byte, b: Byte, c: Byte)
    ensures BigEndian([a, b, c]) == 65536 * (a as int) + 256 * (b as int) + c as int
  {
    assert [a, b, c][..2] == [a, b];
    TwoBytes(a, b);
  }

  /** The bytes hold a whole message: a type, a length in three bytes, and as much as it says. */
  predicate HoldsMessage(b: Bytes) {
    |b| >= 4 && |b| - 4 >= BigEndian([b[1], b[2], b[3]])
  }

  /** A message framed by itself. */
  predicate Framed(m: Bytes) {
    |m| >= 4 && |m| - 4 == BigEndian([m[1], m[2], m[3]])
  }

  /** Five bytes that are no header of a handshake record, or that announce an empty one. */
  predicate NoRecord(tail: Bytes) {
    |tail| >= 5 && (tail[0] != 22 || tail[1] != 3 || tail[2] > 3 || (tail[3] == 0 && tail[4] == 0))
  }

  /** A record that is not there in full, perhaps not even its header. */
  predicate CutRecord(tail: Bytes) {
    |tail| < 5
    || (tail[0] == 22 && tail[1] == 3 && tail[2] <= 3 && 0 < BigEndian([tail[3], tail[4]])
        && |tail| - 5 < BigEndian([tail[3], tail[4]]))
  }

  /** Good records, and something behind them. */
  ghost predicate Splits(data: Bytes, rs: seq<Record>, tail: Bytes) {
    GoodRecords(rs) && data == Encoding(rs) + tail
  }

  ghost predicate Fails(data: Bytes) {
    exists rs: seq<Record>, tail :: Splits(data, rs, tail) && !HoldsMessage(Bodies(rs)) && NoRecord(tail)
  }

  ghost predicate Waits(data: Bytes) {
    exists rs: seq<Record>, tail :: Splits(data, rs, tail) && !HoldsMessage(Bodies(rs)) && CutRecord(tail)
  }

  ghost predicate Gives(data: Bytes, m: Bytes) {
    Framed(m) && exists rs: seq<Record>, tail :: Splits(data, rs, tail) && m <= Bodies(rs)
  }

  lemma TailStep(before: Bytes, tail: Bytes)
    ensures NoRecord(tail) <==> RecordAt(before + tail, |before|) == NotARecord
    ensures CutRecord(tail) <==> RecordAt(before + tail, |before|) == NoMore
  {
    var all := before + tail;
    if |tail| >= 5 {
      assert all[|before|..|before| + 5] == tail[..5];
      assert all[|before| + 3] == tail[3] && all[|before| + 4] == tail[4];
      TwoBytes(tail[3], tail[4]);
    }
  }

  lemma WholeExactly(b: Bytes)
    ensures HoldsMessage(b) <==> IsWhole(b)
    ensures HoldsMessage(b) ==> Framed(b[..MessageSize(b)])
  {
    if |b| >= 4 {
      ThreeBytes(b[1], b[2], b[3]);
    }
  }

  lemma FramedSize(m: Bytes)
    requires Framed(m)
    ensures |m| == MessageSize(m)
  {
    ThreeBytes(m[1], m[2], m[3]);
  }

  /** Whatever the records, as long as they hold no whole message it is what follows them that counts. */
  lemma {:induction false} ExtractPast(before: Bytes, hello: Bytes, rs: seq<Record>, tail: Bytes)
    requires GoodRecords(rs) && !IsWhole(hello + Bodies(rs))
    ensures Extract(before + (Encoding(rs) + tail), |before|, hello)
         == Extract(before + Encoding(rs) + tail, |before + Encoding(rs)|, hello + Bodies(rs))
    decreases |rs|
  {
    Associative(before, Encoding(rs), tail);
    if rs == [] {
      assert before + [] == before && hello + [] == hello;
    } else {
      var first, more := RecordBytes(rs[0]), Encoding(rs[1..]) + tail;
      Associative(first, Encoding(rs[1..]), tail);
      Associative(before, first, more);
      Associative(before, first, Encoding(rs[1..]));
      RecordRead(before, rs[0], more);
      Associative(hello, rs[0].body, Bodies(rs[1..]));
      NotYetWhole(hello + rs[0].body, Bodies(rs[1..]));
      ExtractPast(before + first, hello + rs[0].body, rs[1..], tail);
    }
  }

  lemma NotYetWhole(hello: Bytes, more: Bytes)
    requires !IsWhole(hello + more)
    ensures !IsWhole(hello)
  {
    if |hello| >= 4 {
      assert (hello + more)[..4] == hello[..4];
    }
  }

  /** Records that hold a whole message give it, whatever follows. */
  lemma {:induction false} ExtractUpTo(before: Bytes, hello: Bytes, rs: seq<Record>, tail: Bytes, m: Bytes)
    requires GoodRecords(rs) && !IsWhole(hello) && Framed(m) && m <= hello + Bodies(rs)
    ensures Extract(before + (Encoding(rs) + tail), |before|, hello) == Complete(m)
    decreases |rs|
  {
    if rs == [] {
      MessageWithin(hello, m, Bodies(rs));
    } else {
      var first, more := RecordBytes(rs[0]), Encoding(rs[1..]) + tail;
      Associative(first, Encoding(rs[1..]), tail);
      Associative(before, first, more);
      RecordRead(before, rs[0], more);
      var hello' := hello + rs[0].body;
      Associative(hello, rs[0].body, Bodies(rs[1..]));
      if IsWhole(hello') {
        SameMessage(hello', Bodies(rs[1..]), m);
      } else {
        ExtractUpTo(before + first, hello', rs[1..], tail, m);
      }
    }
  }

  lemma MessageWithin(hello: Bytes, m: Bytes, more: Bytes)
    requires Framed(m) && m <= hello + more && more == []
    ensures IsWhole(hello)
  {
    FramedSize(m);
    assert hello + more == hello && hello[..4] == m[..4];
  }

  lemma SameMessage(hello: Bytes, more: Bytes, m: Bytes)
    requires IsWhole(hello) && Framed(m) && m <= hello + more
    ensures m == hello[..MessageSize(hello)]
  {
    FramedSize(m);
    assert hello[..4] == (hello + more)[..4] == m[..4];
    assert (hello + more)[..|m|] == hello[..|m|];
  }

  /** Every input splits into good records and a cut record, no record, or a message. */
  lemma {:induction false} SplitOf(data: Bytes, offset: nat, hello: Bytes) returns (rs: seq<Record>, tail: Bytes)
    requires offset <= |data|
    ensures GoodRecords(rs) && data[offset..] == Encoding(rs) + tail
    ensures match Extract(data, offset, hello)
            case Incomplete => CutRecord(tail) && (rs == [] || !IsWhole(hello + Bodies(rs)))
            case Invalid => NoRecord(tail) && (rs == [] || !IsWhole(hello + Bodies(rs)))
            case Complete(m) => rs != [] && IsWhole(hello + Bodies(rs)) && m == (hello + Bodies(rs))[..MessageSize(hello + Bodies(rs))]
    decreases |data| - offset
  {
    TailStep(data[..offset], data[offset..]);
    assert data[..offset] + data[offset..] == data;
    match RecordAt(data, offset) {
      case NoMore =>
        rs, tail := [], data[offset..];
        assert [] + tail == tail;
      case NotARecord =>
        rs, tail := [], data[offset..];
        assert [] + tail == tail;
      case Body(body, next) =>
        var r := RecordHere(data, offset);
        if IsWhole(hello + body) {
          rs, tail := [r], data[next..];
          assert [r][1..] == [] && RecordBytes(r) + [] == RecordBytes(r) && r.body + [] == r.body;
        } else {
          rs, tail := SplitOf(data, next, hello + body);
          rs := OneMoreRecord(r, rs, hello, data[offset..], data[next..], tail);
        }
    }
  }

  lemma RecordHere(data: Bytes, offset: nat) returns (r: Record)
    requires offset <= |data| && RecordAt(data, offset).Body?
    ensures var step := RecordAt(data, offset);
            GoodRecord(r) && r.body == step.body && data[offset..] == RecordBytes(r) + data[step.next..]
  {
    var body, next := RecordAt(data, offset).body, RecordAt(data, offset).next;
    var header := data[offset..offset + 5];
    r := Record(header[2], body);
    assert RecordBytes(r)[..5] == header;
    assert data[offset..] == header + body + data[next..];
  }

  lemma OneMoreRecord(r: Record, rs: seq<Record>, hello: Bytes, all: Bytes, more: Bytes, tail: Bytes) returns (rs': seq<Record>)
    requires GoodRecord(r) && GoodRecords(rs) && all == RecordBytes(r) + more && more == Encoding(rs) + tail
    ensures rs' == [r] + rs && GoodRecords(rs') && all == Encoding(rs') + tail && hello + Bodies(rs') == hello + r.body + Bodies(rs)
  {
    rs' := [r] + rs;
    assert rs'[1..] == rs;
    Associative(RecordBytes(r), Encoding(rs), tail);
    Associative(hello, r.body, Bodies(rs));
  }

  /** Which inputs fail: exactly those in which good records that hold no whole message are followed by five bytes that
      are no header. Which wait, and which give which hello, are told as exactly. */
  lemma VerdictExactly(data: Bytes, m: Bytes)
    ensures Extract(data, 0, []) == Invalid <==> Fails(data)
    ensures Extract(data, 0, []) == Incomplete <==> Waits(data)
    ensures Extract(data, 0, []) == Complete(m) <==> Gives(data, m)
  {
    VerdictShows(data);
    if Fails(data) {
      var rs, tail :| Splits(data, rs, tail) && !HoldsMessage(Bodies(rs)) && NoRecord(tail);
      TailDecides(data, rs, tail);
    }
    if Waits(data) {
      var rs, tail :| Splits(data, rs, tail) && !HoldsMessage(Bodies(rs)) && CutRecord(tail);
      TailDecides(data, rs, tail);
    }
    if Gives(data, m) {
      GivenIsExtracted(data, m);
    }
  }

  lemma VerdictShows(data: Bytes)
    ensures match Extract(data, 0, [])
            case Incomplete => Waits(data)
            case Invalid => Fails(data)
            case Complete(m) => Gives(data, m)
  {
    var rs, tail := SplitOf(data, 0, []);
    var bodies := Bodies(rs);
    assert data[0..] == data && [] + bodies == bodies;
    WholeExactly(bodies);
    assert Splits(data, rs, tail);
    assert rs == [] ==> bodies == [];
  }

  lemma GivenIsExtracted(data: Bytes, m: Bytes)
    requires Gives(data, m)
    ensures Extract(data, 0, []) == Complete(m)
  {
    var rs: seq<Record>, tail :| Splits(data, rs, tail) && m <= Bodies(rs);
    assert [] + Bodies(rs) == Bodies(rs) && [] + (Encoding(rs) + tail) == data;
    ExtractUpTo([], [], rs, tail, m);
  }

  lemma TailDecides(data: Bytes, rs: seq<Record>, tail: Bytes)
    requires Splits(data, rs, tail) && !HoldsMessage(Bodies(rs))
    ensures NoRecord(tail) ==> Extract(data, 0, []) == Invalid
    ensures CutRecord(tail) ==> Extract(data, 0, []) == Incomplete
  {
    WholeExactly(Bodies(rs));
    assert [] + Bodies(rs) == Bodies(rs) && [] + Encoding(rs) == Encoding(rs) && [] + (Encoding(rs) + tail) == data;
    ExtractPast([], [], rs, tail);
    TailStep(Encoding(rs), tail);
  }

  // ----- buffering -----

  datatype Parsed<H> = Waiting | Unparsable | Hello(hello: H)

  /** `parse_client_hello`; a body that the parser rejects is as bad as a bad record. */
  function ParseClientHello<H>(data: Bytes, parseBody: Bytes -> Option<H>): Parsed<H> {
    match Extract(data, 0, [])
    case Incomplete => Waiting
    case Invalid => Unparsable
    case Complete(hello) =>
      var body := parseBody(hello[4..]);
      if body.None? then Unparsable else Hello(body.value)
  }

  lemma ParseSurvives<H>(data: Bytes, more: Bytes, parseBody: Bytes -> Option<H>)
    requires !ParseClientHello(data, parseBody).Waiting?
    ensures ParseClientHello(data + more, parseBody) == ParseClientHello(data, parseBody)
  {
    VerdictSurvives(data, 0, [], more);
  }

  /** What the hook decides, and whether the connection is still up when TLS has been started. */
  datatype Decision = Ignore | Intercept(connected: bool)

  /** What one call does: the bytes go on to the child that relays an ignored connection, or into the TLS engine. */
  datatype Received<H> =
    | Wait
    | CannotParse
    | Ignored(hello: H, toChild: Bytes)
    | ClosedEarly(hello: H)
    | ToTls(first: Option<H>, bytes: Bytes)

  datatype State = State(recvBuffer: Bytes, parsed: bool)

  function Receive<H>(s: State, data: Bytes, parseBody: Bytes -> Option<H>, decision: Decision): (State, Received<H>) {
    if s.parsed then (s, ToTls(None, data))
    else
      var all := s.recvBuffer + data;
      match ParseClientHello(all, parseBody)
      case Waiting => (State(all, false), Wait)
      case Unparsable => (State(all, false), CannotParse)
      case Hello(h) =>
        match decision
        case Ignore => (State([], true), Ignored(h, all))
        case Intercept(true) => (State([], true), ToTls(Some(h), all))
        case Intercept(false) => (State(all, true), ClosedEarly(h))
  }

  class ClientTLSLayer<H> {
    const parseBody: Bytes -> Option<H>
    var recvBuffer: Bytes
    var clientHelloParsed: bool

    ghost function Snapshot(): State
      reads this
    {
      State(recvBuffer, clientHelloParsed)
    }

    constructor (parseBody: Bytes -> Option<H>)
      ensures Snapshot() == State([], false) && this.parseBody == parseBody
    {
      this.parseBody, recvBuffer, clientHelloParsed := parseBody, [], false;
    }

    method ReceiveHandshakeData(data: Bytes, decision: Decision) returns (r: Received<H>)
      modifies this
      ensures (Snapshot(), r) == Receive(old(Snapshot()), data, parseBody, decision)
    {
      if clientHelloParsed {
        return ToTls(None, data);
      }
      recvBuffer := recvBuffer + data;
      var extracted := GetClientHello(recvBuffer);
      match extracted {
        case Incomplete => return Wait;
        case Invalid => return CannotParse;
        case Complete(hello) =>
          var body := parseBody(hello[4..]);
          if body.None? {
            return CannotParse;
          }
          clientHelloParsed := true;
          if decision.Ignore? {
            r := Ignored(body.value, recvBuffer);
            recvBuffer := [];
          } else if !decision.connected {
            r := ClosedEarly(body.value);
          } else {
            r := ToTls(Some(body.value), recvBuffer);
            recvBuffer := [];
          }
      }
    }
  }

  /** A call fails exactly when all that has been received is no sequence of handshake records, or its message is none
      that the body parser takes. */
  lemma FailsExactly<H>(s: State, data: Bytes, parseBody: Bytes -> Option<H>, decision: Decision)
    ensures Receive(s, data, parseBody, decision).1 == CannotParse <==>
      !s.parsed && (Fails(s.recvBuffer + data) || exists m :: Gives(s.recvBuffer + data, m) && parseBody(m[4..]).None?)
    ensures Receive(s, data, parseBody, decision).1 == Wait <==> !s.parsed && Waits(s.recvBuffer + data)
  {
    var all := s.recvBuffer + data;
    forall m ensures Extract(all, 0, []) == Complete(m) <==> Gives(all, m) {
      VerdictExactly(all, m);
    }
    VerdictExactly(all, []);
  }

  /** A call that completes a hello does what the hook decides, with all that has been received: it goes to the child that
      relays an ignored connection, or into the TLS engine unless the connection is down by then. After a hello only
      the new bytes go on. */
  lemma HelloGoesOn<H>(s: State, data: Bytes, parseBody: Bytes -> Option<H>, decision: Decision, m: Bytes)
    requires s.parsed || (Gives(s.recvBuffer + data, m) && parseBody(m[4..]).Some?)
    ensures var (s', r) := Receive(s, data, parseBody, decision);
      if s.parsed then s' == s && r == ToTls(None, data)
      else
        var all, hello := s.recvBuffer + data, parseBody(m[4..]).value;
        && s'.parsed
        && (decision.Ignore? ==> r == Ignored(hello, all) && s'.recvBuffer == [])
        && (decision == Intercept(true) ==> r == ToTls(Some(hello), all) && s'.recvBuffer == [])
        && (decision == Intercept(false) ==> r == ClosedEarly(hello))
  {
    if !s.parsed {
      VerdictExactly(s.recvBuffer + data, m);
    }
  }

  // ----- any arrival in chunks -----

  predicate Ends<H>(r: Received<H>) {
    r.CannotParse? || r.Ignored? || r.ClosedEarly?
  }

  /** The calls for a sequence of chunks, up to one that ends the handshake. */
  function Run<H>(s: State, chunks: seq<Bytes>, parseBody: Bytes -> Option<H>, decision: Decision): seq<Received<H>>
    decreases |chunks|
  {
    if chunks == [] then []
    else
      var (s', r) := Receive(s, chunks[0], parseBody, decision);
      if Ends(r) then [r] else [r] + Run(s', chunks[1..], parseBody, decision)
  }

  function Concat(chunks: seq<Bytes>): Bytes {
    if chunks == [] then [] else chunks[0] + Concat(chunks[1..])
  }

  function HelloOf<H>(r: Received<H>): seq<H> {
    match r
    case Ignored(h, _) => [h]
    case ClosedEarly(h) => [h]
    case ToTls(Some(h), _) => [h]
    case _ => []
  }

  function BytesOf<H>(r: Received<H>): Bytes {
    match r
    case Ignored(_, bytes) => bytes
    case ToTls(_, bytes) => bytes
    case _ => []
  }

  /** The hellos seen, over a run. */
  function Hellos<H>(run: seq<Received<H>>): seq<H> {
    if run == [] then [] else HelloOf(run[0]) + Hellos(run[1..])
  }

  /** The bytes passed on, over a run. */
  function Forwarded<H>(run: seq<Received<H>>): Bytes {
    if run == [] then [] else BytesOf(run[0]) + Forwarded(run[1..])
  }

  /** Nothing but waiting, then at most one error, at the end. */
  predicate WaitsThenFails<H>(run: seq<Received<H>>) {
    run != [] && ((|run| == 1 && run[0].CannotParse?) || (run[0].Wait? && WaitsThenFails(run[1..])))
  }

  predicate OnlyWaits<H>(run: seq<Received<H>>) {
    forall i :: 0 <= i < |run| ==> run[i].Wait?
  }

  lemma {:induction false} AfterHello<H>(s: State, chunks: seq<Bytes>, parseBody: Bytes -> Option<H>, decision: Decision)
    requires s.parsed
    ensures var run := Run(s, chunks, parseBody, decision);
      |run| == |chunks| && Hellos(run) == [] && Forwarded(run) == Concat(chunks)
    decreases |chunks|
  {
    if chunks != [] {
      AfterHello(s, chunks[1..], parseBody, decision);
      var r: Received<H> := ToTls(None, chunks[0]);
      FirstCall(r, Run(s, chunks[1..], parseBody, decision));
      assert [] + Hellos(Run(s, chunks[1..], parseBody, decision)) == [];
    }
  }

  lemma FirstCall<H>(r: Received<H>, run: seq<Received<H>>)
    ensures Hellos([r] + run) == HelloOf(r) + Hellos(run)
    ensures Forwarded([r] + run) == BytesOf(r) + Forwarded(run)
    ensures WaitsThenFails([r] + run) <==> (r.CannotParse? && run == []) || (r.Wait? && WaitsThenFails(run))
    ensures OnlyWaits([r] + run) <==> r.Wait? && OnlyWaits(run)
  {
    assert ([r] + run)[1..] == run;
    assert forall i :: 0 <= i < |run| ==> ([r] + run)[i + 1] == run[i];
    assert run == [] ==> [r] + run == [r];
  }

  /** What a run amounts to, given all the bytes of it. */
  ghost predicate Amounts<H>(run: seq<Received<H>>, all: Bytes, parseBody: Bytes -> Option<H>, decision: Decision) {
    match ParseClientHello(all, parseBody)
    case Waiting => OnlyWaits(run)
    case Unparsable => WaitsThenFails(run)
    case Hello(h) =>
      && Hellos(run) == [h]
      && (decision == Intercept(true) ==> Forwarded(run) == all)
      && (decision == Intercept(false) ==> Forwarded(run) == [])
      && (decision == Ignore ==> Forwarded(run) <= all && ParseClientHello(Forwarded(run), parseBody) == Hello(h))
  }

  lemma {:induction false} ArrivalFrom<H>(buffer: Bytes, chunks: seq<Bytes>, parseBody: Bytes -> Option<H>, decision: Decision)
    requires ParseClientHello(buffer, parseBody) == Waiting
    ensures Amounts(Run(State(buffer, false), chunks, parseBody, decision), buffer + Concat(chunks), parseBody, decision)
    decreases |chunks|
  {
    if chunks == [] {
      assert buffer + [] == buffer;
    } else {
      var all, rest := buffer + chunks[0], Concat(chunks[1..]);
      Associative(buffer, chunks[0], rest);
      var (s, r) := Receive(State(buffer, false), chunks[0], parseBody, decision);
      if ParseClientHello(all, parseBody).Waiting? {
        ArrivalFrom(all, chunks[1..], parseBody, decision);
        var run := Run(State(all, false), chunks[1..], parseBody, decision);
        FirstCall(r, run);
        assert [] + Hellos(run) == Hellos(run) && [] + Forwarded(run) == Forwarded(run);
      } else {
        ParseSurvives(all, rest, parseBody);
        assert chunks == [chunks[0]] + chunks[1..];
        VerdictReached(buffer, chunks[0], chunks[1..], parseBody, decision);
      }
    }
  }

  lemma VerdictReached<H>(buffer: Bytes, data: Bytes, chunks: seq<Bytes>, parseBody: Bytes -> Option<H>, decision: Decision)
    requires !ParseClientHello(buffer + data, parseBody).Waiting?
    requires ParseClientHello(buffer + data + Concat(chunks), parseBody) == ParseClientHello(buffer + data, parseBody)
    ensures Amounts(Run(State(buffer, false), [data] + chunks, parseBody, decision), buffer + data + Concat(chunks), parseBody, decision)
  {
    var (s, r) := Receive(State(buffer, false), data, parseBody, decision);
    assert ([data] + chunks)[1..] == chunks;
    assert HelloOf(r) + [] == HelloOf(r) && BytesOf(r) + [] == BytesOf(r);
    if Ends(r) {
      FirstCall(r, []);
      assert [r] + [] == [r];
    } else {
      AfterHello(s, chunks, parseBody, decision);
      FirstCall(r, Run(s, chunks, parseBody, decision));
    }
  }

  /** However the bytes arrive, the run says what parsing all of them at once says: it waits, it
      waits and fails once, or it sees the hello exactly once; and then every byte goes on, in order, exactly once. */
  lemma ArrivalDoesNotMatter<H>(chunks: seq<Bytes>, parseBody: Bytes -> Option<H>, decision: Decision)
    ensures Amounts(Run(State([], false), chunks, parseBody, decision), Concat(chunks), parseBody, decision)
  {
    ArrivalFrom([], chunks, parseBody, decision);
    assert [] + Concat(chunks) == Concat(chunks);
  }

  /** A well-formed hello, split into any records and arriving in any chunks, with anything behind it, is seen once. */
  lemma HelloArrives<H>(hello: Bytes, rs: seq<Record>, rest: Bytes, chunks: seq<Bytes>, parseBody: Bytes -> Option<H>)
    requires GoodRecords(rs) && IsMessage(hello) && Bodies(rs) == hello && parseBody(hello[4..]).Some?
    requires Concat(chunks) == Encoding(rs) + rest
    ensures var run := Run(State([], false), chunks, parseBody, Intercept(true));
      Hellos(run) == [parseBody(hello[4..]).value] && Forwarded(run) == Encoding(rs) + rest
  {
    SplitDoesNotMatter(hello, rs, rest, |Encoding(rs)|);
    ArrivalDoesNotMatter(chunks, parseBody, Intercept(true));
  }
}
