/** Flow files: `tnetstring.load` and the writer and reader of mitmproxy/io/io.py. A flow is
    represented by the state that `get_state` gives and `from_state` takes. */
module FlowFiles {
  import opened ByteStrings
  import opened Options
  import opened Seqs
  import opened Tnetstrings

  /** A binary file with a position. */
  class File {
    var data: Bytes
    var pos: nat

    ghost predicate Valid()
      reads this
    {
      pos <= |data|
    }

    function Rest(): Bytes
      requires Valid()
      reads this
    {
      data[pos..]
    }

    constructor (data: Bytes)
      ensures Valid() && this.data == data && pos == 0
    {
      this.data, pos := data, 0;
    }

    /** Up to n bytes; fewer only at the end of the file. */
    method Read(n: nat) returns (r: Bytes)
      requires Valid()
      modifies `pos
      ensures Valid() && old(Rest()) == r + Rest()
      ensures |r| == if n <= |old(Rest())| then n else |old(Rest())|
    {
      var end := if pos + n <= |data| then pos + n else |data|;
      r, pos := data[pos..end], end;
    }

    method Peek(n: nat) returns (r: Bytes)
      requires Valid()
      ensures r == if n <= |Rest()| then Rest()[..n] else Rest()
    {
      r := if pos + n <= |data| then data[pos..pos + n] else data[pos..];
    }

    /** Writes over what is at the position. */
    method Write(b: Bytes)
      requires Valid()
      modifies this
      ensures Valid() && pos == old(pos) + |b|
      ensures data[..old(pos)] == old(data)[..old(pos)] && data[old(pos)..pos] == b
      ensures data[pos..] == if pos <= |old(data)| then old(data)[pos..] else []
    {
      var end := pos + |b|;
      data := data[..pos] + b + (if end <= |data| then data[end..] else []);
      pos := end;
    }
  }

  // ----- reading one record -----

  datatype Loaded = Record(value: Value, rest: Bytes) | EmptyFile | InvalidData

  const MAX_DIGITS := 12

  /** The number of digits at the front. */
  function DigitCount(data: Bytes): (n: nat)
    ensures n <= |data| && (forall i :: 0 <= i < n ==> IsDigit(data[i])) && (n < |data| ==> !IsDigit(data[n]))
  {
    if data == [] || !IsDigit(data[0]) then 0 else 1 + DigitCount(data[1..])
  }

  /** `load`, as a function of what is left of the file. */
  function Load(data: Bytes): (r: Loaded)
    ensures r.Record? ==> |r.rest| < |data|
  {
    if data == [] then EmptyFile
    else
      var n := DigitCount(data);
      if n > MAX_DIGITS || n == |data| || data[n] != COLON || n == 0 then InvalidData
      else LoadPayload(DigitsValue(data[..n], 0), data[n + 1..])
  }

  function LoadPayload(length: nat, data: Bytes): (r: Loaded)
    ensures r.Record? ==> |r.rest| < |data|
  {
    if length >= |data| then InvalidData
    else
      var v := Parse(data[length], data[..length]);
      if v.Some? then Record(v.value, data[length + 1..]) else InvalidData
  }

  predicate DigitByte(c: Bytes) {
    |c| == 1 && IsDigit(c[0])
  }

  /** The loop over the length prefix: the digits read and the byte after them. */
  method ReadPrefix(file: File) returns (digits: Bytes, c: Bytes, tooLong: bool)
    requires file.Valid()
    modifies file`pos
    ensures file.Valid()
    ensures tooLong <==> DigitCount(old(file.Rest())) > MAX_DIGITS
    ensures !tooLong ==> digits == old(file.Rest())[..DigitCount(old(file.Rest()))]
    ensures !tooLong ==> old(file.Rest()) == digits + c + file.Rest()
    ensures !tooLong ==> |c| == if |digits| < |old(file.Rest())| then 1 else 0
  {
    ghost var all := file.Rest();
    c := file.Read(1);
    digits, tooLong := [], false;
    while DigitByte(c)
      invariant file.Valid()
      invariant all == digits + c + file.Rest()
      invariant AllDigits(digits) && |digits| <= MAX_DIGITS
      invariant |c| <= 1 && (c == [] ==> file.Rest() == [])
      decreases |file.Rest()| + |c|
    {
      digits := digits + c;
      if |digits| > MAX_DIGITS {
        MoreDigits(all, digits, file.Rest());
        return digits, c, true;
      }
      c := file.Read(1);
    }
    ExactDigits(all, digits, c + file.Rest());
  }

  lemma MoreDigits(all: Bytes, digits: Bytes, rest: Bytes)
    requires all == digits + rest && AllDigits(digits)
    ensures DigitCount(all) >= |digits|
  {
    assert forall i :: 0 <= i < |digits| ==> all[i] == digits[i];
  }

  lemma ExactDigits(all: Bytes, digits: Bytes, rest: Bytes)
    requires all == digits + rest && AllDigits(digits) && (rest != [] ==> !IsDigit(rest[0]))
    ensures DigitCount(all) == |digits| && all[..|digits|] == digits
  {
    MoreDigits(all, digits, rest);
    assert forall i :: 0 <= i < DigitCount(all) ==> all[..DigitCount(all)][i] == all[i];
    assert rest != [] ==> all[|digits|] == rest[0];
  }

  /** `load`: reads a record and no byte more. */
  method LoadFrom(file: File) returns (r: Loaded)
    requires file.Valid()
    modifies file`pos
    ensures file.Valid()
    ensures r == Load(old(file.Rest()))
    ensures r.Record? ==> file.Rest() == r.rest
  {
    ghost var all := file.Rest();
    if file.pos == |file.data| {
      return EmptyFile;
    }
    var digits, c, tooLong := ReadPrefix(file);
    if tooLong || c != [COLON] || digits == [] {
      return InvalidData;
    }
    ghost var body := file.Rest();
    LoadAfterPrefix(all, digits, body);
    r := LoadPayloadFrom(file, DigitsValue(digits, 0));
  }

  lemma LoadAfterPrefix(all: Bytes, digits: Bytes, body: Bytes)
    requires all == digits + [COLON] + body && AllDigits(digits) && digits != [] && |digits| <= MAX_DIGITS
    ensures Load(all) == LoadPayload(DigitsValue(digits, 0), body)
  {
    AroundColon(digits, body);
    ExactDigits(all, digits, [COLON] + body);
  }

  lemma AroundColon(digits: Bytes, body: Bytes)
    ensures var all := digits + [COLON] + body;
      all == digits + ([COLON] + body) && all[|digits|] == COLON && all[|digits| + 1..] == body
  {
  }

  method LoadPayloadFrom(file: File, length: nat) returns (r: Loaded)
    requires file.Valid()
    modifies file`pos
    ensures file.Valid()
    ensures r == LoadPayload(length, old(file.Rest()))
    ensures r.Record? ==> file.Rest() == r.rest
  {
    ghost var body := file.Rest();
    var payload := file.Read(length);
    ghost var end := file.Rest();
    var tag := file.Read(1);
    if tag == [] {
      assert end == [] && |payload| == |body|;
      return InvalidData;
    }
    assert |payload| == length && body[..length] == payload && body[length] == tag[0];
    assert body[length + 1..] == file.Rest();
    var v := ParseValue(tag[0], payload);
    return if v.Some? then Record(v.value, file.Rest()) else InvalidData;
  }

  // ----- the writer and the reader -----

  class FlowWriter {
    const fo: File

    constructor (fo: File)
      ensures this.fo == fo
    {
      this.fo := fo;
    }

    method Add(state: Value)
      requires fo.Valid() && fo.pos == |fo.data|
      modifies fo
      ensures fo.Valid() && fo.pos == |fo.data|
      ensures fo.data == old(fo.data) + Form(state)
    {
      var record := Dumps(state);
      ghost var before := fo.data;
      fo.Write(record);
      assert fo.data == fo.data[..|before|] + fo.data[|before|..fo.pos] + fo.data[fo.pos..];
    }
  }

  const BRACE: Byte := 123
  const BOM: Bytes := [239, 187, 191]

  predicate LooksLikeHar(data: Bytes) {
    [BRACE] <= data || BOM + [BRACE] <= data
  }

  /** What a reader yields: the states, then a clean end or a FlowReadException; or the JSON text of a HAR file. */
  datatype Streamed = Har(json: Bytes) | Flows(states: seq<Value>, clean: bool)

  function Records(data: Bytes): (seq<Value>, bool) {
    match Load(data)
    case EmptyFile => ([], true)
    case InvalidData => ([], false)
    case Record(v, rest) => var (more, clean) := Records(rest); ([v] + more, clean)
  }

  function Stream(data: Bytes): Streamed {
    if LooksLikeHar(data) then Har(if [BRACE] <= data then data else data[3..])
    else Flows(Records(data).0, Records(data).1)
  }

  class FlowReader {
    const fo: File

    constructor (fo: File)
      ensures this.fo == fo
    {
      this.fo := fo;
    }

    /** `stream`, run to its end. */
    method ReadAll() returns (r: Streamed)
      requires fo.Valid()
      modifies fo`pos
      ensures fo.Valid() && r == Stream(old(fo.Rest()))
    {
      ghost var all := fo.Rest();
      var start := fo.Peek(4);
      assert BOM + [BRACE] <= start <==> BOM + [BRACE] <= all;
      if BOM + [BRACE] <= start {
        assert all[0] == BOM[0];
        var bom := fo.Read(3);
        assert fo.Rest() == all[3..] && [BRACE] <= all[3..];
      }
      ghost var now := fo.Rest();
      var first := fo.Peek(1);
      assert [BRACE] <= first <==> [BRACE] <= now;
      if [BRACE] <= first {
        var json := fo.Read(|fo.data|);
        return Har(json);
      }
      assert now == all;
      var states, clean := ReadRecords();
      return Flows(states, clean);
    }

    /** The loop over the records, until the file is empty or a record is not valid. */
    method ReadRecords() returns (states: seq<Value>, clean: bool)
      requires fo.Valid()
      modifies fo`pos
      ensures fo.Valid() && (states, clean) == Records(old(fo.Rest()))
    {
      ghost var all := fo.Rest();
      var done := false;
      states, clean := [], false;
      assert [] + Records(all).0 == Records(all).0;
      while !done
        invariant fo.Valid()
        invariant !done ==> Records(all) == (states + Records(fo.Rest()).0, Records(fo.Rest()).1)
        invariant done ==> Records(all) == (states, clean)
        decreases !done, |fo.Rest()|
      {
        ghost var left := fo.Rest();
        var record := LoadFrom(fo);
        assert !record.Record? ==> states + Records(left).0 == states;
        match record {
          case EmptyFile => done, clean := true, true;
          case InvalidData => done, clean := true, false;
          case Record(v, rest) =>
            JoinOne(states, v, Records(rest).0);
            states := states + [v];
        }
      }
    }
  }

  // ----- what was written streams back -----

  /** A record whose payload is shorter than 10^12 bytes. */
  predicate Recordable(v: Value) {
    Storable(v) && |FormData(v)| < Pow10(MAX_DIGITS)
  }

  lemma PayloadLength(v: Value)
    requires Recordable(v)
    ensures |Decimal(|FormData(v)|)| <= MAX_DIGITS
  {
    DecimalLength(|FormData(v)|, MAX_DIGITS);
  }

  /** Where `load` accepts, `pop` gives the same value and the same rest. */
  lemma LoadAgreesWithPop(data: Bytes)
    requires Load(data).Record?
    ensures Pop(data) == Some((Load(data).value, Load(data).rest))
  {
    var n := DigitCount(data);
    var digits, body := data[..n], data[n + 1..];
    assert data == digits + [COLON] + body;
    FirstColon(digits, body);
    ParseAllDigits(digits, false, 0);
    assert ParseInt(digits) == Some(DigitsValue(digits, 0)) by {
      assert IsDigit(digits[0]) && IsDigit(digits[n - 1]);
    }
  }

  /** A form in two parts: the length, and what it measures. */
  lemma FormParts(v: Value)
    ensures var span, payload := Decimal(|FormData(v)|), FormData(v) + [FormTag(v)];
      Form(v) == span + [COLON] + payload && DigitsValue(span, 0) == |FormData(v)|
  {
    var span := Decimal(|FormData(v)|);
    Associative(span + [COLON], FormData(v), [FormTag(v)]);
    DecimalValue(|FormData(v)|);
  }

  lemma PayloadRead(data: Bytes, tag: Byte, rest: Bytes)
    requires Parse(tag, data).Some?
    ensures LoadPayload(|data|, data + [tag] + rest) == Record(Parse(tag, data).value, rest)
  {
    var body := data + [tag] + rest;
    assert body[..|data|] == data && body[|data|] == tag && body[|data| + 1..] == rest;
  }

  lemma LoadForm(v: Value, rest: Bytes)
    requires Recordable(v)
    ensures Load(Form(v) + rest) == Record(Reordered(v), rest)
  {
    var span, payload := Decimal(|FormData(v)|), FormData(v) + [FormTag(v)];
    FormParts(v);
    PayloadLength(v);
    Associative(span + [COLON], payload, rest);
    LoadAfterPrefix(Form(v) + rest, span, payload + rest);
    ParseForm(v);
    PayloadRead(FormData(v), FormTag(v), rest);
  }

  /** A record cut anywhere after its first byte is an error, never a wrong record. */
  lemma LoadCutForm(v: Value, n: nat)
    requires Recordable(v) && 0 < n < |Form(v)|
    ensures Load(Form(v)[..n]) == InvalidData
  {
    var span, payload := Decimal(|FormData(v)|), FormData(v) + [FormTag(v)];
    FormParts(v);
    PayloadLength(v);
    if n <= |span| {
      assert Form(v)[..n] == span[..n] + [];
      ExactDigits(Form(v)[..n], span[..n], []);
    } else {
      CutAfterColon(span, payload, n);
      LoadAfterPrefix(Form(v)[..n], span, payload[..n - |span| - 1]);
    }
  }

  lemma CutAfterColon(span: Bytes, payload: Bytes, n: nat)
    requires |span| < n <= |span| + 1 + |payload|
    ensures (span + [COLON] + payload)[..n] == span + [COLON] + payload[..n - |span| - 1]
  {
  }

  /** How many of the records lie within the first n bytes. */
  function Whole(states: seq<Value>, n: nat): (k: nat)
    ensures k <= |states|
  {
    if states == [] || n < |Form(states[0])| then 0 else 1 + Whole(states[1..], n - |Form(states[0])|)
  }

  /** The records counted fit, and one more does not. */
  lemma {:induction false} WholeFits(states: seq<Value>, n: nat)
    requires n <= |Forms(states)|
    ensures var k := Whole(states, n);
      |Forms(states[..k])| <= n && (k < |states| ==> n < |Forms(states[..k + 1])|)
    decreases |states|
  {
    if states != [] && n >= |Form(states[0])| {
      var more := Whole(states[1..], n - |Form(states[0])|);
      WholeFits(states[1..], n - |Form(states[0])|);
      FirstLength(states, more);
      if more + 1 < |states| {
        FirstLength(states, more + 1);
      }
    } else if states != [] {
      FirstLength(states, 0);
    }
  }

  lemma FormStartsWithDigit(v: Value)
    ensures Form(v) != [] && IsDigit(Form(v)[0])
  {
    assert Form(v)[0] == Decimal(|FormData(v)|)[0];
  }

  lemma NotHar(states: seq<Value>, n: nat)
    requires n <= |Forms(states)|
    ensures !LooksLikeHar(Forms(states)[..n])
  {
    if states != [] && n > 0 {
      FormStartsWithDigit(states[0]);
      assert Forms(states)[..n][0] == Form(states[0])[0];
    }
  }

  /** The first n bytes of the written file stream back as the first k states, cleanly if they end there. */
  predicate CutsTo(states: seq<Value>, n: nat, k: nat)
    requires n <= |Forms(states)| && k <= |states|
  {
    Records(Forms(states)[..n]) == (ReorderedItems(states[..k]), |Forms(states[..k])| == n)
  }

  lemma {:induction false} CutRecords(states: seq<Value>, n: nat)
    requires forall i :: 0 <= i < |states| ==> Recordable(states[i])
    requires n <= |Forms(states)|
    ensures CutsTo(states, n, Whole(states, n))
    decreases |states|
  {
    if states == [] || n < |Form(states[0])| {
      CutFirst(states, n);
    } else {
      var m := n - |Form(states[0])|;
      CutRecords(states[1..], m);
      CutLater(states, n, m, Whole(states[1..], m));
    }
  }

  lemma CutFirst(states: seq<Value>, n: nat)
    requires states != [] ==> Recordable(states[0]) && n < |Form(states[0])|
    requires n <= |Forms(states)|
    ensures CutsTo(states, n, 0)
  {
    assert states[..0] == [];
    if n == 0 {
      assert Forms(states)[..n] == [];
    } else {
      assert Forms(states)[..n] == Form(states[0])[..n];
      LoadCutForm(states[0], n);
    }
  }

  lemma CutLater(states: seq<Value>, n: nat, m: nat, k: nat)
    requires states != [] && Recordable(states[0]) && n <= |Forms(states)| && m <= |Forms(states[1..])| && k < |states|
    requires n == |Form(states[0])| + m && CutsTo(states[1..], m, k)
    ensures CutsTo(states, n, k + 1)
  {
    RecordsLater(states, n);
    FirstLength(states, k);
    FirstReordered(states, k);
    OneMore(states, n, k + 1, Reordered(states[0]), Records(Forms(states[1..])[..m]),
            ReorderedItems(states[1..][..k]), |Form(states[0])|, |Forms(states[1..][..k])|);
  }

  lemma OneMore(states: seq<Value>, n: nat, k: nat, v: Value, later: (seq<Value>, bool), laterItems: seq<Value>, first: nat, laterLength: nat)
    requires n <= |Forms(states)| && k <= |states|
    requires Records(Forms(states)[..n]) == ([v] + later.0, later.1) && later == (laterItems, laterLength == n - first)
    requires ReorderedItems(states[..k]) == [v] + laterItems && |Forms(states[..k])| == first + laterLength
    ensures CutsTo(states, n, k)
  {
  }

  lemma RecordsLater(states: seq<Value>, n: nat)
    requires states != [] && Recordable(states[0]) && |Form(states[0])| <= n <= |Forms(states)|
    ensures var more := Records(Forms(states[1..])[..n - |Form(states[0])|]);
      Records(Forms(states)[..n]) == ([Reordered(states[0])] + more.0, more.1)
  {
    FirstRecord(states, n);
    RecordsFirst(Forms(states)[..n], Reordered(states[0]), Forms(states[1..])[..n - |Form(states[0])|]);
  }

  lemma RecordsFirst(data: Bytes, v: Value, rest: Bytes)
    requires Load(data) == Record(v, rest)
    ensures Records(data) == ([v] + Records(rest).0, Records(rest).1)
  {
  }

  lemma FirstRecord(states: seq<Value>, n: nat)
    requires states != [] && Recordable(states[0]) && |Form(states[0])| <= n <= |Forms(states)|
    ensures var m := n - |Form(states[0])|;
      Load(Forms(states)[..n]) == Record(Reordered(states[0]), Forms(states[1..])[..m])
  {
    var m := n - |Form(states[0])|;
    assert Forms(states)[..n] == Form(states[0]) + Forms(states[1..])[..m];
    LoadForm(states[0], Forms(states[1..])[..m]);
  }

  lemma FirstLength(states: seq<Value>, k: nat)
    requires k < |states|
    ensures |Forms(states[..k + 1])| == |Form(states[0])| + |Forms(states[1..][..k])|
  {
    assert states[..k + 1] == [states[0]] + states[1..][..k];
    FormsAppend(states[1..][..k], states[0]);
  }

  lemma FirstReordered(states: seq<Value>, k: nat)
    requires k < |states|
    ensures ReorderedItems(states[..k + 1]) == [Reordered(states[0])] + ReorderedItems(states[1..][..k])
  {
    assert states[..k + 1][1..] == states[1..][..k];
  }

  /** A written file cut at any byte is never taken for HAR and gives back exactly the whole
      records, then a clean end if the cut lies between two records and an error if not. */
  lemma CutFileStreams(states: seq<Value>, n: nat)
    requires forall i :: 0 <= i < |states| ==> Recordable(states[i])
    requires n <= |Forms(states)|
    ensures var k := Whole(states, n);
      && Stream(Forms(states)[..n]) == Flows(ReorderedItems(states[..k]), |Forms(states[..k])| == n)
      && |Forms(states[..k])| <= n && (k < |states| ==> n < |Forms(states[..k + 1])|)
  {
    NotHar(states, n);
    CutRecords(states, n);
    WholeFits(states, n);
  }

  /** The uncut file gives back every state, in order, and a clean end. */
  lemma WrittenFileStreams(states: seq<Value>)
    requires forall i :: 0 <= i < |states| ==> Recordable(states[i])
    ensures Stream(Forms(states)) == Flows(ReorderedItems(states), true)
    ensures ItemMeanings(ReorderedItems(states)) == ItemMeanings(states)
  {
    AllWhole(states);
    CutNowhere(Forms(states));
    CutNowhere(states);
    CutFileStreams(states, |Forms(states)|);
    ReorderedItemsMeanTheSame(states);
  }

  lemma CutNowhere<T>(s: seq<T>)
    ensures s[..|s|] == s
  {
  }

  lemma {:induction false} AllWhole(states: seq<Value>)
    ensures Whole(states, |Forms(states)|) == |states|
    decreases |states|
  {
    if states != [] {
      AllWhole(states[1..]);
    }
  }

  /** A file filled by a FlowWriter and read by a FlowReader. */
  method WriteThenRead(states: seq<Value>) returns (r: Streamed)
    requires forall i :: 0 <= i < |states| ==> Recordable(states[i])
    ensures r == Flows(ReorderedItems(states), true)
  {
    var file := new File([]);
    var writer := new FlowWriter(file);
    for i := 0 to |states|
      invariant file.Valid() && file.pos == |file.data|
      invariant file.data == Forms(states[..i])
    {
      FormsUpTo(states, i);
      writer.Add(states[i]);
    }
    CutNowhere(states);
    file.pos := 0;
    assert file.Rest() == Forms(states);
    var reader := new FlowReader(file);
    r := reader.ReadAll();
    WrittenFileStreams(states);
  }

  lemma FormsUpTo(states: seq<Value>, i: nat)
    requires i < |states|
    ensures Forms(states[..i + 1]) == Forms(states[..i]) + Form(states[i])
  {
    assert states[..i + 1] == states[..i] + [states[i]];
    FormsSnoc(states[..i], states[i]);
  }

  lemma {:induction false} FormsSnoc(states: seq<Value>, v: Value)
    ensures Forms(states + [v]) == Forms(states) + Form(v)
    decreases |states|
  {
    if states == [] {
      assert states + [v] == [v] && [v][1..] == [];
    } else {
      assert (states + [v])[1..] == states[1..] + [v];
      FormsSnoc(states[1..], v);
      Associative(Form(states[0]), Forms(states[1..]), Form(v));
    }
  }

  // ----- what is read from any file -----

  /** One to twelve digits, a colon, as many bytes as they say, the tag, and a rest. */
  predicate IsRecord(data: Bytes, digits: Bytes, body: Bytes, tag: Byte, v: Value, rest: Bytes) {
    && 1 <= |digits| <= 12 && AllDigits(digits) && DigitsValue(digits, 0) == |body|
    && Parse(tag, body) == Some(v) && data == digits + [58] + (body + [tag] + rest)
  }

  lemma RecordLoads(data: Bytes, digits: Bytes, body: Bytes, tag: Byte, v: Value, rest: Bytes)
    requires IsRecord(data, digits, body, tag, v, rest)
    ensures Load(data) == Record(v, rest)
  {
    LoadAfterPrefix(data, digits, body + [tag] + rest);
    PayloadRead(body, tag, rest);
  }

  lemma LoadedIsRecord(data: Bytes) returns (digits: Bytes, body: Bytes, tag: Byte)
    requires Load(data).Record?
    ensures IsRecord(data, digits, body, tag, Load(data).value, Load(data).rest)
  {
    var n := DigitCount(data);
    digits := data[..n];
    var payload := data[n + 1..];
    var length := DigitsValue(digits, 0);
    body, tag := payload[..length], payload[length];
    assert payload == body + [tag] + payload[length + 1..];
    assert data == digits + [58] + payload;
  }

  /** Which bytes are a record, and of what: everything else but the empty file is invalid data. */
  lemma LoadExactly(data: Bytes, v: Value, rest: Bytes)
    ensures Load(data) == Record(v, rest) <==> exists digits, body, tag :: IsRecord(data, digits, body, tag, v, rest)
    ensures Load(data) == EmptyFile <==> data == []
  {
    if Load(data) == Record(v, rest) {
      var digits, body, tag := LoadedIsRecord(data);
    }
    if digits, body, tag :| IsRecord(data, digits, body, tag, v, rest) {
      RecordLoads(data, digits, body, tag, v, rest);
    }
  }

  /** One byte string for each value, each of them that value's record and nothing more, and then what stands behind them. */
  predicate Splits(data: Bytes, pieces: seq<Bytes>, states: seq<Value>, rest: Bytes) {
    && |pieces| == |states| && data == Join(pieces) + rest
    && forall i :: 0 <= i < |pieces| ==> Load(pieces[i]) == Record(states[i], [])
  }

  lemma LoadMore(data: Bytes, more: Bytes)
    requires Load(data).Record?
    ensures Load(data + more) == Record(Load(data).value, Load(data).rest + more)
  {
    var r := Load(data);
    var digits, body, tag := LoadedIsRecord(data);
    assert data + more == digits + [58] + (body + [tag] + (r.rest + more));
    RecordLoads(data + more, digits, body, tag, r.value, r.rest + more);
  }

  lemma LoadAlone(data: Bytes) returns (piece: Bytes)
    requires Load(data).Record?
    ensures data == piece + Load(data).rest && Load(piece) == Record(Load(data).value, [])
  {
    var digits, body, tag := LoadedIsRecord(data);
    piece := digits + [58] + (body + [tag] + []);
    assert data == piece + Load(data).rest;
    RecordLoads(piece, digits, body, tag, Load(data).value, []);
  }

  lemma {:induction false} RecordsSplit(data: Bytes) returns (pieces: seq<Bytes>, rest: Bytes)
    ensures Splits(data, pieces, Records(data).0, rest)
    ensures Load(rest) == if Records(data).1 then EmptyFile else InvalidData
    decreases |data|
  {
    if Load(data).Record? {
      var piece := LoadAlone(data);
      var later;
      later, rest := RecordsSplit(Load(data).rest);
      pieces := [piece] + later;
      Associative(piece, Join(later), rest);
    } else {
      pieces, rest := [], data;
      assert [] + data == data;
    }
  }

  lemma {:induction false} SplitRecords(data: Bytes, pieces: seq<Bytes>, states: seq<Value>, rest: Bytes)
    requires Splits(data, pieces, states, rest) && !Load(rest).Record?
    ensures Records(data) == (states, Load(rest) == EmptyFile)
    decreases |pieces|
  {
    if pieces == [] {
      assert data == rest;
      LastRecords(rest);
    } else {
      var later := Join(pieces[1..]) + rest;
      FirstPiece(data, pieces, states, rest, later);
      SplitRecords(later, pieces[1..], states[1..], rest);
      RecordsFirst(data, states[0], later);
      assert [states[0]] + states[1..] == states;
    }
  }

  lemma LastRecords(rest: Bytes)
    requires !Load(rest).Record?
    ensures Records(rest) == ([], Load(rest) == EmptyFile)
  {
  }

  lemma FirstPiece(data: Bytes, pieces: seq<Bytes>, states: seq<Value>, rest: Bytes, later: Bytes)
    requires Splits(data, pieces, states, rest) && pieces != [] && later == Join(pieces[1..]) + rest
    ensures Load(data) == Record(states[0], later) && Splits(later, pieces[1..], states[1..], rest)
  {
    Associative(pieces[0], Join(pieces[1..]), rest);
    LoadMore(pieces[0], later);
    assert [] + later == later;
  }

  lemma HarExactly(data: Bytes)
    ensures LooksLikeHar(data) <==> (|data| > 0 && data[0] == 123) || (|data| > 3 && data[..4] == [239, 187, 191, 123])
  {
    if |data| > 3 {
      assert data[..4] == [data[0], data[1], data[2], data[3]];
    }
  }

  lemma RecordsExactly(data: Bytes, states: seq<Value>, clean: bool)
    ensures Records(data) == (states, clean) <==>
      exists pieces, rest :: Splits(data, pieces, states, rest) && !Load(rest).Record? && clean == (rest == [])
  {
    if Records(data) == (states, clean) {
      var pieces, rest := RecordsSplit(data);
    }
    if pieces, rest :| Splits(data, pieces, states, rest) && !Load(rest).Record? && clean == (rest == []) {
      SplitRecords(data, pieces, states, rest);
    }
  }

  /** The states that any file gives, cleanly or not: its records one behind the other, up to the end or to the first
      place where no record stands. A file that begins with a brace, also behind a byte order mark, is JSON instead. */
  lemma StreamExactly(data: Bytes, states: seq<Value>, clean: bool)
    ensures Stream(data).Har? <==> (|data| > 0 && data[0] == 123) || (|data| > 3 && data[..4] == [239, 187, 191, 123])
    ensures Stream(data).Har? ==> Stream(data).json == if data[0] == 123 then data else data[3..]
    ensures Stream(data).Flows? ==>
      (Stream(data) == Flows(states, clean) <==>
        exists pieces, rest :: Splits(data, pieces, states, rest) && !Load(rest).Record? && clean == (rest == []))
  {
    HarExactly(data);
    RecordsExactly(data, states, clean);
  }
}
