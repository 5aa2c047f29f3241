/** Typed netstrings (mitmproxy/io/tnetstring.py): the printer that fills a deque back to
    front, the parser, and the inverse law between them. */
module Tnetstrings {
  import opened ByteStrings
  import opened Options
  import opened Seqs

  /** A `str` is held as its UTF-8 bytes, a float as its text, a dict as its entries in insertion order. */
  datatype Value =
    | Null
    | Bool(b: bool)
    | Int(n: int)
    | Float(text: Bytes)
    | Raw(data: Bytes)
    | Text(utf8: Bytes)
    | List(items: seq<Value>)
    | Dict(entries: seq<Entry>)

  datatype Entry = Entry(key: Value, value: Value)

  const TRUE: Bytes := [116, 114, 117, 101]
  const FALSE: Bytes := [102, 97, 108, 115, 101]
  const RAW_TAG: Byte := 44    // ,
  const TEXT_TAG: Byte := 59   // ;
  const INT_TAG: Byte := 35    // #
  const FLOAT_TAG: Byte := 94  // ^
  const BOOL_TAG: Byte := 33   // !
  const NULL_TAG: Byte := 126  // ~
  const LIST_TAG: Byte := 93   // ]
  const DICT_TAG: Byte := 125  // }

  // ----- printing -----

  function Integer(n: int): Bytes {
    if n < 0 then [45] + Decimal(-n) else Decimal(n)
  }

  function Netstring(data: Bytes, tag: Byte): Bytes {
    Decimal(|data|) + [COLON] + data + [tag]
  }

  /** The recursive netstring form of a value. */
  function Form(v: Value): Bytes
    decreases v
  {
    match v
    case Null => Netstring([], NULL_TAG)
    case Bool(b) => Netstring(if b then TRUE else FALSE, BOOL_TAG)
    case Int(n) => Netstring(Integer(n), INT_TAG)
    case Float(text) => Netstring(text, FLOAT_TAG)
    case Raw(data) => Netstring(data, RAW_TAG)
    case Text(utf8) => Netstring(utf8, TEXT_TAG)
    case List(items) => Netstring(Forms(items), LIST_TAG)
    case Dict(entries) => Netstring(EntryForms(entries), DICT_TAG)
  }

  function Forms(items: seq<Value>): Bytes
    decreases items
  {
    if items == [] then [] else Form(items[0]) + Forms(items[1..])
  }

  function EntryForm(e: Entry): Bytes
    decreases e
  {
    Form(e.key) + Form(e.value)
  }

  /** The entries of a dict come out last entry first. */
  function EntryForms(entries: seq<Entry>): Bytes
    decreases entries
  {
    if entries == [] then []
    else EntryForm(entries[|entries| - 1]) + EntryForms(entries[..|entries| - 1])
  }

  function Join(chunks: seq<Bytes>): Bytes {
    if chunks == [] then [] else chunks[0] + Join(chunks[1..])
  }

  class Deque {
    var chunks: seq<Bytes>

    constructor ()
      ensures chunks == []
    {
      chunks := [];
    }

    method AppendLeft(chunk: Bytes)
      modifies this
      ensures Join(chunks) == chunk + Join(old(chunks))
    {
      chunks := [chunk] + chunks;
      assert chunks[1..] == old(chunks);
    }
  }

  method WriteNetstring(q: Deque, size: nat, data: Bytes, tag: Byte) returns (size': nat)
    modifies q
    ensures Join(q.chunks) == Netstring(data, tag) + Join(old(q.chunks))
    ensures size' == size + |Netstring(data, tag)|
  {
    ghost var tail := Join(q.chunks);
    var span := Decimal(|data|);
    q.AppendLeft([tag]);
    q.AppendLeft(data);
    q.AppendLeft([COLON]);
    q.AppendLeft(span);
    assert span + ([COLON] + (data + ([tag] + tail))) == span + [COLON] + data + [tag] + tail;
    size' := size + 2 + |span| + |data|;
  }

  lemma {:induction false} FormsAppend(items: seq<Value>, v: Value)
    ensures Forms([v] + items) == Form(v) + Forms(items)
  {
    assert ([v] + items)[1..] == items;
  }

  lemma {:induction false} EntryFormsSnoc(entries: seq<Entry>, e: Entry)
    ensures EntryForms(entries + [e]) == EntryForm(e) + EntryForms(entries)
  {
    assert (entries + [e])[..|entries|] == entries;
  }

  /** `_rdumpq`: pushes the last chunk first and returns the new size. */
  method RDumpQ(q: Deque, size: nat, value: Value) returns (size': nat)
    modifies q
    ensures Join(q.chunks) == Form(value) + Join(old(q.chunks))
    ensures size' == size + |Form(value)|
    decreases value
  {
    match value
    case Null => size' := WriteNetstring(q, size, [], NULL_TAG);
    case Bool(b) => size' := WriteNetstring(q, size, if b then TRUE else FALSE, BOOL_TAG);
    case Int(n) => size' := WriteNetstring(q, size, Integer(n), INT_TAG);
    case Float(text) => size' := WriteNetstring(q, size, text, FLOAT_TAG);
    case Raw(data) => size' := WriteNetstring(q, size, data, RAW_TAG);
    case Text(utf8) => size' := WriteNetstring(q, size, utf8, TEXT_TAG);
    case List(items) => size' := DumpItems(q, size, items);
    case Dict(entries) => size' := DumpEntries(q, size, entries);
  }

  method DumpItems(q: Deque, size: nat, items: seq<Value>) returns (size': nat)
    modifies q
    ensures Join(q.chunks) == Netstring(Forms(items), LIST_TAG) + Join(old(q.chunks))
    ensures size' == size + |Netstring(Forms(items), LIST_TAG)|
    decreases items
  {
    ghost var tail := Join(q.chunks);
    ghost var end := [LIST_TAG] + tail;
    q.AppendLeft([LIST_TAG]);
    size' := size + 1;
    var initSize, i := size', |items|;
    while i > 0
      invariant 0 <= i <= |items|
      invariant Join(q.chunks) == Forms(items[i..]) + end
      invariant size' == initSize + |Forms(items[i..])|
    {
      i := i - 1;
      assert items[i..] == [items[i]] + items[i + 1..];
      FormsAppend(items[i + 1..], items[i]);
      size' := RDumpQ(q, size', items[i]);
      Associative(Form(items[i]), Forms(items[i + 1..]), end);
    }
    assert items[0..] == items;
    size' := WriteSpan(q, size', initSize, Forms(items), LIST_TAG, tail);
  }

  method DumpEntries(q: Deque, size: nat, entries: seq<Entry>) returns (size': nat)
    modifies q
    ensures Join(q.chunks) == Netstring(EntryForms(entries), DICT_TAG) + Join(old(q.chunks))
    ensures size' == size + |Netstring(EntryForms(entries), DICT_TAG)|
    decreases entries
  {
    ghost var tail := Join(q.chunks);
    ghost var end := [DICT_TAG] + tail;
    q.AppendLeft([DICT_TAG]);
    size' := size + 1;
    var initSize := size';
    for i := 0 to |entries|
      invariant Join(q.chunks) == EntryForms(entries[..i]) + end
      invariant size' == initSize + |EntryForms(entries[..i])|
    {
      ghost var done := EntryForms(entries[..i]);
      assert entries[..i + 1] == entries[..i] + [entries[i]];
      EntryFormsSnoc(entries[..i], entries[i]);
      size' := DumpEntry(q, size', entries[i]);
      Associative(EntryForm(entries[i]), done, end);
    }
    assert entries[..|entries|] == entries;
    size' := WriteSpan(q, size', initSize, EntryForms(entries), DICT_TAG, tail);
  }

  method DumpEntry(q: Deque, size: nat, e: Entry) returns (size': nat)
    modifies q
    ensures Join(q.chunks) == EntryForm(e) + Join(old(q.chunks))
    ensures size' == size + |EntryForm(e)|
    decreases e
  {
    size' := RDumpQ(q, size, e.value);
    size' := RDumpQ(q, size', e.key);
    Associative(Form(e.key), Form(e.value), Join(old(q.chunks)));
  }

  /** The length prefix of a list or dict, computed from the two sizes. */
  method WriteSpan(q: Deque, size: nat, initSize: nat, ghost data: Bytes, ghost tag: Byte, ghost tail: Bytes) returns (size': nat)
    requires size == initSize + |data| && Join(q.chunks) == data + ([tag] + tail)
    modifies q
    ensures Join(q.chunks) == Netstring(data, tag) + tail
    ensures size' + 1 == initSize + |Netstring(data, tag)|
  {
    var span := Decimal(size - initSize);
    q.AppendLeft([COLON]);
    q.AppendLeft(span);
    assert span + ([COLON] + (data + ([tag] + tail))) == span + [COLON] + data + [tag] + tail;
    size' := size + 1 + |span|;
  }

  /** `dumps` */
  method Dumps(value: Value) returns (data: Bytes)
    ensures data == Form(value)
  {
    var q := new Deque();
    var size := RDumpQ(q, 0, value);
    data := JoinChunks(q.chunks);
    assert Form(value) + Join([]) == Form(value);
  }

  method JoinChunks(chunks: seq<Bytes>) returns (data: Bytes)
    ensures data == Join(chunks)
  {
    data := [];
    var i := |chunks|;
    while i > 0
      invariant 0 <= i <= |chunks| && data == Join(chunks[i..])
    {
      i := i - 1;
      assert chunks[i..][1..] == chunks[i + 1..];
      data := chunks[i] + data;
    }
    assert chunks[0..] == chunks;
  }

  // ----- parsing -----

  function IndexOf(data: Bytes, b: Byte): (i: nat)
    ensures i <= |data| && (i < |data| ==> data[i] == b) && forall j :: 0 <= j < i ==> data[j] != b
  {
    if data == [] || data[0] == b then 0 else 1 + IndexOf(data[1..], b)
  }

  /** `split`: the number before the first colon and what follows it. */
  function Split(data: Bytes): (r: Option<(int, Bytes)>)
    ensures r.Some? ==> |r.value.1| < |data|
  {
    var i := IndexOf(data, COLON);
    if i == |data| || ParseInt(data[..i]).None? then None else Some((ParseInt(data[..i]).value, data[i + 1..]))
  }

  /** `data[:n], data[n], data[n + 1:]`, or None for an IndexError. */
  function Cut(data: Bytes, n: int): Option<(Bytes, Byte, Bytes)> {
    if n >= |data| || |data| + n < 0 then None
    else Some((data[..Bound(n, |data|)], data[if n >= 0 then n else |data| + n], data[Bound(n + 1, |data|)..]))
  }

  predicate IsContinuation(b: Byte) {
    128 <= b < 192
  }

  /** Well-formed UTF-8, by the table in section 4 of RFC 3629. */
  predicate ValidUtf8(s: Bytes) {
    if s == [] then true
    else if s[0] < 128 then ValidUtf8(s[1..])
    else if 194 <= s[0] < 224 then |s| >= 2 && IsContinuation(s[1]) && ValidUtf8(s[2..])
    else if 224 <= s[0] < 240 then
      && |s| >= 3 && IsContinuation(s[1]) && IsContinuation(s[2])
      && (s[0] == 224 ==> s[1] >= 160) && (s[0] == 237 ==> s[1] < 160) && ValidUtf8(s[3..])
    else if 240 <= s[0] < 245 then
      && |s| >= 4 && IsContinuation(s[1]) && IsContinuation(s[2]) && IsContinuation(s[3])
      && (s[0] == 240 ==> s[1] >= 144) && (s[0] == 244 ==> s[1] < 144) && ValidUtf8(s[4..])
    else false
  }

  /** The texts that `repr` gives to floats: a sign, then `inf`, `nan`, or digits with a fraction or an exponent. */
  predicate IsFloatText(s: Bytes) {
    var t := if s != [] && s[0] == 45 then s[1..] else s;
    t == [105, 110, 102] || t == [110, 97, 110] ||
    (var e := IndexOf(t, 101);
     IsDecimalFraction(t[..e]) && (e < |t| ==> IsExponent(t[e + 1..])))
  }

  predicate IsDecimalFraction(s: Bytes) {
    var p := IndexOf(s, 46);
    p > 0 && AllDigits(s[..p]) && (p < |s| ==> p + 1 < |s| && AllDigits(s[p + 1..]))
  }

  predicate IsExponent(s: Bytes) {
    |s| >= 2 && (s[0] == 43 || s[0] == 45) && AllDigits(s[1..])
  }

  /** Python's `==` on hashable keys: booleans are numbers. */
  predicate SameKey(a: Value, b: Value) {
    a == b || (NumberOf(a).Some? && NumberOf(a) == NumberOf(b))
  }

  function NumberOf(v: Value): Option<int> {
    match v
    case Bool(b) => Some(if b then 1 else 0)
    case Int(n) => Some(n)
    case _ => None
  }

  predicate Hashable(v: Value) {
    !v.List? && !v.Dict?
  }

  /** `d[key] = value`, keeping the place and the spelling of a key already there. */
  function Insert(entries: seq<Entry>, key: Value, value: Value): seq<Entry> {
    if entries == [] then [Entry(key, value)]
    else if SameKey(entries[0].key, key) then [Entry(entries[0].key, value)] + entries[1..]
    else [entries[0]] + Insert(entries[1..], key, value)
  }

  /** `parse`; every exception is None. */
  function Parse(tag: Byte, data: Bytes): Option<Value>
    decreases |data|, 2
  {
    if tag == RAW_TAG then Some(Raw(data))
    else if tag == TEXT_TAG then (if ValidUtf8(data) then Some(Text(data)) else None)
    else if tag == INT_TAG then (var n := ParseInt(data); if n.Some? then Some(Int(n.value)) else None)
    else if tag == FLOAT_TAG then (if IsFloatText(data) then Some(Float(data)) else None)
    else if tag == BOOL_TAG then (if data == TRUE then Some(Bool(true)) else if data == FALSE then Some(Bool(false)) else None)
    else if tag == NULL_TAG then (if data == [] then Some(Null) else None)
    else if tag == LIST_TAG then (var items := PopAll(data); if items.Some? then Some(List(items.value)) else None)
    else if tag == DICT_TAG then (var entries := PopEntries(data, []); if entries.Some? then Some(Dict(entries.value)) else None)
    else None
  }

  /** `pop`: the first value and what follows it. */
  function Pop(data: Bytes): (r: Option<(Value, Bytes)>)
    ensures r.Some? ==> |r.value.1| < |data|
    decreases |data|, 0
  {
    var split := Split(data);
    if split.None? then None
    else
      var cut := Cut(split.value.1, split.value.0);
      if cut.None? then None
      else
        var v := Parse(cut.value.1, cut.value.0);
        if v.Some? then Some((v.value, cut.value.2)) else None
  }

  function PopAll(data: Bytes): Option<seq<Value>>
    decreases |data|, 1
  {
    if data == [] then Some([])
    else
      var first := Pop(data);
      if first.None? then None
      else
        var rest := PopAll(first.value.1);
        if rest.None? then None else Some([first.value.0] + rest.value)
  }

  function PopEntries(data: Bytes, entries: seq<Entry>): Option<seq<Entry>>
    decreases |data|, 1
  {
    if data == [] then Some(entries)
    else
      var key := Pop(data);
      if key.None? then None
      else
        var value := Pop(key.value.1);
        if value.None? || !Hashable(key.value.0) then None
        else PopEntries(value.value.1, Insert(entries, key.value.0, value.value.0))
  }

  // ----- the parser's loops -----

  method SplitAtColon(data: Bytes) returns (r: Option<(int, Bytes)>)
    ensures r == Split(data)
  {
    var i := 0;
    while i < |data| && data[i] != COLON
      invariant 0 <= i <= |data|
      invariant IndexOf(data, COLON) == i + IndexOf(data[i..], COLON)
    {
      assert data[i..][1..] == data[i + 1..];
      i := i + 1;
    }
    if i == |data| || ParseInt(data[..i]).None? {
      return None;
    }
    return Some((ParseInt(data[..i]).value, data[i + 1..]));
  }

  method ParseValue(tag: Byte, data: Bytes) returns (v: Option<Value>)
    ensures v == Parse(tag, data)
    decreases |data|, 2
  {
    if tag == LIST_TAG {
      v := ParseList(data);
    } else if tag == DICT_TAG {
      v := ParseDict(data);
    } else {
      v := Parse(tag, data);
    }
  }

  function Prefixed(items: seq<Value>, rest: Option<seq<Value>>): Option<seq<Value>> {
    if rest.None? then None else Some(items + rest.value)
  }

  lemma PrefixedNone(rest: Option<seq<Value>>)
    ensures Prefixed([], rest) == rest
  {
    if rest.Some? {
      assert [] + rest.value == rest.value;
    }
  }

  lemma PrefixedSnoc(items: seq<Value>, v: Value, rest: Option<seq<Value>>)
    ensures Prefixed(items, Prefixed([v], rest)) == Prefixed(items + [v], rest)
  {
    if rest.Some? {
      assert items + ([v] + rest.value) == items + [v] + rest.value;
    }
  }

  method ParseList(data: Bytes) returns (v: Option<Value>)
    ensures v == Parse(LIST_TAG, data)
    decreases |data|, 1
  {
    var items: seq<Value>, rest := [], data;
    PrefixedNone(PopAll(data));
    while rest != []
      invariant |rest| <= |data|
      invariant PopAll(data) == Prefixed(items, PopAll(rest))
      decreases |rest|
    {
      ghost var before := rest;
      var first := PopValue(rest);
      if first.None? {
        return None;
      }
      rest := first.value.1;
      assert PopAll(before) == Prefixed([first.value.0], PopAll(rest));
      PrefixedSnoc(items, first.value.0, PopAll(rest));
      items := items + [first.value.0];
    }
    assert items + [] == items;
    return Some(List(items));
  }

  /** One turn of the dict loop. */
  lemma PopEntriesStep(data: Bytes, entries: seq<Entry>, k: Value, afterKey: Bytes, v: Value, rest: Bytes)
    requires data != [] && Pop(data) == Some((k, afterKey)) && Pop(afterKey) == Some((v, rest))
    requires Hashable(k)
    ensures PopEntries(data, entries) == PopEntries(rest, Insert(entries, k, v))
  {
  }

  method ParseDict(data: Bytes) returns (v: Option<Value>)
    ensures v == Parse(DICT_TAG, data)
    decreases |data|, 1
  {
    var entries, rest := [], data;
    while rest != []
      invariant |rest| <= |data|
      invariant PopEntries(data, []) == PopEntries(rest, entries)
      decreases |rest|
    {
      var key := PopValue(rest);
      if key.None? {
        return None;
      }
      var value := PopValue(key.value.1);
      if value.None? || !Hashable(key.value.0) {
        return None;
      }
      PopEntriesStep(rest, entries, key.value.0, key.value.1, value.value.0, value.value.1);
      rest, entries := value.value.1, Insert(entries, key.value.0, value.value.0);
    }
    return Some(Dict(entries));
  }

  method PopValue(data: Bytes) returns (r: Option<(Value, Bytes)>)
    ensures r == Pop(data)
    decreases |data|, 0
  {
    var split := SplitAtColon(data);
    if split.None? {
      return None;
    }
    var cut := Cut(split.value.1, split.value.0);
    if cut.None? {
      return None;
    }
    var v := ParseValue(cut.value.1, cut.value.0);
    return if v.Some? then Some((v.value, cut.value.2)) else None;
  }

  // ----- the inverse law -----

  /** What the printer accepts: text is UTF-8, a float has a float's text, and a dict has hashable keys, no two of them the same key. */
  predicate Storable(v: Value)
    decreases v
  {
    match v
    case Text(utf8) => ValidUtf8(utf8)
    case Float(text) => IsFloatText(text)
    case List(items) => forall i :: 0 <= i < |items| ==> Storable(items[i])
    case Dict(entries) => StorableEntries(entries)
    case _ => true
  }

  predicate StorableEntries(entries: seq<Entry>)
    decreases entries
  {
    entries == [] ||
    (var e, before := entries[|entries| - 1], entries[..|entries| - 1];
     && StorableEntry(e) && StorableEntries(before)
     && forall i :: 0 <= i < |before| ==> !SameKey(before[i].key, e.key))
  }

  predicate StorableEntry(e: Entry)
    decreases e
  {
    Hashable(e.key) && Storable(e.key) && Storable(e.value)
  }

  /** The same value with the entries of every dict in reverse. */
  function Reordered(v: Value): Value
    decreases v
  {
    match v
    case List(items) => List(ReorderedItems(items))
    case Dict(entries) => Dict(ReorderedEntries(entries))
    case _ => v
  }

  function ReorderedItems(items: seq<Value>): seq<Value>
    decreases items
  {
    if items == [] then [] else [Reordered(items[0])] + ReorderedItems(items[1..])
  }

  function ReorderedEntry(e: Entry): Entry
    decreases e
  {
    Entry(e.key, Reordered(e.value))
  }

  function ReorderedEntries(entries: seq<Entry>): seq<Entry>
    decreases entries
  {
    if entries == [] then []
    else [ReorderedEntry(entries[|entries| - 1])] + ReorderedEntries(entries[..|entries| - 1])
  }

  lemma {:induction false} FirstColon(digits: Bytes, rest: Bytes)
    requires AllDigits(digits)
    ensures IndexOf(digits + [COLON] + rest, COLON) == |digits|
  {
    var s := digits + [COLON] + rest;
    var i := IndexOf(s, COLON);
    assert s[|digits|] == COLON;
    assert i < |s| && s[i] == COLON;
    assert forall j :: 0 <= j < |digits| ==> s[j] == digits[j];
  }

  lemma PopNetstring(data: Bytes, tag: Byte, rest: Bytes)
    requires Parse(tag, data).Some?
    ensures Pop(Netstring(data, tag) + rest) == Some((Parse(tag, data).value, rest))
  {
    var span, tail := Decimal(|data|), data + [tag] + rest;
    var s := Netstring(data, tag) + rest;
    assert s == span + [COLON] + tail;
    FirstColon(span, tail);
    ParseDecimal(|data|);
    assert s[..|span|] == span && s[|span| + 1..] == tail;
    assert tail[..|data|] == data && tail[|data|] == tag && tail[|data| + 1..] == rest;
  }

  /** `pop(dumps(v) + rest) == (v, rest)`, for any rest. */
  lemma {:induction false} PopForm(v: Value, rest: Bytes)
    requires Storable(v)
    ensures Pop(Form(v) + rest) == Some((Reordered(v), rest))
    decreases v, 1
  {
    ParseForm(v);
    PopNetstring(FormData(v), FormTag(v), rest);
  }

  function FormTag(v: Value): Byte {
    match v
    case Null => NULL_TAG
    case Bool(_) => BOOL_TAG
    case Int(_) => INT_TAG
    case Float(_) => FLOAT_TAG
    case Raw(_) => RAW_TAG
    case Text(_) => TEXT_TAG
    case List(_) => LIST_TAG
    case Dict(_) => DICT_TAG
  }

  function FormData(v: Value): (data: Bytes)
    ensures Form(v) == Netstring(data, FormTag(v))
  {
    match v
    case Null => []
    case Bool(b) => if b then TRUE else FALSE
    case Int(n) => Integer(n)
    case Float(text) => text
    case Raw(data) => data
    case Text(utf8) => utf8
    case List(items) => Forms(items)
    case Dict(entries) => EntryForms(entries)
  }

  lemma {:induction false} ParseForm(v: Value)
    requires Storable(v)
    ensures Parse(FormTag(v), FormData(v)) == Some(Reordered(v))
    decreases v, 0
  {
    match v {
      case Int(n) => ParsedInt(n);
      case List(items) => PopForms(items); ParsedList(Forms(items));
      case Dict(entries) => PopDictForm(entries); ParsedDict(EntryForms(entries));
      case _ => ParsedAtom(v);
    }
  }

  lemma ParsedInt(n: int)
    ensures Parse(INT_TAG, Integer(n)) == Some(Int(n))
  {
    if n < 0 {
      ParseNegative(-n);
    } else {
      ParseDecimal(n);
    }
  }

  lemma ParsedAtom(v: Value)
    requires v.Null? || v.Bool? || v.Raw? || (v.Text? && ValidUtf8(v.utf8)) || (v.Float? && IsFloatText(v.text))
    ensures Parse(FormTag(v), FormData(v)) == Some(v)
  {
  }

  lemma ParsedList(data: Bytes)
    ensures Parse(LIST_TAG, data) == if PopAll(data).Some? then Some(List(PopAll(data).value)) else None
  {
  }

  lemma ParsedDict(data: Bytes)
    ensures Parse(DICT_TAG, data) == if PopEntries(data, []).Some? then Some(Dict(PopEntries(data, []).value)) else None
  {
  }

  lemma {:induction false} PopDictForm(entries: seq<Entry>)
    requires StorableEntries(entries)
    ensures PopEntries(EntryForms(entries), []) == Some(ReorderedEntries(entries))
    decreases entries, 1
  {
    PopEntryForms(entries, []);
    assert [] + ReorderedEntries(entries) == ReorderedEntries(entries);
  }

  lemma {:induction false} PopForms(items: seq<Value>)
    requires forall i :: 0 <= i < |items| ==> Storable(items[i])
    ensures PopAll(Forms(items)) == Some(ReorderedItems(items))
    decreases items
  {
    if items != [] {
      PopForm(items[0], Forms(items[1..]));
      PopForms(items[1..]);
    }
  }

  lemma {:induction false} InsertNew(entries: seq<Entry>, key: Value, value: Value)
    requires forall i :: 0 <= i < |entries| ==> !SameKey(entries[i].key, key)
    ensures Insert(entries, key, value) == entries + [Entry(key, value)]
    decreases |entries|
  {
    if entries != [] {
      InsertNew(entries[1..], key, value);
    }
  }

  predicate NewKeys(entries: seq<Entry>, done: seq<Entry>) {
    forall i, j :: 0 <= i < |entries| && 0 <= j < |done| ==> !SameKey(done[j].key, entries[i].key)
  }

  lemma {:induction false} PopEntryForms(entries: seq<Entry>, done: seq<Entry>)
    requires StorableEntries(entries) && NewKeys(entries, done)
    ensures PopEntries(EntryForms(entries), done) == Some(done + ReorderedEntries(entries))
    decreases entries, 0
  {
    if entries != [] {
      var e, before := entries[|entries| - 1], entries[..|entries| - 1];
      var first := ReorderedEntry(e);
      PopLastEntry(e, EntryForms(before), done);
      NewKeysSnoc(entries, done);
      PopEntryForms(before, done + [first]);
      JoinOne(done, first, ReorderedEntries(before));
    } else {
      assert done + [] == done;
    }
  }

  lemma NewKeysSnoc(entries: seq<Entry>, done: seq<Entry>)
    requires entries != [] && StorableEntries(entries) && NewKeys(entries, done)
    ensures NewKeys(entries[..|entries| - 1], done + [ReorderedEntry(entries[|entries| - 1])])
  {
  }

  lemma {:induction false} PopLastEntry(e: Entry, rest: Bytes, done: seq<Entry>)
    requires StorableEntry(e) && forall j :: 0 <= j < |done| ==> !SameKey(done[j].key, e.key)
    ensures PopEntries(EntryForm(e) + rest, done) == PopEntries(rest, done + [ReorderedEntry(e)])
    decreases e, 1
  {
    PopEntryForm(e, rest);
    InsertNew(done, e.key, Reordered(e.value));
    PopEntriesStep(EntryForm(e) + rest, done, e.key, Form(e.value) + rest, Reordered(e.value), rest);
  }

  lemma {:induction false} PopEntryForm(e: Entry, rest: Bytes)
    requires StorableEntry(e)
    ensures EntryForm(e) + rest != []
    ensures Pop(EntryForm(e) + rest) == Some((e.key, Form(e.value) + rest))
    ensures Pop(Form(e.value) + rest) == Some((Reordered(e.value), rest))
    decreases e, 0
  {
    Associative(Form(e.key), Form(e.value), rest);
    PopForm(e.key, Form(e.value) + rest);
    PopForm(e.value, rest);
  }

  // ----- dicts as maps -----

  datatype Meaning = Atom(v: Value) | Items(items: seq<Meaning>) | Mapping(entries: map<Value, Meaning>)

  function MeaningOf(v: Value): Meaning
    decreases v
  {
    match v
    case List(items) => Items(ItemMeanings(items))
    case Dict(entries) => Mapping(EntryMeanings(entries))
    case _ => Atom(v)
  }

  function ItemMeanings(items: seq<Value>): seq<Meaning>
    decreases items
  {
    if items == [] then [] else [MeaningOf(items[0])] + ItemMeanings(items[1..])
  }

  function EntryMeaning(e: Entry): (Value, Meaning)
    decreases e
  {
    (e.key, MeaningOf(e.value))
  }

  function EntryMeanings(entries: seq<Entry>): map<Value, Meaning>
    decreases entries
  {
    if entries == [] then map[]
    else
      var (k, m) := EntryMeaning(entries[|entries| - 1]);
      EntryMeanings(entries[..|entries| - 1])[k := m]
  }

  /** Reading a value back in another entry order does not change what it means. */
  lemma {:induction false} ReorderedMeansTheSame(v: Value)
    requires Storable(v)
    ensures MeaningOf(Reordered(v)) == MeaningOf(v)
    decreases v
  {
    match v {
      case List(items) => ReorderedItemsMeanTheSame(items);
      case Dict(entries) => ReorderedEntriesMeanTheSame(entries);
      case _ =>
    }
  }

  lemma {:induction false} ReorderedItemsMeanTheSame(items: seq<Value>)
    requires forall i :: 0 <= i < |items| ==> Storable(items[i])
    ensures ItemMeanings(ReorderedItems(items)) == ItemMeanings(items)
    decreases items
  {
    if items != [] {
      ReorderedMeansTheSame(items[0]);
      ReorderedItemsMeanTheSame(items[1..]);
    }
  }

  lemma {:induction false} ReorderedEntriesMeanTheSame(entries: seq<Entry>)
    requires StorableEntries(entries)
    ensures EntryMeanings(ReorderedEntries(entries)) == EntryMeanings(entries)
    decreases entries
  {
    if entries != [] {
      var e, before := entries[|entries| - 1], entries[..|entries| - 1];
      ReorderedEntriesMeanTheSame(before);
      ReorderedEntryMeansTheSame(e);
      ReorderedKeys(before);
      MeaningsCons(ReorderedEntry(e), ReorderedEntries(before));
    }
  }

  lemma {:induction false} ReorderedEntryMeansTheSame(e: Entry)
    requires Storable(e.value)
    ensures EntryMeaning(ReorderedEntry(e)) == EntryMeaning(e)
    decreases e
  {
    ReorderedMeansTheSame(e.value);
  }

  lemma {:induction false} ReorderedKeys(entries: seq<Entry>)
    ensures |ReorderedEntries(entries)| == |entries|
    ensures forall i :: 0 <= i < |entries| ==> ReorderedEntries(entries)[i].key == entries[|entries| - 1 - i].key
    decreases |entries|
  {
    if entries != [] {
      ReorderedKeys(entries[..|entries| - 1]);
    }
  }

  lemma {:induction false} MeaningsCons(e: Entry, entries: seq<Entry>)
    requires forall i :: 0 <= i < |entries| ==> entries[i].key != e.key
    ensures EntryMeanings([e] + entries) == EntryMeanings(entries)[EntryMeaning(e).0 := EntryMeaning(e).1]
    decreases |entries|
  {
    if entries == [] {
      assert [e] + entries == [e] && [e][..0] == [];
    } else {
      var n := |entries| - 1;
      assert ([e] + entries)[..n + 1] == [e] + entries[..n];
      MeaningsCons(e, entries[..n]);
    }
  }

  /** What comes back from the parser means what went in. */
  lemma ReadsBack(v: Value, rest: Bytes)
    requires Storable(v)
    ensures Pop(Form(v) + rest).Some?
    ensures MeaningOf(Pop(Form(v) + rest).value.0) == MeaningOf(v)
    ensures Pop(Form(v) + rest).value.1 == rest
  {
    PopForm(v, rest);
    ReorderedMeansTheSame(v);
  }

  // ----- what the bytes say -----

  /** Every form byte for byte: the length of the data, a colon, the data, and the tag of its kind. */
  lemma OnTheWire(v: Value)
    ensures v.Null? ==> Form(v) == [48, 58, 126]
    ensures v.Bool? ==> Form(v) == if v.b then [52, 58, 116, 114, 117, 101, 33] else [53, 58, 102, 97, 108, 115, 101, 33]
    ensures v.Int? ==> var data := if v.n < 0 then [45] + Decimal(-v.n) else Decimal(v.n);
      Form(v) == Decimal(|data|) + [58] + data + [35]
    ensures v.Float? ==> Form(v) == Decimal(|v.text|) + [58] + v.text + [94]
    ensures v.Raw? ==> Form(v) == Decimal(|v.data|) + [58] + v.data + [44]
    ensures v.Text? ==> Form(v) == Decimal(|v.utf8|) + [58] + v.utf8 + [59]
    ensures v.List? ==> Form(v) == Decimal(|Forms(v.items)|) + [58] + Forms(v.items) + [93]
    ensures v.Dict? ==> Form(v) == Decimal(|EntryForms(v.entries)|) + [58] + EntryForms(v.entries) + [125]
  {
    assert Decimal(0) == [48] && Decimal(4) == [52] && Decimal(5) == [53];
  }

  /** No other bytes are read as such a value: null, booleans, floats, bytes and text have one form each, and the tag says the kind. */
  lemma OneFormEach(tag: Byte, data: Bytes)
    requires Parse(tag, data).Some?
    ensures var v := Parse(tag, data).value;
      if v.Int? then tag == 35 && ParseInt(data) == Some(v.n)
      else if v.List? then tag == 93
      else if v.Dict? then tag == 125
      else Netstring(data, tag) == Form(v)
  {
  }

  /** A key that is there keeps its place and its spelling and gets the later value; every other key is put at the end. */
  lemma {:induction false} InsertReplaces(entries: seq<Entry>, i: nat, key: Value, value: Value)
    requires i < |entries| && SameKey(entries[i].key, key)
    requires forall j :: 0 <= j < i ==> !SameKey(entries[j].key, key)
    ensures Insert(entries, key, value) == entries[i := Entry(entries[i].key, value)]
    decreases |entries|
  {
    if i > 0 {
      InsertReplaces(entries[1..], i - 1, key, value);
    }
  }

  /** A dict as it is read: hashable keys, no two of them the same, and readable values. */
  predicate Proper(entries: seq<Entry>) {
    && (forall i :: 0 <= i < |entries| ==> StorableEntry(entries[i]))
    && forall i, j :: 0 <= i < j < |entries| ==> !SameKey(entries[i].key, entries[j].key)
  }

  lemma {:induction false} ProperIsStorable(entries: seq<Entry>)
    requires Proper(entries)
    ensures StorableEntries(entries)
    decreases |entries|
  {
    if entries != [] {
      ProperIsStorable(entries[..|entries| - 1]);
    }
  }

  lemma InsertIsProper(entries: seq<Entry>, key: Value, value: Value)
    requires Proper(entries) && StorableEntry(Entry(key, value))
    ensures Proper(Insert(entries, key, value))
  {
    if i :| 0 <= i < |entries| && SameKey(entries[i].key, key) {
      InsertReplaces(entries, i, key, value);
    } else {
      InsertNew(entries, key, value);
    }
  }

  lemma {:induction false} ParsedIsStorable(tag: Byte, data: Bytes)
    requires Parse(tag, data).Some?
    ensures Storable(Parse(tag, data).value)
    decreases |data|, 2
  {
    if tag == LIST_TAG {
      ParsedList(data);
      AllPoppedAreStorable(data);
    } else if tag == DICT_TAG {
      ParsedDict(data);
      PoppedEntriesAreProper(data, []);
      ProperIsStorable(PopEntries(data, []).value);
    }
  }

  lemma {:induction false} PoppedIsStorable(data: Bytes)
    requires Pop(data).Some?
    ensures Storable(Pop(data).value.0)
    decreases |data|, 0
  {
    var (n, rest) := Split(data).value;
    var cut := Cut(rest, n).value;
    ParsedIsStorable(cut.1, cut.0);
  }

  lemma {:induction false} AllPoppedAreStorable(data: Bytes)
    requires PopAll(data).Some?
    ensures forall i :: 0 <= i < |PopAll(data).value| ==> Storable(PopAll(data).value[i])
    decreases |data|, 1
  {
    if data != [] {
      PoppedIsStorable(data);
      AllPoppedAreStorable(Pop(data).value.1);
    }
  }

  lemma {:induction false} PoppedEntriesAreProper(data: Bytes, entries: seq<Entry>)
    requires Proper(entries) && PopEntries(data, entries).Some?
    ensures Proper(PopEntries(data, entries).value)
    decreases |data|, 1
  {
    if data != [] {
      var (key, afterKey) := Pop(data).value;
      var (value, rest) := Pop(afterKey).value;
      PoppedIsStorable(data);
      PoppedIsStorable(afterKey);
      InsertIsProper(entries, key, value);
      PoppedEntriesAreProper(rest, Insert(entries, key, value));
    }
  }

  /** Whatever bytes it comes from, a value that was read can be written, and reads back with the same meaning. */
  lemma ReadCanBeWritten(data: Bytes, rest: Bytes)
    requires Pop(data).Some?
    ensures var v := Pop(data).value.0;
      Pop(Form(v) + rest) == Some((Reordered(v), rest)) && MeaningOf(Reordered(v)) == MeaningOf(v)
  {
    var v := Pop(data).value.0;
    PoppedIsStorable(data);
    PopForm(v, rest);
    ReorderedMeansTheSame(v);
  }

  // ----- text, keys and lengths as Python has them -----

  /** A Unicode scalar value. */
  predicate IsScalar(c: nat) {
    c < 0xD800 || 0xE000 <= c < 0x110000
  }

  /** Its octets, by section 3 of RFC 3629. */
  function Octets(c: nat): Bytes
    requires IsScalar(c)
  {
    if c < 0x80 then [c]
    else if c < 0x800 then [0xC0 + c / 64, 0x80 + c % 64]
    else if c < 0x10000 then [0xE0 + c / 4096, 0x80 + c / 64 % 64, 0x80 + c % 64]
    else [0xF0 + c / 262144, 0x80 + c / 4096 % 64, 0x80 + c / 64 % 64, 0x80 + c % 64]
  }

  function Encoded(chars: seq<nat>): Bytes
    requires forall i :: 0 <= i < |chars| ==> IsScalar(chars[i])
  {
    if chars == [] then [] else Octets(chars[0]) + Encoded(chars[1..])
  }

  lemma OctetsAreValid(c: nat, rest: Bytes)
    requires IsScalar(c)
    ensures ValidUtf8(Octets(c) + rest) == ValidUtf8(rest)
  {
    var s := Octets(c) + rest;
    assert s[|Octets(c)|..] == rest;
    if c < 0x80 {
    } else if c < 0x800 {
      TwoValid(c, s);
    } else if c < 0x10000 {
      ThreeValid(c, s);
    } else {
      FourValid(c, s);
    }
  }

  lemma TwoValid(c: nat, s: Bytes)
    requires 0x80 <= c < 0x800 && |s| >= 2 && s[..2] == Octets(c)
    ensures ValidUtf8(s) == ValidUtf8(s[2..])
  {
    var o := Octets(c);
    assert s[0] == s[..2][0] == o[0] && s[1] == s[..2][1] == o[1];
    assert 194 <= o[0] < 224 && IsContinuation(o[1]);
  }

  lemma ThreeValid(c: nat, s: Bytes)
    requires IsScalar(c) && 0x800 <= c < 0x10000 && |s| >= 3 && s[..3] == Octets(c)
    ensures ValidUtf8(s) == ValidUtf8(s[3..])
  {
    var o := Octets(c);
    assert s[0] == s[..3][0] == o[0] && s[1] == s[..3][1] == o[1] && s[2] == s[..3][2] == o[2];
    assert 224 <= o[0] < 240 && IsContinuation(o[1]) && IsContinuation(o[2]);
    assert (o[0] == 224 ==> o[1] >= 160) && (o[0] == 237 ==> o[1] < 160);
  }

  lemma FourValid(c: nat, s: Bytes)
    requires 0x10000 <= c < 0x110000 && |s| >= 4 && s[..4] == Octets(c)
    ensures ValidUtf8(s) == ValidUtf8(s[4..])
  {
    var o := Octets(c);
    assert s[0] == s[..4][0] == o[0] && s[1] == s[..4][1] == o[1] && s[2] == s[..4][2] == o[2] && s[3] == s[..4][3] == o[3];
    assert 240 <= o[0] < 245 && IsContinuation(o[1]) && IsContinuation(o[2]) && IsContinuation(o[3]);
    assert (o[0] == 240 ==> o[1] >= 144) && (o[0] == 244 ==> o[1] < 144);
  }

  lemma TwoOctets(a: Byte, b: Byte) returns (c: nat)
    requires 194 <= a < 224 && IsContinuation(b)
    ensures IsScalar(c) && Octets(c) == [a, b]
  {
    c := (a as int - 192) * 64 + (b as int - 128);
    assert c / 64 == a as int - 192 && c % 64 == b as int - 128;
  }

  lemma ThreeOctets(a: Byte, b: Byte, d: Byte) returns (c: nat)
    requires 224 <= a < 240 && IsContinuation(b) && IsContinuation(d)
    requires (a == 224 ==> b >= 160) && (a == 237 ==> b < 160)
    ensures IsScalar(c) && Octets(c) == [a, b, d]
  {
    var high, middle := a as int - 224, b as int - 128;
    c := high * 4096 + middle * 64 + (d as int - 128);
    assert c / 64 == high * 64 + middle && c % 64 == d as int - 128;
    assert c / 4096 == high && c / 64 % 64 == middle;
  }

  lemma FourOctets(a: Byte, b: Byte, d: Byte, e: Byte) returns (c: nat)
    requires 240 <= a < 245 && IsContinuation(b) && IsContinuation(d) && IsContinuation(e)
    requires (a == 240 ==> b >= 144) && (a == 244 ==> b < 144)
    ensures IsScalar(c) && Octets(c) == [a, b, d, e]
  {
    var high, upper, middle := a as int - 240, b as int - 128, d as int - 128;
    c := high * 262144 + upper * 4096 + middle * 64 + (e as int - 128);
    assert c / 64 == high * 4096 + upper * 64 + middle && c % 64 == e as int - 128;
    assert c / 4096 == high * 64 + upper && c / 64 % 64 == middle;
    assert c / 262144 == high && c / 4096 % 64 == upper;
  }

  lemma FirstOctets(s: Bytes) returns (c: nat)
    requires s != [] && ValidUtf8(s)
    ensures IsScalar(c) && |Octets(c)| <= |s| && s[..|Octets(c)|] == Octets(c) && ValidUtf8(s[|Octets(c)|..])
  {
    if s[0] < 128 {
      c := s[0] as int;
    } else if s[0] < 224 {
      c := TwoOctets(s[0], s[1]);
    } else if s[0] < 240 {
      c := ThreeOctets(s[0], s[1], s[2]);
    } else {
      c := FourOctets(s[0], s[1], s[2], s[3]);
    }
  }

  lemma {:induction false} Decoded(s: Bytes) returns (chars: seq<nat>)
    requires ValidUtf8(s)
    ensures (forall i :: 0 <= i < |chars| ==> IsScalar(chars[i])) && Encoded(chars) == s
    decreases |s|
  {
    chars := [];
    if s != [] {
      var c := FirstOctets(s);
      var more := Decoded(s[|Octets(c)|..]);
      chars := [c] + more;
    }
  }

  lemma {:induction false} EncodedIsValid(chars: seq<nat>)
    requires forall i :: 0 <= i < |chars| ==> IsScalar(chars[i])
    ensures ValidUtf8(Encoded(chars))
    decreases |chars|
  {
    if chars != [] {
      EncodedIsValid(chars[1..]);
      OctetsAreValid(chars[0], Encoded(chars[1..]));
    }
  }

  /** Text is read exactly when its bytes encode a sequence of Unicode scalar values. */
  lemma TextExactly(data: Bytes)
    ensures Parse(59, data) == (if ValidUtf8(data) then Some(Text(data)) else None)
    ensures ValidUtf8(data) <==> exists chars: seq<nat> ::
      (forall i :: 0 <= i < |chars| ==> IsScalar(chars[i])) && Encoded(chars) == data
  {
    if ValidUtf8(data) {
      var chars := Decoded(data);
    }
    if chars: seq<nat> :| (forall i :: 0 <= i < |chars| ==> IsScalar(chars[i])) && Encoded(chars) == data {
      EncodedIsValid(chars);
    }
  }

  /** `True` and `1` are one key, as are `False` and `0`; numbers and strings of any kind are not. */
  lemma BoolsAreNumbers(a: Value, b: Value)
    ensures Insert([Entry(Int(1), a)], Bool(true), b) == [Entry(Int(1), b)] && Insert([Entry(Bool(false), a)], Int(0), b) == [Entry(Bool(false), b)]
    ensures forall x, y :: Insert([Entry(Raw(x), a)], Text(y), b) == [Entry(Raw(x), a), Entry(Text(y), b)]
  {
    assert [Entry(Int(1), a)][1..] == [] && [Entry(Bool(false), a)][1..] == [];
    assert forall x :: [Entry(Raw(x), a)][1..] == [];
  }

  lemma SplitAt(digits: Bytes, n: int, data: Bytes)
    requires COLON !in digits && ParseInt(digits) == Some(n)
    ensures Split(digits + [COLON] + data) == Some((n, data))
  {
    var all := digits + [COLON] + data;
    assert all[|digits|] == COLON && all[..|digits|] == digits && all[|digits| + 1..] == data;
    assert forall i :: 0 <= i < |digits| ==> all[i] == digits[i];
    assert IndexOf(all, COLON) == |digits|;
  }

  lemma CutAt(data: Bytes, n: int)
    ensures var at := if n >= 0 then n else |data| + n;
      Cut(data, n) == if 0 <= at < |data| then Some((data[..at], data[at], if n == -1 then data else data[at + 1..])) else None
  {
  }

  /** `pop` with any length: a negative one counts from the end, as Python's indices do, and the length -1 leaves all of the
      data as the rest. */
  lemma PopAtLength(digits: Bytes, n: int, data: Bytes)
    requires COLON !in digits && ParseInt(digits) == Some(n)
    ensures var at := if n >= 0 then n else |data| + n;
      Pop(digits + [COLON] + data) ==
        if !(0 <= at < |data|) || Parse(data[at], data[..at]).None? then None
        else Some((Parse(data[at], data[..at]).value, if n == -1 then data else data[at + 1..]))
  {
    SplitAt(digits, n, data);
    CutAt(data, n);
  }
}
