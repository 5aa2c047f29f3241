/** Objects through a flow file: `get_state`, the printer, the file, the reader and `from_state` one after another. */
module FlowStates {
  import opened ByteStrings
  import opened Options
  import opened Serializables
  import FlowFiles
  import N = Tnetstrings

  // ----- states as values of the printer -----

  /** Text encoding and the texts of floats, which belong to Python. */
  datatype Python = Python(encode: string -> Bytes, decode: Bytes -> string, repr: real -> Bytes, float: Bytes -> real)

  /** The printer takes the value, and every string and float in it survives being turned into bytes. */
  predicate Prints(py: Python, v: Val)
    decreases v
  {
    match v
    case Str(s) => N.ValidUtf8(py.encode(s)) && py.decode(py.encode(s)) == s
    case Float(r) => N.IsFloatText(py.repr(r)) && py.float(py.repr(r)) == r
    case List(items) => forall i :: 0 <= i < |items| ==> Prints(py, items[i])
    case Tuple(items) => forall i :: 0 <= i < |items| ==> Prints(py, items[i])
    case Dict(entries) => !Confuses(entries) && forall i :: 0 <= i < |entries| ==> PrintsEntry(py, entries[i])
    case Member(_, _) => false
    case Object(_, _) => false
    case _ => true
  }

  /** Two keys that Python takes for the same, as `1` and `True`; no dict of Python has both. */
  predicate Confuses(entries: seq<Entry>) {
    exists i, j :: 0 <= i < |entries| && 0 <= j < |entries| && entries[i].key.Bool? && entries[j].key == Int(if entries[i].key.b then 1 else 0)
  }

  predicate PrintsEntry(py: Python, e: Entry)
    decreases e
  {
    Prints(py, e.key) && Prints(py, e.value)
  }

  /** What the printer makes of a value; a tuple is a list to it. */
  function Net(py: Python, v: Val): N.Value
    requires Prints(py, v)
    decreases v
  {
    match v
    case Null => N.Null
    case Bool(b) => N.Bool(b)
    case Int(n) => N.Int(n)
    case Float(r) => N.Float(py.repr(r))
    case Bytes(data) => N.Raw(data)
    case Str(s) => N.Text(py.encode(s))
    case List(items) => N.List(NetItems(py, items))
    case Tuple(items) => N.List(NetItems(py, items))
    case Dict(entries) => N.Dict(NetEntries(py, entries))
  }

  function NetItems(py: Python, items: seq<Val>): seq<N.Value>
    requires forall i :: 0 <= i < |items| ==> Prints(py, items[i])
    decreases items
  {
    if items == [] then [] else [Net(py, items[0])] + NetItems(py, items[1..])
  }

  function NetEntry(py: Python, e: Entry): N.Entry
    requires PrintsEntry(py, e)
    decreases e
  {
    N.Entry(Net(py, e.key), Net(py, e.value))
  }

  function NetEntries(py: Python, entries: seq<Entry>): (r: seq<N.Entry>)
    requires forall i :: 0 <= i < |entries| ==> PrintsEntry(py, entries[i])
    ensures |r| == |entries| && forall i :: 0 <= i < |r| ==> r[i] == NetEntry(py, entries[i])
    decreases entries
  {
    if entries == [] then []
    else NetEntries(py, entries[..|entries| - 1]) + [NetEntry(py, entries[|entries| - 1])]
  }

  /** The Python value that the parser builds. */
  function Back(py: Python, v: N.Value): Val
    decreases v
  {
    match v
    case Null => Null
    case Bool(b) => Bool(b)
    case Int(n) => Int(n)
    case Float(text) => Float(py.float(text))
    case Raw(data) => Bytes(data)
    case Text(utf8) => Str(py.decode(utf8))
    case List(items) => List(BackItems(py, items))
    case Dict(entries) => Dict(BackEntries(py, entries))
  }

  function BackItems(py: Python, items: seq<N.Value>): seq<Val>
    decreases items
  {
    if items == [] then [] else [Back(py, items[0])] + BackItems(py, items[1..])
  }

  function BackEntry(py: Python, e: N.Entry): Entry
    decreases e
  {
    Entry(Back(py, e.key), Back(py, e.value))
  }

  function BackEntries(py: Python, entries: seq<N.Entry>): seq<Entry>
    decreases entries
  {
    if entries == [] then [] else [BackEntry(py, entries[0])] + BackEntries(py, entries[1..])
  }

  /** A flow file as a store: tuples come back as lists, dicts last entry first. */
  const FILE := Store(true, true)

  // ----- the keys of states -----

  /** The keys of a dict are no containers, and different. */
  predicate GoodKeys(entries: seq<Entry>) {
    && (forall i :: 0 <= i < |entries| ==> IsPlain(entries[i].key))
    && forall i, j :: 0 <= i < j < |entries| ==> entries[i].key != entries[j].key
  }

  predicate Keyed(v: Val)
    decreases v
  {
    match v
    case List(items) => forall i :: 0 <= i < |items| ==> Keyed(items[i])
    case Tuple(items) => forall i :: 0 <= i < |items| ==> Keyed(items[i])
    case Dict(entries) => GoodKeys(entries) && forall i :: 0 <= i < |entries| ==> KeyedEntry(entries[i])
    case _ => true
  }

  predicate KeyedEntry(e: Entry)
    decreases e
  {
    Keyed(e.value)
  }

  // ----- the file is such a store -----

  /** What the parser gives back for a printed state is what such a store gives back. */
  lemma {:induction false} FileStores(py: Python, v: Val)
    requires Prints(py, v) && Keyed(v)
    ensures N.Storable(Net(py, v))
    ensures Back(py, N.Reordered(Net(py, v))) == Stored(v, FILE)
    decreases v
  {
    match v {
      case List(items) =>
        FileStoresItems(py, items);
        ListStores(py, v, items);
      case Tuple(items) =>
        FileStoresItems(py, items);
        ListStores(py, v, items);
      case Dict(entries) => FileStoresEntries(py, entries);
      case _ => AtomStores(py, v);
    }
  }

  lemma ListStores(py: Python, v: Val, items: seq<Val>)
    requires (v == List(items) || v == Tuple(items)) && Prints(py, v)
    requires forall i :: 0 <= i < |NetItems(py, items)| ==> N.Storable(NetItems(py, items)[i])
    requires BackItems(py, N.ReorderedItems(NetItems(py, items))) == StoredAll(items, FILE)
    ensures N.Storable(Net(py, v)) && Back(py, N.Reordered(Net(py, v))) == Stored(v, FILE)
  {
  }

  lemma AtomStores(py: Python, v: Val)
    requires Prints(py, v) && !v.List? && !v.Tuple? && !v.Dict?
    ensures N.Storable(Net(py, v)) && Back(py, N.Reordered(Net(py, v))) == Stored(v, FILE)
  {
  }

  lemma {:induction false} FileStoresItems(py: Python, items: seq<Val>)
    requires forall i :: 0 <= i < |items| ==> Prints(py, items[i]) && Keyed(items[i])
    ensures forall i :: 0 <= i < |NetItems(py, items)| ==> N.Storable(NetItems(py, items)[i])
    ensures BackItems(py, N.ReorderedItems(NetItems(py, items))) == StoredAll(items, FILE)
    decreases items
  {
    if items != [] {
      FileStores(py, items[0]);
      FileStoresItems(py, items[1..]);
      var first, rest := Net(py, items[0]), NetItems(py, items[1..]);
      assert ([first] + rest)[1..] == rest;
      BackFirst(py, N.Reordered(first), N.ReorderedItems(rest));
    }
  }

  lemma BackFirst(py: Python, first: N.Value, rest: seq<N.Value>)
    ensures BackItems(py, [first] + rest) == [Back(py, first)] + BackItems(py, rest)
  {
    assert ([first] + rest)[1..] == rest;
  }

  lemma {:induction false} FileStoresEntries(py: Python, entries: seq<Entry>)
    requires forall i :: 0 <= i < |entries| ==> PrintsEntry(py, entries[i]) && KeyedEntry(entries[i])
    requires GoodKeys(entries) && !Confuses(entries)
    ensures N.StorableEntries(NetEntries(py, entries))
    ensures BackEntries(py, N.ReorderedEntries(NetEntries(py, entries))) == StoredEntries(entries, FILE)
    decreases entries
  {
    if entries != [] {
      var n := |entries| - 1;
      FileStoresEntries(py, entries[..n]);
      FileStoresEntry(py, entries[n]);
      var before, last := NetEntries(py, entries[..n]), NetEntry(py, entries[n]);
      forall i | 0 <= i < n ensures !N.SameKey(before[i].key, last.key) {
        assert PrintsEntry(py, entries[i]) && PrintsEntry(py, entries[n]);
        DifferentKeys(py, entries, i, n);
      }
      KeyStores(py, entries[n].key);
      LastStores(py, before, last);
    }
  }

  lemma {:induction false} FileStoresEntry(py: Python, e: Entry)
    requires PrintsEntry(py, e) && KeyedEntry(e)
    ensures N.Storable(Net(py, e.value)) && Back(py, N.Reordered(Net(py, e.value))) == Stored(e.value, FILE)
    decreases e
  {
    FileStores(py, e.value);
  }

  lemma KeyStores(py: Python, key: Val)
    requires Prints(py, key) && IsPlain(key)
    ensures N.Storable(Net(py, key)) && N.Hashable(Net(py, key)) && Back(py, Net(py, key)) == Stored(key, FILE)
  {
  }

  lemma DifferentKeys(py: Python, entries: seq<Entry>, i: nat, j: nat)
    requires i < j < |entries| && GoodKeys(entries) && !Confuses(entries) && PrintsEntry(py, entries[i]) && PrintsEntry(py, entries[j])
    ensures !N.SameKey(Net(py, entries[i].key), Net(py, entries[j].key))
  {
    var a, b := entries[i].key, entries[j].key;
    assert a != b && IsPlain(a) && IsPlain(b);
    if a.Bool? && b.Int? {
      assert b != Int(if a.b then 1 else 0);
    } else if a.Int? && b.Bool? {
      assert a != Int(if b.b then 1 else 0);
    }
  }

  lemma LastStores(py: Python, before: seq<N.Entry>, last: N.Entry)
    requires N.StorableEntries(before) && N.StorableEntry(last)
    requires forall i :: 0 <= i < |before| ==> !N.SameKey(before[i].key, last.key)
    ensures N.StorableEntries(before + [last])
    ensures BackEntries(py, N.ReorderedEntries(before + [last]))
         == [Entry(Back(py, last.key), Back(py, N.Reordered(last.value)))] + BackEntries(py, N.ReorderedEntries(before))
  {
    assert (before + [last])[..|before|] == before;
    var all, rest := N.ReorderedEntries(before + [last]), N.ReorderedEntries(before);
    assert all == [N.ReorderedEntry(last)] + rest && all[1..] == rest;
  }

  // ----- the states of typed values -----

  /** The state of a well-typed value has dicts with good keys only. */
  lemma {:induction false} StateKeyed(v: Val, t: Ty, name: string)
    requires WellTyped(v, t, name)
    ensures Process(v, t, name, false).Some? && Keyed(Process(v, t, name, false).value)
    decreases v, t, 1
  {
    match t {
      case OrNone(t') =>
        if !v.Null? {
          StateKeyed(v, t', name);
        }
      case ListOf(t') => AllKeyed(v.items, t', name);
      case TupleOf(ts) =>
        if IsPeer(name) {
          PeerComesBack(v.items, 0, FILE);
          PeerKeyed(v.items, 0);
        } else {
          EachKeyed(v.items, ts, name);
        }
      case DictOf(kt, vt) => EntriesKeyed(v.entries, kt, vt, name);
      case ClassTy(cls) => ObjectKeyed(v.fields, cls.fields);
      case _ =>
    }
  }

  lemma {:induction false} AllKeyed(items: seq<Val>, t: Ty, name: string)
    requires AllTyped(items, t, name)
    ensures var ss := ProcessAll(items, t, name, false); ss.Some? && forall i :: 0 <= i < |ss.value| ==> Keyed(ss.value[i])
    decreases items, t, 0
  {
    if items != [] {
      StateKeyed(items[0], t, name);
      AllKeyed(items[1..], t, name);
    }
  }

  lemma {:induction false} EachKeyed(items: seq<Val>, ts: seq<Ty>, name: string)
    requires |items| == |ts| && EachTyped(items, ts, name)
    ensures var ss := ProcessEach(items, ts, name, false); ss.Some? && forall i :: 0 <= i < |ss.value| ==> Keyed(ss.value[i])
    decreases items, 0
  {
    if items != [] {
      StateKeyed(items[0], ts[0], name);
      EachKeyed(items[1..], ts[1..], name);
    }
  }

  lemma {:induction false} PeerKeyed(items: seq<Val>, k: nat)
    requires PeerTyped(items, k)
    ensures forall i :: 0 <= i < |items| ==> Keyed(items[i])
    decreases |items|
  {
    if items != [] {
      PeerKeyed(items[1..], k + 1);
      assert forall i :: 0 < i < |items| ==> items[i] == items[1..][i - 1];
    }
  }

  lemma {:induction false} EntriesKeyed(entries: seq<Entry>, kt: Ty, vt: Ty, name: string)
    requires IsKeyType(kt) && EntriesTyped(entries, kt, vt, name)
    ensures var es := ProcessEntries(entries, kt, vt, name, false);
      && es.Some? && |es.value| == |entries| && GoodKeys(es.value)
      && (forall i :: 0 <= i < |entries| ==> Process(entries[i].key, kt, name, false) == Some(es.value[i].key))
      && forall i :: 0 <= i < |entries| ==> KeyedEntry(es.value[i])
    decreases entries, 0
  {
    if entries != [] {
      var n := |entries| - 1;
      EntriesKeyed(entries[..n], kt, vt, name);
      EntryKeyed(entries[n], kt, vt, name);
      var before, last := ProcessEntries(entries[..n], kt, vt, name, false).value, ProcessEntry(entries[n], kt, vt, name, false).value;
      LastOf(entries);
      KeysApart(entries[..n], entries[n].key, kt, vt, name, before, last.key);
      ProcessSnoc(entries[..n], entries[n], kt, vt, name, false, before, last);
      MoreKeys(before, last);
    }
  }

  lemma {:induction false} EntryKeyed(e: Entry, kt: Ty, vt: Ty, name: string)
    requires IsKeyType(kt) && EntryTyped(e, kt, vt, name)
    ensures var s := ProcessEntry(e, kt, vt, name, false);
      s.Some? && Process(e.key, kt, name, false) == Some(s.value.key) && IsPlain(s.value.key) && KeyedEntry(s.value)
    decreases e, 0
  {
    KeyComesBack(e.key, kt, name, FILE);
    StateKeyed(e.value, vt, name);
  }

  lemma MoreKeys(before: seq<Entry>, last: Entry)
    requires GoodKeys(before) && NewKey(before, last.key) && IsPlain(last.key)
    ensures GoodKeys(before + [last])
  {
  }

  lemma {:induction false} ObjectKeyed(values: seq<Val>, fields: seq<Field>)
    requires |values| == |fields| && FieldsTyped(values, fields)
    ensures FieldsState(values, fields).Some? && Keyed(FieldsState(values, fields).value)
    decreases values, 1
  {
    EachFieldComesBack(values, fields, FILE);
    TypedNames(values, fields);
    GotFields(values, fields, FILE);
    FieldsKeyed(values, fields);
    var entries := GetFields(values, fields).value;
    forall i | 0 <= i < |entries| ensures KeyedEntry(entries[i]) {
      assert Some(entries[i].value) == Process(values[i], fields[i].ty, fields[i].name, false);
    }
  }

  lemma {:induction false} FieldsKeyed(values: seq<Val>, fields: seq<Field>)
    requires |values| == |fields| && FieldsTyped(values, fields)
    ensures forall i :: 0 <= i < |fields| ==>
      var s := Process(values[i], fields[i].ty, fields[i].name, false); s.Some? && Keyed(s.value)
    decreases values, 0
  {
    if values != [] {
      StateKeyed(values[0], fields[0].ty, fields[0].name);
      FieldsKeyed(values[1..], fields[1..]);
      assert forall i :: 0 < i < |fields| ==> values[i] == values[1..][i - 1] && fields[i] == fields[1..][i - 1];
    }
  }

  // ----- objects that went through a file -----

  /** An object that a writer can write: its class's types fit, what is in it can be printed, and its record is not
      longer than the reader allows. */
  predicate Writable(py: Python, v: Val) {
    && v.Object? && TypedObject(v, v.cls) && GetState(v).Some? && Prints(py, GetState(v).value)
    && |N.FormData(Net(py, GetState(v).value))| < Pow10(FlowFiles.MAX_DIGITS)
  }

  function Record(py: Python, v: Val): N.Value
    requires Writable(py, v)
  {
    Net(py, GetState(v).value)
  }

  function RecordsOf(py: Python, vs: seq<Val>): (r: seq<N.Value>)
    requires forall i :: 0 <= i < |vs| ==> Writable(py, vs[i])
    ensures |r| == |vs| && forall i :: 0 <= i < |vs| ==> r[i] == Record(py, vs[i])
  {
    if vs == [] then [] else [Record(py, vs[0])] + RecordsOf(py, vs[1..])
  }

  /** The object that a record read from a file stands for. */
  function ReadObject(py: Python, record: N.Value, cls: Class): Option<Val> {
    FromState(Back(py, record), cls)
  }

  /** Reading a record gives the object it was made from: with lists for tuples where a list is declared and with its
      dicts in another order, but meaning the same. */
  ghost predicate ReadsAs(py: Python, record: N.Value, v: Val)
    requires v.Object?
  {
    var o := ReadObject(py, record, v.cls);
    o == Some(AsRead(v, ClassTy(v.cls), "", FILE)) && SenseOf(o.value) == SenseOf(v)
  }

  /** A record that was printed, whatever follows it, is popped and read as the object it was made from. */
  lemma RecordReads(py: Python, v: Val, rest: Bytes)
    requires Writable(py, v)
    ensures FlowFiles.Recordable(Record(py, v)) && ReadsAs(py, N.Reordered(Record(py, v)), v)
    ensures var popped := N.Pop(N.Form(Record(py, v)) + rest);
      popped.Some? && ReadsAs(py, popped.value.0, v) && popped.value.1 == rest
  {
    ObjectKeyed(v.fields, v.cls.fields);
    FileStores(py, GetState(v).value);
    StateComesBack(v, v.cls, FILE);
    ReadMeansTheSame(v, ClassTy(v.cls), "", FILE);
    N.PopForm(Record(py, v), rest);
  }

  lemma {:induction false} ReorderedAt(items: seq<N.Value>, i: nat)
    requires i < |items|
    ensures |N.ReorderedItems(items)| == |items| && N.ReorderedItems(items)[i] == N.Reordered(items[i])
    decreases |items|
  {
    if |items| > 1 {
      ReorderedAt(items[1..], if i == 0 then 0 else i - 1);
    }
  }

  lemma StatesRead(py: Python, vs: seq<Val>, k: nat)
    requires k <= |vs| && forall i :: 0 <= i < |vs| ==> Writable(py, vs[i])
    ensures var states := N.ReorderedItems(RecordsOf(py, vs)[..k]);
      |states| == k && forall i :: 0 <= i < k ==> ReadsAs(py, states[i], vs[i])
  {
    var records := RecordsOf(py, vs);
    if k == 0 {
      assert records[..k] == [];
    } else {
      ReorderedAt(records[..k], 0);
    }
    forall i | 0 <= i < k ensures ReadsAs(py, N.ReorderedItems(records[..k])[i], vs[i]) {
      ReorderedAt(records[..k], i);
      RecordReads(py, vs[i], []);
    }
  }

  /** Whatever objects are written to a file, cutting it at any byte leaves the objects whose records lie before the
      cut: the reader yields exactly these, and ends cleanly only if the cut is between two records. */
  lemma CutFileReads(py: Python, vs: seq<Val>, n: nat)
    requires forall i :: 0 <= i < |vs| ==> Writable(py, vs[i])
    requires n <= |N.Forms(RecordsOf(py, vs))|
    ensures var records := RecordsOf(py, vs);
      var read := FlowFiles.Stream(N.Forms(records)[..n]);
      && read.Flows? && |read.states| <= |vs|
      && (read.clean <==> n == |N.Forms(records[..|read.states|])|)
      && (|read.states| < |vs| ==> n < |N.Forms(records[..|read.states| + 1])|)
      && forall i :: 0 <= i < |read.states| ==> ReadsAs(py, read.states[i], vs[i])
  {
    var records := RecordsOf(py, vs);
    forall i | 0 <= i < |vs| ensures FlowFiles.Recordable(records[i]) {
      RecordReads(py, vs[i], []);
    }
    FlowFiles.CutFileStreams(records, n);
    StatesRead(py, vs, FlowFiles.Whole(records, n));
  }

  /** The whole file gives back every object, in order. */
  lemma WrittenFileReads(py: Python, vs: seq<Val>)
    requires forall i :: 0 <= i < |vs| ==> Writable(py, vs[i])
    ensures var read := FlowFiles.Stream(N.Forms(RecordsOf(py, vs)));
      && read.Flows? && read.clean && |read.states| == |vs|
      && forall i :: 0 <= i < |vs| ==> ReadsAs(py, read.states[i], vs[i])
  {
    var records := RecordsOf(py, vs);
    forall i | 0 <= i < |vs| ensures FlowFiles.Recordable(records[i]) {
      RecordReads(py, vs[i], []);
    }
    FlowFiles.WrittenFileStreams(records);
    StatesRead(py, vs, |vs|);
    FlowFiles.CutNowhere(records);
  }
}
