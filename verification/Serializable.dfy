/** States of objects (mitmproxy/coretypes/serializable.py): the codec that is directed by declared types.

    An object's state is a dict of the states of its fields. What a store gives back of a state need not be the state: it
    may have lists for tuples and dicts in another order. The round trip is proved for every such store, by induction on
    the value and its type together. */
module Serializables {
  import opened ByteStrings
  import opened Options

  /** Python values. Floats are reals, a dict is its entries in order, an object the values of its class's fields. */
  datatype Val =
    | Null
    | Bool(b: bool)
    | Int(n: int)
    | Float(r: real)
    | Bytes(data: Bytes)
    | Str(text: string)
    | List(items: seq<Val>)
    | Tuple(items: seq<Val>)
    | Dict(entries: seq<Entry>)
    | Member(enumName: string, value: Val)
    | Object(cls: Class, fields: seq<Val>)

  datatype Entry = Entry(key: Val, value: Val)

  /** The declared types that are supported, and the others. */
  datatype Ty =
    | Literal(vals: seq<Val>)
    | OrNone(t: Ty)
    | ListOf(t: Ty)
    | TupleOf(ts: seq<Ty>)
    | DictOf(k: Ty, v: Ty)
    | IntTy
    | FloatTy
    | StrTy
    | BytesTy
    | BoolTy
    | EnumTy(enumName: string, values: seq<Val>)
    | ClassTy(cls: Class)
    | Unsupported

  datatype Field = Field(name: string, ty: Ty)

  datatype Class = Class(name: string, fields: seq<Field>)

  predicate IsPeer(name: string) {
    name == "peername" || name == "sockname"
  }

  /** `int(x)` of a float cuts toward zero. */
  function Truncate(r: real): int {
    if r >= 0.0 then r.Floor else -((0.0 - r).Floor)
  }

  function Scalar(v: Val, t: Ty): Option<Val> {
    match (t, v)
    case (IntTy, Int(n)) => Some(v)
    case (IntTy, Bool(b)) => Some(Int(if b then 1 else 0))
    case (IntTy, Float(r)) => Some(Int(Truncate(r)))
    case (FloatTy, Int(n)) => Some(Float(n as real))
    case (FloatTy, Bool(b)) => Some(Float(if b then 1.0 else 0.0))
    case (FloatTy, Float(r)) => Some(v)
    case (StrTy, Str(_)) => Some(v)
    case (BytesTy, Bytes(_)) => Some(v)
    case (BoolTy, Bool(_)) => Some(v)
    case _ => None
  }

  /** The types that the elements of a socket address are taken to have. */
  function PeerType(i: nat): Ty {
    if i == 0 then StrTy else IntTy
  }

  predicate Hashable(v: Val)
    decreases v
  {
    match v
    case List(_) => false
    case Dict(_) => false
    case Tuple(items) => forall i :: 0 <= i < |items| ==> Hashable(items[i])
    case _ => true
  }

  function KeyIndex(entries: seq<Entry>, key: Val): (i: nat)
    ensures i <= |entries| && (i < |entries| ==> entries[i].key == key)
  {
    if entries == [] || entries[0].key == key then 0 else 1 + KeyIndex(entries[1..], key)
  }

  function Put(entries: seq<Entry>, e: Entry): seq<Entry> {
    var i := KeyIndex(entries, e.key);
    if i == |entries| then entries + [e] else entries[i := e]
  }

  /** `_process`: to an object when `make`, to a state otherwise; every exception is None. */
  function Process(v: Val, t: Ty, name: string, make: bool): Option<Val>
    decreases v, t, 1
  {
    match t
    case Literal(vals) => if v in vals then Some(v) else None
    case OrNone(t') => if v.Null? then Some(Null) else Process(v, t', name, make)
    case _ => if v.Null? then None else ProcessPresent(v, t, name, make)
  }

  function ProcessPresent(v: Val, t: Ty, name: string, make: bool): Option<Val>
    requires !t.Literal? && !t.OrNone?
    decreases v, t, 0
  {
    match t
    case ClassTy(cls) => if make then FromState(v, cls) else if v.Object? then FieldsState(v.fields, v.cls.fields) else None
    case ListOf(t') =>
      if !v.List? && !v.Tuple? then None
      else
        var items := ProcessAll(v.items, t', name, make);
        if items.None? then None else Some(List(items.value))
    case TupleOf(ts) =>
      if !v.List? && !v.Tuple? then None
      else if !IsPeer(name) && |ts| != |v.items| then None
      else
        var items := if IsPeer(name) then ProcessPeer(v.items, 0) else ProcessEach(v.items, ts, name, make);
        if items.None? then None else Some(Tuple(items.value))
    case DictOf(kt, vt) =>
      if !v.Dict? then None
      else
        var entries := ProcessEntries(v.entries, kt, vt, name, make);
        if entries.None? then None else Some(Dict(entries.value))
    case EnumTy(enumName, values) =>
      if make then (if v in values then Some(Member(enumName, v)) else None)
      else if v.Member? then Some(v.value)
      else None
    case _ => Scalar(v, t)
  }

  function ProcessAll(items: seq<Val>, t: Ty, name: string, make: bool): Option<seq<Val>>
    decreases items, t, 0
  {
    if items == [] then Some([])
    else
      var first, rest := Process(items[0], t, name, make), ProcessAll(items[1..], t, name, make);
      if first.None? || rest.None? then None else Some([first.value] + rest.value)
  }

  function ProcessEach(items: seq<Val>, ts: seq<Ty>, name: string, make: bool): Option<seq<Val>>
    requires |items| == |ts|
    decreases items, 0
  {
    if items == [] then Some([])
    else
      var first, rest := Process(items[0], ts[0], name, make), ProcessEach(items[1..], ts[1..], name, make);
      if first.None? || rest.None? then None else Some([first.value] + rest.value)
  }

  /** Socket addresses: a string and up to three numbers; what follows is dropped. */
  function ProcessPeer(items: seq<Val>, i: nat): Option<seq<Val>> {
    if items == [] || i >= 4 then Some([])
    else
      var first, rest := Scalar(items[0], PeerType(i)), ProcessPeer(items[1..], i + 1);
      if first.None? || rest.None? then None else Some([first.value] + rest.value)
  }

  function ProcessEntry(e: Entry, kt: Ty, vt: Ty, name: string, make: bool): Option<Entry>
    decreases e, 0
  {
    var key, value := Process(e.key, kt, name, make), Process(e.value, vt, name, make);
    if key.None? || value.None? || !Hashable(key.value) then None else Some(Entry(key.value, value.value))
  }

  /** The last entry is put in last. */
  function ProcessEntries(entries: seq<Entry>, kt: Ty, vt: Ty, name: string, make: bool): Option<seq<Entry>>
    decreases entries, 0
  {
    if entries == [] then Some([])
    else
      var n := |entries| - 1;
      var before, last := ProcessEntries(entries[..n], kt, vt, name, make), ProcessEntry(entries[n], kt, vt, name, make);
      if before.None? || last.None? then None else Some(Put(before.value, last.value))
  }

  /** `get_state`: a dict of the states of the fields. */
  function GetState(v: Val): Option<Val> {
    if v.Object? then FieldsState(v.fields, v.cls.fields) else None
  }

  function FieldsState(values: seq<Val>, fields: seq<Field>): Option<Val>
    decreases values, 1
  {
    if |values| != |fields| then None
    else
      var entries := GetFields(values, fields);
      if entries.None? then None else Some(Dict(entries.value))
  }

  function GetFields(values: seq<Val>, fields: seq<Field>): Option<seq<Entry>>
    requires |values| == |fields|
    decreases values, 0
  {
    if values == [] then Some([])
    else
      var first, rest := Process(values[0], fields[0].ty, fields[0].name, false), GetFields(values[1..], fields[1..]);
      if first.None? || rest.None? then None else Some([Entry(Str(fields[0].name), first.value)] + rest.value)
  }

  predicate IsFieldName(fields: seq<Field>, key: Val) {
    exists i :: 0 <= i < |fields| && key == Str(fields[i].name)
  }

  /** `from_state`: every field must be there, and nothing else. */
  function FromState(state: Val, cls: Class): Option<Val>
    decreases state, cls
  {
    if !state.Dict? then None
    else
      var values := FromFields(state.entries, cls.fields);
      if values.None? || exists i :: 0 <= i < |state.entries| && !IsFieldName(cls.fields, state.entries[i].key) then None
      else Some(Object(cls, values.value))
  }

  function FromFields(entries: seq<Entry>, fields: seq<Field>): Option<seq<Val>>
    decreases entries, |fields|
  {
    if fields == [] then Some([])
    else
      var i := KeyIndex(entries, Str(fields[0].name));
      if i == |entries| then None
      else
        var first, rest := FromField(entries[i], fields[0]), FromFields(entries, fields[1..]);
        if first.None? || rest.None? then None else Some([first.value] + rest.value)
  }

  function FromField(e: Entry, field: Field): Option<Val>
    decreases e, 0
  {
    Process(e.value, field.ty, field.name, true)
  }

  // ----- well-typed values -----

  /** Values that are their own state and that a store keeps as they are. */
  predicate IsPlain(v: Val) {
    !v.List? && !v.Tuple? && !v.Dict? && !v.Object?
  }

  /** The types whose states can be keys. */
  predicate IsKeyType(t: Ty) {
    match t
    case OrNone(t') => IsKeyType(t')
    case _ => t.Literal? || t.EnumTy? || t.IntTy? || t.FloatTy? || t.StrTy? || t.BytesTy? || t.BoolTy?
  }

  predicate WellTyped(v: Val, t: Ty, name: string)
    decreases v, t, 1
  {
    match t
    case Literal(vals) => v in vals && IsPlain(v)
    case OrNone(t') => v.Null? || WellTyped(v, t', name)
    case _ => !v.Null? && PresentTyped(v, t, name)
  }

  predicate PresentTyped(v: Val, t: Ty, name: string)
    requires !t.Literal? && !t.OrNone?
    decreases v, t, 0
  {
    match t
    case ClassTy(cls) => v.Object? && v.cls == cls && |v.fields| == |cls.fields| && FieldsTyped(v.fields, cls.fields)
    case ListOf(t') => (v.List? || v.Tuple?) && AllTyped(v.items, t', name)
    case TupleOf(ts) =>
      v.Tuple? && if IsPeer(name) then PeerTyped(v.items, 0) else |ts| == |v.items| && EachTyped(v.items, ts, name)
    case DictOf(kt, vt) => v.Dict? && IsKeyType(kt) && EntriesTyped(v.entries, kt, vt, name)
    case EnumTy(enumName, values) => v.Member? && v.enumName == enumName && v.value in values && !v.value.Null? && IsPlain(v.value)
    case _ => Scalar(v, t) == Some(v)
  }

  predicate AllTyped(items: seq<Val>, t: Ty, name: string)
    decreases items, t, 0
  {
    items == [] || (WellTyped(items[0], t, name) && AllTyped(items[1..], t, name))
  }

  predicate EachTyped(items: seq<Val>, ts: seq<Ty>, name: string)
    requires |items| == |ts|
    decreases items, 0
  {
    items == [] || (WellTyped(items[0], ts[0], name) && EachTyped(items[1..], ts[1..], name))
  }

  predicate PeerTyped(items: seq<Val>, i: nat) {
    |items| + i <= 4 && (items == [] || (Scalar(items[0], PeerType(i)) == Some(items[0]) && PeerTyped(items[1..], i + 1)))
  }

  predicate EntryTyped(e: Entry, kt: Ty, vt: Ty, name: string)
    decreases e, 0
  {
    WellTyped(e.key, kt, name) && WellTyped(e.value, vt, name)
  }

  predicate NewKey(entries: seq<Entry>, key: Val) {
    forall i :: 0 <= i < |entries| ==> entries[i].key != key
  }

  predicate EntriesTyped(entries: seq<Entry>, kt: Ty, vt: Ty, name: string)
    decreases entries, 0
  {
    entries == [] ||
    (var n := |entries| - 1;
     EntriesTyped(entries[..n], kt, vt, name) && EntryTyped(entries[n], kt, vt, name) && NewKey(entries[..n], entries[n].key))
  }

  /** The fields of a class have different names. */
  predicate FieldsTyped(values: seq<Val>, fields: seq<Field>)
    requires |values| == |fields|
    decreases values, 0
  {
    values == [] ||
    (&& WellTyped(values[0], fields[0].ty, fields[0].name)
     && (forall i :: 0 < i < |fields| ==> fields[i].name != fields[0].name)
     && FieldsTyped(values[1..], fields[1..]))
  }

  // ----- stores -----

  /** What a store does to a state besides keeping it: it may make lists of tuples, and it may give the entries
      of dicts back last entry first. */
  datatype Store = Store(lists: bool, reversed: bool) {
    function Next<T>(entries: seq<T>, e: T): seq<T> {
      if reversed then [e] + entries else entries + [e]
    }
  }

  // ----- what is read back -----

  /** The value with every sequence of a list type turned into a list. */
  function AsRead(v: Val, t: Ty, name: string, st: Store): Val
    decreases v, t, 1
  {
    match t
    case OrNone(t') => if v.Null? then Null else AsRead(v, t', name, st)
    case ClassTy(_) => if v.Object? && |v.fields| == |v.cls.fields| then Object(v.cls, ReadFields(v.fields, v.cls.fields, st)) else v
    case ListOf(t') => if v.List? || v.Tuple? then List(ReadAll(v.items, t', name, st)) else v
    case TupleOf(ts) => if v.Tuple? && !IsPeer(name) && |ts| == |v.items| then Tuple(ReadEach(v.items, ts, name, st)) else v
    case DictOf(kt, vt) => if v.Dict? then Dict(ReadEntries(v.entries, vt, name, st)) else v
    case _ => v
  }

  function ReadAll(items: seq<Val>, t: Ty, name: string, st: Store): seq<Val>
    decreases items, t, 0
  {
    if items == [] then [] else [AsRead(items[0], t, name, st)] + ReadAll(items[1..], t, name, st)
  }

  function ReadEach(items: seq<Val>, ts: seq<Ty>, name: string, st: Store): seq<Val>
    requires |items| == |ts|
    decreases items, 0
  {
    if items == [] then [] else [AsRead(items[0], ts[0], name, st)] + ReadEach(items[1..], ts[1..], name, st)
  }

  function ReadEntry(e: Entry, vt: Ty, name: string, st: Store): Entry
    decreases e, 0
  {
    Entry(e.key, AsRead(e.value, vt, name, st))
  }

  function ReadEntries(entries: seq<Entry>, vt: Ty, name: string, st: Store): (r: seq<Entry>)
    ensures |r| == |entries| && forall i :: 0 <= i < |r| ==> r[i].key == entries[Place(st, |r|, i)].key
    decreases entries, 0
  {
    if entries == [] then []
    else
      st.Next(ReadEntries(entries[..|entries| - 1], vt, name, st), ReadEntry(entries[|entries| - 1], vt, name, st))
  }

  /** Where the i-th of n entries ends up. */
  function Place(st: Store, n: nat, i: nat): (j: nat)
    requires i < n
    ensures j < n && (i == if st.reversed then n - 1 - j else j)
  {
    if st.reversed then n - 1 - i else i
  }

  function ReadFields(values: seq<Val>, fields: seq<Field>, st: Store): seq<Val>
    requires |values| == |fields|
    decreases values, 0
  {
    if values == [] then [] else [AsRead(values[0], fields[0].ty, fields[0].name, st)] + ReadFields(values[1..], fields[1..], st)
  }

  // ----- what a store gives back -----

  function Stored(v: Val, st: Store): Val
    decreases v
  {
    match v
    case List(items) => List(StoredAll(items, st))
    case Tuple(items) => if st.lists then List(StoredAll(items, st)) else Tuple(StoredAll(items, st))
    case Dict(entries) => Dict(StoredEntries(entries, st))
    case _ => v
  }

  function StoredAll(items: seq<Val>, st: Store): seq<Val>
    decreases items
  {
    if items == [] then [] else [Stored(items[0], st)] + StoredAll(items[1..], st)
  }

  function StoredEntry(e: Entry, st: Store): Entry
    decreases e
  {
    Entry(Stored(e.key, st), Stored(e.value, st))
  }

  function StoredEntries(entries: seq<Entry>, st: Store): (r: seq<Entry>)
    ensures |r| == |entries|
    decreases entries
  {
    if entries == [] then []
    else
      st.Next(StoredEntries(entries[..|entries| - 1], st), StoredEntry(entries[|entries| - 1], st))
  }

  lemma {:induction false} StoredEntryAt(entries: seq<Entry>, st: Store, i: nat)
    requires i < |entries|
    ensures StoredEntries(entries, st)[i]
         == Entry(Stored(entries[Place(st, |entries|, i)].key, st), Stored(entries[Place(st, |entries|, i)].value, st))
    decreases |entries|
  {
    var n := |entries| - 1;
    if st.reversed {
      if i > 0 {
        StoredEntryAt(entries[..n], st, i - 1);
      }
    } else if i < n {
      StoredEntryAt(entries[..n], st, i);
    }
  }

  // ----- the round trip -----

  /** The value has a state, the state is not None unless the value is, and it reads back as the value. */
  ghost predicate ComesBack(v: Val, t: Ty, name: string, st: Store) {
    var s := Process(v, t, name, false);
    && s.Some? && (s.value.Null? ==> v.Null?)
    && Process(Stored(s.value, st), t, name, true) == Some(AsRead(v, t, name, st))
  }

  /** Converting to a state, storing it and converting back returns the value, with sequences read back as lists. */
  lemma {:induction false} RoundTrip(v: Val, t: Ty, name: string, st: Store)
    requires WellTyped(v, t, name)
    ensures ComesBack(v, t, name, st)
    decreases v, t, 1
  {
    match t {
      case Literal(_) =>
      case OrNone(t') =>
        if !v.Null? {
          RoundTrip(v, t', name, st);
        }
      case ListOf(t') => ListComesBack(v, t', name, st);
      case TupleOf(ts) => TupleComesBack(v, ts, name, st);
      case DictOf(kt, vt) => DictComesBack(v, kt, vt, name, st);
      case ClassTy(cls) => ObjectComesBack(v, cls, name, st);
      case EnumTy(_, _) =>
      case _ => ScalarComesBack(v, t, name, st);
    }
  }

  lemma ScalarComesBack(v: Val, t: Ty, name: string, st: Store)
    requires Scalar(v, t) == Some(v)
    ensures Process(v, t, name, false) == Some(v) && Process(v, t, name, true) == Some(v)
    ensures Stored(v, st) == v && AsRead(v, t, name, st) == v && Hashable(v) && !v.Null?
  {
  }

  lemma {:induction false} ListComesBack(v: Val, t: Ty, name: string, st: Store)
    requires PresentTyped(v, ListOf(t), name)
    ensures ComesBack(v, ListOf(t), name, st)
    decreases v, ListOf(t), 0
  {
    AllComeBack(v.items, t, name, st);
    var ss := ProcessAll(v.items, t, name, false).value;
    assert Process(v, ListOf(t), name, false) == Some(List(ss));
    assert Stored(List(ss), st) == List(StoredAll(ss, st));
  }

  lemma {:induction false} TupleComesBack(v: Val, ts: seq<Ty>, name: string, st: Store)
    requires PresentTyped(v, TupleOf(ts), name)
    ensures ComesBack(v, TupleOf(ts), name, st)
    decreases v, TupleOf(ts), 0
  {
    if IsPeer(name) {
      PeerComesBack(v.items, 0, st);
      assert Process(v, TupleOf(ts), name, false) == Some(Tuple(v.items));
    } else {
      EachComesBack(v.items, ts, name, st);
      assert Process(v, TupleOf(ts), name, false) == Some(Tuple(ProcessEach(v.items, ts, name, false).value));
    }
  }

  lemma {:induction false} DictComesBack(v: Val, kt: Ty, vt: Ty, name: string, st: Store)
    requires PresentTyped(v, DictOf(kt, vt), name)
    ensures ComesBack(v, DictOf(kt, vt), name, st)
    decreases v, DictOf(kt, vt), 0
  {
    EntriesComeBack(v.entries, kt, vt, name, st);
    assert Process(v, DictOf(kt, vt), name, false) == Some(Dict(ProcessEntries(v.entries, kt, vt, name, false).value));
  }

  lemma {:induction false} AllComeBack(items: seq<Val>, t: Ty, name: string, st: Store)
    requires AllTyped(items, t, name)
    ensures ProcessAll(items, t, name, false).Some?
    ensures ProcessAll(StoredAll(ProcessAll(items, t, name, false).value, st), t, name, true) == Some(ReadAll(items, t, name, st))
    decreases items, t, 0
  {
    if items != [] {
      RoundTrip(items[0], t, name, st);
      AllComeBack(items[1..], t, name, st);
      StoredFirst(Process(items[0], t, name, false).value, ProcessAll(items[1..], t, name, false).value, st);
    }
  }

  lemma StoredFirst(first: Val, rest: seq<Val>, st: Store)
    ensures StoredAll([first] + rest, st) == [Stored(first, st)] + StoredAll(rest, st)
  {
    assert ([first] + rest)[1..] == rest;
  }

  lemma {:induction false} EachComesBack(items: seq<Val>, ts: seq<Ty>, name: string, st: Store)
    requires |items| == |ts| && EachTyped(items, ts, name)
    ensures ProcessEach(items, ts, name, false).Some?
    ensures var ss := StoredAll(ProcessEach(items, ts, name, false).value, st);
      |ss| == |ts| && ProcessEach(ss, ts, name, true) == Some(ReadEach(items, ts, name, st))
    decreases items, 0
  {
    if items != [] {
      RoundTrip(items[0], ts[0], name, st);
      EachComesBack(items[1..], ts[1..], name, st);
      StoredFirst(Process(items[0], ts[0], name, false).value, ProcessEach(items[1..], ts[1..], name, false).value, st);
    }
  }

  lemma {:induction false} PeerComesBack(items: seq<Val>, i: nat, st: Store)
    requires PeerTyped(items, i)
    ensures ProcessPeer(items, i) == Some(items) && StoredAll(items, st) == items
    decreases |items|
  {
    if items != [] {
      PeerComesBack(items[1..], i + 1, st);
      ScalarComesBack(items[0], PeerType(i), "", st);
      assert [items[0]] + items[1..] == items;
    }
  }

  lemma {:induction false} PutNew(entries: seq<Entry>, e: Entry)
    requires NewKey(entries, e.key)
    ensures Put(entries, e) == entries + [e]
  {
  }

  lemma {:induction false} EntriesComeBack(entries: seq<Entry>, kt: Ty, vt: Ty, name: string, st: Store)
    requires IsKeyType(kt) && EntriesTyped(entries, kt, vt, name)
    ensures var es := ProcessEntries(entries, kt, vt, name, false);
      && es.Some? && |es.value| == |entries|
      && (forall i :: 0 <= i < |entries| ==> Process(entries[i].key, kt, name, false) == Some(es.value[i].key))
      && ProcessEntries(StoredEntries(es.value, st), kt, vt, name, true) == Some(ReadEntries(entries, vt, name, st))
    decreases entries, 0
  {
    if entries != [] {
      var n := |entries| - 1;
      EntriesComeBack(entries[..n], kt, vt, name, st);
      EntryComesBack(entries[n], kt, vt, name, st);
      var before, last := ProcessEntries(entries[..n], kt, vt, name, false).value, ProcessEntry(entries[n], kt, vt, name, false).value;
      LastOf(entries);
      KeysApart(entries[..n], entries[n].key, kt, vt, name, before, last.key);
      ProcessSnoc(entries[..n], entries[n], kt, vt, name, false, before, last);
      StoredBack(entries, before, last, kt, vt, name, st);
    }
  }

  lemma StoredBack(entries: seq<Entry>, before: seq<Entry>, last: Entry, kt: Ty, vt: Ty, name: string, st: Store)
    requires entries != [] && NewKey(entries[..|entries| - 1], entries[|entries| - 1].key)
    requires ProcessEntries(StoredEntries(before, st), kt, vt, name, true) == Some(ReadEntries(entries[..|entries| - 1], vt, name, st))
    requires ProcessEntry(StoredEntry(last, st), kt, vt, name, true) == Some(ReadEntry(entries[|entries| - 1], vt, name, st))
    ensures ProcessEntries(StoredEntries(before + [last], st), kt, vt, name, true) == Some(ReadEntries(entries, vt, name, st))
  {
    var n := |entries| - 1;
    StoredLast(before, last, st);
    ReadKeysNew(entries[..n], entries[n].key, vt, name, st);
    ProcessNext(StoredEntries(before, st), StoredEntry(last, st), kt, vt, name,
                ReadEntries(entries[..n], vt, name, st), ReadEntry(entries[n], vt, name, st), st);
  }

  lemma LastOf(entries: seq<Entry>)
    requires entries != []
    ensures entries == entries[..|entries| - 1] + [entries[|entries| - 1]]
  {
  }

  lemma ProcessSnoc(entries: seq<Entry>, e: Entry, kt: Ty, vt: Ty, name: string, make: bool, before: seq<Entry>, last: Entry)
    requires ProcessEntries(entries, kt, vt, name, make) == Some(before) && ProcessEntry(e, kt, vt, name, make) == Some(last)
    requires NewKey(before, last.key)
    ensures ProcessEntries(entries + [e], kt, vt, name, make) == Some(before + [last])
  {
    assert (entries + [e])[..|entries|] == entries;
    PutNew(before, last);
  }

  lemma StoredLast(before: seq<Entry>, last: Entry, st: Store)
    ensures StoredEntries(before + [last], st) == st.Next(StoredEntries(before, st), StoredEntry(last, st))
  {
    assert (before + [last])[..|before|] == before;
  }

  lemma PutCons(first: Entry, entries: seq<Entry>, e: Entry)
    requires first.key != e.key
    ensures Put([first] + entries, e) == [first] + Put(entries, e)
  {
    assert ([first] + entries)[1..] == entries;
  }

  lemma PutKeys(entries: seq<Entry>, e: Entry, key: Val)
    requires NewKey(Put(entries, e), key)
    ensures NewKey(entries, key) && e.key != key
  {
    var i := KeyIndex(entries, e.key);
    assert Put(entries, e)[i] == e;
    forall j | 0 <= j < |entries| ensures entries[j].key != key {
      assert Put(entries, e)[j] == if j == i then e else entries[j];
    }
  }

  lemma {:induction false} ProcessCons(e: Entry, entries: seq<Entry>, kt: Ty, vt: Ty, name: string, make: bool, first: Entry, rest: seq<Entry>)
    requires ProcessEntries(entries, kt, vt, name, make) == Some(rest) && ProcessEntry(e, kt, vt, name, make) == Some(first)
    requires NewKey(rest, first.key)
    ensures ProcessEntries([e] + entries, kt, vt, name, make) == Some([first] + rest)
    decreases |entries|
  {
    if entries == [] {
      ProcessOne(e, kt, vt, name, make, first);
      assert [e] + entries == [e] && [first] + rest == [first];
    } else {
      ProcessSplit(entries, kt, vt, name, make, rest);
      var n := |entries| - 1;
      var before, last := ProcessEntries(entries[..n], kt, vt, name, make).value, ProcessEntry(entries[n], kt, vt, name, make).value;
      ConsPut(first, before, last, rest);
      ProcessCons(e, entries[..n], kt, vt, name, make, first, before);
      ConsStep(e, entries, kt, vt, name, make, [first] + before, last);
    }
  }

  lemma ProcessOne(e: Entry, kt: Ty, vt: Ty, name: string, make: bool, first: Entry)
    requires ProcessEntry(e, kt, vt, name, make) == Some(first)
    ensures ProcessEntries([e], kt, vt, name, make) == Some([first])
  {
    assert [e][..0] == [];
    ProcessPut([e], kt, vt, name, make, [], first);
    PutNew([], first);
    assert [] + [first] == [first];
  }

  lemma ProcessSplit(entries: seq<Entry>, kt: Ty, vt: Ty, name: string, make: bool, rest: seq<Entry>)
    requires entries != [] && ProcessEntries(entries, kt, vt, name, make) == Some(rest)
    ensures var n := |entries| - 1;
      var before, last := ProcessEntries(entries[..n], kt, vt, name, make), ProcessEntry(entries[n], kt, vt, name, make);
      before.Some? && last.Some? && rest == Put(before.value, last.value)
  {
  }

  lemma ConsStep(e: Entry, entries: seq<Entry>, kt: Ty, vt: Ty, name: string, make: bool, before: seq<Entry>, last: Entry)
    requires entries != []
    requires ProcessEntries([e] + entries[..|entries| - 1], kt, vt, name, make) == Some(before)
    requires ProcessEntry(entries[|entries| - 1], kt, vt, name, make) == Some(last)
    ensures ProcessEntries([e] + entries, kt, vt, name, make) == Some(Put(before, last))
  {
    LastOfCons(e, entries);
    ProcessPut([e] + entries, kt, vt, name, make, before, last);
  }

  lemma LastOfCons(e: Entry, entries: seq<Entry>)
    requires entries != []
    ensures ([e] + entries)[..|entries|] == [e] + entries[..|entries| - 1]
  {
  }

  lemma ConsPut(first: Entry, before: seq<Entry>, last: Entry, rest: seq<Entry>)
    requires rest == Put(before, last) && NewKey(rest, first.key)
    ensures NewKey(before, first.key) && Put([first] + before, last) == [first] + rest
  {
    PutKeys(before, last, first.key);
    PutCons(first, before, last);
  }

  lemma ProcessPut(entries: seq<Entry>, kt: Ty, vt: Ty, name: string, make: bool, before: seq<Entry>, last: Entry)
    requires entries != [] && ProcessEntries(entries[..|entries| - 1], kt, vt, name, make) == Some(before)
    requires ProcessEntry(entries[|entries| - 1], kt, vt, name, make) == Some(last)
    ensures ProcessEntries(entries, kt, vt, name, make) == Some(Put(before, last))
  {
  }

  lemma ProcessNext(entries: seq<Entry>, e: Entry, kt: Ty, vt: Ty, name: string, before: seq<Entry>, last: Entry, st: Store)
    requires ProcessEntries(entries, kt, vt, name, true) == Some(before) && ProcessEntry(e, kt, vt, name, true) == Some(last)
    requires NewKey(before, last.key)
    ensures ProcessEntries(st.Next(entries, e), kt, vt, name, true) == Some(st.Next(before, last))
  {
    if st.reversed {
      ProcessCons(e, entries, kt, vt, name, true, last, before);
    } else {
      ProcessSnoc(entries, e, kt, vt, name, true, before, last);
    }
  }

  lemma ReadKeysNew(entries: seq<Entry>, key: Val, vt: Ty, name: string, st: Store)
    requires NewKey(entries, key)
    ensures NewKey(ReadEntries(entries, vt, name, st), key)
  {
  }

  lemma {:induction false} EntryComesBack(e: Entry, kt: Ty, vt: Ty, name: string, st: Store)
    requires IsKeyType(kt) && EntryTyped(e, kt, vt, name)
    ensures var s := ProcessEntry(e, kt, vt, name, false);
      && s.Some? && Process(e.key, kt, name, false) == Some(s.value.key)
      && ProcessEntry(StoredEntry(s.value, st), kt, vt, name, true) == Some(ReadEntry(e, vt, name, st))
    decreases e, 0
  {
    KeyComesBack(e.key, kt, name, st);
    RoundTrip(e.value, vt, name, st);
  }

  /** A key has a state that can be a key, that every store keeps, and that reads back as the key. */
  lemma {:induction false} KeyComesBack(key: Val, kt: Ty, name: string, st: Store)
    requires IsKeyType(kt) && WellTyped(key, kt, name)
    ensures var s := Process(key, kt, name, false);
      s.Some? && IsPlain(s.value) && Stored(s.value, st) == s.value && Process(s.value, kt, name, true) == Some(key)
    ensures Hashable(key) && IsPlain(key)
    decreases kt
  {
    match kt {
      case OrNone(t) =>
        if !key.Null? {
          KeyComesBack(key, t, name, st);
          KeyNotNull(key, t, name);
        }
      case Literal(_) =>
      case EnumTy(_, _) =>
      case _ => ScalarComesBack(key, kt, name, st);
    }
  }

  lemma {:induction false} KeyNotNull(key: Val, kt: Ty, name: string)
    requires IsKeyType(kt) && WellTyped(key, kt, name) && !key.Null?
    ensures Process(key, kt, name, false).Some? && !Process(key, kt, name, false).value.Null?
    decreases kt
  {
    match kt {
      case OrNone(t) => KeyNotNull(key, t, name);
      case Literal(_) =>
      case EnumTy(_, _) =>
      case _ => ScalarComesBack(key, kt, name, Store(false, false));
    }
  }

  /** Different keys have different states, because states read back. */
  lemma KeysApart(entries: seq<Entry>, key: Val, kt: Ty, vt: Ty, name: string, states: seq<Entry>, state: Val)
    requires IsKeyType(kt) && WellTyped(key, kt, name) && NewKey(entries, key) && Process(key, kt, name, false) == Some(state)
    requires |states| == |entries| && EntriesTyped(entries, kt, vt, name)
    requires forall i :: 0 <= i < |entries| ==> Process(entries[i].key, kt, name, false) == Some(states[i].key)
    ensures NewKey(states, state)
  {
    KeyComesBack(key, kt, name, Store(false, false));
    EachKeyTyped(entries, kt, vt, name);
    forall i | 0 <= i < |states| ensures states[i].key != state {
      KeyComesBack(entries[i].key, kt, name, Store(false, false));
    }
  }

  lemma {:induction false} EachKeyTyped(entries: seq<Entry>, kt: Ty, vt: Ty, name: string)
    requires EntriesTyped(entries, kt, vt, name)
    ensures forall i :: 0 <= i < |entries| ==> WellTyped(entries[i].key, kt, name)
    ensures forall i, j :: 0 <= i < j < |entries| ==> entries[i].key != entries[j].key
    decreases |entries|
  {
    if entries != [] {
      EachKeyTyped(entries[..|entries| - 1], kt, vt, name);
    }
  }

  ghost predicate FieldsComeBack(values: seq<Val>, fields: seq<Field>, st: Store)
    requires |values| == |fields|
  {
    forall i :: 0 <= i < |fields| ==> ComesBack(values[i], fields[i].ty, fields[i].name, st)
  }

  lemma {:induction false} EachFieldComesBack(values: seq<Val>, fields: seq<Field>, st: Store)
    requires |values| == |fields| && FieldsTyped(values, fields)
    ensures FieldsComeBack(values, fields, st)
    decreases values, 0
  {
    if values != [] {
      RoundTrip(values[0], fields[0].ty, fields[0].name, st);
      EachFieldComesBack(values[1..], fields[1..], st);
      assert forall i :: 0 < i < |fields| ==> values[i] == values[1..][i - 1] && fields[i] == fields[1..][i - 1];
    }
  }

  predicate DistinctNames(fields: seq<Field>) {
    forall i, j :: 0 <= i < j < |fields| ==> fields[i].name != fields[j].name
  }

  lemma {:induction false} TypedNames(values: seq<Val>, fields: seq<Field>)
    requires |values| == |fields| && FieldsTyped(values, fields)
    ensures DistinctNames(fields)
    decreases |values|
  {
    if values != [] {
      TypedNames(values[1..], fields[1..]);
      assert forall i :: 0 < i < |fields| ==> fields[i] == fields[1..][i - 1];
    }
  }

  ghost predicate IsEntryOf(e: Entry, value: Val, field: Field, st: Store) {
    && ComesBack(value, field.ty, field.name, st)
    && e == Entry(Str(field.name), Stored(Process(value, field.ty, field.name, false).value, st))
  }

  /** The dict of states: one entry for every field, under its name. */
  ghost predicate IsStateOf(entries: seq<Entry>, values: seq<Val>, fields: seq<Field>, st: Store)
    requires |values| == |fields| && FieldsComeBack(values, fields, st)
  {
    && |entries| == |fields|
    && forall i :: 0 <= i < |fields| ==> IsEntryOf(entries[Place(st, |fields|, i)], values[i], fields[i], st)
  }

  lemma {:induction false} GotFields(values: seq<Val>, fields: seq<Field>, st: Store)
    requires |values| == |fields| && FieldsComeBack(values, fields, st)
    ensures GetFields(values, fields).Some? && |GetFields(values, fields).value| == |fields|
    ensures forall i :: 0 <= i < |fields| ==>
      GetFields(values, fields).value[i].key == Str(fields[i].name)
    ensures forall i :: 0 <= i < |fields| ==>
      Some(GetFields(values, fields).value[i].value) == Process(values[i], fields[i].ty, fields[i].name, false)
    decreases |values|
  {
    if values != [] {
      assert ComesBack(values[0], fields[0].ty, fields[0].name, st);
      assert forall i :: 0 <= i < |fields[1..]| ==> values[1..][i] == values[i + 1] && fields[1..][i] == fields[i + 1];
      GotFields(values[1..], fields[1..], st);
    }
  }

  lemma {:induction false} KeyIndexIs(entries: seq<Entry>, key: Val, k: nat)
    requires k < |entries| && entries[k].key == key && forall i :: 0 <= i < k ==> entries[i].key != key
    ensures KeyIndex(entries, key) == k
  {
    if k > 0 {
      KeyIndexIs(entries[1..], key, k - 1);
    }
  }

  /** A field is found where the store has put it. */
  lemma FieldAt(entries: seq<Entry>, values: seq<Val>, fields: seq<Field>, st: Store, k: nat)
    requires |values| == |fields| && FieldsComeBack(values, fields, st) && DistinctNames(fields)
    requires IsStateOf(entries, values, fields, st) && k < |fields|
    ensures KeyIndex(entries, Str(fields[k].name)) == Place(st, |fields|, k)
    ensures IsEntryOf(entries[Place(st, |fields|, k)], values[k], fields[k], st)
  {
    var n, i := |fields|, Place(st, |fields|, k);
    assert IsEntryOf(entries[i], values[k], fields[k], st);
    forall j | 0 <= j < i ensures entries[j].key != Str(fields[k].name) {
      assert IsEntryOf(entries[Place(st, n, Place(st, n, j))], values[Place(st, n, j)], fields[Place(st, n, j)], st);
    }
    KeyIndexIs(entries, Str(fields[k].name), i);
  }

  lemma {:induction false} FieldsRead(entries: seq<Entry>, values: seq<Val>, fields: seq<Field>, st: Store, k: nat)
    requires |values| == |fields| && FieldsComeBack(values, fields, st) && DistinctNames(fields)
    requires IsStateOf(entries, values, fields, st) && k <= |fields|
    ensures FromFields(entries, fields[k..]) == Some(ReadFields(values[k..], fields[k..], st))
    decreases |fields| - k
  {
    if k < |fields| {
      FieldAt(entries, values, fields, st, k);
      FieldsRead(entries, values, fields, st, k + 1);
      assert fields[k..][1..] == fields[k + 1..] && values[k..][1..] == values[k + 1..];
    }
  }

  lemma {:induction false} ObjectComesBack(v: Val, cls: Class, name: string, st: Store)
    requires v.Object? && v.cls == cls && |v.fields| == |cls.fields| && FieldsTyped(v.fields, cls.fields)
    ensures ComesBack(v, ClassTy(cls), name, st)
    decreases v, ClassTy(cls), 0
  {
    StateComesBack(v, cls, st);
    assert Process(v, ClassTy(cls), name, false) == GetState(v);
    var stored := Stored(GetState(v).value, st);
    assert Process(stored, ClassTy(cls), name, true) == FromState(stored, cls);
  }

  /** `from_state(get_state())` gives the object back. */
  lemma {:induction false} StateComesBack(v: Val, cls: Class, st: Store)
    requires v.Object? && v.cls == cls && |v.fields| == |cls.fields| && FieldsTyped(v.fields, cls.fields)
    ensures GetState(v).Some? && GetState(v).value.Dict?
    ensures FromState(Stored(GetState(v).value, st), cls) == Some(Object(cls, ReadFields(v.fields, cls.fields, st)))
    decreases v.fields, 1
  {
    EachFieldComesBack(v.fields, cls.fields, st);
    TypedNames(v.fields, cls.fields);
    StateReads(v.fields, cls, st);
  }

  lemma StateReads(values: seq<Val>, cls: Class, st: Store)
    requires |values| == |cls.fields| && FieldsComeBack(values, cls.fields, st) && DistinctNames(cls.fields)
    ensures FieldsState(values, cls.fields).Some? && FieldsState(values, cls.fields).value.Dict?
    ensures FromState(Stored(FieldsState(values, cls.fields).value, st), cls) == Some(Object(cls, ReadFields(values, cls.fields, st)))
  {
    GotFields(values, cls.fields, st);
    StoredFields(values, cls.fields, st);
    StoredReads(values, cls, st, StoredEntries(GetFields(values, cls.fields).value, st));
  }

  lemma StoredReads(values: seq<Val>, cls: Class, st: Store, entries: seq<Entry>)
    requires |values| == |cls.fields| && FieldsComeBack(values, cls.fields, st) && DistinctNames(cls.fields)
    requires IsStateOf(entries, values, cls.fields, st)
    requires forall i :: 0 <= i < |cls.fields| ==> IsFieldName(cls.fields, entries[i].key)
    ensures FromState(Dict(entries), cls) == Some(Object(cls, ReadFields(values, cls.fields, st)))
  {
    FieldsRead(entries, values, cls.fields, st, 0);
    assert cls.fields[0..] == cls.fields && values[0..] == values;
    OnlyFields(entries, cls, ReadFields(values, cls.fields, st));
  }

  lemma OnlyFields(entries: seq<Entry>, cls: Class, read: seq<Val>)
    requires FromFields(entries, cls.fields) == Some(read)
    requires forall i :: 0 <= i < |entries| ==> IsFieldName(cls.fields, entries[i].key)
    ensures FromState(Dict(entries), cls) == Some(Object(cls, read))
  {
  }

  lemma StoredFields(values: seq<Val>, fields: seq<Field>, st: Store)
    requires |values| == |fields| && FieldsComeBack(values, fields, st)
    requires GetFields(values, fields).Some? && |GetFields(values, fields).value| == |fields|
    requires forall i :: 0 <= i < |fields| ==> GetFields(values, fields).value[i].key == Str(fields[i].name)
    requires forall i :: 0 <= i < |fields| ==>
      Some(GetFields(values, fields).value[i].value) == Process(values[i], fields[i].ty, fields[i].name, false)
    ensures IsStateOf(StoredEntries(GetFields(values, fields).value, st), values, fields, st)
    ensures forall i :: 0 <= i < |fields| ==> IsFieldName(fields, StoredEntries(GetFields(values, fields).value, st)[i].key)
  {
    var got, n := GetFields(values, fields).value, |fields|;
    var entries := StoredEntries(got, st);
    forall i | 0 <= i < n
      ensures IsEntryOf(entries[Place(st, n, i)], values[i], fields[i], st)
    {
      StoredEntryAt(got, st, Place(st, n, i));
      assert ComesBack(values[i], fields[i].ty, fields[i].name, st);
    }
    forall i | 0 <= i < n ensures IsFieldName(fields, entries[i].key) {
      assert IsEntryOf(entries[Place(st, n, Place(st, n, i))], values[Place(st, n, i)], fields[Place(st, n, i)], st);
    }
  }

  // ----- what a value means -----

  /** A value up to the order of the entries of dicts and up to lists for tuples. */
  datatype Sense = Atom(v: Val) | Items(items: seq<Sense>) | Mapping(entries: map<Val, Sense>) | Instance(cls: Class, fields: seq<Sense>)

  function SenseOf(v: Val): Sense
    decreases v
  {
    match v
    case List(items) => Items(SensesOf(items))
    case Tuple(items) => Items(SensesOf(items))
    case Dict(entries) => Mapping(EntrySenses(entries))
    case Object(cls, fields) => Instance(cls, SensesOf(fields))
    case _ => Atom(v)
  }

  function SensesOf(items: seq<Val>): seq<Sense>
    decreases items
  {
    if items == [] then [] else [SenseOf(items[0])] + SensesOf(items[1..])
  }

  function EntrySense(e: Entry): Sense
    decreases e
  {
    SenseOf(e.value)
  }

  function EntrySenses(entries: seq<Entry>): map<Val, Sense>
    decreases entries
  {
    if entries == [] then map[]
    else EntrySenses(entries[..|entries| - 1])[entries[|entries| - 1].key := EntrySense(entries[|entries| - 1])]
  }

  /** What is read back means what was there. */
  lemma {:induction false} ReadMeansTheSame(v: Val, t: Ty, name: string, st: Store)
    requires WellTyped(v, t, name)
    ensures SenseOf(AsRead(v, t, name, st)) == SenseOf(v)
    decreases v, t, 1
  {
    match t {
      case OrNone(t') =>
        if !v.Null? {
          ReadMeansTheSame(v, t', name, st);
        }
      case ListOf(t') => AllMeanTheSame(v.items, t', name, st);
      case TupleOf(ts) =>
        if !IsPeer(name) {
          EachMeansTheSame(v.items, ts, name, st);
        }
      case DictOf(kt, vt) => EntriesMeanTheSame(v.entries, kt, vt, name, st);
      case ClassTy(cls) => FieldsMeanTheSame(v.fields, cls.fields, st);
      case _ =>
    }
  }

  lemma SenseFirst(first: Val, rest: seq<Val>)
    ensures SensesOf([first] + rest) == [SenseOf(first)] + SensesOf(rest)
  {
    assert ([first] + rest)[1..] == rest;
  }

  lemma {:induction false} AllMeanTheSame(items: seq<Val>, t: Ty, name: string, st: Store)
    requires AllTyped(items, t, name)
    ensures SensesOf(ReadAll(items, t, name, st)) == SensesOf(items)
    decreases items, t, 0
  {
    if items != [] {
      ReadMeansTheSame(items[0], t, name, st);
      AllMeanTheSame(items[1..], t, name, st);
      SenseFirst(AsRead(items[0], t, name, st), ReadAll(items[1..], t, name, st));
    }
  }

  lemma {:induction false} EachMeansTheSame(items: seq<Val>, ts: seq<Ty>, name: string, st: Store)
    requires |items| == |ts| && EachTyped(items, ts, name)
    ensures SensesOf(ReadEach(items, ts, name, st)) == SensesOf(items)
    decreases items, 0
  {
    if items != [] {
      ReadMeansTheSame(items[0], ts[0], name, st);
      EachMeansTheSame(items[1..], ts[1..], name, st);
      SenseFirst(AsRead(items[0], ts[0], name, st), ReadEach(items[1..], ts[1..], name, st));
    }
  }

  lemma {:induction false} FieldsMeanTheSame(values: seq<Val>, fields: seq<Field>, st: Store)
    requires |values| == |fields| && FieldsTyped(values, fields)
    ensures |ReadFields(values, fields, st)| == |values| && SensesOf(ReadFields(values, fields, st)) == SensesOf(values)
    decreases values, 0
  {
    if values != [] {
      ReadMeansTheSame(values[0], fields[0].ty, fields[0].name, st);
      FieldsMeanTheSame(values[1..], fields[1..], st);
      SenseFirst(AsRead(values[0], fields[0].ty, fields[0].name, st), ReadFields(values[1..], fields[1..], st));
    }
  }

  lemma {:induction false} EntriesMeanTheSame(entries: seq<Entry>, kt: Ty, vt: Ty, name: string, st: Store)
    requires EntriesTyped(entries, kt, vt, name)
    ensures EntrySenses(ReadEntries(entries, vt, name, st)) == EntrySenses(entries)
    decreases entries, 0
  {
    if entries != [] {
      var n := |entries| - 1;
      EntriesMeanTheSame(entries[..n], kt, vt, name, st);
      EntryMeansTheSame(entries[n], kt, vt, name, st);
      ReadKeysNew(entries[..n], entries[n].key, vt, name, st);
      SenseNext(ReadEntries(entries[..n], vt, name, st), ReadEntry(entries[n], vt, name, st), st);
    }
  }

  lemma {:induction false} EntryMeansTheSame(e: Entry, kt: Ty, vt: Ty, name: string, st: Store)
    requires EntryTyped(e, kt, vt, name)
    ensures EntrySense(ReadEntry(e, vt, name, st)) == EntrySense(e)
    decreases e, 0
  {
    ReadMeansTheSame(e.value, vt, name, st);
  }

  lemma SenseNext(entries: seq<Entry>, e: Entry, st: Store)
    requires NewKey(entries, e.key)
    ensures EntrySenses(st.Next(entries, e)) == EntrySenses(entries)[e.key := EntrySense(e)]
  {
    if st.reversed {
      SenseCons(e, entries);
    } else {
      assert (entries + [e])[..|entries|] == entries;
    }
  }

  lemma {:induction false} SenseCons(e: Entry, entries: seq<Entry>)
    requires NewKey(entries, e.key)
    ensures EntrySenses([e] + entries) == EntrySenses(entries)[e.key := EntrySense(e)]
    decreases |entries|
  {
    if entries == [] {
      assert [e] + entries == [e] && [e][..0] == [];
    } else {
      var n := |entries| - 1;
      LastOfCons(e, entries);
      SenseCons(e, entries[..n]);
    }
  }

  // ----- enums -----

  /** A member comes back exactly when its value is not None: a state of None is taken for a missing value. */
  lemma MemberComesBackExactly(enumName: string, values: seq<Val>, x: Val, name: string)
    requires x in values
    ensures Process(Member(enumName, x), EnumTy(enumName, values), name, false) == Some(x)
    ensures var t := EnumTy(enumName, values);
      Process(Process(Member(enumName, x), t, name, false).value, t, name, true) == Some(Member(enumName, x)) <==> !x.Null?
  {
  }

  // ----- set_state -----

  /** A field that holds an object passes a present state on to it; any other field takes the converted value. */
  function SetField(current: Val, state: Val, field: Field): Option<Val>
    decreases current, 1
  {
    if current.Object? && !state.Null? then SetObject(current, state) else Process(state, field.ty, field.name, true)
  }

  /** `set_state`: nothing may be left over. */
  function SetObject(current: Val, state: Val): Option<Val>
    requires current.Object?
    decreases current, 0
  {
    if !state.Dict? || |current.fields| != |current.cls.fields| then None
    else
      var r := SetFields(current.fields, state.entries, current.cls.fields);
      if r.None? || r.value.1 != [] then None else Some(Object(current.cls, r.value.0))
  }

  function Popped(entries: seq<Entry>, i: nat): seq<Entry>
    requires i < |entries|
  {
    entries[..i] + entries[i + 1..]
  }

  /** The new values of the fields and what is left of the state, each field's state being popped. */
  function SetFields(currents: seq<Val>, entries: seq<Entry>, fields: seq<Field>): Option<(seq<Val>, seq<Entry>)>
    requires |currents| == |fields|
    decreases currents, 0
  {
    if fields == [] then Some(([], entries))
    else
      var i := KeyIndex(entries, Str(fields[0].name));
      if i == |entries| then None
      else
        var first := SetField(currents[0], entries[i].value, fields[0]);
        var rest := SetFields(currents[1..], Popped(entries, i), fields[1..]);
        if first.None? || rest.None? then None else Some(([first.value] + rest.value.0, rest.value.1))
  }

  predicate TypedObject(v: Val, cls: Class) {
    v.Object? && v.cls == cls && |v.fields| == |cls.fields| && FieldsTyped(v.fields, cls.fields)
  }

  /** Setting the state of a well-typed object on any well-typed object of its class makes the two equal. */
  lemma {:induction false} SetStateRoundTrip(current: Val, v: Val, cls: Class, st: Store)
    requires TypedObject(current, cls) && TypedObject(v, cls)
    ensures GetState(v).Some?
    ensures SetObject(current, Stored(GetState(v).value, st)) == Some(Object(cls, ReadFields(v.fields, cls.fields, st)))
    decreases current, 1
  {
    EachFieldComesBack(v.fields, cls.fields, st);
    GotFields(v.fields, cls.fields, st);
    StoredFields(v.fields, cls.fields, st);
    StoredState(v, st);
    SetStored(current, v, cls, st, StoredEntries(GetFields(v.fields, cls.fields).value, st));
  }

  lemma StoredState(v: Val, st: Store)
    requires v.Object? && |v.fields| == |v.cls.fields| && GetFields(v.fields, v.cls.fields).Some?
    ensures GetState(v).Some?
    ensures Stored(GetState(v).value, st) == Dict(StoredEntries(GetFields(v.fields, v.cls.fields).value, st))
  {
  }

  lemma {:induction false} SetStored(current: Val, v: Val, cls: Class, st: Store, entries: seq<Entry>)
    requires TypedObject(current, cls) && TypedObject(v, cls)
    requires FieldsComeBack(v.fields, cls.fields, st) && IsStateOf(entries, v.fields, cls.fields, st)
    ensures SetObject(current, Dict(entries)) == Some(Object(cls, ReadFields(v.fields, cls.fields, st)))
    decreases current, 0
  {
    SetEachField(current.fields, entries, v.fields, cls.fields, st);
    AllSet(current, entries, ReadFields(v.fields, cls.fields, st));
  }

  lemma AllSet(current: Val, entries: seq<Entry>, read: seq<Val>)
    requires current.Object? && |current.fields| == |current.cls.fields|
    requires SetFields(current.fields, entries, current.cls.fields) == Some((read, []))
    ensures SetObject(current, Dict(entries)) == Some(Object(current.cls, read))
  {
  }

  lemma {:induction false} SetEachField(currents: seq<Val>, entries: seq<Entry>, values: seq<Val>, fields: seq<Field>, st: Store)
    requires |currents| == |values| == |fields| && FieldsTyped(currents, fields) && FieldsTyped(values, fields)
    requires FieldsComeBack(values, fields, st) && IsStateOf(entries, values, fields, st)
    ensures SetFields(currents, entries, fields) == Some((ReadFields(values, fields, st), []))
    decreases currents, 0
  {
    if fields != [] {
      TypedNames(values, fields);
      FieldAt(entries, values, fields, st, 0);
      SetOneField(currents[0], values[0], fields[0], st);
      LaterFields(entries, values, fields, st);
      SetEachField(currents[1..], Popped(entries, Place(st, |fields|, 0)), values[1..], fields[1..], st);
    }
  }

  lemma LaterFields(entries: seq<Entry>, values: seq<Val>, fields: seq<Field>, st: Store)
    requires fields != [] && |values| == |fields| && FieldsComeBack(values, fields, st) && IsStateOf(entries, values, fields, st)
    ensures FieldsComeBack(values[1..], fields[1..], st)
    ensures IsStateOf(Popped(entries, Place(st, |fields|, 0)), values[1..], fields[1..], st)
  {
    var n := |fields|;
    forall i | 0 <= i < n - 1
      ensures ComesBack(values[1..][i], fields[1..][i].ty, fields[1..][i].name, st)
      ensures IsEntryOf(Popped(entries, Place(st, n, 0))[Place(st, n - 1, i)], values[1..][i], fields[1..][i], st)
    {
      assert IsEntryOf(entries[Place(st, n, i + 1)], values[i + 1], fields[i + 1], st);
    }
  }

  lemma {:induction false} SetOneField(current: Val, value: Val, field: Field, st: Store)
    requires WellTyped(current, field.ty, field.name) && WellTyped(value, field.ty, field.name)
    requires ComesBack(value, field.ty, field.name, st)
    ensures SetField(current, Stored(Process(value, field.ty, field.name, false).value, st), field)
         == Some(AsRead(value, field.ty, field.name, st))
    decreases current, 2
  {
    if current.Object? && !value.Null? {
      SetNested(current, value, field.ty, field.name, st);
    }
  }

  /** The class of an object under a type that may also allow None. */
  lemma {:induction false} SetNested(current: Val, value: Val, t: Ty, name: string, st: Store)
    requires WellTyped(current, t, name) && WellTyped(value, t, name) && current.Object? && !value.Null?
    ensures Process(value, t, name, false).Some? && !Process(value, t, name, false).value.Null?
    ensures SetObject(current, Stored(Process(value, t, name, false).value, st)) == Some(AsRead(value, t, name, st))
    decreases current, 2, t
  {
    match t {
      case OrNone(t') => SetNested(current, value, t', name, st);
      case ClassTy(cls) => SetStateRoundTrip(current, value, cls, st);
      case _ =>
    }
  }

  // ----- the loops over the fields -----

  /** A state dict, which the callee consumes. */
  class StateDict {
    var entries: seq<Entry>

    constructor (entries: seq<Entry>)
      ensures this.entries == entries
    {
      this.entries := entries;
    }
  }

  class SerializableDataclass {
    const cls: Class
    var fields: seq<Val>

    ghost predicate Valid()
      reads this
    {
      |fields| == |cls.fields|
    }

    constructor (cls: Class, fields: seq<Val>)
      requires |fields| == |cls.fields|
      ensures Valid() && this.cls == cls && this.fields == fields
    {
      this.cls, this.fields := cls, fields;
    }

    method GetStateDict() returns (r: Option<StateDict>)
      requires Valid()
      ensures r.Some? <==> GetState(Object(cls, fields)).Some?
      ensures r.Some? ==> fresh(r.value) && Some(Dict(r.value.entries)) == GetState(Object(cls, fields))
    {
      var entries: seq<Entry> := [];
      assert fields[0..] == fields && cls.fields[0..] == cls.fields;
      EntriesThenNone(GetFields(fields, cls.fields));
      for i := 0 to |fields|
        invariant GetFields(fields, cls.fields) == EntriesThen(entries, GetFields(fields[i..], cls.fields[i..]))
      {
        var s := Process(fields[i], cls.fields[i].ty, cls.fields[i].name, false);
        assert fields[i..][1..] == fields[i + 1..] && cls.fields[i..][1..] == cls.fields[i + 1..];
        if s.None? {
          return None;
        }
        EntriesThenOne(entries, Entry(Str(cls.fields[i].name), s.value), GetFields(fields[i + 1..], cls.fields[i + 1..]));
        entries := entries + [Entry(Str(cls.fields[i].name), s.value)];
      }
      assert entries + [] == entries;
      var state := new StateDict(entries);
      return Some(state);
    }

    /** The new value of a field, its state being popped. */
    method PopField(state: StateDict, i: nat) returns (value: Option<Val>)
      requires Valid() && i < |fields|
      modifies state
      ensures var k := KeyIndex(old(state.entries), Str(cls.fields[i].name));
        if k == |old(state.entries)| then value.None?
        else value == SetField(fields[i], old(state.entries)[k].value, cls.fields[i]) && state.entries == Popped(old(state.entries), k)
    {
      var field := cls.fields[i];
      var k := KeyIndex(state.entries, Str(field.name));
      if k == |state.entries| {
        return None;
      }
      var fState := state.entries[k].value;
      state.entries := Popped(state.entries, k);
      value := SetField(fields[i], fState, field);
    }

    /** The loop of `set_state`: the new field values come from the popped states. */
    method SetEach(state: StateDict) returns (ok: bool)
      requires Valid()
      modifies this, state
      ensures Valid()
      ensures var r := SetFields(old(fields), old(state.entries), cls.fields);
        (ok <==> r.Some?) && (ok ==> fields == r.value.0 && state.entries == r.value.1)
    {
      ghost var before, r := fields, SetFields(fields, state.entries, cls.fields);
      assert before[0..] == before && cls.fields[0..] == cls.fields;
      ghost var done: seq<Val> := [];
      ValuesThenNone(r);
      for i := 0 to |fields|
        invariant Valid() && |before| == |fields| && fields == done + before[i..] && |done| == i
        invariant r == ValuesThen(done, SetFields(before[i..], state.entries, cls.fields[i..]))
      {
        SetFieldsFrom(before, state.entries, cls.fields, i);
        assert fields[i] == before[i];
        var value := PopField(state, i);
        if value.None? {
          return false;
        }
        ValuesThenOne(done, value.value, SetFields(before[i + 1..], state.entries, cls.fields[i + 1..]));
        UpdateAt(done, before, i, value.value);
        fields := fields[i := value.value];
        done := done + [value.value];
      }
      assert done + [] == done;
      return true;
    }

    /** `set_state`: the state must end up empty. */
    method SetState(state: StateDict) returns (ok: bool)
      requires Valid()
      modifies this, state
      ensures Valid()
      ensures ok <==> SetObject(Object(cls, old(fields)), Dict(old(state.entries))).Some?
      ensures ok ==> Some(Object(cls, fields)) == SetObject(Object(cls, old(fields)), Dict(old(state.entries))) && state.entries == []
    {
      ok := SetEach(state);
      ok := ok && state.entries == [];
    }
  }

  /** The i-th turn of `set_state`. */
  lemma SetFieldsFrom(currents: seq<Val>, entries: seq<Entry>, fields: seq<Field>, i: nat)
    requires |currents| == |fields| && i < |fields|
    ensures var k := KeyIndex(entries, Str(fields[i].name));
      SetFields(currents[i..], entries, fields[i..])
      == if k == |entries| || SetField(currents[i], entries[k].value, fields[i]).None? then None
         else ValuesThen([SetField(currents[i], entries[k].value, fields[i]).value], SetFields(currents[i + 1..], Popped(entries, k), fields[i + 1..]))
  {
    assert currents[i..][1..] == currents[i + 1..] && fields[i..][1..] == fields[i + 1..];
  }

  lemma UpdateAt(done: seq<Val>, before: seq<Val>, i: nat, v: Val)
    requires |done| == i && i < |before|
    ensures (done + before[i..])[i := v] == done + [v] + before[i + 1..]
  {
  }

  function EntriesThen(before: seq<Entry>, rest: Option<seq<Entry>>): Option<seq<Entry>> {
    if rest.None? then None else Some(before + rest.value)
  }

  lemma EntriesThenNone(rest: Option<seq<Entry>>)
    ensures EntriesThen([], rest) == rest
  {
    if rest.Some? {
      assert [] + rest.value == rest.value;
    }
  }

  lemma EntriesThenOne(before: seq<Entry>, e: Entry, rest: Option<seq<Entry>>)
    ensures EntriesThen(before, EntriesThen([e], rest)) == EntriesThen(before + [e], rest)
  {
    if rest.Some? {
      assert before + ([e] + rest.value) == before + [e] + rest.value;
    }
  }

  function ValuesThen(before: seq<Val>, rest: Option<(seq<Val>, seq<Entry>)>): Option<(seq<Val>, seq<Entry>)> {
    if rest.None? then None else Some((before + rest.value.0, rest.value.1))
  }

  lemma ValuesThenNone(rest: Option<(seq<Val>, seq<Entry>)>)
    ensures ValuesThen([], rest) == rest
  {
    if rest.Some? {
      assert [] + rest.value.0 == rest.value.0;
    }
  }

  lemma ValuesThenOne(before: seq<Val>, v: Val, rest: Option<(seq<Val>, seq<Entry>)>)
    ensures ValuesThen(before, ValuesThen([v], rest)) == ValuesThen(before + [v], rest)
  {
    if rest.Some? {
      assert before + ([v] + rest.value.0) == before + [v] + rest.value.0;
    }
  }
}
