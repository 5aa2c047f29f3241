/** What `from_state` accepts and what it makes (mitmproxy/coretypes/serializable.py). */
module StateReadings {
  import opened Options
  import opened Serializables

  // From whatever comes out of a file: only objects whose fields have the declared types, and these have a state that
  // reads back.

  // ----- declared types -----

  /** Types as a class can declare them: literals and enum values are plain, keys hashable, and field names distinct. */
  predicate Declarable(t: Ty)
    decreases t
  {
    match t
    case Literal(vals) => forall v :: v in vals ==> IsPlain(v)
    case OrNone(t') => Declarable(t')
    case ListOf(t') => Declarable(t')
    case TupleOf(ts) => forall i :: 0 <= i < |ts| ==> Declarable(ts[i])
    case DictOf(kt, vt) => IsKeyType(kt) && Declarable(kt) && Declarable(vt)
    case EnumTy(_, values) => forall v :: v in values ==> IsPlain(v)
    case ClassTy(cls) => DeclarableClass(cls)
    case _ => true
  }

  predicate DeclarableClass(cls: Class)
    decreases cls
  {
    DistinctNames(cls.fields) && forall i :: 0 <= i < |cls.fields| ==> Declarable(cls.fields[i].ty)
  }

  // ----- what is made has its type -----

  /** Whatever the state, what is made of it for a type has that type. */
  lemma {:induction false} MadeIsTyped(v: Val, t: Ty, name: string)
    requires Declarable(t) && Process(v, t, name, true).Some?
    ensures WellTyped(Process(v, t, name, true).value, t, name)
    decreases v, t, 1
  {
    match t {
      case Literal(_) =>
      case OrNone(t') =>
        if !v.Null? {
          MadeIsTyped(v, t', name);
        }
      case ListOf(t') => AllMadeAreTyped(v.items, t', name);
      case TupleOf(ts) =>
        if IsPeer(name) {
          PeerMadeIsTyped(v.items, 0);
        } else {
          EachMadeIsTyped(v.items, ts, name);
        }
      case DictOf(kt, vt) => DictMadeIsTyped(v, kt, vt, name);
      case ClassTy(cls) => ObjectMadeIsTyped(v, cls);
      case EnumTy(_, _) =>
      case _ => ScalarMadeIsTyped(v, t);
    }
  }

  lemma ScalarMadeIsTyped(v: Val, t: Ty)
    requires Scalar(v, t).Some?
    ensures Scalar(Scalar(v, t).value, t) == Scalar(v, t) && !Scalar(v, t).value.Null?
  {
  }

  lemma {:induction false} AllMadeAreTyped(items: seq<Val>, t: Ty, name: string)
    requires Declarable(t) && ProcessAll(items, t, name, true).Some?
    ensures AllTyped(ProcessAll(items, t, name, true).value, t, name)
    decreases items, t, 0
  {
    if items != [] {
      MadeIsTyped(items[0], t, name);
      AllMadeAreTyped(items[1..], t, name);
    }
  }

  lemma {:induction false} EachMadeIsTyped(items: seq<Val>, ts: seq<Ty>, name: string)
    requires |items| == |ts| && (forall i :: 0 <= i < |ts| ==> Declarable(ts[i])) && ProcessEach(items, ts, name, true).Some?
    ensures var made := ProcessEach(items, ts, name, true).value; |made| == |ts| && EachTyped(made, ts, name)
    decreases items, 0
  {
    if items != [] {
      MadeIsTyped(items[0], ts[0], name);
      EachMadeIsTyped(items[1..], ts[1..], name);
    }
  }

  lemma {:induction false} PeerMadeIsTyped(items: seq<Val>, i: nat)
    requires i <= 4 && ProcessPeer(items, i).Some?
    ensures PeerTyped(ProcessPeer(items, i).value, i)
    decreases |items|
  {
    if items != [] && i < 4 {
      ScalarMadeIsTyped(items[0], PeerType(i));
      PeerMadeIsTyped(items[1..], i + 1);
    }
  }

  lemma {:induction false} DictMadeIsTyped(v: Val, kt: Ty, vt: Ty, name: string)
    requires Declarable(DictOf(kt, vt)) && Process(v, DictOf(kt, vt), name, true).Some?
    ensures WellTyped(Process(v, DictOf(kt, vt), name, true).value, DictOf(kt, vt), name)
    decreases v, DictOf(kt, vt), 0
  {
    var made := ProcessEntries(v.entries, kt, vt, name, true).value;
    EntriesMadeAreTyped(v.entries, kt, vt, name);
    ProperIsTyped(made, kt, vt, name);
  }

  /** Every entry is typed, and no key occurs twice. */
  predicate Proper(entries: seq<Entry>, kt: Ty, vt: Ty, name: string) {
    && (forall i :: 0 <= i < |entries| ==> EntryTyped(entries[i], kt, vt, name))
    && forall i, j :: 0 <= i < j < |entries| ==> entries[i].key != entries[j].key
  }

  lemma {:induction false} ProperIsTyped(entries: seq<Entry>, kt: Ty, vt: Ty, name: string)
    requires Proper(entries, kt, vt, name)
    ensures EntriesTyped(entries, kt, vt, name)
    decreases |entries|
  {
    if entries != [] {
      ProperIsTyped(entries[..|entries| - 1], kt, vt, name);
    }
  }

  lemma {:induction false} NotBefore(entries: seq<Entry>, key: Val, j: nat)
    requires j < KeyIndex(entries, key)
    ensures entries[j].key != key
    decreases |entries|
  {
    if j > 0 {
      NotBefore(entries[1..], key, j - 1);
    }
  }

  lemma PutIsProper(entries: seq<Entry>, e: Entry, kt: Ty, vt: Ty, name: string)
    requires Proper(entries, kt, vt, name) && EntryTyped(e, kt, vt, name)
    ensures Proper(Put(entries, e), kt, vt, name)
  {
    var k := KeyIndex(entries, e.key);
    if k < |entries| {
      ReplacedIsProper(entries, k, e, kt, vt, name);
    } else {
      forall j | 0 <= j < |entries| ensures entries[j].key != e.key {
        NotBefore(entries, e.key, j);
      }
      AddedIsProper(entries, e, kt, vt, name);
    }
  }

  lemma AddedIsProper(entries: seq<Entry>, e: Entry, kt: Ty, vt: Ty, name: string)
    requires Proper(entries, kt, vt, name) && EntryTyped(e, kt, vt, name) && NewKey(entries, e.key)
    ensures Proper(entries + [e], kt, vt, name)
  {
  }

  lemma ReplacedIsProper(entries: seq<Entry>, k: nat, e: Entry, kt: Ty, vt: Ty, name: string)
    requires Proper(entries, kt, vt, name) && EntryTyped(e, kt, vt, name) && k < |entries| && entries[k].key == e.key
    ensures Proper(entries[k := e], kt, vt, name)
  {
    var put := entries[k := e];
    forall i, j | 0 <= i < j < |put| ensures put[i].key != put[j].key {
      assert put[i].key == entries[i].key && put[j].key == entries[j].key;
    }
  }

  lemma {:induction false} EntriesMadeAreTyped(entries: seq<Entry>, kt: Ty, vt: Ty, name: string)
    requires Declarable(kt) && Declarable(vt) && ProcessEntries(entries, kt, vt, name, true).Some?
    ensures Proper(ProcessEntries(entries, kt, vt, name, true).value, kt, vt, name)
    decreases entries, 0
  {
    if entries != [] {
      var n := |entries| - 1;
      EntriesMadeAreTyped(entries[..n], kt, vt, name);
      EntryMadeIsTyped(entries[n], kt, vt, name);
      PutIsProper(ProcessEntries(entries[..n], kt, vt, name, true).value, ProcessEntry(entries[n], kt, vt, name, true).value, kt, vt, name);
    }
  }

  lemma {:induction false} EntryMadeIsTyped(e: Entry, kt: Ty, vt: Ty, name: string)
    requires Declarable(kt) && Declarable(vt) && ProcessEntry(e, kt, vt, name, true).Some?
    ensures EntryTyped(ProcessEntry(e, kt, vt, name, true).value, kt, vt, name)
    decreases e, 0
  {
    MadeIsTyped(e.key, kt, name);
    MadeIsTyped(e.value, vt, name);
  }

  lemma {:induction false} ObjectMadeIsTyped(v: Val, cls: Class)
    requires DeclarableClass(cls) && FromState(v, cls).Some?
    ensures TypedObject(FromState(v, cls).value, cls)
    decreases v, ClassTy(cls), 0
  {
    FieldsMadeAreTyped(v.entries, cls.fields);
  }

  lemma {:induction false} FieldsMadeAreTyped(entries: seq<Entry>, fields: seq<Field>)
    requires DistinctNames(fields) && (forall i :: 0 <= i < |fields| ==> Declarable(fields[i].ty))
    requires FromFields(entries, fields).Some?
    ensures var made := FromFields(entries, fields).value; |made| == |fields| && FieldsTyped(made, fields)
    decreases entries, |fields|
  {
    if fields != [] {
      FieldMadeIsTyped(entries[KeyIndex(entries, Str(fields[0].name))], fields[0]);
      FieldsMadeAreTyped(entries, fields[1..]);
    }
  }

  lemma {:induction false} FieldMadeIsTyped(e: Entry, field: Field)
    requires Declarable(field.ty) && FromField(e, field).Some?
    ensures WellTyped(FromField(e, field).value, field.ty, field.name)
    decreases e, 0
  {
    MadeIsTyped(e.value, field.ty, field.name);
  }

  // ----- which states are accepted -----

  /** The state of a field: present under its name, and convertible to its type. */
  ghost predicate FieldReads(entries: seq<Entry>, field: Field, value: Val) {
    exists e :: e in entries && e.key == Str(field.name) && Process(e.value, field.ty, field.name, true) == Some(value)
  }

  predicate DistinctKeys(entries: seq<Entry>) {
    forall i, j :: 0 <= i < j < |entries| ==> entries[i].key != entries[j].key
  }

  lemma FieldReadsAt(entries: seq<Entry>, field: Field, value: Val)
    requires DistinctKeys(entries)
    ensures var i := KeyIndex(entries, Str(field.name));
      FieldReads(entries, field, value) <==> i < |entries| && FromField(entries[i], field) == Some(value)
  {
    var i := KeyIndex(entries, Str(field.name));
    if e :| e in entries && e.key == Str(field.name) && Process(e.value, field.ty, field.name, true) == Some(value) {
      var k :| 0 <= k < |entries| && entries[k] == e;
      if k < i {
        NotBefore(entries, Str(field.name), k);
      }
    }
  }

  lemma {:induction false} FieldsExactly(entries: seq<Entry>, fields: seq<Field>, values: seq<Val>)
    requires DistinctKeys(entries)
    ensures FromFields(entries, fields) == Some(values) <==>
      |values| == |fields| && forall i :: 0 <= i < |fields| ==> FieldReads(entries, fields[i], values[i])
    decreases |fields|
  {
    if fields != [] && values != [] {
      FieldReadsAt(entries, fields[0], values[0]);
      FieldsExactly(entries, fields[1..], values[1..]);
      assert [values[0]] + values[1..] == values;
      assert forall i :: 0 < i < |fields| ==> fields[i] == fields[1..][i - 1];
      assert forall i :: 0 < i < |values| ==> values[i] == values[1..][i - 1];
    }
  }

  /** Which dicts are accepted and what becomes of them: every field under its name and convertible, and no other key. */
  lemma AcceptsExactly(entries: seq<Entry>, cls: Class, values: seq<Val>)
    requires DistinctKeys(entries)
    ensures FromState(Dict(entries), cls) == Some(Object(cls, values)) <==>
      && |values| == |cls.fields|
      && (forall i :: 0 <= i < |cls.fields| ==> FieldReads(entries, cls.fields[i], values[i]))
      && forall e :: e in entries ==> exists f :: f in cls.fields && e.key == Str(f.name)
    ensures FromState(Dict(entries), cls).Some? ==> FromState(Dict(entries), cls).value == Object(cls, FromState(Dict(entries), cls).value.fields)
  {
    FieldsExactly(entries, cls.fields, values);
    NamesOnly(entries, cls.fields);
  }

  lemma NamesOnly(entries: seq<Entry>, fields: seq<Field>)
    ensures (forall i :: 0 <= i < |entries| ==> IsFieldName(fields, entries[i].key))
       <==> forall e :: e in entries ==> exists f :: f in fields && e.key == Str(f.name)
  {
    forall e | e in entries && forall i :: 0 <= i < |entries| ==> IsFieldName(fields, entries[i].key)
      ensures exists f :: f in fields && e.key == Str(f.name)
    {
      var i :| 0 <= i < |entries| && entries[i] == e;
      var j :| 0 <= j < |fields| && e.key == Str(fields[j].name);
      assert fields[j] in fields;
    }
  }

  /** From any file: what is read is an object of the class, and its own state reads back, through any store. */
  lemma ReadIsTyped(state: Val, cls: Class, st: Store)
    requires DeclarableClass(cls) && FromState(state, cls).Some?
    ensures var v := FromState(state, cls).value;
      && TypedObject(v, cls) && GetState(v).Some?
      && FromState(Stored(GetState(v).value, st), cls) == Some(Object(cls, ReadFields(v.fields, cls.fields, st)))
  {
    ObjectMadeIsTyped(state, cls);
    StateComesBack(FromState(state, cls).value, cls, st);
  }

  // ----- set_state leaves nothing over -----

  lemma {:induction false} PopsEach(currents: seq<Val>, entries: seq<Entry>, fields: seq<Field>)
    requires |currents| == |fields| && SetFields(currents, entries, fields).Some?
    ensures var left := SetFields(currents, entries, fields).value.1;
      && |entries| == |fields| + |left|
      && forall e :: e in entries ==> e in left || exists f :: f in fields && e.key == Str(f.name)
    decreases |fields|
  {
    if fields != [] {
      var i := KeyIndex(entries, Str(fields[0].name));
      PopsEach(currents[1..], Popped(entries, i), fields[1..]);
      forall e | e in entries && e != entries[i] ensures e in Popped(entries, i) {
        var k :| 0 <= k < |entries| && entries[k] == e;
        assert Popped(entries, i)[if k < i then k else k - 1] == e;
      }
      assert entries[i].key == Str(fields[0].name) && fields[0] in fields;
    }
  }

  /** A state that `set_state` accepts has exactly one entry for every field of the class, and no other. */
  lemma NothingLeftOver(current: Val, entries: seq<Entry>)
    requires current.Object? && SetObject(current, Dict(entries)).Some?
    ensures |entries| == |current.cls.fields|
    ensures forall e :: e in entries ==> exists f :: f in current.cls.fields && e.key == Str(f.name)
  {
    PopsEach(current.fields, entries, current.cls.fields);
  }

  // ----- numbers -----

  /** `int` cuts a float toward zero: what is left is nowhere further from it, and less than one away. */
  lemma CutsTowardZero(r: real, name: string)
    ensures var n := Process(Float(r), IntTy, name, true);
      && n.Some? && n.value.Int?
      && (r >= 0.0 ==> n.value.n as real <= r < n.value.n as real + 1.0)
      && (r < 0.0 ==> n.value.n as real - 1.0 < r <= n.value.n as real)
  {
  }

  /** Only numbers, booleans among them, are taken for numbers; text, bytes and booleans are taken as they are, and nothing
      is taken for them. */
  lemma ScalarsKept(v: Val, name: string, make: bool)
    ensures Process(v, StrTy, name, make) == if v.Str? then Some(v) else None
    ensures Process(v, BytesTy, name, make) == if v.Bytes? then Some(v) else None
    ensures Process(v, BoolTy, name, make) == if v.Bool? then Some(v) else None
    ensures Process(v, IntTy, name, make).Some? <==> v.Int? || v.Bool? || v.Float?
    ensures v.Int? ==> Process(v, IntTy, name, make) == Some(v) && Process(v, FloatTy, name, make) == Some(Float(v.n as real))
    ensures v.Bool? ==> Process(v, IntTy, name, make) == Process(Int(if v.b then 1 else 0), IntTy, name, make)
    ensures v.Bool? ==> Process(v, FloatTy, name, make) == Process(Int(if v.b then 1 else 0), FloatTy, name, make)
    ensures Process(v, FloatTy, name, make).Some? <==> v.Int? || v.Bool? || v.Float?
    ensures v.Float? ==> Process(v, FloatTy, name, make) == Some(v)
  {
  }
}
