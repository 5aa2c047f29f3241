/** Dictionaries with several values per key (mitmproxy/coretypes/multidict.py). */
module MultiDicts {
  import opened ByteStrings
  import opened Seqs

  // A key is looked up by its canonical form `kconv(key)`; headers, for one, are canonically lower-case.

  type Fields<K, V> = seq<(K, V)>

  predicate Same<K(==)>(kconv: K -> K, a: K, b: K) {
    kconv(a) == kconv(b)
  }

  function GetAll<K(==), V>(kconv: K -> K, fields: Fields<K, V>, key: K): seq<V> {
    if fields == [] then []
    else (if Same(kconv, fields[0].0, key) then [fields[0].1] else []) + GetAll(kconv, fields[1..], key)
  }

  function Append<K, V>(key: K, values: seq<V>): Fields<K, V> {
    if values == [] then [] else [(key, values[0])] + Append(key, values[1..])
  }

  /** Existing fields of the key take the new values in place; left-over fields go, left-over values come last. */
  function AllSet<K(==), V>(kconv: K -> K, fields: Fields<K, V>, key: K, values: seq<V>): Fields<K, V>
    decreases |fields|
  {
    if fields == [] then Append(key, values)
    else if !Same(kconv, fields[0].0, key) then [fields[0]] + AllSet(kconv, fields[1..], key, values)
    else if values == [] then AllSet(kconv, fields[1..], key, [])
    else [(fields[0].0, values[0])] + AllSet(kconv, fields[1..], key, values[1..])
  }

  /** The fields of other keys. */
  function Others<K(==), V>(kconv: K -> K, fields: Fields<K, V>, key: K): Fields<K, V> {
    if fields == [] then []
    else (if Same(kconv, fields[0].0, key) then [] else [fields[0]]) + Others(kconv, fields[1..], key)
  }

  /** The spellings under which a key occurs. */
  function Spellings<K(==), V>(kconv: K -> K, fields: Fields<K, V>, key: K): seq<K> {
    if fields == [] then []
    else (if Same(kconv, fields[0].0, key) then [fields[0].0] else []) + Spellings(kconv, fields[1..], key)
  }

  function Inserted<K, V>(fields: Fields<K, V>, index: int, key: K, value: V): Fields<K, V> {
    var i := Bound(index, |fields|);
    fields[..i] + [(key, value)] + fields[i..]
  }

  /** The keys that iteration yields: for every canonical form the first spelling. */
  function Iterated<K(==), V>(kconv: K -> K, fields: Fields<K, V>, seen: set<K>): seq<K>
    decreases |fields|
  {
    if fields == [] then []
    else if kconv(fields[0].0) in seen then Iterated(kconv, fields[1..], seen)
    else [fields[0].0] + Iterated(kconv, fields[1..], seen + {kconv(fields[0].0)})
  }

  function Canonical<K(==), V>(kconv: K -> K, fields: Fields<K, V>): set<K> {
    set i | 0 <= i < |fields| :: kconv(fields[i].0)
  }

  /** A Python list that a callee may empty. */
  class PyList<V> {
    var items: seq<V>

    constructor (items: seq<V>)
      ensures this.items == items
    {
      this.items := items;
    }

    method PopFirst() returns (v: V)
      requires items != []
      modifies this
      ensures v == old(items)[0] && items == old(items)[1..]
    {
      v, items := items[0], items[1..];
    }
  }

  class MultiDict<K(==, !new), V> {
    const kconv: K -> K
    var fields: Fields<K, V>

    constructor (kconv: K -> K, fields: Fields<K, V>)
      ensures this.kconv == kconv && this.fields == fields
    {
      this.kconv, this.fields := kconv, fields;
    }

    method SetAll(key: K, values: PyList<V>)
      modifies this, values
      ensures fields == AllSet(kconv, old(fields), key, old(values.items))
      ensures values.items == []
    {
      var newFields: Fields<K, V> := [];
      ghost var before, vs := fields, values.items;
      assert before[0..] == before;
      for i := 0 to |fields|
        invariant fields == before
        invariant AllSet(kconv, before, key, vs) == newFields + AllSet(kconv, before[i..], key, values.items)
      {
        var field := fields[i];
        assert before[i..][1..] == before[i + 1..];
        ghost var done, left := newFields, values.items;
        if kconv(field.0) == kconv(key) {
          if values.items != [] {
            var v := values.PopFirst();
            newFields := newFields + [(field.0, v)];
            JoinOne(done, (field.0, v), AllSet(kconv, before[i + 1..], key, values.items));
          }
        } else {
          newFields := newFields + [field];
          JoinOne(done, field, AllSet(kconv, before[i + 1..], key, values.items));
        }
      }
      assert before[|before|..] == [];
      while values.items != []
        invariant fields == before
        invariant AllSet(kconv, before, key, vs) == newFields + Append(key, values.items)
        decreases |values.items|
      {
        ghost var done := newFields;
        var v := values.PopFirst();
        newFields := newFields + [(key, v)];
        JoinOne(done, (key, v), Append(key, values.items));
      }
      assert newFields + [] == newFields;
      fields := newFields;
    }

    /** The key has no value afterwards, and every other key the values it had, in their order. */
    method DeleteItem(key: K) returns (found: bool)
      modifies this
      ensures found <==> GetAll(kconv, old(fields), key) != []
      ensures forall other :: GetAll(kconv, fields, other) == if Same(kconv, key, other) then [] else GetAll(kconv, old(fields), other)
      ensures fields == Others(kconv, old(fields), key)
    {
      ghost var before := fields;
      DeletesOnly(kconv, before, key);
      if GetAll(kconv, fields, key) == [] {
        NoOthers(kconv, fields, key);
        return false;
      }
      fields := Left(key);
      return true;
    }

    /** The fields that are left without a key. */
    method Left(key: K) returns (left: Fields<K, V>)
      ensures left == Others(kconv, fields, key)
    {
      left := [];
      assert fields[0..] == fields;
      for i := 0 to |fields|
        invariant Others(kconv, fields, key) == left + Others(kconv, fields[i..], key)
      {
        OthersFrom(kconv, fields, i, key, left);
        if kconv(fields[i].0) != kconv(key) {
          left := left + [fields[i]];
        }
      }
      assert left + [] == left;
    }

    method InsertAt(index: int, key: K, value: V)
      modifies this
      ensures fields == Inserted(old(fields), index, key, value)
    {
      var i := Bound(index, |fields|);
      fields := fields[..i] + [(key, value)] + fields[i..];
    }

    method Add(key: K, value: V)
      modifies this
      ensures fields == old(fields) + [(key, value)]
    {
      InsertAt(|fields|, key, value);
    }

    method Iterate() returns (keys: seq<K>)
      ensures keys == Iterated(kconv, fields, {})
    {
      var seen := {};
      keys := [];
      assert fields[0..] == fields;
      for i := 0 to |fields|
        invariant Iterated(kconv, fields, {}) == keys + Iterated(kconv, fields[i..], seen)
      {
        var key := kconv(fields[i].0);
        assert fields[i..][1..] == fields[i + 1..];
        if key !in seen {
          seen := seen + {key};
          JoinOne(keys, fields[i].0, Iterated(kconv, fields[i + 1..], seen));
          keys := keys + [fields[i].0];
        }
      }
      assert fields[|fields|..] == [] && keys + [] == keys;
    }

    method Length() returns (n: nat)
      ensures n == |Canonical(kconv, fields)|
    {
      n := |set i | 0 <= i < |fields| :: kconv(fields[i].0)|;
    }
  }

  /** One turn of the loop over the fields. */
  lemma OthersFrom<K, V>(kconv: K -> K, fields: Fields<K, V>, i: nat, key: K, left: Fields<K, V>)
    requires i < |fields|
    ensures left + Others(kconv, fields[i..], key)
         == (if Same(kconv, fields[i].0, key) then left else left + [fields[i]]) + Others(kconv, fields[i + 1..], key)
  {
    assert fields[i..][1..] == fields[i + 1..];
    var more := Others(kconv, fields[i + 1..], key);
    JoinOne(left, fields[i], more);
    assert [] + more == more;
  }

  lemma {:induction false} NoOthers<K, V>(kconv: K -> K, fields: Fields<K, V>, key: K)
    requires GetAll(kconv, fields, key) == []
    ensures Others(kconv, fields, key) == fields
  {
    if fields != [] {
      NoOthers(kconv, fields[1..], key);
    }
  }

  // ----- set_all -----

  lemma {:induction false} AppendFacts<K, V>(kconv: K -> K, key: K, other: K, values: seq<V>)
    ensures GetAll(kconv, Append(key, values), other) == if Same(kconv, key, other) then values else []
    ensures Others(kconv, Append(key, values), key) == []
    ensures Spellings(kconv, Append(key, values), key) == seq(|values|, _ => key)
    decreases |values|
  {
    if values != [] {
      AppendFacts(kconv, key, other, values[1..]);
      assert [key] + seq(|values| - 1, _ => key) == seq(|values|, _ => key);
    }
  }

  /** After set_all the key has exactly the new values, every other key its old ones. */
  lemma {:induction false} SetAllValues<K, V>(kconv: K -> K, fields: Fields<K, V>, key: K, values: seq<V>, other: K)
    ensures GetAll(kconv, AllSet(kconv, fields, key, values), other)
         == if Same(kconv, key, other) then values else GetAll(kconv, fields, other)
    decreases |fields|
  {
    if fields == [] {
      AppendFacts(kconv, key, other, values);
    } else if Same(kconv, fields[0].0, key) && values != [] {
      SetAllValues(kconv, fields[1..], key, values[1..], other);
    } else {
      SetAllValues(kconv, fields[1..], key, values, other);
    }
  }

  /** The fields of other keys stay, in their order. */
  lemma {:induction false} SetAllKeepsOthers<K, V>(kconv: K -> K, fields: Fields<K, V>, key: K, values: seq<V>)
    ensures Others(kconv, AllSet(kconv, fields, key, values), key) == Others(kconv, fields, key)
    decreases |fields|
  {
    if fields == [] {
      AppendFacts(kconv, key, key, values);
    } else {
      var rest := if Same(kconv, fields[0].0, key) && values != [] then values[1..] else values;
      SetAllKeepsOthers(kconv, fields[1..], key, rest);
    }
  }

  /** Existing spellings are used up first; the given one is used for what is left. */
  lemma {:induction false} SetAllSpellings<K, V>(kconv: K -> K, fields: Fields<K, V>, key: K, values: seq<V>)
    ensures var used := Spellings(kconv, fields, key);
      Spellings(kconv, AllSet(kconv, fields, key, values), key)
      == if |values| <= |used| then used[..|values|] else used + seq(|values| - |used|, _ => key)
    decreases |fields|
  {
    if fields == [] {
      AppendFacts(kconv, key, key, values);
      assert [] + seq(|values|, _ => key) == seq(|values|, _ => key);
    } else if Same(kconv, fields[0].0, key) && values != [] {
      SetAllSpellings(kconv, fields[1..], key, values[1..]);
      var tail := Spellings(kconv, fields[1..], key);
      if |values| - 1 <= |tail| {
        assert ([fields[0].0] + tail)[..|values|] == [fields[0].0] + tail[..|values| - 1];
      } else {
        JoinOne([], fields[0].0, tail);
        assert [fields[0].0] + (tail + seq(|values| - 1 - |tail|, _ => key)) == [fields[0].0] + tail + seq(|values| - 1 - |tail|, _ => key);
      }
    } else {
      SetAllSpellings(kconv, fields[1..], key, values);
    }
  }

  /** With enough values, every field stays where it is and only values of the key change. */
  lemma {:induction false} SetAllInPlace<K, V>(kconv: K -> K, fields: Fields<K, V>, key: K, values: seq<V>)
    requires |values| >= |Spellings(kconv, fields, key)|
    ensures var r := AllSet(kconv, fields, key, values);
      && |r| == |fields| + |values| - |Spellings(kconv, fields, key)|
      && (forall i :: 0 <= i < |fields| ==> r[i].0 == fields[i].0)
      && (forall i :: 0 <= i < |fields| && !Same(kconv, fields[i].0, key) ==> r[i] == fields[i])
      && (forall i :: |fields| <= i < |r| ==> r[i].0 == key)
    decreases |fields|
  {
    if fields == [] {
      AppendKeys(key, values);
    } else {
      var rest := if Same(kconv, fields[0].0, key) then values[1..] else values;
      SetAllInPlace(kconv, fields[1..], key, rest);
      assert forall i :: 0 < i < |fields| ==> fields[i] == fields[1..][i - 1];
    }
  }

  lemma {:induction false} AppendKeys<K, V>(key: K, values: seq<V>)
    ensures |Append(key, values)| == |values| && forall i :: 0 <= i < |values| ==> Append(key, values)[i].0 == key
    decreases |values|
  {
    if values != [] {
      AppendKeys(key, values[1..]);
    }
  }

  /** Putting back the values that are there changes nothing. */
  lemma {:induction false} SetAllOfGetAll<K, V>(kconv: K -> K, fields: Fields<K, V>, key: K)
    ensures AllSet(kconv, fields, key, GetAll(kconv, fields, key)) == fields
    decreases |fields|
  {
    if fields != [] {
      SetAllOfGetAll(kconv, fields[1..], key);
      var tail := GetAll(kconv, fields[1..], key);
      if Same(kconv, fields[0].0, key) {
        assert ([fields[0].1] + tail)[1..] == tail;
      } else {
        assert [] + tail == tail;
      }
      assert fields == [fields[0]] + fields[1..];
    }
  }

  // ----- insert and delete -----

  lemma {:induction false} GetAllAppend<K, V>(kconv: K -> K, a: Fields<K, V>, b: Fields<K, V>, key: K)
    ensures GetAll(kconv, a + b, key) == GetAll(kconv, a, key) + GetAll(kconv, b, key)
    decreases |a|
  {
    if a == [] {
      assert a + b == b;
    } else {
      assert (a + b)[1..] == a[1..] + b;
      GetAllAppend(kconv, a[1..], b, key);
      var first := if Same(kconv, a[0].0, key) then [a[0].1] else [];
      Associative(first, GetAll(kconv, a[1..], key), GetAll(kconv, b, key));
    }
  }

  /** An inserted value stands among the values of its key where it was inserted; no other key changes. */
  lemma InsertValues<K, V>(kconv: K -> K, fields: Fields<K, V>, index: int, key: K, value: V, other: K)
    ensures var i := Bound(index, |fields|);
      GetAll(kconv, Inserted(fields, index, key, value), other)
      == if Same(kconv, key, other) then GetAll(kconv, fields[..i], other) + [value] + GetAll(kconv, fields[i..], other)
         else GetAll(kconv, fields, other)
  {
    var i := Bound(index, |fields|);
    SplitAt(fields, i);
    InsertBetween(kconv, fields[..i], key, value, fields[i..], other);
  }

  lemma SplitAt<T>(s: seq<T>, i: nat)
    requires i <= |s|
    ensures s[..i] + s[i..] == s
  {
  }

  lemma InsertBetween<K, V>(kconv: K -> K, a: Fields<K, V>, key: K, value: V, b: Fields<K, V>, other: K)
    ensures GetAll(kconv, a + [(key, value)] + b, other)
         == if Same(kconv, key, other) then GetAll(kconv, a, other) + [value] + GetAll(kconv, b, other)
            else GetAll(kconv, a + b, other)
  {
    GetAllAppend(kconv, a, b, other);
    GetAllAround(kconv, a, (key, value), b, other);
    assert GetAll(kconv, a, other) + [] == GetAll(kconv, a, other);
  }

  lemma GetAllAround<K, V>(kconv: K -> K, a: Fields<K, V>, f: (K, V), b: Fields<K, V>, key: K)
    ensures GetAll(kconv, a + [f] + b, key)
         == GetAll(kconv, a, key) + (if Same(kconv, f.0, key) then [f.1] else []) + GetAll(kconv, b, key)
  {
    GetAllAppend(kconv, a + [f], b, key);
    GetAllAppend(kconv, a, [f], key);
    assert [f][1..] == [];
  }

  /** After a deletion the key has no value, and every other key its old ones. */
  lemma {:induction false} DeleteValues<K, V>(kconv: K -> K, fields: Fields<K, V>, key: K, other: K)
    ensures GetAll(kconv, Others(kconv, fields, key), other)
         == if Same(kconv, key, other) then [] else GetAll(kconv, fields, other)
    decreases |fields|
  {
    if fields != [] {
      DeleteValues(kconv, fields[1..], key, other);
      var tail := Others(kconv, fields[1..], key);
      if Same(kconv, fields[0].0, key) {
        assert [] + tail == tail;
      } else {
        GetAllAppend(kconv, [fields[0]], tail, other);
        assert [fields[0]][1..] == [];
      }
    }
  }

  lemma DeletesOnly<K(!new), V>(kconv: K -> K, fields: Fields<K, V>, key: K)
    ensures forall other :: GetAll(kconv, Others(kconv, fields, key), other)
                         == if Same(kconv, key, other) then [] else GetAll(kconv, fields, other)
  {
    forall other {
      DeleteValues(kconv, fields, key, other);
    }
  }

  // ----- iteration -----

  function FormsOf<K>(kconv: K -> K, keys: seq<K>): set<K> {
    if keys == [] then {} else {kconv(keys[0])} + FormsOf(kconv, keys[1..])
  }

  predicate DistinctForms<K(==)>(kconv: K -> K, keys: seq<K>) {
    keys == [] || (kconv(keys[0]) !in FormsOf(kconv, keys[1..]) && DistinctForms(kconv, keys[1..]))
  }

  lemma CanonicalFirst<K, V>(kconv: K -> K, fields: Fields<K, V>)
    requires fields != []
    ensures Canonical(kconv, fields) == {kconv(fields[0].0)} + Canonical(kconv, fields[1..])
  {
    assert forall i :: 0 < i < |fields| ==> fields[i] == fields[1..][i - 1];
  }

  /** Iteration yields every canonical form not seen before exactly once. */
  lemma {:induction false} IteratedForms<K, V>(kconv: K -> K, fields: Fields<K, V>, seen: set<K>)
    ensures DistinctForms(kconv, Iterated(kconv, fields, seen))
    ensures FormsOf(kconv, Iterated(kconv, fields, seen)) == Canonical(kconv, fields) - seen
    decreases |fields|
  {
    if fields != [] {
      CanonicalFirst(kconv, fields);
      var first := kconv(fields[0].0);
      if first in seen {
        IteratedForms(kconv, fields[1..], seen);
      } else {
        IteratedForms(kconv, fields[1..], seen + {first});
      }
    }
  }

  /** One more field is yielded last, and in its own spelling, exactly when its form has not been there before. */
  lemma {:induction false} IteratedLast<K, V>(kconv: K -> K, fields: Fields<K, V>, f: (K, V), seen: set<K>)
    ensures Iterated(kconv, fields + [f], seen) ==
      Iterated(kconv, fields, seen) + if kconv(f.0) in seen + Canonical(kconv, fields) then [] else [f.0]
    decreases |fields|
  {
    if fields == [] {
      assert fields + [f] == [f] && [f][1..] == [];
    } else {
      CanonicalFirst(kconv, fields);
      var first := kconv(fields[0].0);
      assert (fields + [f])[1..] == fields[1..] + [f];
      IteratedLast(kconv, fields[1..], f, seen + {first});
      IteratedLast(kconv, fields[1..], f, seen);
      assert seen + {first} + Canonical(kconv, fields[1..]) == seen + Canonical(kconv, fields);
    }
  }

  lemma {:induction false} FormsCount<K>(kconv: K -> K, keys: seq<K>)
    requires DistinctForms(kconv, keys)
    ensures |FormsOf(kconv, keys)| == |keys|
    decreases |keys|
  {
    if keys != [] {
      FormsCount(kconv, keys[1..]);
    }
  }

  /** The length is the number of keys that iteration yields. */
  lemma LengthIsIterated<K, V>(kconv: K -> K, fields: Fields<K, V>)
    ensures |Iterated(kconv, fields, {})| == |Canonical(kconv, fields)|
  {
    IteratedForms(kconv, fields, {});
    FormsCount(kconv, Iterated(kconv, fields, {}));
    assert Canonical(kconv, fields) - {} == Canonical(kconv, fields);
  }
}
