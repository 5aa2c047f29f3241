/** The certificate store (mitmproxy/certs.py). */
module CertStores {
  import opened Options
  import opened Seqs

  // Certificates are values that can be compared; the one that a lookup would generate is a parameter of that lookup.

  datatype GeneralName = DnsName(value: string) | OtherName(kind: int, text: string)

  datatype Key = Custom(name: string) | Generated(commonname: Option<string>, sans: seq<GeneralName>)

  const STORE_CAP := 100

  // ----- wildcard forms -----

  /** `s.split(".")` */
  function Split(s: string): (parts: seq<string>)
    ensures parts != []
  {
    if s == "" then [""]
    else
      var rest := Split(s[1..]);
      if s[0] == '.' then [""] + rest else [[s[0]] + rest[0]] + rest[1..]
  }

  /** `".".join(parts)` */
  function Join(parts: seq<string>): string
    requires parts != []
  {
    if |parts| == 1 then parts[0] else parts[0] + "." + Join(parts[1..])
  }

  method AsteriskFormsOfName(dn: string) returns (ret: seq<string>)
    ensures ret == Forms(dn)
  {
    var parts := Split(dn);
    ret := [dn];
    for i := 1 to |parts|
      invariant ret + FormsFrom(parts, i) == Forms(dn)
    {
      ret := ret + ["*." + Join(parts[i..])];
    }
  }

  function FormsFrom(parts: seq<string>, i: nat): seq<string>
    requires i <= |parts|
    decreases |parts| - i
  {
    if i == |parts| then [] else ["*." + Join(parts[i..])] + FormsFrom(parts, i + 1)
  }

  function Forms(dn: string): seq<string> {
    [dn] + FormsFrom(Split(dn), 1)
  }

  function TextOf(n: GeneralName): string {
    match n
    case DnsName(value) => value
    case OtherName(_, text) => text
  }

  function AsteriskForms(n: GeneralName): seq<string> {
    match n
    case DnsName(value) => Forms(value)
    case OtherName(_, text) => [text]
  }

  /** A star in place of everything before a dot of the name. */
  predicate IsWildcardOf(f: string, dn: string) {
    exists i :: 0 <= i < |dn| && dn[i] == '.' && f == "*" + dn[i..]
  }

  lemma {:induction false} JoinSplit(s: string)
    ensures Join(Split(s)) == s
  {
    if s != "" {
      JoinSplit(s[1..]);
      var rest := Split(s[1..]);
      if s[0] == '.' {
        assert ([""] + rest)[1..] == rest;
        assert "" + "." + s[1..] == s;
      } else {
        var parts := [[s[0]] + rest[0]] + rest[1..];
        assert parts[1..] == rest[1..];
        if |rest| > 1 {
          assert [s[0]] + rest[0] + "." + Join(rest[1..]) == [s[0]] + (rest[0] + "." + Join(rest[1..]));
        }
        assert [s[0]] + s[1..] == s;
      }
    }
  }

  lemma FormsShift(first: string, parts: seq<string>, i: nat)
    requires i <= |parts|
    ensures FormsFrom([first] + parts, i + 1) == FormsFrom(parts, i)
    decreases |parts| - i
  {
    if i < |parts| {
      assert ([first] + parts)[i + 1..] == parts[i..];
      FormsShift(first, parts, i + 1);
    }
  }

  lemma WildcardUnfold(f: string, s: string)
    requires s != ""
    ensures IsWildcardOf(f, s) <==> (s[0] == '.' && f == "*" + s) || IsWildcardOf(f, s[1..])
  {
    assert s[0..] == s;
    assert forall i :: 0 <= i < |s[1..]| ==> s[1..][i] == s[i + 1] && s[1..][i..] == s[i + 1..];
    if IsWildcardOf(f, s) {
      var i :| 0 <= i < |s| && s[i] == '.' && f == "*" + s[i..];
      assert i > 0 ==> s[1..][i - 1] == '.' && s[1..][i - 1..] == s[i..];
    }
    if IsWildcardOf(f, s[1..]) {
      var i :| 0 <= i < |s[1..]| && s[1..][i] == '.' && f == "*" + s[1..][i..];
      assert s[i + 1] == '.' && s[i + 1..] == s[1..][i..];
    }
  }

  lemma {:induction false} TailForms(s: string, f: string)
    ensures f in FormsFrom(Split(s), 1) <==> IsWildcardOf(f, s)
  {
    if s == "" {
      assert Split(s) == [""];
    } else {
      var rest := Split(s[1..]);
      TailForms(s[1..], f);
      WildcardUnfold(f, s);
      assert [rest[0]] + rest[1..] == rest;
      FormsShift(rest[0], rest[1..], 0);
      if s[0] == '.' {
        FormsShift("", rest, 0);
        JoinSplit(s[1..]);
        assert rest[0..] == rest;
        assert "*." + s[1..] == "*" + s;
      } else {
        FormsShift([s[0]] + rest[0], rest[1..], 0);
      }
    }
  }

  /** The forms of a name are the name and the stars in place of what stands before each of its dots. */
  lemma FormsExactly(dn: string, f: string)
    ensures f in Forms(dn) <==> f == dn || IsWildcardOf(f, dn)
  {
    TailForms(dn, f);
  }

  // ----- the store -----

  datatype Store<E> = Store(certs: map<Key, E>, queue: seq<E>)

  function Without<E(==)>(certs: map<Key, E>, d: E): map<Key, E> {
    map k | k in certs && certs[k] != d :: certs[k]
  }

  function Expire<E(==)>(s: Store<E>, entry: E): Store<E> {
    var queue := s.queue + [entry];
    if |queue| > STORE_CAP then Store(Without(s.certs, queue[0]), queue[1..]) else Store(s.certs, queue)
  }

  function Customs(names: seq<string>): seq<Key> {
    seq(|names|, i requires 0 <= i < |names| => Custom(names[i]))
  }

  function FormsOfAll(sans: seq<GeneralName>): seq<string> {
    if sans == [] then [] else AsteriskForms(sans[0]) + FormsOfAll(sans[1..])
  }

  /** The keys a lookup tries, in order. */
  function PotentialKeys(cn: Option<string>, sans: seq<GeneralName>): seq<Key> {
    Customs((if cn.Some? && cn.value != "" then Forms(cn.value) else []) + FormsOfAll(sans) + ["*"]) + [Generated(cn, sans)]
  }

  function FirstMatch<E>(certs: map<Key, E>, keys: seq<Key>): (r: Option<Key>)
    ensures r.Some? ==> r.value in certs && r.value in keys
    ensures r.None? ==> forall k :: k in keys ==> k !in certs
  {
    if keys == [] then None else if keys[0] in certs then Some(keys[0]) else FirstMatch(certs, keys[1..])
  }

  /** Whether a lookup finds an entry. A match of the empty name is taken for no match. */
  predicate Hit<E>(s: Store<E>, cn: Option<string>, sans: seq<GeneralName>) {
    var name := FirstMatch(s.certs, PotentialKeys(cn, sans));
    name.Some? && name.value != Custom("")
  }

  function GetCert<E(==)>(s: Store<E>, cn: Option<string>, sans: seq<GeneralName>, made: E): (Store<E>, E) {
    if Hit(s, cn, sans) then (s, s.certs[FirstMatch(s.certs, PotentialKeys(cn, sans)).value])
    else (Expire(s.(certs := s.certs[Generated(cn, sans) := made]), made), made)
  }

  function Register<E>(certs: map<Key, E>, names: seq<string>, entry: E): map<Key, E>
    decreases |names|
  {
    if names == [] then certs else Register(certs[Custom(names[0]) := entry], names[1..], entry)
  }

  function Texts(names: seq<GeneralName>): seq<string> {
    seq(|names|, i requires 0 <= i < |names| => TextOf(names[i]))
  }

  /** The names an entry is added under. */
  function NamesOf(cn: Option<string>, altnames: seq<GeneralName>, names: seq<string>): seq<string> {
    (if cn.Some? && cn.value != "" then [cn.value] else []) + Texts(altnames) + names
  }

  class CertStore<E(==, !new)> {
    var certs: map<Key, E>
    var expireQueue: seq<E>

    ghost function Snapshot(): Store<E>
      reads this
    {
      Store(certs, expireQueue)
    }

    constructor ()
      ensures Snapshot() == Store(map[], [])
    {
      certs, expireQueue := map[], [];
    }

    /** `expire`: when the new entry is the only one that the queue lacks, generated keys and queue correspond
        afterwards, within the bound; only the oldest entry can lose its keys. */
    method ExpireEntry(entry: E)
      modifies this
      ensures Snapshot() == Expire(old(Snapshot()), entry)
      ensures |old(expireQueue)| <= STORE_CAP && Linked(Store(old(certs), old(expireQueue) + [entry])) ==> Inv(Snapshot())
      ensures forall k :: k in certs ==> k in old(certs) && certs[k] == old(certs)[k]
      ensures forall k :: k in old(certs) && k !in certs ==>
        |old(expireQueue)| >= STORE_CAP && old(certs)[k] == (old(expireQueue) + [entry])[0]
    {
      if Linked(Store(certs, expireQueue + [entry])) {
        EvictFirst(Store(certs, expireQueue + [entry]));
      }
      expireQueue := expireQueue + [entry];
      if |expireQueue| > STORE_CAP {
        var d := expireQueue[0];
        expireQueue := expireQueue[1..];
        certs := map k | k in certs && certs[k] != d :: certs[k];
      }
    }

    method AddCert(entry: E, cn: Option<string>, altnames: seq<GeneralName>, names: seq<string>)
      modifies this
      ensures Snapshot() == Store(Register(old(certs), NamesOf(cn, altnames, names), entry), old(expireQueue))
    {
      ghost var all := NamesOf(cn, altnames, names);
      ghost var first := if cn.Some? && cn.value != "" then 1 else 0;
      ghost var before := certs;
      if cn.Some? && cn.value != "" {
        certs := certs[Custom(cn.value) := entry];
        assert all == [cn.value] + all[1..];
      } else {
        assert all[0..] == all;
      }
      for i := 0 to |altnames|
        invariant expireQueue == old(expireQueue)
        invariant Register(before, all, entry) == Register(certs, all[first + i..], entry)
      {
        assert all[first + i] == TextOf(altnames[i]) && all[first + i..][1..] == all[first + i + 1..];
        certs := certs[Custom(TextOf(altnames[i])) := entry];
      }
      assert all[first + |altnames|..] == names == names[0..];
      for i := 0 to |names|
        invariant expireQueue == old(expireQueue)
        invariant Register(before, all, entry) == Register(certs, names[i..], entry)
      {
        assert names[i..][1..] == names[i + 1..];
        certs := certs[Custom(names[i]) := entry];
      }
    }

    method Get(commonname: Option<string>, sans: seq<GeneralName>, made: E) returns (entry: E)
      modifies this
      ensures (Snapshot(), entry) == GetCert(old(Snapshot()), commonname, sans, made)
    {
      var names: seq<string> := [];
      if commonname.Some? && commonname.value != "" {
        names := AsteriskFormsOfName(commonname.value);
      }
      ghost var own := names;
      assert sans[0..] == sans;
      for i := 0 to |sans|
        invariant certs == old(certs) && expireQueue == old(expireQueue)
        invariant names + FormsOfAll(sans[i..]) == own + FormsOfAll(sans)
      {
        assert sans[i..][1..] == sans[i + 1..];
        assert names + (AsteriskForms(sans[i]) + FormsOfAll(sans[i + 1..])) == names + AsteriskForms(sans[i]) + FormsOfAll(sans[i + 1..]);
        names := names + AsteriskForms(sans[i]);
      }
      assert names == own + FormsOfAll(sans);
      var keys := Customs(names + ["*"]) + [Generated(commonname, sans)];
      assert keys == PotentialKeys(commonname, sans);
      var name := FirstMatch(certs, keys);
      if name.Some? && name.value != Custom("") {
        entry := certs[name.value];
      } else {
        entry := made;
        certs := certs[Generated(commonname, sans) := entry];
        ExpireEntry(entry);
      }
    }
  }

  // ----- the order of a lookup -----

  /** The first match is the entry of the earliest potential key that is present. */
  lemma {:induction false} FirstMatchIsFirst<E>(certs: map<Key, E>, keys: seq<Key>, i: nat)
    requires i < |keys| && keys[i] in certs && forall j :: 0 <= j < i ==> keys[j] !in certs
    ensures FirstMatch(certs, keys) == Some(keys[i])
  {
    if i > 0 {
      FirstMatchIsFirst(certs, keys[1..], i - 1);
    }
  }

  /** Which entry a lookup returns, for every store: with `i` the place of the first key present, in the order of the
      common name's forms, the alternative names' forms, the star and the generated key, it is that key's entry exactly
      when the key is not the empty name or the new entry happens to be the same. It then leaves the store alone;
      otherwise, as when no key is present, it returns the new entry and files it under the generated key. */
  lemma LookupReturnsFirst<E>(s: Store<E>, cn: Option<string>, sans: seq<GeneralName>, made: E, i: nat)
    requires i <= |PotentialKeys(cn, sans)|
    requires forall j :: 0 <= j < i ==> PotentialKeys(cn, sans)[j] !in s.certs
    requires i < |PotentialKeys(cn, sans)| ==> PotentialKeys(cn, sans)[i] in s.certs
    ensures i < |PotentialKeys(cn, sans)| ==>
      var first := PotentialKeys(cn, sans)[i];
      && (GetCert(s, cn, sans, made).1 == s.certs[first] <==> first != Custom("") || made == s.certs[first])
      && (first != Custom("") ==> GetCert(s, cn, sans, made).0 == s)
    ensures i == |PotentialKeys(cn, sans)| || PotentialKeys(cn, sans)[i] == Custom("") ==>
      && GetCert(s, cn, sans, made).1 == made
      && (made !in s.queue && |s.queue| <= STORE_CAP ==>
            Generated(cn, sans) in GetCert(s, cn, sans, made).0.certs && GetCert(s, cn, sans, made).0.certs[Generated(cn, sans)] == made)
  {
    var keys := PotentialKeys(cn, sans);
    if i < |keys| {
      FirstMatchIsFirst(s.certs, keys, i);
    }
    if i == |keys| || keys[i] == Custom("") {
      assert !Hit(s, cn, sans);
      if made !in s.queue && |s.queue| <= STORE_CAP {
        NewIsFiled(s, Generated(cn, sans), made);
      }
    }
  }

  lemma NewIsFiled<E>(s: Store<E>, g: Key, made: E)
    requires made !in s.queue && |s.queue| <= STORE_CAP
    ensures var certs := Expire(s.(certs := s.certs[g := made]), made).certs; g in certs && certs[g] == made
  {
    var queue := s.queue + [made];
    assert |queue| > STORE_CAP ==> queue[0] in s.queue;
  }

  // ----- which name is found -----

  /** A form of a name: itself, or for a DNS name a star in place of what stands before one of its dots. */
  predicate IsFormOf(f: string, n: GeneralName) {
    f == TextOf(n) || (n.DnsName? && IsWildcardOf(f, n.value))
  }

  ghost predicate NoForm<E>(certs: map<Key, E>, n: GeneralName) {
    forall f :: IsFormOf(f, n) ==> Custom(f) !in certs
  }

  /** The form under which a name is found: the name itself if it is there, else the longest of its wildcards that is. */
  ghost predicate FoundAs<E>(certs: map<Key, E>, n: GeneralName, f: string) {
    && IsFormOf(f, n) && Custom(f) in certs
    && (f != TextOf(n) ==>
          Custom(TextOf(n)) !in certs && forall g :: IsFormOf(g, n) && Custom(g) in certs ==> |g| <= |f|)
  }

  /** Each later form is shorter. */
  predicate Shrinks(forms: seq<string>) {
    forms == [] || ((forall f :: f in forms[1..] ==> |f| < |forms[0]|) && Shrinks(forms[1..]))
  }

  lemma {:induction false} FormsShrink(parts: seq<string>, i: nat)
    requires i < |parts|
    ensures Shrinks(FormsFrom(parts, i)) && forall f :: f in FormsFrom(parts, i) ==> |f| <= 2 + |Join(parts[i..])|
    decreases |parts| - i
  {
    var rest := FormsFrom(parts, i + 1);
    assert (["*." + Join(parts[i..])] + rest)[1..] == rest;
    if i + 1 < |parts| {
      FormsShrink(parts, i + 1);
      assert parts[i..][1..] == parts[i + 1..];
    } else {
      assert rest == [];
    }
  }

  lemma {:induction false} LongestMatch<E>(certs: map<Key, E>, forms: seq<string>)
    requires Shrinks(forms)
    ensures match FirstMatch(certs, Customs(forms))
            case None => forall f :: f in forms ==> Custom(f) !in certs
            case Some(k) =>
              && k.Custom? && k.name in forms && k in certs
              && forall g :: g in forms && Custom(g) in certs ==> |g| <= |k.name|
    decreases |forms|
  {
    if forms != [] {
      LongestMatch(certs, forms[1..]);
      assert Customs(forms)[1..] == Customs(forms[1..]) && forms == [forms[0]] + forms[1..];
    }
  }

  lemma {:induction false} FirstMatchAppend<E>(certs: map<Key, E>, a: seq<Key>, b: seq<Key>)
    ensures FirstMatch(certs, a + b) == if FirstMatch(certs, a).Some? then FirstMatch(certs, a) else FirstMatch(certs, b)
    decreases |a|
  {
    if a == [] {
      assert a + b == b;
    } else {
      assert (a + b)[1..] == a[1..] + b;
      FirstMatchAppend(certs, a[1..], b);
    }
  }

  lemma CustomsAppend(a: seq<string>, b: seq<string>)
    ensures Customs(a + b) == Customs(a) + Customs(b)
  {
  }

  lemma SomePart(parts: seq<string>)
    requires parts != []
    ensures if |parts| == 1 then FormsFrom(parts, 1) == [] else Shrinks(FormsFrom(parts, 1))
  {
    if |parts| > 1 {
      FormsShrink(parts, 1);
    }
  }

  lemma NameMatches<E>(certs: map<Key, E>, n: GeneralName)
    ensures match FirstMatch(certs, Customs(AsteriskForms(n)))
            case None => NoForm(certs, n)
            case Some(k) => k.Custom? && FoundAs(certs, n, k.name)
  {
    var text := TextOf(n);
    if n.DnsName? {
      var tail := FormsFrom(Split(text), 1);
      SomePart(Split(text));
      LongestMatch(certs, tail);
      forall f ensures f in tail <==> IsWildcardOf(f, text) {
        TailForms(text, f);
      }
      assert Customs([text] + tail)[1..] == Customs(tail);
    } else {
      assert Customs([text])[1..] == [];
    }
  }

  lemma {:induction false} NamesMatch<E>(certs: map<Key, E>, sans: seq<GeneralName>)
    ensures match FirstMatch(certs, Customs(FormsOfAll(sans)))
            case None => forall i :: 0 <= i < |sans| ==> NoForm(certs, sans[i])
            case Some(k) =>
              k.Custom? && exists i :: 0 <= i < |sans| && FoundAs(certs, sans[i], k.name) && forall j :: 0 <= j < i ==> NoForm(certs, sans[j])
    decreases |sans|
  {
    if sans != [] {
      var first, rest := AsteriskForms(sans[0]), FormsOfAll(sans[1..]);
      NameMatches(certs, sans[0]);
      NamesMatch(certs, sans[1..]);
      CustomsAppend(first, rest);
      FirstMatchAppend(certs, Customs(first), Customs(rest));
      LaterName(certs, sans, FirstMatch(certs, Customs(first)), FirstMatch(certs, Customs(rest)));
    }
  }

  lemma LaterName<E>(certs: map<Key, E>, sans: seq<GeneralName>, first: Option<Key>, rest: Option<Key>)
    requires sans != []
    requires match first case None => NoForm(certs, sans[0]) case Some(k) => k.Custom? && FoundAs(certs, sans[0], k.name)
    requires match rest
             case None => forall i :: 0 <= i < |sans[1..]| ==> NoForm(certs, sans[1..][i])
             case Some(k) =>
               k.Custom? && exists i :: 0 <= i < |sans[1..]| && FoundAs(certs, sans[1..][i], k.name)
                                        && forall j :: 0 <= j < i ==> NoForm(certs, sans[1..][j])
    ensures match if first.Some? then first else rest
            case None => forall i :: 0 <= i < |sans| ==> NoForm(certs, sans[i])
            case Some(k) =>
              k.Custom? && exists i :: 0 <= i < |sans| && FoundAs(certs, sans[i], k.name) && forall j :: 0 <= j < i ==> NoForm(certs, sans[j])
  {
    assert forall i :: 0 < i < |sans| ==> sans[i] == sans[1..][i - 1];
    if first.Some? {
      assert FoundAs(certs, sans[0], first.value.name);
    } else if rest.Some? {
      var k := rest.value;
      var i :| 0 <= i < |sans[1..]| && FoundAs(certs, sans[1..][i], k.name) && forall j :: 0 <= j < i ==> NoForm(certs, sans[1..][j]);
      assert FoundAs(certs, sans[i + 1], k.name);
    }
  }

  /** The names a lookup goes by, in order: the common name, if there is one, and then the alternative names. */
  function NamesFor(cn: Option<string>, sans: seq<GeneralName>): seq<GeneralName> {
    (if cn.Some? && cn.value != "" then [DnsName(cn.value)] else []) + sans
  }

  /** Which entry a lookup returns, by the names alone. The first name that has a form in the store decides: it is found as
      itself or else by its longest wildcard. A star in the store is used only if no name has a form there, and an entry
      generated before only if there is no star either. Otherwise, and where the form found is the empty name, the new
      entry is returned. */
  lemma LookupByNames<E>(s: Store<E>, cn: Option<string>, sans: seq<GeneralName>, made: E, i: nat, f: string)
    ensures var names := NamesFor(cn, sans); var (s', entry) := GetCert(s, cn, sans, made);
      && (i < |names| && FoundAs(s.certs, names[i], f) && (forall j :: 0 <= j < i ==> NoForm(s.certs, names[j])) ==>
            if f != "" then s' == s && entry == s.certs[Custom(f)] else entry == made)
      && ((forall j :: 0 <= j < |names| ==> NoForm(s.certs, names[j])) ==>
            if Custom("*") in s.certs then s' == s && entry == s.certs[Custom("*")]
            else if Generated(cn, sans) in s.certs then s' == s && entry == s.certs[Generated(cn, sans)]
            else entry == made)
  {
    var names := NamesFor(cn, sans);
    var r := FirstMatch(s.certs, Customs(FormsOfAll(names)));
    KeysInOrder(s.certs, cn, sans);
    NamesMatch(s.certs, names);
    if i < |names| && FoundAs(s.certs, names[i], f) && forall j :: 0 <= j < i ==> NoForm(s.certs, names[j]) {
      OneForm(s.certs, names, i, f, r);
      Returned(s, cn, sans, made, r);
    }
    if forall j :: 0 <= j < |names| ==> NoForm(s.certs, names[j]) {
      NoFormFound(s.certs, names, r);
      Returned(s, cn, sans, made, r);
    }
  }

  lemma KeysInOrder<E>(certs: map<Key, E>, cn: Option<string>, sans: seq<GeneralName>)
    ensures var r := FirstMatch(certs, Customs(FormsOfAll(NamesFor(cn, sans))));
      FirstMatch(certs, PotentialKeys(cn, sans))
      == if r.Some? then r
         else if Custom("*") in certs then Some(Custom("*"))
         else if Generated(cn, sans) in certs then Some(Generated(cn, sans)) else None
  {
    var names := NamesFor(cn, sans);
    var forms := (if cn.Some? && cn.value != "" then Forms(cn.value) else []) + FormsOfAll(sans);
    assert forms == FormsOfAll(names) by {
      if cn.Some? && cn.value != "" {
        assert names[0] == DnsName(cn.value) && names[1..] == sans;
      } else {
        assert names == sans;
      }
    }
    var last := Customs(["*"]) + [Generated(cn, sans)];
    CustomsAppend(forms, ["*"]);
    assert PotentialKeys(cn, sans) == Customs(forms) + last;
    FirstMatchAppend(certs, Customs(forms), last);
    assert last[0] == Custom("*") && last[1..] == [Generated(cn, sans)] && last[1..][1..] == [];
  }

  lemma Returned<E>(s: Store<E>, cn: Option<string>, sans: seq<GeneralName>, made: E, r: Option<Key>)
    requires FirstMatch(s.certs, PotentialKeys(cn, sans))
      == if r.Some? then r
         else if Custom("*") in s.certs then Some(Custom("*"))
         else if Generated(cn, sans) in s.certs then Some(Generated(cn, sans)) else None
    requires r.Some? ==> r.value in s.certs
    ensures var (s', entry) := GetCert(s, cn, sans, made);
      if r.Some? && r.value != Custom("") then s' == s && entry == s.certs[r.value]
      else if r.Some? then entry == made
      else if Custom("*") in s.certs then s' == s && entry == s.certs[Custom("*")]
      else if Generated(cn, sans) in s.certs then s' == s && entry == s.certs[Generated(cn, sans)]
      else entry == made
  {
  }

  lemma NoFormFound<E>(certs: map<Key, E>, names: seq<GeneralName>, r: Option<Key>)
    requires forall j :: 0 <= j < |names| ==> NoForm(certs, names[j])
    requires r.Some? ==> r.value.Custom? && exists i :: 0 <= i < |names| && FoundAs(certs, names[i], r.value.name)
                                                        && forall j :: 0 <= j < i ==> NoForm(certs, names[j])
    ensures r.None?
  {
  }

  /** A name is found under one form only. */
  lemma OneForm<E>(certs: map<Key, E>, names: seq<GeneralName>, i: nat, f: string, r: Option<Key>)
    requires i < |names| && FoundAs(certs, names[i], f) && forall j :: 0 <= j < i ==> NoForm(certs, names[j])
    requires match r
             case None => forall j :: 0 <= j < |names| ==> NoForm(certs, names[j])
             case Some(k) =>
               k.Custom? && exists j :: 0 <= j < |names| && FoundAs(certs, names[j], k.name) && forall l :: 0 <= l < j ==> NoForm(certs, names[l])
    ensures r == Some(Custom(f))
  {
    var k := r.value;
    var j :| 0 <= j < |names| && FoundAs(certs, names[j], k.name) && forall l :: 0 <= l < j ==> NoForm(certs, names[l]);
    assert !NoForm(certs, names[i]) && !NoForm(certs, names[j]);
    assert i == j;
    SameForm(certs, names[i], f, k.name);
  }

  lemma SameForm<E>(certs: map<Key, E>, n: GeneralName, f: string, g: string)
    requires FoundAs(certs, n, f) && FoundAs(certs, n, g)
    ensures f == g
  {
    if f != TextOf(n) && g != TextOf(n) {
      var dn := TextOf(n);
      var i :| 0 <= i < |dn| && dn[i] == '.' && f == "*" + dn[i..];
      var j :| 0 <= j < |dn| && dn[j] == '.' && g == "*" + dn[j..];
      assert |f| == |g| && i == j;
    }
  }

  // ----- one to one -----

  predicate Distinct<E(==)>(queue: seq<E>) {
    forall i, j :: 0 <= i < j < |queue| ==> queue[i] != queue[j]
  }

  ghost predicate Held<E(!new)>(certs: map<Key, E>, e: E) {
    exists k :: k in certs && k.Generated? && certs[k] == e
  }

  /** The generated keys and the queue correspond one to one, and nothing added by hand is in the queue. */
  ghost predicate Inv<E(!new)>(s: Store<E>) {
    && |s.queue| <= STORE_CAP && Distinct(s.queue)
    && (forall k :: k in s.certs ==> (s.certs[k] in s.queue <==> k.Generated?))
    && (forall e :: e in s.queue ==> Held(s.certs, e))
    && (forall k, l :: k in s.certs && l in s.certs && k.Generated? && l.Generated? && s.certs[k] == s.certs[l] ==> k == l)
  }

  ghost predicate New<E(!new)>(s: Store<E>, e: E) {
    e !in s.queue && e !in s.certs.Values
  }

  /** A lookup that would leave an entry in the queue with no key: the empty name matched first, and the
      generated key is taken by an entry that is not evicted at once. */
  predicate Strands<E(==)>(s: Store<E>, cn: Option<string>, sans: seq<GeneralName>) {
    && FirstMatch(s.certs, PotentialKeys(cn, sans)) == Some(Custom(""))
    && Generated(cn, sans) in s.certs
    && !(|s.queue| == STORE_CAP && s.queue[0] == s.certs[Generated(cn, sans)])
  }

  /** Inv without the bound on the queue. */
  ghost predicate Linked<E(!new)>(s: Store<E>) {
    && Distinct(s.queue)
    && (forall k :: k in s.certs ==> (s.certs[k] in s.queue <==> k.Generated?))
    && (forall e :: e in s.queue ==> Held(s.certs, e))
    && (forall k, l :: k in s.certs && l in s.certs && k.Generated? && l.Generated? && s.certs[k] == s.certs[l] ==> k == l)
  }

  lemma PutNew<E(!new)>(s: Store<E>, g: Key, made: E)
    requires Linked(s) && New(s, made) && g !in s.certs && g.Generated?
    ensures Linked(Store(s.certs[g := made], s.queue + [made]))
  {
    var certs := s.certs[g := made];
    forall e | e in s.queue + [made] ensures Held(certs, e) {
      if e in s.queue {
        var k :| k in s.certs && k.Generated? && s.certs[k] == e;
        assert certs[k] == e;
      } else {
        assert certs[g] == e;
      }
    }
    forall k | k in certs ensures certs[k] in s.queue + [made] <==> k.Generated? {
      if k != g {
        assert s.certs[k] in s.certs.Values;
      }
    }
    forall k, l | k in certs && l in certs && k.Generated? && l.Generated? && certs[k] == certs[l] ensures k == l {
      assert k != g ==> s.certs[k] in s.certs.Values;
      assert l != g ==> s.certs[l] in s.certs.Values;
    }
  }

  lemma EvictFirst<E(!new)>(s: Store<E>)
    requires Linked(s) && s.queue != []
    ensures Linked(Store(Without(s.certs, s.queue[0]), s.queue[1..]))
  {
    var d, certs := s.queue[0], Without(s.certs, s.queue[0]);
    forall e | e in s.queue[1..] ensures Held(certs, e) {
      assert e in s.queue;
      var k :| k in s.certs && k.Generated? && s.certs[k] == e;
      assert e != d;
      assert k in certs && certs[k] == e;
    }
    forall k | k in certs ensures certs[k] in s.queue[1..] <==> k.Generated? {
      assert certs[k] == s.certs[k] && s.queue == [d] + s.queue[1..];
    }
  }

  lemma EvictAndReplace<E(!new)>(s: Store<E>, g: Key, made: E)
    requires Linked(s) && New(s, made) && g in s.certs && g.Generated? && s.queue != [] && s.certs[g] == s.queue[0]
    ensures Linked(Store(Without(s.certs[g := made], s.queue[0]), s.queue[1..] + [made]))
  {
    var d := s.queue[0];
    var s' := Store(Without(s.certs, d), s.queue[1..]);
    EvictFirst(s);
    forall e | e in s'.certs.Values ensures e in s.certs.Values {
      var k :| k in s'.certs && s'.certs[k] == e;
      assert s.certs[k] == e;
    }
    PutNew(s', g, made);
    assert s'.certs[g := made] == Without(s.certs[g := made], d);
  }

  lemma GeneratedIsPotential<E>(certs: map<Key, E>, cn: Option<string>, sans: seq<GeneralName>)
    requires FirstMatch(certs, PotentialKeys(cn, sans)).None?
    ensures Generated(cn, sans) !in certs
  {
    var keys := PotentialKeys(cn, sans);
    assert keys[|keys| - 1] == Generated(cn, sans);
  }

  lemma MissKeepsInv<E(!new)>(s: Store<E>, cn: Option<string>, sans: seq<GeneralName>, made: E)
    requires Inv(s) && New(s, made) && !Hit(s, cn, sans) && !Strands(s, cn, sans)
    ensures Inv(GetCert(s, cn, sans, made).0)
  {
    var g := Generated(cn, sans);
    if g in s.certs {
      if FirstMatch(s.certs, PotentialKeys(cn, sans)).None? {
        GeneratedIsPotential(s.certs, cn, sans);
      }
      EvictAndReplace(s, g, made);
      assert (s.queue + [made])[1..] == s.queue[1..] + [made];
    } else {
      PutNew(s, g, made);
      EvictFirst(Store(s.certs[g := made], s.queue + [made]));
    }
  }

  lemma StrandingBreaksInv<E(!new)>(s: Store<E>, cn: Option<string>, sans: seq<GeneralName>, made: E)
    requires Inv(s) && New(s, made) && Strands(s, cn, sans)
    ensures !Inv(GetCert(s, cn, sans, made).0)
  {
    var g := Generated(cn, sans);
    var s', old' := GetCert(s, cn, sans, made).0, s.certs[g];
    assert old' in s'.queue by {
      var i :| 0 <= i < |s.queue| && s.queue[i] == old';
      assert (s.queue + [made])[i] == old';
      assert |s.queue| == STORE_CAP ==> i > 0 && (s.queue + [made])[1..][i - 1] == old';
    }
    forall k | k in s'.certs && k.Generated? ensures s'.certs[k] != old' {
      assert s'.certs[k] == if k == g then made else s.certs[k];
      assert old' in s.certs.Values;
    }
    assert !Held(s'.certs, old');
  }

  /** A lookup keeps the correspondence exactly when it strands no entry; with no entry under the empty name none does. */
  lemma LookupKeepsInvExactly<E(!new)>(s: Store<E>, cn: Option<string>, sans: seq<GeneralName>, made: E)
    requires Inv(s) && New(s, made)
    ensures Inv(GetCert(s, cn, sans, made).0) <==> !Strands(s, cn, sans)
    ensures Custom("") !in s.certs ==> !Strands(s, cn, sans)
  {
    if Strands(s, cn, sans) {
      StrandingBreaksInv(s, cn, sans, made);
    } else if !Hit(s, cn, sans) {
      MissKeepsInv(s, cn, sans, made);
    }
  }

  /** A certificate added under the empty name, and two lookups of the same empty name: two entries wait in the queue for one key. */
  lemma EmptyNameStrands<E(!new)>(added: E, first: E, second: E)
    requires added != first && added != second && first != second
    ensures var sans := [DnsName("")];
      var s1 := Store(Register(map[], NamesOf(None, [], [""]), added), []);
      var s2 := GetCert(s1, None, sans, first).0;
      Inv(s1) && Inv(s2) && !Inv(GetCert(s2, None, sans, second).0)
  {
    var sans := [DnsName("")];
    var names := NamesOf(None, [], [""]);
    assert names == [""] && names[1..] == [];
    var s1 := Store(Register(map[], names, added), []);
    assert s1.certs == map[Custom("") := added];
    var keys := PotentialKeys(None, sans);
    assert sans[1..] == [] && Split("") == [""] && Forms("") == [""];
    assert keys[0] == Custom("");
    FirstMatchIsFirst(s1.certs, keys, 0);
    LookupKeepsInvExactly(s1, None, sans, first);
    var s2 := GetCert(s1, None, sans, first).0;
    FirstMatchIsFirst(s2.certs, keys, 0);
    assert second !in s2.certs.Values;
    LookupKeepsInvExactly(s2, None, sans, second);
  }

  // ----- runs -----

  datatype Op<E> =
    | Add(entry: E, cn: Option<string>, altnames: seq<GeneralName>, names: seq<string>)
    | Lookup(commonname: Option<string>, sans: seq<GeneralName>, made: E)

  function Apply<E(==)>(s: Store<E>, op: Op<E>): Store<E> {
    match op
    case Add(entry, cn, altnames, names) => s.(certs := Register(s.certs, NamesOf(cn, altnames, names), entry))
    case Lookup(cn, sans, made) => GetCert(s, cn, sans, made).0
  }

  function Run<E(==)>(s: Store<E>, ops: seq<Op<E>>): Store<E>
    decreases |ops|
  {
    if ops == [] then s else Run(Apply(s, ops[0]), ops[1..])
  }

  /** What one operation generates. */
  function MadeBy<E>(s: Store<E>, op: Op<E>): seq<E> {
    if op.Lookup? && !Hit(s, op.commonname, op.sans) then [op.made] else []
  }

  /** The entries generated over a run, in order. */
  function Made<E(==)>(s: Store<E>, ops: seq<Op<E>>): seq<E>
    decreases |ops|
  {
    if ops == [] then [] else MadeBy(s, ops[0]) + Made(Apply(s, ops[0]), ops[1..])
  }

  /** Generated certificates are new (their serial numbers are random), certificates added by hand are
      not generated ones, and none is added under the empty name. */
  predicate Fresh<E(==)>(ops: seq<Op<E>>, seen: set<E>, made: set<E>)
    decreases |ops|
  {
    ops == [] ||
    match ops[0]
    case Add(entry, cn, altnames, names) =>
      entry !in made && "" !in NamesOf(cn, altnames, names) && Fresh(ops[1..], seen + {entry}, made)
    case Lookup(_, _, e) => e !in seen && Fresh(ops[1..], seen + {e}, made + {e})
  }

  ghost predicate Known<E(!new)>(s: Store<E>, seen: set<E>, made: set<E>) {
    && Custom("") !in s.certs
    && (forall e :: e in s.queue ==> e in made) && made <= seen
    && (forall k :: k in s.certs ==> s.certs[k] in seen)
  }

  lemma {:induction false} RegisterKeeps<E(!new)>(s: Store<E>, names: seq<string>, entry: E)
    requires Inv(s) && entry !in s.queue
    ensures var certs := Register(s.certs, names, entry);
      && Inv(Store(certs, s.queue))
      && (forall k: Key :: k.Generated? ==> (k in certs <==> k in s.certs) && (k in certs ==> certs[k] == s.certs[k]))
      && (forall k :: k in certs ==> (k in s.certs && certs[k] == s.certs[k]) || (k.Custom? && k.name in names && certs[k] == entry))
    decreases |names|
  {
    if names != [] {
      var certs := s.certs[Custom(names[0]) := entry];
      forall e | e in s.queue ensures Held(certs, e) {
        var k :| k in s.certs && k.Generated? && s.certs[k] == e;
        assert certs[k] == e;
      }
      RegisterKeeps(Store(certs, s.queue), names[1..], entry);
    }
  }

  /** The state of knowledge after an operation. */
  function Seen<E(==)>(op: Op<E>, seen: set<E>): set<E> {
    seen + {if op.Add? then op.entry else op.made}
  }

  function MadeSet<E(==)>(op: Op<E>, made: set<E>): set<E> {
    if op.Add? then made else made + {op.made}
  }

  lemma StepKeeps<E(!new)>(s: Store<E>, ops: seq<Op<E>>, seen: set<E>, made: set<E>)
    requires ops != [] && Inv(s) && Known(s, seen, made) && Fresh(ops, seen, made)
    ensures Inv(Apply(s, ops[0])) && Known(Apply(s, ops[0]), Seen(ops[0], seen), MadeSet(ops[0], made))
    ensures Fresh(ops[1..], Seen(ops[0], seen), MadeSet(ops[0], made))
  {
    match ops[0] {
      case Add(entry, cn, altnames, names) => RegisterKeeps(s, NamesOf(cn, altnames, names), entry);
      case Lookup(cn, sans, e) =>
        LookupKeepsInvExactly(s, cn, sans, e);
    }
  }

  /** In every reachable store the generated keys and the queue of at most 100 entries correspond one to one. */
  lemma {:induction false} AlwaysOneToOne<E(!new)>(s: Store<E>, ops: seq<Op<E>>, seen: set<E>, made: set<E>)
    requires Inv(s) && Known(s, seen, made) && Fresh(ops, seen, made)
    ensures Inv(Run(s, ops))
    decreases |ops|
  {
    if ops != [] {
      StepKeeps(s, ops, seen, made);
      AlwaysOneToOne(Apply(s, ops[0]), ops[1..], Seen(ops[0], seen), MadeSet(ops[0], made));
    }
  }

  lemma ReachableOneToOne<E(!new)>(ops: seq<Op<E>>)
    requires Fresh(ops, {}, {})
    ensures Inv(Run(Store(map[], []), ops)) && |Run(Store(map[], []), ops).queue| <= 100
  {
    AlwaysOneToOne(Store(map[], []), ops, {}, {});
  }

  lemma {:induction false} RegisteredUnder<E>(certs: map<Key, E>, names: seq<string>, entry: E, k: Key)
    ensures var r := Register(certs, names, entry);
      if k.Custom? && k.name in names then k in r && r[k] == entry
      else (k in r <==> k in certs) && (k in r ==> r[k] == certs[k])
    decreases |names|
  {
    if names != [] {
      RegisteredUnder(certs[Custom(names[0]) := entry], names[1..], entry, k);
    }
  }

  /** An addition files the entry under the common name if there is one, the text of every alternative name and every
      name given, and changes nothing else. */
  lemma AddedUnder<E>(s: Store<E>, entry: E, cn: Option<string>, altnames: seq<GeneralName>, names: seq<string>, k: Key)
    ensures var s' := Apply(s, Add(entry, cn, altnames, names));
      && s'.queue == s.queue
      && if k.Custom? && ((k.name != "" && cn == Some(k.name)) || (exists n :: n in altnames && k.name == TextOf(n)) || k.name in names)
         then k in s'.certs && s'.certs[k] == entry
         else (k in s'.certs <==> k in s.certs) && (k in s'.certs ==> s'.certs[k] == s.certs[k])
  {
    var all := NamesOf(cn, altnames, names);
    RegisteredUnder(s.certs, all, entry, k);
    if k.Custom? {
      TextsExactly(altnames, k.name);
      var first := if cn.Some? && cn.value != "" then [cn.value] else [];
      assert all == first + Texts(altnames) + names;
    }
  }

  lemma TextsExactly(names: seq<GeneralName>, text: string)
    ensures text in Texts(names) <==> exists n :: n in names && text == TextOf(n)
  {
    if n :| n in names && text == TextOf(n) {
      var i :| 0 <= i < |names| && names[i] == n;
      assert Texts(names)[i] == text;
    }
  }

  // ----- what stays and what leaves -----

  function HandAdded<E>(certs: map<Key, E>): map<Key, E> {
    map k | k in certs && k.Custom? :: certs[k]
  }

  /** The certificates added by hand, over a run. */
  function Added<E>(certs: map<Key, E>, ops: seq<Op<E>>): map<Key, E>
    decreases |ops|
  {
    if ops == [] then certs
    else match ops[0]
      case Add(entry, cn, altnames, names) => Added(Register(certs, NamesOf(cn, altnames, names), entry), ops[1..])
      case Lookup(_, _, _) => Added(certs, ops[1..])
  }

  lemma {:induction false} RegisterHandAdded<E>(certs: map<Key, E>, names: seq<string>, entry: E)
    ensures HandAdded(Register(certs, names, entry)) == Register(HandAdded(certs), names, entry)
    decreases |names|
  {
    if names != [] {
      RegisterHandAdded(certs[Custom(names[0]) := entry], names[1..], entry);
      assert HandAdded(certs[Custom(names[0]) := entry]) == HandAdded(certs)[Custom(names[0]) := entry];
    }
  }

  lemma LookupKeepsHandAdded<E(!new)>(s: Store<E>, cn: Option<string>, sans: seq<GeneralName>, made: E)
    requires Inv(s) && New(s, made)
    ensures HandAdded(GetCert(s, cn, sans, made).0.certs) == HandAdded(s.certs)
  {
    var queue := s.queue + [made];
    var certs' := GetCert(s, cn, sans, made).0.certs;
    assert queue[0] == made || queue[0] in s.queue;
    forall k: Key | k.Custom?
      ensures k in certs' <==> k in s.certs
      ensures k in certs' ==> certs'[k] == s.certs[k]
    {
      assert k in s.certs ==> s.certs[k] in s.certs.Values;
    }
  }

  /** Names added by hand are never evicted: after any run they are what the additions alone make them. */
  lemma {:induction false} HandAddedStay<E(!new)>(s: Store<E>, ops: seq<Op<E>>, seen: set<E>, made: set<E>)
    requires Inv(s) && Known(s, seen, made) && Fresh(ops, seen, made)
    ensures HandAdded(Run(s, ops).certs) == Added(HandAdded(s.certs), ops)
    decreases |ops|
  {
    if ops != [] {
      StepKeeps(s, ops, seen, made);
      HandAddedStay(Apply(s, ops[0]), ops[1..], Seen(ops[0], seen), MadeSet(ops[0], made));
      match ops[0] {
        case Add(entry, cn, altnames, names) => RegisterHandAdded(s.certs, NamesOf(cn, altnames, names), entry);
        case Lookup(cn, sans, e) =>
          assert e !in s.certs.Values;
          LookupKeepsHandAdded(s, cn, sans, e);
      }
    }
  }

  function Latest<E>(entries: seq<E>): (r: seq<E>)
  {
    if |entries| > STORE_CAP then entries[|entries| - STORE_CAP..] else entries
  }

  lemma LatestTwice<E>(a: seq<E>, b: seq<E>, c: seq<E>)
    ensures Latest(Latest(a + b) + c) == Latest(a + (b + c))
  {
    var ab, n := a + b, |a + b| - STORE_CAP;
    Associative(a, b, c);
    if n > 0 {
      Dropped(ab, c, n);
      if |c| > 0 {
        assert (ab + c)[n..][|c|..] == (ab + c)[n + |c|..];
      }
    }
  }

  lemma Dropped<E>(a: seq<E>, b: seq<E>, n: nat)
    requires n <= |a|
    ensures a[n..] + b == (a + b)[n..]
  {
  }

  /** The queue is the latest 100 of the generated entries. */
  lemma {:induction false} QueueIsLatest<E(!new)>(s: Store<E>, ops: seq<Op<E>>)
    requires |s.queue| <= STORE_CAP
    ensures Run(s, ops).queue == Latest(s.queue + Made(s, ops))
    decreases |ops|
  {
    if ops == [] {
      assert s.queue + [] == s.queue;
    } else {
      var s' := Apply(s, ops[0]);
      assert s'.queue == Latest(s.queue + MadeBy(s, ops[0])) by {
        assert s.queue + [] == s.queue;
      }
      QueueIsLatest(s', ops[1..]);
      LatestTwice(s.queue, MadeBy(s, ops[0]), Made(s', ops[1..]));
    }
  }

  lemma {:induction false} MadeAreNew<E(!new)>(s: Store<E>, ops: seq<Op<E>>, seen: set<E>, made: set<E>, e: E)
    requires Fresh(ops, seen, made) && e in seen
    ensures e !in Made(s, ops)
    decreases |ops|
  {
    if ops != [] {
      MadeAreNew(Apply(s, ops[0]), ops[1..], Seen(ops[0], seen), MadeSet(ops[0], made), e);
    }
  }

  ghost predicate HeldAt<E(!new)>(s: Store<E>, g: Key, e: E) {
    g in s.certs && s.certs[g] == e
  }

  lemma StepKeepsKey<E(!new)>(s: Store<E>, ops: seq<Op<E>>, seen: set<E>, made: set<E>, g: Key, e: E)
    requires ops != [] && Inv(s) && Known(s, seen, made) && Fresh(ops, seen, made)
    requires g.Generated? && HeldAt(s, g, e)
    ensures e in Apply(s, ops[0]).queue ==> HeldAt(Apply(s, ops[0]), g, e)
  {
    match ops[0] {
      case Add(entry, cn, altnames, names) => RegisterKeeps(s, NamesOf(cn, altnames, names), entry);
      case Lookup(cn, sans, new') =>
        if !Hit(s, cn, sans) {
          GeneratedIsPotential(s.certs, cn, sans);
          assert e in s.queue && new' !in s.queue;
          assert Distinct(s.queue + [new']);
        }
    }
  }

  lemma {:induction false} GoneForGood<E(!new)>(s: Store<E>, ops: seq<Op<E>>, seen: set<E>, made: set<E>, g: Key, e: E)
    requires Inv(s) && Known(s, seen, made) && Fresh(ops, seen, made) && g.Generated? && e in seen && e !in s.queue
    ensures !HeldAt(Run(s, ops), g, e) && e !in Run(s, ops).queue
  {
    AlwaysOneToOne(s, ops, seen, made);
    QueueIsLatest(s, ops);
    MadeAreNew(s, ops, seen, made, e);
  }

  lemma {:induction false} HeldWhileQueued<E(!new)>(s: Store<E>, ops: seq<Op<E>>, seen: set<E>, made: set<E>, g: Key, e: E)
    requires Inv(s) && Known(s, seen, made) && Fresh(ops, seen, made) && g.Generated? && HeldAt(s, g, e)
    ensures HeldAt(Run(s, ops), g, e) <==> e in Run(s, ops).queue
    decreases |ops|
  {
    if ops != [] {
      var s', seen', made' := Apply(s, ops[0]), Seen(ops[0], seen), MadeSet(ops[0], made);
      StepKeeps(s, ops, seen, made);
      StepKeepsKey(s, ops, seen, made, g, e);
      if e in s'.queue {
        HeldWhileQueued(s', ops[1..], seen', made', g, e);
      } else {
        GoneForGood(s', ops[1..], seen', made', g, e);
      }
    }
  }

  lemma LivesInQueue<E(!new)>(s: Store<E>, ops: seq<Op<E>>, seen: set<E>, made: set<E>, g: Key, e: E)
    requires Inv(s) && Known(s, seen, made) && Fresh(ops, seen, made)
    requires g.Generated? && HeldAt(s, g, e) && s.queue != [] && s.queue[|s.queue| - 1] == e
    ensures HeldAt(Run(s, ops), g, e) <==> |Made(s, ops)| < STORE_CAP
  {
    var more := Made(s, ops);
    HeldWhileQueued(s, ops, seen, made, g, e);
    QueueIsLatest(s, ops);
    MadeAreNew(s, ops, seen, made, e);
    LastOfLatest(s.queue, more);
  }

  /** A generated entry survives the next 99 entries generated after it and leaves with the 100th. */
  lemma LivesFor100<E(!new)>(s: Store<E>, ops: seq<Op<E>>, seen: set<E>, made: set<E>, g: Key, e: E)
    requires Inv(s) && Known(s, seen, made) && Fresh(ops, seen, made)
    requires g.Generated? && HeldAt(s, g, e) && s.queue != [] && s.queue[|s.queue| - 1] == e
    ensures HeldAt(Run(s, ops), g, e) <==> |Made(s, ops)| < 100
  {
    LivesInQueue(s, ops, seen, made, g, e);
  }

  lemma LastOfLatest<E>(queue: seq<E>, more: seq<E>)
    requires queue != [] && queue[|queue| - 1] !in more
    ensures queue[|queue| - 1] in Latest(queue + more) <==> |more| < STORE_CAP
  {
    var all, e, i := queue + more, queue[|queue| - 1], |queue| - 1;
    var from := if |all| > STORE_CAP then |all| - STORE_CAP else 0;
    assert Latest(all) == all[from..];
    assert all[i] == e;
    if |more| < STORE_CAP {
      assert all[from..][i - from] == e;
    } else {
      assert all[from..] == more[|more| - STORE_CAP..];
    }
  }
}
