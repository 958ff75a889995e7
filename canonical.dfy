/** Canonical serialisation, `json.dumps(value, ensure_ascii=False,
    sort_keys=True)`: the members of every object, at every depth, are written
    in ascending key order, so the text does not depend on the order in which
    the keys were inserted. */
module Canonical {
  import opened Json
  import opened Ordering

  /** The keys of an object's members are strictly ascending. */
  predicate KeysAscending(fields: seq<Field>) {
    forall i, j :: 0 <= i < j < |fields| ==> StrLess(fields[i].0, fields[j].0)
  }

  /** Inserts one member into a list of members sorted by key. */
  function Insert(f: Field, s: seq<Field>): (r: seq<Field>)
    ensures multiset(r) == multiset(s) + multiset{f}
  {
    if s == [] then [f]
    else if StrLess(s[0].0, f.0) then
      assert s == [s[0]] + s[1..];
      [s[0]] + Insert(f, s[1..])
    else [f] + s
  }

  /** `sorted(d.items())`: the members of an object ordered by key. */
  function SortByKey(s: seq<Field>): (r: seq<Field>)
    ensures multiset(r) == multiset(s)
  {
    if s == [] then []
    else
      assert s == [s[0]] + s[1..];
      Insert(s[0], SortByKey(s[1..]))
  }

  lemma ConsAscending(x: Field, t: seq<Field>)
    requires KeysAscending(t)
    requires forall g :: g in t ==> StrLess(x.0, g.0)
    ensures KeysAscending([x] + t)
  {
    forall i, j | 0 <= i < j < |[x] + t| ensures StrLess(([x] + t)[i].0, ([x] + t)[j].0) {
      if i == 0 {
        assert ([x] + t)[j] == t[j - 1];
      }
    }
  }

  /** Inserting a member with a new key keeps the keys strictly ascending. */
  lemma {:induction false} InsertAscending(f: Field, s: seq<Field>)
    requires KeysAscending(s)
    requires forall g :: g in s ==> g.0 != f.0
    ensures KeysAscending(Insert(f, s))
  {
    if s == [] {
    } else if StrLess(s[0].0, f.0) {
      InsertAscending(f, s[1..]);
      var rest := Insert(f, s[1..]);
      forall g | g in rest ensures StrLess(s[0].0, g.0) {
        assert g in multiset(rest);
        if g != f {
          var j :| 1 <= j < |s| && s[j] == g;
        }
      }
      ConsAscending(s[0], rest);
    } else {
      assert s[0] in s;
      StrLessTotal(f.0, s[0].0);
      forall g | g in s ensures StrLess(f.0, g.0) {
        var j :| 0 <= j < |s| && s[j] == g;
        if j > 0 {
          StrLessTransitive(f.0, s[0].0, g.0);
        }
      }
      ConsAscending(f, s);
    }
  }

  /** Sorting the members of a dictionary puts its keys in strictly ascending
      order. */
  lemma {:induction false} SortByKeyAscending(s: seq<Field>)
    requires DistinctKeys(s)
    ensures KeysAscending(SortByKey(s))
  {
    if s != [] {
      SortByKeyAscending(s[1..]);
      var rest := SortByKey(s[1..]);
      forall g | g in rest ensures g.0 != s[0].0 {
        assert g in multiset(s[1..]);
        var j :| 1 <= j < |s| && s[j] == g;
      }
      InsertAscending(s[0], rest);
    }
  }

  /** Two lists of members sorted by key that hold the same members are equal:
      the sorted order of a dictionary's items does not depend on where it
      came from. */
  lemma {:induction false} SortedUnique(s: seq<Field>, t: seq<Field>)
    requires KeysAscending(s) && KeysAscending(t)
    requires forall x :: x in s <==> x in t
    ensures s == t
    decreases |s|
  {
    assert t != [] ==> t[0] in s;
    if s == [] {
    } else {
      assert s[0] in t;
      assert t != [] && t[0] in s;
      var i :| 0 <= i < |s| && s[i] == t[0];
      var j :| 0 <= j < |t| && t[j] == s[0];
      if j != 0 {
        if i != 0 {
          StrLessTransitive(t[0].0, s[0].0, t[0].0);
        }
        StrLessIrreflexive(t[0].0);
        assert false;
      }
      forall x
        ensures x in s[1..] <==> x in t[1..]
      {
        if x in s[1..] {
          var k :| 1 <= k < |s| && s[k] == x;
          StrLessIrreflexive(x.0);
          assert x in t && x != t[0];
          assert t == [t[0]] + t[1..];
        }
        if x in t[1..] {
          var k :| 1 <= k < |t| && t[k] == x;
          StrLessIrreflexive(x.0);
          assert x in s && x != s[0];
          assert s == [s[0]] + s[1..];
        }
      }
      SortedUnique(s[1..], t[1..]);
      assert s == [s[0]] + s[1..] && t == [t[0]] + t[1..];
    }
  }

  /** The canonical form of a value: every object's members sorted by key, at
      every depth; nothing else changes. */
  function Canon(j: Json): Json {
    match j
    case JArray(items) => JArray(seq(|items|, i requires 0 <= i < |items| => Canon(items[i])))
    case JObject(fields) =>
      JObject(SortByKey(seq(|fields|, i requires 0 <= i < |fields| => (fields[i].0, Canon(fields[i].1)))))
    case _ => j
  }

  /** Every object, at every depth, has its keys in strictly ascending order. */
  predicate IsCanonical(j: Json) {
    match j
    case JArray(items) => forall i :: 0 <= i < |items| ==> IsCanonical(items[i])
    case JObject(fields) =>
      KeysAscending(fields) && forall i :: 0 <= i < |fields| ==> IsCanonical(fields[i].1)
    case _ => true
  }

  /** `a` and `b` are the same value except, possibly, for the order in which
      the keys of their objects, at any depth, were inserted: structural
      equality up to key order. Two objects are the same when they have the
      same keys and the same value, up to key order, under each key. */
  ghost predicate SameUpToKeyOrder(a: Json, b: Json)
    decreases a
  {
    if a.JArray? && b.JArray? then
      |a.items| == |b.items|
      && forall i :: 0 <= i < |a.items| ==> SameUpToKeyOrder(a.items[i], b.items[i])
    else if a.JObject? && b.JObject? then
      (forall j :: 0 <= j < |b.fields| ==> Get(a.fields, b.fields[j].0).Some?)
      && forall i :: 0 <= i < |a.fields| ==>
           Get(b.fields, a.fields[i].0).Some?
           && SameUpToKeyOrder(a.fields[i].1, Get(b.fields, a.fields[i].0).value)
    else a == b
  }

  lemma {:induction false} SameUpToKeyOrderReflexive(a: Json)
    requires WellFormed(a)
    ensures SameUpToKeyOrder(a, a)
    decreases a
  {
    match a
    case JArray(items) =>
      forall i | 0 <= i < |items| ensures SameUpToKeyOrder(items[i], items[i]) {
        SameUpToKeyOrderReflexive(items[i]);
      }
    case JObject(fields) =>
      forall i | 0 <= i < |fields|
        ensures Get(fields, fields[i].0) == Some(fields[i].1)
        ensures SameUpToKeyOrder(fields[i].1, fields[i].1)
      {
        GetMember(fields, fields[i].0, fields[i].1);
        SameUpToKeyOrderReflexive(fields[i].1);
      }
      forall j | 0 <= j < |fields| ensures Get(fields, fields[j].0).Some? {
        GetMember(fields, fields[j].0, fields[j].1);
      }
    case _ =>
  }

  lemma {:induction false} SameUpToKeyOrderSymmetric(a: Json, b: Json)
    requires WellFormed(a) && WellFormed(b)
    requires SameUpToKeyOrder(a, b)
    ensures SameUpToKeyOrder(b, a)
    decreases a
  {
    if a.JArray? && b.JArray? {
      forall i | 0 <= i < |a.items| ensures SameUpToKeyOrder(b.items[i], a.items[i]) {
        SameUpToKeyOrderSymmetric(a.items[i], b.items[i]);
      }
    } else if a.JObject? && b.JObject? {
      var fa, fb := a.fields, b.fields;
      forall j | 0 <= j < |fb|
        ensures Get(fa, fb[j].0).Some? && SameUpToKeyOrder(fb[j].1, Get(fa, fb[j].0).value)
      {
        var u := Get(fa, fb[j].0).value;
        var i :| 0 <= i < |fa| && fa[i] == (fb[j].0, u);
        GetMember(fb, fb[j].0, fb[j].1);
        SameUpToKeyOrderSymmetric(fa[i].1, fb[j].1);
      }
    }
  }

  lemma {:induction false} SameUpToKeyOrderTransitive(a: Json, b: Json, c: Json)
    requires WellFormed(a) && WellFormed(b) && WellFormed(c)
    requires SameUpToKeyOrder(a, b) && SameUpToKeyOrder(b, c)
    ensures SameUpToKeyOrder(a, c)
    decreases a
  {
    if a.JArray? && b.JArray? && c.JArray? {
      forall i | 0 <= i < |a.items| ensures SameUpToKeyOrder(a.items[i], c.items[i]) {
        SameUpToKeyOrderTransitive(a.items[i], b.items[i], c.items[i]);
      }
    } else if a.JObject? && b.JObject? && c.JObject? {
      var fa, fb, fc := a.fields, b.fields, c.fields;
      forall i | 0 <= i < |fa|
        ensures Get(fc, fa[i].0).Some? && SameUpToKeyOrder(fa[i].1, Get(fc, fa[i].0).value)
      {
        var v := Get(fb, fa[i].0).value;
        var j :| 0 <= j < |fb| && fb[j] == (fa[i].0, v);
        GetWellFormed(fb, fa[i].0);
        GetWellFormed(fc, fa[i].0);
        SameUpToKeyOrderTransitive(fa[i].1, v, Get(fc, fa[i].0).value);
      }
      forall k | 0 <= k < |fc| ensures Get(fa, fc[k].0).Some? {
        var v := Get(fb, fc[k].0).value;
        var j :| 0 <= j < |fb| && fb[j] == (fc[k].0, v);
      }
    }
  }

  /** Two objects with the same keys in the same positions, whose values
      pairwise differ only in key order, differ only in key order. */
  lemma SameKeysPointwise(fa: seq<Field>, fb: seq<Field>)
    requires |fa| == |fb| && DistinctKeys(fa)
    requires forall i :: 0 <= i < |fa| ==> fa[i].0 == fb[i].0 && SameUpToKeyOrder(fa[i].1, fb[i].1)
    ensures SameUpToKeyOrder(JObject(fa), JObject(fb))
  {
    forall j | 0 <= j < |fb| ensures Get(fa, fb[j].0).Some? {
      assert fa[j].0 == fb[j].0;
    }
    forall i | 0 <= i < |fa| ensures Get(fb, fa[i].0) == Some(fb[i].1) {
      assert fb[i] in fb;
      GetMember(fb, fb[i].0, fb[i].1);
    }
  }

  /** Strictly ascending keys are distinct. */
  lemma AscendingKeysDistinct(fields: seq<Field>)
    requires KeysAscending(fields)
    ensures DistinctKeys(fields)
  {
    forall i, k | 0 <= i < k < |fields| ensures fields[i].0 != fields[k].0 {
      StrLessIrreflexive(fields[i].0);
    }
  }

  /** The canonical form of a well-formed value is canonical. */
  lemma {:induction false} CanonIsCanonical(j: Json)
    requires WellFormed(j)
    ensures IsCanonical(Canon(j))
    decreases j
  {
    match j
    case JArray(items) =>
      forall i | 0 <= i < |items| ensures IsCanonical(Canon(j).items[i]) {
        CanonIsCanonical(items[i]);
      }
    case JObject(fields) =>
      var cf := CanonMembers(fields);
      var r := SortByKey(cf);
      assert Canon(j).fields == r;
      assert DistinctKeys(cf);
      SortByKeyAscending(cf);
      forall k | 0 <= k < |r| ensures IsCanonical(r[k].1) {
        assert r[k] in multiset(cf);
        var i :| 0 <= i < |cf| && cf[i] == r[k];
        CanonIsCanonical(fields[i].1);
      }
    case _ =>
  }

  /** A canonical value is well formed. */
  lemma {:induction false} CanonicalIsWellFormed(j: Json)
    requires IsCanonical(j)
    ensures WellFormed(j)
    decreases j
  {
    match j
    case JArray(items) =>
      forall i | 0 <= i < |items| ensures WellFormed(items[i]) {
        CanonicalIsWellFormed(items[i]);
      }
    case JObject(fields) =>
      AscendingKeysDistinct(fields);
      forall i | 0 <= i < |fields| ensures WellFormed(fields[i].1) {
        CanonicalIsWellFormed(fields[i].1);
      }
    case _ =>
  }

  /** Two member lists with distinct keys that map every key to the same value
      hold the same members. */
  lemma SameEntriesSameMembers(ca: seq<Field>, cb: seq<Field>)
    requires DistinctKeys(ca) && DistinctKeys(cb)
    requires forall i :: 0 <= i < |ca| ==> Get(cb, ca[i].0) == Some(ca[i].1)
    requires forall j :: 0 <= j < |cb| ==> Get(ca, cb[j].0).Some?
    ensures forall x :: x in ca <==> x in cb
  {
    forall x | x in cb ensures x in ca {
      var j :| 0 <= j < |cb| && cb[j] == x;
      var u := Get(ca, x.0).value;
      var i :| 0 <= i < |ca| && ca[i] == (x.0, u);
      GetMember(cb, x.0, x.1);
    }
  }

  /** The members of a list with distinct keys, relabelled value by value and
      then sorted by key, are found under the same keys. */
  lemma SortedRelabelled(fields: seq<Field>, cf: seq<Field>)
    requires DistinctKeys(fields)
    requires |cf| == |fields| && forall i :: 0 <= i < |fields| ==> cf[i].0 == fields[i].0
    ensures KeysAscending(SortByKey(cf)) && DistinctKeys(SortByKey(cf))
    ensures forall i :: 0 <= i < |fields| ==> Get(SortByKey(cf), fields[i].0) == Some(cf[i].1)
    ensures forall k :: 0 <= k < |SortByKey(cf)| ==> Get(fields, SortByKey(cf)[k].0).Some?
  {
    var r := SortByKey(cf);
    assert DistinctKeys(cf);
    SortByKeyAscending(cf);
    AscendingKeysDistinct(r);
    forall i | 0 <= i < |fields| ensures Get(r, fields[i].0) == Some(cf[i].1) {
      assert cf[i] in multiset(r);
      GetMember(r, cf[i].0, cf[i].1);
    }
    forall k | 0 <= k < |r| ensures Get(fields, r[k].0).Some? {
      assert r[k] in multiset(cf);
      var i :| 0 <= i < |cf| && cf[i] == r[k];
      assert fields[i].0 == r[k].0;
    }
  }

  /** Canonicalisation only reorders keys. */
  lemma {:induction false} CanonOnlyReorders(j: Json)
    requires WellFormed(j)
    ensures SameUpToKeyOrder(j, Canon(j))
    decreases j
  {
    if j.JArray? {
      forall i | 0 <= i < |j.items| ensures SameUpToKeyOrder(j.items[i], Canon(j).items[i]) {
        CanonOnlyReorders(j.items[i]);
      }
    } else if j.JObject? {
      var fields := j.fields;
      var cf := CanonMembers(fields);
      assert Canon(j) == JObject(SortByKey(cf));
      SortedRelabelled(fields, cf);
      forall i | 0 <= i < |fields| ensures SameUpToKeyOrder(fields[i].1, Canon(fields[i].1)) {
        CanonOnlyReorders(fields[i].1);
      }
    } else {
      SameUpToKeyOrderReflexive(j);
    }
  }

  /** Well-formed values that differ only in key order have the same canonical
      form. */
  lemma {:induction false} CanonIgnoresKeyOrder(a: Json, b: Json)
    requires WellFormed(a) && WellFormed(b)
    requires SameUpToKeyOrder(a, b)
    ensures Canon(a) == Canon(b)
    decreases a, 2
  {
    if a.JArray? && b.JArray? {
      forall i | 0 <= i < |a.items| ensures Canon(a.items[i]) == Canon(b.items[i]) {
        CanonIgnoresKeyOrder(a.items[i], b.items[i]);
      }
      assert Canon(a).items == Canon(b).items;
    } else if a.JObject? && b.JObject? {
      CanonObjectsIgnoreKeyOrder(a, b);
    }
  }

  /** The members of an object with each value put in canonical form, before
      sorting. */
  function CanonMembers(fields: seq<Field>): (r: seq<Field>)
    ensures |r| == |fields|
    ensures forall i :: 0 <= i < |fields| ==> r[i] == (fields[i].0, Canon(fields[i].1))
  {
    seq(|fields|, i requires 0 <= i < |fields| => (fields[i].0, Canon(fields[i].1)))
  }

  lemma {:induction false} CanonObjectsIgnoreKeyOrder(a: Json, b: Json)
    requires a.JObject? && b.JObject?
    requires WellFormed(a) && WellFormed(b)
    requires SameUpToKeyOrder(a, b)
    ensures Canon(a) == Canon(b)
    decreases a, 1
  {
    CanonUnderEachKey(a, b);
    SortedCanonMembers(a.fields, b.fields);
    assert Canon(a) == JObject(SortByKey(CanonMembers(a.fields)));
    assert Canon(b) == JObject(SortByKey(CanonMembers(b.fields)));
  }

  lemma SortedCanonMembers(fa: seq<Field>, fb: seq<Field>)
    requires DistinctKeys(fa) && DistinctKeys(fb)
    requires forall j :: 0 <= j < |fb| ==> Get(fa, fb[j].0).Some?
    requires forall i :: 0 <= i < |fa| ==>
      Get(fb, fa[i].0).Some? && Canon(fa[i].1) == Canon(Get(fb, fa[i].0).value)
    ensures SortByKey(CanonMembers(fa)) == SortByKey(CanonMembers(fb))
  {
    var ca, cb := CanonMembers(fa), CanonMembers(fb);
    assert DistinctKeys(ca) && DistinctKeys(cb);
    forall i | 0 <= i < |ca| ensures Get(cb, ca[i].0) == Some(ca[i].1) {
      var v := Get(fb, fa[i].0).value;
      var m :| 0 <= m < |fb| && fb[m] == (fa[i].0, v);
      assert cb[m] == ca[i];
      GetMember(cb, ca[i].0, ca[i].1);
    }
    forall j | 0 <= j < |cb| ensures Get(ca, cb[j].0).Some? {
      var u := Get(fa, fb[j].0).value;
      var m :| 0 <= m < |fa| && fa[m] == (fb[j].0, u);
      assert ca[m].0 == cb[j].0;
    }
    SortedSameEntries(ca, cb);
  }

  /** The inductive step: under each key, the two objects' values have the same
      canonical form. */
  lemma {:induction false} CanonUnderEachKey(a: Json, b: Json)
    requires a.JObject? && b.JObject?
    requires WellFormed(a) && WellFormed(b)
    requires SameUpToKeyOrder(a, b)
    ensures forall i :: 0 <= i < |a.fields| ==>
      Get(b.fields, a.fields[i].0).Some?
      && Canon(a.fields[i].1) == Canon(Get(b.fields, a.fields[i].0).value)
    decreases a, 0
  {
    var fa, fb := a.fields, b.fields;
    forall i | 0 <= i < |fa|
      ensures Get(fb, fa[i].0).Some? && Canon(fa[i].1) == Canon(Get(fb, fa[i].0).value)
    {
      GetWellFormed(fb, fa[i].0);
      CanonIgnoresKeyOrder(fa[i].1, Get(fb, fa[i].0).value);
    }
  }

  /** Two member lists with distinct keys that map every key to the same value
      sort to the same list. */
  lemma SortedSameEntries(ca: seq<Field>, cb: seq<Field>)
    requires DistinctKeys(ca) && DistinctKeys(cb)
    requires forall i :: 0 <= i < |ca| ==> Get(cb, ca[i].0) == Some(ca[i].1)
    requires forall j :: 0 <= j < |cb| ==> Get(ca, cb[j].0).Some?
    ensures SortByKey(ca) == SortByKey(cb)
  {
    SameEntriesSameMembers(ca, cb);
    SortByKeyAscending(ca);
    SortByKeyAscending(cb);
    forall x ensures x in SortByKey(ca) <==> x in SortByKey(cb) {
      SortByKeyMember(ca, x);
      SortByKeyMember(cb, x);
    }
    SortedUnique(SortByKey(ca), SortByKey(cb));
  }

  /** Sorting keeps exactly the members it is given. */
  lemma SortByKeyMember(s: seq<Field>, x: Field)
    ensures x in SortByKey(s) <==> x in s
  {
    assert x in SortByKey(s) <==> x in multiset(SortByKey(s));
    assert x in s <==> x in multiset(s);
  }

  /** For well-formed values, equal canonical forms mean exactly "the same up to
      key order": canonicalisation forgets key order and nothing else. */
  lemma CanonEqualIffSameUpToKeyOrder(a: Json, b: Json)
    requires WellFormed(a) && WellFormed(b)
    ensures Canon(a) == Canon(b) <==> SameUpToKeyOrder(a, b)
  {
    if SameUpToKeyOrder(a, b) {
      CanonIgnoresKeyOrder(a, b);
    }
    if Canon(a) == Canon(b) {
      CanonIsCanonical(a);
      CanonicalIsWellFormed(Canon(a));
      CanonOnlyReorders(a);
      CanonOnlyReorders(b);
      SameUpToKeyOrderSymmetric(b, Canon(b));
      SameUpToKeyOrderTransitive(a, Canon(a), b);
    }
  }

  /** Canonicalising twice gives the same result as once. */
  lemma CanonIdempotent(j: Json)
    requires WellFormed(j)
    ensures Canon(Canon(j)) == Canon(j)
  {
    CanonIsCanonical(j);
    CanonicalIsWellFormed(Canon(j));
    CanonOnlyReorders(j);
    SameUpToKeyOrderSymmetric(j, Canon(j));
    CanonIgnoresKeyOrder(Canon(j), j);
  }

  /** Decimal text of an integer. */
  function IntText(i: int): string {
    if i < 0 then "-" + NatText(-i) else NatText(i)
  }

  function NatText(n: nat): string
    decreases n
  {
    if n < 10 then [Digit(n)] else NatText(n / 10) + [Digit(n % 10)]
  }

  function Digit(d: nat): char
    requires d < 16
  {
    "0123456789abcdef"[d]
  }

  /** How `json.dumps(..., ensure_ascii=False)` writes one character inside a
      string literal: quote, backslash and control characters are escaped,
      everything else, non-ASCII included, is written as it is. */
  function EscapeChar(c: char): string {
    if c == '"' then "\\\""
    else if c == '\\' then "\\\\"
    else if c == '\n' then "\\n"
    else if c == '\r' then "\\r"
    else if c == '\t' then "\\t"
    else if c as int == 8 then "\\b"
    else if c as int == 12 then "\\f"
    else if c as int < 32 then "\\u00" + [Digit(c as int / 16), Digit(c as int % 16)]
    else [c]
  }

  function Escape(s: string): string {
    if s == [] then "" else EscapeChar(s[0]) + Escape(s[1..])
  }

  function Quote(s: string): string {
    "\"" + Escape(s) + "\""
  }

  /** Joins the parts with the default item separator ", ". */
  function Join(parts: seq<string>): string {
    if parts == [] then ""
    else if |parts| == 1 then parts[0]
    else parts[0] + ", " + Join(parts[1..])
  }

  /** The text `json.dumps` writes for a value, members in their stored order,
      with the default separators ", " and ": ". */
  function Emit(j: Json): string {
    match j
    case JNull => "null"
    case JBool(b) => if b then "true" else "false"
    case JInt(i) => IntText(i)
    case JFloat(m, e) => IntText(m) + "e" + IntText(e)
    case JString(s) => Quote(s)
    case JArray(items) =>
      "[" + Join(seq(|items|, i requires 0 <= i < |items| => Emit(items[i]))) + "]"
    case JObject(fields) =>
      "{" + Join(seq(|fields|, i requires 0 <= i < |fields| => Quote(fields[i].0) + ": " + Emit(fields[i].1))) + "}"
  }

  /** `json.dumps(j, ensure_ascii=False, sort_keys=True)`. */
  function Serialize(j: Json): string {
    Emit(Canon(j))
  }

  /** The serialisation of a well-formed value does not depend on the order in
      which the keys of its objects, at any depth, were inserted. */
  lemma SerializeIgnoresKeyOrder(a: Json, b: Json)
    requires WellFormed(a) && WellFormed(b)
    requires SameUpToKeyOrder(a, b)
    ensures Serialize(a) == Serialize(b)
  {
    CanonIgnoresKeyOrder(a, b);
  }
}
