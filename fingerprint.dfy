/** The test-case fingerprint of a record: a digest of the canonical text of
    the three request fields that define a test case. */
module Fingerprint {
  import opened Json
  import opened Canonical

  /** The record's `request`, or `{}` when it has none. */
  function Request(entry: Json): Json
    requires entry.JObject?
  {
    GetOr(entry.fields, "request", JObject([]))
  }

  /** The record and its `request` (or the `{}` standing for a missing one)
      are dictionaries, so that every `.get` of the fingerprint succeeds. */
  predicate HasRequest(entry: Json) {
    entry.JObject? && Request(entry).JObject?
  }

  /** The three fields of the request that define a test case, with the
      defaults an absent field takes: `[]`, None and None. */
  function Messages(entry: Json): Json
    requires HasRequest(entry)
  {
    GetOr(Request(entry).fields, "messages", JArray([]))
  }

  function Tools(entry: Json): Json
    requires HasRequest(entry)
  {
    GetOr(Request(entry).fields, "tools", JNull)
  }

  function ToolChoice(entry: Json): Json
    requires HasRequest(entry)
  {
    GetOr(Request(entry).fields, "tool_choice", JNull)
  }

  /** The dictionary `compute_messages_hash` serialises. It is a dictionary
      with exactly the keys `messages`, `tools` and `tool_choice`. A record or
      a present `request` that is not a dictionary makes `.get` raise. */
  function KeyObject(entry: Json): (r: Result<Json>)
    ensures r.Ok? <==> HasRequest(entry)
    ensures r.Ok? ==> r.value.JObject? && DistinctKeys(r.value.fields)
    ensures r.Ok? ==> forall k :: Get(r.value.fields, k).Some? <==> k in TestCaseKeys()
    ensures r.Ok? ==>
              && Get(r.value.fields, "messages") == Some(Messages(entry))
              && Get(r.value.fields, "tools") == Some(Tools(entry))
              && Get(r.value.fields, "tool_choice") == Some(ToolChoice(entry))
  {
    if !HasRequest(entry) then Raises(AttributeError)
    else
      KeyOfKeys(Messages(entry), Tools(entry), ToolChoice(entry));
      Ok(KeyOf(Messages(entry), Tools(entry), ToolChoice(entry)))
  }

  /** The keys of the key object. */
  function TestCaseKeys(): set<string> {
    {"messages", "tools", "tool_choice"}
  }

  /** `compute_messages_hash(entry)`: the hex digest, by `md5Hex`, of the key
      object written with sorted keys. It raises exactly when the record is
      not a dictionary, or has a `request` that is not a dictionary (a JSON
      `null` included); a record without `request` is hashed. */
  function MessagesHash(md5Hex: string -> string, entry: Json): (r: Result<string>)
    ensures r.Raises? <==>
              !entry.JObject? || (Get(entry.fields, "request").Some? && !Get(entry.fields, "request").value.JObject?)
  {
    match KeyObject(entry)
    case Ok(key) => Ok(md5Hex(Serialize(key)))
    case Raises(e) => Raises(e)
  }

  /** The fingerprint depends on the three test-case fields alone: records
      that agree on them get the same fingerprint, whatever their model,
      base URL, key, response or other request fields. */
  lemma HashDependsOnlyOnTestCase(md5Hex: string -> string, a: Json, b: Json)
    requires HasRequest(a) && HasRequest(b)
    requires Messages(a) == Messages(b) && Tools(a) == Tools(b) && ToolChoice(a) == ToolChoice(b)
    ensures MessagesHash(md5Hex, a) == MessagesHash(md5Hex, b)
  {
  }

  /** Adding or replacing a top-level field other than `request` leaves the
      fingerprint as it was. */
  lemma HashIgnoresOtherFields(md5Hex: string -> string, fields: seq<Field>, key: string, value: Json)
    requires key != "request"
    ensures MessagesHash(md5Hex, JObject(Put(fields, key, value))) == MessagesHash(md5Hex, JObject(fields))
  {
    assert Get(Put(fields, key, value), "request") == Get(fields, "request");
  }

  /** Adding or replacing a request field other than the three leaves the
      fingerprint as it was. */
  lemma HashIgnoresOtherRequestFields(md5Hex: string -> string, fields: seq<Field>, req: seq<Field>,
                                             key: string, value: Json)
    requires key != "messages" && key != "tools" && key != "tool_choice"
    ensures MessagesHash(md5Hex, JObject(Put(fields, "request", JObject(Put(req, key, value)))))
         == MessagesHash(md5Hex, JObject(Put(fields, "request", JObject(req))))
  {
    var p := Put(req, key, value);
    assert Get(p, "messages") == Get(req, "messages");
    assert Get(p, "tools") == Get(req, "tools");
    assert Get(p, "tool_choice") == Get(req, "tool_choice");
  }

  /** A record without `request` has the fingerprint of one whose request
      spells the defaults out. */
  lemma MissingRequestMeansDefaults(md5Hex: string -> string, fields: seq<Field>)
    requires Get(fields, "request").None?
    ensures MessagesHash(md5Hex, JObject(fields))
         == MessagesHash(md5Hex, JObject(Put(fields, "request",
              JObject([("messages", JArray([])), ("tools", JNull), ("tool_choice", JNull)]))))
  {
  }

  /** Looking a key up in two objects that differ only in key order finds
      it in both or in neither, and the two values found again differ only in
      key order. */
  lemma GetIgnoresKeyOrder(fa: seq<Field>, fb: seq<Field>, key: string)
    requires WellFormed(JObject(fa)) && WellFormed(JObject(fb))
    requires SameUpToKeyOrder(JObject(fa), JObject(fb))
    ensures Get(fa, key).Some? <==> Get(fb, key).Some?
    ensures Get(fa, key).Some? ==> SameUpToKeyOrder(Get(fa, key).value, Get(fb, key).value)
  {
    if Get(fa, key).Some? {
      var i :| 0 <= i < |fa| && fa[i] == (key, Get(fa, key).value);
      assert Get(fb, fa[i].0).Some?;
    }
    if Get(fb, key).Some? {
      var j :| 0 <= j < |fb| && fb[j] == (key, Get(fb, key).value);
      assert Get(fa, fb[j].0).Some?;
    }
  }

  /** `d.get(key, default)` on two objects that differ only in key order gives
      two well-formed values that differ only in key order. */
  lemma GetOrIgnoresKeyOrder(fa: seq<Field>, fb: seq<Field>, key: string, default: Json)
    requires WellFormed(JObject(fa)) && WellFormed(JObject(fb)) && WellFormed(default)
    requires SameUpToKeyOrder(JObject(fa), JObject(fb))
    ensures WellFormed(GetOr(fa, key, default)) && WellFormed(GetOr(fb, key, default))
    ensures SameUpToKeyOrder(GetOr(fa, key, default), GetOr(fb, key, default))
  {
    GetIgnoresKeyOrder(fa, fb, key);
    if Get(fa, key).Some? {
      GetWellFormed(fa, key);
      GetWellFormed(fb, key);
    } else {
      SameUpToKeyOrderReflexive(default);
    }
  }

  /** The key object of a record lists its three test-case fields. */
  function KeyOf(m: Json, t: Json, c: Json): Json {
    JObject([("messages", m), ("tools", t), ("tool_choice", c)])
  }

  /** Two key objects whose fields pairwise differ only in key order differ
      only in key order. */
  lemma KeyOfIgnoresKeyOrder(m1: Json, t1: Json, c1: Json, m2: Json, t2: Json, c2: Json)
    requires SameUpToKeyOrder(m1, m2) && SameUpToKeyOrder(t1, t2) && SameUpToKeyOrder(c1, c2)
    ensures SameUpToKeyOrder(KeyOf(m1, t1, c1), KeyOf(m2, t2, c2))
  {
    var f1 := KeyOf(m1, t1, c1).fields;
    var f2 := KeyOf(m2, t2, c2).fields;
    KeyOfDistinct(m1, t1, c1);
    forall i | 0 <= i < |f1| ensures f1[i].0 == f2[i].0 && SameUpToKeyOrder(f1[i].1, f2[i].1) {
      assert i == 0 || i == 1 || i == 2;
    }
    SameKeysPointwise(f1, f2);
  }

  lemma KeyOfDistinct(m: Json, t: Json, c: Json)
    ensures DistinctKeys(KeyOf(m, t, c).fields)
  {
  }

  /** A key object has exactly the three test-case keys, each holding the
      field it was built from. */
  lemma KeyOfKeys(m: Json, t: Json, c: Json)
    ensures forall k :: Get(KeyOf(m, t, c).fields, k).Some? <==> k in TestCaseKeys()
    ensures Get(KeyOf(m, t, c).fields, "messages") == Some(m)
    ensures Get(KeyOf(m, t, c).fields, "tools") == Some(t)
    ensures Get(KeyOf(m, t, c).fields, "tool_choice") == Some(c)
  {
    var f := KeyOf(m, t, c).fields;
    forall k ensures Get(f, k).Some? <==> k in TestCaseKeys() {
      assert f[0].0 == "messages" && f[1].0 == "tools" && f[2].0 == "tool_choice";
    }
  }

  lemma KeyOfWellFormed(m: Json, t: Json, c: Json)
    requires WellFormed(m) && WellFormed(t) && WellFormed(c)
    ensures WellFormed(KeyOf(m, t, c))
  {
    var f := KeyOf(m, t, c).fields;
    assert f[0] == ("messages", m) && f[1] == ("tools", t) && f[2] == ("tool_choice", c);
  }

  /** The key objects of two well-formed records have the same sorted-key
      form exactly when their three test-case fields pairwise differ only in
      key order, whatever else the records hold. */
  lemma KeyObjectCanonIff(a: Json, b: Json)
    requires WellFormed(a) && WellFormed(b) && HasRequest(a) && HasRequest(b)
    ensures Canon(KeyObject(a).value) == Canon(KeyObject(b).value) <==>
              && SameUpToKeyOrder(Messages(a), Messages(b))
              && SameUpToKeyOrder(Tools(a), Tools(b))
              && SameUpToKeyOrder(ToolChoice(a), ToolChoice(b))
  {
    TestCaseFieldsWellFormed(a);
    TestCaseFieldsWellFormed(b);
    KeyOfSameIff(Messages(a), Tools(a), ToolChoice(a), Messages(b), Tools(b), ToolChoice(b));
  }

  /** Two key objects built from well-formed fields have the same sorted-key
      form exactly when their fields pairwise differ only in key order. */
  lemma KeyOfSameIff(m1: Json, t1: Json, c1: Json, m2: Json, t2: Json, c2: Json)
    requires WellFormed(m1) && WellFormed(t1) && WellFormed(c1)
    requires WellFormed(m2) && WellFormed(t2) && WellFormed(c2)
    ensures Canon(KeyOf(m1, t1, c1)) == Canon(KeyOf(m2, t2, c2)) <==>
              SameUpToKeyOrder(m1, m2) && SameUpToKeyOrder(t1, t2) && SameUpToKeyOrder(c1, c2)
  {
    KeyOfWellFormed(m1, t1, c1);
    KeyOfWellFormed(m2, t2, c2);
    CanonEqualIffSameUpToKeyOrder(KeyOf(m1, t1, c1), KeyOf(m2, t2, c2));
    if SameUpToKeyOrder(KeyOf(m1, t1, c1), KeyOf(m2, t2, c2)) {
      KeyOfSameParts(m1, t1, c1, m2, t2, c2);
    }
    if SameUpToKeyOrder(m1, m2) && SameUpToKeyOrder(t1, t2) && SameUpToKeyOrder(c1, c2) {
      KeyOfIgnoresKeyOrder(m1, t1, c1, m2, t2, c2);
    }
  }

  /** Key objects that differ only in key order were built from fields that
      pairwise differ only in key order. */
  lemma KeyOfSameParts(m1: Json, t1: Json, c1: Json, m2: Json, t2: Json, c2: Json)
    requires SameUpToKeyOrder(KeyOf(m1, t1, c1), KeyOf(m2, t2, c2))
    ensures SameUpToKeyOrder(m1, m2) && SameUpToKeyOrder(t1, t2) && SameUpToKeyOrder(c1, c2)
  {
    var fa, fb := KeyOf(m1, t1, c1).fields, KeyOf(m2, t2, c2).fields;
    KeyOfKeys(m2, t2, c2);
    assert fa[0] == ("messages", m1) && fa[1] == ("tools", t1) && fa[2] == ("tool_choice", c1);
  }

  /** Records whose three test-case fields pairwise differ only in key order
      get the same fingerprint, whatever else they hold. */
  lemma HashDependsOnlyOnTestCaseUpToKeyOrder(md5Hex: string -> string, a: Json, b: Json)
    requires WellFormed(a) && WellFormed(b) && HasRequest(a) && HasRequest(b)
    requires SameUpToKeyOrder(Messages(a), Messages(b)) && SameUpToKeyOrder(Tools(a), Tools(b))
    requires SameUpToKeyOrder(ToolChoice(a), ToolChoice(b))
    ensures MessagesHash(md5Hex, a) == MessagesHash(md5Hex, b)
  {
    KeyObjectCanonIff(a, b);
  }

  /** The test-case fields of a well-formed record are well formed. */
  lemma TestCaseFieldsWellFormed(entry: Json)
    requires WellFormed(entry) && HasRequest(entry)
    ensures WellFormed(Messages(entry)) && WellFormed(Tools(entry)) && WellFormed(ToolChoice(entry))
  {
    if Get(entry.fields, "request").Some? {
      GetWellFormed(entry.fields, "request");
    }
    var req := Request(entry).fields;
    if Get(req, "messages").Some? {
      GetWellFormed(req, "messages");
    }
    if Get(req, "tools").Some? {
      GetWellFormed(req, "tools");
    }
    if Get(req, "tool_choice").Some? {
      GetWellFormed(req, "tool_choice");
    }
  }

  /** The key objects of two records that differ only in key order, at any
      depth, are both present or both absent, and again differ only in key
      order. */
  lemma KeyObjectIgnoresKeyOrder(a: Json, b: Json)
    requires WellFormed(a) && WellFormed(b)
    requires SameUpToKeyOrder(a, b)
    ensures KeyObject(a).Ok? <==> KeyObject(b).Ok?
    ensures KeyObject(a).Ok? ==>
              WellFormed(KeyObject(a).value) && WellFormed(KeyObject(b).value)
              && SameUpToKeyOrder(KeyObject(a).value, KeyObject(b).value)
  {
    if a.JObject? && b.JObject? {
      var ra := GetOr(a.fields, "request", JObject([]));
      var rb := GetOr(b.fields, "request", JObject([]));
      GetOrIgnoresKeyOrder(a.fields, b.fields, "request", JObject([]));
      if ra.JObject? && rb.JObject? {
        GetOrIgnoresKeyOrder(ra.fields, rb.fields, "messages", JArray([]));
        GetOrIgnoresKeyOrder(ra.fields, rb.fields, "tools", JNull);
        GetOrIgnoresKeyOrder(ra.fields, rb.fields, "tool_choice", JNull);
        KeyOfWellFormed(Messages(a), Tools(a), ToolChoice(a));
        KeyOfWellFormed(Messages(b), Tools(b), ToolChoice(b));
        KeyOfIgnoresKeyOrder(Messages(a), Tools(a), ToolChoice(a), Messages(b), Tools(b), ToolChoice(b));
      }
    }
  }

  /** Records that differ only in the order of keys, at any nesting level,
      get the same fingerprint (or both raise). */
  lemma HashIgnoresKeyOrder(md5Hex: string -> string, a: Json, b: Json)
    requires WellFormed(a) && WellFormed(b)
    requires SameUpToKeyOrder(a, b)
    ensures MessagesHash(md5Hex, a) == MessagesHash(md5Hex, b)
  {
    KeyObjectIgnoresKeyOrder(a, b);
    if KeyObject(a).Ok? {
      SerializeIgnoresKeyOrder(KeyObject(a).value, KeyObject(b).value);
    }
  }
}
