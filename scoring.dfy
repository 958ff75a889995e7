/** Comparing the two runs on their aligned test cases: the confusion matrix
    of "the model asked for a tool call", the schema counters, and the ratios
    derived from them. The definitions take the finish-reason lookup as a
    parameter `extract`; the comparison uses `ExtractFinishReason`. */
module Scoring {
  import opened Json
  import opened Ordering
  import opened FinishReason

  /** Where one aligned test case falls in the confusion matrix, ours being
      the prediction and the official run the reference. */
  datatype Verdict = TruePositive | FalsePositive | FalseNegative | TrueNegative

  /** The if-chain on the two trigger flags: exactly one verdict, TP when both
      runs triggered, FP when only ours did, FN when only the official one did,
      TN when neither did. */
  function Classify(oursTc: bool, offTc: bool): (v: Verdict)
    ensures v == TruePositive <==> oursTc && offTc
    ensures v == FalsePositive <==> oursTc && !offTc
    ensures v == FalseNegative <==> !oursTc && offTc
    ensures v == TrueNegative <==> !oursTc && !offTc
  {
    if oursTc && offTc then TruePositive
    else if oursTc && !offTc then FalsePositive
    else if !oursTc && offTc then FalseNegative
    else TrueNegative
  }

  /** The record's finish reason is found and is "tool_calls". */
  predicate Triggered(extract: Json -> Result<Json>, entry: Json) {
    extract(entry).Ok? && IsToolCalls(extract(entry).value)
  }

  /** `bool(ours.get("tool_calls_valid"))` on a record that is a dictionary. */
  predicate SchemaValid(entry: Json) {
    entry.JObject? && Truthy(GetOr(entry.fields, "tool_calls_valid", JNull))
  }

  /** Both records of a pair yield a finish reason without raising. */
  predicate Scorable(extract: Json -> Result<Json>, ours: Json, official: Json) {
    extract(ours).Ok? && extract(official).Ok?
  }

  function VerdictOf(extract: Json -> Result<Json>, ours: Json, official: Json): Verdict {
    Classify(Triggered(extract, ours), Triggered(extract, official))
  }

  /** The six counters the comparison reports. */
  datatype Counts = Counts(tp: nat, fp: nat, fn: nat, tn: nat, triggered: nat, successful: nat)

  /** How many aligned keys fall under verdict `v`. */
  function CountVerdict(extract: Json -> Result<Json>, ours: map<string, Json>, official: map<string, Json>,
                        keys: set<string>, v: Verdict): nat {
    |set h | h in keys && h in ours && h in official && VerdictOf(extract, ours[h], official[h]) == v|
  }

  /** How many aligned keys have our record triggered. */
  function CountTriggered(extract: Json -> Result<Json>, ours: map<string, Json>, keys: set<string>): nat {
    |set h | h in keys && h in ours && Triggered(extract, ours[h])|
  }

  /** How many aligned keys have our record triggered and schema-valid. */
  function CountSuccessful(extract: Json -> Result<Json>, ours: map<string, Json>, keys: set<string>): nat {
    |set h | h in keys && h in ours && Triggered(extract, ours[h]) && SchemaValid(ours[h])|
  }

  /** The counters over a set of aligned keys, each defined by what it
      counts. */
  function Tally(extract: Json -> Result<Json>, ours: map<string, Json>, official: map<string, Json>,
                 keys: set<string>): Counts {
    Counts(
      CountVerdict(extract, ours, official, keys, TruePositive),
      CountVerdict(extract, ours, official, keys, FalsePositive),
      CountVerdict(extract, ours, official, keys, FalseNegative),
      CountVerdict(extract, ours, official, keys, TrueNegative),
      CountTriggered(extract, ours, keys),
      CountSuccessful(extract, ours, keys))
  }

  /** The counters after scoring one more key. */
  function Step(extract: Json -> Result<Json>, c: Counts, ours: Json, official: Json): Counts {
    var v := VerdictOf(extract, ours, official);
    Counts(
      c.tp + (if v == TruePositive then 1 else 0),
      c.fp + (if v == FalsePositive then 1 else 0),
      c.fn + (if v == FalseNegative then 1 else 0),
      c.tn + (if v == TrueNegative then 1 else 0),
      c.triggered + (if Triggered(extract, ours) then 1 else 0),
      c.successful + (if Triggered(extract, ours) && SchemaValid(ours) then 1 else 0))
  }

  lemma CountVerdictAdd(extract: Json -> Result<Json>, ours: map<string, Json>, official: map<string, Json>,
                        keys: set<string>, h: string, v: Verdict)
    requires h !in keys && h in ours && h in official
    ensures CountVerdict(extract, ours, official, keys + {h}, v)
         == CountVerdict(extract, ours, official, keys, v)
            + (if VerdictOf(extract, ours[h], official[h]) == v then 1 else 0)
  {
    var before := set x | x in keys && x in ours && x in official && VerdictOf(extract, ours[x], official[x]) == v;
    var after := set x | x in keys + {h} && x in ours && x in official && VerdictOf(extract, ours[x], official[x]) == v;
    if VerdictOf(extract, ours[h], official[h]) == v {
      assert after == before + {h};
    } else {
      assert after == before;
    }
  }

  lemma CountTriggeredAdd(extract: Json -> Result<Json>, ours: map<string, Json>, keys: set<string>, h: string)
    requires h !in keys && h in ours
    ensures CountTriggered(extract, ours, keys + {h})
         == CountTriggered(extract, ours, keys) + (if Triggered(extract, ours[h]) then 1 else 0)
  {
    var before := set x | x in keys && x in ours && Triggered(extract, ours[x]);
    var after := set x | x in keys + {h} && x in ours && Triggered(extract, ours[x]);
    if Triggered(extract, ours[h]) {
      assert after == before + {h};
    } else {
      assert after == before;
    }
  }

  lemma CountSuccessfulAdd(extract: Json -> Result<Json>, ours: map<string, Json>, keys: set<string>, h: string)
    requires h !in keys && h in ours
    ensures CountSuccessful(extract, ours, keys + {h})
         == CountSuccessful(extract, ours, keys)
            + (if Triggered(extract, ours[h]) && SchemaValid(ours[h]) then 1 else 0)
  {
    var before := set x | x in keys && x in ours && Triggered(extract, ours[x]) && SchemaValid(ours[x]);
    var after := set x | x in keys + {h} && x in ours && Triggered(extract, ours[x]) && SchemaValid(ours[x]);
    if Triggered(extract, ours[h]) && SchemaValid(ours[h]) {
      assert after == before + {h};
    } else {
      assert after == before;
    }
  }

  /** Scoring one more aligned key adds its contribution to the counters. */
  lemma TallyAdd(extract: Json -> Result<Json>, ours: map<string, Json>, official: map<string, Json>,
                 keys: set<string>, h: string)
    requires h !in keys && h in ours && h in official
    ensures Tally(extract, ours, official, keys + {h})
         == Step(extract, Tally(extract, ours, official, keys), ours[h], official[h])
  {
    CountVerdictAdd(extract, ours, official, keys, h, TruePositive);
    CountVerdictAdd(extract, ours, official, keys, h, FalsePositive);
    CountVerdictAdd(extract, ours, official, keys, h, FalseNegative);
    CountVerdictAdd(extract, ours, official, keys, h, TrueNegative);
    CountTriggeredAdd(extract, ours, keys, h);
    CountSuccessfulAdd(extract, ours, keys, h);
  }

  lemma TallyEmpty(extract: Json -> Result<Json>, ours: map<string, Json>, official: map<string, Json>)
    ensures Tally(extract, ours, official, {}) == Counts(0, 0, 0, 0, 0, 0)
  {
  }

  /** Each aligned key is counted under exactly one verdict; the trigger
      counter counts the true and false positives; a success is counted only
      for a trigger. */
  lemma {:induction false} TallyPartition(extract: Json -> Result<Json>, ours: map<string, Json>,
                                          official: map<string, Json>, keys: set<string>)
    requires keys <= ours.Keys && keys <= official.Keys
    ensures var c := Tally(extract, ours, official, keys);
            c.tp + c.fp + c.fn + c.tn == |keys|
            && c.triggered == c.tp + c.fp
            && c.successful <= c.triggered
    decreases keys
  {
    if keys == {} {
      TallyEmpty(extract, ours, official);
    } else {
      var h :| h in keys;
      var rest := keys - {h};
      TallyPartition(extract, ours, official, rest);
      TallyAdd(extract, ours, official, rest, h);
      assert rest + {h} == keys;
    }
  }

  /** Scoring the keys of `s` one after the other, as the loop does: the
      counters, or the error of the first pair whose finish reason cannot be
      looked up. */
  function ScoreAll(extract: Json -> Result<Json>, ours: map<string, Json>, official: map<string, Json>,
                    s: seq<string>): Result<Counts>
    requires forall k :: 0 <= k < |s| ==> s[k] in ours && s[k] in official
  {
    if s == [] then Ok(Counts(0, 0, 0, 0, 0, 0))
    else
      var prev := ScoreAll(extract, ours, official, s[..|s| - 1]);
      var last := s[|s| - 1];
      if prev.Raises? then prev
      else if extract(ours[last]).Raises? then Raises(extract(ours[last]).error)
      else if extract(official[last]).Raises? then Raises(extract(official[last]).error)
      else Ok(Step(extract, prev.value, ours[last], official[last]))
  }

  /** Scoring a sequence of keys raises exactly when one of its pairs is not
      scorable. */
  lemma {:induction false} ScoreAllRaisesIff(extract: Json -> Result<Json>, ours: map<string, Json>,
                                             official: map<string, Json>, s: seq<string>)
    requires forall k :: 0 <= k < |s| ==> s[k] in ours && s[k] in official
    ensures ScoreAll(extract, ours, official, s).Raises? <==>
              exists k :: 0 <= k < |s| && !Scorable(extract, ours[s[k]], official[s[k]])
    decreases |s|
  {
    if s != [] {
      var init, last := s[..|s| - 1], s[|s| - 1];
      ScoreAllRaisesIff(extract, ours, official, init);
      assert forall k :: 0 <= k < |init| ==> init[k] == s[k];
      if ScoreAll(extract, ours, official, init).Raises? {
        var k :| 0 <= k < |init| && !Scorable(extract, ours[init[k]], official[init[k]]);
        assert !Scorable(extract, ours[s[k]], official[s[k]]);
      } else if !Scorable(extract, ours[last], official[last]) {
        assert !Scorable(extract, ours[s[|s| - 1]], official[s[|s| - 1]]);
      }
    }
  }

  /** Scoring an ascending sequence of keys without raising gives the
      counters defined over the set of those keys. */
  lemma {:induction false} ScoreAllIsTally(extract: Json -> Result<Json>, ours: map<string, Json>,
                                           official: map<string, Json>, s: seq<string>)
    requires Ascending(s)
    requires forall k :: 0 <= k < |s| ==> s[k] in ours && s[k] in official
    ensures ScoreAll(extract, ours, official, s).Ok? ==>
              ScoreAll(extract, ours, official, s).value == Tally(extract, ours, official, KeySet(s))
    decreases |s|
  {
    if s == [] {
      assert KeySet(s) == {};
      TallyEmpty(extract, ours, official);
    } else if ScoreAll(extract, ours, official, s).Ok? {
      var init, last := s[..|s| - 1], s[|s| - 1];
      assert Ascending(init);
      ScoreAllIsTally(extract, ours, official, init);
      LastKeyIsNew(s);
      TallyAdd(extract, ours, official, KeySet(init), last);
    }
  }

  /** The keys a sequence lists. */
  function KeySet(s: seq<string>): set<string> {
    set k | k in s
  }

  /** The last key of a non-empty ascending sequence is not among the keys
      before it. */
  lemma LastKeyIsNew(s: seq<string>)
    requires Ascending(s) && s != []
    ensures s[|s| - 1] !in KeySet(s[..|s| - 1])
    ensures KeySet(s) == KeySet(s[..|s| - 1]) + {s[|s| - 1]}
  {
    var init, last := s[..|s| - 1], s[|s| - 1];
    if last in init {
      var k :| 0 <= k < |init| && init[k] == last;
      AscendingDistinct(s, k, |s| - 1);
    }
    assert s == init + [last];
  }

  /** `sorted(keys_ours & keys_off)`: the keys indexed in both runs, in
      ascending order, each once. */
  function Aligned(ours: map<string, Json>, official: map<string, Json>): (a: seq<string>)
    ensures Ascending(a)
    ensures forall x :: x in a <==> x in ours && x in official
    ensures forall k :: 0 <= k < |a| ==> a[k] in ours && a[k] in official
    ensures |a| == |ours.Keys * official.Keys|
  {
    var a := SortedSet(ours.Keys * official.Keys);
    assert forall k :: 0 <= k < |a| ==> a[k] in a;
    a
  }

  /** Scoring one key more extends the scores of the keys before it, or
      raises when that key's pair is not scorable. */
  lemma ScoreAllNext(extract: Json -> Result<Json>, ours: map<string, Json>, official: map<string, Json>,
                     s: seq<string>, i: nat)
    requires i < |s|
    requires forall k :: 0 <= k < |s| ==> s[k] in ours && s[k] in official
    requires ScoreAll(extract, ours, official, s[..i]).Ok?
    ensures ScoreAll(extract, ours, official, s[..i + 1]).Raises? <==> !Scorable(extract, ours[s[i]], official[s[i]])
    ensures ScoreAll(extract, ours, official, s[..i + 1]).Ok? ==>
              ScoreAll(extract, ours, official, s[..i + 1]).value
              == Step(extract, ScoreAll(extract, ours, official, s[..i]).value, ours[s[i]], official[s[i]])
  {
    assert s[..i + 1][..i] == s[..i];
  }

  /** Once a prefix raises, scoring the whole sequence raises too. */
  lemma {:induction false} ScoreAllRaises(extract: Json -> Result<Json>, ours: map<string, Json>,
                                          official: map<string, Json>, s: seq<string>, i: nat)
    requires i <= |s|
    requires forall k :: 0 <= k < |s| ==> s[k] in ours && s[k] in official
    requires ScoreAll(extract, ours, official, s[..i]).Raises?
    ensures ScoreAll(extract, ours, official, s).Raises?
    decreases |s| - i
  {
    if i < |s| {
      assert s[..i + 1][..i] == s[..i];
      ScoreAllRaises(extract, ours, official, s, i + 1);
    } else {
      assert s[..i] == s;
    }
  }

  /** Scoring the aligned keys raises exactly when some common key's pair is
      not scorable, and otherwise gives the counters defined over the set of
      common keys. */
  lemma AlignedScoreIsTally(extract: Json -> Result<Json>, ours: map<string, Json>, official: map<string, Json>)
    ensures ScoreAll(extract, ours, official, Aligned(ours, official)).Raises? <==>
              exists h :: h in ours && h in official && !Scorable(extract, ours[h], official[h])
    ensures ScoreAll(extract, ours, official, Aligned(ours, official)).Ok? ==>
              ScoreAll(extract, ours, official, Aligned(ours, official)).value
              == Tally(extract, ours, official, ours.Keys * official.Keys)
  {
    var aligned := Aligned(ours, official);
    ScoreAllRaisesIff(extract, ours, official, aligned);
    ScoreAllIsTally(extract, ours, official, aligned);
    assert KeySet(aligned) == ours.Keys * official.Keys;
    if ScoreAll(extract, ours, official, aligned).Raises? {
      var k :| 0 <= k < |aligned| && !Scorable(extract, ours[aligned[k]], official[aligned[k]]);
      assert aligned[k] in ours && aligned[k] in official;
    } else {
      forall h | h in ours && h in official ensures Scorable(extract, ours[h], official[h]) {
        assert h in aligned;
        var k :| 0 <= k < |aligned| && aligned[k] == h;
      }
    }
  }

  /** The loop at lines 95-116 of the comparison, with `extract_finish_reason`
      as the lookup: it raises exactly when some aligned record's finish
      reason cannot be looked up, and otherwise returns the counters defined
      over the aligned keys. */
  method Aggregate(ours: map<string, Json>, official: map<string, Json>) returns (r: Result<Counts>)
    ensures r.Raises? <==>
              exists h :: h in ours && h in official && !Scorable(ExtractFinishReason, ours[h], official[h])
    ensures r.Ok? ==> r.value == Tally(ExtractFinishReason, ours, official, ours.Keys * official.Keys)
  {
    r := AggregateBy(ExtractFinishReason, ours, official);
    AlignedScoreIsTally(ExtractFinishReason, ours, official);
  }

  /** The loop for the lookup it is given: visits the aligned keys in
      ascending order and scores each pair; a lookup that raises aborts the
      pass. */
  method AggregateBy(extract: Json -> Result<Json>, ours: map<string, Json>, official: map<string, Json>)
    returns (r: Result<Counts>)
    ensures r == ScoreAll(extract, ours, official, Aligned(ours, official))
  {
    var aligned := Aligned(ours, official);
    var counts := Counts(0, 0, 0, 0, 0, 0);
    var i := 0;
    while i < |aligned|
      invariant i <= |aligned|
      invariant ScoreAll(extract, ours, official, aligned[..i]) == Ok(counts)
    {
      var h := aligned[i];
      var next := ScoreKey(extract, counts, ours[h], official[h]);
      ScoreAllNext(extract, ours, official, aligned, i);
      if next.Raises? {
        ScoreAllRaises(extract, ours, official, aligned, i + 1);
        return Raises(next.error);
      }
      counts := next.value;
      i := i + 1;
    }
    assert aligned[..|aligned|] == aligned;
    r := Ok(counts);
  }

  /** One pass of the loop body: look both finish reasons up, classify the
      pair by whether each side stopped for tool calls and bump that verdict's
      counter; when ours triggered, count it and, if it also has a truthy
      `tool_calls_valid`, count a success. */
  method ScoreKey(extract: Json -> Result<Json>, c: Counts, ours: Json, official: Json) returns (r: Result<Counts>)
    ensures r.Raises? <==> !Scorable(extract, ours, official)
    ensures r.Ok? ==> r.value == Step(extract, c, ours, official)
  {
    var frOurs := extract(ours);
    if frOurs.Raises? {
      return Raises(frOurs.error);
    }
    var frOff := extract(official);
    if frOff.Raises? {
      return Raises(frOff.error);
    }
    var oursTc := IsToolCalls(frOurs.value);
    var offTc := IsToolCalls(frOff.value);
    var tp, fp, fn, tn := c.tp, c.fp, c.fn, c.tn;
    var triggered, successful := c.triggered, c.successful;
    if oursTc && offTc {
      tp := tp + 1;
    } else if oursTc && !offTc {
      fp := fp + 1;
    } else if !oursTc && offTc {
      fn := fn + 1;
    } else {
      tn := tn + 1;
    }
    if oursTc {
      triggered := triggered + 1;
      if ours.JObject? && Truthy(GetOr(ours.fields, "tool_calls_valid", JNull)) {
        successful := successful + 1;
      }
    }
    r := Ok(Counts(tp, fp, fn, tn, triggered, successful));
  }

  /** `num / den`, or 0 when the denominator is 0: the zero-division policy
      at lines 118-124. */
  function Ratio(num: nat, den: nat): (r: real)
    ensures den == 0 ==> r == 0.0
    ensures den > 0 ==> r * den as real == num as real
    ensures num <= den ==> 0.0 <= r <= 1.0
  {
    if den > 0 then num as real / den as real else 0.0
  }

  /** The share of our triggers the official run confirms: TP / (TP + FP),
      0 when we never triggered. */
  function Precision(c: Counts): (p: real)
    ensures c.tp + c.fp == 0 ==> p == 0.0
    ensures c.tp + c.fp > 0 ==> p * (c.tp + c.fp) as real == c.tp as real
    ensures 0.0 <= p <= 1.0
    ensures p == 1.0 <==> c.tp > 0 && c.fp == 0
  {
    var p := Ratio(c.tp, c.tp + c.fp);
    assert p == 1.0 ==> c.tp == c.tp + c.fp;
    p
  }

  /** The share of official triggers we reproduce: TP / (TP + FN), 0 when
      the official run never triggered. */
  function Recall(c: Counts): (q: real)
    ensures c.tp + c.fn == 0 ==> q == 0.0
    ensures c.tp + c.fn > 0 ==> q * (c.tp + c.fn) as real == c.tp as real
    ensures 0.0 <= q <= 1.0
    ensures q == 1.0 <==> c.tp > 0 && c.fn == 0
  {
    var q := Ratio(c.tp, c.tp + c.fn);
    assert q == 1.0 ==> c.tp == c.tp + c.fn;
    q
  }

  /** The share of our triggers whose record carries a truthy
      `tool_calls_valid`, 0 without triggers; it is 1 exactly when there is a
      trigger and every trigger is valid. */
  function SchemaAccuracy(c: Counts): (a: real)
    ensures c.triggered == 0 ==> a == 0.0
    ensures c.triggered > 0 ==> a * c.triggered as real == c.successful as real
    ensures c.successful <= c.triggered ==> 0.0 <= a <= 1.0
    ensures a == 1.0 <==> c.triggered > 0 && c.successful == c.triggered
  {
    var a := Ratio(c.successful, c.triggered);
    assert a == 1.0 ==> c.successful == c.triggered;
    a
  }

  /** The harmonic mean of precision and recall, or 0 when both are 0. */
  function F1(precision: real, recall: real): (f: real)
    requires 0.0 <= precision && 0.0 <= recall
    ensures precision + recall == 0.0 ==> f == 0.0
    ensures 0.0 <= f
    ensures precision <= 1.0 && recall <= 1.0 ==> f <= 1.0
  {
    if precision + recall > 0.0 then
      HarmonicMeanBounded(precision, recall);
      2.0 * precision * recall / (precision + recall)
    else 0.0
  }

  /** Twice the product over the sum is non-negative, and at most 1 for
      arguments at most 1. */
  lemma HarmonicMeanBounded(p: real, q: real)
    requires 0.0 <= p && 0.0 <= q && p + q > 0.0
    ensures 0.0 <= 2.0 * p * q / (p + q)
    ensures p <= 1.0 && q <= 1.0 ==> 2.0 * p * q / (p + q) <= 1.0
  {
    MulNonNegative(p, q);
    DivNonNegative(2.0 * p * q, p + q);
    if p <= 1.0 && q <= 1.0 {
      MulNonNegative(p, 1.0 - q);
      MulNonNegative(q, 1.0 - p);
      DivAtMostOne(2.0 * p * q, p + q);
    }
  }

  lemma MulNonNegative(x: real, y: real)
    requires 0.0 <= x && 0.0 <= y
    ensures 0.0 <= x * y
  {
  }

  lemma MulCancel(x: real, y: real, z: real)
    requires 0.0 < z && x * z == y * z
    ensures x == y
  {
    if x < y {
      MulPositive(y - x, z);
    } else if y < x {
      MulPositive(x - y, z);
    }
  }

  lemma MulPositive(x: real, y: real)
    requires 0.0 < x && 0.0 < y
    ensures 0.0 < x * y
  {
  }

  lemma DivNonNegative(x: real, y: real)
    requires 0.0 <= x && 0.0 < y
    ensures 0.0 <= x / y
  {
  }

  lemma DivAtMostOne(x: real, y: real)
    requires x <= y && 0.0 < y
    ensures x / y <= 1.0
  {
  }

  /** F1 of the counters is 2TP / (2TP + FP + FN), or 0 when that denominator
      is 0. */
  lemma F1OfCounts(c: Counts)
    ensures F1(Precision(c), Recall(c)) == Ratio(2 * c.tp, 2 * c.tp + c.fp + c.fn)
  {
    if c.tp > 0 {
      var t, a, b := c.tp as real, (c.tp + c.fp) as real, (c.tp + c.fn) as real;
      assert Precision(c) == t / a && Recall(c) == t / b;
      F1OfQuotients(t, a, b);
      assert Ratio(2 * c.tp, 2 * c.tp + c.fp + c.fn) == 2.0 * t / (a + b);
    } else {
      assert Precision(c) == 0.0 && Recall(c) == 0.0;
    }
  }

  /** The harmonic mean of t/a and t/b is 2t/(a+b). */
  lemma F1OfQuotients(t: real, a: real, b: real)
    requires 0.0 < t <= a && t <= b
    ensures F1(t / a, t / b) == 2.0 * t / (a + b)
  {
    var p, q := t / a, t / b;
    assert p * a == t && q * b == t;
    var f := F1(p, q);
    assert f * (p + q) == 2.0 * p * q;
    assert (p + q) * (a * b) == t * (a + b) by {
      assert (p + q) * (a * b) == (p * a) * b + (q * b) * a;
    }
    assert 2.0 * p * q * (a * b) == 2.0 * t * t by {
      assert 2.0 * p * q * (a * b) == 2.0 * (p * a) * (q * b);
    }
    assert f * t * (a + b) == 2.0 * t * t by {
      assert f * t * (a + b) == f * ((p + q) * (a * b));
    }
    MulCancel(f * (a + b), 2.0 * t, t);
    MulCancel(f, 2.0 * t / (a + b), a + b);
  }

  /** Every ratio lies between 0 and 1, and all four are 0 when nothing is
      aligned. */
  lemma RatiosBounded(extract: Json -> Result<Json>, ours: map<string, Json>, official: map<string, Json>,
                      keys: set<string>)
    requires keys <= ours.Keys && keys <= official.Keys
    ensures var c := Tally(extract, ours, official, keys);
            0.0 <= Precision(c) <= 1.0 && 0.0 <= Recall(c) <= 1.0
            && 0.0 <= F1(Precision(c), Recall(c)) <= 1.0 && 0.0 <= SchemaAccuracy(c) <= 1.0
    ensures var c := Tally(extract, ours, official, keys);
            keys == {} ==>
              Precision(c) == 0.0 && Recall(c) == 0.0
              && F1(Precision(c), Recall(c)) == 0.0 && SchemaAccuracy(c) == 0.0
  {
    TallyPartition(extract, ours, official, keys);
  }
}
