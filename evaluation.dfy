/** The whole comparison of lines 78-124: index both runs by fingerprint,
    score the aligned test cases and derive the ratios. */
module Evaluation {
  import opened Json
  import opened FinishReason
  import opened Fingerprint
  import opened Alignment
  import opened Scoring

  /** The figures the summary reports, the ratios as exact fractions. */
  datatype Report = Report(
    oursUnique: nat,
    officialUnique: nat,
    aligned: nat,
    duplicateOurs: nat,
    duplicateOfficial: nat,
    counts: Counts,
    precision: real,
    recall: real,
    f1: real,
    schemaAccuracy: real)

  /** The figures the comparison promises of its report: every row is
      either indexed or a duplicate, each aligned key is counted once, the
      trigger counter counts the positives, every ratio lies in [0, 1], F1 is
      2TP / (2TP + FP + FN), and every ratio is 0 when nothing is aligned. */
  predicate Consistent(s: Report, oursRows: nat, officialRows: nat) {
    && s.oursUnique + s.duplicateOurs == oursRows
    && s.officialUnique + s.duplicateOfficial == officialRows
    && s.aligned <= s.oursUnique && s.aligned <= s.officialUnique
    && s.counts.tp + s.counts.fp + s.counts.fn + s.counts.tn == s.aligned
    && s.counts.triggered == s.counts.tp + s.counts.fp
    && s.counts.successful <= s.counts.triggered
    && 0.0 <= s.precision <= 1.0 && 0.0 <= s.recall <= 1.0
    && 0.0 <= s.f1 <= 1.0 && 0.0 <= s.schemaAccuracy <= 1.0
    && s.f1 == Ratio(2 * s.counts.tp, 2 * s.counts.tp + s.counts.fp + s.counts.fn)
    && (s.aligned == 0 ==> s.precision == 0.0 && s.recall == 0.0 && s.f1 == 0.0 && s.schemaAccuracy == 0.0)
  }

  /** The index `build_map_by_messages_hash` builds from the rows when none
      of their fingerprints raises. */
  function IndexOf(hash: Json -> Result<string>, rows: seq<Json>): Index {
    IndexAfter(HashesBy(hash, rows), rows, |rows|)
  }

  /** Every row has a fingerprint. */
  predicate AllHashed(hash: Json -> Result<string>, rows: seq<Json>) {
    forall i :: 0 <= i < |rows| ==> hash(rows[i]).Ok?
  }

  /** Every pair of records aligned by fingerprint has finish reasons that
      can be looked up. */
  predicate AllScorable(extract: Json -> Result<Json>, ours: map<string, Json>, official: map<string, Json>) {
    forall h :: h in ours && h in official ==> Scorable(extract, ours[h], official[h])
  }

  /** Runs the comparison on the decoded rows of both result files. It
      succeeds exactly when every row of both runs has a fingerprint and every
      aligned pair of records has finish reasons that can be looked up; the
      report is then the one built from the first-occurrence index of each
      run and the counters over their common fingerprints. */
  method Evaluate(md5Hex: string -> string, oursRows: seq<Json>, officialRows: seq<Json>)
    returns (r: Result<Report>)
    ensures var ours := IndexOf(e => MessagesHash(md5Hex, e), oursRows);
            var official := IndexOf(e => MessagesHash(md5Hex, e), officialRows);
            && (r.Ok? <==>
                  (forall i :: 0 <= i < |oursRows| ==> MessagesHash(md5Hex, oursRows[i]).Ok?)
                  && (forall i :: 0 <= i < |officialRows| ==> MessagesHash(md5Hex, officialRows[i]).Ok?)
                  && AllScorable(ExtractFinishReason, ours.mapping, official.mapping))
            && (r.Ok? ==>
                  r.value == ReportOf(ours.mapping, official.mapping, ours.duplicates, official.duplicates,
                                      Tally(ExtractFinishReason, ours.mapping, official.mapping,
                                            ours.mapping.Keys * official.mapping.Keys)))
    ensures r.Ok? ==> Consistent(r.value, |oursRows|, |officialRows|)
  {
    r := EvaluateBy(e => MessagesHash(md5Hex, e), ExtractFinishReason, oursRows, officialRows);
  }

  /** The comparison for the fingerprint and lookup functions it is given. */
  method EvaluateBy(hash: Json -> Result<string>, extract: Json -> Result<Json>,
                    oursRows: seq<Json>, officialRows: seq<Json>)
    returns (r: Result<Report>)
    ensures var ours := IndexOf(hash, oursRows);
            var official := IndexOf(hash, officialRows);
            && (r.Ok? <==>
                  AllHashed(hash, oursRows) && AllHashed(hash, officialRows)
                  && AllScorable(extract, ours.mapping, official.mapping))
            && (r.Ok? ==>
                  r.value == ReportOf(ours.mapping, official.mapping, ours.duplicates, official.duplicates,
                                      Tally(extract, ours.mapping, official.mapping,
                                            ours.mapping.Keys * official.mapping.Keys)))
    ensures r.Ok? ==> Consistent(r.value, |oursRows|, |officialRows|)
  {
    var oursIndex := IndexBy(hash, oursRows);
    if oursIndex.Raises? {
      return Raises(oursIndex.error);
    }
    var offIndex := IndexBy(hash, officialRows);
    if offIndex.Raises? {
      return Raises(offIndex.error);
    }
    IndexAfterSize(HashesBy(hash, oursRows), oursRows, |oursRows|);
    IndexAfterSize(HashesBy(hash, officialRows), officialRows, |officialRows|);
    var ours, official := oursIndex.value.mapping, offIndex.value.mapping;
    var counts := AggregateBy(extract, ours, official);
    AlignedScoreIsTally(extract, ours, official);
    if counts.Raises? {
      return Raises(counts.error);
    }
    ReportConsistent(extract, ours, official, oursIndex.value.duplicates, offIndex.value.duplicates,
                     |oursRows|, |officialRows|);
    r := Ok(ReportOf(ours, official, oursIndex.value.duplicates, offIndex.value.duplicates, counts.value));
  }

  /** The report of lines 126-149 for two indexes, their duplicate counts and
      the counters, with the ratios of lines 118-124. No more keys are aligned
      than either run has, precision and recall lie in [0, 1], and F1 is
      2TP / (2TP + FP + FN). */
  function ReportOf(ours: map<string, Json>, official: map<string, Json>, duplicateOurs: nat,
                    duplicateOfficial: nat, c: Counts): (r: Report)
    ensures r.aligned <= r.oursUnique && r.aligned <= r.officialUnique
    ensures 0.0 <= r.precision <= 1.0 && 0.0 <= r.recall <= 1.0 && 0.0 <= r.f1 <= 1.0
    ensures r.f1 == Ratio(2 * c.tp, 2 * c.tp + c.fp + c.fn)
  {
    var precision := Precision(c);
    var recall := Recall(c);
    CommonKeysBounded(ours, official);
    F1OfCounts(c);
    Report(|ours|, |official|, |ours.Keys * official.Keys|, duplicateOurs, duplicateOfficial,
           c, precision, recall, F1(precision, recall), SchemaAccuracy(c))
  }

  /** The report built from the counters of the aligned keys keeps every
      promise of `Consistent`. */
  lemma ReportConsistent(extract: Json -> Result<Json>, ours: map<string, Json>, official: map<string, Json>,
                         duplicateOurs: nat, duplicateOfficial: nat, oursRows: nat, officialRows: nat)
    requires |ours| + duplicateOurs == oursRows && |official| + duplicateOfficial == officialRows
    ensures Consistent(ReportOf(ours, official, duplicateOurs, duplicateOfficial,
                                Tally(extract, ours, official, ours.Keys * official.Keys)),
                       oursRows, officialRows)
  {
    var keys := ours.Keys * official.Keys;
    var c := Tally(extract, ours, official, keys);
    TallyPartition(extract, ours, official, keys);
    RatiosBounded(extract, ours, official, keys);
  }

  /** There are no more aligned keys than keys in either index. */
  lemma CommonKeysBounded(ours: map<string, Json>, official: map<string, Json>)
    ensures |ours.Keys * official.Keys| <= |ours| && |ours.Keys * official.Keys| <= |official|
  {
    assert ours.Keys * official.Keys <= ours.Keys;
    assert ours.Keys * official.Keys <= official.Keys;
    SubsetSize(ours.Keys * official.Keys, ours.Keys);
    SubsetSize(ours.Keys * official.Keys, official.Keys);
  }

  lemma {:induction false} SubsetSize(a: set<string>, b: set<string>)
    requires a <= b
    ensures |a| <= |b|
    decreases b
  {
    if a != {} {
      var x :| x in a;
      SubsetSize(a - {x}, b - {x});
    }
  }
}
