# Tool-call trigger F1 over fingerprint-aligned logs, in Dafny

`compute_f1_hash.py` compares two runs of chat-completion requests. One is
"ours", the candidate; the other is the official reference run. It does this
in four steps:

1. It fingerprints every logged record by the MD5 digest of the sorted-key
   JSON text of its request's `messages`, `tools` and `tool_choice`.
2. It indexes each run by fingerprint, keeping the first record and counting
   later ones as duplicates.
3. For every fingerprint present in both runs, in ascending order, it checks
   whether each side stopped with finish reason `"tool_calls"`. It then fills
   a confusion matrix (TP/FP/FN/TN), counts our triggers and how many of them
   carry a truthy `tool_calls_valid`.
4. It derives precision, recall, F1 and schema accuracy, each 0 when its
   denominator is 0.

The model follows that structure, one module per concern:

- `Json` (json.dfy) covers decoded JSON values. Objects keep their insertion
  order. The module also has Python truthiness, `or`, and dictionary `.get`.
- `Ordering` (ordering.dfy) covers Python's string order and `sorted` on a set
  of strings.
- `Canonical` (canonical.dfy) covers `json.dumps(..., sort_keys=True)`: member
  sorting at every depth, plus the text writer.
- `FinishReason` (finish_reason.dfy) covers `extract_finish_reason` and
  `is_tool_calls`.
- `Fingerprint` (fingerprint.dfy) covers `compute_messages_hash`, with MD5
  taken as a parameter `md5Hex`.
- `Alignment` (alignment.dfy) covers `build_map_by_messages_hash`, as a loop
  specified against the recursive `IndexAfter`.
- `Scoring` (scoring.dfy) covers the aligned-key loop of `main`. The loop is
  specified against the sequential `ScoreAll`. The counters are defined by
  set cardinalities in `Tally`. The module also has the ratio policy.
- `Evaluation` (evaluation.dfy) covers the comparison from the decoded rows to
  the reported figures.

Python exceptions are modelled, not excluded. Calling `.get` on a value that
is not a dictionary raises `AttributeError`. It becomes `Raises(AttributeError)`
and stops the pass, as the uncaught exception stops the script. Every row of
both runs is fingerprinted in turn until one raises (the official run is not
indexed at all if one of ours raises), and fingerprinting raises when:

- a record is not a dictionary;
- `request` is present but is not a dictionary (a JSON `null` included).

The finish-reason lookup reads only the stored (first) record of each
fingerprint present in both runs. For such a record without a truthy
top-level `finish_reason`, it raises when:

- `response` is truthy but is not a dictionary;
- the first element of a non-empty `choices` list is truthy but not a
  dictionary.

A duplicate record, a record whose fingerprint the other run lacks, and a
record with a truthy top-level `finish_reason` never raise on account of
their `response`.

A missing field, by contrast, never raises: `.get` supplies its default.

The loops (`IndexBy`, `AggregateBy`) and `EvaluateBy` take the fingerprint or
finish-reason function as a parameter. The entry points `BuildIndex`,
`Aggregate` and `Evaluate` pass them `compute_messages_hash` and
`extract_finish_reason`. The proofs therefore never unfold those functions
inside a loop.

## Model

| member | source | states |
|---|---|---|
| Json.Get | compute_f1_hash.py:44-47 | A dictionary lookup finds nothing exactly when no member has the key; anything it finds is a member stored under that key. |
| Ordering.StrLessIsStrictTotalOrder | compute_f1_hash.py:86 | Python's `<` on strings is irreflexive, transitive and total, so `sorted` on a set of fingerprints is well defined. |
| Ordering.SortedSet | compute_f1_hash.py:86 | `sorted(s)` on a set of strings is strictly ascending. It lists exactly the elements of `s`, one entry per element. |
| Ordering.AscendingDistinct | compute_f1_hash.py:86 | A sorted set lists no fingerprint twice. |
| Canonical.SortByKeyAscending | compute_f1_hash.py:51 | Sorting the members of a dictionary with distinct keys by key gives strictly ascending keys. |
| Canonical.SortedUnique | compute_f1_hash.py:51 | Two key-ascending member lists with the same members are equal, so the sorted order is unique. |
| Canonical.CanonIsCanonical | compute_f1_hash.py:51 | After `sort_keys`, every object at every depth has strictly ascending keys. |
| Canonical.CanonicalIsWellFormed | compute_f1_hash.py:51 | A value whose keys are ascending at every depth repeats no key anywhere. |
| Canonical.CanonOnlyReorders | compute_f1_hash.py:51 | Sorting keys changes nothing but key order. The sorted value equals the original up to key order at every depth. |
| Canonical.CanonIgnoresKeyOrder | compute_f1_hash.py:51 | Two decoded values that differ only in key order, at any depth, have the same sorted-key form. |
| Canonical.CanonEqualIffSameUpToKeyOrder | compute_f1_hash.py:51 | Two well-formed values have the same sorted-key form if and only if they differ only in key order. |
| Canonical.CanonIdempotent | compute_f1_hash.py:51 | Sorting keys a second time changes nothing. |
| Canonical.SameUpToKeyOrderTransitive | compute_f1_hash.py:51 | "Equal up to key order" is transitive on well-formed values (reflexivity and symmetry are proved beside it). |
| Canonical.SerializeIgnoresKeyOrder | compute_f1_hash.py:51 | The JSON text of the key object does not depend on the key order of any object in it. |
| FinishReason.ExtractFinishReason | compute_f1_hash.py:21-32 | A finish reason is found only for a dictionary record. What is returned is None or a truthy value. |
| FinishReason.FinishReasonPriority | compute_f1_hash.py:21-32 | The lookup raises exactly on the crashing record shapes. Otherwise a truthy top-level `finish_reason` wins. Failing that, a truthy `response.choices[0].finish_reason` in a non-empty `choices` list wins. Otherwise the result is None. |
| FinishReason.TopLevelOverridesResponse | compute_f1_hash.py:22-24 | With a truthy top-level `finish_reason`, replacing `response` with anything, even a value the nested lookup would crash on, leaves the result unchanged. |
| FinishReason.IsToolCalls | compute_f1_hash.py:92-93 | `is_tool_calls` holds for exactly the string "tool_calls", which is truthy. It never holds for None. |
| Fingerprint.KeyObject | compute_f1_hash.py:44-49 | The dictionary that is hashed exists exactly when the record and its `request` (`{}` when missing) are dictionaries. It has exactly the keys `messages`, `tools` and `tool_choice`, none repeated, holding the request's fields with the defaults `[]`, None and None. |
| Fingerprint.KeyObjectCanonIff | compute_f1_hash.py:44-51 | Two well-formed records' key objects have the same sorted-key form if and only if their three test-case fields pairwise differ only in key order, whatever else the records hold. |
| Fingerprint.KeyOfSameIff | compute_f1_hash.py:45-51 | Key objects built from well-formed fields have the same sorted-key form if and only if the fields pairwise differ only in key order. |
| Fingerprint.KeyOfSameParts | compute_f1_hash.py:45-49 | Key objects that differ only in key order were built from fields that pairwise differ only in key order. |
| Fingerprint.HashDependsOnlyOnTestCaseUpToKeyOrder | compute_f1_hash.py:35-52 | Records whose three test-case fields pairwise differ only in key order get the same fingerprint, whatever their other fields. |
| Fingerprint.MessagesHash | compute_f1_hash.py:35-52 | The fingerprint raises exactly when the record is not a dictionary, or has a `request` that is not a dictionary (`null` included). A record without `request` is fingerprinted. |
| Fingerprint.HashDependsOnlyOnTestCase | compute_f1_hash.py:35-52 | Records that agree on the three test-case fields, after defaulting, get the same fingerprint, whatever else they contain. |
| Fingerprint.HashIgnoresOtherFields | compute_f1_hash.py:44 | Adding or changing any top-level field other than `request` leaves the fingerprint unchanged. |
| Fingerprint.HashIgnoresOtherRequestFields | compute_f1_hash.py:45-49 | Adding or changing a request field other than the three leaves the fingerprint unchanged. |
| Fingerprint.MissingRequestMeansDefaults | compute_f1_hash.py:44-49 | A record without `request` has the fingerprint of one whose request spells out `[]`, None and None. |
| Fingerprint.GetOrIgnoresKeyOrder | compute_f1_hash.py:44-47 | `d.get(key, default)` on two dictionaries that differ only in key order gives values that differ only in key order. |
| Fingerprint.KeyOfIgnoresKeyOrder | compute_f1_hash.py:45-49 | Key objects built from fields that pairwise differ only in key order differ only in key order. |
| Fingerprint.KeyObjectIgnoresKeyOrder | compute_f1_hash.py:44-49 | Records that differ only in key order both have a key object or both lack one, and their key objects differ only in key order. |
| Fingerprint.HashIgnoresKeyOrder | compute_f1_hash.py:50-52 | Records that differ only in key order, at any depth, get the same fingerprint, or both raise. |
| Alignment.HashesOfMembers | compute_f1_hash.py:62-63 | A hash is among the hashes of the first n rows exactly when one of those rows has it. |
| Alignment.IndexAfterKeys | compute_f1_hash.py:62-67 | The stored fingerprints are exactly the fingerprints of the rows seen. |
| Alignment.IndexAfterSize | compute_f1_hash.py:60-67 | Every row is either stored or counted as a duplicate: entries plus duplicates equal the rows seen. |
| Alignment.IndexAfterFirst | compute_f1_hash.py:63-67 | Each fingerprint is stored with the earliest row that has it. |
| Alignment.IndexBy | compute_f1_hash.py:60-68 | The loop raises exactly when some row's fingerprint raises. Otherwise it returns the index the first-occurrence-wins rule defines. |
| Alignment.BuildIndex | compute_f1_hash.py:55-68 | `build_map_by_messages_hash` raises exactly when some row's fingerprint raises. Otherwise entries plus duplicates equal the number of rows. The keys are exactly the rows' fingerprints, and each is stored with its first row. |
| Scoring.Classify | compute_f1_hash.py:104-111 | Exactly one verdict per pair: TP if and only if both triggered, FP if and only if only ours did, FN if and only if only the official one did, TN if and only if neither did. |
| Scoring.TallyAdd | compute_f1_hash.py:95-116 | Scoring one more aligned key adds exactly that key's verdict, trigger and success to the counters. |
| Scoring.TallyPartition | compute_f1_hash.py:104-116 | TP+FP+FN+TN equals the number of aligned keys. The trigger counter equals TP+FP. Successes never exceed triggers. |
| Scoring.Aligned | compute_f1_hash.py:84-86 | The aligned keys are exactly the keys of both indexes, ascending, without repeats. There are as many as common keys. |
| Scoring.ScoreAllRaisesIff | compute_f1_hash.py:95-99 | Scoring keys one by one raises exactly when some key's pair has a finish reason that cannot be looked up. |
| Scoring.ScoreAllIsTally | compute_f1_hash.py:95-116 | Scoring ascending keys one by one gives the counters defined by counting over the set of those keys. |
| Scoring.LastKeyIsNew | compute_f1_hash.py:86 | In a sorted key list, the last key is not among the earlier ones. |
| Scoring.ScoreAllNext | compute_f1_hash.py:95-116 | One more loop iteration extends the counters by one key's contribution, or raises exactly when that pair is not scorable. |
| Scoring.ScoreAllRaises | compute_f1_hash.py:95-99 | Once an iteration raises, the whole loop raises. |
| Scoring.AlignedScoreIsTally | compute_f1_hash.py:84-116 | Over the aligned keys, the loop raises exactly when some common key's pair is not scorable. Otherwise its counters are those defined over the common keys. |
| Scoring.ScoreKey | compute_f1_hash.py:96-116 | One iteration raises exactly when a finish reason cannot be looked up. Otherwise it adds the pair's verdict, its trigger and its success to the counters. |
| Scoring.AggregateBy | compute_f1_hash.py:84-116 | The loop, for a given lookup, returns what scoring the aligned keys one by one returns. |
| Scoring.Aggregate | compute_f1_hash.py:84-116 | With `extract_finish_reason` as the lookup, the loop raises exactly when some aligned record's finish reason cannot be looked up. Otherwise it returns the six counters defined over the common keys. |
| Scoring.Ratio | compute_f1_hash.py:118-124 | A ratio is 0 when its denominator is 0, otherwise the exact quotient. It lies in [0, 1] when the numerator does not exceed the denominator. |
| Scoring.Precision | compute_f1_hash.py:118 | Precision is TP/(TP+FP), 0 when we never triggered. It lies in [0, 1] and is 1 exactly when there is a TP and no FP. |
| Scoring.Recall | compute_f1_hash.py:119 | Recall is TP/(TP+FN), 0 when the official run never triggered. It lies in [0, 1] and is 1 exactly when there is a TP and no FN. |
| Scoring.SchemaAccuracy | compute_f1_hash.py:122-124 | Schema accuracy is successes over triggers, 0 without triggers. It lies in [0, 1] when successes do not exceed triggers, and is 1 exactly when there is a trigger and every trigger is valid. |
| Scoring.F1 | compute_f1_hash.py:120 | F1 is 0 when precision plus recall is 0. It is never negative, and lies in [0, 1] when precision and recall do. |
| Scoring.HarmonicMeanBounded | compute_f1_hash.py:120 | 2pq/(p+q) lies in [0, 1] for p and q in [0, 1], not both 0. |
| Scoring.F1OfQuotients | compute_f1_hash.py:118-120 | The harmonic mean of t/a and t/b is 2t/(a+b). |
| Scoring.F1OfCounts | compute_f1_hash.py:118-120 | F1 computed from precision and recall equals 2TP/(2TP+FP+FN), 0 when that denominator is 0. |
| Scoring.RatiosBounded | compute_f1_hash.py:118-124 | Precision, recall, F1 and schema accuracy all lie in [0, 1], and all four are 0 when nothing is aligned. |
| Evaluation.CommonKeysBounded | compute_f1_hash.py:84-86 | There are no more aligned keys than keys in either index. |
| Evaluation.ReportOf | compute_f1_hash.py:118-149 | The report never has more aligned keys than either run has unique ones. Its precision, recall and F1 lie in [0, 1], and its F1 is 2TP/(2TP+FP+FN). |
| Evaluation.ReportConsistent | compute_f1_hash.py:118-149 | The reported figures from the counters of the common keys satisfy every promise of the report. Those promises are the row balance per run, a complete confusion matrix, triggers equal to TP+FP, bounded ratios, F1 = 2TP/(2TP+FP+FN), and all ratios 0 when nothing is aligned. |
| Evaluation.EvaluateBy | compute_f1_hash.py:81-124 | For a given fingerprint and lookup, the run succeeds exactly when every row of both runs has a fingerprint and every aligned pair has finish reasons that can be looked up. The report is then the one built from the two first-occurrence indexes, their duplicate counts and the counters over their common fingerprints. It keeps the report's promises. |
| Evaluation.Evaluate | compute_f1_hash.py:78-124 | From the decoded rows, the comparison succeeds exactly when every row of both runs has a fingerprint and every aligned pair of records has finish reasons that can be looked up. The report is then exactly the one built from each run's first-occurrence index, its duplicate count and the counters over the common fingerprints, and it keeps every promise above. |

## Left out

- `load_jsonl` (lines 7-18) reads files and parses JSON text. The model takes the decoded rows as input. Blank lines, and lines that `json.loads` rejects with JSONDecodeError, produce no row. Bytes that are not UTF-8, or a line on which `json.loads` fails with another exception (RecursionError on deep nesting, ValueError on an over-long integer literal), abort the run; neither is modelled.
- MD5 is the parameter `md5Hex`, with no properties assumed. So nothing says that different key objects get different fingerprints. The UTF-8 encoding before hashing (line 52) is folded into that parameter.
- Canonical.Emit writes floats as `mantissaeexponent`, not as Python's `repr`. It does not write NaN or infinities. The separators `", "` and `": "` and the escapes of `ensure_ascii=False` follow `json.dumps`. No property of the text writer other than its key-order independence is proved, in particular not injectivity.
- The ratios are exact rationals (`real`). Float division, the float arithmetic of the F1 formula, and `round(x * 100, 2)` in the report (lines 140-147) are not modelled. Evaluation.Report holds the unscaled, unrounded ratios.
- Argument parsing, writing and printing the report (lines 72-76, 151-153) are not modelled. Neither is the nesting of the report dictionary or its constant `key_type` string (lines 126-149). Evaluation.Report holds the figures flat.
- `AttributeError` is the only exception modelled. Python can raise others on inputs the model cannot represent, as the next line says.
- Strings are sequences of Unicode scalar values, so a string holding a lone surrogate cannot be represented. `json.loads` produces one from an escape such as `\ud83d`. Such a string makes `serialized.encode("utf-8")` at line 52 raise UnicodeEncodeError. Fingerprint.MessagesHash's "raises exactly when" holds for the representable records only.
- Json.JFloat keeps a float's decimal literal, not the binary double Python reads it as. Literals that Python reads as the same float are distinct values in the model, for example `10.0` and `1e1`, or `0.1` and `0.10000000000000001`. They get different model texts and so different model fingerprints, where Python writes one text and gives one fingerprint. For the same reason Json.Truthy calls a literal truthy whenever its mantissa is non-zero, even one such as `1e-400` that Python reads as `0.0`, which is falsy. Python's `==` also equates `1`, `1.0` and `True`; the model keeps them apart, as their `json.dumps` texts do. In the other direction, the model cannot represent `-0.0`: `JFloat(-0, e)` is `JFloat(0, e)`. Python keeps `-0.0` apart from `0.0` and writes it as `-0.0`, so two records that differ only in the sign of a zero float get different Python fingerprints but the same model fingerprint.
- Scoring.ScoreKey: for a lookup other than `extract_finish_reason`, a triggered record that is not a dictionary counts as not schema-valid rather than raising. With `extract_finish_reason` that case cannot occur, because a found finish reason implies a dictionary record.
- Ordering.SortedSet compares strings character by character, which for the hexadecimal fingerprints is Python's order.
