/** Indexing a run's records by fingerprint, the first record of each
    fingerprint winning. */
module Alignment {
  import opened Json
  import opened Fingerprint

  /** The index of one run: each fingerprint's record and the number of later
      records skipped because their fingerprint was already present. */
  datatype Index = Index(mapping: map<string, Json>, duplicates: nat)

  /** Row `i` is the first row whose hash is `h`: no earlier row has it. */
  predicate IsFirstWithHash(hs: seq<Result<string>>, i: int, h: string) {
    0 <= i < |hs| && hs[i] == Ok(h) && h !in HashesOf(hs, i)
  }

  /** The hashes of the first `n` rows that do not raise. */
  function HashesOf(hs: seq<Result<string>>, n: nat): set<string>
    requires n <= |hs|
  {
    if n == 0 then {}
    else
      var prev := HashesOf(hs, n - 1);
      match hs[n - 1]
      case Ok(h) => prev + {h}
      case Raises(_) => prev
  }

  /** A hash is among the first `n` rows' hashes exactly when one of those
      rows has it. */
  lemma {:induction false} HashesOfMembers(hs: seq<Result<string>>, n: nat, h: string)
    requires n <= |hs|
    ensures h in HashesOf(hs, n) <==> exists k :: 0 <= k < n && hs[k] == Ok(h)
  {
    if n > 0 {
      HashesOfMembers(hs, n - 1, h);
      if hs[n - 1] == Ok(h) {
        assert h in HashesOf(hs, n);
      }
    }
  }

  /** The index after the first `n` rows, all of which hash without raising:
      a row with a new hash is stored under it, a row with a known hash only
      adds a duplicate. */
  function IndexAfter(hs: seq<Result<string>>, rows: seq<Json>, n: nat): Index
    requires n <= |hs| == |rows|
  {
    if n == 0 then Index(map[], 0)
    else
      var prev := IndexAfter(hs, rows, n - 1);
      match hs[n - 1]
      case Raises(_) => prev
      case Ok(h) =>
        if h in prev.mapping then Index(prev.mapping, prev.duplicates + 1)
        else Index(prev.mapping[h := rows[n - 1]], prev.duplicates)
  }

  /** The stored hashes are exactly the rows' hashes. */
  lemma {:induction false} IndexAfterKeys(hs: seq<Result<string>>, rows: seq<Json>, n: nat)
    requires n <= |hs| == |rows|
    ensures IndexAfter(hs, rows, n).mapping.Keys == HashesOf(hs, n)
  {
    if n > 0 {
      IndexAfterKeys(hs, rows, n - 1);
    }
  }

  /** Every row is either stored or counted as a duplicate, and the stored
      hashes are exactly the rows' hashes. */
  lemma {:induction false} IndexAfterSize(hs: seq<Result<string>>, rows: seq<Json>, n: nat)
    requires n <= |hs| == |rows|
    requires forall k :: 0 <= k < n ==> hs[k].Ok?
    ensures |IndexAfter(hs, rows, n).mapping| + IndexAfter(hs, rows, n).duplicates == n
    ensures IndexAfter(hs, rows, n).mapping.Keys == HashesOf(hs, n)
  {
    IndexAfterKeys(hs, rows, n);
    if n > 0 {
      IndexAfterSize(hs, rows, n - 1);
      var prev := IndexAfter(hs, rows, n - 1);
      var h := hs[n - 1].value;
      if h !in prev.mapping {
        assert |prev.mapping[h := rows[n - 1]]| == |prev.mapping| + 1;
      }
    }
  }

  /** Each hash is stored with the first row that has it. */
  lemma {:induction false} IndexAfterFirst(hs: seq<Result<string>>, rows: seq<Json>, n: nat)
    requires n <= |hs| == |rows|
    requires forall k :: 0 <= k < n ==> hs[k].Ok?
    ensures forall h :: h in IndexAfter(hs, rows, n).mapping ==>
              exists i :: 0 <= i < n && IsFirstWithHash(hs, i, h) && IndexAfter(hs, rows, n).mapping[h] == rows[i]
  {
    if n > 0 {
      IndexAfterKeys(hs, rows, n - 1);
      IndexAfterFirst(hs, rows, n - 1);
      var prev := IndexAfter(hs, rows, n - 1);
      var h := hs[n - 1].value;
      if h !in prev.mapping {
        var m := prev.mapping[h := rows[n - 1]];
        assert IndexAfter(hs, rows, n).mapping == m;
        forall g | g in m ensures exists i :: 0 <= i < n && IsFirstWithHash(hs, i, g) && m[g] == rows[i] {
          if g == h {
            assert IsFirstWithHash(hs, n - 1, g) && m[g] == rows[n - 1];
          } else {
            var i :| 0 <= i < n - 1 && IsFirstWithHash(hs, i, g) && prev.mapping[g] == rows[i];
            assert m[g] == rows[i];
          }
        }
      } else {
        assert IndexAfter(hs, rows, n).mapping == prev.mapping;
      }
    }
  }

  /** `build_map_by_messages_hash(rows)`: one pass over the rows; a row whose
      fingerprint is already indexed only counts as a duplicate. A row whose
      fingerprint raises aborts the pass. */
  method BuildIndex(md5Hex: string -> string, rows: seq<Json>) returns (r: Result<Index>)
    ensures var hs := HashesBy(e => MessagesHash(md5Hex, e), rows);
            && (r.Raises? <==> exists i :: 0 <= i < |rows| && hs[i].Raises?)
            && (r.Ok? ==> r.value == IndexAfter(hs, rows, |rows|))
            && (r.Ok? ==> |r.value.mapping| + r.value.duplicates == |rows|)
            && (r.Ok? ==> forall h :: h in r.value.mapping <==> exists i :: 0 <= i < |rows| && hs[i] == Ok(h))
            && (r.Ok? ==> forall h :: h in r.value.mapping ==>
                            exists i :: IsFirstWithHash(hs, i, h) && r.value.mapping[h] == rows[i])
  {
    ghost var hs := HashesBy(e => MessagesHash(md5Hex, e), rows);
    r := IndexBy(e => MessagesHash(md5Hex, e), rows);
    if r.Ok? {
      IndexAfterSize(hs, rows, |rows|);
      IndexAfterFirst(hs, rows, |rows|);
      forall h ensures h in r.value.mapping <==> exists i :: 0 <= i < |rows| && hs[i] == Ok(h) {
        HashesOfMembers(hs, |rows|, h);
      }
    }
  }

  /** The loop of `build_map_by_messages_hash`, for the hash function it is
      given. */
  method IndexBy(hash: Json -> Result<string>, rows: seq<Json>) returns (r: Result<Index>)
    ensures var hs := HashesBy(hash, rows);
            && (r.Raises? <==> exists i :: 0 <= i < |rows| && hs[i].Raises?)
            && (r.Ok? ==> r.value == IndexAfter(hs, rows, |rows|))
  {
    ghost var hs := HashesBy(hash, rows);
    var mapping: map<string, Json> := map[];
    var dups := 0;
    var n := 0;
    while n < |rows|
      invariant n <= |rows|
      invariant forall k :: 0 <= k < n ==> hs[k].Ok?
      invariant Index(mapping, dups) == IndexAfter(hs, rows, n)
    {
      var fp := hash(rows[n]);
      if fp.Raises? {
        return Raises(fp.error);
      }
      var h := fp.value;
      if h in mapping {
        dups := dups + 1;
      } else {
        mapping := mapping[h := rows[n]];
      }
      n := n + 1;
    }
    r := Ok(Index(mapping, dups));
  }

  /** The outcome of hashing each row, row by row. */
  function HashesBy(hash: Json -> Result<string>, rows: seq<Json>): (hs: seq<Result<string>>)
    ensures |hs| == |rows|
    ensures forall i :: 0 <= i < |rows| ==> hs[i] == hash(rows[i])
  {
    seq(|rows|, i requires 0 <= i < |rows| => hash(rows[i]))
  }
}
