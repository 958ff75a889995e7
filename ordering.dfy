/** The order Python uses to compare strings (code point by code point, a
    proper prefix first), and `sorted` on a set of strings. */
module Ordering {

  /** Python's `a < b` on two strings. */
  predicate StrLess(a: string, b: string)
    decreases |a|
  {
    if a == [] then b != []
    else if b == [] then false
    else a[0] < b[0] || (a[0] == b[0] && StrLess(a[1..], b[1..]))
  }

  lemma {:induction false} StrLessIrreflexive(a: string)
    ensures !StrLess(a, a)
    decreases |a|
  {
    if a != [] {
      StrLessIrreflexive(a[1..]);
    }
  }

  lemma {:induction false} StrLessTransitive(a: string, b: string, c: string)
    requires StrLess(a, b) && StrLess(b, c)
    ensures StrLess(a, c)
    decreases |a|
  {
    if a != [] && a[0] == b[0] && b[0] == c[0] {
      StrLessTransitive(a[1..], b[1..], c[1..]);
    }
  }

  lemma {:induction false} StrLessTotal(a: string, b: string)
    requires a != b
    ensures StrLess(a, b) || StrLess(b, a)
    decreases |a|
  {
    if a != [] && b != [] && a[0] == b[0] {
      assert a == [a[0]] + a[1..] && b == [b[0]] + b[1..];
      StrLessTotal(a[1..], b[1..]);
    }
  }

  /** StrLess is a strict total order on strings. */
  lemma StrLessIsStrictTotalOrder()
    ensures forall a :: !StrLess(a, a)
    ensures forall a, b, c :: StrLess(a, b) && StrLess(b, c) ==> StrLess(a, c)
    ensures forall a, b :: a != b ==> StrLess(a, b) || StrLess(b, a)
  {
    forall a { StrLessIrreflexive(a); }
    forall a, b, c | StrLess(a, b) && StrLess(b, c) { StrLessTransitive(a, b, c); }
    forall a, b | a != b { StrLessTotal(a, b); }
  }

  /** Strictly increasing, hence without repeats. */
  predicate Ascending(s: seq<string>) {
    forall i, j :: 0 <= i < j < |s| ==> StrLess(s[i], s[j])
  }

  /** `m` is the least element of `s`. */
  predicate IsLeast(m: string, s: set<string>) {
    m in s && forall x :: x in s && x != m ==> StrLess(m, x)
  }

  lemma {:induction false} LeastExists(s: set<string>)
    requires s != {}
    ensures exists m :: IsLeast(m, s)
    decreases s
  {
    var x :| x in s;
    if s == {x} {
      assert IsLeast(x, s);
    } else {
      LeastExists(s - {x});
      var m :| IsLeast(m, s - {x});
      StrLessIsStrictTotalOrder();
      if StrLess(m, x) {
        assert IsLeast(m, s);
      } else {
        assert IsLeast(x, s);
      }
    }
  }

  /** Python's `sorted(s)` for a set of strings: its elements, in ascending
      order, each once. */
  function SortedSet(s: set<string>): (r: seq<string>)
    ensures Ascending(r)
    ensures forall x :: x in r <==> x in s
    ensures |r| == |s|
    decreases s
  {
    if s == {} then []
    else
      LeastExists(s);
      StrLessIsStrictTotalOrder();
      var m :| IsLeast(m, s);
      [m] + SortedSet(s - {m})
  }

  /** An ascending sequence has no repeated element. */
  lemma AscendingDistinct(s: seq<string>, i: nat, j: nat)
    requires Ascending(s)
    requires i < j < |s|
    ensures s[i] != s[j]
  {
    StrLessIrreflexive(s[i]);
  }
}
