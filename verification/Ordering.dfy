/** The lexicographic order of strings. */
module Ordering {

  predicate StrLess(a: string, b: string) {
    b != [] && (a == [] || a[0] < b[0] || (a[0] == b[0] && StrLess(a[1..], b[1..])))
  }

  /** The strings agree up to `k`; there the first one ends, or has the smaller character. */
  predicate LessAt(a: string, b: string, k: nat) {
    && k <= |a| && k < |b| && a[..k] == b[..k]
    && (k == |a| || a[k] < b[k])
  }

  lemma FirstAgrees(a: string, b: string, k: nat)
    requires LessAt(a, b, k)
    ensures k > 0 ==> a[0] == b[0]
  {
    if k > 0 { assert a[..k][0] == b[..k][0]; }
  }

  /** The order is decided where the strings first differ, and a proper prefix comes first. */
  lemma {:induction false} DecidedAtFirstDifference(a: string, b: string)
    ensures StrLess(a, b) <==> exists k: nat :: LessAt(a, b, k)
  {
    if a == [] || b == [] || a[0] != b[0] {
      if StrLess(a, b) { assert LessAt(a, b, 0); }
      forall k: nat | LessAt(a, b, k)
        ensures k == 0
      {
        FirstAgrees(a, b, k);
      }
    } else {
      DecidedAtFirstDifference(a[1..], b[1..]);
      if StrLess(a[1..], b[1..]) {
        var k: nat :| LessAt(a[1..], b[1..], k);
        assert a[..k + 1] == [a[0]] + a[1..][..k] && b[..k + 1] == [b[0]] + b[1..][..k];
        assert LessAt(a, b, k + 1);
      }
      if k: nat :| LessAt(a, b, k) {
        assert k > 0;
        assert a[1..][..k - 1] == a[..k][1..] && b[1..][..k - 1] == b[..k][1..];
        assert LessAt(a[1..], b[1..], k - 1);
      }
    }
  }

  lemma {:induction false} StrTrichotomy(a: string, b: string)
    ensures StrLess(a, b) || a == b || StrLess(b, a)
    ensures !(StrLess(a, b) && StrLess(b, a))
    ensures a == b ==> !StrLess(a, b)
  {
    if a != [] && b != [] {
      StrTrichotomy(a[1..], b[1..]);
      assert a == [a[0]] + a[1..] && b == [b[0]] + b[1..];
    }
  }

  lemma {:induction false} StrTransitive(a: string, b: string, c: string)
    requires StrLess(a, b) && StrLess(b, c)
    ensures StrLess(a, c)
  {
    if a != [] && a[0] == b[0] == c[0] { StrTransitive(a[1..], b[1..], c[1..]); }
  }

  predicate Increasing(s: seq<string>) {
    forall i, j :: 0 <= i < j < |s| ==> StrLess(s[i], s[j])
  }

  /** Inserting a new string in its place. */
  method Insert(sorted: seq<string>, x: string) returns (out: seq<string>)
    requires Increasing(sorted) && x !in sorted
    ensures Increasing(out)
    ensures forall y :: y in out <==> y == x || y in sorted
  {
    var k := 0;
    while k < |sorted| && StrLess(sorted[k], x)
      invariant k <= |sorted|
      invariant forall i :: 0 <= i < k ==> StrLess(sorted[i], x)
    {
      k := k + 1;
    }
    out := sorted[..k] + [x] + sorted[k..];
    InsertedIncreases(sorted, x, k);
    assert sorted == sorted[..k] + sorted[k..];
  }

  lemma InsertedIncreases(sorted: seq<string>, x: string, k: nat)
    requires Increasing(sorted) && x !in sorted && k <= |sorted|
    requires forall i :: 0 <= i < k ==> StrLess(sorted[i], x)
    requires k < |sorted| ==> !StrLess(sorted[k], x)
    ensures Increasing(sorted[..k] + [x] + sorted[k..])
  {
    forall i | k <= i < |sorted|
      ensures StrLess(x, sorted[i])
    {
      assert sorted[k] in sorted;
      StrTrichotomy(sorted[k], x);
      if k < i { StrTransitive(x, sorted[k], sorted[i]); }
    }
  }

  /** There is only one increasing list of a given set of strings. */
  lemma {:induction false} IncreasingIsUnique(a: seq<string>, b: seq<string>)
    requires Increasing(a) && Increasing(b)
    requires forall x :: x in a <==> x in b
    ensures a == b
    decreases |a|
  {
    assert b != [] ==> b[0] in a;
    if a == [] {
    } else {
      assert a[0] in b && |b| > 0 && b[0] in a;
      FirstIsFirst(a, b);
      FirstIsFirst(b, a);
      StrTrichotomy(a[0], b[0]);
      forall x
        ensures x in a[1..] <==> x in b[1..]
      {
        TailHolds(a, x);
        TailHolds(b, x);
      }
      IncreasingIsUnique(a[1..], b[1..]);
      assert a == [a[0]] + a[1..] && b == [b[0]] + b[1..];
    }
  }

  lemma FirstIsFirst(a: seq<string>, b: seq<string>)
    requires Increasing(a) && a != [] && b != [] && b[0] in a
    ensures a[0] == b[0] || StrLess(a[0], b[0])
  {
    var i :| 0 <= i < |a| && a[i] == b[0];
  }

  lemma TailHolds(a: seq<string>, x: string)
    requires Increasing(a) && a != []
    ensures x in a[1..] <==> x in a && x != a[0]
  {
    if x in a[1..] {
      var i :| 0 <= i < |a[1..]| && a[1..][i] == x;
      StrTrichotomy(a[0], x);
      assert a[i + 1] == x;
    }
    if x in a && x != a[0] {
      var i :| 0 <= i < |a| && a[i] == x;
      assert a[1..][i - 1] == x;
    }
  }

  method SortStrings(list: seq<string>) returns (out: seq<string>)
    requires forall i, j :: 0 <= i < j < |list| ==> list[i] != list[j]
    ensures Increasing(out) && forall x :: x in out <==> x in list
  {
    out := [];
    for i := 0 to |list|
      invariant Increasing(out) && forall x :: x in out <==> x in list[..i]
    {
      assert list[..i + 1] == list[..i] + [list[i]];
      out := Insert(out, list[i]);
    }
    assert list[..|list|] == list;
  }
}
