/** Lexicographic order on integer sequences, and on strings by character code: Go's `<`. */
module Lexicographic {

  predicate Before(a: seq<int>, b: seq<int>) {
    b != [] && (a == [] || a[0] < b[0] || (a[0] == b[0] && Before(a[1..], b[1..])))
  }

  lemma {:induction false} BeforeTransitive(a: seq<int>, b: seq<int>, c: seq<int>)
    requires Before(a, b) && Before(b, c)
    ensures Before(a, c)
    decreases |a|
  {
    if a != [] && a[0] == b[0] == c[0] {
      BeforeTransitive(a[1..], b[1..], c[1..]);
    }
  }

  lemma {:induction false} BeforeTotal(a: seq<int>, b: seq<int>)
    ensures !(Before(a, b) && Before(b, a))
    ensures Before(a, b) || Before(b, a) || a == b
    ensures a == b ==> !Before(a, b)
    decreases |a|
  {
    if a != [] && b != [] && a[0] == b[0] {
      BeforeTotal(a[1..], b[1..]);
      assert a == [a[0]] + a[1..] && b == [b[0]] + b[1..];
    }
  }

  function Codes(s: string): seq<int> {
    seq(|s|, i requires 0 <= i < |s| => s[i] as int)
  }

  predicate TextBefore(a: string, b: string) {
    Before(Codes(a), Codes(b))
  }

  lemma TextBeforeTransitive(a: string, b: string, c: string)
    requires TextBefore(a, b) && TextBefore(b, c)
    ensures TextBefore(a, c)
  {
    BeforeTransitive(Codes(a), Codes(b), Codes(c));
  }

  lemma TextBeforeTotal(a: string, b: string)
    ensures !(TextBefore(a, b) && TextBefore(b, a))
    ensures TextBefore(a, b) || TextBefore(b, a) || a == b
    ensures a == b ==> !TextBefore(a, b)
  {
    BeforeTotal(Codes(a), Codes(b));
    if Codes(a) == Codes(b) {
      assert |a| == |Codes(a)| == |Codes(b)| == |b|;
      forall i | 0 <= i < |a| ensures a[i] == b[i] {
        assert Codes(a)[i] == Codes(b)[i];
      }
    }
  }

  /** `a` and `b` agree on the first `n` characters, and then `a` ends or has the smaller one. */
  ghost predicate FirstLess(a: string, b: string, n: nat) {
    n <= |a| && n < |b| && a[..n] == b[..n] && (n == |a| || a[n] < b[n])
  }

  lemma FirstLessHead(a: string, b: string, n: nat)
    requires FirstLess(a, b, n)
    ensures n == 0 || a[0] == b[0]
  {
    if n > 0 {
      assert a[..n][0] == b[..n][0];
    }
  }

  lemma FirstLessTail(a: string, b: string, n: nat)
    requires a != "" && b != "" && a[0] == b[0]
    ensures FirstLess(a, b, n + 1) <==> FirstLess(a[1..], b[1..], n)
  {
    if n < |a| && n + 1 < |b| {
      assert a[..n + 1] == [a[0]] + a[1..][..n] && b[..n + 1] == [b[0]] + b[1..][..n];
      assert a[..n + 1][1..] == a[1..][..n] && b[..n + 1][1..] == b[1..][..n];
    }
  }

  /** Text order, by the first character in which two texts differ. */
  lemma {:induction false} TextBeforeIff(a: string, b: string)
    ensures TextBefore(a, b) <==> exists n: nat :: FirstLess(a, b, n)
    decreases |a|
  {
    if a == "" {
      assert b != "" ==> FirstLess(a, b, 0);
    } else if b != "" && a[0] != b[0] {
      assert a[0] < b[0] ==> FirstLess(a, b, 0);
      forall n: nat | FirstLess(a, b, n) ensures n == 0 {
        FirstLessHead(a, b, n);
      }
    } else if b != "" {
      var s, t := a[1..], b[1..];
      TextBeforeIff(s, t);
      assert Codes(a)[1..] == Codes(s) && Codes(b)[1..] == Codes(t);
      forall n: nat ensures FirstLess(a, b, n + 1) <==> FirstLess(s, t, n) {
        FirstLessTail(a, b, n);
      }
      if n: nat :| FirstLess(a, b, n) {
        assert n > 0 && FirstLess(s, t, n - 1);
      }
      if n: nat :| FirstLess(s, t, n) {
        assert FirstLess(a, b, n + 1);
      }
    }
  }

  ghost predicate TextAscending(s: seq<string>) {
    forall i, j :: 0 <= i < j < |s| ==> TextBefore(s[i], s[j])
  }

  /** A set of strings can be listed in ascending order in one way only. */
  lemma {:induction false} AscendingListUnique(a: seq<string>, b: seq<string>)
    requires TextAscending(a) && TextAscending(b)
    requires forall x :: x in a <==> x in b
    ensures a == b
    decreases |a|
  {
    assert |b| > 0 ==> b[0] in b;
    if a == [] {
      assert b == [];
    } else {
      assert a[0] in b;
      assert b[0] in a;
      var i :| 0 <= i < |b| && b[i] == a[0];
      var j :| 0 <= j < |a| && a[j] == b[0];
      if i > 0 && j > 0 {
        TextBeforeTotal(a[0], b[0]);
        assert false;
      }
      assert a[0] == b[0];
      forall x ensures x in a[1..] <==> x in b[1..] {
        AscendingHeadOnce(a, x);
        AscendingHeadOnce(b, x);
      }
      AscendingListUnique(a[1..], b[1..]);
      assert a == [a[0]] + a[1..] && b == [b[0]] + b[1..];
    }
  }

  lemma AscendingHeadOnce(a: seq<string>, x: string)
    requires TextAscending(a) && a != []
    ensures x in a[1..] <==> x in a && x != a[0]
  {
    if x in a[1..] {
      var i :| 0 <= i < |a[1..]| && a[1..][i] == x;
      assert TextBefore(a[0], a[i + 1]);
      TextBeforeTotal(a[0], x);
    }
    if x in a && x != a[0] {
      var i :| 0 <= i < |a| && a[i] == x;
      assert a[1..][i - 1] == x;
    }
  }

  /** sort.Strings on distinct strings: by insertion. */
  method SortStrings(s: seq<string>) returns (sorted: seq<string>)
    requires forall i, j :: 0 <= i < j < |s| ==> s[i] != s[j]
    ensures TextAscending(sorted)
    ensures forall x :: x in sorted <==> x in s
    ensures |sorted| == |s|
  {
    sorted := [];
    for n := 0 to |s|
      invariant TextAscending(sorted) && |sorted| == n
      invariant forall x :: x in sorted <==> x in s[..n]
    {
      assert s[n] !in s[..n];
      assert s[..n + 1] == s[..n] + [s[n]];
      sorted := Insert(sorted, s[n]);
    }
    assert s[..|s|] == s;
  }

  method Insert(sorted: seq<string>, x: string) returns (r: seq<string>)
    requires TextAscending(sorted) && x !in sorted
    ensures TextAscending(r) && |r| == |sorted| + 1
    ensures forall y :: y in r <==> y in sorted || y == x
  {
    var i := 0;
    while i < |sorted| && TextBefore(sorted[i], x)
      invariant 0 <= i <= |sorted|
      invariant forall k :: 0 <= k < i ==> TextBefore(sorted[k], x)
    {
      i := i + 1;
    }
    forall k | i <= k < |sorted| ensures TextBefore(x, sorted[k]) {
      TextBeforeTotal(x, sorted[i]);
      assert sorted[i] in sorted;
      if i < k {
        TextBeforeTransitive(x, sorted[i], sorted[k]);
      }
    }
    r := sorted[..i] + [x] + sorted[i..];
  }
}
