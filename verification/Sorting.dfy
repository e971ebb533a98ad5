/** Python's sorted on texts: code point by code point, shorter first. */
module Sorting {
  predicate Less(a: string, b: string)
  {
    |b| > 0 && (|a| == 0 || a[0] < b[0] || (a[0] == b[0] && Less(a[1..], b[1..])))
  }

  lemma {:induction false} LessIrreflexive(a: string)
    ensures !Less(a, a)
  {
    if |a| > 0 { LessIrreflexive(a[1..]); }
  }

  lemma {:induction false} LessTransitive(a: string, b: string, c: string)
    requires Less(a, b) && Less(b, c)
    ensures Less(a, c)
  {
    if |a| > 0 && a[0] == b[0] && b[0] == c[0] { LessTransitive(a[1..], b[1..], c[1..]); }
  }

  lemma {:induction false} LessTotal(a: string, b: string)
    ensures a == b || Less(a, b) || Less(b, a)
  {
    if |a| > 0 && |b| > 0 && a[0] == b[0] {
      LessTotal(a[1..], b[1..]);
      if a[1..] == b[1..] { assert a == [a[0]] + a[1..] && b == [b[0]] + b[1..]; }
    }
  }

  /** The texts agree up to position k, where a ends before b does or has the smaller character. */
  ghost predicate FirstDiffersAt(a: string, b: string, k: nat)
  {
    && k <= |a| && k < |b| && a[..k] == b[..k] && (k == |a| || a[k] < b[k])
  }

  lemma FirstAgrees(a: string, b: string, k: nat)
    requires FirstDiffersAt(a, b, k) && k > 0
    ensures |a| > 0 && |b| > 0 && a[0] == b[0] && FirstDiffersAt(a[1..], b[1..], k - 1)
  {
    assert a[..k][0] == b[..k][0];
    assert a[1..][..k - 1] == a[..k][1..] && b[1..][..k - 1] == b[..k][1..];
  }

  lemma OneLater(a: string, b: string, k: nat)
    requires |a| > 0 && |b| > 0 && a[0] == b[0] && FirstDiffersAt(a[1..], b[1..], k)
    ensures FirstDiffersAt(a, b, k + 1)
  {
    assert a[..k + 1] == [a[0]] + a[1..][..k] && b[..k + 1] == [b[0]] + b[1..][..k];
  }

  /** The order is that of the first difference. */
  lemma {:induction false} LessIff(a: string, b: string)
    ensures Less(a, b) <==> exists k: nat :: FirstDiffersAt(a, b, k)
  {
    if |a| > 0 && |b| > 0 && a[0] == b[0] { LessIff(a[1..], b[1..]); }
    if Less(a, b) {
      if |a| > 0 && a[0] == b[0] {
        var k: nat :| FirstDiffersAt(a[1..], b[1..], k);
        OneLater(a, b, k);
      } else {
        assert FirstDiffersAt(a, b, 0);
      }
    }
    if k: nat :| FirstDiffersAt(a, b, k) {
      if k > 0 { FirstAgrees(a, b, k); }
    }
  }

  predicate Ascending(xs: seq<string>)
  {
    forall i, j :: 0 <= i < j < |xs| ==> Less(xs[i], xs[j])
  }

  /** x in its place in an ascending list, once. */
  function Insert(x: string, xs: seq<string>): (r: seq<string>)
    ensures forall y :: y in r <==> y == x || y in xs
  {
    if |xs| == 0 then [x]
    else
      var front, last := xs[..|xs| - 1], xs[|xs| - 1];
      assert forall y :: y in xs <==> y == last || y in front;
      if x == last then xs
      else if Less(last, x) then xs + [x]
      else Insert(x, front) + [last]
  }

  function Sorted(xs: seq<string>): (r: seq<string>)
    ensures forall y :: y in r <==> y in xs
  {
    if |xs| == 0 then []
    else
      var front, last := xs[..|xs| - 1], xs[|xs| - 1];
      assert forall y :: y in xs <==> y == last || y in front;
      Insert(last, Sorted(front))
  }

  lemma AscendingSnoc(xs: seq<string>, x: string)
    requires Ascending(xs) && forall y :: y in xs ==> Less(y, x)
    ensures Ascending(xs + [x])
  {
    var r := xs + [x];
    forall i, j | 0 <= i < j < |r| ensures Less(r[i], r[j]) {
      if j == |xs| { assert r[i] in xs; }
    }
  }

  lemma BelowLast(xs: seq<string>, y: string)
    requires Ascending(xs) && |xs| > 0 && y in xs[..|xs| - 1]
    ensures Less(y, xs[|xs| - 1])
  {
    var i :| 0 <= i < |xs| - 1 && xs[..|xs| - 1][i] == y;
    assert xs[i] == y;
  }

  lemma {:induction false} InsertAscends(x: string, xs: seq<string>)
    requires Ascending(xs)
    ensures Ascending(Insert(x, xs))
  {
    if |xs| > 0 && x != xs[|xs| - 1] {
      var front, last := xs[..|xs| - 1], xs[|xs| - 1];
      LessTotal(x, last);
      if Less(last, x) {
        forall y | y in xs ensures Less(y, x) {
          if y != last {
            BelowLast(xs, y);
            LessTransitive(y, last, x);
          }
        }
        AscendingSnoc(xs, x);
      } else {
        InsertAscends(x, front);
        forall y | y in Insert(x, front) ensures Less(y, last) {
          if y != x { BelowLast(xs, y); }
        }
        AscendingSnoc(Insert(x, front), last);
      }
    }
  }

  lemma {:induction false} SortedAscends(xs: seq<string>)
    ensures Ascending(Sorted(xs))
  {
    if |xs| > 0 {
      SortedAscends(xs[..|xs| - 1]);
      InsertAscends(xs[|xs| - 1], Sorted(xs[..|xs| - 1]));
    }
  }
}
