/** Small text and lookup vocabulary shared by the models. */
module Text {

  datatype Option<+T> = None | Some(value: T)

  /** The first position of xs whose element satisfies p. */
  function First<T>(xs: seq<T>, p: T -> bool): (r: Option<nat>)
    ensures r.Some? ==> r.value < |xs| && p(xs[r.value])
    ensures r.Some? ==> forall k :: 0 <= k < r.value ==> !p(xs[k])
    ensures r.None? ==> forall k :: 0 <= k < |xs| ==> !p(xs[k])
  {
    if |xs| == 0 then None
    else if p(xs[0]) then Some(0)
    else match First(xs[1..], p)
      case None =>
        assert forall k :: 0 < k < |xs| ==> xs[k] == xs[1..][k - 1];
        None
      case Some(k) =>
        assert forall i :: 0 < i <= k ==> xs[i] == xs[1..][i - 1];
        Some(k + 1)
  }

  function Apply<T, U>(xs: seq<T>, f: T -> U): (r: seq<U>)
    ensures |r| == |xs|
    ensures forall k :: 0 <= k < |xs| ==> r[k] == f(xs[k])
  {
    seq(|xs|, k requires 0 <= k < |xs| => f(xs[k]))
  }

  lemma SubsetSize<T>(a: set<T>, b: set<T>)
    requires a <= b
    ensures |a| <= |b|
  {
    if a != {} {
      var x :| x in a;
      SubsetSize(a - {x}, b - {x});
    }
  }

  /** ASCII case folding; the models compare names only. */
  function Lower(s: string): (r: string)
    ensures |r| == |s|
  {
    Apply(s, (c: char) => if 'A' <= c <= 'Z' then c + 32 as char else c)
  }

  predicate Contains(hay: string, needle: string)
  {
    needle <= hay || (|hay| > 0 && Contains(hay[1..], needle))
  }

  /** The characters Python's str.strip removes. */
  predicate PySpace(c: char)
  {
    || '\t' <= c <= '\r' || '\U{1c}' <= c <= ' ' || c == '\U{85}' || c == '\U{a0}' || c == '\U{1680}'
    || '\U{2000}' <= c <= '\U{200a}' || c == '\U{2028}' || c == '\U{2029}' || c == '\U{202f}'
    || c == '\U{205f}' || c == '\U{3000}'
  }

  /** The characters JavaScript's String.prototype.trim removes. */
  predicate JsSpace(c: char)
  {
    || '\t' <= c <= '\r' || c == ' ' || c == '\U{a0}' || c == '\U{feff}' || c == '\U{1680}'
    || '\U{2000}' <= c <= '\U{200a}' || c == '\U{2028}' || c == '\U{2029}' || c == '\U{202f}'
    || c == '\U{205f}' || c == '\U{3000}'
  }

  function TrimLeft(s: string, space: char -> bool): (r: string)
    ensures r == [] || !space(r[0])
    ensures |r| <= |s| && r == s[|s| - |r|..]
    ensures forall k :: 0 <= k < |s| - |r| ==> space(s[k])
  {
    if |s| > 0 && space(s[0]) then TrimLeft(s[1..], space) else s
  }

  function TrimRight(s: string, space: char -> bool): (r: string)
    ensures r == [] || !space(r[|r| - 1])
    ensures r <= s
    ensures forall k :: |r| <= k < |s| ==> space(s[k])
  {
    if |s| > 0 && space(s[|s| - 1]) then TrimRight(s[..|s| - 1], space) else s
  }

  function Trim(s: string, space: char -> bool): string
  {
    TrimRight(TrimLeft(s, space), space)
  }

  /** A text with clean ends is its own trim. */
  lemma TrimClean(s: string, space: char -> bool)
    requires s == [] || (!space(s[0]) && !space(s[|s| - 1]))
    ensures Trim(s, space) == s
  {
  }
}
