/**
 Optional values and the order-preserving list operations the components use:
 `Array.prototype.filter`, `some`, `includes` and `find`, with the facts about
 them that the rest of the model relies on.
 */
module Seqs {

  /** A value that may be missing: JavaScript's `undefined`/`null` next to a present value. */
  datatype Option<+T> = None | Some(value: T) {
    function GetOr(default: T): T {
      match this
      case Some(v) => v
      case None => default
    }
  }

  /** A string is truthy in JavaScript iff it is present and non-empty. */
  predicate Truthy(s: Option<string>) {
    s.Some? && s.value != ""
  }

  /** `xs.filter(p)`. */
  function Keep<T>(xs: seq<T>, p: T -> bool): (r: seq<T>)
    ensures |r| <= |xs|
    ensures forall i :: 0 <= i < |r| ==> p(r[i])
  {
    if |xs| == 0 then []
    else if p(xs[0]) then [xs[0]] + Keep(xs[1..], p)
    else Keep(xs[1..], p)
  }

  /** `a` is `b` with some elements dropped and the rest in their original order. */
  predicate IsSubsequence<T(==)>(a: seq<T>, b: seq<T>)
    decreases |b|
  {
    if |a| == 0 then true
    else if |b| == 0 then false
    else if a[0] == b[0] then IsSubsequence(a[1..], b[1..])
    else IsSubsequence(a, b[1..])
  }

  /** `filter` keeps exactly the elements that satisfy the predicate. */
  lemma {:induction false} KeepMembers<T>(xs: seq<T>, p: T -> bool, x: T)
    ensures x in Keep(xs, p) <==> x in xs && p(x)
    decreases |xs|
  {
    if |xs| > 0 {
      KeepMembers(xs[1..], p, x);
      assert xs == [xs[0]] + xs[1..];
    }
  }

  /** `filter` preserves the relative order of what it keeps. */
  lemma {:induction false} KeepIsSubsequence<T>(xs: seq<T>, p: T -> bool)
    ensures IsSubsequence(Keep(xs, p), xs)
    decreases |xs|
  {
    if |xs| > 0 {
      KeepIsSubsequence(xs[1..], p);
      var r := Keep(xs[1..], p);
      if p(xs[0]) {
        assert ([xs[0]] + r)[1..] == r;
      } else if |r| > 0 {
        SubsequenceSkip(r, xs);
      }
    }
  }

  /** A subsequence of the tail is a subsequence of the whole. */
  lemma {:induction false} SubsequenceSkip<T>(a: seq<T>, b: seq<T>)
    requires |b| > 0 && IsSubsequence(a, b[1..])
    ensures IsSubsequence(a, b)
    decreases |b|, |a|, 1
  {
    if |a| > 0 && a[0] == b[0] {
      SubsequenceTail(a, b[1..]);
    }
  }

  /** Dropping the first element of a subsequence leaves a subsequence. */
  lemma {:induction false} SubsequenceTail<T>(a: seq<T>, b: seq<T>)
    requires |a| > 0 && IsSubsequence(a, b)
    ensures IsSubsequence(a[1..], b)
    decreases |b|, |a|, 0
  {
    if a[0] == b[0] {
      SubsequenceSkip(a[1..], b);
    } else {
      SubsequenceTail(a, b[1..]);
      SubsequenceSkip(a[1..], b);
    }
  }

  /** A filter that keeps every element is the identity. */
  lemma {:induction false} KeepAll<T>(xs: seq<T>, p: T -> bool)
    requires forall i :: 0 <= i < |xs| ==> p(xs[i])
    ensures Keep(xs, p) == xs
    decreases |xs|
  {
    if |xs| > 0 {
      KeepAll(xs[1..], p);
    }
  }

  /** Filtering a concatenation filters each part. */
  lemma {:induction false} KeepConcat<T>(a: seq<T>, b: seq<T>, p: T -> bool)
    ensures Keep(a + b, p) == Keep(a, p) + Keep(b, p)
    decreases |a|
  {
    if |a| > 0 {
      assert (a + b)[1..] == a[1..] + b;
      KeepConcat(a[1..], b, p);
    } else {
      assert a + b == b;
    }
  }

  /** A filter that keeps no element yields the empty list. */
  lemma {:induction false} KeepNone<T>(xs: seq<T>, p: T -> bool)
    requires forall i :: 0 <= i < |xs| ==> !p(xs[i])
    ensures Keep(xs, p) == []
    decreases |xs|
  {
    if |xs| > 0 {
      KeepNone(xs[1..], p);
    }
  }

  /** Filters with predicates that agree on every element give the same result. */
  lemma {:induction false} KeepAgree<T>(xs: seq<T>, p: T -> bool, q: T -> bool)
    requires forall i :: 0 <= i < |xs| ==> p(xs[i]) == q(xs[i])
    ensures Keep(xs, p) == Keep(xs, q)
    decreases |xs|
  {
    if |xs| > 0 {
      KeepAgree(xs[1..], p, q);
    }
  }

  /** Filtering twice with the same predicate changes nothing the second time. */
  lemma KeepIdempotent<T>(xs: seq<T>, p: T -> bool)
    ensures Keep(Keep(xs, p), p) == Keep(xs, p)
  {
    KeepAll(Keep(xs, p), p);
  }

  /** No value occurs twice. */
  predicate NoDup<T(==)>(xs: seq<T>) {
    forall i, j :: 0 <= i < j < |xs| ==> xs[i] != xs[j]
  }

  /** Filtering keeps a list duplicate-free. */
  lemma {:induction false} KeepNoDup<T>(xs: seq<T>, p: T -> bool)
    requires NoDup(xs)
    ensures NoDup(Keep(xs, p))
    decreases |xs|
  {
    if |xs| > 0 {
      KeepNoDup(xs[1..], p);
      KeepMembers(xs[1..], p, xs[0]);
    }
  }

  /** `xs.filter(y => y !== x)`. */
  function Remove<T(==)>(xs: seq<T>, x: T): (r: seq<T>)
    ensures x !in r
  {
    Keep(xs, (y: T) => y != x)
  }

  /** Removing a value drops exactly that value and keeps the rest in order, without creating duplicates. */
  lemma RemoveKeepsOthers<T>(xs: seq<T>, x: T)
    ensures forall y :: y in Remove(xs, x) <==> y in xs && y != x
    ensures IsSubsequence(Remove(xs, x), xs)
    ensures NoDup(xs) ==> NoDup(Remove(xs, x))
  {
    forall y ensures y in Remove(xs, x) <==> y in xs && y != x {
      KeepMembers(xs, (y: T) => y != x, y);
    }
    KeepIsSubsequence(xs, (y: T) => y != x);
    if NoDup(xs) {
      KeepNoDup(xs, (y: T) => y != x);
    }
  }

  /** Appending a new value and removing it again gives back the list. */
  lemma AppendThenRemove<T>(xs: seq<T>, x: T)
    requires x !in xs
    ensures Remove(xs + [x], x) == xs
  {
    var p := (y: T) => y != x;
    KeepConcat(xs, [x], p);
    KeepAll(xs, p);
  }

  /** `xs.findIndex(p)`: the first position satisfying `p`, if any. */
  function FindIndex<T>(xs: seq<T>, p: T -> bool): (r: Option<nat>)
    ensures r.None? <==> forall i :: 0 <= i < |xs| ==> !p(xs[i])
    ensures r.Some? ==> FirstMatch(xs, p, r.value)
  {
    if |xs| == 0 then None
    else if p(xs[0]) then Some(0)
    else
      var r := FindIndex(xs[1..], p);
      if r.Some? then Some(r.value + 1) else None
  }

  /** `xs.find(p)`: the element at the first position satisfying `p`, if any. */
  function Find<T>(xs: seq<T>, p: T -> bool): (r: Option<T>)
    ensures r.None? <==> forall i :: 0 <= i < |xs| ==> !p(xs[i])
    ensures r.Some? ==> p(r.value)
  {
    match FindIndex(xs, p)
    case None => None
    case Some(i) => Some(xs[i])
  }

  /** Position `i` satisfies `p` and no earlier position does. */
  predicate FirstMatch<T>(xs: seq<T>, p: T -> bool, i: int) {
    0 <= i < |xs| && p(xs[i]) && forall j :: 0 <= j < i ==> !p(xs[j])
  }

  /** `xs.some(p)`. */
  predicate Any<T>(xs: seq<T>, p: T -> bool) {
    exists i :: 0 <= i < |xs| && p(xs[i])
  }

  /** How many elements satisfy `p`. */
  function CountWhere<T>(xs: seq<T>, p: T -> bool): (n: nat)
    ensures n <= |xs|
  {
    if |xs| == 0 then 0 else (if p(xs[0]) then 1 else 0) + CountWhere(xs[1..], p)
  }
}
