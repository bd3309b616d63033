/**
 * Array.prototype.filter / reduce-to-a-sum / `[...new Set(xs)]`, as used by
 * the list components, the dashboard and the pages, with the facts about them
 * that those components rely on.
 */
module Lists {

  /** `s.filter(p)`. */
  function Filter<T>(s: seq<T>, p: T -> bool): (r: seq<T>)
    ensures |r| <= |s|
    ensures forall i :: 0 <= i < |r| ==> r[i] in s && p(r[i])
    ensures forall i :: 0 <= i < |s| && p(s[i]) ==> s[i] in r
  {
    if |s| == 0 then []
    else
      var rest := Filter(s[..|s| - 1], p);
      assert s == s[..|s| - 1] + [s[|s| - 1]];
      if p(s[|s| - 1]) then rest + [s[|s| - 1]] else rest
  }

  /** `a` is `b` with some elements left out, the rest in the same order. */
  predicate IsSubseq<T(==)>(a: seq<T>, b: seq<T>) {
    if |a| == 0 then true
    else if |b| == 0 then false
    else if a[|a| - 1] == b[|b| - 1] then IsSubseq(a[..|a| - 1], b[..|b| - 1])
    else IsSubseq(a, b[..|b| - 1])
  }

  lemma {:induction false} FilterIsSubseq<T>(s: seq<T>, p: T -> bool)
    ensures IsSubseq(Filter(s, p), s)
  {
    if |s| > 0 {
      FilterIsSubseq(s[..|s| - 1], p);
      var rest := Filter(s[..|s| - 1], p);
      if !p(s[|s| - 1]) {
        SubseqDropLast(rest, s);
      } else {
        assert (rest + [s[|s| - 1]])[..|rest|] == rest;
      }
    }
  }

  /** Helper: if a is a subsequence of b minus its last element, it is one of b. */
  lemma SubseqDropLast<T>(a: seq<T>, b: seq<T>)
    requires |b| > 0 && IsSubseq(a, b[..|b| - 1])
    ensures IsSubseq(a, b)
    decreases |a| + |b|, 1
  {
    if |a| > 0 && a[|a| - 1] == b[|b| - 1] {
      SubseqInit(a, b[..|b| - 1]);
    }
  }

  /** Helper: dropping the last element of a subsequence keeps it a subsequence. */
  lemma SubseqInit<T>(a: seq<T>, b: seq<T>)
    requires |a| > 0 && IsSubseq(a, b)
    ensures IsSubseq(a[..|a| - 1], b)
    decreases |a| + |b|, 0
  {
    if a[|a| - 1] != b[|b| - 1] {
      SubseqInit(a, b[..|b| - 1]);
    }
    SubseqDropLast(a[..|a| - 1], b);
  }

  /** Every element is kept: the filter is the identity. */
  lemma {:induction false} FilterAll<T>(s: seq<T>, p: T -> bool)
    requires forall i :: 0 <= i < |s| ==> p(s[i])
    ensures Filter(s, p) == s
  {
    if |s| > 0 {
      FilterAll(s[..|s| - 1], p);
      assert s == s[..|s| - 1] + [s[|s| - 1]];
    }
  }

  /** No element is kept: the filter is empty. */
  lemma {:induction false} FilterNone<T>(s: seq<T>, p: T -> bool)
    requires forall i :: 0 <= i < |s| ==> !p(s[i])
    ensures Filter(s, p) == []
  {
    if |s| > 0 {
      FilterNone(s[..|s| - 1], p);
    }
  }

  lemma {:induction false} FilterAppend<T>(s: seq<T>, x: T, p: T -> bool)
    ensures Filter(s + [x], p) == if p(x) then Filter(s, p) + [x] else Filter(s, p)
  {
    assert (s + [x])[..|s + [x]| - 1] == s;
  }

  lemma {:induction false} FilterPrepend<T>(x: T, s: seq<T>, p: T -> bool)
    ensures Filter([x] + s, p) == if p(x) then [x] + Filter(s, p) else Filter(s, p)
    decreases |s|
  {
    if |s| == 0 {
      assert [x] + s == [] + [x];
      FilterAppend([], x, p);
    } else {
      var init := s[..|s| - 1];
      var last := s[|s| - 1];
      var xs := [x] + s;
      assert xs[..|xs| - 1] == [x] + init;
      assert xs[|xs| - 1] == last;
      assert Filter(xs, p) == if p(last) then Filter([x] + init, p) + [last] else Filter([x] + init, p);
      FilterPrepend(x, init, p);
    }
  }

  /** How many times each value occurs after the filter: all of them, or none. */
  lemma {:induction false} FilterMultiset<T>(s: seq<T>, p: T -> bool, x: T)
    ensures multiset(Filter(s, p))[x] == if p(x) then multiset(s)[x] else 0
  {
    if |s| > 0 {
      var init := s[..|s| - 1];
      assert s == init + [s[|s| - 1]];
      FilterMultiset(init, p, x);
    }
  }

  /** `s.reduce((sum, x) => sum + f(x), 0)`. */
  function SumOf<T>(s: seq<T>, f: T -> real): real {
    if |s| == 0 then 0.0 else SumOf(s[..|s| - 1], f) + f(s[|s| - 1])
  }

  lemma {:induction false} SumOfAppend<T>(s: seq<T>, x: T, f: T -> real)
    ensures SumOf(s + [x], f) == SumOf(s, f) + f(x)
  {
    assert (s + [x])[..|s + [x]| - 1] == s;
  }

  lemma {:induction false} SumOfPrepend<T>(x: T, s: seq<T>, f: T -> real)
    ensures SumOf([x] + s, f) == f(x) + SumOf(s, f)
    decreases |s|
  {
    if |s| > 0 {
      var init := s[..|s| - 1];
      assert s == init + [s[|s| - 1]];
      assert [x] + s == ([x] + init) + [s[|s| - 1]];
      SumOfAppend([x] + init, s[|s| - 1], f);
      SumOfAppend(init, s[|s| - 1], f);
      SumOfPrepend(x, init, f);
    }
  }

  /** A sum over non-negative terms is non-negative. */
  lemma {:induction false} SumOfNonNegative<T>(s: seq<T>, f: T -> real)
    requires forall i :: 0 <= i < |s| ==> f(s[i]) >= 0.0
    ensures SumOf(s, f) >= 0.0
  {
    if |s| > 0 {
      SumOfNonNegative(s[..|s| - 1], f);
    }
  }

  /** The complement of a test. */
  function Not<T>(p: T -> bool): T -> bool {
    x => !p(x)
  }

  /** A filter splits a sum: what it keeps plus what it drops is the whole. */
  lemma {:induction false} SumOfPartition<T>(s: seq<T>, p: T -> bool, f: T -> real)
    ensures SumOf(s, f) == SumOf(Filter(s, p), f) + SumOf(Filter(s, Not(p)), f)
  {
    if |s| > 0 {
      var init := s[..|s| - 1];
      var last := s[|s| - 1];
      SumOfPartition(init, p, f);
      if p(last) {
        SumOfAppend(Filter(init, p), last, f);
      } else {
        SumOfAppend(Filter(init, Not(p)), last, f);
      }
    }
  }

  /** Summing a filtered list over non-negative terms never exceeds the whole sum. */
  lemma FilterSumAtMost<T>(s: seq<T>, p: T -> bool, f: T -> real)
    requires forall i :: 0 <= i < |s| ==> f(s[i]) >= 0.0
    ensures SumOf(Filter(s, p), f) <= SumOf(s, f)
  {
    SumOfPartition(s, p, f);
    var dropped := Filter(s, Not(p));
    forall i | 0 <= i < |dropped| ensures f(dropped[i]) >= 0.0 {
      assert dropped[i] in s;
    }
    SumOfNonNegative(dropped, f);
  }

  /** `[...new Set(s)]`: each value once, in order of first appearance. */
  function Distinct<T(==)>(s: seq<T>): (r: seq<T>)
    ensures forall i :: 0 <= i < |r| ==> r[i] in s
    ensures forall i :: 0 <= i < |s| ==> s[i] in r
    ensures forall i, j :: 0 <= i < j < |r| ==> r[i] != r[j]
  {
    if |s| == 0 then []
    else
      var rest := Distinct(s[..|s| - 1]);
      assert s == s[..|s| - 1] + [s[|s| - 1]];
      if s[|s| - 1] in rest then rest else rest + [s[|s| - 1]]
  }

  /** The index of the first occurrence of `x` in `s`. */
  function FirstIndex<T(==)>(s: seq<T>, x: T): (k: nat)
    requires x in s
    ensures k < |s| && s[k] == x && x !in s[..k]
  {
    if s[0] == x then 0
    else
      var k := FirstIndex(s[1..], x);
      assert s[1..][..k] == s[1..k + 1];
      k + 1
  }

  /** The distinct values appear in the order in which `s` first mentions them. */
  lemma {:induction false} DistinctFirstAppearanceOrder<T>(s: seq<T>, i: nat, j: nat)
    requires i < j < |Distinct(s)|
    ensures FirstIndex(s, Distinct(s)[i]) < FirstIndex(s, Distinct(s)[j])
  {
    var init := s[..|s| - 1];
    var last := s[|s| - 1];
    var rest := Distinct(init);
    var r := Distinct(s);
    assert s == init + [last];
    if j < |rest| {
      DistinctFirstAppearanceOrder(init, i, j);
      FirstIndexExtend(init, last, rest[i]);
      FirstIndexExtend(init, last, rest[j]);
    } else {
      // r[j] is the last element, which does not occur in `init`.
      assert r[j] == last && last !in rest && last !in init;
      assert r[i] == rest[i] && rest[i] in init;
      FirstIndexExtend(init, last, rest[i]);
      var fi := FirstIndex(s, r[i]);
      var fj := FirstIndex(s, last);
      assert fi < |init|;
    }
  }

  lemma FirstIndexExtend<T>(s: seq<T>, x: T, y: T)
    requires y in s
    ensures FirstIndex(s + [x], y) == FirstIndex(s, y)
  {
    var k := FirstIndex(s, y);
    assert (s + [x])[k] == y;
  }
}
