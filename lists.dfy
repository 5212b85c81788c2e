/**
  Sequence helpers shared by every list the client filters: the semantics of
  JavaScript's `Array.prototype.filter` and the "order-preserving
  subsequence" relation its results stand in to the input.
 */
module Lists {

  /** `s.filter(p)`: the elements of `s` that satisfy `p`, in their original order. */
  function Filter<T(==)>(p: T -> bool, s: seq<T>): (r: seq<T>)
    ensures |r| <= |s|
    ensures forall x :: x in r ==> x in s && p(x)
    ensures forall x :: x in s && p(x) ==> x in r
    ensures multiset(r) <= multiset(s)
    ensures forall x :: x in s ==> multiset(r)[x] == if p(x) then multiset(s)[x] else 0
  {
    assert s != [] ==> s == [s[0]] + s[1..];
    if s == [] then []
    else if p(s[0]) then [s[0]] + Filter(p, s[1..])
    else Filter(p, s[1..])
  }

  /** `a` can be obtained from `b` by deleting elements, without reordering. */
  predicate IsSubseq<T(==)>(a: seq<T>, b: seq<T>)
    decreases |b|
  {
    a == [] ||
    (b != [] && ((a[0] == b[0] && IsSubseq(a[1..], b[1..])) || IsSubseq(a, b[1..])))
  }

  /** A filter result is an order-preserving subsequence of its input. */
  lemma {:induction false} FilterIsSubseq<T>(p: T -> bool, s: seq<T>)
    ensures IsSubseq(Filter(p, s), s)
  {
    if s != [] {
      FilterIsSubseq(p, s[1..]);
      if p(s[0]) {
        assert ([s[0]] + Filter(p, s[1..]))[1..] == Filter(p, s[1..]);
      }
    }
  }

  /** Filtering with a predicate every element satisfies changes nothing. */
  lemma {:induction false} FilterKeepsAll<T>(p: T -> bool, s: seq<T>)
    requires forall x :: x in s ==> p(x)
    ensures Filter(p, s) == s
  {
    if s != [] {
      assert forall x :: x in s[1..] ==> x in s;
      FilterKeepsAll(p, s[1..]);
      assert p(s[0]);
      assert Filter(p, s) == [s[0]] + s[1..];
    }
  }

  /** Predicates that agree on every element of `s` select the same elements. */
  lemma {:induction false} FilterCongruent<T>(p: T -> bool, q: T -> bool, s: seq<T>)
    requires forall x :: x in s ==> (p(x) <==> q(x))
    ensures Filter(p, s) == Filter(q, s)
  {
    if s != [] {
      assert forall x :: x in s[1..] ==> x in s;
      FilterCongruent(p, q, s[1..]);
    }
  }

  /** A predicate that is weaker on `s` keeps a superset, in the same order. */
  lemma {:induction false} FilterWeakerIsSuperseq<T>(p: T -> bool, q: T -> bool, s: seq<T>)
    requires forall x :: x in s && p(x) ==> q(x)
    ensures IsSubseq(Filter(p, s), Filter(q, s))
  {
    if s != [] {
      assert forall x :: x in s[1..] ==> x in s;
      FilterWeakerIsSuperseq(p, q, s[1..]);
      var fp, fq := Filter(p, s[1..]), Filter(q, s[1..]);
      if p(s[0]) {
        assert ([s[0]] + fp)[1..] == fp && ([s[0]] + fq)[1..] == fq;
      } else if q(s[0]) {
        SubseqOfTail(fp, fq, s[0]);
      }
    }
  }

  /** Prepending an element to the longer sequence keeps the relation. */
  lemma SubseqOfTail<T>(a: seq<T>, b: seq<T>, x: T)
    requires IsSubseq(a, b)
    ensures IsSubseq(a, [x] + b)
  {
  }

  /** Two complementary predicates split `s` into parts whose sizes add up to `|s|`. */
  lemma {:induction false} FilterPartition<T>(p: T -> bool, q: T -> bool, s: seq<T>)
    requires forall x :: x in s ==> (q(x) <==> !p(x))
    ensures |Filter(p, s)| + |Filter(q, s)| == |s|
  {
    if s != [] {
      assert forall x :: x in s[1..] ==> x in s;
      FilterPartition(p, q, s[1..]);
    }
  }

  lemma AppendAssoc<T>(a: seq<T>, b: seq<T>, c: seq<T>)
    ensures a + (b + c) == (a + b) + c
  {
  }

  /** A non-empty input: the filter decides the first element, then filters the rest. */
  lemma FilterHead<T>(p: T -> bool, s: seq<T>)
    requires s != []
    ensures Filter(p, s) == (if p(s[0]) then [s[0]] else []) + Filter(p, s[1..])
  {
    if !p(s[0]) {
      assert [] + Filter(p, s[1..]) == Filter(p, s[1..]);
    }
  }

  /** Filtering a concatenation filters each part. */
  lemma {:induction false} FilterAppend<T>(p: T -> bool, a: seq<T>, b: seq<T>)
    ensures Filter(p, a + b) == Filter(p, a) + Filter(p, b)
  {
    if a == [] {
      assert a + b == b && [] + Filter(p, b) == Filter(p, b);
    } else {
      var ab := a + b;
      assert ab[0] == a[0] && ab[1..] == a[1..] + b;
      FilterHead(p, ab);
      FilterHead(p, a);
      FilterAppend(p, a[1..], b);
      AppendAssoc(if p(a[0]) then [a[0]] else [], Filter(p, a[1..]), Filter(p, b));
    }
  }

  /** The filter keeps its whole input exactly when every element satisfies the predicate. */
  lemma {:induction false} FilterLengthIff<T>(p: T -> bool, s: seq<T>)
    ensures |Filter(p, s)| == |s| <==> forall x :: x in s ==> p(x)
  {
    if s != [] {
      FilterLengthIff(p, s[1..]);
      assert forall x :: x in s ==> x == s[0] || x in s[1..];
    }
  }

  /** Two predicates that never hold together select at most `|s|` elements between them. */
  lemma {:induction false} FilterDisjoint<T>(p: T -> bool, q: T -> bool, s: seq<T>)
    requires forall x :: x in s ==> !(p(x) && q(x))
    ensures |Filter(p, s)| + |Filter(q, s)| <= |s|
  {
    if s != [] {
      assert forall x :: x in s[1..] ==> x in s;
      FilterDisjoint(p, q, s[1..]);
    }
  }
}
