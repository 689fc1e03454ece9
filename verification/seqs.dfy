/** Order-preserving filtering over sequences: the model of
    `Array.prototype.filter`, which every narrowing step of the query
    filter is built from. */
module Seqs {

  /** `ys` can be obtained from `xs` by deleting elements, keeping the
      relative order of the rest. */
  predicate IsSubsequence<T(==)>(ys: seq<T>, xs: seq<T>)
    decreases |xs|
  {
    |ys| == 0 ||
    (|xs| > 0 &&
     ((ys[0] == xs[0] && IsSubsequence(ys[1..], xs[1..])) || IsSubsequence(ys, xs[1..])))
  }

  /** The elements of `xs` that satisfy `p`, in their original order and
      with their original multiplicities. */
  function Filter<T(==,!new)>(p: T -> bool, xs: seq<T>): (r: seq<T>)
    ensures |r| <= |xs|
    ensures forall x :: x in r <==> x in xs && p(x)
  {
    if |xs| == 0 then []
    else
      assert xs == [xs[0]] + xs[1..];
      if p(xs[0]) then [xs[0]] + Filter(p, xs[1..]) else Filter(p, xs[1..])
  }

  /** Every kept element is kept as often as it occurs. */
  lemma {:induction false} FilterCount<T(!new)>(p: T -> bool, xs: seq<T>, x: T)
    ensures multiset(Filter(p, xs))[x] == if p(x) then multiset(xs)[x] else 0
  {
    if |xs| > 0 {
      FilterCount(p, xs[1..], x);
      assert xs == [xs[0]] + xs[1..];
    }
  }

  lemma {:induction false} FilterIsSubsequence<T(!new)>(p: T -> bool, xs: seq<T>)
    ensures IsSubsequence(Filter(p, xs), xs)
  {
    if |xs| > 0 {
      FilterIsSubsequence(p, xs[1..]);
      var r := Filter(p, xs[1..]);
      if p(xs[0]) {
        assert ([xs[0]] + r)[1..] == r;
      }
    }
  }

  /** Filtering by a predicate that holds everywhere on `xs` is the identity. */
  lemma {:induction false} FilterAll<T(!new)>(p: T -> bool, xs: seq<T>)
    requires forall x :: x in xs ==> p(x)
    ensures Filter(p, xs) == xs
  {
    if |xs| > 0 {
      assert forall x :: x in xs[1..] ==> x in xs;
      FilterAll(p, xs[1..]);
    }
  }

  /** Filtering only looks at the predicate's values on the elements. */
  lemma {:induction false} FilterExt<T(!new)>(p: T -> bool, q: T -> bool, xs: seq<T>)
    requires forall x :: x in xs ==> p(x) == q(x)
    ensures Filter(p, xs) == Filter(q, xs)
  {
    if |xs| > 0 {
      assert forall x :: x in xs[1..] ==> x in xs;
      FilterExt(p, q, xs[1..]);
    }
  }

  /** Two successive filters are one filter by the conjunction. */
  lemma {:induction false} FilterCompose<T(!new)>(p: T -> bool, q: T -> bool, pq: T -> bool, xs: seq<T>)
    requires forall x :: pq(x) == (p(x) && q(x))
    ensures Filter(q, Filter(p, xs)) == Filter(pq, xs)
  {
    if |xs| > 0 {
      FilterCompose(p, q, pq, xs[1..]);
      if p(xs[0]) {
        var r := Filter(p, xs[1..]);
        assert ([xs[0]] + r)[0] == xs[0];
        assert ([xs[0]] + r)[1..] == r;
      }
    }
  }

  /** The order of two narrowing steps does not matter. */
  lemma FilterCommutes<T(!new)>(p: T -> bool, q: T -> bool, xs: seq<T>)
    ensures Filter(q, Filter(p, xs)) == Filter(p, Filter(q, xs))
  {
    var pq := x => p(x) && q(x);
    FilterCompose(p, q, pq, xs);
    FilterCompose(q, p, pq, xs);
  }

  /** The head of a filtered sequence is the first element satisfying `p`. */
  lemma {:induction false} FilterHead<T(!new)>(p: T -> bool, xs: seq<T>)
    requires |Filter(p, xs)| > 0
    ensures exists i :: 0 <= i < |xs| && Filter(p, xs)[0] == xs[i] && p(xs[i]) &&
                        forall j :: 0 <= j < i ==> !p(xs[j])
  {
    if !p(xs[0]) {
      FilterHead(p, xs[1..]);
      var i :| 0 <= i < |xs[1..]| && Filter(p, xs[1..])[0] == xs[1..][i] && p(xs[1..][i]) &&
               forall j :: 0 <= j < i ==> !p(xs[1..][j]);
      assert forall j :: 0 <= j < i + 1 ==> !p(xs[j]) by {
        forall j | 0 <= j < i + 1 ensures !p(xs[j]) {
          if j > 0 { assert xs[j] == xs[1..][j - 1]; }
        }
      }
    } else {
      assert Filter(p, xs)[0] == xs[0];
    }
  }
}
