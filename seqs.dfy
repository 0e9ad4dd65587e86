/** Sequence helpers shared by the backend and frontend models: the
    order-preserving filter that JavaScript's Array.prototype.filter and
    pandas boolean masks perform, and counting. */
module Seqs {

  datatype Option<+T> = None | Some(value: T)

  /** The elements of `s` that satisfy `p`, in their original order. */
  function Filter<T>(s: seq<T>, p: T -> bool): (r: seq<T>)
    ensures |r| <= |s|
    ensures forall k :: 0 <= k < |r| ==> r[k] in s && p(r[k])
    ensures forall k :: 0 <= k < |s| && p(s[k]) ==> s[k] in r
  {
    if s == [] then [] else (if p(s[0]) then [s[0]] else []) + Filter(s[1..], p)
  }

  /** `sub` can be obtained from `s` by deleting elements (greedy matching
      decides this exactly). */
  predicate IsSubsequence<T(==)>(sub: seq<T>, s: seq<T>)
    decreases |s|
  {
    if sub == [] then true
    else if s == [] then false
    else if sub[0] == s[0] then IsSubsequence(sub[1..], s[1..])
    else IsSubsequence(sub, s[1..])
  }

  /** Number of elements of `s` that satisfy `p`. */
  function Count<T>(s: seq<T>, p: T -> bool): (n: nat)
    ensures n <= |s|
  {
    if s == [] then 0 else (if p(s[0]) then 1 else 0) + Count(s[1..], p)
  }

  lemma {:induction false} FilterLength<T>(s: seq<T>, p: T -> bool)
    ensures |Filter(s, p)| == Count(s, p)
  {
    if s != [] { FilterLength(s[1..], p); }
  }

  lemma {:induction false} FilterAll<T>(s: seq<T>, p: T -> bool)
    requires forall k :: 0 <= k < |s| ==> p(s[k])
    ensures Filter(s, p) == s
  {
    if s != [] {
      FilterAll(s[1..], p);
    }
  }

  /** Filtering twice is filtering once by the conjunction `pq`. */
  lemma {:induction false} FilterFilter<T>(s: seq<T>, p: T -> bool, q: T -> bool, pq: T -> bool)
    requires forall x :: pq(x) == (p(x) && q(x))
    ensures Filter(Filter(s, p), q) == Filter(s, pq)
  {
    if s != [] {
      FilterFilter(s[1..], p, q, pq);
      if p(s[0]) {
        assert Filter(s, p) == [s[0]] + Filter(s[1..], p);
        assert Filter(s, p)[1..] == Filter(s[1..], p);
      } else {
        assert Filter(s, p) == Filter(s[1..], p);
      }
    }
  }

  /** A filter result is an order-preserving subsequence of its input. */
  lemma {:induction false} FilterIsSubsequence<T>(s: seq<T>, p: T -> bool)
    ensures IsSubsequence(Filter(s, p), s)
  {
    if s != [] {
      FilterIsSubsequence(s[1..], p);
      if p(s[0]) {
        assert Filter(s, p)[1..] == Filter(s[1..], p);
      } else {
        assert Filter(s, p) == Filter(s[1..], p);
        SubsequenceSkip(Filter(s, p), s);
      }
    }
  }

  /** A subsequence of the tail of `s` is a subsequence of `s`. */
  lemma {:induction false} SubsequenceSkip<T>(sub: seq<T>, s: seq<T>)
    requires s != [] && IsSubsequence(sub, s[1..])
    ensures IsSubsequence(sub, s)
    decreases |s|, 0
  {
    if sub != [] && sub[0] == s[0] {
      SubsequenceTail(sub, s[1..]);
    }
  }

  /** A non-empty subsequence minus its head is still a subsequence. */
  lemma {:induction false} SubsequenceTail<T>(sub: seq<T>, s: seq<T>)
    requires sub != [] && IsSubsequence(sub, s)
    ensures IsSubsequence(sub[1..], s)
    decreases |s|, 1
  {
    if sub[0] == s[0] {
      if sub[1..] != [] { SubsequenceSkip(sub[1..], s); }
    } else {
      SubsequenceTail(sub, s[1..]);
      if sub[1..] != [] { SubsequenceSkip(sub[1..], s); }
    }
  }

  lemma {:induction false} CountAppend<T>(s: seq<T>, t: seq<T>, p: T -> bool)
    ensures Count(s + t, p) == Count(s, p) + Count(t, p)
  {
    if s == [] {
      assert s + t == t;
    } else {
      assert (s + t)[1..] == s[1..] + t;
      CountAppend(s[1..], t, p);
    }
  }

  /** Counting by a predicate is monotone in the predicate. */
  lemma {:induction false} CountMono<T>(s: seq<T>, p: T -> bool, q: T -> bool)
    requires forall x :: p(x) ==> q(x)
    ensures Count(s, p) <= Count(s, q)
  {
    if s != [] { CountMono(s[1..], p, q); }
  }

  /** Counts of disjoint predicates add up to at most the length. */
  lemma {:induction false} CountDisjoint<T>(s: seq<T>, p: T -> bool, q: T -> bool)
    requires forall x :: !(p(x) && q(x))
    ensures Count(s, p) + Count(s, q) == Count(s, x => p(x) || q(x))
    ensures Count(s, p) + Count(s, q) <= |s|
  {
    if s != [] { CountDisjoint(s[1..], p, q); }
  }

  /** Filters by pointwise-equal predicates agree. */
  lemma {:induction false} FilterExt<T>(s: seq<T>, p: T -> bool, q: T -> bool)
    requires forall x :: p(x) == q(x)
    ensures Filter(s, p) == Filter(s, q)
  {
    if s != [] { FilterExt(s[1..], p, q); }
  }

  /** Filter distributes over concatenation. */
  lemma {:induction false} FilterAppend<T>(s: seq<T>, t: seq<T>, p: T -> bool)
    ensures Filter(s + t, p) == Filter(s, p) + Filter(t, p)
  {
    if s == [] {
      assert s + t == t;
    } else {
      assert (s + t)[1..] == s[1..] + t;
      FilterAppend(s[1..], t, p);
    }
  }

  /** Extending the input by one element extends the filter by it or by nothing. */
  lemma FilterSnoc<T>(s: seq<T>, i: nat, p: T -> bool)
    requires i < |s|
    ensures Filter(s[..i + 1], p) == Filter(s[..i], p) + (if p(s[i]) then [s[i]] else [])
  {
    assert s[..i + 1] == s[..i] + [s[i]];
    FilterAppend(s[..i], [s[i]], p);
  }

  /** One element failing the predicate makes the count smaller than the length. */
  lemma {:induction false} CountBelowLength<T>(s: seq<T>, p: T -> bool, k: nat)
    requires k < |s| && !p(s[k])
    ensures Count(s, p) < |s|
  {
    if k > 0 {
      CountBelowLength(s[1..], p, k - 1);
    }
  }

  /** Filtering keeps every element that passes as many times as it occurs. */
  lemma {:induction false} FilterMultiset<T>(s: seq<T>, p: T -> bool)
    ensures forall x :: p(x) ==> multiset(Filter(s, p))[x] == multiset(s)[x]
  {
    if s != [] {
      FilterMultiset(s[1..], p);
      assert s == [s[0]] + s[1..];
      assert multiset(s) == multiset([s[0]]) + multiset(s[1..]);
    }
  }
}
