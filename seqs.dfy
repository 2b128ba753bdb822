/** Order-preserving filtering of sequences (the `Array.prototype.filter` the
    modelled code uses) and the subsequence relation that describes its result. */
module Seqs {

  /** `a` can be obtained from `b` by deleting elements, keeping the order of the rest. */
  predicate IsSubsequence<T(==)>(a: seq<T>, b: seq<T>)
    decreases |b|
  {
    if a == [] then true
    else if b == [] then false
    else (a[0] == b[0] && IsSubsequence(a[1..], b[1..])) || IsSubsequence(a, b[1..])
  }

  /** The elements of `s` that satisfy `p`, in their original order. */
  function Filter<T(==,!new)>(s: seq<T>, p: T -> bool): (r: seq<T>)
    ensures |r| <= |s|
    ensures forall x :: x in r <==> x in s && p(x)
    ensures IsSubsequence(r, s)
  {
    if s == [] then []
    else
      var rest := Filter(s[1..], p);
      SubsequenceCons(s[0], rest, s[1..]);
      assert s == [s[0]] + s[1..];
      if p(s[0]) then [s[0]] + rest else rest
  }

  /** Filtering keeps every occurrence of an element that satisfies `p` and no
      occurrence of one that does not. */
  lemma {:induction false} FilterCount<T(!new)>(s: seq<T>, p: T -> bool, x: T)
    ensures multiset(Filter(s, p))[x] == if p(x) then multiset(s)[x] else 0
  {
    if s != [] {
      FilterCount(s[1..], p, x);
      assert s == [s[0]] + s[1..];
    }
  }

  /** A filter that keeps every element is the identity. */
  lemma {:induction false} FilterAll<T(!new)>(s: seq<T>, p: T -> bool)
    requires forall x :: x in s ==> p(x)
    ensures Filter(s, p) == s
  {
    if s != [] {
      FilterAll(s[1..], p);
      assert s == [s[0]] + s[1..];
    }
  }

  /** Filtering a sequence extended by one element extends the filtered sequence
      by that element exactly when it satisfies `p`. */
  lemma {:induction false} FilterAppend<T(!new)>(s: seq<T>, x: T, p: T -> bool)
    ensures Filter(s + [x], p) == Filter(s, p) + (if p(x) then [x] else [])
  {
    if s != [] {
      FilterAppend(s[1..], x, p);
      assert (s + [x])[1..] == s[1..] + [x];
    } else {
      assert s + [x] == [x];
    }
  }

  /** Every sequence is a subsequence of itself. */
  lemma {:induction false} SubsequenceRefl<T>(s: seq<T>)
    ensures IsSubsequence(s, s)
  {
    if s != [] { SubsequenceRefl(s[1..]); }
  }

  /** Keeping or dropping a common head preserves the subsequence relation. */
  lemma SubsequenceCons<T>(x: T, a: seq<T>, b: seq<T>)
    requires IsSubsequence(a, b)
    ensures IsSubsequence([x] + a, [x] + b)
    ensures IsSubsequence(a, [x] + b)
  {
    assert ([x] + a)[1..] == a;
    assert ([x] + b)[1..] == b;
    if a != [] {}
  }

  /** The subsequence relation is transitive. */
  lemma {:induction false} SubsequenceTrans<T>(a: seq<T>, b: seq<T>, c: seq<T>)
    requires IsSubsequence(a, b) && IsSubsequence(b, c)
    ensures IsSubsequence(a, c)
    decreases |c|
  {
    if a == [] {
    } else if IsSubsequence(b, c[1..]) {
      SubsequenceTrans(a, b, c[1..]);
    } else {
      assert b[0] == c[0] && IsSubsequence(b[1..], c[1..]);
      if a[0] == b[0] && IsSubsequence(a[1..], b[1..]) {
        SubsequenceTrans(a[1..], b[1..], c[1..]);
      } else {
        SubsequenceTrans(a, b[1..], c[1..]);
      }
    }
  }

  /** Filtering twice is filtering once by the conjunction of the two predicates. */
  lemma {:induction false} FilterFilter<T(!new)>(s: seq<T>, p: T -> bool, q: T -> bool, both: T -> bool)
    requires forall x :: both(x) == (p(x) && q(x))
    ensures Filter(Filter(s, p), q) == Filter(s, both)
  {
    if s != [] {
      FilterFilter(s[1..], p, q, both);
    }
  }

  /** The positions at which `x` occurs in `s`. */
  function Occurrences<T(==)>(s: seq<T>, x: T): set<int>
  {
    set k | 0 <= k < |s| && s[k] == x
  }

  /** The multiplicity of `x` in `s` is the number of positions holding it. */
  lemma {:induction false} OccurrencesCount<T>(s: seq<T>, x: T)
    ensures multiset(s)[x] == |Occurrences(s, x)|
  {
    if s != [] {
      var n := |s| - 1;
      OccurrencesCount(s[..n], x);
      assert s == s[..n] + [s[n]];
      assert Occurrences(s, x) == Occurrences(s[..n], x) + (if s[n] == x then {n} else {});
    }
  }

  /** A subset is no larger than its superset. */
  lemma SubsetSize<T>(a: set<T>, b: set<T>)
    requires a <= b
    ensures |a| <= |b|
    ensures |a| == |b| ==> a == b
  {
    assert b == a + (b - a);
  }

  /** Each element of a sequence without repetitions occurs in it exactly once. */
  lemma OccursOnce<T>(s: seq<T>, x: T)
    requires forall i, j :: 0 <= i < j < |s| ==> s[i] != s[j]
    requires x in s
    ensures multiset(s)[x] == 1
  {
    var i :| 0 <= i < |s| && s[i] == x;
    assert Occurrences(s, x) == {i};
    OccurrencesCount(s, x);
  }

  /** Two positions holding the same value make it occur at least twice. */
  lemma OccursTwice<T>(s: seq<T>, i: int, j: int)
    requires 0 <= i < |s| && 0 <= j < |s| && i != j && s[i] == s[j]
    ensures multiset(s)[s[i]] >= 2
  {
    OccurrencesCount(s, s[i]);
    SubsetSize({i, j}, Occurrences(s, s[i]));
  }

  /** A set of positions of `s` has at most |s| elements, and has exactly |s|
      when, and only when, it holds every position. */
  lemma {:induction false} PositionsSize<T>(s: seq<T>, p: set<int>)
    requires forall k :: k in p ==> 0 <= k < |s|
    ensures |p| <= |s|
    ensures |p| == |s| <==> forall k :: 0 <= k < |s| ==> k in p
  {
    if s != [] {
      var n := |s| - 1;
      PositionsSize(s[..n], p - {n});
      if n in p {
        assert p == (p - {n}) + {n};
        assert |p| == |p - {n}| + 1;
      } else {
        assert p - {n} == p;
      }
    } else {
      assert forall k :: k !in p;
      assert p == {};
    }
  }
}
