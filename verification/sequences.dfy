/**
 * Sequence helpers shared by the filters, the stats panels and the query-string model:
 * `Keep` is `Array.prototype.filter`, and `IsSubsequence` says that one sequence is
 * obtained from another by dropping elements without reordering the rest.
 */
module Sequences {

  /** `r` is an order-preserving subsequence of `s` (decided by greedy matching). */
  predicate IsSubsequence<T(==,!new)>(r: seq<T>, s: seq<T>)
    decreases |s|
  {
    if r == [] then true
    else if s == [] then false
    else if r[0] == s[0] then IsSubsequence(r[1..], s[1..])
    else IsSubsequence(r, s[1..])
  }

  /** `s.filter(p)`: the elements of `s` satisfying `p`, in their original order. */
  function Keep<T>(s: seq<T>, p: T -> bool): (r: seq<T>)
    ensures |r| <= |s|
    ensures forall i :: 0 <= i < |r| ==> p(r[i])
  {
    if s == [] then []
    else if p(s[0]) then [s[0]] + Keep(s[1..], p) else Keep(s[1..], p)
  }

  /**
   * Filtering keeps every occurrence of an element satisfying `p` and drops every other
   * element. Together with `KeepSubsequence` this determines the result uniquely.
   */
  lemma {:induction false} KeepCount<T(!new)>(s: seq<T>, p: T -> bool)
    ensures forall x :: multiset(Keep(s, p))[x] == if p(x) then multiset(s)[x] else 0
  {
    if s != [] {
      KeepCount(s[1..], p);
      assert s == [s[0]] + s[1..];
    }
  }

  /** Filtering drops elements without reordering the rest. */
  lemma {:induction false} KeepSubsequence<T(!new)>(s: seq<T>, p: T -> bool)
    ensures IsSubsequence(Keep(s, p), s)
  {
    if s != [] {
      KeepSubsequence(s[1..], p);
      var r := Keep(s, p);
      if p(s[0]) {
        assert r[0] == s[0] && r[1..] == Keep(s[1..], p);
      } else if r != [] {
        assert p(r[0]);
      }
    }
  }

  /**
   * When `a` holds exactly when one of two exclusive predicates `b`, `c` holds,
   * filtering by `a` splits, occurrence by occurrence, into filtering by `b` and by `c`.
   */
  lemma {:induction false} KeepPartition<T(!new)>(s: seq<T>, a: T -> bool, b: T -> bool, c: T -> bool)
    requires forall x :: a(x) <==> b(x) || c(x)
    requires forall x :: !(b(x) && c(x))
    ensures multiset(Keep(s, a)) == multiset(Keep(s, b)) + multiset(Keep(s, c))
    ensures |Keep(s, a)| == |Keep(s, b)| + |Keep(s, c)|
  {
    if s != [] {
      KeepPartition(s[1..], a, b, c);
    }
  }

  /** Filtering by two predicates that never hold together gives results with no common element. */
  lemma KeepDisjoint<T(!new)>(s: seq<T>, b: T -> bool, c: T -> bool)
    requires forall x :: !(b(x) && c(x))
    ensures multiset(Keep(s, b)) * multiset(Keep(s, c)) == multiset{}
  {
    KeepCount(s, b);
    KeepCount(s, c);
    var mb, mc := multiset(Keep(s, b)), multiset(Keep(s, c));
    forall x ensures (mb * mc)[x] == 0 {
    }
  }

  /** Every sequence is a subsequence of itself. */
  lemma {:induction false} SubsequenceOfItself<T(!new)>(s: seq<T>)
    ensures IsSubsequence(s, s)
  {
    if s != [] {
      SubsequenceOfItself(s[1..]);
    }
  }

  /** How filtering treats the first element. */
  lemma KeepCons<T(!new)>(x: T, s: seq<T>, p: T -> bool)
    ensures Keep([x] + s, p) == if p(x) then [x] + Keep(s, p) else Keep(s, p)
  {
    assert ([x] + s)[1..] == s;
  }

  /** Filtering a concatenation filters each part. */
  lemma {:induction false} KeepAppend<T(!new)>(a: seq<T>, b: seq<T>, p: T -> bool)
    ensures Keep(a + b, p) == Keep(a, p) + Keep(b, p)
  {
    if a == [] {
      assert a + b == b;
    } else {
      var x, rest := a[0], a[1..];
      assert a == [x] + rest;
      assert a + b == [x] + (rest + b);
      KeepAppend(rest, b, p);
      KeepCons(x, rest + b, p);
      KeepCons(x, rest, p);
      if p(x) {
        calc {
          Keep(a + b, p);
          [x] + Keep(rest + b, p);
          [x] + (Keep(rest, p) + Keep(b, p));
          { assert [x] + (Keep(rest, p) + Keep(b, p)) == ([x] + Keep(rest, p)) + Keep(b, p); }
          ([x] + Keep(rest, p)) + Keep(b, p);
          Keep(a, p) + Keep(b, p);
        }
      }
    }
  }

  /** Two predicates that never hold together select at most as many elements as there are. */
  lemma {:induction false} KeepDisjointLength<T(!new)>(s: seq<T>, b: T -> bool, c: T -> bool)
    requires forall x :: !(b(x) && c(x))
    ensures |Keep(s, b)| + |Keep(s, c)| <= |s|
  {
    if s != [] {
      KeepDisjointLength(s[1..], b, c);
    }
  }

  /** Filtering a one-element sequence keeps the element exactly when it satisfies the predicate. */
  lemma KeepSingleton<T(!new)>(x: T, p: T -> bool)
    ensures Keep([x], p) == if p(x) then [x] else []
  {
    assert [x][1..] == [];
  }

  /** Filtering by two predicates that agree everywhere gives the same result. */
  lemma {:induction false} KeepSamePredicate<T(!new)>(s: seq<T>, p: T -> bool, q: T -> bool)
    requires forall x :: p(x) == q(x)
    ensures Keep(s, p) == Keep(s, q)
  {
    if s != [] {
      KeepSamePredicate(s[1..], p, q);
    }
  }
}
