/**
 * `Array.prototype.filter`, which the dashboard, the store lookup and the
 * capacity counts all use, with the facts about it the model needs: it keeps
 * exactly the elements that pass, in their original order.
 */
module Listing {

  /** `s.filter(p)`. */
  function Keep<T(==)>(s: seq<T>, p: T -> bool): (r: seq<T>)
    ensures |r| <= |s|
    ensures forall x | x in r :: x in s && p(x)
    ensures forall x | x in s && p(x) :: x in r
  {
    if s == [] then []
    else if p(s[0]) then [s[0]] + Keep(s[1..], p)
    else Keep(s[1..], p)
  }

  /** `a` can be obtained from `b` by deleting elements, without reordering. */
  predicate IsSubsequence<T(==)>(a: seq<T>, b: seq<T>)
    decreases |b|
  {
    a == [] ||
    (b != [] && ((a[0] == b[0] && IsSubsequence(a[1..], b[1..])) || IsSubsequence(a, b[1..])))
  }

  lemma {:induction false} SubsequenceReflexive<T>(s: seq<T>)
    ensures IsSubsequence(s, s)
    decreases |s|
  {
    if s != [] { SubsequenceReflexive(s[1..]); }
  }

  lemma {:induction false} SubsequenceLength<T>(a: seq<T>, b: seq<T>)
    requires IsSubsequence(a, b)
    ensures |a| <= |b|
    decreases |b|
  {
    if a != [] {
      if a[0] == b[0] && IsSubsequence(a[1..], b[1..]) {
        SubsequenceLength(a[1..], b[1..]);
      } else {
        SubsequenceLength(a, b[1..]);
      }
    }
  }

  /** Filtering a subsequence of `b` leaves a subsequence of `b`. */
  lemma {:induction false} KeepPreservesSubsequence<T>(a: seq<T>, b: seq<T>, p: T -> bool)
    requires IsSubsequence(a, b)
    ensures IsSubsequence(Keep(a, p), b)
    decreases |b|
  {
    if a != [] {
      if a[0] == b[0] && IsSubsequence(a[1..], b[1..]) {
        KeepPreservesSubsequence(a[1..], b[1..], p);
        if !p(a[0]) && Keep(a[1..], p) != [] {
          assert IsSubsequence(Keep(a, p), b[1..]);
        }
      } else {
        KeepPreservesSubsequence(a, b[1..], p);
      }
    }
  }

  /** A filter result is an order-preserving subsequence of its input. */
  lemma KeepIsSubsequence<T>(s: seq<T>, p: T -> bool)
    ensures IsSubsequence(Keep(s, p), s)
  {
    SubsequenceReflexive(s);
    KeepPreservesSubsequence(s, s, p);
  }

  /** A filter every element passes is the identity. */
  lemma {:induction false} KeepAll<T>(s: seq<T>, p: T -> bool)
    requires forall i | 0 <= i < |s| :: p(s[i])
    ensures Keep(s, p) == s
    decreases |s|
  {
    if s != [] { KeepAll(s[1..], p); }
  }

  /** A filter no element passes leaves nothing. */
  lemma {:induction false} KeepNone<T>(s: seq<T>, p: T -> bool)
    requires forall i | 0 <= i < |s| :: !p(s[i])
    ensures Keep(s, p) == []
    decreases |s|
  {
    if s != [] { KeepNone(s[1..], p); }
  }

  /** Filtering an extended sequence filters the prefix, then the new element. */
  lemma {:induction false} KeepSnoc<T>(s: seq<T>, x: T, p: T -> bool)
    ensures Keep(s + [x], p) == Keep(s, p) + (if p(x) then [x] else [])
    decreases |s|
  {
    if s != [] {
      assert (s + [x])[1..] == s[1..] + [x];
      KeepSnoc(s[1..], x, p);
    }
  }

  /** The length of a filter result is the number of positions that pass. */
  lemma {:induction false} KeepCountsPositions<T>(s: seq<T>, p: T -> bool)
    ensures |Keep(s, p)| == |Positions(s, p)|
    decreases |s|
  {
    if s == [] {
      assert Positions(s, p) == {};
    } else {
      var n := |s| - 1;
      var front := s[..n];
      assert s == front + [s[n]];
      KeepSnoc(front, s[n], p);
      KeepCountsPositions(front, p);
      PositionsSnoc(s, p);
      AddPosition(Positions(front, p), Positions(s, p), n, p(s[n]));
    }
  }

  /** The positions of `s` whose element passes `p`. */
  function Positions<T>(s: seq<T>, p: T -> bool): set<int>
  {
    set i | 0 <= i < |s| && p(s[i])
  }

  lemma PositionsSnoc<T>(s: seq<T>, p: T -> bool)
    requires s != []
    ensures |s| - 1 !in Positions(s[..|s| - 1], p)
    ensures Positions(s, p) == Positions(s[..|s| - 1], p) + (if p(s[|s| - 1]) then {|s| - 1} else {})
  {
    var n := |s| - 1;
    var front := s[..n];
    forall i ensures i in Positions(s, p) <==> i in Positions(front, p) + (if p(s[n]) then {n} else {}) {
      if 0 <= i < n { assert front[i] == s[i]; }
    }
  }

  lemma AddPosition(before: set<int>, all: set<int>, n: int, passes: bool)
    requires n !in before
    requires all == if passes then before + {n} else before
    ensures |all| == |before| + (if passes then 1 else 0)
  {
  }

  /** Two filters with disjoint predicates keep no more than the input holds. */
  lemma {:induction false} KeepDisjoint<T>(s: seq<T>, p: T -> bool, q: T -> bool)
    requires forall x :: !(p(x) && q(x))
    ensures |Keep(s, p)| + |Keep(s, q)| <= |s|
    decreases |s|
  {
    if s != [] { KeepDisjoint(s[1..], p, q); }
  }
}
