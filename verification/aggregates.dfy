/** Filtered counts and sums over a sequence of rows: the model of the ORM's
    `.filter(...).count()` and `.aggregate(Sum(...))` (with the `or 0` that
    turns an empty aggregate into zero). Filters are passed as named
    predicates so that equal filters are equal terms. */
module Aggregates {

  /** Number of rows satisfying `p`. */
  function Count<T>(s: seq<T>, p: T -> bool): nat
  {
    if |s| == 0 then 0 else Count(s[..|s| - 1], p) + (if p(s[|s| - 1]) then 1 else 0)
  }

  /** Sum of `f` over the rows satisfying `p`; zero for no rows. */
  function Sum<T>(s: seq<T>, p: T -> bool, f: T -> int): int
  {
    if |s| == 0 then 0 else Sum(s[..|s| - 1], p, f) + (if p(s[|s| - 1]) then f(s[|s| - 1]) else 0)
  }

  /** Sum of a real-valued `f` over the rows satisfying `p`. */
  function SumReal<T>(s: seq<T>, p: T -> bool, f: T -> real): real
  {
    if |s| == 0 then 0.0 else SumReal(s[..|s| - 1], p, f) + (if p(s[|s| - 1]) then f(s[|s| - 1]) else 0.0)
  }

  /** The indices of the rows satisfying `p`. */
  function Matching<T>(s: seq<T>, p: T -> bool): set<nat>
  {
    set i: nat | i < |s| && p(s[i])
  }

  /** `Count` is the size of the set of matching rows. */
  lemma {:induction false} CountIsCardinality<T>(s: seq<T>, p: T -> bool)
    ensures Count(s, p) == |Matching(s, p)|
  {
    if |s| > 0 {
      var n := |s| - 1;
      CountIsCardinality(s[..n], p);
      var before := Matching(s[..n], p);
      if p(s[n]) {
        assert Matching(s, p) == before + {n};
        assert n !in before;
      } else {
        assert Matching(s, p) == before;
      }
    }
  }

  lemma CountAppend<T>(s: seq<T>, x: T, p: T -> bool)
    ensures Count(s + [x], p) == Count(s, p) + (if p(x) then 1 else 0)
  {
    assert (s + [x])[..|s|] == s;
  }

  lemma SumAppend<T>(s: seq<T>, x: T, p: T -> bool, f: T -> int)
    ensures Sum(s + [x], p, f) == Sum(s, p, f) + (if p(x) then f(x) else 0)
  {
    assert (s + [x])[..|s|] == s;
  }

  /** A wider filter counts at least as many rows. */
  lemma {:induction false} CountMonotone<T>(s: seq<T>, p: T -> bool, q: T -> bool)
    requires forall i :: 0 <= i < |s| && p(s[i]) ==> q(s[i])
    ensures Count(s, p) <= Count(s, q)
  {
    if |s| > 0 {
      CountMonotone(s[..|s| - 1], p, q);
    }
  }

  /** A wider filter sums to at least as much when every row it adds carries a
      non-negative value. */
  lemma {:induction false} SumMonotone<T>(s: seq<T>, p: T -> bool, q: T -> bool, f: T -> int)
    requires forall i :: 0 <= i < |s| && p(s[i]) ==> q(s[i])
    requires forall i :: 0 <= i < |s| && q(s[i]) && !p(s[i]) ==> f(s[i]) >= 0
    ensures Sum(s, p, f) <= Sum(s, q, f)
  {
    if |s| > 0 {
      SumMonotone(s[..|s| - 1], p, q, f);
    }
  }

  /** When `q` splits into the disjoint filters `p` and `r`, its sum is theirs. */
  lemma {:induction false} SumSplit<T>(s: seq<T>, q: T -> bool, p: T -> bool, r: T -> bool, f: T -> int)
    requires forall i :: 0 <= i < |s| ==> (q(s[i]) <==> p(s[i]) || r(s[i]))
    requires forall i :: 0 <= i < |s| ==> !(p(s[i]) && r(s[i]))
    ensures Sum(s, q, f) == Sum(s, p, f) + Sum(s, r, f)
  {
    if |s| > 0 {
      SumSplit(s[..|s| - 1], q, p, r, f);
    }
  }

  /** Filters that agree on every row give the same sum. */
  lemma {:induction false} SumSameFilter<T>(s: seq<T>, p: T -> bool, q: T -> bool, f: T -> int)
    requires forall i :: 0 <= i < |s| ==> (p(s[i]) <==> q(s[i]))
    ensures Sum(s, p, f) == Sum(s, q, f)
  {
    if |s| > 0 {
      SumSameFilter(s[..|s| - 1], p, q, f);
    }
  }

  lemma SumRealAppend<T>(s: seq<T>, x: T, p: T -> bool, f: T -> real)
    ensures SumReal(s + [x], p, f) == SumReal(s, p, f) + (if p(x) then f(x) else 0.0)
  {
    assert (s + [x])[..|s|] == s;
  }

  /** When `q` splits into the disjoint filters `p` and `r`, its count is theirs. */
  lemma {:induction false} CountSplit<T>(s: seq<T>, q: T -> bool, p: T -> bool, r: T -> bool)
    requires forall i :: 0 <= i < |s| ==> (q(s[i]) <==> p(s[i]) || r(s[i]))
    requires forall i :: 0 <= i < |s| ==> !(p(s[i]) && r(s[i]))
    ensures Count(s, q) == Count(s, p) + Count(s, r)
  {
    if |s| > 0 {
      CountSplit(s[..|s| - 1], q, p, r);
    }
  }

  /** No row satisfies `p`: the count is zero. */
  lemma {:induction false} CountNone<T>(s: seq<T>, p: T -> bool)
    requires forall i :: 0 <= i < |s| ==> !p(s[i])
    ensures Count(s, p) == 0
  {
    if |s| > 0 {
      CountNone(s[..|s| - 1], p);
    }
  }

  /** The sum over a single row. */
  lemma SumSingle<T>(x: T, p: T -> bool, f: T -> int)
    ensures Sum([x], p, f) == if p(x) then f(x) else 0
  {
    assert [x][..0] == [];
  }

  /** Two sequences of the same length whose rows agree on the filter, row by
      row, count the same. */
  lemma {:induction false} CountPointwise<T>(s: seq<T>, t: seq<T>, p: T -> bool)
    requires |s| == |t|
    requires forall i :: 0 <= i < |s| ==> (p(s[i]) <==> p(t[i]))
    ensures Count(s, p) == Count(t, p)
  {
    if |s| > 0 {
      CountPointwise(s[..|s| - 1], t[..|t| - 1], p);
    }
  }
}
