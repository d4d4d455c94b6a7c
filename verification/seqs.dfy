/** Finite sums over explicitly generated key sequences.

    Every `quicksum(... for ... if key in vars)` of the formulation is a sum of
    a term function over the keys of a generated universe that satisfy a guard;
    this module supplies the filter, the sums, and the facts about them that
    the formulation's consequences rest on. */
module Seqs {

  /** No key occurs twice: a Python dict built from the sequence has |s| entries. */
  ghost predicate Distinct<T>(s: seq<T>) {
    forall a, b | 0 <= a < b < |s| :: s[a] != s[b]
  }

  lemma DistinctAppend<T>(s: seq<T>, t: seq<T>)
    requires Distinct(s) && Distinct(t)
    requires forall x :: x in s ==> x !in t
    ensures Distinct(s + t)
  {
    var u := s + t;
    forall a, b | 0 <= a < b < |u|
      ensures u[a] != u[b]
    {
      if b < |s| {
        assert u[a] == s[a] && u[b] == s[b];
      } else if a >= |s| {
        assert u[a] == t[a - |s|] && u[b] == t[b - |s|];
      } else {
        assert u[a] == s[a] && s[a] in s;
        assert u[b] == t[b - |s|] && t[b - |s|] in t;
      }
    }
  }

  lemma DistinctTail<T>(s: seq<T>)
    requires Distinct(s) && |s| > 0
    ensures Distinct(s[1..]) && s[0] !in s[1..]
  {
    forall b | 0 <= b < |s[1..]|
      ensures s[1..][b] != s[0]
    {
      assert s[1..][b] == s[b + 1];
    }
  }

  /** The distinct elements of a duplicate-free sequence are exactly |s| many. */
  lemma {:induction false} DistinctCard<T>(s: seq<T>)
    requires Distinct(s)
    ensures |set x | x in s| == |s|
  {
    if |s| > 0 {
      DistinctTail(s);
      DistinctCard(s[1..]);
      assert (set x | x in s) == {s[0]} + (set x | x in s[1..]);
    }
  }

  /** The keys of `s` that satisfy the guard `p`, in their original order. */
  function Select<T>(s: seq<T>, p: T -> bool): (r: seq<T>)
    ensures forall x | x in r :: x in s && p(x)
    ensures forall x | x in s && p(x) :: x in r
    ensures |r| <= |s|
  {
    if |s| == 0 then []
    else if p(s[0]) then [s[0]] + Select(s[1..], p)
    else Select(s[1..], p)
  }

  lemma {:induction false} SelectDistinct<T>(s: seq<T>, p: T -> bool)
    requires Distinct(s)
    ensures Distinct(Select(s, p))
  {
    if |s| > 0 {
      DistinctTail(s);
      SelectDistinct(s[1..], p);
      if p(s[0]) {
        DistinctAppend([s[0]], Select(s[1..], p));
      }
    }
  }

  function Sum<T>(s: seq<T>, f: T -> int): int {
    if |s| == 0 then 0 else f(s[0]) + Sum(s[1..], f)
  }

  function SumR<T>(s: seq<T>, f: T -> real): real {
    if |s| == 0 then 0.0 else f(s[0]) + SumR(s[1..], f)
  }

  ghost predicate NonNeg<T>(s: seq<T>, f: T -> int) {
    forall x | x in s :: f(x) >= 0
  }

  /** A sum of non-negative terms is at least each of its terms. */
  lemma {:induction false} SumAtLeastTerm<T>(s: seq<T>, f: T -> int, x: T)
    requires NonNeg(s, f) && x in s
    ensures Sum(s, f) >= f(x) && Sum(s, f) >= 0
  {
    if s[0] == x {
      SumNonNeg(s[1..], f);
    } else {
      SumAtLeastTerm(s[1..], f, x);
    }
  }

  lemma {:induction false} SumNonNeg<T>(s: seq<T>, f: T -> int)
    requires NonNeg(s, f)
    ensures Sum(s, f) >= 0
  {
    if |s| > 0 {
      SumNonNeg(s[1..], f);
    }
  }

  /** Two different keys of a duplicate-free sequence both contribute. */
  lemma {:induction false} SumAtLeastTwoTerms<T>(s: seq<T>, f: T -> int, x: T, y: T)
    requires Distinct(s) && NonNeg(s, f)
    requires x in s && y in s && x != y
    ensures Sum(s, f) >= f(x) + f(y)
  {
    DistinctTail(s);
    if s[0] == x {
      SumAtLeastTerm(s[1..], f, y);
    } else if s[0] == y {
      SumAtLeastTerm(s[1..], f, x);
    } else {
      SumAtLeastTwoTerms(s[1..], f, x, y);
    }
  }

  /** With non-negative integer terms, a sum of at most one has at most one
      positive term. */
  lemma AtMostOnePositive<T>(s: seq<T>, f: T -> int, x: T, y: T)
    requires Distinct(s) && NonNeg(s, f) && Sum(s, f) <= 1
    requires x in s && y in s && f(x) > 0 && f(y) > 0
    ensures x == y
  {
    if x != y {
      SumAtLeastTwoTerms(s, f, x, y);
    }
  }

  /** A positive sum has a positive term. */
  lemma {:induction false} SomePositive<T>(s: seq<T>, f: T -> int) returns (x: T)
    requires Sum(s, f) > 0
    ensures x in s && f(x) > 0
  {
    if f(s[0]) > 0 {
      x := s[0];
    } else {
      x := SomePositive(s[1..], f);
    }
  }

  /** A non-negative sum that is at most zero has only zero terms. */
  lemma AllZero<T>(s: seq<T>, f: T -> int, x: T)
    requires NonNeg(s, f) && Sum(s, f) <= 0 && x in s
    ensures f(x) == 0
  {
    SumAtLeastTerm(s, f, x);
  }

  /** A sum whose terms vanish off one key equals that key's term. */
  lemma {:induction false} SumOfOne<T>(s: seq<T>, f: T -> int, x: T)
    requires Distinct(s) && x in s
    requires forall y | y in s && y != x :: f(y) == 0
    ensures Sum(s, f) == f(x)
  {
    DistinctTail(s);
    if s[0] == x {
      SumOfNone(s[1..], f);
    } else {
      SumOfOne(s[1..], f, x);
    }
  }

  lemma {:induction false} SumOfNone<T>(s: seq<T>, f: T -> int)
    requires forall y | y in s :: f(y) == 0
    ensures Sum(s, f) == 0
  {
    if |s| > 0 {
      SumOfNone(s[1..], f);
    }
  }

  /** Filtering by a stronger guard keeps a non-negative sum from growing. */
  lemma {:induction false} SumSelectMono<T>(s: seq<T>, p: T -> bool, q: T -> bool, f: T -> int)
    requires forall x | x in s && p(x) :: q(x)
    requires NonNeg(s, f)
    ensures Sum(Select(s, p), f) <= Sum(Select(s, q), f)
  {
    if |s| > 0 {
      SumSelectMono(s[1..], p, q, f);
      if q(s[0]) && !p(s[0]) {
        assert f(s[0]) >= 0;
      }
    }
  }

  /** A guard that is the disjoint union of two guards splits the sum. */
  lemma {:induction false} SumSelectSplit<T>(s: seq<T>, p: T -> bool, p1: T -> bool, p2: T -> bool, f: T -> int)
    requires forall x | x in s :: (p(x) <==> p1(x) || p2(x)) && !(p1(x) && p2(x))
    ensures Sum(Select(s, p), f) == Sum(Select(s, p1), f) + Sum(Select(s, p2), f)
  {
    if |s| > 0 {
      SumSelectSplit(s[1..], p, p1, p2, f);
    }
  }

  /** The real-valued counterpart of SumSelectSplit. */
  lemma {:induction false} SumRSelectSplit<T>(s: seq<T>, p: T -> bool, p1: T -> bool, p2: T -> bool, f: T -> real)
    requires forall x | x in s :: (p(x) <==> p1(x) || p2(x)) && !(p1(x) && p2(x))
    ensures SumR(Select(s, p), f) == SumR(Select(s, p1), f) + SumR(Select(s, p2), f)
  {
    if |s| > 0 {
      SumRSelectSplit(s[1..], p, p1, p2, f);
    }
  }

  /** Guards that agree on every key select the same keys. */
  lemma {:induction false} SelectSame<T>(s: seq<T>, p: T -> bool, q: T -> bool)
    requires forall x | x in s :: p(x) == q(x)
    ensures Select(s, p) == Select(s, q)
  {
    if |s| > 0 {
      SelectSame(s[1..], p, q);
    }
  }

  /** A guard no key satisfies selects nothing. */
  lemma SelectNone<T>(s: seq<T>, p: T -> bool)
    requires forall x | x in s :: !p(x)
    ensures Select(s, p) == []
  {
  }

  /** A real sum of non-negative terms is non-negative. */
  lemma {:induction false} SumRNonNeg<T>(s: seq<T>, f: T -> real)
    requires forall x | x in s :: f(x) >= 0.0
    ensures SumR(s, f) >= 0.0
  {
    if |s| > 0 {
      SumRNonNeg(s[1..], f);
    }
  }
}
