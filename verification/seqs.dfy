/**
 * Queries over tables held as sequences in storage order: the first row
 * satisfying a condition (`->first()`), how many rows satisfy it
 * (`->count()`), and sums of a column over them (`->sum(...)`).
 */
module Seqs {
  import opened Wrappers

  /** The index of the first element satisfying `p`, if any. */
  function FirstIndex<T>(s: seq<T>, p: T -> bool): (r: Option<nat>)
    ensures r.Some? ==> r.value < |s| && p(s[r.value])
    ensures r.Some? ==> forall j :: 0 <= j < r.value ==> !p(s[j])
    ensures r.None? ==> forall j :: 0 <= j < |s| ==> !p(s[j])
  {
    if |s| == 0 then None
    else if p(s[0]) then Some(0)
    else
      match FirstIndex(s[1..], p)
      case None =>
        assert forall j :: 1 <= j < |s| ==> s[j] == s[1..][j - 1];
        None
      case Some(i) =>
        assert forall j :: 1 <= j < i + 1 ==> s[j] == s[1..][j - 1];
        Some(i + 1)
  }

  /** The number of elements satisfying `p`. */
  function Count<T>(s: seq<T>, p: T -> bool): (n: nat)
    ensures n <= |s|
    ensures n == 0 <==> forall j :: 0 <= j < |s| ==> !p(s[j])
  {
    if |s| == 0 then 0
    else
      var rest := Count(s[1..], p);
      assert forall j :: 1 <= j < |s| ==> s[j] == s[1..][j - 1];
      (if p(s[0]) then 1 else 0) + rest
  }

  lemma CountAppend<T>(a: seq<T>, b: seq<T>, p: T -> bool)
    ensures Count(a + b, p) == Count(a, p) + Count(b, p)
  {
    if |a| == 0 {
      assert a + b == b;
    } else {
      assert (a + b)[1..] == a[1..] + b;
      CountAppend(a[1..], b, p);
    }
  }

  /** Counting under a weaker condition never counts fewer. */
  lemma CountMono<T>(s: seq<T>, p: T -> bool, q: T -> bool)
    requires forall x :: p(x) ==> q(x)
    ensures Count(s, p) <= Count(s, q)
  {
    if |s| > 0 {
      CountMono(s[1..], p, q);
    }
  }

  /** Conditions that agree on every element count the same. */
  lemma {:induction false} CountSame<T>(s: seq<T>, p: T -> bool, q: T -> bool)
    requires forall j :: 0 <= j < |s| ==> p(s[j]) == q(s[j])
    ensures Count(s, p) == Count(s, q)
  {
    if |s| > 0 {
      assert forall j :: 1 <= j < |s| ==> s[1..][j - 1] == s[j];
      CountSame(s[1..], p, q);
    }
  }

  /** An element outside the condition leaves the count below the length. */
  lemma {:induction false} CountBelowLength<T>(s: seq<T>, p: T -> bool, k: nat)
    requires k < |s| && !p(s[k])
    ensures Count(s, p) < |s|
  {
    if k > 0 {
      assert s[1..][k - 1] == s[k];
      CountBelowLength(s[1..], p, k - 1);
    }
  }

  /**
   * Counting under a weaker condition that also admits one more element
   * counts strictly more.
   */
  lemma {:induction false} CountStrictMono<T>(s: seq<T>, p: T -> bool, q: T -> bool, k: nat)
    requires forall x :: p(x) ==> q(x)
    requires k < |s| && q(s[k]) && !p(s[k])
    ensures Count(s, p) < Count(s, q)
  {
    if k == 0 {
      CountMono(s[1..], p, q);
    } else {
      assert s[1..][k - 1] == s[k];
      CountStrictMono(s[1..], p, q, k - 1);
    }
  }

  /** `s` without repeats, each element kept at its first occurrence. */
  function Dedupe<T(==,!new)>(s: seq<T>): (d: seq<T>)
    ensures forall x :: x in d <==> x in s
    ensures forall i, j :: 0 <= i < j < |d| ==> d[i] != d[j]
  {
    if |s| == 0 then []
    else
      var d := Dedupe(s[..|s| - 1]);
      assert forall x :: x in s <==> x in s[..|s| - 1] || x == s[|s| - 1] by {
        assert s == s[..|s| - 1] + [s[|s| - 1]];
      }
      if s[|s| - 1] in d then d else d + [s[|s| - 1]]
  }

  /** Integer sum of `f` over the elements satisfying `p`. */
  function IntSumWhere<T>(s: seq<T>, p: T -> bool, f: T -> int): int {
    if |s| == 0 then 0
    else (if p(s[0]) then f(s[0]) else 0) + IntSumWhere(s[1..], p, f)
  }

  /** Sum of `f` over the elements satisfying `p`. */
  function SumWhere<T>(s: seq<T>, p: T -> bool, f: T -> real): real {
    if |s| == 0 then 0.0
    else (if p(s[0]) then f(s[0]) else 0.0) + SumWhere(s[1..], p, f)
  }

  /** Only the selected elements matter: a sum over none of them is zero. */
  lemma SumWhereNone<T>(s: seq<T>, p: T -> bool, f: T -> real)
    requires forall j :: 0 <= j < |s| ==> !p(s[j])
    ensures SumWhere(s, p, f) == 0.0
  {
    if |s| > 0 {
      assert forall j :: 1 <= j < |s| ==> s[j] == s[1..][j - 1];
      SumWhereNone(s[1..], p, f);
    }
  }

  lemma SumWhereAppend<T>(a: seq<T>, b: seq<T>, p: T -> bool, f: T -> real)
    ensures SumWhere(a + b, p, f) == SumWhere(a, p, f) + SumWhere(b, p, f)
  {
    if |a| == 0 {
      assert a + b == b;
    } else {
      assert (a + b)[1..] == a[1..] + b;
      SumWhereAppend(a[1..], b, p, f);
    }
  }

  /** Conditions that agree on every element select the same integer sum. */
  lemma {:induction false} IntSumSame<T>(s: seq<T>, p: T -> bool, q: T -> bool, f: T -> int)
    requires forall j :: 0 <= j < |s| ==> p(s[j]) == q(s[j])
    ensures IntSumWhere(s, p, f) == IntSumWhere(s, q, f)
  {
    if |s| > 0 {
      assert forall j :: 1 <= j < |s| ==> s[1..][j - 1] == s[j];
      IntSumSame(s[1..], p, q, f);
    }
  }

  /** With non-negative terms, a sum over a weaker condition is never smaller. */
  lemma {:induction false} IntSumMono<T>(s: seq<T>, p: T -> bool, q: T -> bool, f: T -> int)
    requires forall j :: 0 <= j < |s| ==> f(s[j]) >= 0
    requires forall j :: 0 <= j < |s| && p(s[j]) ==> q(s[j])
    ensures IntSumWhere(s, p, f) <= IntSumWhere(s, q, f)
  {
    if |s| > 0 {
      assert forall j :: 1 <= j < |s| ==> s[1..][j - 1] == s[j];
      IntSumMono(s[1..], p, q, f);
    }
  }

  /** The elements satisfying `p`, in order (`->where(...)->get()`). */
  function Filter<T>(s: seq<T>, p: T -> bool): (r: seq<T>)
    ensures |r| == Count(s, p)
    ensures forall j :: 0 <= j < |r| ==> p(r[j])
  {
    if |s| == 0 then []
    else
      var rest := Filter(s[1..], p);
      if p(s[0]) then [s[0]] + rest else rest
  }

  /**
   * Replacing an element by one with the same standing under `p` keeps the
   * filtered sequences aligned: same length, differing only where the
   * replaced element landed.
   */
  lemma {:induction false} FilterReplace<T>(s: seq<T>, p: T -> bool, i: nat, x: T)
    requires i < |s| && p(x) == p(s[i])
    ensures |Filter(s[i := x], p)| == |Filter(s, p)|
    ensures forall j :: 0 <= j < |Filter(s, p)| ==>
      Filter(s[i := x], p)[j] == Filter(s, p)[j] ||
      (Filter(s[i := x], p)[j] == x && Filter(s, p)[j] == s[i])
  {
    var t := s[i := x];
    var head := if p(s[0]) then [s[0]] else [];
    var rest := Filter(s[1..], p);
    assert Filter(s, p) == head + rest;
    if i == 0 {
      assert t[1..] == s[1..];
      var head' := if p(x) then [x] else [];
      assert Filter(t, p) == head' + rest;
    } else {
      assert t[1..] == s[1..][i - 1 := x];
      assert t[0] == s[0];
      FilterReplace(s[1..], p, i - 1, x);
      assert Filter(t, p) == head + Filter(t[1..], p);
    }
  }

  /** A sum of zero terms is zero, whatever the condition. */
  lemma {:induction false} IntSumZero<T>(s: seq<T>, p: T -> bool, f: T -> int)
    requires forall j :: 0 <= j < |s| ==> f(s[j]) == 0
    ensures IntSumWhere(s, p, f) == 0
  {
    if |s| > 0 {
      assert forall j :: 1 <= j < |s| ==> s[1..][j - 1] == s[j];
      IntSumZero(s[1..], p, f);
    }
  }
}
