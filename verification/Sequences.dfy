/** Facts about filtering and adding up sequences that the pipeline proofs share. */
module Sequences {

  lemma Position<T>(s: seq<T>, x: T) returns (i: nat)
    requires x in s
    ensures i < |s| && s[i] == x
  {
    i :| 0 <= i < |s| && s[i] == x;
  }

  function Filter<T>(p: T -> bool, s: seq<T>): (r: seq<T>)
    ensures |r| <= |s|
  {
    if s == [] then []
    else Filter(p, s[..|s| - 1]) + if p(s[|s| - 1]) then [s[|s| - 1]] else []
  }

  lemma {:induction false} FilterConcat<T>(p: T -> bool, a: seq<T>, b: seq<T>)
    ensures Filter(p, a + b) == Filter(p, a) + Filter(p, b)
  {
    if b == [] {
      assert a + b == a;
    } else {
      assert (a + b)[..|a + b| - 1] == a + b[..|b| - 1];
      FilterConcat(p, a, b[..|b| - 1]);
    }
  }

  lemma {:induction false} FilterTake<T>(p: T -> bool, s: seq<T>, n: nat)
    requires n <= |s|
    ensures Filter(p, s[..n]) <= Filter(p, s)
    decreases |s|
  {
    if n == |s| {
      assert s[..n] == s;
    } else {
      var front := s[..|s| - 1];
      FilterTake(p, front, n);
      assert front[..n] == s[..n];
    }
  }

  lemma {:induction false} FilterMember<T>(p: T -> bool, s: seq<T>, x: T)
    ensures x in Filter(p, s) <==> x in s && p(x)
  {
    if s != [] {
      FilterMember(p, s[..|s| - 1], x);
      assert s == s[..|s| - 1] + [s[|s| - 1]];
    }
  }

  /** Filtering keeps every copy of the elements it keeps. */
  lemma {:induction false} FilterCount<T>(p: T -> bool, s: seq<T>, x: T)
    requires p(x)
    ensures multiset(s)[x] == multiset(Filter(p, s))[x]
  {
    if s != [] {
      FilterCount(p, s[..|s| - 1], x);
      assert s == s[..|s| - 1] + [s[|s| - 1]];
    }
  }

  /** Keys grow strictly along the sequence. */
  ghost predicate Increasing<T>(key: T -> int, s: seq<T>) {
    forall i, j :: 0 <= i < j < |s| ==> key(s[i]) < key(s[j])
  }

  lemma {:induction false} FilterIncreasing<T>(key: T -> int, p: T -> bool, s: seq<T>)
    requires Increasing(key, s)
    ensures Increasing(key, Filter(p, s))
  {
    if s != [] {
      var front := s[..|s| - 1];
      FilterIncreasing(key, p, front);
      var kept := Filter(p, front);
      forall k | 0 <= k < |kept| ensures key(kept[k]) < key(s[|s| - 1]) {
        var x := kept[k];
        FilterMember(p, front, x);
        var i := Position(front, x);
        assert s[i] == x;
      }
    }
  }

  /** If the kept elements grow strictly, any two kept elements of the whole sequence do too. */
  lemma {:induction false} IncreasingInside<T>(key: T -> int, p: T -> bool, s: seq<T>, i: nat, j: nat)
    requires i < j < |s| && p(s[i]) && p(s[j]) && Increasing(key, Filter(p, s))
    ensures key(s[i]) < key(s[j])
  {
    var front := s[..|s| - 1];
    var f, g := Filter(p, front), Filter(p, s);
    assert g == f || (g == f + [s[|s| - 1]]);
    assert forall k :: 0 <= k < |f| ==> f[k] == g[k];
    if j < |s| - 1 {
      IncreasingInside(key, p, front, i, j);
    } else {
      assert front[i] == s[i];
      FilterMember(p, front, s[i]);
      var k := Position(f, s[i]);
      assert g[k] == s[i] && g[|g| - 1] == s[j];
    }
  }

  function Sum<T>(f: T -> int, s: seq<T>): int {
    if s == [] then 0 else Sum(f, s[..|s| - 1]) + f(s[|s| - 1])
  }

  lemma {:induction false} SumUpdate<T>(f: T -> int, s: seq<T>, i: nat, x: T)
    requires i < |s|
    ensures Sum(f, s[i := x]) == Sum(f, s) - f(s[i]) + f(x)
  {
    var t := s[i := x];
    if i == |s| - 1 {
      assert t[..|t| - 1] == s[..|s| - 1];
    } else {
      assert t[..|t| - 1] == s[..|s| - 1][i := x];
      SumUpdate(f, s[..|s| - 1], i, x);
    }
  }

  lemma OneMore(x: int, n: nat)
    ensures x * (n + 1) == x * n + x
  {
  }

  lemma {:induction false} SumBounds<T>(f: T -> int, s: seq<T>, lo: int, hi: int)
    requires forall x :: x in s ==> lo <= f(x) <= hi
    ensures lo * |s| <= Sum(f, s) <= hi * |s|
  {
    if s != [] {
      var front := s[..|s| - 1];
      assert s == front + [s[|s| - 1]];
      assert forall x :: x in front ==> x in s;
      SumBounds(f, front, lo, hi);
      OneMore(lo, |front|);
      OneMore(hi, |front|);
      assert lo <= f(s[|s| - 1]) <= hi;
    }
  }

  lemma {:induction false} SumNonNegative<T>(f: T -> int, s: seq<T>)
    requires forall x :: x in s ==> 0 <= f(x)
    ensures 0 <= Sum(f, s)
  {
    if s != [] {
      var front := s[..|s| - 1];
      assert s == front + [s[|s| - 1]];
      assert forall x :: x in front ==> x in s;
      SumNonNegative(f, front);
    }
  }

  /** Sums of functions related pointwise by addition. */
  lemma {:induction false} SumSplit<T>(f: T -> int, g: T -> int, h: T -> int, s: seq<T>)
    requires forall x :: x in s ==> f(x) == g(x) + h(x)
    ensures Sum(f, s) == Sum(g, s) + Sum(h, s)
  {
    if s != [] {
      var front := s[..|s| - 1];
      assert s == front + [s[|s| - 1]];
      assert forall x :: x in front ==> x in s;
      SumSplit(f, g, h, front);
    }
  }

  lemma Assoc<T>(a: seq<T>, b: seq<T>, c: seq<T>)
    ensures a + (b + c) == (a + b) + c
  {
  }

  lemma FiveParts<T>(a: seq<T>, b: seq<T>, c: seq<T>, d: seq<T>, e: seq<T>, rest: seq<T>)
    ensures a + b + c + d + e + rest == a + (b + (c + (d + (e + rest))))
  {
  }
}
