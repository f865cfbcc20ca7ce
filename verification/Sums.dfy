/** Finite sums over sequences and over sets of ids, and the few laws every other proof uses. */
module Sums {

  function Sum<T>(xs: seq<T>, f: T -> int): int {
    if xs == [] then 0 else Sum(xs[..|xs| - 1], f) + f(xs[|xs| - 1])
  }

  lemma SumSnoc<T>(xs: seq<T>, x: T, f: T -> int)
    ensures Sum(xs + [x], f) == Sum(xs, f) + f(x)
  {
    assert (xs + [x])[..|xs|] == xs;
  }

  lemma {:induction false} SumConcat<T>(xs: seq<T>, ys: seq<T>, f: T -> int)
    ensures Sum(xs + ys, f) == Sum(xs, f) + Sum(ys, f)
  {
    if ys == [] {
      assert xs + ys == xs;
    } else {
      var n := |ys| - 1;
      assert xs + ys == (xs + ys[..n]) + [ys[n]];
      SumSnoc(xs + ys[..n], ys[n], f);
      SumConcat(xs, ys[..n], f);
    }
  }

  /** Pointwise linear relation between three sequences carries over to their sums. */
  lemma {:induction false} SumLinear<T, U, V>(xs: seq<T>, f: T -> int, ys: seq<U>, g: U -> int, k: int, zs: seq<V>, h: V -> int)
    requires |xs| == |ys| == |zs|
    requires forall i | 0 <= i < |xs| :: f(xs[i]) == g(ys[i]) + k * h(zs[i])
    ensures Sum(xs, f) == Sum(ys, g) + k * Sum(zs, h)
  {
    if xs != [] {
      var n := |xs| - 1;
      SumLinear(xs[..n], f, ys[..n], g, k, zs[..n], h);
      assert k * (Sum(zs[..n], h) + h(zs[n])) == k * Sum(zs[..n], h) + k * h(zs[n]);
    }
  }

  lemma {:induction false} SumSame<T, U>(xs: seq<T>, f: T -> int, ys: seq<U>, g: U -> int)
    requires |xs| == |ys|
    requires forall i | 0 <= i < |xs| :: f(xs[i]) == g(ys[i])
    ensures Sum(xs, f) == Sum(ys, g)
  {
    if xs != [] {
      SumSame(xs[..|xs| - 1], f, ys[..|ys| - 1], g);
    }
  }

  lemma {:induction false} SumZero<T>(xs: seq<T>, f: T -> int)
    requires forall i | 0 <= i < |xs| :: f(xs[i]) == 0
    ensures Sum(xs, f) == 0
  {
    if xs != [] {
      SumZero(xs[..|xs| - 1], f);
    }
  }

  /** A bound on the summands' absolute values bounds the sum's. */
  lemma {:induction false} SumAbs<T>(xs: seq<T>, f: T -> int, g: T -> int)
    requires forall i | 0 <= i < |xs| :: -g(xs[i]) <= f(xs[i]) <= g(xs[i])
    ensures -Sum(xs, g) <= Sum(xs, f) <= Sum(xs, g)
  {
    if xs != [] {
      SumAbs(xs[..|xs| - 1], f, g);
    }
  }

  /** Prefixes of a non-negative sum do not exceed it. */
  lemma {:induction false} SumPrefix<T>(xs: seq<T>, n: nat, f: T -> int)
    requires n <= |xs|
    requires forall i | 0 <= i < |xs| :: f(xs[i]) >= 0
    ensures 0 <= Sum(xs[..n], f) <= Sum(xs, f)
    decreases |xs|
  {
    if n < |xs| {
      SumPrefix(xs[..|xs| - 1], n, f);
      assert xs[..|xs| - 1][..n] == xs[..n];
    } else if n > 0 {
      SumPrefix(xs[..n - 1], n - 1, f);
      assert xs[..n] == xs && xs[..n - 1][..n - 1] == xs[..n - 1];
    }
  }

  lemma {:induction false} SumRemove<T>(xs: seq<T>, i: nat, f: T -> int)
    requires i < |xs|
    ensures Sum(xs, f) == Sum(xs[..i] + xs[i + 1..], f) + f(xs[i])
  {
    assert xs == (xs[..i] + [xs[i]]) + xs[i + 1..];
    SumConcat(xs[..i] + [xs[i]], xs[i + 1..], f);
    SumSnoc(xs[..i], xs[i], f);
    SumConcat(xs[..i], xs[i + 1..], f);
  }

  lemma {:induction false} SumUpdate<T>(xs: seq<T>, i: nat, x: T, f: T -> int)
    requires i < |xs|
    ensures Sum(xs[i := x], f) == Sum(xs, f) - f(xs[i]) + f(x)
  {
    SumRemove(xs, i, f);
    SumRemove(xs[i := x], i, f);
    assert xs[i := x][..i] == xs[..i] && xs[i := x][i + 1..] == xs[i + 1..];
  }

  lemma MultisetRemove<T>(xs: seq<T>, i: nat)
    requires i < |xs|
    ensures multiset(xs[..i] + xs[i + 1..]) == multiset(xs) - multiset{xs[i]}
  {
    assert xs == xs[..i] + [xs[i]] + xs[i + 1..];
  }

  /** A sum depends only on the multiset of its summands. */
  lemma {:induction false} SumPermute<T>(xs: seq<T>, ys: seq<T>, f: T -> int)
    requires multiset(xs) == multiset(ys)
    ensures Sum(xs, f) == Sum(ys, f)
    decreases |xs|
  {
    if xs == [] {
      assert |multiset(ys)| == 0;
    } else {
      var n := |xs| - 1;
      assert xs[n] in multiset(ys);
      var j :| 0 <= j < |ys| && ys[j] == xs[n];
      MultisetRemove(xs, n);
      MultisetRemove(ys, j);
      assert xs[..n] + xs[n + 1..] == xs[..n];
      SumPermute(xs[..n], ys[..j] + ys[j + 1..], f);
      SumRemove(ys, j, f);
    }
  }

  function Filter<T>(xs: seq<T>, p: T -> bool): seq<T> {
    if xs == [] then []
    else Filter(xs[..|xs| - 1], p) + if p(xs[|xs| - 1]) then [xs[|xs| - 1]] else []
  }

  lemma {:induction false} FilterMembers<T>(xs: seq<T>, p: T -> bool)
    ensures forall x | x in Filter(xs, p) :: x in xs && p(x)
    ensures forall x | x in xs && p(x) :: x in Filter(xs, p)
  {
    if xs != [] {
      FilterMembers(xs[..|xs| - 1], p);
      assert xs == xs[..|xs| - 1] + [xs[|xs| - 1]];
    }
  }

  lemma {:induction false} FilterConcat<T>(xs: seq<T>, ys: seq<T>, p: T -> bool)
    ensures Filter(xs + ys, p) == Filter(xs, p) + Filter(ys, p)
  {
    if ys == [] {
      assert xs + ys == xs;
    } else {
      var n := |ys| - 1;
      assert (xs + ys)[..|xs + ys| - 1] == xs + ys[..n];
      FilterConcat(xs, ys[..n], p);
    }
  }

  /** Dropping elements on which `f` is zero does not change the sum. */
  lemma {:induction false} SumFilter<T>(xs: seq<T>, p: T -> bool, f: T -> int)
    requires forall i | 0 <= i < |xs| :: !p(xs[i]) ==> f(xs[i]) == 0
    ensures Sum(Filter(xs, p), f) == Sum(xs, f)
  {
    if xs != [] {
      var n := |xs| - 1;
      SumFilter(xs[..n], p, f);
      if p(xs[n]) {
        SumSnoc(Filter(xs[..n], p), xs[n], f);
      } else {
        assert Filter(xs, p) == Filter(xs[..n], p);
      }
    }
  }

  lemma SameMap<V>(m: map<int, V>, m': map<int, V>)
    requires (forall a | a in m :: a in m') && (forall a | a in m' :: a in m)
    ensures m == m' <==> forall a | a in m' :: m[a] == m'[a]
  {
    forall a
      ensures a in m.Keys <==> a in m'.Keys
    {
      assert a in m <==> a in m';
    }
    assert m.Keys == m'.Keys;
    if forall a | a in m' :: m[a] == m'[a] {
      assert m == m';
    }
  }

  lemma NonEmpty(s: set<int>)
    ensures s != {} ==> exists x :: x in s
  {
    if forall x :: x !in s {
      assert s == {};
    }
  }

  ghost function Pick(s: set<int>): (x: int)
    requires s != {}
    ensures x in s
  {
    NonEmpty(s);
    var x :| x in s;
    x
  }

  /** Sum over a finite set of ids. */
  ghost function SumSet(s: set<int>, f: int -> int): int {
    if s == {} then 0 else var x := Pick(s); SumSet(s - {x}, f) + f(x)
  }

  lemma {:induction false} SumSetExtract(s: set<int>, x: int, f: int -> int)
    requires x in s
    ensures SumSet(s, f) == SumSet(s - {x}, f) + f(x)
    decreases |s|
  {
    var y := Pick(s);
    if y != x {
      SumSetExtract(s - {y}, x, f);
      SumSetExtract(s - {x}, y, f);
      assert s - {y} - {x} == s - {x} - {y};
    }
  }

  lemma {:induction false} SumSetInsert(s: set<int>, x: int, f: int -> int)
    requires x !in s
    ensures SumSet(s + {x}, f) == SumSet(s, f) + f(x)
  {
    SumSetExtract(s + {x}, x, f);
    assert s + {x} - {x} == s;
  }

  lemma {:induction false} SumSetLinear(s: set<int>, f: int -> int, g: int -> int, k: int, h: int -> int)
    requires forall x | x in s :: f(x) == g(x) + k * h(x)
    ensures SumSet(s, f) == SumSet(s, g) + k * SumSet(s, h)
    decreases |s|
  {
    if s != {} {
      var x := Pick(s);
      SumSetLinear(s - {x}, f, g, k, h);
      SumSetExtract(s, x, f);
      SumSetExtract(s, x, g);
      SumSetExtract(s, x, h);
      assert k * (SumSet(s - {x}, h) + h(x)) == k * SumSet(s - {x}, h) + k * h(x);
    } else {
      assert k * 0 == 0;
    }
  }

  lemma {:induction false} SumSetSame(s: set<int>, f: int -> int, g: int -> int)
    requires forall x | x in s :: f(x) == g(x)
    ensures SumSet(s, f) == SumSet(s, g)
    decreases |s|
  {
    if s != {} {
      var x := Pick(s);
      SumSetSame(s - {x}, f, g);
      SumSetExtract(s, x, f);
      SumSetExtract(s, x, g);
    }
  }

  /** A function that vanishes off `x` sums to its value at `x`. */
  lemma {:induction false} SumSetSingle(s: set<int>, x: int, f: int -> int)
    requires x in s
    requires forall y | y in s && y != x :: f(y) == 0
    ensures SumSet(s, f) == f(x)
  {
    SumSetExtract(s, x, f);
    SumSetSame(s - {x}, f, _ => 0);
    SumSetZero(s - {x});
  }

  lemma {:induction false} SumSetZero(s: set<int>)
    ensures SumSet(s, _ => 0) == 0
    decreases |s|
  {
    if s != {} {
      var x := Pick(s);
      SumSetZero(s - {x});
      SumSetExtract(s, x, _ => 0);
    }
  }
}
