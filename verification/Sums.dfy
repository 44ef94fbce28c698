/** Sums of an integer weight over a sequence, grown at the right end the way the loops grow their lists. */
module Sums {

  function Sum<T>(weight: T -> int, s: seq<T>): int {
    if s == [] then 0 else Sum(weight, s[..|s| - 1]) + weight(s[|s| - 1])
  }

  lemma SumSnoc<T>(weight: T -> int, s: seq<T>, x: T)
    ensures Sum(weight, s + [x]) == Sum(weight, s) + weight(x)
  {
    assert (s + [x])[..|s|] == s;
  }

  lemma {:induction false} SumConcat<T>(weight: T -> int, a: seq<T>, b: seq<T>)
    ensures Sum(weight, a + b) == Sum(weight, a) + Sum(weight, b)
  {
    if b == [] {
      assert a + b == a;
    } else {
      var init := b[..|b| - 1];
      assert (a + b)[..|a + b| - 1] == a + init;
      SumConcat(weight, a, init);
    }
  }

  /** Replacing one element changes the sum by the difference of the two weights. */
  lemma SumUpdate<T>(weight: T -> int, s: seq<T>, k: nat, x: T)
    requires k < |s|
    ensures Sum(weight, s[k := x]) == Sum(weight, s) - weight(s[k]) + weight(x)
  {
    assert s == s[..k] + [s[k]] + s[k + 1..];
    assert s[k := x] == s[..k] + [x] + s[k + 1..];
    SumConcat(weight, s[..k] + [s[k]], s[k + 1..]);
    SumConcat(weight, s[..k] + [x], s[k + 1..]);
    SumSnoc(weight, s[..k], s[k]);
    SumSnoc(weight, s[..k], x);
  }

  /** The order of the elements does not matter. */
  lemma {:induction false} SumPermuted<T>(weight: T -> int, a: seq<T>, b: seq<T>)
    requires multiset(a) == multiset(b)
    ensures Sum(weight, a) == Sum(weight, b)
  {
    if a == [] {
      assert |multiset(b)| == 0;
    } else {
      var k := WithoutLast(a, b);
      SumPermuted(weight, a[..|a| - 1], b[..k] + b[k + 1..]);
      assert b == b[..k] + [b[k]] + b[k + 1..];
      SumConcat(weight, b[..k] + [b[k]], b[k + 1..]);
      SumSnoc(weight, b[..k], b[k]);
      SumConcat(weight, b[..k], b[k + 1..]);
    }
  }

  /** The last element of a sequence can be taken out of any permutation of it. */
  lemma WithoutLast<T>(a: seq<T>, b: seq<T>) returns (k: nat)
    requires a != [] && multiset(a) == multiset(b)
    ensures k < |b| && b[k] == a[|a| - 1]
    ensures multiset(a[..|a| - 1]) == multiset(b[..k] + b[k + 1..])
  {
    var n := |a| - 1;
    assert a[n] in multiset(b);
    k :| 0 <= k < |b| && b[k] == a[n];
    TakenOut(a, n);
    TakenOut(b, k);
    assert a[..n] + a[n + 1..] == a[..n];
  }

  lemma TakenOut<T>(s: seq<T>, k: nat)
    requires k < |s|
    ensures multiset(s) - multiset{s[k]} == multiset(s[..k] + s[k + 1..])
  {
    assert s == s[..k] + [s[k]] + s[k + 1..];
    assert multiset(s) == multiset(s[..k]) + multiset{s[k]} + multiset(s[k + 1..]);
  }

  lemma SumBounds<T>(weight: T -> int, s: seq<T>)
    requires forall x <- s :: weight(x) >= 0
    ensures Sum(weight, s) >= 0
    ensures forall k :: 0 <= k < |s| ==> weight(s[k]) <= Sum(weight, s)
  {
    if s != [] {
      SumBounds(weight, s[..|s| - 1]);
    }
  }

  /** Sums of weights that add up pointwise add up. */
  lemma SumAdd<T>(f: T -> int, g: T -> int, h: T -> int, s: seq<T>)
    requires forall x <- s :: h(x) == f(x) + g(x)
    ensures Sum(h, s) == Sum(f, s) + Sum(g, s)
  {
    if s != [] {
      SumAdd(f, g, h, s[..|s| - 1]);
    }
  }

  lemma SumSame<T>(f: T -> int, g: T -> int, s: seq<T>)
    requires forall x <- s :: f(x) == g(x)
    ensures Sum(f, s) == Sum(g, s)
  {
    SumMonotone(f, g, s);
    SumMonotone(g, f, s);
  }

  lemma SumMonotone<T>(f: T -> int, g: T -> int, s: seq<T>)
    requires forall x <- s :: f(x) <= g(x)
    ensures Sum(f, s) <= Sum(g, s)
  {
    if s != [] {
      SumMonotone(f, g, s[..|s| - 1]);
    }
  }
}
