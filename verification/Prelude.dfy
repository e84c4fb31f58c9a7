/** Small things every module needs. */
module Prelude {
  datatype Option<+T> = None | Some(value: T)

  function Max(a: int, b: int): int { if a < b then b else a }

  function Min(a: int, b: int): int { if a < b then a else b }

  predicate Distinct<T(==)>(xs: seq<T>) {
    forall i, j :: 0 <= i < j < |xs| ==> xs[i] != xs[j]
  }

  /** The list without the first occurrence of `x`. */
  function Without<T(==)>(xs: seq<T>, x: T): (ys: seq<T>)
    ensures forall y :: y in ys ==> y in xs
    ensures forall y :: y in xs && y != x ==> y in ys
    ensures |ys| == |xs| - if x in xs then 1 else 0
  {
    if xs == [] then []
    else if xs[0] == x then xs[1..]
    else
      assert xs == [xs[0]] + xs[1..];
      [xs[0]] + Without(xs[1..], x)
  }

  lemma {:induction false} WithoutDistinct<T>(xs: seq<T>, x: T)
    requires Distinct(xs)
    ensures Distinct(Without(xs, x)) && x !in Without(xs, x)
    decreases |xs|
  {
    if xs != [] {
      assert xs[0] !in xs[1..];
      if xs[0] != x {
        WithoutDistinct(xs[1..], x);
        assert xs[0] !in Without(xs[1..], x);
      }
    }
  }

  lemma {:induction false} WithoutAbsent<T>(xs: seq<T>, x: T)
    requires x !in xs
    ensures Without(xs, x) == xs
    decreases |xs|
  {
    if xs != [] {
      WithoutAbsent(xs[1..], x);
    }
  }
}
