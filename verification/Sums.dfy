/** Finite sums over sequences, the one tool every ledger and total in this project is stated with. */
module Sums {

  function SumOver<T>(xs: seq<T>, f: T -> int): int {
    if xs == [] then 0 else f(xs[0]) + SumOver(xs[1..], f)
  }

  lemma {:induction false} SumConcat<T>(xs: seq<T>, ys: seq<T>, f: T -> int)
    ensures SumOver(xs + ys, f) == SumOver(xs, f) + SumOver(ys, f)
  {
    if xs == [] {
      assert xs + ys == ys;
    } else {
      assert (xs + ys)[1..] == xs[1..] + ys;
      SumConcat(xs[1..], ys, f);
    }
  }

  lemma SumSnoc<T>(xs: seq<T>, x: T, f: T -> int)
    ensures SumOver(xs + [x], f) == SumOver(xs, f) + f(x)
  {
    SumConcat(xs, [x], f);
    assert SumOver([x][1..], f) == 0;
  }

  lemma {:induction false} SumUpdate<T>(xs: seq<T>, k: nat, x: T, f: T -> int)
    requires k < |xs|
    ensures SumOver(xs[k := x], f) == SumOver(xs, f) - f(xs[k]) + f(x)
  {
    assert xs[k := x] == xs[..k] + [x] + xs[k + 1..];
    assert xs == xs[..k] + [xs[k]] + xs[k + 1..];
    SumConcat(xs[..k] + [x], xs[k + 1..], f);
    SumConcat(xs[..k] + [xs[k]], xs[k + 1..], f);
    SumSnoc(xs[..k], x, f);
    SumSnoc(xs[..k], xs[k], f);
  }

  /** Two functions that agree on every element have equal sums. */
  lemma {:induction false} SumCongruent<T>(xs: seq<T>, f: T -> int, g: T -> int)
    requires forall x :: x in xs ==> f(x) == g(x)
    ensures SumOver(xs, f) == SumOver(xs, g)
  {
    if xs != [] {
      assert xs[0] in xs;
      assert forall x :: x in xs[1..] ==> x in xs;
      SumCongruent(xs[1..], f, g);
    }
  }

  /** A pointwise sum of functions sums to the sum of the sums. */
  lemma {:induction false} SumSplit<T>(xs: seq<T>, f: T -> int, g: T -> int, h: T -> int)
    requires forall x :: x in xs ==> f(x) == g(x) + h(x)
    ensures SumOver(xs, f) == SumOver(xs, g) + SumOver(xs, h)
  {
    if xs != [] {
      assert xs[0] in xs;
      assert forall x :: x in xs[1..] ==> x in xs;
      SumSplit(xs[1..], f, g, h);
    }
  }

  lemma {:induction false} SumZero<T>(xs: seq<T>, f: T -> int)
    requires forall x :: x in xs ==> f(x) == 0
    ensures SumOver(xs, f) == 0
  {
    if xs != [] {
      assert xs[0] in xs;
      assert forall x :: x in xs[1..] ==> x in xs;
      SumZero(xs[1..], f);
    }
  }

  lemma {:induction false} SumNonNegative<T>(xs: seq<T>, f: T -> int)
    requires forall x :: x in xs ==> f(x) >= 0
    ensures SumOver(xs, f) >= 0
  {
    if xs != [] {
      assert xs[0] in xs;
      assert forall x :: x in xs[1..] ==> x in xs;
      SumNonNegative(xs[1..], f);
    }
  }

  /** The sum does not depend on the order of the elements. */
  lemma {:induction false} SumPermuted<T>(xs: seq<T>, ys: seq<T>, f: T -> int)
    requires multiset(xs) == multiset(ys)
    ensures SumOver(xs, f) == SumOver(ys, f)
    decreases |xs|
  {
    if xs == [] {
      assert |multiset(ys)| == 0;
      assert ys == [];
    } else {
      var x := xs[0];
      assert x in multiset(ys);
      var k :| 0 <= k < |ys| && ys[k] == x;
      var rest := ys[..k] + ys[k + 1..];
      assert xs == [x] + xs[1..];
      assert ys == ys[..k] + [x] + ys[k + 1..];
      assert multiset(rest) == multiset(ys) - multiset{x};
      assert multiset(xs[1..]) == multiset(xs) - multiset{x};
      SumPermuted(xs[1..], rest, f);
      SumConcat(ys[..k], ys[k + 1..], f);
      SumConcat(ys[..k] + [x], ys[k + 1..], f);
      SumSnoc(ys[..k], x, f);
    }
  }
}
