/** Sums of a real-valued measure over a sequence: the weight of a pile of ballots. */
module Sums {

  /** A product, named so that proofs which do not look inside it can hide it. */
  function Times(x: real, y: real): real { x * y }

  lemma TimesFacts(x: real, y: real, z: real)
    ensures Times(x, 0.0) == 0.0 == Times(0.0, x) && Times(1.0, x) == x
    ensures Times(x, y + z) == Times(x, y) + Times(x, z)
    ensures Times(y + z, x) == Times(y, x) + Times(z, x)
  {
  }

  lemma TimesMonotone(x: real, y: real, z: real)
    requires 0.0 <= x && y <= z
    ensures Times(x, y) <= Times(x, z) && Times(y, x) <= Times(z, x)
  {
    assert x * (z - y) >= 0.0;
  }

  function Sum<T>(xs: seq<T>, f: T -> real): real {
    if xs == [] then 0.0 else Sum(xs[..|xs| - 1], f) + f(xs[|xs| - 1])
  }

  function Mapped<T, U>(xs: seq<T>, g: T -> U): (r: seq<U>)
    ensures |r| == |xs| && forall i :: 0 <= i < |xs| ==> r[i] == g(xs[i])
  {
    seq(|xs|, i requires 0 <= i < |xs| => g(xs[i]))
  }

  lemma {:induction false} SumLe<T>(xs: seq<T>, f: T -> real, g: T -> real)
    requires forall x :: x in xs ==> f(x) <= g(x)
    ensures Sum(xs, f) <= Sum(xs, g)
  {
    if xs != [] {
      SumLe(xs[..|xs| - 1], f, g);
    }
  }

  lemma SumEq<T>(xs: seq<T>, f: T -> real, g: T -> real)
    requires forall x :: x in xs ==> f(x) == g(x)
    ensures Sum(xs, f) == Sum(xs, g)
  {
    SumLe(xs, f, g);
    SumLe(xs, g, f);
  }

  lemma {:induction false} SumAdd<T>(xs: seq<T>, f: T -> real, g: T -> real, h: T -> real)
    requires forall x :: x in xs ==> h(x) == f(x) + g(x)
    ensures Sum(xs, h) == Sum(xs, f) + Sum(xs, g)
  {
    if xs != [] {
      SumAdd(xs[..|xs| - 1], f, g, h);
    }
  }

  lemma {:induction false} SumScale<T>(xs: seq<T>, f: T -> real, g: T -> real, k: real)
    requires forall x :: x in xs ==> g(x) == Times(k, f(x))
    ensures Sum(xs, g) == Times(k, Sum(xs, f))
  {
    hide Times;
    if xs == [] {
      TimesFacts(k, 0.0, 0.0);
    } else {
      TimesFacts(k, Sum(xs[..|xs| - 1], f), f(xs[|xs| - 1]));
      SumScale(xs[..|xs| - 1], f, g, k);
    }
  }

  lemma {:induction false} SumConstant<T>(xs: seq<T>, f: T -> real, k: real)
    requires forall x :: x in xs ==> f(x) == k
    ensures Sum(xs, f) == Times(|xs| as real, k)
  {
    hide Times;
    TimesFacts(k, (|xs| - 1) as real, 1.0);
    if xs != [] {
      SumConstant(xs[..|xs| - 1], f, k);
    }
  }

  lemma {:induction false} SumMapped<T, U>(xs: seq<T>, g: T -> U, f: U -> real, fg: T -> real)
    requires forall x :: x in xs ==> fg(x) == f(g(x))
    ensures Sum(Mapped(xs, g), f) == Sum(xs, fg)
  {
    if xs != [] {
      SumMapped(xs[..|xs| - 1], g, f, fg);
      assert Mapped(xs, g)[..|xs| - 1] == Mapped(xs[..|xs| - 1], g);
    }
  }

  lemma {:induction false} SumRemove<T>(xs: seq<T>, i: nat, f: T -> real)
    requires i < |xs|
    ensures Sum(xs, f) == Sum(xs[..i] + xs[i + 1..], f) + f(xs[i])
  {
    var last := |xs| - 1;
    if i == last {
      assert xs[..i] + xs[i + 1..] == xs[..last];
    } else {
      SumRemove(xs[..last], i, f);
      var rest := xs[..i] + xs[i + 1..];
      assert rest[..|rest| - 1] == xs[..last][..i] + xs[..last][i + 1..];
      assert rest[|rest| - 1] == xs[last];
    }
  }

  lemma MultisetRemove<T>(xs: seq<T>, i: nat)
    requires i < |xs|
    ensures multiset(xs) == multiset(xs[..i] + xs[i + 1..]) + multiset{xs[i]}
  {
    assert xs == xs[..i] + [xs[i]] + xs[i + 1..];
  }

  /** The last element of one pile found in a permutation of it, and struck from both. */
  lemma StrikeLast<T>(xs: seq<T>, ys: seq<T>) returns (i: nat)
    requires xs != [] && multiset(xs) == multiset(ys)
    ensures i < |ys| && ys[i] == xs[|xs| - 1]
    ensures multiset(xs[..|xs| - 1]) == multiset(ys[..i] + ys[i + 1..])
  {
    var last := |xs| - 1;
    assert xs[last] in multiset(ys);
    i :| i < |ys| && ys[i] == xs[last];
    MultisetRemove(xs, last);
    MultisetRemove(ys, i);
    assert xs[..last] + xs[last + 1..] == xs[..last];
    assert multiset(xs[..last]) == multiset(xs) - multiset{xs[last]};
    assert multiset(ys[..i] + ys[i + 1..]) == multiset(ys) - multiset{ys[i]};
  }

  /** The measure of a pile does not depend on the order of the pile. */
  lemma {:induction false} SumPermuted<T>(xs: seq<T>, ys: seq<T>, f: T -> real)
    requires multiset(xs) == multiset(ys)
    ensures Sum(xs, f) == Sum(ys, f)
    decreases |xs|
  {
    if xs == [] {
      assert |multiset(ys)| == 0;
    } else {
      var i := StrikeLast(xs, ys);
      SumRemove(ys, i, f);
      SumPermuted(xs[..|xs| - 1], ys[..i] + ys[i + 1..], f);
    }
  }

  lemma {:induction false} MappedPermuted<T, U>(xs: seq<T>, ys: seq<T>, g: T -> U)
    requires multiset(xs) == multiset(ys)
    ensures multiset(Mapped(xs, g)) == multiset(Mapped(ys, g))
    decreases |xs|
  {
    if xs == [] {
      assert |multiset(ys)| == 0;
    } else {
      var last := |xs| - 1;
      var i := StrikeLast(xs, ys);
      MappedPermuted(xs[..last], ys[..i] + ys[i + 1..], g);
      var mx, my := Mapped(xs, g), Mapped(ys, g);
      MultisetRemove(my, i);
      MultisetRemove(mx, last);
      assert my[..i] + my[i + 1..] == Mapped(ys[..i] + ys[i + 1..], g);
      assert mx[..last] + mx[last + 1..] == Mapped(xs[..last], g);
    }
  }
}
