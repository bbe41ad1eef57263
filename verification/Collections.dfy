/** Stock facts about options, sets and duplicate-free sequences. */
module Collections {

  datatype Option<+T> = None | Some(value: T)

  function Max(a: int, b: int): int { if a < b then b else a }
  function Min(a: int, b: int): int { if a < b then a else b }

  ghost function PickOne<T>(s: set<T>): (x: T)
    requires s != {}
    ensures x in s
  {
    var x :| x in s;
    x
  }

  ghost predicate NoDup<T>(xs: seq<T>) { forall i, j :: 0 <= i < j < |xs| ==> xs[i] != xs[j] }

  ghost function Elems<T(!new)>(xs: seq<T>): (r: set<T>)
    ensures forall x :: x in r <==> x in xs
  {
    set x | x in xs
  }

  ghost predicate Listing<T(!new)>(xs: seq<T>, s: set<T>) { NoDup(xs) && Elems(xs) == s }

  lemma Appended<T(!new)>(xs: seq<T>, x: T)
    requires NoDup(xs) && x !in xs
    ensures NoDup(xs + [x]) && Elems(xs + [x]) == Elems(xs) + {x}
  {
    var ys := xs + [x];
    assert ys[|xs|] == x && forall i :: 0 <= i < |xs| ==> ys[i] == xs[i];
    forall y ensures y in ys <==> y in xs || y == x {
    }
  }

  lemma Removed<T>(s: set<T>, x: T)
    requires x in s
    ensures |s - {x}| == |s| - 1
  {
  }

  lemma {:induction false} ListingSize<T(!new)>(xs: seq<T>, s: set<T>)
    requires Listing(xs, s)
    ensures |xs| == |s|
  {
    if xs != [] {
      var last := xs[|xs| - 1];
      ListingSize(xs[..|xs| - 1], s - {last});
    }
  }

  lemma Joined<T(!new)>(xs: seq<T>, ys: seq<T>)
    requires NoDup(xs) && NoDup(ys) && Elems(xs) !! Elems(ys)
    ensures NoDup(xs + ys) && Elems(xs + ys) == Elems(xs) + Elems(ys)
  {
    var zs := xs + ys;
    forall i, j | 0 <= i < j < |zs| ensures zs[i] != zs[j] {
      if i < |xs| <= j {
        assert zs[i] in Elems(xs) && zs[j] in Elems(ys);
      }
    }
    forall z ensures z in zs <==> z in xs || z in ys {
    }
  }

  /** The elements that pass a test, in their order. */
  function Filter<T>(xs: seq<T>, test: T -> bool): seq<T> {
    if xs == [] then []
    else Filter(xs[..|xs| - 1], test) + if test(xs[|xs| - 1]) then [xs[|xs| - 1]] else []
  }

  /** Each element that passes is there as often as before, and no other is. */
  lemma {:induction false} FilterCounts<T>(xs: seq<T>, test: T -> bool)
    ensures forall x :: multiset(Filter(xs, test))[x] == if test(x) then multiset(xs)[x] else 0
  {
    if xs != [] {
      var front, last := xs[..|xs| - 1], xs[|xs| - 1];
      FilterCounts(front, test);
      assert xs == front + [last];
    }
  }

  lemma {:induction false} FilterJoined<T>(xs: seq<T>, ys: seq<T>, test: T -> bool)
    ensures Filter(xs + ys, test) == Filter(xs, test) + Filter(ys, test)
    decreases |ys|
  {
    if ys == [] {
      assert xs + ys == xs;
    } else {
      var front, last := ys[..|ys| - 1], ys[|ys| - 1];
      FilterJoined(xs, front, test);
      assert (xs + ys)[..|xs + ys| - 1] == xs + front;
    }
  }
}
