/**
 Polynomials with integer coefficients, lowest first, and their roots modulo a prime. The identities are
 exact over the integers; only vanishing is taken modulo p.
 */
module Polynomials {
  import opened Collections
  import opened PrimeField

  type Poly = seq<int>

  function Eval(f: Poly, x: int): int {
    if f == [] then 0 else f[0] + Mul(x, Eval(f[1..], x))
  }

  function Plus(f: Poly, g: Poly): (h: Poly)
    ensures |h| == Max(|f|, |g|)
  {
    if f == [] then g else if g == [] then f else [f[0] + g[0]] + Plus(f[1..], g[1..])
  }

  function Scaled(k: int, f: Poly): (h: Poly)
    ensures |h| == |f|
  {
    if f == [] then [] else [Mul(k, f[0])] + Scaled(k, f[1..])
  }

  /** (x - r) * f(x) */
  function TimesRoot(f: Poly, r: int): (h: Poly)
    ensures |h| == |f| + 1
  {
    Plus([0] + f, Scaled(-r, f))
  }

  /** The quotient of f by (x - r). */
  function Quotient(f: Poly, r: int): (q: Poly)
    ensures |q| == if f == [] then 0 else |f| - 1
  {
    if |f| <= 1 then [] else [Eval(f[1..], r)] + Quotient(f[1..], r)
  }

  lemma {:induction false} EvalPlus(f: Poly, g: Poly, x: int)
    ensures Eval(Plus(f, g), x) == Eval(f, x) + Eval(g, x)
  {
    hide Mul;
    if f != [] && g != [] {
      EvalPlus(f[1..], g[1..], x);
      MulFacts(x, Eval(f[1..], x), Eval(g[1..], x));
    }
  }

  lemma {:induction false} EvalScaled(k: int, f: Poly, x: int)
    ensures Eval(Scaled(k, f), x) == Mul(k, Eval(f, x))
  {
    hide Mul;
    if f == [] {
      MulFacts(k, 0, 0);
    } else {
      EvalScaled(k, f[1..], x);
      MulFacts(k, f[0], Mul(x, Eval(f[1..], x)));
      MulFacts(x, k, Eval(f[1..], x));
    }
  }

  function Coef(f: Poly, i: nat): int { if i < |f| then f[i] else 0 }

  function Minus(f: Poly, g: Poly): (h: Poly)
    ensures |h| == Max(|f|, |g|)
    ensures forall i :: 0 <= i < |h| ==> h[i] == Coef(f, i) - Coef(g, i)
  {
    seq(Max(|f|, |g|), i requires 0 <= i => Coef(f, i) - Coef(g, i))
  }

  function Tail(f: Poly): Poly { if f == [] then [] else f[1..] }

  lemma EvalHeadTail(f: Poly, x: int)
    ensures Eval(f, x) == Coef(f, 0) + Mul(x, Eval(Tail(f), x))
  {
  }

  lemma {:induction false} EvalMinus(f: Poly, g: Poly, x: int)
    ensures Eval(Minus(f, g), x) == Eval(f, x) - Eval(g, x)
    decreases |f| + |g|
  {
    hide Mul;
    if f != [] || g != [] {
      EvalMinus(Tail(f), Tail(g), x);
      EvalHeadTail(f, x);
      EvalHeadTail(g, x);
      assert Minus(f, g)[1..] == Minus(Tail(f), Tail(g));
      MulFacts(x, Eval(Tail(f), x), Eval(Tail(g), x));
    }
  }

  lemma EvalTimesRoot(f: Poly, r: int, x: int)
    ensures Eval(TimesRoot(f, r), x) == Mul(Eval(f, x), x - r)
  {
    hide Mul;
    EvalPlus([0] + f, Scaled(-r, f), x);
    EvalScaled(-r, f, x);
    assert ([0] + f)[1..] == f;
    MulFacts(Eval(f, x), x, r);
    MulFacts(r, Eval(f, x), 0);
    MulFacts(x, Eval(f, x), 0);
  }

  /** f(x) = f(r) + (x - r) * (f / (x - r))(x) */
  lemma {:induction false} Factor(f: Poly, r: int, x: int)
    ensures Eval(f, x) == Eval(f, r) + Mul(x - r, Eval(Quotient(f, r), x))
  {
    hide Mul;
    if |f| > 1 {
      var g, q := f[1..], Quotient(f[1..], r);
      Factor(g, r, x);
      assert Quotient(f, r)[1..] == q;
      FactorStep(f[0], r, x, Eval(g, r), Eval(g, x), Eval(q, x));
    } else {
      MulFacts(x - r, 0, 0);
      if |f| == 1 {
        assert f[1..] == [];
        MulFacts(x, 0, 0);
        MulFacts(r, 0, 0);
      }
    }
  }

  lemma FactorStep(c: int, r: int, x: int, gr: int, gx: int, qx: int)
    requires gx == gr + Mul(x - r, qx)
    ensures c + Mul(x, gx) == c + Mul(r, gr) + Mul(x - r, gr + Mul(x, qx))
  {
    assert (x - r) * (gr + x * qx) == (x - r) * gr + x * ((x - r) * qx);
  }

  lemma {:induction false} QuotientAt(f: Poly, r: int, i: nat)
    requires i + 1 < |f|
    ensures Quotient(f, r)[i] == Eval(f[i + 1..], r)
  {
    if i > 0 {
      QuotientAt(f[1..], r, i - 1);
      assert f[1..][i..] == f[i + 1..];
    }
  }

  ghost predicate Vanishes(p: int, f: Poly)
  {
    forall i :: 0 <= i < |f| ==> Zero(p, f[i])
  }

  lemma {:induction false} VanishingEval(p: int, f: Poly, x: int)
    requires p > 0 && Vanishes(p, f)
    ensures Zero(p, Eval(f, x))
  {
    hide Zero, Mul;
    if f == [] {
      MultipleIsZero(p, 0);
    } else {
      VanishingEval(p, f[1..], x);
      ZeroTimes(p, Eval(f[1..], x), x);
      ZeroAdd(p, f[0], Mul(x, Eval(f[1..], x)));
    }
  }

  /** A polynomial whose value at r and whose quotient by (x - r) both vanish, vanishes. */
  lemma VanishingQuotient(p: int, f: Poly, r: int)
    requires p > 0 && Vanishes(p, Quotient(f, r)) && Zero(p, Eval(f, r))
    ensures Vanishes(p, f)
  {
    hide Zero, Mul, Eval, Quotient;
    var q := Quotient(f, r);
    forall i | 0 <= i < |f| ensures Zero(p, f[i]) {
      TailEvalVanishes(p, f, r, i);
      TailEvalVanishes(p, f, r, i + 1);
      EvalTail(f, r, i);
      ZeroTimes(p, Eval(f[i + 1..], r), r);
      ZeroAdd(p, Eval(f[i..], r), Mul(r, Eval(f[i + 1..], r)));
    }
  }

  lemma EvalTail(f: Poly, r: int, i: nat)
    requires i < |f|
    ensures Eval(f[i..], r) == f[i] + Mul(r, Eval(f[i + 1..], r))
  {
    assert f[i..][1..] == f[i + 1..];
  }

  lemma TailEvalVanishes(p: int, f: Poly, r: int, i: nat)
    requires p > 0 && i <= |f| && Vanishes(p, Quotient(f, r)) && Zero(p, Eval(f, r))
    ensures Zero(p, Eval(f[i..], r))
  {
    if i == 0 {
      assert f[i..] == f;
    } else if i == |f| {
      MultipleIsZero(p, 0);
    } else {
      QuotientAt(f, r, i - 1);
    }
  }

  lemma PrimePositive(p: int)
    requires Prime(p)
    ensures p > 1
  {
  }

  ghost predicate Incongruent(p: int, xs: seq<int>)
  {
    forall i, j :: 0 <= i < j < |xs| ==> !Same(p, xs[i], xs[j])
  }

  /** A polynomial with as many distinct roots modulo p as coefficients vanishes modulo p. */
  lemma {:induction false} TooManyRoots(p: int, f: Poly, roots: seq<int>)
    requires Prime(p) && |roots| >= |f| && Incongruent(p, roots)
    requires forall r :: r in roots ==> Zero(p, Eval(f, r))
    ensures Vanishes(p, f)
    decreases |f|
  {
    PrimePositive(p);
    hide Zero, Prime, Mul, Eval, Quotient;
    if f != [] {
      var r, rest := roots[0], roots[1..];
      var q := Quotient(f, r);
      forall i | 0 <= i < |rest| ensures Zero(p, Eval(q, rest[i])) {
        var s := roots[i + 1];
        assert roots[0] in roots && s in roots && !Same(p, roots[0], s);
        RootOfQuotient(p, f, r, s);
      }
      assert Incongruent(p, rest);
      TooManyRoots(p, q, rest);
      VanishingQuotient(p, f, r);
    }
  }

  lemma RootOfQuotient(p: int, f: Poly, r: int, s: int)
    requires Prime(p) && Zero(p, Eval(f, r)) && Zero(p, Eval(f, s)) && !Same(p, r, s)
    ensures Zero(p, Eval(Quotient(f, r), s))
  {
    hide Zero, Mul;
    Factor(f, r, s);
    ZeroAdd(p, Eval(f, s), Eval(f, r));
    assert Zero(p, Mul(s - r, Eval(Quotient(f, r), s)));
    if Same(p, s, r) {
      SameSym(p, s, r);
    }
    PrimeDivides(p, s - r, Eval(Quotient(f, r), s));
  }

  // ---- Interpolation ----

  /** The product of (x - xs[k]) over k < j, k != i. */
  function NodeProduct(xs: seq<int>, i: nat, j: nat, x: int): int
    requires j <= |xs|
  {
    if j == 0 then 1
    else if j - 1 == i then NodeProduct(xs, i, j - 1, x)
    else Mul(NodeProduct(xs, i, j - 1, x), x - xs[j - 1])
  }

  function NodePoly(xs: seq<int>, i: nat, j: nat): (f: Poly)
    requires j <= |xs|
    ensures |f| == if i < j then j else j + 1
  {
    if j == 0 then [1]
    else if j - 1 == i then NodePoly(xs, i, j - 1)
    else TimesRoot(NodePoly(xs, i, j - 1), xs[j - 1])
  }

  lemma {:induction false} EvalNodePoly(xs: seq<int>, i: nat, j: nat, x: int)
    requires j <= |xs|
    ensures Eval(NodePoly(xs, i, j), x) == NodeProduct(xs, i, j, x)
  {
    hide Mul, TimesRoot;
    if j == 0 {
      assert [1][1..] == [];
      MulFacts(x, 0, 0);
    } else {
      EvalNodePoly(xs, i, j - 1, x);
      if j - 1 != i {
        EvalTimesRoot(NodePoly(xs, i, j - 1), xs[j - 1], x);
      }
    }
  }

  /** At another node the product is exactly 0. */
  lemma {:induction false} OtherNode(xs: seq<int>, i: nat, j: nat, k: nat)
    requires k < j <= |xs| && i != k
    ensures NodeProduct(xs, i, j, xs[k]) == 0
  {
    if j - 1 != k {
      OtherNode(xs, i, j - 1, k);
    }
  }

  /** At its own node the product does not vanish, when the nodes are distinct modulo p. */
  lemma {:induction false} OwnNode(p: int, xs: seq<int>, i: nat, j: nat)
    requires Prime(p) && Incongruent(p, xs) && i < |xs| && j <= |xs|
    ensures !Zero(p, NodeProduct(xs, i, j, xs[i]))
  {
    hide Prime, Mul;
    if j == 0 {
      OneIsNotZero(p);
    } else {
      OwnNode(p, xs, i, j - 1);
      if j - 1 != i {
        hide Zero, Mul;
        var last := NodeProduct(xs, i, j - 1, xs[i]);
        if Zero(p, Mul(last, xs[i] - xs[j - 1])) {
          PrimeDivides(p, last, xs[i] - xs[j - 1]);
          if i > j - 1 {
            SameSym(p, xs[i], xs[j - 1]);
          }
        }
      }
    }
  }

  lemma OneIsNotZero(p: int)
    requires Prime(p)
    ensures !Zero(p, 1)
  {
  }

  /** Lagrange's polynomial through the first k points, given inverses of the node products. */
  function Lagrange(xs: seq<int>, ys: seq<int>, invs: seq<int>, k: nat): (f: Poly)
    requires |xs| == |ys| == |invs| && k <= |xs|
    ensures |f| == if k == 0 then 0 else |xs|
  {
    if k == 0 then []
    else Plus(Lagrange(xs, ys, invs, k - 1), Scaled(Mul(ys[k - 1], invs[k - 1]), NodePoly(xs, k - 1, |xs|)))
  }

  /** The sum Lagrange's formula computes at x. */
  function LagrangeSum(xs: seq<int>, ys: seq<int>, invs: seq<int>, k: nat, x: int): int
    requires |xs| == |ys| == |invs| && k <= |xs|
  {
    if k == 0 then 0
    else LagrangeSum(xs, ys, invs, k - 1, x) + Mul(Mul(ys[k - 1], invs[k - 1]), NodeProduct(xs, k - 1, |xs|, x))
  }

  lemma {:induction false} EvalLagrange(xs: seq<int>, ys: seq<int>, invs: seq<int>, k: nat, x: int)
    requires |xs| == |ys| == |invs| && k <= |xs|
    ensures Eval(Lagrange(xs, ys, invs, k), x) == LagrangeSum(xs, ys, invs, k, x)
  {
    hide Mul;
    if k > 0 {
      EvalLagrange(xs, ys, invs, k - 1, x);
      var term := NodePoly(xs, k - 1, |xs|);
      EvalPlus(Lagrange(xs, ys, invs, k - 1), Scaled(Mul(ys[k - 1], invs[k - 1]), term), x);
      EvalScaled(Mul(ys[k - 1], invs[k - 1]), term, x);
      EvalNodePoly(xs, k - 1, |xs|, x);
    }
  }

  ghost predicate Inverses(p: int, xs: seq<int>, invs: seq<int>)
    requires p > 0
  {
    && |xs| == |invs|
    && forall i :: 0 <= i < |xs| ==> Same(p, Mul(NodeProduct(xs, i, |xs|, xs[i]), invs[i]), 1)
  }

  /** At node i only the i-th term survives, and it is the i-th value. */
  lemma {:induction false} LagrangeAtNode(p: int, xs: seq<int>, ys: seq<int>, invs: seq<int>, k: nat, i: nat)
    requires p > 0 && |ys| == |xs| && Inverses(p, xs, invs) && k <= |xs| && i < |xs|
    ensures Same(p, LagrangeSum(xs, ys, invs, k, xs[i]), if i < k then ys[i] else 0)
  {
    hide Zero, Mul;
    if k == 0 {
      SameRefl(p, 0);
    } else {
      LagrangeAtNode(p, xs, ys, invs, k - 1, i);
      var before := LagrangeSum(xs, ys, invs, k - 1, xs[i]);
      if k - 1 == i {
        SameRefl(p, ys[i]);
        OwnTerm(p, ys[i], invs[i], NodeProduct(xs, i, |xs|, xs[i]));
        SameAdd(p, before, 0, Mul(Mul(ys[i], invs[i]), NodeProduct(xs, i, |xs|, xs[i])), ys[i]);
      } else {
        OtherNode(xs, k - 1, |xs|, i);
        MulFacts(Mul(ys[k - 1], invs[k - 1]), 0, 0);
      }
    }
  }

  lemma OwnTerm(p: int, y: int, inv: int, product: int)
    requires p > 0 && Same(p, Mul(product, inv), 1)
    ensures Same(p, Mul(Mul(y, inv), product), y)
  {
    hide Zero, Mul;
    SameRefl(p, y);
    SameTimes(p, y, y, Mul(product, inv), 1);
    MulFacts(y, inv, product);
    MulFacts(product, inv, 0);
    MulFacts(y, 0, 0);
  }

  /**
   Two polynomials of at most n coefficients that agree at n points distinct modulo p have the same
   coefficients modulo p.
   */
  lemma AgreeingPolys(p: int, f: Poly, g: Poly, xs: seq<int>)
    requires Prime(p) && Incongruent(p, xs) && |f| <= |xs| && |g| <= |xs|
    requires forall i :: 0 <= i < |xs| ==> Same(p, Eval(f, xs[i]), Eval(g, xs[i]))
    ensures Vanishes(p, Minus(f, g))
  {
    PrimePositive(p);
    hide Zero, Prime, Mul, Eval, Minus;
    var d := Minus(f, g);
    forall x | x in xs ensures Zero(p, Eval(d, x)) {
      var i :| 0 <= i < |xs| && xs[i] == x;
      EvalMinus(f, g, x);
    }
    TooManyRoots(p, d, xs);
  }

  lemma LagrangeFits(p: int, xs: seq<int>, ys: seq<int>, invs: seq<int>, i: nat)
    requires p > 0 && i < |xs| == |ys| && Inverses(p, xs, invs)
    ensures Same(p, Eval(Lagrange(xs, ys, invs, |xs|), xs[i]), ys[i])
  {
    hide Zero, Mul, Eval, Lagrange, LagrangeSum;
    EvalLagrange(xs, ys, invs, |xs|, xs[i]);
    LagrangeAtNode(p, xs, ys, invs, |xs|, i);
  }

  lemma LagrangeIs(p: int, f: Poly, xs: seq<int>, ys: seq<int>, invs: seq<int>)
    requires Prime(p) && Incongruent(p, xs) && |f| <= |xs| == |ys| && Inverses(p, xs, invs)
    requires forall i :: 0 <= i < |xs| ==> Same(p, ys[i], Eval(f, xs[i]))
    ensures Vanishes(p, Minus(Lagrange(xs, ys, invs, |xs|), f))
  {
    PrimePositive(p);
    hide Same, Zero, Prime, Mul, Eval, Minus, Lagrange, LagrangeSum, Incongruent, Inverses, Vanishes;
    var g := Lagrange(xs, ys, invs, |xs|);
    forall i | 0 <= i < |xs| ensures Same(p, Eval(g, xs[i]), Eval(f, xs[i])) {
      LagrangeFits(p, xs, ys, invs, i);
      SameTrans(p, Eval(g, xs[i]), ys[i], Eval(f, xs[i]));
    }
    AgreeingPolys(p, g, f, xs);
  }

  /** Polynomials whose difference vanishes have the same values. */
  lemma SameValues(p: int, f: Poly, g: Poly, x: int)
    requires p > 0 && Vanishes(p, Minus(f, g))
    ensures Same(p, Eval(f, x), Eval(g, x))
  {
    hide Zero, Mul, Eval, Minus, Vanishes;
    VanishingEval(p, Minus(f, g), x);
    EvalMinus(f, g, x);
  }

  /** Lagrange's formula evaluated anywhere recovers a polynomial of at most n coefficients from n values. */
  lemma LagrangeRecovers(p: int, f: Poly, xs: seq<int>, ys: seq<int>, invs: seq<int>, x: int)
    requires Prime(p) && Incongruent(p, xs) && |f| <= |xs| == |ys| && Inverses(p, xs, invs)
    requires forall i :: 0 <= i < |xs| ==> Same(p, ys[i], Eval(f, xs[i]))
    ensures Same(p, LagrangeSum(xs, ys, invs, |xs|, x), Eval(f, x))
  {
    PrimePositive(p);
    hide Same, Zero, Prime, Mul, Eval, Minus, Lagrange, LagrangeSum, Incongruent, Inverses, Vanishes;
    LagrangeIs(p, f, xs, ys, invs);
    EvalLagrange(xs, ys, invs, |xs|, x);
    SameValues(p, Lagrange(xs, ys, invs, |xs|), f, x);
  }
}
