/** Enough shares give the secret back; fewer say nothing about it. */
module ShamirTheorems {
  import opened Collections
  import opened PrimeField
  import opened Polynomials
  import opened ByteStrings
  import opened ShareText
  import opened Shamir

  /** The chosen positions of a list. */
  function Picked<T>(xs: seq<T>, picks: seq<nat>): (r: seq<T>)
    requires forall i :: i in picks ==> i < |xs|
    ensures |r| == |picks|
  {
    seq(|picks|, k requires 0 <= k < |picks| => assert picks[k] in picks; xs[picks[k]])
  }

  function Point(p: nat, coefs: Poly, i: nat): (int, int)
    requires p > 0
  {
    (i + 1, Eval(coefs, i + 1) % p)
  }

  function Points(p: nat, coefs: Poly, picks: seq<nat>): (r: seq<(int, int)>)
    requires p > 0
    ensures |r| == |picks|
  {
    seq(|picks|, k requires 0 <= k < |picks| => Point(p, coefs, picks[k]))
  }

  function Printed(p: nat, coefs: Poly, picks: seq<nat>): (r: seq<string>)
    requires p > 0
    ensures |r| == |picks|
  {
    seq(|picks|, k requires 0 <= k < |picks| => Share(p, coefs, picks[k] + 1))
  }

  lemma {:induction false} PrintedParse(p: nat, coefs: Poly, picks: seq<nat>)
    requires p > 0
    ensures ParseAll(Printed(p, coefs, picks)) == Some(Points(p, coefs, picks))
  {
    hide ParseShare, PrintShare, Eval;
    if picks != [] {
      var last := |picks| - 1;
      PrintedParse(p, coefs, picks[..last]);
      ShareRoundTrip(picks[last] + 1, Eval(coefs, picks[last] + 1) % p);
      assert Printed(p, coefs, picks)[..last] == Printed(p, coefs, picks[..last]);
      assert Points(p, coefs, picks) == Points(p, coefs, picks[..last]) + [Point(p, coefs, picks[last])];
    }
  }

  /** Small distinct numbers are distinct modulo p. */
  lemma SmallNodes(p: nat, xs: seq<int>)
    requires p > 255 && NoDup(xs) && forall x :: x in xs ==> 0 <= x <= 255
    ensures Incongruent(p, xs)
  {
    forall i, j | 0 <= i < j < |xs| ensures !Same(p, xs[i], xs[j]) {
      assert xs[i] in xs && xs[j] in xs;
      if Same(p, xs[i], xs[j]) {
        SameSmall(p, xs[i], xs[j]);
      }
    }
  }

  lemma {:induction false} InversesExist(p: nat, xs: seq<int>, k: nat)
    requires Prime(p) && Incongruent(p, xs) && k <= |xs|
    ensures InversesOf(p, xs, k).Some?
  {
    PrimePositive(p);
    hide Prime, Zero, NodeProduct, Mul, Incongruent;
    if k > 0 {
      InversesExist(p, xs, k - 1);
      OwnNode(p, xs, k - 1, |xs|);
      PrimeInverse(NodeProduct(xs, k - 1, |xs|, xs[k - 1]), p);
    }
  }

  lemma PointsOfPoly(p: nat, coefs: Poly, picks: seq<nat>)
    requires p > 255 && NoDup(picks) && forall i :: i in picks ==> i < 255
    ensures !Repeats(Points(p, coefs, picks)) && Incongruent(p, Xs(Points(p, coefs, picks)))
    ensures forall k :: 0 <= k < |picks| ==>
      Same(p, Ys(Points(p, coefs, picks))[k], Eval(coefs, Xs(Points(p, coefs, picks))[k]))
  {
    var points := Points(p, coefs, picks);
    forall k | 0 <= k < |picks| ensures Xs(points)[k] == picks[k] + 1 <= 255 {
      assert picks[k] in picks;
    }
    SmallNodes(p, Xs(points));
    forall k | 0 <= k < |picks| ensures Same(p, Ys(points)[k], Eval(coefs, Xs(points)[k])) {
      SameMod(p, Eval(coefs, picks[k] + 1));
    }
  }

  lemma ValueAtZero(coefs: Poly)
    requires coefs != []
    ensures Eval(coefs, 0) == coefs[0]
  {
  }

  /** Combining the printed points of a polynomial unpacks its constant coefficient. */
  lemma CombineGivesConstant(s: Scheme, coefs: Poly, picks: seq<nat>)
    requires Prime(s.p) && s.p > 255 && NoDup(picks) && forall i :: i in picks ==> i < 255
    requires 0 < |coefs| <= |picks| && 0 <= coefs[0] < s.p
    ensures Combined(s, Printed(s.p, coefs, picks)) == Unpacked(s, coefs[0])
  {
    PrimePositive(s.p);
    hide Prime, Zero, Same, Mul, Eval, NodeProduct, LagrangeSum, Unpacked, Incongruent, Repeats;
    var points := Points(s.p, coefs, picks);
    var xs, ys := Xs(points), Ys(points);
    PrintedParse(s.p, coefs, picks);
    PointsOfPoly(s.p, coefs, picks);
    InversesExist(s.p, xs, |xs|);
    var invs := InversesOf(s.p, xs, |xs|).value;
    LagrangeRecovers(s.p, coefs, xs, ys, invs, 0);
    ValueAtZero(coefs);
    var sum := LagrangeSum(xs, ys, invs, |xs|, 0);
    ResidueOf(s.p, sum, coefs[0]);
  }

  lemma ResidueOf(p: nat, a: int, b: int)
    requires Same(p, a, b) && 0 <= b < p
    ensures a % p == b
  {
    SameResidue(p, a, b);
  }

  /** Unpacking undoes packing, except that an empty secret is refused. */
  lemma UnpackPacked(s: Scheme, secret: seq<Byte>)
    ensures Unpacked(s, FromBytes(Payload(s, secret))) == if secret == [] then Err(Invalid) else Ok(secret)
  {
    hide FromBytes, ShortestBytes;
    var raw := Payload(s, secret);
    BytesRoundTrip(raw);
    assert raw[1..|raw| - 8] == secret && raw[|raw| - 8..] == s.check(secret);
  }

  /** A number unpacks to a secret exactly if it is the packed form of it, and the secret is not empty. */
  lemma UnpacksOnlyPacked(s: Scheme, value: nat, secret: seq<Byte>)
    ensures Unpacked(s, value) == Ok(secret) <==> secret != [] && value == FromBytes(Payload(s, secret))
  {
    UnpackPacked(s, secret);
    hide FromBytes, ShortestBytes;
    NumberRoundTrip(value);
    if Unpacked(s, value) == Ok(secret) {
      var raw := ShortestBytes(value);
      assert raw == [1] + raw[1..|raw| - 8] + raw[|raw| - 8..];
      assert raw == Payload(s, secret);
    }
  }

  lemma {:induction false} ParsedPointwise(shares: seq<string>)
    ensures ParseAll(shares).None? <==> exists i :: 0 <= i < |shares| && ParseShare(shares[i]).None?
    ensures ParseAll(shares).Some? ==>
      |ParseAll(shares).value| == |shares|
      && forall i :: 0 <= i < |shares| ==> ParseShare(shares[i]) == Some(ParseAll(shares).value[i])
  {
    hide ParseShare;
    if shares != [] {
      ParsedPointwise(shares[..|shares| - 1]);
      assert forall i :: 0 <= i < |shares| - 1 ==> shares[..|shares| - 1][i] == shares[i];
    }
  }

  /** Shares are refused as malformed if one cannot be read, and as repeated if two that can be have the same number. */
  lemma SharesAreRefused(s: Scheme, shares: seq<string>)
    requires s.p > 1
    ensures Combined(s, shares) == Err(Malformed) <==> exists i :: 0 <= i < |shares| && ParseShare(shares[i]).None?
    ensures Combined(s, shares) == Err(Duplicate) <==>
      && (forall i :: 0 <= i < |shares| ==> ParseShare(shares[i]).Some?)
      && exists i, j :: 0 <= i < j < |shares| && ParseShare(shares[i]).value.0 == ParseShare(shares[j]).value.0
  {
    hide ParseShare, InversesOf, LagrangeSum, ShortestBytes;
    ParsedPointwise(shares);
    if ParseAll(shares).Some? {
      var points := ParseAll(shares).value;
      if i, j :| 0 <= i < j < |shares| && ParseShare(shares[i]).value.0 == ParseShare(shares[j]).value.0 {
        assert points[i].0 == points[j].0;
      }
      if Repeats(points) {
        var i, j :| 0 <= i < j < |points| && points[i].0 == points[j].0;
        assert ParseShare(shares[i]).value.0 == ParseShare(shares[j]).value.0;
      }
    }
  }

  /** Splitting is refused for impossible numbers and too large a secret; otherwise each share has a text of its own. */
  lemma SplitOutcome(s: Scheme, secret: seq<Byte>, shares: int, threshold: int, random: seq<int>)
    requires s.p > 0
    ensures var r := Shares(s, secret, shares, threshold, random);
      if threshold < 1 || threshold > shares || shares > 255 then r == Err(BadParameters)
      else if FromBytes([1] + secret + s.check(secret)) >= s.p then r == Err(SecretTooLarge)
      else
        && r.Ok? && |r.value| == shares
        && forall i :: 0 <= i < shares ==>
             ParseShare(r.value[i]) == Some((i + 1, Eval([FromBytes([1] + secret + s.check(secret)) as int] + random, i
                                                         + 1) % s.p))
  {
    hide FromBytes, ParseShare, PrintShare, Eval;
    var coefs := Coefficients(s, secret, random);
    var r := Shares(s, secret, shares, threshold, random);
    if r.Ok? {
      forall i | 0 <= i < shares ensures ParseShare(r.value[i]) == Some((i + 1, Eval(coefs, i + 1) % s.p)) {
        assert r.value[i] == Share(s.p, coefs, i + 1);
        ShareRoundTrip(i + 1, Eval(coefs, i + 1) % s.p);
      }
    }
  }

  // ---- What any points combine to ----

  /** A polynomial with one coefficient for each point, through all of them modulo p. */
  ghost predicate Through(p: nat, coefs: Poly, points: seq<(int, int)>) {
    && |coefs| == |points| && (forall c :: c in coefs ==> 0 <= c < p)
    && forall i :: 0 <= i < |points| ==> Same(p, points[i].1, Eval(coefs, points[i].0))
  }

  lemma SomePolynomial(p: nat, points: seq<(int, int)>) returns (coefs: Poly)
    requires Prime(p) && Incongruent(p, Xs(points))
    ensures Through(p, coefs, points)
  {
    PrimePositive(p);
    hide Prime, Zero, Same, Mul, Eval, NodeProduct, Lagrange, Incongruent;
    var xs, ys, n := Xs(points), Ys(points), |points|;
    InversesExist(p, xs, n);
    var invs := InversesOf(p, xs, n).value;
    var f := Lagrange(xs, ys, invs, n);
    coefs := Reduced(p, f);
    forall i | 0 <= i < n ensures Same(p, points[i].1, Eval(coefs, points[i].0)) {
      ReducedEval(p, f, xs[i]);
      LagrangeFits(p, xs, ys, invs, i);
      SameTrans(p, Eval(coefs, xs[i]), Eval(f, xs[i]), ys[i]);
      SameSym(p, Eval(coefs, xs[i]), ys[i]);
    }
  }

  lemma DistinctNodes(p: nat, points: seq<(int, int)>)
    requires p > 1 && Incongruent(p, Xs(points))
    ensures !Repeats(points)
  {
    hide Same;
    forall i, j | 0 <= i < j < |points| ensures points[i].0 != points[j].0 {
      SameRefl(p, points[i].0);
      assert !Same(p, Xs(points)[i], Xs(points)[j]);
    }
  }

  lemma CombineGivesValue(s: Scheme, shares: seq<string>, points: seq<(int, int)>, coefs: Poly)
    requires Prime(s.p) && ParseAll(shares) == Some(points) && points != [] && Incongruent(s.p, Xs(points))
    requires Through(s.p, coefs, points)
    ensures s.p > 1 && coefs != [] && coefs[0] >= 0 && Combined(s, shares) == Unpacked(s, coefs[0])
  {
    PrimePositive(s.p);
    hide Prime, Zero, Same, Mul, Eval, NodeProduct, LagrangeSum, Unpacked, Incongruent, Repeats, ParseAll;
    var xs, ys := Xs(points), Ys(points);
    DistinctNodes(s.p, points);
    InversesExist(s.p, xs, |xs|);
    var invs := InversesOf(s.p, xs, |xs|).value;
    LagrangeRecovers(s.p, coefs, xs, ys, invs, 0);
    ValueAtZero(coefs);
    assert coefs[0] in coefs;
    ResidueOf(s.p, LagrangeSum(xs, ys, invs, |xs|, 0), coefs[0]);
  }

  /**
   Whatever is submitted, as long as the points have distinct nodes: a secret comes out exactly if it is not empty and
   its packed form is the value at zero of the polynomial through them.
   */
  lemma CombinesToInterpolated(s: Scheme, shares: seq<string>, points: seq<(int, int)>, secret: seq<Byte>)
    requires Prime(s.p) && ParseAll(shares) == Some(points) && points != [] && Incongruent(s.p, Xs(points))
    ensures s.p > 1
    ensures Combined(s, shares) == Ok(secret) <==>
      secret != [] && exists coefs: Poly :: Through(s.p, coefs, points) && coefs[0] == FromBytes(Payload(s, secret))
  {
    PrimePositive(s.p);
    hide Prime, Combined, Through, Unpacked, FromBytes, Payload, Incongruent, ParseAll;
    var some := SomePolynomial(s.p, points);
    CombineGivesValue(s, shares, points, some);
    UnpacksOnlyPacked(s, some[0], secret);
    forall coefs: Poly | Through(s.p, coefs, points)
      ensures coefs != [] && coefs[0] >= 0 && Combined(s, shares) == Unpacked(s, coefs[0])
    {
      CombineGivesValue(s, shares, points, coefs);
      UnpacksOnlyPacked(s, coefs[0], secret);
    }
    forall coefs: Poly | Through(s.p, coefs, points) && coefs[0] == FromBytes(Payload(s, secret)) && secret != []
      ensures Combined(s, shares) == Ok(secret)
    {
      UnpacksOnlyPacked(s, coefs[0], secret);
    }
  }

  /**
   Reconstruction: any selection of at least `threshold` distinct shares, in any order, gives the secret
   back. The one secret that cannot be brought back is the empty one.
   */
  lemma Reconstruction(s: Scheme, secret: seq<Byte>, shares: int, threshold: int, random: seq<int>, picks: seq<nat>)
    requires Prime(s.p) && s.p > 255
    requires Shares(s, secret, shares, threshold, random).Ok? && Draws(s.p, random, threshold)
    requires NoDup(picks) && |picks| >= threshold && forall i :: i in picks ==> i < shares
    ensures Combined(s, Picked(Shares(s, secret, shares, threshold, random).value, picks))
         == if secret == [] then Err(Invalid) else Ok(secret)
  {
    hide Combined, Prime, Payload, FromBytes, Share;
    var coefs := Coefficients(s, secret, random);
    var all := Shares(s, secret, shares, threshold, random).value;
    forall k | 0 <= k < |picks| ensures Picked(all, picks)[k] == Printed(s.p, coefs, picks)[k] {
      assert picks[k] in picks;
    }
    assert Picked(all, picks) == Printed(s.p, coefs, picks);
    CombineGivesConstant(s, coefs, picks);
    UnpackPacked(s, secret);
  }

  // ---- Fewer than threshold shares ----

  /** Coefficients that give the candidate value as constant and the held shares. */
  ghost predicate Explains(p: nat, coefs: Poly, value: int, xs: seq<int>, ys: seq<int>)
    requires p > 0 && |xs| == |ys|
  {
    && |coefs| == |xs| + 1 && coefs[0] == value
    && (forall i :: 0 <= i < |coefs| ==> 0 <= coefs[i] < p)
    && forall i :: 0 <= i < |xs| ==> Eval(coefs, xs[i]) % p == ys[i]
  }

  function Reduced(p: nat, f: Poly): (g: Poly)
    requires p > 0
    ensures |g| == |f| && forall i :: 0 <= i < |f| ==> g[i] == f[i] % p && 0 <= g[i] < p
  {
    seq(|f|, i requires 0 <= i < |f| => f[i] % p)
  }

  lemma {:induction false} ReducedEval(p: nat, f: Poly, x: int)
    requires p > 0
    ensures Same(p, Eval(Reduced(p, f), x), Eval(f, x))
  {
    hide Zero, Mul;
    if f == [] {
      SameRefl(p, 0);
    } else {
      ReducedEval(p, f[1..], x);
      assert Reduced(p, f)[1..] == Reduced(p, f[1..]);
      SameMod(p, f[0]);
      SameRefl(p, x);
      SameTimes(p, x, x, Eval(Reduced(p, f[1..]), x), Eval(f[1..], x));
      SameAdd(p, f[0] % p, f[0], Mul(x, Eval(Reduced(p, f[1..]), x)), Mul(x, Eval(f[1..], x)));
    }
  }

  ghost predicate HeldShares(p: nat, value: int, xs: seq<int>, ys: seq<int>) {
    && Prime(p) && 0 <= value < p && |xs| == |ys|
    && Incongruent(p, [0] + xs)
    && forall y :: y in ys ==> 0 <= y < p
  }

  lemma SomeExplanation(p: nat, value: int, xs: seq<int>, ys: seq<int>) returns (coefs: Poly)
    requires HeldShares(p, value, xs, ys)
    ensures Explains(p, coefs, value, xs, ys)
  {
    PrimePositive(p);
    hide Prime, Zero, Same, Mul, Eval, NodeProduct, Lagrange, Incongruent;
    var nodes, values := [0] + xs, [value] + ys;
    var n := |nodes|;
    InversesExist(p, nodes, n);
    var invs := InversesOf(p, nodes, n).value;
    var f := Lagrange(nodes, values, invs, n);
    coefs := Reduced(p, f);
    forall i | 0 <= i < n ensures Eval(coefs, nodes[i]) % p == values[i] {
      ReducedEval(p, f, nodes[i]);
      LagrangeFits(p, nodes, values, invs, i);
      SameTrans(p, Eval(coefs, nodes[i]), Eval(f, nodes[i]), values[i]);
      if i > 0 { assert values[i] in ys; }
      ResidueOf(p, Eval(coefs, nodes[i]), values[i]);
    }
    assert nodes[0] == 0 && values[0] == value;
    ValueAtZero(coefs);
    SmallResidue(p, coefs[0]);
    forall i | 0 <= i < |xs| ensures Eval(coefs, xs[i]) % p == ys[i] {
      assert nodes[i + 1] == xs[i] && values[i + 1] == ys[i];
    }
  }

  lemma SmallResidue(p: nat, a: int)
    requires 0 <= a < p
    ensures a % p == a
  {
  }

  lemma OneExplanation(p: nat, value: int, xs: seq<int>, ys: seq<int>, f: Poly, g: Poly)
    requires HeldShares(p, value, xs, ys) && Explains(p, f, value, xs, ys) && Explains(p, g, value, xs, ys)
    ensures f == g
  {
    PrimePositive(p);
    hide Prime, Zero, Mul, Eval, Incongruent;
    var nodes := [0] + xs;
    forall i | 0 <= i < |nodes| ensures Same(p, Eval(f, nodes[i]), Eval(g, nodes[i])) {
      ValueAtZero(f);
      ValueAtZero(g);
      SameResidue(p, Eval(f, nodes[i]), Eval(g, nodes[i]));
    }
    AgreeingPolys(p, f, g, nodes);
    forall i | 0 <= i < |f| ensures f[i] == g[i] {
      assert Zero(p, Minus(f, g)[i]);
      SameSmall(p, f[i], g[i]);
    }
  }

  /**
   Hiding: whatever threshold - 1 shares are held, and whatever value is guessed for the secret, exactly one
   choice of the random coefficients produces those shares from that value. The shares favour no value.
   */
  lemma Hiding(p: nat, value: int, xs: seq<int>, ys: seq<int>) returns (coefs: Poly)
    requires Prime(p) && 0 <= value < p && |xs| == |ys|
    requires p > 255 && NoDup(xs) && forall x :: x in xs ==> 1 <= x <= 255
    requires forall y :: y in ys ==> 0 <= y < p
    ensures Explains(p, coefs, value, xs, ys)
    ensures forall other :: Explains(p, other, value, xs, ys) ==> other == coefs
  {
    hide Explains;
    var nodes := [0] + xs;
    forall x | x in nodes ensures 0 <= x <= 255 {
      var i :| 0 <= i < |nodes| && nodes[i] == x;
      if i > 0 { assert xs[i - 1] in xs; }
    }
    forall i, j | 0 <= i < j < |nodes| ensures nodes[i] != nodes[j] {
      assert xs[j - 1] in xs;
    }
    SmallNodes(p, nodes);
    coefs := SomeExplanation(p, value, xs, ys);
    forall other | Explains(p, other, value, xs, ys) ensures other == coefs {
      OneExplanation(p, value, xs, ys, other, coefs);
    }
  }
}
