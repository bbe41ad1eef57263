/**
 Shamir secret sharing as the key custody uses it: a marked, checksummed byte string is the constant
 coefficient of a polynomial modulo a prime p, a share is a printed point, and Lagrange's formula at 0
 brings the byte string back. The checksum function and the random coefficients are parameters.
 */
module Shamir {
  import opened Collections
  import opened PrimeField
  import opened Polynomials
  import opened ByteStrings
  import opened ShareText

  type Checksum = s: seq<Byte> | |s| == 8 witness [0, 0, 0, 0, 0, 0, 0, 0]

  datatype Error = BadParameters | SecretTooLarge | Malformed | Duplicate | NotInvertible | Invalid

  datatype Result<+T> = Ok(value: T) | Err(error: Error)

  datatype Scheme = Scheme(p: nat, check: seq<Byte> -> Checksum)

  /** A marker byte (it keeps leading zero bytes), the secret, and its checksum. */
  function Payload(s: Scheme, secret: seq<Byte>): seq<Byte> { [1] + secret + s.check(secret) }

  function Share(p: nat, coefs: Poly, x: nat): string
    requires p > 0
  {
    PrintShare(x, Eval(coefs, x) % p)
  }

  predicate Draws(p: nat, random: seq<int>, threshold: int) {
    |random| == threshold - 1 && forall c :: c in random ==> 0 <= c < p
  }

  function Coefficients(s: Scheme, secret: seq<Byte>, random: seq<int>): Poly {
    [FromBytes(Payload(s, secret)) as int] + random
  }

  function Shares(s: Scheme, secret: seq<Byte>, shares: int, threshold: int, random: seq<int>): Result<seq<string>>
    requires s.p > 0
  {
    if !(1 <= threshold <= shares <= 255) then Err(BadParameters)
    else if FromBytes(Payload(s, secret)) >= s.p then Err(SecretTooLarge)
    else Ok(seq(shares, i requires 0 <= i < shares => Share(s.p, Coefficients(s, secret, random), i + 1)))
  }

  lemma HornerStep(p: nat, f: Poly, i: nat, x: int)
    requires p > 0 && i < |f|
    ensures (Mul(Eval(f[i + 1..], x) % p, x) + f[i]) % p == Eval(f[i..], x) % p
  {
    hide Zero, Mul;
    var tail := Eval(f[i + 1..], x);
    EvalTail(f, x, i);
    SameMod(p, tail);
    SameRefl(p, x);
    SameRefl(p, f[i]);
    SameTimes(p, tail % p, tail, x, x);
    SameAdd(p, Mul(tail % p, x), Mul(tail, x), f[i], f[i]);
    MulFacts(tail, x, 0);
    SameResidue(p, Mul(tail % p, x) + f[i], Eval(f[i..], x));
  }

  method Evaluate(p: nat, coefs: Poly, x: int) returns (y: int)
    requires p > 0
    ensures y == Eval(coefs, x) % p
  {
    hide Mul;
    y := 0;
    var i := |coefs|;
    assert coefs[i..] == [];
    while i > 0
      invariant 0 <= i <= |coefs| && y == Eval(coefs[i..], x) % p
    {
      HornerStep(p, coefs, i - 1, x);
      i := i - 1;
      y := (Mul(y, x) + coefs[i]) % p;
    }
    assert coefs[0..] == coefs;
  }

  method SplitSecret(s: Scheme, secret: seq<Byte>, shares: int, threshold: int, random: seq<int>)
    returns (r: Result<seq<string>>)
    requires s.p > 0 && (1 <= threshold <= shares <= 255 ==> Draws(s.p, random, threshold))
    ensures r == Shares(s, secret, shares, threshold, random)
  {
    if !(1 <= threshold <= shares <= 255) {
      return Err(BadParameters);
    }
    var value := FromBytes(Payload(s, secret));
    if value >= s.p {
      return Err(SecretTooLarge);
    }
    var coefficients := [value as int] + random;
    var result := [];
    for x := 1 to shares + 1
      invariant result == seq(x - 1, i requires 0 <= i < x - 1 => Share(s.p, Coefficients(s, secret, random), i + 1))
    {
      var y := Evaluate(s.p, coefficients, x);
      result := result + [PrintShare(x, y)];
    }
    r := Ok(result);
  }

  // ---- Combining ----

  function ParseAll(shares: seq<string>): Option<seq<(int, int)>> {
    if shares == [] then Some([])
    else
      match (ParseAll(shares[..|shares| - 1]), ParseShare(shares[|shares| - 1]))
      case (Some(points), Some(point)) => Some(points + [point])
      case _ => None
  }

  function Xs(points: seq<(int, int)>): (xs: seq<int>)
    ensures |xs| == |points|
  {
    seq(|points|, i requires 0 <= i < |points| => points[i].0)
  }

  function Ys(points: seq<(int, int)>): (ys: seq<int>)
    ensures |ys| == |points|
  {
    seq(|points|, i requires 0 <= i < |points| => points[i].1)
  }

  predicate Repeats(points: seq<(int, int)>) {
    exists i, j :: 0 <= i < j < |points| && points[i].0 == points[j].0
  }

  /** The inverses of the first k denominators, or nothing when one has none. */
  function InversesOf(p: nat, xs: seq<int>, k: nat): (r: Option<seq<int>>)
    requires p > 1 && k <= |xs|
    ensures r.Some? ==> |r.value| == k
    ensures r.Some? ==> forall i :: 0 <= i < k ==> Same(p, Mul(NodeProduct(xs, i, |xs|, xs[i]), r.value[i]), 1)
  {
    if k == 0 then Some([])
    else
      match (InversesOf(p, xs, k - 1), Inverse(NodeProduct(xs, k - 1, |xs|, xs[k - 1]), p))
      case (Some(invs), Some(inv)) => Some(invs + [inv])
      case _ => None
  }

  /** Strip marker and checksum, after checking them. */
  function Unpacked(s: Scheme, value: nat): Result<seq<Byte>> {
    var raw := ShortestBytes(value);
    if |raw| < 10 || raw[0] != 1 then Err(Invalid)
    else if s.check(raw[1..|raw| - 8]) != raw[|raw| - 8..] then Err(Invalid)
    else Ok(raw[1..|raw| - 8])
  }

  function Combined(s: Scheme, shares: seq<string>): Result<seq<Byte>>
    requires s.p > 1
  {
    match ParseAll(shares)
    case None => Err(Malformed)
    case Some(points) =>
      if Repeats(points) then Err(Duplicate)
      else
        match InversesOf(s.p, Xs(points), |points|)
        case None => Err(NotInvertible)
        case Some(invs) => Unpacked(s, LagrangeSum(Xs(points), Ys(points), invs, |points|, 0) % s.p)
  }

  method ParseShares(shares: seq<string>) returns (r: Option<seq<(int, int)>>)
    ensures r == ParseAll(shares)
  {
    var points := [];
    for i := 0 to |shares|
      invariant ParseAll(shares[..i]) == Some(points)
    {
      assert shares[..i + 1][..i] == shares[..i];
      match ParseShare(shares[i])
      case None =>
        NoneAfter(shares, i + 1);
        return None;
      case Some(point) => points := points + [point];
    }
    assert shares[..|shares|] == shares;
    r := Some(points);
  }

  lemma {:induction false} NoneAfter(shares: seq<string>, i: nat)
    requires i <= |shares| && ParseAll(shares[..i]).None?
    ensures ParseAll(shares).None?
    decreases |shares|
  {
    if i < |shares| {
      assert shares[..|shares| - 1][..i] == shares[..i];
      NoneAfter(shares[..|shares| - 1], i);
    } else {
      assert shares[..i] == shares;
    }
  }

  lemma ProductStep(p: nat, a: int, b: int)
    requires p > 0
    ensures Mul(a % p, b) % p == Mul(a, b) % p
  {
    hide Zero, Mul;
    SameMod(p, a);
    SameRefl(p, b);
    SameTimes(p, a % p, a, b, b);
    SameResidue(p, Mul(a % p, b), Mul(a, b));
  }

  /** Numerator and denominator of one Lagrange term, reduced modulo p as they grow. */
  method NodeFraction(p: nat, points: seq<(int, int)>, i: nat) returns (numerator: int, denominator: int)
    requires p > 1 && i < |points|
    ensures numerator == NodeProduct(Xs(points), i, |points|, 0) % p
    ensures denominator == NodeProduct(Xs(points), i, |points|, points[i].0) % p
  {
    hide Mul;
    numerator, denominator := 1, 1;
    ghost var xs := Xs(points);
    for j := 0 to |points|
      invariant numerator == NodeProduct(xs, i, j, 0) % p
      invariant denominator == NodeProduct(xs, i, j, points[i].0) % p
    {
      if i != j {
        ProductStep(p, NodeProduct(xs, i, j, 0), 0 - points[j].0);
        ProductStep(p, NodeProduct(xs, i, j, points[i].0), points[i].0 - points[j].0);
        numerator := Mul(numerator, 0 - points[j].0) % p;
        denominator := Mul(denominator, points[i].0 - points[j].0) % p;
      }
    }
  }

  lemma InverseOfResidue(d: int, p: nat)
    requires p > 1
    ensures Inverse(d % p, p) == Inverse(d, p)
  {
    assert (d % p) % p == d % p;
  }

  /** Adding one Lagrange term modulo p. */
  lemma TermStep(p: nat, sum: int, y: int, numerator: int, inv: int)
    requires p > 0
    ensures (sum % p + Mul(Mul(y, numerator % p), inv)) % p == (sum + Mul(Mul(y, inv), numerator)) % p
  {
    hide Zero, Mul;
    SameMod(p, sum);
    SameMod(p, numerator);
    SameRefl(p, y);
    SameRefl(p, inv);
    SameTimes(p, y, y, numerator % p, numerator);
    SameTimes(p, Mul(y, numerator % p), Mul(y, numerator), inv, inv);
    SameAdd(p, sum % p, sum, Mul(Mul(y, numerator % p), inv), Mul(Mul(y, numerator), inv));
    MulFacts(y, numerator, inv);
    MulFacts(numerator, inv, 0);
    MulFacts(y, inv, numerator);
    SameResidue(p, sum % p + Mul(Mul(y, numerator % p), inv), sum + Mul(Mul(y, inv), numerator));
  }

  lemma {:induction false} SumPrefix(xs: seq<int>, ys: seq<int>, invs: seq<int>, more: seq<int>, k: nat, x: int)
    requires |xs| == |ys| == |invs| == |more| && k <= |xs|
    requires forall i :: 0 <= i < k ==> invs[i] == more[i]
    ensures LagrangeSum(xs, ys, invs, k, x) == LagrangeSum(xs, ys, more, k, x)
  {
    if k > 0 {
      SumPrefix(xs, ys, invs, more, k - 1, x);
    }
  }

  lemma {:induction false} InversesExtend(p: nat, xs: seq<int>, k: nat)
    requires p > 1 && k <= |xs|
    ensures InversesOf(p, xs, k).None? ==> InversesOf(p, xs, |xs|).None?
    decreases |xs| - k
  {
    if k < |xs| {
      InversesExtend(p, xs, k + 1);
    }
  }

  function Padded(invs: seq<int>, n: nat): (r: seq<int>)
    requires |invs| <= n
    ensures |r| == n && forall i :: 0 <= i < |invs| ==> r[i] == invs[i]
  {
    invs + seq(n - |invs|, i => 0)
  }

  method CombineShares(s: Scheme, shares: seq<string>) returns (r: Result<seq<Byte>>)
    requires s.p > 1
    ensures r == Combined(s, shares)
  {
    hide Mul, ParseAll, NodeProduct;
    var parsed := ParseShares(shares);
    if parsed.None? {
      return Err(Malformed);
    }
    var points := parsed.value;
    if Repeats(points) {
      return Err(Duplicate);
    }
    var secret := 0;
    ghost var xs, ys, n := Xs(points), Ys(points), |points|;
    ghost var invs := [];
    for i := 0 to |points|
      invariant InversesOf(s.p, xs, i) == Some(invs)
      invariant secret == LagrangeSum(xs, ys, Padded(invs, n), i, 0) % s.p
    {
      var numerator, denominator := NodeFraction(s.p, points, i);
      InverseOfResidue(NodeProduct(xs, i, n, xs[i]), s.p);
      match Inverse(denominator, s.p)
      case None =>
        InversesExtend(s.p, xs, i + 1);
        return Err(NotInvertible);
      case Some(inv) =>
        TermStep(s.p, LagrangeSum(xs, ys, Padded(invs, n), i, 0), points[i].1, NodeProduct(xs, i, n, 0), inv);
        SumPrefix(xs, ys, Padded(invs, n), Padded(invs + [inv], n), i, 0);
        secret := (secret + Mul(Mul(points[i].1, numerator), inv)) % s.p;
        invs := invs + [inv];
    }
    assert Padded(invs, n) == invs;
    r := Unpacked(s, secret);
  }
}
