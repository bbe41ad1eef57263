/** Arithmetic modulo a prime, over the integers: what it means to vanish modulo p, and inverses. */
module PrimeField {
  import opened Collections

  ghost predicate Prime(p: int) {
    p > 1 && forall d :: 1 < d < p ==> p % d != 0
  }

  /** A product, named so that proofs which do not look inside it can hide it. */
  function Mul(a: int, b: int): int { a * b }

  lemma MulFacts(a: int, b: int, c: int)
    ensures Mul(a, b) == Mul(b, a)
    ensures Mul(a, b + c) == Mul(a, b) + Mul(a, c)
    ensures Mul(a, b - c) == Mul(a, b) - Mul(a, c)
    ensures Mul(a, Mul(b, c)) == Mul(Mul(a, b), c) == Mul(b, Mul(a, c))
    ensures Mul(a, 0) == 0 && Mul(a, 1) == a && Mul(-a, b) == -Mul(a, b)
  {
  }

  /** `a` vanishes modulo `p`. */
  ghost predicate Zero(p: int, a: int) { p > 0 && a % p == 0 }

  ghost predicate Same(p: int, a: int, b: int) { Zero(p, a - b) }

  lemma MultipleIsZero(p: int, k: int)
    requires p > 0
    ensures Zero(p, p * k)
  {
    var q, r := (p * k) / p, (p * k) % p;
    assert p * k == p * q + r;
    Distribute(p, k, q);
    Squeeze(p, k - q, r);
  }

  lemma Distribute(p: int, k: int, q: int)
    ensures p * (k - q) == p * k - p * q
  {
  }

  /** The only multiple of `p` strictly between -p and p is 0. */
  lemma Squeeze(p: int, m: int, r: int)
    requires p > 0 && p * m == r && -p < r < p
    ensures m == 0 && r == 0
  {
    assert m >= 1 ==> p * m >= p;
    assert m <= -1 ==> p * m <= -p;
  }

  lemma ZeroIsMultiple(p: int, a: int) returns (k: int)
    requires Zero(p, a)
    ensures a == p * k
  {
    k := a / p;
  }

  lemma ZeroAdd(p: int, a: int, b: int)
    requires Zero(p, a) && Zero(p, b)
    ensures Zero(p, a + b) && Zero(p, a - b)
  {
    var j := ZeroIsMultiple(p, a);
    var k := ZeroIsMultiple(p, b);
    MultipleIsZero(p, j + k);
    MultipleIsZero(p, j - k);
    assert p * (j + k) == a + b && p * (j - k) == a - b;
  }

  lemma ZeroTimes(p: int, a: int, b: int)
    requires Zero(p, a)
    ensures Zero(p, Mul(a, b)) && Zero(p, Mul(b, a))
  {
    var k := ZeroIsMultiple(p, a);
    MultipleIsZero(p, k * b);
    assert p * (k * b) == a * b == b * a;
  }

  lemma SameMod(p: int, a: int)
    requires p > 0
    ensures Same(p, a % p, a) && Same(p, a, a % p) && 0 <= a % p < p
  {
    MultipleIsZero(p, a / p);
    MultipleIsZero(p, -(a / p));
    assert a - a % p == p * (a / p) && a % p - a == p * (-(a / p));
  }

  lemma SameRefl(p: int, a: int)
    requires p > 0
    ensures Same(p, a, a)
  {
    MultipleIsZero(p, 0);
  }

  lemma SameSym(p: int, a: int, b: int)
    requires Same(p, a, b)
    ensures Same(p, b, a)
  {
    SameRefl(p, a);
    hide Zero;
    ZeroAdd(p, 0, a - b);
  }

  lemma SameTrans(p: int, a: int, b: int, c: int)
    requires Same(p, a, b) && Same(p, b, c)
    ensures Same(p, a, c)
  {
    hide Zero;
    ZeroAdd(p, a - b, b - c);
  }

  lemma SameAdd(p: int, a: int, b: int, c: int, d: int)
    requires Same(p, a, b) && Same(p, c, d)
    ensures Same(p, a + c, b + d)
  {
    hide Zero;
    ZeroAdd(p, a - b, c - d);
    assert (a - b) + (c - d) == (a + c) - (b + d);
  }

  lemma SameTimes(p: int, a: int, b: int, c: int, d: int)
    requires Same(p, a, b) && Same(p, c, d)
    ensures Same(p, Mul(a, c), Mul(b, d))
  {
    hide Zero, Mul;
    ZeroTimes(p, a - b, c);
    ZeroTimes(p, c - d, b);
    MulFacts(c, a, b);
    MulFacts(b, c, d);
    MulFacts(a, c, d);
    MulFacts(b, d, c);
    ZeroAdd(p, Mul(a - b, c), Mul(b, c - d));
    MulFacts(a - b, c, 0);
  }

  lemma SameSmall(p: int, a: int, b: int)
    requires Same(p, a, b) && 0 <= a < p && 0 <= b < p
    ensures a == b
  {
    var k := ZeroIsMultiple(p, a - b);
    Squeeze(p, k, a - b);
  }

  /** Residues agree exactly when the numbers vanish together. */
  lemma SameResidue(p: int, a: int, b: int)
    requires p > 0
    ensures Same(p, a, b) <==> a % p == b % p
  {
    hide Zero;
    SameMod(p, a);
    SameMod(p, b);
    if Same(p, a, b) {
      SameTrans(p, a % p, a, b);
      SameTrans(p, a % p, b, b % p);
      SameSmall(p, a % p, b % p);
    }
    if a % p == b % p {
      SameTrans(p, a, a % p, b);
    }
  }

  // ---- Inverses ----

  datatype Bezout = Bezout(g: nat, x: int, y: int)

  /** Extended Euclid. */
  function Euclid(a: nat, b: nat): (r: Bezout)
    ensures a * r.x + b * r.y == r.g
    ensures a > 0 || b > 0 ==> r.g > 0 && a % r.g == 0 && b % r.g == 0
    decreases b
  {
    if b == 0 then Bezout(a, 1, 0)
    else
      var s := Euclid(b, a % b);
      var q := a / b;
      EuclidStep(a, b, s);
      Bezout(s.g, s.y, s.x - q * s.y)
  }

  lemma EuclidStep(a: nat, b: nat, s: Bezout)
    requires b > 0 && b * s.x + (a % b) * s.y == s.g
    requires s.g > 0 && b % s.g == 0 && (a % b) % s.g == 0
    ensures a * s.y + b * (s.x - (a / b) * s.y) == s.g
    ensures a % s.g == 0
  {
    var q := a / b;
    assert a == b * q + a % b;
    calc {
      a * s.y + b * (s.x - q * s.y);
      a * s.y + b * s.x - b * (q * s.y);
      { assert b * (q * s.y) == (b * q) * s.y; }
      (a - b * q) * s.y + b * s.x;
    }
    ZeroTimes(s.g, b, q);
    ZeroAdd(s.g, b * q, a % b);
  }

  /** The inverse of `d` modulo `p`, when there is one. */
  function Inverse(d: int, p: nat): (r: Option<int>)
    requires p > 1
    ensures r.Some? ==> 0 <= r.value < p && Same(p, Mul(d, r.value), 1)
  {
    var b := Euclid(d % p, p);
    if b.g == 1 then
      InverseWorks(d, p, b);
      Some(b.x % p)
    else None
  }

  lemma InverseWorks(d: int, p: nat, b: Bezout)
    requires p > 1 && (d % p) * b.x + p * b.y == 1
    ensures Same(p, Mul(d, b.x % p), 1)
  {
    hide Zero;
    SameMod(p, d);
    SameMod(p, b.x);
    SameTimes(p, d, d % p, b.x % p, b.x);
    MultipleIsZero(p, -b.y);
    assert (d % p) * b.x - 1 == p * (-b.y);
    SameTrans(p, Mul(d, b.x % p), Mul(d % p, b.x), 1);
  }

  /** Modulo a prime everything that does not vanish has an inverse. */
  lemma PrimeInverse(d: int, p: nat)
    requires Prime(p) && !Zero(p, d)
    ensures Inverse(d, p).Some?
  {
    hide Euclid;
    var b := Euclid(d % p, p);
    DivisorIsSmall(p, b.g);
    DivisorIsSmall(d % p, b.g);
  }

  lemma DivisorIsSmall(n: nat, g: nat)
    requires n > 0 && g > 0 && n % g == 0
    ensures g <= n
  {
  }

  /** A product vanishes modulo a prime only if a factor does. */
  lemma PrimeDivides(p: nat, a: int, b: int)
    requires Prime(p) && Zero(p, Mul(a, b)) && !Zero(p, a)
    ensures Zero(p, b)
  {
    PrimeInverse(a, p);
    hide Zero, Mul;
    var i := Inverse(a, p).value;
    ZeroTimes(p, Mul(a, b), i);
    ZeroTimes(p, Mul(a, i) - 1, b);
    MulFacts(b, Mul(a, i), 1);
    MulFacts(i, a, b);
    MulFacts(a, i, b);
    MulFacts(Mul(a, i) - 1, b, 0);
    MulFacts(b, Mul(i, a), 0);
    ZeroAdd(p, Mul(i, Mul(a, b)), Mul(Mul(a, i) - 1, b));
  }
}
