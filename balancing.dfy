/** The charge-balance arithmetic every compound kind reuses: `factor` (reduce a
    pair by its greatest common divisor) and `cross_rule` (turn two oxidation
    numbers into two amounts, or two amounts into two oxidation numbers). */
module Balancing {

  function Abs(x: int): nat { if x < 0 then -x else x }

  function Sign(x: int): int { if x > 0 then 1 else if x < 0 then -1 else 0 }

  /** Euclid's algorithm on natural numbers; Gcd(0, 0) == 0. */
  function Gcd(a: nat, b: nat): nat
    decreases b
  {
    if b == 0 then a else Gcd(b, a % b)
  }

  /** math.gcd: the gcd of the absolute values, never negative. */
  function PyGcd(x: int, y: int): nat
  {
    Gcd(Abs(x), Abs(y))
  }

  /** Two integers whose only positive common divisor is 1. */
  predicate Coprime(x: int, y: int)
  {
    PyGcd(x, y) == 1
  }

  /** Python's a // b: the quotient rounded toward minus infinity, for either
      sign of the divisor (Dafny's / agrees only for a positive divisor). */
  function PyFloorDiv(a: int, b: int): (q: int)
    requires b != 0
    ensures b > 0 ==> q * b <= a < q * b + b
    ensures b < 0 ==> q * b + b < a <= q * b
  {
    if b > 0 then a / b else (-a) / (-b)
  }

  // ---------------------------------------------------------------------------
  // Facts about division and gcd

  lemma DivModUnique(n: int, d: int, q: int, r: int)
    requires d > 0 && 0 <= r < d && n == q * d + r
    ensures n / d == q && n % d == r
  {
    var q', r' := n / d, n % d;
    assert (q - q') * d == r' - r;
    MultipleInOpenInterval(q - q', d);
  }

  /** The only multiple of `d` strictly between -d and d is 0. */
  lemma MultipleInOpenInterval(k: int, d: int)
    requires d > 0 && -d < k * d < d
    ensures k == 0
  {
    MultipleBounds(k, d);
  }

  lemma MultipleBounds(k: int, d: int)
    requires d > 0
    ensures k >= 1 ==> k * d >= d
    ensures k <= -1 ==> k * d <= -d
  {
    if k >= 1 {
      assert k * d == (k - 1) * d + d;
    } else if k <= -1 {
      assert k * d == (k + 1) * d - d;
    }
  }

  /** Scaling both arguments scales the remainder. */
  lemma ModScale(k: nat, a: nat, b: nat)
    requires k > 0 && b > 0
    ensures (k * a) % (k * b) == k * (a % b)
  {
    var q, r := a / b, a % b;
    assert a == q * b + r;
    assert k * a == q * (k * b) + k * r;
    assert k * r < k * b;
    DivModUnique(k * a, k * b, q, k * r);
  }

  lemma {:induction false} GcdScale(k: nat, a: nat, b: nat)
    ensures Gcd(k * a, k * b) == k * Gcd(a, b)
    decreases b
  {
    if b == 0 {
    } else if k == 0 {
    } else {
      ModScale(k, a, b);
      GcdScale(k, b, a % b);
    }
  }

  lemma {:induction false} GcdZero(a: nat, b: nat)
    ensures Gcd(a, b) == 0 <==> a == 0 && b == 0
    decreases b
  {
    if b != 0 {
      GcdZero(b, a % b);
    }
  }

  /** `d` divides `n` exactly. */
  predicate Divides(d: nat, n: int)
  {
    d > 0 && n % d == 0
  }

  lemma DividesCombination(d: nat, q: int, b: int, r: int)
    requires Divides(d, b) && Divides(d, r)
    ensures Divides(d, q * b + r)
  {
    var p, s := b / d, r / d;
    assert b == d * p && r == d * s;
    assert q * b + r == d * (q * p + s);
    DivModUnique(q * b + r, d, q * p + s, 0);
  }

  lemma {:induction false} GcdDivides(a: nat, b: nat)
    requires a != 0 || b != 0
    ensures Divides(Gcd(a, b), a) && Divides(Gcd(a, b), b)
    decreases b
  {
    if b != 0 {
      GcdDivides(b, a % b);
      assert a == (a / b) * b + a % b;
      DividesCombination(Gcd(a, b), a / b, b, a % b);
    }
  }

  lemma DividesNegation(d: nat, n: int)
    requires Divides(d, n)
    ensures Divides(d, -n) && -n / d == -(n / d)
  {
    assert n == d * (n / d);
    DivModUnique(-n, d, -(n / d), 0);
  }

  lemma DividesAbs(d: nat, n: int)
    requires Divides(d, Abs(n))
    ensures Divides(d, n) && n == d * (n / d) && Abs(n / d) == Abs(n) / d
  {
    assert Abs(n) == d * (Abs(n) / d);
    if n < 0 {
      DividesNegation(d, Abs(n));
    }
  }

  // ---------------------------------------------------------------------------
  // factor and cross_rule

  /** factor(x, y): (x // g, y // g) with g = gcd(x, y). With x == y == 0 the
      source divides by zero, so callers must exclude that pair. */
  function Factor(x: int, y: int): (r: (int, int))
    requires x != 0 || y != 0
    ensures x == r.0 * PyGcd(x, y) && y == r.1 * PyGcd(x, y)
    ensures x * r.1 == y * r.0
    ensures Sign(r.0) == Sign(x) && Sign(r.1) == Sign(y)
    ensures Coprime(r.0, r.1)
  {
    var g := PyGcd(x, y);
    FactorFacts(x, y);
    ScaledPair(x, y, g, x / g, y / g);
    (x / g, y / g)
  }

  /** Two numbers that are p and q times the same positive g: the cross
      products agree and the signs carry over. */
  lemma ScaledPair(x: int, y: int, g: int, p: int, q: int)
    requires g > 0 && x == p * g && y == q * g
    ensures x * q == y * p
    ensures Sign(p) == Sign(x) && Sign(q) == Sign(y)
  {
    assert x * q == (p * q) * g && y * p == (p * q) * g;
  }

  lemma FactorFacts(x: int, y: int)
    requires x != 0 || y != 0
    ensures PyGcd(x, y) > 0
    ensures x == (x / PyGcd(x, y)) * PyGcd(x, y) && y == (y / PyGcd(x, y)) * PyGcd(x, y)
    ensures Coprime(x / PyGcd(x, y), y / PyGcd(x, y))
  {
    var g := PyGcd(x, y);
    GcdZero(Abs(x), Abs(y));
    GcdDivides(Abs(x), Abs(y));
    DividesAbs(g, x);
    DividesAbs(g, y);
    var a, b := Abs(x) / g, Abs(y) / g;
    assert Abs(x) == g * a && Abs(y) == g * b;
    GcdScale(g, a, b);
    assert g * Gcd(a, b) == g * 1;
  }

  /** cross_rule(x, y): reduce the pair, then swap it and flip one sign so that
      the first result is never negative. Given two oxidation numbers it returns
      the amounts that balance them; given two amounts, the oxidation numbers. */
  function CrossRule(x: int, y: int): (r: (int, int))
    requires x != 0 || y != 0
    ensures x * r.0 + y * r.1 == 0
    ensures r.0 >= 0
    ensures r.0 == 0 <==> y == 0
    ensures r.1 == 0 <==> x == 0
    ensures Coprime(r.0, r.1)
  {
    var f := Factor(x, y);
    var (a, b) := f;
    CoprimeSymmetric(a, b);
    SwappedCancels(x, y, a, b);
    if b >= 0 then (b, -a) else (-b, a)
  }

  /** Equal cross products make the swapped pair, with one sign flipped,
      cancel x and y. */
  lemma SwappedCancels(x: int, y: int, a: int, b: int)
    requires x * b == y * a
    ensures x * b + y * -a == 0 && x * -b + y * a == 0
  {
    assert y * -a == -(y * a) && x * -b == -(x * b);
  }

  lemma CoprimeSymmetric(a: int, b: int)
    requires Coprime(a, b)
    ensures Coprime(b, a) && Coprime(-b, a) && Coprime(b, -a)
  {
    GcdCommutes(Abs(a), Abs(b));
  }

  lemma GcdCommutes(a: nat, b: nat)
    ensures Gcd(a, b) == Gcd(b, a)
  {
    if a != 0 || b != 0 {
      GcdDivides(a, b);
      GcdDivides(b, a);
      GcdGreatest(a, b, Gcd(b, a));
      GcdGreatest(b, a, Gcd(a, b));
      DividesBounds(Gcd(a, b), Gcd(b, a));
      DividesBounds(Gcd(b, a), Gcd(a, b));
    }
  }

  lemma DividesBounds(d: nat, n: nat)
    requires Divides(d, n) && n > 0
    ensures d <= n
  {
    assert n == d * (n / d);
    assert n / d >= 1;
  }

  /** Every common divisor of `a` and `b` divides their gcd. */
  lemma {:induction false} GcdGreatest(a: nat, b: nat, d: nat)
    requires Divides(d, a) && Divides(d, b)
    ensures Divides(d, Gcd(a, b))
    decreases b
  {
    if b != 0 {
      assert a % b == (-(a / b)) * b + a;
      DividesCombination(d, -(a / b), b, a);
      GcdGreatest(b, a % b, d);
    }
  }

  // ---------------------------------------------------------------------------
  // What the results mean

  /** The factored pair is the only coprime pair with the ratio and the signs of
      the input: factor is characterised without referring to gcd. */
  lemma FactorUnique(x: int, y: int, a: int, b: int)
    requires x != 0 || y != 0
    requires Coprime(a, b) && x * b == y * a
    requires Sign(a) == Sign(x) && Sign(b) == Sign(y)
    ensures (a, b) == Factor(x, y)
  {
    var (p, q) := Factor(x, y);
    var g := PyGcd(x, y);
    FactorFacts(x, y);
    assert x * b == (p * g) * b && y * a == (q * g) * a;
    CancelCross(g, p, q, a, b);
    AbsMul(p, b);
    AbsMul(q, a);
    CoprimeCrossEqual(Abs(p), Abs(q), Abs(a), Abs(b));
    SameAbsSameSign(a, p);
    SameAbsSameSign(b, q);
  }

  /** A pair already in lowest terms is left alone by factor. */
  lemma FactorOfCoprime(a: int, b: int)
    requires (a != 0 || b != 0) && Coprime(a, b)
    ensures Factor(a, b) == (a, b)
  {
    FactorUnique(a, b, a, b);
  }

  /** The sign of the second result: opposite to x when y is positive, the same
      as x when y is negative; with y == 0 the result is (0, -sign(x)). */
  lemma CrossRuleSigns(x: int, y: int)
    requires x != 0 || y != 0
    ensures y > 0 ==> Sign(CrossRule(x, y).1) == -Sign(x)
    ensures y < 0 ==> Sign(CrossRule(x, y).1) == Sign(x)
    ensures y == 0 ==> CrossRule(x, y) == (0, -Sign(x))
  {
    var (a, b) := Factor(x, y);
    if y == 0 {
      assert Gcd(Abs(a), 0) == Abs(a);
    }
  }

  /** cross_rule undoes itself up to the sign: applied to its own result it
      gives back the reduced input pair, or its negation, whichever starts
      with a non-negative number. */
  lemma CrossRuleTwice(x: int, y: int)
    requires x != 0 || y != 0
    ensures var (a, b) := CrossRule(x, y);
            a != 0 || b != 0
    ensures var (a, b) := CrossRule(x, y);
            var (c, d) := CrossRule(a, b);
            var (p, q) := Factor(x, y);
            c >= 0 && ((c, d) == (p, q) || (c, d) == (-p, -q))
  {
    var (a, b) := CrossRule(x, y);
    FactorOfCoprime(a, b);
  }

  /** The Oxid/Sulfid formula path: the other element's oxidation is
      2m // a, then the amounts m and a are reduced. In reduced terms the
      total charge is still between -a and 0, and 0 exactly when a divides 2m. */
  lemma FloorCharge(m: int, a: int)
    requires a > 0
    ensures var q := PyFloorDiv(2 * m, a);
            var (m', a') := Factor(m, a);
            a' > 0 && -a' < q * a' - 2 * m' <= 0
  {
    var q := PyFloorDiv(2 * m, a);
    var (m', a') := Factor(m, a);
    var g := PyGcd(m, a);
    FactorFacts(m, a);
    assert m == m' * g && a == a' * g;
    assert (q * a' - 2 * m') * g == q * a - 2 * m;
    ScaleDownBounds(q * a' - 2 * m', a', g);
  }

  /** Dividing -a g < x g <= 0 by g > 0. */
  lemma ScaleDownBounds(x: int, a: int, g: int)
    requires g > 0 && -(a * g) < x * g <= 0
    ensures -a < x <= 0
  {
    MultipleBounds(x, g);
    MultipleBounds(x + a, g);
    assert (x + a) * g == x * g + a * g;
  }

  lemma Cancel(g: int, u: int, v: int)
    requires g > 0 && g * u == g * v
    ensures u == v
  {
    assert g * (u - v) == 0;
  }

  lemma CancelCross(g: int, p: int, q: int, a: int, b: int)
    requires g > 0 && (p * g) * b == (q * g) * a
    ensures p * b == q * a
  {
    assert (p * g) * b == g * (p * b) && (q * g) * a == g * (q * a);
    Cancel(g, p * b, q * a);
  }

  lemma AbsMul(u: int, v: int)
    ensures Abs(u * v) == Abs(u) * Abs(v)
  {
  }

  lemma SameAbsSameSign(u: int, v: int)
    requires Abs(u) == Abs(v) && Sign(u) == Sign(v)
    ensures u == v
  {
  }

  /** Two coprime pairs in the same ratio are equal. */
  lemma CoprimeCrossEqual(p: nat, q: nat, a: nat, b: nat)
    requires Gcd(p, q) == 1 && Gcd(a, b) == 1 && p * b == q * a
    ensures p == a && q == b
  {
    // a == Gcd(a p, a q) == Gcd(p a, p b) == p
    ScaledCoprime(a, p, q);
    ScaledCoprime(p, a, b);
    var u, v := a * p, a * q;
    assert u == p * a;
    assert v == p * b;
    // b == Gcd(b p, b q) == Gcd(q a, q b) == q
    ScaledCoprime(b, p, q);
    ScaledCoprime(q, a, b);
    var u', v' := b * p, b * q;
    assert u' == q * a;
    assert v' == q * b;
  }

  lemma ScaledCoprime(k: nat, p: nat, q: nat)
    requires Gcd(p, q) == 1
    ensures Gcd(k * p, k * q) == k
  {
    GcdScale(k, p, q);
  }
}
