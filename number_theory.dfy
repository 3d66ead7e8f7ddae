/** The `gcd` and `lcm` helpers of the multi-source walk (src/bin/d8p2.rs), over unbounded
    naturals, with the facts that make folding counts with `lcm` compute their least common
    multiple whatever the order. */
module NumberTheory {
  /** `d` divides `n` (zero divides only zero). */
  predicate Divides(d: nat, n: nat) {
    if d == 0 then n == 0 else n % d == 0
  }

  /** A positive multiple of `d` is at least `d`. */
  lemma {:induction false} MulAtLeast(d: nat, a: nat)
    requires a >= 1
    ensures d * a >= d
  {
    var p: nat := d * (a - 1);
    assert d * a == d + p;
  }

  /** Quotient and remainder are unique. */
  lemma {:induction false} DivModUnique(x: nat, d: nat, q: nat, r: nat)
    requires d > 0 && r < d && x == d * q + r
    ensures x / d == q && x % d == r
  {
    var q', r' := x / d, x % d;
    assert x == d * q' + r';
    if q' > q {
      MulAtLeast(d, q' - q);
    } else if q' < q {
      MulAtLeast(d, q - q');
    }
  }

  /** A product is divisible by its factor. */
  lemma {:induction false} DividesIntro(d: nat, n: nat, k: nat)
    requires n == d * k
    ensures Divides(d, n)
  {
    if d > 0 {
      DivModUnique(n, d, k, 0);
    }
  }

  /** A witness for divisibility. */
  lemma {:induction false} DividesElim(d: nat, n: nat) returns (k: nat)
    requires Divides(d, n)
    ensures n == d * k
  {
    if d == 0 {
      k := 0;
    } else {
      k := n / d;
    }
  }

  /** Divisibility is transitive. */
  lemma {:induction false} DividesTrans(a: nat, b: nat, c: nat)
    requires Divides(a, b) && Divides(b, c)
    ensures Divides(a, c)
  {
    var k1 := DividesElim(a, b);
    var k2 := DividesElim(b, c);
    assert c == a * (k1 * k2);
    DividesIntro(a, c, k1 * k2);
  }

  /** Divisibility is antisymmetric on naturals. */
  lemma {:induction false} DividesAntisym(a: nat, b: nat)
    requires Divides(a, b) && Divides(b, a)
    ensures a == b
  {
    var k1 := DividesElim(a, b);
    var k2 := DividesElim(b, a);
    if a != 0 {
      assert a == a * (k1 * k2);
      assert k1 * k2 == 1;
      assert k1 == 1;
    }
  }

  /** A common divisor of `x` and `y` divides `x * q + y`. */
  lemma {:induction false} DividesCombination(d: nat, x: nat, y: nat, q: nat)
    requires Divides(d, x) && Divides(d, y)
    ensures Divides(d, x * q + y)
  {
    var kx := DividesElim(d, x);
    var ky := DividesElim(d, y);
    assert x * q + y == d * (kx * q + ky);
    DividesIntro(d, x * q + y, kx * q + ky);
  }

  /** `gcd`: Euclid's algorithm on remainders; the result divides both operands. */
  function Gcd(a: nat, b: nat): (r: nat)
    ensures Divides(r, a) && Divides(r, b)
    decreases b
  {
    if b == 0 then
      DividesIntro(a, a, 1);
      DividesIntro(a, 0, 0);
      a
    else
      var g := Gcd(b, a % b);
      DividesCombination(g, b, a % b, a / b);
      assert b * (a / b) + a % b == a;
      g
  }

  /** A common divisor of `x` and `y <= x` divides `x - y`. */
  lemma {:induction false} DividesDifference(d: nat, x: nat, y: nat)
    requires Divides(d, x) && Divides(d, y) && y <= x
    ensures Divides(d, x - y)
  {
    var kx := DividesElim(d, x);
    var ky := DividesElim(d, y);
    if d > 0 && kx < ky {
      MulAtLeast(d, ky - kx);
    }
    if d > 0 {
      assert x - y == d * (kx - ky);
      DividesIntro(d, x - y, kx - ky);
    }
  }

  /** Every common divisor of `a` and `b` divides their gcd. */
  lemma {:induction false} GcdGreatest(a: nat, b: nat, d: nat)
    requires Divides(d, a) && Divides(d, b)
    ensures Divides(d, Gcd(a, b))
    decreases b
  {
    if b > 0 {
      DividesCombination(d, b, 0, a / b);
      assert b * (a / b) + a % b == a;
      DividesDifference(d, a, b * (a / b));
      GcdGreatest(b, a % b, d);
    }
  }

  /** Scaling both operands scales the remainder. */
  lemma {:induction false} ModScale(m: nat, a: nat, b: nat)
    requires m > 0 && b > 0
    ensures (m * a) % (m * b) == m * (a % b)
  {
    var q, rem := a / b, a % b;
    assert a == b * q + rem;
    assert m * a == (m * b) * q + m * rem;
    MulAtLeast(m, b - rem);
    assert m * b == m * rem + m * (b - rem);
    DivModUnique(m * a, m * b, q, m * rem);
  }

  /** Gcd(m * a, m * b) == m * Gcd(a, b) */
  lemma {:induction false} GcdScale(m: nat, a: nat, b: nat)
    ensures Gcd(m * a, m * b) == m * Gcd(a, b)
    decreases b
  {
    if b == 0 {
      assert m * b == 0;
    } else if m == 0 {
      assert m * a == 0 && m * b == 0;
    } else {
      ModScale(m, a, b);
      GcdScale(m, b, a % b);
    }
  }

  /** Cancelling a positive factor. */
  lemma {:induction false} MulCancel(g: nat, x: nat, y: nat)
    requires g > 0 && g * x == g * y
    ensures x == y
  {
    DivModUnique(g * x, g, x, 0);
    DivModUnique(g * y, g, y, 0);
  }

  /** With `g` a common divisor, `(a / g) * b` is a common multiple of `a` and `b`. */
  lemma {:induction false} QuotientProduct(a: nat, b: nat, g: nat)
    requires g > 0 && Divides(g, a) && Divides(g, b)
    ensures Divides(a, (a / g) * b) && Divides(b, (a / g) * b)
  {
    var ka := DividesElim(g, a);
    var kb := DividesElim(g, b);
    DivModUnique(a, g, ka, 0);
    assert (a / g) * b == a * kb;
    DividesIntro(a, (a / g) * b, kb);
    DividesIntro(b, (a / g) * b, a / g);
  }

  /** `lcm`: divides by the gcd first, then multiplies; zero and zero has no gcd to divide by. */
  function Lcm(a: nat, b: nat): (r: nat)
    requires a != 0 || b != 0
    ensures Divides(a, r) && Divides(b, r)
  {
    var g := Gcd(a, b);
    QuotientProduct(a, b, g);
    (a / g) * b
  }

  /** A multiple of `a` times `b` is a multiple of `a * b`. */
  lemma {:induction false} ProductDivides(a: nat, b: nat, m: nat)
    requires Divides(a, m)
    ensures Divides(a * b, m * b) && Divides(b * a, b * m)
  {
    var j := DividesElim(a, m);
    assert m * b == (a * b) * j;
    DividesIntro(a * b, m * b, j);
    assert b * m == (b * a) * j;
    DividesIntro(b * a, b * m, j);
  }

  /** Every common multiple of `a` and `b` is a multiple of `Lcm(a, b)`. */
  lemma {:induction false} LcmLeast(a: nat, b: nat, m: nat)
    requires a != 0 || b != 0
    requires Divides(a, m) && Divides(b, m)
    ensures Divides(Lcm(a, b), m)
  {
    var g := Gcd(a, b);
    // a * b divides both m * a and m * b, hence their gcd, which is m * g.
    ProductDivides(a, b, m);
    ProductDivides(b, a, m);
    assert b * a == a * b && a * m == m * a;
    GcdGreatest(m * a, m * b, a * b);
    GcdScale(m, a, b);
    var k := DividesElim(a * b, m * g);
    LcmTimesGcd(a, b);
    CancelGcd(a * b, g, Lcm(a, b), m, k);
  }

  /** Lcm(a, b) * Gcd(a, b) == a * b */
  lemma {:induction false} LcmTimesGcd(a: nat, b: nat)
    requires a != 0 || b != 0
    ensures a * b == Gcd(a, b) * Lcm(a, b)
  {
    var g := Gcd(a, b);
    var ka := DividesElim(g, a);
    DivModUnique(a, g, ka, 0);
    assert Lcm(a, b) == ka * b;
    assert a * b == (g * ka) * b == g * (ka * b);
  }

  /** From p == g * l and m * g == p * k, with g positive, l divides m. */
  lemma {:induction false} CancelGcd(p: nat, g: nat, l: nat, m: nat, k: nat)
    requires g > 0 && p == g * l && m * g == p * k
    ensures Divides(l, m)
  {
    assert g * m == g * (l * k);
    MulCancel(g, m, l * k);
    DividesIntro(l, m, k);
  }

  /** `m` is a multiple of every count. */
  ghost predicate CommonMultiple(m: nat, counts: set<nat>) {
    forall c :: c in counts ==> Divides(c, m)
  }

  /** `m` is the least common multiple of `counts`: a common multiple dividing every other. */
  ghost predicate IsLcmOf(m: nat, counts: set<nat>) {
    CommonMultiple(m, counts) && forall n: nat :: CommonMultiple(n, counts) ==> Divides(m, n)
  }

  /** The least common multiple of a single count is the count itself. */
  lemma {:induction false} LcmOfOne(c: nat)
    ensures IsLcmOf(c, {c})
  {
    DividesIntro(c, c, 1);
  }

  /** Folding one more count in with `Lcm` keeps the accumulator the least common multiple. */
  lemma {:induction false} LcmExtend(m: nat, counts: set<nat>, c: nat)
    requires IsLcmOf(m, counts) && (m != 0 || c != 0)
    ensures IsLcmOf(Lcm(m, c), counts + {c})
  {
    var l := Lcm(m, c);
    forall x | x in counts + {c} ensures Divides(x, l) {
      if x in counts {
        DividesTrans(x, m, l);
      }
    }
    forall n: nat | CommonMultiple(n, counts + {c}) ensures Divides(l, n) {
      assert CommonMultiple(n, counts);
      assert Divides(c, n);
      LcmLeast(m, c, n);
    }
  }

  /** The least common multiple is unique, so it does not depend on the order of folding. */
  lemma {:induction false} LcmUnique(x: nat, y: nat, counts: set<nat>)
    requires IsLcmOf(x, counts) && IsLcmOf(y, counts)
    ensures x == y
  {
    DividesAntisym(x, y);
  }
}
