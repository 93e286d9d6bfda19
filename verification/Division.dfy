/** Multiples, greatest common divisors, and the offsets that steps of a fixed size reach in a ring. */
module Division {
  import opened RingMath

  /** `n` is a multiple of `d`. */
  predicate Whole(n: int, d: nat)
    requires d > 0
  {
    n % d == 0
  }

  lemma Multiply(a: int, b: int, d: nat)
    requires a <= b
    ensures a * d <= b * d
  {
  }

  lemma WholeOf(n: int, d: nat, q: int)
    requires d > 0 && n == q * d
    ensures Whole(n, d) && n / d == q
  {
    var (k, r) := (n / d, n % d);
    assert n == k * d + r;
    assert (k + 1) * d == k * d + d && (q + 1) * d == q * d + d;
    if k < q {
      Multiply(k + 1, q, d);
    } else if k > q {
      Multiply(q + 1, k, d);
    }
  }

  lemma Quotient(n: int, d: nat)
    requires d > 0 && Whole(n, d)
    ensures n == (n / d) * d
  {
  }

  lemma WholeSum(a: int, b: int, d: nat)
    requires d > 0 && Whole(a, d) && Whole(b, d)
    ensures Whole(a + b, d) && Whole(a - b, d)
  {
    var (x, y) := (a / d, b / d);
    assert (x + y) * d == x * d + y * d && (x - y) * d == x * d - y * d;
    WholeOf(a + b, d, x + y);
    WholeOf(a - b, d, x - y);
  }

  /** Multiples of a multiple. */
  lemma WholeTransitive(a: int, b: nat, d: nat)
    requires d > 0 && b > 0 && Whole(a, b) && Whole(b, d)
    ensures Whole(a, d)
  {
    var (x, y) := (a / b, b / d);
    assert x * (y * d) == (x * y) * d;
    WholeOf(a, d, x * y);
  }

  lemma WholeRemainder(a: nat, b: nat, d: nat)
    requires d > 0 && b > 0 && Whole(a, d) && Whole(b, d)
    ensures Whole(a % b, d)
  {
    var q := a / b;
    assert a == q * b + a % b;
    assert Whole(q * b, b) by { WholeOf(q * b, b, q); }
    WholeTransitive(q * b, b, d);
    WholeSum(a, q * b, d);
  }

  /** Two multiples are equal or at least one unit apart. */
  lemma WholeGap(a: int, b: int, d: nat)
    requires d > 0 && Whole(a, d) && Whole(b, d) && a < b
    ensures a + d <= b
  {
    var (x, y) := (a / d, b / d);
    assert a == x * d && b == y * d;
    assert (x + 1) * d == x * d + d;
    if y <= x {
      Multiply(y, x, d);
    } else {
      Multiply(x + 1, y, d);
    }
  }

  function Gcd(a: nat, b: nat): nat
    decreases b
  {
    if b == 0 then a else Gcd(b, a % b)
  }

  /** The greatest common divisor is a sum of multiples of its arguments. */
  lemma {:induction false} Bezout(a: nat, b: nat) returns (x: int, y: int)
    requires a > 0 || b > 0
    ensures Gcd(a, b) > 0 && Gcd(a, b) == x * a + y * b
    decreases b
  {
    if b == 0 {
      return 1, 0;
    }
    var u, v := Bezout(b, a % b);
    var q := a / b;
    assert a == q * b + a % b;
    assert v * (a - q * b) == v * a - (v * q) * b;
    assert (u - v * q) * b == u * b - (v * q) * b;
    return v, u - v * q;
  }

  lemma {:induction false} GcdDivides(a: nat, b: nat)
    requires a > 0 || b > 0
    ensures Gcd(a, b) > 0 && Whole(a, Gcd(a, b)) && Whole(b, Gcd(a, b))
    decreases b
  {
    if b == 0 {
      WholeOf(a, a, 1);
      WholeOf(0, a, 0);
    } else {
      GcdDivides(b, a % b);
      var (g, q) := (Gcd(a, b), a / b);
      assert a == q * b + a % b;
      WholeOf(q * b, b, q);
      WholeTransitive(q * b, b, g);
      WholeSum(q * b, a % b, g);
    }
  }

  /** If one number is a multiple of the other, the other is their greatest common divisor. */
  lemma GcdOfMultiple(c: nat, e: nat)
    requires e > 0 && Whole(c, e)
    ensures Gcd(c, e) == e
  {
    assert Gcd(e, 0) == e;
  }

  /** Steps of `e` around a ring of `c` reach every multiple of the greatest common divisor, the last one too. */
  lemma StepsReachLast(c: nat, e: nat) returns (m: nat)
    requires 0 < e && 0 < c
    ensures var g := Gcd(c, e); 0 < g <= c && (m * e) % c == c - g
  {
    GcdDivides(c, e);
    var x, y := Bezout(c, e);
    var g := Gcd(c, e);
    WholeGap(0, c, g);
    // c - g == (1 - x) * c - y * e, so the number of steps is -y, made positive by laps of c steps.
    var laps := if y > 0 then y else 0;
    Multiply(1, c, laps);
    m := laps * c - y;
    LapsAddUp(c, e, x, y, laps, g);
    DivModUnique(m * e, c, laps * e + x - 1, c - g);
  }

  lemma LapsAddUp(c: int, e: int, x: int, y: int, laps: int, g: int)
    requires g == x * c + y * e
    ensures (laps * c - y) * e == (laps * e + x - 1) * c + (c - g)
  {
    assert (laps * c - y) * e == laps * c * e - y * e;
    assert (laps * e + x - 1) * c == laps * e * c + x * c - c;
    assert laps * c * e == laps * e * c;
  }
}
