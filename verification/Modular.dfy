/** Division with remainder, greatest common divisors and residues of a coprime stride. */
module Modular {

  lemma MulAtLeast(k: int, d: int)
    requires k >= 1 && d > 0
    ensures k * d >= d
  {
    assert (k - 1) * d >= 0;
  }

  lemma MulMonotone(a: nat, b: nat, c: nat, d: nat)
    requires a <= c && b <= d
    ensures a * b <= c * d
  {
    assert (c - a) * b >= 0 && c * (d - b) >= 0;
  }

  lemma RemainderUnique(d: int, q: int, r: int, q': int, r': int)
    requires 0 <= r < d && 0 <= r' < d && q * d + r == q' * d + r'
    ensures q == q' && r == r'
  {
    if q > q' {
      MulAtLeast(q - q', d);
    } else if q' > q {
      MulAtLeast(q' - q, d);
    }
  }

  /** Quotient and remainder are determined by `x == q * d + r` with `0 <= r < d`. */
  lemma DivModUnique(x: int, d: int, q: int, r: int)
    requires 0 <= r < d && x == q * d + r
    ensures x / d == q && x % d == r
  {
    RemainderUnique(d, q, r, x / d, x % d);
  }

  // ---- Greatest common divisor -----------------------------------------------------------

  ghost predicate Divides(d: nat, x: int) {
    exists k: int :: x == d * k
  }

  function Gcd(a: nat, b: nat): nat
    decreases b
  {
    if b == 0 then a else Gcd(b, a % b)
  }

  /** The loop of the source. */
  method GcdLoop(a: nat, b: nat) returns (g: nat)
    ensures g == Gcd(a, b)
  {
    var x, y := a, b;
    while y != 0
      invariant Gcd(x, y) == Gcd(a, b)
      decreases y
    {
      x, y := y, x % y;
    }
    g := x;
  }

  /** The greatest common divisor is an integer combination of its arguments. */
  lemma {:induction false} Bezout(a: nat, b: nat) returns (x: int, y: int)
    ensures a * x + b * y == Gcd(a, b)
    decreases b
  {
    if b == 0 {
      x, y := 1, 0;
    } else {
      var x', y' := Bezout(b, a % b);
      var q := a / b;
      x, y := y', x' - q * y';
      assert a == b * q + a % b;
      Regroup(a, b, q, a % b, x', y');
    }
  }

  lemma Regroup(a: int, b: int, q: int, r: int, x: int, y: int)
    requires a == b * q + r
    ensures a * y + b * (x - q * y) == b * x + r * y
  {
  }

  lemma {:induction false} GcdDividesBoth(a: nat, b: nat)
    ensures Divides(Gcd(a, b), a) && Divides(Gcd(a, b), b)
    decreases b
  {
    if b == 0 {
      assert a == a * 1 && 0 == a * 0;
    } else {
      GcdDividesBoth(b, a % b);
      var g, q := Gcd(a, b), a / b;
      var i: int :| b == g * i;
      var j: int :| a % b == g * j;
      assert a == b * q + a % b;
      Factor(a, b, q, a % b, g, i, j);
    }
  }

  lemma Factor(a: int, b: int, q: int, r: int, g: int, i: int, j: int)
    requires a == b * q + r && b == g * i && r == g * j
    ensures a == g * (i * q + j)
  {
  }

  /** Every common divisor divides the greatest one. */
  lemma GcdIsGreatest(a: nat, b: nat, d: nat)
    requires Divides(d, a) && Divides(d, b)
    ensures Divides(d, Gcd(a, b))
  {
    var x, y := Bezout(a, b);
    var i: int :| a == d * i;
    var j: int :| b == d * j;
    Combine(a, b, d, i, j, x, y);
    assert Gcd(a, b) == d * (i * x + j * y);
  }

  lemma Combine(a: int, b: int, d: int, i: int, j: int, x: int, y: int)
    requires a == d * i && b == d * j
    ensures a * x + b * y == d * (i * x + j * y)
  {
    assert a * x == d * (i * x);
    assert b * y == d * (j * y);
  }

  // ---- A stride coprime to the modulus ---------------------------------------------------

  lemma MultipleIsZero(n: int, k: int)
    requires n > 0
    ensures (n * k) % n == 0
  {
    DivModUnique(n * k, n, k, 0);
  }

  /** Multiplying by a stride coprime to `n` loses nothing modulo `n`. */
  lemma CoprimeCancels(stride: nat, n: nat, k: int)
    requires n > 0 && Gcd(stride, n) == 1 && (k * stride) % n == 0
    ensures k % n == 0
  {
    var x, y := Bezout(stride, n);
    var q := k * stride / n;
    assert k * stride == n * q;
    Solve(stride, n, k, x, y, q);
    MultipleIsZero(n, q * x + k * y);
  }

  lemma Solve(stride: int, n: int, k: int, x: int, y: int, q: int)
    requires stride * x + n * y == 1 && k * stride == n * q
    ensures k == n * (q * x + k * y)
  {
    calc {
      k;
      k * (stride * x + n * y);
      k * stride * x + n * (k * y);
      n * q * x + n * (k * y);
      n * (q * x) + n * (k * y);
      n * (q * x + k * y);
    }
  }

  /** Equal residues differ by a multiple of the modulus. */
  lemma SameResidue(a: int, b: int, n: int)
    requires n > 0 && a % n == b % n
    ensures (a - b) % n == 0
  {
    assert a == n * (a / n) + a % n && b == n * (b / n) + b % n;
    assert a - b == n * (a / n - b / n);
    MultipleIsZero(n, a / n - b / n);
  }

  lemma SmallResidue(k: int, n: int)
    requires 0 <= k < n
    ensures k % n == k
  {
  }

  /** Steps of a coprime stride land on different residues until they have gone all the way round. */
  lemma StrideIsInjective(i: nat, p: nat, q: nat, stride: nat, n: nat)
    requires n > 0 && Gcd(stride, n) == 1 && p < q && q - p < n
    ensures (i + p * stride) % n != (i + q * stride) % n
  {
    if (i + p * stride) % n == (i + q * stride) % n {
      SameResidue(i + q * stride, i + p * stride, n);
      assert (i + q * stride) - (i + p * stride) == (q - p) * stride;
      CoprimeCancels(stride, n, q - p);
      SmallResidue(q - p, n);
    }
  }
}
