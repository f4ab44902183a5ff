/** For which committee sizes every accepted stride places exactly, in 64-bit arithmetic. */
module Strides {
  import opened Seqs
  import opened Words
  import opened Modular
  import opened Placement

  function Pow2(a: nat): (p: nat)
    ensures p > 0
  {
    if a == 0 then 1 else 2 * Pow2(a - 1)
  }

  lemma {:induction false} PowAdd(a: nat, b: nat)
    ensures Pow2(a + b) == Pow2(a) * Pow2(b)
  {
    if a > 0 {
      PowAdd(a - 1, b);
      assert a + b - 1 == a - 1 + b;
      DoubleProduct(Pow2(a - 1), Pow2(b));
    }
  }

  lemma DoubleProduct(x: nat, y: nat)
    ensures 2 * (x * y) == 2 * x * y
  {
  }

  /** The word size, as a power of two. */
  lemma WordBits() returns (word: nat)
    ensures word == 64 && Pow2(word) == U64
  {
    assert Pow2(8) == 256;
    PowAdd(8, 8);
    PowAdd(16, 16);
    PowAdd(32, 32);
    return 64;
  }

  /** A number is a power of two times its odd part. */
  lemma {:induction false} OddPart(n: nat) returns (a: nat, m: nat)
    requires n > 0
    ensures n == Pow2(a) * m && m % 2 == 1
  {
    if n % 2 == 1 {
      return 0, n;
    }
    var b, k := OddPart(n / 2);
    assert 2 * (Pow2(b) * k) == 2 * Pow2(b) * k;
    return b + 1, k;
  }

  /** An odd divisor of twice a number divides the number. */
  lemma HalveDividend(d: nat, x: int)
    requires d % 2 == 1 && Divides(d, 2 * x)
    ensures Divides(d, x)
  {
    var k: int :| 2 * x == d * k;
    var h := d / 2;
    assert d * k == 2 * (h * k) + k by {
      assert d == 2 * h + 1;
      assert (2 * h + 1) * k == 2 * (h * k) + k;
    }
    var j := k / 2;
    assert k == 2 * j;
    assert d * (2 * j) == 2 * (d * j);
    assert x == d * j;
  }

  lemma {:induction false} OddDivisor(d: nat, a: nat, x: int)
    requires d % 2 == 1 && Divides(d, Pow2(a) * x)
    ensures Divides(d, x)
  {
    if a > 0 {
      assert Pow2(a) * x == 2 * (Pow2(a - 1) * x);
      HalveDividend(d, Pow2(a - 1) * x);
      OddDivisor(d, a - 1, x);
    } else {
      assert Pow2(a) * x == x;
    }
  }

  lemma DividesDifference(d: nat, x: int, y: int)
    requires Divides(d, x) && Divides(d, y)
    ensures Divides(d, x - y)
  {
    var j: int, k: int :| x == d * j && y == d * k;
    assert x - y == d * (j - k);
  }

  lemma OddFactor(d: nat, s: nat)
    requires s % 2 == 1 && Divides(d, s)
    ensures d % 2 == 1
  {
    var k: int :| s == d * k;
    var h := d / 2;
    assert (2 * h) * k == 2 * (h * k);
  }

  lemma DividesOne(d: nat)
    requires Divides(d, 1)
    ensures d == 1
  {
    var j: int :| 1 == d * j;
    if d > 0 {
      MultipleIsZero(d, j);
    }
  }

  /** An odd number plus a power of two is coprime to the odd number times any power of two. */
  lemma ShiftedIsCoprime(a: nat, b: nat, m: nat)
    requires b > 0 && m % 2 == 1
    ensures Gcd(Pow2(b) + m, Pow2(a) * m) == 1
  {
    var s, n := Pow2(b) + m, Pow2(a) * m;
    var d := Gcd(s, n);
    GcdDividesBoth(s, n);
    assert Pow2(b) == 2 * Pow2(b - 1);
    OddFactor(d, s);
    OddDivisor(d, a, m);
    DividesDifference(d, s, m);
    assert Pow2(b) * 1 == s - m;
    OddDivisor(d, b, 1);
    DividesOne(d);
  }

  /** Powers of two up to 2^64 divide it. */
  lemma PowDividesWord(a: nat, word: nat)
    requires a <= word && Pow2(word) == U64
    ensures U64 % Pow2(a) == 0
  {
    PowAdd(a, word - a);
    MultipleIsZero(Pow2(a), Pow2(word - a));
  }

  /** A step count whose product with the stride overflows by a multiple of `n` returns to the sender. */
  lemma OverflowReturns(n: nat, steps: nat, stride: nat, turns: nat)
    requires n > 0 && turns * n < U64 && steps * stride == U64 + turns * n
    ensures Slot(n, 0, steps, stride) == 0
  {
    assert Wrap(steps * stride) == turns * n;
    MultipleIsZero(n, turns);
  }

  lemma PowMonotone(a: nat, b: nat)
    requires a <= b
    ensures Pow2(a) <= Pow2(b)
  {
    PowAdd(b - a, a);
    MulAtLeast(Pow2(b - a), Pow2(a));
  }

  /** Below 2^63 and not dividing 2^64: the odd part is at least three. */
  lemma OddPartLarge(n: nat, a: nat, m: nat, word: nat)
    requires 0 < n && 2 * n < U64 && U64 % n != 0 && Pow2(word) == U64
    requires n == Pow2(a) * m && m % 2 == 1
    ensures a + 1 < word && m >= 3
  {
    MulAtLeast(m, Pow2(a));
    if a + 1 >= word {
      PowMonotone(word, a + 1);
      assert false;
    }
    if m == 1 {
      PowDividesWord(a, word);
    }
  }

  /** A committee size that is no power of two has an accepted stride that leads back to the sender
      before going all the way round. */
  lemma BadStride(n: nat) returns (stride: nat, steps: nat)
    requires 0 < n && 2 * n < U64 && U64 % n != 0
    ensures 0 < stride < U64 && Gcd(stride, n) == 1
    ensures 0 < steps < n && Slot(n, 0, steps, stride) == 0
  {
    var word := WordBits();
    var a, m := OddPart(n);
    OddPartLarge(n, a, m, word);
    var c := if a == 0 then 1 else a;
    stride, steps := Pow2(word - c) + m, Pow2(c);
    ShiftedIsCoprime(a, word - c, m);
    StrideReturns(n, a, m, c, word);
  }

  lemma StrideReturns(n: nat, a: nat, m: nat, c: nat, word: nat)
    requires n == Pow2(a) * m && m >= 3 && 2 * n < U64 && Pow2(word) == U64
    requires c == (if a == 0 then 1 else a) && c < word
    ensures var stride, steps := Pow2(word - c) + m, Pow2(c);
      stride < U64 && steps < n && Slot(n, 0, steps, stride) == 0
  {
    var p, q := Pow2(c), Pow2(word - c);
    PowAdd(c, word - c);
    assert p * (q + m) == p * q + p * m;
    assert Pow2(c) * m == if a == 0 then 2 * n else n;
    OverflowReturns(n, p, q + m, if a == 0 then 2 else 1);
    assert p == 2 * Pow2(c - 1);
    HalfWord(p, q, m, n, if a == 0 then 2 else 1);
  }

  /** With `p q` the word size and `p m` one or two times `n`. */
  lemma HalfWord(p: nat, q: nat, m: nat, n: nat, turns: nat)
    requires p >= 2 && p * q == U64 && m >= 3 && p * m == turns * n && 1 <= turns <= 2 && 2 * n < U64
    ensures q + m < U64 && p < n
  {
    MulMonotone(2, q, p, q);
    MulMonotone(2, m, p, m);
    MulMonotone(p, 3, p, m);
    Halves(p, q, m, n, turns, p * q, p * m, turns * n);
  }

  lemma Halves(p: nat, q: nat, m: nat, n: nat, turns: nat, pq: nat, pm: nat, tn: nat)
    requires pq == U64 && pm == tn && 2 * q <= pq && 2 * m <= pm && 3 * p <= pm
    requires tn <= 2 * n && 2 * n < U64 && p > 0
    ensures q + m < U64 && p < n
  {
  }

  /** Every coprime stride places exactly, for every sender and width, exactly when the committee size
      divides 2^64, that is when it is a power of two. */
  lemma EveryStrideIsExact<K>(order: seq<K>)
    requires Distinct(order) && 0 < |order| && 2 * |order| < U64
    ensures (forall i: nat, width: nat, stride: nat ::
               i < |order| && width < |order| && 0 < stride < U64 && Gcd(stride, |order|) == 1 ==>
                 ExactFor(order, i, width, stride))
       <==> U64 % |order| == 0
  {
    var n := |order|;
    if U64 % n == 0 {
      forall i: nat, width: nat, stride: nat | i < n && width < n && 0 < stride < U64 && Gcd(stride, n) == 1
        ensures ExactFor(order, i, width, stride)
      {
        StaggeredIsExact(order, i, width, stride);
      }
    } else {
      var stride, steps := BadStride(n);
      var slots := StrideSlots(n, 0, steps, stride);
      assert slots[steps - 1] == 0;
      PickedMember(order, slots, 0);
      assert !ExactFor(order, 0, steps, stride);
    }
  }
}
