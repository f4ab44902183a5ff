/** Bytes and the two 32-bit word encodings the transport uses. */
module Words {
  import opened Modular

  type Byte = x: int | 0 <= x < 256

  type Bytes = seq<Byte>

  const U32: nat := 0x1_0000_0000

  const U64: nat := 0x1_0000_0000_0000_0000

  /** The `k` least significant base-256 digits of `n`, least significant first. */
  function LowDigits(n: nat, k: nat): (b: Bytes)
    ensures |b| == k
  {
    if k == 0 then [] else [n % 256] + LowDigits(n / 256, k - 1)
  }

  function FromDigits(b: Bytes): nat {
    if b == [] then 0 else
      var d: int := b[0];
      d + 256 * FromDigits(b[1..])
  }

  function Power256(k: nat): nat
    requires k <= 4
  {
    [1, 256, 65536, 16777216, U32][k]
  }

  lemma LowByte(n: nat, k: nat)
    requires k <= 3
    ensures n % Power256(k + 1) == n % 256 + 256 * (n / 256 % Power256(k))
  {
    var p, q := Power256(k), n / 256;
    assert q == q / p * p + q % p;
    DivModUnique(n, 256 * p, q / p, n % 256 + 256 * (q % p));
  }

  /** The digits of `n` give back `n` without the bits that did not fit. */
  lemma {:induction false} DigitsTruncate(n: nat, k: nat)
    requires k <= 4
    ensures FromDigits(LowDigits(n, k)) == n % Power256(k)
  {
    if k > 0 {
      DigitsTruncate(n / 256, k - 1);
      assert LowDigits(n, k)[1..] == LowDigits(n / 256, k - 1);
      LowByte(n, k - 1);
    }
  }

  lemma {:induction false} DigitsRestore(b: Bytes)
    ensures LowDigits(FromDigits(b), |b|) == b
  {
    if b != [] {
      DigitsRestore(b[1..]);
      assert b == [b[0]] + b[1..];
      var n, d: int := FromDigits(b[1..]), b[0];
      assert (d + 256 * n) % 256 == d && (d + 256 * n) / 256 == n;
    }
  }

  lemma {:induction false} DigitsBounded(b: Bytes)
    requires |b| <= 4
    ensures FromDigits(b) < Power256(|b|)
  {
    if b != [] {
      DigitsBounded(b[1..]);
      assert |b| == 1 || |b| == 2 || |b| == 3 || |b| == 4;
    }
  }

  /** Little-endian encoding of `n as u32`: the cast keeps the low 32 bits. */
  function LE32(n: nat): (b: Bytes)
    ensures |b| == 4
  {
    LowDigits(n, 4)
  }

  function FromLE32(b: Bytes): (n: nat)
    requires |b| >= 4
    ensures n < U32
  {
    DigitsBounded(b[..4]);
    FromDigits(b[..4])
  }

  /** Big-endian encoding of `n as u32`. */
  function BE32(n: nat): (b: Bytes)
    ensures |b| == 4
  {
    var d := LowDigits(n, 4);
    [d[3], d[2], d[1], d[0]]
  }

  function FromBE32(b: Bytes): (n: nat)
    requires |b| >= 4
    ensures n < U32
  {
    FromLE32([b[3], b[2], b[1], b[0]])
  }

  lemma DecodesLE32(n: nat, tail: Bytes)
    ensures FromLE32(LE32(n) + tail) == n % U32
  {
    DigitsTruncate(n, 4);
    assert (LE32(n) + tail)[..4] == LE32(n);
  }

  lemma EncodesLE32(b: Bytes)
    requires |b| >= 4
    ensures LE32(FromLE32(b)) == b[..4]
  {
    DigitsRestore(b[..4]);
  }

  lemma DecodesBE32(n: nat, tail: Bytes)
    ensures FromBE32(BE32(n) + tail) == n % U32
  {
    var b, d := BE32(n) + tail, LowDigits(n, 4);
    DecodesLE32(n, []);
    assert [b[3], b[2], b[1], b[0]] == d == LE32(n) + [];
  }
}
