/** Machine arithmetic on words against arithmetic on the integers they stand for. */
module WordArith {
  import opened MachineWords
  import opened Bits
  import opened Ir

  const HALF32: int := 0x8000_0000
  const HALF64: int := 0x8000_0000_0000_0000

  lemma CutShift(n: int, k: int, m: nat)
    requires m > 0
    ensures Cut(n + m * k, m) == Cut(n, m)
  {
    var x, y := n + m * k, n;
    Euclid(x, m);
    Euclid(y, m);
    var d := x / m - y / m - k;
    assert m * d == y % m - x % m by {
      assert m * d == (x / m) * m - (y / m) * m - m * k;
    }
    SmallMultiple(m, d);
  }

  lemma CutOf(n: int, m: nat)
    requires m > 0
    ensures exists k: int :: Cut(n, m) == n + m * k
  {
    Euclid(n, m);
    assert Cut(n, m) == n + m * -(n / m);
  }

  /** Operating on low bits gives the low bits of the operation. */
  lemma CutAdd(x: int, y: int, m: nat)
    requires m > 0
    ensures Cut(Cut(x, m) + Cut(y, m), m) == Cut(x + y, m) && Cut(Cut(x, m) - Cut(y, m), m) == Cut(x - y, m)
  {
    CutOf(x, m);
    CutOf(y, m);
    var k: int :| Cut(x, m) == x + m * k;
    var l: int :| Cut(y, m) == y + m * l;
    Distribute(m, k, l);
    CutShift(x + y, k + l, m);
    CutShift(x - y, k - l, m);
    hide Cut;
  }

  lemma Distribute(m: int, k: int, l: int)
    ensures m * (k + l) == m * k + m * l && m * (k - l) == m * k - m * l
  {
  }

  lemma CutMul(x: int, y: int, m: nat)
    requires m > 0
    ensures Cut(Cut(x, m) * Cut(y, m), m) == Cut(x * y, m)
  {
    CutOf(x, m);
    CutOf(y, m);
    var k: int :| Cut(x, m) == x + m * k;
    var l: int :| Cut(y, m) == y + m * l;
    Expand(x, y, k, l, m);
    CutShift(x * y, x * l + k * y + m * (k * l), m);
  }

  lemma Expand(x: int, y: int, k: int, l: int, m: int)
    ensures (x + m * k) * (y + m * l) == x * y + m * (x * l + k * y + m * (k * l))
  {
    var a, b := m * k, m * l;
    assert (x + a) * (y + b) == x * y + x * b + a * y + a * b;
    assert x * b == m * (x * l) && a * y == m * (k * y) && a * b == m * (m * (k * l));
  }

  /** A word's two's-complement reading gives the word back. */
  lemma SignedRoundTrip(w: nat, m: nat)
    requires m > 0 && m % 2 == 0 && w < m
    ensures Cut(AsSigned(w, m), m) == w && 0 - m / 2 <= AsSigned(w, m) < m / 2
  {
    if w >= m / 2 {
      CutShift(w, 0 - 1, m);
      assert m * (0 - 1) == 0 - m;
    }
    Quotient(w, m, w, 0);
  }

  lemma SignedOfCut(x: int, m: nat)
    requires m > 0 && m % 2 == 0 && 0 - m / 2 <= x < m / 2
    ensures AsSigned(Cut(x, m), m) == x
  {
    if x < 0 {
      CutShift(x, 1, m);
      Quotient(x + m, m, x + m, 0);
    } else {
      Quotient(x, m, x, 0);
    }
  }

  /** The low 32 bits of the low 64 bits. */
  lemma CutCut(n: int)
    ensures Cut(Cut(n, W64), W32) == Cut(n, W32)
  {
    CutOf(n, W64);
    var k: int :| Cut(n, W64) == n + W64 * k;
    CutShift(n, W32 * k, W32);
    assert W32 * (W32 * k) == W64 * k;
  }

  /** Narrowing a 64-bit result and sign-extending it back shows whether it fit 32 bits. */
  lemma NarrowSigned(n: int)
    requires -HALF64 <= n < HALF64
    ensures var r := Cut(n, W64);
      && Converted(WRAP_I64, r) == Cut(n, W32)
      && (Converted(EXTEND_I32S, Converted(WRAP_I64, r)) == r <==> -HALF32 <= n < HALF32)
      && (-HALF32 <= n < HALF32 ==> AsSigned(Cut(n, W32), W32) == n)
  {
    CutCut(n);
    var s := AsSigned(Cut(n, W32), W32);
    SignedRoundTrip(Cut(n, W32), W32);
    SignedOfCut(n, W64);
    SignedOfCut(s, W64);
    Quotient(Cut(n, W32), W32, Cut(n, W32), 0);
    if -HALF32 <= n < HALF32 {
      SignedOfCut(n, W32);
    }
  }

  lemma ProductFits(x: int, y: int)
    requires -HALF32 <= x < HALF32 && -HALF32 <= y < HALF32
    ensures -HALF64 <= x * y < HALF64
  {
    var a, b := if x < 0 then -x else x, if y < 0 then -y else y;
    MulMono(a, HALF32, b);
    MulMono(b, HALF32, HALF32);
    MulMono(0, a, b);
    assert x * y == a * b || x * y == -(a * b);
    assert HALF32 * b == b * HALF32;
  }

  lemma Magnitudes(a: nat, b: nat)
    requires b > 0
    ensures 0 <= a / b <= a && 0 <= a % b <= a && (b > 1 && a > 0 ==> a / b < a)
  {
    Euclid(a, b);
    var q := a / b;
    if b > 1 {
      MulMono(2, b, q);
    } else {
      MulMono(1, b, q);
    }
    assert b * q == q * b;
  }

  /** C's quotient and remainder stay in range, but for MIN / -1. */
  lemma QuotRange(x: int, y: int, half: int)
    requires y != 0 && -half <= x < half && !(x == -half && y == -1)
    ensures -half <= Quot(x, y) < half && -half <= Rem(x, y) < half
  {
    var a, b := if x < 0 then -x else x, if y < 0 then -y else y;
    Magnitudes(a, b);
  }

  /** A small word is its own low bits. */
  lemma CutSmall(w: nat, m: nat)
    requires w < m
    ensures Cut(w, m) == w
  {
    Quotient(w, m, w, 0);
  }
}
