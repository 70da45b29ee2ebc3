/** Bitwise operations on machine words, as functions of natural numbers. */
module Bits {
  import opened MachineWords

  datatype BitOp = AndOp | OrOp | XorOp

  function Bit(op: BitOp, x: nat, y: nat): (r: nat)
    ensures r <= 1
  {
    match op
    case AndOp => if x == 1 && y == 1 then 1 else 0
    case OrOp => if x == 1 || y == 1 then 1 else 0
    case XorOp => if x == y then 0 else 1
  }

  /** a op b, bit by bit from the lowest. */
  function Bitwise(op: BitOp, a: nat, b: nat): nat
    decreases a + b
  {
    if a == 0 && b == 0 then 0
    else Bit(op, a % 2, b % 2) + 2 * Bitwise(op, a / 2, b / 2)
  }

  /** x * 2^k, by doubling, so that reasoning stays linear. */
  function Up(x: nat, k: nat): nat {
    if k == 0 then x else 2 * Up(x, k - 1)
  }

  lemma UpByte(x: nat, k: nat)
    ensures Up(x, k + 8) == 256 * Up(x, k)
  {
    assert Up(x, k + 4) == 16 * Up(x, k) by {
      assert Up(x, k + 2) == 4 * Up(x, k);
    }
    assert Up(x, k + 6) == 4 * Up(x, k + 4);
  }

  /** The shifts that word layouts use. */
  lemma UpValues(x: nat)
    ensures Up(x, 3) == 8 * x && Up(x, 8) == 0x100 * x && Up(x, 29) == 0x2000_0000 * x
    ensures Up(x, 31) == 0x8000_0000 * x && Up(x, 32) == 0x1_0000_0000 * x
    ensures Up(x, 56) == 0x100_0000_0000_0000 * x && Up(x, 61) == 0x2000_0000_0000_0000 * x
    ensures Up(x, 63) == 0x8000_0000_0000_0000 * x && Up(x, 64) == 0x1_0000_0000_0000_0000 * x
  {
    UpByte(x, 0);
    UpByte(x, 8);
    UpByte(x, 16);
    UpByte(x, 24);
    UpByte(x, 32);
    UpByte(x, 40);
    UpByte(x, 48);
    UpByte(x, 56);
    assert Up(x, 32) == 2 * Up(x, 31) && Up(x, 31) == 4 * Up(x, 29);
    assert Up(x, 64) == 2 * Up(x, 63) && Up(x, 63) == 4 * Up(x, 61);
    assert Up(x, 3) == 2 * Up(x, 2) && Up(x, 2) == 4 * x;
  }

  lemma Unfold(op: BitOp, a: nat, b: nat)
    ensures Bitwise(op, a, b) == Bit(op, a % 2, b % 2) + 2 * Bitwise(op, a / 2, b / 2)
  {
  }

  /** Low and high parts do not interact. */
  lemma {:induction false} Join(op: BitOp, k: nat, p: nat, q: nat, x: nat, y: nat)
    requires p < Up(1, k) && q < Up(1, k)
    ensures Bitwise(op, p + Up(x, k), q + Up(y, k)) == Bitwise(op, p, q) + Up(Bitwise(op, x, y), k)
  {
    if k > 0 {
      var a, b := p + Up(x, k), q + Up(y, k);
      assert a % 2 == p % 2 && a / 2 == p / 2 + Up(x, k - 1);
      assert b % 2 == q % 2 && b / 2 == q / 2 + Up(y, k - 1);
      Unfold(op, a, b);
      Unfold(op, p, q);
      hide Bitwise;
      Join(op, k - 1, p / 2, q / 2, x, y);
    }
  }

  /** An all-ones word selects, saturates and complements. */
  lemma {:induction false} WithOnes(k: nat, a: nat)
    requires a < Up(1, k)
    ensures Bitwise(AndOp, a, Up(1, k) - 1) == a
    ensures Bitwise(OrOp, a, Up(1, k) - 1) == Up(1, k) - 1
    ensures Bitwise(XorOp, a, Up(1, k) - 1) == Up(1, k) - 1 - a
  {
    if k > 0 {
      WithOnes(k - 1, a / 2);
    }
  }

  lemma {:induction false} WithZero(a: nat)
    ensures Bitwise(AndOp, a, 0) == 0 && Bitwise(OrOp, a, 0) == a && Bitwise(XorOp, a, 0) == a
    ensures Bitwise(AndOp, 0, a) == 0 && Bitwise(OrOp, 0, a) == a && Bitwise(XorOp, 0, a) == a
  {
    if a > 0 {
      WithZero(a / 2);
    }
  }

  lemma {:induction false} Symmetric(op: BitOp, a: nat, b: nat)
    ensures Bitwise(op, a, b) == Bitwise(op, b, a)
    decreases a + b
  {
    if a + b > 0 {
      Symmetric(op, a / 2, b / 2);
    }
  }

  lemma {:induction false} XorZero(a: nat, b: nat)
    ensures Bitwise(XorOp, a, b) == 0 <==> a == b
    decreases a + b
  {
    if a + b > 0 {
      XorZero(a / 2, b / 2);
    }
  }

  lemma {:induction false} OrZero(a: nat, b: nat)
    ensures Bitwise(OrOp, a, b) == 0 <==> a == 0 && b == 0
    decreases a + b
  {
    if a + b > 0 {
      OrZero(a / 2, b / 2);
    }
  }

  lemma {:induction false} Bounded(op: BitOp, k: nat, a: nat, b: nat)
    requires a < Up(1, k) && b < Up(1, k)
    ensures Bitwise(op, a, b) < Up(1, k)
  {
    if k > 0 {
      Bounded(op, k - 1, a / 2, b / 2);
    }
  }

  /** Disjoint parts: or adds them. */
  lemma OrDisjoint(k: nat, low: nat, high: nat)
    requires low < Up(1, k)
    ensures Bitwise(OrOp, low, Up(high, k)) == low + Up(high, k)
  {
    UpZero(k);
    WithZero(low);
    WithZero(high);
    hide Bitwise;
    Join(OrOp, k, low, 0, 0, high);
  }

  lemma {:induction false} UpZero(k: nat)
    ensures Up(0, k) == 0 && Up(1, k) > 0
  {
    if k > 0 {
      UpZero(k - 1);
    }
  }

  /** A mask whose low k bits are clear looks only at the high part. */
  lemma HighPart(k: nat, low: nat, high: nat, mask: nat)
    requires low < Up(1, k)
    ensures Bitwise(AndOp, low + Up(high, k), Up(mask, k)) == Up(Bitwise(AndOp, high, mask), k)
  {
    Join(AndOp, k, low, 0, high, mask);
    WithZero(low);
  }

  // ---- machine words ----

  const W32: nat := 0x1_0000_0000
  const W64: nat := 0x1_0000_0000_0000_0000

  type Word = n: nat | n < W64

  /** The two's-complement reading of a word of modulus m. */
  function AsSigned(w: nat, m: nat): int {
    if w < m / 2 then w else w - m
  }

  /** The low bits of an integer of either sign. */
  function Cut(n: int, m: nat): (r: nat)
    requires m > 0
    ensures r < m
  {
    n % m
  }

  function And(a: Word, b: Word): Word {
    Fits(AndOp, a, b);
    Bitwise(AndOp, a, b)
  }

  function Or(a: Word, b: Word): Word {
    Fits(OrOp, a, b);
    Bitwise(OrOp, a, b)
  }

  function Xor(a: Word, b: Word): Word {
    Fits(XorOp, a, b);
    Bitwise(XorOp, a, b)
  }

  lemma Fits(op: BitOp, a: Word, b: Word)
    ensures Bitwise(op, a, b) < W64
  {
    UpValues(1);
    Bounded(op, 64, a, b);
  }

  const ONES: Word := 0xFFFF_FFFF_FFFF_FFFF

  /** A mask of no bits or all bits keeps nothing or everything. */
  lemma Masks(a: Word)
    ensures And(a, 0) == 0 && And(a, ONES) == a && Or(a, 0) == a && Or(0, a) == a
    ensures Xor(a, ONES) == ONES - a && Xor(a, 0) == a && And(0, a) == 0
  {
    UpValues(1);
    WithZero(a);
    WithOnes(64, a);
  }

  /** Within 32 bits the all-ones word is 2^32 - 1. */
  lemma Masks32(a: nat)
    requires a < W32
    ensures And(a, W32 - 1) == a && Xor(a, W32 - 1) == W32 - 1 - a && Or(a, 0) == a && Or(0, a) == a && And(a, 0) == 0
  {
    UpValues(1);
    WithZero(a);
    WithOnes(32, a);
  }

  lemma Booleans(a: Word, b: Word)
    requires a <= 1 && b <= 1
    ensures And(a, b) == (if a == 1 && b == 1 then 1 else 0)
    ensures Or(a, b) == (if a == 1 || b == 1 then 1 else 0)
    ensures Xor(a, b) == (if a == b then 0 else 1)
  {
    Unfold(AndOp, a, b);
    Unfold(OrOp, a, b);
    Unfold(XorOp, a, b);
  }

  /** And with a mask of bits 61 and up looks only there. */
  lemma MaskAt61(w: Word, mask: nat)
    requires mask < 8
    ensures And(w, 0x2000_0000_0000_0000 * mask)
         == 0x2000_0000_0000_0000 * Bitwise(AndOp, w / 0x2000_0000_0000_0000, mask)
  {
    var low, high := w % 0x2000_0000_0000_0000, w / 0x2000_0000_0000_0000;
    UpValues(1);
    UpValues(high);
    UpValues(mask);
    UpValues(Bitwise(AndOp, high, mask));
    hide Bitwise, Up;
    HighPart(61, low, high, mask);
  }

  /** Bit 61 alone, and the top three bits. */
  lemma TopBits(w: Word)
    ensures And(w, 0x2000_0000_0000_0000) != 0 <==> (w / 0x2000_0000_0000_0000) % 2 == 1
    ensures And(w, 0xE000_0000_0000_0000) != 0 <==> w >= 0x2000_0000_0000_0000
  {
    var high := w / 0x2000_0000_0000_0000;
    MaskAt61(w, 1);
    MaskAt61(w, 7);
    UpValues(1);
    WithOnes(3, high);
    Unfold(AndOp, high, 1);
    WithZero(high / 2);
    hide Bitwise, Up, And;
  }

  /** Or-ing a tag byte onto a 32-bit payload, and a flag bit onto a word without it. */
  lemma OrTag(x: nat, tag: nat)
    requires x < W32 && tag < 0x100
    ensures Or(x, tag * 0x100_0000_0000_0000) == x + tag * 0x100_0000_0000_0000
  {
    UpValues(1);
    UpValues(tag);
    OrDisjoint(56, x, tag);
  }

  /** The guard's test: both words have exactly the tag byte t. */
  lemma SameTopByte(a: Word, b: Word, t: nat)
    requires t < 0x100
    ensures And(Or(Xor(a, t * 0x100_0000_0000_0000), Xor(b, t * 0x100_0000_0000_0000)), 0xFF00_0000_0000_0000) == 0
       <==> a / 0x100_0000_0000_0000 == t && b / 0x100_0000_0000_0000 == t
  {
    XorTop(a, t);
    XorTop(b, t);
    var x, y := Xor(a, t * 0x100_0000_0000_0000), Xor(b, t * 0x100_0000_0000_0000);
    OrTop(x, y);
    AndTop(Or(x, y));
    XorZero(a / 0x100_0000_0000_0000, t);
    XorZero(b / 0x100_0000_0000_0000, t);
    OrZero(x / 0x100_0000_0000_0000, y / 0x100_0000_0000_0000);
  }

  lemma XorTop(a: Word, t: nat)
    requires t < 0x100
    ensures Xor(a, t * 0x100_0000_0000_0000) / 0x100_0000_0000_0000 == Bitwise(XorOp, a / 0x100_0000_0000_0000, t)
  {
    ByteJoin(XorOp, a, t * 0x100_0000_0000_0000);
  }

  lemma OrTop(a: Word, b: Word)
    ensures Or(a, b) / 0x100_0000_0000_0000
         == Bitwise(OrOp, a / 0x100_0000_0000_0000, b / 0x100_0000_0000_0000)
  {
    ByteJoin(OrOp, a, b);
  }

  lemma AndTop(a: Word)
    ensures And(a, 0xFF00_0000_0000_0000) == 0 <==> a / 0x100_0000_0000_0000 == 0
  {
    var low, high := a % 0x100_0000_0000_0000, a / 0x100_0000_0000_0000;
    UpValues(1);
    UpValues(high);
    UpValues(255);
    WithOnes(8, high);
    hide Bitwise, Up;
    HighPart(56, low, high, 255);
    UpValues(high);
  }

  /** The top byte of a bitwise operation is the operation on the top bytes. */
  lemma ByteJoin(op: BitOp, a: Word, b: Word)
    ensures Bitwise(op, a, b) / 0x100_0000_0000_0000
         == Bitwise(op, a / 0x100_0000_0000_0000, b / 0x100_0000_0000_0000)
  {
    hide Bitwise, Up;
    var p, q := a % 0x100_0000_0000_0000, b % 0x100_0000_0000_0000;
    var x, y := a / 0x100_0000_0000_0000, b / 0x100_0000_0000_0000;
    UpValues(1);
    UpValues(x);
    UpValues(y);
    var z := Bitwise(op, x, y);
    UpValues(z);
    Join(op, 56, p, q, x, y);
    Bounded(op, 56, p, q);
    Quotient(Bitwise(op, a, b), 0x100_0000_0000_0000, Bitwise(op, p, q), z);
  }

  lemma Quotient(n: nat, h: nat, low: nat, high: nat)
    requires low < h && n == low + h * high
    ensures n / h == high && n % h == low
  {
    Euclid(n, h);
    var d := n / h - high;
    assert h * d == low - n % h by {
      assert h * (n / h - high) == (n / h) * h - h * high;
    }
    SmallMultiple(h, d);
  }

  lemma SmallMultiple(h: int, d: int)
    requires -h < h * d < h
    ensures d == 0
  {
    if d > 0 {
      MulMono(1, d, h);
    } else if d < 0 {
      MulMono(d, -1, h);
    }
  }

  lemma XorTopBit(a: Word, b: Word)
    ensures Xor(a, b) / 0x8000_0000_0000_0000
         == Bitwise(XorOp, a / 0x8000_0000_0000_0000, b / 0x8000_0000_0000_0000)
  {
    hide Bitwise, Up;
    var h := 0x8000_0000_0000_0000;
    var p, q, x, y := a % h, b % h, a / h, b / h;
    UpValues(1);
    UpValues(x);
    UpValues(y);
    var z := Bitwise(XorOp, x, y);
    UpValues(z);
    Join(XorOp, 63, p, q, x, y);
    Bounded(XorOp, 63, p, q);
    Quotient(Bitwise(XorOp, a, b), h, Bitwise(XorOp, p, q), z);
  }

  /** The sign of a xor: negative exactly when the signs differ. */
  lemma XorSign(a: Word, b: Word)
    ensures AsSigned(Xor(a, b), W64) < 0 <==> (AsSigned(a, W64) < 0) != (AsSigned(b, W64) < 0)
  {
    XorTopBit(a, b);
    Booleans(a / 0x8000_0000_0000_0000, b / 0x8000_0000_0000_0000);
    hide Bitwise, Bit;
  }
}
