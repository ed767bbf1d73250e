/** Machine-word arithmetic: 64-bit words as naturals, with the bit operators that
    types/node_id.go uses defined bit by bit and related to division and remainder. */
module Bits {

  const U32: nat := 0x1_0000_0000
  const W: nat := 0x1_0000_0000_0000_0000

  type U64 = x: nat | x < W

  function Pow2(k: nat): (p: nat)
    ensures p > 0
  {
    if k == 0 then 1 else 2 * Pow2(k - 1)
  }

  /** Bitwise `x & y`. */
  function And(x: nat, y: nat): nat
    decreases x
  {
    if x == 0 then 0 else (if x % 2 == 1 && y % 2 == 1 then 1 else 0) + 2 * And(x / 2, y / 2)
  }

  /** Bitwise `x | y`. */
  function Or(x: nat, y: nat): nat
    decreases x
  {
    if x == 0 then y else (if x % 2 == 1 || y % 2 == 1 then 1 else 0) + 2 * Or(x / 2, y / 2)
  }

  /** `^x` on a 64-bit word. */
  function Not64(x: U64): U64 {
    W - 1 - x
  }

  /** Wrapping 64-bit addition. */
  function Add64(x: U64, y: U64): U64 {
    (x + y) % W
  }

  function Shr(x: nat, k: nat): int {
    x / Pow2(k)
  }

  /** `x << k` on a 64-bit word. */
  function Shl64(x: nat, k: nat): U64 {
    (x * Pow2(k)) % W
  }

  lemma DivModUnique(x: int, d: int, q: int, r: int)
    requires 0 <= r < d
    requires x == q * d + r
    ensures x / d == q && x % d == r
  {
    var q', r' := x / d, x % d;
    assert (q' - q) * d == r - r';
    if q' > q {
      MulMono(1, q' - q, d);
    } else if q' < q {
      MulMono(q' - q, -1, d);
    }
  }

  lemma MulMono(a: int, b: int, d: int)
    requires a <= b && 0 <= d
    ensures a * d <= b * d
  {}

  lemma ModDouble(x: nat, p: nat)
    requires p > 0
    ensures x % (2 * p) == 2 * ((x / 2) % p) + x % 2
  {
    var q, m, b := (x / 2) / p, (x / 2) % p, x % 2;
    calc {
      x;
      2 * (x / 2) + b;
      2 * (q * p + m) + b;
      q * (2 * p) + (2 * m + b);
    }
    DivModUnique(x, 2 * p, q, 2 * m + b);
  }

  lemma AndZero(x: nat)
    ensures And(x, 0) == 0
  {}

  /** Masking with `2^k - 1` keeps the remainder modulo `2^k`. */
  lemma {:induction false} AndMask(x: nat, k: nat)
    ensures And(x, Pow2(k) - 1) == x % Pow2(k)
  {
    if k == 0 {
      AndZero(x);
    } else {
      var p := Pow2(k - 1);
      AndMask(x / 2, k - 1);
      ModDouble(x, p);
      var y := 2 * p - 1;
      assert y / 2 == p - 1 && y % 2 == 1;
      assert And(x, y) == x % 2 + 2 * And(x / 2, p - 1) by {
        if x == 0 { assert And(0, p - 1) == 0; }
      }
    }
  }

  lemma AndEven(x: nat, y: nat)
    ensures And(2 * x, 2 * y) == 2 * And(x, y)
  {}

  /** Masks that cover only multiples of `2^k` act on the quotients. */
  lemma {:induction false} AndHigh(x: nat, y: nat, k: nat)
    ensures And(x * Pow2(k), y * Pow2(k)) == And(x, y) * Pow2(k)
    decreases k
  {
    if k == 0 {
      assert x * 1 == x && y * 1 == y && And(x, y) * 1 == And(x, y);
    } else {
      var p := Pow2(k - 1);
      MulShift(x, p);
      MulShift(y, p);
      MulShift(And(x, y), p);
      AndHigh(2 * x, 2 * y, k - 1);
      AndEven(x, y);
    }
  }

  lemma MulShift(x: int, p: int)
    ensures x * (2 * p) == (2 * x) * p
  {}

  /** `|` of a multiple of `2^k` and a value below `2^k` is their sum. */
  lemma {:induction false} OrDisjoint(h: nat, l: nat, k: nat)
    requires l < Pow2(k)
    ensures Or(h * Pow2(k), l) == h * Pow2(k) + l
  {
    if k == 0 {
      OrZero(h);
    } else if h != 0 {
      var p := Pow2(k - 1);
      OrDisjoint(h, l / 2, k - 1);
      assert h * Pow2(k) == 2 * (h * p) by { MulShift(h, p); MulDouble(h, p); }
      assert h * p >= 1 by { MulMono(1, h, p); }
      OrEven(h * p, l);
    }
  }

  lemma MulDouble(x: int, p: int)
    ensures (2 * x) * p == 2 * (x * p)
  {}

  lemma OrEven(a: nat, l: nat)
    requires a > 0
    ensures Or(2 * a, l) == l % 2 + 2 * Or(a, l / 2)
  {
    assert (2 * a) / 2 == a && (2 * a) % 2 == 0;
  }

  lemma OrZero(x: nat)
    ensures Or(x, 0) == x
  {}

  lemma {:induction false} Pow2Add(a: nat, b: nat)
    ensures Pow2(a + b) == Pow2(a) * Pow2(b)
  {
    if a > 0 {
      Pow2Add(a - 1, b);
      calc {
        Pow2(a + b);
        2 * Pow2((a - 1) + b);
        2 * (Pow2(a - 1) * Pow2(b));
        (2 * Pow2(a - 1)) * Pow2(b);
      }
    }
  }

  lemma Pow2Words()
    ensures Pow2(62) == 0x4000_0000_0000_0000
    ensures Pow2(63) == 0x8000_0000_0000_0000
  {
    assert Pow2(8) == 0x100;
    Pow2Add(8, 8);
    Pow2Add(16, 16);
    Pow2Add(16, 8);
    assert Pow2(6) == 0x40;
    Pow2Add(24, 6);
    Pow2Add(32, 30);
    assert Pow2(63) == 2 * Pow2(62);
  }

  const P62: nat := 0x4000_0000_0000_0000
  const P63: nat := 0x8000_0000_0000_0000

  /** `x & 0x7FFFFFFFFFFFFFFF` */
  function Low63(x: U64): (r: U64)
    ensures r == x % P63
  {
    Pow2Words();
    AndMask(x, 63);
    And(x, 0x7FFF_FFFF_FFFF_FFFF)
  }

  /** `x & 0x3FFFFFFFFFFFFFFF` */
  function Low62(x: U64): (r: U64)
    ensures r == x % P62
  {
    Pow2Words();
    AndMask(x, 62);
    And(x, 0x3FFF_FFFF_FFFF_FFFF)
  }

  /** `x >> 63` */
  function Top1(x: U64): (r: nat)
    ensures r == x / P63
  {
    Pow2Words();
    Shr(x, 63)
  }

  /** `x >> 62` */
  function Top2(x: U64): (r: nat)
    ensures r == x / P62
  {
    Pow2Words();
    Shr(x, 62)
  }

  /** `((d << 63) & 0x8000000000000000) | (c & 0x7FFFFFFFFFFFFFFF)` */
  function Merge63(d: nat, c: U64): (r: U64)
    requires d < 4
    ensures r == (d % 2) * P63 + c % P63
  {
    Pow2Words();
    assert Shl64(d, 63) == (d % 2) * Pow2(63);
    AndHigh(d % 2, 1, 63);
    AndBit(d % 2);
    OrDisjoint(d % 2, Low63(c), 63);
    Or(And(Shl64(d, 63), 0x8000_0000_0000_0000), Low63(c))
  }

  /** `((d << 62) & 0xC000000000000000) | (c & 0x3FFFFFFFFFFFFFFF)` */
  function Merge62(d: nat, c: U64): (r: U64)
    requires d < 16
    ensures r == (d % 4) * P62 + c % P62
  {
    Pow2Words();
    assert Shl64(d, 62) == (d % 4) * Pow2(62);
    AndHigh(d % 4, 3, 62);
    AndBits(d % 4);
    OrDisjoint(d % 4, Low62(c), 62);
    Or(And(Shl64(d, 62), 0xC000_0000_0000_0000), Low62(c))
  }

  lemma AndBit(h: nat)
    requires h < 2
    ensures And(h, 1) == h
  {}

  lemma AndBits(h: nat)
    requires h < 4
    ensures And(h, 3) == h
  {
    assert Pow2(2) == 4;
    AndMask(h, 2);
  }
}
