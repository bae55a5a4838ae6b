/** Block multiplication of section 6.3 of NIST SP 800-38D, on blocks read as big-endian
    integers: the leftmost bit of a block (2^127) is the coefficient of u^0. */
module Gf128 {
  import opened Bits

  const R: nat := 0xE1000000000000000000000000000000
  const ONE: nat := 0x80000000000000000000000000000000
  const LIMIT: nat := 0x1_0000_0000_0000_0000_0000_0000_0000_0000

  lemma SmallPowers()
    ensures Pow2(32) == 0x1_0000_0000 && Pow2(24) == 0x100_0000
  {
    assert Pow2(8) == 0x100;
    Pow2Add(8, 8);
    Pow2Add(8, 16);
    Pow2Add(16, 16);
  }

  lemma Constants()
    ensures LIMIT == Pow2(128) && ONE == Pow2(127) && R == 0xE1 * Pow2(120)
  {
    SmallPowers();
    Pow2Add(32, 32);
    Pow2Add(64, 64);
    Pow2Add(24, 32);
    Pow2Add(56, 64);
    Pow2Add(1, 127);
  }

  /** Multiplication by u: shift right, and reduce when a bit falls off. */
  function Xtime(v: nat): nat
  {
    if v % 2 == 1 then Xor(v / 2, R) else v / 2
  }

  function XPow(v: nat, i: nat): nat
  {
    if i == 0 then v else Xtime(XPow(v, i - 1))
  }

  function Sel(b: nat, v: nat): nat
  {
    if b == 1 then v else 0
  }

  /** The terms of the product contributed by the leftmost n bits of y. */
  function MulTo(x: nat, y: nat, n: nat): nat
    requires n <= 128
  {
    if n == 0 then 0 else Xor(MulTo(x, y, n - 1), Sel(Bit(y, 128 - n), XPow(x, n - 1)))
  }

  function Mul(x: nat, y: nat): nat
  {
    MulTo(x, y, 128)
  }

  /** The shift-and-reduce loop. It scans the bits of its second argument. */
  method GfMul(x: nat, y: nat) returns (z: nat)
    ensures z == Mul(x, y)
  {
    z := 0;
    var v := x;
    for i := 0 to 128
      invariant z == MulTo(x, y, i)
      invariant v == XPow(x, i)
    {
      XorZero(z);
      if Shr(y, 127 - i) % 2 == 1 {
        z := Xor(z, v);
      }
      if v % 2 == 1 {
        v := Xor(v / 2, R);
      } else {
        v := v / 2;
      }
    }
  }

  // ---- linearity -----------------------------------------------------------

  lemma SelXor(b: nat, c: nat, v: nat)
    requires b < 2 && c < 2
    ensures Sel((b + c) % 2, v) == Xor(Sel(b, v), Sel(c, v))
  {
    XorZero(v);
    XorZero(0);
  }

  lemma SelXorValue(b: nat, v: nat, w: nat)
    ensures Sel(b, Xor(v, w)) == Xor(Sel(b, v), Sel(b, w))
  {
    XorZero(0);
  }

  lemma XtimeXor(a: nat, b: nat)
    ensures Xtime(Xor(a, b)) == Xor(Xtime(a), Xtime(b))
  {
    XorStep(a, b);
    XtimeForm(a);
    XtimeForm(b);
    XtimeForm(Xor(a, b));
    SumOfParities(a, b);
    SelXor(a % 2, b % 2, R);
    var p, q := Sel(a % 2, R), Sel(b % 2, R);
    XorSwap(a / 2, p, b / 2, q);
    assert Xtime(Xor(a, b)) == Xor(Xor(a / 2, b / 2), Xor(p, q));
  }

  lemma XtimeForm(v: nat)
    ensures Xtime(v) == Xor(v / 2, Sel(v % 2, R))
  {
    XorZero(v / 2);
  }

  lemma XtimeBound(v: nat)
    requires v < LIMIT
    ensures Xtime(v) < LIMIT
  {
    Constants();
    if v % 2 == 1 {
      XorBound(v / 2, R, 128);
    }
  }

  lemma {:induction false} XPowXor(a: nat, b: nat, i: nat)
    ensures XPow(Xor(a, b), i) == Xor(XPow(a, i), XPow(b, i))
  {
    if i > 0 {
      XPowXor(a, b, i - 1);
      XtimeXor(XPow(a, i - 1), XPow(b, i - 1));
    }
  }

  lemma {:induction false} XPowXtime(v: nat, i: nat)
    ensures XPow(Xtime(v), i) == Xtime(XPow(v, i))
  {
    if i > 0 {
      XPowXtime(v, i - 1);
    }
  }

  lemma {:induction false} XPowBound(v: nat, i: nat)
    requires v < LIMIT
    ensures XPow(v, i) < LIMIT
  {
    if i > 0 {
      XPowBound(v, i - 1);
      XtimeBound(XPow(v, i - 1));
    }
  }

  lemma {:induction false} MulToBound(x: nat, y: nat, n: nat)
    requires x < LIMIT && n <= 128
    ensures MulTo(x, y, n) < LIMIT
  {
    Constants();
    if n > 0 {
      MulToBound(x, y, n - 1);
      XPowBound(x, n - 1);
      XorBound(MulTo(x, y, n - 1), Sel(Bit(y, 128 - n), XPow(x, n - 1)), 128);
    }
  }

  /** Multiplication stays within 128 bits. */
  lemma MulBound(x: nat, y: nat)
    requires x < LIMIT
    ensures Mul(x, y) < LIMIT
  {
    MulToBound(x, y, 128);
  }

  lemma {:induction false} MulToXorLeft(x: nat, w: nat, y: nat, n: nat)
    requires n <= 128
    ensures MulTo(Xor(x, w), y, n) == Xor(MulTo(x, y, n), MulTo(w, y, n))
  {
    if n == 0 {
      XorZero(0);
    } else {
      var b := Bit(y, 128 - n);
      MulToXorLeft(x, w, y, n - 1);
      XPowXor(x, w, n - 1);
      SelXorValue(b, XPow(x, n - 1), XPow(w, n - 1));
      XorSwap(MulTo(x, y, n - 1), MulTo(w, y, n - 1), Sel(b, XPow(x, n - 1)), Sel(b, XPow(w, n - 1)));
    }
  }

  lemma {:induction false} MulToXorRight(x: nat, y: nat, w: nat, n: nat)
    requires n <= 128
    ensures MulTo(x, Xor(y, w), n) == Xor(MulTo(x, y, n), MulTo(x, w, n))
  {
    if n == 0 {
      XorZero(0);
    } else {
      MulToXorRight(x, y, w, n - 1);
      BitXor(y, w, 128 - n);
      var v, b, c := XPow(x, n - 1), Bit(y, 128 - n), Bit(w, 128 - n);
      SelXor(b, c, v);
      XorSwap(MulTo(x, y, n - 1), MulTo(x, w, n - 1), Sel(b, v), Sel(c, v));
    }
  }

  /** Multiplication distributes over exclusive or, in both arguments. */
  lemma MulDistributes(x: nat, w: nat, y: nat)
    ensures Mul(Xor(x, w), y) == Xor(Mul(x, y), Mul(w, y))
    ensures Mul(y, Xor(x, w)) == Xor(Mul(y, x), Mul(y, w))
  {
    MulToXorLeft(x, w, y, 128);
    MulToXorRight(y, x, w, 128);
  }

  lemma {:induction false} MulToXtimeLeft(x: nat, y: nat, n: nat)
    requires n <= 128
    ensures MulTo(Xtime(x), y, n) == Xtime(MulTo(x, y, n))
  {
    if n > 0 {
      MulToXtimeLeft(x, y, n - 1);
      XPowXtime(x, n - 1);
      XtimeXor(MulTo(x, y, n - 1), Sel(Bit(y, 128 - n), XPow(x, n - 1)));
    }
  }

  lemma {:induction false} MulXPowLeft(x: nat, y: nat, i: nat)
    ensures Mul(XPow(x, i), y) == XPow(Mul(x, y), i)
  {
    if i > 0 {
      MulXPowLeft(x, y, i - 1);
      MulToXtimeLeft(XPow(x, i - 1), y, 128);
    }
  }

  lemma {:induction false} MulToZero(y: nat, n: nat)
    requires n <= 128
    ensures MulTo(0, y, n) == 0
  {
    if n > 0 {
      MulToZero(y, n - 1);
      XPowZero(n - 1);
      XorZero(0);
    }
  }

  lemma {:induction false} XPowZero(i: nat)
    ensures XPow(0, i) == 0
  {
    if i > 0 {
      XPowZero(i - 1);
    }
  }

  lemma MulZero(y: nat)
    ensures Mul(0, y) == 0
  {
    MulToZero(y, 128);
  }

  // ---- identity ------------------------------------------------------------

  lemma {:induction false} XPowOne(i: nat)
    requires i <= 127
    ensures XPow(ONE, i) == Shl(1, 127 - i)
  {
    if i == 0 {
      OneIsTop();
    } else {
      XPowOne(i - 1);
      HalveShl(127 - i);
    }
  }

  lemma OneIsTop()
    ensures ONE == Shl(1, 127)
  {
    Constants();
    ShlIsScale(1, 127);
  }

  lemma HalveShl(k: nat)
    ensures Xtime(Shl(1, k + 1)) == Shl(1, k)
  {
  }

  lemma {:induction false} ShlNext(a: nat, k: nat)
    ensures Shl(a, k + 1) == Shl(2 * a, k)
  {
    if k > 0 {
      ShlNext(a, k - 1);
    }
  }

  lemma {:induction false} ShlZero(k: nat)
    ensures Shl(0, k) == 0
  {
    if k > 0 {
      ShlZero(k - 1);
    }
  }

  lemma {:induction false} MulToUnit(e: nat, y: nat, n: nat, k: nat)
    requires forall i: nat :: i <= 127 ==> XPow(e, i) == Shl(1, 127 - i)
    requires y < LIMIT && n + k == 128
    ensures MulTo(e, y, n) == Shl(Shr(y, k), k)
  {
    if n == 0 {
      Constants();
      ShrZero(y, k);
      ShlZero(k);
    } else {
      MulToUnit(e, y, n - 1, k + 1);
      assert XPow(e, n - 1) == Shl(1, k);
      NextBit(y, k);
    }
  }

  /** Appending digit k of y to the digits above it. */
  lemma NextBit(y: nat, k: nat)
    ensures Xor(Shl(Shr(y, k + 1), k + 1), Sel(Bit(y, k), Shl(1, k))) == Shl(Shr(y, k), k)
  {
    ShrNext(y, k);
    JoinBit(Shr(y, k), k);
  }

  lemma JoinBit(q: nat, k: nat)
    ensures Xor(Shl(q / 2, k + 1), Sel(q % 2, Shl(1, k))) == Shl(q, k)
  {
    ShlNext(q / 2, k);
    ShlZero(k);
    XorShl(2 * (q / 2), q % 2, k);
    XorLastDigit(q / 2, q % 2);
  }

  lemma MulOneLeft(y: nat)
    requires y < LIMIT
    ensures Mul(ONE, y) == y
  {
    forall i: nat | i <= 127
      ensures XPow(ONE, i) == Shl(1, 127 - i)
    {
      XPowOne(i);
    }
    MulToUnit(ONE, y, 128, 0);
  }

  // ---- commutativity and associativity -------------------------------------

  lemma MulSelXPow(b: nat, x: nat, i: nat)
    requires x < LIMIT
    ensures Mul(Sel(b, XPow(ONE, i)), x) == Sel(b, XPow(x, i))
  {
    MulXPowLeft(ONE, x, i);
    MulOneLeft(x);
    MulZero(x);
  }

  lemma {:induction false} MulToBasis(x: nat, y: nat, n: nat)
    requires x < LIMIT && n <= 128
    ensures MulTo(x, y, n) == Mul(MulTo(ONE, y, n), x)
  {
    if n == 0 {
      MulZero(x);
    } else {
      var b := Bit(y, 128 - n);
      MulToBasis(x, y, n - 1);
      MulSelXPow(b, x, n - 1);
      MulToXorLeft(MulTo(ONE, y, n - 1), Sel(b, XPow(ONE, n - 1)), x, 128);
    }
  }

  lemma MulCommutes(x: nat, y: nat)
    requires x < LIMIT && y < LIMIT
    ensures Mul(x, y) == Mul(y, x)
  {
    MulToBasis(x, y, 128);
    MulOneLeft(y);
  }

  /** `1 << 127` is the identity on both sides. */
  lemma MulIdentity(x: nat)
    requires x < LIMIT
    ensures Mul(x, ONE) == x && Mul(ONE, x) == x
  {
    MulOneLeft(x);
    MulCommutes(x, ONE);
  }

  lemma {:induction false} MulXPowRight(x: nat, y: nat, i: nat)
    requires x < LIMIT && y < LIMIT
    ensures Mul(x, XPow(y, i)) == XPow(Mul(x, y), i)
  {
    XPowBound(y, i);
    MulCommutes(x, XPow(y, i));
    MulXPowLeft(y, x, i);
    MulCommutes(x, y);
  }

  lemma {:induction false} MulToAssociates(x: nat, y: nat, z: nat, n: nat)
    requires x < LIMIT && y < LIMIT && n <= 128
    ensures Mul(x, MulTo(y, z, n)) == MulTo(Mul(x, y), z, n)
  {
    if n == 0 {
      MulCommutes(x, 0);
      MulZero(x);
    } else {
      var b := Bit(z, 128 - n);
      MulToAssociates(x, y, z, n - 1);
      MulXPowRight(x, y, n - 1);
      MulCommutes(x, 0);
      MulZero(x);
      MulDistributes(MulTo(y, z, n - 1), Sel(b, XPow(y, n - 1)), x);
    }
  }

  lemma MulAssociates(x: nat, y: nat, z: nat)
    requires x < LIMIT && y < LIMIT
    ensures Mul(Mul(x, y), z) == Mul(x, Mul(y, z))
  {
    MulToAssociates(x, y, z, 128);
  }

  // ---- the reference: polynomials over GF(2) -------------------------------
  // A polynomial is a number whose digit i is the coefficient of u^i.

  const MODULUS: nat := 0x1_0000_0000_0000_0000_0000_0000_0000_0087

  /** Schoolbook product of two polynomials, without reduction. */
  function ClMul(a: nat, b: nat): nat
    decreases b
  {
    if b == 0 then 0 else Xor(Sel(b % 2, a), 2 * ClMul(a, b / 2))
  }

  /** The polynomial of the leftmost n bits of a block: bit i from the left is the coefficient of u^i. */
  function PolyTo(v: nat, n: nat): nat
    requires n <= 128
  {
    if n == 0 then 0 else Xor(PolyTo(v, n - 1), Sel(Bit(v, 128 - n), Shl(1, n - 1)))
  }

  function Poly(v: nat): nat
  {
    PolyTo(v, 128)
  }

  lemma ClMulStep(a: nat, b: nat)
    ensures ClMul(a, b) == Xor(Sel(b % 2, a), 2 * ClMul(a, b / 2))
  {
    XorZero(0);
  }

  lemma {:induction false} ClMulXor(a: nat, b: nat, c: nat)
    ensures ClMul(a, Xor(b, c)) == Xor(ClMul(a, b), ClMul(a, c))
    decreases b + c
  {
    if b == 0 && c == 0 {
      XorZero(0);
    } else {
      XorStep(b, c);
      ClMulXor(a, b / 2, c / 2);
      SumOfParities(b, c);
      SelXor(b % 2, c % 2, a);
      ClMulStep(a, b);
      ClMulStep(a, c);
      ClMulStep(a, Xor(b, c));
      XorEven(ClMul(a, b / 2), ClMul(a, c / 2));
      XorSwap(Sel(b % 2, a), 2 * ClMul(a, b / 2), Sel(c % 2, a), 2 * ClMul(a, c / 2));
    }
  }

  lemma {:induction false} ClMulShl(a: nat, i: nat)
    ensures Shl(1, i) > 0 && ClMul(a, Shl(1, i)) == Shl(a, i)
  {
    if i == 0 {
      assert ClMul(a, 1) == Xor(a, 2 * ClMul(a, 0));
      XorZero(a);
    } else {
      ClMulShl(a, i - 1);
      XorZero(2 * Shl(a, i - 1));
    }
  }

  lemma {:induction false} PolyToXor(v: nat, w: nat, n: nat)
    requires n <= 128
    ensures PolyTo(Xor(v, w), n) == Xor(PolyTo(v, n), PolyTo(w, n))
  {
    if n == 0 {
      XorZero(0);
    } else {
      PolyToXor(v, w, n - 1);
      BitXor(v, w, 128 - n);
      var s, b, c := Shl(1, n - 1), Bit(v, 128 - n), Bit(w, 128 - n);
      SelXor(b, c, s);
      XorSwap(PolyTo(v, n - 1), PolyTo(w, n - 1), Sel(b, s), Sel(c, s));
    }
  }

  lemma {:induction false} PolyToBound(v: nat, n: nat)
    requires n <= 128
    ensures PolyTo(v, n) < Pow2(n)
  {
    if n > 0 {
      PolyToBound(v, n - 1);
      ShlIsScale(1, n - 1);
      XorBound(PolyTo(v, n - 1), Sel(Bit(v, 128 - n), Shl(1, n - 1)), n);
    }
  }

  lemma {:induction false} PolyToHalf(v: nat, n: nat)
    requires v < LIMIT && n <= 127
    ensures PolyTo(v / 2, n + 1) == 2 * PolyTo(v, n)
  {
    assert Bit(v / 2, 128 - (n + 1)) == Bit(v, 128 - n);
    if n == 0 {
      Constants();
      ShrZero(v, 128 - n);
      XorZero(0);
    } else {
      PolyToHalf(v, n - 1);
      XorEven(PolyTo(v, n - 1), Sel(Bit(v, 128 - n), Shl(1, n - 1)));
    }
  }

  lemma {:induction false} PolyToR(n: nat)
    requires 8 <= n <= 128
    ensures PolyTo(R, n) == 0x87
  {
    if n == 8 {
      TopBitsOfR();
      PolyOfTopByte();
    } else {
      PolyToR(n - 1);
      BitsOfR(128 - n);
      XorZero(0x87);
    }
  }

  lemma BitsOfR(i: nat)
    ensures Bit(R, i) == if i < 120 then 0 else Bit(0xE1, i - 120)
  {
    Constants();
    ShlIsScale(0xE1, 120);
    ShlBit(0xE1, 120, i);
  }

  lemma TopBitsOfR()
    ensures Bit(R, 127) == 1 && Bit(R, 126) == 1 && Bit(R, 125) == 1 && Bit(R, 124) == 0
    ensures Bit(R, 123) == 0 && Bit(R, 122) == 0 && Bit(R, 121) == 0 && Bit(R, 120) == 1
  {
    forall i: nat | 120 <= i
      ensures Bit(R, i) == Bit(0xE1, i - 120)
    {
      BitsOfR(i);
    }
    assert Bit(0xE1, 7) == 1 && Bit(0xE1, 6) == 1 && Bit(0xE1, 5) == 1 && Bit(0xE1, 4) == 0;
    assert Bit(0xE1, 3) == 0 && Bit(0xE1, 2) == 0 && Bit(0xE1, 1) == 0 && Bit(0xE1, 0) == 1;
  }

  lemma PolyOfTopByte()
    requires Bit(R, 127) == 1 && Bit(R, 126) == 1 && Bit(R, 125) == 1 && Bit(R, 124) == 0
    requires Bit(R, 123) == 0 && Bit(R, 122) == 0 && Bit(R, 121) == 0 && Bit(R, 120) == 1
    ensures PolyTo(R, 8) == 0x87
  {
    assert Shl(1, 1) == 2 && Shl(1, 2) == 4 && Shl(1, 7) == 128;
    assert PolyTo(R, 1) == 1;
    assert PolyTo(R, 2) == 3;
    assert PolyTo(R, 3) == 7;
    XorZero(7);
    assert PolyTo(R, 4) == 7;
    assert PolyTo(R, 5) == 7;
    assert PolyTo(R, 6) == 7;
    assert PolyTo(R, 7) == 7;
  }

  /** Shifting a block multiplies its polynomial by u, up to one multiple of the modulus. */
  lemma PolyXtime(v: nat)
    requires v < LIMIT
    ensures 2 * Poly(v) == Xor(Poly(Xtime(v)), Sel(v % 2, MODULUS))
  {
    var top := Sel(v % 2, Shl(1, 127));
    assert Bit(v, 0) == v % 2;
    PolyToHalf(v, 127);
    XorEven(PolyTo(v, 127), top);
    assert 2 * Poly(v) == Xor(Poly(v / 2), 2 * top);
    if v % 2 == 1 {
      PolyToXor(v / 2, R, 128);
      PolyToR(128);
      Constants();
      ShlIsScale(1, 127);
      XorAssoc(Poly(v / 2), 0x87, MODULUS);
      SplitModulus();
    }
  }

  lemma SplitModulus()
    ensures Xor(0x87, MODULUS) == LIMIT
  {
    XorComm(LIMIT, 0x87);
    LowByte();
    XorCancel(LIMIT, 0x87);
    XorComm(MODULUS, 0x87);
  }

  lemma LowByte()
    ensures Xor(LIMIT, 0x87) == MODULUS
  {
    var h: nat := LIMIT / 256;
    XorZero(h);
    assert Xor(2 * h, 1) == 2 * h + 1;
    assert Xor(4 * h, 2) == 4 * h + 2;
    assert Xor(8 * h, 4) == 8 * h + 4;
    assert Xor(16 * h, 8) == 16 * h + 8;
    assert Xor(32 * h, 16) == 32 * h + 16;
    assert Xor(64 * h, 33) == 64 * h + 33;
    assert Xor(128 * h, 67) == 128 * h + 67;
  }

  lemma {:induction false} PolyXPow(x: nat, i: nat) returns (q: nat)
    requires x < LIMIT
    ensures Shl(Poly(x), i) == Xor(Poly(XPow(x, i)), ClMul(MODULUS, q))
  {
    if i == 0 {
      q := 0;
      XorZero(Poly(x));
    } else {
      var p := PolyXPow(x, i - 1);
      XPowBound(x, i - 1);
      q := PolyNext(Shl(Poly(x), i - 1), XPow(x, i - 1), p);
    }
  }

  lemma PolyNext(s: nat, v: nat, p: nat) returns (q: nat)
    requires v < LIMIT && s == Xor(Poly(v), ClMul(MODULUS, p))
    ensures 2 * s == Xor(Poly(Xtime(v)), ClMul(MODULUS, q))
  {
    q := 2 * p + v % 2;
    PolyStep(s, v, p);
  }

  lemma PolyStep(s: nat, v: nat, p: nat)
    requires v < LIMIT && s == Xor(Poly(v), ClMul(MODULUS, p))
    ensures 2 * s == Xor(Poly(Xtime(v)), ClMul(MODULUS, 2 * p + v % 2))
  {
    var m := Sel(v % 2, MODULUS);
    PolyXtime(v);
    XorEven(Poly(v), ClMul(MODULUS, p));
    XorAssoc(Poly(Xtime(v)), m, 2 * ClMul(MODULUS, p));
    ClMulStep(MODULUS, 2 * p + v % 2);
    Halves(v % 2, p);
  }

  lemma {:induction false} PolyMulTo(x: nat, y: nat, n: nat) returns (q: nat)
    requires x < LIMIT && n <= 128
    ensures ClMul(Poly(x), PolyTo(y, n)) == Xor(Poly(MulTo(x, y, n)), ClMul(MODULUS, q))
  {
    if n == 0 {
      q := 0;
      PolyOfZero(128);
      XorZero(0);
    } else {
      var p := PolyMulTo(x, y, n - 1);
      var r := PolyXPow(x, n - 1);
      var b := Bit(y, 128 - n);
      var v := XPow(x, n - 1);
      q := Xor(p, Sel(b, r));
      ClMulXor(Poly(x), PolyTo(y, n - 1), Sel(b, Shl(1, n - 1)));
      ClMulShl(Poly(x), n - 1);
      PolyToXor(MulTo(x, y, n - 1), Sel(b, v), 128);
      ClMulXor(MODULUS, p, Sel(b, r));
      PolyOfZero(128);
      XorZero(0);
      XorSwap(Poly(MulTo(x, y, n - 1)), ClMul(MODULUS, p), Poly(Sel(b, v)), ClMul(MODULUS, Sel(b, r)));
    }
  }

  lemma {:induction false} PolyOfZero(n: nat)
    requires n <= 128
    ensures PolyTo(0, n) == 0
  {
    if n > 0 {
      PolyOfZero(n - 1);
      ShrOfZero(128 - n);
      XorZero(0);
    }
  }

  lemma {:induction false} ShrOfZero(k: nat)
    ensures Shr(0, k) == 0
  {
    if k > 0 {
      ShrOfZero(k - 1);
    }
  }

  /** r is the remainder of a polynomial modulo u^128 + u^7 + u^2 + u + 1. */
  ghost predicate IsRemainder(a: nat, r: nat)
  {
    r < LIMIT && exists q: nat :: a == Xor(r, ClMul(MODULUS, q))
  }

  lemma {:induction false} MultiplesAreLarge(q: nat)
    requires q > 0
    ensures ClMul(MODULUS, q) >= LIMIT
  {
    if q == 1 {
      ClMulShl(MODULUS, 0);
    } else {
      MultiplesAreLarge(q / 2);
      Constants();
      var t := 2 * ClMul(MODULUS, q / 2);
      var m := Sel(q % 2, MODULUS);
      if Xor(m, t) < LIMIT {
        assert Pow2(129) == 2 * Pow2(128);
        XorComm(m, t);
        XorBound(Xor(t, m), m, 129);
        XorCancel(t, m);
        assert false;
      }
    }
  }

  lemma RemainderUnique(a: nat, r: nat, s: nat)
    requires IsRemainder(a, r) && IsRemainder(a, s)
    ensures r == s
  {
    var p: nat :| a == Xor(r, ClMul(MODULUS, p));
    var q: nat :| a == Xor(s, ClMul(MODULUS, q));
    var cp, cq := ClMul(MODULUS, p), ClMul(MODULUS, q);
    XorSwap(r, cp, s, cq);
    XorZero(a);
    XorIsZero(Xor(r, s), Xor(cp, cq));
    ClMulXor(MODULUS, p, q);
    Constants();
    XorBound(r, s, 128);
    if Xor(p, q) > 0 {
      MultiplesAreLarge(Xor(p, q));
      assert false;
    }
    XorIsZero(r, s);
  }

  /** The loop computes the product of the two polynomials modulo
      u^128 + u^7 + u^2 + u + 1, and that remainder is the only one. */
  lemma MulIsPolynomialProduct(x: nat, y: nat, r: nat)
    requires x < LIMIT && y < LIMIT
    ensures IsRemainder(ClMul(Poly(x), Poly(y)), r) <==> r == Poly(Mul(x, y))
  {
    var q := PolyMulTo(x, y, 128);
    Constants();
    PolyToBound(Mul(x, y), 128);
    assert IsRemainder(ClMul(Poly(x), Poly(y)), Poly(Mul(x, y)));
    if IsRemainder(ClMul(Poly(x), Poly(y)), r) {
      RemainderUnique(ClMul(Poly(x), Poly(y)), r, Poly(Mul(x, y)));
    }
  }
}
