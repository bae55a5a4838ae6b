/** Byte strings and unbounded non-negative integers, as Python has them: exclusive or,
    shifts as division by powers of two, and big-endian conversion. */
module Bits {

  type byte = x: nat | x < 256
  type bytes = seq<byte>

  function Pow2(n: nat): (p: nat)
    ensures p > 0
  {
    if n == 0 then 1 else 2 * Pow2(n - 1)
  }

  lemma DoubleLeft(p: nat, q: nat)
    ensures 2 * (p * q) == (2 * p) * q
  {
  }

  lemma {:induction false} Pow2Add(m: nat, n: nat)
    ensures Pow2(m + n) == Pow2(m) * Pow2(n)
  {
    if m > 0 {
      Pow2Add(m - 1, n);
      DoubleLeft(Pow2(m - 1), Pow2(n));
    }
  }

  /** Exclusive or, digit by binary digit. */
  function Xor(a: nat, b: nat): nat
    decreases a + b
  {
    if a == 0 && b == 0 then 0 else (a + b) % 2 + 2 * Xor(a / 2, b / 2)
  }

  lemma Halves(d: nat, x: nat)
    requires d < 2
    ensures (d + 2 * x) % 2 == d && (d + 2 * x) / 2 == x
  {
  }

  lemma XorStep(a: nat, b: nat)
    ensures Xor(a, b) % 2 == (a + b) % 2
    ensures Xor(a, b) / 2 == Xor(a / 2, b / 2)
  {
    if a == 0 && b == 0 {
    } else {
      Halves((a + b) % 2, Xor(a / 2, b / 2));
    }
  }

  /** Two numbers with the same last digit and the same remaining digits are equal. */
  lemma SameDigits(a: nat, b: nat)
    requires a % 2 == b % 2 && a / 2 == b / 2
    ensures a == b
  {
  }

  lemma {:induction false} XorComm(a: nat, b: nat)
    ensures Xor(a, b) == Xor(b, a)
    decreases a + b
  {
    if a != 0 || b != 0 {
      XorComm(a / 2, b / 2);
    }
  }

  lemma {:induction false} XorZero(a: nat)
    ensures Xor(a, 0) == a && Xor(0, a) == a && Xor(a, a) == 0
  {
    if a != 0 {
      XorZero(a / 2);
    }
  }

  lemma ParityAssoc(a: nat, b: nat, c: nat, ab: nat, bc: nat)
    requires ab % 2 == (a + b) % 2 && bc % 2 == (b + c) % 2
    ensures (ab + c) % 2 == (a + bc) % 2
  {
  }

  lemma {:induction false} XorAssoc(a: nat, b: nat, c: nat)
    ensures Xor(Xor(a, b), c) == Xor(a, Xor(b, c))
    decreases a + b + c
  {
    if a != 0 || b != 0 || c != 0 {
      XorAssoc(a / 2, b / 2, c / 2);
      XorStep(a, b);
      XorStep(b, c);
      var ab, bc := Xor(a, b), Xor(b, c);
      XorStep(ab, c);
      XorStep(a, bc);
      ParityAssoc(a, b, c, ab, bc);
      SameDigits(Xor(ab, c), Xor(a, bc));
    }
  }

  /** Exclusive or undoes itself. */
  lemma XorCancel(a: nat, b: nat)
    ensures Xor(Xor(a, b), b) == a
  {
    XorAssoc(a, b, b);
    XorZero(b);
    XorZero(a);
  }

  lemma XorInjective(a: nat, b: nat, c: nat)
    requires Xor(a, c) == Xor(b, c)
    ensures a == b
  {
    XorCancel(a, c);
    XorCancel(b, c);
  }

  lemma XorIsZero(a: nat, b: nat)
    ensures Xor(a, b) == 0 <==> a == b
  {
    XorZero(b);
    if Xor(a, b) == 0 {
      XorInjective(a, b, b);
    }
  }

  lemma XorSwap(a: nat, b: nat, c: nat, d: nat)
    ensures Xor(Xor(a, b), Xor(c, d)) == Xor(Xor(a, c), Xor(b, d))
  {
    XorAssoc(a, b, Xor(c, d));
    XorAssoc(b, c, d);
    XorComm(b, c);
    XorAssoc(c, b, d);
    XorAssoc(a, c, Xor(b, d));
  }

  lemma {:induction false} XorBound(a: nat, b: nat, n: nat)
    requires a < Pow2(n) && b < Pow2(n)
    ensures Xor(a, b) < Pow2(n)
  {
    if n > 0 {
      XorBound(a / 2, b / 2, n - 1);
    }
  }

  lemma Double(a: nat, p: nat)
    ensures a * (2 * p) == 2 * (a * p)
  {
  }

  lemma XorEven(a: nat, b: nat)
    ensures Xor(2 * a, 2 * b) == 2 * Xor(a, b)
  {
    if a != 0 || b != 0 {
      Halves(0, a);
      Halves(0, b);
      Halves(0, a + b);
      assert Xor(2 * a, 2 * b) == (2 * a + 2 * b) % 2 + 2 * Xor(a, b);
    }
  }

  /** `a << k` */
  function Shl(a: nat, k: nat): (r: nat)
  {
    if k == 0 then a else 2 * Shl(a, k - 1)
  }

  lemma {:induction false} ShlIsScale(a: nat, k: nat)
    ensures Shl(a, k) == a * Pow2(k)
  {
    if k > 0 {
      ShlIsScale(a, k - 1);
      Double(a, Pow2(k - 1));
    }
  }

  lemma {:induction false} XorShl(a: nat, b: nat, k: nat)
    ensures Xor(Shl(a, k), Shl(b, k)) == Shl(Xor(a, b), k)
  {
    if k > 0 {
      XorShl(a, b, k - 1);
      XorEven(Shl(a, k - 1), Shl(b, k - 1));
    }
  }

  /** Adding a single last digit to an even number is an exclusive or. */
  lemma XorLastDigit(a: nat, d: nat)
    requires d < 2
    ensures Xor(2 * a, d) == 2 * a + d
  {
    XorZero(a);
    Halves(d, a);
    Halves(0, a);
    assert Xor(2 * a, d) == (2 * a + d) % 2 + 2 * Xor(a, 0);
  }

  /** `x >> k` */
  function Shr(x: nat, k: nat): (r: nat)
  {
    if k == 0 then x else Shr(x / 2, k - 1)
  }

  /** Digit i of x, counted from the least significant: `(x >> i) & 1`. */
  function Bit(x: nat, i: nat): (b: nat)
    ensures b < 2
  {
    Shr(x, i) % 2
  }

  lemma {:induction false} ShrNext(x: nat, k: nat)
    ensures Shr(x, k + 1) == Shr(x, k) / 2
  {
    if k > 0 {
      ShrNext(x / 2, k - 1);
    }
  }

  lemma {:induction false} ShrZero(x: nat, k: nat)
    requires x < Pow2(k)
    ensures Shr(x, k) == 0
  {
    if k > 0 {
      ShrZero(x / 2, k - 1);
    }
  }

  lemma {:induction false} ShrXor(a: nat, b: nat, k: nat)
    ensures Shr(Xor(a, b), k) == Xor(Shr(a, k), Shr(b, k))
  {
    if k > 0 {
      XorStep(a, b);
      ShrXor(a / 2, b / 2, k - 1);
    }
  }

  lemma SumOfParities(a: nat, b: nat)
    ensures (a % 2 + b % 2) % 2 == (a + b) % 2
  {
  }

  lemma BitXor(a: nat, b: nat, i: nat)
    ensures Bit(Xor(a, b), i) == (Bit(a, i) + Bit(b, i)) % 2
  {
    ShrXor(a, b, i);
    XorStep(Shr(a, i), Shr(b, i));
    SumOfParities(Shr(a, i), Shr(b, i));
  }

  lemma {:induction false} ShlBit(a: nat, k: nat, i: nat)
    ensures Bit(Shl(a, k), i) == if i < k then 0 else Bit(a, i - k)
  {
    if k > 0 {
      Halves(0, Shl(a, k - 1));
      if i > 0 {
        ShlBit(a, k - 1, i - 1);
      }
    }
  }

  // ---- big-endian bytes ----------------------------------------------------

  function Pow256(n: nat): (p: nat)
    ensures p > 0
  {
    if n == 0 then 1 else 256 * Pow256(n - 1)
  }

  lemma {:induction false} Pow256IsPow2(n: nat)
    ensures Pow256(n) == Pow2(8 * n)
  {
    if n > 0 {
      Pow256IsPow2(n - 1);
      Pow2Add(8, 8 * (n - 1));
      assert Pow2(8) == 256;
    }
  }

  /** `int.from_bytes(b, "big")` */
  function ToInt(b: bytes): (x: nat)
    ensures x < Pow256(|b|)
  {
    if |b| == 0 then 0 else ToInt(b[..|b| - 1]) * 256 + b[|b| - 1]
  }

  /** `x.to_bytes(n, "big")`; Python raises OverflowError outside the stated range. */
  function FromInt(x: nat, n: nat): (b: bytes)
    requires x < Pow256(n)
    ensures |b| == n
  {
    if n == 0 then [] else FromInt(x / 256, n - 1) + [x % 256]
  }

  lemma {:induction false} ToIntOfFromInt(x: nat, n: nat)
    requires x < Pow256(n)
    ensures ToInt(FromInt(x, n)) == x
  {
    if n > 0 {
      ToIntOfFromInt(x / 256, n - 1);
      assert FromInt(x, n)[..n - 1] == FromInt(x / 256, n - 1);
    }
  }

  lemma {:induction false} FromIntOfToInt(b: bytes)
    ensures FromInt(ToInt(b), |b|) == b
  {
    if |b| > 0 {
      var front := b[..|b| - 1];
      FromIntOfToInt(front);
      assert (front + [b[|b| - 1]]) == b;
    }
  }

  lemma Regroup(a: nat, p: nat, f: nat)
    ensures (a * p + f) * 256 == a * (256 * p) + f * 256
  {
  }

  lemma {:induction false} ToIntConcat(a: bytes, b: bytes)
    ensures ToInt(a + b) == ToInt(a) * Pow256(|b|) + ToInt(b)
  {
    if |b| == 0 {
      assert a + b == a;
    } else {
      var front := b[..|b| - 1];
      ToIntConcat(a, front);
      assert (a + b)[..|a + b| - 1] == a + front;
      Regroup(ToInt(a), Pow256(|b| - 1), ToInt(front));
    }
  }

  function Zeros(n: nat): (b: bytes)
    ensures |b| == n && forall i :: 0 <= i < n ==> b[i] == 0
  {
    seq(n, _ => 0)
  }

  lemma ByteXor(a: byte, b: byte)
    ensures Xor(a, b) < 256
  {
    assert Pow2(8) == 256;
    XorBound(a, b, 8);
  }

  function XorByte(a: byte, b: byte): (c: byte)
  {
    ByteXor(a, b);
    Xor(a, b)
  }

  /** `bytes(x ^ y for x, y in zip(a, b))`: stops at the shorter operand. */
  function XorBytes(a: bytes, b: bytes): (c: bytes)
    ensures |c| == if |a| <= |b| then |a| else |b|
    ensures forall i :: 0 <= i < |c| ==> c[i] == XorByte(a[i], b[i])
  {
    seq(if |a| <= |b| then |a| else |b|, i requires 0 <= i < |a| && i < |b| => XorByte(a[i], b[i]))
  }

  lemma XorBytesCancel(a: bytes, b: bytes)
    requires |a| <= |b|
    ensures XorBytes(XorBytes(a, b), b) == a
  {
    forall i | 0 <= i < |a|
      ensures XorByte(XorByte(a[i], b[i]), b[i]) == a[i]
    {
      XorCancel(a[i], b[i]);
    }
  }
}
