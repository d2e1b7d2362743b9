/** Go's integer operators, written out over Dafny's unbounded integers.
    Go's `/` and `%` truncate toward zero (Dafny's are Euclidean), and Go's
    `^`, `&` and `|` are bitwise on two's-complement integers. The 64-bit
    width is not modelled: every model states where it relies on values
    staying in range. */
module GoInt {

  function Abs(x: int): (r: nat)
    ensures r == x || r == -x
  {
    if x < 0 then -x else x
  }

  function Pow2(k: nat): (r: nat)
    ensures r >= 1
  {
    if k == 0 then 1 else 2 * Pow2(k - 1)
  }

  function Pow10(k: nat): (r: nat)
    ensures r >= 1
  {
    if k == 0 then 1 else 10 * Pow10(k - 1)
  }

  /** Go's `a / b`: the quotient truncated toward zero. */
  function Quo(a: int, b: int): int
    requires b != 0
  {
    if a >= 0 then (if b > 0 then a / b else -(a / -b))
    else (if b > 0 then -((-a) / b) else (-a) / (-b))
  }

  /** Go's `a % b`: the remainder has the sign of the dividend. */
  function Rem(a: int, b: int): int
    requires b != 0
  {
    a - b * Quo(a, b)
  }

  /** The remainder is smaller than the divisor in magnitude and carries
      the sign of the dividend; quotient and remainder rebuild `a`. */
  lemma QuoRem(a: int, b: int)
    requires b != 0
    ensures a == b * Quo(a, b) + Rem(a, b)
    ensures a >= 0 ==> 0 <= Rem(a, b) < Abs(b)
    ensures a < 0 ==> 0 < Rem(a, b) + Abs(b) && Rem(a, b) <= 0
  {
    if a >= 0 && b > 0 {
      assert Rem(a, b) == a % b;
    } else if a >= 0 {
      assert Rem(a, b) == a - b * -(a / -b) == a - (-b) * (a / -b) == a % -b;
    } else if b > 0 {
      assert Rem(a, b) == a + b * ((-a) / b) == -((-a) - b * ((-a) / b)) == -((-a) % b);
    } else {
      assert Rem(a, b) == a - b * ((-a) / (-b)) == -((-a) - (-b) * ((-a) / (-b))) == -((-a) % (-b));
    }
  }

  /** An exact multiple divides with no remainder, giving back the factor. */
  lemma QuoExact(d: int, b: int)
    requires d != 0
    ensures Quo(d * b, d) == b && Rem(d * b, d) == 0
  {
    if d > 0 && b >= 0 {
      DivExact(d, b);
    } else if d > 0 {
      assert d * b == -(d * -b);
      DivExact(d, -b);
    } else if b > 0 {
      assert d * b == -((-d) * b);
      DivExact(-d, b);
    } else {
      assert d * b == (-d) * (-b);
      DivExact(-d, -b);
    }
  }

  lemma DivExact(d: nat, b: nat)
    requires d > 0
    ensures (d * b) / d == b && (d * b) % d == 0
  {
    MulAddUnique(d, (d * b) / d, (d * b) % d, b, 0);
  }

  /** On a non-negative dividend and a positive divisor, Go and Dafny agree. */
  lemma QuoRemNonNegative(a: int, b: int)
    requires a >= 0 && b > 0
    ensures Quo(a, b) == a / b && Rem(a, b) == a % b
  {
  }

  /** A non-zero multiple of `d` is at least `d` away from 0. */
  lemma MulApart(k: int, d: nat)
    ensures k == 0 || k * d >= d || k * d + d <= 0
  {
    if k >= 1 {
      MulAtLeast(k, d);
    } else if k <= -1 {
      MulAtLeast(-k, d);
      assert k * d == -((-k) * d);
    }
  }

  lemma MulAtLeast(k: int, d: nat)
    requires k >= 1
    ensures k * d >= d
  {
  }

  /** Quotient and remainder are unique: two ways of writing a number as
      `q * d + r` with `r < d` are the same. */
  lemma MulAddUnique(d: nat, q1: nat, r1: nat, q2: nat, r2: nat)
    requires d > 0 && r1 < d && r2 < d && q1 * d + r1 == q2 * d + r2
    ensures q1 == q2 && r1 == r2
  {
    MulApart(q1 - q2, d);
    assert (q1 - q2) * d == r2 - r1;
  }

  /** Adding a number already reduced modulo `d` gives the same residue as
      adding the number itself. */
  lemma ModAdd(a: int, b: int, d: int)
    requires d > 0
    ensures (a % d + b) % d == (a + b) % d
  {
    var x := a % d + b;
    var y := a + b;
    assert y == x + d * (a / d);
    ModShift(x, d, a / d);
  }

  /** Shifting by a multiple of `d` keeps the residue. */
  lemma ModShift(x: int, d: int, q: int)
    requires d > 0
    ensures (x + d * q) % d == x % d
  {
    var y := x + d * q;
    assert y == d * (x / d + q) + x % d;
    assert y == d * (y / d) + y % d;
    ModUnique(d, x / d + q, x % d, y / d, y % d);
  }

  lemma ModUnique(d: int, q1: int, r1: int, q2: int, r2: int)
    requires d > 0 && 0 <= r1 < d && 0 <= r2 < d && d * q1 + r1 == d * q2 + r2
    ensures q1 == q2 && r1 == r2
  {
    MulApart(q1 - q2, d);
    assert (q1 - q2) * d == r2 - r1;
  }

  // ---------------------------------------------------------------------
  // Bitwise operators

  /** Bitwise XOR of two non-negative integers, bit by bit from the least
      significant bit. */
  function XorNat(a: nat, b: nat): nat
    decreases a + b
  {
    if a == 0 then b
    else if b == 0 then a
    else 2 * XorNat(a / 2, b / 2) + (if a % 2 == b % 2 then 0 else 1)
  }

  /** Two's-complement bitwise NOT: `^x == -x - 1`. */
  function Not(x: int): int
  {
    -x - 1
  }

  /** Go's `a & b` on signed integers: two's complement with the sign bit
      extended for ever, so 0 and -1 are the fixed points of halving. */
  function And(a: int, b: int): int
    decreases Abs(a) + Abs(b)
  {
    if a == 0 || b == 0 then 0
    else if a == -1 then b
    else if b == -1 then a
    else 2 * And(a / 2, b / 2) + (if a % 2 == 1 && b % 2 == 1 then 1 else 0)
  }

  /** Go's `a | b` on signed integers. */
  function Or(a: int, b: int): int
    decreases Abs(a) + Abs(b)
  {
    if a == 0 then b
    else if b == 0 then a
    else if a == -1 || b == -1 then -1
    else 2 * Or(a / 2, b / 2) + (if a % 2 == 1 || b % 2 == 1 then 1 else 0)
  }

  /** Go's `a ^ b` on signed integers. A negative operand is the NOT of a
      non-negative one, and NOT commutes with XOR. */
  function Xor(a: int, b: int): int
  {
    if a >= 0 && b >= 0 then XorNat(a, b)
    else if a < 0 && b < 0 then XorNat(Not(a), Not(b))
    else if a < 0 then Not(XorNat(Not(a), b))
    else Not(XorNat(a, Not(b)))
  }

  lemma {:induction false} XorNatZero(a: nat)
    ensures XorNat(a, 0) == a && XorNat(0, a) == a
  {
  }

  lemma {:induction false} XorNatSelf(a: nat)
    ensures XorNat(a, a) == 0
    decreases a
  {
    if a != 0 {
      XorNatSelf(a / 2);
    }
  }

  lemma {:induction false} XorNatCommutes(a: nat, b: nat)
    ensures XorNat(a, b) == XorNat(b, a)
    decreases a + b
  {
    if a != 0 && b != 0 {
      XorNatCommutes(a / 2, b / 2);
    }
  }

  /** XOR with the same value twice gives back the original value. */
  lemma {:induction false} XorNatInvolution(a: nat, b: nat)
    ensures XorNat(XorNat(a, b), b) == a
    decreases a + b
  {
    if a == 0 {
      XorNatSelf(b);
    } else if b == 0 {
    } else {
      var x := XorNat(a, b);
      var bit := if a % 2 == b % 2 then 0 else 1;
      assert x == 2 * XorNat(a / 2, b / 2) + bit;
      assert x / 2 == XorNat(a / 2, b / 2) && x % 2 == bit;
      XorNatInvolution(a / 2, b / 2);
      if x == 0 {
        assert XorNat(a / 2, b / 2) == 0 && bit == 0;
        XorNatZero(b / 2);
        assert a / 2 == b / 2;
        assert a == b;
      } else {
        assert XorNat(x, b) == 2 * XorNat(x / 2, b / 2) + (if x % 2 == b % 2 then 0 else 1);
      }
    }
  }

  /** XOR of two numbers below 2^k stays below 2^k. */
  lemma {:induction false} XorNatBound(a: nat, b: nat, k: nat)
    requires a < Pow2(k) && b < Pow2(k)
    ensures XorNat(a, b) < Pow2(k)
    decreases k
  {
    if a != 0 && b != 0 {
      assert k > 0;
      XorNatBound(a / 2, b / 2, k - 1);
    }
  }

  /** XOR on signed integers is an involution too. */
  lemma XorInvolution(a: int, b: int)
    ensures Xor(Xor(a, b), b) == a
  {
    if a >= 0 && b >= 0 {
      XorNatInvolution(a, b);
    } else if a < 0 && b < 0 {
      XorNatInvolution(Not(a), Not(b));
    } else if a < 0 {
      XorNatInvolution(Not(a), b);
    } else {
      XorNatInvolution(a, Not(b));
    }
  }

  /** AND and OR of non-negative integers are non-negative. */
  lemma {:induction false} AndOrNonNegative(a: int, b: int)
    requires a >= 0 && b >= 0
    ensures And(a, b) >= 0 && Or(a, b) >= 0
    decreases a + b
  {
    if a != 0 && b != 0 {
      AndOrNonNegative(a / 2, b / 2);
    }
  }

  /** On single bits AND and OR are the truth tables. */
  lemma AndOrBit(a: int, b: int)
    requires 0 <= a <= 1 && 0 <= b <= 1
    ensures And(a, b) == (if a == 1 && b == 1 then 1 else 0)
    ensures Or(a, b) == (if a == 1 || b == 1 then 1 else 0)
  {
    if a == 1 && b == 1 {
      assert And(0, 0) == 0 && Or(0, 0) == 0;
    }
  }

  lemma {:induction false} XorNatBit(a: nat, b: nat)
    requires a <= 1 && b <= 1
    ensures XorNat(a, b) == (if a != b then 1 else 0)
  {
    if a != 0 && b != 0 {
      assert XorNat(a / 2, b / 2) == 0;
    }
  }
}
