/**
  remove_trailing_zeros of fmt/bundled/format-inl.h.  Divisibility by 100 and by 10 is tested by a
  multiplication with the inverse of 25 or 5 modulo the word size followed by a rotation, and
  divisibility by 10^8 by looking at the fraction bits of a multiplication with a magic number.
*/
module TrailingZeros {
  import opened Division
  import opened Words
  import opened WideArithmetic

  /** What removing the zeros of `from` means: `n` times ten to the `s`, with no zero left. */
  ghost predicate Stripped(from: nat, n: nat, s: nat) {
    from == n * Pow(10, s) && n % 10 != 0
  }

  /** A number has only one stripped form, so Stripped determines both results. */
  lemma {:induction false} StrippedIsUnique(from: nat, n: nat, s: nat, n': nat, s': nat)
    requires Stripped(from, n, s) && Stripped(from, n', s')
    ensures n == n' && s == s'
    decreases s + s'
  {
    if s == 0 && s' == 0 {
    } else if s > 0 && s' > 0 {
      TakeTen(n, s);
      TakeTen(n', s');
      StrippedIsUnique(n * Pow(10, s - 1), n, s - 1, n', s' - 1);
    } else if s > 0 {
      TakeTen(n, s);
      assert false;
    } else {
      TakeTen(n', s');
      assert false;
    }
  }

  lemma TakeTen(n: nat, s: nat)
    requires s > 0
    ensures n * Pow(10, s) == 10 * (n * Pow(10, s - 1))
    ensures (n * Pow(10, s)) % 10 == 0
  {
    assert n * (10 * Pow(10, s - 1)) == 10 * (n * Pow(10, s - 1));
  }

  // ---------------------------------------------------------------------------------------
  // The modular-inverse test

  /** The product with the inverse, rotated right. */
  function Quotient32(n: u32, inverse: u32, r: nat): nat
    requires 0 < r < 32
  {
    Rotr((n * inverse) % 0x1_0000_0000, r, 32)
  }

  function Quotient64(n: u64, inverse: u64, r: nat): nat
    requires 0 < r < 64
  {
    Rotr((n * inverse) % 0x1_0000_0000_0000_0000, r, 64)
  }

  /** A multiple t*D of D = d*p becomes t*p after the multiplication, so the rotation yields t. */
  lemma MultipleBecomesQuotient(n: nat, t: nat, W: nat, p: nat, d: nat, inverse: nat, c: nat)
    requires W > 0 && n == t * (d * p) && n < W && d > 0
    requires inverse * d == 1 + c * W
    ensures (n * inverse) % W == t * p
  {
    var u := t * p;
    assert n == u * d by {
      assert t * (d * p) == (t * p) * d;
    }
    TimesInverse(u, d, inverse, c, W);
    MulMonotone(1, d, u);
    DivModUnique(n * inverse, W, u * c, u);
  }

  lemma TimesInverse(u: nat, d: nat, inverse: nat, c: nat, W: nat)
    requires inverse * d == 1 + c * W
    ensures (u * d) * inverse == (u * c) * W + u
  {
    assert (u * d) * inverse == u * (inverse * d);
    assert u * (1 + c * W) == u + u * (c * W);
    assert u * (c * W) == (u * c) * W;
  }

  /** A product that lands on q*p with q*D still inside the word can only come from n == q*D. */
  lemma QuotientComesFromMultiple(n: nat, m: nat, q: nat, W: nat, p: nat, d: nat, inverse: nat, c: nat)
    requires W > 0 && n < W && m == (n * inverse) % W && m == q * p
    requires q * (d * p) < W
    requires inverse * d == 1 + c * W
    ensures n == q * (d * p)
  {
    var k := (n * inverse) / W;
    assert n * inverse == k * W + m;
    assert m * d == q * (d * p) by {
      assert (q * p) * d == q * (d * p);
    }
    assert (n * inverse) * d == n + n * c * W by {
      assert (n * inverse) * d == n * (inverse * d);
      assert n * (1 + c * W) == n + n * c * W;
    }
    assert (k * W + m) * d == k * d * W + m * d;
    assert m * d == (n * c - k * d) * W + n;
    DivModUnique(m * d, W, n * c - k * d, n);
    DivModUnique(m * d, W, 0, m * d);
  }

  /** The test q <= (W-1)/D of the source is divisibility by D, and q is then the quotient. */
  lemma InverseTest(n: nat, m: nat, q: nat, W: nat, p: nat, H: nat, d: nat, D: nat, inverse: nat, c: nat)
    requires n < W && p > 0 && d > 0 && W == p * H && D == d * p && D > 0
    requires inverse * d == 1 + c * W
    requires m == (n * inverse) % W
    requires q == m / p + (m % p) * H
    ensures q <= (W - 1) / D <==> n % D == 0
    ensures n % D == 0 ==> q == n / D
  {
    if n % D == 0 {
      MultiplePasses(n, m, q, W, p, H, d, D, inverse, c);
    }
    if q <= (W - 1) / D {
      TimesDivisor(q, W - 1, D);
      PassingIsMultiple(n, m, m / p, m % p, W, p, H, d, D, inverse, c);
      DivModUnique(n, D, m / p, 0);
    }
  }

  lemma MultiplePasses(n: nat, m: nat, q: nat, W: nat, p: nat, H: nat, d: nat, D: nat, inverse: nat, c: nat)
    requires n < W && p > 0 && d > 0 && D == d * p && D > 0
    requires inverse * d == 1 + c * W
    requires m == (n * inverse) % W
    requires q == m / p + (m % p) * H
    requires n % D == 0
    ensures q == n / D <= (W - 1) / D
  {
    var t := n / D;
    assert n == t * D;
    MultipleBecomesQuotient(n, t, W, p, d, inverse, c);
    DivModUnique(m, p, t, 0);
    DivMonotone(n, W - 1, D);
  }

  lemma PassingIsMultiple(n: nat, m: nat, high: nat, low: nat, W: nat, p: nat, H: nat, d: nat, D: nat,
                          inverse: nat, c: nat)
    requires n < W && d > 0 && W == p * H && D == d * p && D > 0
    requires inverse * d == 1 + c * W
    requires m == (n * inverse) % W && m == high * p + low
    requires (high + low * H) * D < W
    ensures low == 0 && n == high * D
  {
    if low >= 1 {
      RotatedBitIsLarge(high + low * H, high, low, H, p, d, D, W);
      assert false;
    }
    QuotientComesFromMultiple(n, m, high, W, p, d, inverse, c);
  }

  lemma TimesDivisor(q: nat, a: nat, d: nat)
    requires d > 0 && q <= a / d
    ensures q * d <= a
  {
    MulMonotone(q, a / d, d);
  }

  lemma DivMonotone(a: nat, b: nat, d: nat)
    requires a <= b && d > 0
    ensures a / d <= b / d
  {
    var x, y := a / d, b / d;
    assert x * d <= a && b < y * d + d;
    if x > y {
      MulMonotone(y + 1, x, d);
      assert false;
    }
  }

  lemma RotatedBitIsLarge(q: nat, high: nat, low: nat, H: nat, p: nat, d: nat, D: nat, W: nat)
    requires q == high + low * H && low >= 1 && d > 0
    requires W == p * H && D == d * p
    ensures q * D >= W
  {
    MulMonotone(1, low, H);
    assert q >= H;
    MulMonotone(H, q, D);
    assert H * (d * p) == d * (p * H);
    MulMonotone(1, d, W);
  }

  /** What mod_inv_5 * mod_inv_5 wraps to. */
  lemma InversesOf25()
    ensures (0xCCCC_CCCD * 0xCCCC_CCCD) % 0x1_0000_0000 == 0xC28F_5C29
    ensures (0xCCCC_CCCC_CCCC_CCCD * 0xCCCC_CCCC_CCCC_CCCD) % 0x1_0000_0000_0000_0000 == 0x8F5C_28F5_C28F_5C29
  {
  }

  lemma Test32By100(n: u32)
    ensures Quotient32(n, 0xC28F_5C29, 2) <= 0xFFFF_FFFF / 100 <==> n % 100 == 0
    ensures n % 100 == 0 ==> Quotient32(n, 0xC28F_5C29, 2) == n / 100
  {
    hide Rotr, BitOr;
    Pow2Words();
    assert Pow(2, 2) == 4 by { assert Pow(2, 1) == 2; }
    var m := (n * 0xC28F_5C29) % 0x1_0000_0000;
    RotrParts(m, 2, 32);
    InverseTest(n, m, Quotient32(n, 0xC28F_5C29, 2), 0x1_0000_0000, 4, 0x4000_0000, 25, 100, 0xC28F_5C29, 19);
  }

  lemma Test32By10(n: u32)
    ensures Quotient32(n, 0xCCCC_CCCD, 1) <= 0xFFFF_FFFF / 10 <==> n % 10 == 0
    ensures n % 10 == 0 ==> Quotient32(n, 0xCCCC_CCCD, 1) == n / 10
  {
    hide Rotr, BitOr;
    Pow2Words();
    assert Pow(2, 1) == 2;
    var m := (n * 0xCCCC_CCCD) % 0x1_0000_0000;
    RotrParts(m, 1, 32);
    InverseTest(n, m, Quotient32(n, 0xCCCC_CCCD, 1), 0x1_0000_0000, 2, 0x8000_0000, 5, 10, 0xCCCC_CCCD, 4);
  }

  lemma Test64By100(n: u64)
    ensures Quotient64(n, 0x8F5C_28F5_C28F_5C29, 2) <= 0xFFFF_FFFF_FFFF_FFFF / 100 <==> n % 100 == 0
    ensures n % 100 == 0 ==> Quotient64(n, 0x8F5C_28F5_C28F_5C29, 2) == n / 100
  {
    hide Rotr, BitOr;
    Pow2Words();
    assert Pow(2, 2) == 4 by { assert Pow(2, 1) == 2; }
    var m := (n * 0x8F5C_28F5_C28F_5C29) % 0x1_0000_0000_0000_0000;
    RotrParts(m, 2, 64);
    InverseTest(n, m, Quotient64(n, 0x8F5C_28F5_C28F_5C29, 2), 0x1_0000_0000_0000_0000, 4, 0x4000_0000_0000_0000,
                25, 100, 0x8F5C_28F5_C28F_5C29, 14);
  }

  lemma Test64By10(n: u64)
    ensures Quotient64(n, 0xCCCC_CCCC_CCCC_CCCD, 1) <= 0xFFFF_FFFF_FFFF_FFFF / 10 <==> n % 10 == 0
    ensures n % 10 == 0 ==> Quotient64(n, 0xCCCC_CCCC_CCCC_CCCD, 1) == n / 10
  {
    hide Rotr, BitOr;
    Pow2Words();
    assert Pow(2, 1) == 2;
    var m := (n * 0xCCCC_CCCC_CCCC_CCCD) % 0x1_0000_0000_0000_0000;
    RotrParts(m, 1, 64);
    InverseTest(n, m, Quotient64(n, 0xCCCC_CCCC_CCCC_CCCD, 1), 0x1_0000_0000_0000_0000, 2, 0x8000_0000_0000_0000,
                5, 10, 0xCCCC_CCCC_CCCC_CCCD, 4);
  }

  // ---------------------------------------------------------------------------------------
  // The stripping loops

  lemma TwoMoreZeros(from: nat, n: nat, s: nat)
    requires from == n * Pow(10, s) && n % 100 == 0
    ensures from == (n / 100) * Pow(10, s + 2)
  {
    assert Pow(10, s + 2) == 10 * Pow(10, s + 1) == 100 * Pow(10, s);
    assert (n / 100) * (100 * Pow(10, s)) == ((n / 100) * 100) * Pow(10, s);
  }

  lemma OneMoreZero(from: nat, n: nat, s: nat)
    requires from == n * Pow(10, s) && n % 10 == 0
    ensures from == (n / 10) * Pow(10, s + 1)
  {
    assert (n / 10) * (10 * Pow(10, s)) == ((n / 10) * 10) * Pow(10, s);
  }

  /** s |= 1 sets the last bit of an even count. */
  lemma SetLastBit(s: nat)
    requires s % 2 == 0
    ensures BitOr(s, 1) == s + 1
  {
    if s > 0 {
      assert BitOr(s / 2, 0) == s / 2;
    }
  }

  lemma NoZeroLeft(n: nat)
    requires n % 100 != 0
    ensures n % 10 == 0 ==> (n / 10) % 10 != 0
  {
  }

  /** The two 32-bit tests: pairs of zeros first, then at most one more.  The count starts at
      `from`, which is 0 in one caller and 8 in the other. */
  method Strip32(n0: u32, from: nat) returns (n: u32, s: nat)
    requires n0 != 0 && from % 2 == 0
    ensures s >= from && Stripped(n0, n, s - from)
  {
    hide Quotient32, Pow, BitOr;
    var modInv5: u32 := 0xCCCC_CCCD;
    var modInv25: u32 := (modInv5 * modInv5) % 0x1_0000_0000;
    InversesOf25();
    n, s := n0, from;
    assert n0 == n * Pow(10, 0) by { PowZero(); }
    while true
      invariant n != 0 && s >= from && s % 2 == 0
      invariant n0 == n * Pow(10, s - from)
      decreases n
    {
      var q := Quotient32(n, modInv25, 2);
      Test32By100(n);
      if q > 0xFFFF_FFFF / 100 {
        break;
      }
      TwoMoreZeros(n0, n, s - from);
      n := q;
      s := s + 2;
    }
    assert n % 100 != 0 by { Test32By100(n); }
    NoZeroLeft(n);
    var q := Quotient32(n, modInv5, 1);
    Test32By10(n);
    if q <= 0xFFFF_FFFF / 10 {
      OneMoreZero(n0, n, s - from);
      SetLastBit(s);
      n := q;
      s := BitOr(s, 1);
    }
  }

  lemma PowZero()
    ensures Pow(10, 0) == 1
  {
  }

  method Strip64(n0: u64) returns (n: u64, s: nat)
    requires n0 != 0
    ensures Stripped(n0, n, s)
  {
    hide Quotient64, Pow, BitOr;
    var modInv5: u64 := 0xCCCC_CCCC_CCCC_CCCD;
    var modInv25: u64 := (modInv5 * modInv5) % 0x1_0000_0000_0000_0000;
    InversesOf25();
    n, s := n0, 0;
    assert n0 == n * Pow(10, 0) by { PowZero(); }
    while true
      invariant n != 0 && s % 2 == 0
      invariant n0 == n * Pow(10, s)
      decreases n
    {
      var q := Quotient64(n, modInv25, 2);
      Test64By100(n);
      if q > 0xFFFF_FFFF_FFFF_FFFF / 100 {
        break;
      }
      TwoMoreZeros(n0, n, s);
      n := q;
      s := s + 2;
    }
    assert n % 100 != 0 by { Test64By100(n); }
    NoZeroLeft(n);
    var q := Quotient64(n, modInv5, 1);
    Test64By10(n);
    if q <= 0xFFFF_FFFF_FFFF_FFFF / 10 {
      OneMoreZero(n0, n, s);
      SetLastBit(s);
      n := q;
      s := BitOr(s, 1);
    }
  }

  // ---------------------------------------------------------------------------------------
  // The two functions of the source

  /** remove_trailing_zeros for float: right for every non-zero word. */
  method RemoveTrailingZeros32(n0: u32) returns (n: u32, s: nat)
    requires n0 != 0
    ensures Stripped(n0, n, s)
  {
    n, s := Strip32(n0, 0);
  }

  // ceil(2^90/10^8)
  const MAGIC_90: u64 := 12379400392853802749

  /** The fraction bits of n*m/2^90 are below m exactly when 10^8 divides n. */
  lemma FractionTest(n: u64)
    ensures (n * MAGIC_90) % 0x400_0000_0000_0000_0000_0000 < MAGIC_90 <==> n % 100000000 == 0
    ensures n % 100000000 == 0 ==> n * MAGIC_90 / 0x400_0000_0000_0000_0000_0000 == n / 100000000
  {
    var q, r := n / 100000000, n % 100000000;
    MagicProduct(n, 100000000, MAGIC_90, 0x400_0000_0000_0000_0000_0000, 875776, q, r);
    DivModUnique(n * MAGIC_90, 0x400_0000_0000_0000_0000_0000, q, q * 875776 + r * MAGIC_90);
  }

  /** The same bits as the source finds them: the low 26 of the upper word and the lower word. */
  lemma FractionBits(p: U128)
    ensures p.hi % 0x400_0000 == 0 && p.lo < MAGIC_90 <==> Value(p) % 0x400_0000_0000_0000_0000_0000 < MAGIC_90
    ensures p.hi / 0x400_0000 == Value(p) / 0x400_0000_0000_0000_0000_0000
  {
    var q, r := p.hi / 0x400_0000, p.hi % 0x400_0000;
    DivModUnique(Value(p), 0x400_0000_0000_0000_0000_0000, q, r * 0x1_0000_0000_0000_0000 + p.lo);
  }

  datatype Outcome = Done(n: u64, s: nat) | LoopsForever

  /** At zero the 32-bit loop passes its test and stays at zero, for ever. */
  lemma ZeroIsNeverLeft()
    ensures Quotient32(0, 0xC28F_5C29, 2) == 0 <= 0xFFFF_FFFF / 100
  {
    hide Quotient32;
    Test32By100(0);
  }

  /** remove_trailing_zeros for double.  A multiple of 10^8 continues with its quotient truncated
      to 32 bits, so the result is right exactly when the quotient fits, and the loop does not
      end when the truncated quotient is zero. */
  method RemoveTrailingZeros64(n0: u64) returns (r: Outcome)
    requires n0 != 0
    ensures r.LoopsForever? <==> n0 % 100000000 == 0 && (n0 / 100000000) % 0x1_0000_0000 == 0
    ensures r.Done? ==>
              (Stripped(n0, r.n, r.s) <==> n0 % 100000000 != 0 || n0 / 100000000 < 0x1_0000_0000)
    ensures r.Done? ==> r.n % 10 != 0
  {
    hide Pow;
    var nm := Umul128(n0, MAGIC_90);
    FractionBits(nm);
    FractionTest(n0);
    if nm.hi % 0x400_0000 == 0 && nm.lo < MAGIC_90 {
      var n32: u32 := (nm.hi / 0x400_0000) % 0x1_0000_0000;
      if n32 == 0 {
        ZeroIsNeverLeft();
        return LoopsForever;
      }
      var n, s := Strip32(n32, 8);
      EightMore(n0, n0 / 100000000, n32, n, s);
      return Done(n, s);
    }
    var n, s := Strip64(n0);
    return Done(n, s);
  }

  lemma EightMore(n0: nat, q: nat, n32: nat, n: nat, s: nat)
    requires n0 == q * 100000000 && n32 == q % 0x1_0000_0000
    requires s >= 8 && Stripped(n32, n, s - 8)
    ensures Stripped(n0, n, s) <==> q < 0x1_0000_0000
  {
    PowSum(10, s - 8, 8);
    assert Pow(10, 8) == 100000000 by {
      PowSum(10, 4, 4);
      assert Pow(10, 4) == 10000;
    }
    assert n * (Pow(10, s - 8) * 100000000) == (n * Pow(10, s - 8)) * 100000000;
    assert n * Pow(10, s) == n32 * 100000000;
  }

  /** 2^32*10^8 makes the truncated quotient zero, and the loop does not end. */
  method LoopsForeverExample() returns (r: Outcome)
    ensures r.LoopsForever?
  {
    r := RemoveTrailingZeros64(0x1_0000_0000 * 100000000);
  }

  /** (2^32+1)*10^8 ends with a wrong result: its quotient is truncated to 1. */
  method WrongResultExample() returns (r: Outcome)
    ensures r.Done? && !Stripped((0x1_0000_0000 + 1) * 100000000, r.n, r.s)
  {
    r := RemoveTrailingZeros64((0x1_0000_0000 + 1) * 100000000);
  }
}
