/**
  Fixed-width arithmetic of fmt/bundled/format-inl.h.  Words are integers below a power of two,
  and every operation of the source that can wrap is written with its wrap-around.
*/
module Words {
  import opened Division

  // 0x1_0000_0000 is 2^32 and 0x1_0000_0000_0000_0000 is 2^64.
  type u32 = x: int | 0 <= x < 0x1_0000_0000
  type u64 = x: int | 0 <= x < 0x1_0000_0000_0000_0000

  /** A 64-bit sum wraps around at most once. */
  function Add64(a: u64, b: u64): u64 {
    if a + b < 0x1_0000_0000_0000_0000 then a + b else a + b - 0x1_0000_0000_0000_0000
  }

  /** A 64-bit sum where it must not wrap. */
  function Sum64(a: u64, b: u64): u64
    requires a + b < 0x1_0000_0000_0000_0000
  {
    a + b
  }

  function Pow(b: nat, e: nat): (r: nat)
    ensures b > 0 ==> r > 0
  {
    if e == 0 then 1 else b * Pow(b, e - 1)
  }

  lemma MulAssociate(a: int, b: int, c: int)
    ensures a * (b * c) == (a * b) * c
  {
  }

  lemma PowStep(b: nat, e: nat)
    ensures Pow(b, e + 1) == b * Pow(b, e) && Pow(b, 0) == 1
  {
  }

  lemma {:induction false} PowSum(b: nat, e: nat, f: nat)
    ensures Pow(b, e + f) == Pow(b, e) * Pow(b, f)
  {
    hide Pow;
    PowStep(b, 0);
    if e == 0 {
    } else {
      PowSum(b, e - 1, f);
      PowStep(b, e - 1);
      PowStep(b, e - 1 + f);
      MulAssociate(b, Pow(b, e - 1), Pow(b, f));
    }
  }

  lemma MulBound(a: int, b: int, m: int, n: int)
    requires 0 <= a <= m && 0 <= b <= n
    ensures 0 <= a * b <= m * n
  {
    MulMonotone(0, a, b);
    MulMonotone(a, m, b);
    MulMonotone(b, n, m);
  }

  // ---------------------------------------------------------------------------------------
  // Bitwise or and rotation

  function BitOr(a: nat, b: nat): nat
    decreases a + b
  {
    if a == 0 then b
    else if b == 0 then a
    else (if a % 2 == 1 || b % 2 == 1 then 1 else 0) + 2 * BitOr(a / 2, b / 2)
  }

  /** Or is addition when no bit is set on both sides. */
  lemma {:induction false} OrDisjoint(a: nat, b: nat, k: nat)
    requires a < Pow(2, k)
    ensures BitOr(a, b * Pow(2, k)) == a + b * Pow(2, k)
  {
    if a == 0 || b == 0 {
    } else {
      var half := b * Pow(2, k - 1);
      assert b * Pow(2, k) == 2 * half;
      assert 2 * half / 2 == half && 2 * half % 2 == 0;
      assert half > 0 by { MulMonotone(1, b, Pow(2, k - 1)); }
      OrDisjoint(a / 2, b, k - 1);
    }
  }

  /** rotr for words of w bits; a shift by the whole width would be undefined. */
  function Rotr(n: nat, r: nat, w: nat): nat
    requires w > 0 && 0 < r % w
  {
    var k := r % w;
    BitOr(n / Pow(2, k), (n * Pow(2, w - k)) % Pow(2, w))
  }

  lemma ShiftOut(q: nat, m: nat, low: nat, high: nat)
    requires m < low && q * low + m < low * high
    ensures ((q * low + m) * high) % (low * high) == m * high
    ensures q < high
  {
    if q >= high {
      MulMonotone(high, q, low);
      assert false;
    }
    MulMonotone(m + 1, low, high);
    assert (m + 1) * high == m * high + high;
    MulAssociate(q, low, high);
    assert (q * low + m) * high == (q * low) * high + m * high;
    MulMonotone(0, m, high);
    DivModUnique((q * low + m) * high, low * high, q, m * high);
  }

  lemma ShiftParts(n: nat, low: nat, high: nat)
    requires low > 0 && high > 0 && n < low * high
    ensures low * high > 0 && (n * high) % (low * high) == (n % low) * high
    ensures n / low < high
  {
    assert n == (n / low) * low + n % low;
    ShiftOut(n / low, n % low, low, high);
  }

  /** Rotation moves the low bits to the top and everything else down. */
  lemma RotrParts(n: nat, r: nat, w: nat)
    requires 0 < r < w && n < Pow(2, w)
    ensures Rotr(n, r, w) == n / Pow(2, r) + (n % Pow(2, r)) * Pow(2, w - r)
  {
    PowSum(2, r, w - r);
    DivModUnique(r, w, 0, r);
    OrOfParts(n, w - r, Pow(2, r), Pow(2, w - r), Pow(2, w));
  }

  lemma OrOfParts(n: nat, k: nat, low: nat, high: nat, full: nat)
    requires low > 0 && high == Pow(2, k) && full == low * high && n < full
    ensures BitOr(n / low, (n * high) % full) == n / low + (n % low) * high
  {
    hide BitOr;
    ShiftParts(n, low, high);
    OrDisjoint(n / low, n % low, k);
  }

  lemma Pow2Words()
    ensures Pow(2, 30) == 0x4000_0000 && Pow(2, 31) == 0x8000_0000 && Pow(2, 32) == 0x1_0000_0000
    ensures Pow(2, 62) == 0x4000_0000_0000_0000 && Pow(2, 63) == 0x8000_0000_0000_0000
    ensures Pow(2, 64) == 0x1_0000_0000_0000_0000
  {
    assert Pow(2, 5) == 32;
    PowSum(2, 5, 5);
    PowSum(2, 10, 10);
    PowSum(2, 20, 10);
    PowSum(2, 30, 30);
    assert Pow(2, 31) == 2 * Pow(2, 30);
    assert Pow(2, 32) == 2 * Pow(2, 31);
    assert Pow(2, 61) == 2 * Pow(2, 60);
    assert Pow(2, 62) == 2 * Pow(2, 61);
    assert Pow(2, 63) == 2 * Pow(2, 62);
    assert Pow(2, 64) == 2 * Pow(2, 63);
  }
}

/** 128-bit products and the divisions that use them. */
module WideArithmetic {
  import opened Division
  import opened Words

  datatype U128 = U128(hi: u64, lo: u64)

  function Value(x: U128): nat {
    x.hi * 0x1_0000_0000_0000_0000 + x.lo
  }

  function Upper32(x: u64): u32 { x / 0x1_0000_0000 }

  function Lower32(x: u64): u32 { x % 0x1_0000_0000 }

  /** x << 32 loses the upper half of x. */
  function ShiftUp32(x: u64): u64 { Lower32(x) * 0x1_0000_0000 }

  lemma Halves(x: u64)
    ensures x == Upper32(x) * 0x1_0000_0000 + Lower32(x)
  {
  }

  lemma HalfProduct(a: nat, b: nat)
    requires a < 0x1_0000_0000 && b < 0x1_0000_0000
    ensures 0 <= a * b <= 0xFFFF_FFFE_0000_0001
  {
    MulBound(a, b, 0xFFFF_FFFF, 0xFFFF_FFFF);
  }

  lemma FullProduct(x: nat, y: nat)
    requires x < 0x1_0000_0000_0000_0000 && y < 0x1_0000_0000_0000_0000
    ensures 0 <= x * y <= 0xFFFF_FFFF_FFFF_FFFE_0000_0000_0000_0001
  {
    MulBound(x, y, 0xFFFF_FFFF_FFFF_FFFF, 0xFFFF_FFFF_FFFF_FFFF);
  }

  /** The product of two halves fits a word. */
  function Product64(a: u32, b: u32): u64 {
    HalfProduct(a, b);
    a * b
  }

  /** umul128, the branch without a native 128-bit type: four 32-bit products, and every sum of
      them fits 64 bits, as the preconditions of Sum64 say. */
  function Umul128(x: u64, y: u64): (r: U128)
    ensures Value(r) == x * y
  {
    hide Upper32, Lower32, ShiftUp32, Product64;
    var a, b, c, d := Upper32(x), Lower32(x), Upper32(y), Lower32(y);
    var ac, bc, ad, bd := Product64(a, c), Product64(b, c), Product64(a, d), Product64(b, d);
    var intermediate := Sum64(Sum64(Upper32(bd), Lower32(ad)), Lower32(bc));
    FourProducts(x, y);
    FourHalves(bd, ad, bc, intermediate);
    SumOfParts(x * y, ac, Upper32(ad), Lower32(ad), Upper32(bc), Lower32(bc), Upper32(bd), Lower32(bd),
               Upper32(intermediate), Lower32(intermediate));
    var hi := Sum64(Sum64(Sum64(ac, Upper32(intermediate)), Upper32(ad)), Upper32(bc));
    var lo := Sum64(ShiftUp32(intermediate), Lower32(bd));
    U128(hi, lo)
  }

  lemma FourHalves(bd: u64, ad: u64, bc: u64, intermediate: u64)
    ensures bd == Upper32(bd) * 0x1_0000_0000 + Lower32(bd)
    ensures ad == Upper32(ad) * 0x1_0000_0000 + Lower32(ad)
    ensures bc == Upper32(bc) * 0x1_0000_0000 + Lower32(bc)
    ensures intermediate == Upper32(intermediate) * 0x1_0000_0000 + Lower32(intermediate)
    ensures ShiftUp32(intermediate) == Lower32(intermediate) * 0x1_0000_0000
  {
  }

  lemma FourProducts(x: u64, y: u64)
    ensures var a, b, c, d := Upper32(x), Lower32(x), Upper32(y), Lower32(y);
            x * y == Product64(a, c) * 0x1_0000_0000_0000_0000
                     + (Product64(a, d) + Product64(b, c)) * 0x1_0000_0000 + Product64(b, d)
    ensures x * y <= 0xFFFF_FFFF_FFFF_FFFE_0000_0000_0000_0001
  {
    hide Upper32, Lower32;
    Halves(x);
    Halves(y);
    Schoolbook(x, y, Upper32(x), Lower32(x), Upper32(y), Lower32(y));
    FullProduct(x, y);
  }

  lemma Schoolbook(x: nat, y: nat, a: nat, b: nat, c: nat, d: nat)
    requires x == a * 0x1_0000_0000 + b && y == c * 0x1_0000_0000 + d
    ensures x * y == (a * c) * 0x1_0000_0000_0000_0000 + (a * d + b * c) * 0x1_0000_0000 + b * d
  {
    assert x * y == (a * 0x1_0000_0000) * (c * 0x1_0000_0000) + (a * 0x1_0000_0000) * d
                    + b * (c * 0x1_0000_0000) + b * d;
    assert (a * 0x1_0000_0000) * (c * 0x1_0000_0000) == (a * c) * 0x1_0000_0000_0000_0000;
    assert (a * 0x1_0000_0000) * d == (a * d) * 0x1_0000_0000;
    assert b * (c * 0x1_0000_0000) == (b * c) * 0x1_0000_0000;
  }

  /** The additions of the four products, with every carry. */
  lemma SumOfParts(xy: nat, ac: nat, ad1: nat, ad0: nat, bc1: nat, bc0: nat, bd1: nat, bd0: nat, i1: nat, i0: nat)
    requires xy == ac * 0x1_0000_0000_0000_0000
                   + (ad1 * 0x1_0000_0000 + ad0 + (bc1 * 0x1_0000_0000 + bc0)) * 0x1_0000_0000
                   + (bd1 * 0x1_0000_0000 + bd0)
    requires bd1 + ad0 + bc0 == i1 * 0x1_0000_0000 + i0 && i0 < 0x1_0000_0000 && bd0 < 0x1_0000_0000
    requires xy <= 0xFFFF_FFFF_FFFF_FFFE_0000_0000_0000_0001
    ensures (ac + i1 + ad1 + bc1) * 0x1_0000_0000_0000_0000 + (i0 * 0x1_0000_0000 + bd0) == xy
    ensures ac + i1 + ad1 + bc1 < 0x1_0000_0000_0000_0000
    ensures i0 * 0x1_0000_0000 + bd0 < 0x1_0000_0000_0000_0000
  {
  }

  function Umul128Upper64(x: u64, y: u64): (r: u64)
    ensures r == x * y / 0x1_0000_0000_0000_0000
  {
    var p := Umul128(x, y);
    DivModUnique(x * y, 0x1_0000_0000_0000_0000, p.hi, p.lo);
    p.hi
  }

  /** operator+= for a 64-bit addend: the carry is detected by the wrapped low word. */
  function AddLow(x: U128, n: u64): (r: U128)
    ensures Value(r) == Value(x) + n || Value(r) == Value(x) + n - 0x1_0000_0000_0000_0000_0000_0000_0000_0000
  {
    var lo := Add64(x.lo, n);
    U128(Add64(x.hi, if lo < n then 1 else 0), lo)
  }

  /** Upper 128 bits of a 64 by 128 bit product; the addition cannot overflow. */
  function Umul192Upper128(x: u64, y: U128): (r: U128)
    ensures Value(r) == x * Value(y) / 0x1_0000_0000_0000_0000
  {
    hide Umul128, Umul128Upper64, AddLow;
    FullProduct(x, y.hi);
    FullProduct(x, y.lo);
    Distribute(x, y.hi, y.lo);
    UpperPart(x * Value(y), x * y.hi, x * y.lo);
    AddLow(Umul128(x, y.hi), Umul128Upper64(x, y.lo))
  }

  lemma Distribute(x: nat, hi: nat, lo: nat)
    ensures x * (hi * 0x1_0000_0000_0000_0000 + lo) == (x * hi) * 0x1_0000_0000_0000_0000 + x * lo
  {
  }

  lemma UpperPart(p: nat, high: nat, low: nat)
    requires p == high * 0x1_0000_0000_0000_0000 + low
    requires high <= 0xFFFF_FFFF_FFFF_FFFE_0000_0000_0000_0001 && low <= 0xFFFF_FFFF_FFFF_FFFE_0000_0000_0000_0001
    ensures p / 0x1_0000_0000_0000_0000 == high + low / 0x1_0000_0000_0000_0000
    ensures high + low / 0x1_0000_0000_0000_0000 < 0x1_0000_0000_0000_0000_0000_0000_0000_0000
  {
    DivModUnique(p, 0x1_0000_0000_0000_0000, high + low / 0x1_0000_0000_0000_0000, low % 0x1_0000_0000_0000_0000);
  }

  /** Upper 64 bits of a 32 by 64 bit product. */
  function Umul96Upper64(x: u32, y: u64): (r: u64)
    ensures r == x * y / 0x1_0000_0000
  {
    var shifted: u64 := x * 0x1_0000_0000;
    assert shifted * y == (x * y) * 0x1_0000_0000;
    assert x * y >= 0 by { MulMonotone(0, x, y); }
    ShiftedProduct(x * y);
    Umul128Upper64(shifted, y)
  }

  lemma ShiftedProduct(p: nat)
    ensures (p * 0x1_0000_0000) / 0x1_0000_0000_0000_0000 == p / 0x1_0000_0000
  {
    DivModUnique(p * 0x1_0000_0000, 0x1_0000_0000_0000_0000, p / 0x1_0000_0000, (p % 0x1_0000_0000) * 0x1_0000_0000);
  }

  // ---------------------------------------------------------------------------------------
  // Division by multiplication

  /** With m = ceil(2^k/d) and e = m*d - 2^k, multiplying by m and dropping k bits divides n by d
      exactly when the accumulated error of quotient and remainder stays below 2^k. */
  lemma MagicDivision(n: nat, d: nat, m: nat, twoK: nat, e: nat)
    requires d > 0 && twoK > 0 && m * d == twoK + e
    ensures (n / d) * e + (n % d) * m >= 0
    ensures n * m == (n / d) * twoK + ((n / d) * e + (n % d) * m)
    ensures n * m / twoK == n / d <==> (n / d) * e + (n % d) * m < twoK
  {
    var q, r := n / d, n % d;
    MagicProduct(n, d, m, twoK, e, q, r);
    MulMonotone(0, q, e);
    MulMonotone(0, r, m);
    var err := q * e + r * m;
    if err < twoK {
      DivModUnique(n * m, twoK, q, err);
    } else {
      assert n * m == (n * m / twoK) * twoK + n * m % twoK;
    }
  }

  lemma MagicProduct(n: nat, d: nat, m: nat, twoK: nat, e: nat, q: nat, r: nat)
    requires n == q * d + r && m * d == twoK + e
    ensures n * m == q * twoK + (q * e + r * m)
  {
    assert (q * d + r) * m == q * (m * d) + r * m;
    assert q * (twoK + e) == q * twoK + q * e;
  }

  /** divide_by_10_to_kappa_plus_1 for float: floor(n/100) for every 32-bit n. */
  function DivideBy100(n: u32): (r: u32)
    ensures r == n / 100
  {
    MagicDivision(n, 100, 1374389535, 0x20_0000_0000, 28);
    ((n * 1374389535) % 0x1_0000_0000_0000_0000) / 0x20_0000_0000
  }

  const MAGIC_1000: nat := 2361183241434822607

  /** divide_by_10_to_kappa_plus_1 for double: floor(n/1000), except for the numbers ending in
      999 from 2^71/152 on. */
  function DivideBy1000(n: u64): (r: u64)
    ensures r == n / 1000 <==> n % 1000 != 999 || 152 * n < 0x80_0000_0000_0000_0000
  {
    DivideBy1000Iff(n);
    Umul128Upper64(n, MAGIC_1000) / 128
  }

  /** The largest number ending in 999 that fits the word is divided wrongly. */
  lemma DivideBy1000Fails()
    ensures DivideBy1000(18446744073709550999) != 18446744073709550999 / 1000
  {
    hide DivideBy1000;
    var r := DivideBy1000(18446744073709550999);
  }

  lemma DivideBy1000Iff(n: u64)
    ensures (n * MAGIC_1000 / 0x1_0000_0000_0000_0000) / 128 == n / 1000
            <==> n % 1000 != 999 || 152 * n < 0x80_0000_0000_0000_0000
  {
    MagicDivision(n, 1000, MAGIC_1000, 0x80_0000_0000_0000_0000, 152);
    DivTwice(n * MAGIC_1000);
  }

  lemma DivTwice(p: nat)
    ensures (p / 0x1_0000_0000_0000_0000) / 128 == p / 0x80_0000_0000_0000_0000
  {
    var q, r := p / 0x1_0000_0000_0000_0000, p % 0x1_0000_0000_0000_0000;
    DivModUnique(p, 0x80_0000_0000_0000_0000, q / 128, (q % 128) * 0x1_0000_0000_0000_0000 + r);
  }
}
