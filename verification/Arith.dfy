/** The 64-bit pair arithmetic of web/mvm.js:105-165.  It leaves its results in
    two globals, RL and RH; here they are the fields of an object. */
module Arith {
  import opened Words

  /** The 64-bit number in two result halves.  The low half counts by its
      residue, because a shift can leave it unsigned. */
  function Num(lo: int, hi: int): int {
    hi * 0x1_0000_0000 + U32(lo)
  }

  predicate IsHalf(x: int) {
    -0x8000_0000 <= x < 0x8000_0000
  }

  class Alu {
    var RL: int
    var RH: int

    ghost function Result(): int
      reads this
    {
      Num(RL, RH)
    }

    ghost predicate IsWord()
      reads this
    {
      IsHalf(RL) && IsHalf(RH)
    }

    method Add64(a: Word, b: Word)
      modifies this
      ensures IsWord() && Result() == Wrap64(Val(a) + Val(b))
    {
      var lo := U32(a.lo) + U32(b.lo);
      RL := ToInt32(lo);
      RH := ToInt32(a.hi + b.hi + (if lo > 0xFFFF_FFFF then 1 else 0));
      AddCarry(a, b, RL, RH);
    }

    method Sub64(a: Word, b: Word)
      modifies this
      ensures IsWord() && Result() == Wrap64(Val(a) - Val(b))
    {
      RL := ToInt32(a.lo - b.lo);
      RH := ToInt32(a.hi - b.hi - (if U32(a.lo) < U32(b.lo) then 1 else 0));
      SubBorrow(a, b, RL, RH);
    }

    /** Schoolbook multiplication on 16-bit digits. */
    method Mul64(a: Word, b: Word)
      modifies this
      ensures IsWord() && Result() == Wrap64(Val(a) * Val(b))
    {
      hide Shr16, Low16, U32, ToInt32, Or, Shl, Times;
      var a48, a32, a16, a00 := Shr16(a.hi), Low16(a.hi), Shr16(a.lo), Low16(a.lo);
      var b48, b32, b16, b00 := Shr16(b.hi), Low16(b.hi), Shr16(b.lo), Low16(b.lo);
      DigitBounds(a); DigitBounds(b);
      var c00, c16, c32, c48 := 0, 0, 0, 0;
      c00, c16 := Accumulate(c00, c16, a00, b00);
      c16, c32 := Accumulate(c16, c32, a16, b00);
      c16, c32 := Accumulate(c16, c32, a00, b16);
      c32, c48 := Accumulate(c32, c48, a32, b00);
      c32, c48 := Accumulate(c32, c48, a16, b16);
      c32, c48 := Accumulate(c32, c48, a00, b32);
      c48 := c48 + (Times(a48, b00) + Times(a32, b16) + Times(a16, b32) + Times(a00, b48));
      ghost var top := c48;
      c48 := Low16(c48);
      RL := Or(Shl(c16, 16), c00);
      RH := Or(Shl(c48, 16), c32);
      DigitsMultiply(a, b, top, c32, c16, c00);
      JoinDigits(top, c32, c16, c00);
      WrapSame(Val(a) * Val(b), Weigh(top, c32, c16, c00));
    }

    /** `lo += x * y; hi += lo >>> 16; lo &= 0xFFFF`.  The sum is below 2^32
        when its carry is taken, so none of it is lost. */
    static method Accumulate(lo0: nat, hi0: nat, x: nat, y: nat) returns (lo: nat, hi: nat)
      requires lo0 <= 2 * 0xFFFF && x < 0x1_0000 && y < 0x1_0000
      ensures lo < 0x1_0000 && hi < hi0 + 0x1_0000 && lo + 0x1_0000 * hi == lo0 + 0x1_0000 * hi0 + Times(x, y)
    {
      ProductBound(x, y);
      lo := lo0 + Times(x, y);
      Carry(lo);
      hi := hi0 + Shr16(lo);
      lo := Low16(lo);
    }

    method Shl64(a: Word, count: int)
      modifies this
      ensures IsWord() && Result() == Wrap64(Val(a) * Pow2(count % 64))
    {
      var n := count % 64;
      if n == 0 {
        RL, RH := a.lo, a.hi;
        WrapUnique(Val(a), Val(a), 0);
      } else if n < 32 {
        RL := Shl(a.lo, n);
        RH := Or(Shl(a.hi, n), Shr(a.lo, 32 - n));
        ShiftLeftSmall(a, n);
      } else {
        RL, RH := 0, Shl(a.lo, n - 32);
        ShiftLeftLarge(a, n);
      }
    }

    /** The logical right shift: the quotient of the unsigned 64-bit number.
        Both halves are signed 32-bit numbers again exactly when the shift is
        not by 32 or the high half was not negative: `ah >>> 0` is unsigned. */
    method Shr64(a: Word, count: int)
      modifies this
      ensures Num(RL, U32(RH)) == Num(a.lo, U32(a.hi)) / Pow2(count % 64)
      ensures IsWord() <==> (count % 64 != 32 || a.hi >= 0)
    {
      var n := count % 64;
      if n == 0 {
        RL, RH := a.lo, a.hi;
      } else if n < 32 {
        RL := Or(Shr(a.lo, n), Shl(a.hi, 32 - n));
        RH := Shr(a.hi, n);
        ShiftRightSmall(a, n);
      } else {
        RL, RH := Shr(a.hi, n - 32), 0;
        ShiftRightLarge(a, n);
      }
    }

    /** The arithmetic right shift: the floor of the signed quotient. */
    method Sar64(a: Word, count: int)
      modifies this
      ensures IsWord() && Result() == Val(a) / Pow2(count % 64)
    {
      var n := count % 64;
      if n == 0 {
        RL, RH := a.lo, a.hi;
      } else if n < 32 {
        RL := Or(Shr(a.lo, n), Shl(a.hi, 32 - n));
        RH := Sar(a.hi, n);
        SarSmall(a, n);
      } else {
        RL, RH := Sar(a.hi, n - 32), Sar(a.hi, 31);
        SarLarge(a, n);
      }
    }

    /** fromNum (155-159), over exact integers */
    method FromNum(n: int)
      modifies this
      ensures IsWord() && Result() == Wrap64(n)
    {
      var hi := n / 0x1_0000_0000;
      RL := ToInt32(n - hi * 0x1_0000_0000);
      RH := ToInt32(hi);
      JoinNum(n, hi, n - hi * 0x1_0000_0000);
    }

    /** fromBig (161-165): keep the low 64 bits, as a signed number */
    method FromBig(n: int)
      modifies this
      ensures IsWord() && Result() == Wrap64(n)
    {
      var hi := n / 0x1_0000_0000;
      RL, RH := ToInt32(n), ToInt32(hi);
      SameHalf(n, n - hi * 0x1_0000_0000, hi);
      JoinNum(n, hi, n - hi * 0x1_0000_0000);
    }
  }

  // ---- halves ---------------------------------------------------------------------

  /** Numbers that differ by a multiple of 2^32 have the same 32-bit reading. */
  lemma SameHalf(x: int, y: int, k: int)
    requires x == y + k * 0x1_0000_0000
    ensures ToInt32(x) == ToInt32(y) && U32(x) == U32(y) && U32(ToInt32(x)) == U32(x)
  {
    hide ToInt32, U32;
    var i := ToInt32Multiple(y);
    ToInt32Unique(x, ToInt32(y), k + i);
    var j := U32Multiple(y);
    U32Unique(x, U32(y), k + j);
    U32Unique(ToInt32(x), U32(y), j - i);
  }

  lemma JoinNum(x: int, q: int, r: int)
    requires x == q * 0x1_0000_0000 + r && 0 <= r < 0x1_0000_0000
    ensures Num(ToInt32(r), ToInt32(q)) == Wrap64(x) && IsHalf(ToInt32(r)) && IsHalf(ToInt32(q))
  {
    hide ToInt32, U32;
    SameHalf(r, r, 0);
    U32Unique(r, r, 0);
    var k := ToInt32Multiple(q);
    WrapUnique(x, Num(ToInt32(r), ToInt32(q)), k);
  }

  // ---- addition and subtraction ---------------------------------------------------

  lemma AddCarry(a: Word, b: Word, lo: int, hi: int)
    requires lo == ToInt32(U32(a.lo) + U32(b.lo))
    requires hi == ToInt32(a.hi + b.hi + (if U32(a.lo) + U32(b.lo) > 0xFFFF_FFFF then 1 else 0))
    ensures Num(lo, hi) == Wrap64(Val(a) + Val(b))
  {
    hide ToInt32, U32;
    var s := U32(a.lo) + U32(b.lo);
    var c := if s > 0xFFFF_FFFF then 1 else 0;
    SameHalf(s, s, 0);
    U32Unique(s, s - c * 0x1_0000_0000, c);
    var k := ToInt32Multiple(a.hi + b.hi + c);
    WrapUnique(Val(a) + Val(b), Num(lo, hi), k);
  }

  lemma SubBorrow(a: Word, b: Word, lo: int, hi: int)
    requires lo == ToInt32(a.lo - b.lo)
    requires hi == ToInt32(a.hi - b.hi - (if U32(a.lo) < U32(b.lo) then 1 else 0))
    ensures Num(lo, hi) == Wrap64(Val(a) - Val(b))
  {
    hide ToInt32, U32;
    Unsigned(a.lo);
    Unsigned(b.lo);
    var s := U32(a.lo) - U32(b.lo);
    var c := if s < 0 then 1 else 0;
    var d := a.lo - b.lo;
    SameHalf(d, d, 0);
    U32Unique(d, s + c * 0x1_0000_0000, (if b.lo < 0 then 1 else 0) - (if a.lo < 0 then 1 else 0) - c);
    var k := ToInt32Multiple(a.hi - b.hi - c);
    WrapUnique(Val(a) - Val(b), Num(lo, hi), k);
  }

  // ---- multiplication ---------------------------------------------------------------

  /** `x >>> 16` and `x & 0xFFFF` */
  function Shr16(x: int): nat { U32(x) / 0x1_0000 }
  function Low16(x: int): nat { x % 0x1_0000 }

  /** A sum below 2^32 is split without loss into its digit and its carry. */
  lemma Carry(sum: int)
    requires 0 <= sum < 0x1_0000_0000
    ensures Low16(sum) + 0x1_0000 * Shr16(sum) == sum && Shr16(sum) < 0x1_0000 && Low16(sum) < 0x1_0000
  {
    U32Unique(sum, sum, 0);
  }

  lemma MulLe(x: int, y: int, m: int)
    requires 0 <= x <= m && 0 <= y
    ensures 0 <= x * y <= m * y
  {
    assert (m - x) * y >= 0;
  }

  function Times(x: int, y: int): int { x * y }

  lemma ProductBound(x: int, y: int)
    requires 0 <= x < 0x1_0000 && 0 <= y < 0x1_0000
    ensures 0 <= x * y <= 0xFFFE_0001
  {
    MulLe(x, y, 0xFFFF);
  }

  function Weigh(d48: int, d32: int, d16: int, d00: int): int {
    d00 + 0x1_0000 * d16 + 0x1_0000_0000 * d32 + 0x1_0000_0000_0000 * d48
  }

  lemma HalfDigits(x: int32)
    ensures U32(x) == 0x1_0000 * Shr16(x) + Low16(x) && Shr16(x) < 0x1_0000 && Low16(x) < 0x1_0000
  {
    Unsigned(x);
    var u: int := U32(x);
    var e := if x < 0 then 1 else 0;
    DivUnique(u, 0x1_0000, u / 0x1_0000, u % 0x1_0000);
    LowUnique(x, u / 0x1_0000 - e * 0x1_0000, u % 0x1_0000);
  }

  lemma LowUnique(x: int, q: int, r: int)
    requires x == 0x1_0000 * q + r && 0 <= r < 0x1_0000
    ensures Low16(x) == r
  {
  }

  lemma DigitBounds(a: Word)
    ensures Shr16(a.hi) < 0x1_0000 && Shr16(a.lo) < 0x1_0000 && Low16(a.hi) < 0x1_0000 && Low16(a.lo) < 0x1_0000
  {
    HalfDigits(a.hi);
    HalfDigits(a.lo);
  }

  /** The four digits of a word weigh its unsigned value. */
  lemma Digits(a: Word)
    ensures Weigh(Shr16(a.hi), Low16(a.hi), Shr16(a.lo), Low16(a.lo)) == Val(a) + (if a.hi < 0 then 0x1_0000_0000_0000_0000 else 0)
  {
    HalfDigits(a.hi);
    HalfDigits(a.lo);
    Unsigned(a.hi);
    hide Shr16, Low16, U32;
  }

  lemma JoinHalves(h: nat, l: nat)
    requires h < 0x1_0000 && l < 0x1_0000
    ensures U32(Or(Shl(h, 16), l)) == h * 0x1_0000 + l
  {
    Pow2Values();
    var s := h * 0x1_0000;
    RoundTrip(s);
    RoundTrip(l);
    MulMod(0x1_0000, h);
    OrDisjoint(l, s, 16);
    RoundTrip(s + l);
  }

  lemma LowOf(x: int) returns (k: int)
    ensures x == Low16(x) + k * 0x1_0000 && Low16(x) < 0x1_0000
  {
    k := x / 0x1_0000;
  }

  /** Putting four digits together drops what the top one carries. */
  lemma JoinDigits(top: int, c32: nat, c16: nat, c00: nat)
    requires c00 < 0x1_0000 && c16 < 0x1_0000 && c32 < 0x1_0000
    ensures Low16(top) < 0x1_0000
    ensures Num(Or(Shl(c16, 16), c00), Or(Shl(Low16(top), 16), c32)) == Wrap64(Weigh(top, c32, c16, c00))
  {
    var k := LowOf(top);
    hide Low16, U32, ToInt32, Shl;
    JoinHalves(c16, c00);
    JoinHalves(Low16(top), c32);
    var hi := Or(Shl(Low16(top), 16), c32);
    Unsigned(hi);
    WrapUnique(Weigh(top, c32, c16, c00), Num(Or(Shl(c16, 16), c00), hi), k + (if hi < 0 then 1 else 0));
  }

  /** x and y have the same reduction. */
  ghost predicate Same64(x: int, y: int) {
    exists k :: Times64(x, y, k)
  }

  predicate Times64(x: int, y: int, k: int) {
    x == y + k * 0x1_0000_0000_0000_0000
  }

  lemma WrapSame(x: int, y: int)
    requires Same64(x, y)
    ensures Wrap64(x) == Wrap64(y)
  {
    var k :| Times64(x, y, k);
    var r := Wrap64(y);
    var j := (y - r) / 0x1_0000_0000_0000_0000;
    WrapMultiple(y);
    WrapUnique(x, r, j + k);
  }

  lemma WrapMultiple(y: int)
    ensures Fits64(Wrap64(y)) && Wrap64(y) == y - ((y - Wrap64(y)) / 0x1_0000_0000_0000_0000) * 0x1_0000_0000_0000_0000
  {
    var z := y + 0x8000_0000_0000_0000;
    assert y - Wrap64(y) == (z / 0x1_0000_0000_0000_0000) * 0x1_0000_0000_0000_0000;
  }

  /** Four digits times four digits, by powers of 2^16. */
  lemma SchoolProduct(a48: int, a32: int, a16: int, a00: int, b48: int, b32: int, b16: int, b00: int)
    ensures Weigh(a48, a32, a16, a00) * Weigh(b48, b32, b16, b00)
         == a00 * b00 + 0x1_0000 * (a16 * b00 + a00 * b16) + 0x1_0000_0000 * (a32 * b00 + a16 * b16 + a00 * b32)
          + 0x1_0000_0000_0000 * (a48 * b00 + a32 * b16 + a16 * b32 + a00 * b48)
          + 0x1_0000_0000_0000_0000 * ((a48 * b16 + a32 * b32 + a16 * b48)
              + 0x1_0000 * (a48 * b32 + a32 * b48) + 0x1_0000_0000 * (a48 * b48))
  {
    var b := Weigh(b48, b32, b16, b00);
    Distribute(a00, b48, b32, b16, b00);
    Distribute(a16, b48, b32, b16, b00);
    Distribute(a32, b48, b32, b16, b00);
    Distribute(a48, b48, b32, b16, b00);
    Distribute(b, a48, a32, a16, a00);
    assert Weigh(a48, a32, a16, a00) * b == b * Weigh(a48, a32, a16, a00);
    assert b * a00 == a00 * b && b * a16 == a16 * b && b * a32 == a32 * b && b * a48 == a48 * b;
  }

  lemma Distribute(x: int, d48: int, d32: int, d16: int, d00: int)
    ensures x * Weigh(d48, d32, d16, d00)
         == x * d00 + 0x1_0000 * (x * d16) + 0x1_0000_0000 * (x * d32) + 0x1_0000_0000_0000 * (x * d48)
  {
    var u, v, w := 0x1_0000 * d16, 0x1_0000_0000 * d32, 0x1_0000_0000_0000 * d48;
    assert x * (d00 + u + v + w) == x * d00 + x * u + x * v + x * w;
    assert x * u == 0x1_0000 * (x * d16);
    assert x * v == 0x1_0000_0000 * (x * d32);
    assert x * w == 0x1_0000_0000_0000 * (x * d48);
  }

  /** The products of the digits, up to the power 2^64, make the product. */
  lemma DigitsMultiply(a: Word, b: Word, top: int, c32: int, c16: int, c00: int)
    requires var a48, a32, a16, a00 := Shr16(a.hi), Low16(a.hi), Shr16(a.lo), Low16(a.lo);
      var b48, b32, b16, b00 := Shr16(b.hi), Low16(b.hi), Shr16(b.lo), Low16(b.lo);
      Weigh(top, c32, c16, c00) ==
        Weigh(Times(a48, b00) + Times(a32, b16) + Times(a16, b32) + Times(a00, b48),
              Times(a32, b00) + Times(a16, b16) + Times(a00, b32), Times(a16, b00) + Times(a00, b16), Times(a00, b00))
    ensures Same64(Val(a) * Val(b), Weigh(top, c32, c16, c00))
  {
    hide Shr16, Low16, Val, Fits64;
    var a48, a32, a16, a00 := Shr16(a.hi), Low16(a.hi), Shr16(a.lo), Low16(a.lo);
    var b48, b32, b16, b00 := Shr16(b.hi), Low16(b.hi), Shr16(b.lo), Low16(b.lo);
    SchoolProduct(a48, a32, a16, a00, b48, b32, b16, b00);
    Digits(a);
    Digits(b);
    var over := (a48 * b16 + a32 * b32 + a16 * b48) + 0x1_0000 * (a48 * b32 + a32 * b48) + 0x1_0000_0000 * (a48 * b48);
    var x, y := Val(a), Val(b);
    var ea, eb := if a.hi < 0 then 1 else 0, if b.hi < 0 then 1 else 0;
    UnsignedProduct(x, y, ea, eb);
    var m := ea * y + eb * x + ea * eb * 0x1_0000_0000_0000_0000;
    CarriesOver(x * y, m, over, Weigh(top, c32, c16, c00), Weigh(a48, a32, a16, a00) * Weigh(b48, b32, b16, b00));
  }

  lemma CarriesOver(xy: int, m: int, over: int, low: int, full: int)
    requires full == xy + 0x1_0000_0000_0000_0000 * m && full == low + 0x1_0000_0000_0000_0000 * over
    ensures Same64(xy, low)
  {
    assert Times64(xy, low, over - m);
  }

  lemma UnsignedProduct(x: int, y: int, ea: int, eb: int)
    requires (ea == 0 || ea == 1) && (eb == 0 || eb == 1)
    ensures (x + (if ea == 1 then 0x1_0000_0000_0000_0000 else 0)) * (y + (if eb == 1 then 0x1_0000_0000_0000_0000 else 0))
         == x * y + 0x1_0000_0000_0000_0000 * (ea * y + eb * x + ea * eb * 0x1_0000_0000_0000_0000)
  {
  }

  // ---- shifts ---------------------------------------------------------------------

  lemma PowSplit(n: nat)
    requires n <= 32
    ensures Pow2(n) * Pow2(32 - n) == 0x1_0000_0000
  {
    Pow2Add(n, 32 - n);
    Pow2Values();
  }

  lemma DivMod(x: int, d: nat)
    requires d > 0
    ensures x == d * (x / d) + x % d && 0 <= x % d < d
  {
  }

  lemma MulMono(q: int, p: int, k: int)
    requires q >= 0 && k >= p
    ensures q * k >= q * p
  {
    assert q * (k - p) >= 0;
  }

  lemma MulLess(r: int, q: int, p: int)
    requires 0 <= r < q && p > 0
    ensures 0 <= r * p <= p * q - p
  {
    MulMono(p, r, q - 1);
    MulMono(p, 0, r);
  }

  /** u * p, with u split at q, where p * q is 2^32. */
  lemma ShiftAlgebra(u: int, p: int, q: int, leave: int, stay: int)
    requires p * q == 0x1_0000_0000 && u == q * leave + stay
    ensures u * p == leave * 0x1_0000_0000 + stay * p
  {
    assert u * p == (q * leave) * p + stay * p;
    assert (q * leave) * p == leave * (p * q);
  }

  /** What stays below bit 32 and what leaves when a half is shifted left by n. */
  lemma SplitShift(x: int32, n: nat) returns (stay: int, leave: int)
    requires 0 < n < 32
    ensures U32(x) == Pow2(32 - n) * leave + stay && 0 <= stay < Pow2(32 - n) && 0 <= leave < Pow2(n)
    ensures Shr(x, 32 - n) == leave && U32(Shl(x, n)) == stay * Pow2(n)
    ensures U32(x) * Pow2(n) == leave * 0x1_0000_0000 + stay * Pow2(n)
    ensures 0 <= stay * Pow2(n) <= 0x1_0000_0000 - Pow2(n)
  {
    hide Pow2, U32, ToInt32;
    var p, q, u := Pow2(n), Pow2(32 - n), U32(x);
    PowSplit(n);
    leave, stay := u / q, u % q;
    DivMod(u, q);
    ShiftAlgebra(u, p, q, leave, stay);
    MulLess(stay, q, p);
    Quotients(u, p, q, leave, stay);
    Unsigned(x);
    ShiftedHalf(x, u, if x < 0 then 1 else 0, p, leave, stay);
  }

  lemma Quotients(u: int, p: nat, q: nat, leave: int, stay: int)
    requires p * q == 0x1_0000_0000 && u == q * leave + stay && 0 <= u < 0x1_0000_0000 && 0 <= stay < q
    ensures 0 <= leave < p
  {
    if leave >= p { MulMono(q, p, leave); }
    if leave < 0 { MulMono(q, leave, -1); }
  }

  lemma ShiftedHalf(x: int, u: int, e: int, p: int, leave: int, stay: int)
    requires x == u - e * 0x1_0000_0000 && u * p == leave * 0x1_0000_0000 + stay * p && 0 <= stay * p < 0x1_0000_0000
    ensures U32(ToInt32(x * p)) == stay * p
  {
    hide U32, ToInt32;
    var k := leave - e * p;
    assert x * p == u * p - (e * p) * 0x1_0000_0000;
    SameHalf(x * p, stay * p, k);
    U32Unique(stay * p, stay * p, 0);
  }

  /** Two bit fields joined by `|`: y is a multiple of p, z lies below it. */
  lemma Join(x: int, y: int, m: int, z: int, n: nat)
    requires n < 32 && U32(x) == m * Pow2(n) && U32(y) == z && 0 <= z < Pow2(n)
    requires 0 <= m * Pow2(n) <= 0x1_0000_0000 - Pow2(n)
    ensures U32(Or(x, y)) == m * Pow2(n) + z == U32(Or(y, x))
  {
    hide Pow2, U32, ToInt32;
    var p := Pow2(n);
    assert (m * p) % p == 0 by { MulMod(p, m); assert m * p == p * m; }
    OrDisjoint(z, m * p, n);
    var s := m * p + z;
    SameHalf(s, s, 0);
    U32Unique(s, s, 0);
  }

  lemma U32Small(x: int)
    requires 0 <= x < 0x1_0000_0000
    ensures U32(x) == x
  {
  }

  lemma PowBound(n: nat)
    requires n < 32
    ensures Pow2(n) <= 0x8000_0000
  {
    Pow2Values();
    Pow2Add(n, 31 - n);
    MulMono(Pow2(n), 1, Pow2(31 - n));
  }

  lemma ShiftLeftSmall(a: Word, n: nat)
    requires 0 < n < 32
    ensures Num(Shl(a.lo, n), Or(Shl(a.hi, n), Shr(a.lo, 32 - n))) == Wrap64(Val(a) * Pow2(n))
  {
    hide Pow2, U32, ToInt32, Shl, Shr, Or;
    var ls, ll := SplitShift(a.lo, n);
    var hs, hl := SplitShift(a.hi, n);
    PowBound(n);
    U32Small(ll);
    Join(Shl(a.hi, n), Shr(a.lo, 32 - n), hs, ll, n);
    var hi := Or(Shl(a.hi, n), Shr(a.lo, 32 - n));
    Unsigned(hi);
    Unsigned(a.hi);
    ShiftedNum(a.hi, a.lo, U32(a.lo), U32(a.hi), hi, if a.hi < 0 then 1 else 0, if hi < 0 then 1 else 0, Pow2(n), hs, hl, ls, ll);
    WrapSame(Val(a) * Pow2(n), Num(Shl(a.lo, n), hi));
    Wrapped(Num(Shl(a.lo, n), hi));
  }

  lemma Wrapped(x: int)
    requires Fits64(x)
    ensures Wrap64(x) == x
  {
  }

  lemma ShiftedNum(h: int, l: int, lo: int, uh: int, hi: int, e: int, f: int, p: int, hs: int, hl: int, ls: int, ll: int)
    requires uh * p == hl * 0x1_0000_0000 + hs * p && lo * p == ll * 0x1_0000_0000 + ls * p
    requires h == uh - e * 0x1_0000_0000 && hi == hs * p + ll - f * 0x1_0000_0000
    ensures Same64((h * 0x1_0000_0000 + lo) * p, hi * 0x1_0000_0000 + ls * p)
  {
    assert (h * 0x1_0000_0000 + lo) * p == (h * p) * 0x1_0000_0000 + lo * p;
    assert h * p == uh * p - (e * p) * 0x1_0000_0000;
    assert Times64((h * 0x1_0000_0000 + lo) * p, hi * 0x1_0000_0000 + ls * p, hl - e * p + f);
  }

  lemma ShlMultiple(x: int32, n: nat) returns (k: int)
    requires n < 32
    ensures Shl(x, n) == x * Pow2(n) - k * 0x1_0000_0000
  {
    hide Pow2;
    k := ToInt32Multiple(x * Pow2(n));
  }

  lemma ShiftLeftLarge(a: Word, n: nat)
    requires 32 <= n < 64
    ensures Num(0, Shl(a.lo, n - 32)) == Wrap64(Val(a) * Pow2(n))
  {
    LongShift(n);
    var hi: int := Shl(a.lo, n - 32);
    var k := ShlMultiple(a.lo, n - 32);
    Unsigned(a.lo);
    U32Small(0);
    assert Val(a) == a.hi * 0x1_0000_0000 + U32(a.lo) && Num(0, hi) == hi * 0x1_0000_0000;
    hide Pow2, U32, ToInt32, Shl, Val, Num;
    LargeProduct(Val(a), Pow2(n), a.hi, a.lo, U32(a.lo), if a.lo < 0 then 1 else 0, Pow2(n - 32), hi, k);
  }

  lemma LargeProduct(v: int, pn: int, h: int, l: int, lo: int, e: int, p: int, hi: int, k: int)
    requires v == h * 0x1_0000_0000 + lo && pn == 0x1_0000_0000 * p && IsHalf(hi)
    requires lo == l + e * 0x1_0000_0000 && hi == l * p - k * 0x1_0000_0000
    ensures hi * 0x1_0000_0000 == Wrap64(v * pn)
  {
    LargeAlgebra(h, l, lo, e, p, hi, k);
    hide Times;
    assert Times(v, pn) == Times(h * 0x1_0000_0000 + lo, 0x1_0000_0000 * p);
    WrapProduct(v, pn, hi * 0x1_0000_0000);
  }

  lemma WrapProduct(x: int, p: int, r: int)
    requires Same64(Times(x, p), r) && Fits64(r)
    ensures Wrap64(x * p) == r
  {
    WrapSame(x * p, r);
    Wrapped(r);
  }

  lemma LargeAlgebra(h: int, l: int, lo: int, e: int, p: int, hi: int, k: int)
    requires lo == l + e * 0x1_0000_0000 && hi == l * p - k * 0x1_0000_0000
    ensures Same64(Times(h * 0x1_0000_0000 + lo, 0x1_0000_0000 * p), hi * 0x1_0000_0000)
  {
    var x := (h + e) * p;
    assert (h * 0x1_0000_0000 + lo) * (0x1_0000_0000 * p) == (l * p) * 0x1_0000_0000 + x * 0x1_0000_0000_0000_0000 by {
      var g := h + e;
      assert h * 0x1_0000_0000 + lo == g * 0x1_0000_0000 + l;
      Rescale(g, l, p);
    }
    assert Times64((h * 0x1_0000_0000 + lo) * (0x1_0000_0000 * p), hi * 0x1_0000_0000, x + k);
  }

  lemma Rescale(h: int, l: int, p: int)
    ensures (h * 0x1_0000_0000 + l) * (0x1_0000_0000 * p) == (l * p) * 0x1_0000_0000 + (h * p) * 0x1_0000_0000_0000_0000
  {
    var q := 0x1_0000_0000 * p;
    assert (h * 0x1_0000_0000 + l) * q == (h * q) * 0x1_0000_0000 + l * q;
    assert h * q == (h * p) * 0x1_0000_0000;
    assert l * q == (l * p) * 0x1_0000_0000;
  }

  /** The two fields a small right shift joins in the low half. */
  lemma RightFields(a: Word, n: nat) returns (hs: int, hl: int, ls: int, ll: int)
    requires 0 < n < 32
    ensures U32(a.hi) == Pow2(n) * hl + hs && 0 <= hs < Pow2(n) && 0 <= hl < Pow2(32 - n) && Shr(a.hi, n) == hl
    ensures U32(a.lo) == Pow2(n) * ll + ls && 0 <= ls < Pow2(n)
    ensures U32(Or(Shr(a.lo, n), Shl(a.hi, 32 - n))) == hs * Pow2(32 - n) + ll
  {
    hide Pow2, U32, ToInt32, Shl, Shr, Or;
    hs, hl := SplitShift(a.hi, 32 - n);
    ls, ll := SplitShift(a.lo, 32 - n);
    PowBound(32 - n);
    U32Small(ll);
    Join(Shl(a.hi, 32 - n), Shr(a.lo, n), hs, ll, 32 - n);
  }

  lemma ShiftRightSmall(a: Word, n: nat)
    requires 0 < n < 32
    ensures Num(Or(Shr(a.lo, n), Shl(a.hi, 32 - n)), U32(Shr(a.hi, n))) == Num(a.lo, U32(a.hi)) / Pow2(n)
    ensures 0 <= Shr(a.hi, n) < 0x8000_0000
  {
    hide Pow2, U32, ToInt32, Shl, Shr, Or;
    var hs, hl, ls, ll := RightFields(a, n);
    PowBound(32 - n);
    PowSplit(n);
    U32Small(hl);
    Quotient(Num(a.lo, U32(a.hi)), Pow2(n), Pow2(32 - n), hs, hl, ls, ll);
  }

  lemma Quotient(x: int, p: nat, q: int, hs: int, hl: int, ls: int, ll: int)
    requires p > 0 && p * q == 0x1_0000_0000 && 0 <= ls < p
    requires x == (p * hl + hs) * 0x1_0000_0000 + (p * ll + ls)
    ensures x / p == hl * 0x1_0000_0000 + hs * q + ll
  {
    var u, v := hl * 0x1_0000_0000, hs * q;
    assert p * (u + v + ll) == p * u + p * v + p * ll;
    assert p * u == (p * hl) * 0x1_0000_0000;
    assert p * v == hs * (p * q);
    Divides(x, p, u + v + ll, ls);
  }

  lemma Divides(x: int, d: nat, q: int, r: int)
    requires d > 0 && x == d * q + r && 0 <= r < d
    ensures x / d == q
  {
    DivMod(x, d);
    var q', r' := x / d, x % d;
    assert d * (q - q') == r' - r;
    SmallMultiple(d, q - q');
  }

  lemma ShiftRightLarge(a: Word, n: nat)
    requires 32 <= n < 64
    ensures Num(Shr(a.hi, n - 32), U32(0)) == Num(a.lo, U32(a.hi)) / Pow2(n)
    ensures 0 <= Shr(a.hi, n - 32) < 0x1_0000_0000
    ensures Shr(a.hi, n - 32) < 0x8000_0000 <==> (n != 32 || a.hi >= 0)
  {
    LongShift(n);
    var p, s, r := Pow2(n - 32), Shr(a.hi, n - 32), U32(a.hi) % Pow2(n - 32);
    hide Pow2, U32, ToInt32;
    DivMod(U32(a.hi), p);
    Unsigned(a.hi);
    U32Small(0);
    ShrinkBound(U32(a.hi), p, s, r);
    U32Small(s);
    LongQuotient(Num(a.lo, U32(a.hi)), p, s, r, U32(a.lo));
  }

  lemma LongShift(n: nat)
    requires 32 <= n < 64
    ensures Pow2(n) == 0x1_0000_0000 * Pow2(n - 32) && (n == 32 ==> Pow2(n - 32) == 1) && (n > 32 ==> Pow2(n - 32) >= 2)
  {
    Pow2Add(32, n - 32);
    Pow2Values();
    if n > 32 { assert Pow2(n - 32) == 2 * Pow2(n - 33); }
  }

  lemma ShrinkBound(u: int, p: int, s: int, r: int)
    requires p >= 1 && u == p * s + r && 0 <= r < p && 0 <= u < 0x1_0000_0000
    ensures 0 <= s <= u && (p >= 2 ==> s < 0x8000_0000) && (p == 1 ==> s == u)
  {
    if s < 0 { MulMono(p, s, -1); }
    else {
      MulMono(s, 1, p);
      if p >= 2 { MulMono(s, 2, p); }
    }
  }

  lemma LongQuotient(x: int, p: int, s: int, r: int, l: int)
    requires p > 0 && 0 <= r < p && 0 <= l < 0x1_0000_0000
    requires x == (p * s + r) * 0x1_0000_0000 + l
    ensures x / (0x1_0000_0000 * p) == s
  {
    var d := 0x1_0000_0000 * p;
    assert d * s == (p * s) * 0x1_0000_0000;
    Divides(x, d, s, r * 0x1_0000_0000 + l);
  }

  lemma SarFloor(x: int32, n: nat) returns (r: int)
    requires n < 32
    ensures x == Pow2(n) * Sar(x, n) + r && 0 <= r < Pow2(n)
    ensures IsHalf(Sar(x, n)) && (Sar(x, n) < 0 <==> x < 0)
    ensures n == 31 ==> Sar(x, n) == if x < 0 then -1 else 0
  {
    Pow2Values();
    var p, s := Pow2(n), Sar(x, n);
    assert ToInt32(x) == x;
    r := x % p;
    hide Pow2, ToInt32;
    DivMod(x, p);
    FloorBound(x, p, s, r);
  }

  lemma FloorBound(x: int32, p: int, s: int, r: int)
    requires p >= 1 && x == p * s + r && 0 <= r < p
    ensures IsHalf(s) && (s < 0 <==> x < 0) && (p == 0x8000_0000 ==> s == if x < 0 then -1 else 0)
  {
    if s >= 0 {
      MulMono(s, 1, p);
    } else {
      MulMono(p, s, -1);
      MulMono(-s, 1, p);
      assert (-s) * p == -(p * s);
    }
  }

  lemma SarSmall(a: Word, n: nat)
    requires 0 < n < 32
    ensures IsHalf(Sar(a.hi, n))
    ensures Num(Or(Shr(a.lo, n), Shl(a.hi, 32 - n)), Sar(a.hi, n)) == Val(a) / Pow2(n)
  {
    hide Pow2, U32, ToInt32, Shl, Shr, Or, Sar;
    var hs, hl, ls, ll := RightFields(a, n);
    var r := SarFloor(a.hi, n);
    PowSplit(n);
    Unsigned(a.hi);
    SignedField(a.hi, U32(a.hi), if a.hi < 0 then 1 else 0, Pow2(n), Pow2(32 - n), hl, hs, Sar(a.hi, n), r);
    Quotient(Val(a), Pow2(n), Pow2(32 - n), hs, Sar(a.hi, n), ls, ll);
  }

  /** The floor of the signed half has the same remainder as the unsigned one. */
  lemma SignedField(x: int, u: int, e: int, p: nat, q: int, hl: int, hs: int, s: int, r: int)
    requires p > 0 && p * q == 0x1_0000_0000 && x == u - e * 0x1_0000_0000
    requires u == p * hl + hs && 0 <= hs < p && x == p * s + r && 0 <= r < p
    ensures r == hs
  {
    assert p * (hl - e * q - s) == r - hs by {
      assert p * (hl - e * q - s) == p * hl - e * (p * q) - p * s;
    }
    SmallMultiple(p, hl - e * q - s);
  }

  lemma SarLarge(a: Word, n: nat)
    requires 32 <= n < 64
    ensures IsHalf(Sar(a.hi, n - 32)) && IsHalf(Sar(a.hi, 31))
    ensures Num(Sar(a.hi, n - 32), Sar(a.hi, 31)) == Val(a) / Pow2(n)
  {
    LongShift(n);
    hide Pow2, ToInt32, Sar;
    var r := SarFloor(a.hi, n - 32);
    var z := SarFloor(a.hi, 31);
    var s := Sar(a.hi, n - 32);
    Unsigned(s);
    LongQuotient(Val(a), Pow2(n - 32), s, r, U32(a.lo));
  }
}
