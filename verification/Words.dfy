/** 64-bit words carried as pairs of 32-bit halves, and the JavaScript number
    operators the machine builds its arithmetic from (web/mvm.js:103-165).
    Everything is stated over unbounded integers; the 32-bit truncations of
    the source are written out with ToInt32 and U32. */
module Words {
  type int32 = x: int | -0x8000_0000 <= x < 0x8000_0000

  /** A machine word: low and high half, each a signed 32-bit number. */
  datatype Word = Word(lo: int32, hi: int32)

  /** `x | 0`: x moved into signed 32-bit range by multiples of 2^32 */
  function ToInt32(x: int): int32
    decreases if x >= 0x8000_0000 then x else if x < -0x8000_0000 then -x else 0
  {
    if x >= 0x8000_0000 then ToInt32(x - 0x1_0000_0000)
    else if x < -0x8000_0000 then ToInt32(x + 0x1_0000_0000)
    else x
  }

  lemma {:induction false} ToInt32Multiple(x: int) returns (k: int)
    ensures ToInt32(x) == x - k * 0x1_0000_0000
    decreases if x >= 0x8000_0000 then x else if x < -0x8000_0000 then -x else 0
  {
    k := 0;
    if x >= 0x8000_0000 {
      k := ToInt32Multiple(x - 0x1_0000_0000);
      k := k + 1;
    } else if x < -0x8000_0000 {
      k := ToInt32Multiple(x + 0x1_0000_0000);
      k := k - 1;
    }
  }

  /** `x >>> 0`, for a number in the signed or unsigned 32-bit range */
  function U32(x: int): (r: nat)
    ensures r < 0x1_0000_0000
    decreases if x >= 0x1_0000_0000 then x else if x < 0 then -x else 0
  {
    if x >= 0x1_0000_0000 then U32(x - 0x1_0000_0000)
    else if x < 0 then U32(x + 0x1_0000_0000)
    else x
  }

  lemma {:induction false} U32Multiple(x: int) returns (k: int)
    ensures U32(x) == x - k * 0x1_0000_0000
    decreases if x >= 0x1_0000_0000 then x else if x < 0 then -x else 0
  {
    k := 0;
    if x >= 0x1_0000_0000 {
      k := U32Multiple(x - 0x1_0000_0000);
      k := k + 1;
    } else if x < 0 {
      k := U32Multiple(x + 0x1_0000_0000);
      k := k - 1;
    }
  }

  /** The signed 64-bit integer a word stands for. */
  function Val(w: Word): (r: int)
    ensures Fits64(r)
  {
    w.hi * 0x1_0000_0000 + U32(w.lo)
  }

  predicate Fits64(x: int) {
    -0x8000_0000_0000_0000 <= x < 0x8000_0000_0000_0000
  }

  /** x reduced to a signed 64-bit integer. */
  function Wrap64(x: int): int {
    (x + 0x8000_0000_0000_0000) % 0x1_0000_0000_0000_0000 - 0x8000_0000_0000_0000
  }

  /** The reduction fits, and differs from x by a multiple of 2^64. */
  lemma WrapIs(x: int) returns (k: int)
    ensures Fits64(Wrap64(x)) && Wrap64(x) == x - k * 0x1_0000_0000_0000_0000
  {
    var y := x + 0x8000_0000_0000_0000;
    k := y / 0x1_0000_0000_0000_0000;
    assert y == k * 0x1_0000_0000_0000_0000 + y % 0x1_0000_0000_0000_0000;
  }

  /** A 64-bit integer that differs from x by a multiple of 2^64 is its reduction. */
  lemma WrapUnique(x: int, r: int, k: int)
    requires Fits64(r) && r == x - k * 0x1_0000_0000_0000_0000
    ensures r == Wrap64(x)
  {
  }

  lemma ToInt32Unique(x: int, r: int, k: int)
    requires -0x8000_0000 <= r < 0x8000_0000 && r == x - k * 0x1_0000_0000
    ensures r == ToInt32(x)
  {
    var j := ToInt32Multiple(x);
  }

  lemma U32Unique(x: int, r: int, k: int)
    requires 0 <= r < 0x1_0000_0000 && r == x - k * 0x1_0000_0000
    ensures r == U32(x)
  {
    var j := U32Multiple(x);
  }

  lemma ValInjective(a: Word, b: Word)
    requires Val(a) == Val(b)
    ensures a == b
  {
    assert a.hi == b.hi && U32(a.lo) == U32(b.lo);
  }

  function Pow2(n: nat): (r: nat)
    ensures r > 0
  {
    if n == 0 then 1 else 2 * Pow2(n - 1)
  }

  lemma Pow2Values()
    ensures Pow2(16) == 0x1_0000 && Pow2(31) == 0x8000_0000 && Pow2(32) == 0x1_0000_0000
  {
    assert Pow2(4) == 16;
    assert Pow2(8) == 256;
    assert Pow2(12) == 4096;
    assert Pow2(16) == 0x1_0000;
    assert Pow2(20) == 0x10_0000;
    assert Pow2(24) == 0x100_0000;
    assert Pow2(28) == 0x1000_0000;
    assert Pow2(31) == 0x8000_0000;
  }

  lemma MulAssoc(a: int, b: int, c: int)
    ensures a * (b * c) == (a * b) * c
  {
  }

  lemma {:induction false} Pow2Add(a: nat, b: nat)
    ensures Pow2(a + b) == Pow2(a) * Pow2(b)
  {
    if a > 0 {
      Pow2Add(a - 1, b);
      MulAssoc(2, Pow2(a - 1), Pow2(b));
    }
  }

  // ---- bitwise operators, bit by bit ----------------------------------------

  function OrBits(a: nat, b: nat): nat {
    if a == 0 then b else if b == 0 then a
    else (if a % 2 == 1 || b % 2 == 1 then 1 else 0) + 2 * OrBits(a / 2, b / 2)
  }

  function AndBits(a: nat, b: nat): nat {
    if a == 0 || b == 0 then 0
    else (if a % 2 == 1 && b % 2 == 1 then 1 else 0) + 2 * AndBits(a / 2, b / 2)
  }

  function XorBits(a: nat, b: nat): nat {
    if a == 0 then b else if b == 0 then a
    else (if a % 2 != b % 2 then 1 else 0) + 2 * XorBits(a / 2, b / 2)
  }

  /** `a | b`, `a & b`, `a ^ b` */
  function Or(a: int, b: int): int32 { ToInt32(OrBits(U32(a), U32(b))) }
  function And(a: int, b: int): int32 { ToInt32(AndBits(U32(a), U32(b))) }
  function Xor(a: int, b: int): int32 { ToInt32(XorBits(U32(a), U32(b))) }

  /** `x << n`, `x >>> n`, `x >> n` for a shift count below 32 */
  function Shl(x: int, n: nat): int32 requires n < 32 { ToInt32(x * Pow2(n)) }
  function Shr(x: int, n: nat): int requires n < 32 { U32(x) / Pow2(n) }
  function Sar(x: int, n: nat): int requires n < 32 { ToInt32(x) / Pow2(n) }

  /** An `|` of bit fields that do not meet is a sum. */
  lemma {:induction false} OrDisjoint(a: nat, b: nat, n: nat)
    requires a < Pow2(n) && b % Pow2(n) == 0
    ensures OrBits(a, b) == a + b && OrBits(b, a) == a + b
  {
    if n > 0 && a > 0 && b > 0 {
      var h := Pow2(n - 1);
      var q := b / Pow2(n);
      assert b == (2 * h) * q == 2 * (h * q);
      assert b / 2 == h * q;
      assert (h * q) % h == 0 by { MulMod(h, q); }
      OrDisjoint(a / 2, b / 2, n - 1);
    }
  }

  lemma MulMod(d: nat, q: int)
    requires d > 0
    ensures (d * q) % d == 0 && (d * q) / d == q
  {
    DivUnique(d * q, d, q, 0);
  }

  lemma DivUnique(x: int, d: nat, q: int, r: nat)
    requires d > 0 && x == d * q + r && r < d
    ensures x / d == q && x % d == r
  {
    var q', r' := x / d, x % d;
    assert x == d * q' + r' && 0 <= r' < d;
    assert d * (q - q') == r' - r;
    SmallMultiple(d, q - q');
  }

  lemma SmallMultiple(d: int, k: int)
    requires -d < d * k < d
    ensures k == 0
  {
    if k != 0 {
      MulGrows(d, if k > 0 then k else -k);
    }
  }

  lemma MulGrows(d: nat, k: nat)
    requires k > 0
    ensures d * k >= d
  {
  }

  /** The top bit of `&` and `^` is the `&` and `^` of the top bits. */
  lemma {:induction false} TopBit(a: nat, b: nat, n: nat)
    requires a < 2 * Pow2(n) && b < 2 * Pow2(n)
    ensures AndBits(a, b) < 2 * Pow2(n) && XorBits(a, b) < 2 * Pow2(n)
    ensures AndBits(a, b) >= Pow2(n) <==> a >= Pow2(n) && b >= Pow2(n)
    ensures XorBits(a, b) >= Pow2(n) <==> (a >= Pow2(n)) != (b >= Pow2(n))
  {
    if n > 0 {
      TopBit(a / 2, b / 2, n - 1);
    }
  }

  /** A half and its unsigned reading differ by a multiple of 2^32. */
  lemma Unsigned(x: int32)
    ensures U32(x) == x + (if x < 0 then 0x1_0000_0000 else 0)
  {
  }

  /** An unsigned half survives `| 0` followed by `>>> 0`. */
  lemma RoundTrip(x: int)
    requires 0 <= x < 0x1_0000_0000
    ensures U32(x) == x && U32(ToInt32(x)) == x
    ensures ToInt32(x) == x - (if x >= 0x8000_0000 then 0x1_0000_0000 else 0)
  {
  }

  lemma SignOfAnd(a: int32, b: int32)
    ensures And(a, b) < 0 <==> a < 0 && b < 0
  {
    Pow2Values();
    Unsigned(a);
    Unsigned(b);
    TopBit(U32(a), U32(b), 31);
    RoundTrip(AndBits(U32(a), U32(b)));
  }

  lemma SignOfXor(a: int32, b: int32)
    ensures Xor(a, b) < 0 <==> (a < 0) != (b < 0)
  {
    Pow2Values();
    Unsigned(a);
    Unsigned(b);
    TopBit(U32(a), U32(b), 31);
    RoundTrip(XorBits(U32(a), U32(b)));
  }

  // ---- comparison ------------------------------------------------------------

  /** cmp64 (web/mvm.js:148-152) */
  function Cmp64(a: Word, b: Word): (r: int)
    ensures r < 0 <==> Val(a) < Val(b)
    ensures r == 0 <==> a == b
    ensures r > 0 <==> Val(a) > Val(b)
  {
    Unsigned(a.lo);
    Unsigned(b.lo);
    if a.hi != b.hi then (if a.hi < b.hi then -1 else 1)
    else if U32(a.lo) < U32(b.lo) then -1
    else if U32(a.lo) > U32(b.lo) then 1
    else 0
  }
}
