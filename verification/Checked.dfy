/** Checked addition, subtraction and multiplication of tagged integers, in the
    interpreter (web/mvm.js:1222-1242), in translated code (1640-1649) and on
    its slow path (1323-1331).  A tagged integer is twice its value. */
module Checked {
  import opened Words
  import opened Arith

  datatype Op = Add | Sub | Mul

  /** The word left in the destination, or the generic function called with
      the two operands. */
  datatype Outcome = Exact(w: Word) | Generic(a: Word, b: Word)

  /** The exact tagged result. */
  function Ideal(op: Op, a: Word, b: Word): int {
    match op
    case Add => Val(a) + Val(b)
    case Sub => Val(a) - Val(b)
    case Mul => (Val(a) / 2) * Val(b)
  }

  /** On tagged integers: the tagged sum, difference and product. */
  lemma IdealIs(a: Word, b: Word, x: int, y: int)
    requires Val(a) == 2 * x && Val(b) == 2 * y
    ensures Ideal(Add, a, b) == 2 * (x + y) && Ideal(Sub, a, b) == 2 * (x - y) && Ideal(Mul, a, b) == 2 * (x * y)
  {
    hide Val;
    assert 2 * x / 2 == x;
    MulAssoc(2, x, y);
    assert x * (2 * y) == (x * 2) * y;
  }

  /** The exact result when it fits 64 bits; otherwise the generic function, or
      the wrapped result in a module without one. */
  ghost predicate Correct(op: Op, gen: bool, a: Word, b: Word, r: Outcome) {
    if Fits64(Ideal(op, a, b)) then r.Exact? && Val(r.w) == Ideal(op, a, b)
    else if gen then r == Generic(a, b)
    else r.Exact? && Val(r.w) == Wrap64(Ideal(op, a, b))
  }

  /** The tagged result z, if it is a 64-bit number; otherwise the generic
      function with the operands in order, or z without its higher bits. */
  ghost predicate Comes(z: int, gen: bool, a: Word, b: Word, r: Outcome) {
    if -0x8000_0000_0000_0000 <= z < 0x8000_0000_0000_0000 then r.Exact? && Val(r.w) == z
    else if gen then r == Generic(a, b)
    else r.Exact? && (Val(r.w) - z) % 0x1_0000_0000_0000_0000 == 0
  }

  /** What tagged integers come to. */
  lemma Integers(op: Op, gen: bool, a: Word, b: Word, x: int, y: int, r: Outcome)
    requires Val(a) == 2 * x && Val(b) == 2 * y && Correct(op, gen, a, b, r)
    ensures Comes(match op case Add => 2 * (x + y) case Sub => 2 * (x - y) case Mul => 2 * (x * y), gen, a, b, r)
  {
    hide Val, Wrap64;
    IdealIs(a, b, x, y);
    var z := Ideal(op, a, b);
    var k := WrapIs(z);
    MulMod(0x1_0000_0000_0000_0000, 0 - k);
  }

  /** `((ah ^ RH) & (bh ^ RH)) < 0` and `((ah ^ bh) & (ah ^ RH)) < 0` */
  function AddOverflows(ah: int32, bh: int32, rh: int32): bool {
    And(Xor(ah, rh), Xor(bh, rh)) < 0
  }

  function SubOverflows(ah: int32, bh: int32, rh: int32): bool {
    And(Xor(ah, bh), Xor(ah, rh)) < 0
  }

  lemma Sign(a: Word)
    ensures a.hi < 0 <==> Val(a) < 0
  {
    hide U32;
  }

  lemma WrapNear(x: int)
    requires -0x1_0000_0000_0000_0000 <= x < 0x1_0000_0000_0000_0000
    ensures Wrap64(x) == if Fits64(x) then x else if x < 0 then x + 0x1_0000_0000_0000_0000 else x - 0x1_0000_0000_0000_0000
  {
    WrapUnique(x, if Fits64(x) then x else if x < 0 then x + 0x1_0000_0000_0000_0000 else x - 0x1_0000_0000_0000_0000,
               if Fits64(x) then 0 else if x < 0 then -1 else 1);
  }

  /** The sign bits tell exactly when an addition leaves 64 bits. */
  lemma AddOverflow(a: Word, b: Word, r: Word)
    requires Val(r) == Wrap64(Val(a) + Val(b))
    ensures AddOverflows(a.hi, b.hi, r.hi) <==> !Fits64(Val(a) + Val(b))
  {
    hide And, Xor, Val, Wrap64;
    SignOfXor(a.hi, r.hi);
    SignOfXor(b.hi, r.hi);
    SignOfAnd(Xor(a.hi, r.hi), Xor(b.hi, r.hi));
    Sign(a); Sign(b); Sign(r);
    WrapNear(Val(a) + Val(b));
  }

  lemma SubOverflow(a: Word, b: Word, r: Word)
    requires Val(r) == Wrap64(Val(a) - Val(b))
    ensures SubOverflows(a.hi, b.hi, r.hi) <==> !Fits64(Val(a) - Val(b))
  {
    hide And, Xor, Val, Wrap64;
    SignOfXor(a.hi, b.hi);
    SignOfXor(a.hi, r.hi);
    SignOfAnd(Xor(a.hi, b.hi), Xor(a.hi, r.hi));
    Sign(a); Sign(b); Sign(r);
    WrapNear(Val(a) - Val(b));
  }

  /** The test of the fast multiply: a word in the range of 27-bit integers. */
  predicate Short(w: Word) {
    w.hi == Sar(w.lo, 31) && -0x400_0000 < w.lo < 0x400_0000
  }

  lemma ShortVal(w: Word)
    requires Short(w)
    ensures Val(w) == w.lo
  {
    var r := SarFloor(w.lo, 31);
    Unsigned(w.lo);
  }

  /** It tests for exactly those. */
  lemma ShortIs(w: Word)
    ensures Short(w) <==> -0x400_0000 < Val(w) < 0x400_0000
  {
    if Short(w) { ShortVal(w); }
    if -0x400_0000 < Val(w) < 0x400_0000 {
      var r := SarFloor(w.lo, 31);
      Unsigned(w.lo);
    }
  }

  /** Its product is exact in double precision, and fits. */
  lemma ShortProduct(x: Word, b: Word)
    requires Short(x) && Short(b)
    ensures x.lo * b.lo == Val(x) * Val(b) && -0x10_0000_0000_0000 < x.lo * b.lo < 0x10_0000_0000_0000
    ensures Fits64(x.lo * b.lo)
  {
    ShortVal(x);
    ShortVal(b);
    hide Val, Sar, U32;
    Product26(x.lo, b.lo);
  }

  lemma Product26(x: int, y: int)
    requires -0x400_0000 < x < 0x400_0000 && -0x400_0000 < y < 0x400_0000
    ensures -0x10_0000_0000_0000 < x * y < 0x10_0000_0000_0000
  {
    if x < 0 {
      if y < 0 { MulLe(-x, -y, 0x3FF_FFFF); } else { MulLe(-x, y, 0x3FF_FFFF); }
    } else {
      if y < 0 { MulLe(x, -y, 0x3FF_FFFF); } else { MulLe(x, y, 0x3FF_FFFF); }
    }
  }

  lemma HalfOf(a: int)
    ensures a / Pow2(1 % 64) == a / 2
  {
    assert Pow2(1) == 2;
  }

  method Result(alu: Alu) returns (w: Word)
    requires alu.IsWord()
    ensures Val(w) == Num(alu.RL, alu.RH) && w.hi == alu.RH
  {
    w := Word(alu.RL, alu.RH);
  }

  /** The interpreter's instruction. */
  method Interpret(alu: Alu, op: Op, gen: bool, a: Word, b: Word) returns (r: Outcome)
    modifies alu
    ensures Correct(op, gen, a, b, r)
  {
    hide Fits64, Wrap64, AddOverflows, SubOverflows, Pow2, Val, Num;
    var w, ovf;
    match op {
      case Add =>
        alu.Add64(a, b);
        w := Result(alu);
        AddOverflow(a, b, w);
        WrapFits(Val(a) + Val(b));
        ovf := AddOverflows(a.hi, b.hi, alu.RH);
      case Sub =>
        alu.Sub64(a, b);
        w := Result(alu);
        SubOverflow(a, b, w);
        WrapFits(Val(a) - Val(b));
        ovf := SubOverflows(a.hi, b.hi, alu.RH);
      case Mul =>
        w, ovf := Multiply(alu, a, b);
    }
    r := if !ovf || !gen then Exact(w) else Generic(a, b);
  }

  method Multiply(alu: Alu, a: Word, b: Word) returns (w: Word, ovf: bool)
    modifies alu
    ensures Val(w) == Wrap64(Ideal(Mul, a, b)) && (ovf <==> !Fits64(Ideal(Mul, a, b)))
    ensures !ovf ==> Val(w) == Ideal(Mul, a, b)
  {
    hide Fits64, Wrap64, Pow2, Val, Num;
    alu.Sar64(a, 1);
    HalfOf(Val(a));
    var x := Result(alu);
    var p := Ideal(Mul, a, b);
    WrapFits(p);
    if Short(x) && Short(b) {
      ShortProduct(x, b);
      alu.FromNum(x.lo * b.lo);
      ovf := false;
    } else {
      ovf := !Fits64(p);
      alu.FromBig(p);
    }
    w := Result(alu);
  }

  /** The slow path of translated code: checkedSlow. */
  method Slow(alu: Alu, op: Op, gen: bool, a: Word, b: Word) returns (r: Outcome)
    modifies alu
    ensures op == Mul ==> Correct(op, gen, a, b, r)
    ensures op != Mul ==> if gen then r == Generic(a, b) else r.Exact? && Val(r.w) == Wrap64(Ideal(op, a, b))
  {
    hide Fits64, Wrap64, Pow2, Val, Num;
    var w;
    match op {
      case Mul =>
        alu.Sar64(a, 1);
        HalfOf(Val(a));
        var x := Result(alu);
        var p := Product(x, b);
        WrapFits(p);
        if Fits64(p) || !gen {
          alu.FromBig(p);
          w := Result(alu);
          return Exact(w);
        }
      case Add =>
        if !gen { alu.Add64(a, b); w := Result(alu); return Exact(w); }
      case Sub =>
        if !gen { alu.Sub64(a, b); w := Result(alu); return Exact(w); }
    }
    r := Generic(a, b);
  }

  /** The code compileFn emits: the fast path inline, checkedSlow behind it. */
  method Translated(alu: Alu, op: Op, gen: bool, a: Word, b: Word) returns (r: Outcome)
    modifies alu
    ensures Correct(op, gen, a, b, r)
  {
    hide Fits64, Wrap64, AddOverflows, SubOverflows, Pow2, Val, Num;
    var w;
    match op {
      case Add =>
        alu.Add64(a, b);
        w := Result(alu);
        AddOverflow(a, b, w);
        WrapFits(Val(a) + Val(b));
        if AddOverflows(a.hi, b.hi, alu.RH) { r := Slow(alu, op, gen, a, b); } else { r := Exact(w); }
      case Sub =>
        alu.Sub64(a, b);
        w := Result(alu);
        SubOverflow(a, b, w);
        WrapFits(Val(a) - Val(b));
        if SubOverflows(a.hi, b.hi, alu.RH) { r := Slow(alu, op, gen, a, b); } else { r := Exact(w); }
      case Mul =>
        alu.Sar64(a, 1);
        HalfOf(Val(a));
        var x := Result(alu);
        if Short(x) && Short(b) {
          ShortProduct(x, b);
          WrapFits(x.lo * b.lo);
          alu.FromNum(x.lo * b.lo);
          w := Result(alu);
          r := Exact(w);
        } else {
          r := Slow(alu, op, gen, a, b);
        }
    }
  }

  /** toBig(x) * toBig(b) */
  function Product(x: Word, b: Word): int {
    Val(x) * Val(b)
  }

  lemma WrapFits(x: int)
    ensures Fits64(x) ==> Wrap64(x) == x
  {
  }

  /** The two tiers leave the same word, or make the same generic call. */
  lemma TiersAgree(op: Op, gen: bool, a: Word, b: Word, r: Outcome, s: Outcome)
    requires Correct(op, gen, a, b, r) && Correct(op, gen, a, b, s)
    ensures r == s
  {
    hide Val;
    if r.Exact? && s.Exact? { ValInjective(r.w, s.w); }
  }
}
