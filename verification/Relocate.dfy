/** relocate() (web/mvm.js:353-377): copied bytecode is made runnable at its new
    place by rewriting the operands of call, tailcall and fn-addr.  The result
    has the same instruction boundaries and runs in step with the original. */
module Relocate {
  import opened Bytes
  import opened Isa
  import opened Results
  import opened Words

  const UNRESOLVED := 0xFFFF_FFF0    // FN_UNRESOLVED
  const SYNTHETIC := 0x4000_0000
  const JIT_PHYS := 0x240_0000

  // ---- instruction lengths (web/mvm.js:41-55) ---------------------------------------

  function Len(op: byte): (n: nat)
    ensures n <= 10
    ensures op == 0x80 || op == 0x83 ==> n == 5
    ensures op == 0xA7 ==> n == 6
  {
    if op in {0x00, 0x01, 0x72, 0x82, 0x89, 0x8B, 0x92, 0xA2, 0xA3, 0xA4} then 1
    else if op in {0x12, 0x13, 0x26, 0x27, 0x81, 0x88, 0x8A, 0x90, 0x91, 0xB8, 0xBA, 0xBB, 0xBC, 0xBD} then 2
    else if op in {0x02, 0x10, 0x25, 0x30, 0x31, 0x50, 0x51, 0x53, 0x54, 0x55, 0x56, 0x63, 0x64, 0x67, 0x68, 0xB0, 0xB7, 0xB9, 0xC2, 0xC3, 0xC4, 0xC8,
                   0x8D, 0xCB, 0xD0, 0xD1, 0xD2, 0xDB, 0xE1, 0xF4} then 3
    else if op in {0x20, 0x21, 0x22, 0x23, 0x24, 0x28, 0x29, 0x2A, 0x2B, 0x2C, 0x2D, 0x2F, 0x32, 0x52, 0x61, 0x62, 0x65, 0x66, 0x70, 0x71, 0x93, 0xA5, 0xA6,
                   0xA8, 0xA9, 0xAA, 0xAB, 0xAC, 0xAD, 0xAE, 0xAF, 0xB1, 0xB2, 0xB3, 0xB4, 0xB5, 0xB6, 0xBE, 0xBF, 0xC0, 0xC1, 0xC5, 0xC6, 0xC9, 0xCA,
                   0xCC, 0xCD, 0xCE, 0xCF, 0xD3, 0xD4, 0xD5, 0xD6, 0xD7, 0xD8, 0xD9, 0xDA, 0xDC, 0xDD, 0xDE, 0xDF, 0xE0, 0xE4, 0xE5, 0xE8} then 4
    else if op in {0x2E, 0x60, 0x40, 0x41, 0x42, 0x43, 0x44, 0x45, 0x46, 0x80, 0x83, 0xA0, 0xA1, 0xC7, 0x8C, 0xE2, 0xE3, 0xE6, 0xE7, 0xE9} then 5
    else if op in {0x47, 0x48, 0xA7, 0x33, 0x34, 0xEA} then 6
    else if op in {0x11, 0x14} then 10
    else 0
  }

  /** The lengths opcode by opcode, sixteen to a row; A is 10. */
  function Lengths(): (r: seq<string>)
    ensures |r| == 16 && forall h :: 0 <= h < 16 ==> |r[h]| == 16
  {
    ["1130000000000000", "3A22A00000000000", "4444432244444454", "3346600000000000",
     "5555555660000000", "3343333000000000", "5443344330000000", "4410000000000000",
     "5215000021215300", "2214000000000000", "5511144644444444", "3444444323222244",
     "4433344534434444", "3334444444434444", "4355445545600000", "0000300000000000"]
  }

  lemma LengthsFirst(op: byte)
    requires op < 0x40
    ensures "0123456789A"[Len(op)] == Lengths()[op / 16][op % 16]
  {
    var row := Lengths()[op / 16];
  }

  lemma LengthsSecond(op: byte)
    requires 0x40 <= op < 0x80
    ensures "0123456789A"[Len(op)] == Lengths()[op / 16][op % 16]
  {
    var row := Lengths()[op / 16];
  }

  lemma LengthsThird(op: byte)
    requires 0x80 <= op < 0xC0
    ensures "0123456789A"[Len(op)] == Lengths()[op / 16][op % 16]
  {
    var row := Lengths()[op / 16];
  }

  lemma LengthsFourth(op: byte)
    requires 0xC0 <= op
    ensures "0123456789A"[Len(op)] == Lengths()[op / 16][op % 16]
  {
    var row := Lengths()[op / 16];
  }

  lemma LengthsAre(op: byte)
    ensures "0123456789A"[Len(op)] == Lengths()[op / 16][op % 16]
  {
    hide Len, Lengths;
    if op < 0x40 { LengthsFirst(op); } else if op < 0x80 { LengthsSecond(op); } else if op < 0xC0 { LengthsThird(op); } else { LengthsFourth(op); }
  }

  /** call, tailcall and fn-addr, and where their 32-bit operand is. */
  predicate HasTarget(op: byte) { op == 0x80 || op == 0x83 || op == 0xA7 }

  function OperandAt(op: byte): nat { if op == 0xA7 then 2 else 1 }

  // ---- the new operand --------------------------------------------------------------------

  /** The runtime table left by the Lisp side: word k is the tagged function of
      synthetic target k.  None when the code may not have synthetic targets. */
  type Table = Option<nat -> Word>

  function NewTarget(imm: int, base: nat, table: Table): (r: Option<int>)
    requires 0 <= imm < 0x1_0000_0000 && base < SYNTHETIC
    ensures r.Some? ==> 0 <= r.value < 0x1_0000_0000
  {
    if imm == UNRESOLVED then Some(imm)
    else if imm >= SYNTHETIC then
      match table
      case None => None
      case Some(word) => FnTarget(word(imm - SYNTHETIC))
    else Some(base + imm)
  }

  /** A target of the module moves along, and an unresolved one stays unresolved. */
  lemma OwnTarget(imm: int, base: nat, table: Table)
    requires 0 <= imm < 0x4000_0000 && base < SYNTHETIC
    ensures NewTarget(imm, base, table) == Some(base + imm) && NewTarget(0xFFFF_FFF0, base, table) == Some(0xFFFF_FFF0)
  {
  }

  /** A synthetic target is what its word in the table names. */
  lemma SyntheticTarget(k: nat, base: nat, word: nat -> Word, t: int)
    requires SYNTHETIC + k < UNRESOLVED && base < SYNTHETIC && 0 <= t < 0x1000_0000
    requires word(k) == Word(ToInt32(16 * t + 3), 0)
    ensures NewTarget(0x4000_0000 + k, base, Some(word)) == Some(t) && NewTarget(0x4000_0000 + k, base, None) == None
  {
    FnRoundTrip(t);
    hide FnTarget, ToInt32;
  }

  /** The memory after the instructions at p, ..., below end have been
      rewritten, or None at an unknown opcode or target. */
  function Walk(m: seq<byte>, p: nat, end: nat, base: nat, table: Table): (r: Option<seq<byte>>)
    requires end + 10 <= |m| && base < SYNTHETIC
    ensures r.Some? ==> |r.value| == |m|
    decreases end - p
  {
    if p >= end then Some(m)
    else
      var op := m[p];
      if Len(op) == 0 then None
      else if !HasTarget(op) then Walk(m, p + Len(op), end, base, table)
      else
        var at := p + OperandAt(op);
        match NewTarget(Get32(m, at), base, table)
        case None => None
        case Some(t) => Walk(Put32(m, at, t), p + Len(op), end, base, table)
  }

  class Memory {
    const m8: array<byte>

    /** False when some instruction or target is not known; the code rewritten so far stays. */
    method Relocate(phys: nat, len: nat, base: nat, table: Table) returns (ok: bool)
      requires phys + len + 10 <= m8.Length && base < SYNTHETIC
      modifies m8
      ensures ok == Walk(old(m8[..]), phys, phys + len, base, table).Some?
      ensures ok ==> m8[..] == Walk(old(m8[..]), phys, phys + len, base, table).value
    {
      hide Len, Get32, Put32, NewTarget;
      var end, p := phys + len, phys;
      while p < end
        invariant Walk(m8[..], p, end, base, table) == Walk(old(m8[..]), phys, end, base, table)
        decreases end - p
      {
        var op := m8[p];
        var n := Len(op);
        if n == 0 { return false; }
        if op == 0x80 || op == 0x83 || op == 0xA7 {
          var at := p + (if op == 0xA7 then 2 else 1);
          var imm := Read32(at);
          var t := NewTarget(imm, base, table);
          if t.None? { return false; }
          Write32(at, t.value);
        }
        p := p + n;
      }
      ok := true;
    }

    method Read32(at: nat) returns (r: int)
      requires at + 4 <= m8.Length
      ensures r == Get32(m8[..], at)
    {
      var b0: int, b1: int, b2: int, b3: int := m8[at], m8[at + 1], m8[at + 2], m8[at + 3];
      r := b0 + 0x100 * b1 + 0x1_0000 * b2 + 0x100_0000 * b3;
    }

    method Write32(at: nat, t: int)
      requires at + 4 <= m8.Length && 0 <= t < 0x1_0000_0000
      modifies m8
      ensures m8[..] == Put32(old(m8[..]), at, t)
    {
      m8[at], m8[at + 1], m8[at + 2], m8[at + 3] := t % 0x100, (t / 0x100) % 0x100, (t / 0x1_0000) % 0x100, t / 0x100_0000;
    }
  }

  // ---- what relocation keeps --------------------------------------------------------------

  /** p is the start of an instruction of the code in [from, end). */
  predicate Boundary(m: seq<byte>, from: nat, end: nat, p: nat): (r: bool)
    requires end <= |m|
    ensures r ==> from <= p < end
    decreases end - from
  {
    if from >= end || p < from then false
    else p == from || (Len(m[from]) > 0 && Boundary(m, from + Len(m[from]), end, p))
  }

  /** Rewriting an operand of the instruction at p leaves the instructions at
      and behind it where they are. */
  lemma {:induction false} BoundaryKept(m: seq<byte>, m': seq<byte>, from: nat, end: nat, q: nat)
    requires end <= |m| == |m'| && forall k :: from <= k < |m| ==> m'[k] == m[k]
    ensures Boundary(m', from, end, q) == Boundary(m, from, end, q)
    decreases end - from
  {
    hide Len;
    if from < end && Len(m[from]) > 0 {
      BoundaryKept(m, m', from + Len(m[from]), end, q);
    }
  }

  /** The bytes of instruction q, before and after: the same, but for the
      operand of a call, tailcall or fn-addr. */
  ghost predicate Rewritten(m: seq<byte>, m': seq<byte>, q: nat, base: nat, table: Table)
    requires q + 10 <= |m| == |m'| && base < SYNTHETIC
  {
    && m'[q] == m[q] && Len(m[q]) > 0
    && (forall k :: q <= k < q + Len(m[q]) && !(HasTarget(m[q]) && q + OperandAt(m[q]) <= k < q + OperandAt(m[q]) + 4) ==> m'[k] == m[k])
    && (HasTarget(m[q]) ==>
          var at := q + OperandAt(m[q]);
          NewTarget(Get32(m, at), base, table) == Some(Get32(m', at)))
  }

  /** Walk touches nothing before its start or behind the last instruction. */
  lemma {:induction false} WalkOutside(m: seq<byte>, p: nat, end: nat, base: nat, table: Table, k: nat)
    requires end + 10 <= |m| && base < SYNTHETIC && Walk(m, p, end, base, table).Some?
    requires k < |m| && (k < p || k >= end + 5)
    ensures Walk(m, p, end, base, table).value[k] == m[k]
    decreases end - p
  {
    hide Len, Get32, Put32, NewTarget;
    if p < end {
      var op := m[p];
      if HasTarget(op) {
        var at := p + OperandAt(op);
        var t := NewTarget(Get32(m, at), base, table).value;
        WalkOutside(Put32(m, at, t), p + Len(op), end, base, table, k);
      } else {
        WalkOutside(m, p + Len(op), end, base, table, k);
      }
    }
  }

  /** Relocation keeps every instruction boundary and rewrites each
      instruction as it should and no further. */
  lemma {:induction false} WalkRewrites(m: seq<byte>, p: nat, end: nat, base: nat, table: Table, q: nat)
    requires end + 10 <= |m| && base < SYNTHETIC && Walk(m, p, end, base, table).Some?
    ensures var m' := Walk(m, p, end, base, table).value;
      Boundary(m', p, end, q) == Boundary(m, p, end, q) && (Boundary(m, p, end, q) ==> Rewritten(m, m', q, base, table))
    decreases end - p
  {
    hide Len, Get32, Put32, NewTarget;
    if p < end {
      var m' := Walk(m, p, end, base, table).value;
      var op := m[p];
      var next := p + Len(op);
      var m1 := m;
      if HasTarget(op) {
        var at := p + OperandAt(op);
        var t := NewTarget(Get32(m, at), base, table).value;
        m1 := Put32(m, at, t);
        PutGet(m, at, t);
      }
      WalkRewrites(m1, next, end, base, table, q);
      BoundaryKept(m, m1, next, end, q);
      if q != p && Boundary(m, next, end, q) {
        SameRewritten(m, m1, m', q, base, table);
      }
      forall k | p <= k < next
        ensures m'[k] == m1[k]
      {
        WalkOutside(m1, next, end, base, table, k);
      }
      if HasTarget(op) { SameGet(m1, m', p + OperandAt(op)); }
    }
  }

  lemma SameGet(m: seq<byte>, m': seq<byte>, at: nat)
    requires at + 4 <= |m| == |m'| && forall k :: at <= k < at + 4 ==> m'[k] == m[k]
    ensures Get32(m', at) == Get32(m, at)
  {
  }

  lemma SameRewritten(m: seq<byte>, m1: seq<byte>, m': seq<byte>, q: nat, base: nat, table: Table)
    requires q + 10 <= |m| == |m1| == |m'| && base < SYNTHETIC && Rewritten(m1, m', q, base, table)
    requires forall k :: q <= k < q + 10 ==> m1[k] == m[k]
    ensures Rewritten(m, m', q, base, table)
  {
    hide Len, NewTarget;
    if HasTarget(m[q]) { SameGet(m, m1, q + OperandAt(m[q])); }
  }

  // ---- running in step ------------------------------------------------------------------------

  /** `(t << 4) | 3`, the function value of the code at t. */
  function FnWord(t: int): Word {
    Word(ToInt32(16 * t + 3), 0)
  }

  /** fnAddrToOffset undoes it for every address below 2^28. */
  lemma FnRoundTrip(t: int)
    requires 0 <= t < 0x1000_0000
    ensures FnTarget(FnWord(t)) == Some(t)
  {
    RoundTrip(16 * t + 3);
    var e := if 16 * t + 3 >= 0x8000_0000 then 1 else 0;
    hide ToInt32, U32;
    var lo: int := ToInt32(16 * t + 3);
    Tagged3(lo, t - e * 0x1000_0000);
    U32Unique(lo - 3, 16 * t, -e);
    Tagged3(16 * t + 3, t);
  }

  lemma Tagged3(x: int, q: int)
    requires x == 16 * q + 3
    ensures x % 16 == 3 && (x - 3) / 16 == q
  {
  }

  /** The same word in the moved code: function values move along. */
  function Moved(base: nat, w: Word): Word {
    match FnTarget(w)
    case None => w
    case Some(t) => FnWord(base + t)
  }

  /** A function value moves along; any other word, though it may look like
      one, stays as it is. */
  function MovedIf(base: nat, fn: bool, w: Word): Word {
    if fn then Moved(base, w) else w
  }

  /** fns are the places of the function values. */
  function MovedAll(base: nat, fns: set<nat>, ws: seq<Word>): (r: seq<Word>)
    ensures |r| == |ws|
  {
    seq(|ws|, i requires 0 <= i < |ws| => MovedIf(base, i in fns, ws[i]))
  }

  /** A jump buffer: how many return pcs were on the stack, the resume pc, V4. */
  datatype Jump = Jump(depth: nat, ip: int, v4: Word)

  /** The words of registers and memory, the return pcs on the stack, the
      handlers, and pc. */
  datatype Run = Run(pc: int, rets: seq<int>, ws: seq<Word>, hs: Handlers<Jump>)

  /** Which words are function values, and which jump buffers have one for V4.
      The machine does not keep track of this; the program does. */
  datatype Kinds = Kinds(fns: set<nat>, hs: Handlers<bool>) {
    predicate Fits(s: Run) {
      |hs.saved| == |s.hs.saved| && hs.over == s.hs.over
    }
  }

  function Shift(base: nat, fn: Option<bool>, o: Option<Jump>): Option<Jump> {
    match o
    case None => None
    case Some(h) => Some(Jump(h.depth, base + h.ip, MovedIf(base, fn == Some(true), h.v4)))
  }

  function ShiftAll(base: nat, fns: Handlers<bool>, hs: Handlers<Jump>): Handlers<Jump> {
    Handlers(Shift(base, fns.cur, hs.cur),
             seq(|hs.saved|, i requires 0 <= i < |hs.saved| => Shift(base, if i < |fns.saved| then fns.saved[i] else None, hs.saved[i])), hs.over)
  }

  function Shifted(base: nat, k: Kinds, s: Run): Run {
    Run(base + s.pc, seq(|s.rets|, i requires 0 <= i < |s.rets| => base + s.rets[i]), MovedAll(base, k.fns, s.ws), ShiftAll(base, k.hs, s.hs))
  }

  /** What an instruction makes of the words; it may raise a memory fault, or
      stop the machine. */
  datatype Effect = Goes(ws: seq<Word>) | Raises(ws: seq<Word>) | Halts

  /** What happens to the registers when the frame changes. */
  datatype Switch = Entering | Replacing | Leaving | Unwinding(depth: nat)

  /** What relocation does not touch: straight-line instructions, li-const,
      which reads one table below JIT_PHYS and another above, conditions of
      branches, and what a change of frame does to the registers. */
  datatype Effects = Effects(straight: (seq<byte>, seq<Word>) -> Effect, constant: (bool, seq<byte>, seq<Word>) -> Effect,
                             taken: (seq<byte>, seq<Word>) -> bool, switch: (Switch, seq<Word>) -> seq<Word>)

  function Signed(x: int): int { if x >= 0x8000_0000 then x - 0x1_0000_0000 else x }

  predicate IsBranch(op: byte) { 0x40 <= op <= 0x48 || op == 0xC7 }

  /** V4 or VR, if the words go that far. */
  function Put(ws: seq<Word>, r: nat, w: Word): seq<Word> {
    if r < |ws| then ws[r := w] else ws
  }

  /** A longjmp, or a memory fault, which is raised as one. */
  function Throw(f: Effects, s: Run): Option<Run> {
    match s.hs.cur
    case None => None
    case Some(h) =>
      if h.depth > |s.rets| then None
      else Some(Run(h.ip, s.rets[..h.depth], Put(Put(f.switch(Unwinding(h.depth), s.ws), 4, h.v4), VR, Tee()), s.hs.(over := 0).Drop()))
  }

  function Setjmp(s: Run, next: int): Run {
    var h := Jump(|s.rets|, next, if |s.ws| > 4 then s.ws[4] else Nil());
    Run(next, s.rets, Put(s.ws, VR, Nil()), s.hs.Push(h))
  }

  function After(f: Effects, s: Run, next: int, e: Effect): Option<Run> {
    match e
    case Goes(x) => Some(s.(pc := next, ws := x))
    case Raises(x) => Throw(f, s.(ws := x))
    case Halts => None
  }

  /** The traps that belong to control: setjmp, longjmp, handler-pop, and the
      two that work on code pages by address. */
  function Trap(f: Effects, m: seq<byte>, s: Run, next: int, bytes: seq<byte>): Option<Run>
    requires 0 <= s.pc && s.pc + 2 < |m|
  {
    var lo: int, hi: int := m[s.pc + 1], m[s.pc + 2];
    var code := lo + 256 * hi;
    if code == 0x0510 then Some(Setjmp(s, next))
    else if code == 0x0511 then Throw(f, s)
    else if code == 0x0512 then Some(s.(pc := next, hs := s.hs.Drop()))
    else if code == 0x0532 || code == 0x0533 then None
    else After(f, s, next, f.straight(bytes, s.ws))
  }

  function BranchStep(f: Effects, m: seq<byte>, s: Run, next: int, bytes: seq<byte>): Option<Run>
    requires 0 <= s.pc && s.pc + 6 <= |m|
  {
    var at := s.pc + (if m[s.pc] == 0x47 || m[s.pc] == 0x48 then 2 else 1);
    Some(s.(pc := if m[s.pc] == 0x40 || f.taken(bytes, s.ws) then next + Signed(Get32(m, at)) else next))
  }

  function Called(f: Effects, s: Run, t: int, next: int): Run {
    s.(pc := t, rets := s.rets + [next], ws := f.switch(Entering, s.ws))
  }

  function Replaced(f: Effects, s: Run, t: int): Run {
    s.(pc := t, ws := f.switch(Replacing, s.ws))
  }

  function IndirectStep(f: Effects, s: Run, r: nat, next: int): Option<Run> {
    if r >= |s.ws| then None
    else match FnTarget(s.ws[r])
      case None => Throw(f, s)
      case Some(t) => Some(Called(f, s, t, next))
  }

  function ReturnStep(f: Effects, s: Run): Option<Run> {
    if s.rets == [] then None
    else Some(s.(pc := s.rets[|s.rets| - 1], rets := s.rets[..|s.rets| - 1], ws := f.switch(Leaving, s.ws)))
  }

  function FnStep(s: Run, r: nat, t: int, next: int): Option<Run> {
    if r >= |s.ws| then None else Some(s.(pc := next, ws := s.ws[r := if t == UNRESOLVED then Nil() else FnWord(t)]))
  }

  /** One instruction of the code in [from, from + len). */
  function Step(f: Effects, m: seq<byte>, from: nat, len: nat, s: Run): Option<Run>
    requires from + len + 10 <= |m|
  {
    if !(from <= s.pc < from + len) || Len(m[s.pc]) == 0 then None
    else
      var op, next := m[s.pc], s.pc + Len(m[s.pc]);
      var bytes := m[s.pc..next];
      if IsBranch(op) then BranchStep(f, m, s, next, bytes)
      else if op == 0x80 then Some(Called(f, s, Get32(m, s.pc + 1), next))
      else if op == 0x83 then Some(Replaced(f, s, Get32(m, s.pc + 1)))
      else if op == 0x81 then IndirectStep(f, s, m[s.pc + 1], next)
      else if op == 0x82 then ReturnStep(f, s)
      else if op == 0xA7 then FnStep(s, m[s.pc + 1], Get32(m, s.pc + 2), next)
      else if op == 0x02 then Trap(f, m, s, next, bytes)
      else if op == 0x14 then After(f, s, next, f.constant(s.pc >= JIT_PHYS, bytes, s.ws))
      else After(f, s, next, f.straight(bytes, s.ws))
  }

  // ---- what the program asks of its instructions -------------------------------------

  /** A change of frame carries function values to function values. */
  ghost predicate Switches(f: Effects, base: nat, sw: Switch, k: Kinds, k': Kinds, ws: seq<Word>) {
    k'.hs == k.hs && f.switch(sw, MovedAll(base, k.fns, ws)) == MovedAll(base, k'.fns, f.switch(sw, ws))
  }

  /** So does a longjmp; V4 is what the jump buffer says. */
  ghost predicate Throws(f: Effects, base: nat, k: Kinds, k': Kinds, s: Run) {
    s.hs.cur.Some? && s.hs.cur.value.depth <= |s.rets| ==>
      var sw := Unwinding(s.hs.cur.value.depth);
      && k'.hs == k.hs.(over := 0).Drop()
      && exists fns: set<nat> ::
           && f.switch(sw, MovedAll(base, k.fns, s.ws)) == MovedAll(base, fns, f.switch(sw, s.ws))
           && k'.fns == if k.hs.cur == Some(true) then fns + {4} else fns - {4}
  }

  /** The effect e on the words is, on moved words, e'. */
  ghost predicate Follows(f: Effects, base: nat, k: Kinds, k': Kinds, s: Run, e: Effect, e': Effect) {
    match e
    case Goes(x) => k'.hs == k.hs && e' == Goes(MovedAll(base, k'.fns, x))
    case Raises(x) => exists fns: set<nat> :: e' == Raises(MovedAll(base, fns, x)) && Throws(f, base, k.(fns := fns), k', s.(ws := x))
    case Halts => e' == Halts
  }

  /** The instruction at pc, on the words there are, carries function values
      around without looking into them: those of k before are those of k' behind
      it.  Other words may have any value, that of a function too, and are not
      called. */
  ghost predicate Onward(f: Effects, m: seq<byte>, base: nat, k: Kinds, k': Kinds, s: Run)
    requires 0 <= s.pc && s.pc + 10 <= |m|
  {
    var op, next := m[s.pc], s.pc + Len(m[s.pc]);
    var bytes, moved := m[s.pc..next], MovedAll(base, k.fns, s.ws);
    if IsBranch(op) then k' == k && (op == 0x40 || f.taken(bytes, moved) == f.taken(bytes, s.ws))
    else if op == 0x80 then Switches(f, base, Entering, k, k', s.ws)
    else if op == 0x83 then Switches(f, base, Replacing, k, k', s.ws)
    else if op == 0x82 then Switches(f, base, Leaving, k, k', s.ws)
    else if op == 0x81 then CallOnward(f, base, k, k', s, m[s.pc + 1])
    else if op == 0xA7 then k' == k.(fns := k.fns + {m[s.pc + 1]})
    else if op == 0x02 then TrapOnward(f, m, base, k, k', s, bytes)
    else if op == 0x14 then Follows(f, base, k, k', s, f.constant(s.pc >= JIT_PHYS, bytes, s.ws), f.constant(s.pc >= JIT_PHYS, bytes, moved))
    else Follows(f, base, k, k', s, f.straight(bytes, s.ws), f.straight(bytes, moved))
  }

  ghost predicate CallOnward(f: Effects, base: nat, k: Kinds, k': Kinds, s: Run, r: nat) {
    r < |s.ws| ==> if FnTarget(s.ws[r]).Some? then r in k.fns && Switches(f, base, Entering, k, k', s.ws) else Throws(f, base, k, k', s)
  }

  ghost predicate TrapOnward(f: Effects, m: seq<byte>, base: nat, k: Kinds, k': Kinds, s: Run, bytes: seq<byte>)
    requires 0 <= s.pc && s.pc + 2 < |m|
  {
    var lo: int, hi: int := m[s.pc + 1], m[s.pc + 2];
    var code := lo + 256 * hi;
    if code == 0x0510 then k' == k.(hs := k.hs.Push(4 in k.fns))
    else if code == 0x0511 then Throws(f, base, k, k', s)
    else if code == 0x0512 then k' == k.(hs := k.hs.Drop())
    else if code == 0x0532 || code == 0x0533 then true
    else Follows(f, base, k, k', s, f.straight(bytes, s.ws), f.straight(bytes, MovedAll(base, k.fns, s.ws)))
  }

  // ---- what instructions do to control -----------------------------------------------------

  /** Branches go to the end of the instruction plus the signed operand. */
  lemma BranchesGo(f: Effects, m: seq<byte>, from: nat, len: nat, s: Run)
    requires from + len + 10 <= |m| && from <= s.pc < from + len
    ensures var op, pc, r := m[s.pc], s.pc, Step(f, m, from, len, s);
      && (op == 0x40 ==> r == Some(s.(pc := pc + 5 + Offset(Get32(m, pc + 1)))))
      && (0x41 <= op <= 0x46 || op == 0xC7 ==> r == Some(s.(pc := pc + 5 + if f.taken(m[pc..pc + 5], s.ws) then Offset(Get32(m, pc + 1)) else 0)))
      && (op == 0x47 || op == 0x48 ==> r == Some(s.(pc := pc + 6 + if f.taken(m[pc..pc + 6], s.ws) then Offset(Get32(m, pc + 2)) else 0)))
  {
    hide Get32;
    if IsBranch(m[s.pc]) { StepControl(f, m, from, len, s); BranchLen(m[s.pc]); }
    hide Len, Step;
  }

  /** An operand with its sign. */
  function Offset(x: int): int { if x < 0x8000_0000 then x else x - 0x1_0000_0000 }

  /** Calls push the pc behind them and go to their target, a function value's
      or the operand; tail calls push nothing; returns pop. */
  lemma CallsGo(f: Effects, m: seq<byte>, from: nat, len: nat, s: Run, t: int)
    requires from + len + 10 <= |m| && from <= s.pc < from + len && 0 <= t < 0x1000_0000
    ensures var op, pc, r := m[s.pc], s.pc, Step(f, m, from, len, s);
      && (op == 0x80 ==> r == Some(Run(Get32(m, pc + 1), s.rets + [pc + 5], f.switch(Entering, s.ws), s.hs)))
      && (op == 0x83 ==> r == Some(Run(Get32(m, pc + 1), s.rets, f.switch(Replacing, s.ws), s.hs)))
      && (op == 0x81 && m[pc + 1] < |s.ws| && s.ws[m[pc + 1]] == Word(ToInt32(16 * t + 3), 0) ==> r == Some(Run(t, s.rets + [pc + 2], f.switch(Entering, s.ws), s.hs)))
      && (op == 0x82 && s.rets != [] ==> r == Some(Run(s.rets[|s.rets| - 1], s.rets[..|s.rets| - 1], f.switch(Leaving, s.ws), s.hs)))
      && (op == 0xA7 && m[pc + 1] < |s.ws| && Get32(m, pc + 2) == t ==> r == Some(Run(pc + 6, s.rets, s.ws[m[pc + 1] := Word(ToInt32(16 * t + 3), 0)], s.hs)))
  {
    FnRoundTrip(t);
    BranchLen(m[s.pc]);
    if HasTarget(m[s.pc]) { TargetLen(m[s.pc]); }
    if m[s.pc] in {0x80, 0x81, 0x82, 0x83, 0xA7} { StepControl(f, m, from, len, s); }
    hide Len, Step, Get32, FnTarget, ToInt32;
  }

  /** Setjmp saves the height of the stack, the pc behind it and V4, and leaves
      NIL in VR; a longjmp goes back there with T in VR and V4 as it was. */
  lemma TrapsGo(f: Effects, m: seq<byte>, from: nat, len: nat, s: Run)
    requires from + len + 10 <= |m| && from <= s.pc < from + len && m[s.pc] == 0x02 && m[s.pc + 2] == 0x05 && |s.ws| > 16
    ensures var pc, r := s.pc, Step(f, m, from, len, s);
      && (m[pc + 1] == 0x10 ==> r == Some(Run(pc + 3, s.rets, s.ws[16 := Word(ToInt32(0xDEAD_0001), 0)], s.hs.Push(Jump(|s.rets|, pc + 3, s.ws[4])))))
      && (m[pc + 1] == 0x12 ==> r == Some(Run(pc + 3, s.rets, s.ws, s.hs.Drop())))
      && (m[pc + 1] == 0x11 && s.hs.cur.None? ==> r == None)
      && (m[pc + 1] == 0x11 && s.hs.cur.Some? && s.hs.cur.value.depth <= |s.rets| && |f.switch(Unwinding(s.hs.cur.value.depth), s.ws)| > 16 ==>
            var h := s.hs.cur.value;
            r == Some(Run(h.ip, s.rets[..h.depth], f.switch(Unwinding(h.depth), s.ws)[4 := h.v4][16 := Word(ToInt32(0xDEAD_1009), 0)], s.hs.(over := 0).Drop())))
  {
    BranchLen(m[s.pc]);
    hide Len;
  }

  /** The original code is at 0 in m; its copy at base has been relocated to m'. */
  ghost predicate Copied(m: seq<byte>, m0: seq<byte>, m': seq<byte>, len: nat, base: nat, table: Table) {
    && len + 10 <= |m| && base + len + 10 <= |m0| && base < SYNTHETIC
    && (forall k :: 0 <= k < len + 10 ==> m0[base + k] == m[k])
    && Walk(m0, base, base + len, base, table) == Some(m')
  }

  /** Moving it by base leaves pc on the same side of JIT_PHYS. */
  predicate SameSide(base: nat, pc: int) {
    pc >= JIT_PHYS <==> base + pc >= JIT_PHYS
  }

  /** Where the program is, and what it calls, is in the module: pc is at an
      instruction whose target, if it has one, is an offset below bound, and so
      is the function it calls through a register; a li-const is not moved
      across JIT_PHYS. */
  ghost predicate Inside(m: seq<byte>, len: nat, base: nat, bound: int, s: Run)
    requires len + 10 <= |m|
  {
    && (0 <= s.pc < len && m[s.pc] == 0x14 ==> SameSide(base, s.pc))
    && (0 <= s.pc ==> Boundary(m, 0, len, s.pc))
    && (0 <= s.pc < len && HasTarget(m[s.pc]) ==>
          var imm := Get32(m, s.pc + OperandAt(m[s.pc])); imm < bound || (m[s.pc] == 0xA7 && imm == UNRESOLVED))
    && (0 <= s.pc < len && m[s.pc] == 0x81 ==> Below(bound, s.ws, m[s.pc + 1]))
  }

  predicate Below(bound: int, ws: seq<Word>, r: nat) {
    r < |ws| && FnTarget(ws[r]).Some? ==> FnTarget(ws[r]).value < bound
  }

  lemma {:induction false} BoundaryShift(m: seq<byte>, m0: seq<byte>, len: nat, base: nat, from: nat, q: nat)
    requires len + 10 <= |m| && base + len + 10 <= |m0| && forall k :: 0 <= k < len + 10 ==> m0[base + k] == m[k]
    ensures Boundary(m0, base + from, base + len, base + q) == Boundary(m, from, len, q)
    decreases len - from
  {
    hide Len;
    if from < len && Len(m[from]) > 0 {
      BoundaryShift(m, m0, len, base, from + Len(m[from]), q);
    }
  }

  /** The instruction at q of the copy: the original one, its target moved. */
  lemma CopiedAt(m: seq<byte>, m0: seq<byte>, m': seq<byte>, len: nat, base: nat, table: Table, q: nat)
    requires Copied(m, m0, m', len, base, table) && Boundary(m, 0, len, q)
    ensures |m'| == |m0| && m'[base + q] == m[q] && Len(m[q]) > 0
    ensures forall k :: q <= k < q + Len(m[q]) && !(HasTarget(m[q]) && q + OperandAt(m[q]) <= k < q + OperandAt(m[q]) + 4) ==> m'[base + k] == m[k]
    ensures HasTarget(m[q]) ==> NewTarget(Get32(m, q + OperandAt(m[q])), base, table) == Some(Get32(m', base + q + OperandAt(m[q])))
  {
    hide Len, Walk, NewTarget;
    BoundaryShift(m, m0, len, base, 0, q);
    WalkRewrites(m0, base, base + len, base, table, base + q);
    forall k | q <= k < q + Len(m[q]) && !(HasTarget(m[q]) && q + OperandAt(m[q]) <= k < q + OperandAt(m[q]) + 4)
      ensures m'[base + k] == m[k]
    {
      assert m'[base + k] == m0[base + k];
    }
    if HasTarget(m[q]) {
      var at := q + OperandAt(m[q]);
      assert m0[base + at] == m[at] && m0[base + at + 1] == m[at + 1] && m0[base + (at + 2)] == m[at + 2] && m0[base + (at + 3)] == m[at + 3];
      assert Get32(m0, base + q + OperandAt(m[q])) == Get32(m, at);
    }
  }

  lemma MovedTarget(base: nat, bound: int, w: Word)
    requires base + bound <= 0x1000_0000 && (FnTarget(w).Some? ==> FnTarget(w).value < bound)
    ensures FnTarget(Moved(base, w)) == if FnTarget(w).Some? then Some(base + FnTarget(w).value) else None
  {
    if FnTarget(w).Some? { FnRoundTrip(base + FnTarget(w).value); }
  }

  lemma MovedFn(base: nat, t: int)
    requires 0 <= t && base + t < 0x1000_0000
    ensures Moved(base, FnWord(t)) == FnWord(base + t)
  {
    FnRoundTrip(t);
  }

  lemma MovedConstants(base: nat)
    ensures Moved(base, Nil()) == Nil() && Moved(base, Tee()) == Tee()
  {
  }

  /** The bytes of an instruction without a target are the same in the copy. */
  lemma SameBytes(m: seq<byte>, m': seq<byte>, base: nat, q: nat, n: nat)
    requires q + n <= |m| && base + q + n <= |m'| && forall k :: q <= k < q + n ==> m'[base + k] == m[k]
    ensures m'[base + q..base + q + n] == m[q..q + n]
  {
    var a, b := m'[base + q..base + q + n], m[q..q + n];
    forall i | 0 <= i < n
      ensures a[i] == b[i]
    {
      assert m'[base + (q + i)] == m[q + i];
    }
  }

  lemma SameByte(m: seq<byte>, m': seq<byte>, base: nat, q: nat, n: nat, at: nat)
    requires q + n <= |m| && base + q + n <= |m'| && m'[base + q..base + q + n] == m[q..q + n] && q <= at < q + n
    ensures m'[base + at] == m[at]
  {
    assert m'[base + q..base + q + n][at - q] == m[q..q + n][at - q];
  }

  lemma SameOperand(m: seq<byte>, m': seq<byte>, base: nat, q: nat, n: nat, at: nat)
    requires q + n <= |m| && base + q + n <= |m'| && m'[base + q..base + q + n] == m[q..q + n] && q <= at && at + 4 <= q + n
    ensures Get32(m', base + at) == Get32(m, at)
  {
    SameByte(m, m', base, q, n, at);
    SameByte(m, m', base, q, n, at + 1);
    SameByte(m, m', base, q, n, at + 2);
    SameByte(m, m', base, q, n, at + 3);
  }

  /** An instruction of the relocated copy does, at the moved place and on the
      moved words, what the original instruction does. */
  ghost predicate InStepAt(f: Effects, m: seq<byte>, m': seq<byte>, len: nat, base: nat, k: Kinds, k': Kinds, s: Run)
    requires len + 10 <= |m| && base + len + 10 <= |m'|
  {
    Step(f, m', base, len, Shifted(base, k, s)) == match Step(f, m, 0, len, s) case None => None case Some(t) => Some(Shifted(base, k', t))
  }

  /** The handlers of the moved code. */
  lemma ShiftPush(base: nat, fns: Handlers<bool>, hs: Handlers<Jump>, fn: bool, h: Jump)
    requires |fns.saved| == |hs.saved|
    ensures ShiftAll(base, fns.Push(fn), hs.Push(h)) == ShiftAll(base, fns, hs).Push(Jump(h.depth, base + h.ip, MovedIf(base, fn, h.v4)))
  {
    hide Moved;
  }

  lemma ShiftDrop(base: nat, fns: Handlers<bool>, hs: Handlers<Jump>)
    requires |fns.saved| == |hs.saved| && fns.over == hs.over
    ensures ShiftAll(base, fns.Drop(), hs.Drop()) == ShiftAll(base, fns, hs).Drop()
    ensures ShiftAll(base, fns.(over := 0).Drop(), hs.(over := 0).Drop()) == ShiftAll(base, fns, hs).(over := 0).Drop()
  {
    hide Moved;
  }

  lemma PutMoved(base: nat, fns: set<nat>, ws: seq<Word>, r: nat, fn: bool, w: Word)
    ensures MovedAll(base, if fn then fns + {r} else fns - {r}, Put(ws, r, w)) == Put(MovedAll(base, fns, ws), r, MovedIf(base, fn, w))
  {
    hide Moved;
  }

  lemma PutFixed(base: nat, fns: set<nat>, ws: seq<Word>, r: nat, w: Word)
    requires Moved(base, w) == w
    ensures MovedAll(base, fns, Put(ws, r, w)) == Put(MovedAll(base, fns, ws), r, w)
  {
    hide Moved;
  }

  /** A jump in the moved code goes to the moved place. */
  lemma ThrowShifted(f: Effects, base: nat, k: Kinds, k': Kinds, s: Run)
    requires k.Fits(s) && Throws(f, base, k, k', s)
    ensures Throw(f, Shifted(base, k, s)) == match Throw(f, s) case None => None case Some(t) => Some(Shifted(base, k', t))
    ensures Throw(f, s).Some? ==> k'.Fits(Throw(f, s).value)
  {
    hide Moved, Put, MovedIf, MovedAll;
    ShiftDrop(base, k.hs, s.hs);
    MovedConstants(base);
    if s.hs.cur.Some? && s.hs.cur.value.depth <= |s.rets| {
      var h := s.hs.cur.value;
      var fn := k.hs.cur == Some(true);
      var fns: set<nat> :| f.switch(Unwinding(h.depth), MovedAll(base, k.fns, s.ws)) == MovedAll(base, fns, f.switch(Unwinding(h.depth), s.ws))
                           && k'.fns == if fn then fns + {4} else fns - {4};
      var ws := f.switch(Unwinding(h.depth), s.ws);
      PutMoved(base, fns, ws, 4, fn, h.v4);
      PutFixed(base, k'.fns, Put(ws, 4, h.v4), VR, Tee());
      assert Shifted(base, k, s).rets[..h.depth] == Shifted(base, k, s.(rets := s.rets[..h.depth])).rets;
    }
  }

  lemma SetjmpShifted(base: nat, k: Kinds, s: Run, next: int)
    requires k.Fits(s)
    ensures var k' := k.(hs := k.hs.Push(4 in k.fns));
      Setjmp(Shifted(base, k, s), base + next) == Shifted(base, k', Setjmp(s, next)) && k'.Fits(Setjmp(s, next))
  {
    hide Moved, Put;
    MovedConstants(base);
    var fn := 4 in k.fns && |s.ws| > 4;
    var h := Jump(|s.rets|, next, if |s.ws| > 4 then s.ws[4] else Nil());
    ShiftPush(base, k.hs, s.hs, 4 in k.fns, h);
    PutFixed(base, k.fns, s.ws, VR, Nil());
    hide ShiftAll;
  }

  lemma DropShifted(base: nat, k: Kinds, s: Run, next: int)
    requires k.Fits(s)
    ensures var k', t := k.(hs := k.hs.Drop()), s.(pc := next, hs := s.hs.Drop());
      Shifted(base, k, s).(pc := base + next, hs := Shifted(base, k, s).hs.Drop()) == Shifted(base, k', t) && k'.Fits(t)
  {
    ShiftDrop(base, k.hs, s.hs);
    hide ShiftAll, MovedAll;
  }

  lemma AfterShifted(f: Effects, base: nat, k: Kinds, k': Kinds, s: Run, next: int, e: Effect, e': Effect)
    requires k.Fits(s) && Follows(f, base, k, k', s, e, e')
    ensures After(f, Shifted(base, k, s), base + next, e') == match After(f, s, next, e) case None => None case Some(t) => Some(Shifted(base, k', t))
    ensures After(f, s, next, e).Some? ==> k'.Fits(After(f, s, next, e).value)
  {
    hide MovedAll, Throw, Throws, ShiftAll;
    if e.Raises? {
      var fns: set<nat> :| e' == Raises(MovedAll(base, fns, e.ws)) && Throws(f, base, k.(fns := fns), k', s.(ws := e.ws));
      ThrowShifted(f, base, k.(fns := fns), k', s.(ws := e.ws));
    }
  }

  lemma TrapShifted(f: Effects, m: seq<byte>, m': seq<byte>, base: nat, k: Kinds, k': Kinds, s: Run, next: int, bytes: seq<byte>)
    requires 0 <= s.pc && s.pc + 2 < |m| && base + s.pc + 2 < |m'| && k.Fits(s) && TrapOnward(f, m, base, k, k', s, bytes)
    requires m'[base + s.pc + 1] == m[s.pc + 1] && m'[base + s.pc + 2] == m[s.pc + 2]
    ensures Trap(f, m', Shifted(base, k, s), base + next, bytes) == match Trap(f, m, s, next, bytes) case None => None case Some(t) => Some(Shifted(base, k', t))
    ensures Trap(f, m, s, next, bytes).Some? ==> k'.Fits(Trap(f, m, s, next, bytes).value)
  {
    hide MovedAll, Throw, Throws, Setjmp, After, Follows, ShiftAll, Kinds.Fits;
    var lo: int, hi: int := m[s.pc + 1], m[s.pc + 2];
    var code := lo + 256 * hi;
    if code == 0x0510 {
      SetjmpShifted(base, k, s, next);
    } else if code == 0x0511 {
      ThrowShifted(f, base, k, k', s);
    } else if code == 0x0512 {
      DropShifted(base, k, s, next);
    } else if code != 0x0532 && code != 0x0533 {
      AfterShifted(f, base, k, k', s, next, f.straight(bytes, s.ws), f.straight(bytes, MovedAll(base, k.fns, s.ws)));
    }
  }

  lemma CallShifted(f: Effects, base: nat, k: Kinds, k': Kinds, s: Run, t: int, next: int)
    requires k.Fits(s) && Switches(f, base, Entering, k, k', s.ws)
    ensures Called(f, Shifted(base, k, s), base + t, base + next) == Shifted(base, k', Called(f, s, t, next)) && k'.Fits(Called(f, s, t, next))
  {
    hide MovedAll, ShiftAll;
    assert Shifted(base, k, s.(rets := s.rets + [next])).rets == Shifted(base, k, s).rets + [base + next];
  }

  lemma ReplaceShifted(f: Effects, base: nat, k: Kinds, k': Kinds, s: Run, t: int)
    requires k.Fits(s) && Switches(f, base, Replacing, k, k', s.ws)
    ensures Replaced(f, Shifted(base, k, s), base + t) == Shifted(base, k', Replaced(f, s, t)) && k'.Fits(Replaced(f, s, t))
  {
    hide MovedAll, ShiftAll;
  }

  lemma ReturnShifted(f: Effects, base: nat, k: Kinds, k': Kinds, s: Run)
    requires k.Fits(s) && Switches(f, base, Leaving, k, k', s.ws)
    ensures ReturnStep(f, Shifted(base, k, s)) == match ReturnStep(f, s) case None => None case Some(t) => Some(Shifted(base, k', t))
    ensures ReturnStep(f, s).Some? ==> k'.Fits(ReturnStep(f, s).value)
  {
    hide MovedAll, ShiftAll;
    if s.rets != [] {
      var t := s.(pc := s.rets[|s.rets| - 1], rets := s.rets[..|s.rets| - 1]);
      assert Shifted(base, k, t).rets == Shifted(base, k, s).rets[..|s.rets| - 1];
    }
  }

  lemma IndirectShifted(f: Effects, base: nat, bound: int, k: Kinds, k': Kinds, s: Run, r: nat, next: int)
    requires k.Fits(s) && CallOnward(f, base, k, k', s, r) && Below(bound, s.ws, r) && base + bound <= 0x1000_0000
    ensures IndirectStep(f, Shifted(base, k, s), r, base + next) == match IndirectStep(f, s, r, next) case None => None case Some(t) => Some(Shifted(base, k', t))
    ensures IndirectStep(f, s, r, next).Some? ==> k'.Fits(IndirectStep(f, s, r, next).value)
  {
    hide FnTarget, ShiftAll, Throw, Throws, Called, Switches, Kinds.Fits;
    if r < |s.ws| {
      MovedTarget(base, bound, s.ws[r]);
      if FnTarget(s.ws[r]).Some? {
        CallShifted(f, base, k, k', s, FnTarget(s.ws[r]).value, next);
      } else {
        ThrowShifted(f, base, k, k', s);
      }
    }
  }

  lemma FnShifted(base: nat, bound: int, k: Kinds, s: Run, r: nat, imm: int, t: int, next: int)
    requires 0 <= imm && k.Fits(s) && base + bound <= 0x1000_0000 && bound <= SYNTHETIC
    requires (imm < bound && t == base + imm) || (imm == UNRESOLVED && t == UNRESOLVED)
    ensures FnStep(Shifted(base, k, s), r, t, base + next) == match FnStep(s, r, imm, next) case None => None case Some(t) => Some(Shifted(base, k.(fns := k.fns + {r}), t))
    ensures FnStep(s, r, imm, next).Some? ==> k.(fns := k.fns + {r}).Fits(FnStep(s, r, imm, next).value)
  {
    hide FnTarget, Moved, FnWord, ShiftAll;
    if r < |s.ws| {
      MovedConstants(base);
      if imm < bound { MovedFn(base, imm); }
      var w := if imm == UNRESOLVED then Nil() else FnWord(imm);
      PutMoved(base, k.fns, s.ws, r, true, w);
    }
  }

  // ---- one instruction ------------------------------------------------------------------

  lemma BranchLen(op: byte)
    ensures IsBranch(op) ==> Len(op) == if op == 0x47 || op == 0x48 then 6 else 5
    ensures op == 0x81 ==> Len(op) == 2
    ensures op == 0x82 ==> Len(op) == 1
    ensures op == 0x02 ==> Len(op) == 3
    ensures op == 0x14 ==> Len(op) == 10
  {
  }

  lemma TargetLen(op: byte)
    requires HasTarget(op)
    ensures Len(op) == OperandAt(op) + 4
  {
  }

  /** The instruction at pc of the copy: the original one, its target, if any, moved. */
  ghost predicate Here(m: seq<byte>, m': seq<byte>, len: nat, base: nat, s: Run)
    requires len + 10 <= |m| && base + len + 10 <= |m'|
  {
    && 0 <= s.pc < len && m'[base + s.pc] == m[s.pc] && Len(m[s.pc]) > 0
    && (!HasTarget(m[s.pc]) ==> m'[base + s.pc..base + s.pc + Len(m[s.pc])] == m[s.pc..s.pc + Len(m[s.pc])])
  }

  lemma ShiftedPlace(base: nat, k: Kinds, s: Run)
    ensures Shifted(base, k, s).pc == base + s.pc && Shifted(base, k, s).ws == MovedAll(base, k.fns, s.ws)
  {
  }

  /** Neither control nor li-const. */
  predicate IsPlain(op: byte) {
    !IsBranch(op) && !HasTarget(op) && op != 0x81 && op != 0x82 && op != 0x02 && op != 0x14
  }

  lemma StepControl(f: Effects, m: seq<byte>, from: nat, len: nat, s: Run)
    requires from + len + 10 <= |m| && from <= s.pc < from + len && Len(m[s.pc]) > 0
    ensures var op, next := m[s.pc], s.pc + Len(m[s.pc]); var r := Step(f, m, from, len, s);
      && (IsBranch(op) ==> r == BranchStep(f, m, s, next, m[s.pc..next]))
      && (op == 0x80 ==> r == Some(Called(f, s, Get32(m, s.pc + 1), next)))
      && (op == 0x83 ==> r == Some(Replaced(f, s, Get32(m, s.pc + 1))))
      && (op == 0xA7 ==> r == FnStep(s, m[s.pc + 1], Get32(m, s.pc + 2), next))
      && (op == 0x81 ==> r == IndirectStep(f, s, m[s.pc + 1], next))
      && (op == 0x82 ==> r == ReturnStep(f, s))
      && (IsPlain(op) ==> r == After(f, s, next, f.straight(m[s.pc..next], s.ws)))
  {
    hide Len, BranchStep, Called, Replaced, FnStep, Get32, Trap, After, IndirectStep, ReturnStep;
  }

  lemma BranchShifted(f: Effects, m: seq<byte>, m': seq<byte>, base: nat, k: Kinds, s: Run, next: int, bytes: seq<byte>)
    requires 0 <= s.pc && s.pc + 6 <= |m| && base + s.pc + 6 <= |m'| && m'[base + s.pc] == m[s.pc]
    requires m[s.pc] == 0x40 || f.taken(bytes, MovedAll(base, k.fns, s.ws)) == f.taken(bytes, s.ws)
    requires var at := s.pc + (if m[s.pc] == 0x47 || m[s.pc] == 0x48 then 2 else 1); Get32(m', base + at) == Get32(m, at)
    ensures BranchStep(f, m', Shifted(base, k, s), base + next, bytes) == match BranchStep(f, m, s, next, bytes) case None => None case Some(t) => Some(Shifted(base, k, t))
    ensures BranchStep(f, m, s, next, bytes).Some? && (k.Fits(s) ==> k.Fits(BranchStep(f, m, s, next, bytes).value))
  {
    hide MovedAll, ShiftAll, Get32, Signed;
  }

  lemma BranchHere(m: seq<byte>, m': seq<byte>, len: nat, base: nat, s: Run)
    requires len + 10 <= |m| && base + len + 10 <= |m'| && Here(m, m', len, base, s) && IsBranch(m[s.pc])
    ensures 0 <= s.pc < len && m'[base + s.pc] == m[s.pc] && 5 <= Len(m[s.pc]) <= 6
    ensures m'[base + s.pc..base + s.pc + Len(m[s.pc])] == m[s.pc..s.pc + Len(m[s.pc])]
    ensures var at := s.pc + (if m[s.pc] == 0x47 || m[s.pc] == 0x48 then 2 else 1); Get32(m', base + at) == Get32(m, at)
  {
    BranchLen(m[s.pc]);
    hide Len, Get32;
    SameOperand(m, m', base, s.pc, Len(m[s.pc]), s.pc + (if m[s.pc] == 0x47 || m[s.pc] == 0x48 then 2 else 1));
  }

  lemma BranchOnward(f: Effects, m: seq<byte>, base: nat, k: Kinds, k': Kinds, s: Run)
    requires 0 <= s.pc && s.pc + 10 <= |m| && Onward(f, m, base, k, k', s) && IsBranch(m[s.pc])
    ensures var b := m[s.pc..s.pc + Len(m[s.pc])]; k' == k && (m[s.pc] == 0x40 || f.taken(b, MovedAll(base, k.fns, s.ws)) == f.taken(b, s.ws))
  {
    hide Len, MovedAll;
  }

  lemma InStepBranch(f: Effects, m: seq<byte>, m': seq<byte>, len: nat, base: nat, k: Kinds, k': Kinds, s: Run)
    requires len + 10 <= |m| && base + len + 10 <= |m'| && Here(m, m', len, base, s) && k.Fits(s) && Onward(f, m, base, k, k', s) && IsBranch(m[s.pc])
    ensures InStepAt(f, m, m', len, base, k, k', s)
    ensures Step(f, m, 0, len, s).Some? ==> k'.Fits(Step(f, m, 0, len, s).value)
  {
    hide Len, MovedAll, Get32, Step, BranchStep, Shifted, Onward, Kinds.Fits, Here;
    BranchHere(m, m', len, base, s);
    BranchOnward(f, m, base, k, k', s);
    ShiftedPlace(base, k, s);
    StepControl(f, m, 0, len, s);
    StepControl(f, m', base, len, Shifted(base, k, s));
    BranchShifted(f, m, m', base, k, s, s.pc + Len(m[s.pc]), m[s.pc..s.pc + Len(m[s.pc])]);
  }

  lemma InStepCallInd(f: Effects, m: seq<byte>, m': seq<byte>, len: nat, base: nat, bound: int, k: Kinds, k': Kinds, s: Run)
    requires len + 10 <= |m| && base + len + 10 <= |m'| && Here(m, m', len, base, s) && k.Fits(s) && Onward(f, m, base, k, k', s) && m[s.pc] == 0x81
    requires Below(bound, s.ws, m[s.pc + 1]) && base + bound <= 0x1000_0000
    ensures InStepAt(f, m, m', len, base, k, k', s)
    ensures Step(f, m, 0, len, s).Some? ==> k'.Fits(Step(f, m, 0, len, s).value)
  {
    BranchLen(0x81);
    SameByte(m, m', base, s.pc, 2, s.pc + 1);
    IndirectShifted(f, base, bound, k, k', s, m[s.pc + 1], s.pc + 2);
    hide Len, MovedAll, Get32, ShiftAll, Called, BranchStep, IndirectStep, ReturnStep, FnStep, Trap, After, Replaced, Kinds.Fits, CallOnward;
  }

  lemma InStepRet(f: Effects, m: seq<byte>, m': seq<byte>, len: nat, base: nat, k: Kinds, k': Kinds, s: Run)
    requires len + 10 <= |m| && base + len + 10 <= |m'| && Here(m, m', len, base, s) && k.Fits(s) && Onward(f, m, base, k, k', s) && m[s.pc] == 0x82
    ensures InStepAt(f, m, m', len, base, k, k', s)
    ensures Step(f, m, 0, len, s).Some? ==> k'.Fits(Step(f, m, 0, len, s).value)
  {
    BranchLen(0x82);
    ReturnShifted(f, base, k, k', s);
    hide Len, MovedAll, Get32, ShiftAll, Called, BranchStep, IndirectStep, ReturnStep, FnStep, Trap, After, Replaced, Kinds.Fits, Switches;
  }

  lemma InStepTrap(f: Effects, m: seq<byte>, m': seq<byte>, len: nat, base: nat, k: Kinds, k': Kinds, s: Run)
    requires len + 10 <= |m| && base + len + 10 <= |m'| && Here(m, m', len, base, s) && k.Fits(s) && Onward(f, m, base, k, k', s) && m[s.pc] == 0x02
    ensures InStepAt(f, m, m', len, base, k, k', s)
    ensures Step(f, m, 0, len, s).Some? ==> k'.Fits(Step(f, m, 0, len, s).value)
  {
    BranchLen(0x02);
    SameByte(m, m', base, s.pc, 3, s.pc + 1);
    SameByte(m, m', base, s.pc, 3, s.pc + 2);
    TrapShifted(f, m, m', base, k, k', s, s.pc + 3, m[s.pc..s.pc + 3]);
    hide Len, MovedAll, Get32, ShiftAll, Called, BranchStep, IndirectStep, ReturnStep, FnStep, Trap, After, Replaced, Kinds.Fits, TrapOnward;
  }

  /** Any other instruction without a target. */
  lemma InStepStraight(f: Effects, m: seq<byte>, m': seq<byte>, len: nat, base: nat, k: Kinds, k': Kinds, s: Run)
    requires len + 10 <= |m| && base + len + 10 <= |m'| && Here(m, m', len, base, s) && k.Fits(s) && Onward(f, m, base, k, k', s)
    requires !IsBranch(m[s.pc]) && !HasTarget(m[s.pc]) && m[s.pc] != 0x81 && m[s.pc] != 0x82 && m[s.pc] != 0x02
    requires m[s.pc] == 0x14 ==> SameSide(base, s.pc)
    ensures InStepAt(f, m, m', len, base, k, k', s)
    ensures Step(f, m, 0, len, s).Some? ==> k'.Fits(Step(f, m, 0, len, s).value)
  {
    hide Len, Get32, Called, BranchStep, IndirectStep, ReturnStep, FnStep, Trap, After, MovedAll, ShiftAll, Replaced, Kinds.Fits, Follows;
    var next, bytes, moved := s.pc + Len(m[s.pc]), m[s.pc..s.pc + Len(m[s.pc])], MovedAll(base, k.fns, s.ws);
    if m[s.pc] == 0x14 {
      AfterShifted(f, base, k, k', s, next, f.constant(s.pc >= JIT_PHYS, bytes, s.ws), f.constant(s.pc >= JIT_PHYS, bytes, moved));
    } else {
      AfterShifted(f, base, k, k', s, next, f.straight(bytes, s.ws), f.straight(bytes, moved));
    }
  }

  lemma PlainTarget(imm: int, base: nat, bound: int, table: Table)
    requires 0 <= imm < 0x1_0000_0000 && base < SYNTHETIC && bound <= SYNTHETIC && (imm < bound || imm == UNRESOLVED)
    ensures NewTarget(imm, base, table) == Some(if imm == UNRESOLVED then imm else base + imm)
  {
  }

  lemma PlainIsOnward(f: Effects, m: seq<byte>, base: nat, k: Kinds, k': Kinds, s: Run)
    requires 0 <= s.pc && s.pc + 10 <= |m| && IsPlain(m[s.pc])
    requires var b := m[s.pc..s.pc + Len(m[s.pc])]; Follows(f, base, k, k', s, f.straight(b, s.ws), f.straight(b, MovedAll(base, k.fns, s.ws)))
    ensures Onward(f, m, base, k, k', s)
  {
    hide Len, Follows, MovedAll;
  }

  lemma CallIsOnward(f: Effects, m: seq<byte>, base: nat, k: Kinds, k': Kinds, s: Run)
    requires 0 <= s.pc && s.pc + 10 <= |m|
    requires if m[s.pc] == 0xA7 then k' == k.(fns := k.fns + {m[s.pc + 1]})
             else if m[s.pc] == 0x81 then CallOnward(f, base, k, k', s, m[s.pc + 1])
             else m[s.pc] == 0x82 && Switches(f, base, Leaving, k, k', s.ws)
    ensures Onward(f, m, base, k, k', s)
  {
    hide Len, Switches, CallOnward, MovedAll;
  }

  lemma TargetOnward(f: Effects, m: seq<byte>, base: nat, k: Kinds, k': Kinds, s: Run)
    requires 0 <= s.pc && s.pc + 10 <= |m| && Onward(f, m, base, k, k', s)
    ensures m[s.pc] == 0x80 ==> Switches(f, base, Entering, k, k', s.ws)
    ensures m[s.pc] == 0x83 ==> Switches(f, base, Replacing, k, k', s.ws)
    ensures m[s.pc] == 0xA7 ==> k' == k.(fns := k.fns + {m[s.pc + 1]})
  {
    hide Len, Switches, MovedAll;
  }

  /** What call and tailcall, and fn-addr, do in both places. */
  lemma StepsToCall(f: Effects, m: seq<byte>, m': seq<byte>, len: nat, base: nat, k: Kinds, s: Run)
    requires len + 10 <= |m| && base + len + 10 <= |m'| && 0 <= s.pc < len && m'[base + s.pc] == m[s.pc] && (m[s.pc] == 0x80 || m[s.pc] == 0x83)
    ensures Step(f, m, 0, len, s) == Some(if m[s.pc] == 0x80 then Called(f, s, Get32(m, s.pc + 1), s.pc + 5) else Replaced(f, s, Get32(m, s.pc + 1)))
    ensures var s' := Shifted(base, k, s);
      Step(f, m', base, len, s') ==
        Some(if m[s.pc] == 0x80 then Called(f, s', Get32(m', base + s.pc + 1), base + s.pc + 5) else Replaced(f, s', Get32(m', base + s.pc + 1)))
  {
    hide Get32, Len, Step, Called, Replaced, Shifted;
    ShiftedPlace(base, k, s);
    TargetLen(m[s.pc]);
    StepControl(f, m, 0, len, s);
    StepControl(f, m', base, len, Shifted(base, k, s));
  }

  lemma StepsToFn(f: Effects, m: seq<byte>, m': seq<byte>, len: nat, base: nat, k: Kinds, s: Run)
    requires len + 10 <= |m| && base + len + 10 <= |m'| && 0 <= s.pc < len && m'[base + s.pc] == m[s.pc] == 0xA7 && m'[base + s.pc + 1] == m[s.pc + 1]
    ensures Step(f, m, 0, len, s) == FnStep(s, m[s.pc + 1], Get32(m, s.pc + 2), s.pc + 6)
    ensures Step(f, m', base, len, Shifted(base, k, s)) == FnStep(Shifted(base, k, s), m[s.pc + 1], Get32(m', base + s.pc + 2), base + s.pc + 6)
  {
    hide Get32, Len, Step, FnStep, Shifted;
    ShiftedPlace(base, k, s);
    TargetLen(m[s.pc]);
    StepControl(f, m, 0, len, s);
    StepControl(f, m', base, len, Shifted(base, k, s));
  }

  lemma InStepCall(f: Effects, m: seq<byte>, m': seq<byte>, len: nat, base: nat, k: Kinds, k': Kinds, s: Run)
    requires len + 10 <= |m| && base + len + 10 <= |m'| && 0 <= s.pc < len && m'[base + s.pc] == m[s.pc] && (m[s.pc] == 0x80 || m[s.pc] == 0x83)
    requires k.Fits(s) && Onward(f, m, base, k, k', s) && Get32(m', base + s.pc + 1) == base + Get32(m, s.pc + 1)
    ensures InStepAt(f, m, m', len, base, k, k', s)
    ensures Step(f, m, 0, len, s).Some? ==> k'.Fits(Step(f, m, 0, len, s).value)
  {
    hide Get32, Step, Called, Replaced, Kinds.Fits, Switches, Shifted, Onward;
    TargetOnward(f, m, base, k, k', s);
    StepsToCall(f, m, m', len, base, k, s);
    if m[s.pc] == 0x80 {
      CallShifted(f, base, k, k', s, Get32(m, s.pc + 1), s.pc + 5);
    } else {
      ReplaceShifted(f, base, k, k', s, Get32(m, s.pc + 1));
    }
  }

  lemma InStepFn(f: Effects, m: seq<byte>, m': seq<byte>, len: nat, base: nat, bound: int, k: Kinds, k': Kinds, s: Run)
    requires len + 10 <= |m| && base + len + 10 <= |m'| && 0 <= s.pc < len && m'[base + s.pc] == m[s.pc] == 0xA7 && m'[base + s.pc + 1] == m[s.pc + 1]
    requires k.Fits(s) && Onward(f, m, base, k, k', s) && base + bound <= 0x1000_0000 && bound <= SYNTHETIC
    requires var imm, t := Get32(m, s.pc + 2), Get32(m', base + s.pc + 2); (imm < bound && t == base + imm) || (imm == UNRESOLVED && t == UNRESOLVED)
    ensures InStepAt(f, m, m', len, base, k, k', s)
    ensures Step(f, m, 0, len, s).Some? ==> k'.Fits(Step(f, m, 0, len, s).value)
  {
    hide Get32, Step, FnStep, Kinds.Fits, Shifted, Onward;
    TargetOnward(f, m, base, k, k', s);
    StepsToFn(f, m, m', len, base, k, s);
    FnShifted(base, bound, k, s, m[s.pc + 1], Get32(m, s.pc + 2), Get32(m', base + s.pc + 2), s.pc + 6);
  }

  /** call, tailcall and fn-addr. */
  lemma InStepTarget(f: Effects, m: seq<byte>, m': seq<byte>, len: nat, base: nat, bound: int, table: Table, k: Kinds, k': Kinds, s: Run)
    requires len + 10 <= |m| && base + len + 10 <= |m'| && base + bound <= 0x1000_0000 && bound <= SYNTHETIC && base < SYNTHETIC
    requires 0 <= s.pc < len && m'[base + s.pc] == m[s.pc] && k.Fits(s) && Onward(f, m, base, k, k', s) && HasTarget(m[s.pc])
    requires m[s.pc] == 0xA7 ==> m'[base + s.pc + 1] == m[s.pc + 1]
    requires var at := s.pc + OperandAt(m[s.pc]);
      && (Get32(m, at) < bound || (m[s.pc] == 0xA7 && Get32(m, at) == UNRESOLVED))
      && NewTarget(Get32(m, at), base, table) == Some(Get32(m', base + at))
    ensures InStepAt(f, m, m', len, base, k, k', s)
    ensures Step(f, m, 0, len, s).Some? ==> k'.Fits(Step(f, m, 0, len, s).value)
  {
    hide Get32, Step, Kinds.Fits, Shifted, Onward, NewTarget, InStepAt;
    PlainTarget(Get32(m, s.pc + OperandAt(m[s.pc])), base, bound, table);
    if m[s.pc] == 0xA7 {
      InStepFn(f, m, m', len, base, bound, k, k', s);
    } else {
      InStepCall(f, m, m', len, base, k, k', s);
    }
  }

  /** Relocated code runs in step with the original. */
  lemma InStep(f: Effects, m: seq<byte>, m0: seq<byte>, m': seq<byte>, len: nat, base: nat, table: Table, bound: int, k: Kinds, k': Kinds, s: Run)
    requires Copied(m, m0, m', len, base, table) && Inside(m, len, base, bound, s) && bound <= SYNTHETIC && base + bound <= 0x1000_0000
    requires k.Fits(s) && (0 <= s.pc < len ==> Onward(f, m, base, k, k', s))
    ensures |m'| == |m0| && InStepAt(f, m, m', len, base, k, k', s)
    ensures Step(f, m, 0, len, s).Some? ==> k'.Fits(Step(f, m, 0, len, s).value)
  {
    CopiedSize(m, m0, m', len, base, table);
    if 0 <= s.pc < len {
      CopiedHere(m, m0, m', len, base, table, s);
      hide Len, NewTarget, FnTarget, InStepAt, Onward, Here, Copied, Step, Kinds.Fits, Below;
      if HasTarget(m[s.pc]) {
        InStepTarget(f, m, m', len, base, bound, table, k, k', s);
      } else if m[s.pc] == 0x81 {
        InStepCallInd(f, m, m', len, base, bound, k, k', s);
      } else if m[s.pc] == 0x82 {
        InStepRet(f, m, m', len, base, k, k', s);
      } else if m[s.pc] == 0x02 {
        InStepTrap(f, m, m', len, base, k, k', s);
      } else if IsBranch(m[s.pc]) {
        InStepBranch(f, m, m', len, base, k, k', s);
      } else {
        InStepStraight(f, m, m', len, base, k, k', s);
      }
    }
  }

  lemma CopiedHere(m: seq<byte>, m0: seq<byte>, m': seq<byte>, len: nat, base: nat, table: Table, s: Run)
    requires Copied(m, m0, m', len, base, table) && 0 <= s.pc < len && Boundary(m, 0, len, s.pc)
    ensures |m'| == |m0| && Here(m, m', len, base, s)
    ensures m[s.pc] == 0xA7 ==> m'[base + s.pc + 1] == m[s.pc + 1]
    ensures HasTarget(m[s.pc]) ==> NewTarget(Get32(m, s.pc + OperandAt(m[s.pc])), base, table) == Some(Get32(m', base + s.pc + OperandAt(m[s.pc])))
  {
    hide Len, NewTarget, Walk, Get32;
    CopiedAt(m, m0, m', len, base, table, s.pc);
    if HasTarget(m[s.pc]) {
      TargetLen(m[s.pc]);
    } else {
      SameBytes(m, m', base, s.pc, Len(m[s.pc]));
    }
  }

  // ---- li-const ---------------------------------------------------------------------------

  /** The effects that tell the two sides of JIT_PHYS apart: a li-const above
      it faults, as it does while there is no constant vector. */
  function NoVector(): Effects {
    Effects((b: seq<byte>, ws: seq<Word>) => Goes(ws), (jit: bool, b: seq<byte>, ws: seq<Word>) => if jit then Halts else Goes(ws),
            (b: seq<byte>, ws: seq<Word>) => false, (k: Switch, ws: seq<Word>) => ws)
  }

  /** A li-const runs in step, whatever the tables hold, exactly when it is not
      moved across JIT_PHYS. */
  lemma ConstantInStep(m: seq<byte>, m': seq<byte>, len: nat, base: nat, k: Kinds, s: Run)
    requires len + 10 <= |m| && base + len + 10 <= |m'| && Here(m, m', len, base, s) && m[s.pc] == 0x14 && k.Fits(s)
    ensures (forall f: Effects, k': Kinds | Onward(f, m, base, k, k', s) :: InStepAt(f, m, m', len, base, k, k', s)) <==> SameSide(base, s.pc)
  {
    hide InStepAt, Onward;
    if SameSide(base, s.pc) {
      forall f: Effects, k': Kinds | Onward(f, m, base, k, k', s)
        ensures InStepAt(f, m, m', len, base, k, k', s)
      {
        InStepStraight(f, m, m', len, base, k, k', s);
      }
    } else {
      Apart(m, m', len, base, k, s);
      var f := NoVector();
      assert Onward(f, m, base, k, k, s) && !InStepAt(f, m, m', len, base, k, k, s);
    }
  }

  lemma Apart(m: seq<byte>, m': seq<byte>, len: nat, base: nat, k: Kinds, s: Run)
    requires len + 10 <= |m| && base + len + 10 <= |m'| && Here(m, m', len, base, s) && m[s.pc] == 0x14 && !SameSide(base, s.pc)
    ensures Onward(NoVector(), m, base, k, k, s) && !InStepAt(NoVector(), m, m', len, base, k, k, s)
  {
    BranchLen(0x14);
    hide MovedAll, Len, ShiftAll, Get32;
  }

  // ---- whole runs -------------------------------------------------------------------------

  function Steps(f: Effects, m: seq<byte>, from: nat, len: nat, s: Run, n: nat): Option<Run>
    requires from + len + 10 <= |m|
    decreases n
  {
    if n == 0 then Some(s)
    else match Step(f, m, from, len, s)
      case None => None
      case Some(t) => Steps(f, m, from, len, t, n - 1)
  }

  /** The original is inside its module and knows its function values. */
  ghost predicate Keeps(f: Effects, m: seq<byte>, len: nat, base: nat, bound: int, k: Kinds, k': Kinds, s: Run)
    requires len + 10 <= |m|
  {
    Inside(m, len, base, bound, s) && (0 <= s.pc < len ==> Onward(f, m, base, k, k', s))
  }

  /** For as long as it is and does; ks(i) are the kinds behind i instructions. */
  lemma {:induction false} RunsInStep(f: Effects, m: seq<byte>, m0: seq<byte>, m': seq<byte>, len: nat, base: nat, table: Table, bound: int,
                                      ks: nat -> Kinds, s: Run, n: nat)
    requires Copied(m, m0, m', len, base, table) && bound <= SYNTHETIC && base + bound <= 0x1000_0000 && ks(0).Fits(s)
    requires forall i: nat :: i < n && Steps(f, m, 0, len, s, i).Some? ==> Keeps(f, m, len, base, bound, ks(i), ks(i + 1), Steps(f, m, 0, len, s, i).value)
    ensures |m'| == |m0|
    ensures Steps(f, m', base, len, Shifted(base, ks(0), s), n) == match Steps(f, m, 0, len, s, n) case None => None case Some(t) => Some(Shifted(base, ks(n), t))
    decreases n
  {
    hide Step, Copied, Inside, Onward, Shifted, Kinds.Fits;
    CopiedSize(m, m0, m', len, base, table);
    if n > 0 {
      assert Steps(f, m, 0, len, s, 0) == Some(s);
      InStep(f, m, m0, m', len, base, table, bound, ks(0), ks(1), s);
      match Step(f, m, 0, len, s)
      case None =>
      case Some(t) =>
        var later := (i: nat) => ks(i + 1);
        forall i: nat | i < n - 1 && Steps(f, m, 0, len, t, i).Some?
          ensures Keeps(f, m, len, base, bound, later(i), later(i + 1), Steps(f, m, 0, len, t, i).value)
        {
          assert Steps(f, m, 0, len, s, i + 1) == Steps(f, m, 0, len, t, i);
        }
        RunsInStep(f, m, m0, m', len, base, table, bound, later, t, n - 1);
    }
  }

  lemma CopiedSize(m: seq<byte>, m0: seq<byte>, m': seq<byte>, len: nat, base: nat, table: Table)
    requires Copied(m, m0, m', len, base, table)
    ensures |m'| == |m0| && len + 10 <= |m| && base + len + 10 <= |m0|
  {
    hide Walk;
  }
}
