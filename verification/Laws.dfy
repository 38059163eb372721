/** What instructions do, in terms of the words they are about
    (web/mvm.js:645-755, 974-1319): the interpreter's steps and, where the
    mixed machine has steps of its own for them, those too. */
module Laws {
  import opened Words
  import opened Isa
  import opened Results
  import opened Interp
  import opened Translate
  import opened Tiers
  import Relocate

  /** A register: V0-V15 are homes of the running activation, 16 is VR. */
  function Reg(c: Core, v: nat): Word
    requires c.frames != [] && |c.frames[|c.frames| - 1].home| == 16 && v <= 16
  {
    if v == 16 then c.vr else c.frames[|c.frames| - 1].home[v]
  }

  function Running(c: Core): Frame
    requires c.frames != []
  {
    c.frames[|c.frames| - 1]
  }

  /** The interpreter is at this instruction. */
  predicate Ready(w: World, s: IState, insn: Insn) {
    && s.core.frames != [] && |Running(s.core).home| == 16 && |Running(s.core).slot| == 128
    && s.pc in w.code && w.code[s.pc].insn == insn && Regs(insn)
  }

  function Behind(w: World, pc: int): int
    requires pc in w.code
  {
    pc + w.code[pc].len
  }

  /** Registers are V0-V15 and VR, slots the 128 of a standard frame. */
  lemma Operands(d: nat, a: nat, b: nat, x: Word, op: int, t: int, sense: bool)
    ensures Regs(Mov(d, a)) <==> d <= 16 && a <= 16
    ensures Regs(Li(d, x)) <==> d <= 16
    ensures Regs(Alu(op, d, a, b)) <==> d <= 16 && a <= 16 && b <= 16
    ensures Regs(Delegate(op, d, a, b)) <==> d <= 16 && a <= 16 && b <= 16
    ensures Regs(Push(a)) <==> a <= 16
    ensures Regs(Pop(d)) <==> d <= 16
    ensures Regs(Isa.Cmp(a, b)) <==> a <= 16 && b <= 16
    ensures Regs(SlotRef(d, a)) <==> d <= 16 && a < 128
    ensures Regs(SlotSet(a, b)) <==> a < 128 && b <= 16
    ensures Regs(BranchNil(a, sense, t)) <==> a <= 16
    ensures Regs(CallInd(a)) <==> a <= 16
    ensures Regs(Nop) && Regs(Branch(t)) && Regs(BranchIf(EQ, t)) && Regs(Call(t)) && Regs(Tail(t)) && Regs(Ret) && Regs(GcCheck) && Regs(Setjmp) && Regs(Longjmp) && Regs(PopHandler)
  {
  }

  lemma Constants()
    ensures Nil() == Word(ToInt32(0xDEAD_0001), 0) && Tee() == Word(ToInt32(0xDEAD_1009), 0)
  {
  }

  /** Function values, and nothing else, name a target: 16t + 3 names t. */
  lemma FunctionValues(x: Word, t: int)
    requires 0 <= t < 0x1000_0000
    ensures FnTarget(Word(ToInt32(16 * t + 3), 0)) == Some(t)
    ensures FnTarget(x).Some? <==> x.hi == 0 && x.lo % 16 == 3
  {
    Relocate.FnRoundTrip(t);
    hide ToInt32, U32;
  }

  // ---- comparisons ----------------------------------------------------------------------

  /** r is the answer to the comparison of x and y. */
  predicate Means(c: Cond, x: int, y: int, r: bool) {
    && (c == EQ ==> (r <==> x == y))
    && (c == NE ==> (r <==> x != y))
    && (c == LT ==> (r <==> x < y))
    && (c == GE ==> (r <==> x >= y))
    && (c == LE ==> (r <==> x <= y))
    && (c == GT ==> (r <==> x > y))
  }

  /** A comparison and a branch on it go to the target exactly when the 64-bit
      numbers in the registers compare so. */
  lemma Compares(w: World, j: nat -> Frame, s: IState, a: nat, b: nat, c: Cond, t: int)
    requires Junk(j) && Ready(w, s, Isa.Cmp(a, b)) && Behind(w, s.pc) in w.code && w.code[Behind(w, s.pc)].insn == BranchIf(c, t)
    ensures var r, q := Run(w, j, s, 2), Behind(w, Behind(w, s.pc));
      && r.Some? && r.value.core == s.core.(cmp := r.value.core.cmp) && r.value.pc in {t, q}
      && (t != q ==> Means(c, Val(Reg(s.core, a)), Val(Reg(s.core, b)), r.value.pc == t))
  {
    hide Val;
    StepsTwice(w, j, s);
    var d := Cmp64(s.core.Get(a), s.core.Get(b));
    hide Cmp64;
    assert Step(w, j, s) == Some(IState(s.core.(cmp := d), Behind(w, s.pc)));
  }

  lemma StepsTwice(w: World, j: nat -> Frame, s: IState)
    requires Junk(j)
    ensures Run(w, j, s, 2) == match Step(w, j, s) case None => None case Some(t) => Step(w, j, t)
  {
    hide Step;
    if Step(w, j, s).Some? {
      var t := Step(w, j, s).value;
      assert Run(w, j, t, 1) == match Step(w, j, t) case None => None case Some(u) => Run(w, j, u, 0);
    }
  }

  /** A branch on NIL goes to the target exactly when the word is NIL, or is not. */
  lemma TestsNil(w: World, j: nat -> Frame, s: IState, v: nat, sense: bool, t: int)
    requires Junk(j) && Ready(w, s, BranchNil(v, sense, t))
    ensures var isNil := Reg(s.core, v) == Word(ToInt32(0xDEAD_0001), 0);
      Step(w, j, s) == Some(IState(s.core, if isNil == sense then t else Behind(w, s.pc)))
  {
    Constants();
    hide ToInt32;
  }

  /** A branch and a nop change nothing but the pc. */
  lemma Branches(w: World, j: nat -> Frame, s: IState, t: int)
    requires Junk(j) && (Ready(w, s, Branch(t)) || Ready(w, s, Nop))
    ensures Step(w, j, s) == Some(IState(s.core, if w.code[s.pc].insn.Nop? then Behind(w, s.pc) else t))
  {
  }

  // ---- registers ------------------------------------------------------------------------

  /** Only register d has changed, and it holds x. */
  ghost predicate Puts(c: Core, c': Core, d: nat, x: Word)
    requires c.frames != [] && |Running(c).home| == 16 && d <= 16
  {
    && |c'.frames| == |c.frames| && |Running(c').home| == 16
    && (forall v :: 0 <= v <= 16 ==> Reg(c', v) == if v == d then x else Reg(c, v))
    && Running(c') == Running(c).(home := Running(c').home) && c' == c.(frames := c'.frames, vr := c'.vr)
    && forall k :: 0 <= k < |c.frames| - 1 ==> c'.frames[k] == c.frames[k]
  }

  lemma SetPuts(c: Core, d: nat, x: Word)
    requires c.frames != [] && c.Top().Valid() && d <= 16
    ensures Puts(c, c.Set(d, x), d, x)
  {
  }

  /** mov, li and arithmetic put what they compute into their register, the
      operands of arithmetic in order. */
  lemma Computes(w: World, j: nat -> Frame, s: IState, insn: Insn)
    requires Junk(j) && Ready(w, s, insn) && (insn.Mov? || insn.Li? || insn.Alu? || insn.Delegate?)
    ensures Step(w, j, s).Some? && Step(w, j, s).value.pc == Behind(w, s.pc)
    ensures Puts(s.core, Step(w, j, s).value.core, insn.d,
      match insn
      case Mov(_, v) => Reg(s.core, v)
      case Li(_, x) => x
      case Alu(op, _, a, b) => w.alu(op, Reg(s.core, a), Reg(s.core, b))
      case Delegate(op, _, a, b) => w.alu(op, Reg(s.core, a), Reg(s.core, b)))
  {
    hide Puts;
    match insn
    case Mov(d, v) => SetPuts(s.core, d, s.core.Get(v));
    case Li(d, x) => SetPuts(s.core, d, x);
    case Alu(op, d, a, b) => SetPuts(s.core, d, w.alu(op, s.core.Get(a), s.core.Get(b)));
    case Delegate(op, d, a, b) => SetPuts(s.core, d, w.alu(op, s.core.Get(a), s.core.Get(b)));
  }

  // ---- operands and slots -------------------------------------------------------------------

  lemma Pushes(w: World, j: nat -> Frame, s: IState, v: nat)
    requires Junk(j) && Ready(w, s, Push(v))
    ensures Step(w, j, s).Some? && Step(w, j, s).value.pc == Behind(w, s.pc)
    ensures var c := Step(w, j, s).value.core;
      && |c.frames| == |s.core.frames| && Running(c) == Running(s.core).(stk := Running(s.core).stk + [Reg(s.core, v)])
      && c == s.core.(frames := c.frames) && forall k :: 0 <= k < |c.frames| - 1 ==> c.frames[k] == s.core.frames[k]
  {
  }

  lemma Pops(w: World, j: nat -> Frame, s: IState, d: nat)
    requires Junk(j) && Ready(w, s, Pop(d))
    ensures Running(s.core).stk == [] ==> Step(w, j, s).None?
    ensures Running(s.core).stk != [] ==> Step(w, j, s).Some? && Step(w, j, s).value.pc == Behind(w, s.pc)
    ensures Running(s.core).stk != [] ==>
      var k, c := Running(s.core).stk, Step(w, j, s).value.core;
      && |c.frames| == |s.core.frames| && Running(c).stk == k[..|k| - 1] && |Running(c).home| == 16 && |Running(c).slot| == 128
      && forall v :: 0 <= v <= 16 ==> Reg(c, v) == if v == d then k[|k| - 1] else Reg(s.core, v)
  {
  }

  /** Operands are popped last in, first out: push a, push b, pop d leaves b in
      d, and pop e behind it a in e, and the operands as they were. */
  lemma LastInFirstOut(w: World, j: nat -> Frame, s: IState, a: nat, b: nat, d: nat, e: nat)
    requires Junk(j) && Ready(w, s, Push(a))
    requires var q := Behind(w, s.pc); q in w.code && w.code[q].insn == Push(b) && Regs(Push(b))
    requires var r := Behind(w, Behind(w, s.pc)); r in w.code && w.code[r].insn == Pop(d) && Regs(Pop(d))
    requires var u := Behind(w, Behind(w, Behind(w, s.pc))); u in w.code && w.code[u].insn == Pop(e) && Regs(Pop(e)) && d != e
    ensures var r := Run(w, j, s, 4);
      && r.Some? && r.value.core.frames != [] && |Running(r.value.core).home| == 16
      && Reg(r.value.core, d) == Reg(s.core, b) && Reg(r.value.core, e) == Reg(s.core, a) && Running(r.value.core).stk == Running(s.core).stk
  {
    hide Step;
    Pushes(w, j, s, a);
    var s1 := Step(w, j, s).value;
    Pushes(w, j, s1, b);
    var s2 := Step(w, j, s1).value;
    Pops(w, j, s2, d);
    var s3 := Step(w, j, s2).value;
    assert Running(s3.core).stk == Running(s.core).stk + [Reg(s.core, a)];
    Pops(w, j, s3, e);
    var s4 := Step(w, j, s3).value;
    assert Run(w, j, s4, 0) == Some(s4);
    assert Run(w, j, s3, 1) == Run(w, j, s4, 0);
    assert Run(w, j, s2, 2) == Run(w, j, s3, 1);
    assert Run(w, j, s1, 3) == Run(w, j, s2, 2);
  }

  /** A slot holds what was put into it, and the other slots what they held. */
  lemma SlotsHold(w: World, j: nat -> Frame, s: IState, i: nat, v: nat, d: nat, k: nat)
    requires Junk(j) && Ready(w, s, SlotSet(i, v)) && k < 128
    requires var q := Behind(w, s.pc); q in w.code && w.code[q].insn == SlotRef(d, k) && d <= 16
    ensures var r := Run(w, j, s, 2);
      && r.Some? && r.value.core.frames != [] && |Running(r.value.core).home| == 16
      && Reg(r.value.core, d) == if k == i then Reg(s.core, v) else Running(s.core).slot[k]
  {
    StepsTwice(w, j, s);
  }

  // ---- calls ------------------------------------------------------------------------------

  /** A call: a new activation of t with the caller's V0-V4, in order, no
      operands, and the pc behind the call to return to; nothing else changes. */
  lemma CallsPass(w: World, j: nat -> Frame, s: IState, t: int)
    requires Junk(j) && s.core.frames != [] && s.pc in w.code
    requires Ready(w, s, Call(t)) || (w.code[s.pc].insn.CallInd? && Ready(w, s, w.code[s.pc].insn) && FnTarget(Reg(s.core, w.code[s.pc].insn.s)) == Some(t))
    ensures t !in w.entries ==> Step(w, j, s).None?
    ensures t in w.entries ==> Step(w, j, s).Some? && Step(w, j, s).value.pc == t
    ensures t in w.entries ==>
      var c := Step(w, j, s).value.core;
      && |c.frames| == |s.core.frames| + 1 && c.frames[..|s.core.frames|] == s.core.frames && c.vr == s.core.vr && c.hs == s.core.hs
      && |Running(c).home| == 16 && (forall v :: 0 <= v < 5 ==> Running(c).home[v] == Running(s.core).home[v])
      && Running(c).stk == [] && Running(c).ret == Behind(w, s.pc) && Running(c).fn == t
  {
    hide FnTarget;
  }

  /** An indirect call of what is no function value is a longjmp. */
  lemma CallsFault(w: World, j: nat -> Frame, s: IState, v: nat)
    requires Junk(j) && Ready(w, s, CallInd(v)) && FnTarget(Reg(s.core, v)).None?
    ensures Step(w, j, s) == Step(w.(code := w.code[s.pc := Decoded(Longjmp, 3)]), j, s)
  {
    hide FnTarget, Restore;
  }

  /** A tail call: the new activation takes the place of the old one and
      returns where that would have. */
  lemma TailsPass(w: World, j: nat -> Frame, s: IState, t: int)
    requires Junk(j) && Ready(w, s, Tail(t))
    ensures t !in w.entries ==> Step(w, j, s).None?
    ensures t in w.entries ==> Step(w, j, s).Some? && Step(w, j, s).value.pc == t
    ensures t in w.entries ==>
      var c, n := Step(w, j, s).value.core, |s.core.frames|;
      && |c.frames| == n && c.frames[..n - 1] == s.core.frames[..n - 1] && c.vr == s.core.vr && c.hs == s.core.hs
      && |Running(c).home| == 16 && (forall v :: 0 <= v < 5 ==> Running(c).home[v] == Running(s.core).home[v])
      && Running(c).stk == [] && Running(c).ret == Running(s.core).ret && Running(c).fn == t
  {
  }

  /** A return drops the activation and goes where it says. */
  lemma Returns(w: World, j: nat -> Frame, s: IState)
    requires Junk(j) && Ready(w, s, Ret)
    ensures Step(w, j, s) == Some(IState(s.core.(frames := s.core.frames[..|s.core.frames| - 1]), Running(s.core).ret))
  {
  }

  // ---- setjmp and longjmp -------------------------------------------------------------------

  lemma Arms(w: World, j: nat -> Frame, s: IState)
    requires Junk(j) && Ready(w, s, Setjmp) && |s.core.hs.saved| < 64
    ensures Step(w, j, s).Some? && Step(w, j, s).value.pc == Behind(w, s.pc)
    ensures var c, f := Step(w, j, s).value.core, Running(s.core);
      && c == s.core.(vr := Word(ToInt32(0xDEAD_0001), 0), hs := c.hs)
      && c.hs == Handlers(Some(Handler(|s.core.frames|, |f.stk|, Behind(w, s.pc), f.home[4], f.fn, f.id)), s.core.hs.saved + [s.core.hs.cur], s.core.hs.over)
  {
    Constants();
    hide ToInt32;
  }

  /** A longjmp under the handlers as a setjmp left them, anywhere below its
      activation, comes back behind the setjmp with T in VR, V4 and the
      operands that were there, whatever was pushed since, and the handlers
      from before it. */
  lemma JumpsBack(w: World, j: nat -> Frame, s: IState, b: IState)
    requires Junk(j) && Ready(w, s, Setjmp) && |s.core.hs.saved| < 64 && Ready(w, b, Longjmp)
    requires b.core.hs == Step(w, j, s).value.core.hs && |b.core.frames| >= |s.core.frames|
    requires var f, g := Running(s.core), b.core.frames[|s.core.frames| - 1];
      && g.fn == f.fn && g.id == f.id && |g.home| == 16 && |g.slot| == 128 && |f.stk| <= |g.stk| && g.stk[..|f.stk|] == f.stk
    ensures Step(w, j, b).Some? && Step(w, j, b).value.pc == Behind(w, s.pc)
    ensures var c, n := Step(w, j, b).value.core, |s.core.frames|; var g := b.core.frames[n - 1];
      && |c.frames| == n && c.frames[..n - 1] == b.core.frames[..n - 1]
      && Running(c) == g.(home := g.home[4 := Running(s.core).home[4]], stk := Running(s.core).stk)
      && c.vr == Word(ToInt32(0xDEAD_1009), 0) && c.hs == s.core.hs.(over := 0)
  {
    Constants();
    Arms(w, j, s);
    hide ToInt32;
    var hs := b.core.hs;
    assert hs.saved[..|hs.saved| - 1] == s.core.hs.saved;
    JumpStep(w, j, b);
  }

  lemma JumpStep(w: World, j: nat -> Frame, b: IState)
    requires Junk(j) && Ready(w, b, Longjmp) && Armed(b.core)
    ensures Step(w, j, b) == Some(IState(Restore(b.core), b.core.hs.cur.value.ip))
  {
    hide Restore;
  }

  /** A pop takes a push that was only counted, or the innermost handler. */
  lemma PopsHandler(w: World, j: nat -> Frame, s: IState)
    requires Junk(j) && Ready(w, s, PopHandler)
    ensures Step(w, j, s).Some? && Step(w, j, s).value.pc == Behind(w, s.pc)
    ensures var c, hs := Step(w, j, s).value.core, s.core.hs;
      && c == s.core.(hs := c.hs)
      && (hs.over > 0 ==> c.hs == hs.(over := hs.over - 1))
      && (hs.over == 0 && |hs.saved| > 0 ==> c.hs == Handlers(hs.saved[|hs.saved| - 1], hs.saved[..|hs.saved| - 1], 0))
      && (hs.over == 0 && |hs.saved| == 0 ==> c.hs == Handlers(None, [], 0))
  {
  }

  /** Without a handler, or with one whose activation is gone, it is a fault. */
  lemma JumpsNowhere(w: World, j: nat -> Frame, s: IState)
    requires Junk(j) && Ready(w, s, Longjmp)
    ensures s.core.hs.cur.None? ==> Step(w, j, s).None?
    ensures s.core.hs.cur.Some? && (s.core.hs.cur.value.depth == 0 || s.core.hs.cur.value.depth > |s.core.frames|) ==> Step(w, j, s).None?
  {
    hide Restore;
  }

  // ---- GC checks ------------------------------------------------------------------------------

  /** A GC check counts itself; if it collects it renames every word there is,
      each where it is, and otherwise leaves them alone. */
  lemma Checks(w: World, j: nat -> Frame, s: IState)
    requires Junk(j) && Ready(w, s, GcCheck)
    ensures Step(w, j, s).Some? && Step(w, j, s).value.pc == Behind(w, s.pc)
    ensures !w.full(s.core.checks) ==> Step(w, j, s).value.core == s.core.(checks := s.core.checks + 1)
    ensures w.full(s.core.checks) ==>
      var c, n := Step(w, j, s).value.core, s.core.checks;
      && c.checks == n + 1 && c.calls == s.core.calls && c.cmp == s.core.cmp && |c.frames| == |s.core.frames|
      && c.vr == w.move(n, s.core.vr)
      && (forall k :: 0 <= k < |c.frames| ==> MovedFrame(w, n, s.core.frames[k], c.frames[k]))
      && (s.core.hs.cur.Some? ==> c.hs.cur == Some(s.core.hs.cur.value.(v4 := w.move(n, s.core.hs.cur.value.v4))))
      && |c.hs.saved| == |s.core.hs.saved| && c.hs.over == s.core.hs.over
      && forall k :: 0 <= k < |c.hs.saved| && s.core.hs.saved[k].Some? ==> c.hs.saved[k] == Some(s.core.hs.saved[k].value.(v4 := w.move(n, s.core.hs.saved[k].value.v4)))
  {
  }

  ghost predicate MovedFrame(w: World, n: nat, f: Frame, g: Frame) {
    && g == f.(home := g.home, slot := g.slot, stk := g.stk) && |g.home| == |f.home| && |g.slot| == |f.slot| && |g.stk| == |f.stk|
    && (forall i :: 0 <= i < |f.home| ==> g.home[i] == w.move(n, f.home[i]))
    && (forall i :: 0 <= i < |f.slot| ==> g.slot[i] == w.move(n, f.slot[i]))
    && forall i :: 0 <= i < |f.stk| ==> g.stk[i] == w.move(n, f.stk[i])
  }

  // ---- the mixed machine -----------------------------------------------------------------------

  /** The same for interpreted code of the mixed machine. */
  lemma ComparesMixed(w: World, j: nat -> Frame, p: Policy, m: MState, a: nat, b: nat, c: Cond, t: int)
    requires Junk(j) && m.ctl.Interpreting? && Ready(w, IState(m.core, m.ctl.pc), Isa.Cmp(a, b))
    requires var q := Behind(w, m.ctl.pc); q in w.code && w.code[q].insn == BranchIf(c, t)
    ensures var r, q := MixedRun(w, j, p, m, 2), Behind(w, Behind(w, m.ctl.pc));
      && r.core == m.core.(cmp := r.core.cmp) && r.pend == m.pend && r.ctl.Interpreting? && r.ctl.pc in {t, q}
      && (t != q ==> Means(c, Val(Reg(m.core, a)), Val(Reg(m.core, b)), r.ctl.pc == t))
  {
    hide Val;
    MixedTwice(w, j, p, m);
    var d := Cmp64(m.core.Get(a), m.core.Get(b));
    hide Cmp64;
    assert MixedStep(w, j, p, m) == MState(m.core.(cmp := d), Interpreting(Behind(w, m.ctl.pc)), m.pend);
  }

  lemma MixedTwice(w: World, j: nat -> Frame, p: Policy, m: MState)
    requires Junk(j)
    ensures MixedRun(w, j, p, m, 2) == MixedStep(w, j, p, MixedStep(w, j, p, m))
  {
    hide MixedStep;
    var n := MixedStep(w, j, p, m);
    assert MixedRun(w, j, p, n, 1) == MixedRun(w, j, p, MixedStep(w, j, p, n), 0);
  }

  /** A register of translated code: V0-V8 are locals. */
  function Local(c: Core, loc: seq<Word>, v: nat): Word
    requires c.frames != [] && |Running(c).home| == 16 && |loc| == 9 && v <= 16
  {
    if v < 9 then loc[v] else Reg(c, v)
  }

  predicate Translating(m: MState) {
    && m.ctl.Compiled? && m.core.frames != [] && |Running(m.core).home| == 16 && |Running(m.core).slot| == 128 && |m.ctl.loc| == 9
  }

  /** And for translated code, whose branch goes to a case of the switch. */
  lemma ComparesTranslated(w: World, j: nat -> Frame, p: Policy, m: MState, a: nat, b: nat, c: Cond, l: nat)
    requires Junk(j) && Translating(m) && |m.ctl.rest| >= 2 && m.ctl.rest[0] == Do(Isa.Cmp(a, b)) && a <= 16 && b <= 16
    requires m.ctl.rest[1] == Goto(If(c), l) && m.ctl.chunk < |m.ctl.f.chunks|
    ensures var r := MixedRun(w, j, p, m, 2); var there, on := Find(m.ctl.f.chunks[m.ctl.chunk], l), m.ctl.rest[2..];
      && r.core == m.core && r.pend == m.pend && r.ctl.Compiled? && r.ctl.loc == m.ctl.loc && (r.ctl.rest == there || r.ctl.rest == on)
      && (there != on ==> Means(c, Val(Local(m.core, m.ctl.loc, a)), Val(Local(m.core, m.ctl.loc, b)), r.ctl.rest == there))
  {
    hide Val, Find;
    MixedTwice(w, j, p, m);
    var d := Cmp64(TGet(m.core, m.ctl.loc, a), TGet(m.core, m.ctl.loc, b));
    hide Cmp64;
    assert MixedStep(w, j, p, m) == m.(ctl := m.ctl.(rest := m.ctl.rest[1..], cmp := d));
    assert m.ctl.rest[1..][1..] == m.ctl.rest[2..];
  }

  lemma TestsNilTranslated(w: World, j: nat -> Frame, p: Policy, m: MState, v: nat, sense: bool, l: nat)
    requires Junk(j) && Translating(m) && m.ctl.rest != [] && m.ctl.rest[0] == Goto(IfNil(v, sense), l) && v <= 16 && m.ctl.chunk < |m.ctl.f.chunks|
    ensures var isNil := Local(m.core, m.ctl.loc, v) == Word(ToInt32(0xDEAD_0001), 0);
      MixedStep(w, j, p, m) == m.(ctl := m.ctl.(rest := if isNil == sense then Find(m.ctl.f.chunks[m.ctl.chunk], l) else m.ctl.rest[1..]))
  {
    Constants();
    hide ToInt32, Find;
  }
}
