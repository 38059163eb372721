/** The two tiers agree: whatever functions are translated and whichever calls
    use the translations, the mixed machine follows the interpreter step by
    step, provided every longjmp can reach its target. */
module Simulation {
  import opened Words
  import opened Isa
  import opened Results
  import opened Interp
  import opened Translate
  import opened Tiers
  import opened Discipline
  import opened Control
  import opened Pairing

  ghost predicate Setup(w: World, d: Cert, p: Policy) {
    Disciplined(w, d) && forall t :: t in p.funs ==> t in w.entries && Usable(w, t, p.funs[t])
  }

  /** The two machines run the same code; how they compute, when they collect
      and what moves where is their own. */
  ghost predicate SameProgram(w: World, w': World) {
    w'.code == w.code && w'.entries == w.entries
  }

  /** The function that an indirect call at pc reaches finds its arguments. */
  predicate Reaches(w: World, d: Cert, a: Core, pc: int)
    requires a.frames != [] && a.Top().Valid() && pc in w.code && Regs(w.code[pc].insn)
  {
    w.code[pc].insn.CallInd? && pc in d ==>
      match FnTarget(a.Get(w.code[pc].insn.s))
      case None => true
      case Some(t) => t in w.entries ==> Passes(w, d, t, d[pc])
  }

  /** What the instruction at pc asks of the correspondence: e becomes e'. */
  ghost predicate BlindAt(w: World, w': World, e: Same, e': Same, d: Cert, a: Core, pc: int)
    requires a.frames != [] && a.Top().Valid() && pc in w.code && Regs(w.code[pc].insn)
  {
    if w.code[pc].insn == GcCheck then exists l: Alive :: Lives(l, d, pc, a) && Carries(w, w', a.checks, l, e, e')
    else e' == e && Blind(w, w', e, Ordered(d, pc + w.code[pc].len), a, w.code[pc].insn) && Reaches(w, d, a, pc)
  }

  /** The interpreter at pc with state a; the other machine's state v, its
      locals counted as spilled, in a translated activation or not. */
  ghost predicate CoreRel(e: Same, d: Cert, p: Policy, pc: int, a: Core, v: Core, trans: bool, pend: seq<Item>) {
    && Paired(e, d, p, a, v) && a.frames != [] && InFn(p, a.Top().fn, pc)
    && (pc in d ==> SameTop(e, d[pc], a, v))
    && Match(e, d, p, a.frames, v.frames, trans, pend)
  }

  function LayoutOf(f: TFun): Layout {
    Layout(f.order, f.labels, f.chunkOf)
  }

  /** The correspondence e suits the interpreter's next instruction, and is e'
      behind it. */
  ghost predicate BlindStep(w: World, w': World, e: Same, e': Same, d: Cert, i: IState) {
    i.core.frames != [] && i.core.Top().Valid() && i.pc in w.code && Regs(w.code[i.pc].insn) ==> BlindAt(w, w', e, e', d, i.core, i.pc)
  }

  /** The remaining operations are the code of the function from pc on. */
  ghost predicate At(code: Code, f: TFun, pc: int, chunk: nat, rest: seq<TOp>) {
    && LayoutOf(f).Complete(code) && chunk < |f.chunks|
    && exists k: nat :: k < |f.order| && f.order[k] == pc && rest == LayoutOf(f).From(code, k, chunk)
  }

  /** The same, with the case label passed. */
  ghost predicate AtBody(code: Code, f: TFun, pc: int, chunk: nat, rest: seq<TOp>, k: nat) {
    && LayoutOf(f).Complete(code) && chunk < |f.chunks| && k < |f.order| && f.order[k] == pc
    && rest == LayoutOf(f).Body(code, k, chunk) + LayoutOf(f).From(code, k + 1, chunk)
  }

  /** A translated activation stands for the interpreter at pc. */
  ghost predicate TransRel(e: Same, d: Cert, p: Policy, pc: int, a: Core, m: MState) {
    && m.ctl.Compiled? && |m.ctl.loc| == 9 && m.core.frames != [] && m.core.Top().Valid()
    && CoreRel(e, d, p, pc, a, View(m.core, m.ctl.loc, m.ctl.cmp), true, m.pend)
    && a.Top().fn in p.funs && m.ctl.f == p.funs[a.Top().fn]
  }

  ghost predicate Rel(w: World, e: Same, d: Cert, p: Policy, i: IState, m: MState) {
    if i.core.frames == [] then m.ctl == Finished && SameRest(e, i.core, m.core)
    else match m.ctl
      case Interpreting(pc) => pc == i.pc && CoreRel(e, d, p, pc, i.core, m.core, false, m.pend)
      case Compiled(f, chunk, rest, _, _) => TransRel(e, d, p, i.pc, i.core, m) && At(w.code, f, i.pc, chunk, rest)
      case _ => false
  }

  /** One interpreted step and what the mixed machine made of it; e is the
      correspondence behind it. */
  ghost predicate Outcome(w: World, e: Same, d: Cert, p: Policy, i: Option<IState>, m: MState) {
    match i
    case None => m.ctl == Lost
    case Some(j) => Rel(w, e, d, p, j, m)
  }

  // ---- the shared core ---------------------------------------------------------------

  lemma CoreTops(e: Same, d: Cert, p: Policy, pc: int, a: Core, v: Core, trans: bool, pend: seq<Item>)
    requires CoreRel(e, d, p, pc, a, v, trans, pend)
    ensures a.frames != [] && v.frames != [] && |a.frames| == |v.frames| && Alike(e, a.Top(), v.Top()) && SameRest(e, a, v)
    ensures a.frames == a.frames[..|a.frames| - 1] + [a.Top()] && v.frames == v.frames[..|v.frames| - 1] + [v.Top()]
  {
    hide Match, HandlersOk;
    assert Alike(e, a.frames[|a.frames| - 1], v.frames[|v.frames| - 1]);
  }

  lemma RuleAt(w: World, d: Cert, pc: int)
    requires Disciplined(w, d) && pc in w.code
    ensures pc in d && 0 <= pc && Rule(w, d, pc)
  {
  }

  /** Control stays in the function. */
  lemma InFnNext(w: World, d: Cert, p: Policy, fn: int, pc: int, q: int)
    requires Setup(w, d, p) && InFn(p, fn, pc) && pc in w.code && q in Succs(w.code, pc)
    ensures InFn(p, fn, q)
  {
    hide Disciplined, Succs, Leads, NextInOrder;
    if fn in p.funs {
      var f := p.funs[fn];
      assert Usable(w, fn, f);
      var k :| 0 <= k < |f.order| && f.order[k] == pc;
      assert Succs(w.code, f.order[k]) <= Elems(f.order);
    }
  }

  lemma InFnEntry(w: World, d: Cert, p: Policy, t: int)
    requires Setup(w, d, p)
    ensures InFn(p, t, t)
  {
    hide Disciplined, Leads, NextInOrder;
    if t in p.funs {
      assert Usable(w, t, p.funs[t]);
      assert p.funs[t].order[0] == t;
    }
  }

  lemma SetjmpAt(w: World, d: Cert, p: Policy, fn: int, pc: int)
    requires Setup(w, d, p) && InFn(p, fn, pc) && pc in w.code && w.code[pc].insn == Setjmp
    ensures pc in d && SetjmpOk(d, p, d[pc], fn, pc + w.code[pc].len)
  {
    hide Leads, NextInOrder, Rule, Disciplined, BlockOf, Succs;
    RuleAt(w, d, pc);
    SetjmpRule(w, d, pc);
    var next := pc + w.code[pc].len;
    SetjmpSuccs(w.code, pc);
    InFnNext(w, d, p, fn, pc, next);
    if fn in p.funs {
      var f := p.funs[fn];
      assert Usable(w, fn, f);
      var k :| 0 <= k < |f.order| && f.order[k] == pc;
      assert LayoutOf(f).Complete(w.code);
      assert next in Blocks(w.code, f.order[k]);
    }
  }

  lemma SetjmpRule(w: World, d: Cert, pc: int)
    requires pc in w.code && pc in d && Rule(w, d, pc) && w.code[pc].insn == Setjmp
    ensures var next := pc + w.code[pc].len; next in d && d[next].resume && d[next].Below(d[pc].Saved())
  {
  }

  lemma SetjmpSuccs(code: Code, pc: int)
    requires pc in code && code[pc].insn == Setjmp
    ensures pc + code[pc].len in Succs(code, pc) && pc + code[pc].len in Blocks(code, pc)
  {
  }

  lemma LocalRule(w: World, d: Cert, p: Policy, pc: int)
    requires Setup(w, d, p) && pc in w.code && IsLocal(w.code[pc].insn)
    ensures var insn, next := w.code[pc].insn, pc + w.code[pc].len;
      && pc in d && Reads(d[pc], insn) && Buries(d, d[pc], insn) && next in Succs(w.code, pc)
      && (insn == GcCheck ==> Arrives(d, next, d[pc]))
      && Arrives(d, next, After(d[pc], insn, Ordered(d, next)))
  {
    RuleAt(w, d, pc);
    hide Buries;
  }

  /** A local instruction. */
  lemma CoreLocal(w: World, w': World, e: Same, e': Same, d: Cert, p: Policy, pc: int, a: Core, v: Core, trans: bool, pend: seq<Item>)
    requires Setup(w, d, p) && SameProgram(w, w') && CoreRel(e, d, p, pc, a, v, trans, pend)
    requires pc in w.code && IsLocal(w.code[pc].insn)
    requires a.Top().Valid() && Regs(w.code[pc].insn) && BlindAt(w, w', e, e', d, a, pc)
    ensures v.frames != [] && v.Top().Valid()
    ensures var next := pc + w.code[pc].len;
      var r, s := ExecLocal(w, a, w.code[pc].insn, next), ExecLocal(w', v, w.code[pc].insn, next);
      && (r.Some? <==> s.Some?)
      && (r.Some? ==> CoreRel(e', d, p, next, r.value, s.value, trans, pend) && r.value.Top().fn == a.Top().fn)
  {
    hide Blind, Carries, Lives, HandlersAlike, SameSeq, Agree, Rule, Reads, Buries, After, Paired, Match, Setup, Succs, Regs, SetjmpOk, ExecLocal, Reaches;
    var insn, next := w.code[pc].insn, pc + w.code[pc].len;
    CoreTops(e, d, p, pc, a, v, trans, pend);
    LocalRule(w, d, p, pc);
    InFnNext(w, d, p, a.Top().fn, pc, next);
    if insn == GcCheck {
      var l: Alive :| Lives(l, d, pc, a) && Carries(w, w', a.checks, l, e, e');
      CoreCollect(w, w', l, e, e', d, p, pc, a, v, trans, pend, next);
      if next in d { LiveBelow(e', d[pc], d[next], ExecLocal(w, a, insn, next).value, ExecLocal(w', v, insn, next).value); }
    } else {
      if insn == Setjmp { SetjmpAt(w, d, p, a.Top().fn, pc); }
      LocalSame(w, w', e, d[pc], Ordered(d, next), a, v, insn, next);
      CoreLocalKeeps(w, w', e, d, p, pc, a, v, trans, pend, insn, next);
    }
  }

  lemma CoreLocalKeeps(w: World, w': World, e: Same, d: Cert, p: Policy, pc: int, a: Core, v: Core, trans: bool, pend: seq<Item>, insn: Insn, next: int)
    requires CoreRel(e, d, p, pc, a, v, trans, pend) && pc in d && SameTop(e, d[pc], a, v)
    requires Regs(insn) && IsLocal(insn) && insn != GcCheck && Reads(d[pc], insn) && Buries(d, d[pc], insn) && Blind(w, w', e, Ordered(d, next), a, insn)
    requires insn == Setjmp ==> SetjmpOk(d, p, d[pc], a.Top().fn, next)
    requires InFn(p, a.Top().fn, next) && Arrives(d, next, After(d[pc], insn, Ordered(d, next)))
    ensures var r, s := ExecLocal(w, a, insn, next), ExecLocal(w', v, insn, next);
      r.Some? && s.Some? ==> CoreRel(e, d, p, next, r.value, s.value, trans, pend) && r.value.Top().fn == a.Top().fn
  {
    hide ExecLocal, Reads, Buries, Paired, Regs, Match, After, Blind;
    var r, s := ExecLocal(w, a, insn, next), ExecLocal(w', v, insn, next);
    if r.Some? && s.Some? {
      PairedLocal(w, w', e, d, p, d[pc], Ordered(d, next), a, v, insn, next);
      LocalFrames(w, a, insn, next);
      LocalFrames(w', v, insn, next);
      MatchTop(e, d, p, a.frames, v.frames, r.value.Top(), s.value.Top(), trans, pend);
      if next in d { LiveBelow(e, After(d[pc], insn, Ordered(d, next)), d[next], r.value, s.value); }
    }
  }

  lemma LocalFrames(w: World, c: Core, insn: Insn, next: int)
    requires c.frames != [] && c.Top().Valid() && Regs(insn) && IsLocal(insn) && insn != GcCheck
    ensures var r := ExecLocal(w, c, insn, next);
      r.Some? ==> r.value.frames == c.frames[..|c.frames| - 1] + [r.value.Top()]
                  && r.value.Top().ret == c.Top().ret && r.value.Top().fn == c.Top().fn
  {
    LocalShape(w, c, insn, next);
    hide ExecLocal;
  }

  lemma LiveBelow(e: Same, x: Live, y: Live, a: Core, b: Core)
    requires SameTop(e, x, a, b) && y.Below(x)
    ensures SameTop(e, y, a, b)
  {
    hide HandlersAlike, SameSeq;
  }

  /** A GC check, collecting or not, in either machine. */
  lemma CoreCollect(w: World, w': World, l: Alive, e: Same, e': Same, d: Cert, p: Policy, pc: int, a: Core, v: Core, trans: bool, pend: seq<Item>, next: int)
    requires CoreRel(e, d, p, pc, a, v, trans, pend) && pc in d && a.Top().Valid() && v.frames != [] && v.Top().Valid()
    requires Carries(w, w', a.checks, l, e, e') && Lives(l, d, pc, a)
    ensures var r, s := ExecLocal(w, a, GcCheck, next), ExecLocal(w', v, GcCheck, next);
      && r.Some? && s.Some? && r.value.Top().fn == a.Top().fn && SameTop(e', d[pc], r.value, s.value)
      && Paired(e', d, p, r.value, s.value) && Match(e', d, p, r.value.frames, s.value.frames, trans, pend)
  {
    hide ExecLocal, Carries, Collect, Match, Paired, SameTop;
    CheckCollects(w, a, next);
    CheckCollects(w', v, next);
    SameChecks(e, d, p, pc, a, v, trans, pend);
    var a', v' := Collect(Mover(w), a), Collect(Mover(w'), v);
    PairedCollect(w, w', l, e, e', d, p, pc, a, v);
    SameTopCollect(w, w', l, e, e', d, pc, a, v);
    MatchCollect(w, w', a.checks, l, e, e', d, p, a.frames, v.frames, trans, pend);
    CollectedFrames(w, a);
    CollectedFrames(w', v);
    CountedAlike(e', d, p, d[pc], a', v', a.checks + 1);
    CollectedTop(w, a);
  }

  lemma SameChecks(e: Same, d: Cert, p: Policy, pc: int, a: Core, v: Core, trans: bool, pend: seq<Item>)
    requires CoreRel(e, d, p, pc, a, v, trans, pend)
    ensures a.checks == v.checks
  {
    hide Match, HandlersOk;
  }

  lemma CollectedTop(w: World, c: Core)
    requires c.frames != []
    ensures Collect(Mover(w), c).frames != [] && Collect(Mover(w), c).Top().fn == c.Top().fn
  {
  }

  lemma CountedAlike(e: Same, d: Cert, p: Policy, x: Live, a: Core, b: Core, n: nat)
    requires Paired(e, d, p, a, b) && SameTop(e, x, a, b)
    ensures Paired(e, d, p, a.(checks := n), b.(checks := n)) && SameTop(e, x, a.(checks := n), b.(checks := n))
  {
    hide HandlerOk, HandlersAlike, SameSeq, Agree;
  }

  /** Going on at q in the same activation, with less live. */
  lemma CoreGoto(w: World, e: Same, d: Cert, p: Policy, pc: int, q: int, a: Core, v: Core, v': Core, trans: bool, pend: seq<Item>)
    requires Setup(w, d, p) && CoreRel(e, d, p, pc, a, v, trans, pend)
    requires pc in w.code && q in Succs(w.code, pc) && Arrives(d, q, d[pc].Unflagged())
    requires v' == v.(cmp := v'.cmp) && (v'.cmp == v.cmp || (q in d ==> !d[q].flags))
    ensures CoreRel(e, d, p, q, a, v', trans, pend)
  {
    hide Match, Disciplined, Succs, HandlersOk;
    CoreTops(e, d, p, pc, a, v, trans, pend);
    RuleAt(w, d, pc);
    hide Rule;
    InFnNext(w, d, p, a.Top().fn, pc, q);
    PairedFlags(e, d, p, a, v, v');
    hide InFn, Paired;
    if q in d {
      AgreeBelow(e, d[pc].Unflagged(), d[q], a.Top(), v.Top());
    }
  }

  lemma PairedFlags(e: Same, d: Cert, p: Policy, a: Core, v: Core, v': Core)
    requires Paired(e, d, p, a, v) && v' == v.(cmp := v'.cmp)
    ensures Paired(e, d, p, a, v')
  {
  }

  // ---- calls ----------------------------------------------------------------------------

  /** b is v with the homes of V5-V8 left unspilled. */
  ghost predicate HalfSpilled(v: Core, b: Core) {
    && v.frames != [] && v.Top().Valid() && b.frames != [] && b.frames == v.frames[..|v.frames| - 1] + [b.Top()]
    && b == v.(frames := b.frames, cmp := b.cmp)
    && b.Top() == v.Top().(home := b.Top().home) && |b.Top().home| == 16
    && b.Top().home[..5] == v.Top().home[..5] && b.Top().home[9..] == v.Top().home[9..]
  }

  lemma HalfTop(v: Core, b: Core)
    requires HalfSpilled(v, b)
    ensures b.frames != [] && |b.frames| == |v.frames| && b.calls == v.calls
  {
  }

  lemma HalfSpilledPaired(e: Same, d: Cert, p: Policy, pc: int, a: Core, v: Core, b: Core, trans: bool, pend: seq<Item>)
    requires CoreRel(e, d, p, pc, a, v, trans, pend) && HalfSpilled(v, b)
    ensures Paired(e, d, p, a, b) && Match(e, d, p, a.frames, b.frames, trans, pend)
    ensures forall x: Live :: x.Resident() && Agree(e, x, a.Top(), v.Top()) ==> Agree(e, x, a.Top(), b.Top())
  {
    CoreTops(e, d, p, pc, a, v, trans, pend);
    PairedRehome(e, d, p, a, v, b.Top().home);
    var b1 := v.WithTop(v.Top().(home := b.Top().home));
    assert b1.frames == b.frames;
    PairedFlags(e, d, p, a, b1, b);
    MatchTop(e, d, p, a.frames, v.frames, a.Top(), b.Top(), trans, pend);
    SpillKept(v, b.Top().home);
    assert b.Top().home[4] == b.Top().home[..5][4] == v.Top().home[..5][4];
  }

  /** The callee's frames agree on its arguments, whatever else they hold. */
  lemma CalleeSame(e: Same, d: Cert, t: int, x: Live, f: Frame, v: Frame, g: Frame, j: Frame, j': Frame, r: int, r': int, id: nat)
    requires t in d && EntryOk(d[t]) && d[t].regs <= x.regs && Alike(e, f, v) && Agree(e, x, f, v) && g.Valid()
    requires g.home[..5] == v.home[..5] && j.Valid() && j'.Valid()
    ensures Alike(e, NewFrame(j, f, t, r, id), NewFrame(j', g, t, r', id)) && Agree(e, d[t], NewFrame(j, f, t, r, id), NewFrame(j', g, t, r', id))
  {
    forall k | k in d[t].regs
      ensures e(NewFrame(j, f, t, r, id).home[k], NewFrame(j', g, t, r', id).home[k])
    {
      assert g.home[k] == g.home[..5][k] == v.home[..5][k];
    }
  }

  /** A call instruction at pc may enter t, which finds its arguments. */
  predicate Calls(w: World, d: Cert, pc: int, t: int) {
    pc in w.code && t in w.entries &&
    match w.code[pc].insn
    case Call(u) => u == t
    case CallInd(_) => pc in d && Passes(w, d, t, d[pc])
    case _ => false
  }

  /** It does when it makes the call. */
  lemma CallsBy(w: World, w': World, e: Same, d: Cert, i: IState, t: int)
    requires BlindStep(w, w', e, e, d, i) && i.pc in d && t in w.entries
    requires i.core.frames != [] && i.core.Top().Valid() && i.pc in w.code && Regs(w.code[i.pc].insn)
    requires w.code[i.pc].insn == Call(t) || (w.code[i.pc].insn.CallInd? && FnTarget(i.core.Get(w.code[i.pc].insn.s)) == Some(t))
    ensures Calls(w, d, i.pc, t)
  {
    hide FnTarget;
  }

  /** A call: the caller is suspended alike, the callee starts alike. */
  lemma CoreCall(w: World, e: Same, d: Cert, p: Policy, pc: int, a: Core, v: Core, b: Core, trans: bool, pend: seq<Item>, t: int, j: Frame, j': Frame, r': int)
    requires Setup(w, d, p) && CoreRel(e, d, p, pc, a, v, trans, pend) && Calls(w, d, pc, t)
    requires HalfSpilled(v, b) && j.Valid() && j'.Valid()
    ensures a.Top().Valid() && b.Top().Valid()
    ensures var next := pc + w.code[pc].len;
      var a', b' := Enter(j, a, t, next), Enter(j', b, t, r');
      && Paired(e, d, p, a', b') && t in d && SameTop(e, d[t], a', b') && InFn(p, t, t) && a'.Top().fn == t
      && Suspended(e, d, p, next, a.Top(), b.Top()) && Match(e, d, p, a.frames, b.frames, trans, pend) && next >= 0
  {
    hide Match, HandlersOk, NewFrame;
    CoreTops(e, d, p, pc, a, v, trans, pend);
    RuleAt(w, d, pc);
    InFnEntry(w, d, p, t);
    var next, x := pc + w.code[pc].len, d[pc];
    InFnNext(w, d, p, a.Top().fn, pc, next);
    HalfSpilledPaired(e, d, p, pc, a, v, b, trans, pend);
    assert EntryOk(d[t]) && d[t].regs <= x.regs && Arrives(d, next, x.Saved());
    hide Rule, Disciplined;
    CalleeSame(e, d, t, x, a.Top(), v.Top(), b.Top(), j, j', next, r', a.calls + 1);
    CoreCallEnter(e, d, p, a, b, t, j, j', next, r');
    SuspendedBy(e, d, p, x, next, a.Top(), v.Top(), b.Top());
  }

  lemma SuspendedBy(e: Same, d: Cert, p: Policy, x: Live, next: int, f: Frame, v: Frame, g: Frame)
    requires Alike(e, f, g) && Alike(e, f, v) && InFn(p, f.fn, next) && Agree(e, x, f, v) && Arrives(d, next, x.Saved())
    requires forall y: Live :: y.Resident() && Agree(e, y, f, v) ==> Agree(e, y, f, g)
    ensures Suspended(e, d, p, next, f, g)
  {
    if next in d {
      assert d[next].Resident();
      AgreeBelow(e, x.Unflagged(), d[next], f, v);
    }
  }

  lemma CoreCallEnter(e: Same, d: Cert, p: Policy, a: Core, b: Core, t: int, j: Frame, j': Frame, r: int, r': int)
    requires Paired(e, d, p, a, b) && a.frames != [] && b.frames != [] && a.Top().Valid() && b.Top().Valid() && j.Valid() && j'.Valid() && t in d && !d[t].flags
    requires var f, g := NewFrame(j, a.Top(), t, r, a.calls + 1), NewFrame(j', b.Top(), t, r', a.calls + 1);
      Alike(e, f, g) && Agree(e, d[t], f, g)
    ensures Paired(e, d, p, Enter(j, a, t, r), Enter(j', b, t, r')) && SameTop(e, d[t], Enter(j, a, t, r), Enter(j', b, t, r'))
    ensures Enter(j, a, t, r).Top().fn == t
  {
    var f, g := NewFrame(j, a.Top(), t, r, a.calls + 1), NewFrame(j', b.Top(), t, r', a.calls + 1);
    PairedEnter(e, d, p, a, b, f, g);
  }

  /** A tail call: the activation is replaced alike. */
  lemma CoreTail(w: World, e: Same, d: Cert, p: Policy, pc: int, a: Core, v: Core, b: Core, trans: bool, pend: seq<Item>, t: int, j: Frame, j': Frame)
    requires Setup(w, d, p) && CoreRel(e, d, p, pc, a, v, trans, pend) && pc in w.code && w.code[pc].insn == Tail(t) && t in w.entries
    requires HalfSpilled(v, b) && j.Valid() && j'.Valid()
    ensures a.Top().Valid() && b.Top().Valid() && CoreRel(e, d, p, t, Replace(j, a, t), Replace(j', b, t), trans, pend)
    ensures t in d && SameTop(e, d[t], Replace(j, a, t), Replace(j', b, t)) && Replace(j, a, t).Top().fn == t
  {
    hide Match, HandlersOk;
    CoreTops(e, d, p, pc, a, v, trans, pend);
    RuleAt(w, d, pc);
    InFnEntry(w, d, p, t);
    HalfSpilledPaired(e, d, p, pc, a, v, b, trans, pend);
    var x := d[pc];
    assert EntryOk(d[t]) && d[t].regs <= x.regs;
    hide Rule, Disciplined;
    var f, g := NewFrame(j, a.Top(), t, a.Top().ret, a.calls + 1), NewFrame(j', b.Top(), t, b.Top().ret, b.calls + 1);
    CalleeSame(e, d, t, x, a.Top(), v.Top(), b.Top(), j, j', a.Top().ret, b.Top().ret, a.calls + 1);
    PairedReplace(e, d, p, a, b, f, g);
    assert Replace(j, a, t) == a.WithTop(f).(calls := a.calls + 1);
    assert Replace(j', b, t) == b.WithTop(g).(calls := b.calls + 1);
    MatchTop(e, d, p, a.frames, b.frames, f, g, trans, pend);
  }

  // ---- entering translated code ------------------------------------------------------

  /** The call f(vm, labels[pc]) finds the code of pc. */
  lemma BeginAt(w: World, d: Cert, p: Policy, fn: int, pc: int, home: seq<Word>)
    requires Setup(w, d, p) && fn in p.funs && pc in p.funs[fn].labels && |home| == 16
    ensures var f := p.funs[fn]; var k := Begin(f, f.labels[pc], home);
      k.Compiled? && k.f == f && k.loc == Loaded(f, f.labels[pc], home) && At(w.code, f, pc, k.chunk, k.rest)
    ensures pc in d && !d[pc].flags && (p.funs[fn].labels[pc] == 0 ==> EntryOk(d[pc]))
  {
    hide Rule, Blocks, Succs, NextInOrder, Find, Loaded, Layout.From, BlockOf;
    var f := p.funs[fn];
    assert Usable(w, fn, f);
    assert fn in d && EntryOk(d[fn]);
    LabelsUnflagged(w, d, fn, f, pc);
    var k :| 0 <= k < |f.order| && f.order[k] == pc;
    assert Leads(w.code, f, k);
    assert LayoutOf(f).Complete(w.code);
    hide Layout.Complete, Translated;
  }

  /** The locals it loads hold what is live at pc, if the frame does. */
  lemma LoadedSame(e: Same, x: Live, a: Core, b: Core, f: TFun, l: nat)
    requires SameTop(e, x, a, b) && !x.flags
    requires l == 0 ==> EntryOk(x)
    requires |f.chunks| == 1 ==> x.Resident() || l == 0
    ensures b.frames != [] && b.Top().Valid() && SameTop(e, x, a, View(b, Loaded(f, l, b.Top().home), 0))
  {
    var home := b.Top().home;
    var v := View(b, Loaded(f, l, home), 0);
    forall k | k in x.regs && k < 16
      ensures v.Top().home[k] == home[k]
    {
      if k >= 9 {
        assert v.Top().home[k] == home[9..][k - 9];
      } else if l == 0 {
        assert home[..5][k] == home[k];
      }
    }
  }

  lemma BeginRel(w: World, e: Same, d: Cert, p: Policy, pc: int, a: Core, b: Core, pend: seq<Item>)
    requires Setup(w, d, p) && CoreRel(e, d, p, pc, a, b, true, pend)
    requires a.Top().fn in p.funs && pc in p.funs[a.Top().fn].labels
    requires var f := p.funs[a.Top().fn]; |f.chunks| == 1 && f.labels[pc] != 0 ==> pc in d && d[pc].Resident()
    ensures b.frames != [] && b.Top().Valid()
    ensures var f := p.funs[a.Top().fn]; Rel(w, e, d, p, IState(a, pc), MState(b, Begin(f, f.labels[pc], b.Top().home), pend))
  {
    hide Setup, Begin, At, Layout.Complete, Match, Paired, Loaded;
    CoreTops(e, d, p, pc, a, b, true, pend);
    var f, home := p.funs[a.Top().fn], b.Top().home;
    var l := f.labels[pc];
    BeginAt(w, d, p, a.Top().fn, pc, home);
    LoadedSame(e, d[pc], a, b, f, l);
    BeginCore(e, d, p, pc, a, b, pend, Loaded(f, l, home));
    BeginZero(f, l, home);
    hide SameTop, CoreRel;
  }

  /** Loading the locals keeps the relation. */
  lemma BeginCore(e: Same, d: Cert, p: Policy, pc: int, a: Core, b: Core, pend: seq<Item>, loc: seq<Word>)
    requires CoreRel(e, d, p, pc, a, b, true, pend) && |loc| == 9 && b.frames != [] && b.Top().Valid()
    requires pc in d && SameTop(e, d[pc], a, View(b, loc, 0))
    ensures CoreRel(e, d, p, pc, a, View(b, loc, 0), true, pend)
  {
    hide HandlersOk;
    CoreTops(e, d, p, pc, a, b, true, pend);
    var v := View(b, loc, 0);
    assert v.frames == b.frames[..|b.frames| - 1] + [v.Top()];
    MatchTop(e, d, p, a.frames, b.frames, a.Top(), v.Top(), true, pend);
    PairedSpill(e, d, p, a, b, loc);
    PairedFlags(e, d, p, a, Spill(b, loc), v);
  }

  lemma BeginZero(f: TFun, l: nat, home: seq<Word>)
    requires |home| == 16
    ensures var k := Begin(f, l, home); k.Compiled? ==> k.cmp == 0
  {
    hide Find, Loaded;
  }

  // ---- landings --------------------------------------------------------------------------

  /** Control lands where the interpreter goes on. */
  ghost predicate Lands(e: Same, d: Cert, p: Policy, pc: int, a: Core, b: Core, to: Landing) {
    match to
    case ToEnd => a.frames == [] && SameRest(e, a, b)
    case ToInterp(q, pend) => q == pc && CoreRel(e, d, p, pc, a, b, false, pend)
    case ToTrans(f, l, pend) =>
      && CoreRel(e, d, p, pc, a, b, true, pend) && a.Top().fn in p.funs && f == p.funs[a.Top().fn]
      && pc in f.labels && l == f.labels[pc] && (pc in d ==> d[pc].Resident())
    case ToNowhere => false
  }

  lemma LandRel(w: World, e: Same, d: Cert, p: Policy, pc: int, a: Core, b: Core, to: Landing)
    requires Setup(w, d, p) && Lands(e, d, p, pc, a, b, to)
    ensures Rel(w, e, d, p, IState(a, pc), Land(b, to))
  {
    hide Setup, Begin;
    match to
    case ToEnd =>
    case ToInterp(_, pend) => CoreTops(e, d, p, pc, a, b, false, pend);
    case ToTrans(f, l, pend) =>
      CoreTops(e, d, p, pc, a, b, true, pend);
      BeginAt(w, d, p, a.Top().fn, pc, b.Top().home);
      BeginRel(w, e, d, p, pc, a, b, pend);
  }

  lemma CoreRet(e: Same, d: Cert, p: Policy, pc: int, a: Core, v: Core, trans: bool, pend: seq<Item>)
    requires CoreRel(e, d, p, pc, a, v, trans, pend)
    ensures v.frames != []
    ensures Lands(e, d, p, a.Top().ret, PopFrame(a), PopFrame(v), Returning(v.Top().ret, trans, pend))
    ensures Returning(v.Top().ret, trans, pend).ToInterp? && a.Top().ret in d ==> !d[a.Top().ret].flags
  {
    hide Match, HandlersOk, Returning;
    CoreTops(e, d, p, pc, a, v, trans, pend);
    var n := |a.frames|;
    ReturnMatches(e, d, p, a.frames, v.frames, trans, pend);
    PairedPrefix(e, d, p, a, v, n - 1);
    var to := Returning(v.Top().ret, trans, pend);
    if !to.ToEnd? {
      assert Suspended(e, d, p, a.Top().ret, a.frames[n - 2], v.frames[n - 2]);
      assert PopFrame(a).Top() == a.frames[n - 2] && PopFrame(v).Top() == v.frames[n - 2];
    }
  }

  // ---- longjmp ----------------------------------------------------------------------------

  /** Whether a target is found depends on the frames' return pcs only. */
  lemma ReachableTop(G: seq<Frame>, g: Frame, trans: bool, pend: seq<Item>, t: nat)
    requires |G| > 0 && g.ret == G[|G| - 1].ret
    ensures InterpAt(G[..|G| - 1] + [g], trans, pend, t) == InterpAt(G, trans, pend, t)
    ensures Reachable(G[..|G| - 1] + [g], trans, pend, t) == Reachable(G, trans, pend, t)
  {
    var G' := G[..|G| - 1] + [g];
    assert G'[..|G'| - 1] == G[..|G| - 1];
  }

  /** The two jump buffers differ in V4 at most. */
  predicate SameJump(a: Core, b: Core) {
    a.hs.cur.Some? && b.hs.cur.Some? && b.hs.cur.value == a.hs.cur.value.(v4 := b.hs.cur.value.v4)
  }

  /** The frames a longjmp leaves match wherever the frames below it did. */
  lemma RestoredMatch(e: Same, d: Cert, p: Policy, a: Core, b: Core, trans: bool, q: seq<Item>)
    requires Armed(a) && Armed(b) && SameJump(a, b)
    requires var t := a.hs.cur.value.depth; Match(e, d, p, a.frames[..t], b.frames[..t], trans, q)
    ensures Match(e, d, p, Restore(a).frames, Restore(b).frames, trans, q)
  {
    var t := a.hs.cur.value.depth;
    assert a.frames[..t][..t - 1] == a.frames[..t - 1] && b.frames[..t][..t - 1] == b.frames[..t - 1];
    MatchTop(e, d, p, a.frames[..t], b.frames[..t], Restore(a).Top(), Restore(b).Top(), trans, q);
  }

  /** V4 plays no part in where an exception goes. */
  lemma {:induction false} ThrowV4(h: Handler, x: Word, pend: seq<Item>)
    ensures ThrowRun(h.(v4 := x), pend) == ThrowRun(h, pend) && DropSegment(h.(v4 := x), pend) == DropSegment(h, pend)
    ensures ThrowDriver(h.(v4 := x), pend) == ThrowDriver(h, pend)
    decreases |pend|
  {
    if pend != [] {
      ThrowV4(h, x, pend[..|pend| - 1]);
    }
  }

  /** Where the exception goes that a longjmp raises. */
  function Thrown(h: Handler, f: TFun, depth: nat, trans: bool, pend: seq<Item>): Landing {
    if trans then ThrowTranslated(h, f, depth, pend) else ThrowRun(h, pend)
  }

  /** The catching driver or run() is the one of the activation restored. */
  ghost predicate Caught(e: Same, d: Cert, p: Policy, F: seq<Frame>, G: seq<Frame>, h: Handler, to: Landing)
    requires |F| == |G| && 0 < h.depth <= |F|
  {
    match to
    case ToInterp(pc, q) => pc == h.ip && Match(e, d, p, F[..h.depth], G[..h.depth], false, q)
    case ToTrans(f, l, q) =>
      && Match(e, d, p, F[..h.depth], G[..h.depth], true, q)
      && F[h.depth - 1].fn in p.funs && f == p.funs[F[h.depth - 1].fn] && h.ip in f.labels && l == f.labels[h.ip]
    case _ => false
  }

  /** A longjmp is caught where it should be exactly when its target is reachable. */
  lemma ThrowCaught(e: Same, d: Cert, p: Policy, F: seq<Frame>, G: seq<Frame>, trans: bool, pend: seq<Item>, h: Handler, f: TFun)
    requires |F| == |G| && Match(e, d, p, F, G, trans, pend) && 0 < h.depth <= |F|
    requires trans ==> F[|F| - 1].fn in p.funs && f == p.funs[F[|F| - 1].fn]
    requires var fn := F[h.depth - 1].fn; fn in p.funs ==> Tiers.Resumes(p.funs[fn], h.ip)
    ensures Caught(e, d, p, F, G, h, Thrown(h, f, |F|, trans, pend)) <==> Reachable(G, trans, pend, h.depth)
  {
    hide Match, InterpAt, DropSegment, ThrowRun;
    if trans && InSegment(|F|, pend, h.depth) {
      if h.depth < |F| {
        SegmentCaught(e, d, p, F, G, pend, h);
      } else {
        assert F[..h.depth] == F && G[..h.depth] == G;
      }
    } else {
      if trans { SegmentDropped(e, d, p, F, G, pend, h); }
      assert Thrown(h, f, |F|, trans, pend) == Crossing(h, trans, pend);
      if InterpAt(G, trans, pend, h.depth) {
        InterpCaught(e, d, p, F, G, trans, pend, h);
      } else if CaughtInterp(e, d, p, F, G, h, Crossing(h, trans, pend)) {
        InterpOnly(e, d, p, F, G, trans, pend, h);
      } else {
        CrossingLands(h, trans, pend);
      }
    }
  }

  lemma CoreThrow(e: Same, d: Cert, p: Policy, pc: int, a: Core, v: Core, b: Core, trans: bool, pend: seq<Item>, f: TFun)
    requires CoreRel(e, d, p, pc, a, v, trans, pend) && Armed(a) && HalfSpilled(v, b) && e(Tee(), Tee())
    requires trans ==> a.Top().fn in p.funs && f == p.funs[a.Top().fn]
    requires Reachable(v.frames, trans, pend, a.hs.cur.value.depth)
    ensures Armed(b) && SameJump(a, b)
    ensures Lands(e, d, p, a.hs.cur.value.ip, Restore(a), Restore(b), Thrown(b.hs.cur.value, f, |b.frames|, trans, pend))
  {
    hide Match, HandlersOk, InterpAt, InSegment, Agree, SameSeq;
    CoreTops(e, d, p, pc, a, v, trans, pend);
    HalfSpilledPaired(e, d, p, pc, a, v, b, trans, pend);
    CurAlike(e, a.hs, b.hs);
    PairedRestore(e, d, p, a, b);
    hide HandlersAlike;
    var h := a.hs.cur.value;
    ThrowV4(h, b.hs.cur.value.v4, pend);
    ReachableTop(v.frames, b.Top(), trans, pend, h.depth);
    ThrowCaught(e, d, p, a.frames, b.frames, trans, pend, h, f);
    var to := Thrown(h, f, |b.frames|, trans, pend);
    RestoredMatch(e, d, p, a, b, to.ToTrans?, to.pend);
    hide Restore, Thrown, Reachable;
  }

  // ---- longjmps that go astray ----------------------------------------------------------

  /** A longjmp whose target is not reachable does not land where the interpreter goes on. */
  lemma ThrowAstray(w: World, e: Same, d: Cert, p: Policy, pc: int, a: Core, v: Core, b: Core, trans: bool, pend: seq<Item>, f: TFun)
    requires CoreRel(e, d, p, pc, a, v, trans, pend) && Armed(a) && HalfSpilled(v, b)
    requires trans ==> a.Top().fn in p.funs && f == p.funs[a.Top().fn]
    requires !Reachable(v.frames, trans, pend, a.hs.cur.value.depth)
    ensures Armed(b) && SameJump(a, b)
    ensures !Rel(w, e, d, p, IState(Restore(a), a.hs.cur.value.ip), Land(Restore(b), Thrown(b.hs.cur.value, f, |b.frames|, trans, pend)))
  {
    hide Match, HandlersOk, InterpAt, InSegment, Agree, DropSegment, ThrowRun, Begin, At, SameSeq, HandlersAlike;
    CoreTops(e, d, p, pc, a, v, trans, pend);
    HalfSpilledPaired(e, d, p, pc, a, v, b, trans, pend);
    ArmedSame(e, a, b);
    CurAlike(e, a.hs, b.hs);
    var h := a.hs.cur.value;
    ThrowV4(h, b.hs.cur.value.v4, pend);
    ReachableTop(v.frames, b.Top(), trans, pend, h.depth);
    if trans { AstrayDropped(e, d, p, a.frames, b.frames, pend, h); }
    var to := Crossing(h, trans, pend);
    assert Thrown(b.hs.cur.value, f, |b.frames|, trans, pend) == to;
    CrossingLands(h, trans, pend);
    if to.ToInterp? && Match(e, d, p, Restore(a).frames, Restore(b).frames, false, to.pend) {
      UnrestoredMatch(e, d, p, a, b, false, to.pend);
      if to.pc == h.ip { InterpOnly(e, d, p, a.frames, b.frames, trans, pend, h); }
    }
    hide Restore;
  }

  lemma AstrayDropped(e: Same, d: Cert, p: Policy, F: seq<Frame>, G: seq<Frame>, pend: seq<Item>, h: Handler)
    requires |F| == |G| && Match(e, d, p, F, G, true, pend) && 0 < h.depth <= |F| && !Reachable(G, true, pend, h.depth)
    ensures h.depth < |F| && ThrowDriver(h, pend) == DropSegment(h, pend)
  {
    hide Match, InterpAt, ThrowDriver, DropSegment;
    SegmentDropped(e, d, p, F, G, pend, h);
  }

  lemma UnrestoredMatch(e: Same, d: Cert, p: Policy, a: Core, b: Core, trans: bool, q: seq<Item>)
    requires Armed(a) && Armed(b) && SameJump(a, b) && Match(e, d, p, Restore(a).frames, Restore(b).frames, trans, q)
    ensures var t := a.hs.cur.value.depth; Match(e, d, p, a.frames[..t], b.frames[..t], trans, q)
  {
    var t := a.hs.cur.value.depth;
    var F, G := Restore(a).frames, Restore(b).frames;
    MatchTop(e, d, p, F, G, a.frames[t - 1], b.frames[t - 1], trans, q);
    assert F[..t - 1] + [a.frames[t - 1]] == a.frames[..t] && G[..t - 1] + [b.frames[t - 1]] == b.frames[..t];
  }

  // ---- one instruction of translated code -----------------------------------------------

  /** m2 is m with other homes in its top frame and other control. */
  ghost predicate SamePlace(m: MState, m2: MState) {
    && m.core.frames != [] && m2.core.frames != [] && m2.pend == m.pend && m2.ctl.Compiled?
    && m2.core.frames == m.core.frames[..|m.core.frames| - 1] + [m2.core.Top()] && m2.core.Top().ret == m.core.Top().ret
  }

  /** A translated activation at the first operation of instruction k. */
  ghost predicate BodyRel(w: World, e: Same, d: Cert, p: Policy, i: IState, m: MState, k: nat) {
    TransRel(e, d, p, i.pc, i.core, m) && AtBody(w.code, m.ctl.f, i.pc, m.ctl.chunk, m.ctl.rest, k)
  }

  /** The code from instruction k on: a transfer to another chunk, or the case
      label, if any, and the body. */
  lemma FromCases(code: Code, f: TFun, k: nat, chunk: nat)
    requires LayoutOf(f).Complete(code) && k < |f.order|
    ensures var y := LayoutOf(f); var ops, body := y.From(code, k, chunk), y.Body(code, k, chunk) + y.From(code, k + 1, chunk);
      if f.order[k] in f.labels then
        var l := f.labels[f.order[k]];
        if f.chunkOf[l] != chunk then ops == [Leave(Always, l)] else ops != [] && ops[0] == TOp.Case(l) && ops[1..] == body
      else ops == body
  {
    hide Layout.Body, Layout.Complete;
    var y := LayoutOf(f);
    var body := y.Body(code, k, chunk) + y.From(code, k + 1, chunk);
    if f.order[k] in f.labels { CompleteLabel(code, f, f.order[k]); }
    if f.order[k] in f.labels && y.ChunkAt(f.order[k]) == chunk {
      assert y.From(code, k, chunk) == [TOp.Case(f.labels[f.order[k]])] + body;
    } else if f.order[k] !in f.labels {
      assert y.From(code, k, chunk) == [] + y.Body(code, k, chunk) + y.From(code, k + 1, chunk);
    }
  }

  /** Passing a case label. */
  lemma PassCase(w: World, w': World, j: nat -> Frame, e: Same, d: Cert, p: Policy, i: IState, m: MState) returns (k: nat)
    requires Junk(j) && TransRel(e, d, p, i.pc, i.core, m) && At(w.code, m.ctl.f, i.pc, m.ctl.chunk, m.ctl.rest)
    requires i.pc in m.ctl.f.labels && m.ctl.f.chunkOf[m.ctl.f.labels[i.pc]] == m.ctl.chunk
    ensures BodyRel(w, e, d, p, i, MixedStep(w', j, p, m), k) && SamePlace(m, MixedStep(w', j, p, m))
  {
    hide CoreRel, Layout.Complete, Layout.From, Layout.Body, View;
    var c := m.ctl;
    k :| k < |c.f.order| && c.f.order[k] == i.pc && c.rest == LayoutOf(c.f).From(w.code, k, c.chunk);
    FromCases(w.code, c.f, k, c.chunk);
    assert m.core.frames == m.core.frames[..|m.core.frames| - 1] + [m.core.Top()];
  }

  /** The transfer to the chunk of the next block. */
  lemma PassChunk(w: World, w': World, j: nat -> Frame, e: Same, d: Cert, p: Policy, i: IState, m: MState)
    requires Setup(w, d, p) && Junk(j) && TransRel(e, d, p, i.pc, i.core, m) && At(w.code, m.ctl.f, i.pc, m.ctl.chunk, m.ctl.rest)
    requires i.pc in m.ctl.f.labels && m.ctl.f.chunkOf[m.ctl.f.labels[i.pc]] != m.ctl.chunk
    ensures var m2 := MixedStep(w', j, p, m);
      && TransRel(e, d, p, i.pc, i.core, m2) && At(w.code, m2.ctl.f, i.pc, m2.ctl.chunk, m2.ctl.rest)
      && m2.ctl.f == m.ctl.f && m2.ctl.chunk == m.ctl.f.chunkOf[m.ctl.f.labels[i.pc]] && SamePlace(m, m2)
  {
    hide CoreRel, Layout.From, Layout.Body, Setup, Find, Loaded;
    var c := m.ctl;
    var k: nat :| k < |c.f.order| && c.f.order[k] == i.pc && c.rest == LayoutOf(c.f).From(w.code, k, c.chunk);
    FromCases(w.code, c.f, k, c.chunk);
    var l := c.f.labels[i.pc];
    var b := Spill(m.core, c.loc);
    LeaveRel(w, e, d, p, i.pc, i.core, m, l);
    BeginChunk(c.f, l, b.Top().home);
    assert b.frames == m.core.frames[..|m.core.frames| - 1] + [b.Top()];
  }

  lemma BeginChunk(f: TFun, l: nat, home: seq<Word>)
    requires |home| == 16
    ensures var k := Begin(f, l, home); k.Compiled? ==> l in f.chunkOf && k.chunk == f.chunkOf[l] && k.f == f
  {
    hide Find, Loaded;
  }

  /** Two chunks, so the entry of a chunk loads all of V0-V8. */
  lemma LeaveRel(w: World, e: Same, d: Cert, p: Policy, pc: int, a: Core, m: MState, l: nat)
    requires Setup(w, d, p) && TransRel(e, d, p, pc, a, m) && m.ctl.chunk < |m.ctl.f.chunks|
    requires pc in m.ctl.f.labels && l == m.ctl.f.labels[pc] && l in m.ctl.f.chunkOf && m.ctl.f.chunkOf[l] != m.ctl.chunk
    ensures var b := Spill(m.core, m.ctl.loc); Rel(w, e, d, p, IState(a, pc), MState(b, Begin(m.ctl.f, l, b.Top().home), m.pend))
  {
    hide Begin, Find, Loaded;
    var b, v := Spill(m.core, m.ctl.loc), View(m.core, m.ctl.loc, m.ctl.cmp);
    TwoChunks(w, d, p, a.Top().fn, pc, m.ctl.chunk);
    BeginAt(w, d, p, a.Top().fn, pc, b.Top().home);
    hide Setup;
    CoreUnflagged(e, d, p, pc, a, v, b, m.pend);
    BeginRel(w, e, d, p, pc, a, b, m.pend);
  }

  lemma CoreUnflagged(e: Same, d: Cert, p: Policy, pc: int, a: Core, v: Core, b: Core, pend: seq<Item>)
    requires CoreRel(e, d, p, pc, a, v, true, pend) && b.(cmp := v.cmp) == v && (pc in d ==> !d[pc].flags)
    ensures CoreRel(e, d, p, pc, a, b, true, pend)
  {
    hide Match;
    PairedFlags(e, d, p, a, v, b);
  }

  lemma TwoChunks(w: World, d: Cert, p: Policy, fn: int, pc: int, chunk: nat)
    requires Setup(w, d, p) && fn in p.funs && pc in p.funs[fn].labels
    requires var f := p.funs[fn]; f.labels[pc] in f.chunkOf && f.chunkOf[f.labels[pc]] != chunk && chunk < |f.chunks|
    ensures |p.funs[fn].chunks| > 1
  {
    hide Find, Layout.From, Layout.Complete, Succs, NextInOrder;
    var f := p.funs[fn];
    assert Usable(w, fn, f);
    var k :| 0 <= k < |f.order| && f.order[k] == pc;
    assert Leads(w.code, f, k);
  }

  lemma RunOne(w: World, j: nat -> Frame, p: Policy, m: MState)
    requires Junk(j)
    ensures MixedRun(w, j, p, m, 0) == m && MixedRun(w, j, p, m, 1) == MixedStep(w, j, p, m) && MixedRun(w, j, p, m, 2) == MixedStep(w, j, p, MixedStep(w, j, p, m))
  {
    hide MixedStep;
    assert MixedRun(w, j, p, m, 1) == MixedRun(w, j, p, MixedStep(w, j, p, m), 0);
    assert MixedRun(w, j, p, MixedStep(w, j, p, m), 1) == MixedRun(w, j, p, MixedStep(w, j, p, MixedStep(w, j, p, m)), 0);
  }

  lemma {:induction false} RunSnoc(w: World, j: nat -> Frame, p: Policy, m: MState, n: nat)
    requires Junk(j)
    ensures MixedRun(w, j, p, m, n + 1) == MixedStep(w, j, p, MixedRun(w, j, p, m, n))
    decreases n
  {
    hide MixedStep;
    if n > 0 {
      RunSnoc(w, j, p, MixedStep(w, j, p, m), n - 1);
    }
  }

  /** In at most two steps a translated activation is at the instruction itself. */
  lemma ToBody(w: World, w': World, j: nat -> Frame, e: Same, d: Cert, p: Policy, i: IState, m: MState) returns (n: nat, k: nat)
    requires Setup(w, d, p) && Junk(j) && TransRel(e, d, p, i.pc, i.core, m) && At(w.code, m.ctl.f, i.pc, m.ctl.chunk, m.ctl.rest)
    ensures n <= 2 && BodyRel(w, e, d, p, i, MixedRun(w', j, p, m, n), k) && SamePlace(m, MixedRun(w', j, p, m, n))
  {
    hide TransRel, Layout.From, Layout.Body, Setup, MixedStep;
    var c := m.ctl;
    RunOne(w', j, p, m);
    TransTop(e, d, p, i, m);
    k :| k < |c.f.order| && c.f.order[k] == i.pc && c.rest == LayoutOf(c.f).From(w.code, k, c.chunk);
    FromCases(w.code, c.f, k, c.chunk);
    n := 0;
    if i.pc in c.f.labels {
      if c.f.chunkOf[c.f.labels[i.pc]] == c.chunk {
        k := PassCase(w, w', j, e, d, p, i, m);
        n := 1;
      } else {
        PassChunk(w, w', j, e, d, p, i, m);
        k := PassCase(w, w', j, e, d, p, i, MixedStep(w', j, p, m));
        n := 2;
      }
    } else {
      assert AtBody(w.code, c.f, i.pc, c.chunk, c.rest, k);
    }
  }

  lemma TransTop(e: Same, d: Cert, p: Policy, i: IState, m: MState)
    requires TransRel(e, d, p, i.pc, i.core, m)
    ensures SamePlace(m, m)
  {
    assert m.core.frames == m.core.frames[..|m.core.frames| - 1] + [m.core.Top()];
  }

  // ---- the body of each instruction --------------------------------------------------------

  /** Everything a body step needs to know about its place. */
  lemma BodyAt(w: World, e: Same, d: Cert, p: Policy, i: IState, m: MState, k: nat)
    requires Setup(w, d, p) && BodyRel(w, e, d, p, i, m, k)
    ensures var f := m.ctl.f; var fn := i.core.Top().fn;
      && i.core.frames != [] && fn in p.funs && f == p.funs[fn] && k < |f.order| && f.order[k] == i.pc
      && LayoutOf(f).Complete(w.code) && i.pc in w.code && i.pc in d && Rule(w, d, i.pc)
      && (!Ends(w.code[i.pc].insn) ==> k + 1 < |f.order| && f.order[k + 1] == i.pc + w.code[i.pc].len)
    ensures i.core.Top().Valid() && Alike(e, i.core.Top(), View(m.core, m.ctl.loc, m.ctl.cmp).Top())
    ensures SameRest(e, i.core, m.core) && i.core.Top().Valid() && Alike(e, i.core.Top(), m.core.Top())
  {
    hide Layout.Body, Layout.From, Match, Translated, HandlersOk, Rule, Ends;
    var f := m.ctl.f;
    var v := View(m.core, m.ctl.loc, m.ctl.cmp);
    assert Usable(w, i.core.Top().fn, f);
    RuleAt(w, d, i.pc);
    CoreTops(e, d, p, i.pc, i.core, v, true, m.pend);
    if !Ends(w.code[f.order[k]].insn) {
      assert NextInOrder(w.code, f, k);
    }
  }

  /** The operations behind a body of one operation. */
  lemma BehindOne(code: Code, f: TFun, k: nat, chunk: nat, rest: seq<TOp>)
    requires k + 1 < |f.order| && AtBody(code, f, f.order[k], chunk, rest, k) && |LayoutOf(f).Body(code, k, chunk)| == 1
    ensures rest != [] && rest[0] == LayoutOf(f).Body(code, k, chunk)[0]
    ensures At(code, f, f.order[k + 1], chunk, rest[1..])
  {
    hide Layout.From, Layout.Complete, Layout.Body;
    var y := LayoutOf(f);
    assert rest[1..] == y.From(code, k + 1, chunk);
  }

  /** The effect of a body on a local instruction, seen through the locals. */
  lemma BodyEffect(w: World, j: nat -> Frame, p: Policy, m: MState, insn: Insn, next: int, op: TOp)
    requires Junk(j) && m.ctl.Compiled? && |m.ctl.loc| == 9 && m.core.frames != [] && m.core.Top().Valid()
    requires m.ctl.rest != [] && m.ctl.rest[0] == op && Regs(insn) && IsLocal(insn)
    requires op == (if OpenCoded(insn) then Do(insn) else if insn == GcCheck then GcOp else SpillDo(insn, next))
    ensures var s, m2 := ExecLocal(w, View(m.core, m.ctl.loc, m.ctl.cmp), insn, next), MixedStep(w, j, p, m);
      if s.None? then m2.ctl == Lost
      else
        && m2.ctl.Compiled? && m2.ctl.f == m.ctl.f && m2.ctl.chunk == m.ctl.chunk && m2.ctl.rest == m.ctl.rest[1..]
        && |m2.ctl.loc| == 9 && m2.core.frames != [] && m2.core.Top().Valid() && m2.pend == m.pend
        && View(m2.core, m2.ctl.loc, m2.ctl.cmp) == s.value
  {
    hide View, ExecOpen, ExecLocal, MixedStep, OpenCoded, Regs, IsLocal;
    if OpenCoded(insn) {
      OpenEffect(w, j, p, m, insn, next);
    } else if insn == GcCheck {
      CheckNext(w, m, next);
      GcEffect(w, j, p, m);
    } else {
      SpillEffect(w, j, p, m, insn, next);
    }
  }

  lemma OpenEffect(w: World, j: nat -> Frame, p: Policy, m: MState, insn: Insn, next: int)
    requires Junk(j) && m.ctl.Compiled? && |m.ctl.loc| == 9 && m.core.frames != [] && m.core.Top().Valid()
    requires m.ctl.rest != [] && m.ctl.rest[0] == Do(insn) && Regs(insn) && IsLocal(insn) && OpenCoded(insn)
    ensures var s, m2 := ExecLocal(w, View(m.core, m.ctl.loc, m.ctl.cmp), insn, next), MixedStep(w, j, p, m);
      if s.None? then m2.ctl == Lost
      else
        && m2.ctl.Compiled? && m2.ctl.f == m.ctl.f && m2.ctl.chunk == m.ctl.chunk && m2.ctl.rest == m.ctl.rest[1..]
        && |m2.ctl.loc| == 9 && m2.core.frames != [] && m2.core.Top().Valid() && m2.pend == m.pend
        && View(m2.core, m2.ctl.loc, m2.ctl.cmp) == s.value
  {
    OpenIsLocal(w, m.core, m.ctl.loc, m.ctl.cmp, insn, next);
    hide ExecOpen, ExecLocal, View, OpenCoded;
  }

  lemma CheckNext(w: World, m: MState, next: int)
    requires m.ctl.Compiled? && |m.ctl.loc| == 9 && m.core.frames != [] && m.core.Top().Valid()
    ensures ExecLocal(w, View(m.core, m.ctl.loc, m.ctl.cmp), GcCheck, next) == ExecLocal(w, View(m.core, m.ctl.loc, m.ctl.cmp), GcCheck, 0) != None
  {
    hide View, Collect;
  }

  /** Spilled locals that are loaded again. */
  lemma Reloaded(c: Core, cmp: int)
    requires c.frames != [] && c.Top().Valid()
    ensures View(c, c.Top().home[..9], cmp) == c.(cmp := cmp)
  {
    assert c.Top().home[..9] + c.Top().home[9..] == c.Top().home;
    assert c.frames == c.frames[..|c.frames| - 1] + [c.Top()];
  }

  lemma GcEffect(w: World, j: nat -> Frame, p: Policy, m: MState)
    requires Junk(j) && m.ctl.Compiled? && |m.ctl.loc| == 9 && m.core.frames != [] && m.core.Top().Valid()
    requires m.ctl.rest != [] && m.ctl.rest[0] == GcOp
    ensures var s, m2 := ExecLocal(w, View(m.core, m.ctl.loc, m.ctl.cmp), GcCheck, 0), MixedStep(w, j, p, m);
      && m2.ctl.Compiled? && m2.ctl.f == m.ctl.f && m2.ctl.chunk == m.ctl.chunk && m2.ctl.rest == m.ctl.rest[1..]
      && |m2.ctl.loc| == 9 && m2.core.frames != [] && m2.core.Top().Valid() && m2.pend == m.pend
      && View(m2.core, m2.ctl.loc, m2.ctl.cmp) == s.value
  {
    var c, loc, cmp := m.core, m.ctl.loc, m.ctl.cmp;
    var e := Spill(c, loc);
    hide Collect;
    CollectFlags(w, e, cmp);
    if w.full(c.checks) {
      var b := Collect(w.move, e);
      assert e.checks == c.checks && b.frames != [] && b.checks == c.checks by { CollectChecks(w, e); }
      Reloaded(b.(checks := b.checks + 1), cmp);
    } else {
      assert View(c.(checks := c.checks + 1), loc, cmp) == View(c, loc, cmp).(checks := c.checks + 1);
    }
    hide Spill;
  }

  lemma CollectChecks(w: World, c: Core)
    requires c.frames != []
    ensures Collect(w.move, c).frames != [] && Collect(w.move, c).checks == c.checks
  {
  }

  /** Flags play no part in a collection. */
  lemma CollectFlags(w: World, c: Core, cmp: int)
    requires c.frames != [] && c.Top().Valid()
    ensures Collect(w.move, c.(cmp := cmp)) == Collect(w.move, c).(cmp := cmp) && Collect(w.move, c).Top().Valid()
  {
    assert Collect(w.move, c.(cmp := cmp)).frames == Collect(w.move, c).frames;
    assert Collect(w.move, c.(cmp := cmp)).hs.saved == Collect(w.move, c).hs.saved;
  }

  lemma SpillEffect(w: World, j: nat -> Frame, p: Policy, m: MState, insn: Insn, next: int)
    requires Junk(j) && m.ctl.Compiled? && |m.ctl.loc| == 9 && m.core.frames != [] && m.core.Top().Valid()
    requires m.ctl.rest != [] && m.ctl.rest[0] == SpillDo(insn, next)
    requires Regs(insn) && IsLocal(insn) && !OpenCoded(insn) && insn != GcCheck
    ensures var s, m2 := ExecLocal(w, View(m.core, m.ctl.loc, m.ctl.cmp), insn, next), MixedStep(w, j, p, m);
      && s.Some?
      && m2.ctl.Compiled? && m2.ctl.f == m.ctl.f && m2.ctl.chunk == m.ctl.chunk && m2.ctl.rest == m.ctl.rest[1..]
      && |m2.ctl.loc| == 9 && m2.core.frames != [] && m2.core.Top().Valid() && m2.pend == m.pend
      && View(m2.core, m2.ctl.loc, m2.ctl.cmp) == s.value
  {
    var c, loc, cmp := m.core, m.ctl.loc, m.ctl.cmp;
    var e := Spill(c, loc);
    var r := ExecLocal(w, e, insn, next).value;
    SpillFlags(w, e, insn, next, cmp);
    Reloaded(r, cmp);
  }

  /** Delegated instructions neither read nor write the flags. */
  lemma SpillFlags(w: World, e: Core, insn: Insn, next: int, cmp: int)
    requires e.frames != [] && e.Top().Valid() && Regs(insn) && IsLocal(insn) && !OpenCoded(insn) && insn != GcCheck
    ensures var r, s := ExecLocal(w, e, insn, next), ExecLocal(w, e.(cmp := cmp), insn, next);
      r.Some? && s.Some? && s.value == r.value.(cmp := cmp)
  {
  }

  lemma BodyLocal(w: World, w': World, j: nat -> Frame, j': nat -> Frame, e: Same, e': Same, d: Cert, p: Policy, i: IState, m: MState, k: nat)
    requires Setup(w, d, p) && SameProgram(w, w') && Junk(j) && Junk(j') && BodyRel(w, e, d, p, i, m, k)
    requires i.pc in w.code && IsLocal(w.code[i.pc].insn) && BlindStep(w, w', e, e', d, i)
    ensures Outcome(w, e', d, p, Step(w, j, i), MixedStep(w', j', p, m))
  {
    hide MixedStep, CoreRel, Rule, ExecLocal, View, Layout.Complete, Layout.From, Setup, BlindAt;
    BodyAt(w, e, d, p, i, m, k);
    var insn, next := w.code[i.pc].insn, i.pc + w.code[i.pc].len;
    var v := View(m.core, m.ctl.loc, m.ctl.cmp);
    RuleRegs(w, d, i.pc);
    CoreLocal(w, w', e, e', d, p, i.pc, i.core, v, true, m.pend);
    assert |LayoutOf(m.ctl.f).Body(w.code, k, m.ctl.chunk)| == 1;
    BehindOne(w.code, m.ctl.f, k, m.ctl.chunk, m.ctl.rest);
    BodyEffect(w', j', p, m, insn, next, m.ctl.rest[0]);
    hide Layout.Body;
  }

  function GuardOf(insn: Insn): Guard {
    match insn
    case BranchIf(c, _) => If(c)
    case BranchNil(s, sense, _) => IfNil(s, sense)
    case _ => Always
  }

  predicate IsBranch(insn: Insn) {
    insn.Branch? || insn.BranchIf? || insn.BranchNil?
  }

  /** Both tiers decide a branch alike. */
  lemma GuardSame(w: World, w': World, e: Same, x: Live, order: bool, a: Core, c: Core, loc: seq<Word>, cmp: int, insn: Insn)
    requires c.frames != [] && c.Top().Valid() && |loc| == 9 && SameTop(e, x, a, View(c, loc, cmp))
    requires IsBranch(insn) && Regs(insn) && Reads(x, insn) && Blind(w, w', e, order, a, insn)
    ensures TTaken(c, loc, cmp, GuardOf(insn)) == Taken(a, insn)
  {
    match insn
    case BranchNil(s, _, _) =>
      ViewGet(c, loc, cmp, s);
      GetSame(e, x, a, View(c, loc, cmp), s);
    case _ =>
  }

  /** A jump to the block of t, inside the chunk or out of it. */
  lemma JumpRel(w: World, w': World, j: nat -> Frame, e: Same, d: Cert, p: Policy, a: Core, m: MState, g: Guard, t: int)
    requires Setup(w, d, p) && Junk(j) && TransRel(e, d, p, t, a, m) && LayoutOf(m.ctl.f).Complete(w.code)
    requires t in m.ctl.f.labels && m.ctl.rest != [] && m.ctl.rest[0] == LayoutOf(m.ctl.f).Jump(g, t, m.ctl.chunk)
    requires m.ctl.chunk < |m.ctl.f.chunks| && (g.IfNil? ==> g.s <= VR) && TTaken(m.core, m.ctl.loc, m.ctl.cmp, g)
    ensures Rel(w, e, d, p, IState(a, t), MixedStep(w', j, p, m))
  {
    hide Paired, Match, InFn, SameTop, Setup, Layout.From, TTaken, View, Begin, Loaded, Layout.Complete, Find, MixedStep, Layout.Jump;
    var f, l := m.ctl.f, m.ctl.f.labels[t];
    CompleteLabel(w.code, f, t);
    MixedJump(w', j, p, m, g, t);
    if f.chunkOf[l] == m.ctl.chunk {
      LabelLeads(w, d, p, a.Top().fn, t);
    } else {
      LeaveRel(w, e, d, p, t, a, m, l);
    }
  }

  lemma MixedJump(w: World, j: nat -> Frame, p: Policy, m: MState, g: Guard, t: int)
    requires Junk(j) && m.ctl.Compiled? && |m.ctl.loc| == 9 && m.core.frames != [] && m.core.Top().Valid() && m.ctl.chunk < |m.ctl.f.chunks|
    requires t in m.ctl.f.labels && m.ctl.f.labels[t] in m.ctl.f.chunkOf && m.ctl.rest != []
    requires m.ctl.rest[0] == LayoutOf(m.ctl.f).Jump(g, t, m.ctl.chunk) && (g.IfNil? ==> g.s <= VR) && TTaken(m.core, m.ctl.loc, m.ctl.cmp, g)
    ensures var f, l, b := m.ctl.f, m.ctl.f.labels[t], Spill(m.core, m.ctl.loc);
      MixedStep(w, j, p, m) == if f.chunkOf[l] == m.ctl.chunk then m.(ctl := m.ctl.(rest := Find(f.chunks[m.ctl.chunk], l)))
                               else MState(b, Begin(f, l, b.Top().home), m.pend)
  {
    hide Find, Begin, Spill, TTaken;
  }

  lemma CompleteLabel(code: Code, f: TFun, t: int)
    requires LayoutOf(f).Complete(code) && t in f.labels
    ensures f.labels[t] in f.chunkOf
  {
  }

  lemma LabelLeads(w: World, d: Cert, p: Policy, fn: int, t: int)
    requires Setup(w, d, p) && fn in p.funs && t in p.funs[fn].labels
    ensures var f := p.funs[fn]; var l := f.labels[t];
      l in f.chunkOf && f.chunkOf[l] < |f.chunks| && At(w.code, f, t, f.chunkOf[l], Find(f.chunks[f.chunkOf[l]], l))
  {
    hide Find, Layout.From, Succs, NextInOrder, BlockOf;
    var f := p.funs[fn];
    assert Usable(w, fn, f);
    var k :| 0 <= k < |f.order| && f.order[k] == t;
    assert Leads(w.code, f, k);
    assert LayoutOf(f).Complete(w.code);
    hide Layout.Complete, Translated;
  }

  /** What the certificate says about a branch that is taken or not. */
  lemma BranchRule(w: World, d: Cert, pc: int, a: Core)
    requires pc in w.code && pc in d && Rule(w, d, pc) && IsBranch(w.code[pc].insn)
    requires a.frames != [] && a.Top().Valid()
    ensures var insn, next := w.code[pc].insn, pc + w.code[pc].len;
      && Regs(insn) && Reads(d[pc], insn)
      && var q := if Taken(a, insn) then Goal(insn) else next;
         q in Succs(w.code, pc) && Arrives(d, q, d[pc].Unflagged())
  {
  }

  lemma BranchBody(code: Code, f: TFun, k: nat, chunk: nat)
    requires LayoutOf(f).Complete(code) && k < |f.order| && IsBranch(code[f.order[k]].insn)
    ensures var insn, body := code[f.order[k]].insn, LayoutOf(f).Body(code, k, chunk);
      && Goal(insn) in f.labels && body != [] && body[0] == LayoutOf(f).Jump(GuardOf(insn), Goal(insn), chunk)
      && (!insn.Branch? ==> |body| == 1)
  {
    assert Goal(code[f.order[k]].insn) in Blocks(code, f.order[k]);
  }

  lemma BodyBranch(w: World, w': World, j: nat -> Frame, j': nat -> Frame, e: Same, d: Cert, p: Policy, i: IState, m: MState, k: nat)
    requires Setup(w, d, p) && SameProgram(w, w') && Junk(j) && Junk(j') && BlindStep(w, w', e, e, d, i) && BodyRel(w, e, d, p, i, m, k)
    requires i.pc in w.code && IsBranch(w.code[i.pc].insn)
    ensures Outcome(w, e, d, p, Step(w, j, i), MixedStep(w', j', p, m))
  {
    hide MixedStep, CoreRel, Rule, View, Layout.Complete, Layout.From, Layout.Body, Layout.Jump, Setup, Reads, Taken, TTaken, Succs, Arrives;
    BodyAt(w, e, d, p, i, m, k);
    var insn, next, a := w.code[i.pc].insn, i.pc + w.code[i.pc].len, i.core;
    var f, v := m.ctl.f, View(m.core, m.ctl.loc, m.ctl.cmp);
    BranchRule(w, d, i.pc, a);
    BranchBody(w.code, f, k, m.ctl.chunk);
    CoreSame(e, d, p, i.pc, a, v, m.pend);
    GuardSame(w, w', e, d[i.pc], Ordered(d, next), a, m.core, m.ctl.loc, m.ctl.cmp, insn);
    var q := if Taken(a, insn) then Goal(insn) else next;
    CoreGoto(w, e, d, p, i.pc, q, a, v, v, true, m.pend);
    assert TransRel(e, d, p, q, a, m);
    BodyFirst(w.code, f, k, m.ctl.chunk, m.ctl.rest);
    if Taken(a, insn) {
      JumpRel(w, w', j', e, d, p, a, m, GuardOf(insn), q);
    } else {
      NotTaken(a, insn);
      BehindOne(w.code, f, k, m.ctl.chunk, m.ctl.rest);
      CompleteLabel(w.code, f, Goal(insn));
      BranchPast(w', j', p, m, GuardOf(insn), Goal(insn));
    }
    StepBranch(w, j, i);
  }

  lemma StepBranch(w: World, j: nat -> Frame, i: IState)
    requires Junk(j) && i.core.frames != [] && i.core.Top().Valid() && i.pc in w.code && Regs(w.code[i.pc].insn) && IsBranch(w.code[i.pc].insn)
    ensures Step(w, j, i) == Some(IState(i.core, if Taken(i.core, w.code[i.pc].insn) then Goal(w.code[i.pc].insn) else i.pc + w.code[i.pc].len))
  {
  }

  lemma NotTaken(a: Core, insn: Insn)
    requires a.frames != [] && a.Top().Valid() && Regs(insn) && IsBranch(insn) && !Taken(a, insn)
    ensures !insn.Branch? && !Ends(insn)
  {
  }

  lemma CoreSame(e: Same, d: Cert, p: Policy, pc: int, a: Core, v: Core, pend: seq<Item>)
    requires CoreRel(e, d, p, pc, a, v, true, pend) && pc in d
    ensures SameTop(e, d[pc], a, v)
  {
  }

  lemma BodyFirst(code: Code, f: TFun, k: nat, chunk: nat, rest: seq<TOp>)
    requires k < |f.order| && AtBody(code, f, f.order[k], chunk, rest, k) && LayoutOf(f).Body(code, k, chunk) != []
    ensures rest != [] && rest[0] == LayoutOf(f).Body(code, k, chunk)[0] && chunk < |f.chunks|
  {
    hide Layout.From, Layout.Complete, Layout.Body;
  }

  /** A branch that is not taken. */
  lemma BranchPast(w: World, j: nat -> Frame, p: Policy, m: MState, g: Guard, t: int)
    requires Junk(j) && m.ctl.Compiled? && |m.ctl.loc| == 9 && m.core.frames != [] && m.core.Top().Valid()
    requires t in m.ctl.f.labels && m.ctl.f.labels[t] in m.ctl.f.chunkOf && m.ctl.chunk < |m.ctl.f.chunks|
    requires m.ctl.rest != [] && m.ctl.rest[0] == LayoutOf(m.ctl.f).Jump(g, t, m.ctl.chunk)
    requires (g.IfNil? ==> g.s <= VR) && !TTaken(m.core, m.ctl.loc, m.ctl.cmp, g)
    ensures MixedStep(w, j, p, m) == m.(ctl := m.ctl.(rest := m.ctl.rest[1..]))
  {
    hide Find, Begin, TTaken;
  }

  // ---- calls, returns and longjmps of translated code --------------------------------------

  /** Spilling V0-V4 only, or everything, leaves the view but for V5-V8. */
  lemma SpillHalf(c: Core, loc: seq<Word>, cmp: int)
    requires c.frames != [] && c.Top().Valid() && |loc| == 9
    ensures HalfSpilled(View(c, loc, cmp), Spill5(c, loc)) && HalfSpilled(View(c, loc, cmp), Spill(c, loc))
  {
    var home := c.Top().home;
    assert (loc[..5] + home[5..])[..5] == loc[..5] == (loc + home[9..])[..5];
    assert (loc[..5] + home[5..])[9..] == home[9..] == (loc + home[9..])[9..];
  }

  /** The first frame of a callee in the tier chosen for it. */
  lemma StartRel(w: World, e: Same, d: Cert, p: Policy, t: int, a: Core, b: Core, trans: bool, pend: seq<Item>)
    requires Setup(w, d, p) && CoreRel(e, d, p, t, a, b, trans, pend) && a.Top().fn == t && t in w.entries
    requires trans ==> t in p.funs
    ensures b.frames != [] && b.Top().Valid()
    ensures Rel(w, e, d, p, IState(a, t), MState(b, if trans then Begin(p.funs[t], 0, b.Top().home) else Interpreting(t), pend))
  {
    hide Begin, Layout.From, Layout.Complete, Leads, NextInOrder;
    CoreTops(e, d, p, t, a, b, trans, pend);
    if trans {
      assert Usable(w, t, p.funs[t]);
      BeginRel(w, e, d, p, t, a, b, pend);
    }
  }

  /** What the pending work must record when a call at pc is made. */
  ghost predicate Marked(p: Policy, fn: int, ret: int, n: nat, trans: bool, mark: Item) {
    if trans then fn in p.funs && ret in p.funs[fn].labels && mark == Cont(p.funs[fn], p.funs[fn].labels[ret], n)
    else mark == DriveCall(ret)
  }

  /** A call, from either tier into either tier. */
  lemma CallRel(w: World, e: Same, d: Cert, p: Policy, pc: int, a: Core, v: Core, b: Core, trans: bool, pend: seq<Item>, t: int, j: Frame, j': Frame, mark: Item, into: bool)
    requires Setup(w, d, p) && CoreRel(e, d, p, pc, a, v, trans, pend) && Calls(w, d, pc, t)
    requires HalfSpilled(v, b) && j.Valid() && j'.Valid() && (into ==> t in p.funs)
    requires Marked(p, a.Top().fn, pc + w.code[pc].len, |a.frames|, trans, mark)
    ensures a.Top().Valid() && b.Top().Valid()
    ensures var next := pc + w.code[pc].len;
      var plain := !trans && !into;
      var b' := Enter(j', b, t, if plain then next else SENTINEL);
      var q := if plain then pend else if into then pend + [mark] else pend + [mark] + [Nested(|a.frames| + 1)];
      b'.Top().Valid() && Rel(w, e, d, p, IState(Enter(j, a, t, next), t), MState(b', if into then Begin(p.funs[t], 0, b'.Top().home) else Interpreting(t), q))
  {
    hide Setup, Begin, Match, Paired, Suspended, NewFrame, Passes, SameTop, HalfSpilled;
    HalfTop(v, b);
    CoreTops(e, d, p, pc, a, v, trans, pend);
    var next := pc + w.code[pc].len;
    var r := if !trans && !into then next else SENTINEL;
    CoreCall(w, e, d, p, pc, a, v, b, trans, pend, t, j, j', r);
    var a', b' := Enter(j, a, t, next), Enter(j', b, t, r);
    var f, g := NewFrame(j, a.Top(), t, next, a.calls + 1), NewFrame(j', b.Top(), t, r, b.calls + 1);
    EnterFrames(j, a, t, next);
    EnterFrames(j', b, t, r);
    if !trans && !into {
      MatchCall(e, d, p, a.frames, b.frames, f, g, pend);
      assert CoreRel(e, d, p, t, a', b', false, pend);
      StartRel(w, e, d, p, t, a', b', false, pend);
    } else {
      MatchCallTrans(e, d, p, a.frames, b.frames, f, g, trans, pend, mark);
      var q := if into then pend + [mark] else pend + [mark] + [Nested(|a.frames| + 1)];
      assert CoreRel(e, d, p, t, a', b', into, q);
      StartRel(w, e, d, p, t, a', b', into, q);
    }
  }

  lemma EnterFrames(j: Frame, c: Core, t: int, r: int)
    requires c.frames != [] && c.Top().Valid() && j.Valid()
    ensures var f := NewFrame(j, c.Top(), t, r, c.calls + 1);
      Enter(j, c, t, r).frames == c.frames + [f] && f.ret == r && f.Valid() && Enter(j, c, t, r).Top() == f
  {
  }

  lemma CallLabel(w: World, e: Same, d: Cert, p: Policy, f: TFun, k: nat, chunk: nat)
    requires LayoutOf(f).Complete(w.code) && k < |f.order|
    requires w.code[f.order[k]].insn.Call? || w.code[f.order[k]].insn.CallInd?
    ensures var insn, next, body := w.code[f.order[k]].insn, f.order[k] + w.code[f.order[k]].len, LayoutOf(f).Body(w.code, k, chunk);
      next in f.labels && body == [CallOp(if insn.Call? then Direct(insn.t) else Through(insn.s), f.labels[next]), Fell]
  {
    assert f.order[k] + w.code[f.order[k]].len in Blocks(w.code, f.order[k]);
  }

  lemma BodyCall(w: World, w': World, j: nat -> Frame, j': nat -> Frame, e: Same, d: Cert, p: Policy, i: IState, m: MState, k: nat)
    requires Setup(w, d, p) && SameProgram(w, w') && Junk(j) && Junk(j') && BlindStep(w, w', e, e, d, i) && BodyRel(w, e, d, p, i, m, k)
    requires i.pc in w.code && (w.code[i.pc].insn.Call? || (w.code[i.pc].insn.CallInd? && !Raises(w, i)))
    ensures Outcome(w, e, d, p, Step(w, j, i), MixedStep(w', j', p, m))
  {
    hide CoreRel, View, Layout.Complete, Layout.From, Layout.Body, Setup, Enter, Begin, Spill5, Spill, Step, MixedStep, SameTop;
    BodyAt(w, e, d, p, i, m, k);
    var insn, next, a := w.code[i.pc].insn, i.pc + w.code[i.pc].len, i.core;
    var f, c := m.ctl.f, m.core;
    var v, b := View(c, m.ctl.loc, m.ctl.cmp), Spill5(c, m.ctl.loc);
    CallLabel(w, e, d, p, f, k, m.ctl.chunk);
    BodyFirst(w.code, f, k, m.ctl.chunk, m.ctl.rest);
    SpillHalf(c, m.ctl.loc, m.ctl.cmp);
    SpillCounts(c, m.ctl.loc);
    if insn.CallInd? { SameTarget(w, w', e, d, p, i, m, k); }
    hide BlindStep, Calls;
    var t := if insn.Call? then insn.t else FnTarget(a.Get(insn.s)).value;
    StepCalls(w, j, i, t);
    MixedCalls(w', j', p, m, t);
    hide Rule, FnTarget;
    if t in w.entries {
      CallsBy(w, w', e, d, i, t);
      CallRel(w, e, d, p, i.pc, a, v, b, true, m.pend, t, j(a.calls), j'(c.calls), Cont(f, f.labels[next], |c.frames|), p.Uses(c.calls, t));
    }
  }

  /** An indirect call goes to the same function in both. */
  lemma SameTarget(w: World, w': World, e: Same, d: Cert, p: Policy, i: IState, m: MState, k: nat)
    requires Setup(w, d, p) && BlindStep(w, w', e, e, d, i) && BodyRel(w, e, d, p, i, m, k)
    requires i.pc in w.code && w.code[i.pc].insn.CallInd?
    ensures i.core.frames != [] && i.core.Top().Valid() && m.core.frames != [] && m.core.Top().Valid() && |m.ctl.loc| == 9 && w.code[i.pc].insn.s <= VR
    ensures FnTarget(TGet(m.core, m.ctl.loc, w.code[i.pc].insn.s)) == FnTarget(i.core.Get(w.code[i.pc].insn.s))
  {
    hide CoreRel, View, Layout.Complete, Layout.From, Layout.Body, FnTarget;
    BodyAt(w, e, d, p, i, m, k);
    hide Setup, SameTop;
    var s, v := w.code[i.pc].insn.s, View(m.core, m.ctl.loc, m.ctl.cmp);
    CoreSame(e, d, p, i.pc, i.core, v, m.pend);
    GetSame(e, d[i.pc], i.core, v, s);
    ViewGet(m.core, m.ctl.loc, m.ctl.cmp, s);
  }

  /** A call, as the interpreter makes it. */
  lemma StepCalls(w: World, j: nat -> Frame, i: IState, t: int)
    requires Junk(j) && i.core.frames != [] && i.core.Top().Valid() && i.pc in w.code && Regs(w.code[i.pc].insn)
    requires w.code[i.pc].insn == Call(t) || (w.code[i.pc].insn.CallInd? && FnTarget(i.core.Get(w.code[i.pc].insn.s)) == Some(t))
    ensures Step(w, j, i) == if t in w.entries then Some(IState(Enter(j(i.core.calls), i.core, t, i.pc + w.code[i.pc].len), t)) else None
  {
    hide Enter, FnTarget;
  }

  /** The same call, as translated code and its driver make it. */
  lemma MixedCalls(w: World, j: nat -> Frame, p: Policy, m: MState, t: int)
    requires Junk(j) && m.ctl.Compiled? && |m.ctl.loc| == 9 && m.core.frames != [] && m.core.Top().Valid()
    requires m.ctl.rest != [] && m.ctl.rest[0].CallOp?
    requires match m.ctl.rest[0].f
      case Direct(u) => u == t
      case Through(s) => s <= VR && FnTarget(TGet(m.core, m.ctl.loc, s)) == Some(t)
    ensures var into, l := p.Uses(m.core.calls, t), m.ctl.rest[0].l;
      var b := Enter(j(m.core.calls), Spill5(m.core, m.ctl.loc), t, SENTINEL);
      var q := m.pend + [Cont(m.ctl.f, l, |m.core.frames|)];
      MixedStep(w, j, p, m) ==
        if t !in w.entries then MState(m.core, Lost, m.pend)
        else MState(b, if into then Begin(p.funs[t], 0, b.Top().home) else Interpreting(t), if into then q else q + [Nested(|m.core.frames| + 1)])
  {
    hide Begin, NewFrame, FnTarget;
    assert m.pend + [Cont(m.ctl.f, m.ctl.rest[0].l, |m.core.frames|)] + [] == m.pend + [Cont(m.ctl.f, m.ctl.rest[0].l, |m.core.frames|)];
  }

  lemma SpillCounts(c: Core, loc: seq<Word>)
    requires c.frames != [] && c.Top().Valid() && |loc| == 9
    ensures Spill5(c, loc).calls == Spill(c, loc).calls == c.calls && |Spill5(c, loc).frames| == |Spill(c, loc).frames| == |c.frames|
  {
  }

  /** The instruction at pc jumps to the armed handler: a longjmp, or a fault
      that is raised as one. */
  predicate Raises(w: World, i: IState) {
    i.pc in w.code && i.core.frames != [] && i.core.Top().Valid() && Regs(w.code[i.pc].insn) &&
    match w.code[i.pc].insn
    case Longjmp => true
    case CallInd(s) => FnTarget(i.core.Get(s)) == None
    case _ => false
  }

  /** Every longjmp can reach its target. */
  predicate JumpsWell(w: World, i: IState, m: MState) {
    Raises(w, i) && Armed(i.core) ==> Reachable(m.core.frames, m.ctl.Compiled?, m.pend, i.core.hs.cur.value.depth)
  }

  /** A tail call, from either tier into either tier. */
  lemma TailRel(w: World, e: Same, d: Cert, p: Policy, pc: int, a: Core, v: Core, b: Core, trans: bool, pend: seq<Item>, t: int, j: Frame, j': Frame, into: bool)
    requires Setup(w, d, p) && CoreRel(e, d, p, pc, a, v, trans, pend) && pc in w.code && w.code[pc].insn == Tail(t) && t in w.entries
    requires HalfSpilled(v, b) && j.Valid() && j'.Valid() && (into ==> t in p.funs)
    ensures a.Top().Valid() && b.Top().Valid()
    ensures var b' := Replace(j', b, t);
      var q := if trans == into then pend else if trans then pend + [Nested(|a.frames|)] else pend + [DriveTail];
      b'.Top().Valid() && Rel(w, e, d, p, IState(Replace(j, a, t), t), MState(b', if into then Begin(p.funs[t], 0, b'.Top().home) else Interpreting(t), q))
  {
    hide Setup, Begin, Match, Paired, NewFrame;
    CoreTail(w, e, d, p, pc, a, v, b, trans, pend, t, j, j');
    var a', b' := Replace(j, a, t), Replace(j', b, t);
    CoreTops(e, d, p, t, a', b', trans, pend);
    var q := if trans == into then pend else if trans then pend + [Nested(|a.frames|)] else pend + [DriveTail];
    MatchTail(e, d, p, a'.frames, b'.frames, trans, pend);
    StartRel(w, e, d, p, t, a', b', into, q);
  }

  lemma BodyTail(w: World, w': World, j: nat -> Frame, j': nat -> Frame, e: Same, d: Cert, p: Policy, i: IState, m: MState, k: nat)
    requires Setup(w, d, p) && SameProgram(w, w') && Junk(j) && Junk(j') && BlindStep(w, w', e, e, d, i) && BodyRel(w, e, d, p, i, m, k)
    requires i.pc in w.code && w.code[i.pc].insn.Tail?
    ensures Outcome(w, e, d, p, Step(w, j, i), MixedStep(w', j', p, m))
  {
    hide CoreRel, View, Layout.Complete, Layout.From, Setup, Replace, Begin, Spill5, Spill;
    BodyAt(w, e, d, p, i, m, k);
    var t := w.code[i.pc].insn.t;
    BodyFirst(w.code, m.ctl.f, k, m.ctl.chunk, m.ctl.rest);
    SpillHalf(m.core, m.ctl.loc, m.ctl.cmp);
    SpillCounts(m.core, m.ctl.loc);
    hide HalfSpilled;
    if t in w.entries {
      TailRel(w, e, d, p, i.pc, i.core, View(m.core, m.ctl.loc, m.ctl.cmp), Spill5(m.core, m.ctl.loc), true, m.pend, t,
              j(i.core.calls), j'(m.core.calls), p.Uses(m.core.calls, t));
      NoMark(m.pend, m.pend + [Nested(|m.core.frames|)]);
    }
  }

  lemma NoMark(p: seq<Item>, q: seq<Item>)
    ensures p + [] == p && q + [] == q
  {
  }

  lemma BodyRet(w: World, w': World, j: nat -> Frame, j': nat -> Frame, e: Same, d: Cert, p: Policy, i: IState, m: MState, k: nat)
    requires Setup(w, d, p) && SameProgram(w, w') && Junk(j) && Junk(j') && BlindStep(w, w', e, e, d, i) && BodyRel(w, e, d, p, i, m, k)
    requires i.pc in w.code && w.code[i.pc].insn.Ret?
    ensures Outcome(w, e, d, p, Step(w, j, i), MixedStep(w', j', p, m))
  {
    hide CoreRel, Layout.Complete, Layout.From, Setup, Land, Lands, Spill;
    BodyAt(w, e, d, p, i, m, k);
    BodyFirst(w.code, m.ctl.f, k, m.ctl.chunk, m.ctl.rest);
    var v := View(m.core, m.ctl.loc, m.ctl.cmp);
    CoreRet(e, d, p, i.pc, i.core, v, true, m.pend);
    SpillPop(m.core, m.ctl.loc);
    assert Lands(e, d, p, i.core.Top().ret, PopFrame(i.core), PopFrame(m.core).(cmp := m.ctl.cmp), ReturnDriver(m.core.Top().ret, m.pend));
    hide ReturnDriver;
    LandsFlags(e, d, p, i.core.Top().ret, PopFrame(i.core), PopFrame(m.core).(cmp := m.ctl.cmp), PopFrame(m.core), ReturnDriver(m.core.Top().ret, m.pend));
    LandRel(w, e, d, p, i.core.Top().ret, PopFrame(i.core), PopFrame(m.core), ReturnDriver(m.core.Top().ret, m.pend));
  }

  lemma SpillPop(c: Core, loc: seq<Word>)
    requires c.frames != [] && c.Top().Valid() && |loc| == 9
    ensures PopFrame(Spill(c, loc)) == PopFrame(c) && Spill(c, loc).Top().ret == c.Top().ret
  {
    assert Spill(c, loc).frames[..|c.frames| - 1] == c.frames[..|c.frames| - 1];
  }

  /** Flags are dead wherever control comes back to translated code. */
  lemma LandsFlags(e: Same, d: Cert, p: Policy, pc: int, a: Core, b: Core, b': Core, to: Landing)
    requires Lands(e, d, p, pc, a, b, to) && b' == b.(cmp := b'.cmp)
    requires to.ToInterp? && pc in d ==> !d[pc].flags
    ensures Lands(e, d, p, pc, a, b', to)
  {
    hide Match;
    if to.ToInterp? || to.ToTrans? {
      PairedFlags(e, d, p, a, b, b');
    }
  }

  /** A longjmp out of translated code, or a faulting indirect call. */
  lemma BodyThrow(w: World, w': World, j: nat -> Frame, j': nat -> Frame, e: Same, d: Cert, p: Policy, i: IState, m: MState, k: nat)
    requires Setup(w, d, p) && SameProgram(w, w') && Junk(j) && Junk(j') && BlindStep(w, w', e, e, d, i) && BodyRel(w, e, d, p, i, m, k)
    requires Raises(w, i)
    ensures Outcome(w, e, d, p, Step(w, j, i), MixedStep(w', j', p, m)) <==> JumpsWell(w, i, m)
  {
    hide CoreRel, Layout.Complete, Layout.From, Setup, Land, Lands, Spill, Spill5, View, Restore, ThrowTranslated, Armed;
    BodyAt(w, e, d, p, i, m, k);
    var insn, a, c := w.code[i.pc].insn, i.core, m.core;
    var v, b := View(c, m.ctl.loc, m.ctl.cmp), if insn.Longjmp? then Spill(c, m.ctl.loc) else Spill5(c, m.ctl.loc);
    CallLabelOrNot(w, e, d, p, m, k);
    BodyFirst(w.code, m.ctl.f, k, m.ctl.chunk, m.ctl.rest);
    SpillHalf(c, m.ctl.loc, m.ctl.cmp);
    SpillCounts(c, m.ctl.loc);
    if insn.CallInd? {
      CoreSame(e, d, p, i.pc, a, v, m.pend);
      GetSame(e, d[i.pc], a, v, insn.s);
      ViewGet(c, m.ctl.loc, m.ctl.cmp, insn.s);
    }
    MixedThrows(w', j', p, m);
    StepThrows(w, j, i);
    hide Rule, FnTarget, MixedStep, Step, ThrowFrom;
    ThrowRel(w, e, d, p, i, a, v, b, m);
  }

  lemma CallLabelOrNot(w: World, e: Same, d: Cert, p: Policy, m: MState, k: nat)
    requires m.ctl.Compiled? && LayoutOf(m.ctl.f).Complete(w.code) && k < |m.ctl.f.order|
    ensures var insn, body := w.code[m.ctl.f.order[k]].insn, LayoutOf(m.ctl.f).Body(w.code, k, m.ctl.chunk);
      && (insn.CallInd? ==> |body| == 2 && body[0].CallOp? && body[0].f == Through(insn.s))
      && (insn.Longjmp? ==> |body| == 1 && body[0].SpillDo? && body[0].insn == Longjmp)
  {
  }

  lemma MixedThrows(w: World, j: nat -> Frame, p: Policy, m: MState)
    requires Junk(j) && m.ctl.Compiled? && |m.ctl.loc| == 9 && m.core.frames != [] && m.core.Top().Valid() && m.ctl.rest != []
    ensures var op := m.ctl.rest[0];
      && (op.SpillDo? && op.insn == Longjmp ==> MixedStep(w, j, p, m) == ThrowFrom(m, Spill(m.core, m.ctl.loc)))
      && (op.CallOp? && op.f.Through? && op.f.s <= VR && FnTarget(TGet(m.core, m.ctl.loc, op.f.s)) == None
          ==> MixedStep(w, j, p, m) == ThrowFrom(m, Spill5(m.core, m.ctl.loc)))
  {
    hide ThrowFrom;
  }

  lemma StepThrows(w: World, j: nat -> Frame, i: IState)
    requires Junk(j) && Raises(w, i)
    ensures Step(w, j, i) == Jump(i.core)
  {
  }

  lemma ThrowRel(w: World, e: Same, d: Cert, p: Policy, i: IState, a: Core, v: Core, b: Core, m: MState)
    requires Setup(w, d, p) && TransRel(e, d, p, i.pc, a, m) && v == View(m.core, m.ctl.loc, m.ctl.cmp) && HalfSpilled(v, b) && e(Tee(), Tee())
    ensures Outcome(w, e, d, p, Jump(a), ThrowFrom(m, b)) <==>
            (Armed(a) ==> Reachable(m.core.frames, true, m.pend, a.hs.cur.value.depth))
  {
    hide Setup, Land, Lands, Restore, ThrowTranslated, ThrowDriver, Reachable, Match, HandlersOk;
    CoreTops(e, d, p, i.pc, a, v, true, m.pend);
    HalfSpilledPaired(e, d, p, i.pc, a, v, b, true, m.pend);
    ArmedSame(e, a, b);
    if Armed(a) {
      var h := a.hs.cur.value;
      assert v.frames == m.core.frames[..|m.core.frames| - 1] + [v.Top()];
      ReachableTop(m.core.frames, v.Top(), true, m.pend, h.depth);
      if Reachable(m.core.frames, true, m.pend, h.depth) {
        CoreThrow(e, d, p, i.pc, a, v, b, true, m.pend, m.ctl.f);
        LandRel(w, e, d, p, h.ip, Restore(a), Restore(b), ThrowTranslated(b.hs.cur.value, m.ctl.f, |b.frames|, m.pend));
      } else {
        ThrowAstray(w, e, d, p, i.pc, a, v, b, true, m.pend, m.ctl.f);
      }
    }
  }

  lemma ArmedSame(e: Same, a: Core, b: Core)
    requires SameRest(e, a, b) && AllAlike(e, a.frames, b.frames)
    ensures Armed(a) <==> Armed(b)
  {
    if a.hs.cur.Some? && 0 < a.hs.cur.value.depth <= |a.frames| {
      assert Alike(e, a.frames[a.hs.cur.value.depth - 1], b.frames[a.hs.cur.value.depth - 1]);
    }
  }

  // ---- one instruction of interpreted code -----------------------------------------------

  lemma SelfHalf(v: Core)
    requires v.frames != [] && v.Top().Valid()
    ensures HalfSpilled(v, v)
  {
  }

  /** Whatever an interpreted activation does, both machines do. */
  lemma InterpStep(w: World, w': World, j: nat -> Frame, j': nat -> Frame, e: Same, e': Same, d: Cert, p: Policy, i: IState, m: MState)
    requires Setup(w, d, p) && SameProgram(w, w') && Junk(j) && Junk(j') && BlindStep(w, w', e, e', d, i) && i.core.frames != [] && m.ctl == Interpreting(i.pc)
    requires CoreRel(e, d, p, i.pc, i.core, m.core, false, m.pend)
    ensures Outcome(w, e', d, p, Step(w, j, i), MixedStep(w', j', p, m)) <==> JumpsWell(w, i, m)
  {
    hide CoreRel, Setup, Land, Lands, Restore, Reachable, ExecLocal, Rule, Armed, FnTarget, Enter, Replace;
    CoreTops(e, d, p, i.pc, i.core, m.core, false, m.pend);
    if i.pc in w.code {
      var a, v, insn, next := i.core, m.core, w.code[i.pc].insn, i.pc + w.code[i.pc].len;
      InterpRule(w, e, d, p, i.pc, a, v, m.pend);
      SelfHalf(v);
      if IsLocal(insn) {
        CoreLocal(w, w', e, e', d, p, i.pc, a, v, false, m.pend);
      } else if IsBranch(insn) {
        InterpBranch(w, w', j, j', e, d, p, i, m);
      } else if Raises(w, i) {
        InterpThrow(w, w', j, j', e, d, p, i, m);
      } else if insn.Ret? {
        CoreRet(e, d, p, i.pc, a, v, false, m.pend);
        LandRel(w, e, d, p, a.Top().ret, PopFrame(a), PopFrame(v), ReturnInterp(v.Top().ret, m.pend));
      } else if insn.Tail? {
        InterpTail(w, w', j, j', e, d, p, i, m);
      } else {
        InterpCall(w, w', j, j', e, d, p, i, m);
      }
    }
  }

  lemma InterpRule(w: World, e: Same, d: Cert, p: Policy, pc: int, a: Core, v: Core, pend: seq<Item>)
    requires Setup(w, d, p) && CoreRel(e, d, p, pc, a, v, false, pend) && pc in w.code
    ensures pc in d && Rule(w, d, pc) && Regs(w.code[pc].insn) && Reads(d[pc], w.code[pc].insn) && SameTop(e, d[pc], a, v)
  {
    hide Match, Paired;
    RuleAt(w, d, pc);
  }

  lemma TakenSame(w: World, w': World, e: Same, x: Live, order: bool, a: Core, v: Core, insn: Insn)
    requires SameTop(e, x, a, v) && IsBranch(insn) && Regs(insn) && Reads(x, insn) && Blind(w, w', e, order, a, insn)
    ensures Taken(a, insn) == Taken(v, insn)
  {
    match insn
    case BranchNil(s, _, _) => GetSame(e, x, a, v, s);
    case _ =>
  }

  lemma InterpBranch(w: World, w': World, j: nat -> Frame, j': nat -> Frame, e: Same, d: Cert, p: Policy, i: IState, m: MState)
    requires Setup(w, d, p) && SameProgram(w, w') && Junk(j) && Junk(j') && BlindStep(w, w', e, e, d, i) && i.core.frames != [] && m.ctl == Interpreting(i.pc)
    requires CoreRel(e, d, p, i.pc, i.core, m.core, false, m.pend) && i.pc in w.code && IsBranch(w.code[i.pc].insn)
    ensures Outcome(w, e, d, p, Step(w, j, i), MixedStep(w', j', p, m))
  {
    hide CoreRel, Setup, Rule, Taken, Succs, Arrives;
    CoreTops(e, d, p, i.pc, i.core, m.core, false, m.pend);
    var a, v, insn, next := i.core, m.core, w.code[i.pc].insn, i.pc + w.code[i.pc].len;
    InterpRule(w, e, d, p, i.pc, a, v, m.pend);
    BranchRule(w, d, i.pc, a);
    TakenSame(w, w', e, d[i.pc], Ordered(d, next), a, v, insn);
    var q := if Taken(a, insn) then Goal(insn) else next;
    CoreGoto(w, e, d, p, i.pc, q, a, v, v, false, m.pend);
  }

  lemma InterpThrow(w: World, w': World, j: nat -> Frame, j': nat -> Frame, e: Same, d: Cert, p: Policy, i: IState, m: MState)
    requires Setup(w, d, p) && SameProgram(w, w') && Junk(j) && Junk(j') && BlindStep(w, w', e, e, d, i) && i.core.frames != [] && m.ctl == Interpreting(i.pc)
    requires CoreRel(e, d, p, i.pc, i.core, m.core, false, m.pend) && Raises(w, i)
    ensures Outcome(w, e, d, p, Step(w, j, i), MixedStep(w', j', p, m)) <==> JumpsWell(w, i, m)
  {
    hide Setup, Land, Lands, Restore, Reachable, Rule, FnTarget, Match, HandlersOk, SameSeq, HandlersAlike, Step, MixedStep;
    CoreTops(e, d, p, i.pc, i.core, m.core, false, m.pend);
    var a, v, insn := i.core, m.core, w.code[i.pc].insn;
    InterpRule(w, e, d, p, i.pc, a, v, m.pend);
    if insn.CallInd? { GetSame(e, d[i.pc], a, v, insn.s); }
    ArmedSame(e, a, v);
    StepThrows(w, j, i);
    MixedInterpThrows(w', j', p, m);
    if Armed(a) {
      SelfHalf(v);
      var h := a.hs.cur.value;
      var none := TFun(0, [], map[], map[], [], false);
      if Reachable(v.frames, false, m.pend, h.depth) {
        CoreThrow(e, d, p, i.pc, a, v, v, false, m.pend, none);
        LandRel(w, e, d, p, h.ip, Restore(a), Restore(v), ThrowRun(v.hs.cur.value, m.pend));
      } else {
        ThrowAstray(w, e, d, p, i.pc, a, v, v, false, m.pend, none);
      }
    }
    hide Armed;
  }

  lemma MixedInterpThrows(w: World, j: nat -> Frame, p: Policy, m: MState)
    requires Junk(j) && m.ctl.Interpreting? && m.core.frames != [] && m.core.Top().Valid() && m.ctl.pc in w.code && Regs(w.code[m.ctl.pc].insn)
    requires match w.code[m.ctl.pc].insn
      case Longjmp => true
      case CallInd(s) => FnTarget(m.core.Get(s)) == None
      case _ => false
    ensures MixedStep(w, j, p, m) == if Armed(m.core) then Land(Restore(m.core), ThrowRun(m.core.hs.cur.value, m.pend)) else MState(m.core, Lost, m.pend)
  {
    hide Land, Restore, ThrowRun, Armed, FnTarget;
  }

  lemma InterpTail(w: World, w': World, j: nat -> Frame, j': nat -> Frame, e: Same, d: Cert, p: Policy, i: IState, m: MState)
    requires Setup(w, d, p) && SameProgram(w, w') && Junk(j) && Junk(j') && BlindStep(w, w', e, e, d, i) && i.core.frames != [] && m.ctl == Interpreting(i.pc)
    requires CoreRel(e, d, p, i.pc, i.core, m.core, false, m.pend) && i.pc in w.code && w.code[i.pc].insn.Tail?
    ensures Outcome(w, e, d, p, Step(w, j, i), MixedStep(w', j', p, m))
  {
    hide CoreRel, Setup, Rule, Replace, Begin;
    CoreTops(e, d, p, i.pc, i.core, m.core, false, m.pend);
    InterpRule(w, e, d, p, i.pc, i.core, m.core, m.pend);
    SelfHalf(m.core);
    var t := w.code[i.pc].insn.t;
    NoMark(m.pend, m.pend);
    if t in w.entries {
      TailRel(w, e, d, p, i.pc, i.core, m.core, m.core, false, m.pend, t, j(i.core.calls), j'(m.core.calls), p.Uses(m.core.calls, t));
    }
  }

  lemma InterpCall(w: World, w': World, j: nat -> Frame, j': nat -> Frame, e: Same, d: Cert, p: Policy, i: IState, m: MState)
    requires Setup(w, d, p) && SameProgram(w, w') && Junk(j) && Junk(j') && BlindStep(w, w', e, e, d, i) && i.core.frames != [] && m.ctl == Interpreting(i.pc)
    requires CoreRel(e, d, p, i.pc, i.core, m.core, false, m.pend) && i.pc in w.code && !Raises(w, i)
    requires w.code[i.pc].insn.Call? || w.code[i.pc].insn.CallInd?
    ensures Outcome(w, e, d, p, Step(w, j, i), MixedStep(w', j', p, m))
  {
    hide CoreRel, Setup, Rule, Enter, Begin, FnTarget;
    CoreTops(e, d, p, i.pc, i.core, m.core, false, m.pend);
    InterpRule(w, e, d, p, i.pc, i.core, m.core, m.pend);
    SelfHalf(m.core);
    var insn, next, a := w.code[i.pc].insn, i.pc + w.code[i.pc].len, i.core;
    if insn.CallInd? { GetSame(e, d[i.pc], a, m.core, insn.s); }
    var t := if insn.Call? then insn.t else FnTarget(a.Get(insn.s)).value;
    StepCalls(w, j, i, t);
    if t in w.entries {
      CallsBy(w, w', e, d, i, t);
      CallRel(w, e, d, p, i.pc, a, m.core, m.core, false, m.pend, t, j(a.calls), j'(m.core.calls), DriveCall(next), p.Uses(m.core.calls, t));
    }
  }

  // ---- the tiers agree ------------------------------------------------------------------------

  /** Every interpreted instruction is n > 0 steps of the mixed machine, which
      ends where the interpreter goes on, with the same live state, or faults
      when it does: exactly when a longjmp, if this is one, can reach its target. */
  lemma StepSimulates(w: World, w': World, j: nat -> Frame, j': nat -> Frame, e: Same, e': Same, d: Cert, p: Policy, i: IState, m: MState) returns (n: nat)
    requires Setup(w, d, p) && SameProgram(w, w') && Junk(j) && Junk(j') && BlindStep(w, w', e, e', d, i) && Rel(w, e, d, p, i, m) && i.core.frames != []
    ensures n > 0 && (Outcome(w, e', d, p, Step(w, j, i), MixedRun(w', j', p, m, n)) <==> JumpsWell(w, i, m))
  {
    hide Setup, TransRel, CoreRel, MixedStep, Step, Outcome, Reachable, BodyRel, At;
    if m.ctl.Interpreting? {
      InterpStep(w, w', j, j', e, e', d, p, i, m);
      RunOne(w', j', p, m);
      n := 1;
    } else {
      var n0, k := ToBody(w, w', j', e, d, p, i, m);
      var m1 := MixedRun(w', j', p, m, n0);
      BodyStep(w, w', j, j', e, e', d, p, i, m1, k);
      ReachableTop(m.core.frames, m1.core.Top(), true, m.pend, if i.core.hs.cur.Some? then i.core.hs.cur.value.depth else 0);
      RunSnoc(w', j', p, m, n0);
      n := n0 + 1;
    }
  }

  lemma BodyStep(w: World, w': World, j: nat -> Frame, j': nat -> Frame, e: Same, e': Same, d: Cert, p: Policy, i: IState, m: MState, k: nat)
    requires Setup(w, d, p) && SameProgram(w, w') && Junk(j) && Junk(j') && BlindStep(w, w', e, e', d, i) && BodyRel(w, e, d, p, i, m, k)
    ensures m.ctl.Compiled? && (Outcome(w, e', d, p, Step(w, j, i), MixedStep(w', j', p, m)) <==> JumpsWell(w, i, m))
  {
    hide Setup, CoreRel, MixedStep, Step, Outcome, Reachable, Armed, FnTarget, Rule;
    BodyAt(w, e, d, p, i, m, k);
    RuleRegs(w, d, i.pc);
    var insn := w.code[i.pc].insn;
    assert insn != GcCheck ==> e' == e;
    hide BlindAt;
    if IsLocal(insn) { BodyLocal(w, w', j, j', e, e', d, p, i, m, k); }
    else if IsBranch(insn) { BodyBranch(w, w', j, j', e, d, p, i, m, k); }
    else if Raises(w, i) { BodyThrow(w, w', j, j', e, d, p, i, m, k); }
    else if insn.Ret? { BodyRet(w, w', j, j', e, d, p, i, m, k); }
    else if insn.Tail? { BodyTail(w, w', j, j', e, d, p, i, m, k); }
    else {
      BodyCall(w, w', j, j', e, d, p, i, m, k);
    }
  }

  lemma RuleRegs(w: World, d: Cert, pc: int)
    requires pc in w.code && pc in d && Rule(w, d, pc)
    ensures Regs(w.code[pc].insn)
  {
  }
}
