/** Exploration follows the ways control can go (web/mvm.js:1435-1460): what the
    translator calls a successor is where some step of the interpreter goes,
    and nothing else, but for the code behind a longjmp. */
module Ways {
  import opened Words
  import opened Isa
  import opened Results
  import opened Interp
  import opened Translate
  import opened Laws

  /** The instruction at pc raises no longjmp. */
  predicate Quiet(w: World, s: IState)
    requires s.core.frames != [] && |Running(s.core).home| == 16 && s.pc in w.code && Regs(w.code[s.pc].insn)
  {
    match w.code[s.pc].insn
    case Longjmp => false
    case CallInd(v) => FnTarget(Reg(s.core, v)).Some?
    case _ => true
  }

  /** A step takes the running activation to q: it goes on there, or it calls
      and the callee returns there. */
  ghost predicate Leaves(w: World, j: nat -> Frame, s: IState, q: int)
    requires Junk(j)
  {
    && s.pc in w.code && Ready(w, s, w.code[s.pc].insn) && Quiet(w, s) && Running(s.core).id <= s.core.calls
    && Step(w, j, s).Some?
    && var r, n := Step(w, j, s).value, |s.core.frames|;
       || (|r.core.frames| == n && Running(r.core).id == Running(s.core).id && r.pc == q)
       || (|r.core.frames| == n + 1 && r.core.frames[..n] == s.core.frames && Running(r.core).ret == q)
  }

  /** In some state of some machine with this code. */
  ghost predicate CanGo(code: Code, pc: int, q: int) {
    exists w: World, j: nat -> Frame, s: IState :: w.code == code && Junk(j) && s.pc == pc && Leaves(w, j, s, q)
  }

  // ---- one instruction ------------------------------------------------------------------

  /** A step that takes the activation anywhere takes it to one of these. */
  lemma LeavesFor(w: World, j: nat -> Frame, s: IState, q: int)
    requires Junk(j) && Leaves(w, j, s, q)
    ensures var insn, next := w.code[s.pc].insn, s.pc + w.code[s.pc].len;
      match insn
      case Branch(t) => q == t
      case BranchIf(_, t) => q == t || q == next
      case BranchNil(_, _, t) => q == t || q == next
      case Tail(_) | Ret | Longjmp => false
      case _ => q == next
  {
    var insn := w.code[s.pc].insn;
    if insn.Tail? {
      TailsPass(w, j, s, insn.t);
    } else if IsLocal(insn) {
      LocalStays(w, s.core, insn, Laws.Behind(w, s.pc));
    }
    hide FnTarget;
  }

  lemma LocalStays(w: World, c: Core, insn: Insn, next: int)
    requires c.frames != [] && c.Top().Valid() && Regs(insn) && IsLocal(insn)
    ensures var r := ExecLocal(w, c, insn, next); r.Some? ==> |r.value.frames| == |c.frames|
  {
  }

  // ---- witnesses --------------------------------------------------------------------------

  /** A machine with this code and one frame, every word of it x. */
  function Small(code: Code, t: int): World {
    World(code, {t}, (op: int, x: Word, y: Word) => x, (n: nat) => false, (n: nat, x: Word) => x)
  }

  function Plenty(x: Word): Frame {
    Frame(seq(16, i => x), seq(SLOTS, i => x), [x], SENTINEL, 0, 0)
  }

  function Single(pc: int, x: Word, cmp: int): IState {
    IState(Core([Plenty(x)], x, cmp, Handlers(None, [], 0), 0, 0), pc)
  }

  function Blank(): nat -> Frame {
    (n: nat) => Plenty(Word(0, 0))
  }

  lemma Goes(code: Code, pc: int, q: int, t: int, x: Word, cmp: int)
    requires Leaves(Small(code, t), Blank(), Single(pc, x, cmp), q)
    ensures CanGo(code, pc, q)
  {
    hide Leaves;
  }

  /** Instructions other than branches, tail calls, returns and longjmps go on. */
  lemma GoesOn(code: Code, pc: int)
    requires pc in code && Regs(code[pc].insn)
    requires var insn := code[pc].insn; !insn.Branch? && !insn.BranchIf? && !insn.BranchNil? && !insn.Tail? && !insn.Ret? && !insn.Longjmp?
    ensures CanGo(code, pc, pc + code[pc].len)
  {
    var insn, next := code[pc].insn, pc + code[pc].len;
    if insn.Call? {
      CallGoes(code, pc, insn.t);
    } else if insn.CallInd? {
      CallGoes(code, pc, 0);
    } else {
      var s := Single(pc, Word(0, 0), 0);
      LocalGoes(Small(code, 0), s.core, insn, next);
      Goes(code, pc, next, 0, Word(0, 0), 0);
    }
  }

  lemma LocalGoes(w: World, c: Core, insn: Insn, next: int)
    requires |c.frames| == 1 && c.Top().Valid() && c.Top().stk != [] && Regs(insn) && IsLocal(insn)
    ensures var r := ExecLocal(w, c, insn, next); r.Some? && |r.value.frames| == 1 && r.value.frames[0].id == c.frames[0].id
  {
  }

  lemma CallGoes(code: Code, pc: int, t: int)
    requires pc in code && Regs(code[pc].insn) && (code[pc].insn == Call(t) || (code[pc].insn.CallInd? && t == 0))
    ensures CanGo(code, pc, pc + code[pc].len)
  {
    var x := Word(3, 0);
    FunctionValues(x, 0);
    assert ToInt32(16 * 0 + 3) == 3;
    hide FnTarget;
    CallsPass(Small(code, t), Blank(), Single(pc, x, 0), t);
    Goes(code, pc, pc + code[pc].len, t, x, 0);
  }

  /** A branch goes both ways, or its one way. */
  lemma BranchGoes(code: Code, pc: int)
    requires pc in code && Regs(code[pc].insn)
    ensures match code[pc].insn
      case Branch(t) => CanGo(code, pc, t)
      case BranchIf(_, t) => CanGo(code, pc, t) && CanGo(code, pc, pc + code[pc].len)
      case BranchNil(_, _, t) => CanGo(code, pc, t) && CanGo(code, pc, pc + code[pc].len)
      case _ => true
  {
    var next, z := pc + code[pc].len, Word(0, 0);
    match code[pc].insn
    case Branch(t) => Goes(code, pc, t, 0, z, 0);
    case BranchIf(c, t) =>
      Goes(code, pc, t, 0, z, if c.EQ? || c.LE? || c.GE? then 0 else if c.LT? then -1 else 1);
      Goes(code, pc, next, 0, z, if c.EQ? || c.LE? then 1 else if c.GE? then -1 else 0);
    case BranchNil(_, sense, t) =>
      Goes(code, pc, t, 0, if sense then Nil() else z, 0);
      Goes(code, pc, next, 0, if sense then z else Nil(), 0);
    case _ =>
  }

  // ---- exploration ----------------------------------------------------------------------------

  /** The translator goes on behind a longjmp, as behind any trap, though
      control never falls there. */
  ghost predicate Way(code: Code, pc: int, q: int) {
    pc in code && (CanGo(code, pc, q) || (code[pc].insn == Longjmp && q == pc + code[pc].len))
  }

  /** The successors of an instruction are exactly the ways control can go. */
  lemma SuccsExact(code: Code, pc: int, q: int)
    requires pc in code && Regs(code[pc].insn)
    ensures q in Succs(code, pc) <==> Way(code, pc, q)
  {
    if CanGo(code, pc, q) {
      var w: World, j: nat -> Frame, s: IState :| w.code == code && Junk(j) && s.pc == pc && Leaves(w, j, s, q);
      LeavesFor(w, j, s, q);
    }
    BranchGoes(code, pc);
    var insn := code[pc].insn;
    if !insn.Branch? && !insn.BranchIf? && !insn.BranchNil? && !insn.Tail? && !insn.Ret? && !insn.Longjmp? { GoesOn(code, pc); }
    hide CanGo;
  }

  /** One way after another. */
  ghost predicate Walkable(code: Code, entry: int, p: seq<int>) {
    |p| > 0 && p[0] == entry && forall i :: 0 <= i < |p| - 1 ==> Way(code, p[i], p[i + 1])
  }

  /** What exploration reaches is what ways lead to, in code with sane registers. */
  lemma ReachedExact(code: Code, entry: int, pc: int)
    requires forall q :: q in code ==> Regs(code[q].insn)
    ensures Reached(code, entry, pc) <==> exists p: seq<int> :: Walkable(code, entry, p) && p[|p| - 1] == pc
  {
    hide Way, Succs;
    forall p: seq<int>
      ensures Path(code, entry, p) <==> Walkable(code, entry, p)
    {
      PathWalkable(code, entry, p);
    }
  }

  lemma PathWalkable(code: Code, entry: int, p: seq<int>)
    requires forall q :: q in code ==> Regs(code[q].insn)
    ensures Path(code, entry, p) <==> Walkable(code, entry, p)
  {
    forall a, b
      ensures a in code && b in Succs(code, a) <==> Way(code, a, b)
    {
      if a in code { SuccsExact(code, a, b); }
    }
    hide Succs, Way, Regs;
    if Path(code, entry, p) {
      forall i | 0 <= i < |p| - 1
        ensures Way(code, p[i], p[i + 1])
      {
        assert p[i] in code && p[i + 1] in Succs(code, p[i]);
      }
    }
    if Walkable(code, entry, p) {
      forall i | 0 <= i < |p| - 1
        ensures p[i] in code && p[i + 1] in Succs(code, p[i])
      {
        assert Way(code, p[i], p[i + 1]);
      }
    }
  }

  /** No run of an activation leaves what was explored. */
  lemma RunStays(w: World, j: nat -> Frame, entry: int, s: IState, q: int)
    requires Junk(j) && Reached(w.code, entry, s.pc) && Leaves(w, j, s, q)
    ensures Reached(w.code, entry, q)
  {
    LeavesFor(w, j, s, q);
    var p :| Path(w.code, entry, p) && p[|p| - 1] == s.pc;
    hide Leaves;
    assert Path(w.code, entry, p + [q]);
  }

  // ---- blocks --------------------------------------------------------------------------------

  /** The instruction at `at` makes a block start at pc: a branch at its target,
      a conditional one behind itself too, a call or a setjmp behind itself. */
  predicate Opens(i: Decoded, at: int, pc: int) {
    || i.insn == Branch(pc)
    || ((i.insn.BranchIf? || i.insn.BranchNil?) && (pc == i.insn.t || pc == at + i.len))
    || ((i.insn.Call? || i.insn.CallInd? || i.insn.Setjmp?) && pc == at + i.len)
  }

  /** Blocks start at the entry and there, and nowhere else. */
  lemma LabelsExact(code: Code, entry: int, f: TFun, pc: int)
    requires Translated(code, entry, f)
    ensures forall k :: 0 <= k < |f.order| ==> f.order[k] in code
    ensures pc in f.labels <==> pc == entry || exists k :: 0 <= k < |f.order| && Opens(code[f.order[k]], f.order[k], pc)
  {
    LabelBlocks(code, entry, f, pc);
    hide Translated, Opens, Blocks, BlockOf;
    forall k | 0 <= k < |f.order|
      ensures pc in Blocks(code, f.order[k]) <==> Opens(code[f.order[k]], f.order[k], pc)
    {
      BlocksAre(code, f.order[k], pc);
    }
  }

  lemma BlocksAre(code: Code, at: int, pc: int)
    requires at in code
    ensures pc in Blocks(code, at) <==> Opens(code[at], at, pc)
  {
  }

  lemma LabelBlocks(code: Code, entry: int, f: TFun, pc: int)
    requires Translated(code, entry, f)
    ensures forall k :: 0 <= k < |f.order| ==> f.order[k] in code
    ensures pc in f.labels <==> pc == entry || exists k :: 0 <= k < |f.order| && pc in Blocks(code, f.order[k])
  {
    hide Leads, Succs, Blocks;
    assert Layout(f.order, f.labels, f.chunkOf).Complete(code);
  }

  // ---- what it leaves alone, and what it does not --------------------------------------------

  /** 0: tail call of 10.  10: ret.  Nothing can be decoded at 5. */
  function Ending(): Code {
    map[0 := Decoded(Tail(10), 5), 10 := Decoded(Ret, 1)]
  }

  lemma PathSecond(code: Code, entry: int, p: seq<int>)
    requires Path(code, entry, p) && |p| > 1
    ensures entry in code && p[1] in Succs(code, entry)
  {
    hide Succs;
    assert p[0] in code && p[0 + 1] in Succs(code, p[0]);
  }

  /** Behind a tail call nothing is explored. */
  lemma TailStops(pc: int)
    ensures !Fails(Ending(), 0) && (Reached(Ending(), 0, pc) <==> pc == 0)
  {
    forall q
      ensures q !in Succs(Ending(), 0)
    {
      SuccsExact(Ending(), 0, q);
      NoWay(q);
    }
    hide Succs;
    forall q | Reached(Ending(), 0, q)
      ensures q == 0
    {
      var p :| Path(Ending(), 0, p) && p[|p| - 1] == q;
      if |p| > 1 { PathSecond(Ending(), 0, p); assert false; }
    }
    assert Path(Ending(), 0, [0]);
  }

  lemma NoWay(q: int)
    ensures !Way(Ending(), 0, q)
  {
    if CanGo(Ending(), 0, q) {
      var w: World, j: nat -> Frame, s: IState :| w.code == Ending() && Junk(j) && s.pc == 0 && Leaves(w, j, s, q);
      LeavesFor(w, j, s, q);
    }
  }

  /** 0: li V0 nil.  10: branch to 20 if V0 is nil.  16: ret.  20: ret. */
  function Settled(): Code {
    map[0 := Decoded(Li(0, Nil()), 10), 10 := Decoded(BranchNil(0, true, 20), 6), 16 := Decoded(Ret, 1), 20 := Decoded(Ret, 1)]
  }

  lemma SettledReached()
    ensures Reached(Settled(), 0, 16)
  {
    assert Path(Settled(), 0, [0, 10, 16]);
  }

  /** Ways are taken one at a time: 16 is explored, but every run of the
      function goes to 20 and returns. */
  lemma NotEveryWayTogether(w: World, j: nat -> Frame, s: IState)
    requires w.code == Settled() && Junk(j) && s.pc == 0 && Ready(w, s, Li(0, Nil()))
    ensures Reached(Settled(), 0, 16)
    ensures Run(w, j, s, 1).Some? && Run(w, j, s, 1).value.pc == 10 && Run(w, j, s, 2).Some? && Run(w, j, s, 2).value.pc == 20
    ensures Run(w, j, s, 3).Some? && |Run(w, j, s, 3).value.core.frames| == |s.core.frames| - 1
  {
    SettledReached();
    hide Path, Reached;
    Computes(w, j, s, Li(0, Nil()));
    var s1 := Step(w, j, s).value;
    Constants();
    TestsNil(w, j, s1, 0, true, 20);
    var s2 := Step(w, j, s1).value;
    Laws.Returns(w, j, s2);
    hide Step;
    var s3 := Step(w, j, s2).value;
    assert Run(w, j, s, 1) == Run(w, j, s1, 0);
    assert Run(w, j, s, 2) == Run(w, j, s1, 1) && Run(w, j, s1, 1) == Run(w, j, s2, 0);
    assert Run(w, j, s, 3) == Run(w, j, s1, 2) && Run(w, j, s1, 2) == Run(w, j, s2, 1) && Run(w, j, s2, 1) == Run(w, j, s3, 0);
  }
}
