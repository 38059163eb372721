/** A longjmp that the mixed machine loses.  drive() runs an interpreted callee
    in a nested run() that is not guarded (web/mvm.js:1386), so a longjmp from
    it never returns to a translated function of that driver. */
module Astray {
  import opened Words
  import opened Isa
  import opened Results
  import opened Interp
  import opened Translate
  import opened Tiers
  import opened Discipline
  import opened Simulation
  import opened Agreement

  /** 0: setjmp; if VR is not NIL, return; call 10.  10: longjmp. */
  function Program(): Code {
    map[0 := Decoded(Setjmp, 1), 1 := Decoded(BranchNil(VR, false, 3), 1), 2 := Decoded(Call(10), 1), 3 := Decoded(Ret, 1), 10 := Decoded(Longjmp, 1)]
  }

  function Outer(): TFun {
    TFun(0, [0, 1, 2, 3], map[0 := 0, 1 := 1, 2 := 2, 3 := 3], map[0 := 0, 1 := 0, 2 := 0, 3 := 0], [Ops()], true)
  }

  function Ops(): seq<TOp> {
    [TOp.Case(0), SpillDo(Setjmp, 1), TOp.Case(1), Goto(IfNil(VR, false), 3), TOp.Case(2), CallOp(Direct(10), 3), Fell, TOp.Case(3), RetOp, Fell]
  }

  /** Function 0 is translated, function 10 is not. */
  function OuterOnly(): Policy {
    Policy(map[0 := Outer()], (n: nat, t: int) => true)
  }

  function Certificate(): Cert {
    var none := Live({}, {}, false, false, false);
    map[0 := Live({4}, {}, false, false, false), 1 := none.(resume := true), 2 := none, 3 := none, 10 := none]
  }

  lemma OuterComplete()
    ensures LayoutOf(Outer()).Complete(Program())
  {
  }

  /** The operations of one instruction, and of those behind it. */
  lemma OuterFromOne(k: nat)
    requires k < 4
    ensures LayoutOf(Outer()).Complete(Program())
    ensures var y := LayoutOf(Outer()); y.From(Program(), k, 0) == [TOp.Case(k)] + y.Body(Program(), k, 0) + y.From(Program(), k + 1, 0)
  {
    OuterComplete();
    var y := LayoutOf(Outer());
    assert y.order[k] == k && y.labels[k] == k && y.chunkOf[k] == 0;
    hide Layout.Body, Layout.Complete, Program;
  }

  lemma OuterBody(k: nat)
    requires k < 4
    ensures LayoutOf(Outer()).Complete(Program())
    ensures LayoutOf(Outer()).Body(Program(), k, 0) ==
            if k == 0 then [SpillDo(Setjmp, 1)] else if k == 1 then [Goto(IfNil(VR, false), 3)]
            else if k == 2 then [CallOp(Direct(10), 3), Fell] else [RetOp, Fell]
  {
    OuterComplete();
    assert Outer().order[k] == k;
  }

  lemma OuterFrom()
    ensures LayoutOf(Outer()).Complete(Program())
    ensures var y := LayoutOf(Outer());
      && y.From(Program(), 3, 0) == Ops()[7..] && y.From(Program(), 2, 0) == Ops()[4..]
      && y.From(Program(), 1, 0) == Ops()[2..] && y.From(Program(), 0, 0) == Ops()
  {
    OuterComplete();
    var y := LayoutOf(Outer());
    assert y.From(Program(), 4, 0) == [];
    OpsParts();
    hide Layout.Body, Layout.Complete, Program, Layout.From, Outer, Ops;
    OuterBody(3);
    OuterFromOne(3);
    OuterBody(2);
    OuterFromOne(2);
    OuterBody(1);
    OuterFromOne(1);
    OuterBody(0);
    OuterFromOne(0);
  }

  lemma OpsParts()
    ensures Ops()[7..] == [TOp.Case(3)] + [RetOp, Fell] + [] && Ops()[4..] == [TOp.Case(2)] + [CallOp(Direct(10), 3), Fell] + Ops()[7..]
    ensures Ops()[2..] == [TOp.Case(1)] + [Goto(IfNil(VR, false), 3)] + Ops()[4..] && Ops() == [TOp.Case(0)] + [SpillDo(Setjmp, 1)] + Ops()[2..]
  {
  }

  lemma OuterFind()
    ensures Find(Ops(), 0) == Ops() && Find(Ops(), 1) == Ops()[2..] && Find(Ops(), 2) == Ops()[4..] && Find(Ops(), 3) == Ops()[7..]
  {
    FindSkips(Ops()[..2], Ops()[2..], 1);
    FindSkips(Ops()[..4], Ops()[4..], 2);
    FindSkips(Ops()[..7], Ops()[7..], 3);
    assert Ops() == Ops()[..2] + Ops()[2..] == Ops()[..4] + Ops()[4..] == Ops()[..7] + Ops()[7..];
  }

  lemma OuterLeads(k: nat)
    requires k < 4
    ensures LayoutOf(Outer()).Complete(Program()) && Leads(Program(), Outer(), k)
  {
    OuterFrom();
    OuterFind();
    hide Find, Layout.From, Layout.Complete, Ops, Program;
    assert Outer().order[k] == k;
  }

  lemma OuterBlocks()
    ensures var f, code := Outer(), Program();
      && (forall k :: 0 <= k < 4 ==> f.order[k] in code && Succs(code, f.order[k]) <= Elems(f.order))
      && (forall pc :: pc in f.labels ==> pc in f.order && (pc == 0 || BlockOf(code, f.order, pc)))
  {
    var f, code := Outer(), Program();
    assert f.order[0] == 0 && f.order[1] == 1 && f.order[2] == 2 && f.order[3] == 3;
    assert 1 in Blocks(code, f.order[0]) && 2 in Blocks(code, f.order[1]) && 3 in Blocks(code, f.order[1]);
  }

  lemma OuterTranslated()
    ensures Translated(Program(), 0, Outer())
  {
    hide Leads, Layout.Complete, Succs, BlockOf, Program, Outer, Elems;
    OuterShape();
    OuterBlocks();
    OuterLeads(0);
    OuterLeads(1);
    OuterLeads(2);
    OuterLeads(3);
  }

  lemma OuterShape()
    ensures var f := Outer();
      && f.entry == 0 && |f.order| == 4 && f.order[0] == 0 && f.resumable && Program()[f.order[0]].insn == Setjmp
      && 0 in f.labels && f.labels[0] == 0 && LayoutOf(f) == Layout(f.order, f.labels, f.chunkOf)
      && (forall i, j :: 0 <= i < j < |f.order| ==> f.order[i] < f.order[j])
      && (forall p, q :: p in f.labels && q in f.labels && p != q ==> f.labels[p] != f.labels[q])
      && (forall k :: 0 <= k < |f.order| && f.order[k] in f.labels ==> f.labels[f.order[k]] in f.chunkOf)
  {
  }

  lemma OuterSetup(w: World)
    requires w.code == Program() && w.entries == {0, 10}
    ensures Setup(w, Certificate(), OuterOnly())
  {
    OuterTranslated();
    hide Translated;
    OuterRules(w);
    OuterUsable(w);
    hide Disciplined, Usable;
  }

  lemma OuterUsable(w: World)
    requires w.code == Program() && Translated(w.code, 0, Outer())
    ensures Usable(w, 0, Outer())
  {
    var f := Outer();
    assert |f.order| == 4 && f.order[0] == 0 && w.code[f.order[3]].insn == Ret;
    forall k | 0 <= k < |f.order| && !Ends(w.code[f.order[k]].insn)
      ensures NextInOrder(w.code, f, k)
    {
      OuterNext(w, k);
    }
    hide Translated;
  }

  lemma OuterRules(w: World)
    requires w.code == Program() && w.entries == {0, 10}
    ensures Disciplined(w, Certificate())
  {
    OuterEntries(w);
    hide Rule, NextInOrder, Certificate, Program, EntryOk;
    forall pc | pc in w.code
      ensures 0 <= pc && Rule(w, Certificate(), pc)
    {
      OuterRule(w, pc);
    }
  }

  lemma OuterRule(w: World, pc: int)
    requires w.code == Program() && w.entries == {0, 10} && pc in {0, 1, 2, 3, 10}
    ensures pc in Certificate() && Rule(w, Certificate(), pc)
  {
  }

  lemma OuterEntries(w: World)
    ensures forall t :: t in {0, 10} ==> t in Certificate() && EntryOk(Certificate()[t])
    ensures Certificate().Keys == Program().Keys == {0, 1, 2, 3, 10}
  {
  }

  lemma OuterNext(w: World, k: nat)
    requires w.code == Program() && k < 3
    ensures k + 1 < |Outer().order| && Outer().order[k] in w.code && NextInOrder(w.code, Outer(), k)
  {
    assert Outer().order[k] == k && Outer().order[k + 1] == k + 1 && w.code[k].len == 1;
  }

  /** The interpreter returns T; the mixed machine is lost. */
  lemma LongjmpLost(w: World, w': World, j: nat -> Frame, j': nat -> Frame, c: Core)
    requires w.code == Program() && w.entries == {0, 10} && SameProgram(w, w') && Junk(j) && Junk(j') && Launched(c, 0)
    ensures Setup(w, Certificate(), OuterOnly())
    ensures Returns(w, j, IState(c, 0), 6) && Run(w, j, IState(c, 0), 6).value.core.vr == Tee()
    ensures Loses(w', j', OuterOnly(), Launch(OuterOnly(), c, 0), 7)
  {
    OuterSetup(w);
    InterpReturns(w, j, c);
    MixedLoses(w', j', c);
  }

  lemma InterpReturns(w: World, j: nat -> Frame, c: Core)
    requires w.code == Program() && w.entries == {0, 10} && Junk(j) && Launched(c, 0)
    ensures Returns(w, j, IState(c, 0), 6) && Run(w, j, IState(c, 0), 6).value.core.vr == Tee()
  {
    var h := Handler(1, |c.Top().stk|, 1, c.Top().home[4], c.Top().fn, c.Top().id);
    var c1 := c.(hs := c.hs.Push(h), vr := Nil());
    var c2 := Enter(j(c.calls), c1, 10, 3);
    InterpOut(w, j, c, h);
    hide Enter;
    var c3 := Restore(c2);
    InterpBack(w, j, c3);
    hide Restore, Step, Armed;
    StepsPlus(w, j, IState(c, 0), 3, 3);
    assert Run(w, j, IState(c2, 10), 1) == Run(w, j, IState(c3, 1), 0);
    StepsPlus(w, j, IState(c2, 10), 1, 2);
  }

  lemma {:induction false} StepsPlus(w: World, j: nat -> Frame, i: IState, n: nat, k: nat)
    requires Junk(j)
    ensures Run(w, j, i, n + k) == match Run(w, j, i, n) case None => None case Some(s) => Run(w, j, s, k)
    decreases n
  {
    hide Step;
    if n > 0 && Step(w, j, i).Some? { StepsPlus(w, j, Step(w, j, i).value, n - 1, k); }
  }

  /** Up to and including the longjmp of function 10. */
  lemma InterpOut(w: World, j: nat -> Frame, c: Core, h: Handler)
    requires w.code == Program() && w.entries == {0, 10} && Junk(j) && Launched(c, 0)
    requires h == Handler(1, |c.Top().stk|, 1, c.Top().home[4], c.Top().fn, c.Top().id)
    ensures var c1 := c.(hs := c.hs.Push(h), vr := Nil());
      var c2 := Enter(j(c.calls), c1, 10, 3);
      && Run(w, j, IState(c, 0), 3) == Some(IState(c2, 10)) && Armed(c2) && Step(w, j, IState(c2, 10)) == Some(IState(Restore(c2), 1))
      && |Restore(c2).frames| == 1 && Restore(c2).vr == Tee()
  {
    var c1 := c.(hs := c.hs.Push(h), vr := Nil());
    var c2 := Enter(j(c.calls), c1, 10, 3);
    OutSetjmp(w, j, c, h);
    OutBranch(w, j, c1);
    OutCall(w, j, c1);
    OutArmed(w, j, c, h);
    hide Step, Enter, Restore, Armed;
    assert Run(w, j, IState(c2, 10), 0) == Some(IState(c2, 10)) && Run(w, j, IState(c1, 2), 1) == Some(IState(c2, 10));
    assert Run(w, j, IState(c1, 1), 2) == Some(IState(c2, 10));
  }

  lemma OutSetjmp(w: World, j: nat -> Frame, c: Core, h: Handler)
    requires w.code == Program() && Junk(j) && Launched(c, 0) && h == Handler(1, |c.Top().stk|, 1, c.Top().home[4], c.Top().fn, c.Top().id)
    ensures Step(w, j, IState(c, 0)) == Some(IState(c.(hs := c.hs.Push(h), vr := Nil()), 1))
  {
  }

  lemma OutBranch(w: World, j: nat -> Frame, c: Core)
    requires w.code == Program() && Junk(j) && c.frames != [] && c.Top().Valid() && c.vr == Nil()
    ensures Step(w, j, IState(c, 1)) == Some(IState(c, 2))
  {
  }

  lemma OutCall(w: World, j: nat -> Frame, c: Core)
    requires w.code == Program() && w.entries == {0, 10} && Junk(j) && c.frames != [] && c.Top().Valid()
    ensures Step(w, j, IState(c, 2)) == Some(IState(Enter(j(c.calls), c, 10, 3), 10))
  {
    hide Enter;
  }

  lemma OutArmed(w: World, j: nat -> Frame, c: Core, h: Handler)
    requires w.code == Program() && Junk(j) && Launched(c, 0) && h == Handler(1, |c.Top().stk|, 1, c.Top().home[4], c.Top().fn, c.Top().id)
    ensures var c2 := Enter(j(c.calls), c.(hs := c.hs.Push(h), vr := Nil()), 10, 3);
      && c2.frames != [] && c2.Top().Valid() && Armed(c2) && |Restore(c2).frames| == 1 && Restore(c2).vr == Tee()
      && Step(w, j, IState(c2, 10)) == Some(IState(Restore(c2), 1))
  {
    var c1 := c.(hs := c.hs.Push(h), vr := Nil());
    var c2 := Enter(j(c.calls), c1, 10, 3);
    assert c2.frames == c.frames + [c2.Top()];
    assert Armed(c2);
    hide Enter, Armed;
    OutJump(w, j, c2);
  }

  lemma OutJump(w: World, j: nat -> Frame, c: Core)
    requires w.code == Program() && Junk(j) && c.frames != [] && c.Top().Valid() && Armed(c)
    ensures Step(w, j, IState(c, 10)) == Some(IState(Restore(c), c.hs.cur.value.ip))
  {
    hide Restore, Armed;
  }

  /** The return of function 0, with T. */
  lemma InterpBack(w: World, j: nat -> Frame, c: Core)
    requires w.code == Program() && Junk(j) && |c.frames| == 1 && c.Top().Valid() && c.vr == Tee()
    ensures c.frames != [] && Run(w, j, IState(c, 1), 2) == Some(IState(PopFrame(c), c.Top().ret)) && PopFrame(c).frames == []
  {
    var s := IState(PopFrame(c), c.Top().ret);
    assert Step(w, j, IState(c, 1)) == Some(IState(c, 3)) && Step(w, j, IState(c, 3)) == Some(s);
    hide Step;
    assert Run(w, j, s, 0) == Some(s) && Run(w, j, IState(c, 3), 1) == Some(s);
  }

  /** The locals of function 0 behind its setjmp. */
  function Locals(c: Core): (r: seq<Word>)
    requires c.frames != [] && c.Top().Valid()
    ensures |r| == 9
  {
    Loaded(Outer(), 0, c.Top().home)
  }

  /** The machine behind the setjmp of function 0. */
  function Armoured(c: Core): (r: Core)
    requires c.frames != [] && c.Top().Valid()
    ensures r.frames != [] && r.Top().Valid()
  {
    var b := Spill(c, Locals(c));
    b.(hs := b.hs.Push(Handler(|b.frames|, |b.Top().stk|, 1, b.Top().home[4], b.Top().fn, b.Top().id)), vr := Nil())
  }

  lemma LoseSetjmp(w: World, j: nat -> Frame, c: Core)
    requires Junk(j) && Launched(c, 0)
    ensures var b := Armoured(c);
      MixedRun(w, j, OuterOnly(), Launch(OuterOnly(), c, 0), 2) == MState(b, Compiled(Outer(), 0, Ops()[2..], b.Top().home[..9], 0), [])
  {
    OuterFind();
    hide Find;
    var p := OuterOnly();
    var m0 := Launch(p, c, 0);
    assert m0.ctl == Compiled(Outer(), 0, Ops(), Locals(c), 0);
    hide Loaded, Begin;
    var m1 := MixedStep(w, j, p, m0);
    assert m1 == m0.(ctl := m0.ctl.(rest := Ops()[1..]));
    assert Ops()[1..][0] == SpillDo(Setjmp, 1) && Ops()[1..][1..] == Ops()[2..];
    hide Ops;
    RunOne(w, j, p, m0);
  }

  lemma LoseCall(w: World, j: nat -> Frame, b: Core, loc: seq<Word>)
    requires Junk(j) && |b.frames| == 1 && b.Top().Valid() && b.vr == Nil() && |loc| == 9 && 10 in w.entries
    ensures b.frames != [] && MixedRun(w, j, OuterOnly(), MState(b, Compiled(Outer(), 0, Ops()[2..], loc, 0), []), 4)
            == MState(Enter(j(b.calls), Spill5(b, loc), 10, SENTINEL), Interpreting(10), [Cont(Outer(), 3, 1), Nested(2)])
  {
    var p := OuterOnly();
    var k2 := Compiled(Outer(), 0, Ops()[2..], loc, 0);
    var m2, m4 := MState(b, k2, []), MState(b, k2.(rest := Ops()[4..]), []);
    LoseBranch(w, j, m2);
    LoseTo(w, j, m4);
    MixedPlus(w, j, p, m2, 2, 2);
  }

  lemma LoseBranch(w: World, j: nat -> Frame, m: MState)
    requires Junk(j) && m.ctl.Compiled? && m.ctl.f == Outer() && m.ctl.chunk == 0 && m.ctl.rest == Ops()[2..] && |m.ctl.loc| == 9
    requires m.core.frames != [] && m.core.Top().Valid() && m.core.vr == Nil()
    ensures MixedRun(w, j, OuterOnly(), m, 2) == m.(ctl := m.ctl.(rest := Ops()[4..]))
  {
    OpsTail();
    OneChunk();
    hide Ops, Outer;
    PassLabel(w, j, m);
    var m3 := m.(ctl := m.ctl.(rest := Ops()[3..]));
    PassBranch(w, j, m3);
    hide MixedStep;
    RunOne(w, j, OuterOnly(), m);
  }

  lemma LoseTo(w: World, j: nat -> Frame, m: MState)
    requires Junk(j) && m.ctl.Compiled? && m.ctl.f == Outer() && m.ctl.rest == Ops()[4..] && |m.ctl.loc| == 9 && 10 in w.entries
    requires |m.core.frames| == 1 && m.core.Top().Valid() && m.pend == []
    ensures MixedRun(w, j, OuterOnly(), m, 2) ==
      MState(Enter(j(m.core.calls), Spill5(m.core, m.ctl.loc), 10, SENTINEL), Interpreting(10), [Cont(Outer(), 3, 1), Nested(2)])
  {
    OpsTail();
    hide Ops, Outer, Enter, Spill5;
    PassLabel(w, j, m);
    var m5 := m.(ctl := m.ctl.(rest := Ops()[5..]));
    PassCall(w, j, m5);
    assert [] + [Cont(Outer(), 3, 1)] + [Nested(2)] == [Cont(Outer(), 3, 1), Nested(2)];
    hide MixedStep;
    RunOne(w, j, OuterOnly(), m);
  }

  lemma PassLabel(w: World, j: nat -> Frame, m: MState)
    requires Junk(j) && m.ctl.Compiled? && |m.ctl.loc| == 9 && m.core.frames != [] && m.core.Top().Valid() && m.ctl.rest != [] && m.ctl.rest[0].Case?
    ensures MixedStep(w, j, OuterOnly(), m) == m.(ctl := m.ctl.(rest := m.ctl.rest[1..]))
  {
    hide Outer;
  }

  lemma PassBranch(w: World, j: nat -> Frame, m: MState)
    requires Junk(j) && m.ctl.Compiled? && |m.ctl.loc| == 9 && m.core.frames != [] && m.core.Top().Valid() && m.core.vr == Nil()
    requires m.ctl.rest != [] && m.ctl.rest[0] == Goto(IfNil(VR, false), 3) && m.ctl.chunk < |m.ctl.f.chunks|
    ensures MixedStep(w, j, OuterOnly(), m) == m.(ctl := m.ctl.(rest := m.ctl.rest[1..]))
  {
    hide Outer, Find;
  }

  lemma PassCall(w: World, j: nat -> Frame, m: MState)
    requires Junk(j) && m.ctl.Compiled? && |m.ctl.loc| == 9 && |m.core.frames| == 1 && m.core.Top().Valid() && 10 in w.entries
    requires m.ctl.rest != [] && m.ctl.rest[0] == CallOp(Direct(10), 3)
    ensures MixedStep(w, j, OuterOnly(), m) ==
      MState(Enter(j(m.core.calls), Spill5(m.core, m.ctl.loc), 10, SENTINEL), Interpreting(10), m.pend + [Cont(m.ctl.f, 3, 1)] + [Nested(2)])
  {
    hide Outer;
    MixedCalls(w, j, OuterOnly(), m, 10);
  }

  lemma OneChunk()
    ensures |Outer().chunks| == 1
  {
  }

  lemma OpsTail()
    ensures |Ops()| > 6 && Ops()[2] == TOp.Case(1) && Ops()[3] == Goto(IfNil(VR, false), 3) && Ops()[4] == TOp.Case(2) && Ops()[5] == CallOp(Direct(10), 3)
  {
  }

  lemma MixedLoses(w: World, j: nat -> Frame, c: Core)
    requires w.code == Program() && w.entries == {0, 10} && Junk(j) && Launched(c, 0)
    ensures Loses(w, j, OuterOnly(), Launch(OuterOnly(), c, 0), 7)
  {
    var p, m0, b := OuterOnly(), Launch(OuterOnly(), c, 0), Armoured(c);
    var loc := b.Top().home[..9];
    var e := Enter(j(b.calls), Spill5(b, loc), 10, SENTINEL);
    var m6 := MState(e, Interpreting(10), [Cont(Outer(), 3, 1), Nested(2)]);
    LoseSetjmp(w, j, c);
    LoseCall(w, j, b, loc);
    MixedPlus(w, j, p, m0, 2, 4);
    LoseLongjmp(w, j, c, e, b);
    MixedPlus(w, j, p, m0, 6, 1);
  }

  lemma LoseLongjmp(w: World, j: nat -> Frame, c: Core, e: Core, b: Core)
    requires w.code == Program() && Junk(j) && |e.frames| == 2 && e.Top().Valid() && Launched(c, 0) && b == Armoured(c)
    requires e.hs.cur == b.hs.cur
    ensures MixedRun(w, j, OuterOnly(), MState(e, Interpreting(10), [Cont(Outer(), 3, 1), Nested(2)]), 1).ctl == Lost
  {
    hide Outer;
    var pend := [Cont(Outer(), 3, 1), Nested(2)];
    RunOne(w, j, OuterOnly(), MState(e, Interpreting(10), pend));
    if Armed(e) {
      assert e.hs.cur.value.depth == 1;
      assert pend[..1] == [Cont(Outer(), 3, 1)] && pend[..1][..0] == [];
      assert DropSegment(e.hs.cur.value, pend[..1]) == ToNowhere;
    }
  }
}
