/** How a correspondence of words between two machines fares through their
    collections.  A call from translated code stores V0-V4 only
    (web/mvm.js:1612-1622), so the homes of V5-V8 hold leftovers where the
    interpreter's hold registers, and both are roots: the two machines move
    different objects, to different places, at different times.  What the
    program sees of words that correspond stays the same. */
module Renaming {
  import opened Words
  import opened Results
  import opened Heap
  import opened Observe
  import opened Isa
  import opened Interp
  import opened Translate
  import opened Tiers
  import opened Discipline
  import opened Pairing
  import opened Simulation
  import opened Agreement

  /** Corresponding words can be compared for equality, tested for NIL and
      called alike. */
  ghost predicate Proper(e: Same) {
    && (forall x, y, x', y' :: e(x, y) && e(x', y') ==> (x == x' <==> y == y'))
    && forall x, y :: e(x, y) ==> (x == Nil() <==> y == Nil()) && FnTarget(x) == FnTarget(y)
  }

  /** So those instructions do not tell them apart. */
  lemma ProperBlind(w: World, w': World, e: Same, a: Core, insn: Insn)
    requires Proper(e) && a.frames != [] && a.Top().Valid() && Regs(insn) && e(Tee(), Tee())
    requires insn.Cmp? || insn.BranchNil? || insn.CallInd?
    ensures Blind(w, w', e, false, a, insn)
  {
    hide FnTarget, Cmp64;
    if insn.Cmp? { ProperCmp(e, a.Get(insn.a), a.Get(insn.b)); }
  }

  lemma ProperCmp(e: Same, x: Word, y: Word)
    requires Proper(e)
    ensures BlindCmp(e, false, x, y)
  {
    hide FnTarget;
  }

  /** What a collection makes of a word it does not mistake. */
  ghost predicate Known(s: Snap, p: Plan, w: Word)
    requires s.Sized() && |p.owner| == |p.origin|
  {
    p.Resolved(s, w) && !Spells(s, p, w)
  }

  /** NIL and function values are no references, and no reference becomes one. */
  lemma KindSurvives(s: Snap, t: Snap, p: Plan, w: Word)
    requires s.Sized() && Collected(s, t, p)
    ensures p.Rename(s, w) == Nil() <==> w == Nil()
    ensures FnTarget(p.Rename(s, w)) == FnTarget(w)
  {
    if s.Moves(w) && Target(w) in p.fwd {
      RefToParts(p.fwd[Target(w)], w.lo % 16);
      hide Collected, Snap.Fits;
    }
  }

  // ---- real collections -------------------------------------------------------------------

  datatype Collection = Collection(s: Snap, t: Snap, p: Plan, end: int) {
    ghost predicate Real() {
      s.HeapOk(end) && s.len == Lengths(s.m) && Collected(s, t, p) && |p.owner| == |p.origin|
    }
  }

  /** What each check of a machine found, if it collected. */
  type Log = nat -> Option<Collection>

  /** The machine's collections are real ones. */
  ghost predicate Collects(w: World, log: Log) {
    forall n ::
      && w.full(n) == log(n).Some?
      && (log(n).Some? ==> log(n).value.Real() && forall x :: w.move(n, x) == log(n).value.p.Rename(log(n).value.s, x))
  }

  /** The n-th check does not mistake x. */
  ghost predicate KnownAt(log: Log, n: nat, x: Word) {
    log(n).Some? ==> log(n).value.Real() && Known(log(n).value.s, log(n).value.p, x)
  }

  lemma MoverIs(w: World, log: Log, n: nat, x: Word)
    requires Collects(w, log)
    ensures log(n).Some? ==> log(n).value.Real()
    ensures Mover(w)(n, x) == if log(n).Some? then log(n).value.p.Rename(log(n).value.s, x) else x
  {
    hide Collection.Real, Plan.Rename;
  }

  lemma MoverEqual(w: World, log: Log, n: nat, v: Word, x: Word)
    requires Collects(w, log) && KnownAt(log, n, v) && KnownAt(log, n, x)
    ensures Mover(w)(n, v) == Mover(w)(n, x) <==> v == x
  {
    MoverIs(w, log, n, v);
    MoverIs(w, log, n, x);
    hide Collects, Mover, Known, Plan.Rename, Collected, Snap.Tiles, Lengths;
    if log(n).Some? {
      var c := log(n).value;
      KnownEqual(c.s, c.t, c.p, c.end, v, x);
    }
  }

  lemma MoverKind(w: World, log: Log, n: nat, x: Word)
    requires Collects(w, log)
    ensures (Mover(w)(n, x) == Nil() <==> x == Nil()) && FnTarget(Mover(w)(n, x)) == FnTarget(x)
  {
    MoverIs(w, log, n, x);
    hide Collects, Mover, Plan.Rename, Collected, Snap.Tiles, Lengths, FnTarget;
    if log(n).Some? {
      KindSurvives(log(n).value.s, log(n).value.t, log(n).value.p, x);
    }
  }

  /** The correspondence of the live words behind both machines' n-th check. */
  ghost function Carried(w: World, w': World, n: nat, l: Alive, e: Same): Same {
    (v: Word, v': Word) => exists x, y :: l(x) && e(x, y) && v == Mover(w)(n, x) && v' == Mover(w')(n, y)
  }

  /** The checks of two machines, each collecting for itself or not, keep a
      correspondence proper, as long as they mistake no live word. */
  lemma ProperCarried(w: World, w': World, log: Log, log': Log, n: nat, l: Alive, e: Same)
    requires Collects(w, log) && Collects(w', log') && Proper(e)
    requires forall x, y :: l(x) && e(x, y) ==> KnownAt(log, n, x) && KnownAt(log', n, y)
    ensures Proper(Carried(w, w', n, l, e)) && Carries(w, w', n, l, e, Carried(w, w', n, l, e))
  {
    hide Collects, KnownAt, FnTarget, Mover, Proper;
    var e' := Carried(w, w', n, l, e);
    forall v, v', u, u' | e'(v, v') && e'(u, u')
      ensures v == u <==> v' == u'
    {
      var x, y :| l(x) && e(x, y) && v == Mover(w)(n, x) && v' == Mover(w')(n, y);
      var x1, y1 :| l(x1) && e(x1, y1) && u == Mover(w)(n, x1) && u' == Mover(w')(n, y1);
      MoverEqual(w, log, n, x, x1);
      MoverEqual(w', log', n, y, y1);
      ProperPair(e, x, y, x1, y1);
    }
    forall v, v' | e'(v, v')
      ensures (v == Nil() <==> v' == Nil()) && FnTarget(v) == FnTarget(v')
    {
      var x, y :| l(x) && e(x, y) && v == Mover(w)(n, x) && v' == Mover(w')(n, y);
      MoverKind(w, log, n, x);
      MoverKind(w', log', n, y);
      ProperPair(e, x, y, x, y);
    }
    ProperBy(e');
  }

  lemma ProperPair(e: Same, x: Word, y: Word, x': Word, y': Word)
    requires Proper(e) && e(x, y) && e(x', y')
    ensures (x == x' <==> y == y') && (x == Nil() <==> y == Nil()) && FnTarget(x) == FnTarget(y)
  {
    hide FnTarget;
  }

  lemma ProperBy(e: Same)
    requires forall x, y, x', y' :: e(x, y) && e(x', y') ==> (x == x' <==> y == y')
    requires forall x, y :: e(x, y) ==> (x == Nil() <==> y == Nil()) && FnTarget(x) == FnTarget(y)
    ensures Proper(e)
  {
    hide FnTarget;
  }

  lemma KnownEqual(s: Snap, t: Snap, p: Plan, end: int, v: Word, w: Word)
    requires s.HeapOk(end) && s.len == Lengths(s.m) && Collected(s, t, p) && |p.owner| == |p.origin| && Known(s, p, v) && Known(s, p, w)
    ensures p.Rename(s, v) == p.Rename(s, w) <==> v == w
  {
    hide Collected, Snap.Tiles, Lengths, Plan.Rename, Spells, Plan.Resolved;
    EqualitySurvives(s, t, p, end, v, w);
  }

  // ---- whole runs ---------------------------------------------------------------------------

  function Either(e: Same, f: Same): Same {
    (x: Word, y: Word) => e(x, y) || f(x, y)
  }

  /** New words are as different from the old ones in both machines. */
  ghost predicate Joins(e: Same, f: Same) {
    Proper(f) && forall x, y, x', y' :: e(x, y) && f(x', y') ==> (x == x' <==> y == y')
  }

  lemma ProperEither(e: Same, f: Same)
    requires Proper(e) && Joins(e, f)
    ensures Proper(Either(e, f))
  {
    hide FnTarget;
  }

  /** The correspondence behind n checks: the live words as the checks moved
      them, and those made since. */
  ghost function Built(w: World, w': World, made: nat -> Same, ls: nat -> Alive, n: nat): Same {
    if n == 0 then made(0) else Either(Carried(w, w', n - 1, ls(n - 1), Built(w, w', made, ls, n - 1)), made(n))
  }

  /** The collections are real and mistake no live word; made are the words
      made between them, ls the live ones at each. */
  ghost predicate Sound(w: World, w': World, log: Log, log': Log, made: nat -> Same, ls: nat -> Alive) {
    && Collects(w, log) && Collects(w', log') && Proper(made(0))
    && forall n: nat ::
         && (forall x, y :: ls(n)(x) && Built(w, w', made, ls, n)(x, y) ==> KnownAt(log, n, x) && KnownAt(log', n, y))
         && Joins(Carried(w, w', n, ls(n), Built(w, w', made, ls, n)), made(n + 1))
  }

  function Equalities(): nat -> Same {
    (n: nat) => Equality()
  }

  function NoCollections(): Log {
    (n: nat) => None
  }

  /** Machines that do not collect are sound, with every word for itself. */
  lemma SoundUncollected(w: World, w': World, ls: nat -> Alive)
    requires forall n: nat :: !w.full(n) && !w'.full(n)
    ensures Sound(w, w', NoCollections(), NoCollections(), Equalities(), ls)
  {
    hide FnTarget;
    forall n: nat, x: Word, y: Word
      ensures Built(w, w', Equalities(), ls, n)(x, y) <==> x == y
      ensures Carried(w, w', n, ls(n), Built(w, w', Equalities(), ls, n))(x, y) ==> x == y
    {
      CarriedEqual(w, w', ls, n, x, y);
    }
  }

  /** The pairs behind n checks are then those of equal words. */
  lemma {:induction false} BuiltEqual(w: World, w': World, ls: nat -> Alive, n: nat, x: Word, y: Word)
    requires forall m: nat :: !w.full(m) && !w'.full(m)
    ensures Built(w, w', Equalities(), ls, n)(x, y) <==> x == y
    decreases n, 0
  {
    if n > 0 { CarriedEqual(w, w', ls, n - 1, x, y); }
  }

  lemma {:induction false} CarriedEqual(w: World, w': World, ls: nat -> Alive, n: nat, x: Word, y: Word)
    requires forall m: nat :: !w.full(m) && !w'.full(m)
    ensures Built(w, w', Equalities(), ls, n)(x, y) <==> x == y
    ensures Carried(w, w', n, ls(n), Built(w, w', Equalities(), ls, n))(x, y) ==> x == y
    decreases n, 1
  {
    BuiltEqual(w, w', ls, n, x, y);
    forall u, v | Built(w, w', Equalities(), ls, n)(u, v)
      ensures u == v
    {
      BuiltEqual(w, w', ls, n, u, v);
    }
  }

  lemma SoundAt(w: World, w': World, log: Log, log': Log, made: nat -> Same, ls: nat -> Alive, n: nat)
    requires Sound(w, w', log, log', made, ls)
    ensures Collects(w, log) && Collects(w', log') && Proper(Built(w, w', made, ls, 0))
    ensures forall x, y :: ls(n)(x) && Built(w, w', made, ls, n)(x, y) ==> KnownAt(log, n, x) && KnownAt(log', n, y)
    ensures Joins(Carried(w, w', n, ls(n), Built(w, w', made, ls, n)), made(n + 1))
  {
    hide Collects, KnownAt, Joins, Proper, Mover, Carried;
  }

  lemma BuiltNext(w: World, w': World, made: nat -> Same, ls: nat -> Alive, n: nat)
    ensures Built(w, w', made, ls, n + 1) == Either(Carried(w, w', n, ls(n), Built(w, w', made, ls, n)), made(n + 1))
  {
    hide Carried, Either;
  }

  lemma CarriesMore(w: World, w': World, n: nat, l: Alive, e: Same, e': Same, f: Same)
    requires Carries(w, w', n, l, e, e')
    ensures Carries(w, w', n, l, e, Either(e', f))
  {
    hide Mover;
  }

  lemma {:induction false} BuiltProper(w: World, w': World, log: Log, log': Log, made: nat -> Same, ls: nat -> Alive, n: nat)
    requires Sound(w, w', log, log', made, ls)
    ensures Proper(Built(w, w', made, ls, n))
    ensures Carries(w, w', n, ls(n), Built(w, w', made, ls, n), Built(w, w', made, ls, n + 1))
    decreases n
  {
    hide Collects, KnownAt, Proper, Joins, Mover, Sound, Built, Carried, Carries, Either;
    SoundAt(w, w', log, log', made, ls, n);
    if n > 0 {
      SoundAt(w, w', log, log', made, ls, n - 1);
      BuiltProper(w, w', log, log', made, ls, n - 1);
      var e := Built(w, w', made, ls, n - 1);
      ProperCarried(w, w', log, log', n - 1, ls(n - 1), e);
      ProperEither(Carried(w, w', n - 1, ls(n - 1), e), made(n));
      BuiltNext(w, w', made, ls, n - 1);
    }
    var e := Built(w, w', made, ls, n);
    ProperCarried(w, w', log, log', n, ls(n), e);
    CarriesMore(w, w', n, ls(n), e, Carried(w, w', n, ls(n), e), made(n + 1));
    BuiltNext(w, w', made, ls, n);
  }

  /** What an instruction makes, it makes of corresponding words alike: constants,
      results of arithmetic and allocation, the order of numbers. */
  ghost predicate Makes(w: World, w': World, e: Same, order: bool, a: Core, insn: Insn)
    requires a.frames != [] && a.Top().Valid() && Regs(insn)
  {
    match insn
    case Li(_, k) => e(k, k)
    case Alu(op, _, p, q) => BlindAlu(w, w', e, op, a.Get(p), a.Get(q))
    case Delegate(op, _, p, q) => BlindAlu(w, w', e, op, a.Get(p), a.Get(q))
    case Cmp(p, q) => order ==> BlindCmp(e, true, a.Get(p), a.Get(q))
    case CallInd(_) => e(Tee(), Tee())
    case Setjmp => e(Nil(), Nil())
    case Longjmp => e(Tee(), Tee())
    case _ => true
  }

  /** Tests of equality and of NIL and indirect calls need nothing more. */
  lemma MakesBlind(w: World, w': World, e: Same, order: bool, a: Core, insn: Insn)
    requires a.frames != [] && a.Top().Valid() && Regs(insn) && Proper(e) && Makes(w, w', e, order, a, insn)
    ensures Blind(w, w', e, order, a, insn)
  {
    hide FnTarget, Cmp64;
    if insn.Cmp? { ProperCmp(e, a.Get(insn.a), a.Get(insn.b)); }
  }

  /** The instruction at hand makes its words alike and finds its function, and
      ls are the live words at a check. */
  ghost predicate Ordinary(w: World, w': World, co: Corr, ls: nat -> Alive, d: Cert, s: IState) {
    s.core.frames != [] && s.core.Top().Valid() && s.pc in w.code && Regs(w.code[s.pc].insn) ==>
      if w.code[s.pc].insn == GcCheck then Lives(ls(s.core.checks), d, s.pc, s.core)
      else Makes(w, w', co(s.core.checks), Ordered(d, s.pc + w.code[s.pc].len), s.core, w.code[s.pc].insn) && Reaches(w, d, s.core, s.pc)
  }

  ghost predicate OrdinaryRun(w: World, w': World, j: nat -> Frame, co: Corr, ls: nat -> Alive, d: Cert, i: IState)
    requires Junk(j)
  {
    forall k: nat :: Run(w, j, i, k).Some? ==> Ordinary(w, w', co, ls, d, Run(w, j, i, k).value)
  }

  lemma OrdinaryBlind(w: World, w': World, co: Corr, ls: nat -> Alive, d: Cert, s: IState)
    requires Proper(co(s.core.checks)) && Ordinary(w, w', co, ls, d, s)
    requires Carries(w, w', s.core.checks, ls(s.core.checks), co(s.core.checks), co(s.core.checks + 1))
    ensures BlindNow(w, w', co, d, s)
  {
    hide Proper, Makes, Blind, Carries, Lives, Reaches;
    if s.core.frames != [] && s.core.Top().Valid() && s.pc in w.code && Regs(w.code[s.pc].insn) && w.code[s.pc].insn != GcCheck {
      MakesBlind(w, w', co(s.core.checks), Ordered(d, s.pc + w.code[s.pc].len), s.core, w.code[s.pc].insn);
    }
  }

  ghost function Through(w: World, w': World, made: nat -> Same, ls: nat -> Alive): Corr {
    (n: nat) => Built(w, w', made, ls, n)
  }

  /** Two machines with real heaps, whose collections mistake no live word, and
      a program that looks at references only to compare them: the tiers agree
      up to the correspondence their own collections build, which keeps what is
      equal equal and what differs different, NIL and function values. */
  lemma CollectorsAgree(w: World, w': World, log: Log, log': Log, made: nat -> Same, ls: nat -> Alive,
                        j: nat -> Frame, j': nat -> Frame, d: Cert, p: Policy, c: Core, t: int)
    requires Setup(w, d, p) && SameProgram(w, w') && Junk(j) && Junk(j') && t in w.entries && t in d && Launched(c, t)
    requires AlwaysTranslates(w, p) || forall u :: u in p.funs ==> !p.funs[u].resumable
    requires Sound(w, w', log, log', made, ls)
    requires Greets(Built(w, w', made, ls, c.checks), d, c, t) && OrdinaryRun(w, w', j, Through(w, w', made, ls), ls, d, IState(c, t))
    ensures EndAlike(w, w', j, j', Through(w, w', made, ls), p, IState(c, t), Launch(p, c, t))
    ensures forall n: nat :: Proper(Built(w, w', made, ls, n))
  {
    hide Setup, Sound, Built, Greets, Run, Begin, AlwaysTranslates, EndAlike, Proper, Carries, Ordinary, BlindNow, SameProgram, Launched;
    var co := Through(w, w', made, ls);
    forall n: nat
      ensures Proper(co(n)) && Proper(Built(w, w', made, ls, n)) && Carries(w, w', n, ls(n), co(n), co(n + 1))
    {
      BuiltProper(w, w', log, log', made, ls, n);
    }
    forall k: nat | Run(w, j, IState(c, t), k).Some?
      ensures BlindNow(w, w', co, d, Run(w, j, IState(c, t), k).value)
    {
      OrdinaryBlind(w, w', co, ls, d, Run(w, j, IState(c, t), k).value);
    }
    TiersAgree(w, w', j, j', co, d, p, c, t);
  }

  // ---- why one renaming will not do for both -------------------------------------------------

  /** Roots decide: an object that a root of one machine refers to, and that
      another machine does not need, is moved by the one and not by the other. */
  lemma RootsDecide(s: Snap, t: Snap, p: Plan, s': Snap, t': Snap, p': Plan, i: int, R: set<int>)
    requires s.Sized() && Collected(s, t, p) && s'.Sized() && Collected(s', t', p')
    requires s.IsRoot(i) && 0 <= i < |s.m| && s.Moves(s.m[i]) && s'.Closed(R) && Target(s.m[i]) !in R
    ensures Target(s.m[i]) in p.fwd && Target(s.m[i]) !in p'.fwd
  {
    RootsResolved(s, t, p, i);
    assert p'.fwd.Keys <= R;
  }

  /** And the roots do differ.  Behind a call the interpreter's caller still
      has its V5-V8 in their homes; the translated one has there what the
      homes held before, whatever its V5-V8 are. */
  lemma CallLeaves(w: World, w': World, j: nat -> Frame, j': nat -> Frame, p: Policy, i: IState, m: MState, t: int)
    requires Junk(j) && Junk(j') && i.core.frames != [] && i.core.Top().Valid() && i.pc in w.code && w.code[i.pc].insn == Call(t) && t in w.entries
    requires m.ctl.Compiled? && |m.ctl.loc| == 9 && m.core.frames != [] && m.core.Top().Valid() && t in w'.entries
    requires m.ctl.rest != [] && m.ctl.rest[0].CallOp? && m.ctl.rest[0].f == Direct(t)
    ensures Step(w, j, i).Some? && |Step(w, j, i).value.core.frames| == |i.core.frames| + 1
    ensures Step(w, j, i).value.core.frames[|i.core.frames| - 1] == i.core.Top()
    ensures var c := MixedStep(w', j', p, m).core;
      && |c.frames| == |m.core.frames| + 1
      && c.frames[|m.core.frames| - 1].home == m.ctl.loc[..5] + m.core.Top().home[5..]
  {
    StepCalls(w, j, i, t);
    MixedCalls(w', j', p, m, t);
    hide Step, MixedStep, NewFrame;
  }
}
