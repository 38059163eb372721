/** Whole runs of the two tiers: they end together, in corresponding states, or
    fault together, or both go on for ever, as long as every longjmp can reach
    its target, and when that is so.  The machines collect for themselves; where
    they collect alike, or not at all, the states they end in are equal. */
module Agreement {
  import opened Words
  import opened Isa
  import opened Results
  import opened Interp
  import opened Translate
  import opened Tiers
  import opened Discipline
  import opened Control
  import opened Pairing
  import opened Simulation

  /** callFn (web/mvm.js:1336-1342) entering t: one activation, no handler. */
  ghost predicate Launched(c: Core, t: int) {
    && |c.frames| == 1 && c.Top().Valid() && c.Top().ret == SENTINEL && c.Top().fn == t && c.Top().id <= c.calls
    && c.hs == Handlers(None, [], 0)
  }

  function Launch(p: Policy, c: Core, t: int): MState
    requires c.frames != [] && c.Top().Valid()
  {
    MState(c, if p.Uses(c.calls, t) then Begin(p.funs[t], 0, c.Top().home) else Interpreting(t), [])
  }

  /** The correspondence of the two machines' words after so many checks. */
  type Corr = nat -> Same

  /** The words a function is entered with stand for themselves. */
  ghost predicate Greets(e: Same, d: Cert, c: Core, t: int)
    requires t in d && c.frames != [] && c.Top().Valid()
  {
    && e(c.vr, c.vr) && (forall i :: 0 <= i < |c.Top().stk| ==> e(c.Top().stk[i], c.Top().stk[i]))
    && forall v :: v in d[t].regs && v < 16 ==> e(c.Top().home[v], c.Top().home[v])
  }

  lemma LaunchRel(w: World, e: Same, d: Cert, p: Policy, c: Core, t: int)
    requires Setup(w, d, p) && t in w.entries && t in d && Launched(c, t) && Greets(e, d, c, t)
    ensures Rel(w, e, d, p, IState(c, t), Launch(p, c, t))
  {
    hide Rule, Usable;
    assert Alike(e, c.frames[0], c.frames[0]);
    assert AllAlike(e, c.frames, c.frames);
    InFnEntry(w, d, p, t);
    var into := p.Uses(c.calls, t);
    assert EntryOk(d[t]);
    hide Setup, Begin;
    assert Match(e, d, p, c.frames, c.frames, into, []);
    StartRel(w, e, d, p, t, c, c, into, []);
  }

  // ---- runs ---------------------------------------------------------------------------

  lemma {:induction false} StepsSnoc(w: World, j: nat -> Frame, i: IState, k: nat)
    requires Junk(j)
    ensures Run(w, j, i, k + 1) == match Run(w, j, i, k) case None => None case Some(s) => Step(w, j, s)
    decreases k
  {
    hide Step;
    match Step(w, j, i)
    case None =>
    case Some(t) =>
      if k > 0 { StepsSnoc(w, j, t, k - 1); } else { assert Run(w, j, t, 0) == Some(t); }
  }

  lemma {:induction false} MixedPlus(w: World, j: nat -> Frame, p: Policy, m: MState, n: nat, k: nat)
    requires Junk(j)
    ensures MixedRun(w, j, p, m, n + k) == MixedRun(w, j, p, MixedRun(w, j, p, m, n), k)
    decreases n
  {
    hide MixedStep;
    if n > 0 {
      MixedPlus(w, j, p, MixedStep(w, j, p, m), n - 1, k);
    }
  }

  /** A machine that has stopped stays as it is. */
  lemma {:induction false} Stopped(w: World, j: nat -> Frame, p: Policy, m: MState, n: nat)
    requires Junk(j) && (m.ctl.Finished? || m.ctl.Lost?)
    ensures MixedRun(w, j, p, m, n) == m
    decreases n
  {
    if n > 0 {
      Stopped(w, j, p, m, n - 1);
    }
  }

  /** The interpreter after k instructions is where the other machine is after n steps. */
  ghost predicate Meets(w: World, w': World, j: nat -> Frame, j': nat -> Frame, co: Corr, d: Cert, p: Policy, i: IState, m: MState, k: nat, n: nat)
    requires Junk(j) && Junk(j')
  {
    Run(w, j, i, k).Some? && Rel(w, co(Run(w, j, i, k).value.core.checks), d, p, Run(w, j, i, k).value, MixedRun(w', j', p, m, n))
  }

  /** The correspondence suits the interpreter's run: no instruction of it
      tells corresponding words apart. */
  ghost predicate BlindNow(w: World, w': World, co: Corr, d: Cert, s: IState) {
    BlindStep(w, w', co(s.core.checks), co(NextChecks(w, s)), d, s)
  }

  function NextChecks(w: World, s: IState): nat {
    s.core.checks + if s.pc in w.code && w.code[s.pc].insn == GcCheck then 1 else 0
  }

  ghost predicate BlindRun(w: World, w': World, j: nat -> Frame, co: Corr, d: Cert, i: IState)
    requires Junk(j)
  {
    forall k: nat :: Run(w, j, i, k).Some? ==> BlindNow(w, w', co, d, Run(w, j, i, k).value)
  }

  /** Every indirect call of the run finds its arguments. */
  ghost predicate ReachesNow(w: World, d: Cert, s: IState) {
    s.core.frames != [] && s.core.Top().Valid() && s.pc in w.code && Regs(w.code[s.pc].insn) ==> Reaches(w, d, s.core, s.pc)
  }

  ghost predicate ReachesRun(w: World, j: nat -> Frame, d: Cert, i: IState)
    requires Junk(j)
  {
    forall k: nat :: Run(w, j, i, k).Some? ==> ReachesNow(w, d, Run(w, j, i, k).value)
  }

  /** They do whatever they reach where every function's arguments are live. */
  lemma ReachesAll(w: World, j: nat -> Frame, d: Cert, i: IState)
    requires Junk(j) && forall pc, t :: pc in w.code && pc in d && w.code[pc].insn.CallInd? && t in w.entries ==> Passes(w, d, t, d[pc])
    ensures ReachesRun(w, j, d, i)
  {
    hide Run, FnTarget, Passes;
  }

  lemma StepChecks(w: World, j: nat -> Frame, s: IState)
    requires Junk(j) && Step(w, j, s).Some?
    ensures Step(w, j, s).value.core.checks == NextChecks(w, s)
  {
  }

  /** VR, the handlers and the counts correspond. */
  ghost predicate EndsAlike(co: Corr, a: Core, b: Core) {
    SameRest(co(a.checks), a, b)
  }

  /** Every longjmp of the run can reach its target. */
  ghost predicate Benign(w: World, w': World, j: nat -> Frame, j': nat -> Frame, co: Corr, d: Cert, p: Policy, i: IState, m: MState)
    requires Junk(j) && Junk(j')
  {
    forall k: nat, n: nat :: Meets(w, w', j, j', co, d, p, i, m, k, n) ==> JumpsWell(w, Run(w, j, i, k).value, MixedRun(w', j', p, m, n))
  }

  /** One instruction further. */
  lemma MeetsNext(w: World, w': World, j: nat -> Frame, j': nat -> Frame, co: Corr, d: Cert, p: Policy, i: IState, m: MState, k: nat, n: nat) returns (n': nat)
    requires Setup(w, d, p) && SameProgram(w, w') && Junk(j) && Junk(j') && BlindRun(w, w', j, co, d, i)
    requires Benign(w, w', j, j', co, d, p, i, m)
    requires Meets(w, w', j, j', co, d, p, i, m, k, n) && Run(w, j, i, k).value.core.frames != []
    ensures n' > n
    ensures Step(w, j, Run(w, j, i, k).value).Some? ==> Meets(w, w', j, j', co, d, p, i, m, k + 1, n')
    ensures Step(w, j, Run(w, j, i, k).value).None? ==> MixedRun(w', j', p, m, n').ctl == Lost
  {
    hide Setup, Rel, Step, MixedStep, JumpsWell, BlindStep;
    var x := Run(w, j, i, k).value;
    assert BlindNow(w, w', co, d, x);
    var s := StepSimulates(w, w', j, j', co(x.core.checks), co(NextChecks(w, x)), d, p, x, MixedRun(w', j', p, m, n));
    if Step(w, j, x).Some? { StepChecks(w, j, x); }
    n' := n + s;
    MixedPlus(w', j', p, m, n, s);
    StepsSnoc(w, j, i, k);
  }

  /** The mixed machine keeps up with the interpreter. */
  lemma {:induction false} RunSimulates(w: World, w': World, j: nat -> Frame, j': nat -> Frame, co: Corr, d: Cert, p: Policy, i: IState, m: MState, k: nat) returns (n: nat)
    requires Setup(w, d, p) && SameProgram(w, w') && Junk(j) && Junk(j') && BlindRun(w, w', j, co, d, i)
    requires Rel(w, co(i.core.checks), d, p, i, m) && Benign(w, w', j, j', co, d, p, i, m)
    ensures Run(w, j, i, k).Some? ==> n >= k && Meets(w, w', j, j', co, d, p, i, m, k, n)
    decreases k
  {
    hide Setup, Rel, Benign, Step, MixedStep;
    n := 0;
    if k > 0 {
      n := RunSimulates(w, w', j, j', co, d, p, i, m, k - 1);
      StepsSnoc(w, j, i, k - 1);
      if Run(w, j, i, k).Some? {
        StepEnds(w, j, Run(w, j, i, k - 1).value);
        n := MeetsNext(w, w', j, j', co, d, p, i, m, k - 1, n);
      }
    }
  }

  lemma StepEnds(w: World, j: nat -> Frame, s: IState)
    requires Junk(j) && Step(w, j, s).Some?
    ensures s.core.frames != []
  {
  }

  // ---- outcomes -------------------------------------------------------------------------

  /** The interpreter returns from the outermost activation after k instructions. */
  predicate Returns(w: World, j: nat -> Frame, i: IState, k: nat)
    requires forall n: nat :: j(n).Valid()
  {
    Run(w, j, i, k).Some? && Run(w, j, i, k).value.core.frames == []
  }

  predicate Faults(w: World, j: nat -> Frame, i: IState, k: nat)
    requires forall n: nat :: j(n).Valid()
  {
    Run(w, j, i, k).Some? && Run(w, j, i, k).value.core.frames != [] && Step(w, j, Run(w, j, i, k).value).None?
  }

  /** What the interpreter does, the mixed machine does. */
  lemma Follows(w: World, w': World, j: nat -> Frame, j': nat -> Frame, co: Corr, d: Cert, p: Policy, i: IState, m: MState, k: nat) returns (n: nat)
    requires Setup(w, d, p) && SameProgram(w, w') && Junk(j) && Junk(j') && BlindRun(w, w', j, co, d, i)
    requires Rel(w, co(i.core.checks), d, p, i, m) && Benign(w, w', j, j', co, d, p, i, m)
    ensures Returns(w, j, i, k) ==> MixedRun(w', j', p, m, n).ctl == Finished && EndsAlike(co, Run(w, j, i, k).value.core, MixedRun(w', j', p, m, n).core)
    ensures Faults(w, j, i, k) ==> MixedRun(w', j', p, m, n).ctl == Lost
  {
    hide Setup, Benign, Step, MixedStep, MixedRun, Run;
    n := RunSimulates(w, w', j, j', co, d, p, i, m, k);
    if Faults(w, j, i, k) {
      n := MeetsNext(w, w', j, j', co, d, p, i, m, k, n);
    }
  }

  /** What the mixed machine does, the interpreter does: it returns exactly
      when the mixed machine finishes, with the same result, and faults exactly
      when it is lost. */
  lemma Reflects(w: World, w': World, j: nat -> Frame, j': nat -> Frame, co: Corr, d: Cert, p: Policy, i: IState, m: MState, n: nat) returns (k: nat)
    requires Setup(w, d, p) && SameProgram(w, w') && Junk(j) && Junk(j') && BlindRun(w, w', j, co, d, i)
    requires Rel(w, co(i.core.checks), d, p, i, m) && Benign(w, w', j, j', co, d, p, i, m)
    ensures var m' := MixedRun(w', j', p, m, n);
      && (m'.ctl == Finished ==> Returns(w, j, i, k) && EndsAlike(co, Run(w, j, i, k).value.core, m'.core))
      && (m'.ctl == Lost ==> Faults(w, j, i, k))
  {
    hide Setup, Rel, Benign, Step, MixedStep;
    var s := RunSimulates(w, w', j, j', co, d, p, i, m, 0);
    k := Settles(w, w', j, j', co, d, p, i, m, n, 0, s);
  }

  /** From the k-th instruction on, the interpreter stops at the latest when
      the mixed machine's n-th step is passed. */
  lemma {:induction false} Settles(w: World, w': World, j: nat -> Frame, j': nat -> Frame, co: Corr, d: Cert, p: Policy, i: IState, m: MState, n: nat, k0: nat, s: nat) returns (k: nat)
    requires Setup(w, d, p) && SameProgram(w, w') && Junk(j) && Junk(j') && BlindRun(w, w', j, co, d, i)
    requires Benign(w, w', j, j', co, d, p, i, m)
    requires Meets(w, w', j, j', co, d, p, i, m, k0, s)
    ensures var m' := MixedRun(w', j', p, m, n);
      && (m'.ctl == Finished ==> Returns(w, j, i, k) && EndsAlike(co, Run(w, j, i, k).value.core, m'.core))
      && (m'.ctl == Lost ==> Faults(w, j, i, k))
    decreases if s > n then 0 else n + 1 - s
  {
    hide Setup, Benign, Step, MixedStep, MixedRun, Run, CoreRel, TransRel, At;
    k := k0;
    StopsAlike(w', j', p, m, n, s);
    if Run(w, j, i, k0).value.core.frames != [] && s <= n {
      var s' := MeetsNext(w, w', j, j', co, d, p, i, m, k0, s);
      StopsAlike(w', j', p, m, n, s');
      if Step(w, j, Run(w, j, i, k0).value).Some? {
        k := Settles(w, w', j, j', co, d, p, i, m, n, k0 + 1, s');
      }
    }
  }

  lemma StopsAlike(w: World, j: nat -> Frame, p: Policy, m: MState, n: nat, s: nat)
    requires Junk(j)
    ensures var x, y := MixedRun(w, j, p, m, n), MixedRun(w, j, p, m, s);
      && (n <= s && (x.ctl.Finished? || x.ctl.Lost?) ==> y == x)
      && (s <= n && (y.ctl.Finished? || y.ctl.Lost?) ==> x == y)
  {
    hide MixedStep;
    var x, y := MixedRun(w, j, p, m, n), MixedRun(w, j, p, m, s);
    if n <= s {
      MixedPlus(w, j, p, m, n, s - n);
      if x.ctl.Finished? || x.ctl.Lost? { Stopped(w, j, p, x, s - n); }
    } else {
      MixedPlus(w, j, p, m, s, n - s);
      if y.ctl.Finished? || y.ctl.Lost? { Stopped(w, j, p, y, n - s); }
    }
  }

  // ---- programs whose longjmps all reach ----------------------------------------------------

  /** The activation of a function without a translation is interpreted. */
  lemma {:induction false} InterpTarget(e: Same, d: Cert, p: Policy, F: seq<Frame>, G: seq<Frame>, trans: bool, pend: seq<Item>, t: nat)
    requires Match(e, d, p, F, G, trans, pend) && 0 < t <= |F| && F[t - 1].fn !in p.funs
    requires trans ==> F[|F| - 1].fn in p.funs
    ensures InterpAt(G, trans, pend, t)
    decreases |F|
  {
    hide Match;
    ReturnMatches(e, d, p, F, G, trans, pend);
    var n := |F|;
    MatchSizes(e, d, p, F, G, trans, pend);
    if t < n {
      match Returning(G[n - 1].ret, trans, pend)
      case ToInterp(_, q) => InterpTarget(e, d, p, F[..n - 1], G[..n - 1], false, q, t);
      case ToTrans(_, _, q) => InterpTarget(e, d, p, F[..n - 1], G[..n - 1], true, q, t);
      case _ =>
    }
  }

  lemma MatchSizes(e: Same, d: Cert, p: Policy, F: seq<Frame>, G: seq<Frame>, trans: bool, pend: seq<Item>)
    requires Match(e, d, p, F, G, trans, pend)
    ensures |F| == |G| > 0
  {
  }

  /** What JumpsWell asks, in terms of the related states. */
  lemma JumpsWellBy(w: World, e: Same, d: Cert, p: Policy, i: IState, m: MState)
    requires Rel(w, e, d, p, i, m)
    requires i.core.frames != [] && Armed(i.core) ==>
      var trans := m.ctl.Compiled?; var a, v := i.core, if trans && m.core.frames != [] && m.core.Top().Valid() && |m.ctl.loc| == 9 then View(m.core, m.ctl.loc, m.ctl.cmp) else m.core;
      CoreRel(e, d, p, i.pc, a, v, trans, m.pend) && (trans ==> a.Top().fn in p.funs) ==> Reachable(v.frames, trans, m.pend, a.hs.cur.value.depth)
    ensures JumpsWell(w, i, m)
  {
    hide CoreRel, Reachable, At;
    if i.core.frames != [] && Armed(i.core) && m.ctl.Compiled? {
      var v := View(m.core, m.ctl.loc, m.ctl.cmp);
      assert v.frames == m.core.frames[..|m.core.frames| - 1] + [v.Top()];
      ReachableTop(m.core.frames, v.Top(), true, m.pend, i.core.hs.cur.value.depth);
    }
  }

  /** When no function with a setjmp is translated, every longjmp reaches its
      target: all of them are interpreted. */
  lemma PlainBenign(w: World, w': World, j: nat -> Frame, j': nat -> Frame, co: Corr, d: Cert, p: Policy, i: IState, m: MState)
    requires Junk(j) && Junk(j') && forall t :: t in p.funs ==> !p.funs[t].resumable
    ensures Benign(w, w', j, j', co, d, p, i, m)
  {
    forall k: nat, n: nat | Meets(w, w', j, j', co, d, p, i, m, k, n)
      ensures JumpsWell(w, Run(w, j, i, k).value, MixedRun(w', j', p, m, n))
    {
      PlainJumps(w, co(Run(w, j, i, k).value.core.checks), d, p, Run(w, j, i, k).value, MixedRun(w', j', p, m, n));
    }
  }

  lemma PlainJumps(w: World, e: Same, d: Cert, p: Policy, i: IState, m: MState)
    requires Rel(w, e, d, p, i, m) && forall t :: t in p.funs ==> !p.funs[t].resumable
    ensures JumpsWell(w, i, m)
  {
    hide Match, InterpAt, Agree, At, JumpsWell;
    if i.core.frames != [] && Armed(i.core) {
      var trans := m.ctl.Compiled?;
      var v := if trans then View(m.core, m.ctl.loc, m.ctl.cmp) else m.core;
      var h := i.core.hs.cur.value;
      assert HandlerOk(e, d, p, i.core.frames, v.frames, i.core.calls, i.core.hs.cur);
      assert SavedOk(e, d, p, h, i.core.frames[h.depth - 1], v.frames[h.depth - 1]);
      InterpTarget(e, d, p, i.core.frames, v.frames, trans, m.pend, h.depth);
    }
    JumpsWellBy(w, e, d, p, i, m);
  }

  predicate AllConts(pend: seq<Item>) {
    forall i :: 0 <= i < |pend| ==> pend[i].Cont?
  }

  /** Only translated code runs. */
  predicate Pure(m: MState) {
    !m.ctl.Interpreting? && (m.ctl.Compiled? ==> AllConts(m.pend))
  }

  ghost predicate AlwaysTranslates(w: World, p: Policy) {
    forall t :: t in w.entries ==> t in p.funs && forall n: nat :: p.pick(n, t)
  }

  lemma ThrowPure(h: Handler, pend: seq<Item>)
    requires AllConts(pend)
    ensures var to := ThrowDriver(h, pend); to == ToNowhere || (to.ToTrans? && AllConts(to.pend))
    decreases |pend|
  {
    if pend != [] {
      ThrowPure(h, pend[..|pend| - 1]);
    }
  }

  /** A driver whose functions are all translated never leaves translated code. */
  lemma PureStep(w: World, j: nat -> Frame, p: Policy, m: MState)
    requires Junk(j) && AlwaysTranslates(w, p) && Pure(m)
    ensures Pure(MixedStep(w, j, p, m))
  {
    hide Find, Loaded, ExecLocal, ExecOpen, ThrowFrom, Enter, Replace, TTaken, Collect, FnTarget;
    if m.ctl.Compiled? && m.core.frames != [] && m.core.Top().Valid() && |m.ctl.loc| == 9 {
      PureThrow(m, Spill(m.core, m.ctl.loc));
      PureThrow(m, Spill5(m.core, m.ctl.loc));
    }
  }

  lemma PureThrow(m: MState, b: Core)
    requires m.ctl.Compiled? && Pure(m)
    ensures Pure(ThrowFrom(m, b))
  {
    hide Find, Loaded, Restore;
    if Armed(b) { ThrowPure(b.hs.cur.value, m.pend); }
  }

  lemma {:induction false} PureRun(w: World, j: nat -> Frame, p: Policy, m: MState, n: nat)
    requires Junk(j) && AlwaysTranslates(w, p) && Pure(m)
    ensures Pure(MixedRun(w, j, p, m, n))
    decreases n
  {
    hide MixedStep, Pure;
    if n > 0 {
      PureStep(w, j, p, m);
      PureRun(w, j, p, MixedStep(w, j, p, m), n - 1);
    }
  }

  lemma {:induction false} PureSegment(e: Same, d: Cert, p: Policy, F: seq<Frame>, G: seq<Frame>, pend: seq<Item>, t: nat)
    requires Match(e, d, p, F, G, true, pend) && AllConts(pend) && 0 < t <= |F|
    ensures InSegment(|F|, pend, t)
    decreases |F|
  {
    if t < |F| {
      PureSegment(e, d, p, F[..|F| - 1], G[..|G| - 1], pend[..|pend| - 1], t);
    }
  }

  /** When every function is translated, every longjmp reaches its target. */
  lemma PureBenign(w: World, w': World, j: nat -> Frame, j': nat -> Frame, co: Corr, d: Cert, p: Policy, i: IState, m: MState)
    requires SameProgram(w, w') && Junk(j) && Junk(j') && AlwaysTranslates(w, p) && Pure(m)
    ensures Benign(w, w', j, j', co, d, p, i, m)
  {
    hide Rel, JumpsWell, Pure;
    forall k: nat, n: nat | Meets(w, w', j, j', co, d, p, i, m, k, n)
      ensures JumpsWell(w, Run(w, j, i, k).value, MixedRun(w', j', p, m, n))
    {
      PureRun(w', j', p, m, n);
      PureJumps(w, co(Run(w, j, i, k).value.core.checks), d, p, Run(w, j, i, k).value, MixedRun(w', j', p, m, n));
    }
  }

  lemma PureJumps(w: World, e: Same, d: Cert, p: Policy, i: IState, m: MState)
    requires Rel(w, e, d, p, i, m) && Pure(m)
    ensures JumpsWell(w, i, m)
  {
    hide Match, InterpAt, InSegment, Paired, At, JumpsWell;
    if i.core.frames != [] && Armed(i.core) {
      var v := View(m.core, m.ctl.loc, m.ctl.cmp);
      MatchSizes(e, d, p, i.core.frames, v.frames, true, m.pend);
      PureSegment(e, d, p, i.core.frames, v.frames, m.pend, i.core.hs.cur.value.depth);
    }
    JumpsWellBy(w, e, d, p, i, m);
  }

  /** The mixed machine finishes, or faults, at its n-th step. */
  ghost predicate Finishes(w: World, j: nat -> Frame, p: Policy, m: MState, n: nat)
    requires Junk(j)
  {
    MixedRun(w, j, p, m, n).ctl == Finished
  }

  ghost predicate Loses(w: World, j: nat -> Frame, p: Policy, m: MState, n: nat)
    requires Junk(j)
  {
    MixedRun(w, j, p, m, n).ctl == Lost
  }

  /** The interpreter from i and the mixed machine from m return together, in
      corresponding states, and fault together. */
  ghost predicate EndAlike(w: World, w': World, j: nat -> Frame, j': nat -> Frame, co: Corr, p: Policy, i: IState, m: MState)
    requires Junk(j) && Junk(j')
  {
    && ((exists k: nat :: Returns(w, j, i, k)) <==> (exists n: nat :: Finishes(w', j', p, m, n)))
    && ((exists k: nat :: Faults(w, j, i, k)) <==> (exists n: nat :: Loses(w', j', p, m, n)))
    && forall k: nat, n: nat :: Returns(w, j, i, k) && Finishes(w', j', p, m, n)
          ==> EndsAlike(co, Run(w, j, i, k).value.core, MixedRun(w', j', p, m, n).core)
  }

  lemma BenignAgree(w: World, w': World, j: nat -> Frame, j': nat -> Frame, co: Corr, d: Cert, p: Policy, i: IState, m: MState)
    requires Setup(w, d, p) && SameProgram(w, w') && Junk(j) && Junk(j') && BlindRun(w, w', j, co, d, i)
    requires Rel(w, co(i.core.checks), d, p, i, m) && Benign(w, w', j, j', co, d, p, i, m)
    ensures EndAlike(w, w', j, j', co, p, i, m)
  {
    hide Setup, Benign, Rel, Run, MixedRun;
    forall k: nat | Returns(w, j, i, k)
      ensures exists n: nat :: Finishes(w', j', p, m, n)
    {
      var n := Follows(w, w', j, j', co, d, p, i, m, k);
      assert Finishes(w', j', p, m, n);
    }
    forall k: nat | Faults(w, j, i, k)
      ensures exists n: nat :: Loses(w', j', p, m, n)
    {
      var n := Follows(w, w', j, j', co, d, p, i, m, k);
      assert Loses(w', j', p, m, n);
    }
    forall n: nat | Finishes(w', j', p, m, n)
      ensures exists k: nat :: Returns(w, j, i, k)
    {
      var k := Reflects(w, w', j, j', co, d, p, i, m, n);
    }
    forall n: nat | Loses(w', j', p, m, n)
      ensures exists k: nat :: Faults(w, j, i, k)
    {
      var k := Reflects(w, w', j, j', co, d, p, i, m, n);
    }
    forall k: nat, n: nat | Returns(w, j, i, k) && Finishes(w', j', p, m, n)
      ensures EndsAlike(co, Run(w, j, i, k).value.core, MixedRun(w', j', p, m, n).core)
    {
      var n' := Follows(w, w', j, j', co, d, p, i, m, k);
      StopsAlike(w', j', p, m, n, n');
    }
  }

  /** The two tiers agree.  From any call of a function, in a program whose
      setjmp-functions are all interpreted or in which everything is
      translated, whatever the frames happened to contain, and whenever each
      machine collects and wherever it moves things, the mixed machine ends as
      the interpreter does, up to a correspondence of words that suits the run. */
  lemma TiersAgree(w: World, w': World, j: nat -> Frame, j': nat -> Frame, co: Corr, d: Cert, p: Policy, c: Core, t: int)
    requires Setup(w, d, p) && SameProgram(w, w') && Junk(j) && Junk(j') && t in w.entries && t in d && Launched(c, t)
    requires Greets(co(c.checks), d, c, t) && BlindRun(w, w', j, co, d, IState(c, t))
    requires AlwaysTranslates(w, p) || forall u :: u in p.funs ==> !p.funs[u].resumable
    ensures EndAlike(w, w', j, j', co, p, IState(c, t), Launch(p, c, t))
  {
    hide Setup, Benign, Rel, EndAlike, Begin, AlwaysTranslates, Greets, BlindRun, SameProgram;
    LaunchRel(w, co(c.checks), d, p, c, t);
    LaunchBenign(w, w', j, j', co, d, p, c, t);
    BenignAgree(w, w', j, j', co, d, p, IState(c, t), Launch(p, c, t));
  }

  lemma LaunchBenign(w: World, w': World, j: nat -> Frame, j': nat -> Frame, co: Corr, d: Cert, p: Policy, c: Core, t: int)
    requires Setup(w, d, p) && SameProgram(w, w') && Junk(j) && Junk(j') && t in w.entries && Launched(c, t)
    requires AlwaysTranslates(w, p) || forall u :: u in p.funs ==> !p.funs[u].resumable
    ensures Benign(w, w', j, j', co, d, p, IState(c, t), Launch(p, c, t))
  {
    hide Setup, Benign, Find, Loaded, SameProgram;
    if AlwaysTranslates(w, p) {
      assert Pure(Launch(p, c, t));
      PureBenign(w, w', j, j', co, d, p, IState(c, t), Launch(p, c, t));
    } else {
      PlainBenign(w, w', j, j', co, d, p, IState(c, t), Launch(p, c, t));
    }
  }

  // ---- machines that collect alike ----------------------------------------------------------

  /** The same arithmetic, and the same effect of every check on every word:
      above all, no collection in either machine. */
  ghost predicate CollectAlike(w: World, w': World) {
    && (forall op, x, y :: w'.alu(op, x, y) == w.alu(op, x, y))
    && forall n, x :: Mover(w')(n, x) == Mover(w)(n, x)
  }

  function Equality(): Same {
    (x: Word, y: Word) => x == y
  }

  /** Then equality is a correspondence that suits every run. */
  lemma EqualBlind(w: World, w': World, d: Cert, s: IState)
    requires CollectAlike(w, w') && ReachesNow(w, d, s)
    ensures BlindStep(w, w', Equality(), Equality(), d, s)
  {
    if s.core.frames != [] && s.core.Top().Valid() && s.pc in w.code && Regs(w.code[s.pc].insn) {
      var insn, next := w.code[s.pc].insn, s.pc + w.code[s.pc].len;
      if insn == GcCheck {
        EqualCarries(w, w', d, s.pc, s.core);
      } else {
        EqualInsn(w, w', Ordered(d, next), s.core, insn);
      }
    }
  }

  lemma EqualCarries(w: World, w': World, d: Cert, pc: int, a: Core)
    requires CollectAlike(w, w')
    ensures exists l: Alive :: Lives(l, d, pc, a) && Carries(w, w', a.checks, l, Equality(), Equality())
  {
    hide Mover;
    var l: Alive := (x: Word) => true;
    assert Lives(l, d, pc, a) && Carries(w, w', a.checks, l, Equality(), Equality());
  }

  lemma EqualInsn(w: World, w': World, order: bool, a: Core, insn: Insn)
    requires CollectAlike(w, w') && a.frames != [] && a.Top().Valid() && Regs(insn)
    ensures Blind(w, w', Equality(), order, a, insn)
  {
    hide Mover, Cmp64, FnTarget;
  }

  lemma EqualRest(a: Core, b: Core)
    requires SameRest(Equality(), a, b)
    ensures a.vr == b.vr && a.hs == b.hs && a.calls == b.calls && a.checks == b.checks
  {
    assert a.hs.saved == b.hs.saved;
  }

  /** The machines end together in states that differ in nothing. */
  ghost predicate EndEqual(w: World, w': World, j: nat -> Frame, j': nat -> Frame, p: Policy, i: IState, m: MState)
    requires Junk(j) && Junk(j')
  {
    && ((exists k: nat :: Returns(w, j, i, k)) <==> (exists n: nat :: Finishes(w', j', p, m, n)))
    && ((exists k: nat :: Faults(w, j, i, k)) <==> (exists n: nat :: Loses(w', j', p, m, n)))
    && forall k: nat, n: nat :: Returns(w, j, i, k) && Finishes(w', j', p, m, n) ==>
         var a, b := Run(w, j, i, k).value.core, MixedRun(w', j', p, m, n).core;
         a.vr == b.vr && a.hs == b.hs && a.calls == b.calls && a.checks == b.checks
  }

  /** Where they collect alike, the tiers agree on the very words. */
  lemma TiersEqual(w: World, w': World, j: nat -> Frame, j': nat -> Frame, d: Cert, p: Policy, c: Core, t: int)
    requires Setup(w, d, p) && SameProgram(w, w') && Junk(j) && Junk(j') && t in w.entries && Launched(c, t) && CollectAlike(w, w')
    requires AlwaysTranslates(w, p) || forall u :: u in p.funs ==> !p.funs[u].resumable
    requires ReachesRun(w, j, d, IState(c, t))
    ensures EndEqual(w, w', j, j', p, IState(c, t), Launch(p, c, t))
  {
    hide Begin, Run, MixedRun, SameRest, Usable, Rule, ReachesNow;
    var co: Corr := (n: nat) => Equality();
    assert t in d;
    forall k: nat | Run(w, j, IState(c, t), k).Some?
      ensures BlindNow(w, w', co, d, Run(w, j, IState(c, t), k).value)
    {
      EqualBlind(w, w', d, Run(w, j, IState(c, t), k).value);
    }
    hide BlindNow, Setup, CollectAlike, AlwaysTranslates;
    TiersAgree(w, w', j, j', co, d, p, c, t);
    forall k: nat, n: nat | Returns(w, j, IState(c, t), k) && Finishes(w', j', p, Launch(p, c, t), n)
      ensures var a, b := Run(w, j, IState(c, t), k).value.core, MixedRun(w', j', p, Launch(p, c, t), n).core;
        a.vr == b.vr && a.hs == b.hs && a.calls == b.calls && a.checks == b.checks
    {
      EqualRest(Run(w, j, IState(c, t), k).value.core, MixedRun(w', j', p, Launch(p, c, t), n).core);
    }
  }

  /** Above all, where neither ever collects. */
  lemma TiersEqualUncollected(w: World, w': World, j: nat -> Frame, j': nat -> Frame, d: Cert, p: Policy, c: Core, t: int)
    requires Setup(w, d, p) && SameProgram(w, w') && Junk(j) && Junk(j') && t in w.entries && Launched(c, t)
    requires (forall n :: !w.full(n) && !w'.full(n)) && forall op, x, y :: w'.alu(op, x, y) == w.alu(op, x, y)
    requires AlwaysTranslates(w, p) || forall u :: u in p.funs ==> !p.funs[u].resumable
    requires ReachesRun(w, j, d, IState(c, t))
    ensures EndEqual(w, w', j, j', p, IState(c, t), Launch(p, c, t))
  {
    NeverCollect(w, w');
    hide Setup, CollectAlike, AlwaysTranslates, EndEqual, ReachesRun;
    TiersEqual(w, w', j, j', d, p, c, t);
  }

  lemma NeverCollect(w: World, w': World)
    requires (forall n :: !w.full(n) && !w'.full(n)) && forall op, x, y :: w'.alu(op, x, y) == w.alu(op, x, y)
    ensures CollectAlike(w, w')
  {
  }
}
