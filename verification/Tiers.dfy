/** Both tiers together.  Interpreted activations run in nested calls of run(),
    translated ones under drive(), which keeps their continuations itself
    (web/mvm.js:945-954, 1155-1168, 1349-1392).  pend is the whole stack of
    pending work: drive's continuation arrays of every nested driver, with a
    mark wherever one tier called the other. */
module Tiers {
  import opened Words
  import opened Isa
  import opened Results
  import opened Interp
  import opened Translate

  datatype Item =
    | Cont(f: TFun, l: nat, depth: nat)    // contF, contL, contE: resume f at label l in frame depth
    | DriveCall(next: int)                 // execInsn of a call runs drive(), then goes on at next
    | DriveTail                            // execInsn of a tail call runs drive(), then goes on at this.pc
    | Nested(base: nat)                    // drive() runs an interpreted callee; base is run()'s baseEsp, as a frame depth

  datatype Ctl =
    | Interpreting(pc: int)
    | Compiled(f: TFun, chunk: nat, rest: seq<TOp>, loc: seq<Word>, cmp: int)
    | Finished                             // the outermost activation has returned
    | Lost                                 // a fault, or control has nowhere to go

  datatype MState = MState(core: Core, ctl: Ctl, pend: seq<Item>)

  /** Which functions have a translation, and which calls use it: compiledFor
      decides by call counts and per-site caches, here arbitrarily. */
  datatype Policy = Policy(funs: map<int, TFun>, pick: (nat, int) -> bool) {
    predicate Uses(calls: nat, t: int) {
      t in funs && pick(calls, t)
    }
  }

  /** Where control goes when an activation ends or an exception is caught. */
  datatype Landing =
    | ToEnd
    | ToInterp(pc: int, pend: seq<Item>)
    | ToTrans(f: TFun, l: nat, pend: seq<Item>)
    | ToNowhere

  // ---- locals ------------------------------------------------------------------------

  function Zero(): Word { Word(0, 0) }

  /** ENTRY and ENTRYX (web/mvm.js:1495, 1663): what a call f(vm, l) loads. */
  function Loaded(f: TFun, l: nat, home: seq<Word>): (r: seq<Word>)
    requires |home| == 16
    ensures |r| == 9
  {
    if l == 0 then home[..5] + [Zero(), Zero(), Zero(), Zero()]
    else if |f.chunks| == 1 then [Zero(), Zero(), Zero(), Zero(), home[4], Zero(), Zero(), Zero(), Zero()]
    else home[..9]
  }

  /** The call f(vm, l): find the chunk of the label and switch to it. */
  function Begin(f: TFun, l: nat, home: seq<Word>): Ctl
    requires |home| == 16
  {
    if l in f.chunkOf && f.chunkOf[l] < |f.chunks| then
      Compiled(f, f.chunkOf[l], Find(f.chunks[f.chunkOf[l]], l), Loaded(f, l, home), 0)
    else Lost
  }

  /** STORE and STORE5: spill the locals to the frame. */
  function Spill(c: Core, loc: seq<Word>): (r: Core)
    requires c.frames != [] && c.Top().Valid() && |loc| == 9
    ensures |r.frames| == |c.frames| && r.Top().Valid()
  {
    c.WithTop(c.Top().(home := loc + c.Top().home[9..]))
  }

  function Spill5(c: Core, loc: seq<Word>): (r: Core)
    requires c.frames != [] && c.Top().Valid() && |loc| == 9
    ensures |r.frames| == |c.frames| && r.Top().Valid()
  {
    c.WithTop(c.Top().(home := loc[..5] + c.Top().home[5..]))
  }

  function TGet(c: Core, loc: seq<Word>, v: nat): Word
    requires c.frames != [] && c.Top().Valid() && |loc| == 9 && v <= VR
  {
    if v < 9 then loc[v] else c.Get(v)
  }

  /** An open-coded instruction on the locals: the state, the locals and the
      flag variable behind it. */
  function ExecOpen(w: World, c: Core, loc: seq<Word>, cmp: int, insn: Insn): (r: Option<(Core, seq<Word>, int)>)
    requires c.frames != [] && c.Top().Valid() && |loc| == 9 && Regs(insn)
    ensures r.Some? ==> |r.value.0.frames| == |c.frames| && r.value.0.Top().Valid() && |r.value.1| == 9
  {
    match insn
    case Nop => Some((c, loc, cmp))
    case Mov(d, s) => TSet(c, loc, cmp, d, TGet(c, loc, s))
    case Li(d, x) => TSet(c, loc, cmp, d, x)
    case Alu(op, d, a, b) => TSet(c, loc, cmp, d, w.alu(op, TGet(c, loc, a), TGet(c, loc, b)))
    case Push(s) => Some((c.WithTop(c.Top().(stk := c.Top().stk + [TGet(c, loc, s)])), loc, cmp))
    case Pop(d) =>
      var k := c.Top().stk;
      if k == [] then None
      else TSet(c.WithTop(c.Top().(stk := k[..|k| - 1])), loc, cmp, d, k[|k| - 1])
    case Cmp(a, b) => Some((c, loc, Cmp64(TGet(c, loc, a), TGet(c, loc, b))))
    case SlotRef(d, idx) => TSet(c, loc, cmp, d, c.Top().slot[idx])
    case SlotSet(idx, s) => Some((c.WithTop(c.Top().(slot := c.Top().slot[idx := TGet(c, loc, s)])), loc, cmp))
    case _ => None
  }

  function TSet(c: Core, loc: seq<Word>, cmp: int, d: nat, x: Word): (r: Option<(Core, seq<Word>, int)>)
    requires c.frames != [] && c.Top().Valid() && |loc| == 9 && d <= VR
    ensures r.Some? && |r.value.0.frames| == |c.frames| && r.value.0.Top().Valid() && |r.value.1| == 9
  {
    if d < 9 then Some((c, loc[d := x], cmp)) else Some((c.Set(d, x), loc, cmp))
  }

  predicate TTaken(c: Core, loc: seq<Word>, cmp: int, g: Guard)
    requires c.frames != [] && c.Top().Valid() && |loc| == 9 && (g.IfNil? ==> g.s <= VR)
  {
    match g
    case Always => true
    case If(cond) => cond.Holds(cmp)
    case IfNil(s, sense) => (TGet(c, loc, s) == Nil()) == sense
  }

  // ---- returning ------------------------------------------------------------------------

  /** drive() when the running translated function, or the nested run() of an
      interpreted callee, has returned; ret is the return pc just popped. */
  function ReturnDriver(ret: int, pend: seq<Item>): Landing
    decreases |pend|
  {
    if pend == [] then ToEnd
    else
      var rest := pend[..|pend| - 1];
      match pend[|pend| - 1]
      case Cont(f, l, _) => ToTrans(f, l, rest)
      case DriveCall(next) => ToInterp(next, rest)
      case DriveTail => ReturnInterp(ret, rest)
      case Nested(_) => ToNowhere
  }

  /** The interpreter behind a return: the loop ends at the sentinel. */
  function ReturnInterp(ret: int, pend: seq<Item>): Landing
    decreases |pend|
  {
    if ret != SENTINEL then ToInterp(ret, pend)
    else if pend == [] then ToEnd
    else if pend[|pend| - 1].Nested? then ReturnDriver(SENTINEL, pend[..|pend| - 1])
    else ToNowhere
  }

  // ---- longjmp --------------------------------------------------------------------------

  /** The exception out of loop(): run() resumes when the restored frame is
      not above its own base, and rethrows otherwise.  The drive() below then
      drops its segment: its call of run() is not guarded. */
  function ThrowRun(h: Handler, pend: seq<Item>): Landing
    decreases |pend|
  {
    if pend == [] then ToInterp(h.ip, pend)
    else if !pend[|pend| - 1].Nested? then ToNowhere
    else if h.depth >= pend[|pend| - 1].base then ToInterp(h.ip, pend)
    else DropSegment(h, pend[..|pend| - 1])
  }

  function DropSegment(h: Handler, pend: seq<Item>): Landing
    decreases |pend|
  {
    if pend == [] then ToNowhere
    else
      var rest := pend[..|pend| - 1];
      match pend[|pend| - 1]
      case Cont(_, _, _) => DropSegment(h, rest)
      case DriveCall(_) | DriveTail => ThrowRun(h, rest)
      case Nested(_) => ToNowhere
  }

  /** The exception out of a translated function: drive() looks for the frame
      the longjmp restored among its own continuations. */
  function ThrowDriver(h: Handler, pend: seq<Item>): Landing
    decreases |pend|
  {
    if pend == [] then ToNowhere
    else
      var rest := pend[..|pend| - 1];
      match pend[|pend| - 1]
      case Cont(f, _, depth) => if depth == h.depth && Resumes(f, h.ip) then ToTrans(f, f.labels[h.ip], rest) else ThrowDriver(h, rest)
      case DriveCall(_) | DriveTail => ThrowRun(h, rest)
      case Nested(_) => ToNowhere
  }

  predicate Resumes(f: TFun, ip: int) {
    f.resumable && ip in f.labels
  }

  function ThrowTranslated(h: Handler, f: TFun, depth: nat, pend: seq<Item>): Landing {
    if depth == h.depth && Resumes(f, h.ip) then ToTrans(f, f.labels[h.ip], pend) else ThrowDriver(h, pend)
  }

  // ---- one step -----------------------------------------------------------------------------

  function Land(c: Core, to: Landing): MState {
    match to
    case ToEnd => MState(c, Finished, [])
    case ToInterp(pc, pend) => MState(c, Interpreting(pc), pend)
    case ToTrans(f, l, pend) => MState(c, if c.frames != [] && c.Top().Valid() then Begin(f, l, c.Top().home) else Lost, pend)
    case ToNowhere => MState(c, Lost, [])
  }

  /** A callee's frame is in place: start it in the tier chosen for it.  mark
      is the pending item when it is translated. */
  function Start(p: Policy, c: Core, t: int, compiled: bool, pend: seq<Item>, mark: seq<Item>): MState
    requires c.frames != [] && c.Top().Valid() && (compiled ==> t in p.funs)
  {
    if compiled then MState(c, Begin(p.funs[t], 0, c.Top().home), pend + mark)
    else MState(c, Interpreting(t), pend)
  }

  function StepInterp(w: World, junk: nat -> Frame, p: Policy, s: MState, pc: int): MState
    requires forall n: nat :: junk(n).Valid()
  {
    var c := s.core;
    var lost := MState(c, Lost, s.pend);
    if c.frames == [] || !c.Top().Valid() || pc !in w.code || !Regs(w.code[pc].insn) then lost
    else
      var insn := w.code[pc].insn;
      var next := pc + w.code[pc].len;
      if IsLocal(insn) then
        match ExecLocal(w, c, insn, next)
        case None => lost
        case Some(d) => MState(d, Interpreting(next), s.pend)
      else
        match insn
        case Call(t) => CallInterp(w, junk, p, s, t, next)
        case CallInd(r) => (
          match FnTarget(c.Get(r))
          case None => if Armed(c) then Land(Restore(c), ThrowRun(c.hs.cur.value, s.pend)) else lost
          case Some(t) => CallInterp(w, junk, p, s, t, next)
        )
        case Tail(t) =>
          if t !in w.entries then lost
          else Start(p, Replace(junk(c.calls), c, t), t, p.Uses(c.calls, t), s.pend, [DriveTail])
        case Ret => Land(PopFrame(c), ReturnInterp(c.Top().ret, s.pend))
        case Longjmp => if Armed(c) then Land(Restore(c), ThrowRun(c.hs.cur.value, s.pend)) else lost
        case _ => MState(c, Interpreting(if Taken(c, insn) then Goal(insn) else next), s.pend)
  }

  /** A call from interpreted code: a translated callee gets the sentinel as
      its return pc and runs under a new drive(). */
  function CallInterp(w: World, junk: nat -> Frame, p: Policy, s: MState, t: int, next: int): MState
    requires s.core.frames != [] && s.core.Top().Valid() && forall n: nat :: junk(n).Valid()
  {
    var c := s.core;
    var compiled := p.Uses(c.calls, t);
    if t !in w.entries then MState(c, Lost, s.pend)
    else Start(p, Enter(junk(c.calls), c, t, if compiled then SENTINEL else next), t, compiled, s.pend, [DriveCall(next)])
  }

  function StepTrans(w: World, junk: nat -> Frame, p: Policy, s: MState): MState
    requires forall n: nat :: junk(n).Valid()
    requires s.ctl.Compiled?
  {
    var c, k := s.core, s.ctl;
    var lost := MState(c, Lost, s.pend);
    if c.frames == [] || !c.Top().Valid() || |k.loc| != 9 || k.rest == [] then lost
    else
      match k.rest[0]
      case Case(_) => s.(ctl := k.(rest := k.rest[1..]))
      case Do(insn) => (
        if !Regs(insn) then lost else
        match ExecOpen(w, c, k.loc, k.cmp, insn)
        case None => lost
        case Some(r) => MState(r.0, k.(rest := k.rest[1..], loc := r.1, cmp := r.2), s.pend)
      )
      case Goto(g, l) =>
        if (g.IfNil? && g.s > VR) || k.chunk >= |k.f.chunks| then lost
        else s.(ctl := k.(rest := if TTaken(c, k.loc, k.cmp, g) then Find(k.f.chunks[k.chunk], l) else k.rest[1..]))
      case Leave(g, l) =>
        if g.IfNil? && g.s > VR then lost
        else if TTaken(c, k.loc, k.cmp, g) then
          var d := Spill(c, k.loc);
          MState(d, Begin(k.f, l, d.Top().home), s.pend)
        else s.(ctl := k.(rest := k.rest[1..]))
      case CallOp(Direct(t), l) => CallTrans(w, junk, p, s, t, l)
      case CallOp(Through(r), l) => (
        if r > VR then lost else
        match FnTarget(TGet(c, k.loc, r))
        case None => ThrowFrom(s, Spill5(c, k.loc))
        case Some(t) => CallTrans(w, junk, p, s, t, l)
      )
      case TailOp(t) =>
        if t !in w.entries then lost
        else
          var d := Spill5(c, k.loc);
          var compiled := p.Uses(c.calls, t);
          Start(p, Replace(junk(c.calls), d, t), t, compiled, if compiled then s.pend else s.pend + [Nested(|c.frames|)], [])
      case RetOp => Land(PopFrame(c), ReturnDriver(c.Top().ret, s.pend))
      case GcOp =>
        var d := if w.full(c.checks) then Collect(w.move, Spill(c, k.loc)) else c;
        if !d.Top().Valid() then lost
        else MState(d.(checks := c.checks + 1), k.(rest := k.rest[1..], loc := if w.full(c.checks) then d.Top().home[..9] else k.loc), s.pend)
      case SpillDo(insn, next) => (
        var d := Spill(c, k.loc);
        if insn.Longjmp? then ThrowFrom(s, d)
        else if !Regs(insn) || !IsLocal(insn) then lost
        else match ExecLocal(w, d, insn, next)
        case None => lost
        case Some(e) => MState(e, k.(rest := k.rest[1..], loc := e.Top().home[..9]), s.pend)
      )
      case Fell => lost
  }

  /** A longjmp raised while a translated function runs, after its spill. */
  function ThrowFrom(s: MState, d: Core): MState
    requires s.ctl.Compiled?
  {
    if Armed(d) then Land(Restore(d), ThrowTranslated(d.hs.cur.value, s.ctl.f, |d.frames|, s.pend))
    else MState(d, Lost, s.pend)
  }

  /** A call from translated code: the driver keeps the continuation. */
  function CallTrans(w: World, junk: nat -> Frame, p: Policy, s: MState, t: int, l: nat): MState
    requires s.ctl.Compiled? && |s.ctl.loc| == 9
    requires s.core.frames != [] && s.core.Top().Valid() && forall n: nat :: junk(n).Valid()
  {
    var c := s.core;
    if t !in w.entries then MState(c, Lost, s.pend)
    else
      var compiled := p.Uses(c.calls, t);
      var pend := s.pend + [Cont(s.ctl.f, l, |c.frames|)];
      Start(p, Enter(junk(c.calls), Spill5(c, s.ctl.loc), t, SENTINEL), t, compiled,
            if compiled then pend else pend + [Nested(|c.frames| + 1)], [])
  }

  function MixedStep(w: World, junk: nat -> Frame, p: Policy, s: MState): MState
    requires forall n: nat :: junk(n).Valid()
  {
    match s.ctl
    case Interpreting(pc) => StepInterp(w, junk, p, s, pc)
    case Compiled(_, _, _, _, _) => StepTrans(w, junk, p, s)
    case _ => s
  }

  function MixedRun(w: World, junk: nat -> Frame, p: Policy, s: MState, n: nat): MState
    requires forall k: nat :: junk(k).Valid()
    decreases n
  {
    if n == 0 then s else MixedRun(w, junk, p, MixedStep(w, junk, p, s), n - 1)
  }
}
